/** What the functions on text compute, said by what their results are made of. */
module TextMeaning {
  import opened Basics
  import opened Names

  ghost function Small(): string { "abcdefghijklmnopqrstuvwxyz" }

  ghost function Capital(): string { "ABCDEFGHIJKLMNOPQRSTUVWXYZ" }

  ghost function Digits(): string { "0123456789" }

  ghost function Spaces(): string { "\t\n\U{0B}\U{0C}\r \U{85}\U{A0}" }

  lemma LettersInOrder()
    ensures |Small()| == |Capital()| == 26
    ensures forall k :: 0 <= k < 26 ==> Small()[k] == 'a' + k as char
    ensures forall k :: 0 <= k < 26 ==> Capital()[k] == 'A' + k as char
  {
  }

  lemma DigitsInOrder()
    ensures |Digits()| == 10 && forall k :: 0 <= k < 10 ==> Digits()[k] == '0' + k as char
  {
  }

  lemma SmallMeaning(c: char)
    ensures c in Small() <==> 'a' <= c <= 'z'
  {
    LettersInOrder();
    hide Small, Capital;
    if 'a' <= c <= 'z' { assert Small()[(c - 'a') as int] == c; }
  }

  lemma DigitMeaning(c: char)
    ensures c in Digits() <==> '0' <= c <= '9'
  {
    DigitsInOrder();
    hide Digits;
    if '0' <= c <= '9' { assert Digits()[(c - '0') as int] == c; }
  }

  lemma SpaceMeaning(c: char)
    ensures IsSpace(c) <==> c in Spaces()
  {
    var s := Spaces();
    assert |s| == 8 && s[0] == '\t' && s[1] == '\n' && s[2] == '\U{0B}' && s[3] == '\U{0C}' && s[4] == '\r';
    assert s[5] == ' ' && s[6] == '\U{85}' && s[7] == '\U{A0}';
  }

  // ---- trimming ----

  /** Outside the places from i to j there are only spaces. */
  ghost predicate SpacesAround(s: string, i: nat, j: nat)
    requires i <= j <= |s|
  {
    (forall k :: 0 <= k < i ==> s[k] in Spaces()) && (forall k :: j <= k < |s| ==> s[k] in Spaces())
  }

  /** t is s without the spaces around it. */
  ghost predicate Trimmed(s: string, t: string) {
    && (exists i, j :: 0 <= i <= j <= |s| && SpacesAround(s, i, j) && t == s[i..j])
    && NoSpaceAtEnds(t)
  }

  ghost predicate NoSpaceAtEnds(t: string) { t != "" ==> t[0] !in Spaces() && t[|t| - 1] !in Spaces() }

  lemma {:induction false} TrimPadded(s: string, i: nat, j: nat)
    requires i <= j <= |s| && SpacesAround(s, i, j) && NoSpaceAtEnds(s[i..j])
    ensures Trim(s) == s[i..j]
    decreases |s|
  {
    hide IsSpace, Spaces;
    if |s| > 0 {
      SpaceMeaning(s[0]);
      SpaceMeaning(s[|s| - 1]);
      if i > 0 {
        assert s[1..][i - 1..j - 1] == s[i..j];
        TrimPadded(s[1..], i - 1, j - 1);
      } else if j == 0 {
        assert s[1..][0..0] == s[0..0];
        TrimPadded(s[1..], 0, 0);
      } else {
        assert s[0..j][0] == s[0] && s[0..j][j - 1] == s[j - 1];
        if j < |s| {
          assert s[..|s| - 1][0..j] == s[0..j];
          TrimPadded(s[..|s| - 1], 0, j);
        }
      }
    }
  }

  lemma {:induction false} TrimLeaves(s: string)
    ensures exists i, j :: 0 <= i <= j <= |s| && SpacesAround(s, i, j) && Trim(s) == s[i..j]
    ensures NoSpaceAtEnds(Trim(s))
    decreases |s|
  {
    hide IsSpace, Spaces;
    if |s| == 0 {
      assert SpacesAround(s, 0, 0) && s == s[0..0];
    } else {
      SpaceMeaning(s[0]);
      SpaceMeaning(s[|s| - 1]);
      if IsSpace(s[0]) {
        TrimLeaves(s[1..]);
        var i, j :| 0 <= i <= j <= |s| - 1 && SpacesAround(s[1..], i, j) && Trim(s[1..]) == s[1..][i..j];
        assert s[1..][i..j] == s[i + 1..j + 1];
        ShiftedSpaces(s, i, j);
      } else if IsSpace(s[|s| - 1]) {
        var front := s[..|s| - 1];
        TrimLeaves(front);
        var i, j :| 0 <= i <= j <= |s| - 1 && SpacesAround(front, i, j) && Trim(front) == front[i..j];
        assert front[i..j] == s[i..j];
        assert SpacesAround(s, i, j);
      } else {
        assert SpacesAround(s, 0, |s|) && s == s[0..|s|];
      }
    }
  }

  lemma ShiftedSpaces(s: string, i: nat, j: nat)
    requires i <= j < |s| && s[0] in Spaces() && SpacesAround(s[1..], i, j)
    ensures SpacesAround(s, i + 1, j + 1)
  {
    hide Spaces;
    assert forall k :: 1 <= k < |s| ==> s[k] == s[1..][k - 1];
  }

  lemma TrimMeaning(s: string, t: string)
    ensures t == Trim(s) <==> Trimmed(s, t)
  {
    hide Trim, Spaces, SpacesAround, NoSpaceAtEnds;
    TrimLeaves(s);
    if Trimmed(s, t) {
      var i, j :| 0 <= i <= j <= |s| && SpacesAround(s, i, j) && t == s[i..j];
      TrimPadded(s, i, j);
    }
  }

  // ---- lower case and capitals ----

  /** d is the small letter of c, or c itself where it is no capital. */
  ghost predicate IsSmall(c: char, d: char) {
    (exists k :: 0 <= k < 26 && Capital()[k] == c && Small()[k] == d) || (c !in Capital() && d == c)
  }

  lemma LowerCharMeaning(c: char, d: char)
    ensures IsSmall(c, d) <==> d == LowerChar(c)
  {
    LettersInOrder();
    hide Small, Capital;
    if 'A' <= c <= 'Z' {
      var k := (c - 'A') as int;
      assert Capital()[k] == c && Small()[k] == LowerChar(c);
    }
  }

  /** Lower case changes the capitals of the alphabet to small letters, and nothing else. */
  lemma LowerMeaning(s: string, t: string)
    ensures t == Lower(s) <==> |s| == |t| && forall i :: 0 <= i < |s| ==> IsSmall(s[i], t[i])
  {
    LowerShape(s);
    hide Lower, LowerChar, IsSmall;
    forall c, d ensures IsSmall(c, d) <==> d == LowerChar(c) { LowerCharMeaning(c, d); }
    if |s| == |t| && forall i :: 0 <= i < |s| ==> IsSmall(s[i], t[i]) {
      assert forall i :: 0 <= i < |s| ==> t[i] == Lower(s)[i];
    }
  }

  // ---- what separators separate ----

  /** The parts in their order with c between them. */
  ghost function Glued(parts: seq<string>, c: char): string
    requires |parts| > 0
  {
    if |parts| == 1 then parts[0] else parts[0] + [c] + Glued(parts[1..], c)
  }

  lemma {:induction false} SplitGlued(s: string, c: char)
    ensures Glued(Split(s, c), c) == s
    ensures forall i :: 0 <= i < |Split(s, c)| ==> c !in Split(s, c)[i]
  {
    if |s| > 0 {
      SplitGlued(s[1..], c);
      var rest := Split(s[1..], c);
      assert s == [s[0]] + s[1..];
      if s[0] == c {
        assert Split(s, c)[1..] == rest;
      } else {
        assert Split(s, c)[1..] == rest[1..];
        assert rest == [rest[0]] + rest[1..];
      }
    }
  }

  lemma {:induction false} SplitOfGlued(parts: seq<string>, c: char)
    requires |parts| > 0 && forall i :: 0 <= i < |parts| ==> c !in parts[i]
    ensures Split(Glued(parts, c), c) == parts
    decreases |parts|, |parts[0]|
  {
    var s, head := Glued(parts, c), parts[0];
    if |head| > 0 {
      var less := [head[1..]] + parts[1..];
      assert less[1..] == parts[1..] && head[0] in head;
      SplitOfGlued(less, c);
      assert s[1..] == Glued(less, c);
      assert parts == [head] + parts[1..] && head == [head[0]] + head[1..];
    } else if |parts| > 1 {
      SplitOfGlued(parts[1..], c);
      assert s[1..] == Glued(parts[1..], c);
      assert parts == [head] + parts[1..];
    }
  }

  /** Splitting is the one way to take text apart at a character. */
  lemma SplitMeaning(s: string, c: char, parts: seq<string>)
    ensures parts == Split(s, c) <==>
      |parts| > 0 && (forall i :: 0 <= i < |parts| ==> c !in parts[i]) && s == Glued(parts, c)
  {
    SplitGlued(s, c);
    if |parts| > 0 && (forall i :: 0 <= i < |parts| ==> c !in parts[i]) && s == Glued(parts, c) { SplitOfGlued(parts, c); }
  }

  // ---- domain names ----

  ghost predicate LabelText(s: string) {
    && 1 <= |s| <= 63 && s[0] != '-' && s[|s| - 1] != '-'
    && forall i :: 0 <= i < |s| ==> s[i] in Small() || s[i] in Digits() || s[i] == '-'
  }

  ghost predicate TopText(s: string) { |s| >= 2 && forall i :: 0 <= i < |s| ==> s[i] in Small() }

  /** Labels with dots between them, the last of several a top-level name, and in front
      of several perhaps a wildcard. */
  ghost predicate DomainText(d: string, labels: seq<string>, wild: bool) {
    && |labels| > 0 && (forall i :: 0 <= i < |labels| ==> LabelText(labels[i]))
    && |Glued(labels, '.')| <= 253
    && d == (if wild then "*." else "") + Glued(labels, '.')
    && (if |labels| == 1 then !wild else TopText(labels[|labels| - 1]))
  }

  lemma LabelMeaning(s: string)
    ensures IsLabel(s) && |s| <= 63 <==> LabelText(s)
    ensures Letters(s) <==> TopText(s)
  {
    hide Small, Digits;
    forall i | 0 <= i < |s|
      ensures Alnum(s[i]) <==> s[i] in Small() || s[i] in Digits()
      ensures 'a' <= s[i] <= 'z' <==> s[i] in Small()
      ensures s[i] == '-' ==> s[i] !in Small() && s[i] !in Digits()
    {
      SmallMeaning(s[i]);
      DigitMeaning(s[i]);
    }
  }

  lemma NoDotInLabel(s: string)
    requires LabelText(s)
    ensures '.' !in s && '*' !in s
  {
    hide Small, Digits;
    forall i | 0 <= i < |s| ensures s[i] != '.' && s[i] != '*' {
      SmallMeaning(s[i]);
      DigitMeaning(s[i]);
    }
  }

  lemma DomainMeaning(d: string)
    ensures IsDomain(d) <==> exists labels, wild :: DomainText(d, labels, wild)
  {
    hide LabelText, TopText, Split, Glued, IsLabel, Letters;
    var name := WithoutWildcard(d);
    var labels := Split(name, '.');
    SplitGlued(name, '.');
    forall s: string ensures (IsLabel(s) && |s| <= 63 <==> LabelText(s)) && (Letters(s) <==> TopText(s)) { LabelMeaning(s); }
    if IsDomain(d) {
      assert d == (if name != d then "*." else "") + name;
      assert DomainText(d, labels, name != d);
    }
    if exists ls, wild :: DomainText(d, ls, wild) {
      var ls, wild :| DomainText(d, ls, wild);
      DomainParts(d, ls, wild);
    }
  }

  /** The labels of a domain can be read back from it. */
  lemma DomainParts(d: string, labels: seq<string>, wild: bool)
    requires DomainText(d, labels, wild)
    ensures WithoutWildcard(d) == Glued(labels, '.') && Split(WithoutWildcard(d), '.') == labels
    ensures wild <==> WithoutWildcard(d) != d
  {
    hide TopText, Split, Glued, LabelText;
    forall i | 0 <= i < |labels| ensures '.' !in labels[i] { NoDotInLabel(labels[i]); }
    SplitOfGlued(labels, '.');
    NoDotInLabel(labels[0]);
    var name := Glued(labels, '.');
    GluedHead(labels, '.');
    assert name[0] != '*';
    if wild {
      assert d[..2] == "*." && d[2..] == name;
    } else {
      assert d == name;
      StarFirst(d);
    }
  }

  lemma StarFirst(d: string)
    ensures "*." <= d ==> d[0] == '*'
  {
    if "*." <= d { assert d[0] == "*."[0]; }
  }

  lemma GluedHead(parts: seq<string>, c: char)
    requires |parts| > 0 && LabelText(parts[0])
    ensures Glued(parts, c) != "" && Glued(parts, c)[0] in parts[0]
  {
    assert Glued(parts, c)[0] == parts[0][0];
  }
}
