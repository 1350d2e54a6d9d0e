/** The part of a cache key that says which encodings a client accepts. */
module AcceptEncoding {
  import opened Basics
  import opened Names

  /** What is before the first semicolon, and what is after it. */
  function Cut(s: string): (string, string) {
    if |s| == 0 then ("", "")
    else if s[0] == ';' then ("", s[1..])
    else
      var rest := Cut(s[1..]);
      ([s[0]] + rest.0, rest.1)
  }

  function WithoutSpaces(s: string): string {
    if |s| == 0 then "" else (if s[0] == ' ' then "" else [s[0]]) + WithoutSpaces(s[1..])
  }

  function Coding(part: string): string { Norm(Cut(part).0) }

  /** `zero` says of the text of a weight that it is the number zero. */
  predicate Declined(part: string, zero: string -> bool) {
    var weight := WithoutSpaces(Lower(Cut(part).1));
    "q=" <= weight && zero(weight[2..])
  }

  function Accepted(parts: seq<string>, zero: string -> bool): seq<string> {
    if |parts| == 0 then []
    else
      var front, part := Accepted(parts[..|parts| - 1], zero), parts[|parts| - 1];
      if Coding(part) == "" || Coding(part) in front || Declined(part, zero) then front else front + [Coding(part)]
  }

  function Key(header: string, zero: string -> bool): string { Join(Sort(Accepted(Split(header, ','), zero))) }

  method NormalizeAcceptEncoding(header: string, zero: string -> bool) returns (key: string)
    ensures key == Key(header, zero)
  {
    var parts := Split(header, ',');
    var codings: seq<string>, seen: set<string> := [], {};
    var i := 0;
    while i < |parts|
      invariant i <= |parts| && codings == Accepted(parts[..i], zero)
      invariant forall c :: c in seen <==> c in codings
    {
      assert parts[..i + 1][..i] == parts[..i];
      var coding := Coding(parts[i]);
      var weight := WithoutSpaces(Lower(Cut(parts[i]).1));
      i := i + 1;
      if coding == "" || coding in seen { continue; }
      if "q=" <= weight && zero(weight[2..]) { continue; }
      seen := seen + {coding};
      codings := codings + [coding];
    }
    assert parts[..i] == parts;
    return Join(Sort(codings));
  }

  /** The codings a header accepts: those some part names without refusing it. */
  ghost function Accepts(header: string, zero: string -> bool): set<string> {
    set part | part in Split(header, ',') && Coding(part) != "" && !Declined(part, zero) :: Coding(part)
  }

  lemma {:induction false} AcceptedMeaning(parts: seq<string>, zero: string -> bool)
    ensures forall c :: c in Accepted(parts, zero) <==>
      exists part :: part in parts && Coding(part) == c && c != "" && !Declined(part, zero)
    ensures forall i, j :: 0 <= i < j < |Accepted(parts, zero)| ==> Accepted(parts, zero)[i] != Accepted(parts, zero)[j]
  {
    if |parts| > 0 {
      var front, last := parts[..|parts| - 1], parts[|parts| - 1];
      AcceptedMeaning(front, zero);
      assert parts == front + [last];
      forall c ensures c in Accepted(parts, zero) <==>
        exists part :: part in parts && Coding(part) == c && c != "" && !Declined(part, zero)
      {
        AcceptedStep(front, last, zero, c);
      }
    }
  }

  lemma AcceptedStep(front: seq<string>, last: string, zero: string -> bool, c: string)
    requires c in Accepted(front, zero) <==>
      exists part :: part in front && Coding(part) == c && c != "" && !Declined(part, zero)
    requires Coding(last) in Accepted(front, zero) <==>
      exists part :: part in front && Coding(part) == Coding(last) && Coding(last) != "" && !Declined(part, zero)
    ensures c in Accepted(front + [last], zero) <==>
      exists part :: part in front + [last] && Coding(part) == c && c != "" && !Declined(part, zero)
  {
    hide Coding, Declined;
    assert (front + [last])[..|front|] == front;
    if c in Accepted(front + [last], zero) {
      if c in Accepted(front, zero) {
        var part :| part in front && Coding(part) == c && c != "" && !Declined(part, zero);
        assert part in front + [last];
      } else {
        assert last in front + [last];
      }
    }
  }

  lemma {:induction false} PartsHoldNoComma(s: string, i: nat)
    requires i < |Split(s, ',')|
    ensures ',' !in Split(s, ',')[i]
  {
    if |s| > 0 {
      if s[0] == ',' {
        if i > 0 { PartsHoldNoComma(s[1..], i - 1); }
      } else {
        PartsHoldNoComma(s[1..], i);
      }
    }
  }

  lemma {:induction false} CutHoldsNoMore(s: string, c: char)
    requires c !in s
    ensures c !in Cut(s).0
  {
    if |s| > 0 && s[0] != ';' {
      assert s[0] in s;
      CutHoldsNoMore(s[1..], c);
    }
  }

  lemma {:induction false} TrimHoldsNoMore(s: string, c: char)
    requires c !in s
    ensures c !in Trim(s)
    decreases |s|
  {
    if |s| > 0 && IsSpace(s[0]) {
      TrimHoldsNoMore(s[1..], c);
    } else if |s| > 0 && IsSpace(s[|s| - 1]) {
      TrimHoldsNoMore(s[..|s| - 1], c);
    }
  }

  lemma CodingHoldsNoComma(part: string)
    requires ',' !in part
    ensures ',' !in Coding(part)
  {
    CutHoldsNoMore(part, ',');
    TrimHoldsNoMore(Cut(part).0, ',');
    LowerShape(Trim(Cut(part).0));
    forall i | 0 <= i < |Coding(part)| ensures Coding(part)[i] != ',' {
      assert Trim(Cut(part).0)[i] in Trim(Cut(part).0);
    }
  }

  lemma AcceptedArePlain(header: string, zero: string -> bool)
    ensures forall i :: 0 <= i < |Accepted(Split(header, ','), zero)| ==> Plain(Accepted(Split(header, ','), zero)[i])
  {
    hide Coding, Declined, Split, Accepted;
    var codings := Accepted(Split(header, ','), zero);
    AcceptedMeaning(Split(header, ','), zero);
    forall i | 0 <= i < |codings| ensures Plain(codings[i]) {
      assert codings[i] in codings;
      var part :| part in Split(header, ',') && Coding(part) == codings[i] && codings[i] != "" && !Declined(part, zero);
      var j :| 0 <= j < |Split(header, ',')| && Split(header, ',')[j] == part;
      PartsHoldNoComma(header, j);
      CodingHoldsNoComma(part);
    }
  }

  /** Two headers share the key exactly when they accept the same codings, in whatever
      order, case and spacing, and however often they name one. */
  lemma KeyIsTheSetOfCodings(a: string, b: string, zero: string -> bool)
    ensures Key(a, zero) == Key(b, zero) <==> Accepts(a, zero) == Accepts(b, zero)
  {
    hide Split, Coding, Declined, Accepted, Sort, Join, Le, Plain;
    var x, y := Accepted(Split(a, ','), zero), Accepted(Split(b, ','), zero);
    AcceptedMeaning(Split(a, ','), zero);
    AcceptedMeaning(Split(b, ','), zero);
    assert forall c :: c in x <==> c in Accepts(a, zero);
    assert forall c :: c in y <==> c in Accepts(b, zero);
    AcceptedArePlain(a, zero);
    AcceptedArePlain(b, zero);
    SortSorts(x);
    SortSorts(y);
    SortedArePlain(x);
    SortedArePlain(y);
    if Key(a, zero) == Key(b, zero) {
      JoinOnce(Sort(x), Sort(y));
      assert forall c :: c in x <==> c in multiset(x);
      assert forall c :: c in y <==> c in multiset(y);
    }
    if Accepts(a, zero) == Accepts(b, zero) {
      SameSetSameMultiset(x, y);
      SortedOnce(Sort(x), Sort(y));
    }
  }

  // ---- the pieces of a part ----

  lemma {:induction false} CutMeaning(s: string, head: string, tail: string)
    ensures Cut(s) == (head, tail) <==> ';' !in head && (s == head + ";" + tail || (s == head && tail == ""))
  {
    if |s| > 0 && s[0] != ';' {
      if |head| > 0 {
        CutMeaning(s[1..], head[1..], tail);
        assert head == [head[0]] + head[1..];
        assert s == [s[0]] + s[1..];
        assert head + ";" + tail == [head[0]] + (head[1..] + ";" + tail);
        assert (head + ";" + tail)[1..] == head[1..] + ";" + tail;
      } else {
        assert (head + ";" + tail)[0] == ';';
      }
    } else if |s| > 0 {
      if |head| > 0 {
        assert (head + ";" + tail)[0] == head[0] && head[0] in head;
      } else {
        assert (head + ";" + tail)[1..] == tail;
        assert s == ";" + s[1..];
      }
    }
  }

  /** Where there is no space nothing changes, and a space anywhere is as good as none. */
  lemma {:induction false} SpacesDoNotMatter(a: string, b: string)
    ensures ' ' !in a ==> WithoutSpaces(a) == a
    ensures WithoutSpaces(a + " " + b) == WithoutSpaces(a + b)
  {
    if |a| == 0 {
      assert (a + " " + b)[1..] == b && a + b == b;
    } else {
      assert a[0] in a && a == [a[0]] + a[1..];
      SpacesDoNotMatter(a[1..], b);
      assert (a + " " + b)[1..] == a[1..] + " " + b;
      assert (a + b)[1..] == a[1..] + b;
    }
  }
}
