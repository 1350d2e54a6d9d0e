/** Text as the configuration stores it: trimming, lower case, domain names, and the
    key a host is matched by. */
module Names {
  import opened Basics

  predicate IsSpace(c: char) {
    c == ' ' || '\t' <= c <= '\r' || c == '\U{85}' || c == '\U{A0}'
  }

  function Trim(s: string): string {
    if |s| == 0 then s
    else if IsSpace(s[0]) then Trim(s[1..])
    else if IsSpace(s[|s| - 1]) then Trim(s[..|s| - 1])
    else s
  }

  function LowerChar(c: char): char { if 'A' <= c <= 'Z' then c + ' ' else c }

  function Lower(s: string): string {
    if |s| == 0 then s else [LowerChar(s[0])] + Lower(s[1..])
  }

  function Norm(s: string): string { Lower(Trim(s)) }

  function NormAll(ds: seq<string>): seq<string> {
    if |ds| == 0 then [] else [Norm(ds[0])] + NormAll(ds[1..])
  }

  function NonEmpty(ds: seq<string>): seq<string> {
    if |ds| == 0 then [] else (if ds[0] == "" then [] else [ds[0]]) + NonEmpty(ds[1..])
  }

  /** Byte order, which for text is code point order. */
  predicate Le(a: string, b: string) {
    |a| == 0 || (|b| > 0 && (a[0] < b[0] || (a[0] == b[0] && Le(a[1..], b[1..]))))
  }

  function Insert(s: string, xs: seq<string>): seq<string> {
    if |xs| == 0 || Le(s, xs[0]) then [s] + xs else [xs[0]] + Insert(s, xs[1..])
  }

  function Sort(xs: seq<string>): seq<string> {
    if |xs| == 0 then [] else Insert(xs[0], Sort(xs[1..]))
  }

  function Join(xs: seq<string>): string {
    if |xs| == 0 then "" else if |xs| == 1 then xs[0] else xs[0] + "," + Join(xs[1..])
  }

  /** What a host is matched by: its domains in stored form, sorted. */
  function DomainKey(domains: seq<string>): string { Join(Sort(NonEmpty(NormAll(domains)))) }

  // ---- domain names ----

  predicate Alnum(c: char) { 'a' <= c <= 'z' || '0' <= c <= '9' }

  predicate Letters(s: string) { |s| >= 2 && forall i :: 0 <= i < |s| ==> 'a' <= s[i] <= 'z' }

  predicate IsLabel(s: string) {
    |s| > 0 && Alnum(s[0]) && Alnum(s[|s| - 1]) && forall i :: 0 <= i < |s| ==> Alnum(s[i]) || s[i] == '-'
  }

  /** What is between the occurrences of c. */
  function Split(s: string, c: char): (r: seq<string>)
    ensures |r| > 0
  {
    if |s| == 0 then [""]
    else
      var rest := Split(s[1..], c);
      if s[0] == c then [""] + rest else [[s[0]] + rest[0]] + rest[1..]
  }

  function WithoutWildcard(d: string): string { if "*." <= d then d[2..] else d }

  /** One label, or several of which the last is letters, with or without a wildcard in
      front; 63 and 253 bound the lengths. */
  predicate IsDomain(d: string) {
    var name := WithoutWildcard(d);
    var labels := Split(name, '.');
    && |name| <= 253
    && (forall i :: 0 <= i < |labels| ==> IsLabel(labels[i]) && |labels[i]| <= 63)
    && (if |labels| == 1 then name == d else Letters(labels[|labels| - 1]))
  }

  // ---- trimming and lower case are idempotent ----

  lemma {:induction false} TrimmedEnds(s: string)
    ensures Trim(s) == "" || (!IsSpace(Trim(s)[0]) && !IsSpace(Trim(s)[|Trim(s)| - 1]))
    decreases |s|
  {
    if |s| > 0 && IsSpace(s[0]) {
      TrimmedEnds(s[1..]);
    } else if |s| > 0 && IsSpace(s[|s| - 1]) {
      TrimmedEnds(s[..|s| - 1]);
    }
  }

  lemma TrimTwice(s: string)
    ensures Trim(Trim(s)) == Trim(s)
  {
    TrimmedEnds(s);
  }

  lemma {:induction false} LowerShape(s: string)
    ensures |Lower(s)| == |s|
    ensures forall i :: 0 <= i < |s| ==> Lower(s)[i] == LowerChar(s[i])
  {
    if |s| > 0 { LowerShape(s[1..]); }
  }

  lemma {:induction false} LowerOfPart(s: string, i: nat, j: nat)
    requires i <= j <= |s| == |Lower(s)|
    ensures Lower(s[i..j]) == Lower(s)[i..j]
  {
    LowerShape(s);
    LowerShape(s[i..j]);
  }

  lemma {:induction false} TrimOfLower(s: string)
    ensures Trim(Lower(s)) == Lower(Trim(s))
    decreases |s|
  {
    LowerShape(s);
    if |s| > 0 && IsSpace(s[0]) {
      LowerOfPart(s, 1, |s|);
      TrimOfLower(s[1..]);
    } else if |s| > 0 && IsSpace(s[|s| - 1]) {
      LowerOfPart(s, 0, |s| - 1);
      TrimOfLower(s[..|s| - 1]);
    }
  }

  lemma NormTwice(s: string)
    ensures Norm(Norm(s)) == Norm(s)
  {
    TrimOfLower(Trim(s));
    TrimTwice(s);
    LowerShape(Trim(s));
    LowerShape(Lower(Trim(s)));
  }

  lemma {:induction false} NormAllTwice(ds: seq<string>)
    ensures NormAll(NormAll(ds)) == NormAll(ds)
  {
    if |ds| > 0 {
      NormTwice(ds[0]);
      NormAllTwice(ds[1..]);
    }
  }

  /** A host keeps its key when its domains are stored. */
  lemma KeyOfStored(domains: seq<string>)
    ensures DomainKey(NormAll(domains)) == DomainKey(domains)
  {
    NormAllTwice(domains);
  }

  lemma {:induction false} NormAllShape(ds: seq<string>)
    ensures |NormAll(ds)| == |ds|
    ensures forall i :: 0 <= i < |ds| ==> NormAll(ds)[i] == Norm(ds[i])
  {
    if |ds| > 0 { NormAllShape(ds[1..]); }
  }

  // ---- the key is the set of domains ----

  lemma {:induction false} LeTotal(a: string, b: string)
    ensures Le(a, b) || Le(b, a)
    ensures Le(a, b) && Le(b, a) ==> a == b
  {
    if |a| > 0 && |b| > 0 && a[0] == b[0] {
      LeTotal(a[1..], b[1..]);
      if Le(a, b) && Le(b, a) { assert a == [a[0]] + a[1..] && b == [b[0]] + b[1..]; }
    }
  }

  lemma {:induction false} LeTransitive(a: string, b: string, c: string)
    requires Le(a, b) && Le(b, c)
    ensures Le(a, c)
  {
    if |a| > 0 && a[0] == b[0] && b[0] == c[0] { LeTransitive(a[1..], b[1..], c[1..]); }
  }

  ghost predicate Sorted(xs: seq<string>) { forall i, j :: 0 <= i < j < |xs| ==> Le(xs[i], xs[j]) }

  lemma {:induction false} InsertSorts(s: string, xs: seq<string>)
    requires Sorted(xs)
    ensures Sorted(Insert(s, xs))
    ensures multiset(Insert(s, xs)) == multiset(xs) + multiset{s}
  {
    if |xs| == 0 {
    } else if Le(s, xs[0]) {
      forall j | 0 <= j < |xs| ensures Le(s, xs[j]) {
        if j > 0 { LeTransitive(s, xs[0], xs[j]); }
      }
    } else {
      LeTotal(s, xs[0]);
      var rest := Insert(s, xs[1..]);
      InsertSorts(s, xs[1..]);
      assert xs == [xs[0]] + xs[1..];
      forall j | 0 <= j < |rest| ensures Le(xs[0], rest[j]) {
        assert rest[j] in multiset(rest);
        if rest[j] != s {
          assert rest[j] in xs[1..];
        }
      }
    }
  }

  lemma {:induction false} SortSorts(xs: seq<string>)
    ensures Sorted(Sort(xs)) && multiset(Sort(xs)) == multiset(xs)
  {
    if |xs| > 0 {
      SortSorts(xs[1..]);
      InsertSorts(xs[0], Sort(xs[1..]));
      assert xs == [xs[0]] + xs[1..];
    }
  }

  lemma SameLeast(xs: seq<string>, ys: seq<string>)
    requires Sorted(xs) && Sorted(ys) && multiset(xs) == multiset(ys) && |xs| > 0 && |ys| > 0
    ensures xs[0] == ys[0]
  {
    assert xs[0] in multiset(ys) && ys[0] in multiset(xs);
    var i :| 0 <= i < |ys| && ys[i] == xs[0];
    var j :| 0 <= j < |xs| && xs[j] == ys[0];
    LeTotal(xs[0], ys[0]);
  }

  lemma SortedTail(xs: seq<string>)
    requires Sorted(xs) && |xs| > 0
    ensures Sorted(xs[1..]) && xs == [xs[0]] + xs[1..]
    ensures multiset(xs) - multiset{xs[0]} == multiset(xs[1..])
  {
    hide Le;
    assert xs == [xs[0]] + xs[1..];
  }

  /** A sorted list is determined by what is in it. */
  lemma {:induction false} SortedOnce(xs: seq<string>, ys: seq<string>)
    requires Sorted(xs) && Sorted(ys) && multiset(xs) == multiset(ys)
    ensures xs == ys
  {
    hide Sorted;
    assert |xs| == |multiset(xs)| && |ys| == |multiset(ys)|;
    if |xs| > 0 {
      SameLeast(xs, ys);
      SortedTail(xs);
      SortedTail(ys);
      SortedOnce(xs[1..], ys[1..]);
    }
  }

  ghost predicate Plain(s: string) { s != "" && ',' !in s }

  /** A list of plain words can be read back from its join. */
  lemma {:induction false} JoinOnce(xs: seq<string>, ys: seq<string>)
    requires forall i :: 0 <= i < |xs| ==> Plain(xs[i])
    requires forall i :: 0 <= i < |ys| ==> Plain(ys[i])
    requires Join(xs) == Join(ys)
    ensures xs == ys
  {
    if |xs| > 0 && |ys| > 0 {
      FirstWord(xs);
      FirstWord(ys);
      var n := |xs[0]|;
      assert xs[0] == Join(xs)[..n] && |ys[0]| == n;
      assert ys[0] == Join(ys)[..n];
      if |xs| > 1 {
        assert Join(xs)[n + 1..] == Join(xs[1..]);
        assert |ys| > 1;
        assert Join(ys)[n + 1..] == Join(ys[1..]);
        JoinOnce(xs[1..], ys[1..]);
      }
      assert xs == [xs[0]] + xs[1..] && ys == [ys[0]] + ys[1..];
    }
  }

  /** The first word ends at the first comma, or at the end. */
  lemma FirstWord(xs: seq<string>)
    requires |xs| > 0 && Plain(xs[0])
    ensures |Join(xs)| >= |xs[0]| > 0 && xs[0] == Join(xs)[..|xs[0]|]
    ensures forall i :: 0 <= i < |xs[0]| ==> Join(xs)[i] != ','
    ensures if |xs| == 1 then |Join(xs)| == |xs[0]| else |Join(xs)| > |xs[0]| && Join(xs)[|xs[0]|] == ','
  {
    forall i | 0 <= i < |xs[0]| ensures Join(xs)[i] != ',' {
      assert Join(xs)[i] == xs[0][i];
    }
  }

  lemma {:induction false} LabelsHoldAll(s: string, i: nat)
    requires i < |s| && s[i] != '.'
    ensures exists k, m :: 0 <= k < |Split(s, '.')| && 0 <= m < |Split(s, '.')[k]| && Split(s, '.')[k][m] == s[i]
  {
    if i == 0 {
      assert Split(s, '.')[0][0] == s[0];
    } else {
      LabelsHoldAll(s[1..], i - 1);
      var rest := Split(s[1..], '.');
      var k, m :| 0 <= k < |rest| && 0 <= m < |rest[k]| && rest[k][m] == s[i];
      if s[0] == '.' {
        assert Split(s, '.')[k + 1] == rest[k];
      } else if k == 0 {
        assert Split(s, '.')[0][m + 1] == rest[0][m];
      } else {
        assert Split(s, '.')[k] == rest[k];
      }
    }
  }

  lemma DomainIsPlain(d: string)
    requires IsDomain(d)
    ensures Plain(d)
  {
    var name := WithoutWildcard(d);
    NoEmptyName(name);
    forall i | 0 <= i < |d| ensures d[i] != ',' {
      if name != d && i < 2 {
        assert d[i] == "*."[i];
      } else {
        NameChars(name, if name == d then i else i - 2);
      }
    }
  }

  lemma NoEmptyName(name: string)
    ensures name == "" ==> !IsLabel(Split(name, '.')[0])
  {
  }

  lemma NameChars(name: string, j: nat)
    requires j < |name| && forall i :: 0 <= i < |Split(name, '.')| ==> IsLabel(Split(name, '.')[i])
    ensures name[j] != ','
  {
    if name[j] != '.' {
      LabelsHoldAll(name, j);
      var k, m :| 0 <= k < |Split(name, '.')| && 0 <= m < |Split(name, '.')[k]| && Split(name, '.')[k][m] == name[j];
      assert IsLabel(Split(name, '.')[k]);
    }
  }

  lemma {:induction false} NonEmptyIsAll(ds: seq<string>)
    requires forall i :: 0 <= i < |ds| ==> ds[i] != ""
    ensures NonEmpty(ds) == ds
  {
    if |ds| > 0 { NonEmptyIsAll(ds[1..]); }
  }

  lemma SortedArePlain(ds: seq<string>)
    requires forall i :: 0 <= i < |ds| ==> Plain(ds[i])
    ensures forall i :: 0 <= i < |Sort(ds)| ==> Plain(Sort(ds)[i])
  {
    SortSorts(ds);
    forall i | 0 <= i < |Sort(ds)| ensures Plain(Sort(ds)[i]) {
      assert Sort(ds)[i] in multiset(Sort(ds));
      assert Sort(ds)[i] in ds;
    }
  }

  lemma {:induction false} CountedOnce(xs: seq<string>, d: string)
    requires NoRepeats(xs)
    ensures multiset(xs)[d] == if d in xs then 1 else 0
  {
    if |xs| > 0 {
      var front, last := xs[..|xs| - 1], xs[|xs| - 1];
      assert xs == front + [last];
      CountedOnce(front, d);
    }
  }

  lemma SameSetSameMultiset(x: seq<string>, y: seq<string>)
    requires NoRepeats(x) && NoRepeats(y)
    ensures multiset(x) == multiset(y) <==> forall d :: d in x <==> d in y
  {
    forall d
      ensures multiset(x)[d] == if d in x then 1 else 0
      ensures multiset(y)[d] == if d in y then 1 else 0
    {
      CountedOnce(x, d);
      CountedOnce(y, d);
    }
    if multiset(x) == multiset(y) {
      forall d ensures d in x <==> d in y { assert d in x <==> multiset(x)[d] == 1; }
    }
  }

  /** Two hosts' keys are equal exactly when their domains, normalised, are the same with
      the same repetitions; for domains without repetitions, as validation demands, when
      they are the same set. */
  lemma KeyIsTheSetOfDomains(a: seq<string>, b: seq<string>)
    requires forall i :: 0 <= i < |a| ==> IsDomain(Norm(a[i]))
    requires forall i :: 0 <= i < |b| ==> IsDomain(Norm(b[i]))
    ensures DomainKey(a) == DomainKey(b) <==> multiset(NormAll(a)) == multiset(NormAll(b))
    ensures NoRepeats(NormAll(a)) && NoRepeats(NormAll(b)) ==>
              (DomainKey(a) == DomainKey(b) <==> forall d :: d in NormAll(a) <==> d in NormAll(b))
  {
    var x, y := NormAll(a), NormAll(b);
    NormAllShape(a);
    NormAllShape(b);
    forall i | 0 <= i < |x| ensures Plain(x[i]) { DomainIsPlain(x[i]); }
    forall i | 0 <= i < |y| ensures Plain(y[i]) { DomainIsPlain(y[i]); }
    NonEmptyIsAll(x);
    NonEmptyIsAll(y);
    SortSorts(x);
    SortSorts(y);
    SortedArePlain(x);
    SortedArePlain(y);
    if DomainKey(a) == DomainKey(b) {
      JoinOnce(Sort(x), Sort(y));
    }
    if multiset(x) == multiset(y) {
      SortedOnce(Sort(x), Sort(y));
    }
    if NoRepeats(x) && NoRepeats(y) { SameSetSameMultiset(x, y); }
  }

  /** A host with a valid domain has a key to be matched by. */
  lemma KeyOfDomains(domains: seq<string>)
    requires |domains| > 0 && forall i :: 0 <= i < |domains| ==> IsDomain(Norm(domains[i]))
    ensures DomainKey(domains) != ""
  {
    var x := NormAll(domains);
    NormAllShape(domains);
    forall i | 0 <= i < |x| ensures Plain(x[i]) { DomainIsPlain(x[i]); }
    NonEmptyIsAll(x);
    SortSorts(x);
    SortedArePlain(x);
    assert |multiset(Sort(x))| == |multiset(x)|;
    FirstWord(Sort(x));
  }
}
