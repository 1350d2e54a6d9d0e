/** The edit distance behind "did you mean": the two-row loop computes the least
    cost of any edit script, and is a metric on strings. */
module EditDistance {

  // ---- edit scripts ----

  datatype Edit = Keep | Replace(c: char) | Insert(c: char) | Delete

  function Cost(script: seq<Edit>): nat {
    if |script| == 0 then 0
    else Cost(script[..|script| - 1]) + (if script[|script| - 1].Keep? then 0 else 1)
  }

  /** The script turns a into b, one position after the other. */
  predicate Turns(script: seq<Edit>, a: string, b: string) {
    if |script| == 0 then a == "" && b == ""
    else
      var (rest, last) := (script[..|script| - 1], script[|script| - 1]);
      match last
      case Keep => a != "" && b != "" && a[|a| - 1] == b[|b| - 1] && Turns(rest, a[..|a| - 1], b[..|b| - 1])
      case Replace(c) => a != "" && b != "" && b[|b| - 1] == c && Turns(rest, a[..|a| - 1], b[..|b| - 1])
      case Insert(c) => b != "" && b[|b| - 1] == c && Turns(rest, a, b[..|b| - 1])
      case Delete => a != "" && Turns(rest, a[..|a| - 1], b)
  }

  /** The least number of insertions, deletions and replacements. */
  ghost predicate IsDistance(d: nat, a: string, b: string) {
    && (exists script :: Turns(script, a, b) && Cost(script) == d)
    && (forall script :: Turns(script, a, b) ==> d <= Cost(script))
  }

  // ---- the recurrence ----

  function Min3(a: nat, b: nat, c: nat): nat {
    if a <= b && a <= c then a else if b <= c then b else c
  }

  function Distance(a: string, b: string): nat
    decreases |a| + |b|
  {
    if a == "" then |b|
    else if b == "" then |a|
    else
      var a', b' := a[..|a| - 1], b[..|b| - 1];
      Min3(Distance(a', b) + 1, Distance(a, b') + 1, Distance(a', b') + (if a[|a| - 1] == b[|b| - 1] then 0 else 1))
  }

  /** No script is cheaper than the recurrence says. */
  lemma {:induction false} NoScriptIsCheaper(script: seq<Edit>, a: string, b: string)
    requires Turns(script, a, b)
    ensures Distance(a, b) <= Cost(script)
  {
    if |script| > 0 {
      var rest, last := script[..|script| - 1], script[|script| - 1];
      match last
      case Keep => NoScriptIsCheaper(rest, a[..|a| - 1], b[..|b| - 1]);
      case Replace(c) => NoScriptIsCheaper(rest, a[..|a| - 1], b[..|b| - 1]);
      case Insert(c) => NoScriptIsCheaper(rest, a, b[..|b| - 1]);
      case Delete => NoScriptIsCheaper(rest, a[..|a| - 1], b);
    }
  }

  lemma Extend(rest: seq<Edit>, last: Edit)
    ensures (rest + [last])[..|rest + [last]| - 1] == rest && (rest + [last])[|rest + [last]| - 1] == last
  {
  }

  /** And some script costs exactly that. */
  lemma {:induction false} SomeScriptIsAsCheap(a: string, b: string) returns (script: seq<Edit>)
    ensures Turns(script, a, b) && Cost(script) == Distance(a, b)
    decreases |a| + |b|
  {
    if a == "" && b == "" {
      script := [];
    } else if a == "" || (b != "" && Distance(a, b) == Distance(a, b[..|b| - 1]) + 1) {
      var rest := SomeScriptIsAsCheap(a, b[..|b| - 1]);
      script := rest + [Insert(b[|b| - 1])];
      Extend(rest, Insert(b[|b| - 1]));
    } else if b == "" || Distance(a, b) == Distance(a[..|a| - 1], b) + 1 {
      var rest := SomeScriptIsAsCheap(a[..|a| - 1], b);
      script := rest + [Delete];
      Extend(rest, Delete);
    } else {
      var rest := SomeScriptIsAsCheap(a[..|a| - 1], b[..|b| - 1]);
      var last := if a[|a| - 1] == b[|b| - 1] then Keep else Replace(b[|b| - 1]);
      script := rest + [last];
      Extend(rest, last);
    }
  }

  lemma DistanceIsLeast(a: string, b: string)
    ensures IsDistance(Distance(a, b), a, b)
  {
    var script := SomeScriptIsAsCheap(a, b);
    forall other | Turns(other, a, b)
      ensures Distance(a, b) <= Cost(other)
    {
      NoScriptIsCheaper(other, a, b);
    }
  }

  // ---- a metric ----

  lemma {:induction false} Symmetric(a: string, b: string)
    ensures Distance(a, b) == Distance(b, a)
    decreases |a| + |b|
  {
    if a != "" && b != "" {
      Symmetric(a[..|a| - 1], b);
      Symmetric(a, b[..|b| - 1]);
      Symmetric(a[..|a| - 1], b[..|b| - 1]);
    }
  }

  lemma {:induction false} ZeroOnlyForEqual(a: string, b: string)
    ensures Distance(a, b) == 0 <==> a == b
    decreases |a|
  {
    if a != "" && b != "" {
      ZeroOnlyForEqual(a[..|a| - 1], b[..|b| - 1]);
      if a[|a| - 1] == b[|b| - 1] {
        assert a == a[..|a| - 1] + [a[|a| - 1]] && b == b[..|b| - 1] + [b[|b| - 1]];
      }
    }
  }

  /** Two scripts in a row make one that costs no more than both. */
  lemma {:induction false} Compose(s: seq<Edit>, t: seq<Edit>, a: string, b: string, c: string) returns (u: seq<Edit>)
    requires Turns(s, a, b) && Turns(t, b, c)
    ensures Turns(u, a, c) && Cost(u) <= Cost(s) + Cost(t)
    decreases |s| + |t|
  {
    if |s| > 0 && s[|s| - 1].Delete? {
      var rest := Compose(s[..|s| - 1], t, a[..|a| - 1], b, c);
      u := rest + [Delete];
      Extend(rest, Delete);
    } else if |t| > 0 && t[|t| - 1].Insert? {
      var rest := Compose(s, t[..|t| - 1], a, b, c[..|c| - 1]);
      u := rest + [t[|t| - 1]];
      Extend(rest, t[|t| - 1]);
    } else if |s| == 0 {
      u := [];
    } else {
      u := ComposeThroughLast(s, t, a, b, c);
    }
  }

  /** Both scripts end at the last character of b. */
  lemma ComposeThroughLast(s: seq<Edit>, t: seq<Edit>, a: string, b: string, c: string) returns (u: seq<Edit>)
    requires Turns(s, a, b) && Turns(t, b, c) && |s| > 0
    requires !s[|s| - 1].Delete? && (|t| > 0 ==> !t[|t| - 1].Insert?)
    ensures Turns(u, a, c) && Cost(u) <= Cost(s) + Cost(t)
    decreases |s| + |t|, 0
  {
    var s', x := s[..|s| - 1], s[|s| - 1];
    var t', y := t[..|t| - 1], t[|t| - 1];
    var a' := if x.Insert? then a else a[..|a| - 1];
    var c' := if y.Delete? then c else c[..|c| - 1];
    var rest := Compose(s', t', a', b[..|b| - 1], c');
    if x.Insert? && y.Delete? {
      u := rest;
    } else {
      var last :=
        if y.Delete? then Delete
        else if x.Insert? then Insert(c[|c| - 1])
        else if x.Keep? && y.Keep? then Keep
        else Replace(c[|c| - 1]);
      u := rest + [last];
      Extend(rest, last);
    }
  }

  lemma Triangle(a: string, b: string, c: string)
    ensures Distance(a, c) <= Distance(a, b) + Distance(b, c)
  {
    var s := SomeScriptIsAsCheap(a, b);
    var t := SomeScriptIsAsCheap(b, c);
    var u := Compose(s, t, a, b, c);
    NoScriptIsCheaper(u, a, c);
  }

  // ---- the loop ----

  lemma FirstRow(a: string, b: string)
    ensures forall j :: 0 <= j <= |b| ==> Distance(a[..0], b[..j]) == j
  {
  }

  lemma FirstColumn(a: string, b: string, i: nat)
    requires i <= |a|
    ensures Distance(a[..i], b[..0]) == i
  {
  }

  /** The inner loop: the row of the first i characters of a, from the row above. */
  method FillRow(a: string, b: string, i: nat, prev: array<nat>, cur: array<nat>)
    requires 1 <= i <= |a| && prev != cur && prev.Length == cur.Length == |b| + 1
    requires forall j :: 0 <= j <= |b| ==> prev[j] == Distance(a[..i - 1], b[..j])
    modifies cur
    ensures forall j :: 0 <= j <= |b| ==> cur[j] == Distance(a[..i], b[..j])
  {
    FirstColumn(a, b, i);
    hide Distance;
    cur[0] := i;
    var j := 1;
    while j <= |b|
      invariant 1 <= j <= |b| + 1
      invariant forall l :: 0 <= l <= |b| ==> prev[l] == Distance(a[..i - 1], b[..l])
      invariant forall l :: 0 <= l < j ==> cur[l] == Distance(a[..i], b[..l])
    {
      var cost := if a[i - 1] == b[j - 1] then 0 else 1;
      cur[j] := Min3(prev[j] + 1, cur[j - 1] + 1, prev[j - 1] + cost);
      Cell(a, b, i, j);
      j := j + 1;
    }
  }

  /** editDistance: two rows of the table, swapped after each character of a. */
  method Compute(a: string, b: string) returns (d: nat)
    ensures d == Distance(a, b) && IsDistance(d, a, b)
  {
    var prev := new nat[|b| + 1];
    var cur := new nat[|b| + 1];
    var k := 0;
    while k <= |b|
      invariant 0 <= k <= |b| + 1
      invariant forall j :: 0 <= j < k ==> prev[j] == j
    {
      prev[k] := k;
      k := k + 1;
    }
    FirstRow(a, b);
    hide Distance, IsDistance;
    var i := 1;
    while i <= |a|
      invariant 1 <= i <= |a| + 1 && prev != cur && prev.Length == cur.Length == |b| + 1
      invariant fresh(prev) && fresh(cur)
      invariant forall j :: 0 <= j <= |b| ==> prev[j] == Distance(a[..i - 1], b[..j])
    {
      FillRow(a, b, i, prev, cur);
      prev, cur := cur, prev;
      i := i + 1;
    }
    assert a[..i - 1] == a && b[..|b|] == b;
    DistanceIsLeast(a, b);
    return prev[|b|];
  }

  lemma Cell(a: string, b: string, i: nat, j: nat)
    requires 1 <= i <= |a| && 1 <= j <= |b|
    ensures Distance(a[..i], b[..j]) ==
            Min3(Distance(a[..i - 1], b[..j]) + 1, Distance(a[..i], b[..j - 1]) + 1,
                 Distance(a[..i - 1], b[..j - 1]) + (if a[i - 1] == b[j - 1] then 0 else 1))
  {
    assert a[..i][..i - 1] == a[..i - 1] && b[..j][..j - 1] == b[..j - 1];
  }

  // ---- the suggestion ----

  /** suggestLabel: the first of the known keys closest to an unknown one, if it is
      at most two edits away. The key is already in lower case, with dashes. */
  method Suggest(norm: string, known: seq<string>) returns (best: string)
    requires "" !in known
    ensures best == "" <==> forall k :: k in known ==> Distance(norm, k) >= 3
    ensures best != "" ==>
              exists i :: 0 <= i < |known| && known[i] == best
                && (forall j :: 0 <= j < i ==> Distance(norm, known[j]) > Distance(norm, best))
                && (forall j :: i < j < |known| ==> Distance(norm, known[j]) >= Distance(norm, best))
  {
    best := "";
    var bestDist := 3;
    ghost var at := 0;
    var i := 0;
    while i < |known|
      invariant 0 <= i <= |known| && bestDist <= 3
      invariant best == "" ==> bestDist == 3
      invariant best != "" ==> 0 <= at < i && known[at] == best && bestDist == Distance(norm, best) < 3
      invariant forall j :: 0 <= j < i ==> Distance(norm, known[j]) >= bestDist
      invariant best != "" ==> forall j :: 0 <= j < at ==> Distance(norm, known[j]) > bestDist
    {
      var d := Compute(norm, known[i]);
      if d < bestDist {
        best, bestDist := known[i], d;
        at := i;
      }
      i := i + 1;
    }
    if best != "" {
      assert known[at] in known;
    } else {
      forall k | k in known
        ensures Distance(norm, k) >= 3
      {
        var j :| 0 <= j < |known| && known[j] == k;
      }
    }
  }
}
