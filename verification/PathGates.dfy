/** Path rules: which gate answers for a path, whatever order the rules were entered
    in. The code sorts the rules and takes the first that matches; what it chooses is
    described here without sorting. */
module PathGates {
  import opened Basics
  import opened Names

  /** Where a rule sends its requests: on without a gate, through one, or nowhere. */
  datatype Target =
    | Open
    | ForwardAuth
    | HostSso
    | OwnSso(provider: int)
    | AccessListGate(id: int)
    | Closed

  datatype Rule = Rule(path: string, exact: bool, mode: string, list: Option<int>, sso: Option<int>, methods: seq<string>)

  /** What the host offers the rules: forward authentication, SSO of its own, the
      access lists that exist, and the providers a gate can be built for. */
  datatype Offer = Offer(forwardAuth: bool, sso: bool, lists: set<int>, providers: set<int>)

  datatype Gate = Gate(path: string, exact: bool, methods: seq<string>, target: Target)

  function TargetOf(r: Rule, o: Offer): Target {
    if r.mode == "public" then Open
    else if r.mode == "forwardAuth" then if o.forwardAuth then ForwardAuth else Closed
    else if r.mode == "oidc" then
      if r.sso.Some? then (if r.sso.value in o.providers then OwnSso(r.sso.value) else Closed)
      else if o.sso then HostSso else Closed
    else if r.mode == "accessList" then
      if r.list.Some? && r.list.value in o.lists then AccessListGate(r.list.value) else Closed
    else Closed
  }

  function GateOf(r: Rule, o: Offer): Gate { Gate(r.path, r.exact, r.methods, TargetOf(r, o)) }

  function GatesOf(rules: seq<Rule>, o: Offer): (gs: seq<Gate>)
    ensures |gs| == |rules| && forall i :: 0 <= i < |rules| ==> gs[i] == GateOf(rules[i], o)
  {
    if |rules| == 0 then [] else GatesOf(rules[..|rules| - 1], o) + [GateOf(rules[|rules| - 1], o)]
  }

  // ---- matching ----

  predicate PathWithin(p: string, prefix: string) {
    prefix <= p && (|p| == |prefix| || (|prefix| > 0 && prefix[|prefix| - 1] == '/') || p[|prefix|] == '/')
  }

  predicate Matches(g: Gate, path: string, verb: string) {
    && (|g.methods| > 0 ==> verb in g.methods)
    && (if g.exact then path == g.path else PathWithin(path, g.path))
  }

  lemma {:induction false} SegmentsOfJoin(a: string, b: string)
    ensures Split(a + "/" + b, '/') == Split(a, '/') + Split(b, '/')
  {
    if |a| == 0 {
      assert (a + "/" + b)[1..] == b;
    } else {
      assert (a + "/" + b)[1..] == a[1..] + "/" + b;
      SegmentsOfJoin(a[1..], b);
    }
  }

  /** A path whose segments begin with all of a's, and more, goes on after a slash. */
  lemma {:induction false} JoinOfSegments(a: string, p: string)
    requires Split(a, '/') <= Split(p, '/')
    ensures p == a || a + "/" <= p
  {
    if |a| == 0 {
      if |p| > 0 {
        assert Split(a, '/')[0] == "";
        assert Split(p, '/')[0] == "";
        assert p[0] == '/';
      }
    } else {
      assert Split(a, '/')[0] == Split(p, '/')[0];
      if a[0] == '/' {
        assert Split(a, '/')[0] == "" && |p| > 0 ==> p[0] == '/';
        assert |Split(p, '/')| >= |Split(a, '/')| > 1;
        assert |p| > 0;
        assert Split(a, '/')[1..] <= Split(p, '/')[1..];
      } else {
        assert Split(a, '/')[0] == [a[0]] + Split(a[1..], '/')[0];
        assert |p| > 0 && p[0] != '/';
        assert Split(p, '/')[0] == [p[0]] + Split(p[1..], '/')[0];
        assert Split(p, '/')[0][0] == Split(a, '/')[0][0];
        assert Split(a, '/')[0][1..] == Split(p, '/')[0][1..];
        var x, y := Split(a[1..], '/'), Split(p[1..], '/');
        assert x[0] == y[0];
        assert forall i :: 1 <= i < |x| ==> x[i] == Split(a, '/')[i] && y[i] == Split(p, '/')[i];
        assert x <= y;
      }
      JoinOfSegments(a[1..], p[1..]);
      assert p == [p[0]] + p[1..] && a == [a[0]] + a[1..];
    }
  }

  lemma BelowSegments(p: string, prefix: string)
    ensures prefix + "/" <= p ==> Split(prefix, '/') < Split(p, '/')
    ensures Split(prefix, '/') <= Split(p, '/') ==> p == prefix || prefix + "/" <= p
  {
    if prefix + "/" <= p {
      var rest := p[|prefix| + 1..];
      assert p == prefix + "/" + rest;
      SegmentsOfJoin(prefix, rest);
    }
    if Split(prefix, '/') <= Split(p, '/') { JoinOfSegments(prefix, p); }
  }

  /** A rule covers whole segments: /api covers /api and everything below it and no
      other spelling, and with a slash at its end only what is below. */
  lemma WithinIsBelow(p: string, prefix: string)
    ensures prefix == "" || prefix[|prefix| - 1] != '/' ==>
      (PathWithin(p, prefix) <==> Split(prefix, '/') <= Split(p, '/'))
    ensures PathWithin(p, prefix + "/") <==> Split(prefix, '/') < Split(p, '/')
  {
    hide Split;
    BelowSegments(p, prefix);
    if prefix <= p && |p| > |prefix| && p[|prefix|] == '/' {
      assert p[..|prefix| + 1] == prefix + "/";
    }
  }

  // ---- the order of the gates ----

  /** Longest path first, and of two as long the exact one. */
  predicate Before(a: Gate, b: Gate) {
    if |a.path| != |b.path| then |a.path| > |b.path| else a.exact && !b.exact
  }

  /** Where a stable sort puts one more gate: after all that do not come after it. */
  function Insert(g: Gate, gs: seq<Gate>): seq<Gate> {
    if |gs| == 0 then [g]
    else if Before(g, gs[|gs| - 1]) then Insert(g, gs[..|gs| - 1]) + [gs[|gs| - 1]]
    else gs + [g]
  }

  function StableSort(gs: seq<Gate>): seq<Gate> {
    if |gs| == 0 then [] else Insert(gs[|gs| - 1], StableSort(gs[..|gs| - 1]))
  }

  // ---- serving ----

  const CALLBACK := "/.qg/oidc/callback"
  const LOGOUT := "/.qg/oidc/logout"

  datatype Served = BadRequest | Login | Gated(target: Target) | Fallback

  /** The gate for the login callback: the host's SSO, or else that of the first rule
      that names a provider. */
  function LoginGate(rules: seq<Rule>, o: Offer): bool {
    if o.sso then true
    else if |rules| == 0 then false
    else if rules[0].mode == "oidc" && rules[0].sso.Some? then rules[0].sso.value in o.providers
    else LoginGate(rules[1..], o)
  }

  function FirstMatch(gs: seq<Gate>, path: string, verb: string): Option<Gate> {
    if |gs| == 0 then None
    else if Matches(gs[0], path, verb) then Some(gs[0])
    else FirstMatch(gs[1..], path, verb)
  }

  method Dispatch(gs: seq<Gate>, login: bool, path: string, verb: string) returns (s: Served)
    ensures s == if login && (path == CALLBACK || path == LOGOUT) then Login
      else if FirstMatch(gs, path, verb).Some? then Gated(FirstMatch(gs, path, verb).value.target) else Fallback
  {
    if login && (path == CALLBACK || path == LOGOUT) { return Login; }
    var i := 0;
    while i < |gs|
      invariant i <= |gs| && FirstMatch(gs, path, verb) == FirstMatch(gs[i..], path, verb)
    {
      if Matches(gs[i], path, verb) { return Gated(gs[i].target); }
      i := i + 1;
    }
    return Fallback;
  }

  // ---- the most specific match ----

  /** The most specific of the gates that match; of equals the one entered first. */
  function Best(gs: seq<Gate>, path: string, verb: string): Option<Gate> {
    if |gs| == 0 then None
    else
      var rest, last := Best(gs[..|gs| - 1], path, verb), gs[|gs| - 1];
      if Matches(last, path, verb) && (rest.None? || Before(last, rest.value)) then Some(last) else rest
  }

  ghost predicate Ordered(gs: seq<Gate>) { forall i, j :: 0 <= i < j < |gs| ==> !Before(gs[j], gs[i]) }

  lemma {:induction false} InsertKeeps(g: Gate, gs: seq<Gate>)
    ensures multiset(Insert(g, gs)) == multiset(gs) + multiset{g}
  {
    if |gs| > 0 {
      var front, last := gs[..|gs| - 1], gs[|gs| - 1];
      assert gs == front + [last];
      if Before(g, last) { InsertKeeps(g, front); }
    }
  }

  lemma {:induction false} InsertOrders(g: Gate, gs: seq<Gate>)
    requires Ordered(gs)
    ensures Ordered(Insert(g, gs))
  {
    if |gs| > 0 && Before(g, gs[|gs| - 1]) {
      var front, last := gs[..|gs| - 1], gs[|gs| - 1];
      InsertOrders(g, front);
      InsertKeeps(g, front);
      forall x | x in Insert(g, front) ensures !Before(last, x) {
        assert x in multiset(Insert(g, front));
        assert x == g || x in front;
      }
    }
  }

  /** Sorting keeps the gates, in order of specificity. */
  lemma {:induction false} SortOrders(gs: seq<Gate>)
    ensures Ordered(StableSort(gs)) && multiset(StableSort(gs)) == multiset(gs)
  {
    if |gs| > 0 {
      SortOrders(gs[..|gs| - 1]);
      InsertOrders(gs[|gs| - 1], StableSort(gs[..|gs| - 1]));
      InsertKeeps(gs[|gs| - 1], StableSort(gs[..|gs| - 1]));
      assert gs == gs[..|gs| - 1] + [gs[|gs| - 1]];
    }
  }

  lemma {:induction false} FirstMatchOfBoth(a: seq<Gate>, b: seq<Gate>, path: string, verb: string)
    ensures FirstMatch(a + b, path, verb)
         == if FirstMatch(a, path, verb).Some? then FirstMatch(a, path, verb) else FirstMatch(b, path, verb)
  {
    if |a| == 0 {
      assert a + b == b;
    } else {
      assert (a + b)[1..] == a[1..] + b;
      FirstMatchOfBoth(a[1..], b, path, verb);
    }
  }

  lemma {:induction false} FirstMatchIsOne(gs: seq<Gate>, path: string, verb: string)
    ensures FirstMatch(gs, path, verb).Some? ==>
      FirstMatch(gs, path, verb).value in gs && Matches(FirstMatch(gs, path, verb).value, path, verb)
    ensures FirstMatch(gs, path, verb).None? ==> forall g :: g in gs ==> !Matches(g, path, verb)
  {
    if |gs| > 0 && !Matches(gs[0], path, verb) { FirstMatchIsOne(gs[1..], path, verb); }
  }

  lemma {:induction false} FirstMatchAfterInsert(g: Gate, gs: seq<Gate>, path: string, verb: string)
    requires Ordered(gs)
    ensures
      var first := FirstMatch(gs, path, verb);
      FirstMatch(Insert(g, gs), path, verb)
        == if Matches(g, path, verb) && (first.None? || Before(g, first.value)) then Some(g) else first
  {
    assert [g][1..] == [];
    FirstMatchIsOne(gs, path, verb);
    if |gs| > 0 {
      var front, last := gs[..|gs| - 1], gs[|gs| - 1];
      assert [last][1..] == [];
      assert gs == front + [last];
      FirstMatchOfBoth(front, [last], path, verb);
      if Before(g, last) {
        FirstMatchAfterInsert(g, front, path, verb);
        FirstMatchOfBoth(Insert(g, front), [last], path, verb);
      } else {
        FirstMatchOfBoth(gs, [g], path, verb);
        if FirstMatch(gs, path, verb).Some? {
          var i :| 0 <= i < |gs| && gs[i] == FirstMatch(gs, path, verb).value;
          assert i < |gs| - 1 ==> !Before(last, gs[i]);
        }
      }
    }
  }

  /** The first match in sorted order is the most specific match as entered. */
  lemma {:induction false} SortedFirstIsBest(gs: seq<Gate>, path: string, verb: string)
    ensures FirstMatch(StableSort(gs), path, verb) == Best(gs, path, verb)
  {
    if |gs| > 0 {
      var front := gs[..|gs| - 1];
      SortedFirstIsBest(front, path, verb);
      SortOrders(front);
      FirstMatchAfterInsert(gs[|gs| - 1], StableSort(front), path, verb);
    }
  }

  /** The gate chosen matches, and no gate that matches is more specific. */
  lemma {:induction false} BestIsMostSpecific(gs: seq<Gate>, path: string, verb: string)
    ensures Best(gs, path, verb).None? <==> forall g :: g in gs ==> !Matches(g, path, verb)
    ensures Best(gs, path, verb).Some? ==>
      var best := Best(gs, path, verb).value;
      best in gs && Matches(best, path, verb) && forall g :: g in gs && Matches(g, path, verb) ==> !Before(g, best)
    ensures Best(gs, path, verb).Some? ==>
      var best := Best(gs, path, verb).value;
      forall g :: g in gs && Matches(g, path, verb) ==>
        |g.path| < |best.path| || (|g.path| == |best.path| && (g.exact ==> best.exact))
  {
    if |gs| > 0 {
      var front, last := gs[..|gs| - 1], gs[|gs| - 1];
      BestIsMostSpecific(front, path, verb);
      assert gs == front + [last];
      assert last in gs;
      assert forall g :: g in gs <==> g in front || g == last;
    }
  }

  /** Two gates can answer for one request at the same place. */
  predicate Conflict(a: Gate, b: Gate) {
    && a.path == b.path && a.exact == b.exact
    && (|a.methods| == 0 || |b.methods| == 0 || exists m :: m in a.methods && m in b.methods)
  }

  /** Of the gates that match a request none is as specific as another, unless the two
      conflict: their paths are all prefixes of the same path. */
  lemma EqualMatchesConflict(a: Gate, b: Gate, path: string, verb: string)
    requires Matches(a, path, verb) && Matches(b, path, verb) && !Before(a, b) && !Before(b, a)
    ensures Conflict(a, b)
  {
    assert a.path == path[..|a.path|] && b.path == path[..|b.path|];
    if |a.methods| > 0 && |b.methods| > 0 { assert verb in a.methods && verb in b.methods; }
  }

  ghost predicate NoConflicts(gs: seq<Gate>) {
    forall i, j :: 0 <= i < j < |gs| ==> !Conflict(gs[i], gs[j])
  }

  ghost predicate NoneConflict(gs: multiset<Gate>) {
    forall a, b :: a in gs && b in gs && a != b ==> !Conflict(a, b)
  }

  lemma ConflictsAreApart(gs: seq<Gate>)
    requires NoConflicts(gs)
    ensures NoneConflict(multiset(gs))
  {
    forall a, b | a in multiset(gs) && b in multiset(gs) && a != b ensures !Conflict(a, b) {
      var i :| 0 <= i < |gs| && gs[i] == a;
      var j :| 0 <= j < |gs| && gs[j] == b;
      if j < i { assert !Conflict(b, a); }
    }
  }

  /** The choice does not depend on the order the rules were entered in, as long as no
      two share path, exactness and a method. */
  lemma OrderDoesNotMatter(gs: seq<Gate>, hs: seq<Gate>, path: string, verb: string)
    requires multiset(gs) == multiset(hs) && NoConflicts(gs)
    ensures FirstMatch(StableSort(gs), path, verb) == FirstMatch(StableSort(hs), path, verb)
  {
    SortedFirstIsBest(gs, path, verb);
    SortedFirstIsBest(hs, path, verb);
    BestIsMostSpecific(gs, path, verb);
    BestIsMostSpecific(hs, path, verb);
    assert forall g :: g in gs <==> g in multiset(gs);
    assert forall g :: g in hs <==> g in multiset(hs);
    ConflictsAreApart(gs);
    var a, b := Best(gs, path, verb), Best(hs, path, verb);
    if a.Some? && b.Some? && a != b {
      EqualMatchesConflict(a.value, b.value, path, verb);
    }
  }

  /** The gate at i matches, no match is more specific, and those entered before it are
      less so. */
  ghost predicate Earliest(gs: seq<Gate>, i: nat, path: string, verb: string) {
    && i < |gs| && Matches(gs[i], path, verb)
    && (forall k :: 0 <= k < |gs| && Matches(gs[k], path, verb) ==> !Before(gs[k], gs[i]))
    && (forall k :: 0 <= k < i && Matches(gs[k], path, verb) ==> Before(gs[i], gs[k]))
  }

  lemma {:induction false} EarliestIsBest(gs: seq<Gate>, i: nat, path: string, verb: string)
    requires Earliest(gs, i, path, verb)
    ensures Best(gs, path, verb) == Some(gs[i])
  {
    hide Matches, Before;
    var n := |gs| - 1;
    if i == n {
      BestIsMostSpecific(gs[..n], path, verb);
      if Best(gs[..n], path, verb).Some? {
        var k :| 0 <= k < n && gs[..n][k] == Best(gs[..n], path, verb).value;
        assert gs[k] == gs[..n][k];
      }
    } else {
      EarliestIsBest(gs[..n], i, path, verb);
    }
  }

  /** The two conflict, and any other gate that matches is less specific than they are. */
  ghost predicate BestTwo(gs: seq<Gate>, i: nat, j: nat, path: string, verb: string) {
    && i < |gs| && j < |gs| && i != j
    && Matches(gs[i], path, verb) && Matches(gs[j], path, verb) && Conflict(gs[i], gs[j])
    && forall k :: 0 <= k < |gs| && k != i && k != j && Matches(gs[k], path, verb) ==> Before(gs[i], gs[k])
  }

  lemma FirstOfTwo(gs: seq<Gate>, i: nat, j: nat, path: string, verb: string)
    requires i < j && BestTwo(gs, i, j, path, verb)
    ensures Earliest(gs, i, path, verb)
  {
    hide Matches;
  }

  /** In any list, of two conflicting gates that are the most specific matches the one
      entered first answers, so exchanging them exchanges the answer. */
  lemma OrderMattersInConflict(gs: seq<Gate>, i: nat, j: nat, path: string, verb: string)
    requires i < j && BestTwo(gs, i, j, path, verb)
    ensures FirstMatch(StableSort(gs), path, verb) == Some(gs[i])
    ensures FirstMatch(StableSort(gs[i := gs[j]][j := gs[i]]), path, verb) == Some(gs[j])
  {
    hide Matches, StableSort, FirstMatch, Best, Earliest;
    var hs := gs[i := gs[j]][j := gs[i]];
    FirstOfTwo(gs, i, j, path, verb);
    assert BestTwo(hs, i, j, path, verb);
    FirstOfTwo(hs, i, j, path, verb);
    EarliestIsBest(gs, i, path, verb);
    EarliestIsBest(hs, i, path, verb);
    SortedFirstIsBest(gs, path, verb);
    SortedFirstIsBest(hs, path, verb);
  }

  // ---- paths the upstream may read otherwise ----

  predicate HasDotSegment(p: string) {
    '.' in p && exists i :: 0 <= i < |Split(p, '/')| && (Split(p, '/')[i] == "." || Split(p, '/')[i] == "..")
  }

  predicate HasAmbiguousSegment(p: string) {
    (exists i :: 0 <= i < |p| - 1 && p[i] == '/' && p[i + 1] == '/')
    || exists i :: 0 <= i < |p| && (p[i] == '\\' || p[i] == ';' || p[i] == '%')
  }

  predicate Refused(p: string) { HasDotSegment(p) || HasAmbiguousSegment(p) }

  function Serve(rules: seq<Rule>, o: Offer, path: string, verb: string): Served {
    if Refused(path) then BadRequest
    else if LoginGate(rules, o) && (path == CALLBACK || path == LOGOUT) then Login
    else
      var g := FirstMatch(StableSort(GatesOf(rules, o)), path, verb);
      if g.Some? then Gated(g.value.target) else Fallback
  }

  method ServeHTTP(rules: seq<Rule>, o: Offer, path: string, verb: string) returns (s: Served)
    ensures s == Serve(rules, o, path, verb)
  {
    if Refused(path) { return BadRequest; }
    s := Dispatch(StableSort(GatesOf(rules, o)), LoginGate(rules, o), path, verb);
  }

  // ---- which rule answers, in the rules' own terms ----

  /** A path at or below a prefix, segment by segment; strictly below one that ends in a
      slash. */
  ghost predicate Below(p: string, prefix: string) {
    if prefix != "" && prefix[|prefix| - 1] == '/' then Split(prefix[..|prefix| - 1], '/') < Split(p, '/')
    else Split(prefix, '/') <= Split(p, '/')
  }

  ghost predicate Covers(r: Rule, path: string, verb: string) {
    && (r.methods == [] || verb in r.methods)
    && if r.exact then path == r.path else Below(path, r.path)
  }

  /** Of the rules that cover the request the one at i has the longest path; of those as
      long it is exact if any is; and of those the first entered. */
  ghost predicate Chosen(rules: seq<Rule>, i: nat, path: string, verb: string) {
    && i < |rules| && Covers(rules[i], path, verb)
    && forall j :: 0 <= j < |rules| && Covers(rules[j], path, verb) ==>
         && |rules[j].path| <= |rules[i].path|
         && (|rules[j].path| == |rules[i].path| ==>
               && (rules[j].exact ==> rules[i].exact)
               && (rules[j].exact == rules[i].exact ==> i <= j))
  }

  /** What a rule sends its requests through. */
  ghost predicate Sends(r: Rule, o: Offer, t: Target) {
    && (t == Open <==> r.mode == "public")
    && (t == ForwardAuth <==> r.mode == "forwardAuth" && o.forwardAuth)
    && (t == HostSso <==> r.mode == "oidc" && r.sso.None? && o.sso)
    && (forall p :: t == OwnSso(p) <==> r.mode == "oidc" && r.sso == Some(p) && p in o.providers)
    && (forall l :: t == AccessListGate(l) <==> r.mode == "accessList" && r.list == Some(l) && l in o.lists)
  }

  lemma MatchesIsCovers(r: Rule, o: Offer, path: string, verb: string)
    ensures Matches(GateOf(r, o), path, verb) <==> Covers(r, path, verb)
  {
    hide Split;
    var n := |r.path|;
    if n > 0 && r.path[n - 1] == '/' {
      assert r.path[..n - 1] + "/" == r.path;
      WithinIsBelow(path, r.path[..n - 1]);
    } else {
      WithinIsBelow(path, r.path);
    }
  }

  lemma {:induction false} BestIsEarliest(gs: seq<Gate>, path: string, verb: string)
    requires Best(gs, path, verb).Some?
    ensures exists i: nat :: Earliest(gs, i, path, verb) && gs[i] == Best(gs, path, verb).value
  {
    hide Matches;
    var n := |gs| - 1;
    BestIsMostSpecific(gs, path, verb);
    if Best(gs[..n], path, verb) == Best(gs, path, verb) && Best(gs[..n], path, verb).Some? {
      BestIsEarliest(gs[..n], path, verb);
      var i: nat :| Earliest(gs[..n], i, path, verb) && gs[..n][i] == Best(gs, path, verb).value;
      assert forall k :: 0 <= k < n ==> gs[..n][k] == gs[k];
      assert forall k :: 0 <= k < |gs| && Matches(gs[k], path, verb) ==> gs[k] in gs;
      assert Earliest(gs, i, path, verb);
    } else {
      BestIsMostSpecific(gs[..n], path, verb);
      LastIsEarliest(gs, path, verb);
    }
  }

  lemma LastIsEarliest(gs: seq<Gate>, path: string, verb: string)
    requires |gs| > 0 && Matches(gs[|gs| - 1], path, verb)
    requires var rest := Best(gs[..|gs| - 1], path, verb); rest.None? || Before(gs[|gs| - 1], rest.value)
    ensures Earliest(gs, |gs| - 1, path, verb)
  {
    hide Matches;
    var n := |gs| - 1;
    BestIsMostSpecific(gs[..n], path, verb);
    forall k | 0 <= k < n && Matches(gs[k], path, verb)
      ensures Before(gs[n], gs[k])
    {
      assert gs[..n][k] == gs[k] && gs[k] in gs[..n];
    }
  }

  lemma EarliestIsChosen(rules: seq<Rule>, o: Offer, i: nat, path: string, verb: string)
    requires Earliest(GatesOf(rules, o), i, path, verb)
    ensures Chosen(rules, i, path, verb)
  {
    hide Matches, Covers;
    var gs := GatesOf(rules, o);
    MatchesIsCovers(rules[i], o, path, verb);
    forall j | 0 <= j < |rules| && Covers(rules[j], path, verb)
      ensures |rules[j].path| <= |rules[i].path|
      ensures |rules[j].path| == |rules[i].path| ==> (rules[j].exact ==> rules[i].exact)
      ensures |rules[j].path| == |rules[i].path| && rules[j].exact == rules[i].exact ==> i <= j
    {
      MatchesIsCovers(rules[j], o, path, verb);
      assert !Before(gs[j], gs[i]) && (j < i ==> Before(gs[i], gs[j]));
    }
  }

  lemma GateSends(r: Rule, o: Offer)
    ensures Sends(r, o, TargetOf(r, o))
  {
  }

  lemma NoGate(rules: seq<Rule>, o: Offer, path: string, verb: string)
    ensures Best(GatesOf(rules, o), path, verb).None? <==> forall i :: 0 <= i < |rules| ==> !Covers(rules[i], path, verb)
  {
    hide Matches, Covers, Before, Best;
    var gs := GatesOf(rules, o);
    BestIsMostSpecific(gs, path, verb);
    forall i | 0 <= i < |rules|
      ensures Matches(gs[i], path, verb) <==> Covers(rules[i], path, verb)
    {
      MatchesIsCovers(rules[i], o, path, verb);
      assert gs[i] in gs;
    }
    if Best(gs, path, verb).Some? {
      var i :| 0 <= i < |gs| && gs[i] == Best(gs, path, verb).value;
      assert Matches(gs[i], path, verb);
    }
  }

  /** The rule the login callback is answered by, where the host has no SSO of its own:
      the first that names a provider. */
  ghost predicate FirstOwnSso(rules: seq<Rule>, i: nat) {
    && i < |rules| && rules[i].mode == "oidc" && rules[i].sso.Some?
    && forall j :: 0 <= j < i ==> !(rules[j].mode == "oidc" && rules[j].sso.Some?)
  }

  lemma {:induction false} LoginGateMeaning(rules: seq<Rule>, o: Offer)
    ensures LoginGate(rules, o) <==> o.sso || exists i: nat :: FirstOwnSso(rules, i) && rules[i].sso.value in o.providers
  {
    if !o.sso && |rules| > 0 {
      LoginGateMeaning(rules[1..], o);
      if rules[0].mode == "oidc" && rules[0].sso.Some? {
        assert FirstOwnSso(rules, 0);
      } else {
        forall i: nat
          ensures FirstOwnSso(rules[1..], i) ==> FirstOwnSso(rules, i + 1) && rules[1..][i] == rules[i + 1]
          ensures FirstOwnSso(rules, i) ==> i > 0 && FirstOwnSso(rules[1..], i - 1) && rules[1..][i - 1] == rules[i]
        {
        }
      }
    }
  }

  /** The answer in terms of the rules as entered: the longest path, then the exact rule,
      then the order of entry decide, and the answer is what that rule sends through. */
  lemma LongestRuleAnswers(rules: seq<Rule>, o: Offer, path: string, verb: string)
    ensures var s := Serve(rules, o, path, verb);
      && (s == BadRequest <==> Refused(path))
      && (s == Login <==>
            && !Refused(path) && path in {"/.qg/oidc/callback", "/.qg/oidc/logout"}
            && (o.sso || exists i: nat :: FirstOwnSso(rules, i) && rules[i].sso.value in o.providers))
      && (s == Fallback ==> forall i :: 0 <= i < |rules| ==> !Covers(rules[i], path, verb))
      && (s.Gated? ==> exists i: nat :: Chosen(rules, i, path, verb) && Sends(rules[i], o, s.target))
  {
    hide Matches, Covers, Before, StableSort, FirstMatch, Best, Refused, Sends, LoginGate, FirstOwnSso;
    var gs := GatesOf(rules, o);
    LoginGateMeaning(rules, o);
    SortedFirstIsBest(gs, path, verb);
    NoGate(rules, o, path, verb);
    if Best(gs, path, verb).Some? {
      BestIsEarliest(gs, path, verb);
      var i: nat :| Earliest(gs, i, path, verb) && gs[i] == Best(gs, path, verb).value;
      EarliestIsChosen(rules, o, i, path, verb);
      ChosenInRange(rules, i, path, verb);
      GateSends(rules[i], o);
    }
  }

  lemma ChosenInRange(rules: seq<Rule>, i: nat, path: string, verb: string)
    requires Chosen(rules, i, path, verb)
    ensures i < |rules|
  {
  }

  /** Only a public rule answers with the open gate, and only where it is the longest,
      exact before not, first before later; so a rule that offers no gate never does. */
  lemma OnlyPublicRulesOpen(rules: seq<Rule>, o: Offer, path: string, verb: string)
    requires Serve(rules, o, path, verb) == Gated(Open)
    ensures exists i: nat :: Chosen(rules, i, path, verb) && rules[i].mode == "public"
  {
    hide Serve, Covers;
    LongestRuleAnswers(rules, o, path, verb);
    var i: nat :| Chosen(rules, i, path, verb) && Sends(rules[i], o, Open);
  }

  /** One matching rule, built or not, is enough to rule out the fallback. */
  lemma CoveredNeverFallsBack(rules: seq<Rule>, o: Offer, path: string, verb: string, i: nat)
    requires i < |rules| && Matches(GateOf(rules[i], o), path, verb)
    ensures Serve(rules, o, path, verb) != Fallback
  {
    hide Matches, Before, StableSort, FirstMatch, Best, Refused;
    var gs := GatesOf(rules, o);
    SortedFirstIsBest(gs, path, verb);
    BestIsMostSpecific(gs, path, verb);
    assert gs[i] in gs;
  }
}
