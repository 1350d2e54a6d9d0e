/** Importing a declarative document: all of it in one transaction, repeatable, and
    never at the cost of a protection that is there. */
module Imports {
  import opened Basics
  import opened Names
  import opened Upserts
  import opened Entries

  datatype Doc = Doc(lists: seq<DocList>, hosts: seq<Host>, streams: seq<Stream>)

  datatype Config = Config(lists: Table<AccessList>, hosts: Table<Host>, streams: Table<Stream>)

  datatype Counts = Counts(lists: nat, hosts: nat, streams: nat)

  /** `bound` takes the document's list ids to the ids of the rows they settled to. */
  datatype Outcome = Outcome(config: Config, created: Counts, updated: Counts, bound: map<int, int>)

  function Ids<R>(t: Table<R>): set<int> { set i | 0 <= i < |t.rows| :: t.rows[i].id }

  /** An id of 0 is no id; of two lists with one id the later is meant. */
  function Bound(entries: seq<DocList>, ids: seq<int>): map<int, int>
    requires |ids| == |entries|
  {
    if |entries| == 0 then map[]
    else
      var n := |entries| - 1;
      var before := Bound(entries[..n], ids[..n]);
      if entries[n].id != 0 then before[entries[n].id := ids[n]] else before
  }

  /** A reference through `bound`, where that has it. */
  function Local(bound: map<int, int>, r: Option<int>): Option<int> {
    if r.Some? && r.value in bound then Some(bound[r.value]) else r
  }

  function LocalRules(bound: map<int, int>, rules: seq<AuthRule>): seq<AuthRule> {
    if |rules| == 0 then []
    else [rules[0].(list := Local(bound, rules[0].list))] + LocalRules(bound, rules[1..])
  }

  function LocalHost(bound: map<int, int>, h: Host): Host {
    h.(list := Local(bound, h.list), authRules := LocalRules(bound, h.authRules))
  }

  function LocalStream(bound: map<int, int>, s: Stream): Stream {
    s.(list := Local(bound, s.list), protocol := if s.protocol == "" then "tcp" else s.protocol)
  }

  function LocalHosts(bound: map<int, int>, hs: seq<Host>): (r: seq<Host>)
    ensures |r| == |hs| && forall i :: 0 <= i < |hs| ==> r[i] == LocalHost(bound, hs[i])
  {
    if |hs| == 0 then [] else LocalHosts(bound, hs[..|hs| - 1]) + [LocalHost(bound, hs[|hs| - 1])]
  }

  function LocalStreams(bound: map<int, int>, ss: seq<Stream>): (r: seq<Stream>)
    ensures |r| == |ss| && forall i :: 0 <= i < |ss| ==> r[i] == LocalStream(bound, ss[i])
  {
    if |ss| == 0 then [] else LocalStreams(bound, ss[..|ss| - 1]) + [LocalStream(bound, ss[|ss| - 1])]
  }

  /** The three passes; None when any entry is refused. */
  function Imported(env: Env, c: Config, doc: Doc): Option<Outcome> {
    var a := Run(ListKind(env), c.lists, doc.lists);
    if a.None? || |a.value.ids| != |doc.lists| then None
    else
      var bound, lists := Bound(doc.lists, a.value.ids), Ids(a.value.table);
      var h := Run(HostKind(env, lists), c.hosts, LocalHosts(bound, doc.hosts));
      if h.None? then None
      else
        var s := Run(StreamKind(env, lists), c.streams, LocalStreams(bound, doc.streams));
        if s.None? then None
        else
          Some(Outcome(Config(a.value.table, h.value.table, s.value.table),
                       Counts(a.value.created, h.value.created, s.value.created),
                       Counts(a.value.updated, h.value.updated, s.value.updated), bound))
  }

  lemma {:induction false} IdPerEntry<E, R, K>(kind: Kind<E, R, K>, t: Table<R>, entries: seq<E>)
    requires Run(kind, t, entries).Some?
    ensures |Run(kind, t, entries).value.ids| == |entries|
  {
    if |entries| > 0 { IdPerEntry(kind, t, entries[..|entries| - 1]); }
  }

  lemma {:induction false} BoundGrows(entries: seq<DocList>, ids: seq<int>, n: nat)
    requires n < |entries| && |ids| == n + 1
    ensures Bound(entries[..n + 1], ids)
         == if entries[n].id != 0 then Bound(entries[..n], ids[..n])[entries[n].id := ids[n]] else Bound(entries[..n], ids[..n])
  {
    assert entries[..n + 1][..n] == entries[..n];
  }

  lemma RunGrows<E, R, K>(kind: Kind<E, R, K>, t: Table<R>, entries: seq<E>, n: nat)
    requires n < |entries|
    ensures Run(kind, t, entries[..n]).None? ==> Run(kind, t, entries[..n + 1]).None?
    ensures Run(kind, t, entries[..n]).Some? ==>
      Run(kind, t, entries[..n + 1]) == Upsert(kind, Run(kind, t, entries[..n]).value, entries[n])
  {
    assert entries[..n + 1][..n] == entries[..n];
  }

  class Store {
    var config: Config

    constructor (c: Config)
      ensures config == c
    {
      config := c;
    }

    /** The transaction: `Imported` on success, no change on refusal. */
    method Import(env: Env, doc: Doc) returns (res: Option<(Counts, Counts)>)
      modifies this
      ensures res.Some? <==> Imported(env, old(config), doc).Some?
      ensures res.None? ==> config == old(config)
      ensures res.Some? ==>
        var o := Imported(env, old(config), doc).value;
        config == o.config && res.value == (o.created, o.updated)
    {
      hide Upsert;
      var a := Start(ListKind(env), config.lists);
      var bound: map<int, int> := map[];
      var i := 0;
      while i < |doc.lists|
        invariant i <= |doc.lists| && config == old(config)
        invariant Run(ListKind(env), config.lists, doc.lists[..i]) == Some(a)
        invariant |a.ids| == i && bound == Bound(doc.lists[..i], a.ids)
      {
        RunGrows(ListKind(env), config.lists, doc.lists, i);
        var step := Upsert(ListKind(env), a, doc.lists[i]);
        if step.None? {
          FailedStaysFailed(ListKind(env), config.lists, doc.lists, i + 1);
          return None;
        }
        StepAddsId(ListKind(env), a, doc.lists[i]);
        BoundGrows(doc.lists, step.value.ids, i);
        a := step.value;
        if doc.lists[i].id != 0 { bound := bound[doc.lists[i].id := a.ids[i]]; }
        i := i + 1;
      }
      assert doc.lists[..i] == doc.lists;
      var lists := Ids(a.table);
      var h := ImportHosts(env, lists, bound, doc.hosts);
      if h.None? { return None; }
      var s := ImportStreams(env, lists, bound, doc.streams);
      if s.None? { return None; }
      config := Config(a.table, h.value.table, s.value.table);
      res := Some((Counts(a.created, h.value.created, s.value.created), Counts(a.updated, h.value.updated, s.value.updated)));
    }

    method ImportHosts(env: Env, lists: set<int>, bound: map<int, int>, hosts: seq<Host>) returns (h: Option<Pass<Host, string>>)
      ensures h == Run(HostKind(env, lists), config.hosts, LocalHosts(bound, hosts))
    {
      hide Upsert;
      var kind := HostKind(env, lists);
      ghost var all := LocalHosts(bound, hosts);
      var p := Start(kind, config.hosts);
      var i := 0;
      while i < |hosts|
        invariant i <= |hosts| && Run(kind, config.hosts, all[..i]) == Some(p)
      {
        RunGrows(kind, config.hosts, all, i);
        var step := Upsert(kind, p, LocalHost(bound, hosts[i]));
        if step.None? {
          FailedStaysFailed(kind, config.hosts, all, i + 1);
          return None;
        }
        p := step.value;
        i := i + 1;
      }
      assert all[..i] == all;
      return Some(p);
    }

    method ImportStreams(env: Env, lists: set<int>, bound: map<int, int>, streams: seq<Stream>) returns (s: Option<Pass<Stream, (int, string)>>)
      ensures s == Run(StreamKind(env, lists), config.streams, LocalStreams(bound, streams))
    {
      hide Upsert;
      var kind := StreamKind(env, lists);
      ghost var all := LocalStreams(bound, streams);
      var p := Start(kind, config.streams);
      var i := 0;
      while i < |streams|
        invariant i <= |streams| && Run(kind, config.streams, all[..i]) == Some(p)
      {
        RunGrows(kind, config.streams, all, i);
        var step := Upsert(kind, p, LocalStream(bound, streams[i]));
        if step.None? {
          FailedStaysFailed(kind, config.streams, all, i + 1);
          return None;
        }
        p := step.value;
        i := i + 1;
      }
      assert all[..i] == all;
      return Some(p);
    }
  }

  lemma StepAddsId<E, R, K>(kind: Kind<E, R, K>, p: Pass<R, K>, e: E)
    requires Upsert(kind, p, e).Some?
    ensures |Upsert(kind, p, e).value.ids| == |p.ids| + 1
    ensures Upsert(kind, p, e).value.ids[..|p.ids|] == p.ids
  {
  }

  // ---- what an import keeps ----

  /** What every stored configuration satisfies: ids and keys are unique, no name or
      port is claimed twice, every access list named exists, a list is never empty. */
  ghost predicate Sound(env: Env, c: Config) {
    && Tidy(ListKind(env), c.lists, ListStored)
    && Tidy(HostKind(env, Ids(c.lists)), c.hosts, HostSoundIn(Ids(c.lists)))
    && Tidy(StreamKind(env, Ids(c.lists)), c.streams, StreamSoundIn(Ids(c.lists)))
  }

  /** Every row of c is in d, in its place, under its id and key: a list that had rules
      or users has some, a host has every protection it had, a restricted stream is
      restricted. */
  ghost predicate NothingLost(env: Env, c: Config, d: Config) {
    && Kept(ListKind(env), c.lists, d.lists, ListKept)
    && Kept(HostKind(env, {}), c.hosts, d.hosts, HostKept)
    && Kept(StreamKind(env, {}), c.streams, d.streams, StreamKept)
  }

  lemma IdsGrow<E, R, K>(kind: Kind<E, R, K>, t: Table<R>, u: Table<R>, kept: (R, R) -> bool)
    requires Kept(kind, t, u, kept)
    ensures Ids(t) <= Ids(u)
  {
    forall x | x in Ids(t) ensures x in Ids(u) {
      var i :| 0 <= i < |t.rows| && t.rows[i].id == x;
      assert u.rows[i].id == x;
    }
  }

  lemma HostsTidyLater(env: Env, env2: Env, lists: set<int>, more: set<int>, t: Table<Host>)
    requires lists <= more && Tidy(HostKind(env, lists), t, HostSoundIn(lists))
    ensures Tidy(HostKind(env2, more), t, HostSoundIn(more))
  {
    hide SettleHost, DomainKey, ProtectionRemoved, HostStored, ShareDomain;
    forall i | 0 <= i < |t.rows| ensures HostSound(more, t.rows[i].body) {
      assert HostSoundIn(lists)(t.rows[i].body);
    }
    forall i, j | 0 <= i < |t.rows| && 0 <= j < |t.rows| && i != j
      ensures !ShareDomain(t.rows[i].body, t.rows[j].body)
    {
      assert !HostKind(env, lists).clash(t.rows[i].body, t.rows[j].body);
    }
    forall i, j | 0 <= i < j < |t.rows|
      ensures DomainKey(t.rows[i].body.domains) != DomainKey(t.rows[j].body.domains)
    {
      assert HostKind(env, lists).rowKey(t.rows[i].body) != HostKind(env, lists).rowKey(t.rows[j].body);
    }
  }

  lemma StreamsTidyLater(env: Env, env2: Env, lists: set<int>, more: set<int>, t: Table<Stream>)
    requires lists <= more && Tidy(StreamKind(env, lists), t, StreamSoundIn(lists))
    ensures Tidy(StreamKind(env2, more), t, StreamSoundIn(more))
  {
    hide SettleStream;
    forall i | 0 <= i < |t.rows| ensures StreamSound(more, t.rows[i].body) {
      assert StreamSoundIn(lists)(t.rows[i].body);
    }
    forall i, j | 0 <= i < |t.rows| && 0 <= j < |t.rows| && i != j
      ensures !PortsOverlap(t.rows[i].body, t.rows[j].body)
    {
      assert !StreamKind(env, lists).clash(t.rows[i].body, t.rows[j].body);
    }
    forall i, j | 0 <= i < j < |t.rows|
      ensures (t.rows[i].body.port, t.rows[i].body.protocol) != (t.rows[j].body.port, t.rows[j].body.protocol)
    {
      assert StreamKind(env, lists).rowKey(t.rows[i].body) != StreamKind(env, lists).rowKey(t.rows[j].body);
    }
  }

  /** A successful import keeps the configuration sound, and nothing is lost by it. */
  lemma ImportKeeps(env: Env, c: Config, doc: Doc)
    requires Sound(env, c) && Imported(env, c, doc).Some?
    ensures Sound(env, Imported(env, c, doc).value.config)
    ensures NothingLost(env, c, Imported(env, c, doc).value.config)
  {
    hide Tidy, Kept, Run, Lawful, Indexed, AsRead;
    var o := Imported(env, c, doc).value;
    ListsAreLawful(env);
    RunInv(ListKind(env), ListStored, ListKept, c.lists, doc.lists);
    var lists := Ids(o.config.lists);
    IdsGrow(ListKind(env), c.lists, o.config.lists, ListKept);
    HostsTidyLater(env, env, Ids(c.lists), lists, c.hosts);
    HostsAreLawful(env, lists);
    RunInv(HostKind(env, lists), HostSoundIn(lists), HostKept, c.hosts, LocalHosts(o.bound, doc.hosts));
    StreamsTidyLater(env, env, Ids(c.lists), lists, c.streams);
    StreamsAreLawful(env, lists);
    RunInv(StreamKind(env, lists), StreamSoundIn(lists), StreamKept, c.streams, LocalStreams(o.bound, doc.streams));
    HostsKeptAnyway(env, env, lists, {}, c.hosts, o.config.hosts);
    StreamsKeptAnyway(env, env, lists, {}, c.streams, o.config.streams);
  }

  lemma HostsKeptAnyway(env: Env, env2: Env, lists: set<int>, other: set<int>, t: Table<Host>, u: Table<Host>)
    requires Kept(HostKind(env, lists), t, u, HostKept)
    ensures Kept(HostKind(env2, other), t, u, HostKept)
  {
    hide DomainKey, ProtectionRemoved;
    assert forall i :: 0 <= i < |t.rows| ==> HostKind(env, lists).rowKey(u.rows[i].body) == HostKind(env, lists).rowKey(t.rows[i].body);
  }

  lemma StreamsKeptAnyway(env: Env, env2: Env, lists: set<int>, other: set<int>, t: Table<Stream>, u: Table<Stream>)
    requires Kept(StreamKind(env, lists), t, u, StreamKept)
    ensures Kept(StreamKind(env2, other), t, u, StreamKept)
  {
    assert forall i :: 0 <= i < |t.rows| ==> StreamKind(env, lists).rowKey(u.rows[i].body) == StreamKind(env, lists).rowKey(t.rows[i].body);
  }

  // ---- any run of imports ----

  /** Imports one after the other, each with the checks as they then stand; one that
      is refused changes nothing. */
  function After(c: Config, runs: seq<(Env, Doc)>): Config {
    if |runs| == 0 then c
    else
      var before, (env, doc) := After(c, runs[..|runs| - 1]), runs[|runs| - 1];
      var o := Imported(env, before, doc);
      if o.Some? then o.value.config else before
  }

  lemma SoundAnyway(env: Env, env2: Env, c: Config)
    requires Sound(env, c)
    ensures Sound(env2, c)
  {
    hide Tidy;
    HostsTidyLater(env, env2, Ids(c.lists), Ids(c.lists), c.hosts);
    StreamsTidyLater(env, env2, Ids(c.lists), Ids(c.lists), c.streams);
    ListsTidyAnyway(env, env2, c.lists);
  }

  lemma ListsTidyAnyway(env: Env, env2: Env, t: Table<AccessList>)
    requires Tidy(ListKind(env), t, ListStored)
    ensures Tidy(ListKind(env2), t, ListStored)
  {
    forall i, j | 0 <= i < |t.rows| && 0 <= j < |t.rows| && i != j
      ensures t.rows[i].body.name != t.rows[j].body.name
    {
      assert !ListKind(env).clash(t.rows[i].body, t.rows[j].body);
    }
  }

  lemma LostNothingAtAll(env: Env, c: Config)
    ensures NothingLost(env, c, c)
  {
    hide ProtectionRemoved, DomainKey;
    forall h ensures HostKept(h, h) { HostKeptSelf(h); }
  }

  lemma LostNothingYet(env: Env, env2: Env, a: Config, b: Config, c: Config)
    requires NothingLost(env, a, b) && NothingLost(env2, b, c)
    ensures NothingLost(env, a, c)
  {
    hide ProtectionRemoved, DomainKey;
    HostsKeptAnyway(env2, env, {}, {}, b.hosts, c.hosts);
    StreamsKeptAnyway(env2, env, {}, {}, b.streams, c.streams);
    ListsKeptAnyway(env2, env, b.lists, c.lists);
    forall i | 0 <= i < |a.hosts.rows| ensures HostKept(a.hosts.rows[i].body, c.hosts.rows[i].body) {
      HostKeptChain(a.hosts.rows[i].body, b.hosts.rows[i].body, c.hosts.rows[i].body);
    }
    forall i | 0 <= i < |a.streams.rows| ensures StreamKept(a.streams.rows[i].body, c.streams.rows[i].body) {
      assert StreamKept(a.streams.rows[i].body, b.streams.rows[i].body) && StreamKept(b.streams.rows[i].body, c.streams.rows[i].body);
    }
    KeptChain(ListKind(env), a.lists, b.lists, c.lists, ListKept);
  }

  lemma KeptChain<E, R(!new), K>(kind: Kind<E, R, K>, a: Table<R>, b: Table<R>, c: Table<R>, kept: (R, R) -> bool)
    requires Kept(kind, a, b, kept) && Kept(kind, b, c, kept)
    requires forall x, y, z :: kept(x, y) && kept(y, z) ==> kept(x, z)
    ensures Kept(kind, a, c, kept)
  {
    forall i | 0 <= i < |a.rows| ensures kept(a.rows[i].body, c.rows[i].body) {
      assert kept(a.rows[i].body, b.rows[i].body) && kept(b.rows[i].body, c.rows[i].body);
    }
  }

  lemma ListsKeptAnyway(env: Env, env2: Env, t: Table<AccessList>, u: Table<AccessList>)
    requires Kept(ListKind(env), t, u, ListKept)
    ensures Kept(ListKind(env2), t, u, ListKept)
  {
    assert forall i :: 0 <= i < |t.rows| ==> ListKind(env).rowKey(u.rows[i].body) == ListKind(env).rowKey(t.rows[i].body);
  }

  /** However many documents are imported, nothing that was there is ever lost. */
  lemma {:induction false} RunsLoseNothing(env: Env, c: Config, runs: seq<(Env, Doc)>)
    requires Sound(env, c)
    ensures Sound(env, After(c, runs)) && NothingLost(env, c, After(c, runs))
  {
    hide Sound, NothingLost, Imported;
    if |runs| == 0 {
      LostNothingAtAll(env, c);
    } else {
      var before := After(c, runs[..|runs| - 1]);
      var (at, doc) := runs[|runs| - 1];
      RunsLoseNothing(env, c, runs[..|runs| - 1]);
      if Imported(at, before, doc).Some? {
        SoundAnyway(env, at, before);
        ImportKeeps(at, before, doc);
        SoundAnyway(at, env, After(c, runs));
        LostNothingYet(env, at, c, before, After(c, runs));
      }
    }
  }

  /** Every host there was is still there, under its id and its domains, with every
      protection it had. */
  lemma HostsStayProtected(env: Env, c: Config, runs: seq<(Env, Doc)>, i: nat)
    requires Sound(env, c) && i < |c.hosts.rows|
    ensures |c.hosts.rows| <= |After(c, runs).hosts.rows|
    ensures After(c, runs).hosts.rows[i].id == c.hosts.rows[i].id
    ensures DomainKey(After(c, runs).hosts.rows[i].body.domains) == DomainKey(c.hosts.rows[i].body.domains)
    ensures Protected(c.hosts.rows[i].body, After(c, runs).hosts.rows[i].body)
  {
    hide Sound, DomainKey, ProtectionRemoved, Protected, After;
    RunsLoseNothing(env, c, runs);
    var kind := HostKind(env, {});
    var d := After(c, runs);
    assert kind.rowKey(d.hosts.rows[i].body) == kind.rowKey(c.hosts.rows[i].body);
    assert HostKept(c.hosts.rows[i].body, d.hosts.rows[i].body);
    ProtectionRemovedMeaning(c.hosts.rows[i].body, d.hosts.rows[i].body);
  }

  // ---- the second import of a document ----

  /** No two entries of a sort have the same key. */
  ghost predicate DistinctEntries(doc: Doc) {
    && (forall i, j :: 0 <= i < j < |doc.lists| ==> Trim(doc.lists[i].name) != Trim(doc.lists[j].name))
    && (forall i, j :: 0 <= i < j < |doc.hosts| ==> DomainKey(doc.hosts[i].domains) != DomainKey(doc.hosts[j].domains))
    && (forall i, j :: 0 <= i < j < |doc.streams| ==>
          doc.streams[i].port != doc.streams[j].port
          || LocalStream(map[], doc.streams[i]).protocol != LocalStream(map[], doc.streams[j]).protocol)
  }

  lemma DistinctOnceBound(env: Env, lists: set<int>, bound: map<int, int>, doc: Doc)
    requires DistinctEntries(doc)
    ensures DistinctKeys(ListKind(env), doc.lists)
    ensures DistinctKeys(HostKind(env, lists), LocalHosts(bound, doc.hosts))
    ensures DistinctKeys(StreamKind(env, lists), LocalStreams(bound, doc.streams))
  {
    hide DomainKey, SettleHost, SettleStream, ProtectionRemoved, LocalRules;
  }

  lemma {:induction false} LocalRulesShape(bound: map<int, int>, rules: seq<AuthRule>)
    ensures |LocalRules(bound, rules)| == |rules|
    ensures forall i :: 0 <= i < |rules| ==> LocalRules(bound, rules)[i] == rules[i].(list := Local(bound, rules[i].list))
  {
    if |rules| > 0 { LocalRulesShape(bound, rules[1..]); }
  }

  /** Rebinding references does not bear on gates. */
  lemma GateKeptOnceBound(bound: map<int, int>, rule: AuthRule, rules: seq<AuthRule>)
    ensures GateKept(rule.(list := Local(bound, rule.list)), LocalRules(bound, rules)) <==> GateKept(rule, rules)
  {
    LocalRulesShape(bound, rules);
    var local := LocalRules(bound, rules);
    if GateKept(rule, rules) {
      var n :| n in rules && n.path == rule.path && n.exact == rule.exact && n.mode != "public";
      var i :| 0 <= i < |rules| && rules[i] == n;
      assert local[i] in local;
    }
    if GateKept(rule.(list := Local(bound, rule.list)), local) {
      var n :| n in local && n.path == rule.path && n.exact == rule.exact && n.mode != "public";
      var i :| 0 <= i < |local| && local[i] == n;
      assert rules[i] in rules;
    }
  }

  lemma GatesTrimmedOnceBound(bound: map<int, int>, h: Host)
    ensures GatesTrimmed(LocalHost(bound, h)) <==> GatesTrimmed(h)
  {
    LocalRulesShape(bound, h.authRules);
    forall i | 0 <= i < |h.authRules|
      ensures GateKept(LocalHost(bound, h).authRules[i].(path := Trim(h.authRules[i].path)), LocalRules(bound, h.authRules))
          <==> GateKept(h.authRules[i].(path := Trim(h.authRules[i].path)), h.authRules)
    {
      GateKeptOnceBound(bound, h.authRules[i].(path := Trim(h.authRules[i].path)), h.authRules);
    }
  }

  ghost predicate AllGatesTrimmed(doc: Doc) { forall i :: 0 <= i < |doc.hosts| ==> GatesTrimmed(doc.hosts[i]) }

  lemma AllGatesTrimmedOnceBound(bound: map<int, int>, doc: Doc)
    ensures AllAgain(GatesTrimmed, LocalHosts(bound, doc.hosts)) <==> AllGatesTrimmed(doc)
  {
    hide GatesTrimmed;
    forall i | 0 <= i < |doc.hosts| ensures GatesTrimmed(LocalHost(bound, doc.hosts[i])) <==> GatesTrimmed(doc.hosts[i]) {
      GatesTrimmedOnceBound(bound, doc.hosts[i]);
    }
  }

  /** With distinct keys the second import of a document is the identity, with nothing
      created and the same binding, exactly where every gated path, trimmed, is gated in
      the entry as written; elsewhere it is refused. */
  lemma SecondImport(env: Env, c: Config, doc: Doc)
    requires Sound(env, c) && DistinctEntries(doc) && Imported(env, c, doc).Some?
    ensures
      var o := Imported(env, c, doc).value;
      Imported(env, o.config, doc)
        == if AllGatesTrimmed(doc)
           then Some(Outcome(o.config, Counts(0, 0, 0), Counts(|doc.lists|, |doc.hosts|, |doc.streams|), o.bound))
           else None
  {
    hide Tidy, Run, Lawful, Repeatable, DistinctKeys, DistinctEntries, GatesTrimmed, AllGatesTrimmed, Inv;
    var o := Imported(env, c, doc).value;
    var lists := Ids(o.config.lists);
    var hosts, streams := LocalHosts(o.bound, doc.hosts), LocalStreams(o.bound, doc.streams);
    ListsKeep(env, c, doc.lists);
    DistinctOnceBound(env, lists, o.bound, doc);
    ListsAreLawful(env);
    ListsRepeat(env);
    RunTwice(ListKind(env), ListStored, ListKept, AnyList, c.lists, doc.lists);
    HostsTidyLater(env, env, Ids(c.lists), lists, c.hosts);
    HostsAreLawful(env, lists);
    HostsRepeat(env, lists);
    RunTwice(HostKind(env, lists), HostSoundIn(lists), HostKept, GatesTrimmed, c.hosts, hosts);
    AllGatesTrimmedOnceBound(o.bound, doc);
    StreamsTidyLater(env, env, Ids(c.lists), lists, c.streams);
    StreamsAreLawful(env, lists);
    RunTwice(StreamKind(env, lists), StreamSoundIn(lists), StreamKept, AnyStream, c.streams, streams);
  }

  lemma ListsKeep(env: Env, c: Config, entries: seq<DocList>)
    requires Sound(env, c) && Run(ListKind(env), c.lists, entries).Some?
    ensures Ids(c.lists) <= Ids(Run(ListKind(env), c.lists, entries).value.table)
    ensures |Run(ListKind(env), c.lists, entries).value.ids| == |entries|
  {
    hide Tidy, Kept, Run, Lawful, Indexed, AsRead;
    ListsAreLawful(env);
    RunInv(ListKind(env), ListStored, ListKept, c.lists, entries);
    IdsGrow(ListKind(env), c.lists, Run(ListKind(env), c.lists, entries).value.table, ListKept);
  }

  // ---- what a reference means ----

  lemma {:induction false} BoundMeaning(entries: seq<DocList>, ids: seq<int>)
    requires |ids| == |entries|
    ensures forall x :: x in Bound(entries, ids) <==> x != 0 && exists i :: 0 <= i < |entries| && entries[i].id == x
    ensures forall i :: 0 <= i < |entries| && entries[i].id != 0 && (forall j :: i < j < |entries| ==> entries[j].id != entries[i].id) ==>
      Bound(entries, ids)[entries[i].id] == ids[i]
  {
    if |entries| > 0 {
      var n := |entries| - 1;
      BoundMeaning(entries[..n], ids[..n]);
      assert forall k :: 0 <= k < n ==> entries[..n][k] == entries[k];
      forall x ensures x in Bound(entries, ids) <==> x != 0 && exists i :: 0 <= i < |entries| && entries[i].id == x {
        if x in Bound(entries[..n], ids[..n]) {
          var i :| 0 <= i < n && entries[..n][i].id == x;
          assert entries[i].id == x;
        } else if x != 0 && exists i :: 0 <= i < |entries| && entries[i].id == x {
          assert entries[n].id == x;
        }
      }
    }
  }

  /** An id of the document leads to the row that has the name of its last list with
      that id; 0 and ids of no list stay what they are. */
  lemma ReferencesFollowNames(env: Env, c: Config, doc: Doc, r: int)
    requires Sound(env, c) && Imported(env, c, doc).Some?
    ensures var o := Imported(env, c, doc).value;
      && ((r == 0 || forall i :: 0 <= i < |doc.lists| ==> doc.lists[i].id != r) ==> Local(o.bound, Some(r)) == Some(r))
      && (forall i :: 0 <= i < |doc.lists| && doc.lists[i].id == r != 0 && (forall j :: i < j < |doc.lists| ==> doc.lists[j].id != r) ==>
            exists at :: 0 <= at < |o.config.lists.rows|
              && Local(o.bound, Some(r)) == Some(o.config.lists.rows[at].id) && o.config.lists.rows[at].body.name == Trim(doc.lists[i].name))
  {
    hide Tidy, Run, Lawful, SettleList, SettleHost, SettleStream, DomainKey, ProtectionRemoved;
    var kind := ListKind(env);
    var p := Run(kind, c.lists, doc.lists).value;
    ListsKeep(env, c, doc.lists);
    ListsAreLawful(env);
    BoundMeaning(doc.lists, p.ids);
    forall i | 0 <= i < |doc.lists| && doc.lists[i].id == r != 0 && forall j :: i < j < |doc.lists| ==> doc.lists[j].id != r
      ensures exists at :: 0 <= at < |p.table.rows| && p.table.rows[at].id == p.ids[i] && p.table.rows[at].body.name == Trim(doc.lists[i].name)
    {
      RunGoes(kind, ListStored, ListKept, c.lists, doc.lists, i);
      var at :| 0 <= at < |p.table.rows| && p.table.rows[at].id == p.ids[i]
        && kind.rowKey(p.table.rows[at].body) == kind.key(doc.lists[i]);
    }
  }

  // ---- what an entry does ----

  /** An entry with the domains of a host replaces what that host holds, and a host no
      entry has the domains of is left alone. */
  lemma HostsAreMatched(env: Env, c: Config, doc: Doc, i: nat)
    requires Sound(env, c) && DistinctEntries(doc) && Imported(env, c, doc).Some? && i < |c.hosts.rows|
    ensures
      var o := Imported(env, c, doc).value;
      var key := DomainKey(c.hosts.rows[i].body.domains);
      && i < |o.config.hosts.rows|
      && (forall j :: 0 <= j < |doc.hosts| && DomainKey(doc.hosts[j].domains) == key ==>
            SettleHost(env, Ids(o.config.lists), LocalHost(o.bound, doc.hosts[j])) == Some(o.config.hosts.rows[i].body))
      && ((forall j :: 0 <= j < |doc.hosts| ==> DomainKey(doc.hosts[j].domains) != key) ==>
            o.config.hosts.rows[i] == c.hosts.rows[i])
  {
    hide Tidy, Run, Lawful, DistinctKeys, DistinctEntries, Inv, SettleHost, DomainKey, LocalRules, ProtectionRemoved;
    var o := Imported(env, c, doc).value;
    var lists := Ids(o.config.lists);
    var kind := HostKind(env, lists);
    var hosts := LocalHosts(o.bound, doc.hosts);
    ListsKeep(env, c, doc.lists);
    DistinctOnceBound(env, lists, o.bound, doc);
    HostsTidyLater(env, env, Ids(c.lists), lists, c.hosts);
    HostsAreLawful(env, lists);
    RunInv(kind, HostSoundIn(lists), HostKept, c.hosts, hosts);
    HostsHoldAtLeast(env, c, doc, i);
    forall j | 0 <= j < |doc.hosts| && DomainKey(doc.hosts[j].domains) == DomainKey(c.hosts.rows[i].body.domains)
      ensures SettleHost(env, lists, LocalHost(o.bound, doc.hosts[j])) == Some(o.config.hosts.rows[i].body)
    {
      RunWrites(kind, HostSoundIn(lists), HostKept, c.hosts, hosts, i, j);
    }
    if forall j :: 0 <= j < |doc.hosts| ==> DomainKey(doc.hosts[j].domains) != DomainKey(c.hosts.rows[i].body.domains) {
      RunLeavesOthers(kind, HostSoundIn(lists), HostKept, c.hosts, hosts, i);
    }
  }

  lemma HostsHoldAtLeast(env: Env, c: Config, doc: Doc, i: nat)
    requires Sound(env, c) && Imported(env, c, doc).Some? && i < |c.hosts.rows|
    ensures i < |Imported(env, c, doc).value.config.hosts.rows|
  {
    hide Sound, Imported;
    ImportKeeps(env, c, doc);
  }

  // ---- a document that cannot be imported twice ----

  const NOTHING := Config(Table([], 1), Table([], 1), Table([], 1))

  const AUTH_URL := "http://a"

  /** A gate written with a leading space. */
  const GATE := AuthRule(" /a", false, "forwardAuth", None, None, "")

  const GATED := Host("", ["x"], "", None, false, None, None, Some(AUTH_URL), None, false, "", [GATE], "")

  const GATED_DOC := Doc([], [GATED], [])

  /** The scheme and a host. */
  predicate HasSchemeAndHost(s: string) {
    ("http://" < s && s[7] != '/') || ("https://" < s && s[8] != '/')
  }

  /** An environment whose open checks let everything by, but for the form of the
      forward-auth URL. */
  function Lenient(): Env {
    Env(s => Some(s), s => true, (k, s) => Some(s), s => HasSchemeAndHost(s), s => true, s => Some(s), s => Some(s), s => Some(s),
        (st, s) => Some(s), {}, {}, {})
  }

  lemma AuthUrlPasses()
    ensures Trim(AUTH_URL) == AUTH_URL && Lenient().authUrl(AUTH_URL)
  {
    assert "http://" < AUTH_URL && AUTH_URL[7] == 'a';
  }

  lemma GateSettles()
    ensures SettleRule(Lenient(), {}, Some(AUTH_URL), None, GATE) == Some(GATE.(path := "/a"))
  {
    assert Trim("/a") == "/a";
    assert Trim(" /a") == "/a" by { assert " /a"[1..] == "/a"; }
    AuthUrlPasses();
    assert Lenient().authRest("") == Some("");
    assert "/" <= "/a";
  }

  lemma GatesSettle()
    ensures SettleRules(Lenient(), {}, Some(AUTH_URL), None, [GATE]) == Some([GATE.(path := "/a")])
  {
    hide SettleRule;
    GateSettles();
    assert [GATE][1..] == [];
    assert SettleRules(Lenient(), {}, Some(AUTH_URL), None, []) == Some([]);
    var stored := GATE.(path := "/a");
    assert [stored] + [] == [stored];
  }

  lemma NameSettles()
    ensures Norm("x") == "x" && IsDomain("x")
  {
    assert Trim("x") == "x";
    assert Lower("x") == "x";
    assert Split("x", '.') == ["x"] by { assert "x"[1..] == "" && Split("", '.') == [""]; }
    assert IsLabel("x");
  }

  lemma HostSettles()
    ensures SettleHost(Lenient(), {}, GATED).Some?
  {
    var env := Lenient();
    hide SettleRules, Trim, Norm, IsDomain, HasSchemeAndHost;
    GatesSettle();
    AuthUrlPasses();
    NameSettles();
    assert env.hostRest("proxy", "") == Some("") && env.authUrl(AUTH_URL);
  }

  lemma GateIsNotTrimmed()
    ensures !GatesTrimmed(GATED)
  {
    assert Trim("/a") == "/a";
    assert Trim(" /a") == "/a" by { assert " /a"[1..] == "/a"; }
    assert GATED.authRules[0] == GATE;
    assert !GateKept(GATE.(path := "/a"), [GATE]) by { assert " /a" != "/a"; }
  }

  lemma HostIsCreated(kind: Kind<Host, Host, string>)
    requires kind == HostKind(Lenient(), {})
    ensures Run(kind, NOTHING.hosts, [GATED]).Some?
  {
    hide SettleHost, DomainKey, ProtectionRemoved, HostKind;
    HostSettles();
    assert [GATED][..0] == [];
    assert Run(kind, NOTHING.hosts, []) == Some(Start(kind, NOTHING.hosts));
    KindSettles(kind);
    assert Append(kind, Start(kind, NOTHING.hosts), GATED).Some?;
  }

  lemma KindSettles(kind: Kind<Host, Host, string>)
    requires kind == HostKind(Lenient(), {})
    ensures kind.settle(None, GATED) == SettleHost(Lenient(), {}, GATED)
  {
    hide SettleHost, DomainKey, ProtectionRemoved;
  }

  lemma FirstImport()
    ensures Imported(Lenient(), NOTHING, GATED_DOC).Some?
  {
    hide SettleHost, DomainKey, ProtectionRemoved, HostKind, Upsert;
    HostIsCreated(HostKind(Lenient(), {}));
    assert LocalRules(map[], [GATE]) == [GATE] by { assert [GATE][1..] == []; }
    assert LocalHost(map[], GATED) == GATED;
    assert LocalHosts(map[], [GATED]) == [GATED];
    assert Ids(NOTHING.lists) == {};
  }

  lemma NothingIsSound()
    ensures Sound(Lenient(), NOTHING) && DistinctEntries(GATED_DOC)
  {
    hide DomainKey, Ids, ListKind, HostKind, StreamKind, Lenient;
  }

  /** Its first import into an empty configuration succeeds, the next is refused. */
  lemma RefusedTheSecondTime()
    ensures Imported(Lenient(), NOTHING, GATED_DOC).Some?
    ensures Imported(Lenient(), Imported(Lenient(), NOTHING, GATED_DOC).value.config, GATED_DOC).None?
  {
    hide GatesTrimmed, Imported, Sound, DistinctEntries;
    FirstImport();
    NothingIsSound();
    GateIsNotTrimmed();
    assert GATED_DOC.hosts[0] == GATED;
    SecondImport(Lenient(), NOTHING, GATED_DOC);
  }
}
