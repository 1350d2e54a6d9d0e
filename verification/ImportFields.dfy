/** What an import stores, field by field, and why one is refused: each in the words of
    the document's entries, without the validation that computes it. */
module ImportFields {
  import opened Basics
  import opened Names
  import opened Upserts
  import opened Entries
  import opened Imports

  // ---- access lists ----

  /** Of several users of one name the last is meant. */
  ghost predicate AcceptedBefore(prev: seq<ListUser>, name: string, accepts: string) {
    exists k :: 0 <= k < |prev| && prev[k].name == name && prev[k].accepts == accepts && forall j :: k < j < |prev| ==> prev[j].name != name
  }

  ghost predicate UserAsWritten(env: Env, u: DocUser, prev: seq<ListUser>, s: ListUser) {
    && s.name == Trim(u.name) && s.name != ""
    && if u.password != "" then env.hashable(u.password) && s.accepts == u.password else AcceptedBefore(prev, s.name, s.accepts)
  }

  /** The list an entry is stored as, `prev` being the users stored under its name before. */
  ghost predicate ListAsWritten(env: Env, e: DocList, prev: seq<ListUser>, a: AccessList) {
    && a.name == Trim(e.name) && a.name != ""
    && a.satisfy == (if e.satisfy == "" then "any" else e.satisfy) && (a.satisfy == "any" || a.satisfy == "all")
    && a.passAuth == e.passAuth
    && (e.rules != [] || e.users != [])
    && |a.rules| == |e.rules| && (forall i :: 0 <= i < |e.rules| ==> env.rule(e.rules[i]) == Some(a.rules[i]))
    && |a.users| == |e.users| && (forall i :: 0 <= i < |e.users| ==> UserAsWritten(env, e.users[i], prev, a.users[i]))
    && (forall i, j :: 0 <= i < j < |a.users| ==> a.users[i].name != a.users[j].name)
  }

  lemma {:induction false} AcceptsMeaning(users: seq<ListUser>, name: string)
    ensures Accepts(users, name).None? <==> forall k :: 0 <= k < |users| ==> users[k].name != name
    ensures forall accepts :: Accepts(users, name) == Some(accepts) <==> AcceptedBefore(users, name, accepts)
  {
    if |users| > 0 {
      var front, last := users[..|users| - 1], users[|users| - 1];
      AcceptsMeaning(front, name);
      assert forall k :: 0 <= k < |front| ==> front[k] == users[k];
      forall accepts
        ensures Accepts(users, name) == Some(accepts) <==> AcceptedBefore(users, name, accepts)
      {
        if last.name != name && AcceptedBefore(front, name, accepts) {
          var k :| 0 <= k < |front| && front[k].name == name && front[k].accepts == accepts && forall j :: k < j < |front| ==> front[j].name != name;
          assert users[k] == front[k];
        }
        if last.name != name && AcceptedBefore(users, name, accepts) {
          var k :| 0 <= k < |users| && users[k].name == name && users[k].accepts == accepts && forall j :: k < j < |users| ==> users[j].name != name;
          assert users[k] == front[k];
        }
        if last.name == name && last.accepts == accepts { assert users[|users| - 1] == last; }
      }
    }
  }

  lemma UserMeaning(env: Env, prev: seq<ListUser>, u: DocUser, s: ListUser)
    ensures UserStored(env, prev, u) == Some(s) <==> UserAsWritten(env, u, prev, s)
  {
    hide Trim;
    AcceptsMeaning(prev, Trim(u.name));
  }

  lemma {:induction false} RulesMeaning(env: Env, rules: seq<string>, r: seq<string>)
    ensures Rules(env, rules) == Some(r) <==> |r| == |rules| && forall i :: 0 <= i < |rules| ==> env.rule(rules[i]) == Some(r[i])
  {
    if |rules| > 0 {
      var n := |rules| - 1;
      if |r| == n + 1 {
        RulesMeaning(env, rules[..n], r[..n]);
        assert r == r[..n] + [r[n]];
      }
      RulesCount(env, rules);
      RulesCount(env, rules[..n]);
      if Rules(env, rules) == Some(r) { assert r[..n] == Rules(env, rules[..n]).value; }
    }
  }

  ghost predicate UsersAsWritten(env: Env, prev: seq<ListUser>, users: seq<DocUser>, r: seq<ListUser>) {
    && |r| == |users| && (forall i :: 0 <= i < |users| ==> UserAsWritten(env, users[i], prev, r[i]))
    && (forall i, j :: 0 <= i < j < |r| ==> r[i].name != r[j].name)
  }

  lemma {:induction false} UsersMeaning(env: Env, prev: seq<ListUser>, users: seq<DocUser>, r: seq<ListUser>)
    ensures Users(env, prev, users) == Some(r) <==> UsersAsWritten(env, prev, users, r)
  {
    hide UserAsWritten, UserStored;
    UsersCount(env, prev, users);
    if |users| > 0 {
      var n := |users| - 1;
      UsersCount(env, prev, users[..n]);
      if |r| == n + 1 {
        UsersMeaning(env, prev, users[..n], r[..n]);
        UserMeaning(env, prev, users[n], r[n]);
        AcceptsMeaning(r[..n], r[n].name);
        assert r == r[..n] + [r[n]];
        UsersStep(env, prev, users, r);
      }
    }
  }

  lemma UsersStep(env: Env, prev: seq<ListUser>, users: seq<DocUser>, r: seq<ListUser>)
    requires |users| > 0 && |r| == |users|
    ensures UsersAsWritten(env, prev, users, r) <==>
      && UsersAsWritten(env, prev, users[..|users| - 1], r[..|users| - 1])
      && UserAsWritten(env, users[|users| - 1], prev, r[|users| - 1])
      && forall k :: 0 <= k < |users| - 1 ==> r[k].name != r[|users| - 1].name
  {
    hide UserAsWritten;
    assert forall k :: 0 <= k < |users| - 1 ==> users[..|users| - 1][k] == users[k] && r[..|users| - 1][k] == r[k];
  }

  /** Validation stores a list as written, or refuses it where it cannot be. */
  lemma ListMeaning(env: Env, p: Option<AccessList>, e: DocList, a: AccessList)
    ensures SettleList(env, p, e) == Some(a) <==> ListAsWritten(env, e, if p.Some? then p.value.users else [], a)
  {
    hide Trim, Rules, Users, UserAsWritten;
    RulesMeaning(env, e.rules, a.rules);
    UsersMeaning(env, if p.Some? then p.value.users else [], e.users, a.users);
  }

  /** The lists a reference may be to are those in the table. */
  lemma IdsMeaning(t: Table<AccessList>, id: int)
    ensures id in Ids(t) <==> exists r :: r in t.rows && r.id == id
  {
    if id in Ids(t) {
      var i :| 0 <= i < |t.rows| && t.rows[i].id == id;
      assert t.rows[i] in t.rows;
    }
  }

  // ---- hosts ----

  /** What a reference of the document is stored as. */
  type Ref = Option<int> -> Option<int>

  ghost predicate SsoAsWritten(env: Env, e: Option<Sso>, s: Option<Sso>) {
    if e.None? then s.None?
    else s.Some? && s.value.provider == e.value.provider && e.value.provider > 0 && e.value.provider in env.providers
         && env.sso(e.value.rest) == Some(s.value.rest)
  }

  /** `url` is the host's forward-auth URL as stored, `sso` its own SSO as written. */
  ghost predicate RuleAsWritten(env: Env, lists: set<int>, ref: Ref, url: Option<string>, sso: Option<Sso>, e: AuthRule, s: AuthRule) {
    && s.path == Trim(e.path) && s.path != "" && s.path[0] == '/'
    && s.exact == e.exact && s.mode == e.mode
    && env.authRest(e.rest) == Some(s.rest)
    && (e.mode == "public" || e.mode == "forwardAuth" || e.mode == "oidc" || e.mode == "accessList")
    && (e.mode == "forwardAuth" ==> url.Some? && Trim(url.value) != "")
    && (if e.mode == "accessList" then ref(e.list).Some? && ref(e.list).value in lists && s.list == ref(e.list) else s.list.None?)
    && (if e.mode == "oidc" then (e.sso.Some? || sso.Some?) && SsoAsWritten(env, e.sso, s.sso) else s.sso.None?)
  }

  ghost predicate DomainsAsWritten(e: seq<string>, s: seq<string>) {
    && |s| == |e| > 0
    && (forall i :: 0 <= i < |e| ==> s[i] == Norm(e[i]) && IsDomain(s[i]))
    && (forall i, j :: 0 <= i < j < |s| ==> s[i] != s[j])
  }

  ghost predicate CertAsWritten(env: Env, e: Host, s: Host) {
    && s.certMode == (if e.certMode == "" then "auto" else e.certMode)
    && (s.certMode == "auto" || s.certMode == "none" || s.certMode == "custom")
    && (if s.certMode == "custom" then e.certId.Some? && e.certId.value in env.certs && s.certId == e.certId else s.certId.None?)
    && (s.certMode == "none" ==> !e.forceSsl && e.clientCert.None?)
    && (if e.clientCert.None? then s.clientCert.None?
        else
          && s.clientCert.Some? && s.clientCert.value.ca == e.clientCert.value.ca && env.caBundle(e.clientCert.value.ca)
          && s.clientCert.value.mode == (if e.clientCert.value.mode == "" then "require" else e.clientCert.value.mode)
          && (s.clientCert.value.mode == "require" || s.clientCert.value.mode == "request"))
  }

  ghost predicate UrlAsWritten(env: Env, e: Option<string>, s: Option<string>) {
    if e.None? || Trim(e.value) == "" then s == e else s == Some(Trim(e.value)) && env.authUrl(Trim(e.value))
  }

  /** The host an entry is stored as. */
  ghost predicate HostAsWritten(env: Env, lists: set<int>, ref: Ref, e: Host, s: Host) {
    && s.kind == (if e.kind == "" then "proxy" else e.kind)
    && (s.kind == "proxy" || s.kind == "redirect" || s.kind == "dead" || s.kind == "static" || s.kind == "vpn-portal")
    && DomainsAsWritten(e.domains, s.domains) && CertAsWritten(env, e, s)
    && s.forceSsl == e.forceSsl && s.vpnOnly == e.vpnOnly && !(s.kind == "vpn-portal" && s.vpnOnly)
    && s.minTls == e.minTls && (s.minTls == "" || s.minTls == "1.2" || s.minTls == "1.3")
    && s.list == ref(e.list) && (s.list.Some? ==> s.list.value in lists)
    && SsoAsWritten(env, e.sso, s.sso) && UrlAsWritten(env, e.forwardAuth, s.forwardAuth)
    && |s.authRules| == |e.authRules|
    && (forall i :: 0 <= i < |e.authRules| ==> RuleAsWritten(env, lists, ref, s.forwardAuth, e.sso, e.authRules[i], s.authRules[i]))
    && env.hostRest(s.kind, e.rest) == Some(s.rest)
  }

  lemma SsoMeaning(env: Env, e: Option<Sso>, s: Option<Sso>)
    ensures SettleSso(env, e) == Some(s) <==> SsoAsWritten(env, e, s)
  {
  }

  lemma RuleMeaning(env: Env, lists: set<int>, bound: map<int, int>, url: Option<string>, sso: Option<Sso>, e: AuthRule, s: AuthRule)
    ensures SettleRule(env, lists, url, sso, e.(list := Local(bound, e.list))) == Some(s)
       <==> RuleAsWritten(env, lists, r => Local(bound, r), url, sso, e, s)
  {
    hide Trim, Local;
    if s.sso.Some? { SsoMeaning(env, e.sso, s.sso); } else { SsoMeaning(env, e.sso, None); }
  }

  ghost predicate RulesAsWritten(env: Env, lists: set<int>, ref: Ref, url: Option<string>, sso: Option<Sso>, e: seq<AuthRule>, s: seq<AuthRule>) {
    |s| == |e| && forall i :: 0 <= i < |e| ==> RuleAsWritten(env, lists, ref, url, sso, e[i], s[i])
  }

  lemma {:induction false} AuthRulesMeaning(env: Env, lists: set<int>, bound: map<int, int>, url: Option<string>, sso: Option<Sso>, e: seq<AuthRule>, s: seq<AuthRule>)
    ensures SettleRules(env, lists, url, sso, LocalRules(bound, e)) == Some(s)
       <==> RulesAsWritten(env, lists, r => Local(bound, r), url, sso, e, s)
    decreases |e|
  {
    hide SettleRule, RuleAsWritten, Local;
    LocalRulesShape(bound, e);
    if |e| > 0 {
      hide RulesAsWritten;
      RulesLength(env, lists, url, sso, LocalRules(bound, e));
      SameNumber(env, lists, r => Local(bound, r), url, sso, e, s);
      if |s| == |e| {
        AuthRulesMeaning(env, lists, bound, url, sso, e[1..], s[1..]);
        RuleMeaning(env, lists, bound, url, sso, e[0], s[0]);
        FirstAndRest(env, lists, r => Local(bound, r), url, sso, e, s);
        assert s == [s[0]] + s[1..];
      }
    }
  }

  lemma SameNumber(env: Env, lists: set<int>, ref: Ref, url: Option<string>, sso: Option<Sso>, e: seq<AuthRule>, s: seq<AuthRule>)
    ensures RulesAsWritten(env, lists, ref, url, sso, e, s) ==> |s| == |e|
  {
  }

  lemma FirstAndRest(env: Env, lists: set<int>, ref: Ref, url: Option<string>, sso: Option<Sso>, e: seq<AuthRule>, s: seq<AuthRule>)
    requires |s| == |e| > 0
    ensures RulesAsWritten(env, lists, ref, url, sso, e, s) <==>
      RuleAsWritten(env, lists, ref, url, sso, e[0], s[0]) && RulesAsWritten(env, lists, ref, url, sso, e[1..], s[1..])
  {
    hide RuleAsWritten;
    assert forall i :: 0 < i < |e| ==> e[i] == e[1..][i - 1] && s[i] == s[1..][i - 1];
  }

  lemma {:induction false} RulesLength(env: Env, lists: set<int>, url: Option<string>, sso: Option<Sso>, rules: seq<AuthRule>)
    ensures SettleRules(env, lists, url, sso, rules).Some? ==> |SettleRules(env, lists, url, sso, rules).value| == |rules|
  {
    if |rules| > 0 { RulesLength(env, lists, url, sso, rules[1..]); }
  }

  lemma DomainsMeaning(e: seq<string>, s: seq<string>)
    ensures DomainsOk(e) && s == NormAll(e) <==> DomainsAsWritten(e, s)
  {
    hide Norm, IsDomain;
    NormAllShape(e);
  }

  lemma UrlMeaning(env: Env, e: Option<string>, s: Option<string>)
    ensures s == SettleUrl(e) && !(s.Some? && Trim(s.value) != "" && !env.authUrl(s.value)) <==> UrlAsWritten(env, e, s)
  {
    if e.Some? { TrimTwice(e.value); }
  }

  /** Everything but the rules, which depend on the URL as stored. */
  lemma HostMeaning(env: Env, lists: set<int>, bound: map<int, int>, e: Host, s: Host)
    ensures SettleHost(env, lists, LocalHost(bound, e)) == Some(s) <==> HostAsWritten(env, lists, r => Local(bound, r), e, s)
  {
    hide Trim, NormAll, DomainsOk, SettleUrl, SettleSso, SettleRules, LocalRules, Local, RuleAsWritten, SsoAsWritten, DomainsAsWritten, UrlAsWritten;
    DomainsMeaning(e.domains, s.domains);
    SsoMeaning(env, e.sso, s.sso);
    UrlMeaning(env, e.forwardAuth, s.forwardAuth);
    AuthRulesMeaning(env, lists, bound, s.forwardAuth, e.sso, e.authRules, s.authRules);
  }

  // ---- streams ----

  ghost predicate StreamAsWritten(env: Env, lists: set<int>, ref: Ref, e: Stream, s: Stream) {
    && s.port == e.port && 1 <= e.port <= 65535 && s.portEnd == e.portEnd
    && s.protocol == (if e.protocol == "" then "tcp" else e.protocol)
    && (s.protocol == "tcp" || s.protocol == "udp" || s.protocol == "both")
    && (e.portEnd != 0 ==> e.port <= e.portEnd <= 65535 && s.protocol == "tcp")
    && (forall p :: p in env.reserved ==> p < e.port || p > if e.portEnd == 0 then e.port else e.portEnd)
    && s.list == ref(e.list) && (s.list.Some? ==> s.list.value in lists)
    && |s.cidrs| == |e.cidrs| && (forall i :: 0 <= i < |e.cidrs| ==> env.cidr(e.cidrs[i]) == Some(s.cidrs[i]))
    && env.streamRest(e.(list := s.list, protocol := s.protocol), e.rest) == Some(s.rest)
  }

  lemma {:induction false} CidrsMeaning(env: Env, cs: seq<string>, r: seq<string>)
    ensures Cidrs(env, cs) == Some(r) <==> |r| == |cs| && forall i :: 0 <= i < |cs| ==> env.cidr(cs[i]) == Some(r[i])
  {
    if |cs| > 0 {
      var n := |cs| - 1;
      if |r| == n + 1 {
        CidrsMeaning(env, cs[..n], r[..n]);
        assert r == r[..n] + [r[n]];
      }
      CidrsCount(env, cs);
      CidrsCount(env, cs[..n]);
      if Cidrs(env, cs) == Some(r) { assert r[..n] == Cidrs(env, cs[..n]).value; }
    }
  }

  lemma StreamMeaning(env: Env, lists: set<int>, bound: map<int, int>, e: Stream, s: Stream)
    ensures SettleStream(env, lists, LocalStream(bound, e)) == Some(s) <==> StreamAsWritten(env, lists, r => Local(bound, r), e, s)
  {
    hide Local, Cidrs;
    CidrsMeaning(env, e.cidrs, s.cidrs);
  }

  // ---- what an import stores ----

  /** The users of the list of that name before the import, none if there was none. */
  ghost function UsersBefore(env: Env, c: Config, name: string): seq<ListUser> {
    var prev := Before(ListKind(env), c.lists, name);
    if prev.Some? then prev.value.users else []
  }

  lemma UsersBeforeMeaning(env: Env, c: Config, name: string)
    ensures || (exists i :: 0 <= i < |c.lists.rows| && c.lists.rows[i].body.name == name && c.lists.rows[i].body.users == UsersBefore(env, c, name))
            || (UsersBefore(env, c, name) == [] && forall i :: 0 <= i < |c.lists.rows| ==> c.lists.rows[i].body.name != name)
  {
    var kind := ListKind(env);
    var prev := Before(kind, c.lists, name);
    if prev.Some? {
      var i :| 0 <= i < |c.lists.rows| && kind.rowKey(c.lists.rows[i].body) == name && c.lists.rows[i].body == prev.value;
    } else {
      assert forall i :: 0 <= i < |c.lists.rows| ==> kind.rowKey(c.lists.rows[i].body) != name;
    }
  }

  ghost predicate ListIn(env: Env, e: DocList, prev: seq<ListUser>, t: Table<AccessList>) {
    exists at :: 0 <= at < |t.rows| && ListAsWritten(env, e, prev, t.rows[at].body)
  }

  ghost predicate HostIn(env: Env, lists: set<int>, bound: map<int, int>, e: Host, t: Table<Host>) {
    exists at :: 0 <= at < |t.rows| && HostAsWritten(env, lists, r => Local(bound, r), e, t.rows[at].body)
  }

  ghost predicate StreamIn(env: Env, lists: set<int>, bound: map<int, int>, e: Stream, t: Table<Stream>) {
    exists at :: 0 <= at < |t.rows| && StreamAsWritten(env, lists, r => Local(bound, r), e, t.rows[at].body)
  }

  /** Every list, host and stream of the document is stored as it is written. */
  ghost predicate AllAsWritten(env: Env, c: Config, doc: Doc, o: Outcome) {
    var lists := Ids(o.config.lists);
    && (forall j :: 0 <= j < |doc.lists| ==> ListIn(env, doc.lists[j], UsersBefore(env, c, Trim(doc.lists[j].name)), o.config.lists))
    && (forall j :: 0 <= j < |doc.hosts| ==> HostIn(env, lists, o.bound, doc.hosts[j], o.config.hosts))
    && (forall j :: 0 <= j < |doc.streams| ==> StreamIn(env, lists, o.bound, doc.streams[j], o.config.streams))
  }

  /** What was created is what the tables grew by, and every entry was created or updated. */
  ghost predicate CountsAreRight(c: Config, doc: Doc, o: Outcome) {
    && |o.config.lists.rows| == |c.lists.rows| + o.created.lists && o.created.lists + o.updated.lists == |doc.lists|
    && |o.config.hosts.rows| == |c.hosts.rows| + o.created.hosts && o.created.hosts + o.updated.hosts == |doc.hosts|
    && |o.config.streams.rows| == |c.streams.rows| + o.created.streams && o.created.streams + o.updated.streams == |doc.streams|
  }

  lemma ListsStored(env: Env, c: Config, doc: Doc, j: nat)
    requires Sound(env, c) && DistinctEntries(doc) && Imported(env, c, doc).Some? && j < |doc.lists|
    ensures var o := Imported(env, c, doc).value;
      ListIn(env, doc.lists[j], UsersBefore(env, c, Trim(doc.lists[j].name)), o.config.lists)
  {
    hide Tidy, Run, Lawful, DistinctKeys, DistinctEntries, SettleList, ListAsWritten, Trim;
    var kind := ListKind(env);
    ListsAreLawful(env);
    DistinctOnceBound(env, {}, map[], doc);
    RunStores(kind, ListStored, ListKept, c.lists, doc.lists, j);
    var p := Run(kind, c.lists, doc.lists).value;
    var prev := Before(kind, c.lists, kind.key(doc.lists[j]));
    var at :| 0 <= at < |p.table.rows| && p.table.rows[at].id == p.ids[j]
      && kind.rowKey(p.table.rows[at].body) == kind.key(doc.lists[j]) && kind.settle(prev, doc.lists[j]) == Some(p.table.rows[at].body);
    ListMeaning(env, prev, doc.lists[j], p.table.rows[at].body);
  }

  lemma HostsStored(env: Env, c: Config, doc: Doc, j: nat)
    requires Sound(env, c) && DistinctEntries(doc) && Imported(env, c, doc).Some? && j < |doc.hosts|
    ensures var o := Imported(env, c, doc).value;
      HostIn(env, Ids(o.config.lists), o.bound, doc.hosts[j], o.config.hosts)
  {
    hide Tidy, Run, Lawful, DistinctKeys, DistinctEntries, SettleHost, HostAsWritten, DomainKey, LocalHost, ProtectionRemoved;
    var o := Imported(env, c, doc).value;
    var lists := Ids(o.config.lists);
    var kind, hosts := HostKind(env, lists), LocalHosts(o.bound, doc.hosts);
    ListsKeep(env, c, doc.lists);
    HostsTidyLater(env, env, Ids(c.lists), lists, c.hosts);
    HostsAreLawful(env, lists);
    DistinctOnceBound(env, lists, o.bound, doc);
    RunStores(kind, HostSoundIn(lists), HostKept, c.hosts, hosts, j);
    var p := Run(kind, c.hosts, hosts).value;
    var at :| 0 <= at < |p.table.rows| && p.table.rows[at].id == p.ids[j]
      && kind.rowKey(p.table.rows[at].body) == kind.key(hosts[j])
      && kind.settle(Before(kind, c.hosts, kind.key(hosts[j])), hosts[j]) == Some(p.table.rows[at].body);
    HostMeaning(env, lists, o.bound, doc.hosts[j], p.table.rows[at].body);
  }

  lemma StreamsStored(env: Env, c: Config, doc: Doc, j: nat)
    requires Sound(env, c) && DistinctEntries(doc) && Imported(env, c, doc).Some? && j < |doc.streams|
    ensures var o := Imported(env, c, doc).value;
      StreamIn(env, Ids(o.config.lists), o.bound, doc.streams[j], o.config.streams)
  {
    hide Tidy, Run, Lawful, DistinctKeys, DistinctEntries, SettleStream, StreamAsWritten, LocalStream;
    var o := Imported(env, c, doc).value;
    var lists := Ids(o.config.lists);
    var kind, streams := StreamKind(env, lists), LocalStreams(o.bound, doc.streams);
    ListsKeep(env, c, doc.lists);
    StreamsTidyLater(env, env, Ids(c.lists), lists, c.streams);
    StreamsAreLawful(env, lists);
    DistinctOnceBound(env, lists, o.bound, doc);
    RunStores(kind, StreamSoundIn(lists), StreamKept, c.streams, streams, j);
    var p := Run(kind, c.streams, streams).value;
    var at :| 0 <= at < |p.table.rows| && p.table.rows[at].id == p.ids[j]
      && kind.rowKey(p.table.rows[at].body) == kind.key(streams[j])
      && kind.settle(Before(kind, c.streams, kind.key(streams[j])), streams[j]) == Some(p.table.rows[at].body);
    StreamMeaning(env, lists, o.bound, doc.streams[j], p.table.rows[at].body);
  }

  lemma PassCounts<E(!new), R(!new), K>(kind: Kind<E, R, K>, stored: R -> bool, kept: (R, R) -> bool, t: Table<R>, entries: seq<E>)
    requires Lawful(kind, stored, kept) && Tidy(kind, t, stored) && Run(kind, t, entries).Some?
    ensures var p := Run(kind, t, entries).value;
      |p.table.rows| == |t.rows| + p.created && p.created + p.updated == |entries|
  {
    hide Run, Lawful, Tidy, Kept, Indexed, AsRead;
    RunInv(kind, stored, kept, t, entries);
  }

  lemma ImportCounts(env: Env, c: Config, doc: Doc)
    requires Sound(env, c) && Imported(env, c, doc).Some?
    ensures CountsAreRight(c, doc, Imported(env, c, doc).value)
  {
    hide Tidy, Run, Lawful;
    var o := Imported(env, c, doc).value;
    var lists := Ids(o.config.lists);
    ListsKeep(env, c, doc.lists);
    ListsAreLawful(env);
    PassCounts(ListKind(env), ListStored, ListKept, c.lists, doc.lists);
    HostsTidyLater(env, env, Ids(c.lists), lists, c.hosts);
    HostsAreLawful(env, lists);
    PassCounts(HostKind(env, lists), HostSoundIn(lists), HostKept, c.hosts, LocalHosts(o.bound, doc.hosts));
    StreamsTidyLater(env, env, Ids(c.lists), lists, c.streams);
    StreamsAreLawful(env, lists);
    PassCounts(StreamKind(env, lists), StreamSoundIn(lists), StreamKept, c.streams, LocalStreams(o.bound, doc.streams));
  }

  /** A successful import of entries with distinct keys stores every one of them as
      written, references bound, and counts what it did. */
  lemma ImportStores(env: Env, c: Config, doc: Doc)
    requires Sound(env, c) && DistinctEntries(doc) && Imported(env, c, doc).Some?
    ensures AllAsWritten(env, c, doc, Imported(env, c, doc).value)
    ensures CountsAreRight(c, doc, Imported(env, c, doc).value)
  {
    hide Imported, Sound, DistinctEntries, ListIn, HostIn, StreamIn, CountsAreRight, Trim;
    ImportCounts(env, c, doc);
    forall j | 0 <= j < |doc.lists|
      ensures ListIn(env, doc.lists[j], UsersBefore(env, c, Trim(doc.lists[j].name)), Imported(env, c, doc).value.config.lists)
    {
      ListsStored(env, c, doc, j);
    }
    var o := Imported(env, c, doc).value;
    forall j | 0 <= j < |doc.hosts| ensures HostIn(env, Ids(o.config.lists), o.bound, doc.hosts[j], o.config.hosts) {
      HostsStored(env, c, doc, j);
    }
    forall j | 0 <= j < |doc.streams| ensures StreamIn(env, Ids(o.config.lists), o.bound, doc.streams[j], o.config.streams) {
      StreamsStored(env, c, doc, j);
    }
  }

  // ---- why an import is refused ----

  /** A list entry can be stored over the users there were. */
  lemma ListTaken(env: Env, c: Config, rows: seq<Row<AccessList>>, e: DocList)
    ensures Taken(ListKind(env), c.lists, rows, e) <==> exists a :: ListAsWritten(env, e, UsersBefore(env, c, Trim(e.name)), a)
  {
    hide Trim, SettleList;
    var kind := ListKind(env);
    var prev := Before(kind, c.lists, kind.key(e));
    forall a ensures SettleList(env, prev, e) == Some(a) <==> ListAsWritten(env, e, UsersBefore(env, c, Trim(e.name)), a) {
      ListMeaning(env, prev, e, a);
    }
    var st := kind.settle(prev, e);
    if exists a :: ListAsWritten(env, e, UsersBefore(env, c, Trim(e.name)), a) {
      var a :| ListAsWritten(env, e, UsersBefore(env, c, Trim(e.name)), a);
      assert SettleList(env, prev, e) == Some(a);
    }
    if st.Some? {
      assert SettleList(env, prev, e) == Some(st.value);
      assert ListAsWritten(env, e, UsersBefore(env, c, Trim(e.name)), st.value);
      assert prev.Some? ==> !kind.refuses(prev.value, e);
      assert forall i :: 0 <= i < |rows| && kind.rowKey(rows[i].body) != kind.key(e) ==> !kind.clash(rows[i].body, st.value);
    }
  }

  /** Two hosts have a domain in common. */
  ghost predicate ShareAName(a: Host, b: Host) {
    exists x, y :: x in a.domains && y in b.domains && Norm(x) == Norm(y)
  }

  lemma SharingMeans(a: Host, b: Host)
    ensures ShareDomain(a, b) <==> ShareAName(a, b)
  {
    hide Norm;
    if ShareDomain(a, b) {
      var i, j :| 0 <= i < |a.domains| && 0 <= j < |b.domains| && Norm(a.domains[i]) == Norm(b.domains[j]);
      assert a.domains[i] in a.domains && b.domains[j] in b.domains;
    }
    if ShareAName(a, b) {
      var x, y :| x in a.domains && y in b.domains && Norm(x) == Norm(y);
      var i :| 0 <= i < |a.domains| && a.domains[i] == x;
      var j :| 0 <= j < |b.domains| && b.domains[j] == y;
    }
  }

  /** No host with other domains has a name of s. */
  ghost predicate NameFree(rows: seq<Row<Host>>, key: string, s: Host) {
    forall i :: 0 <= i < |rows| && DomainKey(rows[i].body.domains) != key ==> !ShareAName(rows[i].body, s)
  }

  /** A host entry takes no protection from the host it updates, can be stored, and shares
      no name with any other host. */
  lemma HostTaken(env: Env, lists: set<int>, bound: map<int, int>, t: Table<Host>, rows: seq<Row<Host>>, e: Host)
    ensures Taken(HostKind(env, lists), t, rows, LocalHost(bound, e)) <==>
      var prev := Before(HostKind(env, lists), t, DomainKey(e.domains));
      && (prev.Some? ==> Protected(prev.value, LocalHost(bound, e)))
      && exists s :: HostAsWritten(env, lists, r => Local(bound, r), e, s) && NameFree(rows, DomainKey(e.domains), s)
  {
    hide SettleHost, HostAsWritten, DomainKey, ShareDomain, ShareAName, Protected, ProtectionRemoved;
    var kind, local := HostKind(env, lists), LocalHost(bound, e);
    assert kind.key(local) == DomainKey(e.domains);
    var prev := Before(kind, t, DomainKey(e.domains));
    if prev.Some? {
      ProtectionRemovedMeaning(prev.value, local);
      assert kind.refuses(prev.value, local) <==> !Protected(prev.value, local);
    }
    forall s ensures kind.settle(prev, local) == Some(s) <==> HostAsWritten(env, lists, r => Local(bound, r), e, s) {
      HostMeaning(env, lists, bound, e, s);
    }
    var st := kind.settle(prev, local);
    if exists s :: HostAsWritten(env, lists, r => Local(bound, r), e, s) && NameFree(rows, DomainKey(e.domains), s) {
      var s :| HostAsWritten(env, lists, r => Local(bound, r), e, s) && NameFree(rows, DomainKey(e.domains), s);
      assert st == Some(s);
    }
    if st.Some? {
      assert HostAsWritten(env, lists, r => Local(bound, r), e, st.value);
      forall i | 0 <= i < |rows| ensures kind.clash(rows[i].body, st.value) <==> ShareAName(rows[i].body, st.value) {
        SharingMeans(rows[i].body, st.value);
      }
      assert forall i :: 0 <= i < |rows| ==> kind.rowKey(rows[i].body) == DomainKey(rows[i].body.domains);
      assert NameFree(rows, DomainKey(e.domains), st.value) <==>
             forall i :: 0 <= i < |rows| && kind.rowKey(rows[i].body) != kind.key(local) ==> !kind.clash(rows[i].body, st.value);
    }
  }

  ghost predicate Speaks(s: Stream, protocol: string) { s.protocol == protocol || s.protocol == "both" }

  ghost predicate Listens(s: Stream, p: int) { s.port <= p <= if s.portEnd > 0 then s.portEnd else s.port }

  /** Two streams listen on one port with one protocol. */
  ghost predicate ShareAPort(a: Stream, b: Stream) {
    && (exists p :: Listens(a, p) && Listens(b, p))
    && ((Speaks(a, "tcp") && Speaks(b, "tcp")) || (Speaks(a, "udp") && Speaks(b, "udp")))
  }

  ghost predicate WellFormed(s: Stream) {
    (s.protocol == "tcp" || s.protocol == "udp" || s.protocol == "both") && (s.portEnd > 0 ==> s.port <= s.portEnd)
  }

  lemma SharingPortsMeans(a: Stream, b: Stream)
    requires WellFormed(a) && WellFormed(b)
    ensures PortsOverlap(a, b) <==> ShareAPort(a, b)
  {
    if PortsOverlap(a, b) {
      var p := if a.port >= b.port then a.port else b.port;
      assert Listens(a, p) && Listens(b, p);
    }
  }

  /** No stream of another port or protocol listens where s would. */
  ghost predicate PortFree(rows: seq<Row<Stream>>, key: (int, string), s: Stream) {
    forall i :: 0 <= i < |rows| && (rows[i].body.port, rows[i].body.protocol) != key ==> !ShareAPort(rows[i].body, s)
  }

  /** A stream entry leaves a restricted stream restricted, can be stored, and shares no
      port with any other stream. */
  lemma StreamTaken(env: Env, lists: set<int>, bound: map<int, int>, t: Table<Stream>, rows: seq<Row<Stream>>, e: Stream)
    requires forall i :: 0 <= i < |rows| ==> WellFormed(rows[i].body)
    ensures Taken(StreamKind(env, lists), t, rows, LocalStream(bound, e)) <==>
      var key := (e.port, if e.protocol == "" then "tcp" else e.protocol);
      var prev := Before(StreamKind(env, lists), t, key);
      && (prev.Some? && (prev.value.list.Some? || prev.value.cidrs != []) ==> e.list.Some? || e.cidrs != [])
      && exists s :: StreamAsWritten(env, lists, r => Local(bound, r), e, s) && PortFree(rows, key, s)
  {
    hide SettleStream, StreamAsWritten, ShareAPort, PortsOverlap;
    var kind, local := StreamKind(env, lists), LocalStream(bound, e);
    var key := (e.port, if e.protocol == "" then "tcp" else e.protocol);
    assert kind.key(local) == key;
    var prev := Before(kind, t, key);
    if prev.Some? {
      assert kind.refuses(prev.value, local) <==> !(prev.value.list.Some? || prev.value.cidrs != [] ==> e.list.Some? || e.cidrs != []);
    }
    forall s ensures kind.settle(prev, local) == Some(s) <==> StreamAsWritten(env, lists, r => Local(bound, r), e, s) {
      StreamMeaning(env, lists, bound, e, s);
    }
    var st := kind.settle(prev, local);
    if exists s :: StreamAsWritten(env, lists, r => Local(bound, r), e, s) && PortFree(rows, key, s) {
      var s :| StreamAsWritten(env, lists, r => Local(bound, r), e, s) && PortFree(rows, key, s);
      assert st == Some(s);
    }
    if st.Some? {
      assert StreamAsWritten(env, lists, r => Local(bound, r), e, st.value);
      StoredIsWellFormed(env, lists, r => Local(bound, r), e, st.value);
      forall i | 0 <= i < |rows| ensures kind.clash(rows[i].body, st.value) <==> ShareAPort(rows[i].body, st.value) {
        SharingPortsMeans(rows[i].body, st.value);
      }
      assert forall i :: 0 <= i < |rows| ==> kind.rowKey(rows[i].body) == (rows[i].body.port, rows[i].body.protocol);
    }
  }

  lemma StoredIsWellFormed(env: Env, lists: set<int>, ref: Ref, e: Stream, s: Stream)
    requires StreamAsWritten(env, lists, ref, e, s)
    ensures WellFormed(s)
  {
  }

  /** Some host or stream of the document is not taken, once its lists are. */
  ghost predicate LaterRefused(env: Env, c: Config, doc: Doc, lists: set<int>, bound: map<int, int>) {
    || SomeNotTaken(HostKind(env, lists), c.hosts, LocalHosts(bound, doc.hosts))
    || SomeNotTaken(StreamKind(env, lists), c.streams, LocalStreams(bound, doc.streams))
  }

  /** An import of entries with distinct keys is refused exactly if one of its entries,
      those before it taken, is not taken: see ListTaken, HostTaken and StreamTaken. */
  lemma ImportRefused(env: Env, c: Config, doc: Doc)
    requires Sound(env, c) && DistinctEntries(doc)
    ensures var a := Run(ListKind(env), c.lists, doc.lists);
      && (a.None? <==> SomeNotTaken(ListKind(env), c.lists, doc.lists))
      && (a.Some? ==> |a.value.ids| == |doc.lists|)
      && (Imported(env, c, doc).None? <==>
            a.None? || LaterRefused(env, c, doc, Ids(a.value.table), Bound(doc.lists, a.value.ids)))
  {
    hide Tidy, Run, Lawful, DistinctKeys, DistinctEntries, SomeNotTaken;
    var lk := ListKind(env);
    var a := Run(lk, c.lists, doc.lists);
    ListsAreLawful(env);
    DistinctOnceBound(env, {}, map[], doc);
    RunRefused(lk, ListStored, ListKept, c.lists, doc.lists);
    if a.Some? {
      ListsKeep(env, c, doc.lists);
      var lists, bound := Ids(a.value.table), Bound(doc.lists, a.value.ids);
      DistinctOnceBound(env, lists, bound, doc);
      HostsTidyLater(env, env, Ids(c.lists), lists, c.hosts);
      HostsAreLawful(env, lists);
      RunRefused(HostKind(env, lists), HostSoundIn(lists), HostKept, c.hosts, LocalHosts(bound, doc.hosts));
      StreamsTidyLater(env, env, Ids(c.lists), lists, c.streams);
      StreamsAreLawful(env, lists);
      RunRefused(StreamKind(env, lists), StreamSoundIn(lists), StreamKept, c.streams, LocalStreams(bound, doc.streams));
    }
  }
}
