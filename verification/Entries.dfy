/** The three sorts of entry an import document holds, how each is validated before it
    is stored, and what an import may not take away from one that exists. */
module Entries {
  import opened Basics
  import opened Names
  import opened Upserts

  /** The checks whose outcome this model leaves open: each is a function of what it
      is given, as it is in the source for a given database. `rule`, `hostRest`,
      `authRest`, `sso` and `streamRest` normalise, or refuse with None. */
  datatype Env = Env(
    rule: string -> Option<string>,
    hashable: string -> bool,
    hostRest: (string, string) -> Option<string>,
    authUrl: string -> bool,
    caBundle: string -> bool,
    sso: string -> Option<string>,
    authRest: string -> Option<string>,
    cidr: string -> Option<string>,
    streamRest: (Stream, string) -> Option<string>,
    certs: set<int>,
    providers: set<int>,
    reserved: set<int>)

  // ---- access lists ----

  datatype DocUser = DocUser(name: string, password: string)

  datatype DocList = DocList(id: int, name: string, satisfy: string, passAuth: bool, rules: seq<string>, users: seq<DocUser>)

  /** A stored user: the hash is known by the password it accepts. */
  datatype ListUser = ListUser(name: string, accepts: string)

  datatype AccessList = AccessList(name: string, satisfy: string, passAuth: bool, rules: seq<string>, users: seq<ListUser>)

  function Rules(env: Env, rules: seq<string>): Option<seq<string>> {
    if |rules| == 0 then Some([])
    else
      var front, last := Rules(env, rules[..|rules| - 1]), env.rule(rules[|rules| - 1]);
      if front.None? || last.None? then None else Some(front.value + [last.value])
  }

  /** The last user of that name, as a map filled in order would hold. */
  function Accepts(users: seq<ListUser>, name: string): Option<string> {
    if |users| == 0 then None
    else if users[|users| - 1].name == name then Some(users[|users| - 1].accepts)
    else Accepts(users[..|users| - 1], name)
  }

  /** A password given is hashed; one left out keeps the user's previous hash. */
  function UserStored(env: Env, prev: seq<ListUser>, u: DocUser): Option<ListUser> {
    var name := Trim(u.name);
    if name == "" then None
    else if u.password != "" then
      if env.hashable(u.password) then Some(ListUser(name, u.password)) else None
    else
      var before := Accepts(prev, name);
      if before.None? then None else Some(ListUser(name, before.value))
  }

  function Users(env: Env, prev: seq<ListUser>, users: seq<DocUser>): Option<seq<ListUser>> {
    if |users| == 0 then Some([])
    else
      var front, last := Users(env, prev, users[..|users| - 1]), UserStored(env, prev, users[|users| - 1]);
      if front.None? || last.None? || Accepts(front.value, last.value.name).Some? then None
      else Some(front.value + [last.value])
  }

  function SettleList(env: Env, prev: Option<AccessList>, e: DocList): Option<AccessList> {
    var name, satisfy := Trim(e.name), if e.satisfy == "" then "any" else e.satisfy;
    if name == "" || (satisfy != "any" && satisfy != "all") || (|e.rules| == 0 && |e.users| == 0) then None
    else
      var rules := Rules(env, e.rules);
      var users := Users(env, if prev.Some? then prev.value.users else [], e.users);
      if rules.None? || users.None? then None
      else Some(AccessList(name, satisfy, e.passAuth, rules.value, users.value))
  }

  predicate ListRefuses(cur: AccessList, e: DocList) {
    (|cur.rules| > 0 || |cur.users| > 0) && |e.rules| == 0 && |e.users| == 0
  }

  function ListKind(env: Env): Kind<DocList, AccessList, string> {
    Kind((e: DocList) => Trim(e.name), (a: AccessList) => a.name, (k: string) => true,
         (a, e) => ListRefuses(a, e), (p, e) => SettleList(env, p, e),
         (a: AccessList, b: AccessList) => a.name == b.name)
  }

  // ---- hosts ----

  datatype Sso = Sso(provider: int, rest: string)

  datatype ClientCert = ClientCert(mode: string, ca: string)

  datatype AuthRule = AuthRule(path: string, exact: bool, mode: string, list: Option<int>, sso: Option<Sso>, rest: string)

  datatype Host = Host(
    kind: string, domains: seq<string>, certMode: string, certId: Option<int>, forceSsl: bool, list: Option<int>,
    sso: Option<Sso>, forwardAuth: Option<string>, clientCert: Option<ClientCert>, vpnOnly: bool, minTls: string,
    authRules: seq<AuthRule>, rest: string)

  function ClientCertMode(cc: Option<ClientCert>): string {
    if cc.None? then "none" else if cc.value.mode == "" then "require" else cc.value.mode
  }

  predicate HasForwardAuth(h: Host) { h.forwardAuth.Some? && h.forwardAuth.value != "" }

  predicate GateKept(rule: AuthRule, rules: seq<AuthRule>) {
    exists n :: n in rules && n.path == rule.path && n.exact == rule.exact && n.mode != "public"
  }

  /** The first gate that has no counterpart. */
  function GateRemoved(rules: seq<AuthRule>, next: seq<AuthRule>): string {
    if |rules| == 0 then ""
    else if rules[0].mode == "public" || GateKept(rules[0], next) then GateRemoved(rules[1..], next)
    else rules[0].mode + " gate on " + rules[0].path
  }

  /** The first of `cur`'s protections that `next` lacks, "" if it lacks none. */
  function ProtectionRemoved(cur: Host, next: Host): string {
    if cur.list.Some? && next.list.None? then "access list"
    else if cur.sso.Some? && next.sso.None? then "SSO"
    else if HasForwardAuth(cur) && !HasForwardAuth(next) then "forward authentication"
    else if cur.clientCert.Some? && next.clientCert.None? then "client certificate requirement"
    else if ClientCertMode(cur.clientCert) == "require" && ClientCertMode(next.clientCert) != "require" then
      "client certificate requirement (require would become " + ClientCertMode(next.clientCert) + ")"
    else if cur.vpnOnly && !next.vpnOnly then "VPN-only restriction"
    else if cur.certMode != "none" && next.certMode == "none" then "TLS (certMode would become none)"
    else if cur.forceSsl && !next.forceSsl then "forced HTTPS redirect (forceSsl)"
    else if cur.minTls == "1.3" && next.minTls != "1.3" then "TLS 1.3 minimum (minTlsVersion)"
    else GateRemoved(cur.authRules, next.authRules)
  }

  function SettleSso(env: Env, s: Option<Sso>): Option<Option<Sso>> {
    if s.None? then Some(None)
    else
      var rest := env.sso(s.value.rest);
      if rest.None? || s.value.provider <= 0 || s.value.provider !in env.providers then None
      else Some(Some(Sso(s.value.provider, rest.value)))
  }

  /** `url` and `sso` are the host's own, which a rule may fall back on. */
  function SettleRule(env: Env, lists: set<int>, url: Option<string>, sso: Option<Sso>, r: AuthRule): Option<AuthRule> {
    var path, rest := Trim(r.path), env.authRest(r.rest);
    if rest.None? || !("/" <= path) then None
    else if r.mode == "public" then Some(AuthRule(path, r.exact, r.mode, None, None, rest.value))
    else if r.mode == "forwardAuth" then
      if url.None? || Trim(url.value) == "" then None
      else Some(AuthRule(path, r.exact, r.mode, None, None, rest.value))
    else if r.mode == "oidc" then
      var own := SettleSso(env, r.sso);
      if own.None? || (r.sso.None? && sso.None?) then None
      else Some(AuthRule(path, r.exact, r.mode, None, own.value, rest.value))
    else if r.mode == "accessList" then
      if r.list.None? || r.list.value !in lists then None
      else Some(AuthRule(path, r.exact, r.mode, r.list, None, rest.value))
    else None
  }

  function SettleRules(env: Env, lists: set<int>, url: Option<string>, sso: Option<Sso>, rules: seq<AuthRule>): Option<seq<AuthRule>> {
    if |rules| == 0 then Some([])
    else
      var first, others := SettleRule(env, lists, url, sso, rules[0]), SettleRules(env, lists, url, sso, rules[1..]);
      if first.None? || others.None? then None else Some([first.value] + others.value)
  }

  predicate DomainsOk(domains: seq<string>) {
    && |domains| > 0
    && (forall i :: 0 <= i < |domains| ==> IsDomain(Norm(domains[i])))
    && (forall i, j :: 0 <= i < j < |domains| ==> Norm(domains[i]) != Norm(domains[j]))
  }

  const HOST_KINDS := {"proxy", "redirect", "dead", "static", "vpn-portal"}

  /** What depends on a host's type, its certificate and its client certificates. */
  predicate HostOk(env: Env, lists: set<int>, kind: string, certMode: string, h: Host) {
    && kind in HOST_KINDS
    && DomainsOk(h.domains)
    && !(kind == "vpn-portal" && h.vpnOnly)
    && certMode in {"auto", "none", "custom"}
    && (certMode == "custom" ==> h.certId.Some? && h.certId.value in env.certs)
    && !(certMode == "none" && (h.forceSsl || h.clientCert.Some?))
    && h.minTls in {"", "1.2", "1.3"}
    && (h.clientCert.Some? ==> ClientCertMode(h.clientCert) in {"require", "request"} && env.caBundle(h.clientCert.value.ca))
    && (h.list.Some? ==> h.list.value in lists)
  }

  /** The URL is trimmed only when that leaves something. */
  function SettleUrl(url: Option<string>): Option<string> {
    if url.Some? && Trim(url.value) != "" then Some(Trim(url.value)) else url
  }

  function SettleHost(env: Env, lists: set<int>, h: Host): Option<Host> {
    var kind := if h.kind == "" then "proxy" else h.kind;
    var certMode := if h.certMode == "" then "auto" else h.certMode;
    var url := SettleUrl(h.forwardAuth);
    var sso, rest := SettleSso(env, h.sso), env.hostRest(kind, h.rest);
    if !HostOk(env, lists, kind, certMode, h) || sso.None? || rest.None? then None
    else if url.Some? && Trim(url.value) != "" && !env.authUrl(url.value) then None
    else
      var rules := SettleRules(env, lists, url, h.sso, h.authRules);
      if rules.None? then None
      else Some(Host(kind, NormAll(h.domains), certMode, if certMode == "custom" then h.certId else None, h.forceSsl,
                     h.list, sso.value, url,
                     if h.clientCert.None? then None else Some(ClientCert(ClientCertMode(h.clientCert), h.clientCert.value.ca)),
                     h.vpnOnly, h.minTls, rules.value, rest.value))
  }

  /** Some domain of each normalises to the same name. */
  predicate ShareDomain(a: Host, b: Host) {
    exists i, j :: 0 <= i < |a.domains| && 0 <= j < |b.domains| && Norm(a.domains[i]) == Norm(b.domains[j])
  }

  function HostKind(env: Env, lists: set<int>): Kind<Host, Host, string> {
    Kind((h: Host) => DomainKey(h.domains), (h: Host) => DomainKey(h.domains), (k: string) => k != "",
         (cur, h) => ProtectionRemoved(cur, h) != "", (p, h) => SettleHost(env, lists, h), (a, b) => ShareDomain(a, b))
  }

  // ---- streams ----

  datatype Stream = Stream(port: int, portEnd: int, protocol: string, list: Option<int>, cidrs: seq<string>, rest: string)

  function LastPort(s: Stream): int { if s.portEnd > 0 then s.portEnd else s.port }

  predicate ProtocolsOverlap(a: string, b: string) { a == "both" || b == "both" || a == b }

  predicate PortsOverlap(a: Stream, b: Stream) {
    ProtocolsOverlap(a.protocol, b.protocol) && b.port <= LastPort(a) && a.port <= LastPort(b)
  }

  predicate Restricted(s: Stream) { s.list.Some? || |s.cidrs| > 0 }

  function Cidrs(env: Env, cs: seq<string>): Option<seq<string>> {
    if |cs| == 0 then Some([])
    else
      var front, last := Cidrs(env, cs[..|cs| - 1]), env.cidr(cs[|cs| - 1]);
      if front.None? || last.None? then None else Some(front.value + [last.value])
  }

  function SettleStream(env: Env, lists: set<int>, s: Stream): Option<Stream> {
    var rest, cidrs := env.streamRest(s, s.rest), Cidrs(env, s.cidrs);
    if s.protocol !in {"tcp", "udp", "both"} || !(1 <= s.port <= 65535) then None
    else if s.portEnd != 0 && (s.portEnd < s.port || s.portEnd > 65535 || s.protocol != "tcp") then None
    else if exists p :: p in env.reserved && s.port <= p <= LastPort(s) then None
    else if rest.None? || cidrs.None? || (s.list.Some? && s.list.value !in lists) then None
    else Some(s.(cidrs := cidrs.value, rest := rest.value))
  }

  function StreamKind(env: Env, lists: set<int>): Kind<Stream, Stream, (int, string)> {
    Kind((s: Stream) => (s.port, s.protocol), (s: Stream) => (s.port, s.protocol), (k: (int, string)) => true,
         (cur, s) => Restricted(cur) && !Restricted(s), (p, s) => SettleStream(env, lists, s), (a, b) => PortsOverlap(a, b))
  }

  // ---- the laws of lists ----

  predicate ListStored(a: AccessList) { |a.rules| > 0 || |a.users| > 0 }

  lemma {:induction false} RulesCount(env: Env, rules: seq<string>)
    ensures Rules(env, rules).Some? ==> |Rules(env, rules).value| == |rules|
  {
    if |rules| > 0 { RulesCount(env, rules[..|rules| - 1]); }
  }

  lemma {:induction false} UsersCount(env: Env, prev: seq<ListUser>, users: seq<DocUser>)
    ensures Users(env, prev, users).Some? ==> |Users(env, prev, users).value| == |users|
  {
    if |users| > 0 { UsersCount(env, prev, users[..|users| - 1]); }
  }

  lemma SettledListStored(env: Env, p: Option<AccessList>, e: DocList)
    requires SettleList(env, p, e).Some?
    ensures ListStored(SettleList(env, p, e).value)
  {
    RulesCount(env, e.rules);
    UsersCount(env, if p.Some? then p.value.users else [], e.users);
  }

  /** A list that admits only some never comes to admit everyone. */
  predicate ListKept(a: AccessList, b: AccessList) { ListStored(a) ==> ListStored(b) }

  lemma ListsAreLawful(env: Env)
    ensures Lawful(ListKind(env), ListStored, ListKept)
  {
    var kind := ListKind(env);
    forall p, e | kind.settle(p, e).Some? ensures ListStored(kind.settle(p, e).value) {
      SettledListStored(env, p, e);
    }
  }

  /** What a stored user accepts is found again by name. */
  lemma {:induction false} UsersFound(env: Env, prev: seq<ListUser>, users: seq<DocUser>, i: nat)
    requires Users(env, prev, users).Some? && i < |users|
    ensures |Users(env, prev, users).value| == |users|
    ensures Users(env, prev, users).value[i].name == Trim(users[i].name)
    ensures Accepts(Users(env, prev, users).value, Trim(users[i].name)) == Some(Users(env, prev, users).value[i].accepts)
    decreases |users|
  {
    UsersCount(env, prev, users);
    var n := |users| - 1;
    var front := Users(env, prev, users[..n]).value;
    var last := UserStored(env, prev, users[n]).value;
    UsersCount(env, prev, users[..n]);
    assert Users(env, prev, users).value[..n] == front;
    if i < n {
      UsersFound(env, prev, users[..n], i);
      assert Accepts(front, last.name).None?;
    }
  }

  /** A password left out keeps its hash however often the entry is stored. */
  lemma {:induction false} UsersAgain(env: Env, prev: seq<ListUser>, all: seq<DocUser>, users: seq<DocUser>)
    requires Users(env, prev, all).Some? && |users| <= |all| && users == all[..|users|]
    ensures Users(env, Users(env, prev, all).value, users) == Users(env, prev, users)
    ensures Users(env, prev, users).Some?
    decreases |users|
  {
    FrontSettles(env, prev, all, |users|);
    if |users| > 0 {
      var n := |users| - 1;
      assert users[..n] == all[..n];
      UsersAgain(env, prev, all, users[..n]);
      UsersFound(env, prev, all, n);
      UserAt(env, prev, all, n);
    }
  }

  lemma {:induction false} FrontSettles(env: Env, prev: seq<ListUser>, users: seq<DocUser>, n: nat)
    requires Users(env, prev, users).Some? && n <= |users|
    ensures Users(env, prev, users[..n]).Some?
    decreases |users|
  {
    if n == |users| {
      assert users[..n] == users;
    } else {
      assert users[..|users| - 1][..n] == users[..n];
      FrontSettles(env, prev, users[..|users| - 1], n);
    }
  }

  lemma {:induction false} UserAt(env: Env, prev: seq<ListUser>, users: seq<DocUser>, i: nat)
    requires Users(env, prev, users).Some? && i < |users|
    ensures |Users(env, prev, users).value| == |users|
    ensures UserStored(env, prev, users[i]) == Some(Users(env, prev, users).value[i])
    decreases |users|
  {
    UsersCount(env, prev, users);
    var n := |users| - 1;
    UsersCount(env, prev, users[..n]);
    if i < n {
      UserAt(env, prev, users[..n], i);
      assert Users(env, prev, users).value[..n] == Users(env, prev, users[..n]).value;
    }
  }

  predicate AnyList(e: DocList) { true }

  lemma ListAgain(env: Env, p: Option<AccessList>, e: DocList)
    requires SettleList(env, p, e).Some?
    ensures SettleList(env, SettleList(env, p, e), e) == SettleList(env, p, e)
    ensures !ListRefuses(SettleList(env, p, e).value, e)
  {
    var prev := if p.Some? then p.value.users else [];
    assert e.users == e.users[..|e.users|];
    UsersAgain(env, prev, e.users, e.users);
  }

  lemma ListsRepeat(env: Env)
    ensures Repeatable(ListKind(env), AnyList)
  {
    var kind := ListKind(env);
    forall p, e | kind.settle(p, e).Some?
      ensures kind.settle(kind.settle(p, e), e) == kind.settle(p, e)
      ensures !kind.refuses(kind.settle(p, e).value, e)
    {
      ListAgain(env, p, e);
    }
  }

  // ---- the laws of hosts ----

  /** A gate of a stored host has its path trimmed. */
  predicate HostStored(h: Host) {
    forall i :: 0 <= i < |h.authRules| ==> Trim(h.authRules[i].path) == h.authRules[i].path
  }

  /** Every access list a stored host names exists. */
  predicate HostRefs(lists: set<int>, h: Host) {
    && (h.list.Some? ==> h.list.value in lists)
    && forall i :: 0 <= i < |h.authRules| && h.authRules[i].list.Some? ==> h.authRules[i].list.value in lists
  }

  predicate HostSound(lists: set<int>, h: Host) { HostStored(h) && HostRefs(lists, h) }

  function HostSoundIn(lists: set<int>): Host -> bool { h => HostSound(lists, h) }

  predicate HostKept(a: Host, b: Host) { ProtectionRemoved(a, b) == "" }

  /** Every gated path is gated under the same spelling, exact or not as before. */
  ghost predicate GatesKept(rules: seq<AuthRule>, next: seq<AuthRule>) {
    forall i :: 0 <= i < |rules| && rules[i].mode != "public" ==>
      exists n :: n in next && n.path == rules[i].path && n.exact == rules[i].exact && n.mode != "public"
  }

  lemma {:induction false} GateRemovedMeaning(rules: seq<AuthRule>, next: seq<AuthRule>)
    ensures GateRemoved(rules, next) == "" <==> GatesKept(rules, next)
  {
    if |rules| > 0 {
      GateRemovedMeaning(rules[1..], next);
      if rules[0].mode != "public" && !GateKept(rules[0], next) {
        assert |rules[0].mode + " gate on " + rules[0].path| > 0;
      }
      forall i | 0 < i < |rules| ensures rules[i] == rules[1..][i - 1] {}
    }
  }

  ghost predicate RequiresCert(h: Host) {
    h.clientCert.Some? && (h.clientCert.value.mode == "" || h.clientCert.value.mode == "require")
  }

  /** What a host that takes nothing away still has: every way of limiting who may
      reach it and how, and every gated path. */
  ghost predicate Protected(cur: Host, next: Host) {
    && (cur.list.Some? ==> next.list.Some?)
    && (cur.sso.Some? ==> next.sso.Some?)
    && (cur.forwardAuth.Some? && cur.forwardAuth.value != "" ==> next.forwardAuth.Some? && next.forwardAuth.value != "")
    && (cur.clientCert.Some? ==> next.clientCert.Some?)
    && (RequiresCert(cur) ==> RequiresCert(next))
    && (cur.vpnOnly ==> next.vpnOnly)
    && (cur.certMode != "none" ==> next.certMode != "none")
    && (cur.forceSsl ==> next.forceSsl)
    && (cur.minTls == "1.3" ==> next.minTls == "1.3")
    && GatesKept(cur.authRules, next.authRules)
  }

  lemma ProtectionRemovedMeaning(cur: Host, next: Host)
    ensures ProtectionRemoved(cur, next) == "" <==> Protected(cur, next)
  {
    GateRemovedMeaning(cur.authRules, next.authRules);
    var text := "client certificate requirement (require would become " + ClientCertMode(next.clientCert) + ")";
    assert |text| > 0;
  }

  lemma {:induction false} RulesShape(env: Env, lists: set<int>, url: Option<string>, sso: Option<Sso>, rules: seq<AuthRule>)
    requires SettleRules(env, lists, url, sso, rules).Some?
    ensures
      var r := SettleRules(env, lists, url, sso, rules).value;
      |r| == |rules| && forall i :: 0 <= i < |r| ==>
        r[i].path == Trim(rules[i].path) && r[i].exact == rules[i].exact && r[i].mode == rules[i].mode
  {
    if |rules| > 0 { RulesShape(env, lists, url, sso, rules[1..]); }
  }

  /** Everything a host is protected by survives its being stored, gates under their
      trimmed paths. */
  lemma SettledHost(env: Env, lists: set<int>, h: Host)
    requires SettleHost(env, lists, h).Some?
    ensures
      var r := SettleHost(env, lists, h).value;
      && r.list == h.list && r.sso.Some? == h.sso.Some? && HasForwardAuth(r) == HasForwardAuth(h)
      && r.clientCert.Some? == h.clientCert.Some? && ClientCertMode(r.clientCert) == ClientCertMode(h.clientCert)
      && r.vpnOnly == h.vpnOnly && (r.certMode == "none") == (h.certMode == "none")
      && r.forceSsl == h.forceSsl && r.minTls == h.minTls
      && |r.authRules| == |h.authRules|
      && forall i :: 0 <= i < |r.authRules| ==>
           r.authRules[i].path == Trim(h.authRules[i].path) && r.authRules[i].exact == h.authRules[i].exact
             && r.authRules[i].mode == h.authRules[i].mode
  {
    RulesShape(env, lists, SettleUrl(h.forwardAuth), h.sso, h.authRules);
  }

  lemma SettledHostStored(env: Env, lists: set<int>, h: Host)
    requires SettleHost(env, lists, h).Some?
    ensures HostStored(SettleHost(env, lists, h).value)
    ensures DomainKey(SettleHost(env, lists, h).value.domains) == DomainKey(h.domains) != ""
  {
    SettledHost(env, lists, h);
    forall i | 0 <= i < |h.authRules| ensures Trim(Trim(h.authRules[i].path)) == Trim(h.authRules[i].path) {
      TrimTwice(h.authRules[i].path);
    }
    KeyOfStored(h.domains);
    KeyOfDomains(h.domains);
  }

  lemma {:induction false} RuleRefs(env: Env, lists: set<int>, url: Option<string>, sso: Option<Sso>, rules: seq<AuthRule>)
    requires SettleRules(env, lists, url, sso, rules).Some?
    ensures forall r :: r in SettleRules(env, lists, url, sso, rules).value && r.list.Some? ==> r.list.value in lists
  {
    if |rules| > 0 { RuleRefs(env, lists, url, sso, rules[1..]); }
  }

  lemma SettledHostRefs(env: Env, lists: set<int>, h: Host)
    requires SettleHost(env, lists, h).Some?
    ensures HostRefs(lists, SettleHost(env, lists, h).value)
  {
    RuleRefs(env, lists, SettleUrl(h.forwardAuth), h.sso, h.authRules);
    var r := SettleHost(env, lists, h).value;
    forall i | 0 <= i < |r.authRules| && r.authRules[i].list.Some? ensures r.authRules[i].list.value in lists {
      assert r.authRules[i] in r.authRules;
    }
  }

  lemma HostKeptWhenStored(env: Env, lists: set<int>, cur: Host, h: Host)
    requires HostStored(cur) && HostKept(cur, h) && SettleHost(env, lists, h).Some?
    ensures HostKept(cur, SettleHost(env, lists, h).value)
  {
    hide SettleHost, ProtectionRemoved;
    var r := SettleHost(env, lists, h).value;
    SettledHost(env, lists, h);
    ProtectionRemovedMeaning(cur, h);
    ProtectionRemovedMeaning(cur, r);
    forall i | 0 <= i < |cur.authRules| && cur.authRules[i].mode != "public"
      ensures GateKept(cur.authRules[i], r.authRules)
    {
      assert GateKept(cur.authRules[i], h.authRules);
      var n :| n in h.authRules && n.path == cur.authRules[i].path && n.exact == cur.authRules[i].exact && n.mode != "public";
      var j :| 0 <= j < |h.authRules| && h.authRules[j] == n;
      assert r.authRules[j] in r.authRules;
    }
  }

  lemma HostKeptSelf(h: Host)
    ensures HostKept(h, h)
  {
    ProtectionRemovedMeaning(h, h);
    forall i | 0 <= i < |h.authRules| && h.authRules[i].mode != "public"
      ensures GateKept(h.authRules[i], h.authRules)
    {
      assert h.authRules[i] in h.authRules;
    }
  }

  lemma HostKeptChain(a: Host, b: Host, c: Host)
    requires HostKept(a, b) && HostKept(b, c)
    ensures HostKept(a, c)
  {
    hide ProtectionRemoved;
    ProtectionRemovedMeaning(a, b);
    ProtectionRemovedMeaning(b, c);
    ProtectionRemovedMeaning(a, c);
    forall i | 0 <= i < |a.authRules| && a.authRules[i].mode != "public"
      ensures GateKept(a.authRules[i], c.authRules)
    {
      assert GateKept(a.authRules[i], b.authRules);
      var n :| n in b.authRules && n.path == a.authRules[i].path && n.exact == a.authRules[i].exact && n.mode != "public";
      var j :| 0 <= j < |b.authRules| && b.authRules[j] == n;
      assert GateKept(n, c.authRules);
    }
  }

  lemma HostsAreLawful(env: Env, lists: set<int>)
    ensures Lawful(HostKind(env, lists), HostSoundIn(lists), HostKept)
  {
    hide SettleHost, DomainKey, HostStored, HostRefs, ProtectionRemoved;
    var kind := HostKind(env, lists);
    forall p, e | kind.settle(p, e).Some?
      ensures kind.rowKey(kind.settle(p, e).value) == kind.key(e) && kind.usable(kind.key(e))
      ensures HostSound(lists, kind.settle(p, e).value)
    {
      SettledHostStored(env, lists, e);
      SettledHostRefs(env, lists, e);
    }
    forall a ensures HostKept(a, a) { HostKeptSelf(a); }
    forall a, p, e | HostStored(a) && !kind.refuses(a, e) && kind.settle(p, e).Some?
      ensures HostKept(a, kind.settle(p, e).value)
    {
      HostKeptWhenStored(env, lists, a, e);
    }
  }

  /** A host entry can be imported over itself when every gate it lists, under its
      trimmed path, is matched by a gate of the entry as written. */
  predicate GatesTrimmed(h: Host) {
    forall i :: 0 <= i < |h.authRules| && h.authRules[i].mode != "public" ==>
      GateKept(h.authRules[i].(path := Trim(h.authRules[i].path)), h.authRules)
  }

  lemma HostRefusesItself(env: Env, lists: set<int>, h: Host)
    requires SettleHost(env, lists, h).Some?
    ensures ProtectionRemoved(SettleHost(env, lists, h).value, h) != "" <==> !GatesTrimmed(h)
  {
    hide SettleHost, ProtectionRemoved;
    var r := SettleHost(env, lists, h).value;
    SettledHost(env, lists, h);
    ProtectionRemovedMeaning(r, h);
    assert forall i :: 0 <= i < |h.authRules| ==>
      GateKept(r.authRules[i], h.authRules) == GateKept(h.authRules[i].(path := Trim(h.authRules[i].path)), h.authRules);
  }

  lemma HostsRepeat(env: Env, lists: set<int>)
    ensures Repeatable(HostKind(env, lists), GatesTrimmed)
  {
    hide SettleHost, DomainKey, ProtectionRemoved, GatesTrimmed;
    var kind := HostKind(env, lists);
    forall p, e | kind.settle(p, e).Some?
      ensures kind.refuses(kind.settle(p, e).value, e) == !GatesTrimmed(e)
    {
      HostRefusesItself(env, lists, e);
    }
  }

  // ---- the laws of streams ----

  predicate AnyStream(s: Stream) { true }

  predicate StreamSound(lists: set<int>, s: Stream) { s.list.Some? ==> s.list.value in lists }

  function StreamSoundIn(lists: set<int>): Stream -> bool { s => StreamSound(lists, s) }

  /** A stream limited to some sources stays limited. */
  predicate StreamKept(a: Stream, b: Stream) { Restricted(a) ==> Restricted(b) }

  lemma {:induction false} CidrsCount(env: Env, cs: seq<string>)
    ensures Cidrs(env, cs).Some? ==> |Cidrs(env, cs).value| == |cs|
  {
    if |cs| > 0 { CidrsCount(env, cs[..|cs| - 1]); }
  }

  lemma StreamsAreLawful(env: Env, lists: set<int>)
    ensures Lawful(StreamKind(env, lists), StreamSoundIn(lists), StreamKept)
    ensures Repeatable(StreamKind(env, lists), AnyStream)
  {
    var kind := StreamKind(env, lists);
    forall p, e | kind.settle(p, e).Some?
      ensures Restricted(kind.settle(p, e).value) == Restricted(e)
    {
      CidrsCount(env, e.cidrs);
    }
  }
}
