/** Access lists: compiling the ordered rules, first-match evaluation with rules that
    fail closed, and the admission decision for a request.

    The verdicts are related to each other: a raw connection against a request, a list
    compiled while lookups fail against the same list compiled while they work, and
    requests from inside the tunnel against requests from outside. */
module Access {
  import opened Basics
  import opened Names

  /** An address of either family, IPv4 ones in whatever form they came as `v6 == false`. */
  datatype Address = Address(v6: bool, bits: nat)

  type Addr = a: Address | a.bits < if a.v6 then 0x1_0000_0000_0000_0000_0000_0000_0000_0000 else 0x1_0000_0000
    witness Address(false, 0)

  datatype Net = Net(base: Addr, ones: nat)

  function Pow2(n: nat): (r: nat)
    ensures r > 0
  {
    if n == 0 then 1 else 2 * Pow2(n - 1)
  }

  predicate Contains(n: Net, a: Addr) {
    var width := if n.base.v6 then 128 else 32;
    var host := Pow2(if n.ones <= width then width - n.ones else 0);
    n.base.v6 == a.v6 && n.base.bits / host == a.bits / host
  }

  type Subject = int

  type Peer = int

  /** A rule as configured. A selector left out is empty. */
  datatype Rule = Rule(allow: bool, cidr: string, host: string, country: string, vpn: Option<Subject>, methods: seq<string>)

  datatype List = List(satisfy: string, passAuth: bool, rules: seq<Rule>, users: map<string, string>)

  /** What compiling and evaluating look up: the CIDR parser, the name service (no
      address: unresolved), the country database (None: not loaded), whom a VPN
      subject names, and the password check. */
  datatype World = World(
    parse: string -> Option<Net>,
    lookup: string -> seq<Addr>,
    geo: Option<Addr -> string>,
    names: (Subject, Peer) -> bool,
    verify: (string, string) -> bool)

  datatype Selector = InNet(net: Net) | InCountry(code: string) | OfVpn(subject: Subject) | Unresolved

  datatype CompiledRule = CompiledRule(allow: bool, selector: Selector, methods: Option<set<string>>)

  datatype Compiled = Compiled(
    satisfy: string, passAuth: bool, rules: seq<CompiledRule>, restricted: bool, denyAll: bool, users: map<string, string>)

  function UpperChar(c: char): char { if 'a' <= c <= 'z' then c - ' ' else c }

  function Upper(s: string): string {
    if |s| == 0 then s else [UpperChar(s[0])] + Upper(s[1..])
  }

  // ---- compiling ----

  /** The methods a rule is for, none meaning all; GET brings HEAD. */
  function Methods(ms: seq<string>): Option<set<string>> {
    if |ms| == 0 then None
    else
      var upper := set m | m in ms :: Upper(m);
      Some(if "GET" in upper then upper + {"HEAD"} else upper)
  }

  function HostRules(allow: bool, methods: Option<set<string>>, ips: seq<Addr>): seq<CompiledRule> {
    if |ips| == 0 then []
    else
      var last := ips[|ips| - 1];
      HostRules(allow, methods, ips[..|ips| - 1]) + [CompiledRule(allow, InNet(Net(last, if last.v6 then 128 else 32)), methods)]
  }

  function RulesFor(r: Rule, w: World): seq<CompiledRule> {
    var methods := Methods(r.methods);
    if r.vpn.Some? then [CompiledRule(r.allow, OfVpn(r.vpn.value), methods)]
    else if r.cidr != "" then
      var net := w.parse(r.cidr);
      [CompiledRule(r.allow, if net.Some? then InNet(net.value) else Unresolved, methods)]
    else if r.host != "" then
      if w.lookup(r.host) == [] then [CompiledRule(r.allow, Unresolved, methods)]
      else HostRules(r.allow, methods, w.lookup(r.host))
    else if r.country != "" then [CompiledRule(r.allow, InCountry(r.country), methods)]
    else []
  }

  predicate Selects(r: Rule) { r.vpn.Some? || r.cidr != "" || r.host != "" || r.country != "" }

  function AllRules(rules: seq<Rule>, w: World): seq<CompiledRule> {
    if |rules| == 0 then [] else AllRules(rules[..|rules| - 1], w) + RulesFor(rules[|rules| - 1], w)
  }

  predicate AnySelects(rules: seq<Rule>) { exists r :: r in rules && Selects(r) }

  function Compile(l: List, w: World): Compiled {
    Compiled(l.satisfy, l.passAuth, AllRules(l.rules, w), AnySelects(l.rules), false, l.users)
  }

  lemma SelectsMore(rules: seq<Rule>, r: Rule)
    ensures AnySelects(rules + [r]) <==> AnySelects(rules) || Selects(r)
  {
    if AnySelects(rules) {
      var x :| x in rules && Selects(x);
      assert x in rules + [r];
    }
    if Selects(r) { assert r in rules + [r]; }
  }

  method CompileHost(allow: bool, methods: Option<set<string>>, ips: seq<Addr>) returns (rules: seq<CompiledRule>)
    ensures rules == HostRules(allow, methods, ips)
  {
    rules := [];
    var i := 0;
    while i < |ips|
      invariant i <= |ips| && rules == HostRules(allow, methods, ips[..i])
    {
      assert ips[..i + 1][..i] == ips[..i];
      rules := rules + [CompiledRule(allow, InNet(Net(ips[i], if ips[i].v6 then 128 else 32)), methods)];
      i := i + 1;
    }
    assert ips[..i] == ips;
  }

  method CompileAccess(l: List, w: World) returns (c: Compiled)
    ensures c == Compile(l, w)
  {
    hide Selects, HostRules, Methods, AnySelects;
    var rules: seq<CompiledRule> := [];
    var restricted := false;
    var i := 0;
    assert !AnySelects([]) by { NoneSelects(); }
    while i < |l.rules|
      invariant i <= |l.rules|
      invariant rules == AllRules(l.rules[..i], w) && restricted == AnySelects(l.rules[..i])
    {
      var r := l.rules[i];
      assert l.rules[..i + 1][..i] == l.rules[..i];
      assert l.rules[..i + 1] == l.rules[..i] + [r];
      SelectsMore(l.rules[..i], r);
      var more, selects := CompileRule(r, w);
      rules := rules + more;
      restricted := restricted || selects;
      i := i + 1;
    }
    assert l.rules[..i] == l.rules;
    c := Compiled(l.satisfy, l.passAuth, rules, restricted, false, l.users);
  }

  lemma NoneSelects()
    ensures !AnySelects([])
  {
  }

  /** The body of the loop: the rules one configured rule gives, and whether it selects. */
  method CompileRule(r: Rule, w: World) returns (rules: seq<CompiledRule>, selects: bool)
    ensures rules == RulesFor(r, w) && selects == Selects(r)
  {
    hide HostRules, Methods;
    rules, selects := [], false;
    var methods := Methods(r.methods);
    if r.vpn.Some? {
      selects := true;
      rules := [CompiledRule(r.allow, OfVpn(r.vpn.value), methods)];
    } else if r.cidr != "" {
      selects := true;
      var net := w.parse(r.cidr);
      rules := [CompiledRule(r.allow, if net.Some? then InNet(net.value) else Unresolved, methods)];
    } else if r.host != "" {
      selects := true;
      var ips := w.lookup(r.host);
      if |ips| == 0 {
        rules := [CompiledRule(r.allow, Unresolved, methods)];
      } else {
        rules := CompileHost(r.allow, methods, ips);
      }
    } else if r.country != "" {
      selects := true;
      rules := [CompiledRule(r.allow, InCountry(r.country), methods)];
    }
  }

  // ---- evaluating ----

  /** A request, or with no method a raw connection; the address is None when it does
      not parse, and the peer is set when it came through the tunnel. */
  datatype Query = Query(addr: Option<Addr>, verb: Option<string>, peer: Option<Peer>)

  /** What one rule says: admit, refuse, or nothing. */
  function Says(r: CompiledRule, w: World, q: Query, ip: Addr): Option<bool> {
    if r.methods.Some? && (if q.verb.None? then r.allow else q.verb.value !in r.methods.value) then None
    else if r.selector.OfVpn? then
      if q.peer.Some? && w.names(r.selector.subject, q.peer.value) then Some(r.allow) else None
    else if q.peer.Some? then None
    else match r.selector
      case Unresolved => if r.allow then None else Some(false)
      case InCountry(code) =>
        if w.geo.None? then (if r.allow then None else Some(false))
        else if w.geo.value(ip) == code then Some(r.allow) else None
      case InNet(net) => if Contains(net, ip) then Some(r.allow) else None
  }

  /** What the first rule that says anything says. */
  function FirstSaid(rules: seq<CompiledRule>, w: World, q: Query, ip: Addr): Option<bool> {
    if |rules| == 0 then None
    else
      var first := Says(rules[0], w, q, ip);
      if first.Some? then first else FirstSaid(rules[1..], w, q, ip)
  }

  predicate Verdict(c: Compiled, w: World, q: Query) {
    !c.denyAll && (!c.restricted || (q.addr.Some? && FirstSaid(c.rules, w, q, q.addr.value) == Some(true)))
  }

  method Evaluate(c: Compiled, w: World, q: Query) returns (ok: bool)
    ensures ok == Verdict(c, w, q)
  {
    if c.denyAll { return false; }
    if !c.restricted { return true; }
    if q.addr.None? { return false; }
    var ip := q.addr.value;
    var i := 0;
    while i < |c.rules|
      invariant i <= |c.rules|
      invariant FirstSaid(c.rules, w, q, ip) == FirstSaid(c.rules[i..], w, q, ip)
    {
      var r := c.rules[i];
      var skip := false;
      if r.methods.Some? {
        if q.verb.None? {
          skip := r.allow;
        } else {
          skip := q.verb.value !in r.methods.value;
        }
      }
      if !skip {
        if r.selector.OfVpn? {
          if q.peer.Some? && w.names(r.selector.subject, q.peer.value) { return r.allow; }
        } else if q.peer.None? {
          match r.selector {
            case Unresolved =>
              if !r.allow { return false; }
            case InCountry(code) =>
              if w.geo.None? {
                if !r.allow { return false; }
              } else if w.geo.value(ip) == code {
                return r.allow;
              }
            case InNet(net) =>
              if Contains(net, ip) { return r.allow; }
          }
        }
      }
      i := i + 1;
    }
    return false;
  }

  /** The verdict without a method, but false where users could be asked for. */
  predicate L4Allowed(c: Compiled, w: World, addr: Option<Addr>) {
    !(c.users != map[] && (c.satisfy != "any" || !c.restricted)) && Verdict(c, w, Query(addr, None, None))
  }

  // ---- admission of a request ----

  /** `announced` is the Access-Control-Request-Method header, "" when there is none;
      `authorization` that some Authorization header is there, `basic` what it holds. */
  datatype Request = Request(
    addr: Option<Addr>, peer: Option<Peer>, verb: string, announced: string,
    authorization: bool, basic: Option<(string, string)>, crossSite: bool)

  datatype Decision =
    | Admitted(identified: bool, stripped: bool)
    | Refused(status: int, blocked: bool, counted: bool)

  predicate Preflight(r: Request) { r.verb == "OPTIONS" && r.announced != "" }

  predicate AuthOk(c: Compiled, w: World, r: Request) {
    c.users == map[]
    || (r.basic.Some? && r.basic.value.0 in c.users && w.verify(c.users[r.basic.value.0], r.basic.value.1))
  }

  /** Credentials are another way in. */
  predicate EitherWay(c: Compiled) { c.satisfy == "any" && c.restricted && c.users != map[] }

  predicate Allowed(c: Compiled, ipOk: bool, authOk: bool) {
    if EitherWay(c) then ipOk || authOk else ipOk && authOk
  }

  predicate AllowsAll(rules: seq<CompiledRule>, v6: bool) {
    exists r :: r in rules && r.allow && r.selector.InNet? && r.selector.net.ones == 0 && r.selector.net.base.v6 == v6
  }

  predicate CountsTowardBan(c: Compiled, r: Request, ipOk: bool, authOk: bool) {
    if r.basic.Some? && c.users != map[] && !authOk then true
    else
      && !ipOk && !r.crossSite
      && !(AllowsAll(c.rules, false) && !AllowsAll(c.rules, true) && r.addr.Some? && r.addr.value.v6)
  }

  function Wrap(c: Compiled, w: World, r: Request, bans: bool): Decision {
    if Preflight(r) then
      if Verdict(c, w, Query(r.addr, Some(Upper(Trim(r.announced))), r.peer)) || (EitherWay(c) && !c.denyAll)
      then Admitted(false, false)
      else Refused(403, true, false)
    else
      var ipOk, authOk := Verdict(c, w, Query(r.addr, Some(r.verb), r.peer)), AuthOk(c, w, r);
      if Allowed(c, ipOk, authOk) then
        Admitted(c.users != map[] && authOk, c.users != map[] && authOk && !c.passAuth)
      else
        var challenge := c.users != map[] && !r.authorization && (ipOk || (c.satisfy == "any" && c.restricted));
        Refused(if c.users != map[] && !authOk then 401 else 403, !challenge,
                !challenge && bans && r.peer.None? && CountsTowardBan(c, r, ipOk, authOk))
  }

  // ---- laws of the first match ----

  lemma {:induction false} FirstOfBoth(a: seq<CompiledRule>, b: seq<CompiledRule>, w: World, q: Query, ip: Addr)
    ensures FirstSaid(a + b, w, q, ip)
         == if FirstSaid(a, w, q, ip).Some? then FirstSaid(a, w, q, ip) else FirstSaid(b, w, q, ip)
  {
    if |a| == 0 {
      assert a + b == b;
    } else {
      assert (a + b)[1..] == a[1..] + b;
      FirstOfBoth(a[1..], b, w, q, ip);
    }
  }

  // ---- a raw connection is held to no less than a request ----

  lemma {:induction false} RawRulesAreStricter(rules: seq<CompiledRule>, w: World, addr: Addr, verb: string)
    requires FirstSaid(rules, w, Query(Some(addr), None, None), addr) == Some(true)
    ensures FirstSaid(rules, w, Query(Some(addr), Some(verb), None), addr) == Some(true)
  {
    if Says(rules[0], w, Query(Some(addr), None, None), addr).None?
       && Says(rules[0], w, Query(Some(addr), Some(verb), None), addr).None? {
      RawRulesAreStricter(rules[1..], w, addr, verb);
    }
  }

  /** If the list admits a raw connection from an address outside the tunnel, it admits
      an HTTP request from there with every method and no credentials at all,
      preflights included. This holds of any list, the stand-in for a missing one too. */
  lemma RawAdmissionImpliesHttp(c: Compiled, w: World, r: Request, bans: bool)
    requires L4Allowed(c, w, r.addr) && r.peer.None? && r.basic.None?
    ensures Wrap(c, w, r, bans).Admitted?
  {
    var verb := if Preflight(r) then Upper(Trim(r.announced)) else r.verb;
    if c.restricted {
      RawRulesAreStricter(c.rules, w, r.addr.value, verb);
    }
  }

  // ---- failures narrow ----

  /** w is full except that some names do not resolve, some CIDRs do not parse, or the
      country database is not loaded. */
  ghost predicate Fails(w: World, full: World) {
    && (forall h :: w.lookup(h) == full.lookup(h) || w.lookup(h) == [])
    && (forall s :: w.parse(s) == full.parse(s) || w.parse(s).None?)
    && (w.geo == full.geo || w.geo.None?)
    && w.names == full.names && w.verify == full.verify
  }

  /** x says no more yes than y, rule by rule. */
  predicate Narrower(x: Option<bool>, y: Option<bool>) {
    x == y || x == Some(false) || (x.None? && y == Some(true))
  }

  lemma {:induction false} HostRulesSay(allow: bool, methods: Option<set<string>>, ips: seq<Addr>, w: World, q: Query, ip: Addr)
    ensures FirstSaid(HostRules(allow, methods, ips), w, q, ip) in {None, Some(allow)}
    ensures methods.Some? && (if q.verb.None? then allow else q.verb.value !in methods.value) ==>
      FirstSaid(HostRules(allow, methods, ips), w, q, ip).None?
    ensures q.peer.Some? ==> FirstSaid(HostRules(allow, methods, ips), w, q, ip).None?
  {
    if |ips| > 0 {
      HostRulesSay(allow, methods, ips[..|ips| - 1], w, q, ip);
      var last := HostRules(allow, methods, ips)[|HostRules(allow, methods, ips)| - 1];
      FirstOfBoth(HostRules(allow, methods, ips[..|ips| - 1]), [last], w, q, ip);
      assert [last][1..] == [];
    }
  }

  /** Compiled rules do not look at names or CIDRs any more. */
  lemma {:induction false} SaysTheSame(rules: seq<CompiledRule>, w: World, full: World, q: Query, ip: Addr)
    requires w.geo == full.geo && w.names == full.names
    ensures FirstSaid(rules, w, q, ip) == FirstSaid(rules, full, q, ip)
  {
    if |rules| > 0 { SaysTheSame(rules[1..], w, full, q, ip); }
  }

  lemma OneSaid(r: CompiledRule, w: World, q: Query, ip: Addr)
    ensures FirstSaid([r], w, q, ip) == Says(r, w, q, ip)
  {
    assert [r][1..] == [];
  }

  lemma {:induction false} NetsSayTheSame(rules: seq<CompiledRule>, w: World, full: World, q: Query, ip: Addr)
    requires forall i :: 0 <= i < |rules| ==> rules[i].selector.InNet?
    ensures FirstSaid(rules, w, q, ip) == FirstSaid(rules, full, q, ip)
  {
    if |rules| > 0 { NetsSayTheSame(rules[1..], w, full, q, ip); }
  }

  lemma {:induction false} HostRulesAreNets(allow: bool, methods: Option<set<string>>, ips: seq<Addr>)
    ensures forall i :: 0 <= i < |HostRules(allow, methods, ips)| ==> HostRules(allow, methods, ips)[i].selector.InNet?
  {
    if |ips| > 0 { HostRulesAreNets(allow, methods, ips[..|ips| - 1]); }
  }

  lemma FailureNarrowsRule(r: Rule, w: World, full: World, q: Query, ip: Addr)
    requires Fails(w, full)
    ensures Narrower(FirstSaid(RulesFor(r, w), w, q, ip), FirstSaid(RulesFor(r, full), full, q, ip))
  {
    var methods := Methods(r.methods);
    if r.vpn.None? && r.cidr == "" && r.host != "" {
      var ips := full.lookup(r.host);
      HostRulesSay(r.allow, methods, ips, full, q, ip);
      OneSaid(CompiledRule(r.allow, Unresolved, methods), w, q, ip);
      OneSaid(CompiledRule(r.allow, Unresolved, methods), full, q, ip);
      HostRulesAreNets(r.allow, methods, ips);
      NetsSayTheSame(HostRules(r.allow, methods, ips), w, full, q, ip);
    } else if r.vpn.Some? || r.cidr != "" || r.country != "" {
      OneSaid(RulesFor(r, w)[0], w, q, ip);
      OneSaid(RulesFor(r, full)[0], full, q, ip);
    }
  }

  lemma NarrowerSelf()
    ensures Narrower(None, None)
  {
  }

  lemma NarrowerThen(a: Option<bool>, b: Option<bool>, c: Option<bool>, d: Option<bool>)
    requires Narrower(a, b) && Narrower(c, d)
    ensures Narrower(if a.Some? then a else c, if b.Some? then b else d)
  {
    assert c in {None, Some(true), Some(false)} by { assert c.Some? ==> c == Some(c.value) && c.value in {true, false}; }
  }

  lemma {:induction false} FailureNarrowsRules(rules: seq<Rule>, w: World, full: World, q: Query, ip: Addr)
    requires Fails(w, full)
    ensures Narrower(FirstSaid(AllRules(rules, w), w, q, ip), FirstSaid(AllRules(rules, full), full, q, ip))
  {
    hide RulesFor, Narrower;
    assert Narrower(None, None) by { NarrowerSelf(); }
    if |rules| > 0 {
      var front, last := rules[..|rules| - 1], rules[|rules| - 1];
      FailureNarrowsRules(front, w, full, q, ip);
      FailureNarrowsRule(last, w, full, q, ip);
      FirstOfBoth(AllRules(front, w), RulesFor(last, w), w, q, ip);
      FirstOfBoth(AllRules(front, full), RulesFor(last, full), full, q, ip);
      NarrowerThen(FirstSaid(AllRules(front, w), w, q, ip), FirstSaid(AllRules(front, full), full, q, ip),
                   FirstSaid(RulesFor(last, w), w, q, ip), FirstSaid(RulesFor(last, full), full, q, ip));
    }
  }

  /** A verdict reached while something fails admits nobody the full list refuses. */
  lemma FailureNarrows(l: List, w: World, full: World, q: Query)
    requires Fails(w, full) && Verdict(Compile(l, w), w, q)
    ensures Verdict(Compile(l, full), full, q)
  {
    if AnySelects(l.rules) { FailureNarrowsRules(l.rules, w, full, q, q.addr.value); }
  }

  /** So for requests, and for raw connections. */
  lemma FailureNarrowsAdmission(l: List, w: World, full: World, r: Request, bans: bool)
    requires Fails(w, full)
    ensures Wrap(Compile(l, w), w, r, bans).Admitted? ==> Wrap(Compile(l, full), full, r, bans).Admitted?
    ensures L4Allowed(Compile(l, w), w, r.addr) ==> L4Allowed(Compile(l, full), full, r.addr)
  {
    hide Verdict;
    var verb := if Preflight(r) then Upper(Trim(r.announced)) else r.verb;
    if Verdict(Compile(l, w), w, Query(r.addr, Some(verb), r.peer)) {
      FailureNarrows(l, w, full, Query(r.addr, Some(verb), r.peer));
    }
    if Verdict(Compile(l, w), w, Query(r.addr, None, None)) {
      FailureNarrows(l, w, full, Query(r.addr, None, None));
    }
  }

  // ---- two vocabularies ----

  function WithoutVpn(rules: seq<Rule>): seq<Rule> {
    if |rules| == 0 then []
    else
      var front := WithoutVpn(rules[..|rules| - 1]);
      if rules[|rules| - 1].vpn.Some? then front else front + [rules[|rules| - 1]]
  }

  function OnlyVpn(rules: seq<Rule>): seq<Rule> {
    if |rules| == 0 then []
    else
      var front := OnlyVpn(rules[..|rules| - 1]);
      if rules[|rules| - 1].vpn.Some? then front + [rules[|rules| - 1]] else front
  }

  lemma {:induction false} AllOfMore(rules: seq<Rule>, r: Rule, w: World)
    ensures AllRules(rules + [r], w) == AllRules(rules, w) + RulesFor(r, w)
  {
    assert (rules + [r])[..|rules|] == rules;
  }

  lemma {:induction false} OutsideIgnoresVpn(rules: seq<Rule>, w: World, q: Query, ip: Addr)
    requires q.peer.None?
    ensures FirstSaid(AllRules(rules, w), w, q, ip) == FirstSaid(AllRules(WithoutVpn(rules), w), w, q, ip)
  {
    if |rules| > 0 {
      var front, last := rules[..|rules| - 1], rules[|rules| - 1];
      OutsideIgnoresVpn(front, w, q, ip);
      FirstOfBoth(AllRules(front, w), RulesFor(last, w), w, q, ip);
      if last.vpn.Some? {
        OneSaid(RulesFor(last, w)[0], w, q, ip);
      } else {
        AllOfMore(WithoutVpn(front), last, w);
        FirstOfBoth(AllRules(WithoutVpn(front), w), RulesFor(last, w), w, q, ip);
      }
    }
  }

  lemma AddressRuleSaysNothingInside(r: Rule, w: World, q: Query, ip: Addr)
    requires q.peer.Some? && r.vpn.None?
    ensures FirstSaid(RulesFor(r, w), w, q, ip).None?
  {
    if r.cidr == "" && r.host != "" && w.lookup(r.host) != [] {
      HostRulesSay(r.allow, Methods(r.methods), w.lookup(r.host), w, q, ip);
    } else if Selects(r) {
      OneSaid(RulesFor(r, w)[0], w, q, ip);
    }
  }

  lemma {:induction false} InsideIgnoresAddresses(rules: seq<Rule>, w: World, q: Query, ip: Addr)
    requires q.peer.Some?
    ensures FirstSaid(AllRules(rules, w), w, q, ip) == FirstSaid(AllRules(OnlyVpn(rules), w), w, q, ip)
  {
    if |rules| > 0 {
      var front, last := rules[..|rules| - 1], rules[|rules| - 1];
      InsideIgnoresAddresses(front, w, q, ip);
      FirstOfBoth(AllRules(front, w), RulesFor(last, w), w, q, ip);
      if last.vpn.Some? {
        AllOfMore(OnlyVpn(front), last, w);
        FirstOfBoth(AllRules(OnlyVpn(front), w), RulesFor(last, w), w, q, ip);
      } else {
        AddressRuleSaysNothingInside(last, w, q, ip);
      }
    }
  }

  lemma {:induction false} Parts(rules: seq<Rule>, r: Rule)
    ensures r in WithoutVpn(rules) <==> r in rules && r.vpn.None?
    ensures r in OnlyVpn(rules) <==> r in rules && r.vpn.Some?
  {
    if |rules| > 0 {
      Parts(rules[..|rules| - 1], r);
      assert rules == rules[..|rules| - 1] + [rules[|rules| - 1]];
    }
  }

  /** Taking the VPN rules out of a list leaves the verdict on every query from outside
      the tunnel, exactly when the list stays restricted or was open to begin with. A
      list of VPN rules alone is the other case: it refuses everyone outside, and
      without them nobody. */
  lemma VpnRulesOutside(l: List, w: World, q: Query)
    requires q.peer.None?
    ensures
      var without := l.(rules := WithoutVpn(l.rules));
      && (AnySelects(l.rules) == AnySelects(without.rules) ==>
            Verdict(Compile(l, w), w, q) == Verdict(Compile(without, w), w, q))
      && (AnySelects(l.rules) != AnySelects(without.rules) ==>
            !Verdict(Compile(l, w), w, q) && Verdict(Compile(without, w), w, q))
  {
    var without := l.(rules := WithoutVpn(l.rules));
    if q.addr.Some? { OutsideIgnoresVpn(l.rules, w, q, q.addr.value); }
    if AnySelects(l.rules) != AnySelects(without.rules) {
      forall r ensures r in without.rules <==> r in l.rules && r.vpn.None? { Parts(l.rules, r); }
      if q.addr.Some? { NothingSelected(without.rules, w, q, q.addr.value); }
    }
  }

  lemma {:induction false} NothingSelected(rules: seq<Rule>, w: World, q: Query, ip: Addr)
    requires !AnySelects(rules)
    ensures FirstSaid(AllRules(rules, w), w, q, ip).None?
  {
    if |rules| > 0 {
      var front, last := rules[..|rules| - 1], rules[|rules| - 1];
      assert forall r :: r in front ==> r in rules;
      assert last in rules && !Selects(last);
      NothingSelected(front, w, q, ip);
      FirstOfBoth(AllRules(front, w), RulesFor(last, w), w, q, ip);
    }
  }

  /** Whatever the address rules are, they bear on no query from inside the tunnel as
      long as the list has a VPN rule; a list without one refuses the tunnel
      altogether if it has any rule. */
  lemma AddressRulesInside(l: List, w: World, q: Query)
    requires q.peer.Some?
    ensures
      var only := l.(rules := OnlyVpn(l.rules));
      && (AnySelects(l.rules) == AnySelects(only.rules) ==>
            Verdict(Compile(l, w), w, q) == Verdict(Compile(only, w), w, q))
      && (AnySelects(l.rules) != AnySelects(only.rules) ==>
            !Verdict(Compile(l, w), w, q) && Verdict(Compile(only, w), w, q))
  {
    var only := l.(rules := OnlyVpn(l.rules));
    if q.addr.Some? { InsideIgnoresAddresses(l.rules, w, q, q.addr.value); }
    if AnySelects(l.rules) != AnySelects(only.rules) {
      forall r ensures r in only.rules <==> r in l.rules && r.vpn.Some? { Parts(l.rules, r); }
      if q.addr.Some? { NothingSelected(only.rules, w, q, q.addr.value); }
    }
  }

  // ---- what a refusal does ----

  /** A refusal is a login prompt, neither marked blocked nor counted toward a ban,
      exactly when no Authorization header came and valid credentials would do. What
      counts came from outside, and where the address is let in, with a wrong password. */
  lemma PromptWhenCredentialsWouldDo(c: Compiled, w: World, r: Request, bans: bool)
    requires !Preflight(r) && Wrap(c, w, r, bans).Refused?
    ensures
      var ipOk := Verdict(c, w, Query(r.addr, Some(r.verb), r.peer));
      !Wrap(c, w, r, bans).blocked <==> c.users != map[] && !r.authorization && Allowed(c, ipOk, true)
    ensures Wrap(c, w, r, bans).counted ==> Wrap(c, w, r, bans).blocked && bans && r.peer.None?
    ensures Wrap(c, w, r, bans).counted && Verdict(c, w, Query(r.addr, Some(r.verb), r.peer)) ==>
      r.basic.Some? && c.users != map[]
      && !(r.basic.value.0 in c.users && w.verify(c.users[r.basic.value.0], r.basic.value.1))
  {
  }

  // ---- hostname lookups ----

  const LAST_GOOD_MAX_AGE := 86400

  datatype Answer = Answer(ips: seq<Addr>, at: int)

  /** One lookup: when, for which name, and what the name service said ([]: failure). */
  datatype Asked = Asked(at: int, host: string, said: seq<Addr>)

  /** The last time the name service answered for a name. */
  function LastGood(asked: seq<Asked>, key: string): Option<Answer> {
    if |asked| == 0 then None
    else
      var last := asked[|asked| - 1];
      if Lower(last.host) == key && last.said != [] then Some(Answer(last.said, last.at))
      else LastGood(asked[..|asked| - 1], key)
  }

  lemma LastGoodMore(asked: seq<Asked>, a: Asked, key: string)
    ensures LastGood(asked + [a], key)
         == if Lower(a.host) == key && a.said != [] then Some(Answer(a.said, a.at)) else LastGood(asked, key)
  {
    assert (asked + [a])[..|asked|] == asked;
  }

  /** The lookup at j is for the name, and from it on none for the name succeeded. */
  ghost predicate FailedSince(asked: seq<Asked>, key: string, j: nat) {
    && j < |asked| && Lower(asked[j].host) == key
    && forall i :: j <= i < |asked| && Lower(asked[i].host) == key ==> asked[i].said == []
  }

  /** A lookup for the name failed more than a day after its last good answer. */
  ghost predicate Outlived(asked: seq<Asked>, key: string) {
    && LastGood(asked, key).Some?
    && exists j: nat :: FailedSince(asked, key, j) && asked[j].at - LastGood(asked, key).value.at > 24 * 60 * 60
  }

  lemma FailedSinceMore(asked: seq<Asked>, a: Asked, key: string, j: nat)
    ensures FailedSince(asked + [a], key, j) <==>
              (Lower(a.host) == key ==> a.said == []) && (FailedSince(asked, key, j) || (j == |asked| && Lower(a.host) == key))
  {
    hide Lower;
    var more := asked + [a];
    assert forall i :: 0 <= i < |asked| ==> more[i] == asked[i];
    assert more[|asked|] == a;
  }

  lemma OutlivedMore(asked: seq<Asked>, a: Asked, key: string)
    ensures Lower(a.host) != key ==> (Outlived(asked + [a], key) <==> Outlived(asked, key))
    ensures Lower(a.host) == key && a.said != [] ==> !Outlived(asked + [a], key)
    ensures Lower(a.host) == key && a.said == [] ==>
              (Outlived(asked + [a], key) <==>
                LastGood(asked, key).Some?
                && (Outlived(asked, key) || a.at - LastGood(asked, key).value.at > LAST_GOOD_MAX_AGE))
  {
    hide LastGood, Lower, FailedSince;
    LastGoodMore(asked, a, key);
    var more := asked + [a];
    forall j: nat
      ensures FailedSince(more, key, j) <==>
                (Lower(a.host) == key ==> a.said == []) && (FailedSince(asked, key, j) || (j == |asked| && Lower(a.host) == key))
      ensures FailedSince(asked, key, j) ==> j < |asked| && more[j] == asked[j]
    {
      FailedSinceMore(asked, a, key, j);
      if FailedSince(asked, key, j) { FailedInRange(asked, key, j); }
    }
    assert more[|asked|] == a;
    if Lower(a.host) == key && a.said == [] { assert FailedSince(more, key, |asked|); }
    if Outlived(asked, key) && (Lower(a.host) == key ==> a.said == []) {
      var j: nat :| FailedSince(asked, key, j) && asked[j].at - LastGood(asked, key).value.at > LAST_GOOD_MAX_AGE;
      assert FailedSince(more, key, j);
    }
  }

  lemma FailedInRange(asked: seq<Asked>, key: string, j: nat)
    requires FailedSince(asked, key, j)
    ensures j < |asked|
  {
  }

  /** The entries are exactly the last good answers that were not outlived. */
  ghost predicate Remembered(entries: map<string, Answer>, asked: seq<Asked>) {
    && (forall k :: k in entries <==> LastGood(asked, k).Some? && !Outlived(asked, k))
    && (forall k :: k in entries ==> LastGood(asked, k) == Some(entries[k]))
  }

  lemma {:induction false} LastGoodIsGood(asked: seq<Asked>, key: string)
    ensures LastGood(asked, key).Some? ==> LastGood(asked, key).value.ips != []
  {
    if |asked| > 0 { LastGoodIsGood(asked[..|asked| - 1], key); }
  }

  lemma RememberMore(entries: map<string, Answer>, asked: seq<Asked>, a: Asked, now: map<string, Answer>)
    requires Remembered(entries, asked)
    requires now == if a.said != [] then entries[Lower(a.host) := Answer(a.said, a.at)]
      else if Lower(a.host) in entries && a.at - entries[Lower(a.host)].at > LAST_GOOD_MAX_AGE then entries - {Lower(a.host)}
      else entries
    ensures Remembered(now, asked + [a])
  {
    hide LastGood, Lower, Outlived;
    forall k
      ensures k in now <==> LastGood(asked + [a], k).Some? && !Outlived(asked + [a], k)
      ensures k in now ==> LastGood(asked + [a], k) == Some(now[k])
    {
      LastGoodMore(asked, a, k);
      OutlivedMore(asked, a, k);
    }
  }

  /** Where the lookups come in the order of their times, an answer is outlived only
      if it is too old by now as well. */
  lemma OutlivedIsOld(asked: seq<Asked>, key: string, now: int)
    requires Outlived(asked, key) && forall i :: 0 <= i < |asked| ==> asked[i].at <= now
    ensures now - LastGood(asked, key).value.at > LAST_GOOD_MAX_AGE
  {
  }

  /** What a lookup is answered: what the name service says, or where it says nothing
      the last good answer, unless that is too old or was outlived. */
  ghost function Answered(asked: seq<Asked>, host: string, now: int, said: seq<Addr>): seq<Addr> {
    var last := LastGood(asked, Lower(host));
    if said != [] then said
    else if last.Some? && !Outlived(asked, Lower(host)) && now - last.value.at <= LAST_GOOD_MAX_AGE then last.value.ips
    else []
  }

  /** The newest answer there ever was, of whatever age. */
  function NewestAnswer(asked: seq<Asked>, host: string, said: seq<Addr>): seq<Addr> {
    if said != [] then said
    else if LastGood(asked, Lower(host)).Some? then LastGood(asked, Lower(host)).value.ips
    else []
  }

  /** w as the cache lets it appear at a moment: `w.lookup` is what the name service says. */
  ghost function Cached(w: World, asked: seq<Asked>, now: int): World {
    w.(lookup := h => Answered(asked, h, now, w.lookup(h)))
  }

  /** full knows the newest answer for every name, and w lacks nothing else but some
      CIDRs and perhaps the country database. */
  ghost predicate KnowsNewest(full: World, w: World, asked: seq<Asked>) {
    && (forall h :: full.lookup(h) == NewestAnswer(asked, h, w.lookup(h)))
    && (forall s :: w.parse(s) == full.parse(s) || w.parse(s).None?)
    && (w.geo == full.geo || w.geo.None?)
    && w.names == full.names && w.verify == full.verify
  }

  /** After any lookups, in any order of their times, a list compiled from what the cache
      answers admits no request and no raw connection that the newest answers, kept for
      ever, would refuse. */
  lemma CachedFailureNarrows(l: List, w: World, full: World, asked: seq<Asked>, now: int, r: Request, bans: bool)
    requires KnowsNewest(full, w, asked)
    ensures var c := Cached(w, asked, now);
      && (Wrap(Compile(l, c), c, r, bans).Admitted? ==> Wrap(Compile(l, full), full, r, bans).Admitted?)
      && (L4Allowed(Compile(l, c), c, r.addr) ==> L4Allowed(Compile(l, full), full, r.addr))
  {
    hide Wrap, L4Allowed, Compile, Outlived, LastGood, Lower;
    FailureNarrowsAdmission(l, Cached(w, asked, now), full, r, bans);
  }

  class DnsCache {
    var entries: map<string, Answer>
    ghost var asked: seq<Asked>

    ghost predicate Valid()
      reads this
    {
      Remembered(entries, asked)
    }

    constructor ()
      ensures Valid() && asked == []
    {
      entries := map[];
      asked := [];
    }

    /** `said` is what the name service answers, `now` the time read before the lock,
        so calls may come in another order than their times. A failing lookup is answered
        from the last good one for the same name, if that is at most a day old and was
        not outlived. */
    method Resolve(host: string, now: int, said: seq<Addr>) returns (ips: seq<Addr>, stale: bool)
      requires Valid()
      modifies this
      ensures Valid() && asked == old(asked) + [Asked(now, host, said)]
      ensures said != [] ==> ips == said && !stale
      ensures said == [] ==>
        var last := LastGood(old(asked), Lower(host));
        if last.Some? && !Outlived(old(asked), Lower(host)) && now - last.value.at <= LAST_GOOD_MAX_AGE
        then ips == last.value.ips && ips != [] && stale
        else ips == [] && !stale
      ensures ips == Answered(old(asked), host, now, said)
      ensures said == [] && (forall i :: 0 <= i < |old(asked)| ==> old(asked)[i].at <= now) ==>
        var last := LastGood(old(asked), Lower(host));
        (ips != [] <==> last.Some? && now - last.value.at <= 24 * 60 * 60)
    {
      hide LastGood, Lower, Outlived;
      ghost var before, asking := entries, asked;
      var key := Lower(host);
      LastGoodIsGood(asked, key);
      if Outlived(asked, key) && (forall i :: 0 <= i < |asked| ==> asked[i].at <= now) { OutlivedIsOld(asked, key, now); }
      asked := asked + [Asked(now, host, said)];
      if said != [] {
        entries := entries[key := Answer(said, now)];
        RememberMore(before, asking, Asked(now, host, said), entries);
        return said, false;
      }
      if key in entries {
        var e := entries[key];
        if now - e.at <= LAST_GOOD_MAX_AGE {
          RememberMore(before, asking, Asked(now, host, said), entries);
          return e.ips, true;
        }
        entries := entries - {key};
      }
      RememberMore(before, asking, Asked(now, host, said), entries);
      return [], false;
    }
  }
}
