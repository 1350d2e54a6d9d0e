/** What an access list says, in the terms it is configured in: addresses bit by bit, the
    first configured rule that bears on a query, and who is admitted for what reason. */
module AccessRules {
  import opened Basics
  import opened Names
  import opened TextMeaning
  import opened Access

  // ---- what a prefix covers ----

  function Width(v6: bool): nat { if v6 then 128 else 32 }

  /** The n low bits of x, the highest first. */
  ghost function Binary(x: nat, n: nat): (bits: seq<bool>)
    ensures |bits| == n
  {
    if n == 0 then [] else Binary(x / 2, n - 1) + [x % 2 == 1]
  }

  ghost predicate Agree(p: seq<bool>, q: seq<bool>, k: nat)
    requires |p| == |q|
  {
    forall i :: 0 <= i < |p| && i < k ==> p[i] == q[i]
  }

  /** The address is of the prefix's family and has its bits. */
  ghost predicate Covers(n: Net, a: Addr) {
    && n.base.v6 == a.v6
    && Agree(Binary(n.base.bits, Width(a.v6)), Binary(a.bits, Width(a.v6)), n.ones)
  }

  lemma DoublePow(n: nat)
    ensures Pow2(n + 1) == 2 * Pow2(n)
  {
  }

  lemma {:induction false} PowSum(m: nat, n: nat)
    ensures Pow2(m + n) == Pow2(m) * Pow2(n)
  {
    if m > 0 {
      PowSum(m - 1, n);
      DoublePow(m - 1 + n);
      assert 2 * (Pow2(m - 1) * Pow2(n)) == (2 * Pow2(m - 1)) * Pow2(n);
    }
  }

  lemma AllAddresses()
    ensures Pow2(32) == 0x1_0000_0000 && Pow2(128) == 0x1_0000_0000_0000_0000_0000_0000_0000_0000
  {
    hide Pow2;
    assert Pow2(4) == 16 by { PowOfFour(); }
    PowSum(4, 4);
    PowSum(8, 8);
    PowSum(16, 16);
    PowSum(32, 32);
    PowSum(64, 64);
  }

  lemma PowOfFour()
    ensures Pow2(4) == 16
  {
    assert Pow2(2) == 4;
  }

  lemma HalfAgain(x: nat, p: nat)
    requires p > 0
    ensures x / 2 / p == x / (2 * p)
  {
    var q, r := x / 2 / p, x / 2 % p;
    assert x / 2 == p * q + r;
    Twice(p, q);
    QuotientIs(x, 2 * p, q, 2 * r + x % 2);
  }

  lemma Twice(p: int, q: int)
    ensures (2 * p) * q == 2 * (p * q)
  {
  }

  lemma QuotientIs(x: nat, d: nat, q: nat, r: nat)
    requires d > 0 && x == d * q + r && r < d
    ensures x / d == q
  {
    var k := x / d - q;
    assert d * k == r - x % d by { Spread(d, x / d, q); }
    LessThanOne(d, k);
  }

  lemma Spread(d: int, a: int, b: int)
    ensures d * (a - b) == d * a - d * b
  {
  }

  lemma LessThanOne(d: int, k: int)
    requires d > 0 && -d < d * k < d
    ensures k == 0
  {
    if k >= 1 { Spread(d, k, 1); }
    if k <= -1 { Spread(d, -1, k); }
  }

  lemma AddressesFit(a: Addr)
    ensures a.bits < Pow2(Width(a.v6))
  {
    hide Pow2;
    AllAddresses();
  }

  /** Dividing by a power of two drops low bits. */
  lemma {:induction false} HighBits(x: nat, n: nat, h: nat)
    requires h <= n
    ensures Binary(x, n)[..n - h] == Binary(x / Pow2(h), n - h)
    ensures x < Pow2(n) ==> x / Pow2(h) < Pow2(n - h)
  {
    if h > 0 {
      HighBits(x / 2, n - 1, h - 1);
      HalfAgain(x, Pow2(h - 1));
      assert Binary(x, n)[..n - h] == Binary(x / 2, n - 1)[..n - h];
    }
  }

  lemma {:induction false} BitsDecide(x: nat, y: nat, n: nat)
    requires x < Pow2(n) && y < Pow2(n) && Binary(x, n) == Binary(y, n)
    ensures x == y
  {
    if n > 0 {
      assert Binary(x / 2, n - 1) == Binary(x, n)[..n - 1] == Binary(y / 2, n - 1);
      BitsDecide(x / 2, y / 2, n - 1);
      assert Binary(x, n)[n - 1] == Binary(y, n)[n - 1];
    }
  }

  lemma AgreeingBits(x: nat, y: nat, n: nat, k: nat)
    requires k <= n && x < Pow2(n) && y < Pow2(n)
    ensures x / Pow2(n - k) == y / Pow2(n - k) <==> Agree(Binary(x, n), Binary(y, n), k)
  {
    hide Pow2, Binary;
    HighBits(x, n, n - k);
    HighBits(y, n, n - k);
    var p, q := Binary(x, n), Binary(y, n);
    assert forall i :: 0 <= i < k ==> p[..k][i] == p[i] && q[..k][i] == q[i];
    if p[..k] == q[..k] { BitsDecide(x / Pow2(n - k), y / Pow2(n - k), k); }
  }

  lemma ContainsIsCovers(n: Net, a: Addr)
    ensures Contains(n, a) <==> Covers(n, a)
  {
    hide Pow2, Binary;
    if n.base.v6 == a.v6 {
      var width := Width(a.v6);
      var k := if n.ones <= width then n.ones else width;
      AddressesFit(n.base);
      AddressesFit(a);
      AgreeingBits(n.base.bits, a.bits, width, k);
      assert Contains(n, a) <==> n.base.bits / Pow2(width - k) == a.bits / Pow2(width - k);
    }
  }

  lemma OneAddress(x: Addr, a: Addr)
    ensures Contains(Net(x, Width(x.v6)), a) <==> x == a
  {
    assert Pow2(0) == 1;
  }

  // ---- what a rule bears on ----

  /** d is the capital of c, or c itself where it is no small letter. */
  ghost predicate IsCapital(c: char, d: char) {
    (exists k :: 0 <= k < 26 && Small()[k] == c && Capital()[k] == d) || (c !in Small() && d == c)
  }

  ghost predicate InCapitals(s: string, t: string) {
    |s| == |t| && forall i :: 0 <= i < |s| ==> IsCapital(s[i], t[i])
  }

  lemma CapitalMeaning(c: char, d: char)
    ensures IsCapital(c, d) <==> d == UpperChar(c)
  {
    LettersInOrder();
    hide Small, Capital;
    if 'a' <= c <= 'z' {
      var k := (c - 'a') as int;
      assert Small()[k] == c && Capital()[k] == UpperChar(c);
    }
  }

  lemma {:induction false} UpperMeaning(s: string, t: string)
    ensures InCapitals(s, t) <==> t == Upper(s)
  {
    hide IsCapital, UpperChar;
    if |s| > 0 && |t| > 0 {
      CapitalMeaning(s[0], t[0]);
      UpperMeaning(s[1..], t[1..]);
      CapitalsFrom(s, t);
      assert t == [t[0]] + t[1..];
    }
  }

  lemma CapitalsFrom(s: string, t: string)
    requires |s| > 0 && |t| > 0
    ensures InCapitals(s, t) <==> IsCapital(s[0], t[0]) && InCapitals(s[1..], t[1..])
  {
    hide IsCapital;
    if IsCapital(s[0], t[0]) && InCapitals(s[1..], t[1..]) {
      forall i | 0 <= i < |s| ensures IsCapital(s[i], t[i]) {
        if i > 0 { assert IsCapital(s[1..][i - 1], t[1..][i - 1]); }
      }
    }
  }

  /** The rule names no method, or this one in any case, or GET where HEAD is asked for. */
  ghost predicate ForMethod(r: Rule, verb: string) {
    || r.methods == []
    || exists m :: m in r.methods && (InCapitals(m, verb) || (verb == "HEAD" && InCapitals(m, "GET")))
  }

  lemma MethodsMeaning(r: Rule, verb: string)
    ensures (Methods(r.methods).Some? ==> verb in Methods(r.methods).value) <==> ForMethod(r, verb)
    ensures Methods(r.methods).None? <==> r.methods == []
  {
    forall m ensures InCapitals(m, verb) <==> verb == Upper(m) { UpperMeaning(m, verb); }
    forall m ensures InCapitals(m, "GET") <==> "GET" == Upper(m) { UpperMeaning(m, "GET"); }
    hide Upper, InCapitals;
  }

  /** The rule has a selector at all. */
  ghost predicate HasSelector(r: Rule) { r.vpn.Some? || r.cidr != "" || r.host != "" || r.country != "" }

  /** The rule's first selector is about the client. What cannot be looked up is about
      everyone if the rule refuses, and about nobody if it allows. */
  ghost predicate AboutClient(r: Rule, w: World, q: Query, ip: Addr) {
    if r.vpn.Some? then q.peer.Some? && w.names(r.vpn.value, q.peer.value)
    else
      && q.peer.None?
      && (r.cidr != "" ==> if w.parse(r.cidr).Some? then Covers(w.parse(r.cidr).value, ip) else !r.allow)
      && (r.cidr == "" && r.host != "" ==> if w.lookup(r.host) != [] then ip in w.lookup(r.host) else !r.allow)
      && (r.cidr == r.host == "" ==> r.country != "" && if w.geo.Some? then w.geo.value(ip) == r.country else !r.allow)
  }

  /** A raw connection has no method: a rule for some methods refuses it, and allows it
      nothing. */
  ghost predicate Bears(r: Rule, w: World, q: Query, ip: Addr) {
    && AboutClient(r, w, q, ip)
    && (q.verb.Some? ==> ForMethod(r, q.verb.value))
    && (q.verb.None? && r.allow ==> r.methods == [])
  }

  lemma {:induction false} HostRulesMeaning(allow: bool, methods: Option<set<string>>, ips: seq<Addr>, w: World, q: Query, ip: Addr)
    requires q.peer.None? && (methods.Some? ==> if q.verb.None? then !allow else q.verb.value in methods.value)
    ensures FirstSaid(HostRules(allow, methods, ips), w, q, ip) == if ip in ips then Some(allow) else None
  {
    hide Contains;
    if |ips| > 0 {
      var front, last := ips[..|ips| - 1], ips[|ips| - 1];
      var rule := CompiledRule(allow, InNet(Net(last, Width(last.v6))), methods);
      assert ips == front + [last];
      HostRulesMeaning(allow, methods, front, w, q, ip);
      FirstOfBoth(HostRules(allow, methods, front), [rule], w, q, ip);
      OneSaid(rule, w, q, ip);
      OneAddress(last, ip);
    }
  }

  lemma RuleMeaning(r: Rule, w: World, q: Query, ip: Addr)
    ensures FirstSaid(RulesFor(r, w), w, q, ip) == if Bears(r, w, q, ip) then Some(r.allow) else None
  {
    hide Contains, Covers, Methods, ForMethod, HostRules;
    var methods := Methods(r.methods);
    MethodsMeaning(r, if q.verb.Some? then q.verb.value else "");
    if r.vpn.None? && r.cidr == "" && r.host != "" && w.lookup(r.host) != [] {
      HostRulesSay(r.allow, methods, w.lookup(r.host), w, q, ip);
      if q.peer.None? && (methods.Some? ==> if q.verb.None? then !r.allow else q.verb.value in methods.value) {
        HostRulesMeaning(r.allow, methods, w.lookup(r.host), w, q, ip);
      }
    } else if HasSelector(r) {
      OneSaid(RulesFor(r, w)[0], w, q, ip);
      if w.parse(r.cidr).Some? { ContainsIsCovers(w.parse(r.cidr).value, ip); }
    }
  }

  /** The first rule that bears on the query says so. */
  ghost predicate Settled(rules: seq<Rule>, w: World, q: Query, ip: Addr, says: bool) {
    exists i :: 0 <= i < |rules| && rules[i].allow == says && FirstToBear(rules, w, q, ip, i)
  }

  ghost predicate FirstToBear(rules: seq<Rule>, w: World, q: Query, ip: Addr, i: nat)
    requires i < |rules|
  {
    Bears(rules[i], w, q, ip) && forall j :: 0 <= j < i ==> !Bears(rules[j], w, q, ip)
  }

  ghost predicate NoneBears(rules: seq<Rule>, w: World, q: Query, ip: Addr) {
    forall i :: 0 <= i < |rules| ==> !Bears(rules[i], w, q, ip)
  }

  /** One more rule has a say only where none bore before. */
  lemma SettledMore(rules: seq<Rule>, w: World, q: Query, ip: Addr, says: bool)
    requires |rules| > 0
    ensures var front, last := rules[..|rules| - 1], rules[|rules| - 1];
      && (NoneBears(rules, w, q, ip) <==> NoneBears(front, w, q, ip) && !Bears(last, w, q, ip))
      && (Settled(front, w, q, ip, says) ==> !NoneBears(front, w, q, ip))
      && (Settled(rules, w, q, ip, says) <==>
            Settled(front, w, q, ip, says) || (NoneBears(front, w, q, ip) && Bears(last, w, q, ip) && last.allow == says))
  {
    hide Bears;
    var n := |rules| - 1;
    var front := rules[..n];
    if Settled(front, w, q, ip, says) {
      var i :| 0 <= i < |front| && front[i].allow == says && FirstToBear(front, w, q, ip, i);
      assert FirstToBear(rules, w, q, ip, i);
    }
    if Settled(rules, w, q, ip, says) {
      var i :| 0 <= i < |rules| && rules[i].allow == says && FirstToBear(rules, w, q, ip, i);
      assert i < n ==> FirstToBear(front, w, q, ip, i);
    }
    if NoneBears(front, w, q, ip) && Bears(rules[n], w, q, ip) { assert FirstToBear(rules, w, q, ip, n); }
  }

  lemma {:induction false} FirstSaidMeaning(rules: seq<Rule>, w: World, q: Query, ip: Addr, says: bool)
    ensures FirstSaid(AllRules(rules, w), w, q, ip) == Some(says) <==> Settled(rules, w, q, ip, says)
    ensures FirstSaid(AllRules(rules, w), w, q, ip).None? <==> NoneBears(rules, w, q, ip)
  {
    if |rules| > 0 {
      hide RulesFor, Bears, Settled, NoneBears;
      var front, last := rules[..|rules| - 1], rules[|rules| - 1];
      FirstSaidMeaning(front, w, q, ip, says);
      RuleMeaning(last, w, q, ip);
      FirstOfBoth(AllRules(front, w), RulesFor(last, w), w, q, ip);
      SettledMore(rules, w, q, ip, says);
    }
  }

  // ---- who is admitted ----

  ghost predicate Restricts(l: List) { exists r :: r in l.rules && HasSelector(r) }

  /** The rules let a query through: there are none, or the first that bears on it allows. */
  ghost predicate LetIn(l: List, w: World, q: Query) {
    Restricts(l) ==> q.addr.Some? && Settled(l.rules, w, q, q.addr.value, true)
  }

  lemma VerdictMeaning(l: List, w: World, q: Query)
    ensures Verdict(Compile(l, w), w, q) <==> LetIn(l, w, q)
  {
    hide Settled;
    assert AnySelects(l.rules) <==> Restricts(l);
    if q.addr.Some? { FirstSaidMeaning(l.rules, w, q, q.addr.value, true); }
  }

  /** The request gives the password of a user. */
  ghost predicate Proven(l: List, w: World, r: Request) {
    exists name, password :: r.basic == Some((name, password)) && name in l.users && w.verify(l.users[name], password)
  }

  /** How a list with users and rules asks for either of the two. */
  ghost predicate Either(l: List) { l.users != map[] && l.satisfy == "any" && Restricts(l) }

  /** A preflight is judged by its address and the method it announces, or let through
      where a password may do. Another request needs its address let in and, where there
      are users, the password of one; either is enough where the list says any. Who gave
      a password is known by it, and the password goes no further unless the list passes
      it on. */
  lemma AdmissionMeaning(l: List, w: World, r: Request, bans: bool)
    ensures
      var d, asking := Wrap(Compile(l, w), w, r, bans), r.verb == "OPTIONS" && r.announced != "";
      var let := LetIn(l, w, Query(r.addr, Some(if asking then Upper(Trim(r.announced)) else r.verb), r.peer));
      && (asking ==> (d.Admitted? <==> let || Either(l)))
      && (!asking ==> (d.Admitted? <==>
            if Either(l) then let || Proven(l, w, r) else let && (l.users != map[] ==> Proven(l, w, r))))
      && (d.Admitted? ==> (d.identified <==> !asking && l.users != map[] && Proven(l, w, r)))
      && (d.Admitted? ==> (d.stripped <==> d.identified && !l.passAuth))
  {
    hide Verdict, LetIn, Upper;
    var verb := if r.verb == "OPTIONS" && r.announced != "" then Upper(Trim(r.announced)) else r.verb;
    VerdictMeaning(l, w, Query(r.addr, Some(verb), r.peer));
    assert AnySelects(l.rules) <==> Restricts(l);
    ProvenMeaning(l, w, r);
  }

  lemma ProvenMeaning(l: List, w: World, r: Request)
    ensures AuthOk(Compile(l, w), w, r) <==> l.users == map[] || Proven(l, w, r)
  {
    if r.basic.Some? { assert r.basic == Some((r.basic.value.0, r.basic.value.1)); }
  }

  /** A raw connection is admitted where its address is let in and nobody would be asked
      for a password as well. */
  lemma RawMeaning(l: List, w: World, addr: Option<Addr>)
    ensures L4Allowed(Compile(l, w), w, addr) <==>
      LetIn(l, w, Query(addr, None, None)) && (l.users == map[] || Either(l))
  {
    hide Verdict, LetIn;
    VerdictMeaning(l, w, Query(addr, None, None));
    assert AnySelects(l.rules) <==> Restricts(l);
  }

  /** The stand-in for a list that is not there refuses everything. */
  lemma MissingListRefuses(c: Compiled, w: World, r: Request, bans: bool)
    requires c.denyAll && (c.users == map[] || c.satisfy != "any")
    ensures Wrap(c, w, r, bans).Refused? && !L4Allowed(c, w, r.addr)
  {
  }

  // ---- what a refusal says and counts for ----

  /** A refused preflight is forbidden, marked blocked, and never counted. Any other
      refusal asks for a password where there are users and none of their passwords came,
      and is forbidden else. */
  lemma RefusalMeaning(l: List, w: World, r: Request, bans: bool)
    requires Wrap(Compile(l, w), w, r, bans).Refused?
    ensures var d := Wrap(Compile(l, w), w, r, bans);
      if r.verb == "OPTIONS" && r.announced != "" then d.status == 403 && d.blocked && !d.counted
      else d.status == if l.users != map[] && !Proven(l, w, r) then 401 else 403
  {
    ProvenMeaning(l, w, r);
    hide Verdict, Proven;
  }

  /** Some rule lets the whole family in. */
  ghost predicate OpenTo(rules: seq<CompiledRule>, v6: bool) {
    exists r :: r in rules && r.allow && r.selector.InNet? && WholeFamily(r.selector.net, v6)
  }

  ghost predicate WholeFamily(n: Net, v6: bool) { forall a: Addr :: a.v6 == v6 ==> Covers(n, a) }

  /** The first addresses of the two halves of a family differ in the first bit. */
  lemma WholeFamilyMeaning(n: Net, v6: bool)
    ensures WholeFamily(n, v6) <==> n.ones == 0 && n.base.v6 == v6
  {
    hide Pow2;
    var low, high := Address(v6, 0), Address(v6, if v6 then 0x8000_0000_0000_0000_0000_0000_0000_0000 else 0x8000_0000);
    if WholeFamily(n, v6) {
      assert Covers(n, low) && Covers(n, high);
      if n.ones > 0 {
        assert Binary(low.bits, Width(v6))[0] == Binary(high.bits, Width(v6))[0];
        AddressesFit(low);
        AddressesFit(high);
        TopBit(low.bits, Width(v6));
        TopBit(high.bits, Width(v6));
        HalfOfAll(v6);
      }
    }
  }

  lemma HalfOfAll(v6: bool)
    ensures Pow2(Width(v6) - 1) == if v6 then 0x8000_0000_0000_0000_0000_0000_0000_0000 else 0x8000_0000
  {
    hide Pow2;
    DoublePow(Width(v6) - 1);
    AllAddresses();
  }

  lemma {:induction false} TopBit(x: nat, n: nat)
    requires n > 0 && x < Pow2(n)
    ensures Binary(x, n)[0] <==> x >= Pow2(n - 1)
  {
    if n > 1 {
      TopBit(x / 2, n - 1);
      DoublePow(n - 2);
    } else {
      assert Pow2(0) == 1;
    }
  }

  /** A refusal that is no login prompt counts where bans are on and it came from
      outside: for a wrong password, and for an address not let in, unless another site
      had the browser ask, or the list is open to every IPv4 address, to fewer IPv6 ones,
      and the client has one of these. */
  lemma CountedMeaning(l: List, w: World, r: Request, bans: bool)
    requires Wrap(Compile(l, w), w, r, bans).Refused? && Wrap(Compile(l, w), w, r, bans).blocked
    requires !(r.verb == "OPTIONS" && r.announced != "")
    ensures
      var rules := AllRules(l.rules, w);
      var gap := OpenTo(rules, false) && !OpenTo(rules, true) && r.addr.Some? && r.addr.value.v6;
      var wrong := r.basic.Some? && l.users != map[] && !Proven(l, w, r);
      Wrap(Compile(l, w), w, r, bans).counted <==>
        bans && r.peer.None?
        && (wrong || (!LetIn(l, w, Query(r.addr, Some(r.verb), r.peer)) && !r.crossSite && !gap))
  {
    hide Verdict, LetIn, WholeFamily;
    VerdictMeaning(l, w, Query(r.addr, Some(r.verb), r.peer));
    ProvenMeaning(l, w, r);
    forall n: Net, v6 ensures WholeFamily(n, v6) <==> n.ones == 0 && n.base.v6 == v6 { WholeFamilyMeaning(n, v6); }
    assert forall v6 :: AllowsAll(AllRules(l.rules, w), v6) <==> OpenTo(AllRules(l.rules, w), v6);
  }
}
