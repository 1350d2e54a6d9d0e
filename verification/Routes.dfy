/** Routing names: the manual hosts and the hosts containers ask for, merged into one
    table so that whatever a container claims, a name a manual host answers for is
    answered by that host. */
module Routes {
  import opened Basics
  import opened Names

  /** Routes are told apart by the host they were built for. */
  datatype Route = Manual(host: nat) | Container(host: nat)

  datatype Host = Host(domains: seq<string>, enabled: bool)

  datatype Table = Table(exact: map<string, Route>, wildcard: map<string, Route>)

  const EMPTY := Table(map[], map[])

  /** The first occurrence, or the length. */
  function Index(s: string, c: char): (i: nat)
    ensures i <= |s| && (i < |s| ==> s[i] == c)
    ensures forall j :: 0 <= j < i ==> s[j] != c
  {
    if |s| == 0 || s[0] == c then 0 else 1 + Index(s[1..], c)
  }

  /** The last occurrence plus one, or 0. */
  function PastLast(s: string, c: char): (i: nat)
    ensures i <= |s| && (i > 0 ==> s[i - 1] == c)
    ensures forall j :: i <= j < |s| ==> s[j] != c
  {
    if |s| == 0 then 0 else if s[|s| - 1] == c then |s| else PastLast(s[..|s| - 1], c)
  }

  /** The host of host:port, where an IPv6 host is in brackets; None when there is no
      port or the text is malformed. */
  function HostOfPort(s: string): Option<string> {
    var i := PastLast(s, ':');
    if i == 0 then None
    else if s[0] == '[' then
      var end := Index(s, ']');
      if end == |s| || end + 1 == |s| || end + 2 != i then None
      else if '[' in s[1..] || ']' in s[end + 1..] then None
      else Some(s[1..end])
    else if ':' in s[..i - 1] || '[' in s || ']' in s then None
    else Some(s[..i - 1])
  }

  function WithoutDot(s: string): string {
    if |s| > 0 && s[|s| - 1] == '.' then s[..|s| - 1] else s
  }

  /** The name a lookup uses for what the client sent. */
  function RouteName(hostport: string): string {
    var name := Lower(hostport);
    var host := HostOfPort(name);
    WithoutDot(if host.Some? then host.value else name)
  }

  function Lookup(t: Table, hostport: string): Option<Route> { Resolve(t, RouteName(hostport)) }

  /** An exact name is preferred to a wildcard one label up. */
  function Resolve(t: Table, name: string): Option<Route> {
    var i := Index(name, '.');
    if name in t.exact then Some(t.exact[name])
    else if 0 < i < |name| && name[i + 1..] in t.wildcard then Some(t.wildcard[name[i + 1..]])
    else None
  }

  /** What `Resolve` would look a name up under after the exact table: "" if nothing. */
  function Covering(d: string): string {
    var i := Index(d, '.');
    if "*." <= d || !(0 < i < |d|) then "" else "*." + d[i + 1..]
  }

  predicate Named(manual: seq<Host>, d: string) {
    exists i :: 0 <= i < |manual| && d in manual[i].domains
  }

  /** A manual host, served or not, has this name or a wildcard over it. */
  predicate Configured(manual: seq<Host>, d: string) {
    Named(manual, d) || (Covering(d) != "" && Named(manual, Covering(d)))
  }

  // ---- placing ----

  function PlaceName(t: Table, manual: seq<Host>, r: Route, d: string): Table {
    if r.Container? && Configured(manual, d) then t
    else if "*." <= d then
      if r.Container? && d[2..] in t.wildcard then t else t.(wildcard := t.wildcard[d[2..] := r])
    else
      if r.Container? && d in t.exact then t else t.(exact := t.exact[d := r])
  }

  function PlaceNames(t: Table, manual: seq<Host>, r: Route, ds: seq<string>): Table {
    if |ds| == 0 then t
    else PlaceName(PlaceNames(t, manual, r, ds[..|ds| - 1]), manual, r, ds[|ds| - 1])
  }

  function Place(t: Table, manual: seq<Host>, r: Route, h: Host): Table {
    if h.enabled then PlaceNames(t, manual, r, h.domains) else t
  }

  /** The manual hosts alone, the first n of them. */
  function ManualTable(manual: seq<Host>, n: nat): Table
    requires n <= |manual|
  {
    if n == 0 then EMPTY else Place(ManualTable(manual, n - 1), manual, Manual(n - 1), manual[n - 1])
  }

  /** All manual hosts, then the first n containers. */
  function Merged(manual: seq<Host>, containers: seq<Host>, n: nat): Table
    requires n <= |containers|
  {
    if n == 0 then ManualTable(manual, |manual|)
    else Place(Merged(manual, containers, n - 1), manual, Container(n - 1), containers[n - 1])
  }

  class RoutingTable {
    var table: Table

    constructor ()
      ensures table == EMPTY
    {
      table := EMPTY;
    }

    method PlaceHost(manual: seq<Host>, r: Route, h: Host)
      modifies this
      ensures table == Place(old(table), manual, r, h)
    {
      if !h.enabled { return; }
      ghost var before := table;
      var i := 0;
      while i < |h.domains|
        invariant i <= |h.domains| && table == PlaceNames(before, manual, r, h.domains[..i])
      {
        var d := h.domains[i];
        assert h.domains[..i + 1][..i] == h.domains[..i];
        i := i + 1;
        if r.Container? && Configured(manual, d) { continue; }
        if "*." <= d {
          if r.Container? && d[2..] in table.wildcard { continue; }
          table := table.(wildcard := table.wildcard[d[2..] := r]);
        } else {
          if r.Container? && d in table.exact { continue; }
          table := table.(exact := table.exact[d := r]);
        }
      }
      assert h.domains[..i] == h.domains;
    }

    /** Database hosts first, then the hosts the containers ask for. */
    method Reload(manual: seq<Host>, containers: seq<Host>)
      modifies this
      ensures table == Merged(manual, containers, |containers|)
    {
      hide Place;
      table := EMPTY;
      for i := 0 to |manual|
        invariant table == ManualTable(manual, i)
      {
        PlaceHost(manual, Manual(i), manual[i]);
      }
      for i := 0 to |containers|
        invariant table == Merged(manual, containers, i)
      {
        PlaceHost(manual, Container(i), containers[i]);
      }
    }
  }

  // ---- manual hosts win ----

  /** Every entry is there because a manual host has the name. */
  ghost predicate FromManual(t: Table, manual: seq<Host>) {
    && (forall k :: k in t.exact ==> Named(manual, k))
    && (forall k :: k in t.wildcard ==> Named(manual, "*." + k))
  }

  lemma {:induction false} NamesFromManual(t: Table, manual: seq<Host>, r: Route, h: nat, ds: seq<string>)
    requires FromManual(t, manual) && h < |manual| && r.Manual?
    requires forall d :: d in ds ==> d in manual[h].domains
    ensures FromManual(PlaceNames(t, manual, r, ds), manual)
  {
    if |ds| > 0 {
      var d := ds[|ds| - 1];
      NamesFromManual(t, manual, r, h, ds[..|ds| - 1]);
      assert d in ds && d in manual[h].domains;
      assert Named(manual, d);
      if "*." <= d { assert "*." + d[2..] == d; }
    }
  }

  lemma {:induction false} TableFromManual(manual: seq<Host>, n: nat)
    requires n <= |manual|
    ensures FromManual(ManualTable(manual, n), manual)
  {
    if n > 0 {
      TableFromManual(manual, n - 1);
      NamesFromManual(ManualTable(manual, n - 1), manual, Manual(n - 1), n - 1, manual[n - 1].domains);
    }
  }

  /** What is in t beside m is under names no manual host has or covers. */
  ghost predicate Beside(t: Table, m: Table, manual: seq<Host>) {
    && (forall k :: k in m.exact ==> k in t.exact && t.exact[k] == m.exact[k])
    && (forall k :: k in m.wildcard ==> k in t.wildcard && t.wildcard[k] == m.wildcard[k])
    && (forall k :: k in t.exact && k !in m.exact ==> !Configured(manual, k) && !("*." <= k) && t.exact[k].Container?)
    && (forall k :: k in t.wildcard && k !in m.wildcard ==> !Configured(manual, "*." + k) && t.wildcard[k].Container?)
  }

  lemma {:induction false} NamesBeside(t: Table, m: Table, manual: seq<Host>, r: Route, ds: seq<string>)
    requires Beside(t, m, manual) && r.Container?
    ensures Beside(PlaceNames(t, manual, r, ds), m, manual)
  {
    hide Configured;
    if |ds| > 0 {
      var d := ds[|ds| - 1];
      NamesBeside(t, m, manual, r, ds[..|ds| - 1]);
      if "*." <= d { assert "*." + d[2..] == d; }
    }
  }

  lemma {:induction false} MergedBeside(manual: seq<Host>, containers: seq<Host>, n: nat)
    requires n <= |containers|
    ensures Beside(Merged(manual, containers, n), ManualTable(manual, |manual|), manual)
  {
    hide Configured;
    if n > 0 {
      MergedBeside(manual, containers, n - 1);
      NamesBeside(Merged(manual, containers, n - 1), ManualTable(manual, |manual|), manual, Container(n - 1), containers[n - 1].domains);
    }
  }

  lemma BesideResolves(m: Table, t: Table, manual: seq<Host>, name: string)
    requires FromManual(m, manual) && Beside(t, m, manual) && Resolve(m, name).Some?
    ensures Resolve(t, name) == Resolve(m, name)
  {
    hide Named;
    var i := Index(name, '.');
    if name !in m.exact {
      assert Named(manual, "*." + name[i + 1..]);
      assert "*." <= name || Covering(name) == "*." + name[i + 1..];
    }
  }

  /** Whatever the containers claim, a name that the manual hosts alone resolve, by an
      exact name or through a wildcard, goes to the same manual host. */
  lemma ManualHostsWin(manual: seq<Host>, containers: seq<Host>, hostport: string)
    requires Lookup(ManualTable(manual, |manual|), hostport).Some?
    ensures Lookup(Merged(manual, containers, |containers|), hostport) == Lookup(ManualTable(manual, |manual|), hostport)
  {
    hide FromManual, Beside, Resolve, RouteName, Merged, ManualTable;
    TableFromManual(manual, |manual|);
    MergedBeside(manual, containers, |containers|);
    BesideResolves(ManualTable(manual, |manual|), Merged(manual, containers, |containers|), manual, RouteName(hostport));
  }

  lemma BesideUnserved(m: Table, t: Table, manual: seq<Host>, name: string)
    requires Beside(t, m, manual) && Resolve(m, name).None? && Configured(manual, name)
    ensures name !in t.exact
    ensures Resolve(t, name).Some? ==>
      var i := Index(name, '.');
      0 < i < |name| && name[i + 1..] in t.wildcard && Resolve(t, name).value.Container? && !Named(manual, "*." + name[i + 1..])
  {
    hide Named;
  }

  /** A name a manual host has but does not serve, being disabled, reaches a container
      in one case only: under no manual wildcard, and through a wildcard of a
      container. */
  lemma DisabledNames(manual: seq<Host>, containers: seq<Host>, hostport: string)
    requires Configured(manual, RouteName(hostport))
    requires Lookup(ManualTable(manual, |manual|), hostport).None?
    ensures
      var t := Merged(manual, containers, |containers|);
      var name := RouteName(hostport);
      var i := Index(name, '.');
      && name !in t.exact
      && (Lookup(t, hostport).Some? ==>
            Lookup(t, hostport).value.Container? && 0 < i < |name| && name[i + 1..] in t.wildcard && !Named(manual, "*." + name[i + 1..]))
  {
    hide Beside, Configured, Named, RouteName, Merged, ManualTable;
    MergedBeside(manual, containers, |containers|);
    BesideUnserved(ManualTable(manual, |manual|), Merged(manual, containers, |containers|), manual, RouteName(hostport));
  }

  // ---- spellings of a name ----

  lemma {:induction false} LowerOfBoth(a: string, b: string)
    ensures Lower(a + b) == Lower(a) + Lower(b)
  {
    if |a| == 0 {
      assert a + b == b;
    } else {
      assert (a + b)[1..] == a[1..] + b;
      LowerOfBoth(a[1..], b);
    }
  }

  ghost predicate PlainName(s: string) { ':' !in s && '[' !in s && ']' !in s }

  lemma LowerIsPlain(s: string)
    requires PlainName(s)
    ensures PlainName(Lower(s))
  {
    LowerShape(s);
    forall c | c in Lower(s) ensures c != ':' && c != '[' && c != ']' {
      var i :| 0 <= i < |s| && Lower(s)[i] == c;
      assert s[i] in s;
    }
  }

  lemma PortDropped(s: string, port: string)
    requires PlainName(s) && PlainName(port)
    ensures HostOfPort(s + ":" + port) == Some(s)
    ensures HostOfPort(s).None?
  {
    var all := s + ":" + port;
    assert all[|s|] == ':';
    assert PastLast(all, ':') == |s| + 1 by {
      var i := PastLast(all, ':');
      assert forall j :: |s| < j < |all| ==> all[j] == port[j - |s| - 1] && all[j] in port;
      assert forall j :: |s| < j < |all| ==> all[j] != ':';
    }
    assert all[..|s|] == s;
  }

  /** Of name and name:port alike the route name is the name in lower case, less a dot. */
  lemma RouteNameOf(name: string, port: string)
    requires PlainName(name) && PlainName(port)
    ensures RouteName(name) == RouteName(name + ":" + port) == WithoutDot(Lower(name))
  {
    hide HostOfPort, Lower, WithoutDot;
    LowerIsPlain(name);
    LowerIsPlain(port);
    LowerOfBoth(name + ":", port);
    LowerOfBoth(name, ":");
    LowerOfColon();
    PortDropped(Lower(name), Lower(port));
  }

  lemma LowerOfColon()
    ensures Lower(":") == ":" && Lower(".") == "."
  {
  }

  /** The port, a trailing dot and the case a client sends do not change the route. */
  lemma SpellingsOfAName(name: string, port: string)
    requires PlainName(name) && PlainName(port) && name != "" && name[|name| - 1] != '.'
    ensures RouteName(name) == RouteName(name + ":" + port) == RouteName(name + ".") == RouteName(name + "." + ":" + port) == Lower(name)
    ensures RouteName(Lower(name)) == RouteName(name)
  {
    hide RouteName, Lower;
    var low := Lower(name);
    LowerShape(name);
    LowerShape(low);
    LowerIsPlain(name);
    LowerOfBoth(name, ".");
    LowerOfColon();
    RouteNameOf(name, port);
    RouteNameOf(name + ".", port);
    RouteNameOf(low, port);
    assert (low + ".")[..|low|] == low;
    assert Lower(low) == low;
  }

  // ---- what containers keep ----

  datatype Stream = Stream(port: int, target: string)

  /** What one container asks for; `host` is the names of the host it wants, if any. */
  datatype Wish = Wish(who: string, host: Option<seq<string>>, streams: seq<Stream>)

  /** Names and ports taken so far, and what each container keeps. */
  datatype Claims = Claims(names: set<string>, ports: map<int, string>, hosts: seq<seq<string>>, streams: seq<Stream>)

  const NO_CLAIMS := Claims({}, map[], [], [])

  predicate Free(manual: set<string>, claimed: set<string>, d: string) {
    d !in manual && !(Covering(d) != "" && Covering(d) in manual) && d !in claimed
  }

  /** The names kept of those asked for, in order. */
  function Keep(manual: set<string>, claimed: set<string>, ds: seq<string>): seq<string> {
    if |ds| == 0 then []
    else
      var front, d := Keep(manual, claimed, ds[..|ds| - 1]), ds[|ds| - 1];
      if Free(manual, claimed + Set(front), d) then front + [d] else front
  }

  function Set(ds: seq<string>): set<string> { set d | d in ds }

  function TakePort(used: set<int>, who: string, c: Claims, s: Stream): Claims {
    if s.port in used || (s.port in c.ports && c.ports[s.port] != "") then c
    else c.(ports := c.ports[s.port := who], streams := c.streams + [s])
  }

  function TakePorts(used: set<int>, who: string, c: Claims, ss: seq<Stream>): Claims {
    if |ss| == 0 then c else TakePort(used, who, TakePorts(used, who, c, ss[..|ss| - 1]), ss[|ss| - 1])
  }

  function Grant(manual: set<string>, used: set<int>, c: Claims, w: Wish): Claims {
    var kept := if w.host.Some? then Keep(manual, c.names, w.host.value) else [];
    TakePorts(used, w.who, c.(names := c.names + Set(kept), hosts := if kept == [] then c.hosts else c.hosts + [kept]), w.streams)
  }

  function Granted(manual: set<string>, used: set<int>, wishes: seq<Wish>): Claims {
    if |wishes| == 0 then NO_CLAIMS
    else Grant(manual, used, Granted(manual, used, wishes[..|wishes| - 1]), wishes[|wishes| - 1])
  }

  method Aggregate(manual: set<string>, used: set<int>, wishes: seq<Wish>) returns (hosts: seq<seq<string>>, streams: seq<Stream>)
    ensures hosts == Granted(manual, used, wishes).hosts && streams == Granted(manual, used, wishes).streams
  {
    var claimed: set<string>, taken: map<int, string> := {}, map[];
    hosts, streams := [], [];
    var i := 0;
    while i < |wishes|
      invariant i <= |wishes| && Claims(claimed, taken, hosts, streams) == Granted(manual, used, wishes[..i])
    {
      var w := wishes[i];
      assert wishes[..i + 1][..i] == wishes[..i];
      var kept: seq<string> := [];
      if w.host.Some? {
        kept, claimed := KeepNames(manual, claimed, w.host.value);
        if kept != [] { hosts := hosts + [kept]; }
      } else {
        assert claimed == claimed + Set(kept);
      }
      taken, streams := KeepStreams(used, w.who, w.streams, Claims(claimed, taken, hosts, streams));
      i := i + 1;
    }
    assert wishes[..i] == wishes;
  }

  /** The inner loop over the names a container asks for. */
  method KeepNames(manual: set<string>, before: set<string>, ds: seq<string>) returns (kept: seq<string>, claimed: set<string>)
    ensures kept == Keep(manual, before, ds) && claimed == before + Set(kept)
  {
    kept, claimed := [], before;
    var i := 0;
    while i < |ds|
      invariant i <= |ds| && kept == Keep(manual, before, ds[..i]) && claimed == before + Set(kept)
    {
      var d := ds[i];
      assert ds[..i + 1][..i] == ds[..i];
      var w := Covering(d);
      if d in manual {
      } else if w != "" && w in manual {
      } else if d in claimed {
      } else {
        claimed := claimed + {d};
        kept := kept + [d];
      }
      i := i + 1;
    }
    assert ds[..i] == ds;
  }

  /** The inner loop over its streams. */
  method KeepStreams(used: set<int>, who: string, ss: seq<Stream>, c: Claims) returns (taken: map<int, string>, streams: seq<Stream>)
    ensures c.(ports := taken, streams := streams) == TakePorts(used, who, c, ss)
  {
    taken, streams := c.ports, c.streams;
    var i := 0;
    while i < |ss|
      invariant i <= |ss| && c.(ports := taken, streams := streams) == TakePorts(used, who, c, ss[..i])
    {
      var s := ss[i];
      assert ss[..i + 1][..i] == ss[..i];
      if s.port in used {
      } else if s.port in taken && taken[s.port] != "" {
      } else {
        taken := taken[s.port := who];
        streams := streams + [s];
      }
      i := i + 1;
    }
    assert ss[..i] == ss;
  }

  // ---- no name and no port twice ----

  /** Kept names are claimed, free of the manual ones, and each is kept once, within a
      host and across hosts. */
  ghost predicate HostsApart(manual: set<string>, names: set<string>, hosts: seq<seq<string>>) {
    && (forall i :: 0 <= i < |hosts| ==> hosts[i] != [] && NoRepeats(hosts[i]))
    && (forall i, d :: 0 <= i < |hosts| && d in hosts[i] ==> d in names && Free(manual, {}, d))
    && (forall i, j, d :: 0 <= i < j < |hosts| && d in hosts[i] ==> d !in hosts[j])
  }

  /** The same of the ports of kept streams. */
  ghost predicate StreamsApart(used: set<int>, ports: map<int, string>, streams: seq<Stream>) {
    && (forall i :: 0 <= i < |streams| ==> streams[i].port in ports && ports[streams[i].port] != "" && streams[i].port !in used)
    && (forall i, j :: 0 <= i < j < |streams| ==> streams[i].port != streams[j].port)
  }

  ghost predicate Apart(manual: set<string>, used: set<int>, c: Claims) {
    HostsApart(manual, c.names, c.hosts) && StreamsApart(used, c.ports, c.streams)
  }

  lemma {:induction false} KeepApart(manual: set<string>, claimed: set<string>, ds: seq<string>)
    ensures NoRepeats(Keep(manual, claimed, ds))
    ensures forall d :: d in Keep(manual, claimed, ds) ==> d in ds && Free(manual, claimed, d)
    ensures forall d :: d in ds && Free(manual, claimed, d) ==> d in Keep(manual, claimed, ds)
  {
    if |ds| > 0 {
      KeepApart(manual, claimed, ds[..|ds| - 1]);
      assert ds == ds[..|ds| - 1] + [ds[|ds| - 1]];
    }
  }

  lemma {:induction false} PortsApart(manual: set<string>, used: set<int>, who: string, c: Claims, ss: seq<Stream>)
    requires Apart(manual, used, c) && who != ""
    ensures Apart(manual, used, TakePorts(used, who, c, ss))
    ensures TakePorts(used, who, c, ss).hosts == c.hosts && TakePorts(used, who, c, ss).names == c.names
  {
    if |ss| > 0 { PortsApart(manual, used, who, c, ss[..|ss| - 1]); }
  }

  lemma HostApart(manual: set<string>, names: set<string>, hosts: seq<seq<string>>, kept: seq<string>)
    requires HostsApart(manual, names, hosts) && kept != [] && NoRepeats(kept)
    requires forall d :: d in kept ==> d !in names && Free(manual, {}, d)
    ensures HostsApart(manual, names + Set(kept), hosts + [kept])
  {
    hide Free, NoRepeats;
    var all := hosts + [kept];
    forall i, j, d | 0 <= i < j < |all| && d in all[i]
      ensures d !in all[j]
    {
      if j == |hosts| { assert d in names; }
    }
  }

  lemma NamesApart(manual: set<string>, used: set<int>, c: Claims, ds: seq<string>, kept: seq<string>)
    requires Apart(manual, used, c) && kept == Keep(manual, c.names, ds)
    ensures Apart(manual, used, c.(names := c.names + Set(kept), hosts := if kept == [] then c.hosts else c.hosts + [kept]))
  {
    hide HostsApart, StreamsApart, Keep, NoRepeats;
    KeepApart(manual, c.names, ds);
    if kept == [] {
      assert c.names + Set(kept) == c.names;
    } else {
      HostApart(manual, c.names, c.hosts, kept);
    }
  }

  /** However the containers ask and in whatever order, no two kept routes share a name
      or a listen port, and none has a manual one. */
  lemma {:induction false} KeptApart(manual: set<string>, used: set<int>, wishes: seq<Wish>)
    requires forall i :: 0 <= i < |wishes| ==> wishes[i].who != ""
    ensures Apart(manual, used, Granted(manual, used, wishes))
  {
    hide Apart;
    if |wishes| == 0 {
      NothingApart(manual, used);
    } else {
      var front, w := wishes[..|wishes| - 1], wishes[|wishes| - 1];
      KeptApart(manual, used, front);
      var c := Granted(manual, used, front);
      var kept := if w.host.Some? then Keep(manual, c.names, w.host.value) else [];
      if w.host.Some? {
        NamesApart(manual, used, c, w.host.value, kept);
      } else {
        assert Keep(manual, c.names, []) == [];
        NamesApart(manual, used, c, [], kept);
      }
      PortsApart(manual, used, w.who, c.(names := c.names + Set(kept), hosts := if kept == [] then c.hosts else c.hosts + [kept]), w.streams);
    }
  }

  lemma NothingApart(manual: set<string>, used: set<int>)
    ensures Apart(manual, used, NO_CLAIMS)
  {
  }

  /** Every name claimed is kept by a host. */
  ghost predicate ClaimedAreKept(c: Claims) {
    forall d :: d in c.names ==> exists i :: 0 <= i < |c.hosts| && d in c.hosts[i]
  }

  lemma {:induction false} PortsLeaveHosts(used: set<int>, who: string, c: Claims, ss: seq<Stream>)
    ensures TakePorts(used, who, c, ss).hosts == c.hosts && TakePorts(used, who, c, ss).names == c.names
  {
    if |ss| > 0 { PortsLeaveHosts(used, who, c, ss[..|ss| - 1]); }
  }

  lemma ClaimedAreKeptMore(c: Claims, kept: seq<string>)
    requires ClaimedAreKept(c)
    ensures ClaimedAreKept(c.(names := c.names + Set(kept), hosts := if kept == [] then c.hosts else c.hosts + [kept]))
  {
    var e := c.(names := c.names + Set(kept), hosts := if kept == [] then c.hosts else c.hosts + [kept]);
    forall d | d in e.names ensures exists i :: 0 <= i < |e.hosts| && d in e.hosts[i] {
      if d in c.names {
        var i :| 0 <= i < |c.hosts| && d in c.hosts[i];
        assert d in e.hosts[i];
      } else {
        assert d in e.hosts[|c.hosts|];
      }
    }
  }

  /** A name some container asks for and no manual host has or covers is kept by one of
      those that ask: nothing is dropped without need. */
  lemma {:induction false} AskedIsKept(manual: set<string>, used: set<int>, wishes: seq<Wish>, i: nat, d: string)
    requires i < |wishes| && wishes[i].host.Some? && d in wishes[i].host.value && Free(manual, {}, d)
    ensures d in Granted(manual, used, wishes).names
    ensures ClaimedAreKept(Granted(manual, used, wishes))
    decreases |wishes|
  {
    hide ClaimedAreKept, Free;
    var front, w := wishes[..|wishes| - 1], wishes[|wishes| - 1];
    var c := Granted(manual, used, front);
    var kept := if w.host.Some? then Keep(manual, c.names, w.host.value) else [];
    var e := c.(names := c.names + Set(kept), hosts := if kept == [] then c.hosts else c.hosts + [kept]);
    AllKept(manual, used, front);
    ClaimedAreKeptMore(c, kept);
    PortsLeaveHosts(used, w.who, e, w.streams);
    SameOnceKept(e, TakePorts(used, w.who, e, w.streams));
    if i < |front| {
      AskedIsKept(manual, used, front, i, d);
    } else {
      KeepApart(manual, c.names, w.host.value);
      FreeUnlessClaimed(manual, c.names, d);
    }
  }

  lemma FreeUnlessClaimed(manual: set<string>, claimed: set<string>, d: string)
    requires Free(manual, {}, d)
    ensures d in claimed || Free(manual, claimed, d)
  {
  }

  lemma SameOnceKept(c: Claims, d: Claims)
    requires ClaimedAreKept(c) && d.names == c.names && d.hosts == c.hosts
    ensures ClaimedAreKept(d)
  {
  }

  lemma {:induction false} AllKept(manual: set<string>, used: set<int>, wishes: seq<Wish>)
    ensures ClaimedAreKept(Granted(manual, used, wishes))
  {
    if |wishes| > 0 {
      var front, w := wishes[..|wishes| - 1], wishes[|wishes| - 1];
      AllKept(manual, used, front);
      var c := Granted(manual, used, front);
      var kept := if w.host.Some? then Keep(manual, c.names, w.host.value) else [];
      var e := c.(names := c.names + Set(kept), hosts := if kept == [] then c.hosts else c.hosts + [kept]);
      ClaimedAreKeptMore(c, kept);
      PortsLeaveHosts(used, w.who, e, w.streams);
      SameOnceKept(e, TakePorts(used, w.who, e, w.streams));
    }
  }

  // ---- the two together ----

  function AllNames(manual: seq<Host>): set<string> {
    set i, d | 0 <= i < |manual| && d in manual[i].domains :: d
  }

  function Served(hosts: seq<seq<string>>): (r: seq<Host>)
    ensures |r| == |hosts| && forall i :: 0 <= i < |hosts| ==> r[i] == Host(hosts[i], true)
  {
    if |hosts| == 0 then [] else Served(hosts[..|hosts| - 1]) + [Host(hosts[|hosts| - 1], true)]
  }

  /** What the table has for a name as configured. */
  function Entry(t: Table, d: string): Option<Route> {
    if "*." <= d then (if d[2..] in t.wildcard then Some(t.wildcard[d[2..]]) else None)
    else if d in t.exact then Some(t.exact[d]) else None
  }

  lemma {:induction false} NamesPlaced(t: Table, manual: seq<Host>, r: Route, ds: seq<string>)
    requires r.Container? && NoRepeats(ds)
    requires forall d :: d in ds ==> !Configured(manual, d) && Entry(t, d).None?
    ensures forall d :: Entry(PlaceNames(t, manual, r, ds), d) == if d in ds then Some(r) else Entry(t, d)
  {
    hide Configured;
    if |ds| > 0 {
      var front, last := ds[..|ds| - 1], ds[|ds| - 1];
      assert last in ds && ds == front + [last];
      NamesPlaced(t, manual, r, front);
      assert last !in front;
      NamePlaced(PlaceNames(t, manual, r, front), manual, r, last);
    }
  }

  lemma NamePlaced(t: Table, manual: seq<Host>, r: Route, name: string)
    requires r.Container? && !Configured(manual, name) && Entry(t, name).None?
    ensures forall d :: Entry(PlaceName(t, manual, r, name), d) == if d == name then Some(r) else Entry(t, d)
  {
    forall d ensures Entry(PlaceName(t, manual, r, name), d) == if d == name then Some(r) else Entry(t, d) {
      if "*." <= d && "*." <= name && d[2..] == name[2..] {
        assert d == d[..2] + d[2..] && name == name[..2] + name[2..];
      }
    }
  }

  lemma EntryFromManual(t: Table, manual: seq<Host>, d: string)
    requires FromManual(t, manual) && Entry(t, d).Some?
    ensures Configured(manual, d)
  {
    if "*." <= d { assert "*." + d[2..] == d; }
  }

  lemma FreeIsNotConfigured(manual: seq<Host>, d: string)
    requires Free(AllNames(manual), {}, d)
    ensures !Configured(manual, d)
  {
  }

  /** The first n hosts: which of them keeps the name. */
  function Keeper(hosts: seq<seq<string>>, n: nat, d: string): (k: Option<nat>)
    requires n <= |hosts|
    ensures k.Some? ==> k.value < n && d in hosts[k.value]
    ensures k.None? ==> forall i :: 0 <= i < n ==> d !in hosts[i]
  {
    if n == 0 then None else if d in hosts[n - 1] then Some(n - 1) else Keeper(hosts, n - 1, d)
  }

  ghost predicate Placed(manual: seq<Host>, hosts: seq<seq<string>>, n: nat, t: Table)
    requires n <= |hosts|
  {
    forall d :: Entry(t, d)
      == if Keeper(hosts, n, d).Some? then Some(Container(Keeper(hosts, n, d).value)) else Entry(ManualTable(manual, |manual|), d)
  }

  lemma KeptNameIsFree(manual: seq<Host>, used: set<int>, c: Claims, n: nat, t: Table, d: string)
    requires Apart(AllNames(manual), used, c) && n < |c.hosts| && d in c.hosts[n] && Placed(manual, c.hosts, n, t)
    ensures !Configured(manual, d) && Entry(t, d).None?
  {
    hide Configured, Entry, AllNames;
    FreeIsNotConfigured(manual, d);
    TableFromManual(manual, |manual|);
    if Entry(ManualTable(manual, |manual|), d).Some? { EntryFromManual(ManualTable(manual, |manual|), manual, d); }
  }

  lemma {:induction false} PlacedSoFar(manual: seq<Host>, used: set<int>, c: Claims, n: nat)
    requires Apart(AllNames(manual), used, c) && n <= |c.hosts|
    ensures Placed(manual, c.hosts, n, Merged(manual, Served(c.hosts), n))
  {
    hide Configured, Free, Entry, AllNames;
    if n > 0 {
      PlacedSoFar(manual, used, c, n - 1);
      var t := Merged(manual, Served(c.hosts), n - 1);
      forall d | d in c.hosts[n - 1] ensures !Configured(manual, d) && Entry(t, d).None? {
        KeptNameIsFree(manual, used, c, n - 1, t, d);
      }
      NamesPlaced(t, manual, Container(n - 1), c.hosts[n - 1]);
    }
  }

  /** The containers' routes are placed as they were kept: every kept name is in the
      table for the container that keeps it, so that none loses out to another at the
      last moment, and every other name is as the manual hosts alone leave it. */
  lemma PlacedAsKept(manual: seq<Host>, used: set<int>, wishes: seq<Wish>)
    requires forall i :: 0 <= i < |wishes| ==> wishes[i].who != ""
    ensures
      var hosts := Granted(AllNames(manual), used, wishes).hosts;
      var t := Merged(manual, Served(hosts), |hosts|);
      && (forall i, d :: 0 <= i < |hosts| && d in hosts[i] ==> Entry(t, d) == Some(Container(i)))
      && (forall d :: (forall i :: 0 <= i < |hosts| ==> d !in hosts[i]) ==> Entry(t, d) == Entry(ManualTable(manual, |manual|), d))
  {
    hide Entry, AllNames, Granted, Merged, Served;
    var c := Granted(AllNames(manual), used, wishes);
    KeptApart(AllNames(manual), used, wishes);
    PlacedSoFar(manual, used, c, |c.hosts|);
    forall i, d | 0 <= i < |c.hosts| && d in c.hosts[i] ensures Keeper(c.hosts, |c.hosts|, d) == Some(i) {
      var k := Keeper(c.hosts, |c.hosts|, d).value;
      assert forall j :: 0 <= j < |c.hosts| && j != i ==> d !in c.hosts[j];
    }
  }

  // ---- the name a client asks for ----

  /** What a client writes for a host with a port; only between brackets may it hold colons. */
  ghost predicate HostAndPort(s: string, host: string, port: string) {
    && PlainName(port)
    && ((PlainName(host) && s == host + ":" + port)
        || ('[' !in host && ']' !in host && s == "[" + host + "]:" + port))
  }

  lemma LastColon(s: string, i: nat)
    requires i < |s| && s[i] == ':' && ':' !in s[i + 1..]
    ensures PastLast(s, ':') == i + 1
  {
    forall j | i < j < |s| ensures s[j] != ':' { assert s[j] in s[i + 1..]; }
  }

  lemma BracketsDropped(host: string, port: string)
    requires PlainName(port) && '[' !in host && ']' !in host
    ensures HostOfPort("[" + host + "]:" + port) == Some(host)
  {
    var s := "[" + host + "]:" + port;
    assert s[|host| + 3..] == port;
    LastColon(s, |host| + 2);
    assert Index(s, ']') == |host| + 1 by {
      assert s[|host| + 1] == ']' && s[0] == '[';
      assert forall j :: 1 <= j <= |host| ==> s[j] == host[j - 1] && s[j] in host;
    }
    assert s[1..|host| + 1] == host;
    assert s[1..] == host + "]:" + port;
    assert s[|host| + 2..] == ":" + port;
  }

  lemma HostOfPortFound(s: string)
    requires HostOfPort(s).Some?
    ensures exists port :: HostAndPort(s, HostOfPort(s).value, port)
  {
    var i := PastLast(s, ':');
    var host, port := HostOfPort(s).value, s[i..];
    if s[0] == '[' {
      var end := Index(s, ']');
      assert s == "[" + host + "]:" + port;
      assert forall c :: c in port ==> c in s[end + 1..] && c in s[1..];
      assert forall c :: c in host ==> c in s[1..];
    } else {
      assert s == host + ":" + port;
      assert forall c :: c in port || c in host ==> c in s;
    }
    assert HostAndPort(s, host, port);
  }

  lemma HostOfPortMeaning(s: string, host: string)
    ensures HostOfPort(s) == Some(host) <==> exists port :: HostAndPort(s, host, port)
  {
    hide HostOfPort;
    if HostOfPort(s).Some? { HostOfPortFound(s); }
    if exists port :: HostAndPort(s, host, port) {
      var port :| HostAndPort(s, host, port);
      if PlainName(host) && s == host + ":" + port { PortDropped(host, port); } else { BracketsDropped(host, port); }
    }
  }

  lemma OneDotDropped(s: string)
    ensures WithoutDot(s + ".") == s
    ensures (s == "" || s[|s| - 1] != '.') ==> WithoutDot(s) == s
  {
    assert (s + ".")[..|s|] == s;
  }

  /** What a client sends is read in lower case, without a port and without one dot at
      the end. */
  lemma RouteNameMeaning(sent: string, port: string)
    ensures
      var host := Lower(sent);
      && (forall h :: HostAndPort(host, h, port) ==> RouteName(sent) == WithoutDot(h))
      && ((forall h, p :: !HostAndPort(host, h, p)) ==> RouteName(sent) == WithoutDot(host))
  {
    hide HostOfPort, Lower, WithoutDot, HostAndPort;
    var host := Lower(sent);
    forall h ensures HostOfPort(host) == Some(h) <==> exists p :: HostAndPort(host, h, p) { HostOfPortMeaning(host, h); }
    forall h | HostAndPort(host, h, port) ensures RouteName(sent) == WithoutDot(h) { assert HostOfPort(host) == Some(h); }
    if HostOfPort(host).Some? { HostOfPortFound(host); }
  }

  // ---- which manual host answers ----

  /** rest is the name without its first label. */
  ghost predicate OneUp(name: string, rest: string) {
    exists head :: head != "" && '.' !in head && name == head + "." + rest
  }

  lemma OneUpIs(name: string, rest: string)
    ensures OneUp(name, rest) <==> var i := Index(name, '.'); 0 < i < |name| && rest == name[i + 1..]
  {
    hide Index;
    var i := Index(name, '.');
    if OneUp(name, rest) {
      var head :| head != "" && '.' !in head && name == head + "." + rest;
      FirstDot(name, head, rest);
    }
    if 0 < i < |name| && rest == name[i + 1..] { UpFromDot(name, i); }
  }

  lemma UpFromDot(name: string, i: nat)
    requires 0 < i < |name| && name[i] == '.' && forall j :: 0 <= j < i ==> name[j] != '.'
    ensures OneUp(name, name[i + 1..])
  {
    var head := name[..i];
    assert name == head + "." + name[i + 1..];
  }

  lemma FirstDot(name: string, head: string, rest: string)
    requires '.' !in head && name == head + "." + rest
    ensures Index(name, '.') == |head| < |name| && rest == name[|head| + 1..]
  {
    forall j | 0 <= j < |head| ensures name[j] != '.' { assert name[j] == head[j] && head[j] in head; }
    assert name[|head|] == '.';
  }

  /** A name is covered by the wildcard over what follows its first label, and one that is
      a wildcard or has no second label by none. */
  lemma CoveringMeaning(d: string, rest: string)
    ensures !("*." <= d) && OneUp(d, rest) ==> Covering(d) == "*." + rest
    ensures Covering(d) != "" ==> !("*." <= d) && exists r :: OneUp(d, r) && Covering(d) == "*." + r
  {
    hide OneUp;
    OneUpIs(d, rest);
    var i := Index(d, '.');
    if 0 < i < |d| { OneUpIs(d, d[i + 1..]); }
  }

  /** Of the first n manual hosts that are served, i is the last that has the name. */
  ghost predicate LastToHave(manual: seq<Host>, n: nat, d: string, i: nat)
    requires n <= |manual|
  {
    && i < n && manual[i].enabled && d in manual[i].domains
    && forall j :: i < j < n ==> !(manual[j].enabled && d in manual[j].domains)
  }

  /** The same of the wildcard over the names one label below rest. */
  ghost predicate LastOver(manual: seq<Host>, n: nat, rest: string, i: nat)
    requires n <= |manual|
  {
    LastToHave(manual, n, "*." + rest, i)
  }

  ghost predicate AllManual(entries: map<string, Route>) { forall k :: k in entries ==> entries[k].Manual? }

  /** The entries are the names of the manual hosts served, each for the last that has it. */
  ghost predicate ExactServed(exact: map<string, Route>, manual: seq<Host>, n: nat)
    requires n <= |manual|
  {
    AllManual(exact) && forall k, i: nat :: LastToHave(manual, n, k, i) && !("*." <= k) <==> k in exact && exact[k] == Manual(i)
  }

  ghost predicate WildcardsServed(wildcard: map<string, Route>, manual: seq<Host>, n: nat)
    requires n <= |manual|
  {
    AllManual(wildcard) && forall k, i: nat :: LastOver(manual, n, k, i) <==> k in wildcard && wildcard[k] == Manual(i)
  }

  /** The old entries, and r under the names of more. */
  ghost predicate Overlaid(was: map<string, Route>, now: map<string, Route>, more: string -> bool, r: Route) {
    && (forall k :: k in now <==> k in was || more(k))
    && (forall k :: k in now ==> now[k] == if more(k) then r else was[k])
  }

  lemma {:induction false} NamesLaid(t: Table, manual: seq<Host>, h: nat, ds: seq<string>)
    ensures
      var u := PlaceNames(t, manual, Manual(h), ds);
      && (forall k :: k in u.exact <==> k in t.exact || (k in ds && !("*." <= k)))
      && (forall k :: k in u.wildcard <==> k in t.wildcard || "*." + k in ds)
      && (forall k :: k in u.exact ==> u.exact[k] == if k in ds && !("*." <= k) then Manual(h) else t.exact[k])
      && (forall k :: k in u.wildcard ==> u.wildcard[k] == if "*." + k in ds then Manual(h) else t.wildcard[k])
  {
    if |ds| > 0 {
      var front, d := ds[..|ds| - 1], ds[|ds| - 1];
      assert ds == front + [d];
      NamesLaid(t, manual, h, front);
      if "*." <= d { assert d == "*." + d[2..]; }
      forall k ensures "*." + k == d <==> "*." <= d && k == d[2..] {
        if "*." + k == d { assert ("*." + k)[2..] == k; }
      }
    }
  }

  lemma NamesInTable(t: Table, manual: seq<Host>, h: nat, ds: seq<string>)
    ensures
      var u := PlaceNames(t, manual, Manual(h), ds);
      && Overlaid(t.exact, u.exact, k => k in ds && !("*." <= k), Manual(h))
      && Overlaid(t.wildcard, u.wildcard, k => "*." + k in ds, Manual(h))
  {
    hide PlaceNames;
    NamesLaid(t, manual, h, ds);
  }

  lemma HaveMore(manual: seq<Host>, n: nat, d: string, i: nat)
    requires 0 < n <= |manual|
    ensures LastToHave(manual, n, d, i) <==>
      if manual[n - 1].enabled && d in manual[n - 1].domains then i == n - 1 else LastToHave(manual, n - 1, d, i)
  {
  }

  lemma ExactMore(was: map<string, Route>, now: map<string, Route>, manual: seq<Host>, n: nat)
    requires 0 < n <= |manual| && ExactServed(was, manual, n - 1)
    requires if manual[n - 1].enabled
      then Overlaid(was, now, k => k in manual[n - 1].domains && !("*." <= k), Manual(n - 1)) else now == was
    ensures ExactServed(now, manual, n)
  {
    hide LastToHave;
    forall k, i: nat ensures LastToHave(manual, n, k, i) && !("*." <= k) <==> k in now && now[k] == Manual(i) {
      HaveMore(manual, n, k, i);
    }
  }

  lemma WildcardsMore(was: map<string, Route>, now: map<string, Route>, manual: seq<Host>, n: nat)
    requires 0 < n <= |manual| && WildcardsServed(was, manual, n - 1)
    requires if manual[n - 1].enabled
      then Overlaid(was, now, k => "*." + k in manual[n - 1].domains, Manual(n - 1)) else now == was
    ensures WildcardsServed(now, manual, n)
  {
    hide LastToHave;
    forall k, i: nat ensures LastOver(manual, n, k, i) <==> k in now && now[k] == Manual(i) {
      HaveMore(manual, n, "*." + k, i);
      assert LastOver(manual, n - 1, k, i) <==> k in was && was[k] == Manual(i);
    }
  }

  lemma {:induction false} TableHoldsServed(manual: seq<Host>, n: nat)
    requires n <= |manual|
    ensures ExactServed(ManualTable(manual, n).exact, manual, n) && WildcardsServed(ManualTable(manual, n).wildcard, manual, n)
  {
    hide LastToHave, PlaceNames, Overlaid;
    if n == 0 {
      forall k, i: nat ensures !LastToHave(manual, 0, k, i) { NoneToHave(manual, k, i); }
    } else {
      hide ExactServed, WildcardsServed;
      var t, u := ManualTable(manual, n - 1), ManualTable(manual, n);
      TableHoldsServed(manual, n - 1);
      NamesInTable(t, manual, n - 1, manual[n - 1].domains);
      ExactMore(t.exact, u.exact, manual, n);
      WildcardsMore(t.wildcard, u.wildcard, manual, n);
    }
  }

  lemma NoneToHave(manual: seq<Host>, d: string, i: nat)
    ensures !LastToHave(manual, 0, d, i)
  {
  }

  /** Of the manual hosts served the last that has the name exactly, or where none has,
      the last that has the wildcard one label up. */
  ghost predicate AnswersFor(manual: seq<Host>, name: string, i: nat) {
    var n := |manual|;
    || (!("*." <= name) && LastToHave(manual, n, name, i))
    || (("*." <= name || forall j: nat :: !LastToHave(manual, n, name, j))
        && exists rest :: OneUp(name, rest) && LastOver(manual, n, rest, i))
  }

  lemma ManualResolves(t: Table, manual: seq<Host>, name: string, i: nat)
    requires ExactServed(t.exact, manual, |manual|) && WildcardsServed(t.wildcard, manual, |manual|)
    ensures Resolve(t, name) == Some(Manual(i)) <==> AnswersFor(manual, name, i)
  {
    hide LastToHave;
    var at := Index(name, '.');
    forall rest ensures OneUp(name, rest) <==> 0 < at < |name| && rest == name[at + 1..] { OneUpIs(name, rest); }
    hide OneUp;
    if 0 < at < |name| {
      var rest := name[at + 1..];
      assert LastOver(manual, |manual|, rest, i) <==> rest in t.wildcard && t.wildcard[rest] == Manual(i);
    }
  }

  /** A lookup is answered by a manual host exactly if it is the last of those served
      that has the name, or where none has, the wildcard over it: by none that is
      disabled, and by none for another's name. */
  lemma AnsweredByManual(manual: seq<Host>, containers: seq<Host>, sent: string, i: nat)
    ensures Lookup(Merged(manual, containers, |containers|), sent) == Some(Manual(i)) <==> AnswersFor(manual, RouteName(sent), i)
  {
    hide RouteName, Merged, ManualTable, ExactServed, WildcardsServed, AnswersFor, Configured, FromManual;
    TableHoldsServed(manual, |manual|);
    ManualResolves(ManualTable(manual, |manual|), manual, RouteName(sent), i);
    MergedBeside(manual, containers, |containers|);
    if Lookup(ManualTable(manual, |manual|), sent).Some? { ManualHostsWin(manual, containers, sent); }
  }

  // ---- a free port is kept ----

  predicate Taken(c: Claims, port: int) { port in c.ports && c.ports[port] != "" }

  /** The ports taken are those of the streams kept. */
  ghost predicate TakenAreKept(c: Claims) {
    forall p :: Taken(c, p) ==> exists k :: 0 <= k < |c.streams| && c.streams[k].port == p
  }

  lemma {:induction false} PortsTaken(used: set<int>, who: string, c: Claims, ss: seq<Stream>)
    requires who != ""
    ensures var after := TakePorts(used, who, c, ss);
      && (forall p :: Taken(c, p) ==> Taken(after, p))
      && (forall j :: 0 <= j < |ss| && ss[j].port !in used ==> Taken(after, ss[j].port))
      && (TakenAreKept(c) ==> TakenAreKept(after))
      && (forall s :: s in after.streams ==> s in c.streams || s in ss)
  {
    if |ss| > 0 {
      var front, s := ss[..|ss| - 1], ss[|ss| - 1];
      assert ss == front + [s];
      PortsTaken(used, who, c, front);
      hide TakePorts, TakenAreKept;
      PortTaken(used, who, TakePorts(used, who, c, front), s);
    }
  }

  lemma PortTaken(used: set<int>, who: string, c: Claims, s: Stream)
    requires who != ""
    ensures var after := TakePort(used, who, c, s);
      && (forall p :: Taken(c, p) ==> Taken(after, p))
      && (s.port !in used ==> Taken(after, s.port))
      && (TakenAreKept(c) ==> TakenAreKept(after))
      && (forall x :: x in after.streams ==> x in c.streams || x == s)
  {
    var after := TakePort(used, who, c, s);
    if TakenAreKept(c) && after != c {
      forall p | Taken(after, p) ensures exists k :: 0 <= k < |after.streams| && after.streams[k].port == p {
        if p == s.port {
          assert after.streams[|c.streams|].port == p;
        } else {
          assert Taken(c, p);
          var k :| 0 <= k < |c.streams| && c.streams[k].port == p;
          assert after.streams[k].port == p;
        }
      }
    }
  }

  ghost predicate Asked(wishes: seq<Wish>, s: Stream) { exists i :: 0 <= i < |wishes| && s in wishes[i].streams }

  lemma {:induction false} PortsAsked(manual: set<string>, used: set<int>, wishes: seq<Wish>)
    requires forall i :: 0 <= i < |wishes| ==> wishes[i].who != ""
    ensures var c := Granted(manual, used, wishes);
      && (forall s :: Asked(wishes, s) && s.port !in used ==> Taken(c, s.port))
      && TakenAreKept(c) && (forall s :: s in c.streams ==> Asked(wishes, s))
  {
    if |wishes| > 0 {
      var front, w := wishes[..|wishes| - 1], wishes[|wishes| - 1];
      PortsAsked(manual, used, front);
      var c := Granted(manual, used, front);
      var kept := if w.host.Some? then Keep(manual, c.names, w.host.value) else [];
      var e := c.(names := c.names + Set(kept), hosts := if kept == [] then c.hosts else c.hosts + [kept]);
      PortsTaken(used, w.who, e, w.streams);
      forall s ensures Asked(wishes, s) <==> Asked(front, s) || s in w.streams { AskedMore(wishes, s); }
      hide Asked, TakePorts;
      forall p ensures Taken(e, p) <==> Taken(c, p) { }
      assert TakenAreKept(e);
    }
  }

  lemma AskedMore(wishes: seq<Wish>, s: Stream)
    requires |wishes| > 0
    ensures Asked(wishes, s) <==> Asked(wishes[..|wishes| - 1], s) || s in wishes[|wishes| - 1].streams
  {
    var front := wishes[..|wishes| - 1];
    if Asked(front, s) {
      var i :| 0 <= i < |front| && s in front[i].streams;
      assert s in wishes[i].streams;
    }
    if Asked(wishes, s) {
      var i :| 0 <= i < |wishes| && s in wishes[i].streams;
      assert i < |front| ==> s in front[i].streams;
    }
  }

  /** A port some container asks for and no manual stream uses is kept, for a stream that
      was asked for. */
  lemma AskedPortIsKept(manual: set<string>, used: set<int>, wishes: seq<Wish>, s: Stream)
    requires (forall i :: 0 <= i < |wishes| ==> wishes[i].who != "") && Asked(wishes, s) && s.port !in used
    ensures exists x :: x in Granted(manual, used, wishes).streams && x.port == s.port && Asked(wishes, x)
  {
    hide Granted, Asked;
    PortsAsked(manual, used, wishes);
    var c := Granted(manual, used, wishes);
    var k :| 0 <= k < |c.streams| && c.streams[k].port == s.port;
    assert c.streams[k] in c.streams;
  }
}
