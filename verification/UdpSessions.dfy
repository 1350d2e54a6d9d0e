/** The sessions of a UDP listener: one per client address and port, capped in all and
    per address, with a reader each.

    On values the listener is its table of sessions and the readers running. The class
    keeps a count per address beside the table, as the source does, and is proved to
    step as the values do. Every step is one critical section; the read loop, the
    reaper, the readers and stop may take turns in any order. */
module UdpSessions {
  import opened Basics

  const IDLE := 120

  datatype Client = Client(ip: string, port: int)

  /** `conn` is the identity of the session's own connection to the target. */
  datatype Session = Session(conn: nat, lastSeen: int)

  /** `readers` maps a connection to the client whose session it was begun for, until
      its reader exits; `next` is a connection not used yet. */
  datatype Udp = Udp(sessions: map<Client, Session>, readers: map<nat, Client>, next: nat, begun: nat, ended: nat)

  datatype Caps = Caps(sessions: nat, perIp: nat)

  datatype Outcome = Refused | Full | SourceFull | NoTarget | Sent(conn: nat)

  datatype Event =
    | Packet(client: Client, now: int, allowed: bool, dials: bool)
    | Tick(now: int)
    | ReaderExits(conn: nat)
    | Stop

  const START := Udp(map[], map[], 0, 0, 0)

  function From(sessions: map<Client, Session>, ip: string): set<Client> { set c | c in sessions && c.ip == ip }

  function CountFrom(sessions: map<Client, Session>, ip: string): nat { |From(sessions, ip)| }

  function OnPacket(u: Udp, caps: Caps, c: Client, now: int, allowed: bool, dials: bool): (Udp, Outcome) {
    if !allowed then (u, Refused)
    else if c in u.sessions then
      (u.(sessions := u.sessions[c := u.sessions[c].(lastSeen := now)]), Sent(u.sessions[c].conn))
    else if |u.sessions| >= caps.sessions then (u, Full)
    else if CountFrom(u.sessions, c.ip) >= caps.perIp then (u, SourceFull)
    else if !dials then (u, NoTarget)
    else
      (Udp(u.sessions[c := Session(u.next, now)], u.readers[u.next := c], u.next + 1, u.begun + 1, u.ended), Sent(u.next))
  }

  /** What is left when the sessions of some clients are forgotten. */
  function Forget(u: Udp, gone: set<Client>): Udp {
    u.(sessions := u.sessions - gone, ended := u.ended + |u.sessions.Keys * gone|)
  }

  function IdleAt(sessions: map<Client, Session>, now: int): set<Client> {
    set c | c in sessions && now - sessions[c].lastSeen > IDLE
  }

  /** A reader takes its session with it only if that is still the one it reads for. */
  function OnExit(u: Udp, conn: nat): Udp {
    if conn !in u.readers then u
    else
      var c := u.readers[conn];
      var rest := u.(readers := u.readers - {conn});
      if c in u.sessions && u.sessions[c].conn == conn then Forget(rest, {c}) else rest
  }

  function Next(u: Udp, caps: Caps, e: Event): Udp {
    match e
    case Packet(c, now, allowed, dials) => OnPacket(u, caps, c, now, allowed, dials).0
    case Tick(now) => Forget(u, IdleAt(u.sessions, now))
    case ReaderExits(conn) => OnExit(u, conn)
    case Stop => Forget(u, u.sessions.Keys)
  }

  function After(caps: Caps, events: seq<Event>): Udp {
    if |events| == 0 then START
    else Next(After(caps, events[..|events| - 1]), caps, events[|events| - 1])
  }

  // ---- counting ----

  lemma CountAdded(sessions: map<Client, Session>, c: Client, s: Session, ip: string)
    ensures CountFrom(sessions[c := s], ip) == CountFrom(sessions, ip) + if c !in sessions && c.ip == ip then 1 else 0
  {
    if c !in sessions && c.ip == ip {
      assert From(sessions[c := s], ip) == From(sessions, ip) + {c};
    } else {
      assert From(sessions[c := s], ip) == From(sessions, ip);
    }
  }

  lemma CountRemoved(sessions: map<Client, Session>, c: Client, ip: string)
    requires c in sessions
    ensures CountFrom(sessions, ip) == CountFrom(sessions - {c}, ip) + if c.ip == ip then 1 else 0
  {
    CountAdded(sessions - {c}, c, sessions[c], ip);
    assert (sessions - {c})[c := sessions[c]] == sessions;
  }

  lemma CountOfSome(sessions: map<Client, Session>, gone: set<Client>, ip: string)
    ensures CountFrom(sessions - gone, ip) <= CountFrom(sessions, ip)
    ensures |sessions - gone| + |sessions.Keys * gone| == |sessions|
  {
    var left, all := From(sessions - gone, ip), From(sessions, ip);
    assert all == left + (all - left);
    assert |all| == |left| + |all - left|;
    assert (sessions - gone).Keys == sessions.Keys - gone;
    assert sessions.Keys == (sessions.Keys - gone) + (sessions.Keys * gone);
    assert |sessions.Keys| == |sessions.Keys - gone| + |sessions.Keys * gone|;
  }

  // ---- what always holds ----

  /** Both caps hold, sessions begun less sessions ended are those open, every connection in the table
      is its own and still has the reader that was started for it. */
  ghost predicate Inv(caps: Caps, u: Udp) {
    && |u.sessions| <= caps.sessions
    && (forall ip :: CountFrom(u.sessions, ip) <= caps.perIp)
    && u.begun - u.ended == |u.sessions|
    && (forall conn :: conn in u.readers ==> conn < u.next)
    && (forall c :: c in u.sessions ==> u.sessions[c].conn in u.readers && u.readers[u.sessions[c].conn] == c)
  }

  lemma InvForget(caps: Caps, u: Udp, gone: set<Client>)
    requires Inv(caps, u)
    ensures Inv(caps, Forget(u, gone))
  {
    forall ip ensures CountFrom(Forget(u, gone).sessions, ip) <= caps.perIp { CountOfSome(u.sessions, gone, ip); }
    CountOfSome(u.sessions, gone, "");
  }

  lemma CapsHold(caps: Caps, u: Udp, c: Client, s: Session, after: map<Client, Session>)
    requires Inv(caps, u)
    requires c in u.sessions || (|u.sessions| < caps.sessions && CountFrom(u.sessions, c.ip) < caps.perIp)
    requires after == u.sessions[c := s]
    ensures |after| <= caps.sessions
    ensures |after| == |u.sessions| + if c in u.sessions then 0 else 1
    ensures forall ip :: CountFrom(after, ip) <= caps.perIp
  {
    forall ip ensures CountFrom(after, ip) <= caps.perIp { CountAdded(u.sessions, c, s, ip); }
    assert after.Keys == u.sessions.Keys + {c};
  }

  lemma InvPacket(caps: Caps, u: Udp, c: Client, now: int, allowed: bool, dials: bool)
    requires Inv(caps, u)
    ensures Inv(caps, OnPacket(u, caps, c, now, allowed, dials).0)
  {
    hide CountFrom;
    var v := OnPacket(u, caps, c, now, allowed, dials).0;
    if v != u {
      CapsHold(caps, u, c, v.sessions[c], v.sessions);
    }
  }

  lemma InvExit(caps: Caps, u: Udp, conn: nat)
    requires Inv(caps, u)
    ensures Inv(caps, OnExit(u, conn))
  {
    if conn in u.readers {
      var c := u.readers[conn];
      if c in u.sessions && u.sessions[c].conn == conn {
        InvForget(caps, u, {c});
      }
    }
  }

  lemma {:induction false} InvAlways(caps: Caps, events: seq<Event>)
    ensures Inv(caps, After(caps, events))
  {
    hide Inv, Next;
    if |events| == 0 {
      InvAtStart(caps);
    } else {
      var u, e := After(caps, events[..|events| - 1]), events[|events| - 1];
      InvAlways(caps, events[..|events| - 1]);
      InvNext(caps, u, e);
    }
  }

  lemma InvAtStart(caps: Caps)
    ensures Inv(caps, START)
  {
    forall ip ensures CountFrom(START.sessions, ip) == 0 { assert From(START.sessions, ip) == {}; }
  }

  lemma InvNext(caps: Caps, u: Udp, e: Event)
    requires Inv(caps, u)
    ensures Inv(caps, Next(u, caps, e))
  {
    hide Inv;
    match e
    case Packet(c, now, allowed, dials) => InvPacket(caps, u, c, now, allowed, dials);
    case Tick(now) => InvForget(caps, u, IdleAt(u.sessions, now));
    case ReaderExits(conn) => InvExit(caps, u, conn);
    case Stop => InvForget(caps, u, u.sessions.Keys);
  }

  ghost predicate Heard(events: seq<Event>, c: Client, i: nat)
    requires i < |events|
  {
    events[i].Packet? && events[i].client == c && events[i].allowed
  }

  /** The last packet let in from the client came at the time t. */
  ghost predicate LastHeard(events: seq<Event>, c: Client, t: int) {
    exists i :: 0 <= i < |events| && Heard(events, c, i) && events[i].now == t
      && forall j :: i < j < |events| ==> !Heard(events, c, j)
  }

  lemma HeardMore(events: seq<Event>, e: Event, c: Client, t: int)
    ensures LastHeard(events + [e], c, t) <==>
      if e.Packet? && e.client == c && e.allowed then e.now == t else LastHeard(events, c, t)
  {
    var more, n := events + [e], |events|;
    forall i | 0 <= i < n ensures Heard(more, c, i) <==> Heard(events, c, i) { assert more[i] == events[i]; }
    assert Heard(more, c, n) <==> e.Packet? && e.client == c && e.allowed;
    if LastHeard(more, c, t) {
      var i :| 0 <= i < |more| && Heard(more, c, i) && more[i].now == t && forall j :: i < j < |more| ==> !Heard(more, c, j);
      assert i < n ==> !Heard(more, c, n);
    }
    if !Heard(more, c, n) && LastHeard(events, c, t) {
      var i :| 0 <= i < |events| && Heard(events, c, i) && events[i].now == t && forall j :: i < j < |events| ==> !Heard(events, c, j);
      assert Heard(more, c, i) && more[i].now == t;
    }
  }

  /** A session was last used when the last packet let in from its client came. */
  lemma {:induction false} LastSeenIsLastHeard(caps: Caps, events: seq<Event>, c: Client)
    requires c in After(caps, events).sessions
    ensures LastHeard(events, c, After(caps, events).sessions[c].lastSeen)
  {
    hide LastHeard;
    if |events| > 0 {
      var front, e := events[..|events| - 1], events[|events| - 1];
      assert events == front + [e];
      HeardMore(front, e, c, After(caps, events).sessions[c].lastSeen);
      if c in After(caps, front).sessions { LastSeenIsLastHeard(caps, front, c); }
    }
  }

  lemma NoRepeatedTime(events: seq<Event>, c: Client, t: int, u: int)
    requires LastHeard(events, c, t) && LastHeard(events, c, u)
    ensures t == u
  {
  }

  lemma StepEnds(caps: Caps, u: Udp, e: Event, c: Client)
    requires Inv(caps, u) && c in u.sessions
    ensures
      var after := Next(u, caps, e);
      && (c in after.sessions ==> after.sessions[c].conn == u.sessions[c].conn)
      && (c !in after.sessions <==>
            e == ReaderExits(u.sessions[c].conn) || e.Stop? || (e.Tick? && e.now - u.sessions[c].lastSeen > 2 * 60))
  {
    hide CountFrom;
  }

  /** A session ends exactly by the exit of its own reader, by stop, or by a sweep more
      than two minutes after the last packet let in from its client: never by the reader
      of an earlier session of the same client. */
  lemma EndsForAReason(caps: Caps, events: seq<Event>, e: Event, c: Client)
    requires c in After(caps, events).sessions
    ensures
      var s := After(caps, events).sessions[c];
      var after := After(caps, events + [e]);
      && (c in after.sessions ==> after.sessions[c].conn == s.conn)
      && (c !in after.sessions <==>
            e == ReaderExits(s.conn) || e.Stop? || (e.Tick? && exists t :: LastHeard(events, c, t) && e.now - t > 2 * 60))
  {
    hide LastHeard, Next, Inv;
    assert (events + [e])[..|events|] == events;
    var u := After(caps, events);
    assert After(caps, events + [e]) == Next(u, caps, e);
    InvAlways(caps, events);
    StepEnds(caps, u, e, c);
    LastSeenIsLastHeard(caps, events, c);
    forall t | LastHeard(events, c, t) ensures t == u.sessions[c].lastSeen { NoRepeatedTime(events, c, t, u.sessions[c].lastSeen); }
  }

  /** A session that has begun never outlives its reader, so once every reader has
      exited, stopped or not and whatever packet came last, nothing is left open. */
  lemma NoReaderNoSession(caps: Caps, events: seq<Event>)
    requires After(caps, events).readers == map[]
    ensures After(caps, events).sessions == map[] && After(caps, events).begun == After(caps, events).ended
  {
    InvAlways(caps, events);
    var u := After(caps, events);
    assert forall c :: c in u.sessions ==> u.sessions[c].conn in u.readers;
    assert u.sessions == map[];
  }

  /** A client with a session is served however full the table is; a packet changes no
      other client's session, and a dropped one nothing at all. */
  lemma ServedOrDropped(caps: Caps, u: Udp, c: Client, now: int, allowed: bool, dials: bool)
    requires Inv(caps, u)
    ensures
      var (v, out) := OnPacket(u, caps, c, now, allowed, dials);
      && (allowed && c in u.sessions ==> out == Sent(u.sessions[c].conn))
      && (!out.Sent? ==> v == u)
      && (forall d :: d != c ==> (d in v.sessions <==> d in u.sessions) && (d in u.sessions ==> v.sessions[d] == u.sessions[d]))
      && (out.Sent? && c !in u.sessions ==> forall d :: d in u.sessions ==> u.sessions[d].conn != out.conn)
      && (allowed && dials && c !in u.sessions ==>
            (out.Sent? <==> |u.sessions| < caps.sessions && CountFrom(u.sessions, c.ip) < caps.perIp))
  {
  }

  // ---- the listener ----

  class Listener {
    const caps: Caps
    var sessions: map<Client, Session>
    var perIP: map<string, int>
    var readers: map<nat, Client>
    var next: nat
    var begun: nat
    var ended: nat

    ghost function State(): Udp
      reads this
    {
      Udp(sessions, readers, next, begun, ended)
    }

    /** The counts per address are those of the table, with no entry for none. */
    ghost predicate Valid()
      reads this
    {
      Inv(caps, State()) && Agrees(perIP, sessions)
    }

    constructor (caps: Caps)
      ensures Valid() && State() == START && this.caps == caps
    {
      this.caps := caps;
      sessions, perIP, readers, next, begun, ended := map[], map[], map[], 0, 0, 0;
      new;
      InvAtStart(caps);
      forall ip ensures CountFrom(sessions, ip) == 0 { assert From(sessions, ip) == {}; }
    }

    method Count(ip: string) returns (n: int)
      requires Valid()
      ensures n == CountFrom(sessions, ip)
    {
      n := if ip in perIP then perIP[ip] else 0;
    }

    /** One packet from a client; `dials` is whether the target can be reached. */
    method Packet(c: Client, now: int, allowed: bool, dials: bool) returns (out: Outcome)
      requires Valid()
      modifies this
      ensures Valid()
      ensures (State(), out) == OnPacket(old(State()), caps, c, now, allowed, dials)
      ensures allowed && c in old(sessions) ==> out == Sent(old(sessions)[c].conn)
      ensures !out.Sent? ==> State() == old(State())
      ensures forall d :: d != c ==> (d in sessions <==> d in old(sessions)) && (d in old(sessions) ==> sessions[d] == old(sessions)[d])
      ensures out.Sent? && c !in old(sessions) ==> forall d :: d in old(sessions) ==> old(sessions)[d].conn != out.conn
    {
      hide Inv, Agrees, CountFrom;
      ServedOrDropped(caps, State(), c, now, allowed, dials);
      InvPacket(caps, State(), c, now, allowed, dials);
      if !allowed { return Refused; }
      if c !in sessions {
        if |sessions| >= caps.sessions { return Full; }
        var n := Count(c.ip);
        if n >= caps.perIp { return SourceFull; }
        if !dials { return NoTarget; }
        Counted(perIP, sessions, c, Session(next, now));
        sessions := sessions[c := Session(next, now)];
        perIP := perIP[c.ip := n + 1];
        readers := readers[next := c];
        next, begun := next + 1, begun + 1;
        return Sent(sessions[c].conn);
      }
      Recounted(perIP, sessions, c, sessions[c].(lastSeen := now));
      sessions := sessions[c := sessions[c].(lastSeen := now)];
      return Sent(sessions[c].conn);
    }

    /** Takes one session out of the table and its address's count. */
    method ForgetOne(c: Client)
      requires Agrees(perIP, sessions) && c in sessions
      modifies this`sessions, this`perIP, this`ended
      ensures Agrees(perIP, sessions)
      ensures sessions == old(sessions) - {c} && ended == old(ended) + 1
    {
      Uncounted(perIP, sessions, c);
      sessions := sessions - {c};
      var n := perIP[c.ip] - 1;
      if n <= 0 {
        perIP := perIP - {c.ip};
      } else {
        perIP := perIP[c.ip := n];
      }
      ended := ended + 1;
    }

    /** Forgets the sessions of the clients given, one by one in no particular order. */
    method ForgetAll(gone: set<Client>)
      requires Valid() && gone <= sessions.Keys
      modifies this`sessions, this`perIP, this`ended
      ensures Valid() && State() == Forget(old(State()), gone)
    {
      hide Inv, Agrees, Forget;
      ghost var before := State();
      InvForget(caps, before, gone);
      ForgetEach(gone);
      AllGone(before, State(), gone);
    }

    method ForgetEach(gone: set<Client>)
      requires Agrees(perIP, sessions) && gone <= sessions.Keys
      modifies this`sessions, this`perIP, this`ended
      ensures Agrees(perIP, sessions)
      ensures sessions == old(sessions) - gone && ended == old(ended) + |gone|
    {
      hide Agrees;
      ghost var before, done: set<Client> := sessions, {};
      var left := gone;
      while left != {}
        invariant done + left == gone && done !! left
        invariant Agrees(perIP, sessions)
        invariant sessions == before - done && ended == old(ended) + |done|
        decreases |left|
      {
        var c :| c in left;
        ForgetOne(c);
        left, done := left - {c}, done + {c};
        assert sessions == before - done;
      }
    }

    method Reap(now: int)
      requires Valid()
      modifies this`sessions, this`perIP, this`ended
      ensures Valid() && State() == Next(old(State()), caps, Tick(now))
    {
      var idle := set c | c in sessions && now - sessions[c].lastSeen > IDLE;
      ForgetAll(idle);
    }

    method ReaderExit(conn: nat)
      requires Valid() && conn in readers
      modifies this
      ensures Valid() && State() == Next(old(State()), caps, ReaderExits(conn))
    {
      hide Inv;
      InvExit(caps, State(), conn);
      var c := readers[conn];
      readers := readers - {conn};
      if c in sessions && sessions[c].conn == conn {
        assert sessions.Keys * {c} == {c};
        ForgetOne(c);
      }
    }

    method Stop()
      requires Valid()
      modifies this`sessions, this`perIP, this`ended
      ensures Valid() && State() == Next(old(State()), caps, Event.Stop) && sessions == map[] && perIP == map[]
    {
      ForgetAll(sessions.Keys);
      forall ip ensures ip !in perIP { assert From(sessions, ip) == {}; }
    }
  }

  lemma AllGone(u: Udp, v: Udp, gone: set<Client>)
    requires gone <= u.sessions.Keys
    requires v == u.(sessions := u.sessions - gone, ended := u.ended + |gone|)
    ensures v == Forget(u, gone)
  {
    assert u.sessions.Keys * gone == gone;
  }

  ghost predicate Agrees(perIP: map<string, int>, sessions: map<Client, Session>) {
    forall ip :: (ip in perIP <==> CountFrom(sessions, ip) > 0) && (ip in perIP ==> perIP[ip] == CountFrom(sessions, ip))
  }

  lemma Counted(perIP: map<string, int>, sessions: map<Client, Session>, c: Client, s: Session)
    requires Agrees(perIP, sessions) && c !in sessions
    ensures Agrees(perIP[c.ip := CountFrom(sessions, c.ip) + 1], sessions[c := s])
  {
    forall ip ensures CountFrom(sessions[c := s], ip) == CountFrom(sessions, ip) + if c.ip == ip then 1 else 0 {
      CountAdded(sessions, c, s, ip);
    }
  }

  lemma Recounted(perIP: map<string, int>, sessions: map<Client, Session>, c: Client, s: Session)
    requires Agrees(perIP, sessions) && c in sessions
    ensures Agrees(perIP, sessions[c := s])
  {
    forall ip ensures CountFrom(sessions[c := s], ip) == CountFrom(sessions, ip) { CountAdded(sessions, c, s, ip); }
  }

  lemma Uncounted(perIP: map<string, int>, sessions: map<Client, Session>, c: Client)
    requires Agrees(perIP, sessions) && c in sessions
    ensures c.ip in perIP
    ensures
      var n := perIP[c.ip] - 1;
      Agrees(if n <= 0 then perIP - {c.ip} else perIP[c.ip := n], sessions - {c})
  {
    CountRemoved(sessions, c, c.ip);
    forall ip ensures CountFrom(sessions, ip) == CountFrom(sessions - {c}, ip) + if c.ip == ip then 1 else 0 {
      CountRemoved(sessions, c, ip);
    }
  }
}
