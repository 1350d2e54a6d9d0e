/** The VPN authorization lease of one owner: logins, ticks, renewals in flight,
    transient failures and administrative ends, interleaved statement by statement.

    The database row changes only by the store's statements, each atomic and
    stamped with a generation. Rows of different owners are never touched by the
    same statement, so one row is the whole story. Times are integers
    (nanoseconds); the environment moves the clock forward between steps. */
module Lease {
  import opened Basics

  const MINUTE: int := 60_000_000_000
  const HOUR: int := 60 * MINUTE
  const DAY: int := 24 * HOUR

  datatype Status = Active | Lapsed | Ended

  /** The row. `leaseLen` and `graceLen` record the lengths the deadlines were
      last computed with; the source keeps them only as the deadlines. */
  datatype Session = Session(
    renewedAt: int, leaseUntil: int, graceUntil: int, hardUntil: int,
    transient: bool, status: Status, generation: nat,
    leaseLen: int, graceLen: int)

  /** The settings as read: minutes of lease, minutes of grace, days of a session. */
  datatype Settings = Settings(leaseMinutes: nat, graceMinutes: nat, sessionDays: nat)

  function LeaseLen(st: Settings): int {
    if st.leaseMinutes * MINUTE < 2 * MINUTE then 2 * MINUTE else st.leaseMinutes * MINUTE
  }

  function GraceLen(st: Settings): int {
    if st.graceMinutes * MINUTE > HOUR then HOUR else st.graceMinutes * MINUTE
  }

  /** The row with both deadlines counted from now by the settings. */
  function NewLease(now: int, s: Session, st: Settings): Session {
    s.(renewedAt := now, leaseUntil := now + LeaseLen(st), graceUntil := now + LeaseLen(st) + GraceLen(st),
       leaseLen := LeaseLen(st), graceLen := GraceLen(st))
  }

  function Min(a: int, b: int): int { if a <= b then a else b }

  /** Neither deadline beyond the hard limit. */
  function CapLease(s: Session): Session {
    s.(leaseUntil := Min(s.leaseUntil, s.hardUntil), graceUntil := Min(s.graceUntil, s.hardUntil))
  }

  function AccessUntil(s: Session): int {
    var until := if s.transient && s.graceUntil > s.leaseUntil then s.graceUntil else s.leaseUntil;
    if s.hardUntil < until then s.hardUntil else until
  }

  predicate Live(s: Session, now: int) { s.status == Active && now < AccessUntil(s) }

  // ---- what the identity provider's answers amount to ----

  datatype Refresh = Token | Refused(code: string, status: nat) | Unreachable

  /** definitive: the grant is gone for good. */
  predicate Definitive(r: Refresh) {
    && r.Refused?
    && (r.code == "invalid_grant" || r.code == "invalid_client" || r.code == "unauthorized_client"
        || r.status == 400 || r.status == 401 || r.status == 403)
  }

  /** Everything a renewal asks, in order. */
  datatype Answers = Answers(
    tokenStored: bool, providerKnown: bool, discovered: bool, refresh: Refresh,
    userinfo: bool,        // the claims come from UserInfo instead of the ID token
    claimsRead: bool,      // UserInfo answered and could be read, or the ID token verified
    samePerson: bool)

  datatype Judgement = Renew | Lapse | Retry

  /** renewLease up to its commit. */
  function Judge(a: Answers): Judgement {
    if !a.tokenStored then Lapse
    else if !a.providerKnown then Lapse
    else if !a.discovered then Retry
    else if !a.refresh.Token? then (if Definitive(a.refresh) then Lapse else Retry)
    else if !a.claimsRead then (if a.userinfo then Retry else Lapse)
    else if !a.samePerson then Lapse
    else Renew
  }

  /** Everything was found and agrees. */
  ghost predicate Positive(a: Answers) {
    a.tokenStored && a.providerKnown && a.discovered && a.refresh.Token? && a.claimsRead && a.samePerson
  }

  /** The provider says that the grant is gone or that it does not know the client. */
  ghost predicate GrantGone(r: Refresh) {
    r.Refused? && (r.code in {"invalid_grant", "invalid_client", "unauthorized_client"} || r.status in {400, 401, 403})
  }

  /** Nothing can be asked any more, or an answer speaks against the owner. */
  ghost predicate Negative(a: Answers) {
    || !a.tokenStored || !a.providerKnown
    || (a.discovered
        && (GrantGone(a.refresh) || (a.refresh.Token? && (if a.claimsRead then !a.samePerson else !a.userinfo))))
  }

  /** What is neither is kept for another try. */
  lemma JudgedByEvidence(a: Answers)
    ensures Judge(a) == Renew <==> Positive(a)
    ensures Judge(a) == Lapse <==> Negative(a)
    ensures Judge(a) == Retry <==> !Positive(a) && !Negative(a)
  {
  }

  // ---- the store's statements ----

  function RenewRow(row: Session, next: Session, from: nat): Session {
    if row.generation == from && row.status == Active then
      row.(renewedAt := next.renewedAt, leaseUntil := next.leaseUntil, graceUntil := next.graceUntil,
           leaseLen := next.leaseLen, graceLen := next.graceLen,
           transient := false, generation := row.generation + 1)
    else row
  }

  function MarkRow(row: Session, from: nat): Session {
    if row.generation == from && row.status == Active && !row.transient then row.(transient := true) else row
  }

  function EndRow(row: Session, status: Status, from: nat): Session {
    if from == 0 || row.generation == from then
      row.(status := status, transient := false, generation := row.generation + 1)
    else row
  }

  function BlockRow(row: Session): Session { row.(status := Ended, generation := row.generation + 1) }

  function LoginRow(row: Option<Session>, login: Session): Session {
    login.(transient := false, status := Active, generation := if row.Some? then row.value.generation + 1 else 1)
  }

  // ---- the system ----

  /** A renewal: started from a snapshot, or judged. A renewal that may commit
      carries what it will write. */
  datatype Renewal = Asking(snap: Session) | Judged(snap: Session, j: Judgement, next: Session)

  datatype State = State(
    now: int, row: Option<Session>, blocked: bool,
    logins: map<nat, Session>,     // logins that passed every check and are about to be stored
    ticks: map<nat, (int, Session)>, // ticks that read the row: when they began, and what they read
    renewals: map<nat, Renewal>,
    renewing: bool)                // the owner's entry in portalState.renewing

  const INIT := State(0, None, false, map[], map[], map[], false)

  datatype Action =
    | Clock(dt: nat)
    | LoginChecked(id: nat, st: Settings)
    | LoginStored(id: nat)
    | TickReads(id: nat)
    | TickActs(id: nat, renewal: nat)
    | RenewalJudged(id: nat, a: Answers, st: Settings)
    | RenewalCommits(id: nat)
    | LoginFails(id: nat)      // the store's statement writes nothing, and nobody tries again
    | TickFails(id: nat)
    | RenewalFails(id: nat)
    | AdminEnds
    | Block
    | Unblock

  function FreshSession(now: int, st: Settings): Session {
    var s := NewLease(now, Session(0, 0, 0, 0, false, Active, 0, 0, 0), st);
    CapLease(s.(hardUntil := now + st.sessionDays * DAY))
  }

  /** Later than halfway from the last renewal to the deadline. */
  predicate HalfPassed(s: Session, now: int) { now > s.renewedAt + (s.leaseUntil - s.renewedAt) / 2 }

  function Next(s: State, a: Action): State {
    match a
    case Clock(dt) => s.(now := s.now + dt)
    case LoginChecked(id, st) =>
      if id in s.logins then s else s.(logins := s.logins[id := FreshSession(s.now, st)])
    case LoginStored(id) =>
      if id !in s.logins then s
      else
        var s' := s.(logins := s.logins - {id});
        if s.blocked then s' else s'.(row := Some(LoginRow(s.row, s.logins[id])))
    case TickReads(id) =>
      if s.row.None? || id in s.ticks then s else s.(ticks := s.ticks[id := (s.now, s.row.value)])
    case TickActs(id, renewal) =>
      if id !in s.ticks || s.row.None? then s
      else
        var (now, snap) := s.ticks[id];
        var s' := s.(ticks := s.ticks - {id});
        if snap.status != Active then s'
        else if !Live(snap, now) then s'.(row := Some(EndRow(s.row.value, Lapsed, snap.generation)))
        else if HalfPassed(snap, now) && !s.renewing && renewal !in s.renewals then
          s'.(renewals := s.renewals[renewal := Asking(snap)], renewing := true)
        else s'
    case RenewalJudged(id, a, st) =>
      if id !in s.renewals || !s.renewals[id].Asking? then s
      else
        var snap := s.renewals[id].snap;
        var next := CapLease(NewLease(s.now, snap, st));
        s.(renewals := s.renewals[id := Judged(snap, Judge(a), next)])
    case RenewalCommits(id) =>
      if id !in s.renewals || !s.renewals[id].Judged? || s.row.None? then s
      else
        var r := s.renewals[id];
        var from := r.snap.generation;
        s.(renewals := s.renewals - {id}, renewing := false,
           row := Some(match r.j
                       case Renew => RenewRow(s.row.value, r.next, from)
                       case Retry => MarkRow(s.row.value, from)
                       case Lapse => EndRow(s.row.value, Lapsed, from)))
    case LoginFails(id) => s.(logins := s.logins - {id})
    case TickFails(id) => s.(ticks := s.ticks - {id})
    case RenewalFails(id) =>
      if id !in s.renewals || !s.renewals[id].Judged? then s
      else s.(renewals := s.renewals - {id}, renewing := false)
    case AdminEnds => if s.row.None? then s else s.(row := Some(EndRow(s.row.value, Ended, 0)))
    case Block => s.(blocked := true, row := if s.row.Some? then Some(BlockRow(s.row.value)) else None)
    case Unblock => s.(blocked := false)
  }

  function After(run: seq<Action>): State {
    if |run| == 0 then INIT else Next(After(run[..|run| - 1]), run[|run| - 1])
  }

  function Then(s: State, more: seq<Action>): State {
    if |more| == 0 then s else Next(Then(s, more[..|more| - 1]), more[|more| - 1])
  }

  lemma {:induction false} AfterThen(run: seq<Action>, more: seq<Action>)
    ensures After(run + more) == Then(After(run), more)
  {
    if |more| == 0 {
      assert run + more == run;
    } else {
      assert (run + more)[..|run + more| - 1] == run + more[..|more| - 1];
      AfterThen(run, more[..|more| - 1]);
    }
  }

  // ---- invariants ----

  /** lease <= grace <= hard limit, and where the deadlines came from. */
  predicate Deadlines(s: Session, now: int) {
    && s.leaseUntil <= s.graceUntil <= s.hardUntil
    && s.renewedAt <= now
    && 2 * MINUTE <= s.leaseLen && 0 <= s.graceLen <= HOUR
    && s.leaseUntil <= s.renewedAt + s.leaseLen
    && s.graceUntil <= s.renewedAt + s.leaseLen + s.graceLen
  }

  /** A snapshot is no newer than the row, and one of the row's own generation is
      the row, but for the transient mark. */
  predicate Stamped(snap: Session, row: Session) {
    && 1 <= snap.generation <= row.generation
    && (snap.generation == row.generation ==> snap.(transient := row.transient) == row)
  }

  predicate RenewalOk(r: Renewal, row: Session, now: int) {
    && r.snap.status == Active && Stamped(r.snap, row)
    && (r.Judged? ==> r.next.hardUntil == r.snap.hardUntil && Deadlines(r.next, now))
  }

  ghost predicate Inv(s: State) {
    && (s.row.None? ==> s.ticks == map[] && s.renewals == map[])
    && (s.row.Some? ==>
          && s.row.value.generation >= 1 && Deadlines(s.row.value, s.now)
          && (forall id :: id in s.ticks ==> Stamped(s.ticks[id].1, s.row.value) && s.ticks[id].0 <= s.now)
          && (forall id :: id in s.renewals ==> RenewalOk(s.renewals[id], s.row.value, s.now)))
    && (forall id :: id in s.logins ==> Deadlines(s.logins[id], s.now))
    && (s.blocked ==> s.row.None? || s.row.value.status != Active)
    && (forall i, j :: i in s.renewals && j in s.renewals ==> i == j)
    && (s.renewing <==> s.renewals != map[])
  }

  lemma NewLeaseDeadlines(now: int, s: Session, st: Settings)
    ensures Deadlines(CapLease(NewLease(now, s, st)), now)
  {
  }

  /** The row moves on by statements that bump the generation or only mark it, so
      snapshots stay valid. */
  predicate Succeeds(row: Session, row': Session) {
    row'.generation > row.generation || row' == row || row' == row.(transient := true)
  }

  /** What a changed row needs for the invariant to hold on. */
  lemma NewRowKeeps(s: State, s': State)
    requires Inv(s) && s.row.Some? && s'.row.Some? && Succeeds(s.row.value, s'.row.value)
    requires Deadlines(s'.row.value, s.now) && s'.row.value.generation >= 1 && s'.now == s.now
    requires s'.logins.Keys <= s.logins.Keys && forall id :: id in s'.logins ==> s'.logins[id] == s.logins[id]
    requires forall id :: id in s'.ticks ==> id in s.ticks && s'.ticks[id] == s.ticks[id]
    requires forall id :: id in s'.renewals ==> id in s.renewals && s'.renewals[id] == s.renewals[id]
    requires s'.blocked ==> s'.row.value.status != Active
    requires s'.renewing <==> s'.renewals != map[]
    ensures Inv(s')
  {
  }

  lemma RowStatements(row: Session, next: Session, from: nat, status: Status, now: int)
    requires Deadlines(row, now)
    ensures Succeeds(row, MarkRow(row, from)) && Deadlines(MarkRow(row, from), now)
    ensures Succeeds(row, EndRow(row, status, from)) && Deadlines(EndRow(row, status, from), now)
    ensures Succeeds(row, BlockRow(row)) && Deadlines(BlockRow(row), now)
    ensures Succeeds(row, RenewRow(row, next, from))
    ensures Deadlines(next, now) && (row.generation == from ==> next.hardUntil == row.hardUntil) ==> Deadlines(RenewRow(row, next, from), now)
  {
  }

  lemma CommitKeeps(s: State, id: nat)
    requires Inv(s)
    ensures Inv(Next(s, RenewalCommits(id)))
  {
    if id in s.renewals && s.renewals[id].Judged? && s.row.Some? {
      var r, row := s.renewals[id], s.row.value;
      assert RenewalOk(r, row, s.now);
      RowStatements(row, r.next, r.snap.generation, Lapsed, s.now);
      var s' := Next(s, RenewalCommits(id));
      assert s'.renewals == map[];
      NewRowKeeps(s, s');
    }
  }

  lemma TickKeeps(s: State, id: nat, renewal: nat)
    requires Inv(s)
    ensures Inv(Next(s, TickActs(id, renewal)))
  {
    if id in s.ticks && s.row.Some? {
      var (now, snap) := s.ticks[id];
      RowStatements(s.row.value, snap, snap.generation, Lapsed, s.now);
      var s' := Next(s, TickActs(id, renewal));
      if s'.renewals == s.renewals { NewRowKeeps(s, s'); }
    }
  }

  lemma LoginKeeps(s: State, id: nat)
    requires Inv(s)
    ensures Inv(Next(s, LoginStored(id)))
  {
    if id in s.logins {
      var s' := Next(s, LoginStored(id));
      assert Deadlines(s.logins[id], s.now);
      if s.row.Some? { NewRowKeeps(s, s'); }
    }
  }

  lemma JudgedKeeps(s: State, id: nat, a: Answers, st: Settings)
    requires Inv(s)
    ensures Inv(Next(s, RenewalJudged(id, a, st)))
  {
    if id in s.renewals && s.renewals[id].Asking? {
      NewLeaseDeadlines(s.now, s.renewals[id].snap, st);
      assert RenewalOk(s.renewals[id], s.row.value, s.now);
    }
  }

  lemma NextKeeps(s: State, a: Action)
    requires Inv(s)
    ensures Inv(Next(s, a))
  {
    hide Inv;
    match a
    case RenewalCommits(id) => CommitKeeps(s, id);
    case TickActs(id, renewal) => TickKeeps(s, id, renewal);
    case LoginStored(id) => LoginKeeps(s, id);
    case RenewalJudged(id, an, st) => JudgedKeeps(s, id, an, st);
    case LoginChecked(id, st) => CheckedKeeps(s, id, st);
    case LoginFails(id) => FailureKeeps(s, a);
    case TickFails(id) => FailureKeeps(s, a);
    case RenewalFails(id) => FailureKeeps(s, a);
    case TickReads(id) => QuietKeeps(s, a);
    case Clock(dt) => QuietKeeps(s, a);
    case AdminEnds => EndKeeps(s, a);
    case Block => EndKeeps(s, a);
    case Unblock => QuietKeeps(s, a);
  }

  lemma CheckedKeeps(s: State, id: nat, st: Settings)
    requires Inv(s)
    ensures Inv(Next(s, LoginChecked(id, st)))
  {
    NewLeaseDeadlines(s.now, Session(0, 0, 0, s.now + st.sessionDays * DAY, false, Active, 0, 0, 0), st);
  }

  lemma QuietKeeps(s: State, a: Action)
    requires Inv(s) && (a.TickReads? || a.Clock? || a.Unblock?)
    ensures Inv(Next(s, a))
  {
  }

  lemma FailureKeeps(s: State, a: Action)
    requires Inv(s) && (a.LoginFails? || a.TickFails? || a.RenewalFails?)
    ensures Inv(Next(s, a))
  {
    if a.RenewalFails? && a.id in s.renewals && s.renewals[a.id].Judged? {
      assert Next(s, a).renewals == map[];
    }
  }

  lemma EndKeeps(s: State, a: Action)
    requires Inv(s) && (a.AdminEnds? || a.Block?)
    ensures Inv(Next(s, a))
  {
    if s.row.Some? {
      RowStatements(s.row.value, s.row.value, 0, Ended, s.now);
      NewRowKeeps(s, Next(s, a));
    }
  }

  lemma {:induction false} InvAlways(run: seq<Action>)
    ensures Inv(After(run))
  {
    if |run| > 0 {
      InvAlways(run[..|run| - 1]);
      NextKeeps(After(run[..|run| - 1]), run[|run| - 1]);
    }
  }

  // ---- what the protocol promises ----

  /** In every interleaving the deadlines are in order: lease, grace, hard limit. */
  lemma DeadlinesInOrder(run: seq<Action>)
    requires After(run).row.Some?
    ensures var row := After(run).row.value; row.leaseUntil <= row.graceUntil <= row.hardUntil
  {
    InvAlways(run);
  }

  lemma HardLimitStep(s: State, a: Action)
    requires s.row.Some?
    requires Next(s, a).row.None? || Next(s, a).row.value.hardUntil != s.row.value.hardUntil
    requires Inv(s)
    ensures a.LoginStored? && a.id in s.logins && !s.blocked
  {
    if a.RenewalCommits? && a.id in s.renewals { assert RenewalOk(s.renewals[a.id], s.row.value, s.now); }
  }

  /** Only a login moves the hard limit. */
  lemma OnlyLoginMovesHardLimit(run: seq<Action>, a: Action)
    requires After(run).row.Some?
    requires After(run + [a]).row.None? || After(run + [a]).row.value.hardUntil != After(run).row.value.hardUntil
    ensures a.LoginStored? && a.id in After(run).logins && !After(run).blocked
  {
    hide Inv, Next;
    assert (run + [a])[..|run|] == run;
    InvAlways(run);
    HardLimitStep(After(run), a);
  }

  /** One renewal of the owner is in flight at a time. */
  lemma OneRenewalAtATime(run: seq<Action>, i: nat, j: nat)
    requires i in After(run).renewals && j in After(run).renewals
    ensures i == j && After(run).renewing
  {
    InvAlways(run);
  }

  /** A renewal that extends the lease started from the very row it extends: no
      login, renewal, end or lapse came in between, and only the transient mark
      may have changed. */
  lemma StaleRenewalNeverCommits(run: seq<Action>, id: nat)
    requires After(run).row.Some? && After(run + [RenewalCommits(id)]).row.Some?
    requires After(run + [RenewalCommits(id)]).row.value.renewedAt != After(run).row.value.renewedAt
    ensures var s := After(run);
            && id in s.renewals && s.renewals[id].Judged? && s.renewals[id].j == Renew
            && s.row.value.status == Active
            && s.renewals[id].snap.(transient := s.row.value.transient) == s.row.value
  {
    InvAlways(run);
    assert (run + [RenewalCommits(id)])[..|run|] == run;
    var s := After(run);
    assert RenewalOk(s.renewals[id], s.row.value, s.now);
  }

  // ---- deadlines, from the settings ----

  /** The lease of a login or renewal at t: so many minutes, two at least, and never
      beyond the hard limit. */
  ghost function LeaseEnd(st: Settings, t: int, hard: int): int {
    var end := t + (if st.leaseMinutes < 2 then 2 else st.leaseMinutes) * 60_000_000_000;
    if end <= hard then end else hard
  }

  /** The grace: after the lease so many minutes, an hour at most, within the same limit. */
  ghost function GraceEnd(st: Settings, t: int, hard: int): int {
    var minutes := (if st.leaseMinutes < 2 then 2 else st.leaseMinutes) + (if st.graceMinutes > 60 then 60 else st.graceMinutes);
    var end := t + minutes * 60_000_000_000;
    if end <= hard then end else hard
  }

  ghost function HardEnd(st: Settings, t: int): int { t + st.sessionDays * 86_400_000_000_000 }

  lemma NewDeadlines(now: int, s: Session, st: Settings)
    ensures var l := CapLease(NewLease(now, s, st));
      && l.renewedAt == now && l.hardUntil == s.hardUntil
      && l.leaseUntil == LeaseEnd(st, now, s.hardUntil) && l.graceUntil == GraceEnd(st, now, s.hardUntil)
  {
  }

  /** At step i the login passed its checks. */
  ghost predicate CheckedAt(run: seq<Action>, i: nat, id: nat, login: Session) {
    && i < |run| && run[i].LoginChecked? && run[i].id == id
    && login == FreshSession(After(run[..i]).now, run[i].st)
  }

  lemma {:induction false} LoginsChecked(run: seq<Action>)
    ensures forall id :: id in After(run).logins ==> exists i: nat :: CheckedAt(run, i, id, After(run).logins[id])
  {
    if |run| > 0 {
      var n := |run| - 1;
      var before, s, s' := run[..n], After(run[..n]), After(run);
      assert run == before + [run[n]];
      LoginsChecked(before);
      NewLogins(s, run[n]);
      forall id | id in s'.logins
        ensures exists i: nat :: CheckedAt(run, i, id, s'.logins[id])
      {
        if id in s.logins && s'.logins[id] == s.logins[id] {
          var i: nat :| CheckedAt(before, i, id, s.logins[id]);
          assert run[..i] == before[..i];
          assert CheckedAt(run, i, id, s'.logins[id]);
        } else {
          assert CheckedAt(run, n, id, s'.logins[id]);
        }
      }
    }
  }

  lemma NewLogins(s: State, a: Action)
    ensures forall id :: id in Next(s, a).logins ==>
      || (id in s.logins && Next(s, a).logins[id] == s.logins[id])
      || (a.LoginChecked? && a.id == id && Next(s, a).logins[id] == FreshSession(s.now, a.st))
  {
  }

  /** The row of a login, counted from the moment t it passed its checks. */
  ghost predicate LoggedIn(row: Session, st: Settings, t: int) {
    && row.status == Active && !row.transient && row.renewedAt == t && row.hardUntil == HardEnd(st, t)
    && row.leaseUntil == LeaseEnd(st, t, HardEnd(st, t)) && row.graceUntil == GraceEnd(st, t, HardEnd(st, t))
  }

  lemma FreshIsLoggedIn(row: Option<Session>, t: int, st: Settings)
    ensures LoggedIn(LoginRow(row, FreshSession(t, st)), st, t)
    ensures LoginRow(row, FreshSession(t, st)).generation == if row.Some? then row.value.generation + 1 else 1
  {
    NewDeadlines(t, Session(0, 0, 0, t + st.sessionDays * DAY, false, Active, 0, 0, 0), st);
  }

  /** A stored login leaves an active row with the deadlines its settings give. */
  lemma LoginStoresDeadlines(run: seq<Action>, id: nat)
    requires StoresLogin(After(run), LoginStored(id))
    ensures var s' := After(run + [LoginStored(id)]);
      && s'.row.Some?
      && s'.row.value.generation == (if After(run).row.Some? then After(run).row.value.generation + 1 else 1)
      && exists i: nat :: i < |run| && run[i].LoginChecked? && run[i].id == id
           && LoggedIn(s'.row.value, run[i].st, After(run[..i]).now)
  {
    hide FreshSession, LoginRow, LoggedIn;
    assert (run + [LoginStored(id)])[..|run|] == run;
    LoginsChecked(run);
    var i: nat :| CheckedAt(run, i, id, After(run).logins[id]);
    FreshIsLoggedIn(After(run).row, After(run[..i]).now, run[i].st);
  }

  // ---- where a renewal comes from ----

  /** At step k a tick read the row, and found snap. */
  ghost predicate ReadAt(run: seq<Action>, k: nat, snap: Session) {
    k < |run| && run[k].TickReads? && After(run[..k]).row == Some(snap)
  }

  /** At step i the renewal was judged, on the answers of that step. */
  ghost predicate JudgedAt(run: seq<Action>, i: nat, id: nat, r: Renewal) {
    && i < |run| && run[i].RenewalJudged? && run[i].id == id
    && var s := After(run[..i]);
       && id in s.renewals && s.renewals[id] == Asking(r.snap)
       && r == Judged(r.snap, Judge(run[i].a), CapLease(NewLease(s.now, r.snap, run[i].st)))
  }

  ghost predicate Traced(run: seq<Action>) {
    var s := After(run);
    && (forall t :: t in s.ticks ==> exists k: nat :: ReadAt(run, k, s.ticks[t].1))
    && (forall id :: id in s.renewals ==>
          && (exists k: nat :: ReadAt(run, k, s.renewals[id].snap))
          && (s.renewals[id].Judged? ==> exists i: nat :: JudgedAt(run, i, id, s.renewals[id])))
  }

  lemma StillRead(run: seq<Action>, a: Action, snap: Session)
    requires exists k: nat :: ReadAt(run, k, snap)
    ensures exists k: nat :: ReadAt(run + [a], k, snap)
  {
    var k: nat :| ReadAt(run, k, snap);
    assert (run + [a])[..k] == run[..k];
    assert ReadAt(run + [a], k, snap);
  }

  lemma StillJudged(run: seq<Action>, a: Action, id: nat, r: Renewal)
    requires exists i: nat :: JudgedAt(run, i, id, r)
    ensures exists i: nat :: JudgedAt(run + [a], i, id, r)
  {
    var i: nat :| JudgedAt(run, i, id, r);
    assert (run + [a])[..i] == run[..i];
    assert JudgedAt(run + [a], i, id, r);
  }

  /** What a step adds to the ticks and the renewals. */
  lemma NewEntries(s: State, a: Action)
    ensures var s' := Next(s, a);
            && (forall t :: t in s'.ticks ==>
                  || (t in s.ticks && s'.ticks[t] == s.ticks[t])
                  || (a.TickReads? && s.row == Some(s'.ticks[t].1)))
            && (forall id :: id in s'.renewals ==>
                  || (id in s.renewals && s'.renewals[id] == s.renewals[id])
                  || (a.TickActs? && a.id in s.ticks && s'.renewals[id] == Asking(s.ticks[a.id].1))
                  || (a.RenewalJudged? && a.id == id && id in s.renewals && s.renewals[id].Asking?
                      && s'.renewals[id] == Judged(s.renewals[id].snap, Judge(a.a), CapLease(NewLease(s.now, s.renewals[id].snap, a.st)))))
  {
  }

  lemma TracedStep(run: seq<Action>, a: Action)
    requires Traced(run)
    ensures Traced(run + [a])
  {
    hide Next, Judge, NewLease, CapLease;
    var more := run + [a];
    var s, s' := After(run), After(more);
    assert more[..|run|] == run && more[|run|] == a;
    NewEntries(s, a);
    forall t | t in s'.ticks
      ensures exists k: nat :: ReadAt(more, k, s'.ticks[t].1)
    {
      if t in s.ticks && s'.ticks[t] == s.ticks[t] {
        StillRead(run, a, s.ticks[t].1);
      } else {
        assert ReadAt(more, |run|, s'.ticks[t].1);
      }
    }
    forall id | id in s'.renewals
      ensures exists k: nat :: ReadAt(more, k, s'.renewals[id].snap)
      ensures s'.renewals[id].Judged? ==> exists i: nat :: JudgedAt(more, i, id, s'.renewals[id])
    {
      var r := s'.renewals[id];
      if id in s.renewals && r == s.renewals[id] {
        StillRead(run, a, r.snap);
        if r.Judged? { StillJudged(run, a, id, r); }
      } else if a.TickActs? {
        StillRead(run, a, s.ticks[a.id].1);
      } else {
        StillRead(run, a, s.renewals[id].snap);
        assert JudgedAt(more, |run|, id, r);
      }
    }
  }

  lemma {:induction false} TracedAlways(run: seq<Action>)
    ensures Traced(run)
  {
    if |run| > 0 {
      var n := |run| - 1;
      assert run == run[..n] + [run[n]];
      TracedAlways(run[..n]);
      TracedStep(run[..n], run[n]);
    }
  }

  /** Every step moves the row on, and none removes it. */
  lemma RowMovesOn(s: State, a: Action)
    requires s.row.Some?
    ensures Next(s, a).row.Some? && Succeeds(s.row.value, Next(s, a).row.value)
  {
  }

  /** The row as it was at step k, but for the transient mark, as long as its
      generation is that of step k. */
  lemma {:induction false} SameGenerationSameRow(run: seq<Action>, k: nat, n: nat)
    requires k <= n <= |run| && After(run[..k]).row.Some?
    ensures After(run[..n]).row.Some?
    ensures var first, row := After(run[..k]).row.value, After(run[..n]).row.value;
            first.generation <= row.generation
            && (row.generation == first.generation ==> row == first.(transient := row.transient))
  {
    hide Next;
    if n > k {
      SameGenerationSameRow(run, k, n - 1);
      assert run[..n][..n - 1] == run[..n - 1];
      RowMovesOn(After(run[..n - 1]), run[n - 1]);
    }
  }

  /** From step k on, through the whole of the run, the row is as it was, but for the
      transient mark. */
  ghost predicate UnchangedSince(run: seq<Action>, k: nat) {
    && k <= |run| && After(run[..k]).row.Some?
    && forall n :: k <= n <= |run| ==>
         After(run[..n]).row.Some?
         && After(run[..n]).row.value == After(run[..k]).row.value.(transient := After(run[..n]).row.value.transient)
  }

  lemma EqualGenerationUnchanged(run: seq<Action>, k: nat)
    requires k <= |run| && After(run[..k]).row.Some? && After(run).row.Some?
    requires After(run).row.value.generation == After(run[..k]).row.value.generation
    ensures UnchangedSince(run, k)
  {
    assert run[..|run|] == run;
    forall n | k <= n <= |run|
      ensures After(run[..n]).row.Some?
      ensures After(run[..n]).row.value == After(run[..k]).row.value.(transient := After(run[..n]).row.value.transient)
    {
      SameGenerationSameRow(run, k, n);
      SameGenerationSameRow(run, n, |run|);
    }
  }

  /** A renewal read the row at step k and was judged on the answers of step i, and
      since k the row is as it was then, but for the transient mark. */
  ghost predicate JudgedOn(run: seq<Action>, k: nat, i: nat, id: nat) {
    && k < i < |run| && run[k].TickReads? && UnchangedSince(run, k)
    && run[i].RenewalJudged? && run[i].id == id
  }

  /** The commit of a renewal that moves the row's generation goes back to a reading
      of that very row and to answers. */
  lemma CommitIsTraced(run: seq<Action>, id: nat) returns (k: nat, i: nat)
    requires After(run).row.Some?
    requires Next(After(run), RenewalCommits(id)).row.value.generation != After(run).row.value.generation
    ensures JudgedOn(run, k, i, id) && id in After(run).renewals && JudgedAt(run, i, id, After(run).renewals[id])
    ensures var r := After(run).renewals;
            id in r && r[id].Judged? && r[id].j == Judge(run[i].a)
            && r[id].next == CapLease(NewLease(After(run[..i]).now, After(run[..k]).row.value, run[i].st))
  {
    hide Traced, Judge, NewLease, CapLease;
    var s := After(run);
    var r := s.renewals[id];
    InvAlways(run);
    TracedAlways(run);
    i := TracedJudgement(run, id);
    TracedAlways(run[..i]);
    k := TracedReading(run[..i], id);
    assert run[..i][..k] == run[..k];
    assert RenewalOk(r, s.row.value, s.now);
    EqualGenerationUnchanged(run, k);
  }

  lemma TracedJudgement(run: seq<Action>, id: nat) returns (i: nat)
    requires Traced(run) && id in After(run).renewals && After(run).renewals[id].Judged?
    ensures JudgedAt(run, i, id, After(run).renewals[id])
  {
    hide JudgedAt, ReadAt;
    i :| JudgedAt(run, i, id, After(run).renewals[id]);
  }

  lemma TracedReading(run: seq<Action>, id: nat) returns (k: nat)
    requires Traced(run) && id in After(run).renewals
    ensures ReadAt(run, k, After(run).renewals[id].snap)
  {
    hide JudgedAt, ReadAt;
    k :| ReadAt(run, k, After(run).renewals[id].snap);
  }

  /** The row of a renewal, counted from the moment t its answers came. */
  ghost predicate Renewed(row: Session, st: Settings, t: int, hard: int) {
    && row.status == Active && !row.transient && row.renewedAt == t && row.hardUntil == hard
    && row.leaseUntil == LeaseEnd(st, t, hard) && row.graceUntil == GraceEnd(st, t, hard)
  }

  /** What a renewal does to the row when it commits: on positive answers it extends the
      row it started from, on negative ones it ends it, on others it marks it; a row
      that has moved on since is left alone. */
  lemma CommitFollowsEvidence(run: seq<Action>, i: nat, id: nat)
    requires After(run).row.Some? && id in After(run).renewals && JudgedAt(run, i, id, After(run).renewals[id])
    ensures var row, row' := After(run).row.value, After(run + [RenewalCommits(id)]).row;
      && row'.Some?
      && (if After(run).renewals[id].snap.generation != row.generation then row'.value == row
          else if Positive(run[i].a) then
            Renewed(row'.value, run[i].st, After(run[..i]).now, row.hardUntil) && row'.value.generation == row.generation + 1
          else if Negative(run[i].a) then
            row'.value == row.(status := Lapsed, transient := false, generation := row.generation + 1)
          else row'.value == row.(transient := true))
    ensures After(run + [RenewalCommits(id)]).renewals == map[] && !After(run + [RenewalCommits(id)]).renewing
  {
    hide Judge, Positive, Negative, NewLease, CapLease;
    assert (run + [RenewalCommits(id)])[..|run|] == run;
    InvAlways(run);
    JudgedByEvidence(run[i].a);
    var s := After(run);
    assert RenewalOk(s.renewals[id], s.row.value, s.now);
    NewDeadlines(After(run[..i]).now, s.renewals[id].snap, run[i].st);
    assert (s.renewals - {id}) == map[];
  }

  lemma CommitMoves(s: State, id: nat)
    requires s.row.Some?
    ensures Next(s, RenewalCommits(id)).row.Some?
    ensures var row, row' := s.row.value, Next(s, RenewalCommits(id)).row.value;
      row'.generation == row.generation ==> row'.renewedAt == row.renewedAt && row'.status == row.status
  {
  }

  /** A lease is extended only on positive evidence, all of it, asked for the very row
      that is extended, and to the deadlines of the moment the answers came. */
  lemma RenewedOnPositiveEvidence(run: seq<Action>, id: nat)
    requires After(run).row.Some? && After(run + [RenewalCommits(id)]).row.Some?
    requires After(run + [RenewalCommits(id)]).row.value.renewedAt != After(run).row.value.renewedAt
    ensures exists k: nat, i: nat ::
      && JudgedOn(run, k, i, id) && Positive(run[i].a)
      && Renewed(After(run + [RenewalCommits(id)]).row.value, run[i].st, After(run[..i]).now, After(run).row.value.hardUntil)
  {
    hide UnchangedSince, Positive, Negative, Renewed, Next, JudgedAt;
    assert (run + [RenewalCommits(id)])[..|run|] == run;
    CommitMoves(After(run), id);
    var k, i := CommitIsTraced(run, id);
    CommitFollowsEvidence(run, i, id);
  }

  /** What a tick does that read the row as snap at a moment. */
  ghost predicate Ticked(s: State, s': State, id: nat, renewal: nat, at: int, snap: Session) {
    var over := at >= if snap.transient && snap.graceUntil > snap.leaseUntil then snap.graceUntil else snap.leaseUntil;
    && s.row.Some? && s'.row.Some? && s'.ticks == s.ticks - {id}
    && s'.row.value == (if snap.status == Active && (over || at >= snap.hardUntil) && snap.generation == s.row.value.generation
                        then s.row.value.(status := Lapsed, transient := false, generation := s.row.value.generation + 1)
                        else s.row.value)
    && (if snap.status == Active && !over && at < snap.hardUntil
           && 2 * (at - snap.renewedAt) > snap.leaseUntil - snap.renewedAt && !s.renewing
        then s'.renewals == map[renewal := Asking(snap)] && s'.renewing
        else s'.renewals == s.renewals && s'.renewing == s.renewing)
  }

  lemma TickMeans(s: State, id: nat, renewal: nat)
    requires s.row.Some? && id in s.ticks && renewal !in s.renewals && (!s.renewing ==> s.renewals == map[])
    requires s.ticks[id].1.generation != 0
    ensures Ticked(s, Next(s, TickActs(id, renewal)), id, renewal, s.ticks[id].0, s.ticks[id].1)
  {
  }

  /** A tick that read the row ends it if its access was over by then, and otherwise, once
      half the lease has passed, starts a renewal unless one is under way. */
  lemma TickFollowsTheRow(run: seq<Action>, id: nat, renewal: nat)
    requires After(run).row.Some? && id in After(run).ticks && renewal !in After(run).renewals
    ensures Ticked(After(run), After(run + [TickActs(id, renewal)]), id, renewal, After(run).ticks[id].0, After(run).ticks[id].1)
  {
    hide Next, Ticked;
    assert (run + [TickActs(id, renewal)])[..|run|] == run;
    InvAlways(run);
    var s := After(run);
    assert Stamped(s.ticks[id].1, s.row.value);
    TickMeans(s, id, renewal);
  }

  /** An administrator's end and a block take the session away at once, and what was
      begun before it finds another generation. */
  lemma EndsAtOnce(run: seq<Action>, a: Action, at: int)
    requires After(run).row.Some? && (a.AdminEnds? || a.Block?)
    ensures var row, s' := After(run).row.value, After(run + [a]);
      && s'.row.Some? && s'.row.value.status == Ended && !Live(s'.row.value, at)
      && s'.row.value.generation == row.generation + 1
      && s'.row.value.(status := row.status, transient := row.transient, generation := row.generation) == row
      && (s'.blocked <==> a.Block? || After(run).blocked)
  {
    assert (run + [a])[..|run|] == run;
  }

  /** While the owner is blocked no login is stored; from the moment the block is lifted
      one that passed its checks is. */
  lemma OnlyABlockStopsLogins(run: seq<Action>, id: nat)
    requires id in After(run).logins
    ensures var s, s' := After(run), After(run + [LoginStored(id)]);
      && s'.logins == s.logins - {id}
      && (if s.blocked then s'.row == s.row else s'.row.Some? && s'.row.value.status == Active)
    ensures !After(run + [Unblock]).blocked && StoresLogin(After(run + [Unblock]), LoginStored(id))
  {
    assert (run + [LoginStored(id)])[..|run|] == run;
    assert (run + [Unblock])[..|run|] == run;
  }

  /** What may happen without ending the row or storing a login or a renewal. */
  ghost predicate Undisturbed(s: State, a: Action) {
    && !a.AdminEnds? && !a.Block? && !StoresLogin(s, a)
    && (a.RenewalCommits? && s.row.Some? && Next(s, a).row.Some? ==> Next(s, a).row.value.generation == s.row.value.generation)
  }

  ghost predicate AllUndisturbed(s: State, more: seq<Action>) {
    forall n :: 0 <= n < |more| ==> Undisturbed(Then(s, more[..n]), more[n])
  }

  lemma UndisturbedPrefix(s: State, more: seq<Action>)
    requires AllUndisturbed(s, more) && |more| > 0
    ensures AllUndisturbed(s, more[..|more| - 1]) && Undisturbed(Then(s, more[..|more| - 1]), more[|more| - 1])
  {
    var n := |more| - 1;
    forall i | 0 <= i < n
      ensures Undisturbed(Then(s, more[..n][..i]), more[..n][i])
    {
      assert more[..n][..i] == more[..i];
      assert Undisturbed(Then(s, more[..i]), more[i]);
    }
  }

  lemma StaysActiveStep(s: State, a: Action)
    requires Inv(s) && s.row.Some? && s.row.value.status == Active && s.now < s.row.value.leaseUntil && Undisturbed(s, a)
    ensures Next(s, a).row.Some? && Next(s, a).row.value == s.row.value.(transient := Next(s, a).row.value.transient)
    ensures s.now <= Next(s, a).now
  {
  }

  /** A lease holds: whatever is in flight, short of an end, a block, a stored login or a
      committed renewal the session is live at every moment before its lease is over. */
  lemma {:induction false} LiveUntilItsLease(run: seq<Action>, more: seq<Action>)
    requires After(run).row.Some? && After(run).row.value.status == Active && AllUndisturbed(After(run), more)
    requires Then(After(run), more).now < After(run).row.value.leaseUntil
    ensures var row, s := After(run).row.value, Then(After(run), more);
      && s.row.Some? && s.row.value == row.(transient := s.row.value.transient)
      && After(run).now <= s.now && Live(s.row.value, s.now)
  {
    hide Undisturbed, Next;
    if |more| > 0 {
      var n := |more| - 1;
      UndisturbedPrefix(After(run), more);
      ClockGoesOn(Then(After(run), more[..n]), more[n]);
      LiveUntilItsLease(run, more[..n]);
      AfterThen(run, more[..n]);
      InvAlways(run + more[..n]);
      StaysActiveStep(Then(After(run), more[..n]), more[n]);
    }
    AfterThen(run, more);
    InvAlways(run + more);
  }

  lemma ClockGoesOn(s: State, a: Action)
    ensures s.now <= Next(s, a).now
  {
  }

  /** A renewal ends a session only on answers that say the grant or the account is
      gone, asked for the very row that is ended. */
  lemma LapsedOnNegativeEvidence(run: seq<Action>, id: nat)
    requires After(run).row.Some? && After(run + [RenewalCommits(id)]).row.Some?
    requires After(run + [RenewalCommits(id)]).row.value.status != After(run).row.value.status
    ensures exists k: nat, i: nat :: JudgedOn(run, k, i, id) && Negative(run[i].a)
  {
    hide UnchangedSince, Judge, Negative;
    assert (run + [RenewalCommits(id)])[..|run|] == run;
    var k, i := CommitIsTraced(run, id);
    JudgedByEvidence(run[i].a);
  }

  predicate StoresLogin(s: State, a: Action) { a.LoginStored? && a.id in s.logins && !s.blocked }

  lemma EndedStaysStep(s: State, a: Action)
    requires Inv(s) && s.row.Some? && s.row.value.status != Active && !StoresLogin(s, a)
    ensures Next(s, a).row.Some? && Next(s, a).row.value.status != Active
  {
  }

  /** No login is stored in the run `more` from s. */
  ghost predicate NoLogin(s: State, more: seq<Action>) {
    forall n :: 0 <= n < |more| ==> !StoresLogin(Then(s, more[..n]), more[n])
  }

  lemma NoLoginPrefix(s: State, more: seq<Action>)
    requires NoLogin(s, more) && |more| > 0
    ensures NoLogin(s, more[..|more| - 1]) && !StoresLogin(Then(s, more[..|more| - 1]), more[|more| - 1])
  {
    var n := |more| - 1;
    forall i | 0 <= i < n
      ensures !StoresLogin(Then(s, more[..n][..i]), more[..n][i])
    {
      assert more[..n][..i] == more[..i];
      assert !StoresLogin(Then(s, more[..i]), more[i]);
    }
  }

  /** A session that was ended, lapsed or blocked admits nobody until a later
      login is stored, whatever renewals were in flight. */
  lemma {:induction false} EndedUntilLogin(run: seq<Action>, more: seq<Action>, at: int)
    requires After(run).row.Some? && After(run).row.value.status != Active
    requires NoLogin(After(run), more)
    ensures var s := Then(After(run), more);
            s.row.Some? && s.row.value.status != Active && !Live(s.row.value, at)
  {
    if |more| > 0 {
      var n := |more| - 1;
      NoLoginPrefix(After(run), more);
      EndedUntilLogin(run, more[..n], at);
      AfterThen(run, more[..n]);
      InvAlways(run + more[..n]);
      EndedStaysStep(Then(After(run), more[..n]), more[n]);
    }
  }

  /** While the owner is blocked, nothing makes the session live. */
  lemma BlockedIsNeverLive(run: seq<Action>, at: int)
    requires After(run).blocked && After(run).row.Some?
    ensures !Live(After(run).row.value, at)
  {
    InvAlways(run);
  }

  /** The step stores a login, or a renewal that finds its row. */
  predicate WritesDeadlines(s: State, a: Action) {
    StoresLogin(s, a) || (a.RenewalCommits? && s.row.Some? && Next(s, a).row.Some?
                          && Next(s, a).row.value.generation != s.row.value.generation
                          && Next(s, a).row.value.status == Active)
  }

  lemma DeadlinesStayStep(s: State, a: Action)
    requires s.row.Some? && !WritesDeadlines(s, a)
    ensures Next(s, a).row.Some?
    ensures var row, row' := s.row.value, Next(s, a).row.value;
            row'.renewedAt == row.renewedAt && row'.leaseUntil == row.leaseUntil && row'.graceUntil == row.graceUntil
            && row'.hardUntil == row.hardUntil && row'.leaseLen == row.leaseLen && row'.graceLen == row.graceLen
  {
  }

  ghost predicate NothingStored(s: State, more: seq<Action>) {
    forall n :: 0 <= n < |more| ==> !WritesDeadlines(Then(s, more[..n]), more[n])
  }

  lemma NothingStoredPrefix(s: State, more: seq<Action>)
    requires NothingStored(s, more) && |more| > 0
    ensures NothingStored(s, more[..|more| - 1]) && !WritesDeadlines(Then(s, more[..|more| - 1]), more[|more| - 1])
  {
    var n := |more| - 1;
    forall i | 0 <= i < n
      ensures !WritesDeadlines(Then(s, more[..n][..i]), more[..n][i])
    {
      assert more[..n][..i] == more[..i];
      assert !WritesDeadlines(Then(s, more[..i]), more[i]);
    }
  }

  lemma {:induction false} DeadlinesStay(s: State, more: seq<Action>)
    requires s.row.Some? && NothingStored(s, more)
    ensures Then(s, more).row.Some?
    ensures var row, row' := s.row.value, Then(s, more).row.value;
            row'.leaseUntil == row.leaseUntil && row'.graceUntil == row.graceUntil && row'.hardUntil == row.hardUntil
  {
    if |more| > 0 {
      NothingStoredPrefix(s, more);
      DeadlinesStay(s, more[..|more| - 1]);
      DeadlinesStayStep(Then(s, more[..|more| - 1]), more[|more| - 1]);
    }
  }

  /** If no renewal or login is stored after the moment T that `run` ends at, access
      stops by T + lease + grace, with a grace of at most an hour, whatever else
      happens: transient failures only ever use the grace that was already given. */
  lemma AccessStopsWithoutEvidence(run: seq<Action>, more: seq<Action>, at: int)
    requires After(run).row.Some? && NothingStored(After(run), more)
    requires var row := After(run).row.value; at >= After(run).now + row.leaseLen + row.graceLen
    ensures After(run).row.value.graceLen <= HOUR
    ensures Then(After(run), more).row.Some? && !Live(Then(After(run), more).row.value, at)
  {
    InvAlways(run);
    DeadlinesStay(After(run), more);
  }

  /** A transient mark alone never shortens or ends access, and moves no deadline. */
  lemma TransientMarkMovesNoDeadline(row: Session, from: nat)
    requires row.leaseUntil <= row.graceUntil <= row.hardUntil
    ensures var row' := MarkRow(row, from);
            && row'.(transient := row.transient) == row
            && AccessUntil(row) <= AccessUntil(row') <= row.graceUntil
  {
  }

  /** Without a failure the grace does not count; with one, access lasts to its end. */
  lemma AccessUntilMeaning(s: Session)
    requires s.leaseUntil <= s.graceUntil <= s.hardUntil
    ensures AccessUntil(s) == if s.transient then s.graceUntil else s.leaseUntil
    ensures forall now :: Live(s, now) <==> s.status == Active && now < if s.transient then s.graceUntil else s.leaseUntil
  {
  }

  // ---- what is asked for happens ----

  ghost function Elapsed(run: seq<Action>): nat {
    if |run| == 0 then 0 else Elapsed(run[..|run| - 1]) + if run[|run| - 1].Clock? then run[|run| - 1].dt else 0
  }

  /** The time is what the clock was moved by. */
  lemma {:induction false} TimePasses(run: seq<Action>)
    ensures After(run).now == Elapsed(run)
  {
    hide Next;
    if |run| > 0 {
      TimePasses(run[..|run| - 1]);
      TimeStep(After(run[..|run| - 1]), run[|run| - 1]);
    }
  }

  lemma TimeStep(s: State, a: Action)
    ensures Next(s, a).now == s.now + if a.Clock? then a.dt else 0
  {
  }

  lemma ThenOne(s: State, more: seq<Action>, a: Action)
    ensures Then(s, more + [a]) == Next(Then(s, more), a)
  {
    assert (more + [a])[..|more|] == more;
  }

  /** A login that passed its checks while the owner is not blocked is stored, whatever
      else there is, with the deadlines of the moment it was checked. */
  lemma LoginGoesThrough(run: seq<Action>, id: nat, st: Settings, dt: nat)
    requires id !in After(run).logins && !After(run).blocked
    ensures var s' := Then(After(run), [LoginChecked(id, st), Clock(dt), LoginStored(id)]);
      && s'.row.Some? && LoggedIn(s'.row.value, st, After(run).now) && s'.now == After(run).now + dt
  {
    hide FreshSession, LoginRow, LoggedIn;
    var s := After(run);
    var actions := [LoginChecked(id, st), Clock(dt), LoginStored(id)];
    assert actions == (([] + [LoginChecked(id, st)]) + [Clock(dt)]) + [LoginStored(id)];
    ThenOne(s, [], LoginChecked(id, st));
    ThenOne(s, [] + [LoginChecked(id, st)], Clock(dt));
    ThenOne(s, ([] + [LoginChecked(id, st)]) + [Clock(dt)], LoginStored(id));
    assert Then(s, []) == s;
    FreshIsLoggedIn(s.row, s.now, st);
  }

  /** The steps of one renewal, with time passing while the provider is asked and before
      the statement is run. */
  function RenewalSteps(tick: nat, id: nat, asking: nat, a: Answers, st: Settings, storing: nat): seq<Action> {
    [TickReads(tick), TickActs(tick, id), Clock(asking), RenewalJudged(id, a, st), Clock(storing), RenewalCommits(id)]
  }

  lemma TickStarts(s: State, tick: nat, id: nat)
    requires s.row.Some? && tick !in s.ticks && s.renewals == map[] && !s.renewing
    requires Live(s.row.value, s.now) && HalfPassed(s.row.value, s.now)
    ensures Next(Next(s, TickReads(tick)), TickActs(tick, id))
         == s.(ticks := s.ticks[tick := (s.now, s.row.value)] - {tick}, renewals := map[id := Asking(s.row.value)], renewing := true)
  {
  }

  lemma JudgedAndStored(s: State, id: nat, asking: nat, a: Answers, st: Settings, storing: nat)
    requires s.row.Some? && s.row.value.status == Active && s.renewals == map[id := Asking(s.row.value)]
    ensures
      var s1 := Next(Next(s, Clock(asking)), RenewalJudged(id, a, st));
      var s2 := Next(Next(s1, Clock(storing)), RenewalCommits(id));
      && s2.row.Some?
      && (Positive(a) ==> Renewed(s2.row.value, st, s.now + asking, s.row.value.hardUntil))
      && (Negative(a) ==> s2.row.value.status == Lapsed)
      && (!Positive(a) && !Negative(a) ==> s2.row.value == s.row.value.(transient := true))
      && s2.now == s.now + asking + storing && s2.renewals == map[] && !s2.renewing
  {
    hide Judge, Positive, Negative, NewLease, CapLease;
    JudgedByEvidence(a);
    NewDeadlines(s.now + asking, s.row.value, st);
    var next := CapLease(NewLease(s.now + asking, s.row.value, st));
    var s1 := Next(Next(s, Clock(asking)), RenewalJudged(id, a, st));
    assert s1.renewals == map[id := Judged(s.row.value, Judge(a), next)];
    assert s1.renewals - {id} == map[];
  }

  /** A live session of which more than half has passed is renewed, where nothing else
      happens meanwhile: by one tick, if no renewal is under way, on full evidence to the
      deadlines of the moment the answers came. Evidence against the owner ends it, and
      anything else leaves it marked and as long as it was. */
  lemma RenewalGoesThrough(run: seq<Action>, tick: nat, id: nat, asking: nat, a: Answers, st: Settings, storing: nat)
    requires After(run).row.Some? && tick !in After(run).ticks && After(run).renewals == map[] && !After(run).renewing
    requires Live(After(run).row.value, After(run).now) && HalfPassed(After(run).row.value, After(run).now)
    ensures var s, s' := After(run), Then(After(run), RenewalSteps(tick, id, asking, a, st, storing));
      && s'.row.Some?
      && (Positive(a) ==> Renewed(s'.row.value, st, s.now + asking, s.row.value.hardUntil))
      && (Negative(a) ==> s'.row.value.status == Lapsed)
      && (!Positive(a) && !Negative(a) ==> s'.row.value == s.row.value.(transient := true))
      && s'.now == s.now + asking + storing && s'.renewals == map[] && !s'.renewing
  {
    hide Next, Positive, Negative, Renewed, Live, HalfPassed;
    var s := After(run);
    assert s.row.value.status == Active by { LiveIsActive(s.row.value, s.now); }
    TickStarts(s, tick, id);
    var s1 := Next(Next(s, TickReads(tick)), TickActs(tick, id));
    JudgedAndStored(s1, id, asking, a, st, storing);
    SixSteps(s, TickReads(tick), TickActs(tick, id), Clock(asking), RenewalJudged(id, a, st), Clock(storing), RenewalCommits(id));
  }

  lemma LiveIsActive(s: Session, now: int)
    ensures Live(s, now) ==> s.status == Active
  {
  }

  lemma SixSteps(s: State, a: Action, b: Action, c: Action, d: Action, e: Action, f: Action)
    ensures Then(s, [a, b, c, d, e, f]) == Next(Next(Next(Next(Next(Next(s, a), b), c), d), e), f)
  {
    hide Next;
    assert [a, b, c, d, e, f] == [a, b, c, d, e] + [f];
    assert [a, b, c, d, e] == [a, b, c, d] + [e];
    assert [a, b, c, d] == [a, b, c] + [d];
    assert [a, b, c] == [a, b] + [c];
    assert [a, b] == [a] + [b];
    assert [a] == [] + [a];
    ThenOne(s, [], a);
    ThenOne(s, [a], b);
    ThenOne(s, [a, b], c);
    ThenOne(s, [a, b, c], d);
    ThenOne(s, [a, b, c, d], e);
    ThenOne(s, [a, b, c, d, e], f);
    assert Then(s, []) == s;
  }

  lemma TickEnds(s: State, tick: nat, id: nat)
    requires s.row.Some? && tick !in s.ticks && s.row.value.status == Active && !Live(s.row.value, s.now)
    ensures var s' := Next(Next(s, TickReads(tick)), TickActs(tick, id));
      s'.row.Some? && s'.row.value.status == Lapsed && !Live(s'.row.value, s'.now)
  {
  }

  /** A session whose access is over is ended by the next tick. */
  lemma OverdueLapses(run: seq<Action>, tick: nat, id: nat)
    requires After(run).row.Some? && tick !in After(run).ticks
    requires After(run).row.value.status == Active && !Live(After(run).row.value, After(run).now)
    ensures var s' := Then(After(run), [TickReads(tick), TickActs(tick, id)]);
      s'.row.Some? && s'.row.value.status == Lapsed && !Live(s'.row.value, s'.now)
  {
    hide Next, Live;
    var s := After(run);
    TickEnds(s, tick, id);
    assert [TickReads(tick), TickActs(tick, id)] == [TickReads(tick)] + [TickActs(tick, id)];
    assert [TickReads(tick)] == [] + [TickReads(tick)];
    ThenOne(s, [], TickReads(tick));
    ThenOne(s, [TickReads(tick)], TickActs(tick, id));
    assert Then(s, []) == s;
  }

  /** What fails is over: a login or a tick that failed stores nothing later, and after a
      failed renewal another may start. */
  lemma FailedIsOver(s: State, id: nat)
    ensures var s' := Next(s, LoginFails(id)); id !in s'.logins && s' == s.(logins := s'.logins)
    ensures Next(Next(s, LoginFails(id)), LoginStored(id)) == Next(s, LoginFails(id))
    ensures forall renewal :: Next(Next(s, TickFails(id)), TickActs(id, renewal)) == Next(s, TickFails(id))
    ensures id in s.renewals && s.renewals[id].Judged? ==>
      Next(s, RenewalFails(id)) == s.(renewals := s.renewals - {id}, renewing := false)
  {
  }
}
