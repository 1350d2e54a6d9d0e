/** The flow log's admission protocol: any number of admissions and one writer,
    interleaved atomic step by atomic step.

    Each step is one atomic operation of the source: a load, a swap, a
    compare-and-swap, a channel operation or a write to the log. Time-outs, write
    failures and the scheduling are chosen by the environment. */
module FlowLog {
  import opened Basics

  // ---- state ----

  /** A line of the log: of an admission, as admitted or as refused, or of any other
      event of a flow. */
  datatype Line = AllowLine(id: nat) | RefusalLine(id: nat) | OtherLine(id: nat)

  /** A queued record; of those that are `waited` the id is an admission's. */
  datatype Item = Item(id: nat, waited: bool)

  datatype ItemState = Queued | Writing | Written | Abandoned | AbandonedLate

  /** The done channel, with room for one result. `Taken` is empty again. */
  datatype Done = Empty | Full(ok: bool) | Taken(ok: bool)

  /** Where an admission is. */
  datatype AdmPc =
    | Entry              // about to read `failed`
    | TryProbe           // the log fails: about to claim the probe
    | Enqueue
    | Waiting            // for the result or the time-out
    | TimedOut           // about to look at the channel once more
    | TryAbandon         // about to swap Queued for Abandoned
    | TryAbandonLate     // about to swap Writing for AbandonedLate
    | MustReceive        // written: the result is on its way
    | SetFailed          // about to set `failed`
    | Leaving(r: bool)   // about to give the probe back
    | Returned(r: bool)

  datatype Admission = Admission(pc: AdmPc, probe: bool, queued: bool, state: ItemState, done: Done)

  /** The writer's place in its loop. `refuse`: the line to write is a refusal; `ok`: the
      write succeeded. */
  datatype Writer =
    | Idle
    | Claim(item: Item)
    | Write(item: Item, refuse: bool)
    | MarkFailed(item: Item, refuse: bool)
    | Settle(item: Item, refuse: bool, ok: bool)
    | Clear(item: Item)
    | CheckLate(item: Item, refuse: bool, ok: bool)
    | Correct(item: Item)
    | Send(item: Item, ok: bool)

  datatype State = State(
    queue: seq<Item>, failed: bool, probing: bool, dropped: nat, log: seq<Line>,
    adms: map<nat, Admission>, writer: Writer,
    uncorrected: set<nat>)  // items whose correcting line could not be written

  const INIT := State([], false, false, 0, [], map[], Idle, {})

  // ---- steps ----

  /** What the environment chooses: a new admission, a best-effort record, a step
      of an admission (`timeout`: its wait is over), a step of the writer
      (`writes`: a write to the log succeeds). */
  datatype Action =
    | Admit(id: nat)
    | Offer(id: nat)
    | Move(id: nat, timeout: bool)
    | WriterMove(writes: bool)

  function SetAdm(s: State, id: nat, a: Admission): State { s.(adms := s.adms[id := a]) }

  /** What a step of an admission does besides moving on. */
  datatype Effect = Nothing | ClaimProbe | Push | Drop | Fail | Release

  /** One step of an admission, given what it sees: the two flags and whether the
      queue has room. A step that has to wait changes nothing. */
  function AdmissionStep(a: Admission, failed: bool, probing: bool, room: bool, timeout: bool): (Admission, Effect) {
    match a.pc
    case Entry => (a.(pc := if failed then TryProbe else Enqueue), Nothing)
    case TryProbe =>
      if probing then (a.(pc := Leaving(false)), Nothing) else (a.(pc := Enqueue, probe := true), ClaimProbe)
    case Enqueue =>
      if room then (a.(pc := Waiting, queued := true), Push) else (a.(pc := Leaving(false)), Drop)
    case Waiting =>
      if timeout then (a.(pc := TimedOut), Nothing)
      else if a.done.Full? then (Received(a), Nothing)
      else (a, Nothing)
    case TimedOut => (if a.done.Full? then Received(a) else a.(pc := TryAbandon), Nothing)
    case TryAbandon =>
      (if a.state == Queued then a.(pc := SetFailed, state := Abandoned) else a.(pc := TryAbandonLate), Nothing)
    case TryAbandonLate =>
      (if a.state == Writing then a.(pc := SetFailed, state := AbandonedLate) else a.(pc := MustReceive), Nothing)
    case MustReceive => (if a.done.Full? then Received(a) else a, Nothing)
    case SetFailed => (a.(pc := Leaving(false)), Fail)
    case Leaving(r) => (a.(pc := Returned(r), probe := false), if a.probe then Release else Nothing)
    case Returned(_) => (a, Nothing)
  }

  /** The admission returns what the channel holds. */
  function Received(a: Admission): Admission
    requires a.done.Full?
  {
    a.(pc := Leaving(a.done.ok), done := Taken(a.done.ok))
  }

  function Apply(s: State, id: nat, e: Effect): State {
    match e
    case Nothing => s
    case ClaimProbe => s.(probing := true)
    case Push => s.(queue := s.queue + [Item(id, true)])
    case Drop => s.(dropped := s.dropped + 1)
    case Fail => s.(failed := true)
    case Release => s.(probing := false)
  }

  function MoveAdm(s: State, id: nat, timeout: bool, cap: nat): State
    requires id in s.adms
  {
    var (a, e) := AdmissionStep(s.adms[id], s.failed, s.probing, |s.queue| < cap, timeout);
    Apply(SetAdm(s, id, a), id, e)
  }

  function LineOf(item: Item, refuse: bool): Line {
    if !item.waited then OtherLine(item.id) else if refuse then RefusalLine(item.id) else AllowLine(item.id)
  }

  /** What a step of the writer does: where it goes, the state it leaves the record
      in, and a line written, a result sent, a new value of `failed`, a record
      counted as dropped, a correcting line missed. */
  datatype WriterStep = WriterStep(
    next: Writer, state: ItemState, line: Option<Line>, result: Option<bool>, failed: Option<bool>, drop: bool, miss: bool)

  function Goes(next: Writer, state: ItemState): WriterStep {
    WriterStep(next, state, None, None, None, false, false)
  }

  /** One step of the writer's loop on the record it has. `st` is the record's
      state, `room` whether its channel can take a result. */
  function Work(w: Writer, st: ItemState, room: bool, writes: bool): WriterStep
    requires !w.Idle?
  {
    match w
    case Claim(item) => if st == Queued then Goes(Write(item, false), Writing) else Goes(Write(item, true), st)
    case Write(item, refuse) =>
      if writes then Goes(if item.waited then Settle(item, refuse, true) else Idle, st).(line := Some(LineOf(item, refuse)))
      else Goes(MarkFailed(item, refuse), st)
    case MarkFailed(item, refuse) =>
      if item.waited then Goes(Settle(item, refuse, false), st).(failed := Some(true))
      else Goes(Idle, st).(failed := Some(true), drop := true)
    case Settle(item, refuse, ok) =>
      if st == Writing then Goes(if ok then Clear(item) else Send(item, false), Written)
      else Goes(CheckLate(item, refuse, ok), st)
    case Clear(item) => Goes(Send(item, true), st).(failed := Some(false))
    case CheckLate(item, refuse, ok) => Goes(if st == AbandonedLate && ok then Correct(item) else Send(item, ok), st)
    case Correct(item) =>
      if writes then Goes(Send(item, true), st).(line := Some(RefusalLine(item.id)))
      else Goes(Send(item, true), st).(miss := true)
    case Send(item, ok) => if room then Goes(Idle, st).(result := Some(ok)) else Goes(w, st)  // full: it would block
  }

  /** The admission after a step of the writer on its record. */
  function Worked(a: Admission, r: WriterStep): Admission {
    a.(state := r.state, done := if r.result.Some? then Full(r.result.value) else a.done)
  }

  function MoveWriter(s: State, writes: bool): State {
    if s.writer.Idle? then
      if |s.queue| == 0 then s
      else
        var item := s.queue[0];
        s.(queue := s.queue[1..], writer := if item.waited then Claim(item) else Write(item, false))
    else
      var item := s.writer.item;
      if item.waited && item.id in s.adms then
        var a := s.adms[item.id];
        var r := Work(s.writer, a.state, !a.done.Full?, writes);
        Effects(s, item.id, r).(adms := s.adms[item.id := Worked(a, r)])
      else Effects(s, item.id, Work(s.writer, Queued, true, writes))
  }

  function Effects(s: State, id: nat, r: WriterStep): State {
    s.(writer := r.next,
       log := if r.line.Some? then s.log + [r.line.value] else s.log,
       failed := if r.failed.Some? then r.failed.value else s.failed,
       dropped := if r.drop then s.dropped + 1 else s.dropped,
       uncorrected := if r.miss then s.uncorrected + {id} else s.uncorrected)
  }

  function Next(s: State, a: Action, cap: nat): State {
    match a
    case Admit(id) =>
      if id in s.adms then s else SetAdm(s, id, Admission(Entry, false, false, Queued, Empty))
    case Offer(id) =>
      if |s.queue| < cap then s.(queue := s.queue + [Item(id, false)]) else s.(dropped := s.dropped + 1)
    case Move(id, timeout) => if id in s.adms then MoveAdm(s, id, timeout, cap) else s
    case WriterMove(writes) => MoveWriter(s, writes)
  }

  /** The state after a sequence of steps, in any interleaving. */
  function After(run: seq<Action>, cap: nat): State {
    if |run| == 0 then INIT else Next(After(run[..|run| - 1], cap), run[|run| - 1], cap)
  }

  // ---- the lines of one admission ----

  /** The lines of an admission's record, in order. */
  function LinesOf(log: seq<Line>, id: nat): seq<Line> {
    if |log| == 0 then []
    else
      var rest := LinesOf(log[..|log| - 1], id);
      var l := log[|log| - 1];
      if l == AllowLine(id) || l == RefusalLine(id) then rest + [l] else rest
  }

  lemma LinesOfAppend(log: seq<Line>, l: Line, id: nat)
    ensures LinesOf(log + [l], id) == LinesOf(log, id) + (if l == AllowLine(id) || l == RefusalLine(id) then [l] else [])
  {
    assert (log + [l])[..|log|] == log;
  }

  lemma {:induction false} LinesOfIn(log: seq<Line>, id: nat, l: Line)
    requires l == AllowLine(id) || l == RefusalLine(id)
    ensures l in log <==> l in LinesOf(log, id)
  {
    if |log| > 0 {
      assert log == log[..|log| - 1] + [log[|log| - 1]];
      LinesOfIn(log[..|log| - 1], id, l);
    }
  }

  // ---- the invariant ----

  predicate GaveUp(st: ItemState) { st == Abandoned || st == AbandonedLate }

  predicate InQueue(s: State, id: nat) { Item(id, true) in s.queue }

  predicate AtWriter(s: State, id: nat) { !s.writer.Idle? && s.writer.item == Item(id, true) }

  function WrittenLines(id: nat, refuse: bool, ok: bool): seq<Line> {
    if !ok then [] else if refuse then [RefusalLine(id)] else [AllowLine(id)]
  }

  /** The lines a record is left with once the writer is done with it. */
  predicate Finished(s: State, id: nat, st: ItemState, ok: bool) {
    var lines := LinesOf(s.log, id);
    match st
    case Written => lines == WrittenLines(id, false, ok)
    case Abandoned => lines == WrittenLines(id, true, ok)
    case AbandonedLate =>
      if !ok then lines == []
      else if id in s.uncorrected then lines == [AllowLine(id)]
      else lines == [AllowLine(id), RefusalLine(id)]
    case _ => false
  }

  /** The record while the writer has it. */
  predicate Handled(s: State, id: nat, st: ItemState)
    requires AtWriter(s, id)
  {
    var lines := LinesOf(s.log, id);
    match s.writer
    case Claim(_) => (st == Queued || st == Abandoned) && lines == []
    case Write(_, refuse) => lines == [] && if refuse then st == Abandoned else st == Writing || st == AbandonedLate
    case MarkFailed(_, refuse) => lines == [] && if refuse then st == Abandoned else st == Writing || st == AbandonedLate
    case Settle(_, refuse, ok) =>
      lines == WrittenLines(id, refuse, ok) && if refuse then st == Abandoned else st == Writing || st == AbandonedLate
    case Clear(_) => st == Written && lines == [AllowLine(id)]
    case CheckLate(_, refuse, ok) =>
      lines == WrittenLines(id, refuse, ok) && if refuse then st == Abandoned else st == AbandonedLate
    case Correct(_) => st == AbandonedLate && lines == [AllowLine(id)]
    case Send(_, ok) => Finished(s, id, st, ok)
  }

  /** An admission's place agrees with what the writer will do to its record. */
  predicate AdmissionOk(a: Admission) {
    match a.pc
    case Entry => !a.queued && !a.probe
    case TryProbe => !a.queued && !a.probe
    case Enqueue => !a.queued
    case Waiting => a.queued && !GaveUp(a.state) && !a.done.Taken?
    case TimedOut => a.queued && !GaveUp(a.state) && !a.done.Taken?
    case TryAbandon => a.queued && !GaveUp(a.state) && !a.done.Taken?
    case TryAbandonLate => a.queued && (a.state == Writing || a.state == Written) && !a.done.Taken?
    case MustReceive => a.queued && a.state == Written && !a.done.Taken?
    case SetFailed => a.queued && GaveUp(a.state) && !a.done.Taken?
    case Leaving(r) =>
      if !a.queued then !r
      else if GaveUp(a.state) then !r && !a.done.Taken?
      else a.state == Written && a.done == Taken(r)
    case Returned(r) =>
      && !a.probe
      && if !a.queued then !r
         else if GaveUp(a.state) then !r && !a.done.Taken?
         else a.state == Written && a.done == Taken(r)
  }

  predicate RecordOk(s: State, id: nat, a: Admission) {
    if !a.queued then
      !InQueue(s, id) && !AtWriter(s, id) && a.state == Queued && a.done == Empty && LinesOf(s.log, id) == [] && id !in s.uncorrected
    else if a.done != Empty then
      !InQueue(s, id) && !AtWriter(s, id) && Finished(s, id, a.state, a.done.ok)
    else if AtWriter(s, id) then
      !InQueue(s, id) && Handled(s, id, a.state) && (id in s.uncorrected ==> s.writer.Send?)
    else
      InQueue(s, id) && (a.state == Queued || a.state == Abandoned) && LinesOf(s.log, id) == [] && id !in s.uncorrected
  }

  ghost predicate EveryAdmission(s: State) {
    forall id :: id in s.adms ==> AdmissionOk(s.adms[id]) && RecordOk(s, id, s.adms[id])
  }

  ghost predicate QueueOk(s: State) {
    && (forall i :: 0 <= i < |s.queue| ==> s.queue[i].waited ==> s.queue[i].id in s.adms)
    && (forall i, j :: 0 <= i < j < |s.queue| ==> s.queue[i].waited ==> s.queue[i] != s.queue[j])
    && (!s.writer.Idle? && s.writer.item.waited ==> s.writer.item.id in s.adms)
    && (s.writer.Claim? || s.writer.Settle? || s.writer.Clear? || s.writer.CheckLate? || s.writer.Correct? || s.writer.Send? ==> s.writer.item.waited)
  }

  /** The probe is claimed exactly while one admission holds it. */
  ghost predicate ProbeOk(s: State) {
    && (forall id :: id in s.adms && s.adms[id].probe ==> s.probing)
    && (forall i, j :: i in s.adms && j in s.adms && s.adms[i].probe && s.adms[j].probe ==> i == j)
    && (s.probing ==> exists id :: id in s.adms && s.adms[id].probe)
  }

  /** Nothing is said of an admission that has not begun. */
  ghost predicate FutureOk(s: State) {
    forall id :: id !in s.adms ==> LinesOf(s.log, id) == [] && id !in s.uncorrected
  }

  ghost predicate Inv(s: State) { EveryAdmission(s) && QueueOk(s) && ProbeOk(s) && FutureOk(s) }

  // ---- every step keeps the invariant ----

  /** The record `id` looks the same to queue, writer and log. */
  predicate SameView(s: State, s': State, id: nat) {
    && (InQueue(s, id) <==> InQueue(s', id))
    && (AtWriter(s, id) <==> AtWriter(s', id))
    && (AtWriter(s, id) ==> s.writer == s'.writer)
    && LinesOf(s.log, id) == LinesOf(s'.log, id)
    && (id in s.uncorrected <==> id in s'.uncorrected)
  }

  lemma SameViewKeeps(s: State, s': State, id: nat, a: Admission)
    requires RecordOk(s, id, a) && SameView(s, s', id)
    ensures RecordOk(s', id, a)
  {
  }

  lemma AdmissionStepOk(a: Admission, failed: bool, probing: bool, room: bool, timeout: bool)
    requires AdmissionOk(a)
    requires a.done != Empty ==> a.state != Queued && a.state != Writing
    requires !a.queued ==> a.state == Queued && a.done == Empty
    ensures AdmissionOk(AdmissionStep(a, failed, probing, room, timeout).0)
  {
  }

  /** What a step may change of a record: take the result, or give up on it. */
  lemma StepChanges(a: Admission, failed: bool, probing: bool, room: bool, timeout: bool)
    requires AdmissionOk(a)
    ensures var (a', e) := AdmissionStep(a, failed, probing, room, timeout);
            && (e == Push ==> !a.queued && a'.queued && a'.state == a.state && a'.done == a.done)
            && (e != Push ==> a'.queued == a.queued)
            && (e != Push ==> || (a'.state == a.state && a'.done == a.done)
                              || (a'.state == a.state && a.done.Full? && a'.done == Taken(a.done.ok))
                              || (a.state == Queued && a'.state == Abandoned && a'.done == a.done && a.queued)
                              || (a.state == Writing && a'.state == AbandonedLate && a'.done == a.done && a.queued))
  {
  }

  lemma GiveUpQueued(s: State, id: nat, a: Admission)
    requires RecordOk(s, id, a) && a.queued && a.state == Queued
    ensures RecordOk(s, id, a.(state := Abandoned))
  {
    hide LinesOf;
  }

  lemma GiveUpWriting(s: State, id: nat, a: Admission)
    requires RecordOk(s, id, a) && a.queued && a.state == Writing
    ensures RecordOk(s, id, a.(state := AbandonedLate))
  {
    hide LinesOf;
  }

  /** A record is in order or not whatever the admission's place and probe are. */
  lemma PlaceDoesNotMatter(s: State, id: nat, a: Admission, a': Admission)
    requires RecordOk(s, id, a) && a'.queued == a.queued && a'.state == a.state
    requires a'.done == a.done || (a.done.Full? && a'.done == Taken(a.done.ok))
    ensures RecordOk(s, id, a')
  {
  }

  /** The record as the admission's step leaves it. */
  lemma RecordStepOk(s: State, id: nat, a: Admission, a': Admission, e: Effect, timeout: bool, cap: nat)
    requires AdmissionOk(a) && RecordOk(s, id, a)
    requires (a', e) == AdmissionStep(a, s.failed, s.probing, |s.queue| < cap, timeout)
    ensures RecordOk(Apply(SetAdm(s, id, a'), id, e), id, a')
  {
    hide AdmissionStep, AdmissionOk;
    StepChanges(a, s.failed, s.probing, |s.queue| < cap, timeout);
    var s' := Apply(SetAdm(s, id, a'), id, e);
    if e == Push {
      assert s'.queue[|s.queue|] == Item(id, true);
    } else {
      hide RecordOk;
      if a'.state == a.state {
        PlaceDoesNotMatter(s, id, a, a');
      } else if a.state == Queued {
        GiveUpQueued(s, id, a);
        PlaceDoesNotMatter(s, id, a.(state := Abandoned), a');
      } else {
        GiveUpWriting(s, id, a);
        PlaceDoesNotMatter(s, id, a.(state := AbandonedLate), a');
      }
      SameViewKeeps(s, s', id, a');
    }
  }

  /** Every other record is left alone. */
  lemma ApplyView(s: State, id: nat, a: Admission, e: Effect, other: nat)
    requires other != id
    ensures SameView(s, Apply(SetAdm(s, id, a), id, e), other)
  {
    hide LinesOf;
    assert Item(other, true) in s.queue + [Item(id, true)] <==> Item(other, true) in s.queue;
  }

  lemma MoveEveryAdmission(s: State, id: nat, timeout: bool, cap: nat)
    requires EveryAdmission(s) && id in s.adms
    ensures EveryAdmission(MoveAdm(s, id, timeout, cap))
  {
    hide AdmissionOk, RecordOk, SameView, AdmissionStep;
    var a := s.adms[id];
    var (a', e) := AdmissionStep(a, s.failed, s.probing, |s.queue| < cap, timeout);
    var s' := MoveAdm(s, id, timeout, cap);
    assert s'.adms == s.adms[id := a'];
    DoneIsFinished(s, id, a);
    AdmissionStepOk(a, s.failed, s.probing, |s.queue| < cap, timeout);
    RecordStepOk(s, id, a, a', e, timeout, cap);
    forall other | other in s'.adms && other != id
      ensures AdmissionOk(s'.adms[other]) && RecordOk(s', other, s'.adms[other])
    {
      ApplyView(s, id, a', e, other);
      SameViewKeeps(s, s', other, s.adms[other]);
    }
  }

  lemma DoneIsFinished(s: State, id: nat, a: Admission)
    requires RecordOk(s, id, a)
    ensures a.done != Empty ==> a.state != Queued && a.state != Writing
    ensures !a.queued ==> !InQueue(s, id) && a.state == Queued && a.done == Empty
    ensures AtWriter(s, id) ==> a.done == Empty
  {
  }

  lemma MoveQueue(s: State, id: nat, timeout: bool, cap: nat)
    requires EveryAdmission(s) && QueueOk(s) && id in s.adms
    ensures QueueOk(MoveAdm(s, id, timeout, cap))
  {
    hide RecordOk, AdmissionOk;
    DoneIsFinished(s, id, s.adms[id]);
    EnqueueOnce(s.adms[id], s.failed, s.probing, |s.queue| < cap, timeout);
  }

  lemma EnqueueOnce(a: Admission, failed: bool, probing: bool, room: bool, timeout: bool)
    requires AdmissionOk(a)
    ensures AdmissionStep(a, failed, probing, room, timeout).1 == Push ==> !a.queued
  {
  }

  /** A probe is claimed only when none is out, and given back by its holder. */
  lemma ProbeStep(a: Admission, failed: bool, probing: bool, room: bool, timeout: bool)
    requires AdmissionOk(a)
    ensures var (a', e) := AdmissionStep(a, failed, probing, room, timeout);
            && (e == ClaimProbe ==> !probing && a'.probe)
            && (e == Release ==> a.probe && !a'.probe)
            && (e != ClaimProbe && e != Release ==> a'.probe == a.probe)
  {
  }

  lemma MoveProbe(s: State, id: nat, timeout: bool, cap: nat)
    requires EveryAdmission(s) && ProbeOk(s) && id in s.adms
    ensures ProbeOk(MoveAdm(s, id, timeout, cap))
  {
    hide AdmissionStep, RecordOk, AdmissionOk;
    var a, s' := s.adms[id], MoveAdm(s, id, timeout, cap);
    ProbeStep(a, s.failed, s.probing, |s.queue| < cap, timeout);
    var (a', e) := AdmissionStep(a, s.failed, s.probing, |s.queue| < cap, timeout);
    assert s'.adms == s.adms[id := a'];
    if s'.probing {
      if e == ClaimProbe {
        assert s'.adms[id].probe;
      } else {
        var p :| p in s.adms && s.adms[p].probe;
        assert p in s'.adms && s'.adms[p].probe;
      }
    }
  }

  lemma MoveKeeps(s: State, id: nat, timeout: bool, cap: nat)
    requires Inv(s) && id in s.adms
    ensures Inv(MoveAdm(s, id, timeout, cap))
  {
    hide EveryAdmission, QueueOk, ProbeOk, AdmissionStep;
    MoveEveryAdmission(s, id, timeout, cap);
    MoveQueue(s, id, timeout, cap);
    MoveProbe(s, id, timeout, cap);
  }

  lemma AdmitKeeps(s: State, id: nat)
    requires Inv(s) && id !in s.adms
    ensures Inv(SetAdm(s, id, Admission(Entry, false, false, Queued, Empty)))
  {
    var s' := SetAdm(s, id, Admission(Entry, false, false, Queued, Empty));
    forall other | other in s.adms
      ensures AdmissionOk(s.adms[other]) && RecordOk(s', other, s.adms[other])
    {
      assert SameView(s, s', other);
      SameViewKeeps(s, s', other, s.adms[other]);
    }
    assert !InQueue(s', id) && !AtWriter(s', id);
    assert LinesOf(s.log, id) == [];
    if s'.probing {
      var p :| p in s.adms && s.adms[p].probe;
      assert p in s'.adms && s'.adms[p].probe;
    }
  }

  // ---- the writer keeps the invariant ----

  /** Taking the next record off the queue. */
  lemma DequeueKeeps(s: State)
    requires Inv(s) && s.writer.Idle? && |s.queue| > 0
    ensures Inv(MoveWriter(s, true)) && MoveWriter(s, true) == MoveWriter(s, false)
  {
    hide LinesOf, AdmissionOk;
    var s', item := MoveWriter(s, true), s.queue[0];
    forall id | id in s.adms
      ensures RecordOk(s', id, s.adms[id])
    {
      var a := s.adms[id];
      assert RecordOk(s, id, a);
      if item == Item(id, true) {
        assert InQueue(s, id) && !InQueue(s', id) && AtWriter(s', id);
      } else {
        StillQueued(s.queue, Item(id, true));
        assert SameView(s, s', id);
        SameViewKeeps(s, s', id, a);
      }
    }
  }

  lemma StillQueued(queue: seq<Item>, item: Item)
    requires |queue| > 0 && queue[0] != item
    ensures item in queue <==> item in queue[1..]
  {
    assert queue == [queue[0]] + queue[1..];
  }

  /** Every step of the writer stays with its record, until it is done with it. */
  lemma WorkStays(w: Writer, st: ItemState, room: bool, writes: bool)
    requires !w.Idle?
    ensures var r := Work(w, st, room, writes);
            && (!r.next.Idle? ==> r.next.item == w.item)
            && (r.line.Some? ==> r.line.value == OtherLine(w.item.id) || r.line.value == AllowLine(w.item.id) || r.line.value == RefusalLine(w.item.id))
            && (r.line.Some? && !w.item.waited && !w.Correct? ==> r.line.value == OtherLine(w.item.id))
            && (r.miss ==> w.Correct?)
            && (w.item.waited || w.Write? || w.MarkFailed? ==>
                  (r.next.Claim? || r.next.Settle? || r.next.Clear? || r.next.CheckLate? || r.next.Correct? || r.next.Send? ==> w.item.waited))
  {
  }

  /** What the writer is doing does not concern other records. */
  lemma WriterLeavesOthers(s: State, writes: bool, id: nat)
    requires QueueOk(s) && !s.writer.Idle? && s.writer.item != Item(id, true)
    ensures SameView(s, MoveWriter(s, writes), id)
    ensures id in s.adms ==> id in MoveWriter(s, writes).adms && MoveWriter(s, writes).adms[id] == s.adms[id]
  {
    hide LinesOf, Work;
    var item := s.writer.item;
    var known := item.waited && item.id in s.adms;
    var st, room := if known then s.adms[item.id].state else Queued, if known then !s.adms[item.id].done.Full? else true;
    WorkStays(s.writer, st, room, writes);
    var r := Work(s.writer, st, room, writes);
    if r.line.Some? { LinesOfAppend(s.log, r.line.value, id); }
  }

  /** The record as a step of the writer on it leaves it. */
  lemma WriterOwn(s: State, writes: bool, id: nat, a: Admission)
    requires AtWriter(s, id) && id in s.adms && s.adms[id] == a
    requires AdmissionOk(a) && RecordOk(s, id, a)
    ensures var s' := MoveWriter(s, writes);
            && s'.adms.Keys == s.adms.Keys
            && AdmissionOk(s'.adms[id])
            && RecordOk(s', id, s'.adms[id])
  {
    hide LinesOf, AdmissionOk, Finished, WrittenLines;
    assert a.queued && a.done == Empty && Handled(s, id, a.state);
    var r := Work(s.writer, a.state, true, writes);
    WorkedAdmissionOk(s, id, a, r, writes);
    if r.line.Some? { LinesOfAppend(s.log, r.line.value, id); }
    WorkedRecordOk(s, id, a, r, writes, MoveWriter(s, writes));
  }

  lemma WorkedAdmissionOk(s: State, id: nat, a: Admission, r: WriterStep, writes: bool)
    requires AtWriter(s, id) && Handled(s, id, a.state) && AdmissionOk(a) && a.queued && a.done == Empty
    requires r == Work(s.writer, a.state, true, writes)
    ensures AdmissionOk(Worked(a, r))
  {
    hide LinesOf, Finished;
    assert r.state == a.state || (a.state == Queued && r.state == Writing) || (a.state == Writing && r.state == Written);
  }

  lemma WorkedRecordOk(s: State, id: nat, a: Admission, r: WriterStep, writes: bool, s': State)
    requires AtWriter(s, id) && RecordOk(s, id, a) && Handled(s, id, a.state) && a.queued && a.done == Empty
    requires r == Work(s.writer, a.state, true, writes)
    requires s'.queue == s.queue && s'.writer == r.next && (s'.uncorrected == if r.miss then s.uncorrected + {id} else s.uncorrected)
    requires LinesOf(s'.log, id) == LinesOf(s.log, id) + (if r.line.Some? then [r.line.value] else [])
    ensures RecordOk(s', id, Worked(a, r))
  {
    hide LinesOf, RecordOk;
    if s.writer.Write? || s.writer.Correct? {
      WorkedLine(s, id, a, r, writes, s');
    } else {
      WorkedOn(s, id, a, r, writes, s');
    }
  }

  /** The steps that write a line, or fail to. */
  lemma WorkedLine(s: State, id: nat, a: Admission, r: WriterStep, writes: bool, s': State)
    requires AtWriter(s, id) && RecordOk(s, id, a) && Handled(s, id, a.state) && a.queued && a.done == Empty
    requires s.writer.Write? || s.writer.Correct?
    requires r == Work(s.writer, a.state, true, writes)
    requires s'.queue == s.queue && s'.writer == r.next && (s'.uncorrected == if r.miss then s.uncorrected + {id} else s.uncorrected)
    requires LinesOf(s'.log, id) == LinesOf(s.log, id) + (if r.line.Some? then [r.line.value] else [])
    ensures RecordOk(s', id, Worked(a, r))
  {
    hide LinesOf;
  }

  /** The steps in between. */
  lemma WorkedOn(s: State, id: nat, a: Admission, r: WriterStep, writes: bool, s': State)
    requires AtWriter(s, id) && RecordOk(s, id, a) && Handled(s, id, a.state) && a.queued && a.done == Empty
    requires !s.writer.Write? && !s.writer.Correct?
    requires r == Work(s.writer, a.state, true, writes)
    requires s'.queue == s.queue && s'.writer == r.next && (s'.uncorrected == if r.miss then s.uncorrected + {id} else s.uncorrected)
    requires LinesOf(s'.log, id) == LinesOf(s.log, id) + (if r.line.Some? then [r.line.value] else [])
    ensures RecordOk(s', id, Worked(a, r))
  {
    hide LinesOf;
  }

  lemma WriterQueue(s: State, writes: bool)
    requires QueueOk(s) && !s.writer.Idle?
    ensures QueueOk(MoveWriter(s, writes)) && MoveWriter(s, writes).queue == s.queue
    ensures MoveWriter(s, writes).adms.Keys == s.adms.Keys
    ensures forall id :: id in s.adms ==> MoveWriter(s, writes).adms[id].probe == s.adms[id].probe
    ensures MoveWriter(s, writes).probing == s.probing
  {
    hide Work;
    var item := s.writer.item;
    var known := item.waited && item.id in s.adms;
    WorkStays(s.writer, if known then s.adms[item.id].state else Queued, if known then !s.adms[item.id].done.Full? else true, writes);
  }

  lemma ProbeUntouched(s: State, s': State)
    requires ProbeOk(s) && s'.probing == s.probing && s'.adms.Keys == s.adms.Keys
    requires forall id :: id in s.adms ==> s'.adms[id].probe == s.adms[id].probe
    ensures ProbeOk(s')
  {
    if s'.probing {
      var p :| p in s.adms && s.adms[p].probe;
      assert p in s'.adms && s'.adms[p].probe;
    }
  }

  lemma BusyWriterKeeps(s: State, writes: bool)
    requires Inv(s) && !s.writer.Idle?
    ensures Inv(MoveWriter(s, writes))
  {
    var s', item := MoveWriter(s, writes), s.writer.item;
    hide MoveWriter, RecordOk, AdmissionOk, SameView, LinesOf;
    WriterQueue(s, writes);
    hide QueueOk;
    ProbeUntouched(s, s');
    hide ProbeOk;
    forall id | id in s'.adms
      ensures AdmissionOk(s'.adms[id]) && RecordOk(s', id, s'.adms[id])
    {
      var a := s.adms[id];
      if item == Item(id, true) {
        WriterOwn(s, writes, id, a);
      } else {
        WriterLeavesOthers(s, writes, id);
        SameViewKeeps(s, s', id, a);
      }
    }
    forall id | id !in s'.adms
      ensures LinesOf(s'.log, id) == [] && id !in s'.uncorrected
    {
      WaitedIsKnown(s);
      WriterLeavesOthers(s, writes, id);
      SameViewLines(s, s', id);
    }
  }

  lemma WaitedIsKnown(s: State)
    requires QueueOk(s) && !s.writer.Idle?
    ensures s.writer.item.waited ==> s.writer.item.id in s.adms
  {
  }

  lemma SameViewLines(s: State, s': State, id: nat)
    requires SameView(s, s', id)
    ensures LinesOf(s'.log, id) == LinesOf(s.log, id) && (id in s.uncorrected <==> id in s'.uncorrected)
  {
  }

  lemma InitInv()
    ensures Inv(INIT)
  {
  }

  lemma NextKeeps(s: State, a: Action, cap: nat)
    requires Inv(s)
    ensures Inv(Next(s, a, cap))
  {
    match a
    case Admit(id) => if id !in s.adms { AdmitKeeps(s, id); }
    case Offer(id) => OfferKeeps(s, id, cap);
    case Move(id, timeout) => if id in s.adms { MoveKeeps(s, id, timeout, cap); }
    case WriterMove(writes) =>
      if !s.writer.Idle? { BusyWriterKeeps(s, writes); }
      else if |s.queue| > 0 { DequeueKeeps(s); }
  }

  lemma OfferKeeps(s: State, id: nat, cap: nat)
    requires Inv(s)
    ensures Inv(Next(s, Offer(id), cap))
  {
    var s' := Next(s, Offer(id), cap);
    hide LinesOf, AdmissionOk;
    forall other | other in s.adms
      ensures RecordOk(s', other, s.adms[other])
    {
      assert Item(other, true) in s.queue + [Item(id, false)] <==> Item(other, true) in s.queue;
      assert SameView(s, s', other);
      SameViewKeeps(s, s', other, s.adms[other]);
    }
  }

  /** The invariant holds after every run, whatever the interleaving, the
      time-outs and the write failures. */
  lemma {:induction false} InvAlways(run: seq<Action>, cap: nat)
    ensures Inv(After(run, cap))
  {
    hide Inv;
    if |run| == 0 {
      InitInv();
    } else {
      InvAlways(run[..|run| - 1], cap);
      NextKeeps(After(run[..|run| - 1], cap), run[|run| - 1], cap);
    }
  }

  // ---- no record, no flow ----

  /** An admission returns true only if its allow line is in the log, and no
      refusal of it ever is. (`After` ranges over all runs, so also over every
      continuation of the one in which the admission returned.) */
  lemma AdmittedIsWritten(run: seq<Action>, cap: nat, id: nat)
    requires id in After(run, cap).adms && After(run, cap).adms[id].pc == Returned(true)
    ensures AllowLine(id) in After(run, cap).log && RefusalLine(id) !in After(run, cap).log
    ensures LinesOf(After(run, cap).log, id) == [AllowLine(id)]
  {
    InvAlways(run, cap);
    var s := After(run, cap);
    AdmittedLines(s, id);
    LinesOfIn(s.log, id, AllowLine(id));
    LinesOfIn(s.log, id, RefusalLine(id));
  }

  lemma AdmittedLines(s: State, id: nat)
    requires Inv(s) && id in s.adms && s.adms[id].pc == Returned(true)
    ensures LinesOf(s.log, id) == [AllowLine(id)]
  {
    hide LinesOf, QueueOk, ProbeOk, FutureOk;
    assert AdmissionOk(s.adms[id]) && RecordOk(s, id, s.adms[id]);
  }

  /** An admission that has returned stays as it is. */
  lemma {:induction false} ReturnedForGood(run: seq<Action>, more: seq<Action>, cap: nat, id: nat, r: bool)
    requires id in After(run, cap).adms && After(run, cap).adms[id].pc == Returned(r)
    ensures id in After(run + more, cap).adms && After(run + more, cap).adms[id].pc == Returned(r)
  {
    if |more| == 0 {
      assert run + more == run;
    } else {
      var n := |more| - 1;
      ReturnedForGood(run, more[..n], cap, id, r);
      assert (run + more)[..|run + more| - 1] == run + more[..n];
      NextKeepsReturned(After(run + more[..n], cap), more[n], cap, id, r);
    }
  }

  lemma NextKeepsReturned(s: State, a: Action, cap: nat, id: nat, r: bool)
    requires id in s.adms && s.adms[id].pc == Returned(r)
    ensures id in Next(s, a, cap).adms && Next(s, a, cap).adms[id].pc == Returned(r)
  {
  }

  /** The writer is done with a queued record. */
  predicate WriterDone(s: State, id: nat)
    requires id in s.adms
  {
    s.adms[id].queued && !InQueue(s, id) && !AtWriter(s, id)
  }

  /** After a false return, once the writer is done with the record, its lines are none
      or end in a refusal; an allow line can stand last only where the write of the
      refusal failed. */
  lemma RefusedIsNotAllowed(run: seq<Action>, cap: nat, id: nat)
    requires id in After(run, cap).adms
    requires After(run, cap).adms[id].pc == Returned(false) && WriterDone(After(run, cap), id)
    ensures var lines := LinesOf(After(run, cap).log, id);
            || lines == []
            || lines[|lines| - 1] == RefusalLine(id)
            || (id in After(run, cap).uncorrected && lines == [AllowLine(id)])
  {
    InvAlways(run, cap);
    RefusedLines(After(run, cap), id);
  }

  lemma RefusedLines(s: State, id: nat)
    requires Inv(s) && id in s.adms && s.adms[id].pc == Returned(false) && WriterDone(s, id)
    ensures var lines := LinesOf(s.log, id);
            || lines == []
            || lines[|lines| - 1] == RefusalLine(id)
            || (id in s.uncorrected && lines == [AllowLine(id)])
  {
    hide LinesOf, QueueOk, ProbeOk, FutureOk;
    assert AdmissionOk(s.adms[id]) && RecordOk(s, id, s.adms[id]);
  }

  /** A record that never got into the queue leaves no line at all. */
  lemma NotQueuedLeavesNoLine(run: seq<Action>, cap: nat, id: nat)
    requires id in After(run, cap).adms && !After(run, cap).adms[id].queued
    ensures LinesOf(After(run, cap).log, id) == []
    ensures forall r :: After(run, cap).adms[id].pc == Returned(r) ==> !r
  {
    InvAlways(run, cap);
    var s := After(run, cap);
    hide LinesOf, QueueOk, ProbeOk, FutureOk;
    assert AdmissionOk(s.adms[id]) && RecordOk(s, id, s.adms[id]);
  }

  // ---- the probe and the switch ----

  /** Two admissions that hold the probe are one, and `probing` is set. */
  lemma OneProbeAtATime(run: seq<Action>, cap: nat, i: nat, j: nat)
    requires i in After(run, cap).adms && After(run, cap).adms[i].probe
    requires j in After(run, cap).adms && After(run, cap).adms[j].probe
    ensures i == j && After(run, cap).probing
  {
    InvAlways(run, cap);
  }

  /** Only the record of an admission that has returned true, or can return
      nothing else, switches admission back on. */
  lemma OnlyAnAdmissionClears(run: seq<Action>, a: Action, cap: nat)
    requires After(run, cap).failed && !After(run + [a], cap).failed
    ensures a.WriterMove? && After(run, cap).writer.Clear?
    ensures var id := After(run, cap).writer.item.id;
            id in After(run, cap).adms && MustAdmit(After(run, cap), id)
  {
    assert (run + [a])[..|run|] == run;
    InvAlways(run, cap);
    var s := After(run, cap);
    hide LinesOf, ProbeOk, FutureOk;
    if a.WriterMove? && s.writer.Clear? {
      var id := s.writer.item.id;
      assert AtWriter(s, id);
      assert AdmissionOk(s.adms[id]) && RecordOk(s, id, s.adms[id]);
    }
  }

  /** The admission's record is written and its result, a success, is on its way
      or taken: it can only return true. */
  predicate MustAdmit(s: State, id: nat)
    requires id in s.adms
  {
    var a := s.adms[id];
    && a.queued && a.state == Written
    && ((a.done == Empty && AtWriter(s, id) && (s.writer.Clear? || (s.writer.Send? && s.writer.ok)))
        || (a.done.Full? && a.done.ok)
        || (a.done.Taken? && a.done.ok))
  }

  lemma MustAdmitStays(s: State, a: Action, cap: nat, id: nat)
    requires Inv(s) && id in s.adms && MustAdmit(s, id)
    ensures id in Next(s, a, cap).adms && MustAdmit(Next(s, a, cap), id)
  {
    match a
    case Admit(_) =>
    case Offer(_) =>
    case Move(other, timeout) => if other in s.adms { MustAdmitMove(s, other, timeout, cap, id); }
    case WriterMove(writes) => MustAdmitWriter(s, writes, id);
  }

  lemma MustAdmitMove(s: State, other: nat, timeout: bool, cap: nat, id: nat)
    requires Inv(s) && id in s.adms && MustAdmit(s, id) && other in s.adms
    ensures id in MoveAdm(s, other, timeout, cap).adms && MustAdmit(MoveAdm(s, other, timeout, cap), id)
  {
    hide AdmissionStep, RecordOk, QueueOk, ProbeOk, FutureOk, AdmissionOk;
    StepChanges(s.adms[other], s.failed, s.probing, |s.queue| < cap, timeout);
  }

  lemma MustAdmitWriter(s: State, writes: bool, id: nat)
    requires Inv(s) && id in s.adms && MustAdmit(s, id)
    ensures id in MoveWriter(s, writes).adms && MustAdmit(MoveWriter(s, writes), id)
  {
    hide RecordOk, ProbeOk, FutureOk, AdmissionOk;
    if !s.writer.Idle? {
      if AtWriter(s, id) { DoneIsFinished(s, id, s.adms[id]); } else { WriterLeavesOthers(s, writes, id); }
    }
  }

  /** From the step that cleared the switch on, the admission returns true or not at all. */
  lemma {:induction false} ClearingAdmissionReturnsTrue(run: seq<Action>, more: seq<Action>, cap: nat, id: nat, r: bool)
    requires id in After(run, cap).adms && MustAdmit(After(run, cap), id)
    ensures id in After(run + more, cap).adms && MustAdmit(After(run + more, cap), id)
    ensures After(run + more, cap).adms[id].pc == Returned(r) ==> r
  {
    hide Inv, MustAdmit, Next;
    InvAlways(run + more, cap);
    if |more| == 0 {
      assert run + more == run;
    } else {
      var n := |more| - 1;
      ClearingAdmissionReturnsTrue(run, more[..n], cap, id, r);
      assert (run + more)[..|run + more| - 1] == run + more[..n];
      InvAlways(run + more[..n], cap);
      MustAdmitStays(After(run + more[..n], cap), more[n], cap, id);
    }
    MustAdmitMeansTrue(After(run + more, cap), id);
  }

  lemma MustAdmitMeansTrue(s: State, id: nat)
    requires Inv(s) && id in s.adms && MustAdmit(s, id)
    ensures forall r :: s.adms[id].pc == Returned(r) ==> r
  {
    hide LinesOf, QueueOk, ProbeOk, FutureOk;
    assert AdmissionOk(s.adms[id]) && RecordOk(s, id, s.adms[id]);
  }

  /** The writer never blocks: when it sends a result, the channel is empty. */
  lemma WriterNeverBlocks(run: seq<Action>, cap: nat, writes: bool)
    requires After(run, cap).writer.Send?
    ensures var s := After(run, cap);
            s.writer.item.id in s.adms && s.adms[s.writer.item.id].done == Empty
    ensures After(run + [WriterMove(writes)], cap).writer.Idle?
  {
    InvAlways(run, cap);
    var s := After(run, cap);
    hide LinesOf, ProbeOk, FutureOk;
    var id := s.writer.item.id;
    assert AtWriter(s, id);
    assert RecordOk(s, id, s.adms[id]);
    assert (run + [WriterMove(writes)])[..|run|] == run;
  }

  /** An admission that must wait for its result waits for a writer that has it:
      the result is in the channel, or the writer is about to send it. */
  lemma MustReceiveIsServed(run: seq<Action>, cap: nat, id: nat)
    requires id in After(run, cap).adms && After(run, cap).adms[id].pc == MustReceive
    ensures var s := After(run, cap);
            s.adms[id].done.Full? || (AtWriter(s, id) && (s.writer.Clear? || s.writer.Send?))
  {
    InvAlways(run, cap);
    var s := After(run, cap);
    hide LinesOf, ProbeOk, FutureOk;
    assert AdmissionOk(s.adms[id]) && RecordOk(s, id, s.adms[id]);
  }

  // ---- no refusal without a reason ----

  /** What goes wrong for an admission at a step: the probe is held by another, the
      queue is full, its wait ends, or the write of its line fails. */
  predicate GoesWrong(s: State, a: Action, cap: nat, id: nat) {
    && id in s.adms
    && (|| (a.Move? && a.id == id && s.adms[id].pc == TryProbe && s.probing)
        || (a.Move? && a.id == id && s.adms[id].pc == Enqueue && |s.queue| >= cap)
        || (a == Move(id, true) && s.adms[id].pc == Waiting)
        || (a == WriterMove(false) && s.writer.Write? && s.writer.item == Item(id, true)))
  }

  /** It did so at step n of the run. */
  ghost predicate WentWrong(run: seq<Action>, cap: nat, id: nat, n: nat) {
    n < |run| && GoesWrong(After(run[..n], cap), run[n], cap, id)
  }

  /** The admission waits no longer, or holds a failure. */
  predicate GivenUp(a: Admission) {
    || a.pc in {TimedOut, TryAbandon, TryAbandonLate, MustReceive, SetFailed, Leaving(false), Returned(false)}
    || GaveUp(a.state) || a.done == Full(false) || a.done == Taken(false)
  }

  /** The writer has the record, and failed to write it. */
  predicate WriteFailed(s: State, id: nat) {
    && AtWriter(s, id)
    && (s.writer.MarkFailed? || (s.writer.Settle? && !s.writer.ok) || (s.writer.CheckLate? && !s.writer.ok) || (s.writer.Send? && !s.writer.ok))
  }

  predicate Doomed(s: State, id: nat) { id in s.adms && (GivenUp(s.adms[id]) || WriteFailed(s, id)) }

  lemma GivenUpByStep(a: Admission, failed: bool, probing: bool, room: bool, timeout: bool)
    requires AdmissionOk(a) && GivenUp(AdmissionStep(a, failed, probing, room, timeout).0)
    ensures GivenUp(a) || (a.pc == TryProbe && probing) || (a.pc == Enqueue && !room) || (a.pc == Waiting && timeout)
  {
  }

  lemma DoomedByMove(s: State, other: nat, timeout: bool, cap: nat, id: nat)
    requires EveryAdmission(s) && other in s.adms && Doomed(MoveAdm(s, other, timeout, cap), id)
    ensures Doomed(s, id) || GoesWrong(s, Move(other, timeout), cap, id)
  {
    hide RecordOk, AdmissionOk, AdmissionStep, GivenUp;
    var (a', e) := AdmissionStep(s.adms[other], s.failed, s.probing, |s.queue| < cap, timeout);
    assert MoveAdm(s, other, timeout, cap).adms == s.adms[other := a'];
    if other == id && GivenUp(a') {
      GivenUpByStep(s.adms[id], s.failed, s.probing, |s.queue| < cap, timeout);
    }
  }

  lemma DoomedByWriter(s: State, writes: bool, cap: nat, id: nat)
    requires EveryAdmission(s) && QueueOk(s) && Doomed(MoveWriter(s, writes), id)
    ensures Doomed(s, id) || GoesWrong(s, WriterMove(writes), cap, id)
  {
    hide LinesOf, AdmissionOk;
    if !s.writer.Idle? {
      if s.writer.item == Item(id, true) {
        assert RecordOk(s, id, s.adms[id]);
      } else {
        WriterLeavesOthers(s, writes, id);
      }
    }
  }

  lemma DoomedStep(s: State, a: Action, cap: nat, id: nat)
    requires Inv(s) && Doomed(Next(s, a, cap), id)
    ensures Doomed(s, id) || GoesWrong(s, a, cap, id)
  {
    hide EveryAdmission, LinesOf;
    match a
    case Admit(_) =>
    case Offer(_) =>
    case Move(other, timeout) => if other in s.adms { DoomedByMove(s, other, timeout, cap, id); }
    case WriterMove(writes) => DoomedByWriter(s, writes, cap, id);
  }

  lemma {:induction false} DoomedForAReason(run: seq<Action>, cap: nat, id: nat)
    requires Doomed(After(run, cap), id)
    ensures exists n: nat :: WentWrong(run, cap, id, n)
  {
    hide Doomed, GoesWrong, Next;
    if |run| > 0 {
      var n := |run| - 1;
      InvAlways(run[..n], cap);
      DoomedStep(After(run[..n], cap), run[n], cap, id);
      if Doomed(After(run[..n], cap), id) {
        DoomedForAReason(run[..n], cap, id);
        var m: nat :| WentWrong(run[..n], cap, id, m);
        assert run[..n][..m] == run[..m];
        assert WentWrong(run, cap, id, m);
      } else {
        assert WentWrong(run, cap, id, n);
      }
    } else {
      NotDoomedAtFirst(id);
    }
  }

  lemma NotDoomedAtFirst(id: nat)
    ensures !Doomed(INIT, id)
  {
  }

  /** In every run an admission is refused only if something went wrong for it. */
  lemma RefusedForAReason(run: seq<Action>, cap: nat, id: nat)
    requires id in After(run, cap).adms && After(run, cap).adms[id].pc == Returned(false)
    ensures exists n: nat :: WentWrong(run, cap, id, n)
  {
    DoomedForAReason(run, cap, id);
  }

  // ---- a healthy log admits ----

  lemma AfterOne(run: seq<Action>, a: Action, cap: nat)
    ensures After(run + [a], cap) == Next(After(run, cap), a, cap)
  {
    assert (run + [a])[..|run|] == run;
  }

  /** The next admission with room in the queue is queued, be it as the probe of a log
      that fails. */
  lemma NextIsQueued(run: seq<Action>, cap: nat, id: nat) returns (more: seq<Action>)
    requires var s := After(run, cap); id !in s.adms && |s.queue| < cap && !(s.failed && s.probing)
    ensures forall a :: a in more ==> a == Admit(id) || a == Move(id, false)
    ensures var s, s' := After(run, cap), After(run + more, cap);
      && s'.queue == s.queue + [Item(id, true)] && s'.probing == (s.failed || s.probing)
      && s' == s.(queue := s'.queue, probing := s'.probing, adms := s.adms[id := Admission(Waiting, s.failed, true, Queued, Empty)])
  {
    hide After;
    var s := After(run, cap);
    var r1 := run + [Admit(id)];
    AfterOne(run, Admit(id), cap);
    var r2 := r1 + [Move(id, false)];
    AfterOne(r1, Move(id, false), cap);
    var r3 := r2 + [Move(id, false)];
    AfterOne(r2, Move(id, false), cap);
    if s.failed {
      AfterOne(r3, Move(id, false), cap);
      more := [Admit(id), Move(id, false), Move(id, false), Move(id, false)];
      assert run + more == r3 + [Move(id, false)];
    } else {
      more := [Admit(id), Move(id, false), Move(id, false)];
      assert run + more == r3;
    }
  }

  lemma ClaimsFirst(s: State, id: nat, cap: nat, a: Admission)
    requires s.writer == Claim(Item(id, true)) && id in s.adms && s.adms[id] == a && a.state == Queued && a.done == Empty
    ensures Next(s, WriterMove(true), cap) == s.(writer := Write(Item(id, true), false), adms := s.adms[id := a.(state := Writing)])
  {
  }

  lemma WritesThen(s: State, id: nat, cap: nat, a: Admission)
    requires s.writer == Write(Item(id, true), false) && id in s.adms && s.adms[id] == a && a.state == Writing && a.done == Empty
    ensures Next(s, WriterMove(true), cap) == s.(writer := Settle(Item(id, true), false, true), log := s.log + [AllowLine(id)], adms := s.adms[id := a])
  {
  }

  lemma SettlesThen(s: State, id: nat, cap: nat, a: Admission)
    requires s.writer == Settle(Item(id, true), false, true) && id in s.adms && s.adms[id] == a && a.state == Writing && a.done == Empty
    ensures Next(s, WriterMove(true), cap) == s.(writer := Clear(Item(id, true)), adms := s.adms[id := a.(state := Written)])
  {
  }

  lemma ClearsThen(s: State, id: nat, cap: nat, a: Admission)
    requires s.writer == Clear(Item(id, true)) && id in s.adms && s.adms[id] == a && a.state == Written && a.done == Empty
    ensures Next(s, WriterMove(true), cap) == s.(writer := Send(Item(id, true), true), failed := false, adms := s.adms[id := a])
  {
  }

  lemma SendsAtLast(s: State, id: nat, cap: nat, a: Admission)
    requires s.writer == Send(Item(id, true), true) && id in s.adms && s.adms[id] == a && a.state == Written && a.done == Empty
    ensures Next(s, WriterMove(true), cap) == s.(writer := Idle, adms := s.adms[id := a.(done := Full(true))])
  {
  }

  lemma TakesFirst(s: State, id: nat, cap: nat)
    requires s.queue == [Item(id, true)] && s.writer.Idle?
    ensures Next(s, WriterMove(true), cap) == s.(queue := [], writer := Claim(Item(id, true)))
  {
  }

  /** An idle writer takes the only record queued and, its writes succeeding, is done with
      it six steps later. */
  lemma WriterWrites(s: State, id: nat, cap: nat, a: Admission)
    requires s.queue == [Item(id, true)] && s.writer.Idle? && id in s.adms && s.adms[id] == a
    requires a.state == Queued && a.done == Empty
    ensures var w := WriterMove(true);
      var s6 := Next(Next(Next(Next(Next(Next(s, w, cap), w, cap), w, cap), w, cap), w, cap), w, cap);
      s6 == s.(queue := [], failed := false, log := s.log + [AllowLine(id)], adms := s.adms[id := a.(state := Written, done := Full(true))])
  {
    hide Next;
    var w := WriterMove(true);
    TakesFirst(s, id, cap);
    var s1 := Next(s, w, cap);
    ClaimsFirst(s1, id, cap, a);
    var s2 := Next(s1, w, cap);
    WritesThen(s2, id, cap, a.(state := Writing));
    var s3 := Next(s2, w, cap);
    SettlesThen(s3, id, cap, a.(state := Writing));
    var s4 := Next(s3, w, cap);
    ClearsThen(s4, id, cap, a.(state := Written));
    var s5 := Next(s4, w, cap);
    SendsAtLast(s5, id, cap, a.(state := Written));
  }

  /** A record alone in the queue is written by an idle writer whose writes succeed, the
      log counts as working again, and the admission returns true. */
  lemma WrittenIsAdmitted(run: seq<Action>, cap: nat, id: nat) returns (more: seq<Action>)
    requires var s := After(run, cap);
      && s.queue == [Item(id, true)] && s.writer.Idle? && id in s.adms
      && s.adms[id] == Admission(Waiting, s.adms[id].probe, true, Queued, Empty)
    ensures forall a :: a in more ==> a == WriterMove(true) || a == Move(id, false)
    ensures var s, s' := After(run, cap), After(run + more, cap);
      && id in s'.adms && s'.adms[id].pc == Returned(true) && !s'.failed
      && s'.log == s.log + [AllowLine(id)] && s'.queue == [] && s'.writer.Idle?
      && (s.adms[id].probe ==> !s'.probing)
  {
    hide After, Next;
    var w, m := WriterMove(true), Move(id, false);
    var r6 := run + [w] + [w] + [w] + [w] + [w] + [w];
    SixWriterMoves(run, cap);
    WriterWrites(After(run, cap), id, cap, After(run, cap).adms[id]);
    TakesAndLeaves(After(r6, cap), id, cap);
    AfterOne(r6, m, cap);
    AfterOne(r6 + [m], m, cap);
    more := [w, w, w, w, w, w, m, m];
    OneByOne(run, w, m);
  }

  lemma OneByOne(run: seq<Action>, w: Action, m: Action)
    ensures run + [w, w, w, w, w, w, m, m] == run + [w] + [w] + [w] + [w] + [w] + [w] + [m] + [m]
  {
  }

  lemma SixWriterMoves(run: seq<Action>, cap: nat)
    ensures var w := WriterMove(true);
      After(run + [w] + [w] + [w] + [w] + [w] + [w], cap)
        == Next(Next(Next(Next(Next(Next(After(run, cap), w, cap), w, cap), w, cap), w, cap), w, cap), w, cap)
  {
    hide Next, After;
    var w := WriterMove(true);
    AfterOne(run, w, cap);
    AfterOne(run + [w], w, cap);
    AfterOne(run + [w] + [w], w, cap);
    AfterOne(run + [w] + [w] + [w], w, cap);
    AfterOne(run + [w] + [w] + [w] + [w], w, cap);
    AfterOne(run + [w] + [w] + [w] + [w] + [w], w, cap);
  }

  /** The admission takes its result and gives the probe back. */
  lemma TakesAndLeaves(s: State, id: nat, cap: nat)
    requires id in s.adms && s.adms[id].pc == Waiting && s.adms[id].done == Full(true)
    ensures var s' := Next(Next(s, Move(id, false), cap), Move(id, false), cap);
      && id in s'.adms && s'.adms[id].pc == Returned(true)
      && s' == s.(adms := s'.adms, probing := if s.adms[id].probe then false else s.probing)
  {
    var s1 := Next(s, Move(id, false), cap);
    assert s1 == s.(adms := s.adms[id := s.adms[id].(pc := Leaving(true), done := Taken(true))]);
  }

  /** So while the writer is idle and nothing is queued, the log failing or not, the next
      admission is let in when nothing goes wrong for it, and the log counts as working. */
  lemma HealthyLogAdmits(run: seq<Action>, cap: nat, id: nat)
    requires var s := After(run, cap);
      id !in s.adms && s.queue == [] && cap > 0 && s.writer.Idle? && !(s.failed && s.probing)
    ensures exists more: seq<Action> ::
      && (forall a :: a in more ==> a in {Admit(id), Move(id, false), WriterMove(true)})
      && id in After(run + more, cap).adms && After(run + more, cap).adms[id].pc == Returned(true)
      && !After(run + more, cap).failed && AllowLine(id) in After(run + more, cap).log
  {
    hide After;
    var enqueued := NextIsQueued(run, cap, id);
    var written := WrittenIsAdmitted(run + enqueued, cap, id);
    var more := enqueued + written;
    assert run + more == run + enqueued + written;
    assert AllowLine(id) in After(run + more, cap).log;
  }

  /** The switch and the counts, step by step: what sets `failed`, what clears it, what is
      counted as lost, and which correction is missed. */
  lemma SwitchAndCount(run: seq<Action>, a: Action, cap: nat)
    ensures var s, s' := After(run, cap), After(run + [a], cap);
      && s'.failed == (if (a.WriterMove? && s.writer.MarkFailed?) || (a.Move? && a.id in s.adms && s.adms[a.id].pc == SetFailed) then true
                       else if a.WriterMove? && s.writer.Clear? then false
                       else s.failed)
      && s'.dropped == s.dropped + (if (a.Offer? && |s.queue| >= cap)
                                       || (a.Move? && a.id in s.adms && s.adms[a.id].pc == Enqueue && |s.queue| >= cap)
                                       || (a.WriterMove? && s.writer.MarkFailed? && !s.writer.item.waited) then 1 else 0)
      && s'.uncorrected == (if a == WriterMove(false) && s.writer.Correct? then s.uncorrected + {s.writer.item.id} else s.uncorrected)
  {
    AfterOne(run, a, cap);
    hide After;
    SwitchStep(After(run, cap), a, cap);
  }

  lemma SwitchStep(s: State, a: Action, cap: nat)
    ensures var s' := Next(s, a, cap);
      && s'.failed == (if (a.WriterMove? && s.writer.MarkFailed?) || (a.Move? && a.id in s.adms && s.adms[a.id].pc == SetFailed) then true
                       else if a.WriterMove? && s.writer.Clear? then false
                       else s.failed)
      && s'.dropped == s.dropped + (if (a.Offer? && |s.queue| >= cap)
                                       || (a.Move? && a.id in s.adms && s.adms[a.id].pc == Enqueue && |s.queue| >= cap)
                                       || (a.WriterMove? && s.writer.MarkFailed? && !s.writer.item.waited) then 1 else 0)
      && s'.uncorrected == (if a == WriterMove(false) && s.writer.Correct? then s.uncorrected + {s.writer.item.id} else s.uncorrected)
  {
    match a
    case Admit(_) =>
    case Offer(_) =>
    case Move(_, _) =>
    case WriterMove(writes) => WriterSwitches(s, writes);
  }

  lemma WorkSwitches(w: Writer, st: ItemState, room: bool, writes: bool)
    requires !w.Idle?
    ensures var r := Work(w, st, room, writes);
      && r.failed == (if w.MarkFailed? then Some(true) else if w.Clear? then Some(false) else None)
      && (r.drop <==> w.MarkFailed? && !w.item.waited)
      && (r.miss <==> !writes && w.Correct?)
  {
  }

  lemma WriterSwitches(s: State, writes: bool)
    ensures var s' := MoveWriter(s, writes);
      && s'.failed == (if s.writer.MarkFailed? then true else if s.writer.Clear? then false else s.failed)
      && s'.dropped == s.dropped + (if s.writer.MarkFailed? && !s.writer.item.waited then 1 else 0)
      && s'.uncorrected == (if !writes && s.writer.Correct? then s.uncorrected + {s.writer.item.id} else s.uncorrected)
  {
    if !s.writer.Idle? {
      var item := s.writer.item;
      if item.waited && item.id in s.adms {
        WorkSwitches(s.writer, s.adms[item.id].state, !s.adms[item.id].done.Full?, writes);
      } else {
        WorkSwitches(s.writer, Queued, true, writes);
      }
    }
    hide Work;
  }

  /** A write that fails sets the switch in the writer's next step; so does, in its next
      step, an admission that gave up. */
  lemma FailuresSwitchOff(run: seq<Action>, cap: nat, a: Action, b: Action)
    requires var s := After(run, cap);
      || (a == WriterMove(false) && b.WriterMove? && s.writer.Write?)
      || (a.Move? && a == b && a.id in s.adms && s.adms[a.id].pc in {TryAbandon, TryAbandonLate} && s.adms[a.id].state in {Queued, Writing}
          && (s.adms[a.id].pc == TryAbandonLate ==> s.adms[a.id].state == Writing)
          && (s.adms[a.id].pc == TryAbandon ==> s.adms[a.id].state == Queued))
    ensures After(run + [a] + [b], cap).failed
  {
    AfterOne(run, a, cap);
    AfterOne(run + [a], b, cap);
    hide After;
    FailureStep(After(run, cap), a, cap);
    SwitchStep(After(run + [a], cap), b, cap);
  }

  lemma FailureStep(s: State, a: Action, cap: nat)
    ensures a == WriterMove(false) && s.writer.Write? ==> Next(s, a, cap).writer.MarkFailed?
    ensures a.Move? && a.id in s.adms
            && ((s.adms[a.id].pc == TryAbandon && s.adms[a.id].state == Queued) || (s.adms[a.id].pc == TryAbandonLate && s.adms[a.id].state == Writing)) ==>
              a.id in Next(s, a, cap).adms && Next(s, a, cap).adms[a.id].pc == SetFailed
  {
  }

  // ---- the other events ----

  /** The record of another event is on its way to the log, or there. */
  ghost predicate UnderWay(s: State, id: nat) {
    OtherLine(id) in s.log || Item(id, false) in s.queue || s.writer == Write(Item(id, false), false)
  }

  lemma UnderWayStep(s: State, a: Action, cap: nat, id: nat)
    requires UnderWay(s, id) && a != WriterMove(false)
    ensures UnderWay(Next(s, a, cap), id)
  {
    hide AdmissionStep;
    var s' := Next(s, a, cap);
    LogGrows(s, a, cap);
    if Item(id, false) in s.queue && !(a.WriterMove? && s.writer.Idle?) {
      var i :| 0 <= i < |s.queue| && s.queue[i] == Item(id, false);
      assert s'.queue[i] == Item(id, false);
    }
    if s.writer == Write(Item(id, false), false) && a.WriterMove? { assert s'.log[|s.log|] == OtherLine(id); }
  }

  lemma LogGrows(s: State, a: Action, cap: nat)
    ensures s.log <= Next(s, a, cap).log
  {
    hide AdmissionStep;
  }

  /** A record offered while the queue has room is written, unless a write fails: until
      one does it is in the log, in the queue or with the writer. */
  lemma {:induction false} OfferedIsWritten(run: seq<Action>, cap: nat, id: nat, more: seq<Action>)
    requires |After(run, cap).queue| < cap && forall i :: 0 <= i < |more| ==> more[i] != WriterMove(false)
    ensures UnderWay(After(run + [Offer(id)] + more, cap), id)
  {
    hide Next, UnderWay;
    var all := run + [Offer(id)] + more;
    if |more| == 0 {
      assert all == run + [Offer(id)] && all[..|all| - 1] == run;
      OfferIsUnderWay(After(run, cap), cap, id);
    } else {
      assert all[..|all| - 1] == run + [Offer(id)] + more[..|more| - 1];
      OfferedIsWritten(run, cap, id, more[..|more| - 1]);
      UnderWayStep(After(all[..|all| - 1], cap), more[|more| - 1], cap, id);
    }
  }

  lemma OfferIsUnderWay(s: State, cap: nat, id: nat)
    requires |s.queue| < cap
    ensures UnderWay(Next(s, Offer(id), cap), id)
  {
    assert Next(s, Offer(id), cap).queue[|s.queue|] == Item(id, false);
  }

  ghost predicate Seen(s: State, id: nat) {
    OtherLine(id) in s.log || Item(id, false) in s.queue || (!s.writer.Idle? && s.writer.item == Item(id, false))
  }

  lemma SeenBefore(s: State, a: Action, cap: nat, id: nat)
    requires Seen(Next(s, a, cap), id) && a != Offer(id)
    ensures Seen(s, id)
  {
    hide AdmissionStep;
    if a.WriterMove? { SeenByWriter(s, a.writes, id); }
  }

  lemma WorksOnItsItem(w: Writer, st: ItemState, room: bool, writes: bool, id: nat)
    requires !w.Idle?
    ensures var r := Work(w, st, room, writes);
      && (!r.next.Idle? ==> r.next.item == w.item)
      && (r.line == Some(OtherLine(id)) ==> w.item == Item(id, false))
  {
  }

  lemma SeenByWriter(s: State, writes: bool, id: nat)
    requires Seen(MoveWriter(s, writes), id)
    ensures Seen(s, id)
  {
    if !s.writer.Idle? {
      forall st, room ensures var r := Work(s.writer, st, room, writes);
        (!r.next.Idle? ==> r.next.item == s.writer.item) && (r.line == Some(OtherLine(id)) ==> s.writer.item == Item(id, false))
      {
        WorksOnItsItem(s.writer, st, room, writes, id);
      }
    }
    hide Work;
    var s' := MoveWriter(s, writes);
    if s.writer.Idle? && |s.queue| > 0 {
      assert s.queue == [s.queue[0]] + s.queue[1..];
    }
  }

  /** And nothing is written that was not offered. */
  lemma {:induction false} WrittenWasOffered(run: seq<Action>, cap: nat, id: nat)
    requires Seen(After(run, cap), id)
    ensures Offer(id) in run
  {
    hide Next;
    if |run| > 0 {
      var front, a := run[..|run| - 1], run[|run| - 1];
      assert run == front + [a];
      assert After(run, cap) == Next(After(front, cap), a, cap);
      if a != Offer(id) {
        SeenBefore(After(front, cap), a, cap, id);
        WrittenWasOffered(front, cap, id);
      }
    }
  }

  /** At the start the log works, and nothing is queued, written or counted. */
  lemma NothingAtStart(cap: nat)
    ensures var s := After([], cap);
      && !s.failed && !s.probing && s.dropped == 0 && s.queue == [] && s.log == [] && s.adms == map[]
      && s.writer.Idle? && s.uncorrected == {}
  {
  }

  // ---- every admission returns ----

  /** How many steps of its own an admission has ahead of it at most. */
  function Ahead(pc: AdmPc): nat {
    match pc
    case Entry => 9
    case TryProbe => 8
    case Enqueue => 7
    case Waiting => 6
    case TimedOut => 5
    case TryAbandon => 4
    case TryAbandonLate => 3
    case MustReceive => 2
    case SetFailed => 2
    case Leaving(_) => 1
    case Returned(_) => 0
  }

  lemma MovesAhead(s: State, id: nat, cap: nat)
    requires id in s.adms && !s.adms[id].pc.Returned? && (s.adms[id].pc == MustReceive ==> s.adms[id].done.Full?)
    ensures var s' := Next(s, Move(id, true), cap); id in s'.adms && Ahead(s'.adms[id].pc) < Ahead(s.adms[id].pc)
  {
  }

  function Unsent(w: Writer): nat { if w.Clear? then 2 else if w.Send? then 1 else 0 }

  lemma ServesAhead(s: State, id: nat, cap: nat)
    requires id in s.adms && s.adms[id].pc == MustReceive && !s.adms[id].done.Full?
    requires AtWriter(s, id) && (s.writer.Clear? || s.writer.Send?)
    ensures var s' := Next(s, WriterMove(true), cap);
      && id in s'.adms && s'.adms[id].pc == MustReceive
      && (s'.adms[id].done.Full? || (s.writer.Clear? && s'.writer.Send?))
  {
  }

  lemma ReturnsAfter(run: seq<Action>, cap: nat, id: nat) returns (more: seq<Action>)
    requires id in After(run, cap).adms
    ensures forall a :: a in more ==> a == Move(id, true) || a == WriterMove(true)
    ensures id in After(run + more, cap).adms && After(run + more, cap).adms[id].pc.Returned?
    decreases Ahead(After(run, cap).adms[id].pc),
              if After(run, cap).adms[id].done.Full? then 0 else Unsent(After(run, cap).writer)
  {
    hide After, Next, Ahead;
    var s := After(run, cap);
    if s.adms[id].pc.Returned? {
      more := [];
      assert run + more == run;
    } else {
      var step := Move(id, true);
      if s.adms[id].pc == MustReceive && !s.adms[id].done.Full? {
        step := WriterMove(true);
        MustReceiveIsServed(run, cap, id);
        ServesAhead(s, id, cap);
      } else {
        MovesAhead(s, id, cap);
      }
      AfterOne(run, step, cap);
      more := ReturnsAfter(run + [step], cap, id);
      assert run + [step] + more == run + ([step] + more);
      more := [step] + more;
    }
  }

  /** Nobody waits for ever: from every reachable state the steps of an admission, with its
      wait over, and of the writer bring it to its end. */
  lemma EveryAdmissionReturns(run: seq<Action>, cap: nat, id: nat)
    requires id in After(run, cap).adms
    ensures exists more: seq<Action> ::
      && (forall a :: a in more ==> a == Move(id, true) || a == WriterMove(true))
      && id in After(run + more, cap).adms && After(run + more, cap).adms[id].pc.Returned?
  {
    hide After;
    var more := ReturnsAfter(run, cap, id);
  }
}
