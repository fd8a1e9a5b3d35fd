/** The invariant of the whole worker, kept by every step, and how runs are built. */
module DelegationRuns {
  import opened Common
  import opened RuntimeTasks
  import opened DelegationProtocol
  import opened DelegationInvariant

  // ---- the invariant of the worker ----

  /** Nothing of this worker life has touched the id yet. */
  ghost predicate Asleep(c: Cell) {
    c.task.None? && c.launch.NoLaunch? && c.writes == []
  }

  ghost predicate Dormant(c: Cell) {
    Asleep(c) && c.record.Some? && Active(c.record.value.status)
  }

  ghost predicate NoResumerWrite(c: Cell) {
    forall i | 0 <= i < |c.writes| :: c.writes[i].author != Resumer
  }

  ghost predicate CellsInv(s: State) {
    forall t :: CellInv(CellOf(s, t))
  }

  /** The insertion order lists every record once. */
  ghost predicate CreatedInv(s: State) {
    && Distinct(s.created)
    && (forall t :: t in s.created <==> CellOf(s, t).record.Some?)
  }

  ghost predicate ModeInv(s: State) {
    match s.mode
    case Booting => forall t :: Asleep(CellOf(s, t))
    case Resuming(queue, waiting, resumed) =>
      && Distinct(queue)
      && (forall t | t in queue :: Dormant(CellOf(s, t)) && t !in resumed && waiting != Some(t))
      && (forall t | t in resumed :: CellOf(s, t).task.Some?)
      && (forall t :: waiting != Some(t) ==> NoResumerWrite(CellOf(s, t)))
    case Serving => forall t :: NoResumerWrite(CellOf(s, t))
  }

  ghost predicate Inv(s: State) {
    s.ordered && CellsInv(s) && CreatedInv(s) && ModeInv(s)
  }

  lemma InitInv(s: State)
    requires Init(s) && s.ordered
    ensures Inv(s)
  {
  }

  // ---- steps that touch every cell ----

  lemma EvictKeepsCellInv(c: Cell)
    requires CellInv(c)
    ensures CellInv(Evict(c))
  {
  }

  lemma CrashKeepsCellInv(c: Cell)
    requires CellInv(c)
    ensures CellInv(AfterCrash(c)) && Asleep(AfterCrash(c))
  {
  }

  lemma ReconcileKeepsCellInv(c: Cell, excluded: bool)
    requires CellInv(c) && NoResumerWrite(c)
    ensures CellInv(ReconcileCell(c, excluded))
  {
    if !excluded && c.record.Some? && c.record.value.status == Running {
      ReconcileKeepsOrder(c);
      ReconcileKeepsSettled(c);
      ReconcileKeepsAcked(c);
      ReconcileKeepsOrigin(c);
    }
  }

  lemma ReconcileKeepsAcked(c: Cell)
    requires Acked(c) && c.record.Some? && c.record.value.status == Running
    ensures Acked(c.(record := Some(ReconcileRecord(c.record.value))))
  {
  }

  lemma ReconcileKeepsOrigin(c: Cell)
    requires Origin(c) && c.record.Some? && c.record.value.status == Running
    ensures Origin(c.(record := Some(ReconcileRecord(c.record.value))))
  {
    assert "orphaned_by_restart" !in RESUME_KEYS;
    assert RecordFor(ReconcileRecord(c.record.value), c.origin.value);
  }

  lemma ReconcileKeepsOrder(c: Cell)
    requires Shape(c) && Order(c) && NoResumerWrite(c) && c.record.Some? && c.record.value.status == Running
    ensures var c' := c.(record := Some(ReconcileRecord(c.record.value))); Shape(c') && Order(c')
  {
  }

  lemma ReconcileKeepsSettled(c: Cell)
    requires Settled(c) && c.record.Some? && c.record.value.status == Running
    ensures Settled(c.(record := Some(ReconcileRecord(c.record.value))))
  {
  }

  lemma ResumeKeepsCellInv(c: Cell, available: bool, freshSession: string, freshTrace: string)
    requires CellInv(c) && Dormant(c) && freshSession != "" && freshTrace != ""
    ensures var c' := ResumeCell(c, available, freshSession, freshTrace);
            && CellInv(c')
            && (c' == c || (c'.writes != [] && c'.record == c.record))
            && (Live(c') <==> c'.task.Some?)
            && (c'.task.Some? ==> c' != c)
  {
    ResumeKeepsPlace(c, available, freshSession, freshTrace);
    var plan := ReadPlan(c.record.value, freshSession, freshTrace);
    if plan.Rebuilt? {
      if available {
        RebuiltFor(c.record.value, c.origin.value, freshSession, freshTrace);
        SpawnResumedKeeps(c, plan.request);
      } else {
        ResumeFailedKeeps(c);
      }
    }
  }

  lemma ResumeKeepsPlace(c: Cell, available: bool, freshSession: string, freshTrace: string)
    requires Dormant(c)
    ensures var c' := ResumeCell(c, available, freshSession, freshTrace);
            && (c' == c || (c'.writes != [] && c'.record == c.record))
            && (Live(c') <==> c'.task.Some?)
            && (c'.task.Some? ==> c' != c)
  {
  }

  lemma RebuiltFor(rec: Record, origin: Request, freshSession: string, freshTrace: string)
    requires RecordFor(rec, origin) && origin.trace != "" && freshSession != "" && freshTrace != ""
    requires ReadPlan(rec, freshSession, freshTrace).Rebuilt?
    ensures TaskFor(ReadPlan(rec, freshSession, freshTrace).request, origin)
  {
    RecordRoundTrip(rec, origin, freshSession, freshTrace);
  }

  lemma ResumeFailedKeeps(c: Cell)
    requires CellInv(c) && Dormant(c)
    ensures CellInv(Issue(c, Resumer, RESUME_FAILED))
  {
    var c' := Issue(c, Resumer, RESUME_FAILED);
    assert c'.writes == [Write(Resumer, RESUME_FAILED)];
    ResumeFailedOrder(c, c');
    ResumeFailedRest(c, c');
  }

  lemma ResumeFailedOrder(c: Cell, c': Cell)
    requires Shape(c) && Dormant(c) && c' == c.(writes := [Write(Resumer, RESUME_FAILED)])
    ensures Shape(c') && Order(c')
  {
  }

  lemma ResumeFailedRest(c: Cell, c': Cell)
    requires CellInv(c) && Dormant(c) && c' == c.(writes := [Write(Resumer, RESUME_FAILED)])
    ensures Settled(c') && Acked(c') && Origin(c')
  {
    assert forall k | k in c.acked :: Canceller(k) in c'.lost;
  }

  lemma SpawnResumedKeeps(c: Cell, req: Request)
    requires CellInv(c) && Dormant(c) && TaskFor(req, c.origin.value)
    ensures CellInv(SpawnTask(c, req, Resumer))
  {
    var c' := SpawnTask(c, req, Resumer);
    assert c'.writes == [Write(Resumer, RunningUpdate(req, true))];
    assert forall k | k in c.acked :: Canceller(k) in c'.lost;
  }

  lemma CellOfCleanup(s: State, t: TaskId)
    ensures CellOf(Cleanup(s), t) == CellOf(s, t) || CellOf(Cleanup(s), t) == Evict(CellOf(s, t))
    ensures Cleanup(s).mode == s.mode && Cleanup(s).created == s.created && Cleanup(s).ordered == s.ordered
  {
  }

  // ---- every step keeps the invariant ----

  lemma ActKeepsInv(s: State, t: TaskId, a: Act)
    requires Inv(s) && Enabled(s, On(t, a))
    ensures Inv(Effect(s, On(t, a)))
  {
    assert CellInv(CellOf(s, t));
    ActKeepsCells(s, t, a);
    ActKeepsCreated(s, t, a);
    ActKeepsMode(s, t, a);
  }

  lemma ActKeepsCells(s: State, t: TaskId, a: Act)
    requires CellsInv(s) && s.ordered && Enabled(s, On(t, a))
    ensures CellsInv(Effect(s, On(t, a))) && Effect(s, On(t, a)).ordered
  {
    ActKeepsCellInv(CellOf(s, t), a);
    CellsAfterAct(s, t, a);
  }

  lemma CellsAfterAct(s: State, t: TaskId, a: Act)
    requires s.ordered && Enabled(s, On(t, a))
    ensures var s' := Effect(s, On(t, a));
            && (forall u :: CellOf(s', u) == if u == t then ActEffect(CellOf(s, t), a) else CellOf(s, u))
            && s'.mode == s.mode && s'.created == if a.LandCreate? then s.created + [t] else s.created
  {
  }

  lemma ActKeepsCreated(s: State, t: TaskId, a: Act)
    requires CellInv(CellOf(s, t)) && CreatedInv(s) && s.ordered && Enabled(s, On(t, a))
    ensures CreatedInv(Effect(s, On(t, a)))
  {
    ActKeepsRecorded(CellOf(s, t), a);
    CellsAfterAct(s, t, a);
  }

  lemma ActKeepsMode(s: State, t: TaskId, a: Act)
    requires CellInv(CellOf(s, t)) && ModeInv(s) && s.ordered && Enabled(s, On(t, a))
    ensures ModeInv(Effect(s, On(t, a)))
  {
    ActKeepsResumer(CellOf(s, t), a);
    CellsAfterAct(s, t, a);
  }

  lemma ActKeepsNoResumer(c: Cell, a: Act)
    requires CellInv(c) && ActEnabled(true, c, a) && NoResumerWrite(c)
    ensures NoResumerWrite(ActEffect(c, a))
  {
    if a.DeliverCancel? {
      DeliverKeepsNoResumer(c);
    }
  }

  lemma DeliverKeepsNoResumer(c: Cell)
    requires Live(c) && NoResumerWrite(c)
    ensures NoResumerWrite(Deliver(c))
  {
    var kept := Filter(NotBy(Child), c.writes);
    forall i | 0 <= i < |kept|
      ensures kept[i].author != Resumer
    {
      assert kept[i] in kept;
    }
  }

  lemma ActKeepsResumer(c: Cell, a: Act)
    requires CellInv(c) && ActEnabled(true, c, a)
    ensures NoResumerWrite(c) ==> NoResumerWrite(ActEffect(c, a))
    ensures c.task.Some? ==> ActEffect(c, a).task.Some?
    ensures !Asleep(c)
  {
    if NoResumerWrite(c) {
      ActKeepsNoResumer(c, a);
    }
  }

  lemma ActKeepsRecorded(c: Cell, a: Act)
    requires CellInv(c) && ActEnabled(true, c, a)
    ensures ActEffect(c, a).record.Some? <==> (c.record.Some? || a.LandCreate?)
    ensures a.LandCreate? ==> c.record.None?
  {
  }

  lemma CleanupKeepsInv(s: State)
    requires Inv(s)
    ensures Inv(Cleanup(s))
  {
    var s' := Cleanup(s);
    forall t
      ensures CellInv(CellOf(s', t))
      ensures CellOf(s', t).(entry := None) == CellOf(s, t).(entry := None)
    {
      CellOfCleanup(s, t);
      EvictKeepsCellInv(CellOf(s, t));
    }
    assert forall t :: CellOf(s', t).record == CellOf(s, t).(entry := None).record;
    CleanupKeepsMode(s);
  }

  lemma CleanupKeepsMode(s: State)
    requires ModeInv(s)
    ensures ModeInv(Cleanup(s))
  {
    var s' := Cleanup(s);
    forall t
      ensures CellOf(s', t).(entry := None) == CellOf(s, t).(entry := None)
      ensures NoResumerWrite(CellOf(s, t)) ==> NoResumerWrite(CellOf(s', t))
      ensures Asleep(CellOf(s, t)) ==> Asleep(CellOf(s', t))
    {
      CellOfCleanup(s, t);
    }
  }

  lemma BeginKeepsInv(s: State, t: TaskId, req: Request)
    requires Inv(s) && Enabled(s, Begin(t, req))
    ensures Inv(Effect(s, Begin(t, req)))
  {
    var s' := Effect(s, Begin(t, req));
    var c' := BLANK.(launch := Creating(req), origin := Some(req));
    CleanupKeepsInv(s);
    CellOfCleanup(s, t);
    PutKeepsCells(Cleanup(s), s', t, c');
    BeginKeepsMode(Cleanup(s), s', t, c');
  }

  lemma BeginKeepsMode(s: State, s': State, t: TaskId, c': Cell)
    requires ModeInv(s) && !s.mode.Booting? && CellOf(s, t) == BLANK && c'.writes == []
    requires s' == Put(s, t, c')
    ensures ModeInv(s')
  {
  }

  lemma PutKeepsCells(s: State, s': State, t: TaskId, c': Cell)
    requires CellsInv(s) && CreatedInv(s) && CellInv(c') && c'.record == CellOf(s, t).record
    requires s'.cells == s.cells[t := c'] && s'.created == s.created
    ensures CellsInv(s') && CreatedInv(s')
  {
    assert forall u :: CellOf(s', u) == if u == t then c' else CellOf(s, u);
  }

  lemma CheckKeepsInv(s: State, t: TaskId, caller: Option<string>)
    requires Inv(s)
    ensures Inv(Effect(s, Check(t, caller)))
  {
    var s' := Effect(s, Check(t, caller));
    var c := CellOf(s, t);
    if AfterCheck(c, caller) != c {
      EvictKeepsCellInv(c);
    }
    PutKeepsCells(s, s', t, AfterCheck(c, caller));
    CheckKeepsMode(s, t, caller);
  }

  lemma CheckKeepsMode(s: State, t: TaskId, caller: Option<string>)
    requires ModeInv(s)
    ensures ModeInv(Effect(s, Check(t, caller)))
  {
    var s' := Effect(s, Check(t, caller));
    assert forall u :: CellOf(s', u) == if u == t then AfterCheck(CellOf(s, t), caller) else CellOf(s, u);
  }

  lemma BeginResumeKeepsInv(s: State)
    requires Inv(s) && Enabled(s, BeginResume)
    ensures Inv(Effect(s, BeginResume))
  {
    var s' := Effect(s, BeginResume);
    assert forall t :: CellOf(s', t) == CellOf(s, t);
    FilterDistinct(IsActive(s), s.created);
  }

  lemma ResumeNextKeepsInv(s: State, available: bool, freshSession: string, freshTrace: string)
    requires Inv(s) && Enabled(s, ResumeNext(available, freshSession, freshTrace))
    ensures Inv(Effect(s, ResumeNext(available, freshSession, freshTrace)))
  {
    var l := ResumeNext(available, freshSession, freshTrace);
    var s' := Effect(s, l);
    var t := s.mode.queue[0];
    var c' := ResumeCell(CellOf(s, t), available, freshSession, freshTrace);
    ResumeKeepsCellInv(CellOf(s, t), available, freshSession, freshTrace);
    PutKeepsCells(s, s', t, c');
    ResumeNextKeepsMode(s, l, c');
  }

  lemma AfterResumeNext(s: State, l: Label, c': Cell)
    requires Enabled(s, l) && l.ResumeNext?
    requires c' == ResumeCell(CellOf(s, s.mode.queue[0]), l.available, l.freshSession, l.freshTrace)
    ensures var s', t := Effect(s, l), s.mode.queue[0];
            && (forall u :: CellOf(s', u) == if u == t then c' else CellOf(s, u))
            && s'.mode == Resuming(s.mode.queue[1..], if c' == CellOf(s, t) then None else Some(t),
                                   if c'.spawns > CellOf(s, t).spawns then s.mode.resumed + {t} else s.mode.resumed)
  {
  }

  lemma ResumeNextKeepsMode(s: State, l: Label, c': Cell)
    requires ModeInv(s) && Enabled(s, l) && l.ResumeNext?
    requires c' == ResumeCell(CellOf(s, s.mode.queue[0]), l.available, l.freshSession, l.freshTrace)
    requires Live(c') <==> c'.task.Some?
    requires c'.task.Some? ==> c' != CellOf(s, s.mode.queue[0])
    ensures ModeInv(Effect(s, l))
  {
    AfterResumeNext(s, l, c');
    DistinctRest(s.mode.queue);
    ResumeNextCells(s, l, c');
  }

  lemma DistinctRest(queue: seq<TaskId>)
    requires Distinct(queue) && queue != []
    ensures Distinct(queue[1..]) && queue[0] !in queue[1..] && forall t :: t in queue[1..] ==> t in queue
  {
    TailDistinct(queue);
  }

  /** The cells after a round: only the head of the queue has changed. */
  lemma ResumeNextCells(s: State, l: Label, c': Cell)
    requires ModeInv(s) && Enabled(s, l) && l.ResumeNext?
    requires c' == ResumeCell(CellOf(s, s.mode.queue[0]), l.available, l.freshSession, l.freshTrace)
    requires Live(c') <==> c'.task.Some?
    requires c'.task.Some? ==> c' != CellOf(s, s.mode.queue[0])
    ensures var s' := Effect(s, l);
            && s'.mode.Resuming?
            && (forall t | t in s'.mode.queue :: Dormant(CellOf(s', t)) && t !in s'.mode.resumed && s'.mode.waiting != Some(t))
            && (forall t | t in s'.mode.resumed :: CellOf(s', t).task.Some?)
            && (forall t :: s'.mode.waiting != Some(t) ==> NoResumerWrite(CellOf(s', t)))
  {
    AfterResumeNext(s, l, c');
    DistinctRest(s.mode.queue);
  }

  lemma CrashKeepsInv(s: State)
    requires Inv(s)
    ensures Inv(Effect(s, Crash))
  {
    var s' := Effect(s, Crash);
    forall t
      ensures CellOf(s', t) == AfterCrash(CellOf(s, t))
      ensures CellInv(CellOf(s', t)) && Asleep(CellOf(s', t))
    {
      CrashKeepsCellInv(CellOf(s, t));
    }
    assert forall t :: CellOf(s', t).record == CellOf(s, t).record;
  }

  lemma CellOfReconcile(s: State, t: TaskId)
    requires Enabled(s, Reconcile)
    ensures CellOf(Effect(s, Reconcile), t) == ReconcileCell(CellOf(s, t), t in s.mode.resumed)
  {
  }

  lemma ReconcileKeepsInv(s: State)
    requires Inv(s) && Enabled(s, Reconcile)
    ensures Inv(Effect(s, Reconcile))
  {
    var s' := Effect(s, Reconcile);
    forall t
      ensures CellInv(CellOf(s', t)) && NoResumerWrite(CellOf(s', t))
      ensures CellOf(s', t).record.Some? <==> CellOf(s, t).record.Some?
    {
      CellOfReconcile(s, t);
      ReconcileKeepsCellInv(CellOf(s, t), t in s.mode.resumed);
    }
  }

  lemma ResumeContinueKeepsInv(s: State)
    requires Inv(s) && Enabled(s, ResumeContinue)
    ensures Inv(Effect(s, ResumeContinue))
  {
    assert forall t :: CellOf(Effect(s, ResumeContinue), t) == CellOf(s, t);
  }

  lemma SameCellsKeepInv(s: State, l: Label)
    requires Inv(s) && Enabled(s, l) && (l.LoadFails? || l.StartupFails?)
    ensures Inv(Effect(s, l))
  {
    assert forall t :: CellOf(Effect(s, l), t) == CellOf(s, t);
  }

  lemma StepKeepsInv(s: State, l: Label)
    requires Inv(s) && Enabled(s, l)
    ensures Inv(Effect(s, l))
  {
    match l
    case On(t, a) => ActKeepsInv(s, t, a);
    case Begin(t, req) => BeginKeepsInv(s, t, req);
    case Check(t, caller) => CheckKeepsInv(s, t, caller);
    case BeginResume => BeginResumeKeepsInv(s);
    case ResumeNext(available, freshSession, freshTrace) =>
      ResumeNextKeepsInv(s, available, freshSession, freshTrace);
    case ResumeContinue => ResumeContinueKeepsInv(s);
    case LoadFails => SameCellsKeepInv(s, l);
    case StartupFails => SameCellsKeepInv(s, l);
    case Reconcile => ReconcileKeepsInv(s);
    case Crash => CrashKeepsInv(s);
  }

  lemma {:induction false} RunInv(r: Run, i: nat)
    requires IsRun(r) && r.states[0].ordered && i < |r.states|
    ensures Inv(r.states[i])
  {
    if i == 0 {
      InitInv(r.states[0]);
    } else {
      RunInv(r, i - 1);
      assert IsStep(r, i - 1);
      StepKeepsInv(r.states[i - 1], r.labels[i - 1]);
    }
  }

  // ---- building runs ----

  function Last(r: Run): State
    requires r.states != []
  {
    r.states[|r.states| - 1]
  }

  /** `r'` is a run that begins with `r`. */
  ghost predicate Continues(r: Run, r': Run) {
    IsRun(r') && r.states <= r'.states && r.labels <= r'.labels
  }

  /** The run that goes on with `l`. */
  ghost function Then(r: Run, l: Label): (r': Run)
    requires IsRun(r) && Enabled(Last(r), l)
    ensures Continues(r, r') && Last(r') == Effect(Last(r), l)
    ensures |r'.states| == |r.states| + 1 && r'.labels == r.labels + [l]
  {
    var r' := Run(r.states + [Effect(Last(r), l)], r.labels + [l]);
    assert forall i | 0 <= i < |r.labels| :: IsStep(r, i) ==> IsStep(r', i);
    assert IsStep(r', |r.labels|);
    r'
  }
}
