/** What the delegation protocol promises over every run. */
module DelegationTheorems {
  import opened Common
  import opened RuntimeTasks
  import opened DelegationProtocol
  import opened DelegationInvariant
  import opened DelegationRuns

  /** A run of a worker whose store applies the writes of one task in issue order. */
  ghost predicate OrderedRun(r: Run) {
    IsRun(r) && r.states[0].ordered
  }

  predicate Ended(c: Cell) {
    c.record.Some? && Terminal(c.record.value.status)
  }

  // ---- what one step does to one cell ----

  /** The label acts on `t` itself, rather than sweeping over all ids. */
  predicate ActsOn(s: State, l: Label, t: TaskId)
    requires Enabled(s, l)
  {
    (l.On? && l.t == t) || (l.Begin? && l.t == t) || (l.ResumeNext? && s.mode.queue[0] == t)
  }

  lemma Elsewhere(s: State, l: Label, t: TaskId)
    requires Enabled(s, l) && !ActsOn(s, l, t)
    ensures var c, c' := CellOf(s, t), CellOf(Effect(s, l), t);
            || c' == c
            || c' == Evict(c)
            || (l.Reconcile? && c' == ReconcileCell(c, false))
            || (l.Crash? && c' == AfterCrash(c))
    ensures l.Crash? ==> CellOf(Effect(s, l), t) == AfterCrash(CellOf(s, t))
  {
  }

  /** The resume loop looks at dormant cells only. */
  lemma ResumedCell(s: State, l: Label, t: TaskId)
    requires Inv(s) && Enabled(s, l) && l.ResumeNext? && ActsOn(s, l, t)
    ensures Dormant(CellOf(s, t)) && CellInv(CellOf(s, t))
    ensures CellOf(Effect(s, l), t) == ResumeCell(CellOf(s, t), l.available, l.freshSession, l.freshTrace)
  {
  }

  /** All that one step of the worker can do to one cell. */
  ghost predicate CellStep(c: Cell, c': Cell, l: Label, t: TaskId) {
    if l.Crash? then c' == AfterCrash(c)
    else
      || c' == c
      || c' == Evict(c)
      || (l.Reconcile? && c' == ReconcileCell(c, false))
      || (l.On? && l.t == t && ActEnabled(true, c, l.act) && c' == ActEffect(c, l.act))
      || (l.Begin? && l.t == t && c == BLANK && c' == BLANK.(launch := Creating(l.req), origin := Some(l.req)))
      || (l.ResumeNext? && Dormant(c) && c' == ResumeCell(c, l.available, l.freshSession, l.freshTrace))
  }

  lemma StepOfCell(s: State, l: Label, t: TaskId)
    requires Inv(s) && Enabled(s, l)
    ensures CellInv(CellOf(s, t)) && CellStep(CellOf(s, t), CellOf(Effect(s, l), t), l, t)
  {
    if !ActsOn(s, l, t) {
      Elsewhere(s, l, t);
    } else if l.ResumeNext? {
      ResumedCell(s, l, t);
    }
  }

  // ---- a terminal record stays terminal, and its task is never run again ----

  lemma EndedStep(s: State, l: Label, t: TaskId)
    requires Inv(s) && Enabled(s, l) && Ended(CellOf(s, t))
    ensures Ended(CellOf(Effect(s, l), t)) && !Spawns(s, l, t)
  {
    StepOfCell(s, l, t);
    EndedCell(CellOf(s, t), CellOf(Effect(s, l), t), l, t);
  }

  lemma EndedCell(c: Cell, c': Cell, l: Label, t: TaskId)
    requires CellInv(c) && CellStep(c, c', l, t) && Ended(c)
    ensures Ended(c') && c'.spawns <= c.spawns
  {
    if l.On? && l.t == t && ActEnabled(true, c, l.act) {
      EndedAct(c, l.act);
    }
  }

  lemma EndedAct(c: Cell, a: Act)
    requires CellInv(c) && ActEnabled(true, c, a) && Ended(c)
    ensures Ended(ActEffect(c, a)) && ActEffect(c, a).spawns == c.spawns
  {
    if a.Land? {
      assert WriteShape(c, c.writes[0]);
    }
  }

  /** Safety over every run: once a record is completed, failed or killed it is
      never pending or running again, and no task is created for it. */
  lemma {:induction false} EndedForever(r: Run, i: nat, j: nat, t: TaskId)
    requires OrderedRun(r) && i <= j < |r.states| && Ended(CellOf(r.states[i], t))
    ensures Ended(CellOf(r.states[j], t))
    ensures j < |r.labels| ==> IsStep(r, j) && !Spawns(r.states[j], r.labels[j], t)
    decreases j - i
  {
    if i < j {
      EndedForever(r, i, j - 1, t);
      EndedAt(r, j - 1, t);
    }
    if j < |r.labels| {
      EndedAt(r, j, t);
    }
  }

  lemma EndedAt(r: Run, j: nat, t: TaskId)
    requires OrderedRun(r) && j < |r.labels| && Ended(CellOf(r.states[j], t))
    ensures IsStep(r, j) && !Spawns(r.states[j], r.labels[j], t)
    ensures Ended(CellOf(r.states[j + 1], t))
  {
    RunInv(r, j);
    assert IsStep(r, j);
    EndedStep(r.states[j], r.labels[j], t);
  }

  // ---- a cancel that returned "killed" is durable ----

  /** Cancel call `k` returned "killed" on its own and its write was not lost. */
  predicate CancelledFor(c: Cell, k: nat) {
    k in c.acked && Canceller(k) !in c.lost
  }

  lemma CancelledStep(s: State, l: Label, t: TaskId, k: nat)
    requires Inv(s) && Enabled(s, l) && CancelledFor(CellOf(s, t), k)
    ensures CancelledFor(CellOf(Effect(s, l), t), k) && !Spawns(s, l, t)
  {
    StepOfCell(s, l, t);
    CancelledCell(CellOf(s, t), CellOf(Effect(s, l), t), l, t, k);
  }

  lemma CancelledCell(c: Cell, c': Cell, l: Label, t: TaskId, k: nat)
    requires CellInv(c) && CellStep(c, c', l, t) && CancelledFor(c, k)
    ensures CancelledFor(c', k) && c'.spawns <= c.spawns
  {
    if l.On? && l.t == t && ActEnabled(true, c, l.act) {
      CancelledAct(c, l.act, k);
    }
  }

  lemma CancelledAct(c: Cell, a: Act, k: nat)
    requires CellInv(c) && ActEnabled(true, c, a) && CancelledFor(c, k)
    ensures CancelledFor(ActEffect(c, a), k) && ActEffect(c, a).spawns == c.spawns
  {
  }

  /** Once a cancel call has returned "killed", the record is killed at every
      later moment and no restart runs the delegation again. */
  lemma {:induction false} CancelIsForever(r: Run, i: nat, j: nat, t: TaskId, k: nat)
    requires OrderedRun(r) && i <= j < |r.states| && CancelledFor(CellOf(r.states[i], t), k)
    ensures CancelledFor(CellOf(r.states[j], t), k)
    ensures CellOf(r.states[j], t).record.Some? ==> CellOf(r.states[j], t).record.value.status == Killed
    ensures j < |r.labels| ==> IsStep(r, j) && !Spawns(r.states[j], r.labels[j], t)
    decreases j - i
  {
    if i < j {
      CancelIsForever(r, i, j - 1, t, k);
      CancelledAt(r, j - 1, t, k);
    }
    CancelledIsKilled(r, j, t, k);
    if j < |r.labels| {
      CancelledAt(r, j, t, k);
    }
  }

  lemma CancelledAt(r: Run, j: nat, t: TaskId, k: nat)
    requires OrderedRun(r) && j < |r.labels| && CancelledFor(CellOf(r.states[j], t), k)
    ensures IsStep(r, j) && !Spawns(r.states[j], r.labels[j], t)
    ensures CancelledFor(CellOf(r.states[j + 1], t), k)
  {
    RunInv(r, j);
    assert IsStep(r, j);
    CancelledStep(r.states[j], r.labels[j], t, k);
  }

  lemma CancelledIsKilled(r: Run, j: nat, t: TaskId, k: nat)
    requires OrderedRun(r) && j < |r.states| && CancelledFor(CellOf(r.states[j], t), k)
    ensures CellOf(r.states[j], t).record.Some? ==> CellOf(r.states[j], t).record.value.status == Killed
  {
    RunInv(r, j);
    assert CellInv(CellOf(r.states[j], t));
  }

  // ---- no id is run twice in one worker life ----

  function SpawnCount(r: Run, i: nat, j: nat, t: TaskId): nat
    requires |r.states| == |r.labels| + 1 && i <= j <= |r.labels|
    decreases j - i
  {
    if i == j then 0
    else
      var s, l := r.states[j - 1], r.labels[j - 1];
      SpawnCount(r, i, j - 1, t) + (if Enabled(s, l) && Spawns(s, l, t) then 1 else 0)
  }

  lemma SpawnsAct(c: Cell, a: Act)
    requires CellInv(c) && ActEnabled(true, c, a)
    ensures c.spawns <= ActEffect(c, a).spawns <= c.spawns + 1
  {
  }

  lemma SpawnsStep(s: State, l: Label, t: TaskId)
    requires Inv(s) && Enabled(s, l) && !l.Crash?
    ensures CellOf(Effect(s, l), t).spawns == CellOf(s, t).spawns + if Spawns(s, l, t) then 1 else 0
  {
    StepOfCell(s, l, t);
    SpawnsCell(CellOf(s, t), CellOf(Effect(s, l), t), l, t);
  }

  lemma SpawnsCell(c: Cell, c': Cell, l: Label, t: TaskId)
    requires CellInv(c) && CellStep(c, c', l, t) && !l.Crash?
    ensures c.spawns <= c'.spawns <= c.spawns + 1
  {
    if l.On? && l.t == t && ActEnabled(true, c, l.act) {
      SpawnsAct(c, l.act);
    }
  }

  lemma SpawnsAt(r: Run, k: nat, t: TaskId)
    requires OrderedRun(r) && k < |r.labels| && !r.labels[k].Crash?
    ensures Enabled(r.states[k], r.labels[k])
    ensures CellOf(r.states[k + 1], t).spawns ==
            CellOf(r.states[k], t).spawns + if Spawns(r.states[k], r.labels[k], t) then 1 else 0
  {
    RunInv(r, k);
    assert IsStep(r, k);
    SpawnsStep(r.states[k], r.labels[k], t);
  }

  lemma {:induction false} SpawnsAdd(r: Run, i: nat, j: nat, t: TaskId)
    requires OrderedRun(r) && i <= j <= |r.labels|
    requires forall k | i <= k < j :: !r.labels[k].Crash?
    ensures CellOf(r.states[j], t).spawns == CellOf(r.states[i], t).spawns + SpawnCount(r, i, j, t)
    decreases j - i
  {
    if i < j {
      SpawnsAdd(r, i, j - 1, t);
      SpawnsAt(r, j - 1, t);
      SpawnCountMore(r, i, j, t);
    }
  }

  lemma SpawnCountMore(r: Run, i: nat, j: nat, t: TaskId)
    requires |r.states| == |r.labels| + 1 && i < j <= |r.labels| && Enabled(r.states[j - 1], r.labels[j - 1])
    ensures SpawnCount(r, i, j, t) == SpawnCount(r, i, j - 1, t) + if Spawns(r.states[j - 1], r.labels[j - 1], t) then 1 else 0
  {
  }

  /** Between two crashes at most one asyncio task is created for an id. */
  lemma SpawnedOncePerLife(r: Run, i: nat, j: nat, t: TaskId)
    requires OrderedRun(r) && i <= j <= |r.labels|
    requires forall k | i <= k < j :: !r.labels[k].Crash?
    ensures SpawnCount(r, i, j, t) <= 1
  {
    SpawnsAdd(r, i, j, t);
    RunInv(r, j);
    assert CellInv(CellOf(r.states[j], t));
  }

  // ---- the registry is an invisible cache ----

  /** The child of `c` is done and its own last write reached the store. */
  predicate DoneAndStored(c: Cell) {
    IsDone(c) && c.record.Some? && Child !in c.lost
  }

  /** A canceller pops the entry before it issues its write: while the entry is there
      nothing of a canceller is under way, and a finished child's record says what its
      outcome says. */
  ghost predicate Mirrors(c: Cell) {
    c.entry.Some? ==>
      && (forall w | w in c.writes :: !w.author.Canceller?)
      && (forall k | k in c.cancels :: c.cancels[k].Waiting?)
      && (DoneAndStored(c) ==> Agrees(c.record.value, c.task.value.phase.outcome))
  }

  lemma WriteKeepsMirrors(c: Cell, a: Act)
    requires CellInv(c) && ActEnabled(true, c, a) && Mirrors(c) && (a.Land? || a.Lose?)
    ensures Mirrors(ActEffect(c, a))
  {
    assert forall w | w in ActEffect(c, a).writes :: w in c.writes;
    assert c.writes[a.at] in c.writes;
  }

  lemma DeliverKeepsMirrors(c: Cell)
    requires CellInv(c) && ActEnabled(true, c, DeliverCancel) && Mirrors(c)
    ensures Mirrors(ActEffect(c, DeliverCancel))
  {
    DeliverWrites(c);
    assert forall w | w in Filter(NotBy(Child), c.writes) :: w in c.writes;
  }

  lemma FinishKeepsMirrors(c: Cell)
    requires CellInv(c) && ActEnabled(true, c, Finish) && Mirrors(c)
    ensures Mirrors(ActEffect(c, Finish))
  {
  }

  lemma ActKeepsMirrors(c: Cell, a: Act)
    requires CellInv(c) && ActEnabled(true, c, a) && Mirrors(c)
    ensures Mirrors(ActEffect(c, a))
  {
    if a.Land? || a.Lose? {
      WriteKeepsMirrors(c, a);
    } else if a.DeliverCancel? {
      DeliverKeepsMirrors(c);
    } else if a.Finish? {
      FinishKeepsMirrors(c);
    }
  }

  lemma ReconcileKeepsMirrors(c: Cell)
    requires Mirrors(c)
    ensures Mirrors(ReconcileCell(c, false))
  {
  }

  lemma ResumeKeepsMirrors(c: Cell, available: bool, freshSession: string, freshTrace: string)
    requires Shape(c) && Dormant(c) && Mirrors(c)
    ensures Mirrors(ResumeCell(c, available, freshSession, freshTrace))
  {
  }

  lemma CellKeepsMirrors(c: Cell, c': Cell, l: Label, t: TaskId)
    requires CellInv(c) && CellStep(c, c', l, t) && Mirrors(c)
    ensures Mirrors(c')
  {
    if l.On? && l.t == t && ActEnabled(true, c, l.act) {
      ActKeepsMirrors(c, l.act);
    } else if l.ResumeNext? && Dormant(c) {
      ResumeKeepsMirrors(c, l.available, l.freshSession, l.freshTrace);
    } else if l.Reconcile? {
      ReconcileKeepsMirrors(c);
    }
  }

  lemma {:induction false} RunMirrors(r: Run, i: nat, t: TaskId)
    requires OrderedRun(r) && i < |r.states|
    ensures Mirrors(CellOf(r.states[i], t))
    decreases i
  {
    if i > 0 {
      RunMirrors(r, i - 1, t);
      MirrorsAt(r, i - 1, t);
    }
  }

  lemma MirrorsAt(r: Run, j: nat, t: TaskId)
    requires OrderedRun(r) && j < |r.labels| && Mirrors(CellOf(r.states[j], t))
    ensures Mirrors(CellOf(r.states[j + 1], t))
  {
    RunInv(r, j);
    assert IsStep(r, j);
    StepOfCell(r.states[j], r.labels[j], t);
    CellKeepsMirrors(CellOf(r.states[j], t), CellOf(r.states[j + 1], t), r.labels[j], t);
  }

  /** A finished and stored child gives the same answer from the registry, after a pop
      and after an eviction, whatever cancels are under way. */
  lemma CacheIsInvisible(r: Run, i: nat, t: TaskId, caller: Option<string>)
    requires OrderedRun(r) && i < |r.states|
    requires var c := CellOf(r.states[i], t);
             DoneAndStored(c) && c.entry.Some? && !Refused(c.entry.value, caller)
    ensures var c := CellOf(r.states[i], t);
            && CheckAnswer(c, caller) == OutcomeAnswer(c.task.value.phase.outcome)
            && CheckAnswer(AfterCheck(c, caller), caller) == CheckAnswer(c, caller)
            && CheckAnswer(Evict(c), caller) == CheckAnswer(c, caller)
            && RecordAnswer(c.record) == CheckAnswer(c, caller)
  {
    RunMirrors(r, i, t);
  }

  /** Nothing can still happen to the record of a quiet cell. */
  predicate Quiet(c: Cell) {
    Ended(c) && c.writes == [] && c.launch.NoLaunch? && c.cancels == map[] && (c.task.Some? ==> IsDone(c))
  }

  lemma DoneIsQuiet(c: Cell)
    requires CellInv(c) && DoneAndStored(c) && c.cancels == map[]
    ensures Quiet(c)
  {
  }

  lemma QuietStep(s: State, l: Label, t: TaskId)
    requires Inv(s) && Enabled(s, l) && Quiet(CellOf(s, t))
    ensures Quiet(CellOf(Effect(s, l), t)) && CellOf(Effect(s, l), t).record == CellOf(s, t).record
    ensures l.Crash? || CellOf(Effect(s, l), t).task == CellOf(s, t).task
    ensures CellOf(Effect(s, l), t).entry.Some? ==> CellOf(Effect(s, l), t).entry == CellOf(s, t).entry
    ensures CellOf(Effect(s, l), t).entry.Some? ==> !l.Crash?
  {
    StepOfCell(s, l, t);
    QuietCell(CellOf(s, t), CellOf(Effect(s, l), t), l, t);
  }

  lemma QuietCell(c: Cell, c': Cell, l: Label, t: TaskId)
    requires CellStep(c, c', l, t) && Quiet(c)
    ensures Quiet(c') && c'.record == c.record
    ensures l.Crash? || c'.task == c.task
    ensures c'.entry.Some? ==> c'.entry == c.entry && !l.Crash?
  {
  }

  lemma {:induction false} QuietForever(r: Run, i: nat, j: nat, t: TaskId)
    requires OrderedRun(r) && i <= j < |r.states| && Quiet(CellOf(r.states[i], t))
    ensures Quiet(CellOf(r.states[j], t))
    ensures CellOf(r.states[j], t).record == CellOf(r.states[i], t).record
    ensures CellOf(r.states[j], t).entry.Some? ==>
              && CellOf(r.states[j], t).entry == CellOf(r.states[i], t).entry
              && CellOf(r.states[j], t).task == CellOf(r.states[i], t).task
    decreases j - i
  {
    if i < j {
      QuietForever(r, i, j - 1, t);
      QuietAt(r, j - 1, t);
    }
  }

  lemma QuietAt(r: Run, j: nat, t: TaskId)
    requires OrderedRun(r) && j < |r.labels| && Quiet(CellOf(r.states[j], t))
    ensures var c, c' := CellOf(r.states[j], t), CellOf(r.states[j + 1], t);
            && Quiet(c') && c'.record == c.record
            && (c'.entry.Some? ==> c'.entry == c.entry && c'.task == c.task)
  {
    RunInv(r, j);
    assert IsStep(r, j);
    QuietStep(r.states[j], r.labels[j], t);
  }

  /** A finished delegation with no cancel in progress gives its owner the same
      answer at every later moment: popped, evicted, or after any restart. */
  lemma AnswerIsForever(r: Run, i: nat, j: nat, t: TaskId, caller: Option<string>)
    requires OrderedRun(r) && i <= j < |r.states|
    requires var c := CellOf(r.states[i], t);
             && DoneAndStored(c) && c.entry.Some? && !Refused(c.entry.value, caller)
             && !c.cancelSeen
    ensures CheckAnswer(CellOf(r.states[j], t), caller) == CheckAnswer(CellOf(r.states[i], t), caller)
    ensures CheckAnswer(CellOf(r.states[i], t), caller).Report?
    ensures Terminal(CheckAnswer(CellOf(r.states[i], t), caller).status)
  {
    RunInv(r, i);
    var c := CellOf(r.states[i], t);
    assert CellInv(c);
    DoneIsQuiet(c);
    CacheIsInvisible(r, i, t, caller);
    QuietForever(r, i, j, t);
  }

  /** Clean-up never drops a running task, and drops every finished one when it
      acts at all. */
  lemma CleanupDropsFinishedOnly(s: State, t: TaskId)
    ensures Live(CellOf(s, t)) ==> CellOf(Cleanup(s), t) == CellOf(s, t)
    ensures Registered(s) == set u | u in s.cells && CellOf(s, u).entry.Some?
    ensures |Registered(s)| > 200 && IsDone(CellOf(s, t)) ==> CellOf(Cleanup(s), t).entry.None?
    ensures |Registered(s)| <= 200 ==> Cleanup(s) == s
    ensures CellOf(Cleanup(s), t).(entry := None) == CellOf(s, t).(entry := None)
  {
  }

  // ---- the request survives restarts ----

  /** Whenever a task is running, in the life that launched it or after any
      number of restarts, it runs the launched request, provided that request
      round-trips; and the row would rebuild it if and only if it does. */
  lemma RequestSurvives(r: Run, i: nat, t: TaskId, freshSession: string, freshTrace: string)
    requires OrderedRun(r) && i < |r.states| && freshSession != "" && freshTrace != ""
    ensures var c := CellOf(r.states[i], t);
            && (c.task.Some? ==> c.origin.Some? && (RoundTrips(c.origin.value) ==> c.task.value.req == c.origin.value))
            && (c.record.Some? ==>
                  && c.origin.Some?
                  && (ReadPlan(c.record.value, freshSession, freshTrace) == Rebuilt(c.origin.value)
                      <==> RoundTrips(c.origin.value)))
  {
    RunInv(r, i);
    var c := CellOf(r.states[i], t);
    assert CellInv(c);
    if c.record.Some? {
      RecordRoundTrip(c.record.value, c.origin.value, freshSession, freshTrace);
    }
  }
}
