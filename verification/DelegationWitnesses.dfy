/** Concrete runs that show where the delegation protocol stops short, and why
    the hypotheses of `DelegationTheorems` are needed. */
module DelegationWitnesses {
  import opened Common
  import opened RuntimeTasks
  import opened DelegationProtocol
  import opened DelegationRuns
  import opened DelegationTheorems
  import opened DelegationRestart
  import opened DelegationBacklog

  /** One act on `t`, with the resulting cell spelled out by the caller. */
  ghost function Act1(r: Run, t: TaskId, a: Act, c: Cell): (r': Run)
    requires IsRun(r) && !a.LandCreate?
    requires ActEnabled(Last(r).ordered, CellOf(Last(r), t), a) && ActEffect(CellOf(Last(r), t), a) == c
    ensures Continues(r, r') && CellOf(Last(r'), t) == c && |r'.states| == |r.states| + 1
    ensures Last(r').ordered == Last(r).ordered && Last(r').created == Last(r).created
    ensures Last(r').mode == Last(r).mode && forall u | u != t :: CellOf(Last(r'), u) == CellOf(Last(r), u)
  {
    Then(r, On(t, a))
  }

  const SAMPLE: Request :=
    Request(Some(ZERO_UUID), [], ZERO_UUID, "s", false, "", None, None, None, "trace", 1, 2, 120.0)

  const REPLY: Outcome := Finished(false, "done", false, false, "trace", "s")

  /** The first start-up of a worker with an empty table, up to serving. */
  ghost function Boot(ordered: bool): (r: Run)
    ensures IsRun(r) && Last(r) == State(ordered, map[], [], Serving) && r.states[0].ordered == ordered
  {
    var s0 := State(ordered, map[], [], Booting);
    var r0 := Run([s0], []);
    var r1 := Then(r0, BeginResume);
    assert Snapshot(s0) == [];
    var r2 := Then(r1, Reconcile);
    assert Last(r2).cells == map[];
    r2
  }

  ghost function Launched(ordered: bool, t: TaskId, req: Request): (r: Run)
    requires req.trace != ""
    ensures IsRun(r) && r.states[0].ordered == ordered
    ensures Last(r).ordered == ordered && Last(r).created == [t] && Last(r).mode == Serving
    ensures Last(r).cells == map[t := BLANK.(launch := Created(req), origin := Some(req), record := Some(NewRecord(req)))]
  {
    var r := Then(Boot(ordered), Begin(t, req));
    var c := BLANK.(launch := Creating(req), origin := Some(req));
    assert Registered(Last(Boot(ordered))) == {};
    assert Last(r).cells == map[t := c];
    Then(r, On(t, LandCreate))
  }

  /** A request that cannot be resumed, its row written and its task not yet spawned. */
  const UNRESUMABLE: Request := SAMPLE.(hasToolExecutor := true)
  const LEFT: Cell := BLANK.(origin := Some(UNRESUMABLE), record := Some(NewRecord(UNRESUMABLE)))

  lemma CrashedBeforeSpawn(t: TaskId) returns (r: Run)
    ensures OrderedRun(r) && Last(r).ordered && Last(r).mode == Resuming([t], None, {}) && CellOf(Last(r), t) == LEFT
  {
    r := Launched(true, t, UNRESUMABLE);
    r := Then(r, Crash);
    assert CellOf(Last(r), t) == LEFT;
    assert ActiveIn(Last(r), t);
    assert Snapshot(Last(r)) == [t];
    r := Then(r, BeginResume);
    assert CellOf(Last(r), t) == LEFT;
  }

  /** A crash between the insert and the "running" write of a launch that cannot
      be resumed leaves a pending row for ever: resume skips it, and reconcile
      closes running rows only. */
  lemma PendingOrphanIsReachable(t: TaskId) returns (r: Run)
    ensures OrderedRun(r) && Last(r).mode == Serving && PendingOrphan(CellOf(Last(r), t))
  {
    r := CrashedBeforeSpawn(t);
    assert ReadPlan(NewRecord(UNRESUMABLE), "f", "f") == NotResumable;
    r := Then(r, ResumeNext(true, "f", "f"));
    assert CellOf(Last(r), t) == LEFT;
    r := Then(r, Reconcile);
    assert CellOf(Last(r), t) == LEFT;
  }

  const RUNNING: Write := Write(Launcher, RunningUpdate(SAMPLE, false))
  const DONE: Write := Write(Child, SettleUpdate(REPLY, SAMPLE))

  /** `SAMPLE` spawned and working, its "running" write issued. */
  const SPAWNED: Cell := SpawnTask(BLANK.(origin := Some(SAMPLE), record := Some(NewRecord(SAMPLE))), SAMPLE, Launcher)

  ghost function Spawned(ordered: bool, t: TaskId): (r: Run)
    ensures IsRun(r) && r.states[0].ordered == ordered && Last(r).ordered == ordered
    ensures Last(r).created == [t] && Last(r).mode == Serving && CellOf(Last(r), t) == SPAWNED
  {
    Act1(Launched(ordered, t, SAMPLE), t, Spawn, SPAWNED)
  }

  const ENDED: Record := Apply(NewRecord(SAMPLE), DONE.update)
  const STALE: Record := Apply(ENDED, RUNNING.update)

  const SETTLING: Cell :=
    SPAWNED.(task := Some(Task(SAMPLE, Settling(REPLY), false)), writes := [RUNNING, DONE])

  lemma SettledBeforeLanding(t: TaskId) returns (r: Run)
    ensures IsRun(r) && !r.states[0].ordered && !Last(r).ordered
    ensures Last(r).created == [t] && CellOf(Last(r), t) == SETTLING
  {
    r := Spawned(false, t);
    assert SPAWNED.writes == [RUNNING];
    r := Act1(r, t, Settle(REPLY), SETTLING);
  }

  lemma CompletedThenRunning(t: TaskId) returns (r: Run, i: nat)
    ensures IsRun(r) && !r.states[0].ordered && i < |r.states| - 1
    ensures CellOf(r.states[i], t).record == Some(ENDED)
    ensures Last(r).created == [t] && CellOf(Last(r), t).record == Some(STALE)
    ensures CellOf(Last(r), t).origin == Some(SAMPLE)
  {
    r := SettledBeforeLanding(t);
    var c := SETTLING.(record := Some(ENDED), writes := [RUNNING]);
    r := Act1(r, t, Land(1), c);
    i := |r.states| - 1;
    c := c.(record := Some(STALE), writes := []);
    r := Act1(r, t, Land(0), c);
  }

  lemma UpdatesBelong()
    ensures UpdateFor(DONE.update, SAMPLE) && UpdateFor(RUNNING.update, SAMPLE)
  {
  }

  lemma EndedBelongs()
    ensures RecordFor(ENDED, SAMPLE)
  {
    UpdatesBelong();
    NewRecordFor(SAMPLE);
    ApplyKeepsRecordFor(NewRecord(SAMPLE), DONE.update, SAMPLE);
  }

  lemma StaleRebuilds()
    ensures ReadPlan(STALE, "f", "f") == Rebuilt(SAMPLE)
  {
    EndedBelongs();
    UpdatesBelong();
    ApplyKeepsRecordFor(ENDED, RUNNING.update, SAMPLE);
    RecordRoundTrip(STALE, SAMPLE, "f", "f");
  }

  /** If the store may apply the writes of one task in another order than they
      were issued, the late "running" overwrites the child's "completed", and the
      next restart runs the finished delegation a second time. */
  lemma UnorderedStoreReruns(t: TaskId) returns (r: Run, i: nat, j: nat)
    ensures IsRun(r) && !r.states[0].ordered && i < j < |r.labels|
    ensures Ended(CellOf(r.states[i], t)) && !Ended(CellOf(r.states[j], t))
    ensures IsStep(r, j) && Spawns(r.states[j], r.labels[j], t)
  {
    r, i := CompletedThenRunning(t);
    r, j := RestartRuns(r, t);
  }

  lemma RestartRuns(r0: Run, t: TaskId) returns (r: Run, j: nat)
    requires IsRun(r0) && Last(r0).created == [t]
    requires CellOf(Last(r0), t).record == Some(STALE)
    ensures Continues(r0, r) && |r0.states| <= j < |r.labels|
    ensures CellOf(r.states[j], t).record == Some(STALE)
    ensures IsStep(r, j) && Spawns(r.states[j], r.labels[j], t)
  {
    r := Restarted(r0, t, STALE);
    j := |r.states| - 1;
    StaleRebuilds();
    var s := Last(r);
    var l := ResumeNext(true, "f", "f");
    ResumeSpawns(s, t);
    r := Then(r, l);
    assert r.states[j] == s && r.labels[j] == l;
    assert IsStep(r, j);
  }

  lemma ResumeSpawns(s: State, t: TaskId)
    requires s.mode == Resuming([t], None, {}) && CellOf(s, t).entry.None?
    requires CellOf(s, t).record == Some(STALE) && ReadPlan(STALE, "f", "f") == Rebuilt(SAMPLE)
    ensures Enabled(s, ResumeNext(true, "f", "f")) && Spawns(s, ResumeNext(true, "f", "f"), t)
  {
  }

  lemma Restarted(r0: Run, t: TaskId, rec: Record) returns (r: Run)
    requires IsRun(r0) && Last(r0).created == [t]
    requires CellOf(Last(r0), t).record == Some(rec) && Active(rec.status)
    ensures Continues(r0, r) && |r.states| == |r0.states| + 2
    ensures Last(r).mode == Resuming([t], None, {}) && Last(r).created == [t] && Last(r).ordered == Last(r0).ordered
    ensures CellOf(Last(r), t) == AfterCrash(CellOf(Last(r0), t))
    ensures forall u :: CellOf(Last(r), u) == AfterCrash(CellOf(Last(r0), u))
  {
    r := Then(r0, Crash);
    ghost var s := Last(r);
    assert forall u :: CellOf(s, u) == AfterCrash(CellOf(Last(r0), u));
    assert ActiveIn(s, t) && Snapshot(s) == [t];
    r := Then(r, BeginResume);
    assert forall u :: CellOf(Last(r), u) == CellOf(s, u);
  }

  lemma CancelLands(r0: Run, t: TaskId, c: Cell) returns (r: Run)
    requires IsRun(r0) && CellOf(Last(r0), t) == c && c.record.Some?
    requires c.task == Some(Task(SAMPLE, Done(REPLY), false)) && c.cancels == map[0 := Waiting] && c.writes == []
    ensures Continues(r0, r)
    ensures CheckAnswer(CellOf(Last(r), t), None) == Report(Killed, Some(CANCEL_TEXT), false)
  {
    var killed := Write(Canceller(0), CancelUpdate("trace"));
    var c1 := c.(entry := None, cancels := map[0 := Writing], writes := [killed]);
    r := Act1(r0, t, ProceedCancel(0), c1);
    var c2 := c1.(record := Some(Apply(c.record.value, killed.update)), writes := []);
    r := Act1(r, t, Land(0), c2);
  }

  /** A cancel that arrives as the child's turn ends: the check answers
      "completed" from the registry, and later "killed" from the record. */
  lemma CancelRaceFlipsAnswer(t: TaskId) returns (r: Run, i: nat, j: nat)
    ensures OrderedRun(r) && i < j < |r.states|
    ensures CheckAnswer(CellOf(r.states[i], t), None) == Report(Completed, Some("done"), false)
    ensures CheckAnswer(CellOf(r.states[j], t), None) == Report(Killed, Some(CANCEL_TEXT), false)
  {
    var c;
    r, c := FinishedDespiteCancel(t);
    i := |r.states| - 1;
    assert CheckAnswer(c, None) == Report(Completed, Some("done"), false);
    r := CancelLands(r, t, c);
    j := |r.states| - 1;
  }

  const LANDED: Cell := SPAWNED.(record := Some(Apply(NewRecord(SAMPLE), RUNNING.update)), writes := [])
  const WORKING: Cell := LANDED.(cancels := map[0 := Waiting], cancelSeen := true)

  lemma LandRunning(r0: Run, t: TaskId) returns (r: Run)
    requires IsRun(r0) && CellOf(Last(r0), t) == SPAWNED
    ensures Continues(r0, r) && CellOf(Last(r), t) == LANDED
    ensures Last(r).ordered == Last(r0).ordered && Last(r).mode == Last(r0).mode
  {
    assert SPAWNED.writes == [RUNNING];
    r := Act1(r0, t, Land(0), LANDED);
  }

  lemma WorkingDespiteCancel(t: TaskId) returns (r: Run)
    ensures OrderedRun(r) && CellOf(Last(r), t) == WORKING && Last(r).ordered
  {
    r := LandRunning(Spawned(true, t), t);
    r := MissedCancel(r, t);
  }

  lemma MissedCancel(r0: Run, t: TaskId) returns (r: Run)
    requires IsRun(r0) && CellOf(Last(r0), t) == LANDED
    ensures Continues(r0, r) && CellOf(Last(r), t) == WORKING && Last(r).ordered == Last(r0).ordered
  {
    var c := WORKING.(task := Some(Task(SAMPLE, Working, true)));
    r := Act1(r0, t, RequestCancel(0, None), c);
    r := Act1(r, t, MissCancel, WORKING);
  }

  const SETTLED: Cell := WORKING.(task := Some(Task(SAMPLE, Settling(REPLY), false)), writes := [DONE])
  const STORED: Cell := SETTLED.(record := Some(Apply(SETTLED.record.value, DONE.update)), writes := [])

  lemma SettledDespiteCancel(t: TaskId) returns (r: Run)
    ensures OrderedRun(r) && CellOf(Last(r), t) == SETTLED && Last(r).ordered
  {
    r := WorkingDespiteCancel(t);
    r := Act1(r, t, Settle(REPLY), SETTLED);
  }

  lemma StoredDespiteCancel(t: TaskId) returns (r: Run)
    ensures OrderedRun(r) && CellOf(Last(r), t) == STORED && Last(r).ordered
  {
    r := SettledDespiteCancel(t);
    r := Act1(r, t, Land(0), STORED);
  }

  lemma FinishedDespiteCancel(t: TaskId) returns (r: Run, c: Cell)
    ensures OrderedRun(r) && CellOf(Last(r), t) == c && Last(r).ordered
    ensures c.task == Some(Task(SAMPLE, Done(REPLY), false)) && c.entry == SPAWNED.entry
    ensures c.cancels == map[0 := Waiting] && c.writes == [] && c.record.Some?
  {
    r := StoredDespiteCancel(t);
    c := STORED.(task := Some(Task(SAMPLE, Done(REPLY), false)));
    r := Act1(r, t, Finish, c);
  }

  // ---- a launch while the resume loop is at work ----

  /** What the child of `SAMPLE` launches. */
  const INNER: Request := SAMPLE.(parentAgent := SAMPLE.target, depth := 2)

  const INNER_SPAWNED: Cell := SpawnTask(BLANK.(origin := Some(INNER), record := Some(NewRecord(INNER))), INNER, Launcher)
  const INNER_RUNNING: Cell :=
    INNER_SPAWNED.(record := Some(Apply(NewRecord(INNER), RunningUpdate(INNER, false))), writes := [])

  const RESTING: Cell := AfterCrash(LANDED)
  const AGAIN: Cell := SpawnTask(RESTING, SAMPLE, Resumer)

  lemma RestingRebuilds()
    ensures ReadPlan(LANDED.record.value, "f", "f") == Rebuilt(SAMPLE) && Rebuilds(LANDED.record.value)
  {
    NewRecordFor(SAMPLE);
    ApplyKeepsRecordFor(NewRecord(SAMPLE), RUNNING.update, SAMPLE);
    RecordRoundTrip(LANDED.record.value, SAMPLE, "f", "f");
    RebuildsIff(LANDED.record.value, "f", "f");
  }

  /** Only `t` has been created, and it is `c`. */
  ghost predicate Alone(s: State, t: TaskId, c: Cell) {
    s.ordered && s.created == [t] && CellOf(s, t) == c && forall u | u != t :: CellOf(s, u) == BLANK
  }

  lemma RestsAlone(t: TaskId) returns (r: Run)
    ensures OrderedRun(r) && Last(r).mode == Resuming([t], None, {}) && Alone(Last(r), t, RESTING)
  {
    r := RunningAlone(t);
    ghost var s := Last(r);
    r := Restarted(r, t, LANDED.record.value);
    assert forall u | u != t :: CellOf(Last(r), u) == AfterCrash(CellOf(s, u)) == BLANK;
  }

  /** A worker crashes while `SAMPLE` runs, and the next one spawns it again. */
  lemma ResumedAgain(t: TaskId) returns (r: Run)
    ensures OrderedRun(r) && Last(r).mode == Resuming([], Some(t), {t}) && Alone(Last(r), t, AGAIN)
  {
    r := RestsAlone(t);
    RestingRebuilds();
    r := SpawnsAlone(r, t, RESTING, SAMPLE);
  }

  lemma SpawnsAlone(r0: Run, t: TaskId, c: Cell, req: Request) returns (r: Run)
    requires OrderedRun(r0) && Last(r0).mode == Resuming([t], None, {}) && Alone(Last(r0), t, c)
    requires Asleep(c) && c.entry.None? && c.record.Some?
    requires ReadPlan(c.record.value, "f", "f") == Rebuilt(req) && Rebuilds(c.record.value)
    ensures OrderedRun(r) && Last(r).mode == Resuming([], Some(t), {t}) && Alone(Last(r), t, SpawnTask(c, req, Resumer))
  {
    TurnEffect(Last(r0), t, true);
    r := Then(r0, ResumeNext(true, "f", "f"));
  }

  lemma RunningAlone(t: TaskId) returns (r: Run)
    ensures OrderedRun(r) && Alone(Last(r), t, LANDED)
  {
    r := SpawnedAlone(t);
    r := LandsAlone(r, t);
  }

  lemma SpawnedAlone(t: TaskId) returns (r: Run)
    ensures OrderedRun(r) && Alone(Last(r), t, SPAWNED)
  {
    r := Launched(true, t, SAMPLE);
    assert forall u | u != t :: CellOf(Last(r), u) == BLANK;
    r := Act1(r, t, Spawn, SPAWNED);
  }

  lemma LandsAlone(r0: Run, t: TaskId) returns (r: Run)
    requires OrderedRun(r0) && Alone(Last(r0), t, SPAWNED)
    ensures OrderedRun(r) && Alone(Last(r), t, LANDED)
  {
    assert SPAWNED.writes == [RUNNING];
    r := Act1(r0, t, Land(0), LANDED);
  }

  /** The resumed child launches `u` before the loop goes on. */
  lemma ChildLaunches(t: TaskId, u: TaskId) returns (r: Run)
    requires t != u
    ensures OrderedRun(r) && Last(r).ordered && Last(r).mode == Resuming([], Some(t), {t})
    ensures CellOf(Last(r), t) == AGAIN && CellOf(Last(r), u) == BLANK.(launch := Creating(INNER), origin := Some(INNER))
  {
    r := ResumedAgain(t);
    ghost var s := Last(r);
    assert t in s.cells && SomeWorking(s);
    r := Then(r, Begin(u, INNER));
    CellOfCleanup(s, t);
    assert CellOf(Last(r), t) == CellOf(Cleanup(s), t);
  }

  lemma InnerRuns(t: TaskId, u: TaskId) returns (r: Run)
    requires t != u
    ensures OrderedRun(r) && Last(r).ordered && Last(r).mode == Resuming([], Some(t), {t})
    ensures CellOf(Last(r), t) == AGAIN && CellOf(Last(r), u) == INNER_RUNNING
  {
    r := ChildLaunches(t, u);
    r := Then(r, On(u, LandCreate));
    r := Act1(r, u, Spawn, INNER_SPAWNED);
    assert INNER_SPAWNED.writes == [Write(Launcher, RunningUpdate(INNER, false))];
    r := Act1(r, u, Land(0), INNER_RUNNING);
  }

  /** A task that a resumed child launches while the resume loop is still at work is
      closed by reconcile although it is live. */
  lemma ReconcileCanCloseLive(t: TaskId, u: TaskId) returns (r: Run)
    requires t != u
    ensures OrderedRun(r) && Last(r).mode == Serving
    ensures Live(CellOf(Last(r), u)) && Ended(CellOf(Last(r), u))
  {
    r := InnerRuns(t, u);
    r := LoopEnds(r, t, u);
    ghost var s := Last(r);
    r := Then(r, Reconcile);
    CellOfReconcile(s, u);
  }

  lemma LoopEnds(r0: Run, t: TaskId, u: TaskId) returns (r: Run)
    requires OrderedRun(r0) && t != u && Last(r0).ordered && Last(r0).mode == Resuming([], Some(t), {t})
    requires CellOf(Last(r0), t) == AGAIN
    ensures OrderedRun(r) && Last(r).mode == Resuming([], None, {t})
    ensures CellOf(Last(r), u) == CellOf(Last(r0), u)
  {
    var w := Write(Resumer, RunningUpdate(SAMPLE, true));
    assert AGAIN.writes == [w];
    r := Act1(r0, t, Land(0), AGAIN.(record := Some(Apply(AGAIN.record.value, w.update)), writes := []));
    r := Then(r, ResumeContinue);
  }
}
