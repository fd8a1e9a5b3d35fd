/** What a restart does to every record: which are resumed, which are closed, and
    which stay pending, now and over every later restart. */
module DelegationRestart {
  import opened Common
  import opened RuntimeTasks
  import opened DelegationProtocol
  import opened DelegationInvariant
  import opened DelegationRuns
  import opened DelegationTheorems

  // ---- the start-up of one worker life ----

  /** The start-up that loads the active records at step `b` and reconciles at `i`. */
  ghost predicate Startup(r: Run, b: nat, i: nat) {
    && OrderedRun(r) && b < i < |r.labels|
    && (r.labels[b].BeginResume? || r.labels[b].LoadFails?) && r.labels[i].Reconcile?
    && forall k | b < k < i :: !r.labels[k].Crash?
  }

  /** What the load returned. */
  function Listed(r: Run, b: nat): seq<TaskId>
    requires b < |r.labels| && |r.states| == |r.labels| + 1
  {
    if r.labels[b].LoadFails? then [] else Snapshot(r.states[b])
  }

  /** At step `k` the resume loop comes to `t`. */
  predicate Turn(r: Run, k: nat, t: TaskId)
    requires k < |r.labels| && |r.states| == |r.labels| + 1
  {
    r.labels[k].ResumeNext? && r.states[k].mode.Resuming? && r.states[k].mode.queue != [] && r.states[k].mode.queue[0] == t
  }

  /** The target was available when the loop came to `t`. */
  ghost predicate TargetFound(r: Run, b: nat, i: nat, t: TaskId)
    requires i <= |r.labels| && |r.states| == |r.labels| + 1
  {
    exists k | b < k < i :: Turn(r, k, t) && r.labels[k].available
  }

  /** A write for `t` failed between the steps. */
  ghost predicate WriteLost(r: Run, b: nat, i: nat, t: TaskId)
    requires i <= |r.labels|
  {
    exists k | b < k < i :: r.labels[k] == On(t, Lose(0))
  }

  /** `t` was launched between the steps. */
  ghost predicate LaunchedIn(r: Run, b: nat, i: nat, t: TaskId)
    requires i <= |r.labels|
  {
    exists k | b < k < i :: r.labels[k].Begin? && r.labels[k].t == t
  }

  lemma {:induction false} NotBooting(r: Run, b: nat, i: nat, j: nat)
    requires Startup(r, b, i) && b < j <= i
    ensures !r.states[j].mode.Booting?
    decreases j
  {
    assert IsStep(r, j - 1);
    if j - 1 > b {
      NotBooting(r, b, i, j - 1);
    }
  }

  /** Between the two steps the worker is in the resume loop. */
  lemma {:induction false} InLoop(r: Run, b: nat, i: nat, j: nat)
    requires Startup(r, b, i) && b < j <= i
    ensures r.states[j].mode.Resuming?
    decreases i - j
  {
    assert IsStep(r, j);
    NotBooting(r, b, i, j);
    if j < i {
      InLoop(r, b, i, j + 1);
    }
  }

  /** One step of the loop: it is possible, and it starts and ends in the loop. */
  lemma LoopStep(r: Run, b: nat, i: nat, j: nat)
    requires Startup(r, b, i) && b < j < i
    ensures Enabled(r.states[j], r.labels[j]) && r.states[j + 1] == Effect(r.states[j], r.labels[j])
    ensures Inv(r.states[j]) && r.states[j].mode.Resuming? && r.states[j + 1].mode.Resuming?
    ensures !r.labels[j].Crash?
  {
    assert IsStep(r, j);
    RunInv(r, j);
    InLoop(r, b, i, j);
    InLoop(r, b, i, j + 1);
  }

  lemma LoopBegins(r: Run, b: nat, i: nat)
    requires Startup(r, b, i)
    ensures Inv(r.states[b]) && r.states[b].mode.Booting?
    ensures r.states[b + 1] == r.states[b].(mode := Resuming(Listed(r, b), None, {}))
  {
    assert IsStep(r, b);
    RunInv(r, b);
  }

  // ---- one record through the loop ----

  /** How far the loop is with a record: not reached, passed over, spawned again, or
      being closed because its target is gone; that write then lands or is lost. */
  datatype Stage = Ahead | Skipped | Spawned | Closing | Closed | Unclosed

  /** The cell at each stage, given the cell before start-up. */
  ghost predicate AtStage(g: Stage, before: Cell, now: Cell) {
    match g
    case Ahead => now == before
    case Skipped => now == before
    case Spawned => now.task.Some? && now.record.Some?
    case Closing => now == Issue(before, Resumer, RESUME_FAILED)
    case Closed => before.record.Some? && now == before.(record := Some(Apply(before.record.value, RESUME_FAILED)))
    case Unclosed => now == before.(lost := before.lost + {Resumer})
  }

  function NextStage(g: Stage, s: State, l: Label, t: TaskId, rebuilds: bool): Stage {
    if l.ResumeNext? && s.mode.Resuming? && s.mode.queue != [] && s.mode.queue[0] == t then
      if !rebuilds then Skipped else if l.available then Spawned else Closing
    else if g.Closing? && l.On? && l.t == t then
      if l.act.Land? then Closed else Unclosed
    else g
  }

  lemma QuietElsewhere(s: State, l: Label, t: TaskId)
    requires Inv(s) && Enabled(s, l) && !l.Crash? && !l.Reconcile?
    requires CellOf(s, t).record.Some? && !(l.On? && l.t == t) && !(l.ResumeNext? && s.mode.queue[0] == t)
    ensures CellOf(s, t).task.None? ==> CellOf(Effect(s, l), t) == CellOf(s, t)
    ensures CellOf(s, t).task.Some? ==> CellOf(Effect(s, l), t).task == CellOf(s, t).task
    ensures CellOf(Effect(s, l), t).record == CellOf(s, t).record
  {
    assert CellInv(CellOf(s, t));
    Elsewhere(s, l, t);
  }

  /** What the loop's own turn does. */
  lemma TurnStep(s: State, l: Label, t: TaskId)
    requires Inv(s) && Enabled(s, l) && l.ResumeNext? && s.mode.queue[0] == t
    ensures Dormant(CellOf(s, t))
    ensures AtStage(NextStage(Ahead, s, l, t, Rebuilds(CellOf(s, t).record.value)), CellOf(s, t), CellOf(Effect(s, l), t))
    ensures t !in Effect(s, l).mode.queue
    ensures t in Effect(s, l).mode.resumed <==> l.available && Rebuilds(CellOf(s, t).record.value)
  {
    ResumedCell(s, l, t);
    assert CellInv(CellOf(s, t));
    RebuildsIff(CellOf(s, t).record.value, l.freshSession, l.freshTrace);
    TailDistinct(s.mode.queue);
  }

  /** The one write of a record that is being closed lands or is lost. */
  lemma ClosingAct(before: Cell, a: Act)
    requires Asleep(before) && before.record.Some? && before.entry.None? && before.cancels == map[]
    requires ActEnabled(true, Issue(before, Resumer, RESUME_FAILED), a)
    ensures a == Land(0) || a == Lose(0)
    ensures AtStage(if a.Land? then Closed else Unclosed, before, ActEffect(Issue(before, Resumer, RESUME_FAILED), a))
  {
    var c := Issue(before, Resumer, RESUME_FAILED);
    assert c.writes == [Write(Resumer, RESUME_FAILED)];
    assert RemoveAt(c.writes, 0) == [];
  }

  lemma StageCell(g: Stage, before: Cell, s: State, l: Label, t: TaskId)
    requires Inv(s) && Enabled(s, l) && !l.Crash? && !l.Reconcile?
    requires Dormant(before) && CellInv(before) && AtStage(g, before, CellOf(s, t))
    requires l.ResumeNext? && s.mode.queue[0] == t ==> g == Ahead
    ensures AtStage(NextStage(g, s, l, t, Rebuilds(before.record.value)), before, CellOf(Effect(s, l), t))
  {
    if l.ResumeNext? && s.mode.queue[0] == t {
      TurnStep(s, l, t);
    } else if l.On? && l.t == t {
      StageAct(g, before, s, l, t);
    } else {
      QuietElsewhere(s, l, t);
    }
  }

  lemma StageQueue(g: Stage, before: Cell, s: State, l: Label, t: TaskId, listed: bool)
    requires Inv(s) && Enabled(s, l) && s.mode.Resuming? && Effect(s, l).mode.Resuming?
    requires AtStage(g, before, CellOf(s, t)) && before.record.Some?
    requires t in s.mode.queue <==> listed && g == Ahead
    requires t in s.mode.resumed <==> g == Spawned
    ensures var g' := NextStage(g, s, l, t, Rebuilds(before.record.value));
            && (t in Effect(s, l).mode.queue <==> listed && g' == Ahead)
            && (t in Effect(s, l).mode.resumed <==> g' == Spawned)
  {
    if l.ResumeNext? && s.mode.queue[0] == t {
      TurnStep(s, l, t);
    } else {
      QueueElsewhere(s, l, t);
    }
  }

  lemma QueueElsewhere(s: State, l: Label, t: TaskId)
    requires Inv(s) && Enabled(s, l) && s.mode.Resuming? && Effect(s, l).mode.Resuming?
    requires !(l.ResumeNext? && s.mode.queue[0] == t)
    ensures t in Effect(s, l).mode.queue <==> t in s.mode.queue
    ensures t in Effect(s, l).mode.resumed <==> t in s.mode.resumed
  {
    if l.ResumeNext? {
      TailDistinct(s.mode.queue);
    }
  }

  lemma StageAct(g: Stage, before: Cell, s: State, l: Label, t: TaskId)
    requires Inv(s) && Enabled(s, l) && l.On? && l.t == t
    requires Dormant(before) && CellInv(before) && AtStage(g, before, CellOf(s, t))
    ensures g == Spawned || g == Closing
    ensures g == Closing ==> l.act == Land(0) || l.act == Lose(0)
    ensures AtStage(if g == Spawned then Spawned else if l.act.Land? then Closed else Unclosed, before, CellOf(Effect(s, l), t))
  {
    assert CellInv(CellOf(s, t));
    ActKeepsResumer(CellOf(s, t), l.act);
    ActKeepsRecorded(CellOf(s, t), l.act);
    CellsAfterAct(s, t, l.act);
    if g == Closing {
      ClosingAct(before, l.act);
    }
  }

  // ---- over the whole loop ----

  function RebuildsAt(r: Run, b: nat, t: TaskId): bool
    requires b < |r.states|
  {
    CellOf(r.states[b], t).record.Some? && Rebuilds(CellOf(r.states[b], t).record.value)
  }

  function StageAt(r: Run, b: nat, j: nat, t: TaskId): Stage
    requires b < j <= |r.labels| && |r.states| == |r.labels| + 1
    decreases j
  {
    if j == b + 1 then Ahead
    else NextStage(StageAt(r, b, j - 1, t), r.states[j - 1], r.labels[j - 1], t, RebuildsAt(r, b, t))
  }

  lemma ActiveIsDormant(r: Run, b: nat, i: nat, t: TaskId)
    requires Startup(r, b, i) && ActiveIn(r.states[b], t)
    ensures Dormant(CellOf(r.states[b], t)) && CellInv(CellOf(r.states[b], t))
    ensures CellOf(r.states[b + 1], t) == CellOf(r.states[b], t)
  {
    LoopBegins(r, b, i);
  }

  /** The record is at its stage; it is still queued exactly when it was listed and
      not reached, and counted as resumed exactly when it was spawned. */
  ghost predicate OnTrack(r: Run, b: nat, j: nat, t: TaskId)
    requires b < j <= |r.labels| && |r.states| == |r.labels| + 1
  {
    var s, g := r.states[j], StageAt(r, b, j, t);
    && s.mode.Resuming? && AtStage(g, CellOf(r.states[b], t), CellOf(s, t))
    && (t in s.mode.queue <==> t in Listed(r, b) && g == Ahead)
    && (t in s.mode.resumed <==> g == Spawned)
  }

  lemma TrackBegins(r: Run, b: nat, i: nat, t: TaskId)
    requires Startup(r, b, i) && ActiveIn(r.states[b], t)
    ensures OnTrack(r, b, b + 1, t)
  {
    LoopBegins(r, b, i);
    ActiveIsDormant(r, b, i, t);
  }

  lemma TrackStep(r: Run, b: nat, i: nat, j: nat, t: TaskId)
    requires Startup(r, b, i) && b < j < i && ActiveIn(r.states[b], t) && OnTrack(r, b, j, t)
    ensures OnTrack(r, b, j + 1, t)
  {
    LoopStep(r, b, i, j);
    ActiveIsDormant(r, b, i, t);
    var g, before := StageAt(r, b, j, t), CellOf(r.states[b], t);
    StageCell(g, before, r.states[j], r.labels[j], t);
    StageQueue(g, before, r.states[j], r.labels[j], t, t in Listed(r, b));
  }

  lemma {:induction false} StaysOnTrack(r: Run, b: nat, i: nat, j: nat, t: TaskId)
    requires Startup(r, b, i) && b < j <= i && ActiveIn(r.states[b], t)
    ensures OnTrack(r, b, j, t)
    decreases j
  {
    if j > b + 1 {
      StaysOnTrack(r, b, i, j - 1, t);
      TrackStep(r, b, i, j - 1, t);
    } else {
      TrackBegins(r, b, i, t);
    }
  }

  ghost predicate Reached(r: Run, b: nat, j: nat, t: TaskId)
    requires j <= |r.labels| && |r.states| == |r.labels| + 1
  {
    exists k | b < k < j :: Turn(r, k, t)
  }

  /** The labels that brought the record to its stage. */
  ghost predicate Explained(r: Run, b: nat, j: nat, t: TaskId)
    requires b < j <= |r.labels| && |r.states| == |r.labels| + 1
  {
    var g := StageAt(r, b, j, t);
    && (g == Ahead <==> !Reached(r, b, j, t))
    && (g == Spawned <==> RebuildsAt(r, b, t) && TargetFound(r, b, j, t))
    && (g == Skipped <==> !RebuildsAt(r, b, t) && Reached(r, b, j, t))
    && (g != Spawned ==> (WriteLost(r, b, j, t) <==> g == Unclosed))
  }

  lemma ExistsStep(r: Run, b: nat, j: nat, t: TaskId)
    requires b < j < |r.labels| && |r.states| == |r.labels| + 1
    ensures Reached(r, b, j + 1, t) <==> Reached(r, b, j, t) || Turn(r, j, t)
    ensures TargetFound(r, b, j + 1, t) <==> TargetFound(r, b, j, t) || (Turn(r, j, t) && r.labels[j].available)
    ensures WriteLost(r, b, j + 1, t) <==> WriteLost(r, b, j, t) || r.labels[j] == On(t, Lose(0))
    ensures LaunchedIn(r, b, j + 1, t) <==> LaunchedIn(r, b, j, t) || (r.labels[j].Begin? && r.labels[j].t == t)
  {
  }

  lemma {:induction false} IsExplained(r: Run, b: nat, i: nat, j: nat, t: TaskId)
    requires Startup(r, b, i) && b < j <= i && ActiveIn(r.states[b], t)
    ensures Explained(r, b, j, t)
    decreases j
  {
    if j > b + 1 {
      IsExplained(r, b, i, j - 1, t);
      ExplainStep(r, b, i, j - 1, t);
    }
  }

  /** A turn finds the record not reached; any other step on it is one of its task,
      or the end of its closing write. */
  lemma StepFacts(r: Run, b: nat, i: nat, j: nat, t: TaskId)
    requires Startup(r, b, i) && b < j < i && ActiveIn(r.states[b], t)
    ensures Turn(r, j, t) ==> StageAt(r, b, j, t) == Ahead
    ensures r.labels[j].On? && r.labels[j].t == t ==>
              StageAt(r, b, j, t) == Spawned
              || (StageAt(r, b, j, t) == Closing && (r.labels[j].act == Land(0) || r.labels[j].act == Lose(0)))
  {
    ActiveIsDormant(r, b, i, t);
    StaysOnTrack(r, b, i, j, t);
    LoopStep(r, b, i, j);
    if r.labels[j].On? && r.labels[j].t == t {
      StageAct(StageAt(r, b, j, t), CellOf(r.states[b], t), r.states[j], r.labels[j], t);
    }
  }

  lemma ExplainMore(r: Run, b: nat, j: nat, t: TaskId)
    requires b < j < |r.labels| && |r.states| == |r.labels| + 1 && Explained(r, b, j, t)
    requires Turn(r, j, t) ==> StageAt(r, b, j, t) == Ahead
    requires r.labels[j].On? && r.labels[j].t == t ==>
               StageAt(r, b, j, t) == Spawned
               || (StageAt(r, b, j, t) == Closing && (r.labels[j].act == Land(0) || r.labels[j].act == Lose(0)))
    ensures Explained(r, b, j + 1, t)
  {
    ExistsStep(r, b, j, t);
  }

  lemma ExplainStep(r: Run, b: nat, i: nat, j: nat, t: TaskId)
    requires Startup(r, b, i) && b < j < i && ActiveIn(r.states[b], t) && Explained(r, b, j, t)
    ensures Explained(r, b, j + 1, t)
  {
    StepFacts(r, b, i, j, t);
    ExplainMore(r, b, j, t);
  }

  lemma QueueShrinks(s: State, l: Label, t: TaskId)
    requires Enabled(s, l) && s.mode.Resuming? && Effect(s, l).mode.Resuming?
    requires t in Effect(s, l).mode.resumed || t in Effect(s, l).mode.queue
    ensures t in s.mode.resumed || t in s.mode.queue
  {
  }

  lemma QueueAt(r: Run, b: nat, i: nat, j: nat, t: TaskId)
    requires Startup(r, b, i) && b < j < i && r.states[j + 1].mode.Resuming?
    requires t in r.states[j + 1].mode.resumed || t in r.states[j + 1].mode.queue
    ensures r.states[j].mode.Resuming? && (t in r.states[j].mode.resumed || t in r.states[j].mode.queue)
  {
    LoopStep(r, b, i, j);
    QueueShrinks(r.states[j], r.labels[j], t);
  }

  /** Nothing is resumed that was not listed. */
  lemma {:induction false} OnlyListed(r: Run, b: nat, i: nat, j: nat, t: TaskId)
    requires Startup(r, b, i) && b < j <= i && r.states[j].mode.Resuming?
    requires t in r.states[j].mode.resumed || t in r.states[j].mode.queue
    ensures t in Listed(r, b)
    decreases j
  {
    if j > b + 1 {
      QueueAt(r, b, i, j - 1, t);
      OnlyListed(r, b, i, j - 1, t);
    } else {
      LoopBegins(r, b, i);
    }
  }

  lemma ListedIsActive(r: Run, b: nat, t: TaskId)
    requires b < |r.labels| && |r.states| == |r.labels| + 1 && t in Listed(r, b)
    ensures ActiveIn(r.states[b], t) && t in r.states[b].created
  {
    var active := Filter(IsActive(r.states[b]), r.states[b].created);
    assert t in active;
  }

  // ---- what start-up leaves behind ----

  /** A restart resumes exactly the records that its load returned, whose row can be
      rebuilt, and whose target was available when the loop came to them. */
  lemma ResumedIff(r: Run, b: nat, i: nat, t: TaskId)
    requires Startup(r, b, i)
    ensures r.states[i].mode.Resuming?
    ensures t in r.states[i].mode.resumed <==>
            t in Listed(r, b) && RebuildsAt(r, b, t) && TargetFound(r, b, i, t)
  {
    InLoop(r, b, i, i);
    assert IsStep(r, i);
    if t in r.states[i].mode.resumed {
      OnlyListed(r, b, i, i, t);
    }
    if t in Listed(r, b) {
      ListedIsActive(r, b, t);
      StaysOnTrack(r, b, i, i, t);
      IsExplained(r, b, i, i, t);
    }
  }

  /** The loop comes to every listed record. */
  lemma EveryListedIsReached(r: Run, b: nat, i: nat, t: TaskId)
    requires Startup(r, b, i) && ActiveIn(r.states[b], t)
    ensures t in Listed(r, b) <==> Reached(r, b, i, t)
  {
    assert IsStep(r, i);
    StaysOnTrack(r, b, i, i, t);
    IsExplained(r, b, i, i, t);
    if Reached(r, b, i, t) {
      var k :| b < k < i && Turn(r, k, t);
      OnlyListed(r, b, i, k, t);
    }
  }

  datatype Fate = Resumed | Unavailable | Orphaned | LeftPending

  /** What becomes of a record that is active when start-up begins. */
  ghost function FateOf(r: Run, b: nat, i: nat, t: TaskId): Fate
    requires b < i <= |r.labels| && |r.states| == |r.labels| + 1 && ActiveIn(r.states[b], t)
  {
    var tried := t in Listed(r, b) && RebuildsAt(r, b, t);
    if tried && TargetFound(r, b, i, t) then Resumed
    else if tried && !WriteLost(r, b, i, t) then Unavailable
    else if CellOf(r.states[b], t).record.value.status == Running then Orphaned
    else LeftPending
  }

  /** The row as it was but for its status, its result and one flag in its metadata. */
  ghost predicate ClosedWith(before: Record, after: Record, result: Option<string>, flag: string) {
    && after.status == Failed && after.result == result
    && Get(after.metadata, flag) == Bool(true)
    && (forall k | k != flag :: Get(after.metadata, k) == Get(before.metadata, k))
    && after.(status := before.status, result := before.result, metadata := before.metadata) == before
  }

  ghost predicate ClosedAsUnavailable(before: Record, after: Record) {
    ClosedWith(before, after,
               Some("Task could not be resumed after restart because the target agent runtime is unavailable."),
               "resume_failed")
  }

  ghost predicate ClosedAsOrphan(before: Record, after: Record) {
    ClosedWith(before, after,
               if before.result.None? || before.result.value == ""
               then Some("Task failed because the worker process restarted before completion.") else before.result,
               "orphaned_by_restart")
  }

  ghost predicate MeetsFate(f: Fate, before: Record, after: Cell) {
    match f
    case Resumed => after.task.Some? && after.spawns == 1 && after.record.Some?
    case Unavailable => after.task.None? && after.record.Some? && ClosedAsUnavailable(before, after.record.value)
    case Orphaned => after.task.None? && after.record.Some? && ClosedAsOrphan(before, after.record.value)
    case LeftPending => after.task.None? && after.record == Some(before)
  }

  lemma ReconcileLeaves(s: State, t: TaskId)
    requires Inv(s) && Enabled(s, Reconcile)
    ensures NoResumerWrite(CellOf(s, t)) && CellInv(CellOf(Effect(s, Reconcile), t))
    ensures CellOf(Effect(s, Reconcile), t) == ReconcileCell(CellOf(s, t), t in s.mode.resumed)
  {
    ReconcileKeepsInv(s);
    CellOfReconcile(s, t);
  }

  lemma LastStep(r: Run, b: nat, i: nat, t: TaskId)
    requires Startup(r, b, i)
    ensures r.states[i].mode.Resuming? && r.states[i].mode.queue == []
    ensures NoResumerWrite(CellOf(r.states[i], t))
    ensures CellOf(r.states[i + 1], t) == ReconcileCell(CellOf(r.states[i], t), t in r.states[i].mode.resumed)
    ensures CellInv(CellOf(r.states[i + 1], t))
  {
    assert IsStep(r, i);
    RunInv(r, i);
    ReconcileLeaves(r.states[i], t);
  }

  lemma ClosingHasWrite(before: Cell, now: Cell)
    requires AtStage(Closing, before, now)
    ensures !NoResumerWrite(now)
  {
    assert now.writes[|before.writes|].author == Resumer;
  }

  /** When the loop is over, each fate is one of the stages. */
  lemma FateStage(r: Run, b: nat, i: nat, t: TaskId)
    requires Startup(r, b, i) && ActiveIn(r.states[b], t)
    requires OnTrack(r, b, i, t) && Explained(r, b, i, t) && StageAt(r, b, i, t) != Closing
    requires t in Listed(r, b) <==> Reached(r, b, i, t)
    ensures var f, g := FateOf(r, b, i, t), StageAt(r, b, i, t);
            && (g == Spawned <==> f == Resumed) && (g == Closed <==> f == Unavailable)
            && (f == Orphaned ==> CellOf(r.states[b], t).record.value.status == Running)
            && (f == LeftPending ==> CellOf(r.states[b], t).record.value.status == Pending)
  {
  }

  lemma ReconcileAtStage(g: Stage, f: Fate, before: Cell, now: Cell)
    requires Dormant(before) && AtStage(g, before, now) && g != Closing
    requires (g == Spawned <==> f == Resumed) && (g == Closed <==> f == Unavailable)
    requires f == Orphaned ==> before.record.value.status == Running
    requires f == LeftPending ==> before.record.value.status == Pending
    requires ReconcileCell(now, g == Spawned).task.Some? ==> ReconcileCell(now, g == Spawned).spawns == 1
    ensures MeetsFate(f, before.record.value, ReconcileCell(now, g == Spawned))
  {
  }

  /** After start-up every record that was active at its beginning has exactly one
      task again, or is closed as unavailable, or is closed as an orphan, or is still
      pending; and which of these it is depends on the load, the row, the target and
      the fate of one write. */
  lemma StartupFate(r: Run, b: nat, i: nat, t: TaskId)
    requires Startup(r, b, i) && ActiveIn(r.states[b], t)
    ensures MeetsFate(FateOf(r, b, i, t), CellOf(r.states[b], t).record.value, CellOf(r.states[i + 1], t))
  {
    LastStep(r, b, i, t);
    ActiveIsDormant(r, b, i, t);
    StaysOnTrack(r, b, i, i, t);
    IsExplained(r, b, i, i, t);
    EveryListedIsReached(r, b, i, t);
    if StageAt(r, b, i, t) == Closing {
      ClosingHasWrite(CellOf(r.states[b], t), CellOf(r.states[i], t));
    }
    FateStage(r, b, i, t);
    ReconcileAtStage(StageAt(r, b, i, t), FateOf(r, b, i, t), CellOf(r.states[b], t), CellOf(r.states[i], t));
  }

  lemma ActiveHasTask(r: Run, i: nat, t: TaskId)
    requires OrderedRun(r) && i < |r.labels| && r.labels[i] == Reconcile
    ensures IsStep(r, i) && r.states[i].mode.Resuming?
    ensures var after := CellOf(r.states[i + 1], t);
            && (after.record.Some? && after.record.value.status == Running ==>
                  t in r.states[i].mode.resumed && after.task.Some?)
            && (after.record.Some? && Active(after.record.value.status) && after.task.Some? ==> OneTask(after))
  {
    assert IsStep(r, i);
    RunInv(r, i);
    ReconcileLeaves(r.states[i], t);
    RunningIsResumed(CellOf(r.states[i], t), CellOf(r.states[i + 1], t), t in r.states[i].mode.resumed);
  }

  /** One task of this worker life, live and registered unless its result was lost on the
      way to the store. */
  predicate OneTask(c: Cell) {
    c.task.Some? && c.spawns == 1 && (Child !in c.lost ==> Live(c) && c.entry.Some?)
  }

  lemma RunningIsResumed(c: Cell, c': Cell, resumed: bool)
    requires c' == ReconcileCell(c, resumed) && CellInv(c') && NoResumerWrite(c) && (resumed ==> c.task.Some?)
    ensures c'.record.Some? && c'.record.value.status == Running ==> resumed && c'.task.Some?
    ensures c'.record.Some? && Active(c'.record.value.status) && c'.task.Some? ==> OneTask(c')
  {
  }

  lemma IdleStaysPending(r: Run, i: nat, t: TaskId)
    requires OrderedRun(r) && i < |r.labels| && r.labels[i] == Reconcile
    ensures var before, after := CellOf(r.states[i], t), CellOf(r.states[i + 1], t);
            after.record.Some? && Active(after.record.value.status) && after.task.None?
            <==> before.record.Some? && before.record.value.status == Pending && before.task.None?
  {
    assert IsStep(r, i);
    RunInv(r, i);
    ReconcileLeaves(r.states[i], t);
  }

  /** After resume and reconcile an active record with a task has exactly one, spawned once
      in this life and live unless its result was lost on the way to the store; a running
      record was resumed and has its task; an active record without a task is a pending one
      that was pending before. */
  lemma AfterStartup(r: Run, i: nat, t: TaskId)
    requires OrderedRun(r) && i < |r.labels| && r.labels[i] == Reconcile
    ensures IsStep(r, i)
    ensures var resumed := r.states[i].mode.resumed;
            var before, after := CellOf(r.states[i], t), CellOf(r.states[i + 1], t);
            && (after.record.Some? && after.record.value.status == Running ==> t in resumed && after.task.Some?)
            && (after.record.Some? && Active(after.record.value.status) && after.task.Some? ==> OneTask(after))
            && (after.record.Some? && Active(after.record.value.status) && after.task.None?
                <==> before.record.Some? && before.record.value.status == Pending && before.task.None?)
  {
    ActiveHasTask(r, i, t);
    IdleStaysPending(r, i, t);
  }

  // ---- launches while the loop is at work ----

  lemma CreatedStep(s: State, l: Label)
    requires Enabled(s, l)
    ensures s.created <= Effect(s, l).created
  {
  }

  lemma {:induction false} CreatedGrows(r: Run, j: nat, k: nat)
    requires IsRun(r) && j <= k < |r.states|
    ensures r.states[j].created <= r.states[k].created
    decreases k
  {
    if j < k {
      CreatedGrows(r, j, k - 1);
      assert IsStep(r, k - 1);
      CreatedStep(r.states[k - 1], r.labels[k - 1]);
    }
  }

  /** A task of this worker life, or one about to be. */
  predicate Started(c: Cell) {
    c.task.Some? || !c.launch.NoLaunch?
  }

  lemma StartedStep(s: State, l: Label, t: TaskId)
    requires Inv(s) && Enabled(s, l) && s.mode.Resuming? && Effect(s, l).mode.Resuming?
    requires Started(CellOf(Effect(s, l), t)) && !Started(CellOf(s, t)) && !(l.Begin? && l.t == t)
    ensures t in Effect(s, l).mode.resumed
  {
    StepOfCell(s, l, t);
    StartedCell(CellOf(s, t), CellOf(Effect(s, l), t), l, t);
    SpawnedIsResumed(s, l, t);
  }

  /** Only the resume loop and a launch start a task. */
  lemma StartedCell(c: Cell, c': Cell, l: Label, t: TaskId)
    requires CellInv(c) && CellStep(c, c', l, t) && Started(c') && !Started(c) && !(l.Begin? && l.t == t)
    ensures l.ResumeNext? && c'.spawns > c.spawns
  {
  }

  lemma SpawnedIsResumed(s: State, l: Label, t: TaskId)
    requires Enabled(s, l) && l.ResumeNext? && CellOf(Effect(s, l), t).spawns > CellOf(s, t).spawns
    ensures Effect(s, l).mode.Resuming? && t in Effect(s, l).mode.resumed
  {
  }

  lemma ResumedGrow(s: State, l: Label)
    requires Enabled(s, l) && s.mode.Resuming? && Effect(s, l).mode.Resuming?
    ensures s.mode.resumed <= Effect(s, l).mode.resumed
  {
  }

  lemma LoopStarts(r: Run, b: nat, i: nat, j: nat, t: TaskId)
    requires Startup(r, b, i) && b < j < i && Started(CellOf(r.states[j + 1], t))
    ensures r.states[j].mode.Resuming? && r.states[j + 1].mode.Resuming?
    ensures r.states[j].mode.resumed <= r.states[j + 1].mode.resumed
    ensures Started(CellOf(r.states[j], t)) || (r.labels[j].Begin? && r.labels[j].t == t) || t in r.states[j + 1].mode.resumed
  {
    LoopStep(r, b, i, j);
    ResumedGrow(r.states[j], r.labels[j]);
    if !Started(CellOf(r.states[j], t)) && !(r.labels[j].Begin? && r.labels[j].t == t) {
      StartedStep(r.states[j], r.labels[j], t);
    }
  }

  lemma NothingStarted(r: Run, b: nat, i: nat, t: TaskId)
    requires Startup(r, b, i)
    ensures !Started(CellOf(r.states[b + 1], t))
  {
    LoopBegins(r, b, i);
    assert CellOf(r.states[b + 1], t) == CellOf(r.states[b], t);
  }

  /** In the loop every task was resumed or launched since the load. */
  lemma {:induction false} ResumedOrLaunched(r: Run, b: nat, i: nat, j: nat, t: TaskId)
    requires Startup(r, b, i) && b < j <= i && Started(CellOf(r.states[j], t))
    ensures r.states[j].mode.Resuming? && (t in r.states[j].mode.resumed || LaunchedIn(r, b, j, t))
    decreases j
  {
    if j > b + 1 {
      LoopStarts(r, b, i, j - 1, t);
      ExistsStep(r, b, j - 1, t);
      if Started(CellOf(r.states[j - 1], t)) {
        ResumedOrLaunched(r, b, i, j - 1, t);
      }
    } else {
      NothingStarted(r, b, i, t);
    }
  }

  /** What was resumed was not launched in the same life. */
  lemma ResumedNotLaunched(r: Run, b: nat, i: nat, t: TaskId)
    requires Startup(r, b, i) && r.states[i].mode.Resuming? && t in r.states[i].mode.resumed
    ensures !LaunchedIn(r, b, i, t)
  {
    OnlyListed(r, b, i, i, t);
    ListedIsActive(r, b, t);
    forall k | b < k < i
      ensures !(r.labels[k].Begin? && r.labels[k].t == t)
    {
      CreatedGrows(r, b, k);
      assert IsStep(r, k);
    }
  }

  /** A launch in the loop is the work of a task that was there. */
  lemma LauncherOf(r: Run, b: nat, i: nat, k: nat) returns (u: TaskId)
    requires Startup(r, b, i) && b < k < i && r.labels[k].Begin?
    ensures Started(CellOf(r.states[k], u))
    ensures r.states[k].mode.Resuming? && r.states[k + 1].mode.Resuming?
    ensures r.states[k].mode.resumed == r.states[k + 1].mode.resumed
  {
    LoopStep(r, b, i, k);
    var s := r.states[k];
    u :| u in s.cells && s.cells[u].task.Some? && s.cells[u].task.value.phase.Working?;
  }

  /** Nothing is launched before something has been resumed: until start-up is over
      only a child at work can launch. */
  lemma {:induction false} LaunchNeedsResumed(r: Run, b: nat, i: nat, j: nat, k: nat)
    requires Startup(r, b, i) && b < k < j <= i && r.labels[k].Begin?
    ensures r.states[j].mode.Resuming? && r.states[j].mode.resumed != {}
    decreases j
  {
    if k < j - 1 {
      LaunchNeedsResumed(r, b, i, j - 1, k);
      LoopStep(r, b, i, j - 1);
      ResumedGrow(r.states[j - 1], r.labels[j - 1]);
    } else {
      var u := LauncherOf(r, b, i, k);
      ResumedOrLaunched(r, b, i, k, u);
      if u !in r.states[k].mode.resumed {
        var m :| b < m < k && r.labels[m].Begin? && r.labels[m].t == u;
        LaunchNeedsResumed(r, b, i, k, m);
      }
    }
  }

  lemma ReconcileChanges(s: State, t: TaskId)
    requires Inv(s) && Enabled(s, Reconcile) && CellOf(s, t).record.Some?
    ensures CellOf(Effect(s, Reconcile), t).record != CellOf(s, t).record <==>
            t !in s.mode.resumed && CellOf(s, t).record.value.status == Running
  {
    CellOfReconcile(s, t);
  }

  /** Reconcile closes the record of a live task exactly when that task was launched
      while the resume loop was still at work and its record says running. */
  lemma ReconcileClosesLive(r: Run, b: nat, i: nat, t: TaskId)
    requires Startup(r, b, i) && Live(CellOf(r.states[i], t)) && CellOf(r.states[i], t).record.Some?
    ensures CellOf(r.states[i + 1], t).record != CellOf(r.states[i], t).record <==>
            LaunchedIn(r, b, i, t) && CellOf(r.states[i], t).record.value.status == Running
  {
    InLoop(r, b, i, i);
    assert IsStep(r, i);
    RunInv(r, i);
    ReconcileChanges(r.states[i], t);
    ResumedOrLaunched(r, b, i, i, t);
    if t in r.states[i].mode.resumed {
      ResumedNotLaunched(r, b, i, t);
    }
  }

  // ---- the limit of the load ----

  /** A record is loaded exactly when it is active and fewer than 50 of the
      records created before it are. */
  lemma InSnapshotIff(s: State, n: nat)
    requires Distinct(s.created) && n < |s.created|
    ensures s.created[n] in Snapshot(s) <==>
            ActiveIn(s, s.created[n]) && |Filter(IsActive(s), s.created[..n])| < 50
  {
    var t, active := s.created[n], Filter(IsActive(s), s.created);
    FilterDistinct(IsActive(s), s.created);
    assert forall x :: x in Snapshot(s) ==> x in active;
    if ActiveIn(s, t) {
      FilterPlace(IsActive(s), s.created, n);
      var k := |Filter(IsActive(s), s.created[..n])|;
      if t in Snapshot(s) {
        var m :| 0 <= m < |Snapshot(s)| && Snapshot(s)[m] == t;
        assert m < RESUME_LIMIT && active[m] == active[k];
        assert m == k;
      }
      if k < RESUME_LIMIT {
        assert Snapshot(s)[k] == t;
      }
    }
  }
}
