/** What callers are told about a delegation, in terms of who launched it, how the child
    ended and what start-up did: nothing here refers to the code's own tests. */
module DelegationAnswers {
  import opened Common
  import opened RuntimeTasks
  import opened DelegationProtocol
  import opened DelegationInvariant
  import opened DelegationRuns
  import opened DelegationTheorems
  import opened DelegationRestart
  import opened Orchestrator

  // ---- who is refused ----

  /** Both name an agent, and not the same one. */
  predicate Stranger(launcher: Option<string>, caller: Option<string>) {
    launcher.Some? && caller.Some? && IsUuid(launcher.value) && IsUuid(caller.value) && launcher.value != caller.value
  }

  lemma RegisteredRefuses(c: Cell, caller: Option<string>)
    requires CellInv(c) && c.entry.Some?
    ensures c.task.Some? && c.origin.Some? && c.entry.value.trace == c.origin.value.trace
    ensures CheckAnswer(c, caller) == Forbidden <==> Stranger(c.origin.value.parentAgent, caller)
    ensures CancelAnswer(c, caller) == CancelForbidden <==> Stranger(c.origin.value.parentAgent, caller)
    ensures ListsFor(c, caller) <==>
            caller.None? || !IsUuid(caller.value) || c.origin.value.parentAgent == caller
  {
  }

  lemma RecordedRefuses(c: Cell, caller: Option<string>)
    requires CellInv(c) && c.entry.None? && c.record.Some?
    ensures c.origin.Some?
    ensures CheckAnswer(c, caller) != Forbidden
    ensures CancelAnswer(c, caller) == CancelForbidden <==> Stranger(c.origin.value.parentAgent, caller)
  {
  }

  /** Who may see or cancel a delegation is settled by who launched it, in its first
      worker life and after any number of restarts: a registered one is refused to
      strangers and to nobody else, and so is the cancel of one that only has its record;
      a check of the record refuses nobody. */
  lemma StrangersAreRefused(r: Run, i: nat, t: TaskId, caller: Option<string>)
    requires OrderedRun(r) && i < |r.states|
    ensures var c := CellOf(r.states[i], t);
            && (c.entry.Some? || c.record.Some? ==>
                  && c.origin.Some?
                  && (CancelAnswer(c, caller) == CancelForbidden <==> Stranger(c.origin.value.parentAgent, caller)))
            && (CheckAnswer(c, caller) == Forbidden <==>
                  c.entry.Some? && c.origin.Some? && Stranger(c.origin.value.parentAgent, caller))
            && (ListsFor(c, caller) <==>
                  && c.entry.Some? && c.origin.Some?
                  && (caller.None? || !IsUuid(caller.value) || c.origin.value.parentAgent == caller))
            && (c.entry.Some? ==> c.origin.Some? && c.entry.value.trace == c.origin.value.trace)
  {
    RunInv(r, i);
    var c := CellOf(r.states[i], t);
    assert CellInv(c);
    if c.entry.Some? {
      RegisteredRefuses(c, caller);
    } else if c.record.Some? {
      RecordedRefuses(c, caller);
    }
  }

  // ---- what a check and a cancel say ----

  /** What a record says of itself. */
  predicate Tells(answer: Answer, rec: Record) {
    answer == Report(rec.status, rec.result, Truthy(Get(rec.metadata, "timed_out")))
  }

  /** How the outcome of a finished child is told. */
  predicate TellsOutcome(answer: Answer, o: Outcome) {
    answer.Report? && match o
    case Finished(failed, content, timedOut, _, _, _) =>
      && answer.status == (if failed then Failed else Completed)
      && answer.result == Some(content) && answer.timedOut == timedOut
    case Cancelled =>
      answer.status == Killed && answer.result == Some("Task cancelled by parent agent") && !answer.timedOut
  }

  /** A check says one of five things, each in its own case. */
  lemma CheckTells(r: Run, i: nat, t: TaskId, caller: Option<string>)
    requires OrderedRun(r) && i < |r.states|
    ensures var c := CellOf(r.states[i], t);
            var answer := CheckAnswer(c, caller);
            if c.entry.Some? then
              && c.task.Some? && c.origin.Some?
              && (if Stranger(c.origin.value.parentAgent, caller) then answer == Forbidden
                  else if c.task.value.phase.Done? then TellsOutcome(answer, c.task.value.phase.outcome)
                  else answer == StillRunning)
            else if c.record.Some? then Tells(answer, c.record.value)
            else answer == NotFound
  {
    RunInv(r, i);
    StrangersAreRefused(r, i, t, caller);
    assert CellInv(CellOf(r.states[i], t));
  }

  /** A cancel call awaits a live task, and otherwise only says what is known. */
  lemma CancelTells(r: Run, i: nat, t: TaskId, caller: Option<string>)
    requires OrderedRun(r) && i < |r.states|
    ensures var c := CellOf(r.states[i], t);
            var reply := CancelAnswer(c, caller);
            if c.entry.None? && c.record.None? then reply == CancelNotFound
            else
              && c.origin.Some?
              && (if Stranger(c.origin.value.parentAgent, caller) then reply == CancelForbidden
                  else if c.entry.None? then
                    if c.record.value.status == Pending || c.record.value.status == Running then reply == NotRunningHere
                    else reply == AlreadyEnded(c.record.value.status, c.record.value.result)
                  else
                    && c.task.Some?
                    && (if c.task.value.phase.Done? then reply == Checked(CheckAnswer(c, caller)) else reply == Awaited))
  {
    RunInv(r, i);
    StrangersAreRefused(r, i, t, caller);
    assert CellInv(CellOf(r.states[i], t));
  }

  // ---- what the writes leave in the record ----

  /** The launch leaves a pending row without a result. */
  lemma LaunchIsTold(req: Request)
    ensures Tells(Report(Pending, None, false), NewRecord(req))
    ensures Get(NewRecord(req).metadata, "message_count") == Int(|req.messages|)
  {
  }

  /** The spawn's write leaves a running row; only a resumed one is marked so. */
  lemma SpawnIsTold(rec: Record, req: Request, resumed: bool)
    ensures var row := Apply(rec, RunningUpdate(req, resumed));
            && row.status == Running && row.result == rec.result
            && row.trace == req.trace && row.childSession == req.session
            && (Get(row.metadata, "resumed_after_restart") == Bool(true)
                <==> resumed || Get(rec.metadata, "resumed_after_restart") == Bool(true))
            && (forall k | k != "resumed_after_restart" :: Get(row.metadata, k) == Get(rec.metadata, k))
  {
  }

  /** The child's turn is told alike by the registry and by the row: completed with the
      reply if there was one within the depth limit, failed otherwise, and timed out or
      depth-limited exactly when it was. */
  lemma TurnIsTold(req: Request, inv: Invocation, freshSession: string, freshTrace: string, rec: Record)
    ensures var o := Delegate(req, inv, freshSession, freshTrace);
            var row := Apply(rec, SettleUpdate(o, req));
            var answer := OutcomeAnswer(o);
            && TellsOutcome(answer, o) && Tells(answer, row)
            && (answer.status == Completed <==> inv.Reply? && req.depth <= req.maxDepth)
            && (answer.status == Failed <==> !inv.Reply? || req.depth > req.maxDepth)
            && (answer.status == Completed ==> answer.result == Some(inv.content))
            && (answer.timedOut <==> inv.TimedOut? && req.depth <= req.maxDepth)
            && (Get(row.metadata, "depth_limited") == Bool(req.depth > req.maxDepth))
            && row.trace == (if req.trace != "" then req.trace else freshTrace)
            && row.childSession == (if req.session != "" then req.session else freshSession)
  {
  }

  /** A cancelled child, and the caller that cancelled it, leave a killed row. */
  lemma KillIsTold(rec: Record, req: Request)
    ensures forall u | u == SettleUpdate(Cancelled, req) || u == CancelUpdate(req.trace) ::
              var row := Apply(rec, u);
              && row.status == Killed && row.result == Some("Task cancelled by parent agent") && row.trace == req.trace
              && Get(row.metadata, "timed_out") == Get(row.metadata, "depth_limited") == Bool(false)
              && Get(row.metadata, "cancelled") == Bool(true)
  {
  }

  // ---- what each step changes ----

  /** A child can settle with exactly the outcomes that some turn ends with; the text of a
      failure is free. */
  lemma SettlesAsTurns(req: Request, o: Outcome)
    ensures ValidOutcome(req, o) <==>
            exists inv, freshSession, freshTrace ::
              var d := Delegate(req, inv, freshSession, freshTrace);
              o.Finished? && o == d.(content := o.content) && (!d.failed ==> o.content == d.content)
  {
    if ValidOutcome(req, o) {
      var inv := if o.timedOut then TimedOut else if o.failed then Raised(o.content) else Reply(o.content);
      var d := Delegate(req, inv, o.session, o.trace);
      assert o == d.(content := o.content);
    }
  }

  /** A launch goes on whether or not its row was inserted; the spawn starts this life's one
      task, registers it for the launcher and issues its write. */
  lemma LaunchSteps(c: Cell, a: Act)
    requires ActEnabled(true, c, a)
    ensures a.LandCreate? ==> ActEffect(c, a) == c.(launch := Created(c.launch.req), record := Some(NewRecord(c.launch.req)))
    ensures a.LoseCreate? ==> ActEffect(c, a) == c.(launch := Created(c.launch.req))
    ensures a.Spawn? ==>
              var c', req := ActEffect(c, a), c.launch.req;
              && c'.task == Some(Task(req, Working, false)) && c'.launch == NoLaunch && c'.spawns == c.spawns + 1
              && c'.entry.Some? && c'.entry.value.trace == req.trace
              && c'.writes == c.writes + [Write(Launcher, RunningUpdate(req, false))]
              && !c'.cancelSeen && (forall w :: w in c'.lost <==> w in c.lost && w.Canceller?)
              && c'.record == c.record && c'.origin == c.origin && c'.cancels == c.cancels && c'.acked == c.acked
  {
  }

  /** The store applies one write to the record, or loses it; the child settles, and is done
      once its write is through; nothing else changes. */
  lemma ChildSteps(c: Cell, a: Act)
    requires ActEnabled(true, c, a)
    ensures a.Land? ==>
              ActEffect(c, a) == c.(writes := c.writes[1..],
                                    record := if c.record.Some? then Some(Apply(c.record.value, c.writes[0].update)) else None)
    ensures a.Lose? ==>
              ActEffect(c, a) == c.(writes := c.writes[..a.at] + c.writes[a.at + 1..], lost := c.lost + {c.writes[a.at].author})
    ensures a.Settle? ==>
              ActEffect(c, a) == c.(task := Some(Task(c.task.value.req, Settling(a.outcome), false)),
                                    writes := c.writes + [Write(Child, SettleUpdate(a.outcome, c.task.value.req))])
    ensures a.Finish? ==>
              ActEffect(c, a) == c.(task := Some(Task(c.task.value.req, Done(c.task.value.phase.pending), false)))
  {
    if a.Land? {
      assert c.writes[..0] + c.writes[1..] == c.writes[1..];
    }
  }

  /** A requested cancel waits for the task, then pops the entry and issues its write, and
      returns once that is through. */
  lemma CancelSteps(c: Cell, a: Act)
    requires ActEnabled(true, c, a)
    ensures a.RequestCancel? ==>
              ActEffect(c, a) == c.(task := Some(Task(c.task.value.req, c.task.value.phase, true)),
                                    cancels := c.cancels[a.canceller := Waiting], cancelSeen := true)
    ensures a.MissCancel? ==> ActEffect(c, a) == c.(task := Some(Task(c.task.value.req, Working, false)))
    ensures a.ProceedCancel? ==>
              ActEffect(c, a) == c.(entry := None, cancels := c.cancels[a.canceller := Writing],
                                    writes := c.writes + [Write(Canceller(a.canceller), CancelUpdate(c.task.value.req.trace))])
    ensures a.ReturnCancel? ==>
              ActEffect(c, a) == c.(cancels := c.cancels - {a.canceller}, acked := c.acked + {a.canceller})
  {
  }

  /** A delivered cancellation is spent. It takes the place of the child's result and of its
      write, or, when the child was already writing "killed", ends it on the spot. */
  lemma DeliverSteps(c: Cell)
    requires ActEnabled(true, c, DeliverCancel)
    ensures var c' := ActEffect(c, DeliverCancel);
            && c'.task.Some? && c'.task.value.req == c.task.value.req && !c'.task.value.cancelPending
            && c'.(task := c.task, writes := c.writes, lost := c.lost) == c
            && (forall w | w in c'.writes && w.author == Child && !c.task.value.phase.Working? ::
                  w == Write(Child, SettleUpdate(Cancelled, c.task.value.req)))
            && (if c.task.value.phase == Settling(Cancelled) then
                  && c'.task.value.phase == Done(Cancelled)
                  && (forall w :: w in c'.writes <==> w in c.writes && w.author != Child)
                  && c'.lost == c.lost + if HasWriteBy(c, Child) then {Child} else {}
                else
                  && c'.task.value.phase == Settling(Cancelled) && c'.lost == c.lost
                  && c'.writes != [] && c'.writes[|c'.writes| - 1] == Write(Child, SettleUpdate(Cancelled, c.task.value.req))
                  && (forall w: Write | w.author != Child :: w in c'.writes <==> w in c.writes))
  {
  }

  /** A check takes a finished child's entry out of the registry when it tells the outcome,
      and changes nothing otherwise. */
  lemma CheckPops(r: Run, i: nat, t: TaskId, caller: Option<string>)
    requires OrderedRun(r) && i < |r.states|
    ensures var c, s' := CellOf(r.states[i], t), Effect(r.states[i], Check(t, caller));
            && (forall u | u != t :: CellOf(s', u) == CellOf(r.states[i], u))
            && (if c.entry.Some? && c.task.Some? && c.task.value.phase.Done?
                   && c.origin.Some? && !Stranger(c.origin.value.parentAgent, caller)
                then CellOf(s', t) == c.(entry := None) else CellOf(s', t) == c)
  {
    RunInv(r, i);
    StrangersAreRefused(r, i, t, caller);
    assert CellInv(CellOf(r.states[i], t));
  }

  /** Start-up loads, loops and reconciles; a failed load leaves the loop nothing to do, and
      an exception in the loop goes straight to serving. */
  lemma StartupSteps(s: State, l: Label)
    requires Enabled(s, l)
    ensures l.BeginResume? || l.LoadFails? ==>
              Effect(s, l) == s.(mode := Resuming(if l.BeginResume? then Snapshot(s) else [], None, {}))
    ensures l.StartupFails? ==> Effect(s, l) == s.(mode := Serving)
    ensures l.Reconcile? ==> Effect(s, l).mode == Serving && Effect(s, l).created == s.created
    ensures l.Crash? ==> Effect(s, l).mode == Booting && Effect(s, l).created == s.created
    ensures l.ResumeContinue? ==> s.mode.Resuming? && Effect(s, l) == s.(mode := Resuming(s.mode.queue, None, s.mode.resumed))
  {
  }

  /** A crash leaves the record and the history, and nothing of the worker. */
  lemma CrashDrops(c: Cell)
    ensures AfterCrash(c) == Cell(c.record, [], NoLaunch, None, None, map[], c.origin, c.lost, c.acked, false, 0)
  {
  }

  /** A resumed child runs the launched request with the row's own session and trace, or
      fresh ones where the row has none, and the defaults of a restart. */
  lemma ResumeSpawns(c: Cell, freshSession: string, freshTrace: string)
    requires CellInv(c) && Dormant(c) && Rebuilds(c.record.value)
    ensures var c', rec, req := ResumeCell(c, true, freshSession, freshTrace), c.record.value, c.origin.value;
            && c'.task.Some? && c'.task.value.phase == Working && !c'.task.value.cancelPending
            && c'.task.value.req == Request(
                 req.target, req.messages, req.owner, if rec.childSession != "" then rec.childSession else freshSession,
                 false, req.suffix, req.maxRounds, rec.parentAgent, rec.parentSession,
                 if rec.trace != "" then rec.trace else freshTrace, if req.depth != 0 then req.depth else 1, 2,
                 if req.timeout != 0.0 then req.timeout else 120.0)
            && c'.writes == [Write(Resumer, RunningUpdate(c'.task.value.req, true))]
  {
    RebuildsRequest(c.record.value, c.origin.value);
    RebuiltRequest(c.record.value, c.origin.value, freshSession, freshTrace);
  }

  // ---- what is told after a restart ----

  /** A record that start-up closes as an orphan is reported failed, with the result it
      had or, without one, the reason. */
  lemma OrphanIsTold(r: Run, b: nat, i: nat, t: TaskId, caller: Option<string>)
    requires Startup(r, b, i) && ActiveIn(r.states[b], t) && FateOf(r, b, i, t) == Orphaned
    ensures var before := CellOf(r.states[b], t).record.value;
            CheckAnswer(CellOf(r.states[i + 1], t), caller) ==
            Report(Failed,
                   if before.result.Some? && before.result.value != "" then before.result
                   else Some("Task failed because the worker process restarted before completion."),
                   Truthy(Get(before.metadata, "timed_out")))
  {
    StartupFate(r, b, i, t);
    assert Get(CellOf(r.states[i + 1], t).record.value.metadata, "timed_out")
        == Get(CellOf(r.states[b], t).record.value.metadata, "timed_out");
  }

  /** One whose target is gone is reported failed with that reason. */
  lemma UnavailableIsTold(r: Run, b: nat, i: nat, t: TaskId, caller: Option<string>)
    requires Startup(r, b, i) && ActiveIn(r.states[b], t) && FateOf(r, b, i, t) == Unavailable
    ensures CheckAnswer(CellOf(r.states[i + 1], t), caller) ==
            Report(Failed,
                   Some("Task could not be resumed after restart because the target agent runtime is unavailable."),
                   Truthy(Get(CellOf(r.states[b], t).record.value.metadata, "timed_out")))
  {
    StartupFate(r, b, i, t);
    assert Get(CellOf(r.states[i + 1], t).record.value.metadata, "timed_out")
        == Get(CellOf(r.states[b], t).record.value.metadata, "timed_out");
  }

  /** In every run a record can be rebuilt exactly when its launch had no tool executor,
      messages that JSON can hold, and a target. */
  lemma RebuildsLaunch(r: Run, i: nat, t: TaskId)
    requires OrderedRun(r) && i < |r.states| && CellOf(r.states[i], t).record.Some?
    ensures CellOf(r.states[i], t).origin.Some?
    ensures var req := CellOf(r.states[i], t).origin.value;
            Rebuilds(CellOf(r.states[i], t).record.value) <==>
            !req.hasToolExecutor && (forall k | 0 <= k < |req.messages| :: JsonSafe(req.messages[k])) && req.target.Some?
  {
    RunInv(r, i);
    assert CellInv(CellOf(r.states[i], t));
    RebuildsRequest(CellOf(r.states[i], t).record.value, CellOf(r.states[i], t).origin.value);
  }
}
