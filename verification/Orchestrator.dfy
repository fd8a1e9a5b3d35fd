/** The parts of the orchestrator that run without an `await` in between, in the
    source's own imperative form, each tied to the step of the protocol it is. */
module Orchestrator {
  import opened Common
  import opened RuntimeTasks
  import opened DelegationProtocol

  datatype ListedStatus = ListedKilled | ListedCompleted | ListedRunning

  datatype Listed = Listed(id: TaskId, status: ListedStatus, trace: string)

  /** The status word of `list_async_delegations`: a failed child is "completed". */
  function ListStatus(c: Cell): ListedStatus {
    if !IsDone(c) then ListedRunning
    else if c.task.value.phase.outcome == Cancelled then ListedKilled
    else ListedCompleted
  }

  predicate ListsFor(c: Cell, caller: Option<string>) {
    c.entry.Some? && (MaybeUuidOf(caller).Some? ==> c.entry.value.parentAgent == MaybeUuidOf(caller))
  }

  /** The line of the cell `c`. */
  predicate IsLineOf(line: Listed, c: Cell) {
    && c.entry.Some? && line.trace == c.entry.value.trace
    && (line.status == ListedKilled <==> c.task.Some? && c.task.value.phase == Done(Cancelled))
    && (line.status == ListedCompleted <==> c.task.Some? && c.task.value.phase.Done? && c.task.value.phase.outcome.Finished?)
  }

  predicate HasLine(lines: seq<Listed>, t: TaskId) {
    exists i | 0 <= i < |lines| :: lines[i].id == t
  }

  predicate OneLineEach(lines: seq<Listed>) {
    forall i, j | 0 <= i < j < |lines| :: lines[i].id != lines[j].id
  }

  lemma OneMoreLine(lines: seq<Listed>, line: Listed)
    requires OneLineEach(lines) && !HasLine(lines, line.id)
    ensures OneLineEach(lines + [line])
    ensures forall t :: HasLine(lines + [line], t) <==> HasLine(lines, t) || t == line.id
  {
    var more := lines + [line];
    assert more[|lines|] == line && forall i | 0 <= i < |lines| :: more[i] == lines[i];
    forall t | HasLine(lines, t)
      ensures HasLine(more, t)
    {
      var i :| 0 <= i < |lines| && lines[i].id == t;
      assert more[i].id == t;
    }
  }

  function StaleIds(cells: Cells): set<TaskId> {
    set t | t in cells && cells[t].entry.Some? && IsDone(cells[t])
  }

  function RunningIds(cells: Cells, excluded: set<TaskId>): set<TaskId> {
    set t | t in cells && cells[t].record.Some? && cells[t].record.value.status == Running && t !in excluded
  }

  /** Popping what is left to pop gives the same result after each pop. */
  lemma PopOne(cells: Cells, t: TaskId)
    requires t in StaleIds(cells)
    ensures var popped := cells[t := cells[t].(entry := None)];
            Evicted(popped) == Evicted(cells) && StaleIds(popped) == StaleIds(cells) - {t}
  {
  }

  /** Closing one running row leaves the rest of the work as it was. */
  lemma CloseOne(cells: Cells, t: TaskId, excluded: set<TaskId>)
    requires t in RunningIds(cells, excluded)
    ensures var closed := cells[t := ReconcileCell(cells[t], false)];
            && Reconciled(closed, excluded) == Reconciled(cells, excluded)
            && RunningIds(closed, excluded) == RunningIds(cells, excluded) - {t}
  {
  }

  /** What a cancel call says before it waits for anything; `Awaited` means that it
      has cancelled the task and waits for it. */
  datatype CancelReply =
    | CancelNotFound
    | CancelForbidden
    | AlreadyEnded(status: Status, result: Option<string>)
    | NotRunningHere
    | Checked(answer: Answer)
    | Awaited

  /** The ownership test on a record, for a task that is not in the registry. */
  predicate RecordRefused(rec: Record, caller: Option<string>) {
    MaybeUuidOf(caller).Some? && rec.parentAgent.Some? && MaybeUuidOf(caller) != rec.parentAgent
  }

  function CancelAnswer(c: Cell, caller: Option<string>): CancelReply {
    if c.entry.None? || c.task.None? then
      if c.record.None? then CancelNotFound
      else if RecordRefused(c.record.value, caller) then CancelForbidden
      else if Terminal(c.record.value.status) then AlreadyEnded(c.record.value.status, c.record.value.result)
      else NotRunningHere
    else if Refused(c.entry.value, caller) then CancelForbidden
    else if IsDone(c) then Checked(CheckAnswer(c, caller))
    else Awaited
  }

  /** The step of the protocol a cancel call starts with, if it changes anything. */
  function AfterCancel(s: State, t: TaskId, k: nat, caller: Option<string>): State
    requires CancelAnswer(CellOf(s, t), caller).Awaited? ==> Enabled(s, On(t, RequestCancel(k, caller)))
  {
    match CancelAnswer(CellOf(s, t), caller)
    case Awaited => Effect(s, On(t, RequestCancel(k, caller)))
    case Checked(_) => Effect(s, Check(t, caller))
    case _ => s
  }

  class Worker {
    var cells: Cells
    var created: seq<TaskId>
    var mode: Mode
    const ordered: bool

    constructor (initial: State)
      ensures AsState() == initial
    {
      cells, created, mode, ordered := initial.cells, initial.created, initial.mode, initial.ordered;
    }

    function AsState(): State
      reads this
    {
      State(ordered, cells, created, mode)
    }

    /** `_cleanup_stale_tasks`: collect the finished entries, then pop them. */
    method CleanupStaleTasks()
      modifies this`cells
      ensures AsState() == Cleanup(old(AsState()))
    {
      if |Registered(AsState())| <= MAX_TRACKED_TASKS {
        return;
      }
      var stale := StaleIds(cells);
      while stale != {}
        invariant stale == StaleIds(cells)
        invariant Evicted(cells) == Evicted(old(cells))
        decreases |stale|
      {
        var t :| t in stale;
        PopOne(cells, t);
        cells := cells[t := cells[t].(entry := None)];
        stale := stale - {t};
      }
      forall t | t in cells
        ensures Evict(cells[t]) == cells[t]
      {
        assert t !in StaleIds(cells);
      }
      assert cells == Evicted(cells);
    }

    /** `delegate_async` up to its first await: clean up, then start the insert. */
    method DelegateAsync(t: TaskId, req: Request)
      requires Enabled(AsState(), Begin(t, req))
      modifies this`cells
      ensures AsState() == Effect(old(AsState()), Begin(t, req))
    {
      CleanupStaleTasks();
      cells := cells[t := BLANK.(launch := Creating(req), origin := Some(req))];
    }

    /** `_spawn_async_delegation_task` and the start of the "running" write. */
    method SpawnAsyncDelegationTask(t: TaskId, req: Request, author: Author)
      modifies this`cells
      ensures AsState() == Put(old(AsState()), t, SpawnTask(CellOf(old(AsState()), t), req, author))
    {
      var c := CellOf(AsState(), t);
      c := c.(task := Some(Task(req, Working, false)), launch := NoLaunch, spawns := c.spawns + 1,
              lost := c.lost - {Launcher, Child, Resumer}, cancelSeen := false);
      c := c.(entry := Some(Entry(MaybeUuidOf(req.parentAgent), req.trace)));
      c := c.(writes := c.writes + [Write(author, RunningUpdate(req, author == Resumer))]);
      cells := cells[t := c];
    }

    /** `cancel_async_delegation` up to `await state.task`, as the call number `k`. */
    method CancelAsyncDelegation(t: TaskId, caller: Option<string>, k: nat) returns (reply: CancelReply)
      requires k !in CellOf(AsState(), t).cancels && k !in CellOf(AsState(), t).acked
      requires Canceller(k) !in CellOf(AsState(), t).lost
      modifies this`cells
      ensures reply == CancelAnswer(CellOf(old(AsState()), t), caller)
      ensures forall u :: CellOf(AsState(), u) == CellOf(AfterCancel(old(AsState()), t, k, caller), u)
    {
      var cell := CellOf(AsState(), t);
      if cell.entry.None? || cell.task.None? {
        if cell.record.None? {
          return CancelNotFound;
        }
        var record := cell.record.value;
        if RecordRefused(record, caller) {
          return CancelForbidden;
        }
        if record.status == Completed || record.status == Failed || record.status == Killed {
          return AlreadyEnded(record.status, record.result);
        }
        return NotRunningHere;
      }
      if Refused(cell.entry.value, caller) {
        return CancelForbidden;
      }
      if IsDone(cell) {
        var answer := CheckAsyncDelegation(t, caller);
        return Checked(answer);
      }
      cell := cell.(task := Some(cell.task.value.(cancelPending := true)),
                    cancels := cell.cancels[k := Waiting], cancelSeen := true);
      cells := cells[t := cell];
      return Awaited;
    }

    /** The rest of a cancel call once the task is over: pop it, and start the
        "killed" write. */
    method FinishCancel(t: TaskId, k: nat)
      requires Enabled(AsState(), On(t, ProceedCancel(k)))
      modifies this`cells
      ensures AsState() == Effect(old(AsState()), On(t, ProceedCancel(k)))
    {
      var cell := CellOf(AsState(), t);
      cell := cell.(entry := None, cancels := cell.cancels[k := Writing]);
      cell := cell.(writes := cell.writes + [Write(Canceller(k), CancelUpdate(cell.task.value.req.trace))]);
      cells := cells[t := cell];
    }

    /** One round of the loop in `resume_persisted_async_delegations`. */
    method ResumeNextRecord(available: bool, freshSession: string, freshTrace: string)
      requires Enabled(AsState(), ResumeNext(available, freshSession, freshTrace))
      modifies this`cells, this`mode
      ensures AsState() == Effect(old(AsState()), ResumeNext(available, freshSession, freshTrace))
    {
      var t := mode.queue[0];
      var issued, spawned := ResumeRecord(t, available, freshSession, freshTrace);
      mode := Resuming(mode.queue[1..], if issued then Some(t) else None, if spawned then mode.resumed + {t} else mode.resumed);
    }

    /** The loop's body: skip the record, close it, or spawn its task again. */
    method ResumeRecord(t: TaskId, available: bool, freshSession: string, freshTrace: string)
      returns (issued: bool, spawned: bool)
      modifies this`cells
      ensures var before := CellOf(old(AsState()), t);
              var after := ResumeCell(before, available, freshSession, freshTrace);
              && AsState() == Put(old(AsState()), t, after)
              && issued == (after != before) && spawned == (after.spawns > before.spawns)
    {
      var cell := CellOf(AsState(), t);
      cells := cells[t := cell];
      issued, spawned := false, false;
      if cell.entry.Some? || cell.record.None? {
        return;
      }
      var plan := ReadPlan(cell.record.value, freshSession, freshTrace);
      if !plan.Rebuilt? {
        return;
      }
      if !available {
        CloseUnavailable(t);
        return true, false;
      }
      SpawnAsyncDelegationTask(t, plan.request, Resumer);
      assert cells[t].entry.Some?;
      return true, true;
    }

    /** The update of a record whose target cannot be found. */
    method CloseUnavailable(t: TaskId)
      modifies this`cells
      ensures var before := CellOf(old(AsState()), t);
              AsState() == Put(old(AsState()), t, Issue(before, Resumer, RESUME_FAILED))
              && Issue(before, Resumer, RESUME_FAILED) != before
    {
      var cell := CellOf(AsState(), t);
      cells := cells[t := cell.(writes := cell.writes + [Write(Resumer, RESUME_FAILED)])];
      assert |cells[t].writes| > |cell.writes|;
    }

    /** `check_async_delegation`: read the registry, pop a finished task, or fall
        back to the record. */
    method CheckAsyncDelegation(t: TaskId, caller: Option<string>) returns (answer: Answer)
      modifies this`cells
      ensures answer == CheckAnswer(CellOf(old(AsState()), t), caller)
      ensures forall u :: CellOf(AsState(), u) == CellOf(Effect(old(AsState()), Check(t, caller)), u)
    {
      var cell := CellOf(AsState(), t);
      if cell.entry.None? || cell.task.None? {
        return RecordAnswer(cell.record);
      }
      if Refused(cell.entry.value, caller) {
        return Forbidden;
      }
      if !IsDone(cell) {
        return StillRunning;
      }
      cells := cells[t := cell.(entry := None)];
      return OutcomeAnswer(cell.task.value.phase.outcome);
    }

    /** `list_async_delegations`: one line per tracked task the caller may see. */
    method ListAsyncDelegations(caller: Option<string>) returns (results: seq<Listed>)
      ensures forall t :: HasLine(results, t) <==> ListsFor(CellOf(AsState(), t), caller)
      ensures forall i | 0 <= i < |results| :: IsLineOf(results[i], CellOf(AsState(), results[i].id))
      ensures OneLineEach(results)
    {
      results := [];
      var todo := Registered(AsState());
      while todo != {}
        invariant todo <= Registered(AsState())
        invariant forall t :: HasLine(results, t) <==> t !in todo && ListsFor(CellOf(AsState(), t), caller)
        invariant forall i | 0 <= i < |results| :: IsLineOf(results[i], CellOf(AsState(), results[i].id))
        invariant OneLineEach(results)
        decreases todo
      {
        var t :| t in todo;
        var c := CellOf(AsState(), t);
        if ListsFor(c, caller) {
          var line := Listed(t, ListStatus(c), c.entry.value.trace);
          OneMoreLine(results, line);
          results := results + [line];
        }
        todo := todo - {t};
      }
    }

    /** `reconcile_orphaned_runtime_tasks`: close the running rows that were not
        resumed and count them. */
    method ReconcileOrphaned(excluded: set<TaskId>) returns (updated: nat)
      modifies this`cells
      ensures cells == Reconciled(old(cells), excluded)
      ensures updated == |RunningIds(old(cells), excluded)|
      ensures RunningIds(cells, excluded) == {}
    {
      updated := 0;
      var todo := RunningIds(cells, excluded);
      while todo != {}
        invariant todo == RunningIds(cells, excluded)
        invariant updated + |todo| == |RunningIds(old(cells), excluded)|
        invariant Reconciled(cells, excluded) == Reconciled(old(cells), excluded)
        decreases todo
      {
        var t :| t in todo;
        CloseOne(cells, t, excluded);
        cells := cells[t := ReconcileCell(cells[t], false)];
        todo := todo - {t};
        updated := updated + 1;
      }
      forall t | t in cells
        ensures ReconcileCell(cells[t], t in excluded) == cells[t]
      {
        assert t !in RunningIds(cells, excluded);
      }
      assert cells == Reconciled(cells, excluded);
    }
  }
}
