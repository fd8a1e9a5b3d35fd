/** Asynchronous delegation as a labelled transition system.

    The state holds one cell per task id: its durable record, the writes issued
    for it that the store has not applied yet, the asyncio task of this worker
    life, the registry entry in front of it, and the callers that are launching
    or cancelling it.  Every `await` of the source is a place where another
    label may come in between. */
module DelegationProtocol {
  import opened Common
  import opened RuntimeTasks

  type TaskId = string

  const MAX_TRACKED_TASKS: nat := 200
  const RESUME_LIMIT: nat := 50
  const CANCEL_TEXT: string := "Task cancelled by parent agent"
  const UNAVAILABLE_TEXT: string :=
    "Task could not be resumed after restart because the target agent runtime is unavailable."
  const ORPHAN_TEXT: string := "Task failed because the worker process restarted before completion."

  // ---- what a child run ends with ----

  datatype Outcome =
    | Finished(failed: bool, content: string, timedOut: bool, depthLimited: bool,
               trace: string, session: string)
    | Cancelled

  datatype Phase = Working | Settling(pending: Outcome) | Done(outcome: Outcome)

  /** One asyncio task: `cancelPending` is a `cancel()` not delivered yet. */
  datatype Task = Task(req: Request, phase: Phase, cancelPending: bool)

  datatype Author = Launcher | Child | Resumer | Canceller(id: nat)

  datatype Write = Write(author: Author, update: Update)

  datatype Launch = NoLaunch | Creating(req: Request) | Created(req: Request)

  datatype CancelPc = Waiting | Writing

  /** The registry entry, `AsyncDelegationState` without the task itself. */
  datatype Entry = Entry(parentAgent: Option<Uuid>, trace: string)

  /** Everything about one task id.  `origin`, `lost`, `acked`, `cancelSeen` and
      `spawns` record history: the launching request, the authors whose write was
      lost, the cancel calls that returned "killed" on their own, whether a cancel
      was requested and how often the id was spawned in this worker life. */
  datatype Cell = Cell(
    record: Option<Record>,
    writes: seq<Write>,
    launch: Launch,
    task: Option<Task>,
    entry: Option<Entry>,
    cancels: map<nat, CancelPc>,
    origin: Option<Request>,
    lost: set<Author>,
    acked: set<nat>,
    cancelSeen: bool,
    spawns: nat)

  const BLANK: Cell := Cell(None, [], NoLaunch, None, None, map[], None, {}, {}, false, 0)

  // ---- the writes the protocol issues ----

  function RunningUpdate(req: Request, resumed: bool): Update {
    Update(Running, None, Some(req.trace), Some(req.session),
           if resumed then map["resumed_after_restart" := Bool(true)] else map[])
  }

  function SettleUpdate(o: Outcome, req: Request): Update {
    match o
    case Finished(failed, content, timedOut, depthLimited, trace, session) =>
      Update(if failed then Failed else Completed, Some(content), Some(trace), Some(session),
             map["timed_out" := Bool(timedOut), "depth_limited" := Bool(depthLimited)])
    case Cancelled =>
      Update(Killed, Some(CANCEL_TEXT), Some(req.trace), Some(req.session),
             map["timed_out" := Bool(false), "depth_limited" := Bool(false), "cancelled" := Bool(true)])
  }

  function CancelUpdate(trace: string): Update {
    Update(Killed, Some(CANCEL_TEXT), Some(trace), None,
           map["timed_out" := Bool(false), "depth_limited" := Bool(false), "cancelled" := Bool(true)])
  }

  const RESUME_FAILED: Update :=
    Update(Failed, Some(UNAVAILABLE_TEXT), None, None, map["resume_failed" := Bool(true)])

  /** Applying a write to a record that does not exist changes nothing. */
  function ApplyTo(rec: Option<Record>, u: Update): Option<Record> {
    if rec.Some? then Some(Apply(rec.value, u)) else None
  }

  // ---- the child's work ----

  datatype Invocation = Reply(content: string) | TimedOut | Raised(text: string)

  /** `_delegate`: the depth gate, then the child's turn under a timeout. */
  function Delegate(req: Request, inv: Invocation, freshSession: string, freshTrace: string): (o: Outcome)
    ensures o.Finished? && ValidOutcome(req, o)
    ensures o.depthLimited <==> req.depth > req.maxDepth
    ensures o.failed <==> o.depthLimited || !inv.Reply?
    ensures o.timedOut <==> !o.depthLimited && inv.TimedOut?
    ensures inv.Reply? && !o.depthLimited ==> o.content == inv.content
  {
    var trace := if req.trace != "" then req.trace else freshTrace;
    var session := if req.session != "" then req.session else freshSession;
    if req.depth > req.maxDepth then Finished(true, "depth limit", false, true, trace, session)
    else match inv
      case Reply(content) => Finished(false, content, false, false, trace, session)
      case TimedOut => Finished(true, "timed out", true, false, trace, session)
      case Raised(text) => Finished(true, text, false, false, trace, session)
  }

  /** The outcomes `_run` can end with other than by cancellation. */
  predicate ValidOutcome(req: Request, o: Outcome) {
    && o.Finished?
    && (o.depthLimited <==> req.depth > req.maxDepth)
    && (o.timedOut || o.depthLimited ==> o.failed)
    && !(o.timedOut && o.depthLimited)
    && (req.trace != "" ==> o.trace == req.trace)
    && (req.session != "" ==> o.session == req.session)
  }

  // ---- steps that concern one task id ----

  datatype Act =
    | LandCreate                     // the insert of the pending row commits
    | LoseCreate                     // the insert fails; the launch goes on
    | Spawn                          // create the task, register it, issue "running"
    | Land(at: nat)                  // the store applies one issued write
    | Lose(at: nat)                  // an issued write fails
    | Settle(outcome: Outcome)       // the child has its result and issues its write
    | DeliverCancel                  // CancelledError reaches the child
    | MissCancel                     // the cancellation is swallowed by a finished wait
    | Finish                         // the child's write has landed; the task is done
    | RequestCancel(canceller: nat, caller: Option<string>)
    | ProceedCancel(canceller: nat)  // `await state.task` is over: pop and issue "killed"
    | ReturnCancel(canceller: nat)   // the canceller's write is over: return "killed"

  predicate IsDone(c: Cell) { c.task.Some? && c.task.value.phase.Done? }
  predicate Live(c: Cell) { c.task.Some? && !c.task.value.phase.Done? }

  predicate HasWriteBy(c: Cell, a: Author) {
    exists i | 0 <= i < |c.writes| :: c.writes[i].author == a
  }

  /** The ownership test of `check` and `cancel`. */
  predicate Refused(entry: Entry, caller: Option<string>) {
    MaybeUuidOf(caller).Some? && entry.parentAgent.Some? && MaybeUuidOf(caller) != entry.parentAgent
  }

  predicate ActEnabled(ordered: bool, c: Cell, a: Act) {
    match a
    case LandCreate => c.launch.Creating?
    case LoseCreate => c.launch.Creating?
    case Spawn => c.launch.Created?
    case Land(i) => i < |c.writes| && (ordered ==> i == 0)
    case Lose(i) => i < |c.writes|
    case Settle(o) =>
      && c.task.Some? && c.task.value.phase.Working? && !c.task.value.cancelPending
      && ValidOutcome(c.task.value.req, o)
    case DeliverCancel => Live(c) && c.task.value.cancelPending
    case MissCancel => c.task.Some? && c.task.value.phase.Working? && c.task.value.cancelPending
    case Finish =>
      && c.task.Some? && c.task.value.phase.Settling? && !c.task.value.cancelPending
      && !HasWriteBy(c, Child)
    case RequestCancel(k, caller) =>
      && c.entry.Some? && Live(c) && !Refused(c.entry.value, caller)
      && k !in c.cancels && k !in c.acked && Canceller(k) !in c.lost
    case ProceedCancel(k) => k in c.cancels && c.cancels[k].Waiting? && IsDone(c)
    case ReturnCancel(k) => k in c.cancels && c.cancels[k].Writing? && !HasWriteBy(c, Canceller(k))
  }

  function Issue(c: Cell, a: Author, u: Update): Cell {
    c.(writes := c.writes + [Write(a, u)])
  }

  function NotBy(a: Author): Write -> bool { (w: Write) => w.author != a }

  /** `_spawn_async_delegation_task`, then the "running" write behind it. */
  function SpawnTask(c: Cell, req: Request, author: Author): Cell {
    Issue(c.(launch := NoLaunch,
             task := Some(Task(req, Working, false)),
             entry := Some(Entry(MaybeUuidOf(req.parentAgent), req.trace)),
             lost := c.lost - {Launcher, Child, Resumer},
             cancelSeen := false,
             spawns := c.spawns + 1),
          author, RunningUpdate(req, author == Resumer))
  }

  function Deliver(c: Cell): Cell
    requires Live(c)
  {
    var t := c.task.value;
    match t.phase
    case Working =>
      Issue(c.(task := Some(t.(phase := Settling(Cancelled), cancelPending := false))),
            Child, SettleUpdate(Cancelled, t.req))
    case Settling(Finished(_, _, _, _, _, _)) =>
      // the interrupted write is rolled back, then "killed" is written instead
      Issue(c.(task := Some(t.(phase := Settling(Cancelled), cancelPending := false)),
               writes := Filter(NotBy(Child), c.writes)),
            Child, SettleUpdate(Cancelled, t.req))
    case Settling(Cancelled) =>
      // a second cancellation interrupts the "killed" write itself
      c.(task := Some(t.(phase := Done(Cancelled), cancelPending := false)),
         writes := Filter(NotBy(Child), c.writes),
         lost := if HasWriteBy(c, Child) then c.lost + {Child} else c.lost)
  }

  function ActEffect(c: Cell, a: Act): Cell
    requires ActEnabled(false, c, a)
  {
    match a
    case LandCreate => c.(launch := Created(c.launch.req), record := Some(NewRecord(c.launch.req)))
    case LoseCreate => c.(launch := Created(c.launch.req))
    case Spawn => SpawnTask(c, c.launch.req, Launcher)
    case Land(i) => c.(record := ApplyTo(c.record, c.writes[i].update), writes := RemoveAt(c.writes, i))
    case Lose(i) => c.(lost := c.lost + {c.writes[i].author}, writes := RemoveAt(c.writes, i))
    case Settle(o) =>
      Issue(c.(task := Some(c.task.value.(phase := Settling(o)))), Child, SettleUpdate(o, c.task.value.req))
    case DeliverCancel => Deliver(c)
    case MissCancel => c.(task := Some(c.task.value.(cancelPending := false)))
    case Finish => c.(task := Some(c.task.value.(phase := Done(c.task.value.phase.pending))))
    case RequestCancel(k, _) =>
      c.(task := Some(c.task.value.(cancelPending := true)), cancels := c.cancels[k := Waiting], cancelSeen := true)
    case ProceedCancel(k) =>
      Issue(c.(entry := None, cancels := c.cancels[k := Writing]),
            Canceller(k), CancelUpdate(c.task.value.req.trace))
    case ReturnCancel(k) => c.(cancels := c.cancels - {k}, acked := c.acked + {k})
  }

  // ---- the whole worker ----

  /** Start-up runs `Booting`, then the resume loop, then the reconcile. */
  datatype Mode =
    | Booting
    | Resuming(queue: seq<TaskId>, waiting: Option<TaskId>, resumed: set<TaskId>)
    | Serving

  type Cells = map<TaskId, Cell>

  /** `ordered` says whether the store applies the writes of one task in the
      order they were issued; `created` lists the ids in insertion order. */
  datatype State = State(ordered: bool, cells: Cells, created: seq<TaskId>, mode: Mode)

  function CellOf(s: State, t: TaskId): Cell {
    if t in s.cells then s.cells[t] else BLANK
  }

  function Put(s: State, t: TaskId, c: Cell): (s': State)
    ensures forall u :: CellOf(s', u) == if u == t then c else CellOf(s, u)
  {
    s.(cells := s.cells[t := c])
  }

  datatype Label =
    | On(t: TaskId, act: Act)
    | Begin(t: TaskId, req: Request)   // `delegate_async` up to its first await
    | Check(t: TaskId, caller: Option<string>)
    | BeginResume
    | LoadFails                        // the active records cannot be loaded
    | ResumeNext(available: bool, freshSession: string, freshTrace: string)
    | ResumeContinue
    | Reconcile
    | StartupFails                     // an exception skips the rest, reconcile included
    | Crash

  // ---- `_cleanup_stale_tasks` ----

  function Registered(s: State): set<TaskId> {
    set t | t in s.cells && s.cells[t].entry.Some?
  }

  function Evict(c: Cell): Cell {
    if IsDone(c) then c.(entry := None) else c
  }

  function Evicted(cells: Cells): Cells {
    map t | t in cells :: Evict(cells[t])
  }

  function Cleanup(s: State): State {
    if |Registered(s)| <= MAX_TRACKED_TASKS then s
    else s.(cells := Evicted(s.cells))
  }

  // ---- `check_async_delegation` ----

  datatype Answer =
    | NotFound
    | Forbidden
    | StillRunning
    | Report(status: Status, result: Option<string>, timedOut: bool)

  function RecordAnswer(rec: Option<Record>): Answer {
    if rec.None? then NotFound
    else Report(rec.value.status, rec.value.result, Truthy(Get(rec.value.metadata, "timed_out")))
  }

  function OutcomeAnswer(o: Outcome): Answer {
    match o
    case Finished(failed, content, timedOut, _, _, _) =>
      Report(if failed then Failed else Completed, Some(content), timedOut)
    case Cancelled => Report(Killed, Some(CANCEL_TEXT), false)
  }

  function CheckAnswer(c: Cell, caller: Option<string>): Answer {
    if c.entry.None? || c.task.None? then RecordAnswer(c.record)
    else if Refused(c.entry.value, caller) then Forbidden
    else if !IsDone(c) then StillRunning
    else OutcomeAnswer(c.task.value.phase.outcome)
  }

  function AfterCheck(c: Cell, caller: Option<string>): Cell {
    if c.entry.Some? && !Refused(c.entry.value, caller) && IsDone(c) then c.(entry := None) else c
  }

  // ---- restart ----

  function AfterCrash(c: Cell): Cell {
    c.(writes := [], launch := NoLaunch, task := None, entry := None, cancels := map[],
       cancelSeen := false, spawns := 0)
  }

  predicate ActiveIn(s: State, t: TaskId) {
    CellOf(s, t).record.Some? && Active(CellOf(s, t).record.value.status)
  }

  function IsActive(s: State): TaskId -> bool { (t: TaskId) => ActiveIn(s, t) }

  /** `list_active_runtime_task_records`: the oldest active records, up to the limit. */
  function Snapshot(s: State): seq<TaskId> {
    var active := Filter(IsActive(s), s.created);
    if |active| <= RESUME_LIMIT then active else active[..RESUME_LIMIT]
  }

  function ResumeCell(c: Cell, available: bool, freshSession: string, freshTrace: string): Cell {
    if c.entry.Some? || c.record.None? then c
    else
      match ReadPlan(c.record.value, freshSession, freshTrace)
      case NotResumable => c
      case MissingMetadata => c
      case Rebuilt(req) =>
        if !available then Issue(c, Resumer, RESUME_FAILED) else SpawnTask(c, req, Resumer)
  }

  function ReconcileRecord(rec: Record): Record {
    rec.(status := Failed,
         result := if rec.result.None? || rec.result.value == "" then Some(ORPHAN_TEXT) else rec.result,
         metadata := rec.metadata["orphaned_by_restart" := Bool(true)])
  }

  /** `reconcile_orphaned_runtime_tasks` closes the running rows only. */
  function ReconcileCell(c: Cell, excluded: bool): Cell {
    if !excluded && c.record.Some? && c.record.value.status == Running
    then c.(record := Some(ReconcileRecord(c.record.value)))
    else c
  }

  function Reconciled(cells: Cells, excluded: set<TaskId>): Cells {
    map t | t in cells :: ReconcileCell(cells[t], t in excluded)
  }

  // ---- transitions ----

  /** Some child is in the middle of its turn. */
  predicate SomeWorking(s: State) {
    exists u | u in s.cells :: s.cells[u].task.Some? && s.cells[u].task.value.phase.Working?
  }

  /** Requests and background jobs come after start-up; until then only a child
      that the resume has brought back can launch a delegation. */
  predicate CanLaunch(s: State) {
    s.mode.Serving? || (s.mode.Resuming? && SomeWorking(s))
  }

  predicate Enabled(s: State, l: Label) {
    match l
    case On(t, a) => ActEnabled(s.ordered, CellOf(s, t), a)
    case Begin(t, req) => CanLaunch(s) && CellOf(s, t) == BLANK && t !in s.created && req.trace != ""
    case Check(_, _) => true
    case BeginResume => s.mode.Booting?
    case LoadFails => s.mode.Booting?
    case ResumeNext(_, freshSession, freshTrace) =>
      s.mode.Resuming? && s.mode.waiting.None? && s.mode.queue != [] && freshSession != "" && freshTrace != ""
    case ResumeContinue =>
      s.mode.Resuming? && s.mode.waiting.Some? && !HasWriteBy(CellOf(s, s.mode.waiting.value), Resumer)
    case Reconcile => s.mode.Resuming? && s.mode.waiting.None? && s.mode.queue == []
    case StartupFails => s.mode.Resuming? && s.mode.waiting.None?
    case Crash => true
  }

  function Effect(s: State, l: Label): State
    requires Enabled(s, l)
  {
    match l
    case On(t, a) =>
      var s' := Put(s, t, ActEffect(CellOf(s, t), a));
      if a.LandCreate? then s'.(created := s.created + [t]) else s'
    case Begin(t, req) =>
      Put(Cleanup(s), t, BLANK.(launch := Creating(req), origin := Some(req)))
    case Check(t, caller) => Put(s, t, AfterCheck(CellOf(s, t), caller))
    case BeginResume => s.(mode := Resuming(Snapshot(s), None, {}))
    case LoadFails => s.(mode := Resuming([], None, {}))
    case ResumeNext(available, freshSession, freshTrace) =>
      var t := s.mode.queue[0];
      var c := ResumeCell(CellOf(s, t), available, freshSession, freshTrace);
      Put(s, t, c).(mode := Resuming(s.mode.queue[1..],
                                     if c == CellOf(s, t) then None else Some(t),
                                     if c.spawns > CellOf(s, t).spawns then s.mode.resumed + {t} else s.mode.resumed))
    case ResumeContinue => s.(mode := s.mode.(waiting := None))
    case Reconcile =>
      s.(mode := Serving, cells := Reconciled(s.cells, s.mode.resumed))
    case StartupFails => s.(mode := Serving)
    case Crash => s.(mode := Booting, cells := map t | t in s.cells :: AfterCrash(s.cells[t]))
  }

  /** The label creates an asyncio task for `t`. */
  predicate Spawns(s: State, l: Label, t: TaskId)
    requires Enabled(s, l)
  {
    CellOf(Effect(s, l), t).spawns > CellOf(s, t).spawns
  }

  // ---- runs ----

  ghost predicate Init(s: State) {
    s.cells == map[] && s.created == [] && s.mode == Booting
  }

  datatype Run = Run(states: seq<State>, labels: seq<Label>)

  ghost predicate IsRun(r: Run) {
    && |r.states| == |r.labels| + 1
    && Init(r.states[0])
    && (forall i | 0 <= i < |r.labels| :: IsStep(r, i))
  }

  ghost predicate IsStep(r: Run, i: nat)
    requires |r.states| == |r.labels| + 1 && i < |r.labels|
  {
    Enabled(r.states[i], r.labels[i]) && r.states[i + 1] == Effect(r.states[i], r.labels[i])
  }
}
