/** The durable side of a delegation: one row of `runtime_tasks`, the partial
    update that merges metadata, and the request that is packed into the row at
    launch and unpacked again after a restart. */
module RuntimeTasks {
  import opened Common

  /** Values the metadata column can hold.  `Unserialisable` stands for a Python
      object that `json.dumps` rejects. */
  datatype Json =
    | Null
    | Bool(b: bool)
    | Int(i: int)
    | Real(r: real)
    | Str(s: string)
    | List(items: seq<Json>)
    | Obj(fields: seq<(string, Json)>)
    | Unserialisable

  predicate JsonSafe(j: Json) {
    match j
    case Unserialisable => false
    case List(items) => forall i | 0 <= i < |items| :: JsonSafe(items[i])
    case Obj(fields) => forall i | 0 <= i < |fields| :: JsonSafe(fields[i].1)
    case _ => true
  }

  /** Python's truth value of `j`. */
  predicate Truthy(j: Json) {
    match j
    case Null => false
    case Bool(b) => b
    case Int(i) => i != 0
    case Real(r) => r != 0.0
    case Str(s) => s != ""
    case List(items) => items != []
    case Obj(fields) => fields != []
    case Unserialisable => true
  }

  type Metadata = map<string, Json>

  function Get(m: Metadata, key: string): Json {
    if key in m then m[key] else Null
  }

  // ---- identifiers ----

  predicate HexDigit(c: char) { '0' <= c <= '9' || 'a' <= c <= 'f' }

  /** The canonical spelling of a UUID: 36 characters, dashes at fixed places. */
  predicate IsUuid(s: string) {
    && |s| == 36
    && (forall i | 0 <= i < 36 ::
          if i == 8 || i == 13 || i == 18 || i == 23 then s[i] == '-' else HexDigit(s[i]))
  }

  const ZERO_UUID: string := "00000000-0000-0000-0000-000000000000"

  type Uuid = s: string | IsUuid(s) witness ZERO_UUID

  function MaybeUuid(s: string): Option<Uuid> {
    if IsUuid(s) then Some(s) else None
  }

  function MaybeUuidOf(s: Option<string>): Option<Uuid> {
    if s.Some? then MaybeUuid(s.value) else None
  }

  // ---- records ----

  datatype Status = Pending | Running | Completed | Failed | Killed

  predicate Active(s: Status) { s == Pending || s == Running }
  predicate Terminal(s: Status) { !Active(s) }

  datatype Record = Record(
    status: Status,
    parentAgent: Option<Uuid>,
    childAgent: Option<Uuid>,
    result: Option<string>,
    trace: string,
    parentSession: Option<string>,
    childSession: string,
    depth: int,
    metadata: Metadata)

  /** The keyword arguments of one `update_runtime_task_record` call; `None`
      stands for an argument that is not passed. */
  datatype Update = Update(
    status: Status,
    result: Option<string>,
    trace: Option<string>,
    childSession: Option<string>,
    metadata: Metadata)

  function Apply(rec: Record, u: Update): Record {
    rec.(status := u.status,
         result := if u.result.Some? then u.result else rec.result,
         trace := if u.trace.Some? then u.trace.value else rec.trace,
         childSession := if u.childSession.Some? then u.childSession.value else rec.childSession,
         metadata := rec.metadata + u.metadata)
  }

  function ApplyAll(rec: Record, us: seq<Update>): Record
    decreases |us|
  {
    if us == [] then rec else ApplyAll(Apply(rec, us[0]), us[1..])
  }

  // ---- requests ----

  const DEFAULT_MAX_DEPTH: int := 2
  const FALLBACK_TIMEOUT: real := 120.0

  datatype Request = Request(
    target: Option<Uuid>,
    messages: seq<Json>,
    owner: Uuid,
    session: string,
    hasToolExecutor: bool,
    suffix: string,
    maxRounds: Option<int>,
    parentAgent: Option<string>,
    parentSession: Option<string>,
    trace: string,
    depth: int,
    maxDepth: int,
    timeout: real)

  predicate Resumable(req: Request) {
    !req.hasToolExecutor && JsonSafe(List(req.messages))
  }

  function BuildMetadata(req: Request): Metadata {
    var base := map[
      "message_count" := Int(|req.messages|),
      "system_prompt_suffix" := Str(req.suffix),
      "resumable_delegation" := Bool(Resumable(req)),
      "resume_after_restart" := Bool(Resumable(req))];
    if !Resumable(req) then base
    else base + map[
      "owner_id" := Str(req.owner),
      "target_agent_id" := Str(if req.target.Some? then req.target.value else ""),
      "conversation_messages" := List(req.messages),
      "max_tool_rounds" := if req.maxRounds.Some? then Int(req.maxRounds.value) else Null,
      "timeout_seconds" := Real(req.timeout)]
  }

  /** The row written by `delegate_async` before the child is spawned. */
  function NewRecord(req: Request): Record {
    Record(Pending, MaybeUuidOf(req.parentAgent), req.target, None, req.trace,
           req.parentSession, req.session, req.depth, BuildMetadata(req))
  }

  /** The keys the restart path reads back. */
  const RESUME_KEYS: set<string> := {
    "system_prompt_suffix", "resumable_delegation", "resume_after_restart", "owner_id",
    "target_agent_id", "conversation_messages", "max_tool_rounds", "timeout_seconds"}

  function TextOr(j: Json, default: string): string {
    if j.Str? && j.s != "" then j.s else default
  }

  function SecondsOr(j: Json, default: real): real {
    if j.Real? && j.r != 0.0 then j.r
    else if j.Int? && j.i != 0 then j.i as real
    else default
  }

  datatype Plan = NotResumable | MissingMetadata | Rebuilt(request: Request)

  /** What the restart path reads out of a row, up to the look-up of the target. */
  function ReadPlan(rec: Record, freshSession: string, freshTrace: string): Plan {
    var m := rec.metadata;
    if !Truthy(Get(m, "resumable_delegation")) || !Truthy(Get(m, "resume_after_restart")) then NotResumable
    else
      var childAgent := if rec.childAgent.Some? then rec.childAgent.value else "";
      var target := MaybeUuid(TextOr(Get(m, "target_agent_id"), childAgent));
      var owner := MaybeUuid(TextOr(Get(m, "owner_id"), ""));
      var messages := Get(m, "conversation_messages");
      var rounds := Get(m, "max_tool_rounds");
      if target.None? || owner.None? || !messages.List? then MissingMetadata
      else Rebuilt(Request(
        target,
        messages.items,
        owner.value,
        if rec.childSession != "" then rec.childSession else freshSession,
        false,
        TextOr(Get(m, "system_prompt_suffix"), ""),
        if rounds.Int? then Some(rounds.i) else None,
        rec.parentAgent,
        rec.parentSession,
        if rec.trace != "" then rec.trace else freshTrace,
        if rec.depth != 0 then rec.depth else 1,
        DEFAULT_MAX_DEPTH,
        SecondsOr(Get(m, "timeout_seconds"), FALLBACK_TIMEOUT)))
  }

  /** The guard of the restart path on a row, before the target is looked up. */
  predicate Rebuilds(rec: Record) {
    var m := rec.metadata;
    && Truthy(Get(m, "resumable_delegation")) && Truthy(Get(m, "resume_after_restart"))
    && MaybeUuid(TextOr(Get(m, "target_agent_id"), if rec.childAgent.Some? then rec.childAgent.value else "")).Some?
    && MaybeUuid(TextOr(Get(m, "owner_id"), "")).Some?
    && Get(m, "conversation_messages").List?
  }

  lemma RebuildsIff(rec: Record, freshSession: string, freshTrace: string)
    ensures ReadPlan(rec, freshSession, freshTrace).Rebuilt? <==> Rebuilds(rec)
  {
  }

  // ---- restart round trip ----

  /** An update of the kind the protocol issues for a task launched with `req`. */
  ghost predicate UpdateFor(u: Update, req: Request) {
    && u.metadata.Keys !! RESUME_KEYS
    && (u.trace.Some? && req.trace != "" ==> u.trace.value == req.trace)
    && (u.childSession.Some? && req.session != "" ==> u.childSession.value == req.session)
  }

  /** A row that still carries everything the launch of `req` put there. */
  ghost predicate RecordFor(rec: Record, req: Request) {
    && rec.parentAgent == MaybeUuidOf(req.parentAgent)
    && rec.childAgent == req.target
    && rec.parentSession == req.parentSession
    && rec.depth == req.depth
    && (req.trace != "" ==> rec.trace == req.trace)
    && (req.session != "" ==> rec.childSession == req.session)
    && (forall k | k in RESUME_KEYS :: Get(rec.metadata, k) == Get(BuildMetadata(req), k))
  }

  lemma NewRecordFor(req: Request)
    ensures RecordFor(NewRecord(req), req)
  {
  }

  lemma ApplyKeepsRecordFor(rec: Record, u: Update, req: Request)
    requires RecordFor(rec, req) && UpdateFor(u, req)
    ensures RecordFor(Apply(rec, u), req)
  {
  }

  lemma {:induction false} ApplyAllKeepsRecordFor(rec: Record, us: seq<Update>, req: Request)
    requires RecordFor(rec, req) && (forall u | u in us :: UpdateFor(u, req))
    ensures RecordFor(ApplyAll(rec, us), req)
    decreases |us|
  {
    if us != [] {
      ApplyKeepsRecordFor(rec, us[0], req);
      ApplyAllKeepsRecordFor(Apply(rec, us[0]), us[1..], req);
    }
  }

  /** What a caller can check before the call: exactly then a restart rebuilds
      the request it was given. */
  predicate RoundTrips(req: Request) {
    && Resumable(req)
    && req.target.Some?
    && req.session != ""
    && req.trace != ""
    && (req.parentAgent.Some? ==> IsUuid(req.parentAgent.value))
    && req.depth != 0
    && req.maxDepth == DEFAULT_MAX_DEPTH
    && req.timeout != 0.0
  }

  lemma FlagsBuilt(req: Request)
    ensures var m := BuildMetadata(req);
            && Get(m, "resumable_delegation") == Get(m, "resume_after_restart") == Bool(Resumable(req))
            && Get(m, "system_prompt_suffix") == Str(req.suffix)
  {
  }

  lemma PayloadBuilt(req: Request)
    requires Resumable(req)
    ensures var m := BuildMetadata(req);
            && Get(m, "owner_id") == Str(req.owner)
            && Get(m, "target_agent_id") == Str(if req.target.Some? then req.target.value else "")
            && Get(m, "conversation_messages") == List(req.messages)
            && Get(m, "max_tool_rounds") == (if req.maxRounds.Some? then Int(req.maxRounds.value) else Null)
            && Get(m, "timeout_seconds") == Real(req.timeout)
  {
  }

  /** The restart path finds under each key it reads what the launch put there. */
  lemma ReadsBack(rec: Record, req: Request)
    requires RecordFor(rec, req)
    ensures var m, built := rec.metadata, BuildMetadata(req);
            && Get(m, "resumable_delegation") == Get(built, "resumable_delegation")
            && Get(m, "resume_after_restart") == Get(built, "resume_after_restart")
            && Get(m, "system_prompt_suffix") == Get(built, "system_prompt_suffix")
            && Get(m, "owner_id") == Get(built, "owner_id")
            && Get(m, "target_agent_id") == Get(built, "target_agent_id")
            && Get(m, "conversation_messages") == Get(built, "conversation_messages")
            && Get(m, "max_tool_rounds") == Get(built, "max_tool_rounds")
            && Get(m, "timeout_seconds") == Get(built, "timeout_seconds")
  {
  }

  /** What a restart rebuilds from the row of any request it can resume, defaults included. */
  lemma RebuiltRequest(rec: Record, req: Request, freshSession: string, freshTrace: string)
    requires RecordFor(rec, req) && Resumable(req) && req.target.Some?
    ensures ReadPlan(rec, freshSession, freshTrace) == Rebuilt(Request(
              req.target, req.messages, req.owner,
              if rec.childSession != "" then rec.childSession else freshSession,
              false, req.suffix, req.maxRounds, rec.parentAgent, rec.parentSession,
              if rec.trace != "" then rec.trace else freshTrace,
              if req.depth != 0 then req.depth else 1,
              2,
              if req.timeout != 0.0 then req.timeout else 120.0))
  {
    ReadsBack(rec, req);
    FlagsBuilt(req);
    PayloadBuilt(req);
  }

  /** A row can be rebuilt exactly when its request had no tool executor, messages that
      JSON can hold, and a target. */
  lemma RebuildsRequest(rec: Record, req: Request)
    requires RecordFor(rec, req)
    ensures Rebuilds(rec) <==>
            !req.hasToolExecutor && (forall i | 0 <= i < |req.messages| :: JsonSafe(req.messages[i])) && req.target.Some?
  {
    ReadsBack(rec, req);
    FlagsBuilt(req);
    if Resumable(req) {
      PayloadBuilt(req);
    }
  }

  /** From a row that still belongs to `req`, the restart path rebuilds `req` if and
      only if `req` meets `RoundTrips`. */
  lemma RecordRoundTrip(rec: Record, req: Request, freshSession: string, freshTrace: string)
    requires RecordFor(rec, req)
    requires freshSession != "" && freshTrace != ""
    ensures ReadPlan(rec, freshSession, freshTrace) == Rebuilt(req) <==> RoundTrips(req)
  {
    ReadsBack(rec, req);
    FlagsBuilt(req);
    if Resumable(req) {
      PayloadBuilt(req);
    }
    if Resumable(req) && req.target.Some? {
      RebuiltRequest(rec, req, freshSession, freshTrace);
    }
  }

  /** The restart round trip: whatever updates the protocol has applied since,
      across any number of restarts, reading the row back gives the launched
      request if and only if the request meets `RoundTrips`. */
  lemma RestartRoundTrip(req: Request, us: seq<Update>, freshSession: string, freshTrace: string)
    requires forall u | u in us :: UpdateFor(u, req)
    requires freshSession != "" && freshTrace != ""
    ensures ReadPlan(ApplyAll(NewRecord(req), us), freshSession, freshTrace) == Rebuilt(req)
            <==> RoundTrips(req)
  {
    NewRecordFor(req);
    ApplyAllKeepsRecordFor(NewRecord(req), us, req);
    RecordRoundTrip(ApplyAll(NewRecord(req), us), req, freshSession, freshTrace);
  }
}
