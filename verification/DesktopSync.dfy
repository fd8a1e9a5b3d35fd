/** The desktop sync protocol: a version-stamped read in several parts, running
    beside writers that commit a change and a version bump in one transaction. */
module DesktopSync {
  import opened Common

  type UserId = nat
  type TenantId = nat
  type AgentId = nat
  type Guard = string

  const EMPTY_GUARD: Guard := "{}"

  /** Which tenant each user belongs to; a user without an entry has none. */
  type Tenancy = map<UserId, TenantId>

  function TenantOf(w: Tenancy, u: UserId): Option<TenantId> {
    if u in w then Some(w[u]) else None
  }

  datatype AgentRow = AgentRow(
    owner: UserId, tenant: Option<TenantId>, name: string, role: string, bio: Option<string>,
    zone: string, executionMode: string, configVersion: nat)

  datatype Policy = Policy(version: nat, zone: Guard, egress: Guard)

  const DEFAULT_POLICY: Policy := Policy(1, EMPTY_GUARD, EMPTY_GUARD)

  datatype Db = Db(versions: map<TenantId, nat>, agents: map<AgentId, AgentRow>, policies: map<TenantId, Policy>)

  // ---- the read side ----

  /** `AgentProjection`: the columns the desktop sees. */
  datatype Projection = Projection(name: string, role: string, bio: Option<string>, zone: string, configVersion: nat)

  function Project(a: AgentRow): Projection {
    Projection(a.name, a.role, a.bio, a.zone, a.configVersion)
  }

  type Agents = map<AgentId, Projection>

  function UserAgents(db: Db, w: Tenancy, u: UserId): Agents {
    map id | id in db.agents && db.agents[id].owner == u && db.agents[id].tenant == TenantOf(w, u)
      :: Project(db.agents[id])
  }

  function SyncVersion(db: Db, tenant: Option<TenantId>): nat {
    if tenant.Some? && tenant.value in db.versions then db.versions[tenant.value] else 0
  }

  function GuardPolicy(db: Db, tenant: Option<TenantId>): Policy {
    if tenant.Some? && tenant.value in db.policies then db.policies[tenant.value]
    else Policy(0, EMPTY_GUARD, EMPTY_GUARD)
  }

  datatype Guards = Guards(zone: Guard, egress: Guard)

  function GuardsOf(p: Policy): Guards { Guards(p.zone, p.egress) }

  // ---- the writers ----

  datatype Patch = Patch(name: Option<string>, role: Option<string>, bio: Option<Option<string>>,
                         zone: Option<string>, executionMode: Option<string>)

  function Or<T>(o: Option<T>, default: T): T {
    if o.Some? then o.value else default
  }

  function Patched(a: AgentRow, p: Patch): AgentRow {
    a.(name := Or(p.name, a.name), role := Or(p.role, a.role), bio := Or(p.bio, a.bio),
       zone := Or(p.zone, a.zone), executionMode := Or(p.executionMode, a.executionMode),
       configVersion := a.configVersion + 1)
  }

  datatype Transaction =
    | CreateAgent(user: UserId, id: AgentId, name: string, role: string, bio: Option<string>, zone: string, mode: string)
    | UpdateAgent(user: UserId, id: AgentId, patch: Patch)
    | DeleteAgent(user: UserId, id: AgentId)
    | PutPolicy(user: UserId, zoneGuard: Option<Guard>, egressGuard: Option<Guard>)
    | GetPolicy(user: UserId)

  datatype Reply = Ok | NoTenant | NotFound | NotYours | Conflict

  /** The single UPDATE of `bump_sync_version`; a missing tenant row makes it raise. */
  function Bump(db: Db, tenant: Option<TenantId>): Option<Db> {
    if tenant.None? then Some(db)
    else if tenant.value !in db.versions then None
    else Some(db.(versions := db.versions[tenant.value := db.versions[tenant.value] + 1]))
  }

  function Bumped(db: Db, db': Db, tenant: Option<TenantId>): (Reply, Db) {
    var b := Bump(db', tenant);
    if b.Some? then (Ok, b.value) else (Conflict, db)
  }

  /** One request of the write side.  An error rolls the whole transaction back. */
  function Commit(db: Db, w: Tenancy, tx: Transaction): (Reply, Db) {
    var tenant := TenantOf(w, tx.user);
    match tx
    case CreateAgent(u, id, name, role, bio, zone, mode) =>
      if id in db.agents then (Conflict, db)
      else Bumped(db, db.(agents := db.agents[id := AgentRow(u, tenant, name, role, bio, zone, mode, 1)]), tenant)
    case UpdateAgent(u, id, patch) =>
      if id !in db.agents then (NotFound, db)
      else if db.agents[id].owner != u then (NotYours, db)
      else Bumped(db, db.(agents := db.agents[id := Patched(db.agents[id], patch)]), tenant)
    case DeleteAgent(u, id) =>
      if id !in db.agents then (NotFound, db)
      else if db.agents[id].owner != u then (NotYours, db)
      else Bumped(db, db.(agents := db.agents - {id}), tenant)
    case PutPolicy(u, zone, egress) =>
      if tenant.None? then (NoTenant, db)
      else
        var p := if tenant.value in db.policies then db.policies[tenant.value] else DEFAULT_POLICY;
        var p' := Policy(p.version + 1, Or(zone, p.zone), Or(egress, p.egress));
        Bumped(db, db.(policies := db.policies[tenant.value := p']), tenant)
    case GetPolicy(u) =>
      if tenant.None? then (NoTenant, db)
      else if tenant.value in db.policies then (Ok, db)
      else (Ok, db.(policies := db.policies[tenant.value := DEFAULT_POLICY]))
  }

  // ---- the protocol ----

  type RequestId = nat
  type ClientId = nat

  /** What a desktop keeps from the last full payload it received. */
  datatype Cache = Cache(user: UserId, version: nat, agents: Agents, guards: Guards)

  datatype Answer = NotModified(version: nat) | Full(payload: Cache)

  datatype Pc =
    | Start
    | GotVersion(version: nat)
    | GotAgents(version: nat, agents: Agents)
    | Answered(answer: Answer)

  /** `basis` is the cache a `/sync` poll was sent from; `/bootstrap` has none. */
  datatype Request = Request(client: ClientId, user: UserId, basis: Option<Cache>, pc: Pc)

  datatype State = State(db: Db, requests: map<RequestId, Request>, clients: map<ClientId, Cache>)

  datatype Label =
    | Write(tx: Transaction)
    | Bootstrap(r: RequestId, client: ClientId, user: UserId)
    | Poll(r: RequestId, client: ClientId)
    | ReadVersion(r: RequestId)
    | ReadAgents(r: RequestId)
    | ReadPolicy(r: RequestId)
    | Deliver(r: RequestId)

  predicate At(s: State, r: RequestId) { r in s.requests }

  predicate Enabled(s: State, l: Label) {
    match l
    case Write(_) => true
    case Bootstrap(r, _, _) => !At(s, r)
    case Poll(r, client) => !At(s, r) && client in s.clients
    case ReadVersion(r) => At(s, r) && s.requests[r].pc.Start?
    case ReadAgents(r) => At(s, r) && s.requests[r].pc.GotVersion?
    case ReadPolicy(r) => At(s, r) && s.requests[r].pc.GotAgents?
    case Deliver(r) => At(s, r) && s.requests[r].pc.Answered?
  }

  /** `/sync` answers not_modified when the client's version is not behind. */
  predicate AnswersNotModified(s: State, w: Tenancy, r: RequestId)
    requires At(s, r)
  {
    var q := s.requests[r];
    q.basis.Some? && q.basis.value.version >= SyncVersion(s.db, TenantOf(w, q.user))
  }

  function Advance(s: State, r: RequestId, pc: Pc): State
    requires At(s, r)
  {
    s.(requests := s.requests[r := s.requests[r].(pc := pc)])
  }

  function Effect(s: State, w: Tenancy, l: Label): State
    requires Enabled(s, l)
  {
    match l
    case Write(tx) => s.(db := Commit(s.db, w, tx).1)
    case Bootstrap(r, client, user) => s.(requests := s.requests[r := Request(client, user, None, Start)])
    case Poll(r, client) =>
      s.(requests := s.requests[r := Request(client, s.clients[client].user, Some(s.clients[client]), Start)])
    case ReadVersion(r) =>
      var v := SyncVersion(s.db, TenantOf(w, s.requests[r].user));
      Advance(s, r, if AnswersNotModified(s, w, r) then Answered(NotModified(v)) else GotVersion(v))
    case ReadAgents(r) =>
      var q := s.requests[r];
      Advance(s, r, GotAgents(q.pc.version, UserAgents(s.db, w, q.user)))
    case ReadPolicy(r) =>
      var q := s.requests[r];
      var guards := GuardsOf(GuardPolicy(s.db, TenantOf(w, q.user)));
      Advance(s, r, Answered(Full(Cache(q.user, q.pc.version, q.pc.agents, guards))))
    case Deliver(r) =>
      var q := s.requests[r];
      State(s.db, s.requests - {r},
            if q.pc.answer.Full? then s.clients[q.client := q.pc.answer.payload] else s.clients)
  }

  ghost predicate Init(s: State) {
    s.requests == map[] && s.clients == map[]
  }

  datatype Run = Run(states: seq<State>, labels: seq<Label>)

  ghost predicate IsRun(r: Run, w: Tenancy) {
    && |r.states| == |r.labels| + 1
    && Init(r.states[0])
    && (forall i | 0 <= i < |r.labels| :: IsStep(r, w, i))
  }

  ghost predicate IsStep(r: Run, w: Tenancy, i: nat)
    requires |r.states| == |r.labels| + 1 && i < |r.labels|
  {
    Enabled(r.states[i], r.labels[i]) && r.states[i + 1] == Effect(r.states[i], w, r.labels[i])
  }

  // ---- soundness ----

  /** The parts a request or a client holds are those of a database that was at
      least at `version`: as long as the server is still there, they are current. */
  ghost predicate AgentsFresh(db: Db, w: Tenancy, u: UserId, version: nat, agents: Agents) {
    && version <= SyncVersion(db, TenantOf(w, u))
    && (version == SyncVersion(db, TenantOf(w, u)) ==> agents == UserAgents(db, w, u))
  }

  ghost predicate GuardsFresh(db: Db, w: Tenancy, u: UserId, version: nat, guards: Guards) {
    && version <= SyncVersion(db, TenantOf(w, u))
    && (version == SyncVersion(db, TenantOf(w, u)) ==> guards == GuardsOf(GuardPolicy(db, TenantOf(w, u))))
  }

  ghost predicate Fresh(db: Db, w: Tenancy, c: Cache) {
    AgentsFresh(db, w, c.user, c.version, c.agents) && GuardsFresh(db, w, c.user, c.version, c.guards)
  }

  ghost predicate RequestInv(db: Db, w: Tenancy, q: Request) {
    && (q.pc.Answered? && q.pc.answer.Full? ==> q.pc.answer.payload.user == q.user)
    && (q.user in w ==>
      && (q.basis.Some? ==> q.basis.value.user == q.user && Fresh(db, w, q.basis.value))
      && match q.pc
         case Start => true
         case GotVersion(v) => v <= SyncVersion(db, TenantOf(w, q.user))
         case GotAgents(v, agents) => AgentsFresh(db, w, q.user, v, agents)
         case Answered(NotModified(v)) => v <= SyncVersion(db, TenantOf(w, q.user))
         case Answered(Full(c)) => Fresh(db, w, c))
  }

  ghost predicate Inv(s: State, w: Tenancy) {
    && (forall r | r in s.requests :: RequestInv(s.db, w, s.requests[r]))
    && (forall c | c in s.clients && s.clients[c].user in w :: Fresh(s.db, w, s.clients[c]))
  }

  /** All that the user sees is as it was. */
  ghost predicate SeesSame(db: Db, db': Db, w: Tenancy, u: UserId) {
    && SyncVersion(db', TenantOf(w, u)) == SyncVersion(db, TenantOf(w, u))
    && UserAgents(db', w, u) == UserAgents(db, w, u)
    && GuardsOf(GuardPolicy(db', TenantOf(w, u))) == GuardsOf(GuardPolicy(db, TenantOf(w, u)))
  }

  /** A transaction that changes agents bumps the version of its user's tenant or is
      rolled back. */
  lemma BumpedSees(db: Db, agents: map<AgentId, AgentRow>, w: Tenancy, owner: UserId, u: UserId)
    requires u in w
    requires u != owner ==> UserAgents(db.(agents := agents), w, u) == UserAgents(db, w, u)
    ensures var db' := Bumped(db, db.(agents := agents), TenantOf(w, owner)).1;
            SyncVersion(db', TenantOf(w, u)) > SyncVersion(db, TenantOf(w, u)) || SeesSame(db, db', w, u)
  {
  }

  /** Only the owner sees the change of an agent. */
  lemma OthersSeeSame(db: Db, agents: map<AgentId, AgentRow>, w: Tenancy, owner: UserId, id: AgentId, u: UserId)
    requires u != owner && (id in db.agents ==> db.agents[id].owner == owner) && (id in agents ==> agents[id].owner == owner)
    requires agents - {id} == db.agents - {id}
    ensures UserAgents(db.(agents := agents), w, u) == UserAgents(db, w, u)
  {
    assert forall x | x != id :: (x in agents <==> x in agents - {id}) && (x in db.agents <==> x in db.agents - {id});
    assert forall x | x != id && x in agents :: agents[x] == (agents - {id})[x] == (db.agents - {id})[x] == db.agents[x];
  }

  lemma AgentWriteBumps(db: Db, w: Tenancy, tx: Transaction, u: UserId)
    requires u in w && (tx.CreateAgent? || tx.UpdateAgent? || tx.DeleteAgent?)
    ensures var db' := Commit(db, w, tx).1;
            SyncVersion(db', TenantOf(w, u)) > SyncVersion(db, TenantOf(w, u)) || SeesSame(db, db', w, u)
  {
    if Commit(db, w, tx).0.Ok? {
      var agents := Commit(db, w, tx).1.agents;
      if u != tx.user {
        OthersSeeSame(db, agents, w, tx.user, tx.id, u);
      }
      BumpedSees(db, agents, w, tx.user, u);
    }
  }

  lemma PolicyWriteBumps(db: Db, w: Tenancy, tx: Transaction, u: UserId)
    requires u in w && (tx.PutPolicy? || tx.GetPolicy?)
    ensures var db' := Commit(db, w, tx).1;
            SyncVersion(db', TenantOf(w, u)) > SyncVersion(db, TenantOf(w, u)) || SeesSame(db, db', w, u)
  {
  }

  /** A transaction either leaves everything a user of a tenant sees as it was,
      or raises that tenant's version. */
  lemma CommitBumps(db: Db, w: Tenancy, tx: Transaction, u: UserId)
    requires u in w
    ensures var db' := Commit(db, w, tx).1;
            SyncVersion(db', TenantOf(w, u)) > SyncVersion(db, TenantOf(w, u)) || SeesSame(db, db', w, u)
  {
    if tx.PutPolicy? || tx.GetPolicy? {
      PolicyWriteBumps(db, w, tx, u);
    } else {
      AgentWriteBumps(db, w, tx, u);
    }
  }

  lemma WriteKeepsInv(s: State, w: Tenancy, tx: Transaction)
    requires Inv(s, w)
    ensures Inv(Effect(s, w, Write(tx)), w)
  {
    var s' := Effect(s, w, Write(tx));
    forall u | u in w
      ensures SyncVersion(s'.db, TenantOf(w, u)) >= SyncVersion(s.db, TenantOf(w, u))
      ensures SyncVersion(s'.db, TenantOf(w, u)) == SyncVersion(s.db, TenantOf(w, u)) ==>
                && UserAgents(s'.db, w, u) == UserAgents(s.db, w, u)
                && GuardsOf(GuardPolicy(s'.db, TenantOf(w, u))) == GuardsOf(GuardPolicy(s.db, TenantOf(w, u)))
    {
      CommitBumps(s.db, w, tx, u);
    }
  }

  lemma StepKeepsInv(s: State, w: Tenancy, l: Label)
    requires Inv(s, w) && Enabled(s, l)
    ensures Inv(Effect(s, w, l), w)
  {
    if l.Write? {
      WriteKeepsInv(s, w, l.tx);
    }
  }

  lemma {:induction false} RunInv(r: Run, w: Tenancy, i: nat)
    requires IsRun(r, w) && i < |r.states|
    ensures Inv(r.states[i], w)
  {
    if i > 0 {
      RunInv(r, w, i - 1);
      assert IsStep(r, w, i - 1);
      StepKeepsInv(r.states[i - 1], w, r.labels[i - 1]);
    }
  }

  /** The poll of request `q` at step `i` would be answered not_modified although
      what the client holds is not what the server has. */
  ghost predicate StaleAnswer(r: Run, w: Tenancy, i: nat, q: RequestId)
    requires |r.states| == |r.labels| + 1 && i < |r.labels|
  {
    && IsStep(r, w, i) && r.labels[i] == ReadVersion(q)
    && AnswersNotModified(r.states[i], w, q)
    && var basis := r.states[i].requests[q].basis.value;
       basis.agents != UserAgents(r.states[i].db, w, basis.user)
       || basis.guards != GuardsOf(GuardPolicy(r.states[i].db, TenantOf(w, basis.user)))
  }

  /** Soundness under torn reads: however writers commit between the parts of a
      read, not_modified means the client's agents and guards are the server's. */
  lemma NotModifiedIsCurrent(r: Run, w: Tenancy, i: nat, q: RequestId)
    requires IsRun(r, w) && i < |r.labels| && r.labels[i] == ReadVersion(q)
    requires IsStep(r, w, i) && r.states[i].requests[q].user in w
    ensures !StaleAnswer(r, w, i, q)
  {
    RunInv(r, w, i);
  }

  /** The version a client holds never exceeds the server's. */
  lemma ClientNeverAhead(r: Run, w: Tenancy, i: nat, c: ClientId)
    requires IsRun(r, w) && i < |r.states| && c in r.states[i].clients && r.states[i].clients[c].user in w
    ensures r.states[i].clients[c].version <= SyncVersion(r.states[i].db, TenantOf(w, r.states[i].clients[c].user))
  {
    RunInv(r, w, i);
  }

  // ---- users without a tenant ----

  function Extend(r: Run, w: Tenancy, l: Label): (r': Run)
    requires |r.states| == |r.labels| + 1 && Enabled(r.states[|r.labels|], l)
    ensures |r'.states| == |r'.labels| + 1 && |r'.labels| == |r.labels| + 1
    ensures r'.states[|r'.labels|] == Effect(r.states[|r.labels|], w, l)
  {
    Run(r.states + [Effect(r.states[|r.labels|], w, l)], r.labels + [l])
  }

  lemma ExtendIsRun(r: Run, w: Tenancy, l: Label)
    requires IsRun(r, w) && Enabled(r.states[|r.labels|], l)
    ensures IsRun(Extend(r, w, l), w)
  {
    var r' := Extend(r, w, l);
    assert forall i | 0 <= i < |r.labels| :: IsStep(r, w, i) ==> IsStep(r', w, i);
    assert IsStep(r', w, |r.labels|);
  }

  /** A bootstrap with nothing in between hands the client the current view. */
  lemma Bootstrapped(w: Tenancy, u: UserId, db: Db) returns (r: Run)
    ensures IsRun(r, w)
    ensures r.states[|r.labels|] ==
            State(db, map[], map[0 := Cache(u, SyncVersion(db, TenantOf(w, u)), UserAgents(db, w, u),
                                            GuardsOf(GuardPolicy(db, TenantOf(w, u))))])
    ensures r.states[0] == State(db, map[], map[])
  {
    r := Run([State(db, map[], map[])], []);
    r := Played(r, w, Bootstrap(0, 0, u));
    r := Played(r, w, ReadVersion(0));
    r := Played(r, w, ReadAgents(0));
    r := Played(r, w, ReadPolicy(0));
    r := Played(r, w, Deliver(0));
  }

  /** Bootstrap, then an agent is created, then a poll: without a tenant nothing
      bumps a version, so the poll is answered not_modified. */
  lemma TenantlessGoesStale(w: Tenancy, u: UserId) returns (r: Run, i: nat, q: RequestId)
    requires u !in w
    ensures IsRun(r, w) && i < |r.labels| && StaleAnswer(r, w, i, q)
    ensures r.states[i].requests[q].user == u
  {
    var db := Db(map[], map[], map[]);
    r := Bootstrapped(w, u, db);
    assert UserAgents(db, w, u) == map[];
    var tx := CreateAgent(u, 7, "n", "", None, "standard", "standard");
    r := Played(r, w, Write(tx));
    assert 7 in UserAgents(r.states[|r.labels|].db, w, u);
    r := Played(r, w, Poll(1, 0));
    i, q := |r.labels|, 1;
    r := Played(r, w, ReadVersion(1));
    assert IsStep(r, w, i);
  }

  lemma Played(r: Run, w: Tenancy, l: Label) returns (r': Run)
    requires IsRun(r, w) && Enabled(r.states[|r.labels|], l)
    ensures r' == Extend(r, w, l) && IsRun(r', w)
    ensures r'.states[|r.labels|] == r.states[|r.labels|] && r'.labels[|r.labels|] == l
  {
    r' := Extend(r, w, l);
    ExtendIsRun(r, w, l);
  }

  ghost predicate SyncSoundFor(w: Tenancy, u: UserId) {
    forall r: Run, i: nat, q: RequestId ::
      IsRun(r, w) && i < |r.labels| && q in r.states[i].requests && r.states[i].requests[q].user == u
      ==> !StaleAnswer(r, w, i, q)
  }

  /** Polling is sound exactly for the users that belong to a tenant. */
  lemma SyncSoundIffTenant(w: Tenancy, u: UserId)
    ensures SyncSoundFor(w, u) <==> u in w
  {
    if u in w {
      forall r: Run, i: nat, q: RequestId
        | IsRun(r, w) && i < |r.labels| && q in r.states[i].requests && r.states[i].requests[q].user == u
        ensures !StaleAnswer(r, w, i, q)
      {
        if StaleAnswer(r, w, i, q) {
          NotModifiedIsCurrent(r, w, i, q);
        }
      }
    } else {
      var r, i, q := TenantlessGoesStale(w, u);
    }
  }

  /** A plain GET of the policy is invisible in the guards and in the version,
      and changes the policy's own version number exactly when it creates the row. */
  lemma GetPolicyIsSilent(db: Db, w: Tenancy, u: UserId)
    requires u in w
    ensures var db' := Commit(db, w, GetPolicy(u)).1; var t := TenantOf(w, u);
            && SyncVersion(db', t) == SyncVersion(db, t)
            && GuardsOf(GuardPolicy(db', t)) == GuardsOf(GuardPolicy(db, t))
            && (GuardPolicy(db', t).version != GuardPolicy(db, t).version
                <==> t.value !in db.policies)
  {
  }
}
