/** What each write of the desktop protocol stores and what a reader then sees, field by
    field. */
module DesktopEffects {
  import opened Common
  import opened DesktopSync

  // ---- what a write stores ----

  /** A write of `u` is refused, or counts one more version of the tenant of `u`, if `u`
      has one; no other version changes. */
  ghost predicate CountsOne(db: Db, db': Db, w: Tenancy, u: UserId) {
    && (u in w ==> w[u] in db.versions)
    && db'.versions.Keys == db.versions.Keys
    && (forall t | t in db.versions :: db'.versions[t] == db.versions[t] + if u in w && t == w[u] then 1 else 0)
  }

  /** Whatever fails leaves everything as it was. */
  lemma FailureChangesNothing(db: Db, w: Tenancy, tx: Transaction)
    ensures Commit(db, w, tx).0 != Ok ==> Commit(db, w, tx).1 == db
  {
  }

  /** A write of an agent fails without the agent, for another owner, for an id in use, or
      for a tenant without a row, and in no other case. */
  lemma AgentWriteSucceedsIff(db: Db, w: Tenancy, tx: Transaction)
    requires tx.CreateAgent? || tx.UpdateAgent? || tx.DeleteAgent?
    ensures Commit(db, w, tx).0 == Ok <==>
            && (tx.user in w ==> w[tx.user] in db.versions)
            && (if tx.CreateAgent? then tx.id !in db.agents else tx.id in db.agents && db.agents[tx.id].owner == tx.user)
    ensures Commit(db, w, tx).0 == NotFound <==> !tx.CreateAgent? && tx.id !in db.agents
    ensures Commit(db, w, tx).0 == NotYours <==> !tx.CreateAgent? && tx.id in db.agents && db.agents[tx.id].owner != tx.user
    ensures Commit(db, w, tx).0 != NoTenant
  {
  }

  /** The rows of all other agents, and all policies, are as they were. */
  ghost predicate OnlyAgent(db: Db, db': Db, id: AgentId) {
    && db'.policies == db.policies
    && (forall x | x != id :: (x in db'.agents <==> x in db.agents) && (x in db.agents ==> db'.agents[x] == db.agents[x]))
  }

  lemma CreateStores(db: Db, w: Tenancy, u: UserId, id: AgentId, name: string, role: string, bio: Option<string>,
                     zone: string, mode: string)
    requires Commit(db, w, CreateAgent(u, id, name, role, bio, zone, mode)).0 == Ok
    ensures var db' := Commit(db, w, CreateAgent(u, id, name, role, bio, zone, mode)).1;
            && CountsOne(db, db', w, u) && OnlyAgent(db, db', id) && id !in db.agents && id in db'.agents
            && var a := db'.agents[id];
               && a.owner == u && a.tenant == (if u in w then Some(w[u]) else None)
               && a.name == name && a.role == role && a.bio == bio && a.zone == zone && a.executionMode == mode
               && a.configVersion == 1
  {
  }

  lemma UpdateStores(db: Db, w: Tenancy, u: UserId, id: AgentId, patch: Patch)
    requires Commit(db, w, UpdateAgent(u, id, patch)).0 == Ok
    ensures var db' := Commit(db, w, UpdateAgent(u, id, patch)).1;
            && CountsOne(db, db', w, u) && OnlyAgent(db, db', id) && id in db.agents && id in db'.agents
            && var a, a' := db.agents[id], db'.agents[id];
               && a.owner == u && a'.owner == u && a'.tenant == a.tenant && a'.configVersion == a.configVersion + 1
               && (if patch.name.Some? then a'.name == patch.name.value else a'.name == a.name)
               && (if patch.role.Some? then a'.role == patch.role.value else a'.role == a.role)
               && (if patch.bio.Some? then a'.bio == patch.bio.value else a'.bio == a.bio)
               && (if patch.zone.Some? then a'.zone == patch.zone.value else a'.zone == a.zone)
               && (if patch.executionMode.Some? then a'.executionMode == patch.executionMode.value
                   else a'.executionMode == a.executionMode)
  {
  }

  lemma DeleteStores(db: Db, w: Tenancy, u: UserId, id: AgentId)
    requires Commit(db, w, DeleteAgent(u, id)).0 == Ok
    ensures var db' := Commit(db, w, DeleteAgent(u, id)).1;
            CountsOne(db, db', w, u) && OnlyAgent(db, db', id) && id in db.agents && id !in db'.agents
  {
  }

  /** The stored guards of a tenant, `{}` without a row. */
  function ZoneGuard(db: Db, t: TenantId): Guard {
    if t in db.policies then db.policies[t].zone else "{}"
  }

  function EgressGuard(db: Db, t: TenantId): Guard {
    if t in db.policies then db.policies[t].egress else "{}"
  }

  /** A PUT stores each guard it is given under its own name, keeps the other, counts the
      policy's version from 1 on, and touches no other tenant and no agent. */
  lemma PutPolicyStores(db: Db, w: Tenancy, u: UserId, zone: Option<Guard>, egress: Option<Guard>, t: TenantId)
    ensures Commit(db, w, PutPolicy(u, zone, egress)).0 == Ok <==> u in w && w[u] in db.versions
    ensures Commit(db, w, PutPolicy(u, zone, egress)).0 == NoTenant <==> u !in w
    ensures Commit(db, w, PutPolicy(u, zone, egress)).0 == Ok ==>
              var db' := Commit(db, w, PutPolicy(u, zone, egress)).1;
              && CountsOne(db, db', w, u) && db'.agents == db.agents
              && (if t == w[u] then
                    && t in db'.policies
                    && db'.policies[t].zone == (if zone.Some? then zone.value else ZoneGuard(db, t))
                    && db'.policies[t].egress == (if egress.Some? then egress.value else EgressGuard(db, t))
                    && db'.policies[t].version == if t in db.policies then db.policies[t].version + 1 else 2
                  else (t in db'.policies <==> t in db.policies) && (t in db.policies ==> db'.policies[t] == db.policies[t]))
  {
  }

  /** A GET stores at most the default row. */
  lemma GetPolicyStores(db: Db, w: Tenancy, u: UserId)
    ensures var db' := Commit(db, w, GetPolicy(u)).1;
            && Commit(db, w, GetPolicy(u)).0 == (if u in w then Ok else NoTenant)
            && db'.versions == db.versions && db'.agents == db.agents
            && db'.policies == if u in w && w[u] !in db.policies then db.policies[w[u] := Policy(1, "{}", "{}")] else db.policies
  {
  }

  // ---- what a reader sees ----

  /** The user's own agents in the user's own tenant, each column under its own name. */
  ghost predicate ShowsAgents(db: Db, w: Tenancy, u: UserId, agents: Agents) {
    && (forall id :: id in agents <==>
          && id in db.agents && db.agents[id].owner == u
          && db.agents[id].tenant == (if u in w then Some(w[u]) else None))
    && (forall id | id in agents && id in db.agents ::
          && agents[id].name == db.agents[id].name && agents[id].role == db.agents[id].role
          && agents[id].bio == db.agents[id].bio && agents[id].zone == db.agents[id].zone
          && agents[id].configVersion == db.agents[id].configVersion)
  }

  ghost predicate ShowsGuards(db: Db, w: Tenancy, u: UserId, guards: Guards) {
    && guards.zone == (if u in w then ZoneGuard(db, w[u]) else "{}")
    && guards.egress == (if u in w then EgressGuard(db, w[u]) else "{}")
  }

  ghost predicate ShowsVersion(db: Db, w: Tenancy, u: UserId, version: nat) {
    version == if u in w && w[u] in db.versions then db.versions[w[u]] else 0
  }

  /** All that the client has is what the database holds for its user. */
  ghost predicate Shows(db: Db, w: Tenancy, c: Cache) {
    ShowsVersion(db, w, c.user, c.version) && ShowsAgents(db, w, c.user, c.agents) && ShowsGuards(db, w, c.user, c.guards)
  }

  lemma ViewShows(db: Db, w: Tenancy, u: UserId)
    ensures ShowsVersion(db, w, u, SyncVersion(db, TenantOf(w, u)))
    ensures ShowsAgents(db, w, u, UserAgents(db, w, u))
    ensures ShowsGuards(db, w, u, GuardsOf(GuardPolicy(db, TenantOf(w, u))))
  {
  }

  /** Two views of one database are one. */
  lemma ShowsOnce(db: Db, w: Tenancy, c: Cache, d: Cache)
    requires Shows(db, w, c) && Shows(db, w, d) && c.user == d.user
    ensures c == d
  {
    forall id | id in c.agents
      ensures id in d.agents && c.agents[id] == d.agents[id]
    {
    }
    assert c.agents == d.agents;
  }

  /** Each part of a read is what the database holds when that part is read, and the
      payload is made of these parts. */
  lemma ReadsShow(s: State, w: Tenancy, r: RequestId)
    requires r in s.requests
    ensures Enabled(s, ReadVersion(r)) ==>
              var q, pc := s.requests[r], Effect(s, w, ReadVersion(r)).requests[r].pc;
              if pc.GotVersion? then
                && ShowsVersion(s.db, w, q.user, pc.version)
                && (q.basis.Some? ==> q.basis.value.version < pc.version)
              else
                && pc.Answered? && pc.answer.NotModified? && ShowsVersion(s.db, w, q.user, pc.answer.version)
                && q.basis.Some? && q.basis.value.version >= pc.answer.version
    ensures Enabled(s, ReadAgents(r)) ==>
              var q, pc := s.requests[r], Effect(s, w, ReadAgents(r)).requests[r].pc;
              pc.GotAgents? && pc.version == q.pc.version && ShowsAgents(s.db, w, q.user, pc.agents)
    ensures Enabled(s, ReadPolicy(r)) ==>
              var q, pc := s.requests[r], Effect(s, w, ReadPolicy(r)).requests[r].pc;
              && pc.Answered? && pc.answer.Full?
              && var c := pc.answer.payload;
                 c.user == q.user && c.version == q.pc.version && c.agents == q.pc.agents && ShowsGuards(s.db, w, q.user, c.guards)
    ensures Enabled(s, Deliver(r)) ==>
              var q, s' := s.requests[r], Effect(s, w, Deliver(r));
              && r !in s'.requests && s'.db == s.db
              && s'.clients == if q.pc.answer.Full? then s.clients[q.client := q.pc.answer.payload] else s.clients
  {
    var q := s.requests[r];
    ViewShows(s.db, w, q.user);
  }

  /** Under torn reads too: a poll of a user with a tenant that is answered not_modified
      leaves the client with just what the database holds. */
  lemma NotModifiedShows(r: Run, w: Tenancy, i: nat, q: RequestId)
    requires IsRun(r, w) && i < |r.labels| && r.labels[i] == ReadVersion(q) && IsStep(r, w, i)
    requires r.states[i].requests[q].user in w
    requires r.states[i + 1].requests[q].pc.Answered?
    ensures var basis := r.states[i].requests[q].basis;
            && basis.Some? && basis.value.user == r.states[i].requests[q].user
            && ShowsAgents(r.states[i].db, w, basis.value.user, basis.value.agents)
            && ShowsGuards(r.states[i].db, w, basis.value.user, basis.value.guards)
  {
    RunInv(r, w, i);
    NotModifiedIsCurrent(r, w, i, q);
    ViewShows(r.states[i].db, w, r.states[i].requests[q].user);
  }

  /** After any write, a bootstrap with nothing in between gives the client exactly what the
      database now holds for its user. */
  lemma WrittenIsRead(db: Db, w: Tenancy, tx: Transaction, u: UserId) returns (r: Run)
    ensures IsRun(r, w) && r.states[0].db == Commit(db, w, tx).1 && r.states[|r.labels|].db == r.states[0].db
    ensures 0 in r.states[|r.labels|].clients
    ensures r.states[|r.labels|].clients[0].user == u
    ensures Shows(r.states[|r.labels|].db, w, r.states[|r.labels|].clients[0])
  {
    r := Bootstrapped(w, u, Commit(db, w, tx).1);
    ViewShows(Commit(db, w, tx).1, w, u);
  }
}
