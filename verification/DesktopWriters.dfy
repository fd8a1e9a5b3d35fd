/** The write side of the desktop protocol in the source's own form: each request
    edits rows in place, bumps the tenant version, and commits or rolls back. */
module DesktopWriters {
  import opened Common
  import opened DesktopSync

  class Session {
    var versions: map<TenantId, nat>
    var agents: map<AgentId, AgentRow>
    var policies: map<TenantId, Policy>
    const tenancy: Tenancy

    constructor (db: Db, tenancy: Tenancy)
      ensures AsDb() == db && this.tenancy == tenancy
    {
      versions, agents, policies := db.versions, db.agents, db.policies;
      this.tenancy := tenancy;
    }

    function AsDb(): Db
      reads this
    {
      Db(versions, agents, policies)
    }

    method Rollback(saved: Db)
      modifies this
      ensures AsDb() == saved
    {
      versions, agents, policies := saved.versions, saved.agents, saved.policies;
    }

    /** `bump_sync_version`; false stands for the exception on a missing row. */
    method BumpSyncVersion(tenant: Option<TenantId>) returns (ok: bool)
      modifies this`versions
      ensures ok <==> Bump(old(AsDb()), tenant).Some?
      ensures AsDb() == if ok then Bump(old(AsDb()), tenant).value else old(AsDb())
    {
      if tenant.None? {
        return true;
      }
      if tenant.value !in versions {
        return false;
      }
      versions := versions[tenant.value := versions[tenant.value] + 1];
      return true;
    }

    method BumpOrRollback(tenant: Option<TenantId>, saved: Db) returns (reply: Reply)
      modifies this
      ensures (reply, AsDb()) == Bumped(saved, old(AsDb()), tenant)
    {
      var ok := BumpSyncVersion(tenant);
      if ok {
        return Ok;
      }
      Rollback(saved);
      return Conflict;
    }

    /** `_get_or_create_policy` */
    method GetOrCreatePolicy(tenant: TenantId) returns (p: Policy)
      modifies this`policies
      ensures policies == if tenant in old(policies) then old(policies) else old(policies)[tenant := DEFAULT_POLICY]
      ensures tenant in policies && p == policies[tenant]
    {
      if tenant !in policies {
        policies := policies[tenant := DEFAULT_POLICY];
      }
      p := policies[tenant];
    }

    method UpdateGuardPolicy(user: UserId, zone: Option<Guard>, egress: Option<Guard>) returns (reply: Reply)
      modifies this
      ensures (reply, AsDb()) == Commit(old(AsDb()), tenancy, PutPolicy(user, zone, egress))
    {
      var tenant := TenantOf(tenancy, user);
      if tenant.None? {
        return NoTenant;
      }
      var saved := AsDb();
      var p := GetOrCreatePolicy(tenant.value);
      if zone.Some? {
        p := p.(zone := zone.value);
      }
      if egress.Some? {
        p := p.(egress := egress.value);
      }
      p := p.(version := p.version + 1);
      policies := policies[tenant.value := p];
      assert policies == saved.policies[tenant.value := p];
      reply := BumpOrRollback(tenant, saved);
    }

    method CreateSubAgent(user: UserId, id: AgentId, name: string, role: string, bio: Option<string>,
                          zone: string, mode: string) returns (reply: Reply)
      modifies this
      ensures (reply, AsDb()) == Commit(old(AsDb()), tenancy, CreateAgent(user, id, name, role, bio, zone, mode))
    {
      if id in agents {
        return Conflict;
      }
      var saved := AsDb();
      var tenant := TenantOf(tenancy, user);
      agents := agents[id := AgentRow(user, tenant, name, role, bio, zone, mode, 1)];
      reply := BumpOrRollback(tenant, saved);
    }

    /** `_get_own_agent` */
    method GetOwnAgent(user: UserId, id: AgentId) returns (refusal: Option<Reply>)
      ensures refusal == if id !in agents then Some(NotFound)
                         else if agents[id].owner != user then Some(NotYours) else None
    {
      if id !in agents {
        return Some(NotFound);
      }
      if agents[id].owner != user {
        return Some(NotYours);
      }
      return None;
    }

    method UpdateSubAgent(user: UserId, id: AgentId, patch: Patch) returns (reply: Reply)
      modifies this
      ensures (reply, AsDb()) == Commit(old(AsDb()), tenancy, UpdateAgent(user, id, patch))
    {
      var refusal := GetOwnAgent(user, id);
      if refusal.Some? {
        return refusal.value;
      }
      var saved := AsDb();
      var a := agents[id];
      if patch.name.Some? { a := a.(name := patch.name.value); }
      if patch.role.Some? { a := a.(role := patch.role.value); }
      if patch.bio.Some? { a := a.(bio := patch.bio.value); }
      if patch.zone.Some? { a := a.(zone := patch.zone.value); }
      if patch.executionMode.Some? { a := a.(executionMode := patch.executionMode.value); }
      a := a.(configVersion := a.configVersion + 1);
      agents := agents[id := a];
      reply := BumpOrRollback(TenantOf(tenancy, user), saved);
    }

    method DeleteSubAgent(user: UserId, id: AgentId) returns (reply: Reply)
      modifies this
      ensures (reply, AsDb()) == Commit(old(AsDb()), tenancy, DeleteAgent(user, id))
    {
      var refusal := GetOwnAgent(user, id);
      if refusal.Some? {
        return refusal.value;
      }
      var saved := AsDb();
      agents := agents - {id};
      reply := BumpOrRollback(TenantOf(tenancy, user), saved);
    }
  }
}
