/** Merging MCP tools of one tenant that stand for the same server tool, and
    moving the agents' assignments over to the oldest of them. */
module McpMerge {
  import opened Common

  type Id = nat

  datatype Tool = Tool(tenant: Option<nat>, isMcp: bool, server: Option<string>, mcpName: Option<string>,
                       display: string, createdAt: int)

  /** A row of `agent_tools`. */
  datatype Assignment = Assignment(agent: Id, tool: Id)

  datatype Key = Structural(server: Option<string>, name: string) | Display(name: string)

  function KeyOf(t: Tool): Key {
    if t.mcpName.Some? && t.mcpName.value != "" then Structural(t.server, t.mcpName.value) else Display(t.display)
  }

  /** Two tools stand for the same server tool: same server and same name on it, or, where
      neither has such a name, the same display name. */
  predicate SameTool(a: Tool, b: Tool) {
    var aNamed, bNamed := a.mcpName.Some? && a.mcpName.value != "", b.mcpName.Some? && b.mcpName.value != "";
    if aNamed || bNamed then aNamed && bNamed && a.mcpName == b.mcpName && a.server == b.server
    else a.display == b.display
  }

  lemma KeyOfSame(a: Tool, b: Tool)
    ensures KeyOf(a) == KeyOf(b) <==> SameTool(a, b)
  {
  }

  type Tools = map<Id, Tool>
  type Rows = map<Id, Assignment>

  /** `listed` is an answer of the query: the tenant's MCP tools, oldest first. */
  ghost predicate Listing(tools: Tools, tenant: nat, listed: seq<Id>) {
    && Distinct(listed)
    && (forall t :: t in listed <==> t in tools && tools[t].isMcp && tools[t].tenant == Some(tenant))
    && (forall i, j | 0 <= i < j < |listed| :: tools[listed[i]].createdAt <= tools[listed[j]].createdAt)
  }

  predicate Known(tools: Tools, listed: seq<Id>) {
    forall t | t in listed :: t in tools
  }

  function SameKey(tools: Tools, key: Key): Id -> bool {
    (t: Id) => t in tools && KeyOf(tools[t]) == key
  }

  function Group(tools: Tools, listed: seq<Id>, key: Key): seq<Id> {
    Filter(SameKey(tools, key), listed)
  }

  /** The first, and so the oldest, listed tool with the key of `t`. */
  function Keeper(tools: Tools, listed: seq<Id>, t: Id): (k: Id)
    requires Known(tools, listed) && t in listed
    ensures k in listed && KeyOf(tools[k]) == KeyOf(tools[t])
  {
    Group(tools, listed, KeyOf(tools[t]))[0]
  }

  predicate IsDup(tools: Tools, listed: seq<Id>, t: Id)
    requires Known(tools, listed)
  {
    t in listed && Keeper(tools, listed, t) != t
  }

  function Dups(tools: Tools, listed: seq<Id>): set<Id>
    requires Known(tools, listed)
  {
    set t | t in listed && IsDup(tools, listed, t)
  }

  /** Where an assignment points once the tools in `gone` are merged. */
  function Target(tools: Tools, listed: seq<Id>, gone: set<Id>, t: Id): Id
    requires Known(tools, listed)
  {
    if t in listed && t in gone then Keeper(tools, listed, t) else t
  }

  // ---- what a merge must do to the assignments ----

  ghost predicate Unique(rows: Rows) {
    forall r, q | r in rows && q in rows && rows[r] == rows[q] :: r == q
  }

  predicate Has(rows: Rows, a: Assignment) {
    exists r | r in rows :: rows[r] == a
  }

  /** `rows'` is `rows` with every assignment of a tool in `gone` moved to its
      keeper: no row is made up, none of another tool is touched, no agent loses
      access, and no agent gets a second row. */
  ghost predicate Moved(tools: Tools, listed: seq<Id>, gone: set<Id>, rows: Rows, rows': Rows)
    requires Known(tools, listed)
  {
    && Unique(rows')
    && (forall r | r in rows' :: r in rows
          && rows'[r] == Assignment(rows[r].agent, Target(tools, listed, gone, rows[r].tool)))
    && (forall r | r in rows && rows[r].tool !in gone :: r in rows')
    && (forall r | r in rows :: Has(rows', Assignment(rows[r].agent, Target(tools, listed, gone, rows[r].tool))))
  }

  /** One duplicate merged into its keeper. */
  ghost predicate MergedInto(dup: Id, keeper: Id, rows: Rows, rows': Rows) {
    && Unique(rows')
    && (forall r | r in rows' :: r in rows
          && rows'[r] == (if rows[r].tool == dup then Assignment(rows[r].agent, keeper) else rows[r]))
    && (forall r | r in rows && rows[r].tool != dup :: r in rows')
    && (forall r | r in rows && rows[r].tool == dup :: Has(rows', Assignment(rows[r].agent, keeper)))
  }

  lemma TargetStep(tools: Tools, listed: seq<Id>, gone: set<Id>, dup: Id, t: Id)
    requires Known(tools, listed) && IsDup(tools, listed, dup) && dup !in gone
    ensures var to := Target(tools, listed, gone, t);
            && (to == dup <==> t == dup)
            && Target(tools, listed, gone + {dup}, t) == if to == dup then Keeper(tools, listed, dup) else to
  {
  }

  /** Merging one more duplicate into its keeper extends the move. */
  lemma MergeOneMore(tools: Tools, listed: seq<Id>, gone: set<Id>, dup: Id, rows0: Rows, rows: Rows, rows': Rows)
    requires Known(tools, listed) && IsDup(tools, listed, dup) && dup !in gone
    requires Moved(tools, listed, gone, rows0, rows)
    requires MergedInto(dup, Keeper(tools, listed, dup), rows, rows')
    ensures Moved(tools, listed, gone + {dup}, rows0, rows')
  {
    forall r | r in rows'
      ensures rows'[r] == Assignment(rows0[r].agent, Target(tools, listed, gone + {dup}, rows0[r].tool))
    {
      TargetStep(tools, listed, gone, dup, rows0[r].tool);
    }
    forall r | r in rows0
      ensures Has(rows', Assignment(rows0[r].agent, Target(tools, listed, gone + {dup}, rows0[r].tool)))
    {
      TargetStep(tools, listed, gone, dup, rows0[r].tool);
      MergeKeepsAccess(dup, Keeper(tools, listed, dup), rows, rows',
                       rows0[r].agent, Target(tools, listed, gone, rows0[r].tool));
    }
    forall r | r in rows0 && rows0[r].tool !in gone + {dup}
      ensures r in rows'
    {
      assert r in rows && rows[r].tool == rows0[r].tool;
    }
  }

  lemma MergeKeepsAccess(dup: Id, keeper: Id, rows: Rows, rows': Rows, agent: Id, t: Id)
    requires MergedInto(dup, keeper, rows, rows') && Has(rows, Assignment(agent, t))
    ensures Has(rows', Assignment(agent, if t == dup then keeper else t))
  {
  }

  // ---- the count ----

  function KeySet(tools: Tools, listed: seq<Id>): set<Key>
    requires Known(tools, listed)
  {
    set t | t in listed :: KeyOf(tools[t])
  }

  lemma KeeperOfPrefix(tools: Tools, front: seq<Id>, last: Id, t: Id)
    requires Known(tools, front + [last]) && Known(tools, front) && t in front
    ensures Keeper(tools, front + [last], t) == Keeper(tools, front, t)
  {
    FilterConcat(SameKey(tools, KeyOf(tools[t])), front, [last]);
  }

  /** The last listed tool is a duplicate exactly when its key was seen before. */
  lemma LastIsDup(tools: Tools, front: seq<Id>, last: Id)
    requires Known(tools, front + [last]) && Known(tools, front) && last !in front && last in tools
    ensures IsDup(tools, front + [last], last) <==> KeyOf(tools[last]) in KeySet(tools, front)
  {
    var key := KeyOf(tools[last]);
    var before := Group(tools, front, key);
    FilterConcat(SameKey(tools, key), front, [last]);
    assert [last][1..] == [];
    if before != [] {
      assert before[0] in before;
    }
    if key in KeySet(tools, front) {
      var t :| t in front && KeyOf(tools[t]) == key;
      assert t in before;
    }
  }

  /** Tools minus duplicates are the distinct keys. */
  lemma {:induction false} DupsAndKeys(tools: Tools, listed: seq<Id>)
    requires Known(tools, listed) && Distinct(listed)
    ensures |Dups(tools, listed)| + |KeySet(tools, listed)| == |listed|
  {
    if listed == [] {
      assert Dups(tools, listed) == {} && KeySet(tools, listed) == {};
    } else {
      var front, last := listed[..|listed| - 1], listed[|listed| - 1];
      assert listed == front + [last];
      DupsAndKeys(tools, front);
      CountsSnoc(tools, front, last);
    }
  }

  lemma CountsSnoc(tools: Tools, front: seq<Id>, last: Id)
    requires Known(tools, front + [last]) && Known(tools, front) && last !in front && last in tools
    ensures |Dups(tools, front + [last])| + |KeySet(tools, front + [last])|
         == |Dups(tools, front)| + |KeySet(tools, front)| + 1
  {
    LastIsDup(tools, front, last);
    DupsSnoc(tools, front, last);
    assert KeySet(tools, front + [last]) == KeySet(tools, front) + {KeyOf(tools[last])};
  }

  lemma DupsSnoc(tools: Tools, front: seq<Id>, last: Id)
    requires Known(tools, front + [last]) && Known(tools, front) && last !in front
    ensures Dups(tools, front + [last]) ==
            if IsDup(tools, front + [last], last) then Dups(tools, front) + {last} else Dups(tools, front)
    ensures last !in Dups(tools, front)
  {
    forall t | t in front
      ensures IsDup(tools, front + [last], t) == IsDup(tools, front, t)
    {
      KeeperOfPrefix(tools, front, last, t);
    }
  }

  // ---- the procedure ----

  /** The tools in `gone` are merged, and no other. */
  ghost predicate Merged(tools0: Tools, listed: seq<Id>, gone: set<Id>, rows0: Rows, tools: Tools, rows: Rows)
    requires Known(tools0, listed)
  {
    tools == tools0 - gone && Moved(tools0, listed, gone, rows0, rows)
  }

  lemma MergedMore(tools0: Tools, listed: seq<Id>, gone: set<Id>, dup: Id, rows0: Rows,
                   tools: Tools, rows: Rows, tools': Tools, rows': Rows)
    requires Known(tools0, listed) && IsDup(tools0, listed, dup) && dup !in gone
    requires Merged(tools0, listed, gone, rows0, tools, rows)
    requires tools' == tools - {dup} && MergedInto(dup, Keeper(tools0, listed, dup), rows, rows')
    ensures Merged(tools0, listed, gone + {dup}, rows0, tools', rows')
  {
    MergeOneMore(tools0, listed, gone, dup, rows0, rows, rows');
  }

  lemma MergeBegins(tools: Tools, listed: seq<Id>, rows: Rows)
    requires Known(tools, listed) && Unique(rows)
    ensures Merged(tools, listed, {}, rows, tools, rows)
  {
  }

  lemma NoneOutside(tools: Tools, listed: seq<Id>)
    requires Known(tools, listed)
    ensures DupsOutside(tools, listed, KeySet(tools, listed)) == {}
    ensures DupsOutside(tools, listed, {}) == Dups(tools, listed)
  {
  }

  lemma MemberIsNew(group: seq<Id>, gone: set<Id>, i: nat)
    requires Distinct(group) && 1 <= i < |group| && forall t | t in group :: t !in gone
    ensures group[i] in group && group[i] != group[0] && group[i] !in gone + ToSet(group[1..i])
    ensures gone + ToSet(group[1..i + 1]) == gone + ToSet(group[1..i]) + {group[i]}
  {
    assert group[1..i + 1] == group[1..i] + [group[i]];
  }

  class ToolStore {
    var tools: Tools
    var rows: Rows

    constructor (tools: Tools, rows: Rows)
      ensures this.tools == tools && this.rows == rows
    {
      this.tools, this.rows := tools, rows;
    }

    /** The body of the loop over one duplicate: repoint each of its assignments
        unless the agent has the keeper already, then drop the tool. */
    method MergeDup(dup: Id, keeper: Id)
      requires Unique(rows) && dup != keeper
      modifies this
      ensures tools == old(tools) - {dup}
      ensures MergedInto(dup, keeper, old(rows), rows)
    {
      var todo := set r | r in rows && rows[r].tool == dup;
      while todo != {}
        invariant tools == old(tools)
        invariant Partway(dup, keeper, old(rows), rows, todo)
        decreases todo
      {
        var r :| r in todo;
        var moved := Assignment(rows[r].agent, keeper);
        PartwayStep(dup, keeper, old(rows), rows, todo, r);
        if !Has(rows, moved) {
          rows := rows[r := moved];
        } else {
          rows := rows - {r};
        }
        todo := todo - {r};
      }
      tools := tools - {dup};
    }

    /** The inner loop: merge every later member of a group into the first. */
    method MergeGroup(group: seq<Id>, ghost tools0: Tools, ghost listed: seq<Id>, ghost gone: set<Id>, ghost rows0: Rows)
      returns (merged: nat)
      requires group != [] && Distinct(group) && Known(tools0, listed)
      requires forall t | t in group :: t in listed && t !in gone && Keeper(tools0, listed, t) == group[0]
      requires Merged(tools0, listed, gone, rows0, tools, rows)
      modifies this
      ensures merged == |group| - 1
      ensures Merged(tools0, listed, gone + ToSet(group[1..]), rows0, tools, rows)
    {
      merged := 0;
      ghost var sofar := gone;
      assert ToSet(group[1..1]) == {};
      for i := 1 to |group|
        invariant merged == i - 1
        invariant sofar == gone + ToSet(group[1..i])
        invariant Merged(tools0, listed, sofar, rows0, tools, rows)
      {
        ghost var toolsBefore, before := tools, rows;
        MemberIsNew(group, gone, i);
        MergeDup(group[i], group[0]);
        MergedMore(tools0, listed, sofar, group[i], rows0, toolsBefore, before, tools, rows);
        sofar := sofar + {group[i]};
        merged := merged + 1;
      }
      assert group[1..|group|] == group[1..];
    }

    /** One round of the outer loop: the group of one key. */
    method MergeKey(ghost tools0: Tools, ghost listed: seq<Id>, ghost rows0: Rows, ghost todo: set<Key>,
                    key: Key, group: seq<Id>) returns (merged: nat)
      requires Known(tools0, listed) && Distinct(listed) && key in KeySet(tools0, listed) && key in todo
      requires group == Group(tools0, listed, key)
      requires Merged(tools0, listed, DupsOutside(tools0, listed, todo), rows0, tools, rows)
      modifies this
      ensures Merged(tools0, listed, DupsOutside(tools0, listed, todo - {key}), rows0, tools, rows)
      ensures |DupsOutside(tools0, listed, todo - {key})| == |DupsOutside(tools0, listed, todo)| + merged
    {
      GroupDups(tools0, listed, key, todo);
      DistinctSize(group[1..]);
      merged := MergeGroup(group, tools0, listed, DupsOutside(tools0, listed, todo), rows0);
    }

    /** `dedup_mcp_tools` for a resolved tenant, given the query's answer. */
    method DedupMcpTools(tenant: nat, listed: seq<Id>) returns (merged: nat)
      requires Listing(tools, tenant, listed) && Unique(rows)
      modifies this
      ensures Known(old(tools), listed)
      ensures tools == old(tools) - Dups(old(tools), listed)
      ensures Moved(old(tools), listed, Dups(old(tools), listed), old(rows), rows)
      ensures merged == |listed| - |KeySet(old(tools), listed)|
    {
      ghost var tools0, rows0 := tools, rows;
      var groups := map key | key in KeySet(tools, listed) :: Group(tools, listed, key);
      MergeBegins(tools0, listed, rows0);
      merged := MergeGroups(groups, tools0, listed, rows0);
      DupsAndKeys(tools0, listed);
    }

    /** The loop over the groups. */
    method MergeGroups(groups: map<Key, seq<Id>>, ghost tools0: Tools, ghost listed: seq<Id>, ghost rows0: Rows)
      returns (merged: nat)
      requires Known(tools0, listed) && Distinct(listed) && groups.Keys == KeySet(tools0, listed)
      requires forall key | key in groups :: groups[key] == Group(tools0, listed, key)
      requires Merged(tools0, listed, {}, rows0, tools, rows)
      modifies this
      ensures merged == |Dups(tools0, listed)|
      ensures Merged(tools0, listed, Dups(tools0, listed), rows0, tools, rows)
    {
      merged := 0;
      var todo := groups.Keys;
      ghost var gone: set<Id> := {};
      NoneOutside(tools0, listed);
      while todo != {}
        invariant todo <= groups.Keys
        invariant gone == DupsOutside(tools0, listed, todo) && merged == |gone|
        invariant Merged(tools0, listed, gone, rows0, tools, rows)
        decreases todo
      {
        var key :| key in todo;
        var n := MergeKey(tools0, listed, rows0, todo, key, groups[key]);
        merged := merged + n;
        todo := todo - {key};
        gone := DupsOutside(tools0, listed, todo);
      }
    }
  }

  /** The state of `rows` while the assignments in `todo` still wait. */
  ghost predicate Partway(dup: Id, keeper: Id, rows0: Rows, rows: Rows, todo: set<Id>) {
    && Unique(rows)
    && (forall r | r in todo :: r in rows && r in rows0 && rows0[r].tool == dup)
    && (forall r | r in rows :: r in rows0
          && rows[r] == if rows0[r].tool == dup && r !in todo then Assignment(rows0[r].agent, keeper) else rows0[r])
    && (forall r | r in rows0 && rows0[r].tool != dup :: r in rows)
    && (forall r | r in rows0 && rows0[r].tool == dup && r !in todo :: Has(rows, Assignment(rows0[r].agent, keeper)))
  }

  lemma PartwayStep(dup: Id, keeper: Id, rows0: Rows, rows: Rows, todo: set<Id>, r: Id)
    requires Partway(dup, keeper, rows0, rows, todo) && r in todo && dup != keeper
    ensures var moved := Assignment(rows[r].agent, keeper);
            Partway(dup, keeper, rows0, if Has(rows, moved) then rows - {r} else rows[r := moved], todo - {r})
  {
  }

  function DupsOutside(tools: Tools, listed: seq<Id>, todo: set<Key>): set<Id>
    requires Known(tools, listed)
  {
    set t | t in Dups(tools, listed) && KeyOf(tools[t]) !in todo
  }

  /** A listed tool is in the group of its key behind the first, or is the first. */
  lemma GroupMembers(tools: Tools, listed: seq<Id>, key: Key)
    requires Known(tools, listed) && Distinct(listed) && key in KeySet(tools, listed)
    ensures var group := Group(tools, listed, key);
            && group != [] && Distinct(group)
            && (forall t :: t in group <==> t in listed && KeyOf(tools[t]) == key)
            && (forall t :: t in group[1..] <==> t in group && t != group[0])
  {
    var group := Group(tools, listed, key);
    FilterDistinct(SameKey(tools, key), listed);
    var t :| t in listed && KeyOf(tools[t]) == key;
    assert t in group;
    TailDistinct(group);
  }

  /** The duplicates of one key are the group without its first member. */
  lemma GroupDups(tools: Tools, listed: seq<Id>, key: Key, todo: set<Key>)
    requires Known(tools, listed) && Distinct(listed) && key in KeySet(tools, listed) && key in todo
    ensures var group := Group(tools, listed, key); var gone := DupsOutside(tools, listed, todo);
            && group != [] && Distinct(group) && Distinct(group[1..])
            && (forall t | t in group :: t in listed && t !in gone && Keeper(tools, listed, t) == group[0])
            && gone !! ToSet(group[1..])
            && gone + ToSet(group[1..]) == DupsOutside(tools, listed, todo - {key})
  {
    var group := Group(tools, listed, key);
    GroupMembers(tools, listed, key);
    TailDistinct(group);
    forall x
      ensures x in group[1..] <==> x in Dups(tools, listed) && KeyOf(tools[x]) == key
    {
    }
  }

  // ---- consequences ----

  /** Two listed tools are merged into one exactly when they stand for the same one. */
  lemma SameKeeperIff(tools: Tools, listed: seq<Id>, a: Id, b: Id)
    requires Known(tools, listed) && a in listed && b in listed
    ensures Keeper(tools, listed, a) == Keeper(tools, listed, b) <==> SameTool(tools[a], tools[b])
  {
    KeyOfSame(tools[a], tools[b]);
  }

  ghost predicate HasEarlier(tools: Tools, listed: seq<Id>, i: nat)
    requires Known(tools, listed) && i < |listed|
  {
    exists j | 0 <= j < i :: SameTool(tools[listed[j]], tools[listed[i]])
  }

  /** The keeper of a tool is the first listed that stands for the same one. */
  lemma KeeperIsFirst(tools: Tools, listed: seq<Id>, i: nat) returns (j: nat)
    requires Known(tools, listed) && Distinct(listed) && i < |listed|
    ensures j <= i && listed[j] == Keeper(tools, listed, listed[i])
    ensures SameTool(tools[listed[j]], tools[listed[i]])
    ensures forall m | 0 <= m < j :: !SameTool(tools[listed[m]], tools[listed[i]])
  {
    var key := KeyOf(tools[listed[i]]);
    j := FirstKept(SameKey(tools, key), listed, i);
    KeyOfSame(tools[listed[j]], tools[listed[i]]);
    forall m | 0 <= m < j
      ensures !SameTool(tools[listed[m]], tools[listed[i]])
    {
      KeyOfSame(tools[listed[m]], tools[listed[i]]);
    }
  }

  lemma {:induction false} FirstKept(keep: Id -> bool, s: seq<Id>, i: nat) returns (j: nat)
    requires i < |s| && keep(s[i])
    ensures j <= i && Filter(keep, s) != [] && s[j] == Filter(keep, s)[0]
    ensures forall m | 0 <= m < j :: !keep(s[m])
  {
    if keep(s[0]) {
      j := 0;
    } else {
      j := FirstKept(keep, s[1..], i - 1);
      j := j + 1;
      assert forall m | 0 < m < j :: s[m] == s[1..][m - 1];
    }
  }

  /** The merge removes exactly the tools behind one that stands for the same. */
  lemma DupIff(tools: Tools, listed: seq<Id>, i: nat)
    requires Known(tools, listed) && Distinct(listed) && i < |listed|
    ensures listed[i] in Dups(tools, listed) <==> HasEarlier(tools, listed, i)
  {
    var j := KeeperIsFirst(tools, listed, i);
    if j < i {
      assert listed[j] != listed[i];
    }
  }

  /** After the merge an agent has exactly one row for a keeper if it had a row for
      any tool of that key, and none otherwise. */
  lemma AccessConserved(tools: Tools, tenant: nat, listed: seq<Id>, rows: Rows, rows': Rows, agent: Id, t: Id)
    requires Listing(tools, tenant, listed) && Unique(rows) && t in listed
    requires Moved(tools, listed, Dups(tools, listed), rows, rows')
    ensures var a := Assignment(agent, Keeper(tools, listed, t));
            && (Has(rows', a) <==>
                  exists r | r in rows ::
                    rows[r].agent == agent && rows[r].tool in listed && SameTool(tools[rows[r].tool], tools[t]))
            && (forall r, q | r in rows' && q in rows' && rows'[r] == a && rows'[q] == a :: r == q)
  {
    var a := Assignment(agent, Keeper(tools, listed, t));
    if Has(rows', a) {
      var r :| r in rows' && rows'[r] == a;
      SameKeeperIff(tools, listed, rows[r].tool, t);
    }
    if r :| r in rows && rows[r].agent == agent && rows[r].tool in listed && SameTool(tools[rows[r].tool], tools[t]) {
      SameKeeperIff(tools, listed, rows[r].tool, t);
      assert Keeper(tools, listed, rows[r].tool) == Keeper(tools, listed, t);
      assert Target(tools, listed, Dups(tools, listed), rows[r].tool) == Keeper(tools, listed, t);
    }
  }

  /** No assignment is left that points to a merged tool. */
  lemma NothingDangles(tools: Tools, tenant: nat, listed: seq<Id>, rows: Rows, rows': Rows)
    requires Listing(tools, tenant, listed) && Moved(tools, listed, Dups(tools, listed), rows, rows')
    ensures forall r | r in rows' :: rows'[r].tool !in Dups(tools, listed)
  {
  }

  /** What is kept of each key is the oldest tool of that key. */
  lemma KeeperIsOldest(tools: Tools, tenant: nat, listed: seq<Id>, t: Id)
    requires Listing(tools, tenant, listed) && t in listed
    ensures tools[Keeper(tools, listed, t)].createdAt <= tools[t].createdAt
  {
    var i :| 0 <= i < |listed| && listed[i] == t;
    var j := KeeperIsFirst(tools, listed, i);
  }

  /** A second run, on any answer of the query, merges nothing. */
  lemma SecondRunMergesNone(tools: Tools, tenant: nat, listed: seq<Id>, listed': seq<Id>)
    requires Listing(tools, tenant, listed)
    requires Listing(tools - Dups(tools, listed), tenant, listed')
    ensures Dups(tools - Dups(tools, listed), listed') == {}
    ensures |listed'| == |KeySet(tools - Dups(tools, listed), listed')|
  {
    var tools' := tools - Dups(tools, listed);
    forall t | t in listed'
      ensures !IsDup(tools', listed', t)
    {
      var k := Keeper(tools', listed', t);
      assert k in listed && t in listed;
      assert Keeper(tools, listed, k) == k && Keeper(tools, listed, t) == t;
    }
    DupsAndKeys(tools', listed');
  }
}
