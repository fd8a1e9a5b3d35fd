/** `get_department_tree`: the linked objects it builds in place, and what a
    reader of the returned roots sees. */
module DepartmentTree {
  import opened Common
  import opened DepartmentForest

  datatype Row = Row(id: Id, parent: Option<Id>, sortOrder: int, name: string)

  datatype User = User(department: Option<Id>, tenant: Option<nat>)

  function Ids(rows: seq<Row>): seq<Id> { seq(|rows|, i requires 0 <= i < |rows| => rows[i].id) }

  /** The parent links that stay inside `known`. */
  function Links(rows: seq<Row>, known: seq<Id>): map<Id, Id> {
    if rows == [] then map[]
    else
      var rest := Links(rows[1..], known);
      var row := rows[0];
      if row.parent.Some? && row.parent.value in known then rest[row.id := row.parent.value] else rest
  }

  function GraphOf(rows: seq<Row>): Graph { Graph(Ids(rows), Links(rows, Ids(rows))) }

  lemma {:induction false} LinksOf(rows: seq<Row>, known: seq<Id>)
    requires Distinct(Ids(rows))
    ensures forall i | 0 <= i < |rows| ::
              (rows[i].id in Links(rows, known) <==> rows[i].parent.Some? && rows[i].parent.value in known)
              && (rows[i].id in Links(rows, known) ==> Links(rows, known)[rows[i].id] == rows[i].parent.value)
    ensures forall id | id in Links(rows, known) :: id in Ids(rows)
  {
    if rows != [] {
      var tail := rows[1..];
      assert forall i | 0 <= i < |tail| :: tail[i] == rows[i + 1] && Ids(tail)[i] == Ids(rows)[i + 1];
      LinksOf(tail, known);
      assert Ids(rows)[0] == rows[0].id;
      assert forall id | id in Ids(tail) :: exists k | 0 < k < |rows| :: Ids(rows)[k] == id;
    }
  }

  lemma GraphValid(rows: seq<Row>)
    requires Distinct(Ids(rows))
    ensures Valid(GraphOf(rows))
    ensures forall i | 0 <= i < |rows| ::
              (IsRoot(GraphOf(rows), rows[i].id) <==> rows[i].parent.None? || rows[i].parent.value !in Ids(rows))
              && (rows[i].id in GraphOf(rows).up ==> GraphOf(rows).up[rows[i].id] == rows[i].parent.value)
  {
    LinksOf(rows, Ids(rows));
    var g := GraphOf(rows);
    forall id | id in g.up
      ensures id in g.order && g.up[id] in g.order
    {
      var i :| 0 <= i < |rows| && Ids(rows)[i] == id;
      assert rows[i].id == id;
    }
  }

  /** The rows after `update_department` has given row `i` the parent `p`. */
  function Moved(rows: seq<Row>, i: nat, p: Id): seq<Row>
    requires i < |rows|
  {
    rows[i := rows[i].(parent := Some(p))]
  }

  lemma MovedLinks(rows: seq<Row>, i: nat, p: Id, k: nat)
    requires Distinct(Ids(rows)) && i < |rows| && k < |rows|
    ensures Ids(Moved(rows, i, p)) == Ids(rows)
    ensures var id, up, up' := rows[k].id, GraphOf(rows).up, GraphOf(Moved(rows, i, p)).up;
            && (k != i ==> (id in up' <==> id in up) && (id in up ==> up'[id] == up[id]))
            && (k == i ==> (id in up' <==> p in Ids(rows)) && (id in up' ==> up'[id] == p))
  {
    assert Ids(Moved(rows, i, p)) == Ids(rows);
    GraphValid(rows);
    GraphValid(Moved(rows, i, p));
    assert Moved(rows, i, p)[k].id == rows[k].id;
  }

  lemma MovedAt(rows: seq<Row>, i: nat, p: Id, id: Id)
    requires Distinct(Ids(rows)) && i < |rows|
    ensures var d, up, up' := rows[i].id, GraphOf(rows).up, GraphOf(Moved(rows, i, p)).up;
            && (id != d ==> (id in up' <==> id in up) && (id in up ==> up'[id] == up[id]))
            && (id == d ==> (id in up' <==> p in Ids(rows)) && (id in up' ==> up'[id] == p))
  {
    if id in Ids(rows) {
      var k :| 0 <= k < |rows| && Ids(rows)[k] == id;
      MovedLinks(rows, i, p, k);
      assert rows[k].id == id;
    } else {
      MovedLinks(rows, i, p, i);
      NoLinks(rows, id);
      NoLinks(Moved(rows, i, p), id);
      assert Ids(rows)[i] == rows[i].id;
    }
  }

  lemma NoLinks(rows: seq<Row>, id: Id)
    requires Distinct(Ids(rows)) && id !in Ids(rows)
    ensures id !in GraphOf(rows).up
  {
    GraphValid(rows);
  }

  /** The row update moves the department in the graph: under `p` if `p` is one of the
      tenant's departments, and to the roots otherwise. */
  lemma MovedGraph(rows: seq<Row>, i: nat, p: Id)
    requires Distinct(Ids(rows)) && i < |rows|
    ensures GraphOf(Moved(rows, i, p)) ==
            if p in Ids(rows) then Reparent(GraphOf(rows), rows[i].id, p) else Detach(GraphOf(rows), rows[i].id)
  {
    var up, up', d := GraphOf(rows).up, GraphOf(Moved(rows, i, p)).up, rows[i].id;
    MovedLinks(rows, i, p, i);
    forall id
      ensures id != d ==> (id in up' <==> id in up) && (id in up ==> up'[id] == up[id])
      ensures id == d ==> (id in up' <==> p in Ids(rows)) && (id in up' ==> up'[id] == p)
    {
      MovedAt(rows, i, p, id);
    }
    assert up' == if p in Ids(rows) then up[d := p] else up - {d};
  }

  /** A patch that sets a parent keeps a forest without cycles free of them exactly when
      the parent is outside the tenant or the department is not on its chain. */
  lemma MoveAcyclicIff(rows: seq<Row>, i: nat, p: Id)
    requires Distinct(Ids(rows)) && i < |rows| && Acyclic(GraphOf(rows))
    ensures Acyclic(GraphOf(Moved(rows, i, p))) <==> p !in Ids(rows) || !Above(GraphOf(rows), rows[i].id, p)
  {
    GraphValid(rows);
    MovedGraph(rows, i, p);
    assert Ids(rows)[i] == rows[i].id;
    if p in Ids(rows) {
      ReparentAcyclicIff(GraphOf(rows), rows[i].id, p);
    } else {
      DetachAcyclicIff(GraphOf(rows), rows[i].id);
    }
  }

  // ---- member counts ----

  /** The COUNT query of one department. */
  function Members(users: seq<User>, tenant: nat, id: Id): nat {
    if users == [] then 0
    else (if users[0] == User(Some(id), Some(tenant)) then 1 else 0) + Members(users[1..], tenant, id)
  }

  function SumMembers(users: seq<User>, tenant: nat, ids: seq<Id>): nat {
    if ids == [] then 0 else Members(users, tenant, ids[0]) + SumMembers(users, tenant, ids[1..])
  }

  /** The users of the tenant whose department is one of `ids`. */
  function MembersIn(users: seq<User>, tenant: nat, ids: seq<Id>): nat {
    if users == [] then 0
    else
      (if users[0].tenant == Some(tenant) && users[0].department.Some? && users[0].department.value in ids then 1 else 0)
      + MembersIn(users[1..], tenant, ids)
  }

  lemma {:induction false} MembersInAdds(users: seq<User>, tenant: nat, id: Id, ids: seq<Id>)
    requires id !in ids
    ensures MembersIn(users, tenant, [id] + ids) == Members(users, tenant, id) + MembersIn(users, tenant, ids)
  {
    if users != [] {
      MembersInAdds(users[1..], tenant, id, ids);
    }
  }

  lemma {:induction false} MembersInNone(users: seq<User>, tenant: nat)
    ensures MembersIn(users, tenant, []) == 0
  {
    if users != [] {
      MembersInNone(users[1..], tenant);
    }
  }

  lemma {:induction false} SumIsMembersIn(users: seq<User>, tenant: nat, ids: seq<Id>)
    requires Distinct(ids)
    ensures SumMembers(users, tenant, ids) == MembersIn(users, tenant, ids)
  {
    if ids == [] {
      MembersInNone(users, tenant);
    } else {
      TailDistinct(ids);
      SumIsMembersIn(users, tenant, ids[1..]);
      MembersInAdds(users, tenant, ids[0], ids[1..]);
      assert ids == [ids[0]] + ids[1..];
    }
  }

  lemma OnceIsDistinct(s: seq<Id>)
    requires forall x: Id :: Times(x, s) <= 1
    ensures Distinct(s)
  {
    forall i, j | 0 <= i < j < |s|
      ensures s[i] != s[j]
    {
      var x := s[i];
      assert s == s[..j] + s[j..];
      assert s[..j][i] == s[i] && s[j..][0] == s[j];
      TimesConcat(x, s[..j], s[j..]);
    }
  }

  /** The counts shown in the tree add up to the tenant's users in the departments
      that are shown, each user counted once. */
  lemma ShownMembersAddUp(rows: seq<Row>, users: seq<User>, tenant: nat)
    requires Distinct(Ids(rows))
    ensures Valid(GraphOf(rows))
    ensures SumMembers(users, tenant, WalkAll(Forest(GraphOf(rows))))
            == MembersIn(users, tenant, WalkAll(Forest(GraphOf(rows))))
  {
    GraphValid(rows);
    var g := GraphOf(rows);
    var walk := WalkAll(Forest(g));
    forall x: Id
      ensures Times(x, walk) <= 1
    {
      if x in g.order {
        ForestShows(g, x);
      } else if x in walk {
        RootFacts(g);
        WalkAllReaches(g, RootIds(g), 0, x);
      }
    }
    OnceIsDistinct(walk);
    SumIsMembersIn(users, tenant, walk);
  }

  // ---- the objects ----

  class DeptNode {
    const row: Row
    const memberCount: nat
    var children: seq<DeptNode>

    constructor (row: Row, memberCount: nat)
      ensures this.row == row && this.memberCount == memberCount && children == []
    {
      this.row, this.memberCount, children := row, memberCount, [];
    }
  }

  type NodeMap = map<Id, DeptNode>

  ghost predicate IsNodeMap(nodes: NodeMap, rows: seq<Row>, users: seq<User>, tenant: nat) {
    && (forall id :: id in nodes <==> id in Ids(rows))
    && (forall i | 0 <= i < |rows| && rows[i].id in nodes ::
          nodes[rows[i].id].row == rows[i] && nodes[rows[i].id].memberCount == Members(users, tenant, rows[i].id))
  }

  function NodesAt(nodes: NodeMap, ids: seq<Id>): seq<DeptNode>
    requires forall id | id in ids :: id in nodes
  {
    seq(|ids|, i requires 0 <= i < |ids| => nodes[ids[i]])
  }

  lemma NodesAtSnoc(nodes: NodeMap, ids: seq<Id>, id: Id)
    requires id in nodes && forall x | x in ids :: x in nodes
    ensures NodesAt(nodes, ids + [id]) == NodesAt(nodes, ids) + [nodes[id]]
  {
  }

  lemma FilterSnoc(keep: Id -> bool, s: seq<Id>, i: nat)
    requires i < |s|
    ensures Filter(keep, s[..i + 1]) == Filter(keep, s[..i]) + (if keep(s[i]) then [s[i]] else [])
  {
    assert s[..i + 1] == s[..i] + [s[i]];
    FilterConcat(keep, s[..i], [s[i]]);
    assert [s[i]][1..] == [];
  }

  /** The first loop: one node per row, keyed by id. */
  method CreateNodes(rows: seq<Row>, users: seq<User>, tenant: nat) returns (nodes: NodeMap)
    requires Distinct(Ids(rows))
    ensures IsNodeMap(nodes, rows, users, tenant)
    ensures forall id | id in nodes :: fresh(nodes[id]) && nodes[id].children == []
  {
    nodes := map[];
    for i := 0 to |rows|
      invariant forall id :: id in nodes <==> id in Ids(rows)[..i]
      invariant forall k | 0 <= k < i :: rows[k].id in nodes && nodes[rows[k].id].row == rows[k]
                  && nodes[rows[k].id].memberCount == Members(users, tenant, rows[k].id)
      invariant forall id | id in nodes :: fresh(nodes[id]) && nodes[id].children == []
    {
      assert Ids(rows)[..i + 1] == Ids(rows)[..i] + [rows[i].id];
      assert forall k | 0 <= k < i :: Ids(rows)[k] != Ids(rows)[i];
      var node := new DeptNode(rows[i], Members(users, tenant, rows[i].id));
      nodes := nodes[rows[i].id := node];
    }
    assert Ids(rows)[..|rows|] == Ids(rows);
  }

  /** Every node's children are the nodes of its child ids, in row order. */
  ghost predicate Linked(nodes: NodeMap, g: Graph, upTo: seq<Id>)
    requires forall id | id in upTo :: id in nodes
    reads set id | id in nodes :: nodes[id]
  {
    forall id {:trigger nodes[id].children} | id in nodes :: nodes[id].children == NodesAt(nodes, Filter(Under(g, id), upTo))
  }

  lemma DistinctNodes(nodes: NodeMap, rows: seq<Row>, users: seq<User>, tenant: nat)
    requires IsNodeMap(nodes, rows, users, tenant)
    ensures forall x, y | x in nodes && y in nodes && x != y :: nodes[x] != nodes[y]
  {
  }

  /** How one more department changes the children of `p`. */
  lemma OneMore(g: Graph, i: nat, p: Id)
    requires i < |g.order|
    ensures g.order[..i + 1] == g.order[..i] + [g.order[i]]
    ensures Filter(Under(g, p), g.order[..i + 1])
         == Filter(Under(g, p), g.order[..i]) + (if Under(g, p)(g.order[i]) then [g.order[i]] else [])
  {
    FilterSnoc(Under(g, p), g.order, i);
    assert g.order[..i + 1] == g.order[..i] + [g.order[i]];
  }

  lemma RootStep(nodes: NodeMap, g: Graph, i: nat)
    requires i < |g.order| && (forall id | id in g.order[..i + 1] :: id in nodes) && IsRoot(g, g.order[i])
    requires (forall id | id in g.order[..i] :: id in nodes) && Linked(nodes, g, g.order[..i])
    ensures Linked(nodes, g, g.order[..i + 1])
    ensures NodesAt(nodes, Filter(AtTop(g), g.order[..i + 1]))
         == NodesAt(nodes, Filter(AtTop(g), g.order[..i])) + [nodes[g.order[i]]]
  {
    forall id | id in nodes
      ensures nodes[id].children == NodesAt(nodes, Filter(Under(g, id), g.order[..i + 1]))
    {
      OneMore(g, i, id);
    }
    FilterSnoc(AtTop(g), g.order, i);
    NodesAtSnoc(nodes, Filter(AtTop(g), g.order[..i]), g.order[i]);
  }

  /** `dept_map[node.parent_id].children.append(node)` */
  method AppendChild(ghost nodes: NodeMap, ghost g: Graph, ghost i: nat, parent: DeptNode, ghost p: Id, node: DeptNode)
    requires i < |g.order| && (forall id | id in g.order[..i + 1] :: id in nodes)
    requires (forall id | id in g.order[..i] :: id in nodes) && Linked(nodes, g, g.order[..i])
    requires g.order[i] in g.up && g.up[g.order[i]] == p && node == nodes[g.order[i]]
    requires p in nodes && parent == nodes[p]
    requires forall x, y | x in nodes && y in nodes && x != y :: nodes[x] != nodes[y]
    modifies parent`children
    ensures Linked(nodes, g, g.order[..i + 1])
    ensures Filter(AtTop(g), g.order[..i + 1]) == Filter(AtTop(g), g.order[..i])
  {
    parent.children := parent.children + [node];
    forall id | id in nodes
      ensures nodes[id].children == NodesAt(nodes, Filter(Under(g, id), g.order[..i + 1]))
    {
      OneMore(g, i, id);
      if id == p {
        NodesAtSnoc(nodes, Filter(Under(g, p), g.order[..i]), g.order[i]);
      } else {
        assert nodes[id] != parent;
      }
    }
    FilterSnoc(AtTop(g), g.order, i);
  }

  /** `get_department_tree`: link every node to its parent's `children`, or to the
      roots when the parent is absent or outside the tenant. */
  method GetDepartmentTree(rows: seq<Row>, users: seq<User>, tenant: nat)
    returns (roots: seq<DeptNode>, nodes: NodeMap)
    requires Distinct(Ids(rows))
    ensures Valid(GraphOf(rows)) && IsNodeMap(nodes, rows, users, tenant)
    ensures Faithful(nodes, GraphOf(rows))
    ensures roots == NodesAt(nodes, RootIds(GraphOf(rows)))
    ensures forall id | id in nodes :: fresh(nodes[id])
  {
    GraphValid(rows);
    ghost var g := GraphOf(rows);
    nodes := CreateNodes(rows, users, tenant);
    DistinctNodes(nodes, rows, users, tenant);
    roots := [];
    for i := 0 to |rows|
      invariant forall id | id in nodes :: fresh(nodes[id])
      invariant forall id | id in g.order[..i] :: id in nodes
      invariant Linked(nodes, g, g.order[..i])
      invariant roots == NodesAt(nodes, Filter(AtTop(g), g.order[..i]))
    {
      var row := rows[i];
      assert g.order[i] == row.id;
      if row.parent.Some? && row.parent.value in nodes {
        AppendChild(nodes, g, i, nodes[row.parent.value], row.parent.value, nodes[row.id]);
      } else {
        RootStep(nodes, g, i);
        roots := roots + [nodes[row.id]];
      }
    }
    assert g.order[..|rows|] == g.order;
    assert forall k | 0 <= k < |rows| :: g.order[k] == rows[k].id;
  }

  // ---- what a reader of the objects sees ----

  function Objects(nodes: NodeMap): set<DeptNode> {
    set x | x in nodes :: nodes[x]
  }

  /** Following `children` from `node` shows exactly the tree `t`. */
  ghost predicate Shows(node: DeptNode, t: Tree, repr: set<DeptNode>)
    reads repr
    decreases t
  {
    && node in repr && node.row.id == t.id && |node.children| == |t.children|
    && forall i | 0 <= i < |t.children| :: Shows(node.children[i], t.children[i], repr)
  }

  ghost predicate Faithful(nodes: NodeMap, g: Graph)
    reads Objects(nodes)
  {
    && (forall x | x in g.order :: x in nodes && nodes[x].row.id == x)
    && Linked(nodes, g, g.order)
  }

  ghost predicate AllShow(nodes: NodeMap, ids: seq<Id>, trees: seq<Tree>)
    reads Objects(nodes)
  {
    |trees| == |ids|
    && forall k | 0 <= k < |ids| :: ids[k] in nodes && Shows(nodes[ids[k]], trees[k], Objects(nodes))
  }

  lemma FoldShows(nodes: NodeMap, id: Id, kids: seq<Id>, trees: seq<Tree>)
    requires id in nodes && nodes[id].row.id == id && AllShow(nodes, kids, trees)
    requires (forall k | k in kids :: k in nodes) && nodes[id].children == NodesAt(nodes, kids)
    ensures Shows(nodes[id], Node(id, trees), Objects(nodes))
  {
  }

  lemma ConsShows(nodes: NodeMap, id: Id, ids: seq<Id>, t: Tree, ts: seq<Tree>)
    requires id in nodes && Shows(nodes[id], t, Objects(nodes)) && AllShow(nodes, ids, ts)
    ensures AllShow(nodes, [id] + ids, [t] + ts)
  {
  }

  lemma TreeUnfolds(g: Graph, id: Id, n: nat) returns (kids: seq<Id>, trees: seq<Tree>)
    requires Valid(g) && id in g.order && Rooted(g, id, n)
    ensures n < |g.order| && kids == ChildIds(g, id) && forall c | c in kids :: c in g.order && Rooted(g, c, n + 1)
    ensures trees == TreesAt(g, kids, n + 1) && TreeAt(g, id, n) == Node(id, trees)
  {
    ChildFacts(g, id, n);
    kids := ChildIds(g, id);
    trees := TreesAt(g, kids, n + 1);
  }

  lemma TreesUnfold(g: Graph, ids: seq<Id>, n: nat)
    requires Valid(g) && ids != [] && forall id | id in ids :: id in g.order && Rooted(g, id, n)
    ensures TreesAt(g, ids, n) == [TreeAt(g, ids[0], n)] + TreesAt(g, ids[1..], n)
  {
  }

  /** What the linked object of a department holds. */
  lemma NodeHolds(nodes: NodeMap, g: Graph, id: Id)
    requires Faithful(nodes, g) && id in g.order
    ensures id in nodes && nodes[id].row.id == id
    ensures forall c | c in ChildIds(g, id) :: c in nodes
    ensures nodes[id].children == NodesAt(nodes, ChildIds(g, id))
  {
  }

  lemma NodeShows(nodes: NodeMap, g: Graph, id: Id, trees: seq<Tree>)
    requires Faithful(nodes, g) && id in g.order && AllShow(nodes, ChildIds(g, id), trees)
    ensures id in nodes && Shows(nodes[id], Node(id, trees), Objects(nodes))
  {
    NodeHolds(nodes, g, id);
    FoldShows(nodes, id, ChildIds(g, id), trees);
  }

  /** The linked objects unfold to the forest of the parent relation. */
  lemma {:induction false} LinkedShows(nodes: NodeMap, g: Graph, id: Id, n: nat)
    requires Valid(g) && Faithful(nodes, g) && id in g.order && Rooted(g, id, n)
    ensures Shows(nodes[id], TreeAt(g, id, n), Objects(nodes))
    decreases |g.order| - n, 1, 0
  {
    var kids, trees := TreeUnfolds(g, id, n);
    LinkedShowsAll(nodes, g, kids, n + 1);
    NodeShows(nodes, g, id, trees);
  }

  lemma {:induction false} LinkedShowsAll(nodes: NodeMap, g: Graph, ids: seq<Id>, n: nat)
    requires Valid(g) && Faithful(nodes, g) && forall id | id in ids :: id in g.order && Rooted(g, id, n)
    ensures AllShow(nodes, ids, TreesAt(g, ids, n))
    decreases |g.order| - n, 2, |ids|
  {
    if ids != [] {
      LinkedShowsFirst(nodes, g, ids, n);
      LinkedShowsAll(nodes, g, ids[1..], n);
      ConsShows(nodes, ids[0], ids[1..], TreeAt(g, ids[0], n), TreesAt(g, ids[1..], n));
      TreesUnfold(g, ids, n);
      assert ids == [ids[0]] + ids[1..];
    }
  }

  lemma {:induction false} LinkedShowsFirst(nodes: NodeMap, g: Graph, ids: seq<Id>, n: nat)
    requires Valid(g) && Faithful(nodes, g) && ids != [] && forall id | id in ids :: id in g.order && Rooted(g, id, n)
    ensures ids[0] in nodes && ids[0] in g.order && Rooted(g, ids[0], n)
    ensures Shows(nodes[ids[0]], TreeAt(g, ids[0], n), Objects(nodes))
    decreases |g.order| - n, 2, 0
  {
    LinkedShows(nodes, g, ids[0], n);
  }

  /** What the caller gets: the returned roots show exactly the forest. */
  lemma RootsShowForest(nodes: NodeMap, roots: seq<DeptNode>, g: Graph)
    requires Valid(g) && Faithful(nodes, g) && roots == NodesAt(nodes, RootIds(g))
    ensures |roots| == |Forest(g)|
    ensures forall k | 0 <= k < |roots| :: Shows(roots[k], Forest(g)[k], Objects(nodes))
  {
    RootFacts(g);
    LinkedShowsAll(nodes, g, RootIds(g), 0);
  }

  // ---- the order of siblings ----

  /** What `ORDER BY sort_order` returns. */
  ghost predicate RowsSorted(rows: seq<Row>) {
    forall i, j | 0 <= i < j < |rows| :: rows[i].sortOrder <= rows[j].sortOrder
  }

  ghost predicate Sorted(nodes: seq<DeptNode>) {
    forall i, j | 0 <= i < j < |nodes| :: nodes[i].row.sortOrder <= nodes[j].row.sortOrder
  }

  /** No node of `ids` comes before the node `x`. */
  ghost predicate Least(nodes: NodeMap, x: Id, ids: seq<Id>)
    requires x in nodes && forall id | id in ids :: id in nodes
  {
    forall id | id in ids :: nodes[x].row.sortOrder <= nodes[id].row.sortOrder
  }

  lemma SortedTail(nodes: NodeMap, ids: seq<Id>)
    requires ids != [] && (forall id | id in ids :: id in nodes) && Sorted(NodesAt(nodes, ids))
    ensures (forall id | id in ids[1..] :: id in nodes) && Sorted(NodesAt(nodes, ids[1..])) && Least(nodes, ids[0], ids[1..])
  {
    assert NodesAt(nodes, ids[1..]) == NodesAt(nodes, ids)[1..];
    forall id | id in ids[1..]
      ensures nodes[ids[0]].row.sortOrder <= nodes[id].row.sortOrder
    {
      var k :| 0 <= k < |ids[1..]| && ids[1..][k] == id;
      assert NodesAt(nodes, ids)[0] == nodes[ids[0]] && NodesAt(nodes, ids)[k + 1] == nodes[id];
    }
  }

  lemma SortedCons(nodes: NodeMap, x: Id, ids: seq<Id>)
    requires x in nodes && (forall id | id in ids :: id in nodes) && Sorted(NodesAt(nodes, ids)) && Least(nodes, x, ids)
    ensures Sorted(NodesAt(nodes, [x] + ids))
  {
    assert NodesAt(nodes, [x] + ids) == [nodes[x]] + NodesAt(nodes, ids);
    assert forall j | 0 <= j < |ids| :: NodesAt(nodes, ids)[j] == nodes[ids[j]] && ids[j] in ids;
  }

  lemma {:induction false} FilterSorted(nodes: NodeMap, keep: Id -> bool, ids: seq<Id>)
    requires (forall id | id in ids :: id in nodes) && Sorted(NodesAt(nodes, ids))
    ensures Sorted(NodesAt(nodes, Filter(keep, ids)))
  {
    if ids != [] {
      SortedTail(nodes, ids);
      FilterSorted(nodes, keep, ids[1..]);
      if keep(ids[0]) {
        SortedCons(nodes, ids[0], Filter(keep, ids[1..]));
      }
    }
  }

  /** From rows in sort order, the roots and every node's children come in sort
      order. */
  lemma SiblingsSorted(nodes: NodeMap, rows: seq<Row>, users: seq<User>, tenant: nat)
    requires RowsSorted(rows) && IsNodeMap(nodes, rows, users, tenant) && Faithful(nodes, GraphOf(rows))
    ensures Sorted(NodesAt(nodes, RootIds(GraphOf(rows))))
    ensures forall id | id in nodes :: Sorted(nodes[id].children)
  {
    var g := GraphOf(rows);
    forall i | 0 <= i < |rows|
      ensures NodesAt(nodes, g.order)[i].row == rows[i]
    {
      assert g.order[i] == rows[i].id && g.order[i] in g.order;
    }
    FilterSorted(nodes, AtTop(g), g.order);
    forall id | id in nodes
      ensures Sorted(nodes[id].children)
    {
      FilterSorted(nodes, Under(g, id), g.order);
    }
  }
}
