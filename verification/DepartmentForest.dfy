/** The department tree of one tenant as a graph of parent links, the forest that
    a walk from its roots unfolds, and when that walk sees every department. */
module DepartmentForest {
  import opened Common

  type Id = nat

  /** The departments in sort order and the parent links inside the tenant. */
  datatype Graph = Graph(order: seq<Id>, up: map<Id, Id>)

  ghost predicate Valid(g: Graph) {
    && Distinct(g.order)
    && (forall id | id in g.up :: id in g.order && g.up[id] in g.order)
  }

  predicate IsRoot(g: Graph, id: Id) { id !in g.up }

  function Under(g: Graph, p: Id): Id -> bool {
    (id: Id) => id in g.up && g.up[id] == p
  }

  function AtTop(g: Graph): Id -> bool {
    (id: Id) => IsRoot(g, id)
  }

  function ChildIds(g: Graph, p: Id): seq<Id> { Filter(Under(g, p), g.order) }

  function RootIds(g: Graph): seq<Id> { Filter(AtTop(g), g.order) }

  // ---- ancestor chains ----

  /** The `k`-th ancestor, if the chain is that long. */
  function Up(g: Graph, id: Id, k: nat): Option<Id>
    decreases k
  {
    if k == 0 then Some(id)
    else if id in g.up then Up(g, g.up[id], k - 1)
    else None
  }

  /** The ancestor chain of `id` reaches a root after exactly `n` links. */
  predicate Rooted(g: Graph, id: Id, n: nat)
    decreases n
  {
    if n == 0 then IsRoot(g, id) else id in g.up && Rooted(g, g.up[id], n - 1)
  }

  ghost predicate ReachesRoot(g: Graph, id: Id) {
    exists n :: Rooted(g, id, n)
  }

  ghost predicate Acyclic(g: Graph) {
    forall id, k | id in g.order && k > 0 :: Up(g, id, k) != Some(id)
  }

  lemma {:induction false} DepthUnique(g: Graph, id: Id, n: nat, m: nat)
    requires Rooted(g, id, n) && Rooted(g, id, m)
    ensures n == m
    decreases n
  {
    if n > 0 && m > 0 {
      DepthUnique(g, g.up[id], n - 1, m - 1);
    }
  }

  lemma {:induction false} RootedUp(g: Graph, id: Id, n: nat, k: nat)
    requires Rooted(g, id, n)
    ensures k <= n ==> Up(g, id, k).Some? && Rooted(g, Up(g, id, k).value, n - k)
    ensures k > n ==> Up(g, id, k).None?
    decreases n
  {
    if k > 0 && n > 0 {
      RootedUp(g, g.up[id], n - 1, k - 1);
    }
  }

  lemma {:induction false} UpSplit(g: Graph, id: Id, j: nat, k: nat)
    ensures Up(g, id, j + k) == if Up(g, id, j).Some? then Up(g, Up(g, id, j).value, k) else None
    decreases j
  {
    if j > 0 && id in g.up {
      UpSplit(g, g.up[id], j - 1, k);
    }
  }

  lemma {:induction false} UpKnown(g: Graph, id: Id, k: nat)
    requires Valid(g) && id in g.order && Up(g, id, k).Some?
    ensures Up(g, id, k).value in g.order
    decreases k
  {
    if k > 0 {
      UpKnown(g, g.up[id], k - 1);
    }
  }

  ghost predicate ShallowerThan(g: Graph, x: Id, n: nat) {
    exists m: nat | m < n :: Rooted(g, x, m)
  }

  /** The departments on the chain are pairwise different: it is shorter than the
      number of departments. */
  lemma {:induction false} ChainSet(g: Graph, id: Id, n: nat) returns (chain: set<Id>)
    requires Valid(g) && id in g.order && Rooted(g, id, n)
    ensures |chain| == n + 1
    ensures forall x | x in chain :: x in g.order && ShallowerThan(g, x, n + 1)
    decreases n
  {
    var above: set<Id> := {};
    if n > 0 {
      above := ChainSet(g, g.up[id], n - 1);
    }
    if ShallowerThan(g, id, n) {
      var m: nat :| m < n && Rooted(g, id, m);
      DepthUnique(g, id, n, m);
    }
    chain := above + {id};
    assert ShallowerThan(g, id, n + 1);
    assert forall x | x in above :: ShallowerThan(g, x, n) && ShallowerThan(g, x, n + 1);
  }

  lemma DepthBound(g: Graph, id: Id, n: nat)
    requires Valid(g) && id in g.order && Rooted(g, id, n)
    ensures n < |g.order|
  {
    var chain := ChainSet(g, id, n);
    DistinctSize(g.order);
    SubsetSize(chain, ToSet(g.order));
  }

  // ---- acyclic means every chain ends ----

  /** A chain of `n` links without a root visits `n + 1` departments. */
  lemma {:induction false} LongChain(g: Graph, id: Id, n: nat) returns (chain: seq<Id>)
    requires Valid(g) && id in g.order && !ReachesRoot(g, id)
    ensures |chain| == n + 1
    ensures forall i | 0 <= i <= n :: chain[i] in g.order && Up(g, id, i) == Some(chain[i])
    decreases n
  {
    if n == 0 {
      chain := [id];
    } else {
      assert IsRoot(g, id) == Rooted(g, id, 0);
      forall m: nat
        ensures !Rooted(g, g.up[id], m)
      {
        assert Rooted(g, id, m + 1) == Rooted(g, g.up[id], m);
      }
      var rest := LongChain(g, g.up[id], n - 1);
      chain := [id] + rest;
    }
  }

  lemma AcyclicReaches(g: Graph, id: Id)
    requires Valid(g) && Acyclic(g) && id in g.order
    ensures ReachesRoot(g, id)
  {
    if !ReachesRoot(g, id) {
      var chain := LongChain(g, id, |g.order|);
      forall i, j | 0 <= i < j < |chain|
        ensures chain[i] != chain[j]
      {
        UpSplit(g, id, i, j - i);
        assert Up(g, chain[i], j - i) == Some(chain[j]);
      }
      DistinctSize(chain);
      DistinctSize(g.order);
      SubsetSize(ToSet(chain), ToSet(g.order));
    }
  }

  lemma RootedHasNoCycle(g: Graph, id: Id, n: nat, k: nat)
    requires Rooted(g, id, n) && k > 0
    ensures Up(g, id, k) != Some(id)
  {
    RootedUp(g, id, n, k);
    if k <= n && Rooted(g, id, n - k) {
      DepthUnique(g, id, n, n - k);
    }
  }

  /** The parent relation has no cycle if and only if every chain reaches a root. */
  lemma AcyclicIffRooted(g: Graph)
    requires Valid(g)
    ensures Acyclic(g) <==> forall id | id in g.order :: ReachesRoot(g, id)
  {
    if Acyclic(g) {
      forall id | id in g.order
        ensures ReachesRoot(g, id)
      {
        AcyclicReaches(g, id);
      }
    }
    if forall id | id in g.order :: ReachesRoot(g, id) {
      forall id, k | id in g.order && k > 0
        ensures Up(g, id, k) != Some(id)
      {
        var n: nat :| Rooted(g, id, n);
        RootedHasNoCycle(g, id, n, k);
      }
    }
  }

  // ---- the unfolded forest ----

  datatype Tree = Node(id: Id, children: seq<Tree>)

  /** What following `children` from the department `id` at depth `n` shows. */
  function TreeAt(g: Graph, id: Id, n: nat): Tree
    requires Valid(g) && id in g.order && Rooted(g, id, n)
    decreases |g.order| - n, 1, 0
  {
    DepthBound(g, id, n);
    Node(id, TreesAt(g, ChildIds(g, id), n + 1))
  }

  function TreesAt(g: Graph, ids: seq<Id>, n: nat): seq<Tree>
    requires Valid(g) && (forall id | id in ids :: id in g.order && Rooted(g, id, n))
    decreases |g.order| - n, 2, |ids|
  {
    if ids == [] then []
    else
      DepthBound(g, ids[0], n);
      [TreeAt(g, ids[0], n)] + TreesAt(g, ids[1..], n)
  }

  function Forest(g: Graph): seq<Tree>
    requires Valid(g)
  {
    TreesAt(g, RootIds(g), 0)
  }

  function Walk(t: Tree): seq<Id> { [t.id] + WalkAll(t.children) }

  function WalkAll(ts: seq<Tree>): seq<Id> {
    if ts == [] then [] else Walk(ts[0]) + WalkAll(ts[1..])
  }

  function Times(x: Id, s: seq<Id>): nat { multiset(s)[x] }

  lemma TimesConcat(x: Id, a: seq<Id>, b: seq<Id>)
    ensures Times(x, a + b) == Times(x, a) + Times(x, b)
  {
  }

  /** `id` stands at depth `n` on the chain of `x`, which is at depth `m`. */
  predicate OnChain(g: Graph, id: Id, n: nat, x: Id, m: nat) {
    m >= n && Up(g, x, m - n) == Some(id)
  }

  predicate MeetsChain(g: Graph, ids: seq<Id>, n: nat, x: Id, m: nat) {
    m >= n && Up(g, x, m - n).Some? && Up(g, x, m - n).value in ids
  }

  lemma InChildIds(g: Graph, c: Id, p: Id)
    ensures c in ChildIds(g, p) <==> c in g.order && c in g.up && g.up[c] == p
  {
  }

  lemma UpOneMore(g: Graph, x: Id, k: nat)
    requires Up(g, x, k).Some? && Up(g, x, k).value in g.up
    ensures Up(g, x, k + 1) == Some(g.up[Up(g, x, k).value])
  {
    UpSplit(g, x, k, 1);
    var c := Up(g, x, k).value;
    assert Up(g, g.up[c], 0) == Some(g.up[c]);
  }

  /** A chain stands at `id` exactly when it starts there or comes from a child. */
  lemma OnChainSplits(g: Graph, id: Id, n: nat, x: Id, m: nat)
    requires Valid(g) && Rooted(g, id, n) && x in g.order && Rooted(g, x, m)
    ensures OnChain(g, id, n, x, m) <==> x == id || MeetsChain(g, ChildIds(g, id), n + 1, x, m)
    ensures !(x == id && MeetsChain(g, ChildIds(g, id), n + 1, x, m))
  {
    if x == id {
      DepthUnique(g, x, m, n);
      assert Up(g, x, 0) == Some(x);
    } else if m > n {
      ChainStep(g, id, x, m, m - n - 1);
    } else if m == n {
      assert Up(g, x, 0) == Some(x);
    }
  }

  /** A chain stands at `id` one link above one of its children. */
  lemma ChainStep(g: Graph, id: Id, x: Id, m: nat, k: nat)
    requires Valid(g) && x in g.order && Rooted(g, x, m) && k < m
    ensures Up(g, x, k).Some? && (Up(g, x, k + 1) == Some(id) <==> Up(g, x, k).value in ChildIds(g, id))
  {
    RootedUp(g, x, m, k);
    UpKnown(g, x, k);
    UpOneMore(g, x, k);
    InChildIds(g, Up(g, x, k).value, id);
  }

  /** A department `x` at depth `m` occurs in the walk below `id` once if `id` is
      on its chain at the right height, and not at all otherwise. */
  lemma {:induction false} WalkTimes(g: Graph, id: Id, n: nat, x: Id, m: nat)
    requires Valid(g) && id in g.order && Rooted(g, id, n) && x in g.order && Rooted(g, x, m)
    ensures Times(x, Walk(TreeAt(g, id, n))) == if OnChain(g, id, n, x, m) then 1 else 0
    decreases |g.order| - n, 1, 0
  {
    ChildFacts(g, id, n);
    WalkAllTimes(g, ChildIds(g, id), n + 1, x, m);
    NodeTimes(g, id, n, x);
    OnChainSplits(g, id, n, x, m);
  }

  /** A node counts for itself and for what is below it. */
  lemma NodeTimes(g: Graph, id: Id, n: nat, x: Id)
    requires Valid(g) && id in g.order && Rooted(g, id, n)
    requires forall c | c in ChildIds(g, id) :: c in g.order && Rooted(g, c, n + 1)
    ensures Times(x, Walk(TreeAt(g, id, n))) ==
            (if x == id then 1 else 0) + Times(x, WalkAll(TreesAt(g, ChildIds(g, id), n + 1)))
  {
    WalkUnfolds(g, id, n);
    ConsTimes(x, id, WalkAll(TreesAt(g, ChildIds(g, id), n + 1)));
  }

  lemma ConsTimes(x: Id, id: Id, below: seq<Id>)
    ensures Times(x, [id] + below) == (if x == id then 1 else 0) + Times(x, below)
  {
    TimesConcat(x, [id], below);
  }

  lemma ChildFacts(g: Graph, id: Id, n: nat)
    requires Valid(g) && id in g.order && Rooted(g, id, n)
    ensures Distinct(ChildIds(g, id)) && n < |g.order|
    ensures forall c | c in ChildIds(g, id) :: c in g.order && Rooted(g, c, n + 1)
  {
    FilterDistinct(Under(g, id), g.order);
    DepthBound(g, id, n);
  }

  lemma RootFacts(g: Graph)
    requires Valid(g)
    ensures Distinct(RootIds(g))
    ensures forall c | c in g.order :: c in RootIds(g) <==> Rooted(g, c, 0)
    ensures forall c | c in RootIds(g) :: c in g.order && Rooted(g, c, 0)
  {
    FilterDistinct(AtTop(g), g.order);
  }

  lemma WalkUnfolds(g: Graph, id: Id, n: nat)
    requires Valid(g) && id in g.order && Rooted(g, id, n)
    ensures Walk(TreeAt(g, id, n)) == [id] + WalkAll(TreesAt(g, ChildIds(g, id), n + 1))
  {
  }

  lemma {:induction false} WalkAllTimes(g: Graph, ids: seq<Id>, n: nat, x: Id, m: nat)
    requires Valid(g) && (forall id | id in ids :: id in g.order && Rooted(g, id, n)) && Distinct(ids)
    requires x in g.order && Rooted(g, x, m)
    ensures Times(x, WalkAll(TreesAt(g, ids, n))) == if MeetsChain(g, ids, n, x, m) then 1 else 0
    decreases |g.order| - n, 2, |ids|
  {
    if ids != [] {
      DepthBound(g, ids[0], n);
      WalkTimes(g, ids[0], n, x, m);
      TailDistinct(ids);
      WalkAllTimes(g, ids[1..], n, x, m);
      assert Times(x, WalkAll(TreesAt(g, ids, n)))
          == Times(x, Walk(TreeAt(g, ids[0], n))) + Times(x, WalkAll(TreesAt(g, ids[1..], n))) by {
        WalkAllUnfolds(g, ids, n);
        TimesConcat(x, Walk(TreeAt(g, ids[0], n)), WalkAll(TreesAt(g, ids[1..], n)));
      }
      assert forall c :: c in ids <==> c == ids[0] || c in ids[1..];
    }
  }

  lemma WalkAllUnfolds(g: Graph, ids: seq<Id>, n: nat)
    requires Valid(g) && (forall id | id in ids :: id in g.order && Rooted(g, id, n)) && ids != []
    ensures WalkAll(TreesAt(g, ids, n)) == Walk(TreeAt(g, ids[0], n)) + WalkAll(TreesAt(g, ids[1..], n))
  {
  }

  lemma {:induction false} WalkReaches(g: Graph, id: Id, n: nat, x: Id)
    requires Valid(g) && id in g.order && Rooted(g, id, n) && x in Walk(TreeAt(g, id, n))
    ensures x in g.order && ReachesRoot(g, x)
    decreases |g.order| - n, 1, 0
  {
    DepthBound(g, id, n);
    if x != id {
      assert x in WalkAll(TreesAt(g, ChildIds(g, id), n + 1));
      WalkAllReaches(g, ChildIds(g, id), n + 1, x);
    }
  }

  lemma {:induction false} WalkAllReaches(g: Graph, ids: seq<Id>, n: nat, x: Id)
    requires Valid(g) && (forall id | id in ids :: id in g.order && Rooted(g, id, n))
    requires x in WalkAll(TreesAt(g, ids, n))
    ensures x in g.order && ReachesRoot(g, x)
    decreases |g.order| - n, 2, |ids|
  {
    DepthBound(g, ids[0], n);
    assert TreesAt(g, ids, n)[1..] == TreesAt(g, ids[1..], n);
    if x in Walk(TreeAt(g, ids[0], n)) {
      WalkReaches(g, ids[0], n, x);
    } else {
      WalkAllReaches(g, ids[1..], n, x);
    }
  }

  /** The walk of the forest shows a department exactly once if its ancestor
      chain reaches a root, and never otherwise. */
  lemma ForestShows(g: Graph, x: Id)
    requires Valid(g) && x in g.order
    ensures Times(x, WalkAll(Forest(g))) == if ReachesRoot(g, x) then 1 else 0
  {
    if ReachesRoot(g, x) {
      var m: nat :| Rooted(g, x, m);
      RootFacts(g);
      WalkAllTimes(g, RootIds(g), 0, x, m);
      RootedUp(g, x, m, m);
      UpKnown(g, x, m);
    } else if x in WalkAll(Forest(g)) {
      WalkAllReaches(g, RootIds(g), 0, x);
    }
  }

  /** Without cycles the walk is a permutation of the departments. */
  lemma AcyclicForestIsWhole(g: Graph)
    requires Valid(g) && Acyclic(g)
    ensures multiset(WalkAll(Forest(g))) == multiset(g.order)
  {
    AcyclicIffRooted(g);
    forall x: Id
      ensures Times(x, WalkAll(Forest(g))) == Times(x, g.order)
    {
      DistinctTimes(g.order, x);
      if x in g.order {
        ForestShows(g, x);
      } else if x in WalkAll(Forest(g)) {
        WalkAllReaches(g, RootIds(g), 0, x);
      }
    }
    SameTimes(WalkAll(Forest(g)), g.order);
  }

  lemma SameTimes(a: seq<Id>, b: seq<Id>)
    requires forall x: Id :: Times(x, a) == Times(x, b)
    ensures multiset(a) == multiset(b)
  {
    assert forall x: Id :: multiset(a)[x] == Times(x, a) && multiset(b)[x] == Times(x, b);
  }

  lemma {:induction false} DistinctTimes(s: seq<Id>, x: Id)
    requires Distinct(s)
    ensures Times(x, s) == if x in s then 1 else 0
  {
    if s != [] {
      assert forall k | 0 <= k < |s[1..]| :: s[1..][k] == s[k + 1];
      DistinctTimes(s[1..], x);
      assert s == [s[0]] + s[1..];
      TimesConcat(x, [s[0]], s[1..]);
    }
  }

  /** Every tree node hangs under its own parent, with its siblings in row order. */
  lemma TreeChildren(g: Graph, id: Id, n: nat, i: nat)
    requires Valid(g) && id in g.order && Rooted(g, id, n)
    requires i < |TreeAt(g, id, n).children|
    ensures |TreeAt(g, id, n).children| == |ChildIds(g, id)|
    ensures TreeAt(g, id, n).children[i].id == ChildIds(g, id)[i]
    ensures ChildIds(g, id)[i] in g.up && g.up[ChildIds(g, id)[i]] == id
  {
    DepthBound(g, id, n);
    TreesAtIds(g, ChildIds(g, id), n + 1);
    assert ChildIds(g, id)[i] in ChildIds(g, id);
  }

  lemma {:induction false} TreesAtIds(g: Graph, ids: seq<Id>, n: nat)
    requires Valid(g) && (forall id | id in ids :: id in g.order && Rooted(g, id, n))
    ensures |TreesAt(g, ids, n)| == |ids|
    ensures forall i | 0 <= i < |ids| :: TreesAt(g, ids, n)[i].id == ids[i]
    decreases |ids|
  {
    if ids != [] {
      TreesAtIds(g, ids[1..], n);
    }
  }

  // ---- changing a parent ----

  /** `update_department` with a new parent inside the tenant. */
  function Reparent(g: Graph, d: Id, p: Id): Graph {
    g.(up := g.up[d := p])
  }

  lemma {:induction false} SameChain(g: Graph, d: Id, p: Id, x: Id, k: nat)
    requires forall i | 0 <= i < k :: Up(g, x, i) != Some(d)
    ensures Up(Reparent(g, d, p), x, k) == Up(g, x, k)
    decreases k
  {
    if k > 0 {
      assert Up(g, x, 0) != Some(d);
      if x in g.up {
        forall i | 0 <= i < k - 1
          ensures Up(g, g.up[x], i) != Some(d)
        {
          assert Up(g, x, i + 1) != Some(d);
        }
        SameChain(g, d, p, g.up[x], k - 1);
      }
    }
  }

  ghost predicate Above(g: Graph, d: Id, x: Id) {
    exists k: nat :: Up(g, x, k) == Some(d)
  }

  lemma {:induction false} FirstMeeting(g: Graph, d: Id, x: Id, k: nat) returns (j: nat)
    requires Up(g, x, k) == Some(d)
    ensures Up(g, x, j) == Some(d) && forall i | 0 <= i < j :: Up(g, x, i) != Some(d)
    decreases k
  {
    if x == d {
      j := 0;
    } else {
      j := FirstMeeting(g, d, g.up[x], k - 1);
      j := j + 1;
      forall i | 0 <= i < j
        ensures Up(g, x, i) != Some(d)
      {
        if i > 0 {
          assert Up(g, x, i) == Up(g, g.up[x], i - 1);
        }
      }
    }
  }

  lemma {:induction false} StillRooted(g: Graph, d: Id, p: Id, x: Id, n: nat)
    requires Valid(g) && Rooted(g, x, n) && !Above(g, d, x)
    ensures Rooted(Reparent(g, d, p), x, n)
    decreases n
  {
    assert Up(g, x, 0) == Some(x);
    if n > 0 {
      forall k: nat
        ensures Up(g, g.up[x], k) != Some(d)
      {
        assert Up(g, x, k + 1) == Up(g, g.up[x], k);
      }
      StillRooted(g, d, p, g.up[x], n - 1);
    }
  }

  lemma {:induction false} RootedAfter(g: Graph, d: Id, p: Id, x: Id, n: nat, dp: nat)
    requires Valid(g) && Rooted(g, x, n) && Rooted(Reparent(g, d, p), p, dp)
    ensures ReachesRoot(Reparent(g, d, p), x)
    decreases n
  {
    var g' := Reparent(g, d, p);
    if x == d {
      assert Rooted(g', d, dp + 1);
    } else if n == 0 {
      assert Rooted(g', x, 0);
    } else {
      RootedAfter(g, d, p, g.up[x], n - 1, dp);
      var m: nat :| Rooted(g', g'.up[x], m);
      assert Rooted(g', x, m + 1);
    }
  }

  /** Moving a department under a new parent keeps the forest acyclic, and so the
      tree complete, exactly when the department is not on the new parent's chain. */
  lemma ReparentAcyclicIff(g: Graph, d: Id, p: Id)
    requires Valid(g) && Acyclic(g) && d in g.order && p in g.order
    ensures Valid(Reparent(g, d, p))
    ensures Acyclic(Reparent(g, d, p)) <==> !Above(g, d, p)
  {
    var g' := Reparent(g, d, p);
    AcyclicIffRooted(g);
    AcyclicIffRooted(g');
    if Above(g, d, p) {
      var k: nat :| Up(g, p, k) == Some(d);
      var j := FirstMeeting(g, d, p, k);
      SameChain(g, d, p, p, j);
      assert Up(g', d, j + 1) == Some(d);
    } else {
      var dp: nat :| Rooted(g, p, dp);
      StillRooted(g, d, p, p, dp);
      forall x | x in g'.order
        ensures ReachesRoot(g', x)
      {
        var n: nat :| Rooted(g, x, n);
        RootedAfter(g, d, p, x, n, dp);
      }
    }
  }

  /** `update_department` with a new parent outside the tenant. */
  function Detach(g: Graph, d: Id): Graph {
    g.(up := g.up - {d})
  }

  lemma {:induction false} RootedDetached(g: Graph, d: Id, x: Id, n: nat)
    requires Rooted(g, x, n)
    ensures ReachesRoot(Detach(g, d), x)
    decreases n
  {
    var g' := Detach(g, d);
    if x == d || n == 0 {
      assert Rooted(g', x, 0);
    } else {
      RootedDetached(g, d, g.up[x], n - 1);
      var m: nat :| Rooted(g', g.up[x], m);
      assert Rooted(g', x, m + 1);
    }
  }

  lemma {:induction false} BelowDetached(g: Graph, d: Id, x: Id, k: nat)
    requires Up(g, x, k) == Some(d)
    ensures ReachesRoot(Detach(g, d), x)
    decreases k
  {
    var g' := Detach(g, d);
    if x == d {
      assert Rooted(g', x, 0);
    } else {
      BelowDetached(g, d, g.up[x], k - 1);
      var m: nat :| Rooted(g', g.up[x], m);
      assert Rooted(g', x, m + 1);
    }
  }

  lemma {:induction false} RootedBefore(g: Graph, d: Id, x: Id, n: nat)
    requires Rooted(Detach(g, d), x, n)
    ensures ReachesRoot(g, x) || Above(g, d, x)
    decreases n
  {
    if x == d {
      assert Up(g, x, 0) == Some(d);
    } else if n == 0 {
      assert Rooted(g, x, 0);
    } else {
      RootedBefore(g, d, g.up[x], n - 1);
      if ReachesRoot(g, g.up[x]) {
        var m: nat :| Rooted(g, g.up[x], m);
        assert Rooted(g, x, m + 1);
      } else {
        var k: nat :| Up(g, g.up[x], k) == Some(d);
        assert Up(g, x, k + 1) == Some(d);
      }
    }
  }

  /** A department whose new parent is outside the tenant becomes a root: afterwards a
      department reaches a root exactly when it did before or the moved one is on its
      chain, cycles or not. */
  lemma DetachedReachesRoot(g: Graph, d: Id, x: Id)
    ensures IsRoot(Detach(g, d), d)
    ensures ReachesRoot(Detach(g, d), x) <==> ReachesRoot(g, x) || Above(g, d, x)
  {
    if ReachesRoot(Detach(g, d), x) {
      var n: nat :| Rooted(Detach(g, d), x, n);
      RootedBefore(g, d, x, n);
    }
    if ReachesRoot(g, x) {
      var n: nat :| Rooted(g, x, n);
      RootedDetached(g, d, x, n);
    }
    if Above(g, d, x) {
      var k: nat :| Up(g, x, k) == Some(d);
      BelowDetached(g, d, x, k);
    }
  }

  /** Such a move leaves the forest without cycles exactly when every department reached
      a root or the moved one: it closes no cycle, and opens one that runs through it. */
  lemma DetachAcyclicIff(g: Graph, d: Id)
    requires Valid(g)
    ensures Valid(Detach(g, d))
    ensures Acyclic(Detach(g, d)) <==> forall x | x in g.order :: ReachesRoot(g, x) || Above(g, d, x)
    ensures Acyclic(g) ==> Acyclic(Detach(g, d))
  {
    AcyclicIffRooted(g);
    AcyclicIffRooted(Detach(g, d));
    forall x {
      DetachedReachesRoot(g, d, x);
    }
  }
}
