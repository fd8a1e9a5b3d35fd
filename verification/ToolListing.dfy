/** The tool list an administrator sees: MCP tools of one structural key are shown
    once. */
module ToolListing {
  import opened Common
  import opened McpMerge

  ghost predicate AllKnown(tools: Tools, listed: seq<Id>) {
    forall t :: t in listed ==> t in tools
  }

  /** Two MCP tools that stand for the same server tool. */
  predicate Rivals(tools: Tools, a: Id, b: Id) {
    a in tools && b in tools && tools[a].isMcp && tools[b].isMcp && SameTool(tools[a], tools[b])
  }

  predicate IsShown(tools: Tools, shown: seq<Id>, t: Id) {
    exists u :: u in shown && Rivals(tools, u, t)
  }

  /** The list without the tools that come after a rival. */
  function Shown(tools: Tools, listed: seq<Id>): seq<Id> {
    if listed == [] then []
    else
      var shown, t := Shown(tools, listed[..|listed| - 1]), listed[|listed| - 1];
      if IsShown(tools, shown, t) then shown else shown + [t]
  }

  /** The keys the loop has seen. */
  function SeenKeys(tools: Tools, shown: seq<Id>): set<Key> {
    set t | t in shown && t in tools && tools[t].isMcp :: KeyOf(tools[t])
  }

  lemma SeenIsShown(tools: Tools, shown: seq<Id>, t: Id)
    requires t in tools && tools[t].isMcp
    ensures KeyOf(tools[t]) in SeenKeys(tools, shown) <==> IsShown(tools, shown, t)
  {
    forall u | u in shown && u in tools
      ensures KeyOf(tools[u]) == KeyOf(tools[t]) <==> SameTool(tools[u], tools[t])
    {
      KeyOfSame(tools[u], tools[t]);
    }
  }

  lemma SeenGrows(tools: Tools, shown: seq<Id>, t: Id)
    requires t in tools
    ensures SeenKeys(tools, shown + [t]) == SeenKeys(tools, shown) + (if tools[t].isMcp then {KeyOf(tools[t])} else {})
  {
  }

  /** The loop of `list_tools`, over the query's answer. */
  method ListTools(tools: Tools, listed: seq<Id>) returns (deduped: seq<Id>)
    requires AllKnown(tools, listed)
    ensures deduped == Shown(tools, listed)
  {
    deduped := [];
    var seenMcp: set<Key> := {};
    for n := 0 to |listed|
      invariant deduped == Shown(tools, listed[..n])
      invariant seenMcp == SeenKeys(tools, deduped)
    {
      var t := listed[n];
      assert listed[..n + 1][..n] == listed[..n];
      SeenGrows(tools, deduped, t);
      if tools[t].isMcp {
        var key := KeyOf(tools[t]);
        SeenIsShown(tools, deduped, t);
        if key in seenMcp {
          continue;
        }
        seenMcp := seenMcp + {key};
      }
      deduped := deduped + [t];
    }
    assert listed[..|listed|] == listed;
  }

  /** Every listed tool is shown or has a rival that is; only MCP tools are ever
      hidden; and no two shown tools are rivals. */
  lemma {:induction false} ShownOncePerKey(tools: Tools, listed: seq<Id>)
    requires AllKnown(tools, listed)
    ensures forall t :: t in Shown(tools, listed) ==> t in listed
    ensures forall t :: t in listed ==> t in Shown(tools, listed) || IsShown(tools, Shown(tools, listed), t)
    ensures forall i, j :: 0 <= i < j < |Shown(tools, listed)| ==> !Rivals(tools, Shown(tools, listed)[i], Shown(tools, listed)[j])
    decreases |listed|
  {
    if listed != [] {
      var front, t := listed[..|listed| - 1], listed[|listed| - 1];
      assert listed == front + [t];
      ShownOncePerKey(tools, front);
      var shown := Shown(tools, front);
      forall x | x in listed
        ensures x in Shown(tools, listed) || IsShown(tools, Shown(tools, listed), x)
      {
        if x in front && IsShown(tools, shown, x) {
          var u :| u in shown && Rivals(tools, u, x);
          assert u in Shown(tools, listed);
        }
      }
      forall i | 0 <= i < |shown|
        ensures !IsShown(tools, shown, t) ==> !Rivals(tools, shown[i], t)
      {
        assert shown[i] in shown;
      }
    }
  }

  /** The tool shown for a key is the first one listed. */
  lemma {:induction false} FirstIsShown(tools: Tools, listed: seq<Id>, i: nat, j: nat)
    requires AllKnown(tools, listed) && Distinct(listed)
    requires i < j < |listed| && Rivals(tools, listed[i], listed[j])
    ensures listed[j] !in Shown(tools, listed)
    decreases |listed|
  {
    var front := listed[..|listed| - 1];
    ShownOncePerKey(tools, front);
    if j < |front| {
      FirstIsShown(tools, front, i, j);
    } else {
      assert front[i] in front;
      assert IsShown(tools, Shown(tools, front), listed[j]);
    }
  }

  /** What is listed before `t`. */
  function Upto(listed: seq<Id>, t: Id): seq<Id> {
    if listed == [] || listed[0] == t then [] else [listed[0]] + Upto(listed[1..], t)
  }

  lemma {:induction false} UptoInFront(front: seq<Id>, last: seq<Id>, t: Id)
    requires t in front
    ensures Upto(front + last, t) == Upto(front, t)
  {
    assert (front + last)[1..] == front[1..] + last;
    if front[0] != t {
      UptoInFront(front[1..], last, t);
    }
  }

  lemma {:induction false} UptoLast(front: seq<Id>, t: Id)
    requires t !in front
    ensures Upto(front + [t], t) == front
  {
    if front != [] {
      assert (front + [t])[1..] == front[1..] + [t];
      UptoLast(front[1..], t);
    }
  }

  /** No tool listed before `t` stands for the same. */
  function First(tools: Tools, listed: seq<Id>): Id -> bool {
    (t: Id) => !IsShown(tools, Upto(listed, t), t)
  }

  lemma {:induction false} FilterSame(p: Id -> bool, q: Id -> bool, s: seq<Id>)
    requires forall x :: x in s ==> p(x) == q(x)
    ensures Filter(p, s) == Filter(q, s)
  {
    if s != [] {
      FilterSame(p, q, s[1..]);
    }
  }

  /** What is shown stands for all that is listed. */
  lemma ShownStandsForAll(tools: Tools, front: seq<Id>, t: Id)
    requires AllKnown(tools, front)
    ensures IsShown(tools, Shown(tools, front), t) <==> IsShown(tools, front, t)
  {
    ShownOncePerKey(tools, front);
    if IsShown(tools, front, t) {
      var u :| u in front && Rivals(tools, u, t);
      if u !in Shown(tools, front) {
        var v :| v in Shown(tools, front) && Rivals(tools, v, u);
        assert Rivals(tools, v, t);
      }
    }
  }

  lemma FirstsInFront(tools: Tools, front: seq<Id>, t: Id)
    ensures Filter(First(tools, front + [t]), front) == Filter(First(tools, front), front)
  {
    forall x | x in front
      ensures First(tools, front + [t])(x) == First(tools, front)(x)
    {
      UptoInFront(front, [t], x);
    }
    FilterSame(First(tools, front + [t]), First(tools, front), front);
  }

  lemma FirstsSnoc(tools: Tools, front: seq<Id>, t: Id)
    requires t !in front
    ensures Filter(First(tools, front + [t]), front + [t]) ==
            Filter(First(tools, front), front) + if IsShown(tools, front, t) then [] else [t]
  {
    FilterConcat(First(tools, front + [t]), front, [t]);
    FirstsInFront(tools, front, t);
    UptoLast(front, t);
    assert [t][1..] == [];
  }

  /** What is shown are, in order, the listed tools with no rival before them. */
  lemma {:induction false} ShowsFirsts(tools: Tools, listed: seq<Id>)
    requires AllKnown(tools, listed) && Distinct(listed)
    ensures Shown(tools, listed) == Filter(First(tools, listed), listed)
    decreases |listed|
  {
    if listed != [] {
      var front, t := listed[..|listed| - 1], listed[|listed| - 1];
      assert listed == front + [t];
      ShowsFirsts(tools, front);
      ShownStandsForAll(tools, front, t);
      FirstsSnoc(tools, front, t);
    }
  }

  ghost predicate NoRivals(tools: Tools, listed: seq<Id>) {
    forall i, j :: 0 <= i < j < |listed| ==> !Rivals(tools, listed[i], listed[j])
  }

  lemma NoRivalsFront(tools: Tools, front: seq<Id>, t: Id)
    requires NoRivals(tools, front + [t])
    ensures NoRivals(tools, front) && !IsShown(tools, front, t)
  {
    var listed := front + [t];
    forall i, j | 0 <= i < j < |front|
      ensures !Rivals(tools, front[i], front[j])
    {
      assert !Rivals(tools, listed[i], listed[j]);
    }
    forall u | u in front
      ensures !Rivals(tools, u, t)
    {
      var i :| 0 <= i < |front| && front[i] == u;
      assert !Rivals(tools, listed[i], listed[|front|]);
    }
  }

  lemma {:induction false} NoRivalsAllShown(tools: Tools, listed: seq<Id>)
    requires NoRivals(tools, listed)
    ensures Shown(tools, listed) == listed
    decreases |listed|
  {
    if listed != [] {
      var front, t := listed[..|listed| - 1], listed[|listed| - 1];
      assert listed == front + [t];
      NoRivalsFront(tools, front, t);
      NoRivalsAllShown(tools, front);
    }
  }

  /** The list hides nothing exactly when no two of its tools are rivals. */
  lemma HidesNothingIff(tools: Tools, listed: seq<Id>)
    requires AllKnown(tools, listed)
    ensures Shown(tools, listed) == listed <==> NoRivals(tools, listed)
  {
    ShownOncePerKey(tools, listed);
    if NoRivals(tools, listed) {
      NoRivalsAllShown(tools, listed);
    }
  }

  /** An answer of `list_tools`'s query within a tenant: its own tools, and the
      platform's tools that are not MCP tools, in some order. */
  ghost predicate InScope(tools: Tools, tenant: nat, listed: seq<Id>) {
    && Distinct(listed)
    && forall t :: t in listed <==> t in tools && (tools[t].tenant == Some(tenant) || (tools[t].tenant.None? && !tools[t].isMcp))
  }

  /** After a merge the tenant's list hides nothing: merging leaves exactly one tool
      for every entry shown. */
  lemma MergedListHidesNothing(tools: Tools, tenant: nat, listed: seq<Id>, shown: seq<Id>)
    requires Listing(tools, tenant, listed) && InScope(tools - Dups(tools, listed), tenant, shown)
    ensures Shown(tools - Dups(tools, listed), shown) == shown
  {
    var tools' := tools - Dups(tools, listed);
    forall i, j | 0 <= i < j < |shown|
      ensures !Rivals(tools', shown[i], shown[j])
    {
      var a, b := shown[i], shown[j];
      assert a in shown && b in shown && a != b;
      assert Rivals(tools', a, b) ==> a in listed && b in listed;
      if Rivals(tools', a, b) {
        SameKeeperIff(tools, listed, a, b);
      }
    }
    HidesNothingIff(tools', shown);
  }

  /** Without a tenant scope the query's answer spans tenants, and a tool can be
      hidden behind another tenant's. */
  lemma UnscopedListHides()
    ensures var tools: Tools := map[1 := Tool(Some(1), true, Some("s"), Some("t"), "a", 0),
                                    2 := Tool(Some(2), true, Some("s"), Some("t"), "b", 1)];
            Shown(tools, [1, 2]) == [1]
  {
    var tools: Tools := map[1 := Tool(Some(1), true, Some("s"), Some("t"), "a", 0),
                            2 := Tool(Some(2), true, Some("s"), Some("t"), "b", 1)];
    assert [1, 2][..1] == [1] && [1][..0] == [];
    assert Shown(tools, [1]) == [] + [1];
    assert Rivals(tools, 1, 2) && 1 in Shown(tools, [1]);
  }
}
