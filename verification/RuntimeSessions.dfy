/** The bounded table of runtime sessions in the WebSocket connection manager,
    and the least-recently-used policy it follows. */
module RuntimeSessions {
  import opened Common

  type Key = string

  const CAPACITY: nat := 200

  /** `agent_id:session_id` */
  function SessionKey(agent: string, session: string): Key { agent + ":" + session }

  /** Keys of agents whose ids hold no colon, as UUIDs do, never collide. */
  lemma KeyInjective(a: string, s: string, b: string, t: string)
    requires ':' !in a && ':' !in b && SessionKey(a, s) == SessionKey(b, t)
    ensures a == b && s == t
  {
    var k, l := SessionKey(a, s), SessionKey(b, t);
    assert k[|a|] == ':' && forall i | 0 <= i < |a| :: k[i] == a[i];
    assert l[|b|] == ':' && forall i | 0 <= i < |b| :: l[i] == b[i];
    assert |a| == |b|;
    assert a == k[..|a|] && b == l[..|b|];
    assert s == k[|a| + 1..] && t == l[|b| + 1..];
  }

  // ---- the table's order list ----

  /** `list.remove`: drop the first occurrence. */
  function Remove(s: seq<Key>, k: Key): seq<Key> {
    if s == [] then []
    else if s[0] == k then s[1..]
    else [s[0]] + Remove(s[1..], k)
  }

  /** What one access does to the order list. */
  function Touch(order: seq<Key>, k: Key): seq<Key> {
    if k in order then Remove(order, k) + [k]
    else if |order| + 1 > CAPACITY then (order + [k])[1..]
    else order + [k]
  }

  function Replay(h: seq<Key>): seq<Key> {
    if h == [] then [] else Touch(Replay(h[..|h| - 1]), h[|h| - 1])
  }

  // ---- the reference: most recently used keys ----

  /** The distinct keys of a history in the order of their last use. */
  function Recency(h: seq<Key>): seq<Key> {
    if h == [] then []
    else Remove(Recency(h[..|h| - 1]), h[|h| - 1]) + [h[|h| - 1]]
  }

  function Newest(s: seq<Key>, n: nat): seq<Key> {
    if |s| <= n then s else s[|s| - n..]
  }

  lemma ConsDistinct(x: Key, s: seq<Key>)
    requires Distinct(s) && x !in s
    ensures Distinct([x] + s)
  {
  }

  lemma {:induction false} RemoveDistinct(s: seq<Key>, k: Key)
    requires Distinct(s)
    ensures Distinct(Remove(s, k)) && k !in Remove(s, k)
    ensures forall x :: x in Remove(s, k) <==> x in s && x != k
    ensures |Remove(s, k)| == if k in s then |s| - 1 else |s|
  {
    if s != [] {
      TailDistinct(s);
      RemoveDistinct(s[1..], k);
      if s[0] != k {
        ConsDistinct(s[0], Remove(s[1..], k));
      }
    }
  }

  lemma {:induction false} RecencyDistinct(h: seq<Key>)
    ensures Distinct(Recency(h)) && forall x :: x in Recency(h) <==> x in h
  {
    if h != [] {
      var front := h[..|h| - 1];
      RecencyDistinct(front);
      RemoveDistinct(Recency(front), h[|h| - 1]);
      assert h == front + [h[|h| - 1]];
    }
  }

  /** Removing a key of the tail leaves the front alone. */
  lemma {:induction false} RemoveFromTail(p: seq<Key>, s: seq<Key>, k: Key)
    requires k !in p
    ensures Remove(p + s, k) == p + Remove(s, k)
  {
    if p == [] {
      assert p + s == s;
    } else {
      assert (p + s)[1..] == p[1..] + s;
      RemoveFromTail(p[1..], s, k);
      assert p == [p[0]] + p[1..];
    }
  }

  /** Removing one of the front leaves the tail alone. */
  lemma {:induction false} RemoveFromFront(p: seq<Key>, s: seq<Key>, k: Key)
    requires k in p
    ensures Remove(p + s, k) == Remove(p, k) + s
  {
    assert (p + s)[1..] == p[1..] + s;
    if p[0] != k {
      RemoveFromFront(p[1..], s, k);
    }
  }

  /** The table `s` is full, or it holds everything: nothing stands before it. */
  ghost predicate Table(p: seq<Key>, s: seq<Key>) {
    Distinct(p + s) && (|s| == CAPACITY || (p == [] && |s| <= CAPACITY))
  }

  lemma TouchKnown(p: seq<Key>, s: seq<Key>, k: Key)
    requires Table(p, s) && k in s
    ensures Touch(s, k) == Newest(Remove(p + s, k) + [k], CAPACITY)
  {
    FrontOrTail(p, s, k);
    RemoveFromTail(p, s, k);
    RemoveDistinct(s, k);
    NewestTail(p, Remove(s, k) + [k], CAPACITY);
    assert p + Remove(s, k) + [k] == p + (Remove(s, k) + [k]);
  }

  lemma TouchEvicted(p: seq<Key>, s: seq<Key>, k: Key)
    requires Table(p, s) && k in p
    ensures Touch(s, k) == Newest(Remove(p + s, k) + [k], CAPACITY)
  {
    FrontOrTail(p, s, k);
    RemoveFromFront(p, s, k);
    var q := Remove(p, k);
    NewestTail(q + [s[0]], (s + [k])[1..], CAPACITY);
    assert q + s + [k] == (q + [s[0]]) + (s + [k])[1..];
  }

  lemma TouchNew(p: seq<Key>, s: seq<Key>, k: Key)
    requires Table(p, s) && k !in p && k !in s
    ensures Touch(s, k) == Newest(Remove(p + s, k) + [k], CAPACITY)
  {
    RemoveAbsent(p + s, k);
    if |s| == CAPACITY {
      DropsOldest(p, s, k);
    } else {
      assert p + s + [k] == s + [k];
    }
  }

  lemma DropsOldest(p: seq<Key>, s: seq<Key>, k: Key)
    requires |s| == CAPACITY
    ensures Newest(p + s + [k], CAPACITY) == (s + [k])[1..]
  {
    assert p + s + [k] == (p + [s[0]]) + (s + [k])[1..];
    NewestTail(p + [s[0]], (s + [k])[1..], CAPACITY);
  }

  lemma TouchIsNewest(r: seq<Key>, k: Key)
    requires Distinct(r)
    ensures Touch(Newest(r, CAPACITY), k) == Newest(Remove(r, k) + [k], CAPACITY)
  {
    var s := Newest(r, CAPACITY);
    var p := r[..|r| - |s|];
    assert r == p + s;
    if k in s {
      TouchKnown(p, s, k);
    } else if k in p {
      TouchEvicted(p, s, k);
    } else {
      TouchNew(p, s, k);
    }
  }

  lemma NewestTail(p: seq<Key>, s: seq<Key>, n: nat)
    requires |s| == n || (p == [] && |s| <= n)
    ensures Newest(p + s, n) == s
  {
  }

  lemma FrontOrTail(p: seq<Key>, s: seq<Key>, k: Key)
    requires Distinct(p + s)
    ensures k in s ==> k !in p
    ensures Distinct(p) && Distinct(s)
  {
    assert forall i | 0 <= i < |p| :: p[i] == (p + s)[i];
    assert forall i | 0 <= i < |s| :: s[i] == (p + s)[|p| + i];
  }

  lemma {:induction false} RemoveAbsent(s: seq<Key>, k: Key)
    requires k !in s
    ensures Remove(s, k) == s
  {
    if s != [] {
      RemoveAbsent(s[1..], k);
    }
  }

  /** The order list is, after any accesses, the 200 most recently used
      distinct keys in last-use order. */
  lemma {:induction false} ReplayIsLru(h: seq<Key>)
    ensures Replay(h) == Newest(Recency(h), 200)
  {
    if h != [] {
      var front := h[..|h| - 1];
      ReplayIsLru(front);
      RecencyDistinct(front);
      TouchIsNewest(Recency(front), h[|h| - 1]);
    }
  }

  // ---- the same policy, stated on the history alone ----

  function LastUse(h: seq<Key>, k: Key): (i: nat)
    requires k in h
    ensures i < |h| && h[i] == k && k !in h[i + 1..]
  {
    if h[|h| - 1] == k then |h| - 1
    else
      assert h == h[..|h| - 1] + [h[|h| - 1]];
      var i := LastUse(h[..|h| - 1], k);
      assert h[i + 1..] == h[..|h| - 1][i + 1..] + [h[|h| - 1]];
      i
  }

  /** The distinct keys used since `k` was last used. */
  function UsedSince(h: seq<Key>, k: Key): set<Key>
    requires k in h
  {
    ToSet(h[LastUse(h, k) + 1..])
  }

  lemma UsedSinceSnoc(h: seq<Key>, k: Key)
    requires h != [] && k in h && h[|h| - 1] != k
    ensures k in h[..|h| - 1] && UsedSince(h, k) == UsedSince(h[..|h| - 1], k) + {h[|h| - 1]}
  {
  }

  /** The keys that stand behind `k` in the list. */
  function Behind(s: seq<Key>, k: Key): seq<Key> {
    if s == [] then [] else if s[0] == k then s[1..] else Behind(s[1..], k)
  }

  lemma {:induction false} BehindSnoc(s: seq<Key>, k: Key, x: Key)
    requires k in s
    ensures Behind(s + [x], k) == Behind(s, k) + [x]
  {
    assert (s + [x])[1..] == s[1..] + [x];
    if s[0] != k {
      BehindSnoc(s[1..], k, x);
    }
  }

  lemma {:induction false} BehindLast(s: seq<Key>, k: Key)
    requires k !in s
    ensures Behind(s + [k], k) == []
  {
    if s != [] {
      assert (s + [k])[1..] == s[1..] + [k];
      BehindLast(s[1..], k);
    }
  }

  lemma {:induction false} BehindRemove(s: seq<Key>, k: Key, x: Key)
    requires Distinct(s) && k in s && k != x
    ensures ToSet(Behind(Remove(s, x), k)) == ToSet(Behind(s, k)) - {x}
  {
    TailDistinct(s);
    if s[0] == k {
      RemoveDistinct(s[1..], x);
    } else if s[0] == x {
      BehindWithin(s[1..], k);
    } else {
      BehindRemove(s[1..], k, x);
    }
  }

  lemma {:induction false} BehindWithin(s: seq<Key>, k: Key)
    ensures forall x | x in Behind(s, k) :: x in s
  {
    if s != [] {
      BehindWithin(s[1..], k);
    }
  }

  /** What stands behind `k` in recency order is what was used since. */
  lemma {:induction false} BehindIsUsedSince(h: seq<Key>, k: Key)
    requires k in h
    ensures ToSet(Behind(Recency(h), k)) == UsedSince(h, k)
  {
    var front, last := h[..|h| - 1], h[|h| - 1];
    RecencyDistinct(front);
    var r := Remove(Recency(front), last);
    RemoveDistinct(Recency(front), last);
    if k == last {
      BehindLast(r, k);
      assert LastUse(h, k) == |h| - 1;
    } else {
      UsedSinceSnoc(h, k);
      BehindIsUsedSince(front, k);
      BehindSnoc(r, k, last);
      BehindRemove(Recency(front), k, last);
      SetSnoc(Behind(r, k), last);
    }
  }

  lemma SetSnoc(s: seq<Key>, x: Key)
    ensures ToSet(s + [x]) == ToSet(s) + {x}
  {
  }

  lemma {:induction false} NewestIff(s: seq<Key>, k: Key, n: nat)
    requires Distinct(s) && k in s
    ensures k in Newest(s, n) <==> |Behind(s, k)| < n
    ensures Distinct(Behind(s, k)) && |Behind(s, k)| < |s|
  {
    TailDistinct(s);
    var tail := s[1..];
    if s[0] == k {
      if |s| > n {
        assert forall x | x in Newest(s, n) :: x in tail by {
          assert Newest(s, n) == tail[|s| - n - 1..];
        }
      }
    } else {
      NewestIff(tail, k, n);
      if |s| > n {
        assert Newest(s, n) == Newest(tail, n);
      }
    }
  }

  /** A key is in the table exactly when fewer than 200 other keys were
      used since its own last use. */
  lemma InTableIff(h: seq<Key>, k: Key)
    ensures k in Replay(h) <==> k in h && |UsedSince(h, k)| < 200
  {
    ReplayIsLru(h);
    RecencyDistinct(h);
    if k in h {
      BehindIsUsedSince(h, k);
      NewestIff(Recency(h), k, CAPACITY);
      DistinctSize(Behind(Recency(h), k));
    }
  }

  // ---- the manager ----

  class SessionContext {
    const sessionId: Option<string>

    constructor (sessionId: Option<string>)
      ensures this.sessionId == sessionId
    {
      this.sessionId := sessionId;
    }
  }

  class ConnectionManager {
    var sessions: map<Key, SessionContext>
    var order: seq<Key>
    ghost var history: seq<Key>

    /** The order list is the least-recently-used table of the accesses so far and
        lists exactly the keys of the map. */
    ghost predicate Valid()
      reads this
    {
      && order == Newest(Recency(history), CAPACITY)
      && Distinct(order)
      && ToSet(order) == sessions.Keys
    }

    constructor ()
      ensures Valid() && history == []
    {
      sessions, order, history := map[], [], [];
    }

    method GetOrCreateRuntimeSession(agent: string, session: string) returns (s: SessionContext)
      requires Valid()
      modifies this
      ensures Valid()
      ensures session == "" ==>
                fresh(s) && s.sessionId == None && sessions == old(sessions) && order == old(order) && history == old(history)
      ensures session != "" ==>
                var k := SessionKey(agent, session);
                && history == old(history) + [k]
                && order == Touch(old(order), k)
                && (k in old(sessions) ==> s == old(sessions)[k] && sessions == old(sessions))
                && (k !in old(sessions) ==>
                      && fresh(s) && s.sessionId == Some(session)
                      && sessions.Keys == ToSet(order) && k in sessions && sessions[k] == s
                      && forall x | x in sessions && x != k :: x in old(sessions) && sessions[x] == old(sessions)[x])
    {
      if session == "" {
        s := new SessionContext(None);
        return;
      }
      var k := SessionKey(agent, session);
      NextTable(history, k);
      TouchedElements(order, k);
      history := history + [k];
      if k !in sessions {
        s := new SessionContext(Some(session));
        Inserted(order, k, sessions, s);
        sessions := sessions[k := s];
        order := order + [k];
        if |order| > CAPACITY {
          var evicted := order[0];
          order := order[1..];
          sessions := sessions - {evicted};
        }
      } else {
        s := sessions[k];
        if k in order {
          order := Remove(order, k);
        }
        order := order + [k];
      }
    }
  }

  /** The table after a new key: the new session, and of the others all that still
      fit. */
  lemma Inserted(order: seq<Key>, k: Key, sessions: map<Key, SessionContext>, s: SessionContext)
    requires Distinct(order) && |order| <= CAPACITY && ToSet(order) == sessions.Keys && k !in sessions
    ensures var more := sessions[k := s];
            var after := if |order| < CAPACITY then more else more - {order[0]};
            && after.Keys == ToSet(Touch(order, k)) && k in after && after[k] == s
            && forall x | x in after && x != k :: x in sessions && after[x] == sessions[x]
  {
    assert k in order ==> k in ToSet(order);
    TouchedElements(order, k);
  }

  lemma TouchedElements(order: seq<Key>, k: Key)
    requires Distinct(order) && |order| <= CAPACITY
    ensures Distinct(Touch(order, k)) && |Touch(order, k)| <= CAPACITY
    ensures k in order ==> ToSet(Touch(order, k)) == ToSet(order)
    ensures k !in order && |order| < CAPACITY ==> ToSet(Touch(order, k)) == ToSet(order) + {k}
    ensures k !in order && |order| == CAPACITY ==>
              ToSet(Touch(order, k)) == ToSet(order) + {k} - {order[0]} && order[0] != k
  {
    if k in order {
      RemoveDistinct(order, k);
    } else if |order| == CAPACITY {
      TailDistinct(order);
      assert (order + [k])[1..] == order[1..] + [k];
    }
  }

  lemma NextTable(h: seq<Key>, k: Key)
    ensures Touch(Newest(Recency(h), CAPACITY), k) == Newest(Recency(h + [k]), CAPACITY)
  {
    RecencyDistinct(h);
    assert (h + [k])[..|h|] == h;
    TouchIsNewest(Recency(h), k);
  }
}
