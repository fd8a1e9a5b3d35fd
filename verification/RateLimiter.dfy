/** The sliding-window rate limiter over a shared sorted set: one atomic block
    prunes, adds, counts and renews the expiry; a rejection removes its entry
    later, in a command of its own, so other requests can come in between. */
module RateLimiter {
  import opened Common

  type Time = real

  /** `zset` holds the members, which are their own scores; the key expires when
      the store's clock reaches `deadline`. */
  datatype Key = Key(zset: set<Time>, deadline: Time)

  const FRESH_KEY: Key := Key({}, 0.0)

  /** The set as the store sees it at `at`: an expired key is an empty set. */
  function Visible(k: Key, at: Time): set<Time> {
    if at >= k.deadline then {} else k.zset
  }

  /** ZREMRANGEBYSCORE 0 .. cut */
  function Prune(zset: set<Time>, cut: Time): set<Time> {
    set t | t in zset && !(0.0 <= t <= cut)
  }

  /** The MULTI/EXEC block of a request stamped `now`, run at store time `at`. */
  function Exec(k: Key, now: Time, at: Time, window: Time): Key {
    Key(Prune(Visible(k, at), now - window) + {now}, at + window + 1.0)
  }

  function Zrem(k: Key, now: Time): Key {
    k.(zset := k.zset - {now})
  }

  // ---- runs ----

  /** `Request` is the atomic block of one call; `Remove` is the later ZREM of a
      rejected call. */
  datatype Event = Request(now: Time, at: Time) | Remove(stamp: Time)

  datatype Config = Config(limit: int, window: Time)

  /** What happened so far: the key, and every request with its verdict. */
  datatype State = State(key: Key, requests: seq<(Time, Time)>, admitted: set<Time>, pending: set<Time>)

  const START: State := State(FRESH_KEY, [], {}, {})

  predicate Admits(s: State, c: Config, now: Time, at: Time) {
    |Exec(s.key, now, at, c.window).zset| <= c.limit
  }

  predicate Stamped(s: State, now: Time) {
    exists i | 0 <= i < |s.requests| :: s.requests[i].0 == now
  }

  predicate Enabled(s: State, c: Config, e: Event) {
    match e
    case Request(now, at) =>
      && !Stamped(s, now) && now >= 0.0
      && (s.requests != [] ==> at >= s.requests[|s.requests| - 1].1)
    case Remove(now) => now in s.pending
  }

  function Effect(s: State, c: Config, e: Event): State {
    match e
    case Request(now, at) =>
      var ok := Admits(s, c, now, at);
      State(Exec(s.key, now, at, c.window), s.requests + [(now, at)],
            if ok then s.admitted + {now} else s.admitted,
            if ok then s.pending else s.pending + {now})
    case Remove(now) => s.(key := Zrem(s.key, now), pending := s.pending - {now})
  }

  ghost predicate IsRun(ss: seq<State>, es: seq<Event>, c: Config) {
    && |ss| == |es| + 1 && ss[0] == START
    && (forall i | 0 <= i < |es| :: IsStep(ss, es, c, i))
  }

  ghost predicate IsStep(ss: seq<State>, es: seq<Event>, c: Config, i: nat)
    requires |ss| == |es| + 1 && i < |es|
  {
    Enabled(ss[i], c, es[i]) && ss[i + 1] == Effect(ss[i], c, es[i])
  }

  /** The clocks: a stamp is at most `lag` behind and `ahead` before the moment
      the store runs the block. */
  ghost predicate ClocksWithin(s: State, lag: Time, ahead: Time) {
    forall i | 0 <= i < |s.requests| :: s.requests[i].1 - lag <= s.requests[i].0 <= s.requests[i].1 + ahead
  }

  // ---- what the sorted set holds ----

  /** Later requests have pruned the stamp, or the key expired under it. */
  ghost predicate Outlived(s: State, c: Config, i: nat, j: nat)
    requires i < |s.requests| && j < |s.requests|
  {
    || s.requests[i].0 <= s.requests[j].0 - c.window
    || (i < j && s.requests[j].1 >= s.requests[j - 1].1 + c.window + 1.0)
  }

  /** A request's entry is in the set exactly when it is admitted or not yet
      removed and no later request has outlived it. */
  ghost predicate Held(s: State, c: Config, i: nat)
    requires i < |s.requests|
  {
    s.requests[i].0 in s.key.zset <==>
      && s.requests[i].0 in s.admitted + s.pending
      && forall j | i < j < |s.requests| :: !Outlived(s, c, i, j)
  }

  /** The requests have distinct stamps, none negative, and run in the order listed. */
  ghost predicate Ordered(rs: seq<(Time, Time)>) {
    && (forall i, j | 0 <= i < j < |rs| :: rs[i].0 != rs[j].0)
    && (forall i, j | 0 <= i <= j < |rs| :: rs[i].1 <= rs[j].1)
    && (forall i | 0 <= i < |rs| :: rs[i].0 >= 0.0)
  }

  /** The log of requests: distinct stamps, store times in order, and nothing in
      the sets that is not in the log. */
  ghost predicate LogInv(s: State) {
    && Ordered(s.requests)
    && (forall t | t in s.key.zset + s.admitted + s.pending :: Stamped(s, t))
    && s.admitted !! s.pending
  }

  ghost predicate Inv(s: State, c: Config) {
    && LogInv(s)
    && (forall i | 0 <= i < |s.requests| :: Held(s, c, i))
    && (s.requests != [] ==> s.key.deadline == s.requests[|s.requests| - 1].1 + c.window + 1.0)
  }

  lemma StartInv(c: Config)
    ensures Inv(START, c)
  {
  }

  lemma RequestStamped(s: State, c: Config, now: Time, at: Time, t: Time)
    requires LogInv(s) && t in Effect(s, c, Request(now, at)).key.zset + s.admitted + s.pending + {now}
    ensures Stamped(Effect(s, c, Request(now, at)), t)
  {
    var s' := Effect(s, c, Request(now, at));
    if t == now {
      assert s'.requests[|s.requests|].0 == now;
    } else {
      assert Stamped(s, t);
      var i :| 0 <= i < |s.requests| && s.requests[i].0 == t;
      assert s'.requests[i].0 == t;
    }
  }

  lemma OrderedAppend(rs: seq<(Time, Time)>, now: Time, at: Time)
    requires Ordered(rs) && (forall i | 0 <= i < |rs| :: rs[i].0 != now) && now >= 0.0
    requires rs != [] ==> at >= rs[|rs| - 1].1
    ensures Ordered(rs + [(now, at)])
  {
    var n, rs' := |rs|, rs + [(now, at)];
    forall i, j | 0 <= i < j < |rs'|
      ensures rs'[i].0 != rs'[j].0 && rs'[i].1 <= rs'[j].1
    {
      assert rs'[i] == rs[i] && (j < n ==> rs'[j] == rs[j]);
      assert rs[i].1 <= rs[n - 1].1;
    }
  }

  lemma RequestKeepsLog(s: State, c: Config, now: Time, at: Time)
    requires LogInv(s) && Enabled(s, c, Request(now, at))
    ensures LogInv(Effect(s, c, Request(now, at)))
  {
    var s' := Effect(s, c, Request(now, at));
    OrderedAppend(s.requests, now, at);
    forall t | t in s'.key.zset + s'.admitted + s'.pending
      ensures Stamped(s', t)
    {
      RequestStamped(s, c, now, at, t);
    }
    assert now !in s.admitted + s.pending;
  }

  lemma RequestKeepsHeld(s: State, c: Config, now: Time, at: Time, i: nat)
    requires Inv(s, c) && Enabled(s, c, Request(now, at)) && i <= |s.requests|
    ensures Held(Effect(s, c, Request(now, at)), c, i)
  {
    var s' := Effect(s, c, Request(now, at));
    var n := |s.requests|;
    if i < n {
      assert Held(s, c, i);
      assert s'.requests[n] == (now, at) && forall j | 0 <= j < n :: s'.requests[j] == s.requests[j];
      assert s.requests[i].0 != now;
      assert Outlived(s', c, i, n) <==> s.requests[i].0 <= now - c.window || at >= s.key.deadline;
      assert forall j | i < j < n :: Outlived(s', c, i, j) == Outlived(s, c, i, j);
    }
  }

  lemma RequestKeepsInv(s: State, c: Config, now: Time, at: Time)
    requires Inv(s, c) && Enabled(s, c, Request(now, at))
    ensures Inv(Effect(s, c, Request(now, at)), c)
  {
    RequestKeepsLog(s, c, now, at);
    forall i | 0 <= i < |Effect(s, c, Request(now, at)).requests|
      ensures Held(Effect(s, c, Request(now, at)), c, i)
    {
      RequestKeepsHeld(s, c, now, at, i);
    }
  }

  lemma RemoveKeepsInv(s: State, c: Config, stamp: Time)
    requires Inv(s, c) && Enabled(s, c, Remove(stamp))
    ensures Inv(Effect(s, c, Remove(stamp)), c)
  {
    var s' := Effect(s, c, Remove(stamp));
    forall t | t in s'.key.zset + s'.admitted + s'.pending
      ensures Stamped(s', t)
    {
      assert Stamped(s, t);
    }
    forall i | 0 <= i < |s'.requests|
      ensures Held(s', c, i)
    {
      assert Held(s, c, i);
      assert forall j | i < j < |s.requests| :: Outlived(s', c, i, j) == Outlived(s, c, i, j);
    }
  }

  lemma {:induction false} RunInv(ss: seq<State>, es: seq<Event>, c: Config, i: nat)
    requires IsRun(ss, es, c) && i < |ss|
    ensures Inv(ss[i], c)
  {
    if i == 0 {
      StartInv(c);
    } else {
      RunInv(ss, es, c, i - 1);
      assert IsStep(ss, es, c, i - 1);
      match es[i - 1]
      case Request(now, at) => RequestKeepsInv(ss[i - 1], c, now, at);
      case Remove(stamp) => RemoveKeepsInv(ss[i - 1], c, stamp);
    }
  }

  // ---- the window bound ----

  /** Any two members lie less than `width` apart: the members of a half-open
      window of that width, whichever end is open. */
  ghost predicate Close(a: set<Time>, width: Time) {
    forall t, u | t in a && u in a :: t - u < width
  }

  /** The store executed request `j` so late that the key had expired. */
  ghost predicate FindsExpired(s: State, c: Config, j: nat)
    requires j < |s.requests|
  {
    j > 0 && s.requests[j].1 >= s.requests[j - 1].1 + c.window + 1.0
  }

  /** No request runs more than `delta` behind one already executed, and an expiry
      never comes between two requests stamped within `window - delta`. */
  ghost predicate WithinSkew(s: State, c: Config, delta: Time) {
    && delta >= 0.0
    && (forall i, j | 0 <= i < j < |s.requests| :: s.requests[i].0 - s.requests[j].0 <= delta)
    && (forall i, j, k | 0 <= i < j <= k < |s.requests| && FindsExpired(s, c, j) ::
          s.requests[k].0 - s.requests[i].0 >= c.window - delta)
  }

  /** No later request outlives one stamped within `window - delta` of the newest. */
  lemma NotOutlived(s: State, c: Config, delta: Time, i: nat, j: nat)
    requires WithinSkew(s, c, delta) && i < j < |s.requests|
    requires s.requests[|s.requests| - 1].0 - s.requests[i].0 < c.window - delta
    ensures !Outlived(s, c, i, j)
  {
    var n := |s.requests| - 1;
    assert j < n ==> s.requests[j].0 - s.requests[n].0 <= delta;
    assert !FindsExpired(s, c, j);
  }

  /** When the newest request is in a close set of admitted requests, the whole
      set is still in the sorted set. */
  lemma CloseSetIsHeld(s: State, c: Config, delta: Time, a: set<Time>)
    requires Inv(s, c) && WithinSkew(s, c, delta) && s.requests != []
    requires a <= s.admitted && Close(a, c.window - delta)
    requires s.requests[|s.requests| - 1].0 in a
    ensures a <= s.key.zset
  {
    forall t | t in a
      ensures t in s.key.zset
    {
      assert Stamped(s, t);
      var i :| 0 <= i < |s.requests| && s.requests[i].0 == t;
      assert s.requests[|s.requests| - 1].0 - t < c.window - delta;
      assert Held(s, c, i);
      forall j | i < j < |s.requests|
        ensures !Outlived(s, c, i, j)
      {
        NotOutlived(s, c, delta, i, j);
      }
    }
  }

  lemma NewestCounts(s: State, c: Config, now: Time, at: Time, delta: Time, a: set<Time>)
    requires Inv(s, c) && Enabled(s, c, Request(now, at))
    requires WithinSkew(Effect(s, c, Request(now, at)), c, delta)
    requires now in a && a <= Effect(s, c, Request(now, at)).admitted && Close(a, c.window - delta)
    ensures |a| <= c.limit
  {
    var s' := Effect(s, c, Request(now, at));
    RequestKeepsInv(s, c, now, at);
    assert now !in s.admitted;
    CloseSetIsHeld(s', c, delta, a);
    SubsetSize(a, s'.key.zset);
  }

  lemma SkewBefore(s: State, s': State, c: Config, delta: Time)
    requires s.requests <= s'.requests && WithinSkew(s', c, delta)
    ensures WithinSkew(s, c, delta)
  {
    forall i, j, k | 0 <= i < j <= k < |s.requests| && FindsExpired(s, c, j)
      ensures s.requests[k].0 - s.requests[i].0 >= c.window - delta
    {
      assert FindsExpired(s', c, j);
    }
  }

  function AtLeastZero(n: int): nat {
    if n < 0 then 0 else n
  }

  /** The limiter's promise: when no request runs more than `delta` behind one
      already executed, and any delay may pass before a rejection's ZREM, no
      half-open window of length `window - delta` contains more than `limit`
      admitted requests. */
  lemma {:induction false} WindowBound(ss: seq<State>, es: seq<Event>, c: Config, i: nat, delta: Time, a: set<Time>)
    requires IsRun(ss, es, c) && i < |ss| && WithinSkew(ss[i], c, delta)
    requires a <= ss[i].admitted && Close(a, c.window - delta)
    ensures |a| <= AtLeastZero(c.limit)
  {
    if i > 0 {
      var s, s' := ss[i - 1], ss[i];
      assert IsStep(ss, es, c, i - 1);
      SkewBefore(s, s', c, delta);
      RunInv(ss, es, c, i - 1);
      if es[i - 1].Request? && es[i - 1].now in a {
        NewestCounts(s, c, es[i - 1].now, es[i - 1].at, delta, a);
      } else {
        WindowBound(ss, es, c, i - 1, delta, a);
      }
    }
  }

  /** Clocks within `lag` and `ahead` of the store keep requests within the sum. */
  lemma ClocksGiveSkew(s: State, c: Config, lag: Time, ahead: Time)
    requires LogInv(s) && ClocksWithin(s, lag, ahead) && lag + ahead >= 0.0
    ensures WithinSkew(s, c, lag + ahead)
  {
  }

  function InWindow(a: set<Time>, from: Time, width: Time): set<Time> {
    set t | t in a && from <= t < from + width
  }

  /** When requests run in the order of their stamps, with clocks within one second of
      the store in all, every half-open window of the full length is bounded. */
  lemma ExactWindowBound(ss: seq<State>, es: seq<Event>, c: Config, i: nat, lag: Time, ahead: Time, from: Time)
    requires IsRun(ss, es, c) && i < |ss| && InOrder(ss[i])
    requires ClocksWithin(ss[i], lag, ahead) && lag + ahead <= 1.0
    ensures |InWindow(ss[i].admitted, from, c.window)| <= AtLeastZero(c.limit)
  {
    RunInv(ss, es, c, i);
    OrderGivesSkew(ss[i], c, lag, ahead);
    WindowBound(ss, es, c, i, 0.0, InWindow(ss[i].admitted, from, c.window));
  }

  lemma OrderGivesSkew(s: State, c: Config, lag: Time, ahead: Time)
    requires LogInv(s) && InOrder(s) && ClocksWithin(s, lag, ahead) && lag + ahead <= 1.0
    ensures WithinSkew(s, c, 0.0)
  {
    forall i, j, k | 0 <= i < j <= k < |s.requests| && FindsExpired(s, c, j)
      ensures s.requests[k].0 - s.requests[i].0 >= c.window
    {
      assert s.requests[i].1 <= s.requests[j - 1].1 && s.requests[j].1 <= s.requests[k].1;
    }
  }

  /** Why expiry has to be part of the hypothesis: two requests executed in the order
      of their stamps, the second one stalled until the key has expired, are both
      admitted although the limit is one and they lie in one window. */
  lemma ExpiryCutsWindow()
    ensures var c := Config(1, 60.0);
            var s := Effect(START, c, Request(1.0, 1.0));
            var s' := Effect(s, c, Request(6.0, 100.0));
            && Enabled(START, c, Request(1.0, 1.0)) && Enabled(s, c, Request(6.0, 100.0))
            && InOrder(s') && InWindow(s'.admitted, 1.0, 60.0) == {1.0, 6.0}
  {
  }

  // ---- refinement of the plain history ----

  /** The entries a request counts besides itself. */
  function Counted(s: State, c: Config, now: Time): set<Time> {
    set t | t in s.admitted + s.pending && now - c.window < t
  }

  function InOpenWindow(s: State, c: Config, now: Time): set<Time> {
    set t | t in s.admitted && now - c.window < t < now
  }

  /** The plain specification: fewer than `limit` admitted in the open window
      before the request. */
  predicate HistoryAdmits(s: State, c: Config, now: Time) {
    |InOpenWindow(s, c, now)| < c.limit
  }

  ghost predicate InOrder(s: State) {
    forall i, j | 0 <= i < j < |s.requests| :: s.requests[i].0 < s.requests[j].0
  }

  /** The request is stamped after every earlier one, and clocks are within
      `lag` and `ahead`, here and before. */
  ghost predicate Timely(s: State, now: Time, at: Time, lag: Time, ahead: Time) {
    && InOrder(s) && ClocksWithin(s, lag, ahead)
    && (s.requests != [] ==> s.requests[|s.requests| - 1].0 < now)
    && at - lag <= now <= at + ahead
  }

  /** Key expiry changes nothing as long as the clocks are within one second:
      whatever it drops, the request would have pruned. */
  lemma ExpiryIsInvisible(s: State, c: Config, now: Time, at: Time, lag: Time, ahead: Time)
    requires Inv(s, c) && Enabled(s, c, Request(now, at)) && ClocksWithin(s, lag, ahead)
    requires at - lag <= now && lag + ahead <= 1.0
    ensures Prune(Visible(s.key, at), now - c.window) == Prune(s.key.zset, now - c.window)
  {
  }

  /** What the atomic block counts: itself, the admitted requests of the window,
      and the rejected ones whose ZREM is still under way. */
  lemma CountIsExact(s: State, c: Config, now: Time, at: Time, lag: Time, ahead: Time)
    requires Inv(s, c) && Enabled(s, c, Request(now, at)) && Timely(s, now, at, lag, ahead)
    requires lag + ahead <= 1.0
    ensures Exec(s.key, now, at, c.window).zset == Counted(s, c, now) + {now}
    ensures Admits(s, c, now, at) <==> |Counted(s, c, now)| < c.limit
  {
    var held := Prune(s.key.zset, now - c.window);
    ExpiryIsInvisible(s, c, now, at, lag, ahead);
    forall t
      ensures t in held <==> t in Counted(s, c, now)
    {
      if t in s.admitted + s.pending && now - c.window < t {
        RecentIsHeld(s, c, now, at, lag, ahead, t);
      }
      if t in s.key.zset {
        assert Stamped(s, t);
        var i :| 0 <= i < |s.requests| && s.requests[i].0 == t;
        assert Held(s, c, i);
      }
    }
    assert held == Counted(s, c, now);
    StampsBefore(s, c, now);
    assert now !in held;
  }

  lemma RecentIsHeld(s: State, c: Config, now: Time, at: Time, lag: Time, ahead: Time, t: Time)
    requires Inv(s, c) && Timely(s, now, at, lag, ahead) && lag + ahead <= 1.0
    requires s.requests != [] ==> at >= s.requests[|s.requests| - 1].1
    requires t in s.admitted + s.pending && now - c.window < t
    ensures t in s.key.zset
  {
    assert Stamped(s, t);
    var i :| 0 <= i < |s.requests| && s.requests[i].0 == t;
    assert Held(s, c, i);
    forall j | i < j < |s.requests|
      ensures !Outlived(s, c, i, j)
    {
      assert s.requests[j].0 < now;
      assert t <= s.requests[i].1 + ahead <= s.requests[j - 1].1 + ahead;
      assert now >= at - lag >= s.requests[j].1 - lag;
    }
  }

  /** With no ZREM under way the limiter decides as the plain history does. */
  lemma RefinesHistory(s: State, c: Config, now: Time, at: Time, lag: Time, ahead: Time)
    requires Inv(s, c) && Enabled(s, c, Request(now, at)) && Timely(s, now, at, lag, ahead)
    requires lag + ahead <= 1.0 && s.pending == {}
    ensures Admits(s, c, now, at) <==> HistoryAdmits(s, c, now)
  {
    CountIsExact(s, c, now, at, lag, ahead);
    StampsBefore(s, c, now);
    assert Counted(s, c, now) == InOpenWindow(s, c, now);
  }

  lemma StampsBefore(s: State, c: Config, now: Time)
    requires Inv(s, c) && InOrder(s)
    requires s.requests != [] ==> s.requests[|s.requests| - 1].0 < now
    ensures forall t | t in s.admitted + s.pending :: t < now
  {
    forall t | t in s.admitted + s.pending
      ensures t < now
    {
      assert Stamped(s, t);
    }
  }

  /** With delayed ZREMs only over-rejection is possible. */
  lemma OnlyOverRejects(s: State, c: Config, now: Time, at: Time, lag: Time, ahead: Time)
    requires Inv(s, c) && Enabled(s, c, Request(now, at)) && Timely(s, now, at, lag, ahead)
    requires lag + ahead <= 1.0 && Admits(s, c, now, at)
    ensures HistoryAdmits(s, c, now)
  {
    CountIsExact(s, c, now, at, lag, ahead);
    StampsBefore(s, c, now);
    SubsetSize(InOpenWindow(s, c, now), Counted(s, c, now));
  }

  /** A delayed ZREM does over-reject: the phantom of a rejected request fills the
      window in which nothing was admitted. */
  lemma PhantomOverRejects()
    ensures var c := Config(1, 10.0);
            var s := Effect(Effect(START, c, Request(1.0, 1.0)), c, Request(5.0, 5.0));
            && Enabled(START, c, Request(1.0, 1.0))
            && Enabled(Effect(START, c, Request(1.0, 1.0)), c, Request(5.0, 5.0))
            && Enabled(s, c, Request(11.5, 11.5))
            && HistoryAdmits(s, c, 11.5) && !Admits(s, c, 11.5, 11.5)
  {
  }

  // ---- the call itself ----

  /** The shared key, changed in place by the commands of `check_rate_limit`. */
  class SharedKey {
    var zset: set<Time>
    var deadline: Time

    constructor ()
      ensures AsKey() == FRESH_KEY
    {
      zset, deadline := {}, 0.0;
    }

    function AsKey(): Key
      reads this
    {
      Key(zset, deadline)
    }

    /** The pipelined block; returns the third result, the cardinality. */
    method Pipeline(now: Time, at: Time, window: Time) returns (count: nat)
      modifies this
      ensures AsKey() == Exec(old(AsKey()), now, at, window)
      ensures count == |zset|
    {
      if at >= deadline {
        zset := {};
      }
      zset := Prune(zset, now - window);
      zset := zset + {now};
      count := |zset|;
      deadline := at + window + 1.0;
    }

    /** `check_rate_limit` with nothing between its two commands: the whole call is
        the request event followed, for a rejection, by its removal. */
    method CheckRateLimit(ghost s: State, c: Config, now: Time, at: Time) returns (allowed: bool, ghost s': State)
      requires s.key == AsKey() && Enabled(s, c, Request(now, at)) && now !in s.pending
      modifies this
      ensures allowed <==> Admits(s, c, now, at)
      ensures s' == if allowed then Effect(s, c, Request(now, at))
                    else Effect(Effect(s, c, Request(now, at)), c, Remove(now))
      ensures s'.key == AsKey() && s'.pending == s.pending
    {
      var count := Pipeline(now, at, c.window);
      s' := Effect(s, c, Request(now, at));
      if count > c.limit {
        zset := zset - {now};
        s' := Effect(s', c, Remove(now));
        return false, s';
      }
      return true, s';
    }
  }
}
