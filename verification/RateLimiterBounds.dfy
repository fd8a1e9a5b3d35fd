/** How far the rate limiter's promises reach: when key expiry is harmless, and that the
    window bound cannot be made longer. */
module RateLimiterBounds {
  import opened Common
  import opened RateLimiter

  // ---- full windows ----

  ghost predicate Increasing(ts: seq<Time>) {
    forall i, j | 0 <= i < j < |ts| :: ts[i] < ts[j]
  }

  ghost predicate FitsIn(ts: seq<Time>, width: Time) {
    forall t, u :: t in ts && u in ts ==> 0.0 <= t && u - t < width
  }

  /** Any number of stamps fit between two times. */
  lemma {:induction false} Spread(lo: Time, hi: Time, n: nat) returns (ts: seq<Time>)
    requires lo < hi
    ensures |ts| == n && Increasing(ts) && forall t :: t in ts ==> lo <= t < hi
    decreases n
  {
    ts := [];
    if n > 0 {
      var mid := (lo + hi) / 2.0;
      var rest := Spread(mid, hi, n - 1);
      assert forall i | 0 <= i < |rest| :: rest[i] in rest;
      ts := [lo] + rest;
    }
  }

  lemma IncreasingCount(ts: seq<Time>)
    requires Increasing(ts)
    ensures |ToSet(ts)| == |ts| && forall t :: t in ToSet(ts) && ts != [] ==> t <= ts[|ts| - 1]
  {
    assert Distinct(ts);
    DistinctSize(ts);
  }

  function Burst(ts: seq<Time>, ahead: Time): (r: seq<(Time, Time)>)
    ensures |r| == |ts| && forall i :: 0 <= i < |ts| ==> r[i] == (ts[i], ts[i] - ahead)
  {
    seq(|ts|, i requires 0 <= i < |ts| => (ts[i], ts[i] - ahead))
  }

  /** Requests with the stamps `ts`, each run `ahead` before its stamp, all admitted. */
  ghost predicate Filled(s: State, c: Config, ts: seq<Time>, ahead: Time) {
    && s.requests == Burst(ts, ahead) && s.key.zset == s.admitted == ToSet(ts) && s.pending == {}
    && (ts != [] ==> s.key.deadline == ts[|ts| - 1] - ahead + c.window + 1.0)
  }

  lemma NotStamped(s: State, c: Config, ts: seq<Time>, ahead: Time, now: Time)
    requires Filled(s, c, ts, ahead) && Increasing(ts) && (ts != [] ==> ts[|ts| - 1] < now)
    ensures !Stamped(s, now)
  {
    assert forall i | 0 <= i < |ts| :: ts[i] <= ts[|ts| - 1];
  }

  lemma BurstIsEnabled(s: State, c: Config, ts: seq<Time>, ahead: Time, now: Time)
    requires Filled(s, c, ts, ahead) && Increasing(ts) && 0.0 <= now && (ts != [] ==> ts[|ts| - 1] < now)
    ensures Enabled(s, c, Request(now, now - ahead))
  {
    NotStamped(s, c, ts, ahead, now);
  }

  lemma BurstIsVisible(s: State, c: Config, ts: seq<Time>, ahead: Time, now: Time)
    requires Filled(s, c, ts, ahead) && c.window > 0.0
    requires forall t :: t in ts ==> now - c.window < t < now
    ensures Prune(Visible(s.key, now - ahead), now - c.window) == ToSet(ts)
  {
    if ts != [] {
      assert ts[|ts| - 1] in ts;
    }
  }

  /** An admitted request, field by field. */
  lemma AdmittedState(s: State, c: Config, now: Time, at: Time, kept: set<Time>)
    requires Prune(Visible(s.key, at), now - c.window) == kept && |kept + {now}| <= c.limit
    ensures Effect(s, c, Request(now, at)) ==
            State(Key(kept + {now}, at + c.window + 1.0), s.requests + [(now, at)], s.admitted + {now}, s.pending)
  {
  }

  lemma OneMore(ts: seq<Time>, now: Time)
    requires Increasing(ts) && now !in ts
    ensures ToSet(ts + [now]) == ToSet(ts) + {now} && |ToSet(ts) + {now}| == |ts| + 1
  {
    IncreasingCount(ts);
  }

  lemma FilledBy(s: State, s': State, c: Config, ts: seq<Time>, ahead: Time, now: Time)
    requires Filled(s, c, ts, ahead) && ToSet(ts + [now]) == ToSet(ts) + {now}
    requires s' == State(Key(ToSet(ts) + {now}, now - ahead + c.window + 1.0), s.requests + [(now, now - ahead)],
                         s.admitted + {now}, s.pending)
    ensures Filled(s', c, ts + [now], ahead)
  {
    BurstMore(ts, ahead, now);
  }

  lemma BurstMore(ts: seq<Time>, ahead: Time, now: Time)
    ensures Burst(ts + [now], ahead) == Burst(ts, ahead) + [(now, now - ahead)]
  {
  }

  lemma Goes(ss: seq<State>, es: seq<Event>, c: Config, e: Event) returns (ss': seq<State>, es': seq<Event>)
    requires IsRun(ss, es, c) && Enabled(ss[|es|], c, e)
    ensures IsRun(ss', es', c) && |es'| == |es| + 1 && ss'[|es'|] == Effect(ss[|es|], c, e)
  {
    ss', es' := ss + [Effect(ss[|es|], c, e)], es + [e];
    assert forall i | 0 <= i < |es| :: IsStep(ss, es, c, i) ==> IsStep(ss', es', c, i);
    assert IsStep(ss', es', c, |es|);
  }

  lemma FrontFits(ts: seq<Time>, front: seq<Time>, last: Time, width: Time)
    requires Increasing(ts) && FitsIn(ts, width) && ts == front + [last]
    ensures Increasing(front) && FitsIn(front, width)
    ensures forall t :: t in front ==> last - width < t < last
  {
    assert forall i | 0 <= i < |front| :: front[i] == ts[i];
    assert forall t :: t in front ==> t in ts;
    assert last in ts;
    forall t | t in front
      ensures last - width < t < last
    {
      var i :| 0 <= i < |front| && front[i] == t;
      assert ts[i] == t && ts[|front|] == last;
    }
  }

  lemma {:induction false} Fills(c: Config, ts: seq<Time>, ahead: Time) returns (ss: seq<State>, es: seq<Event>)
    requires Increasing(ts) && |ts| <= c.limit && c.window > 0.0
    requires FitsIn(ts, c.window)
    ensures IsRun(ss, es, c) && Filled(ss[|es|], c, ts, ahead)
    decreases |ts|
  {
    if ts == [] {
      ss, es := [START], [];
    } else {
      var front, now := ts[..|ts| - 1], ts[|ts| - 1];
      assert ts == front + [now] && now in ts;
      FrontFits(ts, front, now, c.window);
      ss, es := Fills(c, front, ahead);
      var s := ss[|es|];
      BurstIsEnabled(s, c, front, ahead, now);
      ss, es := Goes(ss, es, c, Request(now, now - ahead));
      FillsMore(s, ss[|es|], c, front, ahead, now);
    }
  }

  /** The next request of the burst. */
  lemma FillsMore(s: State, s': State, c: Config, ts: seq<Time>, ahead: Time, now: Time)
    requires Filled(s, c, ts, ahead) && Increasing(ts) && |ts| < c.limit && c.window > 0.0
    requires forall t :: t in ts ==> now - c.window < t < now
    requires s' == Effect(s, c, Request(now, now - ahead))
    ensures Filled(s', c, ts + [now], ahead)
  {
    BurstIsVisible(s, c, ts, ahead, now);
    OneMore(ts, now);
    AdmittedState(s, c, now, now - ahead, ToSet(ts));
    FilledBy(s, s', c, ts, ahead, now);
  }

  // ---- when expiry is harmless ----

  /** In no run whose clocks are within `lag` and `ahead`, and with no ZREM under way,
      does expiry make the limiter decide otherwise than the history. */
  ghost predicate ExpiryHarmless(c: Config, lag: Time, ahead: Time) {
    forall ss: seq<State>, es: seq<Event>, i: nat, now: Time, at: Time ::
      IsRun(ss, es, c) && i < |ss| && Enabled(ss[i], c, Request(now, at))
      && Timely(ss[i], now, at, lag, ahead) && ss[i].pending == {}
      ==> (Admits(ss[i], c, now, at) <==> HistoryAdmits(ss[i], c, now))
  }

  /** The request that finds the key expired although the window before it is full. */
  lemma StalledAfterFull(s: State, c: Config, ts: seq<Time>, lag: Time, ahead: Time, now: Time)
    requires Filled(s, c, ts, ahead) && Increasing(ts) && |ts| == c.limit > 0
    requires forall t :: t in ts ==> 0.0 <= t && now - c.window < t < now
    requires lag + ahead > 1.0 && now >= ts[|ts| - 1] + c.window + 1.0 - (lag + ahead)
    requires 0.0 <= now <= ts[|ts| - 1] + c.window + 1.0
    ensures var at := ts[|ts| - 1] - ahead + c.window + 1.0;
            && Enabled(s, c, Request(now, at)) && Timely(s, now, at, lag, ahead)
            && Admits(s, c, now, at) && !HistoryAdmits(s, c, now)
  {
    var p := ts[|ts| - 1];
    var at := p - ahead + c.window + 1.0;
    assert p in ts;
    NotStamped(s, c, ts, ahead, now);
    assert Exec(s.key, now, at, c.window).zset == {now};
    assert InOpenWindow(s, c, now) == ToSet(ts);
    IncreasingCount(ts);
  }

  /** A run that fills a window, and a stalled request in it that is admitted all the
      same. */
  lemma FullThenStalled(c: Config, lag: Time, ahead: Time)
    returns (ss: seq<State>, es: seq<Event>, ts: seq<Time>, now: Time)
    requires c.window > 0.0 && c.limit >= 1 && lag + ahead > 1.0
    ensures IsRun(ss, es, c) && |ts| == c.limit && Filled(ss[|es|], c, ts, ahead) && Increasing(ts)
    ensures (forall t :: t in ts ==> 0.0 <= t < now) && 0.0 <= now < c.window
    ensures var s, at := ss[|es|], ts[|ts| - 1] - ahead + c.window + 1.0;
            && Enabled(s, c, Request(now, at)) && Timely(s, now, at, lag, ahead)
            && Admits(s, c, now, at) && !HistoryAdmits(s, c, now)
  {
    var room := if c.window < lag + ahead - 1.0 then c.window else lag + ahead - 1.0;
    var e := room / 2.0;
    ts := Spread(0.0, e, c.limit);
    now := c.window - e;
    assert ts[|ts| - 1] in ts;
    ss, es := Fills(c, ts, ahead);
    StalledAfterFull(ss[|es|], c, ts, lag, ahead, now);
  }

  lemma ExpiryHurts(c: Config, lag: Time, ahead: Time)
    requires c.window > 0.0 && c.limit >= 1 && lag + ahead > 1.0
    ensures !ExpiryHarmless(c, lag, ahead)
  {
    var ss, es, ts, now := FullThenStalled(c, lag, ahead);
  }

  lemma ExpiryHelps(c: Config, lag: Time, ahead: Time)
    requires lag + ahead <= 1.0 || c.limit < 1
    ensures ExpiryHarmless(c, lag, ahead)
  {
    forall ss: seq<State>, es: seq<Event>, i: nat, now: Time, at: Time |
      IsRun(ss, es, c) && i < |ss| && Enabled(ss[i], c, Request(now, at))
      && Timely(ss[i], now, at, lag, ahead) && ss[i].pending == {}
      ensures Admits(ss[i], c, now, at) <==> HistoryAdmits(ss[i], c, now)
    {
      RunInv(ss, es, c, i);
      if lag + ahead <= 1.0 {
        RefinesHistory(ss[i], c, now, at, lag, ahead);
      } else {
        assert now in Exec(ss[i].key, now, at, c.window).zset;
      }
    }
  }

  /** Expiry is harmless exactly when the clocks are within one second of the store in
      all, or nothing is ever admitted anyway. */
  lemma ExpiryHarmlessIff(c: Config, lag: Time, ahead: Time)
    requires c.window > 0.0
    ensures ExpiryHarmless(c, lag, ahead) <==> lag + ahead <= 1.0 || c.limit < 1
  {
    if lag + ahead <= 1.0 || c.limit < 1 {
      ExpiryHelps(c, lag, ahead);
    } else {
      ExpiryHurts(c, lag, ahead);
    }
  }

  // ---- when full windows are bounded ----

  /** In every run in stamp order whose clocks are within `lag` and `ahead`, every
      half-open window of the full length is bounded. */
  ghost predicate FullWindowsBounded(c: Config, lag: Time, ahead: Time) {
    forall ss: seq<State>, es: seq<Event>, i: nat, from: Time ::
      IsRun(ss, es, c) && i < |ss| && InOrder(ss[i]) && ClocksWithin(ss[i], lag, ahead)
      ==> |InWindow(ss[i].admitted, from, c.window)| <= AtLeastZero(c.limit)
  }

  lemma {:induction false} NothingAdmitted(ss: seq<State>, es: seq<Event>, c: Config, i: nat)
    requires IsRun(ss, es, c) && i < |ss| && c.limit < 1
    ensures ss[i].admitted == {}
    decreases i
  {
    if i > 0 {
      NothingAdmitted(ss, es, c, i - 1);
      assert IsStep(ss, es, c, i - 1);
      if es[i - 1].Request? {
        assert es[i - 1].now in Exec(ss[i - 1].key, es[i - 1].now, es[i - 1].at, c.window).zset;
      }
    }
  }

  /** The stalled request is one too many for its window. */
  lemma OneTooMany(s: State, c: Config, ts: seq<Time>, now: Time, at: Time)
    requires s.admitted == ToSet(ts) && Increasing(ts) && |ts| == c.limit && Admits(s, c, now, at)
    requires (forall t :: t in ts ==> 0.0 <= t < now) && 0.0 <= now < c.window
    ensures |InWindow(Effect(s, c, Request(now, at)).admitted, 0.0, c.window)| > c.limit
  {
    assert now !in ts;
    OneMore(ts, now);
    assert InWindow(ToSet(ts) + {now}, 0.0, c.window) == ToSet(ts) + {now};
  }

  lemma TimelyAfter(s: State, c: Config, now: Time, at: Time, lag: Time, ahead: Time)
    requires Timely(s, now, at, lag, ahead)
    ensures var s' := Effect(s, c, Request(now, at)); InOrder(s') && ClocksWithin(s', lag, ahead)
  {
  }

  lemma FullWindowOverflows(c: Config, lag: Time, ahead: Time)
    requires c.window > 0.0 && c.limit >= 1 && lag + ahead > 1.0
    ensures !FullWindowsBounded(c, lag, ahead)
  {
    var ss, es, ts, now := FullThenStalled(c, lag, ahead);
    var at := ts[|ts| - 1] - ahead + c.window + 1.0;
    OneTooMany(ss[|es|], c, ts, now, at);
    TimelyAfter(ss[|es|], c, now, at, lag, ahead);
    var ss', es' := Goes(ss, es, c, Request(now, at));
    assert |InWindow(ss'[|es'|].admitted, 0.0, c.window)| > c.limit;
  }

  /** Windows of the full length are bounded, over all runs in stamp order, exactly when
      clocks are within one second of the store in all, or nothing is ever admitted. */
  lemma FullWindowIff(c: Config, lag: Time, ahead: Time)
    requires c.window > 0.0
    ensures FullWindowsBounded(c, lag, ahead) <==> lag + ahead <= 1.0 || c.limit < 1
  {
    if lag + ahead <= 1.0 || c.limit < 1 {
      forall ss: seq<State>, es: seq<Event>, i: nat, from: Time |
        IsRun(ss, es, c) && i < |ss| && InOrder(ss[i]) && ClocksWithin(ss[i], lag, ahead)
        ensures |InWindow(ss[i].admitted, from, c.window)| <= AtLeastZero(c.limit)
      {
        if lag + ahead <= 1.0 {
          ExactWindowBound(ss, es, c, i, lag, ahead, from);
        } else {
          NothingAdmitted(ss, es, c, i);
          assert InWindow({}, from, c.window) == {};
        }
      }
    } else {
      FullWindowOverflows(c, lag, ahead);
    }
  }

  // ---- the window bound is sharp ----

  lemma NothingKept(s: State, c: Config, ts: seq<Time>, ahead: Time, p: Time, at: Time)
    requires Filled(s, c, ts, ahead) && Increasing(ts) && ts != [] && FitsIn(ts, c.window) && p == ts[|ts| - 1]
    ensures Prune(Visible(s.key, at), p) == {}
  {
    IncreasingCount(ts);
    assert forall t :: t in ToSet(ts) ==> t in ts;
  }

  /** A request `window` after the last of a burst finds nothing left of it. */
  lemma PrunerState(s: State, c: Config, p: Time, at: Time)
    requires Prune(Visible(s.key, at), p) == {} && c.limit >= 1
    ensures Effect(s, c, Request(p + c.window, at)) ==
            State(Key({p + c.window}, at + c.window + 1.0), s.requests + [(p + c.window, at)],
                  s.admitted + {p + c.window}, s.pending)
  {
    var none: set<Time> := {};
    assert none + {p + c.window} == {p + c.window};
    assert p + c.window - c.window == p;
    AdmittedState(s, c, p + c.window, at, none);
  }

  /** A request stamped `delta` before that one, and run after it, finds that one only. */
  lemma LatecomerState(s: State, c: Config, last: Time, at: Time, delta: Time)
    requires s.key == Key({last}, at + c.window + 1.0) && c.limit >= 2 && 0.0 < delta < c.window
    ensures var late := last - delta; var s' := Effect(s, c, Request(late, at));
            s'.admitted == s.admitted + {late} && s'.requests == s.requests + [(late, at)]
  {
    assert Prune(Visible(s.key, at), last - delta - c.window) == {last};
    AdmittedState(s, c, last - delta, at, {last});
  }

  lemma PrunerRuns(ss: seq<State>, es: seq<Event>, c: Config, ts: seq<Time>, ahead: Time, p: Time)
    returns (ss': seq<State>, es': seq<Event>)
    requires IsRun(ss, es, c) && Filled(ss[|es|], c, ts, ahead) && Increasing(ts) && |ts| == c.limit >= 1
    requires c.window > 0.0 && FitsIn(ts, c.window) && p == ts[|ts| - 1]
    ensures IsRun(ss', es', c)
    ensures var s, at := ss[|es|], p + c.window - ahead;
            ss'[|es'|] == State(Key({p + c.window}, at + c.window + 1.0), s.requests + [(p + c.window, at)],
                                s.admitted + {p + c.window}, s.pending)
  {
    var at := p + c.window - ahead;
    assert p in ts;
    NothingKept(ss[|es|], c, ts, ahead, p, at);
    PrunerState(ss[|es|], c, p, at);
    NotStamped(ss[|es|], c, ts, ahead, p + c.window);
    ss', es' := Goes(ss, es, c, Request(p + c.window, at));
  }

  lemma LatecomerRuns(ss: seq<State>, es: seq<Event>, c: Config, last: Time, at: Time, delta: Time)
    returns (ss': seq<State>, es': seq<Event>)
    requires IsRun(ss, es, c) && ss[|es|].key == Key({last}, at + c.window + 1.0)
    requires c.limit >= 2 && 0.0 < delta < c.window && Enabled(ss[|es|], c, Request(last - delta, at))
    ensures IsRun(ss', es', c)
    ensures var s, s' := ss[|es|], ss'[|es'|];
            s'.admitted == s.admitted + {last - delta} && s'.requests == s.requests + [(last - delta, at)]
  {
    LatecomerState(ss[|es|], c, last, at, delta);
    ss', es' := Goes(ss, es, c, Request(last - delta, at));
  }

  lemma LatecomerIsEnabled(s: State, s1: State, c: Config, ts: seq<Time>, ahead: Time, p: Time, delta: Time)
    requires Filled(s, c, ts, ahead) && Increasing(ts) && ts != [] && 0.0 < delta < c.window && p == ts[|ts| - 1] >= 0.0
    requires s1.requests == s.requests + [(p + c.window, p + c.window - ahead)]
    ensures Enabled(s1, c, Request(p + c.window - delta, p + c.window - ahead))
  {
    NotStamped(s, c, ts, ahead, p + c.window - delta);
  }

  lemma BurstClocks(s: State, ts: seq<Time>, lag: Time, ahead: Time)
    requires s.requests == Burst(ts, ahead) && lag + ahead >= 0.0
    ensures ClocksWithin(s, lag, ahead)
  {
  }

  lemma ClocksMore(s: State, s': State, now: Time, at: Time, lag: Time, ahead: Time)
    requires ClocksWithin(s, lag, ahead) && s'.requests == s.requests + [(now, at)] && at - lag <= now <= at + ahead
    ensures ClocksWithin(s', lag, ahead)
  {
  }

  /** One more request than the burst in a window that holds them all. */
  lemma TooMany(admitted: set<Time>, ts: seq<Time>, x: Time, width: Time)
    requires Increasing(ts) && x !in ts && ToSet(ts) <= admitted && x in admitted
    requires (forall t :: t in ts ==> 0.0 <= t < width) && 0.0 <= x < width
    ensures |InWindow(admitted, 0.0, width)| > |ts|
  {
    OneMore(ts, x);
    assert forall t :: t in ToSet(ts) ==> t in ts;
    SubsetSize(ToSet(ts) + {x}, InWindow(admitted, 0.0, width));
  }

  /** With all clocks alike: a burst and a request `window` after it. */
  lemma SharpInOrder(c: Config, ts: seq<Time>, lag: Time, ahead: Time) returns (ss: seq<State>, es: seq<Event>)
    requires Increasing(ts) && FitsIn(ts, c.window) && |ts| == c.limit >= 1 && c.window > 0.0 && lag + ahead == 0.0
    ensures IsRun(ss, es, c) && ClocksWithin(ss[|es|], lag, ahead)
    ensures ss[|es|].admitted == ToSet(ts) + {ts[|ts| - 1] + c.window}
  {
    var p := ts[|ts| - 1];
    ss, es := Fills(c, ts, ahead);
    var s := ss[|es|];
    BurstClocks(s, ts, lag, ahead);
    ss, es := PrunerRuns(ss, es, c, ts, ahead, p);
    ClocksMore(s, ss[|es|], p + c.window, p + c.window - ahead, lag, ahead);
  }

  /** A burst, a request `window` after it by the fastest clock, and one at the same
      moment by the slowest. */
  lemma SharpOutOfOrder(c: Config, ts: seq<Time>, lag: Time, ahead: Time) returns (ss: seq<State>, es: seq<Event>)
    requires Increasing(ts) && FitsIn(ts, c.window) && |ts| == c.limit >= 2 && 0.0 < lag + ahead < c.window
    ensures IsRun(ss, es, c) && ClocksWithin(ss[|es|], lag, ahead)
    ensures var last := ts[|ts| - 1] + c.window;
            ss[|es|].admitted == ToSet(ts) + {last} + {last - (lag + ahead)}
  {
    var p := ts[|ts| - 1];
    var last, at := p + c.window, p + c.window - ahead;
    assert p in ts;
    ss, es := Fills(c, ts, ahead);
    var s := ss[|es|];
    BurstClocks(s, ts, lag, ahead);
    ss, es := PrunerRuns(ss, es, c, ts, ahead, p);
    var s1 := ss[|es|];
    ClocksMore(s, s1, last, at, lag, ahead);
    LatecomerIsEnabled(s, s1, c, ts, ahead, p, lag + ahead);
    ss, es := LatecomerRuns(ss, es, c, last, at, lag + ahead);
    ClocksMore(s1, ss[|es|], last - (lag + ahead), at, lag, ahead);
  }

  // With a limit of one the late request needs an empty set: the one before it must be
  // rejected, and removed again.

  lemma RejectedState(s: State, c: Config, now: Time, at: Time, kept: set<Time>)
    requires Prune(Visible(s.key, at), now - c.window) == kept && |kept + {now}| > c.limit
    ensures Effect(s, c, Request(now, at)) ==
            State(Key(kept + {now}, at + c.window + 1.0), s.requests + [(now, at)], s.admitted, s.pending + {now})
  {
  }

  lemma OneBurst(s: State, c: Config, ahead: Time)
    requires Filled(s, c, [0.0], ahead)
    ensures s == State(Key({0.0}, 0.0 - ahead + c.window + 1.0), [(0.0, 0.0 - ahead)], {0.0}, {})
  {
  }

  /** Behind the first request, the next is rejected. */
  lemma SecondState(s: State, c: Config, ahead: Time, h: Time)
    requires c.limit == 1 && 0.0 < h < c.window && Filled(s, c, [0.0], ahead)
    ensures Enabled(s, c, Request(h, h - ahead))
    ensures Effect(s, c, Request(h, h - ahead)) ==
            State(Key({0.0, h}, h - ahead + c.window + 1.0), [(0.0, 0.0 - ahead), (h, h - ahead)], {0.0}, {h})
  {
    OneBurst(s, c, ahead);
    assert Prune(Visible(s.key, h - ahead), h - c.window) == {0.0};
    RejectedState(s, c, h, h - ahead, {0.0});
  }

  /** And so is a third that no longer finds the first. */
  lemma ThirdState(s: State, c: Config, ahead: Time, h: Time)
    requires c.limit == 1 && 0.0 < h < c.window
    requires s == State(Key({0.0, h}, h - ahead + c.window + 1.0), [(0.0, 0.0 - ahead), (h, h - ahead)], {0.0}, {h})
    ensures var w := c.window;
            && Enabled(s, c, Request(w, w - ahead))
            && Effect(s, c, Request(w, w - ahead)) ==
               State(Key({h, w}, w - ahead + w + 1.0), [(0.0, 0.0 - ahead), (h, h - ahead), (w, w - ahead)], {0.0}, {h, w})
  {
    assert Prune(Visible(s.key, c.window - ahead), c.window - c.window) == {h};
    RejectedState(s, c, c.window, c.window - ahead, {h});
  }

  lemma OneThenTwo(c: Config, ahead: Time, h: Time) returns (ss: seq<State>, es: seq<Event>)
    requires c.limit == 1 && 0.0 < h < c.window
    ensures IsRun(ss, es, c)
    ensures var w := c.window;
            ss[|es|] == State(Key({h, w}, w - ahead + w + 1.0),
                              [(0.0, 0.0 - ahead), (h, h - ahead), (w, w - ahead)], {0.0}, {h, w})
  {
    ss, es := Fills(c, [0.0], ahead);
    SecondState(ss[|es|], c, ahead, h);
    ss, es := Goes(ss, es, c, Request(h, h - ahead));
    ThirdState(ss[|es|], c, ahead, h);
    ss, es := Goes(ss, es, c, Request(c.window, c.window - ahead));
  }

  /** The removals of two rejected requests. */
  lemma BothLeave(ss: seq<State>, es: seq<Event>, c: Config, h: Time, w: Time) returns (ss': seq<State>, es': seq<Event>)
    requires IsRun(ss, es, c) && ss[|es|].key.zset == ss[|es|].pending == {h, w} && h != w
    ensures IsRun(ss', es', c)
    ensures var s := ss[|es|]; ss'[|es'|] == s.(key := s.key.(zset := {}), pending := {})
  {
    ss', es' := Goes(ss, es, c, Remove(h));
    assert ss'[|es'|].pending == {w} && ss'[|es'|].key.zset == {w};
    ss', es' := Goes(ss', es', c, Remove(w));
  }

  /** Both leave, and the late request is admitted. */
  lemma SharpForOne(c: Config, lag: Time, ahead: Time) returns (ss: seq<State>, es: seq<Event>)
    requires c.limit == 1 && 0.0 < lag + ahead < c.window
    ensures IsRun(ss, es, c) && ClocksWithin(ss[|es|], lag, ahead)
    ensures ss[|es|].admitted == {0.0, c.window - (lag + ahead)}
  {
    var w := c.window;
    var late := w - (lag + ahead);
    var h := late / 2.0;
    ss, es := OneThenTwo(c, ahead, h);
    ss, es := BothLeave(ss, es, c, h, w);
    LastState(ss[|es|], c, h, lag, ahead);
    ss, es := Goes(ss, es, c, Request(late, w - ahead));
  }

  lemma LastState(s: State, c: Config, h: Time, lag: Time, ahead: Time)
    requires c.limit == 1 && 0.0 < h < c.window - (lag + ahead) && 0.0 < lag + ahead
    requires s.requests == [(0.0, 0.0 - ahead), (h, h - ahead), (c.window, c.window - ahead)]
    requires s.key.zset == {} && s.admitted == {0.0}
    ensures var late, at := c.window - (lag + ahead), c.window - ahead; var s' := Effect(s, c, Request(late, at));
            Enabled(s, c, Request(late, at)) && s'.admitted == {0.0, late} && ClocksWithin(s', lag, ahead)
  {
    var none: set<Time> := {};
    AdmittedState(s, c, c.window - (lag + ahead), c.window - ahead, none);
  }

  /** A run within the clocks that admits a burst and a request that comes to stand too
      close behind it. */
  lemma SharpRun(c: Config, ts: seq<Time>, lag: Time, ahead: Time) returns (ss: seq<State>, es: seq<Event>)
    requires Increasing(ts) && FitsIn(ts, c.window) && |ts| == c.limit >= 1 && (c.limit == 1 ==> ts == [0.0])
    requires 0.0 <= lag + ahead < c.window
    ensures IsRun(ss, es, c) && ClocksWithin(ss[|es|], lag, ahead)
    ensures ToSet(ts) <= ss[|es|].admitted && ts[|ts| - 1] + c.window - (lag + ahead) in ss[|es|].admitted
  {
    if lag + ahead == 0.0 {
      ss, es := SharpInOrder(c, ts, lag, ahead);
    } else if c.limit == 1 {
      ss, es := SharpForOne(c, lag, ahead);
    } else {
      ss, es := SharpOutOfOrder(c, ts, lag, ahead);
    }
  }

  /** Stamps for a burst in the margin. */
  lemma BurstFor(c: Config, margin: Time) returns (ts: seq<Time>)
    requires c.limit >= 1 && c.window > 0.0 && margin > 0.0
    ensures |ts| == c.limit && Increasing(ts) && FitsIn(ts, c.window) && (c.limit == 1 ==> ts == [0.0])
    ensures forall t :: t in ts ==> 0.0 <= t < margin && t <= ts[|ts| - 1]
  {
    ts := [0.0];
    if c.limit > 1 {
      ts := Spread(0.0, if margin < c.window then margin else c.window, c.limit);
    }
  }

  /** The window of the bound cannot be made longer: for every positive limit, clocks
      that differ by less than the window, and margin, a run within the clocks admits
      more than `limit` requests in a window longer than the bound's by that margin. */
  lemma WindowBoundIsSharp(c: Config, lag: Time, ahead: Time, margin: Time)
    returns (ss: seq<State>, es: seq<Event>, from: Time)
    requires c.limit >= 1 && 0.0 <= lag + ahead < c.window && margin > 0.0
    ensures IsRun(ss, es, c) && ClocksWithin(ss[|es|], lag, ahead) && WithinSkew(ss[|es|], c, lag + ahead)
    ensures |InWindow(ss[|es|].admitted, from, c.window - (lag + ahead) + margin)| > c.limit
  {
    from := 0.0;
    var ts := BurstFor(c, margin);
    ss, es := SharpRun(c, ts, lag, ahead);
    RunInv(ss, es, c, |es|);
    ClocksGiveSkew(ss[|es|], c, lag, ahead);
    assert ts[|ts| - 1] in ts;
    TooMany(ss[|es|].admitted, ts, ts[|ts| - 1] + c.window - (lag + ahead), c.window - (lag + ahead) + margin);
  }
}
