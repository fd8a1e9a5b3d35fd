/** Which pending records some later restart can still pick up, and which stay pending
    over every run. */
module DelegationBacklog {
  import opened Common
  import opened RuntimeTasks
  import opened DelegationProtocol
  import opened DelegationInvariant
  import opened DelegationRuns
  import opened DelegationTheorems
  import opened DelegationRestart

  /** A pending row that nothing in this worker life has touched. */
  predicate Pended(c: Cell) {
    && c.record.Some? && c.record.value.status == Pending
    && c.task.None? && c.launch.NoLaunch? && c.writes == [] && c.entry.None?
  }

  /** A pending row that the restart path cannot rebuild. */
  predicate PendingOrphan(c: Cell) {
    Pended(c) && !Rebuilds(c.record.value)
  }

  lemma OrphanStep(s: State, l: Label, t: TaskId)
    requires Inv(s) && Enabled(s, l) && PendingOrphan(CellOf(s, t))
    ensures PendingOrphan(CellOf(Effect(s, l), t))
    ensures CellOf(Effect(s, l), t).record == CellOf(s, t).record
  {
    StepOfCell(s, l, t);
    OrphanCell(CellOf(s, t), CellOf(Effect(s, l), t), l, t);
  }

  lemma OrphanCell(c: Cell, c': Cell, l: Label, t: TaskId)
    requires CellInv(c) && CellStep(c, c', l, t) && PendingOrphan(c)
    ensures PendingOrphan(c') && c'.record == c.record
  {
    if l.On? && l.t == t && ActEnabled(true, c, l.act) {
      ActKeepsResumer(c, l.act);
    } else if l.ResumeNext? {
      RebuildsIff(c.record.value, l.freshSession, l.freshTrace);
    }
  }

  /** A pending row that cannot be rebuilt stays as it is over every run. */
  lemma {:induction false} OrphanForever(r: Run, i: nat, j: nat, t: TaskId)
    requires OrderedRun(r) && i <= j < |r.states| && PendingOrphan(CellOf(r.states[i], t))
    ensures PendingOrphan(CellOf(r.states[j], t))
    ensures CellOf(r.states[j], t).record == CellOf(r.states[i], t).record
    decreases j - i
  {
    if i < j {
      OrphanForever(r, i, j - 1, t);
      RunInv(r, j - 1);
      assert IsStep(r, j - 1);
      OrphanStep(r.states[j - 1], r.labels[j - 1], t);
    }
  }

  // ---- rows behind too many orphans ----

  predicate OrphanIn(s: State, t: TaskId) { PendingOrphan(CellOf(s, t)) }

  function IsOrphan(s: State): TaskId -> bool { (t: TaskId) => OrphanIn(s, t) }

  /** The orphans created before the `n`-th record. */
  function Before(s: State, n: nat): nat
    requires n <= |s.created|
  {
    |Filter(IsOrphan(s), s.created[..n])|
  }

  /** A restart can come to the `n`-th record only if it can be rebuilt and is not
      behind as many orphans as one load returns. */
  predicate Reachable(s: State, n: nat)
    requires n < |s.created|
  {
    var c := CellOf(s, s.created[n]);
    c.record.Some? && Rebuilds(c.record.value) && Before(s, n) < RESUME_LIMIT
  }

  lemma OrphansStay(r: Run, i: nat, j: nat, n: nat)
    requires OrderedRun(r) && i <= j < |r.states| && n < |r.states[i].created|
    ensures r.states[i].created <= r.states[j].created && Before(r.states[j], n) >= Before(r.states[i], n)
  {
    CreatedGrows(r, i, j);
    assert r.states[j].created[..n] == r.states[i].created[..n];
    forall u | OrphanIn(r.states[i], u)
      ensures OrphanIn(r.states[j], u)
    {
      OrphanForever(r, i, j, u);
    }
    FilterMono(IsOrphan(r.states[i]), IsOrphan(r.states[j]), r.states[i].created[..n]);
  }

  /** What is behind that many orphans is never loaded. */
  lemma BehindIsNotLoaded(s: State, n: nat)
    requires Inv(s) && n < |s.created| && Before(s, n) >= RESUME_LIMIT
    ensures s.created[n] !in Snapshot(s)
  {
    InSnapshotIff(s, n);
    FilterMono(IsOrphan(s), IsActive(s), s.created[..n]);
  }

  ghost predicate Passed(s: State, t: TaskId, rec: Record) {
    Pended(CellOf(s, t)) && CellOf(s, t).record == Some(rec) && (s.mode.Resuming? ==> t !in s.mode.queue)
  }

  lemma PendedElsewhere(s: State, l: Label, t: TaskId)
    requires Enabled(s, l) && Pended(CellOf(s, t)) && !ActsOn(s, l, t)
    ensures Pended(CellOf(Effect(s, l), t)) && CellOf(Effect(s, l), t).record == CellOf(s, t).record
  {
    Elsewhere(s, l, t);
  }

  lemma PassedQueue(s: State, l: Label, t: TaskId)
    requires Enabled(s, l) && (s.mode.Resuming? ==> t !in s.mode.queue) && (l.BeginResume? ==> t !in Snapshot(s))
    ensures Effect(s, l).mode.Resuming? ==> t !in Effect(s, l).mode.queue
  {
  }

  lemma PassedStep(s: State, l: Label, t: TaskId, rec: Record)
    requires Inv(s) && Enabled(s, l) && Passed(s, t, rec)
    requires l.BeginResume? ==> t !in Snapshot(s)
    ensures Passed(Effect(s, l), t, rec)
  {
    PassedQueue(s, l, t);
    if l.On? && l.t == t {
      assert CellInv(CellOf(s, t));
      ActKeepsResumer(CellOf(s, t), l.act);
    } else {
      PendedElsewhere(s, l, t);
    }
  }

  /** A pending row that is not reachable when a worker starts stays pending over every
      run from there. */
  lemma {:induction false} StuckForever(r: Run, i: nat, j: nat, n: nat)
    requires OrderedRun(r) && i <= j < |r.states| && r.states[i].mode.Booting?
    requires n < |r.states[i].created| && Pended(CellOf(r.states[i], r.states[i].created[n]))
    requires !Reachable(r.states[i], n)
    ensures var t := r.states[i].created[n];
            Pended(CellOf(r.states[j], t)) && CellOf(r.states[j], t).record == CellOf(r.states[i], t).record
    decreases j - i
  {
    var t := r.states[i].created[n];
    if !Rebuilds(CellOf(r.states[i], t).record.value) {
      OrphanForever(r, i, j, t);
    } else {
      PassedForever(r, i, j, n);
    }
  }

  lemma {:induction false} PassedForever(r: Run, i: nat, j: nat, n: nat)
    requires OrderedRun(r) && i <= j < |r.states| && r.states[i].mode.Booting?
    requires n < |r.states[i].created| && Pended(CellOf(r.states[i], r.states[i].created[n]))
    requires Before(r.states[i], n) >= RESUME_LIMIT
    ensures var t := r.states[i].created[n];
            Passed(r.states[j], t, CellOf(r.states[i], t).record.value)
    decreases j - i
  {
    if i < j {
      var t := r.states[i].created[n];
      PassedForever(r, i, j - 1, n);
      StillBehind(r, i, j - 1, n);
      PassedAt(r, j - 1, t, CellOf(r.states[i], t).record.value);
    }
  }

  lemma StillBehind(r: Run, i: nat, j: nat, n: nat)
    requires OrderedRun(r) && i <= j < |r.states| && n < |r.states[i].created| && Before(r.states[i], n) >= RESUME_LIMIT
    ensures r.states[i].created[n] !in Snapshot(r.states[j])
  {
    RunInv(r, j);
    OrphansStay(r, i, j, n);
    BehindIsNotLoaded(r.states[j], n);
  }

  lemma PassedAt(r: Run, j: nat, t: TaskId, rec: Record)
    requires OrderedRun(r) && j < |r.labels| && Passed(r.states[j], t, rec) && t !in Snapshot(r.states[j])
    ensures Passed(r.states[j + 1], t, rec)
  {
    RunInv(r, j);
    assert IsStep(r, j);
    PassedStep(r.states[j], r.labels[j], t, rec);
  }

  // ---- every other row can be picked up ----

  ghost predicate AllAsleep(s: State) {
    forall t :: Asleep(CellOf(s, t)) && CellOf(s, t).entry.None?
  }

  /** The row closed because its target is gone. */
  function Shut(c: Cell): Cell
    requires c.record.Some?
  {
    c.(record := Some(Apply(c.record.value, RESUME_FAILED)))
  }

  function AfterTurn(c: Cell): Cell {
    if c.record.Some? && Rebuilds(c.record.value) then Shut(c) else c
  }

  /** A start-up whose loop finds no target, up to its `m`-th record. */
  ghost predicate Drained(s0: State, s: State, queue: seq<TaskId>, m: nat)
    requires m <= |queue|
  {
    && s.mode == Resuming(queue[m..], None, {}) && s.created == s0.created && s.ordered == s0.ordered && AllAsleep(s)
    && forall u :: CellOf(s, u) == if u in queue[..m] then AfterTurn(CellOf(s0, u)) else CellOf(s0, u)
  }

  lemma TurnEffect(s: State, t: TaskId, available: bool)
    requires Enabled(s, ResumeNext(available, "f", "f")) && s.mode.queue[0] == t
    requires Asleep(CellOf(s, t)) && CellOf(s, t).entry.None? && CellOf(s, t).record.Some?
    ensures var c, s' := CellOf(s, t), Effect(s, ResumeNext(available, "f", "f"));
            && s'.created == s.created && s'.ordered == s.ordered && (forall u | u != t :: CellOf(s', u) == CellOf(s, u))
            && (!Rebuilds(c.record.value) ==> CellOf(s', t) == c && s'.mode == s.mode.(queue := s.mode.queue[1..]))
            && (Rebuilds(c.record.value) && !available ==>
                  CellOf(s', t) == Issue(c, Resumer, RESUME_FAILED)
                  && s'.mode == s.mode.(queue := s.mode.queue[1..], waiting := Some(t)))
            && (Rebuilds(c.record.value) && available ==>
                  CellOf(s', t) == SpawnTask(c, ReadPlan(c.record.value, "f", "f").request, Resumer)
                  && s'.mode == Resuming(s.mode.queue[1..], Some(t), s.mode.resumed + {t}))
  {
    var l, c := ResumeNext(available, "f", "f"), CellOf(s, t);
    RebuildsIff(c.record.value, "f", "f");
    AfterResumeNext(s, l, ResumeCell(c, available, "f", "f"));
    assert Issue(c, Resumer, RESUME_FAILED).writes != [];
    assert available && Rebuilds(c.record.value) ==>
             SpawnTask(c, ReadPlan(c.record.value, "f", "f").request, Resumer).writes != [];
  }

  lemma ClosesRow(r0: Run, t: TaskId) returns (r: Run)
    requires OrderedRun(r0) && Last(r0).mode.Resuming? && Last(r0).mode.waiting.None?
    requires Last(r0).mode.queue != [] && Last(r0).mode.queue[0] == t && AllAsleep(Last(r0))
    ensures Continues(r0, r) && Last(r).mode == Last(r0).mode.(queue := Last(r0).mode.queue[1..])
    ensures Last(r).created == Last(r0).created && Last(r).ordered == Last(r0).ordered
    ensures forall u :: CellOf(Last(r), u) == if u == t then AfterTurn(CellOf(Last(r0), u)) else CellOf(Last(r0), u)
  {
    QueuedIsDormant(r0, t);
    TurnEffect(Last(r0), t, false);
    r := Then(r0, ResumeNext(false, "f", "f"));
    if Rebuilds(CellOf(Last(r0), t).record.value) {
      r := LandsClosing(r0, r, t, CellOf(Last(r0), t));
    }
  }

  lemma QueuedIsDormant(r: Run, t: TaskId)
    requires OrderedRun(r) && Last(r).mode.Resuming? && t in Last(r).mode.queue
    ensures Dormant(CellOf(Last(r), t)) && Last(r).ordered
  {
    RunInv(r, |r.states| - 1);
  }

  lemma LandsClosing(r0: Run, r1: Run, t: TaskId, c: Cell) returns (r: Run)
    requires OrderedRun(r0) && Continues(r0, r1) && c.record.Some? && c.writes == []
    requires Last(r1).mode.Resuming? && Last(r1).mode.waiting == Some(t) && Last(r1).ordered
    requires CellOf(Last(r1), t) == Issue(c, Resumer, RESUME_FAILED)
    ensures Continues(r0, r) && Last(r).mode == Last(r1).mode.(waiting := None)
    ensures Last(r).created == Last(r1).created && Last(r).ordered == Last(r1).ordered
    ensures forall u :: CellOf(Last(r), u) == if u == t then Shut(c) else CellOf(Last(r1), u)
  {
    assert CellOf(Last(r1), t).writes == [Write(Resumer, RESUME_FAILED)];
    r := Then(r1, On(t, Land(0)));
    assert CellOf(Last(r), t) == Shut(c);
    r := Then(r, ResumeContinue);
  }

  lemma {:induction false} Drains(r0: Run, queue: seq<TaskId>, m: nat) returns (r: Run)
    requires OrderedRun(r0) && Last(r0).mode == Resuming(queue, None, {}) && AllAsleep(Last(r0))
    requires Distinct(queue) && m <= |queue|
    ensures OrderedRun(r) && Continues(r0, r) && Drained(Last(r0), Last(r), queue, m)
    decreases m
  {
    if m == 0 {
      r := r0;
    } else {
      r := Drains(r0, queue, m - 1);
      ghost var s := Last(r);
      var t := queue[m - 1];
      assert s.mode.queue[0] == t;
      r := ClosesRow(r, t);
      DrainedMore(Last(r0), s, Last(r), queue, m - 1);
    }
  }

  lemma DrainedMore(s0: State, s: State, s': State, queue: seq<TaskId>, m: nat)
    requires m < |queue| && Distinct(queue) && Drained(s0, s, queue, m)
    requires s'.mode == s.mode.(queue := s.mode.queue[1..]) && s'.created == s.created && s'.ordered == s.ordered
    requires forall u :: CellOf(s', u) == if u == queue[m] then AfterTurn(CellOf(s, u)) else CellOf(s, u)
    ensures Drained(s0, s', queue, m + 1)
  {
    assert queue[..m + 1] == queue[..m] + [queue[m]];
    assert queue[m] !in queue[..m];
    assert queue[m..][1..] == queue[m + 1..];
  }

  lemma BootsAsleep(r: Run)
    requires OrderedRun(r) && Last(r).mode.Booting?
    ensures Inv(Last(r)) && AllAsleep(Last(r)) && Distinct(Snapshot(Last(r)))
  {
    RunInv(r, |r.states| - 1);
    var s := Last(r);
    forall t
      ensures CellOf(s, t).entry.None?
    {
      assert CellInv(CellOf(s, t)) && Asleep(CellOf(s, t));
    }
    FilterDistinct(IsActive(s), s.created);
  }

  lemma Loads(r0: Run) returns (r: Run)
    requires OrderedRun(r0) && Last(r0).mode.Booting?
    ensures OrderedRun(r) && Continues(r0, r)
    ensures Last(r) == Last(r0).(mode := Resuming(Snapshot(Last(r0)), None, {}))
    ensures AllAsleep(Last(r)) && Distinct(Snapshot(Last(r0)))
  {
    BootsAsleep(r0);
    r := Then(r0, BeginResume);
    assert forall t :: CellOf(Last(r), t) == CellOf(Last(r0), t);
  }

  /** The record after one start-up whose loop finds no target, and a crash. */
  function AfterLife(s: State, t: TaskId): Option<Record> {
    var c := if t in Snapshot(s) then AfterTurn(CellOf(s, t)) else CellOf(s, t);
    ReconcileCell(c, false).record
  }

  lemma LivesOnce(r0: Run) returns (r: Run)
    requires OrderedRun(r0) && Last(r0).mode.Booting?
    ensures OrderedRun(r) && Continues(r0, r) && Last(r).mode.Booting? && Last(r).created == Last(r0).created
    ensures forall t :: CellOf(Last(r), t).record == AfterLife(Last(r0), t)
  {
    var s, queue := Last(r0), Snapshot(Last(r0));
    r := Loads(r0);
    ghost var s1 := Last(r);
    r := Drains(r, queue, |queue|);
    ghost var s2 := Last(r);
    assert queue[..|queue|] == queue && queue[|queue|..] == [];
    r := Then(r, Reconcile);
    ghost var s3 := Last(r);
    r := Then(r, Crash);
    forall t
      ensures CellOf(Last(r), t).record == AfterLife(s, t)
    {
      CellOfReconcile(s2, t);
      assert CellOf(s1, t) == CellOf(s, t);
      assert CellOf(Last(r), t) == AfterCrash(CellOf(s3, t));
    }
  }

  /** A loaded row that can be rebuilt is spawned again when its target is there. */
  lemma SpawnsLoaded(r0: Run, t: TaskId) returns (r: Run)
    requires OrderedRun(r0) && Last(r0).mode.Booting? && t in Snapshot(Last(r0))
    requires CellOf(Last(r0), t).record.Some? && Rebuilds(CellOf(Last(r0), t).record.value)
    ensures OrderedRun(r) && Continues(r0, r) && CellOf(Last(r), t).task.Some?
  {
    var queue := Snapshot(Last(r0));
    var m: nat :| m < |queue| && queue[m] == t;
    r := LoadsUpTo(r0, queue, m);
    TurnEffect(Last(r), t, true);
    r := Then(r, ResumeNext(true, "f", "f"));
  }

  lemma LoadsUpTo(r0: Run, queue: seq<TaskId>, m: nat) returns (r: Run)
    requires OrderedRun(r0) && Last(r0).mode.Booting? && queue == Snapshot(Last(r0)) && m < |queue|
    ensures OrderedRun(r) && Continues(r0, r) && CellOf(Last(r), queue[m]) == CellOf(Last(r0), queue[m])
    ensures Last(r).mode.Resuming? && Last(r).mode.waiting.None?
    ensures Last(r).mode.queue != [] && Last(r).mode.queue[0] == queue[m] && AllAsleep(Last(r))
  {
    r := Loads(r0);
    ghost var s := Last(r);
    assert CellOf(s, queue[m]) == CellOf(Last(r0), queue[m]);
    r := Drains(r, queue, m);
    assert queue[m] !in queue[..m];
  }

  lemma LoadedAreOldest(s: State, n: nat)
    requires Distinct(s.created) && n < |s.created| && |Filter(IsActive(s), s.created[..n])| >= RESUME_LIMIT
    ensures |Snapshot(s)| == RESUME_LIMIT && Distinct(Snapshot(s))
    ensures forall u :: u in Snapshot(s) ==> u in s.created[..n] && ActiveIn(s, u)
  {
    var older := s.created[..n];
    var active := Filter(IsActive(s), older);
    assert s.created == older + s.created[n..];
    FilterConcat(IsActive(s), older, s.created[n..]);
    FilterDistinct(IsActive(s), s.created);
    assert Snapshot(s) == active[..RESUME_LIMIT];
    assert forall u :: u in Snapshot(s) ==> u in active;
  }

  /** Of the records loaded, one is no orphan when there are fewer orphans than the load
      returns. */
  lemma SomeLoadedIsNoOrphan(s: State, n: nat) returns (u: TaskId)
    requires Distinct(s.created) && n < |s.created| && Before(s, n) < RESUME_LIMIT
    requires |Filter(IsActive(s), s.created[..n])| >= RESUME_LIMIT
    ensures u in Snapshot(s) && u in s.created[..n] && !OrphanIn(s, u) && ActiveIn(s, u)
  {
    LoadedAreOldest(s, n);
    FilterDistinct(IsOrphan(s), s.created[..n]);
    SomeOutside(Snapshot(s), Filter(IsOrphan(s), s.created[..n]));
    u :| u in Snapshot(s) && u !in Filter(IsOrphan(s), s.created[..n]);
  }

  /** One life that resumes nothing makes no row active or an orphan, and closes each
      loaded row that is no orphan. */
  lemma AfterLifeOf(s: State, s': State, t: TaskId)
    requires AllAsleep(s) && AllAsleep(s') && CellOf(s', t).record == AfterLife(s, t)
    ensures ActiveIn(s', t) ==> ActiveIn(s, t)
    ensures OrphanIn(s', t) ==> OrphanIn(s, t)
    ensures t in Snapshot(s) && ActiveIn(s, t) && !OrphanIn(s, t) ==> !ActiveIn(s', t)
    ensures t !in Snapshot(s) && Pended(CellOf(s, t)) ==> Pended(CellOf(s', t)) && CellOf(s', t).record == CellOf(s, t).record
  {
  }

  /** A reachable pending row that is not loaded yet stays reachable over such a life,
      with fewer active rows before it. */
  lemma LifeClearsWay(s: State, s': State, n: nat)
    requires Inv(s) && AllAsleep(s) && AllAsleep(s') && s'.created == s.created && n < |s.created|
    requires forall t :: CellOf(s', t).record == AfterLife(s, t)
    requires Pended(CellOf(s, s.created[n])) && Reachable(s, n) && s.created[n] !in Snapshot(s)
    ensures Pended(CellOf(s', s.created[n])) && Reachable(s', n)
    ensures CellOf(s', s.created[n]).record == CellOf(s, s.created[n]).record
    ensures |Filter(IsActive(s'), s'.created[..n])| < |Filter(IsActive(s), s.created[..n])|
  {
    forall t
      ensures ActiveIn(s', t) ==> ActiveIn(s, t)
      ensures OrphanIn(s', t) ==> OrphanIn(s, t)
    {
      AfterLifeOf(s, s', t);
    }
    InSnapshotIff(s, n);
    AfterLifeOf(s, s', s.created[n]);
    FilterMono(IsOrphan(s'), IsOrphan(s), s.created[..n]);
    var u := SomeLoadedIsNoOrphan(s, n);
    AfterLifeOf(s, s', u);
    assert IsActive(s)(u) && !IsActive(s')(u);
    FilterMono(IsActive(s'), IsActive(s), s.created[..n]);
  }

  /** A reachable pending row is spawned again by some later restart. */
  lemma {:induction false} PickedUp(r0: Run, n: nat) returns (r: Run)
    requires OrderedRun(r0) && Last(r0).mode.Booting? && n < |Last(r0).created|
    requires Pended(CellOf(Last(r0), Last(r0).created[n])) && Reachable(Last(r0), n)
    ensures OrderedRun(r) && Continues(r0, r) && CellOf(Last(r), Last(r0).created[n]).task.Some?
    decreases |Filter(IsActive(Last(r0)), Last(r0).created[..n])|
  {
    BootsAsleep(r0);
    if Last(r0).created[n] in Snapshot(Last(r0)) {
      r := SpawnsLoaded(r0, Last(r0).created[n]);
    } else {
      r := LivesOnce(r0);
      BootsAsleep(r);
      LifeClearsWay(Last(r0), Last(r), n);
      r := PickedUp(r, n);
    }
  }

  /** `r` can go on so that `t` has a task again. */
  ghost predicate CanRunAgain(r: Run, t: TaskId) {
    exists r' :: OrderedRun(r') && Continues(r, r') && CellOf(Last(r'), t).task.Some?
  }

  /** A row that is pending when a worker starts can be run again, now or by any later
      restart, if and only if it can be rebuilt and fewer than 50 rows
      created before it are pending ones that cannot. */
  lemma RunsAgainIff(r: Run, n: nat)
    requires OrderedRun(r) && Last(r).mode.Booting? && n < |Last(r).created|
    requires Pended(CellOf(Last(r), Last(r).created[n]))
    ensures CanRunAgain(r, Last(r).created[n]) <==>
            Rebuilds(CellOf(Last(r), Last(r).created[n]).record.value) && Before(Last(r), n) < 50
  {
    if Reachable(Last(r), n) {
      var r' := PickedUp(r, n);
    } else {
      forall r' | OrderedRun(r') && Continues(r, r')
        ensures CellOf(Last(r'), Last(r).created[n]).task.None?
      {
        var i := |r.states| - 1;
        assert r'.states[i] == Last(r);
        StuckForever(r', i, |r'.states| - 1, n);
      }
    }
  }
}
