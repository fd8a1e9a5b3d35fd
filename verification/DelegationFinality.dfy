/** When the answer that a check gives about a finished delegation is final. */
module DelegationFinality {
  import opened Common
  import opened RuntimeTasks
  import opened DelegationProtocol
  import opened DelegationInvariant
  import opened DelegationRuns
  import opened DelegationTheorems

  ghost predicate SomeWaiting(c: Cell) {
    exists k | k in c.cancels :: c.cancels[k].Waiting?
  }

  /** A registered task whose cancellation was requested has a canceller that still
      waits for it: the canceller pops the entry when it goes on. */
  ghost predicate SeenWaits(c: Cell) {
    c.entry.Some? && c.cancelSeen ==> SomeWaiting(c)
  }

  lemma ActKeepsSeenWaits(c: Cell, a: Act)
    requires ActEnabled(false, c, a) && SeenWaits(c)
    ensures SeenWaits(ActEffect(c, a))
  {
    var c' := ActEffect(c, a);
    if a.RequestCancel? {
      assert c'.cancels[a.canceller].Waiting?;
    } else if a.ReturnCancel? && c.entry.Some? && c.cancelSeen {
      var k :| k in c.cancels && c.cancels[k].Waiting?;
      assert k in c'.cancels && c'.cancels[k].Waiting?;
    }
  }

  lemma StepKeepsSeenWaits(s: State, l: Label, t: TaskId)
    requires Enabled(s, l) && SeenWaits(CellOf(s, t))
    ensures SeenWaits(CellOf(Effect(s, l), t))
  {
    if !ActsOn(s, l, t) {
      Elsewhere(s, l, t);
    } else if l.On? {
      ActKeepsSeenWaits(CellOf(s, t), l.act);
    }
  }

  lemma {:induction false} RunSeenWaits(r: Run, i: nat, t: TaskId)
    requires IsRun(r) && i < |r.states|
    ensures SeenWaits(CellOf(r.states[i], t))
    decreases i
  {
    if i > 0 {
      RunSeenWaits(r, i - 1, t);
      assert IsStep(r, i - 1);
      StepKeepsSeenWaits(r.states[i - 1], r.labels[i - 1], t);
    }
  }

  // ---- a waiting canceller overturns the answer ----

  /** Every write of the cell records a cancellation. */
  ghost predicate AllCancel(c: Cell) {
    forall w | w in c.writes :: c.task.Some? && w.update == CancelUpdate(c.task.value.req.trace)
  }

  lemma DoneWritesCancel(c: Cell)
    requires CellInv(c) && DoneAndStored(c)
    ensures AllCancel(c)
  {
    forall w | w in c.writes
      ensures w.update == CancelUpdate(c.task.value.req.trace)
    {
      assert w.author.Canceller?;
      var i :| 0 <= i < |c.writes| && c.writes[i] == w;
      assert WriteShape(c, c.writes[i]);
    }
  }

  /** The canceller goes on: it pops the entry and issues its write. */
  lemma Proceeds(c: Cell, k: nat)
    requires DoneAndStored(c) && AllCancel(c) && k in c.cancels && c.cancels[k].Waiting?
    ensures ActEnabled(true, c, ProceedCancel(k))
    ensures var c' := ActEffect(c, ProceedCancel(k));
            c'.entry.None? && c'.record == c.record && c'.writes != [] && c'.task == c.task && AllCancel(c')
  {
  }

  /** The first write lands. */
  lemma CancelWriteLands(c: Cell)
    requires c.entry.None? && c.record.Some? && c.writes != [] && AllCancel(c)
    ensures ActEnabled(true, c, Land(0))
    ensures forall caller :: CheckAnswer(ActEffect(c, Land(0)), caller) == OutcomeAnswer(Cancelled)
  {
    var c' := ActEffect(c, Land(0));
    assert c.writes[0] in c.writes;
    assert c'.record == Some(Apply(c.record.value, c.writes[0].update));
  }

  /** While a canceller waits for a finished child, the run can go on so that every
      caller is told "killed". */
  lemma WaitingOverturns(r0: Run, t: TaskId, k: nat) returns (r: Run)
    requires OrderedRun(r0) && Last(r0).ordered
    requires var c := CellOf(Last(r0), t); CellInv(c) && DoneAndStored(c) && k in c.cancels && c.cancels[k].Waiting?
    ensures OrderedRun(r) && Continues(r0, r)
    ensures forall caller :: CheckAnswer(CellOf(Last(r), t), caller) == OutcomeAnswer(Cancelled)
  {
    var c := CellOf(Last(r0), t);
    DoneWritesCancel(c);
    Proceeds(c, k);
    var r1 := Then(r0, On(t, ProceedCancel(k)));
    CancelWriteLands(CellOf(Last(r1), t));
    r := Then(r1, On(t, Land(0)));
  }

  // ---- a killed child stays killed ----

  /** Registry, record and writes under way all say "killed". */
  ghost predicate SaysKilled(c: Cell, e: Entry) {
    && c.record.Some? && RecordAnswer(c.record) == OutcomeAnswer(Cancelled) && AllCancel(c) && c.launch.NoLaunch?
    && (c.task.Some? ==> IsDone(c))
    && (c.entry.Some? ==> c.entry.value == e && c.task.Some? && c.task.value.phase == Done(Cancelled))
  }

  lemma ActKeepsKilled(c: Cell, a: Act, e: Entry)
    requires ActEnabled(true, c, a) && SaysKilled(c, e)
    ensures SaysKilled(ActEffect(c, a), e)
  {
    if a.Land? {
      assert c.writes[0] in c.writes;
    }
  }

  lemma StepKeepsKilled(s: State, l: Label, t: TaskId, e: Entry)
    requires Inv(s) && Enabled(s, l) && SaysKilled(CellOf(s, t), e)
    ensures SaysKilled(CellOf(Effect(s, l), t), e)
  {
    StepOfCell(s, l, t);
    CellKeepsKilled(CellOf(s, t), CellOf(Effect(s, l), t), l, t, e);
  }

  lemma CellKeepsKilled(c: Cell, c': Cell, l: Label, t: TaskId, e: Entry)
    requires CellStep(c, c', l, t) && SaysKilled(c, e)
    ensures SaysKilled(c', e)
  {
    if l.On? && l.t == t && ActEnabled(true, c, l.act) {
      ActKeepsKilled(c, l.act, e);
    }
  }

  lemma {:induction false} KilledForever(r: Run, i: nat, j: nat, t: TaskId, e: Entry)
    requires OrderedRun(r) && i <= j < |r.states| && SaysKilled(CellOf(r.states[i], t), e)
    ensures SaysKilled(CellOf(r.states[j], t), e)
    decreases j
  {
    if i < j {
      KilledForever(r, i, j - 1, t, e);
      KilledAt(r, j - 1, t, e);
    }
  }

  lemma KilledAt(r: Run, j: nat, t: TaskId, e: Entry)
    requires OrderedRun(r) && j < |r.labels| && SaysKilled(CellOf(r.states[j], t), e)
    ensures SaysKilled(CellOf(r.states[j + 1], t), e)
  {
    RunInv(r, j);
    assert IsStep(r, j);
    StepKeepsKilled(r.states[j], r.labels[j], t, e);
  }

  // ---- the theorem ----

  /** Whatever happens next, restarts included, the caller gets the answer it would get
      now. */
  ghost predicate IsFinal(r: Run, t: TaskId, caller: Option<string>)
    requires r.states != []
  {
    forall r' :: OrderedRun(r') && Continues(r, r') ==>
      CheckAnswer(CellOf(Last(r'), t), caller) == CheckAnswer(CellOf(Last(r), t), caller)
  }

  lemma UncancelledIsFinal(r: Run, t: TaskId, caller: Option<string>)
    requires OrderedRun(r)
    requires var c := CellOf(Last(r), t);
             DoneAndStored(c) && c.entry.Some? && !Refused(c.entry.value, caller) && !c.cancelSeen
    ensures IsFinal(r, t, caller)
  {
    forall r' | OrderedRun(r') && Continues(r, r')
      ensures CheckAnswer(CellOf(Last(r'), t), caller) == CheckAnswer(CellOf(Last(r), t), caller)
    {
      var i := |r.states| - 1;
      assert r'.states[i] == Last(r);
      AnswerIsForever(r', i, |r'.states| - 1, t, caller);
    }
  }

  lemma KilledIsFinal(r: Run, t: TaskId, caller: Option<string>)
    requires OrderedRun(r)
    requires var c := CellOf(Last(r), t);
             && DoneAndStored(c) && c.entry.Some? && !Refused(c.entry.value, caller)
             && c.task.value.phase.outcome.Cancelled?
    ensures IsFinal(r, t, caller)
  {
    var i, c := |r.states| - 1, CellOf(Last(r), t);
    KilledSaysKilled(r, i, t);
    forall r' | OrderedRun(r') && Continues(r, r')
      ensures CheckAnswer(CellOf(Last(r'), t), caller) == CheckAnswer(c, caller)
    {
      assert r'.states[i] == Last(r);
      KilledForever(r', i, |r'.states| - 1, t, c.entry.value);
      SaidKilled(CellOf(Last(r'), t), c.entry.value, caller);
    }
  }

  lemma KilledSaysKilled(r: Run, i: nat, t: TaskId)
    requires OrderedRun(r) && i < |r.states|
    requires var c := CellOf(r.states[i], t); DoneAndStored(c) && c.entry.Some? && c.task.value.phase.outcome.Cancelled?
    ensures SaysKilled(CellOf(r.states[i], t), CellOf(r.states[i], t).entry.value)
  {
    RunInv(r, i);
    assert CellInv(CellOf(r.states[i], t));
    DoneWritesCancel(CellOf(r.states[i], t));
  }

  lemma SaidKilled(c: Cell, e: Entry, caller: Option<string>)
    requires SaysKilled(c, e) && !Refused(e, caller)
    ensures CheckAnswer(c, caller) == OutcomeAnswer(Cancelled)
  {
  }

  lemma OverturnedIsNotFinal(r: Run, t: TaskId, caller: Option<string>)
    requires OrderedRun(r)
    requires var c := CellOf(Last(r), t);
             && DoneAndStored(c) && c.entry.Some? && !Refused(c.entry.value, caller) && c.cancelSeen
             && c.task.value.phase.outcome.Finished?
    ensures !IsFinal(r, t, caller)
  {
    var i, c := |r.states| - 1, CellOf(Last(r), t);
    RunInv(r, i);
    RunSeenWaits(r, i, t);
    assert CellInv(c);
    var k :| k in c.cancels && c.cancels[k].Waiting?;
    var r' := WaitingOverturns(r, t, k);
    assert CheckAnswer(c, caller) == OutcomeAnswer(c.task.value.phase.outcome) != OutcomeAnswer(Cancelled);
  }

  /** The answer about a registered, finished and stored child is final for a caller that
      may see it exactly when no cancel was requested for it, or the child was cancelled. */
  lemma FinalIff(r: Run, t: TaskId, caller: Option<string>)
    requires OrderedRun(r)
    requires var c := CellOf(Last(r), t);
             DoneAndStored(c) && c.entry.Some? && !Refused(c.entry.value, caller)
    ensures var c := CellOf(Last(r), t);
            IsFinal(r, t, caller) <==> !c.cancelSeen || c.task.value.phase.outcome.Cancelled?
  {
    var c := CellOf(Last(r), t);
    if c.task.value.phase.outcome.Cancelled? {
      KilledIsFinal(r, t, caller);
    } else if c.cancelSeen {
      OverturnedIsNotFinal(r, t, caller);
    } else {
      UncancelledIsFinal(r, t, caller);
    }
  }

  // ---- a child that is no longer registered ----

  /** Ended and not registered, with no write and no waiting canceller left. */
  ghost predicate Rests(c: Cell) {
    && Ended(c) && c.entry.None? && c.writes == [] && c.launch.NoLaunch? && (c.task.Some? ==> IsDone(c))
    && !SomeWaiting(c)
  }

  lemma CellKeepsRests(c: Cell, c': Cell, l: Label, t: TaskId)
    requires CellStep(c, c', l, t) && Rests(c)
    ensures Rests(c') && c'.record == c.record
  {
  }

  lemma RestsAt(r: Run, j: nat, t: TaskId)
    requires OrderedRun(r) && j < |r.labels| && Rests(CellOf(r.states[j], t))
    ensures Rests(CellOf(r.states[j + 1], t))
    ensures CellOf(r.states[j + 1], t).record == CellOf(r.states[j], t).record
  {
    RunInv(r, j);
    assert IsStep(r, j);
    StepOfCell(r.states[j], r.labels[j], t);
    CellKeepsRests(CellOf(r.states[j], t), CellOf(r.states[j + 1], t), r.labels[j], t);
  }

  lemma {:induction false} RestsForever(r: Run, i: nat, j: nat, t: TaskId)
    requires OrderedRun(r) && i <= j < |r.states| && Rests(CellOf(r.states[i], t))
    ensures Rests(CellOf(r.states[j], t))
    ensures CellOf(r.states[j], t).record == CellOf(r.states[i], t).record
    decreases j
  {
    if i < j {
      RestsForever(r, i, j - 1, t);
      RestsAt(r, j - 1, t);
    }
  }

  lemma RestingIsFinal(r: Run, t: TaskId, caller: Option<string>)
    requires OrderedRun(r) && Rests(CellOf(Last(r), t))
    ensures IsFinal(r, t, caller)
  {
    var i := |r.states| - 1;
    forall r' | OrderedRun(r') && Continues(r, r')
      ensures CheckAnswer(CellOf(Last(r'), t), caller) == CheckAnswer(CellOf(Last(r), t), caller)
    {
      assert r'.states[i] == Last(r);
      RestsForever(r', i, |r'.states| - 1, t);
    }
  }

  lemma PoppedKilledIsFinal(r: Run, t: TaskId, caller: Option<string>)
    requires OrderedRun(r)
    requires var c := CellOf(Last(r), t);
             && CellInv(c) && DoneAndStored(c) && c.entry.None?
             && RecordAnswer(c.record) == OutcomeAnswer(Cancelled)
    ensures IsFinal(r, t, caller)
  {
    var i, c, anyone := |r.states| - 1, CellOf(Last(r), t), Entry(None, "");
    DoneWritesCancel(c);
    assert SaysKilled(c, anyone);
    forall r' | OrderedRun(r') && Continues(r, r')
      ensures CheckAnswer(CellOf(Last(r'), t), caller) == CheckAnswer(c, caller)
    {
      assert r'.states[i] == Last(r);
      KilledForever(r', i, |r'.states| - 1, t, anyone);
      SaidKilled(CellOf(Last(r'), t), anyone, caller);
    }
  }

  lemma PoppedIsNotFinal(r: Run, t: TaskId, caller: Option<string>)
    requires OrderedRun(r) && Last(r).ordered
    requires var c := CellOf(Last(r), t);
             && CellInv(c) && DoneAndStored(c) && c.entry.None?
             && RecordAnswer(c.record) != OutcomeAnswer(Cancelled) && (c.writes != [] || SomeWaiting(c))
    ensures !IsFinal(r, t, caller)
  {
    var c := CellOf(Last(r), t);
    if SomeWaiting(c) {
      var k :| k in c.cancels && c.cancels[k].Waiting?;
      var r' := WaitingOverturns(r, t, k);
      assert OrderedRun(r') && Continues(r, r');
    } else {
      DoneWritesCancel(c);
      CancelWriteLands(c);
      var r' := Then(r, On(t, Land(0)));
      assert OrderedRun(r') && Continues(r, r');
    }
  }

  /** Once the entry of a finished and stored child is gone, the answer is final exactly
      when it is "killed", or no write is on its way and no canceller still waits. */
  lemma PoppedFinalIff(r: Run, t: TaskId, caller: Option<string>)
    requires OrderedRun(r)
    requires var c := CellOf(Last(r), t); DoneAndStored(c) && c.entry.None?
    ensures var c := CellOf(Last(r), t);
            IsFinal(r, t, caller) <==>
            RecordAnswer(c.record) == OutcomeAnswer(Cancelled) || (c.writes == [] && !SomeWaiting(c))
  {
    var c := CellOf(Last(r), t);
    RunInv(r, |r.states| - 1);
    assert CellInv(c);
    if RecordAnswer(c.record) == OutcomeAnswer(Cancelled) {
      PoppedKilledIsFinal(r, t, caller);
    } else if c.writes == [] && !SomeWaiting(c) {
      assert Rests(c);
      RestingIsFinal(r, t, caller);
    } else {
      PoppedIsNotFinal(r, t, caller);
    }
  }
}
