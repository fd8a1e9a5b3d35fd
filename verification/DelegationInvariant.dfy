/** What every step of the delegation protocol keeps, when the store applies the
    writes of one task in the order they were issued. */
module DelegationInvariant {
  import opened Common
  import opened RuntimeTasks
  import opened DelegationProtocol

  // ---- invariants of one cell ----

  ghost predicate Shape(c: Cell) {
    && (!c.launch.NoLaunch? ==>
          && c.task.None? && c.writes == [] && c.lost == {} && c.acked == {}
          && (c.record.Some? ==> c.launch.Created? && c.record.value.status == Pending))
    && (c.task.None? ==> c.entry.None? && c.cancels == map[])
    && (c.task.Some? ==> c.launch.NoLaunch?)
    && (Live(c) ==> c.entry.Some?)
    && (c.entry.Some? ==>
          c.entry.value == Entry(MaybeUuidOf(c.task.value.req.parentAgent), c.task.value.req.trace))
    && c.spawns == (if c.task.Some? then 1 else 0)
    && (c.cancels != map[] ==> c.cancelSeen)
    && (c.task.Some? && c.task.value.cancelPending ==> c.cancelSeen)
    && (forall k | k in c.cancels && c.cancels[k].Writing? :: IsDone(c))
  }

  /** At most the first write in flight can make a record active. */
  ghost predicate Order(c: Cell) {
    && (forall i | 0 <= i < |c.writes| :: WriteShape(c, c.writes[i]))
    && (forall i | 0 < i < |c.writes| :: Terminal(c.writes[i].update.status))
    && (c.writes != [] && Active(c.writes[0].update.status) ==>
          && c.task.Some?
          && (c.record.Some? ==>
                if c.writes[0].author == Launcher then c.record.value.status == Pending
                else Active(c.record.value.status)))
  }

  ghost predicate WriteShape(c: Cell, w: Write) {
    match w.author
    case Launcher => w.update.status == Running
    case Resumer => if c.task.Some? then w.update.status == Running else w.update == RESUME_FAILED
    case Child => Terminal(w.update.status) && c.task.Some? && !c.task.value.phase.Working?
    case Canceller(_) => w.update.status == Killed && IsDone(c) && c.cancelSeen
                         && w.update == CancelUpdate(c.task.value.req.trace)
  }

  /** The record answers a check exactly as the outcome does. */
  ghost predicate Agrees(rec: Record, o: Outcome) {
    RecordAnswer(Some(rec)) == OutcomeAnswer(o)
  }

  /** Where the child's result is, once it has one and its write was not lost. */
  ghost predicate Settled(c: Cell) {
    c.task.Some? && c.record.Some? && Child !in c.lost ==>
      match c.task.value.phase
      case Working => true
      case Settling(o) =>
        || (c.writes != [] && c.writes[|c.writes| - 1] == Write(Child, SettleUpdate(o, c.task.value.req)))
        || (c.writes == [] && Agrees(c.record.value, o))
      case Done(o) =>
        && (forall w | w in c.writes :: w.author.Canceller?)
        && (Agrees(c.record.value, o) || (c.cancelSeen && Agrees(c.record.value, Cancelled)))
  }

  ghost predicate AllKilled(c: Cell) {
    c.record.Some? ==>
      c.record.value.status == Killed && forall w | w in c.writes :: w.update.status == Killed
  }

  ghost predicate SealedBy(c: Cell, k: nat) {
    || AllKilled(c)
    || (exists i | 0 <= i < |c.writes| ::
          && c.writes[i].author == Canceller(k)
          && forall j | i <= j < |c.writes| :: c.writes[j].update.status == Killed)
  }

  /** A cancel call that returned "killed" left a killed record behind. */
  ghost predicate Acked(c: Cell) {
    && (forall k | k in c.acked :: Canceller(k) in c.lost || (AllKilled(c) && (c.task.Some? ==> IsDone(c))))
    && (forall k | k in c.cancels && c.cancels[k].Writing? :: Canceller(k) in c.lost || SealedBy(c, k))
    && c.acked !! c.cancels.Keys
    && (forall w | w in c.writes && w.author.Canceller? :: w.author.id in c.cancels)
  }

  ghost predicate TaskFor(req: Request, origin: Request) {
    && req.trace == origin.trace
    && MaybeUuidOf(req.parentAgent) == MaybeUuidOf(origin.parentAgent)
    && (origin.session != "" ==> req.session == origin.session)
    && (RoundTrips(origin) ==> req == origin)
  }

  /** Record, writes and task all still belong to the launching request. */
  ghost predicate Origin(c: Cell) {
    && (c.record.Some? ==> c.origin.Some? && RecordFor(c.record.value, c.origin.value))
    && (c.task.Some? ==> c.origin.Some? && TaskFor(c.task.value.req, c.origin.value))
    && (c.task.Some? && c.task.value.phase.Settling? && c.task.value.phase.pending.Finished? ==>
          ValidOutcome(c.task.value.req, c.task.value.phase.pending))
    && (!c.launch.NoLaunch? ==> c.origin == Some(c.launch.req))
    && (c.origin.Some? ==> c.origin.value.trace != "")
    && (forall w | w in c.writes :: c.origin.Some? && UpdateFor(w.update, c.origin.value))
  }

  ghost predicate CellInv(c: Cell) {
    Shape(c) && Order(c) && Settled(c) && Acked(c) && Origin(c)
  }

  // ---- acts keep them ----

  lemma FilterNotChild(ws: seq<Write>)
    requires forall i | 0 < i < |ws| :: Terminal(ws[i].update.status)
    requires forall i | 0 <= i < |ws| :: ws[i].author == Child ==> Terminal(ws[i].update.status)
    requires forall i | 0 <= i < |ws| :: !ws[i].author.Canceller?
    requires forall i | 0 <= i < |ws| :: ws[i].author == Launcher ==> ws[i].update.status == Running
    requires forall i | 0 <= i < |ws| :: ws[i].author == Resumer ==> ws[i].update.status == Running
    ensures Filter(NotBy(Child), ws) == if ws != [] && ws[0].author != Child then [ws[0]] else []
  {
    if ws != [] {
      assert forall i | 0 <= i < |ws[1..]| :: ws[1..][i] == ws[i + 1] && ws[1..][i].author == Child;
      OnlyChild(ws[1..]);
    }
  }

  lemma {:induction false} OnlyChild(ws: seq<Write>)
    requires forall i | 0 <= i < |ws| :: ws[i].author == Child
    ensures Filter(NotBy(Child), ws) == []
  {
    if ws != [] {
      OnlyChild(ws[1..]);
    }
  }

  lemma LaunchKeeps(c: Cell, a: Act)
    requires CellInv(c) && ActEnabled(true, c, a)
    requires a.LandCreate? || a.LoseCreate? || a.Spawn?
    ensures CellInv(ActEffect(c, a))
  {
    if a.LandCreate? {
      NewRecordFor(c.launch.req);
    }
  }

  lemma LandKeepsOrder(c: Cell)
    requires Shape(c) && Order(c) && c.writes != []
    ensures Shape(ActEffect(c, Land(0))) && Order(ActEffect(c, Land(0)))
  {
  }

  lemma LandWhileSettling(c: Cell)
    requires Settled(c) && c.writes != [] && c.task.Some? && c.task.value.phase.Settling?
    ensures Settled(ActEffect(c, Land(0)))
  {
    assert |c.writes| > 1 ==> ActEffect(c, Land(0)).writes[|c.writes| - 2] == c.writes[|c.writes| - 1];
  }

  lemma LandWhenDone(c: Cell)
    requires Order(c) && Settled(c) && c.writes != [] && IsDone(c)
    ensures Settled(ActEffect(c, Land(0)))
  {
    assert forall w | w in ActEffect(c, Land(0)).writes :: w in c.writes;
    assert c.writes[0] in c.writes && WriteShape(c, c.writes[0]);
  }

  lemma LandKeepsSettled(c: Cell)
    requires Order(c) && Settled(c) && c.writes != []
    ensures Settled(ActEffect(c, Land(0)))
  {
    if c.task.Some? && c.task.value.phase.Settling? {
      LandWhileSettling(c);
    } else if IsDone(c) {
      LandWhenDone(c);
    }
  }

  lemma LandKeepsOrigin(c: Cell)
    requires Origin(c) && c.writes != []
    ensures Origin(ActEffect(c, Land(0)))
  {
    var c' := ActEffect(c, Land(0));
    assert forall w | w in c'.writes :: w in c.writes;
    assert c.writes[0] in c.writes;
    if c.record.Some? {
      ApplyKeepsRecordFor(c.record.value, c.writes[0].update, c.origin.value);
    }
  }

  lemma LandKeepsAcked(c: Cell)
    requires Acked(c) && c.writes != []
    ensures Acked(ActEffect(c, Land(0)))
  {
    var c' := ActEffect(c, Land(0));
    assert forall w | w in c'.writes :: w in c.writes;
    assert AllKilled(c) ==> AllKilled(c') by {
      assert c.writes[0] in c.writes;
    }
    forall k | k in c'.cancels && c'.cancels[k].Writing?
      ensures Canceller(k) in c'.lost || SealedBy(c', k)
    {
      LandKeepsSeal(c, k);
    }
  }

  lemma LandKeepsSeal(c: Cell, k: nat)
    requires c.writes != [] && k in c.cancels && c.cancels[k].Writing? && Acked(c)
    ensures Canceller(k) in c.lost || SealedBy(ActEffect(c, Land(0)), k)
  {
    var c' := ActEffect(c, Land(0));
    if Canceller(k) !in c.lost && !AllKilled(c) {
      var i :| 0 <= i < |c.writes| && c.writes[i].author == Canceller(k)
               && forall j | i <= j < |c.writes| :: c.writes[j].update.status == Killed;
      if i > 0 {
        assert c'.writes[i - 1] == c.writes[i];
      } else {
        assert forall w | w in c'.writes :: exists j | 0 <= j < |c'.writes| :: c'.writes[j] == w;
      }
    }
  }

  lemma LoseKeepsOrder(c: Cell, at: nat)
    requires Shape(c) && Order(c) && at < |c.writes|
    ensures Shape(ActEffect(c, Lose(at))) && Order(ActEffect(c, Lose(at)))
  {
    var c' := ActEffect(c, Lose(at));
    forall i | 0 <= i < |c'.writes|
      ensures WriteShape(c', c'.writes[i]) && (i > 0 || at == 0 ==> Terminal(c'.writes[i].update.status))
    {
      var k := if i < at then i else i + 1;
      assert c'.writes[i] == c.writes[k] && WriteShape(c, c.writes[k]);
    }
  }

  lemma LoseKeepsSettled(c: Cell, at: nat)
    requires Settled(c) && at < |c.writes|
    ensures Settled(ActEffect(c, Lose(at)))
  {
  }

  lemma LoseKeepsOrigin(c: Cell, at: nat)
    requires Origin(c) && at < |c.writes|
    ensures Origin(ActEffect(c, Lose(at)))
  {
  }

  lemma LoseKeepsAcked(c: Cell, at: nat)
    requires Acked(c) && at < |c.writes|
    ensures Acked(ActEffect(c, Lose(at)))
  {
    var c' := ActEffect(c, Lose(at));
    assert forall w | w in c'.writes :: w in c.writes;
    forall k | k in c'.cancels && c'.cancels[k].Writing?
      ensures Canceller(k) in c'.lost || SealedBy(c', k)
    {
      LoseKeepsSeal(c, at, k);
    }
  }

  lemma LoseKeepsSeal(c: Cell, at: nat, k: nat)
    requires at < |c.writes| && k in c.cancels && c.cancels[k].Writing? && Acked(c)
    ensures var c' := ActEffect(c, Lose(at)); Canceller(k) in c'.lost || SealedBy(c', k)
  {
    var c' := ActEffect(c, Lose(at));
    if Canceller(k) !in c'.lost && !AllKilled(c) {
      var i :| 0 <= i < |c.writes| && c.writes[i].author == Canceller(k)
               && forall j | i <= j < |c.writes| :: c.writes[j].update.status == Killed;
      if at < i {
        assert c'.writes[i - 1] == c.writes[i];
      } else {
        assert c'.writes[i] == c.writes[i];
      }
    }
  }

  lemma SettleKeepsOrder(c: Cell, o: Outcome)
    requires Shape(c) && Order(c) && Settled(c) && ActEnabled(true, c, Settle(o))
    ensures var c' := ActEffect(c, Settle(o)); Shape(c') && Order(c') && Settled(c')
  {
    assert forall i | 0 <= i < |c.writes| :: WriteShape(c, c.writes[i]);
  }

  lemma SettleKeepsOrigin(c: Cell, o: Outcome)
    requires Shape(c) && Acked(c) && Origin(c) && ActEnabled(true, c, Settle(o))
    ensures var c' := ActEffect(c, Settle(o)); Acked(c') && Origin(c')
  {
  }

  /** While the child is live, at most the spawner's write precedes its own. */
  lemma DeliverWrites(c: Cell)
    requires CellInv(c) && Live(c)
    ensures Filter(NotBy(Child), c.writes) == if c.writes != [] && c.writes[0].author != Child then [c.writes[0]] else []
    ensures c.task.value.phase.Working? ==> |c.writes| <= 1 && Filter(NotBy(Child), c.writes) == c.writes
  {
    forall i | 0 <= i < |c.writes|
      ensures !c.writes[i].author.Canceller?
      ensures c.writes[i].author == Child ==> Terminal(c.writes[i].update.status)
      ensures c.writes[i].author == Launcher || c.writes[i].author == Resumer ==> c.writes[i].update.status == Running
    {
      assert WriteShape(c, c.writes[i]);
    }
    FilterNotChild(c.writes);
    if c.task.value.phase.Working? && |c.writes| > 0 {
      assert WriteShape(c, c.writes[0]);
    }
  }

  lemma DeliverKeepsShape(c: Cell)
    requires Shape(c) && ActEnabled(true, c, DeliverCancel)
    ensures Shape(Deliver(c))
  {
  }

  lemma DeliverKeepsOrder(c: Cell)
    requires Order(c) && ActEnabled(true, c, DeliverCancel)
    requires Filter(NotBy(Child), c.writes) == if c.writes != [] && c.writes[0].author != Child then [c.writes[0]] else []
    requires c.task.value.phase.Working? ==> |c.writes| <= 1 && Filter(NotBy(Child), c.writes) == c.writes
    ensures Order(Deliver(c))
  {
    assert c.writes != [] ==> WriteShape(c, c.writes[0]);
    var c' := Deliver(c);
    forall i | 0 <= i < |c'.writes|
      ensures WriteShape(c', c'.writes[i]) && (i > 0 ==> Terminal(c'.writes[i].update.status))
    {
      assert c'.writes[i] == Write(Child, SettleUpdate(Cancelled, c.task.value.req)) || (i == 0 && c'.writes[0] == c.writes[0]);
    }
  }

  lemma DeliverKeepsSettled(c: Cell)
    requires CellInv(c) && ActEnabled(true, c, DeliverCancel)
    ensures Settled(Deliver(c))
  {
    DeliverWrites(c);
    var c' := Deliver(c);
    if c.task.value.phase == Settling(Cancelled) && Child !in c'.lost {
      assert !HasWriteBy(c, Child);
      assert c.record.Some? && Child !in c.lost ==> c.writes == [];
    }
  }

  lemma CancelledUpdateFor(req: Request, origin: Request)
    requires TaskFor(req, origin)
    ensures UpdateFor(SettleUpdate(Cancelled, req), origin)
  {
  }

  lemma DeliverKeepsOrigin(c: Cell)
    requires Origin(c) && ActEnabled(true, c, DeliverCancel)
    ensures Origin(Deliver(c))
  {
    var c' := Deliver(c);
    var w := Write(Child, SettleUpdate(Cancelled, c.task.value.req));
    CancelledUpdateFor(c.task.value.req, c.origin.value);
    forall v | v in c'.writes
      ensures v in c.writes || v == w
    {
      assert forall u | u in Filter(NotBy(Child), c.writes) :: u in c.writes;
    }
    assert c'.origin == c.origin && c'.record == c.record && c'.launch == c.launch;
  }

  lemma DeliverKeepsAcked(c: Cell)
    requires Shape(c) && Acked(c) && ActEnabled(true, c, DeliverCancel)
    ensures Acked(Deliver(c))
  {
  }

  lemma FinishKeeps(c: Cell, a: Act)
    requires CellInv(c) && ActEnabled(true, c, a)
    requires a.Finish? || a.MissCancel?
    ensures CellInv(ActEffect(c, a))
  {
  }

  lemma RequestKeeps(c: Cell, a: Act)
    requires CellInv(c) && ActEnabled(true, c, a) && a.RequestCancel?
    ensures CellInv(ActEffect(c, a))
  {
    var c' := ActEffect(c, a);
    assert c'.writes == c.writes && c'.record == c.record;
    RequestKeepsOrder(c, a);
    RequestKeepsRest(c, a);
  }

  lemma RequestKeepsOrder(c: Cell, a: Act)
    requires Shape(c) && Order(c) && ActEnabled(true, c, a) && a.RequestCancel?
    ensures Shape(ActEffect(c, a)) && Order(ActEffect(c, a))
  {
  }

  lemma RequestKeepsRest(c: Cell, a: Act)
    requires Shape(c) && Settled(c) && Acked(c) && Origin(c) && ActEnabled(true, c, a) && a.RequestCancel?
    ensures Settled(ActEffect(c, a)) && Acked(ActEffect(c, a)) && Origin(ActEffect(c, a))
  {
  }

  lemma ReturnKeeps(c: Cell, a: Act)
    requires CellInv(c) && ActEnabled(true, c, a) && a.ReturnCancel?
    ensures CellInv(ActEffect(c, a))
  {
  }

  lemma ProceedKeepsOrder(c: Cell, k: nat)
    requires Shape(c) && Order(c) && Settled(c) && ActEnabled(true, c, ProceedCancel(k))
    ensures var c' := ActEffect(c, ProceedCancel(k)); Shape(c') && Order(c') && Settled(c')
  {
    var c' := ActEffect(c, ProceedCancel(k));
    assert forall i | 0 <= i < |c.writes| :: c'.writes[i] == c.writes[i] && WriteShape(c, c.writes[i]);
  }

  lemma ProceedKeepsAcked(c: Cell, k: nat)
    requires Acked(c) && ActEnabled(true, c, ProceedCancel(k))
    ensures Acked(ActEffect(c, ProceedCancel(k)))
  {
    var c' := ActEffect(c, ProceedCancel(k));
    assert AllKilled(c) ==> AllKilled(c');
    forall m | m in c'.cancels && c'.cancels[m].Writing?
      ensures Canceller(m) in c'.lost || SealedBy(c', m)
    {
      if m == k {
        assert c'.writes[|c.writes|].author == Canceller(k);
      } else if Canceller(m) !in c.lost && !AllKilled(c) {
        var i :| 0 <= i < |c.writes| && c.writes[i].author == Canceller(m)
                 && forall j | i <= j < |c.writes| :: c.writes[j].update.status == Killed;
        assert c'.writes[i] == c.writes[i];
      }
    }
  }

  lemma ProceedKeepsOrigin(c: Cell, k: nat)
    requires Origin(c) && ActEnabled(true, c, ProceedCancel(k))
    ensures Origin(ActEffect(c, ProceedCancel(k)))
  {
    var c' := ActEffect(c, ProceedCancel(k));
    var w := Write(Canceller(k), CancelUpdate(c.task.value.req.trace));
    assert forall v | v in c'.writes :: v in c.writes || v == w;
  }

  lemma ActKeepsCellInv(c: Cell, a: Act)
    requires CellInv(c) && ActEnabled(true, c, a)
    ensures CellInv(ActEffect(c, a))
  {
    match a
    case LandCreate => LaunchKeeps(c, a);
    case LoseCreate => LaunchKeeps(c, a);
    case Spawn => LaunchKeeps(c, a);
    case Land(_) =>
      LandKeepsOrder(c);
      LandKeepsSettled(c);
      LandKeepsAcked(c);
      LandKeepsOrigin(c);
    case Lose(i) =>
      LoseKeepsOrder(c, i);
      LoseKeepsSettled(c, i);
      LoseKeepsAcked(c, i);
      LoseKeepsOrigin(c, i);
    case Settle(o) =>
      SettleKeepsOrder(c, o);
      SettleKeepsOrigin(c, o);
    case DeliverCancel =>
      DeliverWrites(c);
      DeliverKeepsShape(c);
      DeliverKeepsOrder(c);
      DeliverKeepsSettled(c);
      DeliverKeepsAcked(c);
      DeliverKeepsOrigin(c);
    case MissCancel => FinishKeeps(c, a);
    case Finish => FinishKeeps(c, a);
    case RequestCancel(_, _) => RequestKeeps(c, a);
    case ProceedCancel(k) =>
      ProceedKeepsOrder(c, k);
      ProceedKeepsAcked(c, k);
      ProceedKeepsOrigin(c, k);
    case ReturnCancel(_) => ReturnKeeps(c, a);
  }
}
