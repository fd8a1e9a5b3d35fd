/** The Redis Streams event bus: one stream with its approximate length limit, one
    consumer group on it, and the group's consumers. */
module EventBus {
  import opened Common

  type Consumer = nat

  /** At least this many of the newest entries are kept (`maxlen=10000`). */
  const MAX_LEN: nat := 10000

  datatype Event = Event(kind: string, payload: string)
  datatype Entry = Entry(id: nat, event: Event)

  /** How one handler call ends: acknowledged, failed, or returned with its
      acknowledgement lost; the last two are caught and logged alike. */
  datatype Outcome = Done | Failed | AckLost
  datatype Handling = Handling(consumer: Consumer, entry: Entry, outcome: Outcome)

  /** `log` is everything ever published, the entry's id its position; the stream
      holds the ids from `first` on. `next` is the group's cursor. `batches` are the
      entries each consumer has read and not yet handled; `handled` records the
      handler calls in order. */
  datatype Bus = Bus(
    log: seq<Event>, first: nat,
    next: nat, delivered: seq<nat>, pending: set<nat>, acked: set<nat>,
    batches: map<Consumer, seq<Entry>>, handled: seq<Handling>)

  datatype Label =
    | Publish(event: Event, kept: nat)
    | Read(reader: Consumer, count: nat)
    | Handle(worker: Consumer, outcome: Outcome)
    | Crash(crashed: Consumer)
    | Ack(id: nat)

  function Batch(b: Bus, c: Consumer): seq<Entry> {
    if c in b.batches then b.batches[c] else []
  }

  // ---- the steps ----

  /** The approximate trim removes old entries or not, but never one of the newest
      `MAX_LEN`. */
  predicate MayTrimTo(b: Bus, kept: nat) {
    kept == b.first || (b.first <= kept && kept + MAX_LEN <= |b.log| + 1)
  }

  predicate Enabled(b: Bus, l: Label) {
    match l
    case Publish(_, kept) => MayTrimTo(b, kept)
    case Read(c, count) => Batch(b, c) == [] && count > 0
    case Handle(c, _) => Batch(b, c) != []
    case Crash(_) => true
    case Ack(_) => true
  }

  function Start(b: Bus): nat { if b.next < b.first then b.first else b.next }

  /** Where a read of at most `count` new entries ends. */
  function Stop(b: Bus, count: nat): nat {
    if Start(b) >= |b.log| then Start(b)
    else if Start(b) + count < |b.log| then Start(b) + count else |b.log|
  }

  function Ids(lo: nat, hi: nat): (r: seq<nat>)
    requires lo <= hi
    ensures |r| == hi - lo && forall k :: 0 <= k < |r| ==> r[k] == lo + k
    ensures forall i: nat :: i in r <==> lo <= i < hi
    decreases hi
  {
    if lo == hi then [] else Ids(lo, hi - 1) + [hi - 1]
  }

  function Entries(log: seq<Event>, lo: nat, hi: nat): (r: seq<Entry>)
    requires lo <= hi && (lo < hi ==> hi <= |log|)
    ensures |r| == hi - lo && forall k :: 0 <= k < |r| ==> r[k] == Entry(lo + k, log[lo + k])
  {
    seq(hi - lo, k requires 0 <= k < hi - lo => Entry(lo + k, log[lo + k]))
  }

  function ReadNew(b: Bus, c: Consumer, count: nat): Bus {
    var lo, hi := Start(b), Stop(b, count);
    if lo == hi then b
    else
      b.(next := hi, delivered := b.delivered + Ids(lo, hi), pending := b.pending + ToSet(Ids(lo, hi)),
         batches := b.batches[c := Entries(b.log, lo, hi)])
  }

  function Acknowledge(b: Bus, id: nat): Bus {
    if id in b.pending then b.(pending := b.pending - {id}, acked := b.acked + {id}) else b
  }

  function HandleNext(b: Bus, c: Consumer, outcome: Outcome): Bus
    requires Batch(b, c) != []
  {
    var entry := Batch(b, c)[0];
    var after := if outcome.Done? then Acknowledge(b, entry.id) else b;
    after.(batches := b.batches[c := Batch(b, c)[1..]], handled := b.handled + [Handling(c, entry, outcome)])
  }

  function Effect(b: Bus, l: Label): Bus
    requires Enabled(b, l)
  {
    match l
    case Publish(event, kept) => b.(log := b.log + [event], first := kept)
    case Read(c, count) => ReadNew(b, c, count)
    case Handle(c, outcome) => HandleNext(b, c, outcome)
    case Crash(c) => b.(batches := b.batches[c := []])
    case Ack(id) => Acknowledge(b, id)
  }

  function Empty(): Bus { Bus([], 0, 0, [], {}, {}, map[], []) }

  ghost predicate IsStep(a: Bus, l: Label, b: Bus) {
    Enabled(a, l) && b == Effect(a, l)
  }

  ghost predicate StepAt(run: seq<Bus>, labels: seq<Label>, k: nat)
    requires k < |labels| < |run|
  {
    IsStep(run[k], labels[k], run[k + 1])
  }

  ghost predicate IsRun(run: seq<Bus>, labels: seq<Label>) {
    |run| == |labels| + 1 && run[0] == Empty() && forall k: nat :: k < |labels| ==> StepAt(run, labels, k)
  }

  // ---- the stream and the cursor ----

  ghost predicate CursorInv(b: Bus) {
    && b.next <= |b.log|
    && (b.first == 0 || b.first + MAX_LEN <= |b.log|)
    && (forall k :: 0 <= k < |b.delivered| ==> b.delivered[k] < b.next)
    && (forall j, k :: 0 <= j < k < |b.delivered| ==> b.delivered[j] < b.delivered[k])
    && (forall i: nat :: i < b.next && i !in b.delivered ==> i + MAX_LEN < |b.log|)
  }

  lemma StepKeepsCursor(a: Bus, l: Label, b: Bus)
    requires IsStep(a, l, b) && CursorInv(a)
    ensures CursorInv(b)
  {
  }

  // ---- pending and acknowledged ----

  ghost predicate SplitInv(b: Bus) {
    b.pending !! b.acked && (forall i: nat :: i in b.delivered <==> i in b.pending || i in b.acked)
  }

  lemma StepKeepsSplit(a: Bus, l: Label, b: Bus)
    requires IsStep(a, l, b) && CursorInv(a) && SplitInv(a)
    ensures SplitInv(b)
  {
  }

  // ---- batches and handler calls ----

  /** A consumer's entries are delivered ones, in order, as they were published. */
  ghost predicate BatchOk(b: Bus, c: Consumer) {
    && (forall k :: 0 <= k < |Batch(b, c)| ==> EntryOk(b, Batch(b, c)[k]))
    && (forall j, k :: 0 <= j < k < |Batch(b, c)| ==> Batch(b, c)[j].id < Batch(b, c)[k].id)
  }

  ghost predicate EntryOk(b: Bus, e: Entry) {
    e.id < b.next && e.id in b.delivered && e.id < |b.log| && e.event == b.log[e.id]
  }

  ghost predicate Unhandled(b: Bus, id: nat) {
    forall k :: 0 <= k < |b.handled| ==> b.handled[k].entry.id != id
  }

  ghost predicate Apart(b: Bus, c: Consumer, d: Consumer) {
    c != d ==> forall j, k :: 0 <= j < |Batch(b, c)| && 0 <= k < |Batch(b, d)| ==> Batch(b, c)[j].id != Batch(b, d)[k].id
  }

  /** What a consumer still has to handle comes after all it has handled. */
  ghost predicate Ahead(b: Bus, c: Consumer) {
    forall j, k :: 0 <= j < |b.handled| && 0 <= k < |Batch(b, c)| && b.handled[j].consumer == c ==>
      b.handled[j].entry.id < Batch(b, c)[k].id
  }

  ghost predicate BatchInv(b: Bus) {
    && (forall c :: BatchOk(b, c))
    && (forall c, k :: 0 <= k < |Batch(b, c)| ==> Unhandled(b, Batch(b, c)[k].id))
    && (forall c, d :: Apart(b, c, d))
    && (forall c :: Ahead(b, c))
  }

  ghost predicate HandledInv(b: Bus) {
    && (forall k :: 0 <= k < |b.handled| ==> EntryOk(b, b.handled[k].entry))
    && (forall j, k :: 0 <= j < k < |b.handled| ==> b.handled[j].entry.id != b.handled[k].entry.id)
    && (forall j, k :: 0 <= j < k < |b.handled| && b.handled[j].consumer == b.handled[k].consumer ==>
          b.handled[j].entry.id < b.handled[k].entry.id)
  }

  ghost predicate Inv(b: Bus) {
    CursorInv(b) && SplitInv(b) && BatchInv(b) && HandledInv(b)
  }

  lemma EntryStaysOk(a: Bus, l: Label, b: Bus, e: Entry)
    requires IsStep(a, l, b) && EntryOk(a, e) && CursorInv(a)
    ensures EntryOk(b, e)
  {
  }

  lemma NewEntryOk(a: Bus, c: Consumer, count: nat, k: nat)
    requires CursorInv(a) && k < Stop(a, count) - Start(a)
    ensures EntryOk(ReadNew(a, c, count), Entries(a.log, Start(a), Stop(a, count))[k])
    ensures a.next <= Start(a) + k
  {
  }

  lemma ReadBatches(a: Bus, c: Consumer, count: nat, b: Bus)
    requires Inv(a) && IsStep(a, Read(c, count), b) && b != a
    ensures forall d :: Batch(b, d) == if d == c then Entries(a.log, Start(a), Stop(a, count)) else Batch(a, d)
    ensures forall k :: 0 <= k < |Batch(b, c)| ==> Batch(b, c)[k].id >= a.next
  {
  }

  lemma ReadKeepsBatches(a: Bus, c: Consumer, count: nat, b: Bus)
    requires Inv(a) && IsStep(a, Read(c, count), b)
    ensures BatchInv(b) && HandledInv(b)
  {
    if b != a {
      ReadBatches(a, c, count, b);
      forall d
        ensures BatchOk(b, d)
      {
        forall k | 0 <= k < |Batch(b, d)|
          ensures EntryOk(b, Batch(b, d)[k])
        {
          if d == c {
            NewEntryOk(a, c, count, k);
          } else {
            assert BatchOk(a, d);
            EntryStaysOk(a, Read(c, count), b, Batch(a, d)[k]);
          }
        }
        assert BatchOk(a, d);
      }
      forall k | 0 <= k < |b.handled|
        ensures EntryOk(b, b.handled[k].entry)
      {
        EntryStaysOk(a, Read(c, count), b, a.handled[k].entry);
      }
      ReadKeepsApart(a, c, count, b);
    }
  }

  lemma ReadKeepsApart(a: Bus, c: Consumer, count: nat, b: Bus)
    requires Inv(a) && IsStep(a, Read(c, count), b) && b != a
    ensures forall d, k :: 0 <= k < |Batch(b, d)| ==> Unhandled(b, Batch(b, d)[k].id)
    ensures forall d, e :: Apart(b, d, e)
    ensures forall d :: Ahead(b, d)
  {
    ReadBatches(a, c, count, b);
    forall d, k | 0 <= k < |Batch(b, d)|
      ensures Unhandled(b, Batch(b, d)[k].id)
    {
      if d != c {
        assert Unhandled(a, Batch(a, d)[k].id);
      }
    }
    forall d, e
      ensures Apart(b, d, e)
    {
      assert Apart(a, d, e) && BatchOk(a, d) && BatchOk(a, e);
    }
    forall d
      ensures Ahead(b, d)
    {
      assert Ahead(a, d);
    }
  }

  lemma HandleBatches(a: Bus, c: Consumer, outcome: Outcome, b: Bus)
    requires IsStep(a, Handle(c, outcome), b)
    ensures forall d :: Batch(b, d) == if d == c then Batch(a, c)[1..] else Batch(a, d)
    ensures b.handled == a.handled + [Handling(c, Batch(a, c)[0], outcome)]
  {
  }

  lemma HandleKeepsEntries(a: Bus, c: Consumer, outcome: Outcome, b: Bus, d: Consumer)
    requires CursorInv(a) && BatchOk(a, d) && IsStep(a, Handle(c, outcome), b)
    ensures BatchOk(b, d)
  {
    HandleBatches(a, c, outcome, b);
    forall k | 0 <= k < |Batch(b, d)|
      ensures EntryOk(b, Batch(b, d)[k])
    {
      EntryStaysOk(a, Handle(c, outcome), b, Batch(b, d)[k]);
    }
  }

  lemma HandleKeepsAhead(a: Bus, c: Consumer, outcome: Outcome, b: Bus, d: Consumer)
    requires BatchOk(a, d) && Ahead(a, d) && IsStep(a, Handle(c, outcome), b)
    ensures Ahead(b, d)
  {
    HandleBatches(a, c, outcome, b);
  }

  lemma HandleKeepsUnhandled(a: Bus, c: Consumer, outcome: Outcome, b: Bus, d: Consumer, k: nat)
    requires Inv(a) && IsStep(a, Handle(c, outcome), b) && k < |Batch(b, d)|
    ensures Unhandled(b, Batch(b, d)[k].id)
  {
    HandleBatches(a, c, outcome, b);
    var k' := if d == c then k + 1 else k;
    OthersDiffer(a, c, d, k');
    StillUnhandled(a, b, Handling(c, Batch(a, c)[0], outcome), Batch(a, d)[k'].id);
  }

  lemma OthersDiffer(a: Bus, c: Consumer, d: Consumer, k: nat)
    requires BatchInv(a) && Batch(a, c) != [] && k < |Batch(a, d)| && (c == d ==> k > 0)
    ensures Batch(a, d)[k].id != Batch(a, c)[0].id && Unhandled(a, Batch(a, d)[k].id)
  {
    assert BatchOk(a, c) && Apart(a, c, d);
  }

  lemma StillUnhandled(a: Bus, b: Bus, h: Handling, id: nat)
    requires Unhandled(a, id) && h.entry.id != id && b.handled == a.handled + [h]
    ensures Unhandled(b, id)
  {
  }

  lemma HandleKeepsApart(a: Bus, c: Consumer, outcome: Outcome, b: Bus, d: Consumer, x: Consumer)
    requires Inv(a) && IsStep(a, Handle(c, outcome), b)
    ensures Apart(b, d, x)
  {
    HandleBatches(a, c, outcome, b);
    assert Apart(a, d, x);
  }

  lemma HandleKeepsBatches(a: Bus, c: Consumer, outcome: Outcome, b: Bus)
    requires Inv(a) && IsStep(a, Handle(c, outcome), b)
    ensures BatchInv(b)
  {
    forall d
      ensures BatchOk(b, d) && Ahead(b, d)
    {
      assert BatchOk(a, d) && Ahead(a, d);
      HandleKeepsEntries(a, c, outcome, b, d);
      HandleKeepsAhead(a, c, outcome, b, d);
    }
    forall d, k | 0 <= k < |Batch(b, d)|
      ensures Unhandled(b, Batch(b, d)[k].id)
    {
      HandleKeepsUnhandled(a, c, outcome, b, d, k);
    }
    forall d, x
      ensures Apart(b, d, x)
    {
      HandleKeepsApart(a, c, outcome, b, d, x);
    }
  }

  lemma HandleKeepsHandled(a: Bus, c: Consumer, outcome: Outcome, b: Bus)
    requires Inv(a) && IsStep(a, Handle(c, outcome), b)
    ensures HandledInv(b)
  {
    HandleBatches(a, c, outcome, b);
    assert BatchOk(a, c) && Ahead(a, c) && Unhandled(a, Batch(a, c)[0].id);
    HandledInTurn(a, c, Batch(a, c), Handling(c, Batch(a, c)[0], outcome), b);
    forall k | 0 <= k < |b.handled|
      ensures EntryOk(b, b.handled[k].entry)
    {
      EntryStaysOk(a, Handle(c, outcome), b, b.handled[k].entry);
    }
  }

  /** A call for the head of a batch comes after its consumer's others. */
  lemma HandledInTurn(a: Bus, c: Consumer, batch: seq<Entry>, h: Handling, b: Bus)
    requires HandledInv(a) && batch == Batch(a, c) && batch != [] && h.consumer == c && h.entry == batch[0]
    requires Ahead(a, c) && Unhandled(a, h.entry.id) && b.handled == a.handled + [h]
    ensures forall j, k :: 0 <= j < k < |b.handled| ==> b.handled[j].entry.id != b.handled[k].entry.id
    ensures forall j, k :: 0 <= j < k < |b.handled| && b.handled[j].consumer == b.handled[k].consumer ==>
              b.handled[j].entry.id < b.handled[k].entry.id
  {
  }

  /** Publishing, crashing and acknowledging leave batches as they are or empty them. */
  lemma OtherKeepsBatches(a: Bus, l: Label, b: Bus)
    requires Inv(a) && IsStep(a, l, b) && !l.Read? && !l.Handle?
    ensures BatchInv(b) && HandledInv(b)
  {
    assert forall d :: Batch(b, d) == Batch(a, d) || Batch(b, d) == [];
    assert b.handled == a.handled;
    forall d
      ensures BatchOk(b, d) && Ahead(b, d)
    {
      assert BatchOk(a, d) && Ahead(a, d);
      forall k | 0 <= k < |Batch(b, d)|
        ensures EntryOk(b, Batch(b, d)[k])
      {
        EntryStaysOk(a, l, b, Batch(a, d)[k]);
      }
    }
    forall d, k | 0 <= k < |Batch(b, d)|
      ensures Unhandled(b, Batch(b, d)[k].id)
    {
      assert Unhandled(a, Batch(a, d)[k].id);
    }
    forall d, x
      ensures Apart(b, d, x)
    {
      assert Apart(a, d, x);
    }
    forall k | 0 <= k < |b.handled|
      ensures EntryOk(b, b.handled[k].entry)
    {
      EntryStaysOk(a, l, b, b.handled[k].entry);
    }
  }

  lemma StepKeepsInv(a: Bus, l: Label, b: Bus)
    requires IsStep(a, l, b) && Inv(a)
    ensures Inv(b)
  {
    StepKeepsCursor(a, l, b);
    StepKeepsSplit(a, l, b);
    match l
    case Read(c, count) => ReadKeepsBatches(a, c, count, b);
    case Handle(c, outcome) => HandleKeepsBatches(a, c, outcome, b); HandleKeepsHandled(a, c, outcome, b);
    case Publish(_, _) => OtherKeepsBatches(a, l, b);
    case Crash(_) => OtherKeepsBatches(a, l, b);
    case Ack(_) => OtherKeepsBatches(a, l, b);
  }

  lemma {:induction false} RunInv(run: seq<Bus>, labels: seq<Label>, k: nat)
    requires IsRun(run, labels) && k < |run|
    ensures Inv(run[k])
    decreases k
  {
    if k > 0 {
      RunInv(run, labels, k - 1);
      assert StepAt(run, labels, k - 1);
      StepKeepsInv(run[k - 1], labels[k - 1], run[k]);
    }
  }

  // ---- the theorems ----

  /** Consumer-group accounting: the group's deliveries have strictly increasing ids,
      so none repeats, and they are exactly the acknowledged and the still pending
      entries, never both. */
  lemma DeliveredOnceAndSplit(run: seq<Bus>, labels: seq<Label>, k: nat)
    requires IsRun(run, labels) && k < |run|
    ensures forall i, j :: 0 <= i < j < |run[k].delivered| ==> run[k].delivered[i] < run[k].delivered[j]
    ensures run[k].pending !! run[k].acked
    ensures (set i | i in run[k].delivered) == run[k].pending + run[k].acked
  {
    RunInv(run, labels, k);
  }

  /** No entry is given to a handler twice, whatever consumers crash; each handler
      sees the event published under its id, and each consumer in publishing order. */
  lemma HandledAtMostOnce(run: seq<Bus>, labels: seq<Label>, k: nat, i: nat, j: nat)
    requires IsRun(run, labels) && k < |run| && i < j < |run[k].handled|
    ensures var x, y := run[k].handled[i], run[k].handled[j];
            && x.entry.id != y.entry.id
            && (x.consumer == y.consumer ==> x.entry.id < y.entry.id)
            && x.entry.id < |run[k].log| && x.entry.event == run[k].log[x.entry.id]
            && y.entry.id < |run[k].log| && y.entry.event == run[k].log[y.entry.id]
  {
    RunInv(run, labels, k);
    assert EntryOk(run[k], run[k].handled[i].entry) && EntryOk(run[k], run[k].handled[j].entry);
  }

  /** An entry that has not been delivered is still there for the next read, unless
      at least 10000 newer ones were published. */
  lemma LossNeedsBacklog(run: seq<Bus>, labels: seq<Label>, k: nat, i: nat)
    requires IsRun(run, labels) && k < |run| && i < |run[k].log| && i !in run[k].delivered
    ensures (i >= run[k].first && i >= run[k].next) || |run[k].log| - 1 - i >= 10000
  {
    RunInv(run, labels, k);
  }

  /** What can happen: a publish may trim to anywhere that leaves the newest 10000 entries, a
      consumer reads when it has handled its batch, and handles while it has one. */
  lemma CanHappen(b: Bus, l: Label)
    ensures l.Publish? ==>
              (Enabled(b, l) <==> l.kept == b.first || (b.first <= l.kept && l.kept + 10000 <= |b.log + [l.event]|))
    ensures l.Read? ==> (Enabled(b, l) <==> (l.reader !in b.batches || b.batches[l.reader] == []) && l.count > 0)
    ensures l.Handle? ==> (Enabled(b, l) <==> l.worker in b.batches && b.batches[l.worker] != [])
    ensures l.Crash? || l.Ack? ==> Enabled(b, l)
  {
  }

  /** A publish appends its event and leaves readable what it does not trim. */
  lemma PublishAppends(a: Bus, event: Event, kept: nat, b: Bus)
    requires IsStep(a, Publish(event, kept), b)
    ensures b.log == a.log + [event] && b.first == kept && b.next == a.next && b.delivered == a.delivered
    ensures b.pending == a.pending && b.acked == a.acked && b.batches == a.batches && b.handled == a.handled
  {
  }

  /** A read gives the consumer, in order and each once, the next entries that are neither
      delivered nor trimmed, at most `count` of them, with their events. */
  lemma ReadDelivers(a: Bus, c: Consumer, count: nat, b: Bus)
    requires IsStep(a, Read(c, count), b)
    ensures var lo := if a.next >= a.first then a.next else a.first;
            var batch := Batch(b, c);
            && |batch| <= count && (|batch| < count ==> |a.log| <= lo + |batch|) && (batch != [] ==> lo + |batch| <= |a.log|)
            && (forall k | 0 <= k < |batch| && lo + k < |a.log| :: batch[k] == Entry(lo + k, a.log[lo + k]))
            && |b.delivered| == |a.delivered| + |batch| && b.delivered[..|a.delivered|] == a.delivered
            && (forall k | |a.delivered| <= k < |b.delivered| :: b.delivered[k] == lo + (k - |a.delivered|))
            && (forall i: nat :: i in b.pending <==> i in a.pending || lo <= i < lo + |batch|)
            && (batch != [] ==> b.next == lo + |batch|) && (batch == [] ==> b == a)
    ensures b.log == a.log && b.first == a.first && b.acked == a.acked && b.handled == a.handled
  {
  }

  /** A read with room for everything leaves nothing readable undelivered. */
  lemma ReadTakesAll(b: Bus, c: Consumer, count: nat, i: nat)
    requires Start(b) <= i < |b.log| && Start(b) + count >= |b.log|
    ensures i in ReadNew(b, c, count).delivered
  {
  }

  ghost predicate HandledDone(b: Bus, i: nat) {
    exists k :: 0 <= k < |b.handled| && b.handled[k].entry.id == i && b.handled[k].outcome.Done?
  }

  ghost predicate AckedAreDone(b: Bus) {
    forall i: nat :: i in b.acked <==> HandledDone(b, i)
  }

  lemma HandleDone(a: Bus, c: Consumer, outcome: Outcome, b: Bus, i: nat)
    requires IsStep(a, Handle(c, outcome), b)
    ensures HandledDone(b, i) <==> HandledDone(a, i) || (outcome.Done? && Batch(a, c)[0].id == i)
  {
    HandleBatches(a, c, outcome, b);
    if HandledDone(a, i) {
      var k :| 0 <= k < |a.handled| && a.handled[k].entry.id == i && a.handled[k].outcome.Done?;
      assert b.handled[k] == a.handled[k];
    }
    if outcome.Done? && Batch(a, c)[0].id == i {
      assert b.handled[|a.handled|].entry.id == i;
    }
  }

  lemma StepKeepsDone(a: Bus, l: Label, b: Bus)
    requires IsStep(a, l, b) && Inv(a) && AckedAreDone(a) && !l.Ack?
    ensures AckedAreDone(b)
  {
    if l.Handle? {
      var e := Batch(a, l.worker)[0];
      assert BatchOk(a, l.worker) && Unhandled(a, e.id);
      assert e.id in a.pending;
      forall i: nat
        ensures i in b.acked <==> HandledDone(b, i)
      {
        HandleDone(a, l.worker, l.outcome, b, i);
      }
    } else {
      assert b.acked == a.acked && b.handled == a.handled;
    }
  }

  /** When nobody acknowledges by hand, the acknowledged entries are exactly those
      whose handler returned and whose acknowledgement arrived. */
  lemma {:induction false} AcknowledgedAreHandled(run: seq<Bus>, labels: seq<Label>, k: nat, i: nat)
    requires IsRun(run, labels) && k < |run| && forall j :: 0 <= j < k ==> !labels[j].Ack?
    ensures i in run[k].acked <==> HandledDone(run[k], i)
  {
    AckedAreDoneAlong(run, labels, k);
  }

  lemma {:induction false} AckedAreDoneAlong(run: seq<Bus>, labels: seq<Label>, k: nat)
    requires IsRun(run, labels) && k < |run| && forall j :: 0 <= j < k ==> !labels[j].Ack?
    ensures AckedAreDone(run[k])
    decreases k
  {
    if k > 0 {
      AckedAreDoneAlong(run, labels, k - 1);
      RunKeepsDone(run, labels, k - 1);
    }
  }

  lemma RunKeepsDone(run: seq<Bus>, labels: seq<Label>, k: nat)
    requires IsRun(run, labels) && k < |labels| && AckedAreDone(run[k]) && !labels[k].Ack?
    ensures AckedAreDone(run[k + 1])
  {
    RunInv(run, labels, k);
    assert StepAt(run, labels, k);
    StepKeepsDone(run[k], labels[k], run[k + 1]);
  }

  /** Pending, and in no consumer's hands: its handler failed or its consumer
      crashed. */
  ghost predicate Stranded(b: Bus, i: nat) {
    i in b.pending && forall c, k :: 0 <= k < |Batch(b, c)| ==> Batch(b, c)[k].id != i
  }

  lemma StepKeepsStranded(a: Bus, l: Label, b: Bus, i: nat)
    requires IsStep(a, l, b) && Inv(a) && Stranded(a, i) && l != Ack(i)
    ensures Stranded(b, i)
    ensures forall k :: |a.handled| <= k < |b.handled| ==> b.handled[k].entry.id != i
  {
    assert i in a.delivered;
    if l.Read? && a != b {
      ReadBatches(a, l.reader, l.count, b);
    } else if l.Handle? {
      HandleBatches(a, l.worker, l.outcome, b);
      assert Batch(a, l.worker)[0].id != i;
    } else {
      assert forall d :: Batch(b, d) == Batch(a, d) || Batch(b, d) == [];
    }
  }

  /** The subscriber reads only new entries: one whose handler failed, or whose
      consumer crashed, stays pending and is never handled again unless someone
      acknowledges it by hand. */
  lemma {:induction false} StrandedForever(run: seq<Bus>, labels: seq<Label>, j: nat, k: nat, i: nat)
    requires IsRun(run, labels) && j <= k < |run| && Stranded(run[j], i)
    requires forall n :: j <= n < k ==> labels[n] != Ack(i)
    ensures Stranded(run[k], i)
    ensures |run[j].handled| <= |run[k].handled|
    ensures forall n :: |run[j].handled| <= n < |run[k].handled| ==> run[k].handled[n].entry.id != i
    decreases k
  {
    if j < k {
      StrandedForever(run, labels, j, k - 1, i);
      RunInv(run, labels, k - 1);
      assert StepAt(run, labels, k - 1);
      StepKeepsStranded(run[k - 1], labels[k - 1], run[k], i);
      HandledGrows(run[k - 1], labels[k - 1], run[k]);
    }
  }

  lemma HandledGrows(a: Bus, l: Label, b: Bus)
    requires IsStep(a, l, b)
    ensures a.handled <= b.handled
  {
  }

  lemma FailureStrands(a: Bus, c: Consumer, outcome: Outcome, b: Bus)
    requires Inv(a) && IsStep(a, Handle(c, outcome), b) && !outcome.Done? && Batch(a, c)[0].id in a.pending
    ensures Stranded(b, Batch(a, c)[0].id)
  {
    HandleBatches(a, c, outcome, b);
    assert BatchOk(a, c);
    forall d, k | 0 <= k < |Batch(b, d)|
      ensures Batch(b, d)[k].id != Batch(a, c)[0].id
    {
      assert Apart(a, c, d);
    }
  }

  /** What a crash strands is exactly what its consumer still had to handle. */
  lemma CrashStrands(a: Bus, c: Consumer, b: Bus, i: nat)
    requires Inv(a) && IsStep(a, Crash(c), b)
    ensures Stranded(b, i) <==>
            i in a.pending && (Stranded(a, i) || exists k :: 0 <= k < |Batch(a, c)| && Batch(a, c)[k].id == i)
  {
    assert b.pending == a.pending && forall d :: Batch(b, d) == if d == c then [] else Batch(a, d);
    if k :| 0 <= k < |Batch(a, c)| && Batch(a, c)[k].id == i {
      forall d, j | 0 <= j < |Batch(b, d)|
        ensures Batch(b, d)[j].id != i
      {
        assert Apart(a, c, d);
      }
    } else if Stranded(b, i) {
      forall d, j | 0 <= j < |Batch(a, d)|
        ensures Batch(a, d)[j].id != i
      {
        assert d != c ==> Batch(b, d)[j] == Batch(a, d)[j];
      }
    }
  }

  // The states of a run in which two consumers read one entry each.
  function Two1(e: Event): Bus { Bus([e], 0, 0, [], {}, {}, map[], []) }

  function Two2(e: Event): Bus { Bus([e, e], 0, 0, [], {}, {}, map[], []) }

  function Two3(e: Event, c: Consumer): Bus { Bus([e, e], 0, 1, [0], {0}, {}, map[c := [Entry(0, e)]], []) }

  function Two4(e: Event, c: Consumer, d: Consumer): Bus {
    Bus([e, e], 0, 2, [0, 1], {0, 1}, {}, map[c := [Entry(0, e)], d := [Entry(1, e)]], [])
  }

  function Two5(e: Event, c: Consumer, d: Consumer): Bus {
    Bus([e, e], 0, 2, [0, 1], {0}, {1}, map[c := [Entry(0, e)], d := []], [Handling(d, Entry(1, e), Done)])
  }

  function Two6(e: Event, c: Consumer, d: Consumer): Bus {
    Bus([e, e], 0, 2, [0, 1], {}, {1, 0}, map[c := [], d := []],
        [Handling(d, Entry(1, e), Done), Handling(c, Entry(0, e), Done)])
  }

  lemma FirstRead(e: Event, c: Consumer)
    ensures IsStep(Two2(e), Read(c, 1), Two3(e, c))
  {
    assert Ids(0, 1) == [0] && Entries([e, e], 0, 1) == [Entry(0, e)];
  }

  lemma SecondRead(e: Event, c: Consumer, d: Consumer)
    requires c != d
    ensures IsStep(Two3(e, c), Read(d, 1), Two4(e, c, d))
  {
    assert Ids(1, 2) == [1] && Entries([e, e], 1, 2) == [Entry(1, e)];
  }

  lemma BothPublished(e: Event)
    ensures IsStep(Empty(), Publish(e, 0), Two1(e)) && IsStep(Two1(e), Publish(e, 0), Two2(e))
  {
  }

  lemma BothHandled(e: Event, c: Consumer, d: Consumer)
    requires c != d
    ensures IsStep(Two4(e, c, d), Handle(d, Done), Two5(e, c, d)) && IsStep(Two5(e, c, d), Handle(c, Done), Two6(e, c, d))
  {
  }

  /** The state can be reached with reads by consumers in `readers` only. */
  ghost predicate ReachableBy(b: Bus, readers: set<Consumer>) {
    exists run: seq<Bus>, labels: seq<Label> ::
      IsRun(run, labels) && ReadBy(labels, readers) && run[|labels|] == b
  }

  ghost predicate ReadBy(labels: seq<Label>, readers: set<Consumer>) {
    forall k :: 0 <= k < |labels| && labels[k].Read? ==> labels[k].reader in readers
  }

  lemma ReachStep(a: Bus, l: Label, b: Bus, readers: set<Consumer>)
    requires ReachableBy(a, readers) && IsStep(a, l, b) && (l.Read? ==> l.reader in readers)
    ensures ReachableBy(b, readers)
  {
    var run: seq<Bus>, labels: seq<Label> :| IsRun(run, labels) && ReadBy(labels, readers) && run[|labels|] == a;
    var run', labels' := run + [b], labels + [l];
    forall k: nat | k < |labels'|
      ensures StepAt(run', labels', k)
    {
      assert k < |labels| ==> StepAt(run, labels, k);
    }
    assert IsRun(run', labels') && ReadBy(labels', readers) && run'[|labels'|] == b;
  }

  lemma ReachEmpty(readers: set<Consumer>)
    ensures ReachableBy(Empty(), readers)
  {
    var labels: seq<Label> := [];
    assert IsRun([Empty()], labels) && ReadBy(labels, readers) && [Empty()][|labels|] == Empty();
  }

  lemma ReachTwo2(e: Event, readers: set<Consumer>)
    ensures ReachableBy(Two2(e), readers)
  {
    ReachEmpty(readers);
    BothPublished(e);
    ReachStep(Empty(), Publish(e, 0), Two1(e), readers);
    ReachStep(Two1(e), Publish(e, 0), Two2(e), readers);
  }

  lemma ReachTwo4(e: Event, c: Consumer, d: Consumer, readers: set<Consumer>)
    requires c != d && c in readers && d in readers
    ensures ReachableBy(Two4(e, c, d), readers)
  {
    ReachTwo2(e, readers);
    FirstRead(e, c);
    SecondRead(e, c, d);
    ReachStep(Two2(e), Read(c, 1), Two3(e, c), readers);
    ReachStep(Two3(e, c), Read(d, 1), Two4(e, c, d), readers);
  }

  /** Of any two consumers that read one entry each, the later reader may be the first
      to call its handler. */
  lemma HandlersOutOfOrder(e: Event, c: Consumer, d: Consumer, readers: set<Consumer>)
    requires c != d && c in readers && d in readers
    ensures ReachableBy(Two6(e, c, d), readers) && !HandledInOrder(Two6(e, c, d))
  {
    ReachTwo4(e, c, d, readers);
    BothHandled(e, c, d);
    ReachStep(Two4(e, c, d), Handle(d, Done), Two5(e, c, d), readers);
    ReachStep(Two5(e, c, d), Handle(c, Done), Two6(e, c, d), readers);
    assert Two6(e, c, d).handled[0].entry.id == 1 && Two6(e, c, d).handled[1].entry.id == 0;
  }

  /** The handler calls follow publishing order. */
  ghost predicate HandledInOrder(b: Bus) {
    forall i, j :: 0 <= i < j < |b.handled| ==> b.handled[i].entry.id < b.handled[j].entry.id
  }

  /** Only readers have entries in hand or have handled any. */
  ghost predicate OnlyReaders(b: Bus, readers: set<Consumer>) {
    && (forall c :: Batch(b, c) != [] ==> c in readers)
    && (forall k :: 0 <= k < |b.handled| ==> b.handled[k].consumer in readers)
  }

  lemma StepKeepsReaders(a: Bus, l: Label, b: Bus, readers: set<Consumer>)
    requires IsStep(a, l, b) && OnlyReaders(a, readers) && (l.Read? ==> l.reader in readers)
    ensures OnlyReaders(b, readers)
  {
    if l.Handle? {
      HandleBatches(a, l.worker, l.outcome, b);
    }
  }

  lemma {:induction false} RunKeepsReaders(run: seq<Bus>, labels: seq<Label>, readers: set<Consumer>, k: nat)
    requires IsRun(run, labels) && ReadBy(labels, readers) && k < |run|
    ensures OnlyReaders(run[k], readers)
    decreases k
  {
    if k > 0 {
      RunKeepsReaders(run, labels, readers, k - 1);
      assert StepAt(run, labels, k - 1);
      StepKeepsReaders(run[k - 1], labels[k - 1], run[k], readers);
    }
  }

  lemma OneReaderInOrder(b: Bus, readers: set<Consumer>)
    requires ReachableBy(b, readers) && |readers| <= 1
    ensures HandledInOrder(b)
  {
    var run: seq<Bus>, labels: seq<Label> :| IsRun(run, labels) && ReadBy(labels, readers) && run[|labels|] == b;
    RunKeepsReaders(run, labels, readers, |labels|);
    forall i: nat, j: nat | i < j < |b.handled|
      ensures b.handled[i].entry.id < b.handled[j].entry.id
    {
      HandledAtMostOnce(run, labels, |labels|, i, j);
      SubsetSize({b.handled[i].consumer, b.handled[j].consumer}, readers);
    }
  }

  /** Handler calls follow publishing order in every run read by the consumers of a set
      exactly when that set has at most one. */
  lemma InOrderIffOneReader(readers: set<Consumer>)
    ensures (forall b :: ReachableBy(b, readers) ==> HandledInOrder(b)) <==> |readers| <= 1
  {
    if |readers| <= 1 {
      forall b | ReachableBy(b, readers)
        ensures HandledInOrder(b)
      {
        OneReaderInOrder(b, readers);
      }
    } else {
      var c :| c in readers;
      if forall d :: d in readers ==> d == c {
        SubsetSize(readers, {c});
      }
      var d :| d in readers && d != c;
      HandlersOutOfOrder(Event("", ""), c, d, readers);
    }
  }

  // ---- the bus itself ----

  /** One handler call after another over a consumer's batch. */
  function HandleAll(b: Bus, c: Consumer, outcome: nat -> Outcome, n: nat): Bus
    requires n <= |Batch(b, c)|
    ensures Batch(HandleAll(b, c, outcome, n), c) == Batch(b, c)[n..]
  {
    if n == 0 then b
    else
      var before := HandleAll(b, c, outcome, n - 1);
      HandleNext(before, c, outcome(Batch(b, c)[n - 1].id))
  }

  class Group {
    var bus: Bus

    /** `publish`; the trim's extent is Redis's choice. */
    method PublishEvent(event: Event, kept: nat) returns (id: nat)
      requires MayTrimTo(bus, kept)
      modifies this
      ensures bus == Effect(old(bus), Publish(event, kept)) && id == old(|bus.log|)
    {
      id := |bus.log|;
      bus := bus.(log := bus.log + [event], first := kept);
    }

    /** `subscribe`: one read of new entries, then a handler call for each; `outcome`
        tells how the handler of an entry ends. */
    method Subscribe(c: Consumer, outcome: nat -> Outcome, count: nat)
      requires Batch(bus, c) == [] && count > 0
      modifies this
      ensures var read := Effect(old(bus), Read(c, count));
              bus == HandleAll(read, c, outcome, |Batch(read, c)|)
    {
      bus := ReadNew(bus, c, count);
      ghost var read := bus;
      var entries := Batch(bus, c);
      for n := 0 to |entries|
        invariant bus == HandleAll(read, c, outcome, n)
        invariant Batch(bus, c) == entries[n..]
      {
        var entry := entries[n];
        var result := outcome(entry.id);
        if result.Done? && entry.id in bus.pending {
          bus := bus.(pending := bus.pending - {entry.id}, acked := bus.acked + {entry.id});
        }
        bus := bus.(batches := bus.batches[c := entries[n + 1..]], handled := bus.handled + [Handling(c, entry, result)]);
      }
    }

    /** `ack` */
    method AckById(id: nat)
      modifies this
      ensures bus == Effect(old(bus), Ack(id))
    {
      if id in bus.pending {
        bus := bus.(pending := bus.pending - {id}, acked := bus.acked + {id});
      }
    }
  }
}
