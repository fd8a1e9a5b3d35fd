/** The gateway's message machine: sending, polling, reporting, and routing a
    reported result back to the sender as a new message. */
module Gateway {
  import opened Common

  type AgentId = nat
  type UserId = nat

  datatype Status = Pending | Delivered | Completed

  function Rank(s: Status): nat {
    match s case Pending => 0 case Delivered => 1 case Completed => 2
  }

  /** Conversation ids: the one made of a sender's and a receiver's id, the session a
      pair of agents shares whoever starts it, or any other. An empty id counts as
      absent, as it does in the source. */
  datatype Conversation =
    | AgentPair(sender: AgentId, receiver: AgentId)
    | PairSession(lesser: AgentId, greater: AgentId)
    | OtherId(id: nat)

  function SessionOf(a: AgentId, b: AgentId): Conversation {
    if a <= b then PairSession(a, b) else PairSession(b, a)
  }

  /** A row of `gateway_messages`, numbered by its creation. `origin` is the message
      that a routed reply answers. */
  datatype Message = Message(
    agent: AgentId, sender: Option<AgentId>, user: Option<UserId>, conv: Option<Conversation>,
    content: string, status: Status, result: Option<string>, origin: Option<nat>)

  datatype ChatRow = ChatRow(agent: AgentId, user: UserId, content: string, conv: Conversation)

  /** A background call of a native agent that a send started. */
  datatype Call = Call(source: AgentId, target: AgentId)

  /** A poll between its SELECT and its commit, with the messages it selected. */
  datatype InFlight = InFlight(agent: AgentId, picks: seq<nat>)

  /** `polls` are the polls under way; `owed` are the replies whose report is committed
      and whose own transaction is not; `lost` are the owed replies a crash dropped.
      `locking` says whether the database keeps a written row from other writers until
      the commit. */
  datatype World = World(
    locking: bool, messages: seq<Message>, chat: seq<ChatRow>, calls: seq<Call>, polls: map<nat, InFlight>,
    owed: seq<Message>, lost: seq<Message>)

  datatype Label =
    | FromUser(user: UserId, target: AgentId, conv: Conversation, content: string)
    | FromNative(sender: AgentId, target: AgentId, creator: Option<UserId>, content: string)
    | Send(sender: AgentId, target: AgentId, content: string)
    | SendNative(sender: AgentId, target: AgentId)
    | NativeReply(call: nat, reply: string)
    | NativeFails(call: nat)
    | BeginPoll(poll: nat, poller: AgentId)
    | CommitPoll(poll: nat)
    | FailPoll(poll: nat)
    | Report(reporter: AgentId, message: nat, result: string)
    | Route
    | Crash

  // ---- the steps ----

  function NewMessage(agent: AgentId, sender: AgentId, content: string, conv: Conversation, origin: Option<nat>): Message {
    Message(agent, Some(sender), None, Some(conv), content, Pending, None, origin)
  }

  predicate IsPicked(m: Message, agent: AgentId) {
    m.agent == agent && m.status == Pending
  }

  /** The numbers of the messages a poll hands out, oldest first. */
  function Picks(messages: seq<Message>, agent: AgentId): (r: seq<nat>)
    ensures forall i: nat :: i in r <==> i < |messages| && IsPicked(messages[i], agent)
    ensures forall j, k :: 0 <= j < k < |r| ==> r[j] < r[k]
  {
    if messages == [] then []
    else
      var last := |messages| - 1;
      var picks := Picks(messages[..last], agent);
      assert forall j :: 0 <= j < |picks| ==> picks[j] in picks;
      assert forall i: nat :: i < last ==> messages[..last][i] == messages[i];
      if IsPicked(messages[last], agent) then picks + [last] else picks
  }

  function Deliver(messages: seq<Message>, picks: seq<nat>): (r: seq<Message>)
    ensures |r| == |messages|
    ensures forall i :: 0 <= i < |messages| ==>
              r[i] == if i in picks then messages[i].(status := Delivered) else messages[i]
  {
    seq(|messages|, i requires 0 <= i < |messages| => if i in picks then messages[i].(status := Delivered) else messages[i])
  }

  /** The reply a report owes: to the message's sender, from the reporting agent. */
  function ReplyTo(m: Message, number: nat, result: string): Message
    requires m.sender.Some?
  {
    var conv := match m.conv case Some(c) => c case None => AgentPair(m.sender.value, m.agent);
    NewMessage(m.sender.value, m.agent, result, conv, Some(number))
  }

  predicate Accepts(w: World, reporter: AgentId, number: nat) {
    number < |w.messages| && w.messages[number].agent == reporter
  }

  predicate OwesReply(w: World, reporter: AgentId, number: nat, result: string) {
    Accepts(w, reporter, number) && result != "" && w.messages[number].sender.Some?
  }

  function ChatOf(m: Message, result: string): seq<ChatRow> {
    if result != "" && m.conv.Some? && m.user.Some? then [ChatRow(m.agent, m.user.value, result, m.conv.value)] else []
  }

  function Reported(w: World, reporter: AgentId, number: nat, result: string): World {
    if !Accepts(w, reporter, number) then w
    else
      var m := w.messages[number];
      w.(messages := w.messages[number := m.(status := Completed, result := Some(result))],
         chat := w.chat + ChatOf(m, result),
         owed := if OwesReply(w, reporter, number, result) then w.owed + [ReplyTo(m, number, result)] else w.owed)
  }

  /** A poll under way has written its agent's row, `openclaw_last_seen`, and keeps it
      until it ends. */
  predicate HoldsRow(w: World, agent: AgentId) {
    exists p | p in w.polls :: w.polls[p].agent == agent
  }

  /** Another request of the agent writes that row too, before its own statements or
      with them. */
  predicate RowFree(w: World, agent: AgentId) {
    w.locking ==> !HoldsRow(w, agent)
  }

  predicate Enabled(w: World, l: Label) {
    match l
    case FromUser(_, _, _, _) => true
    case FromNative(_, _, _, _) => true
    case Send(sender, _, _) => RowFree(w, sender)
    case SendNative(sender, _) => RowFree(w, sender)
    case NativeReply(call, _) => call < |w.calls|
    case NativeFails(call) => call < |w.calls|
    case BeginPoll(p, a) => p !in w.polls && RowFree(w, a)
    case CommitPoll(p) => p in w.polls
    case FailPoll(p) => p in w.polls
    case Report(a, n, _) => Accepts(w, a, n) ==> RowFree(w, a)
    case Route => w.owed != []
    case Crash => true
  }

  function Effect(w: World, l: Label): World
    requires Enabled(w, l)
  {
    match l
    case FromUser(u, t, conv, content) =>
      w.(messages := w.messages + [Message(t, None, Some(u), Some(conv), content, Pending, None, None)])
    case FromNative(a, t, creator, content) =>
      w.(messages := w.messages + [Message(t, Some(a), creator, None, content, Pending, None, None)])
    case Send(a, t, content) =>
      w.(messages := w.messages + [NewMessage(t, a, content, AgentPair(a, t), None)])
    case SendNative(a, t) => w.(calls := w.calls + [Call(a, t)])
    case NativeReply(c, reply) =>
      var call := w.calls[c];
      w.(messages := w.messages + [NewMessage(call.source, call.target, reply, SessionOf(call.source, call.target), None)],
         calls := RemoveAt(w.calls, c))
    case NativeFails(c) => w.(calls := RemoveAt(w.calls, c))
    case BeginPoll(p, a) => w.(polls := w.polls[p := InFlight(a, Picks(w.messages, a))])
    case CommitPoll(p) => w.(messages := Deliver(w.messages, w.polls[p].picks), polls := w.polls - {p})
    case FailPoll(p) => w.(polls := w.polls - {p})
    case Report(a, n, result) => Reported(w, a, n, result)
    case Route => w.(messages := w.messages + [w.owed[0]], owed := w.owed[1..])
    case Crash => w.(calls := [], polls := map[], owed := [], lost := w.lost + w.owed)
  }

  // ---- runs ----

  ghost predicate IsStep(a: World, l: Label, b: World) {
    Enabled(a, l) && b == Effect(a, l)
  }

  ghost predicate StepAt(run: seq<World>, labels: seq<Label>, k: nat)
    requires k < |labels| < |run|
  {
    IsStep(run[k], labels[k], run[k + 1])
  }

  ghost predicate IsRun(run: seq<World>, labels: seq<Label>) {
    |run| == |labels| + 1 && forall k: nat :: k < |labels| ==> StepAt(run, labels, k)
  }

  /** The same message: only its status and its result may differ. */
  ghost predicate Same(a: Message, b: Message) {
    b == a.(status := b.status, result := b.result)
  }

  ghost predicate AllSame(a: seq<Message>, b: seq<Message>) {
    |a| <= |b| && forall i :: 0 <= i < |a| ==> Same(a[i], b[i])
  }

  /** No message's status has moved back. */
  ghost predicate Forward(a: seq<Message>, b: seq<Message>) {
    |a| <= |b| && forall i :: 0 <= i < |a| ==> Rank(a[i].status) <= Rank(b[i].status)
  }

  lemma StepKeepsSame(a: World, l: Label, b: World)
    requires IsStep(a, l, b)
    ensures AllSame(a.messages, b.messages)
  {
  }

  /** Along every run a message keeps its agents, its conversation and its content. */
  lemma {:induction false} MessagesKept(run: seq<World>, labels: seq<Label>, j: nat, k: nat)
    requires IsRun(run, labels) && j <= k < |run|
    ensures AllSame(run[j].messages, run[k].messages)
    decreases k
  {
    if j < k {
      MessagesKept(run, labels, j, k - 1);
      assert StepAt(run, labels, k - 1);
      StepKeepsSame(run[k - 1], labels[k - 1], run[k]);
    }
  }

  // ---- polls under way ----

  /** The poll `p` is under way from step `j` to step `k`. */
  ghost predicate UnderWay(run: seq<World>, p: nat, j: nat, k: nat)
    requires k < |run|
  {
    forall m :: j <= m <= k ==> p in run[m].polls
  }

  lemma PollStep(a: World, l: Label, b: World, p: nat)
    requires IsStep(a, l, b) && p in b.polls
    ensures p in a.polls ==> b.polls[p] == a.polls[p]
    ensures p !in a.polls ==> l.BeginPoll? && l.poll == p && b.messages == a.messages
                              && b.polls[p] == InFlight(l.poller, Picks(a.messages, l.poller))
  {
  }

  lemma {:induction false} PollStays(run: seq<World>, labels: seq<Label>, p: nat, j: nat, k: nat)
    requires IsRun(run, labels) && j <= k < |run| && UnderWay(run, p, j, k)
    ensures run[k].polls[p] == run[j].polls[p]
    decreases k
  {
    if j < k {
      PollStays(run, labels, p, j, k - 1);
      assert StepAt(run, labels, k - 1);
      PollStep(run[k - 1], labels[k - 1], run[k], p);
    }
  }

  ghost predicate Owned(messages: seq<Message>, poll: InFlight) {
    forall i: nat :: i in poll.picks ==> i < |messages| && messages[i].agent == poll.agent
  }

  /** What a poll selects is its agent's. */
  ghost predicate PicksOwned(w: World) {
    forall p :: p in w.polls ==> Owned(w.messages, w.polls[p])
  }

  lemma OwnedLater(a: seq<Message>, b: seq<Message>, poll: InFlight)
    requires Owned(a, poll) && AllSame(a, b)
    ensures Owned(b, poll)
  {
    forall i: nat | i in poll.picks
      ensures i < |b| && b[i].agent == poll.agent
    {
      assert Same(a[i], b[i]);
    }
  }

  lemma StepKeepsOwned(a: World, l: Label, b: World)
    requires IsStep(a, l, b) && PicksOwned(a)
    ensures PicksOwned(b)
  {
    StepKeepsSame(a, l, b);
    forall p | p in b.polls
      ensures Owned(b.messages, b.polls[p])
    {
      PollStep(a, l, b, p);
      if p in a.polls {
        OwnedLater(a.messages, b.messages, a.polls[p]);
      }
    }
  }

  lemma {:induction false} RunKeepsOwned(run: seq<World>, labels: seq<Label>, k: nat)
    requires IsRun(run, labels) && run[0].polls == map[] && k < |run|
    ensures PicksOwned(run[k])
    decreases k
  {
    if k > 0 {
      RunKeepsOwned(run, labels, k - 1);
      assert StepAt(run, labels, k - 1);
      StepKeepsOwned(run[k - 1], labels[k - 1], run[k]);
    }
  }

  // ---- when statuses move forward only ----

  /** At step `j` a report completes a message that the poll `p`, under way and committed
      at step `k`, has selected. */
  ghost predicate Overrun(run: seq<World>, labels: seq<Label>, j: nat, k: nat, p: nat)
    requires j <= k < |labels| < |run|
  {
    && labels[k] == CommitPoll(p) && UnderWay(run, p, j, k)
    && labels[j].Report? && Accepts(run[j], labels[j].reporter, labels[j].message)
    && labels[j].message in run[j].polls[p].picks
  }

  ghost predicate SomeOverrun(run: seq<World>, labels: seq<Label>)
    requires |labels| < |run|
  {
    exists j: nat, k: nat, p: nat :: j <= k < |labels| && Overrun(run, labels, j, k, p)
  }

  /** Only the commit of a poll that selected a by now completed message moves back. */
  lemma StepBack(a: World, l: Label, b: World, i: nat)
    requires IsStep(a, l, b) && i < |a.messages| && Rank(b.messages[i].status) < Rank(a.messages[i].status)
    ensures l.CommitPoll? && i in a.polls[l.poll].picks
    ensures a.messages[i].status == Completed || a.messages[i].status == Delivered
    ensures b.messages[i].status == Delivered
  {
  }

  lemma StepCompletes(a: World, l: Label, b: World, i: nat)
    requires IsStep(a, l, b) && i < |b.messages| && b.messages[i].status == Completed
    requires ChainlessNew(a)
    ensures i < |a.messages|
    ensures a.messages[i].status == Completed || (l.Report? && l.message == i && Accepts(a, l.reporter, i))
  {
  }

  /** Replies that are owed are not completed. */
  ghost predicate ChainlessNew(w: World) {
    forall m :: m in w.owed ==> m.status == Pending
  }

  lemma {:induction false} OwedArePending(run: seq<World>, labels: seq<Label>, k: nat)
    requires IsRun(run, labels) && run[0].owed == [] && k < |run|
    ensures ChainlessNew(run[k])
    decreases k
  {
    if k > 0 {
      OwedArePending(run, labels, k - 1);
      assert StepAt(run, labels, k - 1);
    }
  }

  /** A selected message that is completed was reported while its poll was under way. */
  lemma {:induction false} ReportedWhile(run: seq<World>, labels: seq<Label>, k: nat, p: nat, i: nat) returns (j: nat)
    requires IsRun(run, labels) && run[0].polls == map[] && run[0].owed == [] && k < |run|
    requires p in run[k].polls && i in run[k].polls[p].picks
    requires i < |run[k].messages| && run[k].messages[i].status == Completed
    ensures j < k && UnderWay(run, p, j, k) && run[j].polls[p] == run[k].polls[p]
    ensures labels[j].Report? && labels[j].message == i && Accepts(run[j], labels[j].reporter, i)
    decreases k
  {
    assert StepAt(run, labels, k - 1);
    PollStep(run[k - 1], labels[k - 1], run[k], p);
    OwedArePending(run, labels, k - 1);
    StepCompletes(run[k - 1], labels[k - 1], run[k], i);
    if run[k - 1].messages[i].status == Completed {
      j := ReportedWhile(run, labels, k - 1, p, i);
    } else {
      j := k - 1;
    }
  }

  ghost predicate AllForward(run: seq<World>, labels: seq<Label>)
    requires |labels| < |run|
  {
    forall k :: 0 <= k < |labels| ==> Forward(run[k].messages, run[k + 1].messages)
  }

  lemma {:induction false} StaysCompleted(run: seq<World>, labels: seq<Label>, j: nat, k: nat, i: nat)
    requires IsRun(run, labels) && AllForward(run, labels) && j <= k < |run|
    requires i < |run[j].messages| && run[j].messages[i].status == Completed
    ensures i < |run[k].messages| && run[k].messages[i].status == Completed
    decreases k
  {
    if j < k {
      StaysCompleted(run, labels, j, k - 1, i);
      assert Forward(run[k - 1].messages, run[k].messages);
    }
  }

  lemma BackIsOverrun(run: seq<World>, labels: seq<Label>, k: nat, i: nat)
    requires IsRun(run, labels) && run[0].polls == map[] && run[0].owed == [] && k < |labels|
    requires i < |run[k].messages| && i < |run[k + 1].messages|
    requires Rank(run[k + 1].messages[i].status) < Rank(run[k].messages[i].status)
    ensures SomeOverrun(run, labels)
  {
    assert StepAt(run, labels, k);
    StepBack(run[k], labels[k], run[k + 1], i);
    var j := ReportedWhile(run, labels, k, labels[k].poll, i);
    assert Overrun(run, labels, j, k, labels[k].poll);
  }

  lemma ReportCompletes(a: World, l: Label, b: World)
    requires IsStep(a, l, b) && l.Report? && Accepts(a, l.reporter, l.message)
    ensures l.message < |b.messages| && b.messages[l.message].status == Completed
  {
  }

  lemma CommitDelivers(a: World, p: nat, b: World, i: nat)
    requires IsStep(a, CommitPoll(p), b) && i < |a.messages| && i in a.polls[p].picks
    ensures i < |b.messages| && b.messages[i].status == Delivered
  {
  }

  lemma OverrunGoesBack(run: seq<World>, labels: seq<Label>, j: nat, k: nat, p: nat)
    requires IsRun(run, labels) && j <= k < |labels| && Overrun(run, labels, j, k, p)
    ensures !AllForward(run, labels)
  {
    var i := labels[j].message;
    assert StepAt(run, labels, j) && StepAt(run, labels, k);
    ReportCompletes(run[j], labels[j], run[j + 1]);
    PollStays(run, labels, p, j, k);
    MessagesKept(run, labels, j, k);
    CommitDelivers(run[k], p, run[k + 1], i);
    assert j < k;
    if AllForward(run, labels) {
      StaysCompleted(run, labels, j + 1, k, i);
    }
  }

  /** Statuses never move back over a run exactly when no report completes a message
      while a poll that selected it, and commits later, is under way. */
  lemma StatusForwardIff(run: seq<World>, labels: seq<Label>)
    requires IsRun(run, labels) && run[0].polls == map[] && run[0].owed == []
    ensures AllForward(run, labels) <==> !SomeOverrun(run, labels)
  {
    if SomeOverrun(run, labels) {
      var j: nat, k: nat, p: nat :| j <= k < |labels| && Overrun(run, labels, j, k, p);
      OverrunGoesBack(run, labels, j, k, p);
    } else {
      forall k | 0 <= k < |labels|
        ensures Forward(run[k].messages, run[k + 1].messages)
      {
        assert StepAt(run, labels, k);
        StepKeepsSame(run[k], labels[k], run[k + 1]);
        forall i: nat | i < |run[k].messages|
          ensures Rank(run[k].messages[i].status) <= Rank(run[k + 1].messages[i].status)
        {
          if Rank(run[k + 1].messages[i].status) < Rank(run[k].messages[i].status) {
            BackIsOverrun(run, labels, k, i);
          }
        }
      }
    }
  }

  // ---- when a message is handed out once ----

  /** The numbers of the messages handed out by step `l`, if it ends a poll. */
  function HandedOut(w: World, l: Label): seq<nat> {
    if l.CommitPoll? && l.poll in w.polls then w.polls[l.poll].picks else []
  }

  /** Steps `j` and `k` end two polls that selected a message in common, the second of
      them under way when the first ends. */
  ghost predicate Overlap(run: seq<World>, labels: seq<Label>, j: nat, k: nat)
    requires j < k < |labels| < |run|
  {
    && labels[j].CommitPoll? && labels[k].CommitPoll? && labels[j].poll != labels[k].poll
    && UnderWay(run, labels[k].poll, j, k)
    && exists i :: i in HandedOut(run[j], labels[j]) && i in run[j].polls[labels[k].poll].picks
  }

  lemma StaysSelected(a: World, l: Label, b: World, i: nat)
    requires IsStep(a, l, b) && i < |a.messages| && a.messages[i].status != Pending
    ensures i < |b.messages| && b.messages[i].status != Pending
  {
  }

  lemma {:induction false} SelectedStays(run: seq<World>, labels: seq<Label>, j: nat, k: nat, i: nat)
    requires IsRun(run, labels) && j <= k < |run| && i < |run[j].messages| && run[j].messages[i].status != Pending
    ensures i < |run[k].messages| && run[k].messages[i].status != Pending
    decreases k
  {
    if j < k {
      SelectedStays(run, labels, j, k - 1, i);
      assert StepAt(run, labels, k - 1);
      StaysSelected(run[k - 1], labels[k - 1], run[k], i);
    }
  }

  /** A poll that selected a message no longer pending a step ago was under way then. */
  lemma PollWasUnderWay(run: seq<World>, labels: seq<Label>, k: nat, q: nat, i: nat)
    requires IsRun(run, labels) && k < |labels| && q in run[k + 1].polls && i in run[k + 1].polls[q].picks
    requires i < |run[k].messages| && run[k].messages[i].status != Pending
    ensures q in run[k].polls && run[k].polls[q] == run[k + 1].polls[q]
  {
    assert StepAt(run, labels, k);
    PollStep(run[k], labels[k], run[k + 1], q);
  }

  /** A poll that selected a message no longer pending since step `j` was under way then. */
  lemma {:induction false} UnderWaySince(run: seq<World>, labels: seq<Label>, j: nat, k: nat, q: nat, i: nat)
    requires IsRun(run, labels) && j <= k < |run| && q in run[k].polls && i in run[k].polls[q].picks
    requires i < |run[j].messages| && run[j].messages[i].status != Pending
    ensures UnderWay(run, q, j, k)
    decreases k
  {
    if j < k {
      SelectedStays(run, labels, j, k - 1, i);
      PollWasUnderWay(run, labels, k - 1, q, i);
      UnderWaySince(run, labels, j, k - 1, q, i);
    }
  }

  lemma HandedOutIsDelivered(run: seq<World>, labels: seq<Label>, j: nat, i: nat)
    requires IsRun(run, labels) && run[0].polls == map[] && j < |labels| && i in HandedOut(run[j], labels[j])
    ensures i < |run[j].messages| && run[j].messages[i].agent == run[j].polls[labels[j].poll].agent
    ensures i < |run[j + 1].messages| && run[j + 1].messages[i].status == Delivered
  {
    RunKeepsOwned(run, labels, j);
    assert StepAt(run, labels, j);
    assert Owned(run[j].messages, run[j].polls[labels[j].poll]);
  }

  lemma CommitEndsOne(a: World, l: Label, b: World, q: nat)
    requires IsStep(a, l, b) && l.CommitPoll? && q in b.polls
    ensures q in a.polls && q != l.poll
  {
  }

  lemma UnderWayBefore(run: seq<World>, labels: seq<Label>, j: nat, k: nat, q: nat)
    requires IsRun(run, labels) && j < k < |run| && labels[j].CommitPoll? && UnderWay(run, q, j + 1, k)
    ensures UnderWay(run, q, j, k) && q != labels[j].poll
  {
    assert StepAt(run, labels, j);
    CommitEndsOne(run[j], labels[j], run[j + 1], q);
  }

  lemma TwiceIsOverlap(run: seq<World>, labels: seq<Label>, j: nat, k: nat, i: nat)
    requires IsRun(run, labels) && run[0].polls == map[] && j < k < |labels|
    requires i in HandedOut(run[j], labels[j]) && i in HandedOut(run[k], labels[k])
    ensures Overlap(run, labels, j, k) && i in run[j].polls[labels[k].poll].picks
  {
    var q := labels[k].poll;
    HandedOutIsDelivered(run, labels, j, i);
    UnderWaySince(run, labels, j + 1, k, q, i);
    UnderWayBefore(run, labels, j, k, q);
    PollStays(run, labels, q, j, k);
  }

  /** Two steps hand out a message in common exactly when they end overlapping polls
      that both selected it. */
  lemma HandedOutTwiceIff(run: seq<World>, labels: seq<Label>, j: nat, k: nat)
    requires IsRun(run, labels) && run[0].polls == map[] && j < k < |labels|
    ensures (exists i :: i in HandedOut(run[j], labels[j]) && i in HandedOut(run[k], labels[k])) <==> Overlap(run, labels, j, k)
  {
    if i :| i in HandedOut(run[j], labels[j]) && i in HandedOut(run[k], labels[k]) {
      TwiceIsOverlap(run, labels, j, k, i);
    }
    if Overlap(run, labels, j, k) {
      PollStays(run, labels, labels[k].poll, j, k);
    }
  }

  // ---- a database that locks ----

  /** The step is a poll or a report of an agent. */
  predicate IsBy(w: World, l: Label, agent: AgentId) {
    (l.BeginPoll? && l.poller == agent) || (l.Report? && l.reporter == agent && Accepts(w, agent, l.message))
  }

  /** Between the two ends of a poll its agent neither polls nor reports. */
  ghost predicate Separate(run: seq<World>, labels: seq<Label>)
    requires |labels| < |run|
  {
    forall k, p :: 0 <= k < |labels| && p in run[k].polls ==> !IsBy(run[k], labels[k], run[k].polls[p].agent)
  }

  lemma {:induction false} StaysLocking(run: seq<World>, labels: seq<Label>, k: nat)
    requires IsRun(run, labels) && k < |run|
    ensures run[k].locking == run[0].locking
    decreases k
  {
    if k > 0 {
      StaysLocking(run, labels, k - 1);
      assert StepAt(run, labels, k - 1);
    }
  }

  lemma RowKeepsApart(w: World, l: Label, p: nat)
    requires Enabled(w, l) && w.locking && p in w.polls
    ensures !IsBy(w, l, w.polls[p].agent)
  {
    assert HoldsRow(w, w.polls[p].agent);
  }

  /** The row that a poll writes before its SELECT, and a report with its result, keeps
      the requests of one agent apart. */
  lemma LockingSeparates(run: seq<World>, labels: seq<Label>)
    requires IsRun(run, labels) && run[0].locking
    ensures Separate(run, labels)
  {
    forall k, p | 0 <= k < |labels| && p in run[k].polls
      ensures !IsBy(run[k], labels[k], run[k].polls[p].agent)
    {
      StaysLocking(run, labels, k);
      assert StepAt(run, labels, k);
      RowKeepsApart(run[k], labels[k], p);
    }
  }

  ghost predicate OnePerAgent(w: World) {
    forall p, q :: p in w.polls && q in w.polls && p != q ==> w.polls[p].agent != w.polls[q].agent
  }

  lemma {:induction false} SeparateOnePerAgent(run: seq<World>, labels: seq<Label>, k: nat)
    requires IsRun(run, labels) && run[0].polls == map[] && Separate(run, labels) && k < |run|
    ensures OnePerAgent(run[k])
    decreases k
  {
    if k > 0 {
      SeparateOnePerAgent(run, labels, k - 1);
      assert StepAt(run, labels, k - 1);
      forall p, q | p in run[k].polls && q in run[k].polls && p != q
        ensures run[k].polls[p].agent != run[k].polls[q].agent
      {
        PollStep(run[k - 1], labels[k - 1], run[k], p);
        PollStep(run[k - 1], labels[k - 1], run[k], q);
      }
    }
  }

  /** When an agent's polls and reports keep apart, statuses move forward only. */
  lemma SeparateMovesForward(run: seq<World>, labels: seq<Label>)
    requires IsRun(run, labels) && run[0].polls == map[] && run[0].owed == [] && Separate(run, labels)
    ensures AllForward(run, labels)
  {
    forall j: nat, k: nat, p: nat | j <= k < |labels|
      ensures !Overrun(run, labels, j, k, p)
    {
      if Overrun(run, labels, j, k, p) {
        RunKeepsOwned(run, labels, j);
        assert Owned(run[j].messages, run[j].polls[p]);
        assert IsBy(run[j], labels[j], run[j].polls[p].agent);
      }
    }
    StatusForwardIff(run, labels);
  }

  /** And no message is handed out by two polls. */
  lemma SeparateHandsOutOnce(run: seq<World>, labels: seq<Label>, j: nat, k: nat, i: nat)
    requires IsRun(run, labels) && run[0].polls == map[] && Separate(run, labels) && j < k < |labels|
    requires i in HandedOut(run[j], labels[j])
    ensures i !in HandedOut(run[k], labels[k])
  {
    if i in HandedOut(run[k], labels[k]) {
      TwiceIsOverlap(run, labels, j, k, i);
      HandedOutIsDelivered(run, labels, j, i);
      RunKeepsOwned(run, labels, j);
      SeparateOnePerAgent(run, labels, j);
    }
  }

  /** On a database that locks, no run moves a status back. */
  lemma StatusMovesForward(run: seq<World>, labels: seq<Label>)
    requires IsRun(run, labels) && run[0].locking && run[0].polls == map[] && run[0].owed == []
    ensures AllForward(run, labels)
  {
    LockingSeparates(run, labels);
    SeparateMovesForward(run, labels);
  }

  /** And no run hands a message out by two polls. */
  lemma HandedOutOnce(run: seq<World>, labels: seq<Label>, j: nat, k: nat, i: nat)
    requires IsRun(run, labels) && run[0].locking && run[0].polls == map[] && j < k < |labels|
    requires i in HandedOut(run[j], labels[j])
    ensures i !in HandedOut(run[k], labels[k])
  {
    LockingSeparates(run, labels);
    SeparateHandsOutOnce(run, labels, j, k, i);
  }

  // ---- reply chains ----

  /** A routed reply goes from its origin's recipient back to its origin's sender, in
      its origin's conversation. */
  ghost predicate Answers(messages: seq<Message>, m: Message) {
    m.origin.Some? ==>
      m.origin.value < |messages|
      && var o := messages[m.origin.value];
         o.sender.Some? && m.agent == o.sender.value && m.sender == Some(o.agent)
         && m.conv == Some(match o.conv case Some(c) => c case None => AgentPair(o.sender.value, o.agent))
  }

  ghost predicate ChainInv(w: World) {
    && (forall i :: 0 <= i < |w.messages| ==> Answers(w.messages[..i], w.messages[i]))
    && (forall i :: 0 <= i < |w.owed| ==> Answers(w.messages, w.owed[i]))
  }

  /** Any database from before the machine starts: nothing in it is a routed reply,
      nothing is owed. */
  ghost predicate IsInitial(w: World) {
    w.owed == [] && w.lost == [] && w.calls == [] && w.polls == map[] && forall m :: m in w.messages ==> m.origin.None?
  }

  lemma AnswersLater(a: seq<Message>, b: seq<Message>, m: Message)
    requires Answers(a, m) && AllSame(a, b)
    ensures Answers(b, m)
  {
  }

  /** Messages that only changed status or result keep the chain property. */
  lemma ChainInvLater(a: World, b: World)
    requires ChainInv(a) && |a.messages| == |b.messages| && AllSame(a.messages, b.messages)
    ensures forall i :: 0 <= i < |b.messages| ==> Answers(b.messages[..i], b.messages[i])
    ensures forall m :: m in a.owed ==> Answers(b.messages, m)
  {
  }

  /** A message with no origin, or an owed reply, can be appended. */
  lemma ChainInvAppend(a: World, b: World, m: Message)
    requires ChainInv(a) && Answers(a.messages, m) && b.messages == a.messages + [m]
    requires forall x :: x in b.owed ==> x in a.owed
    ensures ChainInv(b)
  {
    forall i | 0 <= i < |b.messages|
      ensures Answers(b.messages[..i], b.messages[i])
    {
      if i < |a.messages| {
        assert b.messages[..i] == a.messages[..i];
      } else {
        assert b.messages[..i] == a.messages;
      }
    }
    forall i | 0 <= i < |b.owed|
      ensures Answers(b.messages, b.owed[i])
    {
      assert b.owed[i] in a.owed;
      AnswersLater(a.messages, b.messages, b.owed[i]);
    }
  }

  lemma StepKeepsChains(a: World, l: Label, b: World)
    requires IsStep(a, l, b) && ChainInv(a)
    ensures ChainInv(b)
  {
    match l
    case FromUser(u, t, conv, content) =>
      ChainInvAppend(a, b, Message(t, None, Some(u), Some(conv), content, Pending, None, None));
    case FromNative(s, t, creator, content) =>
      ChainInvAppend(a, b, Message(t, Some(s), creator, None, content, Pending, None, None));
    case Send(s, t, content) =>
      ChainInvAppend(a, b, NewMessage(t, s, content, AgentPair(s, t), None));
    case SendNative(_, _) =>
    case NativeReply(c, reply) =>
      var call := a.calls[c];
      ChainInvAppend(a, b, NewMessage(call.source, call.target, reply, SessionOf(call.source, call.target), None));
    case NativeFails(_) =>
    case BeginPoll(_, _) =>
    case CommitPoll(_) =>
      ChainInvLater(a, b);
    case FailPoll(_) =>
    case Report(r, n, result) =>
      StepKeepsSame(a, l, b);
      ChainInvLater(a, b);
    case Route =>
      ChainInvAppend(a, b, a.owed[0]);
    case Crash =>
  }

  lemma {:induction false} RunKeepsChains(run: seq<World>, labels: seq<Label>, k: nat)
    requires IsRun(run, labels) && IsInitial(run[0]) && k < |run|
    ensures ChainInv(run[k])
    decreases k
  {
    if k > 0 {
      RunKeepsChains(run, labels, k - 1);
      assert StepAt(run, labels, k - 1);
      StepKeepsChains(run[k - 1], labels[k - 1], run[k]);
    }
  }

  /** `chain` lists messages, each but the first the routed reply to the one before. */
  ghost predicate IsChain(messages: seq<Message>, chain: seq<nat>) {
    && (forall i :: 0 <= i < |chain| ==> chain[i] < |messages|)
    && (forall i :: 0 < i < |chain| ==> messages[chain[i]].origin == Some(chain[i - 1]))
  }

  /** In every chain of routed replies, of any length, the recipient alternates
      between the same two agents and the conversation is the one of the first
      message, or the pair made for its first reply when it had none. */
  lemma {:induction false} ChainAlternates(run: seq<World>, labels: seq<Label>, k: nat, chain: seq<nat>, n: nat)
    requires IsRun(run, labels) && IsInitial(run[0]) && k < |run|
    requires IsChain(run[k].messages, chain) && 0 < n < |chain|
    ensures var root := run[k].messages[chain[0]];
            var m := run[k].messages[chain[n]];
            && root.sender.Some?
            && m.agent == (if n % 2 == 0 then root.agent else root.sender.value)
            && m.sender == Some(if n % 2 == 0 then root.sender.value else root.agent)
            && m.conv == Some(match root.conv case Some(c) => c case None => AgentPair(root.sender.value, root.agent))
    decreases n
  {
    var messages := run[k].messages;
    RunKeepsChains(run, labels, k);
    assert Answers(messages[..chain[n]], messages[chain[n]]);
    assert messages[chain[n]].origin == Some(chain[n - 1]);
    if n > 1 {
      ChainAlternates(run, labels, k, chain, n - 1);
    }
  }

  // ---- how many replies ----

  function RepliesTo(messages: seq<Message>, i: nat): nat {
    if messages == [] then 0
    else RepliesTo(messages[..|messages| - 1], i) + (if messages[|messages| - 1].origin == Some(i) then 1 else 0)
  }

  lemma {:induction false} RepliesConcat(a: seq<Message>, b: seq<Message>, i: nat)
    ensures RepliesTo(a + b, i) == RepliesTo(a, i) + RepliesTo(b, i)
    decreases |b|
  {
    if b == [] {
      assert a + b == a;
    } else {
      assert (a + b)[..|a + b| - 1] == a + b[..|b| - 1];
      RepliesConcat(a, b[..|b| - 1], i);
    }
  }

  lemma {:induction false} RepliesSameOrigins(a: seq<Message>, b: seq<Message>, i: nat)
    requires |a| == |b| && forall k :: 0 <= k < |a| ==> a[k].origin == b[k].origin
    ensures RepliesTo(a, i) == RepliesTo(b, i)
    decreases |a|
  {
    if a != [] {
      RepliesSameOrigins(a[..|a| - 1], b[..|b| - 1], i);
    }
  }

  lemma {:induction false} NoReplies(a: seq<Message>, i: nat)
    requires forall m :: m in a ==> m.origin.None?
    ensures RepliesTo(a, i) == 0
    decreases |a|
  {
    if a != [] {
      NoReplies(a[..|a| - 1], i);
    }
  }

  /** The non-empty reports on the agent-sent message `i` among the first steps. */
  ghost function ReportsOn(run: seq<World>, labels: seq<Label>, i: nat, k: nat): nat
    requires k <= |labels| <= |run|
  {
    if k == 0 then 0
    else ReportsOn(run, labels, i, k - 1) + (if OwedBy(run[k - 1], labels[k - 1], i) then 1 else 0)
  }

  predicate OwedBy(w: World, l: Label, i: nat) {
    l.Report? && l.message == i && OwesReply(w, l.reporter, i, l.result)
  }

  /** The replies to a message: routed, still owed, or dropped by a crash. */
  function Accounted(w: World, i: nat): nat {
    RepliesTo(w.messages, i) + RepliesTo(w.owed, i) + RepliesTo(w.lost, i)
  }

  lemma ReportAccounts(w: World, r: AgentId, n: nat, result: string, i: nat)
    ensures Accounted(Reported(w, r, n, result), i)
         == Accounted(w, i) + (if OwedBy(w, Report(r, n, result), i) then 1 else 0)
  {
    RepliesSameOrigins(w.messages, Reported(w, r, n, result).messages, i);
    if OwesReply(w, r, n, result) {
      RepliesConcat(w.owed, [ReplyTo(w.messages[n], n, result)], i);
    }
  }

  lemma ArrivalAccounts(a: World, b: World, m: Message, i: nat)
    requires b.messages == a.messages + [m] && m.origin.None? && b.owed == a.owed && b.lost == a.lost
    ensures Accounted(b, i) == Accounted(a, i)
  {
    RepliesConcat(a.messages, [m], i);
  }

  lemma RouteAccounts(a: World, b: World, i: nat)
    requires a.owed != [] && b.messages == a.messages + [a.owed[0]] && b.owed == a.owed[1..] && b.lost == a.lost
    ensures Accounted(b, i) == Accounted(a, i)
  {
    RepliesConcat(a.messages, [a.owed[0]], i);
    RepliesConcat([a.owed[0]], a.owed[1..], i);
    assert [a.owed[0]] + a.owed[1..] == a.owed;
  }

  lemma StepAccounts(a: World, l: Label, b: World, i: nat)
    requires IsStep(a, l, b)
    ensures Accounted(b, i) == Accounted(a, i) + (if OwedBy(a, l, i) then 1 else 0)
  {
    if l.Report? {
      ReportAccounts(a, l.reporter, l.message, l.result, i);
    } else if l.Route? {
      RouteAccounts(a, b, i);
    } else if l.CommitPoll? {
      RepliesSameOrigins(a.messages, b.messages, i);
    } else if l.Crash? {
      RepliesConcat(a.lost, a.owed, i);
    } else if |b.messages| > |a.messages| {
      ArrivalAccounts(a, b, b.messages[|a.messages|], i);
    }
  }

  /** Message by message, every non-empty report on an agent-sent message gives one
      reply: routed, still owed, or dropped by a crash. */
  lemma {:induction false} EveryReportReplies(run: seq<World>, labels: seq<Label>, i: nat, k: nat)
    requires IsRun(run, labels) && IsInitial(run[0]) && k <= |labels|
    ensures Accounted(run[k], i) == ReportsOn(run, labels, i, k)
    decreases k
  {
    if k == 0 {
      NoReplies(run[0].messages, i);
    } else {
      EveryReportReplies(run, labels, i, k - 1);
      assert StepAt(run, labels, k - 1);
      StepAccounts(run[k - 1], labels[k - 1], run[k], i);
    }
  }

  lemma {:induction false} NothingLost(run: seq<World>, labels: seq<Label>, k: nat)
    requires IsRun(run, labels) && IsInitial(run[0]) && k < |run|
    requires forall j :: 0 <= j < k ==> labels[j] != Crash
    ensures run[k].lost == []
    decreases k
  {
    if k > 0 {
      NothingLost(run, labels, k - 1);
      assert StepAt(run, labels, k - 1);
      assert labels[k - 1] != Crash;
    }
  }

  /** Without a crash, once every report has finished, the routed replies are as many
      as the non-empty reports on agent-sent messages. */
  lemma RepliesEqualReports(run: seq<World>, labels: seq<Label>, i: nat, k: nat)
    requires IsRun(run, labels) && IsInitial(run[0]) && k <= |labels|
    requires (forall j :: 0 <= j < k ==> labels[j] != Crash) && run[k].owed == []
    ensures RepliesTo(run[k].messages, i) == ReportsOn(run, labels, i, k)
  {
    EveryReportReplies(run, labels, i, k);
    NothingLost(run, labels, k);
  }

  /** A report is accepted whatever the status, so the same message can be answered
      twice. */
  lemma RepeatedReportsRepeat(w: World, n: nat)
    requires n < |w.messages| && w.messages[n].sender.Some?
    ensures var r := w.messages[n].agent;
            RepliesTo(Reported(Reported(w, r, n, "x"), r, n, "x").owed, n) == RepliesTo(w.owed, n) + 2
  {
  }

  /** Two polls of one agent overlap, and a report falls between. */
  function OverlapLabels(agent: AgentId, n: nat, result: string): seq<Label> {
    [BeginPoll(0, agent), BeginPoll(1, agent), CommitPoll(0), Report(agent, n, result), CommitPoll(1)]
  }

  /** The two SELECTs of such a run. */
  lemma OverlapBegin(w: World, n: nat) returns (w1: World, w2: World, poll: InFlight)
    requires !w.locking && n < |w.messages| && w.messages[n].status == Pending && w.polls == map[]
    ensures poll.agent == w.messages[n].agent && n in poll.picks
    ensures IsStep(w, BeginPoll(0, poll.agent), w1) && IsStep(w1, BeginPoll(1, poll.agent), w2)
    ensures !w2.locking && w2.messages == w.messages && w2.polls == map[0 := poll, 1 := poll]
  {
    var a := w.messages[n].agent;
    assert IsPicked(w.messages[n], a);
    poll := InFlight(a, Picks(w.messages, a));
    w1 := w.(polls := map[0 := poll]);
    w2 := w.(polls := map[0 := poll, 1 := poll]);
  }

  /** Its first commit and its report. */
  lemma OverlapMiddle(w: World, poll: InFlight, n: nat, result: string) returns (w3: World, w4: World)
    requires !w.locking && n < |w.messages| && w.messages[n].agent == poll.agent && n in poll.picks
    requires w.polls == map[0 := poll, 1 := poll]
    ensures IsStep(w, CommitPoll(0), w3) && IsStep(w3, Report(poll.agent, n, result), w4)
    ensures n < |w4.messages| && w4.messages[n].status == Completed && w4.polls == map[1 := poll]
  {
    w3 := w.(messages := Deliver(w.messages, poll.picks), polls := map[1 := poll]);
    assert w.polls - {0} == map[1 := poll];
    w4 := Reported(w3, poll.agent, n, result);
  }

  /** Its last commit. */
  lemma OverlapEnd(w: World, poll: InFlight, n: nat) returns (w5: World)
    requires n < |w.messages| && n in poll.picks && w.polls == map[1 := poll]
    ensures IsStep(w, CommitPoll(1), w5) && n < |w5.messages| && w5.messages[n].status == Delivered
  {
    w5 := w.(messages := Deliver(w.messages, poll.picks), polls := w.polls - {1});
  }

  lemma RunOfFive(w0: World, l0: Label, w1: World, l1: Label, w2: World, l2: Label, w3: World, l3: Label, w4: World,
                  l4: Label, w5: World)
    requires IsStep(w0, l0, w1) && IsStep(w1, l1, w2) && IsStep(w2, l2, w3) && IsStep(w3, l3, w4) && IsStep(w4, l4, w5)
    ensures IsRun([w0, w1, w2, w3, w4, w5], [l0, l1, l2, l3, l4])
  {
    var run, labels := [w0, w1, w2, w3, w4, w5], [l0, l1, l2, l3, l4];
    forall k: nat | k < |labels|
      ensures StepAt(run, labels, k)
    {
      assert k == 0 || k == 1 || k == 2 || k == 3 || k == 4;
    }
  }

  /** From any database with a pending message, if it does not lock, the same message can be handed out by
      two polls, and the later commit moves it from completed back to delivered. */
  lemma OverlappingPolls(w: World, n: nat, result: string) returns (w1: World, w2: World, w3: World, w4: World, w5: World)
    requires !w.locking && n < |w.messages| && w.messages[n].status == Pending && w.polls == map[]
    ensures IsRun([w, w1, w2, w3, w4, w5], OverlapLabels(w.messages[n].agent, n, result))
    ensures n in HandedOut(w2, CommitPoll(0)) && n in HandedOut(w4, CommitPoll(1))
    ensures n < |w4.messages| && w4.messages[n].status == Completed
    ensures n < |w5.messages| && w5.messages[n].status == Delivered
  {
    var poll;
    w1, w2, poll := OverlapBegin(w, n);
    w3, w4 := OverlapMiddle(w2, poll, n, result);
    w5 := OverlapEnd(w4, poll, n);
    var a := poll.agent;
    RunOfFive(w, BeginPoll(0, a), w1, BeginPoll(1, a), w2, CommitPoll(0), w3, Report(a, n, result), w4, CommitPoll(1), w5);
  }

  // ---- what the lock is for ----

  ghost predicate AlwaysForward(w: World) {
    forall run: seq<World>, labels: seq<Label> :: IsRun(run, labels) && run[0] == w ==> AllForward(run, labels)
  }

  ghost predicate HandsOutTwice(run: seq<World>, labels: seq<Label>, j: nat, k: nat)
    requires j < k < |labels| < |run|
  {
    exists i :: i in HandedOut(run[j], labels[j]) && i in HandedOut(run[k], labels[k])
  }

  ghost predicate NeverTwice(w: World) {
    forall run: seq<World>, labels: seq<Label>, j: nat, k: nat ::
      IsRun(run, labels) && run[0] == w && j < k < |labels| ==> !HandsOutTwice(run, labels, j, k)
  }

  lemma RunFrom(w: World, l: Label, run: seq<World>, labels: seq<Label>)
    requires IsRun(run, labels) && IsStep(w, l, run[0])
    ensures IsRun([w] + run, [l] + labels)
  {
    var run', labels' := [w] + run, [l] + labels;
    forall k: nat | k < |labels'|
      ensures StepAt(run', labels', k)
    {
      assert k > 0 ==> StepAt(run, labels, k - 1);
    }
  }

  /** Without the lock, from any database at rest, a message arrives and goes wrong. */
  lemma UnlockedGoesWrong(w: World) returns (run: seq<World>, labels: seq<Label>)
    requires !w.locking && w.polls == map[]
    ensures IsRun(run, labels) && run[0] == w && |labels| == 6
    ensures HandsOutTwice(run, labels, 3, 5) && !Forward(run[5].messages, run[6].messages)
  {
    var arrival := FromUser(0, 0, OtherId(0), "");
    var n, w0 := |w.messages|, Effect(w, arrival);
    var w1, w2, w3, w4, w5 := OverlappingPolls(w0, n, "");
    run, labels := [w0, w1, w2, w3, w4, w5], OverlapLabels(0, n, "");
    RunFrom(w, arrival, run, labels);
    run, labels := [w] + run, [arrival] + labels;
    assert run[3] == w2 && labels[3] == CommitPoll(0) && run[5] == w4 && labels[5] == CommitPoll(1) && run[6] == w5;
    assert n in HandedOut(run[3], labels[3]) && n in HandedOut(run[5], labels[5]);
  }

  /** From a database at rest, statuses move forward only in every run, and no run hands
      out a message twice, exactly when the database locks. */
  lemma LockingDecides(w: World)
    requires w.polls == map[] && w.owed == []
    ensures AlwaysForward(w) <==> w.locking
    ensures NeverTwice(w) <==> w.locking
  {
    if w.locking {
      forall run: seq<World>, labels: seq<Label> | IsRun(run, labels) && run[0] == w
        ensures AllForward(run, labels)
      {
        StatusMovesForward(run, labels);
      }
      forall run: seq<World>, labels: seq<Label>, j: nat, k: nat | IsRun(run, labels) && run[0] == w && j < k < |labels|
        ensures !HandsOutTwice(run, labels, j, k)
      {
        forall i | i in HandedOut(run[j], labels[j])
          ensures i !in HandedOut(run[k], labels[k])
        {
          HandedOutOnce(run, labels, j, k, i);
        }
      }
    } else {
      var run, labels := UnlockedGoesWrong(w);
      assert !AllForward(run, labels);
    }
  }

  lemma DeliverOneMore(messages: seq<Message>, picks: seq<nat>, k: nat)
    requires k < |picks| && picks[k] < |messages|
    ensures var before := Deliver(messages, picks[..k]);
            Deliver(messages, picks[..k + 1]) == before[picks[k] := before[picks[k]].(status := Delivered)]
  {
  }

  // ---- the gateway itself ----

  class Service {
    var messages: seq<Message>
    var chat: seq<ChatRow>
    var calls: seq<Call>
    var polls: map<nat, InFlight>
    var owed: seq<Message>
    ghost var lost: seq<Message>
    ghost var locking: bool

    ghost function AsWorld(): World
      reads this
    {
      World(locking, messages, chat, calls, polls, owed, lost)
    }

    /** `poll_messages` up to its SELECT, as the poll number `poll`. */
    method SelectPending(poll: nat, agent: AgentId)
      requires Enabled(AsWorld(), BeginPoll(poll, agent))
      modifies this
      ensures AsWorld() == Effect(old(AsWorld()), BeginPoll(poll, agent))
    {
      polls := polls[poll := InFlight(agent, Picks(messages, agent))];
    }

    /** The rest of `poll_messages`: mark and hand out what was selected, and commit. */
    method PollMessages(poll: nat) returns (out: seq<Message>)
      requires poll in polls && forall i :: i in polls[poll].picks ==> i < |messages|
      modifies this
      ensures AsWorld() == Effect(old(AsWorld()), CommitPoll(poll))
      ensures var picks := old(polls[poll].picks);
              |out| == |picks| && forall k :: 0 <= k < |out| ==> picks[k] < |messages| && out[k] == messages[picks[k]]
    {
      out := MarkDelivered(polls[poll].picks);
      polls := polls - {poll};
    }

    /** The loop over the selected messages. */
    method MarkDelivered(pending: seq<nat>) returns (out: seq<Message>)
      requires forall i :: i in pending ==> i < |messages|
      modifies this`messages
      ensures messages == Deliver(old(messages), pending)
      ensures |out| == |pending| && forall k :: 0 <= k < |out| ==> pending[k] < |messages| && out[k] == messages[pending[k]]
    {
      ghost var before := messages;
      out := [];
      for k := 0 to |pending|
        invariant messages == Deliver(before, pending[..k])
        invariant |out| == k
        invariant forall j :: 0 <= j < k ==> pending[j] < |messages| && out[j] == messages[pending[j]]
      {
        var number := pending[k];
        assert number in pending;
        DeliverOneMore(before, pending, k);
        messages := messages[number := messages[number].(status := Delivered)];
        out := out + [messages[number]];
      }
      assert pending[..|pending|] == pending;
    }

    /** `send_message` to an OpenClaw agent, or to a native one. */
    method SendMessage(agent: AgentId, target: AgentId, isOpenClaw: bool, content: string)
      requires RowFree(AsWorld(), agent)
      modifies this
      ensures AsWorld() == Effect(old(AsWorld()), if isOpenClaw then Send(agent, target, content) else SendNative(agent, target))
    {
      if isOpenClaw {
        messages := messages + [NewMessage(target, agent, content, AgentPair(agent, target), None)];
      } else {
        calls := calls + [Call(agent, target)];
      }
    }

    /** `report_result` up to its own commit; `false` is the 404 answer. */
    method ReportResult(agent: AgentId, number: nat, result: string) returns (found: bool)
      requires Enabled(AsWorld(), Report(agent, number, result))
      modifies this
      ensures found == Accepts(old(AsWorld()), agent, number)
      ensures AsWorld() == Effect(old(AsWorld()), Report(agent, number, result))
    {
      if number >= |messages| || messages[number].agent != agent {
        return false;
      }
      var msg := messages[number];
      messages := messages[number := msg.(status := Completed, result := Some(result))];
      if result != "" && msg.conv.Some? && msg.user.Some? {
        chat := chat + [ChatRow(agent, msg.user.value, result, msg.conv.value)];
      }
      if result != "" && msg.sender.Some? {
        var conv := if msg.conv.Some? then msg.conv.value else AgentPair(msg.sender.value, agent);
        owed := owed + [NewMessage(msg.sender.value, agent, result, conv, Some(number))];
      }
      return true;
    }

    /** The reply's own session at the end of `report_result`. */
    method RouteReply()
      requires owed != []
      modifies this
      ensures AsWorld() == Effect(old(AsWorld()), Route)
    {
      messages := messages + [owed[0]];
      owed := owed[1..];
    }

    /** The end of `_send_to_agent_background`. */
    method FinishCall(call: nat, reply: Option<string>)
      requires call < |calls|
      modifies this
      ensures AsWorld() == Effect(old(AsWorld()), match reply case Some(r) => NativeReply(call, r) case None => NativeFails(call))
    {
      var c := calls[call];
      calls := RemoveAt(calls, call);
      if reply.Some? {
        messages := messages + [NewMessage(c.source, c.target, reply.value, SessionOf(c.source, c.target), None)];
      }
    }
  }
}
