/** Where every row of the gateway comes from and what it says. */
module GatewayContents {
  import opened Common
  import opened Gateway

  // ---- one session for a pair of agents ----

  lemma OneSessionPerPair(a: AgentId, b: AgentId, c: AgentId, d: AgentId)
    ensures SessionOf(a, b) == SessionOf(c, d) <==> (a == c && b == d) || (a == d && b == c)
    ensures !SessionOf(a, b).AgentPair? && !SessionOf(a, b).OtherId?
  {
  }

  // ---- what can always happen ----

  /** Users and native agents can write and the worker can crash at any time, a call in
      progress can end either way, a poll can commit or fail, and an owed reply can be
      routed; an agent's own requests wait for its row. */
  lemma CanHappen(w: World, l: Label)
    ensures l.FromUser? || l.FromNative? || l.Crash? ==> Enabled(w, l)
    ensures l.NativeReply? || l.NativeFails? ==> (Enabled(w, l) <==> l.call < |w.calls|)
    ensures l.CommitPoll? || l.FailPoll? ==> (Enabled(w, l) <==> l.poll in w.polls)
    ensures l.Route? ==> (Enabled(w, l) <==> w.owed != [])
    ensures l.Send? || l.SendNative? ==>
              (Enabled(w, l) <==> !w.locking || forall p | p in w.polls :: w.polls[p].agent != l.sender)
    ensures l.BeginPoll? ==>
              (Enabled(w, l) <==> l.poll !in w.polls && (!w.locking || forall p | p in w.polls :: w.polls[p].agent != l.poller))
    ensures l.Report? ==>
              (Enabled(w, l) <==>
               || !w.locking || l.message >= |w.messages| || w.messages[l.message].agent != l.reporter
               || forall p | p in w.polls :: w.polls[p].agent != l.reporter)
  {
  }

  // ---- what one step adds ----

  /** The row `m`, new and pending, is what `l` says: its recipient, its sender, its
      conversation and its text. */
  ghost predicate Says(w: World, l: Label, m: Message) {
    && m.status == Pending && m.result.None? && m.origin.None?
    && match l
       case FromUser(user, target, conv, content) =>
         m.agent == target && m.sender.None? && m.user == Some(user) && m.conv == Some(conv) && m.content == content
       case FromNative(sender, target, creator, content) =>
         m.agent == target && m.sender == Some(sender) && m.user == creator && m.conv.None? && m.content == content
       case Send(sender, target, content) =>
         && m.agent == target && m.sender == Some(sender) && m.user.None? && m.content == content
         && m.conv == Some(AgentPair(sender, target))
       case NativeReply(call, reply) =>
         && call < |w.calls| && m.agent == w.calls[call].source && m.sender == Some(w.calls[call].target) && m.user.None?
         && m.content == reply && m.conv == Some(SessionOf(w.calls[call].source, w.calls[call].target))
       case _ => false
  }

  /** The row `m` answers the message `n` of `w` with what `reporter` reported on it. */
  ghost predicate SaysReport(w: World, reporter: AgentId, n: nat, result: string, m: Message) {
    && n < |w.messages| && w.messages[n].agent == reporter && w.messages[n].sender.Some? && result != ""
    && m.agent == w.messages[n].sender.value && m.sender == Some(reporter) && m.user.None? && m.content == result
    && m.conv == Some(match w.messages[n].conv case Some(conv) => conv case None => AgentPair(m.agent, reporter))
    && m.status == Pending && m.result.None? && m.origin == Some(n)
  }

  /** Only arrivals and routed replies add a message, one at a time, at the end. */
  lemma StepAddsMessage(a: World, l: Label, b: World)
    requires IsStep(a, l, b)
    ensures if l.FromUser? || l.FromNative? || l.Send? || l.NativeReply? then
              |b.messages| == |a.messages| + 1 && Says(a, l, b.messages[|a.messages|])
            else if l.Route? then a.owed != [] && b.messages == a.messages + [a.owed[0]]
            else |b.messages| == |a.messages|
  {
  }

  /** Only a report with a text, on a message that an agent sent, owes a reply. */
  lemma StepOwes(a: World, l: Label, b: World)
    requires IsStep(a, l, b)
    ensures match l
            case Report(reporter, n, result) =>
              if n < |a.messages| && a.messages[n].agent == reporter && a.messages[n].sender.Some? && result != "" then
                |b.owed| == |a.owed| + 1 && b.owed[..|a.owed|] == a.owed && SaysReport(a, reporter, n, result, b.owed[|a.owed|])
              else b.owed == a.owed
            case Route => a.owed != [] && b.owed == a.owed[1..]
            case Crash => b.owed == []
            case _ => b.owed == a.owed
    ensures b.lost == if l.Crash? then a.lost + a.owed else a.lost
  {
  }

  /** A report of the message's own agent completes it with the reported text and changes
      no other message; any other report changes nothing. */
  lemma ReportStores(a: World, reporter: AgentId, n: nat, result: string, b: World)
    requires IsStep(a, Report(reporter, n, result), b)
    ensures if n < |a.messages| && a.messages[n].agent == reporter then
              && |b.messages| == |a.messages| && Same(a.messages[n], b.messages[n])
              && b.messages[n].status == Completed && b.messages[n].result == Some(result)
              && (forall i | 0 <= i < |a.messages| && i != n :: b.messages[i] == a.messages[i])
              && b.calls == a.calls && b.polls == a.polls
            else b == a
  {
  }

  /** Only a report adds to the chat: its text, from its agent, to the user and in the
      conversation of the message, if the message has both. */
  lemma StepChats(a: World, l: Label, b: World)
    requires IsStep(a, l, b)
    ensures if l.Report? && l.message < |a.messages| && a.messages[l.message].agent == l.reporter
               && a.messages[l.message].conv.Some? && a.messages[l.message].user.Some? && l.result != ""
            then
              && |b.chat| == |a.chat| + 1 && b.chat[..|a.chat|] == a.chat
              && var row, m := b.chat[|a.chat|], a.messages[l.message];
                 row.agent == l.reporter && Some(row.user) == m.user && row.content == l.result && Some(row.conv) == m.conv
            else b.chat == a.chat
  {
  }

  /** A send to a native agent starts a call for that pair; its end, or a crash, removes it. */
  lemma StepCalls(a: World, l: Label, b: World)
    requires IsStep(a, l, b)
    ensures match l
            case SendNative(sender, target) =>
              && |b.calls| == |a.calls| + 1 && b.calls[..|a.calls|] == a.calls
              && b.calls[|a.calls|].source == sender && b.calls[|a.calls|].target == target
            case NativeReply(c, _) => c < |a.calls| && b.calls == a.calls[..c] + a.calls[c + 1..]
            case NativeFails(c) => c < |a.calls| && b.calls == a.calls[..c] + a.calls[c + 1..]
            case Crash => b.calls == []
            case _ => b.calls == a.calls
  {
  }

  /** A poll begins with all that its agent has pending, in order, and ends with its commit, its
      failure or a crash; only the commit marks messages, and exactly those it selected. */
  lemma StepPolls(a: World, l: Label, b: World)
    requires IsStep(a, l, b)
    ensures match l
            case BeginPoll(p, agent) =>
              && b.polls.Keys == a.polls.Keys + {p} && b.polls[p].agent == agent && b.messages == a.messages
              && (forall i: nat :: i in b.polls[p].picks <==>
                    i < |a.messages| && a.messages[i].agent == agent && a.messages[i].status == Pending)
              && (forall j, k | 0 <= j < k < |b.polls[p].picks| :: b.polls[p].picks[j] < b.polls[p].picks[k])
            case CommitPoll(p) =>
              && p in a.polls && b.polls == a.polls - {p} && |b.messages| == |a.messages|
              && (forall i: nat | i < |a.messages| ::
                    b.messages[i] == if i in a.polls[p].picks then a.messages[i].(status := Delivered) else a.messages[i])
            case FailPoll(p) => p in a.polls && b.polls == a.polls - {p} && b.messages == a.messages
            case Crash => b.polls == map[] && b.messages == a.messages
            case _ => b.polls == a.polls
  {
  }

  // ---- over whole runs ----

  /** Step `j` of the run reported what `m` says. */
  ghost predicate ReportedAt(run: seq<World>, labels: seq<Label>, j: nat, m: Message)
    requires j < |labels| < |run|
  {
    labels[j].Report? && SaysReport(run[j], labels[j].reporter, labels[j].message, labels[j].result, m)
  }

  ghost predicate WasReported(run: seq<World>, labels: seq<Label>, k: nat, m: Message)
    requires k <= |labels| < |run|
  {
    exists j | 0 <= j < k :: ReportedAt(run, labels, j, m)
  }

  /** Every reply that is still owed, or was lost in a crash, says what was reported. */
  lemma {:induction false} OwedWereReported(run: seq<World>, labels: seq<Label>, k: nat, m: Message)
    requires IsRun(run, labels) && IsInitial(run[0]) && k <= |labels| && (m in run[k].owed || m in run[k].lost)
    ensures WasReported(run, labels, k, m)
    decreases k
  {
    if k > 0 {
      assert StepAt(run, labels, k - 1);
      StepOwes(run[k - 1], labels[k - 1], run[k]);
      if m in run[k - 1].owed || m in run[k - 1].lost {
        OwedWereReported(run, labels, k - 1, m);
        var j :| 0 <= j < k - 1 && ReportedAt(run, labels, j, m);
      } else {
        assert m == run[k].owed[|run[k - 1].owed|];
        assert ReportedAt(run, labels, k - 1, m);
      }
    }
  }

  /** The message `m` is the row that step `j` brought in. */
  ghost predicate BroughtAt(run: seq<World>, labels: seq<Label>, j: nat, m: Message)
    requires j < |labels| < |run|
  {
    Says(run[j], labels[j], m.(status := Pending, result := None))
  }

  ghost predicate WasBrought(run: seq<World>, labels: seq<Label>, k: nat, m: Message)
    requires k <= |labels| < |run|
  {
    exists j | 0 <= j < k :: BroughtAt(run, labels, j, m)
  }

  /** Every message was there from the start, arrived as its step says, or is a reply that
      says what was reported: its own text, recipient, sender and conversation. */
  ghost predicate HasCause(run: seq<World>, labels: seq<Label>, k: nat, i: nat)
    requires k <= |labels| < |run| && i < |run[k].messages|
  {
    var m := run[k].messages[i];
    || (i < |run[0].messages| && Same(run[0].messages[i], m))
    || (m.origin.None? && WasBrought(run, labels, k, m))
    || (m.origin.Some? && WasReported(run, labels, k, m.(status := Pending, result := None)))
  }

  lemma CauseLater(run: seq<World>, labels: seq<Label>, k: nat, i: nat)
    requires IsRun(run, labels) && k < |labels| && i < |run[k].messages| && HasCause(run, labels, k, i)
    requires i < |run[k + 1].messages| && Same(run[k].messages[i], run[k + 1].messages[i])
    ensures HasCause(run, labels, k + 1, i)
  {
    var m, m' := run[k].messages[i], run[k + 1].messages[i];
    assert m'.(status := Pending, result := None) == m.(status := Pending, result := None);
    if m.origin.None? && WasBrought(run, labels, k, m) {
      var j :| 0 <= j < k && BroughtAt(run, labels, j, m);
      assert BroughtAt(run, labels, j, m');
    } else if m.origin.Some? && WasReported(run, labels, k, m.(status := Pending, result := None)) {
      var j :| 0 <= j < k && ReportedAt(run, labels, j, m.(status := Pending, result := None));
      assert ReportedAt(run, labels, j, m'.(status := Pending, result := None));
    }
  }

  lemma NewHasCause(run: seq<World>, labels: seq<Label>, k: nat, i: nat)
    requires IsRun(run, labels) && IsInitial(run[0]) && k < |labels| && |run[k].messages| <= i < |run[k + 1].messages|
    ensures HasCause(run, labels, k + 1, i)
  {
    var l, m := labels[k], run[k + 1].messages[i];
    assert StepAt(run, labels, k);
    StepAddsMessage(run[k], l, run[k + 1]);
    if l.Route? {
      assert m == run[k].owed[0] && m in run[k].owed;
      OwedWereReported(run, labels, k, m);
      var j :| 0 <= j < k && ReportedAt(run, labels, j, m);
      assert m.(status := Pending, result := None) == m;
      assert ReportedAt(run, labels, j, m.(status := Pending, result := None));
    } else {
      assert BroughtAt(run, labels, k, m);
    }
  }

  /** No message says anything its sender did not: over every run each one has a cause. */
  lemma {:induction false} EveryMessageHasCause(run: seq<World>, labels: seq<Label>, k: nat, i: nat)
    requires IsRun(run, labels) && IsInitial(run[0]) && k <= |labels| && i < |run[k].messages|
    ensures HasCause(run, labels, k, i)
    decreases k
  {
    if k > 0 {
      if i < |run[k - 1].messages| {
        EveryMessageHasCause(run, labels, k - 1, i);
        assert StepAt(run, labels, k - 1);
        StepKeepsSame(run[k - 1], labels[k - 1], run[k]);
        CauseLater(run, labels, k - 1, i);
      } else {
        NewHasCause(run, labels, k - 1, i);
      }
    }
  }

  /** A routed reply, in the table or still owed, says what its recipient's message was
      reported with, and is never empty. */
  lemma RepliesSayReports(run: seq<World>, labels: seq<Label>, k: nat, m: Message, n: nat) returns (j: nat)
    requires IsRun(run, labels) && IsInitial(run[0]) && k <= |labels|
    requires (m in run[k].messages || m in run[k].owed || m in run[k].lost) && m.origin == Some(n)
    ensures j < k && labels[j].Report? && labels[j].message == n && labels[j].result == m.content != ""
    ensures n < |run[j].messages| && run[j].messages[n].agent == labels[j].reporter
    ensures m.sender == Some(labels[j].reporter) && run[j].messages[n].sender == Some(m.agent)
  {
    if m in run[k].owed || m in run[k].lost {
      OwedWereReported(run, labels, k, m);
      j :| 0 <= j < k && ReportedAt(run, labels, j, m);
    } else {
      var i: nat :| i < |run[k].messages| && run[k].messages[i] == m;
      EveryMessageHasCause(run, labels, k, i);
      assert i < |run[0].messages| ==> run[0].messages[i] in run[0].messages;
      j :| 0 <= j < k && ReportedAt(run, labels, j, m.(status := Pending, result := None));
    }
  }

  /** Every call in progress was started by a send of its own pair. */
  lemma {:induction false} CallsWereSent(run: seq<World>, labels: seq<Label>, k: nat, c: Call) returns (j: nat)
    requires IsRun(run, labels) && IsInitial(run[0]) && k <= |labels| && c in run[k].calls
    ensures j < k && labels[j] == SendNative(c.source, c.target)
    decreases k
  {
    assert StepAt(run, labels, k - 1);
    StepCalls(run[k - 1], labels[k - 1], run[k]);
    if c in run[k - 1].calls {
      j := CallsWereSent(run, labels, k - 1, c);
    } else {
      assert c == run[k].calls[|run[k - 1].calls|];
      j := k - 1;
    }
  }
}
