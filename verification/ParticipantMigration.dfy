/** The migration of agent-to-agent messages into one chat session per pair of agents. */
module ParticipantMigration {
  import opened Common

  type AgentId = nat
  datatype Kind = Agent | Human

  /** A row of the old `messages` table, with its primary key. */
  datatype Message = Message(id: nat, senderKind: Kind, sender: AgentId, receiverKind: Kind, receiver: AgentId,
                             content: string, at: int)
  datatype Pair = Pair(lesser: AgentId, greater: AgentId)
  datatype Role = Assistant | User

  /** A row of `chat_sessions`; its id is its position in the table. */
  datatype Session = Session(owner: AgentId, peer: AgentId, user: nat, participant: Option<nat>, createdAt: int, lastAt: int)

  /** A row of `chat_messages`. `copyOf` is the migrated message, which the table does
      not keep: its own key is a new one. */
  datatype ChatRow = ChatRow(copyOf: nat, agent: AgentId, user: nat, role: Role, content: string, session: nat,
                             participant: Option<nat>, at: int)

  /** The agents' creators and the participants of agents, by agent. */
  datatype Lookup = Lookup(creators: map<AgentId, nat>, participants: map<AgentId, nat>)

  function UserOf(look: Lookup, a: AgentId): nat {
    if a in look.creators then look.creators[a] else a
  }

  function ParticipantOf(look: Lookup, a: AgentId): Option<nat> {
    if a in look.participants then Some(look.participants[a]) else None
  }

  // ---- the queries ----

  predicate BetweenAgents(m: Message) {
    m.senderKind == Agent && m.receiverKind == Agent
  }

  function PairOf(m: Message): Pair {
    if m.sender <= m.receiver then Pair(m.sender, m.receiver) else Pair(m.receiver, m.sender)
  }

  /** `SELECT DISTINCT LEAST(…), GREATEST(…)` */
  function PairsOf(messages: seq<Message>): seq<Pair> {
    if messages == [] then []
    else
      var pairs := PairsOf(messages[..|messages| - 1]);
      var m := messages[|messages| - 1];
      if BetweenAgents(m) && PairOf(m) !in pairs then pairs + [PairOf(m)] else pairs
  }

  /** The queries' condition on the two ids, in either order. */
  predicate Matches(p: Pair, m: Message) {
    BetweenAgents(m) && ((m.sender == p.lesser && m.receiver == p.greater) || (m.sender == p.greater && m.receiver == p.lesser))
  }

  function Matching(p: Pair, messages: seq<Message>): seq<Message> {
    if messages == [] then []
    else Matching(p, messages[..|messages| - 1]) + (if Matches(p, messages[|messages| - 1]) then [messages[|messages| - 1]] else [])
  }

  function Insert(m: Message, sorted: seq<Message>): (r: seq<Message>)
    ensures |r| == |sorted| + 1
  {
    if sorted == [] || sorted[|sorted| - 1].at <= m.at then sorted + [m]
    else Insert(m, sorted[..|sorted| - 1]) + [sorted[|sorted| - 1]]
  }

  /** `ORDER BY created_at`, equal times in table order. */
  function ByTime(messages: seq<Message>): (r: seq<Message>)
    ensures |r| == |messages|
  {
    if messages == [] then [] else Insert(messages[|messages| - 1], ByTime(messages[..|messages| - 1]))
  }

  /** `MIN(created_at)` */
  function Earliest(messages: seq<Message>): int
    requires messages != []
  {
    var m := messages[|messages| - 1].at;
    if |messages| == 1 then m
    else
      var rest := Earliest(messages[..|messages| - 1]);
      if m < rest then m else rest
  }

  /** `MAX(created_at)` */
  function Latest(messages: seq<Message>): int
    requires messages != []
  {
    var m := messages[|messages| - 1].at;
    if |messages| == 1 then m
    else
      var rest := Latest(messages[..|messages| - 1]);
      if m > rest then m else rest
  }

  // ---- what is inserted ----

  function SessionFor(look: Lookup, messages: seq<Message>, p: Pair): Session
    requires Matching(p, messages) != []
  {
    Session(p.lesser, p.greater, UserOf(look, p.lesser), ParticipantOf(look, p.lesser),
            Earliest(Matching(p, messages)), Latest(Matching(p, messages)))
  }

  function RowFor(look: Lookup, m: Message, p: Pair, session: nat): ChatRow {
    ChatRow(m.id, p.lesser, UserOf(look, p.lesser), if m.sender == p.lesser then Assistant else User,
            m.content, session, ParticipantOf(look, m.sender), m.at)
  }

  function RowsFor(look: Lookup, ms: seq<Message>, p: Pair, session: nat): (r: seq<ChatRow>)
    ensures |r| == |ms| && forall k :: 0 <= k < |ms| ==> r[k] == RowFor(look, ms[k], p, session)
  {
    seq(|ms|, k requires 0 <= k < |ms| => RowFor(look, ms[k], p, session))
  }

  /** The rows of one pair. */
  function CopiesFor(look: Lookup, messages: seq<Message>, p: Pair, session: nat): seq<ChatRow> {
    RowsFor(look, ByTime(Matching(p, messages)), p, session)
  }

  ghost predicate AllMatched(messages: seq<Message>, pairs: seq<Pair>) {
    forall p :: p in pairs ==> Matching(p, messages) != []
  }

  function NewSessions(look: Lookup, messages: seq<Message>, pairs: seq<Pair>): (r: seq<Session>)
    requires AllMatched(messages, pairs)
    ensures |r| == |pairs| && forall j :: 0 <= j < |r| ==> r[j] == SessionFor(look, messages, pairs[j])
  {
    seq(|pairs|, j requires 0 <= j < |pairs| => SessionFor(look, messages, pairs[j]))
  }

  /** The rows of each pair in turn. */
  function Segments(look: Lookup, messages: seq<Message>, pairs: seq<Pair>, base: nat): (r: seq<seq<ChatRow>>)
    ensures |r| == |pairs|
    ensures forall i :: 0 <= i < |r| ==> r[i] == CopiesFor(look, messages, pairs[i], base + i)
  {
    seq(|pairs|, i requires 0 <= i < |pairs| => CopiesFor(look, messages, pairs[i], base + i))
  }

  function Flat(segments: seq<seq<ChatRow>>, n: nat): seq<ChatRow>
    requires n <= |segments|
  {
    if n == 0 then [] else Flat(segments, n - 1) + segments[n - 1]
  }

  function NewRows(look: Lookup, messages: seq<Message>, base: nat): seq<ChatRow> {
    Flat(Segments(look, messages, PairsOf(messages), base), |PairsOf(messages)|)
  }

  // ---- the pairs ----

  lemma MatchesIsPair(p: Pair, m: Message)
    requires p.lesser <= p.greater
    ensures Matches(p, m) <==> BetweenAgents(m) && PairOf(m) == p
  {
  }

  /** The pairs are those of the messages between agents, self-messages included,
      each once and with its lesser id first. */
  lemma {:induction false} PairsAreDistinct(messages: seq<Message>)
    ensures forall m :: m in messages && BetweenAgents(m) ==> PairOf(m) in PairsOf(messages)
    ensures forall p :: p in PairsOf(messages) ==> p.lesser <= p.greater
                                                   && exists m :: m in messages && BetweenAgents(m) && PairOf(m) == p
    ensures forall i, j :: 0 <= i < j < |PairsOf(messages)| ==> PairsOf(messages)[i] != PairsOf(messages)[j]
    decreases |messages|
  {
    if messages != [] {
      var rest, m := messages[..|messages| - 1], messages[|messages| - 1];
      assert messages == rest + [m];
      PairsAreDistinct(rest);
      forall p | p in PairsOf(messages)
        ensures p.lesser <= p.greater && exists x :: x in messages && BetweenAgents(x) && PairOf(x) == p
      {
        if p in PairsOf(rest) {
          var x :| x in rest && BetweenAgents(x) && PairOf(x) == p;
          assert x in messages;
        } else {
          assert m in messages && PairOf(m) == p;
        }
      }
    }
  }

  lemma {:induction false} MatchingHas(p: Pair, messages: seq<Message>, m: Message)
    ensures m in Matching(p, messages) <==> m in messages && Matches(p, m)
    decreases |messages|
  {
    if messages != [] {
      assert messages == messages[..|messages| - 1] + [messages[|messages| - 1]];
      MatchingHas(p, messages[..|messages| - 1], m);
    }
  }

  lemma PairsMatched(messages: seq<Message>)
    ensures AllMatched(messages, PairsOf(messages))
  {
  }

  // ---- sorting ----

  ghost predicate InTimeOrder(ms: seq<Message>) {
    forall j, k :: 0 <= j < k < |ms| ==> ms[j].at <= ms[k].at
  }

  lemma {:induction false} InsertBelow(m: Message, sorted: seq<Message>, top: int)
    requires m.at <= top && forall k :: 0 <= k < |sorted| ==> sorted[k].at <= top
    ensures forall k :: 0 <= k < |Insert(m, sorted)| ==> Insert(m, sorted)[k].at <= top
    decreases |sorted|
  {
    if sorted != [] {
      InsertBelow(m, sorted[..|sorted| - 1], top);
    }
  }

  lemma {:induction false} InsertSorts(m: Message, sorted: seq<Message>)
    requires InTimeOrder(sorted)
    ensures InTimeOrder(Insert(m, sorted))
    decreases |sorted|
  {
    if sorted != [] && sorted[|sorted| - 1].at > m.at {
      InsertSorts(m, sorted[..|sorted| - 1]);
      InsertBelow(m, sorted[..|sorted| - 1], sorted[|sorted| - 1].at);
    }
  }

  lemma {:induction false} InsertKeeps(m: Message, sorted: seq<Message>)
    ensures multiset(Insert(m, sorted)) == multiset(sorted) + multiset{m}
    decreases |sorted|
  {
    if sorted != [] && sorted[|sorted| - 1].at > m.at {
      var front, last := sorted[..|sorted| - 1], sorted[|sorted| - 1];
      assert sorted == front + [last];
      InsertKeeps(m, front);
    }
  }

  lemma {:induction false} ByTimeSorts(messages: seq<Message>)
    ensures InTimeOrder(ByTime(messages)) && multiset(ByTime(messages)) == multiset(messages)
    decreases |messages|
  {
    if messages != [] {
      var rest, m := messages[..|messages| - 1], messages[|messages| - 1];
      assert messages == rest + [m];
      ByTimeSorts(rest);
      InsertSorts(m, ByTime(rest));
      InsertKeeps(m, ByTime(rest));
    }
  }

  lemma ByTimeHas(ms: seq<Message>, m: Message)
    ensures m in ByTime(ms) <==> m in ms
  {
    ByTimeSorts(ms);
    assert m in multiset(ByTime(ms)) <==> m in multiset(ms);
  }

  // ---- counting copies ----

  function Copies(rows: seq<ChatRow>, id: nat, session: nat): nat {
    if rows == [] then 0
    else
      Copies(rows[..|rows| - 1], id, session)
      + (if rows[|rows| - 1].copyOf == id && rows[|rows| - 1].session == session then 1 else 0)
  }

  function Occurrences(ms: seq<Message>, id: nat): nat {
    if ms == [] then 0 else Occurrences(ms[..|ms| - 1], id) + (if ms[|ms| - 1].id == id then 1 else 0)
  }

  lemma {:induction false} CopiesConcat(a: seq<ChatRow>, b: seq<ChatRow>, id: nat, session: nat)
    ensures Copies(a + b, id, session) == Copies(a, id, session) + Copies(b, id, session)
    decreases |b|
  {
    if b == [] {
      assert a + b == a;
    } else {
      assert (a + b)[..|a + b| - 1] == a + b[..|b| - 1];
      CopiesConcat(a, b[..|b| - 1], id, session);
    }
  }

  lemma {:induction false} CopiesOfRows(look: Lookup, ms: seq<Message>, p: Pair, s: nat, id: nat, session: nat)
    ensures Copies(RowsFor(look, ms, p, s), id, session) == if s == session then Occurrences(ms, id) else 0
    decreases |ms|
  {
    if ms != [] {
      var n := |ms| - 1;
      assert RowsFor(look, ms, p, s)[..n] == RowsFor(look, ms[..n], p, s);
      CopiesOfRows(look, ms[..n], p, s, id, session);
    }
  }

  lemma {:induction false} OccurrencesInsert(m: Message, sorted: seq<Message>, id: nat)
    ensures Occurrences(Insert(m, sorted), id) == Occurrences(sorted, id) + (if m.id == id then 1 else 0)
    decreases |sorted|
  {
    if sorted == [] || sorted[|sorted| - 1].at <= m.at {
      assert (sorted + [m])[..|sorted|] == sorted;
    } else {
      var front, last := sorted[..|sorted| - 1], sorted[|sorted| - 1];
      OccurrencesInsert(m, front, id);
      assert (Insert(m, front) + [last])[..|Insert(m, front)|] == Insert(m, front);
    }
  }

  lemma {:induction false} OccurrencesByTime(ms: seq<Message>, id: nat)
    ensures Occurrences(ByTime(ms), id) == Occurrences(ms, id)
    decreases |ms|
  {
    if ms != [] {
      OccurrencesByTime(ms[..|ms| - 1], id);
      OccurrencesInsert(ms[|ms| - 1], ByTime(ms[..|ms| - 1]), id);
    }
  }

  lemma CopiesOfPair(look: Lookup, ms: seq<Message>, p: Pair, s: nat, id: nat, session: nat)
    ensures Copies(RowsFor(look, ByTime(ms), p, s), id, session) == if s == session then Occurrences(ms, id) else 0
  {
    CopiesOfRows(look, ByTime(ms), p, s, id, session);
    OccurrencesByTime(ms, id);
  }

  lemma {:induction false} CopiesInFlat(segments: seq<seq<ChatRow>>, base: nat, id: nat, session: nat, counts: seq<nat>, n: nat)
    requires |counts| == |segments| && n <= |segments|
    requires forall i :: 0 <= i < |segments| ==> Copies(segments[i], id, session) == if base + i == session then counts[i] else 0
    ensures Copies(Flat(segments, n), id, session) == if base <= session < base + n then counts[session - base] else 0
    decreases n
  {
    if n > 0 {
      CopiesInFlat(segments, base, id, session, counts, n - 1);
      CopiesConcat(Flat(segments, n - 1), segments[n - 1], id, session);
    }
  }

  /** Each session holds exactly the copies of its pair's messages. */
  lemma CopiesInSession(look: Lookup, messages: seq<Message>, pairs: seq<Pair>, base: nat, id: nat, session: nat)
    ensures Copies(Flat(Segments(look, messages, pairs, base), |pairs|), id, session)
         == if base <= session < base + |pairs| then Occurrences(Matching(pairs[session - base], messages), id) else 0
  {
    var segments := Segments(look, messages, pairs, base);
    var counts := CountsOf(messages, pairs, id);
    forall i | 0 <= i < |segments|
      ensures Copies(segments[i], id, session) == if base + i == session then counts[i] else 0
    {
      CopiesOfPair(look, Matching(pairs[i], messages), pairs[i], base + i, id, session);
    }
    CopiesInFlat(segments, base, id, session, counts, |pairs|);
  }

  function CountsOf(messages: seq<Message>, pairs: seq<Pair>, id: nat): (r: seq<nat>)
    ensures |r| == |pairs| && forall i :: 0 <= i < |r| ==> r[i] == Occurrences(Matching(pairs[i], messages), id)
  {
    seq(|pairs|, i requires 0 <= i < |pairs| => Occurrences(Matching(pairs[i], messages), id))
  }

  /** A message's key is its own. */
  ghost predicate KeysDistinct(messages: seq<Message>) {
    forall j, k :: 0 <= j < k < |messages| ==> messages[j].id != messages[k].id
  }

  lemma {:induction false} OccursOnce(p: Pair, messages: seq<Message>, m: Message)
    requires KeysDistinct(messages)
    ensures m in messages ==> Occurrences(Matching(p, messages), m.id) == if Matches(p, m) then 1 else 0
    ensures (forall x :: x in messages ==> x.id != m.id) ==> Occurrences(Matching(p, messages), m.id) == 0
    decreases |messages|
  {
    if messages != [] {
      var n := |messages| - 1;
      var rest, last := messages[..n], messages[n];
      assert messages == rest + [last];
      OccursOnce(p, rest, m);
      var ms := Matching(p, rest);
      assert (ms + [last])[..|ms|] == ms && ms + [] == ms;
      assert forall x :: x in rest ==> x.id != last.id;
    }
  }

  // ---- the theorems ----

  /** The session of the message's unordered pair. */
  predicate IsSessionOf(messages: seq<Message>, m: Message, base: nat, session: nat) {
    var pairs := PairsOf(messages);
    base <= session < base + |pairs| && pairs[session - base] == PairOf(m)
  }

  /** The migration is a partition: every message between agents is copied once into
      the session of its unordered pair and into no other, and no other message is
      copied anywhere. */
  lemma EachMessageOnce(look: Lookup, messages: seq<Message>, base: nat, m: Message, session: nat)
    requires KeysDistinct(messages) && m in messages
    ensures Copies(NewRows(look, messages, base), m.id, session)
         == if m.senderKind.Agent? && m.receiverKind.Agent? && IsSessionOf(messages, m, base, session) then 1 else 0
  {
    var pairs := PairsOf(messages);
    CopiesInSession(look, messages, pairs, base, m.id, session);
    if base <= session < base + |pairs| {
      var p := pairs[session - base];
      PairsAreDistinct(messages);
      assert p in pairs;
      MatchesIsPair(p, m);
      OccursOnce(p, messages, m);
    }
  }

  /** Two agents that wrote to each other get exactly one session. */
  lemma OneSessionPerPair(messages: seq<Message>, base: nat, m: Message)
    requires m in messages && m.senderKind.Agent? && m.receiverKind.Agent?
    ensures exists s: nat :: IsSessionOf(messages, m, base, s)
                             && forall t: nat :: IsSessionOf(messages, m, base, t) ==> t == s
  {
    PairsAreDistinct(messages);
    var pairs := PairsOf(messages);
    var j: nat :| j < |pairs| && pairs[j] == PairOf(m);
    forall t: nat | IsSessionOf(messages, m, base, t)
      ensures t == base + j
    {
      assert pairs[t - base] == pairs[j];
    }
    assert IsSessionOf(messages, m, base, base + j);
  }

  /** A row of the flattened segments is a row of one of them. */
  lemma {:induction false} InSegment(segments: seq<seq<ChatRow>>, n: nat, k: nat)
    requires n <= |segments| && k < |Flat(segments, n)|
    ensures exists i: nat, j: nat :: i < n && j < |segments[i]| && Flat(segments, n)[k] == segments[i][j]
    decreases n
  {
    var before := Flat(segments, n - 1);
    if k < |before| {
      InSegment(segments, n - 1, k);
    } else {
      assert Flat(segments, n)[k] == segments[n - 1][k - |before|];
    }
  }

  lemma SegmentHolds(look: Lookup, messages: seq<Message>, pairs: seq<Pair>, base: nat, i: nat, j: nat)
    requires i < |pairs| && j < |Segments(look, messages, pairs, base)[i]|
    ensures var row := Segments(look, messages, pairs, base)[i][j];
            row.session == base + i
            && exists m :: m in messages && Matches(pairs[i], m) && row == RowFor(look, m, pairs[i], base + i)
  {
    var ms := Matching(pairs[i], messages);
    var m := ByTime(ms)[j];
    ByTimeHas(ms, m);
    MatchingHas(pairs[i], messages, m);
  }

  /** `row` is `m` moved into the session of `m`'s pair; its role is assistant exactly
      when the sender is the pair's lesser id. */
  ghost predicate IsCopyOf(look: Lookup, messages: seq<Message>, base: nat, row: ChatRow, m: Message) {
    var lesser := if m.sender <= m.receiver then m.sender else m.receiver;
    && m in messages && m.senderKind.Agent? && m.receiverKind.Agent? && IsSessionOf(messages, m, base, row.session)
    && row.copyOf == m.id && row.content == m.content && row.at == m.at
    && row.agent == lesser && (row.role == Assistant <==> m.sender == lesser)
    && row.user == (if lesser in look.creators then look.creators[lesser] else lesser)
    && row.participant == (if m.sender in look.participants then Some(look.participants[m.sender]) else None)
  }

  lemma RowForIsCopy(look: Lookup, messages: seq<Message>, base: nat, i: nat, m: Message)
    requires i < |PairsOf(messages)| && m in messages && Matches(PairsOf(messages)[i], m)
    ensures IsCopyOf(look, messages, base, RowFor(look, m, PairsOf(messages)[i], base + i), m)
  {
    PairsAreDistinct(messages);
    assert PairsOf(messages)[i] in PairsOf(messages);
    MatchesIsPair(PairsOf(messages)[i], m);
  }

  /** Every row is the copy of a message between agents. */
  lemma RowIsCopy(look: Lookup, messages: seq<Message>, base: nat, k: nat)
    requires k < |NewRows(look, messages, base)|
    ensures exists m :: IsCopyOf(look, messages, base, NewRows(look, messages, base)[k], m)
  {
    var pairs := PairsOf(messages);
    var segments := Segments(look, messages, pairs, base);
    InSegment(segments, |pairs|, k);
    var i: nat, j: nat :| i < |pairs| && j < |segments[i]| && Flat(segments, |pairs|)[k] == segments[i][j];
    SegmentHolds(look, messages, pairs, base, i, j);
    var m :| m in messages && Matches(pairs[i], m) && segments[i][j] == RowFor(look, m, pairs[i], base + i);
    RowForIsCopy(look, messages, base, i, m);
  }

  ghost predicate IsSegment(rows: seq<ChatRow>, session: nat) {
    && (forall j :: 0 <= j < |rows| ==> rows[j].session == session)
    && (forall j, k :: 0 <= j < k < |rows| ==> rows[j].at <= rows[k].at)
  }

  lemma {:induction false} FlatInTimeOrder(segments: seq<seq<ChatRow>>, base: nat, n: nat, j: nat, k: nat)
    requires forall i: nat :: i < |segments| ==> IsSegment(segments[i], base + i)
    requires n <= |segments| && j < k < |Flat(segments, n)|
    ensures Flat(segments, n)[j].session == Flat(segments, n)[k].session ==> Flat(segments, n)[j].at <= Flat(segments, n)[k].at
    decreases n
  {
    var before := Flat(segments, n - 1);
    if k < |before| {
      FlatInTimeOrder(segments, base, n - 1, j, k);
    } else {
      assert IsSegment(segments[n - 1], base + (n - 1));
      if j < |before| {
        InSegment(segments, n - 1, j);
        var i: nat, l: nat :| i < n - 1 && l < |segments[i]| && before[j] == segments[i][l];
        assert IsSegment(segments[i], base + i);
      }
    }
  }

  /** Within a session the rows follow the messages' times. */
  lemma SessionInTimeOrder(look: Lookup, messages: seq<Message>, base: nat, j: nat, k: nat)
    requires j < k < |NewRows(look, messages, base)|
    ensures var rows := NewRows(look, messages, base);
            rows[j].session == rows[k].session ==> rows[j].at <= rows[k].at
  {
    var pairs := PairsOf(messages);
    var segments := Segments(look, messages, pairs, base);
    forall i: nat | i < |segments|
      ensures IsSegment(segments[i], base + i)
    {
      ByTimeSorts(Matching(pairs[i], messages));
    }
    FlatInTimeOrder(segments, base, |pairs|, j, k);
  }

  lemma {:induction false} WithinBounds(ms: seq<Message>, m: Message)
    requires m in ms
    ensures Earliest(ms) <= m.at <= Latest(ms)
    decreases |ms|
  {
    assert ms == ms[..|ms| - 1] + [ms[|ms| - 1]];
    if m in ms[..|ms| - 1] {
      WithinBounds(ms[..|ms| - 1], m);
    }
  }

  lemma {:induction false} EarliestOccurs(ms: seq<Message>)
    requires ms != []
    ensures exists m :: m in ms && m.at == Earliest(ms)
    decreases |ms|
  {
    var rest, last := ms[..|ms| - 1], ms[|ms| - 1];
    assert ms == rest + [last] && last in ms;
    if rest != [] {
      EarliestOccurs(rest);
      var x :| x in rest && x.at == Earliest(rest);
      assert x in ms;
    }
  }

  lemma {:induction false} LatestOccurs(ms: seq<Message>)
    requires ms != []
    ensures exists m :: m in ms && m.at == Latest(ms)
    decreases |ms|
  {
    var rest, last := ms[..|ms| - 1], ms[|ms| - 1];
    assert ms == rest + [last] && last in ms;
    if rest != [] {
      LatestOccurs(rest);
      var x :| x in rest && x.at == Latest(rest);
      assert x in ms;
    }
  }

  /** The session of a pair belongs to the lesser agent and its creator, and names the
      greater as the peer. */
  lemma SessionIsOfPair(look: Lookup, messages: seq<Message>, base: nat, m: Message, session: nat)
    requires m in messages && m.senderKind.Agent? && m.receiverKind.Agent? && IsSessionOf(messages, m, base, session)
    ensures AllMatched(messages, PairsOf(messages)) && base <= session < base + |PairsOf(messages)|
    ensures var s := NewSessions(look, messages, PairsOf(messages))[session - base];
            var lesser, greater := if m.sender <= m.receiver then m.sender else m.receiver, if m.sender <= m.receiver then m.receiver else m.sender;
            && s.owner == lesser && s.peer == greater
            && s.user == (if lesser in look.creators then look.creators[lesser] else lesser)
            && s.participant == (if lesser in look.participants then Some(look.participants[lesser]) else None)
  {
    PairsMatched(messages);
  }

  /** A session's bounds are the times of its pair's first and last message. */
  lemma BoundsAreFirstAndLast(look: Lookup, messages: seq<Message>, j: nat)
    requires j < |PairsOf(messages)|
    ensures AllMatched(messages, PairsOf(messages))
    ensures var s := NewSessions(look, messages, PairsOf(messages))[j];
            var ms := ByTime(Matching(PairsOf(messages)[j], messages));
            ms != [] && s.createdAt == ms[0].at && s.lastAt == ms[|ms| - 1].at
  {
    PairsMatched(messages);
    var p := PairsOf(messages)[j];
    assert p in PairsOf(messages);
    SortedEnds(Matching(p, messages));
  }

  lemma SortedEnds(ms: seq<Message>)
    requires ms != []
    ensures ByTime(ms)[0].at == Earliest(ms) && ByTime(ms)[|ms| - 1].at == Latest(ms)
  {
    EarliestOccurs(ms);
    LatestOccurs(ms);
    var x :| x in ms && x.at == Earliest(ms);
    var y :| y in ms && y.at == Latest(ms);
    SortedBounds(ms, x);
    SortedBounds(ms, y);
    ByTimeHas(ms, ByTime(ms)[0]);
    WithinBounds(ms, ByTime(ms)[0]);
    ByTimeHas(ms, ByTime(ms)[|ms| - 1]);
    WithinBounds(ms, ByTime(ms)[|ms| - 1]);
  }

  lemma SortedBounds(ms: seq<Message>, m: Message)
    requires m in ms
    ensures ByTime(ms)[0].at <= m.at <= ByTime(ms)[|ms| - 1].at
  {
    ByTimeSorts(ms);
    ByTimeHas(ms, m);
  }

  lemma OneMoreSession(before: seq<Session>, added: seq<Session>, i: nat, sessions: seq<Session>)
    requires i < |added| && sessions == before + added[..i]
    ensures sessions + [added[i]] == before + added[..i + 1]
  {
  }

  lemma OneMoreSegment(before: seq<ChatRow>, segments: seq<seq<ChatRow>>, i: nat, rows: seq<ChatRow>)
    requires i < |segments| && rows == before + Flat(segments, i)
    ensures rows + segments[i] == before + Flat(segments, i + 1)
  {
  }

  /** What the `i`-th pair adds. */
  lemma PairAt(look: Lookup, messages: seq<Message>, pairs: seq<Pair>, base: nat, i: nat, n: nat)
    requires AllMatched(messages, pairs) && i < |pairs| && n == base + i
    ensures Matching(pairs[i], messages) != []
    ensures NewSessions(look, messages, pairs)[i] == SessionFor(look, messages, pairs[i])
    ensures Segments(look, messages, pairs, base)[i] == CopiesFor(look, messages, pairs[i], n)
  {
    SessionAt(look, messages, pairs, i);
    SegmentAt(look, messages, pairs, base, i);
  }

  lemma SessionAt(look: Lookup, messages: seq<Message>, pairs: seq<Pair>, i: nat)
    requires AllMatched(messages, pairs) && i < |pairs|
    ensures Matching(pairs[i], messages) != []
    ensures NewSessions(look, messages, pairs)[i] == SessionFor(look, messages, pairs[i])
  {
    assert pairs[i] in pairs;
  }

  lemma SegmentAt(look: Lookup, messages: seq<Message>, pairs: seq<Pair>, base: nat, i: nat)
    requires i < |pairs|
    ensures Segments(look, messages, pairs, base)[i] == CopiesFor(look, messages, pairs[i], base + i)
  {
  }

  /** The first `i` pairs are migrated, behind the sessions and rows there were. */
  ghost predicate Migrated(added: seq<Session>, segments: seq<seq<ChatRow>>, i: nat,
                           sessions0: seq<Session>, rows0: seq<ChatRow>, sessions: seq<Session>, rows: seq<ChatRow>)
    requires i <= |added| == |segments|
  {
    sessions == sessions0 + added[..i] && rows == rows0 + Flat(segments, i)
  }

  lemma MigratedMore(added: seq<Session>, segments: seq<seq<ChatRow>>, i: nat,
                     sessions0: seq<Session>, rows0: seq<ChatRow>, sessions: seq<Session>, rows: seq<ChatRow>)
    requires i < |added| == |segments| && Migrated(added, segments, i, sessions0, rows0, sessions, rows)
    ensures |sessions| == |sessions0| + i
    ensures Migrated(added, segments, i + 1, sessions0, rows0, sessions + [added[i]], rows + segments[i])
  {
    OneMoreSession(sessions0, added, i, sessions);
    OneMoreSegment(rows0, segments, i, rows);
  }

  // ---- the migration itself ----

  class Database {
    /** `None` when the `messages` table does not exist. */
    var table: Option<seq<Message>>
    var sessions: seq<Session>
    var rows: seq<ChatRow>
    const look: Lookup

    constructor (table: Option<seq<Message>>, look: Lookup)
      ensures this.table == table && this.look == look && sessions == [] && rows == []
    {
      this.table, this.look, this.sessions, this.rows := table, look, [], [];
    }

    /** Step 8 of `upgrade`, and the drop of the old table. */
    method Upgrade()
      modifies this
      ensures table == None
      ensures old(table).None? ==> sessions == old(sessions) && rows == old(rows)
      ensures old(table).Some? ==>
                var messages := old(table.value);
                && AllMatched(messages, PairsOf(messages))
                && sessions == old(sessions) + NewSessions(look, messages, PairsOf(messages))
                && rows == old(rows) + NewRows(look, messages, old(|sessions|))
    {
      if table.None? {
        return;
      }
      var messages := table.value;
      PairsMatched(messages);
      MigratePairs(messages, PairsOf(messages));
      table := None;
    }

    /** The outer loop. */
    method MigratePairs(messages: seq<Message>, pairs: seq<Pair>)
      requires AllMatched(messages, pairs)
      modifies this`sessions, this`rows
      ensures sessions == old(sessions) + NewSessions(look, messages, pairs)
      ensures rows == old(rows) + Flat(Segments(look, messages, pairs, old(|sessions|)), |pairs|)
    {
      ghost var added := NewSessions(look, messages, pairs);
      ghost var segments := Segments(look, messages, pairs, |sessions|);
      for i := 0 to |pairs|
        invariant Migrated(added, segments, i, old(sessions), old(rows), sessions, rows)
      {
        MigratedMore(added, segments, i, old(sessions), old(rows), sessions, rows);
        PairAt(look, messages, pairs, old(|sessions|), i, |sessions|);
        MigratePair(messages, pairs[i], added[i], segments[i]);
      }
    }

    /** The outer loop's body: the session of one pair, and its messages. */
    method MigratePair(messages: seq<Message>, p: Pair, ghost session: Session, ghost copies: seq<ChatRow>)
      requires Matching(p, messages) != [] && session == SessionFor(look, messages, p)
      requires copies == CopiesFor(look, messages, p, |sessions|)
      modifies this`sessions, this`rows
      ensures sessions == old(sessions) + [session] && rows == old(rows) + copies
    {
      var sessionId := |sessions|;
      var between := Matching(p, messages);
      sessions := sessions + [Session(p.lesser, p.greater, UserOf(look, p.lesser), ParticipantOf(look, p.lesser),
                                      Earliest(between), Latest(between))];
      CopyMessages(ByTime(between), p, sessionId);
    }

    /** The inner loop: one pair's messages, in time order. */
    method CopyMessages(msgs: seq<Message>, p: Pair, sessionId: nat)
      modifies this`rows
      ensures rows == old(rows) + RowsFor(look, msgs, p, sessionId)
    {
      for k := 0 to |msgs|
        invariant rows == old(rows) + RowsFor(look, msgs[..k], p, sessionId)
      {
        var m := msgs[k];
        var role := if m.sender == p.lesser then Assistant else User;
        rows := rows + [ChatRow(m.id, p.lesser, UserOf(look, p.lesser), role, m.content, sessionId,
                                ParticipantOf(look, m.sender), m.at)];
        assert RowsFor(look, msgs[..k + 1], p, sessionId) == RowsFor(look, msgs[..k], p, sessionId) + [rows[|rows| - 1]];
      }
      assert msgs[..|msgs|] == msgs;
    }
  }
}
