/**
 Any number of consumers at one broker, among any other clients: at-least-once delivery. A turn of a process
 is one request answered by the broker, or one response printed. Everything may happen in between: other
 clients produce, join and leave, the server drops memberships, processes die, and the broker restarts
 with its messages, which Threads shows to be durable, and without its groups. Only COMMIT is left to the
 consumers: any client that is a member can commit any offset.
 */
module Delivery {
  import opened Types
  import opened Text
  import opened Lines
  import opened Protocol
  import opened Framing
  import opened Rebalance
  import opened Groups
  import opened Store
  import opened Consumer
  import Broker
  import Connections
  import TopicLog

  // A response printed by a process for its group: the messages of a partition from an offset on.
  datatype Printed = Printed(k: nat, groupId: string, tp: TopicPartition, offset: nat, text: string)

  datatype World = World(topics: Topics, groups: GroupTable, processes: map<nat, Process>, printed: seq<Printed>)

  datatype Step =
    | Start(k: nat, groupId: string, consumerId: string, topic: string)
    | Turn(k: nat)
    | Die(k: nat)
    | Other(raw: string)
    | Dropped(groupId: string, consumerId: string)
    | Restart

  datatype BrokerAnswer = BrokerAnswer(topics: Topics, groups: GroupTable, text: string)

  function RowKey(row: Assignment): TopicPartition {
    TopicPartition(row.topic, row.partition)
  }

  // handle_request on a standalone broker, as far as topics and groups go.
  function Answer(topics: Topics, groups: GroupTable, req: Request): BrokerAnswer {
    var tp := TopicPartition(req.topic, req.partition);
    match req.kind
    case PRODUCE =>
      var found := WithTopic(topics, req.topic);
      if HasPartition(found, tp) then BrokerAnswer(Push(found, tp, req.payload), groups, "OK") else BrokerAnswer(found, groups, "ERROR")
    case FETCH => BrokerAnswer(topics, groups, Fetch(topics, tp, req.offset))
    case GROUP_POLL => BrokerAnswer(topics, groups, Poll(groups, req.groupId, req.consumerId))
    case JOIN => FromGroups(topics, groups, req)
    case LEAVE => FromGroups(topics, groups, req)
    case COMMIT => FromGroups(topics, groups, req)
    case _ => BrokerAnswer(topics, groups, "ERROR")
  }

  function FromGroups(topics: Topics, groups: GroupTable, req: Request): BrokerAnswer {
    var r := Connections.GroupAnswer(groups, req, HasPartition(topics, TopicPartition(req.topic, req.partition)));
    BrokerAnswer(topics, r.groups, r.text)
  }

  // An answer too large for a frame closes the connection instead.
  function Replied(text: string): Option<string> {
    if |text| <= MAX_PAYLOAD_SIZE then Some(text) else None
  }

  function Next(w: World, step: Step): World {
    match step
    case Start(k, g, c, topic) =>
      if k in w.processes || !(IsToken(g) && IsToken(c) && IsToken(topic)) then w
      else w.(processes := w.processes[k := Process(g, c, topic, Joining)])
    case Turn(k) => if k in w.processes then TakeTurn(w, k) else w
    case Die(k) => w.(processes := w.processes - {k})
    case Other(raw) =>
      if Parse(raw).kind == COMMIT then w else
      var a := Answer(w.topics, w.groups, Parse(raw));
      w.(topics := a.topics, groups := a.groups)
    case Dropped(g, c) => w.(groups := Remove(w.groups, g, c))
    case Restart => World(w.topics, map[], map[], w.printed)
  }

  function TakeTurn(w: World, k: nat): World
    requires k in w.processes
  {
    var p := w.processes[k];
    if !Sound(p.phase) || p.phase.Ended? then w
    else if p.phase.Printing? then
      var row := p.phase.rows[p.phase.i];
      w.(processes := w.processes[k := p.(phase := PastPrinted(p.phase))],
         printed := w.printed + [Printed(k, p.groupId, RowKey(row), row.offset, p.phase.text)])
    else
      var a := Answer(w.topics, w.groups, Parse(RequestText(p)));
      World(a.topics, a.groups, w.processes[k := p.(phase := Heard(p.phase, Replied(a.text)))], w.printed)
  }

  function Run(steps: seq<Step>): World {
    if steps == [] then World(map[], map[], map[], []) else Next(Run(steps[..|steps| - 1]), steps[|steps| - 1])
  }

  // ----- Requests read back -----

  lemma JoinReadsBack(g: string, c: string, topic: string)
    requires IsToken(g) && IsToken(c) && IsToken(topic)
    ensures Parse("JOIN " + g + " " + c + " " + topic) == BLANK.(kind := JOIN, groupId := g, consumerId := c, topic := topic)
  {
    hide Take, Token, AfterToken;
    var s := " " + g + (" " + c + (" " + topic + ""));
    assert "JOIN " + g + " " + c + " " + topic == "JOIN" + s;
    ReadsToken("JOIN", s);
    TakeToken(g, " " + c + (" " + topic + ""), 2);
    TakeToken(c, " " + topic + "", 1);
    TakeToken(topic, "", 0);
    TakeNone("");
    NoToken();
  }

  lemma PairReadsBack(command: string, g: string, c: string)
    requires command == "LEAVE" || command == "GROUP_POLL"
    requires IsToken(g) && IsToken(c)
    ensures Parse(command + " " + g + " " + c)
         == BLANK.(kind := if command == "LEAVE" then LEAVE else GROUP_POLL, groupId := g, consumerId := c)
  {
    hide Take, Token, AfterToken;
    var s := " " + g + (" " + c + "");
    assert command + " " + g + " " + c == command + s;
    ReadsToken(command, s);
    TakeToken(g, " " + c + "", 1);
    TakeToken(c, "", 0);
    TakeNone("");
    NoToken();
  }

  lemma FetchReadsBack(row: Assignment)
    requires IsPollRow(row)
    ensures Parse(FetchText(row)) ==
      if row.partition >= 3 then BLANK
      else if row.offset > LONG_LONG_MAX then BLANK.(partition := row.partition)
      else BLANK.(kind := FETCH, topic := row.topic, partition := row.partition, offset := row.offset)
  {
    hide Take, Token, AfterToken, WholeInteger, Decimal;
    var p, o := Decimal(row.partition), Decimal(row.offset);
    DecimalIsToken(row.partition);
    DecimalIsToken(row.offset);
    var s := " " + row.topic + (" " + p + (" " + o + ""));
    assert FetchText(row) == "FETCH" + s;
    assert IsToken("FETCH");
    ReadsToken("FETCH", s);
    TakeToken(row.topic, " " + p + (" " + o + ""), 2);
    TakeToken(p, " " + o + "", 1);
    TakeToken(o, "", 0);
    TakeNone("");
    NoToken();
    ReadsDecimal(row.partition);
    ReadsDecimal(row.offset);
  }

  lemma CommitReadsBack(g: string, c: string, row: Assignment)
    requires IsToken(g) && IsToken(c) && IsPollRow(row)
    ensures Parse(CommitText(g, c, row)) ==
      if row.partition >= 3 then BLANK
      else if row.offset > LONG_LONG_MAX then BLANK.(partition := row.partition)
      else BLANK.(kind := COMMIT, groupId := g, consumerId := c, topic := row.topic, partition := row.partition, offset := row.offset)
  {
    hide Take, Token, AfterToken, WholeInteger, Decimal;
    var p, o := Decimal(row.partition), Decimal(row.offset);
    DecimalIsToken(row.partition);
    DecimalIsToken(row.offset);
    var numbers := " " + p + (" " + o + "");
    var s := " " + g + (" " + c + (" " + row.topic + numbers));
    assert CommitText(g, c, row) == "COMMIT" + s;
    assert IsToken("COMMIT");
    ReadsToken("COMMIT", s);
    TakeToken(g, " " + c + (" " + row.topic + numbers), 4);
    TakeToken(c, " " + row.topic + numbers, 3);
    TakeToken(row.topic, numbers, 2);
    TakeToken(p, " " + o + "", 1);
    TakeToken(o, "", 0);
    TakeNone("");
    NoToken();
    ReadsDecimal(row.partition);
    ReadsDecimal(row.offset);
  }

  // ----- What was printed -----

  ghost predicate Shows(p: Printed, g: string, tp: TopicPartition, i: nat, message: string) {
    && p.groupId == g && p.tp == tp && p.offset <= i < p.offset + |SplitLines(p.text)|
    && SplitLines(p.text)[i - p.offset] == message
  }

  ghost predicate WasPrinted(printed: seq<Printed>, g: string, tp: TopicPartition, i: nat, message: string) {
    exists p | p in printed :: Shows(p, g, tp, i, message)
  }

  // The first n messages of the partition exist, and each was printed by some consumer of the group.
  ghost predicate AllPrinted(printed: seq<Printed>, messages: seq<string>, g: string, tp: TopicPartition, n: nat) {
    n <= |messages| && forall i | 0 <= i < n :: WasPrinted(printed, g, tp, i, messages[i])
  }

  lemma AllPrintedStays(printed: seq<Printed>, more: seq<Printed>, messages: seq<string>, grown: seq<string>, g: string, tp: TopicPartition, n: nat)
    requires AllPrinted(printed, messages, g, tp, n) && printed <= more && messages <= grown
    ensures AllPrinted(more, grown, g, tp, n)
  {
    hide Shows;
    forall i | 0 <= i < n
      ensures WasPrinted(more, g, tp, i, grown[i])
    {
      assert WasPrinted(printed, g, tp, i, messages[i]);
      var p :| p in printed && Shows(p, g, tp, i, messages[i]);
      assert p in more;
    }
  }

  // ----- The invariant -----

  ghost predicate MessagesOk(topics: Topics) {
    forall tp, i | 0 <= i < |Messages(topics, tp)| :: IsPayload(Messages(topics, tp)[i])
  }

  // Subscriptions and offsets come from the parser.
  ghost predicate ParsedGroup(group: ConsumerGroup) {
    && (forall c | c in group.members :: IsToken(group.members[c].topic))
    && (forall tp | tp in group.committedOffsets :: group.committedOffsets[tp] <= LONG_LONG_MAX)
  }

  ghost predicate ParsedTable(groups: GroupTable) {
    forall g | g in groups :: ParsedGroup(groups[g])
  }

  ghost predicate CommitsPrinted(topics: Topics, groups: GroupTable, printed: seq<Printed>) {
    forall g, tp | g in groups && tp in groups[g].committedOffsets ::
      AllPrinted(printed, Messages(topics, tp), g, tp, groups[g].committedOffsets[tp])
  }

  ghost predicate BrokerOk(topics: Topics, groups: GroupTable, printed: seq<Printed>) {
    MessagesOk(topics) && TableOk(groups) && ParsedTable(groups) && CommitsPrinted(topics, groups, printed)
  }

  ghost predicate RowOk(topics: Topics, printed: seq<Printed>, g: string, row: Assignment) {
    IsPollRow(row) && AllPrinted(printed, Messages(topics, RowKey(row)), g, RowKey(row), row.offset)
  }

  // A response is the messages of its row as they were when it was fetched.
  ghost predicate TextOk(messages: seq<string>, offset: nat, text: string) {
    var lines := SplitLines(text);
    CountMessages(text) == |lines| && offset + |lines| <= |messages| && lines == messages[offset..offset + |lines|]
  }

  ghost predicate ProcessOk(topics: Topics, printed: seq<Printed>, p: Process) {
    && IsToken(p.groupId) && IsToken(p.consumerId) && IsToken(p.topic)
    && PhaseOk(topics, printed, p.groupId, p.phase)
  }

  ghost predicate PhaseOk(topics: Topics, printed: seq<Printed>, g: string, phase: Phase) {
    && Sound(phase)
    && (phase.Fetching? || phase.Printing? || phase.Committing? ==> RowsOk(topics, printed, g, phase.rows))
    && (phase.Printing? ==> TextOk(Messages(topics, RowKey(phase.rows[phase.i])), phase.rows[phase.i].offset, phase.text))
  }

  ghost predicate RowsOk(topics: Topics, printed: seq<Printed>, g: string, rows: seq<Assignment>) {
    forall row | row in rows :: RowOk(topics, printed, g, row)
  }

  ghost predicate Inv(w: World) {
    && BrokerOk(w.topics, w.groups, w.printed)
    && forall k | k in w.processes :: ProcessOk(w.topics, w.printed, w.processes[k])
  }

  // ----- What a request does -----

  function EventOf(req: Request, known: bool): Event
    requires req.kind in {JOIN, LEAVE, COMMIT}
  {
    if req.kind == JOIN then Joined(req.groupId, req.consumerId, req.topic)
    else if req.kind == LEAVE then Left(req.groupId, req.consumerId)
    else Committed(req.groupId, req.consumerId, TopicPartition(req.topic, req.partition), req.offset, known)
  }

  lemma AnswerIsEvent(topics: Topics, groups: GroupTable, req: Request)
    ensures Answer(topics, groups, req).groups ==
      if req.kind in {JOIN, LEAVE, COMMIT}
      then Groups.Step(groups, EventOf(req, HasPartition(topics, TopicPartition(req.topic, req.partition))))
      else groups
  {
    hide Join, Leave, Commit, HasPartition;
  }

  // Requests as the parser makes them.
  ghost predicate ParsedRequest(req: Request) {
    && (req.kind == PRODUCE ==> IsPayload(req.payload))
    && (req.kind == JOIN ==> IsToken(req.topic))
    && (req.kind == COMMIT ==> req.offset <= LONG_LONG_MAX)
  }

  lemma ParseIsParsed(raw: string)
    ensures ParsedRequest(Parse(raw))
  {
    hide Take, WholeInteger, PayloadOf, Token, AfterToken, IsPayload;
    if Parse(raw).kind == PRODUCE {
      ParsedPayload(raw);
    }
  }

  ghost predicate ParsedEvent(e: Event) {
    (e.Joined? ==> IsToken(e.topic)) && (e.Committed? ==> e.offset <= LONG_LONG_MAX)
  }

  lemma EventKeepsParsed(groups: GroupTable, e: Event)
    requires ParsedTable(groups) && ParsedEvent(e)
    ensures ParsedTable(Groups.Step(groups, e))
  {
    hide Assigned, IsToken;
  }

  // An offset in the table was there before, or the event committed it.
  lemma CommittedAfter(groups: GroupTable, e: Event, g: string, tp: TopicPartition)
    requires g in Groups.Step(groups, e) && tp in Groups.Step(groups, e)[g].committedOffsets
    ensures var offset := Groups.Step(groups, e)[g].committedOffsets[tp];
      || (e.Committed? && e.g == g && e.tp == tp && e.offset == offset)
      || (g in groups && tp in groups[g].committedOffsets && groups[g].committedOffsets[tp] == offset)
  {
    hide Assigned;
  }

  lemma MessagesAfter(topics: Topics, groups: GroupTable, req: Request, tp: TopicPartition)
    ensures var a := Answer(topics, groups, req);
      Messages(a.topics, tp) == Messages(topics, tp)
      || (req.kind == PRODUCE && Messages(a.topics, tp) == Messages(topics, tp) + [req.payload])
  {
    hide Messages, Push, WithTopic, HasPartition, Poll, Fetch, Connections.GroupAnswer;
    if req.kind == PRODUCE {
      var key, found := TopicPartition(req.topic, req.partition), WithTopic(topics, req.topic);
      WithTopicMessages(topics, req.topic, tp);
      if HasPartition(found, key) {
        PushedMessages(found, key, req.payload, tp);
        assert Messages(found, tp) + [] == Messages(found, tp);
      }
    }
  }

  lemma AnswerKeeps(topics: Topics, groups: GroupTable, printed: seq<Printed>, req: Request)
    requires BrokerOk(topics, groups, printed) && ParsedRequest(req)
    requires req.kind == COMMIT ==>
      var tp := TopicPartition(req.topic, req.partition); AllPrinted(printed, Messages(topics, tp), req.groupId, tp, req.offset)
    ensures var a := Answer(topics, groups, req);
      && BrokerOk(a.topics, a.groups, printed)
      && forall tp :: Messages(topics, tp) <= Messages(a.topics, tp)
  {
    hide Messages, TableOk, ParsedTable, Groups.Step, HasPartition, AllPrinted, IsPayload;
    var a := Answer(topics, groups, req);
    var known := HasPartition(topics, TopicPartition(req.topic, req.partition));
    AnswerIsEvent(topics, groups, req);
    if req.kind in {JOIN, LEAVE, COMMIT} {
      StepKeeps(groups, EventOf(req, known));
      EventKeepsParsed(groups, EventOf(req, known));
    }
    forall tp
      ensures Messages(topics, tp) <= Messages(a.topics, tp)
      ensures Messages(a.topics, tp) == Messages(topics, tp)
        || (req.kind == PRODUCE && Messages(a.topics, tp) == Messages(topics, tp) + [req.payload])
    {
      MessagesAfter(topics, groups, req, tp);
    }
    forall g, tp | g in a.groups && tp in a.groups[g].committedOffsets
      ensures AllPrinted(printed, Messages(a.topics, tp), g, tp, a.groups[g].committedOffsets[tp])
    {
      if req.kind in {JOIN, LEAVE, COMMIT} {
        CommittedAfter(groups, EventOf(req, known), g, tp);
      }
      hide Answer;
      AllPrintedStays(printed, printed, Messages(topics, tp), Messages(a.topics, tp), g, tp, a.groups[g].committedOffsets[tp]);
    }
  }

  lemma RemoveKeeps(topics: Topics, groups: GroupTable, printed: seq<Printed>, g: string, c: string)
    requires BrokerOk(topics, groups, printed)
    ensures BrokerOk(topics, Remove(groups, g, c), printed)
  {
    hide MessagesOk, TableOk, ParsedTable, AllPrinted, Remove;
    var e := Disconnected(g, c);
    RemoveIsEvent(groups, g, c);
    StepKeeps(groups, e);
    EventKeepsParsed(groups, e);
    forall h, tp | h in Remove(groups, g, c) && tp in Remove(groups, g, c)[h].committedOffsets
      ensures AllPrinted(printed, Messages(topics, tp), h, tp, Remove(groups, g, c)[h].committedOffsets[tp])
    {
      CommittedAfter(groups, e, h, tp);
    }
  }

  lemma RemoveIsEvent(groups: GroupTable, g: string, c: string)
    ensures Groups.Step(groups, Disconnected(g, c)) == Remove(groups, g, c)
  {
  }

  // ----- What a process knows -----

  lemma ProcessStays(topics: Topics, grown: Topics, printed: seq<Printed>, more: seq<Printed>, p: Process)
    requires ProcessOk(topics, printed, p) && printed <= more
    requires forall tp :: Messages(topics, tp) <= Messages(grown, tp)
    ensures ProcessOk(grown, more, p)
  {
    hide Messages, IsToken, AllPrinted, CountMessages, SplitLines;
    if p.phase.Fetching? || p.phase.Printing? || p.phase.Committing? {
      RowsStay(topics, grown, printed, more, p.groupId, p.phase.rows);
    }
  }

  lemma RowsStay(topics: Topics, grown: Topics, printed: seq<Printed>, more: seq<Printed>, g: string, rows: seq<Assignment>)
    requires RowsOk(topics, printed, g, rows) && printed <= more
    requires forall tp :: Messages(topics, tp) <= Messages(grown, tp)
    ensures RowsOk(grown, more, g, rows)
  {
    hide Messages, AllPrinted, IsPollRow;
    forall row | row in rows
      ensures RowOk(grown, more, g, row)
    {
      var tp := RowKey(row);
      AllPrintedStays(printed, more, Messages(topics, tp), Messages(grown, tp), g, tp, row.offset);
    }
  }

  // GROUP_POLL hands out only offsets up to which everything was printed.
  lemma PolledOk(topics: Topics, groups: GroupTable, printed: seq<Printed>, g: string, c: string)
    requires BrokerOk(topics, groups, printed)
    requires g in groups && c in groups[g].members
    ensures ParseRows(SplitLines(Poll(groups, g, c))) == Some(PollRows(groups[g], c))
    ensures RowsOk(topics, printed, g, PollRows(groups[g], c))
  {
    hide MessagesOk, AllPrinted, ParseRows, SplitLines, JoinLines, RowTexts, Messages, Assigned;
    PollRowsParsed(groups, g, c);
    var rows := PollRows(groups[g], c);
    AssignmentsReadBack(rows);
    forall row | row in rows
      ensures RowOk(topics, printed, g, row)
    {
      if RowKey(row) !in groups[g].committedOffsets {
        NothingPrinted(printed, Messages(topics, RowKey(row)), g, RowKey(row));
      }
    }
  }

  lemma NothingPrinted(printed: seq<Printed>, messages: seq<string>, g: string, tp: TopicPartition)
    ensures AllPrinted(printed, messages, g, tp, 0)
  {
  }

  lemma PollRowsParsed(groups: GroupTable, g: string, c: string)
    requires TableOk(groups) && ParsedTable(groups)
    requires g in groups && c in groups[g].members
    ensures forall i | 0 <= i < |PollRows(groups[g], c)| :: IsPollRow(PollRows(groups[g], c)[i])
  {
    hide Assigned, IsToken;
    var subs := Subscriptions(groups[g].members);
    AssignedIsOwnTopic(subs, c);
  }

  lemma FetchedOk(topics: Topics, tp: TopicPartition, offset: nat)
    requires MessagesOk(topics)
    requires HasPartition(topics, tp)
    ensures var messages := Messages(topics, tp); var suffix := if offset < |messages| then messages[offset..] else [];
      && SplitLines(Fetch(topics, tp, offset)) == suffix
      && CountMessages(Fetch(topics, tp, offset)) == |suffix|
  {
    hide SplitLines, CountMessages, JoinLines, HasPartition;
    var messages := Messages(topics, tp);
    var suffix := if offset < |messages| then messages[offset..] else [];
    assert AreRows(suffix);
    SplitUndoesJoin(suffix);
    CountOfJoin(suffix);
    EmptyJoin();
  }

  lemma EmptyJoin()
    ensures JoinLines([]) == ""
  {
  }

  lemma HeardKeeps(topics: Topics, groups: GroupTable, printed: seq<Printed>, p: Process)
    requires BrokerOk(topics, groups, printed) && ProcessOk(topics, printed, p)
    requires !p.phase.Ended? && !p.phase.Printing?
    ensures var a := Answer(topics, groups, Parse(RequestText(p)));
      ProcessOk(topics, printed, p.(phase := Heard(p.phase, Replied(a.text))))
  {
    hide Parse, IsToken, MessagesOk, TableOk, ParsedTable, CommitsPrinted, RowOk, Messages, ParseRows, SplitLines, CountMessages, FromGroups, IsPollRow, Fetch, Poll;
    match p.phase
    case Polling =>
      PairReadsBack("GROUP_POLL", p.groupId, p.consumerId);
      PollText(p);
      if p.groupId in groups && p.consumerId in groups[p.groupId].members {
        PolledOk(topics, groups, printed, p.groupId, p.consumerId);
      } else {
        PollError(groups, p.groupId, p.consumerId);
      }
    case Fetching(rows, i, _) =>
      FetchHeard(topics, groups, printed, p.groupId, rows[i]);
    case _ =>
  }

  lemma PollText(p: Process)
    requires p.phase.Polling?
    ensures RequestText(p) == "GROUP_POLL" + " " + p.groupId + " " + p.consumerId
  {
    assert "GROUP_POLL " + p.groupId == "GROUP_POLL" + " " + p.groupId;
  }

  lemma PollError(groups: GroupTable, g: string, c: string)
    requires g !in groups || c !in groups[g].members
    ensures Poll(groups, g, c) == "ERROR"
  {
  }

  lemma FetchHeard(topics: Topics, groups: GroupTable, printed: seq<Printed>, g: string, row: Assignment)
    requires MessagesOk(topics) && RowOk(topics, printed, g, row)
    ensures var text := Answer(topics, groups, Parse(FetchText(row))).text;
      text == "ERROR" || CountMessages(text) == 0 || TextOk(Messages(topics, RowKey(row)), row.offset, text)
  {
    hide Parse, MessagesOk, IsPollRow, Messages, HasPartition, SplitLines, CountMessages, JoinLines;
    FetchReadsBack(row);
    if HasPartition(topics, RowKey(row)) {
      FetchedOk(topics, RowKey(row), row.offset);
    }
  }

  lemma PrintKeeps(topics: Topics, printed: seq<Printed>, k: nat, p: Process)
    requires ProcessOk(topics, printed, p) && p.phase.Printing?
    ensures var row := p.phase.rows[p.phase.i];
      ProcessOk(topics, printed + [Printed(k, p.groupId, RowKey(row), row.offset, p.phase.text)], p.(phase := PastPrinted(p.phase)))
  {
    hide IsToken, Messages, SplitLines, CountMessages, RowOk;
    var g, rows, i, text := p.groupId, p.phase.rows, p.phase.i, p.phase.text;
    var row := rows[i];
    var more := printed + [Printed(k, g, RowKey(row), row.offset, text)];
    RowsStay(topics, topics, printed, more, g, rows);
    var moved := PastPrinted(p.phase).rows;
    PrintedRow(topics, printed, k, g, row, text);
    forall other | other in moved
      ensures RowOk(topics, more, g, other)
    {
      var j :| 0 <= j < |moved| && moved[j] == other;
      if j != i {
        assert rows[j] == other;
      }
    }
  }

  lemma PrintedRow(topics: Topics, printed: seq<Printed>, k: nat, g: string, row: Assignment, text: string)
    requires RowOk(topics, printed, g, row) && TextOk(Messages(topics, RowKey(row)), row.offset, text)
    ensures RowOk(topics, printed + [Printed(k, g, RowKey(row), row.offset, text)], g,
                  row.(offset := (row.offset + CountMessages(text)) % TWO_TO_64))
  {
    hide Messages, SplitLines, CountMessages, IsToken;
    var tp, now := RowKey(row), Printed(k, g, RowKey(row), row.offset, text);
    var messages, more := Messages(topics, tp), printed + [now];
    var n := (row.offset + CountMessages(text)) % TWO_TO_64;
    assert n <= row.offset + CountMessages(text);
    AllPrintedStays(printed, more, messages, messages, g, tp, row.offset);
    forall i | 0 <= i < n
      ensures WasPrinted(more, g, tp, i, messages[i])
    {
      if i >= row.offset {
        assert now in more && Shows(now, g, tp, i, messages[i]);
      }
    }
  }

  // A process commits only what its group has printed.
  lemma CommitOfProcess(topics: Topics, printed: seq<Printed>, p: Process)
    requires ProcessOk(topics, printed, p) && !p.phase.Ended? && !p.phase.Printing?
    ensures var req := Parse(RequestText(p)); var tp := TopicPartition(req.topic, req.partition);
      req.kind == COMMIT ==> AllPrinted(printed, Messages(topics, tp), req.groupId, tp, req.offset)
  {
    hide Parse, IsToken, AllPrinted, Messages, IsPollRow;
    match p.phase
    case Joining => JoinReadsBack(p.groupId, p.consumerId, p.topic);
    case Polling =>
      PairReadsBack("GROUP_POLL", p.groupId, p.consumerId);
      PollText(p);
    case Fetching(rows, i, _) =>
      assert RowOk(topics, printed, p.groupId, rows[i]);
      FetchReadsBack(rows[i]);
    case Committing(rows, i) =>
      assert RowOk(topics, printed, p.groupId, rows[i]);
      CommitReadsBack(p.groupId, p.consumerId, rows[i]);
    case Leaving =>
      PairReadsBack("LEAVE", p.groupId, p.consumerId);
      LeaveText(p);
  }

  lemma LeaveText(p: Process)
    requires p.phase.Leaving?
    ensures RequestText(p) == "LEAVE" + " " + p.groupId + " " + p.consumerId
  {
    assert "LEAVE " + p.groupId == "LEAVE" + " " + p.groupId;
  }

  lemma PrintedCommits(topics: Topics, groups: GroupTable, printed: seq<Printed>, more: seq<Printed>)
    requires CommitsPrinted(topics, groups, printed) && printed <= more
    ensures CommitsPrinted(topics, groups, more)
  {
    hide AllPrinted, Messages;
    forall g, tp | g in groups && tp in groups[g].committedOffsets
      ensures AllPrinted(more, Messages(topics, tp), g, tp, groups[g].committedOffsets[tp])
    {
      AllPrintedStays(printed, more, Messages(topics, tp), Messages(topics, tp), g, tp, groups[g].committedOffsets[tp]);
    }
  }

  lemma OthersStay(w: World, grown: Topics, more: seq<Printed>)
    requires Inv(w) && w.printed <= more
    requires forall tp :: Messages(w.topics, tp) <= Messages(grown, tp)
    ensures forall k | k in w.processes :: ProcessOk(grown, more, w.processes[k])
  {
    hide ProcessOk, Messages, BrokerOk;
    forall k | k in w.processes
      ensures ProcessOk(grown, more, w.processes[k])
    {
      ProcessStays(w.topics, grown, w.printed, more, w.processes[k]);
    }
  }

  lemma TurnKeeps(w: World, k: nat)
    requires Inv(w) && k in w.processes
    ensures Inv(TakeTurn(w, k))
  {
    var p := w.processes[k];
    ProcessIsSound(w.topics, w.printed, p);
    hide MessagesOk, TableOk, ParsedTable, Answer, Parse, ProcessOk, RequestText, CommitsPrinted, ParsedRequest, PastPrinted, Heard, AllPrinted, Messages, Sound;
    if p.phase.Printing? {
      var row := p.phase.rows[p.phase.i];
      var more := w.printed + [Printed(k, p.groupId, RowKey(row), row.offset, p.phase.text)];
      PrintKeeps(w.topics, w.printed, k, p);
      PrintedCommits(w.topics, w.groups, w.printed, more);
      OthersStay(w, w.topics, more);
    } else if !p.phase.Ended? {
      AskKeeps(w, k);
    }
  }

  lemma ProcessIsSound(topics: Topics, printed: seq<Printed>, p: Process)
    requires ProcessOk(topics, printed, p)
    ensures Sound(p.phase)
    ensures p.phase.Printing? ==> p.phase.i < |p.phase.rows|
  {
  }

  lemma AskKeeps(w: World, k: nat)
    requires Inv(w) && k in w.processes && Sound(w.processes[k].phase)
    requires !w.processes[k].phase.Ended? && !w.processes[k].phase.Printing?
    ensures Inv(TakeTurn(w, k))
  {
    hide BrokerOk, Answer, Parse, ProcessOk, RequestText, ParsedRequest, Heard, AllPrinted, Messages, Sound;
    var p := w.processes[k];
    var req := Parse(RequestText(p));
    var a := Answer(w.topics, w.groups, req);
    ParseIsParsed(RequestText(p));
    CommitOfProcess(w.topics, w.printed, p);
    AnswerKeeps(w.topics, w.groups, w.printed, req);
    HeardKeeps(w.topics, w.groups, w.printed, p);
    OthersStay(w, a.topics, w.printed);
    ProcessStays(w.topics, a.topics, w.printed, w.printed, p.(phase := Heard(p.phase, Replied(a.text))));
  }

  lemma NextKeeps(w: World, step: Step)
    requires Inv(w)
    ensures Inv(Next(w, step))
  {
    hide BrokerOk, Answer, Parse, ProcessOk, TakeTurn, ParsedRequest, IsToken, Messages, Remove;
    match step
    case Start(k, g, c, topic) =>
      if IsToken(g) && IsToken(c) && IsToken(topic) {
        StartOk(w.topics, w.printed, g, c, topic);
      }
    case Turn(k) =>
      if k in w.processes {
        TurnKeeps(w, k);
      }
    case Die(_) =>
    case Other(raw) =>
      if Parse(raw).kind != COMMIT {
        ParseIsParsed(raw);
        AnswerKeeps(w.topics, w.groups, w.printed, Parse(raw));
        OthersStay(w, Answer(w.topics, w.groups, Parse(raw)).topics, w.printed);
      }
    case Dropped(g, c) => RemoveKeeps(w.topics, w.groups, w.printed, g, c);
    case Restart => RestartOk(w.topics, w.groups, w.printed);
  }

  lemma StartOk(topics: Topics, printed: seq<Printed>, g: string, c: string, topic: string)
    requires IsToken(g) && IsToken(c) && IsToken(topic)
    ensures ProcessOk(topics, printed, Process(g, c, topic, Joining))
  {
  }

  lemma RestartOk(topics: Topics, groups: GroupTable, printed: seq<Printed>)
    requires BrokerOk(topics, groups, printed)
    ensures BrokerOk(topics, map[], printed)
  {
    hide MessagesOk;
  }

  lemma {:induction false} RunKeeps(steps: seq<Step>)
    ensures Inv(Run(steps))
  {
    hide Next, Inv;
    if steps == [] {
      StartHolds();
    } else {
      RunKeeps(steps[..|steps| - 1]);
      NextKeeps(Run(steps[..|steps| - 1]), steps[|steps| - 1]);
    }
  }

  lemma StartHolds()
    ensures Inv(World(map[], map[], map[], []))
  {
  }

  // ----- The theorems -----

  /**
   At-least-once delivery: in every run, whenever a group has a committed offset for a partition, every message
   before it exists and has been printed by some consumer of that group.
   */
  lemma AtLeastOnce(steps: seq<Step>, g: string, tp: TopicPartition, i: nat)
    requires var groups := Run(steps).groups;
      g in groups && tp in groups[g].committedOffsets && i < groups[g].committedOffsets[tp]
    ensures var w := Run(steps);
      i < |Messages(w.topics, tp)| && WasPrinted(w.printed, g, tp, i, Messages(w.topics, tp)[i])
  {
    hide Run, MessagesOk, TableOk, ParsedTable, ProcessOk, Messages, WasPrinted;
    RunKeeps(steps);
    var w := Run(steps);
    assert AllPrinted(w.printed, Messages(w.topics, tp), g, tp, w.groups[g].committedOffsets[tp]);
  }

  /** In every run a FETCH response splits into exactly the messages from its offset on, and counts them: 0 exactly at or past the end. */
  lemma FetchSplits(steps: seq<Step>, tp: TopicPartition, offset: nat)
    requires HasPartition(Run(steps).topics, tp)
    ensures var messages := Messages(Run(steps).topics, tp); var response := Fetch(Run(steps).topics, tp, offset);
      && SplitLines(response) == (if offset < |messages| then messages[offset..] else [])
      && (CountMessages(response) == 0 <==> offset >= |messages|)
      && (offset < |messages| ==> CountMessages(response) == |messages| - offset)
  {
    hide Run, TableOk, ParsedTable, ProcessOk, CommitsPrinted, Messages, HasPartition, SplitLines, CountMessages, Fetch;
    RunKeeps(steps);
    FetchedOk(Run(steps).topics, tp, offset);
  }

  /** In every run a member that polls reads back exactly its assigned partitions with their committed offsets. */
  lemma PollReadsBack(steps: seq<Step>, g: string, c: string)
    requires var groups := Run(steps).groups; g in groups && c in groups[g].members
    ensures var groups := Run(steps).groups;
      ParseRows(SplitLines(Poll(groups, g, c))) == Some(PollRows(groups[g], c))
  {
    hide Run, BrokerOk, ProcessOk, ParseRows, SplitLines, Poll, PollRows;
    RunKeeps(steps);
    PolledOk(Run(steps).topics, Run(steps).groups, Run(steps).printed, g, c);
  }

  // The messages from the offset of a row on.
  function Unread(topics: Topics, row: Assignment): seq<string> {
    var messages := Messages(topics, RowKey(row));
    if row.offset < |messages| then messages[row.offset..] else []
  }

  /**
   What a consumer makes of a FETCH, exactly. It gets the unread messages unless there are none, or they do not
   fit a frame, which ends it, or the only one is the text ERROR, which it takes for a refusal.
   */
  lemma FetchOutcome(steps: seq<Step>, rows: seq<Assignment>, i: nat, any: bool)
    requires i < |rows| && IsPollRow(rows[i]) && rows[i].partition < 3 && rows[i].offset <= LONG_LONG_MAX
    requires HasPartition(Run(steps).topics, RowKey(rows[i]))
    ensures var w := Run(steps); var unread := Unread(w.topics, rows[i]); var text := JoinLines(unread);
      Heard(Fetching(rows, i, any), Replied(Answer(w.topics, w.groups, Parse(FetchText(rows[i]))).text)) ==
        if unread == [] then AtRow(rows, i + 1, any)
        else if |text| > MAX_PAYLOAD_SIZE then Ended(1)
        else if unread == ["ERROR"] then Leaving
        else Printing(rows, i, any, text)
  {
    hide Run, TableOk, ParsedTable, ProcessOk, CommitsPrinted, Messages, HasPartition, SplitLines, CountMessages, JoinLines, Parse, IsPollRow;
    var row, w := rows[i], Run(steps);
    RunKeeps(steps);
    FetchReadsBack(row);
    FetchedOk(w.topics, RowKey(row), row.offset);
    EmptyJoin();
    ErrorText();
  }

  /** A FETCH of a partition that does not exist is refused, and the consumer leaves. */
  lemma FetchRefused(w: World, rows: seq<Assignment>, i: nat, any: bool)
    requires i < |rows| && IsPollRow(rows[i]) && !HasPartition(w.topics, RowKey(rows[i]))
    ensures Heard(Fetching(rows, i, any), Replied(Answer(w.topics, w.groups, Parse(FetchText(rows[i]))).text)) == Leaving
  {
    hide Parse, IsPollRow, HasPartition, CountMessages;
    FetchReadsBack(rows[i]);
  }

  lemma ErrorText()
    ensures SplitLines("ERROR") == ["ERROR"] && JoinLines(["ERROR"]) == "ERROR"
  {
    assert AreRows(["ERROR"]);
    SplitUndoesJoin(["ERROR"]);
  }

  lemma {:induction false} MessagesGrow(steps: seq<Step>, more: seq<Step>, tp: TopicPartition)
    ensures Messages(Run(steps).topics, tp) <= Messages(Run(steps + more).topics, tp)
    ensures HasPartition(Run(steps).topics, tp) ==> HasPartition(Run(steps + more).topics, tp)
    decreases |more|
  {
    hide Next, Messages, HasPartition;
    if more == [] {
      assert steps + more == steps;
    } else {
      var front := more[..|more| - 1];
      assert (steps + more)[..|steps + more| - 1] == steps + front;
      MessagesGrow(steps, front, tp);
      NextGrows(Run(steps + front), more[|more| - 1], tp);
    }
  }

  lemma NextGrows(w: World, step: Step, tp: TopicPartition)
    ensures Messages(w.topics, tp) <= Messages(Next(w, step).topics, tp)
    ensures HasPartition(w.topics, tp) ==> HasPartition(Next(w, step).topics, tp)
  {
    hide Messages, HasPartition, Answer, Parse, RequestText, Heard, PastPrinted, Remove;
    if step.Other? {
      AnswerGrows(w.topics, w.groups, Parse(step.raw), tp);
    } else if step.Turn? && step.k in w.processes && Sound(w.processes[step.k].phase) {
      AnswerGrows(w.topics, w.groups, Parse(RequestText(w.processes[step.k])), tp);
    }
  }

  lemma AnswerGrows(topics: Topics, groups: GroupTable, req: Request, tp: TopicPartition)
    ensures Messages(topics, tp) <= Messages(Answer(topics, groups, req).topics, tp)
    ensures HasPartition(topics, tp) ==> HasPartition(Answer(topics, groups, req).topics, tp)
  {
    hide Messages, Push, WithTopic, HasPartition, Poll, Fetch, Connections.GroupAnswer;
    MessagesAfter(topics, groups, req, tp);
    if req.kind == PRODUCE {
      var key, found := TopicPartition(req.topic, req.partition), WithTopic(topics, req.topic);
      WithTopicMessages(topics, req.topic, tp);
      if HasPartition(found, key) {
        PushedMessages(found, key, req.payload, tp);
      }
    }
  }

  /** Once the unread rest of a partition exceeds a frame, every later FETCH from that offset ends the consumer: it gets no further. */
  lemma TooLongForever(steps: seq<Step>, more: seq<Step>, rows: seq<Assignment>, i: nat, any: bool)
    requires i < |rows| && IsPollRow(rows[i]) && rows[i].partition < 3 && rows[i].offset <= LONG_LONG_MAX
    requires HasPartition(Run(steps).topics, RowKey(rows[i]))
    requires |JoinLines(Unread(Run(steps).topics, rows[i]))| > MAX_PAYLOAD_SIZE
    ensures var w := Run(steps + more);
      Heard(Fetching(rows, i, any), Replied(Answer(w.topics, w.groups, Parse(FetchText(rows[i]))).text)) == Ended(1)
  {
    hide Run, Messages, HasPartition, Heard, Replied, Answer, Parse, FetchText, IsPollRow, JoinLines;
    var row := rows[i];
    MessagesGrow(steps, more, RowKey(row));
    EmptyJoin();
    var early, late := Unread(Run(steps).topics, row), Unread(Run(steps + more).topics, row);
    var rest := late[|early|..];
    assert late == early + rest;
    JoinLonger(early, rest);
    FetchOutcome(steps + more, rows, i, any);
  }

  // A run in which a producer sent payloads to partition 0 of topic t.
  function Produced(payloads: seq<string>): seq<Step> {
    seq(|payloads|, i requires 0 <= i < |payloads| => Other(ProduceText("t", 0, payloads[i])))
  }

  const ROW := Assignment("t", 0, 0)

  lemma {:induction false} ProducedMessages(payloads: seq<string>)
    requires forall i | 0 <= i < |payloads| :: IsPayload(payloads[i]) && !AllSpaces(payloads[i])
    ensures Unread(Run(Produced(payloads)).topics, ROW) == payloads
    ensures payloads != [] ==> HasPartition(Run(Produced(payloads)).topics, RowKey(ROW))
  {
    hide Next, ProduceText, Messages, HasPartition, IsPayload, AllSpaces;
    if payloads == [] {
      NoMessages();
    } else {
      var front, last := payloads[..|payloads| - 1], payloads[|payloads| - 1];
      ProducedMessages(front);
      assert Produced(payloads)[..|payloads| - 1] == Produced(front);
      FromTheStart(Run(Produced(front)).topics);
      FromTheStart(Run(Produced(payloads)).topics);
      ProducedOne(Run(Produced(front)), last);
      assert payloads == front + [last];
    }
  }

  lemma FromTheStart(topics: Topics)
    ensures Unread(topics, ROW) == Messages(topics, RowKey(ROW))
  {
    hide Messages;
    var messages := Messages(topics, RowKey(ROW));
    assert messages[0..] == messages;
  }

  lemma ProducedOne(w: World, payload: string)
    requires IsPayload(payload) && !AllSpaces(payload)
    requires "t" in w.topics ==> HasPartition(w.topics, RowKey(ROW))
    ensures var topics := Next(w, Other(ProduceText("t", 0, payload))).topics;
      && Messages(topics, RowKey(ROW)) == Messages(w.topics, RowKey(ROW)) + [payload]
      && HasPartition(topics, RowKey(ROW))
  {
    hide Parse, ProduceText, Messages, HasPartition, WithTopic, Push, IsPayload;
    assert IsToken("t");
    ProduceReadsBack("t", 0, payload);
    TopicHasPartition(w.topics);
    WithTopicMessages(w.topics, "t", RowKey(ROW));
    PushedMessages(WithTopic(w.topics, "t"), RowKey(ROW), payload, RowKey(ROW));
  }

  lemma TopicHasPartition(topics: Topics)
    requires "t" in topics ==> HasPartition(topics, RowKey(ROW))
    ensures HasPartition(WithTopic(topics, "t"), RowKey(ROW))
  {
  }

  lemma NoMessages()
    ensures Run([]).topics == map[] && Messages(map[], RowKey(ROW)) == []
    ensures Unread(map[], ROW) == []
  {
  }

  /** A message ERROR makes its consumer leave. */
  lemma ErrorIsRefusal()
    ensures var w := Run(Produced(["ERROR"]));
      Heard(Fetching([ROW], 0, false), Replied(Answer(w.topics, w.groups, Parse(FetchText(ROW))).text)) == Leaving
  {
    hide Run, Messages, HasPartition, Heard, Replied, Answer, Parse, FetchText, Produced;
    assert "ERROR"[0] == 'E';
    assert IsPayload("ERROR") && !AllSpaces("ERROR");
    ProducedMessages(["ERROR"]);
    ErrorText();
    assert IsPollRow(ROW);
    FetchOutcome(Produced(["ERROR"]), [ROW], 0, false);
  }

  /** Two messages of 40000 characters end every consumer that starts on them, whatever happens later. */
  lemma TwoLongMessages(long: string, more: seq<Step>)
    requires long == seq(40000, _ => 'a')
    ensures var w := Run(Produced([long, long]) + more);
      Heard(Fetching([ROW], 0, false), Replied(Answer(w.topics, w.groups, Parse(FetchText(ROW))).text)) == Ended(1)
  {
    hide Run, Messages, HasPartition, Heard, Replied, Answer, Parse, FetchText, Produced;
    assert long[0] == 'a' && '\n' !in long && IsPayload(long) && !AllSpaces(long);
    ProducedMessages([long, long]);
    assert [long, long][..1] == [long];
    assert JoinLines([long, long]) == long + "\n" + long;
    assert IsPollRow(ROW);
    TooLongForever(Produced([long, long]), more, [ROW], 0, false);
  }

  lemma {:induction false} HistoryParsed(events: seq<Event>)
    requires forall i | 0 <= i < |events| :: ParsedEvent(events[i])
    ensures ParsedTable(Groups.Run(events))
  {
    hide Groups.Step, ParsedTable;
    if events == [] {
      EmptyParsed();
    } else {
      HistoryParsed(events[..|events| - 1]);
      EventKeepsParsed(Groups.Run(events[..|events| - 1]), events[|events| - 1]);
    }
  }

  lemma EmptyParsed()
    ensures ParsedTable(map[])
  {
  }

  /**
   After any history of parsed requests, a consumer reads from its poll response exactly its assigned partitions,
   each with the offset of the last commit since the group came into being, or 0.
   */
  lemma PolledLastCommits(events: seq<Event>, g: string, c: string)
    requires forall i | 0 <= i < |events| :: ParsedEvent(events[i])
    requires g in Groups.Run(events) && c in Groups.Run(events)[g].members
    ensures var tps := Groups.Run(events)[g].members[c].assignments;
      var rows := ParseRows(SplitLines(Poll(Groups.Run(events), g, c)));
      && rows.Some? && |rows.value| == |tps|
      && forall i | 0 <= i < |tps| :: rows.value[i] == Assignment(tps[i].topic, tps[i].partition,
           match LastCommit(events, g, tps[i]) case Some(offset) => offset case None => 0)
  {
    hide Groups.Run, TableOk, ParsedTable, ParseRows, SplitLines, JoinLines, RowTexts, LastCommit;
    var groups := Groups.Run(events);
    Groups.RunKeeps(events);
    HistoryParsed(events);
    PollRowsParsed(groups, g, c);
    AssignmentsReadBack(PollRows(groups[g], c));
    forall i | 0 <= i < |groups[g].members[c].assignments|
      ensures var tp := groups[g].members[c].assignments[i];
        PollRows(groups[g], c)[i] == Assignment(tp.topic, tp.partition,
          match LastCommit(events, g, tp) case Some(offset) => offset case None => 0)
    {
      PollPrintsLastCommit(events, g, c, i);
    }
  }

  // ----- The class Broker answers so -----

  /** handle_request on a standalone broker, when the append completes, is the function Answer. */
  method HandledRequest(broker: Broker.Broker, req: Request, env: Broker.Environment, link: Broker.FollowerLink) returns (text: string)
    requires req.kind in {PRODUCE, FETCH, GROUP_POLL, JOIN, LEAVE, COMMIT, INVALID}
    requires req.kind == PRODUCE ==> req.topic != "" && TopicLog.AppendOf(req.payload, env.writes, env.flush).outcome.Completed?
    requires broker.role == Broker.LEADER && broker.followerPort <= 0
    modifies broker`topics, broker`replicationProgress, broker`consumerGroups, broker.disk, link
    ensures BrokerAnswer(broker.topics, broker.consumerGroups, text) == Answer(old(broker.topics), old(broker.consumerGroups), req)
  {
    hide TopicLog.AppendOf, Join, Leave, Commit, Fetch, Poll, HasPartition, WithTopic, Push;
    var reply, _ := broker.HandleRequest(req, env, link);
    assert broker.State().topics == broker.topics;
    text := if reply.Answered? then reply.text else "";
  }
}
