/**
 The group consumer of clients/consumer.cpp: how it reads a poll response, and its main loop. The loop is
 a method over a BrokerClient; it is proved to hold the conversation of an automaton, Process, and it is the
 automaton that Delivery lets any number of run at once.
 */
module Consumer {
  import opened Types
  import opened Text
  import opened Lines
  import opened Protocol
  import opened Groups

  // ----- Reading a poll response -----

  function ParseRow(line: string): Option<Assignment> {
    var topic := Token(line);
    if topic == "" then None else
    var p := NumberAt(AfterToken(line));
    if IntValue(p).None? then None else
    var o := NumberAt(p.rest);
    if UnsignedValue(o).None? || Token(o.rest) != "" then None
    else Some(Assignment(topic, IntValue(p).value, UnsignedValue(o).value))
  }

  // All rows, empty lines left out; None if one of them is not an assignment.
  function ParseRows(lines: seq<string>): Option<seq<Assignment>> {
    if lines == [] then Some([])
    else if lines[0] == "" then ParseRows(lines[1..])
    else if ParseRow(lines[0]).None? then None
    else Prepended([ParseRow(lines[0]).value], ParseRows(lines[1..]))
  }

  function Prepended(first: seq<Assignment>, more: Option<seq<Assignment>>): Option<seq<Assignment>> {
    match more
    case Some(rows) => Some(first + rows)
    case None => None
  }

  method ReadRow(line: string) returns (row: Option<Assignment>)
    ensures row == ParseRow(line)
  {
    hide Token, AfterToken, NumberAt, IntValue, UnsignedValue;
    var fields := new InputStream(line);
    var topic := fields.Extract("");
    var partition := fields.ExtractInt();
    var offset := fields.ExtractUnsigned();
    if fields.failed {
      return None;
    }
    var _ := fields.Extract("");
    if !fields.failed {
      return None;
    }
    row := Some(Assignment(topic, partition, offset));
  }

  // None is the exception for a malformed response.
  method ParseAssignments(response: string) returns (assignments: Option<seq<Assignment>>)
    ensures assignments == ParseRows(SplitLines(response))
  {
    hide Line, AfterLine, ParseRow;
    var rows: seq<Assignment> := [];
    var lines := new InputStream(response);
    PrependedNothing(ParseRows(SplitLines(response)));
    while true
      invariant lines.Valid() && !lines.failed
      invariant Prepended(rows, ParseRows(SplitLines(lines.rest))) == ParseRows(SplitLines(response))
      decreases |lines.rest|
    {
      ghost var before := lines.rest;
      var line := lines.GetLine();
      if lines.failed {
        assert rows + [] == rows;
        break;
      }
      SplitOne(before);
      if line != "" {
        var row := ReadRow(line);
        if row.None? {
          return None;
        }
        PrependedTwice(rows, row.value, ParseRows(SplitLines(lines.rest)));
        rows := rows + [row.value];
      }
    }
    assignments := Some(rows);
  }

  lemma SplitOne(s: string)
    requires s != ""
    ensures |AfterLine(s)| < |s|
    ensures ParseRows(SplitLines(s)) ==
      if Line(s) == "" then ParseRows(SplitLines(AfterLine(s)))
      else if ParseRow(Line(s)).None? then None
      else Prepended([ParseRow(Line(s)).value], ParseRows(SplitLines(AfterLine(s))))
  {
    hide ParseRow, Line;
    assert SplitLines(s)[1..] == SplitLines(AfterLine(s));
  }

  lemma PrependedNothing(more: Option<seq<Assignment>>)
    ensures Prepended([], more) == more
  {
    if more.Some? {
      assert [] + more.value == more.value;
    }
  }

  lemma PrependedTwice(rows: seq<Assignment>, row: Assignment, more: Option<seq<Assignment>>)
    ensures Prepended(rows, Prepended([row], more)) == Prepended(rows + [row], more)
  {
    if more.Some? {
      assert rows + ([row] + more.value) == rows + [row] + more.value;
    }
  }

  // A row that GROUP_POLL can print.
  predicate IsPollRow(row: Assignment) {
    IsToken(row.topic) && 0 <= row.partition <= INT_MAX && row.offset < TWO_TO_64
  }

  /** A printed row is one non-empty line, and reads back as itself. */
  lemma RowReadsBack(row: Assignment)
    requires IsPollRow(row)
    ensures ParseRow(RowText(row)) == Some(row)
    ensures RowText(row) != "" && '\n' !in RowText(row)
  {
    hide Token, AfterToken, NumberAt, IntValue, UnsignedValue, Decimal;
    var p, o := Decimal(row.partition), Decimal(row.offset);
    DecimalIsToken(row.partition);
    DecimalIsToken(row.offset);
    var afterPartition := " " + o + "";
    var afterTopic := " " + p + afterPartition;
    assert RowText(row) == row.topic + afterTopic;
    ReadsToken(row.topic, afterTopic);
    ReadsNumber(row.partition, afterPartition);
    ReadsNumber(row.offset, "");
    NoToken();
  }

  lemma {:induction false} RowsReadBack(rows: seq<Assignment>)
    requires forall i | 0 <= i < |rows| :: IsPollRow(rows[i])
    ensures ParseRows(RowTexts(rows)) == Some(rows) && AreRows(RowTexts(rows))
  {
    hide ParseRow, RowText, IsPollRow;
    if rows == [] {
      assert RowTexts(rows) == [];
    } else {
      RowReadsBack(rows[0]);
      assert RowTexts(rows)[1..] == RowTexts(rows[1..]);
      RowsReadBack(rows[1..]);
      assert rows == [rows[0]] + rows[1..];
      forall i | 0 < i < |rows|
        ensures RowTexts(rows)[i] == RowTexts(rows[1..])[i - 1]
      {
      }
    }
  }

  /** Joining by the broker and parsing by the consumer: exactly the assigned rows come back. */
  lemma AssignmentsReadBack(rows: seq<Assignment>)
    requires forall i | 0 <= i < |rows| :: IsPollRow(rows[i])
    ensures ParseRows(SplitLines(JoinLines(RowTexts(rows)))) == Some(rows)
  {
    hide RowTexts, IsPollRow;
    RowsReadBack(rows);
    SplitUndoesJoin(RowTexts(rows));
  }

  // ----- The automaton -----

  datatype Phase =
    | Joining
    | Polling
    | Fetching(rows: seq<Assignment>, i: nat, consumedAny: bool)
    | Printing(rows: seq<Assignment>, i: nat, consumedAny: bool, text: string)
    | Committing(rows: seq<Assignment>, i: nat)
    | Leaving
    | Ended(code: int)

  datatype Process = Process(groupId: string, consumerId: string, topic: string, phase: Phase)

  predicate Sound(phase: Phase) {
    phase.Fetching? || phase.Printing? || phase.Committing? ==> phase.i < |phase.rows|
  }

  function FetchText(row: Assignment): string {
    "FETCH " + row.topic + " " + DecimalInt(row.partition) + " " + Decimal(row.offset)
  }

  function CommitText(groupId: string, consumerId: string, row: Assignment): string {
    "COMMIT " + groupId + " " + consumerId + " " + row.topic + " " + DecimalInt(row.partition) + " " + Decimal(row.offset)
  }

  // What the process sends next, when it is waiting for the broker.
  function RequestText(p: Process): string
    requires Sound(p.phase)
  {
    match p.phase
    case Joining => "JOIN " + p.groupId + " " + p.consumerId + " " + p.topic
    case Polling => "GROUP_POLL " + p.groupId + " " + p.consumerId
    case Fetching(rows, i, _) => FetchText(rows[i])
    case Committing(rows, i) => CommitText(p.groupId, p.consumerId, rows[i])
    case _ => "LEAVE " + p.groupId + " " + p.consumerId
  }

  // Where the loop over the assignments stands.
  function AtRow(rows: seq<Assignment>, i: nat, consumedAny: bool): (phase: Phase)
    ensures Sound(phase)
  {
    if i < |rows| then Fetching(rows, i, consumedAny) else if consumedAny then Polling else Leaving
  }

  // What a reply does; None is a connection that failed.
  function Heard(phase: Phase, reply: Option<string>): (next: Phase)
    requires Sound(phase)
    ensures Sound(next)
  {
    if reply.None? then Ended(1) else
    match phase
    case Joining => if reply.value == "OK" then Polling else Ended(1)
    case Polling =>
      if reply.value == "ERROR" then Leaving else
      (match ParseRows(SplitLines(reply.value))
       case None => Ended(1)
       case Some(rows) => AtRow(rows, 0, false))
    case Fetching(rows, i, any) =>
      if reply.value == "ERROR" then Leaving
      else if CountMessages(reply.value) == 0 then AtRow(rows, i + 1, any)
      else Printing(rows, i, any, reply.value)
    case Committing(rows, i) => if reply.value == "OK" then AtRow(rows, i + 1, true) else Leaving
    case Leaving => Ended(0)
    case _ => phase
  }

  // The messages have been printed: the offset moves past them.
  function PastPrinted(phase: Phase): (next: Phase)
    requires phase.Printing? && Sound(phase)
    ensures Sound(next)
  {
    var row := phase.rows[phase.i];
    Committing(phase.rows[phase.i := row.(offset := (row.offset + CountMessages(phase.text)) % TWO_TO_64)], phase.i)
  }

  // ----- The main loop -----

  // What the program does, in order: a request sent to the broker, or a text shown to the user.
  datatype Act = Sent(text: string) | Shown(text: string)

  // All that the program does, and its exit code.
  datatype Conversation = Conversation(acts: seq<Act>, code: int)

  // What goes to standard output on a reply.
  function Says(phase: Phase, reply: string): seq<Act> {
    match phase
    case Joining => if reply == "OK" then [] else [Shown(reply)]
    case Polling => if reply == "ERROR" then [Shown(reply)] else []
    case Fetching(_, _, _) => if reply == "ERROR" || CountMessages(reply) != 0 then [Shown(reply)] else []
    case Committing(_, _) => if reply == "OK" then [] else [Shown(reply)]
    case _ => []
  }

  // One reply heard, and printed if it holds messages.
  function After(phase: Phase, reply: Option<string>): (next: Phase)
    requires Sound(phase)
    ensures Sound(next) && (phase.Printing? || !next.Printing?)
  {
    var heard := Heard(phase, reply);
    if heard.Printing? && !phase.Printing? then PastPrinted(heard) else heard
  }

  // What the process still does, and how it exits: the connection fails when the replies run out.
  function Converse(p: Process, replies: seq<string>): Conversation
    requires Sound(p.phase)
    decreases |replies|
  {
    if p.phase.Ended? then Conversation([], p.phase.code)
    else if replies == [] then Conversation([Sent(RequestText(p))], 1)
    else
      var more := Converse(p.(phase := After(p.phase, Some(replies[0]))), replies[1..]);
      Conversation([Sent(RequestText(p))] + Says(p.phase, replies[0]) + more.acts, more.code)
  }

  predicate IsCommit(act: Act) {
    act.Sent? && |act.text| >= 7 && act.text[..7] == "COMMIT "
  }

  lemma OnlyCommittingCommits(p: Process)
    requires Sound(p.phase)
    ensures IsCommit(Sent(RequestText(p))) <==> p.phase.Committing?
  {
    var text := RequestText(p);
    if p.phase.Committing? {
      assert text[..7] == "COMMIT ";
    } else {
      assert text[0] != 'C';
    }
  }

  // How many messages the client takes a response for.
  function Counted(text: string): nat
    requires text != ""
  {
    |SplitLines(text)| + if text[|text| - 1] == '\n' then 1 else 0
  }

  // Act j commits, for the process, the row that was fetched two acts before, moved past the messages shown in between.
  ghost predicate CommitsShown(p: Process, acts: seq<Act>, j: nat) {
    2 <= j < |acts| && exists row: Assignment, text: string :: CommitsRow(p, acts, j, row, text)
  }

  predicate CommitsRow(p: Process, acts: seq<Act>, j: nat, row: Assignment, text: string)
    requires 2 <= j < |acts|
  {
    && text != "" && acts[j - 2] == Sent(FetchText(row)) && acts[j - 1] == Shown(text)
    && acts[j] == Sent(CommitText(p.groupId, p.consumerId, row.(offset := (row.offset + Counted(text)) % TWO_TO_64)))
  }

  /**
   The order and the arithmetic that delivery rests on: in every conversation a COMMIT follows the FETCH of a row and the response
   shown to the user, and its offset is the offset fetched plus the number of messages shown.
   */
  lemma {:induction false} CommitFollowsShown(p: Process, replies: seq<string>, j: nat)
    requires Sound(p.phase) && !p.phase.Printing?
    requires j < |Converse(p, replies).acts| && IsCommit(Converse(p, replies).acts[j])
    requires j == 0 ==> !p.phase.Committing?
    ensures CommitsShown(p, Converse(p, replies).acts, j)
    decreases |replies|
  {
    hide IsCommit, RequestText, After, CommitsShown;
    OnlyCommittingCommits(p);
    if j > 0 {
      var says, next := Says(p.phase, replies[0]), p.(phase := After(p.phase, Some(replies[0])));
      var acts, more := Converse(p, replies).acts, Converse(next, replies[1..]).acts;
      var head := [Sent(RequestText(p))] + says;
      assert acts == head + more;
      ShownIsNoCommit();
      ThenCommitting(p.phase, replies[0]);
      var k := j - |head|;
      if k > 0 || !next.phase.Committing? {
        assert more[k] == acts[j];
        CommitFollowsShown(next, replies[1..], k);
        CommitsShownLater(next, head, more, k);
        CommitsShownAnywhere(p, next, acts, j);
      } else {
        FirstCommit(p, replies, acts);
      }
    }
  }

  lemma CommitsShownLater(p: Process, head: seq<Act>, acts: seq<Act>, k: nat)
    requires CommitsShown(p, acts, k)
    ensures CommitsShown(p, head + acts, |head| + k)
  {
    hide FetchText, CommitText, Counted;
    var row: Assignment, text: string :| CommitsRow(p, acts, k, row, text);
    var all, j := head + acts, |head| + k;
    assert all[j - 2] == acts[k - 2] && all[j - 1] == acts[k - 1] && all[j] == acts[k];
    assert CommitsRow(p, all, j, row, text);
  }

  lemma CommitsShownAnywhere(p: Process, q: Process, acts: seq<Act>, j: nat)
    requires CommitsShown(q, acts, j) && p.groupId == q.groupId && p.consumerId == q.consumerId
    ensures CommitsShown(p, acts, j)
  {
    hide FetchText, CommitText, Counted;
    var row: Assignment, text: string :| CommitsRow(q, acts, j, row, text);
    assert CommitsRow(p, acts, j, row, text);
  }

  lemma FirstCommit(p: Process, replies: seq<string>, acts: seq<Act>)
    requires Sound(p.phase) && !p.phase.Printing? && !p.phase.Ended? && replies != [] && acts == Converse(p, replies).acts
    requires After(p.phase, Some(replies[0])).Committing?
    ensures |acts| > 2 && CommitsShown(p, acts, 2)
  {
    hide CountMessages, SplitLines, FetchText, CommitText;
    var row, text := p.phase.rows[p.phase.i], replies[0];
    var next := p.(phase := After(p.phase, Some(text)));
    var more := Converse(next, replies[1..]).acts;
    assert acts == [Sent(FetchText(row))] + [Shown(text)] + more;
    assert more[0] == Sent(RequestText(next));
    EmptyCount();
    CountOfAnyText(text);
    assert acts[1] == Shown(text) && acts[2] == more[0];
    assert CommitsRow(p, acts, 2, row, text);
  }

  lemma EmptyCount()
    ensures CountMessages("") == 0 && forall text | text != "" :: CountMessages(text) > 0
  {
  }

  lemma ShownIsNoCommit()
    ensures forall text :: !IsCommit(Shown(text))
  {
  }

  lemma ThenCommitting(phase: Phase, reply: string)
    requires Sound(phase) && !phase.Printing?
    ensures After(phase, Some(reply)).Committing? ==> Says(phase, reply) == [Shown(reply)]
    ensures Says(phase, reply) == [] || exists text :: Says(phase, reply) == [Shown(text)]
  {
    if Says(phase, reply) != [] {
      assert Says(phase, reply) == [Shown(reply)];
    }
  }

  // What the broker answers in a pass over some rows when it grants everything, each FETCH with its text.
  function Granted(texts: seq<string>): seq<string> {
    if texts == [] then [] else [texts[0]] + (if texts[0] == "" then [] else ["OK"]) + Granted(texts[1..])
  }

  // Every row is fetched, in order; what came is shown and committed before the next one.
  function PassActs(p: Process, rows: seq<Assignment>, texts: seq<string>): seq<Act>
    requires |rows| == |texts|
  {
    if rows == [] then [] else
    var row, text := rows[0], texts[0];
    [Sent(FetchText(row))]
    + (if text == "" then [] else
         [Shown(text), Sent(CommitText(p.groupId, p.consumerId, row.(offset := (row.offset + Counted(text)) % TWO_TO_64)))])
    + PassActs(p, rows[1..], texts[1..])
  }

  // Whether any message came.
  predicate Came(texts: seq<string>) {
    texts != [] && (texts[0] != "" || Came(texts[1..]))
  }

  /** A pass that is granted: it does exactly that, and the process polls again if a message came, and leaves if none did. */
  lemma {:induction false} GrantedPass(p: Process, rows: seq<Assignment>, i: nat, any: bool, texts: seq<string>, more: seq<string>)
    requires i + |texts| == |rows| && "ERROR" !in texts
    ensures var later := Converse(p.(phase := if any || Came(texts) then Polling else Leaving), more);
      Converse(p.(phase := AtRow(rows, i, any)), Granted(texts) + more)
      == Conversation(PassActs(p, rows[i..], texts) + later.acts, later.code)
    decreases |texts|
  {
    hide Converse, CountMessages, SplitLines, FetchText, CommitText, Counted, PassActs;
    if texts == [] {
      assert Granted(texts) + more == more;
      NoActs(p);
      assert rows[i..] == [];
      assert [] + Converse(p.(phase := AtRow(rows, i, any)), more).acts == Converse(p.(phase := AtRow(rows, i, any)), more).acts;
    } else {
      var text, rest := texts[0], Granted(texts[1..]) + more;
      assert texts == [text] + texts[1..];
      assert rows[i..][1..] == rows[i + 1..];
      var later := Converse(p.(phase := if any || Came(texts) then Polling else Leaving), more).acts;
      OneRow(p, rows[i..], texts, later);
      if text == "" {
        assert Granted(texts) + more == [text] + rest;
        FetchedNothing(p, rows, i, any, rest);
        GrantedPass(p, rows, i + 1, any, texts[1..], more);
      } else {
        var moved := rows[i := rows[i].(offset := (rows[i].offset + Counted(text)) % TWO_TO_64)];
        assert Granted(texts) + more == [text, "OK"] + rest;
        FetchedText(p, rows, i, any, text, rest);
        GrantedPass(p, moved, i + 1, true, texts[1..], more);
        assert moved[i + 1..] == rows[i + 1..];
      }
    }
  }

  lemma NoActs(p: Process)
    ensures PassActs(p, [], []) == []
  {
  }

  lemma OneRow(p: Process, rows: seq<Assignment>, texts: seq<string>, later: seq<Act>)
    requires |rows| == |texts| > 0
    ensures PassActs(p, rows, texts) + later ==
      (if texts[0] == "" then [Sent(FetchText(rows[0]))] else
       [Sent(FetchText(rows[0])), Shown(texts[0]),
        Sent(CommitText(p.groupId, p.consumerId, rows[0].(offset := (rows[0].offset + Counted(texts[0])) % TWO_TO_64)))])
      + (PassActs(p, rows[1..], texts[1..]) + later)
  {
    hide FetchText, CommitText, Counted;
  }

  lemma FetchedNothing(p: Process, rows: seq<Assignment>, i: nat, any: bool, rest: seq<string>)
    requires i < |rows|
    ensures var now, later := Converse(p.(phase := AtRow(rows, i, any)), [""] + rest), Converse(p.(phase := AtRow(rows, i + 1, any)), rest);
      now == Conversation([Sent(FetchText(rows[i]))] + later.acts, later.code)
  {
    hide FetchText, CountMessages;
    EmptyCount();
    assert ([""] + rest)[1..] == rest;
    var later := Converse(p.(phase := AtRow(rows, i + 1, any)), rest);
    assert [Sent(FetchText(rows[i]))] + [] + later.acts == [Sent(FetchText(rows[i]))] + later.acts;
  }

  lemma FetchedText(p: Process, rows: seq<Assignment>, i: nat, any: bool, text: string, rest: seq<string>)
    requires i < |rows| && text != "" && text != "ERROR"
    ensures var row := rows[i].(offset := (rows[i].offset + Counted(text)) % TWO_TO_64);
      var now, later := Converse(p.(phase := AtRow(rows, i, any)), [text, "OK"] + rest), Converse(p.(phase := AtRow(rows[i := row], i + 1, true)), rest);
      now == Conversation([Sent(FetchText(rows[i])), Shown(text), Sent(CommitText(p.groupId, p.consumerId, row))] + later.acts, later.code)
  {
    hide FetchText, CommitText, CountMessages, SplitLines;
    EmptyCount();
    CountOfAnyText(text);
    var row := rows[i].(offset := (rows[i].offset + Counted(text)) % TWO_TO_64);
    var middle := p.(phase := Committing(rows[i := row], i));
    var replies := [text, "OK"] + rest;
    assert replies[1..] == ["OK"] + rest && replies[1..][1..] == rest;
    var later := Converse(p.(phase := AtRow(rows[i := row], i + 1, true)), rest);
    CommittedOk(p, rows[i := row], i, rest);
    assert Converse(middle, ["OK"] + rest).acts == [Sent(CommitText(p.groupId, p.consumerId, row))] + later.acts;
    assert [Sent(FetchText(rows[i]))] + [Shown(text)] + ([Sent(CommitText(p.groupId, p.consumerId, row))] + later.acts)
        == [Sent(FetchText(rows[i])), Shown(text), Sent(CommitText(p.groupId, p.consumerId, row))] + later.acts;
  }

  lemma CommittedOk(p: Process, rows: seq<Assignment>, i: nat, rest: seq<string>)
    requires i < |rows|
    ensures var now, later := Converse(p.(phase := Committing(rows, i)), ["OK"] + rest), Converse(p.(phase := AtRow(rows, i + 1, true)), rest);
      now == Conversation([Sent(CommitText(p.groupId, p.consumerId, rows[i]))] + later.acts, later.code)
  {
    hide CommitText;
    assert (["OK"] + rest)[1..] == rest;
    var later := Converse(p.(phase := AtRow(rows, i + 1, true)), rest);
    assert [Sent(CommitText(p.groupId, p.consumerId, rows[i]))] + [] + later.acts == [Sent(CommitText(p.groupId, p.consumerId, rows[i]))] + later.acts;
  }

  // The conversation that leaves the group, when all but the answer to LEAVE has been said.
  function Farewell(p: Process, replies: seq<string>): Conversation {
    Conversation([Sent("LEAVE " + p.groupId + " " + p.consumerId)], if replies == [] then 1 else 0)
  }

  /**
   What a refusal does. Refused to join, the program shows the answer and exits with 1, having sent nothing else. Later, a refusal
   is shown and answered with LEAVE, and the exit code is 0 exactly when that is answered.
   */
  lemma Refusals(p: Process, reply: string, more: seq<string>)
    requires Sound(p.phase) && reply != "OK"
    ensures p.phase.Joining? ==>
      Converse(p, [reply] + more) == Conversation([Sent("JOIN " + p.groupId + " " + p.consumerId + " " + p.topic), Shown(reply)], 1)
    ensures p.phase.Committing? || (reply == "ERROR" && (p.phase.Polling? || p.phase.Fetching?)) ==>
      Converse(p, [reply] + more)
      == Conversation([Sent(RequestText(p)), Shown(reply)] + Farewell(p, more).acts, Farewell(p, more).code)
  {
    hide CountMessages, ParseRows, SplitLines, FetchText, CommitText;
    assert ([reply] + more)[1..] == more;
    var left := p.(phase := Leaving);
    Leaves(left, more);
    assert [Sent(RequestText(p))] + [Shown(reply)] + [] == [Sent(RequestText(p)), Shown(reply)];
    assert [Sent(RequestText(p))] + [Shown(reply)] + Farewell(p, more).acts == [Sent(RequestText(p)), Shown(reply)] + Farewell(p, more).acts;
  }

  /** What is granted outside a pass: joining leads to polling, and a poll to a pass over the rows it names; nothing of it is shown. */
  lemma Grants(p: Process, reply: string, more: seq<string>)
    requires (p.phase.Joining? && reply == "OK") || (p.phase.Polling? && reply != "ERROR")
    ensures var now := Converse(p, [reply] + more);
      if p.phase.Polling? && ParseRows(SplitLines(reply)).None? then now == Conversation([Sent(RequestText(p))], 1)
      else
        var later := Converse(p.(phase := if p.phase.Joining? then Polling else AtRow(ParseRows(SplitLines(reply)).value, 0, false)), more);
        now == Conversation([Sent(RequestText(p))] + later.acts, later.code)
  {
    hide ParseRows, SplitLines, FetchText, CommitText, CountMessages;
    assert ([reply] + more)[1..] == more;
    var later := Converse(p.(phase := After(p.phase, Some(reply))), more);
    assert [Sent(RequestText(p))] + [] + later.acts == [Sent(RequestText(p))] + later.acts;
    assert [Sent(RequestText(p))] + [] == [Sent(RequestText(p))];
  }

  /** A connection that fails ends the program where it is. */
  lemma Fails(p: Process)
    requires Sound(p.phase) && !p.phase.Ended? && !p.phase.Printing?
    ensures Converse(p, []) == Conversation([Sent(RequestText(p))], 1)
  {
  }

  lemma Leaves(p: Process, replies: seq<string>)
    requires p.phase.Leaving?
    ensures Converse(p, replies) == Farewell(p, replies)
  {
    if replies != [] {
      assert [Sent(RequestText(p))] + [] + [] == [Sent(RequestText(p))];
    }
  }

  // The connection to the broker: what it will answer, and what the program has sent and shown so far.
  class BrokerClient {
    var replies: seq<string>
    ghost var acts: seq<Act>

    method Request(text: string) returns (reply: Option<string>)
      modifies this
      ensures acts == old(acts) + [Sent(text)]
      ensures reply == if old(replies) == [] then None else Some(old(replies)[0])
      ensures replies == if old(replies) == [] then [] else old(replies)[1..]
    {
      acts := acts + [Sent(text)];
      reply := None;
      if replies != [] {
        reply, replies := Some(replies[0]), replies[1..];
      }
    }

    // std::cout
    method Print(text: string)
      modifies this`acts
      ensures acts == old(acts) + [Shown(text)]
    {
      acts := acts + [Shown(text)];
    }

    // What was done so far, what is about to be shown, and what the process p still does.
    ghost function Whole(p: Process, pending: seq<Act>): Conversation
      requires Sound(p.phase)
      reads this
    {
      var rest := Converse(p, replies);
      Conversation(acts + pending + rest.acts, rest.code)
    }
  }

  lemma ConverseOne(p: Process, acts: seq<Act>, replies: seq<string>)
    requires Sound(p.phase) && !p.phase.Ended? && replies != []
    ensures var now, later := Converse(p, replies), Converse(p.(phase := After(p.phase, Some(replies[0]))), replies[1..]);
      && acts + [] + now.acts == acts + [Sent(RequestText(p))] + Says(p.phase, replies[0]) + later.acts
      && now.code == later.code
  {
    hide RequestText, Says, After;
    var later := Converse(p.(phase := After(p.phase, Some(replies[0]))), replies[1..]);
    assert acts + [] + ([Sent(RequestText(p))] + Says(p.phase, replies[0]) + later.acts)
        == acts + [Sent(RequestText(p))] + Says(p.phase, replies[0]) + later.acts;
  }

  // One request; what its reply makes the process show is still to be printed.
  method Ask(client: BrokerClient, p: Process) returns (reply: Option<string>)
    requires Sound(p.phase) && !p.phase.Ended?
    modifies client
    ensures if reply.None? then client.replies == old(client.replies) else |client.replies| < |old(client.replies)|
    ensures var next := p.(phase := After(p.phase, reply));
      client.Whole(next, if reply.None? then [] else Says(p.phase, reply.value)) == old(client.Whole(p, []))
    ensures reply.None? ==> After(p.phase, reply) == Ended(1)
  {
    hide After, Says, RequestText;
    NoReply(p.phase);
    if client.replies != [] {
      ConverseOne(p, client.acts, client.replies);
    }
    reply := client.Request(RequestText(p));
    assert client.acts == old(client.acts) + [Sent(RequestText(p))];
  }

  lemma NoReply(phase: Phase)
    requires Sound(phase)
    ensures After(phase, None) == Ended(1)
  {
  }

  method Show(client: BrokerClient, text: string, ghost p: Process)
    requires Sound(p.phase)
    modifies client`acts
    ensures client.Whole(p, []) == old(client.Whole(p, [Shown(text)]))
  {
    hide Converse;
    client.Print(text);
    assert client.acts + [] == old(client.acts) + [Shown(text)];
  }

  lemma ConverseEnds(client: BrokerClient, p: Process)
    requires p.phase.Ended?
    ensures client.Whole(p, []) == Conversation(client.acts, p.phase.code)
  {
    assert client.acts + [] + [] == client.acts;
  }

  /** The program: what it sends and shows, in order, and its exit code are those of the automaton. */
  method Consume(client: BrokerClient, groupId: string, consumerId: string, topic: string) returns (code: int)
    modifies client
    ensures topic == "" || groupId == "" || consumerId == "" ==> code == 1 && client.acts == old(client.acts)
    ensures topic != "" && groupId != "" && consumerId != "" ==>
      Conversation(client.acts, code) == old(client.Whole(Process(groupId, consumerId, topic, Joining), []))
  {
    hide Converse, ParseRows, SplitLines, CountMessages;
    if topic == "" || groupId == "" || consumerId == "" {
      return 1;
    }
    var p := Process(groupId, consumerId, topic, Joining);
    ghost var failed := p.(phase := Ended(1));
    var reply := Ask(client, p);
    if reply.None? {
      ConverseEnds(client, failed);
      return 1;
    }
    if reply.value != "OK" {
      Show(client, reply.value, failed);
      ConverseEnds(client, failed);
      return 1;
    }
    p := p.(phase := Polling);
    while true
      invariant p.phase == Polling && p.(phase := Ended(1)) == failed
      invariant client.Whole(p, []) == old(client.Whole(Process(groupId, consumerId, topic, Joining), []))
      decreases |client.replies|
    {
      reply := Ask(client, p);
      if reply.None? {
        ConverseEnds(client, failed);
        return 1;
      }
      if reply.value == "ERROR" {
        Show(client, reply.value, p.(phase := Leaving));
        break;
      }
      var assignments := ParseAssignments(reply.value);
      if assignments.None? {
        ConverseEnds(client, failed);
        return 1;
      }
      if assignments.value == [] {
        break;
      }
      var threw, consumedAny := ConsumeRows(client, p, assignments.value);
      if threw {
        ConverseEnds(client, failed);
        return 1;
      }
      if !consumedAny {
        break;
      }
    }
    p := p.(phase := Leaving);
    reply := Ask(client, p);
    code := if reply.None? then 1 else 0;
    ConverseEnds(client, p.(phase := Ended(code)));
  }

  // One pass over the assignments; threw is an exception out of a request.
  method ConsumeRows(client: BrokerClient, process: Process, assignments: seq<Assignment>) returns (threw: bool, consumedAny: bool)
    modifies client
    ensures |client.replies| <= |old(client.replies)|
    ensures consumedAny ==> |client.replies| < |old(client.replies)|
    ensures client.Whole(process.(phase := if threw then Ended(1) else if consumedAny then Polling else Leaving), [])
         == old(client.Whole(process.(phase := AtRow(assignments, 0, false)), []))
  {
    hide Converse, CountMessages;
    threw, consumedAny := false, false;
    var rows := assignments;
    var i := 0;
    while i < |rows|
      invariant i <= |rows| && !threw
      invariant |client.replies| <= |old(client.replies)|
      invariant consumedAny ==> |client.replies| < |old(client.replies)|
      invariant client.Whole(process.(phase := AtRow(rows, i, consumedAny)), [])
             == old(client.Whole(process.(phase := AtRow(assignments, 0, false)), []))
    {
      var p := process.(phase := Fetching(rows, i, consumedAny));
      var fetched := Ask(client, p);
      if fetched.None? {
        return true, false;
      }
      if fetched.value == "ERROR" {
        Show(client, fetched.value, p.(phase := Leaving));
        return false, false;
      }
      var messageCount := CountMessages(fetched.value);
      if messageCount != 0 {
        rows := rows[i := rows[i].(offset := (rows[i].offset + messageCount) % TWO_TO_64)];
        p := p.(phase := Committing(rows, i));
        Show(client, fetched.value, p);
        var committed := Ask(client, p);
        if committed.None? {
          return true, false;
        }
        if committed.value != "OK" {
          Show(client, committed.value, p.(phase := Leaving));
          return false, false;
        }
        consumedAny := true;
      }
      i := i + 1;
    }
  }
}
