/**
 Delivery from the other side: a commit answered OK moves the group past exactly the messages that were printed,
 and a consumer that nobody disturbs prints no message of a partition twice.
 */
module Once {
  import opened Types
  import opened Text
  import opened Lines
  import opened Protocol
  import opened Framing
  import opened Rebalance
  import G = Groups
  import opened Store
  import opened Consumer
  import opened Delivery

  function Length(p: Printed): nat {
    |SplitLines(p.text)|
  }

  // ----- A commit takes the group past what was printed -----

  // The last response that a process printed.
  function LastBy(printed: seq<Printed>, k: nat): Option<Printed> {
    if printed == [] then None
    else if printed[|printed| - 1].k == k then Some(printed[|printed| - 1])
    else LastBy(printed[..|printed| - 1], k)
  }

  // A response about to be printed is of a size at which no offset wraps around.
  ghost predicate Bounded(phase: Phase) {
    phase.Printing? && phase.i < |phase.rows| ==> phase.rows[phase.i].offset <= LONG_LONG_MAX && |phase.text| <= MAX_PAYLOAD_SIZE
  }

  // A row about to be committed stands right behind what the process printed last.
  ghost predicate BehindPrint(printed: seq<Printed>, k: nat, p: Process) {
    p.phase.Committing? && p.phase.i < |p.phase.rows| ==>
      var row := p.phase.rows[p.phase.i];
      match LastBy(printed, k)
      case None => false
      case Some(last) => last.groupId == p.groupId && last.tp == RowKey(row) && row.offset == last.offset + Length(last)
  }

  ghost predicate Pending(w: World) {
    forall k | k in w.processes :: Bounded(w.processes[k].phase) && BehindPrint(w.printed, k, w.processes[k])
  }

  lemma {:induction false} CountBound(text: string)
    ensures CountMessages(text) <= |text| + 1
  {
    NewlinesBound(text);
  }

  lemma {:induction false} NewlinesBound(text: string)
    ensures CountNewlines(text) <= |text|
  {
    if text != "" {
      NewlinesBound(text[..|text| - 1]);
    }
  }

  lemma LastBySnoc(printed: seq<Printed>, p: Printed, k: nat)
    ensures LastBy(printed + [p], k) == if p.k == k then Some(p) else LastBy(printed, k)
  {
    assert (printed + [p])[..|printed|] == printed;
  }

  lemma HeardBounded(w: World, p: Process)
    requires ProcessOk(w.topics, w.printed, p) && !p.phase.Printing? && !p.phase.Ended?
    ensures Bounded(Heard(p.phase, Replied(Answer(w.topics, w.groups, Parse(RequestText(p))).text)))
    ensures !Heard(p.phase, Replied(Answer(w.topics, w.groups, Parse(RequestText(p))).text)).Committing?
  {
    hide Parse, IsToken, ParseRows, SplitLines, CountMessages, FromGroups, AllPrinted, Messages, Fetch, G.Poll, IsPollRow;
    if p.phase.Fetching? {
      var row := p.phase.rows[p.phase.i];
      assert RowOk(w.topics, w.printed, p.groupId, row);
      FetchReadsBack(row);
    }
  }

  lemma PrintBehind(topics: Topics, printed: seq<Printed>, k: nat, p: Process)
    requires ProcessOk(topics, printed, p) && p.phase.Printing? && Bounded(p.phase)
    ensures var row := p.phase.rows[p.phase.i]; var now := Printed(k, p.groupId, RowKey(row), row.offset, p.phase.text);
      BehindPrint(printed + [now], k, p.(phase := PastPrinted(p.phase)))
  {
    hide SplitLines, CountMessages, IsToken, RowsOk, Messages;
    var row := p.phase.rows[p.phase.i];
    CountBound(p.phase.text);
    LastBySnoc(printed, Printed(k, p.groupId, RowKey(row), row.offset, p.phase.text), k);
  }

  lemma PendingKeeps(w: World, step: Step)
    requires Inv(w) && Pending(w)
    ensures Pending(Next(w, step))
  {
    hide BrokerOk, Answer, Parse, ProcessOk, RequestText, Heard, PastPrinted, Sound, Bounded, BehindPrint, G.Remove, IsToken;
    var w' := Next(w, step);
    forall k | k in w'.processes
      ensures Bounded(w'.processes[k].phase) && BehindPrint(w'.printed, k, w'.processes[k])
    {
      PendingOne(w, step, k);
    }
  }

  lemma PendingOne(w: World, step: Step, k: nat)
    requires Inv(w) && Pending(w) && k in Next(w, step).processes
    ensures var w' := Next(w, step); Bounded(w'.processes[k].phase) && BehindPrint(w'.printed, k, w'.processes[k])
  {
    hide BrokerOk, Answer, Parse, ProcessOk, RequestText, Heard, PastPrinted, BehindPrint, Bounded, G.Remove, IsToken;
    if step.Turn? && step.k in w.processes {
      var p := w.processes[step.k];
      ProcessIsSound(w.topics, w.printed, p);
      if p.phase.Printing? {
        var row := p.phase.rows[p.phase.i];
        var now := Printed(step.k, p.groupId, RowKey(row), row.offset, p.phase.text);
        PrintBehind(w.topics, w.printed, step.k, p);
        PastIsBounded(p.phase);
        if k != step.k {
          StillBehind(w.printed, now, k, w.processes[k]);
        }
      } else if !p.phase.Ended? && k == step.k {
        HeardBounded(w, p);
        NotCommitting(w.printed, k, p.(phase := Heard(p.phase, Replied(Answer(w.topics, w.groups, Parse(RequestText(p))).text))));
      }
    } else if step.Start? && k !in w.processes {
      NotCommitting(w.printed, k, Process(step.groupId, step.consumerId, step.topic, Joining));
    }
  }

  lemma PastIsBounded(phase: Phase)
    requires phase.Printing? && Sound(phase)
    ensures Bounded(PastPrinted(phase))
  {
  }

  lemma StillBehind(printed: seq<Printed>, now: Printed, k: nat, p: Process)
    requires BehindPrint(printed, k, p) && now.k != k
    ensures BehindPrint(printed + [now], k, p)
  {
    LastBySnoc(printed, now, k);
  }

  lemma NotCommitting(printed: seq<Printed>, k: nat, p: Process)
    requires !p.phase.Committing?
    ensures BehindPrint(printed, k, p)
    ensures !p.phase.Printing? ==> Bounded(p.phase)
  {
  }

  lemma {:induction false} RunPending(steps: seq<Step>)
    ensures Pending(Run(steps))
  {
    hide Next, Inv, Pending;
    if steps == [] {
      NothingPending();
    } else {
      RunPending(steps[..|steps| - 1]);
      RunKeeps(steps[..|steps| - 1]);
      PendingKeeps(Run(steps[..|steps| - 1]), steps[|steps| - 1]);
    }
  }

  lemma NothingPending()
    ensures Pending(Run([]))
  {
  }

  /**
   In every run, a COMMIT of a consumer that is answered OK leaves the group's offset for the partition at the offset of the last
   response that consumer printed, plus the number of messages in it.
   */
  lemma CommitAdvances(steps: seq<Step>, k: nat)
    requires var w := Run(steps); k in w.processes && w.processes[k].phase.Committing? && Sound(w.processes[k].phase)
    requires var w := Run(steps); Answer(w.topics, w.groups, Parse(RequestText(w.processes[k]))).text == "OK"
    ensures var w := Run(steps); var g, groups := w.processes[k].groupId, Next(w, Turn(k)).groups;
      match LastBy(w.printed, k)
      case None => false
      case Some(last) =>
        && last.groupId == g && g in groups && last.tp in groups[g].committedOffsets
        && groups[g].committedOffsets[last.tp] == last.offset + Length(last)
  {
    hide Run, Parse, IsToken, SplitLines, BrokerOk, AllPrinted, Messages, IsPollRow, LastBy;
    RunKeeps(steps);
    RunPending(steps);
    var w := Run(steps);
    var p := w.processes[k];
    var row := p.phase.rows[p.phase.i];
    assert RowOk(w.topics, w.printed, p.groupId, row);
    CommitReadsBack(p.groupId, p.consumerId, row);
  }

  // ----- One consumer that nobody disturbs -----

  // Nothing but process k touches group g, and k runs on. Everything else may happen.
  ghost predicate Undisturbed(step: Step, g: string, k: nat) {
    match step
    case Start(j, h, _, _) => j == k <==> h == g
    case Die(j) => j != k
    case Other(raw) => Parse(raw).kind in {JOIN, LEAVE} ==> Parse(raw).groupId != g
    case Dropped(h, _) => h != g
    case Restart => false
    case Turn(_) => true
  }

  // Where the messages end that group g has printed of a partition.
  function DoneUpTo(printed: seq<Printed>, g: string, tp: TopicPartition): nat {
    if printed == [] then 0 else
    var last := printed[|printed| - 1];
    if last.groupId == g && last.tp == tp then last.offset + Length(last) else DoneUpTo(printed[..|printed| - 1], g, tp)
  }

  function Committed(groups: G.GroupTable, g: string, tp: TopicPartition): nat {
    if g in groups then GetOr(groups[g].committedOffsets, tp, 0) else 0
  }

  // Later responses of a partition start where earlier ones end, or behind.
  ghost predicate InOrder(printed: seq<Printed>, g: string) {
    forall a, b | 0 <= a < b < |printed| && printed[a].groupId == printed[b].groupId == g && printed[a].tp == printed[b].tp ::
      printed[a].offset + Length(printed[a]) <= printed[b].offset
  }

  ghost predicate Distinct(rows: seq<G.Assignment>) {
    forall a, b | 0 <= a < b < |rows| :: RowKey(rows[a]) != RowKey(rows[b])
  }

  // The rows from i on start where the group stopped printing.
  ghost predicate Ahead(printed: seq<Printed>, g: string, rows: seq<G.Assignment>, i: nat) {
    Distinct(rows) && forall j | i <= j < |rows| :: rows[j].offset == DoneUpTo(printed, g, RowKey(rows[j]))
  }

  ghost predicate Settled(groups: G.GroupTable, printed: seq<Printed>, g: string) {
    forall tp :: Committed(groups, g, tp) == DoneUpTo(printed, g, tp)
  }

  ghost predicate SettledBut(groups: G.GroupTable, printed: seq<Printed>, g: string, but: TopicPartition) {
    forall tp | tp != but :: Committed(groups, g, tp) == DoneUpTo(printed, g, tp)
  }

  ghost predicate PhaseSettled(groups: G.GroupTable, printed: seq<Printed>, g: string, phase: Phase) {
    match phase
    case Joining => g !in groups && Settled(groups, printed, g)
    case Polling => Settled(groups, printed, g)
    case Fetching(rows, i, _) => Settled(groups, printed, g) && Ahead(printed, g, rows, i)
    case Printing(rows, i, _, _) => Settled(groups, printed, g) && Ahead(printed, g, rows, i)
    case Committing(rows, i) => i < |rows| && SettledBut(groups, printed, g, RowKey(rows[i])) && Ahead(printed, g, rows, i)
    case _ => true
  }

  ghost predicate Alone(w: World, g: string, k: nat) {
    && (forall j | j in w.processes :: w.processes[j].groupId == g <==> j == k)
    && InOrder(w.printed, g)
    && PhaseSettled(w.groups, w.printed, g, if k in w.processes then w.processes[k].phase else Joining)
  }

  lemma {:induction false} DoneIsEnd(printed: seq<Printed>, g: string, a: nat)
    requires InOrder(printed, g) && a < |printed| && printed[a].groupId == g
    ensures printed[a].offset + Length(printed[a]) <= DoneUpTo(printed, g, printed[a].tp)
  {
    hide Length;
    var front, last := printed[..|printed| - 1], printed[|printed| - 1];
    if a < |front| && !(last.groupId == g && last.tp == printed[a].tp) {
      DoneIsEnd(front, g, a);
    }
  }

  lemma DoneSnoc(printed: seq<Printed>, now: Printed, g: string, tp: TopicPartition)
    ensures DoneUpTo(printed + [now], g, tp)
         == if now.groupId == g && now.tp == tp then now.offset + Length(now) else DoneUpTo(printed, g, tp)
  {
    assert (printed + [now])[..|printed|] == printed;
  }

  lemma InOrderSnoc(printed: seq<Printed>, now: Printed, g: string)
    requires InOrder(printed, g)
    requires now.groupId == g ==> now.offset == DoneUpTo(printed, g, now.tp)
    ensures InOrder(printed + [now], g)
  {
    hide Length;
    var more := printed + [now];
    forall a, b | 0 <= a < b < |more| && more[a].groupId == more[b].groupId == g && more[a].tp == more[b].tp
      ensures more[a].offset + Length(more[a]) <= more[b].offset
    {
      if b == |printed| {
        DoneIsEnd(printed, g, a);
      }
    }
  }

  // Nothing that others do to topics and groups matters.
  lemma SettledStays(groups: G.GroupTable, groups': G.GroupTable, printed: seq<Printed>, g: string, phase: Phase)
    requires PhaseSettled(groups, printed, g, phase)
    requires g in groups <==> g in groups'
    requires g in groups ==> groups[g] == groups'[g]
    ensures PhaseSettled(groups', printed, g, phase)
  {
    hide DoneUpTo;
    forall tp
      ensures Committed(groups', g, tp) == Committed(groups, g, tp)
    {
    }
  }

  lemma SettledPast(groups: G.GroupTable, printed: seq<Printed>, now: Printed, g: string, phase: Phase)
    requires PhaseSettled(groups, printed, g, phase) && now.groupId != g
    ensures PhaseSettled(groups, printed + [now], g, phase)
  {
    hide DoneUpTo, Committed;
    forall tp
      ensures DoneUpTo(printed + [now], g, tp) == DoneUpTo(printed, g, tp)
    {
      DoneSnoc(printed, now, g, tp);
    }
  }

  lemma OtherGroup(topics: Topics, groups: G.GroupTable, req: Request, g: string)
    requires req.kind in {JOIN, LEAVE, COMMIT} ==> req.groupId != g
    ensures var a := Answer(topics, groups, req);
      (g in a.groups <==> g in groups) && (g in groups ==> a.groups[g] == groups[g])
  {
    hide Assigned, Messages, HasPartition, WithTopic, Push, Fetch, G.Poll;
  }

  lemma RequestGroup(topics: Topics, printed: seq<Printed>, p: Process)
    requires ProcessOk(topics, printed, p) && !p.phase.Ended? && !p.phase.Printing?
    ensures var req := Parse(RequestText(p)); req.kind in {JOIN, LEAVE, COMMIT} ==> req.groupId == p.groupId
  {
    hide Parse, IsToken, AllPrinted, Messages, IsPollRow;
    match p.phase
    case Joining => JoinReadsBack(p.groupId, p.consumerId, p.topic);
    case Polling =>
      PairReadsBack("GROUP_POLL", p.groupId, p.consumerId);
      PollText(p);
    case Fetching(rows, i, _) =>
      assert RowOk(topics, printed, p.groupId, rows[i]);
      FetchReadsBack(rows[i]);
    case Committing(rows, i) =>
      assert RowOk(topics, printed, p.groupId, rows[i]);
      CommitReadsBack(p.groupId, p.consumerId, rows[i]);
    case Leaving =>
      PairReadsBack("LEAVE", p.groupId, p.consumerId);
      LeaveText(p);
  }

  lemma OneJoins(w: World, p: Process)
    requires IsToken(p.groupId) && IsToken(p.consumerId) && IsToken(p.topic) && p.phase.Joining?
    requires PhaseSettled(w.groups, w.printed, p.groupId, Joining)
    ensures var a := Answer(w.topics, w.groups, Parse(RequestText(p)));
      PhaseSettled(a.groups, w.printed, p.groupId, Heard(Joining, Replied(a.text)))
  {
    hide Parse, IsToken, Assigned, DoneUpTo, HasPartition;
    JoinReadsBack(p.groupId, p.consumerId, p.topic);
  }

  lemma OnePolls(w: World, p: Process)
    requires BrokerOk(w.topics, w.groups, w.printed) && ProcessOk(w.topics, w.printed, p) && p.phase.Polling?
    requires PhaseSettled(w.groups, w.printed, p.groupId, Polling)
    ensures var a := Answer(w.topics, w.groups, Parse(RequestText(p)));
      a.groups == w.groups && PhaseSettled(w.groups, w.printed, p.groupId, Heard(Polling, Replied(a.text)))
  {
    hide Parse, IsToken, MessagesOk, CommitsPrinted, ParseRows, SplitLines, DoneUpTo, G.Poll, Assigned;
    PairReadsBack("GROUP_POLL", p.groupId, p.consumerId);
    PollText(p);
    if p.groupId in w.groups && p.consumerId in w.groups[p.groupId].members {
      PolledOk(w.topics, w.groups, w.printed, p.groupId, p.consumerId);
      RowsDistinct(w.groups, p.groupId, p.consumerId);
    } else {
      PollError(w.groups, p.groupId, p.consumerId);
    }
  }

  lemma RowsDistinct(groups: G.GroupTable, g: string, c: string)
    requires G.TableOk(groups) && g in groups && c in groups[g].members
    ensures Distinct(G.PollRows(groups[g], c))
    ensures forall row | row in G.PollRows(groups[g], c) :: row.offset == Committed(groups, g, RowKey(row))
  {
    hide Assigned;
    AssignedIsOwnTopic(Subscriptions(groups[g].members), c);
  }

  lemma OneFetches(w: World, p: Process)
    requires ProcessOk(w.topics, w.printed, p) && p.phase.Fetching?
    requires PhaseSettled(w.groups, w.printed, p.groupId, p.phase)
    ensures var a := Answer(w.topics, w.groups, Parse(RequestText(p)));
      a.groups == w.groups && PhaseSettled(w.groups, w.printed, p.groupId, Heard(p.phase, Replied(a.text)))
  {
    hide Parse, IsToken, CountMessages, DoneUpTo, Committed, Fetch, AllPrinted, IsPollRow;
    var row := p.phase.rows[p.phase.i];
    assert RowOk(w.topics, w.printed, p.groupId, row);
    FetchReadsBack(row);
  }

  lemma OneCommits(w: World, p: Process)
    requires ProcessOk(w.topics, w.printed, p) && p.phase.Committing?
    requires PhaseSettled(w.groups, w.printed, p.groupId, p.phase)
    ensures var a := Answer(w.topics, w.groups, Parse(RequestText(p)));
      PhaseSettled(a.groups, w.printed, p.groupId, Heard(p.phase, Replied(a.text)))
  {
    hide Parse, IsToken, DoneUpTo, AllPrinted, IsPollRow, HasPartition;
    var row := p.phase.rows[p.phase.i];
    assert RowOk(w.topics, w.printed, p.groupId, row);
    CommitReadsBack(p.groupId, p.consumerId, row);
  }

  lemma OnePrints(w: World, k: nat, p: Process)
    requires ProcessOk(w.topics, w.printed, p) && p.phase.Printing? && Bounded(p.phase)
    requires PhaseSettled(w.groups, w.printed, p.groupId, p.phase) && InOrder(w.printed, p.groupId)
    ensures var row := p.phase.rows[p.phase.i];
      var more := w.printed + [Printed(k, p.groupId, RowKey(row), row.offset, p.phase.text)];
      InOrder(more, p.groupId) && PhaseSettled(w.groups, more, p.groupId, PastPrinted(p.phase))
  {
    hide IsToken, DoneUpTo, Committed, SplitLines, CountMessages, RowsOk, Messages, InOrder;
    var row := p.phase.rows[p.phase.i];
    var now := Printed(k, p.groupId, RowKey(row), row.offset, p.phase.text);
    CountBound(p.phase.text);
    InOrderSnoc(w.printed, now, p.groupId);
    forall tp
      ensures DoneUpTo(w.printed + [now], p.groupId, tp) == if tp == now.tp then now.offset + Length(now) else DoneUpTo(w.printed, p.groupId, tp)
    {
      DoneSnoc(w.printed, now, p.groupId, tp);
    }
    PastRows(p.phase);
  }

  lemma PastRows(phase: Phase)
    requires phase.Printing? && Sound(phase)
    requires phase.rows[phase.i].offset + CountMessages(phase.text) < TWO_TO_64
    ensures var past := PastPrinted(phase);
      && past.Committing? && past.i == phase.i && |past.rows| == |phase.rows|
      && past.rows[past.i].offset == phase.rows[phase.i].offset + CountMessages(phase.text)
      && (forall j | 0 <= j < |past.rows| :: RowKey(past.rows[j]) == RowKey(phase.rows[j]))
      && forall j | 0 <= j < |past.rows| && j != past.i :: past.rows[j] == phase.rows[j]
  {
    hide CountMessages;
  }

  lemma OwnTurn(w: World, g: string, k: nat)
    requires Inv(w) && Pending(w) && Alone(w, g, k) && k in w.processes
    ensures Alone(TakeTurn(w, k), g, k)
  {
    hide BrokerOk, Answer, Parse, ProcessOk, RequestText, Heard, PastPrinted, Bounded, BehindPrint, InOrder, PhaseSettled;
    var p := w.processes[k];
    ProcessIsSound(w.topics, w.printed, p);
    if p.phase.Printing? {
      OnePrints(w, k, p);
    } else if !p.phase.Ended? {
      OneAsks(w, p);
    }
  }

  lemma OneAsks(w: World, p: Process)
    requires BrokerOk(w.topics, w.groups, w.printed) && ProcessOk(w.topics, w.printed, p)
    requires !p.phase.Printing? && !p.phase.Ended? && PhaseSettled(w.groups, w.printed, p.groupId, p.phase)
    ensures var a := Answer(w.topics, w.groups, Parse(RequestText(p)));
      PhaseSettled(a.groups, w.printed, p.groupId, Heard(p.phase, Replied(a.text)))
  {
    hide BrokerOk, Answer, Parse, RequestText, Heard, PhaseSettled, PhaseOk, IsToken;
    match p.phase
    case Joining => OneJoins(w, p);
    case Polling => OnePolls(w, p);
    case Fetching(_, _, _) => OneFetches(w, p);
    case Committing(_, _) => OneCommits(w, p);
    case Leaving => LeavingEnds(w, p);
  }

  lemma LeavingEnds(w: World, p: Process)
    requires p.phase.Leaving?
    ensures var a := Answer(w.topics, w.groups, Parse(RequestText(p)));
      PhaseSettled(a.groups, w.printed, p.groupId, Heard(p.phase, Replied(a.text)))
  {
  }

  lemma OthersTurn(w: World, g: string, k: nat, j: nat)
    requires Inv(w) && Alone(w, g, k) && j in w.processes && j != k
    ensures Alone(TakeTurn(w, j), g, k)
  {
    hide BrokerOk, Answer, Parse, ProcessOk, RequestText, Heard, PastPrinted, InOrder, PhaseSettled;
    var p := w.processes[j];
    var phase := if k in w.processes then w.processes[k].phase else Joining;
    ProcessIsSound(w.topics, w.printed, p);
    if p.phase.Printing? {
      var row := p.phase.rows[p.phase.i];
      var now := Printed(j, p.groupId, RowKey(row), row.offset, p.phase.text);
      InOrderSnoc(w.printed, now, g);
      SettledPast(w.groups, w.printed, now, g, phase);
    } else if !p.phase.Ended? {
      RequestGroup(w.topics, w.printed, p);
      OtherGroup(w.topics, w.groups, Parse(RequestText(p)), g);
      SettledStays(w.groups, Answer(w.topics, w.groups, Parse(RequestText(p))).groups, w.printed, g, phase);
    }
  }

  lemma AloneKeeps(w: World, step: Step, g: string, k: nat)
    requires Inv(w) && Pending(w) && Alone(w, g, k) && Undisturbed(step, g, k)
    ensures Alone(Next(w, step), g, k)
  {
    hide Inv, Pending, Answer, Parse, TakeTurn, InOrder, PhaseSettled, G.Remove, IsToken;
    var phase := if k in w.processes then w.processes[k].phase else Joining;
    match step
    case Start(_, _, _, _) =>
    case Turn(j) =>
      if j in w.processes {
        if j == k { OwnTurn(w, g, k); } else { OthersTurn(w, g, k, j); }
      }
    case Die(_) =>
    case Other(raw) =>
      if Parse(raw).kind != COMMIT {
        OtherGroup(w.topics, w.groups, Parse(raw), g);
        SettledStays(w.groups, Answer(w.topics, w.groups, Parse(raw)).groups, w.printed, g, phase);
      }
    case Dropped(h, c) =>
      RemovedOther(w.groups, h, c, g);
      SettledStays(w.groups, G.Remove(w.groups, h, c), w.printed, g, phase);
  }

  lemma RemovedOther(groups: G.GroupTable, h: string, c: string, g: string)
    requires h != g
    ensures var groups' := G.Remove(groups, h, c); (g in groups <==> g in groups') && (g in groups ==> groups[g] == groups'[g])
  {
    hide Assigned;
  }

  lemma {:induction false} RunAlone(steps: seq<Step>, g: string, k: nat)
    requires forall i | 0 <= i < |steps| :: Undisturbed(steps[i], g, k)
    ensures Alone(Run(steps), g, k)
  {
    hide Next, Inv, Pending, Alone, Undisturbed;
    if steps == [] {
      NobodyYet(g, k);
    } else {
      var front := steps[..|steps| - 1];
      RunAlone(front, g, k);
      RunKeeps(front);
      RunPending(front);
      AloneKeeps(Run(front), steps[|steps| - 1], g, k);
    }
  }

  lemma NobodyYet(g: string, k: nat)
    ensures Alone(Run([]), g, k)
  {
  }

  /**
   In every run in which nobody but one running consumer touches its group, whatever producers and other groups do: any two
   responses it prints of a partition hold different messages, the later one only later ones.
   */
  lemma NoMessageTwice(steps: seq<Step>, g: string, k: nat, a: nat, b: nat)
    requires forall i | 0 <= i < |steps| :: Undisturbed(steps[i], g, k)
    requires a < b < |Run(steps).printed|
    requires var printed := Run(steps).printed; printed[a].groupId == printed[b].groupId == g && printed[a].tp == printed[b].tp
    ensures var printed := Run(steps).printed; printed[a].offset + |SplitLines(printed[a].text)| <= printed[b].offset
  {
    hide Run, Undisturbed, PhaseSettled, SplitLines;
    RunAlone(steps, g, k);
  }
}
