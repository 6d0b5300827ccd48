/**
 Consumer groups as broker.cpp keeps them: JOIN, LEAVE, disconnect, COMMIT and GROUP_POLL on a table of
 groups, and what holds of the table after any history of them.
 */
module Groups {
  import opened Types
  import opened Text
  import opened Lines
  import opened Rebalance

  type GroupTable = map<string, ConsumerGroup>

  datatype GroupReply = GroupReply(groups: GroupTable, text: string)

  function Join(groups: GroupTable, g: string, c: string, topic: string): GroupReply {
    var group := GetOr(groups, g, ConsumerGroup(g, map[], map[]));
    if c in group.members then GroupReply(groups, "ERROR")
    else GroupReply(groups[g := Rebalanced(group.(members := group.members[c := GroupMember(c, topic, [])]))], "OK")
  }

  // What both ways out of a group do with the members that stay.
  function Without(groups: GroupTable, g: string, c: string): GroupTable
    requires g in groups
  {
    var group := groups[g].(members := groups[g].members - {c});
    if group.members == map[] then groups - {g} else groups[g := Rebalanced(group)]
  }

  function Leave(groups: GroupTable, g: string, c: string): GroupReply {
    if g !in groups || c !in groups[g].members then GroupReply(groups, "ERROR") else GroupReply(Without(groups, g, c), "OK")
  }

  // remove_consumer_from_group
  function Remove(groups: GroupTable, g: string, c: string): GroupTable {
    if g in groups then Without(groups, g, c) else groups
  }

  // known: the topic exists on this broker and has the partition
  function Commit(groups: GroupTable, g: string, c: string, tp: TopicPartition, offset: nat, known: bool): GroupReply {
    if g !in groups || c !in groups[g].members || !known then GroupReply(groups, "ERROR")
    else GroupReply(groups[g := groups[g].(committedOffsets := groups[g].committedOffsets[tp := offset])], "OK")
  }

  datatype Assignment = Assignment(topic: string, partition: int, offset: nat)

  function PollRows(group: ConsumerGroup, c: string): (rows: seq<Assignment>)
    requires c in group.members
  {
    var a := group.members[c].assignments;
    seq(|a|, i requires 0 <= i < |a| => Assignment(a[i].topic, a[i].partition, GetOr(group.committedOffsets, a[i], 0)))
  }

  function RowText(row: Assignment): string {
    row.topic + " " + DecimalInt(row.partition) + " " + Decimal(row.offset)
  }

  function RowTexts(rows: seq<Assignment>): (texts: seq<string>)
    ensures |texts| == |rows|
  {
    seq(|rows|, i requires 0 <= i < |rows| => RowText(rows[i]))
  }

  function Poll(groups: GroupTable, g: string, c: string): string {
    if g !in groups || c !in groups[g].members then "ERROR" else JoinLines(RowTexts(PollRows(groups[g], c)))
  }

  // A row as it goes over the wire.
  lemma RowExample()
    ensures RowText(Assignment("orders", 2, 130)) == "orders 2 130"
  {
    assert Decimal(13) == "13" && Decimal(130) == "130";
  }

  // ----- The invariant of the table -----

  ghost predicate GroupOk(g: string, group: ConsumerGroup) {
    && group.groupId == g && group.members != map[]
    && (forall c | c in group.members :: group.members[c].consumerId == c)
    && IsBalanced(group)
  }

  /** No group is empty, and every assignment is the one the current subscriptions give. */
  ghost predicate TableOk(groups: GroupTable) {
    forall g | g in groups :: GroupOk(g, groups[g])
  }

  lemma JoinKeeps(groups: GroupTable, g: string, c: string, topic: string)
    requires TableOk(groups)
    ensures TableOk(Join(groups, g, c, topic).groups)
  {
    hide IsBalanced;
    var group := GetOr(groups, g, ConsumerGroup(g, map[], map[]));
    var joined := group.(members := group.members[c := GroupMember(c, topic, [])]);
    RebalancedIsBalanced(joined);
    assert c in Rebalanced(joined).members;
  }

  lemma WithoutKeeps(groups: GroupTable, g: string, c: string)
    requires TableOk(groups) && g in groups
    ensures TableOk(Without(groups, g, c))
  {
    hide IsBalanced;
    var group := groups[g].(members := groups[g].members - {c});
    RebalancedIsBalanced(group);
    if group.members != map[] {
      var d :| d in group.members;
      assert d in Rebalanced(group).members;
    }
  }

  // ----- Histories -----

  datatype Event =
    | Joined(g: string, c: string, topic: string)
    | Left(g: string, c: string)
    | Disconnected(g: string, c: string)
    | Committed(g: string, c: string, tp: TopicPartition, offset: nat, known: bool)

  function Step(groups: GroupTable, e: Event): GroupTable {
    match e
    case Joined(g, c, topic) => Join(groups, g, c, topic).groups
    case Left(g, c) => Leave(groups, g, c).groups
    case Disconnected(g, c) => Remove(groups, g, c)
    case Committed(g, c, tp, offset, known) => Commit(groups, g, c, tp, offset, known).groups
  }

  function Run(events: seq<Event>): GroupTable {
    if events == [] then map[] else Step(Run(events[..|events| - 1]), events[|events| - 1])
  }

  lemma StepKeeps(groups: GroupTable, e: Event)
    requires TableOk(groups)
    ensures TableOk(Step(groups, e))
  {
    match e
    case Joined(g, c, topic) => JoinKeeps(groups, g, c, topic);
    case Left(g, c) => if g in groups { WithoutKeeps(groups, g, c); }
    case Disconnected(g, c) => if g in groups { WithoutKeeps(groups, g, c); }
    case Committed(_, _, _, _, _) =>
  }

  lemma {:induction false} RunKeeps(events: seq<Event>)
    ensures TableOk(Run(events))
  {
    hide TableOk, Step;
    if events == [] {
      EmptyOk();
    } else {
      RunKeeps(events[..|events| - 1]);
      StepKeeps(Run(events[..|events| - 1]), events[|events| - 1]);
    }
  }

  lemma EmptyOk()
    ensures TableOk(map[])
  {
  }

  /** After any history every partition of every topic subscribed to in a group has exactly one owner, a subscriber; owners are balanced. */
  lemma CoverAfterHistory(events: seq<Event>, g: string, c: string, partition: nat)
    requires g in Run(events) && c in Run(events)[g].members && partition < PARTITION_COUNT
    ensures var members := Run(events)[g].members; var tp := TopicPartition(members[c].topic, partition);
      && (exists o :: HoldsAlone(members, o, tp))
      && (forall o | o in members && tp in members[o].assignments :: members[o].topic == tp.topic)
      && (forall d | d in members && members[d].topic == members[c].topic :: -1 <= |members[c].assignments| - |members[d].assignments| <= 1)
  {
    hide Step, Assigned, Owns;
    RunKeeps(events);
    var members := Run(events)[g].members;
    var subs, tp := Subscriptions(members), TopicPartition(members[c].topic, partition);
    assert c in Peers(subs, tp.topic);
    ExactCover(subs, tp.topic, partition);
    var o :| OwnsAlone(subs, o, tp);
    forall d | d in members
      ensures tp in members[d].assignments <==> Owns(subs, d, tp)
      ensures tp in members[d].assignments ==> members[d].topic == tp.topic
    {
      OwnsIs(subs, d, tp);
      InAssigned(subs, d, tp);
    }
    OwnsIs(subs, o, tp);
    assert HoldsAlone(members, o, tp);
    forall d | d in members && members[d].topic == members[c].topic
      ensures -1 <= |members[c].assignments| - |members[d].assignments| <= 1
    {
      Balanced(subs, c, d);
    }
  }

  ghost predicate HoldsAlone(members: map<string, GroupMember>, o: string, tp: TopicPartition) {
    && o in members && tp in members[o].assignments
    && forall d | d in members && tp in members[d].assignments :: d == o
  }

  lemma OwnsIs(subs: map<string, string>, c: string, tp: TopicPartition)
    ensures Owns(subs, c, tp) <==> c in subs && tp in Assigned(subs, c)
  {
  }

  /** Assignments depend on who is subscribed to what now, and on nothing else in the history. */
  lemma AssignmentsForgetHistory(one: seq<Event>, other: seq<Event>, g: string, c: string)
    requires g in Run(one) && g in Run(other)
    requires Subscriptions(Run(one)[g].members) == Subscriptions(Run(other)[g].members)
    requires c in Run(one)[g].members
    ensures c in Run(other)[g].members && Run(one)[g].members[c].assignments == Run(other)[g].members[c].assignments
  {
    hide Step, Assigned;
    RunKeeps(one);
    RunKeeps(other);
    assert c in Subscriptions(Run(one)[g].members);
  }

  // ----- Answers -----

  predicate IsIn(groups: GroupTable, g: string, c: string) {
    g in groups && c in groups[g].members
  }

  /** JOIN is answered OK exactly for a consumer that was not a member; then it is one, with that topic. Refused, it changes nothing. */
  lemma JoinAnswers(groups: GroupTable, g: string, c: string, topic: string)
    ensures var r := Join(groups, g, c, topic);
      && (r.text == "OK" <==> !IsIn(groups, g, c))
      && (r.text == "OK" ==> IsIn(r.groups, g, c) && r.groups[g].members[c].topic == topic)
      && (r.text != "OK" ==> r == GroupReply(groups, "ERROR"))
      && (forall h, d | (h, d) != (g, c) :: IsIn(r.groups, h, d) <==> IsIn(groups, h, d))
  {
    hide Assigned, Subscriptions;
  }

  /** LEAVE is answered OK exactly for a member; then it is none. Refused, it changes nothing. */
  lemma LeaveAnswers(groups: GroupTable, g: string, c: string)
    ensures var r := Leave(groups, g, c);
      && (r.text == "OK" <==> IsIn(groups, g, c))
      && (r.text == "OK" ==> !IsIn(r.groups, g, c))
      && (r.text != "OK" ==> r == GroupReply(groups, "ERROR"))
  {
    hide Assigned, Subscriptions;
  }

  /** COMMIT is answered OK exactly for a member and an existing partition; then the offset is stored. Refused, it changes nothing. */
  lemma CommitAnswers(groups: GroupTable, g: string, c: string, tp: TopicPartition, offset: nat, known: bool)
    ensures var r := Commit(groups, g, c, tp, offset, known);
      && (r.text == "OK" <==> IsIn(groups, g, c) && known)
      && (r.text == "OK" ==> g in r.groups && GetOr(r.groups[g].committedOffsets, tp, offset + 1) == offset)
      && (r.text != "OK" ==> r == GroupReply(groups, "ERROR"))
      && (forall h, d :: IsIn(r.groups, h, d) <==> IsIn(groups, h, d))
  {
  }

  // The topic a consumer is subscribed to in a group, by what was asked alone.
  function Subscribed(events: seq<Event>, g: string, c: string): Option<string> {
    if events == [] then None else
    var before := Subscribed(events[..|events| - 1], g, c);
    match events[|events| - 1]
    case Joined(h, d, topic) => if h == g && d == c && before.None? then Some(topic) else before
    case Left(h, d) => if h == g && d == c then None else before
    case Disconnected(h, d) => if h == g && d == c then None else before
    case Committed(_, _, _, _, _) => before
  }

  lemma WithoutIsIn(groups: GroupTable, g: string, c: string, h: string, d: string)
    requires g in groups
    ensures IsIn(Without(groups, g, c), h, d) <==> IsIn(groups, h, d) && (h, d) != (g, c)
    ensures IsIn(Without(groups, g, c), h, d) ==> Without(groups, g, c)[h].members[d].topic == groups[h].members[d].topic
  {
    hide Assigned, Subscriptions;
    var left := groups[g].members - {c};
    if h == g && d in left {
      assert left != map[];
    }
  }

  /** After any history the members of a group, and their topics, are those that the requests subscribed. */
  lemma {:induction false} MembersAreSubscribed(events: seq<Event>, g: string, c: string)
    ensures Subscribed(events, g, c)
         == if IsIn(Run(events), g, c) then Some(Run(events)[g].members[c].topic) else None
  {
    if events != [] {
      var front, e := events[..|events| - 1], events[|events| - 1];
      MembersAreSubscribed(front, g, c);
      StepSubscribes(Run(front), e, g, c);
      hide Step;
    }
  }

  lemma StepSubscribes(groups: GroupTable, e: Event, g: string, c: string)
    ensures var before := if IsIn(groups, g, c) then Some(groups[g].members[c].topic) else None;
      var after := if IsIn(Step(groups, e), g, c) then Some(Step(groups, e)[g].members[c].topic) else None;
      after == match e
        case Joined(h, d, topic) => if h == g && d == c && before.None? then Some(topic) else before
        case Left(h, d) => if h == g && d == c then None else before
        case Disconnected(h, d) => if h == g && d == c then None else before
        case Committed(_, _, _, _, _) => before
  {
    hide Assigned, Subscriptions, Without;
    if (e.Left? || e.Disconnected?) && e.g in groups {
      WithoutIsIn(groups, e.g, e.c, g, c);
    }
  }

  /** A group exists exactly while somebody is subscribed in it. */
  lemma GroupsAreSubscribed(events: seq<Event>, g: string)
    ensures g in Run(events) <==> exists c :: Subscribed(events, g, c).Some?
  {
    hide Run, Subscribed, IsBalanced;
    RunKeeps(events);
    if g in Run(events) {
      var c :| c in Run(events)[g].members;
      MembersAreSubscribed(events, g, c);
      assert Subscribed(events, g, c).Some?;
    }
    if c :| Subscribed(events, g, c).Some? {
      MembersAreSubscribed(events, g, c);
    }
  }

  /** What every client is told, by the requests alone. */
  lemma AnswersAreTrue(events: seq<Event>, g: string, c: string, topic: string, tp: TopicPartition, offset: nat, known: bool)
    ensures var groups, member := Run(events), Subscribed(events, g, c).Some?;
      && Join(groups, g, c, topic).text == (if member then "ERROR" else "OK")
      && Leave(groups, g, c).text == (if member then "OK" else "ERROR")
      && Commit(groups, g, c, tp, offset, known).text == (if member && known then "OK" else "ERROR")
      && (Poll(groups, g, c) == "ERROR" <==> !member)
  {
    hide Run, Subscribed, PollRows;
    MembersAreSubscribed(events, g, c);
    JoinAnswers(Run(events), g, c, topic);
    LeaveAnswers(Run(events), g, c);
    CommitAnswers(Run(events), g, c, tp, offset, known);
    if IsIn(Run(events), g, c) {
      RowsAreNoError(PollRows(Run(events)[g], c));
    }
  }

  lemma RowsAreNoError(rows: seq<Assignment>)
    ensures JoinLines(RowTexts(rows)) != "ERROR"
  {
    if rows != [] {
      var texts := RowTexts(rows);
      var last := texts[|texts| - 1];
      var row := rows[|rows| - 1];
      assert last == RowText(row) && last[|row.topic|] == ' ';
      hide RowText, RowTexts;
      JoinEnds(texts);
      var text := JoinLines(texts);
      assert text[|text| - |last|..][|row.topic|] == ' ';
    }
  }

  lemma JoinEnds(lines: seq<string>)
    requires lines != []
    ensures var text, last := JoinLines(lines), lines[|lines| - 1]; |last| <= |text| && text[|text| - |last|..] == last
  {
  }

  // ----- Committed offsets -----

  // A COMMIT that its client was told is kept.
  ghost predicate Commits(groups: GroupTable, e: Event, g: string, tp: TopicPartition) {
    e.Committed? && e.g == g && e.tp == tp && Commit(groups, e.g, e.c, e.tp, e.offset, e.known).text == "OK"
  }

  // The last COMMIT answered OK for this group and partition since the group last came into being.
  ghost function LastCommit(events: seq<Event>, g: string, tp: TopicPartition): Option<nat> {
    if events == [] || g !in Run(events) then None else
    var front, e := events[..|events| - 1], events[|events| - 1];
    if Commits(Run(front), e, g, tp) then Some(e.offset) else LastCommit(front, g, tp)
  }

  /** The table holds exactly the last commit, whichever member made it and whatever rebalances came since. */
  lemma {:induction false} TableHoldsLastCommit(events: seq<Event>, g: string, tp: TopicPartition)
    requires g in Run(events)
    ensures var offsets := Run(events)[g].committedOffsets;
      LastCommit(events, g, tp) == if tp in offsets then Some(offsets[tp]) else None
  {
    var front, e := events[..|events| - 1], events[|events| - 1];
    hide Run, Step, Commits;
    RunUnfold(events);
    if g in Run(front) {
      TableHoldsLastCommit(front, g, tp);
    }
    OffsetsAfter(Run(front), e, g, tp);
  }

  function OffsetIn(group: ConsumerGroup, tp: TopicPartition): Option<nat> {
    if tp in group.committedOffsets then Some(group.committedOffsets[tp]) else None
  }

  lemma OffsetsAfter(groups: GroupTable, e: Event, g: string, tp: TopicPartition)
    requires g in Step(groups, e)
    ensures OffsetIn(Step(groups, e)[g], tp)
         == if Commits(groups, e, g, tp) then Some(e.offset) else if g in groups then OffsetIn(groups[g], tp) else None
  {
    hide Rebalanced;
    RebalancedOffsets();
  }

  lemma RunUnfold(events: seq<Event>)
    ensures events == [] ==> Run(events) == map[]
    ensures events != [] ==> Run(events) == Step(Run(events[..|events| - 1]), events[|events| - 1])
  {
  }

  lemma RebalancedOffsets()
    ensures forall group :: Rebalanced(group).committedOffsets == group.committedOffsets && Rebalanced(group).groupId == group.groupId
  {
  }

  /** What GROUP_POLL prints for each assigned partition: its last commit, or 0. */
  lemma PollPrintsLastCommit(events: seq<Event>, g: string, c: string, i: nat)
    requires g in Run(events) && c in Run(events)[g].members
    requires i < |Run(events)[g].members[c].assignments|
    ensures var tp := Run(events)[g].members[c].assignments[i];
      PollRows(Run(events)[g], c)[i] ==
      Assignment(tp.topic, tp.partition, match LastCommit(events, g, tp) case Some(offset) => offset case None => 0)
  {
    hide Run;
    TableHoldsLastCommit(events, g, Run(events)[g].members[c].assignments[i]);
  }
}
