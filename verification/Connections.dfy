/**
 Many connections and the group memberships they own. A request is two steps, as in a thread of
 TcpServer: the broker answers, then the connection records what it joined or left; a closing connection
 removes its memberships one by one. Every interleaving is allowed. EpollServer runs the two steps of a
 request, and all of a close, without anything in between.
 */
module Connections {
  import opened Types
  import opened Protocol
  import opened Framing
  import opened Rebalance
  import opened Groups

  datatype Phase = Idle | Answered(req: Request, response: string) | Closing(next: nat)

  datatype Connection = Connection(joined: seq<Membership>, phase: Phase)

  datatype World = World(groups: GroupTable, open: map<nat, Connection>)

  datatype Step =
    | Accept(k: nat)
    | Ask(k: nat, req: Request, known: bool)
    | Record(k: nat)
    | StartClose(k: nat)
    | RemoveNext(k: nat)
    | Gone(k: nat)

  // What the broker does to its groups with a request, and its answer where groups are concerned.
  function GroupAnswer(groups: GroupTable, req: Request, known: bool): GroupReply {
    match req.kind
    case JOIN => Join(groups, req.groupId, req.consumerId, req.topic)
    case LEAVE => Leave(groups, req.groupId, req.consumerId)
    case COMMIT => Commit(groups, req.groupId, req.consumerId, TopicPartition(req.topic, req.partition), req.offset, known)
    case _ => GroupReply(groups, "")
  }

  function Next(w: World, step: Step): World {
    var k := step.k;
    if step.Accept? then
      if k in w.open then w else w.(open := w.open[k := Connection([], Idle)])
    else if k !in w.open then w
    else
      var conn := w.open[k];
      match step
      case Ask(_, req, known) =>
        if !conn.phase.Idle? then w else
        var r := GroupAnswer(w.groups, req, known);
        World(r.groups, w.open[k := conn.(phase := Answered(req, r.text))])
      case Record(_) =>
        if !conn.phase.Answered? then w
        else w.(open := w.open[k := Connection(JoinedAfter(conn.joined, conn.phase.req, conn.phase.response), Idle)])
      case StartClose(_) =>
        if !conn.phase.Idle? then w else w.(open := w.open[k := conn.(phase := Closing(0))])
      case RemoveNext(_) =>
        if !conn.phase.Closing? || conn.phase.next >= |conn.joined| then w else
        var m := conn.joined[conn.phase.next];
        World(Remove(w.groups, m.0, m.1), w.open[k := conn.(phase := Closing(conn.phase.next + 1))])
      case _ =>
        if !conn.phase.Closing? || conn.phase.next < |conn.joined| then w else w.(open := w.open - {k})
  }

  function Run(steps: seq<Step>): World {
    if steps == [] then World(map[], map[]) else Next(Run(steps[..|steps| - 1]), steps[|steps| - 1])
  }

  predicate IsMember(groups: GroupTable, m: Membership) {
    m.0 in groups && m.1 in groups[m.0].members
  }

  predicate JustJoined(conn: Connection, m: Membership) {
    conn.phase.Answered? && conn.phase.response == "OK" && conn.phase.req.kind == JOIN && (conn.phase.req.groupId, conn.phase.req.consumerId) == m
  }

  predicate JustLeft(conn: Connection, m: Membership) {
    conn.phase.Answered? && conn.phase.response == "OK" && conn.phase.req.kind == LEAVE && (conn.phase.req.groupId, conn.phase.req.consumerId) == m
  }

  // What a connection has yet to remove if it closes.
  function Remaining(conn: Connection): seq<Membership> {
    if !conn.phase.Closing? then conn.joined
    else if conn.phase.next < |conn.joined| then conn.joined[conn.phase.next..]
    else []
  }

  // The connection will remove m when it closes, and is not about to strike it off its list.
  predicate Lists(conn: Connection, m: Membership) {
    JustJoined(conn, m) || (!JustLeft(conn, m) && m in Remaining(conn))
  }

  ghost predicate NoOrphans(w: World) {
    forall m | IsMember(w.groups, m) :: Owned(w, m)
  }

  ghost predicate Owned(w: World, m: Membership) {
    exists k :: k in w.open && Lists(w.open[k], m)
  }

  lemma {:induction false} WithoutFirstKeeps(joined: seq<Membership>, gone: Membership, m: Membership)
    requires m in joined && m != gone
    ensures m in WithoutFirst(joined, gone)
  {
    if joined[0] != gone && joined[0] != m {
      assert m in joined[1..];
      WithoutFirstKeeps(joined[1..], gone, m);
    }
  }

  lemma MembersAfter(groups: GroupTable, req: Request, known: bool, m: Membership)
    ensures var r := GroupAnswer(groups, req, known);
      IsMember(r.groups, m) ==>
        if IsMember(groups, m) then !(req.kind == LEAVE && r.text == "OK" && (req.groupId, req.consumerId) == m)
        else req.kind == JOIN && r.text == "OK" && (req.groupId, req.consumerId) == m
  {
    hide Assigned, Subscriptions;
  }

  lemma MembersAfterRemove(groups: GroupTable, gone: Membership, m: Membership)
    ensures IsMember(Remove(groups, gone.0, gone.1), m) ==> IsMember(groups, m) && m != gone
  {
    hide Assigned, Subscriptions;
  }

  lemma NextKeeps(w: World, step: Step)
    requires NoOrphans(w)
    ensures NoOrphans(Next(w, step))
  {
    var w' := Next(w, step);
    forall m | IsMember(w'.groups, m)
      ensures Owned(w', m)
    {
      OwnerAfter(w, step, m);
    }
  }

  lemma OwnerAfter(w: World, step: Step, m: Membership)
    requires NoOrphans(w) && IsMember(Next(w, step).groups, m)
    ensures Owned(Next(w, step), m)
  {
    hide GroupAnswer, Remove, IsMember, JoinedAfter;
    var w', k := Next(w, step), step.k;
    if step.Ask? && k in w.open && w.open[k].phase.Idle? {
      MembersAfter(w.groups, step.req, step.known, m);
    }
    if step.RemoveNext? && k in w.open && w.open[k].phase.Closing? && w.open[k].phase.next < |w.open[k].joined| {
      MembersAfterRemove(w.groups, w.open[k].joined[w.open[k].phase.next], m);
    }
    if IsMember(w.groups, m) {
      assert Owned(w, m);
      var o :| o in w.open && Lists(w.open[o], m);
      StillLists(w, step, o, m);
    } else {
      assert Lists(w'.open[k], m);
    }
  }

  lemma AskedLists(conn: Connection, req: Request, text: string, m: Membership)
    requires conn.phase.Idle? && Lists(conn, m)
    requires !(req.kind == LEAVE && text == "OK" && (req.groupId, req.consumerId) == m)
    ensures Lists(conn.(phase := Answered(req, text)), m)
  {
  }

  lemma RecordedLists(conn: Connection, m: Membership)
    requires conn.phase.Answered? && Lists(conn, m)
    ensures Lists(Connection(JoinedAfter(conn.joined, conn.phase.req, conn.phase.response), Idle), m)
  {
    hide WithoutFirst;
    var req, response := conn.phase.req, conn.phase.response;
    if !JustJoined(conn, m) && req.kind == LEAVE && response == "OK" {
      WithoutFirstKeeps(conn.joined, (req.groupId, req.consumerId), m);
    }
  }

  lemma ClosingLists(conn: Connection, m: Membership)
    requires conn.phase.Idle? && Lists(conn, m)
    ensures Lists(conn.(phase := Closing(0)), m)
  {
    assert conn.joined[0..] == conn.joined;
  }

  lemma AdvancedLists(conn: Connection, m: Membership)
    requires conn.phase.Closing? && Lists(conn, m)
    requires conn.phase.next < |conn.joined| ==> conn.joined[conn.phase.next] != m
    ensures conn.phase.next < |conn.joined| && Lists(conn.(phase := Closing(conn.phase.next + 1)), m)
  {
    assert conn.joined[conn.phase.next..] == [conn.joined[conn.phase.next]] + conn.joined[conn.phase.next + 1..];
  }

  // An owner keeps listing a membership that survives the step.
  lemma StillLists(w: World, step: Step, o: nat, m: Membership)
    requires o in w.open && Lists(w.open[o], m)
    requires IsMember(w.groups, m) && IsMember(Next(w, step).groups, m)
    ensures o in Next(w, step).open && Lists(Next(w, step).open[o], m)
  {
    hide IsMember, GroupAnswer, Remove, JoinedAfter, Lists;
    var conn := w.open[o];
    if step.k == o {
      match step
      case Ask(_, req, known) =>
        if conn.phase.Idle? {
          MembersAfter(w.groups, req, known, m);
          AskedLists(conn, req, GroupAnswer(w.groups, req, known).text, m);
        }
      case Record(_) => if conn.phase.Answered? { RecordedLists(conn, m); }
      case StartClose(_) => if conn.phase.Idle? { ClosingLists(conn, m); }
      case RemoveNext(_) =>
        if conn.phase.Closing? && conn.phase.next < |conn.joined| {
          MembersAfterRemove(w.groups, conn.joined[conn.phase.next], m);
          AdvancedLists(conn, m);
        }
      case Gone(_) => if conn.phase.Closing? && conn.phase.next >= |conn.joined| { AdvancedLists(conn, m); }
      case _ =>
    }
  }

  /**
   In every reachable state every member of every group is on the list of an open connection, so that the end of that
   connection takes it out of the group, even when it joined on one connection and was told to leave on another.
   */
  lemma {:induction false} NeverOrphans(steps: seq<Step>)
    ensures NoOrphans(Run(steps))
  {
    hide Next;
    if steps != [] {
      NeverOrphans(steps[..|steps| - 1]);
      NextKeeps(Run(steps[..|steps| - 1]), steps[|steps| - 1]);
    }
  }

  /** Hence when no connection is open, no group is left. */
  lemma AllClosedAllGone(steps: seq<Step>)
    requires Run(steps).open == map[]
    ensures forall m :: !IsMember(Run(steps).groups, m)
  {
    hide Next;
    NeverOrphans(steps);
    forall m
      ensures !IsMember(Run(steps).groups, m)
    {
      assert !Owned(Run(steps), m);
    }
  }

  // ----- Lists that hold nothing else -----

  // What a connection will remove when it closes, an answered request counted as recorded.
  function Due(conn: Connection): seq<Membership> {
    match conn.phase
    case Idle => conn.joined
    case Answered(req, response) => JoinedAfter(conn.joined, req, response)
    case Closing(next) => if next <= |conn.joined| then conn.joined[next..] else []
  }

  // LEAVE is sent, for a member that there is, on the connection that joined it.
  ghost predicate OwnLeave(w: World, step: Step) {
    step.Ask? && step.req.kind == LEAVE && step.k in w.open && w.open[step.k].phase.Idle?
    && IsMember(w.groups, (step.req.groupId, step.req.consumerId)) ==>
      (step.req.groupId, step.req.consumerId) in w.open[step.k].joined
  }

  ghost predicate OwnLeaves(steps: seq<Step>) {
    forall i | 0 <= i < |steps| :: OwnLeave(Run(steps[..i]), steps[i])
  }

  ghost predicate NoRepeat(list: seq<Membership>) {
    forall a, b | 0 <= a < b < |list| :: list[a] != list[b]
  }

  // Each entry is a member, listed once, and by this connection alone.
  ghost predicate Exact(w: World) {
    && (forall k | k in w.open :: NoRepeat(Due(w.open[k])))
    && (forall k, m | k in w.open && m in Due(w.open[k]) :: IsMember(w.groups, m))
    && forall j, k, m | j in w.open && k in w.open && m in Due(w.open[j]) && m in Due(w.open[k]) :: j == k
  }

  lemma WithoutMembers(groups: GroupTable, g: string, c: string, m: Membership)
    requires g in groups
    ensures IsMember(Without(groups, g, c), m) <==> IsMember(groups, m) && m != (g, c)
  {
    hide Assigned, Subscriptions;
    var left := groups[g].members - {c};
    if m.0 == g && m.1 in left {
      assert left != map[];
    }
  }

  lemma MembersKept(groups: GroupTable, req: Request, known: bool, m: Membership)
    ensures var r := GroupAnswer(groups, req, known); var named := (req.groupId, req.consumerId);
      && (IsMember(groups, m) && !(req.kind == LEAVE && named == m) ==> IsMember(r.groups, m))
      && (req.kind == JOIN && r.text == "OK" ==> !IsMember(groups, named) && IsMember(r.groups, named))
      && (req.kind == LEAVE && r.text == "OK" ==> IsMember(groups, named))
      && (req.kind == LEAVE && r.text != "OK" ==> r.groups == groups)
  {
    hide Assigned, Subscriptions, Without;
    if req.groupId in groups {
      WithoutMembers(groups, req.groupId, req.consumerId, m);
    }
  }

  lemma MembersKeptByRemove(groups: GroupTable, gone: Membership, m: Membership)
    ensures IsMember(groups, m) && m != gone ==> IsMember(Remove(groups, gone.0, gone.1), m)
  {
    hide Without;
    if gone.0 in groups {
      WithoutMembers(groups, gone.0, gone.1, m);
    }
  }

  lemma {:induction false} WithoutFirstExact(list: seq<Membership>, gone: Membership)
    requires NoRepeat(list)
    ensures NoRepeat(WithoutFirst(list, gone))
    ensures forall m :: m in WithoutFirst(list, gone) <==> m in list && m != gone
  {
    if list != [] {
      var rest := list[1..];
      assert list == [list[0]] + rest;
      assert list[0] !in rest;
      WithoutFirstExact(rest, gone);
      if list[0] != gone {
        var without := WithoutFirst(rest, gone);
        assert WithoutFirst(list, gone) == [list[0]] + without;
        assert list[0] !in without;
      }
    }
  }

  // What one step does to the entries due on its connection and to the members.
  lemma AskExact(w: World, k: nat, req: Request, known: bool)
    requires Exact(w) && k in w.open && w.open[k].phase.Idle? && OwnLeave(w, Ask(k, req, known))
    ensures Exact(Next(w, Ask(k, req, known)))
  {
    hide GroupAnswer, IsMember, WithoutFirst;
    var r, named := GroupAnswer(w.groups, req, known), (req.groupId, req.consumerId);
    var w' := Next(w, Ask(k, req, known));
    var list := w.open[k].joined;
    assert Due(w.open[k]) == list;
    forall m
      ensures IsMember(w.groups, m) && !(req.kind == LEAVE && named == m) ==> IsMember(r.groups, m)
    {
      MembersKept(w.groups, req, known, m);
    }
    MembersKept(w.groups, req, known, named);
    WithoutFirstExact(list, named);
    var due := Due(w'.open[k]);
    assert due == JoinedAfter(list, req, r.text);
    forall j, m | j in w'.open && m in Due(w'.open[j])
      ensures IsMember(w'.groups, m)
      ensures j != k ==> m !in due
    {
      if j != k {
        assert m in Due(w.open[j]);
        assert m !in list;
      }
    }
  }

  lemma OtherExact(w: World, step: Step)
    requires Exact(w) && !step.Ask? && !step.RemoveNext?
    ensures Exact(Next(w, step))
  {
    hide IsMember, JoinedAfter;
    var w', k := Next(w, step), step.k;
    forall j | j in w'.open
      ensures if j in w.open then Due(w'.open[j]) == Due(w.open[j]) else Due(w'.open[j]) == []
    {
      if j in w.open && j == k && step.StartClose? {
        assert w.open[j].joined[0..] == w.open[j].joined;
      }
    }
  }

  lemma RemoveExact(w: World, k: nat)
    requires Exact(w) && k in w.open
    ensures Exact(Next(w, RemoveNext(k)))
  {
    hide IsMember, JoinedAfter, Remove;
    var conn, w' := w.open[k], Next(w, RemoveNext(k));
    if conn.phase.Closing? && conn.phase.next < |conn.joined| {
      var gone, due := conn.joined[conn.phase.next], conn.joined[conn.phase.next..];
      assert due == [gone] + conn.joined[conn.phase.next + 1..];
      assert Due(w'.open[k]) == due[1..];
      assert due[0] == gone;
      forall j, m | j in w'.open && m in Due(w'.open[j])
        ensures m != gone && m in Due(w.open[j]) && IsMember(w'.groups, m)
      {
        MembersKeptByRemove(w.groups, gone, m);
        if j == k {
          assert m in due[1..];
        } else {
          assert gone in Due(w.open[k]);
        }
      }
      assert NoRepeat(due[1..]);
    }
  }

  lemma {:induction false} RunExact(steps: seq<Step>)
    requires OwnLeaves(steps)
    ensures Exact(Run(steps))
  {
    hide Next, Exact, OwnLeave;
    if steps == [] {
      NobodyListed();
    } else {
      var front, step := steps[..|steps| - 1], steps[|steps| - 1];
      forall i | 0 <= i < |front|
        ensures OwnLeave(Run(front[..i]), front[i])
      {
        assert front[..i] == steps[..i];
      }
      RunExact(front);
      assert steps[..|front|] == front;
      assert OwnLeave(Run(front), step);
      NextExact(Run(front), step);
    }
  }

  lemma NextExact(w: World, step: Step)
    requires Exact(w) && OwnLeave(w, step)
    ensures Exact(Next(w, step))
  {
    hide Exact, GroupAnswer, Remove, JoinedAfter;
    match step
    case Ask(k, req, known) => if k in w.open && w.open[k].phase.Idle? { AskExact(w, k, req, known); }
    case RemoveNext(k) => if k in w.open { RemoveExact(w, k); }
    case _ => OtherExact(w, step);
  }

  lemma NobodyListed()
    ensures Exact(World(map[], map[]))
  {
  }

  /**
   The converse of NeverOrphans: when every LEAVE comes over the connection that joined, each entry of an open connection's list is
   a current member, once on that list and on no other, and every member is on one.
   */
  lemma ListsAreExact(steps: seq<Step>)
    requires OwnLeaves(steps)
    ensures var w := Run(steps);
      && (forall k | k in w.open :: NoRepeat(Due(w.open[k])))
      && (forall m :: IsMember(w.groups, m) <==> exists k :: k in w.open && m in Due(w.open[k]))
      && (forall j, k, m | j in w.open && k in w.open && m in Due(w.open[j]) && m in Due(w.open[k]) :: j == k)
  {
    hide Run, IsMember, Due;
    RunExact(steps);
    NeverOrphans(steps);
    var w := Run(steps);
    forall m | IsMember(w.groups, m)
      ensures exists k :: k in w.open && m in Due(w.open[k])
    {
      assert Owned(w, m);
      var k :| k in w.open && Lists(w.open[k], m);
      ListedIsDue(w.open[k], m);
    }
  }

  lemma ListedIsDue(conn: Connection, m: Membership)
    requires Lists(conn, m)
    ensures m in Due(conn)
  {
    if conn.phase.Answered? && conn.phase.req.kind == LEAVE && conn.phase.response == "OK" {
      WithoutFirstKeeps(conn.joined, (conn.phase.req.groupId, conn.phase.req.consumerId), m);
    }
  }

  /** So the end of one connection never removes a member that another connection joined. */
  lemma CloseSparesOthers(steps: seq<Step>, closing: nat, other: nat, m: Membership)
    requires OwnLeaves(steps)
    requires var w := Run(steps); closing in w.open && other in w.open && other != closing && m in Due(w.open[other])
    ensures IsMember(Next(Run(steps), RemoveNext(closing)).groups, m)
  {
    hide Run, IsMember, Remove;
    RunExact(steps);
    var w := Run(steps);
    var conn := w.open[closing];
    if conn.phase.Closing? && conn.phase.next < |conn.joined| {
      var gone := conn.joined[conn.phase.next];
      assert gone in conn.joined[conn.phase.next..];
      MembersKeptByRemove(w.groups, gone, m);
    }
  }
}
