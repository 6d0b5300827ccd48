/**
 How rebalance_group hands the partitions of a topic to its subscribers. The method is the code: it
 walks hash maps in whatever order they come and sorts the consumers of each topic. It is proved equal
 to a closed form that mentions no order: consumer c of a topic with n subscribers gets partition p
 exactly when p mod n is the number of its subscribers whose id is smaller than c.
 */
module Rebalance {
  import opened Types

  const PARTITION_COUNT: nat := 3

  datatype GroupMember = GroupMember(consumerId: string, topic: string, assignments: seq<TopicPartition>)

  datatype ConsumerGroup = ConsumerGroup(groupId: string, members: map<string, GroupMember>,
                                         committedOffsets: map<TopicPartition, nat>)

  // ----- std::string order -----

  predicate Less(a: string, b: string) {
    b != "" && (a == "" || a[0] < b[0] || (a[0] == b[0] && Less(a[1..], b[1..])))
  }

  lemma {:induction false} LessTrichotomy(a: string, b: string)
    ensures Less(a, b) || Less(b, a) || a == b
    ensures !(Less(a, b) && Less(b, a)) && !Less(a, a)
  {
    if a != "" {
      LessTrichotomy(a[1..], a[1..]);
      if b != "" {
        LessTrichotomy(a[1..], b[1..]);
        assert a == [a[0]] + a[1..] && b == [b[0]] + b[1..];
      }
    }
  }

  lemma {:induction false} LessTransitive(a: string, b: string, c: string)
    requires Less(a, b) && Less(b, c)
    ensures Less(a, c)
  {
    if a != "" && a[0] == b[0] && b[0] == c[0] {
      LessTransitive(a[1..], b[1..], c[1..]);
    }
  }

  /** The order of std::string: a proper prefix comes first, else the first characters that differ decide. */
  lemma {:induction false} LessIsLexicographic(a: string, b: string)
    ensures Less(a, b) <==> a < b || exists i | 0 <= i < |a| && i < |b| :: a[..i] == b[..i] && a[i] < b[i]
  {
    if a != "" && b != "" {
      LessIsLexicographic(a[1..], b[1..]);
      if a[0] == b[0] {
        if i :| 0 <= i < |a[1..]| && i < |b[1..]| && a[1..][..i] == b[1..][..i] && a[1..][i] < b[1..][i] {
          assert a[..i + 1] == [a[0]] + a[1..][..i] && b[..i + 1] == [b[0]] + b[1..][..i];
          assert a[i + 1] < b[i + 1];
        }
        if i :| 0 <= i < |a| && i < |b| && a[..i] == b[..i] && a[i] < b[i] {
          assert i > 0;
          assert a[1..][..i - 1] == a[..i][1..] && b[1..][..i - 1] == b[..i][1..];
          assert a[1..][i - 1] < b[1..][i - 1];
        }
        assert a == [a[0]] + a[1..] && b == [b[0]] + b[1..];
      } else if a[0] < b[0] {
        assert a[..0] == b[..0];
      } else {
        if i :| 0 <= i < |a| && i < |b| && a[..i] == b[..i] && a[i] < b[i] {
          assert i == 0 || a[..i][0] == b[..i][0];
        }
      }
    }
  }

  ghost predicate Increasing(ids: seq<string>) {
    forall i, j | 0 <= i < j < |ids| :: Less(ids[i], ids[j])
  }

  function Elements(ids: seq<string>): set<string> {
    set c | c in ids
  }

  lemma {:induction false} IncreasingSize(ids: seq<string>)
    requires Increasing(ids)
    ensures |Elements(ids)| == |ids|
  {
    if ids == [] {
      assert Elements(ids) == {};
    } else {
      var front, last := ids[..|ids| - 1], ids[|ids| - 1];
      IncreasingSize(front);
      LessTrichotomy(last, last);
      assert last !in front;
      assert ids == front + [last];
      assert Elements(ids) == Elements(front) + {last};
    }
  }

  lemma ElementsSnoc(ids: seq<string>, c: string)
    ensures Elements(ids + [c]) == Elements(ids) + {c}
    ensures c !in ids ==> |Elements(ids + [c])| == |Elements(ids)| + 1
  {
    assert Elements(ids + [c]) == Elements(ids) + {c};
  }

  // std::sort on distinct ids
  method Sort(ids: seq<string>) returns (sorted: seq<string>)
    requires |Elements(ids)| == |ids|
    ensures Increasing(sorted) && Elements(sorted) == Elements(ids) && |sorted| == |ids|
  {
    sorted := [];
    for i := 0 to |ids|
      invariant Increasing(sorted) && Elements(sorted) == Elements(ids[..i]) && |sorted| == i
    {
      var at := 0;
      while at < |sorted| && Less(sorted[at], ids[i])
        invariant at <= |sorted|
        invariant forall j | 0 <= j < at :: Less(sorted[j], ids[i])
      {
        at := at + 1;
      }
      Distinct(ids, i);
      assert ids[i] !in Elements(sorted);
      Insert(sorted, at, ids[i]);
      sorted := sorted[..at] + [ids[i]] + sorted[at..];
      assert ids[..i + 1] == ids[..i] + [ids[i]];
    }
    assert ids[..|ids|] == ids;
  }

  lemma Insert(sorted: seq<string>, at: nat, id: string)
    requires Increasing(sorted) && at <= |sorted| && id !in sorted
    requires forall j | 0 <= j < at :: Less(sorted[j], id)
    requires at < |sorted| ==> !Less(sorted[at], id)
    ensures Increasing(sorted[..at] + [id] + sorted[at..])
    ensures Elements(sorted[..at] + [id] + sorted[at..]) == Elements(sorted) + {id}
  {
    var r := sorted[..at] + [id] + sorted[at..];
    if at < |sorted| {
      LessTrichotomy(id, sorted[at]);
      forall j | at < j < |sorted|
        ensures Less(id, sorted[j])
      {
        LessTransitive(id, sorted[at], sorted[j]);
      }
    }
    assert sorted == sorted[..at] + sorted[at..];
  }

  lemma {:induction false} SizeBound(ids: seq<string>)
    ensures |Elements(ids)| <= |ids|
  {
    if ids != [] {
      var front, last := ids[..|ids| - 1], ids[|ids| - 1];
      SizeBound(front);
      assert ids == front + [last];
      assert Elements(ids) == Elements(front) + {last};
    }
  }

  lemma {:induction false} Distinct(ids: seq<string>, i: nat)
    requires |Elements(ids)| == |ids| && i < |ids|
    ensures ids[i] !in ids[..i]
  {
    if ids[i] in ids[..i] {
      var without := ids[..i] + ids[i + 1..];
      assert ids == ids[..i] + [ids[i]] + ids[i + 1..];
      assert Elements(without) == Elements(ids);
      SizeBound(without);
    }
  }

  // ----- Who gets what -----

  // The subscription of each member: all that the assignment depends on.
  function Subscriptions(members: map<string, GroupMember>): map<string, string> {
    map c | c in members :: members[c].topic
  }

  function Peers(subs: map<string, string>, topic: string): set<string> {
    set c | c in subs && subs[c] == topic
  }

  function Rank(subs: map<string, string>, c: string): nat
    requires c in subs
  {
    |set d | d in Peers(subs, subs[c]) && Less(d, c)|
  }

  // Partitions below count that fall to the consumer of a given rank among n.
  function Share(topic: string, rank: nat, n: nat, count: nat): seq<TopicPartition>
    requires n > 0
  {
    if count == 0 then [] else
    Share(topic, rank, n, count - 1) + if (count - 1) % n == rank then [TopicPartition(topic, count - 1)] else []
  }

  lemma PeersNonEmpty(subs: map<string, string>, c: string)
    requires c in subs
    ensures |Peers(subs, subs[c])| > 0
  {
    assert c in Peers(subs, subs[c]);
  }

  function Assigned(subs: map<string, string>, c: string): seq<TopicPartition>
    requires c in subs
  {
    PeersNonEmpty(subs, c);
    Share(subs[c], Rank(subs, c), |Peers(subs, subs[c])|, PARTITION_COUNT)
  }

  function Rebalanced(group: ConsumerGroup): ConsumerGroup {
    var subs := Subscriptions(group.members);
    group.(members := map c | c in group.members :: group.members[c].(assignments := Assigned(subs, c)))
  }

  // Every member holds what the current subscriptions give it.
  ghost predicate IsBalanced(group: ConsumerGroup) {
    var subs := Subscriptions(group.members);
    forall c | c in group.members :: group.members[c].assignments == Assigned(subs, c)
  }

  lemma RebalancedIsBalanced(group: ConsumerGroup)
    ensures IsBalanced(Rebalanced(group))
    ensures Subscriptions(Rebalanced(group).members) == Subscriptions(group.members)
  {
    assert Subscriptions(Rebalanced(group).members) == Subscriptions(group.members);
  }

  lemma RankOfIndex(subs: map<string, string>, ids: seq<string>, topic: string, i: nat)
    requires Increasing(ids) && Elements(ids) == Peers(subs, topic) && i < |ids|
    ensures ids[i] in subs && subs[ids[i]] == topic && Rank(subs, ids[i]) == i && |Peers(subs, topic)| == |ids|
  {
    assert ids[i] in Elements(ids);
    IncreasingSize(ids);
    IncreasingSize(ids[..i]);
    forall d
      ensures d in Peers(subs, topic) && Less(d, ids[i]) <==> d in Elements(ids[..i])
    {
      if d in Peers(subs, topic) && Less(d, ids[i]) {
        assert d in Elements(ids);
        var j :| 0 <= j < |ids| && ids[j] == d;
        LessTrichotomy(ids[j], ids[i]);
        assert j < i;
        assert ids[..i][j] == d;
      }
      if d in Elements(ids[..i]) {
        assert d in Elements(ids);
      }
    }
    assert (set d | d in Peers(subs, topic) && Less(d, ids[i])) == Elements(ids[..i]);
  }

  // ----- The code -----

  // Members in the middle of a rebalance: topics left are untouched, topic has its first done partitions handed out.
  ghost predicate Handed(group: ConsumerGroup, members: map<string, GroupMember>, left: set<string>, topic: string, done: nat) {
    var subs := Subscriptions(group.members);
    && members.Keys == group.members.Keys
    && forall c | c in members :: members[c] == group.members[c].(assignments := HandedTo(subs, c, left, topic, done))
  }

  ghost function HandedTo(subs: map<string, string>, c: string, left: set<string>, topic: string, done: nat): seq<TopicPartition>
    requires c in subs
  {
    PeersNonEmpty(subs, c);
    if subs[c] in left then []
    else if subs[c] == topic then Share(topic, Rank(subs, c), |Peers(subs, topic)|, done)
    else Assigned(subs, c)
  }

  method RebalanceGroup(group: ConsumerGroup) returns (result: ConsumerGroup)
    ensures result == Rebalanced(group)
  {
    hide Rank, Share, Peers, Elements, Increasing;
    var members := ClearAssignments(group);
    var topicToConsumers := GroupByTopic(members);
    assert Subscriptions(members) == Subscriptions(group.members);
    var left := topicToConsumers.Keys;
    ghost var topic := "";
    while left != {}
      invariant left <= topicToConsumers.Keys
      invariant Handed(group, members, left, topic, PARTITION_COUNT)
    {
      var t :| t in left;
      var ids := Sort(topicToConsumers[t]);
      ghost var topics := left;
      left := left - {t};
      assert Handed(group, members, left + {t}, topic, PARTITION_COUNT) by {
        assert left + {t} == topics;
      }
      members := AssignTopic(group, members, left, topic, t, ids);
      topic := t;
    }
    AllHanded(group, members, topic);
    result := group.(members := members);
  }

  // The partitions of one topic, dealt round-robin to its sorted consumers.
  method AssignTopic(ghost group: ConsumerGroup, start: map<string, GroupMember>, ghost left: set<string>, ghost before: string,
                     t: string, ids: seq<string>)
    returns (members: map<string, GroupMember>)
    requires t !in left && ids != [] && Increasing(ids) && Elements(ids) == Peers(Subscriptions(group.members), t)
    requires Handed(group, start, left + {t}, before, PARTITION_COUNT)
    ensures Handed(group, members, left, t, PARTITION_COUNT)
  {
    hide Handed, Peers, Share, Rank, Elements, Increasing;
    StartTopic(group, start, left, before, t);
    members := start;
    for partition := 0 to PARTITION_COUNT
      invariant Handed(group, members, left, t, partition)
    {
      var consumerId := ids[partition % |ids|];
      HandOne(group, members, left, t, ids, partition);
      members := members[consumerId := members[consumerId].(assignments := members[consumerId].assignments + [TopicPartition(t, partition)])];
    }
  }

  lemma AllHanded(group: ConsumerGroup, members: map<string, GroupMember>, topic: string)
    requires Handed(group, members, {}, topic, PARTITION_COUNT)
    ensures members == Rebalanced(group).members
  {
    hide Rank, Share;
    var subs := Subscriptions(group.members);
    forall c | c in members
      ensures HandedTo(subs, c, {}, topic, PARTITION_COUNT) == Assigned(subs, c)
    {
    }
  }

  lemma StartTopic(group: ConsumerGroup, members: map<string, GroupMember>, left: set<string>, before: string, t: string)
    requires t !in left && Handed(group, members, left + {t}, before, PARTITION_COUNT)
    ensures Handed(group, members, left, t, 0)
  {
    var subs := Subscriptions(group.members);
    forall c | c in members
      ensures HandedTo(subs, c, left, t, 0) == HandedTo(subs, c, left + {t}, before, PARTITION_COUNT)
    {
      hide Rank;
    }
  }

  lemma HandOne(group: ConsumerGroup, members: map<string, GroupMember>, left: set<string>, t: string, ids: seq<string>, partition: nat)
    requires t !in left && ids != [] && Increasing(ids) && Elements(ids) == Peers(Subscriptions(group.members), t)
    requires Handed(group, members, left, t, partition)
    ensures var c := ids[partition % |ids|];
      && c in members
      && Handed(group, members[c := members[c].(assignments := members[c].assignments + [TopicPartition(t, partition)])], left, t, partition + 1)
  {
    var subs, at := Subscriptions(group.members), partition % |ids|;
    var c := ids[at];
    RankOfIndex(subs, ids, t, at);
    forall d | d in members
      ensures d != c ==> HandedTo(subs, d, left, t, partition + 1) == HandedTo(subs, d, left, t, partition)
    {
      if subs[d] == t && d != c {
        assert d in Elements(ids);
        var j :| 0 <= j < |ids| && ids[j] == d;
        RankOfIndex(subs, ids, t, j);
        hide Rank;
        assert Share(t, j, |ids|, partition + 1) == Share(t, j, |ids|, partition) + [];
      }
    }
  }

  method ClearAssignments(group: ConsumerGroup) returns (members: map<string, GroupMember>)
    ensures members == map c | c in group.members :: group.members[c].(assignments := [])
  {
    members := group.members;
    var left := members.Keys;
    while left != {}
      invariant left <= members.Keys == group.members.Keys
      invariant forall c | c in members :: members[c] == if c in left then group.members[c] else group.members[c].(assignments := [])
    {
      var c :| c in left;
      members := members[c := members[c].(assignments := [])];
      left := left - {c};
    }
  }

  function Seen(members: map<string, GroupMember>, t: string, left: set<string>): set<string> {
    set c | c in members && members[c].topic == t && c !in left
  }

  ghost predicate Grouped(members: map<string, GroupMember>, topics: map<string, seq<string>>, left: set<string>) {
    && (forall t | t in topics ::
      topics[t] != [] && |Elements(topics[t])| == |topics[t]| && Elements(topics[t]) == Seen(members, t, left))
    && forall c | c in members && c !in left :: members[c].topic in topics
  }

  method GroupByTopic(members: map<string, GroupMember>) returns (topics: map<string, seq<string>>)
    ensures forall t | t in topics ::
      topics[t] != [] && |Elements(topics[t])| == |topics[t]| && Elements(topics[t]) == Peers(Subscriptions(members), t)
    ensures forall c | c in members :: members[c].topic in topics
  {
    topics := map[];
    var left := members.Keys;
    while left != {}
      invariant left <= members.Keys
      invariant Grouped(members, topics, left)
    {
      var c :| c in left;
      GroupOneMore(members, topics, left, c);
      topics := topics[members[c].topic := GetOr(topics, members[c].topic, []) + [c]];
      left := left - {c};
    }
    forall t | t in topics
      ensures Seen(members, t, {}) == Peers(Subscriptions(members), t)
    {
    }
  }

  lemma GroupOneMore(members: map<string, GroupMember>, topics: map<string, seq<string>>, left: set<string>, c: string)
    requires c in members && c in left && Grouped(members, topics, left)
    ensures Grouped(members, topics[members[c].topic := GetOr(topics, members[c].topic, []) + [c]], left - {c})
  {
    var topic := members[c].topic;
    var ids := GetOr(topics, topic, []);
    assert Elements(ids) == Seen(members, topic, left);
    assert c !in Elements(ids);
    ElementsSnoc(ids, c);
    assert Seen(members, topic, left - {c}) == Seen(members, topic, left) + {c};
    forall t | t != topic
      ensures Seen(members, t, left - {c}) == Seen(members, t, left)
    {
    }
    hide Elements, Seen;
  }

  // ----- What the assignment guarantees -----

  // The subscribers of a topic in id order exist, whatever the map.
  lemma OrderedPeers(subs: map<string, string>, topic: string) returns (ids: seq<string>)
    ensures Increasing(ids) && Elements(ids) == Peers(subs, topic) && |ids| == |Peers(subs, topic)|
  {
    ids := OrderedSet(Peers(subs, topic));
    IncreasingSize(ids);
  }

  lemma {:induction false} OrderedSet(s: set<string>) returns (ids: seq<string>)
    ensures Increasing(ids) && Elements(ids) == s
    decreases |s|
  {
    if s == {} {
      ids := [];
    } else {
      var c := Greatest(s);
      ids := OrderedSet(s - {c});
      assert forall d | d in ids :: d in Elements(ids);
      forall i | 0 <= i < |ids|
        ensures Less(ids[i], c)
      {
        assert ids[i] in Elements(ids);
      }
      ElementsSnoc(ids, c);
      ids := ids + [c];
    }
  }

  lemma {:induction false} Greatest(s: set<string>) returns (c: string)
    requires s != {}
    ensures c in s && forall d | d in s && d != c :: Less(d, c)
    decreases |s|
  {
    c :| c in s;
    if s != {c} {
      var g := Greatest(s - {c});
      LessTrichotomy(c, g);
      if Less(c, g) {
        c := g;
      } else {
        forall d | d in s && d != c
          ensures Less(d, c)
        {
          if d != g {
            LessTransitive(d, g, c);
          }
        }
      }
    }
  }

  lemma {:induction false} InShare(topic: string, rank: nat, n: nat, count: nat, tp: TopicPartition)
    requires n > 0
    ensures tp in Share(topic, rank, n, count) <==> tp.topic == topic && 0 <= tp.partition < count && tp.partition % n == rank
  {
    if count > 0 {
      InShare(topic, rank, n, count - 1, tp);
    }
  }

  lemma InAssigned(subs: map<string, string>, c: string, tp: TopicPartition)
    requires c in subs
    ensures tp in Assigned(subs, c) <==>
      tp.topic == subs[c] && 0 <= tp.partition < PARTITION_COUNT && (PeersNonEmpty(subs, c); tp.partition % |Peers(subs, subs[c])| == Rank(subs, c))
  {
    PeersNonEmpty(subs, c);
    InShare(subs[c], Rank(subs, c), |Peers(subs, subs[c])|, PARTITION_COUNT, tp);
  }

  /** Exact cover: every partition of a subscribed topic is held by one member, once, and that member subscribed to it. */
  lemma ExactCover(subs: map<string, string>, topic: string, partition: nat)
    requires Peers(subs, topic) != {} && partition < PARTITION_COUNT
    ensures exists c :: OwnsAlone(subs, c, TopicPartition(topic, partition))
  {
    hide Assigned, Rank;
    var tp := TopicPartition(topic, partition);
    var ids := OrderedPeers(subs, topic);
    var c := ids[partition % |ids|];
    RankOfIndex(subs, ids, topic, partition % |ids|);
    InAssigned(subs, c, tp);
    assert Owns(subs, c, tp);
    forall d | Owns(subs, d, tp)
      ensures d == c
    {
      InAssigned(subs, d, tp);
      assert d in Peers(subs, topic);
      assert d in Elements(ids);
      var j :| 0 <= j < |ids| && ids[j] == d;
      RankOfIndex(subs, ids, topic, j);
    }
    assert OwnsAlone(subs, c, tp);
  }

  /** Who that is: the subscribers in id order take the partitions of their topic in turn. */
  lemma RoundRobin(subs: map<string, string>, topic: string, ids: seq<string>, partition: nat)
    requires Increasing(ids) && Elements(ids) == Peers(subs, topic) && ids != [] && partition < 3
    ensures OwnsAlone(subs, ids[partition % |ids|], TopicPartition(topic, partition))
  {
    hide Assigned, Rank;
    var tp, c := TopicPartition(topic, partition), ids[partition % |ids|];
    RankOfIndex(subs, ids, topic, partition % |ids|);
    InAssigned(subs, c, tp);
    assert ids[0] in Elements(ids);
    ExactCover(subs, topic, partition);
    var o :| OwnsAlone(subs, o, tp);
    assert Owns(subs, c, tp);
  }

  ghost predicate Owns(subs: map<string, string>, c: string, tp: TopicPartition) {
    c in subs && tp in Assigned(subs, c)
  }

  ghost predicate OwnsAlone(subs: map<string, string>, c: string, tp: TopicPartition) {
    Owns(subs, c, tp) && forall d | Owns(subs, d, tp) :: d == c
  }

  lemma {:induction false} ShareDistinct(topic: string, rank: nat, n: nat, count: nat)
    requires n > 0
    ensures forall i, j | 0 <= i < j < |Share(topic, rank, n, count)| ::
      Share(topic, rank, n, count)[i].partition < Share(topic, rank, n, count)[j].partition
  {
    if count > 0 {
      ShareDistinct(topic, rank, n, count - 1);
      forall tp | tp in Share(topic, rank, n, count - 1)
        ensures tp.partition < count - 1
      {
        InShare(topic, rank, n, count - 1, tp);
      }
    }
  }

  /** Nobody holds a partition of a topic it did not subscribe to, or the same one twice; and rows come in partition order. */
  lemma AssignedIsOwnTopic(subs: map<string, string>, c: string)
    requires c in subs
    ensures forall i | 0 <= i < |Assigned(subs, c)| ::
      Assigned(subs, c)[i].topic == subs[c] && 0 <= Assigned(subs, c)[i].partition < PARTITION_COUNT
    ensures forall i, j | 0 <= i < j < |Assigned(subs, c)| :: Assigned(subs, c)[i].partition < Assigned(subs, c)[j].partition
  {
    PeersNonEmpty(subs, c);
    ShareDistinct(subs[c], Rank(subs, c), |Peers(subs, subs[c])|, PARTITION_COUNT);
    hide Assigned;
    forall i | 0 <= i < |Assigned(subs, c)|
      ensures Assigned(subs, c)[i].topic == subs[c] && 0 <= Assigned(subs, c)[i].partition < PARTITION_COUNT
    {
      InAssigned(subs, c, Assigned(subs, c)[i]);
    }
  }

  lemma ShareSize(topic: string, rank: nat, n: nat)
    requires rank < n
    ensures |Share(topic, rank, n, PARTITION_COUNT)| == if n == 1 then 3 else if n == 2 then 2 - rank else if rank < 3 then 1 else 0
  {
    if n > 2 {
      SmallMod(0, n);
      SmallMod(1, n);
      SmallMod(2, n);
    }
    assert |Share(topic, rank, n, 1)| == if 0 % n == rank then 1 else 0;
    assert |Share(topic, rank, n, 2)| == |Share(topic, rank, n, 1)| + if 1 % n == rank then 1 else 0;
    assert |Share(topic, rank, n, 3)| == |Share(topic, rank, n, 2)| + if 2 % n == rank then 1 else 0;
  }

  lemma SmallMod(a: nat, n: nat)
    requires a < n
    ensures a % n == a
  {
  }

  /** Balance: members subscribed to the same topic differ by at most one partition. */
  lemma Balanced(subs: map<string, string>, c: string, d: string)
    requires c in subs && d in subs && subs[c] == subs[d]
    ensures -1 <= |Assigned(subs, c)| - |Assigned(subs, d)| <= 1
  {
    hide Share;
    var topic, n := subs[c], |Peers(subs, subs[c])|;
    PeersNonEmpty(subs, c);
    RankBelow(subs, c);
    RankBelow(subs, d);
    ShareSize(topic, Rank(subs, c), n);
    ShareSize(topic, Rank(subs, d), n);
  }

  lemma RankBelow(subs: map<string, string>, c: string)
    requires c in subs
    ensures Rank(subs, c) < |Peers(subs, subs[c])|
  {
    var ids := OrderedPeers(subs, subs[c]);
    assert c in Peers(subs, subs[c]);
    assert c in Elements(ids);
    var j :| 0 <= j < |ids| && ids[j] == c;
    RankOfIndex(subs, ids, subs[c], j);
  }
}
