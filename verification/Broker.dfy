/**
 The class Broker: handle_request and what it calls, recovery, and the leader's side of replication.
 Its methods are proved equal to the functions of Store, Replication and Groups. Hash-map and directory
 orders are left open: wherever the code iterates over one, the method takes elements in any order.
 */
module Broker {
  import opened Types
  import opened Text
  import opened Lines
  import opened Record
  import opened TopicLog
  import opened Protocol
  import opened Rebalance
  import opened Groups
  import opened Store
  import opened Replication
  import opened ReplicationSafety

  datatype BrokerRole = LEADER | FOLLOWER

  // What the environment decides during one request: the write() results, fsync, and the METRICS row.
  datatype Environment = Environment(writes: seq<WriteResult>, flush: FlushResult, metrics: string)

  datatype LinkReply = Answer(text: string) | Failure | LeaderDies

  // The leader's view of its follower: the remote process and the network outcomes still to come.
  class FollowerLink {
    var follower: Follower
    var script: seq<Net>

    // BrokerClient::connect and request
    method Request(text: string) returns (reply: LinkReply)
      modifies this
      ensures old(script) == [] ==> reply == LeaderDies && follower == old(follower) && script == []
      ensures old(script) != [] ==>
        var sent := Deliver(old(follower), text, old(script)[0]);
        follower == sent.follower && script == old(script)[1..]
        && reply == match sent.reply case Some(t) => Answer(t) case None => Failure
    {
      if script == [] {
        reply := LeaderDies;
      } else {
        var sent := Deliver(follower, text, script[0]);
        follower, script := sent.follower, script[1..];
        reply := match sent.reply case Some(t) => Answer(t) case None => Failure;
      }
    }
  }

  // Non-empty partitions carry their index as their id.
  ghost predicate WellNumbered(topics: Topics) {
    forall t, i | t in topics && 0 <= i < |topics[t].partitions| ::
      topics[t].partitions[i].messages != [] || i < DEFAULT_PARTITION_COUNT ==> topics[t].partitions[i].id == i
  }

  lemma StaysNumbered(topics: Topics, tp: TopicPartition, payload: string)
    ensures WellNumbered(topics) ==> WellNumbered(WithTopic(topics, tp.topic))
    ensures WellNumbered(topics) && HasPartition(WithTopic(topics, tp.topic), tp) && tp.partition < DEFAULT_PARTITION_COUNT ==>
      WellNumbered(Push(WithTopic(topics, tp.topic), tp, payload))
  {
  }

  /** A message keeps the numbering exactly when its partition carries its index as id, which the filler partitions of a recovered topic do not. */
  lemma PushNumbered(topics: Topics, tp: TopicPartition, payload: string)
    requires WellNumbered(topics) && HasPartition(topics, tp)
    ensures WellNumbered(Push(topics, tp, payload)) <==> topics[tp.topic].partitions[tp.partition].id == tp.partition
  {
    var pushed := Push(topics, tp, payload);
    assert pushed[tp.topic].partitions[tp.partition].messages != [];
  }

  lemma RecoveredNumbered(files: Files, follower: bool)
    ensures WellNumbered(Recovered(files, follower).topics)
  {
    hide Scan;
    EmptyRejected();
  }

  lemma MergedNumbered(topics: Topics, more: Topics)
    requires WellNumbered(more)
    ensures WellNumbered(topics) ==> WellNumbered(topics + more)
  {
  }

  class Broker {
    const disk: Disk
    var topics: Topics
    var consumerGroups: GroupTable
    var replicationProgress: map<TopicPartition, nat>
    var role: BrokerRole
    var followerPort: int

    constructor (disk: Disk)
      ensures this.disk == disk && topics == map[] && consumerGroups == map[] && replicationProgress == map[]
      ensures WellNumbered(topics)
      ensures role == LEADER && followerPort == -1
    {
      this.disk := disk;
      topics, consumerGroups, replicationProgress := map[], map[], map[];
      role, followerPort := LEADER, -1;
    }

    function State(): Store
      reads this, disk
    {
      Store(topics, disk.files, replicationProgress)
    }

    method Configure(role: BrokerRole, followerPort: int)
      modifies this
      ensures this.role == role && this.followerPort == followerPort
      ensures State() == old(State()) && consumerGroups == old(consumerGroups)
    {
      this.role, this.followerPort := role, followerPort;
    }

    method PromoteToLeader()
      modifies this
      ensures role == LEADER && followerPort == -1
      ensures State() == old(State()) && consumerGroups == old(consumerGroups)
    {
      role, followerPort := LEADER, -1;
    }

    predicate Replicates()
      reads this
    {
      role == LEADER && followerPort > 0
    }

    // ----- Recovery -----

    /** recover_from_disk: whatever order the directories come in, the result is the function Recovered of the files. */
    method RecoverFromDisk()
      requires forall tp | tp in disk.files :: tp.topic != "" && tp.partition >= 0
      modifies this`topics, this`replicationProgress, disk
      ensures var r := Recovered(old(disk.files), role == FOLLOWER);
        && disk.files == r.files
        && topics == old(topics) + r.topics
        && replicationProgress == old(replicationProgress) + r.progress
      ensures WellNumbered(old(topics)) ==> WellNumbered(topics)
    {
      hide WellNumbered, Log, TruncatedFor, ProgressFor, FilesOfAll, RecoveredTopics, TopicNames, FilesOf, Recovered;
      ghost var files := disk.files;
      ghost var names := TopicNames(files);
      var left := TopicNames(disk.files);
      NothingRecovered(files, role == FOLLOWER);
      assert names - left == {};
      while left != {}
        invariant left <= names
        invariant disk.files == TruncatedFor(files, FilesOfAll(files, names - left))
        invariant topics == old(topics) + RecoveredTopics(files, names - left)
        invariant replicationProgress == old(replicationProgress) + ProgressFor(files, FilesOfAll(files, names - left), role == FOLLOWER)
      {
        var topicName :| topicName in left;
        ghost var seen := names - left;
        OneMoreTopic(files, seen, topicName);
        var topic := RecoverTopic(topicName, files, FilesOfAll(files, seen), old(replicationProgress));
        left := left - {topicName};
        assert names - left == seen + {topicName};
        topics := topics[topicName := topic];
      }
      assert names - left == names;
      AllRecovered(files, role == FOLLOWER);
      RecoveredNumbered(files, role == FOLLOWER);
      MergedNumbered(old(topics), Recovered(files, role == FOLLOWER).topics);
    }

    // One topic directory, its partition files in any order.
    method RecoverTopic(topicName: string, ghost files: Files, ghost done: set<TopicPartition>, ghost base: map<TopicPartition, nat>)
      returns (topic: Topic)
      requires forall tp | tp in files :: tp.topic != "" && tp.partition >= 0
      requires done !! FilesOf(files, topicName)
      requires disk.files == TruncatedFor(files, done)
      requires replicationProgress == base + ProgressFor(files, done, role == FOLLOWER)
      modifies this`replicationProgress, disk
      ensures topic == RecoveredTopic(files, topicName)
      ensures disk.files == TruncatedFor(files, done + FilesOf(files, topicName))
      ensures replicationProgress == base + ProgressFor(files, done + FilesOf(files, topicName), role == FOLLOWER)
    {
      hide Scan, RecoveredTopic, TruncatedFor, ProgressFor, PartTopic, NewTopic;
      topic := NewTopic(topicName);
      NewTopicIsEmpty(files, topicName);
      FilesOfTruncated(files, done, topicName);
      var left := FilesOf(disk.files, topicName);
      ghost var all := FilesOf(files, topicName);
      assert all - left == {} && done + {} == done;
      while left != {}
        invariant left <= all == FilesOf(files, topicName)
        invariant topic == PartTopic(files, all - left, topicName)
        invariant disk.files == TruncatedFor(files, done + (all - left))
        invariant replicationProgress == base + ProgressFor(files, done + (all - left), role == FOLLOWER)
      {
        var tp :| tp in left;
        ghost var seen := all - left;
        OneMoreFile(files, seen, tp, topicName);
        OneMoreTruncated(files, done + seen, tp);
        topic := RecoverPartition(topic, tp);
        left := left - {tp};
        assert all - left == seen + {tp};
        assert done + (all - left) == done + seen + {tp};
      }
      assert all - left == all;
      WholeTopic(files, topicName);
    }

    method RecoverPartition(topic: Topic, tp: TopicPartition) returns (topic': Topic)
      requires tp in disk.files && tp.topic != "" && tp.partition >= 0
      requires GrownTo(topic.partitions, tp.partition)[tp.partition].messages == []
      modifies this`replicationProgress, disk
      ensures topic' == topic.(partitions := GrownTo(topic.partitions, tp.partition)[tp.partition := Partition(tp.partition, Log(old(disk.files), tp))])
      ensures disk.files == old(disk.files)[tp := Truncated(old(disk.files[tp]))]
      ensures replicationProgress == if role == FOLLOWER && Log(old(disk.files), tp) != []
                                     then old(replicationProgress)[tp := |Log(old(disk.files), tp)| - 1] else old(replicationProgress)
    {
      hide Scan;
      var partitions := topic.partitions;
      if tp.partition >= |partitions| {
        partitions := Resized(partitions, tp.partition + 1);
      }
      partitions := partitions[tp.partition := partitions[tp.partition].(id := tp.partition)];
      var log := new TopicLog(disk, tp.topic, tp.partition);
      assert log.key == tp;
      var records := log.ReadAll();
      for i := 0 to |records|
        invariant partitions == GrownTo(topic.partitions, tp.partition)[tp.partition := Partition(tp.partition, records[..i])]
      {
        assert records[..i + 1] == records[..i] + [records[i]];
        partitions := partitions[tp.partition := partitions[tp.partition].(messages := partitions[tp.partition].messages + [records[i]])];
      }
      assert records[..|records|] == records;
      topic' := topic.(partitions := partitions);
      if role == FOLLOWER && records != [] {
        replicationProgress := replicationProgress[tp := |records| - 1];
      }
    }

    // ----- Topics -----

    method FindOrCreate(topic: string)
      modifies this`topics
      ensures topics == WithTopic(old(topics), topic)
    {
      if topic !in topics {
        var created := Topic(topic, []);
        for i := 0 to DEFAULT_PARTITION_COUNT
          invariant topics == old(topics)
          invariant created == Topic(topic, NewTopic(topic).partitions[..i])
        {
          created := created.(partitions := created.partitions + [Partition(i, [])]);
        }
        assert NewTopic(topic).partitions[..DEFAULT_PARTITION_COUNT] == NewTopic(topic).partitions;
        topics := topics[topic := created];
      }
    }

    method PushMessage(tp: TopicPartition, payload: string)
      requires HasPartition(topics, tp)
      modifies this`topics
      ensures topics == Push(old(topics), tp, payload)
    {
      var topic := topics[tp.topic];
      var partition := topic.partitions[tp.partition];
      partition := partition.(messages := partition.messages + [payload]);
      topics := topics[tp.topic := topic.(partitions := topic.partitions[tp.partition := partition])];
    }

    /** PRODUCE: synchronize (result ignored), push, append, replicate. */
    method HandleProduce(tp: TopicPartition, payload: string, env: Environment, link: FollowerLink)
      returns (reply: Reply, ghost tps: seq<TopicPartition>)
      requires tp.topic != ""
      modifies this`topics, disk, link
      ensures Replicates() && WellNumbered(old(topics)) ==> IsListing(tps, old(topics))
      ensures WellNumbered(old(topics)) && tp.partition < DEFAULT_PARTITION_COUNT ==> WellNumbered(topics)
      ensures var a := AppendOf(payload, env.writes, env.flush);
        if Replicates() then
          var p := Produce(old(State()), old(link.follower), tp, payload, a, tps, old(link.script));
          State() == p.leader && reply == p.reply && link.follower == p.follower && link.script == p.script
        else
          (State(), reply) == ProduceLocally(old(State()), tp, payload, a) && link.follower == old(link.follower) && link.script == old(link.script)
    {
      hide Serialize, Deliver, SyncAll, WellNumbered, IsListing;
      ghost var a := AppendOf(payload, env.writes, env.flush);
      tps := [];
      if Replicates() {
        var synced;
        synced, tps := SynchronizeFollower(link);
        if synced == LeaderDied {
          return Died, tps;
        }
      }
      ghost var offset' := |Messages(topics, tp)|;
      StaysNumbered(topics, tp, payload);
      FindOrCreate(tp.topic);
      if tp.partition < 0 || tp.partition >= |topics[tp.topic].partitions| {
        return Answered("ERROR"), tps;
      }
      var offset := |topics[tp.topic].partitions[tp.partition].messages|;
      assert offset == offset';
      PushMessage(tp, payload);
      var log := new TopicLog(disk, tp.topic, tp.partition);
      var outcome := log.Append(payload, env.writes, env.flush);
      if outcome == Threw {
        return Exception, tps;
      }
      if outcome == Crashed {
        return Died, tps;
      }
      reply := Answered("OK");
      if Replicates() {
        var answer := link.Request(ReplicateText(tp.topic, tp.partition, offset, payload));
        if answer == LeaderDies {
          reply := Died;
        } else if answer != Answer("OK") {
          reply := Answered("ERROR");
        }
      }
    }

    /** REPLICATE on a follower: append, then progress and memory; the offset is not checked. */
    method HandleReplicate(tp: TopicPartition, offset: nat, payload: string, env: Environment) returns (reply: Reply)
      requires tp.topic != ""
      modifies this`topics, this`replicationProgress, disk
      ensures role != FOLLOWER ==> State() == old(State()) && reply == Answered("ERROR")
      ensures role == FOLLOWER ==> (State(), reply) == Replicate(old(State()), tp, offset, payload, AppendOf(payload, env.writes, env.flush))
      ensures reply == Answered("OK") <==>
        Messages(topics, tp) == old(Messages(topics, tp)) + [payload] && tp in replicationProgress && replicationProgress[tp] == offset
      ensures reply != Answered("OK") ==>
        replicationProgress == old(replicationProgress) && forall other :: Messages(topics, other) == old(Messages(topics, other))
      ensures reply == Answered("OK") ==> GetOr(disk.files, tp, "") == old(GetOr(disk.files, tp, "")) + Serialize(payload)
      ensures WellNumbered(old(topics)) && tp.partition < DEFAULT_PARTITION_COUNT ==> WellNumbered(topics)
    {
      hide Serialize, WellNumbered, Messages, Push;
      if role != FOLLOWER {
        return Answered("ERROR");
      }
      StaysNumbered(topics, tp, payload);
      ReplicateAnswers(State(), tp, offset, payload, AppendOf(payload, env.writes, env.flush));
      FindOrCreate(tp.topic);
      if tp.partition < 0 || tp.partition >= |topics[tp.topic].partitions| {
        return Answered("ERROR");
      }
      var log := new TopicLog(disk, tp.topic, tp.partition);
      var outcome := log.Append(payload, env.writes, env.flush);
      if outcome == Crashed {
        return Died;
      }
      if outcome == Threw {
        return Answered("ERROR");
      }
      replicationProgress := replicationProgress[tp := offset];
      PushMessage(tp, payload);
      reply := Answered("OK");
    }

    /** FETCH: the messages from an offset on, joined by newlines. */
    method HandleFetch(tp: TopicPartition, offset: nat) returns (response: string)
      ensures response == Fetch(topics, tp, offset)
    {
      if tp.topic !in topics || tp.partition < 0 || tp.partition >= |topics[tp.topic].partitions| {
        return "ERROR";
      }
      var messages := topics[tp.topic].partitions[tp.partition].messages;
      if offset >= |messages| {
        return "";
      }
      response := "";
      var rest := messages[offset..];
      JoinStarts(rest);
      for i := offset to |messages|
        invariant response == JoinedSoFar(rest, i - offset)
      {
        JoinOneMore(rest, i - offset);
        hide JoinedSoFar;
        response := response + messages[i];
        if i < |messages| - 1 {
          response := response + "\n";
        }
      }
    }

    // ----- The leader's side of replication -----

    method GetMissingRecords(tp: TopicPartition, progress: Option<nat>) returns (missing: seq<string>)
      ensures missing == MissingRecords(topics, tp, progress)
    {
      if tp.topic !in topics || tp.partition < 0 || tp.partition >= |topics[tp.topic].partitions| {
        return [];
      }
      var messages := topics[tp.topic].partitions[tp.partition].messages;
      if messages == [] {
        return [];
      }
      var firstMissing := 0;
      if progress.Some? {
        if progress.value >= |messages| - 1 {
          return [];
        }
        firstMissing := progress.value + 1;
      }
      return messages[firstMissing..];
    }

    method CatchUpFollower(tp: TopicPartition, progress: Option<nat>, link: FollowerLink) returns (result: SyncResult)
      modifies link
      ensures Synced(link.follower, result, link.script) ==
        if role != LEADER then Synced(old(link.follower), Failed, old(link.script))
        else if MissingRecords(topics, tp, progress) != [] && followerPort <= 0 then Synced(old(link.follower), Failed, old(link.script))
        else SendRecords(old(link.follower), tp, MissingRecords(topics, tp, progress), FirstMissing(progress), old(link.script))
    {
      hide Deliver, SendRecords, MissingRecords, ReplicateText;
      if role != LEADER {
        return Failed;
      }
      var missing := GetMissingRecords(tp, progress);
      SendNothing(link.follower, tp, FirstMissing(progress), link.script);
      if missing == [] {
        return Caught;
      }
      if followerPort <= 0 {
        return Failed;
      }
      var firstMissingOffset := if progress.Some? then progress.value + 1 else 0;
      var index := 0;
      assert missing[0..] == missing;
      while index < |missing|
        invariant index <= |missing|
        invariant SendRecords(link.follower, tp, missing[index..], firstMissingOffset + index, link.script)
               == SendRecords(old(link.follower), tp, missing, firstMissingOffset, old(link.script))
      {
        SendNext(link.follower, tp, missing, index, firstMissingOffset, link.script);
        var answer := link.Request(ReplicateText(tp.topic, tp.partition, firstMissingOffset + index, missing[index]));
        if answer == LeaderDies {
          return LeaderDied;
        }
        if answer != Answer("OK") {
          return Failed;
        }
        index := index + 1;
      }
      assert missing[index..] == [];
      SendNothing(link.follower, tp, firstMissingOffset + index, link.script);
      result := Caught;
    }

    // query_follower_progress, then catch_up_follower
    method SynchronizePartition(tp: TopicPartition, link: FollowerLink) returns (result: SyncResult)
      requires Replicates()
      modifies link
      ensures Synced(link.follower, result, link.script) == SyncPartition(old(link.follower), topics, tp, old(link.script))
    {
      hide Deliver, SendRecords, MissingRecords;
      var answer := link.Request(ProgressText(tp.topic, tp.partition));
      if answer == LeaderDies {
        return LeaderDied;
      }
      if answer == Failure || ReadProgress(answer.text).None? {
        return Failed;
      }
      result := CatchUpFollower(tp, ReadProgress(answer.text).value, link);
    }

    method SynchronizeFollower(link: FollowerLink) returns (result: SyncResult, ghost tps: seq<TopicPartition>)
      modifies link
      ensures Replicates() && WellNumbered(topics) ==> IsListing(tps, topics)
      ensures Synced(link.follower, result, link.script) ==
        if Replicates() then SyncAll(old(link.follower), topics, tps, old(link.script))
        else Synced(old(link.follower), Failed, old(link.script))
    {
      hide SyncPartition, IsListing;
      if role != LEADER || followerPort <= 0 {
        return Failed, [];
      }
      var partitions := ListPartitions();
      tps := partitions;
      var i := 0;
      while i < |partitions|
        invariant i <= |partitions|
        invariant SyncAll(link.follower, topics, partitions[i..], link.script) == SyncAll(old(link.follower), topics, partitions, old(link.script))
      {
        assert partitions[i..][1..] == partitions[i + 1..];
        result := SynchronizePartition(partitions[i], link);
        if result != Caught {
          return;
        }
        i := i + 1;
      }
      result := Caught;
    }

    method ListPartitions() returns (partitions: seq<TopicPartition>)
      ensures WellNumbered(topics) ==> IsListing(partitions, topics)
    {
      partitions := [];
      var left := topics.Keys;
      while left != {}
        invariant left <= topics.Keys
        invariant forall tp :: tp in partitions <==> tp.topic !in left && Listed(topics, tp, PartitionsOf(topics, tp.topic))
      {
        var t :| t in left;
        left := left - {t};
        ghost var before := partitions;
        for i := 0 to |topics[t].partitions|
          invariant forall tp :: tp in partitions <==> tp in before || (tp.topic == t && Listed(topics, tp, i))
        {
          var partition := topics[t].partitions[i];
          if partition.messages != [] {
            partitions := partitions + [TopicPartition(t, partition.id)];
          }
        }
      }
      if WellNumbered(topics) {
        forall tp
          ensures tp in partitions <==> Messages(topics, tp) != []
        {
          if Messages(topics, tp) != [] {
            assert topics[tp.topic].partitions[tp.partition].id == tp.partition;
          }
        }
      }
    }

    // ----- Consumer groups -----

    method JoinGroup(g: string, c: string, topic: string) returns (response: string)
      modifies this`consumerGroups
      ensures GroupReply(consumerGroups, response) == Join(old(consumerGroups), g, c, topic)
      ensures response == if IsIn(old(consumerGroups), g, c) then "ERROR" else "OK"
    {
      hide Rebalanced;
      var group := GetOr(consumerGroups, g, ConsumerGroup(g, map[], map[]));
      if c in group.members {
        return "ERROR";
      }
      group := group.(members := group.members[c := GroupMember(c, topic, [])]);
      group := RebalanceGroup(group);
      consumerGroups := consumerGroups[g := group];
      response := "OK";
    }

    method LeaveGroup(g: string, c: string) returns (response: string)
      modifies this`consumerGroups
      ensures GroupReply(consumerGroups, response) == Leave(old(consumerGroups), g, c)
      ensures response == if IsIn(old(consumerGroups), g, c) then "OK" else "ERROR"
    {
      if g !in consumerGroups || c !in consumerGroups[g].members {
        return "ERROR";
      }
      RemoveConsumerFromGroup(g, c);
      response := "OK";
    }

    method RemoveConsumerFromGroup(g: string, c: string)
      modifies this`consumerGroups
      ensures consumerGroups == Remove(old(consumerGroups), g, c)
    {
      hide Rebalanced;
      if g !in consumerGroups {
        return;
      }
      var group := consumerGroups[g];
      group := group.(members := group.members - {c});
      if group.members == map[] {
        consumerGroups := consumerGroups - {g};
      } else {
        group := RebalanceGroup(group);
        consumerGroups := consumerGroups[g := group];
      }
    }

    method GroupPoll(g: string, c: string) returns (response: string)
      ensures response == Poll(consumerGroups, g, c)
    {
      if g !in consumerGroups || c !in consumerGroups[g].members {
        return "ERROR";
      }
      var group := consumerGroups[g];
      var assignments := group.members[c].assignments;
      hide JoinedSoFar, RowTexts, PollRows, Poll;
      ghost var rows := RowTexts(PollRows(group, c));
      PollIs(consumerGroups, g, c);
      JoinStarts(rows);
      response := "";
      for i := 0 to |assignments|
        invariant response == JoinedSoFar(rows, i)
      {
        var committed := 0;
        if assignments[i] in group.committedOffsets {
          committed := group.committedOffsets[assignments[i]];
        }
        var row := assignments[i].topic + " " + DecimalInt(assignments[i].partition) + " " + Decimal(committed);
        RowAt(group, c, i, committed);
        JoinOneMore(rows, i);
        response := response + row;
        if i + 1 < |assignments| {
          response := response + "\n";
        }
      }
    }

    method CommitOffset(g: string, c: string, tp: TopicPartition, offset: nat) returns (response: string)
      modifies this`consumerGroups
      ensures GroupReply(consumerGroups, response) == Commit(old(consumerGroups), g, c, tp, offset, HasPartition(topics, tp))
      ensures response == if IsIn(old(consumerGroups), g, c) && HasPartition(topics, tp) then "OK" else "ERROR"
    {
      if g !in consumerGroups || c !in consumerGroups[g].members {
        return "ERROR";
      }
      if tp.topic !in topics || tp.partition < 0 || tp.partition >= |topics[tp.topic].partitions| {
        return "ERROR";
      }
      var group := consumerGroups[g];
      consumerGroups := consumerGroups[g := group.(committedOffsets := group.committedOffsets[tp := offset])];
      response := "OK";
    }

    // ----- Requests -----

    /** handle_request. The parser guarantees a topic name to every PRODUCE and REPLICATE. */
    method HandleRequest(req: Request, env: Environment, link: FollowerLink) returns (reply: Reply, ghost tps: seq<TopicPartition>)
      requires req.kind in {PRODUCE, REPLICATE} ==> req.topic != ""
      modifies this`topics, this`replicationProgress, this`consumerGroups, disk, link
      ensures Replicates() && req.kind == PRODUCE && WellNumbered(old(topics)) ==> IsListing(tps, old(topics))
      ensures WellNumbered(old(topics)) && (req.kind in {PRODUCE, REPLICATE} ==> req.partition < DEFAULT_PARTITION_COUNT) ==> WellNumbered(topics)
      ensures req.kind != PRODUCE || !Replicates() ==> link.follower == old(link.follower) && link.script == old(link.script)
      ensures req.kind == PING ==> reply == Answered("PONG")
      ensures req.kind == INVALID ==> reply == Answered("ERROR")
      ensures req.kind == REPLICATION_PROGRESS ==> reply == Answered(
        if role != FOLLOWER then "ERROR"
        else if TopicPartition(req.topic, req.partition) in replicationProgress
        then Decimal(replicationProgress[TopicPartition(req.topic, req.partition)]) else "NONE")
      ensures req.kind == FETCH && !HasPartition(topics, TopicPartition(req.topic, req.partition)) ==> reply == Answered("ERROR")
      ensures var tp, a := TopicPartition(req.topic, req.partition), AppendOf(req.payload, env.writes, env.flush);
        match req.kind
        case PRODUCE =>
          && consumerGroups == old(consumerGroups)
          && if Replicates() then
            var p := Produce(old(State()), old(link.follower), tp, req.payload, a, tps, old(link.script));
            State() == p.leader && reply == p.reply && link.follower == p.follower && link.script == p.script
          else (State(), reply) == ProduceLocally(old(State()), tp, req.payload, a)
        case REPLICATE =>
          && consumerGroups == old(consumerGroups)
          && if role == FOLLOWER then (State(), reply) == Replicate(old(State()), tp, req.offset, req.payload, a)
          else State() == old(State()) && reply == Answered("ERROR")
        case JOIN =>
          State() == old(State()) && reply.Answered?
          && GroupReply(consumerGroups, reply.text) == Join(old(consumerGroups), req.groupId, req.consumerId, req.topic)
        case LEAVE =>
          State() == old(State()) && reply.Answered?
          && GroupReply(consumerGroups, reply.text) == Leave(old(consumerGroups), req.groupId, req.consumerId)
        case COMMIT =>
          State() == old(State()) && reply.Answered?
          && GroupReply(consumerGroups, reply.text)
             == Commit(old(consumerGroups), req.groupId, req.consumerId, tp, req.offset, HasPartition(old(topics), tp))
        case _ =>
          && State() == old(State()) && consumerGroups == old(consumerGroups)
          && reply == Answered(ReadOnlyAnswer(old(State()), old(consumerGroups), role, req, env.metrics))
    {
      hide IsListing, WellNumbered, Produce, ProduceLocally, Replicate, Join, Leave, Commit, AppendOf;
      tps := [];
      var tp := TopicPartition(req.topic, req.partition);
      var text;
      match req.kind {
        case PING => reply := Answered("PONG");
        case METRICS => reply := Answered(env.metrics);
        case REPLICATION_PROGRESS =>
          if role != FOLLOWER {
            reply := Answered("ERROR");
          } else {
            reply := Answered(ProgressReply(replicationProgress, tp));
          }
        case PRODUCE => reply, tps := HandleProduce(tp, req.payload, env, link);
        case REPLICATE => reply := HandleReplicate(tp, req.offset, req.payload, env);
        case FETCH =>
          text := HandleFetch(tp, req.offset);
          reply := Answered(text);
        case JOIN =>
          text := JoinGroup(req.groupId, req.consumerId, req.topic);
          reply := Answered(text);
        case LEAVE =>
          text := LeaveGroup(req.groupId, req.consumerId);
          reply := Answered(text);
        case GROUP_POLL =>
          text := GroupPoll(req.groupId, req.consumerId);
          reply := Answered(text);
        case COMMIT =>
          text := CommitOffset(req.groupId, req.consumerId, tp, req.offset);
          reply := Answered(text);
        case INVALID => reply := Answered("ERROR");
      }
    }
  }

  /** A follower of the replication theorems is this class in role FOLLOWER, its append completed or cut off by a crash. */
  method FollowerRequest(broker: Broker, req: Request, env: Environment, link: FollowerLink) returns (reply: Reply)
    requires broker.role == FOLLOWER && req.kind in {REPLICATE, REPLICATION_PROGRESS}
    requires req.kind == REPLICATE ==> req.topic != "" && !AppendOf(req.payload, env.writes, env.flush).outcome.Threw?
    modifies broker`topics, broker`replicationProgress, broker`consumerGroups, broker.disk, link
    ensures var a, s := AppendOf(req.payload, env.writes, env.flush), old(broker.State());
      if req.kind == REPLICATE && a.outcome.Crashed? then broker.State() == FollowerDies(s, req, a.written)
      else reply.Answered? && (broker.State(), reply.text) == FollowerHandles(s, req)
  {
    hide AppendOf, Serialize, WithTopic, Push, HasPartition;
    var handled, _ := broker.HandleRequest(req, env, link);
    reply := handled;
  }

  /** The leader of the replication theorems is this class in role LEADER: one PRODUCE is a legal step of the cluster. */
  method LeaderRequest(broker: Broker, req: Request, env: Environment, link: FollowerLink) returns (reply: Reply, ghost step: ReplicationSafety.Step)
    requires broker.Replicates() && req.kind == PRODUCE && WellNumbered(broker.topics)
    requires Plain(TopicPartition(req.topic, req.partition), req.payload)
    requires |Log(broker.disk.files, TopicPartition(req.topic, req.partition))| < LONG_LONG_MAX
    requires !AppendOf(req.payload, env.writes, env.flush).outcome.Threw?
    modifies broker`topics, broker`replicationProgress, broker`consumerGroups, broker.disk, link
    ensures var c := Cluster(old(broker.State()), true, old(link.follower));
      && step.Producing? && step.tp == TopicPartition(req.topic, req.partition) && step.payload == req.payload
      && Legal(c, step) && Next(c, step) == Cluster(broker.State(), !reply.Died?, link.follower)
    ensures WellNumbered(broker.topics)
  {
    hide AppendOf, Serialize, WellNumbered, IsListing, Produce, Log, IsPayload;
    var a := AppendOf(req.payload, env.writes, env.flush);
    var handled, tps := broker.HandleRequest(req, env, link);
    reply := handled;
    step := Producing(TopicPartition(req.topic, req.partition), req.payload, a, tps, old(link.script));
  }

  /** A restart of the replication theorems is a new object that recovers from the files of the old one. */
  method Restart(disk: Disk, role: BrokerRole, followerPort: int) returns (broker: Broker)
    requires forall tp | tp in disk.files :: tp.topic != "" && tp.partition >= 0
    modifies disk
    ensures fresh(broker) && broker.disk == disk && broker.role == role && broker.followerPort == followerPort
    ensures broker.State() == Recovered(old(disk.files), role == FOLLOWER) && WellNumbered(broker.topics)
  {
    hide WellNumbered, Recovered;
    broker := new Broker(disk);
    broker.Configure(role, followerPort);
    broker.RecoverFromDisk();
    assert map[] + broker.topics == broker.topics;
  }

  lemma SendNothing(f: Follower, tp: TopicPartition, offset: nat, script: seq<Net>)
    ensures SendRecords(f, tp, [], offset, script) == Synced(f, Caught, script)
  {
  }

  lemma SendNext(f: Follower, tp: TopicPartition, records: seq<string>, index: nat, base: nat, script: seq<Net>)
    requires index < |records|
    ensures SendRecords(f, tp, records[index..], base + index, script) ==
      if script == [] then Synced(f, LeaderDied, []) else
      var sent := Deliver(f, ReplicateText(tp.topic, tp.partition, base + index, records[index]), script[0]);
      if sent.reply == Some("OK") then SendRecords(sent.follower, tp, records[index + 1..], base + (index + 1), script[1..])
      else Synced(sent.follower, Failed, script[1..])
  {
    hide Deliver, ReplicateText;
    assert records[index..][1..] == records[index + 1..];
  }

  lemma PollIs(groups: GroupTable, g: string, c: string)
    requires g in groups && c in groups[g].members
    ensures Poll(groups, g, c) == JoinLines(RowTexts(PollRows(groups[g], c)))
    ensures |RowTexts(PollRows(groups[g], c))| == |groups[g].members[c].assignments|
  {
  }

  lemma RowAt(group: ConsumerGroup, c: string, i: nat, committed: nat)
    requires c in group.members && i < |group.members[c].assignments|
    requires committed == GetOr(group.committedOffsets, group.members[c].assignments[i], 0)
    ensures i < |RowTexts(PollRows(group, c))|
    ensures var tp := group.members[c].assignments[i];
      RowTexts(PollRows(group, c))[i] == tp.topic + " " + DecimalInt(tp.partition) + " " + Decimal(committed)
  {
  }

  // std::vector::resize with Partition(-1) as the filler
  function Resized(partitions: seq<Partition>, size: nat): seq<Partition>
    requires size >= |partitions|
  {
    partitions + seq(size - |partitions|, _ => Partition(-1, []))
  }

  // Large enough for a partition id
  function GrownTo(partitions: seq<Partition>, id: nat): (r: seq<Partition>)
    ensures id < |r|
  {
    if id >= |partitions| then Resized(partitions, id + 1) else partitions
  }

  function FilesOfAll(files: Files, names: set<string>): set<TopicPartition> {
    set tp | tp in files && tp.topic in names
  }

  // The files and the progress once some of the files have been recovered.
  function TruncatedFor(files: Files, done: set<TopicPartition>): Files {
    map tp | tp in files :: if tp in done then Truncated(files[tp]) else files[tp]
  }

  function ProgressFor(files: Files, done: set<TopicPartition>, follower: bool): map<TopicPartition, nat> {
    if follower then map tp | tp in files && tp in done && Log(files, tp) != [] :: |Log(files, tp)| - 1 else map[]
  }

  // The topic rebuilt from some of its files.
  function PartTopic(files: Files, mine: set<TopicPartition>, topic: string): Topic {
    RecoveredTopic(Only(files, mine), topic)
  }

  function Only(files: Files, mine: set<TopicPartition>): Files {
    map tp | tp in mine && tp in files :: files[tp]
  }

  function RecoveredTopics(files: Files, names: set<string>): Topics {
    map t | t in names :: RecoveredTopic(files, t)
  }

  lemma NothingRecovered(files: Files, follower: bool)
    ensures files == TruncatedFor(files, FilesOfAll(files, {})) && ProgressFor(files, FilesOfAll(files, {}), follower) == map[]
    ensures RecoveredTopics(files, {}) == map[]
  {
  }

  lemma AllRecovered(files: Files, follower: bool)
    ensures var r, all := Recovered(files, follower), FilesOfAll(files, TopicNames(files));
      TruncatedFor(files, all) == r.files && RecoveredTopics(files, TopicNames(files)) == r.topics && ProgressFor(files, all, follower) == r.progress
  {
    hide Log, Truncated, RecoveredTopic;
    assert FilesOfAll(files, TopicNames(files)) == files.Keys;
  }

  lemma OneMoreTopic(files: Files, seen: set<string>, t: string)
    requires t !in seen
    ensures FilesOfAll(files, seen + {t}) == FilesOfAll(files, seen) + FilesOf(files, t)
    ensures FilesOfAll(files, seen) !! FilesOf(files, t)
    ensures RecoveredTopics(files, seen + {t}) == RecoveredTopics(files, seen)[t := RecoveredTopic(files, t)]
  {
    hide RecoveredTopic;
  }

  lemma FilesOfTruncated(files: Files, done: set<TopicPartition>, topic: string)
    ensures FilesOf(TruncatedFor(files, done), topic) == FilesOf(files, topic)
  {
    hide Truncated;
  }

  lemma OneMoreTruncated(files: Files, done: set<TopicPartition>, tp: TopicPartition)
    requires tp in files && tp !in done
    ensures tp in TruncatedFor(files, done) && TruncatedFor(files, done)[tp] == files[tp]
    ensures TruncatedFor(files, done + {tp}) == TruncatedFor(files, done)[tp := Truncated(files[tp])]
    ensures ProgressFor(files, done + {tp}, false) == ProgressFor(files, done, false)
    ensures ProgressFor(files, done + {tp}, true) ==
      if Log(files, tp) != [] then ProgressFor(files, done, true)[tp := |Log(files, tp)| - 1] else ProgressFor(files, done, true)
  {
    hide Truncated, Log;
  }

  lemma NewTopicIsEmpty(files: Files, topic: string)
    ensures NewTopic(topic) == PartTopic(files, {}, topic)
  {
    EmptyRejected();
    hide Scan;
    var none := Only(files, {});
    assert none == map[];
    assert FilesOf(none, topic) == {};
    assert NewTopic(topic).partitions == RecoveredTopic(none, topic).partitions;
  }

  lemma WholeTopic(files: Files, topic: string)
    ensures PartTopic(files, FilesOf(files, topic), topic) == RecoveredTopic(files, topic)
  {
    hide Scan;
    var mine := FilesOf(files, topic);
    var part := Only(files, mine);
    assert FilesOf(part, topic) == mine;
    forall i
      ensures Log(part, TopicPartition(topic, i)) == Log(files, TopicPartition(topic, i))
    {
    }
    assert RecoveredTopic(part, topic).partitions == RecoveredTopic(files, topic).partitions;
  }

  lemma OneMoreFile(files: Files, seen: set<TopicPartition>, tp: TopicPartition, topic: string)
    requires tp in files && tp !in seen && tp.topic == topic && tp.partition >= 0
    requires forall other | other in seen :: other in files && other.topic == topic
    ensures var t, p := PartTopic(files, seen, topic), tp.partition;
      var grown := GrownTo(t.partitions, p);
      && grown[p].messages == []
      && PartTopic(files, seen + {tp}, topic) == t.(partitions := grown[p := Partition(p, Log(files, tp))])
  {
    hide Scan;
    EmptyRejected();
    var before := Only(files, seen);
    var after := Only(files, seen + {tp});
    assert FilesOf(before, topic) == seen && FilesOf(after, topic) == seen + {tp};
    var t, t', p := PartTopic(files, seen, topic), PartTopic(files, seen + {tp}, topic), tp.partition;
    assert |t'.partitions| == if p >= |t.partitions| then p + 1 else |t.partitions|;
    var grown := GrownTo(t.partitions, p);
    forall i | 0 <= i < |t'.partitions|
      ensures t'.partitions[i] == grown[p := Partition(p, Log(files, tp))][i]
      ensures i == p ==> grown[p].messages == []
    {
      assert Log(after, TopicPartition(topic, i)) == if i == p then Log(files, tp) else Log(before, TopicPartition(topic, i));
      if i >= |t.partitions| {
        assert TopicPartition(topic, i) !in seen;
      }
    }
  }

  // What the requests that change nothing answer.
  function ReadOnlyAnswer(s: Store, groups: GroupTable, role: BrokerRole, req: Request, metrics: string): string {
    var tp := TopicPartition(req.topic, req.partition);
    match req.kind
    case PING => "PONG"
    case METRICS => metrics
    case REPLICATION_PROGRESS => if role == FOLLOWER then ProgressReply(s.progress, tp) else "ERROR"
    case FETCH => Fetch(s.topics, tp, req.offset)
    case GROUP_POLL => Poll(groups, req.groupId, req.consumerId)
    case _ => "ERROR"
  }

  function PartitionsOf(topics: Topics, topic: string): nat {
    if topic in topics then |topics[topic].partitions| else 0
  }

  // One of the first count partitions of the topic is not empty and has this id.
  ghost predicate Listed(topics: Topics, tp: TopicPartition, count: nat) {
    tp.topic in topics && exists i | 0 <= i < count && i < |topics[tp.topic].partitions| ::
      topics[tp.topic].partitions[i].messages != [] && topics[tp.topic].partitions[i].id == tp.partition
  }
}
