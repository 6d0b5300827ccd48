/**
 The other half of replication: what a follower that answers is brought to, and exactly when synchronization succeeds.
 */
module CatchUp {
  import opened Types
  import opened Bytes
  import opened Text
  import opened Framing
  import opened Record
  import opened TopicLog
  import opened Protocol
  import opened Store
  import opened Replication
  import opened ReplicationSafety

  // Every request is applied and acknowledged.
  ghost predicate AllAcked(script: seq<Net>) {
    forall i | 0 <= i < |script| :: script[i].fate.Acked?
  }

  // It runs, or is started before the next request.
  ghost predicate Available(f: Follower, script: seq<Net>) {
    f.up || (script != [] && script[0].restart)
  }

  predicate FitsFrame(tp: TopicPartition, offset: nat, payload: string) {
    |ReplicateText(tp.topic, tp.partition, offset, payload)| <= MAX_PAYLOAD_SIZE
  }

  // The progress query of a partition, and every record from an offset on, can be sent.
  ghost predicate Sendable(log: seq<string>, tp: TopicPartition, from: nat) {
    |ProgressText(tp.topic, tp.partition)| <= MAX_PAYLOAD_SIZE && forall i | from <= i < |log| :: FitsFrame(tp, i, log[i])
  }

  // ----- One request -----

  lemma HealthyReplicate(f: Follower, leader: Files, offsets: Offsets, tp: TopicPartition, offset: nat, net: Net)
    requires Tracks(f, leader, offsets) && PlainLog(leader) && AllGapless(offsets) && IsNext(leader, offsets, tp, offset)
    requires net.fate.Acked? && (f.up || net.restart)
    ensures var payload := Log(leader, tp)[offset]; var sent := Deliver(f, ReplicateText(tp.topic, tp.partition, offset, payload), net);
      && sent.follower.up && (sent.reply == Some("OK") <==> FitsFrame(tp, offset, payload))
      && Tracks(sent.follower, leader, if sent.reply == Some("OK") then Noted(offsets, tp, offset) else offsets)
  {
    hide Log, PlainLog, Deliver, Tracks, ReplicateText;
    DeliverReplicate(f, leader, offsets, tp, offset, net);
    HealthyAnswer(f, leader, offsets, tp, offset, net);
  }

  lemma HealthyAnswer(f: Follower, leader: Files, offsets: Offsets, tp: TopicPartition, offset: nat, net: Net)
    requires Tracks(f, leader, offsets) && PlainLog(leader) && AllGapless(offsets) && offset < |Log(leader, tp)|
    requires net.fate.Acked? && (f.up || net.restart)
    ensures var payload := Log(leader, tp)[offset]; var sent := Deliver(f, ReplicateText(tp.topic, tp.partition, offset, payload), net);
      && sent.follower.up && (sent.reply == Some("OK") <==> FitsFrame(tp, offset, payload))
      && (sent.reply != Some("OK") ==> !Applied(f, sent.follower, tp))
  {
    var payload := Log(leader, tp)[offset];
    assert Plain(tp, payload) && offset <= LONG_LONG_MAX;
    hide Log, PlainLog, Receive, FitsFrame, ReplicateText, Plain, Recovered, RecoverableFiles, Agrees, Sample;
    RestartLogs(f);
    if net.restart {
      RestartTracks(f, leader, offsets);
    }
    FollowerAnswers(if net.restart then Restarted(f) else f, tp, offset, payload);
  }

  lemma FollowerAnswers(f: Follower, tp: TopicPartition, offset: nat, payload: string)
    requires f.up && Wide(f.store.topics) && Plain(tp, payload) && offset <= LONG_LONG_MAX
    ensures var sent := Receive(f, ReplicateText(tp.topic, tp.partition, offset, payload), Acked);
      && sent.follower.up && (sent.reply == Some("OK") <==> FitsFrame(tp, offset, payload))
      && (sent.reply != Some("OK") ==> sent.follower == f)
  {
    hide Parse, ReplicateText, Plain, Serialize, Push, WithTopic, HasPartition, Wide;
    DeliveredPlain(tp, offset, payload);
    PlainHasPartition(f.store.topics, tp, payload);
  }

  lemma HealthyProgress(f: Follower, leader: Files, offsets: Offsets, tp: TopicPartition, net: Net)
    requires Tracks(f, leader, offsets) && AllGapless(offsets)
    requires IsToken(tp.topic) && 0 <= tp.partition < DEFAULT_PARTITION_COUNT && |Log(leader, tp)| <= LONG_LONG_MAX
    requires net.fate.Acked? && (f.up || net.restart)
    ensures var sent := Deliver(f, ProgressText(tp.topic, tp.partition), net);
      && Tracks(sent.follower, leader, offsets) && sent.follower.up
      && (sent.reply.Some? <==> |ProgressText(tp.topic, tp.partition)| <= MAX_PAYLOAD_SIZE)
      && (sent.reply.Some? ==> exists p: Option<nat> :: ReadProgress(sent.reply.value) == Some(p) && FirstMissing(p) == Following(offsets, tp))
  {
    ProgressAnswer(f, leader, offsets, tp, net);
    hide Log, Tracks, Parse, ProgressText, ReadProgress, FollowerHandles, Recovered;
  }

  // ----- Synchronization -----

  // What is left of the script, and of the follower.
  ghost predicate StillUp(s: Synced, script: seq<Net>, used: nat) {
    && s.follower.up && AllAcked(s.script) && |s.script| + used >= |script| && !s.result.LeaderDied?
  }

  // One partition moved, and if synchronization of it succeeded, to the end of the leader's log.
  ghost predicate Moved(s: Synced, leader: Files, offsets: Offsets, more: Offsets, tp: TopicPartition) {
    && Tracks(s.follower, leader, more) && AllGapless(more)
    && (forall other | other != tp :: At(more, other) == At(offsets, other))
    && (s.result.Caught? ==> Following(more, tp) == |Log(leader, tp)|)
  }

  lemma {:induction false} HealthySend(f: Follower, leader: Files, offsets: Offsets, tp: TopicPartition, records: seq<string>, script: seq<Net>)
    returns (more: Offsets)
    requires Tracks(f, leader, offsets) && PlainLog(leader) && AllGapless(offsets) && AllAcked(script) && f.up
    requires Following(offsets, tp) <= |Log(leader, tp)| && records == Log(leader, tp)[Following(offsets, tp)..] && |script| >= |records|
    ensures var s := SendRecords(f, tp, records, Following(offsets, tp), script);
      && StillUp(s, script, |records|) && Moved(s, leader, offsets, more, tp)
      && (s.result.Caught? <==> forall i | Following(offsets, tp) <= i < |Log(leader, tp)| :: FitsFrame(tp, i, Log(leader, tp)[i]))
    decreases |records|
  {
    hide Log, PlainLog, Deliver, Tracks, ReplicateText, FitsFrame;
    more := offsets;
    var offset := Following(offsets, tp);
    if records != [] {
      FollowingIsNext(f, leader, offsets, tp);
      NoteFollowing(offsets, tp, script, true);
      HealthyReplicate(f, leader, offsets, tp, offset, script[0]);
      var sent := Deliver(f, ReplicateText(tp.topic, tp.partition, offset, records[0]), script[0]);
      if sent.reply == Some("OK") {
        more := HealthySend(sent.follower, leader, Noted(offsets, tp, offset), tp, records[1..], script[1..]);
      }
    }
  }

  lemma HealthyPartition(f: Follower, l: Store, offsets: Offsets, tp: TopicPartition, script: seq<Net>) returns (more: Offsets)
    requires Agrees(l) && Tracks(f, l.files, offsets) && PlainLog(l.files) && AllGapless(offsets)
    requires Messages(l.topics, tp) != []
    requires AllAcked(script) && Available(f, script) && |script| >= 1 + |Messages(l.topics, tp)|
    ensures var s := SyncPartition(f, l.topics, tp, script);
      && StillUp(s, script, 1 + |Messages(l.topics, tp)|) && Moved(s, l.files, offsets, more, tp)
      && (s.result.Caught? <==> Sendable(Log(l.files, tp), tp, Following(offsets, tp)))
  {
    hide Agrees, Log, Messages, Deliver, Tracks, ProgressText, SendRecords, ReadProgress, FitsFrame;
    more := offsets;
    AgreeingLog(l, tp);
    var log := Log(l.files, tp);
    assert Plain(tp, log[0]);
    HealthyProgress(f, l.files, offsets, tp, script[0]);
    var sent := Deliver(f, ProgressText(tp.topic, tp.partition), script[0]);
    if sent.reply.Some? {
      var p: Option<nat> :| ReadProgress(sent.reply.value) == Some(p) && FirstMissing(p) == Following(offsets, tp);
      LastInLog(sent.follower, l.files, offsets, tp);
      assert MissingRecords(l.topics, tp, p) == log[Following(offsets, tp)..];
      more := HealthySend(sent.follower, l.files, offsets, tp, log[Following(offsets, tp)..], script[1..]);
    }
  }

  // The most requests that synchronizing these partitions can take.
  function Requests(topics: Topics, tps: seq<TopicPartition>): nat {
    if tps == [] then 0 else 1 + |Messages(topics, tps[0])| + Requests(topics, tps[1..])
  }

  ghost predicate AllSendable(leader: Files, offsets: Offsets, tps: seq<TopicPartition>) {
    forall i | 0 <= i < |tps| :: Sendable(Log(leader, tps[i]), tps[i], Following(offsets, tps[i]))
  }

  lemma SendableStays(s: Synced, leader: Files, offsets: Offsets, more: Offsets, tps: seq<TopicPartition>)
    requires tps != [] && Moved(s, leader, offsets, more, tps[0]) && s.result.Caught?
    requires Sendable(Log(leader, tps[0]), tps[0], Following(offsets, tps[0]))
    ensures AllSendable(leader, offsets, tps) <==> AllSendable(leader, more, tps[1..])
  {
    hide Tracks, Log, ProgressText, FitsFrame, AllGapless, At;
    var rest := tps[1..];
    assert forall i | 1 <= i < |tps| :: tps[i] == rest[i - 1];
    forall i | 0 <= i < |rest|
      ensures Sendable(Log(leader, rest[i]), rest[i], Following(offsets, rest[i])) <==> Sendable(Log(leader, rest[i]), rest[i], Following(more, rest[i]))
    {
      if rest[i] != tps[0] {
        assert At(more, rest[i]) == At(offsets, rest[i]);
      }
    }
    if AllSendable(leader, offsets, tps) {
      forall i | 0 <= i < |rest|
        ensures Sendable(Log(leader, rest[i]), rest[i], Following(more, rest[i]))
      {
        assert rest[i] == tps[i + 1];
      }
    }
    if AllSendable(leader, more, rest) {
      forall i | 0 <= i < |tps|
        ensures Sendable(Log(leader, tps[i]), tps[i], Following(offsets, tps[i]))
      {
        if i > 0 {
          assert rest[i - 1] == tps[i];
        }
      }
    }
  }

  lemma {:induction false} HealthyAll(f: Follower, l: Store, offsets: Offsets, tps: seq<TopicPartition>, script: seq<Net>)
    requires Agrees(l) && Tracks(f, l.files, offsets) && PlainLog(l.files) && AllGapless(offsets)
    requires forall i | 0 <= i < |tps| :: Messages(l.topics, tps[i]) != []
    requires AllAcked(script) && Available(f, script) && |script| > Requests(l.topics, tps)
    ensures var s := SyncAll(f, l.topics, tps, script);
      && AllAcked(s.script) && Available(s.follower, s.script) && |s.script| + Requests(l.topics, tps) >= |script| && !s.result.LeaderDied?
      && (s.result.Caught? <==> AllSendable(l.files, offsets, tps))
    decreases |tps|
  {
    hide Agrees, Log, PlainLog, Messages, Tracks, SyncPartition, AllGapless, Sendable;
    if tps != [] {
      var more := HealthyPartition(f, l, offsets, tps[0], script);
      var s := SyncPartition(f, l.topics, tps[0], script);
      if s.result.Caught? {
        SendableStays(s, l.files, offsets, more, tps);
        HealthyAll(s.follower, l, more, tps[1..], s.script);
      }
    }
  }

  // ----- A PRODUCE with a follower that answers -----

  // What synchronization has to send fits into frames.
  ghost predicate CanCatchUp(c: Cluster, tp: TopicPartition) {
    Log(c.leader.files, tp) != [] ==> Sendable(Log(c.leader.files, tp), tp, |Log(c.follower.store.files, tp)|)
  }

  // A PRODUCE whose append completes and whose requests to the follower are all applied and acknowledged.
  ghost predicate Healthy(c: Cluster, step: Step) {
    && step.Producing? && c.leaderUp && Legal(c, step) && step.a.outcome.Completed?
    && AllAcked(step.script) && Available(c.follower, step.script) && |step.script| > Requests(c.leader.topics, step.tps)
  }

  lemma FollowingIsLength(f: Follower, leader: Files, offsets: Offsets, tp: TopicPartition)
    requires Tracks(f, leader, offsets) && AllGapless(offsets)
    ensures Following(offsets, tp) == |Log(f.store.files, tp)| <= |Log(leader, tp)|
  {
    hide Log, Tracks;
    Sampled(f, leader, offsets, tp);
    assert At(offsets, tp) != [] ==> Gapless(At(offsets, tp));
  }

  lemma SyncCatchesUp(c: Cluster, step: Step, offsets: Offsets)
    requires Inv(c, offsets) && AllGapless(offsets) && Healthy(c, step)
    ensures var s := SyncAll(c.follower, c.leader.topics, step.tps, step.script);
      && AllAcked(s.script) && Available(s.follower, s.script) && s.script != [] && !s.result.LeaderDied?
      && (s.result.Caught? <==> forall tp :: CanCatchUp(c, tp))
  {
    hide Agrees, Log, PlainLog, Messages, Tracks, Sendable, SyncAll, RecoverableFiles, Wide, Plain, Serialize, AllAcked;
    HealthyAll(c.follower, c.leader, offsets, step.tps, step.script);
    forall tp
      ensures Log(c.leader.files, tp) == Messages(c.leader.topics, tp) && Following(offsets, tp) == |Log(c.follower.store.files, tp)|
    {
      AgreeingLog(c.leader, tp);
      FollowingIsLength(c.follower, c.leader.files, offsets, tp);
    }
    if forall tp :: CanCatchUp(c, tp) {
      forall i | 0 <= i < |step.tps|
        ensures Sendable(Log(c.leader.files, step.tps[i]), step.tps[i], Following(offsets, step.tps[i]))
      {
        assert CanCatchUp(c, step.tps[i]);
      }
    }
    if AllSendable(c.leader.files, offsets, step.tps) {
      forall tp
        ensures CanCatchUp(c, tp)
      {
        if Log(c.leader.files, tp) != [] {
          assert tp in step.tps;
        }
      }
    }
  }

  // Follower and leader have the same messages of every partition, on disk and in memory.
  ghost predicate Alike(c: Cluster) {
    && c.follower.up
    && (forall tp :: Log(c.follower.store.files, tp) == Log(c.leader.files, tp))
    && (forall tp :: Messages(c.follower.store.topics, tp) == Log(c.leader.files, tp))
    && (c.leaderUp ==> forall tp :: Messages(c.leader.topics, tp) == Log(c.leader.files, tp))
  }

  lemma ProduceCatchesUp(c: Cluster, step: Step, offsets: Offsets)
    requires Inv(c, offsets) && AllGapless(offsets) && Healthy(c, step)
    ensures var p := Produce(c.leader, c.follower, step.tp, step.payload, step.a, step.tps, step.script);
      && (p.sync.Caught? <==> forall tp :: CanCatchUp(c, tp))
      && (p.reply == Answered("OK") <==> FitsFrame(step.tp, |Log(c.leader.files, step.tp)|, step.payload))
      && !p.reply.Died?
  {
    hide Agrees, Log, PlainLog, Messages, Tracks, SyncAll, RecoverableFiles, Wide, Plain, Serialize, CanCatchUp, ProduceLocally, Deliver;
    SyncCatchesUp(c, step, offsets);
    var l, f, tp, payload := c.leader, c.follower, step.tp, step.payload;
    var mid := SyncAllTracks(f, l, offsets, step.tps, step.script, true);
    var s := SyncAll(f, l.topics, step.tps, step.script);
    LocalAppend(l, tp, payload, step.a);
    AgreeingLog(l, tp);
    var local := ProduceLocally(l, tp, payload, step.a);
    TracksGrowth(s.follower, l.files, local.0.files, mid);
    AfterEverything(s.follower, l.files, local.0.files, mid, tp, payload);
    HealthyReplicate(s.follower, local.0.files, mid, tp, |Log(l.files, tp)|, s.script[0]);
  }

  lemma CaughtUpAlike(c: Cluster, step: Step, offsets: Offsets)
    requires Inv(c, offsets) && AllGapless(offsets) && Healthy(c, step)
    requires var p := Produce(c.leader, c.follower, step.tp, step.payload, step.a, step.tps, step.script);
      p.sync.Caught? && p.reply == Answered("OK")
    ensures Alike(Next(c, step))
  {
    hide Agrees, Log, PlainLog, Messages, Tracks, RecoverableFiles, Wide, Plain, Serialize, Produce, ProduceLocally, AllAcked, Available;
    SyncGuards(c, step, offsets);
    var after := NextKeeps(c, step, offsets, true);
    var next := Next(c, step);
    GaplessIsPrefix(next, after);
    var mid, more := ProduceTracks(c.leader, c.follower, offsets, step.tp, step.payload, step.a, step.tps, step.script, true);
    NextIsProduce(c, step);
    LocalAppend(c.leader, step.tp, step.payload, step.a);
    LeaderIsLocal(c.leader, c.follower, step.tp, step.payload, step.a, step.tps, step.script);
    forall tp
      ensures Log(next.follower.store.files, tp) == Log(next.leader.files, tp) && Messages(next.leader.topics, tp) == Log(next.leader.files, tp)
    {
      AgreeingLog(next.leader, tp);
      CaughtUpLength(c.leader.files, mid, tp);
      Sampled(next.follower, next.leader.files, more, tp);
      SampleLength(At(more, tp), Log(next.follower.store.files, tp), Log(next.leader.files, tp));
    }
  }

  lemma LeaderIsLocal(l: Store, f: Follower, tp: TopicPartition, payload: string, a: Appended, tps: seq<TopicPartition>, script: seq<Net>)
    requires a.written <= |Serialize(payload)| && Produce(l, f, tp, payload, a, tps, script).sync.Caught?
    ensures Produce(l, f, tp, payload, a, tps, script).leader == ProduceLocally(l, tp, payload, a).0
  {
    hide ProduceLocally, SyncAll, Deliver, Serialize;
  }

  lemma CaughtUpLength(leader: Files, offsets: Offsets, tp: TopicPartition)
    requires AllGapless(offsets) && CaughtUp(leader, offsets, tp)
    ensures |At(offsets, tp)| >= |Log(leader, tp)|
  {
    hide Log;
    assert At(offsets, tp) != [] ==> Gapless(At(offsets, tp));
  }

  /**
   Catching up, after any synchronized run: when a PRODUCE can append and every request to the follower is applied and
   acknowledged, synchronization succeeds if and only if the progress query and every record that the follower lacks fit a
   frame, and the answer is OK if and only if the new record does. If both hold the brokers end with the same messages everywhere.
   */
  lemma HealthyFollowerCatchesUp(states: seq<Cluster>, steps: seq<Step>, step: Step)
    requires IsSynchronizedRun(states, steps) && Healthy(states[|steps|], step)
    ensures var c := states[|steps|]; var p := Produce(c.leader, c.follower, step.tp, step.payload, step.a, step.tps, step.script);
      && (p.sync.Caught? <==> forall tp :: CanCatchUp(c, tp))
      && (p.reply == Answered("OK") <==> FitsFrame(step.tp, |Log(c.leader.files, step.tp)|, step.payload))
      && (p.sync.Caught? && p.reply == Answered("OK") ==> Alike(Next(c, step)))
  {
    hide Inv, AllGapless, Plain, IsListing, Serialize, AllAcked, Available, Synchronized, Produce, CanCatchUp, FitsFrame, Alike, Next;
    var offsets := SynchronizedInv(states, steps);
    ProduceCatchesUp(states[|steps|], step, offsets);
    var c := states[|steps|];
    var p := Produce(c.leader, c.follower, step.tp, step.payload, step.a, step.tps, step.script);
    if p.sync.Caught? && p.reply == Answered("OK") {
      CaughtUpAlike(c, step, offsets);
    }
  }

  // ----- A record that fits no frame -----

  // The leader has a record that cannot be sent, and the follower does not have it.
  ghost predicate Stuck(leader: Files, f: Follower, tp: TopicPartition, i: nat) {
    && i < |Log(leader, tp)| && !FitsFrame(tp, i, Log(leader, tp)[i])
    && |Log(f.store.files, tp)| <= i
  }

  lemma DeliverStuck(f: Follower, leader: Files, offsets: Offsets, to: TopicPartition, net: Net, tp: TopicPartition, i: nat)
    returns (more: Offsets)
    requires Tracks(f, leader, offsets) && PlainLog(leader) && AllGapless(offsets) && Stuck(leader, f, tp, i)
    requires Following(offsets, to) < |Log(leader, to)|
    ensures var sent := Deliver(f, ReplicateText(to.topic, to.partition, Following(offsets, to), Log(leader, to)[Following(offsets, to)]), net);
      && Tracks(sent.follower, leader, more) && AllGapless(more) && Stuck(leader, sent.follower, tp, i)
      && (sent.reply == Some("OK") ==> Following(more, to) == Following(offsets, to) + 1)
  {
    hide Log, PlainLog, Deliver, Tracks, ReplicateText, RecoverableFiles, Rising;
    var offset := Following(offsets, to);
    FollowingIsNext(f, leader, offsets, to);
    NoteFollowing(offsets, to, [net], true);
    DeliverReplicate(f, leader, offsets, to, offset, net);
    var text := ReplicateText(to.topic, to.partition, offset, Log(leader, to)[offset]);
    var sent := Deliver(f, text, net);
    more := if Applied(f, sent.follower, to) then Noted(offsets, to, offset) else offsets;
    FollowingIsLength(f, leader, offsets, tp);
    if to == tp && offset == i {
      RecoverableOf(f, leader, offsets);
      TooLongIsLost(f, text, net, to);
    }
    FollowingIsLength(sent.follower, leader, more, tp);
  }

  lemma RecoverableOf(f: Follower, leader: Files, offsets: Offsets)
    requires Tracks(f, leader, offsets)
    ensures RecoverableFiles(f.store.files)
  {
    hide Log, Agrees, Sample, RecoverableFiles;
  }

  lemma {:induction false} SendStuck(f: Follower, leader: Files, offsets: Offsets, to: TopicPartition, records: seq<string>, script: seq<Net>,
                                     tp: TopicPartition, i: nat)
    requires Tracks(f, leader, offsets) && PlainLog(leader) && AllGapless(offsets) && Stuck(leader, f, tp, i)
    requires Following(offsets, to) <= |Log(leader, to)| && records == Log(leader, to)[Following(offsets, to)..]
    ensures var s := SendRecords(f, to, records, Following(offsets, to), script);
      Stuck(leader, s.follower, tp, i) && (to == tp ==> !s.result.Caught?)
    decreases |records|
  {
    hide Log, PlainLog, Deliver, Tracks, ReplicateText, AllGapless, FitsFrame;
    var offset := Following(offsets, to);
    FollowingIsLength(f, leader, offsets, to);
    if records != [] && script != [] {
      var more := DeliverStuck(f, leader, offsets, to, script[0], tp, i);
      var sent := Deliver(f, ReplicateText(to.topic, to.partition, offset, records[0]), script[0]);
      if sent.reply == Some("OK") {
        SendStuck(sent.follower, leader, more, to, records[1..], script[1..], tp, i);
      }
    }
  }

  lemma PartitionStuck(f: Follower, l: Store, offsets: Offsets, to: TopicPartition, script: seq<Net>, tp: TopicPartition, i: nat)
    requires Agrees(l) && Tracks(f, l.files, offsets) && PlainLog(l.files) && AllGapless(offsets) && Stuck(l.files, f, tp, i)
    requires Messages(l.topics, to) != []
    ensures var s := SyncPartition(f, l.topics, to, script); Stuck(l.files, s.follower, tp, i) && (to == tp ==> !s.result.Caught?)
  {
    hide Agrees, Log, Messages, Deliver, Tracks, ProgressText, SendRecords, ReadProgress, FitsFrame, AllGapless;
    AgreeingLog(l, to);
    var log := Log(l.files, to);
    assert Plain(to, log[0]);
    if script != [] {
      NoteFollowing(offsets, to, script, true);
      ProgressAnswer(f, l.files, offsets, to, script[0]);
      var sent := Deliver(f, ProgressText(to.topic, to.partition), script[0]);
      FollowingIsLength(f, l.files, offsets, tp);
      FollowingIsLength(sent.follower, l.files, offsets, tp);
      if sent.reply.Some? {
        var p: Option<nat> :| ReadProgress(sent.reply.value) == Some(p) && FirstMissing(p) == Following(offsets, to);
        LastInLog(sent.follower, l.files, offsets, to);
        assert MissingRecords(l.topics, to, p) == log[Following(offsets, to)..];
        SendStuck(sent.follower, l.files, offsets, to, log[Following(offsets, to)..], script[1..], tp, i);
      }
    }
  }

  lemma {:induction false} AllStuck(f: Follower, l: Store, offsets: Offsets, tps: seq<TopicPartition>, script: seq<Net>, tp: TopicPartition, i: nat)
    requires Agrees(l) && Tracks(f, l.files, offsets) && PlainLog(l.files) && AllGapless(offsets) && Stuck(l.files, f, tp, i)
    requires forall j | 0 <= j < |tps| :: Messages(l.topics, tps[j]) != []
    ensures var s := SyncAll(f, l.topics, tps, script); Stuck(l.files, s.follower, tp, i) && (tp in tps ==> !s.result.Caught?)
    decreases |tps|
  {
    hide Agrees, PlainLog, Messages, Tracks, SyncPartition, AllGapless, Stuck, CaughtUp, Extends;
    if tps != [] {
      var more := SyncPartitionTracks(f, l, offsets, tps[0], script, true);
      PartitionStuck(f, l, offsets, tps[0], script, tp, i);
      var s := SyncPartition(f, l.topics, tps[0], script);
      if s.result.Caught? {
        AllStuck(s.follower, l, more, tps[1..], s.script, tp, i);
      }
    }
  }

  // A record that cannot be sent is not in the follower's log, nor is anything behind it.
  ghost predicate StopsAt(c: Cluster, tp: TopicPartition, i: nat) {
    i < |Log(c.leader.files, tp)| && !FitsFrame(tp, i, Log(c.leader.files, tp)[i]) ==> Stuck(c.leader.files, c.follower, tp, i)
  }

  lemma OwnTooLong(l: Store, f: Follower, tp: TopicPartition, payload: string, a: Appended, tps: seq<TopicPartition>, script: seq<Net>)
    requires a.written <= |Serialize(payload)| && !FitsFrame(tp, |Messages(l.topics, tp)|, payload)
    requires RecoverableFiles(SyncAll(f, l.topics, tps, script).follower.store.files)
    ensures var p := Produce(l, f, tp, payload, a, tps, script); !Applied(p.synced, p.follower, tp)
  {
    hide ProduceLocally, SyncAll, Deliver, Serialize, RecoverableFiles, ReplicateText, Messages, Log;
    var s := SyncAll(f, l.topics, tps, script);
    if s.script != [] {
      TooLongIsLost(s.follower, ReplicateText(tp.topic, tp.partition, |Messages(l.topics, tp)|, payload), s.script[0], tp);
    }
  }

  lemma LeaderGrows(l: Store, f: Follower, tp: TopicPartition, payload: string, a: Appended, tps: seq<TopicPartition>, script: seq<Net>)
    requires Agrees(l) && Wide(l.topics) && PlainLog(l.files) && Plain(tp, payload) && CleanAppend(payload, a)
    requires |Log(l.files, tp)| < LONG_LONG_MAX && RecoverableFiles(l.files)
    ensures var p := Produce(l, f, tp, payload, a, tps, script);
      && p.synced == SyncAll(f, l.topics, tps, script).follower && p.sync == SyncAll(f, l.topics, tps, script).result
      && forall other :: Log(p.leader.files, other) == Log(l.files, other) || (other == tp && Log(p.leader.files, tp) == Log(l.files, tp) + [payload])
  {
    hide ProduceLocally, SyncAll, Deliver, Serialize, RecoverableFiles, Agrees, Wide, Plain, PlainLog, Log;
    LocalAppend(l, tp, payload, a);
  }

  lemma ProduceStops(c: Cluster, step: Step, offsets: Offsets, tp: TopicPartition, i: nat)
    requires Inv(c, offsets) && AllGapless(offsets) && Legal(c, step) && Guarded(c, step) && StopsAt(c, tp, i)
    requires step.Producing? && c.leaderUp
    ensures StopsAt(Next(c, step), tp, i)
  {
    hide RecoverableFiles, PlainLog, Agrees, Wide, Tracks, Plain, Produce, Log, Serialize, SyncAll, FitsFrame, AllGapless, Messages, CaughtUp;
    var l, f := c.leader, c.follower;
    var p := Produce(l, f, step.tp, step.payload, step.a, step.tps, step.script);
    var mid, more := ProduceTracks(l, f, offsets, step.tp, step.payload, step.a, step.tps, step.script, true);
    NextIsProduce(c, step);
    LeaderGrows(l, f, step.tp, step.payload, step.a, step.tps, step.script);
    FollowingIsLength(p.synced, l.files, mid, tp);
    if i < |Log(l.files, tp)| {
      if !FitsFrame(tp, i, Log(l.files, tp)[i]) {
        AllStuck(f, l, offsets, step.tps, step.script, tp, i);
      }
    } else if i < |Log(p.leader.files, tp)| && !FitsFrame(tp, i, Log(p.leader.files, tp)[i]) {
      AgreeingLog(l, tp);
      RecoverableOf(p.synced, l.files, mid);
      OwnTooLong(l, f, tp, step.payload, step.a, step.tps, step.script);
    }
    if step.tp != tp {
      assert At(more, tp) == At(mid, tp);
      Sampled(p.synced, l.files, mid, tp);
      Sampled(p.follower, p.leader.files, more, tp);
      SampleLength(At(mid, tp), Log(p.synced.store.files, tp), Log(l.files, tp));
      SampleLength(At(more, tp), Log(p.follower.store.files, tp), Log(p.leader.files, tp));
    }
  }

  lemma NextStops(c: Cluster, step: Step, offsets: Offsets, tp: TopicPartition, i: nat)
    requires Inv(c, offsets) && AllGapless(offsets) && Legal(c, step) && Guarded(c, step) && StopsAt(c, tp, i)
    ensures StopsAt(Next(c, step), tp, i)
  {
    hide Inv, Guarded, Log, FitsFrame, AllGapless, Recovered;
    if step.Producing? && c.leaderUp {
      ProduceStops(c, step, offsets, tp, i);
    } else if step.LeaderRestart? {
      LeaderLogs(c, offsets);
    } else if step.FollowerRestart? {
      FollowerLogs(c, offsets);
    }
  }

  lemma LeaderLogs(c: Cluster, offsets: Offsets)
    requires Inv(c, offsets)
    ensures forall tp :: Log(Recovered(c.leader.files, false).files, tp) == Log(c.leader.files, tp)
  {
    hide Log, Agrees, Tracks, PlainLog;
    RecoveryAgrees(c.leader.files, false);
  }

  lemma FollowerLogs(c: Cluster, offsets: Offsets)
    requires Inv(c, offsets)
    ensures forall tp :: Log(Restarted(c.follower).store.files, tp) == Log(c.follower.store.files, tp)
  {
    hide Log, Agrees, Tracks, PlainLog, RecoverableFiles;
    RecoverableOf(c.follower, c.leader.files, offsets);
    RestartLogs(c.follower);
  }

  lemma {:induction false} RunStops(states: seq<Cluster>, steps: seq<Step>, tp: TopicPartition, i: nat)
    requires IsRun(states, steps) && forall j | 0 <= j < |steps| :: Guarded(states[j], steps[j])
    ensures StopsAt(states[|steps|], tp, i)
  {
    hide Inv, Legal, Guarded, Next, AllGapless, StopsAt;
    if steps == [] {
      NothingStops(tp, i);
    } else {
      var n := |steps| - 1;
      var front := steps[..n];
      forall j | 0 <= j < n
        ensures Legal(states[j], front[j]) && states[j + 1] == Next(states[j], front[j]) && Guarded(states[j], front[j])
      {
        assert front[j] == steps[j];
      }
      RunStops(states[..n + 1], front, tp, i);
      var offsets := RunKeeps(states[..n + 1], front, true);
      NextStops(states[n], steps[n], offsets, tp, i);
    }
  }

  lemma NothingStops(tp: TopicPartition, i: nat)
    ensures StopsAt(START, tp, i)
  {
    NothingLogged();
    hide Log;
  }

  /**
   The price of sending a record in one frame: a record of the leader whose REPLICATE text does not fit one never reaches
   the follower, in no synchronized run, whatever the network does; nor does anything behind it, and every later
   synchronization fails.
   */
  lemma TooLongNeverReplicated(states: seq<Cluster>, steps: seq<Step>, step: Step, tp: TopicPartition, i: nat)
    requires IsSynchronizedRun(states, steps)
    requires var c := states[|steps|]; i < |Log(c.leader.files, tp)| && !FitsFrame(tp, i, Log(c.leader.files, tp)[i])
    ensures |Log(states[|steps|].follower.store.files, tp)| <= i
    ensures var c := states[|steps|]; step.Producing? && c.leaderUp && Legal(c, step) ==>
      !Produce(c.leader, c.follower, step.tp, step.payload, step.a, step.tps, step.script).sync.Caught?
  {
    hide Guarded, Synchronized, Next, AllGapless, Log, FitsFrame, Serialize, Plain, Agrees, Tracks, Wide, PlainLog, RecoverableFiles, Produce, SyncAll, Messages;
    SynchronizedIsGuarded(states, steps);
    RunStops(states, steps, tp, i);
    var c := states[|steps|];
    if step.Producing? && c.leaderUp && Legal(c, step) {
      var offsets := SynchronizedInv(states, steps);
      AgreeingLog(c.leader, tp);
      AllStuck(c.follower, c.leader, offsets, step.tps, step.script, tp, i);
      LeaderGrows(c.leader, c.follower, step.tp, step.payload, step.a, step.tps, step.script);
    }
  }

  /** Such a record is accepted: a PRODUCE that fits a frame, parsed and appended, whose REPLICATE text fits none. */
  lemma AcceptedTooLong(payload: string) returns (states: seq<Cluster>, steps: seq<Step>)
    requires payload == seq(65524, _ => 'a')
    ensures var tp, raw := TopicPartition("t", 0), ProduceText("t", 0, payload);
      && |raw| <= MAX_PAYLOAD_SIZE && Parse(raw) == BLANK.(kind := PRODUCE, topic := "t", partition := 0, payload := payload)
      && IsSynchronizedRun(states, steps) && |steps| == 1 && steps[0].Producing? && steps[0].tp == tp && steps[0].payload == payload
      && Log(states[1].leader.files, tp) == [payload] && !FitsFrame(tp, 0, payload)
  {
    hide Parse, Plain, Serialize, Log, Agrees, Next, Produce, ProduceLocally;
    var tp := TopicPartition("t", 0);
    assert payload[0] == 'a' && '\n' !in payload && IsPayload(payload) && !AllSpaces(payload);
    PlainPayload(tp, payload);
    ProduceReadsBack("t", 0, payload);
    assert |Decimal(0)| == 1;
    var a := Appended(Completed, |Serialize(payload)|);
    var step := Producing(tp, payload, a, [], [Net(false, Lost)]);
    FirstRecordLost(tp, payload);
    NothingLogged();
    LocalOk(tp, payload, a);
    LostReplicate(EMPTY, START.follower, tp, payload, a);
    states, steps := [START, Next(START, step)], [step];
  }

  lemma PlainPayload(tp: TopicPartition, payload: string)
    requires tp == TopicPartition("t", 0) && IsPayload(payload) && payload[0] != ' ' && |payload| < TWO_TO_32
    ensures Plain(tp, payload)
  {
  }

  lemma LocalOk(tp: TopicPartition, payload: string, a: Appended)
    requires Plain(tp, payload) && a == Appended(Completed, |Serialize(payload)|)
    ensures ProduceLocally(EMPTY, tp, payload, a).1 == Answered("OK")
  {
    hide Log, Agrees, Serialize, ProduceLocally, Plain, Wide, PlainLog, RecoverableFiles;
    StartHolds();
    NothingLogged();
    assert START.leader == EMPTY;
    LocalAppend(EMPTY, tp, payload, a);
  }
}
