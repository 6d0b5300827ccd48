/**
 What replication keeps over whole runs of one leader and one follower.
 */
module ReplicationSafety {
  import opened Types
  import opened Text
  import opened Framing
  import opened Record
  import opened TopicLog
  import opened Protocol
  import opened Store
  import opened Replication

  // The leader offset of each record of a follower log.
  type Offsets = map<TopicPartition, seq<nat>>

  function At(offsets: Offsets, tp: TopicPartition): seq<nat> {
    GetOr(offsets, tp, [])
  }

  ghost predicate Rising(o: seq<nat>) {
    forall i, j | 0 <= i < j < |o| :: o[i] < o[j]
  }

  // A follower log is the leader's records at a strictly increasing list of offsets.
  ghost predicate Sample(o: seq<nat>, followerLog: seq<string>, leaderLog: seq<string>) {
    && |o| == |followerLog| && Rising(o)
    && forall i | 0 <= i < |o| :: o[i] < |leaderLog| && followerLog[i] == leaderLog[o[i]]
  }

  // No offset is missing.
  ghost predicate Gapless(o: seq<nat>) {
    forall i | 0 <= i < |o| :: o[i] == i
  }

  ghost predicate AllGapless(offsets: Offsets) {
    forall tp | tp in offsets :: Gapless(offsets[tp])
  }

  ghost predicate ProgressIs(progress: map<TopicPartition, nat>, tp: TopicPartition, o: seq<nat>) {
    if o == [] then tp !in progress else tp in progress && progress[tp] == o[|o| - 1]
  }

  // Every topic has at least the default partitions.
  ghost predicate Wide(topics: Topics) {
    forall t | t in topics :: |topics[t].partitions| >= DEFAULT_PARTITION_COUNT
  }

  ghost predicate Tracks(f: Follower, leader: Files, offsets: Offsets) {
    && RecoverableFiles(f.store.files)
    && (f.up ==> Agrees(f.store) && Wide(f.store.topics) && forall tp :: ProgressIs(f.store.progress, tp, At(offsets, tp)))
    && forall tp :: Sample(At(offsets, tp), Log(f.store.files, tp), Log(leader, tp))
  }

  // A record that the parser can produce, whose payload starts with a non-space character.
  ghost predicate Plain(tp: TopicPartition, payload: string) {
    && IsToken(tp.topic) && 0 <= tp.partition < DEFAULT_PARTITION_COUNT
    && IsPayload(payload) && payload[0] != ' ' && Fits(payload)
  }

  ghost predicate PlainLog(leader: Files) {
    && (forall tp, i | 0 <= i < |Log(leader, tp)| :: Plain(tp, Log(leader, tp)[i]))
    && forall tp :: |Log(leader, tp)| <= LONG_LONG_MAX
  }

  // ----- One request -----

  lemma RestartTracks(f: Follower, leader: Files, offsets: Offsets)
    requires Tracks(f, leader, offsets) && AllGapless(offsets)
    ensures Tracks(Restarted(f), leader, offsets)
  {
    hide Agrees, Log, Sample, Recovered, Recoverable, ProgressIs;
    var files, s := f.store.files, Recovered(f.store.files, true);
    RecoveryAgrees(files, true);
    RecoveredFiles(files);
    forall tp
      ensures Recoverable(GetOr(s.files, tp, "")) && ProgressIs(s.progress, tp, At(offsets, tp))
    {
      AgreeingLog(s, tp);
      SampleLength(At(offsets, tp), Log(files, tp), Log(leader, tp));
      RecoveredProgress(files, tp, At(offsets, tp));
    }
  }

  lemma SampleLength(o: seq<nat>, followerLog: seq<string>, leaderLog: seq<string>)
    requires Sample(o, followerLog, leaderLog)
    ensures |o| == |followerLog|
  {
  }

  lemma RecoveredProgress(files: Files, tp: TopicPartition, o: seq<nat>)
    requires |o| == |Log(files, tp)| && Gapless(o)
    ensures ProgressIs(Recovered(files, true).progress, tp, o)
  {
    EmptyRejected();
    hide Scan;
  }

  lemma RecoveredFiles(files: Files)
    requires forall tp | tp in files :: tp.partition >= 0
    ensures Wide(Recovered(files, true).topics)
    ensures forall tp | tp in Recovered(files, true).files :: tp.partition >= 0
  {
    hide Log;
  }

  ghost predicate Applied(before: Follower, after: Follower, tp: TopicPartition) {
    |Log(after.store.files, tp)| > |Log(before.store.files, tp)|
  }

  function Noted(offsets: Offsets, tp: TopicPartition, offset: nat): Offsets {
    offsets[tp := At(offsets, tp) + [offset]]
  }

  // An append that either completes or dies with the process; an I/O error without a crash is excluded.
  ghost predicate CleanAppend(payload: string, a: Appended) {
    && !a.outcome.Threw? && a.written <= |Serialize(payload)|
    && (a.outcome.Completed? ==> a.written == |Serialize(payload)|)
  }

  // The follower's append of one record, complete or torn: its files.
  lemma ReplicatedFiles(s: Store, leader: Files, offsets: Offsets, tp: TopicPartition, offset: nat, payload: string, a: Appended, other: TopicPartition)
    requires Agrees(s) && CleanAppend(payload, a) && Fits(payload)
    requires Sample(At(offsets, other), Log(s.files, other), Log(leader, other))
    requires offset < |Log(leader, tp)| && Log(leader, tp)[offset] == payload
    requires forall i | 0 <= i < |At(offsets, tp)| :: At(offsets, tp)[i] < offset
    ensures var files, full := Extended(s.files, tp, Serialize(payload)[..a.written]), a.written == |Serialize(payload)|;
      && Recoverable(GetOr(files, other, ""))
      && Sample(At(if full then Noted(offsets, tp, offset) else offsets, other), Log(files, other), Log(leader, other))
      && (other == tp ==> (|Log(files, tp)| > |Log(s.files, tp)| <==> full))
  {
    hide Agrees, Log, Serialize, Sample, Recoverable, Messages, Extended;
    TornAppendLogs(s, tp, payload, a.written, other);
    AgreeingLog(s, other);
    if other == tp && a.written == |Serialize(payload)| {
      SampleSnoc(At(offsets, tp), Log(s.files, tp), Log(leader, tp), offset);
    } else {
      assert Messages(s.topics, other) + [] == Messages(s.topics, other);
    }
  }

  // Its memory, when the append completes.
  lemma ReplicatedMemory(s: Store, offsets: Offsets, tp: TopicPartition, offset: nat, payload: string)
    requires Agrees(s) && Wide(s.topics) && Plain(tp, payload)
    requires forall other :: ProgressIs(s.progress, other, At(offsets, other))
    ensures var r := Replicate(s, tp, offset, payload, Appended(Completed, |Serialize(payload)|)).0;
      Agrees(r) && Wide(r.topics) && forall other :: ProgressIs(r.progress, other, At(Noted(offsets, tp, offset), other))
  {
    hide Agrees, Serialize, Plain, WithTopic, Push, HasPartition, Messages;
    var r := Replicate(s, tp, offset, payload, Appended(Completed, |Serialize(payload)|)).0;
    PlainHasPartition(s.topics, tp, payload);
    assert Serialize(payload)[..|Serialize(payload)|] == Serialize(payload);
    AppendedAgrees(s, tp, payload);
    AgreesIgnoresProgress(s.(topics := r.topics, files := r.files), r.progress);
    PushIsWide(s.topics, tp, payload);
    forall other
      ensures ProgressIs(r.progress, other, At(Noted(offsets, tp, offset), other))
    {
      assert ProgressIs(s.progress, other, At(offsets, other));
    }
  }

  lemma ReplicateTracks(s: Store, leader: Files, offsets: Offsets, tp: TopicPartition, offset: nat, payload: string, a: Appended)
    requires Tracks(Follower(true, s), leader, offsets) && Plain(tp, payload) && CleanAppend(payload, a)
    requires offset < |Log(leader, tp)| && Log(leader, tp)[offset] == payload
    requires forall i | 0 <= i < |At(offsets, tp)| :: At(offsets, tp)[i] < offset
    ensures var r := Replicate(s, tp, offset, payload, a); var f' := Follower(a.outcome.Completed?, r.0);
      && (a.outcome.Completed? ==> r.1 == Answered("OK"))
      && Tracks(f', leader, if a.written == |Serialize(payload)| then Noted(offsets, tp, offset) else offsets)
      && (Applied(Follower(true, s), f', tp) <==> a.written == |Serialize(payload)|)
  {
    hide Agrees, Log, Serialize, Sample, Plain, Recoverable, WithTopic, Push, HasPartition, Messages, ProgressIs, At, Noted, Wide;
    var r := Replicate(s, tp, offset, payload, a);
    var offsets' := if a.written == |Serialize(payload)| then Noted(offsets, tp, offset) else offsets;
    PlainHasPartition(s.topics, tp, payload);
    forall other
      ensures Recoverable(GetOr(r.0.files, other, ""))
      ensures Sample(At(offsets', other), Log(r.0.files, other), Log(leader, other))
      ensures other == tp ==> (|Log(r.0.files, tp)| > |Log(s.files, tp)| <==> a.written == |Serialize(payload)|)
    {
      ReplicatedFiles(s, leader, offsets, tp, offset, payload, a, other);
    }
    if a.outcome.Completed? {
      ReplicatedMemory(s, offsets, tp, offset, payload);
    }
  }

  lemma AgreesIgnoresProgress(s: Store, progress: map<TopicPartition, nat>)
    ensures Agrees(s.(progress := progress)) <==> Agrees(s)
  {
  }

  lemma PlainHasPartition(topics: Topics, tp: TopicPartition, payload: string)
    requires Wide(topics) && Plain(tp, payload)
    ensures Fits(payload) && tp.partition >= 0 && HasPartition(WithTopic(topics, tp.topic), tp)
  {
  }

  lemma PushIsWide(topics: Topics, tp: TopicPartition, payload: string)
    requires Wide(topics) && HasPartition(WithTopic(topics, tp.topic), tp)
    ensures Wide(Push(WithTopic(topics, tp.topic), tp, payload))
  {
  }

  lemma SampleSnoc(o: seq<nat>, followerLog: seq<string>, leaderLog: seq<string>, offset: nat)
    requires Sample(o, followerLog, leaderLog) && offset < |leaderLog|
    requires forall i | 0 <= i < |o| :: o[i] < offset
    ensures Sample(o + [offset], followerLog + [leaderLog[offset]], leaderLog)
  {
  }

  // What a request may do to a follower that the leader must be ready for.
  ghost predicate Sound(net: Net, offsets: Offsets) {
    net.restart ==> AllGapless(offsets)
  }

  // The follower after a request, and whether the leader saw it answered OK.
  ghost predicate Replicated(before: Follower, sent: Sent, leader: Files, offsets: Offsets, tp: TopicPartition, offset: nat) {
    && Tracks(sent.follower, leader, if Applied(before, sent.follower, tp) then Noted(offsets, tp, offset) else offsets)
    && (sent.reply == Some("OK") ==> Applied(before, sent.follower, tp) && sent.follower.up)
  }

  ghost predicate IsNext(leader: Files, offsets: Offsets, tp: TopicPartition, offset: nat) {
    offset < |Log(leader, tp)| && forall i | 0 <= i < |At(offsets, tp)| :: At(offsets, tp)[i] < offset
  }

  lemma ReceiveReplicate(f: Follower, leader: Files, offsets: Offsets, tp: TopicPartition, offset: nat, fate: Fate)
    requires Tracks(f, leader, offsets) && PlainLog(leader) && IsNext(leader, offsets, tp, offset)
    ensures Replicated(f, Receive(f, ReplicateText(tp.topic, tp.partition, offset, Log(leader, tp)[offset]), fate), leader, offsets, tp, offset)
  {
    hide Tracks, Serialize, Parse, Log, ReplicateText, Replicate;
    var payload := Log(leader, tp)[offset];
    assert Plain(tp, payload);
    hide Plain;
    DeliveredPlain(tp, offset, payload);
    var total := |Serialize(payload)|;
    if f.up {
      assert f == Follower(true, f.store);
      if fate.Torn? {
        var written := if fate.written < total then fate.written else total;
        ReplicateTracks(f.store, leader, offsets, tp, offset, payload, Appended(Crashed, written));
      } else {
        ReplicateTracks(f.store, leader, offsets, tp, offset, payload, Appended(Completed, total));
      }
    }
  }

  lemma DeliverReplicate(f: Follower, leader: Files, offsets: Offsets, tp: TopicPartition, offset: nat, net: Net)
    requires Tracks(f, leader, offsets) && PlainLog(leader) && Sound(net, offsets) && IsNext(leader, offsets, tp, offset)
    ensures Replicated(f, Deliver(f, ReplicateText(tp.topic, tp.partition, offset, Log(leader, tp)[offset]), net), leader, offsets, tp, offset)
  {
    hide Receive, PlainLog, Log;
    if net.restart {
      RestartTracks(f, leader, offsets);
      RestartLogs(f);
      ReceiveReplicate(Restarted(f), leader, offsets, tp, offset, net.fate);
    } else {
      ReceiveReplicate(f, leader, offsets, tp, offset, net.fate);
    }
  }

  lemma RestartLogs(f: Follower)
    requires RecoverableFiles(f.store.files)
    ensures forall tp :: Log(Restarted(f).store.files, tp) == Log(f.store.files, tp)
  {
    RecoveryAgrees(f.store.files, true);
  }

  lemma DeliveredPlain(tp: TopicPartition, offset: nat, payload: string)
    requires Plain(tp, payload) && offset <= LONG_LONG_MAX
    ensures Parse(ReplicateText(tp.topic, tp.partition, offset, payload))
         == BLANK.(kind := REPLICATE, topic := tp.topic, partition := tp.partition, offset := offset, payload := payload)
  {
    hide Parse;
    ReplicateReadsBack(tp.topic, tp.partition, offset, payload);
    assert !AllSpaces(payload);
  }

  // ----- Synchronization -----

  // Either no offset is missing, or the follower never restarts: what keeps progress equal to the last offset.
  ghost predicate Mode(gapless: bool, offsets: Offsets, script: seq<Net>) {
    if gapless then AllGapless(offsets) else forall i | 0 <= i < |script| :: !script[i].restart
  }

  ghost predicate Extends(offsets: Offsets, more: Offsets) {
    forall tp :: At(offsets, tp) <= At(more, tp)
  }

  // The last record of the leader is the last of the follower.
  ghost predicate CaughtUp(leader: Files, offsets: Offsets, tp: TopicPartition) {
    Log(leader, tp) != [] ==> At(offsets, tp) != [] && At(offsets, tp)[|At(offsets, tp)| - 1] == |Log(leader, tp)| - 1
  }

  lemma Sampled(f: Follower, leader: Files, offsets: Offsets, tp: TopicPartition)
    requires Tracks(f, leader, offsets)
    ensures Sample(At(offsets, tp), Log(f.store.files, tp), Log(leader, tp))
  {
    hide Log, RecoverableFiles, Agrees, Sample;
  }

  lemma RisingToTheEnd(o: seq<nat>, more: seq<nat>, n: nat)
    requires Rising(more) && o <= more && o != [] && o[|o| - 1] == n - 1
    requires forall i | 0 <= i < |more| :: more[i] < n
    ensures more == o
  {
    assert more[|o| - 1] == o[|o| - 1];
    assert more[|more| - 1] <= more[|o| - 1];
  }

  lemma CaughtUpStays(f: Follower, leader: Files, offsets: Offsets, more: Offsets, tp: TopicPartition)
    requires Tracks(f, leader, more) && Extends(offsets, more) && CaughtUp(leader, offsets, tp)
    ensures CaughtUp(leader, more, tp)
  {
    hide Log, Tracks, Rising, At;
    Sampled(f, leader, more, tp);
    assert At(offsets, tp) <= At(more, tp);
    if Log(leader, tp) != [] {
      RisingToTheEnd(At(offsets, tp), At(more, tp), |Log(leader, tp)|);
    }
  }

  // The offset after the last one noted.
  function Following(offsets: Offsets, tp: TopicPartition): nat {
    var o := At(offsets, tp);
    if o == [] then 0 else o[|o| - 1] + 1
  }

  lemma RisingBelowLast(o: seq<nat>)
    requires Rising(o) && o != []
    ensures forall i | 0 <= i < |o| :: o[i] <= o[|o| - 1]
  {
  }

  lemma FollowingIsNext(f: Follower, leader: Files, offsets: Offsets, tp: TopicPartition)
    requires Tracks(f, leader, offsets) && Following(offsets, tp) < |Log(leader, tp)|
    ensures IsNext(leader, offsets, tp, Following(offsets, tp))
  {
    Sampled(f, leader, offsets, tp);
    hide Log, Tracks, Rising;
    if At(offsets, tp) != [] {
      RisingBelowLast(At(offsets, tp));
    }
  }

  lemma NoteFollowing(offsets: Offsets, tp: TopicPartition, script: seq<Net>, gapless: bool)
    requires script != [] && Mode(gapless, offsets, script)
    ensures Mode(gapless, offsets, script[1..]) && Mode(gapless, Noted(offsets, tp, Following(offsets, tp)), script[1..])
    ensures Extends(offsets, Noted(offsets, tp, Following(offsets, tp)))
    ensures Following(Noted(offsets, tp, Following(offsets, tp)), tp) == Following(offsets, tp) + 1
    ensures Sound(script[0], offsets)
  {
    var more := Noted(offsets, tp, Following(offsets, tp));
    if gapless {
      assert Gapless(At(offsets, tp));
      assert Gapless(At(more, tp));
    }
  }

  lemma ExtendsTransitive(a: Offsets, b: Offsets, c: Offsets)
    requires Extends(a, b) && Extends(b, c)
    ensures Extends(a, c)
  {
    forall tp
      ensures At(a, tp) <= At(c, tp)
    {
      assert At(a, tp) <= At(b, tp) && At(b, tp) <= At(c, tp);
    }
  }

  lemma {:induction false} SendRecordsTracks(f: Follower, leader: Files, offsets: Offsets, tp: TopicPartition, records: seq<string>, script: seq<Net>, gapless: bool)
    returns (more: Offsets)
    requires Tracks(f, leader, offsets) && PlainLog(leader) && Mode(gapless, offsets, script)
    requires Following(offsets, tp) <= |Log(leader, tp)| && records == Log(leader, tp)[Following(offsets, tp)..]
    ensures var r := SendRecords(f, tp, records, Following(offsets, tp), script);
      && Tracks(r.follower, leader, more) && Mode(gapless, more, r.script) && Extends(offsets, more)
      && (r.result.Caught? ==> CaughtUp(leader, more, tp))
    decreases |records|
  {
    hide Log, PlainLog, Deliver, Tracks, ReplicateText;
    more := offsets;
    var offset := Following(offsets, tp);
    if records != [] && script != [] {
      FollowingIsNext(f, leader, offsets, tp);
      NoteFollowing(offsets, tp, script, gapless);
      DeliverReplicate(f, leader, offsets, tp, offset, script[0]);
      var sent := Deliver(f, ReplicateText(tp.topic, tp.partition, offset, records[0]), script[0]);
      if Applied(f, sent.follower, tp) {
        more := Noted(offsets, tp, offset);
      }
      if sent.reply == Some("OK") {
        var next := SendRecordsTracks(sent.follower, leader, more, tp, records[1..], script[1..], gapless);
        ExtendsTransitive(offsets, more, next);
        more := next;
      }
    }
  }

  lemma ProgressAnswer(f: Follower, leader: Files, offsets: Offsets, tp: TopicPartition, net: Net)
    requires Tracks(f, leader, offsets) && Sound(net, offsets)
    requires IsToken(tp.topic) && 0 <= tp.partition < DEFAULT_PARTITION_COUNT
    requires |Log(leader, tp)| <= LONG_LONG_MAX
    ensures var sent := Deliver(f, ProgressText(tp.topic, tp.partition), net);
      && Tracks(sent.follower, leader, offsets)
      && (sent.reply.Some? ==> exists p: Option<nat> :: ReadProgress(sent.reply.value) == Some(p) && FirstMissing(p) == Following(offsets, tp))
  {
    hide Agrees, Log, Sample, Recovered, Parse, ProgressText, WholeInteger, Decimal, RecoverableFiles;
    ProgressReadsBack(tp.topic, tp.partition);
    if net.restart {
      RestartTracks(f, leader, offsets);
    }
    var f1 := if net.restart then Restarted(f) else f;
    var o := At(offsets, tp);
    if f1.up && o != [] {
      assert ProgressIs(f1.store.progress, tp, o);
      LastInLog(f1, leader, offsets, tp);
      ReadsDecimal(o[|o| - 1]);
      DecimalIsNotNone(o[|o| - 1]);
      assert ReadProgress(Decimal(o[|o| - 1])) == Some(Some(o[|o| - 1]));
      assert FirstMissing(Some(o[|o| - 1])) == Following(offsets, tp);
    } else if f1.up {
      assert ProgressIs(f1.store.progress, tp, o);
      assert ReadProgress("NONE") == Some(None) && FirstMissing(None) == Following(offsets, tp);
    }
  }

  lemma LastInLog(f: Follower, leader: Files, offsets: Offsets, tp: TopicPartition)
    requires Tracks(f, leader, offsets)
    ensures Following(offsets, tp) <= |Log(leader, tp)|
  {
    hide Log, Tracks;
    Sampled(f, leader, offsets, tp);
  }

  lemma DecimalIsNotNone(n: nat)
    ensures Decimal(n) != "NONE"
  {
    assert IsDigit(Decimal(n)[0]);
  }

  lemma SyncPartitionTracks(f: Follower, l: Store, offsets: Offsets, tp: TopicPartition, script: seq<Net>, gapless: bool)
    returns (more: Offsets)
    requires Agrees(l) && Tracks(f, l.files, offsets) && PlainLog(l.files) && Mode(gapless, offsets, script)
    requires Messages(l.topics, tp) != []
    ensures var r := SyncPartition(f, l.topics, tp, script);
      && Tracks(r.follower, l.files, more) && Mode(gapless, more, r.script) && Extends(offsets, more)
      && (r.result.Caught? ==> CaughtUp(l.files, more, tp))
  {
    hide Agrees, Log, Messages, Deliver, Tracks, ProgressText, SendRecords, ReadProgress;
    more := offsets;
    AgreeingLog(l, tp);
    var log := Log(l.files, tp);
    assert Plain(tp, log[0]);
    if script != [] {
      NoteFollowing(offsets, tp, script, gapless);
      ProgressAnswer(f, l.files, offsets, tp, script[0]);
      var sent := Deliver(f, ProgressText(tp.topic, tp.partition), script[0]);
      if sent.reply.Some? {
        var p: Option<nat> :| ReadProgress(sent.reply.value) == Some(p) && FirstMissing(p) == Following(offsets, tp);
        LastInLog(sent.follower, l.files, offsets, tp);
        assert MissingRecords(l.topics, tp, p) == log[Following(offsets, tp)..];
        more := SendRecordsTracks(sent.follower, l.files, offsets, tp, log[Following(offsets, tp)..], script[1..], gapless);
      }
    }
  }

  lemma {:induction false} SyncAllTracks(f: Follower, l: Store, offsets: Offsets, tps: seq<TopicPartition>, script: seq<Net>, gapless: bool)
    returns (more: Offsets)
    requires Agrees(l) && Tracks(f, l.files, offsets) && PlainLog(l.files) && Mode(gapless, offsets, script)
    requires forall i | 0 <= i < |tps| :: Messages(l.topics, tps[i]) != []
    ensures var r := SyncAll(f, l.topics, tps, script);
      && Tracks(r.follower, l.files, more) && Mode(gapless, more, r.script) && Extends(offsets, more)
      && (r.result.Caught? ==> forall i | 0 <= i < |tps| :: CaughtUp(l.files, more, tps[i]))
    decreases |tps|
  {
    hide Agrees, Log, PlainLog, Messages, Tracks, SyncPartition, CaughtUp, Mode, Extends;
    more := offsets;
    if tps == [] {
      ExtendsItself(offsets);
    } else {
      more := SyncPartitionTracks(f, l, offsets, tps[0], script, gapless);
      var s := SyncPartition(f, l.topics, tps[0], script);
      if s.result.Caught? {
        var next := SyncAllTracks(s.follower, l, more, tps[1..], s.script, gapless);
        ExtendsTransitive(offsets, more, next);
        if SyncAll(f, l.topics, tps, script).result.Caught? {
          CaughtUpStays(SyncAll(f, l.topics, tps, script).follower, l.files, more, next, tps[0]);
        }
        more := next;
      }
    }
  }

  lemma ExtendsItself(offsets: Offsets)
    ensures Extends(offsets, offsets)
  {
  }

  // ----- One PRODUCE -----

  lemma TracksGrowth(f: Follower, leader: Files, grown: Files, offsets: Offsets)
    requires Tracks(f, leader, offsets)
    requires forall tp :: Log(leader, tp) <= Log(grown, tp)
    ensures Tracks(f, grown, offsets)
  {
    hide Log, RecoverableFiles, Agrees, Rising;
    forall tp
      ensures Sample(At(offsets, tp), Log(f.store.files, tp), Log(grown, tp))
    {
      Sampled(f, leader, offsets, tp);
    }
  }

  lemma LocalAppend(l: Store, tp: TopicPartition, payload: string, a: Appended)
    requires Agrees(l) && Wide(l.topics) && PlainLog(l.files) && Plain(tp, payload) && CleanAppend(payload, a)
    requires |Log(l.files, tp)| < LONG_LONG_MAX && RecoverableFiles(l.files)
    ensures var r := ProduceLocally(l, tp, payload, a);
      && r.1 == (if a.outcome.Completed? then Answered("OK") else Died)
      && (forall other :: Log(r.0.files, other) == Log(l.files, other) + if other == tp && a.written == |Serialize(payload)| then [payload] else [])
      && RecoverableFiles(r.0.files) && PlainLog(r.0.files)
      && (a.outcome.Completed? ==> Agrees(r.0) && Wide(r.0.topics))
  {
    hide Agrees, Log, Serialize, Recoverable, WithTopic, Push, HasPartition, Messages, Plain;
    var r := ProduceLocally(l, tp, payload, a);
    PlainHasPartition(l.topics, tp, payload);
    forall other
      ensures Recoverable(GetOr(r.0.files, other, ""))
      ensures Log(r.0.files, other) == Log(l.files, other) + if other == tp && a.written == |Serialize(payload)| then [payload] else []
    {
      TornAppendLogs(l, tp, payload, a.written, other);
      AgreeingLog(l, other);
    }
    if a.outcome.Completed? {
      assert Serialize(payload)[..a.written] == Serialize(payload);
      AppendedAgrees(l, tp, payload);
      PushIsWide(l.topics, tp, payload);
    }
    PlainLogGrows(l.files, r.0.files, tp, payload);
  }

  lemma PlainLogGrows(before: Files, after: Files, tp: TopicPartition, payload: string)
    requires PlainLog(before) && Plain(tp, payload) && |Log(before, tp)| < LONG_LONG_MAX
    requires forall other :: Log(after, other) == Log(before, other) || (other == tp && Log(after, tp) == Log(before, tp) + [payload])
    ensures PlainLog(after)
  {
    hide Log, Plain;
  }

  // The partitions that synchronize_follower collects, in any order.
  ghost predicate IsListing(tps: seq<TopicPartition>, topics: Topics) {
    forall tp :: tp in tps <==> Messages(topics, tp) != []
  }

  lemma ProduceTracks(l: Store, f: Follower, offsets: Offsets, tp: TopicPartition, payload: string, a: Appended,
                      tps: seq<TopicPartition>, script: seq<Net>, gapless: bool)
    returns (mid: Offsets, more: Offsets)
    requires Agrees(l) && Wide(l.topics) && RecoverableFiles(l.files) && PlainLog(l.files) && Plain(tp, payload) && CleanAppend(payload, a)
    requires |Log(l.files, tp)| < LONG_LONG_MAX && IsListing(tps, l.topics)
    requires Tracks(f, l.files, offsets) && Mode(gapless, offsets, script)
    ensures var p := Produce(l, f, tp, payload, a, tps, script);
      && Tracks(p.synced, l.files, mid) && (gapless ==> AllGapless(mid))
      && (p.sync.Caught? ==> forall x :: CaughtUp(l.files, mid, x))
      && Tracks(p.follower, p.leader.files, more)
      && more == (if Applied(p.synced, p.follower, tp) then Noted(mid, tp, |Log(l.files, tp)|) else mid)
      && (p.reply == Answered("OK") ==> Applied(p.synced, p.follower, tp) && p.follower.up)
      && (p.reply == Answered("OK") ==> Log(p.leader.files, tp) == Log(l.files, tp) + [payload])
      && RecoverableFiles(p.leader.files) && PlainLog(p.leader.files)
      && (!p.reply.Died? ==> Agrees(p.leader) && Wide(p.leader.topics))
  {
    hide Agrees, Log, PlainLog, Messages, Tracks, SyncAll, CaughtUp, ProduceLocally, Deliver, RecoverableFiles, Wide, Plain, Serialize, ReplicateText;
    mid := SyncAllTracks(f, l, offsets, tps, script, gapless);
    more := mid;
    var s := SyncAll(f, l.topics, tps, script);
    var p := Produce(l, f, tp, payload, a, tps, script);
    if s.result.Caught? {
      forall x
        ensures CaughtUp(l.files, mid, x)
      {
        AllListed(l, mid, tps, x);
      }
    }
    LocalAppend(l, tp, payload, a);
    var local := ProduceLocally(l, tp, payload, a);
    AgreeingLog(l, tp);
    if !s.result.LeaderDied? {
      TracksGrowth(s.follower, l.files, local.0.files, mid);
      if a.outcome.Completed? && s.script != [] {
        var offset := |Log(l.files, tp)|;
        AfterEverything(s.follower, l.files, local.0.files, mid, tp, payload);
        NoteFollowing(mid, tp, s.script, gapless);
        DeliverReplicate(s.follower, local.0.files, mid, tp, offset, s.script[0]);
        if Applied(p.synced, p.follower, tp) {
          more := Noted(mid, tp, offset);
        }
      }
    }
  }

  lemma AllListed(l: Store, mid: Offsets, tps: seq<TopicPartition>, x: TopicPartition)
    requires Agrees(l) && IsListing(tps, l.topics)
    requires forall i | 0 <= i < |tps| :: CaughtUp(l.files, mid, tps[i])
    ensures CaughtUp(l.files, mid, x)
  {
    hide Agrees, Log, Messages;
    AgreeingLog(l, x);
    if Messages(l.topics, x) != [] {
      assert x in tps;
    }
  }

  lemma AfterEverything(f: Follower, before: Files, after: Files, offsets: Offsets, tp: TopicPartition, payload: string)
    requires Tracks(f, before, offsets) && Log(after, tp) == Log(before, tp) + [payload]
    ensures IsNext(after, offsets, tp, |Log(before, tp)|) && Log(after, tp)[|Log(before, tp)|] == payload
  {
    Sampled(f, before, offsets, tp);
    hide Log, Tracks;
  }

  // ----- Whole runs -----

  datatype Cluster = Cluster(leader: Store, leaderUp: bool, follower: Follower)

  const EMPTY := Store(map[], map[], map[])

  const START := Cluster(EMPTY, true, Follower(true, EMPTY))

  datatype Step =
    | Producing(tp: TopicPartition, payload: string, a: Appended, tps: seq<TopicPartition>, script: seq<Net>)
    | LeaderRestart
    | FollowerCrash
    | FollowerRestart

  function Next(c: Cluster, step: Step): Cluster {
    match step
    case Producing(tp, payload, a, tps, script) =>
      if !c.leaderUp || a.written > |Serialize(payload)| then c else
      var p := Produce(c.leader, c.follower, tp, payload, a, tps, script);
      Cluster(p.leader, !p.reply.Died?, p.follower)
    case LeaderRestart => Cluster(Recovered(c.leader.files, false), true, c.follower)
    case FollowerCrash => c.(follower := c.follower.(up := false))
    case FollowerRestart => c.(follower := Restarted(c.follower))
  }

  // What the clients, the hash order and the disk may do.
  ghost predicate Legal(c: Cluster, step: Step) {
    step.Producing? ==>
      && Plain(step.tp, step.payload) && CleanAppend(step.payload, step.a)
      && |Log(c.leader.files, step.tp)| < LONG_LONG_MAX
      && (c.leaderUp ==> IsListing(step.tps, c.leader.topics))
  }

  // The record's own REPLICATE reaches the follower's log only when that log has every earlier record of the partition.
  ghost predicate Guarded(c: Cluster, step: Step) {
    step.Producing? && c.leaderUp && step.a.written <= |Serialize(step.payload)| ==>
      var p := Produce(c.leader, c.follower, step.tp, step.payload, step.a, step.tps, step.script);
      Applied(p.synced, p.follower, step.tp) ==> |Log(p.synced.store.files, step.tp)| == |Log(c.leader.files, step.tp)|
  }

  ghost predicate NoFollowerRestart(step: Step) {
    && !step.FollowerRestart?
    && (step.Producing? ==> forall i | 0 <= i < |step.script| :: !step.script[i].restart)
  }

  ghost predicate Inv(c: Cluster, offsets: Offsets) {
    && RecoverableFiles(c.leader.files) && PlainLog(c.leader.files)
    && (c.leaderUp ==> Agrees(c.leader) && Wide(c.leader.topics))
    && Tracks(c.follower, c.leader.files, offsets)
  }

  lemma NextKeeps(c: Cluster, step: Step, offsets: Offsets, gapless: bool)
    returns (more: Offsets)
    requires Inv(c, offsets) && Legal(c, step)
    requires if gapless then AllGapless(offsets) && Guarded(c, step) else NoFollowerRestart(step)
    ensures Inv(Next(c, step), more) && (gapless ==> AllGapless(more))
  {
    hide RecoverableFiles, PlainLog, Agrees, Wide, Tracks, Plain, Produce, Log, Recovered, Serialize;
    more := offsets;
    match step
    case Producing(tp, payload, a, tps, script) =>
      if c.leaderUp {
        var mid;
        mid, more := ProduceTracks(c.leader, c.follower, offsets, tp, payload, a, tps, script, gapless);
        var p := Produce(c.leader, c.follower, tp, payload, a, tps, script);
        if gapless && Applied(p.synced, p.follower, tp) {
          Sampled(p.synced, c.leader.files, mid, tp);
          assert At(mid, tp) != [] ==> Gapless(At(mid, tp));
        }
      }
    case LeaderRestart =>
      RecoveryAgrees(c.leader.files, false);
      LeaderRecovered(c.leader.files);
      TracksGrowth(c.follower, c.leader.files, Next(c, step).leader.files, offsets);
    case FollowerCrash =>
      CrashTracks(c.follower, c.leader.files, offsets);
    case FollowerRestart =>
      RestartTracks(c.follower, c.leader.files, offsets);
  }

  lemma CrashTracks(f: Follower, leader: Files, offsets: Offsets)
    requires Tracks(f, leader, offsets)
    ensures Tracks(f.(up := false), leader, offsets)
  {
    hide RecoverableFiles, Agrees, Log, Sample;
  }

  lemma LeaderRecovered(files: Files)
    requires RecoverableFiles(files) && PlainLog(files)
    ensures var s := Recovered(files, false); RecoverableFiles(s.files) && PlainLog(s.files) && Wide(s.topics)
  {
    hide Log, Agrees, Plain;
    RecoveryAgrees(files, false);
    RecoveredFiles(files);
    assert Recovered(files, true).topics == Recovered(files, false).topics && Recovered(files, true).files == Recovered(files, false).files;
    hide Recovered;
    var s := Recovered(files, false);
    forall tp
      ensures Recoverable(GetOr(s.files, tp, ""))
    {
      AgreeingLog(s, tp);
    }
  }

  ghost predicate IsRun(states: seq<Cluster>, steps: seq<Step>) {
    && |states| == |steps| + 1 && states[0] == START
    && forall i | 0 <= i < |steps| :: Legal(states[i], steps[i]) && states[i + 1] == Next(states[i], steps[i])
  }

  lemma StartHolds()
    ensures Inv(START, map[])
  {
    hide Scan;
    EmptyRejected();
    assert EncodeAll([]) + "" == "" && IsTornLog("", [], "");
  }

  lemma {:induction false} RunKeeps(states: seq<Cluster>, steps: seq<Step>, gapless: bool)
    returns (offsets: Offsets)
    requires IsRun(states, steps)
    requires forall i | 0 <= i < |steps| :: if gapless then Guarded(states[i], steps[i]) else NoFollowerRestart(steps[i])
    ensures Inv(states[|steps|], offsets) && (gapless ==> AllGapless(offsets))
  {
    hide Inv, Legal, Guarded, Next;
    if steps == [] {
      StartHolds();
      offsets := map[];
    } else {
      var n := |steps| - 1;
      var front := steps[..n];
      forall i | 0 <= i < n
        ensures Legal(states[i], front[i]) && states[i + 1] == Next(states[i], front[i])
        ensures if gapless then Guarded(states[i], front[i]) else NoFollowerRestart(front[i])
      {
        assert front[i] == steps[i];
      }
      var before := RunKeeps(states[..n + 1], front, gapless);
      offsets := NextKeeps(states[n], steps[n], before, gapless);
    }
  }

  // Each follower log is a prefix of the leader's, in memory as on disk, and progress is its last offset.
  ghost predicate PrefixSafe(c: Cluster) {
    && (forall tp :: Log(c.follower.store.files, tp) <= Log(c.leader.files, tp))
    && (c.follower.up ==> forall tp ::
      var log := Log(c.follower.store.files, tp);
      && Messages(c.follower.store.topics, tp) == log
      && (if log == [] then tp !in c.follower.store.progress
          else tp in c.follower.store.progress && c.follower.store.progress[tp] == |log| - 1))
  }

  lemma GaplessSample(o: seq<nat>, followerLog: seq<string>, leaderLog: seq<string>)
    requires Sample(o, followerLog, leaderLog) && Gapless(o)
    ensures followerLog <= leaderLog
  {
    if o != [] {
      assert o[|o| - 1] < |leaderLog|;
    }
  }

  lemma GaplessIsPrefix(c: Cluster, offsets: Offsets)
    requires Inv(c, offsets) && AllGapless(offsets)
    ensures PrefixSafe(c)
  {
    hide Log, Agrees, RecoverableFiles, PlainLog, Messages;
    forall tp
      ensures Log(c.follower.store.files, tp) <= Log(c.leader.files, tp) && |At(offsets, tp)| == |Log(c.follower.store.files, tp)|
      ensures c.follower.up ==> Messages(c.follower.store.topics, tp) == Log(c.follower.store.files, tp)
    {
      Sampled(c.follower, c.leader.files, offsets, tp);
      assert Gapless(At(offsets, tp));
      GaplessSample(At(offsets, tp), Log(c.follower.store.files, tp), Log(c.leader.files, tp));
      if c.follower.up {
        AgreeingLog(c.follower.store, tp);
      }
    }
  }

  /** Prefix safety over every guarded run, with requests and answers lost and either broker crashing at any byte. */
  lemma PrefixSafety(states: seq<Cluster>, steps: seq<Step>)
    requires IsRun(states, steps)
    requires forall i | 0 <= i < |steps| :: Guarded(states[i], steps[i])
    ensures forall i | 0 <= i <= |steps| :: PrefixSafe(states[i])
  {
    hide Legal, Guarded, Next, PrefixSafe;
    forall i | 0 <= i <= |steps|
      ensures PrefixSafe(states[i])
    {
      forall j | 0 <= j < i
        ensures Legal(states[j], steps[..i][j]) && states[j + 1] == Next(states[j], steps[..i][j]) && Guarded(states[j], steps[..i][j])
      {
        assert steps[..i][j] == steps[j];
      }
      var offsets := RunKeeps(states[..i + 1], steps[..i], true);
      GaplessIsPrefix(states[i], offsets);
    }
  }

  /** In a guarded run, PRODUCE answers OK only when the two logs of the partition are equal, the new record last. */
  lemma OkMeansEqual(states: seq<Cluster>, steps: seq<Step>)
    requires IsRun(states, steps) && steps != []
    requires forall i | 0 <= i < |steps| :: Guarded(states[i], steps[i])
    requires var c, step := states[|steps| - 1], steps[|steps| - 1];
      && step.Producing? && c.leaderUp && step.a.written <= |Serialize(step.payload)|
      && Produce(c.leader, c.follower, step.tp, step.payload, step.a, step.tps, step.script).reply == Answered("OK")
    ensures var c', step := states[|steps|], steps[|steps| - 1];
      && Log(c'.follower.store.files, step.tp) == Log(c'.leader.files, step.tp)
      && Log(c'.leader.files, step.tp) == Log(states[|steps| - 1].leader.files, step.tp) + [step.payload]
  {
    hide Next, Log, Agrees, RecoverableFiles, PlainLog, Plain, Tracks, Produce, IsListing, Wide;
    var n := |steps| - 1;
    var c, step := states[n], steps[n];
    forall j | 0 <= j < n
      ensures Legal(states[j], steps[..n][j]) && states[j + 1] == Next(states[j], steps[..n][j]) && Guarded(states[j], steps[..n][j])
    {
      assert steps[..n][j] == steps[j];
    }
    var offsets := RunKeeps(states[..n + 1], steps[..n], true);
    var mid, more := ProduceTracks(c.leader, c.follower, offsets, step.tp, step.payload, step.a, step.tps, step.script, true);
    NextIsProduce(c, step);
    PrefixSafety(states, steps);
    var p := Produce(c.leader, c.follower, step.tp, step.payload, step.a, step.tps, step.script);
    assert PrefixSafe(states[n + 1]) && states[n + 1] == Cluster(p.leader, !p.reply.Died?, p.follower);
    assert Guarded(c, step);
    assert Applied(p.synced, p.follower, step.tp);
    assert |Log(p.synced.store.files, step.tp)| == |Log(c.leader.files, step.tp)|;
    assert |Log(p.follower.store.files, step.tp)| > |Log(c.leader.files, step.tp)|;
  }

  lemma NextIsProduce(c: Cluster, step: Step)
    requires step.Producing? && c.leaderUp && step.a.written <= |Serialize(step.payload)|
    ensures var p := Produce(c.leader, c.follower, step.tp, step.payload, step.a, step.tps, step.script);
      Next(c, step) == Cluster(p.leader, !p.reply.Died?, p.follower)
  {
    hide Produce;
  }

  /** The guard holds whenever synchronization returned true, or the record's own REPLICATE was not applied. */
  lemma SyncGuards(c: Cluster, step: Step, offsets: Offsets)
    requires Inv(c, offsets) && AllGapless(offsets) && Legal(c, step)
    requires step.Producing? && c.leaderUp
    requires var p := Produce(c.leader, c.follower, step.tp, step.payload, step.a, step.tps, step.script);
      p.sync.Caught? || !Applied(p.synced, p.follower, step.tp)
    ensures Guarded(c, step)
  {
    hide Log, Agrees, RecoverableFiles, PlainLog, Plain, Tracks, Produce, IsListing, Wide;
    var mid, _ := ProduceTracks(c.leader, c.follower, offsets, step.tp, step.payload, step.a, step.tps, step.script, true);
    var p := Produce(c.leader, c.follower, step.tp, step.payload, step.a, step.tps, step.script);
    if p.sync.Caught? {
      Sampled(p.synced, c.leader.files, mid, step.tp);
      assert At(mid, step.tp) != [] ==> Gapless(At(mid, step.tp));
      GaplessSample(At(mid, step.tp), Log(p.synced.store.files, step.tp), Log(c.leader.files, step.tp));
      assert CaughtUp(c.leader.files, mid, step.tp);
    }
  }

  // The result that the code ignores was true, or the record's own REPLICATE was not applied.
  ghost predicate Synchronized(c: Cluster, step: Step) {
    step.Producing? && c.leaderUp && step.a.written <= |Serialize(step.payload)| ==>
      var p := Produce(c.leader, c.follower, step.tp, step.payload, step.a, step.tps, step.script);
      p.sync.Caught? || !Applied(p.synced, p.follower, step.tp)
  }

  ghost predicate IsSynchronizedRun(states: seq<Cluster>, steps: seq<Step>) {
    IsRun(states, steps) && forall i | 0 <= i < |steps| :: Synchronized(states[i], steps[i])
  }

  lemma {:induction false} SynchronizedIsGuarded(states: seq<Cluster>, steps: seq<Step>)
    requires IsSynchronizedRun(states, steps)
    ensures forall i | 0 <= i < |steps| :: Guarded(states[i], steps[i])
  {
    hide Legal, Guarded, Next, Synchronized;
    if steps != [] {
      var n := |steps| - 1;
      var front := steps[..n];
      forall i | 0 <= i < n
        ensures Legal(states[i], front[i]) && states[i + 1] == Next(states[i], front[i]) && Synchronized(states[i], front[i])
      {
        assert front[i] == steps[i];
      }
      SynchronizedIsGuarded(states[..n + 1], front);
      forall i | 0 <= i < n
        ensures Guarded(states[i], steps[i])
      {
        assert Guarded(states[..n + 1][i], front[i]);
      }
      var offsets := RunKeeps(states[..n + 1], front, true);
      SynchronizedGuards(states[n], steps[n], offsets);
    }
  }

  lemma SynchronizedGuards(c: Cluster, step: Step, offsets: Offsets)
    requires Inv(c, offsets) && AllGapless(offsets) && Legal(c, step) && Synchronized(c, step)
    ensures Guarded(c, step)
  {
    hide Produce, Applied, Inv, AllGapless, Plain, IsListing, Log, Serialize;
    if step.Producing? && c.leaderUp {
      SyncGuards(c, step, offsets);
    }
  }

  /**
   The promise of replication, over whole runs: if a PRODUCE whose synchronization failed never has its own REPLICATE applied,
   every follower log is always a prefix of the leader's, and OK means that the two logs of the partition are equal.
   */
  lemma SynchronizedSafety(states: seq<Cluster>, steps: seq<Step>)
    requires IsSynchronizedRun(states, steps)
    ensures forall i | 0 <= i <= |steps| :: PrefixSafe(states[i])
    ensures forall i | 0 <= i < |steps| && AnswersOk(states[i], steps[i]) :: LogsEqual(states[i], steps[i], states[i + 1])
  {
    hide PrefixSafe, Guarded, Synchronized, Legal, Next, AnswersOk, LogsEqual;
    SynchronizedIsGuarded(states, steps);
    PrefixSafety(states, steps);
    forall i | 0 <= i < |steps| && AnswersOk(states[i], steps[i])
      ensures LogsEqual(states[i], steps[i], states[i + 1])
    {
      var front := steps[..i + 1];
      forall j | 0 <= j < i + 1
        ensures Legal(states[j], front[j]) && states[j + 1] == Next(states[j], front[j]) && Guarded(states[j], front[j])
      {
        assert front[j] == steps[j];
      }
      OkIsEqual(states[..i + 2], front);
    }
  }

  ghost predicate AnswersOk(c: Cluster, step: Step) {
    && step.Producing? && c.leaderUp && step.a.written <= |Serialize(step.payload)|
    && Produce(c.leader, c.follower, step.tp, step.payload, step.a, step.tps, step.script).reply == Answered("OK")
  }

  ghost predicate LogsEqual(c: Cluster, step: Step, c': Cluster) {
    && step.Producing?
    && Log(c'.follower.store.files, step.tp) == Log(c'.leader.files, step.tp)
    && Log(c'.leader.files, step.tp) == Log(c.leader.files, step.tp) + [step.payload]
  }

  lemma OkIsEqual(states: seq<Cluster>, steps: seq<Step>)
    requires IsRun(states, steps) && steps != []
    requires forall i | 0 <= i < |steps| :: Guarded(states[i], steps[i])
    requires AnswersOk(states[|steps| - 1], steps[|steps| - 1])
    ensures LogsEqual(states[|steps| - 1], steps[|steps| - 1], states[|steps|])
  {
    hide Produce, Log, IsRun, Guarded, Serialize;
    OkMeansEqual(states, steps);
  }

  /** Exactly the guard: an unguarded PRODUCE that leaves the follower running leaves it unsafe. */
  lemma GuardIsExact(c: Cluster, step: Step, offsets: Offsets)
    requires Inv(c, offsets) && AllGapless(offsets) && Legal(c, step)
    requires step.Producing? && c.leaderUp && Next(c, step).follower.up
    ensures PrefixSafe(Next(c, step)) <==> Guarded(c, step)
  {
    hide Log, Agrees, RecoverableFiles, PlainLog, Plain, Produce, IsListing, Wide, Sample, Messages;
    if Guarded(c, step) {
      hide Tracks;
      var more := NextKeeps(c, step, offsets, true);
      GaplessIsPrefix(Next(c, step), more);
    } else {
      var mid, more := ProduceTracks(c.leader, c.follower, offsets, step.tp, step.payload, step.a, step.tps, step.script, true);
      var p := Produce(c.leader, c.follower, step.tp, step.payload, step.a, step.tps, step.script);
      NextIsProduce(c, step);
      Sampled(p.synced, c.leader.files, mid, step.tp);
      Sampled(p.follower, p.leader.files, more, step.tp);
      SampleLength(At(mid, step.tp), Log(p.synced.store.files, step.tp), Log(c.leader.files, step.tp));
      SampleLength(At(more, step.tp), Log(p.follower.store.files, step.tp), Log(p.leader.files, step.tp));
      assert ProgressIs(p.follower.store.progress, step.tp, At(more, step.tp));
    }
  }

  // ----- The condition before the request is sent -----

  lemma {:induction false} SendRecordsExtends(f: Follower, tp: TopicPartition, records: seq<string>, offset: nat, script: seq<Net>, more: seq<Net>)
    requires !SendRecords(f, tp, records, offset, script).result.LeaderDied?
    ensures var s := SendRecords(f, tp, records, offset, script);
      SendRecords(f, tp, records, offset, script + more) == s.(script := s.script + more)
    decreases |records|
  {
    hide Deliver, ReplicateText;
    if records != [] {
      assert (script + more)[1..] == script[1..] + more;
      var sent := Deliver(f, ReplicateText(tp.topic, tp.partition, offset, records[0]), script[0]);
      if sent.reply == Some("OK") {
        SendRecordsExtends(sent.follower, tp, records[1..], offset + 1, script[1..], more);
      }
    }
  }

  lemma SyncPartitionExtends(f: Follower, topics: Topics, tp: TopicPartition, script: seq<Net>, more: seq<Net>)
    requires !SyncPartition(f, topics, tp, script).result.LeaderDied?
    ensures var s := SyncPartition(f, topics, tp, script);
      SyncPartition(f, topics, tp, script + more) == s.(script := s.script + more)
  {
    hide Deliver, ProgressText, SendRecords, MissingRecords, ReadProgress;
    assert (script + more)[1..] == script[1..] + more;
    var sent := Deliver(f, ProgressText(tp.topic, tp.partition), script[0]);
    var progress := if sent.reply.Some? then ReadProgress(sent.reply.value) else None;
    if progress.Some? {
      SendRecordsExtends(sent.follower, tp, MissingRecords(topics, tp, progress.value), FirstMissing(progress.value), script[1..], more);
    }
  }

  lemma {:induction false} SyncAllExtends(f: Follower, topics: Topics, tps: seq<TopicPartition>, script: seq<Net>, more: seq<Net>)
    requires !SyncAll(f, topics, tps, script).result.LeaderDied?
    ensures var s := SyncAll(f, topics, tps, script); SyncAll(f, topics, tps, script + more) == s.(script := s.script + more)
    decreases |tps|
  {
    hide SyncPartition;
    if tps != [] {
      SyncPartitionExtends(f, topics, tps[0], script, more);
      var s := SyncPartition(f, topics, tps[0], script);
      if s.result.Caught? {
        SyncAllExtends(s.follower, topics, tps[1..], s.script, more);
      }
    }
  }

  // A PRODUCE whose append completed, its synchronization having used up the script, and the fate of its own REPLICATE.
  function WithFate(tp: TopicPartition, payload: string, tps: seq<TopicPartition>, script: seq<Net>, net: Net): Step {
    Producing(tp, payload, Appended(Completed, |Serialize(payload)|), tps, script + [net])
  }

  lemma ProduceWithFate(l: Store, f: Follower, tp: TopicPartition, payload: string, tps: seq<TopicPartition>, script: seq<Net>, net: Net)
    requires Agrees(l) && Wide(l.topics) && PlainLog(l.files) && RecoverableFiles(l.files) && Plain(tp, payload)
    requires |Log(l.files, tp)| < LONG_LONG_MAX
    requires var s := SyncAll(f, l.topics, tps, script); !s.result.LeaderDied? && s.script == []
    ensures var s := SyncAll(f, l.topics, tps, script);
      var p := Produce(l, f, tp, payload, Appended(Completed, |Serialize(payload)|), tps, script + [net]);
      var sent := Deliver(s.follower, ReplicateText(tp.topic, tp.partition, |Log(l.files, tp)|, payload), net);
      && p.synced == s.follower && p.follower == sent.follower
      && p.reply == Answered(if sent.reply == Some("OK") then "OK" else "ERROR")
  {
    hide SyncAll, ProduceLocally, Deliver, ReplicateText, Agrees, Log, PlainLog, RecoverableFiles, Wide, Plain, Serialize, Messages;
    SyncAllExtends(f, l.topics, tps, script, [net]);
    LocalAppend(l, tp, payload, Appended(Completed, |Serialize(payload)|));
    AgreeingLog(l, tp);
    assert [] + [net] == [net];
  }

  lemma TooLongIsLost(f: Follower, text: string, net: Net, tp: TopicPartition)
    requires |text| > MAX_PAYLOAD_SIZE && RecoverableFiles(f.store.files)
    ensures !Applied(f, Deliver(f, text, net).follower, tp)
  {
    hide Log, RecoverableFiles, Recovered;
    RestartLogs(f);
  }

  lemma AcknowledgedAfterRestart(f: Follower, tp: TopicPartition, offset: nat, payload: string)
    requires Plain(tp, payload) && offset <= LONG_LONG_MAX && RecoverableFiles(f.store.files)
    requires |ReplicateText(tp.topic, tp.partition, offset, payload)| <= MAX_PAYLOAD_SIZE
    ensures var sent := Deliver(f, ReplicateText(tp.topic, tp.partition, offset, payload), Net(true, Acked));
      sent.reply == Some("OK") && sent.follower.up
  {
    hide Parse, ReplicateText, Plain, Serialize, Push, WithTopic, HasPartition, Wide, Recovered;
    DeliveredPlain(tp, offset, payload);
    RecoveredFiles(f.store.files);
    PlainHasPartition(Recovered(f.store.files, true).topics, tp, payload);
  }

  // Whatever becomes of the REPLICATE, the prefix is kept.
  ghost predicate SafeToSend(c: Cluster, tp: TopicPartition, payload: string, tps: seq<TopicPartition>, script: seq<Net>) {
    forall net: Net :: PrefixSafe(Next(c, WithFate(tp, payload, tps, script, net)))
  }

  /**
   Exactly when the leader may send a record: after any synchronized run, every fate of its REPLICATE keeps the prefix if and
   only if the follower, as synchronization left it, has every earlier record of the partition, or the text does not fit a frame.
   */
  lemma SafeToSendExactly(states: seq<Cluster>, steps: seq<Step>, tp: TopicPartition, payload: string, tps: seq<TopicPartition>, script: seq<Net>)
    requires IsSynchronizedRun(states, steps) && states[|steps|].leaderUp
    requires Legal(states[|steps|], WithFate(tp, payload, tps, script, Net(true, Acked)))
    requires var c := states[|steps|]; var s := SyncAll(c.follower, c.leader.topics, tps, script);
      !s.result.LeaderDied? && s.script == []
    ensures var c := states[|steps|]; var s := SyncAll(c.follower, c.leader.topics, tps, script);
      SafeToSend(c, tp, payload, tps, script) <==>
        || |Log(s.follower.store.files, tp)| == |Log(c.leader.files, tp)|
        || |ReplicateText(tp.topic, tp.partition, |Log(c.leader.files, tp)|, payload)| > MAX_PAYLOAD_SIZE
  {
    hide Inv, AllGapless, PrefixSafe, Next, Legal, Synchronized, SyncAll, Log, ReplicateText;
    var offsets := SynchronizedInv(states, steps);
    var c := states[|steps|];
    var s := SyncAll(c.follower, c.leader.topics, tps, script);
    if |Log(s.follower.store.files, tp)| == |Log(c.leader.files, tp)|
       || |ReplicateText(tp.topic, tp.partition, |Log(c.leader.files, tp)|, payload)| > MAX_PAYLOAD_SIZE {
      forall net: Net
        ensures PrefixSafe(Next(c, WithFate(tp, payload, tps, script, net)))
      {
        FateIsSafe(c, offsets, tp, payload, tps, script, net);
      }
    } else {
      FateIsUnsafe(c, offsets, tp, payload, tps, script);
      assert !PrefixSafe(Next(c, WithFate(tp, payload, tps, script, Net(true, Acked))));
    }
  }

  lemma SynchronizedInv(states: seq<Cluster>, steps: seq<Step>) returns (offsets: Offsets)
    requires IsSynchronizedRun(states, steps)
    ensures Inv(states[|steps|], offsets) && AllGapless(offsets)
  {
    hide Inv, Guarded, Synchronized, Legal, Next;
    SynchronizedIsGuarded(states, steps);
    offsets := RunKeeps(states, steps, true);
  }

  // What the two directions start from.
  ghost predicate ReadyToSend(c: Cluster, offsets: Offsets, tp: TopicPartition, payload: string, tps: seq<TopicPartition>, script: seq<Net>) {
    && Inv(c, offsets) && AllGapless(offsets) && c.leaderUp
    && Legal(c, WithFate(tp, payload, tps, script, Net(true, Acked)))
    && var s := SyncAll(c.follower, c.leader.topics, tps, script); !s.result.LeaderDied? && s.script == []
  }

  lemma FateIsSafe(c: Cluster, offsets: Offsets, tp: TopicPartition, payload: string, tps: seq<TopicPartition>, script: seq<Net>, net: Net)
    requires ReadyToSend(c, offsets, tp, payload, tps, script)
    requires var s := SyncAll(c.follower, c.leader.topics, tps, script);
      || |Log(s.follower.store.files, tp)| == |Log(c.leader.files, tp)|
      || |ReplicateText(tp.topic, tp.partition, |Log(c.leader.files, tp)|, payload)| > MAX_PAYLOAD_SIZE
    ensures PrefixSafe(Next(c, WithFate(tp, payload, tps, script, net)))
  {
    hide AllGapless, PrefixSafe, SyncAll, Log, ReplicateText, Produce, Tracks, Agrees, RecoverableFiles, PlainLog, Plain, Wide, IsListing, Deliver, Applied, Next, Serialize;
    var step := WithFate(tp, payload, tps, script, net);
    var s := SyncAll(c.follower, c.leader.topics, tps, script);
    ProduceWithFate(c.leader, c.follower, tp, payload, tps, script, net);
    if |ReplicateText(tp.topic, tp.partition, |Log(c.leader.files, tp)|, payload)| > MAX_PAYLOAD_SIZE {
      SyncedFilesRecoverable(c, offsets, tps, script);
      TooLongIsLost(s.follower, ReplicateText(tp.topic, tp.partition, |Log(c.leader.files, tp)|, payload), net, tp);
    }
    assert Guarded(c, step);
    var more := NextKeeps(c, step, offsets, true);
    GaplessIsPrefix(Next(c, step), more);
  }

  lemma SyncedFilesRecoverable(c: Cluster, offsets: Offsets, tps: seq<TopicPartition>, script: seq<Net>)
    requires Inv(c, offsets) && AllGapless(offsets) && c.leaderUp && IsListing(tps, c.leader.topics)
    ensures RecoverableFiles(SyncAll(c.follower, c.leader.topics, tps, script).follower.store.files)
  {
    hide Agrees, Log, Wide, PlainLog, RecoverableFiles, SyncAll, Sample, AllGapless;
    var _ := SyncAllTracks(c.follower, c.leader, offsets, tps, script, true);
  }

  lemma FateIsUnsafe(c: Cluster, offsets: Offsets, tp: TopicPartition, payload: string, tps: seq<TopicPartition>, script: seq<Net>)
    requires ReadyToSend(c, offsets, tp, payload, tps, script)
    requires var s := SyncAll(c.follower, c.leader.topics, tps, script); |Log(s.follower.store.files, tp)| != |Log(c.leader.files, tp)|
    requires |ReplicateText(tp.topic, tp.partition, |Log(c.leader.files, tp)|, payload)| <= MAX_PAYLOAD_SIZE
    ensures !PrefixSafe(Next(c, WithFate(tp, payload, tps, script, Net(true, Acked))))
  {
    hide AllGapless, PrefixSafe, SyncAll, Log, ReplicateText, Produce, Tracks, Agrees, RecoverableFiles, PlainLog, Plain, Wide, IsListing, Deliver, Applied, Serialize;
    var step := WithFate(tp, payload, tps, script, Net(true, Acked));
    var s := SyncAll(c.follower, c.leader.topics, tps, script);
    ProduceWithFate(c.leader, c.follower, tp, payload, tps, script, Net(true, Acked));
    SyncedFilesRecoverable(c, offsets, tps, script);
    AcknowledgedAfterRestart(s.follower, tp, |Log(c.leader.files, tp)|, payload);
    var mid, more := ProduceTracks(c.leader, c.follower, offsets, tp, payload, step.a, tps, step.script, true);
    assert !Guarded(c, step);
    GuardIsExact(c, step, offsets);
  }

  // What holds of the follower without any guard.
  ghost predicate SampledSafe(c: Cluster) {
    forall tp :: SampledFrom(c, tp)
  }

  ghost predicate SampledFrom(c: Cluster, tp: TopicPartition) {
    exists o: seq<nat> ::
      && Sample(o, Log(c.follower.store.files, tp), Log(c.leader.files, tp))
      && (c.follower.up ==>
            && ProgressIs(c.follower.store.progress, tp, o)
            && Messages(c.follower.store.topics, tp) == Log(c.follower.store.files, tp))
  }

  /**
   With synchronization failures ignored, as the code does, and no follower restart: the follower holds the leader's records
   at strictly increasing offsets, in memory as on disk, progress being the last of them. Gaps can appear; repeats and reorderings cannot.
   */
  lemma UnguardedSampling(states: seq<Cluster>, steps: seq<Step>)
    requires IsRun(states, steps)
    requires forall i | 0 <= i < |steps| :: NoFollowerRestart(steps[i])
    ensures SampledSafe(states[|steps|])
  {
    hide Legal, Next;
    var offsets := RunKeeps(states, steps, false);
    hide Log, Agrees, RecoverableFiles, PlainLog, Sample, Wide, Messages;
    var c := states[|steps|];
    forall tp
      ensures SampledFrom(c, tp)
    {
      Sampled(c.follower, c.leader.files, offsets, tp);
      if c.follower.up {
        AgreeingLog(c.follower.store, tp);
      }
      assert c.follower.up ==> ProgressIs(c.follower.store.progress, tp, At(offsets, tp));
    }
  }

  /**
   The prefix is lost as soon as the code's ignored result matters: whenever the follower is behind on a partition, a lost
   progress query followed by a delivered REPLICATE leaves a gap.
   */
  lemma IgnoredFailureLeavesGap(c: Cluster, step: Step, offsets: Offsets)
    requires Inv(c, offsets) && AllGapless(offsets) && Legal(c, step)
    requires step.Producing? && c.leaderUp && c.follower.up && step.a.outcome.Completed?
    requires |Log(c.follower.store.files, step.tp)| < |Log(c.leader.files, step.tp)|
    requires step.script == [Net(false, Lost), Net(false, Acked)]
    requires |ReplicateText(step.tp.topic, step.tp.partition, |Log(c.leader.files, step.tp)|, step.payload)| <= MAX_PAYLOAD_SIZE
    ensures Next(c, step).follower.up && !PrefixSafe(Next(c, step))
  {
    hide Log, Agrees, RecoverableFiles, PlainLog, Plain, Wide, Sample, Messages, Parse, Serialize, ReplicateText, ProgressText, PrefixSafe, Tracks;
    hide ProduceLocally, Replicate;
    var tp, payload, l, f := step.tp, step.payload, c.leader, c.follower;
    AgreeingLog(l, tp);
    assert tp in step.tps;
    assert SyncAll(f, l.topics, step.tps, step.script) == Synced(f, Failed, [Net(false, Acked)]) by {
      assert step.script[1..] == [Net(false, Acked)];
    }
    LocalAppend(l, tp, payload, step.a);
    var grown := ProduceLocally(l, tp, payload, step.a).0.files;
    TracksGrowth(f, l.files, grown, offsets);
    AfterEverything(f, l.files, grown, offsets, tp, payload);
    DeliveredPlain(tp, |Log(l.files, tp)|, payload);
    assert f == Follower(true, f.store);
    ReplicateTracks(f.store, grown, offsets, tp, |Log(l.files, tp)|, payload, Appended(Completed, |Serialize(payload)|));
    GuardIsExact(c, step, offsets);
  }

  lemma LostReplicate(l: Store, f: Follower, tp: TopicPartition, payload: string, a: Appended)
    requires CleanAppend(payload, a) && ProduceLocally(l, tp, payload, a).1 == Answered("OK")
    ensures Produce(l, f, tp, payload, a, [], [Net(false, Lost)])
         == Produced(ProduceLocally(l, tp, payload, a).0, Answered("ERROR"), Caught, f, f, [])
  {
    hide ProduceLocally, ReplicateText, Serialize;
  }

  // The first record of a new leader, its REPLICATE lost.
  lemma FirstRecordLost(tp: TopicPartition, payload: string)
    requires Plain(tp, payload)
    ensures var step := Producing(tp, payload, Appended(Completed, |Serialize(payload)|), [], [Net(false, Lost)]);
      var c := Next(START, step);
      && Legal(START, step) && Guarded(START, step)
      && c.leaderUp && c.follower == START.follower && Agrees(c.leader)
      && forall other :: Log(c.leader.files, other) == if other == tp then [payload] else []
  {
    hide Log, Agrees, Serialize, Produce, ProduceLocally, Plain, Wide, PlainLog, RecoverableFiles;
    StartHolds();
    var a := Appended(Completed, |Serialize(payload)|);
    NothingLogged();
    LocalAppend(EMPTY, tp, payload, a);
    LostReplicate(EMPTY, START.follower, tp, payload, a);
    assert START.leader == EMPTY;
  }

  lemma NothingLogged()
    ensures forall tp :: Log(EMPTY.files, tp) == [] && Messages(EMPTY.topics, tp) == []
  {
    EmptyRejected();
    hide Scan;
  }

  lemma LetterIsPlain(tp: TopicPartition, payload: string)
    requires tp == TopicPartition("t", 0) && (payload == "a" || payload == "b")
    ensures Plain(tp, payload)
  {
  }

  lemma ShortText()
    ensures |ReplicateText("t", 0, 1, "b")| <= MAX_PAYLOAD_SIZE
  {
    assert |Decimal(0)| == 1 && |Decimal(1)| == 1;
  }

  /** A shortest run to a gap: one REPLICATE lost, then one progress query lost and the next REPLICATE delivered. */
  lemma GapIsReachable() returns (states: seq<Cluster>, steps: seq<Step>)
    ensures IsRun(states, steps) && |steps| == 2 && !PrefixSafe(states[2])
  {
    hide Log, Agrees, Serialize, ReplicateText, Inv, Next, PrefixSafe, Guarded, Plain, Messages;
    var tp := TopicPartition("t", 0);
    var one := Producing(tp, "a", Appended(Completed, |Serialize("a")|), [], [Net(false, Lost)]);
    var two := Producing(tp, "b", Appended(Completed, |Serialize("b")|), [tp], [Net(false, Lost), Net(false, Acked)]);
    var c := Next(START, one);
    states, steps := [START, c, Next(c, two)], [one, two];
    StartHolds();
    LetterIsPlain(tp, "a");
    LetterIsPlain(tp, "b");
    FirstRecordLost(tp, "a");
    NothingLogged();
    var offsets := NextKeeps(START, one, map[], true);
    forall other
      ensures other in two.tps <==> Messages(c.leader.topics, other) != []
    {
      AgreeingLog(c.leader, other);
    }
    ShortText();
    IgnoredFailureLeavesGap(c, two, offsets);
  }
}
