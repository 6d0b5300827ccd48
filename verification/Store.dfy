/**
 What a broker keeps of its topics: the messages in memory, the log files on disk, and, on a follower,
 the replication progress. The functions say what the PRODUCE, REPLICATE and FETCH branches of
 handle_request and recover_from_disk do to it; the class Broker is proved equal to them.
 */
module Store {
  import opened Types
  import opened Record
  import opened TopicLog
  import opened Lines

  datatype Partition = Partition(id: int, messages: seq<string>)

  datatype Topic = Topic(name: string, partitions: seq<Partition>)

  type Topics = map<string, Topic>

  datatype Store = Store(topics: Topics, files: Files, progress: map<TopicPartition, nat>)

  const DEFAULT_PARTITION_COUNT: nat := 3

  function NewTopic(name: string): Topic {
    Topic(name, [Partition(0, []), Partition(1, []), Partition(2, [])])
  }

  predicate HasPartition(topics: Topics, tp: TopicPartition) {
    tp.topic in topics && 0 <= tp.partition < |topics[tp.topic].partitions|
  }

  function Messages(topics: Topics, tp: TopicPartition): seq<string> {
    if HasPartition(topics, tp) then topics[tp.topic].partitions[tp.partition].messages else []
  }

  // Find the topic or create it.
  function WithTopic(topics: Topics, topic: string): Topics {
    if topic in topics then topics else topics[topic := NewTopic(topic)]
  }

  function Push(topics: Topics, tp: TopicPartition, payload: string): Topics
    requires HasPartition(topics, tp)
  {
    var t := topics[tp.topic];
    var p := t.partitions[tp.partition];
    topics[tp.topic := t.(partitions := t.partitions[tp.partition := p.(messages := p.messages + [payload])])]
  }

  // The records that a log file holds.
  function Log(files: Files, tp: TopicPartition): seq<string> {
    Scan(GetOr(files, tp, "")).payloads
  }

  datatype Reply = Answered(text: string) | Exception | Died

  // The local part of PRODUCE: memory first, then disk.
  function ProduceLocally(s: Store, tp: TopicPartition, payload: string, a: Appended): (r: (Store, Reply))
    requires a.written <= |Serialize(payload)|
  {
    var topics := WithTopic(s.topics, tp.topic);
    if !HasPartition(topics, tp) then (s.(topics := topics), Answered("ERROR")) else
    var s' := s.(topics := Push(topics, tp, payload), files := Extended(s.files, tp, Serialize(payload)[..a.written]));
    match a.outcome
    case Completed => (s', Answered("OK"))
    case Threw => (s', Exception)
    case Crashed => (s', Died)
  }

  // REPLICATE on a follower: disk first, then progress and memory. The offset is taken as it comes.
  function Replicate(s: Store, tp: TopicPartition, offset: nat, payload: string, a: Appended): (r: (Store, Reply))
    requires a.written <= |Serialize(payload)|
  {
    var topics := WithTopic(s.topics, tp.topic);
    if !HasPartition(topics, tp) then (s.(topics := topics), Answered("ERROR")) else
    var files := Extended(s.files, tp, Serialize(payload)[..a.written]);
    match a.outcome
    case Completed => (Store(Push(topics, tp, payload), files, s.progress[tp := offset]), Answered("OK"))
    case Threw => (s.(topics := topics, files := files), Answered("ERROR"))
    case Crashed => (s.(topics := topics, files := files), Died)
  }

  function Fetch(topics: Topics, tp: TopicPartition, offset: nat): string {
    if !HasPartition(topics, tp) then "ERROR"
    else if offset >= |Messages(topics, tp)| then ""
    else JoinLines(Messages(topics, tp)[offset..])
  }

  // ----- Recovery -----

  function FilesOf(files: Files, topic: string): set<TopicPartition> {
    set tp | tp in files && tp.topic == topic
  }

  lemma {:induction false} GreatestPartition(tps: set<TopicPartition>)
    requires tps != {}
    ensures exists m :: m in tps && forall tp | tp in tps :: tp.partition <= m.partition
    decreases |tps|
  {
    var x :| x in tps;
    if tps != {x} {
      GreatestPartition(tps - {x});
      var m :| m in tps - {x} && forall tp | tp in tps - {x} :: tp.partition <= m.partition;
      var n := if x.partition <= m.partition then m else x;
      assert n in tps && forall tp | tp in tps :: tp.partition <= n.partition;
    } else {
      assert x in tps && forall tp | tp in tps :: tp.partition <= x.partition;
    }
  }

  function MaxPartition(tps: set<TopicPartition>, topic: string, least: int): (m: int)
    requires forall tp | tp in tps :: tp.topic == topic
    ensures m >= least && forall tp | tp in tps :: tp.partition <= m
    ensures m == least || TopicPartition(topic, m) in tps
  {
    if tps == {} then least else
    GreatestPartition(tps);
    var last :| last in tps && forall tp | tp in tps :: tp.partition <= last.partition;
    if last.partition > least then last.partition else least
  }

  function RecoveredTopic(files: Files, topic: string): Topic {
    var count := MaxPartition(FilesOf(files, topic), topic, DEFAULT_PARTITION_COUNT - 1) + 1;
    Topic(topic, seq(count, i requires 0 <= i < count =>
      Partition(if i < DEFAULT_PARTITION_COUNT || TopicPartition(topic, i) in files then i else -1, Log(files, TopicPartition(topic, i)))))
  }

  function TopicNames(files: Files): set<string> {
    set tp | tp in files :: tp.topic
  }

  function Truncated(file: string): string {
    file[..Scan(file).used]
  }

  // What a restarted broker rebuilds from the files alone.
  function Recovered(files: Files, follower: bool): Store {
    Store(map t | t in TopicNames(files) :: RecoveredTopic(files, t),
          map tp | tp in files :: Truncated(files[tp]),
          if follower then map tp | tp in files && Log(files, tp) != [] :: |Log(files, tp)| - 1 else map[])
  }

  // ----- Memory and disk in agreement -----

  // The file of a partition is exactly the encoding of its messages.
  ghost predicate Agrees(s: Store) {
    && (forall tp | tp in s.files :: HasPartition(s.topics, tp))
    && (forall tp :: AllFit(Messages(s.topics, tp)) && GetOr(s.files, tp, "") == EncodeAll(Messages(s.topics, tp)))
  }

  // A file that a crash may have left: whole records and at most a torn one.
  ghost predicate Recoverable(file: string) {
    exists payloads: seq<string>, tail: string :: IsTornLog(file, payloads, tail)
  }

  ghost predicate IsTornLog(file: string, payloads: seq<string>, tail: string) {
    AllFit(payloads) && file == EncodeAll(payloads) + tail && DecodeFirst(tail).Rejected?
  }

  lemma TornLogScans(file: string, payloads: seq<string>, tail: string)
    requires IsTornLog(file, payloads, tail)
    ensures Scan(file).payloads == payloads && Truncated(file) == EncodeAll(payloads)
    ensures EncodeAll(Scan(file).payloads) == Truncated(file) && AllFit(Scan(file).payloads)
  {
    hide EncodeAll, DecodeFirst, Scan;
    ScanUndoesEncode(payloads, tail);
  }

  lemma EmptyRejected()
    ensures DecodeFirst("").Rejected? && Scan("") == Scanned([], 0) && EncodeAll([]) == ""
  {
  }

  lemma AgreeingLog(s: Store, tp: TopicPartition)
    requires Agrees(s)
    ensures Log(s.files, tp) == Messages(s.topics, tp) && Recoverable(GetOr(s.files, tp, ""))
  {
    hide EncodeAll, DecodeFirst, Scan;
    var payloads := Messages(s.topics, tp);
    EncodedScans(payloads);
    EmptyRejected();
    assert EncodeAll(payloads) + "" == EncodeAll(payloads);
    assert IsTornLog(GetOr(s.files, tp, ""), payloads, "");
  }

  lemma PushedMessages(topics: Topics, tp: TopicPartition, payload: string, other: TopicPartition)
    requires HasPartition(topics, tp)
    ensures Messages(Push(topics, tp, payload), other) == Messages(topics, other) + if other == tp then [payload] else []
    ensures HasPartition(Push(topics, tp, payload), other) <==> HasPartition(topics, other)
  {
  }

  lemma WithTopicMessages(topics: Topics, topic: string, tp: TopicPartition)
    ensures Messages(WithTopic(topics, topic), tp) == Messages(topics, tp)
    ensures HasPartition(topics, tp) ==> HasPartition(WithTopic(topics, topic), tp)
  {
  }

  // What a completed append does to both sides.
  lemma AppendedAgrees(s: Store, tp: TopicPartition, payload: string)
    requires Agrees(s) && Fits(payload) && HasPartition(WithTopic(s.topics, tp.topic), tp)
    ensures Agrees(s.(topics := Push(WithTopic(s.topics, tp.topic), tp, payload), files := Extended(s.files, tp, Serialize(payload))))
  {
    hide EncodeAll, Serialize, Messages, HasPartition, Push, WithTopic, AllFit;
    var topics := WithTopic(s.topics, tp.topic);
    var s' := s.(topics := Push(topics, tp, payload), files := Extended(s.files, tp, Serialize(payload)));
    forall other
      ensures AllFit(Messages(s'.topics, other)) && GetOr(s'.files, other, "") == EncodeAll(Messages(s'.topics, other))
    {
      PushedMessages(topics, tp, payload, other);
      WithTopicMessages(s.topics, tp.topic, other);
      EncodeAllSnoc(Messages(s.topics, tp), payload);
      AllFitSnoc(Messages(s.topics, tp), payload);
      assert Messages(s.topics, other) + [] == Messages(s.topics, other);
    }
    forall other | other in s'.files
      ensures HasPartition(s'.topics, other)
    {
      PushedMessages(topics, tp, payload, other);
      WithTopicMessages(s.topics, tp.topic, other);
    }
  }

  // What a partition holds before and after, in memory and in its log.
  ghost predicate Holds(before: Store, after: Store, tp: TopicPartition, more: seq<string>) {
    && (forall other :: Messages(after.topics, other) == Messages(before.topics, other) + if other == tp then more else [])
    && (forall other | other != tp :: GetOr(after.files, other, "") == GetOr(before.files, other, ""))
  }

  // The file grew by at most so much of a record.
  ghost predicate GotPart(files: Files, after: Files, tp: TopicPartition, record: string, most: nat) {
    exists written | 0 <= written <= most && written <= |record| ::
      GetOr(after, tp, "") == GetOr(files, tp, "") + record[..written]
  }

  /**
   REPLICATE, for every store and every end of its append: answered OK exactly when the record is stored and its offset noted.
   Otherwise memory and progress are as before, and the file has got at most what was written.
   */
  lemma ReplicateAnswers(s: Store, tp: TopicPartition, offset: nat, payload: string, a: Appended)
    requires a.written <= |Serialize(payload)| && (a.outcome.Completed? ==> a.written == |Serialize(payload)|)
    ensures var (after, reply) := Replicate(s, tp, offset, payload, a);
      var stored := Holds(s, after, tp, [payload]) && after.progress == s.progress[tp := offset];
      && (reply == Answered("OK") <==> stored)
      && (reply == Answered("OK") ==> GetOr(after.files, tp, "") == GetOr(s.files, tp, "") + Serialize(payload))
      && (reply != Answered("OK") ==> Holds(s, after, tp, []) && after.progress == s.progress)
      && (reply != Answered("OK") ==> GotPart(s.files, after.files, tp, Serialize(payload), a.written))
      && (reply == Answered("OK") <==> HasPartition(WithTopic(s.topics, tp.topic), tp) && a.outcome.Completed?)
      && (reply == Answered("ERROR") <==> !HasPartition(WithTopic(s.topics, tp.topic), tp) || a.outcome.Threw?)
      && (reply == Died || reply.Answered?)
  {
    hide Serialize, HasPartition, WithTopic, Push, Messages;
    var (after, reply) := Replicate(s, tp, offset, payload, a);
    forall other
      ensures Messages(after.topics, other) == Messages(s.topics, other) + if other == tp && reply == Answered("OK") then [payload] else []
    {
      WithTopicMessages(s.topics, tp.topic, other);
      if HasPartition(WithTopic(s.topics, tp.topic), tp) {
        PushedMessages(WithTopic(s.topics, tp.topic), tp, payload, other);
      }
    }
    var before := Messages(s.topics, tp);
    assert |before + [payload]| == |before| + 1 && |before + []| == |before|;
    assert Messages(after.topics, tp) == before + if reply == Answered("OK") then [payload] else [];
    assert Serialize(payload)[..|Serialize(payload)|] == Serialize(payload);
    WrittenSoFar(s.files, after.files, tp, Serialize(payload), if HasPartition(WithTopic(s.topics, tp.topic), tp) then a.written else 0);
  }

  lemma WrittenSoFar(files: Files, after: Files, tp: TopicPartition, record: string, written: nat)
    requires written <= |record|
    requires after == Extended(files, tp, record[..written]) || (written == 0 && after == files)
    ensures GetOr(after, tp, "") == GetOr(files, tp, "") + record[..written]
  {
    assert GetOr(files, tp, "") + record[..0] == GetOr(files, tp, "");
  }

  /**
   PRODUCE without a follower, for every store and every end of its append: answered OK exactly when the partition exists and the
   append returned; ERROR exactly when there is no such partition, nothing being stored. An append that throws is an exception.
   */
  lemma ProduceAnswers(s: Store, tp: TopicPartition, payload: string, a: Appended)
    requires a.written <= |Serialize(payload)| && (a.outcome.Completed? ==> a.written == |Serialize(payload)|)
    ensures var (after, reply) := ProduceLocally(s, tp, payload, a); var present := HasPartition(WithTopic(s.topics, tp.topic), tp);
      && (reply == Answered("OK") <==> present && a.outcome.Completed?)
      && (reply == Answered("ERROR") <==> !present)
      && (reply == Exception <==> present && a.outcome.Threw?)
      && (reply == Died <==> present && a.outcome.Crashed?)
      && Holds(s, after, tp, if present then [payload] else []) && after.progress == s.progress
      && (present ==> GetOr(after.files, tp, "") == GetOr(s.files, tp, "") + Serialize(payload)[..a.written])
      && (!present ==> after.files == s.files)
  {
    hide Serialize, HasPartition, WithTopic, Push, Messages;
    var (after, reply) := ProduceLocally(s, tp, payload, a);
    forall other
      ensures Messages(after.topics, other) == Messages(s.topics, other)
        + if other == tp && HasPartition(WithTopic(s.topics, tp.topic), tp) then [payload] else []
    {
      WithTopicMessages(s.topics, tp.topic, other);
      if HasPartition(WithTopic(s.topics, tp.topic), tp) {
        PushedMessages(WithTopic(s.topics, tp.topic), tp, payload, other);
      }
    }
    assert forall other :: Messages(s.topics, other) + [] == Messages(s.topics, other);
  }

  /** A topic that is first named by a request has partitions 0, 1 and 2, empty, each with its number as id. */
  lemma NewTopicHasThree(topics: Topics, topic: string, partition: int)
    requires topic !in topics
    ensures HasPartition(WithTopic(topics, topic), TopicPartition(topic, partition)) <==> partition in {0, 1, 2}
    ensures partition in {0, 1, 2} ==> WithTopic(topics, topic)[topic].partitions[partition] == Partition(partition, [])
  {
  }

  /** A recovered topic has at least three partitions, and as many as its files call for; those in between that have none are marked. */
  lemma RecoveredPartitions(files: Files, topic: string, partition: nat)
    ensures var p := RecoveredTopic(files, topic).partitions;
      && (partition < |p| <==> partition < 3 || exists tp :: tp in files && tp.topic == topic && tp.partition >= partition)
      && (partition < |p| ==> p[partition].id == if partition < 3 || TopicPartition(topic, partition) in files then partition else -1)
  {
    hide Log;
    var all := FilesOf(files, topic);
    var max := MaxPartition(all, topic, DEFAULT_PARTITION_COUNT - 1);
    if max >= 3 {
      assert TopicPartition(topic, max) in all;
    }
    forall tp | tp in files && tp.topic == topic
      ensures tp.partition <= max
    {
      assert tp in all;
    }
  }

  /** Recovered progress: on a follower the last offset of each log that is not empty, on a leader none. */
  lemma RecoveredProgressIs(files: Files, follower: bool, tp: TopicPartition)
    requires tp in files ==> tp.partition >= 0
    ensures var s := Recovered(files, follower);
      && (tp in s.progress <==> follower && Messages(s.topics, tp) != [])
      && (tp in s.progress ==> s.progress[tp] == |Messages(s.topics, tp)| - 1)
  {
    hide Log, Messages;
    RecoveredLog(files, follower, tp);
    EmptyRejected();
  }

  /** An append that fails without a crash leaves memory and disk apart, exactly when part of the record is missing. */
  lemma ProduceAgreesExactly(s: Store, tp: TopicPartition, payload: string, a: Appended)
    requires Agrees(s) && Fits(payload) && a.written <= |Serialize(payload)|
    requires HasPartition(WithTopic(s.topics, tp.topic), tp)
    ensures Agrees(ProduceLocally(s, tp, payload, a).0) <==> a.written == |Serialize(payload)|
  {
    hide Agrees, EncodeAll, Serialize, Messages, HasPartition, Push, WithTopic;
    var topics, s' := WithTopic(s.topics, tp.topic), ProduceLocally(s, tp, payload, a).0;
    if a.written == |Serialize(payload)| {
      assert Serialize(payload)[..a.written] == Serialize(payload);
      AppendedAgrees(s, tp, payload);
    } else {
      WithTopicMessages(s.topics, tp.topic, tp);
      PushedMessages(topics, tp, payload, tp);
      EncodeAllSnoc(Messages(s.topics, tp), payload);
      FileOf(s, tp);
      assert |GetOr(s'.files, tp, "")| < |EncodeAll(Messages(s'.topics, tp))|;
      if Agrees(s') {
        FileOf(s', tp);
      }
    }
  }

  /** Such an append: one byte of the record of "a" is written, then write() fails. */
  lemma ThrownAppendApart()
    ensures AppendOf("a", [Wrote(1), WriteError], Flushed) == Appended(Threw, 1)
    ensures !Agrees(ProduceLocally(Store(map[], map[], map[]), TopicPartition("t", 0), "a", Appended(Threw, 1)).0)
  {
    hide Serialize, Agrees, ProduceLocally;
    var s, tp := Store(map[], map[], map[]), TopicPartition("t", 0);
    OneByteThenError(|Serialize("a")|);
    NothingAgrees();
    ProduceAgreesExactly(s, tp, "a", Appended(Threw, 1));
  }

  lemma OneByteThenError(total: nat)
    requires total > 1
    ensures Landing(total, 0, [Wrote(1), WriteError], Flushed) == Appended(Threw, 1)
  {
    assert [Wrote(1), WriteError][1..] == [WriteError];
    assert Landing(total, 1, [WriteError], Flushed) == Appended(Threw, 1);
  }

  lemma NothingAgrees()
    ensures Agrees(Store(map[], map[], map[]))
  {
    EmptyRejected();
  }

  /**
   Acknowledged records that are lost: a PRODUCE throws inside a record, past its length field, and a shorter one is answered OK
   behind it. After a restart the partition has neither.
   */
  lemma DroppedBehindTorn(s: Store, tp: TopicPartition, torn: string, cut: nat, payload: string)
    requires Agrees(s) && Fits(torn) && Fits(payload) && HasPartition(WithTopic(s.topics, tp.topic), tp)
    requires 4 <= cut && cut + |Serialize(payload)| < |Serialize(torn)|
    ensures var thrown := ProduceLocally(s, tp, torn, Appended(Threw, cut));
      var later := ProduceLocally(thrown.0, tp, payload, Appended(Completed, |Serialize(payload)|));
      && thrown.1 == Exception && later.1 == Answered("OK")
      && Messages(later.0.topics, tp) == Messages(s.topics, tp) + [torn, payload]
      && Messages(Recovered(later.0.files, false).topics, tp) == Messages(s.topics, tp)
  {
    hide Serialize, Scan, DecodeFirst, EncodeAll, Messages, HasPartition, WithTopic, Push, Agrees, Recovered;
    var thrown := ProduceLocally(s, tp, torn, Appended(Threw, cut)).0;
    var later := ProduceLocally(thrown, tp, payload, Appended(Completed, |Serialize(payload)|)).0;
    var kept, left, record := Messages(s.topics, tp), Serialize(torn)[..cut], Serialize(payload);
    StaysPresent(s.topics, tp, torn);
    WithTopicMessages(s.topics, tp.topic, tp);
    PushedMessages(WithTopic(s.topics, tp.topic), tp, torn, tp);
    PushedMessages(thrown.topics, tp, payload, tp);
    assert kept + [torn] + [payload] == kept + [torn, payload];
    assert record[..|record|] == record;
    FileOf(s, tp);
    assert later.files[tp] == EncodeAll(kept) + left + record;
    LongTornHides(torn, cut, record);
    AllFitOf(s, tp);
    AfterTorn(kept, left, record);
    RecoveredLog(later.files, false, tp);
  }

  lemma StaysPresent(topics: Topics, tp: TopicPartition, payload: string)
    requires HasPartition(WithTopic(topics, tp.topic), tp)
    ensures var pushed := Push(WithTopic(topics, tp.topic), tp, payload); WithTopic(pushed, tp.topic) == pushed && HasPartition(pushed, tp)
  {
  }

  lemma AllFitOf(s: Store, tp: TopicPartition)
    requires Agrees(s)
    ensures AllFit(Messages(s.topics, tp))
  {
    hide EncodeAll, Messages, AllFit;
  }

  lemma AcknowledgedThenDropped()
    ensures var tp := TopicPartition("t", 0);
      var thrown := ProduceLocally(Store(map[], map[], map[]), tp, "0123456789", Appended(Threw, 4));
      var later := ProduceLocally(thrown.0, tp, "b", Appended(Completed, |Serialize("b")|));
      later.1 == Answered("OK") && Messages(Recovered(later.0.files, false).topics, tp) == []
  {
    NothingAgrees();
    DroppedBehindTorn(Store(map[], map[], map[]), TopicPartition("t", 0), "0123456789", 4, "b");
  }

  lemma FileOf(s: Store, tp: TopicPartition)
    requires Agrees(s)
    ensures GetOr(s.files, tp, "") == EncodeAll(Messages(s.topics, tp))
  {
    hide EncodeAll, Messages;
  }

  lemma AllFitSnoc(payloads: seq<string>, payload: string)
    requires AllFit(payloads) && Fits(payload)
    ensures AllFit(payloads + [payload])
  {
  }

  /** A write torn at any byte leaves the logs as they were, or with the whole new record. */
  lemma TornAppendLogs(s: Store, tp: TopicPartition, payload: string, written: nat, other: TopicPartition)
    requires Agrees(s) && Fits(payload) && written <= |Serialize(payload)|
    ensures var files := Extended(s.files, tp, Serialize(payload)[..written]);
      && Recoverable(GetOr(files, other, ""))
      && Log(files, other) == Messages(s.topics, other) + if other == tp && written == |Serialize(payload)| then [payload] else []
  {
    hide EncodeAll, DecodeFirst, Scan, Serialize, Messages;
    var files := Extended(s.files, tp, Serialize(payload)[..written]);
    if other != tp {
      AgreeingLog(s, other);
    } else if written < |Serialize(payload)| {
      TornRecordRejected(payload, written);
      assert IsTornLog(files[tp], Messages(s.topics, tp), Serialize(payload)[..written]);
      TornLogScans(files[tp], Messages(s.topics, tp), Serialize(payload)[..written]);
    } else {
      assert Serialize(payload)[..written] == Serialize(payload);
      EncodeAllSnoc(Messages(s.topics, tp), payload);
      AllFitSnoc(Messages(s.topics, tp), payload);
      EncodedScans(Messages(s.topics, tp) + [payload]);
      EmptyRejected();
      assert files[tp] + "" == files[tp];
      assert IsTornLog(files[tp], Messages(s.topics, tp) + [payload], "");
    }
  }

  // Files that recovery can be run on: one per existing partition id, each whole or torn.
  ghost predicate RecoverableFiles(files: Files) {
    && (forall tp | tp in files :: tp.partition >= 0)
    && (forall tp :: Recoverable(GetOr(files, tp, "")))
  }

  lemma RecoveredLog(files: Files, follower: bool, tp: TopicPartition)
    requires tp in files ==> tp.partition >= 0
    ensures tp in files ==> HasPartition(Recovered(files, follower).topics, tp)
    ensures Messages(Recovered(files, follower).topics, tp) == if tp in files then Log(files, tp) else []
    ensures GetOr(Recovered(files, follower).files, tp, "") == if tp in files then Truncated(files[tp]) else ""
  {
    hide Scan;
    EmptyRejected();
    if tp in files {
      assert tp in FilesOf(files, tp.topic);
      assert tp.topic in TopicNames(files);
    }
  }

  /** Recovery rebuilds memory in agreement with the truncated files, and loses nothing that was logged. */
  lemma RecoveryAgrees(files: Files, follower: bool)
    requires RecoverableFiles(files)
    ensures Agrees(Recovered(files, follower))
    ensures forall tp :: Messages(Recovered(files, follower).topics, tp) == Log(files, tp)
    ensures forall tp :: Log(Recovered(files, follower).files, tp) == Log(files, tp)
  {
    hide EncodeAll, DecodeFirst, Scan, AllFit, Messages, HasPartition, Truncated;
    var s := Recovered(files, follower);
    EmptyRejected();
    forall tp
      ensures Messages(s.topics, tp) == Log(files, tp) && AllFit(Log(files, tp))
      ensures GetOr(s.files, tp, "") == EncodeAll(Log(files, tp)) && Log(s.files, tp) == Log(files, tp)
      ensures tp in files ==> HasPartition(s.topics, tp)
    {
      RecoveredLog(files, follower, tp);
      hide Recovered;
      var file := GetOr(files, tp, "");
      var payloads: seq<string>, tail: string :| IsTornLog(file, payloads, tail);
      TornLogScans(file, payloads, tail);
      EncodedScans(payloads);
    }
  }
}
