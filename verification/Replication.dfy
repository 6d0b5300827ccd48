/**
 Leader and follower. Every BrokerClient::request is one Net outcome: the follower may crash and
 restart before it arrives; it may be lost, applied with its answer lost, applied and answered, or torn
 by a follower crash inside the append. When the outcomes run out, the leader process dies there.
 The functions follow synchronize_follower, query_follower_progress, catch_up_follower and PRODUCE.
 */
module Replication {
  import opened Types
  import opened Text
  import opened Framing
  import opened Record
  import opened TopicLog
  import opened Protocol
  import opened Store

  datatype Fate = Acked | AckLost | Lost | Torn(written: nat)

  datatype Net = Net(restart: bool, fate: Fate)

  // A follower that is not up is a crashed process: only its files count.
  datatype Follower = Follower(up: bool, store: Store)

  function Restarted(f: Follower): Follower {
    Follower(true, Recovered(f.store.files, true))
  }

  function ProgressReply(progress: map<TopicPartition, nat>, tp: TopicPartition): string {
    if tp in progress then Decimal(progress[tp]) else "NONE"
  }

  function FollowerHandles(s: Store, req: Request): (Store, string) {
    var tp := TopicPartition(req.topic, req.partition);
    match req.kind
    case REPLICATE =>
      var r := Replicate(s, tp, req.offset, req.payload, Appended(Completed, |Serialize(req.payload)|));
      (r.0, if r.1.Answered? then r.1.text else "ERROR")
    case REPLICATION_PROGRESS => (s, ProgressReply(s.progress, tp))
    case _ => (s, "ERROR")
  }

  // The process dies handling the request, after at most written bytes of an append.
  function FollowerDies(s: Store, req: Request, written: nat): Store {
    var total := |Serialize(req.payload)|;
    if req.kind == REPLICATE
    then Replicate(s, TopicPartition(req.topic, req.partition), req.offset, req.payload,
                   Appended(Crashed, if written < total then written else total)).0
    else s
  }

  // reply is None when the leader's request throws.
  datatype Sent = Sent(follower: Follower, reply: Option<string>)

  function Receive(f: Follower, text: string, fate: Fate): Sent {
    if |text| > MAX_PAYLOAD_SIZE || fate.Lost? || !f.up then Sent(f, None)
    else if fate.Torn? then Sent(Follower(false, FollowerDies(f.store, Parse(text), fate.written)), None)
    else
      var r := FollowerHandles(f.store, Parse(text));
      Sent(Follower(true, r.0), if fate.Acked? then Some(r.1) else None)
  }

  function Deliver(f: Follower, text: string, net: Net): Sent {
    Receive(if net.restart then Restarted(f) else f, text, net.fate)
  }

  datatype SyncResult = Caught | Failed | LeaderDied

  datatype Synced = Synced(follower: Follower, result: SyncResult, script: seq<Net>)

  // get_missing_records
  function MissingRecords(topics: Topics, tp: TopicPartition, progress: Option<nat>): seq<string> {
    var messages := Messages(topics, tp);
    if messages == [] then []
    else match progress
      case None => messages
      case Some(p) => if p >= |messages| - 1 then [] else messages[p + 1..]
  }

  function FirstMissing(progress: Option<nat>): nat {
    match progress case None => 0 case Some(p) => p + 1
  }

  // The loop of catch_up_follower: in offset order, up to the first request that is not answered OK.
  function SendRecords(f: Follower, tp: TopicPartition, records: seq<string>, offset: nat, script: seq<Net>): Synced
    decreases |records|
  {
    if records == [] then Synced(f, Caught, script)
    else if script == [] then Synced(f, LeaderDied, [])
    else
      var sent := Deliver(f, ReplicateText(tp.topic, tp.partition, offset, records[0]), script[0]);
      if sent.reply == Some("OK") then SendRecords(sent.follower, tp, records[1..], offset + 1, script[1..])
      else Synced(sent.follower, Failed, script[1..])
  }

  // std::stoull of the whole answer; None when it throws.
  function ReadProgress(text: string): Option<Option<nat>> {
    if text == "NONE" then Some(None) else
    match WholeInteger(text)
    case None => None
    case Some(v) => if 0 <= v <= UINT64_MAX then Some(Some(v)) else if -UINT64_MAX <= v < 0 then Some(Some(UINT64_MAX + 1 + v)) else None
  }

  const UINT64_MAX: int := 0xFFFF_FFFF_FFFF_FFFF

  /** What the leader makes of a progress answer: NONE and numbers are taken for what they are, anything else is an error. */
  lemma ProgressIsRead(n: nat)
    ensures ReadProgress("NONE") == Some(None) && ReadProgress("ERROR") == None && ReadProgress("") == None
    ensures ReadProgress(Decimal(n)) == if n <= UINT64_MAX then Some(Some(n)) else None
  {
    ReadsDecimal(n);
    hide WholeInteger;
    assert IsDigit(Decimal(n)[0]);
    assert Decimal(n) != "NONE";
    NoNumbers();
  }

  lemma NoNumbers()
    ensures WholeInteger("ERROR") == None && WholeInteger("") == None
  {
    assert "ERROR"[0] == 'E';
  }

  function SyncPartition(f: Follower, topics: Topics, tp: TopicPartition, script: seq<Net>): Synced {
    if script == [] then Synced(f, LeaderDied, []) else
    var sent := Deliver(f, ProgressText(tp.topic, tp.partition), script[0]);
    var progress := if sent.reply.Some? then ReadProgress(sent.reply.value) else None;
    match progress
    case None => Synced(sent.follower, Failed, script[1..])
    case Some(p) => SendRecords(sent.follower, tp, MissingRecords(topics, tp, p), FirstMissing(p), script[1..])
  }

  // synchronize_follower over the non-empty partitions in the order found.
  function SyncAll(f: Follower, topics: Topics, tps: seq<TopicPartition>, script: seq<Net>): Synced
    decreases |tps|
  {
    if tps == [] then Synced(f, Caught, script) else
    var s := SyncPartition(f, topics, tps[0], script);
    if s.result.Caught? then SyncAll(s.follower, topics, tps[1..], s.script) else s
  }

  datatype Produced = Produced(leader: Store, reply: Reply, sync: SyncResult, synced: Follower, follower: Follower, script: seq<Net>)

  // PRODUCE on a leader with a follower. Whatever synchronization returned, the record is appended and sent.
  function Produce(l: Store, f: Follower, tp: TopicPartition, payload: string, a: Appended, tps: seq<TopicPartition>, script: seq<Net>): Produced
    requires a.written <= |Serialize(payload)|
  {
    var s := SyncAll(f, l.topics, tps, script);
    if s.result.LeaderDied? then Produced(l, Died, s.result, s.follower, s.follower, s.script) else
    var offset := |Messages(l.topics, tp)|;
    var local := ProduceLocally(l, tp, payload, a);
    if local.1 != Answered("OK") then Produced(local.0, local.1, s.result, s.follower, s.follower, s.script)
    else if s.script == [] then Produced(local.0, Died, s.result, s.follower, s.follower, s.script)
    else
      var sent := Deliver(s.follower, ReplicateText(tp.topic, tp.partition, offset, payload), s.script[0]);
      Produced(local.0, Answered(if sent.reply == Some("OK") then "OK" else "ERROR"), s.result, s.follower, sent.follower, s.script[1..])
  }
}
