/**
 The log file of one partition (topic_log.hpp). The file system is a Disk: a map from topic and
 partition to the bytes of the file. The results of write() and the way fsync and close end are inputs;
 when the results run out before the record is on disk, or fsync never returns, the process has crashed there.
 */
module TopicLog {
  import opened Types
  import opened Record

  datatype WriteResult = Wrote(count: nat) | Interrupted | WriteError

  type Files = map<TopicPartition, string>

  function Extended(files: Files, tp: TopicPartition, bytes: string): Files {
    files[tp := GetOr(files, tp, "") + bytes]
  }

  // How fsync and close end: both done, one of them failed, or the process died before they returned.
  datatype FlushResult = Flushed | FlushFailed | FlushCutShort

  datatype AppendOutcome = Completed | Threw | Crashed

  datatype Appended = Appended(outcome: AppendOutcome, written: nat)

  function OutcomeOf(flush: FlushResult): AppendOutcome {
    match flush
    case Flushed => Completed
    case FlushFailed => Threw
    case FlushCutShort => Crashed
  }

  // How far a sequence of write() results carries a record of total bytes, and how the append ends.
  function Landing(total: nat, done: nat, writes: seq<WriteResult>, flush: FlushResult): (r: Appended)
    requires done <= total
    ensures done <= r.written <= total
    ensures r.outcome.Completed? ==> r.written == total
    decreases |writes|
  {
    if done == total then Appended(OutcomeOf(flush), total)
    else if writes == [] then Appended(Crashed, done)
    else match writes[0]
      case Interrupted => Landing(total, done, writes[1..], flush)
      case WriteError => Appended(Threw, done)
      case Wrote(n) =>
        if n == 0 then Appended(Threw, done)
        else Landing(total, if done + n <= total then done + n else total, writes[1..], flush)
  }

  function AppendOf(payload: string, writes: seq<WriteResult>, flush: FlushResult): (r: Appended)
    ensures r.written <= |Serialize(payload)|
    ensures r.outcome.Completed? ==> r.written == |Serialize(payload)|
  {
    Landing(|Serialize(payload)|, 0, writes, flush)
  }

  // Results after which the loop goes on: bytes written, or an interruption, which is retried.
  predicate GoesOn(r: WriteResult) {
    r.Interrupted? || (r.Wrote? && r.count > 0)
  }

  function Sum(writes: seq<WriteResult>): nat {
    if writes == [] then 0 else (if writes[0].Wrote? then writes[0].count else 0) + Sum(writes[1..])
  }

  /**
   Exactly how an append ends. Writes that go on carry it as far as they add up, interruptions adding nothing. It completes when that
   is the whole record and fsync and close succeed; it throws on an error, an empty write, or a failing fsync or close; else it died.
   */
  lemma {:induction false} LandingExactly(total: nat, done: nat, writes: seq<WriteResult>, stop: seq<WriteResult>, flush: FlushResult)
    requires done <= total && forall r | r in writes :: GoesOn(r)
    requires stop == [] || !GoesOn(stop[0])
    ensures Landing(total, done, writes + stop, flush) ==
      if done + Sum(writes) >= total
      then Appended(if flush.Flushed? then Completed else if flush.FlushFailed? then Threw else Crashed, total)
      else Appended(if stop == [] then Crashed else Threw, done + Sum(writes))
    decreases |writes|
  {
    if writes == [] {
      assert writes + stop == stop;
    } else {
      assert writes[0] in writes;
      assert (writes + stop)[1..] == writes[1..] + stop;
      var n := if writes[0].Wrote? then writes[0].count else 0;
      if done < total {
        LandingExactly(total, if done + n <= total then done + n else total, writes[1..], stop, flush);
      }
    }
  }

  class Disk {
    var files: Files

    constructor ()
      ensures files == map[]
    {
      files := map[];
    }
  }

  class TopicLog {
    const disk: Disk
    const key: TopicPartition

    // The source throws std::invalid_argument for an empty topic name or a negative partition.
    constructor (disk: Disk, topic: string, partition: int)
      requires topic != "" && partition >= 0
      ensures this.disk == disk && key == TopicPartition(topic, partition)
    {
      this.disk := disk;
      this.key := TopicPartition(topic, partition);
    }

    function Content(): string
      reads disk
    {
      GetOr(disk.files, key, "")
    }

    /** Extends the file by the prefix of the record that the writes carried there: all of it when append returns. */
    method Append(payload: string, writes: seq<WriteResult>, flush: FlushResult) returns (outcome: AppendOutcome)
      modifies disk
      ensures outcome == AppendOf(payload, writes, flush).outcome
      ensures disk.files == Extended(old(disk.files), key, Serialize(payload)[..AppendOf(payload, writes, flush).written])
    {
      hide Serialize;
      var serialized := SerializeRecord(payload);
      disk.files := disk.files[key := Content()];
      assert Content() + serialized[..0] == Content();
      var next := 0;
      var totalWritten := 0;
      while totalWritten < |serialized|
        invariant 0 <= totalWritten <= |serialized| && next <= |writes|
        invariant disk.files == Extended(old(disk.files), key, serialized[..totalWritten])
        invariant Landing(|serialized|, totalWritten, writes[next..], flush) == AppendOf(payload, writes, flush)
        decreases |writes| - next
      {
        if next == |writes| {
          return Crashed;
        }
        var result := writes[next];
        assert writes[next..][1..] == writes[next + 1..];
        next := next + 1;
        if result.WriteError? || result == Wrote(0) {
          return Threw;
        }
        if result.Wrote? {
          var end := if totalWritten + result.count <= |serialized| then totalWritten + result.count else |serialized|;
          WriteMore(old(disk.files), key, serialized, totalWritten, end);
          disk.files := disk.files[key := disk.files[key] + serialized[totalWritten..end]];
          totalWritten := end;
        }
      }
      outcome := OutcomeOf(flush);
    }

    /** Returns the longest decodable prefix of the file and truncates the file to it. */
    method ReadAll() returns (records: seq<string>)
      modifies disk
      ensures records == Scan(old(Content())).payloads
      ensures key !in old(disk.files) ==> disk.files == old(disk.files)
      ensures key in old(disk.files) ==> disk.files == old(disk.files)[key := old(Content())[..Scan(old(Content())).used]]
    {
      hide DecodeFirst, Scan;
      records := [];
      if key !in disk.files {
        ScanOfEmpty();
        return;
      }
      var buffer := disk.files[key];
      var offset := 0;
      var ok, record := true, "";
      ScanFromStart(buffer);
      while ok
        invariant disk.files == old(disk.files) && offset <= |buffer|
        invariant Scan(buffer) == ScannedFrom(buffer, records, offset)
        invariant !ok ==> DecodeFirst(buffer[offset..]).Rejected?
        decreases |buffer| - offset, ok
      {
        ghost var start := offset;
        ok, offset, record := DeserializeRecord(buffer, offset, record);
        if ok {
          ScanOneMore(buffer, records, start, record, offset);
          records := records + [record];
        }
      }
      ScanStops(buffer, records, offset);
      if offset < |buffer| {
        disk.files := disk.files[key := buffer[..offset]];
      } else {
        assert buffer[..offset] == buffer;
        assert disk.files == disk.files[key := buffer];
      }
    }
  }

  // A scan that has taken records up to offset, completed.
  function ScannedFrom(buffer: string, records: seq<string>, offset: nat): Scanned
    requires offset <= |buffer|
  {
    var rest := Scan(buffer[offset..]);
    Scanned(records + rest.payloads, offset + rest.used)
  }

  lemma ScanOfEmpty()
    ensures Scan("") == Scanned([], 0)
  {
  }

  lemma ScanFromStart(buffer: string)
    ensures ScannedFrom(buffer, [], 0) == Scan(buffer)
  {
    assert buffer[0..] == buffer;
  }

  lemma ScanOneMore(buffer: string, records: seq<string>, offset: nat, record: string, next: nat)
    requires offset + 8 <= next <= |buffer| && DecodeFirst(buffer[offset..]) == Accepted(record, next - offset)
    ensures ScannedFrom(buffer, records, offset) == ScannedFrom(buffer, records + [record], next)
  {
    hide DecodeFirst;
    assert buffer[offset..][next - offset..] == buffer[next..];
    assert records + ([record] + Scan(buffer[next..]).payloads) == records + [record] + Scan(buffer[next..]).payloads;
  }

  lemma ScanStops(buffer: string, records: seq<string>, offset: nat)
    requires offset <= |buffer| && DecodeFirst(buffer[offset..]).Rejected?
    ensures ScannedFrom(buffer, records, offset) == Scanned(records, offset)
  {
    hide DecodeFirst;
  }

  lemma WriteMore(files: Files, tp: TopicPartition, record: string, done: nat, end: nat)
    requires done <= end <= |record|
    ensures Extended(Extended(files, tp, record[..done]), tp, record[done..end]) == Extended(files, tp, record[..end])
  {
    var content := GetOr(files, tp, "");
    assert content + record[..done] + record[done..end] == content + record[..end];
  }

  /** A crash at any byte of an append, then recovery, then one more append: the torn record leaves no trace. */
  lemma CrashThenAppend(kept: seq<string>, torn: string, cut: nat, payload: string)
    requires AllFit(kept) && Fits(torn) && Fits(payload) && cut < |Serialize(torn)|
    ensures var file := EncodeAll(kept) + Serialize(torn)[..cut];
      && Scan(file).payloads == kept
      && file[..Scan(file).used] == EncodeAll(kept)
      && Scan(file[..Scan(file).used] + Serialize(payload)).payloads == kept + [payload]
  {
    hide Serialize;
    var file := EncodeAll(kept) + Serialize(torn)[..cut];
    TornTailDropped(kept, torn, cut);
    assert file[..|EncodeAll(kept)|] == EncodeAll(kept);
    EncodeAllSnoc(kept, payload);
    EncodedScans(kept + [payload]);
  }
}
