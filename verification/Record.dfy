/**
 The record format of record.hpp: [4-byte big-endian length][payload][4-byte big-endian CRC-32 of the
 two before it], and the scan that recovery runs over a log file. A Record has one field, so the model
 uses the payload itself.
 */
module Record {
  import opened Bytes
  import opened Crc32

  datatype Decoded = Rejected | Accepted(payload: string, next: nat)

  function Checksummed(payload: string): string {
    HostToNet(|payload| % TWO_TO_32) + payload
  }

  function Checksum(data: string): (sum: nat)
    ensures sum < TWO_TO_32
  {
    Crc(data) as int
  }

  function Serialize(payload: string): (buffer: string)
    ensures |buffer| == |payload| + 8
  {
    Checksummed(payload) + HostToNet(Checksum(Checksummed(payload)))
  }

  // The first record of a buffer, if its length field, payload and checksum are all there and agree.
  function DecodeFirst(s: string): (d: Decoded)
    ensures d.Accepted? ==> 8 <= d.next <= |s| && d.next == |d.payload| + 8 && |d.payload| < TWO_TO_32
  {
    if |s| < 4 then Rejected else
    var length := NetToHost(s[..4]);
    if |s| - 4 < length || |s| - 4 - length < 4 then Rejected
    else if Checksum(s[..4 + length]) != NetToHost(s[4 + length..8 + length]) then Rejected
    else Accepted(s[4..4 + length], 8 + length)
  }

  method SerializeRecord(payload: string) returns (buffer: string)
    ensures buffer == Serialize(payload)
  {
    var length := |payload| % TWO_TO_32;
    buffer := HostToNet(length);
    buffer := buffer + payload;
    var checksum := ComputeCrc(buffer);
    buffer := buffer + HostToNet(checksum as int);
  }

  method DeserializeRecord(buffer: string, offset: nat, record: string)
    returns (ok: bool, offset': nat, record': string)
    ensures offset > |buffer| ==> !ok
    ensures offset <= |buffer| ==> ok == DecodeFirst(buffer[offset..]).Accepted?
    ensures ok ==> offset + 8 <= offset' <= |buffer| && DecodeFirst(buffer[offset..]) == Accepted(record', offset' - offset)
    ensures !ok ==> offset' == offset && record' == record
  {
    ok, offset', record' := false, offset, record;
    if offset > |buffer| || |buffer| - offset < 4 {
      return;
    }
    ghost var rest := buffer[offset..];
    var payloadLength := NetToHost(buffer[offset..offset + 4]);
    assert rest[..4] == buffer[offset..offset + 4];
    if |buffer| - offset - 4 < payloadLength {
      return;
    }
    var payloadStart := offset + 4;
    var checksumStart := payloadStart + payloadLength;
    if |buffer| - checksumStart < 4 {
      return;
    }
    var stored := NetToHost(buffer[checksumStart..checksumStart + 4]);
    var calculated := ComputeCrc(buffer[offset..checksumStart]);
    assert rest[..4 + payloadLength] == buffer[offset..checksumStart];
    assert rest[4 + payloadLength..8 + payloadLength] == buffer[checksumStart..checksumStart + 4];
    if calculated as int != stored {
      return;
    }
    assert rest[4..4 + payloadLength] == buffer[payloadStart..checksumStart];
    ok, offset', record' := true, checksumStart + 4, buffer[payloadStart..checksumStart];
  }

  // ----- One record -----

  predicate Fits(payload: string) {
    |payload| < TWO_TO_32
  }

  lemma DecodeOfParts(head: string, body: string, sum: string, after: string)
    requires |head| == 4 && |sum| == 4 && NetToHost(head) == |body|
    ensures DecodeFirst(head + body + sum + after)
         == if Checksum(head + body) == NetToHost(sum) then Accepted(body, 8 + |body|) else Rejected
  {
    hide Checksum, NetToHost;
    var s, n := head + body + sum + after, |body|;
    assert s[..4] == head;
    assert s[..4 + n] == head + body;
    assert s[4 + n..8 + n] == sum;
    assert s[4..4 + n] == body;
  }

  /** The layout of a record: its payload's length, the payload, and the CRC-32 of the two, both numbers as htonl writes them. */
  lemma RecordLayout(payload: string)
    requires Fits(payload)
    ensures var s, n := Serialize(payload), |payload|;
      |s| == n + 8 && NetToHost(s[..4]) == n && s[4..4 + n] == payload && NetToHost(s[4 + n..]) == Crc(s[..4 + n]) as int
  {
    hide Crc, HostToNet, NetToHost, Checksum;
    NetRoundTrip(|payload|);
    NetRoundTrip(Checksum(Checksummed(payload)));
    ChecksumIsCrc(Checksummed(payload));
    ThreeParts(HostToNet(|payload|), payload, HostToNet(Checksum(Checksummed(payload))));
  }

  lemma ThreeParts(head: string, body: string, sum: string)
    requires |head| == |sum| == 4
    ensures var s, n := head + body + sum, |body|;
      |s| == n + 8 && s[..4] == head && s[4..4 + n] == body && s[..4 + n] == head + body && s[4 + n..] == sum
  {
  }

  lemma ChecksumIsCrc(data: string)
    ensures Checksum(data) == Crc(data) as int
  {
  }

  /** Deserializing undoes serializing, whatever follows the record in the buffer. */
  lemma DecodeUndoesSerialize(payload: string, after: string)
    requires Fits(payload)
    ensures DecodeFirst(Serialize(payload) + after) == Accepted(payload, |payload| + 8)
  {
    hide Checksum, HostToNet, NetToHost, DecodeFirst;
    var head, sum := HostToNet(|payload|), HostToNet(Checksum(Checksummed(payload)));
    NetRoundTrip(|payload|);
    NetRoundTrip(Checksum(Checksummed(payload)));
    DecodeOfParts(head, payload, sum, after);
  }

  /** A record torn at any byte is rejected. */
  lemma TornRecordRejected(payload: string, cut: nat)
    requires Fits(payload) && cut < |Serialize(payload)|
    ensures DecodeFirst(Serialize(payload)[..cut]).Rejected?
  {
    hide Crc, HostToNet, NetToHost;
    var s := Serialize(payload)[..cut];
    if cut >= 4 {
      assert s[..4] == HostToNet(|payload|);
      NetRoundTrip(|payload|);
    }
  }

  /** A torn record whose length field is whole and promises more than all that follows hides what follows. */
  lemma LongTornHides(payload: string, cut: nat, later: string)
    requires Fits(payload) && 4 <= cut && cut + |later| < |Serialize(payload)|
    ensures DecodeFirst(Serialize(payload)[..cut] + later).Rejected?
  {
    hide Crc, HostToNet, NetToHost;
    var s := Serialize(payload)[..cut] + later;
    assert s[..4] == HostToNet(|payload|);
    NetRoundTrip(|payload|);
  }

  /** What is accepted from a buffer of bytes is exactly the serialization of the payload returned. */
  lemma AcceptedIsSerialized(s: string)
    requires IsBytes(s) && DecodeFirst(s).Accepted?
    ensures Serialize(DecodeFirst(s).payload) == s[..DecodeFirst(s).next]
  {
    hide Crc, HostToNet, NetToHost;
    var payload, n := DecodeFirst(s).payload, |DecodeFirst(s).payload|;
    HostRoundTrip(s[..4]);
    HostRoundTrip(s[4 + n..8 + n]);
    assert Checksummed(payload) == s[..4 + n];
    assert s[..8 + n] == s[..4 + n] + s[4 + n..8 + n];
  }

  // The record of payload, its payload bytes overwritten in place by altered.
  function Damaged(payload: string, altered: string): string {
    HostToNet(|payload| % TWO_TO_32) + altered + HostToNet(Checksum(Checksummed(payload)))
  }

  /** A record whose payload was altered inside a window of four bytes, length and checksum intact, is rejected. */
  lemma DamagedRecordRejected(payload: string, altered: string, start: nat, after: string)
    requires Fits(payload) && IsBytes(payload) && IsBytes(altered) && start <= |payload|
    requires SameOutsideWindow(payload, altered, start) && altered != payload
    ensures DecodeFirst(Damaged(payload, altered) + after).Rejected?
  {
    hide Crc, HostToNet, NetToHost, DecodeFirst;
    var head, sum := HostToNet(|payload|), Checksum(Checksummed(payload));
    NetRoundTrip(|payload|);
    NetRoundTrip(sum);
    DecodeOfParts(head, altered, HostToNet(sum), after);
    assert (head + payload)[4..] == payload && (head + altered)[4..] == altered;
    BurstDetected(head + payload, head + altered, start + 4);
    if Checksum(head + altered) == sum {
      CrcValueInjective(Crc(head + altered), Crc(head + payload));
    }
  }

  lemma CrcValueInjective(x: bv32, y: bv32)
    requires x as int == y as int
    ensures x == y
  {
    assert (x as int) as bv32 == x && (y as int) as bv32 == y;
  }

  // ----- A whole file -----

  function EncodeAll(payloads: seq<string>): string {
    if payloads == [] then [] else Serialize(payloads[0]) + EncodeAll(payloads[1..])
  }

  datatype Scanned = Scanned(payloads: seq<string>, used: nat)

  // What recovery keeps of a file: the records accepted one after another from its start, and their length.
  function Scan(s: string): (r: Scanned)
    ensures r.used <= |s|
    decreases |s|
  {
    var d := DecodeFirst(s);
    if d.Rejected? then Scanned([], 0) else
    var r := Scan(s[d.next..]);
    Scanned([d.payload] + r.payloads, d.next + r.used)
  }

  ghost predicate AllFit(payloads: seq<string>) {
    forall i | 0 <= i < |payloads| :: Fits(payloads[i])
  }

  lemma {:induction false} ScanFits(s: string)
    ensures AllFit(Scan(s).payloads)
    decreases |s|
  {
    hide DecodeFirst;
    if DecodeFirst(s).Accepted? {
      ScanFits(s[DecodeFirst(s).next..]);
    }
  }

  lemma {:induction false} EncodeAllConcat(a: seq<string>, b: seq<string>)
    ensures EncodeAll(a + b) == EncodeAll(a) + EncodeAll(b)
  {
    hide Serialize;
    if a == [] {
      assert a + b == b;
    } else {
      assert (a + b)[1..] == a[1..] + b;
      EncodeAllConcat(a[1..], b);
    }
  }

  lemma EncodeAllSnoc(payloads: seq<string>, payload: string)
    ensures EncodeAll(payloads + [payload]) == EncodeAll(payloads) + Serialize(payload)
  {
    hide Serialize;
    EncodeAllConcat(payloads, [payload]);
    assert EncodeAll([payload]) == Serialize(payload) + EncodeAll([]);
  }

  /** Recovery reads back every record and stops exactly where the encoding stops, whatever undecodable bytes follow. */
  lemma {:induction false} ScanUndoesEncode(payloads: seq<string>, tail: string)
    requires AllFit(payloads) && DecodeFirst(tail).Rejected?
    ensures Scan(EncodeAll(payloads) + tail) == Scanned(payloads, |EncodeAll(payloads)|)
  {
    hide Serialize, DecodeFirst;
    var s := EncodeAll(payloads) + tail;
    if payloads == [] {
      assert s == tail;
    } else {
      var first, rest := Serialize(payloads[0]), EncodeAll(payloads[1..]) + tail;
      assert s == first + rest;
      DecodeUndoesSerialize(payloads[0], rest);
      assert s[|first|..] == rest;
      ScanUndoesEncode(payloads[1..], tail);
    }
  }

  lemma {:induction false} ScanAfter(payloads: seq<string>, tail: string)
    requires AllFit(payloads)
    ensures Scan(EncodeAll(payloads) + tail).payloads == payloads + Scan(tail).payloads
  {
    hide Serialize, DecodeFirst, Scan;
    var s := EncodeAll(payloads) + tail;
    if payloads == [] {
      assert s == tail;
      assert [] + Scan(tail).payloads == Scan(tail).payloads;
    } else {
      var first, rest := Serialize(payloads[0]), EncodeAll(payloads[1..]) + tail;
      assert s == first + rest;
      hide EncodeAll;
      DecodeUndoesSerialize(payloads[0], rest);
      assert s[|first|..] == rest;
      ScanFirst(s);
      ScanAfter(payloads[1..], tail);
      assert payloads + Scan(tail).payloads == [payloads[0]] + (payloads[1..] + Scan(tail).payloads);
    }
  }

  /** Behind a torn record, what is appended later is read again exactly when a record can be decoded where it was torn. */
  lemma AfterTorn(kept: seq<string>, torn: string, later: string)
    requires AllFit(kept)
    ensures Scan(EncodeAll(kept) + torn + later).payloads == kept + Scan(torn + later).payloads
    ensures Scan(EncodeAll(kept) + torn + later).payloads == kept <==> DecodeFirst(torn + later).Rejected?
  {
    hide EncodeAll, DecodeFirst;
    assert EncodeAll(kept) + torn + later == EncodeAll(kept) + (torn + later);
    ScanAfter(kept, torn + later);
    if DecodeFirst(torn + later).Rejected? {
      assert kept + [] == kept;
    } else {
      assert |kept + Scan(torn + later).payloads| > |kept|;
    }
  }

  lemma {:induction false} ScanLength(s: string)
    ensures |EncodeAll(Scan(s).payloads)| == Scan(s).used
    decreases |s|
  {
    hide DecodeFirst;
    var d := DecodeFirst(s);
    if d.Accepted? {
      ScanLength(s[d.next..]);
      var payloads := Scan(s).payloads;
      assert payloads[1..] == Scan(s[d.next..]).payloads;
      EncodeFirst(payloads);
    }
  }

  lemma EncodeFirst(payloads: seq<string>)
    requires payloads != []
    ensures |EncodeAll(payloads)| == |payloads[0]| + 8 + |EncodeAll(payloads[1..])|
  {
  }

  // Nothing that starts inside a torn record ends inside it.
  lemma TornIsOvershot(payload: string, cut: nat, later: string)
    requires Fits(payload) && cut < |Serialize(payload)|
    ensures var d := DecodeFirst(Serialize(payload)[..cut] + later); d.Accepted? ==> d.next > cut
  {
    hide Crc, HostToNet, NetToHost;
    var s := Serialize(payload)[..cut] + later;
    if cut >= 4 {
      assert s[..4] == HostToNet(|payload|);
      NetRoundTrip(|payload|);
    }
  }

  /**
   An append that stopped short without a crash, and records appended after it: the next recovery finds all of those at their
   offsets if and only if the append had written its whole record.
   */
  lemma LaterSurvive(kept: seq<string>, payload: string, cut: nat, later: seq<string>)
    requires AllFit(kept) && Fits(payload) && AllFit(later) && cut <= |Serialize(payload)|
    ensures var found := Scan(EncodeAll(kept) + Serialize(payload)[..cut] + EncodeAll(later)).payloads;
      |found| > |kept| && found[|kept| + 1..] == later <==> cut == |Serialize(payload)|
  {
    hide EncodeAll, DecodeFirst, Serialize, Scan;
    var torn, tail := Serialize(payload)[..cut], EncodeAll(later);
    AfterTorn(kept, torn, tail);
    var found := Scan(torn + tail).payloads;
    if cut == |Serialize(payload)| {
      assert torn == Serialize(payload);
      EncodedScans([payload] + later);
      EncodeAllConcat([payload], later);
      EncodeOne(payload);
      assert (kept + ([payload] + later))[|kept| + 1..] == later;
    } else {
      ScanFirst(torn + tail);
      TornIsOvershot(payload, cut, tail);
      var d := DecodeFirst(torn + tail);
      if d.Accepted? {
        var rest := (torn + tail)[d.next..];
        ScanLength(rest);
        assert (kept + found)[|kept| + 1..] == found[1..] == Scan(rest).payloads;
        assert |rest| < |EncodeAll(later)|;
      }
    }
  }

  lemma EncodeOne(payload: string)
    ensures EncodeAll([payload]) == Serialize(payload)
  {
    hide Serialize;
    assert EncodeAll([payload]) == Serialize(payload) + EncodeAll([]);
  }

  lemma ScanFirst(s: string)
    ensures var d := DecodeFirst(s);
      Scan(s) == if d.Rejected? then Scanned([], 0)
                 else Scanned([d.payload] + Scan(s[d.next..]).payloads, d.next + Scan(s[d.next..]).used)
  {
    hide DecodeFirst;
  }

  /** Torn-write recovery: a strict prefix of one more record is dropped, and nothing else is. */
  lemma TornTailDropped(payloads: seq<string>, payload: string, cut: nat)
    requires AllFit(payloads) && Fits(payload) && cut < |Serialize(payload)|
    ensures Scan(EncodeAll(payloads) + Serialize(payload)[..cut]) == Scanned(payloads, |EncodeAll(payloads)|)
  {
    TornRecordRejected(payload, cut);
    ScanUndoesEncode(payloads, Serialize(payload)[..cut]);
  }

  lemma EncodedScans(payloads: seq<string>)
    requires AllFit(payloads)
    ensures Scan(EncodeAll(payloads)) == Scanned(payloads, |EncodeAll(payloads)|)
  {
    ScanUndoesEncode(payloads, []);
    assert EncodeAll(payloads) + [] == EncodeAll(payloads);
  }

  /** On any bytes at all, the part that recovery keeps is the encoding of what it returns. */
  lemma {:induction false} ScanIsCanonical(s: string)
    requires IsBytes(s)
    ensures EncodeAll(Scan(s).payloads) == s[..Scan(s).used]
    decreases |s|
  {
    hide Serialize, DecodeFirst;
    var d := DecodeFirst(s);
    if d.Accepted? {
      var rest := s[d.next..];
      AcceptedIsSerialized(s);
      ScanIsCanonical(rest);
      assert s[..Scan(s).used] == s[..d.next] + rest[..Scan(rest).used];
    }
  }

  /** A second recovery returns the same records and has nothing left to truncate. */
  lemma ScanIsIdempotent(s: string)
    requires IsBytes(s)
    ensures Scan(s[..Scan(s).used]) == Scan(s)
  {
    ScanIsCanonical(s);
    ScanFits(s);
    EncodedScans(Scan(s).payloads);
  }

  /** No other list of records that starts the file is longer than, or differs from, the one recovery returns. */
  lemma {:induction false} ScanIsLongest(s: string, payloads: seq<string>)
    requires AllFit(payloads) && EncodeAll(payloads) <= s
    ensures payloads <= Scan(s).payloads
  {
    hide Serialize, DecodeFirst;
    if payloads != [] {
      var first := Serialize(payloads[0]);
      var rest := s[|first|..];
      assert first == s[..|first|];
      assert s == first + rest;
      DecodeUndoesSerialize(payloads[0], rest);
      var tail := EncodeAll(payloads[1..]);
      assert EncodeAll(payloads)[|first|..] == tail;
      assert tail == rest[..|tail|];
      ScanIsLongest(rest, payloads[1..]);
      assert payloads == [payloads[0]] + payloads[1..];
    }
  }

  /** A damaged record hides itself and what follows it, and nothing before it. */
  lemma DamagedLogRecovers(earlier: seq<string>, payload: string, altered: string, start: nat, later: string)
    requires AllFit(earlier) && Fits(payload) && IsBytes(payload) && IsBytes(altered) && start <= |payload|
    requires SameOutsideWindow(payload, altered, start) && altered != payload
    ensures Scan(EncodeAll(earlier) + (Damaged(payload, altered) + later)) == Scanned(earlier, |EncodeAll(earlier)|)
  {
    DamagedRecordRejected(payload, altered, start, later);
    ScanUndoesEncode(earlier, Damaged(payload, altered) + later);
  }
}
