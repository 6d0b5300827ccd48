/**
 Bytes as the broker sees them. A `char` of the model stands for one C++ `char`: `U8` is its
 value as an `unsigned char`, and `IsBytes` says that a string holds nothing but such values.
 `HostToNet` and `NetToHost` are the big-endian conversions `htonl` and `ntohl` of a 32-bit word,
 together with the copy to and from four bytes of a buffer.
 */
module Bytes {

  const TWO_TO_32: int := 0x1_0000_0000

  function U8(c: char): (value: nat)
    ensures value < 256
  {
    c as int % 256
  }

  ghost predicate IsBytes(s: string) {
    forall i | 0 <= i < |s| :: s[i] as int < 256
  }

  // The byte of a word that has the given number of less significant bytes below it.
  function ByteOf(word: nat, below: nat): (c: char)
    ensures c as int < 256
    decreases word
  {
    if word == 0 then '\0' else if below == 0 then (word % 256) as char else ByteOf(word / 256, below - 1)
  }

  function HostToNet(word: nat): (bytes: string)
    ensures |bytes| == 4 && IsBytes(bytes)
  {
    [ByteOf(word, 3), ByteOf(word, 2), ByteOf(word, 1), ByteOf(word, 0)]
  }

  function NetToHost(bytes: string): (word: nat)
    requires |bytes| == 4
    ensures word < TWO_TO_32
  {
    U8(bytes[0]) * 0x1000000 + U8(bytes[1]) * 0x10000 + U8(bytes[2]) * 0x100 + U8(bytes[3])
  }

  lemma NetRoundTrip(word: nat)
    requires word < TWO_TO_32
    ensures NetToHost(HostToNet(word)) == word
  {
    var w1 := word / 256;
    var w2 := w1 / 256;
    var w3 := w2 / 256;
    BytesBelow(word);
    BytesBelow(w1);
    BytesBelow(w2);
    BytesBelow(w3);
    assert word == ((w3 * 256 + w2 % 256) * 256 + w1 % 256) * 256 + word % 256;
  }

  /** Network order: the most significant byte comes first. */
  lemma NetworkOrder(word: nat)
    requires word < TWO_TO_32
    ensures var b := HostToNet(word);
      U8(b[0]) * 0x1000000 + U8(b[1]) * 0x10000 + U8(b[2]) * 0x100 + U8(b[3]) == word
  {
    NetRoundTrip(word);
    hide HostToNet, U8;
  }

  lemma BytesBelow(word: nat)
    ensures U8(ByteOf(word, 0)) == word % 256
    ensures forall below: nat :: ByteOf(word, below + 1) == ByteOf(word / 256, below)
  {
  }

  lemma HostRoundTrip(bytes: string)
    requires |bytes| == 4 && IsBytes(bytes)
    ensures HostToNet(NetToHost(bytes)) == bytes
  {
    var b0, b1, b2, b3 := U8(bytes[0]), U8(bytes[1]), U8(bytes[2]), U8(bytes[3]);
    var w1 := (b0 * 256 + b1) * 256 + b2;
    var w2 := b0 * 256 + b1;
    BytesBelow(NetToHost(bytes));
    BytesBelow(w1);
    BytesBelow(w2);
    BytesBelow(b0);
    assert NetToHost(bytes) / 256 == w1 && w1 / 256 == w2 && w2 / 256 == b0;
  }
}
