/**
 The bitwise CRC-32 of record.hpp: the reflected polynomial 0xEDB88320 (section 3.2.9 of IEEE
 Std 802.3, sample code in section 8 of RFC 1952), as nested loops proved against a fold over the
 bytes, and the fact the log format relies on: damage confined to four consecutive bytes is seen.
 */
module Crc32 {
  import opened Bytes

  const POLYNOMIAL: bv32 := 0xEDB88320
  const ALL_ONES: bv32 := 0xFFFFFFFF

  // Named so that proofs about whole buffers can leave the bits alone.
  function Xor(x: bv32, y: bv32): bv32 {
    x ^ y
  }

  function Bit(odd: bool, mask: bv32): bv32 {
    if odd then mask else 0
  }

  predicate Odd(value: nat, halvings: nat)
    decreases value
  {
    if value == 0 then false else if halvings == 0 then value % 2 == 1 else Odd(value / 2, halvings - 1)
  }

  // The unsigned char as a 32-bit word, binary digit by binary digit.
  function Word(c: char): bv32 {
    var v := U8(c);
    Bit(Odd(v, 0), 0x01) | Bit(Odd(v, 1), 0x02) | Bit(Odd(v, 2), 0x04) | Bit(Odd(v, 3), 0x08)
    | Bit(Odd(v, 4), 0x10) | Bit(Odd(v, 5), 0x20) | Bit(Odd(v, 6), 0x40) | Bit(Odd(v, 7), 0x80)
  }

  function BitStep(crc: bv32): bv32 {
    if crc & 1 != 0 then (crc >> 1) ^ POLYNOMIAL else crc >> 1
  }

  function BitSteps(crc: bv32, count: nat): bv32
    decreases count
  {
    if count == 0 then crc else BitSteps(BitStep(crc), count - 1)
  }

  function ByteStep(crc: bv32): bv32 {
    BitStep(BitStep(BitStep(BitStep(BitStep(BitStep(BitStep(BitStep(crc))))))))
  }

  function Update(crc: bv32, data: string): bv32 {
    if data == [] then crc else ByteStep(Xor(Update(crc, data[..|data| - 1]), Word(data[|data| - 1])))
  }

  function Crc(data: string): bv32 {
    Xor(Update(ALL_ONES, data), ALL_ONES)
  }

  lemma ByteIsEightBits(crc: bv32)
    ensures ByteStep(crc) == BitSteps(crc, 8)
  {
    hide BitStep;
  }

  method ComputeCrc(data: string) returns (result: bv32)
    ensures result == Crc(data)
  {
    hide Word, Xor, ByteStep;
    var crc := ALL_ONES;
    for i := 0 to |data|
      invariant crc == Update(ALL_ONES, data[..i])
    {
      crc := Xor(crc, Word(data[i]));
      ghost var start := crc;
      ByteIsEightBits(start);
      for bit := 0 to 8
        invariant BitSteps(crc, 8 - bit) == ByteStep(start)
      {
        assert BitSteps(crc, 8 - bit) == BitSteps(BitStep(crc), 8 - (bit + 1));
        if crc & 1 != 0 {
          crc := (crc >> 1) ^ POLYNOMIAL;
        } else {
          crc := crc >> 1;
        }
      }
      assert data[..i + 1][..i] == data[..i];
    }
    assert data[..|data|] == data;
    result := Xor(crc, ALL_ONES);
  }

  // ----- No step loses information -----

  lemma XorCancel(x: bv32, y: bv32, z: bv32)
    requires Xor(x, z) == Xor(y, z)
    ensures x == y
  {
    assert (x ^ z) ^ z == x && (y ^ z) ^ z == y;
  }

  lemma BitStepInjective(x: bv32, y: bv32)
    requires BitStep(x) == BitStep(y)
    ensures x == y
  {
  }

  lemma {:induction false} BitStepsInjective(x: bv32, y: bv32, count: nat)
    requires BitSteps(x, count) == BitSteps(y, count)
    ensures x == y
    decreases count
  {
    hide BitStep;
    if count > 0 {
      BitStepsInjective(BitStep(x), BitStep(y), count - 1);
      BitStepInjective(x, y);
    }
  }

  lemma {:induction false} UpdateInjectiveInState(x: bv32, y: bv32, data: string)
    requires Update(x, data) == Update(y, data)
    ensures x == y
  {
    hide Word, Xor, ByteStep;
    if data != [] {
      var front, last := data[..|data| - 1], Word(data[|data| - 1]);
      ByteIsEightBits(Xor(Update(x, front), last));
      ByteIsEightBits(Xor(Update(y, front), last));
      BitStepsInjective(Xor(Update(x, front), last), Xor(Update(y, front), last), 8);
      XorCancel(Update(x, front), Update(y, front), last);
      UpdateInjectiveInState(x, y, front);
    }
  }

  lemma {:induction false} UpdateConcat(crc: bv32, a: string, b: string)
    ensures Update(crc, a + b) == Update(Update(crc, a), b)
  {
    hide Word, Xor, ByteStep;
    if b == [] {
      assert a + b == a;
    } else {
      assert (a + b)[..|a + b| - 1] == a + b[..|b| - 1];
      UpdateConcat(crc, a, b[..|b| - 1]);
    }
  }

  // ----- The steps are linear: a word taken in after n steps could be taken in, n bits higher, before them -----

  predicate Multiple(d: bv32, places: nat)
    decreases places
  {
    places == 0 || (d & 1 == 0 && Multiple(d >> 1, places - 1))
  }

  function Down(d: bv32, places: nat): bv32
    decreases places
  {
    if places == 0 then d else Down(d >> 1, places - 1)
  }

  lemma BitStepLinear(x: bv32, d: bv32)
    requires d & 1 == 0
    ensures BitStep(x ^ d) == BitStep(x) ^ (d >> 1)
  {
  }

  lemma EvenStep(x: bv32, d: bv32)
    requires d & 1 == 0
    ensures BitStep(Xor(x, d)) == Xor(BitStep(x), d >> 1)
  {
    BitStepLinear(x, d);
    hide BitStep;
  }

  lemma {:induction false} BitStepsLinear(x: bv32, d: bv32, places: nat)
    requires Multiple(d, places)
    ensures BitSteps(Xor(x, d), places) == Xor(BitSteps(x, places), Down(d, places))
    decreases places
  {
    hide BitStep, Xor;
    if places > 0 {
      EvenStep(x, d);
      BitStepsLinear(BitStep(x), d >> 1, places - 1);
    }
  }

  lemma {:induction false} BitStepsAdd(x: bv32, m: nat, n: nat)
    ensures BitSteps(BitSteps(x, m), n) == BitSteps(x, m + n)
    decreases m
  {
    hide BitStep;
    if m > 0 {
      BitStepsAdd(BitStep(x), m - 1, n);
    }
  }

  // ----- Four bytes in a row reach the checksum as one 32-bit word -----

  // One byte higher.
  function Up(w: bv32): bv32 {
    w << 8
  }

  lemma UpByByte(w: bv32)
    requires Clear(w, 0xFF000000)
    ensures Multiple(Up(w), 8) && Down(Up(w), 8) == w
  {
    hide Multiple, Down;
    UpByBits(w);
    EightPlaces(Up(w));
  }

  lemma UpByBits(w: bv32)
    requires w & 0xFF000000 == 0
    ensures Up(w) & 0xFF == 0 && Up(w) >> 8 == w
  {
  }

  lemma EightPlaces(d: bv32)
    requires d & 0xFF == 0
    ensures Multiple(d, 8) && Down(d, 8) == d >> 8
  {
    hide Multiple, Down;
    FourPlaces(d);
    FourPlaces(d >> 4);
    DownAdd(d, 4, 4);
  }

  lemma FourPlaces(d: bv32)
    requires d & 0xF == 0
    ensures Multiple(d, 4) && Down(d, 4) == d >> 4
  {
    OnePlace(d, 4);
    OnePlace(d >> 1, 3);
    OnePlace(d >> 1 >> 1, 2);
    OnePlace(d >> 1 >> 1 >> 1, 1);
    NoPlaces(d >> 1 >> 1 >> 1 >> 1);
    hide Multiple, Down;
  }

  lemma OnePlace(d: bv32, places: nat)
    requires places > 0
    ensures Multiple(d, places) <==> d & 1 == 0 && Multiple(d >> 1, places - 1)
    ensures Down(d, places) == Down(d >> 1, places - 1)
  {
  }

  lemma {:induction false} DownAdd(d: bv32, m: nat, n: nat)
    requires Multiple(d, m) && Multiple(Down(d, m), n)
    ensures Multiple(d, m + n) && Down(d, m + n) == Down(Down(d, m), n)
    decreases m
  {
    if m > 0 {
      DownAdd(d >> 1, m - 1, n);
    }
  }

  function Raise(w: bv32, bytes: nat): bv32 {
    if bytes == 0 then w else Up(Raise(w, bytes - 1))
  }

  lemma RaiseIs(w: bv32)
    ensures Raise(w, 0) == w && Raise(w, 1) == Up(w) && Raise(w, 2) == Up(Up(w)) && Raise(w, 3) == Up(Up(Up(w)))
  {
    hide Up;
    assert Raise(w, 1) == Up(w);
    assert Raise(w, 2) == Up(Raise(w, 1));
  }

  // No bit of the mask is set.
  predicate Clear(w: bv32, mask: bv32) {
    w & mask == 0
  }

  // Where the bits of a byte are after it was moved up.
  lemma UpBits(w: bv32)
    requires w & 0xFFFFFF00 == 0
    ensures Clear(w, 0xFF000000) && Clear(w, 0) && Clear(w, !0xFF)
    ensures Clear(Up(w), 0xFF000000) && Clear(Up(w), 0xFF) && Clear(Up(w), !0xFFFF)
    ensures Clear(Up(Up(w)), 0xFF000000) && Clear(Up(Up(w)), 0xFFFF) && Clear(Up(Up(w)), !0xFFFFFF)
    ensures Clear(Up(Up(Up(w))), 0xFFFFFF) && Clear(Up(Up(Up(w))), !0xFFFFFFFF)
  {
  }

  lemma RaiseIsLow(w: bv32, bytes: nat)
    requires w & 0xFFFFFF00 == 0 && bytes < 3
    ensures Clear(Raise(w, bytes), 0xFF000000)
  {
    hide Up, Raise, Clear;
    RaiseIs(w);
    UpBits(w);
  }

  lemma RaiseOneMore(w: bv32, bytes: nat)
    requires bytes > 0
    ensures Raise(w, bytes) == Up(Raise(w, bytes - 1))
  {
  }

  lemma NoPlaces(w: bv32)
    ensures Multiple(w, 0) && Down(w, 0) == w
  {
  }

  lemma {:induction false} RaiseFacts(w: bv32, bytes: nat)
    requires w & 0xFFFFFF00 == 0 && bytes < 4
    ensures Multiple(Raise(w, bytes), 8 * bytes) && Down(Raise(w, bytes), 8 * bytes) == w
  {
    hide Multiple, Down, Up, Raise, Clear;
    if bytes == 0 {
      RaiseIs(w);
      NoPlaces(w);
    } else {
      RaiseOneMore(w, bytes);
      RaiseIsLow(w, bytes - 1);
      UpByByte(Raise(w, bytes - 1));
      RaiseFacts(w, bytes - 1);
      DownAdd(Raise(w, bytes), 8, 8 * (bytes - 1));
    }
  }

  // The first count bytes of data, the earliest in the low bits.
  function WordOf(data: string, count: nat): bv32
    requires count <= |data|
  {
    if count == 0 then 0 else Xor(WordOf(data, count - 1), Raise(Word(data[count - 1]), count - 1))
  }

  lemma XorAssociative(x: bv32, y: bv32, z: bv32)
    ensures Xor(Xor(x, y), z) == Xor(x, Xor(y, z)) && Xor(x, 0) == x
  {
  }

  lemma {:induction false} BytesAreOneWord(crc: bv32, data: string, count: nat)
    requires count <= |data| && count <= 4
    ensures Update(crc, data[..count]) == BitSteps(Xor(crc, WordOf(data, count)), 8 * count)
  {
    hide BitSteps, ByteStep, Xor, Word, Raise;
    if count == 0 {
      XorAssociative(crc, 0, 0);
      assert BitSteps(crc, 0) == crc by { NoSteps(crc); }
    } else {
      var n, word, raised := count - 1, WordOf(data, count - 1), Raise(Word(data[count - 1]), count - 1);
      BytesAreOneWord(crc, data, n);
      WordIsLow(data[n]);
      RaiseFacts(Word(data[n]), n);
      BitStepsLinear(Xor(crc, word), raised, 8 * n);
      BitStepsAdd(Xor(Xor(crc, word), raised), 8 * n, 8);
      ByteIsEightBits(Xor(Update(crc, data[..n]), Word(data[n])));
      XorAssociative(crc, word, raised);
      assert data[..count][..n] == data[..n];
    }
  }

  lemma NoSteps(crc: bv32)
    ensures BitSteps(crc, 0) == crc
  {
  }

  lemma WordIsLow(c: char)
    ensures Word(c) & 0xFFFFFF00 == 0
  {
    hide Odd, U8;
  }

  lemma WordBits(c: char)
    ensures var v := U8(c);
      && (Word(c) & 0x01 != 0 <==> Odd(v, 0)) && (Word(c) & 0x02 != 0 <==> Odd(v, 1))
      && (Word(c) & 0x04 != 0 <==> Odd(v, 2)) && (Word(c) & 0x08 != 0 <==> Odd(v, 3))
      && (Word(c) & 0x10 != 0 <==> Odd(v, 4)) && (Word(c) & 0x20 != 0 <==> Odd(v, 5))
      && (Word(c) & 0x40 != 0 <==> Odd(v, 6)) && (Word(c) & 0x80 != 0 <==> Odd(v, 7))
  {
    hide Odd, U8;
  }

  lemma OddsOf(v: nat)
    ensures Odd(v, 0) <==> v % 2 == 1
    ensures forall k: nat :: Odd(v, k + 1) == Odd(v / 2, k)
  {
  }

  lemma {:induction false} OddsDetermine(v: nat, u: nat, bound: nat, digits: nat)
    requires v < bound && u < bound && bound == Pow2(digits)
    requires forall k: nat | k < digits :: Odd(v, k) == Odd(u, k)
    ensures v == u
    decreases digits
  {
    if digits > 0 {
      forall k: nat | k < digits - 1
        ensures Odd(v / 2, k) == Odd(u / 2, k)
      {
        OddsOf(v);
        OddsOf(u);
        assert Odd(v, k + 1) == Odd(u, k + 1);
      }
      OddsDetermine(v / 2, u / 2, bound / 2, digits - 1);
      OddsOf(v);
      OddsOf(u);
      assert Odd(v, 0) == Odd(u, 0);
    }
  }

  function Pow2(n: nat): nat {
    if n == 0 then 1 else 2 * Pow2(n - 1)
  }

  lemma WordInjective(a: char, b: char)
    requires Word(a) == Word(b)
    ensures U8(a) == U8(b)
  {
    WordBits(a);
    WordBits(b);
    OddsAgree(U8(a), U8(b));
  }

  lemma OddsAgree(v: nat, u: nat)
    requires v < 256 && u < 256
    requires Odd(v, 0) == Odd(u, 0) && Odd(v, 1) == Odd(u, 1) && Odd(v, 2) == Odd(u, 2) && Odd(v, 3) == Odd(u, 3)
    requires Odd(v, 4) == Odd(u, 4) && Odd(v, 5) == Odd(u, 5) && Odd(v, 6) == Odd(u, 6) && Odd(v, 7) == Odd(u, 7)
    ensures v == u
  {
    hide Odd;
    OddsDetermine(v, u, 256, 8);
  }

  // The bits that the first count bytes occupy.
  function Mask(count: nat): bv32 {
    match count
    case 0 => 0
    case 1 => 0xFF
    case 2 => 0xFFFF
    case 3 => 0xFFFFFF
    case _ => 0xFFFFFFFF
  }

  lemma RaiseBits(w: bv32, bytes: nat)
    requires w & 0xFFFFFF00 == 0 && bytes < 4
    ensures Clear(Raise(w, bytes), Mask(bytes)) && Clear(Raise(w, bytes), !Mask(bytes + 1))
  {
    hide Up, Raise, Clear;
    RaiseIs(w);
    UpBits(w);
  }

  lemma {:induction false} WordOfBits(data: string, count: nat)
    requires count <= |data| && count <= 4
    ensures Clear(WordOf(data, count), !Mask(count))
  {
    hide Raise, Word, Xor, Mask, Clear;
    if count == 0 {
      NoBits();
    } else {
      WordOfBits(data, count - 1);
      WordIsLow(data[count - 1]);
      RaiseBits(Word(data[count - 1]), count - 1);
      JoinBits(WordOf(data, count - 1), Raise(Word(data[count - 1]), count - 1), count);
    }
  }

  lemma JoinBits(x: bv32, r: bv32, count: nat)
    requires 0 < count <= 4
    requires Clear(x, !Mask(count - 1)) && Clear(r, !Mask(count))
    ensures Clear(Xor(x, r), !Mask(count))
  {
  }

  lemma NoBits()
    ensures Clear(0, !Mask(0))
  {
  }

  lemma RecoverBits(x: bv32, r: bv32, mask: bv32)
    requires Clear(x, !mask) && Clear(r, mask)
    ensures x == Xor(x, r) & mask && r == Xor(x, r) & !mask
  {
  }

  lemma SplitBits(x: bv32, r: bv32, y: bv32, s: bv32, mask: bv32)
    requires Clear(x, !mask) && Clear(y, !mask) && Clear(r, mask) && Clear(s, mask)
    requires Xor(x, r) == Xor(y, s)
    ensures x == y && r == s
  {
    hide Xor, Clear;
    RecoverBits(x, r, mask);
    RecoverBits(y, s, mask);
  }

  lemma {:induction false} WordOfInjective(a: string, b: string, count: nat)
    requires count <= 4 && count <= |a| && count <= |b|
    requires IsBytes(a) && IsBytes(b)
    requires WordOf(a, count) == WordOf(b, count)
    ensures a[..count] == b[..count]
  {
    hide Word, Xor, Raise, Mask, Clear;
    if count > 0 {
      var n := count - 1;
      var v, w := Word(a[n]), Word(b[n]);
      WordIsLow(a[n]);
      WordIsLow(b[n]);
      RaiseBits(v, n);
      RaiseBits(w, n);
      WordOfBits(a, n);
      WordOfBits(b, n);
      SplitBits(WordOf(a, n), Raise(v, n), WordOf(b, n), Raise(w, n), Mask(n));
      RaiseFacts(v, n);
      RaiseFacts(w, n);
      WordInjective(a[n], b[n]);
      WordOfInjective(a, b, n);
      assert a[..count] == a[..n] + [a[n]] && b[..count] == b[..n] + [b[n]];
    }
  }

  // ----- Burst detection -----

  lemma ShortDataInjective(crc: bv32, a: string, b: string)
    requires |a| == |b| <= 4 && IsBytes(a) && IsBytes(b)
    requires Update(crc, a) == Update(crc, b)
    ensures a == b
  {
    hide Word, WordOf, Xor, BitSteps, Update;
    var n := |a|;
    assert a[..n] == a && b[..n] == b;
    BytesAreOneWord(crc, a, n);
    BytesAreOneWord(crc, b, n);
    BitStepsInjective(Xor(crc, WordOf(a, n)), Xor(crc, WordOf(b, n)), 8 * n);
    XorCommutes(crc, WordOf(a, n));
    XorCommutes(crc, WordOf(b, n));
    XorCancel(WordOf(a, n), WordOf(b, n), crc);
    WordOfInjective(a, b, n);
  }

  lemma XorCommutes(x: bv32, y: bv32)
    ensures Xor(x, y) == Xor(y, x)
  {
  }

  lemma WindowDetected(before: string, a: string, b: string, after: string)
    requires |a| == |b| <= 4 && IsBytes(a) && IsBytes(b)
    requires a != b
    ensures Crc(before + a + after) != Crc(before + b + after)
  {
    hide Word, Xor, ByteStep, Update;
    var crc := Update(ALL_ONES, before);
    UpdateConcat(ALL_ONES, before + a, after);
    UpdateConcat(ALL_ONES, before, a);
    UpdateConcat(ALL_ONES, before + b, after);
    UpdateConcat(ALL_ONES, before, b);
    if Crc(before + a + after) == Crc(before + b + after) {
      XorCancel(Update(ALL_ONES, before + a + after), Update(ALL_ONES, before + b + after), ALL_ONES);
      UpdateInjectiveInState(Update(crc, a), Update(crc, b), after);
      ShortDataInjective(crc, a, b);
    }
  }

  ghost predicate SameOutsideWindow(a: string, b: string, start: nat) {
    && |a| == |b|
    && forall i | 0 <= i < |a| && !(start <= i < start + 4) :: a[i] == b[i]
  }

  /** Two buffers that differ, and differ only inside some four consecutive bytes, have different checksums. */
  lemma BurstDetected(a: string, b: string, start: nat)
    requires IsBytes(a) && IsBytes(b) && start <= |a|
    requires SameOutsideWindow(a, b, start) && a != b
    ensures Crc(a) != Crc(b)
  {
    hide Crc;
    var end := if start + 4 <= |a| then start + 4 else |a|;
    var before, after, windowA, windowB := a[..start], a[end..], a[start..end], b[start..end];
    assert a == before + windowA + after && b == before + windowB + after;
    WindowDetected(before, windowA, windowB, after);
  }
}
