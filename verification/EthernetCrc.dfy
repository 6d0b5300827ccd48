/**
 What the checksum of Crc32 is: the CRC of section 3.2.9 of IEEE Std 802.3. The definition here knows
 nothing of registers and shifts: the bits of the message, least significant of each byte first, are the
 coefficients of a polynomial; its first 32 are complemented, 32 zeros are appended, and the complement of the
 remainder on division by the generator is the checksum.
 */
module EthernetCrc {
  import opened Bytes
  import opened Crc32

  // ----- Polynomials over the two-element field, highest power first -----

  const EXPONENTS: set<int> := {32, 26, 23, 22, 16, 12, 11, 10, 8, 7, 5, 4, 2, 1, 0}

  function Generator(): (g: seq<bool>)
    ensures |g| == 33
  {
    seq(33, i => 32 - i in EXPONENTS)
  }

  function Zeros(n: nat): (z: seq<bool>)
    ensures |z| == n
  {
    seq(n, _ => false)
  }

  function Add(a: seq<bool>, b: seq<bool>): (sum: seq<bool>)
    requires |a| == |b|
    ensures |sum| == |a|
  {
    seq(|a|, i requires 0 <= i < |a| => a[i] != b[i])
  }

  // One step of the long division by the generator.
  function Reduced(m: seq<bool>): (r: seq<bool>)
    requires |m| >= 33
    ensures |r| == |m| - 1
  {
    if m[0] then Add(m[..33], Generator())[1..] + m[33..] else m[1..]
  }

  function Remainder(m: seq<bool>): (r: seq<bool>)
    requires |m| >= 32
    ensures |r| == 32
    decreases |m|
  {
    if |m| == 32 then m else Remainder(Reduced(m))
  }

  // The product of q and the generator.
  function Times(q: seq<bool>): (p: seq<bool>)
    ensures |p| == |q| + 32
  {
    if q == [] then Zeros(32)
    else Add(if q[0] then Generator() + Zeros(|q| - 1) else Zeros(|q| + 32), [false] + Times(q[1..]))
  }

  /** The remainder deserves its name: what it leaves of a polynomial is a multiple of the generator. */
  lemma {:induction false} DivisionLeavesRemainder(m: seq<bool>) returns (q: seq<bool>)
    requires |m| >= 32
    ensures |q| == |m| - 32 && m == Add(Times(q), Zeros(|q|) + Remainder(m))
    decreases |m|
  {
    hide Times, Reduced, Generator, Add;
    if |m| == 32 {
      q := [];
      NothingTimes(m);
    } else {
      var rest := DivisionLeavesRemainder(Reduced(m));
      q := [m[0]] + rest;
      var r := Remainder(m);
      hide Remainder;
      TimesMore(m[0], rest);
      UndoReduced(m, Times(rest), Zeros(|rest|) + r);
      ZeroFirst(rest, q, r);
    }
  }

  lemma NothingTimes(m: seq<bool>)
    requires |m| == 32
    ensures m == Add(Times([]), Zeros(0) + m)
  {
    hide Generator;
  }

  lemma ZeroFirst(rest: seq<bool>, q: seq<bool>, r: seq<bool>)
    requires |q| == |rest| + 1
    ensures Zeros(|q|) + r == [false] + (Zeros(|rest|) + r)
  {
  }

  lemma TimesMore(first: bool, rest: seq<bool>)
    ensures Times([first] + rest) == Add(if first then Generator() + Zeros(|rest|) else Zeros(|rest| + 33), [false] + Times(rest))
  {
    assert ([first] + rest)[1..] == rest;
  }

  lemma UndoReduced(m: seq<bool>, p: seq<bool>, r: seq<bool>)
    requires |m| >= 33 && |p| == |r| == |m| - 1 && Reduced(m) == Add(p, r)
    ensures m == Add(Add(if m[0] then Generator() + Zeros(|m| - 33) else Zeros(|m|), [false] + p), [false] + r)
  {
    var lead := if m[0] then Generator() + Zeros(|m| - 33) else Zeros(|m|);
    assert lead[0] == m[0];
    forall i | 1 <= i < |m|
      ensures m[i] == (lead[i] != (p[i - 1] != r[i - 1]))
    {
      assert Reduced(m)[i - 1] == Add(p, r)[i - 1];
      assert Reduced(m)[i - 1] == (m[i] != lead[i]);
    }
  }

  // ----- The definition -----

  function ByteBits(c: char): (bits: seq<bool>)
    ensures |bits| == 8
  {
    var v := U8(c);
    [Odd(v, 0), Odd(v, 1), Odd(v, 2), Odd(v, 3), Odd(v, 4), Odd(v, 5), Odd(v, 6), Odd(v, 7)]
  }

  function Bits(data: string): (bits: seq<bool>)
    ensures |bits| == 8 * |data|
  {
    if data == [] then [] else Bits(data[..|data| - 1]) + ByteBits(data[|data| - 1])
  }

  function Message(data: string): (m: seq<bool>)
    ensures |m| == 8 * |data| + 32
  {
    var bits := Bits(data) + Zeros(32);
    seq(|bits|, i requires 0 <= i < |bits| => if i < 32 then !bits[i] else bits[i])
  }

  function Complement(bits: seq<bool>): (c: seq<bool>)
    ensures |c| == |bits|
  {
    seq(|bits|, i requires 0 <= i < |bits| => !bits[i])
  }

  function Low(w: bv32): bool {
    w & 1 == 1
  }

  function Half(w: bv32): bv32 {
    w >> 1
  }

  // The binary digits of a register, lowest first: the order in which the standard sends them.
  function Digits(w: bv32, n: nat): (d: seq<bool>)
    ensures |d| == n
    decreases n
  {
    if n == 0 then [] else [Low(w)] + Digits(Half(w), n - 1)
  }

  // ----- Registers -----

  function Halved(w: bv32, n: nat): bv32
    decreases n
  {
    if n == 0 then w else Halved(Half(w), n - 1)
  }

  lemma {:induction false} DigitsSnoc(w: bv32, n: nat)
    ensures Digits(w, n + 1) == Digits(w, n) + [Low(Halved(w, n))]
    decreases n
  {
    hide Low, Half;
    if n > 0 {
      DigitsSnoc(Half(w), n - 1);
    }
  }

  lemma {:induction false} HalvedTwice(w: bv32, m: nat, n: nat)
    ensures Halved(w, m + n) == Halved(Halved(w, m), n)
    decreases m
  {
    hide Half;
    if m > 0 {
      HalvedTwice(Half(w), m - 1, n);
    }
  }

  lemma HalvedOne(w: bv32, n: nat)
    requires n > 0
    ensures Halved(w, n) == Halved(Half(w), n - 1) && Halved(w, 0) == w
  {
    hide Half;
  }

  function Quarter(w: bv32): bv32 {
    w >> 4
  }

  lemma FourHalves(w: bv32)
    ensures Half(Half(Half(Half(w)))) == Quarter(w)
  {
  }

  lemma HalvedFour(w: bv32)
    ensures Halved(w, 4) == Quarter(w)
  {
    HalvedOne(w, 4);
    HalvedOne(Half(w), 3);
    HalvedOne(Half(Half(w)), 2);
    HalvedOne(Half(Half(Half(w))), 1);
    HalvedOne(Half(Half(Half(Half(w)))), 1);
    FourHalves(w);
    hide Halved, Half;
  }

  function Quarters(w: bv32, n: nat): bv32
    decreases n
  {
    if n == 0 then w else Quarters(Quarter(w), n - 1)
  }

  lemma {:induction false} HalvedQuarters(w: bv32, n: nat)
    ensures Halved(w, 4 * n) == Quarters(w, n)
    decreases n
  {
    hide Quarter, Half;
    if n > 0 {
      HalvedFour(w);
      HalvedTwice(w, 4, 4 * (n - 1));
      HalvedQuarters(Quarter(w), n - 1);
    }
  }

  lemma ShiftedOut(w: bv32)
    ensures ((((((((w >> 4) >> 4) >> 4) >> 4) >> 4) >> 4) >> 4) >> 4) == 0
  {
  }

  lemma EightQuarters(w: bv32)
    ensures Quarters(w, 8) == Quarter(Quarter(Quarter(Quarter(Quarter(Quarter(Quarter(Quarter(w))))))))
  {
    hide Quarter;
  }

  lemma NothingLeft(w: bv32)
    ensures Halved(w, 32) == 0
  {
    HalvedQuarters(w, 8);
    EightQuarters(w);
    ShiftedOut(w);
    hide Halved, Quarters;
  }

  lemma OneDigit(w: bv32, n: nat)
    requires n > 0
    ensures Digits(w, n) == [Low(w)] + Digits(Half(w), n - 1)
  {
    hide Low, Half;
  }

  lemma ShiftDigits(w: bv32)
    ensures Digits(w, 32)[0] == Low(w)
    ensures Digits(Half(w), 32) == Digits(w, 32)[1..] + [false]
  {
    OneDigit(w, 32);
    DigitsSnoc(Half(w), 31);
    HalvedOne(w, 32);
    NothingLeft(w);
    hide Digits, Halved, Half;
  }

  lemma XorOneDigit(x: bv32, y: bv32)
    ensures Low(Xor(x, y)) == (Low(x) != Low(y))
    ensures Half(Xor(x, y)) == Xor(Half(x), Half(y))
  {
  }

  lemma {:induction false} XorDigits(x: bv32, y: bv32, n: nat)
    ensures Digits(Xor(x, y), n) == Add(Digits(x, n), Digits(y, n))
    decreases n
  {
    hide Low, Half, Xor;
    if n > 0 {
      XorOneDigit(x, y);
      XorDigits(Half(x), Half(y), n - 1);
    }
  }

  predicate Has(w: bv32, mask: bv32) {
    w & mask != 0
  }

  // The lowest eight digits by their masks.
  lemma DigitsOfEight(w: bv32)
    ensures Digits(w, 8) == [Has(w, 0x01), Has(w, 0x02), Has(w, 0x04), Has(w, 0x08), Has(w, 0x10), Has(w, 0x20), Has(w, 0x40), Has(w, 0x80)]
  {
    hide Has, Digits, Quarter, Halved;
    LowDigits(w);
    HighDigits(w);
    DigitsConcat(w, 4, 4);
    HalvedFour(w);
  }

  lemma LowDigits(w: bv32)
    ensures Digits(w, 4) == [Has(w, 0x01), Has(w, 0x02), Has(w, 0x04), Has(w, 0x08)]
  {
    hide Low, Half, Has, Digits;
    LowFour(w);
    DigitsOfFour(w);
  }

  lemma HighDigits(w: bv32)
    ensures Digits(Quarter(w), 4) == [Has(w, 0x10), Has(w, 0x20), Has(w, 0x40), Has(w, 0x80)]
  {
    hide Has, Digits, Quarter;
    LowDigits(Quarter(w));
    QuarterHas(w);
  }

  lemma QuarterHas(w: bv32)
    ensures Has(Quarter(w), 0x01) == Has(w, 0x10) && Has(Quarter(w), 0x02) == Has(w, 0x20)
    ensures Has(Quarter(w), 0x04) == Has(w, 0x40) && Has(Quarter(w), 0x08) == Has(w, 0x80)
  {
  }

  lemma LowFour(w: bv32)
    ensures Low(w) == Has(w, 0x01) && Low(Half(w)) == Has(w, 0x02)
    ensures Low(Half(Half(w))) == Has(w, 0x04) && Low(Half(Half(Half(w)))) == Has(w, 0x08)
  {
  }

  lemma DigitsOfFour(w: bv32)
    ensures Digits(w, 4) == [Low(w), Low(Half(w)), Low(Half(Half(w))), Low(Half(Half(Half(w))))]
  {
    hide Low, Half;
    OneDigit(w, 4);
    OneDigit(Half(w), 3);
    OneDigit(Half(Half(w)), 2);
    OneDigit(Half(Half(Half(w))), 1);
  }

  lemma {:induction false} DigitsConcat(w: bv32, m: nat, n: nat)
    ensures Digits(w, m + n) == Digits(w, m) + Digits(Halved(w, m), n)
    decreases m
  {
    hide Low, Half;
    if m > 0 {
      OneDigit(w, m + n);
      DigitsConcat(Half(w), m - 1, n);
    }
  }

  // ----- One bit step is one division step -----

  lemma PolynomialDigits()
    ensures Digits(POLYNOMIAL, 32) == Generator()[1..]
  {
    hide Digits, Has, Quarter, Generator;
    PolynomialQuarters();
    FourBytesOf(POLYNOMIAL, 0xEDB883, 0xEDB8, 0xED);
    DigitsOfEight(POLYNOMIAL);
    DigitsOfEight(0xEDB883);
    DigitsOfEight(0xEDB8);
    DigitsOfEight(0xED);
    PolynomialMasks();
    GeneratorDigits();
  }

  lemma GeneratorDigits()
    ensures Generator()[1..] ==
      [false, false, false, false, false, true, false, false]
      + [true, true, false, false, false, false, false, true]
      + [false, false, false, true, true, true, false, true]
      + [true, false, true, true, false, true, true, true]
  {
  }

  lemma PolynomialMasks()
    ensures [Has(POLYNOMIAL, 0x01), Has(POLYNOMIAL, 0x02), Has(POLYNOMIAL, 0x04), Has(POLYNOMIAL, 0x08), Has(POLYNOMIAL, 0x10), Has(POLYNOMIAL, 0x20), Has(POLYNOMIAL, 0x40), Has(POLYNOMIAL, 0x80)] == [false, false, false, false, false, true, false, false]
    ensures [Has(0xEDB883, 0x01), Has(0xEDB883, 0x02), Has(0xEDB883, 0x04), Has(0xEDB883, 0x08), Has(0xEDB883, 0x10), Has(0xEDB883, 0x20), Has(0xEDB883, 0x40), Has(0xEDB883, 0x80)] == [true, true, false, false, false, false, false, true]
    ensures [Has(0xEDB8, 0x01), Has(0xEDB8, 0x02), Has(0xEDB8, 0x04), Has(0xEDB8, 0x08), Has(0xEDB8, 0x10), Has(0xEDB8, 0x20), Has(0xEDB8, 0x40), Has(0xEDB8, 0x80)] == [false, false, false, true, true, true, false, true]
    ensures [Has(0xED, 0x01), Has(0xED, 0x02), Has(0xED, 0x04), Has(0xED, 0x08), Has(0xED, 0x10), Has(0xED, 0x20), Has(0xED, 0x40), Has(0xED, 0x80)] == [true, false, true, true, false, true, true, true]
  {
  }

  lemma PolynomialQuarters()
    ensures 0xEDB883 == Quarter(Quarter(POLYNOMIAL)) && 0xEDB8 == Quarter(Quarter(0xEDB883)) && 0xED == Quarter(Quarter(0xEDB8))
  {
  }

  lemma FourBytesOf(w: bv32, x: bv32, y: bv32, z: bv32)
    requires x == Quarter(Quarter(w)) && y == Quarter(Quarter(x)) && z == Quarter(Quarter(y))
    ensures Digits(w, 32) == Digits(w, 8) + Digits(x, 8) + Digits(y, 8) + Digits(z, 8)
  {
    hide Digits, Quarter;
    FirstByteOf(w, 24);
    FirstByteOf(x, 16);
    FirstByteOf(y, 8);
    ConcatFour(Digits(w, 8), Digits(x, 8), Digits(y, 8), Digits(z, 8));
  }

  lemma ConcatFour(a: seq<bool>, b: seq<bool>, c: seq<bool>, d: seq<bool>)
    ensures a + (b + (c + d)) == a + b + c + d
  {
  }

  lemma FirstByteOf(w: bv32, n: nat)
    requires n in {8, 16, 24}
    ensures Digits(w, 8 + n) == Digits(w, 8) + Digits(Quarter(Quarter(w)), n)
  {
    hide Digits, Quarter, Halved;
    HalvedEight(w);
    DigitsConcat(w, 8, n);
  }

  lemma HalvedEight(w: bv32)
    ensures Halved(w, 8) == Quarter(Quarter(w))
  {
    hide Quarter, Halved;
    HalvedFour(w);
    HalvedFour(Quarter(w));
    HalvedTwice(w, 4, 4);
  }

  lemma StepIsReduction(w: bv32)
    ensures Digits(BitStep(w), 32) == Reduced(Digits(w, 32) + [false])
  {
    hide Digits, Half, Low, Xor, Generator;
    ShiftDigits(w);
    BitStepIs(w);
    var m := Digits(w, 32) + [false];
    assert m[1..] == Digits(w, 32)[1..] + [false];
    if Low(w) {
      PolynomialDigits();
      XorDigits(Half(w), POLYNOMIAL, 32);
      assert m[..33] == m && m[33..] == [];
      assert Add(m, Generator())[1..] == Add(m[1..], Generator()[1..]);
    }
  }

  lemma BitStepIs(w: bv32)
    ensures BitStep(w) == if Low(w) then Xor(Half(w), POLYNOMIAL) else Half(w)
  {
  }

  lemma ReducedFront(m: seq<bool>, more: seq<bool>)
    requires |m| >= 33
    ensures Reduced(m + more) == Reduced(m) + more
  {
    hide Generator;
    assert (m + more)[..33] == m[..33];
  }

  lemma {:induction false} StepsAreDivision(w: bv32, n: nat)
    ensures Digits(BitSteps(w, n), 32) == Remainder(Digits(w, 32) + Zeros(n))
    decreases n
  {
    hide Digits, BitStep, Reduced;
    if n == 0 {
      assert Digits(w, 32) + Zeros(0) == Digits(w, 32);
    } else {
      StepIsReduction(w);
      StepsAreDivision(BitStep(w), n - 1);
      var m := Digits(w, 32) + [false];
      assert Digits(w, 32) + Zeros(n) == m + Zeros(n - 1);
      ReducedFront(m, Zeros(n - 1));
    }
  }

  // ----- Bits that come in later -----

  function Divided(m: seq<bool>, steps: nat): (r: seq<bool>)
    requires steps + 32 <= |m|
    ensures |r| == |m| - steps
    decreases steps
  {
    if steps == 0 then m else Divided(Reduced(m), steps - 1)
  }

  lemma {:induction false} RemainderAfter(m: seq<bool>, steps: nat)
    requires steps + 32 <= |m|
    ensures Remainder(m) == Remainder(Divided(m, steps))
    ensures steps + 32 == |m| ==> Remainder(m) == Divided(m, steps)
    decreases steps
  {
    hide Reduced;
    if steps > 0 {
      RemainderAfter(Reduced(m), steps - 1);
    }
  }

  lemma {:induction false} DividedFront(m: seq<bool>, steps: nat, more: seq<bool>)
    requires steps + 32 <= |m|
    ensures Divided(m + more, steps) == Divided(m, steps) + more
    decreases steps
  {
    hide Reduced;
    if steps > 0 {
      ReducedFront(m, more);
      DividedFront(Reduced(m), steps - 1, more);
    }
  }

  lemma ReducedUnder(m: seq<bool>, late: seq<bool>)
    requires |m| >= 33 && |late| == |m| - 1
    ensures Reduced(Add(m, [false] + late)) == Add(Reduced(m), late)
  {
    hide Generator;
    var sum := Add(m, [false] + late);
    forall i | 0 <= i < |late|
      ensures Reduced(sum)[i] == Add(Reduced(m), late)[i]
    {
      assert sum[i + 1] == (m[i + 1] != late[i]);
    }
  }

  // Division does not see what is added behind the places it has reached.
  lemma {:induction false} DividedUnder(m: seq<bool>, steps: nat, late: seq<bool>)
    requires steps + 32 <= |m| && |late| == |m| - steps
    ensures Divided(Add(m, Zeros(steps) + late), steps) == Add(Divided(m, steps), late)
    decreases steps
  {
    hide Reduced;
    if steps == 0 {
      assert Zeros(0) + late == late;
    } else {
      assert Zeros(steps) + late == [false] + (Zeros(steps - 1) + late);
      ReducedUnder(m, Zeros(steps - 1) + late);
      DividedUnder(Reduced(m), steps - 1, late);
    }
  }

  // ----- The checksum -----

  lemma MessageSnoc(data: string, c: char)
    ensures Message(data + [c]) == Add(Message(data) + Zeros(8), Zeros(8 * |data|) + (ByteBits(c) + Zeros(32)))
  {
    hide ByteBits;
    assert (data + [c])[..|data|] == data;
    var longer, sum := Message(data + [c]), Add(Message(data) + Zeros(8), Zeros(8 * |data|) + (ByteBits(c) + Zeros(32)));
    var bits := Bits(data + [c]) + Zeros(32);
    forall i | 0 <= i < |longer|
      ensures longer[i] == sum[i]
    {
      assert bits[i] == ((Bits(data) + Zeros(40))[i] != (Zeros(8 * |data|) + (ByteBits(c) + Zeros(32)))[i]);
    }
  }

  lemma WordDigits(c: char)
    ensures Digits(Word(c), 32) == ByteBits(c) + Zeros(24)
  {
    hide Word, Odd, U8, Digits, Quarter, Has;
    WordQuarters(c);
    FourBytesOf(Word(c), 0, 0, 0);
    DigitsOfEight(Word(c));
    WordHas(c);
    ZeroDigits();
    assert Zeros(8) + Zeros(8) + Zeros(8) == Zeros(24);
  }

  lemma ZeroDigits()
    ensures Digits(0, 8) == Zeros(8) && Quarter(Quarter(0)) == 0
  {
    hide Digits;
    DigitsOfEight(0);
    NothingHas();
    hide Has;
  }

  lemma NothingHas()
    ensures forall mask: bv32 :: !Has(0, mask)
  {
  }

  lemma WordQuarters(c: char)
    ensures Quarter(Quarter(Word(c))) == 0 && Quarter(Quarter(0)) == 0
  {
    hide Word;
    WordIsLow(c);
    LowQuarters(Word(c));
  }

  lemma LowQuarters(w: bv32)
    requires w & 0xFFFFFF00 == 0
    ensures Quarter(Quarter(w)) == 0 && Quarter(Quarter(0)) == 0
  {
  }

  lemma WordHas(c: char)
    ensures [Has(Word(c), 0x01), Has(Word(c), 0x02), Has(Word(c), 0x04), Has(Word(c), 0x08),
             Has(Word(c), 0x10), Has(Word(c), 0x20), Has(Word(c), 0x40), Has(Word(c), 0x80)] == ByteBits(c)
  {
    hide Word, Odd, U8;
    WordBits(c);
  }

  lemma OnesDigits()
    ensures Digits(ALL_ONES, 32) == Message("")
  {
    hide Digits, Quarter, Has;
    OnesQuarters();
    FourBytesOf(ALL_ONES, 0xFFFFFF, 0xFFFF, 0xFF);
    DigitsOfEight(ALL_ONES);
    DigitsOfEight(0xFFFFFF);
    DigitsOfEight(0xFFFF);
    DigitsOfEight(0xFF);
    OnesHave();
    assert Message("") == seq(32, _ => true);
  }

  lemma OnesQuarters()
    ensures 0xFFFFFF == Quarter(Quarter(ALL_ONES)) && 0xFFFF == Quarter(Quarter(0xFFFFFF)) && 0xFF == Quarter(Quarter(0xFFFF))
  {
  }

  lemma OnesHave()
    ensures forall mask: bv32 | mask in {0x01, 0x02, 0x04, 0x08, 0x10, 0x20, 0x40, 0x80} ::
      Has(ALL_ONES, mask) && Has(0xFFFFFF, mask) && Has(0xFFFF, mask) && Has(0xFF, mask)
  {
  }

  /** The register after any data holds the remainder of its message, highest power in the lowest bit. */
  lemma {:induction false} RegisterIsRemainder(data: string)
    ensures Digits(Update(ALL_ONES, data), 32) == Remainder(Message(data))
  {
    hide Digits, Word, Xor, ByteStep, Reduced, Message, ByteBits;
    if data == "" {
      OnesDigits();
    } else {
      var front, c := data[..|data| - 1], data[|data| - 1];
      assert data == front + [c];
      RegisterIsRemainder(front);
      var register, n := Update(ALL_ONES, front), 8 * |front|;
      ByteIsEightBits(Xor(register, Word(c)));
      StepsAreDivision(Xor(register, Word(c)), 8);
      XorDigits(register, Word(c), 32);
      WordDigits(c);
      OneMoreByte(Message(front), ByteBits(c));
      MessageSnoc(front, c);
    }
  }

  lemma OneMoreByte(m: seq<bool>, byte: seq<bool>)
    requires |m| >= 32 && |byte| == 8
    ensures Remainder(Add(m + Zeros(8), Zeros(|m| - 32) + (byte + Zeros(32))))
         == Remainder(Add(Remainder(m), byte + Zeros(24)) + Zeros(8))
  {
    hide Reduced, Remainder, Divided, Add;
    var n := |m| - 32;
    var sum := Add(m + Zeros(8), Zeros(n) + (byte + Zeros(32)));
    RemainderAfter(sum, n);
    DividedUnder(m + Zeros(8), n, byte + Zeros(32));
    DividedFront(m, n, Zeros(8));
    RemainderAfter(m, n);
    AddAtFront(Remainder(m), byte);
  }

  lemma AddAtFront(r: seq<bool>, byte: seq<bool>)
    requires |r| == 32 && |byte| == 8
    ensures Add(r + Zeros(8), byte + Zeros(32)) == Add(r, byte + Zeros(24)) + Zeros(8)
  {
    forall i | 0 <= i < 40
      ensures Add(r + Zeros(8), byte + Zeros(32))[i] == (Add(r, byte + Zeros(24)) + Zeros(8))[i]
    {
      if i < 32 {
        assert (byte + Zeros(32))[i] == (byte + Zeros(24))[i];
      }
    }
  }

  /**
   The checksum of record.hpp is that of the standard: its binary digits, lowest first, are the complemented coefficients,
   highest power first, of the remainder of the message polynomial.
   */
  lemma ChecksumIsStandard(data: string)
    ensures Digits(Crc(data), 32) == Complement(Remainder(Message(data)))
  {
    hide Digits, Update, Xor, Remainder;
    RegisterIsRemainder(data);
    XorDigits(Update(ALL_ONES, data), ALL_ONES, 32);
    OnesDigits();
    assert Message("") == seq(32, _ => true);
  }

  // ----- The check value -----

  lemma DigitOdds(v: nat)
    requires 0x30 <= v < 0x3A
    ensures Odd(v, 0) == (v % 2 == 1) && Odd(v, 1) == (v / 2 % 2 == 1) && Odd(v, 2) == (v / 4 % 2 == 1) && Odd(v, 3) == (v / 8 % 2 == 1)
    ensures Odd(v, 4) && Odd(v, 5) && !Odd(v, 6) && !Odd(v, 7)
  {
    OddsOf(v);
    OddsOf(v / 2);
    OddsOf(v / 2 / 2);
    OddsOf(v / 2 / 2 / 2);
    OddsOf(v / 2 / 2 / 2 / 2);
    OddsOf(v / 2 / 2 / 2 / 2 / 2);
    OddsOf(v / 2 / 2 / 2 / 2 / 2 / 2);
    OddsOf(v / 2 / 2 / 2 / 2 / 2 / 2 / 2);
    hide Odd;
  }

  lemma DigitWord(c: char)
    requires '0' <= c <= '9'
    ensures var v := c as int;
      Word(c) == (0x30 | Bit(v % 2 == 1, 0x01) | Bit(v / 2 % 2 == 1, 0x02) | Bit(v / 4 % 2 == 1, 0x04) | Bit(v / 8 % 2 == 1, 0x08))
  {
    hide Odd;
    DigitOdds(U8(c));
  }

  lemma DigitWords()
    ensures Word('1') == 0x31
    ensures Word('2') == 0x32
    ensures Word('3') == 0x33
    ensures Word('4') == 0x34
    ensures Word('5') == 0x35
    ensures Word('6') == 0x36
    ensures Word('7') == 0x37
    ensures Word('8') == 0x38
    ensures Word('9') == 0x39
  {
    hide Word;
    DigitWord('1');
    DigitWord('2');
    DigitWord('3');
    DigitWord('4');
    DigitWord('5');
    DigitWord('6');
    DigitWord('7');
    DigitWord('8');
    DigitWord('9');
  }

  // The register before and after each byte of the check message.
  lemma CheckBytes()
    ensures ByteStep(Xor(0xFFFFFFFF, 0x31)) == 0x7C231048
    ensures ByteStep(Xor(0x7C231048, 0x32)) == 0xB0ACBB32
    ensures ByteStep(Xor(0xB0ACBB32, 0x33)) == 0x77B79C2D
    ensures ByteStep(Xor(0x77B79C2D, 0x34)) == 0x641C1F5C
    ensures ByteStep(Xor(0x641C1F5C, 0x35)) == 0x340AC5E3
    ensures ByteStep(Xor(0x340AC5E3, 0x36)) == 0xF68D2C9E
    ensures ByteStep(Xor(0xF68D2C9E, 0x37)) == 0xAFFC9660
    ensures ByteStep(Xor(0xAFFC9660, 0x38)) == 0x651F2550
    ensures ByteStep(Xor(0x651F2550, 0x39)) == 0x340BC6D9
  {
  }

  lemma UpdateSnoc(crc: bv32, data: string, c: char)
    ensures Update(crc, data + [c]) == ByteStep(Xor(Update(crc, data), Word(c)))
  {
    hide ByteStep, Xor, Word;
    assert (data + [c])[..|data|] == data;
  }

  /** The published check value of this CRC. */
  lemma CheckValue()
    ensures Crc("123456789") == 0xCBF43926
  {
    hide Update, ByteStep, Xor, Word;
    NoData();
    DigitWords();
    CheckBytes();
    UpdateSnoc(ALL_ONES, "", '1');
    assert "" + ['1'] == "1";
    UpdateSnoc(ALL_ONES, "1", '2');
    assert "1" + ['2'] == "12";
    UpdateSnoc(ALL_ONES, "12", '3');
    assert "12" + ['3'] == "123";
    UpdateSnoc(ALL_ONES, "123", '4');
    assert "123" + ['4'] == "1234";
    UpdateSnoc(ALL_ONES, "1234", '5');
    assert "1234" + ['5'] == "12345";
    UpdateSnoc(ALL_ONES, "12345", '6');
    assert "12345" + ['6'] == "123456";
    UpdateSnoc(ALL_ONES, "123456", '7');
    assert "123456" + ['7'] == "1234567";
    UpdateSnoc(ALL_ONES, "1234567", '8');
    assert "1234567" + ['8'] == "12345678";
    UpdateSnoc(ALL_ONES, "12345678", '9');
    assert "12345678" + ['9'] == "123456789";
    LastXor();
  }

  lemma NoData()
    ensures Update(ALL_ONES, "") == 0xFFFFFFFF
  {
  }

  lemma LastXor()
    ensures Xor(0x340BC6D9, ALL_ONES) == 0xCBF43926
  {
  }
}
