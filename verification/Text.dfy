/**
 Text as iostreams read and write it: whitespace-separated tokens, lines, and decimal numbers.
 An InputStream is a std::istringstream with its eof and fail bits.
 */
module Text {
  import opened Types

  // std::isspace in the classic locale.
  predicate IsSpace(c: char) {
    c == ' ' || c == '\t' || c == '\n' || c == '\r' || c == '\U{0B}' || c == '\U{0C}'
  }

  // ----- Tokens -----

  function SkipSpace(s: string): (rest: string)
    ensures |rest| <= |s|
    ensures rest != "" ==> !IsSpace(rest[0])
  {
    if s != "" && IsSpace(s[0]) then SkipSpace(s[1..]) else s
  }

  function TokenLength(s: string): (n: nat)
    ensures n <= |s|
    ensures forall i | 0 <= i < n :: !IsSpace(s[i])
    ensures n < |s| ==> IsSpace(s[n])
  {
    if s == "" || IsSpace(s[0]) then 0 else 1 + TokenLength(s[1..])
  }

  // What operator>> extracts into a string; nothing when only whitespace is left.
  function Token(s: string): string {
    var rest := SkipSpace(s);
    rest[..TokenLength(rest)]
  }

  function AfterToken(s: string): (after: string)
    ensures Token(s) != "" ==> |after| < |s|
  {
    var rest := SkipSpace(s);
    rest[TokenLength(rest)..]
  }

  predicate IsToken(s: string) {
    s != "" && forall i | 0 <= i < |s| :: !IsSpace(s[i])
  }

  lemma {:induction false} TokenLengthOf(token: string, after: string)
    requires forall i | 0 <= i < |token| :: !IsSpace(token[i])
    requires after == "" || IsSpace(after[0])
    ensures TokenLength(token + after) == |token|
  {
    if token == "" {
      assert token + after == after;
    } else {
      assert (token + after)[1..] == token[1..] + after;
      TokenLengthOf(token[1..], after);
    }
  }

  /** A token printed after one space, and followed by whitespace or nothing, is read back. */
  lemma ReadsToken(token: string, after: string)
    requires IsToken(token) && (after == "" || IsSpace(after[0]))
    ensures Token(token + after) == token && AfterToken(token + after) == after
    ensures Token(" " + token + after) == token && AfterToken(" " + token + after) == after
  {
    TokenLengthOf(token, after);
    assert SkipSpace(token + after) == token + after;
    assert (" " + token + after)[1..] == token + after;
  }

  // ----- Lines -----

  function LineLength(s: string): (n: nat)
    ensures n <= |s|
    ensures '\n' !in s[..n]
    ensures n < |s| ==> s[n] == '\n'
  {
    if s == "" || s[0] == '\n' then 0 else
      assert s[..1 + LineLength(s[1..])] == [s[0]] + s[1..][..LineLength(s[1..])];
      1 + LineLength(s[1..])
  }

  function Line(s: string): string {
    s[..LineLength(s)]
  }

  // What std::getline leaves: the delimiter is consumed with the line.
  function AfterLine(s: string): (rest: string)
    ensures s != "" ==> |rest| < |s|
  {
    var n := LineLength(s);
    if n < |s| then s[n + 1..] else ""
  }

  lemma {:induction false} LineLengthOf(line: string, after: string)
    requires '\n' !in line && (after == "" || after[0] == '\n')
    ensures LineLength(line + after) == |line|
  {
    if line == "" {
      assert line + after == after;
    } else {
      assert (line + after)[1..] == line[1..] + after;
      LineLengthOf(line[1..], after);
    }
  }

  lemma ReadsLine(line: string, after: string)
    requires '\n' !in line && (after == "" || after[0] == '\n')
    ensures Line(line + after) == line
    ensures AfterLine(line + after) == if after == "" then "" else after[1..]
  {
    LineLengthOf(line, after);
  }

  // ----- Decimal numbers -----

  predicate IsDigit(c: char) {
    '0' <= c <= '9'
  }

  function DigitValue(c: char): nat
    requires IsDigit(c)
  {
    c as int - '0' as int
  }

  function Digit(d: nat): (c: char)
    requires d < 10
    ensures IsDigit(c) && DigitValue(c) == d
  {
    ('0' as int + d) as char
  }

  predicate AllDigits(s: string) {
    forall i | 0 <= i < |s| :: IsDigit(s[i])
  }

  // How operator<< and std::to_string print a number.
  function Decimal(n: nat): (s: string)
    ensures s != "" && AllDigits(s)
  {
    if n < 10 then [Digit(n)] else Decimal(n / 10) + [Digit(n % 10)]
  }

  // operator<< on a signed number
  function DecimalInt(n: int): string {
    if n < 0 then "-" + Decimal(-n) else Decimal(n)
  }

  function DigitsValue(s: string): nat
    requires AllDigits(s)
  {
    if s == "" then 0 else
      10 * DigitsValue(s[..|s| - 1]) + DigitValue(s[|s| - 1])
  }

  lemma {:induction false} DecimalValue(n: nat)
    ensures DigitsValue(Decimal(n)) == n
  {
    if n >= 10 {
      DecimalValue(n / 10);
      assert Decimal(n)[..|Decimal(n)| - 1] == Decimal(n / 10);
    }
  }

  lemma DecimalIsToken(n: nat)
    ensures IsToken(Decimal(n)) && '\n' !in Decimal(n)
  {
  }

  // The value of a string that std::stoi and its relatives consume to its last character.
  function WholeInteger(s: string): Option<int> {
    var signed := s != "" && (s[0] == '-' || s[0] == '+');
    var digits := if signed then s[1..] else s;
    if digits == "" || !AllDigits(digits) then None
    else
      var value: int := if signed && s[0] == '-' then -(DigitsValue(digits) as int) else DigitsValue(digits);
      Some(value)
  }

  // ----- Numbers in a stream -----

  function DigitsLength(s: string): (n: nat)
    ensures n <= |s|
    ensures AllDigits(s[..n])
    ensures n < |s| ==> !IsDigit(s[n])
  {
    if s == "" || !IsDigit(s[0]) then 0 else 1 + DigitsLength(s[1..])
  }

  datatype Number = Number(negative: bool, digits: string, rest: string)

  predicate IsSign(c: char) {
    c == '-' || c == '+'
  }

  // What operator>> takes for an integer: whitespace, an optional sign, and digits.
  function NumberAt(s: string): (n: Number)
    ensures AllDigits(n.digits)
  {
    var t := SkipSpace(s);
    var signed := t != "" && IsSign(t[0]);
    var u := if signed then t[1..] else t;
    Number(signed && t[0] == '-', u[..DigitsLength(u)], u[DigitsLength(u)..])
  }

  const INT_MIN: int := -0x8000_0000
  const INT_MAX: int := 0x7FFF_FFFF
  const TWO_TO_64: int := 0x1_0000_0000_0000_0000

  // Into an int: the extraction fails without digits or out of range.
  function IntValue(n: Number): Option<int>
    requires AllDigits(n.digits)
  {
    var value: int := if n.negative then -(DigitsValue(n.digits) as int) else DigitsValue(n.digits);
    if n.digits == "" || !(INT_MIN <= value <= INT_MAX) then None else Some(value)
  }

  // Into a std::uint64_t: a minus sign wraps around, as in strtoull.
  function UnsignedValue(n: Number): Option<nat>
    requires AllDigits(n.digits)
  {
    var value := DigitsValue(n.digits);
    if n.digits == "" || value >= TWO_TO_64 then None
    else Some(if n.negative && value > 0 then TWO_TO_64 - value else value)
  }

  lemma {:induction false} DigitsLengthOf(digits: string, after: string)
    requires AllDigits(digits) && (after == "" || !IsDigit(after[0]))
    ensures DigitsLength(digits + after) == |digits|
  {
    if digits == "" {
      assert digits + after == after;
    } else {
      assert (digits + after)[1..] == digits[1..] + after;
      DigitsLengthOf(digits[1..], after);
    }
  }

  /** A printed number, after one space and before whitespace or nothing, is read back by operator>>. */
  lemma ReadsNumber(n: nat, after: string)
    requires after == "" || IsSpace(after[0])
    ensures NumberAt(" " + Decimal(n) + after) == Number(false, Decimal(n), after)
    ensures IntValue(NumberAt(" " + Decimal(n) + after)) == if n <= 2147483647 then Some(n) else None
    ensures UnsignedValue(NumberAt(" " + Decimal(n) + after)) == if n <= 18446744073709551615 then Some(n) else None
  {
    DecimalValue(n);
    hide Decimal, DigitsLength, DigitsValue, NumberAt, IsSpace;
    DigitsAfterSpace(Decimal(n), after);
  }

  /** A minus sign negates into an int, and wraps around into a std::uint64_t. */
  lemma ReadsNegative(n: nat, after: string)
    requires 0 < n && (after == "" || IsSpace(after[0]))
    ensures NumberAt(" -" + Decimal(n) + after) == Number(true, Decimal(n), after)
    ensures IntValue(NumberAt(" -" + Decimal(n) + after)) == if n <= 2147483648 then Some(0 - n) else None
    ensures UnsignedValue(NumberAt(" -" + Decimal(n) + after)) == if n <= 18446744073709551615 then Some(18446744073709551616 - n) else None
  {
    DecimalValue(n);
    hide Decimal, DigitsLength, DigitsValue, NumberAt, IsSpace;
    DigitsAfterMinus(Decimal(n), after);
  }

  lemma DigitsAfterMinus(digits: string, after: string)
    requires digits != "" && AllDigits(digits) && (after == "" || IsSpace(after[0]))
    ensures NumberAt(" -" + digits + after) == Number(true, digits, after)
  {
    DigitsLengthOf(digits, after);
    hide DigitsLength;
    var s := " -" + digits + after;
    assert s[1..] == "-" + digits + after;
    assert SkipSpace(s) == "-" + digits + after;
    assert ("-" + digits + after)[1..] == digits + after;
  }

  lemma DigitsAfterSpace(digits: string, after: string)
    requires digits != "" && AllDigits(digits) && (after == "" || IsSpace(after[0]))
    ensures NumberAt(" " + digits + after) == Number(false, digits, after)
  {
    DigitsLengthOf(digits, after);
    hide DigitsLength;
    var s := " " + digits + after;
    assert s[1..] == digits + after;
    assert IsDigit(s[1]);
    assert SkipSpace(s) == digits + after;
  }

  /** Reading a printed number gives it back. */
  lemma ReadsDecimal(n: nat)
    ensures WholeInteger(Decimal(n)) == Some(n)
  {
    DecimalValue(n);
    assert IsDigit(Decimal(n)[0]);
  }

  // ----- Taking characters off the front of a text -----

  lemma TakenOne(all: string, taken: string, rest: string)
    requires all == taken + rest && rest != ""
    ensures all == (taken + [rest[0]]) + rest[1..]
  {
  }

  lemma TakenAll(all: string, taken: string, rest: string)
    requires all == taken + rest
    ensures all[..|taken|] == taken && all[|taken|..] == rest
  {
  }

  lemma TokenGoesOn(s: string)
    ensures if s != "" && !IsSpace(s[0]) then TokenLength(s) == 1 + TokenLength(s[1..]) else TokenLength(s) == 0
  {
  }

  lemma DigitsGoOn(s: string)
    ensures if s != "" && IsDigit(s[0]) then DigitsLength(s) == 1 + DigitsLength(s[1..]) else DigitsLength(s) == 0
  {
  }

  lemma LineGoesOn(s: string)
    ensures if s != "" && s[0] != '\n' then LineLength(s) == 1 + LineLength(s[1..]) else LineLength(s) == 0
  {
  }

  // ----- The stream -----

  class InputStream {
    var rest: string
    var eof: bool
    var failed: bool

    constructor (text: string)
      ensures rest == text && !failed && Valid()
    {
      rest, eof, failed := text, false, false;
    }

    ghost predicate Valid()
      reads this
    {
      eof ==> rest == ""
    }

    // The sentry of operator>>: skips whitespace and fails when nothing is left.
    method SkipBlanks()
      requires Valid()
      modifies this
      ensures Valid()
      ensures old(failed) ==> failed && rest == old(rest)
      ensures !old(failed) ==> failed == (rest == "") && rest == SkipSpace(old(rest)) && (failed || !eof)
    {
      if failed || eof {
        failed := true;
        return;
      }
      while rest != "" && IsSpace(rest[0])
        invariant SkipSpace(rest) == SkipSpace(old(rest)) && !failed && !eof
        decreases |rest|
      {
        rest := rest[1..];
      }
      eof, failed := rest == "", rest == "";
    }

    // The digits that operator>> takes for an integer
    method ExtractNumber() returns (negative: bool, digits: string)
      requires Valid()
      modifies this
      ensures Valid()
      ensures old(failed) ==> failed
      ensures !old(failed) ==>
        var n := NumberAt(old(rest));
        failed == (n.digits == "") && (!failed ==> n == Number(negative, digits, rest))
    {
      negative, digits := false, "";
      SkipBlanks();
      if failed {
        return;
      }
      if IsSign(rest[0]) {
        negative, rest := rest[0] == '-', rest[1..];
      }
      digits := TakeDigits();
    }

    method TakeDigits() returns (digits: string)
      requires !failed && !eof
      modifies this
      ensures Valid() && failed == (digits == "")
      ensures digits == old(rest)[..DigitsLength(old(rest))] && rest == old(rest)[DigitsLength(old(rest))..]
    {
      digits := "";
      hide DigitsLength;
      while rest != "" && IsDigit(rest[0])
        invariant old(rest) == digits + rest && DigitsLength(old(rest)) == |digits| + DigitsLength(rest) && !failed && !eof
        decreases |rest|
      {
        DigitsGoOn(rest);
        TakenOne(old(rest), digits, rest);
        digits, rest := digits + [rest[0]], rest[1..];
      }
      DigitsGoOn(rest);
      TakenAll(old(rest), digits, rest);
      eof, failed := rest == "", digits == "";
    }

    // operator>>(int &), into a variable that still holds 0
    method ExtractInt() returns (value: int)
      requires Valid()
      modifies this
      ensures Valid()
      ensures old(failed) ==> failed
      ensures !old(failed) ==>
        var n := NumberAt(old(rest));
        failed == IntValue(n).None? && (!failed ==> rest == n.rest && Some(value) == IntValue(n))
    {
      hide NumberAt, DigitsValue;
      var negative, digits := ExtractNumber();
      value := 0;
      if !failed {
        var v := IntValue(Number(negative, digits, rest));
        failed := v.None?;
        value := if v.Some? then v.value else 0;
      }
    }

    // operator>>(std::uint64_t &)
    method ExtractUnsigned() returns (value: nat)
      requires Valid()
      modifies this
      ensures Valid()
      ensures old(failed) ==> failed
      ensures !old(failed) ==>
        var n := NumberAt(old(rest));
        failed == UnsignedValue(n).None? && (!failed ==> rest == n.rest && Some(value) == UnsignedValue(n))
    {
      hide NumberAt, DigitsValue;
      var negative, digits := ExtractNumber();
      value := 0;
      if !failed {
        var v := UnsignedValue(Number(negative, digits, rest));
        failed := v.None?;
        value := if v.Some? then v.value else 0;
      }
    }

    // operator>>(std::string &)
    method Extract(target: string) returns (token: string)
      requires Valid()
      modifies this
      ensures Valid()
      ensures old(failed) ==> failed && rest == old(rest) && token == target
      ensures !old(failed) ==> failed == (Token(old(rest)) == "") && rest == AfterToken(old(rest))
      ensures !old(failed) ==> token == if failed then target else Token(old(rest))
    {
      token := target;
      SkipBlanks();
      if failed {
        return;
      }
      token := "";
      ghost var all := rest;
      hide TokenLength;
      while rest != "" && !IsSpace(rest[0])
        invariant all == token + rest && TokenLength(all) == |token| + TokenLength(rest) && !failed && !eof
        decreases |rest|
      {
        TokenGoesOn(rest);
        TakenOne(all, token, rest);
        token, rest := token + [rest[0]], rest[1..];
      }
      TokenGoesOn(rest);
      TakenAll(all, token, rest);
      eof := rest == "";
    }

    // std::getline into a string that is still empty
    method GetLine() returns (line: string)
      requires Valid()
      modifies this
      ensures Valid()
      ensures old(failed) ==> failed && rest == old(rest) && line == ""
      ensures !old(failed) ==> line == Line(old(rest)) && rest == AfterLine(old(rest)) && failed == (old(rest) == "")
    {
      line := "";
      if failed || eof {
        failed := true;
        return;
      }
      ghost var all := rest;
      hide LineLength;
      while rest != "" && rest[0] != '\n'
        invariant all == line + rest && LineLength(all) == |line| + LineLength(rest) && !failed && !eof
        decreases |rest|
      {
        LineGoesOn(rest);
        TakenOne(all, line, rest);
        line, rest := line + [rest[0]], rest[1..];
      }
      LineGoesOn(rest);
      TakenAll(all, line, rest);
      if rest == "" {
        eof := true;
        failed := line == "";
      } else {
        rest := rest[1..];
      }
    }
  }
}
