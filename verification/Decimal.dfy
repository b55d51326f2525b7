/** Decimal numerals as Rust prints and parses them (`to_string`, `parse::<usize>`, `parse::<i64>`). */
module Decimal {
  import opened Base

  const PLUS: Byte := 0x2B
  const MINUS: Byte := 0x2D
  const I64_MAX: int := 0x7FFF_FFFF_FFFF_FFFF

  function DigitByte(d: nat): Byte
    requires d < 10
  {
    match d
    case 0 => 0x30
    case 1 => 0x31
    case 2 => 0x32
    case 3 => 0x33
    case 4 => 0x34
    case 5 => 0x35
    case 6 => 0x36
    case 7 => 0x37
    case 8 => 0x38
    case _ => 0x39
  }

  function DigitOf(b: Byte): (d: Option<nat>)
    ensures d.Some? ==> d.value < 10
  {
    if b == 0x30 then Some(0)
    else if b == 0x31 then Some(1)
    else if b == 0x32 then Some(2)
    else if b == 0x33 then Some(3)
    else if b == 0x34 then Some(4)
    else if b == 0x35 then Some(5)
    else if b == 0x36 then Some(6)
    else if b == 0x37 then Some(7)
    else if b == 0x38 then Some(8)
    else if b == 0x39 then Some(9)
    else None
  }

  function Print(n: nat): (s: Bytes)
    ensures s != []
  {
    if n < 10 then [DigitByte(n)] else Print(n / 10) + [DigitByte(n % 10)]
  }

  function DigitsValue(s: Bytes): Option<nat> {
    if s == [] then Some(0)
    else
      match (DigitsValue(s[..|s| - 1]), DigitOf(s[|s| - 1]))
      case (Some(high), Some(low)) => Some(10 * high + low)
      case _ => None
  }

  /** `parse::<usize>`: an optional plus sign, then digits, below 2^64. */
  function ParseUsize(s: Bytes): Option<nat> {
    var digits := if s != [] && s[0] == PLUS then s[1..] else s;
    if digits == [] then None
    else
      match DigitsValue(digits)
      case Some(n) => if n < TWO_64 then Some(n) else None
      case None => None
  }

  function PrintInt(i: int): Bytes {
    if i < 0 then [MINUS] + Print(-i) else Print(i)
  }

  /** `parse::<i64>`: an optional sign, then digits, in the signed 64-bit range. */
  function ParseI64(s: Bytes): (i: Option<int>)
    ensures i.Some? ==> -I64_MAX - 1 <= i.value <= I64_MAX
  {
    var negative := s != [] && s[0] == MINUS;
    var digits := if s != [] && (s[0] == PLUS || s[0] == MINUS) then s[1..] else s;
    if digits == [] then None
    else
      match DigitsValue(digits)
      case None => None
      case Some(n) =>
        var i: int := if negative then -(n as int) else n;
        if -I64_MAX - 1 <= i <= I64_MAX then Some(i) else None
  }

  predicate IsDigits(s: Bytes) {
    forall i :: 0 <= i < |s| ==> DigitOf(s[i]).Some?
  }

  lemma DigitRoundTrip(d: nat)
    requires d < 10
    ensures DigitOf(DigitByte(d)) == Some(d)
  {
  }

  lemma {:induction false} PrintValue(n: nat)
    ensures DigitsValue(Print(n)) == Some(n)
  {
    hide DigitByte, DigitOf;
    if n < 10 {
      DigitRoundTrip(n);
      assert [DigitByte(n)][..0] == [];
    } else {
      var high, low := n / 10, n % 10;
      DigitRoundTrip(low);
      PrintValue(high);
      assert (Print(high) + [DigitByte(low)])[..|Print(high)|] == Print(high);
      assert 10 * high + low == n;
    }
  }

  lemma {:induction false} ValueDigits(s: Bytes)
    requires DigitsValue(s).Some?
    ensures IsDigits(s)
  {
    hide DigitOf;
    if s != [] {
      ValueDigits(s[..|s| - 1]);
    }
  }

  lemma PrintDigits(n: nat)
    ensures IsDigits(Print(n)) && DigitsValue(Print(n)) == Some(n)
  {
    PrintValue(n);
    ValueDigits(Print(n));
  }

  lemma SignsAreNotDigits()
    ensures DigitOf(PLUS) == None && DigitOf(MINUS) == None
  {
  }

  lemma ParsePrint(n: nat)
    requires n < TWO_64
    ensures ParseUsize(Print(n)) == Some(n)
  {
    PrintDigits(n);
    SignsAreNotDigits();
  }

  lemma ParsePrintInt(i: int)
    requires -I64_MAX - 1 <= i <= I64_MAX
    ensures ParseI64(PrintInt(i)) == Some(i)
  {
    SignsAreNotDigits();
    PrintDigits(if i < 0 then -i else i);
    if i < 0 {
      assert PrintInt(i)[1..] == Print(-i);
    }
  }
}
