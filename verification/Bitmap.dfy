/** src/commands/data_types.rs, `BitOps` and `Bitmap`: byte vectors read as sets of bit offsets. */
module Bitmaps {
  import opened Base

  // ----- Single bits

  /** `1u8 << (7 - i)`: offset 0 is the most significant bit. */
  function Mask(i: nat): Byte
    requires i < 8
  {
    match i
    case 0 => 0x80
    case 1 => 0x40
    case 2 => 0x20
    case 3 => 0x10
    case 4 => 0x08
    case 5 => 0x04
    case 6 => 0x02
    case _ => 0x01
  }

  predicate ByteBit(b: Byte, i: nat)
    requires i < 8
  {
    b & Mask(i) != 0
  }

  /** `BitOps::get`: `None` past the end. */
  function Get(bytes: Bytes, offset: nat): Option<bool> {
    if offset / 8 < |bytes| then Some(ByteBit(bytes[offset / 8], offset % 8)) else None
  }

  /** `BitOps::get(..).unwrap_or(0)`: zero past the end. */
  predicate BitAt(bytes: Bytes, offset: nat) {
    Get(bytes, offset) == Some(true)
  }

  /** The set of offsets a byte vector stands for. */
  ghost function Offsets(bytes: Bytes): set<nat> {
    set i: nat | i < 8 * |bytes| && BitAt(bytes, i)
  }

  function WithByteBit(b: Byte, i: nat, value: bool): Byte
    requires i < 8
  {
    if value then b | Mask(i) else b & (Mask(i) ^ 0xFF)
  }

  /** `BitOps::set`: `None` past the end. */
  function WithBit(bytes: Bytes, offset: nat, value: bool): Option<Bytes> {
    if offset / 8 < |bytes|
    then Some(bytes[offset / 8 := WithByteBit(bytes[offset / 8], offset % 8, value)])
    else None
  }

  function Zeros(n: nat): (z: Bytes)
    ensures |z| == n
  {
    seq(n, _ => 0)
  }

  /** `Bitmap::new(length)`: whole zero bytes for `length` bits. */
  function New(length: nat): Bytes {
    Zeros((length + 7) / 8)
  }

  /** `Bitmap::extend(offset)`: zero bytes up to the one that holds `offset`. */
  function Extended(bytes: Bytes, offset: nat): Bytes {
    var needed := (offset + 1 + 7) / 8;
    if needed > |bytes| then bytes + Zeros(needed - |bytes|) else bytes
  }

  /** The bitmap part of `cmd_setbit`: the new bytes and the old bit; no bytes when `bit` is neither 0 nor 1. */
  function Write(bytes: Bytes, offset: nat, bit: nat): (Option<Bytes>, bool) {
    var was := BitAt(bytes, offset);
    if (if was then 1 else 0) == bit then (Some(bytes), was)
    else if bit > 1 then (None, was)
    else match WithBit(bytes, offset, bit == 1)
      case Some(bytes') => (Some(bytes'), was)
      case None => (WithBit(Extended(bytes, offset), offset, bit == 1), was)
  }

  lemma ByteBitAfterWrite(b: Byte, i: nat, j: nat, value: bool)
    requires i < 8 && j < 8
    ensures ByteBit(WithByteBit(b, i, value), j) == if i == j then value else ByteBit(b, j)
  {
  }

  lemma ZeroByte(i: nat)
    requires i < 8
    ensures !ByteBit(0, i)
  {
  }

  lemma ExtendKeepsBits(bytes: Bytes, offset: nat)
    ensures offset / 8 < |Extended(bytes, offset)|
    ensures forall i: nat :: BitAt(Extended(bytes, offset), i) == BitAt(bytes, i)
  {
    var bytes' := Extended(bytes, offset);
    forall i: nat
      ensures BitAt(bytes', i) == BitAt(bytes, i)
    {
      if |bytes| <= i / 8 < |bytes'| {
        ZeroByte(i % 8);
      }
    }
  }

  lemma SetChangesOneBit(bytes: Bytes, offset: nat, value: bool)
    requires offset / 8 < |bytes|
    ensures forall i: nat ::
              BitAt(WithBit(bytes, offset, value).value, i) == if i == offset then value else BitAt(bytes, i)
  {
    forall i: nat
      ensures BitAt(WithBit(bytes, offset, value).value, i) == if i == offset then value else BitAt(bytes, i)
    {
      if i / 8 == offset / 8 {
        ByteBitAfterWrite(bytes[offset / 8], offset % 8, i % 8, value);
      }
    }
  }

  /** SETBIT succeeds exactly on 0 and 1, changes the addressed bit alone and reports what it was. */
  lemma SetBitChangesOneBit(bytes: Bytes, offset: nat, bit: nat)
    ensures Write(bytes, offset, bit).0.Some? <==> bit <= 1
    ensures Write(bytes, offset, bit).1 == BitAt(bytes, offset)
    ensures bit <= 1 ==>
              forall i: nat :: BitAt(Write(bytes, offset, bit).0.value, i) == if i == offset then bit == 1 else BitAt(bytes, i)
  {
    if bit <= 1 {
      ExtendKeepsBits(bytes, offset);
      SetChangesOneBit(Extended(bytes, offset), offset, bit == 1);
      if offset / 8 < |bytes| {
        SetChangesOneBit(bytes, offset, bit == 1);
      }
    }
  }

  // ----- Counting

  function Ones(b: Byte): nat {
    OnesBelow(b, 8)
  }

  /** How many of the first `n` bits of `b` are set. */
  function OnesBelow(b: Byte, n: nat): nat
    requires n <= 8
  {
    if n == 0 then 0 else OnesBelow(b, n - 1) + (if ByteBit(b, n - 1) then 1 else 0)
  }

  /** The whole-bytes count: the sum of `count_ones` over the bytes. */
  function SumOnes(bytes: Bytes): nat {
    if bytes == [] then 0 else SumOnes(bytes[..|bytes| - 1]) + Ones(bytes[|bytes| - 1])
  }

  /** How many bits are set in [start, end). */
  function CountBits(bytes: Bytes, start: nat, end: nat): nat {
    if end <= start then 0
    else CountBits(bytes, start, end - 1) + (if BitAt(bytes, end - 1) then 1 else 0)
  }

  datatype Unit = ByteUnit | BitUnit

  datatype Range = Range(start: int, end: int, unit: Unit)

  /** `BitOps::bit_count`. */
  function BitCount(bytes: Bytes, range: Option<Range>): nat {
    match range
    case None => SumOnes(bytes)
    case Some(r) =>
      var length := if r.unit == ByteUnit then |bytes| else 8 * |bytes|;
      var start := FromEnd(length, r.start);
      var end := Min(FromEnd(length, r.end), Max(length - 1, 0));
      if length == 0 || start > end then 0
      else if r.unit == ByteUnit then SumOnes(bytes[start..end + 1])
      else CountBits(bytes, start, end + 1)
  }

  lemma {:induction false} CountBitsSplit(bytes: Bytes, start: nat, mid: nat, end: nat)
    requires start <= mid <= end
    ensures CountBits(bytes, start, end) == CountBits(bytes, start, mid) + CountBits(bytes, mid, end)
  {
    if mid < end {
      CountBitsSplit(bytes, start, mid, end - 1);
    }
  }

  lemma {:induction false} CountBitsInByte(bytes: Bytes, k: nat, n: nat)
    requires k < |bytes| && n <= 8
    ensures CountBits(bytes, 8 * k, 8 * k + n) == OnesBelow(bytes[k], n)
  {
    if n > 0 {
      CountBitsInByte(bytes, k, n - 1);
      assert (8 * k + n - 1) / 8 == k && (8 * k + n - 1) % 8 == n - 1;
    }
  }

  /** Summing bytes and counting bits one by one agree on every byte-aligned stretch. */
  lemma {:induction false} SumIsCount(bytes: Bytes, start: nat, end: nat)
    requires start <= end <= |bytes|
    ensures SumOnes(bytes[start..end]) == CountBits(bytes, 8 * start, 8 * end)
  {
    hide BitAt, OnesBelow;
    if start < end {
      SumIsCount(bytes, start, end - 1);
      assert bytes[start..end][..end - start - 1] == bytes[start..end - 1];
      CountBitsInByte(bytes, end - 1, 8);
      CountBitsSplit(bytes, 8 * start, 8 * (end - 1), 8 * end);
    }
  }

  /** BITCOUNT of a whole bytes is the size of the set it stands for. */
  lemma CountIsCardinality(bytes: Bytes)
    ensures BitCount(bytes, None) == |Offsets(bytes)|
  {
    SumIsCount(bytes, 0, |bytes|);
    assert bytes[0..|bytes|] == bytes;
    CountIsCardinalityBelow(bytes, 8 * |bytes|);
  }

  ghost function OffsetsBelow(bytes: Bytes, n: nat): set<nat> {
    set i: nat | i < n && BitAt(bytes, i)
  }

  lemma OneOffsetMore(bytes: Bytes, n: nat)
    ensures OffsetsBelow(bytes, n + 1) == OffsetsBelow(bytes, n) + (if BitAt(bytes, n) then {n} else {})
    ensures n !in OffsetsBelow(bytes, n)
  {
    hide BitAt;
  }

  lemma {:induction false} CountIsCardinalityBelow(bytes: Bytes, n: nat)
    ensures CountBits(bytes, 0, n) == |OffsetsBelow(bytes, n)|
  {
    if n > 0 {
      CountIsCardinalityBelow(bytes, n - 1);
      OneOffsetMore(bytes, n - 1);
      hide BitAt, OffsetsBelow;
    } else {
      assert OffsetsBelow(bytes, n) == {};
    }
  }

  /** SETBIT moves BITCOUNT by the new bit minus the old one, also when it lengthens the bytes. */
  lemma SetBitMovesCount(bytes: Bytes, offset: nat, bit: nat)
    requires bit <= 1
    ensures var (bytes', was) := Write(bytes, offset, bit);
            BitCount(bytes'.value, None) as int == BitCount(bytes, None) + bit - (if was then 1 else 0)
    ensures Offsets(Write(bytes, offset, bit).0.value)
         == if bit == 1 then Offsets(bytes) + {offset} else Offsets(bytes) - {offset}
  {
    hide ByteBit, WithByteBit;
    var (bytes', was) := Write(bytes, offset, bit);
    SetBitChangesOneBit(bytes, offset, bit);
    CountIsCardinality(bytes);
    CountIsCardinality(bytes'.value);
    assert Offsets(bytes'.value) == if bit == 1 then Offsets(bytes) + {offset} else Offsets(bytes) - {offset};
  }

  /** Where a BYTE range and the BIT range of the same bytes select the same bits. */
  ghost predicate SameSelection(bytes: Bytes, start: int, end: int) {
    || bytes == []
    || end >= -|bytes|
    || FromEnd(|bytes|, start) > 0
    || CountBits(bytes, 1, 8) == 0
  }

  /** BYTE [a, b] and BIT [8a, 8b + 7] count alike, but for a `b` so negative that both clamp to 0. */
  lemma ByteRangeIsBitRange(bytes: Bytes, start: int, end: int)
    ensures BitCount(bytes, Some(Range(start, end, ByteUnit))) == BitCount(bytes, Some(Range(8 * start, 8 * end + 7, BitUnit)))
       <==> SameSelection(bytes, start, end)
  {
    hide BitAt, Ones;
    if bytes != [] {
      var first := FromEnd(|bytes|, start);
      var last := Min(FromEnd(|bytes|, end), |bytes| - 1);
      if first <= last {
        SumIsCount(bytes, first, last + 1);
        if end < -|bytes| {
          CountBitsSplit(bytes, 0, 1, 8);
        }
      }
    }
  }

  // ----- BITOP

  function ByteOrZero(bytes: Bytes, i: nat): Byte {
    if i < |bytes| then bytes[i] else 0
  }

  function Join(and: bool, a: Byte, b: Byte): Byte {
    if and then a & b else a | b
  }

  /** `BitOps::and` and `BitOps::or`: byte-wise, the shorter bytes padded with zero bytes. */
  function Combine(and: bool, x: Bytes, y: Bytes): Bytes {
    seq(Max(|x|, |y|), i requires 0 <= i => Join(and, ByteOrZero(x, i), ByteOrZero(y, i)))
  }

  lemma BitOfPadded(bytes: Bytes, i: nat)
    ensures BitAt(bytes, i) == ByteBit(ByteOrZero(bytes, i / 8), i % 8)
  {
    ZeroByte(i % 8);
  }

  lemma JoinBitwise(and: bool, a: Byte, b: Byte, i: nat)
    requires i < 8
    ensures Join(and, 0, 0) == 0
    ensures ByteBit(Join(and, a, b), i) == if and then ByteBit(a, i) && ByteBit(b, i) else ByteBit(a, i) || ByteBit(b, i)
  {
    if and {
      AndBitwise(a, b, i);
    } else {
      OrBitwise(a, b, i);
    }
  }

  lemma AndBitwise(a: Byte, b: Byte, i: nat)
    requires i < 8
    ensures ByteBit(a & b, i) == (ByteBit(a, i) && ByteBit(b, i))
  {
    OneBit(i);
  }

  lemma OrBitwise(a: Byte, b: Byte, i: nat)
    requires i < 8
    ensures ByteBit(a | b, i) == (ByteBit(a, i) || ByteBit(b, i))
  {
    OneBit(i);
  }

  lemma OneBit(i: nat)
    requires i < 8
    ensures Mask(i) & (Mask(i) - 1) == 0 && Mask(i) != 0
  {
  }

  lemma CombineBitwise(and: bool, x: Bytes, y: Bytes, i: nat)
    ensures BitAt(Combine(and, x, y), i)
         == if and then BitAt(x, i) && BitAt(y, i) else BitAt(x, i) || BitAt(y, i)
  {
    hide ByteBit, Join;
    BitOfPadded(x, i);
    BitOfPadded(y, i);
    BitOfPadded(Combine(and, x, y), i);
    JoinBitwise(and, ByteOrZero(x, i / 8), ByteOrZero(y, i / 8), i % 8);
    ZeroByte(i % 8);
    JoinBitwise(and, 0, 0, i % 8);
  }

  /** BITOP is intersection and union of the offset sets. */
  lemma CombineIsSetOperation(x: Bytes, y: Bytes)
    ensures Offsets(Combine(true, x, y)) == Offsets(x) * Offsets(y)
    ensures Offsets(Combine(false, x, y)) == Offsets(x) + Offsets(y)
  {
    forall i: nat
      ensures BitAt(Combine(true, x, y), i) == (BitAt(x, i) && BitAt(y, i))
      ensures BitAt(Combine(false, x, y), i) == (BitAt(x, i) || BitAt(y, i))
    {
      CombineBitwise(true, x, y, i);
      CombineBitwise(false, x, y, i);
    }
  }

  lemma CombineCounts(x: Bytes, y: Bytes)
    ensures BitCount(Combine(true, x, y), None) + BitCount(Combine(false, x, y), None)
         == BitCount(x, None) + BitCount(y, None)
  {
    CombineIsSetOperation(x, y);
    CountIsCardinality(x);
    CountIsCardinality(y);
    CountIsCardinality(Combine(true, x, y));
    CountIsCardinality(Combine(false, x, y));
    assert Offsets(x) == Offsets(x) * Offsets(y) + (Offsets(x) - Offsets(y));
    assert Offsets(x) + Offsets(y) == Offsets(y) + (Offsets(x) - Offsets(y));
  }

  // ----- The vector that is written in place

  class Bitmap {
    var bytes: Bytes

    constructor (length: nat)
      ensures bytes == New(length)
    {
      bytes := New(length);
    }

    method Set(offset: nat, value: bool) returns (ok: bool)
      modifies this
      ensures ok == (offset / 8 < old(|bytes|))
      ensures bytes == if ok then WithBit(old(bytes), offset, value).value else old(bytes)
    {
      hide Mask;
      ok := offset / 8 < |bytes|;
      if ok {
        var block := bytes[offset / 8];
        if value {
          block := block | Mask(offset % 8);
        } else {
          block := block & (Mask(offset % 8) ^ 0xFF);
        }
        bytes := bytes[offset / 8 := block];
      }
    }

    method Extend(offset: nat)
      modifies this
      ensures bytes == Extended(old(bytes), offset)
    {
      var needed := (offset + 1 + 7) / 8;
      if needed > |bytes| {
        bytes := bytes + Zeros(needed - |bytes|);
      }
    }

    /** The body of `cmd_setbit` once the bitmap is at hand. */
    method SetBit(offset: nat, bit: nat) returns (was: bool, ok: bool)
      modifies this
      ensures was == BitAt(old(bytes), offset)
      ensures ok == Write(old(bytes), offset, bit).0.Some?
      ensures bytes == if ok then Write(old(bytes), offset, bit).0.value else old(bytes)
    {
      was := BitAt(bytes, offset);
      ok := true;
      if (if was then 1 else 0) != bit {
        if bit > 1 {
          ok := false;
          return;
        }
        var stored := Set(offset, bit == 1);
        if !stored {
          Extend(offset);
          stored := Set(offset, bit == 1);
        }
      }
    }
  }
}
