/** src/geohash.rs: Morton interleaving of two 32-bit cell numbers and the quantisation around it. */
module Geohash {
  import opened Base

  // ----- Interleaving

  function Gap16(x: bv64): bv64 { (x | (x << 16)) & 0x0000FFFF0000FFFF }

  function Gap8(x: bv64): bv64 { (x | (x << 8)) & 0x00FF00FF00FF00FF }

  function Gap4(x: bv64): bv64 { (x | (x << 4)) & 0x0F0F0F0F0F0F0F0F }

  function Gap2(x: bv64): bv64 { (x | (x << 2)) & 0x3333333333333333 }

  function Gap1(x: bv64): bv64 { (x | (x << 1)) & 0x5555555555555555 }

  function Spread(x: bv32): bv64 {
    Gap1(Gap2(Gap4(Gap8(Gap16(x as bv64)))))
  }

  function Compact(x: bv64): bv64 {
    var a := x & 0x5555555555555555;
    var b := (a | (a >> 1)) & 0x3333333333333333;
    var c := (b | (b >> 2)) & 0x0F0F0F0F0F0F0F0F;
    var d := (c | (c >> 4)) & 0x00FF00FF00FF00FF;
    var e := (d | (d >> 8)) & 0x0000FFFF0000FFFF;
    (e | (e >> 16)) & 0x00000000FFFFFFFF
  }

  function Interleave(long: bv32, lat: bv32): bv64 {
    Merge(Spread(lat), Spread(long))
  }

  function Merge(even: bv64, odd: bv64): bv64 { even | (odd << 1) }

  function Deinterleave(score: bv64): (cells: (bv64, bv64))
    ensures cells.0 <= 0xFFFFFFFF && cells.1 <= 0xFFFFFFFF
  {
    (Compact(score >> 1), Compact(score))
  }

  /** What interleaving means: even bits are the latitude, odd bits the longitude. */
  lemma InterleaveBits(long: bv32, lat: bv32, k: bv64)
    requires k < 32
    ensures (Interleave(long, lat) >> (k + k)) & 1 == ((lat as bv64) >> k) & 1
    ensures (Interleave(long, lat) >> (k + k + 1)) & 1 == ((long as bv64) >> k) & 1
  {
  }

  lemma DeinterleaveInterleave(long: bv32, lat: bv32)
    ensures Deinterleave(Interleave(long, lat)) == (long as bv64, lat as bv64)
  {
  }

  lemma InterleaveDeinterleave(score: bv64)
    ensures var (long, lat) := Deinterleave(score); Interleave(long as bv32, lat as bv32) == score
  {
  }

  lemma InterleaveMonotone(a: bv32, b: bv32, other: bv32)
    requires a < b
    ensures Less(Interleave(a, other), Interleave(b, other))
    ensures Less(Interleave(other, a), Interleave(other, b))
  {
    hide Less, Merge, Spread;
    MergedSpreadsMonotone(a, b, other);
  }

  predicate Less(x: bv64, y: bv64) { x < y }

  lemma MergedSpreadsMonotone(a: bv32, b: bv32, other: bv32)
    requires a < b
    ensures Less(Merge(Spread(other), Spread(a)), Merge(Spread(other), Spread(b)))
    ensures Less(Merge(Spread(a), Spread(other)), Merge(Spread(b), Spread(other)))
  {
    hide *;
    SpreadMonotone(a, b);
    SpreadSpaced(other);
    MergeMonotone(Spread(a), Spread(b), Spread(other));
  }

  /** Each of the five shift-and-mask steps of `Spread` keeps the order of what it is given. */
  lemma SpreadMonotone(x: bv32, y: bv32)
    requires x < y
    ensures Less(Spread(x), Spread(y)) && Spaced(Spread(x)) && Spaced(Spread(y))
  {
    hide Gap16, Gap8, Gap4, Gap2, Gap1, Less, Halves, Spaced;
    Gap16Monotone(x, y);
    LaterStepsMonotone(Gap16(x as bv64), Gap16(y as bv64));
  }

  lemma LaterStepsMonotone(x: bv64, y: bv64)
    requires Less(x, y) && Halves(x) && Halves(y)
    ensures Less(Gap1(Gap2(Gap4(Gap8(x)))), Gap1(Gap2(Gap4(Gap8(y)))))
    ensures Spaced(Gap1(Gap2(Gap4(Gap8(x))))) && Spaced(Gap1(Gap2(Gap4(Gap8(y)))))
  {
    hide *;
    Gap8Monotone(x, y);
    Gap4Monotone(Gap8(x), Gap8(y));
    Gap2Monotone(Gap4(Gap8(x)), Gap4(Gap8(y)));
    Gap1Monotone(Gap2(Gap4(Gap8(x))), Gap2(Gap4(Gap8(y))));
  }

  predicate Halves(x: bv64) { x & 0x0000FFFF0000FFFF == x }

  predicate Quarters(x: bv64) { x & 0x00FF00FF00FF00FF == x }

  predicate Eighths(x: bv64) { x & 0x0F0F0F0F0F0F0F0F == x }

  predicate Pairs(x: bv64) { x & 0x3333333333333333 == x }

  /** Only even bits are set. */
  predicate Spaced(x: bv64) { x & 0x5555555555555555 == x }

  lemma Gap16Monotone(x: bv32, y: bv32)
    requires x < y
    ensures Less(Gap16(x as bv64), Gap16(y as bv64))
    ensures Halves(Gap16(x as bv64)) && Halves(Gap16(y as bv64))
  {
  }

  lemma Gap8Monotone(x: bv64, y: bv64)
    requires Less(x, y) && Halves(x) && Halves(y)
    ensures Less(Gap8(x), Gap8(y)) && Quarters(Gap8(x)) && Quarters(Gap8(y))
  {
  }

  lemma Gap4Monotone(x: bv64, y: bv64)
    requires Less(x, y) && Quarters(x) && Quarters(y)
    ensures Less(Gap4(x), Gap4(y)) && Eighths(Gap4(x)) && Eighths(Gap4(y))
  {
  }

  lemma Gap2Monotone(x: bv64, y: bv64)
    requires Less(x, y) && Eighths(x) && Eighths(y)
    ensures Less(Gap2(x), Gap2(y)) && Pairs(Gap2(x)) && Pairs(Gap2(y))
  {
  }

  lemma Gap1Monotone(x: bv64, y: bv64)
    requires Less(x, y) && Pairs(x) && Pairs(y)
    ensures Less(Gap1(x), Gap1(y)) && Spaced(Gap1(x)) && Spaced(Gap1(y))
  {
  }

  lemma SpreadSpaced(x: bv32)
    ensures Spaced(Spread(x))
  {
  }

  lemma MergeMonotone(x: bv64, y: bv64, other: bv64)
    requires Less(x, y) && Spaced(x) && Spaced(y) && Spaced(other)
    ensures Less(Merge(other, x), Merge(other, y))
    ensures Less(Merge(x, other), Merge(y, other))
  {
  }

  // ----- Words and the numbers they denote

  function Half(x: bv64): bv64 { x >> 1 }

  function Twice(x: bv64, odd: bool): bv64 { (x << 1) | (if odd then 1 else 0) }

  predicate Odd(x: bv64) { x & 1 == 1 }

  predicate Fits(x: bv64, bits: bv64)
    requires bits <= 32
  {
    x >> bits == 0
  }

  /** The number a word of `bits` bits denotes (`x as f64`). */
  function Value(x: bv64, bits: bv64): nat
    decreases bits
  {
    if bits == 0 then 0 else 2 * Value(Half(x), bits - 1) + (if Odd(x) then 1 else 0)
  }

  /** The word of `bits` bits that denotes `n` (`n as u32`). */
  function Word(n: nat, bits: bv64): bv64
    decreases bits
  {
    if bits == 0 then 0 else Twice(Word(n / 2, bits - 1), n % 2 == 1)
  }

  function Pow2(bits: bv64): nat
    decreases bits
  {
    if bits == 0 then 1 else 2 * Pow2(bits - 1)
  }

  lemma TwiceHalf(x: bv64, bits: bv64)
    requires 0 < bits <= 32 && Fits(x, bits)
    ensures Twice(Half(x), Odd(x)) == x && Fits(Half(x), bits - 1)
  {
  }

  lemma HalfTwice(x: bv64, odd: bool, bits: bv64)
    requires 0 < bits <= 32 && Fits(x, bits - 1)
    ensures Half(Twice(x, odd)) == x && Odd(Twice(x, odd)) == odd && Fits(Twice(x, odd), bits)
  {
  }

  lemma WordStep(v: nat, odd: bool, bits: bv64)
    requires 0 < bits
    ensures Word(2 * v + (if odd then 1 else 0), bits) == Twice(Word(v, bits - 1), odd)
  {
    var n := 2 * v + (if odd then 1 else 0);
    assert n / 2 == v && (n % 2 == 1) == odd;
  }

  lemma {:induction false} WordOfValue(x: bv64, bits: bv64)
    requires bits <= 32 && Fits(x, bits)
    ensures Word(Value(x, bits), bits) == x
    ensures Value(x, bits) < Pow2(bits)
    decreases bits
  {
    if bits > 0 {
      hide Half, Twice, Odd;
      TwiceHalf(x, bits);
      WordOfValue(Half(x), bits - 1);
      WordStep(Value(Half(x), bits - 1), Odd(x), bits);
    }
  }

  lemma {:induction false} ValueOfWord(n: nat, bits: bv64)
    requires bits <= 32 && n < Pow2(bits)
    ensures Fits(Word(n, bits), bits) && Value(Word(n, bits), bits) == n
    decreases bits
  {
    if bits > 0 {
      hide Half, Twice, Odd;
      ValueOfWord(n / 2, bits - 1);
      HalfTwice(Word(n / 2, bits - 1), n % 2 == 1, bits);
    }
  }

  // ----- Quantisation, over exact reals

  /** 2^26 cells on each axis. */
  const CELLS: real := 67108864.0

  /** An axis of the map: longitude or latitude with its bounds. */
  datatype Axis = Axis(min: real, max: real) {
    predicate Valid() { min < max }

    function Range(): real { max - min }

    predicate Contains(x: real) { min <= x <= max }

    function Cell(x: real): int
      requires Valid()
    {
      ((x - min) / Range() * CELLS).Floor
    }

    function Centre(cell: int): real
      requires Valid()
    {
      var low := cell as real / CELLS * Range() + min;
      var high := (cell + 1) as real / CELLS * Range() + min;
      (low + high) / 2.0
    }
  }

  const LONG: Axis := Axis(-180.0, 180.0)
  const LAT: Axis := Axis(-85.05112878, 85.05112878)

  function Encode(long: real, lat: real): (score: Option<bv64>)
    ensures score.Some? <==> LONG.Contains(long) && LAT.Contains(lat)
  {
    if !LAT.Contains(lat) || !LONG.Contains(long) then None
    else
      CellInRange(LONG, long);
      CellInRange(LAT, lat);
      Some(InterleaveCells(LONG.Cell(long), LAT.Cell(lat)))
  }

  function InterleaveCells(long: nat, lat: nat): bv64
    requires long < 0x1_0000_0000 && lat < 0x1_0000_0000
  {
    WordFits(long);
    WordFits(lat);
    Interleave(Word(long, 32) as bv32, Word(lat, 32) as bv32)
  }

  function Cells(score: bv64): (nat, nat) {
    var (long, lat) := Deinterleave(score);
    (Value(long, 32), Value(lat, 32))
  }

  function Decode(score: bv64): (real, real) {
    var (long, lat) := Cells(score);
    (LONG.Centre(long), LAT.Centre(lat))
  }

  lemma SmallFits(x: bv64)
    requires x <= 0xFFFFFFFF
    ensures Fits(x, 32)
  {
  }

  lemma WordFits(n: nat)
    requires n < 0x1_0000_0000
    ensures Word(n, 32) <= 0xFFFFFFFF && Value(Word(n, 32), 32) == n
  {
    hide Word, Value;
    Pow2Of32();
    ValueOfWord(n, 32);
  }

  lemma Pow2Of32()
    ensures Pow2(32) == 0x1_0000_0000
  {
    assert Pow2(8) == 256;
    assert Pow2(16) == 0x1_0000;
    assert Pow2(24) == 0x100_0000;
  }

  lemma CellsOfInterleave(long: nat, lat: nat)
    requires long < 0x1_0000_0000 && lat < 0x1_0000_0000
    ensures Cells(InterleaveCells(long, lat)) == (long, lat)
  {
    hide Deinterleave, Interleave, Value, Word;
    WordFits(long);
    WordFits(lat);
    DeinterleaveInterleave(Word(long, 32) as bv32, Word(lat, 32) as bv32);
  }

  lemma InterleaveOfValues(long: bv64, lat: bv64)
    requires long <= 0xFFFFFFFF && lat <= 0xFFFFFFFF
    ensures Value(long, 32) < 0x1_0000_0000 && Value(lat, 32) < 0x1_0000_0000
    ensures InterleaveCells(Value(long, 32), Value(lat, 32)) == Interleave(long as bv32, lat as bv32)
  {
    hide Deinterleave, Interleave, Value, Word;
    Pow2Of32();
    SmallFits(long);
    SmallFits(lat);
    WordOfValue(long, 32);
    WordOfValue(lat, 32);
  }

  lemma CellsAreValues(score: bv64)
    ensures var (long, lat) := Deinterleave(score);
            Cells(score) == (Value(long, 32), Value(lat, 32)) && long <= 0xFFFFFFFF && lat <= 0xFFFFFFFF
  {
    hide Deinterleave, Value;
  }

  lemma InterleaveOfCells(score: bv64)
    ensures var (long, lat) := Cells(score);
            long < 0x1_0000_0000 && lat < 0x1_0000_0000 && InterleaveCells(long, lat) == score
  {
    hide *;
    var (long, lat) := Deinterleave(score);
    CellsAreValues(score);
    InterleaveOfValues(long, lat);
    InterleaveDeinterleave(score);
  }

  /** The cell number of an in-range coordinate; the upper bound itself falls one past the last cell. */
  lemma CellInRange(axis: Axis, x: real)
    requires axis.Valid() && axis.Contains(x)
    ensures 0 <= axis.Cell(x) <= 67108864
  {
    var share := (x - axis.min) / axis.Range();
    assert share * axis.Range() == x - axis.min;
    assert 0.0 <= share <= 1.0;
  }

  predicate Within(distance: real, x: real, y: real) {
    x - y <= distance && y - x <= distance
  }

  /** The centre of a point's cell is at most half a cell away from it. */
  lemma CentreIsNear(axis: Axis, x: real)
    requires axis.Valid() && axis.Contains(x)
    ensures Within(axis.Range() / 134217728.0, axis.Centre(axis.Cell(x)), x)
  {
    var width := axis.Range() / CELLS;
    var share := (x - axis.min) / axis.Range();
    var steps := share * CELLS;
    var n := axis.Cell(x);
    assert x - axis.min == steps * width by {
      assert share * axis.Range() == x - axis.min;
    }
    ScaledBounds(n as real, steps, width);
    CentreByWidth(axis, n);
  }

  lemma CentreByWidth(axis: Axis, cell: int)
    requires axis.Valid()
    ensures axis.Centre(cell) == (cell as real + 0.5) * (axis.Range() / CELLS) + axis.min
  {
    var range, width, n := axis.Range(), axis.Range() / CELLS, cell as real;
    assert n / CELLS * range == n * width;
    assert (n + 1.0) / CELLS * range == (n + 1.0) * width;
    assert (cell + 1) as real == n + 1.0;
    assert n * width + (n + 1.0) * width == 2.0 * ((n + 0.5) * width);
  }

  lemma ScaledBounds(low: real, x: real, width: real)
    requires low <= x < low + 1.0 && 0.0 < width
    ensures Within(width / 2.0, (low + 0.5) * width, x * width)
  {
    var gap := low + 0.5 - x;
    assert -0.5 <= gap <= 0.5;
    assert gap * width <= 0.5 * width && (-gap) * width <= 0.5 * width;
    assert (low + 0.5) * width - x * width == gap * width;
  }

  lemma CellOfCentre(axis: Axis, cell: int)
    requires axis.Valid()
    ensures axis.Cell(axis.Centre(cell)) == cell
  {
    var steps := cell as real + 0.5;
    var width := axis.Range() / CELLS;
    assert axis.Centre(cell) - axis.min == steps * width;
    assert (axis.Centre(cell) - axis.min) / axis.Range() * CELLS == steps by {
      assert steps * width == steps / CELLS * axis.Range();
    }
  }

  lemma DecodeEncode(long: real, lat: real)
    requires LONG.Contains(long) && LAT.Contains(lat)
    ensures var (long', lat') := Decode(Encode(long, lat).value);
            && Within(LONG.Range() / 134217728.0, long', long)
            && Within(LAT.Range() / 134217728.0, lat', lat)
  {
    CellInRange(LONG, long);
    CellInRange(LAT, lat);
    CellsOfInterleave(LONG.Cell(long), LAT.Cell(lat));
    CentreIsNear(LONG, long);
    CentreIsNear(LAT, lat);
  }

  /** A score survives decoding and encoding exactly when both of its cells lie on the map. */
  lemma EncodeDecode(score: bv64)
    ensures var (long, lat) := Decode(score);
            Encode(long, lat) == Some(score) <==> Cells(score).0 < 67108864 && Cells(score).1 < 67108864
  {
    var (long, lat) := Cells(score);
    InterleaveOfCells(score);
    CellOfCentre(LONG, long);
    CellOfCentre(LAT, lat);
    CentreOnMap(LONG, long);
    CentreOnMap(LAT, lat);
  }

  lemma CentreOnMap(axis: Axis, cell: nat)
    requires axis.Valid()
    ensures axis.Contains(axis.Centre(cell)) <==> cell < 67108864
  {
    var steps := cell as real + 0.5;
    var width := axis.Range() / CELLS;
    assert axis.Centre(cell) - axis.min == steps * width;
    assert 0.0 <= steps * width;
    if cell < 67108864 {
      assert steps * width <= CELLS * width;
    } else {
      assert CELLS * width < steps * width;
    }
  }
}
