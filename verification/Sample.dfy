/** A channel value moved between storage types: what it is in the other type is a formula of integers,
    whatever the division on the way is off by. Floats are reals, with what the one inexact step may be off by. */
module Sample {
  // --- Rounding

  /** `n` is nearest to `x`, and even where two are. */
  ghost predicate NearestEven(x: real, n: int) {
    -0.5 <= x - n as real <= 0.5 && ((x - n as real == 0.5 || x - n as real == -0.5) ==> n % 2 == 0)
  }

  function RoundTiesEven(x: real): int {
    var low := x.Floor;
    var over := x - low as real;
    if over < 0.5 then low else if over > 0.5 then low + 1 else if low % 2 == 0 then low else low + 1
  }

  /** There is one such integer, and rounding gives it. */
  lemma RoundsToNearestEven(x: real, n: int)
    ensures RoundTiesEven(x) == n <==> NearestEven(x, n)
  {
    var low := x.Floor;
    assert low as real <= x < low as real + 1.0;
    if NearestEven(x, n) {
      assert (n - 1) as real < x < (n + 1) as real;
      assert n == low || n == low + 1;
    }
  }

  // --- Storage

  datatype Depth = Eight | Sixteen {
    function Max(): int { match this case Eight => 255 case Sixteen => 65535 }

    predicate Holds(v: int) { 0 <= v <= Max() }

    /** A number on `[0, 1]` at full scale: exact, as the product is taken in twice the precision. */
    function Scaled(unit: real): real { match this case Eight => unit * 255.0 case Sixteen => unit * 65535.0 }

    /** A stored value on `[0, 1]`. */
    ghost function Unit(v: int): real { match this case Eight => v as real / 255.0 case Sixteen => v as real / 65535.0 }
  }

  datatype Float = Number(value: real) | Infinite(positive: bool) | NotANumber

  const TWO_TO_24 := 16777216.0

  /** `unit` is a stored value over the full scale, as an f32 division may give it: off by at most one part in
      2²⁴. */
  ghost predicate ToUnit(depth: Depth, v: int, unit: real) {
    -depth.Unit(v) <= (unit - depth.Unit(v)) * TWO_TO_24 <= depth.Unit(v)
  }

  /** A cast to the storage type: kept in its range, and zero for what is no number. */
  function Cast(depth: Depth, n: int): int { if n < 0 then 0 else if n > depth.Max() then depth.Max() else n }

  /** A float already in the type's units, narrowed. */
  function FromF32(depth: Depth, value: Float): int {
    match value
    case Number(x) => Cast(depth, RoundTiesEven(x))
    case Infinite(positive) => if positive then depth.Max() else 0
    case NotANumber => 0
  }

  /** A float on `[0, 1]`, stored. */
  function FromUnit(depth: Depth, unit: Float): int {
    match unit
    case Number(x) => Cast(depth, RoundTiesEven(depth.Scaled(x)))
    case Infinite(positive) => if positive then depth.Max() else 0
    case NotANumber => 0
  }

  /** The nearest of the values a type of full scale `full` holds. */
  ghost predicate Stored(x: real, full: int, n: int) {
    0 <= n <= full && (NearestEven(x, n) || (n == 0 && x < 0.0) || (n == full && x > full as real))
  }

  /** A unit float is stored as the nearest value at full scale, kept in range: no other value, for any number. */
  lemma UnitIsStoredNearest(x: real, n: int)
    ensures FromUnit(Eight, Number(x)) == n <==> Stored(x * 255.0, 255, n)
    ensures FromUnit(Sixteen, Number(x)) == n <==> Stored(x * 65535.0, 65535, n)
  {
    StoredOnce(x * 255.0, 255, n);
    StoredOnce(x * 65535.0, 65535, n);
  }

  /** So is a float already in the type's units. */
  lemma FloatIsStoredNearest(x: real, n: int)
    ensures FromF32(Eight, Number(x)) == n <==> Stored(x, 255, n)
    ensures FromF32(Sixteen, Number(x)) == n <==> Stored(x, 65535, n)
  {
    StoredOnce(x, 255, n);
    StoredOnce(x, 65535, n);
  }

  lemma StoredOnce(x: real, full: int, n: int)
    requires full > 0
    ensures Stored(x, full, n) <==>
      n == if RoundTiesEven(x) < 0 then 0 else if RoundTiesEven(x) > full then full else RoundTiesEven(x)
  {
    RoundsToNearestEven(x, n);
    RoundsToNearestEven(x, RoundTiesEven(x));
  }

  /** What is no number is stored as zero, and what is past every number as the nearer end. */
  lemma SpecialsAreStored(depth: Depth)
    ensures FromUnit(depth, NotANumber) == FromF32(depth, NotANumber) == 0
    ensures FromUnit(depth, Infinite(false)) == FromF32(depth, Infinite(false)) == 0
    ensures FromUnit(depth, Infinite(true)) == FromF32(depth, Infinite(true))
            == if depth.Eight? then 255 else 65535
  {
  }

  // --- One type to another

  /** What a stored value is in another type. */
  function Converted(v: int, from: Depth, to: Depth): int {
    match (from, to)
    case (Eight, Sixteen) => 257 * v
    case (Sixteen, Eight) => (v + 128) / 257
    case _ => v
  }

  /** No quotient by 257, which is odd, comes near a rounding boundary. */
  lemma NoNearTie(v: int, k: int)
    ensures v as real / 257.0 - (k as real + 0.5) >= 1.0 / 514.0 || (k as real + 0.5) - v as real / 257.0 >= 1.0 / 514.0
  {
    var odd := 2 * v - 257 * (2 * k + 1);
    assert odd as real == 514.0 * (v as real / 257.0 - (k as real + 0.5));
    assert odd >= 1 || odd <= -1;
  }

  /** The quotient by 257 rounds to the integer division that adds half of it first. */
  lemma NarrowedIsNearest(v: int, q: real)
    requires 0 <= v <= 65535 && -0.001 <= q - v as real / 257.0 <= 0.001
    ensures NearestEven(q, (v + 128) / 257)
  {
    var n := (v + 128) / 257;
    NoNearTie(v, n);
    NoNearTie(v, n - 1);
    assert 257 * n <= v + 128 < 257 * n + 257;
    assert 257.0 * n as real <= v as real + 128.0 < 257.0 * n as real + 257.0;
  }

  /** Between the integer types a conversion is exact, for every value and whatever the division is off by. */
  lemma ConvertsExactly(v: int, from: Depth, to: Depth, unit: real)
    requires from.Holds(v) && ToUnit(from, v, unit)
    ensures FromUnit(to, Number(unit)) == Converted(v, from, to)
  {
    var x, n := to.Scaled(unit), Converted(v, from, to);
    assert to.Holds(n);
    match (from, to) {
      case (Sixteen, Eight) =>
        assert v as real <= 65535.0;
        NarrowedIsNearest(v, x);
      case _ =>
        assert v as real <= from.Max() as real;
    }
    RoundsToNearestEven(x, n);
  }

  /** Widening and narrowing again gives the value back; narrowing and widening again does exactly for a multiple
      of 257. */
  lemma WideningIsUndone(v: int, depth: Depth)
    requires depth.Holds(v)
    ensures depth.Eight? ==> Converted(Converted(v, Eight, Sixteen), Sixteen, Eight) == v
    ensures depth.Sixteen? ==> (Converted(Converted(v, Sixteen, Eight), Eight, Sixteen) == v <==> v % 257 == 0)
  {
    if depth.Sixteen? && v % 257 == 0 {
      assert v + 128 == 257 * (v / 257) + 128;
    }
  }

  // --- A weighted sum in fixed point

  const U32 := 0x1_0000_0000

  /** `sum / 2h` rounds to `n`: nearest, and even where two are. */
  ghost predicate QuotientNearestEven(sum: int, h: int, n: int) {
    -h <= sum - 2 * h * n <= h && ((sum - 2 * h * n == h || sum - 2 * h * n == -h) ==> n % 2 == 0)
  }

  /** The quotient by `2h` of the sum and one less than `h`, or `h` where the quotient itself is odd. */
  function AddAndShift(sum: nat, h: nat): nat
    requires h > 0
  {
    (sum + (h - 1) + sum / (2 * h) % 2) / (2 * h)
  }

  lemma QuotientOf(a: int, d: int, n: int)
    requires d > 0
    ensures d * n <= a < d * n + d ==> a / d == n
  {
    var q := a / d;
    assert a == d * q + a % d;
    if q < n {
      assert d * (q + 1) <= d * n;
    } else if q > n {
      assert d * (n + 1) <= d * q;
    }
  }

  /** Adding before the shift gives the nearest quotient, the even one of two, for every sum and every shift. */
  lemma ShiftRoundsToNearestEven(sum: nat, h: nat)
    requires h > 0
    ensures QuotientNearestEven(sum, h, AddAndShift(sum, h))
  {
    var d, low, over := 2 * h, sum / (2 * h), sum % (2 * h);
    assert sum == d * low + over;
    var added := over + (h - 1) + low % 2;
    var n := if added < d then low else low + 1;
    assert d * (low + 1) == d * low + d;
    QuotientOf(sum + (h - 1) + low % 2, d, n);
  }

  /** A sum in 32-bit arithmetic over 2¹⁶, cast to a byte. */
  function ShiftedQ16(sum: nat): nat {
    ((sum + 0x7FFF) % U32 + sum / 0x10000 % 2) % U32 / 0x10000 % 256
  }

  function WeightedSum(bytes: (nat, nat, nat), weights: (nat, nat, nat)): nat {
    bytes.0 * weights.0 + bytes.1 * weights.1 + bytes.2 * weights.2
  }

  /** Three bytes' weighted sum over 2¹⁶. */
  function WeightedSumQ16(bytes: (nat, nat, nat), weights: (nat, nat, nat)): nat {
    ShiftedQ16(WeightedSum(bytes, weights) % U32)
  }

  lemma ShiftStaysInAByte(sum: nat)
    requires sum <= 255 * 0x10000
    ensures ShiftedQ16(sum) == AddAndShift(sum, 0x8000) && sum % U32 == sum && sum + 0x7FFF + 1 < U32
  {
    assert AddAndShift(sum, 0x8000) <= 255;
  }

  lemma ProductIsAtMost(byte: nat, weight: nat)
    requires byte <= 255
    ensures byte * weight <= 255 * weight
  {
  }

  lemma SumIsAtMost(bytes: (nat, nat, nat), weights: (nat, nat, nat))
    requires bytes.0 <= 255 && bytes.1 <= 255 && bytes.2 <= 255
    ensures WeightedSum(bytes, weights) <= 255 * (weights.0 + weights.1 + weights.2)
  {
    ProductIsAtMost(bytes.0, weights.0);
    ProductIsAtMost(bytes.1, weights.1);
    ProductIsAtMost(bytes.2, weights.2);
  }

  lemma SumIsNearest(sum: nat)
    requires sum <= 255 * 0x10000
    ensures sum + 0x7FFF + 1 < U32 && QuotientNearestEven(sum, 0x8000, ShiftedQ16(sum % U32))
  {
    ShiftStaysInAByte(sum);
    ShiftRoundsToNearestEven(sum, 0x8000);
  }

  /** Each byte has the weight at its place: on its own it gives its own product, rounded. */
  lemma EachByteHasItsWeight(byte: nat, weights: (nat, nat, nat))
    requires byte <= 255 && weights.0 <= 0x10000 && weights.1 <= 0x10000 && weights.2 <= 0x10000
    ensures QuotientNearestEven(byte * weights.0, 0x8000, WeightedSumQ16((byte, 0, 0), weights))
    ensures QuotientNearestEven(byte * weights.1, 0x8000, WeightedSumQ16((0, byte, 0), weights))
    ensures QuotientNearestEven(byte * weights.2, 0x8000, WeightedSumQ16((0, 0, byte), weights))
  {
    ProductIsAtMost(byte, weights.0);
    ProductIsAtMost(byte, weights.1);
    ProductIsAtMost(byte, weights.2);
    OnlyOne(byte, weights);
    SumIsNearest(byte * weights.0);
    SumIsNearest(byte * weights.1);
    SumIsNearest(byte * weights.2);
  }

  lemma OnlyOne(byte: nat, weights: (nat, nat, nat))
    ensures WeightedSum((byte, 0, 0), weights) == byte * weights.0
    ensures WeightedSum((0, byte, 0), weights) == byte * weights.1
    ensures WeightedSum((0, 0, byte), weights) == byte * weights.2
  {
  }

  /** Bytes add up: a sum of two triples weighs what they weigh. */
  lemma WeighingAdds(a: (nat, nat, nat), b: (nat, nat, nat), weights: (nat, nat, nat))
    ensures WeightedSum((a.0 + b.0, a.1 + b.1, a.2 + b.2), weights) == WeightedSum(a, weights) + WeightedSum(b, weights)
  {
  }

  /** The sum neither overflows nor leaves a byte, and is the integer nearest to the weighted sum, the even one
      of two. */
  lemma WeightedSumIsNearest(bytes: (nat, nat, nat), weights: (nat, nat, nat))
    requires bytes.0 <= 255 && bytes.1 <= 255 && bytes.2 <= 255
    requires weights.0 <= 32767 && weights.2 <= 32767 && weights.1 <= 65534
    requires weights.0 + weights.1 + weights.2 <= 0x10000
    ensures WeightedSum(bytes, weights) + 0x7FFF + 1 < U32
    ensures QuotientNearestEven(WeightedSum(bytes, weights), 0x8000, WeightedSumQ16(bytes, weights))
  {
    SumIsAtMost(bytes, weights);
    SumIsNearest(WeightedSum(bytes, weights));
  }

  lemma SumOfGrey(grey: nat, weights: (nat, nat, nat))
    ensures WeightedSum((grey, grey, grey), weights) == grey * (weights.0 + weights.1 + weights.2)
  {
  }

  /** Weights that add up to one keep a grey. */
  lemma GreyStaysGrey(grey: nat, weights: (nat, nat, nat))
    requires grey <= 255 && weights.0 + weights.1 + weights.2 == 0x10000
    ensures WeightedSumQ16((grey, grey, grey), weights) == grey
  {
    SumOfGrey(grey, weights);
    ShiftStaysInAByte(grey * 0x10000);
  }
}
