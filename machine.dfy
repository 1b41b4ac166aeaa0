/** Fixed-width C++ integer arithmetic, as the driver's compensation code uses it.
    Values are unbounded Dafny integers; each width is a subset type, and every
    operation whose C++ result depends on the width is written out here. */
module Machine {
  import opened Errors

  type Pos = x: int | x >= 1 witness 1

  type Byte = x: int | 0 <= x < 0x100
  type Int8 = x: int | -0x80 <= x < 0x80
  type UInt16 = x: int | 0 <= x < 0x1_0000
  type Int16 = x: int | -0x8000 <= x < 0x8000
  type UInt32 = x: int | 0 <= x < 0x1_0000_0000
  type Int32 = x: int | -0x8000_0000 <= x < 0x8000_0000
  type Int64 = x: int | -0x8000_0000_0000_0000 <= x < 0x8000_0000_0000_0000

  const TWO_32: Pos := 0x1_0000_0000
  const TWO_64: Pos := 0x1_0000_0000_0000_0000

  /** 2^k for the shift amounts the compensation formulas use (at most 47). */
  function Pow2(k: nat): Pos
    requires k <= 47
  {
    match k
      case 0 => 0x1
      case 1 => 0x2
      case 2 => 0x4
      case 3 => 0x8
      case 4 => 0x10
      case 5 => 0x20
      case 6 => 0x40
      case 7 => 0x80
      case 8 => 0x100
      case 9 => 0x200
      case 10 => 0x400
      case 11 => 0x800
      case 12 => 0x1000
      case 13 => 0x2000
      case 14 => 0x4000
      case 15 => 0x8000
      case 16 => 0x10000
      case 17 => 0x20000
      case 18 => 0x40000
      case 19 => 0x80000
      case 20 => 0x100000
      case 21 => 0x200000
      case 22 => 0x400000
      case 23 => 0x800000
      case 24 => 0x1000000
      case 25 => 0x2000000
      case 26 => 0x4000000
      case 27 => 0x8000000
      case 28 => 0x10000000
      case 29 => 0x20000000
      case 30 => 0x40000000
      case 31 => 0x80000000
      case 32 => 0x100000000
      case 33 => 0x200000000
      case 34 => 0x400000000
      case 35 => 0x800000000
      case 36 => 0x1000000000
      case 37 => 0x2000000000
      case 38 => 0x4000000000
      case 39 => 0x8000000000
      case 40 => 0x10000000000
      case 41 => 0x20000000000
      case 42 => 0x40000000000
      case 43 => 0x80000000000
      case 44 => 0x100000000000
      case 45 => 0x200000000000
      case 46 => 0x400000000000
      case 47 => 0x800000000000
  }

  predicate InInt32(x: int) { -0x8000_0000 <= x < 0x8000_0000 }
  predicate InInt64(x: int) { -0x8000_0000_0000_0000 <= x < 0x8000_0000_0000_0000 }

  lemma MulGrows(r: int, d: Pos)
    ensures 0 <= r ==> r <= r * d
    ensures r <= 0 ==> r * d <= r
  {
  }

  /** A product of two bounded factors is bounded by the product of the bounds. */
  lemma MulBound(a: int, b: int, bound: int, bound': int)
    requires -bound <= a <= bound && -bound' <= b <= bound'
    ensures -(bound * bound') <= a * b <= bound * bound'
  {
    var x, y := Abs(a), Abs(b);
    assert Abs(a * b) == x * y;
    MulMono(x, y, bound, bound');
  }

  lemma MulMono(x: nat, y: nat, u: nat, v: nat)
    requires x <= u && y <= v
    ensures x * y <= u * v
  {
    assert x * y <= u * y;
    assert u * y <= u * v;
  }

  /** Quotient and remainder of q·d + r for a remainder in [0, d). */
  lemma DivModOfSum(q: int, r: int, d: Pos)
    requires 0 <= r < d
    ensures (q * d + r) / d == q && (q * d + r) % d == r
  {
    var a := q * d + r;
    var k := a / d - q;
    assert k * d == r - a % d by {
      assert a == (a / d) * d + a % d;
      assert (a / d) * d == k * d + q * d;
    }
    if k >= 1 {
      assert k * d == (k - 1) * d + d;
      MulGrows(k - 1, d);
    } else if k <= -1 {
      assert k * d == (k + 1) * d - d;
      MulGrows(k + 1, d);
    }
  }

  /** Dafny's `/` by a positive divisor is floor division. */
  lemma DivBounds(x: int, d: Pos)
    ensures (x / d) * d <= x < (x / d) * d + d
    ensures 0 <= x ==> 0 <= x / d <= x
    ensures x < 0 ==> x <= x / d < 0
  {
    var r := x / d;
    assert r * d <= x < r * d + d;
    assert r * d + d == (r + 1) * d;
    MulGrows(r, d);
    MulGrows(r + 1, d);
  }

  /** Dividing by a larger divisor gives no larger a quotient. */
  lemma DivByLarger(x: nat, d: Pos, e: Pos)
    requires e <= d
    ensures x / d <= x / e
  {
    var q := x / d;
    DivBounds(x, d);
    DivBounds(x, e);
    MulMono(q, e, q, d);
    if q > x / e {
      MulMono(x / e + 1, e, q, e);
    }
  }

  /** `x >> k` on a signed value: an arithmetic shift, which rounds towards minus infinity. */
  function Asr(x: int, k: nat): (r: int)
    requires k <= 47
    ensures r * Pow2(k) <= x < r * Pow2(k) + Pow2(k)
    ensures 0 <= x ==> 0 <= r <= x
    ensures x < 0 ==> x <= r < 0
  {
    DivBounds(x, Pow2(k));
    x / Pow2(k)
  }

  function Abs(x: int): nat { if x < 0 then -x else x }

  /** C++ `/` on integers: the quotient is truncated towards zero. */
  function TDiv(a: int, b: int): (q: int)
    requires b != 0
    ensures Abs(q) == Abs(a) / Abs(b)
    ensures q == 0 || ((q > 0) <==> ((a > 0) == (b > 0)))
  {
    var m := Abs(a) / Abs(b);
    DivBounds(Abs(a), Abs(b));
    if (a < 0) == (b < 0) then m else -m
  }

  /** Conversion of any integer to `uint32_t`: reduction modulo 2^32. */
  function ToUInt32(x: int): (r: UInt32)
    ensures (x - r) % TWO_32 == 0
    ensures 0 <= x < TWO_32 ==> r == x
  {
    x % TWO_32
  }

  /** Conversion of any integer to `int32_t` (two's complement, modulo 2^32). */
  function ToInt32(x: int): (r: Int32)
    ensures (x - r) % TWO_32 == 0
    ensures InInt32(x) ==> r == x
  {
    var m := x % TWO_32;
    if m < 0x8000_0000 then m else m - TWO_32
  }

  /** Conversion of any integer to `int64_t` (two's complement, modulo 2^64). */
  function ToInt64(x: int): (r: Int64)
    ensures (x - r) % TWO_64 == 0
    ensures InInt64(x) ==> r == x
  {
    var m := x % TWO_64;
    if m < 0x8000_0000_0000_0000 then m else m - TWO_64
  }

  /** A signed `int32_t` result: overflow is undefined behaviour in C++, so it has no value here. */
  function I32(x: int): (r: Result<Int32>)
    ensures r.Ok? <==> InInt32(x)
    ensures r.Ok? ==> r.value == x
    ensures r.Err? ==> r.error == Overflow
  {
    if InInt32(x) then Ok(x) else Err(Overflow)
  }

  /** A signed `int64_t` result, as I32. */
  function I64(x: int): (r: Result<Int64>)
    ensures r.Ok? <==> InInt64(x)
    ensures r.Ok? ==> r.value == x
    ensures r.Err? ==> r.error == Overflow
  {
    if InInt64(x) then Ok(x) else Err(Overflow)
  }

  /** `x << k` on a signed `int32_t`, with the C++20 meaning (multiply by 2^k, wrap to the width). */
  function Shl32(x: Int32, k: nat): (r: Int32)
    requires k < 32
    ensures (x * Pow2(k) - r) % TWO_32 == 0
    ensures InInt32(x * Pow2(k)) ==> r == x * Pow2(k)
  {
    ToInt32(x * Pow2(k))
  }

  /** `x << k` on a signed `int64_t`, as Shl32. */
  function Shl64(x: Int64, k: nat): (r: Int64)
    requires k <= 47
    ensures (x * Pow2(k) - r) % TWO_64 == 0
    ensures InInt64(x * Pow2(k)) ==> r == x * Pow2(k)
  {
    ToInt64(x * Pow2(k))
  }

  /** `a / b` on `int64_t`: truncating, undefined for a zero divisor and for MIN / -1. */
  function Div64(a: Int64, b: Int64): (r: Result<Int64>)
    ensures b == 0 ==> r == Err(DivisionByZero)
    ensures b != 0 ==> r == I64(TDiv(a, b))
    ensures r.Ok? ==> b != 0 && r.value == TDiv(a, b)
  {
    if b == 0 then Err(DivisionByZero) else I64(TDiv(a, b))
  }

  /** Truncating and floor division agree on a non-negative dividend and a positive divisor. */
  lemma TDivOfNonNegative(a: nat, b: Pos)
    ensures TDiv(a, b) == a / b
  {
  }

  /** ... and differ otherwise: C++ gives -1 / 256 == 0 where floor division gives -1. */
  lemma TDivIsNotFloor()
    ensures TDiv(-1, 256) == 0 && -1 / 256 == -1
  {
  }
}
