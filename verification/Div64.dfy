/** 64-bit division by shifting and subtracting. */
module Div64 {

  function Pow2(n: nat): (r: nat)
    ensures r > 0
  {
    if n == 0 then 1 else 2 * Pow2(n - 1)
  }

  const LIMIT: int := Pow2(64)
  const HALF: int := Pow2(63)

  // ----- Shifts and bits -----

  /** `n >> k`. */
  function High(n: nat, k: nat): nat {
    if k == 0 then n else High(n, k - 1) / 2
  }

  /** `x << k`, without loss. */
  function Shifted(x: nat, k: nat): nat
    decreases k
  {
    if k == 0 then x else Shifted(2 * x, k - 1)
  }

  function Bit(n: nat, i: nat): (b: nat)
    ensures b < 2
  {
    High(n, i) % 2
  }

  /** `q | (1 << i)`. */
  function SetBit(q: nat, i: nat): nat {
    if Bit(q, i) == 1 then q else q + Pow2(i)
  }

  /** `r << 1` in 64 bits. */
  function ShiftLeft(r: nat): nat {
    if 2 * r < LIMIT then 2 * r else 2 * r - LIMIT
  }

  lemma {:induction false} HighSmall(n: nat, m: nat, k: nat)
    requires n < Pow2(m) && k <= m
    ensures High(n, k) < Pow2(m - k)
  {
    if k > 0 {
      HighSmall(n, m, k - 1);
    }
  }

  lemma {:induction false} Monotone(a: nat, b: nat)
    requires a <= b
    ensures Pow2(a) <= Pow2(b)
  {
    if a < b {
      Monotone(a, b - 1);
    }
  }

  lemma {:induction false} HighOfShifted(x: nat, k: nat)
    ensures High(Shifted(x, k), k) == x
    decreases k
  {
    if k > 0 {
      HighOfShifted(2 * x, k - 1);
    }
  }

  lemma {:induction false} ShiftedNext(x: nat, k: nat)
    ensures Shifted(x + 1, k) == Shifted(x, k) + Pow2(k)
    decreases k
  {
    if k > 0 {
      ShiftedNext(2 * x, k - 1);
      ShiftedNext(2 * x + 1, k - 1);
    }
  }

  /** Setting the bit below the quotient found so far appends a 1 to it. */
  lemma AppendOne(x: nat, i: nat)
    ensures SetBit(Shifted(x, i + 1), i) == Shifted(2 * x + 1, i)
  {
    HighOfShifted(2 * x, i);
    ShiftedNext(2 * x, i);
  }

  lemma {:induction false} ShiftedZero(k: nat)
    ensures Shifted(0, k) == 0
  {
    if k > 0 {
      ShiftedZero(k - 1);
    }
  }

  /** The partial remainder always has room for one more bit. */
  lemma RoomToShift(n: nat, i: nat, r: nat)
    requires n < LIMIT && i < 64 && r <= High(n, i + 1)
    ensures 2 * r + 1 < LIMIT
  {
    HighSmall(n, 64, i + 1);
    Monotone(63 - i, 63);
    assert LIMIT == 2 * HALF;
  }

  // ----- Division -----

  lemma AppendDigit(q: nat, d: nat, b: nat)
    requires b < 2
    ensures (2 * q + b) * d == 2 * (q * d) + (if b == 1 then d else 0)
  {
  }

  lemma MulLe(a: nat, b: nat, d: nat)
    requires a <= b
    ensures a * d <= b * d
  {
    assert b * d == a * d + (b - a) * d;
  }

  /** Long division is exact; the shift never loses a bit, however large the divisor. */
  method Udivmod64(n: nat, d: nat) returns (q: nat, r: nat)
    requires n < LIMIT && d < LIMIT
    ensures d == 0 ==> q == 0 && r == 0
    ensures d != 0 ==> n == q * d + r && r < d
    ensures q <= n && r <= n
  {
    q, r := 0, 0;
    if d == 0 {
      return;
    }
    ghost var digits: nat, product: nat := 0, 0;
    HighSmall(n, 64, 64);
    ShiftedZero(64);
    var i := 63;
    while i >= 0
      invariant -1 <= i <= 63 && r < d
      invariant q == Shifted(digits, i + 1) && digits <= product
      invariant High(n, i + 1) == product + r && product == digits * d
      decreases i
    {
      RoomToShift(n, i, r);
      AppendOne(digits, i);
      r := ShiftLeft(r) + Bit(n, i);
      if r >= d {
        r := r - d;
        q := SetBit(q, i);
        AppendDigit(digits, d, 1);
        digits, product := 2 * digits + 1, 2 * product + d;
      } else {
        AppendDigit(digits, d, 0);
        digits, product := 2 * digits, 2 * product;
      }
      i := i - 1;
    }
  }

  lemma QuotientIs(n: nat, d: nat, q: nat, r: nat)
    requires d > 0 && n == q * d + r && r < d
    ensures n / d == q && n % d == r
  {
    var a := n / d;
    if a > q {
      AddOne(q, d);
      MulLe(q + 1, a, d);
    } else if a < q {
      AddOne(a, d);
      MulLe(a + 1, q, d);
    }
  }

  lemma AddOne(a: nat, d: nat)
    ensures (a + 1) * d == a * d + d
  {
  }

  // ----- Signed division -----

  function Abs(x: int): nat {
    if x < 0 then -x else x
  }

  /** The quotient rounded towards zero. */
  function Truncated(n: int, d: int): int
    requires d != 0
  {
    var q: int := Abs(n) / Abs(d);
    if (n < 0) != (d < 0) then -q else q
  }

  /** A 64-bit pattern read as a signed number. */
  function Signed(u: nat): int {
    if u >= HALF then u - LIMIT else u
  }

  /** Signed negation, which leaves the least number as it is. */
  function Negate(x: int): int {
    if x == -HALF then x else -x
  }

  method Uabs64(x: int) returns (u: nat)
    requires -HALF <= x < HALF
    ensures u == Abs(x)
  {
    if x < 0 {
      u := -(x + 1) + 1;
    } else {
      u := x;
    }
  }

  /** Signed division truncates, except that the one quotient too large for 64 bits comes out negative. */
  method Divdi3(n: int, d: int) returns (r: int)
    requires -HALF <= n < HALF && -HALF <= d < HALF
    ensures d == 0 ==> r == 0
    ensures d != 0 ==> (r == Truncated(n, d) <==> !(n == -HALF && d == -1))
    ensures n == -HALF && d == -1 ==> r == -HALF
  {
    assert LIMIT == 2 * HALF;
    var a := Uabs64(n);
    var b := Uabs64(d);
    var q, m := Udivmod64(a, b);
    if d != 0 {
      QuotientIs(a, b, q, m);
      LargeQuotient(a, b, q, m);
    }
    if (n < 0) != (d < 0) {
      r := Negate(Signed(q));
    } else {
      r := Signed(q);
    }
  }

  /** Only a divisor of 1 leaves the quotient as large as the dividend. */
  lemma LargeQuotient(n: nat, d: nat, q: nat, r: nat)
    requires d > 0 && n == q * d + r && r < d
    ensures d == 1 ==> q == n
    ensures d >= 2 && n > 0 ==> q < n
  {
    if d >= 2 {
      MulLe(2, d, q);
    }
  }

  /** The remainder has the sign of the dividend and completes the truncated quotient. */
  method Moddi3(n: int, d: int) returns (r: int)
    requires -HALF <= n < HALF && -HALF <= d < HALF
    ensures d == 0 ==> r == 0
    ensures d != 0 ==> n == Truncated(n, d) * d + r && Abs(r) < Abs(d) && (r > 0 ==> n > 0) && (r < 0 ==> n < 0)
  {
    assert LIMIT == 2 * HALF;
    var a := Uabs64(n);
    var b := Uabs64(d);
    var q, m := Udivmod64(a, b);
    if d != 0 {
      QuotientIs(a, b, q, m);
      SignedParts(n, d, q, m);
    }
    if n < 0 {
      r := Negate(Signed(m));
    } else {
      r := Signed(m);
    }
  }

  lemma SignedParts(n: int, d: int, q: int, m: int)
    requires d != 0 && Abs(n) == q * Abs(d) + m && 0 <= m < Abs(d) && q == Abs(n) / Abs(d)
    ensures n == Truncated(n, d) * d + (if n < 0 then -m else m)
  {
    assert (-q) * d == -(q * d) && q * (-d) == -(q * d);
  }
}
