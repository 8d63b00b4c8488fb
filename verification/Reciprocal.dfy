/** Division by a precomputed reciprocal (rte_reciprocal.h) is exact. */
module Reciprocal {
  import opened Words

  /** struct rte_reciprocal and rte_reciprocal_u64 */
  datatype Recip = Recip(m: nat, sh1: nat, sh2: nat)

  /** R is a reciprocal of d for `bits`-bit dividends: the relation of section 4 of Granlund and
      Montgomery, "Division by Invariant Integers Using Multiplication", for 2^bits + m. */
  ghost predicate ReciprocalOf(R: Recip, d: nat, bits: nat, l: nat) {
    && 0 < d && R.m < Pow2(bits)
    && Pow2(bits) * Pow2(l) <= (Pow2(bits) + R.m) * d <= Pow2(bits) * Pow2(l) + Pow2(l)
    && R.sh1 == (if l < 1 then l else 1) && R.sh2 == l - R.sh1
  }

  // ---------------------------------------------------------------- the operations

  function Low(x: int, bits: nat): (r: nat)
    ensures r < Pow2(bits)
  {
    x % Pow2(bits)
  }

  /** a - b on unsigned words. */
  function Minus(a: nat, b: nat, bits: nat): (r: nat)
    requires b < Pow2(bits)
    ensures r < Pow2(bits)
  {
    (a + Pow2(bits) - b) % Pow2(bits)
  }

  /** The last line of both divide functions: (t + ((a - t) >> sh1)) >> sh2. */
  function Finish(a: nat, t: nat, R: Recip, bits: nat): nat
    requires t < Pow2(bits)
  {
    Low(t + Minus(a, t, bits) / Pow2(R.sh1), bits) / Pow2(R.sh2)
  }

  /** rte_reciprocal_divide */
  function Divide(a: nat, R: Recip): nat {
    Finish(a, Low(a * R.m / Pow2(32), 32), R, 32)
  }

  /** mullhi_u64, the form without 128-bit integers. */
  method MulHi(x: nat, y: nat) returns (whi: nat)
    requires x < Pow2(64) && y < Pow2(64)
    ensures whi == x * y / Pow2(64)
  {
    SixtyFour();
    var u1, u0 := x / W, x % W;
    var v1, v0 := y / W, y % W;
    Product(u0, v0, 0);
    var t := Low(u0 * v0, 64);
    var k := t / W;
    Product(u1, v0, k);
    t := Low(Low(u1 * v0, 64) + k, 64);
    var w1, w2 := t % W, t / W;
    Product(u0, v1, w1);
    t := Low(Low(u0 * v1, 64) + w1, 64);
    var k2 := t / W;
    HighHalf(x, y, u1, u0, v1, v0, k, w1, w2, k2);
    whi := Low(Low(u1 * v1, 64) + w2 + k2, 64);
  }

  /** rte_reciprocal_divide_u64 */
  method Divide64(a: nat, R: Recip, ghost d: nat, ghost l: nat) returns (q: nat)
    requires a < Pow2(64) && ReciprocalOf(R, d, 64, l)
    ensures q == a / d
  {
    var t := MulHi(a, R.m);
    BelowBoth(a, R.m, Pow2(64));
    FinishIsExact(a, t, R, d, 64, l);
    q := Finish(a, t, R, 64);
  }

  // ---------------------------------------------------------------- mullhi_u64

  lemma SixtyFour()
    ensures Pow2(64) == W * W
  {
    Pow2Is32();
    Pow2Sum(32, 32);
  }

  /** A product of two halves plus a half never overflows. */
  lemma Product(u: nat, v: nat, c: nat)
    requires u < W && v < W && c < W
    ensures 0 <= u * v && u * v + c < W * W
    ensures Low(u * v, 64) == u * v && Low(Low(u * v, 64) + c, 64) == u * v + c
  {
    SixtyFour();
    MulLe(u, W - 1, v, W - 1);
    assert 0 <= u * v by { MulLe(0, u, 0, v); }
    LowId(u * v, 64);
    LowId(u * v + c, 64);
  }

  lemma LowId(x: int, bits: nat)
    requires 0 <= x < Pow2(bits)
    ensures Low(x, bits) == x
  {
    ModUnique(x, 0, x, Pow2(bits));
  }

  lemma MulLe(a: nat, b: nat, c: nat, d: nat)
    requires a <= b && c <= d
    ensures a * c <= b * d
  {
    assert b * d == a * c + (b - a) * c + b * (d - c);
  }

  /** The four partial products, added up with their carries. */
  lemma HighHalf(x: nat, y: nat, u1: nat, u0: nat, v1: nat, v0: nat, k: nat, w1: nat, w2: nat, k2: nat)
    requires x == u1 * W + u0 && y == v1 * W + v0 && u1 < W && u0 < W && v1 < W && v0 < W
    requires k == u0 * v0 / W && w1 == (u1 * v0 + k) % W && w2 == (u1 * v0 + k) / W && k2 == (u0 * v1 + w1) / W
    ensures u1 * v1 + w2 + k2 == x * y / Pow2(64)
    ensures Low(Low(u1 * v1, 64) + w2 + k2, 64) == u1 * v1 + w2 + k2
  {
    SixtyFour();
    Expand(u1, u0, v1, v0);
    var h := Carries(x * y, u1 * v1, u1 * v0, u0 * v1, u0 * v0, k, w1, w2, k2);
    Product(u1, v1, 0);
    HighBound(x, y, h);
    LowId(h, 64);
  }

  lemma Carries(xy: int, hh: int, hl: int, lh: int, ll: int, k: int, w1: int, w2: int, k2: int) returns (h: int)
    requires xy == hh * (W * W) + (hl + lh) * W + ll
    requires k == ll / W && w1 == (hl + k) % W && w2 == (hl + k) / W && k2 == (lh + w1) / W
    ensures h == hh + w2 + k2 && xy / (W * W) == h && h * (W * W) <= xy
  {
    h := hh + w2 + k2;
    var low := ((lh + w1) % W) * W + ll % W;
    assert xy == h * (W * W) + low;
    ModUnique(xy, h, low, W * W);
  }

  lemma HighBound(x: nat, y: nat, h: int)
    requires x < W * W && y < W * W && h * (W * W) <= x * y
    ensures h < W * W
  {
    MulLe(x, W * W - 1, y, W * W - 1);
  }

  lemma Expand(u1: nat, u0: nat, v1: nat, v0: nat)
    ensures (u1 * W + u0) * (v1 * W + v0) == u1 * v1 * (W * W) + (u1 * v0 + u0 * v1) * W + u0 * v0
  {
  }

  // ---------------------------------------------------------------- exactness

  /** rte_reciprocal_divide computes a / d for every 32-bit a. */
  lemma DivideIsExact(a: nat, R: Recip, d: nat, l: nat)
    requires a < Pow2(32) && ReciprocalOf(R, d, 32, l)
    ensures Divide(a, R) == a / d
  {
    BelowBoth(a, R.m, Pow2(32));
    var t: nat := a * R.m / Pow2(32);
    LowId(t, 32);
    FinishIsExact(a, t, R, d, 32, l);
  }

  lemma BelowBoth(a: nat, m: nat, B: nat)
    requires a < B && m < B
    ensures 0 <= a * m / B <= a && a * m / B < B
  {
    MulLe(0, a, 0, m);
    MulLe(a, a, m, B);
    DivLe(a * m, a, B);
  }

  lemma DivLe(x: nat, q: nat, B: nat)
    requires B > 0 && x <= q * B
    ensures x / B <= q
  {
    assert x / B * B <= x;
    CancelLess(x / B, q + 1, B);
  }

  lemma CancelLess(x: int, y: int, d: nat)
    requires x * d < y * d
    ensures x < y
  {
    if x >= y { MulMono(y, x, d); }
  }

  /** The final shifts never overflow: one half, then the rest ... */
  lemma ShiftedOnce(a: nat, t: nat, R: Recip, bits: nat, p: nat)
    requires t <= a < Pow2(bits) && R.sh1 == 1 && p == Pow2(R.sh2)
    ensures t + (a - t) / Pow2(R.sh1) < Pow2(bits)
    ensures Finish(a, t, R, bits) == (a + t) / (2 * p)
  {
    MinusId(a, t, bits);
    assert Pow2(1) == 2;
    var s := t + (a - t) / 2;
    assert s == (a + t) / 2;
    LowId(s, bits);
    DivTwice(a + t, 2, p);
  }

  /** ... or no shift at all. */
  lemma NotShifted(a: nat, R: Recip, bits: nat)
    requires a < Pow2(bits) && R.sh1 == 0 && R.sh2 == 0
    ensures Finish(a, 0, R, bits) == a
  {
    MinusId(a, 0, bits);
    assert Pow2(0) == 1;
    LowId(a, bits);
  }

  lemma FinishIsShift(a: nat, t: nat, R: Recip, bits: nat, l: nat)
    requires t <= a < Pow2(bits) && R.sh1 == (if l < 1 then l else 1) && R.sh2 == l - R.sh1
    requires l == 0 ==> t == 0
    ensures t + (a - t) / Pow2(R.sh1) < Pow2(bits)
    ensures Finish(a, t, R, bits) == (a + t) / Pow2(l)
  {
    if l > 0 { ShiftedOnce(a, t, R, bits, Pow2(l - 1)); } else { NotShifted(a, R, bits); }
  }

  lemma MinusId(a: nat, t: nat, bits: nat)
    requires t <= a < Pow2(bits)
    ensures Minus(a, t, bits) == a - t
  {
    ModUnique(a + Pow2(bits) - t, 1, a - t, Pow2(bits));
  }

  /** They give the quotient. */
  lemma FinishIsExact(a: nat, t: nat, R: Recip, d: nat, bits: nat, l: nat)
    requires a < Pow2(bits) && ReciprocalOf(R, d, bits, l) && t == a * R.m / Pow2(bits) && t <= a
    ensures t + (a - t) / Pow2(R.sh1) < Pow2(bits)
    ensures Finish(a, t, R, bits) == a / d
  {
    var B, L := Pow2(bits), Pow2(l);
    if l == 0 { NoShift(a, R.m, d, B); }
    FinishIsShift(a, t, R, bits, l);
    ScaledQuotient(a, t, R.m, d, B, L);
  }

  lemma ScaledQuotient(a: nat, t: nat, m: nat, d: nat, B: nat, L: nat)
    requires a < B && d > 0 && L > 0 && t == a * m / B && B * L <= (B + m) * d <= B * L + L
    ensures (a + t) / L == a / d
  {
    AddHigh(a, m, B);
    MulMono2(a, 0, B + m);
    DivTwice(a * (B + m), B, L);
    QuotientExact(a, d, B + m, B, L);
  }

  /** Without shifts the divisor is 1 and the multiplication contributes nothing. */
  lemma NoShift(a: nat, m: nat, d: nat, B: nat)
    requires a < B && d > 0 && (B + m) * d <= B + 1
    ensures a * m / B == 0
  {
    if B > 1 {
      assert d == 1 by { if d >= 2 { MulLe(B + m, B + m, 2, d); } }
      assert a * m <= a by { MulLe(a, a, m, 1); }
      ModUnique(a * m, 0, a * m, B);
    }
  }

  lemma AddHigh(a: nat, m: nat, B: nat)
    requires B > 0
    ensures a + a * m / B == a * (B + m) / B
  {
    var q, r := a * m / B, a * m % B;
    assert a * (B + m) == a * B + a * m;
    assert a * (B + m) == (a + q) * B + r;
    ModUnique(a * (B + m), a + q, r, B);
  }

  lemma DivTwice(x: nat, b: nat, c: nat)
    requires b > 0 && c > 0
    ensures b * c > 0 && x / b / c == x / (b * c)
  {
    MulMono(1, b, c);
    var q, r := x / b, x % b;
    var p, s := q / c, q % c;
    assert x == (p * c + s) * b + r;
    assert (p * c + s) * b == p * (b * c) + s * b;
    MulMono(s + 1, c, b);
    assert (s + 1) * b == s * b + b;
    ModUnique(x, p, s * b + r, b * c);
  }

  /** The scaled multiplication is exact when the error of the reciprocal is at most L. */
  lemma QuotientExact(n: nat, d: nat, M: nat, B: nat, L: nat)
    requires d > 0 && L > 0 && n < B && B * L <= M * d <= B * L + L
    ensures B * L > 0 && n * M / (B * L) == n / d
  {
    var q, S := n / d, B * L;
    MulMono(1, B, L);
    assert q * S <= n * M by {
      MulLe(q, q, S, M * d);
      assert q * (M * d) == (q * d) * M;
      MulLe(q * d, n, M, M);
    }
    assert n * M < (q + 1) * S by {
      UpperBound(n, d, M, B, L, q);
    }
    assert (q + 1) * S == q * S + S;
    ModUnique(n * M, q, n * M - q * S, S);
  }

  lemma UpperBound(n: nat, d: nat, M: nat, B: nat, L: nat, q: nat)
    requires d > 0 && L > 0 && n < B && M * d <= B * L + L && n + 1 <= (q + 1) * d
    ensures n * M < (q + 1) * (B * L)
  {
    var S, e := B * L, (q + 1) * d;
    MulMono(n + 1, B, L);
    assert (n + 1) * L == n * L + L;
    MulMono(n + 1, e, S);
    assert (n + 1) * S == n * S + S;
    MulMono2(n, M * d, S + L);
    assert n * (S + L) == n * S + n * L;
    assert n * (M * d) < e * S;
    Swap(n, M, d, q + 1, S);
    CancelLess(n * M, (q + 1) * S, d);
  }

  lemma MulMono2(n: nat, a: int, b: int)
    requires a <= b
    ensures n * a <= n * b
  {
  }

  lemma Swap(n: int, M: int, d: int, p: int, S: int)
    ensures n * (M * d) == (n * M) * d && (p * d) * S == (p * S) * d
  {
  }

  // ---------------------------------------------------------------- such reciprocals exist

  /** The usual choice of m, with 2^l the least power of two that is not below d. */
  lemma ReciprocalExists(d: nat, bits: nat, l: nat) returns (R: Recip)
    requires bits > 0 && 0 < d <= Pow2(bits) && d <= Pow2(l) && (l > 0 ==> Pow2(l - 1) < d)
    ensures R.m == Pow2(bits) * (Pow2(l) - d) / d + 1
    ensures ReciprocalOf(R, d, bits, l)
  {
    assert Pow2(1) == 2;
    var m := Choice(d, Pow2(bits), Pow2(l));
    R := Recip(m, if l < 1 then l else 1, if l < 1 then 0 else l - 1);
  }

  lemma Choice(d: nat, B: nat, L: nat) returns (m: nat)
    requires 2 <= B && 0 < d <= B && d <= L && (L == 1 || L <= 2 * d - 2)
    ensures m == B * (L - d) / d + 1
    ensures m < B && B * L <= (B + m) * d <= B * L + L
  {
    MulMono2(B, 0, L - d);
    var x: nat := B * (L - d);
    QuotientBounds(x, d);
    var q := x / d;
    RelationHolds(B, L, d, q);
    if L > 1 { SmallFactor(d, B, L, q); } else { assert x == 0; }
    m := q + 1;
  }

  lemma QuotientBounds(x: nat, d: nat)
    requires d > 0
    ensures 0 <= x / d && x / d * d <= x < x / d * d + d
  {
  }

  lemma RelationHolds(B: nat, L: nat, d: nat, q: nat)
    requires d <= L && q * d <= B * (L - d) < q * d + d
    ensures B * L <= (B + q + 1) * d <= B * L + L
  {
    assert B * (L - d) == B * L - B * d;
    assert (B + q + 1) * d == B * d + q * d + d;
  }

  lemma SmallFactor(d: nat, B: nat, L: nat, q: nat)
    requires L <= 2 * d - 2 && d <= B && q * d <= B * (L - d)
    ensures q + 1 < B
  {
    MulMono2(B, L - d, d - 2);
    assert B * (d - 2) == B * d - 2 * B;
    assert (B - 1) * d == B * d - d;
    CancelLess(q, B - 1, d);
  }
}
