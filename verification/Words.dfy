/** 32-bit words, and the unbounded position that each ring counter stands for. */
module Words {

  const W: int := 0x1_0000_0000

  /** A counter as the code stores it (`word`) beside the position it stands for (`pos`). */
  datatype Ctr = Ctr(word: nat, pos: nat)

  type Counter = c: Ctr | c.word == c.pos % W witness Ctr(0, 0)

  const ZERO: Counter := Ctr(0, 0)

  /** The counter that stands for a position. */
  function At(pos: nat): Counter { Ctr(pos % W, pos) }

  /** The code's `c + n` on a 32-bit counter. */
  function Advance(c: Counter, n: nat): (r: Counter)
    ensures r.pos == c.pos + n
  {
    Ctr((c.word + n) % W, c.pos + n)
  }

  /** The code's `a - b` on 32-bit values. */
  function Sub(a: int, b: int): (r: nat)
    ensures r < W
  {
    (a - b) % W
  }

  lemma ModShift(x: int, k: int)
    ensures (x + k * W) % W == x % W
  {
  }

  /** The 32-bit difference of two counters is the difference of their positions, reduced. */
  lemma SubIsExact(off: nat, a: Counter, b: Counter)
    ensures Sub(off + a.word, b.word) == (off + a.pos - b.pos) % W
    ensures 0 <= off + a.pos - b.pos < W ==> Sub(off + a.word, b.word) == off + a.pos - b.pos
  {
    var qa, qb := a.pos / W, b.pos / W;
    assert off + a.pos - b.pos == (off + a.word - b.word) + (qa - qb) * W;
    ModShift(off + a.word - b.word, qa - qb);
  }

  /** Two counters less than a full turn apart agree as words exactly when they agree as positions. */
  lemma SameWord(a: Counter, b: Counter)
    requires -W < a.pos - b.pos < W
    ensures a.word == b.word <==> a == b
  {
    if a.word == b.word {
      assert a.pos - b.pos == (a.pos / W - b.pos / W) * W;
    }
  }

  function Pow2(k: nat): (r: nat)
    ensures r > 0
  {
    if k == 0 then 1 else 2 * Pow2(k - 1)
  }

  lemma Pow2Sum(a: nat, b: nat)
    ensures Pow2(a + b) == Pow2(a) * Pow2(b)
  {
    if a > 0 { Pow2Sum(a - 1, b); }
  }

  lemma Pow2Is32()
    ensures Pow2(32) == W && Pow2(31) == 0x8000_0000
  {
    assert Pow2(8) == 256;
    Pow2Sum(8, 8);
    Pow2Sum(16, 16);
  }

  /** p reduced to a slot index; the code masks with size - 1. */
  function Wrap(p: nat, size: nat): (r: nat)
    requires size > 0
    ensures r < size
  {
    if p < size then p else Wrap(p - size, size)
  }

  lemma WrapIsMod(p: nat, size: nat)
    requires size > 0
    ensures Wrap(p, size) == p % size
  {
    if p >= size {
      WrapIsMod(p - size, size);
      ModCancel(p - size, 1, size);
    }
  }

  /** Masking a word agrees with masking its position, because ring sizes divide 2^32. */
  lemma WrapWord(c: Counter, i: nat, order: nat)
    requires order <= 32
    ensures Wrap(c.word + i, Pow2(order)) == Wrap(c.pos + i, Pow2(order))
  {
    var m := Pow2(32 - order);
    Pow2Sum(32 - order, order);
    Pow2Is32();
    WrapMultiple(c.word + i, c.pos / W * m, Pow2(order));
    Regroup(c.pos / W, m, Pow2(order));
    assert c.pos + i == (c.word + i) + c.pos / W * W;
  }

  lemma Regroup(q: nat, m: nat, d: nat)
    ensures q * (m * d) == (q * m) * d
  {
  }

  lemma WrapMultiple(x: nat, k: nat, size: nat)
    requires size > 0
    ensures Wrap(x + k * size, size) == Wrap(x, size)
  {
    if k > 0 {
      assert k * size == (k - 1) * size + size;
      WrapMultiple(x, k - 1, size);
    }
  }

  lemma ModCancel(x: int, k: int, d: nat)
    requires d > 0
    ensures (x + k * d) % d == x % d
  {
    var q := x / d;
    assert x + k * d == (q + k) * d + x % d;
    ModUnique(x + k * d, q + k, x % d, d);
  }

  lemma ModUnique(x: int, q: int, r: int, d: nat)
    requires d > 0 && x == q * d + r && 0 <= r < d
    ensures x % d == r && x / d == q
  {
    var q', r' := x / d, x % d;
    assert x == q' * d + r';
    assert (q - q') * d == r' - r;
    if q > q' { MulMono(1, q - q', d); } else if q < q' { MulMono(1, q' - q, d); }
  }

  lemma MulMono(a: int, b: int, d: nat)
    requires a <= b
    ensures a * d <= b * d
  {
  }

  /** Positions in one window no longer than the ring use different slots. */
  lemma SlotsDistinct(p: nat, q: nat, size: nat)
    requires size > 0 && Wrap(p, size) == Wrap(q, size) && -(size as int) < p - q < size
    ensures p == q
  {
    WrapIsMod(p, size);
    WrapIsMod(q, size);
    var a, b := p / size, q / size;
    assert p - q == (a - b) * size;
    if a - b >= 1 { MulMono(1, a - b, size); } else if b - a >= 1 { MulMono(1, b - a, size); }
  }
}
