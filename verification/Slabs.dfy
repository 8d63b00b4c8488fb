/** 64-bit slabs as natural numbers: single bits, the operators the bitmap applies to them, and the
    lowest set bit. */
module Slabs {
  import opened Words
  import opened Bits

  const WIDTH: nat := 64

  type Slab = x: nat | x < Pow2(WIDTH) witness 0

  /** Bit o of x. */
  predicate Bit(x: nat, o: nat) {
    if o == 0 then x % 2 == 1 else Bit(x / 2, o - 1)
  }

  function Or(x: nat, y: nat): nat
    decreases x + y
  {
    if x == 0 && y == 0 then 0 else 2 * Or(x / 2, y / 2) + (if x % 2 == 1 || y % 2 == 1 then 1 else 0)
  }

  /** x & ~y */
  function AndNot(x: nat, y: nat): (r: nat)
    ensures r <= x
  {
    if x == 0 then 0 else 2 * AndNot(x / 2, y / 2) + (if x % 2 == 1 && y % 2 == 0 then 1 else 0)
  }

  lemma {:induction false} AndBit(x: nat, y: nat, o: nat)
    ensures Bit(And(x, y), o) <==> Bit(x, o) && Bit(y, o)
    decreases o
  {
    if x == 0 || y == 0 { ZeroBit(o); }
    else if o > 0 { AndBit(x / 2, y / 2, o - 1); }
  }

  lemma {:induction false} OrBit(x: nat, y: nat, o: nat)
    ensures Bit(Or(x, y), o) <==> Bit(x, o) || Bit(y, o)
    decreases o
  {
    OrHalves(x, y);
    if o > 0 { OrBit(x / 2, y / 2, o - 1); }
  }

  lemma OrHalves(x: nat, y: nat)
    ensures Or(x, y) / 2 == Or(x / 2, y / 2) && (Or(x, y) % 2 == 1 <==> x % 2 == 1 || y % 2 == 1)
  {
  }

  lemma {:induction false} AndNotBit(x: nat, y: nat, o: nat)
    ensures Bit(AndNot(x, y), o) <==> Bit(x, o) && !Bit(y, o)
    decreases o
  {
    if x == 0 { ZeroBit(o); }
    else if o > 0 { AndNotBit(x / 2, y / 2, o - 1); }
  }

  lemma {:induction false} ZeroBit(o: nat)
    ensures !Bit(0, o)
  {
    if o > 0 { ZeroBit(o - 1); }
  }

  /** Shifting left by s. */
  lemma {:induction false} ShiftBit(x: nat, s: nat, o: nat)
    ensures Bit(x * Pow2(s), o) <==> o >= s && Bit(x, o - s)
  {
    if s > 0 {
      ShiftBit(x, s - 1, if o > 0 then o - 1 else 0);
      assert x * Pow2(s) == 2 * (x * Pow2(s - 1));
    }
  }

  lemma {:induction false} OnesBit(k: nat, o: nat)
    ensures Bit(Pow2(k) - 1, o) <==> o < k
  {
    if k == 0 { ZeroBit(o); }
    else if o > 0 {
      OnesBit(k - 1, o - 1);
      assert (Pow2(k) - 1) / 2 == Pow2(k - 1) - 1;
    }
  }

  lemma {:induction false} Narrow(x: nat, k: nat, o: nat)
    requires x < Pow2(k) && o >= k
    ensures !Bit(x, o)
  {
    if k == 0 { ZeroBit(o); } else { Narrow(x / 2, k - 1, o - 1); }
  }

  lemma {:induction false} OrNarrow(x: nat, y: nat, k: nat)
    requires x < Pow2(k) && y < Pow2(k)
    ensures Or(x, y) < Pow2(k)
  {
    if k > 0 { OrNarrow(x / 2, y / 2, k - 1); }
  }

  lemma {:induction false} OrZero(x: nat, y: nat)
    ensures Or(x, y) == 0 <==> x == 0 && y == 0
    decreases x + y
  {
    if x != 0 || y != 0 { OrZero(x / 2, y / 2); }
  }

  lemma {:induction false} AndNarrow(x: nat, y: nat)
    ensures And(x, y) <= x
    decreases x
  {
    if x != 0 && y != 0 { AndNarrow(x / 2, y / 2); }
  }

  // ---------------------------------------------------------------- the program's expressions

  /** 1llu << o */
  function One(o: nat): (r: Slab)
    requires o < WIDTH
  {
    Pow2Grows(o, WIDTH);
    Pow2(o)
  }

  lemma {:induction false} Pow2Grows(a: nat, b: nat)
    requires a < b
    ensures Pow2(a) < Pow2(b)
  {
    if a + 1 < b { Pow2Grows(a, b - 1); }
  }

  /** x | 1llu << o */
  function SetBit(x: Slab, o: nat): (r: Slab)
    requires o < WIDTH
  {
    OrNarrow(x, One(o), WIDTH);
    Or(x, One(o))
  }

  /** x & ~(1llu << o) */
  function ClearBit(x: Slab, o: nat): (r: Slab)
    requires o < WIDTH
  {
    AndNot(x, One(o))
  }

  /** x << s, dropping what leaves the w bits */
  function Shl(x: nat, s: nat, w: nat): nat { And(x * Pow2(s), Pow2(w) - 1) }

  lemma ShlBit(x: nat, s: nat, w: nat, j: nat)
    ensures Bit(Shl(x, s, w), j) <==> s <= j < w && Bit(x, j - s)
  {
    AndBit(x * Pow2(s), Pow2(w) - 1, j);
    OnesBit(w, j);
    ShiftBit(x, s, j);
  }

  /** ~1llu on w bits */
  function NotOne(w: nat): nat { if w == 0 then 0 else Pow2(w) - 2 }

  lemma NotOneBit(w: nat, j: nat)
    ensures Bit(NotOne(w), j) <==> 1 <= j < w
  {
    if w == 0 { ZeroBit(j); }
    else if j > 0 {
      OnesBit(w - 1, j - 1);
      assert NotOne(w) / 2 == Pow2(w - 1) - 1;
    }
  }

  /** (~1llu) << o: the bits above o */
  function Above(o: nat, w: nat): nat { Shl(NotOne(w), o, w) }

  lemma OneBit(o: nat, j: nat)
    requires o < WIDTH
    ensures Bit(One(o), j) <==> j == o
  {
    ShiftBit(1, o, j);
    if j > o { ZeroBit(j - o - 1); }
  }

  lemma SetBitIs(x: Slab, o: nat, j: nat)
    requires o < WIDTH
    ensures Bit(SetBit(x, o), j) <==> Bit(x, j) || j == o
  {
    OneBit(o, j);
    OrBit(x, One(o), j);
  }

  lemma ClearBitIs(x: Slab, o: nat, j: nat)
    requires o < WIDTH && j < WIDTH
    ensures Bit(ClearBit(x, o), j) <==> Bit(x, j) && j != o
  {
    OneBit(o, j);
    AndNotBit(x, One(o), j);
  }

  lemma AboveIs(x: nat, o: nat, w: nat, j: nat)
    requires j < w
    ensures Bit(And(x, Above(o, w)), j) <==> Bit(x, j) && j > o
  {
    AndBit(x, Above(o, w), j);
    ShlBit(NotOne(w), o, w, j);
    if j >= o { NotOneBit(w, j - o); }
  }

  /** rte_bsf64: the lowest set bit. */
  function {:induction false} Lowest(x: nat): (o: nat)
    requires x > 0
    ensures Bit(x, o)
  {
    if x % 2 == 1 then 0 else 1 + Lowest(x / 2)
  }

  lemma {:induction false} LowestIs(x: nat, j: nat)
    requires x > 0 && j < Lowest(x)
    ensures !Bit(x, j)
  {
    if j > 0 { LowestIs(x / 2, j - 1); }
  }

  lemma LowestNarrow(x: Slab)
    requires x > 0
    ensures Lowest(x) < WIDTH
  {
    if Lowest(x) >= WIDTH { Narrow(x, WIDTH, Lowest(x)); }
  }

  /** The lowest bit above o, if there is one. */
  lemma LowestAbove(x: nat, v: nat, o: nat, w: nat)
    requires x < Pow2(w) && v == And(x, Above(o, w)) && v != 0
    ensures o < Lowest(v) < w && Bit(x, Lowest(v))
    ensures forall j :: o < j < Lowest(v) ==> !Bit(x, j)
  {
    AndNarrow(x, Above(o, w));
    if Lowest(v) >= w { Narrow(v, w, Lowest(v)); }
    AboveIs(x, o, w, Lowest(v));
    forall j | o < j < Lowest(v) ensures !Bit(x, j) {
      LowestIs(v, j);
      AboveIs(x, o, w, j);
    }
  }

  lemma NoneAbove(x: nat, o: nat, w: nat, j: nat)
    requires And(x, Above(o, w)) == 0 && o < j < w
    ensures !Bit(x, j)
  {
    AboveIs(x, o, w, j);
    ZeroBit(j);
  }
}
