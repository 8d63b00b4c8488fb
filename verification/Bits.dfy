/** Bitwise operators on natural numbers, and what masking with 2^k - 1 does. */
module Bits {
  import opened Words

  function And(x: nat, y: nat): (r: nat)
    ensures r <= y
  {
    if x == 0 || y == 0 then 0
    else 2 * And(x / 2, y / 2) + (if x % 2 == 1 && y % 2 == 1 then 1 else 0)
  }

  function Xor(x: nat, y: nat): nat
    decreases x + y
  {
    if x == 0 && y == 0 then 0
    else 2 * Xor(x / 2, y / 2) + (if x % 2 != y % 2 then 1 else 0)
  }

  /** Masking with 2^k - 1 reduces modulo 2^k. */
  lemma MaskIsWrap(x: nat, k: nat)
    ensures And(x, Pow2(k) - 1) == Wrap(x, Pow2(k))
  {
    MaskIsMod(x, k);
    WrapIsMod(x, Pow2(k));
  }

  lemma {:induction false} MaskIsMod(x: nat, k: nat)
    ensures And(x, Pow2(k) - 1) == x % Pow2(k)
  {
    if k == 0 {
    } else if x == 0 {
    } else {
      var m := Pow2(k - 1);
      MaskIsMod(x / 2, k - 1);
      assert (Pow2(k) - 1) / 2 == m - 1 && (Pow2(k) - 1) % 2 == 1;
      HalfMod(x, m);
    }
  }

  lemma HalfMod(x: nat, m: nat)
    requires m > 0
    ensures 2 * ((x / 2) % m) + x % 2 == x % (2 * m)
  {
    var q, r := (x / 2) / m, (x / 2) % m;
    assert x == 2 * (q * m + r) + x % 2;
    assert 2 * (q * m) == q * (2 * m);
    ModUnique(x, q, 2 * r + x % 2, 2 * m);
  }

  lemma XorBits(x: nat, y: nat)
    ensures Xor(x, y) / 2 == Xor(x / 2, y / 2)
    ensures Xor(x, y) % 2 == if x % 2 != y % 2 then 1 else 0
  {
  }

  lemma XorCancels(x: nat, y: nat)
    ensures Xor(Xor(x, y), y) == x
    decreases x + y
  {
    if x != 0 || y != 0 {
      XorCancels(x / 2, y / 2);
      XorBits(x, y);
    }
  }

  /** Masking may be done before or after xor. */
  lemma {:induction false} XorMask(x: nat, y: nat, k: nat)
    ensures Xor(x % Pow2(k), y) % Pow2(k) == Xor(x, y) % Pow2(k)
    decreases k
  {
    if k > 0 {
      var m := Pow2(k - 1);
      XorMask(x / 2, y / 2, k - 1);
      HalfMod(x, m);
      var x' := x % Pow2(k);
      assert x' / 2 == (x / 2) % m && x' % 2 == x % 2;
      XorBits(x', y);
      XorBits(x, y);
      HalfMod(Xor(x', y), m);
      HalfMod(Xor(x, y), m);
    }
  }

  /** The low k bits of an exclusive or with a number of k bits. */
  lemma {:induction false} XorLow(x: nat, y: nat, k: nat)
    requires x < Pow2(k)
    ensures Xor(x, y) % Pow2(k) == Xor(x, y % Pow2(k))
    decreases k
  {
    if k > 0 {
      var m := Pow2(k - 1);
      XorLow(x / 2, y / 2, k - 1);
      HalfMod(y, m);
      HalfMod(Xor(x, y), m);
      XorBits(x, y);
      XorBits(x, y % Pow2(k));
    }
  }
}
