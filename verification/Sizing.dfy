/** Power-of-two rounding (rte_common.h) and the sizes that are computed with it. */
module Sizing {
  import opened Words
  import opened Bits
  import opened Slabs
  import RingModel
  import CopyLoops

  // ---------------------------------------------------------------- smearing the highest bit

  /** Number of bits of x. */
  function Len(x: nat): nat { if x == 0 then 0 else 1 + Len(x / 2) }

  /** One step: x | x >> s. */
  function Smear(x: nat, s: nat): nat { Or(x, Shr(x, s)) }

  /** x >> s */
  function Shr(x: nat, s: nat): nat { if s == 0 then x else Shr(x / 2, s - 1) }

  ghost predicate Within(v: nat, o: nat, n: nat) { exists j: nat :: o <= j < o + n && Bit(v, j) }

  /** Bit o of y is set exactly when v has a bit in [o, o + n). */
  ghost predicate Smeared(v: nat, y: nat, n: nat) { forall o: nat :: Bit(y, o) <==> Within(v, o, n) }

  lemma {:induction false} ShiftedBit(x: nat, s: nat, o: nat)
    ensures Bit(Shr(x, s), o) <==> Bit(x, o + s)
  {
    if s > 0 { ShiftedBit(x / 2, s - 1, o); }
  }

  lemma SmearStart(v: nat)
    ensures Smeared(v, v, 1)
  {
    forall o: nat ensures Bit(v, o) <==> Within(v, o, 1) { assert o <= o < o + 1; }
  }

  /** Each step doubles the reach. */
  lemma SmearStep(v: nat, y: nat, n: nat)
    requires Smeared(v, y, n)
    ensures Smeared(v, Smear(y, n), 2 * n)
  {
    forall o: nat ensures Bit(Smear(y, n), o) <==> Within(v, o, 2 * n) {
      OrBit(y, Shr(y, n), o);
      ShiftedBit(y, n, o);
      assert Bit(y, o) <==> Within(v, o, n);
      assert Bit(y, o + n) <==> Within(v, o + n, n);
    }
  }

  lemma {:induction false} LenBounds(x: nat)
    ensures x < Pow2(Len(x)) && (x > 0 ==> Pow2(Len(x) - 1) <= x && Bit(x, Len(x) - 1))
  {
    if x > 0 { LenBounds(x / 2); }
  }

  lemma {:induction false} LenLe(x: nat, n: nat)
    requires x < Pow2(n)
    ensures Len(x) <= n
  {
    if x > 0 { LenLe(x / 2, n - 1); }
  }

  lemma {:induction false} BitsEqual(x: nat, y: nat)
    requires forall o: nat :: Bit(x, o) <==> Bit(y, o)
    ensures x == y
    decreases x + y
  {
    assert Bit(x, 0) <==> Bit(y, 0);
    forall o: nat ensures Bit(x / 2, o) <==> Bit(y / 2, o) { assert Bit(x, o + 1) <==> Bit(y, o + 1); }
    if x + y > 0 { BitsEqual(x / 2, y / 2); }
  }

  lemma WithinIsBelow(v: nat, n: nat, o: nat)
    requires v < Pow2(n)
    ensures Within(v, o, n) <==> o < Len(v)
  {
    LenBounds(v);
    LenLe(v, n);
    if o < Len(v) {
      var j := Len(v) - 1;
      assert o <= j < o + n && Bit(v, j);
    } else {
      forall j: nat | j >= o ensures !Bit(v, j) { Narrow(v, Len(v), j); }
    }
  }

  /** Once the reach covers the width, all bits up to the highest are set. */
  lemma SmearDone(v: nat, y: nat, n: nat)
    requires Smeared(v, y, n) && v < Pow2(n)
    ensures y == Pow2(Len(v)) - 1
  {
    var z := Pow2(Len(v)) - 1;
    forall o: nat ensures Bit(y, o) <==> Bit(z, o) {
      OnesBit(Len(v), o);
      WithinIsBelow(v, n, o);
    }
    BitsEqual(y, z);
  }

  /** rte_combine32ms1b */
  method Combine32(v: nat) returns (x: nat)
    requires v < Pow2(32)
    ensures x == Pow2(Len(v)) - 1
  {
    x := v;
    SmearStart(v);
    SmearStep(v, x, 1);
    x := Smear(x, 1);
    SmearStep(v, x, 2);
    x := Smear(x, 2);
    SmearStep(v, x, 4);
    x := Smear(x, 4);
    SmearStep(v, x, 8);
    x := Smear(x, 8);
    SmearStep(v, x, 16);
    x := Smear(x, 16);
    SmearDone(v, x, 32);
  }

  /** rte_combine64ms1b */
  method Combine64(v: nat) returns (x: nat)
    requires v < Pow2(64)
    ensures x == Pow2(Len(v)) - 1
  {
    x := v;
    SmearStart(v);
    SmearStep(v, x, 1);
    x := Smear(x, 1);
    SmearStep(v, x, 2);
    x := Smear(x, 2);
    SmearStep(v, x, 4);
    x := Smear(x, 4);
    SmearStep(v, x, 8);
    x := Smear(x, 8);
    SmearStep(v, x, 16);
    x := Smear(x, 16);
    SmearStep(v, x, 32);
    x := Smear(x, 32);
    SmearDone(v, x, 64);
  }

  // ---------------------------------------------------------------- rounding

  /** r is the least power of two that is not below x. */
  ghost predicate LeastAbove(r: nat, x: nat) {
    (exists k: nat :: r == Pow2(k)) && x <= r && forall k: nat :: x <= Pow2(k) ==> r <= Pow2(k)
  }

  /** r is the greatest power of two that is not above x. */
  ghost predicate GreatestBelow(r: nat, x: nat) {
    (exists k: nat :: r == Pow2(k)) && r <= x && forall k: nat :: Pow2(k) <= x ==> Pow2(k) <= r
  }

  lemma Pow2Order(a: nat, b: nat)
    ensures Pow2(a) <= Pow2(b) <==> a <= b
  {
    if a < b { Pow2Grows(a, b); } else if b < a { Pow2Grows(b, a); }
  }

  lemma NextPower(x: nat)
    requires x > 0
    ensures LeastAbove(Pow2(Len(x - 1)), x)
  {
    LenBounds(x - 1);
    forall k: nat | x <= Pow2(k) ensures Pow2(Len(x - 1)) <= Pow2(k) {
      LenLe(x - 1, k);
      Pow2Order(Len(x - 1), k);
    }
  }

  lemma PreviousPower(x: nat)
    requires x > 0
    ensures GreatestBelow(Pow2(Len(x) - 1), x)
  {
    LenBounds(x);
    forall k: nat | Pow2(k) <= x ensures Pow2(k) <= Pow2(Len(x) - 1) {
      if k >= Len(x) { Pow2Order(Len(x), k); }
      Pow2Order(k, Len(x) - 1);
    }
  }

  /** What the align functions return on `bits`-bit words: 0 when there is no such power of two. */
  ghost predicate Aligned(r: nat, x: nat, bits: nat)
    requires bits > 0
  {
    if 1 <= x <= Pow2(bits - 1) then LeastAbove(r, x) && r <= Pow2(bits - 1) else r == 0
  }

  lemma AlignIs(x: nat, y: nat, bits: nat)
    requires bits > 0 && x < Pow2(bits) && y == Pow2(Len(if x == 0 then Pow2(bits) - 1 else x - 1)) - 1
    ensures Aligned((y + 1) % Pow2(bits), x, bits)
  {
    var v := if x == 0 then Pow2(bits) - 1 else x - 1;
    LenLe(v, bits);
    LenBounds(v);
    if 1 <= x <= Pow2(bits - 1) {
      LenLe(v, bits - 1);
      Pow2Order(Len(v), bits - 1);
      NextPower(x);
      ModUnique(y + 1, 0, y + 1, Pow2(bits));
    } else {
      if Len(v) < bits { Pow2Order(Len(v), bits - 1); }
      assert Len(v) == bits;
      ModUnique(y + 1, 1, 0, Pow2(bits));
    }
  }

  /** rte_align32pow2 */
  method Align32(x: nat) returns (r: nat)
    requires x < Pow2(32)
    ensures Aligned(r, x, 32)
  {
    var v := if x == 0 then Pow2(32) - 1 else x - 1;
    var y := Combine32(v);
    AlignIs(x, y, 32);
    r := (y + 1) % Pow2(32);
  }

  /** rte_align64pow2 */
  method Align64(x: nat) returns (r: nat)
    requires x < Pow2(64)
    ensures Aligned(r, x, 64)
  {
    var v := if x == 0 then Pow2(64) - 1 else x - 1;
    var y := Combine64(v);
    AlignIs(x, y, 64);
    r := (y + 1) % Pow2(64);
  }

  lemma TopOnly(x: nat, y: nat)
    requires y == Pow2(Len(x)) - 1
    ensures if x == 0 then y - y / 2 == 0 else GreatestBelow(y - y / 2, x)
  {
    if x > 0 {
      PreviousPower(x);
      assert y / 2 == Pow2(Len(x) - 1) - 1;
    }
  }

  /** rte_align32prevpow2 */
  method AlignPrev32(x: nat) returns (r: nat)
    requires x < Pow2(32)
    ensures if x == 0 then r == 0 else GreatestBelow(r, x)
  {
    var y := Combine32(x);
    TopOnly(x, y);
    r := y - y / 2;
  }

  /** rte_align64prevpow2 */
  method AlignPrev64(x: nat) returns (r: nat)
    requires x < Pow2(64)
    ensures if x == 0 then r == 0 else GreatestBelow(r, x)
  {
    var y := Combine64(x);
    TopOnly(x, y);
    r := y - y / 2;
  }

  // ---------------------------------------------------------------- rings

  datatype RingSize = Invalid | Sized(size: nat, mask: nat, capacity: nat)

  /** The sizes make a ring of 2^order slots. */
  ghost predicate WellSized(r: RingSize) { r.Sized? && exists order: nat :: Fits(r, order) }

  ghost predicate Fits(r: RingSize, order: nat)
    requires r.Sized?
  {
    order <= 31 && r.size == Pow2(order) && r.mask == r.size - 1 && r.capacity < r.size
  }

  /** That is what every property of rings is proved from. */
  lemma RingIsValid(r: RingSize, env: RingModel.Env) returns (order: nat)
    requires WellSized(r) && env.cap == r.capacity && env.size == r.size
    ensures env.(order := order).Valid()
  {
    order :| Fits(r, order);
    Pow2Is32();
    Pow2Order(order, 31);
  }

  ghost predicate IsPow2(x: nat) { exists k: nat :: x == Pow2(k) }

  lemma HalfPow2(x: nat)
    requires x > 1 && x % 2 == 0
    ensures IsPow2(x) <==> IsPow2(x / 2)
  {
    if IsPow2(x / 2) {
      var k: nat :| x / 2 == Pow2(k);
      assert x == Pow2(k + 1);
    }
    if IsPow2(x) {
      var k: nat :| x == Pow2(k);
      assert x / 2 == Pow2(k - 1);
    }
  }

  lemma OddPow2(x: nat)
    requires x > 1 && x % 2 == 1
    ensures !IsPow2(x)
  {
    forall k: nat ensures x != Pow2(k) { assert k > 0 ==> Pow2(k) == 2 * Pow2(k - 1); }
  }

  /** POWEROF2: x & (x - 1) is zero for the powers of two, and for 0. */
  lemma {:induction false} PowerTest(x: nat)
    requires x > 0
    ensures And(x - 1, x) == 0 <==> IsPow2(x)
  {
    if x == 1 {
      assert Pow2(0) == 1;
    } else if x % 2 == 0 {
      PowerTest(x / 2);
      HalfPow2(x);
      assert And(x - 1, x) == 2 * And(x / 2 - 1, x / 2);
    } else {
      OddPow2(x);
      AndSelf(x / 2);
      assert And(x - 1, x) == 2 * And(x / 2, x / 2);
    }
  }

  lemma {:induction false} AndSelf(x: nat)
    ensures And(x, x) == x
  {
    if x > 0 { AndSelf(x / 2); }
  }

  lemma RingFits(size: nat, capacity: nat)
    requires IsPow2(size) && size <= 0x8000_0000 && capacity < size
    ensures WellSized(Sized(size, size - 1, capacity))
  {
    var k: nat :| size == Pow2(k);
    Pow2Is32();
    Pow2Order(k, 31);
    assert Fits(Sized(size, size - 1, capacity), k);
  }

  lemma ExactSize(size: nat, count: nat)
    requires count < W && Aligned(size, (count + 1) % W, 32)
    ensures WellSized(Sized(size, (size + W - 1) % W, count)) <==> count < 0x8000_0000
  {
    Pow2Is32();
    if count < 0x8000_0000 { RingFits(size, count); } else { assert size == 0; }
  }

  /** The mask test of rte_ring_init. */
  lemma PlainSize(count: nat)
    requires count < W
    ensures And((count + W - 1) % W, count) == 0 <==> count == 0 || IsPow2(count)
  {
    if count > 0 { PowerTest(count); }
  }

  lemma PlainFits(count: nat, mask: nat)
    requires mask == (count + W - 1) % W && count <= 0x7fff_ffff && (count == 0 || IsPow2(count))
    ensures WellSized(Sized(count, mask, mask)) <==> count > 0
    ensures count > 0 ==> mask == count - 1
  {
    if count > 0 { RingFits(count, count - 1); }
  }

  /** rte_ring_init: a requested count that is not zero (a count below 2^31 for exact-size rings) is what
      makes an accepted ring well sized; the code itself checks neither. */
  method RingInit(count: nat, exact: bool) returns (r: RingSize)
    requires count < W
    ensures r.Sized? <==> exact || count == 0 || (IsPow2(count) && count <= 0x7fff_ffff)
    ensures r.Sized? ==> (WellSized(r) <==> if exact then count < 0x8000_0000 else count > 0)
    ensures r.Sized? && (exact || count > 0) ==> r.capacity == if exact then count else count - 1
    ensures r.Sized? && !exact ==> r.size == count
  {
    if exact {
      Pow2Is32();
      var size := Align32((count + 1) % W);
      ExactSize(size, count);
      return Sized(size, (size + W - 1) % W, count);
    }
    PlainSize(count);
    var mask := (count + W - 1) % W;
    if And(mask, count) != 0 || count > 0x7fff_ffff { return Invalid; }
    PlainFits(count, mask);
    r := Sized(count, mask, mask);
  }

  // ---------------------------------------------------------------- memory of a ring

  const EINVAL: int := 22

  /** rte_ring_get_memsize_elem, for a ring structure of `header` bytes. The product is taken on 32 bits: the
      memory holds all elements if and only if it does not wrap. */
  method MemSize(esize: nat, count: nat, header: nat) returns (sz: int)
    requires esize < W && count < W
    ensures sz == -EINVAL <==> esize % 4 != 0 || !(count == 0 || (IsPow2(count) && count <= 0x7fff_ffff))
    ensures sz != -EINVAL ==> sz >= 0 && (header + count * esize <= sz <==> count * esize < W)
  {
    if esize % 4 != 0 { return -EINVAL; }
    PlainSize(count);
    if And((count + W - 1) % W, count) != 0 || count > 0x7fff_ffff { return -EINVAL; }
    Wrapped(count * esize, header);
    sz := header + count * esize % W;
    sz := (sz + 63) / 64 * 64;
  }

  lemma Wrapped(product: int, header: nat)
    ensures var sz := (header + product % W + 63) / 64 * 64;
      sz >= 0 && (product >= 0 ==> (header + product <= sz <==> product < W))
  {
    if product >= W {
      ModCancel(product - W, 1, W);
      assert product % W == (product - W) % W <= product - W;
    }
  }

  /** Memory that holds all elements also keeps the scaled indexes of the copy loops within 32 bits. */
  lemma CopyFits(esize: nat, count: nat)
    requires esize % 4 == 0 && count * esize < W
    ensures 2 * CopyLoops.Times(count, esize / 4) <= W
  {
    CopyLoops.TimesIsProduct(count, esize / 4);
    assert count * esize == 4 * (count * (esize / 4));
  }

  // ---------------------------------------------------------------- the hash's rings

  lemma PowerBelow(x: nat, k: nat)
    requires IsPow2(x) && x < Pow2(k)
    ensures k > 0 && x <= Pow2(k - 1)
  {
    var j: nat :| x == Pow2(j);
    Pow2Order(k, j);
    Pow2Order(j, k - 1);
  }

  /** Rounding up what is below 2^31 gives a count that a plain ring accepts, with room for it. */
  lemma RoundedUp(size: nat, n: nat)
    requires Aligned(size, n + 1, 32) && n < 0x4000_0000
    ensures IsPow2(size) && n < size <= 0x4000_0000
  {
    Pow2Is32();
    assert Pow2(31) == 2 * Pow2(30);
    assert n + 1 <= Pow2(30);
  }

  /** A ring of four-byte elements for which enough memory was reserved. */
  ghost predicate Usable(r: RingSize, bytes: int, header: nat) { WellSized(r) && header + r.size * 4 <= bytes }

  /** rte_hash_create: number of buckets, and the rings of free key slots and extendable buckets with their
      memory. Every slot and every bucket finds room if and only if there are fewer than 2^29 entries: from
      there on the memory size of the ring of free slots wraps, and with 2^30 entries the ring is refused. */
  method HashSizes(entries: nat, header: nat)
    returns (buckets: nat, slots: RingSize, slotBytes: int, ext: RingSize, extBytes: int)
    requires 8 <= entries <= 0x4000_0000
    ensures IsPow2(buckets) && entries <= 8 * buckets
    ensures Usable(slots, slotBytes, header) <==> entries < 0x2000_0000
    ensures Usable(slots, slotBytes, header) ==> entries <= slots.capacity
    ensures Usable(ext, extBytes, header) && buckets <= ext.capacity
  {
    Pow2Is32();
    var n := Align32(entries + 1);
    slotBytes := MemSize(4, n, header);
    slots := RingInit(n, false);
    SlotRing(n, entries);
    var b := Align32(entries);
    EightDivides(b, entries);
    buckets := b / 8;
    var e := Align32(buckets + 1);
    RoundedUp(e, buckets);
    extBytes := MemSize(4, e, header);
    ext := RingInit(e, false);
  }

  /** The size of the ring of free slots. */
  lemma SlotRing(n: nat, entries: nat)
    requires 8 <= entries <= 0x4000_0000 && Aligned(n, entries + 1, 32)
    ensures IsPow2(n) && entries < n && (n < 0x4000_0000 <==> entries < 0x2000_0000)
    ensures n > 0x7fff_ffff <==> entries == 0x4000_0000
  {
    Pow2Is32();
    assert Pow2(31) == 2 * Pow2(30) && Pow2(30) == 2 * Pow2(29);
    if entries == 0x4000_0000 {
      TopSize(n);
    } else {
      RoundedUp(n, entries);
      if entries < 0x2000_0000 { assert entries + 1 <= Pow2(29); }
      if n < 0x4000_0000 { PowerBelow(n, 30); }
    }
  }

  lemma TopSize(n: nat)
    requires Aligned(n, 0x4000_0001, 32)
    ensures n == 0x8000_0000
  {
    Pow2Is32();
    assert Pow2(31) == 2 * Pow2(30);
    if n < Pow2(31) { PowerBelow(n, 31); }
  }

  lemma EightDivides(b: nat, entries: nat)
    requires 8 <= entries <= 0x4000_0000 && Aligned(b, entries, 32)
    ensures IsPow2(b / 8) && b == 8 * (b / 8) && b <= 0x4000_0000
  {
    Pow2Is32();
    assert Pow2(31) == 2 * Pow2(30);
    assert entries <= Pow2(30);
    var k: nat :| b == Pow2(k);
    assert Pow2(3) == 8;
    if k < 3 { Pow2Order(3, k); }
    assert Pow2(k) == 2 * Pow2(k - 1) && Pow2(k - 1) == 2 * Pow2(k - 2) && Pow2(k - 2) == 2 * Pow2(k - 3);
  }

  // ---------------------------------------------------------------- memory of a bitmap

  datatype Layout = Layout(total: nat, offset1: nat, slabs1: nat, offset2: nat, slabs2: nat)

  /** A block of memory holds `context` bytes, then array1, then array2 on a cache line of its own; array2
      has all bits and array1 one bit for each line of array2. */
  ghost predicate Holds(m: Layout, nBits: nat, context: nat) {
    && nBits <= 64 * m.slabs2 && m.slabs2 % 8 == 0 && m.slabs2 <= 512 * m.slabs1 && IsPow2(m.slabs1)
    && context <= m.offset1 && m.offset1 % 8 == 0 && m.offset1 + 8 * m.slabs1 <= m.offset2
    && m.offset2 % 64 == 0 && m.offset2 + 8 * m.slabs2 == m.total < W
  }

  /** __rte_bitmap_get_memory_footprint: right for every number of bits that is not within 511 of 2^32,
      where rounding up to lines wraps. */
  method Footprint(nBits: nat, context: nat) returns (m: Layout)
    requires 0 < nBits < W && 0 < context <= 4096
    ensures Holds(m, nBits, context) <==> nBits <= W - 512
  {
    Pow2Is32();
    BitLines(nBits);
    var lines2 := (nBits + 511) % W / 512;
    var slabs1 := (lines2 + 63) / 64;
    slabs1 := Align32(slabs1);
    m := LayoutOf(lines2, slabs1, context);
    if nBits <= W - 512 {
      FewSlabs(slabs1, lines2);
      LayoutHolds(lines2, slabs1, nBits, context);
    } else {
      assert m.slabs2 == 0;
    }
  }

  /** The number of array2 lines, which wraps to 0. */
  lemma BitLines(nBits: nat)
    requires 0 < nBits < W
    ensures var lines2 := (nBits + 511) % W / 512;
      if nBits <= W - 512 then 1 <= lines2 <= 0x80_0000 && nBits <= 512 * lines2 else lines2 == 0
  {
  }

  function LayoutOf(lines2: nat, slabs1: nat, context: nat): Layout {
    var slabsContext := (context + 7) / 8;
    var lines1 := (slabsContext + slabs1 + 7) / 8;
    Layout((lines1 + lines2) * 64 % W, slabsContext * 8, slabs1, lines1 * 64, lines2 * 8)
  }

  lemma LayoutHolds(lines2: nat, slabs1: nat, nBits: nat, context: nat)
    requires IsPow2(slabs1) && lines2 <= 64 * slabs1 && slabs1 <= 0x2_0000 && lines2 <= 0x80_0000
    requires nBits <= 512 * lines2 && context <= 4096
    ensures Holds(LayoutOf(lines2, slabs1, context), nBits, context)
  {
    var slabsContext := (context + 7) / 8;
    var lines1 := (slabsContext + slabs1 + 7) / 8;
    assert 8 * lines1 >= slabsContext + slabs1;
    assert (lines1 + lines2) * 64 < W;
  }

  lemma FewSlabs(slabs1: nat, lines2: nat)
    requires 1 <= lines2 <= 0x80_0000 && Aligned(slabs1, (lines2 + 63) / 64, 32)
    ensures IsPow2(slabs1) && lines2 <= 64 * slabs1 && slabs1 <= 0x2_0000
  {
    Pow2Is32();
    assert Pow2(8) == 256;
    Pow2Sum(8, 8);
    assert Pow2(17) == 2 * Pow2(16);
    assert (lines2 + 63) / 64 <= Pow2(17);
  }
}
