/** The two-level bitmap of rte_bitmap.h. */
module Bitmap {
  import opened Words
  import opened Bits
  import opened Slabs
  import opened BitmapSpec

  /** Slab s + 1 + i counted round an array of n slabs. */
  function Round(s: nat, i: nat, n: nat): int { if s + 1 + i < n then s + 1 + i else s + 1 + i - n }

  /** One more slab on the way round is zero. */
  lemma ZeroGrows(a: seq<Slab>, s: nat, i: nat)
    requires s < |a| && i < |a| && Zero(a, s + 1, s + 1 + i) && Zero(a, 0, s + 1 + i - |a|)
    requires a[Round(s, i, |a|)] == 0
    ensures Zero(a, s + 1, s + 2 + i) && Zero(a, 0, s + 2 + i - |a|)
  {
  }

  lemma RoundStep(x: nat, order: nat)
    requires x < Pow2(order)
    ensures And(x + 1, Pow2(order) - 1) == if x + 1 < Pow2(order) then x + 1 else 0
  {
    MaskIsWrap(x + 1, order);
  }

  /** The shifts that find a bit's slabs and its line agree. */
  lemma Indices(pos: nat)
    ensures pos / 32768 == pos / 512 / 64 && pos / 64 / 8 == pos / 512
  {
  }

  /** The slab after slab i is in the same line or starts the next one. */
  lemma NextInLine(i: nat, line: nat, n: nat)
    requires i / 8 == line && i < n && n % 8 == 0
    ensures if (i + 1) % 8 != 0 then (i + 1) / 8 == line && i + 1 < n else i + 1 == 8 * (line + 1)
  {
  }

  /** The first slab of slab i's line. */
  lemma LineBase(i: nat, n: nat)
    requires i < n && n % 8 == 0
    ensures 0 <= i - i % 8 && (i - i % 8) % 8 == 0 && (i - i % 8) / 8 == i / 8 && i - i % 8 + 8 <= n
  {
  }

  /** x & 1llu << o is not zero exactly when bit o is set. */
  lemma TestBit(x: Slab, o: nat)
    requires o < WIDTH
    ensures And(x, One(o)) != 0 <==> Bit(x, o)
  {
    var v := And(x, One(o));
    AndBit(x, One(o), o);
    OneBit(o, o);
    if v == 0 { ZeroBit(o); } else {
      AndBit(x, One(o), Lowest(v));
      OneBit(o, Lowest(v));
    }
  }

  /** A slab masked with __rte_bitmap_mask1_get. */
  method BitsAbove(x: Slab, o: nat) returns (v: nat)
    requires o < 64
    ensures if v != 0 then NextBit(x, o, Lowest(v)) else NoBit(x, o)
  {
    v := And(x, Above(o, 64));
    if v != 0 {
      LowestAbove(x, v, o, 64);
    } else {
      forall j | o < j < 64 ensures !Bit(x, j) { NoneAbove(x, o, 64, j); }
    }
  }

  /** slabs1 and slabs2 are the source's array1 and array2. */
  class Bitmap {
    const order: nat
    const slabs1: array<Slab>
    const slabs2: array<Slab>
    var index1: nat
    var offset1: nat
    var index2: nat
    var go2: nat

    /** The current line. */
    function Line(): nat
      reads this
    {
      64 * index1 + offset1
    }

    /** Where the next scan starts looking. */
    function Cursor(): nat
      reads this
    {
      if go2 != 0 then index2 else 8 * (Line() + 1)
    }

    ghost predicate Shape()
      reads this
    {
      && slabs1 != slabs2 && slabs1.Length == Pow2(order) && slabs2.Length % 8 == 0
      && index1 < slabs1.Length && offset1 < 64
      && (go2 != 0 ==> index2 / 8 == Line() && index2 < slabs2.Length)
    }

    ghost predicate Valid()
      reads this, slabs1, slabs2
    {
      Shape() && Summary(slabs1[..], slabs2[..])
    }

    constructor (order: nat, lines: nat)
      requires lines <= 64 * Pow2(order)
      ensures this.order == order && slabs2.Length == 8 * lines && fresh(slabs1) && fresh(slabs2)
      ensures Valid() && Zero(slabs2[..], 0, 8 * lines) && Cursor() >= slabs2.Length
    {
      this.order := order;
      var a1, a2 := new Slab[Pow2(order)](_ => 0), new Slab[8 * lines](_ => 0);
      slabs1, slabs2 := a1, a2;
      index1, offset1, index2, go2 := Pow2(order) - 1, 63, 8 * (64 * (Pow2(order) - 1) + 63) + 8, 0;
      new;
      FoundNone(slabs1[..]);
    }

    /** __rte_bitmap_scan_init */
    method ScanInit()
      requires Valid()
      modifies this
      ensures Valid() && Cursor() >= slabs2.Length
    {
      index1 := slabs1.Length - 1;
      offset1 := 63;
      index2 := 8 * (64 * index1 + offset1);
      index2 := index2 + 8;
      go2 := 0;
    }

    /** Setting or clearing the array1 bit of the line that bit `pos` is in. */
    method PutLine(pos: nat, on: bool)
      requires pos / 512 / 64 < slabs1.Length
      modifies slabs1
      ensures forall j: nat :: Has(slabs1[..], j) <==> if pos / 512 == j then on else old(Has(slabs1[..], j))
    {
      Indices(pos);
      var i1, o1 := pos / 32768, pos / 512 % 64;
      ghost var b1 := PutBit(slabs1[..], pos / 512, on);
      slabs1[i1] := if on then SetBit(slabs1[i1], o1) else ClearBit(slabs1[i1], o1);
      assert slabs1[..] == b1;
    }

    method Get(pos: nat) returns (r: nat)
      requires Valid() && pos / 64 < slabs2.Length
      ensures r != 0 <==> Has(slabs2[..], pos)
    {
      TestBit(slabs2[pos / 64], pos % 64);
      r := And(slabs2[pos / 64], One(pos % 64));
    }

    method Set(pos: nat)
      requires Valid() && pos / 64 < slabs2.Length
      modifies slabs1, slabs2
      ensures Valid()
      ensures forall q: nat :: Has(slabs2[..], q) <==> q == pos || old(Has(slabs2[..], q))
    {
      ghost var a1, a2 := slabs1[..], slabs2[..];
      Indices(pos);
      var i2 := pos / 64;
      ghost var b2 := PutBit(a2, pos, true);
      slabs2[i2] := SetBit(slabs2[i2], pos % 64);
      PutLine(pos, true);
      assert slabs2[..] == b2;
      SetLineFull(a2, pos);
      SummaryAfter(a1, a2, i2, b2[i2], slabs1[..], true);
    }

    /** rte_bitmap_set_slab adds the bits of `slab`. The summary stays right exactly when the slab is not
        zero or its line was not empty. */
    method SetSlab(pos: nat, slab: Slab)
      requires Valid() && pos / 64 < slabs2.Length
      modifies slabs1, slabs2
      ensures Shape()
      ensures Valid() <==> slab != 0 || old(LineFull(slabs2[..], pos / 512))
      ensures forall q: nat :: Has(slabs2[..], q) <==>
        old(Has(slabs2[..], q)) || (q / 64 == pos / 64 && Bit(slab, q % 64))
    {
      ghost var a1, a2 := slabs1[..], slabs2[..];
      Indices(pos);
      var i2 := pos / 64;
      OrNarrow(slabs2[i2], slab, WIDTH);
      var x: Slab := Or(slabs2[i2], slab);
      slabs2[i2] := x;
      PutLine(pos, true);
      assert slabs2[..] == a2[i2 := x];
      OrZero(a2[i2], slab);
      AddedSlab(a2, i2, x);
      SummaryAfter(a1, a2, i2, x, slabs1[..], true);
      UnionBits(a2, i2, slab);
    }

    /** __rte_bitmap_line_not_empty */
    method LineNotEmpty(base: nat) returns (v: nat)
      requires base % 8 == 0 && base + 8 <= slabs2.Length
      ensures v != 0 <==> LineFull(slabs2[..], base / 8)
    {
      var v1, v2 := Or(slabs2[base], slabs2[base + 1]), Or(slabs2[base + 2], slabs2[base + 3]);
      var v3, v4 := Or(slabs2[base + 4], slabs2[base + 5]), Or(slabs2[base + 6], slabs2[base + 7]);
      OrZero(slabs2[base], slabs2[base + 1]);
      OrZero(slabs2[base + 2], slabs2[base + 3]);
      OrZero(slabs2[base + 4], slabs2[base + 5]);
      OrZero(slabs2[base + 6], slabs2[base + 7]);
      OrZero(v1, v2);
      OrZero(v3, v4);
      v1 := Or(v1, v2);
      v3 := Or(v3, v4);
      OrZero(v1, v3);
      v := Or(v1, v3);
      EightSlabs(slabs2[..], base);
    }

    method Clear(pos: nat)
      requires Valid() && pos / 64 < slabs2.Length
      modifies slabs1, slabs2
      ensures Valid()
      ensures forall q: nat :: Has(slabs2[..], q) <==> q != pos && old(Has(slabs2[..], q))
    {
      ghost var a1, a2 := slabs1[..], slabs2[..];
      Indices(pos);
      var i2 := pos / 64;
      ghost var b2 := PutBit(a2, pos, false);
      slabs2[i2] := ClearBit(slabs2[i2], pos % 64);
      assert slabs2[..] == b2;
      ClearedSummary(a1, a2, i2, b2[i2]);
      if slabs2[i2] != 0 { return; }
      LineBase(i2, slabs2.Length);
      var v := LineNotEmpty(i2 - i2 % 8);
      if v != 0 { return; }
      PutLine(pos, false);
      SummaryAfter(a1, a2, i2, b2[i2], slabs1[..], false);
    }

    /** __rte_bitmap_scan_read: the rest of the current line. */
    method ScanRead() returns (found: bool, pos: nat, slab: Slab)
      requires Shape()
      modifies this`index2, this`go2
      ensures Shape()
      ensures found ==> old(go2) != 0 && pos % 64 == 0
      ensures found ==> var j := pos / 64;
        && old(index2) <= j < 8 * (Line() + 1) && j < slabs2.Length
        && slab == slabs2[j] != 0 && Zero(slabs2[..], old(index2), j) && Cursor() == j + 1
      ensures !found ==> go2 == 0 && (old(go2) != 0 ==> Zero(slabs2[..], old(index2), 8 * (Line() + 1)))
    {
      pos, slab := 0, 0;
      ghost var line := Line();
      while go2 != 0
        invariant old(go2) == 0 ==> go2 == 0
        invariant old(go2) != 0 ==> old(index2) <= index2 && Zero(slabs2[..], old(index2), index2)
        invariant go2 != 0 ==> index2 / 8 == line && index2 < slabs2.Length
        invariant go2 == 0 && old(go2) != 0 ==> index2 == 8 * (line + 1)
        decreases 8 * (line + 1) - index2, go2
      {
        NextInLine(index2, line, slabs2.Length);
        if slabs2[index2] != 0 {
          pos, slab := 64 * index2, slabs2[index2];
          index2 := index2 + 1;
          go2 := index2 % 8;
          return true, pos, slab;
        }
        index2 := index2 + 1;
        go2 := index2 % 8;
      }
      return false, pos, slab;
    }

    /** __rte_bitmap_index1_inc */
    method Index1Inc()
      requires slabs1.Length == Pow2(order) && index1 < slabs1.Length
      modifies this`index1
      ensures index1 == if old(index1) + 1 < slabs1.Length then old(index1) + 1 else 0
    {
      RoundStep(index1, order);
      index1 := And(index1 + 1, slabs1.Length - 1);
    }

    /** __rte_bitmap_scan_search: the next non-empty line according to array1. */
    method ScanSearch() returns (found: bool)
      requires Shape() && go2 == 0
      modifies this`index1, this`offset1
      ensures Shape()
      ensures found ==> FirstLine(slabs1[..], old(Line()), Line())
      ensures !found ==> Zero(slabs1[..], 0, slabs1.Length)
    {
      ghost var a1, s := slabs1[..], index1;
      var value := BitsAbove(slabs1[index1], offset1);
      if value != 0 {
        FoundNear(a1, s, offset1, Lowest(value));
        offset1 := Lowest(value);
        return true;
      }
      ghost var off := offset1;
      Index1Inc();
      offset1 := 0;
      found := SearchOn(s);
      if found { FoundFar(a1, s, off, index1); }
    }

    /** The loop of the search, over all slabs of array1 from the one after s on. */
    method SearchOn(ghost s: nat) returns (found: bool)
      requires Shape() && go2 == 0 && s < slabs1.Length && index1 == Round(s, 0, slabs1.Length)
      modifies this`index1, this`offset1
      ensures Shape()
      ensures found ==> offset1 < 64 && slabs1[index1] != 0 && offset1 == Lowest(slabs1[index1])
      ensures found ==> if index1 > s then Zero(slabs1[..], s + 1, index1)
        else Zero(slabs1[..], s + 1, slabs1.Length) && Zero(slabs1[..], 0, index1)
      ensures !found ==> Zero(slabs1[..], 0, slabs1.Length)
    {
      var n := slabs1.Length;
      ghost var a1 := slabs1[..];
      var i := 0;
      while i < n
        invariant 0 <= i <= n && index1 < n && offset1 < 64
        invariant i < n ==> index1 == Round(s, i, n)
        invariant Zero(a1, s + 1, s + 1 + i) && Zero(a1, 0, s + 1 + i - n)
      {
        var value := slabs1[index1];
        if value != 0 {
          LowestNarrow(value);
          offset1 := Lowest(value);
          return true;
        }
        ZeroGrows(a1, s, i);
        Index1Inc();
        i := i + 1;
      }
      return false;
    }

    /** The first non-zero slab after the current line. */
    method ScanLines() returns (found: bool, pos: nat, slab: Slab)
      requires Valid() && go2 == 0
      modifies this
      ensures Valid()
      ensures !found ==> Zero(slabs2[..], 0, slabs2.Length)
      ensures found ==> pos % 64 == 0 && FirstSlab(slabs2[..], 8 * (old(Line()) + 1), pos / 64)
      ensures found ==> slab == slabs2[pos / 64] && Cursor() == pos / 64 + 1
    {
      ghost var a1, a2, L := slabs1[..], slabs2[..], Line();
      found := ScanSearch();
      pos, slab := 0, 0;
      if found {
        index2 := 8 * (64 * index1 + offset1);
        go2 := 1;
        assert LineFull(a2, Line());
        found, pos, slab := ScanRead();
        LineToSlab(a1, a2, L, Line(), pos / 64);
        return true, pos, slab;
      }
      FoundNone(a1);
      NoLineNoSlab(a1, a2);
    }

    /** rte_bitmap_scan: the next non-zero slab from the cursor on, going round; none when the set is empty. */
    method Scan() returns (found: bool, pos: nat, slab: Slab)
      requires Valid()
      modifies this
      ensures Valid()
      ensures !found <==> forall q: nat :: !Has(slabs2[..], q)
      ensures found ==> pos % 64 == 0 && FirstSlab(slabs2[..], old(Cursor()), pos / 64)
      ensures found ==> slab == slabs2[pos / 64] && Cursor() == pos / 64 + 1
    {
      ghost var a2, c := slabs2[..], Cursor();
      EmptySet(a2);
      found, pos, slab := ScanRead();
      if found { return; }
      ghost var d := 8 * (Line() + 1);
      found, pos, slab := ScanLines();
      if found { JoinScan(a2, c, d, pos / 64); }
    }

    /** n scans from a fresh scan state: the non-zero slabs in increasing order, round and round. */
    method ScanTimes(n: nat) returns (found: seq<nat>)
      requires Valid()
      modifies this
      ensures Valid() && if NonZeros(slabs2[..]) == [] then found == [] else |found| == n
      ensures forall k :: 0 <= k < |found| ==>
        NonZeros(slabs2[..]) != [] && found[k] == NonZeros(slabs2[..])[Cycle(k, |NonZeros(slabs2[..])|)]
    {
      ScanInit();
      ghost var start := Cursor();
      found := [];
      var i := 0;
      while i < n
        invariant Valid() && i == |found| <= n && start >= slabs2.Length
        invariant Cursor() == if i == 0 then start else found[i - 1] + 1
        invariant ScanRun(slabs2[..], start, found)
      {
        ghost var c := Cursor();
        var more, pos, slab := Scan();
        if !more {
          FoundHas(slabs2[..], start, found);
          return;
        }
        RunGrows(slabs2[..], start, found, pos / 64);
        found := found + [pos / 64];
        i := i + 1;
      }
      forall k | 0 <= k < |found|
        ensures NonZeros(slabs2[..]) != [] && found[k] == NonZeros(slabs2[..])[Cycle(k, |NonZeros(slabs2[..])|)]
      {
        ScanEnumerates(slabs2[..], start, found, k);
      }
    }
  }
}
