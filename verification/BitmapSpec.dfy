/** The two-level bitmap as a set of bits: array2 holds the bits, array1 has one bit per line of eight
    array2 slabs. */
module BitmapSpec {
  import Words
  import opened Slabs

  /** Bit i of an array of slabs. */
  predicate Has(a: seq<Slab>, i: nat) { i / 64 < |a| && Bit(a[i / 64], i % 64) }

  /** Some slab of the line is not zero. */
  ghost predicate LineFull(a2: seq<Slab>, line: nat) {
    exists i :: 8 * line <= i < 8 * line + 8 && i < |a2| && a2[i] != 0
  }

  ghost predicate Summary(a1: seq<Slab>, a2: seq<Slab>) {
    && |a2| % 8 == 0 && |a2| <= 512 * |a1|
    && forall i :: 0 <= i < 64 * |a1| ==> (Has(a1, i) <==> LineFull(a2, i))
  }

  ghost predicate Zero(a: seq<Slab>, lo: int, hi: int) { forall i :: 0 <= i < |a| && lo <= i < hi ==> a[i] == 0 }

  /** All slabs are zero exactly when the set is empty. */
  lemma EmptySet(a: seq<Slab>)
    ensures Zero(a, 0, |a|) <==> forall q: nat :: !Has(a, q)
  {
    if Zero(a, 0, |a|) {
      forall q: nat ensures !Has(a, q) { ZeroBit(q % 64); }
    } else {
      var i :| 0 <= i < |a| && a[i] != 0;
      LowestNarrow(a[i]);
      var q := 64 * i + Lowest(a[i]);
      assert q / 64 == i && q % 64 == Lowest(a[i]) && Has(a, q);
    }
  }

  // ---------------------------------------------------------------- set, clear

  /** Setting bit i of an array changes that bit only. */
  lemma PutBit(a: seq<Slab>, i: nat, on: bool) returns (r: seq<Slab>)
    requires i / 64 < |a|
    ensures r == a[i / 64 := if on then SetBit(a[i / 64], i % 64) else ClearBit(a[i / 64], i % 64)]
    ensures forall j: nat :: Has(r, j) <==> if i == j then on else Has(a, j)
  {
    r := a[i / 64 := if on then SetBit(a[i / 64], i % 64) else ClearBit(a[i / 64], i % 64)];
    forall j: nat ensures Has(r, j) <==> if i == j then on else Has(a, j) {
      if on { SetBitIs(a[i / 64], i % 64, j % 64); } else { ClearBitIs(a[i / 64], i % 64, j % 64); }
    }
  }

  /** Changing slab k of array2 can only affect its own line. */
  lemma OtherLines(a2: seq<Slab>, k: nat, x: Slab, line: nat)
    requires k < |a2| && line != k / 8
    ensures LineFull(a2[k := x], line) <==> LineFull(a2, line)
  {
    var b := a2[k := x];
    assert forall i :: 0 <= i < |a2| && 8 * line <= i < 8 * line + 8 ==> a2[i] == b[i];
  }

  /** The summary after slab k of array2 became x and the array1 bit of its line `on`. */
  lemma SummaryAfter(a1: seq<Slab>, a2: seq<Slab>, k: nat, x: Slab, b1: seq<Slab>, on: bool)
    requires Summary(a1, a2) && k < |a2| && |b1| == |a1|
    requires forall j: nat :: Has(b1, j) <==> if k / 8 == j then on else Has(a1, j)
    ensures Summary(b1, a2[k := x]) <==> (on <==> LineFull(a2[k := x], k / 8))
  {
    var b2 := a2[k := x];
    forall i | 0 <= i < 64 * |a1| && i != k / 8 ensures Has(b1, i) <==> LineFull(b2, i) {
      OtherLines(a2, k, x, i);
    }
  }

  lemma SetLineFull(a2: seq<Slab>, pos: nat)
    requires pos / 64 < |a2|
    ensures LineFull(a2[pos / 64 := SetBit(a2[pos / 64], pos % 64)], pos / 64 / 8)
  {
    var k := pos / 64;
    var b2 := a2[k := SetBit(a2[k], pos % 64)];
    SetBitIs(a2[k], pos % 64, pos % 64);
    if b2[k] == 0 { ZeroBit(pos % 64); }
    assert 8 * (k / 8) <= k < 8 * (k / 8) + 8 && b2[k] != 0;
  }

  lemma UnionBits(a2: seq<Slab>, k: nat, slab: Slab)
    requires k < |a2| && Or(a2[k], slab) < Words.Pow2(WIDTH)
    ensures forall q: nat :: Has(a2[k := Or(a2[k], slab)], q) <==> Has(a2, q) || (q / 64 == k && Bit(slab, q % 64))
  {
    forall q: nat ensures Has(a2[k := Or(a2[k], slab)], q) <==> Has(a2, q) || (q / 64 == k && Bit(slab, q % 64)) {
      SlabBits(a2, k, Or(a2[k], slab), q);
      OrBit(a2[k], slab, q % 64);
    }
  }

  /** Adding bits to slab k leaves its line non-empty exactly when the slab or the line was not empty. */
  lemma AddedSlab(a2: seq<Slab>, k: nat, x: Slab)
    requires k < |a2| && (a2[k] != 0 ==> x != 0)
    ensures LineFull(a2[k := x], k / 8) <==> x != 0 || LineFull(a2, k / 8)
  {
    var b2 := a2[k := x];
    assert forall i :: 0 <= i < |a2| && i != k ==> a2[i] == b2[i];
    if x != 0 { assert b2[k] != 0; }
    if LineFull(a2, k / 8) {
      var i :| 8 * (k / 8) <= i < 8 * (k / 8) + 8 && i < |a2| && a2[i] != 0;
      assert b2[i] != 0;
    }
    if LineFull(b2, k / 8) && x == 0 {
      var i :| 8 * (k / 8) <= i < 8 * (k / 8) + 8 && i < |b2| && b2[i] != 0;
      assert a2[i] != 0;
    }
  }

  /** Clearing bits needs no change to array1 while the line is not empty. */
  lemma ClearedSummary(a1: seq<Slab>, a2: seq<Slab>, k: nat, x: Slab)
    requires Summary(a1, a2) && k < |a2| && (x != 0 ==> a2[k] != 0)
    ensures x != 0 || LineFull(a2[k := x], k / 8) ==> Summary(a1, a2[k := x])
  {
    var b2 := a2[k := x];
    if x != 0 || LineFull(b2, k / 8) {
      AddedSlab(b2, k, a2[k]);
      assert b2[k := a2[k]] == a2;
      if x != 0 { assert b2[k] != 0; }
      assert forall j: nat :: Has(a1, j) <==> if k / 8 == j then Has(a1, k / 8) else Has(a1, j);
      SummaryAfter(a1, a2, k, x, a1, true);
    }
  }

  lemma EightSlabs(a2: seq<Slab>, base: nat)
    requires base % 8 == 0 && base + 8 <= |a2|
    ensures LineFull(a2, base / 8) <==>
      (a2[base] != 0 || a2[base + 1] != 0 || a2[base + 2] != 0 || a2[base + 3] != 0
       || a2[base + 4] != 0 || a2[base + 5] != 0 || a2[base + 6] != 0 || a2[base + 7] != 0)
  {
  }

  /** The bits of array2 after slab k became x. */
  lemma SlabBits(a2: seq<Slab>, k: nat, x: Slab, q: nat)
    requires k < |a2|
    ensures Has(a2[k := x], q) <==> if q / 64 == k then Bit(x, q % 64) else Has(a2, q)
  {
  }

  // ---------------------------------------------------------------- cyclic search

  /** M is the first bit of array1 after bit L, going round. */
  ghost predicate FirstLine(a1: seq<Slab>, L: nat, M: nat) {
    && Has(a1, M)
    && forall i :: 0 <= i < 64 * |a1| && (if M > L then L < i < M else i > L || i < M) ==> !Has(a1, i)
  }

  /** Slab j of array2 is the first that is not zero from position c on, going round. */
  ghost predicate FirstSlab(a2: seq<Slab>, c: nat, j: nat) {
    && j < |a2| && a2[j] != 0
    && if c <= j then Zero(a2, c, j) else Zero(a2, c, |a2|) && Zero(a2, 0, j)
  }

  lemma EmptyLine(a2: seq<Slab>, line: nat, i: nat)
    requires !LineFull(a2, line) && i < |a2| && i / 8 == line
    ensures a2[i] == 0
  {
  }

  /** The first non-zero slab of the first non-empty line is the first non-zero slab. */
  lemma LineToSlab(a1: seq<Slab>, a2: seq<Slab>, L: nat, M: nat, j: nat)
    requires Summary(a1, a2) && L < 64 * |a1| && M < 64 * |a1| && FirstLine(a1, L, M)
    requires 8 * M <= j < 8 * M + 8 && j < |a2| && a2[j] != 0 && Zero(a2, 8 * M, j)
    ensures FirstSlab(a2, 8 * (L + 1), j)
  {
    forall i | 0 <= i < |a2| && (if M > L then 8 * (L + 1) <= i < 8 * M else i >= 8 * (L + 1) || i < 8 * M)
      ensures a2[i] == 0
    {
      assert !Has(a1, i / 8);
      EmptyLine(a2, i / 8, i);
    }
  }

  /** Nothing in the rest of the current line, then the first after it. */
  lemma JoinScan(a2: seq<Slab>, c: nat, d: nat, j: nat)
    requires c <= d && Zero(a2, c, d) && FirstSlab(a2, d, j)
    ensures FirstSlab(a2, c, j)
  {
  }

  lemma NoLineNoSlab(a1: seq<Slab>, a2: seq<Slab>)
    requires Summary(a1, a2) && forall i :: 0 <= i < 64 * |a1| ==> !Has(a1, i)
    ensures Zero(a2, 0, |a2|)
  {
    forall i | 0 <= i < |a2| ensures a2[i] == 0 {
      assert !Has(a1, i / 8);
      EmptyLine(a2, i / 8, i);
    }
  }

  /** Bit o is the lowest of x above off, if there is one. */
  ghost predicate NextBit(x: Slab, off: nat, o: nat) {
    off < o < 64 && Bit(x, o) && forall j :: off < j < o ==> !Bit(x, j)
  }

  ghost predicate NoBit(x: Slab, off: nat) { forall j :: off < j < 64 ==> !Bit(x, j) }

  /** The rest of the current array1 slab has a bit. */
  lemma FoundNear(a1: seq<Slab>, s: nat, off: nat, o: nat)
    requires s < |a1| && off < 64 && NextBit(a1[s], off, o)
    ensures FirstLine(a1, 64 * s + off, 64 * s + o)
  {
    var L, M := 64 * s + off, 64 * s + o;
    assert forall i :: L < i < M && 0 <= i < 64 * |a1| ==> i / 64 == s && off < i % 64 < o && !Has(a1, i);
  }

  lemma ZeroSlab(a1: seq<Slab>, i: nat)
    requires i / 64 < |a1| && a1[i / 64] == 0
    ensures !Has(a1, i)
  {
    ZeroBit(i % 64);
  }

  lemma NoneBetween(a1: seq<Slab>, s: nat, off: nat, u: nat, o: nat, i: nat)
    requires s < |a1| && off < 64 && u < |a1| && NoBit(a1[s], off) && a1[u] != 0 && o == Lowest(a1[u])
    requires if u > s then Zero(a1, s + 1, u) else Zero(a1, s + 1, |a1|) && Zero(a1, 0, u)
    requires i < 64 * |a1|
    requires if 64 * u + o > 64 * s + off then 64 * s + off < i < 64 * u + o else i > 64 * s + off || i < 64 * u + o
    ensures !Has(a1, i)
  {
    LowestNarrow(a1[u]);
    if i / 64 == s && i > 64 * s + off {
      assert off < i % 64 < 64;
    } else if i / 64 == u {
      LowestIs(a1[u], i % 64);
    } else {
      ZeroSlab(a1, i);
    }
  }

  /** It has none, and slab u is the next that is not zero. */
  lemma FoundFar(a1: seq<Slab>, s: nat, off: nat, u: nat)
    requires s < |a1| && off < 64 && u < |a1| && NoBit(a1[s], off) && a1[u] != 0
    requires if u > s then Zero(a1, s + 1, u) else Zero(a1, s + 1, |a1|) && Zero(a1, 0, u)
    ensures Lowest(a1[u]) < 64 && FirstLine(a1, 64 * s + off, 64 * u + Lowest(a1[u]))
  {
    LowestNarrow(a1[u]);
    var o := Lowest(a1[u]);
    var L, M := 64 * s + off, 64 * u + o;
    forall i | 0 <= i < 64 * |a1| && (if M > L then L < i < M else i > L || i < M) ensures !Has(a1, i) {
      NoneBetween(a1, s, off, u, o, i);
    }
  }

  lemma FoundNone(a1: seq<Slab>)
    requires Zero(a1, 0, |a1|)
    ensures forall i :: 0 <= i < 64 * |a1| ==> !Has(a1, i)
  {
    forall i | 0 <= i < 64 * |a1| ensures !Has(a1, i) { ZeroSlab(a1, i); }
  }

  // ---------------------------------------------------------------- a whole scan cycle

  /** Positions of the non-zero slabs, increasing. */
  function NonZeros(a2: seq<Slab>): seq<nat> {
    if a2 == [] then []
    else
      var n := |a2| - 1;
      NonZeros(a2[..n]) + if a2[n] != 0 then [n] else []
  }

  lemma {:induction false} NonZerosAre(a2: seq<Slab>)
    ensures forall k :: 0 <= k < |NonZeros(a2)| ==> NonZeros(a2)[k] < |a2| && a2[NonZeros(a2)[k]] != 0
    ensures forall j, k :: 0 <= j < k < |NonZeros(a2)| ==> NonZeros(a2)[j] < NonZeros(a2)[k]
    ensures forall i :: 0 <= i < |a2| && a2[i] != 0 ==> i in NonZeros(a2)
  {
    if a2 != [] {
      var n := |a2| - 1;
      var b, z := a2[..n], NonZeros(a2[..n]);
      NonZerosAre(b);
      assert NonZeros(a2) == z + if a2[n] != 0 then [n] else [];
      forall i | 0 <= i < |a2| && a2[i] != 0 ensures i in NonZeros(a2) {
        if i < n { assert b[i] != 0 && i in z; }
      }
    }
  }

  /** After the k-th non-zero slab comes the next one, and after the last the first. */
  lemma NextSlab(a2: seq<Slab>, c: nat, j: nat, k: nat)
    requires var z := NonZeros(a2); k < |z| && c == z[k] + 1 && FirstSlab(a2, c, j)
    ensures var z := NonZeros(a2); j == z[if k + 1 < |z| then k + 1 else 0]
  {
    NonZerosAre(a2);
    var z := NonZeros(a2);
    var n := if k + 1 < |z| then k + 1 else 0;
    assert j in z;
    var i :| 0 <= i < |z| && z[i] == j;
    assert a2[z[n]] != 0;
    assert i < k ==> z[i] < z[k];
  }

  lemma FirstOfAll(a2: seq<Slab>, c: nat, j: nat)
    requires c >= |a2| && FirstSlab(a2, c, j)
    ensures NonZeros(a2) != [] && j == NonZeros(a2)[0]
  {
    NonZerosAre(a2);
    var z := NonZeros(a2);
    assert j in z;
    var i :| 0 <= i < |z| && z[i] == j;
    assert a2[z[0]] != 0;
  }

  /** A run of scans over an unchanged bitmap: each starts after the slab returned before it. */
  ghost predicate ScanRun(a2: seq<Slab>, start: nat, found: seq<nat>) {
    forall k: nat :: k < |found| ==> ScanAt(a2, start, found, k)
  }

  ghost predicate ScanAt(a2: seq<Slab>, start: nat, found: seq<nat>, k: nat)
    requires k < |found|
  {
    FirstSlab(a2, if k == 0 then start else found[k - 1] + 1, found[k])
  }

  lemma RunGrows(a2: seq<Slab>, start: nat, found: seq<nat>, j: nat)
    requires ScanRun(a2, start, found) && FirstSlab(a2, if found == [] then start else found[|found| - 1] + 1, j)
    ensures ScanRun(a2, start, found + [j])
  {
    forall k: nat | k < |found| + 1 ensures ScanAt(a2, start, found + [j], k) {
      if k < |found| { assert ScanAt(a2, start, found, k); }
    }
  }

  /** What was found is a slab with a bit. */
  lemma FoundHas(a2: seq<Slab>, start: nat, found: seq<nat>)
    requires ScanRun(a2, start, found)
    ensures found != [] || NonZeros(a2) != [] ==> exists q: nat :: Has(a2, q)
  {
    EmptySet(a2);
    NonZerosAre(a2);
    if found != [] { assert ScanAt(a2, start, found, 0); }
    if NonZeros(a2) != [] { assert a2[NonZeros(a2)[0]] != 0; }
  }

  function Cycle(k: nat, n: nat): (r: nat)
    requires n > 0
    ensures r < n && r == k % n
  {
    k % n
  }

  /** From a fresh scan state the k-th scan returns the k-th non-zero slab, and round again. */
  lemma {:induction false} ScanEnumerates(a2: seq<Slab>, start: nat, found: seq<nat>, k: nat)
    requires start >= |a2| && ScanRun(a2, start, found) && k < |found|
    ensures NonZeros(a2) != [] && found[k] == NonZeros(a2)[Cycle(k, |NonZeros(a2)|)]
  {
    assert ScanAt(a2, start, found, k);
    if k == 0 {
      FirstOfAll(a2, start, found[0]);
    } else {
      ScanEnumerates(a2, start, found, k - 1);
      var n := |NonZeros(a2)|;
      NextSlab(a2, found[k - 1] + 1, found[k], Cycle(k - 1, n));
      CycleStep(k - 1, n);
    }
  }

  lemma CycleStep(k: nat, n: nat)
    requires n > 0
    ensures Cycle(k + 1, n) == if Cycle(k, n) + 1 < n then Cycle(k, n) + 1 else 0
  {
    var q, r := k / n, k % n;
    if r + 1 < n { Words.ModUnique(k + 1, q, r + 1, n); } else {
      assert k + 1 == (q + 1) * n;
      Words.ModUnique(k + 1, q + 1, 0, n);
    }
  }
}
