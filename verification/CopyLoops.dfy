/** The unrolled copy loops of rte_lib/ring/rte_ring_elem_pvt.h, against one simple form. */
module CopyLoops {
  import opened Words
  import opened Bits

  /** The simple form: object i goes to slot (idx + i) modulo the ring's size, one at a time. */
  function Written<T>(ring: seq<T>, idx: nat, objs: seq<T>): (r: seq<T>)
    requires 0 < |ring|
    ensures |r| == |ring|
    decreases |objs|
  {
    if objs == [] then ring
    else
      var last := |objs| - 1;
      Written(ring, idx, objs[..last])[Wrap(idx + last, |ring|) := objs[last]]
  }

  /** The simple form of dequeue: object i comes from slot (idx + i) modulo the ring's size. */
  function Fetched<T>(ring: seq<T>, idx: nat, n: nat): (r: seq<T>)
    requires 0 < |ring|
    ensures |r| == n
  {
    seq(n, i requires 0 <= i => ring[Wrap(idx + i, |ring|)])
  }

  /** Which object of an enqueue at idx lands in slot p. */
  function ObjectOf(p: nat, idx: nat, size: nat): nat
    requires p < size && idx < size
  {
    if p < idx then p + size - idx else p - idx
  }

  lemma ObjectOfSlot(p: nat, idx: nat, size: nat, j: nat)
    requires p < size && idx < size && j < size
    ensures Wrap(idx + j, size) == p <==> j == ObjectOf(p, idx, size)
  {
  }

  /** What Written leaves in each slot: the object that lands there, or what was there. */
  lemma {:induction false} WrittenAt<T>(ring: seq<T>, idx: nat, objs: seq<T>, p: nat)
    requires p < |ring| && idx < |ring| && |objs| <= |ring|
    ensures Written(ring, idx, objs)[p] ==
      if ObjectOf(p, idx, |ring|) < |objs| then objs[ObjectOf(p, idx, |ring|)] else ring[p]
  {
    if objs != [] {
      var last := |objs| - 1;
      WrittenAt(ring, idx, objs[..last], p);
      ObjectOfSlot(p, idx, |ring|, last);
    }
  }

  /** Dequeue at the same head returns exactly what enqueue wrote, for any count the ring can hold. */
  lemma RoundTrip<T>(ring: seq<T>, idx: nat, objs: seq<T>)
    requires idx < |ring| && |objs| <= |ring|
    ensures Fetched(Written(ring, idx, objs), idx, |objs|) == objs
  {
    forall j | 0 <= j < |objs| ensures Fetched(Written(ring, idx, objs), idx, |objs|)[j] == objs[j] {
      var p := Wrap(idx + j, |ring|);
      WrittenAt(ring, idx, objs, p);
      ObjectOfSlot(p, idx, |ring|, j);
    }
  }

  // ---------------------------------------------------------------- enqueue

  /** Objects from..to are in place, the first of them in slot `at`, and nothing else has changed. */
  ghost predicate Placed<T>(now: seq<T>, was: seq<T>, at: nat, objs: seq<T>, from: nat, to: nat) {
    && |now| == |was| && from <= to <= |objs| && at + (to - from) <= |was|
    && (forall j :: from <= j < to ==> now[at + (j - from)] == objs[j])
    && (forall p :: 0 <= p < |was| && !(at <= p < at + (to - from)) ==> now[p] == was[p])
  }

  /** Two runs of slots, up to the end and again from the start, make up the simple form. */
  lemma PlacedIsWritten<T>(now: seq<T>, mid: seq<T>, was: seq<T>, idx: nat, objs: seq<T>, m: nat)
    requires 0 < |was| && idx < |was| && |objs| <= |was| && m <= |objs|
    requires Placed(mid, was, idx, objs, 0, m) && Placed(now, mid, 0, objs, m, |objs|)
    requires m == |objs| || idx + m == |was|
    ensures now == Written(was, idx, objs)
  {
    forall p | 0 <= p < |was| ensures now[p] == Written(was, idx, objs)[p] {
      WrittenAt(was, idx, objs, p);
      var j := ObjectOf(p, idx, |was|);
      if p < idx {
        if j < |objs| { assert now[0 + (j - m)] == objs[j]; }
      } else if j < |objs| {
        assert mid[idx + (j - 0)] == objs[j];
      }
    }
  }

  /** Straight-line stores of a block of objects. */
  method StoreEight<T>(ring: array<T>, idx: nat, obj: seq<T>, i: nat)
    requires idx + 8 <= ring.Length && i + 8 <= |obj|
    modifies ring
    ensures Placed(ring[..], old(ring[..]), idx, obj, i, i + 8)
  {
    ring[idx] := obj[i];
    ring[idx + 1] := obj[i + 1];
    ring[idx + 2] := obj[i + 2];
    ring[idx + 3] := obj[i + 3];
    ring[idx + 4] := obj[i + 4];
    ring[idx + 5] := obj[i + 5];
    ring[idx + 6] := obj[i + 6];
    ring[idx + 7] := obj[i + 7];
  }

  /** The fall-through switch: case k stores k objects. Cases 3, 2, 1 first. */
  method StoreThree<T>(ring: array<T>, start: nat, obj: seq<T>, from: nat, k: nat)
    requires k <= 3 && start + k <= ring.Length && from + k == |obj|
    modifies ring
    ensures Placed(ring[..], old(ring[..]), start, obj, from, |obj|)
  {
    var idx, i := start, from;
    if k >= 3 { ring[idx] := obj[i]; idx, i := idx + 1, i + 1; }
    if k >= 2 { ring[idx] := obj[i]; idx, i := idx + 1, i + 1; }
    if k >= 1 { ring[idx] := obj[i]; idx, i := idx + 1, i + 1; }
  }

  /** Cases 5 and 4, then on into case 3. */
  method StoreFive<T>(ring: array<T>, start: nat, obj: seq<T>, from: nat, k: nat)
    requires k <= 5 && start + k <= ring.Length && from + k == |obj|
    modifies ring
    ensures Placed(ring[..], old(ring[..]), start, obj, from, |obj|)
  {
    var idx, i := start, from;
    if k >= 5 { ring[idx] := obj[i]; idx, i := idx + 1, i + 1; }
    if k >= 4 { ring[idx] := obj[i]; idx, i := idx + 1, i + 1; }
    ghost var mid := ring[..];
    StoreThree(ring, idx, obj, i, if k > 3 then 3 else k);
    PlacedJoin(ring[..], mid, old(ring[..]), start, obj, from, i, |obj|);
  }

  /** Cases 7 and 6, then on into case 5. */
  method StoreSeven<T>(ring: array<T>, start: nat, obj: seq<T>, from: nat, k: nat)
    requires k <= 7 && start + k <= ring.Length && from + k == |obj|
    modifies ring
    ensures Placed(ring[..], old(ring[..]), start, obj, from, |obj|)
  {
    var idx, i := start, from;
    if k >= 7 { ring[idx] := obj[i]; idx, i := idx + 1, i + 1; }
    if k >= 6 { ring[idx] := obj[i]; idx, i := idx + 1, i + 1; }
    ghost var mid := ring[..];
    StoreFive(ring, idx, obj, i, if k > 5 then 5 else k);
    PlacedJoin(ring[..], mid, old(ring[..]), start, obj, from, i, |obj|);
  }

  lemma PlacedJoin<T>(now: seq<T>, mid: seq<T>, was: seq<T>, at: nat, objs: seq<T>, from: nat, m: nat, to: nat)
    requires Placed(mid, was, at, objs, from, m) && Placed(now, mid, at + (m - from), objs, m, to)
    ensures Placed(now, was, at, objs, from, to)
  {
    forall j | from <= j < to ensures now[at + (j - from)] == objs[j] {
      if j < m {
        assert mid[at + (j - from)] == objs[j];
      } else {
        assert now[at + (m - from) + (j - m)] == objs[j];
      }
    }
  }

  /** The branch without wrap-around: blocks of eight, then the rest. */
  method StoreStraight<T>(ring: array<T>, start: nat, obj: seq<T>)
    requires start + |obj| < ring.Length
    modifies ring
    ensures Placed(ring[..], old(ring[..]), start, obj, 0, |obj|)
  {
    var n := |obj|;
    var idx, i := start, 0;
    while i < n - n % 8
      invariant idx == start + i && i <= n - n % 8 && i % 8 == 0
      invariant Placed(ring[..], old(ring[..]), start, obj, 0, i)
    {
      ghost var mid := ring[..];
      StoreEight(ring, idx, obj, i);
      PlacedJoin(ring[..], mid, old(ring[..]), start, obj, 0, i, i + 8);
      i, idx := i + 8, idx + 8;
    }
    ghost var mid := ring[..];
    StoreSeven(ring, idx, obj, i, n % 8);
    PlacedJoin(ring[..], mid, old(ring[..]), start, obj, 0, i, n);
  }

  /** The branch with wrap-around: to the end of the ring, then from its beginning. */
  method StoreAround<T>(ring: array<T>, start: nat, obj: seq<T>)
    requires start < ring.Length <= start + |obj| && |obj| <= ring.Length
    modifies ring
    ensures ring[..] == Written(old(ring[..]), start, obj)
  {
    var size, n := ring.Length, |obj|;
    var idx, i := start, 0;
    while idx < size
      invariant idx == start + i && idx <= size
      invariant Placed(ring[..], old(ring[..]), start, obj, 0, i)
    {
      ring[idx] := obj[i];
      i, idx := i + 1, idx + 1;
    }
    ghost var mid, m := ring[..], i;
    idx := 0;
    while i < n
      invariant idx == i - m && m <= i <= n
      invariant Placed(ring[..], mid, 0, obj, m, i)
    {
      ring[idx] := obj[i];
      i, idx := i + 1, idx + 1;
    }
    PlacedIsWritten(ring[..], mid, old(ring[..]), start, obj, m);
  }

  /** Copy n words into the ring. The comparison is made in 32 bits, which cannot overflow while twice
      the ring's size fits 32 bits. */
  method Enqueue32<T>(ring: array<T>, start: nat, obj: seq<T>)
    requires start < ring.Length && 2 * ring.Length <= W && |obj| <= ring.Length
    modifies ring
    ensures ring[..] == Written(old(ring[..]), start, obj)
  {
    if (start + |obj|) % W < ring.Length {
      StoreStraight(ring, start, obj);
      PlacedIsWritten(ring[..], ring[..], old(ring[..]), start, obj, |obj|);
    } else {
      StoreAround(ring, start, obj);
    }
  }

  // ---------------------------------------------------------------- dequeue

  /** Objects from..to of the table come from the slots that start at `at`; the rest is untouched. */
  ghost predicate Taken<T>(now: seq<T>, was: seq<T>, ring: seq<T>, at: nat, from: nat, to: nat) {
    && |now| == |was| && from <= to <= |now| && at + (to - from) <= |ring|
    && (forall j :: from <= j < to ==> now[j] == ring[at + (j - from)])
    && (forall j :: 0 <= j < |now| && !(from <= j < to) ==> now[j] == was[j])
  }

  method LoadEight<T>(ring: array<T>, idx: nat, obj: array<T>, i: nat)
    requires ring != obj && idx + 8 <= ring.Length && i + 8 <= obj.Length
    modifies obj
    ensures Taken(obj[..], old(obj[..]), ring[..], idx, i, i + 8)
  {
    obj[i] := ring[idx];
    obj[i + 1] := ring[idx + 1];
    obj[i + 2] := ring[idx + 2];
    obj[i + 3] := ring[idx + 3];
    obj[i + 4] := ring[idx + 4];
    obj[i + 5] := ring[idx + 5];
    obj[i + 6] := ring[idx + 6];
    obj[i + 7] := ring[idx + 7];
  }

  method LoadThree<T>(ring: array<T>, start: nat, obj: array<T>, from: nat, k: nat)
    requires ring != obj && k <= 3 && start + k <= ring.Length && from + k == obj.Length
    modifies obj
    ensures Taken(obj[..], old(obj[..]), ring[..], start, from, obj.Length)
  {
    var idx, i := start, from;
    if k >= 3 { obj[i] := ring[idx]; idx, i := idx + 1, i + 1; }
    if k >= 2 { obj[i] := ring[idx]; idx, i := idx + 1, i + 1; }
    if k >= 1 { obj[i] := ring[idx]; idx, i := idx + 1, i + 1; }
  }

  method LoadSeven<T>(ring: array<T>, start: nat, obj: array<T>, from: nat, k: nat)
    requires ring != obj && k <= 7 && start + k <= ring.Length && from + k == obj.Length
    modifies obj
    ensures Taken(obj[..], old(obj[..]), ring[..], start, from, obj.Length)
  {
    var idx, i := start, from;
    if k >= 7 { obj[i] := ring[idx]; idx, i := idx + 1, i + 1; }
    if k >= 6 { obj[i] := ring[idx]; idx, i := idx + 1, i + 1; }
    if k >= 5 { obj[i] := ring[idx]; idx, i := idx + 1, i + 1; }
    if k >= 4 { obj[i] := ring[idx]; idx, i := idx + 1, i + 1; }
    ghost var mid := obj[..];
    LoadThree(ring, idx, obj, i, if k > 3 then 3 else k);
    TakenJoin(obj[..], mid, old(obj[..]), ring[..], start, from, i, obj.Length);
  }

  lemma TakenIsFetched<T>(now: seq<T>, mid: seq<T>, was: seq<T>, ring: seq<T>, idx: nat, m: nat)
    requires idx < |ring| && |now| <= |ring|
    requires Taken(mid, was, ring, idx, 0, m) && Taken(now, mid, ring, 0, m, |now|)
    requires m == |now| || idx + m == |ring|
    ensures now == Fetched(ring, idx, |now|)
  {
    forall j | 0 <= j < |now| ensures now[j] == Fetched(ring, idx, |now|)[j] {
      if j < m {
        assert now[j] == mid[j];
        assert mid[j] == ring[idx + (j - 0)];
        assert Wrap(idx + j, |ring|) == idx + j;
      } else {
        assert now[j] == ring[0 + (j - m)];
        assert Wrap(idx + j, |ring|) == Wrap(idx + j - |ring|, |ring|) == j - m;
      }
    }
  }

  method LoadStraight<T>(ring: array<T>, start: nat, obj: array<T>)
    requires ring != obj && start + obj.Length < ring.Length
    modifies obj
    ensures Taken(obj[..], old(obj[..]), ring[..], start, 0, obj.Length)
  {
    var n := obj.Length;
    var idx, i := start, 0;
    while i < n - n % 8
      invariant idx == start + i && i <= n - n % 8 && i % 8 == 0
      invariant Taken(obj[..], old(obj[..]), ring[..], start, 0, i)
    {
      ghost var mid := obj[..];
      LoadEight(ring, idx, obj, i);
      TakenJoin(obj[..], mid, old(obj[..]), ring[..], start, 0, i, i + 8);
      i, idx := i + 8, idx + 8;
    }
    ghost var mid := obj[..];
    LoadSeven(ring, idx, obj, i, n % 8);
    TakenJoin(obj[..], mid, old(obj[..]), ring[..], start, 0, i, n);
  }

  lemma TakenJoin<T>(now: seq<T>, mid: seq<T>, was: seq<T>, ring: seq<T>, at: nat, from: nat, m: nat, to: nat)
    requires Taken(mid, was, ring, at, from, m) && Taken(now, mid, ring, at + (m - from), m, to)
    ensures Taken(now, was, ring, at, from, to)
  {
    forall j | from <= j < to ensures now[j] == ring[at + (j - from)] {
      if j < m { assert mid[j] == ring[at + (j - from)]; } else { assert now[j] == ring[at + (m - from) + (j - m)]; }
    }
  }

  method LoadAround<T>(ring: array<T>, start: nat, obj: array<T>)
    requires ring != obj && start < ring.Length <= start + obj.Length && obj.Length <= ring.Length
    modifies obj
    ensures obj[..] == Fetched(ring[..], start, obj.Length)
  {
    var size, n := ring.Length, obj.Length;
    var idx, i := start, 0;
    while idx < size
      invariant idx == start + i && idx <= size
      invariant Taken(obj[..], old(obj[..]), ring[..], start, 0, i)
    {
      obj[i] := ring[idx];
      i, idx := i + 1, idx + 1;
    }
    ghost var mid, m := obj[..], i;
    idx := 0;
    while i < n
      invariant idx == i - m && m <= i <= n
      invariant Taken(obj[..], mid, ring[..], 0, m, i)
    {
      obj[i] := ring[idx];
      i, idx := i + 1, idx + 1;
    }
    TakenIsFetched(obj[..], mid, old(obj[..]), ring[..], start, m);
  }

  method Dequeue32<T>(ring: array<T>, start: nat, obj: array<T>)
    requires ring != obj && start < ring.Length && 2 * ring.Length <= W && obj.Length <= ring.Length
    modifies obj
    ensures obj[..] == Fetched(ring[..], start, obj.Length)
  {
    if (start + obj.Length) % W < ring.Length {
      LoadStraight(ring, start, obj);
      TakenIsFetched(obj[..], obj[..], old(obj[..]), ring[..], start, obj.Length);
    } else {
      LoadAround(ring, start, obj);
    }
  }

  // ---------------------------------------------------------------- 8 and 16 byte elements

  /** Blocks of four, then the rest. */
  method StoreByFours<T>(ring: array<T>, start: nat, obj: seq<T>)
    requires start + |obj| < ring.Length
    modifies ring
    ensures Placed(ring[..], old(ring[..]), start, obj, 0, |obj|)
  {
    var n := |obj|;
    var idx, i := start, 0;
    while i < n - n % 4
      invariant idx == start + i && i <= n - n % 4 && i % 4 == 0
      invariant Placed(ring[..], old(ring[..]), start, obj, 0, i)
    {
      ring[idx] := obj[i];
      ring[idx + 1] := obj[i + 1];
      ring[idx + 2] := obj[i + 2];
      ring[idx + 3] := obj[i + 3];
      i, idx := i + 4, idx + 4;
    }
    ghost var mid := ring[..];
    StoreThree(ring, idx, obj, i, n % 4);
    PlacedJoin(ring[..], mid, old(ring[..]), start, obj, 0, i, n);
  }

  /** Blocks of two, then at most one more. */
  method StoreByTwos<T>(ring: array<T>, start: nat, obj: seq<T>)
    requires start + |obj| < ring.Length
    modifies ring
    ensures Placed(ring[..], old(ring[..]), start, obj, 0, |obj|)
  {
    var n := |obj|;
    var idx, i := start, 0;
    while i < n - n % 2
      invariant idx == start + i && i <= n - n % 2 && i % 2 == 0
      invariant Placed(ring[..], old(ring[..]), start, obj, 0, i)
    {
      ring[idx] := obj[i];
      ring[idx + 1] := obj[i + 1];
      i, idx := i + 2, idx + 2;
    }
    if n % 2 == 1 { ring[idx] := obj[i]; }
  }

  method LoadByFours<T>(ring: array<T>, start: nat, obj: array<T>)
    requires ring != obj && start + obj.Length < ring.Length
    modifies obj
    ensures Taken(obj[..], old(obj[..]), ring[..], start, 0, obj.Length)
  {
    var n := obj.Length;
    var idx, i := start, 0;
    while i < n - n % 4
      invariant idx == start + i && i <= n - n % 4 && i % 4 == 0
      invariant Taken(obj[..], old(obj[..]), ring[..], start, 0, i)
    {
      obj[i] := ring[idx];
      obj[i + 1] := ring[idx + 1];
      obj[i + 2] := ring[idx + 2];
      obj[i + 3] := ring[idx + 3];
      i, idx := i + 4, idx + 4;
    }
    ghost var mid := obj[..];
    LoadThree(ring, idx, obj, i, n % 4);
    TakenJoin(obj[..], mid, old(obj[..]), ring[..], start, 0, i, n);
  }

  method LoadByTwos<T>(ring: array<T>, start: nat, obj: array<T>)
    requires ring != obj && start + obj.Length < ring.Length
    modifies obj
    ensures Taken(obj[..], old(obj[..]), ring[..], start, 0, obj.Length)
  {
    var n := obj.Length;
    var idx, i := start, 0;
    while i < n - n % 2
      invariant idx == start + i && i <= n - n % 2 && i % 2 == 0
      invariant Taken(obj[..], old(obj[..]), ring[..], start, 0, i)
    {
      obj[i] := ring[idx];
      obj[i + 1] := ring[idx + 1];
      i, idx := i + 2, idx + 2;
    }
    if n % 2 == 1 { obj[i] := ring[idx]; }
  }

  /** Wrapping the head first makes no difference. */
  lemma WrapFirst(head: nat, i: nat, size: nat)
    requires size > 0
    ensures Wrap(Wrap(head, size) + i, size) == Wrap(head + i, size)
  {
    if head >= size {
      WrapFirst(head - size, i, size);
    }
  }

  lemma {:induction false} WrittenWraps<T>(ring: seq<T>, head: nat, objs: seq<T>)
    requires 0 < |ring|
    ensures Written(ring, Wrap(head, |ring|), objs) == Written(ring, head, objs)
  {
    if objs != [] {
      WrittenWraps(ring, head, objs[..|objs| - 1]);
      WrapFirst(head, |objs| - 1, |ring|);
    }
  }

  lemma FetchedWraps<T>(ring: seq<T>, head: nat, n: nat)
    requires 0 < |ring|
    ensures Fetched(ring, Wrap(head, |ring|), n) == Fetched(ring, head, n)
  {
    forall i | 0 <= i < n ensures Fetched(ring, Wrap(head, |ring|), n)[i] == Fetched(ring, head, n)[i] {
      WrapFirst(head, i, |ring|);
    }
  }

  /** Enqueue of 8 byte (`pairs` false) and 16 byte elements at any 32-bit head. */
  method EnqueueWide<T>(ring: array<T>, order: nat, head: nat, obj: seq<T>, pairs: bool)
    requires order <= 31 && ring.Length == Pow2(order) && 2 * ring.Length <= W && |obj| <= ring.Length
    modifies ring
    ensures ring[..] == Written(old(ring[..]), head, obj)
  {
    MaskIsWrap(head, order);
    WrittenWraps(ring[..], head, obj);
    var idx := And(head, ring.Length - 1);
    if (idx + |obj|) % W < ring.Length {
      if pairs { StoreByTwos(ring, idx, obj); } else { StoreByFours(ring, idx, obj); }
      PlacedIsWritten(ring[..], ring[..], old(ring[..]), idx, obj, |obj|);
    } else {
      StoreAround(ring, idx, obj);
    }
  }

  method DequeueWide<T>(ring: array<T>, order: nat, head: nat, obj: array<T>, pairs: bool)
    requires ring != obj && order <= 31 && ring.Length == Pow2(order) && 2 * ring.Length <= W
    requires obj.Length <= ring.Length
    modifies obj
    ensures obj[..] == Fetched(ring[..], head, obj.Length)
  {
    MaskIsWrap(head, order);
    FetchedWraps(ring[..], head, obj.Length);
    var idx := And(head, ring.Length - 1);
    if (idx + obj.Length) % W < ring.Length {
      if pairs { LoadByTwos(ring, idx, obj); } else { LoadByFours(ring, idx, obj); }
      TakenIsFetched(obj[..], obj[..], old(obj[..]), ring[..], idx, obj.Length);
    } else {
      LoadAround(ring, idx, obj);
    }
  }

  // ---------------------------------------------------------------- other element sizes, as 32-bit words

  /** The words taken by i elements. */
  function Times(i: nat, scale: nat): nat {
    if i == 0 then 0 else Times(i - 1, scale) + scale
  }

  lemma TimesIsProduct(i: nat, scale: nat)
    ensures Times(i, scale) == i * scale
  {
    if i > 0 {
      TimesIsProduct(i - 1, scale);
      assert i * scale == (i - 1) * scale + scale;
    }
  }

  lemma TimesAdd(a: nat, b: nat, scale: nat)
    ensures Times(a + b, scale) == Times(a, scale) + Times(b, scale)
  {
    if b > 0 { TimesAdd(a, b - 1, scale); }
  }

  lemma TimesMono(a: nat, b: nat, scale: nat)
    requires a <= b
    ensures Times(a, scale) <= Times(b, scale)
  {
    if a < b { TimesMono(a, b - 1, scale); }
  }

  /** Memory of n elements of `scale` words each, element by element. */
  function Elements<T>(words: seq<T>, scale: nat, n: nat): (r: seq<seq<T>>)
    requires |words| == Times(n, scale)
    ensures |r| == n
  {
    seq(n, i requires 0 <= i < n => Element(words, scale, n, i))
  }

  function Element<T>(words: seq<T>, scale: nat, n: nat, i: nat): (r: seq<T>)
    requires |words| == Times(n, scale) && i < n
    ensures |r| == scale
  {
    ElementFits(scale, n, i);
    words[Times(i, scale)..Times(i, scale) + scale]
  }

  lemma ElementFits(scale: nat, n: nat, i: nat)
    requires i < n
    ensures Times(i, scale) + scale <= Times(n, scale)
  {
    TimesMono(i + 1, n, scale);
  }

  lemma ScaledObject(p: nat, idx: nat, size: nat, scale: nat, w: nat)
    requires p < size && idx < size && w < scale
    ensures Times(p, scale) + w < Times(size, scale) && Times(idx, scale) < Times(size, scale)
    ensures ObjectOf(Times(p, scale) + w, Times(idx, scale), Times(size, scale)) ==
      Times(ObjectOf(p, idx, size), scale) + w
  {
    ElementFits(scale, size, p);
    ElementFits(scale, size, idx);
    if p < idx {
      ElementFits(scale, idx, p);
      TimesAdd(p + size - idx, idx, scale);
      TimesAdd(p, size, scale);
    } else {
      TimesAdd(idx, p - idx, scale);
    }
  }

  lemma ScaledBound(j: nat, num: nat, scale: nat, w: nat)
    requires w < scale
    ensures Times(j, scale) + w < Times(num, scale) <==> j < num
  {
    if j < num { ElementFits(scale, num, j); } else { TimesMono(num, j, scale); }
  }

  /** Writing words from the idx-th element on is writing elements from idx on. */
  lemma WrittenScales<T>(ring: seq<T>, idx: nat, obj: seq<T>, scale: nat, size: nat, num: nat)
    requires |ring| == Times(size, scale) && 0 < |ring| && idx < size && |obj| == Times(num, scale) && num <= size
    ensures Elements(Written(ring, Times(idx, scale), obj), scale, size)
         == Written(Elements(ring, scale, size), idx, Elements(obj, scale, num))
  {
    var now := Written(ring, Times(idx, scale), obj);
    TimesMono(num, size, scale);
    forall p | 0 <= p < size
      ensures Element(now, scale, size, p) == Written(Elements(ring, scale, size), idx, Elements(obj, scale, num))[p]
    {
      WrittenAt(Elements(ring, scale, size), idx, Elements(obj, scale, num), p);
      forall w | 0 <= w < scale
        ensures Element(now, scale, size, p)[w] ==
          Written(Elements(ring, scale, size), idx, Elements(obj, scale, num))[p][w]
      {
        WordOfElement(ring, idx, obj, scale, size, num, p, w);
      }
    }
  }

  lemma WrittenWord<T>(ring: seq<T>, idx: nat, obj: seq<T>, scale: nat, size: nat, num: nat, p: nat, w: nat)
    requires |ring| == Times(size, scale) && 0 < |ring| && idx < size && |obj| == Times(num, scale) <= |ring|
    requires p < size && w < scale
    ensures Times(p, scale) + w < |ring|
    ensures var j := ObjectOf(p, idx, size);
      && (j < num ==> Times(j, scale) + w < |obj|)
      && Written(ring, Times(idx, scale), obj)[Times(p, scale) + w] ==
         if j < num then obj[Times(j, scale) + w] else ring[Times(p, scale) + w]
  {
    ScaledObject(p, idx, size, scale, w);
    ScaledBound(ObjectOf(p, idx, size), num, scale, w);
    WrittenAt(ring, Times(idx, scale), obj, Times(p, scale) + w);
  }

  lemma WordOfElement<T>(ring: seq<T>, idx: nat, obj: seq<T>, scale: nat, size: nat, num: nat, p: nat, w: nat)
    requires |ring| == Times(size, scale) && 0 < |ring| && idx < size && |obj| == Times(num, scale) <= |ring|
    requires p < size && w < scale
    ensures Element(Written(ring, Times(idx, scale), obj), scale, size, p)[w] ==
      var j := ObjectOf(p, idx, size);
      if j < num then Element(obj, scale, num, j)[w] else Element(ring, scale, size, p)[w]
  {
    WrittenWord(ring, idx, obj, scale, size, num, p, w);
    ElementWord(Written(ring, Times(idx, scale), obj), scale, size, p, w);
    var j := ObjectOf(p, idx, size);
    if j < num {
      ElementWord(obj, scale, num, j, w);
    } else {
      ElementWord(ring, scale, size, p, w);
    }
  }

  lemma ElementWord<T>(words: seq<T>, scale: nat, n: nat, i: nat, w: nat)
    requires |words| == Times(n, scale) && i < n && w < scale
    ensures Times(i, scale) + w < |words| && Element(words, scale, n, i)[w] == words[Times(i, scale) + w]
  {
    ElementFits(scale, n, i);
  }

  /** Enqueue of elements of any other size: index, count and size are scaled to words. */
  method EnqueueScaled<T>(ring: array<T>, order: nat, scale: nat, head: nat, obj: seq<T>, num: nat)
    requires order <= 31 && scale > 0 && ring.Length == Times(Pow2(order), scale) && 2 * ring.Length <= W
    requires |obj| == Times(num, scale) && num <= Pow2(order)
    modifies ring
    ensures Elements(ring[..], scale, Pow2(order)) ==
      Written(Elements(old(ring[..]), scale, Pow2(order)), head, Elements(obj, scale, num))
  {
    var size := Pow2(order);
    MaskIsWrap(head, order);
    WrittenWraps(Elements(ring[..], scale, size), head, Elements(obj, scale, num));
    var idx := And(head, size - 1);
    TimesMono(num, size, scale);
    ElementFits(scale, size, idx);
    WrittenScales(ring[..], idx, obj, scale, size, num);
    TimesIsProduct(idx, scale);
    Enqueue32(ring, idx * scale, obj);
  }

  lemma FetchedScales<T>(ring: seq<T>, idx: nat, scale: nat, size: nat, num: nat)
    requires scale > 0 && |ring| == Times(size, scale) && idx < size && num <= size && 0 < |ring|
    ensures Elements(Fetched(ring, Times(idx, scale), Times(num, scale)), scale, num) ==
      Fetched(Elements(ring, scale, size), idx, num)
  {
    var now := Fetched(ring, Times(idx, scale), Times(num, scale));
    forall i | 0 <= i < num ensures Element(now, scale, num, i) == Element(ring, scale, size, Wrap(idx + i, size)) {
      forall w | 0 <= w < scale
        ensures Element(now, scale, num, i)[w] == Element(ring, scale, size, Wrap(idx + i, size))[w]
      {
        FetchedWord(ring, idx, scale, size, num, i, w);
      }
    }
  }

  lemma FetchedWord<T>(ring: seq<T>, idx: nat, scale: nat, size: nat, num: nat, i: nat, w: nat)
    requires |ring| == Times(size, scale) && idx < size && i < num <= size && 0 < |ring| && w < scale
    ensures Element(Fetched(ring, Times(idx, scale), Times(num, scale)), scale, num, i)[w] ==
      Element(ring, scale, size, Wrap(idx + i, size))[w]
  {
    var now := Fetched(ring, Times(idx, scale), Times(num, scale));
    ElementWord(now, scale, num, i, w);
    ElementWord(ring, scale, size, Wrap(idx + i, size), w);
    ScaledSlot(idx, i, size, scale, w);
    assert now[Times(i, scale) + w] == ring[Wrap(Times(idx, scale) + (Times(i, scale) + w), |ring|)];
  }

  lemma ScaledSlot(idx: nat, i: nat, size: nat, scale: nat, w: nat)
    requires idx < size && i < size && w < scale
    ensures Times(size, scale) > 0
    ensures Wrap(Times(idx, scale) + (Times(i, scale) + w), Times(size, scale)) == Times(Wrap(idx + i, size), scale) + w
    ensures Times(Wrap(idx + i, size), scale) + scale <= Times(size, scale)
  {
    TimesAdd(idx, i, scale);
    ElementFits(scale, size, Wrap(idx + i, size));
    if idx + i >= size {
      TimesAdd(idx + i - size, size, scale);
    }
  }

  /** Dequeue of elements of any other size. */
  method DequeueScaled<T>(ring: array<T>, order: nat, scale: nat, head: nat, obj: array<T>, num: nat)
    requires ring != obj && order <= 31 && scale > 0 && ring.Length == Times(Pow2(order), scale) && 2 * ring.Length <= W
    requires obj.Length == Times(num, scale) && num <= Pow2(order)
    modifies obj
    ensures Elements(obj[..], scale, num) == Fetched(Elements(ring[..], scale, Pow2(order)), head, num)
  {
    var size := Pow2(order);
    MaskIsWrap(head, order);
    FetchedWraps(Elements(ring[..], scale, size), head, num);
    var idx := And(head, size - 1);
    TimesMono(num, size, scale);
    ElementFits(scale, size, idx);
    FetchedScales(ring[..], idx, scale, size, num);
    TimesIsProduct(idx, scale);
    Dequeue32(ring, idx * scale, obj);
  }

  // ---------------------------------------------------------------- zero copy

  /** The address pair of a reservation, in 32-bit words from the start of the slots: `first` for n1 elements, and
      `second` says that the rest follow from word 0 on. */
  datatype Pair = Pair(first: nat, n1: nat, second: bool)

  /** __rte_ring_get_elem_addr; product and sum are taken on 32 bits. */
  function ZeroCopy(head: nat, num: nat, order: nat, scale: nat): Pair {
    var size, idx := Pow2(order), And(head, Pow2(order) - 1);
    var first := Times(idx, scale) % W;
    if (idx + num) % W > size then Pair(first, size - idx, true) else Pair(first, num, false)
  }

  /** Nothing wraps while all slots fit twice into 2^32 words. */
  lemma ZeroCopyFits(head: nat, num: nat, order: nat, scale: nat)
    requires num <= Pow2(order) && 2 * Pow2(order) <= W && 2 * Times(Pow2(order), scale) <= W
    ensures var idx := And(head, Pow2(order) - 1);
      idx < Pow2(order) && Times(idx, scale) % W == Times(idx, scale) && (idx + num) % W == idx + num
  {
    TimesMono(And(head, Pow2(order) - 1), Pow2(order), scale);
  }

  /** It names the words of the slots of the simple form, in order. */
  lemma ZeroCopySlots(head: nat, num: nat, order: nat, scale: nat, i: nat)
    requires i < num <= Pow2(order) && 2 * Pow2(order) <= W && 2 * Times(Pow2(order), scale) <= W
    ensures var z := ZeroCopy(head, num, order, scale);
      && z.n1 <= num && (z.second <==> z.n1 < num)
      && Times(Wrap(head + i, Pow2(order)), scale)
         == if i < z.n1 then z.first + Times(i, scale) else Times(i - z.n1, scale)
  {
    var size := Pow2(order);
    ZeroCopyFits(head, num, order, scale);
    MaskIsWrap(head, order);
    var idx := And(head, size - 1);
    WrapFirst(head, i, size);
    assert idx + i >= size ==> Wrap(idx + i, size) == Wrap(idx + i - size, size);
    TimesAdd(idx, i, scale);
  }
}
