/** Bucket memory of the cuckoo hash: which entries it holds, where an entry may live, and what moving
    entries back along a path does to it. */
module CuckooCells {
  import opened Words
  import opened Bits

  const ENTRIES: nat := 8
  const EMPTY: nat := 0

  /** One bucket slot: the short signature and the key slot it refers to (0 when empty). */
  datatype Cell = Cell(sig: nat, idx: nat)

  type Bucket = b: seq<Cell> | |b| == ENTRIES witness seq(ENTRIES, _ => Cell(0, 0))

  type Buckets = seq<Bucket>

  /** A slot of the table: bucket and position in it. */
  datatype Place = Place(bkt: nat, slot: nat)

  predicate In(t: Buckets, p: Place) { p.bkt < |t| && p.slot < ENTRIES }

  function At(t: Buckets, p: Place): Cell
    requires In(t, p)
  {
    t[p.bkt][p.slot]
  }

  function Put(t: Buckets, p: Place, c: Cell): (r: Buckets)
    requires In(t, p)
    ensures |r| == |t|
    ensures forall q :: In(t, q) ==> In(r, q) && At(r, q) == if q == p then c else At(t, q)
  {
    t[p.bkt := t[p.bkt][p.slot := c]]
  }

  // ---------------------------------------------------------------- what is stored

  /** Is slot content x the entry c? Empty slots are no entries. */
  function Is(x: Cell, c: Cell): nat { if x == c && c.idx != EMPTY then 1 else 0 }

  function RowCount(b: seq<Cell>, c: Cell): nat {
    if b == [] then 0 else RowCount(b[..|b| - 1], c) + Is(b[|b| - 1], c)
  }

  /** How often a table holds entry c, however entries are spread over its buckets. */
  function Count(t: seq<Bucket>, c: Cell): nat {
    if t == [] then 0 else Count(t[..|t| - 1], c) + RowCount(t[|t| - 1], c)
  }

  lemma {:induction false} RowPut(b: seq<Cell>, i: nat, x: Cell, c: Cell)
    requires i < |b|
    ensures RowCount(b[i := x], c) + Is(b[i], c) == RowCount(b, c) + Is(x, c)
  {
    var n := |b| - 1;
    if i < n {
      RowPut(b[..n], i, x, c);
      assert b[i := x][..n] == b[..n][i := x];
    } else {
      assert b[i := x][..n] == b[..n];
    }
  }

  /** Overwriting one slot exchanges one entry for another. */
  lemma {:induction false} PutCount(t: Buckets, p: Place, x: Cell, c: Cell)
    requires In(t, p)
    ensures Count(Put(t, p, x), c) + Is(At(t, p), c) == Count(t, c) + Is(x, c)
  {
    var n := |t| - 1;
    if p.bkt < n {
      PutCount(t[..n], p, x, c);
      assert Put(t, p, x)[..n] == Put(t[..n], p, x);
    } else {
      assert Put(t, p, x)[..n] == t[..n];
      RowPut(t[n], p.slot, x, c);
    }
  }

  lemma {:induction false} RowHas(b: seq<Cell>, i: nat)
    requires i < |b| && b[i].idx != EMPTY
    ensures RowCount(b, b[i]) > 0
  {
    var n := |b| - 1;
    if i < n { RowHas(b[..n], i); }
  }

  /** A non-empty slot is an entry ... */
  lemma {:induction false} PlaceHas(t: Buckets, p: Place)
    requires In(t, p) && At(t, p).idx != EMPTY
    ensures Count(t, At(t, p)) > 0
  {
    var n := |t| - 1;
    if p.bkt < n { PlaceHas(t[..n], p); } else { RowHas(t[n], p.slot); }
  }

  lemma {:induction false} RowFinds(b: seq<Cell>, c: Cell) returns (i: nat)
    requires RowCount(b, c) > 0
    ensures i < |b| && b[i] == c && c.idx != EMPTY
  {
    var n := |b| - 1;
    if Is(b[n], c) == 1 { i := n; } else { i := RowFinds(b[..n], c); }
  }

  /** ... and every entry is in some slot. */
  lemma {:induction false} EntryPlace(t: Buckets, c: Cell) returns (p: Place)
    requires Count(t, c) > 0
    ensures In(t, p) && At(t, p) == c && c.idx != EMPTY
  {
    var n := |t| - 1;
    if RowCount(t[n], c) > 0 {
      var i := RowFinds(t[n], c);
      p := Place(n, i);
    } else {
      p := EntryPlace(t[..n], c);
    }
  }

  // ---------------------------------------------------------------- where an entry may live

  /** get_short_sig */
  function ShortSig(hash: nat): nat { hash / 0x1_0000 }

  /** get_prim_bucket_index */
  function Prim(hash: nat, order: nat): (r: nat)
    ensures r < Pow2(order)
  {
    And(hash, Pow2(order) - 1)
  }

  /** get_alt_bucket_index */
  function Alt(bkt: nat, sig: nat, order: nat): (r: nat)
    ensures r < Pow2(order)
  {
    And(Xor(bkt, sig), Pow2(order) - 1)
  }

  /** Going to the alternate bucket twice leads back. */
  lemma AltTwice(bkt: nat, sig: nat, order: nat)
    requires bkt < Pow2(order)
    ensures Alt(Alt(bkt, sig, order), sig, order) == bkt
  {
    var x, m := Xor(bkt, sig), Pow2(order);
    MaskIsMod(x, order);
    MaskIsMod(Xor(x % m, sig), order);
    XorMask(x, sig, order);
    XorCancels(bkt, sig);
    ModUnique(bkt, 0, bkt, m);
  }

  /** Bucket b is one of the two that belong to hash value h. */
  predicate HomeOf(h: nat, b: nat, order: nat) {
    b == Prim(h, order) || b == Alt(Prim(h, order), ShortSig(h), order)
  }

  lemma AltIsHome(h: nat, b: nat, order: nat)
    requires b < Pow2(order) && HomeOf(h, b, order)
    ensures HomeOf(h, Alt(b, ShortSig(h), order), order)
  {
    AltTwice(Prim(h, order), ShortSig(h), order);
  }

  /** Every entry of the main buckets carries its signature and sits in one of its two buckets. */
  ghost predicate Housed(t: Buckets, order: nat, hashOf: nat -> nat) {
    && Pow2(order) <= |t|
    && forall p :: In(t, p) && p.bkt < Pow2(order) && At(t, p).idx != EMPTY ==>
         At(t, p).sig == ShortSig(hashOf(At(t, p).idx)) && HomeOf(hashOf(At(t, p).idx), p.bkt, order)
  }

  // ---------------------------------------------------------------- moving entries back along a path

  datatype Outcome = Inserted(t: Buckets) | Refused(t: Buckets)

  /** The walk of rte_hash_cuckoo_move_insert_mw under the lock. `hole` is the slot to fill next and
      `path` the parents still to come. Each parent's entry moves into the hole if the hole's bucket is
      its alternate; otherwise the hole is emptied and the insert refused. */
  function Displace(t: Buckets, order: nat, hole: Place, path: seq<Place>, entry: Cell): Outcome
    requires In(t, hole) && forall p :: p in path ==> In(t, p)
    decreases |path|
  {
    if path == [] then Inserted(Put(t, hole, entry))
    else
      var prev := path[0];
      if Alt(prev.bkt, At(t, prev).sig, order) != hole.bkt then
        Refused(Put(t, hole, At(t, hole).(idx := EMPTY)))
      else
        Displace(Put(t, hole, At(t, prev)), order, prev, path[1..], entry)
  }

  /** Whatever the path - stale, through empty slots, or through one slot several times - no entry is
      lost or duplicated: apart from the copy in the hole the table holds what it held before. */
  lemma {:induction false} DisplaceCount(t: Buckets, order: nat, hole: Place, path: seq<Place>, entry: Cell, c: Cell)
    requires In(t, hole) && forall p :: p in path ==> In(t, p)
    ensures var o := Displace(t, order, hole, path, entry);
      Count(o.t, c) + Is(At(t, hole), c) == Count(t, c) + if o.Inserted? then Is(entry, c) else 0
    decreases |path|
  {
    if path == [] {
      PutCount(t, hole, entry, c);
    } else {
      var prev := path[0];
      if Alt(prev.bkt, At(t, prev).sig, order) != hole.bkt {
        PutCount(t, hole, At(t, hole).(idx := EMPTY), c);
      } else {
        PutCount(t, hole, At(t, prev), c);
        assert forall p :: p in path[1..] ==> p in path;
        DisplaceCount(Put(t, hole, At(t, prev)), order, prev, path[1..], entry, c);
      }
    }
  }

  /** ... and every entry stays in one of its two buckets. */
  lemma {:induction false} DisplaceHoused(t: Buckets, order: nat, hole: Place, path: seq<Place>, entry: Cell,
                                          hashOf: nat -> nat)
    requires In(t, hole) && hole.bkt < Pow2(order) && forall p :: p in path ==> In(t, p) && p.bkt < Pow2(order)
    requires Housed(t, order, hashOf)
    requires entry.sig == ShortSig(hashOf(entry.idx))
    requires HomeOf(hashOf(entry.idx), if path == [] then hole.bkt else path[|path| - 1].bkt, order)
    ensures var o := Displace(t, order, hole, path, entry);
      && Housed(o.t, order, hashOf)
      && |o.t| == |t| && forall b :: Pow2(order) <= b < |t| ==> o.t[b] == t[b]
    decreases |path|
  {
    if path != [] {
      var prev := path[0];
      if Alt(prev.bkt, At(t, prev).sig, order) == hole.bkt {
        if At(t, prev).idx != EMPTY {
          AltIsHome(hashOf(At(t, prev).idx), prev.bkt, order);
        }
        assert forall p :: p in path[1..] ==> p in path;
        DisplaceHoused(Put(t, hole, At(t, prev)), order, prev, path[1..], entry, hashOf);
      }
    }
  }
}
