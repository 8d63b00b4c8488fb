/** The cuckoo hash as the program has it: buckets, key store and free rings that adding a key updates in
    place, with other writers at work whenever the lock is not held. */
module CuckooTable {
  import opened CuckooCells
  import opened CuckooState
  import opened CuckooRely
  import opened CuckooSearch
  import opened CuckooWriters

  const QUEUE: nat := 1000
  const ENOSPC: int := 28

  /** The walk from a leaf with an empty slot inserts exactly the new entry or leaves the entries as they are. */
  lemma WalkKeeps(P: Params, s: State, l: Links, q: seq<Node>, n: nat, from: nat, other: nat, leaf: nat, slot: nat,
                  k: nat)
    returns (o: Outcome)
    requires Wf(P, s, l) && k in Loose(P, s) && Ends(P, s.store[k].key, from, other)
    requires Tree(P, q, n, from) && leaf < n && slot < ENTRIES && q[leaf].bkt < Main(P)
    requires s.cells[q[leaf].bkt][slot].idx == EMPTY
    ensures o == Displace(s.cells, P.order, Place(q[leaf].bkt, slot), Path(P, q, n, from, leaf), Tag(P, s.store, k))
    ensures Wf(P, s.(cells := o.t), l)
    ensures if o.Inserted? then Added(P, s, s.(cells := o.t), k) else Same(P, s, s.(cells := o.t))
  {
    var hole, path := Place(q[leaf].bkt, slot), Path(P, q, n, from, leaf);
    o := Displace(s.cells, P.order, hole, path, Tag(P, s.store, k));
    var r := DisplaceKeeps(P, s, l, hole, path, k);
  }

  /** What linking a row to the list leaves. */
  lemma LinkResult(P: Params, s: State, l: Links, c: nat, k: nat, r: State)
    requires Wf(P, s, l) && c < Main(P) && s.freeExt != [] && k in Loose(P, s) && SecOf(P, s.store[k].key) == c
    requires Unseen(P, s, l, s.store[k].key, PrimOf(P, s.store[k].key), c) && FullRows(s.cells, l.chain[c])
    requires l.chain[c] != [] && l.chain[c][|l.chain[c]| - 1] < |s.next| && 0 < s.freeExt[0] <= P.extra
    requires r.store == s.store && r.freeSlots == s.freeSlots && r.freeExt == s.freeExt[1..]
    requires r.cells == Put(s.cells, Place(Main(P) + s.freeExt[0] - 1, 0), Tag(P, s.store, k))
    requires r.next == s.next[l.chain[c][|l.chain[c]| - 1] := Main(P) + s.freeExt[0] - 1]
    ensures Good(P, r) && Added(P, s, r, k) && Acted(P, s, k, r, 0)
  {
    var u := LinkActs(P, s, l, c, k);
    assert r == u;
  }

  /** An update and then the slot's return, both under the lock. */
  lemma UpdateFree(P: Params, s: State, k: nat, x: Slot, ret: int, u: State, r: State)
    requires Updated(P, s, u, x, ret) && Acted(P, u, k, r, 0)
    ensures Thread(P, Snap(s, k), Snap(r, 0))
  {
    UpdateActs(P, s, k, x, ret, u);
    ThreadHop(P, Snap(s, k), Snap(u, k));
    ThreadHop(P, Snap(u, k), Snap(r, 0));
    ThreadTrans(P, Snap(s, k), Snap(u, k), Snap(r, 0));
  }

  /** It is one action of the writer. */
  lemma WalkActs(P: Params, s: State, l: Links, q: seq<Node>, n: nat, from: nat, other: nat, leaf: nat, slot: nat,
                 k: nat, r: State)
    requires 0 < k < |s.store| && Unseen(P, s, l, s.store[k].key, from, other)
    requires Tree(P, q, n, from) && leaf < n && slot < ENTRIES && q[leaf].bkt < Main(P)
    requires s.cells[q[leaf].bkt][slot].idx == EMPTY
    requires r == s.(cells :=
      Displace(s.cells, P.order, Place(q[leaf].bkt, slot), Path(P, q, n, from, leaf), Tag(P, s.store, k)).t)
    ensures Acted(P, s, k, r, if Displace(s.cells, P.order, Place(q[leaf].bkt, slot), Path(P, q, n, from, leaf),
                                          Tag(P, s.store, k)).Inserted? then 0 else k)
  {
    var a := Move(s.store[k], from, other, Place(q[leaf].bkt, slot), Path(P, q, n, from, leaf));
    var m := if Displace(s.cells, P.order, a.hole, a.path, Tag(P, s.store, k)).Inserted? then 0 else k;
    assert CanMove(P, s, a.x, from, other, a.hole, a.path);
    assert Acts(P, s, k, a, r, m) && Ready(s, k, a);
  }

  /** The slot at the leaf is taken, or the walk from it is refused. */
  ghost predicate Blocked(P: Params, cells: Buckets, q: seq<Node>, n: nat, from: nat, leaf: nat, slot: nat,
                          entry: Cell) {
    && Tree(P, q, n, from) && leaf < n && slot < ENTRIES && q[leaf].bkt < Main(P) <= |cells|
    && (cells[q[leaf].bkt][slot].idx != EMPTY
        || Displace(cells, P.order, Place(q[leaf].bkt, slot), Path(P, q, n, from, leaf), entry).Refused?)
  }

  /** Slot i of the node is taken, by an entry that could move to bucket alt. */
  ghost predicate ToldBy(P: Params, cells: Buckets, q: seq<Node>, node: nat, i: nat, alt: nat) {
    && node < |q| && i < ENTRIES && q[node].bkt < Main(P) <= |cells|
    && cells[q[node].bkt][i].idx != EMPTY && alt == Alt(q[node].bkt, cells[q[node].bkt][i].sig, P.order)
  }

  /** There is no room for the key: no empty slot within reach of a search from either of its buckets,
      nor, with the extendable table, in the list of its secondary bucket, and no bucket to extend it. */
  ghost predicate NoRoom(P: Params, s: State, key: Key) {
    && Crowded(P, s.cells, PrimOf(P, key)) && Crowded(P, s.cells, SecOf(P, key))
    && (P.extra > 0 ==> s.freeExt == [] && ListFull(P, s, SecOf(P, key)))
  }

  /** No empty slot in the 124 buckets that a search from this bucket visits. */
  ghost predicate Crowded(P: Params, cells: Buckets, from: nat) {
    exists q: seq<Node> :: Tree(P, q, 993, from) && Current(P, cells, q, 124, 0)
  }

  lemma CrowdedBy(P: Params, cells: Buckets, q: seq<Node>, from: nat)
    requires Tree(P, q, 993, from) && Current(P, cells, q, 124, 0)
    ensures Crowded(P, cells, from)
  {
  }

  lemma RootOnly(P: Params, cells: Buckets, q: seq<Node>, from: nat)
    requires |q| > 0 && q[0] == Node(from, from, -1, -1) && from < Main(P) <= |cells|
    ensures Tree(P, q, 1, from) && Current(P, cells, q, 0, 0)
  {
    assert NodeOk(P, q, 0, from);
  }

  /** Slot k is taken by this writer and holds x. */
  ghost predicate Mine(P: Params, s: State, k: nat, x: Slot) {
    k in Loose(P, s) && k < |s.store| && s.store[k] == x
  }

  ghost predicate HasAt(P: Params, s: State, i: int, key: Key) {
    i in Contents(P, s) && Contents(P, s)[i].key == key
  }

  /** From s to r with any writers: 0 - slot k now holds the key, 1 - the key was there, else - not yet. */
  ghost predicate Progress(P: Params, s: State, r: State, k: nat, x: Slot, ret: int, retVal: int) {
    && Good(P, r) && Thread(P, Snap(s, k), Snap(r, if ret == 0 then 0 else k))
    && (if ret == 0 then HasAt(P, r, k, x.key) else Mine(P, r, k, x))
    && (ret == 1 ==> HasAt(P, r, retVal + 1, x.key))
  }

  /** From s to r with one writer, for a key that is not in the table. */
  ghost predicate Alone(P: Params, s: State, r: State, k: nat, key: Key, ret: int) {
    !HasKey(P, s, key) ==> ret != 1 && if ret == 0 then Added(P, s, r, k) else Same(P, s, r)
  }

  lemma Attempt(P: Params, s0: State, s: State, l: Links, r: State, k: nat, x: Slot, ret: int, retVal: int)
    requires Wf(P, s, l) && Good(P, r) && k > 0 && Rely(P, s0, s, Keep(k)) && Mine(P, s0, k, x)
    requires ret == 0 || ret == 1 || ret == -1
    requires ret == 0 ==> Added(P, s, r, k)
    requires ret == 1 ==> Updated(P, s, r, x, retVal)
    requires ret == -1 ==> Same(P, s, r)
    requires ret == 0 ==> Acted(P, s, k, r, 0)
    requires ret == -1 ==> r == s || Acted(P, s, k, r, k)
    ensures Progress(P, s0, r, k, x, ret, retVal)
    ensures s == s0 ==> Alone(P, s0, r, k, x.key, ret)
  {
    if ret == 1 {
      UpdateActs(P, s, k, x, retVal, r);
      UpdatedRely(P, s, l, r, x, retVal);
      assert HasAt(P, s, retVal + 1, x.key);
    }
    if ret == -1 && r == s {
      ThreadWait(P, s0, s, k);
    } else {
      ThreadAct(P, s0, s, k, r, if ret == 0 then 0 else k);
    }
  }

  lemma ProgressTrans(P: Params, s0: State, s: State, r: State, k: nat, x: Slot, v: int, ret: int, retVal: int)
    requires Progress(P, s0, s, k, x, -1, v) && Progress(P, s, r, k, x, ret, retVal)
    ensures Progress(P, s0, r, k, x, ret, retVal)
    ensures Alone(P, s0, s, k, x.key, -1) && Alone(P, s, r, k, x.key, ret) ==> Alone(P, s0, r, k, x.key, ret)
  {
    ThreadTrans(P, Snap(s0, k), Snap(s, k), Snap(r, if ret == 0 then 0 else k));
  }

  lemma ProgressStart(P: Params, s: State, r: State, k: nat, x: Slot)
    requires Rely(P, s, r, Keep(k)) && Mine(P, s, k, x) && k > 0
    ensures Progress(P, s, r, k, x, -1, -1)
  {
    ThreadWait(P, s, r, k);
  }

  /** Slot k went back to the free ring, the table is as before. */
  ghost predicate Returned(P: Params, s: State, r: State, k: nat) {
    && r == s.(freeSlots := s.freeSlots + [k])
    && Contents(P, r) == Contents(P, s) && Loose(P, r) == Loose(P, s) - {k}
  }

  /** The key was there: its data is replaced and slot k went back to the free ring. */
  ghost predicate UpdatedFree(P: Params, s: State, r: State, k: nat, x: Slot, ret: int) {
    && HasAt(P, s, ret + 1, x.key) && r.freeSlots == s.freeSlots + [k]
    && Contents(P, r) == Contents(P, s)[ret + 1 := x] && Loose(P, r) == Loose(P, s) - {k}
  }

  /** An add is over that had slot k in state s, with any writers: all it did were a writer's actions, and
      the key is at the index that the add returns. */
  ghost predicate Settled(P: Params, s: State, k: nat, r: State, key: Key, ret: int) {
    && Good(P, r) && Thread(P, Snap(s, k), Snap(r, 0))
    && if ret >= 0 then HasAt(P, r, ret + 1, key) else ret == -ENOSPC
  }

  /** A single writer placed the new key's slot k, or failed: then the slot goes back, except that the
      extendable table keeps it out of the free ring. */
  ghost predicate Placed(P: Params, s: State, r: State, k: nat, key: Key, ret: int) {
    !HasKey(P, s, key) ==>
      if ret == -ENOSPC then if P.extra == 0 then Returned(P, s, r, k) else r == s
      else ret + 1 == k && Added(P, s, r, k)
  }

  /** The first free slot was taken. */
  ghost predicate Taken(P: Params, s: State, r: State, k: nat) {
    && s.freeSlots != [] && k == s.freeSlots[0] && r.freeSlots == s.freeSlots[1..]
    && r.cells == s.cells && r.next == s.next
    && Contents(P, r) == Contents(P, s) && Loose(P, r) == Loose(P, s) + {k} && k !in Loose(P, s)
  }

  /** None of the first i slots of row b matches the key, real or through the unused key slot 0. */
  ghost predicate NoMatch(P: Params, s: State, b: nat, key: Key, i: nat)
    requires b < |s.cells| && i <= ENTRIES
  {
    forall j :: 0 <= j < i ==> s.cells[b][j].idx < |s.store| ==>
      s.store[s.cells[b][j].idx].key != key || s.cells[b][j].sig != ShortSig(P.hash(key))
  }

  /** The key is that of the unused slot 0, and an empty slot of row b that still has its signature comes
      before any entry with the key: the search stops there. */
  ghost predicate Shadowed(P: Params, s: State, b: nat, key: Key)
    requires b < |s.cells|
  {
    && key == P.dummy
    && exists i :: 0 <= i < ENTRIES && NoMatch(P, s, b, key, i) && s.cells[b][i] == EntryOf(P, Slot(key, 0), EMPTY)
  }

  lemma NoMatchNotIn(P: Params, s: State, l: Links, b: nat, key: Key)
    requires Wf(P, s, l) && b < Rows(P) && NoMatch(P, s, b, key, ENTRIES)
    ensures NotIn(s, b, key) && !Shadowed(P, s, b, key)
  {
    forall i | 0 <= i < ENTRIES && s.cells[b][i].idx != EMPTY && s.cells[b][i].idx < |s.store|
      ensures s.store[s.cells[b][i].idx].key != key
    {
      assert In(s.cells, Place(b, i)) && At(s.cells, Place(b, i)) == s.cells[b][i];
    }
  }

  lemma DummyKeeps(P: Params, s: State, l: Links, x: Slot)
    requires Wf(P, s, l) && x.key == P.dummy
    ensures Wf(P, s.(store := s.store[0 := x]), l)
  {
    var r := s.(store := s.store[0 := x]);
    assert forall k :: 1 <= k <= P.entries ==>
      Tag(P, r.store, k) == Tag(P, s.store, k) && (Single(P, s, k) <==> Single(P, r, k));
  }

  /** A bucket entry with the key: its data may be replaced. */
  lemma FoundAt(P: Params, s: State, l: Links, p: Place, x: Slot)
    requires Wf(P, s, l) && In(s.cells, p) && At(s.cells, p).idx != EMPTY
    requires At(s.cells, p).idx < |s.store| && s.store[At(s.cells, p).idx].key == x.key
    ensures var k := At(s.cells, p).idx;
      var r := s.(store := s.store[k := x]); Updated(P, s, r, x, k - 1) && Wf(P, r, l)
  {
    var k := At(s.cells, p).idx;
    PlaceHeld(P, s, l, p);
    UpdatedRely(P, s, l, s.(store := s.store[k := x]), x, k - 1);
  }

  /** What adding x does when nobody else writes: a map update, or -ENOSPC and an unchanged map. */
  ghost predicate AddSpec(P: Params, s: State, r: State, x: Slot, ret: int)
    requires HasKey(P, s, x.key) || s.freeSlots != []
  {
    if HasKey(P, s, x.key) then
      && ret >= 0 && HasAt(P, s, ret + 1, x.key) && Contents(P, r) == Contents(P, s)[ret + 1 := x]
      && Loose(P, r) == Loose(P, s) && r.freeSlots == s.freeSlots
    else
      var k := s.freeSlots[0];
      if ret == -ENOSPC then
        && Contents(P, r) == Contents(P, s) && r.cells == s.cells && r.next == s.next && NoRoom(P, r, x.key)
        && if P.extra == 0 then Loose(P, r) == Loose(P, s) && r.freeSlots == s.freeSlots[1..] + [k]
           else Loose(P, r) == Loose(P, s) + {k} && r.freeSlots == s.freeSlots[1..]
      else
        && ret + 1 == k && Contents(P, r) == Contents(P, s)[k := x]
        && Loose(P, r) == Loose(P, s) && r.freeSlots == s.freeSlots[1..]
  }

  lemma FoundSpec(P: Params, s: State, l: Links, r: State, x: Slot, ret: int)
    requires Wf(P, s, l) && Updated(P, s, r, x, ret)
    ensures HasKey(P, s, x.key) && AddSpec(P, s, r, x, ret) && HasAt(P, r, ret + 1, x.key)
  {
    UpdatedRely(P, s, l, r, x, ret);
    assert HasAt(P, s, ret + 1, x.key);
  }

  /** No key is ever lost. */
  lemma StillThere(P: Params, s: State, r: State, key: Key)
    requires Rely(P, s, r, Keep(0))
    ensures HasKey(P, s, key) ==> HasKey(P, r, key)
  {
    if HasKey(P, s, key) {
      var k :| k in Contents(P, s) && Contents(P, s)[k].key == key;
      assert k in Contents(P, r) && Contents(P, r)[k].key == key;
    }
  }

  lemma PlacedSpec(P: Params, s: State, t: State, r: State, k: nat, x: Slot, ret: int)
    requires Taken(P, s, t, k) && Mine(P, t, k, x) && Placed(P, t, r, k, x.key, ret) && !HasKey(P, s, x.key)
    requires ret == -ENOSPC ==> NoRoom(P, r, x.key)
    ensures AddSpec(P, s, r, x, ret)
  {
    assert !HasKey(P, t, x.key);
  }

  lemma Filled(P: Params, u: State, v: State, l: Links, w: State, k: nat, x: Slot)
    requires k > 0 && Rely(P, u, v, Keep(k)) && k in Loose(P, v) && Wf(P, v, l) && w == v.(store := v.store[k := x])
    ensures Good(P, w) && Mine(P, w, k, x) && Thread(P, Snap(u, k), Snap(w, k))
    ensures Contents(P, w) == Contents(P, v) && Loose(P, w) == Loose(P, v)
  {
    var r := StoreKeeps(P, v, l, k, x);
    FillActs(P, v, k, x, w);
    ThreadAct(P, u, v, k, w, k);
  }

  lemma SettleAdded(P: Params, s0: State, s: State, k: nat, x: Slot, v: int)
    requires Progress(P, s0, s, k, x, 0, v) && k > 0
    ensures Settled(P, s0, k, s, x.key, k - 1)
    ensures Alone(P, s0, s, k, x.key, 0) ==> Placed(P, s0, s, k, x.key, k - 1)
  {
  }

  lemma SettleUpdated(P: Params, s0: State, s: State, r: State, k: nat, x: Slot, v: int)
    requires Progress(P, s0, s, k, x, 1, v) && Good(P, r) && Thread(P, Snap(s, k), Snap(r, 0))
    ensures Settled(P, s0, k, r, x.key, v)
    ensures Alone(P, s0, s, k, x.key, 1) ==> Placed(P, s0, r, k, x.key, v)
  {
    ThreadTrans(P, Snap(s0, k), Snap(s, k), Snap(r, 0));
    ThreadRely(P, Snap(s, k), Snap(r, 0));
    assert HasAt(P, r, v + 1, x.key);
  }

  lemma SettleReturned(P: Params, s0: State, s: State, r: State, k: nat, x: Slot, v: int)
    requires Progress(P, s0, s, k, x, -ENOSPC, v) && Good(P, r) && P.extra == 0 && Thread(P, Snap(s, k), Snap(r, 0))
    ensures Settled(P, s0, k, r, x.key, -ENOSPC)
    ensures s == s0 && Returned(P, s, r, k) ==> Placed(P, s0, r, k, x.key, -ENOSPC)
  {
    ThreadTrans(P, Snap(s0, k), Snap(s, k), Snap(r, 0));
  }

  lemma SettleLast(P: Params, s0: State, s: State, r: State, k: nat, x: Slot, v: int, ret: int)
    requires Progress(P, s0, s, k, x, -ENOSPC, v) && Settled(P, s, k, r, x.key, ret) && P.extra > 0
    ensures Settled(P, s0, k, r, x.key, ret)
    ensures s == s0 && Placed(P, s, r, k, x.key, ret) ==> Placed(P, s0, r, k, x.key, ret)
  {
    ThreadTrans(P, Snap(s0, k), Snap(s, k), Snap(r, 0));
  }

  /** What the locked region of the extendable table leaves. */
  ghost predicate Extended(P: Params, s: State, r: State, k: nat, x: Slot, ret: int) {
    if HasKey(P, s, x.key) then UpdatedFree(P, s, r, k, x, ret)
    else if ret == -ENOSPC then r == s && s.freeExt == [] && ListFull(P, s, SecOf(P, x.key))
    else ret == k - 1 && Added(P, s, r, k)
  }

  lemma ExtendedHas(P: Params, s: State, r: State, k: nat, x: Slot, ret: int)
    requires k > 0 && Mine(P, s, k, x) && Extended(P, s, r, k, x, ret)
    ensures if ret >= 0 then HasAt(P, r, ret + 1, x.key) else ret == -ENOSPC
  {
    if HasKey(P, s, x.key) { assert ret + 1 in Contents(P, s) && ret + 1 > 0; }
  }

  lemma SettleExtended(P: Params, s0: State, s: State, r: State, k: nat, x: Slot, ret: int)
    requires Rely(P, s0, s, Keep(k)) && Good(P, r) && k > 0 && Mine(P, s, k, x) && P.extra > 0
    requires Thread(P, Snap(s, k), Snap(r, 0)) && Extended(P, s, r, k, x, ret)
    ensures Settled(P, s0, k, r, x.key, ret)
    ensures s == s0 ==> Placed(P, s0, r, k, x.key, ret)
  {
    ExtendedHas(P, s, r, k, x, ret);
    ThreadWait(P, s0, s, k);
    ThreadTrans(P, Snap(s0, k), Snap(s, k), Snap(r, 0));
  }

  class Table {
    const P: Params
    const world: World
    var clock: nat
    var cells: Buckets
    var next: seq<nat>
    var store: seq<Slot>
    var freeSlots: seq<nat>
    var freeExt: seq<nat>

    function S(): State
      reads this
    {
      State(cells, next, store, freeSlots, freeExt)
    }

    ghost predicate Valid()
      reads this
    {
      Good(P, S())
    }

    /** rte_hash_create: empty buckets, and every slot but the dummy goes into the free rings. */
    constructor (P: Params, world: World)
      ensures this.P == P && this.world == world
      ensures Valid() && S() == Initial(P)
    {
      this.P := P;
      this.world := world;
      clock := 0;
      cells := seq(Rows(P), _ => BLANK);
      next := seq(Rows(P), _ => Rows(P));
      store := seq(P.entries + 1, _ => Slot(P.dummy, 0));
      freeSlots, freeExt := [], [];
      new;
      for i := 1 to P.entries + 1
        invariant freeSlots == UpTo(i - 1) && freeExt == [] && cells == Initial(P).cells
        invariant next == Initial(P).next && store == Initial(P).store
      {
        freeSlots := freeSlots + [i];
      }
      for i := 1 to P.extra + 1
        invariant freeExt == UpTo(i - 1) && freeSlots == UpTo(P.entries) && cells == Initial(P).cells
        invariant next == Initial(P).next && store == Initial(P).store
      {
        freeExt := freeExt + [i];
      }
      InitialIsGood(P);
    }

    /** search_and_update: one bucket. */
    method SearchAndUpdate(ghost l: Links, b: nat, key: Key, data: nat, sig: nat) returns (ret: int)
      requires Wf(P, S(), l) && b < Rows(P) && sig == ShortSig(P.hash(key))
      modifies this`store
      ensures Wf(P, S(), l)
      ensures ret == -1 && !Shadowed(P, old(S()), b, key) ==> S() == old(S()) && NotIn(S(), b, key)
      ensures ret == -1 && Shadowed(P, old(S()), b, key) ==> S() == old(S()).(store := old(store)[0 := Slot(key, data)])
      ensures ret != -1 ==> Updated(P, old(S()), S(), Slot(key, data), ret) && !Shadowed(P, old(S()), b, key)
    {
      for i := 0 to ENTRIES
        invariant store == old(store) && NoMatch(P, S(), b, key, i)
      {
        assert In(cells, Place(b, i)) && At(cells, Place(b, i)) == cells[b][i];
        if cells[b][i].sig == sig {
          var k: int := cells[b][i].idx;
          if store[k].key == key {
            if k == 0 {
              DummyKeeps(P, S(), l, Slot(key, data));
            } else {
              FoundAt(P, S(), l, Place(b, i), Slot(key, data));
            }
            store := store[k := store[k].(data := data)];
            return k - 1;
          }
        }
      }
      NoMatchNotIn(P, S(), l, b, key);
      return -1;
    }

    /** The check that precedes every insert: bucket b, then the list that starts at c. */
    method SearchBoth(ghost l: Links, b: nat, c: nat, key: Key, data: nat, sig: nat) returns (ret: int)
      requires Wf(P, S(), l) && b < Rows(P) && c < Main(P) && key != P.dummy && sig == ShortSig(P.hash(key))
      modifies this`store
      ensures Wf(P, S(), l)
      ensures ret == -1 ==> S() == old(S()) && NotIn(S(), b, key) && NotInChain(S(), l.chain[c], key)
      ensures ret != -1 ==> Updated(P, old(S()), S(), Slot(key, data), ret)
    {
      ret := SearchAndUpdate(l, b, key, data, sig);
      if ret != -1 { return; }
      var cur := c;
      ghost var list, i := l.chain[c], 0;
      FirstIsMain(P, S(), l, c);
      while cur != Rows(P)
        invariant store == old(store)
        invariant 0 <= i <= |list| && cur == if i < |list| then list[i] else Rows(P)
        invariant i < |list| ==> list[i] < Rows(P)
        invariant NotInChain(S(), list[..i], key)
        decreases |list| - i
      {
        assert Link(P, next, l, c, i);
        ret := SearchAndUpdate(l, cur, key, data, sig);
        if ret != -1 { return; }
        cur := next[cur];
        i := i + 1;
        assert i < |list| ==> Link(P, next, l, c, i);
      }
      assert list[..i] == list;
    }

    /** rte_hash_cuckoo_insert_mw */
    method Insert(ghost l: Links, prim: nat, sec: nat, key: Key, data: nat, sig: nat, k: nat)
      returns (ret: int, retVal: int)
      requires Wf(P, S(), l) && key != P.dummy && sig == ShortSig(P.hash(key))
      requires prim == PrimOf(P, key) && sec == SecOf(P, key)
      requires k in Loose(P, S()) && store[k] == Slot(key, data)
      modifies this`store, this`cells
      ensures Wf(P, S(), l)
      ensures ret == 0 || ret == 1 || ret == -1
      ensures ret == 0 ==> !HasKey(P, old(S()), key) && Added(P, old(S()), S(), k) && Acted(P, old(S()), k, S(), 0)
      ensures ret == 1 ==> Updated(P, old(S()), S(), Slot(key, data), retVal)
      ensures ret == -1 ==> !HasKey(P, old(S()), key) && S() == old(S()) && FullRow(cells, prim)
    {
      retVal := SearchBoth(l, prim, sec, key, data, sig);
      if retVal != -1 { return 1, retVal; }
      Absent(P, S(), l, key);
      for i := 0 to ENTRIES
        invariant store == old(store) && cells == old(cells)
        invariant forall j :: 0 <= j < i ==> cells[prim][j].idx != EMPTY
      {
        if cells[prim][i].idx == EMPTY {
          ghost var r := PutKeeps(P, S(), l, Place(prim, i), k);
          InsertActs(P, S(), l, k, i, r);
          cells := Put(cells, Place(prim, i), Cell(sig, k));
          assert S() == r;
          return 0, retVal;
        }
      }
      return -1, retVal;
    }

    /** The walk of rte_hash_cuckoo_move_insert_mw from node `leaf` of the search tree to its root. */
    method WalkBack(queue: seq<Node>, ghost n: nat, ghost from: nat, leaf: nat, leafSlot: nat, entry: Cell)
      returns (inserted: bool)
      requires Tree(P, queue, n, from) && leaf < n && leafSlot < ENTRIES && |cells| >= Main(P)
      requires queue[leaf].bkt < Main(P)
      modifies this`cells
      ensures Displace(old(cells), P.order, Place(queue[leaf].bkt, leafSlot), Path(P, queue, n, from, leaf), entry)
        == if inserted then Inserted(cells) else Refused(cells)
    {
      var cur: nat, slot: nat := leaf, leafSlot;
      ghost var o := Displace(cells, P.order, Place(queue[leaf].bkt, leafSlot), Path(P, queue, n, from, leaf), entry);
      while queue[cur].prev >= 0
        invariant cur < n && slot < ENTRIES && |cells| >= Main(P) && queue[cur].bkt < Main(P)
        invariant Displace(cells, P.order, Place(queue[cur].bkt, slot), Path(P, queue, n, from, cur), entry) == o
        decreases cur
      {
        PathStep(P, queue, n, from, cur);
        var prev, prevSlot := queue[cur].prev, queue[cur].prevSlot;
        var e := cells[queue[prev].bkt][prevSlot];
        var hole := Place(queue[cur].bkt, slot);
        if Alt(queue[prev].cur, e.sig, P.order) != queue[cur].bkt {
          cells := Put(cells, hole, At(cells, hole).(idx := EMPTY));
          return false;
        }
        cells := Put(cells, hole, e);
        cur, slot := prev, prevSlot;
      }
      assert NodeOk(P, queue, cur, from);
      cells := Put(cells, Place(queue[cur].bkt, slot), entry);
      return true;
    }

    /** ... and what the walk does to the table when the leaf's slot is empty. */
    method WalkTable(ghost l: Links, queue: seq<Node>, ghost n: nat, ghost from: nat, ghost other: nat, leaf: nat,
                     leafSlot: nat, entry: Cell)
      returns (inserted: bool)
      requires Wf(P, S(), l) && entry.idx in Loose(P, S()) && entry == Tag(P, store, entry.idx)
      requires Ends(P, store[entry.idx].key, from, other)
      requires Tree(P, queue, n, from) && leaf < n && leafSlot < ENTRIES
      requires queue[leaf].bkt < Main(P) && cells[queue[leaf].bkt][leafSlot].idx == EMPTY
      modifies this`cells
      ensures Wf(P, S(), l)
      ensures if inserted then Added(P, old(S()), S(), entry.idx) else Same(P, old(S()), S())
      ensures !inserted ==> Blocked(P, old(cells), queue, n, from, leaf, leafSlot, entry)
      ensures Unseen(P, old(S()), l, store[entry.idx].key, from, other) ==>
        Acted(P, old(S()), entry.idx, S(), if inserted then 0 else entry.idx)
    {
      ghost var o := WalkKeeps(P, S(), l, queue, n, from, other, leaf, leafSlot, entry.idx);
      inserted := WalkBack(queue, n, from, leaf, leafSlot, entry);
      assert S() == old(S()).(cells := o.t);
      if Unseen(P, old(S()), l, store[entry.idx].key, from, other) {
        WalkActs(P, old(S()), l, queue, n, from, other, leaf, leafSlot, entry.idx, S());
      }
    }

    /** rte_hash_cuckoo_move_insert_mw */
    method MoveInsert(ghost l: Links, from: nat, other: nat, key: Key, data: nat, queue: seq<Node>, ghost n: nat,
                      leaf: nat, leafSlot: nat, sig: nat, k: nat)
      returns (ret: int, retVal: int)
      requires Wf(P, S(), l) && key != P.dummy && sig == ShortSig(P.hash(key)) && Ends(P, key, from, other)
      requires k in Loose(P, S()) && store[k] == Slot(key, data)
      requires Tree(P, queue, n, from) && leaf < n && leafSlot < ENTRIES
      modifies this`store, this`cells
      ensures Wf(P, S(), l)
      ensures ret == 0 || ret == 1 || ret == -1
      ensures ret == 0 ==> Added(P, old(S()), S(), k)
      ensures ret == 0 ==> (HasKey(P, old(S()), key) <==> !NotInChain(old(S()), l.chain[from][1..], key))
      ensures ret == 0 && P.extra == 0 ==> !HasKey(P, old(S()), key)
      ensures ret == 1 ==> Updated(P, old(S()), S(), Slot(key, data), retVal)
      ensures ret == -1 ==> Same(P, old(S()), S())
      ensures ret == -1 ==> Blocked(P, old(cells), queue, n, from, leaf, leafSlot, Cell(sig, k))
      ensures ret == 0 ==> Acted(P, old(S()), k, S(), 0)
      ensures ret == -1 ==> S() == old(S()) || Acted(P, old(S()), k, S(), k)
    {
      retVal := -1;
      if P.extra == 0 { NoTail(P, S(), l, from); }
      assert NodeOk(P, queue, leaf, from);
      if cells[queue[leaf].bkt][leafSlot].idx != EMPTY { return -1, retVal; }
      retVal := SearchBoth(l, from, other, key, data, sig);
      if retVal != -1 { return 1, retVal; }
      SearchGap(P, S(), l, key, from, other);
      var inserted := WalkTable(l, queue, n, from, other, leaf, leafSlot, Cell(sig, k));
      ret := if inserted then 0 else -1;
    }

    /** Other writers get their turn; slot k (if not 0) belongs to this one. */
    method OtherWriters(k: nat)
      requires Valid() && Cooperative(P, world) && Keep(k) <= Loose(P, S())
      modifies this
      ensures Valid() && Rely(P, old(S()), S(), Keep(k))
      ensures old(freeSlots) != [] ==> freeSlots != []
      ensures Quiet(world) ==> S() == old(S())
    {
      var s := world.others(clock, S(), k);
      clock := clock + 1;
      cells, next, store, freeSlots, freeExt := s.cells, s.next, s.store, s.freeSlots, s.freeExt;
    }

    /** The buckets as a read without the lock finds them. */
    method Glimpse() returns (view: Buckets)
      requires Valid() && Cooperative(P, world)
      ensures |view| >= Main(P) && (Quiet(world) ==> view == cells)
    {
      view := world.seen(clock, S());
    }

    /** Read slot i of a bucket without the lock, whatever other writers did since the last step. */
    method ReadSlot(bkt: nat, i: nat, k: nat, ghost x: Slot) returns (c: Cell)
      requires Valid() && Cooperative(P, world) && bkt < Main(P) && i < ENTRIES
      requires k > 0 && Mine(P, S(), k, x)
      modifies this
      ensures Progress(P, old(S()), S(), k, x, -1, -1)
      ensures Quiet(world) ==> S() == old(S()) && bkt < |cells| && c == cells[bkt][i]
    {
      OtherWriters(k);
      ProgressStart(P, old(S()), S(), k, x);
      var view := Glimpse();
      c := view[bkt][i];
    }

    /** One attempt of the make-space search, after other writers may have come in between. */
    method TryMove(from: nat, other: nat, key: Key, data: nat, queue: seq<Node>, ghost n: nat,
                   leaf: nat, leafSlot: nat, sig: nat, k: nat)
      returns (ret: int, retVal: int)
      requires Valid() && Cooperative(P, world)
      requires key != P.dummy && sig == ShortSig(P.hash(key)) && Ends(P, key, from, other)
      requires k > 0 && Mine(P, S(), k, Slot(key, data))
      requires Tree(P, queue, n, from) && leaf < n && leafSlot < ENTRIES
      modifies this
      ensures ret == 0 || ret == 1 || ret == -1
      ensures Progress(P, old(S()), S(), k, Slot(key, data), ret, retVal)
      ensures Quiet(world) ==> Alone(P, old(S()), S(), k, key, ret)
      ensures Quiet(world) && ret == -1 ==> Blocked(P, old(cells), queue, n, from, leaf, leafSlot, Cell(sig, k))
    {
      OtherWriters(k);
      ghost var s := S();
      ghost var l :| Wf(P, s, l);
      ret, retVal := MoveInsert(l, from, other, key, data, queue, n, leaf, leafSlot, sig, k);
      Attempt(P, old(S()), s, l, S(), k, Slot(key, data), ret, retVal);
    }

    /** Visit slot i of a bucket of the search tree: try to insert if it looks empty, else find the
        bucket its entry could move to. Both reads are made without the lock. */
    method Visit(from: nat, other: nat, key: Key, data: nat, queue: seq<Node>, ghost n: nat,
                 node: nat, i: nat, sig: nat, k: nat)
      returns (ret: int, retVal: int, alt: nat)
      requires Valid() && Cooperative(P, world)
      requires key != P.dummy && sig == ShortSig(P.hash(key)) && Ends(P, key, from, other)
      requires k > 0 && Mine(P, S(), k, Slot(key, data))
      requires Tree(P, queue, n, from) && node < n && i < ENTRIES
      requires Quiet(world) ==> Current(P, cells, queue, node, i)
      modifies this
      ensures alt < Main(P)
      ensures ret == 0 || ret == 1 || ret == -1
      ensures Progress(P, old(S()), S(), k, Slot(key, data), ret, retVal)
      ensures Quiet(world) ==> Alone(P, old(S()), S(), k, key, ret)
      ensures Quiet(world) && ret == -1 ==> S() == old(S()) && ToldBy(P, cells, queue, node, i, alt)
    {
      ghost var x := Slot(key, data);
      assert NodeOk(P, queue, node, from);
      ret, retVal, alt := -1, -1, 0;
      var c := ReadSlot(queue[node].bkt, i, k, x);
      ghost var s := S();
      if c.idx == EMPTY {
        ret, retVal := TryMove(from, other, key, data, queue, n, node, i, sig, k);
        ProgressTrans(P, old(S()), s, S(), k, x, -1, ret, retVal);
        if ret != -1 { return; }
        if Quiet(world) {
          NotRefused(P, s.cells, queue, n, from, node, i, Cell(sig, k));
        }
      }
      s := S();
      c := ReadSlot(queue[node].bkt, i, k, x);
      ProgressTrans(P, old(S()), s, S(), k, x, retVal, -1, -1);
      alt := Alt(queue[node].cur, c.sig, P.order);
    }

    /** Visit slot i of node `tail` and append its child to the queue. */
    method Grow(from: nat, other: nat, key: Key, data: nat, queue: array<Node>, tail: nat, i: nat, sig: nat, k: nat)
      returns (ret: int, retVal: int)
      requires Valid() && Cooperative(P, world)
      requires key != P.dummy && sig == ShortSig(P.hash(key)) && Ends(P, key, from, other)
      requires k > 0 && Mine(P, S(), k, Slot(key, data))
      requires tail <= 123 && i < ENTRIES && queue.Length == QUEUE && Tree(P, queue[..], 8 * tail + 1 + i, from)
      requires Quiet(world) ==> Current(P, cells, queue[..], tail, i)
      modifies this, queue
      ensures ret == 0 || ret == 1 || ret == -1
      ensures ret == -1 ==> Tree(P, queue[..], 8 * tail + 2 + i, from)
      ensures Progress(P, old(S()), S(), k, Slot(key, data), ret, retVal)
      ensures Quiet(world) ==> Alone(P, old(S()), S(), k, key, ret)
      ensures Quiet(world) && ret == -1 ==> S() == old(S()) && Current(P, cells, queue[..], tail, i + 1)
    {
      var head := 8 * tail + 1 + i;
      ghost var q := queue[..];
      var alt;
      ret, retVal, alt := Visit(from, other, key, data, queue[..], head, tail, i, sig, k);
      if ret != -1 { return; }
      TreeGrows(P, q, head, from, Node(alt, alt, tail, i));
      if Quiet(world) { CurrentGrows(P, cells, q, tail, i, Node(alt, alt, tail, i)); }
      queue[head] := Node(alt, alt, tail, i);
      assert queue[..] == q[head := Node(alt, alt, tail, i)];
    }

    /** Expand node `tail` of the search tree: its eight children become nodes 8 * tail + 1 and following. */
    method Expand(from: nat, other: nat, key: Key, data: nat, queue: array<Node>, tail: nat, sig: nat, k: nat)
      returns (ret: int, retVal: int)
      requires Valid() && Cooperative(P, world)
      requires key != P.dummy && sig == ShortSig(P.hash(key)) && Ends(P, key, from, other)
      requires k > 0 && Mine(P, S(), k, Slot(key, data))
      requires tail <= 123 && queue.Length == QUEUE && Tree(P, queue[..], 8 * tail + 1, from)
      requires Quiet(world) ==> Current(P, cells, queue[..], tail, 0)
      modifies this, queue
      ensures ret == 0 || ret == 1 || ret == -1
      ensures ret == -1 ==> Tree(P, queue[..], 8 * tail + 9, from)
      ensures Progress(P, old(S()), S(), k, Slot(key, data), ret, retVal)
      ensures Quiet(world) ==> Alone(P, old(S()), S(), k, key, ret)
      ensures Quiet(world) && ret == -1 ==> S() == old(S()) && Current(P, cells, queue[..], tail + 1, 0)
    {
      ghost var x := Slot(key, data);
      OtherWriters(k);
      ProgressStart(P, old(S()), S(), k, Slot(key, data));
      retVal := -1;
      for i := 0 to ENTRIES
        invariant Tree(P, queue[..], 8 * tail + 1 + i, from)
        invariant Progress(P, old(S()), S(), k, x, -1, retVal)
        invariant Quiet(world) ==> S() == old(S()) && Current(P, cells, queue[..], tail, i)
      {
        ghost var s, v := S(), retVal;
        ret, retVal := Grow(from, other, key, data, queue, tail, i, sig, k);
        ProgressTrans(P, old(S()), s, S(), k, x, v, ret, retVal);
        if ret != -1 { return; }
      }
      if Quiet(world) { CurrentNext(P, cells, queue[..], tail); }
      return -1, retVal;
    }

    /** The search from its root on. */
    method Search(from: nat, other: nat, key: Key, data: nat, queue: array<Node>, sig: nat, k: nat)
      returns (ret: int, retVal: int)
      requires Valid() && Cooperative(P, world)
      requires key != P.dummy && sig == ShortSig(P.hash(key)) && Ends(P, key, from, other)
      requires k > 0 && Mine(P, S(), k, Slot(key, data))
      requires queue.Length == QUEUE && Tree(P, queue[..], 1, from) && Current(P, cells, queue[..], 0, 0)
      modifies this, queue
      ensures ret == 0 || ret == 1 || ret == -ENOSPC
      ensures Progress(P, old(S()), S(), k, Slot(key, data), ret, retVal)
      ensures Quiet(world) ==> Alone(P, old(S()), S(), k, key, ret)
      ensures Quiet(world) && ret == -ENOSPC ==> S() == old(S()) && Crowded(P, cells, from)
    {
      ghost var x := Slot(key, data);
      OtherWriters(k);
      ProgressStart(P, old(S()), S(), k, x);
      retVal := -1;
      var tail, head := 0, 1;
      while tail != head && head < QUEUE - ENTRIES
        invariant head == 8 * tail + 1 && 0 <= tail <= 124
        invariant Tree(P, queue[..], head, from)
        invariant Progress(P, old(S()), S(), k, x, -1, retVal)
        invariant Quiet(world) ==> S() == old(S()) && Current(P, cells, queue[..], tail, 0)
        decreases 124 - tail
      {
        ghost var s, v := S(), retVal;
        ret, retVal := Expand(from, other, key, data, queue, tail, sig, k);
        ProgressTrans(P, old(S()), s, S(), k, x, v, ret, retVal);
        if ret != -1 { return; }
        tail, head := tail + 1, head + ENTRIES;
      }
      if Quiet(world) { CrowdedBy(P, cells, queue[..], from); }
      return -ENOSPC, retVal;
    }

    /** rte_hash_cuckoo_make_space_mw */
    method MakeSpace(from: nat, other: nat, key: Key, data: nat, sig: nat, k: nat) returns (ret: int, retVal: int)
      requires Valid() && Cooperative(P, world)
      requires key != P.dummy && sig == ShortSig(P.hash(key)) && Ends(P, key, from, other)
      requires k > 0 && Mine(P, S(), k, Slot(key, data))
      modifies this
      ensures ret == 0 || ret == 1 || ret == -ENOSPC
      ensures Progress(P, old(S()), S(), k, Slot(key, data), ret, retVal)
      ensures Quiet(world) ==> Alone(P, old(S()), S(), k, key, ret)
      ensures Quiet(world) && ret == -ENOSPC ==> S() == old(S()) && Crowded(P, cells, from)
    {
      var queue := new Node[QUEUE];
      queue[0] := Node(from, from, -1, -1);
      RootOnly(P, cells, queue[..], from);
      ret, retVal := Search(from, other, key, data, queue, sig, k);
    }

    /** enqueue_slot_back */
    method Release(ghost l: Links, k: nat)
      requires Wf(P, S(), l) && k in Loose(P, S())
      modifies this`freeSlots
      ensures Wf(P, S(), l) && freeSlots == old(freeSlots) + [k]
      ensures Contents(P, S()) == old(Contents(P, S())) && Loose(P, S()) == old(Loose(P, S())) - {k}
      ensures Acted(P, old(S()), k, S(), 0)
    {
      ghost var r := FreeKeeps(P, S(), l, k);
      FreeActs(P, S(), k, r);
      freeSlots := freeSlots + [k];
      assert S() == r;
    }

    /** First empty slot of the buckets in the list that starts at c. */
    method FillChain(ghost l: Links, c: nat, sig: nat, k: nat) returns (done: bool)
      requires Wf(P, S(), l) && c < Main(P) && k in Loose(P, S())
      requires SecOf(P, store[k].key) == c && sig == ShortSig(P.hash(store[k].key))
      requires Unseen(P, S(), l, store[k].key, PrimOf(P, store[k].key), c) && P.extra > 0
      modifies this`cells
      ensures Wf(P, S(), l)
      ensures if done then Added(P, old(S()), S(), k) && Acted(P, old(S()), k, S(), 0)
        else S() == old(S()) && FullRows(cells, l.chain[c])
    {
      var cur := c;
      ghost var list, i := l.chain[c], 0;
      FirstIsMain(P, S(), l, c);
      while cur != Rows(P)
        invariant cells == old(cells)
        invariant 0 <= i <= |list| && cur == if i < |list| then list[i] else Rows(P)
        invariant i < |list| ==> list[i] < Rows(P)
        invariant FullRows(cells, list[..i])
        decreases |list| - i
      {
        assert Link(P, next, l, c, i);
        for j := 0 to ENTRIES
          invariant cells == old(cells)
          invariant forall h :: 0 <= h < j ==> cells[cur][h].idx != EMPTY
        {
          if cells[cur][j].idx == EMPTY {
            ghost var r := PutKeeps(P, S(), l, Place(cur, j), k);
            ChainActs(P, S(), l, k, Place(cur, j), r);
            cells := Put(cells, Place(cur, j), Cell(sig, k));
            assert S() == r;
            return true;
          }
        }
        assert FullRow(cells, cur);
        cur := next[cur];
        i := i + 1;
        assert i < |list| ==> Link(P, next, l, c, i);
      }
      assert list[..i] == list;
      return false;
    }

    /** rte_hash_get_last_bkt */
    method LastOf(ghost l: Links, c: nat) returns (last: nat)
      requires |next| == Rows(P) && Sized(P, l) && Chained(P, next, l) && c < Main(P)
      ensures l.chain[c] != [] && last == l.chain[c][|l.chain[c]| - 1] < |next|
    {
      last := c;
      ghost var i := 0;
      assert l.root[c] == c && l.depth[c] == 0 && l.chain[c][0] == c;
      assert Link(P, next, l, c, 0);
      assert 1 < |l.chain[c]| ==> Link(P, next, l, c, 1);
      while next[last] != Rows(P)
        invariant 0 <= i < |l.chain[c]| && last == l.chain[c][i]
        invariant last < Rows(P) && next[last] == if i + 1 < |l.chain[c]| then l.chain[c][i + 1] else Rows(P)
        invariant i + 1 < |l.chain[c]| ==> l.chain[c][i + 1] < Rows(P)
        decreases |l.chain[c]| - i
      {
        i := i + 1;
        last := next[last];
        assert Link(P, next, l, c, i);
        assert i + 1 < |l.chain[c]| ==> Link(P, next, l, c, i + 1);
      }
    }

    /** The entry goes into the first slot of a row, which is linked to the end of the list of bucket c. */
    method LinkRow(ghost l: Links, c: nat, row: nat, e: Cell)
      requires |next| == Rows(P) && Sized(P, l) && Chained(P, next, l) && c < Main(P) && row < |cells|
      modifies this`cells, this`next
      ensures l.chain[c] != [] && l.chain[c][|l.chain[c]| - 1] < |old(next)|
      ensures cells == Put(old(cells), Place(row, 0), e) && next == old(next)[l.chain[c][|l.chain[c]| - 1] := row]
    {
      cells := Put(cells, Place(row, 0), e);
      var last := LastOf(l, c);
      next := next[last := row];
    }

    /** Put the entry into a fresh extendable bucket and link it to the list that starts at c. */
    method LinkNew(ghost l: Links, c: nat, sig: nat, k: nat) returns (done: bool)
      requires Wf(P, S(), l) && c < Main(P) && k in Loose(P, S())
      requires SecOf(P, store[k].key) == c && sig == ShortSig(P.hash(store[k].key))
      requires Unseen(P, S(), l, store[k].key, PrimOf(P, store[k].key), c) && FullRows(cells, l.chain[c])
      modifies this`cells, this`next, this`freeExt
      ensures Valid()
      ensures done == (old(freeExt) != [])
      ensures if done then Added(P, old(S()), S(), k) && Acted(P, old(S()), k, S(), 0) else S() == old(S())
    {
      var id := 0;
      if freeExt != [] {
        id := freeExt[0];
        freeExt := freeExt[1..];
      }
      if id == 0 { return false; }
      LinkRow(l, c, Main(P) + id - 1, Cell(sig, k));
      LinkResult(P, old(S()), l, c, k, S());
      return true;
    }

    /** First attempt: the primary bucket. */
    method TryInsert(prim: nat, sec: nat, key: Key, data: nat, sig: nat, k: nat) returns (ret: int, retVal: int)
      requires Valid() && Cooperative(P, world)
      requires key != P.dummy && sig == ShortSig(P.hash(key)) && prim == PrimOf(P, key) && sec == SecOf(P, key)
      requires k > 0 && Mine(P, S(), k, Slot(key, data))
      modifies this
      ensures ret == 0 || ret == 1 || ret == -1
      ensures Progress(P, old(S()), S(), k, Slot(key, data), ret, retVal)
      ensures Quiet(world) ==> Alone(P, old(S()), S(), k, key, ret)
      ensures Quiet(world) && ret == -1 ==> S() == old(S())
    {
      OtherWriters(k);
      ghost var s := S();
      ghost var l :| Wf(P, s, l);
      ret, retVal := Insert(l, prim, sec, key, data, sig, k);
      Attempt(P, old(S()), s, l, S(), k, Slot(key, data), ret, retVal);
    }

    /** The primary bucket, then making space from either bucket. */
    method TryAll(prim: nat, sec: nat, key: Key, data: nat, sig: nat, k: nat) returns (ret: int, retVal: int)
      requires Valid() && Cooperative(P, world)
      requires key != P.dummy && sig == ShortSig(P.hash(key)) && prim == PrimOf(P, key) && sec == SecOf(P, key)
      requires k > 0 && Mine(P, S(), k, Slot(key, data))
      modifies this
      ensures ret == 0 || ret == 1 || ret == -ENOSPC
      ensures Progress(P, old(S()), S(), k, Slot(key, data), ret, retVal)
      ensures Quiet(world) ==> Alone(P, old(S()), S(), k, key, ret)
      ensures Quiet(world) && ret == -ENOSPC ==> S() == old(S()) && Crowded(P, cells, prim) && Crowded(P, cells, sec)
    {
      ghost var x := Slot(key, data);
      ret, retVal := TryInsert(prim, sec, key, data, sig, k);
      if ret != -1 { return; }
      ghost var s, v := S(), retVal;
      ret, retVal := MakeSpace(prim, sec, key, data, sig, k);
      ProgressTrans(P, old(S()), s, S(), k, x, v, ret, retVal);
      if ret != -ENOSPC { return; }
      s, v := S(), retVal;
      ret, retVal := MakeSpace(sec, prim, key, data, sig, k);
      ProgressTrans(P, old(S()), s, S(), k, x, v, ret, retVal);
    }

    /** The slot goes back to the free ring, other writers first. */
    method GiveBack(k: nat)
      requires Valid() && Cooperative(P, world) && 1 <= k && k in Loose(P, S())
      modifies this
      ensures Valid() && Thread(P, Snap(old(S()), k), Snap(S(), 0))
      ensures Quiet(world) ==> Returned(P, old(S()), S(), k)
    {
      OtherWriters(k);
      ghost var s := S();
      ghost var l :| Wf(P, s, l);
      Release(l, k);
      ThreadAct(P, old(S()), s, k, S(), 0);
    }

    /** The extendable table, under the lock. */
    method AddExtended(ghost l: Links, prim: nat, sec: nat, key: Key, data: nat, sig: nat, k: nat) returns (ret: int)
      requires Wf(P, S(), l)
      requires key != P.dummy && sig == ShortSig(P.hash(key)) && prim == PrimOf(P, key) && sec == SecOf(P, key)
      requires k > 0 && Mine(P, S(), k, Slot(key, data)) && P.extra > 0
      modifies this
      ensures Valid() && Thread(P, Snap(old(S()), k), Snap(S(), 0))
      ensures Extended(P, old(S()), S(), k, Slot(key, data), ret)
    {
      ret := SearchBoth(l, prim, sec, key, data, sig);
      if ret != -1 {
        UpdatedRely(P, old(S()), l, S(), Slot(key, data), ret);
        ghost var u := S();
        Release(l, k);
        UpdateFree(P, old(S()), k, Slot(key, data), ret, u, S());
        assert HasAt(P, old(S()), ret + 1, key);
        return;
      }
      Absent(P, S(), l, key);
      ret := AddToList(l, sec, sig, k);
    }

    /** ... for a key that is not in the table. */
    method AddToList(ghost l: Links, c: nat, sig: nat, k: nat) returns (ret: int)
      requires Wf(P, S(), l) && c < Main(P) && k in Loose(P, S()) && P.extra > 0
      requires SecOf(P, store[k].key) == c && sig == ShortSig(P.hash(store[k].key))
      requires Unseen(P, S(), l, store[k].key, PrimOf(P, store[k].key), c)
      modifies this
      ensures Valid() && Thread(P, Snap(old(S()), k), Snap(S(), 0))
      ensures if ret == -ENOSPC then S() == old(S()) && freeExt == [] && ListFull(P, S(), c)
        else ret == k - 1 && Added(P, old(S()), S(), k)
    {
      RelySelf(P, S(), {k});
      var done := FillChain(l, c, sig, k);
      if !done { done := LinkNew(l, c, sig, k); }
      if done {
        ThreadAct(P, old(S()), old(S()), k, S(), 0);
        return k - 1;
      }
      LeakActs(P, S(), k);
      ThreadAct(P, S(), S(), k, S(), 0);
      return -ENOSPC;
    }

    method TryExtended(prim: nat, sec: nat, key: Key, data: nat, sig: nat, k: nat) returns (ret: int)
      requires Valid() && Cooperative(P, world)
      requires key != P.dummy && sig == ShortSig(P.hash(key)) && prim == PrimOf(P, key) && sec == SecOf(P, key)
      requires k > 0 && Mine(P, S(), k, Slot(key, data))
      modifies this
      requires P.extra > 0
      ensures Settled(P, old(S()), k, S(), key, ret)
      ensures Quiet(world) ==> Placed(P, old(S()), S(), k, key, ret)
      ensures Quiet(world) && ret == -ENOSPC ==> S() == old(S()) && freeExt == [] && ListFull(P, S(), sec)
    {
      OtherWriters(k);
      ghost var s := S();
      ghost var l :| Wf(P, s, l);
      ret := AddExtended(l, prim, sec, key, data, sig, k);
      SettleExtended(P, old(S()), s, S(), k, Slot(key, data), ret);
    }

    /** Everything after the key slot is filled. */
    method PlaceNew(prim: nat, sec: nat, key: Key, data: nat, sig: nat, k: nat) returns (ret: int)
      requires Valid() && Cooperative(P, world)
      requires key != P.dummy && sig == ShortSig(P.hash(key)) && prim == PrimOf(P, key) && sec == SecOf(P, key)
      requires k > 0 && Mine(P, S(), k, Slot(key, data))
      modifies this
      ensures Settled(P, old(S()), k, S(), key, ret)
      ensures Quiet(world) ==> Placed(P, old(S()), S(), k, key, ret)
      ensures Quiet(world) && ret == -ENOSPC ==> NoRoom(P, S(), key)
    {
      var retVal;
      ret, retVal := TryAll(prim, sec, key, data, sig, k);
      ghost var s, x := S(), Slot(key, data);
      if ret == 0 {
        SettleAdded(P, old(S()), s, k, x, retVal);
        return k - 1;
      }
      if ret == 1 {
        GiveBack(k);
        SettleUpdated(P, old(S()), s, S(), k, x, retVal);
        return retVal;
      }
      if P.extra == 0 {
        GiveBack(k);
        SettleReturned(P, old(S()), s, S(), k, x, retVal);
        return -ENOSPC;
      }
      ret := TryExtended(prim, sec, key, data, sig, k);
      SettleLast(P, old(S()), s, S(), k, x, retVal, ret);
    }

    /** alloc_slot */
    method Alloc() returns (k: nat)
      requires Valid() && Cooperative(P, world) && freeSlots != []
      modifies this
      ensures Valid() && k in Loose(P, S()) && k > 0 && Thread(P, Snap(old(S()), 0), Snap(S(), k))
      ensures Quiet(world) ==> Taken(P, old(S()), S(), k)
    {
      OtherWriters(0);
      ghost var s := S();
      ghost var l :| Wf(P, s, l);
      ghost var u := AllocKeeps(P, s, l);
      k := freeSlots[0];
      freeSlots := freeSlots[1..];
      assert S() == u;
      TakeActs(P, s, u);
      ThreadAct(P, old(S()), s, 0, u, k);
    }

    /** Data and key are stored in the slot that was taken. */
    method StoreSlot(k: nat, x: Slot)
      requires Valid() && Cooperative(P, world) && k > 0 && k in Loose(P, S())
      modifies this
      ensures Valid() && Mine(P, S(), k, x) && Thread(P, Snap(old(S()), k), Snap(S(), k))
      ensures Quiet(world) ==> S() == old(S()).(store := old(store)[k := x])
      ensures Quiet(world) ==> Contents(P, S()) == Contents(P, old(S())) && Loose(P, S()) == Loose(P, old(S()))
    {
      OtherWriters(k);
      ghost var s := S();
      ghost var l :| Wf(P, s, l);
      store := store[k := x];
      Filled(P, old(S()), s, l, S(), k, x);
    }

    /** A slot is taken and filled. */
    method Take(key: Key, data: nat) returns (k: nat)
      requires Valid() && Cooperative(P, world) && freeSlots != []
      modifies this
      ensures Valid() && k > 0 && Mine(P, S(), k, Slot(key, data)) && Thread(P, Snap(old(S()), 0), Snap(S(), k))
      ensures Quiet(world) ==> Taken(P, old(S()), S(), k)
    {
      k := Alloc();
      ghost var u := S();
      StoreSlot(k, Slot(key, data));
      ThreadTrans(P, Snap(old(S()), 0), Snap(u, k), Snap(S(), k));
    }

    /** The first look, under the lock, before a slot is taken. */
    method TryUpdate(prim: nat, sec: nat, key: Key, data: nat, sig: nat) returns (ret: int)
      requires Valid() && Cooperative(P, world) && (HasKey(P, S(), key) || freeSlots != [])
      requires key != P.dummy && sig == ShortSig(P.hash(key)) && prim == PrimOf(P, key) && sec == SecOf(P, key)
      modifies this
      ensures Valid() && Thread(P, Snap(old(S()), 0), Snap(S(), 0)) && (ret == -1 ==> freeSlots != [])
      ensures ret != -1 ==> ret >= 0 && HasAt(P, S(), ret + 1, key)
      ensures Quiet(world) ==>
        if ret == -1 then S() == old(S()) && !HasKey(P, S(), key) else AddSpec(P, old(S()), S(), Slot(key, data), ret)
    {
      OtherWriters(0);
      ghost var s := S();
      ghost var l :| Wf(P, s, l);
      ret := SearchBoth(l, prim, sec, key, data, sig);
      if ret == -1 {
        ThreadWait(P, old(S()), s, 0);
        Absent(P, s, l, key);
        StillThere(P, old(S()), s, key);
      } else {
        UpdateActs(P, s, 0, Slot(key, data), ret, S());
        ThreadAct(P, old(S()), s, 0, S(), 0);
        FoundSpec(P, s, l, S(), Slot(key, data), ret);
      }
    }

    /** __rte_hash_add_key_with_hash */
    method Add(key: Key, data: nat) returns (ret: int)
      requires Valid() && Cooperative(P, world)
      requires key != P.dummy && (HasKey(P, S(), key) || freeSlots != [])
      modifies this
      ensures Settled(P, old(S()), 0, S(), key, ret) && Rely(P, old(S()), S(), {})
      ensures Quiet(world) ==> AddSpec(P, old(S()), S(), Slot(key, data), ret)
    {
      var h := P.hash(key);
      var sig, prim := ShortSig(h), Prim(h, P.order);
      var sec := Alt(prim, sig, P.order);
      ret := TryUpdate(prim, sec, key, data, sig);
      if ret != -1 {
        ThreadRely(P, Snap(old(S()), 0), Snap(S(), 0));
        return;
      }
      ghost var s := S();
      var k := Take(key, data);
      ghost var t := S();
      ret := PlaceNew(prim, sec, key, data, sig, k);
      ThreadTrans(P, Snap(old(S()), 0), Snap(s, 0), Snap(t, k));
      ThreadTrans(P, Snap(old(S()), 0), Snap(t, k), Snap(S(), 0));
      ThreadRely(P, Snap(old(S()), 0), Snap(S(), 0));
      if Quiet(world) { PlacedSpec(P, s, t, S(), k, Slot(key, data), ret); }
    }
  }
}