/** The whole state of the cuckoo hash, its invariant, and what the writers' atomic actions do to it. */
module CuckooState {
  import Words
  import opened CuckooCells

  /** Keys are compared on eight bytes. */
  type Key = nat

  /** struct rte_hash_key: an entry of the key store. */
  datatype Slot = Slot(key: Key, data: nat)

  /** Fixed at creation: 2^order main buckets, `entries` key slots, `extra` extendable buckets (none
      without the extendable table), the hash function and the key that key store entry 0 holds. */
  datatype Params = Params(order: nat, entries: nat, extra: nat, hash: Key -> nat, dummy: Key)

  /** Main buckets come first, extendable bucket e is row Main + e - 1. `next` is Rows where the
      source has a null pointer. */
  datatype State = State(cells: Buckets, next: seq<nat>, store: seq<Slot>, freeSlots: seq<nat>, freeExt: seq<nat>)

  /** Proof witness for the linked buckets: the main bucket at the start of a row's list, the row's
      position in it, and the lists themselves. */
  datatype Links = Links(root: seq<nat>, depth: seq<nat>, chain: seq<seq<nat>>)

  function Main(P: Params): (r: nat)
    ensures r > 0
  {
    Words.Pow2(P.order)
  }

  function Rows(P: Params): nat { Main(P) + P.extra }

  function PrimOf(P: Params, key: Key): (r: nat)
    ensures r < Main(P)
  {
    Prim(P.hash(key), P.order)
  }

  function SecOf(P: Params, key: Key): (r: nat)
    ensures r < Main(P)
  {
    Alt(PrimOf(P, key), ShortSig(P.hash(key)), P.order)
  }

  /** The bucket entry that refers to key slot k. */
  ghost function Tag(P: Params, store: seq<Slot>, k: nat): Cell
    requires k < |store|
  {
    Cell(ShortSig(P.hash(store[k].key)), k)
  }

  // ---------------------------------------------------------------- invariant

  ghost predicate Shape(P: Params, s: State, l: Links) {
    && |s.cells| == |s.next| == Rows(P) && Sized(P, l)
    && |s.store| == P.entries + 1 && s.store[0].key == P.dummy
  }

  ghost predicate Sized(P: Params, l: Links) {
    |l.root| == |l.depth| == Rows(P) && |l.chain| == Main(P)
  }

  /** The lists of buckets: disjoint, without cycles, linked by `next`. */
  ghost predicate Chained(P: Params, next: seq<nat>, l: Links)
    requires |next| == Rows(P) && Sized(P, l)
  {
    && (forall b :: 0 <= b < Main(P) ==> l.chain[b] != [] && l.root[b] == b && l.depth[b] == 0)
    && (forall b, i :: 0 <= b < Main(P) && 0 <= i < |l.chain[b]| ==> Link(P, next, l, b, i))
    && (forall x :: 0 <= x < Rows(P) && l.root[x] < Main(P) ==>
          l.depth[x] < |l.chain[l.root[x]]| && l.chain[l.root[x]][l.depth[x]] == x)
    && (forall x :: 0 <= x < Rows(P) && l.root[x] >= Main(P) ==> next[x] == Rows(P))
  }

  ghost predicate Link(P: Params, next: seq<nat>, l: Links, b: nat, i: nat)
    requires |next| == Rows(P) && Sized(P, l) && b < Main(P) && i < |l.chain[b]|
  {
    var x := l.chain[b][i];
    && x < Rows(P) && l.root[x] == b && l.depth[x] == i
    && next[x] == if i + 1 < |l.chain[b]| then l.chain[b][i + 1] else Rows(P)
  }

  /** The free extendable buckets: each once, and in no list. */
  ghost predicate ExtFree(P: Params, freeExt: seq<nat>, l: Links)
    requires Sized(P, l)
  {
    && (forall i :: 0 <= i < |freeExt| ==> 0 < freeExt[i] <= P.extra && l.root[Main(P) + freeExt[i] - 1] >= Main(P))
    && (forall i, j :: 0 <= i < j < |freeExt| ==> freeExt[i] != freeExt[j])
  }

  /** May an entry with this key be in row b? In its two main buckets, or in the list of the second. */
  ghost predicate Lives(P: Params, l: Links, key: Key, b: nat)
    requires b < |l.root|
  {
    if b < Main(P) then HomeOf(P.hash(key), b, P.order) else l.root[b] == SecOf(P, key)
  }

  ghost predicate Tagged(P: Params, cells: Buckets, store: seq<Slot>, l: Links)
    requires |cells| == |l.root|
  {
    forall p :: In(cells, p) && At(cells, p).idx != EMPTY ==>
      && At(cells, p).idx < |store|
      && At(cells, p) == Tag(P, store, At(cells, p).idx)
      && Lives(P, l, store[At(cells, p).idx].key, p.bkt)
  }

  /** Key slot k is free or referred to by one bucket entry, never both, never twice. */
  ghost predicate Single(P: Params, s: State, k: nat)
    requires k < |s.store|
  {
    multiset(s.freeSlots)[k] + Count(s.cells, Tag(P, s.store, k)) <= 1
  }

  ghost predicate Slotted(P: Params, s: State)
    requires |s.store| == P.entries + 1
  {
    && (forall k :: k in s.freeSlots ==> 1 <= k <= P.entries)
    && (forall k :: 1 <= k <= P.entries ==> Single(P, s, k))
  }

  ghost predicate Wf(P: Params, s: State, l: Links) {
    && Shape(P, s, l) && Chained(P, s.next, l) && ExtFree(P, s.freeExt, l)
    && Tagged(P, s.cells, s.store, l) && Slotted(P, s)
  }

  ghost predicate Good(P: Params, s: State) { exists l :: Wf(P, s, l) }

  // ---------------------------------------------------------------- abstraction

  ghost predicate Held(P: Params, s: State, k: nat) {
    1 <= k < |s.store| && Count(s.cells, Tag(P, s.store, k)) > 0
  }

  /** What the table maps: key slot -> key and data. */
  ghost function Contents(P: Params, s: State): map<nat, Slot> {
    map k | 1 <= k < |s.store| && Held(P, s, k) :: s.store[k]
  }

  /** Key slots that are neither free nor referred to: taken by a writer that is still at work. */
  ghost function Loose(P: Params, s: State): set<nat> {
    set k | 1 <= k < |s.store| && k !in s.freeSlots && !Held(P, s, k)
  }

  ghost predicate HasKey(P: Params, s: State, key: Key) {
    exists k :: k in Contents(P, s) && Contents(P, s)[k].key == key
  }

  /** No key is in the table twice. */
  ghost predicate Distinct(P: Params, s: State) {
    forall j, k ::
      j in Contents(P, s) && k in Contents(P, s) && Contents(P, s)[j].key == Contents(P, s)[k].key ==> j == k
  }

  // ---------------------------------------------------------------- searching

  /** No entry of row b has this key. */
  ghost predicate NotIn(s: State, b: nat, key: Key)
    requires b < |s.cells|
  {
    forall i :: 0 <= i < ENTRIES ==>
      s.cells[b][i].idx != EMPTY && s.cells[b][i].idx < |s.store| ==> s.store[s.cells[b][i].idx].key != key
  }

  ghost predicate NotInChain(s: State, c: seq<nat>, key: Key) {
    forall i :: 0 <= i < |c| ==> c[i] < |s.cells| && NotIn(s, c[i], key)
  }

  /** The two rows and the list a search visits are all the places a key can be in. */
  lemma Absent(P: Params, s: State, l: Links, key: Key)
    requires Wf(P, s, l)
    requires NotIn(s, PrimOf(P, key), key) && NotInChain(s, l.chain[SecOf(P, key)], key)
    ensures !HasKey(P, s, key)
  {
    forall k | k in Contents(P, s) ensures s.store[k].key != key {
      var p := Findable(P, s, l, k);
      assert s.cells[p.bkt][p.slot].idx == k;
    }
  }

  lemma PlaceHeld(P: Params, s: State, l: Links, p: Place)
    requires Wf(P, s, l) && In(s.cells, p) && At(s.cells, p).idx != EMPTY
    ensures Held(P, s, At(s.cells, p).idx)
  {
    PlaceHas(s.cells, p);
  }

  // ---------------------------------------------------------------- atomic actions

  /** A key slot no bucket entry refers to has no entry with any signature. */
  lemma NoEntry(P: Params, s: State, l: Links, k: nat, c: Cell)
    requires Wf(P, s, l) && 1 <= k <= P.entries && !Held(P, s, k) && c.idx == k
    ensures Count(s.cells, c) == 0
  {
    if Count(s.cells, c) > 0 {
      var p := EntryPlace(s.cells, c);
    }
  }

  /** Storing new data for slot k, or key and data into a slot that no entry refers to. */
  lemma StoreKeeps(P: Params, s: State, l: Links, k: nat, x: Slot) returns (r: State)
    requires Wf(P, s, l) && 1 <= k <= P.entries
    requires Held(P, s, k) ==> x.key == s.store[k].key
    requires k in s.freeSlots ==> x.key == s.store[k].key
    ensures r == s.(store := s.store[k := x]) && Wf(P, r, l)
    ensures Contents(P, r) == if Held(P, s, k) then Contents(P, s)[k := x] else Contents(P, s)
    ensures Loose(P, r) == Loose(P, s)
  {
    r := s.(store := s.store[k := x]);
    if x.key != s.store[k].key {
      NoEntry(P, s, l, k, Tag(P, r.store, k));
      NoEntry(P, s, l, k, Tag(P, s.store, k));
    }
    forall j | 1 <= j <= P.entries
      ensures Count(r.cells, Tag(P, r.store, j)) == Count(s.cells, Tag(P, s.store, j)) && Single(P, r, j)
    {
      assert Single(P, s, j);
    }
    assert forall j :: Held(P, r, j) <==> Held(P, s, j);
    forall p | In(s.cells, p) && At(s.cells, p).idx != EMPTY
      ensures At(s.cells, p).idx < |r.store| && At(s.cells, p) == Tag(P, r.store, At(s.cells, p).idx)
      ensures Lives(P, l, r.store[At(s.cells, p).idx].key, p.bkt)
    {
      PlaceHeld(P, s, l, p);
    }
  }

  /** Rearranged buckets that hold the same entries, and with `added` also one for a loose slot. */
  lemma RecellKeeps(P: Params, s: State, l: Links, cells: Buckets, k: nat, added: bool) returns (r: State)
    requires Wf(P, s, l) && |cells| == |s.cells| && k in Loose(P, s)
    requires Tagged(P, cells, s.store, l)
    requires forall c :: Count(cells, c) == Count(s.cells, c) + if added then Is(Tag(P, s.store, k), c) else 0
    ensures r == s.(cells := cells) && Wf(P, r, l)
    ensures Contents(P, r) == if added then Contents(P, s)[k := s.store[k]] else Contents(P, s)
    ensures Loose(P, r) == if added then Loose(P, s) - {k} else Loose(P, s)
  {
    r := s.(cells := cells);
    forall j | 1 <= j <= P.entries
      ensures Held(P, r, j) <==> Held(P, s, j) || (added && j == k)
      ensures Single(P, r, j)
    {
      assert Single(P, s, j);
    }
  }

  lemma AllocKeeps(P: Params, s: State, l: Links) returns (r: State)
    requires Wf(P, s, l) && s.freeSlots != []
    ensures r == s.(freeSlots := s.freeSlots[1..]) && Wf(P, r, l)
    ensures Contents(P, r) == Contents(P, s) && Loose(P, r) == Loose(P, s) + {s.freeSlots[0]}
    ensures s.freeSlots[0] !in Loose(P, s)
  {
    r := s.(freeSlots := s.freeSlots[1..]);
    var k := s.freeSlots[0];
    assert s.freeSlots == [k] + r.freeSlots;
    assert multiset(s.freeSlots) == multiset{k} + multiset(r.freeSlots);
    assert forall j :: j in s.freeSlots <==> j == k || j in r.freeSlots;
    forall j | 1 <= j <= P.entries
      ensures Single(P, r, j) && (Held(P, r, j) <==> Held(P, s, j))
    {
      assert Single(P, s, j);
    }
    assert k in s.freeSlots && Single(P, s, k);
  }

  lemma FreeKeeps(P: Params, s: State, l: Links, k: nat) returns (r: State)
    requires Wf(P, s, l) && k in Loose(P, s)
    ensures r == s.(freeSlots := s.freeSlots + [k]) && Wf(P, r, l)
    ensures Contents(P, r) == Contents(P, s) && Loose(P, r) == Loose(P, s) - {k}
  {
    r := s.(freeSlots := s.freeSlots + [k]);
    forall j | 1 <= j <= P.entries
      ensures Single(P, r, j) && (Held(P, r, j) <==> Held(P, s, j))
    {
      assert Single(P, s, j);
    }
  }

  /** Linking a free extendable bucket to the end of main bucket b's list. */
  lemma LinkKeeps(P: Params, s: State, l: Links, b: nat) returns (r: State, m: Links)
    requires Wf(P, s, l) && b < Main(P) && s.freeExt != []
    ensures var c, x := l.chain[b], Main(P) + s.freeExt[0] - 1;
      && c[|c| - 1] < Rows(P)
      && r == s.(freeExt := s.freeExt[1..], next := s.next[c[|c| - 1] := x])
      && m == Links(l.root[x := b], l.depth[x := |c|], l.chain[b := c + [x]])
    ensures Wf(P, r, m)
    ensures Contents(P, r) == Contents(P, s) && Loose(P, r) == Loose(P, s)
  {
    var c, x := l.chain[b], Main(P) + s.freeExt[0] - 1;
    assert Link(P, s.next, l, b, |c| - 1);
    m := Extend(P, s.next, l, b, x);
    r := s.(freeExt := s.freeExt[1..], next := s.next[c[|c| - 1] := x]);
    ExtFreeTail(P, s.freeExt, l, m);
    assert Tagged(P, r.cells, r.store, m) by { ExtendTagged(P, s, l, m, x); }
    assert Slotted(P, r) by { assert forall j :: 1 <= j <= P.entries ==> Single(P, s, j) == Single(P, r, j); }
  }

  lemma ExtFreeTail(P: Params, free: seq<nat>, l: Links, m: Links)
    requires Sized(P, l) && Sized(P, m) && ExtFree(P, free, l) && free != []
    requires var x := Main(P) + free[0] - 1; forall i :: 0 <= i < |l.root| && i != x ==> m.root[i] == l.root[i]
    ensures ExtFree(P, free[1..], m)
  {
    var rest := free[1..];
    forall i | 0 <= i < |rest| ensures 0 < rest[i] <= P.extra && m.root[Main(P) + rest[i] - 1] >= Main(P) {
      assert rest[i] == free[i + 1];
    }
  }

  lemma ExtendTagged(P: Params, s: State, l: Links, m: Links, x: nat)
    requires |s.cells| == |l.root| == |m.root| && Tagged(P, s.cells, s.store, l)
    requires Main(P) <= x < |l.root| && l.root[x] >= Main(P)
    requires forall i :: 0 <= i < |l.root| && i != x ==> m.root[i] == l.root[i]
    ensures Tagged(P, s.cells, s.store, m)
  {
    forall p | In(s.cells, p) && At(s.cells, p).idx != EMPTY
      ensures At(s.cells, p).idx < |s.store| && At(s.cells, p) == Tag(P, s.store, At(s.cells, p).idx)
      ensures Lives(P, m, s.store[At(s.cells, p).idx].key, p.bkt)
    {
      assert Lives(P, l, s.store[At(s.cells, p).idx].key, p.bkt);
    }
  }

  lemma Extend(P: Params, next: seq<nat>, l: Links, b: nat, x: nat) returns (m: Links)
    requires |next| == Rows(P) && Sized(P, l) && Chained(P, next, l) && b < Main(P)
    requires Main(P) <= x < Rows(P) && l.root[x] >= Main(P)
    ensures var c := l.chain[b];
      && m == Links(l.root[x := b], l.depth[x := |c|], l.chain[b := c + [x]])
      && c[|c| - 1] < Rows(P)
      && Chained(P, next[c[|c| - 1] := x], m)
  {
    var c := l.chain[b];
    assert Link(P, next, l, b, |c| - 1);
    m := Links(l.root[x := b], l.depth[x := |c|], l.chain[b := c + [x]]);
    var n := next[c[|c| - 1] := x];
    forall a, i | 0 <= a < Main(P) && 0 <= i < |m.chain[a]|
      ensures Link(P, n, m, a, i)
    {
      if a != b || i < |c| { assert Link(P, next, l, a, i); }
    }
  }

  /** Putting the entry for a loose slot into an empty place it may live in. */
  lemma PutKeeps(P: Params, s: State, l: Links, p: Place, k: nat) returns (r: State)
    requires Wf(P, s, l) && k in Loose(P, s) && In(s.cells, p) && At(s.cells, p).idx == EMPTY
    requires Lives(P, l, s.store[k].key, p.bkt)
    ensures r == s.(cells := Put(s.cells, p, Tag(P, s.store, k))) && Wf(P, r, l)
    ensures Contents(P, r) == Contents(P, s)[k := s.store[k]] && Loose(P, r) == Loose(P, s) - {k}
  {
    var cells := Put(s.cells, p, Tag(P, s.store, k));
    forall c ensures Count(cells, c) == Count(s.cells, c) + Is(Tag(P, s.store, k), c) {
      PutCount(s.cells, p, Tag(P, s.store, k), c);
    }
    r := RecellKeeps(P, s, l, cells, k, true);
  }

  ghost function KeyHash(P: Params, store: seq<Slot>, k: nat): nat { if k < |store| then P.hash(store[k].key) else 0 }

  ghost function HashOf(P: Params, store: seq<Slot>): nat -> nat { (k: nat) => KeyHash(P, store, k) }

  /** The main rows of a tagged table are housed, and the other way round. */
  lemma HousedIsTagged(P: Params, s: State, l: Links, cells: Buckets)
    requires Wf(P, s, l) && |cells| == |s.cells|
    requires forall b :: Main(P) <= b < |cells| ==> cells[b] == s.cells[b]
    requires forall p :: In(cells, p) && At(cells, p).idx != EMPTY ==> At(cells, p).idx < |s.store|
    ensures Housed(cells, P.order, HashOf(P, s.store)) <==> Tagged(P, cells, s.store, l)
  {
    var f := HashOf(P, s.store);
    forall p | In(cells, p) && At(cells, p).idx != EMPTY
      ensures p.bkt < Main(P) ==>
        ((At(cells, p).sig == ShortSig(f(At(cells, p).idx)) && HomeOf(f(At(cells, p).idx), p.bkt, P.order))
        <==> (At(cells, p) == Tag(P, s.store, At(cells, p).idx) && Lives(P, l, s.store[At(cells, p).idx].key, p.bkt)))
      ensures p.bkt >= Main(P) ==>
        At(cells, p) == Tag(P, s.store, At(cells, p).idx) && Lives(P, l, s.store[At(cells, p).idx].key, p.bkt)
    {
      if p.bkt >= Main(P) { assert At(cells, p) == At(s.cells, p); }
    }
  }

  /** Any walk back along any path through main buckets keeps the invariant and adds at most the entry. */
  lemma DisplaceKeeps(P: Params, s: State, l: Links, hole: Place, path: seq<Place>, k: nat) returns (r: State)
    requires Wf(P, s, l) && k in Loose(P, s)
    requires In(s.cells, hole) && hole.bkt < Main(P) && At(s.cells, hole).idx == EMPTY
    requires forall p :: p in path ==> In(s.cells, p) && p.bkt < Main(P)
    requires HomeOf(P.hash(s.store[k].key), if path == [] then hole.bkt else path[|path| - 1].bkt, P.order)
    ensures var o := Displace(s.cells, P.order, hole, path, Tag(P, s.store, k));
      && r == s.(cells := o.t) && Wf(P, r, l)
      && Contents(P, r) == (if o.Inserted? then Contents(P, s)[k := s.store[k]] else Contents(P, s))
      && Loose(P, r) == (if o.Inserted? then Loose(P, s) - {k} else Loose(P, s))
  {
    var e := Tag(P, s.store, k);
    var o := Displace(s.cells, P.order, hole, path, e);
    HousedIsTagged(P, s, l, s.cells);
    DisplaceHoused(s.cells, P.order, hole, path, e, HashOf(P, s.store));
    forall c ensures Count(o.t, c) == Count(s.cells, c) + if o.Inserted? then Is(e, c) else 0 {
      DisplaceCount(s.cells, P.order, hole, path, e, c);
    }
    forall p | In(o.t, p) && At(o.t, p).idx != EMPTY ensures At(o.t, p).idx < |s.store| {
      PlaceHas(o.t, p);
      if Count(s.cells, At(o.t, p)) > 0 { var q := EntryPlace(s.cells, At(o.t, p)); }
    }
    HousedIsTagged(P, s, l, o.t);
    r := RecellKeeps(P, s, l, o.t, k, o.Inserted?);
  }

  // ---------------------------------------------------------------- the empty table

  const BLANK: Bucket := seq(ENTRIES, _ => Cell(0, EMPTY))

  /** 1, 2, ..., n */
  function UpTo(n: nat): (r: seq<nat>)
    ensures |r| == n && forall i :: 0 <= i < n ==> r[i] == i + 1
  {
    if n == 0 then [] else UpTo(n - 1) + [n]
  }

  function Initial(P: Params): State {
    State(seq(Rows(P), _ => BLANK), seq(Rows(P), _ => Rows(P)), seq(P.entries + 1, _ => Slot(P.dummy, 0)),
          UpTo(P.entries), UpTo(P.extra))
  }

  lemma AppendCount(q: seq<nat>, x: nat, k: nat)
    ensures multiset(q + [x])[k] == multiset(q)[k] + if x == k then 1 else 0
  {
  }

  lemma {:induction false} UpToOnce(n: nat, k: nat)
    ensures multiset(UpTo(n))[k] == if 1 <= k <= n then 1 else 0
  {
    if n > 0 {
      UpToOnce(n - 1, k);
      AppendCount(UpTo(n - 1), n, k);
    }
  }

  function Unlinked(P: Params): Links {
    Links(seq(Rows(P), i => if 0 <= i < Main(P) then i else Rows(P)), seq(Rows(P), _ => 0),
          seq(Main(P), i => if i >= 0 then [i] else []))
  }

  lemma InitialChains(P: Params)
    ensures Shape(P, Initial(P), Unlinked(P)) && Chained(P, Initial(P).next, Unlinked(P))
    ensures ExtFree(P, Initial(P).freeExt, Unlinked(P))
  {
    var s, l := Initial(P), Unlinked(P);
    forall b, i | 0 <= b < Main(P) && 0 <= i < |l.chain[b]| ensures Link(P, s.next, l, b, i) { }
  }

  lemma InitialSlots(P: Params, k: nat)
    requires 1 <= k <= P.entries
    ensures Single(P, Initial(P), k) && !Held(P, Initial(P), k) && k in Initial(P).freeSlots
  {
    var s := Initial(P);
    UpToOnce(P.entries, k);
    if Held(P, s, k) { var p := EntryPlace(s.cells, Tag(P, s.store, k)); }
    assert s.freeSlots[k - 1] == k;
  }

  lemma InitialIsGood(P: Params)
    ensures Wf(P, Initial(P), Unlinked(P)) && Contents(P, Initial(P)) == map[] && Loose(P, Initial(P)) == {}
  {
    InitialChains(P);
    forall k | 1 <= k <= P.entries
      ensures Single(P, Initial(P), k) && !Held(P, Initial(P), k) && k in Initial(P).freeSlots
    {
      InitialSlots(P, k);
    }
  }

  // ---------------------------------------------------------------- what the invariant means

  /** Conservation: each key slot is free once, or referred to by exactly one bucket entry, or taken. */
  lemma SlotPartition(P: Params, s: State, k: nat)
    requires Good(P, s) && 1 <= k <= P.entries
    ensures |s.store| == P.entries + 1
    ensures multiset(s.freeSlots)[k] + Count(s.cells, Tag(P, s.store, k)) + (if k in Loose(P, s) then 1 else 0) == 1
  {
    var l :| Wf(P, s, l);
    assert Single(P, s, k);
    assert k in s.freeSlots <==> multiset(s.freeSlots)[k] > 0;
  }

  /** Every key of the table is where a search for it looks: its primary bucket or the secondary's list. */
  lemma Findable(P: Params, s: State, l: Links, k: nat) returns (p: Place)
    requires Wf(P, s, l) && k in Contents(P, s)
    ensures In(s.cells, p) && At(s.cells, p) == Tag(P, s.store, k)
    ensures var key := Contents(P, s)[k].key; p.bkt == PrimOf(P, key) || p.bkt in l.chain[SecOf(P, key)]
  {
    p := EntryPlace(s.cells, Tag(P, s.store, k));
    var key := s.store[k].key;
    assert Lives(P, l, key, p.bkt);
    if p.bkt != PrimOf(P, key) {
      assert l.chain[SecOf(P, key)][l.depth[p.bkt]] == p.bkt;
    }
  }
}