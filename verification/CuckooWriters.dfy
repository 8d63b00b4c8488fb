/** The atomic actions of the hash's writers, and any number of writers that interleave them. */
module CuckooWriters {
  import opened CuckooCells
  import opened CuckooState
  import opened CuckooRely
  import opened CuckooSearch

  /** Start of a make-space search and the bucket whose list is checked beside it. */
  ghost predicate Ends(P: Params, key: Key, from: nat, other: nat) {
    (from == PrimOf(P, key) && other == SecOf(P, key)) || (from == SecOf(P, key) && other == PrimOf(P, key))
  }

  ghost function Keep(k: nat): set<nat> { if k == 0 then {} else {k} }

  ghost predicate FullRows(cells: Buckets, rows: seq<nat>) {
    forall i :: 0 <= i < |rows| ==> rows[i] < |cells| && FullRow(cells, rows[i])
  }

  /** No empty slot in the list that starts at main bucket b. */
  ghost predicate ListFull(P: Params, s: State, b: nat) {
    exists l :: Wf(P, s, l) && b < Main(P) && FullRows(s.cells, l.chain[b])
  }

  // ---------------------------------------------------------------- one action of one writer

  /** What a writer does in one locked region, with one store or with one call on a free ring. x is the
      key and data that the writer adds. */
  datatype Act =
    | Update(x: Slot, ret: int)
    | Take
    | Fill(x: Slot)
    | Insert(x: Slot, i: nat)
    | Move(x: Slot, from: nat, other: nat, hole: Place, path: seq<Place>)
    | Chain(x: Slot, p: Place)
    | Extend(x: Slot)
    | Free
    | Leak
  {
    predicate Places() { Insert? || Move? || Chain? || Extend? }
  }

  function EntryOf(P: Params, x: Slot, k: nat): Cell { Cell(ShortSig(P.hash(x.key)), k) }

  /** l describes the lists of buckets as `next` links them. */
  ghost predicate Listed(P: Params, s: State, l: Links) {
    |s.cells| == |s.next| == Rows(P) && Sized(P, l) && Chained(P, s.next, l)
  }

  /** There is only one way to read the lists. */
  lemma {:induction false} ListsAgree(P: Params, s: State, l: Links, m: Links, b: nat, i: nat)
    requires Listed(P, s, l) && Listed(P, s, m) && b < Main(P) && i < |l.chain[b]|
    ensures i < |m.chain[b]| && l.chain[b][i] == m.chain[b][i]
  {
    if i == 0 {
      assert l.root[b] == b && l.depth[b] == 0 && m.root[b] == b && m.depth[b] == 0;
    } else {
      ListsAgree(P, s, l, m, b, i - 1);
      assert Link(P, s.next, l, b, i - 1) && Link(P, s.next, l, b, i) && Link(P, s.next, m, b, i - 1);
    }
  }

  lemma SameLists(P: Params, s: State, l: Links, m: Links, b: nat)
    requires Listed(P, s, l) && Listed(P, s, m) && b < Main(P)
    ensures l.chain[b] == m.chain[b]
  {
    forall i | 0 <= i < |l.chain[b]| ensures i < |m.chain[b]| && l.chain[b][i] == m.chain[b][i] {
      ListsAgree(P, s, l, m, b, i);
    }
    if m.chain[b] != [] { ListsAgree(P, s, m, l, b, |m.chain[b]| - 1); }
    if l.chain[b] != [] { ListsAgree(P, s, l, m, b, |l.chain[b]| - 1); }
  }

  /** The duplicate check that precedes an insert found nothing. */
  ghost predicate Unseen(P: Params, s: State, l: Links, key: Key, from: nat, other: nat) {
    && Listed(P, s, l) && Ends(P, key, from, other)
    && NotIn(s, from, key) && NotInChain(s, l.chain[other], key)
  }

  lemma UnseenIn(P: Params, s: State, key: Key, from: nat, other: nat) returns (l: Links)
    requires Good(P, s) && UnseenSome(P, s, key, from, other)
    ensures Wf(P, s, l) && Unseen(P, s, l, key, from, other)
  {
    var m :| Unseen(P, s, m, key, from, other);
    l :| Wf(P, s, l);
    SameLists(P, s, l, m, other);
  }

  ghost predicate UnseenSome(P: Params, s: State, key: Key, from: nat, other: nat) {
    exists l :: Unseen(P, s, l, key, from, other)
  }

  /** A free extendable bucket with the entry in its first slot, at the end of the list of bucket c. */
  ghost function Linked(P: Params, s: State, l: Links, c: nat, e: Cell): State
    requires Listed(P, s, l) && c < Main(P) && s.freeExt != [] && l.chain[c][|l.chain[c]| - 1] < |s.next|
    requires 0 < s.freeExt[0] <= P.extra
  {
    var list, x := l.chain[c], Main(P) + s.freeExt[0] - 1;
    s.(freeExt := s.freeExt[1..], next := s.next[list[|list| - 1] := x], cells := Put(s.cells, Place(x, 0), e))
  }

  ghost predicate CanInsert(P: Params, s: State, x: Slot, i: nat) {
    var b := PrimOf(P, x.key);
    && b < |s.cells| && i < ENTRIES && s.cells[b][i].idx == EMPTY && UnseenSome(P, s, x.key, b, SecOf(P, x.key))
    && forall j :: 0 <= j < i ==> s.cells[b][j].idx != EMPTY
  }

  ghost predicate CanMove(P: Params, s: State, x: Slot, from: nat, other: nat, hole: Place, path: seq<Place>) {
    && In(s.cells, hole) && hole.bkt < Main(P) && At(s.cells, hole).idx == EMPTY
    && (forall p :: p in path ==> In(s.cells, p) && p.bkt < Main(P))
    && from == (if path == [] then hole.bkt else path[|path| - 1].bkt)
    && UnseenSome(P, s, x.key, from, other)
  }

  ghost predicate CanChain(P: Params, s: State, x: Slot, p: Place) {
    && P.extra > 0 && In(s.cells, p) && At(s.cells, p).idx == EMPTY
    && exists l :: Unseen(P, s, l, x.key, PrimOf(P, x.key), SecOf(P, x.key)) && p.bkt in l.chain[SecOf(P, x.key)]
  }

  /** The secondary bucket's list l.chain is full and there is a bucket to extend it. */
  ghost predicate CanExtend(P: Params, s: State, l: Links, x: Slot) {
    && s.freeExt != [] && 0 < s.freeExt[0] <= P.extra && Unseen(P, s, l, x.key, PrimOf(P, x.key), SecOf(P, x.key))
    && FullRows(s.cells, l.chain[SecOf(P, x.key)])
    && l.chain[SecOf(P, x.key)] != [] && l.chain[SecOf(P, x.key)][|l.chain[SecOf(P, x.key)]| - 1] < |s.next|
  }

  /** A writer that has taken slot k (0: none) does a: the state becomes r and its slot m. */
  ghost predicate Acts(P: Params, s: State, k: nat, a: Act, r: State, m: nat) {
    match a
    case Update(x, ret) => Updated(P, s, r, x, ret) && m == k
    case Take => k == 0 && s.freeSlots != [] && m == s.freeSlots[0] && r == s.(freeSlots := s.freeSlots[1..])
    case Fill(x) => 0 < k < |s.store| && r == s.(store := s.store[k := x]) && m == k
    case Insert(x, i) => 0 < k && m == 0 && CanInsert(P, s, x, i)
      && r == s.(cells := Put(s.cells, Place(PrimOf(P, x.key), i), EntryOf(P, x, k)))
    case Move(x, from, other, hole, path) => 0 < k && CanMove(P, s, x, from, other, hole, path)
      && var o := Displace(s.cells, P.order, hole, path, EntryOf(P, x, k));
      r == s.(cells := o.t) && m == if o.Inserted? then 0 else k
    case Chain(x, p) => 0 < k && m == 0 && CanChain(P, s, x, p) && r == s.(cells := Put(s.cells, p, EntryOf(P, x, k)))
    case Extend(x) => 0 < k && m == 0
      && exists l :: CanExtend(P, s, l, x) && r == Linked(P, s, l, SecOf(P, x.key), EntryOf(P, x, k))
    case Free => 0 < k && m == 0 && r == s.(freeSlots := s.freeSlots + [k])
    case Leak => 0 < k && m == 0 && r == s && P.extra > 0 && s.freeExt == []
  }

  /** An insert refers to a slot that still holds what the writer put there. */
  ghost predicate Ready(s: State, k: nat, a: Act) { a.Places() ==> k < |s.store| && s.store[k] == a.x }

  ghost predicate Guarantee(P: Params, s: State, k: nat, a: Act, r: State, m: nat) {
    && Good(P, r) && Rely(P, s, r, Loose(P, s) - Keep(k)) && Keep(m) <= Loose(P, r)
    && Loose(P, r) == (if a.Leak? then Loose(P, s) else Loose(P, s) - Keep(k) + Keep(m))
    && (a.Take? ==> m !in Loose(P, s))
  }

  lemma AddedGuarantee(P: Params, s: State, k: nat, a: Act, r: State)
    requires k > 0 && k in Loose(P, s) && Good(P, r) && Added(P, s, r, k) && !a.Leak? && !a.Take?
    requires P.extra == 0 ==> !HasKey(P, s, s.store[k].key)
    ensures Guarantee(P, s, k, a, r, 0)
  {
    AddedRely(P, s, r, k);
  }

  lemma SameGuarantee(P: Params, s: State, k: nat, a: Act, r: State)
    requires k > 0 && k in Loose(P, s) && Good(P, r) && Same(P, s, r) && !a.Leak? && !a.Take?
    ensures Guarantee(P, s, k, a, r, k)
  {
    SameRely(P, s, r);
  }

  lemma PutActs(P: Params, s: State, l: Links, p: Place, k: nat, a: Act, r: State)
    requires Wf(P, s, l) && k > 0 && k in Loose(P, s) && In(s.cells, p) && At(s.cells, p).idx == EMPTY
    requires Lives(P, l, s.store[k].key, p.bkt) && r == s.(cells := Put(s.cells, p, Tag(P, s.store, k)))
    requires (P.extra == 0 ==> !HasKey(P, s, s.store[k].key)) && !a.Leak? && !a.Take?
    ensures Guarantee(P, s, k, a, r, 0) && Added(P, s, r, k)
  {
    var u := PutKeeps(P, s, l, p, k);
    AddedGuarantee(P, s, k, a, r);
  }

  lemma InsertKeeps(P: Params, s: State, k: nat, a: Act, r: State)
    requires Good(P, s) && k > 0 && k in Loose(P, s) && a.Insert? && s.store[k] == a.x && CanInsert(P, s, a.x, a.i)
    requires r == s.(cells := Put(s.cells, Place(PrimOf(P, a.x.key), a.i), EntryOf(P, a.x, k)))
    ensures Guarantee(P, s, k, a, r, 0) && Added(P, s, r, k)
  {
    var l := UnseenIn(P, s, a.x.key, PrimOf(P, a.x.key), SecOf(P, a.x.key));
    Absent(P, s, l, a.x.key);
    PutActs(P, s, l, Place(PrimOf(P, a.x.key), a.i), k, a, r);
  }

  lemma RowOfList(P: Params, s: State, l: Links, key: Key, b: nat)
    requires Wf(P, s, l) && b in l.chain[SecOf(P, key)]
    ensures b < |l.root| && Lives(P, l, key, b)
  {
    var c := SecOf(P, key);
    var i :| 0 <= i < |l.chain[c]| && l.chain[c][i] == b;
    assert Link(P, s.next, l, c, i);
  }

  lemma ChainKeeps(P: Params, s: State, k: nat, a: Act, r: State)
    requires Good(P, s) && k > 0 && k in Loose(P, s) && a.Chain? && s.store[k] == a.x && CanChain(P, s, a.x, a.p)
    requires r == s.(cells := Put(s.cells, a.p, EntryOf(P, a.x, k)))
    ensures Guarantee(P, s, k, a, r, 0) && Added(P, s, r, k)
  {
    var c := SecOf(P, a.x.key);
    var m :| Unseen(P, s, m, a.x.key, PrimOf(P, a.x.key), c) && a.p.bkt in m.chain[c];
    var l :| Wf(P, s, l);
    SameLists(P, s, l, m, c);
    RowOfList(P, s, l, a.x.key, a.p.bkt);
    PutActs(P, s, l, a.p, k, a, r);
  }

  /** A free extendable bucket is empty, and every list has an end. */
  lemma FreeBucket(P: Params, s: State, l: Links, c: nat)
    requires Wf(P, s, l) && c < Main(P) && s.freeExt != []
    ensures 0 < s.freeExt[0] <= P.extra && At(s.cells, Place(Main(P) + s.freeExt[0] - 1, 0)).idx == EMPTY
    ensures l.chain[c] != [] && l.chain[c][|l.chain[c]| - 1] < |s.next|
  {
    assert Link(P, s.next, l, c, |l.chain[c]| - 1);
  }

  /** Linking a free extendable bucket, which can take an entry for the bucket it was linked to. */
  lemma LinkEmpty(P: Params, s: State, l: Links, c: nat, k: nat) returns (r: State, m: Links)
    requires Wf(P, s, l) && c < Main(P) && s.freeExt != [] && k in Loose(P, s) && SecOf(P, s.store[k].key) == c
    ensures 0 < s.freeExt[0] <= P.extra && l.chain[c] != [] && l.chain[c][|l.chain[c]| - 1] < |s.next|
    ensures var x := Main(P) + s.freeExt[0] - 1;
      && r == s.(freeExt := s.freeExt[1..], next := s.next[l.chain[c][|l.chain[c]| - 1] := x])
      && m.chain == l.chain[c := l.chain[c] + [x]]
      && In(r.cells, Place(x, 0)) && At(r.cells, Place(x, 0)).idx == EMPTY
      && x < |m.root| && Lives(P, m, r.store[k].key, x)
    ensures Wf(P, r, m) && Contents(P, r) == Contents(P, s) && Loose(P, r) == Loose(P, s)
  {
    FreeBucket(P, s, l, c);
    r, m := LinkKeeps(P, s, l, c);
  }

  /** Linking a free extendable bucket whose first slot has the new entry. */
  lemma LinkPut(P: Params, s: State, l: Links, c: nat, k: nat) returns (u: State, m: Links)
    requires Wf(P, s, l) && c < Main(P) && s.freeExt != [] && k in Loose(P, s) && SecOf(P, s.store[k].key) == c
    ensures 0 < s.freeExt[0] <= P.extra
    ensures l.chain[c] != [] && l.chain[c][|l.chain[c]| - 1] < |s.next| && u == Linked(P, s, l, c, Tag(P, s.store, k))
    ensures Wf(P, u, m) && m.chain == l.chain[c := l.chain[c] + [Main(P) + s.freeExt[0] - 1]] && Added(P, s, u, k)
  {
    var x := Main(P) + s.freeExt[0] - 1;
    var r;
    r, m := LinkEmpty(P, s, l, c, k);
    u := PutKeeps(P, r, m, Place(x, 0), k);
  }

  lemma ExtendTable(P: Params, s: State, k: nat, x: Slot, l: Links, r: State)
    requires Good(P, s) && k in Loose(P, s) && s.store[k] == x && CanExtend(P, s, l, x)
    requires r == Linked(P, s, l, SecOf(P, x.key), EntryOf(P, x, k))
    ensures Good(P, r) && Added(P, s, r, k)
  {
    var h :| Wf(P, s, h);
    SameLists(P, s, l, h, SecOf(P, x.key));
    var u, m := LinkPut(P, s, h, SecOf(P, x.key), k);
  }

  lemma ExtendKeeps(P: Params, s: State, k: nat, a: Act, l: Links, r: State)
    requires Good(P, s) && k > 0 && k in Loose(P, s) && a.Extend? && s.store[k] == a.x && CanExtend(P, s, l, a.x)
    requires r == Linked(P, s, l, SecOf(P, a.x.key), EntryOf(P, a.x, k))
    ensures Guarantee(P, s, k, a, r, 0) && Added(P, s, r, k)
  {
    ExtendTable(P, s, k, a.x, l, r);
    AddedGuarantee(P, s, k, a, r);
  }

  lemma MoveAbsent(P: Params, s: State, key: Key, from: nat, other: nat)
    requires Good(P, s) && UnseenSome(P, s, key, from, other) && P.extra == 0
    ensures !HasKey(P, s, key)
  {
    var l := UnseenIn(P, s, key, from, other);
    SearchGap(P, s, l, key, from, other);
    NoTail(P, s, l, from);
  }

  lemma MoveTable(P: Params, s: State, k: nat, a: Act, r: State)
    requires Good(P, s) && k in Loose(P, s) && a.Move? && s.store[k] == a.x
    requires CanMove(P, s, a.x, a.from, a.other, a.hole, a.path)
    requires r == s.(cells := Displace(s.cells, P.order, a.hole, a.path, EntryOf(P, a.x, k)).t)
    ensures Good(P, r)
    ensures if Displace(s.cells, P.order, a.hole, a.path, EntryOf(P, a.x, k)).Inserted?
      then Added(P, s, r, k) else Same(P, s, r)
  {
    var l := UnseenIn(P, s, a.x.key, a.from, a.other);
    var u := DisplaceKeeps(P, s, l, a.hole, a.path, k);
  }

  lemma MoveKeeps(P: Params, s: State, k: nat, a: Act, r: State)
    requires Good(P, s) && k > 0 && k in Loose(P, s) && a.Move? && s.store[k] == a.x
    requires CanMove(P, s, a.x, a.from, a.other, a.hole, a.path)
    requires r == s.(cells := Displace(s.cells, P.order, a.hole, a.path, EntryOf(P, a.x, k)).t)
    ensures if Displace(s.cells, P.order, a.hole, a.path, EntryOf(P, a.x, k)).Inserted?
      then Guarantee(P, s, k, a, r, 0) && Added(P, s, r, k) else Guarantee(P, s, k, a, r, k) && Same(P, s, r)
  {
    MoveTable(P, s, k, a, r);
    if !Displace(s.cells, P.order, a.hole, a.path, EntryOf(P, a.x, k)).Inserted? {
      SameGuarantee(P, s, k, a, r);
    } else {
      if P.extra == 0 { MoveAbsent(P, s, a.x.key, a.from, a.other); }
      AddedGuarantee(P, s, k, a, r);
    }
  }

  lemma TakeKeeps(P: Params, s: State, r: State)
    requires Good(P, s) && s.freeSlots != [] && r == s.(freeSlots := s.freeSlots[1..])
    ensures Guarantee(P, s, 0, Take, r, s.freeSlots[0]) && s.freeSlots[0] > 0
  {
    var l :| Wf(P, s, l);
    assert s.freeSlots[0] in s.freeSlots;
    var u := AllocKeeps(P, s, l);
    AllocRely(P, s, l, r);
  }

  lemma ReturnKeeps(P: Params, s: State, k: nat, r: State)
    requires Good(P, s) && k > 0 && k in Loose(P, s) && r == s.(freeSlots := s.freeSlots + [k])
    ensures Guarantee(P, s, k, Free, r, 0)
  {
    var l :| Wf(P, s, l);
    var u := FreeKeeps(P, s, l, k);
    FreeRely(P, s, l, k, r);
  }

  lemma FillKeeps(P: Params, s: State, k: nat, x: Slot, r: State)
    requires Good(P, s) && k > 0 && k in Loose(P, s) && r == s.(store := s.store[k := x])
    ensures Guarantee(P, s, k, Fill(x), r, k)
  {
    var l :| Wf(P, s, l);
    var u := StoreKeeps(P, s, l, k, x);
    FillRely(P, s, l, k, x, r);
  }

  lemma UpdateKeeps(P: Params, s: State, k: nat, x: Slot, ret: int, r: State)
    requires Good(P, s) && Keep(k) <= Loose(P, s) && Updated(P, s, r, x, ret)
    ensures Guarantee(P, s, k, Update(x, ret), r, k)
    ensures r.freeSlots == s.freeSlots && |r.store| == |s.store| && (0 < k < |s.store| ==> r.store[k] == s.store[k])
  {
    var l :| Wf(P, s, l);
    UpdatedRely(P, s, l, r, x, ret);
  }

  lemma LeakKeeps(P: Params, s: State, k: nat)
    requires Good(P, s)
    ensures Guarantee(P, s, k, Leak, s, 0)
  {
    RelySelf(P, s, Loose(P, s) - Keep(k));
  }

  /** Every action keeps the table well formed and leaves alone what the other writers rely on. */
  lemma ActKeeps(P: Params, s: State, k: nat, a: Act, r: State, m: nat)
    requires Good(P, s) && Keep(k) <= Loose(P, s) && Acts(P, s, k, a, r, m) && Ready(s, k, a)
    ensures Guarantee(P, s, k, a, r, m)
  {
    if a.Insert? {
      InsertKeeps(P, s, k, a, r);
    } else if a.Move? {
      MoveKeeps(P, s, k, a, r);
    } else if a.Chain? {
      ChainKeeps(P, s, k, a, r);
    } else if a.Extend? {
      var l :| CanExtend(P, s, l, a.x) && r == Linked(P, s, l, SecOf(P, a.x.key), EntryOf(P, a.x, k));
      ExtendKeeps(P, s, k, a, l, r);
    } else if a.Update? {
      UpdateKeeps(P, s, k, a.x, a.ret, r);
    } else if a.Take? {
      TakeKeeps(P, s, r);
    } else if a.Fill? {
      FillKeeps(P, s, k, a.x, r);
    } else if a.Free? {
      ReturnKeeps(P, s, k, r);
    } else {
      LeakKeeps(P, s, k);
    }
  }

  // ---------------------------------------------------------------- one writer among others

  /** What happens around a writer: what the others make of the table between two of its steps while it
      has slot k, and what an unlocked read finds, which may be half of a locked region's work. */
  datatype World = World(others: (nat, State, nat) -> State, seen: (nat, State) -> Buckets)

  /** The others keep what this writer relies on, and leave a free key slot to take. */
  ghost predicate Cooperative(P: Params, world: World) {
    && (forall t: nat, s, k: nat :: Good(P, s) && Keep(k) <= Loose(P, s) ==>
          && Rely(P, s, world.others(t, s, k), Keep(k))
          && (s.freeSlots != [] ==> world.others(t, s, k).freeSlots != []))
    && (forall t: nat, s :: Good(P, s) ==> |world.seen(t, s)| == |s.cells|)
  }

  /** A single writer. */
  ghost predicate Quiet(world: World) {
    (forall t: nat, s, k: nat :: world.others(t, s, k) == s) && (forall t: nat, s :: world.seen(t, s) == s.cells)
  }

  /** The table and the slot that this writer has taken (0: none). */
  datatype Snap = Snap(s: State, k: nat)

  /** One action of this writer, or whatever the others may do meanwhile. */
  ghost predicate Hop(P: Params, x: Snap, y: Snap) {
    (y.k == x.k && Rely(P, x.s, y.s, Keep(x.k))) || Acted(P, x.s, x.k, y.s, y.k)
  }

  ghost predicate Acted(P: Params, s: State, k: nat, r: State, m: nat) {
    exists a :: Acts(P, s, k, a, r, m) && Ready(s, k, a)
  }

  ghost predicate Hops(P: Params, tr: seq<Snap>) { forall i :: 0 <= i < |tr| - 1 ==> Hop(P, tr[i], tr[i + 1]) }

  /** Everything between x and y is the writer's own actions and steps of the others. */
  ghost predicate Thread(P: Params, x: Snap, y: Snap) {
    exists tr: seq<Snap> :: |tr| > 0 && tr[0] == x && tr[|tr| - 1] == y && Hops(P, tr)
  }

  lemma ThreadHop(P: Params, x: Snap, y: Snap)
    requires Hop(P, x, y)
    ensures Thread(P, x, y)
  {
    assert Hops(P, [x, y]);
  }

  lemma ThreadTrans(P: Params, x: Snap, y: Snap, z: Snap)
    requires Thread(P, x, y) && Thread(P, y, z)
    ensures Thread(P, x, z)
  {
    var tr: seq<Snap> :| |tr| > 0 && tr[0] == x && tr[|tr| - 1] == y && Hops(P, tr);
    var ur: seq<Snap> :| |ur| > 0 && ur[0] == y && ur[|ur| - 1] == z && Hops(P, ur);
    var vr := tr + ur[1..];
    forall i | 0 <= i < |vr| - 1 ensures Hop(P, vr[i], vr[i + 1]) {
      if i < |tr| - 1 {
        assert Hop(P, tr[i], tr[i + 1]);
      } else {
        assert Hop(P, ur[i - |tr| + 1], ur[i - |tr| + 2]);
      }
    }
    assert vr[|vr| - 1] == z;
  }

  /** Steps of the others, then an action. */
  lemma ThreadAct(P: Params, s0: State, s: State, k: nat, r: State, m: nat)
    requires Rely(P, s0, s, Keep(k)) && Acted(P, s, k, r, m)
    ensures Thread(P, Snap(s0, k), Snap(r, m))
  {
    assert Hops(P, [Snap(s0, k), Snap(s, k), Snap(r, m)]);
  }

  lemma ThreadWait(P: Params, s0: State, s: State, k: nat)
    requires Rely(P, s0, s, Keep(k))
    ensures Thread(P, Snap(s0, k), Snap(s, k))
  {
    ThreadHop(P, Snap(s0, k), Snap(s, k));
  }

  /** So no entry is lost on the way, and keys stay distinct without extendable buckets. */
  lemma ThreadRely(P: Params, x: Snap, y: Snap)
    requires Good(P, x.s) && Keep(x.k) <= Loose(P, x.s) && Thread(P, x, y)
    ensures Rely(P, x.s, y.s, {}) && Keep(y.k) <= Loose(P, y.s)
  {
    var tr: seq<Snap> :| |tr| > 0 && tr[0] == x && tr[|tr| - 1] == y && Hops(P, tr);
    HopsRely(P, tr, |tr| - 1);
  }

  lemma {:induction false} HopsRely(P: Params, tr: seq<Snap>, i: nat)
    requires Hops(P, tr) && i < |tr| && Good(P, tr[0].s) && Keep(tr[0].k) <= Loose(P, tr[0].s)
    ensures Rely(P, tr[0].s, tr[i].s, {}) && Keep(tr[i].k) <= Loose(P, tr[i].s)
  {
    if i == 0 {
      RelySelf(P, tr[0].s, {});
    } else {
      HopsRely(P, tr, i - 1);
      assert Hop(P, tr[i - 1], tr[i]);
      HopRely(P, tr[i - 1], tr[i]);
      RelyTrans(P, tr[0].s, tr[i - 1].s, tr[i].s, {});
    }
  }

  lemma HopRely(P: Params, x: Snap, y: Snap)
    requires Good(P, x.s) && Keep(x.k) <= Loose(P, x.s) && Hop(P, x, y)
    ensures Rely(P, x.s, y.s, {}) && Keep(y.k) <= Loose(P, y.s)
  {
    if Acted(P, x.s, x.k, y.s, y.k) {
      var a :| Acts(P, x.s, x.k, a, y.s, y.k) && Ready(x.s, x.k, a);
      ActKeeps(P, x.s, x.k, a, y.s, y.k);
      RelyNone(P, x.s, y.s, Loose(P, x.s) - Keep(x.k));
    } else {
      RelyNone(P, x.s, y.s, Keep(x.k));
    }
  }

  // ---------------------------------------------------------------- which action a locked region is

  lemma InsertActs(P: Params, s: State, l: Links, k: nat, i: nat, r: State)
    requires 0 < k < |s.store| && i < ENTRIES
    requires var key := s.store[k].key; Unseen(P, s, l, key, PrimOf(P, key), SecOf(P, key))
    requires s.cells[PrimOf(P, s.store[k].key)][i].idx == EMPTY
    requires forall j :: 0 <= j < i ==> s.cells[PrimOf(P, s.store[k].key)][j].idx != EMPTY
    requires r == s.(cells := Put(s.cells, Place(PrimOf(P, s.store[k].key), i), Tag(P, s.store, k)))
    ensures Acted(P, s, k, r, 0)
  {
    var a := Insert(s.store[k], i);
    assert CanInsert(P, s, a.x, i);
    assert Acts(P, s, k, a, r, 0) && Ready(s, k, a);
  }

  lemma ChainActs(P: Params, s: State, l: Links, k: nat, p: Place, r: State)
    requires 0 < k < |s.store| && P.extra > 0 && In(s.cells, p) && At(s.cells, p).idx == EMPTY
    requires var key := s.store[k].key; Unseen(P, s, l, key, PrimOf(P, key), SecOf(P, key))
    requires p.bkt in l.chain[SecOf(P, s.store[k].key)]
    requires r == s.(cells := Put(s.cells, p, Tag(P, s.store, k)))
    ensures Acted(P, s, k, r, 0)
  {
    var a := Chain(s.store[k], p);
    assert CanChain(P, s, a.x, p);
    assert Acts(P, s, k, a, r, 0) && Ready(s, k, a);
  }

  lemma UpdateActs(P: Params, s: State, k: nat, x: Slot, ret: int, r: State)
    requires Updated(P, s, r, x, ret)
    ensures Acted(P, s, k, r, k)
  {
    assert Acts(P, s, k, Update(x, ret), r, k) && Ready(s, k, Update(x, ret));
  }

  lemma TakeActs(P: Params, s: State, r: State)
    requires s.freeSlots != [] && r == s.(freeSlots := s.freeSlots[1..])
    ensures Acted(P, s, 0, r, s.freeSlots[0])
  {
    assert Acts(P, s, 0, Take, r, s.freeSlots[0]) && Ready(s, 0, Take);
  }

  lemma FillActs(P: Params, s: State, k: nat, x: Slot, r: State)
    requires 0 < k < |s.store| && r == s.(store := s.store[k := x])
    ensures Acted(P, s, k, r, k)
  {
    assert Acts(P, s, k, Fill(x), r, k) && Ready(s, k, Fill(x));
  }

  lemma FreeActs(P: Params, s: State, k: nat, r: State)
    requires k > 0 && r == s.(freeSlots := s.freeSlots + [k])
    ensures Acted(P, s, k, r, 0)
  {
    assert Acts(P, s, k, Free, r, 0) && Ready(s, k, Free);
  }

  lemma LeakActs(P: Params, s: State, k: nat)
    requires k > 0 && P.extra > 0 && s.freeExt == []
    ensures Acted(P, s, k, s, 0)
  {
    assert Acts(P, s, k, Leak, s, 0) && Ready(s, k, Leak);
  }

  /** Linking a free bucket with the entry. */
  lemma LinkActs(P: Params, s: State, l: Links, c: nat, k: nat) returns (u: State)
    requires Wf(P, s, l) && c < Main(P) && s.freeExt != [] && k in Loose(P, s) && SecOf(P, s.store[k].key) == c
    requires Unseen(P, s, l, s.store[k].key, PrimOf(P, s.store[k].key), c) && FullRows(s.cells, l.chain[c])
    ensures 0 < s.freeExt[0] <= P.extra
    ensures l.chain[c] != [] && l.chain[c][|l.chain[c]| - 1] < |s.next| && u == Linked(P, s, l, c, Tag(P, s.store, k))
    ensures Good(P, u) && Added(P, s, u, k) && Acted(P, s, k, u, 0)
  {
    var m;
    u, m := LinkPut(P, s, l, c, k);
    var a := Extend(s.store[k]);
    assert CanExtend(P, s, l, a.x);
    assert Acts(P, s, k, a, u, 0) && Ready(s, k, a);
  }
}
