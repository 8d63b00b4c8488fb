/** Why calls on the ring of free slots must not overlap: two writers that both load its head before either
    stores it get the same key slot, and the table breaks. */
module CuckooOverlap {
  import opened CuckooCells
  import opened CuckooState
  import opened CuckooWriters
  import opened CuckooSystem

  ghost function BothTook(P: Params, w: Wid, u: Wid): Sys
    requires P.entries >= 1
  {
    var i := Initial(P);
    Sys(i.(freeSlots := i.freeSlots[1..]), map[w := 1, u := 1], map[], {}, i.freeSlots, 1, map[], map[])
  }

  /** Both load the head, then both store it. */
  lemma Taking(P: Params, w: Wid, u: Wid) returns (ys: seq<Sys>, es: seq<Event>)
    requires P.entries >= 1 && w != u
    ensures SysRun(P, ys, es) && |ys| == 5 && ys[0] == Start(P) && ys[4] == BothTook(P, w, u) && !Apart(ys[2])
  {
    var y0, i := Start(P), Initial(P);
    var y1 := y0.(deq := map[w := 0]);
    var y2 := y0.(deq := map[w := 0][u := 0]);
    var y3 := y0.(s := i.(freeSlots := i.freeSlots[1..]), head := 1, own := map[w := 1], deq := map[u := 0]);
    var y4 := BothTook(P, w, u);
    assert y2.deq - {w} == y3.deq && y3.deq - {u} == y4.deq && y3.own[u := 1] == y4.own;
    assert y2.deq[w] == y2.deq[u] == 0;
    ys, es := [y0, y1, y2, y3, y4], [Look(w), Look(u), Do(w, Take), Do(u, Take)];
  }

  /** A table that is empty but for bucket b, as any search for another bucket's key finds it. */
  lemma BlankUnseen(P: Params, s: State, key: Key, b: nat)
    requires Listed(P, s, Unlinked(P)) && PrimOf(P, key) != b && SecOf(P, key) != b
    requires forall c :: 0 <= c < Main(P) && c != b ==> s.cells[c] == BLANK
    ensures UnseenSome(P, s, key, PrimOf(P, key), SecOf(P, key))
  {
    var l := Unlinked(P);
    assert l.chain[SecOf(P, key)] == [SecOf(P, key)];
    assert Unseen(P, s, l, key, PrimOf(P, key), SecOf(P, key));
  }

  lemma BlankInsert(P: Params, s: State, x: Slot, k: nat, b: nat, r: State)
    requires Listed(P, s, Unlinked(P)) && PrimOf(P, x.key) != b && SecOf(P, x.key) != b && k > 0
    requires forall c :: 0 <= c < Main(P) && c != b ==> s.cells[c] == BLANK
    requires r == s.(cells := Put(s.cells, Place(PrimOf(P, x.key), 0), EntryOf(P, x, k)))
    ensures Acts(P, s, k, Act.Insert(x, 0), r, 0)
  {
    BlankUnseen(P, s, x.key, b);
    assert s.cells[PrimOf(P, x.key)] == BLANK;
  }

  /** A writer with slot k fills it and inserts into its primary bucket. */
  lemma FillInsert(P: Params, y: Sys, w: Wid, x: Slot, b: nat) returns (a: Sys, z: Sys)
    requires w in y.own && w !in y.enq && 0 < y.own[w] < |y.s.store| && w !in y.want
    requires Listed(P, y.s, Unlinked(P)) && PrimOf(P, x.key) != b && SecOf(P, x.key) != b
    requires forall c :: 0 <= c < Main(P) && c != b ==> y.s.cells[c] == BLANK
    ensures Step(P, y, Do(w, Fill(x)), a) && Step(P, a, Do(w, Insert(x, 0)), z)
    ensures var k := y.own[w]; var s := y.s.(store := y.s.store[k := x]);
      z == y.(s := s.(cells := Put(s.cells, Place(PrimOf(P, x.key), 0), EntryOf(P, x, k))), own := y.own - {w})
  {
    var k := y.own[w];
    var s := y.s.(store := y.s.store[k := x]);
    var r := s.(cells := Put(s.cells, Place(PrimOf(P, x.key), 0), EntryOf(P, x, k)));
    a := y.(s := s, want := y.want[w := x]);
    z := y.(s := r, own := y.own - {w});
    assert a.want - {w} == y.want;
    BlankInsert(P, s, x, k, b, r);
    assert Does(P, y, w, Fill(x), a, k);
    assert Does(P, a, w, Act.Insert(x, 0), z, 0);
  }

  /** The writer's two steps appended to a run. */
  lemma RunFillInsert(P: Params, ys: seq<Sys>, es: seq<Event>, w: Wid, x: Slot, b: nat)
    returns (zs: seq<Sys>, fs: seq<Event>)
    requires SysRun(P, ys, es)
    requires var y := ys[|ys| - 1];
      && w in y.own && w !in y.enq && 0 < y.own[w] < |y.s.store| && w !in y.want
      && Listed(P, y.s, Unlinked(P)) && PrimOf(P, x.key) != b && SecOf(P, x.key) != b
      && forall c :: 0 <= c < Main(P) && c != b ==> y.s.cells[c] == BLANK
    ensures SysRun(P, zs, fs) && ys <= zs && |zs| == |ys| + 2
    ensures var y, z := ys[|ys| - 1], zs[|zs| - 1]; var k := y.own[w]; var s := y.s.(store := y.s.store[k := x]);
      z == y.(s := s.(cells := Put(s.cells, Place(PrimOf(P, x.key), 0), EntryOf(P, x, k))), own := y.own - {w})
  {
    var a, z := FillInsert(P, ys[|ys| - 1], w, x, b);
    RunMore(P, ys, es, Do(w, Fill(x)), a);
    RunMore(P, ys + [a], es + [Do(w, Fill(x))], Do(w, Act.Insert(x, 0)), z);
    zs, fs := ys + [a] + [z], es + [Do(w, Fill(x))] + [Do(w, Act.Insert(x, 0))];
  }

  /** From an empty table, for any two keys whose buckets differ: with overlapping calls two bucket entries
      refer to key slot 1, so the table is no longer well formed; that slot holds the second key, and the first,
      whose add succeeded too, is not in the table. */
  lemma OverlapBreaks(P: Params, w: Wid, u: Wid, x: Slot, z: Slot) returns (ys: seq<Sys>, es: seq<Event>)
    requires P.entries >= 1 && w != u && x.key != P.dummy
    requires PrimOf(P, x.key) != PrimOf(P, z.key) && PrimOf(P, x.key) != SecOf(P, z.key)
    ensures SysRun(P, ys, es) && |ys| == 9 && ys[0] == Start(P) && !ApartRun(ys)
    ensures ys[4].own == map[w := 1, u := 1]
    ensures !Good(P, ys[8].s) && !HasKey(P, ys[8].s, x.key) && |ys[8].s.store| > 1 && ys[8].s.store[1] == z
    ensures var t := ys[8].s.cells;
      && In(t, Place(PrimOf(P, x.key), 0)) && In(t, Place(PrimOf(P, z.key), 0))
      && At(t, Place(PrimOf(P, x.key), 0)).idx == At(t, Place(PrimOf(P, z.key), 0)).idx == 1
  {
    InitialChains(P);
    var a, d := Taking(P, w, u);
    var b, e := RunFillInsert(P, a, d, w, x, Rows(P));
    ys, es := RunFillInsert(P, b, e, u, z, PrimOf(P, x.key));
    assert ys[2] == a[2] && ys[4] == a[4];
    NotGood(P, ys[8].s, x, z);
  }

  lemma NotGood(P: Params, s: State, x: Slot, z: Slot)
    requires |s.cells| == Rows(P) && P.entries >= 1 && s.store == Initial(P).store[1 := z]
    requires PrimOf(P, x.key) != PrimOf(P, z.key) && PrimOf(P, x.key) != SecOf(P, z.key) && x.key != P.dummy
    requires s.cells[PrimOf(P, x.key)][0].idx == 1
    ensures !Good(P, s) && !HasKey(P, s, x.key)
  {
    var p := Place(PrimOf(P, x.key), 0);
    forall l ensures !Wf(P, s, l) {
      assert In(s.cells, p) && At(s.cells, p).idx == 1;
    }
  }

  // ---------------------------------------------------------------- in every state

  /** Two calls that have both loaded the head: both writers get the same slot. */
  lemma TakesOverlap(P: Params, y: Sys, w: Wid, u: Wid) returns (z: Sys, x: Sys)
    requires SysOk(P, y) && w != u && w in y.deq && u in y.deq
    ensures Step(P, y, Do(w, Take), z) && Step(P, z, Do(u, Take), x)
    ensures w in x.own && u in x.own && x.own[w] == x.own[u] == y.s.freeSlots[0] && !SysOk(P, x)
  {
    z := y.(s := y.s.(freeSlots := y.log[y.head + 1..]), head := y.head + 1, own := y.own[w := y.log[y.head]],
            deq := y.deq - {w});
    x := z.(s := z.s.(freeSlots := y.log[y.head + 1..]), own := z.own[u := y.log[y.head]], deq := z.deq - {u});
    assert Takes(y, w, z) && Takes(z, u, x);
  }

  /** The slot is in no entry, not free, taken by nobody, and no failed add accounts for it. */
  ghost predicate Vanished(P: Params, x: Sys, k: nat) { k in Loose(P, x.s) && k !in x.own.Values && k !in x.lost }

  /** Two calls that have both loaded the tail: the first writer's slot is overwritten and lost. */
  lemma FreesOverlap(P: Params, y: Sys, w: Wid, u: Wid) returns (z: Sys, x: Sys)
    requires SysOk(P, y) && w != u && w in y.enq && u in y.enq
    ensures Step(P, y, Do(w, Free), z) && Step(P, z, Do(u, Free), x)
    ensures Vanished(P, x, y.own[w]) && x.s.freeSlots == y.s.freeSlots + [y.own[u]] && !SysOk(P, x)
  {
    var k, m := y.own[w], y.own[u];
    z := y.(s := y.s.(freeSlots := y.s.freeSlots + [k]), log := y.log + [k], own := y.own - {w}, want := y.want - {w},
            enq := y.enq - {w});
    x := z.(s := z.s.(freeSlots := y.s.freeSlots + [m]), log := y.log + [m], own := z.own - {u}, want := z.want - {u},
            enq := z.enq - {u});
    FreeStores(y, w, z);
    FreeStoresOver(y, k, m, u, z, x);
    SlotGone(P, y, w, u, x);
  }

  lemma FreeStores(y: Sys, w: Wid, z: Sys)
    requires FreeRing(y) && w in y.enq
    requires z == y.(s := y.s.(freeSlots := y.s.freeSlots + [y.own[w]]), log := y.log + [y.own[w]], own := y.own - {w},
                     want := y.want - {w}, enq := y.enq - {w})
    ensures Frees(y, w, z)
  {
    assert y.log[..|y.log|] == y.log;
    assert (y.log + [y.own[w]])[y.head..] == y.s.freeSlots + [y.own[w]];
  }

  /** The second call stores over what the first has stored. */
  lemma FreeStoresOver(y: Sys, k: nat, m: nat, u: Wid, z: Sys, x: Sys)
    requires y.head <= |y.log| && y.s.freeSlots == y.log[y.head..] && u in z.enq && z.enq[u] == |y.log|
    requires u in z.own && z.own[u] == m && z.log == y.log + [k] && z.head == y.head
    requires x == z.(s := z.s.(freeSlots := y.s.freeSlots + [m]), log := y.log + [m], own := z.own - {u},
                     want := z.want - {u}, enq := z.enq - {u})
    ensures Frees(z, u, x)
  {
    assert z.log[..|y.log|] == y.log;
    assert (y.log + [m])[y.head..] == y.s.freeSlots + [m];
  }

  lemma SlotGone(P: Params, y: Sys, w: Wid, u: Wid, x: Sys)
    requires Accounted(y.own, y.lost, Loose(P, y.s)) && w in y.own && u in y.own && w != u
    requires x.s == y.s.(freeSlots := y.s.freeSlots + [y.own[u]]) && x.lost == y.lost && x.own == y.own - {w} - {u}
    ensures Vanished(P, x, y.own[w])
  {
    var k := y.own[w];
    assert k in Loose(P, y.s) && k != y.own[u];
    assert forall j :: Held(P, x.s, j) <==> Held(P, y.s, j);
  }

  /** Where calls overlap, two steps are enough to break the table's accounts: `Apart` is just what it takes. */
  lemma OverlapIsUnsafe(P: Params, y: Sys) returns (e: Event, f: Event, z: Sys, x: Sys)
    requires SysOk(P, y) && !Apart(y)
    ensures Step(P, y, e, z) && Step(P, z, f, x) && !SysOk(P, x)
  {
    if u, v :| u in y.deq && v in y.deq && u != v {
      e, f := Do(u, Take), Do(v, Take);
      z, x := TakesOverlap(P, y, u, v);
    } else {
      var u, v :| u in y.enq && v in y.enq && u != v;
      e, f := Do(u, Free), Do(v, Free);
      z, x := FreesOverlap(P, y, u, v);
    }
  }
}
