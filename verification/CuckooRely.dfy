/** What one writer of the cuckoo hash may do to the table while others are at work, and why that keeps
    keys distinct. */
module CuckooRely {
  import opened CuckooCells
  import opened CuckooState

  // ---------------------------------------------------------------- results of the locked regions

  /** The key was found at index ret (key slot ret + 1) and its data replaced. */
  ghost predicate Updated(P: Params, s: State, r: State, x: Slot, ret: int) {
    && 0 <= ret < |s.store| - 1
    && Held(P, s, ret + 1) && s.store[ret + 1].key == x.key
    && r == s.(store := s.store[ret + 1 := x])
  }

  /** Exactly the entry for slot k came in, whatever moved. */
  ghost predicate Added(P: Params, s: State, r: State, k: nat) {
    && r.store == s.store && r.freeSlots == s.freeSlots && k < |s.store|
    && Contents(P, r) == Contents(P, s)[k := s.store[k]]
    && Loose(P, r) == Loose(P, s) - {k}
  }

  /** The same entries, whatever moved. */
  ghost predicate Same(P: Params, s: State, r: State) {
    && r.store == s.store && r.freeSlots == s.freeSlots
    && Contents(P, r) == Contents(P, s)
    && Loose(P, r) == Loose(P, s)
  }

  // ---------------------------------------------------------------- rely and guarantee

  /** From s to r no entry was lost, none changed its index or key, the slots in `keep` still belong to
      the writers that took them, and, in a table without extendable buckets, keys stayed distinct. */
  ghost predicate Rely(P: Params, s: State, r: State, keep: set<nat>) {
    && Good(P, r)
    && (forall k :: k in Contents(P, s) ==> k in Contents(P, r) && Contents(P, r)[k].key == Contents(P, s)[k].key)
    && (forall k :: k in keep ==> k in Loose(P, r) && k < |s.store| && r.store[k] == s.store[k])
    && (P.extra == 0 && Distinct(P, s) ==> Distinct(P, r))
  }

  lemma RelySelf(P: Params, s: State, keep: set<nat>)
    requires Good(P, s) && keep <= Loose(P, s)
    ensures Rely(P, s, s, keep)
  {
  }

  lemma RelyTrans(P: Params, s: State, r: State, u: State, keep: set<nat>)
    requires Rely(P, s, r, keep) && Rely(P, r, u, keep)
    ensures Rely(P, s, u, keep)
  {
  }

  lemma RelyNone(P: Params, s: State, r: State, keep: set<nat>)
    requires Rely(P, s, r, keep)
    ensures Rely(P, s, r, {})
  {
  }

  /** Each action of a writer leaves alone what the other writers rely on. */
  lemma UpdatedRely(P: Params, s: State, l: Links, r: State, x: Slot, ret: int)
    requires Wf(P, s, l) && Updated(P, s, r, x, ret)
    ensures Wf(P, r, l)
    ensures Contents(P, r) == Contents(P, s)[ret + 1 := x] && Loose(P, r) == Loose(P, s)
    ensures Rely(P, s, r, Loose(P, s))
    ensures Distinct(P, s) ==> Distinct(P, r)
  {
    var u := StoreKeeps(P, s, l, ret + 1, x);
  }

  lemma SameRely(P: Params, s: State, r: State)
    requires Good(P, r) && Same(P, s, r)
    ensures Rely(P, s, r, Loose(P, s))
    ensures Distinct(P, s) ==> Distinct(P, r)
  {
  }

  /** A new entry keeps keys distinct exactly when its key was not there. */
  lemma AddedDistinct(P: Params, s: State, r: State, k: nat)
    requires Added(P, s, r, k) && k in Loose(P, s)
    ensures Distinct(P, r) <==> Distinct(P, s) && !HasKey(P, s, s.store[k].key)
  {
    var c, d := Contents(P, s), Contents(P, r);
    assert k !in c && k in d && forall j :: j in c ==> j in d && d[j] == c[j];
    if Distinct(P, r) {
      forall i, j | i in c && j in c && c[i].key == c[j].key ensures i == j {
        assert d[i].key == d[j].key;
      }
      forall j | j in c ensures c[j].key != d[k].key {
        assert d[j].key == c[j].key;
      }
    }
  }

  lemma AddedRely(P: Params, s: State, r: State, k: nat)
    requires Added(P, s, r, k) && k in Loose(P, s) && Good(P, r)
    requires P.extra == 0 ==> !HasKey(P, s, s.store[k].key)
    ensures Rely(P, s, r, Loose(P, s) - {k})
  {
    AddedDistinct(P, s, r, k);
  }

  lemma AllocRely(P: Params, s: State, l: Links, r: State)
    requires Wf(P, s, l) && s.freeSlots != [] && r == s.(freeSlots := s.freeSlots[1..])
    ensures Rely(P, s, r, Loose(P, s))
    ensures Distinct(P, s) ==> Distinct(P, r)
  {
    var u := AllocKeeps(P, s, l);
  }

  lemma FreeRely(P: Params, s: State, l: Links, k: nat, r: State)
    requires Wf(P, s, l) && k in Loose(P, s) && r == s.(freeSlots := s.freeSlots + [k])
    ensures Rely(P, s, r, Loose(P, s) - {k})
    ensures Distinct(P, s) ==> Distinct(P, r)
  {
    var u := FreeKeeps(P, s, l, k);
  }

  lemma FillRely(P: Params, s: State, l: Links, k: nat, x: Slot, r: State)
    requires Wf(P, s, l) && k in Loose(P, s) && r == s.(store := s.store[k := x])
    ensures Rely(P, s, r, Loose(P, s) - {k})
    ensures Distinct(P, s) ==> Distinct(P, r)
  {
    var u := StoreKeeps(P, s, l, k, x);
  }

  // ---------------------------------------------------------------- what the duplicate check covers

  /** Before an insert that starts at `from`, the source looks for the key in row `from` and in the list
      of the other bucket. That misses the extendable buckets linked to `from`: the key is already in
      the table exactly when it is there. */
  lemma SearchGap(P: Params, s: State, l: Links, key: Key, from: nat, other: nat)
    requires Wf(P, s, l)
    requires (from == PrimOf(P, key) && other == SecOf(P, key)) || (from == SecOf(P, key) && other == PrimOf(P, key))
    requires NotIn(s, from, key) && NotInChain(s, l.chain[other], key)
    ensures HasKey(P, s, key) <==> !NotInChain(s, l.chain[from][1..], key)
  {
    var tail := l.chain[from][1..];
    assert forall i :: 0 <= i < |tail| ==> tail[i] == l.chain[from][i + 1];
    assert Link(P, s.next, l, other, 0);
    if NotInChain(s, tail, key) {
      forall i | 0 <= i < |l.chain[from]| ensures l.chain[from][i] < |s.cells| && NotIn(s, l.chain[from][i], key) {
        assert Link(P, s.next, l, from, i);
        if i > 0 { assert l.chain[from][i] == tail[i - 1]; } else { FirstIsMain(P, s, l, from); }
      }
      FirstIsMain(P, s, l, other);
      assert NotIn(s, other, key) by { assert l.chain[other][0] == other; }
      Absent(P, s, l, key);
    } else {
      var i :| 0 <= i < |tail| && !(tail[i] < |s.cells| && NotIn(s, tail[i], key));
      assert Link(P, s.next, l, from, i + 1);
      var j :| 0 <= j < ENTRIES && s.cells[tail[i]][j].idx != EMPTY && s.cells[tail[i]][j].idx < |s.store|
        && s.store[s.cells[tail[i]][j].idx].key == key;
      PlaceHeld(P, s, l, Place(tail[i], j));
      assert s.cells[tail[i]][j].idx in Contents(P, s);
    }
  }

  lemma FirstIsMain(P: Params, s: State, l: Links, b: nat)
    requires Wf(P, s, l) && b < Main(P)
    ensures l.chain[b] != [] && l.chain[b][0] == b
  {
    assert l.root[b] == b && l.depth[b] == 0;
  }

  /** Without extendable buckets nothing is missed. */
  lemma NoTail(P: Params, s: State, l: Links, b: nat)
    requires Wf(P, s, l) && b < Main(P) && P.extra == 0
    ensures l.chain[b] == [b]
  {
    FirstIsMain(P, s, l, b);
    assert |l.chain[b]| > 1 ==> Link(P, s.next, l, b, 1);
  }
}
