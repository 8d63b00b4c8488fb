/** With the extendable table and several writers a key can get into the table twice: a run of the program, from an
    empty table of 64 entries and without overlapping calls on the free ring. */
module CuckooDuplicate {
  import opened CuckooCells
  import opened CuckooState
  import opened CuckooRely
  import opened CuckooSearch
  import opened CuckooWriters
  import opened CuckooSystem
  import opened CuckooProgram
  import CuckooTable
  import Bits
  import Words

  function Itself(k: Key): nat { k }

  /** A hash created for 64 entries with the extendable table: eight buckets and eight extendable ones. */
  ghost predicate Small(P: Params) {
    P.order == 3 && P.entries == 64 && P.extra == 8 && P.hash == Itself && P.dummy == 0
  }

  // ---------------------------------------------------------------- the keys

  /** Low three bits of the signature of the i-th key of row b. Row 0's keys have one bucket only; those of rows 1, 2
      and 3 could move to the next row, those of row 4 to row 7 but the first to row 6, those of row 5 to row 4. */
  function Twist(b: nat, i: nat): (t: nat)
    ensures t < 8
  {
    if b == 1 then 3 else if b == 2 then 1 else if b == 3 then 7 else if b == 4 then (if i == 0 then 2 else 3)
    else if b == 5 then 1 else 0
  }

  /** Key slots 1 to 55 fill rows 0 to 6 but for one place. Two writers then have x in slots 56 and 57, with buckets
      0 and 1; the keys in slots 58 and 59 have bucket 5 only. */
  function HomeRow(k: nat): (b: nat)
    ensures b < 8
  {
    if 1 <= k <= 55 then (k - 1) / 8 else if k <= 57 then 0 else 5
  }

  function Sig(k: nat): nat {
    if 1 <= k <= 55 then Twist((k - 1) / 8, (k - 1) % 8) + 8 * ((k - 1) % 8 + 1)
    else if k <= 57 then 9 else if k == 58 then 8 else 16
  }

  function Item(k: nat): Slot { Slot(HomeRow(k) + 65536 * Sig(k), 0) }

  /** The bucket that an entry for slot k could move to from bucket b. */
  ghost function Away(b: nat, k: nat): nat { Bits.Xor(b, Sig(k) % 8) }

  lemma AltOf(P: Params, b: nat, g: nat)
    requires P.order == 3 && b < 8
    ensures Alt(b, g, P.order) == Bits.Xor(b, g % 8)
  {
    assert Words.Pow2(3) == 8;
    Bits.MaskIsMod(Bits.Xor(b, g), 3);
    Bits.XorLow(b, g, 3);
  }

  lemma HomesOf(P: Params, k: nat)
    requires Small(P) && 1 <= k <= 59
    ensures PrimOf(P, Item(k).key) == HomeRow(k) && SecOf(P, Item(k).key) == Away(HomeRow(k), k)
    ensures EntryOf(P, Item(k), k) == Cell(Sig(k), k) && Item(k).key != P.dummy
  {
    var b, g := HomeRow(k), Sig(k);
    assert Words.Pow2(3) == 8;
    Bits.MaskIsMod(Item(k).key, 3);
    Words.ModUnique(Item(k).key, 8192 * g, b, 8);
    Words.ModUnique(Item(k).key, g, b, 65536);
    AltOf(P, b, g);
  }

  /** Different slots have different keys, but for x. */
  lemma ItemsDiffer(j: nat, k: nat)
    requires 1 <= j < k <= 59 && !(j == 56 && k == 57)
    ensures Item(j).key != Item(k).key
  {
    if Item(j).key == Item(k).key {
      Words.ModUnique(Item(j).key, Sig(j), HomeRow(j), 65536);
      Words.ModUnique(Item(k).key, Sig(k), HomeRow(k), 65536);
    }
  }

  // ---------------------------------------------------------------- what the buckets hold

  /** The key slot that place i of row b refers to, 0 if it is empty: after `st` keys were put in row by row, up to 55;
      at 56 after the walk that put in the key of slot 58; at 57 after the walk that was refused. */
  function SlotAt(st: nat, b: nat, i: nat): nat {
    if st >= 56 && b == 4 && i == 0 then 41
    else if st >= 56 && b == 5 && i == 0 then 58
    else if st >= 56 && b == 6 && i == 7 then 33
    else if st >= 57 && b == 7 && i == 0 then 34
    else if st >= 57 && b == 4 && i == 1 then 0
    else if 8 * b + i < st && 8 * b + i < 55 then 8 * b + i + 1 else 0
  }

  ghost predicate ShowsAt(P: Params, c: Cell, k: nat) { if k == 0 then c.idx == EMPTY else c == Cell(Sig(k), k) }

  ghost predicate Shows(P: Params, s: State, st: nat) {
    |s.cells| >= 8 && forall b, i :: 0 <= b < 8 && 0 <= i < ENTRIES ==> ShowsAt(P, s.cells[b][i], SlotAt(st, b, i))
  }

  ghost predicate Stored(s: State, n: nat) { n < |s.store| && forall k :: 1 <= k <= n ==> s.store[k] == Item(k) }

  lemma RowUnseen(P: Params, s: State, st: nat, n: nat, b: nat, key: Key)
    requires Shows(P, s, st) && Stored(s, n) && b < 8
    requires forall i :: 0 <= i < ENTRIES ==> var k := SlotAt(st, b, i); k <= n && (k > 0 ==> Item(k).key != key)
    ensures NotIn(s, b, key)
  {
    forall i | 0 <= i < ENTRIES && s.cells[b][i].idx != EMPTY && s.cells[b][i].idx < |s.store|
      ensures s.store[s.cells[b][i].idx].key != key
    {
      assert ShowsAt(P, s.cells[b][i], SlotAt(st, b, i));
    }
  }

  /** The lists of rows 0 and 5 are these rows alone. */
  ghost predicate Short(P: Params, s: State, l: Links) {
    Listed(P, s, l) && |l.chain| == 8 && l.chain[0] == [0] && l.chain[5] == [5]
  }

  /** The first 55 slots are used, and nothing is linked. */
  ghost predicate Fresh(P: Params, y: Sys, t: nat) {
    && Calm(y) && t <= P.entries && y.s.freeSlots == Initial(P).freeSlots[t..] && Stored(y.s, t) && |y.s.store| == 65
    && y.s.next == Initial(P).next && y.s.freeExt == Initial(P).freeExt && |y.s.cells| == 16
  }

  lemma FreshLists(P: Params, s: State)
    requires Small(P) && s.next == Initial(P).next && |s.cells| == 16
    ensures Listed(P, s, Unlinked(P)) && forall b :: 0 <= b < 8 ==> Unlinked(P).chain[b] == [b]
  {
    assert Words.Pow2(3) == 8;
    InitialChains(P);
  }

  /** A key that is not yet in is not seen. */
  lemma NewUnseen(P: Params, s: State, t: nat, k: nat)
    requires Small(P) && s.next == Initial(P).next && |s.cells| == 16 && Stored(s, t) && Shows(P, s, t)
    requires t < k <= 59 && t <= 55
    ensures NotSeen(P, s, Item(k))
  {
    HomesOf(P, k);
    FreshLists(P, s);
    var c, d := PrimOf(P, Item(k).key), SecOf(P, Item(k).key);
    assert c < 8 && d < 8 by { assert Words.Pow2(3) == 8; }
    forall j | 1 <= j <= t ensures Item(j).key != Item(k).key { ItemsDiffer(j, k); }
    RowUnseen(P, s, t, t, c, Item(k).key);
    RowUnseen(P, s, t, t, d, Item(k).key);
    RowIsUnseen(P, s, Unlinked(P), Item(k).key, c, d);
  }

  // ---------------------------------------------------------------- filling the rows

  /** t keys were added and no writer is at work. */
  ghost predicate Idle(P: Params, p: Prog, t: nat) {
    && Reach(P, p) && Fresh(P, p.y, t) && Shows(P, p.y.s, t) && p.y.own == map[] && p.y.want == map[]
    && forall w :: PhaseOf(p, w) == Out
  }

  lemma IdleBegin(P: Params)
    requires Small(P)
    ensures Idle(P, Begin(P), 0)
  {
    assert Words.Pow2(3) == 8;
    ReachBegin(P);
  }

  lemma NextHome(P: Params, t: nat, b: nat, i: nat)
    requires Small(P) && t == 8 * b + i < 55 && i < 8
    ensures PrimOf(P, Item(t + 1).key) == b && EntryOf(P, Item(t + 1), t + 1) == Cell(Sig(t + 1), t + 1)
  {
    HomesOf(P, t + 1);
  }

  /** Place i of row b is the first empty one of that row. */
  lemma FirstEmpty(P: Params, s: State, t: nat, b: nat, i: nat)
    requires Shows(P, s, t) && t == 8 * b + i < 55 && i < 8
    ensures s.cells[b][i].idx == EMPTY && forall j :: 0 <= j < i ==> s.cells[b][j].idx != EMPTY
  {
    assert ShowsAt(P, s.cells[b][i], SlotAt(t, b, i));
    forall j | 0 <= j < i ensures s.cells[b][j].idx != EMPTY {
      assert ShowsAt(P, s.cells[b][j], SlotAt(t, b, j));
    }
  }

  /** The place for the next key is the first empty one of its primary bucket. */
  lemma NextPlace(P: Params, s: State, t: nat, b: nat, i: nat)
    requires Small(P) && s.next == Initial(P).next && |s.cells| == 16 && Stored(s, t + 1) && Shows(P, s, t)
    requires t == 8 * b + i < 55 && i < 8
    ensures CanInsert(P, s, Item(t + 1), i)
  {
    NewUnseen(P, s, t, t + 1);
    NextHome(P, t, b, i);
    FirstEmpty(P, s, t, b, i);
  }

  lemma ShowsNext(P: Params, s: State, t: nat, b: nat, i: nat, r: State)
    requires Shows(P, s, t) && t == 8 * b + i < 55 && i < 8
    requires r.cells == Put(s.cells, Place(b, i), Cell(Sig(t + 1), t + 1))
    ensures Shows(P, r, t + 1)
  {
    forall c, j | 0 <= c < 8 && 0 <= j < ENTRIES ensures ShowsAt(P, r.cells[c][j], SlotAt(t + 1, c, j)) {
      assert ShowsAt(P, s.cells[c][j], SlotAt(t, c, j));
    }
  }

  lemma StoredNext(s: State, t: nat, r: State)
    requires Stored(s, t) && t + 1 < |s.store| && r.store == s.store[t + 1 := Item(t + 1)]
    ensures Stored(r, t + 1)
  {
  }

  /** A writer takes and fills the next slot. */
  lemma NextSlot(P: Params, p: Prog, t: nat, w: Wid) returns (r: Prog)
    requires Small(P) && Reach(P, p) && Fresh(P, p.y, t) && t < 59 && PhaseOf(p, w) == Out && w !in p.y.own
    requires NotSeen(P, p.y.s, Item(t + 1))
    ensures Reach(P, r) && Fresh(P, r.y, t + 1) && r.y.s.cells == p.y.s.cells
    ensures r.y.own == p.y.own[w := t + 1] && r.y.want == p.y.want[w := Item(t + 1)]
    ensures r.pc == p.pc[w := Filled(Item(t + 1))]
  {
    HomesOf(P, t + 1);
    r := GetSlot(P, p, w, Item(t + 1));
    StoredNext(p.y.s, t, r.y.s);
  }

  lemma NextActs(P: Params, s: State, t: nat, b: nat, i: nat) returns (u: State)
    requires Small(P) && s.next == Initial(P).next && |s.cells| == 16 && Stored(s, t + 1) && Shows(P, s, t)
    requires t == 8 * b + i < 55 && i < 8
    ensures u == s.(cells := u.cells) && |u.cells| == 16 && Shows(P, u, t + 1)
    ensures Acts(P, s, t + 1, Act.Insert(Item(t + 1), i), u, 0)
  {
    NextPlace(P, s, t, b, i);
    NextHome(P, t, b, i);
    u := s.(cells := Put(s.cells, Place(b, i), Cell(Sig(t + 1), t + 1)));
    ShowsNext(P, s, t, b, i, u);
  }

  lemma PutNext(P: Params, p: Prog, t: nat) returns (r: Prog)
    requires Small(P) && Reach(P, p) && Fresh(P, p.y, t + 1) && Shows(P, p.y.s, t) && t < 55
    requires p.y.own == map[0 := t + 1] && p.y.want == map[0 := Item(t + 1)] && PhaseOf(p, 0) == Filled(Item(t + 1))
    ensures Reach(P, r) && Fresh(P, r.y, t + 1) && Shows(P, r.y.s, t + 1)
    ensures r.y.own == map[] && r.y.want == map[] && r.pc == p.pc[0 := Out]
  {
    var u := NextActs(P, p.y.s, t, t / 8, t % 8);
    r := PlaceReach(P, p, 0, Act.Insert(Item(t + 1), t % 8), u, 0, Out);
    assert p.y.own - {0} == map[] && p.y.want - {0} == map[];
  }

  lemma OutAgain(p: Prog, g: Prog, f: Phase, r: Prog)
    requires (forall w :: PhaseOf(p, w) == Out) && g.pc == p.pc[0 := f] && r.pc == g.pc[0 := Out]
    ensures forall w :: PhaseOf(r, w) == Out
  {
    forall w ensures PhaseOf(r, w) == Out { assert PhaseOf(p, w) == Out; }
  }

  lemma AddNext(P: Params, p: Prog, t: nat) returns (r: Prog)
    requires Small(P) && Idle(P, p, t) && t < 55
    ensures Idle(P, r, t + 1)
  {
    NewUnseen(P, p.y.s, t, t + 1);
    var g := NextSlot(P, p, t, 0);
    r := PutNext(P, g, t);
    OutAgain(p, g, Filled(Item(t + 1)), r);
  }

  lemma {:induction false} AddAll(P: Params, t: nat) returns (p: Prog)
    requires Small(P) && t <= 55
    ensures Idle(P, p, t)
  {
    if t == 0 {
      p := Begin(P);
      IdleBegin(P);
    } else {
      p := AddAll(P, t - 1);
      p := AddNext(P, p, t - 1);
    }
  }

  // ---------------------------------------------------------------- four writers look for room

  lemma FullFirst(P: Params, s: State, b: nat)
    requires Shows(P, s, 55) && (b == 0 || b == 1 || b == 5)
    ensures FullRow(s.cells, b)
  {
    forall i | 0 <= i < ENTRIES ensures s.cells[b][i].idx != EMPTY {
      assert ShowsAt(P, s.cells[b][i], SlotAt(55, b, i));
    }
  }

  /** A writer takes slot k, finds its primary bucket full and starts to search. */
  lemma Join(P: Params, p: Prog, k: nat, w: Wid) returns (r: Prog)
    requires Small(P) && Reach(P, p) && 55 < k <= 59 && Fresh(P, p.y, k - 1) && Shows(P, p.y.s, 55)
    requires PhaseOf(p, w) == Out && w !in p.y.own
    ensures Reach(P, r) && Fresh(P, r.y, k) && Shows(P, r.y.s, 55)
    ensures r.y.own == p.y.own[w := k] && r.y.want == p.y.want[w := Item(k)]
    ensures r.pc == p.pc[w := Seek(Item(k), false, [Root(HomeRow(k))], false)]
  {
    NewUnseen(P, p.y.s, 55, k);
    var g := NextSlot(P, p, k - 1, w);
    r := StartSeek(P, g, k, w);
    Again(p.pc, w, Filled(Item(k)), PhaseOf(r, w));
  }

  lemma StartSeek(P: Params, p: Prog, k: nat, w: Wid) returns (r: Prog)
    requires Small(P) && Reach(P, p) && 55 < k <= 59 && Shows(P, p.y.s, 55) && PhaseOf(p, w) == Filled(Item(k))
    requires p.y.s.next == Initial(P).next && |p.y.s.cells| == 16 && Stored(p.y.s, 55)
    ensures Reach(P, r) && r == Prog(p.y, p.pc[w := Seek(Item(k), false, [Root(HomeRow(k))], false)])
  {
    NewUnseen(P, p.y.s, 55, k);
    HomesOf(P, k);
    FullFirst(P, p.y.s, HomeRow(k));
    r := LocalReach(P, p, w, Seek(Item(k), false, [Root(HomeRow(k))], false));
  }

  /** Writers 1 and 5 add x, writers 4 and 3 the keys of slots 58 and 59. */
  ghost predicate Busy(y: Sys) { Has(y, 1, 56, Item(56)) && Three(y) }

  ghost predicate Three(y: Sys) { Has(y, 5, 57, Item(57)) && Has(y, 4, 58, Item(58)) && Has(y, 3, 59, Item(59)) }

  ghost predicate Phases(p: Prog, one: Phase, five: Phase, four: Phase, three: Phase) {
    PhaseOf(p, 1) == one && PhaseOf(p, 5) == five && PhaseOf(p, 4) == four && PhaseOf(p, 3) == three
  }

  lemma GatherTwo(P: Params) returns (r: Prog)
    requires Small(P)
    ensures Reach(P, r) && Fresh(P, r.y, 57) && Shows(P, r.y.s, 55)
    ensures Has(r.y, 1, 56, Item(56)) && Has(r.y, 5, 57, Item(57)) && 4 !in r.y.own && 3 !in r.y.own
    ensures Phases(r, Seek(Item(56), false, [Root(0)], false), Seek(Item(57), false, [Root(0)], false), Out, Out)
  {
    var a := AddAll(P, 55);
    NobodyThere(P, a);
    var b := Join(P, a, 56, 1);
    r := Join(P, b, 57, 5);
  }

  lemma NobodyThere(P: Params, p: Prog)
    requires Idle(P, p, 55)
    ensures Phases(p, Out, Out, Out, Out) && p.y.own == map[] && p.y.want == map[]
  {
    assert PhaseOf(p, 1) == PhaseOf(p, 5) == PhaseOf(p, 4) == PhaseOf(p, 3) == Out;
  }

  lemma Gather(P: Params) returns (r: Prog)
    requires Small(P)
    ensures Reach(P, r) && Fresh(P, r.y, 59) && Shows(P, r.y.s, 55) && Busy(r.y)
    ensures Phases(r, Seek(Item(56), false, [Root(0)], false), Seek(Item(57), false, [Root(0)], false),
                      Seek(Item(58), false, [Root(5)], false), Seek(Item(59), false, [Root(5)], false))
  {
    var a := GatherTwo(P);
    var b := Join(P, a, 58, 4);
    r := Join(P, b, 59, 3);
  }

  // ---------------------------------------------------------------- the searches

  /** The buckets of the searches: from row 0; from row 1; from row 1 at the end; from row 5. */
  function FromA(k: nat): nat { 0 }

  function FromB(k: nat): nat {
    if k == 0 then 1 else if k < 9 then 2 else if k < 73 then 3 else if k < 585 then 4 else if k % 8 == 1 then 6 else 7
  }

  function LateB(k: nat): nat { if k < 585 then FromB(k) else 5 }

  function FromC(k: nat): nat {
    if k == 0 then 5 else if k < 9 then 4 else if k < 73 then (if k % 8 == 1 then 6 else 7) else if k < 80 then 6 else 4
  }

  lemma InTable(P: Params)
    requires P.order == 3
    ensures Main(P) == 8 && forall k :: FromA(k) < 8 && FromB(k) < 8 && LateB(k) < 8 && FromC(k) < 8
  {
    assert Words.Pow2(3) == 8;
  }

  lemma Aways(k: nat)
    requires 1 <= k <= 55
    ensures Sig(k) % 8 == Twist((k - 1) / 8, (k - 1) % 8)
  {
    Words.ModUnique(Sig(k), (k - 1) % 8 + 1, Twist((k - 1) / 8, (k - 1) % 8), 8);
  }

  lemma Flips()
    ensures Bits.Xor(0, 0) == 0 && Bits.Xor(1, 3) == 2 && Bits.Xor(2, 1) == 3 && Bits.Xor(3, 7) == 4
    ensures Bits.Xor(4, 2) == 6 && Bits.Xor(4, 3) == 7 && Bits.Xor(5, 1) == 4 && Bits.Xor(0, 1) == 1
    ensures Bits.Xor(6, 0) == 6 && Bits.Xor(6, 2) == 4 && Bits.Xor(4, 1) == 5 && Bits.Xor(5, 0) == 5
  {
  }

  /** A place that shows a slot tells where its entry could move. */
  lemma ToldAt(P: Params, s: State, st: nat, f: nat -> nat, k: nat, j: nat)
    requires Small(P) && Shows(P, s, st) && f(k / 8) < 8 && j == SlotAt(st, f(k / 8), k % 8) > 0
    requires Away(f(k / 8), j) == f(k + 1)
    ensures Told(P, s.cells, f, k)
  {
    assert Words.Pow2(3) == 8;
    assert ShowsAt(P, s.cells[f(k / 8)][k % 8], j);
    AltOf(P, f(k / 8), Sig(j));
  }

  lemma ToldA(P: Params, s: State, st: nat)
    requires Small(P) && Shows(P, s, st) && st >= 55
    ensures ToldAll(P, s.cells, FromA, 0, 992)
  {
    Flips();
    forall k: nat | k < 992 ensures Told(P, s.cells, FromA, k) {
      Aways(k % 8 + 1);
      ToldAt(P, s, st, FromA, k, k % 8 + 1);
    }
  }

  lemma ToldB(P: Params, s: State, st: nat, k: nat)
    requires Small(P) && Shows(P, s, st) && st >= 55 && k < 584
    ensures Told(P, s.cells, FromB, k)
  {
    Flips();
    var b := FromB(k / 8);
    Aways(8 * b + k % 8 + 1);
    ToldAt(P, s, st, FromB, k, 8 * b + k % 8 + 1);
  }

  lemma ToldB4(P: Params, s: State, k: nat)
    requires Small(P) && Shows(P, s, 55) && 584 <= k < 992
    ensures Told(P, s.cells, FromB, k)
  {
    Flips();
    Aways(32 + k % 8 + 1);
    ToldAt(P, s, 55, FromB, k, 32 + k % 8 + 1);
  }

  lemma ToldLate(P: Params, s: State)
    requires Small(P) && Shows(P, s, 57)
    ensures ToldAll(P, s.cells, LateB, 0, 585)
  {
    Flips();
    forall k: nat | k < 585 ensures Told(P, s.cells, LateB, k) {
      if k < 584 {
        ToldB(P, s, 57, k);
      } else {
        Aways(41);
        ToldAt(P, s, 57, LateB, k, 41);
      }
    }
  }

  lemma ToldC(P: Params, s: State)
    requires Small(P) && Shows(P, s, 55)
    ensures ToldAll(P, s.cells, FromC, 0, 79)
  {
    Flips();
    forall k: nat | k < 79 ensures Told(P, s.cells, FromC, k) {
      var b := FromC(k / 8);
      Aways(8 * b + k % 8 + 1);
      ToldAt(P, s, 55, FromC, k, 8 * b + k % 8 + 1);
    }
  }

  lemma ToldC2(P: Params, s: State)
    requires Small(P) && Shows(P, s, 56)
    ensures ToldAll(P, s.cells, FromC, 72, 80)
  {
    Flips();
    forall k: nat | 72 <= k < 80 ensures Told(P, s.cells, FromC, k) {
      var j := if k < 79 then 48 + k % 8 + 1 else 33;
      Aways(j);
      ToldAt(P, s, 56, FromC, k, j);
    }
  }

  lemma LateSigs(k: nat)
    requires 56 <= k <= 59
    ensures HomeRow(k) == (if k < 58 then 0 else 5) && Sig(k) % 8 == (if k < 58 then 1 else 0)
  {
  }

  lemma XHome(P: Params, k: nat)
    requires Small(P) && 56 <= k <= 57
    ensures PrimOf(P, Item(k).key) == 0 && SecOf(P, Item(k).key) == 1 && EntryOf(P, Item(k), k) == Cell(Sig(k), k)
  {
    HomesOf(P, k);
    LateSigs(k);
    Flips();
  }

  lemma RowFiveHome(P: Params, k: nat)
    requires Small(P) && 58 <= k <= 59
    ensures PrimOf(P, Item(k).key) == SecOf(P, Item(k).key) == 5 && EntryOf(P, Item(k), k) == Cell(Sig(k), k)
  {
    HomesOf(P, k);
    LateSigs(k);
    Flips();
  }

  lemma RootQueue(f: nat -> nat)
    ensures [Root(f(0))] == Queue(f, 1)
  {
  }

  lemma ToldBAll(P: Params, s: State)
    requires Small(P) && Shows(P, s, 55)
    ensures ToldAll(P, s.cells, FromB, 0, 992)
  {
    forall k: nat | k < 992 ensures Told(P, s.cells, FromB, k) {
      if k < 584 { ToldB(P, s, 55, k); } else { ToldB4(P, s, k); }
    }
  }

  /** Searching from row 0 is in vain. */
  lemma InVainA(P: Params, p: Prog, w: Wid, k: nat, st: nat) returns (r: Prog)
    requires Small(P) && Reach(P, p) && Shows(P, p.y.s, st) && st >= 55 && 56 <= k <= 57
    requires PhaseOf(p, w) == Seek(Item(k), false, [Root(0)], false)
    ensures Reach(P, r) && r == Prog(p.y, p.pc[w := Seek(Item(k), true, [Root(1)], false)])
  {
    ToldA(P, p.y.s, st);
    RootQueue(FromA);
    r := ReadOn(P, p, w, Item(k), false, FromA, 0, 992);
    XHome(P, k);
  }

  /** ... and then from row 1. */
  lemma InVainB(P: Params, p: Prog, w: Wid, k: nat) returns (r: Prog)
    requires Small(P) && Reach(P, p) && Shows(P, p.y.s, 55)
    requires PhaseOf(p, w) == Seek(Item(k), true, [Root(1)], false)
    ensures Reach(P, r) && r == Prog(p.y, p.pc[w := Last(Item(k))])
  {
    ToldBAll(P, p.y.s);
    RootQueue(FromB);
    r := ReadOn(P, p, w, Item(k), true, FromB, 0, 992);
  }

  /** The same, as a search that nobody interferes with. */
  lemma NoRoomYet(P: Params, s: State)
    requires Small(P) && Shows(P, s, 55)
    ensures CuckooTable.Crowded(P, s.cells, 0) && CuckooTable.Crowded(P, s.cells, 1)
  {
    InTable(P);
    ToldA(P, s, 55);
    ToldCurrent(P, s.cells, FromA, 993, 124, 0);
    QueueTree(P, FromA, 993);
    CuckooTable.CrowdedBy(P, s.cells, Queue(FromA, 993), 0);
    ToldBAll(P, s);
    ToldCurrent(P, s.cells, FromB, 993, 124, 0);
    QueueTree(P, FromB, 993);
    CuckooTable.CrowdedBy(P, s.cells, Queue(FromB, 993), 1);
  }

  /** A search from row 5 reads the first n slots. */
  lemma ReadC(P: Params, p: Prog, w: Wid, k: nat, n: nat) returns (r: Prog)
    requires Small(P) && Reach(P, p) && Shows(P, p.y.s, 55) && 0 < n <= 79
    requires PhaseOf(p, w) == Seek(Item(k), false, [Root(5)], false)
    ensures Reach(P, r) && r == Prog(p.y, p.pc[w := Seek(Item(k), false, Queue(FromC, n + 1), false)])
  {
    ToldC(P, p.y.s);
    RootQueue(FromC);
    r := ReadOn(P, p, w, Item(k), false, FromC, 0, n);
  }

  /** Writer 1 is about to extend the list of row 1, writer 5 has not begun to search, writer 4 has found an empty slot
      in row 6, and writer 3 has read the same slots but for row 6. */
  ghost predicate Stalled(P: Params, p: Prog) {
    Phases(p, Last(Item(56)), Seek(Item(57), false, [Root(0)], false), Try(Item(58), false, Queue(FromC, 80)),
           Seek(Item(59), false, Queue(FromC, 73), false))
  }

  lemma GetSearched(P: Params) returns (r: Prog)
    requires Small(P)
    ensures Reach(P, r) && Fresh(P, r.y, 59) && Shows(P, r.y.s, 55) && Busy(r.y)
    ensures Phases(r, Last(Item(56)), Seek(Item(57), false, [Root(0)], false),
                      Seek(Item(58), false, [Root(5)], false), Seek(Item(59), false, [Root(5)], false))
  {
    var p := Gather(P);
    var a := InVainA(P, p, 1, 56, 55);
    r := InVainB(P, a, 1, 56);
  }

  lemma GetStalled(P: Params) returns (r: Prog)
    requires Small(P)
    ensures Reach(P, r) && Fresh(P, r.y, 59) && Shows(P, r.y.s, 55) && Busy(r.y) && Stalled(P, r)
    ensures CuckooTable.Crowded(P, r.y.s.cells, 0) && CuckooTable.Crowded(P, r.y.s.cells, 1)
  {
    var b := GetSearched(P);
    NoRoomYet(P, b.y.s);
    var c := ReadC(P, b, 4, 58, 79);
    var d := ReadC(P, c, 3, 59, 72);
    assert ShowsAt(P, d.y.s.cells[6][7], SlotAt(55, 6, 7));
    r := ReadEmpty(P, d, 4, Item(58), false, FromC, 79);
  }

  // ---------------------------------------------------------------- the list of row 1 is extended

  ghost predicate HasX(P: Params, s: State, k: nat) {
    k in Contents(P, s) && Contents(P, s)[k].key == Item(56).key
  }

  /** x is in an extendable bucket, and the lists of rows 0 and 5 are short. */
  ghost predicate Extended(P: Params, p: Prog, l: Links) {
    && Reach(P, p) && Calm(p.y) && Stored(p.y.s, 59) && Short(P, p.y.s, l) && HasX(P, p.y.s, 56)
  }

  lemma CanExtendX(P: Params, s: State) returns (r: State)
    requires Small(P) && Stored(s, 59) && Shows(P, s, 55) && |s.cells| == 16
    requires s.next == Initial(P).next && s.freeExt == Initial(P).freeExt
    ensures Listed(P, s, Unlinked(P)) && Main(P) == 8 && forall b :: 0 <= b < 8 ==> Unlinked(P).chain[b] == [b]
    ensures s.freeExt != [] && s.freeExt[0] == 1
    ensures r == Linked(P, s, Unlinked(P), 1, EntryOf(P, Item(56), 56)) && SecOf(P, Item(56).key) == 1
    ensures Acts(P, s, 56, Extend(Item(56)), r, 0) && Shows(P, r, 55) && r.store == s.store
  {
    FreshLists(P, s);
    InTable(P);
    XHome(P, 56);
    XUnseen(P, s, 55, Unlinked(P), 0, 1);
    FullFirst(P, s, 1);
    assert CanExtend(P, s, Unlinked(P), Item(56));
    r := Linked(P, s, Unlinked(P), 1, EntryOf(P, Item(56), 56));
    StillShows(P, s, 55, r);
  }

  lemma XEnds(P: Params, from: nat, other: nat)
    requires Small(P) && ((from == 0 && other == 1) || (from == 1 && other == 0))
    ensures Ends(P, Item(56).key, from, other)
  {
    XHome(P, 56);
  }

  /** Rows 0 and 1 never show x. */
  lemma XUnseen(P: Params, s: State, st: nat, l: Links, from: nat, other: nat)
    requires Small(P) && Shows(P, s, st) && Stored(s, 59) && Listed(P, s, l)
    requires (from == 0 && other == 1) || (from == 1 && other == 0)
    requires st >= 55 && other < |l.chain| && l.chain[other] == [other]
    ensures Unseen(P, s, l, Item(56).key, from, other)
  {
    XEnds(P, from, other);
    XNotIn(P, s, st, from);
    XNotIn(P, s, st, other);
    RowIsUnseen(P, s, l, Item(56).key, from, other);
  }

  lemma RowIsUnseen(P: Params, s: State, l: Links, key: Key, from: nat, other: nat)
    requires Listed(P, s, l) && other < |l.chain| && l.chain[other] == [other] && Ends(P, key, from, other)
    requires from < |s.cells| && other < |s.cells| && NotIn(s, from, key) && NotIn(s, other, key)
    ensures Unseen(P, s, l, key, from, other)
  {
  }

  lemma XNotIn(P: Params, s: State, st: nat, b: nat)
    requires Shows(P, s, st) && Stored(s, 59) && b < 2 && st >= 55
    ensures NotIn(s, b, Item(56).key)
  {
    forall i | 0 <= i < ENTRIES ensures SlotAt(st, b, i) == 8 * b + i + 1 && Item(8 * b + i + 1).key != Item(56).key {
      ItemsDiffer(8 * b + i + 1, 56);
    }
    RowUnseen(P, s, st, 59, b, Item(56).key);
  }

  lemma NewLists(P: Params, s: State, r: State) returns (l: Links)
    requires Good(P, s) && Listed(P, s, Unlinked(P)) && Main(P) == 8 && s.freeExt != [] && 0 < s.freeExt[0] <= P.extra
    requires 56 in Loose(P, s) && s.store[56] == Item(56) && SecOf(P, Item(56).key) == 1
    requires forall b :: 0 <= b < 8 ==> Unlinked(P).chain[b] == [b]
    requires r == Linked(P, s, Unlinked(P), 1, EntryOf(P, Item(56), 56))
    ensures Short(P, r, l) && HasX(P, r, 56)
  {
    var h :| Wf(P, s, h);
    SameLists(P, s, h, Unlinked(P), 0);
    SameLists(P, s, h, Unlinked(P), 1);
    SameLists(P, s, h, Unlinked(P), 5);
    var v;
    v, l := LinkPut(P, s, h, 1, 56);
  }

  lemma StillShows(P: Params, s: State, st: nat, r: State)
    requires Shows(P, s, st) && |r.cells| == |s.cells| && forall b :: 0 <= b < 8 ==> r.cells[b] == s.cells[b]
    ensures Shows(P, r, st)
  {
    forall b, i | 0 <= b < 8 && 0 <= i < ENTRIES ensures ShowsAt(P, r.cells[b][i], SlotAt(st, b, i)) {
      assert ShowsAt(P, s.cells[b][i], SlotAt(st, b, i));
    }
  }

  lemma HasKept(y: Sys, s: State, w: Wid, m: nat, u: Wid, k: nat, x: Slot)
    requires Has(y, u, k, x) && u != w
    ensures Has(Now(y, s, w, m), u, k, x)
  {
  }

  lemma GetExtended(P: Params, p: Prog) returns (r: Prog, l: Links)
    requires Small(P) && Reach(P, p) && Fresh(P, p.y, 59) && Shows(P, p.y.s, 55) && Busy(p.y)
    requires PhaseOf(p, 1) == Last(Item(56))
    ensures Extended(P, r, l) && Shows(P, r.y.s, 55) && r.pc == p.pc[1 := Out] && Three(r.y)
  {
    var u;
    u, l := ExtendedState(P, p);
    r := ExtendReach(P, p, 1, 56, Item(56), u);
    HasKept(p.y, u, 1, 0, 5, 57, Item(57));
    HasKept(p.y, u, 1, 0, 4, 58, Item(58));
    HasKept(p.y, u, 1, 0, 3, 59, Item(59));
  }

  lemma ExtendedState(P: Params, p: Prog) returns (u: State, l: Links)
    requires Small(P) && Reach(P, p) && Fresh(P, p.y, 59) && Shows(P, p.y.s, 55) && Has(p.y, 1, 56, Item(56))
    ensures Shows(P, u, 55) && Stored(u, 59) && Short(P, u, l) && HasX(P, u, 56)
    ensures Acts(P, p.y.s, 56, Extend(Item(56)), u, 0)
  {
    TakenLoose(P, p, 1, 56, Item(56));
    u := CanExtendX(P, p.y.s);
    l := NewLists(P, p.y.s, u);
  }

  lemma ExtendReach(P: Params, p: Prog, w: Wid, k: nat, x: Slot, u: State) returns (r: Prog)
    requires P.extra > 0 && Reach(P, p) && Calm(p.y) && Has(p.y, w, k, x) && PhaseOf(p, w) == Last(x)
    requires Acts(P, p.y.s, k, Act.Extend(x), u, 0)
    ensures Reach(P, r) && r == Prog(Now(p.y, u, w, 0), p.pc[w := Out])
  {
    r := PlaceReach(P, p, w, Act.Extend(x), u, 0, Out);
  }

  // ---------------------------------------------------------------- two walks from row 5

  lemma RowFiveNotIn(P: Params, s: State, st: nat, k: nat)
    requires Shows(P, s, st) && Stored(s, 59) && ((st == 55 && k == 58) || (st == 56 && k == 59))
    ensures NotIn(s, 5, Item(k).key)
  {
    forall i | 0 <= i < ENTRIES ensures 0 < SlotAt(st, 5, i) < k && Item(SlotAt(st, 5, i)).key != Item(k).key {
      ItemsDiffer(SlotAt(st, 5, i), k);
    }
    RowUnseen(P, s, st, 59, 5, Item(k).key);
  }

  /** The keys of slots 58 and 59 are not seen while they are not in row 5. */
  lemma RowFiveUnseen(P: Params, s: State, st: nat, l: Links, k: nat)
    requires Small(P) && Shows(P, s, st) && Stored(s, 59) && Short(P, s, l)
    requires (st == 55 && k == 58) || (st == 56 && k == 59)
    ensures PrimOf(P, Item(k).key) == SecOf(P, Item(k).key) == 5 && UnseenSome(P, s, Item(k).key, 5, 5)
  {
    RowFiveHome(P, k);
    RowFiveNotIn(P, s, st, k);
    RowIsUnseen(P, s, l, Item(k).key, 5, 5);
  }

  /** Over row 4 back to the first place of row 5. */
  lemma PathC(P: Params, n: nat)
    requires P.order == 3 && 79 <= n <= 80
    ensures Main(P) == 8 && (forall j :: 0 <= j <= n ==> FromC(j) < 8)
    ensures PathOf(P, FromC, n) == [Place(4, n - 79), Place(5, 0)]
  {
    InTable(P);
    QueueTree(P, FromC, n + 1);
    QueuePath(P, FromC, n + 1, n / 8);
    QueuePath(P, FromC, n + 1, 1);
  }

  /** A walk over two places. */
  lemma DisplaceTwo(t: Buckets, order: nat, hole: Place, p: Place, r: Place, e: Cell)
    requires In(t, hole) && In(t, p) && In(t, r) && Alt(p.bkt, At(t, p).sig, order) == hole.bkt
    ensures var u := Put(t, hole, At(t, p));
      Displace(t, order, hole, [p, r], e) == if Alt(r.bkt, At(u, r).sig, order) == p.bkt
        then Inserted(Put(Put(u, p, At(u, r)), r, e)) else Refused(Put(u, p, At(u, p).(idx := EMPTY)))
  {
    var u := Put(t, hole, At(t, p));
    assert [p, r][1..] == [r] && [r][1..] == [];
    assert Displace(t, order, hole, [p, r], e) == Displace(u, order, p, [r], e);
    if Alt(r.bkt, At(u, r).sig, order) == p.bkt {
      assert Displace(u, order, p, [r], e) == Displace(Put(u, p, At(u, r)), order, r, [], e);
    }
  }

  lemma Shown(P: Params, s: State, st: nat, b: nat, i: nat)
    requires Shows(P, s, st) && b < 8 && i < ENTRIES
    ensures ShowsAt(P, s.cells[b][i], SlotAt(st, b, i))
  {
  }

  /** Where the entries that the walks meet could move. */
  lemma Meets(P: Params)
    requires P.order == 3
    ensures Alt(4, Sig(33), 3) == 6 && Alt(5, Sig(41), 3) == 4 && Alt(4, Sig(34), 3) == 7 && Alt(5, Sig(58), 3) == 5
  {
    Flips();
    FewSigs();
    AltOf(P, 4, 10);
    AltOf(P, 5, 9);
    AltOf(P, 4, 19);
    AltOf(P, 5, 8);
  }

  lemma FewSigs()
    ensures Sig(33) == 10 && Sig(41) == 9 && Sig(34) == 19 && Sig(58) == 8
  {
  }

  ghost function FirstCells(t: Buckets): Buckets
    requires |t| >= 8
  {
    Put(Put(Put(t, Place(6, 7), Cell(Sig(33), 33)), Place(4, 0), Cell(Sig(41), 41)), Place(5, 0), Cell(Sig(58), 58))
  }

  ghost function SecondCells(t: Buckets): Buckets
    requires |t| >= 8
  {
    Put(Put(t, Place(7, 0), Cell(Sig(34), 34)), Place(4, 1), Cell(Sig(34), EMPTY))
  }

  lemma WalksShow(P: Params, s: State, st: nat, t: Buckets)
    requires Shows(P, s, st) && 55 <= st <= 56 && t == if st == 55 then FirstCells(s.cells) else SecondCells(s.cells)
    ensures Shows(P, s.(cells := t), st + 1)
  {
    forall b, i | 0 <= b < 8 && 0 <= i < ENTRIES ensures ShowsAt(P, t[b][i], SlotAt(st + 1, b, i)) {
      Shown(P, s, st, b, i);
      assert t[b][i] == At(t, Place(b, i)) && s.cells[b][i] == At(s.cells, Place(b, i));
    }
  }

  lemma FirstOutcome(P: Params, s: State, e: Cell)
    requires Small(P) && Shows(P, s, 55) && e == Cell(Sig(58), 58)
    ensures Displace(s.cells, 3, Place(6, 7), [Place(4, 0), Place(5, 0)], e) == Inserted(FirstCells(s.cells))
  {
    Meets(P);
    Shown(P, s, 55, 4, 0);
    Shown(P, s, 55, 5, 0);
    DisplaceTwo(s.cells, 3, Place(6, 7), Place(4, 0), Place(5, 0), e);
  }

  lemma SecondOutcome(P: Params, s: State, e: Cell)
    requires Small(P) && Shows(P, s, 56)
    ensures Displace(s.cells, 3, Place(7, 0), [Place(4, 1), Place(5, 0)], e) == Refused(SecondCells(s.cells))
  {
    Meets(P);
    Shown(P, s, 56, 4, 1);
    Shown(P, s, 56, 5, 0);
    DisplaceTwo(s.cells, 3, Place(7, 0), Place(4, 1), Place(5, 0), e);
  }

  /** The first walk puts the key of slot 58 into row 5. */
  lemma FirstWalk(P: Params, s: State)
    requires Small(P) && Shows(P, s, 55)
    ensures Main(P) == 8 && forall j :: 0 <= j <= 79 ==> FromC(j) < 8
    ensures var o := WalkOf(P, s, 58, Item(58), FromC, 79); o.Inserted? && Shows(P, s.(cells := o.t), 56)
  {
    PathC(P, 79);
    RowFiveHome(P, 58);
    FirstOutcome(P, s, EntryOf(P, Item(58), 58));
    WalksShow(P, s, 55, FirstCells(s.cells));
  }

  /** The second finds row 5 changed: it is refused and leaves a place of row 4 empty. */
  lemma SecondWalk(P: Params, s: State)
    requires Small(P) && Shows(P, s, 56)
    ensures Main(P) == 8 && forall j :: 0 <= j <= 80 ==> FromC(j) < 8
    ensures var o := WalkOf(P, s, 59, Item(59), FromC, 80); o.Refused? && Shows(P, s.(cells := o.t), 57)
  {
    PathC(P, 80);
    SecondOutcome(P, s, EntryOf(P, Item(59), 59));
    WalksShow(P, s, 56, SecondCells(s.cells));
  }

  /** Writer 4 moves two entries and puts its key into row 5. */
  lemma GetFirst(P: Params, p: Prog, l: Links) returns (r: Prog)
    requires Small(P) && Extended(P, p, l) && Shows(P, p.y.s, 55) && Has(p.y, 4, 58, Item(58))
    requires PhaseOf(p, 4) == Try(Item(58), false, Queue(FromC, 80))
    ensures Extended(P, r, l) && Shows(P, r.y.s, 56) && r.pc == p.pc[4 := Out] && r.y == Now(p.y, r.y.s, 4, 0)
  {
    FirstWalk(P, p.y.s);
    RowFiveUnseen(P, p.y.s, 55, l, 58);
    Shown(P, p.y.s, 55, 6, 7);
    r := WalkReach(P, p, 4, 58, Item(58), false, FromC, 79);
    StillExtended(P, p, l, r);
  }

  lemma StillExtended(P: Params, p: Prog, l: Links, r: Prog)
    requires Extended(P, p, l) && Reach(P, r) && Calm(r.y) && Rely(P, p.y.s, r.y.s, {})
    requires |r.y.s.cells| == |p.y.s.cells| && r.y.s == p.y.s.(cells := r.y.s.cells)
    ensures Extended(P, r, l)
  {
  }

  /** Writer 3 reads on, and its walk is refused half way. */
  lemma GetSecond(P: Params, p: Prog, l: Links) returns (r: Prog)
    requires Small(P) && Extended(P, p, l) && Shows(P, p.y.s, 56) && Has(p.y, 3, 59, Item(59))
    requires PhaseOf(p, 3) == Seek(Item(59), false, Queue(FromC, 73), false)
    ensures Extended(P, r, l) && Shows(P, r.y.s, 57) && r.y == p.y.(s := r.y.s)
    ensures r.pc == p.pc[3 := Seek(Item(59), false, Queue(FromC, 81), true)]
  {
    var a := ReadSixth(P, p);
    SecondWalk(P, p.y.s);
    RowFiveUnseen(P, p.y.s, 56, l, 59);
    Shown(P, p.y.s, 56, 7, 0);
    r := WalkReach(P, a, 3, 59, Item(59), false, FromC, 80);
    Again(p.pc, 3, PhaseOf(a, 3), PhaseOf(r, 3));
    StillExtended(P, p, l, r);
  }

  lemma ReadSixth(P: Params, p: Prog) returns (r: Prog)
    requires Small(P) && Reach(P, p) && Shows(P, p.y.s, 56)
    requires PhaseOf(p, 3) == Seek(Item(59), false, Queue(FromC, 73), false)
    ensures Reach(P, r) && r == Prog(p.y, p.pc[3 := Try(Item(59), false, Queue(FromC, 81))])
  {
    ToldC2(P, p.y.s);
    var a := ReadOn(P, p, 3, Item(59), false, FromC, 72, 80);
    Shown(P, p.y.s, 56, 7, 0);
    r := ReadEmpty(P, a, 3, Item(59), false, FromC, 80);
    Again(p.pc, 3, PhaseOf(a, 3), PhaseOf(r, 3));
  }

  // ---------------------------------------------------------------- x comes in again

  /** Writer 5 finds no room from row 0, and from row 1 the empty place in row 4. */
  lemma ReadLate(P: Params, p: Prog) returns (r: Prog)
    requires Small(P) && Reach(P, p) && Shows(P, p.y.s, 57)
    requires PhaseOf(p, 5) == Seek(Item(57), false, [Root(0)], false)
    ensures Reach(P, r) && r == Prog(p.y, p.pc[5 := Try(Item(57), true, Queue(LateB, 586))])
  {
    var a := InVainA(P, p, 5, 57, 57);
    ToldLate(P, p.y.s);
    RootQueue(LateB);
    var b := ReadOn(P, a, 5, Item(57), true, LateB, 0, 585);
    Shown(P, p.y.s, 57, 4, 1);
    r := ReadEmpty(P, b, 5, Item(57), true, LateB, 585);
    Again(p.pc, 5, PhaseOf(a, 5), PhaseOf(b, 5));
    Again(p.pc, 5, PhaseOf(b, 5), PhaseOf(r, 5));
  }

  /** The walk from there is not refused. */
  lemma LateWalk(P: Params, s: State)
    requires Small(P) && Shows(P, s, 57)
    ensures Main(P) == 8 && forall j :: 0 <= j <= 585 ==> LateB(j) < 8
    ensures WalkOf(P, s, 57, Item(57), LateB, 585).Inserted?
  {
    InTable(P);
    ToldLate(P, s);
    ToldCurrent(P, s.cells, LateB, 586, 73, 1);
    QueueTree(P, LateB, 586);
    Shown(P, s, 57, 4, 1);
    NotRefused(P, s.cells, Queue(LateB, 586), 586, 1, 73, 1, EntryOf(P, Item(57), 57));
  }

  lemma SecondX(P: Params)
    requires Small(P)
    ensures Item(57) == Item(56) && FromOf(P, Item(57), true) == 1 && OtherOf(P, Item(57), true) == 0
  {
    XHome(P, 57);
  }

  lemma GetTwice(P: Params, p: Prog, l: Links) returns (r: Prog)
    requires Small(P) && Extended(P, p, l) && Shows(P, p.y.s, 57) && Has(p.y, 5, 57, Item(57))
    requires PhaseOf(p, 5) == Seek(Item(57), false, [Root(0)], false)
    ensures Reach(P, r) && Good(P, r.y.s) && !Distinct(P, r.y.s)
  {
    var a := ReadLate(P, p);
    LateWalk(P, p.y.s);
    SecondX(P);
    XUnseen(P, p.y.s, 57, l, 1, 0);
    Shown(P, p.y.s, 57, 4, 1);
    TakenLoose(P, a, 5, 57, Item(57));
    WalkAdds(P, p.y.s, 57, Item(57), true, LateB, 585);
    r := WalkReach(P, a, 5, 57, Item(57), true, LateB, 585);
    assert HasX(P, r.y.s, 56) && HasX(P, r.y.s, 57);
  }

  /** x is in the table, row 4 has an empty place, and writer 5 is about to search. */
  lemma GetEmptied(P: Params) returns (r: Prog, l: Links)
    requires Small(P)
    ensures Extended(P, r, l) && Shows(P, r.y.s, 57) && Has(r.y, 5, 57, Item(57))
    ensures PhaseOf(r, 5) == Seek(Item(57), false, [Root(0)], false)
  {
    var a := GetStalled(P);
    var b;
    b, l := GetExtended(P, a);
    r := GetWalked(P, b, l);
  }

  lemma GetWalked(P: Params, p: Prog, l: Links) returns (r: Prog)
    requires Small(P) && Extended(P, p, l) && Shows(P, p.y.s, 55) && Three(p.y)
    requires PhaseOf(p, 4) == Try(Item(58), false, Queue(FromC, 80))
    requires PhaseOf(p, 3) == Seek(Item(59), false, Queue(FromC, 73), false)
    ensures Extended(P, r, l) && Shows(P, r.y.s, 57) && Has(r.y, 5, 57, Item(57)) && PhaseOf(r, 5) == PhaseOf(p, 5)
  {
    var c := GetFirst(P, p, l);
    HasKept(p.y, c.y.s, 4, 0, 3, 59, Item(59));
    HasKept(p.y, c.y.s, 4, 0, 5, 57, Item(57));
    r := GetSecond(P, c, l);
  }

  /** A run of the program from an empty table of 64 entries, without overlapping calls on the free ring, after which
      a key is in the table twice. */
  lemma DuplicateReached(P: Params) returns (r: Prog)
    requires Small(P)
    ensures Reach(P, r) && Good(P, r.y.s) && !Distinct(P, r.y.s)
  {
    var p, l := GetEmptied(P);
    r := GetTwice(P, p, l);
  }
}
