/** Adding a key as a program: what each writer does between the locked regions, one unlocked read at a time, with
    any number of writers interleaved. */
module CuckooProgram {
  import opened CuckooCells
  import opened CuckooState
  import opened CuckooRely
  import opened CuckooSearch
  import opened CuckooWriters
  import opened CuckooSystem

  /** A search stops when it has put 993 nodes into its queue. */
  const FULLQUEUE: nat := 993

  /** Where a writer is in __rte_hash_add_key_with_hash: outside; looked for the key in vain and not yet filled a slot;
      filled a slot; in the search from its first or second bucket with this queue, about to read the next key index
      or, after `read`, the next signature; before the locked region for the leaf slot that it read as empty; before
      the locked region for the extendable buckets; giving its slot back. */
  datatype Phase =
    | Out
    | Looked(x: Slot)
    | Filled(x: Slot)
    | Seek(x: Slot, second: bool, q: seq<Node>, read: bool)
    | Try(x: Slot, second: bool, q: seq<Node>)
    | Last(x: Slot)
    | Back

  datatype Prog = Prog(y: Sys, pc: map<Wid, Phase>)

  /** A step of one writer on its own, or one that the others may notice. */
  datatype Turn = Local(w: Wid) | Shared(e: Event)

  function PhaseOf(p: Prog, w: Wid): Phase { if w in p.pc then p.pc[w] else Out }

  function FromOf(P: Params, x: Slot, second: bool): nat { if second then SecOf(P, x.key) else PrimOf(P, x.key) }

  function OtherOf(P: Params, x: Slot, second: bool): nat { FromOf(P, x, !second) }

  function Root(from: nat): Node { Node(from, from, -1, -1) }

  /** The next slot to visit: queue entry n + 1 comes from slot n % 8 of node n / 8. */
  function LeafOf(q: seq<Node>): (p: Place)
    requires q != []
  {
    Place(q[(|q| - 1) / 8].bkt, (|q| - 1) % 8)
  }

  ghost predicate NotSeen(P: Params, s: State, x: Slot) {
    UnseenSome(P, s, x.key, PrimOf(P, x.key), SecOf(P, x.key))
  }

  /** After one more node was put into the queue. */
  function Onward(P: Params, x: Slot, second: bool, q: seq<Node>): Phase {
    if |q| < FULLQUEUE then Seek(x, second, q, false)
    else if second then Last(x)
    else Seek(x, true, [Root(SecOf(P, x.key))], false)
  }

  ghost predicate SeekTurn(P: Params, s: State, x: Slot, second: bool, q: seq<Node>, read: bool, g: Phase) {
    && q != [] && In(s.cells, LeafOf(q))
    && var c := At(s.cells, LeafOf(q)); var n := |q| - 1;
    var alt := Alt(q[n / 8].cur, c.sig, P.order);
    g == if read then Onward(P, x, second, q + [Node(alt, alt, n / 8, n % 8)])
         else if c.idx == EMPTY then Try(x, second, q) else Seek(x, second, q, true)
  }

  ghost predicate LocalTurn(P: Params, s: State, f: Phase, g: Phase) {
    match f
    case Out => g.Looked? && g.x.key != P.dummy && NotSeen(P, s, g.x)
    case Filled(x) =>
      && PrimOf(P, x.key) < |s.cells| && FullRow(s.cells, PrimOf(P, x.key)) && NotSeen(P, s, x)
      && g == Seek(x, false, [Root(PrimOf(P, x.key))], false)
    case Seek(x, second, q, read) => SeekTurn(P, s, x, second, q, read, g)
    case Try(x, second, q) =>
      q != [] && In(s.cells, LeafOf(q)) && At(s.cells, LeafOf(q)).idx != EMPTY && g == Seek(x, second, q, true)
    case Last(_) => P.extra == 0 && g == Back
    case _ => false
  }

  /** p is the first empty place in the list of the key's secondary bucket. */
  ghost predicate FirstFree(P: Params, s: State, x: Slot, p: Place) {
    exists l, i :: Listed(P, s, l) && FreeAt(s, l.chain[SecOf(P, x.key)], i, p)
  }

  ghost predicate FreeAt(s: State, list: seq<nat>, i: nat, p: Place) {
    && i < |list| && list[i] == p.bkt < |s.cells| && p.slot < ENTRIES && FullRows(s.cells, list[..i])
    && forall j :: 0 <= j < p.slot ==> s.cells[p.bkt][j].idx != EMPTY
  }

  /** The locked region of the move: the leaf's slot is still empty; then the key is found, or the walk goes back along
      the path that was searched, and is refused or not. */
  ghost predicate TryTurn(P: Params, s: State, x: Slot, second: bool, q: seq<Node>, a: Act, kept: bool, g: Phase) {
    && q != [] && Tree(P, q, |q|, FromOf(P, x, second))
    && In(s.cells, LeafOf(q)) && At(s.cells, LeafOf(q)).idx == EMPTY
    && if a.Update? then a.x == x && g == Back
       else
         && a == Move(x, FromOf(P, x, second), OtherOf(P, x, second), LeafOf(q),
                      Path(P, q, |q|, FromOf(P, x, second), (|q| - 1) / 8))
         && g == if kept then Seek(x, second, q, true) else Out
  }

  /** The locked region for the extendable buckets. */
  ghost predicate LastTurn(P: Params, s: State, x: Slot, a: Act) {
    match a
    case Update(v, _) => v == x
    case Chain(v, p) => v == x && FirstFree(P, s, x, p)
    case Extend(v) => v == x
    case Leak => NotSeen(P, s, x) && ListFull(P, s, SecOf(P, x.key))
    case _ => false
  }

  /** `kept`: the writer still has its slot after the action. */
  ghost predicate SharedTurn(P: Params, s: State, f: Phase, e: Event, kept: bool, g: Phase) {
    match f
    case Out => e.Do? && e.a.Update? && g == Out
    case Looked(x) => if e.Do? && e.a.Fill? then e.a.x == x && g == Filled(x)
      else (e.Look? || (e.Do? && e.a.Take?)) && g == f
    case Filled(x) => e.Do? && (e.a.Update? || e.a.Insert?) && e.a.x == x && g == if e.a.Update? then Back else Out
    case Try(x, second, q) => e.Do? && TryTurn(P, s, x, second, q, e.a, kept, g)
    case Last(x) => e.Do? && P.extra > 0 && LastTurn(P, s, x, e.a) && g == if e.a.Update? then Back else Out
    case Back => if e.Do? then e.a.Free? && g == Out else e.Aim? && g == Back
    case Seek(_, _, _, _) => false
  }

  ghost predicate PStep(P: Params, p: Prog, t: Turn, r: Prog) {
    match t
    case Local(w) => r == Prog(p.y, p.pc[w := PhaseOf(r, w)]) && LocalTurn(P, p.y.s, PhaseOf(p, w), PhaseOf(r, w))
    case Shared(e) =>
      && r.pc == p.pc[e.w := PhaseOf(r, e.w)] && Step(P, p.y, e, r.y)
      && SharedTurn(P, p.y.s, PhaseOf(p, e.w), e, e.w in r.y.own, PhaseOf(r, e.w))
  }

  ghost predicate PRun(P: Params, ps: seq<Prog>, ts: seq<Turn>) {
    |ps| == |ts| + 1 && forall i :: 0 <= i < |ts| ==> PStep(P, ps[i], ts[i], ps[i + 1])
  }

  ghost predicate ApartAll(ps: seq<Prog>) { forall i :: 0 <= i < |ps| ==> Apart(ps[i].y) }

  ghost function Begin(P: Params): Prog { Prog(Start(P), map[]) }

  /** Some run of the program from the new table, without overlapping calls on the free ring, ends in p. */
  ghost predicate Reach(P: Params, p: Prog) {
    exists ps: seq<Prog>, ts: seq<Turn> :: PRun(P, ps, ts) && ApartAll(ps) && ps[0] == Begin(P) && ps[|ps| - 1] == p
  }

  lemma ReachBegin(P: Params)
    ensures Reach(P, Begin(P))
  {
    StartOk(P);
    var ps: seq<Prog>, ts: seq<Turn> := [Begin(P)], [];
    assert PRun(P, ps, ts) && ApartAll(ps) && ps[0] == Begin(P) && ps[|ps| - 1] == Begin(P);
  }

  lemma ReachMore(P: Params, p: Prog, t: Turn, r: Prog)
    requires Reach(P, p) && PStep(P, p, t, r) && Apart(r.y)
    ensures Reach(P, r)
  {
    var ps: seq<Prog>, ts: seq<Turn> :|
      PRun(P, ps, ts) && ApartAll(ps) && ps[0] == Begin(P) && ps[|ps| - 1] == p;
    var qs, us := ps + [r], ts + [t];
    forall i | 0 <= i < |us| ensures PStep(P, qs[i], us[i], qs[i + 1]) {
      if i < |ts| { assert PStep(P, ps[i], ts[i], ps[i + 1]); }
    }
    assert PRun(P, qs, us) && ApartAll(qs) && qs[0] == Begin(P) && qs[|qs| - 1] == r;
  }

  // ---------------------------------------------------------------- the program is a system of writers

  /** What program runs do to the table is a run of the writers' actions ... */
  lemma {:induction false} RunLeads(P: Params, ps: seq<Prog>, ts: seq<Turn>, i: nat)
    requires PRun(P, ps, ts) && ApartAll(ps) && ps[0] == Begin(P) && i < |ps|
    ensures Leads(P, Start(P), ps[i].y)
  {
    if i == 0 {
      LeadsSelf(P, Start(P));
    } else {
      RunLeads(P, ps, ts, i - 1);
      assert PStep(P, ps[i - 1], ts[i - 1], ps[i - 1 + 1]);
      if ts[i - 1].Shared? { LeadsMore(P, Start(P), ps[i - 1].y, ts[i - 1].e, ps[i].y); }
    }
  }

  /** ... so all that holds for those holds for the program. */
  lemma ReachOk(P: Params, p: Prog)
    requires Reach(P, p)
    ensures Leads(P, Start(P), p.y) && SysOk(P, p.y) && Apart(p.y)
  {
    var ps: seq<Prog>, ts: seq<Turn> :|
      PRun(P, ps, ts) && ApartAll(ps) && ps[0] == Begin(P) && ps[|ps| - 1] == p;
    RunLeads(P, ps, ts, |ps| - 1);
    StartOk(P);
    LeadsOk(P, Start(P), p.y);
  }

  // ---------------------------------------------------------------- single turns

  lemma LocalReach(P: Params, p: Prog, w: Wid, g: Phase) returns (r: Prog)
    requires Reach(P, p) && LocalTurn(P, p.y.s, PhaseOf(p, w), g)
    ensures Reach(P, r) && r == Prog(p.y, p.pc[w := g])
  {
    ReachOk(P, p);
    r := Prog(p.y, p.pc[w := g]);
    assert PStep(P, p, Local(w), r);
    ReachMore(P, p, Local(w), r);
  }

  lemma SharedReach(P: Params, p: Prog, e: Event, z: Sys, g: Phase) returns (r: Prog)
    requires Reach(P, p) && Step(P, p.y, e, z) && Apart(z)
    requires SharedTurn(P, p.y.s, PhaseOf(p, e.w), e, e.w in z.own, g)
    ensures Reach(P, r) && r == Prog(z, p.pc[e.w := g])
  {
    r := Prog(z, p.pc[e.w := g]);
    assert PStep(P, p, Shared(e), r);
    ReachMore(P, p, Shared(e), r);
  }

  lemma Again(m: map<Wid, Phase>, w: Wid, f: Phase, g: Phase)
    ensures m[w := f][w := g] == m[w := g]
  {
  }

  /** No call on the free ring is under way. */
  predicate Calm(y: Sys) { y.deq == map[] && y.enq == map[] }

  lemma GetLook(P: Params, p: Prog, w: Wid) returns (r: Prog)
    requires Reach(P, p) && PhaseOf(p, w).Looked? && w !in p.y.own && Calm(p.y) && p.y.s.freeSlots != []
    ensures Reach(P, r) && r == Prog(p.y.(deq := map[w := p.y.head]), p.pc[w := PhaseOf(p, w)])
  {
    ReachOk(P, p);
    r := SharedReach(P, p, Look(w), p.y.(deq := map[w := p.y.head]), PhaseOf(p, w));
  }

  lemma GetTake(P: Params, p: Prog, w: Wid) returns (r: Prog)
    requires Reach(P, p) && PhaseOf(p, w).Looked? && w !in p.y.own && p.y.deq == map[w := p.y.head]
    ensures p.y.s.freeSlots != [] && Reach(P, r)
    ensures r == Prog(p.y.(s := p.y.s.(freeSlots := p.y.s.freeSlots[1..]), own := p.y.own[w := p.y.s.freeSlots[0]],
                           head := p.y.head + 1, deq := map[]), p.pc[w := PhaseOf(p, w)])
  {
    ReachOk(P, p);
    var y := p.y;
    assert w in y.deq && y.head < |y.log| && y.s.freeSlots[0] == y.log[y.head];
    var z := y.(s := y.s.(freeSlots := y.s.freeSlots[1..]), own := y.own[w := y.s.freeSlots[0]],
                head := y.head + 1, deq := map[]);
    assert y.deq - {w} == map[] && y.log[y.head + 1..] == y.s.freeSlots[1..];
    assert Takes(y, w, z);
    r := SharedReach(P, p, Do(w, Take), z, PhaseOf(p, w));
  }

  lemma GetOwn(P: Params, p: Prog, w: Wid, x: Slot) returns (r: Prog)
    requires Reach(P, p) && PhaseOf(p, w) == Looked(x) && w !in p.y.own && Calm(p.y) && p.y.s.freeSlots != []
    ensures Reach(P, r)
    ensures r == Prog(p.y.(s := p.y.s.(freeSlots := p.y.s.freeSlots[1..]), own := p.y.own[w := p.y.s.freeSlots[0]],
                           head := p.y.head + 1), p.pc[w := Looked(x)])
  {
    var a := GetLook(P, p, w);
    r := GetTake(P, a, w);
    Again(p.pc, w, Looked(x), Looked(x));
  }

  lemma GetFill(P: Params, p: Prog, w: Wid, x: Slot) returns (r: Prog)
    requires Reach(P, p) && PhaseOf(p, w) == Looked(x) && w in p.y.own && Calm(p.y)
    ensures 0 < p.y.own[w] < |p.y.s.store| && Reach(P, r)
    ensures r == Prog(p.y.(s := p.y.s.(store := p.y.s.store[p.y.own[w] := x]), want := p.y.want[w := x]),
                      p.pc[w := Filled(x)])
  {
    ReachOk(P, p);
    var y := p.y;
    assert y.own[w] in Loose(P, y.s);
    var z := y.(s := y.s.(store := y.s.store[y.own[w] := x]), want := y.want[w := x]);
    assert Does(P, y, w, Fill(x), z, y.own[w]);
    r := SharedReach(P, p, Do(w, Fill(x)), z, Filled(x));
  }

  /** A writer that did not find its key takes the first free slot and fills it. */
  lemma GetSlot(P: Params, p: Prog, w: Wid, x: Slot) returns (r: Prog)
    requires Reach(P, p) && PhaseOf(p, w) == Out && w !in p.y.own && Calm(p.y) && p.y.s.freeSlots != []
    requires x.key != P.dummy && NotSeen(P, p.y.s, x)
    ensures 0 < p.y.s.freeSlots[0] < |p.y.s.store| && Reach(P, r)
    ensures var y := p.y; var k := y.s.freeSlots[0];
      r == Prog(y.(s := y.s.(freeSlots := y.s.freeSlots[1..], store := y.s.store[k := x]), own := y.own[w := k],
                   want := y.want[w := x], head := y.head + 1), p.pc[w := Filled(x)])
  {
    var a := LocalReach(P, p, w, Looked(x));
    var b := GetOwn(P, a, w, x);
    r := GetFill(P, b, w, x);
    Again(p.pc, w, Looked(x), Filled(x));
  }

  /** A writer with a slot puts it into the table. */
  lemma PlaceReach(P: Params, p: Prog, w: Wid, a: Act, s: State, m: nat, g: Phase) returns (r: Prog)
    requires Reach(P, p) && Calm(p.y) && w in p.y.own && w in p.y.want && a.Places() && p.y.want[w] == a.x
    requires Acts(P, p.y.s, p.y.own[w], a, s, m) && SharedTurn(P, p.y.s, PhaseOf(p, w), Do(w, a), m != 0, g)
    ensures Reach(P, r) && r == Prog(Now(p.y, s, w, m), p.pc[w := g]) && Rely(P, p.y.s, s, {})
  {
    var z := Now(p.y, s, w, m);
    assert Does(P, p.y, w, a, z, m);
    ReachOk(P, p);
    StepKeeps(P, p.y, Do(w, a), z);
    RelyNone(P, p.y.s, s, Loose(P, p.y.s) - Keep(SlotOf(p.y, w)));
    r := SharedReach(P, p, Do(w, a), z, g);
  }

  // ---------------------------------------------------------------- searching

  /** Node k of the search whose buckets are f(0), f(1), ... */
  function NodeAt(f: nat -> nat, k: int): Node {
    if k <= 0 then Root(f(0)) else Node(f(k), f(k), (k - 1) / 8, (k - 1) % 8)
  }

  function Queue(f: nat -> nat, n: nat): (q: seq<Node>)
    ensures |q| == n && forall k :: 0 <= k < n ==> q[k] == NodeAt(f, k)
  {
    seq(n, k => NodeAt(f, k))
  }

  /** Slot k of the search f is taken, by an entry that leads to node k + 1. */
  ghost predicate Told(P: Params, cells: Buckets, f: nat -> nat, k: nat) {
    && f(k / 8) < Main(P) <= |cells|
    && var c := cells[f(k / 8)][k % 8]; c.idx != EMPTY && Alt(f(k / 8), c.sig, P.order) == f(k + 1)
  }

  ghost predicate ToldAll(P: Params, cells: Buckets, f: nat -> nat, n: nat, m: nat) {
    forall k: nat :: n <= k < m ==> Told(P, cells, f, k)
  }

  lemma QueueNext(f: nat -> nat, n: nat)
    ensures Queue(f, n + 1) + [NodeAt(f, n + 1)] == Queue(f, n + 2)
  {
  }

  /** Reading one slot. */
  lemma ReadSlot(P: Params, p: Prog, w: Wid, x: Slot, second: bool, f: nat -> nat, n: nat) returns (r: Prog)
    requires Reach(P, p) && PhaseOf(p, w) == Seek(x, second, Queue(f, n + 1), false) && Told(P, p.y.s.cells, f, n)
    ensures Reach(P, r) && r == Prog(p.y, p.pc[w := Onward(P, x, second, Queue(f, n + 2))])
  {
    var q := Queue(f, n + 1);
    assert q[n / 8].bkt == q[n / 8].cur == f(n / 8);
    var a := LocalReach(P, p, w, Seek(x, second, q, true));
    QueueNext(f, n);
    r := LocalReach(P, a, w, Onward(P, x, second, Queue(f, n + 2)));
    Again(p.pc, w, Seek(x, second, q, true), PhaseOf(r, w));
  }

  /** Reading the slots from n to m of an unchanged table. */
  lemma {:induction false} ReadOn(P: Params, p: Prog, w: Wid, x: Slot, second: bool, f: nat -> nat, n: nat, m: nat)
    returns (r: Prog)
    requires Reach(P, p) && PhaseOf(p, w) == Seek(x, second, Queue(f, n + 1), false)
    requires ToldAll(P, p.y.s.cells, f, n, m) && n < m < FULLQUEUE
    ensures Reach(P, r) && r == Prog(p.y, p.pc[w := Onward(P, x, second, Queue(f, m + 1))])
    decreases m - n
  {
    assert Told(P, p.y.s.cells, f, n);
    r := ReadSlot(P, p, w, x, second, f, n);
    if n + 1 < m {
      var g := PhaseOf(r, w);
      r := ReadOn(P, r, w, x, second, f, n + 1, m);
      Again(p.pc, w, g, PhaseOf(r, w));
    }
  }

  /** Reading a slot as empty. */
  lemma ReadEmpty(P: Params, p: Prog, w: Wid, x: Slot, second: bool, f: nat -> nat, n: nat) returns (r: Prog)
    requires Reach(P, p) && PhaseOf(p, w) == Seek(x, second, Queue(f, n + 1), false)
    requires f(n / 8) < |p.y.s.cells| && p.y.s.cells[f(n / 8)][n % 8].idx == EMPTY
    ensures Reach(P, r) && r == Prog(p.y, p.pc[w := Try(x, second, Queue(f, n + 1))])
  {
    r := LocalReach(P, p, w, Try(x, second, Queue(f, n + 1)));
  }

  /** What the search reads is the search of this table, with no empty slot found. */
  lemma ToldCurrent(P: Params, cells: Buckets, f: nat -> nat, n: nat, tail: nat, i: nat)
    requires ToldAll(P, cells, f, 0, 8 * tail + i) && i <= ENTRIES && 8 * tail + 1 + i <= n && |cells| >= Main(P)
    ensures Current(P, cells, Queue(f, n), tail, i)
  {
    var q := Queue(f, n);
    forall x: nat, s: nat | s < ENTRIES && 8 * x + 1 + s < 8 * tail + 1 + i ensures Child(P, cells, q, x, s) {
      assert Told(P, cells, f, 8 * x + s);
    }
    forall x: nat | x < tail ensures q[x].bkt < Main(P) && FullRow(cells, q[x].bkt) {
      assert Told(P, cells, f, 8 * x);
      forall s | 0 <= s < ENTRIES ensures cells[q[x].bkt][s].idx != EMPTY { assert Told(P, cells, f, 8 * x + s); }
    }
    if i > 0 {
      assert Told(P, cells, f, 8 * tail);
      forall s | 0 <= s < i ensures cells[q[tail].bkt][s].idx != EMPTY { assert Told(P, cells, f, 8 * tail + s); }
    }
  }

  /** The path to a node, parent by parent. */
  lemma QueuePath(P: Params, f: nat -> nat, n: nat, k: nat)
    requires 0 < k < n && forall j :: 0 <= j < n ==> f(j) < Main(P)
    ensures Tree(P, Queue(f, n), n, f(0)) && (k - 1) / 8 < n
    ensures Path(P, Queue(f, n), n, f(0), k)
      == [Place(f((k - 1) / 8), (k - 1) % 8)] + Path(P, Queue(f, n), n, f(0), (k - 1) / 8)
  {
    QueueTree(P, f, n);
    PathStep(P, Queue(f, n), n, f(0), k);
  }

  lemma QueueTree(P: Params, f: nat -> nat, n: nat)
    requires n > 0 && forall k :: 0 <= k < n ==> f(k) < Main(P)
    ensures Tree(P, Queue(f, n), n, f(0))
  {
    forall i | 0 <= i < n ensures NodeOk(P, Queue(f, n), i, f(0)) { }
  }

  /** Writer w has taken slot k for x. */
  ghost predicate Has(y: Sys, w: Wid, k: nat, x: Slot) { w in y.own && y.own[w] == k && w in y.want && y.want[w] == x }

  lemma TakenLoose(P: Params, p: Prog, w: Wid, k: nat, x: Slot)
    requires Reach(P, p) && Has(p.y, w, k, x)
    ensures Good(P, p.y.s) && k in Loose(P, p.y.s) && k < |p.y.s.store| && p.y.s.store[k] == x && k > 0
  {
    ReachOk(P, p);
    assert p.y.own[w] in Loose(P, p.y.s);
  }

  /** The path that the search read, from its last node. */
  ghost function PathOf(P: Params, f: nat -> nat, n: nat): (path: seq<Place>)
    requires forall j :: 0 <= j <= n ==> f(j) < Main(P)
    ensures forall p :: p in path ==> p.bkt < Main(P) && p.slot < ENTRIES
    ensures f(0) == if path == [] then f(n / 8) else path[|path| - 1].bkt
  {
    QueueTree(P, f, n + 1);
    Path(P, Queue(f, n + 1), n + 1, f(0), n / 8)
  }

  /** What the walk from slot n of the search leaves. */
  ghost function WalkOf(P: Params, s: State, k: nat, x: Slot, f: nat -> nat, n: nat): Outcome
    requires (forall j :: 0 <= j <= n ==> f(j) < Main(P)) && |s.cells| >= Main(P)
  {
    Displace(s.cells, P.order, Place(f(n / 8), n % 8), PathOf(P, f, n), EntryOf(P, x, k))
  }

  lemma WalkActs(P: Params, s: State, k: nat, x: Slot, second: bool, f: nat -> nat, n: nat) returns (a: Act)
    requires (forall j :: 0 <= j <= n ==> f(j) < Main(P)) && |s.cells| >= Main(P) && f(0) == FromOf(P, x, second)
    requires s.cells[f(n / 8)][n % 8].idx == EMPTY && k > 0
    requires UnseenSome(P, s, x.key, FromOf(P, x, second), OtherOf(P, x, second))
    ensures a == Move(x, FromOf(P, x, second), OtherOf(P, x, second), Place(f(n / 8), n % 8), PathOf(P, f, n))
    ensures var o := WalkOf(P, s, k, x, f, n); Acts(P, s, k, a, s.(cells := o.t), if o.Inserted? then 0 else k)
  {
    a := Move(x, FromOf(P, x, second), OtherOf(P, x, second), Place(f(n / 8), n % 8), PathOf(P, f, n));
    assert CanMove(P, s, x, a.from, a.other, a.hole, a.path);
  }

  lemma WalkTurn(P: Params, s: State, x: Slot, second: bool, f: nat -> nat, n: nat, kept: bool)
    requires (forall j :: 0 <= j <= n ==> f(j) < Main(P)) && |s.cells| >= Main(P) && f(0) == FromOf(P, x, second)
    requires s.cells[f(n / 8)][n % 8].idx == EMPTY
    ensures var q := Queue(f, n + 1);
      TryTurn(P, s, x, second, q,
              Move(x, FromOf(P, x, second), OtherOf(P, x, second), Place(f(n / 8), n % 8), PathOf(P, f, n)),
              kept, if kept then Seek(x, second, q, true) else Out)
  {
    QueueTree(P, f, n + 1);
  }

  /** The locked region of the move, when it does not find the key. */
  lemma WalkReach(P: Params, p: Prog, w: Wid, k: nat, x: Slot, second: bool, f: nat -> nat, n: nat) returns (r: Prog)
    requires Reach(P, p) && Calm(p.y) && PhaseOf(p, w) == Try(x, second, Queue(f, n + 1)) && Has(p.y, w, k, x) && k > 0
    requires (forall j :: 0 <= j <= n ==> f(j) < Main(P)) && |p.y.s.cells| >= Main(P) && f(0) == FromOf(P, x, second)
    requires p.y.s.cells[f(n / 8)][n % 8].idx == EMPTY
    requires UnseenSome(P, p.y.s, x.key, FromOf(P, x, second), OtherOf(P, x, second))
    ensures Reach(P, r) && Rely(P, p.y.s, r.y.s, {})
    ensures var o := WalkOf(P, p.y.s, k, x, f, n);
      r == Prog(Now(p.y, p.y.s.(cells := o.t), w, if o.Inserted? then 0 else k),
                p.pc[w := if o.Inserted? then Out else Seek(x, second, Queue(f, n + 1), true)])
  {
    var o := WalkOf(P, p.y.s, k, x, f, n);
    var a := WalkActs(P, p.y.s, k, x, second, f, n);
    WalkTurn(P, p.y.s, x, second, f, n, o.Refused?);
    var g := if o.Inserted? then Out else Seek(x, second, Queue(f, n + 1), true);
    r := PlaceReach(P, p, w, a, p.y.s.(cells := o.t), if o.Inserted? then 0 else k, g);
  }

  /** If the walk is not refused, exactly the new entry came in. */
  lemma WalkAdds(P: Params, s: State, k: nat, x: Slot, second: bool, f: nat -> nat, n: nat)
    requires (forall j :: 0 <= j <= n ==> f(j) < Main(P)) && |s.cells| >= Main(P) && f(0) == FromOf(P, x, second)
    requires s.cells[f(n / 8)][n % 8].idx == EMPTY && k > 0
    requires UnseenSome(P, s, x.key, FromOf(P, x, second), OtherOf(P, x, second))
    requires Good(P, s) && k in Loose(P, s) && k < |s.store| && s.store[k] == x && WalkOf(P, s, k, x, f, n).Inserted?
    ensures Added(P, s, s.(cells := WalkOf(P, s, k, x, f, n).t), k)
  {
    var a := WalkActs(P, s, k, x, second, f, n);
    MoveTable(P, s, k, a, s.(cells := WalkOf(P, s, k, x, f, n).t));
  }
}
