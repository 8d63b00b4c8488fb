/** Any number of writers at work on one table, and the two rings of free slots as the writers use them:
    with the single-threaded calls, outside the lock. */
module CuckooSystem {
  import opened CuckooCells
  import opened CuckooState
  import opened CuckooRely
  import opened CuckooWriters

  type Wid = nat

  /** The table; the slots that writers have taken, and what they filled them with; the slots lost to
      failed adds; all that was ever put into the ring of free slots and how much of it was taken; and
      the calls on that ring that are under way, with the head or tail they loaded. */
  datatype Sys = Sys(s: State, own: map<Wid, nat>, want: map<Wid, Slot>, lost: set<nat>,
                     log: seq<nat>, head: nat, deq: map<Wid, nat>, enq: map<Wid, nat>)

  /** A writer enters alloc_slot or enqueue_slot_back and loads head or tail; all else is an action. The
      free ring's counters are stored by the actions Take and Free. */
  datatype Event = Look(w: Wid) | Aim(w: Wid) | Do(w: Wid, a: Act)

  ghost function SlotOf(y: Sys, w: Wid): nat { if w in y.own then y.own[w] else 0 }

  /** After writer w's slot became m (0: given away). */
  ghost function Now(y: Sys, s: State, w: Wid, m: nat): Sys {
    if m == 0 then y.(s := s, own := y.own - {w}, want := y.want - {w}) else y.(s := s)
  }

  /** The head is stored without comparing: it becomes one more than what was loaded. */
  ghost predicate Takes(y: Sys, w: Wid, z: Sys) {
    && w in y.deq && w !in y.own && y.deq[w] < |y.log|
    && z == y.(s := y.s.(freeSlots := y.log[y.deq[w] + 1..]), head := y.deq[w] + 1,
               own := y.own[w := y.log[y.deq[w]]], deq := y.deq - {w})
  }

  ghost predicate Frees(y: Sys, w: Wid, z: Sys) {
    && w in y.enq && w in y.own && y.enq[w] <= |y.log| && y.head <= y.enq[w]
    && var log := y.log[..y.enq[w]] + [y.own[w]];
    z == y.(s := y.s.(freeSlots := log[y.head..]), log := log,
            own := y.own - {w}, want := y.want - {w}, enq := y.enq - {w})
  }

  /** Any other action of a writer with a slot; what it inserts is what it filled the slot with. */
  ghost predicate Does(P: Params, y: Sys, w: Wid, a: Act, z: Sys, m: nat) {
    && w in y.own && w !in y.enq && (a.Places() ==> w in y.want && y.want[w] == a.x)
    && Acts(P, y.s, y.own[w], a, z.s, m)
    && z == if a.Fill? then y.(s := z.s, want := y.want[w := a.x])
            else if a.Leak? then Now(y, z.s, w, 0).(lost := y.lost + {y.own[w]}) else Now(y, z.s, w, m)
  }

  ghost predicate Step(P: Params, y: Sys, e: Event, z: Sys) {
    match e
    case Look(w) => w !in y.own && w !in y.deq && y.head < |y.log| && z == y.(deq := y.deq[w := y.head])
    case Aim(w) => w in y.own && w !in y.enq && z == y.(enq := y.enq[w := |y.log|])
    case Do(w, Take) => Takes(y, w, z)
    case Do(w, Free) => Frees(y, w, z)
    case Do(w, Update(x, ret)) => Updated(P, y.s, z.s, x, ret) && z == y.(s := z.s)
    case Do(w, a) => exists m :: Does(P, y, w, a, z, m)
  }

  /** No two calls on the same end of the ring of free slots overlap. */
  ghost predicate Apart(y: Sys) {
    (forall u, v :: u in y.deq && v in y.deq ==> u == v) && (forall u, v :: u in y.enq && v in y.enq ==> u == v)
  }

  // ---------------------------------------------------------------- invariant

  /** Of the slots that are neither free nor in the table, each is taken by exactly one writer or lost. */
  ghost predicate Accounted(own: map<Wid, nat>, lost: set<nat>, loose: set<nat>) {
    && (forall u :: u in own ==> own[u] > 0 && own[u] in loose && own[u] !in lost)
    && (forall u, v :: u in own && v in own && own[u] == own[v] ==> u == v)
    && lost <= loose
    && (forall k :: k in loose && k !in lost ==> k in own.Values)
  }

  ghost predicate FreeRing(y: Sys) {
    && y.head <= |y.log| && y.s.freeSlots == y.log[y.head..]
    && (forall u :: u in y.deq ==> u !in y.own && y.deq[u] == y.head < |y.log|)
    && (forall u :: u in y.enq ==> u in y.own && y.enq[u] == |y.log|)
  }

  ghost predicate Wants(y: Sys) {
    forall u :: u in y.want ==> u in y.own && y.own[u] < |y.s.store| && y.s.store[y.own[u]] == y.want[u]
  }

  ghost predicate SysOk(P: Params, y: Sys) {
    Good(P, y.s) && Accounted(y.own, y.lost, Loose(P, y.s)) && FreeRing(y) && Wants(y)
  }

  ghost function Start(P: Params): Sys {
    Sys(Initial(P), map[], map[], {}, Initial(P).freeSlots, 0, map[], map[])
  }

  lemma StartOk(P: Params)
    ensures SysOk(P, Start(P)) && Apart(Start(P))
  {
    InitialIsGood(P);
  }

  /** What any other writer relies on, from y to z by an event of w. */
  ghost predicate Leaves(P: Params, y: Sys, w: Wid, z: Sys) {
    Rely(P, y.s, z.s, Loose(P, y.s) - Keep(SlotOf(y, w))) && forall u :: u != w ==> SlotOf(z, u) == SlotOf(y, u)
  }

  lemma AccountMoves(own: map<Wid, nat>, lost: set<nat>, loose: set<nat>, w: Wid, m: nat, leak: bool)
    returns (own': map<Wid, nat>, lost': set<nat>, loose': set<nat>)
    requires Accounted(own, lost, loose) && (leak ==> m == 0)
    requires var k := if w in own then own[w] else 0; m != 0 && m != k ==> k == 0 && m !in loose
    ensures var k := if w in own then own[w] else 0;
      && own' == (if m == 0 then own - {w} else own[w := m])
      && lost' == (if leak then lost + Keep(k) else lost)
      && loose' == (if leak then loose else loose - Keep(k) + Keep(m))
    ensures Accounted(own', lost', loose')
  {
    var k := if w in own then own[w] else 0;
    own' := if m == 0 then own - {w} else own[w := m];
    lost' := if leak then lost + Keep(k) else lost;
    loose' := if leak then loose else loose - Keep(k) + Keep(m);
    forall j | j in loose' && j !in lost' ensures j in own'.Values {
      if j == m {
        assert own'[w] == m;
      } else {
        assert j in own.Values;
        var u :| u in own && own[u] == j;
        assert own'[u] == j;
      }
    }
  }

  /** An action of w in a system: slots stay accounted for, and nobody else's slot or entry is touched. */
  lemma GuaranteeAccounts(P: Params, y: Sys, w: Wid, a: Act, z: Sys, m: nat)
    requires Accounted(y.own, y.lost, Loose(P, y.s))
    requires Loose(P, z.s) == if a.Leak? then Loose(P, y.s) else Loose(P, y.s) - Keep(SlotOf(y, w)) + Keep(m)
    requires a.Take? ==> m !in Loose(P, y.s)
    requires z.own == if m == 0 then y.own - {w} else y.own[w := m]
    requires z.lost == if a.Leak? then y.lost + Keep(SlotOf(y, w)) else y.lost
    requires if a.Take? then SlotOf(y, w) == 0 else m == 0 || m == SlotOf(y, w)
    requires a.Leak? ==> m == 0
    ensures Accounted(z.own, z.lost, Loose(P, z.s))
  {
    var o, t, e := AccountMoves(y.own, y.lost, Loose(P, y.s), w, m, a.Leak?);
  }

  lemma GuaranteeKeeps(P: Params, y: Sys, w: Wid, a: Act, z: Sys, m: nat)
    requires Accounted(y.own, y.lost, Loose(P, y.s)) && Guarantee(P, y.s, SlotOf(y, w), a, z.s, m)
    requires z.own == if m == 0 then y.own - {w} else y.own[w := m]
    requires z.lost == if a.Leak? then y.lost + Keep(SlotOf(y, w)) else y.lost
    requires if a.Take? then SlotOf(y, w) == 0 else m == 0 || m == SlotOf(y, w)
    requires a.Leak? ==> m == 0
    ensures Accounted(z.own, z.lost, Loose(P, z.s)) && Leaves(P, y, w, z)
  {
    GuaranteeAccounts(P, y, w, a, z, m);
  }

  lemma WantsKept(P: Params, y: Sys, w: Wid, z: Sys)
    requires Accounted(y.own, y.lost, Loose(P, y.s)) && Wants(y) && Leaves(P, y, w, z)
    requires forall u :: u in z.want && u != w ==> u in y.want && z.want[u] == y.want[u]
    requires w in z.want ==> w in z.own && z.own[w] < |z.s.store| && z.s.store[z.own[w]] == z.want[w]
    ensures Wants(z)
  {
    forall u | u in z.want ensures u in z.own && z.own[u] < |z.s.store| && z.s.store[z.own[u]] == z.want[u] {
      if u != w {
        assert SlotOf(z, u) == SlotOf(y, u) == y.own[u];
        assert y.own[u] in Loose(P, y.s) - Keep(SlotOf(y, w));
      }
    }
  }

  lemma TakeSteps(P: Params, y: Sys, w: Wid, z: Sys)
    requires SysOk(P, y) && Apart(y) && Takes(y, w, z)
    ensures SysOk(P, z) && Leaves(P, y, w, z)
  {
    assert z.s == y.s.(freeSlots := y.s.freeSlots[1..]) && y.log[y.head] == y.s.freeSlots[0];
    assert w !in y.want;
    TakeKeeps(P, y.s, z.s);
    GuaranteeKeeps(P, y, w, Take, z, y.s.freeSlots[0]);
    WantsKept(P, y, w, z);
  }

  lemma FreeSteps(P: Params, y: Sys, w: Wid, z: Sys)
    requires SysOk(P, y) && Apart(y) && Frees(y, w, z)
    ensures SysOk(P, z) && Leaves(P, y, w, z)
  {
    assert z.s == y.s.(freeSlots := y.s.freeSlots + [y.own[w]]);
    ReturnKeeps(P, y.s, y.own[w], z.s);
    GuaranteeKeeps(P, y, w, Free, z, 0);
    WantsKept(P, y, w, z);
  }

  /** What the table actions do not touch. */
  ghost predicate Facts(s: State, k: nat, a: Act, r: State, m: nat) {
    && r.freeSlots == s.freeSlots && (m == 0 || m == k)
    && (a.Places() || a.Leak? ==> r.store == s.store)
    && (a.Fill? ==> m == k && k < |r.store| && r.store[k] == a.x)
    && (a.Leak? ==> m == 0)
  }

  lemma ActBoth(P: Params, s: State, k: nat, a: Act, r: State, m: nat)
    requires Good(P, s) && Keep(k) <= Loose(P, s) && Ready(s, k, a) && !a.Take? && !a.Free? && Acts(P, s, k, a, r, m)
    ensures Guarantee(P, s, k, a, r, m) && Facts(s, k, a, r, m)
  {
    ActKeeps(P, s, k, a, r, m);
  }

  /** A writer that is not giving a slot back may lose it without disturbing the free ring. */
  lemma RingKept(y: Sys, w: Wid, z: Sys)
    requires FreeRing(y) && w !in y.enq && z.own == y.own - {w} && z.s.freeSlots == y.s.freeSlots
    requires z.log == y.log && z.head == y.head && z.deq == y.deq && z.enq == y.enq
    ensures FreeRing(z)
  {
  }

  lemma WantsLess(P: Params, y: Sys, w: Wid, z: Sys)
    requires Accounted(y.own, y.lost, Loose(P, y.s)) && Wants(y) && Leaves(P, y, w, z) && z.want == y.want - {w}
    ensures Wants(z)
  {
    WantsKept(P, y, w, z);
  }

  /** The writer's slot went into the table ... */
  lemma LeaveSteps(P: Params, y: Sys, w: Wid, a: Act, z: Sys)
    requires Accounted(y.own, y.lost, Loose(P, y.s)) && FreeRing(y) && Wants(y) && w in y.own && w !in y.enq
    requires !a.Take? && !a.Leak? && Guarantee(P, y.s, y.own[w], a, z.s, 0) && z.s.freeSlots == y.s.freeSlots
    requires z == y.(s := z.s, own := y.own - {w}, want := y.want - {w})
    ensures SysOk(P, z) && Leaves(P, y, w, z)
  {
    RingKept(y, w, z);
    GuaranteeKeeps(P, y, w, a, z, 0);
    WantsLess(P, y, w, z);
  }

  lemma LeakRely(P: Params, y: Sys, w: Wid, z: Sys)
    requires Good(P, y.s) && z.s == y.s && z.own == y.own - {w}
    ensures Leaves(P, y, w, z)
  {
    RelySelf(P, y.s, Loose(P, y.s) - Keep(SlotOf(y, w)));
  }

  /** ... or is lost. */
  lemma LeakSteps(P: Params, y: Sys, w: Wid, z: Sys)
    requires SysOk(P, y) && w in y.own && w !in y.enq
    requires z == y.(own := y.own - {w}, want := y.want - {w}, lost := y.lost + {y.own[w]})
    ensures SysOk(P, z) && Leaves(P, y, w, z)
  {
    RingKept(y, w, z);
    var o, t, e := AccountMoves(y.own, y.lost, Loose(P, y.s), w, 0, true);
    LeakRely(P, y, w, z);
    WantsLess(P, y, w, z);
  }

  /** The writer keeps its slot, if it has one. */
  lemma StaySteps(P: Params, y: Sys, w: Wid, a: Act, z: Sys)
    requires Accounted(y.own, y.lost, Loose(P, y.s)) && FreeRing(y) && Wants(y)
    requires !a.Take? && !a.Leak? && Guarantee(P, y.s, SlotOf(y, w), a, z.s, SlotOf(y, w))
    requires z.s.freeSlots == y.s.freeSlots && z == y.(s := z.s, want := z.want)
    requires forall u :: u in z.want && u != w ==> u in y.want && z.want[u] == y.want[u]
    requires w in z.want ==> w in z.own && z.own[w] < |z.s.store| && z.s.store[z.own[w]] == z.want[w]
    ensures SysOk(P, z) && Leaves(P, y, w, z)
  {
    assert if w in y.own then y.own[w := y.own[w]] == y.own else y.own - {w} == y.own;
    GuaranteeKeeps(P, y, w, a, z, SlotOf(y, w));
    WantsKept(P, y, w, z);
  }

  lemma UpdateSteps(P: Params, y: Sys, w: Wid, x: Slot, ret: int, z: Sys)
    requires SysOk(P, y) && Updated(P, y.s, z.s, x, ret) && z == y.(s := z.s)
    ensures SysOk(P, z) && Leaves(P, y, w, z)
  {
    UpdateKeeps(P, y.s, SlotOf(y, w), x, ret, z.s);
    StaySteps(P, y, w, Update(x, ret), z);
  }

  lemma GiveSteps(P: Params, y: Sys, w: Wid, a: Act, z: Sys)
    requires SysOk(P, y) && Does(P, y, w, a, z, 0) && !a.Take? && !a.Free? && !a.Update? && !a.Leak?
    ensures SysOk(P, z) && Leaves(P, y, w, z)
  {
    ActBoth(P, y.s, y.own[w], a, z.s, 0);
    LeaveSteps(P, y, w, a, z);
  }

  /** A writer that keeps its slot changes at most what is in it and what it wants there. */
  lemma KeepShape(P: Params, y: Sys, w: Wid, a: Act, z: Sys, m: nat)
    requires Wants(y) && Does(P, y, w, a, z, m) && m > 0 && !a.Take? && !a.Free? && !a.Update? && !a.Leak?
    requires Facts(y.s, y.own[w], a, z.s, m)
    ensures m == y.own[w] && z == y.(s := z.s, want := z.want) && z.s.freeSlots == y.s.freeSlots
    ensures forall u :: u in z.want && u != w ==> u in y.want && z.want[u] == y.want[u]
    ensures w in z.want ==> w in z.own && z.own[w] < |z.s.store| && z.s.store[z.own[w]] == z.want[w]
  {
  }

  lemma KeepSteps(P: Params, y: Sys, w: Wid, a: Act, z: Sys, m: nat)
    requires SysOk(P, y) && Does(P, y, w, a, z, m) && m > 0 && !a.Take? && !a.Free? && !a.Update? && !a.Leak?
    ensures SysOk(P, z) && Leaves(P, y, w, z)
  {
    ActBoth(P, y.s, y.own[w], a, z.s, m);
    KeepShape(P, y, w, a, z, m);
    StaySteps(P, y, w, a, z);
  }

  /** The other actions of a writer that has a slot. */
  lemma ActSteps(P: Params, y: Sys, w: Wid, a: Act, z: Sys, m: nat)
    requires SysOk(P, y) && Does(P, y, w, a, z, m) && !a.Take? && !a.Free? && !a.Update?
    ensures SysOk(P, z) && Leaves(P, y, w, z)
  {
    if a.Leak? {
      LeakSteps(P, y, w, z);
    } else if m == 0 {
      GiveSteps(P, y, w, a, z);
    } else {
      KeepSteps(P, y, w, a, z, m);
    }
  }

  lemma EnterRing(y: Sys, e: Event, z: Sys)
    requires FreeRing(y) && y.s == z.s && y.own == z.own && y.log == z.log && y.head == z.head
    requires if e.Look? then e.w !in y.own && y.head < |y.log| && z.deq == y.deq[e.w := y.head] && z.enq == y.enq
      else e.w in y.own && z.enq == y.enq[e.w := |y.log|] && z.deq == y.deq
    ensures FreeRing(z)
  {
  }

  lemma EnterLeaves(P: Params, y: Sys, w: Wid, z: Sys)
    requires Good(P, y.s) && y.s == z.s && y.own == z.own
    ensures Leaves(P, y, w, z)
  {
    RelySelf(P, y.s, Loose(P, y.s) - Keep(SlotOf(y, w)));
  }

  lemma EnterSteps(P: Params, y: Sys, e: Event, z: Sys)
    requires SysOk(P, y) && !e.Do? && Step(P, y, e, z)
    ensures SysOk(P, z) && Leaves(P, y, e.w, z)
  {
    EnterRing(y, e, z);
    EnterLeaves(P, y, e.w, z);
  }

  /** Every step of every writer keeps the invariant and leaves alone what the others rely on, as long
      as calls on the free ring do not overlap. */
  lemma StepKeeps(P: Params, y: Sys, e: Event, z: Sys)
    requires SysOk(P, y) && Apart(y) && Step(P, y, e, z)
    ensures SysOk(P, z) && Leaves(P, y, e.w, z)
  {
    if !e.Do? {
      EnterSteps(P, y, e, z);
    } else if e.a.Take? {
      TakeSteps(P, y, e.w, z);
    } else if e.a.Free? {
      FreeSteps(P, y, e.w, z);
    } else if e.a.Update? {
      UpdateSteps(P, y, e.w, e.a.x, e.a.ret, z);
    } else {
      var m :| Does(P, y, e.w, e.a, z, m);
      ActSteps(P, y, e.w, e.a, z, m);
    }
  }

  // ---------------------------------------------------------------- whole runs

  /** Any interleaving of any number of writers. */
  ghost predicate SysRun(P: Params, ys: seq<Sys>, es: seq<Event>) {
    |ys| == |es| + 1 && forall i :: 0 <= i < |es| ==> Step(P, ys[i], es[i], ys[i + 1])
  }

  lemma RunMore(P: Params, ys: seq<Sys>, es: seq<Event>, e: Event, z: Sys)
    requires SysRun(P, ys, es) && Step(P, ys[|ys| - 1], e, z)
    ensures SysRun(P, ys + [z], es + [e])
  {
    var zs, fs := ys + [z], es + [e];
    forall i | 0 <= i < |fs| ensures Step(P, zs[i], fs[i], zs[i + 1]) {
      if i < |es| { assert Step(P, ys[i], es[i], ys[i + 1]); }
    }
  }

  /** ... in which calls on the free ring do not overlap. */
  ghost predicate ApartRun(ys: seq<Sys>) { forall i :: 0 <= i < |ys| ==> Apart(ys[i]) }

  /** In every state of every such run the table is well formed and its slots are accounted for. */
  lemma {:induction false} SystemOk(P: Params, ys: seq<Sys>, es: seq<Event>, i: nat)
    requires SysRun(P, ys, es) && ApartRun(ys) && SysOk(P, ys[0]) && i < |ys|
    ensures SysOk(P, ys[i])
  {
    if i > 0 {
      SystemOk(P, ys, es, i - 1);
      StepKeeps(P, ys[i - 1], es[i - 1], ys[i]);
    }
  }

  /** Conservation: in every such state each key slot is free once, or referred to by one bucket entry, or taken by
      one writer, or lost. */
  lemma SlotsAccounted(P: Params, ys: seq<Sys>, es: seq<Event>, i: nat, k: nat)
    requires SysRun(P, ys, es) && ApartRun(ys) && ys[0] == Start(P) && i < |ys| && 1 <= k <= P.entries
    ensures var y := ys[i];
      && |y.s.store| == P.entries + 1
      && multiset(y.s.freeSlots)[k] + Count(y.s.cells, Tag(P, y.s.store, k))
         + (if k in y.own.Values then 1 else 0) + (if k in y.lost then 1 else 0) == 1
      && forall u, v :: u in y.own && v in y.own && y.own[u] == y.own[v] == k ==> u == v
  {
    StartOk(P);
    SystemOk(P, ys, es, i);
    SlotPartition(P, ys[i].s, k);
  }

  /** While only others act, a writer keeps its slot and what it relies on. */
  lemma {:induction false} OthersKeep(P: Params, ys: seq<Sys>, es: seq<Event>, w: Wid, i: nat)
    requires SysRun(P, ys, es) && ApartRun(ys) && SysOk(P, ys[0]) && i < |ys|
    requires forall j :: 0 <= j < |es| ==> es[j].w != w
    ensures SlotOf(ys[i], w) == SlotOf(ys[0], w) && Rely(P, ys[0].s, ys[i].s, Keep(SlotOf(ys[0], w)))
  {
    SystemOk(P, ys, es, 0);
    if i > 0 {
      OthersKeep(P, ys, es, w, i - 1);
      SystemOk(P, ys, es, i - 1);
      StepKeeps(P, ys[i - 1], es[i - 1], ys[i]);
      OneOther(P, ys[i - 1], es[i - 1].w, ys[i], w);
      RelyTrans(P, ys[0].s, ys[i - 1].s, ys[i].s, Keep(SlotOf(ys[0], w)));
    }
  }

  lemma OneOther(P: Params, y: Sys, v: Wid, z: Sys, w: Wid)
    requires Accounted(y.own, y.lost, Loose(P, y.s)) && Leaves(P, y, v, z) && v != w
    ensures SlotOf(z, w) == SlotOf(y, w) && Rely(P, y.s, z.s, Keep(SlotOf(y, w)))
  {
    assert Keep(SlotOf(y, w)) <= Loose(P, y.s) - Keep(SlotOf(y, v));
  }

  /** What others did between s and r: a run of any number of writers but w, who has taken slot k. */
  ghost predicate CameBy(P: Params, s: State, k: nat, r: State, w: Wid) {
    exists ys: seq<Sys>, es: seq<Event> ::
      && SysRun(P, ys, es) && ApartRun(ys) && SysOk(P, ys[0]) && ys[0].s == s && SlotOf(ys[0], w) == k
      && ys[|ys| - 1].s == r && forall j :: 0 <= j < |es| ==> es[j].w != w
  }

  /** Closing the circle: whatever other writers do by these actions, in any interleaving in which calls on
      the free ring do not overlap and which leaves a free slot, is what a writer relies on. */
  lemma InterleavingIsCooperative(P: Params, world: World, w: Wid)
    requires forall t: nat, s, k: nat :: Good(P, s) && Keep(k) <= Loose(P, s) ==>
      CameBy(P, s, k, world.others(t, s, k), w) && (s.freeSlots != [] ==> world.others(t, s, k).freeSlots != [])
    requires forall t: nat, s :: Good(P, s) ==> |world.seen(t, s)| == |s.cells|
    ensures Cooperative(P, world)
  {
    forall t: nat, s, k: nat | Good(P, s) && Keep(k) <= Loose(P, s) ensures Rely(P, s, world.others(t, s, k), Keep(k)) {
      CameByRely(P, s, k, world.others(t, s, k), w);
    }
  }

  lemma CameByRely(P: Params, s: State, k: nat, r: State, w: Wid)
    requires CameBy(P, s, k, r, w)
    ensures Rely(P, s, r, Keep(k))
  {
    var ys: seq<Sys>, es: seq<Event> :|
      && SysRun(P, ys, es) && ApartRun(ys) && SysOk(P, ys[0]) && ys[0].s == s && SlotOf(ys[0], w) == k
      && ys[|ys| - 1].s == r && forall j :: 0 <= j < |es| ==> es[j].w != w;
    OthersKeep(P, ys, es, w, |ys| - 1);
  }

  // ---------------------------------------------------------------- reachable systems

  /** A run without overlapping calls leads from y to z. */
  ghost predicate Leads(P: Params, y: Sys, z: Sys) {
    exists ys: seq<Sys>, es: seq<Event> :: SysRun(P, ys, es) && ApartRun(ys) && ys[0] == y && ys[|ys| - 1] == z
  }

  lemma LeadsSelf(P: Params, y: Sys)
    requires Apart(y)
    ensures Leads(P, y, y)
  {
    var ys: seq<Sys>, es: seq<Event> := [y], [];
    assert SysRun(P, ys, es) && ApartRun(ys) && ys[0] == y && ys[|ys| - 1] == y;
  }

  lemma LeadsMore(P: Params, x: Sys, y: Sys, e: Event, z: Sys)
    requires Leads(P, x, y) && Step(P, y, e, z) && Apart(z)
    ensures Leads(P, x, z)
  {
    var ys: seq<Sys>, es: seq<Event> :| SysRun(P, ys, es) && ApartRun(ys) && ys[0] == x && ys[|ys| - 1] == y;
    RunMore(P, ys, es, e, z);
    var zs, fs := ys + [z], es + [e];
    assert SysRun(P, zs, fs) && ApartRun(zs) && zs[0] == x && zs[|zs| - 1] == z;
  }

  lemma LeadsOk(P: Params, x: Sys, y: Sys)
    requires Leads(P, x, y) && SysOk(P, x)
    ensures SysOk(P, y)
  {
    var ys: seq<Sys>, es: seq<Event> :| SysRun(P, ys, es) && ApartRun(ys) && ys[0] == x && ys[|ys| - 1] == y;
    SystemOk(P, ys, es, |ys| - 1);
  }
}
