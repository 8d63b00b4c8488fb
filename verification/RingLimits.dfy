/** Where the ring's promises end: single-threaded calls that overlap, counts from two loads, and calls that
    return empty-handed. */
module RingLimits {
  import opened Words
  import opened RingModel
  import opened RingInv
  import opened RingData
  import opened RingTheorems

  // ---------------------------------------------------------------- overlapping single-threaded calls

  /** A dequeue of one object that has come to pc. */
  function OneOp<T>(pc: Pc, objs: seq<T>, ticket: nat): Op<T> { Op(pc, 1, Fixed, false, objs, ticket) }

  /** Two single-threaded dequeues of one object: both load the head before either stores it. */
  ghost predicate TwoBegun<T>(env: Env, s: Side<T>, t: Tid, u: Tid, opp: Counter) {
    && env.Valid() && env.mode.ST? && env.kind.Consumer? && t != u && |s.hub.starts| > 0
    && t in s.ops && s.ops[t] == OneOp(LoadHead, [], 0) && u in s.ops && s.ops[u] == OneOp(LoadHead, [], 0)
    && 1 <= opp.pos - s.hub.head.pos < W
  }

  /** Load head and opposite tail of one operation. */
  lemma StLoads<T>(env: Env, s: Side<T>, t: Tid, opp: Counter, cells: seq<T>) returns (r: Side<T>)
    requires env.Valid() && env.mode.ST? && env.kind.Consumer? && |s.hub.starts| > 0 && |cells| == env.size
    requires t in s.ops && s.ops[t] == OneOp(LoadHead, [], 0) && 1 <= opp.pos - s.hub.head.pos < W
    ensures r == Next(env, Next(env, s, t, opp, cells), t, opp, cells)
    ensures r == s.(ops := s.ops[t := OneOp(CasHead(Mark(s.hub.head, s.hub.head), 0, opp.pos, 1), [], 0)])
  {
    var m := Mark(s.hub.head, s.hub.head);
    var a := Next(env, s, t, opp, cells);
    assert a == WithOp(s, t, Some(OneOp(LoadOpp(m, 0), [], 0)));
    SubIsExact(0, opp, s.hub.head);
    r := Next(env, a, t, opp, cells);
    assert r.ops == s.ops[t := OneOp(CasHead(m, 0, opp.pos, 1), [], 0)];
  }

  /** Store the head, whatever it is by now, and copy. */
  lemma StStores<T>(env: Env, s: Side<T>, t: Tid, opp: Counter, cells: seq<T>, m: Mark) returns (r: Side<T>)
    requires env.Valid() && env.mode.ST? && env.kind.Consumer? && |s.hub.starts| > 0 && |cells| == env.size
    requires t in s.ops && s.ops[t] == OneOp(CasHead(m, 0, opp.pos, 1), [], 0)
    ensures r == Next(env, Next(env, s, t, opp, cells), t, opp, cells)
    ensures r.hub.head == Advance(m.pos, 1) && |r.hub.starts| > 0
    ensures t in r.ops && r.ops[t].objs == [cells[Slot(env, m.pos, 0)]]
    ensures forall u :: u in s.ops && u != t ==> u in r.ops && r.ops[u] == s.ops[u]
  {
    var a := Next(env, s, t, opp, cells);
    assert a == HubNext(env, s, t) && a.ops[t].pc == Copy(m.pos, 1, 0);
    r := Next(env, a, t, opp, cells);
  }

  /** Both return the object at the head, and the head has moved by one: nothing compares it. That is why
      `CanBegin` allows one single-threaded operation at a time. */
  lemma OverlapTakesTwice<T>(env: Env, s: Side<T>, t: Tid, u: Tid, opp: Counter, cells: seq<T>)
    returns (a: Side<T>, b: Side<T>, c: Side<T>, d: Side<T>)
    requires TwoBegun(env, s, t, u, opp) && |cells| == env.size
    ensures |a.hub.starts| > 0 && t in a.ops && u in a.ops && a == Next(env, Next(env, s, t, opp, cells), t, opp, cells)
    ensures |b.hub.starts| > 0 && t in b.ops && u in b.ops && b == Next(env, Next(env, a, u, opp, cells), u, opp, cells)
    ensures |c.hub.starts| > 0 && u in c.ops && c == Next(env, Next(env, b, t, opp, cells), t, opp, cells)
    ensures d == Next(env, Next(env, c, u, opp, cells), u, opp, cells)
    ensures t in d.ops && u in d.ops && d.ops[t].objs == d.ops[u].objs == [cells[Slot(env, s.hub.head, 0)]]
    ensures d.hub.head == Advance(s.hub.head, 1)
  {
    var m := Mark(s.hub.head, s.hub.head);
    a := StLoads(env, s, t, opp, cells);
    b := StLoads(env, a, u, opp, cells);
    c := StStores(env, b, t, opp, cells, m);
    d := StStores(env, c, u, opp, cells, m);
  }

  // ---------------------------------------------------------------- two loads

  lemma StepTails<T>(cfg: Config, r: Ring<T>, a: Action<T>, r': Ring<T>)
    requires RingOk(cfg, r) && StepsTo(cfg, r, a, r')
    ensures r.prod.hub.tail.pos <= r'.prod.hub.tail.pos && r.cons.hub.tail.pos <= r'.cons.hub.tail.pos
  {
    match a
    case Begin(_, _, _) =>
    case EndPeek(_, _, _, _) =>
    case Step(Producer, t) => ProdTailGrows(cfg, r, t);
    case Step(Consumer, t) => ConsTailGrows(cfg, r, t);
  }

  lemma {:induction false} RunTails<T>(cfg: Config, run: seq<Ring<T>>, acts: seq<Action<T>>, i: nat, j: nat)
    requires IsRun(cfg, run, acts) && i <= j < |run|
    ensures run[i].prod.hub.tail.pos <= run[j].prod.hub.tail.pos && run[i].cons.hub.tail.pos <= run[j].cons.hub.tail.pos
    decreases j
  {
    if i < j {
      RunTails(cfg, run, acts, i, j - 1);
      RunStepTails(cfg, run, acts, j - 1);
    }
  }

  lemma RunStepTails<T>(cfg: Config, run: seq<Ring<T>>, acts: seq<Action<T>>, j: nat)
    requires IsRun(cfg, run, acts) && j < |acts|
    ensures run[j].prod.hub.tail.pos <= run[j + 1].prod.hub.tail.pos
    ensures run[j].cons.hub.tail.pos <= run[j + 1].cons.hub.tail.pos
  {
    RunOk(cfg, run, acts, j);
    StepTails(cfg, run[j], acts[j], run[j + 1]);
  }

  /** rte_ring_count loads the producer's tail and, maybe much later, the consumer's. Its result never
      exceeds the capacity. It is the difference of the two positions if and only if the consumers have not
      passed the producer's tail of the first load; then it is at most the length at either time, and 0
      exactly when the loaded words are equal. */
  lemma CountLoads<T>(cfg: Config, run: seq<Ring<T>>, acts: seq<Action<T>>, i: nat, j: nat)
    requires IsRun(cfg, run, acts) && i <= j < |run|
    ensures cfg.Valid()
    ensures var p, c := run[i].prod.hub.tail, run[j].cons.hub.tail; var n := CountOf(cfg, p, c);
      && n <= cfg.prod.cap
      && (n == p.pos - c.pos <==> c.pos <= p.pos)
      && (c.pos <= p.pos ==> n <= |Contents(cfg, run[i])| && n <= |Contents(cfg, run[j])|)
      && (c.pos <= p.pos ==> (n == 0 <==> c.word == p.word))
  {
    var p, c := run[i].prod.hub.tail, run[j].cons.hub.tail;
    RunTails(cfg, run, acts, i, j);
    RunContents(cfg, run, acts, i);
    RunContents(cfg, run, acts, j);
    Reservations(cfg, run, acts, i, Producer);
    RunOk(cfg, run, acts, i);
    SubIsExact(0, p, c);
    if c.pos <= p.pos { SameWord(c, p); }
  }

  // ---------------------------------------------------------------- full although empty

  const SMALL: Config := Config(Env(Producer, ST, 7, 3, 8, 0, true), Env(Consumer, ST, 7, 3, 8, 0, true))

  ghost predicate RunsTo<T>(run: seq<Ring<T>>, acts: seq<Action<T>>, r: Ring<T>) {
    IsRun(SMALL, run, acts) && run[|run| - 1] == r
  }

  lemma RunShape<T>(run: seq<Ring<T>>, acts: seq<Action<T>>, a: Action<T>)
    requires IsRun(SMALL, run, acts)
    ensures Shape(SMALL, run[|run| - 1]) && ActionInWindow(SMALL, run[|run| - 1], a)
  {
    var r := run[|run| - 1];
    RunOk(SMALL, run, acts, |run| - 1);
    if a.Step? && a.t in SideOf(r, a.kind).ops {
      Knows(EnvOf(SMALL, a.kind), SideOf(r, a.kind), a.t, OppTail(r, a.kind));
    }
  }

  /** One more step of a run. */
  lemma RunOn<T>(run: seq<Ring<T>>, acts: seq<Action<T>>, r: Ring<T>, a: Action<T>)
    returns (run': seq<Ring<T>>, acts': seq<Action<T>>, z: Ring<T>)
    requires RunsTo(run, acts, r) && Enabled(SMALL, r, a)
    ensures Shape(SMALL, r) && z == Apply(SMALL, r, a) && RunsTo(run', acts', z) && run <= run'
  {
    RunShape(run, acts, a);
    z := Apply(SMALL, r, a);
    run', acts' := run + [z], acts + [a];
    forall i | 0 <= i < |acts'| ensures StepsTo(SMALL, run'[i], acts'[i], run'[i + 1]) {
      if i < |acts| { assert StepsTo(SMALL, run[i], acts[i], run[i + 1]); }
    }
  }

  /** Thread 0 claims a position of an empty ring for x ... */
  lemma ClaimIn<T>(r: Ring<T>, x: T) returns (run: seq<Ring<T>>, acts: seq<Action<T>>, z: Ring<T>)
    requires Init(SMALL, r)
    ensures RunsTo(run, acts, z) && run[0] == r && z.cons == r.cons
    ensures 0 in z.prod.ops && z.prod.ops[0] == Op(CasHead(Mark(ZERO, ZERO), 0, 0, 1), 1, Fixed, false, [x], 0)
    ensures z.prod.hub == r.prod.hub
  {
    run, acts := [r], [];
    run, acts, z := RunOn(run, acts, r, Begin(Producer, 0, Op(LoadHead, 1, Fixed, false, [x], 0)));
    assert 0 in z.prod.ops && z.prod.ops[0] == Op(LoadHead, 1, Fixed, false, [x], 0);
    run, acts, z := RunOn(run, acts, z, Step(Producer, 0));
    assert 0 in z.prod.ops && z.prod.ops[0] == Op(LoadOpp(Mark(ZERO, ZERO), 0), 1, Fixed, false, [x], 0);
    run, acts, z := RunOn(run, acts, z, Step(Producer, 0));
  }

  /** ... copies it ... */
  lemma CopyIn<T>(r: Ring<T>, x: T) returns (run: seq<Ring<T>>, acts: seq<Action<T>>, z: Ring<T>)
    requires Init(SMALL, r)
    ensures RunsTo(run, acts, z) && run[0] == r && z.cons == r.cons
    ensures 0 in z.prod.ops && z.prod.ops[0] == Op(Copy(ZERO, 1, 1), 1, Fixed, false, [x], 0)
  {
    run, acts, z := ClaimIn(r, x);
    run, acts, z := CasIn(run, acts, z, x);
    run, acts, z := OneCopy(run, acts, z, x);
  }

  lemma CasIn<T>(run0: seq<Ring<T>>, acts0: seq<Action<T>>, r: Ring<T>, x: T)
    returns (run: seq<Ring<T>>, acts: seq<Action<T>>, z: Ring<T>)
    requires RunsTo(run0, acts0, r) && 0 in r.prod.ops && r.prod.hub.owner == []
    requires r.prod.ops[0] == Op(CasHead(Mark(ZERO, ZERO), 0, 0, 1), 1, Fixed, false, [x], 0)
    ensures RunsTo(run, acts, z) && run0 <= run && z.cons == r.cons
    ensures 0 in z.prod.ops && z.prod.ops[0] == Op(Copy(ZERO, 1, 0), 1, Fixed, false, [x], 0)
  {
    run, acts, z := RunOn(run0, acts0, r, Step(Producer, 0));
    assert z.prod == HubNext(SMALL.prod, r.prod, 0);
  }

  lemma OneCopy<T>(run0: seq<Ring<T>>, acts0: seq<Action<T>>, r: Ring<T>, x: T)
    returns (run: seq<Ring<T>>, acts: seq<Action<T>>, z: Ring<T>)
    requires RunsTo(run0, acts0, r) && 0 in r.prod.ops && r.prod.ops[0] == Op(Copy(ZERO, 1, 0), 1, Fixed, false, [x], 0)
    ensures RunsTo(run, acts, z) && run0 <= run && z.cons == r.cons
    ensures 0 in z.prod.ops && z.prod.ops[0] == Op(Copy(ZERO, 1, 1), 1, Fixed, false, [x], 0)
  {
    run, acts, z := RunOn(run0, acts0, r, Step(Producer, 0));
    assert z.prod == WithOp(r.prod, 0, Some(ElementOp(SMALL.prod, r.prod.ops[0], r.cells)));
  }

  /** ... and publishes it. */
  lemma OneIn<T>(r: Ring<T>, x: T) returns (run: seq<Ring<T>>, acts: seq<Action<T>>, z: Ring<T>)
    requires Init(SMALL, r)
    ensures RunsTo(run, acts, z) && run[0] == r && z.cons == r.cons && z.prod.hub.tail == At(1)
  {
    run, acts, z := CopyIn(r, x);
    run, acts, z := RunOn(run, acts, z, Step(Producer, 0));
    assert 0 in z.prod.ops && z.prod.ops[0] == Op(StoreTail(ZERO, 1), 1, Fixed, false, [x], 0);
    run, acts, z := RunOn(run, acts, z, Step(Producer, 0));
  }

  /** Thread 1 claims the object ... */
  lemma ClaimOut<T>(run0: seq<Ring<T>>, acts0: seq<Action<T>>, r: Ring<T>)
    returns (run: seq<Ring<T>>, acts: seq<Action<T>>, z: Ring<T>)
    requires RunsTo(run0, acts0, r) && r.cons == EmptySide() && r.prod.hub.tail == At(1)
    ensures RunsTo(run, acts, z) && run0 <= run && z.prod == r.prod && z.cons.hub == r.cons.hub
    ensures 1 in z.cons.ops && z.cons.ops[1] == OneOp(CasHead(Mark(ZERO, ZERO), 0, 1, 1), [], 0)
  {
    run, acts, z := RunOn(run0, acts0, r, Begin(Consumer, 1, OneOp(LoadHead, [], 0)));
    assert 1 in z.cons.ops && z.cons.ops[1] == OneOp(LoadHead, [], 0);
    run, acts, z := RunOn(run, acts, z, Step(Consumer, 1));
    assert 1 in z.cons.ops && z.cons.ops[1] == OneOp(LoadOpp(Mark(ZERO, ZERO), 0), [], 0);
    run, acts, z := RunOn(run, acts, z, Step(Consumer, 1));
  }

  /** ... reserves it ... */
  lemma ReserveOut<T>(run0: seq<Ring<T>>, acts0: seq<Action<T>>, r: Ring<T>)
    returns (run: seq<Ring<T>>, acts: seq<Action<T>>, z: Ring<T>)
    requires RunsTo(run0, acts0, r) && r.cons == EmptySide() && r.prod.hub.tail == At(1)
    ensures RunsTo(run, acts, z) && run0 <= run && z.prod == r.prod
    ensures 1 in z.cons.ops && z.cons.ops[1] == OneOp(Copy(ZERO, 1, 0), [], 0)
  {
    run, acts, z := ClaimOut(run0, acts0, r);
    run, acts, z := RunOn(run, acts, z, Step(Consumer, 1));
  }

  /** ... copies it ... */
  lemma CopyOut<T>(run0: seq<Ring<T>>, acts0: seq<Action<T>>, r: Ring<T>)
    returns (run: seq<Ring<T>>, acts: seq<Action<T>>, z: Ring<T>)
    requires RunsTo(run0, acts0, r) && r.cons == EmptySide() && r.prod.hub.tail == At(1)
    ensures RunsTo(run, acts, z) && run0 <= run && z.prod == r.prod
    ensures 1 in z.cons.ops && z.cons.ops[1].pc == Copy(ZERO, 1, 1) && !z.cons.ops[1].peek
  {
    run, acts, z := ReserveOut(run0, acts0, r);
    run, acts, z := RunOn(run, acts, z, Step(Consumer, 1));
  }

  /** ... and dequeues it. */
  lemma OneOut<T>(run0: seq<Ring<T>>, acts0: seq<Action<T>>, r: Ring<T>)
    returns (run: seq<Ring<T>>, acts: seq<Action<T>>, z: Ring<T>)
    requires RunsTo(run0, acts0, r) && r.cons == EmptySide() && r.prod.hub.tail == At(1)
    ensures RunsTo(run, acts, z) && run0 <= run && z.prod == r.prod && z.cons.hub.tail == At(1)
  {
    run, acts, z := CopyOut(run0, acts0, r);
    run, acts, z := RunOn(run, acts, z, Step(Consumer, 1));
    assert 1 in z.cons.ops && z.cons.ops[1].pc == StoreTail(ZERO, 1);
    run, acts, z := RunOn(run, acts, z, Step(Consumer, 1));
  }

  /** Load the producer's tail of an empty ring; let one object go in and out; load the consumer's tail: the
      count is the capacity, so the ring is reported full, and it is empty. */
  lemma FullAlthoughEmpty<T>(r: Ring<T>, x: T) returns (run: seq<Ring<T>>, acts: seq<Action<T>>)
    requires Init(SMALL, r)
    ensures IsRun(SMALL, run, acts) && run[0] == r && SMALL.Valid()
    ensures var last := run[|run| - 1];
      && Contents(SMALL, run[0]) == Contents(SMALL, last) == []
      && CountOf(SMALL, run[0].prod.hub.tail, last.cons.hub.tail) == SMALL.prod.cap
  {
    var y, z;
    run, acts, y := OneIn(r, x);
    run, acts, z := OneOut(run, acts, y);
    RunContents(SMALL, run, acts, 0);
    RunContents(SMALL, run, acts, |run| - 1);
    SubIsExact(0, run[0].prod.hub.tail, z.cons.hub.tail);
    WrapIsMod(W - 1, 8);
  }

  // ---------------------------------------------------------------- empty-handed

  /** An operation that returns without moving anything was right to: there was not enough room, or for a
      burst none at all. In every mode and run, as long as the head has not gone round since the snapshot. */
  lemma EmptyHanded<T>(cfg: Config, run: seq<Ring<T>>, acts: seq<Action<T>>, i: nat, kind: Kind, t: Tid)
    requires IsRun(cfg, run, acts) && i < |run| && t in SideOf(run[i], kind).ops
    requires SideOf(run[i], kind).ops[t].pc.LoadOpp?
    requires var s := SideOf(run[i], kind); s.hub.head.pos - s.ops[t].pc.snap.pos.pos + cfg.prod.cap < W
    requires LocalOp(EnvOf(cfg, kind), SideOf(run[i], kind).hub, SideOf(run[i], kind).ops[t],
                     OppTail(run[i], kind)).None?
    ensures var s, op := SideOf(run[i], kind), SideOf(run[i], kind).ops[t];
      var room := EnvOf(cfg, kind).Offset() + OppTail(run[i], kind).pos - s.hub.head.pos;
      0 <= room <= cfg.prod.cap && (op.want > 0 ==> if op.behavior.Fixed? then room < op.want else room == 0)
  {
    RunSide(cfg, run, acts, i, kind);
    assert cfg.Valid();
    NoRoomLeft(EnvOf(cfg, kind), SideOf(run[i], kind), t, OppTail(run[i], kind));
  }

  lemma NoRoomLeft<T>(env: Env, s: Side<T>, t: Tid, opp: Counter)
    requires SideInv(env, s, opp) && t in s.ops && s.ops[t].pc.LoadOpp? && LocalOp(env, s.hub, s.ops[t], opp).None?
    requires s.hub.head.pos - s.ops[t].pc.snap.pos.pos + env.cap < W
    ensures var room, op := env.Offset() + opp.pos - s.hub.head.pos, s.ops[t];
      0 <= room <= env.cap && (op.want > 0 ==> if op.behavior.Fixed? then room < op.want else room == 0)
  {
    Knows(env, s, t, opp);
    SubIsExact(env.Offset(), opp, s.ops[t].pc.snap.pos);
  }
}
