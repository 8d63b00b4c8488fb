/** The invariant of the whole ring: both sides, and which object every slot, table and log entry holds. */
module RingData {
  import opened Words
  import opened RingModel
  import opened RingInv
  import opened RingMoves

  /** The first `logged` objects are what the log says from position lo on. */
  ghost predicate Logged<T>(log: seq<T>, lo: nat, objs: seq<T>, logged: nat) {
    && logged <= |objs| && lo + logged <= |log|
    && forall j :: 0 <= j < logged ==> objs[j] == log[lo + j]
  }

  /** ... and the first `stored` of them that are at or above `from` are in their slots. */
  ghost predicate Stored<T>(cells: seq<T>, size: nat, lo: nat, objs: seq<T>, stored: nat, from: nat)
    requires size > 0 && |cells| == size
  {
    && stored <= |objs|
    && forall j :: 0 <= j < stored && from <= lo + j ==> objs[j] == cells[Wrap(lo + j, size)]
  }

  function LoggedCount(pc: Pc): nat {
    match pc
    case Copy(_, n, _) => n
    case WaitTail(_, n) => n
    case StoreTail(_, n) => n
    case RtsLoadTail(_, n) => n
    case RtsLoadHead(_, n, _) => n
    case RtsCasTail(_, n, _, _, _) => n
    case FinCopy(_, _, _, _, i) => i
    case FinStore(_, _, _, k) => k
    case _ => 0
  }

  function StoredCount(pc: Pc): nat {
    match pc
    case Copy(_, _, i) => i
    case _ => LoggedCount(pc)
  }

  ghost predicate ProdOp<T>(env: Env, op: Op<T>, log: seq<T>, cells: seq<T>)
    requires env.Valid() && |cells| == env.size
  {
    && (!op.pc.Reserved() ==> |op.objs| == op.want)
    && (op.pc.Reserved() ==>
          && Logged(log, op.pc.lo.pos, op.objs, LoggedCount(op.pc))
          && Stored(cells, env.size, op.pc.lo.pos, op.objs, StoredCount(op.pc), 0))
    && (op.pc.FinCopy? ==> op.pc.k <= |op.objs|)
    && (op.pc.Copy? ==> !op.peek)
  }

  ghost predicate ConsOp<T>(op: Op<T>, log: seq<T>, limit: nat) {
    && !op.pc.FinCopy?
    && (!op.pc.Reserved() ==> op.objs == [])
    && (op.pc.Reserved() ==>
          && op.pc.lo.pos + |op.objs| <= limit
          && Logged(log, op.pc.lo.pos, op.objs, |op.objs|)
          && (if op.pc.Copy? then |op.objs| == op.pc.i else op.pc.n <= |op.objs|))
  }

  ghost predicate ProdOps<T>(env: Env, s: Side<T>, log: seq<T>, cells: seq<T>)
    requires env.Valid() && |cells| == env.size
  {
    forall t :: t in s.ops ==> ProdOp(env, s.ops[t], log, cells)
  }

  ghost predicate ProdResults<T>(env: Env, h: Hub<T>, log: seq<T>, cells: seq<T>, consTail: nat)
    requires env.Valid() && |cells| == env.size && ResultsInv(h.starts, h.results)
  {
    forall k :: k in h.results ==>
      && Logged(log, h.starts[k], h.results[k], |h.results[k]|)
      && Stored(cells, env.size, h.starts[k], h.results[k], |h.results[k]|, consTail)
  }

  ghost predicate ConsOps<T>(s: Side<T>, log: seq<T>, limit: nat) {
    forall t :: t in s.ops ==> ConsOp(s.ops[t], log, limit)
  }

  ghost predicate ConsResults<T>(h: Hub<T>, log: seq<T>)
    requires ResultsInv(h.starts, h.results)
  {
    forall k :: k in h.results ==> Logged(log, h.starts[k], h.results[k], |h.results[k]|)
  }

  ghost predicate Sides<T>(cfg: Config, r: Ring<T>) {
    && Shape(cfg, r)
    && SideInv(cfg.prod, r.prod, r.cons.hub.tail)
    && SideInv(cfg.cons, r.cons, r.prod.hub.tail)
  }

  ghost predicate Data<T>(cfg: Config, r: Ring<T>)
    requires Sides(cfg, r)
  {
    && |r.log| == r.prod.hub.head.pos
    && ProdOps(cfg.prod, r.prod, r.log, r.cells)
    && ProdResults(cfg.prod, r.prod.hub, r.log, r.cells, r.cons.hub.tail.pos)
    && ConsOps(r.cons, r.log, r.prod.hub.tail.pos)
    && ConsResults(r.cons.hub, r.log)
  }

  ghost predicate RingOk<T>(cfg: Config, r: Ring<T>) {
    Sides(cfg, r) && Data(cfg, r)
  }

  // ---------------------------------------------------------------- reading the ring

  /** The ticket that owns a position. */
  ghost function TicketOf(starts: seq<nat>, p: nat): (k: nat)
    requires |starts| > 1 && starts[0] <= p < starts[|starts| - 1]
    ensures k + 1 < |starts| && starts[k] <= p < starts[k + 1]
  {
    if starts[|starts| - 2] <= p then |starts| - 2 else TicketOf(starts[..|starts| - 1], p)
  }

  /** Below the tail every ticket has finished. */
  lemma BelowTail<T>(env: Env, s: Side<T>, p: nat, opp: Counter)
    requires SideInv(env, s, opp) && p < s.hub.tail.pos
    ensures |s.hub.starts| > 1 && s.hub.starts[0] <= p < s.hub.starts[|s.hub.starts| - 1]
    ensures TicketOf(s.hub.starts, p) in s.hub.results
  {
    var k := TicketOf(s.hub.starts, p);
    if k !in s.hub.results {
      OpenTicket(env, s, k, opp);
    }
  }

  /** Every published slot that no consumer has released holds the object logged for it. */
  lemma PublishedCell<T>(cfg: Config, r: Ring<T>, p: nat)
    requires RingOk(cfg, r) && r.cons.hub.tail.pos <= p < r.prod.hub.tail.pos
    ensures p < |r.log| && r.cells[Wrap(p, cfg.prod.size)] == r.log[p]
  {
    var h := r.prod.hub;
    BelowTail(cfg.prod, r.prod, p, r.cons.hub.tail);
    var k := TicketOf(h.starts, p);
    var j := p - h.starts[k];
    assert h.results[k][j] == r.log[h.starts[k] + j];
    assert h.results[k][j] == r.cells[Wrap(h.starts[k] + j, cfg.prod.size)];
  }

  // ---------------------------------------------------------------- consumer steps

  /** A position being copied lies between the tail and the room the other side left. */
  lemma CopyBounds<T>(env: Env, h: Hub<T>, t: Tid, op: Op<T>, opp: Counter)
    requires HubInv(env, h) && Order(env, h, opp) && OpInv(env, h, t, op, opp) && op.pc.Copy? && op.pc.i < op.pc.n
    ensures h.tail.pos <= op.pc.lo.pos + op.pc.i < h.head.pos <= env.Offset() + opp.pos
  {
    OwnedBelowHead(env, h, t, op, op.pc.lo, op.pc.n);
  }

  lemma CopyInside<T>(env: Env, s: Side<T>, t: Tid, opp: Counter)
    requires SideInv(env, s, opp) && t in s.ops && s.ops[t].pc.Copy? && s.ops[t].pc.i < s.ops[t].pc.n
    ensures var pc := s.ops[t].pc;
            s.hub.tail.pos <= pc.lo.pos + pc.i < s.hub.head.pos <= env.Offset() + opp.pos
  {
    Knows(env, s, t, opp);
    CopyBounds(env, s.hub, t, s.ops[t], opp);
  }

  /** The slot a consumer reads holds the object of its position. */
  lemma ReadsLog<T>(cfg: Config, r: Ring<T>, lo: Counter, i: nat)
    requires RingOk(cfg, r) && r.cons.hub.tail.pos <= lo.pos + i < r.prod.hub.tail.pos
    ensures lo.pos + i < |r.log| && r.cells[Slot(cfg.cons, lo, i)] == r.log[lo.pos + i]
  {
    PublishedCell(cfg, r, lo.pos + i);
    SlotOfPosition(cfg.cons, lo, i);
    assert cfg.cons.size == cfg.prod.size;
    assert Slot(cfg.cons, lo, i) == Wrap(lo.pos + i, cfg.prod.size);
  }

  lemma ConsElementData<T>(env: Env, op: Op<T>, cells: seq<T>, log: seq<T>, limit: nat)
    requires env.Valid() && env.kind.Consumer? && |cells| == env.size && MovesElement(op) && ConsOp(op, log, limit)
    requires op.pc.Copy? && op.pc.lo.pos + op.pc.i < limit <= |log|
    requires cells[Slot(env, op.pc.lo, op.pc.i)] == log[op.pc.lo.pos + op.pc.i]
    ensures ConsOp(ElementOp(env, op, cells), log, limit)
  {
    LoggedMore(log, op.pc.lo.pos, op.objs, cells[Slot(env, op.pc.lo, op.pc.i)]);
  }

  lemma LoggedMore<T>(log: seq<T>, lo: nat, objs: seq<T>, x: T)
    requires Logged(log, lo, objs, |objs|) && lo + |objs| < |log| && log[lo + |objs|] == x
    ensures Logged(log, lo, objs + [x], |objs| + 1)
  {
  }

  lemma OwnedBelowHead<T>(env: Env, h: Hub<T>, t: Tid, op: Op<T>, lo: Counter, n: nat)
    requires HubInv(env, h) && Owns(env, h, t, op, lo, n)
    ensures lo.pos + n <= h.head.pos
  {
    assert h.starts[op.ticket + 1] <= h.starts[|h.owner|];
  }

  lemma ConsLocalData<T>(env: Env, h: Hub<T>, t: Tid, op: Op<T>, opp: Counter, log: seq<T>, limit: nat)
    requires env.kind.Consumer? && |h.starts| == |h.owner| + 1 && OpInv(env, h, t, op, opp) && ConsOp(op, log, limit)
    requires !MovesElement(op)
    ensures LocalOp(env, h, op, opp).Some? ==> ConsOp(LocalOp(env, h, op, opp).value, log, limit)
  {
  }

  /** The operations of a side after one of them changed. */
  lemma ConsOpsWith<T>(s: Side<T>, t: Tid, o: Option<Op<T>>, log: seq<T>, limit: nat)
    requires ConsOps(s, log, limit) && (o.Some? ==> ConsOp(o.value, log, limit))
    ensures ConsOps(WithOp(s, t, o), log, limit)
  {
  }

  lemma ConsReserveData<T>(cfg: Config, r: Ring<T>, t: Tid)
    requires RingOk(cfg, r) && t in r.cons.ops && r.cons.ops[t].pc.CasHead? && InWindow(cfg.cons, r.cons, t)
    requires MovesHub(cfg.cons, r.cons.hub, r.cons.ops[t])
    ensures var s' := HubNext(cfg.cons, r.cons, t);
      ConsOps(s', r.log, r.prod.hub.tail.pos) && ResultsInv(s'.hub.starts, s'.hub.results) && ConsResults(s'.hub, r.log)
  {
    var op := r.cons.ops[t];
    Knows(cfg.cons, r.cons, t, r.prod.hub.tail);
    CasIsExact(cfg.cons, r.cons, t, r.prod.hub.tail);
    assert ConsOp(op, r.log, r.prod.hub.tail.pos);
    var s' := HubNext(cfg.cons, r.cons, t);
    assert ConsOp(s'.ops[t], r.log, r.prod.hub.tail.pos);
    ConsOpsWith(r.cons, t, Some(s'.ops[t]), r.log, r.prod.hub.tail.pos);
  }

  /** A finishing dequeue records exactly the logged objects of its positions. */
  lemma ConsPublishData<T>(h: Hub<T>, op: Op<T>, lo: nat, n: nat, log: seq<T>, limit: nat, h': Hub<T>)
    requires ResultsInv(h.starts, h.results) && ConsResults(h, log) && ConsOp(op, log, limit)
    requires op.pc.Reserved() && op.pc.lo.pos == lo && n <= |op.objs|
    requires ResultsInv(h'.starts, h'.results) && h'.results == h.results[op.ticket := Moved(op, n)]
    requires op.ticket < |h'.starts| && h'.starts[op.ticket] == lo
    requires forall k :: k in h.results && k != op.ticket ==> k < |h'.starts| && h'.starts[k] == h.starts[k]
    ensures ConsResults(h', log)
  {
  }

  lemma ConsLeaveData<T>(cfg: Config, r: Ring<T>, t: Tid)
    requires RingOk(cfg, r) && t in r.cons.ops && MovesHub(cfg.cons, r.cons.hub, r.cons.ops[t])
    requires !r.cons.ops[t].pc.CasHead?
    requires !(r.cons.ops[t].pc.FinStore? && cfg.cons.mode.ST?)
    requires SideInv(cfg.cons, HubNext(cfg.cons, r.cons, t), r.prod.hub.tail)
    ensures var s' := HubNext(cfg.cons, r.cons, t);
      ConsOps(s', r.log, r.prod.hub.tail.pos) && ConsResults(s'.hub, r.log)
  {
    var h, op := r.cons.hub, r.cons.ops[t];
    Knows(cfg.cons, r.cons, t, r.prod.hub.tail);
    assert ConsOp(op, r.log, r.prod.hub.tail.pos);
    var n := if op.pc.FinStore? then op.pc.k else op.pc.n;
    if op.pc.FinStore? { SoloTicket(cfg.cons, h, t, op, op.pc.lo, op.pc.n); }
    var s' := HubNext(cfg.cons, r.cons, t);
    ConsPublishData(h, op, op.pc.lo.pos, n, r.log, r.prod.hub.tail.pos, s'.hub);
    ConsOpsWith(r.cons, t, None, r.log, r.prod.hub.tail.pos);
  }

  lemma ConsShrinkData<T>(cfg: Config, r: Ring<T>, t: Tid)
    requires RingOk(cfg, r) && t in r.cons.ops && r.cons.ops[t].pc.FinStore? && cfg.cons.mode.ST?
    requires SideInv(cfg.cons, HubNext(cfg.cons, r.cons, t), r.prod.hub.tail)
    ensures var s' := HubNext(cfg.cons, r.cons, t);
      ConsOps(s', r.log, r.prod.hub.tail.pos) && ConsResults(s'.hub, r.log)
  {
    var h, op := r.cons.hub, r.cons.ops[t];
    Knows(cfg.cons, r.cons, t, r.prod.hub.tail);
    assert ConsOp(op, r.log, r.prod.hub.tail.pos);
    SoloTicket(cfg.cons, h, t, op, op.pc.lo, op.pc.n);
    var s' := HubNext(cfg.cons, r.cons, t);
    ConsOpsWith(r.cons, t, Some(s'.ops[t]), r.log, r.prod.hub.tail.pos);
    assert forall k :: k in h.results ==> s'.hub.starts[k] == h.starts[k];
  }

  /** A side's own step keeps its invariant and never moves its tail back. */
  lemma NextKeeps<T>(env: Env, s: Side<T>, t: Tid, opp: Counter, cells: seq<T>)
    requires SideInv(env, s, opp) && t in s.ops && |cells| == env.size && InWindow(env, s, t)
    requires s.ops[t].pc.StoreTail? || s.ops[t].pc.RtsCasTail? ==> s.ops[t].pc.n <= |s.ops[t].objs|
    requires s.ops[t].pc.FinStore? ==> s.ops[t].pc.k <= |s.ops[t].objs|
    ensures SideInv(env, Next(env, s, t, opp, cells), opp)
    ensures s.hub.tail.pos <= Next(env, s, t, opp, cells).hub.tail.pos
  {
    var op := s.ops[t];
    Knows(env, s, t, opp);
    if MovesElement(op) {
      ElementKeeps(env, s, t, opp, cells);
    } else if !MovesHub(env, s.hub, op) {
      LocalKeeps(env, s, t, opp);
    } else if op.pc.CasHead? {
      ReserveKeeps(env, s, t, opp);
    } else if op.pc.StoreTail? {
      StoreTailKeeps(env, s, t, opp);
    } else if op.pc.RtsCasTail? {
      RtsCasTailKeeps(env, s, t, opp);
    } else if env.mode.ST? {
      FinStoreSt(env, s, t, opp);
    } else {
      FinStoreKeeps(env, s, t, opp);
    }
  }

  lemma ConsElementStep<T>(cfg: Config, r: Ring<T>, t: Tid)
    requires RingOk(cfg, r) && t in r.cons.ops && MovesElement(r.cons.ops[t])
    ensures ConsOps(WithOp(r.cons, t, Some(ElementOp(cfg.cons, r.cons.ops[t], r.cells))), r.log, r.prod.hub.tail.pos)
  {
    var op, limit := r.cons.ops[t], r.prod.hub.tail.pos;
    assert ConsOp(op, r.log, limit);
    CopyInside(cfg.cons, r.cons, t, r.prod.hub.tail);
    ReadsLog(cfg, r, op.pc.lo, op.pc.i);
    ConsElementData(cfg.cons, op, r.cells, r.log, limit);
    ConsOpsWith(r.cons, t, Some(ElementOp(cfg.cons, op, r.cells)), r.log, limit);
  }

  lemma ConsNextData<T>(cfg: Config, r: Ring<T>, t: Tid)
    requires RingOk(cfg, r) && t in r.cons.ops && InWindow(cfg.cons, r.cons, t)
    requires SideInv(cfg.cons, Next(cfg.cons, r.cons, t, r.prod.hub.tail, r.cells), r.prod.hub.tail)
    ensures var s' := Next(cfg.cons, r.cons, t, r.prod.hub.tail, r.cells);
      ConsOps(s', r.log, r.prod.hub.tail.pos) && ConsResults(s'.hub, r.log)
  {
    var h, op := r.cons.hub, r.cons.ops[t];
    var opp := r.prod.hub.tail;
    if MovesElement(op) {
      ConsElementStep(cfg, r, t);
    } else if !MovesHub(cfg.cons, h, op) {
      ConsLocalData(cfg.cons, h, t, op, opp, r.log, opp.pos);
      ConsOpsWith(r.cons, t, LocalOp(cfg.cons, h, op, opp), r.log, opp.pos);
    } else if op.pc.CasHead? {
      ConsReserveData(cfg, r, t);
    } else if op.pc.FinStore? && cfg.cons.mode.ST? {
      ConsShrinkData(cfg, r, t);
    } else {
      ConsLeaveData(cfg, r, t);
    }
  }

  lemma ConsStepOk<T>(cfg: Config, r: Ring<T>, t: Tid)
    requires RingOk(cfg, r) && t in r.cons.ops && InWindow(cfg.cons, r.cons, t)
    ensures RingOk(cfg, Apply(cfg, r, Step(Consumer, t)))
  {
    var opp := r.prod.hub.tail;
    Knows(cfg.cons, r.cons, t, r.prod.hub.tail);
    assert ConsOp(r.cons.ops[t], r.log, opp.pos);
    NextKeeps(cfg.cons, r.cons, t, opp, r.cells);
    var s' := Next(cfg.cons, r.cons, t, opp, r.cells);
    ConsNextData(cfg, r, t);
    OppMoves(cfg.prod, r.prod, r.cons.hub.tail, s'.hub.tail);
    assert Apply(cfg, r, Step(Consumer, t)) == r.(cons := s');
  }
}
