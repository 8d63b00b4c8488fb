/** The ring of rte_lib/ring as a transition system: every load, compare-and-swap, element copy and
    store of an enqueue or dequeue is one step, and any number of threads interleave.

    The producer and the consumer side run the same protocol, so one `Side` describes both. The four
    synchronisation modes differ in how the head is claimed and how the tail is published.

    Decisions are taken on the 32-bit words only. Positions, tickets, `starts`, `results`, `owner`,
    `low`, the `seen*` fields and the log are bookkeeping for the statements. */
module RingModel {
  import opened Words

  datatype Mode = MT | ST | RTS | HTS
  datatype Behavior = Fixed | Variable
  datatype Kind = Producer | Consumer

  datatype Option<T> = None | Some(value: T)

  type Tid = nat

  /** What is fixed when the ring is made: size is 2^order, and only cap slots are used. `c11` selects
      rte_ring_c11_pvt.h, whose failing compare-and-swap delivers the current head; the generic file
      loads it again. */
  datatype Env = Env(kind: Kind, mode: Mode, cap: nat, order: nat, size: nat, htdMax: nat, c11: bool)
  {
    predicate Valid() { order <= 31 && size == Pow2(order) && cap < size && cap < 0x8000_0000 }
    function Offset(): nat { if kind.Producer? then cap else 0 }
    predicate Ordered() { !mode.RTS? }
    predicate Solo() { mode.ST? || mode.HTS? }
  }

  /** A snapshot of what the head compare-and-swap compares: the head, and with it the RTS count
      or the HTS tail. */
  datatype Mark = Mark(pos: Counter, aux: Counter)

  /** Where a thread stands inside one operation. */
  datatype Pc =
    | LoadHead
    | HeadWait(snap: Mark)
    | LoadOpp(snap: Mark, seenTail: nat)
    | CasHead(snap: Mark, seenTail: nat, seenOpp: nat, n: nat)
    | Copy(lo: Counter, n: nat, i: nat)
    | WaitTail(lo: Counter, n: nat)
    | StoreTail(lo: Counter, n: nat)
    | RtsLoadTail(lo: Counter, n: nat)
    | RtsLoadHead(lo: Counter, n: nat, ot: Mark)
    | RtsCasTail(lo: Counter, n: nat, ot: Mark, nt: Counter, hc: nat)
    | Held(lo: Counter, n: nat)
    | FinCopy(lo: Counter, n: nat, tail: Counter, k: nat, i: nat)
    | FinStore(lo: Counter, n: nat, tail: Counter, k: nat)
  {
    /** The head was moved for this operation and the tail was not yet. */
    predicate Reserved() { !LoadHead? && !HeadWait? && !LoadOpp? && !CasHead? }
  }

  /** One running operation. `objs` is the caller's table: full for a producer, filled as it goes
      for a consumer. */
  datatype Op<T> = Op(pc: Pc, want: nat, behavior: Behavior, peek: bool, objs: seq<T>, ticket: nat)

  /** The shared counters of a side and the bookkeeping of its operations. Ticket `k` is the k-th
      operation whose head move succeeded; it owns positions starts[k]..starts[k+1]. */
  datatype Hub<T> = Hub(head: Counter, tail: Counter, headCnt: Counter, tailCnt: Counter,
                        starts: seq<nat>, owner: seq<Tid>, results: map<nat, seq<T>>, low: nat)
  {
    function Tickets(): nat { |owner| }
  }

  datatype Side<T> = Side(hub: Hub<T>, ops: map<Tid, Op<T>>)

  datatype Ring<T> = Ring(prod: Side<T>, cons: Side<T>, cells: seq<T>, log: seq<T>)

  // ---------------------------------------------------------------- one side's steps

  /** How many objects an operation may move, given the room it computed. */
  function Grant(free: nat, want: nat, b: Behavior): nat {
    if want > free then (if b.Fixed? then 0 else free) else want
  }

  function Snapshot<T>(env: Env, h: Hub<T>): Mark {
    Mark(h.head, if env.mode.RTS? then h.headCnt else if env.mode.HTS? then h.tail else h.head)
  }

  function AfterSnapshot(env: Env, m: Mark): Pc {
    if env.mode.RTS? || env.mode.HTS? then HeadWait(m) else LoadOpp(m, 0)
  }

  /** The comparison of the head compare-and-swap; a single-threaded side stores without comparing. */
  predicate HeadMatches<T>(env: Env, h: Hub<T>, snap: Mark) {
    match env.mode
    case ST => true
    case MT => h.head.word == snap.pos.word
    case RTS => h.head.word == snap.pos.word && h.headCnt.word == snap.aux.word
    case HTS => h.head.word == snap.pos.word && h.tail.word == snap.aux.word
  }

  predicate TailMatches<T>(h: Hub<T>, ot: Mark) {
    h.tail.word == ot.pos.word && h.tailCnt.word == ot.aux.word
  }

  function Slot(env: Env, c: Counter, i: nat): (r: nat)
    requires env.Valid()
    ensures r < env.size
  {
    Wrap(c.word + i, env.size)
  }

  lemma SlotOfPosition(env: Env, c: Counter, i: nat)
    requires env.Valid()
    ensures Slot(env, c, i) == Wrap(c.pos + i, env.size)
  {
    WrapWord(c, i, env.order);
  }

  function PublishPc(env: Env, lo: Counter, n: nat): Pc {
    match env.mode
    case MT => WaitTail(lo, n)
    case RTS => RtsLoadTail(lo, n)
    case _ => StoreTail(lo, n)
  }

  /** Claim n positions: the successful head compare-and-swap (or the single-threaded store). */
  function Reserve<T>(env: Env, h: Hub<T>, t: Tid, snap: Mark, n: nat): Hub<T> {
    var head := Advance(snap.pos, n);
    h.(head := head,
       headCnt := if env.mode.RTS? then Advance(snap.aux, 1) else h.headCnt,
       starts := h.starts + [head.pos],
       owner := h.owner + [t])
  }

  /** Move the tail and record what operation `ticket` transferred. */
  function Publish<T>(h: Hub<T>, tail: Counter, ticket: nat, objs: seq<T>): Hub<T> {
    h.(tail := tail, results := h.results[ticket := objs], low := h.low + 1)
  }

  /** Give back all but the first k reserved positions: the finish of a peek operation. */
  function Shrink<T>(h: Hub<T>, tail: Counter, k: nat): Hub<T>
    requires |h.starts| > 0
  {
    var head := Advance(tail, k);
    h.(head := head, starts := h.starts[|h.starts| - 1 := head.pos])
  }

  /** The side with operation t replaced, or gone when it returned. */
  function WithOp<T>(s: Side<T>, t: Tid, o: Option<Op<T>>): Side<T> {
    match o
    case None => s.(ops := s.ops - {t})
    case Some(op) => s.(ops := s.ops[t := op])
  }

  /** The objects an operation moved once its reservation has n positions. */
  function Moved<T>(op: Op<T>, n: nat): seq<T> {
    if n <= |op.objs| then op.objs[..n] else op.objs
  }

  /** A step that only reads the shared counters; None when the operation returns empty-handed. */
  function LocalOp<T>(env: Env, h: Hub<T>, op: Op<T>, oppTail: Counter): Option<Op<T>> {
    match op.pc
    case LoadHead => Some(op.(pc := AfterSnapshot(env, Snapshot(env, h))))
    case HeadWait(snap) =>
      var again := if env.mode.RTS? then Sub(snap.pos.word, h.tail.word) > env.htdMax
                   else snap.pos.word != snap.aux.word;
      Some(op.(pc := if again then LoadHead else LoadOpp(snap, h.tail.pos)))
    case LoadOpp(snap, seenTail) =>
      var free := Sub(env.Offset() + oppTail.word, snap.pos.word);
      var n := Grant(free, op.want, op.behavior);
      if n == 0 then None else Some(op.(pc := CasHead(snap, seenTail, oppTail.pos, n)))
    case CasHead(_, _, _, _) =>
      Some(op.(pc := if env.mode.MT? && !env.c11 then LoadHead else AfterSnapshot(env, Snapshot(env, h))))
    case Copy(lo, n, _) => Some(op.(pc := if op.peek then Held(lo, n) else PublishPc(env, lo, n)))
    case WaitTail(lo, n) => Some(if h.tail.word == lo.word then op.(pc := StoreTail(lo, n)) else op)
    case RtsLoadTail(lo, n) => Some(op.(pc := RtsLoadHead(lo, n, Mark(h.tail, h.tailCnt))))
    case RtsLoadHead(lo, n, ot) =>
      var nt := if Advance(ot.aux, 1).word == h.headCnt.word then h.head else ot.pos;
      Some(op.(pc := RtsCasTail(lo, n, ot, nt, h.headCnt.pos)))
    case RtsCasTail(lo, n, _, _, _) => Some(op.(pc := RtsLoadHead(lo, n, Mark(h.tail, h.tailCnt))))
    case FinCopy(lo, n, tail, k, _) => Some(op.(pc := FinStore(lo, n, tail, k)))
    case StoreTail(_, _) => Some(op)
    case Held(_, _) => Some(op)
    case FinStore(_, _, _, _) => Some(op)
  }

  /** Does the next step of this operation move a shared counter? */
  predicate MovesHub<T>(env: Env, h: Hub<T>, op: Op<T>) {
    match op.pc
    case CasHead(snap, _, _, _) => HeadMatches(env, h, snap)
    case StoreTail(_, _) => true
    case RtsCasTail(_, _, ot, _, _) => TailMatches(h, ot)
    case FinStore(_, _, _, _) => true
    case _ => false
  }

  /** Does the next step of this operation transfer one element? */
  predicate MovesElement<T>(op: Op<T>) {
    match op.pc
    case Copy(_, n, i) => i < n
    case FinCopy(_, _, _, k, i) => i < k
    case _ => false
  }

  function HubNext<T>(env: Env, s: Side<T>, t: Tid): Side<T>
    requires t in s.ops && MovesHub(env, s.hub, s.ops[t]) && |s.hub.starts| > 0
  {
    var h, op := s.hub, s.ops[t];
    match op.pc
    case CasHead(snap, _, _, n) =>
      // dequeue start copies before it is held; enqueue start copies in finish
      var pc := if op.peek && env.kind.Producer? then Held(snap.pos, n) else Copy(snap.pos, n, 0);
      WithOp(s.(hub := Reserve(env, h, t, snap, n)), t, Some(op.(pc := pc, ticket := h.Tickets())))
    case StoreTail(lo, n) =>
      WithOp(s.(hub := Publish(h, Advance(lo, n), op.ticket, Moved(op, n))), t, None)
    case RtsCasTail(lo, n, ot, nt, _) =>
      var h' := Publish(h, nt, op.ticket, Moved(op, n)).(tailCnt := Advance(ot.aux, 1));
      WithOp(s.(hub := h'), t, None)
    case FinStore(lo, n, tail, k) =>
      // ST stores the head, then the tail; HTS stores both as one word
      var h' := Shrink(h, tail, k);
      if env.mode.ST? then
        WithOp(s.(hub := h'), t, Some(op.(pc := StoreTail(tail, k))))
      else
        WithOp(s.(hub := Publish(h', Advance(tail, k), op.ticket, Moved(op, k))), t, None)
  }

  /** One element goes from the caller's table to the ring, or from the ring to the table. */
  function ElementOp<T>(env: Env, op: Op<T>, cells: seq<T>): Op<T>
    requires env.Valid() && |cells| == env.size && MovesElement(op)
  {
    match op.pc
    case Copy(lo, n, i) =>
      var objs := if env.kind.Producer? then op.objs else op.objs + [cells[Slot(env, lo, i)]];
      op.(pc := Copy(lo, n, i + 1), objs := objs)
    case FinCopy(lo, n, tail, k, i) => op.(pc := FinCopy(lo, n, tail, k, i + 1))
  }

  function Next<T>(env: Env, s: Side<T>, t: Tid, oppTail: Counter, cells: seq<T>): Side<T>
    requires env.Valid() && |cells| == env.size && t in s.ops && |s.hub.starts| > 0
  {
    if MovesElement(s.ops[t]) then WithOp(s, t, Some(ElementOp(env, s.ops[t], cells)))
    else if MovesHub(env, s.hub, s.ops[t]) then HubNext(env, s, t)
    else WithOp(s, t, LocalOp(env, s.hub, s.ops[t], oppTail))
  }

  /** A call enters the side. ST is for one thread, and only ST and HTS support peek. */
  predicate CanBegin<T>(env: Env, s: Side<T>, t: Tid, op: Op<T>) {
    && t !in s.ops
    && op.pc.LoadHead?
    && op.want < W
    && (op.peek ==> env.Solo())
    && (env.mode.ST? ==> s.ops.Keys == {})
    && (env.kind.Producer? ==> |op.objs| == op.want)
    && (env.kind.Consumer? ==> op.objs == [])
  }

  /** The finish call on a held peek reservation: re-read head and tail and clamp the count. */
  function FinishK<T>(h: Hub<T>, k: nat): nat {
    if Sub(h.head.word, h.tail.word) >= k then k else 0
  }

  predicate CanFinish<T>(env: Env, s: Side<T>, t: Tid, k: nat, objs: seq<T>) {
    && t in s.ops && s.ops[t].pc.Held?
    && (env.kind.Producer? ==> |objs| == k)
  }

  function FinishOp<T>(env: Env, h: Hub<T>, op: Op<T>, k: nat, objs: seq<T>): Op<T>
    requires op.pc.Held?
  {
    var Held(lo, n) := op.pc;
    var num := FinishK(h, k);
    if env.kind.Producer? then op.(pc := FinCopy(lo, n, h.tail, num, 0), objs := objs)
    else op.(pc := FinStore(lo, n, h.tail, num))
  }

  function Finish<T>(env: Env, s: Side<T>, t: Tid, k: nat, objs: seq<T>): Side<T>
    requires CanFinish(env, s, t, k, objs)
  {
    WithOp(s, t, Some(FinishOp(env, s.hub, s.ops[t], k, objs)))
  }

  // ---------------------------------------------------------------- the ring's steps

  datatype Action<T> =
    | Begin(kind: Kind, t: Tid, op: Op<T>)
    | Step(kind: Kind, t: Tid)
    | EndPeek(kind: Kind, t: Tid, k: nat, objs: seq<T>)

  datatype Config = Config(prod: Env, cons: Env)
  {
    predicate Valid() {
      && prod.Valid() && cons.Valid()
      && prod.kind.Producer? && cons.kind.Consumer?
      && prod.cap == cons.cap && prod.order == cons.order && prod.size == cons.size
    }
  }

  /** The slot and log entry a producer's element step writes. */
  function WrittenCells<T>(env: Env, op: Op<T>, cells: seq<T>): (r: seq<T>)
    requires env.Valid() && |cells| == env.size
    ensures |r| == |cells|
  {
    match op.pc
    case Copy(lo, n, i) => if i < n && i < |op.objs| then cells[Slot(env, lo, i) := op.objs[i]] else cells
    case FinCopy(_, _, tail, k, i) =>
      if i < k && i < |op.objs| then cells[Slot(env, tail, i) := op.objs[i]] else cells
    case _ => cells
  }

  /** The log holds, per position, the object its producer puts there. It grows when a head moves;
      for a peek reservation the entries are settled by the copies of finish. */
  function WrittenLog<T>(env: Env, h: Hub<T>, op: Op<T>, log: seq<T>): seq<T> {
    match op.pc
    case CasHead(snap, _, _, n) => if HeadMatches(env, h, snap) then log + Moved(op, n) else log
    case FinCopy(lo, _, _, k, i) =>
      if i < k && i < |op.objs| && lo.pos + i < |log| then log[lo.pos + i := op.objs[i]] else log
    case FinStore(lo, _, _, k) => if lo.pos + k <= |log| then log[..lo.pos + k] else log
    case _ => log
  }

  predicate Shape<T>(cfg: Config, r: Ring<T>) {
    && cfg.Valid()
    && |r.cells| == cfg.prod.size
    && |r.prod.hub.starts| > 0 && |r.cons.hub.starts| > 0
  }

  predicate Enabled<T>(cfg: Config, r: Ring<T>, a: Action<T>) {
    match a
    case Begin(Producer, t, op) => CanBegin(cfg.prod, r.prod, t, op)
    case Begin(Consumer, t, op) => CanBegin(cfg.cons, r.cons, t, op)
    case Step(Producer, t) => t in r.prod.ops
    case Step(Consumer, t) => t in r.cons.ops
    case EndPeek(Producer, t, k, objs) => CanFinish(cfg.prod, r.prod, t, k, objs)
    case EndPeek(Consumer, t, k, objs) => CanFinish(cfg.cons, r.cons, t, k, objs)
  }

  function Apply<T>(cfg: Config, r: Ring<T>, a: Action<T>): Ring<T>
    requires Shape(cfg, r) && Enabled(cfg, r, a)
  {
    match a
    case Begin(Producer, t, op) => r.(prod := WithOp(r.prod, t, Some(op)))
    case Begin(Consumer, t, op) => r.(cons := WithOp(r.cons, t, Some(op)))
    case EndPeek(Producer, t, k, objs) => r.(prod := Finish(cfg.prod, r.prod, t, k, objs))
    case EndPeek(Consumer, t, k, objs) => r.(cons := Finish(cfg.cons, r.cons, t, k, objs))
    case Step(Consumer, t) =>
      r.(cons := Next(cfg.cons, r.cons, t, r.prod.hub.tail, r.cells))
    case Step(Producer, t) =>
      var op := r.prod.ops[t];
      Ring(Next(cfg.prod, r.prod, t, r.cons.hub.tail, r.cells), r.cons,
           WrittenCells(cfg.prod, op, r.cells), WrittenLog(cfg.prod, r.prod.hub, op, r.log))
  }

  /** Fewer than 2^32 positions (counts, for RTS) pass between a snapshot and its compare-and-swap. */
  predicate InWindow<T>(env: Env, s: Side<T>, t: Tid) {
    t in s.ops ==>
      match s.ops[t].pc
      case CasHead(snap, _, _, _) =>
        (match env.mode
         case MT => s.hub.head.pos - snap.pos.pos < W
         case RTS => s.hub.headCnt.pos - snap.aux.pos < W
         case HTS => s.hub.tail.pos - snap.aux.pos < W
         case ST => true)
      case RtsCasTail(_, _, ot, _, _) => s.hub.tailCnt.pos - ot.aux.pos < W
      case _ => true
  }

  predicate ActionInWindow<T>(cfg: Config, r: Ring<T>, a: Action<T>) {
    match a
    case Step(Producer, t) => InWindow(cfg.prod, r.prod, t)
    case Step(Consumer, t) => InWindow(cfg.cons, r.cons, t)
    case _ => true
  }

  function EmptySide<T>(): Side<T> {
    Side(Hub(ZERO, ZERO, ZERO, ZERO, [0], [], map[], 0), map[])
  }

  /** A fresh ring: reset counters, arbitrary slot contents. */
  predicate Init<T(==)>(cfg: Config, r: Ring<T>) {
    cfg.Valid() && r.prod == EmptySide() && r.cons == EmptySide() && |r.cells| == cfg.prod.size && r.log == []
  }

  predicate StepsTo<T(==)>(cfg: Config, r: Ring<T>, a: Action<T>, r': Ring<T>) {
    Shape(cfg, r) && Enabled(cfg, r, a) && ActionInWindow(cfg, r, a) && r' == Apply(cfg, r, a)
  }

  /** A whole run: any threads, any interleaving. */
  ghost predicate IsRun<T>(cfg: Config, run: seq<Ring<T>>, acts: seq<Action<T>>) {
    && |run| == |acts| + 1
    && Init(cfg, run[0])
    && forall i :: 0 <= i < |acts| ==> StepsTo(cfg, run[i], acts[i], run[i + 1])
  }
}
