/** The invariant of one side, and its preservation by every step of that side. */
module RingInv {
  import opened Words
  import opened RingModel

  /** The claims so far cut 0..head into one piece per ticket. */
  ghost predicate StartsInv(env: Env, starts: seq<nat>, owner: seq<Tid>, head: Counter) {
    && |starts| == |owner| + 1
    && starts[0] == 0
    && (forall i, j :: 0 <= i <= j < |starts| ==> starts[i] <= starts[j])
    && (!env.Solo() ==> forall i, j :: 0 <= i < j < |starts| ==> starts[i] < starts[j])
    && head.pos == starts[|owner|]
  }

  /** A finished ticket moved as many objects as it owned positions. */
  ghost predicate ResultsInv<T>(starts: seq<nat>, results: map<nat, seq<T>>) {
    forall k :: k in results ==> k + 1 < |starts| && starts[k] + |results[k]| == starts[k + 1]
  }

  ghost predicate HubInv<T>(env: Env, h: Hub<T>) {
    && StartsInv(env, h.starts, h.owner, h.head)
    && ResultsInv(h.starts, h.results)
    && (env.Ordered() ==> OrderedInv(h))
    && (env.Solo() ==> h.Tickets() - 1 <= h.low)
    && (env.mode.RTS? ==> RtsInv(h))
  }

  /** MT, ST, HTS: operations finish in the order in which they moved the head. */
  ghost predicate OrderedInv<T>(h: Hub<T>) {
    && h.low < |h.starts|
    && h.tail.pos == h.starts[h.low]
    && forall k: nat :: k in h.results <==> k < h.low
  }

  /** RTS: the counts number the claimed and the finished operations. */
  ghost predicate RtsInv<T>(h: Hub<T>) {
    && h.headCnt.pos == h.Tickets()
    && h.tailCnt.pos == |h.results|
    && (h.headCnt.pos == h.tailCnt.pos ==> h.head == h.tail)
  }

  /** tail <= head, and the head stays within the room that the other side's tail leaves. */
  predicate Order<T>(env: Env, h: Hub<T>, opp: Counter) {
    h.tail.pos <= h.head.pos <= env.Offset() + opp.pos <= h.tail.pos + env.cap
  }

  /** What a thread knows from a snapshot of the head. */
  ghost predicate Seen<T>(env: Env, h: Hub<T>, m: Mark)
    requires |h.starts| > 0
  {
    match env.mode
    case MT => m.pos.pos <= h.head.pos
    case ST => m.pos == h.head && h.head == h.tail
    case RTS => m.aux.pos < |h.starts| && m.pos.pos == h.starts[m.aux.pos]
    case HTS => m.aux.pos <= h.tail.pos && m.aux.pos <= m.pos.pos <= m.aux.pos + env.cap
  }

  /** ... and after the head wait let it through. */
  ghost predicate Passed<T>(env: Env, h: Hub<T>, m: Mark, seenTail: nat)
    requires |h.starts| > 0
  {
    && Seen(env, h, m)
    && (env.mode.HTS? ==> m.pos == m.aux)
    && (env.mode.RTS? ==>
          && seenTail <= h.tail.pos
          && m.pos.pos <= seenTail + env.cap
          && (m.pos.pos - seenTail) % W <= env.htdMax)
  }

  /** The thread owns positions lo..lo+n, and the tail has not passed them. */
  ghost predicate Owns<T>(env: Env, h: Hub<T>, t: Tid, op: Op<T>, lo: Counter, n: nat)
    requires |h.starts| == |h.owner| + 1
  {
    && op.ticket < |h.owner|
    && h.owner[op.ticket] == t
    && op.ticket !in h.results
    && h.starts[op.ticket] == lo.pos
    && h.starts[op.ticket + 1] == lo.pos + n
    && h.tail.pos <= lo.pos
    && n <= op.want
    && (0 < n || env.mode.ST?)
  }

  ghost predicate RtsSeen<T>(h: Hub<T>, ot: Mark) {
    && ot.aux.pos <= h.tailCnt.pos
    && (ot.aux.pos == h.tailCnt.pos ==> ot.pos == h.tail)
  }

  ghost predicate OpInv<T>(env: Env, h: Hub<T>, t: Tid, op: Op<T>, opp: Counter)
    requires |h.starts| == |h.owner| + 1
  {
    && op.want < W
    && (op.peek ==> env.Solo())
    && match op.pc
       case LoadHead => true
       case HeadWait(m) => (env.mode.RTS? || env.mode.HTS?) && Seen(env, h, m)
       case LoadOpp(m, seenTail) => Passed(env, h, m, seenTail)
       case CasHead(m, seenTail, seenOpp, n) =>
         && Passed(env, h, m, seenTail)
         && seenOpp <= opp.pos
         && m.pos.pos <= env.Offset() + seenOpp
         && 0 < n == Grant((env.Offset() + seenOpp - m.pos.pos) % W, op.want, op.behavior)
       case Copy(lo, n, i) => Owns(env, h, t, op, lo, n) && i <= n && 0 < n
       case WaitTail(lo, n) => Owns(env, h, t, op, lo, n) && env.mode.MT?
       case StoreTail(lo, n) => Owns(env, h, t, op, lo, n) && env.Ordered() && h.tail == lo
       case RtsLoadTail(lo, n) => Owns(env, h, t, op, lo, n) && env.mode.RTS?
       case RtsLoadHead(lo, n, ot) => Owns(env, h, t, op, lo, n) && env.mode.RTS? && RtsSeen(h, ot)
       case RtsCasTail(lo, n, ot, nt, hc) =>
         && Owns(env, h, t, op, lo, n) && env.mode.RTS? && RtsSeen(h, ot)
         && op.ticket < hc < |h.starts| && ot.aux.pos < hc
         && nt == (if Advance(ot.aux, 1).word == hc % W then At(h.starts[hc]) else ot.pos)
         && (h.tailCnt.pos == ot.aux.pos ==> forall k :: hc <= k ==> k !in h.results)
       case Held(lo, n) => Owns(env, h, t, op, lo, n) && op.peek
       case FinCopy(lo, n, tail, k, i) => Owns(env, h, t, op, lo, n) && op.peek && tail == lo && i <= k <= n
       case FinStore(lo, n, tail, k) => Owns(env, h, t, op, lo, n) && op.peek && tail == lo && k <= n
  }

  /** Every unfinished ticket belongs to a running operation. */
  ghost predicate Owners<T>(s: Side<T>)
    requires |s.hub.starts| == |s.hub.owner| + 1
  {
    forall k: nat :: k < |s.hub.owner| && k !in s.hub.results ==>
      && s.hub.owner[k] in s.ops
      && s.ops[s.hub.owner[k]].pc.Reserved()
      && s.ops[s.hub.owner[k]].ticket == k
  }

  ghost predicate OpsInv<T>(env: Env, s: Side<T>, opp: Counter)
    requires |s.hub.starts| == |s.hub.owner| + 1
  {
    forall t :: t in s.ops ==> OpInv(env, s.hub, t, s.ops[t], opp)
  }

  ghost predicate SideInv<T>(env: Env, s: Side<T>, opp: Counter) {
    && env.Valid()
    && HubInv(env, s.hub)
    && Order(env, s.hub, opp)
    && OpsInv(env, s, opp)
    && Owners(s)
    && (env.mode.ST? ==> forall t, u :: t in s.ops && u in s.ops ==> t == u)
  }

  /** What the side's invariant says of one operation. */
  lemma Knows<T>(env: Env, s: Side<T>, t: Tid, opp: Counter)
    requires |s.hub.starts| == |s.hub.owner| + 1 && OpsInv(env, s, opp) && t in s.ops
    ensures OpInv(env, s.hub, t, s.ops[t], opp)
  {
  }

  // ---------------------------------------------------------------- one operation's own knowledge

  /** ST and HTS: a reservation is the last ticket and is all of tail..head. */
  lemma SoloTicket<T>(env: Env, h: Hub<T>, t: Tid, op: Op<T>, lo: Counter, n: nat)
    requires HubInv(env, h) && env.Solo() && Owns(env, h, t, op, lo, n)
    ensures op.ticket == h.low == h.Tickets() - 1
    ensures h.tail == lo && h.head == Advance(lo, n)
  {
  }

  lemma HeadWaitKeeps<T>(env: Env, h: Hub<T>, t: Tid, op: Op<T>, opp: Counter)
    requires env.Valid() && HubInv(env, h) && Order(env, h, opp) && OpInv(env, h, t, op, opp) && op.pc.HeadWait?
    ensures OpInv(env, h, t, LocalOp(env, h, op, opp).value, opp)
  {
    var m := op.pc.snap;
    if env.mode.RTS? {
      SubIsExact(0, m.pos, h.tail);
      assert m.pos.pos <= h.head.pos <= h.tail.pos + env.cap;
    } else {
      SameWord(m.pos, m.aux);
    }
  }

  /** The room computed from words is the room between the positions, reduced. */
  lemma LoadOppKeeps<T>(env: Env, h: Hub<T>, t: Tid, op: Op<T>, opp: Counter)
    requires env.Valid() && HubInv(env, h) && Order(env, h, opp) && OpInv(env, h, t, op, opp) && op.pc.LoadOpp?
    ensures LocalOp(env, h, op, opp).Some? ==> OpInv(env, h, t, LocalOp(env, h, op, opp).value, opp)
  {
    var m := op.pc.snap;
    SubIsExact(env.Offset(), opp, m.pos);
    assert m.pos.pos <= h.head.pos;
    var free := Sub(env.Offset() + opp.word, m.pos.word);
    assert Grant(free, op.want, op.behavior) <= free;
  }

  /** A finisher that loads the RTS head learns which tickets cannot have finished yet. */
  lemma RtsLoadHeadKeeps<T>(env: Env, h: Hub<T>, t: Tid, op: Op<T>, opp: Counter)
    requires env.Valid() && HubInv(env, h) && OpInv(env, h, t, op, opp) && op.pc.RtsLoadHead?
    ensures OpInv(env, h, t, LocalOp(env, h, op, opp).value, opp)
  {
    FinishedFewer(h, op.ticket);
    assert At(h.head.pos) == h.head;
  }

  /** While one ticket is open, fewer operations have finished than have started. */
  lemma FinishedFewer<T>(h: Hub<T>, ticket: nat)
    requires |h.starts| == |h.owner| + 1 && ResultsInv(h.starts, h.results) && ticket < h.Tickets()
    requires ticket !in h.results
    ensures |h.results| < h.Tickets()
  {
    assert h.results.Keys < Upto(h.Tickets());
    SubsetCard(h.results.Keys, Upto(h.Tickets()));
  }

  function Upto(n: nat): (r: set<nat>)
    ensures forall k: nat :: k in r <==> k < n
    ensures |r| == n
  {
    if n == 0 then {} else Upto(n - 1) + {n - 1}
  }

  lemma SubsetCard<X>(a: set<X>, b: set<X>)
    requires a <= b
    ensures |a| <= |b|
    ensures a < b ==> |a| < |b|
    ensures |a| == |b| ==> a == b
  {
    assert b == a + (b - a);
  }

  /** Every step that moves no counter keeps what its operation knows, and its reservation. */
  lemma LocalOpKeeps<T>(env: Env, h: Hub<T>, t: Tid, op: Op<T>, opp: Counter)
    requires env.Valid() && HubInv(env, h) && Order(env, h, opp) && OpInv(env, h, t, op, opp)
    requires !MovesElement(op) && !MovesHub(env, h, op)
    requires env.mode.ST? && !op.pc.Reserved() ==> h.head == h.tail
    ensures var o := LocalOp(env, h, op, opp);
      && (o.None? ==> !op.pc.Reserved())
      && (o.Some? ==> OpInv(env, h, t, o.value, opp) && o.value.ticket == op.ticket)
      && (o.Some? && op.pc.Reserved() ==> o.value.pc.Reserved())
  {
    if op.pc.Reserved() {
      FinishStepKeeps(env, h, t, op, opp);
    } else if op.pc.HeadWait? {
      HeadWaitKeeps(env, h, t, op, opp);
    } else if op.pc.LoadOpp? {
      LoadOppKeeps(env, h, t, op, opp);
    }
  }

  lemma FinishStepKeeps<T>(env: Env, h: Hub<T>, t: Tid, op: Op<T>, opp: Counter)
    requires env.Valid() && HubInv(env, h) && Order(env, h, opp) && OpInv(env, h, t, op, opp)
    requires op.pc.Reserved() && !MovesElement(op) && !MovesHub(env, h, op)
    ensures var o := LocalOp(env, h, op, opp);
      o.Some? && OpInv(env, h, t, o.value, opp) && o.value.ticket == op.ticket && o.value.pc.Reserved()
  {
    if op.pc.RtsLoadHead? {
      RtsLoadHeadKeeps(env, h, t, op, opp);
    } else if op.pc.WaitTail? {
      SameWord(h.tail, op.pc.lo);
    } else if op.pc.Copy? && env.Solo() {
      SoloTicket(env, h, t, op, op.pc.lo, op.pc.n);
    }
  }

  /** finish re-reads the counters and clamps the caller's count to the reservation. */
  lemma FinishOpKeeps<T>(env: Env, h: Hub<T>, t: Tid, op: Op<T>, k: nat, objs: seq<T>, opp: Counter)
    requires env.Valid() && HubInv(env, h) && Order(env, h, opp) && OpInv(env, h, t, op, opp) && op.pc.Held?
    ensures FinishK(h, k) == if k <= op.pc.n then k else 0
    ensures OpInv(env, h, t, FinishOp(env, h, op, k, objs), opp)
  {
    SoloTicket(env, h, t, op, op.pc.lo, op.pc.n);
    SubIsExact(0, h.head, h.tail);
  }

  // ---------------------------------------------------------------- the side

  /** Replacing one operation by another with the same reservation keeps the rest. */
  lemma Replaced<T>(env: Env, s: Side<T>, t: Tid, o: Option<Op<T>>, opp: Counter)
    requires SideInv(env, s, opp) && t in s.ops
    requires o.Some? ==> OpInv(env, s.hub, t, o.value, opp)
    requires s.ops[t].pc.Reserved() ==> o.Some? && o.value.pc.Reserved() && o.value.ticket == s.ops[t].ticket
    ensures SideInv(env, WithOp(s, t, o), opp)
  {
  }

  lemma LocalKeeps<T>(env: Env, s: Side<T>, t: Tid, opp: Counter)
    requires SideInv(env, s, opp) && t in s.ops && !MovesElement(s.ops[t]) && !MovesHub(env, s.hub, s.ops[t])
    ensures SideInv(env, WithOp(s, t, LocalOp(env, s.hub, s.ops[t], opp)), opp)
  {
    Knows(env, s, t, opp);
    if env.mode.ST? && !s.ops[t].pc.Reserved() {
      assert s.hub.low !in s.hub.results;
      assert s.hub.low == s.hub.Tickets();
    }
    LocalOpKeeps(env, s.hub, t, s.ops[t], opp);
    Replaced(env, s, t, LocalOp(env, s.hub, s.ops[t], opp), opp);
  }

  lemma ElementKeeps<T>(env: Env, s: Side<T>, t: Tid, opp: Counter, cells: seq<T>)
    requires SideInv(env, s, opp) && t in s.ops && MovesElement(s.ops[t]) && |cells| == env.size
    ensures SideInv(env, WithOp(s, t, Some(ElementOp(env, s.ops[t], cells))), opp)
  {
    Knows(env, s, t, opp);
    Replaced(env, s, t, Some(ElementOp(env, s.ops[t], cells)), opp);
  }

  lemma BeginKeeps<T>(env: Env, s: Side<T>, t: Tid, op: Op<T>, opp: Counter)
    requires SideInv(env, s, opp) && CanBegin(env, s, t, op)
    ensures SideInv(env, WithOp(s, t, Some(op)), opp)
  {
  }

  lemma FinishKeeps<T>(env: Env, s: Side<T>, t: Tid, k: nat, objs: seq<T>, opp: Counter)
    requires SideInv(env, s, opp) && CanFinish(env, s, t, k, objs)
    ensures SideInv(env, Finish(env, s, t, k, objs), opp)
  {
    Knows(env, s, t, opp);
    FinishOpKeeps(env, s.hub, t, s.ops[t], k, objs, opp);
    Replaced(env, s, t, Some(FinishOp(env, s.hub, s.ops[t], k, objs)), opp);
  }

  /** The other side's tail only moves up, and that disturbs nothing here. */
  lemma OppMoves<T>(env: Env, s: Side<T>, opp: Counter, opp': Counter)
    requires SideInv(env, s, opp) && opp.pos <= opp'.pos && env.Offset() + opp'.pos <= s.hub.tail.pos + env.cap
    ensures SideInv(env, s, opp')
  {
    forall t | t in s.ops ensures OpInv(env, s.hub, t, s.ops[t], opp') {
      Knows(env, s, t, opp);
    }
  }
}
