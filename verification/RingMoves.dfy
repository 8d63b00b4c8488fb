/** The steps that move a shared counter: claiming, publishing, and giving back. */
module RingMoves {
  import opened Words
  import opened RingModel
  import opened RingInv

  // ---------------------------------------------------------------- claiming

  /** When the 32-bit compare-and-swap succeeds, the snapshot is the current head, the room computed
      from the earlier reads is between n and the capacity and no more than the true room, n is what
      the caller's behaviour allows in that room, and an RTS head is at most htdMax ahead of its tail. */
  lemma CasIsExact<T>(env: Env, s: Side<T>, t: Tid, opp: Counter)
    requires SideInv(env, s, opp) && t in s.ops && s.ops[t].pc.CasHead? && InWindow(env, s, t)
    requires HeadMatches(env, s.hub, s.ops[t].pc.snap)
    ensures s.ops[t].pc.snap.pos == s.hub.head
    ensures env.mode.RTS? ==> s.ops[t].pc.snap.aux == s.hub.headCnt
    ensures env.Solo() ==> s.hub.head == s.hub.tail
    ensures var room := env.Offset() + s.ops[t].pc.seenOpp - s.hub.head.pos;
            && s.ops[t].pc.n <= room <= env.cap && room <= env.Offset() + opp.pos - s.hub.head.pos
            && s.ops[t].pc.n == Grant(room, s.ops[t].want, s.ops[t].behavior)
    ensures env.mode.RTS? ==> s.hub.head.pos - s.hub.tail.pos <= env.htdMax
  {
    var h := s.hub;
    var CasHead(m, seenTail, seenOpp, n) := s.ops[t].pc;
    SnapshotIsHead(env, h, m, s, t, opp);
    assert 0 <= env.Offset() + seenOpp - m.pos.pos <= env.cap < W;
    ModSmall(env.Offset() + seenOpp - m.pos.pos);
    if env.mode.RTS? {
      ModSmall(m.pos.pos - seenTail);
    }
  }

  lemma ModSmall(x: int)
    requires 0 <= x < W
    ensures x % W == x
  {
  }

  lemma SnapshotIsHead<T>(env: Env, h: Hub<T>, m: Mark, s: Side<T>, t: Tid, opp: Counter)
    requires SideInv(env, s, opp) && t in s.ops && s.ops[t].pc.CasHead? && InWindow(env, s, t)
    requires h == s.hub && m == s.ops[t].pc.snap && HeadMatches(env, h, m)
    ensures m.pos == h.head
    ensures env.mode.RTS? ==> m.aux == h.headCnt
    ensures env.mode.HTS? ==> m.aux == h.tail
    ensures env.Solo() ==> h.head == h.tail
  {
    match env.mode
    case ST =>
    case MT => SameWord(h.head, m.pos);
    case RTS => SameWord(h.headCnt, m.aux);
    case HTS =>
      SameWord(h.tail, m.aux);
      SameWord(h.head, m.pos);
  }

  lemma ReserveHub<T>(env: Env, h: Hub<T>, t: Tid, n: nat, opp: Counter)
    requires env.Valid() && HubInv(env, h) && Order(env, h, opp)
    requires 0 < n && h.head.pos + n <= env.Offset() + opp.pos
    requires env.Solo() ==> h.head == h.tail && h.low == h.Tickets()
    ensures var h' := Reserve(env, h, t, Mark(h.head, h.headCnt), n);
            HubInv(env, h') && Order(env, h', opp)
  {
    var h' := Reserve(env, h, t, Mark(h.head, h.headCnt), n);
    assert h'.Tickets() == h.Tickets() + 1;
    forall i, j | 0 <= i < j < |h'.starts|
      ensures h'.starts[i] <= h'.starts[j] && (!env.Solo() ==> h'.starts[i] < h'.starts[j])
    {
    }
    assert h.headCnt.pos == h.tailCnt.pos || !env.mode.RTS? || h.tailCnt.pos < h.headCnt.pos by {
      if env.mode.RTS? { SubsetCard(h.results.Keys, Upto(h.Tickets())); }
    }
  }

  /** A claim disturbs no other operation. */
  lemma ReserveOther<T>(env: Env, h: Hub<T>, t: Tid, n: nat, u: Tid, op: Op<T>, opp: Counter)
    requires env.Valid() && HubInv(env, h) && !env.mode.ST? && OpInv(env, h, u, op, opp)
    requires env.mode.RTS? ==> h.headCnt.pos == h.Tickets()
    requires env.mode.HTS? ==> !op.pc.Reserved()
    ensures OpInv(env, Reserve(env, h, t, Mark(h.head, h.headCnt), n), u, op, opp)
  {
  }

  /** ... and gives the claimer what it owns. */
  lemma ReserveOwn<T>(env: Env, h: Hub<T>, t: Tid, op: Op<T>, n: nat, opp: Counter)
    requires env.Valid() && HubInv(env, h) && Order(env, h, opp)
    requires op.want < W && (op.peek ==> env.Solo()) && 0 < n <= op.want && op.ticket == h.Tickets()
    requires (op.pc == Held(h.head, n) && op.peek) || op.pc == Copy(h.head, n, 0)
    ensures OpInv(env, Reserve(env, h, t, Mark(h.head, h.headCnt), n), t, op, opp)
  {
  }

  lemma ReserveOps<T>(env: Env, s: Side<T>, t: Tid, op': Op<T>, n: nat, opp: Counter)
    requires SideInv(env, s, opp) && t in s.ops && !s.ops[t].pc.Reserved() && op'.pc.Reserved()
    requires op'.ticket == s.hub.Tickets()
    requires env.Solo() ==> forall u :: u in s.ops ==> !s.ops[u].pc.Reserved()
    requires OpInv(env, Reserve(env, s.hub, t, Mark(s.hub.head, s.hub.headCnt), n), t, op', opp)
    ensures var s' := Side(Reserve(env, s.hub, t, Mark(s.hub.head, s.hub.headCnt), n), s.ops[t := op']);
            OpsInv(env, s', opp) && Owners(s')
  {
    var s' := Side(Reserve(env, s.hub, t, Mark(s.hub.head, s.hub.headCnt), n), s.ops[t := op']);
    forall u | u in s'.ops && u != t ensures OpInv(env, s'.hub, u, s'.ops[u], opp) {
      Knows(env, s, u, opp);
      ReserveOther(env, s.hub, t, n, u, s.ops[u], opp);
    }
  }

  lemma ReserveKeeps<T>(env: Env, s: Side<T>, t: Tid, opp: Counter)
    requires SideInv(env, s, opp) && t in s.ops && s.ops[t].pc.CasHead? && InWindow(env, s, t)
    requires MovesHub(env, s.hub, s.ops[t])
    ensures SideInv(env, HubNext(env, s, t), opp)
  {
    var h, op := s.hub, s.ops[t];
    CasIsExact(env, s, t, opp);
    if env.Solo() { SoloIdle(env, s, t, opp); }
    ReserveHub(env, h, t, op.pc.n, opp);
    var s' := HubNext(env, s, t);
    assert s'.hub == Reserve(env, h, t, Mark(h.head, h.headCnt), op.pc.n);
    ReserveOwn(env, h, t, s'.ops[t], op.pc.n, opp);
    ReserveOps(env, s, t, s'.ops[t], op.pc.n, opp);
    assert s' == Side(s'.hub, s.ops[t := s'.ops[t]]);
  }

  /** ST and HTS: when one thread is still claiming and head == tail, nothing is in flight. */
  lemma SoloIdle<T>(env: Env, s: Side<T>, t: Tid, opp: Counter)
    requires SideInv(env, s, opp) && env.Solo() && s.hub.head == s.hub.tail
    requires t in s.ops && !s.ops[t].pc.Reserved()
    ensures s.hub.low == s.hub.Tickets()
    ensures forall u :: u in s.ops ==> !s.ops[u].pc.Reserved()
  {
    var h := s.hub;
    if h.low < h.Tickets() {
      OpenTicket(env, s, h.low, opp);
    }
  }

  /** An unfinished ticket is held by its owner. */
  lemma OpenTicket<T>(env: Env, s: Side<T>, k: nat, opp: Counter)
    requires SideInv(env, s, opp) && k < s.hub.Tickets() && k !in s.hub.results
    ensures s.hub.owner[k] in s.ops && s.ops[s.hub.owner[k]].pc.Reserved() && s.ops[s.hub.owner[k]].ticket == k
    ensures s.hub.starts[k + 1] > s.hub.starts[k] || env.mode.ST?
    ensures s.hub.tail.pos <= s.hub.starts[k]
  {
    Knows(env, s, s.hub.owner[k], opp);
  }

  // ---------------------------------------------------------------- publishing, in order

  /** The operation whose turn it is holds the lowest open ticket. */
  lemma TurnIsLow<T>(env: Env, s: Side<T>, t: Tid, opp: Counter)
    requires SideInv(env, s, opp) && t in s.ops && s.ops[t].pc.StoreTail?
    ensures s.ops[t].ticket == s.hub.low
    ensures s.hub.starts[s.hub.low + 1] == s.ops[t].pc.lo.pos + s.ops[t].pc.n
    ensures s.hub.tail == s.ops[t].pc.lo
  {
    Knows(env, s, t, opp);
    if env.Solo() { SoloTicket(env, s.hub, t, s.ops[t], s.ops[t].pc.lo, s.ops[t].pc.n); }
  }

  lemma PublishHub<T>(env: Env, h: Hub<T>, tail: Counter, objs: seq<T>, opp: Counter)
    requires env.Valid() && HubInv(env, h) && Order(env, h, opp) && env.Ordered() && h.low < h.Tickets()
    requires tail.pos == h.starts[h.low + 1] && |objs| == tail.pos - h.tail.pos
    ensures var h' := Publish(h, tail, h.low, objs); HubInv(env, h') && Order(env, h', opp)
  {
    PublishResults(h.starts, h.results, h.low, objs);
    PublishLow(h, tail, objs);
    assert h.starts[h.low + 1] <= h.starts[|h.owner|];
  }

  lemma PublishResults<T>(starts: seq<nat>, results: map<nat, seq<T>>, k: nat, objs: seq<T>)
    requires ResultsInv(starts, results) && k + 1 < |starts| && starts[k] + |objs| == starts[k + 1]
    ensures ResultsInv(starts, results[k := objs])
  {
  }

  lemma PublishLow<T>(h: Hub<T>, tail: Counter, objs: seq<T>)
    requires |h.starts| == |h.owner| + 1 && OrderedInv(h) && h.low < h.Tickets() && tail.pos == h.starts[h.low + 1]
    ensures OrderedInv(Publish(h, tail, h.low, objs))
  {
  }

  /** Publishing in order disturbs no other operation: their positions all lie above. */
  lemma PublishOther<T>(env: Env, h: Hub<T>, t: Tid, tail: Counter, objs: seq<T>, u: Tid, op: Op<T>, opp: Counter)
    requires env.Valid() && HubInv(env, h) && env.Ordered() && h.low < h.Tickets() && !env.mode.ST?
    requires tail.pos == h.starts[h.low + 1] && h.owner[h.low] == t && u != t && OpInv(env, h, u, op, opp)
    requires env.mode.HTS? ==> !op.pc.Reserved()
    ensures OpInv(env, Publish(h, tail, h.low, objs), u, op, opp)
  {
    if op.pc.Reserved() {
      assert op.ticket > h.low;
      assert h.starts[h.low + 1] <= h.starts[op.ticket];
    }
  }

  lemma StoreTailKeeps<T>(env: Env, s: Side<T>, t: Tid, opp: Counter)
    requires SideInv(env, s, opp) && t in s.ops && s.ops[t].pc.StoreTail? && s.ops[t].pc.n <= |s.ops[t].objs|
    ensures SideInv(env, HubNext(env, s, t), opp)
    ensures s.hub.tail.pos <= HubNext(env, s, t).hub.tail.pos
  {
    TurnIsLow(env, s, t, opp);
    var h := s.hub;
    var StoreTail(lo, n) := s.ops[t].pc;
    PublishHub(env, h, Advance(lo, n), Moved(s.ops[t], n), opp);
    PublishOps(env, s, t, h, Advance(lo, n), Moved(s.ops[t], n), opp);
    var h' := Publish(h, Advance(lo, n), h.low, Moved(s.ops[t], n));
    assert HubNext(env, s, t) == WithOp(s.(hub := h'), t, None);
    Left(env, s, t, h', opp);
  }

  /** `h0` is the side's hub, possibly with its last reservation already shrunk. */
  lemma PublishOps<T>(env: Env, s: Side<T>, t: Tid, h0: Hub<T>, tail: Counter, objs: seq<T>, opp: Counter)
    requires SideInv(env, s, opp) && env.Ordered() && t in s.ops && s.ops[t].pc.Reserved()
    requires s.ops[t].ticket == s.hub.low
    requires h0 == s.hub || (env.mode.HTS? && HubInv(env, h0) && h0 == s.hub.(head := h0.head, starts := h0.starts))
    requires tail.pos == h0.starts[h0.low + 1]
    ensures forall u :: u in s.ops && u != t ==> OpInv(env, Publish(h0, tail, h0.low, objs), u, s.ops[u], opp)
  {
    var h' := Publish(h0, tail, h0.low, objs);
    Knows(env, s, t, opp);
    forall u | u in s.ops && u != t ensures OpInv(env, h', u, s.ops[u], opp) {
      Knows(env, s, u, opp);
      if env.Solo() { AloneWhenReserved(env, s, t, u, opp); }
      ShrinkOther(env, s, h0, u, opp);
      PublishOther(env, h0, t, tail, objs, u, s.ops[u], opp);
    }
  }

  /** ST and HTS: no second operation holds a reservation. */
  lemma AloneWhenReserved<T>(env: Env, s: Side<T>, t: Tid, u: Tid, opp: Counter)
    requires SideInv(env, s, opp) && env.Solo() && t in s.ops && u in s.ops && t != u && s.ops[t].pc.Reserved()
    ensures !s.ops[u].pc.Reserved() && env.mode.HTS?
  {
    Knows(env, s, t, opp);
    Knows(env, s, u, opp);
  }

  /** Once the owner of a ticket has published and left, the side is whole again. */
  lemma Left<T>(env: Env, s: Side<T>, t: Tid, h': Hub<T>, opp: Counter)
    requires SideInv(env, s, opp) && t in s.ops && s.ops[t].pc.Reserved()
    requires HubInv(env, h') && Order(env, h', opp) && h'.owner == s.hub.owner
    requires h'.results.Keys == s.hub.results.Keys + {s.ops[t].ticket}
    requires forall u :: u in s.ops && u != t ==> OpInv(env, h', u, s.ops[u], opp)
    ensures SideInv(env, WithOp(s.(hub := h'), t, None), opp)
  {
    forall k: nat | k < |h'.owner| && k !in h'.results
      ensures h'.owner[k] != t && h'.owner[k] in s.ops && s.ops[h'.owner[k]].pc.Reserved()
      ensures s.ops[h'.owner[k]].ticket == k
    {
      OpenTicket(env, s, k, opp);
    }
  }

  /** HTS: threads that are still claiming depend on the tail only. */
  lemma ShrinkOther<T>(env: Env, s: Side<T>, h0: Hub<T>, u: Tid, opp: Counter)
    requires u in s.ops && |s.hub.starts| == |s.hub.owner| + 1 && OpInv(env, s.hub, u, s.ops[u], opp)
    requires h0 == s.hub || (env.mode.HTS? && h0 == s.hub.(head := h0.head, starts := h0.starts))
    requires h0 != s.hub ==> !s.ops[u].pc.Reserved()
    requires |h0.starts| == |h0.owner| + 1
    ensures OpInv(env, h0, u, s.ops[u], opp)
  {
  }

  // ---------------------------------------------------------------- publishing, relaxed (RTS)

  /** The lowest ticket that has not finished. */
  ghost function FirstOpen(done: set<nat>, from: nat, n: nat): (k: nat)
    requires from <= n && Upto(from) <= done && exists j: nat :: j < n && j !in done
    ensures k < n && k !in done && Upto(k) <= done
    decreases n - from
  {
    if from !in done then from else FirstOpen(done, from + 1, n)
  }

  /** In-flight operations occupy distinct positions of tail..head, so there are at most that many. */
  lemma InFlightBound<T>(env: Env, s: Side<T>, opp: Counter)
    requires SideInv(env, s, opp) && env.mode.RTS?
    ensures 0 <= s.hub.headCnt.pos - s.hub.tailCnt.pos <= s.hub.head.pos - s.hub.tail.pos <= env.cap
  {
    var h := s.hub;
    var n := h.Tickets();
    SubsetCard(h.results.Keys, Upto(n));
    if h.results.Keys != Upto(n) {
      var j :| j in Upto(n) && j !in h.results.Keys;
      var k := FirstOpen(h.results.Keys, 0, n);
      SubsetCard(Upto(k), h.results.Keys);
      OpenTicket(env, s, k, opp);
      StrictGap(env, h.starts, h.owner, h.head, k, n);
    }
  }

  lemma StrictGap(env: Env, starts: seq<nat>, owner: seq<Tid>, head: Counter, i: nat, j: nat)
    requires StartsInv(env, starts, owner, head) && !env.Solo() && i <= j < |starts|
    ensures starts[j] - starts[i] >= j - i
  {
    if i < j { StrictGap(env, starts, owner, head, i, j - 1); }
  }

  /** When the 32-bit tail compare-and-swap succeeds, no operation finished since the finisher's tail
      load; and if it advances the position, every ticket below the loaded head has finished. */
  lemma RtsCasIsExact<T>(env: Env, s: Side<T>, t: Tid, opp: Counter)
    requires SideInv(env, s, opp) && t in s.ops && s.ops[t].pc.RtsCasTail? && InWindow(env, s, t)
    requires TailMatches(s.hub, s.ops[t].pc.ot)
    ensures var h := s.hub; var RtsCasTail(lo, n, ot, nt, hc) := s.ops[t].pc;
      && ot == Mark(h.tail, h.tailCnt)
      && h.tailCnt.pos + 1 <= hc <= h.headCnt.pos
      && h.tail.pos <= nt.pos <= h.head.pos
      && (hc == h.tailCnt.pos + 1 ==>
            nt.pos == h.starts[hc] && forall k: nat :: k < hc && k != s.ops[t].ticket ==> k in h.results)
      && (hc != h.tailCnt.pos + 1 ==> nt == h.tail)
  {
    var h := s.hub;
    var op := s.ops[t];
    var RtsCasTail(lo, n, ot, nt, hc) := op.pc;
    Knows(env, s, t, opp);
    SameWord(h.tailCnt, ot.aux);
    InFlightBound(env, s, opp);
    SameWord(Advance(ot.aux, 1), At(hc));
    if hc == h.tailCnt.pos + 1 {
      AllButOne(h, op.ticket, hc);
      assert h.starts[op.ticket] <= h.starts[hc] <= h.starts[|h.owner|];
    }
  }

  /** Counting: hc - 1 operations finished, none of them numbered hc or more, and `mine` is not one
      of them. So all others below hc have finished. */
  lemma AllButOne<T>(h: Hub<T>, mine: nat, hc: nat)
    requires |h.results| == hc - 1 && mine < hc && mine !in h.results
    requires forall k :: hc <= k ==> k !in h.results
    ensures forall k: nat :: k < hc && k != mine ==> k in h.results
  {
    var below := Upto(hc) - {mine};
    assert h.results.Keys <= below;
    SubsetCard(h.results.Keys, below);
  }

  function RtsPublished<T>(h: Hub<T>, nt: Counter, ticket: nat, objs: seq<T>): Hub<T> {
    Publish(h, nt, ticket, objs).(tailCnt := Advance(h.tailCnt, 1))
  }

  lemma RtsPublishHub<T>(env: Env, s: Side<T>, t: Tid, objs: seq<T>, opp: Counter)
    requires SideInv(env, s, opp) && t in s.ops && s.ops[t].pc.RtsCasTail? && InWindow(env, s, t)
    requires TailMatches(s.hub, s.ops[t].pc.ot) && |objs| == s.ops[t].pc.n
    ensures var h' := RtsPublished(s.hub, s.ops[t].pc.nt, s.ops[t].ticket, objs);
            HubInv(env, h') && Order(env, h', opp)
  {
    var h, op := s.hub, s.ops[t];
    Knows(env, s, t, opp);
    RtsCasIsExact(env, s, t, opp);
    PublishResults(h.starts, h.results, op.ticket, objs);
    var h' := RtsPublished(h, op.pc.nt, op.ticket, objs);
    assert h'.results.Keys == h.results.Keys + {op.ticket};
    assert |h'.results| == |h.results| + 1;
  }

  /** nt is where ticket hc starts, and every earlier ticket but one has finished. */
  ghost predicate EndsAt<T>(h: Hub<T>, nt: Counter, ticket: nat, hc: nat) {
    && hc < |h.starts| && nt.pos == h.starts[hc]
    && forall k: nat :: k < hc && k != ticket ==> k in h.results
  }

  /** A relaxed publish disturbs no other operation. */
  lemma RtsPublishOther<T>(env: Env, h: Hub<T>, t: Tid, nt: Counter, ticket: nat, objs: seq<T>, u: Tid, op: Op<T>,
                           opp: Counter)
    requires HubInv(env, h) && env.mode.RTS? && ticket < |h.owner| && h.owner[ticket] == t && u != t
    requires h.tail.pos <= nt.pos && OpInv(env, h, u, op, opp)
    requires nt == h.tail || exists hc: nat :: EndsAt(h, nt, ticket, hc)
    ensures OpInv(env, RtsPublished(h, nt, ticket, objs), u, op, opp)
  {
    if op.pc.Reserved() && nt != h.tail {
      var hc: nat :| EndsAt(h, nt, ticket, hc);
      assert hc <= op.ticket;
    }
  }

  lemma RtsPublishOps<T>(env: Env, s: Side<T>, t: Tid, objs: seq<T>, opp: Counter)
    requires SideInv(env, s, opp) && t in s.ops && s.ops[t].pc.RtsCasTail? && InWindow(env, s, t)
    requires TailMatches(s.hub, s.ops[t].pc.ot)
    ensures var h' := RtsPublished(s.hub, s.ops[t].pc.nt, s.ops[t].ticket, objs);
            forall u :: u in s.ops && u != t ==> OpInv(env, h', u, s.ops[u], opp)
  {
    var h, op := s.hub, s.ops[t];
    RtsCasIsExact(env, s, t, opp);
    assert op.pc.nt == h.tail || EndsAt(h, op.pc.nt, op.ticket, op.pc.hc);
    forall u | u in s.ops && u != t
      ensures OpInv(env, RtsPublished(h, op.pc.nt, op.ticket, objs), u, s.ops[u], opp)
    {
      RtsPublishOther(env, h, t, op.pc.nt, op.ticket, objs, u, s.ops[u], opp);
    }
  }

  /** The finisher leaves, and its side keeps the invariant. */
  lemma RtsLeaves<T>(env: Env, s: Side<T>, t: Tid, objs: seq<T>, opp: Counter)
    requires SideInv(env, s, opp) && t in s.ops && s.ops[t].pc.RtsCasTail? && InWindow(env, s, t)
    requires TailMatches(s.hub, s.ops[t].pc.ot) && |objs| == s.ops[t].pc.n
    ensures var h' := RtsPublished(s.hub, s.ops[t].pc.nt, s.ops[t].ticket, objs);
            SideInv(env, WithOp(s.(hub := h'), t, None), opp)
  {
    var h, op := s.hub, s.ops[t];
    var h' := RtsPublished(h, op.pc.nt, op.ticket, objs);
    RtsPublishHub(env, s, t, objs, opp);
    RtsPublishOps(env, s, t, objs, opp);
    assert h'.results.Keys == h.results.Keys + {op.ticket};
    Left(env, s, t, h', opp);
  }

  lemma RtsCasTailKeeps<T>(env: Env, s: Side<T>, t: Tid, opp: Counter)
    requires SideInv(env, s, opp) && t in s.ops && s.ops[t].pc.RtsCasTail? && InWindow(env, s, t)
    requires TailMatches(s.hub, s.ops[t].pc.ot) && s.ops[t].pc.n <= |s.ops[t].objs|
    ensures SideInv(env, HubNext(env, s, t), opp)
    ensures s.hub.tail.pos <= HubNext(env, s, t).hub.tail.pos
  {
    var op := s.ops[t];
    var objs := Moved(op, op.pc.n);
    RtsCasIsExact(env, s, t, opp);
    RtsLeaves(env, s, t, objs, opp);
    assert HubNext(env, s, t) == WithOp(s.(hub := RtsPublished(s.hub, op.pc.nt, op.ticket, objs)), t, None);
  }

  // ---------------------------------------------------------------- peek finish

  lemma ShrinkHub<T>(env: Env, h: Hub<T>, t: Tid, op: Op<T>, k: nat, opp: Counter)
    requires env.Valid() && HubInv(env, h) && Order(env, h, opp) && env.Solo()
    requires op.pc.FinStore? && Owns(env, h, t, op, op.pc.lo, op.pc.n) && k <= op.pc.n
    ensures var h' := Shrink(h, op.pc.lo, k);
      HubInv(env, h') && Order(env, h', opp) && h'.starts[h'.low + 1] == h.tail.pos + k && h'.tail == op.pc.lo
  {
    SoloTicket(env, h, t, op, op.pc.lo, op.pc.n);
  }

  /** ST: the head store of finish leaves a reservation of k positions to publish. */
  lemma FinStoreSt<T>(env: Env, s: Side<T>, t: Tid, opp: Counter)
    requires SideInv(env, s, opp) && t in s.ops && s.ops[t].pc.FinStore? && env.mode.ST?
    ensures SideInv(env, HubNext(env, s, t), opp)
  {
    var h, op := s.hub, s.ops[t];
    Knows(env, s, t, opp);
    SoloTicket(env, h, t, op, op.pc.lo, op.pc.n);
    ShrinkHub(env, h, t, op, op.pc.k, opp);
    var op' := op.(pc := StoreTail(op.pc.tail, op.pc.k));
    var h' := Shrink(h, op.pc.tail, op.pc.k);
    assert s.ops.Keys == {t};
    assert HubNext(env, s, t) == WithOp(s.(hub := h'), t, Some(op'));
    assert OpInv(env, h', t, op', opp);
  }

  lemma FinStoreKeeps<T>(env: Env, s: Side<T>, t: Tid, opp: Counter)
    requires SideInv(env, s, opp) && t in s.ops && s.ops[t].pc.FinStore? && s.ops[t].pc.k <= |s.ops[t].objs|
    requires env.mode.HTS?
    ensures SideInv(env, HubNext(env, s, t), opp)
  {
    var h, op := s.hub, s.ops[t];
    var FinStore(lo, n, tail, k) := op.pc;
    Knows(env, s, t, opp);
    SoloTicket(env, h, t, op, lo, n);
    ShrinkHub(env, h, t, op, k, opp);
    var h0 := Shrink(h, tail, k);
    var h' := Publish(h0, Advance(tail, k), op.ticket, Moved(op, k));
    PublishHub(env, h0, Advance(tail, k), Moved(op, k), opp);
    PublishOps(env, s, t, h0, Advance(tail, k), Moved(op, k), opp);
    Left(env, s, t, h', opp);
    assert HubNext(env, s, t) == WithOp(s.(hub := h'), t, None);
  }
}
