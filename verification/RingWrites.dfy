/** Producer steps keep the ring's data invariant, although they write slots and the log. */
module RingWrites {
  import opened Words
  import opened RingModel
  import opened RingInv
  import opened RingMoves
  import opened RingData

  // ---------------------------------------------------------------- what other data does not notice

  /** A longer or shorter log that agrees up to the objects' end. */
  lemma LoggedAgree<T>(log: seq<T>, log': seq<T>, lo: nat, objs: seq<T>, n: nat)
    requires Logged(log, lo, objs, n) && lo + n <= |log'|
    requires forall q :: lo <= q < lo + n ==> log'[q] == log[q]
    ensures Logged(log', lo, objs, n)
  {
  }

  /** Writing the slot of position p leaves the slots of all other positions in the window. */
  lemma StoredElsewhere<T>(cells: seq<T>, size: nat, p: nat, x: T, lo: nat, objs: seq<T>, n: nat, from: nat)
    requires size > 0 && |cells| == size && Stored(cells, size, lo, objs, n, from)
    requires p < lo || lo + n <= p
    requires lo + n - p <= size && (p - lo < size || p - from < size)
    ensures Stored(cells[Wrap(p, size) := x], size, lo, objs, n, from)
  {
    forall j | 0 <= j < n && from <= lo + j
      ensures cells[Wrap(p, size) := x][Wrap(lo + j, size)] == objs[j]
    {
      if Wrap(lo + j, size) == Wrap(p, size) { SlotsDistinct(lo + j, p, size); }
    }
  }

  /** Different tickets own disjoint positions. */
  lemma TicketsDisjoint(env: Env, starts: seq<nat>, owner: seq<Tid>, head: Counter, a: nat, b: nat)
    requires StartsInv(env, starts, owner, head) && a < |owner| && b < |owner| && a != b
    ensures starts[a + 1] <= starts[b] || starts[b + 1] <= starts[a]
    ensures starts[a + 1] <= head.pos
  {
  }

  /** What consumers hold lies below the producers' tail, where the log is settled. */
  lemma ConsOpsAgree<T>(s: Side<T>, log: seq<T>, log': seq<T>, tail: nat, limit: nat)
    requires ConsOps(s, log, tail) && tail <= limit && tail <= |log'| && tail <= |log|
    requires forall q :: 0 <= q < tail ==> log'[q] == log[q]
    ensures ConsOps(s, log', limit)
  {
    forall t | t in s.ops ensures ConsOp(s.ops[t], log', limit) {
      var op := s.ops[t];
      assert ConsOp(op, log, tail);
      if op.pc.Reserved() { LoggedAgree(log, log', op.pc.lo.pos, op.objs, |op.objs|); }
    }
  }

  lemma ConsResultsAgree<T>(env: Env, h: Hub<T>, log: seq<T>, log': seq<T>, tail: Counter)
    requires HubInv(env, h) && Order(env, h, tail) && env.kind.Consumer? && ConsResults(h, log)
    requires tail.pos <= |log'| && tail.pos <= |log| && forall q :: 0 <= q < tail.pos ==> log'[q] == log[q]
    ensures ConsResults(h, log')
  {
    forall k | k in h.results ensures Logged(log', h.starts[k], h.results[k], |h.results[k]|) {
      assert h.starts[k + 1] <= h.starts[|h.owner|];
      LoggedAgree(log, log', h.starts[k], h.results[k], |h.results[k]|);
    }
  }

  /** The log and stored counts of an operation stay within its reservation. */
  lemma CountsWithin<T>(env: Env, h: Hub<T>, u: Tid, op: Op<T>, opp: Counter)
    requires HubInv(env, h) && OpInv(env, h, u, op, opp) && op.pc.Reserved()
    ensures StoredCount(op.pc) <= LoggedCount(op.pc) <= op.pc.n
    ensures op.pc.lo.pos + op.pc.n <= h.head.pos && h.tail.pos <= op.pc.lo.pos
    ensures op.ticket < |h.owner| && h.owner[op.ticket] == u
    ensures h.starts[op.ticket] == op.pc.lo.pos && h.starts[op.ticket + 1] == op.pc.lo.pos + op.pc.n
  {
    assert h.starts[op.ticket + 1] <= h.starts[|h.owner|];
  }

  // ---------------------------------------------------------------- one written position

  /** Position p belongs to ticket `mine`; writing its slot, and its log entry, disturbs nothing else. */
  lemma OtherOpAgrees<T>(env: Env, h: Hub<T>, mine: nat, p: nat, x: T, u: Tid, op: Op<T>, opp: Counter, log: seq<T>,
                         log': seq<T>, cells: seq<T>)
    requires env.Valid() && |cells| == env.size && HubInv(env, h) && Order(env, h, opp) && OpInv(env, h, u, op, opp)
    requires mine < |h.owner| && h.owner[mine] != u && h.starts[mine] <= p < h.starts[mine + 1] && h.tail.pos <= p
    requires ProdOp(env, op, log, cells) && |log'| == |log|
    requires forall q :: 0 <= q < |log| && q != p ==> log'[q] == log[q]
    ensures ProdOp(env, op, log', cells[Wrap(p, env.size) := x])
  {
    if op.pc.Reserved() {
      CountsWithin(env, h, u, op, opp);
      TicketsDisjoint(env, h.starts, h.owner, h.head, mine, op.ticket);
      LoggedAgree(log, log', op.pc.lo.pos, op.objs, LoggedCount(op.pc));
      StoredElsewhere(cells, env.size, p, x, op.pc.lo.pos, op.objs, StoredCount(op.pc), 0);
    }
  }

  lemma ResultsAgree<T>(env: Env, h: Hub<T>, mine: nat, p: nat, x: T, opp: Counter, log: seq<T>, log': seq<T>,
                        cells: seq<T>)
    requires env.Valid() && env.kind.Producer? && |cells| == env.size && HubInv(env, h) && Order(env, h, opp)
    requires mine < |h.owner| && mine !in h.results && h.starts[mine] <= p < h.starts[mine + 1] && h.tail.pos <= p
    requires ProdResults(env, h, log, cells, opp.pos)
    requires |log'| == |log| && forall q :: 0 <= q < |log| && q != p ==> log'[q] == log[q]
    ensures ProdResults(env, h, log', cells[Wrap(p, env.size) := x], opp.pos)
  {
    forall k | k in h.results
      ensures Logged(log', h.starts[k], h.results[k], |h.results[k]|)
      ensures Stored(cells[Wrap(p, env.size) := x], env.size, h.starts[k], h.results[k], |h.results[k]|, opp.pos)
    {
      TicketsDisjoint(env, h.starts, h.owner, h.head, k, mine);
      TicketsDisjoint(env, h.starts, h.owner, h.head, mine, k);
      LoggedAgree(log, log', h.starts[k], h.results[k], |h.results[k]|);
      StoredElsewhere(cells, env.size, p, x, h.starts[k], h.results[k], |h.results[k]|, opp.pos);
    }
  }

  /** The writer itself has one more object in place. */
  lemma StoredNext<T>(cells: seq<T>, size: nat, lo: nat, objs: seq<T>, i: nat)
    requires size > 0 && |cells| == size && Stored(cells, size, lo, objs, i, 0) && i < |objs| && i < size
    ensures Stored(cells[Wrap(lo + i, size) := objs[i]], size, lo, objs, i + 1, 0)
  {
    StoredElsewhere(cells, size, lo + i, objs[i], lo, objs, i, 0);
  }

  lemma LoggedNext<T>(log: seq<T>, lo: nat, objs: seq<T>, i: nat)
    requires Logged(log, lo, objs, i) && i < |objs| && lo + i < |log|
    ensures Logged(log[lo + i := objs[i]], lo, objs, i + 1)
  {
  }

  lemma OwnElement<T>(env: Env, op: Op<T>, log: seq<T>, cells: seq<T>)
    requires env.Valid() && env.kind.Producer? && |cells| == env.size && MovesElement(op) && ProdOp(env, op, log, cells)
    requires op.pc.FinCopy? ==> op.pc.tail == op.pc.lo && op.pc.lo.pos + op.pc.i < |log|
    requires op.pc.n <= env.size && (op.pc.FinCopy? ==> op.pc.k <= op.pc.n)
    ensures op.pc.i < |op.objs|
    ensures var p := op.pc.lo.pos + op.pc.i;
      var log' := if op.pc.FinCopy? then log[p := op.objs[op.pc.i]] else log;
      ProdOp(env, ElementOp(env, op, cells), log', cells[Wrap(p, env.size) := op.objs[op.pc.i]])
  {
    StoredNext(cells, env.size, op.pc.lo.pos, op.objs, op.pc.i);
    if op.pc.FinCopy? { LoggedNext(log, op.pc.lo.pos, op.objs, op.pc.i); }
  }

  // ---------------------------------------------------------------- producer steps

  /** What a producer step must leave behind: its own side's data, and an unchanged log below the tail. */
  ghost predicate ProdData<T>(env: Env, s: Side<T>, opp: Counter, log: seq<T>, cells: seq<T>, was: seq<T>, tail: nat)
    requires env.Valid() && |cells| == env.size && ResultsInv(s.hub.starts, s.hub.results)
  {
    && |log| == s.hub.head.pos
    && ProdOps(env, s, log, cells)
    && ProdResults(env, s.hub, log, cells, opp.pos)
    && tail <= |log| && tail <= |was|
    && forall q :: 0 <= q < tail ==> log[q] == was[q]
  }

  lemma ProdOpsWith<T>(env: Env, s: Side<T>, t: Tid, o: Option<Op<T>>, log: seq<T>, cells: seq<T>)
    requires env.Valid() && |cells| == env.size && ProdOps(env, s, log, cells)
    requires o.Some? ==> ProdOp(env, o.value, log, cells)
    ensures ProdOps(env, WithOp(s, t, o), log, cells)
  {
  }

  lemma ProdLocalData<T>(env: Env, h: Hub<T>, t: Tid, op: Op<T>, opp: Counter, log: seq<T>, cells: seq<T>)
    requires env.Valid() && env.kind.Producer? && |cells| == env.size
    requires |h.starts| == |h.owner| + 1 && OpInv(env, h, t, op, opp) && ProdOp(env, op, log, cells)
    requires !MovesElement(op) && !MovesHub(env, h, op)
    ensures LocalOp(env, h, op, opp).Some? ==> ProdOp(env, LocalOp(env, h, op, opp).value, log, cells)
    ensures WrittenLog(env, h, op, log) == log && WrittenCells(env, op, cells) == cells
  {
  }

  lemma ProdLocalStep<T>(env: Env, s: Side<T>, t: Tid, opp: Counter, log: seq<T>, cells: seq<T>)
    requires SideInv(env, s, opp) && env.kind.Producer? && |cells| == env.size && t in s.ops
    requires |log| == s.hub.head.pos && ProdOps(env, s, log, cells) && ProdResults(env, s.hub, log, cells, opp.pos)
    requires !MovesElement(s.ops[t]) && !MovesHub(env, s.hub, s.ops[t])
    requires ResultsInv(Next(env, s, t, opp, cells).hub.starts, Next(env, s, t, opp, cells).hub.results)
    ensures ProdData(env, Next(env, s, t, opp, cells), opp, WrittenLog(env, s.hub, s.ops[t], log),
                     WrittenCells(env, s.ops[t], cells), log, s.hub.tail.pos)
  {
    ProdLocalData(env, s.hub, t, s.ops[t], opp, log, cells);
    ProdOpsWith(env, s, t, LocalOp(env, s.hub, s.ops[t], opp), log, cells);
  }

  /** The position an element step writes, and that it writes exactly there. */
  lemma ElementWrites<T>(env: Env, h: Hub<T>, t: Tid, op: Op<T>, opp: Counter, log: seq<T>, cells: seq<T>)
    requires env.Valid() && env.kind.Producer? && |cells| == env.size && HubInv(env, h) && Order(env, h, opp)
    requires OpInv(env, h, t, op, opp) && ProdOp(env, op, log, cells) && MovesElement(op) && |log| == h.head.pos
    ensures op.pc.i < |op.objs| && op.pc.n <= env.size
    ensures op.pc.FinCopy? ==> op.pc.tail == op.pc.lo && op.pc.k <= op.pc.n
    ensures op.ticket < |h.owner| && h.owner[op.ticket] == t && op.ticket !in h.results
    ensures var p := op.pc.lo.pos + op.pc.i;
      && h.tail.pos <= p < |log| && h.starts[op.ticket] <= p < h.starts[op.ticket + 1]
      && WrittenCells(env, op, cells) == cells[Wrap(p, env.size) := op.objs[op.pc.i]]
      && WrittenLog(env, h, op, log) == if op.pc.FinCopy? then log[p := op.objs[op.pc.i]] else log
  {
    CountsWithin(env, h, t, op, opp);
    SlotOfPosition(env, op.pc.lo, op.pc.i);
  }

  lemma ProdElementOps<T>(env: Env, s: Side<T>, t: Tid, opp: Counter, log: seq<T>, cells: seq<T>)
    requires SideInv(env, s, opp) && env.kind.Producer? && |cells| == env.size && t in s.ops && MovesElement(s.ops[t])
    requires |log| == s.hub.head.pos && ProdOps(env, s, log, cells)
    ensures ProdOps(env, WithOp(s, t, Some(ElementOp(env, s.ops[t], cells))),
                    WrittenLog(env, s.hub, s.ops[t], log), WrittenCells(env, s.ops[t], cells))
  {
    var h, op := s.hub, s.ops[t];
    ElementWrites(env, h, t, op, opp, log, cells);
    var p := op.pc.lo.pos + op.pc.i;
    OwnElement(env, op, log, cells);
    var log', cells' := WrittenLog(env, h, op, log), WrittenCells(env, op, cells);
    forall u | u in s.ops && u != t ensures ProdOp(env, s.ops[u], log', cells') {
      OtherOpAgrees(env, h, op.ticket, p, op.objs[op.pc.i], u, s.ops[u], opp, log, log', cells);
    }
  }

  lemma ProdElementStep<T>(env: Env, s: Side<T>, t: Tid, opp: Counter, log: seq<T>, cells: seq<T>)
    requires SideInv(env, s, opp) && env.kind.Producer? && |cells| == env.size && t in s.ops
    requires |log| == s.hub.head.pos && ProdOps(env, s, log, cells) && ProdResults(env, s.hub, log, cells, opp.pos)
    requires MovesElement(s.ops[t])
    requires ResultsInv(Next(env, s, t, opp, cells).hub.starts, Next(env, s, t, opp, cells).hub.results)
    ensures ProdData(env, Next(env, s, t, opp, cells), opp, WrittenLog(env, s.hub, s.ops[t], log),
                     WrittenCells(env, s.ops[t], cells), log, s.hub.tail.pos)
  {
    var h, op := s.hub, s.ops[t];
    ProdElementOps(env, s, t, opp, log, cells);
    ElementWrites(env, h, t, op, opp, log, cells);
    ResultsAgree(env, h, op.ticket, op.pc.lo.pos + op.pc.i, op.objs[op.pc.i], opp, log,
                 WrittenLog(env, h, op, log), cells);
  }

  /** A longer log is no news to anyone. */
  lemma LogGrows<T>(env: Env, s: Side<T>, log: seq<T>, more: seq<T>, cells: seq<T>, from: nat)
    requires env.Valid() && |cells| == env.size && ResultsInv(s.hub.starts, s.hub.results)
    requires ProdOps(env, s, log, cells) && ProdResults(env, s.hub, log, cells, from)
    ensures ProdOps(env, s, log + more, cells) && ProdResults(env, s.hub, log + more, cells, from)
  {
    forall u | u in s.ops ensures ProdOp(env, s.ops[u], log + more, cells) {
      assert ProdOp(env, s.ops[u], log, cells);
    }
  }

  lemma ReserveResults<T>(env: Env, h: Hub<T>, t: Tid, m: Mark, n: nat, log: seq<T>, cells: seq<T>, from: nat)
    requires env.Valid() && |cells| == env.size && ResultsInv(h.starts, h.results)
    requires ProdResults(env, h, log, cells, from)
    ensures var h' := Reserve(env, h, t, m, n);
            ResultsInv(h'.starts, h'.results) && ProdResults(env, h', log, cells, from)
  {
    var h' := Reserve(env, h, t, m, n);
    assert forall k :: k in h.results ==> h'.starts[k] == h.starts[k] && h'.starts[k + 1] == h.starts[k + 1];
  }

  lemma ReserveOp<T>(env: Env, op: Op<T>, op': Op<T>, log: seq<T>, cells: seq<T>, lo: Counter, n: nat)
    requires env.Valid() && env.kind.Producer? && |cells| == env.size && ProdOp(env, op, log, cells)
    requires !op.pc.Reserved() && n <= op.want && lo.pos == |log| && op'.objs == op.objs && op'.peek == op.peek
    requires op'.pc == if op.peek then Held(lo, n) else Copy(lo, n, 0)
    ensures ProdOp(env, op', log + op.objs[..n], cells)
  {
  }

  /** A head move appends the caller's objects to the log. */
  lemma ProdReserveStep<T>(env: Env, s: Side<T>, t: Tid, opp: Counter, log: seq<T>, cells: seq<T>)
    requires SideInv(env, s, opp) && env.kind.Producer? && |cells| == env.size && t in s.ops && InWindow(env, s, t)
    requires |log| == s.hub.head.pos && ProdOps(env, s, log, cells) && ProdResults(env, s.hub, log, cells, opp.pos)
    requires s.ops[t].pc.CasHead? && MovesHub(env, s.hub, s.ops[t])
    ensures ResultsInv(HubNext(env, s, t).hub.starts, HubNext(env, s, t).hub.results)
    ensures ProdData(env, HubNext(env, s, t), opp, WrittenLog(env, s.hub, s.ops[t], log), cells, log, s.hub.tail.pos)
  {
    var h, op := s.hub, s.ops[t];
    CasIsExact(env, s, t, opp);
    var s' := HubNext(env, s, t);
    var log' := log + op.objs[..op.pc.n];
    LogGrows(env, s, log, op.objs[..op.pc.n], cells, opp.pos);
    ReserveResults(env, h, t, op.pc.snap, op.pc.n, log', cells, opp.pos);
    ReserveOp(env, op, s'.ops[t], log, cells, h.head, op.pc.n);
    ProdOpsWith(env, s, t, Some(s'.ops[t]), log', cells);
  }

  /** A finishing enqueue leaves its objects in the log and in their slots. */
  lemma ProdPublishData<T>(env: Env, h: Hub<T>, op: Op<T>, n: nat, log: seq<T>, cells: seq<T>, from: nat, h': Hub<T>)
    requires env.Valid() && |cells| == env.size && ResultsInv(h.starts, h.results)
    requires ProdResults(env, h, log, cells, from)
    requires op.pc.Reserved() && n <= LoggedCount(op.pc) && n <= StoredCount(op.pc) && ProdOp(env, op, log, cells)
    requires ResultsInv(h'.starts, h'.results) && h'.results == h.results[op.ticket := Moved(op, n)]
    requires op.ticket < |h'.starts| && h'.starts[op.ticket] == op.pc.lo.pos
    requires forall k :: k in h.results && k != op.ticket ==> k < |h'.starts| && h'.starts[k] == h.starts[k]
    ensures ProdResults(env, h', log, cells, from)
  {
  }

  lemma ProdPublishStep<T>(env: Env, s: Side<T>, t: Tid, opp: Counter, log: seq<T>, cells: seq<T>)
    requires SideInv(env, s, opp) && env.kind.Producer? && |cells| == env.size && t in s.ops
    requires |log| == s.hub.head.pos && ProdOps(env, s, log, cells) && ProdResults(env, s.hub, log, cells, opp.pos)
    requires s.ops[t].pc.StoreTail? || (s.ops[t].pc.RtsCasTail? && MovesHub(env, s.hub, s.ops[t]))
    requires ResultsInv(Next(env, s, t, opp, cells).hub.starts, Next(env, s, t, opp, cells).hub.results)
    ensures ProdData(env, Next(env, s, t, opp, cells), opp, WrittenLog(env, s.hub, s.ops[t], log),
                     WrittenCells(env, s.ops[t], cells), log, s.hub.tail.pos)
  {
    var op := s.ops[t];
    var s' := Next(env, s, t, opp, cells);
    CountsWithin(env, s.hub, t, op, opp);
    ProdPublishData(env, s.hub, op, op.pc.n, log, cells, opp.pos, s'.hub);
    ProdOpsWith(env, s, t, None, log, cells);
  }

  /** Where the reservation of a finishing peek lies. */
  lemma FinStoreBounds<T>(env: Env, s: Side<T>, t: Tid, opp: Counter)
    requires SideInv(env, s, opp) && t in s.ops && s.ops[t].pc.FinStore?
    ensures env.Solo() && s.ops[t].ticket == s.hub.Tickets() - 1 == s.hub.low && s.hub.low < |s.hub.starts|
    ensures s.hub.starts[s.hub.low] == s.ops[t].pc.lo.pos && s.ops[t].pc.tail == s.ops[t].pc.lo == s.hub.tail
    ensures s.ops[t].pc.lo.pos + s.ops[t].pc.k <= s.hub.head.pos
    ensures HubNext(env, s, t).hub.head == Advance(s.ops[t].pc.lo, s.ops[t].pc.k)
  {
    Knows(env, s, t, opp);
    SoloTicket(env, s.hub, t, s.ops[t], s.ops[t].pc.lo, s.ops[t].pc.n);
  }

  /** Giving positions back cuts the log at the new head. */
  lemma ProdShrinkStep<T>(env: Env, s: Side<T>, t: Tid, opp: Counter, log: seq<T>, cells: seq<T>)
    requires SideInv(env, s, opp) && env.kind.Producer? && |cells| == env.size && t in s.ops
    requires |log| == s.hub.head.pos && ProdOps(env, s, log, cells) && ProdResults(env, s.hub, log, cells, opp.pos)
    requires s.ops[t].pc.FinStore?
    requires ResultsInv(HubNext(env, s, t).hub.starts, HubNext(env, s, t).hub.results)
    ensures ProdData(env, HubNext(env, s, t), opp, WrittenLog(env, s.hub, s.ops[t], log), cells, log, s.hub.tail.pos)
  {
    FinStoreBounds(env, s, t, opp);
    var log' := log[..s.ops[t].pc.lo.pos + s.ops[t].pc.k];
    ShrinkOps(env, s, t, opp, log, log', cells);
    ShrinkResults(env, s.hub, opp, log, log', cells);
    ShrinkLeave(env, s, t, log', cells, opp.pos);
  }

  lemma ShrinkLeave<T>(env: Env, s: Side<T>, t: Tid, log': seq<T>, cells: seq<T>, from: nat)
    requires env.Valid() && |cells| == env.size && HubInv(env, s.hub) && t in s.ops && s.ops[t].pc.FinStore?
    requires ProdOps(env, s, log', cells) && ProdResults(env, s.hub, log', cells, from)
    requires s.ops[t].ticket == s.hub.Tickets() - 1 == s.hub.low && s.hub.starts[s.hub.low] == s.ops[t].pc.lo.pos
    requires env.Solo()
    requires s.ops[t].pc.tail == s.ops[t].pc.lo
    requires ResultsInv(HubNext(env, s, t).hub.starts, HubNext(env, s, t).hub.results)
    ensures ProdOps(env, HubNext(env, s, t), log', cells) && ProdResults(env, HubNext(env, s, t).hub, log', cells, from)
  {
    var s', op := HubNext(env, s, t), s.ops[t];
    if env.mode.ST? {
      ProdOpsWith(env, s, t, Some(s'.ops[t]), log', cells);
      assert forall k :: k in s.hub.results ==> s'.hub.starts[k] == s.hub.starts[k];
    } else {
      ProdPublishData(env, s.hub, op, op.pc.k, log', cells, from, s'.hub);
      ProdOpsWith(env, s, t, None, log', cells);
    }
  }

  lemma ShrinkOps<T>(env: Env, s: Side<T>, t: Tid, opp: Counter, log: seq<T>, log': seq<T>, cells: seq<T>)
    requires SideInv(env, s, opp) && |cells| == env.size && t in s.ops && s.ops[t].pc.FinStore?
    requires ProdOps(env, s, log, cells) && s.ops[t].pc.lo.pos + s.ops[t].pc.k <= |log|
    requires log' == log[..s.ops[t].pc.lo.pos + s.ops[t].pc.k]
    ensures ProdOps(env, s, log', cells)
  {
    Knows(env, s, t, opp);
    forall u | u in s.ops ensures ProdOp(env, s.ops[u], log', cells) {
      assert ProdOp(env, s.ops[u], log, cells);
      if u != t { AloneWhenReserved(env, s, t, u, opp); }
    }
  }

  lemma ShrinkResults<T>(env: Env, h: Hub<T>, opp: Counter, log: seq<T>, log': seq<T>, cells: seq<T>)
    requires env.Valid() && |cells| == env.size && HubInv(env, h) && env.Solo()
    requires ProdResults(env, h, log, cells, opp.pos)
    requires h.tail.pos <= |log'| <= |log| && log' == log[..|log'|]
    ensures ProdResults(env, h, log', cells, opp.pos)
  {
    forall k | k in h.results ensures Logged(log', h.starts[k], h.results[k], |h.results[k]|) {
      assert h.starts[k + 1] <= h.starts[h.low];
    }
  }

  lemma ProdStepData<T>(cfg: Config, r: Ring<T>, t: Tid)
    requires RingOk(cfg, r) && t in r.prod.ops && InWindow(cfg.prod, r.prod, t)
    requires SideInv(cfg.prod, Next(cfg.prod, r.prod, t, r.cons.hub.tail, r.cells), r.cons.hub.tail)
    ensures var r' := Apply(cfg, r, Step(Producer, t));
      ProdData(cfg.prod, r'.prod, r.cons.hub.tail, r'.log, r'.cells, r.log, r.prod.hub.tail.pos)
  {
    var op := r.prod.ops[t];
    if MovesElement(op) {
      ProdElementStep(cfg.prod, r.prod, t, r.cons.hub.tail, r.log, r.cells);
    } else if !MovesHub(cfg.prod, r.prod.hub, op) {
      ProdLocalStep(cfg.prod, r.prod, t, r.cons.hub.tail, r.log, r.cells);
    } else if op.pc.CasHead? {
      ProdReserveStep(cfg.prod, r.prod, t, r.cons.hub.tail, r.log, r.cells);
    } else if op.pc.FinStore? {
      ProdShrinkStep(cfg.prod, r.prod, t, r.cons.hub.tail, r.log, r.cells);
    } else {
      ProdPublishStep(cfg.prod, r.prod, t, r.cons.hub.tail, r.log, r.cells);
    }
  }

  lemma ProdStepOk<T>(cfg: Config, r: Ring<T>, t: Tid)
    requires RingOk(cfg, r) && t in r.prod.ops && InWindow(cfg.prod, r.prod, t)
    ensures RingOk(cfg, Apply(cfg, r, Step(Producer, t)))
  {
    var opp, op := r.cons.hub.tail, r.prod.ops[t];
    assert ProdOp(cfg.prod, op, r.log, r.cells);
    NextKeeps(cfg.prod, r.prod, t, opp, r.cells);
    ProdStepData(cfg, r, t);
    var r' := Apply(cfg, r, Step(Producer, t));
    OppMoves(cfg.cons, r.cons, r.prod.hub.tail, r'.prod.hub.tail);
    ConsOpsAgree(r.cons, r.log, r'.log, r.prod.hub.tail.pos, r'.prod.hub.tail.pos);
    ConsResultsAgree(cfg.cons, r.cons.hub, r.log, r'.log, r.prod.hub.tail);
  }
}
