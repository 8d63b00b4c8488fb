/** What holds in every state of every run of the ring. */
module RingTheorems {
  import opened Words
  import opened RingModel
  import opened RingInv
  import opened RingMoves
  import opened RingData
  import opened RingWrites

  // ---------------------------------------------------------------- reachability

  lemma InitOk<T>(cfg: Config, r: Ring<T>)
    requires Init(cfg, r)
    ensures RingOk(cfg, r)
  {
  }

  lemma BeginOk<T>(cfg: Config, r: Ring<T>, k: Kind, t: Tid, op: Op<T>)
    requires RingOk(cfg, r) && Enabled(cfg, r, Begin(k, t, op))
    ensures RingOk(cfg, Apply(cfg, r, Begin(k, t, op)))
  {
    if k.Producer? {
      BeginKeeps(cfg.prod, r.prod, t, op, r.cons.hub.tail);
      ProdOpsWith(cfg.prod, r.prod, t, Some(op), r.log, r.cells);
    } else {
      BeginKeeps(cfg.cons, r.cons, t, op, r.prod.hub.tail);
      ConsOpsWith(r.cons, t, Some(op), r.log, r.prod.hub.tail.pos);
    }
  }

  lemma EndPeekProdOk<T>(cfg: Config, r: Ring<T>, t: Tid, k: nat, objs: seq<T>)
    requires RingOk(cfg, r) && Enabled(cfg, r, EndPeek(Producer, t, k, objs))
    ensures RingOk(cfg, Apply(cfg, r, EndPeek(Producer, t, k, objs)))
  {
    FinishKeeps(cfg.prod, r.prod, t, k, objs, r.cons.hub.tail);
    Knows(cfg.prod, r.prod, t, r.cons.hub.tail);
    FinishOpKeeps(cfg.prod, r.prod.hub, t, r.prod.ops[t], k, objs, r.cons.hub.tail);
    ProdOpsWith(cfg.prod, r.prod, t, Some(FinishOp(cfg.prod, r.prod.hub, r.prod.ops[t], k, objs)), r.log, r.cells);
  }

  lemma EndPeekConsOk<T>(cfg: Config, r: Ring<T>, t: Tid, k: nat, objs: seq<T>)
    requires RingOk(cfg, r) && Enabled(cfg, r, EndPeek(Consumer, t, k, objs))
    ensures RingOk(cfg, Apply(cfg, r, EndPeek(Consumer, t, k, objs)))
  {
    FinishKeeps(cfg.cons, r.cons, t, k, objs, r.prod.hub.tail);
    ConsOpsWith(r.cons, t, Some(FinishOp(cfg.cons, r.cons.hub, r.cons.ops[t], k, objs)), r.log, r.prod.hub.tail.pos);
  }

  lemma StepOk<T>(cfg: Config, r: Ring<T>, a: Action<T>, r': Ring<T>)
    requires RingOk(cfg, r) && StepsTo(cfg, r, a, r')
    ensures RingOk(cfg, r')
  {
    match a
    case Begin(k, t, op) => BeginOk(cfg, r, k, t, op);
    case EndPeek(Producer, t, k, objs) => EndPeekProdOk(cfg, r, t, k, objs);
    case EndPeek(Consumer, t, k, objs) => EndPeekConsOk(cfg, r, t, k, objs);
    case Step(Producer, t) => ProdStepOk(cfg, r, t);
    case Step(Consumer, t) => ConsStepOk(cfg, r, t);
  }

  lemma RunStart<T>(cfg: Config, run: seq<Ring<T>>, acts: seq<Action<T>>)
    requires IsRun(cfg, run, acts)
    ensures RingOk(cfg, run[0])
  {
    InitOk(cfg, run[0]);
  }

  lemma {:induction false} RunNext<T>(cfg: Config, run: seq<Ring<T>>, acts: seq<Action<T>>, i: nat)
    requires IsRun(cfg, run, acts) && 0 < i < |run|
    ensures RingOk(cfg, run[i])
    decreases i, 0
  {
    var j := i - 1;
    RunOk(cfg, run, acts, j);
    assert StepsTo(cfg, run[j], acts[j], run[j + 1]);
    StepOk(cfg, run[j], acts[j], run[i]);
  }

  /** Every state of every run satisfies the invariant. */
  lemma {:induction false} RunOk<T>(cfg: Config, run: seq<Ring<T>>, acts: seq<Action<T>>, i: nat)
    requires IsRun(cfg, run, acts) && i < |run|
    ensures RingOk(cfg, run[i])
    decreases i, 1
  {
    if i == 0 {
      RunStart(cfg, run, acts);
    } else {
      RunNext(cfg, run, acts, i);
    }
  }

  function EnvOf(cfg: Config, kind: Kind): Env { if kind.Producer? then cfg.prod else cfg.cons }

  function SideOf<T>(r: Ring<T>, kind: Kind): Side<T> { if kind.Producer? then r.prod else r.cons }

  function OppTail<T>(r: Ring<T>, kind: Kind): Counter { if kind.Producer? then r.cons.hub.tail else r.prod.hub.tail }

  lemma RunSide<T>(cfg: Config, run: seq<Ring<T>>, acts: seq<Action<T>>, i: nat, kind: Kind)
    requires IsRun(cfg, run, acts) && i < |run|
    ensures SideInv(EnvOf(cfg, kind), SideOf(run[i], kind), OppTail(run[i], kind))
  {
    RunOk(cfg, run, acts, i);
  }

  // ---------------------------------------------------------------- reservations

  ghost function InFlight<T>(s: Side<T>): set<Tid> {
    set t | t in s.ops && s.ops[t].pc.Reserved()
  }

  /** Position p is in the range that in-flight operation t has claimed. */
  predicate Claims<T>(s: Side<T>, t: Tid, p: nat)
    requires t in s.ops && s.ops[t].pc.Reserved()
  {
    s.ops[t].pc.lo.pos <= p < s.ops[t].pc.lo.pos + s.ops[t].pc.n
  }

  ghost predicate Claimed<T>(s: Side<T>, p: nat) {
    exists t :: t in InFlight(s) && Claims(s, t, p)
  }

  /** In-flight operations claim disjoint positions between tail and head. So a tail, relaxed or not,
      has never passed a position whose owner is still copying. */
  ghost predicate Disjoint<T>(s: Side<T>) {
    forall t, p: nat :: t in InFlight(s) && Claims(s, t, p) ==>
      && s.hub.tail.pos <= p < s.hub.head.pos
      && forall u :: u in InFlight(s) && u != t ==> !Claims(s, u, p)
  }

  /** Together they cover tail..head without a gap. */
  ghost predicate Tiles<T>(s: Side<T>) {
    forall p: nat :: s.hub.tail.pos <= p < s.hub.head.pos ==> Claimed(s, p)
  }

  lemma ClaimIsTicket<T>(env: Env, s: Side<T>, t: Tid, opp: Counter)
    requires SideInv(env, s, opp) && t in InFlight(s)
    ensures var k := s.ops[t].ticket;
      && k < |s.hub.owner| && s.hub.owner[k] == t && k !in s.hub.results
      && s.hub.tail.pos <= s.hub.starts[k] && s.hub.starts[k + 1] <= s.hub.head.pos
      && forall p: nat :: Claims(s, t, p) <==> s.hub.starts[k] <= p < s.hub.starts[k + 1]
  {
    Knows(env, s, t, opp);
    CountsWithin(env, s.hub, t, s.ops[t], opp);
  }

  lemma ClaimsDisjoint<T>(env: Env, s: Side<T>, opp: Counter)
    requires SideInv(env, s, opp)
    ensures Disjoint(s)
  {
    forall t, p: nat | t in InFlight(s) && Claims(s, t, p)
      ensures s.hub.tail.pos <= p < s.hub.head.pos && forall u :: u in InFlight(s) && u != t ==> !Claims(s, u, p)
    {
      ClaimIsTicket(env, s, t, opp);
      forall u | u in InFlight(s) && u != t ensures !Claims(s, u, p) {
        ClaimIsTicket(env, s, u, opp);
        TicketsDisjoint(env, s.hub.starts, s.hub.owner, s.hub.head, s.ops[t].ticket, s.ops[u].ticket);
      }
    }
  }

  lemma ClaimsTile<T>(env: Env, s: Side<T>, opp: Counter)
    requires SideInv(env, s, opp) && env.Ordered()
    ensures Tiles(s)
  {
    var h := s.hub;
    forall p: nat | h.tail.pos <= p < h.head.pos ensures Claimed(s, p) {
      var k := TicketOf(h.starts, p);
      assert h.low <= k;
      OpenTicket(env, s, k, opp);
      ClaimIsTicket(env, s, h.owner[k], opp);
      assert Claims(s, h.owner[k], p);
    }
  }

  /** The reservation invariant, in every state of every run and in every combination of modes. */
  lemma Reservations<T>(cfg: Config, run: seq<Ring<T>>, acts: seq<Action<T>>, i: nat, kind: Kind)
    requires IsRun(cfg, run, acts) && i < |run|
    ensures var prod, cons := run[i].prod.hub, run[i].cons.hub;
      cons.tail.pos <= cons.head.pos <= prod.tail.pos <= prod.head.pos <= cons.tail.pos + cfg.prod.cap
    ensures Disjoint(SideOf(run[i], kind))
    ensures EnvOf(cfg, kind).Ordered() ==> Tiles(SideOf(run[i], kind))
  {
    RunSide(cfg, run, acts, i, Producer);
    RunSide(cfg, run, acts, i, Consumer);
    ClaimsDisjoint(EnvOf(cfg, kind), SideOf(run[i], kind), OppTail(run[i], kind));
    if EnvOf(cfg, kind).Ordered() { ClaimsTile(EnvOf(cfg, kind), SideOf(run[i], kind), OppTail(run[i], kind)); }
  }

  // ---------------------------------------------------------------- RTS and HTS

  lemma ImageCard<X(!new), Y>(xs: set<X>, ys: set<Y>, f: X -> Y)
    requires forall x :: x in xs ==> f(x) in ys
    requires forall y :: y in ys ==> exists x :: x in xs && f(x) == y
    requires forall x, x' :: x in xs && x' in xs && f(x) == f(x') ==> x == x'
    ensures |xs| == |ys|
  {
    if xs == {} {
      assert ys == {};
    } else {
      var x :| x in xs;
      ImageCard(xs - {x}, ys - {f(x)}, f);
    }
  }

  /** RTS: head count minus tail count is the number of operations in flight, at most the capacity;
      when they agree, so do the positions. */
  lemma RtsCounting<T>(env: Env, s: Side<T>, opp: Counter)
    requires SideInv(env, s, opp) && env.mode.RTS?
    ensures s.hub.headCnt.pos - s.hub.tailCnt.pos == |InFlight(s)| <= env.cap
    ensures Sub(s.hub.headCnt.word, s.hub.tailCnt.word) == |InFlight(s)|
    ensures s.hub.headCnt.word == s.hub.tailCnt.word ==> s.hub.head == s.hub.tail
  {
    var h := s.hub;
    var open := Upto(h.Tickets()) - h.results.Keys;
    var f := (t: Tid) => if t in s.ops then s.ops[t].ticket else 0;
    forall t | t in InFlight(s) ensures f(t) in open && h.owner[f(t)] == t {
      ClaimIsTicket(env, s, t, opp);
    }
    forall k | k in open ensures h.owner[k] in InFlight(s) && f(h.owner[k]) == k {
      OpenTicket(env, s, k, opp);
    }
    ImageCard(InFlight(s), open, f);
    assert h.results.Keys <= Upto(h.Tickets());
    assert |open| == h.Tickets() - |h.results|;
    InFlightBound(env, s, opp);
    SubIsExact(0, h.headCnt, h.tailCnt);
    SameWord(h.headCnt, h.tailCnt);
  }

  /** RTS in every reachable state, on either side. */
  lemma RtsRuns<T>(cfg: Config, run: seq<Ring<T>>, acts: seq<Action<T>>, i: nat, kind: Kind)
    requires IsRun(cfg, run, acts) && i < |run| && EnvOf(cfg, kind).mode.RTS?
    ensures var s := SideOf(run[i], kind);
      && Sub(s.hub.headCnt.word, s.hub.tailCnt.word) == |InFlight(s)| <= cfg.prod.cap
      && (s.hub.headCnt.word == s.hub.tailCnt.word ==> s.hub.head == s.hub.tail)
  {
    RunSide(cfg, run, acts, i, kind);
    RtsCounting(EnvOf(cfg, kind), SideOf(run[i], kind), OppTail(run[i], kind));
    assert cfg.Valid();
  }

  /** HTS and ST: at most one operation per side is in flight. */
  lemma HtsSerial<T>(cfg: Config, run: seq<Ring<T>>, acts: seq<Action<T>>, i: nat, kind: Kind)
    requires IsRun(cfg, run, acts) && i < |run| && EnvOf(cfg, kind).Solo()
    ensures forall t, u :: t in InFlight(SideOf(run[i], kind)) && u in InFlight(SideOf(run[i], kind)) ==> t == u
  {
    RunSide(cfg, run, acts, i, kind);
    var s := SideOf(run[i], kind);
    forall t, u | t in InFlight(s) && u in InFlight(s) ensures t == u {
      if t != u { AloneWhenReserved(EnvOf(cfg, kind), s, t, u, OppTail(run[i], kind)); }
    }
  }

  /** Every successful head move of every run: the words decided as the positions would, the room was
      a lower bound of the true room and at most the capacity, the count is the one the caller's
      behaviour allows, and an RTS head was within htdMax of its tail. */
  lemma ClaimsAreExact<T>(cfg: Config, run: seq<Ring<T>>, acts: seq<Action<T>>, i: nat, kind: Kind, t: Tid)
    requires IsRun(cfg, run, acts) && i < |acts| && acts[i] == Step(kind, t)
    requires t in SideOf(run[i], kind).ops && SideOf(run[i], kind).ops[t].pc.CasHead?
    requires HeadMatches(EnvOf(cfg, kind), SideOf(run[i], kind).hub, SideOf(run[i], kind).ops[t].pc.snap)
    ensures var env, s := EnvOf(cfg, kind), SideOf(run[i], kind);
      var CasHead(m, _, seenOpp, n) := s.ops[t].pc;
      var room := env.Offset() + seenOpp - s.hub.head.pos;
      && m.pos == s.hub.head
      && 0 <= room <= env.cap && room <= env.Offset() + OppTail(run[i], kind).pos - s.hub.head.pos
      && n == Grant(room, s.ops[t].want, s.ops[t].behavior)
      && (env.mode.RTS? ==> s.hub.head.pos - s.hub.tail.pos <= env.htdMax)
  {
    RunSide(cfg, run, acts, i, kind);
    assert StepsTo(cfg, run[i], acts[i], run[i + 1]);
    CasIsExact(EnvOf(cfg, kind), SideOf(run[i], kind), t, OppTail(run[i], kind));
  }

  // ---------------------------------------------------------------- contents

  /** The objects in the ring, read from its slots. */
  ghost function Contents<T>(cfg: Config, r: Ring<T>): seq<T> {
    if Shape(cfg, r) && r.cons.hub.tail.pos <= r.prod.hub.tail.pos then
      seq(r.prod.hub.tail.pos - r.cons.hub.tail.pos,
          i requires 0 <= i => r.cells[Wrap(r.cons.hub.tail.pos + i, cfg.prod.size)])
    else []
  }

  /** Producers have reached every position below their tail, and consumers no position above it. */
  lemma TailsInLog<T>(cfg: Config, r: Ring<T>)
    requires RingOk(cfg, r)
    ensures r.cons.hub.tail.pos <= r.prod.hub.tail.pos <= |r.log| && Shape(cfg, r)
  {
  }

  lemma ContentsIsLog<T>(cfg: Config, r: Ring<T>)
    requires RingOk(cfg, r)
    ensures r.cons.hub.tail.pos <= r.prod.hub.tail.pos <= |r.log|
    ensures Contents(cfg, r) == r.log[r.cons.hub.tail.pos..r.prod.hub.tail.pos]
  {
    TailsInLog(cfg, r);
    var c, lo, hi := Contents(cfg, r), r.cons.hub.tail.pos, r.prod.hub.tail.pos;
    forall i | 0 <= i < |c| ensures c[i] == r.log[lo + i] { PublishedCell(cfg, r, lo + i); }
    IsSlice(c, r.log, lo, hi);
  }

  lemma IsSlice<T>(c: seq<T>, log: seq<T>, lo: nat, hi: nat)
    requires lo <= hi <= |log| && |c| == hi - lo && forall i :: 0 <= i < |c| ==> c[i] == log[lo + i]
    ensures c == log[lo..hi]
  {
  }

  lemma RunContents<T>(cfg: Config, run: seq<Ring<T>>, acts: seq<Action<T>>, i: nat)
    requires IsRun(cfg, run, acts) && i < |run|
    ensures run[i].cons.hub.tail.pos <= run[i].prod.hub.tail.pos <= |run[i].log|
    ensures Contents(cfg, run[i]) == run[i].log[run[i].cons.hub.tail.pos..run[i].prod.hub.tail.pos]
  {
    RunOk(cfg, run, acts, i);
    ContentsIsLog(cfg, run[i]);
  }

  /** rte_ring_count, from the two tail words. */
  function CountOf(cfg: Config, prodTail: Counter, consTail: Counter): nat
    requires cfg.Valid()
  {
    var c := Wrap(Sub(prodTail.word, consTail.word), cfg.prod.size);
    if c > cfg.prod.cap then cfg.prod.cap else c
  }

  function Count<T>(cfg: Config, r: Ring<T>): nat
    requires cfg.Valid()
  {
    CountOf(cfg, r.prod.hub.tail, r.cons.hub.tail)
  }

  /** It is the number of objects in the ring, across any number of counter wraps; so full, empty and
      the free count mean what they say. */
  lemma CountIsLength<T>(cfg: Config, run: seq<Ring<T>>, acts: seq<Action<T>>, i: nat)
    requires IsRun(cfg, run, acts) && i < |run|
    ensures Count(cfg, run[i]) == |Contents(cfg, run[i])| <= cfg.prod.cap
    ensures cfg.prod.cap - Count(cfg, run[i]) == 0 <==> |Contents(cfg, run[i])| == cfg.prod.cap
    ensures run[i].cons.hub.tail.word == run[i].prod.hub.tail.word <==> Contents(cfg, run[i]) == []
  {
    RunOk(cfg, run, acts, i);
    SubIsExact(0, run[i].prod.hub.tail, run[i].cons.hub.tail);
    SameWord(run[i].cons.hub.tail, run[i].prod.hub.tail);
  }

  // ---------------------------------------------------------------- first in, first out

  /** The results of tickets 0..n, one after the other. */
  function InOrder<T>(results: map<nat, seq<T>>, n: nat): seq<T>
    requires forall k: nat :: k < n ==> k in results
  {
    if n == 0 then [] else InOrder(results, n - 1) + results[n - 1]
  }

  lemma InOrderIsLog<T>(env: Env, h: Hub<T>, log: seq<T>, n: nat)
    requires StartsInv(env, h.starts, h.owner, h.head) && ResultsInv(h.starts, h.results)
    requires n <= h.Tickets() && forall k: nat :: k < n ==> k in h.results
    requires forall k :: k in h.results ==> Logged(log, h.starts[k], h.results[k], |h.results[k]|)
    ensures h.starts[n] <= |log| && InOrder(h.results, n) == log[..h.starts[n]]
  {
    if n > 0 {
      InOrderIsLog(env, h, log, n - 1);
      AppendLog(log, log, 0, h.starts[n - 1], h.results[n - 1]);
    }
  }

  /** With nothing in flight every ticket has finished and the tail has caught up. */
  lemma QuietSide<T>(env: Env, s: Side<T>, opp: Counter)
    requires SideInv(env, s, opp) && InFlight(s) == {}
    ensures forall k: nat :: k < s.hub.Tickets() ==> k in s.hub.results
    ensures s.hub.tail == s.hub.head
  {
    forall k: nat | k < s.hub.Tickets() ensures k in s.hub.results {
      assert s.hub.owner[k] !in InFlight(s);
    }
    if env.mode.RTS? {
      assert s.hub.results.Keys == Upto(s.hub.Tickets());
    } else {
      assert s.hub.low !in s.hub.results;
      assert s.hub.low == s.hub.Tickets();
    }
  }

  /** Then the objects of all enqueues are the log up to the tail ... */
  lemma QuietProd<T>(cfg: Config, r: Ring<T>)
    requires RingOk(cfg, r) && InFlight(r.prod) == {}
    ensures forall k: nat :: k < r.prod.hub.Tickets() ==> k in r.prod.hub.results
    ensures r.prod.hub.tail.pos <= |r.log|
    ensures InOrder(r.prod.hub.results, r.prod.hub.Tickets()) == r.log[..r.prod.hub.tail.pos]
  {
    QuietSide(cfg.prod, r.prod, r.cons.hub.tail);
    InOrderIsLog(cfg.prod, r.prod.hub, r.log, r.prod.hub.Tickets());
  }

  /** ... and so are those of all dequeues. */
  lemma QuietCons<T>(cfg: Config, r: Ring<T>)
    requires RingOk(cfg, r) && InFlight(r.cons) == {}
    ensures forall k: nat :: k < r.cons.hub.Tickets() ==> k in r.cons.hub.results
    ensures r.cons.hub.tail.pos <= |r.log|
    ensures InOrder(r.cons.hub.results, r.cons.hub.Tickets()) == r.log[..r.cons.hub.tail.pos]
  {
    QuietSide(cfg.cons, r.cons, r.prod.hub.tail);
    InOrderIsLog(cfg.cons, r.cons.hub, r.log, r.cons.hub.Tickets());
  }

  lemma SplitAt<T>(log: seq<T>, lo: nat, hi: nat)
    requires lo <= hi <= |log|
    ensures log[..hi] == log[..lo] + log[lo..hi]
  {
  }

  /** Whole runs are first in, first out: whenever nothing is in flight, the objects handed to the
      enqueues, in the order of their head moves, are the objects returned by the dequeues, in the
      order of theirs, followed by what is still in the ring. */
  lemma Fifo<T>(cfg: Config, run: seq<Ring<T>>, acts: seq<Action<T>>, i: nat)
    requires IsRun(cfg, run, acts) && i < |run| && InFlight(run[i].prod) == {} && InFlight(run[i].cons) == {}
    ensures forall k: nat :: k < run[i].prod.hub.Tickets() ==> k in run[i].prod.hub.results
    ensures forall k: nat :: k < run[i].cons.hub.Tickets() ==> k in run[i].cons.hub.results
    ensures InOrder(run[i].prod.hub.results, run[i].prod.hub.Tickets())
         == InOrder(run[i].cons.hub.results, run[i].cons.hub.Tickets()) + Contents(cfg, run[i])
  {
    RunOk(cfg, run, acts, i);
    QuietProd(cfg, run[i]);
    QuietCons(cfg, run[i]);
    RunContents(cfg, run, acts, i);
    SplitAt(run[i].log, run[i].cons.hub.tail.pos, run[i].prod.hub.tail.pos);
  }

  /** And at any time, whoever is in flight: object j of finished dequeue k is the object that a
      finished enqueue put at the same position, and there is only one such enqueue. */
  lemma Delivered<T>(cfg: Config, run: seq<Ring<T>>, acts: seq<Action<T>>, i: nat, k: nat, j: nat) returns (q: nat)
    requires IsRun(cfg, run, acts) && i < |run| && k in run[i].cons.hub.results && j < |run[i].cons.hub.results[k]|
    ensures k < |run[i].cons.hub.starts|
    ensures Supplies(run[i].prod.hub, q, run[i].cons.hub.starts[k] + j, run[i].cons.hub.results[k][j])
  {
    RunOk(cfg, run, acts, i);
    q := SupplierOf(cfg, run[i], k, j);
  }

  /** Enqueue q, and no other, owns position p, and its object for that position is x. */
  ghost predicate Supplies<T>(h: Hub<T>, q: nat, p: nat, x: T) {
    && q in h.results && q + 1 < |h.starts| && h.starts[q] <= p < h.starts[q + 1]
    && p - h.starts[q] < |h.results[q]| && h.results[q][p - h.starts[q]] == x
    && forall q': nat :: q' + 1 < |h.starts| && h.starts[q'] <= p < h.starts[q' + 1] ==> q' == q
  }

  lemma SupplierOf<T>(cfg: Config, r: Ring<T>, k: nat, j: nat) returns (q: nat)
    requires RingOk(cfg, r) && k in r.cons.hub.results && j < |r.cons.hub.results[k]|
    ensures k < |r.cons.hub.starts| && Supplies(r.prod.hub, q, r.cons.hub.starts[k] + j, r.cons.hub.results[k][j])
  {
    var h, c := r.prod.hub, r.cons.hub;
    var p := c.starts[k] + j;
    BelowProducers(cfg, r, k);
    BelowTail(cfg.prod, r.prod, p, c.tail);
    q := TicketOf(h.starts, p);
    SameObject(cfg, r, k, j, q);
    OneTicket(cfg.prod, h.starts, h.owner, h.head, p, q);
  }

  lemma BelowProducers<T>(cfg: Config, r: Ring<T>, k: nat)
    requires Sides(cfg, r) && k in r.cons.hub.results
    ensures r.cons.hub.starts[k] + |r.cons.hub.results[k]| <= r.prod.hub.tail.pos
  {
    var c := r.cons.hub;
    assert c.starts[k + 1] <= c.starts[|c.owner|];
  }

  lemma SameObject<T>(cfg: Config, r: Ring<T>, k: nat, j: nat, q: nat)
    requires RingOk(cfg, r) && k in r.cons.hub.results && j < |r.cons.hub.results[k]| && q in r.prod.hub.results
    requires r.prod.hub.starts[q] <= r.cons.hub.starts[k] + j < r.prod.hub.starts[q + 1]
    ensures var o := r.cons.hub.starts[k] + j - r.prod.hub.starts[q];
      o < |r.prod.hub.results[q]| && r.prod.hub.results[q][o] == r.cons.hub.results[k][j]
  {
    var h, c := r.prod.hub, r.cons.hub;
    assert Logged(r.log, h.starts[q], h.results[q], |h.results[q]|);
    assert Logged(r.log, c.starts[k], c.results[k], |c.results[k]|);
    var o := c.starts[k] + j - h.starts[q];
    assert h.results[q][o] == r.log[h.starts[q] + o];
  }

  lemma OneTicket(env: Env, starts: seq<nat>, owner: seq<Tid>, head: Counter, p: nat, q: nat)
    requires StartsInv(env, starts, owner, head) && q < |owner| && starts[q] <= p < starts[q + 1]
    ensures forall q': nat :: q' + 1 < |starts| && starts[q'] <= p < starts[q' + 1] ==> q' == q
  {
  }

  // ---------------------------------------------------------------- what one publish does

  /** The step publishes n positions of an ordered side: the tail store of enqueue and dequeue, or the
      combined store of an HTS peek finish. */
  predicate Publishes<T>(env: Env, op: Op<T>, n: nat) {
    && env.Ordered()
    && (op.pc.StoreTail? || (op.pc.FinStore? && env.mode.HTS?))
    && n == if op.pc.FinStore? then op.pc.k else op.pc.n
  }

  lemma PublishMoves<T>(env: Env, s: Side<T>, t: Tid, opp: Counter, n: nat)
    requires SideInv(env, s, opp) && t in s.ops && Publishes(env, s.ops[t], n)
    ensures var h' := HubNext(env, s, t).hub; var k := s.ops[t].ticket;
      && h'.tail.pos == s.hub.tail.pos + n
      && k in h'.results && h'.results[k] == Moved(s.ops[t], n)
      && k < |h'.starts| && h'.starts[k] == s.hub.tail.pos
  {
    Knows(env, s, t, opp);
    if s.ops[t].pc.FinStore? {
      SoloTicket(env, s.hub, t, s.ops[t], s.ops[t].pc.lo, s.ops[t].pc.n);
    } else {
      TurnIsLow(env, s, t, opp);
    }
  }

  lemma LogSettled<T>(cfg: Config, r: Ring<T>, t: Tid)
    requires RingOk(cfg, r) && t in r.prod.ops && InWindow(cfg.prod, r.prod, t)
    ensures var r' := Apply(cfg, r, Step(Producer, t));
      && r.prod.hub.tail.pos <= |r.log| && r.prod.hub.tail.pos <= |r'.log|
      && forall q :: 0 <= q < r.prod.hub.tail.pos ==> r'.log[q] == r.log[q]
  {
    assert ProdOp(cfg.prod, r.prod.ops[t], r.log, r.cells);
    NextKeeps(cfg.prod, r.prod, t, r.cons.hub.tail, r.cells);
    ProdStepData(cfg, r, t);
  }

  lemma AppendedEntries<T>(cfg: Config, run: seq<Ring<T>>, acts: seq<Action<T>>, i: nat, t: Tid, n: nat)
    requires IsRun(cfg, run, acts) && i < |acts| && acts[i] == Step(Producer, t)
    requires t in run[i].prod.ops && Publishes(cfg.prod, run[i].prod.ops[t], n)
    ensures n <= |run[i].prod.ops[t].objs|
    ensures Logged(run[i + 1].log, run[i].prod.hub.tail.pos, run[i].prod.ops[t].objs[..n], n)
    ensures run[i + 1].prod.hub.tail.pos == run[i].prod.hub.tail.pos + n && run[i + 1].cons == run[i].cons
  {
    var r, r' := run[i], run[i + 1];
    RunOk(cfg, run, acts, i);
    assert StepsTo(cfg, r, acts[i], r');
    assert ProdOp(cfg.prod, r.prod.ops[t], r.log, r.cells);
    PublishMoves(cfg.prod, r.prod, t, r.cons.hub.tail, n);
    assert r'.prod == HubNext(cfg.prod, r.prod, t);
    RunOk(cfg, run, acts, i + 1);
    assert r.prod.ops[t].ticket in r'.prod.hub.results;
  }

  lemma RunSettled<T>(cfg: Config, run: seq<Ring<T>>, acts: seq<Action<T>>, i: nat, t: Tid)
    requires IsRun(cfg, run, acts) && i < |acts| && acts[i] == Step(Producer, t)
    ensures run[i].prod.hub.tail.pos <= |run[i].log| && run[i].prod.hub.tail.pos <= |run[i + 1].log|
    ensures forall q :: 0 <= q < run[i].prod.hub.tail.pos ==> run[i + 1].log[q] == run[i].log[q]
  {
    RunOk(cfg, run, acts, i);
    assert StepsTo(cfg, run[i], acts[i], run[i + 1]);
    LogSettled(cfg, run[i], t);
  }

  /** An enqueue, normal or peek, adds exactly its first n objects to the back of the ring; with n == 0
      it leaves the contents as they were. */
  lemma EnqueueAppends<T>(cfg: Config, run: seq<Ring<T>>, acts: seq<Action<T>>, i: nat, t: Tid, n: nat)
    requires IsRun(cfg, run, acts) && i < |acts| && acts[i] == Step(Producer, t)
    requires t in run[i].prod.ops && Publishes(cfg.prod, run[i].prod.ops[t], n)
    ensures n <= |run[i].prod.ops[t].objs|
    ensures Contents(cfg, run[i + 1]) == Contents(cfg, run[i]) + run[i].prod.ops[t].objs[..n]
  {
    RunContents(cfg, run, acts, i);
    RunContents(cfg, run, acts, i + 1);
    AppendedEntries(cfg, run, acts, i, t, n);
    RunSettled(cfg, run, acts, i, t);
    AppendLog(run[i].log, run[i + 1].log, run[i].cons.hub.tail.pos, run[i].prod.hub.tail.pos,
              run[i].prod.ops[t].objs[..n]);
  }

  lemma AppendLog<T>(log: seq<T>, log': seq<T>, from: nat, mid: nat, objs: seq<T>)
    requires from <= mid <= |log| && mid <= |log'| && Logged(log', mid, objs, |objs|)
    requires forall q :: 0 <= q < mid ==> log'[q] == log[q]
    ensures log'[from..mid + |objs|] == log[from..mid] + objs
  {
  }

  lemma TakenEntries<T>(cfg: Config, run: seq<Ring<T>>, acts: seq<Action<T>>, i: nat, t: Tid, n: nat)
    requires IsRun(cfg, run, acts) && i < |acts| && acts[i] == Step(Consumer, t)
    requires t in run[i].cons.ops && Publishes(cfg.cons, run[i].cons.ops[t], n)
    ensures n <= |run[i].cons.ops[t].objs|
    ensures Logged(run[i].log, run[i].cons.hub.tail.pos, run[i].cons.ops[t].objs[..n], n)
    ensures run[i + 1].cons.hub.tail.pos == run[i].cons.hub.tail.pos + n
    ensures run[i + 1].prod == run[i].prod && run[i + 1].log == run[i].log
  {
    var r, r' := run[i], run[i + 1];
    RunOk(cfg, run, acts, i);
    assert StepsTo(cfg, r, acts[i], r');
    Knows(cfg.cons, r.cons, t, r.prod.hub.tail);
    assert ConsOp(r.cons.ops[t], r.log, r.prod.hub.tail.pos);
    PublishMoves(cfg.cons, r.cons, t, r.prod.hub.tail, n);
    assert r'.cons == HubNext(cfg.cons, r.cons, t);
    RunOk(cfg, run, acts, i + 1);
    assert r.cons.ops[t].ticket in r'.cons.hub.results;
  }

  lemma CutLog<T>(log: seq<T>, from: nat, to: nat, objs: seq<T>)
    requires Logged(log, from, objs, |objs|) && from + |objs| <= to <= |log|
    ensures log[from..to] == objs + log[from + |objs|..to]
  {
  }

  /** A dequeue, normal or peek, takes exactly its first n objects from the front; they are the ones it
      returned. */
  lemma DequeueTakes<T>(cfg: Config, run: seq<Ring<T>>, acts: seq<Action<T>>, i: nat, t: Tid, n: nat)
    requires IsRun(cfg, run, acts) && i < |acts| && acts[i] == Step(Consumer, t)
    requires t in run[i].cons.ops && Publishes(cfg.cons, run[i].cons.ops[t], n)
    ensures n <= |run[i].cons.ops[t].objs|
    ensures Contents(cfg, run[i]) == run[i].cons.ops[t].objs[..n] + Contents(cfg, run[i + 1])
  {
    RunContents(cfg, run, acts, i);
    RunContents(cfg, run, acts, i + 1);
    TakenEntries(cfg, run, acts, i, t, n);
    CutLog(run[i].log, run[i].cons.hub.tail.pos, run[i].prod.hub.tail.pos, run[i].cons.ops[t].objs[..n]);
  }

  /** Peek finish: a count above the reservation acts as 0, and the contents change only at the store. */
  lemma PeekClamps<T>(cfg: Config, run: seq<Ring<T>>, acts: seq<Action<T>>, i: nat, kind: Kind, t: Tid, k: nat,
                      objs: seq<T>)
    requires IsRun(cfg, run, acts) && i < |acts| && acts[i] == EndPeek(kind, t, k, objs)
    ensures t in SideOf(run[i], kind).ops && SideOf(run[i], kind).ops[t].pc.Held? && t in SideOf(run[i + 1], kind).ops
    ensures var n, pc := SideOf(run[i], kind).ops[t].pc.n, SideOf(run[i + 1], kind).ops[t].pc;
      (pc.FinCopy? || pc.FinStore?) && pc.k == (if k <= n then k else 0)
    ensures Contents(cfg, run[i + 1]) == Contents(cfg, run[i])
  {
    RunSide(cfg, run, acts, i, kind);
    assert StepsTo(cfg, run[i], acts[i], run[i + 1]);
    var env, s, opp := EnvOf(cfg, kind), SideOf(run[i], kind), OppTail(run[i], kind);
    Knows(env, s, t, opp);
    FinishOpKeeps(env, s.hub, t, s.ops[t], k, objs, opp);
    assert SideOf(run[i + 1], kind) == Finish(env, s, t, k, objs);
  }

  // ---------------------------------------------------------------- every step, every mode

  /** The tail wait of an MT operation, on words, holds exactly when the positions are equal. */
  lemma WaitIsExact<T>(cfg: Config, run: seq<Ring<T>>, acts: seq<Action<T>>, i: nat, kind: Kind, t: Tid)
    requires IsRun(cfg, run, acts) && i < |run| && t in SideOf(run[i], kind).ops
    requires SideOf(run[i], kind).ops[t].pc.WaitTail?
    ensures var s := SideOf(run[i], kind);
      s.hub.tail.word == s.ops[t].pc.lo.word <==> s.hub.tail.pos == s.ops[t].pc.lo.pos
  {
    RunSide(cfg, run, acts, i, kind);
    var s := SideOf(run[i], kind);
    ClaimIsTicket(EnvOf(cfg, kind), s, t, OppTail(run[i], kind));
    CountsWithin(EnvOf(cfg, kind), s.hub, t, s.ops[t], OppTail(run[i], kind));
    Reservations(cfg, run, acts, i, kind);
    Knows(EnvOf(cfg, kind), s, t, OppTail(run[i], kind));
    SameWord(s.hub.tail, s.ops[t].pc.lo);
  }

  lemma ProdTailGrows<T>(cfg: Config, r: Ring<T>, t: Tid)
    requires RingOk(cfg, r) && t in r.prod.ops && InWindow(cfg.prod, r.prod, t)
    ensures var r' := Apply(cfg, r, Step(Producer, t));
      r'.cons == r.cons && r.prod.hub.tail.pos <= r'.prod.hub.tail.pos
  {
    assert ProdOp(cfg.prod, r.prod.ops[t], r.log, r.cells);
    NextKeeps(cfg.prod, r.prod, t, r.cons.hub.tail, r.cells);
  }

  /** In every mode a producer's step adds objects at the back, if it changes the contents at all. */
  lemma ProducersOnlyAppend<T>(cfg: Config, run: seq<Ring<T>>, acts: seq<Action<T>>, i: nat, t: Tid)
    requires IsRun(cfg, run, acts) && i < |acts| && acts[i] == Step(Producer, t)
    ensures Contents(cfg, run[i]) <= Contents(cfg, run[i + 1])
  {
    RunOk(cfg, run, acts, i);
    assert StepsTo(cfg, run[i], acts[i], run[i + 1]);
    ProdTailGrows(cfg, run[i], t);
    RunContents(cfg, run, acts, i);
    RunContents(cfg, run, acts, i + 1);
    RunSettled(cfg, run, acts, i, t);
  }

  lemma ConsTailGrows<T>(cfg: Config, r: Ring<T>, t: Tid)
    requires RingOk(cfg, r) && t in r.cons.ops && InWindow(cfg.cons, r.cons, t)
    ensures var r' := Apply(cfg, r, Step(Consumer, t));
      r'.prod == r.prod && r'.log == r.log && r.cons.hub.tail.pos <= r'.cons.hub.tail.pos
  {
    assert ConsOp(r.cons.ops[t], r.log, r.prod.hub.tail.pos);
    Knows(cfg.cons, r.cons, t, r.prod.hub.tail);
    NextKeeps(cfg.cons, r.cons, t, r.prod.hub.tail, r.cells);
  }

  lemma ConsTailSteps<T>(cfg: Config, run: seq<Ring<T>>, acts: seq<Action<T>>, i: nat, t: Tid)
    requires IsRun(cfg, run, acts) && i < |acts| && acts[i] == Step(Consumer, t)
    ensures run[i + 1].prod == run[i].prod && run[i + 1].log == run[i].log
    ensures run[i].cons.hub.tail.pos <= run[i + 1].cons.hub.tail.pos
  {
    RunOk(cfg, run, acts, i);
    assert StepsTo(cfg, run[i], acts[i], run[i + 1]);
    ConsTailGrows(cfg, run[i], t);
  }

  lemma Suffix<T>(log: seq<T>, lo: nat, mid: nat, hi: nat)
    requires lo <= mid <= hi <= |log|
    ensures log[mid..hi] == log[lo..hi][|log[lo..hi]| - |log[mid..hi]|..]
  {
  }

  /** In every mode a consumer's step takes objects from the front, if it changes the contents at all. */
  lemma ConsumersOnlyTake<T>(cfg: Config, run: seq<Ring<T>>, acts: seq<Action<T>>, i: nat, t: Tid)
    requires IsRun(cfg, run, acts) && i < |acts| && acts[i] == Step(Consumer, t)
    ensures |Contents(cfg, run[i + 1])| <= |Contents(cfg, run[i])|
    ensures Contents(cfg, run[i + 1]) == Contents(cfg, run[i])[|Contents(cfg, run[i])| - |Contents(cfg, run[i + 1])|..]
  {
    ConsTailSteps(cfg, run, acts, i, t);
    RunContents(cfg, run, acts, i);
    RunContents(cfg, run, acts, i + 1);
    Suffix(run[i].log, run[i].cons.hub.tail.pos, run[i + 1].cons.hub.tail.pos, run[i].prod.hub.tail.pos);
  }
}
