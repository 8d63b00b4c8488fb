/** The breadth-first search for a displacement path: the shape of its queue, the path to a leaf, and why
    a path that the table has not changed under is never refused. */
module CuckooSearch {
  import opened CuckooCells
  import opened CuckooState

  /** struct queue_node; prev is -1 where the source has a null pointer. */
  datatype Node = Node(bkt: nat, cur: nat, prev: int, prevSlot: int)

  ghost predicate NodeOk(P: Params, q: seq<Node>, i: nat, from: nat)
    requires i < |q|
  {
    && q[i].bkt == q[i].cur < Main(P)
    && (if i == 0 then q[0].prev == -1 && q[0].bkt == from
        else 0 <= q[i].prev < i && 0 <= q[i].prevSlot < ENTRIES)
  }

  /** The search tree: a node's bucket matches its index and its parent comes strictly before it. */
  ghost predicate Tree(P: Params, q: seq<Node>, n: nat, from: nat) {
    n <= |q| && forall i :: 0 <= i < n ==> NodeOk(P, q, i, from)
  }

  /** The places from node i's parent to the root. */
  ghost function Path(P: Params, q: seq<Node>, n: nat, from: nat, i: nat): (r: seq<Place>)
    requires Tree(P, q, n, from) && i < n
    ensures forall p :: p in r ==> p.bkt < Main(P) && p.slot < ENTRIES
    ensures from == if r == [] then q[i].bkt else r[|r| - 1].bkt
    decreases i
  {
    assert NodeOk(P, q, i, from);
    if i == 0 then [] else
      assert NodeOk(P, q, q[i].prev, from);
      [Place(q[q[i].prev].bkt, q[i].prevSlot)] + Path(P, q, n, from, q[i].prev)
  }

  /** One step of the walk from node i to its parent. */
  lemma PathStep(P: Params, q: seq<Node>, n: nat, from: nat, i: nat)
    requires Tree(P, q, n, from) && i < n && q[i].prev >= 0
    ensures 0 <= q[i].prev < i && 0 <= q[i].prevSlot < ENTRIES
    ensures q[q[i].prev].cur == q[q[i].prev].bkt < Main(P)
    ensures Path(P, q, n, from, i) != []
    ensures Path(P, q, n, from, i)[0] == Place(q[q[i].prev].bkt, q[i].prevSlot)
    ensures Path(P, q, n, from, i)[1..] == Path(P, q, n, from, q[i].prev)
  {
    assert NodeOk(P, q, i, from);
    assert NodeOk(P, q, q[i].prev, from);
  }

  lemma TreeGrows(P: Params, q: seq<Node>, n: nat, from: nat, x: Node)
    requires Tree(P, q, n, from) && 0 < n < |q|
    requires x.bkt == x.cur < Main(P) && 0 <= x.prev < n && 0 <= x.prevSlot < ENTRIES
    ensures Tree(P, q[n := x], n + 1, from)
  {
    var r := q[n := x];
    forall i | 0 <= i < n + 1 ensures NodeOk(P, r, i, from) {
      assert i < n ==> NodeOk(P, q, i, from);
    }
  }

  // ---------------------------------------------------------------- a search nobody interferes with

  /** Child s of node x is node 8 * x + 1 + s, and leads to where the entry in slot s could move now. */
  ghost predicate Child(P: Params, cells: Buckets, q: seq<Node>, x: nat, s: nat)
    requires 8 * x + 1 + s < |q| && s < ENTRIES && |cells| >= Main(P)
  {
    var c := q[8 * x + 1 + s];
    && c.prev == x && c.prevSlot == s && q[x].bkt < Main(P)
    && c.bkt == Alt(q[x].bkt, cells[q[x].bkt][s].sig, P.order)
  }

  ghost predicate FullRow(cells: Buckets, b: nat)
    requires b < |cells|
  {
    forall s :: 0 <= s < ENTRIES ==> cells[b][s].idx != EMPTY
  }

  /** The first n queue entries are the search of this very table, and it found no empty slot before
      slot i of node `tail`, where n is 8 * tail + 1 + i. */
  ghost predicate Current(P: Params, cells: Buckets, q: seq<Node>, tail: nat, i: nat) {
    && i <= ENTRIES && 8 * tail + 1 + i <= |q| && |cells| >= Main(P)
    && (forall x: nat, s: nat :: s < ENTRIES && 8 * x + 1 + s < 8 * tail + 1 + i ==> Child(P, cells, q, x, s))
    && (forall x: nat :: x < tail ==> q[x].bkt < Main(P) && FullRow(cells, q[x].bkt))
    && (i > 0 ==> q[tail].bkt < Main(P) && forall s :: 0 <= s < i ==> cells[q[tail].bkt][s].idx != EMPTY)
  }

  /** No node before a has its bucket. */
  ghost predicate First(q: seq<Node>, a: nat)
    requires a < |q|
  {
    forall x: nat :: x < a ==> q[x].bkt != q[a].bkt
  }

  /** If a node is the first with its bucket, so is its parent. */
  lemma ParentFirst(P: Params, cells: Buckets, q: seq<Node>, tail: nat, i: nat, a: nat, s: nat)
    requires Current(P, cells, q, tail, i) && s < ENTRIES && 8 * a + 1 + s <= tail && First(q, 8 * a + 1 + s)
    ensures First(q, a)
  {
    forall x: nat | x < a ensures q[x].bkt != q[a].bkt {
      assert Child(P, cells, q, a, s);
      assert Child(P, cells, q, x, s);
      assert q[8 * x + 1 + s].bkt != q[8 * a + 1 + s].bkt;
    }
  }

  /** The walk can go along this path: each entry's alternate bucket is that of the place before it, and
      no place comes twice. */
  ghost predicate Walkable(P: Params, cells: Buckets, hole: Place, path: seq<Place>)
    decreases |path|
  {
    path == [] ||
    (&& In(cells, path[0]) && Alt(path[0].bkt, At(cells, path[0]).sig, P.order) == hole.bkt
     && (forall p :: p in path ==> p.bkt != hole.bkt)
     && Walkable(P, cells, path[0], path[1..]))
  }

  lemma {:induction false} WalkableElsewhere(P: Params, cells: Buckets, hole: Place, path: seq<Place>, h: Place,
                                             c: Cell)
    requires Walkable(P, cells, hole, path) && In(cells, h) && forall p :: p in path ==> p.bkt != h.bkt
    ensures Walkable(P, Put(cells, h, c), hole, path)
    decreases |path|
  {
    if path != [] {
      assert path[0] in path && forall p :: p in path[1..] ==> p in path;
      WalkableElsewhere(P, cells, path[0], path[1..], h, c);
    }
  }

  /** Then it is not refused. */
  lemma {:induction false} WalkableInserts(P: Params, cells: Buckets, hole: Place, path: seq<Place>, entry: Cell)
    requires In(cells, hole) && (forall p :: p in path ==> In(cells, p)) && Walkable(P, cells, hole, path)
    ensures Displace(cells, P.order, hole, path, entry).Inserted?
    decreases |path|
  {
    if path != [] {
      assert path[0] in path && forall p :: p in path[1..] ==> p in path;
      WalkableElsewhere(P, cells, path[0], path[1..], hole, At(cells, path[0]));
      WalkableInserts(P, Put(cells, hole, At(cells, path[0])), path[0], path[1..], entry);
    }
  }

  /** The buckets of the path are those of nodes before a. */
  ghost predicate Before(q: seq<Node>, path: seq<Place>, a: nat)
    requires a <= |q|
  {
    forall p :: p in path ==> exists x: nat :: x < a && q[x].bkt == p.bkt
  }

  lemma WalkableStep(P: Params, cells: Buckets, q: seq<Node>, x: nat, s: nat, slot: nat, rest: seq<Place>)
    requires s < ENTRIES && 8 * x + 1 + s < |q| && |cells| >= Main(P) && Child(P, cells, q, x, s)
    requires First(q, 8 * x + 1 + s)
    requires Walkable(P, cells, Place(q[x].bkt, s), rest) && Before(q, rest, x)
    ensures Walkable(P, cells, Place(q[8 * x + 1 + s].bkt, slot), [Place(q[x].bkt, s)] + rest)
    ensures Before(q, [Place(q[x].bkt, s)] + rest, 8 * x + 1 + s)
  {
    var a, path := 8 * x + 1 + s, [Place(q[x].bkt, s)] + rest;
    forall p | p in path ensures p.bkt != q[a].bkt && exists y: nat :: y < a && q[y].bkt == p.bkt {
      if p == path[0] {
        assert q[x].bkt == p.bkt;
      } else {
        assert p in rest;
      }
    }
    assert path[1..] == rest;
  }

  lemma {:induction false} PathIsWalkable(P: Params, cells: Buckets, q: seq<Node>, n: nat, from: nat, tail: nat,
                                          i: nat, a: nat, slot: nat)
    requires Tree(P, q, n, from) && Current(P, cells, q, tail, i) && tail < n && a <= tail && First(q, a)
    requires q[a].bkt < Main(P)
    ensures Walkable(P, cells, Place(q[a].bkt, slot), Path(P, q, n, from, a)) && Before(q, Path(P, q, n, from, a), a)
    decreases a
  {
    assert NodeOk(P, q, a, from);
    if a > 0 {
      var x, s := ParentOf(a);
      assert Child(P, cells, q, x, s);
      PathStep(P, q, n, from, a);
      ParentFirst(P, cells, q, tail, i, x, s);
      PathIsWalkable(P, cells, q, n, from, tail, i, x, s);
      WalkableStep(P, cells, q, x, s, slot, Path(P, q, n, from, x));
      assert Path(P, q, n, from, a) == [Place(q[x].bkt, s)] + Path(P, q, n, from, x);
    }
  }

  lemma ParentOf(a: nat) returns (x: nat, s: nat)
    requires a > 0
    ensures a == 8 * x + 1 + s && s < ENTRIES
  {
    x, s := (a - 1) / 8, (a - 1) % 8;
  }

  /** A search of an unchanged table that reaches an empty slot inserts: the path to it is the shortest to
      its bucket, so it goes through no bucket twice. */
  lemma NotRefused(P: Params, cells: Buckets, q: seq<Node>, n: nat, from: nat, tail: nat, i: nat, entry: Cell)
    requires Tree(P, q, n, from) && Current(P, cells, q, tail, i) && tail < n && i < ENTRIES && q[tail].bkt < Main(P)
    requires cells[q[tail].bkt][i].idx == EMPTY
    ensures Displace(cells, P.order, Place(q[tail].bkt, i), Path(P, q, n, from, tail), entry).Inserted?
  {
    forall x: nat | x < tail ensures q[x].bkt != q[tail].bkt {
      assert FullRow(cells, q[x].bkt);
    }
    PathIsWalkable(P, cells, q, n, from, tail, i, tail, i);
    WalkableInserts(P, cells, Place(q[tail].bkt, i), Path(P, q, n, from, tail), entry);
  }

  /** Going on to the next slot, and to the next node. */
  lemma CurrentGrows(P: Params, cells: Buckets, q: seq<Node>, tail: nat, i: nat, x: Node)
    requires Current(P, cells, q, tail, i) && i < ENTRIES && 8 * tail + 1 + i < |q| && q[tail].bkt < Main(P)
    requires x.prev == tail && x.prevSlot == i && cells[q[tail].bkt][i].idx != EMPTY
    requires x.bkt == Alt(q[tail].bkt, cells[q[tail].bkt][i].sig, P.order)
    ensures Current(P, cells, q[8 * tail + 1 + i := x], tail, i + 1)
  {
    var n := 8 * tail + 1 + i;
    var r := q[n := x];
    forall y: nat, s: nat | s < ENTRIES && 8 * y + 1 + s < n + 1 ensures Child(P, cells, r, y, s) {
      assert 8 * y + 1 + s < n ==> Child(P, cells, q, y, s);
    }
  }

  lemma CurrentNext(P: Params, cells: Buckets, q: seq<Node>, tail: nat)
    requires Current(P, cells, q, tail, ENTRIES)
    ensures Current(P, cells, q, tail + 1, 0)
  {
    assert FullRow(cells, q[tail].bkt);
  }
}
