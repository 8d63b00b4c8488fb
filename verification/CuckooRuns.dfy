/** Whole runs of a single writer: the table is the map its successful adds describe. */
module CuckooRuns {
  import opened CuckooState
  import opened CuckooTable
  import opened CuckooWriters

  /** One add and its result. */
  datatype Call = Call(x: Slot, ret: int)

  /** `states` are the tables before, between and after the calls, each of which found its key or a free
      slot. */
  ghost predicate AddRun(P: Params, states: seq<State>, calls: seq<Call>) {
    && |states| == |calls| + 1 && states[0] == Initial(P)
    && forall i :: 0 <= i < |calls| ==> CallOk(P, states[i], states[i + 1], calls[i])
  }

  ghost predicate CallOk(P: Params, s: State, r: State, c: Call) {
    Good(P, s) && (HasKey(P, s, c.x.key) || s.freeSlots != []) && AddSpec(P, s, r, c.x, c.ret)
  }

  /** What the last successful call for a key left: nothing, or the index it returned and its data. */
  datatype Latest = Never | Entry(index: int, data: nat)

  function LatestOf(calls: seq<Call>, key: Key): Latest {
    if calls == [] then Never
    else
      var c := calls[|calls| - 1];
      if c.x.key == key && c.ret >= 0 then Entry(c.ret, c.x.data) else LatestOf(calls[..|calls| - 1], key)
  }

  /** The table agrees with the log for this key. */
  ghost predicate Agrees(P: Params, s: State, key: Key, e: Latest) { Matches(Contents(P, s), key, e) }

  ghost predicate Matches(a: map<nat, Slot>, key: Key, e: Latest) {
    if e.Never? then forall j :: j in a ==> a[j].key != key
    else e.index >= 0 && e.index + 1 in a && a[e.index + 1] == Slot(key, e.data)
  }

  /** A free slot refers to nothing. */
  lemma FreeIsFresh(P: Params, s: State)
    requires Good(P, s) && s.freeSlots != []
    ensures 1 <= s.freeSlots[0] && s.freeSlots[0] !in Contents(P, s)
  {
    var k := s.freeSlots[0];
    var l :| Wf(P, s, l);
    assert k in s.freeSlots;
    SlotPartition(P, s, k);
  }

  /** From contents a to b, x came under index i: over an entry with its key, or as a new entry. */
  ghost predicate Stored(a: map<nat, Slot>, b: map<nat, Slot>, i: int, x: Slot) {
    && (forall j :: j in a ==> j in b && b[j] == if j == i then x else a[j])
    && (forall j :: j in a && j == i ==> a[j].key == x.key)
    && (forall j :: j in b && j !in a ==> j == i && b[j] == x && forall k :: k in a ==> a[k].key != x.key)
  }

  /** A call stores its entry under the index it returns, or nothing. */
  lemma CallContents(P: Params, s: State, r: State, c: Call)
    requires CallOk(P, s, r, c)
    ensures Stored(Contents(P, s), Contents(P, r), c.ret + 1, c.x)
    ensures c.ret == -ENOSPC || (c.ret >= 0 && c.ret + 1 in Contents(P, r))
  {
    if s.freeSlots != [] { FreeIsFresh(P, s); }
    var a, b := Contents(P, s), Contents(P, r);
    if c.ret == -ENOSPC && !HasKey(P, s, c.x.key) {
      assert a == b;
    } else {
      assert b == a[c.ret + 1 := c.x];
    }
  }

  lemma CallKeepsDistinct(P: Params, s: State, r: State, c: Call)
    requires CallOk(P, s, r, c) && Distinct(P, s)
    ensures Distinct(P, r)
  {
    CallContents(P, s, r, c);
    var a, b := Contents(P, s), Contents(P, r);
    assert forall j :: j in a ==> b[j].key == a[j].key;
    forall i, j | i in b && j in b && b[i].key == b[j].key ensures i == j {
      if i in a && j in a { assert a[i].key == a[j].key; }
    }
  }

  lemma StoredMatches(a: map<nat, Slot>, b: map<nat, Slot>, ret: int, x: Slot, key: Key, e: Latest)
    requires Stored(a, b, ret + 1, x) && Matches(a, key, e) && (ret == -ENOSPC || (ret >= 0 && ret + 1 in b))
    requires forall i, j :: i in a && j in a && a[i].key == a[j].key ==> i == j
    ensures Matches(b, key, if x.key == key && ret >= 0 then Entry(ret, x.data) else e)
  {
    if e.Never? { assert forall j :: j in a ==> b[j].key == a[j].key; }
  }

  lemma AgreesNext(P: Params, s: State, r: State, c: Call, key: Key, e: Latest)
    requires Stored(Contents(P, s), Contents(P, r), c.ret + 1, c.x) && Distinct(P, s) && Agrees(P, s, key, e)
    requires c.ret == -ENOSPC || (c.ret >= 0 && c.ret + 1 in Contents(P, r))
    ensures Agrees(P, r, key, if c.x.key == key && c.ret >= 0 then Entry(c.ret, c.x.data) else e)
  {
    StoredMatches(Contents(P, s), Contents(P, r), c.ret, c.x, key, e);
  }

  lemma CallAgrees(P: Params, s: State, r: State, c: Call, key: Key, e: Latest)
    requires CallOk(P, s, r, c) && Distinct(P, s) && Agrees(P, s, key, e)
    ensures Agrees(P, r, key, if c.x.key == key && c.ret >= 0 then Entry(c.ret, c.x.data) else e)
  {
    CallContents(P, s, r, c);
    AgreesNext(P, s, r, c, key, e);
  }

  /** Exactly the failed calls of an extendable table keep a slot out of use. */
  function Leaked(P: Params, calls: seq<Call>): nat {
    if calls == [] then 0
    else Leaked(P, calls[..|calls| - 1]) + if P.extra > 0 && calls[|calls| - 1].ret == -ENOSPC then 1 else 0
  }

  /** After any run, each key maps to what its last successful add stored under the index that add
      returned, no key is there twice, and only the counted slots are out of use. */
  lemma {:induction false} TableIsLog(P: Params, states: seq<State>, calls: seq<Call>, key: Key)
    requires AddRun(P, states, calls)
    ensures var s := states[|calls|];
      Distinct(P, s) && Agrees(P, s, key, LatestOf(calls, key)) && |Loose(P, s)| == Leaked(P, calls)
  {
    var n := |calls| - 1;
    if calls == [] {
      InitialIsGood(P);
    } else {
      var before := calls[..n];
      assert AddRun(P, states[..n + 1], before) by {
        forall i | 0 <= i < n ensures CallOk(P, states[..n + 1][i], states[..n + 1][i + 1], before[i]) {
          assert CallOk(P, states[i], states[i + 1], calls[i]);
        }
      }
      TableIsLog(P, states[..n + 1], before, key);
      var s, r, c := states[n], states[n + 1], calls[n];
      assert CallOk(P, s, r, c);
      CallKeepsDistinct(P, s, r, c);
      CallAgrees(P, s, r, c, key, LatestOf(before, key));
      CallLoose(P, s, r, c);
    }
  }

  lemma CallLoose(P: Params, s: State, r: State, c: Call)
    requires CallOk(P, s, r, c)
    ensures |Loose(P, r)| == |Loose(P, s)| + if P.extra > 0 && c.ret == -ENOSPC then 1 else 0
  {
    if s.freeSlots != [] {
      var l :| Wf(P, s, l);
      var a := AllocKeeps(P, s, l);
    }
  }

  /** A key keeps its index: two successful adds of one key return the same one. */
  lemma SameIndex(P: Params, states: seq<State>, calls: seq<Call>, key: Key)
    requires AddRun(P, states, calls) && calls != []
    requires var c := calls[|calls| - 1]; c.x.key == key && c.ret >= 0
    requires LatestOf(calls[..|calls| - 1], key).Entry?
    ensures LatestOf(calls[..|calls| - 1], key).index == calls[|calls| - 1].ret
  {
    var n := |calls| - 1;
    assert AddRun(P, states[..n + 1], calls[..n]) by {
      forall i | 0 <= i < n ensures CallOk(P, states[..n + 1][i], states[..n + 1][i + 1], calls[..n][i]) {
        assert CallOk(P, states[i], states[i + 1], calls[i]);
      }
    }
    TableIsLog(P, states[..n + 1], calls[..n], key);
    assert CallOk(P, states[n], states[n + 1], calls[n]);
  }

  lemma RunGrows(P: Params, states: seq<State>, calls: seq<Call>, r: State, c: Call)
    requires AddRun(P, states, calls) && CallOk(P, states[|calls|], r, c)
    ensures AddRun(P, states + [r], calls + [c])
  {
    var ss, cs := states + [r], calls + [c];
    forall i | 0 <= i < |cs| ensures CallOk(P, ss[i], ss[i + 1], cs[i]) {
      if i < |calls| { assert CallOk(P, states[i], states[i + 1], calls[i]); }
    }
  }

  lemma RunIsLog(P: Params, states: seq<State>, calls: seq<Call>)
    requires AddRun(P, states, calls)
    ensures var s := states[|calls|];
      && Distinct(P, s) && |Loose(P, s)| == Leaked(P, calls) && forall key :: Agrees(P, s, key, LatestOf(calls, key))
  {
    TableIsLog(P, states, calls, P.dummy);
    forall key ensures Agrees(P, states[|calls|], key, LatestOf(calls, key)) { TableIsLog(P, states, calls, key); }
  }

  /** These calls add the first keys of xs. */
  ghost predicate Adds(calls: seq<Call>, xs: seq<Slot>) {
    |calls| <= |xs| && forall i :: 0 <= i < |calls| ==> calls[i].x == xs[i]
  }

  lemma AddsNext(calls: seq<Call>, xs: seq<Slot>, ret: int)
    requires Adds(calls, xs) && |calls| < |xs|
    ensures Adds(calls + [Call(xs[|calls|], ret)], xs)
  {
  }

  /** A single writer adds keys to a new table until all are added or no slot is free: a run as above. */
  method AddAll(P: Params, world: World, xs: seq<Slot>) returns (t: Table, calls: seq<Call>)
    requires Cooperative(P, world) && Quiet(world) && forall i :: 0 <= i < |xs| ==> xs[i].key != P.dummy
    ensures fresh(t) && t.P == P && t.Valid() && Adds(calls, xs) && (|calls| == |xs| || t.freeSlots == [])
    ensures Distinct(P, t.S()) && |Loose(P, t.S())| == Leaked(P, calls)
    ensures forall key :: Agrees(P, t.S(), key, LatestOf(calls, key))
  {
    t := new Table(P, world);
    calls := [];
    ghost var states := [t.S()];
    while |calls| < |xs| && t.freeSlots != []
      invariant t.P == P && t.world == world && fresh(t) && t.Valid() && Adds(calls, xs)
      invariant AddRun(P, states, calls) && states[|calls|] == t.S()
      decreases |xs| - |calls|
    {
      var x := xs[|calls|];
      ghost var s := t.S();
      var ret := t.Add(x.key, x.data);
      RunGrows(P, states, calls, t.S(), Call(x, ret));
      AddsNext(calls, xs, ret);
      calls, states := calls + [Call(x, ret)], states + [t.S()];
    }
    RunIsLog(P, states, calls);
  }
}
