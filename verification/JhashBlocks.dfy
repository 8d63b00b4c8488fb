/** The block structure of the Jenkins hash, for any word arithmetic that reads bytes little-endian: both
    ways of walking over a key in memory compute one function of the key's bytes. */
module JhashBlocks {
  /** Contents of memory at each byte address. */
  type Memory<!B> = nat -> B

  /** The three words of internal state. */
  datatype Three<W> = Three(a: W, b: W, c: W)

  /** Word operations: `zero` is the zero byte, `le` makes a word of four bytes, `low(x, n)` masks all but n bytes,
      `shift(x, y, n)` is BIT_SHIFT by n bytes. */
  datatype Ops<!B, !W> = Ops(zero: B, le: (B, B, B, B) -> W, low: (W, nat) -> W, shift: (W, W, nat) -> W,
                         add: (W, W) -> W, mix: Three<W> -> Three<W>, fin: Three<W> -> Three<W>)

  ghost predicate ShiftLaw<B(!new), W(!new)>(o: Ops<B, W>, a: B, b: B, c: B, d: B, e: B, f: B, g: B, h: B) {
    && o.shift(o.le(a, b, c, d), o.le(e, f, g, h), 1) == o.le(b, c, d, e)
    && o.shift(o.le(a, b, c, d), o.le(e, f, g, h), 2) == o.le(c, d, e, f)
    && o.shift(o.le(a, b, c, d), o.le(e, f, g, h), 3) == o.le(d, e, f, g)
  }

  ghost predicate Shifts<B(!new), W(!new)>(o: Ops<B, W>) {
    forall a, b, c, d, e, f, g, h :: ShiftLaw(o, a, b, c, d, e, f, g, h)
  }

  ghost predicate MaskLaw<B(!new), W(!new)>(o: Ops<B, W>, a: B, b: B, c: B, d: B) {
    && o.low(o.le(a, b, c, d), 1) == o.le(a, o.zero, o.zero, o.zero)
    && o.low(o.le(a, b, c, d), 2) == o.le(a, b, o.zero, o.zero)
    && o.low(o.le(a, b, c, d), 3) == o.le(a, b, c, o.zero)
  }

  ghost predicate Masks<B(!new), W(!new)>(o: Ops<B, W>) { forall a, b, c, d :: MaskLaw(o, a, b, c, d) }

  // ---------------------------------------------------------------- the hash of a byte sequence

  /** Byte j of a key, 0 past its end. */
  function ByteAt<B, W>(o: Ops<B, W>, key: seq<B>, j: nat): B { if j < |key| then key[j] else o.zero }

  /** Word i of a key, filled up with zero bytes. */
  function WordAt<B, W>(o: Ops<B, W>, key: seq<B>, i: nat): W {
    o.le(ByteAt(o, key, 4 * i), ByteAt(o, key, 4 * i + 1), ByteAt(o, key, 4 * i + 2), ByteAt(o, key, 4 * i + 3))
  }

  /** Word i of a key is added if the key reaches it. */
  function AddWord<B, W>(o: Ops<B, W>, x: W, key: seq<B>, i: nat): W {
    if 4 * i < |key| then o.add(x, WordAt(o, key, i)) else x
  }

  function AddKey<B, W>(o: Ops<B, W>, t: Three<W>, key: seq<B>): Three<W> {
    Three(AddWord(o, t.a, key, 0), AddWord(o, t.b, key, 1), AddWord(o, t.c, key, 2))
  }

  /** Hash of a key from internal state t: blocks of twelve bytes are mixed in, the last one finishes. */
  function Absorb<B, W>(o: Ops<B, W>, key: seq<B>, t: Three<W>): Three<W>
    decreases |key|
  {
    if |key| > 12 then Absorb(o, key[12..], o.mix(AddKey(o, t, key)))
    else if key == [] then t
    else o.fin(AddKey(o, t, key))
  }

  // ---------------------------------------------------------------- keys in memory

  function Bytes<B>(mem: Memory<B>, p: nat, n: nat): (r: seq<B>)
    ensures |r| == n && forall i :: 0 <= i < n ==> r[i] == mem(p + i)
  {
    if n == 0 then [] else Bytes(mem, p, n - 1) + [mem(p + n - 1)]
  }

  lemma DropBlock<B>(mem: Memory<B>, p: nat, n: nat)
    requires n >= 12
    ensures Bytes(mem, p, n)[12..] == Bytes(mem, p + 12, n - 12)
  {
  }

  /** The 32-bit word at a byte address. */
  function Load<B, W>(o: Ops<B, W>, mem: Memory<B>, p: nat): W { o.le(mem(p), mem(p + 1), mem(p + 2), mem(p + 3)) }

  /** What the last block adds for a word of which the key covers n bytes. */
  function Add<B, W>(o: Ops<B, W>, x: W, w: W, n: int): W {
    if n <= 0 then x else if n >= 4 then o.add(x, w) else o.add(x, o.low(w, n))
  }

  /** That is the word of the key: the bytes after the key do not matter. */
  lemma AddReads<B(!new), W(!new)>(o: Ops<B, W>, mem: Memory<B>, p: nat, n: nat, i: nat, x: W)
    requires Masks(o)
    ensures Add(o, x, Load(o, mem, p + 4 * i), n - 4 * i) == AddWord(o, x, Bytes(mem, p, n), i)
  {
    var q := p + 4 * i;
    assert MaskLaw(o, mem(q), mem(q + 1), mem(q + 2), mem(q + 3));
  }

  lemma BlockReads<B(!new), W(!new)>(o: Ops<B, W>, mem: Memory<B>, p: nat, n: nat, t: Three<W>)
    requires Masks(o)
    ensures Three(Add(o, t.a, Load(o, mem, p), n), Add(o, t.b, Load(o, mem, p + 4), n - 4),
                  Add(o, t.c, Load(o, mem, p + 8), n - 8)) == AddKey(o, t, Bytes(mem, p, n))
  {
    AddReads(o, mem, p, n, 0, t.a);
    AddReads(o, mem, p, n, 1, t.b);
    AddReads(o, mem, p, n, 2, t.c);
  }

  /** Shifting two aligned words together reads the word at an unaligned address. */
  lemma ShiftReads<B(!new), W(!new)>(o: Ops<B, W>, mem: Memory<B>, base: nat, s: nat)
    requires Shifts(o) && 0 < s < 4
    ensures o.shift(Load(o, mem, base), Load(o, mem, base + 4), s) == Load(o, mem, base + s)
  {
    assert ShiftLaw(o, mem(base), mem(base + 1), mem(base + 2), mem(base + 3),
                    mem(base + 4), mem(base + 5), mem(base + 6), mem(base + 7));
  }

  /** The hash of n bytes at p, block by block. */
  function FromMemory<B, W>(o: Ops<B, W>, mem: Memory<B>, p: nat, n: nat, t: Three<W>): Three<W>
    decreases n
  {
    if n > 12 then
      FromMemory(o, mem, p + 12, n - 12,
        o.mix(Three(o.add(t.a, Load(o, mem, p)), o.add(t.b, Load(o, mem, p + 4)), o.add(t.c, Load(o, mem, p + 8)))))
    else if n == 0 then t
    else
      o.fin(Three(Add(o, t.a, Load(o, mem, p), n), Add(o, t.b, Load(o, mem, p + 4), n - 4),
                  Add(o, t.c, Load(o, mem, p + 8), n - 8)))
  }

  /** It is the hash of the key's bytes. */
  lemma {:induction false} FromMemoryIsHash<B(!new), W(!new)>(o: Ops<B, W>, mem: Memory<B>, p: nat, n: nat, t: Three<W>)
    requires Masks(o)
    ensures FromMemory(o, mem, p, n, t) == Absorb(o, Bytes(mem, p, n), t)
    decreases n
  {
    BlockReads(o, mem, p, n, t);
    if n > 12 {
      DropBlock(mem, p, n);
      FromMemoryIsHash(o, mem, p + 12, n - 12, o.mix(AddKey(o, t, Bytes(mem, p, n))));
    }
  }

  // ---------------------------------------------------------------- the loops

  /** The switch at the end: no word is read past the last one that the key reaches. */
  method LastBlock<B(!new), W(!new)>(o: Ops<B, W>, w0: W, w1: W, w2: W, n: nat, t: Three<W>) returns (r: Three<W>)
    requires n <= 12
    ensures r == if n == 0 then t else o.fin(Three(Add(o, t.a, w0, n), Add(o, t.b, w1, n - 4), Add(o, t.c, w2, n - 8)))
  {
    if n == 0 { return t; }
    var a, b, c := t.a, t.b, t.c;
    if n > 8 { c := Add(o, c, w2, n - 8); }
    if n > 4 { b := Add(o, b, w1, n - 4); }
    a := Add(o, a, w0, n);
    r := o.fin(Three(a, b, c));
  }

  /** The path for aligned keys, and for any key on x86. */
  method HashAligned<B(!new), W(!new)>(o: Ops<B, W>, mem: Memory<B>, key: nat, length: nat, t0: Three<W>)
    returns (r: Three<W>)
    ensures r == FromMemory(o, mem, key, length, t0)
  {
    var k: nat, n: nat, t := key, length, t0;
    while n > 12
      invariant FromMemory(o, mem, k, n, t) == FromMemory(o, mem, key, length, t0)
    {
      t := o.mix(Three(o.add(t.a, Load(o, mem, k)), o.add(t.b, Load(o, mem, k + 4)), o.add(t.c, Load(o, mem, k + 8))));
      k := k + 12;
      n := n - 12;
    }
    r := LastBlock(o, Load(o, mem, k), Load(o, mem, k + 4), Load(o, mem, k + 8), n, t);
  }

  /** BIT_SHIFT of the aligned words j and j + 1. */
  method ShiftedLoad<B(!new), W(!new)>(o: Ops<B, W>, mem: Memory<B>, j: nat, s: nat, ghost p: nat) returns (w: W)
    requires Shifts(o) && 0 < s < 4 && p == 4 * j + s
    ensures w == Load(o, mem, p)
  {
    ShiftReads(o, mem, 4 * j, s);
    w := o.shift(Load(o, mem, 4 * j), Load(o, mem, 4 * j + 4), s);
  }

  /** The path for keys that are not aligned: j walks over aligned words. */
  method HashShifted<B(!new), W(!new)>(o: Ops<B, W>, mem: Memory<B>, key: nat, length: nat, t0: Three<W>)
    returns (r: Three<W>)
    requires Shifts(o) && key % 4 != 0
    ensures r == FromMemory(o, mem, key, length, t0)
  {
    var j: nat, s: nat, n: nat, t := key / 4, key % 4, length, t0;
    ghost var p: nat := key;
    var w0, w1, w2;
    while n > 12
      invariant p == 4 * j + s
      invariant FromMemory(o, mem, p, n, t) == FromMemory(o, mem, key, length, t0)
    {
      w0 := ShiftedLoad(o, mem, j, s, p);
      w1 := ShiftedLoad(o, mem, j + 1, s, p + 4);
      w2 := ShiftedLoad(o, mem, j + 2, s, p + 8);
      t := o.mix(Three(o.add(t.a, w0), o.add(t.b, w1), o.add(t.c, w2)));
      j := j + 3;
      n := n - 12;
      p := p + 12;
    }
    w0 := ShiftedLoad(o, mem, j, s, p);
    w1 := ShiftedLoad(o, mem, j + 1, s, p + 4);
    w2 := ShiftedLoad(o, mem, j + 2, s, p + 8);
    r := LastBlock(o, w0, w1, w2, n, t);
  }

  /** Either path hashes the bytes of the key. `plain` asks for the first one. */
  method HashKey<B(!new), W(!new)>(o: Ops<B, W>, mem: Memory<B>, key: nat, length: nat, t0: Three<W>, plain: bool)
    returns (r: Three<W>)
    requires Masks(o) && Shifts(o) && (key % 4 == 0 ==> plain)
    ensures r == Absorb(o, Bytes(mem, key, length), t0)
  {
    FromMemoryIsHash(o, mem, key, length, t0);
    if plain {
      r := HashAligned(o, mem, key, length, t0);
    } else {
      r := HashShifted(o, mem, key, length, t0);
    }
  }

  // ---------------------------------------------------------------- seeds and the word forms

  /** Internal state for a key of length n (as a word), with g the golden ratio constant. */
  function Seeded<B, W>(o: Ops<B, W>, g: W, n: W, pc: W, pb: W): Three<W> {
    var a := o.add(o.add(g, n), pc);
    Three(a, a, o.add(a, pb))
  }

  /** __rte_jhash_3words */
  function ThreeWords<B, W>(o: Ops<B, W>, g: W, a: W, b: W, c: W, initval: W): W {
    var i := o.add(g, initval);
    o.fin(Three(o.add(a, i), o.add(b, i), o.add(c, i))).c
  }

  /** rte_jhash_3words, rte_jhash_2words and rte_jhash_1word, with n the key's length */
  function Words3<B, W>(o: Ops<B, W>, g: W, n: W, a: W, b: W, c: W, initval: W): W {
    ThreeWords(o, g, o.add(a, n), o.add(b, n), o.add(c, n), initval)
  }

  function Words2<B, W>(o: Ops<B, W>, g: W, n: W, a: W, b: W, initval: W): W {
    ThreeWords(o, g, o.add(a, n), o.add(b, n), n, initval)
  }

  function Words1<B, W>(o: Ops<B, W>, g: W, n: W, a: W, initval: W): W {
    ThreeWords(o, g, o.add(a, n), n, n, initval)
  }

  ghost predicate SumLaw<B(!new), W(!new)>(o: Ops<B, W>, x: W, n: W, g: W, i: W, zero: W) {
    && o.add(o.add(x, n), o.add(g, i)) == o.add(o.add(o.add(g, n), i), x)
    && o.add(n, o.add(g, i)) == o.add(o.add(g, n), i)
    && o.add(x, zero) == x
  }

  ghost predicate Sums<B(!new), W(!new)>(o: Ops<B, W>, zero: W) { forall x, n, g, i :: SumLaw(o, x, n, g, i, zero) }

  /** The word forms are the general hash of the same words. */
  lemma WordForms<B(!new), W(!new)>(o: Ops<B, W>, mem: Memory<B>, p: nat, g: W, n: W, initval: W, zero: W)
    requires Masks(o) && Sums(o, zero)
    ensures var t := Seeded(o, g, n, initval, zero);
      var w0, w1, w2 := Load(o, mem, p), Load(o, mem, p + 4), Load(o, mem, p + 8);
      && Words1(o, g, n, w0, initval) == Absorb(o, Bytes(mem, p, 4), t).c
      && Words2(o, g, n, w0, w1, initval) == Absorb(o, Bytes(mem, p, 8), t).c
      && Words3(o, g, n, w0, w1, w2, initval) == Absorb(o, Bytes(mem, p, 12), t).c
  {
    var t := Seeded(o, g, n, initval, zero);
    FromMemoryIsHash(o, mem, p, 4, t);
    FromMemoryIsHash(o, mem, p, 8, t);
    FromMemoryIsHash(o, mem, p, 12, t);
    assert SumLaw(o, Load(o, mem, p), n, g, initval, zero);
    assert SumLaw(o, Load(o, mem, p + 4), n, g, initval, zero);
    assert SumLaw(o, Load(o, mem, p + 8), n, g, initval, zero);
    assert SumLaw(o, t.a, n, g, initval, zero);
  }
}
