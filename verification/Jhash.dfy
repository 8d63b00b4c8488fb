/** Jenkins hash (rte_jhash.h): its 32-bit arithmetic, and the functions programs call. */
module Jhash {
  import Words
  import Bits
  import Slabs
  import opened JhashBlocks

  const M: nat := 0x1_0000_0000

  type Word = x: nat | x < M

  const GOLDEN: Word := 0xdeadbeef

  // ---------------------------------------------------------------- unsigned 32-bit arithmetic

  /** x + y and x - y modulo 2^32 */
  function Plus(x: Word, y: Word): Word { if x + y < M then x + y else x + y - M }

  function Minus(x: Word, y: Word): Word { if x >= y then x - y else x + M - y }

  function Xor(x: Word, y: Word): Word {
    Words.Pow2Is32();
    XorNarrow(x, y, 32);
    Bits.Xor(x, y)
  }

  lemma {:induction false} XorNarrow(x: nat, y: nat, k: nat)
    requires x < Words.Pow2(k) && y < Words.Pow2(k)
    ensures Bits.Xor(x, y) < Words.Pow2(k)
  {
    if k > 0 { XorNarrow(x / 2, y / 2, k - 1); }
  }

  function Rot(x: Word, k: nat): Word
    requires k <= 32
  {
    Words.Pow2Is32();
    Slabs.OrNarrow(x * Words.Pow2(k) % M, x / Words.Pow2(32 - k) % M, 32);
    Slabs.Or(x * Words.Pow2(k) % M, x / Words.Pow2(32 - k) % M)
  }

  /** __rte_jhash_mix */
  function Mix(t: Three<Word>): Three<Word> {
    var a, b, c := t.a, t.b, t.c;
    var a := Xor(Minus(a, c), Rot(c, 4));
    var c := Plus(c, b);
    var b := Xor(Minus(b, a), Rot(a, 6));
    var a := Plus(a, c);
    var c := Xor(Minus(c, b), Rot(b, 8));
    var b := Plus(b, a);
    var a := Xor(Minus(a, c), Rot(c, 16));
    var c := Plus(c, b);
    var b := Xor(Minus(b, a), Rot(a, 19));
    var a := Plus(a, c);
    var c := Xor(Minus(c, b), Rot(b, 4));
    var b := Plus(b, a);
    Three(a, b, c)
  }

  /** __rte_jhash_final */
  function Final(t: Three<Word>): Three<Word> {
    var a, b, c := t.a, t.b, t.c;
    var c := Minus(Xor(c, b), Rot(b, 14));
    var a := Minus(Xor(a, c), Rot(c, 11));
    var b := Minus(Xor(b, a), Rot(a, 25));
    var c := Minus(Xor(c, b), Rot(b, 16));
    var a := Minus(Xor(a, c), Rot(c, 4));
    var b := Minus(Xor(b, a), Rot(a, 14));
    var c := Minus(Xor(c, b), Rot(b, 24));
    Three(a, b, c)
  }

  // ---------------------------------------------------------------- mixing loses nothing

  /** One of the six steps of mixing, after which a, b and c change roles. */
  function Turn(t: Three<Word>, k: nat): Three<Word>
    requires k <= 32
  {
    Three(t.b, Plus(t.c, t.b), Xor(Minus(t.a, t.c), Rot(t.c, k)))
  }

  function TurnBack(t: Three<Word>, k: nat): Three<Word>
    requires k <= 32
  {
    var c := Minus(t.b, t.a);
    Three(Plus(Xor(t.c, Rot(c, k)), c), t.a, c)
  }

  lemma MixIsTurns(t: Three<Word>)
    ensures Mix(t) == Turn(Turn(Turn(Turn(Turn(Turn(t, 4), 6), 8), 16), 19), 4)
  {
  }

  lemma TurnIsReversible(t: Three<Word>, k: nat)
    requires k <= 32
    ensures TurnBack(Turn(t, k), k) == t
  {
    var r := Rot(t.c, k);
    Bits.XorCancels(Minus(t.a, t.c), r);
    PlusMinus(t.c, t.b);
    PlusMinus(t.a, t.c);
    assert TurnBack(Turn(t, k), k).c == t.c;
  }

  lemma PlusMinus(x: Word, y: Word)
    ensures Plus(Minus(x, y), y) == x && Minus(Plus(x, y), y) == x
  {
  }

  function Unmix(t: Three<Word>): Three<Word> {
    TurnBack(TurnBack(TurnBack(TurnBack(TurnBack(TurnBack(t, 4), 19), 16), 8), 6), 4)
  }

  /** Mixing in a block can be undone: different internal states stay different. */
  lemma MixIsReversible(t: Three<Word>)
    ensures Unmix(Mix(t)) == t
  {
    var t1 := Turn(t, 4);
    var t2 := Turn(t1, 6);
    var t3 := Turn(t2, 8);
    var t4 := Turn(t3, 16);
    var t5 := Turn(t4, 19);
    MixIsTurns(t);
    TurnIsReversible(t5, 4);
    TurnIsReversible(t4, 19);
    TurnIsReversible(t3, 16);
    TurnIsReversible(t2, 8);
    TurnIsReversible(t1, 6);
    TurnIsReversible(t, 4);
  }

  // ---------------------------------------------------------------- words and bytes

  type Byte = b: nat | b < 0x100

  /** A 32-bit word as a little-endian machine reads it. */
  function Le(a: Byte, b: Byte, c: Byte, d: Byte): Word { a + 0x100 * b + 0x1_0000 * c + 0x100_0000 * d }

  /** BIT_SHIFT by 32 - k bits, cut to 32 bits where it is used; `down` is 2^(32 - k) and `up` 2^k. */
  function BitShift(x: Word, y: Word, down: nat, up: nat): Word
    requires down > 0
  {
    Slabs.Or(x / down, y * up) % M
  }

  function ShiftBytes(x: Word, y: Word, n: nat): Word {
    if n == 1 then BitShift(x, y, 0x100, 0x100_0000)
    else if n == 2 then BitShift(x, y, 0x1_0000, 0x1_0000)
    else BitShift(x, y, 0x100_0000, 0x100)
  }

  /** LOWER8b_MASK, LOWER16b_MASK and LOWER24b_MASK */
  function LowBytes(x: Word, n: nat): Word {
    if n == 1 then Bits.And(x, 0xff) else if n == 2 then Bits.And(x, 0xffff) else Bits.And(x, 0xff_ffff)
  }

  const OPS: Ops<Byte, Word> := Ops(0, Le, LowBytes, ShiftBytes, Plus, Mix, Final)

  /** c << k */
  function Up(c: nat, k: nat): nat { if k == 0 then c else 2 * Up(c, k - 1) }

  lemma {:induction false} UpIs(c: nat, k: nat)
    ensures Up(c, k) == c * Words.Pow2(k)
  {
    if k > 0 { UpIs(c, k - 1); }
  }

  lemma {:induction false} OrSum(a: nat, c: nat, k: nat)
    requires a < Words.Pow2(k)
    ensures Slabs.Or(a, Up(c, k)) == a + Up(c, k)
  {
    if k == 0 { OrZero(c); } else { OrSum(a / 2, c, k - 1); }
  }

  /** Shifted words that do not overlap add up. */
  lemma Joined(q: nat, y: nat, k: nat, up: nat, high: nat, low: nat)
    requires q < up == Words.Pow2(k) && y * up == high * M + low && q + low < M
    ensures Slabs.Or(q, y * up) % M == q + low
  {
    OrSum(q, y, k);
    UpIs(y, k);
    Words.ModUnique(q + y * up, high, q + low, M);
  }

  lemma {:induction false} OrZero(c: nat)
    ensures Slabs.Or(0, c) == c
  {
    if c > 0 { OrZero(c / 2); }
  }

  lemma Powers()
    ensures Words.Pow2(8) == 0x100 && Words.Pow2(16) == 0x1_0000 && Words.Pow2(24) == 0x100_0000
  {
    assert Words.Pow2(8) == 256;
    Words.Pow2Sum(8, 8);
    Words.Pow2Sum(8, 16);
  }

  lemma Shift1(a: Byte, b: Byte, c: Byte, d: Byte, e: Byte, f: Byte, g: Byte, h: Byte)
    ensures BitShift(Le(a, b, c, d), Le(e, f, g, h), 0x100, 0x100_0000) == Le(b, c, d, e)
  {
    var x: nat, y: nat := Le(a, b, c, d), Le(e, f, g, h);
    var q: nat, low: nat := b + 0x100 * c + 0x1_0000 * d, e * 0x100_0000;
    Words.ModUnique(x, q, a, 0x100);
    Powers();
    Joined(q, y, 24, 0x100_0000, f + 0x100 * g + 0x1_0000 * h, low);
  }

  lemma Shift2(a: Byte, b: Byte, c: Byte, d: Byte, e: Byte, f: Byte, g: Byte, h: Byte)
    ensures BitShift(Le(a, b, c, d), Le(e, f, g, h), 0x1_0000, 0x1_0000) == Le(c, d, e, f)
  {
    var x: nat, y: nat := Le(a, b, c, d), Le(e, f, g, h);
    var q: nat, low: nat := c + 0x100 * d, e * 0x1_0000 + f * 0x100_0000;
    Words.ModUnique(x, q, a + 0x100 * b, 0x1_0000);
    Powers();
    Joined(q, y, 16, 0x1_0000, g + 0x100 * h, low);
  }

  lemma Shift3(a: Byte, b: Byte, c: Byte, d: Byte, e: Byte, f: Byte, g: Byte, h: Byte)
    ensures BitShift(Le(a, b, c, d), Le(e, f, g, h), 0x100_0000, 0x100) == Le(d, e, f, g)
  {
    var x: nat, y: nat := Le(a, b, c, d), Le(e, f, g, h);
    var q: nat, low: nat := d, e * 0x100 + f * 0x1_0000 + g * 0x100_0000;
    Words.ModUnique(x, q, a + 0x100 * b + 0x1_0000 * c, 0x100_0000);
    Powers();
    Joined(q, y, 8, 0x100, h, low);
  }

  lemma ShiftIs(a: Byte, b: Byte, c: Byte, d: Byte, e: Byte, f: Byte, g: Byte, h: Byte)
    ensures ShiftLaw(OPS, a, b, c, d, e, f, g, h)
  {
    Shift1(a, b, c, d, e, f, g, h);
    Shift2(a, b, c, d, e, f, g, h);
    Shift3(a, b, c, d, e, f, g, h);
  }

  lemma LowMod(x: nat, k: nat, m: nat)
    requires m == Words.Pow2(k)
    ensures Bits.And(x, m - 1) == x % m
  {
    Bits.MaskIsMod(x, k);
  }

  lemma Low1(a: Byte, b: Byte, c: Byte, d: Byte)
    ensures Bits.And(Le(a, b, c, d), 0xff) == Le(a, 0, 0, 0)
  {
    Powers();
    LowMod(Le(a, b, c, d), 8, 0x100);
    Words.ModUnique(Le(a, b, c, d), b + 0x100 * c + 0x1_0000 * d, a, 0x100);
  }

  lemma Low2(a: Byte, b: Byte, c: Byte, d: Byte)
    ensures Bits.And(Le(a, b, c, d), 0xffff) == Le(a, b, 0, 0)
  {
    Powers();
    LowMod(Le(a, b, c, d), 16, 0x1_0000);
    Words.ModUnique(Le(a, b, c, d), c + 0x100 * d, a + 0x100 * b, 0x1_0000);
  }

  lemma Low3(a: Byte, b: Byte, c: Byte, d: Byte)
    ensures Bits.And(Le(a, b, c, d), 0xff_ffff) == Le(a, b, c, 0)
  {
    Powers();
    LowMod(Le(a, b, c, d), 24, 0x100_0000);
    Words.ModUnique(Le(a, b, c, d), d, a + 0x100 * b + 0x1_0000 * c, 0x100_0000);
  }

  lemma LowIs(a: Byte, b: Byte, c: Byte, d: Byte)
    ensures MaskLaw(OPS, a, b, c, d)
  {
    Low1(a, b, c, d);
    Low2(a, b, c, d);
    Low3(a, b, c, d);
  }

  lemma OpsAreLawful()
    ensures Masks(OPS) && Shifts(OPS) && Sums(OPS, 0)
  {
    forall a, b, c, d ensures MaskLaw(OPS, a, b, c, d) { LowIs(a, b, c, d); }
    forall a, b, c, d, e, f, g, h ensures ShiftLaw(OPS, a, b, c, d, e, f, g, h) { ShiftIs(a, b, c, d, e, f, g, h); }
    forall x, n, g, i ensures SumLaw(OPS, x, n, g, i, 0) { Sum(x, n, g, i); }
  }

  lemma Sum(x: Word, n: Word, g: Word, i: Word)
    ensures Plus(Plus(x, n), Plus(g, i)) == Plus(Plus(Plus(g, n), i), x)
    ensures Plus(n, Plus(g, i)) == Plus(Plus(g, n), i)
    ensures Plus(x, 0) == x
  {
  }

  // ---------------------------------------------------------------- the functions programs call

  /** The two hashes (c and b) of a key as a function of its bytes and the seeds only. */
  function Hash(key: seq<Byte>, pc: Word, pb: Word): Three<Word>
    requires |key| < M
  {
    Absorb(OPS, key, Seeded(OPS, GOLDEN, |key|, pc, pb))
  }

  /** __rte_jhash_2hashes: the result depends on the bytes of the key, its length and the seeds only,
      whichever path is taken. Only a caller that asks for no alignment check must bring an aligned key. */
  method TwoHashes(mem: Memory<Byte>, key: nat, length: nat, pc: Word, pb: Word, checkAlign: bool, x86: bool)
    returns (c: Word, b: Word)
    requires length < M && (x86 || checkAlign || key % 4 == 0)
    ensures c == Hash(Bytes(mem, key, length), pc, pb).c
    ensures b == Hash(Bytes(mem, key, length), pc, pb).b
  {
    OpsAreLawful();
    var t := Seeded(OPS, GOLDEN, length, pc, pb);
    var r := HashKey(OPS, mem, key, length, t, x86 || !checkAlign || key % 4 == 0);
    return r.c, r.b;
  }

  /** length << 2 on 32 bits: all words are hashed if and only if there are fewer than 2^30. */
  function ByteLength(length: Word): (r: Word)
    ensures r == 4 * length <==> length < 0x4000_0000
  {
    4 * length % M
  }

  /** rte_jhash_32b on `length` words at an address */
  method Hash32b(mem: Memory<Byte>, key: nat, length: Word, initval: Word, x86: bool) returns (c: Word)
    requires x86 || key % 4 == 0
    ensures c == Hash(Bytes(mem, key, ByteLength(length)), initval, 0).c
  {
    var b;
    c, b := TwoHashes(mem, key, ByteLength(length), initval, 0, false, x86);
  }

  /** rte_jhash_1word, rte_jhash_2words and rte_jhash_3words equal rte_jhash_32b on the same words. */
  lemma WordFormsAre(mem: Memory<Byte>, key: nat, initval: Word)
    ensures Words1(OPS, GOLDEN, 4, Load(OPS, mem, key), initval) == Hash(Bytes(mem, key, 4), initval, 0).c
    ensures Words2(OPS, GOLDEN, 8, Load(OPS, mem, key), Load(OPS, mem, key + 4), initval)
      == Hash(Bytes(mem, key, 8), initval, 0).c
    ensures Words3(OPS, GOLDEN, 12, Load(OPS, mem, key), Load(OPS, mem, key + 4), Load(OPS, mem, key + 8), initval)
      == Hash(Bytes(mem, key, 12), initval, 0).c
  {
    OpsAreLawful();
    WordForms(OPS, mem, key, GOLDEN, 4, initval, 0);
    WordForms(OPS, mem, key, GOLDEN, 8, initval, 0);
    WordForms(OPS, mem, key, GOLDEN, 12, initval, 0);
  }
}
