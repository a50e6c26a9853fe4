/** AES-CMAC as section 2.4 of RFC 4493 computes it: the message is consumed from its front, and only what
    is left at the end is padded and added to a subkey.

    `MacIsStandard` says that `Cmac.Mac`, which the source is proved against, is this function. */
module CmacStandard {
  import opened BitSeq
  import opened Octets
  import opened LteBits
  import opened Cmac

  /** Multiplication by x modulo x^128 + x^7 + x^2 + x + 1; bit i has exponent 127 - i. */
  function TimesX(b: seq<bool>): (r: seq<bool>)
    requires |b| == 128
    ensures |r| == 128
  {
    seq(128, i requires 0 <= i < 128 => (i < 127 && b[i + 1]) != (b[0] && 127 - i in {7, 2, 1, 0}))
  }

  /** The subkeys K1 and K2. */
  function K1(e: BlockFunction): (k: seq<bool>)
    ensures |k| == 128
  {
    TimesX(BufBits(e(ZERO)))
  }

  function K2(e: BlockFunction): (k: seq<bool>)
    ensures |k| == 128
  {
    TimesX(K1(e))
  }

  /** M_last: the last bits of a message, with K1 if they fill a block, otherwise padded and with K2. */
  function LastBits(e: BlockFunction, m: seq<bool>): (r: seq<bool>)
    requires |m| <= 128
    ensures |r| == 128
  {
    if |m| == 128 then XorBits(m, K1(e)) else XorBits(m + [true] + Zeros(127 - |m|), K2(e))
  }

  /** A block from its bits. */
  function ToBlock(b: seq<bool>): (x: Block)
    requires |b| == 128
    ensures BufBits(x) == b
  {
    PackedLength(b);
    WholePacked(b);
    Packed(b)
  }

  /** The rest m of a message, when the blocks before it left the value x. */
  function Consumed(e: BlockFunction, x: Block, m: seq<bool>): Block
    requires |m| > 0
    decreases |m|
  {
    if |m| <= 128 then e(ToBlock(XorBits(LastBits(e, m), BufBits(x))))
    else Consumed(e, e(ToBlock(XorBits(BufBits(x), m[..128]))), m[128..])
  }

  // ---- The reference of the source is this one

  lemma TimesXIsDoubled(b: seq<bool>)
    requires |b| == 128
    ensures TimesX(b) == Doubled(b)
  {
    RbBits();
    assert forall i | 0 <= i < 128 :: (Zeros(120) + Enc(RB, 8))[i] <==> 127 - i in {7, 2, 1, 0};
    assert forall i | 0 <= i < 128 :: Shifted(b)[i] == (i < 127 && b[i + 1]);
  }

  lemma RbBits()
    ensures Enc(RB, 8) == [true, false, false, false, false, true, true, true]
  {
    RbHigh();
    assert Enc(0x87, 8) == Enc(0x43, 7) + [true];
    assert Enc(0x43, 7) == Enc(0x21, 6) + [true];
    assert Enc(0x21, 6) == Enc(0x10, 5) + [true];
  }

  lemma RbHigh()
    ensures Enc(0x10, 5) == [true, false, false, false, false]
  {
    assert Enc(0x10, 5) == Enc(8, 4) + [false];
    assert Enc(8, 4) == Enc(4, 3) + [false];
    assert Enc(4, 3) == Enc(2, 2) + [false];
  }

  lemma SubkeysAre(e: BlockFunction)
    ensures BufBits(Subkey(e(ZERO))) == K1(e) && BufBits(Subkey(Subkey(e(ZERO)))) == K2(e)
  {
    TimesXIsDoubled(BufBits(e(ZERO)));
    TimesXIsDoubled(K1(e));
  }

  lemma {:induction false} XorAllBits(a: seq<Octet>, b: seq<Octet>)
    requires |a| == |b|
    ensures BufBits(XorAll(a, b)) == XorBits(BufBits(a), BufBits(b))
  {
    if |a| > 0 {
      XorAllBits(a[1..], b[1..]);
      XorEnc(a[0], b[0]);
      assert XorAll(a, b)[1..] == XorAll(a[1..], b[1..]);
      XorBitsConcat(Enc(a[0], 8), BufBits(a[1..]), Enc(b[0], 8), BufBits(b[1..]));
    }
  }

  lemma XorBitsConcat(a: seq<bool>, b: seq<bool>, c: seq<bool>, d: seq<bool>)
    requires |a| == |c| && |b| == |d|
    ensures XorBits(a + b, c + d) == XorBits(a, c) + XorBits(b, d)
  {
  }

  lemma ToBlockIs(x: Block, b: seq<bool>)
    requires BufBits(x) == b
    ensures |b| == 128 && ToBlock(b) == x
  {
    PackedBits(x);
  }

  lemma Middle(all: seq<bool>, a: seq<bool>, b: seq<bool>, c: seq<bool>, n: nat)
    requires all == a + (b + c) && |a| == n
    ensures all[n..n + |b|] == b
  {
  }

  lemma PartsBits(p: seq<Octet>, a: seq<Octet>, b: seq<Octet>, c: seq<Octet>)
    requires p == a + (b + c)
    ensures BufBits(p) == BufBits(a) + (BufBits(b) + BufBits(c))
  {
    BufBitsConcat(a, b + c);
    BufBitsConcat(b, c);
  }

  lemma SliceBits(p: seq<Octet>, at: nat, b: seq<Octet>)
    requires at + |b| <= |p| && b == p[at..at + |b|]
    ensures BufBits(b) == BufBits(p)[8 * at..8 * at + 8 * |b|]
  {
    var a, c := p[..at], p[at + |b|..];
    PartsBits(p, a, b, c);
    Middle(BufBits(p), BufBits(a), BufBits(b), BufBits(c), 8 * at);
  }

  /** A block before the last: its bits are those of the message. */
  lemma InnerStep(e: BlockFunction, x: Block, y: Block, m: seq<bool>)
    requires |m| > 128 && BufBits(y) == m[..128]
    ensures Consumed(e, x, m) == Consumed(e, e(XorAll(x, y)), m[128..])
  {
    XorAllBits(x, y);
    ToBlockIs(XorAll(x, y), XorBits(BufBits(x), m[..128]));
  }

  /** The last block, padded or not, with its subkey. */
  lemma LastStep(e: BlockFunction, x: Block, y: Block, k: Block, m: seq<bool>)
    requires 0 < |m| <= 128
    requires BufBits(y) == if |m| == 128 then m else m + [true] + Zeros(127 - |m|)
    requires BufBits(k) == if |m| == 128 then K1(e) else K2(e)
    ensures Consumed(e, x, m) == e(XorAll(XorAll(y, k), x))
  {
    XorAllBits(y, k);
    XorAllBits(XorAll(y, k), x);
    ToBlockIs(XorAll(XorAll(y, k), x), XorBits(LastBits(e, m), BufBits(x)));
  }

  function Padding(free: nat): (b: seq<bool>)
    ensures |b| == free
  {
    if free == 0 then [] else [true] + Zeros(free - 1)
  }

  /** The n blocks of p spell the message m and its padding. */
  predicate Spells(p: seq<Octet>, m: seq<bool>, n: nat)
  {
    n > 0 && |p| == 16 * n && 128 * (n - 1) < |m| <= 128 * n && BufBits(p) == m + Padding(128 * n - |m|)
  }

  /** The bits of block i, from what is left of the message. */
  lemma BlockOfRest(m: seq<bool>, p: seq<Octet>, i: nat, n: nat, rest: seq<bool>)
    requires Spells(p, m, n) && i < n && rest == m[128 * i..]
    ensures BufBits(BlockAt(p, i))
            == if i < n - 1 then rest[..128]
               else if |rest| == 128 then rest else rest + [true] + Zeros(127 - |rest|)
  {
    SliceBits(p, 16 * i, BlockAt(p, i));
  }

  lemma LastConsumed(e: BlockFunction, m: seq<bool>, p: seq<Octet>, n: nat, k: Block, rest: seq<bool>)
    requires Spells(p, m, n) && rest == m[128 * (n - 1)..]
    requires BufBits(k) == if |m| == 128 * n then K1(e) else K2(e)
    ensures Consumed(e, Chain(e, p, n - 1), rest) == Final(e, p, n, k)
  {
    var y := BlockAt(p, n - 1);
    assert BufBits(y) == if |rest| == 128 then rest else rest + [true] + Zeros(127 - |rest|) by {
      BlockOfRest(m, p, n - 1, n, rest);
    }
    LastStep(e, Chain(e, p, n - 1), y, k, rest);
  }

  lemma InnerConsumed(e: BlockFunction, m: seq<bool>, p: seq<Octet>, i: nat, n: nat, rest: seq<bool>, next: seq<bool>)
    requires Spells(p, m, n) && i < n - 1 && rest == m[128 * i..] && next == m[128 * (i + 1)..]
    ensures Consumed(e, Chain(e, p, i), rest) == Consumed(e, Chain(e, p, i + 1), next)
  {
    assert next == rest[128..];
    BlockOfRest(m, p, i, n, rest);
    InnerStep(e, Chain(e, p, i), BlockAt(p, i), rest);
  }

  /** What comes of the message from block i on, when the blocks before it are chained. */
  function From(e: BlockFunction, m: seq<bool>, p: seq<Octet>, n: nat, i: nat): Block
    requires Spells(p, m, n) && i < n
  {
    Consumed(e, Chain(e, p, i), m[128 * i..])
  }

  lemma FromNext(e: BlockFunction, m: seq<bool>, p: seq<Octet>, n: nat, i: nat)
    requires Spells(p, m, n) && i < n - 1
    ensures From(e, m, p, n, i) == From(e, m, p, n, i + 1)
  {
    InnerConsumed(e, m, p, i, n, m[128 * i..], m[128 * (i + 1)..]);
  }

  predicate SameAt<T(==)>(f: nat -> T, i: nat)
  {
    f(i) == f(i + 1)
  }

  lemma {:induction false} Steady<T>(f: nat -> T, n: nat)
    requires forall i: nat | i < n :: SameAt(f, i)
    ensures f(0) == f(n)
  {
    if n > 0 {
      Steady(f, n - 1);
      assert SameAt(f, n - 1);
    }
  }

  function Froms(e: BlockFunction, m: seq<bool>, p: seq<Octet>, n: nat): nat -> Block
    requires Spells(p, m, n)
  {
    (i: nat) => From(e, m, p, n, if i < n then i else 0)
  }

  lemma FromsSame(e: BlockFunction, m: seq<bool>, p: seq<Octet>, n: nat, i: nat)
    requires Spells(p, m, n) && i < n - 1
    ensures SameAt(Froms(e, m, p, n), i)
  {
    FromNext(e, m, p, n, i);
  }

  /** The last block comes to what the first does. */
  lemma FromBack(e: BlockFunction, m: seq<bool>, p: seq<Octet>, n: nat)
    requires Spells(p, m, n)
    ensures From(e, m, p, n, 0) == From(e, m, p, n, n - 1)
  {
    forall i: nat | i < n - 1 ensures SameAt(Froms(e, m, p, n), i) {
      FromsSame(e, m, p, n, i);
    }
    Steady(Froms(e, m, p, n), n - 1);
  }

  lemma FromFirst(e: BlockFunction, m: seq<bool>, p: seq<Octet>, n: nat)
    requires Spells(p, m, n)
    ensures From(e, m, p, n, 0) == Consumed(e, ZERO, m)
  {
    assert m[128 * 0..] == m;
  }

  lemma FromLast(e: BlockFunction, m: seq<bool>, p: seq<Octet>, n: nat, k: Block)
    requires Spells(p, m, n) && BufBits(k) == if |m| == 128 * n then K1(e) else K2(e)
    ensures From(e, m, p, n, n - 1) == Final(e, p, n, k)
  {
    LastConsumed(e, m, p, n, k, m[128 * (n - 1)..]);
  }

  lemma PaddedIs(m: seq<bool>, n: nat)
    requires |m| > 0 && n == Blocks(|m|)
    ensures n > 0 && 128 * (n - 1) < |m| <= 128 * n && Padded(m) == m + Padding(128 * n - |m|)
  {
    BlocksEnough(|m|);
  }

  lemma PaddedSpells(m: seq<bool>, p: seq<Octet>, n: nat)
    requires |m| > 0 && n == Blocks(|m|) && p == Packed(Padded(m))
    ensures Spells(p, m, n)
  {
    PaddedIs(m, n);
    PaddedOctets(m);
  }

  /** The reference of `Cmac` is the function of the RFC, for every message and block function. */
  lemma MacIsStandard(e: BlockFunction, m: seq<bool>)
    requires |m| > 0
    ensures Mac(e, m) == Consumed(e, ZERO, m)
  {
    var p, n := Packed(Padded(m)), Blocks(|m|);
    PaddedSpells(m, p, n);
    SubkeysAre(e);
    FromFirst(e, m, p, n);
    FromBack(e, m, p, n);
    FromLast(e, m, p, n, LastKey(e, m));
  }
}
