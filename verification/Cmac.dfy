/** AES-CMAC over a bit string (sections 2.3 and 2.4 of RFC 4493), for any block function.

    The reference is stated on bits: the subkeys double a block in the field of 128 bits, and the
    message is padded by one bit and zeros when its last block is not full. */
module Cmac {
  import opened BitSeq
  import opened Octets
  import opened LteBits

  type Block = s: seq<Octet> | |s| == 16 witness seq(16, _ => 0)

  /** A block cipher under some key: here, any function on blocks. */
  type BlockFunction = Block -> Block

  const ZERO: Block := seq(16, _ => 0)

  // ---- Exclusive or

  function XorBits(a: seq<bool>, b: seq<bool>): (r: seq<bool>)
    requires |a| == |b|
    ensures |r| == |a|
  {
    seq(|a|, i requires 0 <= i < |a| => a[i] != b[i])
  }

  /** `a ^ b` on octets */
  function Xor(a: Octet, b: Octet): Octet
  {
    OctetBound(XorBits(Enc(a, 8), Enc(b, 8)));
    Dec(XorBits(Enc(a, 8), Enc(b, 8)))
  }

  function XorAll(a: seq<Octet>, b: seq<Octet>): (r: seq<Octet>)
    requires |a| == |b|
    ensures |r| == |a|
  {
    seq(|a|, i requires 0 <= i < |a| => Xor(a[i], b[i]))
  }

  lemma XorEnc(a: Octet, b: Octet)
    ensures Enc(Xor(a, b), 8) == XorBits(Enc(a, 8), Enc(b, 8))
  {
    EncDec(XorBits(Enc(a, 8), Enc(b, 8)));
  }

  lemma XorAssoc(a: Octet, b: Octet, c: Octet)
    ensures Xor(Xor(a, b), c) == Xor(a, Xor(b, c)) == Xor(Xor(b, c), a)
  {
    var x, y, z := Enc(a, 8), Enc(b, 8), Enc(c, 8);
    XorEnc(a, b);
    XorEnc(b, c);
    assert XorBits(XorBits(x, y), z) == XorBits(x, XorBits(y, z)) == XorBits(XorBits(y, z), x);
  }

  lemma XorAllAssoc(a: seq<Octet>, b: seq<Octet>, c: seq<Octet>)
    requires |a| == |b| == |c|
    ensures XorAll(XorAll(a, b), c) == XorAll(XorAll(b, c), a)
  {
    forall i | 0 <= i < |a| ensures Xor(Xor(a[i], b[i]), c[i]) == Xor(Xor(b[i], c[i]), a[i]) {
      XorAssoc(a[i], b[i], c[i]);
    }
  }

  // ---- The reference

  /** The last eight bits of the reduction constant of the field. */
  const RB: Octet := 0x87

  function Shifted(b: seq<bool>): (r: seq<bool>)
    requires |b| > 0
    ensures |r| == |b|
  {
    b[1..] + [false]
  }

  /** Doubling in the field of 128 bits: `(b << 1)`, with Rb added if a bit is shifted out. */
  function Doubled(b: seq<bool>): (r: seq<bool>)
    requires |b| == 128
    ensures |r| == 128
  {
    if b[0] then XorBits(Shifted(b), Zeros(120) + Enc(RB, 8)) else Shifted(b)
  }

  function Subkey(l: Block): (k: Block)
    ensures BufBits(k) == Doubled(BufBits(l))
  {
    PackedLength(Doubled(BufBits(l)));
    WholePacked(Doubled(BufBits(l)));
    Packed(Doubled(BufBits(l)))
  }

  lemma PackedLength(b: seq<bool>)
    requires |b| == 128
    ensures |Packed(b)| == 16
  {
  }

  /** Blocks of a message of n bits. */
  function Blocks(n: nat): nat
  {
    if n <= 128 then 1 else 1 + Blocks(n - 128)
  }

  /** The message, with one bit and zeros appended unless its last block is full. */
  function Padded(m: seq<bool>): (p: seq<bool>)
    ensures |p| == 128 * Blocks(|m|)
  {
    var free := 128 * Blocks(|m|) - |m|;
    BlocksEnough(|m|);
    if free == 0 then m else m + [true] + Zeros(free - 1)
  }

  lemma {:induction false} BlocksEnough(n: nat)
    ensures n <= 128 * Blocks(n)
    ensures n > 0 ==> 128 * Blocks(n) < n + 128
  {
    if n > 128 { BlocksEnough(n - 128); }
  }

  function BlockAt(p: seq<Octet>, i: nat): Block
    requires 16 * i + 16 <= |p|
  {
    p[16 * i..16 * i + 16]
  }

  /** The chaining value after the first i blocks of p. */
  function Chain(e: BlockFunction, p: seq<Octet>, i: nat): Block
    requires 16 * i <= |p|
  {
    if i == 0 then ZERO else e(XorAll(Chain(e, p, i - 1), BlockAt(p, i - 1)))
  }

  /** The block function on the last of n blocks, under a subkey, and the chain before it. */
  function Final(e: BlockFunction, p: seq<Octet>, n: nat, k: Block): Block
    requires n >= 1 && |p| == 16 * n
  {
    e(XorAll(XorAll(BlockAt(p, n - 1), k), Chain(e, p, n - 1)))
  }

  /** The subkey for the last block: the first if it is full, otherwise the second. */
  function LastKey(e: BlockFunction, m: seq<bool>): Block
  {
    if 128 * Blocks(|m|) == |m| then Subkey(e(ZERO)) else Subkey(Subkey(e(ZERO)))
  }

  /** AES-CMAC of a bit string that is not empty. */
  function Mac(e: BlockFunction, m: seq<bool>): Block
    requires |m| > 0
  {
    PaddedOctets(m);
    Final(e, Packed(Padded(m)), Blocks(|m|), LastKey(e, m))
  }

  lemma {:induction false} BlocksPositive(n: nat)
    ensures Blocks(n) >= 1
  {
    if n > 128 { BlocksPositive(n - 128); }
  }

  lemma PaddedOctets(m: seq<bool>)
    ensures |Packed(Padded(m))| == 16 * Blocks(|m|) && Blocks(|m|) >= 1
    ensures BufBits(Packed(Padded(m))) == Padded(m)
  {
    BlocksPositive(|m|);
    SixteenOctets(Blocks(|m|));
    WholePacked(Padded(m));
  }

  lemma SixteenOctets(n: nat)
    ensures 128 * n % 8 == 0 && (128 * n + 7) / 8 == 16 * n
  {
  }

  // ---- The subkeys of the source

  /** `(a << 1) | ((b >> 7) & 0x01)` */
  function ShiftIn(a: Octet, b: Octet): Octet
  {
    SetBitBound(U8(Shl(a, 1)), 8, 0);
    Pow2Eight();
    OrBit(U8(Shl(a, 1)), Shr(b, 7) % 2, 0)
  }

  lemma ShiftOut(a: Octet)
    ensures Enc(U8(Shl(a, 1)), 8) == Enc(a, 8)[1..] + [false]
  {
    EncSuffix(a, 8, 1);
    LowSmall(a, 7);
    ShlOne(a);
    assert Enc(2 * a, 8) == Enc(a, 7) + [false];
    EncMod(2 * a);
  }

  lemma {:induction false} EncAdd(v: nat, n: nat, k: nat)
    ensures Enc(v + k * Pow2(n), n) == Enc(v, n)
  {
    if n > 0 {
      EncAdd(v / 2, n - 1, k);
      Halves(v, k, Pow2(n - 1));
    }
  }

  lemma Halves(v: nat, k: nat, p: nat)
    ensures (v + k * (2 * p)) / 2 == v / 2 + k * p && (v + k * (2 * p)) % 2 == v % 2
  {
    assert v + k * (2 * p) == v + 2 * (k * p);
  }

  lemma EncMod(v: nat)
    ensures Enc(v % 256, 8) == Enc(v, 8)
  {
    Pow2Eight();
    EncAdd(v % 256, 8, v / 256);
  }

  lemma ShiftInBits(a: Octet, b: Octet)
    ensures Enc(ShiftIn(a, b), 8) == Enc(a, 8)[1..] + [Enc(b, 8)[0]]
  {
    ShiftOut(a);
    EncBit(b, 8, 0);
    EncSetBit(U8(Shl(a, 1)), 8, 0);
  }
}
