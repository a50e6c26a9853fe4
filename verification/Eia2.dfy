/** EIA2, the integrity algorithm on CMAC (liblte_security.cc, lines 690 to 912), in its two
    overloads: for messages of octets and for messages of bits.

    Both build a zeroed buffer with an eight octet header, and both compute the first four octets of
    the CMAC of header and message; AES under the given key is an arbitrary block function. */
module Eia2 {
  import opened BitSeq
  import opened Octets
  import opened LteBits
  import opened Cmac
  import opened Liblte
  import Standard = CmacStandard

  // ---- Subkeys

  /** The subkey loop, before the reduction. */
  function ShiftAll(l: seq<Octet>): (k: seq<Octet>)
    ensures |k| == |l|
  {
    if |l| == 0 then [] else if |l| == 1 then [U8(Shl(l[0], 1))] else [ShiftIn(l[0], l[1])] + ShiftAll(l[1..])
  }

  lemma {:induction false} ShiftAllAt(l: seq<Octet>, i: nat)
    requires i < |l|
    ensures ShiftAll(l)[i] == if i + 1 < |l| then ShiftIn(l[i], l[i + 1]) else U8(Shl(l[i], 1))
  {
    if i > 0 { ShiftAllAt(l[1..], i - 1); }
  }

  lemma {:induction false} ShiftAllBits(l: seq<Octet>)
    requires |l| > 0
    ensures BufBits(ShiftAll(l)) == Shifted(BufBits(l))
  {
    if |l| == 1 {
      ShiftOut(l[0]);
      BufBitsOne(l[0]);
      BufBitsOne(U8(Shl(l[0], 1)));
      assert l == [l[0]];
    } else {
      ShiftAllBits(l[1..]);
      ShiftInBits(l[0], l[1]);
      assert ShiftAll(l)[1..] == ShiftAll(l[1..]);
      ShiftedConcat(Enc(l[0], 8), BufBits(l[1..]));
    }
  }

  lemma ShiftedConcat(a: seq<bool>, b: seq<bool>)
    requires |a| > 0 && |b| > 0
    ensures Shifted(a + b) == (a[1..] + [b[0]]) + Shifted(b)
  {
  }

  /** Adding the reduction constant to the last octet. */
  lemma Reduced(s: seq<Octet>)
    requires |s| == 16
    ensures BufBits(s[15 := Xor(s[15], RB)]) == XorBits(BufBits(s), Zeros(120) + Enc(RB, 8))
  {
    var a := s[..15];
    assert s == a + [s[15]] && s[15 := Xor(s[15], RB)] == a + [Xor(s[15], RB)];
    BufBitsConcat(a, [s[15]]);
    BufBitsConcat(a, [Xor(s[15], RB)]);
    BufBitsOne(s[15]);
    BufBitsOne(Xor(s[15], RB));
    XorEnc(s[15], RB);
  }

  lemma PackedUnique(s: seq<Octet>, b: seq<bool>)
    requires BufBits(s) == b
    ensures s == Packed(b)
  {
    PackedBits(s);
  }

  /** The value of the subkey: the shifted octets, reduced if a bit was shifted out. */
  lemma SubkeyIs(l: Block, k: seq<Octet>)
    requires k == if Shr(l[0], 7) % 2 == 1 then ShiftAll(l)[15 := Xor(ShiftAll(l)[15], RB)] else ShiftAll(l)
    ensures k == Subkey(l)
  {
    FirstBit(l);
    ShiftAllBits(l);
    Reduced(ShiftAll(l));
    PackedUnique(k, Doubled(BufBits(l)));
  }

  lemma FirstBit(l: seq<Octet>)
    requires |l| > 0
    ensures BufBits(l)[0] <==> Shr(l[0], 7) % 2 == 1
  {
    EncBit(l[0], 8, 0);
  }

  method DeriveSubkey(l: array<Octet>, k: array<Octet>)
    requires l.Length == k.Length == 16 && l != k
    modifies k
    ensures k[..] == Subkey(l[..])
  {
    for i := 0 to 15
      invariant forall j | 0 <= j < i :: k[j] == ShiftAll(l[..])[j]
    {
      ShiftAllAt(l[..], i);
      k[i] := ShiftIn(l[i], l[i + 1]);
    }
    ShiftAllAt(l[..], 15);
    k[15] := U8(Shl(l[15], 1));
    ghost var shifted := ShiftAll(l[..]);
    assert k[..] == shifted;
    if Shr(l[0], 7) % 2 == 1 {
      k[15] := Xor(k[15], RB);
      assert k[..] == shifted[15 := Xor(shifted[15], RB)];
    }
    SubkeyIs(l[..], k[..]);
  }

  // ---- The chain

  lemma {:induction false} ChainPrefix(e: BlockFunction, p: seq<Octet>, q: seq<Octet>, i: nat)
    requires 16 * i <= |p| && 16 * i <= |q| && p[..16 * i] == q[..16 * i]
    ensures Chain(e, p, i) == Chain(e, q, i)
  {
    if i > 0 {
      assert p[..16 * (i - 1)] == p[..16 * i][..16 * (i - 1)] == q[..16 * (i - 1)];
      ChainPrefix(e, p, q, i - 1);
      assert BlockAt(p, i - 1) == p[..16 * i][16 * (i - 1)..] == BlockAt(q, i - 1);
    }
  }

  /** `tmp[j] = T[j] ^ M[at + j]` */
  method XorBlock(t: array<Octet>, m: array<Octet>, at: nat) returns (tmp: array<Octet>)
    requires t.Length == 16 && at + 16 <= m.Length
    ensures fresh(tmp) && tmp.Length == 16 && tmp[..] == XorAll(t[..], m[at..at + 16])
  {
    tmp := new Octet[16](_ => 0);
    for j := 0 to 16
      invariant forall k | 0 <= k < j :: tmp[k] == Xor(t[k], m[at + k])
    {
      tmp[j] := Xor(t[j], m[at + j]);
    }
  }

  /** The block function, written to a buffer. */
  method Apply(e: BlockFunction, x: array<Octet>, t: array<Octet>)
    requires x.Length == t.Length == 16
    modifies t
    ensures t[..] == e(old(x[..]))
  {
    var out := e(x[..]);
    for i := 0 to 16
      invariant t[..i] == out[..i]
    {
      t[i] := out[i];
    }
    assert t[..] == t[..16] && out[..16] == out;
  }

  /** All blocks but the last. */
  method ChainBlocks(e: BlockFunction, m: array<Octet>, n: nat, t: array<Octet>)
    requires t.Length == 16 && 16 * n <= m.Length && m != t && t[..] == ZERO
    modifies t
    ensures t[..] == Chain(e, m[..], n)
  {
    for i := 0 to n
      invariant t[..] == Chain(e, m[..], i)
    {
      var tmp := XorBlock(t, m, i * 16);
      assert m[i * 16..i * 16 + 16] == BlockAt(m[..], i);
      Apply(e, tmp, t);
    }
  }

  lemma LastBlock(chain: seq<Octet>, key: seq<Octet>, last: seq<Octet>)
    requires |chain| == |key| == |last|
    ensures XorAll(XorAll(chain, key), last) == XorAll(XorAll(last, key), chain)
  {
    XorAllAssoc(chain, key, last);
    forall i | 0 <= i < |key| ensures Xor(key[i], last[i]) == Xor(last[i], key[i]) {
      XorComm(key[i], last[i]);
    }
  }

  lemma XorComm(a: Octet, b: Octet)
    ensures Xor(a, b) == Xor(b, a)
  {
    assert XorBits(Enc(a, 8), Enc(b, 8)) == XorBits(Enc(b, 8), Enc(a, 8));
  }

  /** The last block, under one of the subkeys. */
  method CloseChain(e: BlockFunction, t: array<Octet>, key: array<Octet>, m: array<Octet>, at: nat)
    requires t.Length == key.Length == 16 && at + 16 <= m.Length && t != key && t != m
    modifies t
    ensures t[..] == e(XorAll(XorAll(m[at..at + 16], key[..]), old(t[..])))
  {
    var keyed := XorBlock(t, key, 0);
    assert key[0..16] == key[..];
    var tmp := XorBlock(keyed, m, at);
    LastBlock(t[..], key[..], m[at..at + 16]);
    Apply(e, tmp, t);
  }

  // ---- Padding in place

  /** Setting a bit of a buffer. */
  lemma {:induction false} SetBufBit(s: seq<Octet>, o: nat, k: nat, x: Octet)
    requires o < |s| && k < 8 && x == SetBit(s[o], 7 - k)
    ensures BufBits(s[o := x]) == BufBits(s)[8 * o + k := true]
  {
    if o == 0 {
      EncSetBit(s[0], 8, 7 - k);
      assert s[0 := x][1..] == s[1..];
    } else {
      SetBufBit(s[1..], o - 1, k, x);
      assert s[o := x][1..] == s[1..][o - 1 := x];
    }
  }

  lemma {:induction false} BlocksIs(n: nat)
    requires n > 0
    ensures Blocks(n) == (n + 127) / 128
  {
    if n > 128 { BlocksIs(n - 128); }
  }

  lemma EighthIs(a: nat, q: nat, r: nat)
    requires a == 8 * q + r && r < 8
    ensures a / 8 == q && a % 8 == r
  {
  }

  lemma RestIs(bits: nat, i: nat, r: nat)
    requires bits == 128 * i + r && r <= 128 && bits % 128 != 0
    ensures r < 128 && bits % 128 == r
  {
  }

  /** Where the source puts the padding bit. */
  lemma PadPosition(bits: nat, p: nat, i: nat)
    requires bits > 0 && bits % 128 != 0 && p == 128 - bits % 128 - 1 && i == Blocks(bits) - 1
    ensures i * 16 + (15 - p / 8) == bits / 8 < 16 * Blocks(bits)
    ensures p % 8 == 7 - bits % 8
    ensures bits < 128 * Blocks(bits) && 16 * i <= i * 16 + (15 - p / 8)
  {
    BlocksEnough(bits);
    var r := bits - 128 * i;
    var u, w := r / 8, r % 8;
    RestIs(bits, i, r);
    EighthIs(bits, 16 * i + u, w);
    EighthIs(p, 15 - u, 7 - w);
  }

  /** The octets that start the buffer spell the message and zeros. */
  ghost predicate Holds(m: seq<Octet>, msg: seq<bool>)
  {
    BlocksEnough(|msg|);
    |m| >= 16 * Blocks(|msg|)
    && BufBits(m[..16 * Blocks(|msg|)]) == msg + Zeros(128 * Blocks(|msg|) - |msg|)
  }

  lemma PaddedWhole(q: seq<Octet>, msg: seq<bool>)
    requires 128 * Blocks(|msg|) == |msg| && BufBits(q) == msg + Zeros(0)
    ensures q == Packed(Padded(msg))
  {
    assert msg + Zeros(0) == msg;
    PackedUnique(q, msg);
  }

  lemma PaddedByBit(q: seq<Octet>, msg: seq<bool>, o: nat, k: nat, x: Octet)
    requires |msg| < 128 * Blocks(|msg|) && BufBits(q) == msg + Zeros(128 * Blocks(|msg|) - |msg|)
    requires o < |q| && k < 8 && |msg| == 8 * o + k && x == SetBit(q[o], 7 - k)
    ensures q[o := x] == Packed(Padded(msg))
  {
    SetBufBit(q, o, k, x);
    BitAfter(msg, 128 * Blocks(|msg|) - |msg|);
    PackedUnique(q[o := x], Padded(msg));
  }

  lemma BitAfter(msg: seq<bool>, free: nat)
    requires free > 0
    ensures (msg + Zeros(free))[|msg| := true] == msg + [true] + Zeros(free - 1)
  {
  }

  /** The reference, with its padded message and subkey given. */
  lemma MacIs(e: BlockFunction, msg: seq<bool>, p: seq<Octet>, k: Block, n: nat)
    requires |msg| > 0 && p == Packed(Padded(msg)) && n == Blocks(|msg|)
    requires k == LastKey(e, msg)
    ensures n >= 1 && |p| == 16 * n
    ensures Mac(e, msg) == Final(e, p, n, k)
  {
    PaddedOctets(msg);
  }

  /** The second half of both overloads: pads the buffer and computes the CMAC of its message. */
  method Generate(e: BlockFunction, k1: array<Octet>, k2: array<Octet>, m: array<Octet>, bits: nat,
                  ghost msg: seq<bool>)
    returns (t: array<Octet>)
    requires k1.Length == k2.Length == 16 && k1 != m && k2 != m
    requires k1[..] == Subkey(e(ZERO)) && k2[..] == Subkey(k1[..])
    requires |msg| == bits > 0 && Holds(m[..], msg)
    modifies m
    ensures fresh(t) && t.Length == 16 && t[..] == Mac(e, msg)
  {
    BlocksIs(bits);
    BlocksEnough(bits);
    BlocksPositive(bits);
    var n := (bits + 127) / 128;
    t := new Octet[16](_ => 0);
    ChainBlocks(e, m, n - 1, t);
    ghost var before := m[..];
    if bits % 128 == 0 {
      WholeBlocks(bits);
      PaddedWhole(m[..16 * n], msg);
      FinishChain(e, t, k1, m, n, before, msg);
    } else {
      PadBuffer(m, bits, n, msg);
      FinishChain(e, t, k2, m, n, before, msg);
    }
  }

  lemma WholeBlocks(bits: nat)
    requires bits > 0 && bits % 128 == 0
    ensures 128 * Blocks(bits) == bits
  {
    BlocksIs(bits);
  }

  /** Sets the padding bit. */
  method PadBuffer(m: array<Octet>, bits: nat, n: nat, ghost msg: seq<bool>)
    requires |msg| == bits > 0 && bits % 128 != 0 && n == Blocks(bits) && n >= 1 && Holds(m[..], msg)
    modifies m
    ensures bits < 128 * n && m[..16 * n] == Packed(Padded(msg))
    ensures m[..16 * (n - 1)] == old(m[..16 * (n - 1)])
  {
    var padBits := 128 - bits % 128 - 1;
    PadPosition(bits, padBits, n - 1);
    var at := (n - 1) * 16 + (15 - padBits / 8);
    SetBitBound(m[at], 8, padBits % 8);
    Pow2Eight();
    ghost var q := m[..16 * n];
    PaddedByBit(q, msg, at, bits % 8, SetBit(m[at], padBits % 8));
    m[at] := SetBit(m[at], padBits % 8);
    assert m[..16 * n] == q[at := m[at]];
  }

  method FinishChain(e: BlockFunction, t: array<Octet>, key: array<Octet>, m: array<Octet>, n: nat,
                     ghost before: seq<Octet>, ghost msg: seq<bool>)
    requires t.Length == key.Length == 16 && t != key && t != m && n > 0 && 16 * n <= m.Length == |before|
    requires before[..16 * (n - 1)] == m[..16 * (n - 1)] && t[..] == Chain(e, before, n - 1)
    requires |msg| > 0 && n == Blocks(|msg|) && m[..16 * n] == Packed(Padded(msg)) && key[..] == LastKey(e, msg)
    modifies t
    ensures t[..] == Mac(e, msg)
  {
    MacIs(e, msg, m[..16 * n], key[..], n);
    ChainPrefix(e, before, m[..16 * n], n - 1);
    assert m[16 * (n - 1)..16 * (n - 1) + 16] == BlockAt(m[..16 * n], n - 1);
    CloseChain(e, t, key, m, 16 * (n - 1));
  }

  // ---- The header

  function OrBits(a: seq<bool>, b: seq<bool>): (r: seq<bool>)
    requires |a| == |b|
    ensures |r| == |a|
  {
    seq(|a|, i requires 0 <= i < |a| => a[i] || b[i])
  }

  /** `(uint8) (a | b)` */
  function Or(a: Octet, b: Octet): Octet
  {
    OctetBound(OrBits(Enc(a, 8), Enc(b, 8)));
    Dec(OrBits(Enc(a, 8), Enc(b, 8)))
  }

  /** `(bearer << 3) | (direction << 2)`, stored in an octet */
  function HeaderOctet(bearer: Octet, direction: Octet): Octet
  {
    Or(U8(Shl(bearer, 3)), U8(Shl(direction, 2)))
  }

  function Header(count: nat, bearer: Octet, direction: Octet): (h: seq<Octet>)
    ensures |h| == 8
  {
    [U8(Shr(count, 24)), U8(Shr(count, 16)), U8(Shr(count, 8)), U8(count), HeaderOctet(bearer, direction), 0, 0, 0]
  }

  lemma {:induction false} EncShl(v: nat, n: nat, k: nat)
    ensures Enc(Shl(v, k), n + k) == Enc(v, n) + Zeros(k)
  {
    if k > 0 {
      EncShl(v, n, k - 1);
      assert Zeros(k) == Zeros(k - 1) + [false];
    }
  }

  /** The bits of `(uint8) (v << k)`. */
  lemma ShiftedOctet(v: nat, k: nat)
    requires k <= 8
    ensures Enc(U8(Shl(v, k)), 8) == Enc(v, 8 - k) + Zeros(k)
  {
    EncMod(Shl(v, k));
    EncShl(v, 8 - k, k);
  }

  /** A bearer of five bits and a direction of one stand side by side in the header octet. */
  lemma HeaderOctetBits(bearer: Octet, direction: Octet)
    requires bearer < 32 && direction < 2
    ensures Enc(HeaderOctet(bearer, direction), 8) == Enc(bearer, 5) + Enc(direction, 1) + Zeros(2)
  {
    ShiftedOctet(bearer, 3);
    ShiftedOctet(direction, 2);
    var a, b := Enc(bearer, 5) + Zeros(3), Enc(direction, 6) + Zeros(2);
    EncDec(OrBits(a, b));
    EncPadLeft(direction, 5, 1);
    assert Pow2(1) == 2;
    assert OrBits(a, b) == Enc(bearer, 5) + Enc(direction, 1) + Zeros(2);
  }

  lemma OctetBefore(v: nat, n: nat)
    ensures Enc(U8(Shr(v, n)), 8) + Enc(v, n) == Enc(v, n + 8)
  {
    EncSplit(v, n + 8, 8);
    EncMod(Shr(v, n));
  }

  /** The four octets of the count. */
  lemma CountBits(count: nat)
    ensures Enc(U8(Shr(count, 24)), 8) + Enc(U8(Shr(count, 16)), 8) + Enc(U8(Shr(count, 8)), 8) + Enc(U8(count), 8)
            == Enc(count, 32)
  {
    OctetBefore(count, 24);
    OctetBefore(count, 16);
    OctetBefore(count, 8);
    EncMod(count);
    JoinFour(Enc(U8(Shr(count, 24)), 8), Enc(U8(Shr(count, 16)), 8), Enc(U8(Shr(count, 8)), 8), Enc(U8(count), 8));
  }

  lemma JoinFour(a: seq<bool>, b: seq<bool>, c: seq<bool>, d: seq<bool>)
    ensures a + b + c + d == a + (b + (c + d))
  {
  }

  /** The header of 3GPP TS 33.401, Annex B.2.3: count, bearer, direction and 26 zeros. */
  lemma HeaderBits(count: nat, bearer: Octet, direction: Octet)
    requires bearer < 32 && direction < 2
    ensures BufBits(Header(count, bearer, direction))
            == Enc(count, 32) + Enc(bearer, 5) + Enc(direction, 1) + Zeros(26)
  {
    var h := Header(count, bearer, direction);
    CountBits(count);
    HeaderOctetBits(bearer, direction);
    EncZero(8);
    BufBitsEight(h[0], h[1], h[2], h[3], h[4], h[5], h[6], h[7]);
    HeaderJoin(Enc(count, 32), Enc(bearer, 5), Enc(direction, 1), Enc(h[4], 8));
  }

  lemma HeaderJoin(c: seq<bool>, b: seq<bool>, d: seq<bool>, octet: seq<bool>)
    requires octet == b + d + Zeros(2)
    ensures c + octet + Zeros(8) + Zeros(8) + Zeros(8) == c + b + d + Zeros(26)
  {
  }

  lemma BufBitsEight(a: Octet, b: Octet, c: Octet, d: Octet, p: Octet, q: Octet, r: Octet, s: Octet)
    ensures BufBits([a, b, c, d, p, q, r, s])
            == Enc(a, 8) + Enc(b, 8) + Enc(c, 8) + Enc(d, 8) + Enc(p, 8) + Enc(q, 8) + Enc(r, 8) + Enc(s, 8)
  {
    var two, three, four := [a] + [b], [a] + [b] + [c], [a] + [b] + [c] + [d];
    var five, six, seven := four + [p], four + [p] + [q], four + [p] + [q] + [r];
    BufBitsOne(a);
    BufBitsLast([a], b, two);
    BufBitsLast(two, c, three);
    BufBitsLast(three, d, four);
    BufBitsLast(four, p, five);
    BufBitsLast(five, q, six);
    BufBitsLast(six, r, seven);
    BufBitsLast(seven, s, [a, b, c, d, p, q, r, s]);
  }

  lemma BufBitsLast(front: seq<Octet>, x: Octet, all: seq<Octet>)
    requires all == front + [x]
    ensures BufBits(all) == BufBits(front) + Enc(x, 8)
  {
    BufBitsConcat(front, [x]);
    BufBitsOne(x);
  }

  method WriteHeader(m: array<Octet>, count: nat, bearer: Octet, direction: Octet)
    requires m.Length >= 8 && m[..8] == seq(8, _ => 0)
    modifies m
    ensures m[..8] == Header(count, bearer, direction) && m[8..] == old(m[8..])
  {
    assert forall i | 0 <= i < 8 :: m[i] == m[..8][i] == 0;
    m[0] := U8(Shr(count, 24));
    m[1] := U8(Shr(count, 16));
    m[2] := U8(Shr(count, 8));
    m[3] := U8(count);
    m[4] := HeaderOctet(bearer, direction);
  }

  // ---- The overloads

  /** The code: the first four octets of the CMAC of header and message. */
  function Code(e: BlockFunction, count: nat, bearer: Octet, direction: Octet, msg: seq<bool>): (c: seq<Octet>)
    ensures |c| == 4
  {
    Mac(e, BufBits(Header(count, bearer, direction)) + msg)[..4]
  }

  /** It is what RFC 4493 computes of the header's fields and the message. */
  lemma CodeIsStandard(e: BlockFunction, count: nat, bearer: Octet, direction: Octet, msg: seq<bool>)
    requires bearer < 32 && direction < 2
    ensures var m := Enc(count, 32) + Enc(bearer, 5) + Enc(direction, 1) + Zeros(26) + msg;
            Code(e, count, bearer, direction, msg) == Standard.Consumed(e, ZERO, m)[..4]
  {
    HeaderBits(count, bearer, direction);
    Standard.MacIsStandard(e, BufBits(Header(count, bearer, direction)) + msg);
  }

  function ZeroOctets(n: nat): (z: seq<Octet>)
    ensures |z| == n
  {
    seq(n, _ => 0)
  }

  lemma {:induction false} ZeroOctetBits(n: nat)
    ensures BufBits(ZeroOctets(n)) == Zeros(8 * n)
  {
    if n > 0 {
      ZeroOctetBits(n - 1);
      EncZero(8);
      assert ZeroOctets(n)[1..] == ZeroOctets(n - 1);
    }
  }

  /** A buffer of octets and zeros holds the bits of the octets, less any zeros at their end. */
  lemma HoldsOctets(m: seq<Octet>, front: seq<Octet>, z: nat, msg: seq<bool>, tail: nat)
    requires m == front + ZeroOctets(z) && BufBits(front) == msg + Zeros(tail) && tail < 8
    requires |msg| > 0 && z >= 16
    ensures Holds(m, msg)
  {
    BlocksEnough(|msg|);
    var n := Blocks(|msg|);
    assert 8 * |front| == |msg| + tail;
    assert 16 * n < |front| + 16;
    var k := 16 * n - |front|;
    assert k >= 0;
    assert m[..16 * n] == front + ZeroOctets(k);
    BufBitsConcat(front, ZeroOctets(k));
    ZeroOctetBits(k);
    ZerosJoin(msg, tail, 8 * k);
  }

  lemma ZerosJoin(msg: seq<bool>, a: nat, b: nat)
    ensures msg + Zeros(a) + Zeros(b) == msg + Zeros(a + b)
  {
  }

  /** What both overloads do before they look at the message. */
  method Subkeys(e: BlockFunction) returns (k1: array<Octet>, k2: array<Octet>)
    ensures fresh(k1) && fresh(k2) && k1.Length == k2.Length == 16
    ensures k1[..] == Subkey(e(ZERO)) && k2[..] == Subkey(k1[..])
  {
    var zero, l := new Octet[16](_ => 0), new Octet[16](_ => 0);
    assert zero[..] == ZERO;
    Apply(e, zero, l);
    k1 := new Octet[16](_ => 0);
    k2 := new Octet[16](_ => 0);
    DeriveSubkey(l, k1);
    DeriveSubkey(k1, k2);
  }

  /** The overload for octets; e is AES under the key, which only its presence represents here. */
  method Eia2(key: bool, e: BlockFunction, count: nat, bearer: Octet, direction: Octet,
              msg: array?<Octet>, msgLen: nat, mac: array?<Octet>)
    returns (err: Status)
    requires msg != null ==> msg.Length >= msgLen
    requires mac != null ==> mac.Length >= 4
    modifies mac
    ensures err == if !key || msg == null || mac == null then INVALID_INPUTS else SUCCESS
    ensures mac != null && err != SUCCESS ==> mac[..] == old(mac[..])
    ensures err == SUCCESS ==>
      mac[..] == old(Replaced(mac[..], Code(e, count, bearer, direction, BufBits(msg[..msgLen]))))
  {
    err := INVALID_INPUTS;
    var m := new Octet[msgLen + 8 + 16](_ => 0);
    if key && msg != null && mac != null {
      var k1, k2 := Subkeys(e);
      ConstructOctets(m, count, bearer, direction, msg, msgLen);
      var t := Generate(e, k1, k2, m, msgLen * 8 + 64,
                        BufBits(Header(count, bearer, direction)) + BufBits(msg[..msgLen]));
      Copy(t, 0, 4, mac);
      err := SUCCESS;
    }
  }

  /** The part headed "Construct M". */
  method ConstructOctets(m: array<Octet>, count: nat, bearer: Octet, direction: Octet, msg: array<Octet>, msgLen: nat)
    requires msg.Length >= msgLen && m.Length == msgLen + 8 + 16 && msg != m && m[..] == ZeroOctets(msgLen + 24)
    modifies m
    ensures Holds(m[..], BufBits(Header(count, bearer, direction)) + BufBits(msg[..msgLen]))
  {
    assert forall i | 0 <= i < m.Length :: m[i] == m[..][i] == 0;
    WriteHeader(m, count, bearer, direction);
    CopyMessage(msg, msgLen, m);
    HoldsParts(m[..], Header(count, bearer, direction), msg[..msgLen]);
  }

  lemma HoldsParts(m: seq<Octet>, h: seq<Octet>, msg: seq<Octet>)
    requires m == h + msg + ZeroOctets(16) && |h| == 8
    ensures Holds(m, BufBits(h) + BufBits(msg))
  {
    BufBitsConcat(h, msg);
    assert BufBits(h + msg) == BufBits(h) + BufBits(msg) + Zeros(0);
    HoldsOctets(m, h + msg, 16, BufBits(h) + BufBits(msg), 0);
  }

  method CopyMessage(msg: array<Octet>, msgLen: nat, m: array<Octet>)
    requires msg.Length >= msgLen && m.Length == msgLen + 8 + 16 && msg != m
    requires m[8..] == ZeroOctets(msgLen + 16)
    modifies m
    ensures m[..] == old(m[..8]) + msg[..msgLen] + ZeroOctets(16)
  {
    assert forall k | 8 <= k < m.Length :: m[k] == m[8..][k - 8] == 0;
    for i := 0 to msgLen
      invariant m[..8] == old(m[..8])
      invariant forall k | 0 <= k < i :: m[8 + k] == msg[k]
      invariant forall k | 8 + i <= k < m.Length :: m[k] == 0
    {
      m[8 + i] := msg[i];
    }
  }

  /** The overload for bits.  The source sizes its buffer from the message before it looks whether
      there is one, so the message must be there. */
  method Eia2Bits(key: bool, e: BlockFunction, count: nat, bearer: Octet, direction: Octet,
                  msg: array<Octet>, nBits: nat, mac: array?<Octet>)
    returns (err: Status)
    requires msg.Length >= nBits && AreBits(msg[..nBits])
    requires mac != null ==> mac.Length >= 4
    modifies mac
    ensures err == if !key || mac == null then INVALID_INPUTS else SUCCESS
    ensures mac != null && err != SUCCESS ==> mac[..] == old(mac[..])
    ensures err == SUCCESS ==>
      mac[..] == old(Replaced(mac[..], Code(e, count, bearer, direction, BitsOf(msg[..nBits]))))
  {
    err := INVALID_INPUTS;
    var m := new Octet[nBits * 8 + 8 + 16](_ => 0);
    if key && mac != null {
      var k1, k2 := Subkeys(e);
      ConstructBits(m, count, bearer, direction, msg, nBits);
      var t := Generate(e, k1, k2, m, nBits + 64,
                        BufBits(Header(count, bearer, direction)) + BitsOf(msg[..nBits]));
      Copy(t, 0, 4, mac);
      err := SUCCESS;
    }
  }

  /** A message of octets gets the same code from both overloads, when the bits given to the second
      are what `liblte_unpack` makes of the octets given to the first. */
  method CodeOfUnpacked(e: BlockFunction, count: nat, bearer: Octet, direction: Octet,
                        msg: array<Octet>, msgLen: nat, mac: array<Octet>, macBits: array<Octet>)
    requires msg.Length >= msgLen && mac.Length >= 4 && macBits.Length >= 4
    requires mac != macBits && msg != mac && msg != macBits
    modifies mac, macBits
    ensures mac[..4] == macBits[..4] == Code(e, count, bearer, direction, BufBits(msg[..msgLen]))
  {
    var bits := new Octet[8 * msgLen](_ => 0);
    var nBits := Unpack(msg, msgLen, bits);
    var _ := Eia2(true, e, count, bearer, direction, msg, msgLen, mac);
    var _ := Eia2Bits(true, e, count, bearer, direction, bits, nBits, macBits);
  }

  /** Collects n bits of the message in one octet of the buffer, first bit first. */
  method CollectOctet(msg: array<Octet>, at: nat, n: nat, m: array<Octet>, pos: nat)
    requires at + n <= msg.Length && n <= 8 && pos < m.Length && msg != m && AreBits(msg[at..at + n])
    modifies m
    ensures Enc(m[pos], 8) == BitsOf(msg[at..at + n]) + Zeros(8 - n)
    ensures forall k | 0 <= k < m.Length && k != pos :: m[k] == old(m[k])
  {
    m[pos] := 0;
    EncZero(8);
    ghost var bits := BitsOf(msg[at..at + n]);
    for j := 0 to n
      invariant Enc(m[pos], 8) == bits[..j] + Zeros(8 - j)
      invariant forall k | 0 <= k < m.Length && k != pos :: m[k] == old(m[k])
    {
      assert msg[at..at + n][j] == msg[at + j];
      CollectBit(m[pos], bits, j, msg[at + j]);
      m[pos] := OrBit(m[pos], msg[at + j], 7 - j);
    }
    assert bits[..n] == bits;
  }

  lemma CollectBit(v: Octet, bits: seq<bool>, j: nat, b: Octet)
    requires j < |bits| <= 8 && Enc(v, 8) == bits[..j] + Zeros(8 - j) && (b == 1 <==> bits[j])
    ensures OrBit(v, b, 7 - j) < 256 && Enc(OrBit(v, b, 7 - j), 8) == bits[..j + 1] + Zeros(8 - (j + 1))
  {
    EncSetBit(v, 8, 7 - j);
    Pow2Eight();
    SetBitBound(v, 8, 7 - j);
    assert (bits[..j] + Zeros(8 - j))[j := bits[j]] == bits[..j + 1] + Zeros(8 - (j + 1));
    assert (bits[..j] + Zeros(8 - j))[j := false] == bits[..j] + Zeros(8 - j);
  }

  /** The buffer holds a header, the first i octets of the message, and zeros. */
  ghost predicate Collected(m: seq<Octet>, h: seq<Octet>, msg: seq<Octet>, i: nat)
  {
    |h| == 8 && 8 + i <= |m| && 8 * i <= |msg|
    && m[..8] == h && BufBits(m[8..8 + i]) == BitsOf(msg[..8 * i])
    && forall k | 8 + i <= k < |m| :: m[k] == 0
  }

  /** The loop over whole octets. */
  method CollectWhole(m: array<Octet>, ghost h: seq<Octet>, msg: array<Octet>, q: nat)
    requires 8 + q <= m.Length && 8 * q <= msg.Length && msg != m && AreBits(msg[..8 * q])
    requires Collected(m[..], h, msg[..], 0)
    modifies m
    ensures Collected(m[..], h, msg[..], q)
  {
    for i := 0 to q
      invariant Collected(m[..], h, msg[..], i)
    {
      ghost var was := m[..];
      BitsSlice(msg[..], 8 * q, 8 * i, 8);
      CollectOctet(msg, i * 8, 8, m, 8 + i);
      CollectedStep(was, m[..], h, msg[..], i);
    }
  }

  lemma CollectedStep(was: seq<Octet>, m: seq<Octet>, h: seq<Octet>, msg: seq<Octet>, i: nat)
    requires Collected(was, h, msg, i) && |m| == |was| > 8 + i && 8 * i + 8 <= |msg|
    requires forall k | 0 <= k < |m| && k != 8 + i :: m[k] == was[k]
    requires Enc(m[8 + i], 8) == BitsOf(msg[8 * i..8 * i + 8]) + Zeros(0)
    ensures Collected(m, h, msg, i + 1)
  {
    assert m[..8] == was[..8] && m[8..8 + i] == was[8..8 + i];
    SliceGrows(m, 8, 8 + i);
    BufBitsConcat(m[8..8 + i], [m[8 + i]]);
    BufBitsOne(m[8 + i]);
    assert msg[..8 * (i + 1)] == msg[..8 * i] + msg[8 * i..8 * i + 8];
    BitsOfConcat(msg[..8 * i], msg[8 * i..8 * i + 8]);
  }

  lemma SliceGrows(m: seq<Octet>, a: nat, b: nat)
    requires a <= b < |m|
    ensures m[a..b + 1] == m[a..b] + [m[b]]
  {
  }

  /** The part headed "Construct M". */
  method ConstructBits(m: array<Octet>, count: nat, bearer: Octet, direction: Octet, msg: array<Octet>, nBits: nat)
    requires msg.Length >= nBits && AreBits(msg[..nBits]) && msg != m
    requires m.Length == nBits * 8 + 8 + 16 && m[..] == ZeroOctets(nBits * 8 + 24)
    modifies m
    ensures Holds(m[..], BufBits(Header(count, bearer, direction)) + BitsOf(msg[..nBits]))
  {
    assert forall i | 0 <= i < m.Length :: m[i] == m[..][i] == 0;
    WriteHeader(m, count, bearer, direction);
    ghost var h := Header(count, bearer, direction);
    CollectedNothing(m[..], h, msg[..]);
    CollectMessage(m, h, msg, nBits);
  }

  lemma CollectedNothing(m: seq<Octet>, h: seq<Octet>, msg: seq<Octet>)
    requires |h| == 8 <= |m| && m[..8] == h && m[8..] == ZeroOctets(|m| - 8)
    ensures Collected(m, h, msg, 0)
  {
    assert forall k | 8 <= k < |m| :: m[k] == m[8..][k - 8];
    assert msg[..0] == [] && m[8..8] == [];
  }

  /** The message part of "Construct M". */
  method CollectMessage(m: array<Octet>, ghost h: seq<Octet>, msg: array<Octet>, nBits: nat)
    requires msg.Length >= nBits && AreBits(msg[..nBits]) && msg != m
    requires m.Length == nBits * 8 + 8 + 16 && Collected(m[..], h, msg[..], 0)
    modifies m
    ensures Holds(m[..], BufBits(h) + BitsOf(msg[..nBits]))
  {
    var q, r := nBits / 8, nBits % 8;
    BitsPrefix(msg[..], nBits, 8 * q);
    CollectWhole(m, h, msg, q);
    assert 8 * q + r == nBits;
    if r != 0 {
      ghost var was := m[..];
      BitsSlice(msg[..], nBits, 8 * q, r);
      CollectOctet(msg, q * 8, r, m, 8 + q);
      HoldsPartial(was, m[..], h, msg[..], q, r);
    } else {
      HoldsWhole(m[..], h, msg[..], q);
    }
  }

  lemma HoldsWhole(m: seq<Octet>, h: seq<Octet>, msg: seq<Octet>, q: nat)
    requires Collected(m, h, msg, q) && |m| >= q + 24
    ensures Holds(m, BufBits(h) + BitsOf(msg[..8 * q]))
  {
    var front := h + m[8..8 + q];
    assert m == front + ZeroOctets(|m| - 8 - q);
    BufBitsConcat(h, m[8..8 + q]);
    assert BufBits(front) == BufBits(h) + BitsOf(msg[..8 * q]) + Zeros(0);
    HoldsOctets(m, front, |m| - 8 - q, BufBits(h) + BitsOf(msg[..8 * q]), 0);
  }

  lemma HoldsPartial(was: seq<Octet>, m: seq<Octet>, h: seq<Octet>, msg: seq<Octet>, q: nat, r: nat)
    requires Collected(was, h, msg, q) && |m| == |was| >= q + 25 && 0 < r < 8 && 8 * q + r <= |msg|
    requires forall k | 0 <= k < |m| && k != 8 + q :: m[k] == was[k]
    requires Enc(m[8 + q], 8) == BitsOf(msg[8 * q..8 * q + r]) + Zeros(8 - r)
    ensures Holds(m, BufBits(h) + BitsOf(msg[..8 * q + r]))
  {
    var body, x := was[8..8 + q], m[8 + q];
    assert msg[..8 * q + r] == msg[..8 * q] + msg[8 * q..8 * q + r];
    FrontBits(h, body, x, msg[..8 * q], msg[8 * q..8 * q + r], 8 - r);
    FrontIs(was, m, h, body, q);
    HoldsOctets(m, h + body + [x], |m| - 9 - q, BufBits(h) + BitsOf(msg[..8 * q + r]), 8 - r);
  }

  lemma FrontIs(was: seq<Octet>, m: seq<Octet>, h: seq<Octet>, body: seq<Octet>, q: nat)
    requires |m| == |was| >= q + 9 && was[..8] == h && was[8..8 + q] == body
    requires forall k | 8 + q <= k < |was| :: was[k] == 0
    requires forall k | 0 <= k < |m| && k != 8 + q :: m[k] == was[k]
    ensures m == h + body + [m[8 + q]] + ZeroOctets(|m| - 9 - q)
  {
    assert m[..8] == was[..8] && m[8..8 + q] == body;
  }

  lemma FrontBits(h: seq<Octet>, body: seq<Octet>, x: Octet, a: seq<Octet>, b: seq<Octet>, tail: nat)
    requires BufBits(body) == BitsOf(a) && Enc(x, 8) == BitsOf(b) + Zeros(tail)
    ensures BufBits(h + body + [x]) == BufBits(h) + BitsOf(a + b) + Zeros(tail)
  {
    BufBitsConcat(h + body, [x]);
    BufBitsConcat(h, body);
    BufBitsOne(x);
    BitsOfConcat(a, b);
    Regroup(BufBits(h), BitsOf(a), BitsOf(b), Zeros(tail));
  }

  lemma Regroup(p: seq<bool>, a: seq<bool>, b: seq<bool>, z: seq<bool>)
    ensures (p + a) + (b + z) == p + (a + b) + z
  {
  }
}
