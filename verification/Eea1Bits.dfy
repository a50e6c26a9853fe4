/** EEA1 bit by bit, as section 3 of the UEA2 specification states it: each bit of the output is the sum of
    a bit of the message and one of the keystream, most significant first, and the bits after the
    message are zero.  The keystream is that of `SnowStandard`. */
module Eea1Bits {
  import opened Gf256
  import opened Words
  import opened SnowMachine
  import opened Snow3g
  import opened StreamCipher
  import opened Eea1
  import Standard = SnowStandard

  // ---- Bits of octets and words, most significant first

  function BitOf(b: bv8, k: nat): bool
    decreases k
  {
    if k == 0 then b & 0x80 != 0 else BitOf(b << 1, k - 1)
  }

  /** The same by masks. */
  function MaskBit(b: bv8, k: nat): bool
  {
    if k == 0 then b & 0x80 != 0
    else if k == 1 then b & 0x40 != 0
    else if k == 2 then b & 0x20 != 0
    else if k == 3 then b & 0x10 != 0
    else if k == 4 then b & 0x08 != 0
    else if k == 5 then b & 0x04 != 0
    else if k == 6 then b & 0x02 != 0
    else b & 0x01 != 0
  }

  lemma MaskUp(b: bv8, k: nat)
    requires k < 7
    ensures MaskBit(b << 1, k) == MaskBit(b, k + 1)
  {
    if k == 0 { } else if k == 1 { } else if k == 2 { } else if k == 3 { }
    else if k == 4 { } else if k == 5 { } else { }
  }

  lemma {:induction false} BitIs(b: bv8, k: nat)
    requires k < 8
    ensures BitOf(b, k) == MaskBit(b, k)
    decreases k
  {
    if k > 0 {
      BitIs(b << 1, k - 1);
      MaskUp(b, k - 1);
    }
  }

  function WordBit(w: bv32, k: nat): bool
    decreases k
  {
    if k == 0 then w & 0x8000_0000 != 0 else WordBit(Double(w), k - 1)
  }

  function Double(w: bv32): bv32
  {
    w << 1
  }

  function Doubled(w: bv32, n: nat): bv32
    decreases n
  {
    if n == 0 then w else Doubled(Double(w), n - 1)
  }

  lemma XorBit(x: bv8, y: bv8, k: nat)
    requires k < 8
    ensures MaskBit(Xor8(x, y), k) == (MaskBit(x, k) != MaskBit(y, k))
  {
    if k == 0 { } else if k == 1 { } else if k == 2 { } else if k == 3 { }
    else if k == 4 { } else if k == 5 { } else if k == 6 { } else { }
  }

  lemma {:induction false} WordBitFrom(w: bv32, j: nat, k: nat)
    ensures WordBit(w, j + k) == WordBit(Doubled(w, j), k)
    decreases j
  {
    if j > 0 { WordBitFrom(Double(w), j - 1, k); }
  }

  lemma {:induction false} DoubledAgain(w: bv32, i: nat, j: nat)
    ensures Doubled(w, i + j) == Doubled(Doubled(w, i), j)
    decreases i
  {
    if i > 0 { DoubledAgain(Double(w), i - 1, j); }
  }

  function Up2(w: bv32): bv32 { w << 2 }
  function Up4(w: bv32): bv32 { w << 4 }
  function Up8(w: bv32): bv32 { w << 8 }

  lemma TwoTimes(w: bv32) ensures Doubled(w, 2) == Up2(w)
  {
    assert Doubled(w, 2) == Doubled(Double(w), 1) == Doubled(Double(Double(w)), 0);
  }

  lemma FourTimes(w: bv32) ensures Doubled(w, 4) == Up4(w)
  {
    DoubledAgain(w, 2, 2);
    TwoTimes(w);
    TwoTimes(Up2(w));
    UpTwice(w);
  }

  lemma EightTimes(w: bv32) ensures Doubled(w, 8) == Up8(w)
  {
    DoubledAgain(w, 4, 4);
    FourTimes(w);
    FourTimes(Up4(w));
    UpTwice(w);
  }

  lemma UpTwice(w: bv32) ensures Up2(Up2(w)) == Up4(w) && Up4(Up4(w)) == Up8(w) { }

  /** The bits of the first octet of a word. */
  lemma FirstBits(w: bv32, k: nat)
    requires k < 2
    ensures WordBit(w, k) == MaskBit(Byte0(w), k)
  {
    if k == 1 { assert WordBit(w, 1) == WordBit(Double(w), 0); }
  }

  lemma ByteBits(w: bv32, k: nat)
    requires k < 2
    ensures MaskBit(Byte0(Up2(w)), k) == MaskBit(Byte0(w), 2 + k)
    ensures MaskBit(Byte0(Up4(w)), k) == MaskBit(Byte0(w), 4 + k)
  {
    if k == 0 { } else { }
  }

  lemma ByteBitsSix(w: bv32, k: nat)
    requires k < 2
    ensures MaskBit(Byte0(Up2(Up4(w))), k) == MaskBit(Byte0(w), 6 + k)
  {
    if k == 0 { } else { }
  }

  lemma TopBit(w: bv32, k: nat)
    requires k < 8
    ensures WordBit(w, k) == MaskBit(Byte0(w), k)
  {
    TwoTimes(w);
    FourTimes(w);
    TwoTimes(Up4(w));
    if k < 2 {
      FirstBits(w, k);
    } else if k < 4 {
      WordBitFrom(w, 2, k - 2);
      FirstBits(Up2(w), k - 2);
      ByteBits(w, k - 2);
    } else if k < 6 {
      WordBitFrom(w, 4, k - 4);
      FirstBits(Up4(w), k - 4);
      ByteBits(w, k - 4);
    } else {
      WordBitFrom(w, 4, k - 4);
      WordBitFrom(Up4(w), 2, k - 6);
      FirstBits(Up2(Up4(w)), k - 6);
      ByteBitsSix(w, k - 6);
    }
  }

  lemma BytesUp(w: bv32)
    ensures Byte0(Up8(w)) == Byte1(w) && Byte0(Up8(Up8(w))) == Byte2(w) && Byte0(Up8(Up8(Up8(w)))) == Byte3(w)
  {
  }

  /** Octet j of a keystream word, bit by bit. */
  lemma KeyByteBit(w: bv32, j: nat, k: nat)
    requires j < 4 && k < 8
    ensures MaskBit(KeyByte(w, j), k) == WordBit(w, 8 * j + k)
  {
    BytesUp(w);
    EightTimes(w);
    EightTimes(Up8(w));
    EightTimes(Up8(Up8(w)));
    if j == 0 {
      TopBit(w, k);
    } else if j == 1 {
      WordBitFrom(w, 8, k);
      TopBit(Up8(w), k);
    } else if j == 2 {
      WordBitFrom(w, 8, 8 + k);
      WordBitFrom(Up8(w), 8, k);
      TopBit(Up8(Up8(w)), k);
    } else {
      WordBitFrom(w, 8, 16 + k);
      WordBitFrom(Up8(w), 8, 8 + k);
      WordBitFrom(Up8(Up8(w)), 8, k);
      TopBit(Up8(Up8(Up8(w))), k);
    }
  }

  /** The four octets that a keystream word gives are the word. */
  lemma OctetsAreWord(w: bv32)
    ensures Word(KeyByte(w, 0), KeyByte(w, 1), KeyByte(w, 2), KeyByte(w, 3)) == w
  {
    BytesOfWord(w, 0, 0, 0, 0);
  }

  // ---- The mask of the last octet

  lemma Masks()
    ensures Mask(0) == 0xFF && Mask(1) == 0xFE && Mask(2) == 0xFC && Mask(3) == 0xF8
    ensures Mask(4) == 0xF0 && Mask(5) == 0xE0 && Mask(6) == 0xC0 && Mask(7) == 0x80
  {
    assert Mask(1) == Mask(0) << 1 && Mask(2) == Mask(1) << 1 && Mask(3) == Mask(2) << 1 && Mask(4) == Mask(3) << 1;
    assert Mask(5) == Mask(4) << 1 && Mask(6) == Mask(5) << 1 && Mask(7) == Mask(6) << 1;
  }

  lemma ClearedBit(b: bv8, n: nat, k: nat)
    requires n < 8 && k < 8
    ensures MaskBit(ClearLow(b, n), k) == (k < 8 - n && MaskBit(b, k))
  {
    Masks();
    MaskedBit(b, n, k, Mask(n));
  }

  lemma MaskedBit(b: bv8, n: nat, k: nat, m: bv8)
    requires n < 8 && k < 8
    requires m == if n == 0 then 0xFF else if n == 1 then 0xFE else if n == 2 then 0xFC else if n == 3 then 0xF8
                  else if n == 4 then 0xF0 else if n == 5 then 0xE0 else if n == 6 then 0xC0 else 0x80
    ensures MaskBit(b & m, k) == (k < 8 - n && MaskBit(b, k))
  {
    if k == 0 { } else if k == 1 { } else if k == 2 { } else if k == 3 { }
    else if k == 4 { } else if k == 5 { } else if k == 6 { } else { }
  }

  // ---- The ciphertext, for any keystream

  lemma OctetOperators(x: bv8, y: bv8, w: bv32, n: nat)
    ensures OCTETS.g.add(x, y) == Xor8(x, y) && OCTETS.byte(w, n) == KeyByte(w, n)
    ensures OCTETS.clear(x, n) == ClearLow(x, n)
  {
  }

  /** Octet i of the ciphertext, before its spare bits are cleared. */
  function Sum(m: bv8, w: bv32, j: nat): bv8
  {
    Xor8(m, KeyByte(w, j))
  }

  lemma SumBit(m: bv8, w: bv32, j: nat, k: nat)
    requires j < 4 && k < 8
    ensures MaskBit(Sum(m, w, j), k) == (MaskBit(m, k) != WordBit(w, 8 * j + k))
  {
    XorBit(m, KeyByte(w, j), k);
    KeyByteBit(w, j, k);
  }

  /** A bit of an output octet c, from the octet m and the word w. */
  lemma OutputBit(c: bv8, m: bv8, w: bv32, q: nat, k: nat, last: bool, spare: nat)
    requires q < 4 && k < 8 && spare < 8 && c == if last then ClearLow(Sum(m, w, q), spare) else Sum(m, w, q)
    ensures BitOf(c, k) == ((last ==> k < 8 - spare) && BitOf(m, k) != WordBit(w, 8 * q + k))
  {
    SumBit(m, w, q, k);
    ClearedBit(Sum(m, w, q), spare, k);
    BitIs(c, k);
    BitIs(m, k);
  }

  lemma CipheredOctet(ks: seq<bv32>, msg: seq<bv8>, bits: nat, i: nat)
    requires |msg| == OctetsOf(bits) && |ks| == WordsOf(bits) && i < |msg|
    ensures i / 4 < |ks|
    ensures var sum := Sum(msg[i], ks[i / 4], i % 4);
            Ciphered(OCTETS, ks, msg, bits)[i] == if i == |msg| - 1 then ClearLow(sum, SpareBits(bits)) else sum
  {
    EnoughWords(bits, i);
    CipheredAt(OCTETS, ks, msg, bits, i);
    OctetOperators(msg[i], KeyByte(ks[i / 4], i % 4), ks[i / 4], i % 4);
    OctetOperators(Sum(msg[i], ks[i / 4], i % 4), 0, 0, SpareBits(bits));
  }

  lemma Index(j: nat, a: nat, b: nat, k: nat)
    requires j == 32 * a + 8 * b + k && b < 4 && k < 8
    ensures j / 32 == a && j % 32 == 8 * b + k && j / 8 == 4 * a + b && j % 8 == k
  {
  }

  lemma Belongs(bits: nat, octets: nat, i: nat, k: nat)
    requires octets == OctetsOf(bits) && i < octets && k < 8
    ensures 8 * i + k < bits <==> (i == octets - 1 ==> k < 8 - SpareBits(bits))
  {
  }

  /** Where bit j stands, and when it belongs to the message. */
  lemma Places(j: nat, bits: nat, octets: nat)
    requires octets == OctetsOf(bits) && j < 8 * octets
    ensures j / 8 < octets && j / 32 == j / 8 / 4 && j / 32 < WordsOf(bits) && j % 32 == 8 * (j / 8 % 4) + j % 8
    ensures j < bits <==> (j / 8 == octets - 1 ==> j % 8 < 8 - SpareBits(bits))
  {
    Index(j, j / 8 / 4, j / 8 % 4, j % 8);
    Belongs(bits, octets, j / 8, j % 8);
    EnoughWords(bits, j / 8);
  }

  /** Bit j of the output: of message and keystream within the message, zero after it. */
  lemma CipheredBit(ks: seq<bv32>, msg: seq<bv8>, bits: nat, j: nat)
    requires |msg| == OctetsOf(bits) && |ks| == WordsOf(bits) && j < 8 * |msg|
    ensures j / 32 < |ks|
    ensures BitOf(Ciphered(OCTETS, ks, msg, bits)[j / 8], j % 8)
            == (j < bits && BitOf(msg[j / 8], j % 8) != WordBit(ks[j / 32], j % 32))
  {
    Places(j, bits, |msg|);
    CipheredOctet(ks, msg, bits, j / 8);
    OutputBit(Ciphered(OCTETS, ks, msg, bits)[j / 8], msg[j / 8], ks[j / 32], j / 8 % 4, j % 8,
              j / 8 == |msg| - 1, SpareBits(bits));
  }

  // ---- The keystream of the standard

  lemma KeyWordIs(key: seq<bv8>, count: bv32, bearer: bv8, direction: bv8, n: nat, t: nat)
    requires |key| >= 16 && t < n
    ensures KeyWords(SNOW, Start(key, count, bearer, direction), n)[t]
            == Standard.Z(Source(KeyWordsOf(key), Vector(count, bearer, direction)), t)
  {
    KeyWordsAt(SNOW, Start(key, count, bearer, direction), n, t);
    KeystreamIsStandard(KeyWordsOf(key), Vector(count, bearer, direction), t);
  }

  /** The words of the standard's keystream. */
  ghost predicate IsKeystream(ks: seq<bv32>, p: Standard.Setup<bv32>)
    requires Standard.Proper(p)
  {
    forall t | 0 <= t < |ks| :: ks[t] == Standard.Z(p, t)
  }

  /** What the source encrypts with: the keystream of the standard. */
  lemma EncryptedIsCiphered(key: seq<bv8>, count: bv32, bearer: bv8, direction: bv8, msg: seq<bv8>, bits: nat,
                            ks: seq<bv32>)
    requires |key| >= 16 && |msg| == OctetsOf(bits) && |ks| == WordsOf(bits)
    requires IsKeystream(ks, Source(KeyWordsOf(key), Vector(count, bearer, direction)))
    ensures Encrypted(key, count, bearer, direction, msg, bits) == Ciphered(OCTETS, ks, msg, bits)
  {
    var zs := KeyWords(SNOW, Start(key, count, bearer, direction), WordsOf(bits));
    forall t | 0 <= t < |ks| ensures zs[t] == ks[t] {
      KeyWordIs(key, count, bearer, direction, WordsOf(bits), t);
    }
    assert zs == ks;
  }

  /** Bit j of the ciphertext. */
  lemma EncryptedBit(key: seq<bv8>, count: bv32, bearer: bv8, direction: bv8, msg: seq<bv8>, bits: nat,
                     ks: seq<bv32>, j: nat)
    requires |key| >= 16 && |msg| == OctetsOf(bits) && |ks| == WordsOf(bits) && j < 8 * |msg|
    requires IsKeystream(ks, Source(KeyWordsOf(key), Vector(count, bearer, direction)))
    ensures j / 32 < |ks|
    ensures BitOf(Encrypted(key, count, bearer, direction, msg, bits)[j / 8], j % 8)
            == (j < bits && BitOf(msg[j / 8], j % 8) != WordBit(ks[j / 32], j % 32))
  {
    EncryptedIsCiphered(key, count, bearer, direction, msg, bits, ks);
    CipheredBit(ks, msg, bits, j);
  }

  // ---- Key and vector

  lemma KeyWordAt(key: seq<bv8>, t: nat)
    requires |key| >= 16 && t < 4
    ensures KeyWordsOf(key)[3 - t] == WordAt(key, 4 * t)
  {
  }

  lemma OctetOfWord(key: seq<bv8>, at: nat, j: nat)
    requires at + 4 <= |key| && j < 4
    ensures KeyByte(WordAt(key, at), j) == key[at + j]
  {
    BytesOfWord(0, key[at], key[at + 1], key[at + 2], key[at + 3]);
  }

  /** The key octets, in order, are the big-endian octets of K3, K2, K1 and K0. */
  lemma KeyOrder(key: seq<bv8>, i: nat)
    requires |key| >= 16 && i < 16
    ensures key[i] == KeyByte(KeyWordsOf(key)[3 - i / 4], i % 4)
  {
    KeyWordAt(key, i / 4);
    OctetOfWord(key, 4 * (i / 4), i % 4);
  }

  /** IV3 and IV1 are the count; IV2 and IV0 are five bits of the bearer, one of the direction and zeros. */
  lemma VectorOrder(count: bv32, bearer: bv8, direction: bv8)
    ensures var iv := Vector(count, bearer, direction);
            iv[3] == iv[1] == count && iv[2] == iv[0] && iv[2] >> 27 == (bearer & 0x1F) as bv32
            && (iv[2] >> 26) & 1 == (direction & 1) as bv32 && iv[2] & 0x03FF_FFFF == 0
  {
  }
}
