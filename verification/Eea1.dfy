/** EEA1, the confidentiality algorithm on SNOW 3G (liblte_security.cc, lines 924 to 1015).

    Decryption is encryption; the message comes back with the unused low bits of its last octet
    cleared. */
module Eea1 {
  import opened Gf256
  import opened Words
  import opened SnowMachine
  import opened Snow3g
  import opened StreamCipher
  import opened Liblte

  // ---- The operations on octets

  /** `(ks >> ((3 - j) * 8)) & 0xFF` */
  function KeyByte(w: bv32, j: nat): bv8
  {
    if j == 0 then Byte0(w) else if j == 1 then Byte1(w) else if j == 2 then Byte2(w) else Byte3(w)
  }

  /** `(uint8) (0xFF << n)` */
  function Mask(n: nat): bv8
  {
    if n == 0 then 0xFF else Mask(n - 1) << 1
  }

  function ClearLow(b: bv8, n: nat): bv8
  {
    b & Mask(n)
  }

  const OCTETS := Ops(BYTES, KeyByte, ClearLow)

  lemma MaskedTwice(x: bv8, y: bv8, n: nat, m: bv8)
    requires m == Mask(n)
    ensures ClearLow((x & m) ^ y, n) == ClearLow(x ^ y, n)
  {
  }

  lemma ClearTwice(x: bv8, y: bv8, n: nat)
    ensures ClearLow(Xor8(ClearLow(x, n), y), n) == ClearLow(Xor8(x, y), n)
  {
    MaskedTwice(x, y, n, Mask(n));
  }

  lemma OctetsAreLawful()
    ensures OpsLaws(OCTETS)
  {
    XorLaws();
    forall x, y, n: nat | n < 8 ensures ClearAt(OCTETS, x, y, n) {
      ClearTwice(x, y, n);
    }
    forall x ensures ClearNoneAt(OCTETS, x) {
      ClearNone(x);
    }
  }

  lemma ClearNone(x: bv8)
    ensures ClearLow(x, 0) == x
  {
  }

  // ---- Key and initialisation vector

  /** The four octets from position i on, as a word. */
  function WordAt(key: seq<bv8>, i: nat): bv32
    requires i + 4 <= |key|
  {
    Word(key[i], key[i + 1], key[i + 2], key[i + 3])
  }

  /** The key as four words, last first. */
  function KeyWordsOf(key: seq<bv8>): (k: seq<bv32>)
    requires |key| >= 16
    ensures |k| == 4
  {
    [WordAt(key, 12), WordAt(key, 8), WordAt(key, 4), WordAt(key, 0)]
  }

  /** The third word of the vector: five bits of the bearer, one of the direction. */
  function BearerWord(bearer: bv8, direction: bv8): bv32
  {
    (((bearer & 0x1F) as bv32) << 27) | (((direction & 0x01) as bv32) << 26)
  }

  function Vector(count: bv32, bearer: bv8, direction: bv8): (iv: seq<bv32>)
    ensures |iv| == 4
  {
    [BearerWord(bearer, direction), count, BearerWord(bearer, direction), count]
  }

  function Start(key: seq<bv8>, count: bv32, bearer: bv8, direction: bv8): (s: State<bv32>)
    requires |key| >= 16
    ensures Fits(s)
  {
    Initialized(SNOW, ONES, KeyWordsOf(key), Vector(count, bearer, direction))
  }

  /** What the source computes: the message under the keystream of the initialised machine. */
  function Encrypted(key: seq<bv8>, count: bv32, bearer: bv8, direction: bv8, msg: seq<bv8>, bits: nat): (c: seq<bv8>)
    requires |key| >= 16 && |msg| == OctetsOf(bits)
    ensures |c| == |msg|
  {
    Ciphered(OCTETS, KeyWords(SNOW, Start(key, count, bearer, direction), WordsOf(bits)), msg, bits)
  }

  /** Decrypting a ciphertext gives the message with its spare bits cleared. */
  lemma DecryptEncrypt(key: seq<bv8>, count: bv32, bearer: bv8, direction: bv8, msg: seq<bv8>, bits: nat)
    requires |key| >= 16 && |msg| == OctetsOf(bits)
    ensures Encrypted(key, count, bearer, direction, Encrypted(key, count, bearer, direction, msg, bits), bits)
            == Cleared(OCTETS, msg, bits)
  {
    OctetsAreLawful();
    CipheredTwice(OCTETS, KeyWords(SNOW, Start(key, count, bearer, direction), WordsOf(bits)), msg, bits);
  }

  /** The ciphertext of the first octets does not depend on the rest of the message. */
  lemma EncryptPrefix(key: seq<bv8>, count: bv32, bearer: bv8, direction: bv8, msg: seq<bv8>, bits: nat, n: nat)
    requires |key| >= 16 && |msg| == OctetsOf(bits) && n < |msg|
    ensures Encrypted(key, count, bearer, direction, msg[..n], 8 * n)
            == Encrypted(key, count, bearer, direction, msg, bits)[..n]
  {
    var s := Start(key, count, bearer, direction);
    OctetsAreLawful();
    CipheredPrefix(OCTETS, KeyWords(SNOW, s, WordsOf(bits)), msg, bits, n);
    KeyWordsPrefix(SNOW, s, WordsOf(bits), WordsOf(8 * n));
  }

  lemma WordInjective(a: bv8, b: bv8, c: bv8, d: bv8, p: bv8, q: bv8, r: bv8, s: bv8)
    requires Word(a, b, c, d) == Word(p, q, r, s)
    ensures a == p && b == q && c == r && d == s
  {
    BytesOfWord(0, a, b, c, d);
    BytesOfWord(0, p, q, r, s);
  }

  lemma BearerWordShows(bearer: bv8, direction: bv8)
    ensures (BearerWord(bearer, direction) >> 27) as bv8 == bearer & 0x1F
    ensures ((BearerWord(bearer, direction) >> 26) & 0x01) as bv8 == direction & 0x01
  {
  }

  lemma WordAtInjective(key: seq<bv8>, key': seq<bv8>, i: nat)
    requires |key| == |key'| && i + 4 <= |key| && WordAt(key, i) == WordAt(key', i)
    ensures key[i..i + 4] == key'[i..i + 4]
  {
    WordInjective(key[i], key[i + 1], key[i + 2], key[i + 3], key'[i], key'[i + 1], key'[i + 2], key'[i + 3]);
  }

  lemma KeyWordsOfInjective(key: seq<bv8>, key': seq<bv8>)
    requires |key| == |key'| == 16 && KeyWordsOf(key) == KeyWordsOf(key')
    ensures key == key'
  {
    var k, k' := KeyWordsOf(key), KeyWordsOf(key');
    assert k[0] == k'[0] && k[1] == k'[1] && k[2] == k'[2] && k[3] == k'[3];
    WordAtInjective(key, key', 0);
    WordAtInjective(key, key', 4);
    WordAtInjective(key, key', 8);
    WordAtInjective(key, key', 12);
    assert key == key[0..4] + key[4..8] + key[8..12] + key[12..16];
    assert key' == key'[0..4] + key'[4..8] + key'[8..12] + key'[12..16];
  }

  lemma VectorInjective(count: bv32, bearer: bv8, direction: bv8, count': bv32, bearer': bv8, direction': bv8)
    requires Vector(count, bearer, direction) == Vector(count', bearer', direction')
    ensures count == count' && bearer & 0x1F == bearer' & 0x1F && direction & 0x01 == direction' & 0x01
  {
    var iv, iv' := Vector(count, bearer, direction), Vector(count', bearer', direction');
    assert iv[0] == iv'[0] && iv[1] == iv'[1];
    BearerWordShows(bearer, direction);
    BearerWordShows(bearer', direction');
  }

  /** Only the masked bits enter the word. */
  lemma BearerWordMasks(bearer: bv8, direction: bv8, bearer': bv8, direction': bv8)
    requires bearer & 0x1F == bearer' & 0x1F && direction & 0x01 == direction' & 0x01
    ensures BearerWord(bearer, direction) == BearerWord(bearer', direction')
  {
  }

  /** The machine starts in the same state exactly for the same key, count, bearer and direction. */
  lemma StartInjective(key: seq<bv8>, count: bv32, bearer: bv8, direction: bv8,
                       key': seq<bv8>, count': bv32, bearer': bv8, direction': bv8)
    requires |key| == |key'| == 16
    ensures Start(key, count, bearer, direction) == Start(key', count', bearer', direction') <==>
      key == key' && count == count' && bearer & 0x1F == bearer' & 0x1F && direction & 0x01 == direction' & 0x01
  {
    InitializeInjective(KeyWordsOf(key), Vector(count, bearer, direction),
                        KeyWordsOf(key'), Vector(count', bearer', direction'));
    if Start(key, count, bearer, direction) == Start(key', count', bearer', direction') {
      KeyWordsOfInjective(key, key');
      VectorInjective(count, bearer, direction, count', bearer', direction');
    }
    if bearer & 0x1F == bearer' & 0x1F && direction & 0x01 == direction' & 0x01 {
      BearerWordMasks(bearer, direction, bearer', direction');
    }
  }

  // ---- The methods

  method TransformKey(key: array<bv8>) returns (k: array<bv32>)
    requires key.Length >= 16
    ensures fresh(k) && k.Length == 4 && k[..] == KeyWordsOf(key[..])
  {
    k := new bv32[4](_ => 0);
    for i := 4 downto 0
      invariant forall j | i <= j < 4 ::
        k[j] == Word(key[4 * (3 - j)], key[4 * (3 - j) + 1], key[4 * (3 - j) + 2], key[4 * (3 - j) + 3])
    {
      k[i] := Word(key[4 * (3 - i) + 0], key[4 * (3 - i) + 1], key[4 * (3 - i) + 2], key[4 * (3 - i) + 3]);
    }
  }

  method ConstructVector(count: bv32, bearer: bv8, direction: bv8) returns (iv: array<bv32>)
    ensures fresh(iv) && iv.Length == 4 && iv[..] == Vector(count, bearer, direction)
  {
    iv := new bv32[4](_ => 0);
    iv[3] := count;
    iv[2] := BearerWord(bearer, direction);
    iv[1] := iv[3];
    iv[0] := iv[2];
  }

  /** `liblte_security_encryption_eea1`; the output may be the message. */
  method Encrypt(key: array?<bv8>, count: bv32, bearer: bv8, direction: bv8,
                 msg: array?<bv8>, msgLen: nat, out: array?<bv8>)
    returns (err: Status)
    requires key != null ==> key.Length >= 16
    requires msg != null ==> msg.Length >= OctetsOf(msgLen)
    requires out != null ==> out.Length >= OctetsOf(msgLen)
    requires 0 < msgLen && msgLen + 31 < 0x1_0000_0000
    modifies out
    ensures err == if key == null || msg == null || out == null then INVALID_INPUTS else SUCCESS
    ensures out != null && err == INVALID_INPUTS ==> out[..] == old(out[..])
    ensures err == SUCCESS ==>
      out[..OctetsOf(msgLen)]
      == Encrypted(old(key[..]), count, bearer, direction, old(msg[..OctetsOf(msgLen)]), msgLen)
    ensures err == SUCCESS ==> out[OctetsOf(msgLen)..] == old(out[OctetsOf(msgLen)..])
  {
    err := INVALID_INPUTS;
    if key != null && msg != null && out != null {
      var k := TransformKey(key);
      var iv := ConstructVector(count, bearer, direction);
      var ks := Keystream(SNOW, ONES, k, iv, (msgLen + 31) / 32);
      ApplyKeystream(OCTETS, ks[..], msg, msgLen, out);
      err := SUCCESS;
    }
  }

  /** `liblte_security_decryption_eea1` */
  method Decrypt(key: array?<bv8>, count: bv32, bearer: bv8, direction: bv8,
                 ct: array?<bv8>, ctLen: nat, out: array?<bv8>)
    returns (err: Status)
    requires key != null ==> key.Length >= 16
    requires ct != null ==> ct.Length >= OctetsOf(ctLen)
    requires out != null ==> out.Length >= OctetsOf(ctLen)
    requires 0 < ctLen && ctLen + 31 < 0x1_0000_0000
    modifies out
    ensures err == if key == null || ct == null || out == null then INVALID_INPUTS else SUCCESS
    ensures out != null && err == INVALID_INPUTS ==> out[..] == old(out[..])
    ensures err == SUCCESS ==>
      out[..OctetsOf(ctLen)]
      == Encrypted(old(key[..]), count, bearer, direction, old(ct[..OctetsOf(ctLen)]), ctLen)
    ensures err == SUCCESS ==> out[OctetsOf(ctLen)..] == old(out[OctetsOf(ctLen)..])
  {
    err := Encrypt(key, count, bearer, direction, ct, ctLen, out);
  }
}
