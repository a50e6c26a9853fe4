/** Octets, and the masked reads and writes that `bit_ref` performs on one octet of its buffer. */
module Octets {
  import opened BitSeq

  type Octet = x: int | 0 <= x < 256

  /** `(uint8_t)x` */
  function U8(x: nat): (b: Octet)
    ensures x < 256 ==> b == x
  {
    x % 256
  }

  /** The bits of a buffer, in transmission order. */
  function BufBits(s: seq<Octet>): (r: seq<bool>)
    ensures |r| == 8 * |s|
  {
    if |s| == 0 then [] else Enc(s[0], 8) + BufBits(s[1..])
  }

  lemma {:induction false} BufBitsConcat(a: seq<Octet>, b: seq<Octet>)
    ensures BufBits(a + b) == BufBits(a) + BufBits(b)
  {
    if |a| > 0 {
      BufBitsConcat(a[1..], b);
      assert (a + b)[1..] == a[1..] + b;
    } else {
      assert a + b == b;
    }
  }

  lemma BufBitsOne(x: Octet)
    ensures BufBits([x]) == Enc(x, 8)
  {
    assert [x][1..] == [];
  }

  function AndBits(a: seq<bool>, b: seq<bool>): (r: seq<bool>)
    requires |a| == |b|
    ensures |r| == |a|
  {
    seq(|a|, i requires 0 <= i < |a| => a[i] && b[i])
  }

  lemma OctetBound(b: seq<bool>)
    requires |b| == 8
    ensures Dec(b) < 256
  {
    ReadBound(b, 0, |b|);
    Pow2Eight();
  }

  lemma Pow2Eight()
    ensures Pow2(8) == 256
  {
    assert Pow2(8) == 2 * Pow2(7) && Pow2(6) == 2 * Pow2(5) && Pow2(4) == 2 * Pow2(3) && Pow2(2) == 4;
  }

  lemma OctetRoundTrip(b: Octet)
    ensures Dec(Enc(b, 8)) == b
  {
    DecEnc(b, 8);
    LowSmall(b, 8);
    Pow2Eight();
  }

  /** `a & m` on octets */
  function And(a: Octet, m: Octet): Octet
  {
    OctetBound(AndBits(Enc(a, 8), Enc(m, 8)));
    Dec(AndBits(Enc(a, 8), Enc(m, 8)))
  }

  // ---- Masks

  /** `(1 << k) - 1` truncated to an octet */
  function Ones(k: nat): Octet
    requires k <= 8
  {
    Pow2Monotone(k, 8);
    Pow2Eight();
    Pow2(k) - 1
  }

  function Trues(n: nat): (b: seq<bool>)
    ensures |b| == n
  {
    seq(n, _ => true)
  }

  lemma {:induction false} EncOnes(z: nat, k: nat)
    ensures Enc(Pow2(k) - 1, z + k) == Zeros(z) + Trues(k)
  {
    if k == 0 {
      EncZero(z);
    } else {
      EncOnes(z, k - 1);
      assert Trues(k) == Trues(k - 1) + [true];
      assert Zeros(z) + Trues(k) == (Zeros(z) + Trues(k - 1)) + [true];
      assert (Pow2(k) - 1) / 2 == Pow2(k - 1) - 1;
    }
  }

  lemma {:induction false} Pow2Shl(k: nat, j: nat)
    ensures Shl(Pow2(j), k) == Pow2(j + k)
  {
    if k > 0 {
      Pow2Shl(k - 1, j);
    }
  }

  /** The mask that keeps every bit of an octet but the n bits from bit o on. */
  function KeepMask(o: nat, n: nat): Octet
    requires o + n <= 8
  {
    Pow2Monotone(8 - o - n, 8 - o);
    U8(255 - Ones(8 - o) + Ones(8 - o - n))
  }

  /** The mask that keeps only the n bits from bit o on. */
  function ReadMask(o: nat, n: nat): Octet
    requires o + n <= 8
  {
    Pow2Monotone(8 - o - n, 8 - o);
    Ones(8 - o) - Ones(8 - o - n)
  }

  lemma {:induction false} DecTrues(k: nat)
    ensures Dec(Trues(k)) == Pow2(k) - 1
  {
    if k > 0 {
      DecTrues(k - 1);
      ReadSame(Trues(k), 0, Trues(k - 1), 0, k - 1);
    }
  }

  lemma {:induction false} DecZeros(k: nat)
    ensures Dec(Zeros(k)) == 0
  {
    if k > 0 {
      DecZeros(k - 1);
      ReadSame(Zeros(k), 0, Zeros(k - 1), 0, k - 1);
    }
  }

  lemma {:induction false} ShlPow2(k: nat, j: nat)
    ensures Shl(Pow2(j) - 1, k) == Pow2(j + k) - Pow2(k)
  {
    if k > 0 {
      ShlPow2(k - 1, j);
    }
  }

  lemma KeepMaskValue(o: nat, n: nat)
    requires o + n <= 8
    ensures KeepMask(o, n) == Dec(Trues(o) + Zeros(n) + Trues(8 - o - n))
  {
    var k := 8 - o - n;
    DecThree(Trues(o), Zeros(n), Trues(k), Trues(o) + Zeros(n) + Trues(k));
    DecTrues(o); DecZeros(n); DecTrues(k);
    ShlZero(k);
    ShlPow2(n + k, o);
    Pow2Eight();
    Pow2Monotone(k, 8 - o);
    Pow2Monotone(8 - o, 8);
  }

  lemma ReadMaskValue(o: nat, n: nat)
    requires o + n <= 8
    ensures ReadMask(o, n) == Dec(Zeros(o) + Trues(n) + Zeros(8 - o - n))
  {
    var k := 8 - o - n;
    DecThree(Zeros(o), Trues(n), Zeros(k), Zeros(o) + Trues(n) + Zeros(k));
    DecZeros(o); DecTrues(n); DecZeros(k);
    ShlZero(n + k);
    ShlPow2(k, n);
  }

  // ---- Masked write

  /** The octet that one iteration of `bit_ref::pack` stores. */
  function Put(b: Octet, o: nat, n: nat, x: Octet): Octet
    requires o + n <= 8
  {
    U8(And(b, KeepMask(o, n)) + x)
  }

  lemma Fill(p: seq<bool>, hole: seq<bool>, e: seq<bool>, q: seq<bool>, before: seq<bool>, after: seq<bool>)
    requires |hole| == |e| && Dec(hole) == 0
    requires before == p + hole + q && after == p + e + q
    ensures Dec(before) + Shl(Dec(e), |q|) == Dec(after)
  {
    DecThree(p, hole, q, before);
    DecThree(p, e, q, after);
    ShlZero(|q|);
  }

  lemma AndIs(b: Octet, m: Octet, mask: seq<bool>)
    requires |mask| == 8 && m == Dec(mask)
    ensures And(b, m) == Dec(AndBits(Enc(b, 8), mask))
  {
    EncDec(mask);
  }

  lemma AndKeeps(e: seq<bool>, o: nat, n: nat)
    requires |e| == 8 && o + n <= 8
    ensures AndBits(e, Trues(o) + Zeros(n) + Trues(8 - o - n)) == e[..o] + Zeros(n) + e[o + n..]
  {
  }

  lemma AndReads(e: seq<bool>, o: nat, n: nat)
    requires |e| == 8 && o + n <= 8
    ensures AndBits(e, Zeros(o) + Trues(n) + Zeros(8 - o - n)) == Zeros(o) + e[o..o + n] + Zeros(8 - o - n)
  {
  }

  lemma Masked(b: Octet, o: nat, n: nat, before: seq<bool>)
    requires o + n <= 8
    requires before == Enc(b, 8)[..o] + Zeros(n) + Enc(b, 8)[o + n..]
    ensures And(b, KeepMask(o, n)) == Dec(before)
  {
    KeepMaskValue(o, n);
    AndIs(b, KeepMask(o, n), Trues(o) + Zeros(n) + Trues(8 - o - n));
    AndKeeps(Enc(b, 8), o, n);
  }

  lemma MaskedBits(b: Octet, o: nat, n: nat)
    requires o + n <= 8
    ensures Enc(And(b, KeepMask(o, n)), 8) == Enc(b, 8)[..o] + Zeros(n) + Enc(b, 8)[o + n..]
  {
    var before := Enc(b, 8)[..o] + Zeros(n) + Enc(b, 8)[o + n..];
    Masked(b, o, n, before);
    EncDec(before);
  }

  lemma PutValue(b: Octet, o: nat, n: nat, v: nat, p: seq<bool>, q: seq<bool>)
    requires o + n <= 8 && v < Pow2(n) && p == Enc(b, 8)[..o] && q == Enc(b, 8)[o + n..]
    ensures And(b, KeepMask(o, n)) + Shl(v, 8 - o - n) == Dec(p + Enc(v, n) + q) < 256
  {
    Masked(b, o, n, p + Zeros(n) + q);
    DecEnc(v, n);
    LowSmall(v, n);
    DecZeros(n);
    Fill(p, Zeros(n), Enc(v, n), q, p + Zeros(n) + q, p + Enc(v, n) + q);
    OctetBound(p + Enc(v, n) + q);
  }

  /** Storing v in the n bits from bit o on replaces exactly those bits. */
  lemma PutBits(b: Octet, o: nat, n: nat, v: nat)
    requires o + n <= 8 && v < Pow2(n)
    ensures Shl(v, 8 - o - n) < 256
    ensures Enc(Put(b, o, n, Shl(v, 8 - o - n)), 8) == Enc(b, 8)[..o] + Enc(v, n) + Enc(b, 8)[o + n..]
  {
    PutValue(b, o, n, v, Enc(b, 8)[..o], Enc(b, 8)[o + n..]);
    EncDec(Enc(b, 8)[..o] + Enc(v, n) + Enc(b, 8)[o + n..]);
  }

  // ---- Masked read

  lemma {:induction false} ShrShl(v: nat, k: nat)
    ensures Shr(Shl(v, k), k) == v
  {
    if k > 0 {
      assert Shl(v, k) / 2 == Shl(v, k - 1);
      ShrShl(v, k - 1);
    }
  }

  /** What one iteration of `unpack_bits` reads: n bits of an octet, in place. */
  function Get(b: Octet, o: nat, n: nat): Octet
    requires o + n <= 8
  {
    And(b, ReadMask(o, n))
  }

  /** Masking out everything but n bits leaves the number they spell, in place. */
  lemma GetBits(b: Octet, o: nat, n: nat)
    requires o + n <= 8
    ensures Get(b, o, n) == Shl(Dec(Enc(b, 8)[o..o + n]), 8 - o - n)
  {
    var field := Zeros(o) + Enc(b, 8)[o..o + n] + Zeros(8 - o - n);
    ReadMaskValue(o, n);
    AndIs(b, ReadMask(o, n), Zeros(o) + Trues(n) + Zeros(8 - o - n));
    AndReads(Enc(b, 8), o, n);
    DecFramed(o, Enc(b, 8)[o..o + n], 8 - o - n, field);
  }

  lemma DecFramed(o: nat, e: seq<bool>, k: nat, field: seq<bool>)
    requires field == Zeros(o) + e + Zeros(k)
    ensures Dec(field) == Shl(Dec(e), k)
  {
    DecThree(Zeros(o), e, Zeros(k), field);
    DecZeros(o);
    DecZeros(k);
    ShlZero(|e| + k);
  }
}
