/** Multiplication by x in the two fields of 256 elements that SNOW 3G uses, and by alpha on
    32-bit words (sections 3.1 and 3.4 of the SNOW 3G specification). */
module Gf256 {

  /** `s3g_mul_x` */
  function MulX(v: bv8, c: bv8): bv8
  {
    if v & 0x80 != 0 then (v << 1) ^ c else v << 1
  }

  /** `s3g_mul_x_pow` */
  function MulXPow(v: bv8, i: nat, c: bv8): bv8
  {
    if i == 0 then v else MulX(MulXPow(v, i - 1, c), c)
  }

  lemma {:induction false} MulXPowAdd(v: bv8, i: nat, j: nat, c: bv8)
    ensures MulXPow(v, i + j, c) == MulXPow(MulXPow(v, i, c), j, c)
  {
    if j > 0 {
      MulXPowAdd(v, i, j - 1, c);
    }
  }

  // ---- Powers of beta, the generator for the constant 0xA9

  function Beta(v: bv8, i: nat): bv8
  {
    MulXPow(v, i, 0xA9)
  }

  /** The linear map that sends bit k to the k-th constant. */
  function Lin(v: bv8, k0: bv8, k1: bv8, k2: bv8, k3: bv8, k4: bv8, k5: bv8, k6: bv8, k7: bv8): bv8
  {
    (if v & 0x01 != 0 then k0 else 0) ^ (if v & 0x02 != 0 then k1 else 0)
    ^ (if v & 0x04 != 0 then k2 else 0) ^ (if v & 0x08 != 0 then k3 else 0)
    ^ (if v & 0x10 != 0 then k4 else 0) ^ (if v & 0x20 != 0 then k5 else 0)
    ^ (if v & 0x40 != 0 then k6 else 0) ^ (if v & 0x80 != 0 then k7 else 0)
  }

  lemma Beta1(v: bv8)
    ensures Beta(v, 1) == Lin(v, 0x02, 0x04, 0x08, 0x10, 0x20, 0x40, 0x80, 0xA9)
  {
    assert Beta(v, 1) == MulX(Beta(v, 0), 0xA9);
  }

  lemma Beta2(v: bv8)
    ensures Beta(v, 2) == Lin(v, 0x04, 0x08, 0x10, 0x20, 0x40, 0x80, 0xA9, 0xFB)
  {
    MulXPowAdd(v, 1, 1, 0xA9);
    Beta1(v);
    Beta1(Beta(v, 1));
  }

  lemma Beta3(v: bv8)
    ensures Beta(v, 3) == Lin(v, 0x08, 0x10, 0x20, 0x40, 0x80, 0xA9, 0xFB, 0x5F)
  {
    MulXPowAdd(v, 2, 1, 0xA9);
    Beta2(v);
    Beta1(Beta(v, 2));
  }

  lemma Beta6(v: bv8)
    ensures Beta(v, 6) == Lin(v, 0x40, 0x80, 0xA9, 0xFB, 0x5F, 0xBE, 0xD5, 0x03)
  {
    MulXPowAdd(v, 3, 3, 0xA9);
    Beta3(v);
    Beta3(Beta(v, 3));
  }

  lemma Beta12(v: bv8)
    ensures Beta(v, 12) == Lin(v, 0xD5, 0x03, 0x06, 0x0C, 0x18, 0x30, 0x60, 0xC0)
  {
    MulXPowAdd(v, 6, 6, 0xA9);
    Beta6(v);
    Beta6(Beta(v, 6));
  }

  lemma Beta15(v: bv8)
    ensures Beta(v, 15) == Lin(v, 0x0C, 0x18, 0x30, 0x60, 0xC0, 0x29, 0x52, 0xA4)
  {
    MulXPowAdd(v, 12, 3, 0xA9);
    Beta12(v);
    Beta3(Beta(v, 12));
  }

  lemma Beta30(v: bv8)
    ensures Beta(v, 30) == Lin(v, 0x50, 0xA0, 0xE9, 0x7B, 0xF6, 0x45, 0x8A, 0xBD)
  {
    MulXPowAdd(v, 15, 15, 0xA9);
    Beta15(v);
    Beta15(Beta(v, 15));
  }

  lemma Beta60(v: bv8)
    ensures Beta(v, 60) == Lin(v, 0x7C, 0xF8, 0x59, 0xB2, 0xCD, 0x33, 0x66, 0xCC)
  {
    MulXPowAdd(v, 30, 30, 0xA9);
    Beta30(v);
    Beta30(Beta(v, 30));
  }

  lemma Beta120(v: bv8)
    ensures Beta(v, 120) == Lin(v, 0x73, 0xE6, 0x65, 0xCA, 0x3D, 0x7A, 0xF4, 0x41)
  {
    MulXPowAdd(v, 60, 60, 0xA9);
    Beta60(v);
    Beta60(Beta(v, 60));
  }

  lemma Beta240(v: bv8)
    ensures Beta(v, 240) == Lin(v, 0x26, 0x4C, 0x98, 0x99, 0x9B, 0x9F, 0x97, 0x87)
  {
    MulXPowAdd(v, 120, 120, 0xA9);
    Beta120(v);
    Beta120(Beta(v, 120));
  }

  lemma Beta255(v: bv8)
    ensures Beta(v, 255) == v
  {
    MulXPowAdd(v, 240, 15, 0xA9);
    Beta240(v);
    Beta15(Beta(v, 240));
  }


  /** Beta has order 255, so powers may be reduced. */
  lemma BetaReduce(v: bv8, i: nat, j: nat, k: nat)
    requires i + j == k + 255
    ensures Beta(Beta(v, i), j) == Beta(v, k)
  {
    MulXPowAdd(v, i, j, 0xA9);
    MulXPowAdd(v, 255, k, 0xA9);
    Beta255(v);
  }

  // ---- Words of four bytes

  function Word(b0: bv8, b1: bv8, b2: bv8, b3: bv8): bv32
  {
    ((b0 as bv32) << 24) | ((b1 as bv32) << 16) | ((b2 as bv32) << 8) | (b3 as bv32)
  }

  /** The bytes of a word, most significant first. */
  function Byte0(w: bv32): bv8 { ((w >> 24) & 0xFF) as bv8 }
  function Byte1(w: bv32): bv8 { ((w >> 16) & 0xFF) as bv8 }
  function Byte2(w: bv32): bv8 { ((w >> 8) & 0xFF) as bv8 }
  function Byte3(w: bv32): bv8 { (w & 0xFF) as bv8 }

  /** `s3g_mul_alpha` */
  function MulAlpha(c: bv8): bv32
  {
    Word(Beta(c, 23), Beta(c, 245), Beta(c, 48), Beta(c, 239))
  }

  /** `s3g_div_alpha` */
  function DivAlpha(c: bv8): bv32
  {
    Word(Beta(c, 16), Beta(c, 39), Beta(c, 6), Beta(c, 64))
  }

  /** One byte up, respectively down, with m added. */
  function Up(w: bv32, m: bv32): bv32 { ((w << 8) & 0xFFFFFF00) ^ m }
  function Down(w: bv32, m: bv32): bv32 { ((w >> 8) & 0x00FFFFFF) ^ m }

  /** A word times alpha, as the feedback of the shift register computes it. */
  function TimesAlpha(w: bv32): bv32
  {
    Up(w, MulAlpha(Byte0(w)))
  }

  /** A word divided by alpha. */
  function OverAlpha(w: bv32): bv32
  {
    Down(w, DivAlpha(Byte3(w)))
  }

  lemma DownUp(w: bv32, p: bv8, q: bv8, r: bv8, s: bv8)
    ensures Byte3(Up(w, Word(p, q, r, s))) == s
    ensures Down(Up(w, Word(p, q, r, s)), Word(Byte0(w), p, q, r)) == w
  {
  }

  lemma UpDown(w: bv32, p: bv8, q: bv8, r: bv8, s: bv8)
    ensures Byte0(Down(w, Word(p, q, r, s))) == p
    ensures Up(Down(w, Word(p, q, r, s)), Word(q, r, s, Byte3(w))) == w
  {
  }

  lemma DivAfterMul(c: bv8)
    ensures DivAlpha(Beta(c, 239)) == Word(c, Beta(c, 23), Beta(c, 245), Beta(c, 48))
  {
    BetaReduce(c, 239, 16, 0);
    BetaReduce(c, 239, 39, 23);
    MulXPowAdd(c, 239, 6, 0xA9);
    BetaReduce(c, 239, 64, 48);
  }

  lemma MulAfterDiv(c: bv8)
    ensures MulAlpha(Beta(c, 16)) == Word(Beta(c, 39), Beta(c, 6), Beta(c, 64), c)
  {
    MulXPowAdd(c, 16, 23, 0xA9);
    BetaReduce(c, 16, 245, 6);
    MulXPowAdd(c, 16, 48, 0xA9);
    BetaReduce(c, 16, 239, 0);
  }

  /** Dividing by alpha undoes multiplying by it, on every word. */
  lemma OverTimesAlpha(w: bv32)
    ensures OverAlpha(TimesAlpha(w)) == w
  {
    var c := Byte0(w);
    DivAfterMul(c);
    DownUp(w, Beta(c, 23), Beta(c, 245), Beta(c, 48), Beta(c, 239));
  }

  /** Multiplying by alpha undoes dividing by it, on every word. */
  lemma TimesOverAlpha(w: bv32)
    ensures TimesAlpha(OverAlpha(w)) == w
  {
    var c := Byte3(w);
    MulAfterDiv(c);
    UpDown(w, Beta(c, 16), Beta(c, 39), Beta(c, 6), Beta(c, 64));
  }
}
