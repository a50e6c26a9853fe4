/** The Milenage functions as section 4.1 of 3GPP TS 35.206 writes them, on the cipher of FIPS 197.

    Rotations are to the left, in octets; the constants are whole blocks. */
module MilenageStandard {
  import opened XorAlgebra
  import opened Rijndael
  import opened RijndaelStandard
  import Milenage

  function Left<T>(x: seq<T>, octets: nat): (y: seq<T>)
    requires |x| == 16 && octets <= 16
    ensures |y| == 16
  {
    x[octets..] + x[..octets]
  }

  /** Zero but for its last octet. */
  function Constant<T>(g: Group<T>, last: T): (x: seq<T>)
    ensures |x| == 16
  {
    seq(15, _ => g.zero) + [last]
  }

  function Temp<T>(c: Cipher<T>, key: seq<T>, opc: seq<T>, rand: seq<T>): (t: seq<T>)
    requires |key| == |opc| == |rand| == 16
    ensures |t| == 16
  {
    Aes(c, key, Sums(c.g, rand, opc))
  }

  /** IN1: SQN || AMF || SQN || AMF, which is the same in both halves. */
  function In1<T>(sqn: seq<T>, amf: seq<T>): (x: seq<T>)
    requires |sqn| == 6 && |amf| == 2
    ensures |x| == 16
  {
    seq(16, i requires 0 <= i < 16 => if i % 8 < 6 then sqn[i % 8] else amf[i % 8 - 6])
  }

  /** OUT1; the rotation is by 64 bits, the constant c1 is zero. */
  function Out1<T>(c: Cipher<T>, key: seq<T>, opc: seq<T>, rand: seq<T>, sqn: seq<T>, amf: seq<T>): (x: seq<T>)
    requires |key| == |opc| == |rand| == 16 && |sqn| == 6 && |amf| == 2
    ensures |x| == 16
  {
    var turned := Left(Sums(c.g, In1(sqn, amf), opc), 8);
    Sums(c.g, Aes(c, key, Sums(c.g, Sums(c.g, Temp(c, key, opc, rand), turned), Constant(c.g, c.g.zero))), opc)
  }

  /** OUT2 to OUT4 */
  function Out<T>(c: Cipher<T>, key: seq<T>, opc: seq<T>, rand: seq<T>, octets: nat, last: T): (x: seq<T>)
    requires |key| == |opc| == |rand| == 16 && octets <= 16
    ensures |x| == 16
  {
    var turned := Left(Sums(c.g, Temp(c, key, opc, rand), opc), octets);
    Sums(c.g, Aes(c, key, Sums(c.g, turned, Constant(c.g, last))), opc)
  }

  function Out2<T>(c: Cipher<T>, key: seq<T>, opc: seq<T>, rand: seq<T>): (x: seq<T>)
    requires |key| == |opc| == |rand| == 16
    ensures |x| == 16
  {
    Out(c, key, opc, rand, 0, c.one)
  }

  function Out3<T>(c: Cipher<T>, key: seq<T>, opc: seq<T>, rand: seq<T>): (x: seq<T>)
    requires |key| == |opc| == |rand| == 16
    ensures |x| == 16
  {
    Out(c, key, opc, rand, 4, c.double(c.one))
  }

  function Out4<T>(c: Cipher<T>, key: seq<T>, opc: seq<T>, rand: seq<T>): (x: seq<T>)
    requires |key| == |opc| == |rand| == 16
    ensures |x| == 16
  {
    Out(c, key, opc, rand, 8, c.double(c.double(c.one)))
  }

  // ---- The blocks of the source are those of the standard

  lemma TempIs<T(!new)>(c: Cipher<T>, key: seq<T>, opc: seq<T>, rand: seq<T>)
    requires CipherLaws(c) && |key| == |opc| == |rand| == 16
    ensures Milenage.Temp(c, key, opc, rand) == Temp(c, key, opc, rand)
  {
    EncryptedIsStandard(c, key, Sums(c.g, rand, opc));
  }

  lemma LeftIs<T>(x: seq<T>, octets: nat)
    requires |x| == 16 && octets <= 16
    ensures Milenage.Rotated(x, 16 - octets) == Left(x, octets)
  {
  }

  lemma TweakIs<T(!new)>(g: Group<T>, x: seq<T>, w: T)
    requires Laws(g) && |x| == 16
    ensures x[15 := g.add(x[15], w)] == Sums(g, x, Constant(g, w))
  {
    forall i | 0 <= i < 16 ensures x[15 := g.add(x[15], w)][i] == Sums(g, x, Constant(g, w))[i] {
      assert SelfAt(g, x[i]);
    }
  }

  /** The blocks of f2 to f5. */
  lemma OutBlockIsStandard<T(!new)>(c: Cipher<T>, key: seq<T>, opc: seq<T>, rand: seq<T>, octets: nat, w: T)
    requires CipherLaws(c) && |key| == |opc| == |rand| == 16 && octets <= 16
    ensures Milenage.OutBlock(c, key, opc, rand, 16 - octets, w) == Out(c, key, opc, rand, octets, w)
  {
    var turned := Left(Sums(c.g, Temp(c, key, opc, rand), opc), octets);
    TempIs(c, key, opc, rand);
    LeftIs(Sums(c.g, Temp(c, key, opc, rand), opc), octets);
    TweakIs(c.g, turned, w);
    EncryptedIsStandard(c, key, Sums(c.g, turned, Constant(c.g, w)));
  }

  /** Rotation by no octet and by sixteen are the same. */
  lemma FullTurn<T>(c: Cipher<T>, key: seq<T>, opc: seq<T>, rand: seq<T>, w: T)
    requires |key| == |opc| == |rand| == 16
    ensures Milenage.OutBlock(c, key, opc, rand, 0, w) == Milenage.OutBlock(c, key, opc, rand, 16, w)
  {
    var x := Sums(c.g, Milenage.Temp(c, key, opc, rand), opc);
    assert Milenage.Rotated(x, 0) == x == Milenage.Rotated(x, 16);
  }

  lemma In1Is<T>(sqn: seq<T>, amf: seq<T>)
    requires |sqn| == 6 && |amf| == 2
    ensures Milenage.In1(sqn, amf) == In1(sqn, amf)
  {
  }

  /** The block of f1 and f1*. */
  lemma Out1IsStandard<T(!new)>(c: Cipher<T>, key: seq<T>, opc: seq<T>, rand: seq<T>, sqn: seq<T>, amf: seq<T>)
    requires CipherLaws(c) && |key| == |opc| == |rand| == 16 && |sqn| == 6 && |amf| == 2
    ensures Milenage.Out1(c, key, opc, rand, sqn, amf) == Out1(c, key, opc, rand, sqn, amf)
  {
    var turned, t := Left(Sums(c.g, In1(sqn, amf), opc), 8), Temp(c, key, opc, rand);
    In1Is(sqn, amf);
    TempIs(c, key, opc, rand);
    LeftIs(Sums(c.g, In1(sqn, amf), opc), 8);
    SumsSwap(c.g, turned, t);
    EncryptedIsStandard(c, key, Sums(c.g, Sums(c.g, t, turned), Constant(c.g, c.g.zero)));
  }

  lemma SumsSwap<T(!new)>(g: Group<T>, x: seq<T>, y: seq<T>)
    requires Laws(g) && |x| == |y| == 16
    ensures Sums(g, x, y) == Sums(g, Sums(g, y, x), Constant(g, g.zero))
  {
    forall i | 0 <= i < 16 ensures g.add(x[i], y[i]) == g.add(g.add(y[i], x[i]), Constant(g, g.zero)[i]) {
      assert CommAt(g, x[i], y[i]) && SelfAt(g, g.add(y[i], x[i]));
    }
  }

  /** Different constants give different blocks. */
  lemma ConstantMatters<T(!new)>(c: Cipher<T>, key: seq<T>, opc: seq<T>, rand: seq<T>, r: nat, w: T, w': T)
    requires CipherLaws(c) && |key| == |opc| == |rand| == 16 && r <= 16
    ensures Milenage.OutBlock(c, key, opc, rand, r, w) == Milenage.OutBlock(c, key, opc, rand, r, w') <==> w == w'
  {
    var x := Milenage.Rotated(Sums(c.g, Milenage.Temp(c, key, opc, rand), opc), r);
    var xw, xw' := x[15 := c.g.add(x[15], w)], x[15 := c.g.add(x[15], w')];
    Milenage.SumsInjective(c.g, Milenage.E(c, key, xw), Milenage.E(c, key, xw'), opc);
    Milenage.EInjective(c, key, xw, xw');
    if xw == xw' {
      assert xw[15] == xw'[15];
      assert CommAt(c.g, x[15], w) && CommAt(c.g, x[15], w');
      Peel(c.g, w, x[15]);
      Peel(c.g, w', x[15]);
    }
  }
}
