/** Rijndael and Milenage on the source's bytes and tables. */
module RijndaelBytes {
  import opened XorAlgebra
  import opened MixColumn
  import opened SBoxes
  import opened Words
  import opened Rijndael
  import opened RijndaelState
  import opened RijndaelStandard
  import opened Gf256
  import Snow3g
  import Milenage
  import Std = MilenageStandard
  import opened Liblte

  const RIJNDAEL := Cipher(BYTES, XTime, S, SInv, 1)

  lemma XTimeAdds(x: bv8, y: bv8)
    ensures AddsAt(BYTES, XTime, x, y)
  {
    TimesLinear(0x1B);
    assert AddsAt(BYTES, Times(0x1B), x, y);
    XTimeIsMulX(x);
    XTimeIsMulX(y);
    XTimeIsMulX(Xor8(x, y));
  }

  lemma RijndaelIsLawful()
    ensures CipherLaws(RIJNDAEL)
  {
    XorLaws();
    forall x, y ensures AddsAt(BYTES, XTime, x, y) {
      XTimeAdds(x, y);
    }
    forall x ensures BoxAt(RIJNDAEL, x) {
      SBijective(x);
    }
  }

  /** The column mixing by table is the product with the matrix 2, 3, 1, 1 in the field of Rijndael. */
  lemma MixColumnIsMatrix(x: Column<bv8>)
    ensures Mix(BYTES, XTime, x) == Circulant(BYTES, Times(0x1B), x)
  {
    MixIsTimes(x);
    XorLaws();
    TimesLinear(0x1B);
    MixIsCirculant(BYTES, Times(0x1B), x);
  }

  lemma MixIsTimes(x: Column<bv8>)
    ensures Mix(BYTES, XTime, x) == Mix(BYTES, Times(0x1B), x)
  {
    XTimeIsMulX(Xor8(x.a, x.b));
    XTimeIsMulX(Xor8(x.b, x.c));
    XTimeIsMulX(Xor8(x.c, x.d));
    XTimeIsMulX(Xor8(x.d, x.a));
  }

  /** The operations that the standard is written with are those of the source on bytes: addition is
      XOR, doubling is multiplication by x in the field of Rijndael. */
  lemma RijndaelOperators(x: bv8, y: bv8)
    ensures RIJNDAEL.g.add(x, y) == x ^ y && RIJNDAEL.double(x) == MulX(x, 0x1B)
    ensures RIJNDAEL.s(x) == S(x) && RIJNDAEL.one == 1
  {
    XTimeIsMulX(x);
  }

  /** The round constants are the powers of x. */
  lemma {:induction false} RoundConstantIsPower(i: nat)
    requires 1 <= i
    ensures RoundConstant(RIJNDAEL, i) == MulXPow(1, i - 1, 0x1B)
  {
    if i > 1 {
      RoundConstantIsPower(i - 1);
      XTimeIsMulX(RoundConstant(RIJNDAEL, i - 1));
    }
  }

  /** The source's encryption is that of FIPS 197, for every key and block. */
  lemma EncryptIsAes(key: seq<bv8>, x: seq<bv8>)
    requires |key| == |x| == 16
    ensures Milenage.E(RIJNDAEL, key, x) == Aes(RIJNDAEL, key, x)
  {
    RijndaelIsLawful();
    EncryptedIsStandard(RIJNDAEL, key, x);
  }

  /** Under any key, the source's encryption is a bijection on blocks of sixteen octets. */
  lemma EncryptIsBijection(key: seq<bv8>, x: Block<bv8>)
    requires |key| == 16
    ensures var ks := Schedule(RIJNDAEL, BlockOf(key));
            Decrypted(RIJNDAEL, ks, Encrypted(RIJNDAEL, ks, x)) == x
            && Encrypted(RIJNDAEL, ks, Decrypted(RIJNDAEL, ks, x)) == x
  {
    RijndaelIsLawful();
    EncryptBijective(RIJNDAEL, Schedule(RIJNDAEL, BlockOf(key)), x);
  }

  /** Equal round keys at any one round come from equal keys. */
  lemma RoundKeyDetermines(key: seq<bv8>, other: seq<bv8>, i: nat)
    requires |key| == |other| == 16 && i <= ROUNDS
    ensures RoundKey(RIJNDAEL, BlockOf(key), i) == RoundKey(RIJNDAEL, BlockOf(other), i) <==> key == other
  {
    RijndaelIsLawful();
    RoundKeyInjective(RIJNDAEL, BlockOf(key), BlockOf(other), i);
    FlatBlock(key, BlockOf(key));
    FlatBlock(other, BlockOf(other));
  }

  /** The two authentication codes determine the sequence number and the management field. */
  lemma CodesDetermine(key: seq<bv8>, opc: seq<bv8>, rand: seq<bv8>,
                       sqn: seq<bv8>, amf: seq<bv8>, sqn': seq<bv8>, amf': seq<bv8>)
    requires |key| == |opc| == |rand| == 16 && |sqn| == |sqn'| == 6 && |amf| == |amf'| == 2
    ensures Milenage.Out1(RIJNDAEL, key, opc, rand, sqn, amf) == Milenage.Out1(RIJNDAEL, key, opc, rand, sqn', amf')
            <==> sqn == sqn' && amf == amf'
  {
    RijndaelIsLawful();
    Milenage.MacsDetermine(RIJNDAEL, key, opc, rand, sqn, amf, sqn', amf');
  }

  /** The confidentiality key determines the challenge. */
  lemma ConfidentialityKeyDetermines(key: seq<bv8>, opc: seq<bv8>, rand: seq<bv8>, rand': seq<bv8>)
    requires |key| == |opc| == |rand| == |rand'| == 16
    ensures Milenage.OutBlock(RIJNDAEL, key, opc, rand, 12, 2) == Milenage.OutBlock(RIJNDAEL, key, opc, rand', 12, 2)
            <==> rand == rand'
  {
    RijndaelIsLawful();
    Milenage.BlockDetermines(RIJNDAEL, key, opc, rand, rand', 12, 2);
  }

  /** `s3g_s1` is a byte substitution and a column mixing of Rijndael on the bytes in reverse. */
  lemma S1IsSubAndMix(w: bv32)
    ensures Snow3g.Turned(Split(Snow3g.S1(w))) == Mix(BYTES, XTime, Each(S, Snow3g.Turned(Split(w))))
  {
    Snow3g.S1IsRijndael(w);
    MixIsTimes(Each(S, Snow3g.Turned(Split(w))));
  }

  // ---- The Milenage functions of the source

  lemma CodesAreStandard(key: seq<bv8>, opc: seq<bv8>, rand: seq<bv8>, sqn: seq<bv8>, amf: seq<bv8>)
    requires |key| == |opc| == |rand| == 16 && |sqn| == 6 && |amf| == 2
    ensures Milenage.Out1(RIJNDAEL, key, opc, rand, sqn, amf) == Std.Out1(RIJNDAEL, key, opc, rand, sqn, amf)
  {
    RijndaelIsLawful();
    Std.Out1IsStandard(RIJNDAEL, key, opc, rand, sqn, amf);
  }

  lemma OneTwoFour()
    ensures RIJNDAEL.double(1) == 2 && RIJNDAEL.double(2) == 4
  {
    RijndaelOperators(1, 0);
    RijndaelOperators(2, 0);
  }

  lemma BlocksAreStandard(key: seq<bv8>, opc: seq<bv8>, rand: seq<bv8>)
    requires |key| == |opc| == |rand| == 16
    ensures Milenage.OutBlock(RIJNDAEL, key, opc, rand, 0, 1) == Std.Out2(RIJNDAEL, key, opc, rand)
    ensures Milenage.OutBlock(RIJNDAEL, key, opc, rand, 12, 2) == Std.Out3(RIJNDAEL, key, opc, rand)
    ensures Milenage.OutBlock(RIJNDAEL, key, opc, rand, 8, 4) == Std.Out4(RIJNDAEL, key, opc, rand)
  {
    RijndaelIsLawful();
    OneTwoFour();
    Std.FullTurn(RIJNDAEL, key, opc, rand, 1);
    Std.OutBlockIsStandard(RIJNDAEL, key, opc, rand, 0, 1);
    Std.OutBlockIsStandard(RIJNDAEL, key, opc, rand, 4, 2);
    Std.OutBlockIsStandard(RIJNDAEL, key, opc, rand, 8, 4);
  }

  /** `liblte_security_milenage_f1`: MAC-A of the standard. */
  method F1(k: array?<bv8>, opc: array?<bv8>, rand: array?<bv8>, sqn: array?<bv8>, amf: array?<bv8>, macA: array?<bv8>)
    returns (err: Status)
    requires k != null ==> k.Length >= 16
    requires opc != null ==> opc.Length >= 16
    requires rand != null ==> rand.Length >= 16
    requires sqn != null ==> sqn.Length >= 6
    requires amf != null ==> amf.Length >= 2
    requires macA != null ==> macA.Length >= 8
    modifies macA
    ensures err == if k == null || opc == null || rand == null || sqn == null || amf == null || macA == null
                   then INVALID_INPUTS else SUCCESS
    ensures macA != null && err != SUCCESS ==> macA[..] == old(macA[..])
    ensures err == SUCCESS ==>
      macA[..] == Replaced(old(macA[..]),
                           old(Std.Out1(RIJNDAEL, k[..16], opc[..16], rand[..16], sqn[..6], amf[..2]))[0..8])
  {
    if k != null && opc != null && rand != null && sqn != null && amf != null {
      CodesAreStandard(k[..16], opc[..16], rand[..16], sqn[..6], amf[..2]);
    }
    err := Milenage.F1(RIJNDAEL, k, opc, rand, sqn, amf, macA);
  }

  /** `liblte_security_milenage_f1_star`: MAC-S of the standard. */
  method F1Star(k: array?<bv8>, opc: array?<bv8>, rand: array?<bv8>, sqn: array?<bv8>, amf: array?<bv8>,
                macS: array?<bv8>)
    returns (err: Status)
    requires k != null ==> k.Length >= 16
    requires opc != null ==> opc.Length >= 16
    requires rand != null ==> rand.Length >= 16
    requires sqn != null ==> sqn.Length >= 6
    requires amf != null ==> amf.Length >= 2
    requires macS != null ==> macS.Length >= 8
    modifies macS
    ensures err == if k == null || opc == null || rand == null || sqn == null || amf == null || macS == null
                   then INVALID_INPUTS else SUCCESS
    ensures macS != null && err != SUCCESS ==> macS[..] == old(macS[..])
    ensures err == SUCCESS ==>
      macS[..] == Replaced(old(macS[..]),
                           old(Std.Out1(RIJNDAEL, k[..16], opc[..16], rand[..16], sqn[..6], amf[..2]))[8..16])
  {
    if k != null && opc != null && rand != null && sqn != null && amf != null {
      CodesAreStandard(k[..16], opc[..16], rand[..16], sqn[..6], amf[..2]);
    }
    err := Milenage.F1Star(RIJNDAEL, k, opc, rand, sqn, amf, macS);
  }

  /** `liblte_security_milenage_f2345`: RES, CK, IK and AK of the standard. */
  method F2345(k: array?<bv8>, opc: array?<bv8>, rand: array?<bv8>,
               res: array?<bv8>, ck: array?<bv8>, ik: array?<bv8>, ak: array?<bv8>)
    returns (err: Status)
    requires k != null ==> k.Length >= 16
    requires opc != null ==> opc.Length >= 16 && opc !in {res, ck, ik, ak}
    requires rand != null ==> rand.Length >= 16
    requires res != null ==> res.Length >= 8 && res !in {ck, ik, ak}
    requires ck != null ==> ck.Length >= 16 && ck !in {ik, ak}
    requires ik != null ==> ik.Length >= 16 && ik != ak
    requires ak != null ==> ak.Length >= 6
    modifies res, ck, ik, ak
    ensures err == if k == null || opc == null || rand == null || res == null || ck == null || ik == null || ak == null
                   then INVALID_INPUTS else SUCCESS
    ensures err != SUCCESS ==> forall x: array<bv8> | x in {res, ck, ik, ak} :: x[..] == old(x[..])
    ensures err == SUCCESS ==>
      && res[..] == Replaced(old(res[..]), old(Std.Out2(RIJNDAEL, k[..16], opc[..16], rand[..16]))[8..])
      && ak[..] == Replaced(old(ak[..]), old(Std.Out2(RIJNDAEL, k[..16], opc[..16], rand[..16]))[..6])
      && ck[..] == Replaced(old(ck[..]), old(Std.Out3(RIJNDAEL, k[..16], opc[..16], rand[..16])))
      && ik[..] == Replaced(old(ik[..]), old(Std.Out4(RIJNDAEL, k[..16], opc[..16], rand[..16])))
  {
    if k != null && opc != null && rand != null {
      BlocksAreStandard(k[..16], opc[..16], rand[..16]);
    }
    err := Milenage.F2345(RIJNDAEL, 1, 2, 4, k, opc, rand, res, ck, ik, ak);
  }
}
