/** Milenage on Rijndael (liblte_security.cc, lines 1101 to 1360; 3GPP TS 35.206, section 4.1).

    All functions encrypt twice with the same round keys; each returns parts of blocks that the
    input determines and that determine the input. */
module Milenage {
  import opened XorAlgebra
  import opened Rijndael
  import opened RijndaelState
  import opened Liblte

  // ---- The functions on octets

  /** Encryption of sixteen octets under a key of sixteen. */
  function E<T>(c: Cipher<T>, key: seq<T>, x: seq<T>): (y: seq<T>)
    requires |key| == |x| == 16
    ensures |y| == 16
  {
    Flat(Encrypted(c, Schedule(c, BlockOf(key)), BlockOf(x)))
  }

  lemma EInjective<T(!new)>(c: Cipher<T>, key: seq<T>, x: seq<T>, y: seq<T>)
    requires CipherLaws(c) && |key| == |x| == |y| == 16
    ensures E(c, key, x) == E(c, key, y) <==> x == y
  {
    var ks := Schedule(c, BlockOf(key));
    FlatBlock(x, Encrypted(c, ks, BlockOf(x)));
    FlatBlock(y, Encrypted(c, ks, BlockOf(y)));
    EncryptBijective(c, ks, BlockOf(x));
    EncryptBijective(c, ks, BlockOf(y));
  }

  function Temp<T>(c: Cipher<T>, key: seq<T>, opc: seq<T>, rand: seq<T>): (t: seq<T>)
    requires |key| == |opc| == |rand| == 16
    ensures |t| == 16
  {
    E(c, key, Sums(c.g, rand, opc))
  }

  /** Octet i of x moves to position (i + r) % 16. */
  function Rotated<T>(x: seq<T>, r: nat): (y: seq<T>)
    requires |x| == 16 && r <= 16
    ensures |y| == 16
  {
    x[16 - r..] + x[..16 - r]
  }

  function In1<T>(sqn: seq<T>, amf: seq<T>): (x: seq<T>)
    requires |sqn| == 6 && |amf| == 2
    ensures |x| == 16
  {
    sqn + amf + sqn + amf
  }

  /** The block that f1 and f1* both compute. */
  function Out1<T>(c: Cipher<T>, key: seq<T>, opc: seq<T>, rand: seq<T>, sqn: seq<T>, amf: seq<T>): (x: seq<T>)
    requires |key| == |opc| == |rand| == 16 && |sqn| == 6 && |amf| == 2
    ensures |x| == 16
  {
    Sums(c.g, E(c, key, Sums(c.g, Rotated(Sums(c.g, In1(sqn, amf), opc), 8), Temp(c, key, opc, rand))), opc)
  }

  /** The block of f2 to f5 with rotation r and the constant w in its last octet. */
  function OutBlock<T>(c: Cipher<T>, key: seq<T>, opc: seq<T>, rand: seq<T>, r: nat, w: T): (x: seq<T>)
    requires |key| == |opc| == |rand| == 16 && r <= 16
    ensures |x| == 16
  {
    var x := Rotated(Sums(c.g, Temp(c, key, opc, rand), opc), r);
    Sums(c.g, E(c, key, x[15 := c.g.add(x[15], w)]), opc)
  }

  // ---- What the outputs determine

  lemma SumsInjective<T(!new)>(g: Group<T>, x: seq<T>, y: seq<T>, z: seq<T>)
    requires Laws(g) && |x| == |y| == |z|
    ensures Sums(g, x, z) == Sums(g, y, z) <==> x == y
  {
    if Sums(g, x, z) == Sums(g, y, z) {
      forall i | 0 <= i < |x| ensures x[i] == y[i] {
        assert Sums(g, x, z)[i] == Sums(g, y, z)[i];
        Peel(g, x[i], z[i]);
        Peel(g, y[i], z[i]);
      }
    }
  }

  lemma RotatedInjective<T>(x: seq<T>, y: seq<T>, r: nat)
    requires |x| == |y| == 16 && r <= 16
    ensures Rotated(x, r) == Rotated(y, r) <==> x == y
  {
    assert x == Rotated(x, r)[r..] + Rotated(x, r)[..r];
    assert y == Rotated(y, r)[r..] + Rotated(y, r)[..r];
  }

  lemma In1Injective<T>(sqn: seq<T>, amf: seq<T>, sqn': seq<T>, amf': seq<T>)
    requires |sqn| == |sqn'| == 6 && |amf| == |amf'| == 2
    ensures In1(sqn, amf) == In1(sqn', amf') <==> sqn == sqn' && amf == amf'
  {
    assert sqn == In1(sqn, amf)[..6] && sqn' == In1(sqn', amf')[..6];
    assert amf == In1(sqn, amf)[6..8] && amf' == In1(sqn', amf')[6..8];
  }

  /** With key, OPc and RAND fixed, the two codes MAC-A and MAC-S together determine the sequence
      number and the management field. */
  lemma MacsDetermine<T(!new)>(c: Cipher<T>, key: seq<T>, opc: seq<T>, rand: seq<T>,
                               sqn: seq<T>, amf: seq<T>, sqn': seq<T>, amf': seq<T>)
    requires CipherLaws(c) && |key| == |opc| == |rand| == 16
    requires |sqn| == |sqn'| == 6 && |amf| == |amf'| == 2
    ensures var x, y := Out1(c, key, opc, rand, sqn, amf), Out1(c, key, opc, rand, sqn', amf');
            x[..8] == y[..8] && x[8..] == y[8..] <==> sqn == sqn' && amf == amf'
  {
    var x, y := Out1(c, key, opc, rand, sqn, amf), Out1(c, key, opc, rand, sqn', amf');
    assert x == x[..8] + x[8..] && y == y[..8] + y[8..];
    var t := Temp(c, key, opc, rand);
    var p, q := Sums(c.g, In1(sqn, amf), opc), Sums(c.g, In1(sqn', amf'), opc);
    var u, v := Sums(c.g, Rotated(p, 8), t), Sums(c.g, Rotated(q, 8), t);
    SumsInjective(c.g, E(c, key, u), E(c, key, v), opc);
    EInjective(c, key, u, v);
    SumsInjective(c.g, Rotated(p, 8), Rotated(q, 8), t);
    RotatedInjective(p, q, 8);
    SumsInjective(c.g, In1(sqn, amf), In1(sqn', amf'), opc);
    In1Injective(sqn, amf, sqn', amf');
  }

  lemma TweakInjective<T(!new)>(g: Group<T>, x: seq<T>, y: seq<T>, w: T)
    requires Laws(g) && |x| == |y| == 16
    ensures x[15 := g.add(x[15], w)] == y[15 := g.add(y[15], w)] <==> x == y
  {
    var xw, yw := x[15 := g.add(x[15], w)], y[15 := g.add(y[15], w)];
    if xw == yw {
      assert xw[15] == yw[15] && xw[..15] == x[..15] && yw[..15] == y[..15];
      Peel(g, x[15], w);
      Peel(g, y[15], w);
      assert x == x[..15] + [x[15]] && y == y[..15] + [y[15]];
    }
  }

  /** With key and OPc fixed, the confidentiality key determines the challenge, and so does the
      integrity key: each is a bijective function of RAND. */
  lemma BlockDetermines<T(!new)>(c: Cipher<T>, key: seq<T>, opc: seq<T>, rand: seq<T>, rand': seq<T>, r: nat, w: T)
    requires CipherLaws(c) && |key| == |opc| == |rand| == |rand'| == 16 && r <= 16
    ensures OutBlock(c, key, opc, rand, r, w) == OutBlock(c, key, opc, rand', r, w) <==> rand == rand'
  {
    var t, t' := Temp(c, key, opc, rand), Temp(c, key, opc, rand');
    var x, y := Rotated(Sums(c.g, t, opc), r), Rotated(Sums(c.g, t', opc), r);
    var xw, yw := x[15 := c.g.add(x[15], w)], y[15 := c.g.add(y[15], w)];
    SumsInjective(c.g, E(c, key, xw), E(c, key, yw), opc);
    EInjective(c, key, xw, yw);
    TweakInjective(c.g, x, y, w);
    RotatedInjective(Sums(c.g, t, opc), Sums(c.g, t', opc), r);
    SumsInjective(c.g, t, t', opc);
    EInjective(c, key, Sums(c.g, rand, opc), Sums(c.g, rand', opc));
    SumsInjective(c.g, rand, rand', opc);
  }

  // ---- The methods

  /** `out[(i + r) % 16] = x[i] ^ y[i]` for i from 0 to 15 */
  method SumRotated<T>(g: Group<T>, x: array<T>, y: array<T>, r: nat, out: array<T>)
    requires x.Length >= 16 && y.Length >= 16 && out.Length == 16 && r < 16 && out != x && out != y
    modifies out
    ensures out[..] == Rotated(Sums(g, x[..16], y[..16]), r)
  {
    for i := 0 to 16
      invariant forall k | 0 <= k < i :: out[Slot(k, r)] == g.add(x[k], y[k])
    {
      SlotsDiffer(i, r);
      out[Slot(i, r)] := g.add(x[i], y[i]);
    }
    RotatedAt(Sums(g, x[..16], y[..16]), out[..], r);
  }

  function Slot(i: nat, r: nat): (j: nat)
    ensures j < 16
  {
    (i + r) % 16
  }

  lemma SlotsDiffer(i: nat, r: nat)
    requires i < 16 && r < 16
    ensures forall k | 0 <= k < i :: Slot(k, r) != Slot(i, r)
  {
  }

  lemma RotatedAt<T>(x: seq<T>, out: seq<T>, r: nat)
    requires |x| == |out| == 16 && r < 16 && forall k | 0 <= k < 16 :: out[Slot(k, r)] == x[k]
    ensures out == Rotated(x, r)
  {
    forall j | 0 <= j < 16 ensures out[j] == Rotated(x, r)[j] {
      var k := if j >= r then j - r else j + 16 - r;
      assert Slot(k, r) == j;
    }
  }

  /** `out[i] ^= x[i]` for i from 0 to 15 */
  method AddTo<T>(g: Group<T>, out: array<T>, x: array<T>)
    requires x.Length >= 16 && out.Length == 16 && out != x
    modifies out
    ensures out[..] == Sums(g, old(out[..]), x[..16])
  {
    for i := 0 to 16
      invariant forall k | 0 <= k < 16 :: out[k] == if k < i then g.add(old(out[k]), x[k]) else old(out[k])
    {
      out[i] := g.add(out[i], x[i]);
    }
  }

  method ConstructIn1<T>(sqn: array<T>, amf: array<T>, in1: array<T>)
    requires sqn.Length >= 6 && amf.Length >= 2 && in1.Length == 16 && in1 != sqn && in1 != amf
    modifies in1
    ensures in1[..] == In1(sqn[..6], amf[..2])
  {
    for i := 0 to 6
      invariant in1[..i] == sqn[..i] && in1[8..8 + i] == sqn[..i]
    {
      in1[i] := sqn[i];
      in1[i + 8] := sqn[i];
    }
    for i := 0 to 2
      invariant in1[..6] == sqn[..6] && in1[8..14] == sqn[..6]
      invariant in1[6..6 + i] == amf[..i] && in1[14..14 + i] == amf[..i]
    {
      in1[i + 6] := amf[i];
      in1[i + 14] := amf[i];
    }
    assert in1[..] == in1[..6] + in1[6..8] + in1[8..14] + in1[14..16];
  }

  /** `rijndael_encrypt` on whole buffers, with the round keys of a key. */
  method EncryptBlock<T(0)>(c: Cipher<T>, input: array<T>, rk: array3<T>, output: array<T>, ghost key: seq<T>)
    requires input.Length == output.Length == 16 && IsTable(rk) && |key| == 16
    requires KeysIn(rk) == Schedule(c, BlockOf(key))
    modifies output
    ensures output[..] == E(c, key, old(input[..]))
  {
    assert input[..16] == input[..];
    Encrypt(c, input, rk, output);
    assert output[..16] == output[..];
  }

  /** The common part: the round keys and TEMP. */
  method Begin<T(0)>(c: Cipher<T>, k: array<T>, opc: array<T>, rand: array<T>)
    returns (rk: array3<T>, temp: array<T>, input: array<T>)
    requires k.Length >= 16 && opc.Length >= 16 && rand.Length >= 16
    ensures fresh(rk) && fresh(temp) && fresh(input) && IsTable(rk) && temp.Length == input.Length == 16
    ensures temp != input && KeysIn(rk) == Schedule(c, BlockOf(k[..16]))
    ensures temp[..] == Temp(c, k[..16], opc[..16], rand[..16])
  {
    rk := new T[11, 4, 4];
    KeySchedule(c, k, rk);
    input := new T[16];
    temp := new T[16];
    SumRotated(c.g, rand, opc, 0, input);
    RotatedZero(Sums(c.g, rand[..16], opc[..16]));
    EncryptBlock(c, input, rk, temp, k[..16]);
  }

  lemma RotatedZero<T>(x: seq<T>)
    requires |x| == 16
    ensures Rotated(x, 0) == x
  {
  }

  /** The block of f1 and f1*. */
  method ComputeOut1<T(0)>(c: Cipher<T>, k: array<T>, opc: array<T>, rand: array<T>, sqn: array<T>, amf: array<T>)
    returns (out1: array<T>)
    requires k.Length >= 16 && opc.Length >= 16 && rand.Length >= 16 && sqn.Length >= 6 && amf.Length >= 2
    ensures fresh(out1) && out1.Length == 16
    ensures out1[..] == Out1(c, k[..16], opc[..16], rand[..16], sqn[..6], amf[..2])
  {
    var rk, temp, input := Begin(c, k, opc, rand);
    var in1 := new T[16];
    ConstructIn1(sqn, amf, in1);
    out1 := FinishOut1(c, rk, temp, in1, opc, input, k[..16]);
  }

  method FinishOut1<T(0)>(c: Cipher<T>, rk: array3<T>, temp: array<T>, in1: array<T>, opc: array<T>, input: array<T>,
                          ghost key: seq<T>)
    returns (out1: array<T>)
    requires IsTable(rk) && temp.Length == in1.Length == input.Length == 16 && opc.Length >= 16 && |key| == 16
    requires KeysIn(rk) == Schedule(c, BlockOf(key)) && input !in {temp, in1, opc}
    modifies input
    ensures fresh(out1) && out1.Length == 16
    ensures out1[..] == Sums(c.g, E(c, key, Sums(c.g, Rotated(Sums(c.g, in1[..], opc[..16]), 8), temp[..])), opc[..16])
  {
    assert in1[..16] == in1[..] && temp[..16] == temp[..];
    SumRotated(c.g, in1, opc, 8, input);
    AddTo(c.g, input, temp);
    out1 := new T[16];
    EncryptBlock(c, input, rk, out1, key);
    AddTo(c.g, out1, opc);
  }

  /** Half of that block to the caller's buffer. */
  method ReturnHalf<T(0)>(c: Cipher<T>, k: array<T>, opc: array<T>, rand: array<T>, sqn: array<T>, amf: array<T>,
                          start: nat, mac: array<T>)
    requires k.Length >= 16 && opc.Length >= 16 && rand.Length >= 16 && sqn.Length >= 6 && amf.Length >= 2
    requires mac.Length >= 8 && start <= 8
    modifies mac
    ensures mac[..] == Replaced(old(mac[..]),
        old(Out1(c, k[..16], opc[..16], rand[..16], sqn[..6], amf[..2]))[start..start + 8])
  {
    ghost var was, block := mac[..], Out1(c, k[..16], opc[..16], rand[..16], sqn[..6], amf[..2]);
    var out1 := ComputeOut1(c, k, opc, rand, sqn, amf);
    assert out1[start..start + 8] == block[start..start + 8];
    Copy(out1, start, 8, mac);
    assert mac[..] == Replaced(was, block[start..start + 8]);
  }

  /** `liblte_security_milenage_f1` */
  method F1<T(0)>(c: Cipher<T>, k: array?<T>, opc: array?<T>, rand: array?<T>, sqn: array?<T>, amf: array?<T>,
                  macA: array?<T>)
    returns (err: Status)
    requires k != null ==> k.Length >= 16
    requires opc != null ==> opc.Length >= 16
    requires rand != null ==> rand.Length >= 16
    requires sqn != null ==> sqn.Length >= 6
    requires amf != null ==> amf.Length >= 2
    requires macA != null ==> macA.Length >= 8
    modifies macA
    ensures err == if k == null || opc == null || rand == null || sqn == null || amf == null || macA == null
                   then INVALID_INPUTS else SUCCESS
    ensures macA != null && err != SUCCESS ==> macA[..] == old(macA[..])
    ensures err == SUCCESS ==>
      macA[..] == Replaced(old(macA[..]), old(Out1(c, k[..16], opc[..16], rand[..16], sqn[..6], amf[..2]))[0..8])
  {
    err := INVALID_INPUTS;
    if k != null && opc != null && rand != null && sqn != null && amf != null && macA != null {
      ReturnHalf(c, k, opc, rand, sqn, amf, 0, macA);
      err := SUCCESS;
    }
  }

  /** `liblte_security_milenage_f1_star` */
  method F1Star<T(0)>(c: Cipher<T>, k: array?<T>, opc: array?<T>, rand: array?<T>, sqn: array?<T>, amf: array?<T>,
                      macS: array?<T>)
    returns (err: Status)
    requires k != null ==> k.Length >= 16
    requires opc != null ==> opc.Length >= 16
    requires rand != null ==> rand.Length >= 16
    requires sqn != null ==> sqn.Length >= 6
    requires amf != null ==> amf.Length >= 2
    requires macS != null ==> macS.Length >= 8
    modifies macS
    ensures err == if k == null || opc == null || rand == null || sqn == null || amf == null || macS == null
                   then INVALID_INPUTS else SUCCESS
    ensures macS != null && err != SUCCESS ==> macS[..] == old(macS[..])
    ensures err == SUCCESS ==>
      macS[..] == Replaced(old(macS[..]), old(Out1(c, k[..16], opc[..16], rand[..16], sqn[..6], amf[..2]))[8..16])
  {
    err := INVALID_INPUTS;
    if k != null && opc != null && rand != null && sqn != null && amf != null && macS != null {
      ReturnHalf(c, k, opc, rand, sqn, amf, 8, macS);
      err := SUCCESS;
    }
  }

  /** One of the blocks of f2 to f5. */
  method ComputeBlock<T(0)>(c: Cipher<T>, rk: array3<T>, temp: array<T>, opc: array<T>, r: nat, w: T,
                            ghost key: seq<T>, ghost rand: seq<T>)
    returns (out: array<T>)
    requires IsTable(rk) && temp.Length == 16 && opc.Length >= 16 && r < 16 && |key| == |rand| == 16
    requires KeysIn(rk) == Schedule(c, BlockOf(key)) && temp[..] == Temp(c, key, opc[..16], rand)
    ensures fresh(out) && out.Length == 16 && out[..] == OutBlock(c, key, opc[..16], rand, r, w)
  {
    var input := new T[16];
    assert temp[..16] == temp[..];
    SumRotated(c.g, temp, opc, r, input);
    input[15] := c.g.add(input[15], w);
    out := new T[16];
    EncryptBlock(c, input, rk, out, key);
    AddTo(c.g, out, opc);
  }

  method ResponseAndAk<T(0)>(c: Cipher<T>, rk: array3<T>, temp: array<T>, opc: array<T>, w: T,
                             res: array<T>, ak: array<T>, ghost key: seq<T>, ghost rand: seq<T>)
    requires IsTable(rk) && temp.Length == 16 && opc.Length >= 16 && |key| == |rand| == 16
    requires res.Length >= 8 && ak.Length >= 6 && res != ak
    requires KeysIn(rk) == Schedule(c, BlockOf(key)) && temp[..] == Temp(c, key, opc[..16], rand)
    modifies res, ak
    ensures res[..] == Replaced(old(res[..]), OutBlock(c, key, old(opc[..16]), rand, 0, w)[8..])
    ensures ak[..] == Replaced(old(ak[..]), OutBlock(c, key, old(opc[..16]), rand, 0, w)[..6])
  {
    ghost var block := OutBlock(c, key, opc[..16], rand, 0, w);
    var out := ComputeBlock(c, rk, temp, opc, 0, w, key, rand);
    assert out[8..16] == block[8..] && out[0..6] == block[..6];
    Copy(out, 8, 8, res);
    Copy(out, 0, 6, ak);
  }

  method KeysTo<T(0)>(c: Cipher<T>, rk: array3<T>, temp: array<T>, opc: array<T>, w2: T, w4: T,
                      ck: array<T>, ik: array<T>, ghost key: seq<T>, ghost rand: seq<T>)
    requires IsTable(rk) && temp.Length == 16 && opc.Length >= 16 && |key| == |rand| == 16
    requires ck.Length >= 16 && ik.Length >= 16 && ck != ik && ck !in {opc, temp}
    requires KeysIn(rk) == Schedule(c, BlockOf(key)) && temp[..] == Temp(c, key, opc[..16], rand)
    modifies ck, ik
    ensures ck[..] == Replaced(old(ck[..]), OutBlock(c, key, old(opc[..16]), rand, 12, w2))
    ensures ik[..] == Replaced(old(ik[..]), OutBlock(c, key, old(opc[..16]), rand, 8, w4))
  {
    ghost var op := opc[..16];
    BlockTo(c, rk, temp, opc, 12, w2, ck, key, rand);
    assert opc[..16] == op;
    BlockTo(c, rk, temp, opc, 8, w4, ik, key, rand);
  }

  method BlockTo<T(0)>(c: Cipher<T>, rk: array3<T>, temp: array<T>, opc: array<T>, r: nat, w: T, to: array<T>,
                       ghost key: seq<T>, ghost rand: seq<T>)
    requires IsTable(rk) && temp.Length == 16 && opc.Length >= 16 && r < 16 && |key| == |rand| == 16
    requires KeysIn(rk) == Schedule(c, BlockOf(key)) && temp[..] == Temp(c, key, opc[..16], rand)
    requires to.Length >= 16
    modifies to
    ensures to[..] == Replaced(old(to[..]), OutBlock(c, key, old(opc[..16]), rand, r, w))
  {
    var out := ComputeBlock(c, rk, temp, opc, r, w, key, rand);
    assert out[0..16] == out[..];
    Copy(out, 0, 16, to);
  }

  method ResponseAndKeys<T(0)>(c: Cipher<T>, k: array<T>, opc: array<T>, rand: array<T>, w1: T, w2: T, w4: T,
                               res: array<T>, ck: array<T>, ik: array<T>, ak: array<T>)
    requires k.Length >= 16 && opc.Length >= 16 && rand.Length >= 16
    requires res.Length >= 8 && ck.Length >= 16 && ik.Length >= 16 && ak.Length >= 6
    requires opc !in {res, ck, ik, ak} && res !in {ck, ik, ak} && ck !in {ik, ak} && ik != ak
    modifies res, ck, ik, ak
    ensures res[..] == Replaced(old(res[..]), old(OutBlock(c, k[..16], opc[..16], rand[..16], 0, w1))[8..])
    ensures ak[..] == Replaced(old(ak[..]), old(OutBlock(c, k[..16], opc[..16], rand[..16], 0, w1))[..6])
    ensures ck[..] == Replaced(old(ck[..]), old(OutBlock(c, k[..16], opc[..16], rand[..16], 12, w2)))
    ensures ik[..] == Replaced(old(ik[..]), old(OutBlock(c, k[..16], opc[..16], rand[..16], 8, w4)))
  {
    ghost var key, challenge, op := k[..16], rand[..16], opc[..16];
    var rk, temp, _ := Begin(c, k, opc, rand);
    ResponseAndAk(c, rk, temp, opc, w1, res, ak, key, challenge);
    assert opc[..16] == op;
    KeysTo(c, rk, temp, opc, w2, w4, ck, ik, key, challenge);
  }

  /** `liblte_security_milenage_f2345`, for output buffers that do not overlap; the constants w1, w2
      and w4 are the octets 1, 2 and 4. */
  method F2345<T(0)>(c: Cipher<T>, w1: T, w2: T, w4: T, k: array?<T>, opc: array?<T>, rand: array?<T>,
                     res: array?<T>, ck: array?<T>, ik: array?<T>, ak: array?<T>)
    returns (err: Status)
    requires k != null ==> k.Length >= 16
    requires opc != null ==> opc.Length >= 16 && opc !in {res, ck, ik, ak}
    requires rand != null ==> rand.Length >= 16
    requires res != null ==> res.Length >= 8 && res !in {ck, ik, ak}
    requires ck != null ==> ck.Length >= 16 && ck !in {ik, ak}
    requires ik != null ==> ik.Length >= 16 && ik != ak
    requires ak != null ==> ak.Length >= 6
    modifies res, ck, ik, ak
    ensures err == if k == null || opc == null || rand == null || res == null || ck == null || ik == null || ak == null
                   then INVALID_INPUTS else SUCCESS
    ensures err != SUCCESS ==> forall x: array<T> | x in {res, ck, ik, ak} :: x[..] == old(x[..])
    ensures err == SUCCESS ==>
      && res[..] == Replaced(old(res[..]), old(OutBlock(c, k[..16], opc[..16], rand[..16], 0, w1))[8..])
      && ak[..] == Replaced(old(ak[..]), old(OutBlock(c, k[..16], opc[..16], rand[..16], 0, w1))[..6])
      && ck[..] == Replaced(old(ck[..]), old(OutBlock(c, k[..16], opc[..16], rand[..16], 12, w2)))
      && ik[..] == Replaced(old(ik[..]), old(OutBlock(c, k[..16], opc[..16], rand[..16], 8, w4)))
  {
    err := INVALID_INPUTS;
    if k != null && opc != null && rand != null && res != null && ck != null && ik != null && ak != null {
      ResponseAndKeys(c, k, opc, rand, w1, w2, w4, res, ck, ik, ak);
      err := SUCCESS;
    }
  }
}
