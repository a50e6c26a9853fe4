/** Rijndael-128 (liblte_security.cc, lines 1464 to 1650), over an abstract byte type.

    The source's methods work in place on a 4 by 4 state; each refines a function on blocks of four
    columns, and every function has an inverse. */
module Rijndael {
  import opened XorAlgebra
  import opened MixColumn
  import opened Iteration

  /** Addition and doubling of bytes, the substitution with its inverse, and the byte one. */
  datatype Cipher<!T> = Cipher(g: Group<T>, double: T -> T, s: T -> T, sInv: T -> T, one: T)

  predicate BoxAt<T(==)>(c: Cipher<T>, x: T)
  {
    c.sInv(c.s(x)) == x && c.s(c.sInv(x)) == x
  }

  ghost predicate CipherLaws<T(!new)>(c: Cipher<T>)
  {
    Laws(c.g) && Linear(c.g, c.double) && forall x :: BoxAt(c, x)
  }

  /** A state, by columns: component a of column j is row 0 of the source's column j. */
  datatype Block<T> = Block(c0: Column<T>, c1: Column<T>, c2: Column<T>, c3: Column<T>)

  // ---- The four steps of a round and their inverses

  function AddKey<T>(g: Group<T>, x: Block<T>, k: Block<T>): Block<T>
  {
    Block(Plus(g, x.c0, k.c0), Plus(g, x.c1, k.c1), Plus(g, x.c2, k.c2), Plus(g, x.c3, k.c3))
  }

  function SubBytes<T>(s: T -> T, x: Block<T>): Block<T>
  {
    Block(Each(s, x.c0), Each(s, x.c1), Each(s, x.c2), Each(s, x.c3))
  }

  /** Row r moves left by r columns. */
  function ShiftRows<T>(x: Block<T>): Block<T>
  {
    Block(Column(x.c0.a, x.c1.b, x.c2.c, x.c3.d), Column(x.c1.a, x.c2.b, x.c3.c, x.c0.d),
          Column(x.c2.a, x.c3.b, x.c0.c, x.c1.d), Column(x.c3.a, x.c0.b, x.c1.c, x.c2.d))
  }

  function UnshiftRows<T>(x: Block<T>): Block<T>
  {
    Block(Column(x.c0.a, x.c3.b, x.c2.c, x.c1.d), Column(x.c1.a, x.c0.b, x.c3.c, x.c2.d),
          Column(x.c2.a, x.c1.b, x.c0.c, x.c3.d), Column(x.c3.a, x.c2.b, x.c1.c, x.c0.d))
  }

  function MixColumns<T>(c: Cipher<T>, x: Block<T>): Block<T>
  {
    Block(Mix(c.g, c.double, x.c0), Mix(c.g, c.double, x.c1), Mix(c.g, c.double, x.c2), Mix(c.g, c.double, x.c3))
  }

  function UnmixColumns<T>(c: Cipher<T>, x: Block<T>): Block<T>
  {
    MixColumns(c, MixColumns(c, MixColumns(c, x)))
  }

  lemma AddKeyTwice<T(!new)>(g: Group<T>, x: Block<T>, k: Block<T>)
    requires Laws(g)
    ensures AddKey(g, AddKey(g, x, k), k) == x
  {
    PlusTwice(g, x.c0, k.c0);
    PlusTwice(g, x.c1, k.c1);
    PlusTwice(g, x.c2, k.c2);
    PlusTwice(g, x.c3, k.c3);
  }

  lemma PlusTwice<T(!new)>(g: Group<T>, x: Column<T>, k: Column<T>)
    requires Laws(g)
    ensures Plus(g, Plus(g, x, k), k) == x
  {
    ColumnLaws(g);
    Peel(Columns(g), x, k);
  }

  lemma SubUndone<T(!new)>(c: Cipher<T>, x: Column<T>)
    requires CipherLaws(c)
    ensures Each(c.sInv, Each(c.s, x)) == x && Each(c.s, Each(c.sInv, x)) == x
  {
    assert BoxAt(c, x.a) && BoxAt(c, x.b) && BoxAt(c, x.c) && BoxAt(c, x.d);
  }

  lemma SubBytesUndone<T(!new)>(c: Cipher<T>, x: Block<T>)
    requires CipherLaws(c)
    ensures SubBytes(c.sInv, SubBytes(c.s, x)) == x && SubBytes(c.s, SubBytes(c.sInv, x)) == x
  {
    SubUndone(c, x.c0);
    SubUndone(c, x.c1);
    SubUndone(c, x.c2);
    SubUndone(c, x.c3);
  }

  lemma ShiftRowsUndone<T>(x: Block<T>)
    ensures UnshiftRows(ShiftRows(x)) == x && ShiftRows(UnshiftRows(x)) == x
  {
  }

  /** Mixing the columns of a state four times is the identity. */
  lemma MixColumnsFour<T(!new)>(c: Cipher<T>, x: Block<T>)
    requires CipherLaws(c)
    ensures UnmixColumns(c, MixColumns(c, x)) == x && MixColumns(c, UnmixColumns(c, x)) == x
  {
    MixFour(c.g, c.double, x.c0);
    MixFour(c.g, c.double, x.c1);
    MixFour(c.g, c.double, x.c2);
    MixFour(c.g, c.double, x.c3);
  }

  // ---- Encryption

  function Round<T>(c: Cipher<T>, x: Block<T>, k: Block<T>): Block<T>
  {
    AddKey(c.g, MixColumns(c, ShiftRows(SubBytes(c.s, x))), k)
  }

  function Unround<T>(c: Cipher<T>, x: Block<T>, k: Block<T>): Block<T>
  {
    SubBytes(c.sInv, UnshiftRows(UnmixColumns(c, AddKey(c.g, x, k))))
  }

  lemma RoundUndone<T(!new)>(c: Cipher<T>, x: Block<T>, k: Block<T>)
    requires CipherLaws(c)
    ensures Unround(c, Round(c, x, k), k) == x
    ensures Round(c, Unround(c, x, k), k) == x
  {
    var y := ShiftRows(SubBytes(c.s, x));
    AddKeyTwice(c.g, MixColumns(c, y), k);
    MixColumnsFour(c, y);
    ShiftRowsUndone(SubBytes(c.s, x));
    SubBytesUndone(c, x);
    var z := UnmixColumns(c, AddKey(c.g, x, k));
    SubBytesUndone(c, UnshiftRows(z));
    ShiftRowsUndone(z);
    MixColumnsFour(c, AddKey(c.g, x, k));
    AddKeyTwice(c.g, x, k);
  }

  function RoundOf<T>(c: Cipher<T>): (Block<T>, Block<T>) -> Block<T>
  {
    (x, k) => Round(c, x, k)
  }

  function UnroundOf<T>(c: Cipher<T>): (Block<T>, Block<T>) -> Block<T>
  {
    (x, k) => Unround(c, x, k)
  }

  lemma RoundsUndone<T(!new)>(c: Cipher<T>)
    requires CipherLaws(c)
    ensures Undoing(RoundOf(c), UnroundOf(c)) && Undoing(UnroundOf(c), RoundOf(c))
  {
    forall x, k ensures UndoAt(RoundOf(c), UnroundOf(c), x, k) {
      RoundUndone(c, x, k);
    }
    forall x, k ensures UndoAt(UnroundOf(c), RoundOf(c), x, k) {
      RoundUndone(c, x, k);
    }
  }

  const ROUNDS := 10

  /** The state after round 0 and the first n full rounds. */
  function Rounds<T>(c: Cipher<T>, ks: seq<Block<T>>, x: Block<T>, n: nat): Block<T>
    requires n < |ks|
  {
    Run(RoundOf(c), ks, AddKey(c.g, x, ks[0]), n)
  }

  function Encrypted<T>(c: Cipher<T>, ks: seq<Block<T>>, x: Block<T>): Block<T>
    requires |ks| == ROUNDS + 1
  {
    AddKey(c.g, ShiftRows(SubBytes(c.s, Rounds(c, ks, x, ROUNDS - 1))), ks[ROUNDS])
  }

  function Decrypted<T>(c: Cipher<T>, ks: seq<Block<T>>, x: Block<T>): Block<T>
    requires |ks| == ROUNDS + 1
  {
    AddKey(c.g, Unrun(UnroundOf(c), ks, SubBytes(c.sInv, UnshiftRows(AddKey(c.g, x, ks[ROUNDS]))), ROUNDS - 1), ks[0])
  }

  /** Encryption with any round keys is a bijection on blocks. */
  lemma EncryptBijective<T(!new)>(c: Cipher<T>, ks: seq<Block<T>>, x: Block<T>)
    requires CipherLaws(c) && |ks| == ROUNDS + 1
    ensures Decrypted(c, ks, Encrypted(c, ks, x)) == x
    ensures Encrypted(c, ks, Decrypted(c, ks, x)) == x
  {
    var y := Rounds(c, ks, x, ROUNDS - 1);
    AddKeyTwice(c.g, ShiftRows(SubBytes(c.s, y)), ks[ROUNDS]);
    ShiftRowsUndone(SubBytes(c.s, y));
    SubBytesUndone(c, y);
    RoundsUndone(c);
    UnrunRun(RoundOf(c), UnroundOf(c), ks, AddKey(c.g, x, ks[0]), ROUNDS - 1);
    AddKeyTwice(c.g, x, ks[0]);
    EncryptReaches(c, ks, x);
  }

  lemma EncryptReaches<T(!new)>(c: Cipher<T>, ks: seq<Block<T>>, x: Block<T>)
    requires CipherLaws(c) && |ks| == ROUNDS + 1
    ensures Encrypted(c, ks, Decrypted(c, ks, x)) == x
  {
    var z := UnshiftRows(AddKey(c.g, x, ks[ROUNDS]));
    var y := Unrun(UnroundOf(c), ks, SubBytes(c.sInv, z), ROUNDS - 1);
    AddKeyTwice(c.g, y, ks[0]);
    RoundsUndone(c);
    RunUnrun(RoundOf(c), UnroundOf(c), ks, SubBytes(c.sInv, z), ROUNDS - 1);
    SubBytesUndone(c, z);
    ShiftRowsUndone(AddKey(c.g, x, ks[ROUNDS]));
    AddKeyTwice(c.g, x, ks[ROUNDS]);
  }

  // ---- The key schedule

  /** The round constants, powers of x; the one at 0 is not used. */
  function RoundConstant<T>(c: Cipher<T>, i: nat): T
  {
    if i <= 1 then c.one else c.double(RoundConstant(c, i - 1))
  }

  function RoundConstants<T>(c: Cipher<T>): (rcs: seq<T>)
    ensures |rcs| == ROUNDS + 1
  {
    seq(ROUNDS + 1, i requires 0 <= i <= ROUNDS => RoundConstant(c, i))
  }

  /** A column turned up by one row and substituted, with the round constant in the first row. */
  function Scrambled<T>(c: Cipher<T>, x: Column<T>, rc: T): Column<T>
  {
    Column(c.g.add(c.s(x.b), rc), c.s(x.c), c.s(x.d), c.s(x.a))
  }

  function ColumnAt<T>(x: Block<T>, j: nat): Column<T>
    requires j < 4
  {
    if j == 0 then x.c0 else if j == 1 then x.c1 else if j == 2 then x.c2 else x.c3
  }

  /** The recurrence of the standard on single columns: column 4 * i + j of the expanded key is the
      sum of the columns one and four before it, the one before scrambled when j is zero. */
  function ExpandedColumn<T>(c: Cipher<T>, key: Block<T>, i: nat, j: nat): Column<T>
    requires j < 4
    decreases i, j
  {
    if i == 0 then ColumnAt(key, j)
    else if j == 0
      then Plus(c.g, ExpandedColumn(c, key, i - 1, 0),
                Scrambled(c, ExpandedColumn(c, key, i - 1, 3), RoundConstant(c, i)))
      else Plus(c.g, ExpandedColumn(c, key, i - 1, j), ExpandedColumn(c, key, i, j - 1))
  }

  /** The source's form: the next round key from the previous one. */
  function NextKey<T>(c: Cipher<T>, k: Block<T>, rc: T): Block<T>
  {
    var first := Column(c.g.add(c.g.add(c.s(k.c3.b), k.c0.a), rc), c.g.add(c.s(k.c3.c), k.c0.b),
                        c.g.add(c.s(k.c3.d), k.c0.c), c.g.add(c.s(k.c3.a), k.c0.d));
    var second := Plus(c.g, k.c1, first);
    var third := Plus(c.g, k.c2, second);
    Block(first, second, third, Plus(c.g, k.c3, third))
  }

  function NextOf<T>(c: Cipher<T>): (Block<T>, T) -> Block<T>
  {
    (k, rc) => NextKey(c, k, rc)
  }

  function RoundKey<T>(c: Cipher<T>, key: Block<T>, i: nat): Block<T>
    requires i <= ROUNDS
  {
    Run(NextOf(c), RoundConstants(c), key, i)
  }

  function Schedule<T>(c: Cipher<T>, key: Block<T>): (ks: seq<Block<T>>)
    ensures |ks| == ROUNDS + 1
  {
    seq(ROUNDS + 1, i requires 0 <= i <= ROUNDS => RoundKey(c, key, i))
  }

  lemma FirstColumn<T(!new)>(c: Cipher<T>, k: Block<T>, rc: T)
    requires Laws(c.g)
    ensures NextKey(c, k, rc).c0 == Plus(c.g, k.c0, Scrambled(c, k.c3, rc))
  {
    assert CommAt(c.g, c.s(k.c3.b), k.c0.a) && AssocAt(c.g, k.c0.a, c.s(k.c3.b), rc);
    assert CommAt(c.g, c.s(k.c3.c), k.c0.b) && CommAt(c.g, c.s(k.c3.d), k.c0.c) && CommAt(c.g, c.s(k.c3.a), k.c0.d);
  }

  function ExpandedBlock<T>(c: Cipher<T>, key: Block<T>, i: nat): Block<T>
  {
    Block(ExpandedColumn(c, key, i, 0), ExpandedColumn(c, key, i, 1),
          ExpandedColumn(c, key, i, 2), ExpandedColumn(c, key, i, 3))
  }

  lemma ExpandedStep<T(!new)>(c: Cipher<T>, key: Block<T>, i: nat)
    requires Laws(c.g) && i > 0
    ensures ExpandedBlock(c, key, i) == NextKey(c, ExpandedBlock(c, key, i - 1), RoundConstant(c, i))
  {
    FirstColumn(c, ExpandedBlock(c, key, i - 1), RoundConstant(c, i));
    ExpandedNext(c, key, i, 1);
    ExpandedNext(c, key, i, 2);
    ExpandedNext(c, key, i, 3);
  }

  lemma ExpandedFirst<T>(c: Cipher<T>, key: Block<T>, i: nat)
    requires i > 0
    ensures ExpandedColumn(c, key, i, 0)
            == Plus(c.g, ExpandedColumn(c, key, i - 1, 0),
                    Scrambled(c, ExpandedColumn(c, key, i - 1, 3), RoundConstant(c, i)))
  {
  }

  lemma ExpandedNext<T>(c: Cipher<T>, key: Block<T>, i: nat, j: nat)
    requires i > 0 && 0 < j < 4
    ensures ExpandedColumn(c, key, i, j)
            == Plus(c.g, ExpandedColumn(c, key, i - 1, j), ExpandedColumn(c, key, i, j - 1))
  {
  }

  /** The source's round keys are the columns of the standard's expanded key, four at a time. */
  lemma RoundKeyIsExpandedKey<T(!new)>(c: Cipher<T>, key: Block<T>, n: nat)
    requires Laws(c.g) && n <= ROUNDS
    ensures RoundKey(c, key, n) == ExpandedBlock(c, key, n)
  {
    var path := (i: nat) => ExpandedBlock(c, key, i);
    forall i: nat | 0 < i <= n ensures StepsAt(NextOf(c), RoundConstants(c), path, i) {
      ExpandedStep(c, key, i);
    }
    RunFollows(NextOf(c), RoundConstants(c), key, path, n);
  }

  /** The round key before a given one. */
  function PriorKey<T>(c: Cipher<T>, k: Block<T>, rc: T): Block<T>
  {
    var last := Plus(c.g, k.c3, k.c2);
    Block(Plus(c.g, k.c0, Scrambled(c, last, rc)), Plus(c.g, k.c1, k.c0), Plus(c.g, k.c2, k.c1), last)
  }

  lemma PriorNext<T(!new)>(c: Cipher<T>, k: Block<T>, rc: T)
    requires Laws(c.g)
    ensures PriorKey(c, NextKey(c, k, rc), rc) == k
  {
    var n := NextKey(c, k, rc);
    PlusTwice(c.g, k.c3, n.c2);
    PlusTwice(c.g, k.c2, n.c1);
    PlusTwice(c.g, k.c1, n.c0);
    FirstColumn(c, k, rc);
    PlusTwice(c.g, k.c0, Scrambled(c, k.c3, rc));
  }

  function PriorOf<T>(c: Cipher<T>): (Block<T>, T) -> Block<T>
  {
    (k, rc) => PriorKey(c, k, rc)
  }

  /** Any one round key determines the key, and with it the whole schedule. */
  lemma RoundKeyInjective<T(!new)>(c: Cipher<T>, key: Block<T>, other: Block<T>, i: nat)
    requires Laws(c.g) && i <= ROUNDS
    ensures RoundKey(c, key, i) == RoundKey(c, other, i) <==> key == other
  {
    forall k, rc ensures UndoAt(NextOf(c), PriorOf(c), k, rc) {
      PriorNext(c, k, rc);
    }
    UnrunRun(NextOf(c), PriorOf(c), RoundConstants(c), key, i);
    UnrunRun(NextOf(c), PriorOf(c), RoundConstants(c), other, i);
  }
}
