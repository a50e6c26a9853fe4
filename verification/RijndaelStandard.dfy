/** Rijndael-128 as FIPS 197 writes it, on sequences of octets: octet r + 4c stands in row r and column c.

    Nothing of `Rijndael` but its operations on bytes is used in the definitions; `EncryptedIsStandard`
    says that the source's cipher is this one. */
module RijndaelStandard {
  import opened XorAlgebra
  import opened MixColumn
  import opened Rijndael
  import opened RijndaelState

  // ---- The cipher of the standard

  /** Section 5.1.1 */
  function SubOctets<T>(c: Cipher<T>, x: seq<T>): (y: seq<T>)
    requires |x| == 16
    ensures |y| == 16
  {
    seq(16, i requires 0 <= i < 16 => c.s(x[i]))
  }

  /** Section 5.1.2: the octet of row r and column c comes from column c + r. */
  function ShiftOctets<T>(x: seq<T>): (y: seq<T>)
    requires |x| == 16
    ensures |y| == 16
  {
    seq(16, i requires 0 <= i < 16 => x[(i + 4 * (i % 4)) % 16])
  }

  /** Section 5.1.3: each octet from those of its column, by the row 2, 3, 1, 1. */
  function MixOctets<T>(c: Cipher<T>, x: seq<T>): (y: seq<T>)
    requires |x| == 16
    ensures |y| == 16
  {
    seq(16, i requires 0 <= i < 16 => Mixed(c, x, 4 * (i / 4), i % 4))
  }

  /** Row r of the column whose octets start at `top`. */
  function Mixed<T>(c: Cipher<T>, x: seq<T>, top: nat, r: nat): T
    requires top + 4 <= |x| && r < 4
  {
    var a, b, p, q := x[top + r], x[top + (r + 1) % 4], x[top + (r + 2) % 4], x[top + (r + 3) % 4];
    c.g.add(c.g.add(c.g.add(c.double(a), c.g.add(c.double(b), b)), p), q)
  }

  /** Section 5.2: octet m of round key n.  The first column of a round key is the sum of the first and
      the last of the key before, the last turned and substituted, and a power of x in its first octet;
      the other columns are plain sums. */
  function KeyOctet<T>(c: Cipher<T>, key: seq<T>, n: nat, m: nat): T
    requires |key| == 16 && m < 16
    decreases n, m
  {
    if n == 0 then key[m]
    else if m >= 4 then c.g.add(KeyOctet(c, key, n - 1, m), KeyOctet(c, key, n, m - 4))
    else
      var sum := c.g.add(KeyOctet(c, key, n - 1, m), c.s(KeyOctet(c, key, n - 1, 12 + (m + 1) % 4)));
      if m == 0 then c.g.add(sum, Doubles(c, c.one, n - 1)) else sum
  }

  function Doubles<T>(c: Cipher<T>, x: T, n: nat): T
  {
    if n == 0 then x else c.double(Doubles(c, x, n - 1))
  }

  function KeyOctets<T>(c: Cipher<T>, key: seq<T>, n: nat): (k: seq<T>)
    requires |key| == 16
    ensures |k| == 16
  {
    seq(16, m requires 0 <= m < 16 => KeyOctet(c, key, n, m))
  }

  /** Section 5.1: the state after the initial key addition and n rounds. */
  function AfterRounds<T>(c: Cipher<T>, key: seq<T>, x: seq<T>, n: nat): (y: seq<T>)
    requires |key| == |x| == 16
    ensures |y| == 16
  {
    if n == 0 then Sums(c.g, x, KeyOctets(c, key, 0))
    else Sums(c.g, MixOctets(c, ShiftOctets(SubOctets(c, AfterRounds(c, key, x, n - 1)))), KeyOctets(c, key, n))
  }

  /** Nine rounds, and one without mixing. */
  function Aes<T>(c: Cipher<T>, key: seq<T>, x: seq<T>): (y: seq<T>)
    requires |key| == |x| == 16
    ensures |y| == 16
  {
    Sums(c.g, ShiftOctets(SubOctets(c, AfterRounds(c, key, x, 9))), KeyOctets(c, key, 10))
  }

  // ---- Blocks are read by columns

  lemma AddIs<T>(c: Cipher<T>, x: Block<T>, k: Block<T>)
    ensures Flat(AddKey(c.g, x, k)) == Sums(c.g, Flat(x), Flat(k))
  {
  }

  lemma SubIs<T>(c: Cipher<T>, x: Block<T>)
    ensures Flat(SubBytes(c.s, x)) == SubOctets(c, Flat(x))
  {
  }

  lemma ShiftedOctets<T>(s: seq<T>)
    requires |s| == 16
    ensures ShiftOctets(s) == [s[0], s[5], s[10], s[15], s[4], s[9], s[14], s[3],
                               s[8], s[13], s[2], s[7], s[12], s[1], s[6], s[11]]
  {
  }

  lemma ShiftIs<T>(x: Block<T>)
    ensures Flat(ShiftRows(x)) == ShiftOctets(Flat(x))
  {
    ShiftedOctets(Flat(x));
  }

  function Entry<T>(x: Column<T>, r: nat): T
    requires r < 4
  {
    if r == 0 then x.a else if r == 1 then x.b else if r == 2 then x.c else x.d
  }

  lemma FlatEntry<T>(x: Block<T>, j: nat, r: nat)
    requires j < 4 && r < 4
    ensures Flat(x)[4 * j + r] == Entry(ColumnAt(x, j), r)
  {
  }

  lemma RowIs<T>(g: Group<T>, f: T -> T, x: Column<T>, r: nat)
    requires r < 4
    ensures Entry(Circulant(g, f, x), r)
            == Row(g, f, Entry(x, r), Entry(x, (r + 1) % 4), Entry(x, (r + 2) % 4), Entry(x, (r + 3) % 4))
  {
  }

  lemma MixedRow<T>(c: Cipher<T>, x: Block<T>, j: nat, r: nat)
    requires j < 4 && r < 4
    ensures var y := ColumnAt(x, j);
            Mixed(c, Flat(x), 4 * j, r)
            == Row(c.g, c.double, Entry(y, r), Entry(y, (r + 1) % 4), Entry(y, (r + 2) % 4), Entry(y, (r + 3) % 4))
  {
    FlatEntry(x, j, r);
    FlatEntry(x, j, (r + 1) % 4);
    FlatEntry(x, j, (r + 2) % 4);
    FlatEntry(x, j, (r + 3) % 4);
  }

  lemma MixedEntry<T(!new)>(c: Cipher<T>, x: Column<T>, r: nat)
    requires CipherLaws(c) && r < 4
    ensures Entry(Mix(c.g, c.double, x), r)
            == Row(c.g, c.double, Entry(x, r), Entry(x, (r + 1) % 4), Entry(x, (r + 2) % 4), Entry(x, (r + 3) % 4))
  {
    MixIsCirculant(c.g, c.double, x);
    RowIs(c.g, c.double, x, r);
  }

  lemma MixedColumn<T>(c: Cipher<T>, x: Block<T>, j: nat)
    requires j < 4
    ensures ColumnAt(MixColumns(c, x), j) == Mix(c.g, c.double, ColumnAt(x, j))
  {
  }

  lemma MixAt<T(!new)>(c: Cipher<T>, x: Block<T>, j: nat, r: nat)
    requires CipherLaws(c) && j < 4 && r < 4
    ensures Flat(MixColumns(c, x))[4 * j + r] == Mixed(c, Flat(x), 4 * j, r)
  {
    MixedRow(c, x, j, r);
    FlatEntry(MixColumns(c, x), j, r);
    MixedColumn(c, x, j);
    MixedEntry(c, ColumnAt(x, j), r);
  }

  lemma MixIs<T(!new)>(c: Cipher<T>, x: Block<T>)
    requires CipherLaws(c)
    ensures Flat(MixColumns(c, x)) == MixOctets(c, Flat(x))
  {
    var y := Flat(MixColumns(c, x));
    forall i | 0 <= i < 16 ensures y[i] == Mixed(c, Flat(x), 4 * (i / 4), i % 4) {
      MixAt(c, x, i / 4, i % 4);
      assert 4 * (i / 4) + i % 4 == i;
    }
    MixOctetsAre(c, Flat(x), y);
  }

  lemma MixOctetsAre<T>(c: Cipher<T>, x: seq<T>, y: seq<T>)
    requires |x| == |y| == 16 && forall i | 0 <= i < 16 :: y[i] == Mixed(c, x, 4 * (i / 4), i % 4)
    ensures y == MixOctets(c, x)
  {
  }

  lemma RoundIs<T(!new)>(c: Cipher<T>, x: Block<T>, k: Block<T>)
    requires CipherLaws(c)
    ensures Flat(Round(c, x, k)) == Sums(c.g, MixOctets(c, ShiftOctets(SubOctets(c, Flat(x)))), Flat(k))
  {
    SubIs(c, x);
    ShiftIs(SubBytes(c.s, x));
    MixIs(c, ShiftRows(SubBytes(c.s, x)));
    AddIs(c, MixColumns(c, ShiftRows(SubBytes(c.s, x))), k);
  }

  // ---- The key schedule

  lemma {:induction false} ConstantIs<T>(c: Cipher<T>, n: nat)
    requires n > 0
    ensures RoundConstant(c, n) == Doubles(c, c.one, n - 1)
  {
    if n > 1 { ConstantIs(c, n - 1); }
  }

  /** The recurrence on columns, for any family of them. */
  predicate LaterAt<T(==)>(c: Cipher<T>, col: (nat, nat) -> Column<T>, n: nat, j: nat)
    requires n > 0 && j > 0
  {
    col(n, j) == Plus(c.g, col(n - 1, j), col(n, j - 1))
  }

  predicate FirstAt<T(==)>(c: Cipher<T>, col: (nat, nat) -> Column<T>, n: nat)
    requires n > 0
  {
    col(n, 0) == Plus(c.g, col(n - 1, 0), Scrambled(c, col(n - 1, 3), RoundConstant(c, n)))
  }

  predicate StartAt<T(==)>(key: Block<T>, col: (nat, nat) -> Column<T>, j: nat)
    requires j < 4
  {
    col(0, j) == ColumnAt(key, j)
  }

  ghost predicate ColumnLaws<T>(c: Cipher<T>, key: Block<T>, col: (nat, nat) -> Column<T>)
  {
    && (forall j: nat | j < 4 :: StartAt(key, col, j))
    && (forall n: nat, j: nat | n > 0 && 0 < j < 4 :: LaterAt(c, col, n, j))
    && (forall n: nat | n > 0 :: FirstAt(c, col, n))
  }

  lemma StartFollows<T>(c: Cipher<T>, key: Block<T>, col: (nat, nat) -> Column<T>, j: nat)
    requires j < 4 && StartAt(key, col, j)
    ensures ExpandedColumn(c, key, 0, j) == col(0, j)
  {
  }

  lemma FirstFollows<T>(c: Cipher<T>, key: Block<T>, col: (nat, nat) -> Column<T>, n: nat)
    requires n > 0 && FirstAt(c, col, n)
    requires ExpandedColumn(c, key, n - 1, 0) == col(n - 1, 0) && ExpandedColumn(c, key, n - 1, 3) == col(n - 1, 3)
    ensures ExpandedColumn(c, key, n, 0) == col(n, 0)
  {
    ExpandedFirst(c, key, n);
  }

  lemma LaterFollows<T>(c: Cipher<T>, key: Block<T>, col: (nat, nat) -> Column<T>, n: nat, j: nat)
    requires n > 0 && 0 < j < 4 && LaterAt(c, col, n, j)
    requires ExpandedColumn(c, key, n - 1, j) == col(n - 1, j) && ExpandedColumn(c, key, n, j - 1) == col(n, j - 1)
    ensures ExpandedColumn(c, key, n, j) == col(n, j)
  {
    ExpandedNext(c, key, n, j);
  }

  /** The expanded key is the only family that obeys the recurrence. */
  lemma {:induction false} ColumnsAre<T>(c: Cipher<T>, key: Block<T>, col: (nat, nat) -> Column<T>, n: nat, j: nat)
    requires ColumnLaws(c, key, col) && j < 4
    ensures ExpandedColumn(c, key, n, j) == col(n, j)
    decreases n, j
  {
    if n == 0 {
      assert StartAt(key, col, j);
      StartFollows(c, key, col, j);
    } else if j == 0 {
      ColumnsAre(c, key, col, n - 1, 0);
      ColumnsAre(c, key, col, n - 1, 3);
      assert FirstAt(c, col, n);
      FirstFollows(c, key, col, n);
    } else {
      ColumnsAre(c, key, col, n - 1, j);
      ColumnsAre(c, key, col, n, j - 1);
      assert LaterAt(c, col, n, j);
      LaterFollows(c, key, col, n, j);
    }
  }

  /** The columns of the standard's expanded key. */
  function KeyColumn<T>(c: Cipher<T>, key: seq<T>, n: nat, m: nat): Column<T>
    requires |key| == 16 && m <= 12
  {
    Column(KeyOctet(c, key, n, m), KeyOctet(c, key, n, m + 1), KeyOctet(c, key, n, m + 2), KeyOctet(c, key, n, m + 3))
  }

  function KeyColumns<T>(c: Cipher<T>, key: seq<T>): (nat, nat) -> Column<T>
    requires |key| == 16
  {
    (n: nat, j: nat) => if j < 4 then KeyColumn(c, key, n, 4 * j) else KeyColumn(c, key, n, 0)
  }

  lemma LaterColumn<T>(c: Cipher<T>, key: seq<T>, n: nat, m: nat)
    requires |key| == 16 && n > 0 && 4 <= m <= 12
    ensures KeyColumn(c, key, n, m) == Plus(c.g, KeyColumn(c, key, n - 1, m), KeyColumn(c, key, n, m - 4))
  {
  }

  lemma FirstColumnIs<T(!new)>(c: Cipher<T>, key: seq<T>, n: nat)
    requires Laws(c.g) && |key| == 16 && n > 0
    ensures KeyColumn(c, key, n, 0)
            == Plus(c.g, KeyColumn(c, key, n - 1, 0), Scrambled(c, KeyColumn(c, key, n - 1, 12), RoundConstant(c, n)))
  {
    ConstantIs(c, n);
    assert AssocAt(c.g, KeyOctet(c, key, n - 1, 0), c.s(KeyOctet(c, key, n - 1, 13)), RoundConstant(c, n));
  }

  lemma StartObeys<T>(c: Cipher<T>, key: seq<T>, j: nat)
    requires |key| == 16 && j < 4
    ensures StartAt(BlockOf(key), KeyColumns(c, key), j)
  {
  }

  lemma LaterObeys<T>(c: Cipher<T>, key: seq<T>, n: nat, j: nat)
    requires |key| == 16 && n > 0 && 0 < j < 4
    ensures LaterAt(c, KeyColumns(c, key), n, j)
  {
    LaterColumn(c, key, n, 4 * j);
  }

  lemma FirstObeys<T(!new)>(c: Cipher<T>, key: seq<T>, n: nat)
    requires Laws(c.g) && |key| == 16 && n > 0
    ensures FirstAt(c, KeyColumns(c, key), n)
  {
    FirstColumnIs(c, key, n);
  }

  lemma KeyColumnsObey<T(!new)>(c: Cipher<T>, key: seq<T>)
    requires Laws(c.g) && |key| == 16
    ensures ColumnLaws(c, BlockOf(key), KeyColumns(c, key))
  {
    forall j: nat | j < 4 ensures StartAt(BlockOf(key), KeyColumns(c, key), j) {
      StartObeys(c, key, j);
    }
    forall n: nat, j: nat | n > 0 && 0 < j < 4 ensures LaterAt(c, KeyColumns(c, key), n, j) {
      LaterObeys(c, key, n, j);
    }
    forall n: nat | n > 0 ensures FirstAt(c, KeyColumns(c, key), n) {
      FirstObeys(c, key, n);
    }
  }

  /** The round keys of the source are the expanded key of the standard. */
  lemma RoundKeyIsStandard<T(!new)>(c: Cipher<T>, key: seq<T>, n: nat)
    requires Laws(c.g) && |key| == 16 && n <= ROUNDS
    ensures Flat(RoundKey(c, BlockOf(key), n)) == KeyOctets(c, key, n)
  {
    RoundKeyIsExpandedKey(c, BlockOf(key), n);
    KeyColumnsObey(c, key);
    ColumnsAre(c, BlockOf(key), KeyColumns(c, key), n, 0);
    ColumnsAre(c, BlockOf(key), KeyColumns(c, key), n, 1);
    ColumnsAre(c, BlockOf(key), KeyColumns(c, key), n, 2);
    ColumnsAre(c, BlockOf(key), KeyColumns(c, key), n, 3);
    FourColumns(c, key, n);
  }

  lemma FourColumns<T>(c: Cipher<T>, key: seq<T>, n: nat)
    requires |key| == 16
    ensures Flat(Block(KeyColumn(c, key, n, 0), KeyColumn(c, key, n, 4),
                       KeyColumn(c, key, n, 8), KeyColumn(c, key, n, 12)))
            == KeyOctets(c, key, n)
  {
  }

  // ---- The whole cipher

  lemma {:induction false} RoundsAre<T(!new)>(c: Cipher<T>, key: seq<T>, x: seq<T>, n: nat)
    requires CipherLaws(c) && |key| == |x| == 16 && n < ROUNDS
    ensures Flat(Rounds(c, Schedule(c, BlockOf(key)), BlockOf(x), n)) == AfterRounds(c, key, x, n)
  {
    var ks := Schedule(c, BlockOf(key));
    RoundKeyIsStandard(c, key, n);
    if n == 0 {
      FlatBlock(x, BlockOf(x));
      AddIs(c, BlockOf(x), ks[0]);
    } else {
      RoundsAre(c, key, x, n - 1);
      RoundIs(c, Rounds(c, ks, BlockOf(x), n - 1), ks[n]);
    }
  }

  /** The cipher of the source is that of the standard, for every key and block. */
  lemma EncryptedIsStandard<T(!new)>(c: Cipher<T>, key: seq<T>, x: seq<T>)
    requires CipherLaws(c) && |key| == |x| == 16
    ensures Flat(Encrypted(c, Schedule(c, BlockOf(key)), BlockOf(x))) == Aes(c, key, x)
  {
    var ks := Schedule(c, BlockOf(key));
    var y := Rounds(c, ks, BlockOf(x), 9);
    RoundsAre(c, key, x, 9);
    SubIs(c, y);
    ShiftIs(SubBytes(c.s, y));
    RoundKeyIsStandard(c, key, 10);
    AddIs(c, ShiftRows(SubBytes(c.s, y)), ks[10]);
  }
}
