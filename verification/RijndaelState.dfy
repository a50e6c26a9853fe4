/** The methods of Rijndael on the source's arrays: a 4 by 4 state changed in place, and the round
    keys in an 11 by 4 by 4 table.  Each is proved against its function on blocks. */
module RijndaelState {
  import opened XorAlgebra
  import opened MixColumn
  import opened Rijndael

  ghost predicate IsState<T>(state: array2<T>)
  {
    state.Length0 == state.Length1 == 4
  }

  ghost predicate IsTable<T>(rk: array3<T>)
  {
    rk.Length0 == ROUNDS + 1 && rk.Length1 == rk.Length2 == 4
  }

  /** Column j of a state, rows downward. */
  ghost function StateColumn<T>(state: array2<T>, j: nat): Column<T>
    requires IsState(state) && j < 4
    reads state
  {
    Column(state[0, j], state[1, j], state[2, j], state[3, j])
  }

  ghost function BlockIn<T>(state: array2<T>): Block<T>
    requires IsState(state)
    reads state
  {
    Block(StateColumn(state, 0), StateColumn(state, 1), StateColumn(state, 2), StateColumn(state, 3))
  }

  ghost function TableColumn<T>(rk: array3<T>, r: nat, j: nat): Column<T>
    requires IsTable(rk) && r <= ROUNDS && j < 4
    reads rk
  {
    Column(rk[r, 0, j], rk[r, 1, j], rk[r, 2, j], rk[r, 3, j])
  }

  ghost function KeyIn<T>(rk: array3<T>, r: nat): Block<T>
    requires IsTable(rk) && r <= ROUNDS
    reads rk
  {
    Block(TableColumn(rk, r, 0), TableColumn(rk, r, 1), TableColumn(rk, r, 2), TableColumn(rk, r, 3))
  }

  ghost function KeysIn<T>(rk: array3<T>): (ks: seq<Block<T>>)
    requires IsTable(rk)
    reads rk
    ensures |ks| == ROUNDS + 1
  {
    seq(ROUNDS + 1, r requires 0 <= r <= ROUNDS reads rk => KeyIn(rk, r))
  }

  /** Sixteen octets fill a state column by column. */
  function BlockOf<T>(s: seq<T>): Block<T>
    requires |s| == 16
  {
    Block(Column(s[0], s[1], s[2], s[3]), Column(s[4], s[5], s[6], s[7]),
          Column(s[8], s[9], s[10], s[11]), Column(s[12], s[13], s[14], s[15]))
  }

  function Flat<T>(x: Block<T>): (s: seq<T>)
    ensures |s| == 16
  {
    [x.c0.a, x.c0.b, x.c0.c, x.c0.d, x.c1.a, x.c1.b, x.c1.c, x.c1.d,
     x.c2.a, x.c2.b, x.c2.c, x.c2.d, x.c3.a, x.c3.b, x.c3.c, x.c3.d]
  }

  lemma FlatBlock<T>(s: seq<T>, x: Block<T>)
    ensures BlockOf(Flat(x)) == x
    ensures |s| == 16 ==> Flat(BlockOf(s)) == s
  {
  }

  /** `key_add` */
  method KeyAdd<T>(c: Cipher<T>, state: array2<T>, rk: array3<T>, round: nat)
    requires IsState(state) && IsTable(rk) && round <= ROUNDS
    modifies state
    ensures BlockIn(state) == AddKey(c.g, old(BlockIn(state)), old(KeyIn(rk, round)))
  {
    for i := 0 to 4
      invariant forall p, q | 0 <= p < 4 && 0 <= q < 4 ::
        state[p, q] == if p < i then c.g.add(old(state[p, q]), old(rk[round, p, q])) else old(state[p, q])
    {
      for j := 0 to 4
        invariant forall p, q | 0 <= p < 4 && 0 <= q < 4 ::
          state[p, q] == if p < i || (p == i && q < j) then c.g.add(old(state[p, q]), old(rk[round, p, q]))
                         else old(state[p, q])
      {
        state[i, j] := c.g.add(state[i, j], rk[round, i, j]);
      }
    }
  }

  /** `byte_sub` */
  method ByteSub<T>(c: Cipher<T>, state: array2<T>)
    requires IsState(state)
    modifies state
    ensures BlockIn(state) == SubBytes(c.s, old(BlockIn(state)))
  {
    for i := 0 to 4
      invariant forall p, q | 0 <= p < 4 && 0 <= q < 4 ::
        state[p, q] == if p < i then c.s(old(state[p, q])) else old(state[p, q])
    {
      for j := 0 to 4
        invariant forall p, q | 0 <= p < 4 && 0 <= q < 4 ::
          state[p, q] == if p < i || (p == i && q < j) then c.s(old(state[p, q])) else old(state[p, q])
      {
        state[i, j] := c.s(state[i, j]);
      }
    }
  }

  /** `shift_row` */
  method ShiftRow<T>(state: array2<T>)
    requires IsState(state)
    modifies state
    ensures BlockIn(state) == ShiftRows(old(BlockIn(state)))
  {
    var temp := state[1, 0];
    state[1, 0] := state[1, 1];
    state[1, 1] := state[1, 2];
    state[1, 2] := state[1, 3];
    state[1, 3] := temp;

    temp := state[2, 0];
    state[2, 0] := state[2, 2];
    state[2, 2] := temp;
    temp := state[2, 1];
    state[2, 1] := state[2, 3];
    state[2, 3] := temp;

    temp := state[3, 0];
    state[3, 0] := state[3, 3];
    state[3, 3] := state[3, 2];
    state[3, 2] := state[3, 1];
    state[3, 1] := temp;
  }

  /** One iteration of `mix_column`. */
  method MixOne<T>(c: Cipher<T>, state: array2<T>, i: nat)
    requires IsState(state) && i < 4
    modifies state
    ensures StateColumn(state, i) == Mix(c.g, c.double, old(StateColumn(state, i)))
    ensures forall j | 0 <= j < 4 && j != i :: StateColumn(state, j) == old(StateColumn(state, j))
  {
    var g := c.g;
    var temp := g.add(g.add(g.add(state[0, i], state[1, i]), state[2, i]), state[3, i]);
    var tmp0 := state[0, i];

    var tmp := c.double(g.add(state[0, i], state[1, i]));
    state[0, i] := g.add(state[0, i], g.add(temp, tmp));

    tmp := c.double(g.add(state[1, i], state[2, i]));
    state[1, i] := g.add(state[1, i], g.add(temp, tmp));

    tmp := c.double(g.add(state[2, i], state[3, i]));
    state[2, i] := g.add(state[2, i], g.add(temp, tmp));

    tmp := c.double(g.add(state[3, i], tmp0));
    state[3, i] := g.add(state[3, i], g.add(temp, tmp));
  }

  /** `mix_column` */
  method MixAll<T>(c: Cipher<T>, state: array2<T>)
    requires IsState(state)
    modifies state
    ensures BlockIn(state) == MixColumns(c, old(BlockIn(state)))
  {
    for i := 0 to 4
      invariant forall j | 0 <= j < 4 ::
        StateColumn(state, j)
        == (if j < i then Mix(c.g, c.double, old(StateColumn(state, j))) else old(StateColumn(state, j)))
    {
      MixOne(c, state, i);
    }
  }

  /** The first loop of `rijndael_encrypt`. */
  method Fill<T>(input: array<T>, state: array2<T>)
    requires input.Length >= 16 && IsState(state)
    modifies state
    ensures BlockIn(state) == BlockOf(input[..16])
  {
    for i := 0 to 16
      invariant forall k | 0 <= k < i :: state[k % 4, k / 4] == input[k]
    {
      state[i % 4, i / 4] := input[i];
    }
    FilledColumn(input[..16], state, 0);
    FilledColumn(input[..16], state, 1);
    FilledColumn(input[..16], state, 2);
    FilledColumn(input[..16], state, 3);
  }

  lemma FilledColumn<T>(s: seq<T>, state: array2<T>, j: nat)
    requires |s| == 16 && IsState(state) && j < 4
    requires forall k | 0 <= k < 16 :: state[k % 4, k / 4] == s[k]
    ensures StateColumn(state, j) == Column(s[4 * j], s[4 * j + 1], s[4 * j + 2], s[4 * j + 3])
  {
    assert state[(4 * j) % 4, (4 * j) / 4] == s[4 * j];
    assert state[(4 * j + 1) % 4, (4 * j + 1) / 4] == s[4 * j + 1];
    assert state[(4 * j + 2) % 4, (4 * j + 2) / 4] == s[4 * j + 2];
    assert state[(4 * j + 3) % 4, (4 * j + 3) / 4] == s[4 * j + 3];
  }

  /** The last loop of `rijndael_encrypt`. */
  method Empty<T>(state: array2<T>, output: array<T>)
    requires output.Length >= 16 && IsState(state)
    modifies output
    ensures output[..16] == Flat(BlockIn(state)) && output[16..] == old(output[16..])
  {
    for i := 0 to 16
      invariant forall k | 0 <= k < i :: output[k] == state[k % 4, k / 4]
      invariant output[16..] == old(output[16..])
    {
      output[i] := state[i % 4, i / 4];
    }
  }

  /** One iteration of the main loop. */
  method FullRound<T>(c: Cipher<T>, state: array2<T>, rk: array3<T>, r: nat)
    requires IsState(state) && IsTable(rk) && r <= ROUNDS
    modifies state
    ensures BlockIn(state) == Round(c, old(BlockIn(state)), old(KeyIn(rk, r)))
  {
    ByteSub(c, state);
    ShiftRow(state);
    MixAll(c, state);
    KeyAdd(c, state, rk, r);
  }

  lemma RoundsStep<T>(c: Cipher<T>, ks: seq<Block<T>>, x: Block<T>, r: nat)
    requires 0 < r < |ks|
    ensures Rounds(c, ks, x, r) == Round(c, Rounds(c, ks, x, r - 1), ks[r])
  {
  }

  /** Round 0 and the main loop. */
  method MainRounds<T>(c: Cipher<T>, state: array2<T>, rk: array3<T>, ghost ks: seq<Block<T>>)
    requires IsState(state) && IsTable(rk) && ks == KeysIn(rk)
    modifies state
    ensures BlockIn(state) == Rounds(c, ks, old(BlockIn(state)), ROUNDS - 1)
  {
    ghost var x := BlockIn(state);
    KeyAdd(c, state, rk, 0);
    for r := 1 to 10
      invariant BlockIn(state) == Rounds(c, ks, x, r - 1)
    {
      RoundsStep(c, ks, x, r);
      assert KeyIn(rk, r) == ks[r];
      FullRound(c, state, rk, r);
    }
  }

  /** `rijndael_encrypt` */
  method Encrypt<T(0)>(c: Cipher<T>, input: array<T>, rk: array3<T>, output: array<T>)
    requires input.Length >= 16 && output.Length >= 16 && IsTable(rk)
    modifies output
    ensures output[..16] == Flat(Encrypted(c, KeysIn(rk), BlockOf(old(input[..16]))))
    ensures output[16..] == old(output[16..])
  {
    var state := new T[4, 4];
    Fill(input, state);
    MainRounds(c, state, rk, KeysIn(rk));
    ByteSub(c, state);
    ShiftRow(state);
    KeyAdd(c, state, rk, 10);
    Empty(state, output);
  }

  /** Round keys below i are those of the schedule. */
  ghost predicate Filled<T>(c: Cipher<T>, rk: array3<T>, key: Block<T>, i: nat)
    reads rk
  {
    IsTable(rk) && i <= ROUNDS + 1 && forall r | 0 <= r < i :: KeyIn(rk, r) == RoundKey(c, key, r)
  }

  /** `rijndael_key_schedule` */
  method KeySchedule<T>(c: Cipher<T>, key: array<T>, rk: array3<T>)
    requires key.Length >= 16 && IsTable(rk)
    modifies rk
    ensures KeysIn(rk) == Schedule(c, BlockOf(key[..16]))
  {
    FillKey(key, rk);
    ghost var k := BlockOf(key[..16]);
    FillAll(c, rk, k);
    ScheduleFilled(c, rk, k);
  }

  lemma ScheduleFilled<T>(c: Cipher<T>, rk: array3<T>, key: Block<T>)
    requires Filled(c, rk, key, ROUNDS + 1)
    ensures KeysIn(rk) == Schedule(c, key)
  {
  }

  /** The outer loop. */
  method FillAll<T>(c: Cipher<T>, rk: array3<T>, ghost key: Block<T>)
    requires IsTable(rk) && KeyIn(rk, 0) == key
    modifies rk
    ensures Filled(c, rk, key, ROUNDS + 1)
  {
    var roundConst := c.one;
    for i := 1 to 11
      invariant roundConst == RoundConstant(c, i) && Filled(c, rk, key, i)
    {
      FillRoundKey(c, rk, i, roundConst, key);
      roundConst := c.double(roundConst);
    }
  }

  method FillRoundKey<T>(c: Cipher<T>, rk: array3<T>, i: nat, rc: T, ghost key: Block<T>)
    requires 0 < i <= ROUNDS && rc == RoundConstant(c, i) && Filled(c, rk, key, i)
    modifies rk
    ensures Filled(c, rk, key, i + 1)
  {
    KeyStep(c, key, i);
    FillNext(c, rk, i, rc);
  }

  lemma KeyStep<T>(c: Cipher<T>, key: Block<T>, i: nat)
    requires 0 < i <= ROUNDS
    ensures RoundKey(c, key, i) == NextKey(c, RoundKey(c, key, i - 1), RoundConstant(c, i))
  {
  }

  method FillKey<T>(key: array<T>, rk: array3<T>)
    requires key.Length >= 16 && IsTable(rk)
    modifies rk
    ensures KeyIn(rk, 0) == BlockOf(key[..16])
  {
    for i := 0 to 16
      invariant forall k | 0 <= k < i :: rk[0, k % 4, k / 4] == key[k]
    {
      rk[0, i % 4, i / 4] := key[i];
    }
    FilledTable(key[..16], rk, 0);
    FilledTable(key[..16], rk, 1);
    FilledTable(key[..16], rk, 2);
    FilledTable(key[..16], rk, 3);
  }

  lemma FilledTable<T>(s: seq<T>, rk: array3<T>, j: nat)
    requires |s| == 16 && IsTable(rk) && j < 4
    requires forall k | 0 <= k < 16 :: rk[0, k % 4, k / 4] == s[k]
    ensures TableColumn(rk, 0, j) == Column(s[4 * j], s[4 * j + 1], s[4 * j + 2], s[4 * j + 3])
  {
    assert rk[0, (4 * j) % 4, (4 * j) / 4] == s[4 * j];
    assert rk[0, (4 * j + 1) % 4, (4 * j + 1) / 4] == s[4 * j + 1];
    assert rk[0, (4 * j + 2) % 4, (4 * j + 2) / 4] == s[4 * j + 2];
    assert rk[0, (4 * j + 3) % 4, (4 * j + 3) / 4] == s[4 * j + 3];
  }

  /** One iteration of the schedule: round key i from round key i - 1. */
  method FillNext<T>(c: Cipher<T>, rk: array3<T>, i: nat, rc: T)
    requires IsTable(rk) && 0 < i <= ROUNDS
    modifies rk
    ensures KeyIn(rk, i) == NextKey(c, old(KeyIn(rk, i - 1)), rc)
    ensures forall r | 0 <= r <= ROUNDS && r != i :: KeyIn(rk, r) == old(KeyIn(rk, r))
  {
    FillFirst(c, rk, i, rc);
    FillRows(c.g, rk, i);
  }

  /** The assignments before the inner loop: the first column of round key i. */
  method FillFirst<T>(c: Cipher<T>, rk: array3<T>, i: nat, rc: T)
    requires IsTable(rk) && 0 < i <= ROUNDS
    modifies rk
    ensures TableColumn(rk, i, 0) == NextKey(c, old(KeyIn(rk, i - 1)), rc).c0
    ensures forall r, p, q | 0 <= r <= ROUNDS && 0 <= p < 4 && 0 <= q < 4 && (r != i || q != 0) ::
      rk[r, p, q] == old(rk[r, p, q])
  {
    var g := c.g;
    rk[i, 0, 0] := g.add(g.add(c.s(rk[i - 1, 1, 3]), rk[i - 1, 0, 0]), rc);
    rk[i, 1, 0] := g.add(c.s(rk[i - 1, 2, 3]), rk[i - 1, 1, 0]);
    rk[i, 2, 0] := g.add(c.s(rk[i - 1, 3, 3]), rk[i - 1, 2, 0]);
    rk[i, 3, 0] := g.add(c.s(rk[i - 1, 0, 3]), rk[i - 1, 3, 0]);
  }

  /** The inner loop: the other three columns of round key i. */
  method FillRows<T>(g: Group<T>, rk: array3<T>, i: nat)
    requires IsTable(rk) && 0 < i <= ROUNDS
    modifies rk
    ensures TableColumn(rk, i, 0) == old(TableColumn(rk, i, 0))
    ensures TableColumn(rk, i, 1) == Plus(g, old(TableColumn(rk, i - 1, 1)), TableColumn(rk, i, 0))
    ensures TableColumn(rk, i, 2) == Plus(g, old(TableColumn(rk, i - 1, 2)), TableColumn(rk, i, 1))
    ensures TableColumn(rk, i, 3) == Plus(g, old(TableColumn(rk, i - 1, 3)), TableColumn(rk, i, 2))
    ensures forall r | 0 <= r <= ROUNDS && r != i :: KeyIn(rk, r) == old(KeyIn(rk, r))
  {
    for j := 0 to 4
      invariant forall r, p, q | 0 <= r <= ROUNDS && 0 <= p < 4 && 0 <= q < 4 && (r != i || q == 0) ::
        rk[r, p, q] == old(rk[r, p, q])
      invariant forall p | 0 <= p < j ::
        && rk[i, p, 1] == g.add(old(rk[i - 1, p, 1]), rk[i, p, 0])
        && rk[i, p, 2] == g.add(old(rk[i - 1, p, 2]), rk[i, p, 1])
        && rk[i, p, 3] == g.add(old(rk[i - 1, p, 3]), rk[i, p, 2])
    {
      rk[i, j, 1] := g.add(rk[i - 1, j, 1], rk[i, j, 0]);
      rk[i, j, 2] := g.add(rk[i - 1, j, 2], rk[i, j, 1]);
      rk[i, j, 3] := g.add(rk[i - 1, j, 3], rk[i, j, 2]);
    }
  }
}
