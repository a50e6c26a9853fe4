/** Bytes and words under XOR, as instances of the algebra: which maps of the source are linear. */
module Words {
  import opened XorAlgebra
  import opened MixColumn
  import opened Gf256

  function Xor8(x: bv8, y: bv8): bv8 { x ^ y }
  function Xor32(x: bv32, y: bv32): bv32 { x ^ y }

  const BYTES := Group(Xor8, 0)
  const WORDS := Group(Xor32, 0)

  lemma Assoc8(x: bv8, y: bv8, z: bv8)
    ensures Xor8(Xor8(x, y), z) == Xor8(x, Xor8(y, z))
  {
  }

  lemma Assoc32(x: bv32, y: bv32, z: bv32)
    ensures Xor32(Xor32(x, y), z) == Xor32(x, Xor32(y, z))
  {
  }

  lemma XorLaws()
    ensures Laws(BYTES) && Laws(WORDS)
  {
    forall x, y, z ensures AssocAt(BYTES, x, y, z) { Assoc8(x, y, z); }
    forall x, y ensures CommAt(BYTES, x, y) { Comm8(x, y); }
    forall x ensures SelfAt(BYTES, x) { Self8(x); }
    forall x, y, z ensures AssocAt(WORDS, x, y, z) { Assoc32(x, y, z); }
    forall x, y ensures CommAt(WORDS, x, y) { Comm32(x, y); }
    forall x ensures SelfAt(WORDS, x) { Self32(x); }
  }

  lemma Comm8(x: bv8, y: bv8) ensures CommAt(BYTES, x, y) { }
  lemma Self8(x: bv8) ensures SelfAt(BYTES, x) { }
  lemma Comm32(x: bv32, y: bv32) ensures CommAt(WORDS, x, y) { }
  lemma Self32(x: bv32) ensures SelfAt(WORDS, x) { }

  // ---- Multiplication by x

  function Times(c: bv8): bv8 -> bv8
  {
    v => MulX(v, c)
  }

  lemma MulXAdds(x: bv8, y: bv8, c: bv8)
    ensures MulX(Xor8(x, y), c) == Xor8(MulX(x, c), MulX(y, c))
  {
    if x & 0x80 != 0 {
      if y & 0x80 != 0 { } else { }
    } else {
      if y & 0x80 != 0 { } else { }
    }
  }

  /** Multiplication by x is linear over XOR, whatever the constant. */
  lemma TimesLinear(c: bv8)
    ensures Linear(BYTES, Times(c))
  {
    forall x, y ensures AddsAt(BYTES, Times(c), x, y) { MulXAdds(x, y, c); }
  }

  function TimesPow(i: nat, c: bv8): bv8 -> bv8
  {
    v => MulXPow(v, i, c)
  }

  lemma {:induction false} TimesPowLinear(i: nat, c: bv8)
    ensures Linear(BYTES, TimesPow(i, c))
  {
    if i == 0 {
      forall x, y ensures AddsAt(BYTES, TimesPow(0, c), x, y) { }
    } else {
      TimesLinear(c);
      TimesPowLinear(i - 1, c);
      ComposeLinear(BYTES, Times(c), TimesPow(i - 1, c), TimesPow(i, c));
    }
  }

  // ---- Words as columns of bytes

  function Split(w: bv32): Column<bv8>
  {
    Column(Byte0(w), Byte1(w), Byte2(w), Byte3(w))
  }

  function Join(x: Column<bv8>): bv32
  {
    Word(x.a, x.b, x.c, x.d)
  }

  lemma SplitJoin(w: bv32, x: Column<bv8>)
    ensures Join(Split(w)) == w && Split(Join(x)) == x
  {
    BytesOfWord(w, x.a, x.b, x.c, x.d);
  }

  lemma BytesOfWord(w: bv32, a: bv8, b: bv8, c: bv8, d: bv8)
    ensures Word(Byte0(w), Byte1(w), Byte2(w), Byte3(w)) == w
    ensures Byte0(Word(a, b, c, d)) == a && Byte1(Word(a, b, c, d)) == b
    ensures Byte2(Word(a, b, c, d)) == c && Byte3(Word(a, b, c, d)) == d
  {
  }

  lemma Byte0Adds(w: bv32, x: bv32) ensures Byte0(Xor32(w, x)) == Xor8(Byte0(w), Byte0(x)) { }
  lemma Byte1Adds(w: bv32, x: bv32) ensures Byte1(Xor32(w, x)) == Xor8(Byte1(w), Byte1(x)) { }
  lemma Byte2Adds(w: bv32, x: bv32) ensures Byte2(Xor32(w, x)) == Xor8(Byte2(w), Byte2(x)) { }
  lemma Byte3Adds(w: bv32, x: bv32) ensures Byte3(Xor32(w, x)) == Xor8(Byte3(w), Byte3(x)) { }

  lemma SplitAdds(w: bv32, x: bv32)
    ensures CarriesAt(WORDS, Split, Columns(BYTES), w, x)
  {
    Byte0Adds(w, x);
    Byte1Adds(w, x);
    Byte2Adds(w, x);
    Byte3Adds(w, x);
  }

  /** Multiplication by alpha, seen on the bytes: they move up and the top one is spread. */
  function TimesColumn<T>(g: Group<T>, p: T -> T, q: T -> T, r: T -> T, s: T -> T, x: Column<T>): Column<T>
  {
    Column(g.add(x.b, p(x.a)), g.add(x.c, q(x.a)), g.add(x.d, r(x.a)), s(x.a))
  }

  function OverColumn<T>(g: Group<T>, p: T -> T, q: T -> T, r: T -> T, s: T -> T, x: Column<T>): Column<T>
  {
    Column(p(x.d), g.add(x.a, q(x.d)), g.add(x.b, r(x.d)), g.add(x.c, s(x.d)))
  }

  lemma TimesColumnAdds<T(!new)>(g: Group<T>, p: T -> T, q: T -> T, r: T -> T, s: T -> T, x: Column<T>, y: Column<T>)
    requires Laws(g) && Linear(g, p) && Linear(g, q) && Linear(g, r) && Linear(g, s)
    ensures TimesColumn(g, p, q, r, s, Plus(g, x, y))
            == Plus(g, TimesColumn(g, p, q, r, s, x), TimesColumn(g, p, q, r, s, y))
  {
    assert AddsAt(g, p, x.a, y.a) && AddsAt(g, q, x.a, y.a) && AddsAt(g, r, x.a, y.a) && AddsAt(g, s, x.a, y.a);
    Swap(g, x.b, p(x.a), y.b, p(y.a));
    Swap(g, x.c, q(x.a), y.c, q(y.a));
    Swap(g, x.d, r(x.a), y.d, r(y.a));
  }

  lemma OverColumnAdds<T(!new)>(g: Group<T>, p: T -> T, q: T -> T, r: T -> T, s: T -> T, x: Column<T>, y: Column<T>)
    requires Laws(g) && Linear(g, p) && Linear(g, q) && Linear(g, r) && Linear(g, s)
    ensures OverColumn(g, p, q, r, s, Plus(g, x, y))
            == Plus(g, OverColumn(g, p, q, r, s, x), OverColumn(g, p, q, r, s, y))
  {
    assert AddsAt(g, p, x.d, y.d) && AddsAt(g, q, x.d, y.d) && AddsAt(g, r, x.d, y.d) && AddsAt(g, s, x.d, y.d);
    Swap(g, x.a, q(x.d), y.a, q(y.d));
    Swap(g, x.b, r(x.d), y.b, r(y.d));
    Swap(g, x.c, s(x.d), y.c, s(y.d));
  }

  lemma UpBytes(w: bv32, p: bv8, q: bv8, r: bv8, s: bv8)
    ensures Up(w, Word(p, q, r, s)) == Word(Xor8(Byte1(w), p), Xor8(Byte2(w), q), Xor8(Byte3(w), r), s)
  {
  }

  lemma DownBytes(w: bv32, p: bv8, q: bv8, r: bv8, s: bv8)
    ensures Down(w, Word(p, q, r, s)) == Word(p, Xor8(Byte0(w), q), Xor8(Byte1(w), r), Xor8(Byte2(w), s))
  {
  }

  function AlphaColumn(x: Column<bv8>): Column<bv8>
  {
    TimesColumn(BYTES, TimesPow(23, 0xA9), TimesPow(245, 0xA9), TimesPow(48, 0xA9), TimesPow(239, 0xA9), x)
  }

  function UnalphaColumn(x: Column<bv8>): Column<bv8>
  {
    OverColumn(BYTES, TimesPow(16, 0xA9), TimesPow(39, 0xA9), TimesPow(6, 0xA9), TimesPow(64, 0xA9), x)
  }

  lemma TimesAlphaBytes(w: bv32)
    ensures Split(TimesAlpha(w)) == AlphaColumn(Split(w))
  {
    var c := Byte0(w);
    UpBytes(w, Beta(c, 23), Beta(c, 245), Beta(c, 48), Beta(c, 239));
    SplitJoin(w, AlphaColumn(Split(w)));
  }

  lemma OverAlphaBytes(w: bv32)
    ensures Split(OverAlpha(w)) == UnalphaColumn(Split(w))
  {
    var c := Byte3(w);
    DownBytes(w, Beta(c, 16), Beta(c, 39), Beta(c, 6), Beta(c, 64));
    SplitJoin(w, UnalphaColumn(Split(w)));
  }

  lemma AlphaColumnLinear()
    ensures Linear(Columns(BYTES), AlphaColumn)
  {
    XorLaws();
    TimesPowLinear(23, 0xA9);
    TimesPowLinear(245, 0xA9);
    TimesPowLinear(48, 0xA9);
    TimesPowLinear(239, 0xA9);
    forall x, y ensures AddsAt(Columns(BYTES), AlphaColumn, x, y) {
      TimesColumnAdds(BYTES, TimesPow(23, 0xA9), TimesPow(245, 0xA9), TimesPow(48, 0xA9), TimesPow(239, 0xA9), x, y);
    }
  }

  lemma UnalphaColumnLinear()
    ensures Linear(Columns(BYTES), UnalphaColumn)
  {
    XorLaws();
    TimesPowLinear(16, 0xA9);
    TimesPowLinear(39, 0xA9);
    TimesPowLinear(6, 0xA9);
    TimesPowLinear(64, 0xA9);
    forall x, y ensures AddsAt(Columns(BYTES), UnalphaColumn, x, y) {
      OverColumnAdds(BYTES, TimesPow(16, 0xA9), TimesPow(39, 0xA9), TimesPow(6, 0xA9), TimesPow(64, 0xA9), x, y);
    }
  }

  /** Multiplication and division by alpha are linear over XOR. */
  lemma AlphaLinear()
    ensures Linear(WORDS, TimesAlpha) && Linear(WORDS, OverAlpha)
  {
    AlphaColumnLinear();
    UnalphaColumnLinear();
    forall w ensures FollowsAt(TimesAlpha, Split, Join, AlphaColumn, w) {
      SplitJoin(w, Split(w));
      TimesAlphaBytes(w);
    }
    forall w ensures FollowsAt(OverAlpha, Split, Join, UnalphaColumn, w) {
      SplitJoin(w, Split(w));
      OverAlphaBytes(w);
    }
    forall w, x ensures CarriesAt(WORDS, Split, Columns(BYTES), w, x) {
      SplitAdds(w, x);
    }
    TransportLinear(WORDS, TimesAlpha, Split, Join, Columns(BYTES), AlphaColumn);
    TransportLinear(WORDS, OverAlpha, Split, Join, Columns(BYTES), UnalphaColumn);
  }
}
