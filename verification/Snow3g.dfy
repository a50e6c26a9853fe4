/** SNOW 3G (liblte_security.cc, lines 1673 to 1940): the S-boxes and the feedback of the source on
    words, the proof that they meet the laws of the machine of `SnowMachine`, and its theorems for
    them. */
module Snow3g {
  import opened XorAlgebra
  import opened MixColumn
  import opened Gf256
  import opened SBoxes
  import opened Words
  import opened SnowMachine
  import Standard = SnowStandard

  // ---- The S-boxes on words

  /** The four output bytes of `s3g_s1` and `s3g_s2`, from the substituted input bytes. */
  function Diffuse<T>(g: Group<T>, f: T -> T, x: Column<T>): Column<T>
  {
    Column(
      g.add(g.add(g.add(f(x.a), x.b), x.c), g.add(f(x.d), x.d)),
      g.add(g.add(g.add(g.add(f(x.a), x.a), f(x.b)), x.c), x.d),
      g.add(g.add(g.add(x.a, g.add(f(x.b), x.b)), f(x.c)), x.d),
      g.add(g.add(g.add(x.a, x.b), g.add(f(x.c), x.c)), f(x.d)))
  }

  function Turned<T>(x: Column<T>): Column<T>
  {
    Column(x.d, x.c, x.b, x.a)
  }

  lemma Reorder<T(!new)>(g: Group<T>, a: T, b: T, c: T)
    requires Laws(g)
    ensures g.add(g.add(a, b), c) == g.add(g.add(c, b), a) == g.add(g.add(a, c), b)
  {
    assert AssocAt(g, a, b, c) && CommAt(g, b, c) && AssocAt(g, a, c, b) && CommAt(g, a, b);
    assert CommAt(g, c, g.add(b, a)) && AssocAt(g, c, b, a) && CommAt(g, g.add(a, b), c);
  }

  /** The diffusion is the column mixing of Rijndael on the bytes in reverse order. */
  lemma DiffuseIsMix<T(!new)>(g: Group<T>, f: T -> T, x: Column<T>)
    requires Laws(g) && Linear(g, f)
    ensures Diffuse(g, f, x) == Turned(Mix(g, f, Turned(x)))
  {
    MixIsCirculant(g, f, Turned(x));
    DiffuseA(g, f, x);
    DiffuseB(g, f, x);
    DiffuseC(g, f, x);
    DiffuseD(g, f, x);
  }

  lemma DiffuseA<T(!new)>(g: Group<T>, f: T -> T, x: Column<T>)
    requires Laws(g)
    ensures Diffuse(g, f, x).a == Row(g, f, x.a, x.d, x.c, x.b)
  {
    Reorder(g, g.add(f(x.a), x.b), x.c, g.add(f(x.d), x.d));
    Reorder(g, f(x.a), x.b, g.add(f(x.d), x.d));
    Reorder(g, g.add(f(x.a), g.add(f(x.d), x.d)), x.b, x.c);
  }

  lemma DiffuseB<T(!new)>(g: Group<T>, f: T -> T, x: Column<T>)
    requires Laws(g)
    ensures Diffuse(g, f, x).b == Row(g, f, x.b, x.a, x.d, x.c)
  {
    assert CommAt(g, g.add(f(x.a), x.a), f(x.b));
    Reorder(g, g.add(f(x.b), g.add(f(x.a), x.a)), x.c, x.d);
  }

  lemma DiffuseC<T(!new)>(g: Group<T>, f: T -> T, x: Column<T>)
    requires Laws(g)
    ensures Diffuse(g, f, x).c == Row(g, f, x.c, x.b, x.a, x.d)
  {
    Reorder(g, x.a, g.add(f(x.b), x.b), f(x.c));
  }

  lemma DiffuseD<T(!new)>(g: Group<T>, f: T -> T, x: Column<T>)
    requires Laws(g)
    ensures Diffuse(g, f, x).d == Row(g, f, x.d, x.c, x.b, x.a)
  {
    var u, q := g.add(x.a, x.b), g.add(f(x.c), x.c);
    Reorder(g, u, q, f(x.d));
    assert AssocAt(g, g.add(f(x.d), q), x.a, x.b);
    Reorder(g, g.add(f(x.d), q), x.a, x.b);
  }

  function Undiffuse<T>(g: Group<T>, f: T -> T, x: Column<T>): Column<T>
  {
    Turned(Unmix(g, f, Turned(x)))
  }

  predicate InverseAt<T(==)>(s: T -> T, sInv: T -> T, b: T)
  {
    sInv(s(b)) == b && s(sInv(b)) == b
  }

  ghost predicate Inverses<T(!new)>(s: T -> T, sInv: T -> T)
  {
    forall b :: InverseAt(s, sInv, b)
  }

  lemma EachUndone<T(!new)>(s: T -> T, sInv: T -> T, x: Column<T>)
    requires Inverses(s, sInv)
    ensures Each(sInv, Each(s, x)) == x && Each(s, Each(sInv, x)) == x
  {
    assert InverseAt(s, sInv, x.a) && InverseAt(s, sInv, x.b) && InverseAt(s, sInv, x.c) && InverseAt(s, sInv, x.d);
  }

  /** Substitution on each byte, then diffusion, is undone in the reverse order. */
  lemma BoxUndone<T(!new)>(g: Group<T>, f: T -> T, s: T -> T, sInv: T -> T, x: Column<T>)
    requires Laws(g) && Linear(g, f) && Inverses(s, sInv)
    ensures Each(sInv, Undiffuse(g, f, Diffuse(g, f, Each(s, x)))) == x
    ensures Diffuse(g, f, Each(s, Each(sInv, Undiffuse(g, f, x)))) == x
  {
    DiffuseIsMix(g, f, Each(s, x));
    UnmixMix(g, f, Turned(Each(s, x)));
    DiffuseIsMix(g, f, Undiffuse(g, f, x));
    UnmixMix(g, f, Turned(x));
    EachUndone(s, sInv, x);
    EachUndone(s, sInv, Undiffuse(g, f, x));
  }

  /** `s3g_s1` */
  function S1(w: bv32): bv32
  {
    Join(Diffuse(BYTES, Times(0x1B), Each(S, Split(w))))
  }

  /** `s3g_s2` */
  function S2(w: bv32): bv32
  {
    Join(Diffuse(BYTES, Times(0x69), Each(SQ, Split(w))))
  }

  function S1Inv(w: bv32): bv32
  {
    Join(Each(SInv, Undiffuse(BYTES, Times(0x1B), Split(w))))
  }

  function S2Inv(w: bv32): bv32
  {
    Join(Each(SQInv, Undiffuse(BYTES, Times(0x69), Split(w))))
  }

  lemma S1Bijective(w: bv32)
    ensures S1Inv(S1(w)) == w && S1(S1Inv(w)) == w
  {
    XorLaws();
    TimesLinear(0x1B);
    forall b ensures InverseAt(S, SInv, b) { SBijective(b); }
    WordBoxUndone(Times(0x1B), S, SInv, w);
  }

  lemma S2Bijective(w: bv32)
    ensures S2Inv(S2(w)) == w && S2(S2Inv(w)) == w
  {
    XorLaws();
    TimesLinear(0x69);
    forall b ensures InverseAt(SQ, SQInv, b) { SQBijective(b); }
    WordBoxUndone(Times(0x69), SQ, SQInv, w);
  }

  lemma WordBoxUndone(f: bv8 -> bv8, s: bv8 -> bv8, sInv: bv8 -> bv8, w: bv32)
    requires Laws(BYTES) && Linear(BYTES, f) && Inverses(s, sInv)
    ensures Join(Each(sInv, Undiffuse(BYTES, f, Split(Join(Diffuse(BYTES, f, Each(s, Split(w)))))))) == w
    ensures Join(Diffuse(BYTES, f, Each(s, Split(Join(Each(sInv, Undiffuse(BYTES, f, Split(w)))))))) == w
  {
    BoxUndone(BYTES, f, s, sInv, Split(w));
    SplitJoin(w, Diffuse(BYTES, f, Each(s, Split(w))));
    SplitJoin(w, Each(sInv, Undiffuse(BYTES, f, Split(w))));
  }

  /** `s3g_s1` is the byte substitution and the column mixing of Rijndael, applied to the four bytes
      of the word in reverse order. */
  lemma S1IsRijndael(w: bv32)
    ensures Turned(Split(S1(w))) == Mix(BYTES, Times(0x1B), Each(S, Turned(Split(w))))
  {
    XorLaws();
    TimesLinear(0x1B);
    DiffuseIsMix(BYTES, Times(0x1B), Each(S, Split(w)));
    SplitJoin(w, Diffuse(BYTES, Times(0x1B), Each(S, Split(w))));
  }

  // ---- The machine of the source

  function Add32(x: bv32, y: bv32): bv32 { x + y }
  function Sub32(x: bv32, y: bv32): bv32 { x - y }

  const REGISTER := Register(WORDS, TimesAlpha, OverAlpha)
  const SNOW := Machine(REGISTER, Add32, Sub32, S1, S1Inv, S2, S2Inv)
  const ONES: bv32 := 0xFFFF_FFFF

  lemma RegisterIsLawful()
    ensures RegisterLaws(REGISTER)
  {
    XorLaws();
    AlphaLinear();
    forall x ensures AlphaAt(REGISTER, x) {
      OverTimesAlpha(x);
      TimesOverAlpha(x);
    }
  }

  lemma SubOfSum(x: bv32, y: bv32) ensures Sub32(x + y, x) == y { }
  lemma SumOfSub(x: bv32, y: bv32) ensures Add32(x, y - x) == y { }

  lemma SumsUndone(x: bv32, y: bv32)
    ensures Sub32(Add32(x, y), x) == y && Add32(x, Sub32(y, x)) == y
  {
    SubOfSum(x, y);
    SumOfSub(x, y);
  }

  lemma SnowIsLawful()
    ensures MachineLaws(SNOW)
  {
    RegisterIsLawful();
    forall x ensures BoxesAt(SNOW, x) {
      S1Bijective(x);
      S2Bijective(x);
    }
    forall x, y ensures PlusAt(SNOW, x, y) {
      SumsUndone(x, y);
    }
  }

  /** The word that `s3g_clock_lfsr` shifts in, as the source writes it. */
  function Feedback(a: bv32, b: bv32, c: bv32, f: bv32): bv32
  {
    Xor32(Xor32(Xor32(Xor32(Up(a, MulAlpha(Byte0(a))), b), Low24(c)), DivAlpha(Byte3(c))), f)
  }

  function Low24(c: bv32): bv32
  {
    (c >> 8) & 0x00FFFFFF
  }

  lemma DownIs(c: bv32, d: bv32)
    ensures Down(c, d) == Xor32(Low24(c), d)
  {
  }

  /** It is the feedback word of the machine. */
  lemma FeedbackIsFeed(a: bv32, b: bv32, c: bv32, f: bv32)
    ensures Feedback(a, b, c, f) == Feed(REGISTER, a, b, c, f)
  {
    DownIs(c, DivAlpha(Byte3(c)));
    Assoc32(Xor32(Up(a, MulAlpha(Byte0(a))), b), Low24(c), DivAlpha(Byte3(c)));
  }

  // ---- What the source's machine does

  /** The state that initialisation leaves determines the key and the vector. */
  lemma InitializeInjective(k: seq<bv32>, iv: seq<bv32>, k': seq<bv32>, iv': seq<bv32>)
    requires |k| == |iv| == |k'| == |iv'| == 4
    ensures Initialized(SNOW, ONES, k, iv) == Initialized(SNOW, ONES, k', iv') <==> k == k' && iv == iv'
  {
    SnowIsLawful();
    InitializationInjective(SNOW, ONES, k, iv, k', iv');
  }

  /** The register of the source is linear over XOR for any number of clocks. */
  lemma LfsrLinear(l: seq<bv32>, fs: seq<bv32>, m: seq<bv32>, hs: seq<bv32>)
    requires |l| == |m| == 16 && |fs| == |hs|
    ensures Clocks(REGISTER, Sums(WORDS, l, m), Sums(WORDS, fs, hs))
            == Sums(WORDS, Clocks(REGISTER, l, fs), Clocks(REGISTER, m, hs))
  {
    RegisterIsLawful();
    ClocksLinear(REGISTER, l, fs, m, hs);
  }

  lemma LfsrInjective(l: seq<bv32>, m: seq<bv32>, fs: seq<bv32>)
    requires |l| == |m| == 16
    ensures Clocks(REGISTER, l, fs) == Clocks(REGISTER, m, fs) <==> l == m
  {
    RegisterIsLawful();
    ClocksInjective(REGISTER, l, m, fs);
  }

  /** The operations of the machine are those of the source on words. */
  lemma SnowOperators(x: bv32, y: bv32)
    ensures SNOW.plus(x, y) == x + y
    ensures SNOW.register.g.add(x, y) == x ^ y
  {
  }

  lemma SnowMaps(x: bv32)
    ensures SNOW.register.times(x) == TimesAlpha(x) && SNOW.register.over(x) == OverAlpha(x)
    ensures SNOW.s1(x) == S1(x) && SNOW.s2(x) == S2(x) && SNOW.register.g.zero == 0
  {
  }

  /** Keystream words of the source, with the register replaced by its recurrence. */
  lemma KeystreamFollowsRecurrence(s: State<bv32>, t: nat)
    requires Fits(s)
    ensures var now := Steps(SNOW, s, t + 1, false);
            KeyWord(SNOW, s, t)
            == Xor32(Xor32(Add32(Recurrence(REGISTER, s.lfsr, t + 16), now.r1), now.r2),
                     Recurrence(REGISTER, s.lfsr, t + 1))
  {
    SnowIsLawful();
    KeyWordFollowsRecurrence(SNOW, s, t);
  }

  /** A key and a vector for the sequences of the standard. */
  function Source(k: seq<bv32>, iv: seq<bv32>): (p: Standard.Setup<bv32>)
    requires |k| == |iv| == 4
    ensures Standard.Proper(p)
  {
    Standard.Setup(SNOW, ONES, k, iv)
  }

  /** The keystream of the source is that of the standard. */
  lemma KeystreamIsStandard(k: seq<bv32>, iv: seq<bv32>, i: nat)
    requires |k| == |iv| == 4
    ensures KeyWord(SNOW, Initialized(SNOW, ONES, k, iv), i) == Standard.Z(Source(k, iv), i)
  {
    XorLaws();
    Standard.KeystreamIsStandard(Source(k, iv), i);
  }

  /** The second S-box likewise substitutes and mixes, in the field of its own constant. */
  lemma S2IsSubAndMix(w: bv32)
    ensures Turned(Split(S2(w))) == Circulant(BYTES, Times(0x69), Each(SQ, Turned(Split(w))))
  {
    XorLaws();
    TimesLinear(0x69);
    DiffuseIsMix(BYTES, Times(0x69), Each(SQ, Split(w)));
    MixIsCirculant(BYTES, Times(0x69), Each(SQ, Turned(Split(w))));
    SplitJoin(w, Diffuse(BYTES, Times(0x69), Each(SQ, Split(w))));
  }
}
