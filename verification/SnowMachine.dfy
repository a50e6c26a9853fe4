/** The state machine of SNOW 3G over an abstract word type: a shift register of sixteen words with
    feedback, coupled to a finite state machine of three.

    Nothing here depends on what words are, only on the laws named in `RegisterLaws` and
    `MachineLaws`; `Snow3g` supplies the words and the maps of the source. */
module SnowMachine {
  import opened XorAlgebra

  // ---- The shift register

  /** The group of words, and multiplication and division by alpha. */
  datatype Register<!W> = Register(g: Group<W>, times: W -> W, over: W -> W)

  predicate AlphaAt<W(==)>(k: Register<W>, x: W)
  {
    k.over(k.times(x)) == x && k.times(k.over(x)) == x
  }

  ghost predicate RegisterLaws<W(!new)>(k: Register<W>)
  {
    Laws(k.g) && Linear(k.g, k.times) && Linear(k.g, k.over) && forall x :: AlphaAt(k, x)
  }

  /** The word fed back: from words 0, 2 and 11, and the input f. */
  function Feed<W>(k: Register<W>, a: W, b: W, c: W, f: W): W
  {
    k.g.add(k.g.add(k.g.add(k.times(a), b), k.over(c)), f)
  }

  function Clock<W>(k: Register<W>, l: seq<W>, f: W): (r: seq<W>)
    requires |l| == 16
    ensures |r| == 16
  {
    l[1..] + [Feed(k, l[0], l[2], l[11], f)]
  }

  function Unfeed<W>(k: Register<W>, v: W, b: W, c: W, f: W): W
  {
    k.over(k.g.add(k.g.add(k.g.add(v, f), k.over(c)), b))
  }

  function Unclock<W>(k: Register<W>, l: seq<W>, f: W): (r: seq<W>)
    requires |l| == 16
    ensures |r| == 16
  {
    [Unfeed(k, l[15], l[1], l[10], f)] + l[..15]
  }

  lemma FeedUnfeed<W(!new)>(k: Register<W>, a: W, v: W, b: W, c: W, f: W)
    requires RegisterLaws(k)
    ensures Unfeed(k, Feed(k, a, b, c, f), b, c, f) == a
    ensures Feed(k, Unfeed(k, v, b, c, f), b, c, f) == v
  {
    Peel(k.g, k.g.add(k.g.add(k.times(a), b), k.over(c)), f);
    Peel(k.g, k.g.add(k.times(a), b), k.over(c));
    Peel(k.g, k.times(a), b);
    Peel(k.g, k.g.add(k.g.add(v, f), k.over(c)), b);
    Peel(k.g, k.g.add(v, f), k.over(c));
    Peel(k.g, v, f);
    assert AlphaAt(k, a) && AlphaAt(k, k.g.add(k.g.add(k.g.add(v, f), k.over(c)), b));
  }

  /** Clocking the register with input f is a bijection. */
  lemma ClockBijective<W(!new)>(k: Register<W>, l: seq<W>, f: W)
    requires RegisterLaws(k) && |l| == 16
    ensures Unclock(k, Clock(k, l, f), f) == l && Clock(k, Unclock(k, l, f), f) == l
  {
    FeedUnfeed(k, l[0], l[15], l[2], l[11], f);
    FeedUnfeed(k, l[0], l[15], l[1], l[10], f);
  }

  lemma FeedLinear<W(!new)>(k: Register<W>, a: W, b: W, c: W, f: W, p: W, q: W, r: W, h: W)
    requires RegisterLaws(k)
    ensures Feed(k, k.g.add(a, p), k.g.add(b, q), k.g.add(c, r), k.g.add(f, h))
            == k.g.add(Feed(k, a, b, c, f), Feed(k, p, q, r, h))
  {
    assert AddsAt(k.g, k.times, a, p) && AddsAt(k.g, k.over, c, r);
    Swap(k.g, k.times(a), b, k.times(p), q);
    Swap(k.g, k.g.add(k.times(a), b), k.over(c), k.g.add(k.times(p), q), k.over(r));
    Swap(k.g, k.g.add(k.g.add(k.times(a), b), k.over(c)), f, k.g.add(k.g.add(k.times(p), q), k.over(r)), h);
  }

  lemma ClockLinear<W(!new)>(k: Register<W>, l: seq<W>, f: W, m: seq<W>, h: W)
    requires RegisterLaws(k) && |l| == |m| == 16
    ensures Clock(k, Sums(k.g, l, m), k.g.add(f, h)) == Sums(k.g, Clock(k, l, f), Clock(k, m, h))
  {
    FeedLinear(k, l[0], l[2], l[11], f, m[0], m[2], m[11], h);
  }

  /** Any number of clocks, with one input each. */
  function Clocks<W>(k: Register<W>, l: seq<W>, fs: seq<W>): (r: seq<W>)
    requires |l| == 16
    ensures |r| == 16
  {
    if |fs| == 0 then l else Clock(k, Clocks(k, l, fs[..|fs| - 1]), fs[|fs| - 1])
  }

  /** Over any number of clocks the register is linear in its state and its inputs together. */
  lemma {:induction false} ClocksLinear<W(!new)>(k: Register<W>, l: seq<W>, fs: seq<W>, m: seq<W>, hs: seq<W>)
    requires RegisterLaws(k) && |l| == |m| == 16 && |fs| == |hs|
    ensures Clocks(k, Sums(k.g, l, m), Sums(k.g, fs, hs)) == Sums(k.g, Clocks(k, l, fs), Clocks(k, m, hs))
    decreases |fs|
  {
    var n := |fs| - 1;
    if n >= 0 {
      ClocksLinear(k, l, fs[..n], m, hs[..n]);
      assert Sums(k.g, fs, hs)[..n] == Sums(k.g, fs[..n], hs[..n]);
      ClockLinear(k, Clocks(k, l, fs[..n]), fs[n], Clocks(k, m, hs[..n]), hs[n]);
    }
  }

  /** Over any number of clocks, the inputs and the final state determine the initial state. */
  lemma {:induction false} ClocksInjective<W(!new)>(k: Register<W>, l: seq<W>, m: seq<W>, fs: seq<W>)
    requires RegisterLaws(k) && |l| == |m| == 16
    ensures Clocks(k, l, fs) == Clocks(k, m, fs) <==> l == m
    decreases |fs|
  {
    var n := |fs| - 1;
    if n >= 0 {
      ClockBijective(k, Clocks(k, l, fs[..n]), fs[n]);
      ClockBijective(k, Clocks(k, m, fs[..n]), fs[n]);
      ClocksInjective(k, l, m, fs[..n]);
    }
  }

  /** The linear recurrence of section 3.4.5: word t of the sequence that the words of l begin. */
  function Recurrence<W>(k: Register<W>, l: seq<W>, t: nat): W
    requires |l| == 16
  {
    if t < 16 then l[t]
    else k.g.add(k.g.add(k.times(Recurrence(k, l, t - 16)), Recurrence(k, l, t - 14)), k.over(Recurrence(k, l, t - 5)))
  }

  function Silence<W>(k: Register<W>, n: nat): seq<W>
  {
    seq(n, _ => k.g.zero)
  }

  /** Without input the register is a window on the recurrence. */
  lemma {:induction false} ClocksFollowRecurrence<W(!new)>(k: Register<W>, l: seq<W>, n: nat, i: nat)
    requires RegisterLaws(k) && |l| == 16 && i < 16
    ensures Clocks(k, l, Silence(k, n))[i] == Recurrence(k, l, n + i)
  {
    if n > 0 {
      assert Silence(k, n)[..n - 1] == Silence(k, n - 1);
      if i < 15 {
        ClocksFollowRecurrence(k, l, n - 1, i + 1);
      } else {
        ClocksFollowRecurrence(k, l, n - 1, 0);
        ClocksFollowRecurrence(k, l, n - 1, 2);
        ClocksFollowRecurrence(k, l, n - 1, 11);
        var c := Clocks(k, l, Silence(k, n - 1));
        assert SelfAt(k.g, k.g.add(k.g.add(k.times(c[0]), c[2]), k.over(c[11])));
      }
    }
  }

  /** Sixteen words of a sequence. */
  function Window<W>(a: nat -> W, t: nat): (l: seq<W>)
    ensures |l| == 16
  {
    seq(16, i requires 0 <= i < 16 => a(t + i))
  }

  /** A clock moves the window by one word, if the sequence continues with the word fed back. */
  lemma WindowClock<W>(k: Register<W>, a: nat -> W, t: nat, f: W)
    requires Feed(k, a(t), a(t + 2), a(t + 11), f) == a(t + 16)
    ensures Clock(k, Window(a, t), f) == Window(a, t + 1)
  {
  }

  // ---- The whole machine

  /** The register, modular addition and its inverse, and the two S-boxes with theirs. */
  datatype Machine<!W> = Machine(
    register: Register<W>, plus: (W, W) -> W, minus: (W, W) -> W,
    s1: W -> W, s1Inv: W -> W, s2: W -> W, s2Inv: W -> W)

  predicate BoxesAt<W(==)>(m: Machine<W>, x: W)
  {
    m.s1Inv(m.s1(x)) == x && m.s1(m.s1Inv(x)) == x && m.s2Inv(m.s2(x)) == x && m.s2(m.s2Inv(x)) == x
  }

  predicate PlusAt<W(==)>(m: Machine<W>, x: W, y: W)
  {
    m.minus(m.plus(x, y), x) == y && m.plus(x, m.minus(y, x)) == y
  }

  ghost predicate MachineLaws<W(!new)>(m: Machine<W>)
  {
    RegisterLaws(m.register) && (forall x :: BoxesAt(m, x)) && (forall x, y :: PlusAt(m, x, y))
  }

  /** The output of the state machine. */
  function OutOf<W>(m: Machine<W>, s15: W, r1: W, r2: W): W
  {
    m.register.g.add(m.plus(s15, r1), r2)
  }

  /** The next first word of the state machine. */
  function NextOf<W>(m: Machine<W>, r2: W, r3: W, s5: W): W
  {
    m.plus(r2, m.register.g.add(r3, s5))
  }

  /** The third word, from the first word one clock later. */
  function PriorOf<W>(m: Machine<W>, next: W, r2: W, s5: W): W
  {
    m.register.g.add(m.minus(next, r2), s5)
  }

  lemma NextPrior<W(!new)>(m: Machine<W>, r2: W, r3: W, next: W, s5: W)
    requires MachineLaws(m)
    ensures PriorOf(m, NextOf(m, r2, r3, s5), r2, s5) == r3
    ensures NextOf(m, r2, PriorOf(m, next, r2, s5), s5) == next
  {
    assert PlusAt(m, r2, m.register.g.add(r3, s5)) && PlusAt(m, r2, next);
    Peel(m.register.g, r3, s5);
    Peel(m.register.g, m.minus(next, r2), s5);
  }

  datatype State<W> = State(lfsr: seq<W>, r1: W, r2: W, r3: W)

  predicate Fits<W>(s: State<W>)
  {
    |s.lfsr| == 16
  }

  /** The word the state machine puts out. */
  function Out<W>(m: Machine<W>, s: State<W>): W
    requires Fits(s)
  {
    OutOf(m, s.lfsr[15], s.r1, s.r2)
  }

  /** The output shows the first word of the state machine to whoever knows the second and the register. */
  lemma OutShows<W(!new)>(m: Machine<W>, s: State<W>)
    requires MachineLaws(m) && Fits(s)
    ensures m.minus(m.register.g.add(Out(m, s), s.r2), s.lfsr[15]) == s.r1
  {
    Peel(m.register.g, m.plus(s.lfsr[15], s.r1), s.r2);
    assert PlusAt(m, s.lfsr[15], s.r1);
  }

  /** One clock of both halves; during initialisation the output is fed back. */
  function Step<W>(m: Machine<W>, s: State<W>, coupled: bool): (t: State<W>)
    requires Fits(s)
    ensures Fits(t)
  {
    var f := if coupled then Out(m, s) else m.register.g.zero;
    State(Clock(m.register, s.lfsr, f), NextOf(m, s.r2, s.r3, s.lfsr[5]), m.s1(s.r1), m.s2(s.r2))
  }

  /** The state before a clock, from the state after it. */
  function Back<W>(m: Machine<W>, t: State<W>, coupled: bool): (s: State<W>)
    requires Fits(t)
    ensures Fits(s)
  {
    var r1, r2 := m.s1Inv(t.r2), m.s2Inv(t.r3);
    var f := if coupled then OutOf(m, t.lfsr[14], r1, r2) else m.register.g.zero;
    State(Unclock(m.register, t.lfsr, f), r1, r2, PriorOf(m, t.r1, r2, t.lfsr[4]))
  }

  lemma BackStep<W(!new)>(m: Machine<W>, s: State<W>, coupled: bool)
    requires MachineLaws(m) && Fits(s)
    ensures Back(m, Step(m, s, coupled), coupled) == s
  {
    ClockBijective(m.register, s.lfsr, if coupled then Out(m, s) else m.register.g.zero);
    NextPrior(m, s.r2, s.r3, s.r1, s.lfsr[5]);
    assert BoxesAt(m, s.r1) && BoxesAt(m, s.r2);
  }

  lemma StepBack<W(!new)>(m: Machine<W>, t: State<W>, coupled: bool)
    requires MachineLaws(m) && Fits(t)
    ensures Step(m, Back(m, t, coupled), coupled) == t
  {
    var s := Back(m, t, coupled);
    ClockBijective(m.register, t.lfsr, if coupled then OutOf(m, t.lfsr[14], s.r1, s.r2) else m.register.g.zero);
    NextPrior(m, s.r2, s.r3, t.r1, t.lfsr[4]);
    assert BoxesAt(m, t.r2) && BoxesAt(m, t.r3);
  }

  function Steps<W>(m: Machine<W>, s: State<W>, n: nat, coupled: bool): (t: State<W>)
    requires Fits(s)
    ensures Fits(t)
  {
    if n == 0 then s else Step(m, Steps(m, s, n - 1, coupled), coupled)
  }

  predicate StepsTo<W(==)>(m: Machine<W>, path: nat -> State<W>, t: nat, coupled: bool)
  {
    Fits(path(t)) && path(t + 1) == Step(m, path(t), coupled)
  }

  /** Steps from a state of a path that follows the machine stay on the path. */
  lemma {:induction false} StepsFollow<W>(m: Machine<W>, path: nat -> State<W>, t: nat, n: nat, coupled: bool)
    requires Fits(path(t)) && forall i: nat | t <= i < t + n :: StepsTo(m, path, i, coupled)
    ensures Steps(m, path(t), n, coupled) == path(t + n)
  {
    if n > 0 {
      StepsFollow(m, path, t, n - 1, coupled);
      assert StepsTo(m, path, t + n - 1, coupled);
    }
  }

  function Backs<W>(m: Machine<W>, t: State<W>, n: nat, coupled: bool): (s: State<W>)
    requires Fits(t)
    ensures Fits(s)
    decreases n
  {
    if n == 0 then t else Backs(m, Back(m, t, coupled), n - 1, coupled)
  }

  /** Any number of clocks can be undone, */
  lemma {:induction false} BacksSteps<W(!new)>(m: Machine<W>, s: State<W>, n: nat, coupled: bool)
    requires MachineLaws(m) && Fits(s)
    ensures Backs(m, Steps(m, s, n, coupled), n, coupled) == s
    decreases n
  {
    if n > 0 {
      BacksSteps(m, s, n - 1, coupled);
      BacksOne(m, Steps(m, s, n - 1, coupled), n, coupled);
    }
  }

  lemma BacksOne<W(!new)>(m: Machine<W>, s: State<W>, n: nat, coupled: bool)
    requires MachineLaws(m) && Fits(s) && n > 0
    ensures Backs(m, Step(m, s, coupled), n, coupled) == Backs(m, s, n - 1, coupled)
  {
    BackStep(m, s, coupled);
  }

  /** and every state is reached by them: together a bijection. */
  lemma {:induction false} StepsBacks<W(!new)>(m: Machine<W>, t: State<W>, n: nat, coupled: bool)
    requires MachineLaws(m) && Fits(t)
    ensures Steps(m, Backs(m, t, n, coupled), n, coupled) == t
    decreases n
  {
    if n > 0 {
      StepsBacks(m, Back(m, t, coupled), n - 1, coupled);
      StepBack(m, t, coupled);
    }
  }

  // ---- Initialisation and the keystream

  /** The state that the key and the initialisation vector load. */
  function Load<W>(g: Group<W>, ones: W, k: seq<W>, iv: seq<W>): (s: State<W>)
    requires |k| == |iv| == 4
    ensures Fits(s)
  {
    State([g.add(k[0], ones), g.add(k[1], ones), g.add(k[2], ones), g.add(k[3], ones),
           k[0], k[1], k[2], k[3],
           g.add(k[0], ones), g.add(g.add(k[1], ones), iv[3]), g.add(g.add(k[2], ones), iv[2]), g.add(k[3], ones),
           g.add(k[0], iv[1]), k[1], k[2], g.add(k[3], iv[0])],
          g.zero, g.zero, g.zero)
  }

  const INIT_CLOCKS := 32

  function Initialized<W>(m: Machine<W>, ones: W, k: seq<W>, iv: seq<W>): (s: State<W>)
    requires |k| == |iv| == 4
    ensures Fits(s)
  {
    Steps(m, Load(m.register.g, ones, k, iv), INIT_CLOCKS, true)
  }

  /** The key and the vector that a loaded register shows. */
  function KeyOf<W>(s: State<W>): seq<W>
    requires Fits(s)
  {
    s.lfsr[4..8]
  }

  function VectorOf<W>(g: Group<W>, ones: W, s: State<W>): seq<W>
    requires Fits(s)
  {
    [g.add(s.lfsr[15], s.lfsr[7]), g.add(s.lfsr[12], s.lfsr[4]),
     g.add(s.lfsr[10], g.add(s.lfsr[6], ones)), g.add(s.lfsr[9], g.add(s.lfsr[5], ones))]
  }

  lemma LoadShows<W(!new)>(g: Group<W>, ones: W, k: seq<W>, iv: seq<W>)
    requires Laws(g) && |k| == |iv| == 4
    ensures KeyOf(Load(g, ones, k, iv)) == k && VectorOf(g, ones, Load(g, ones, k, iv)) == iv
  {
    forall x, y ensures g.add(g.add(x, y), x) == y {
      assert CommAt(g, x, y);
      Peel(g, y, x);
    }
  }

  /** Initialisation loses nothing: running it backwards from the state it leaves shows the key and
      the initialisation vector. */
  lemma InitializationReversible<W(!new)>(m: Machine<W>, ones: W, k: seq<W>, iv: seq<W>)
    requires MachineLaws(m) && |k| == |iv| == 4
    ensures var start := Backs(m, Initialized(m, ones, k, iv), INIT_CLOCKS, true);
            KeyOf(start) == k && VectorOf(m.register.g, ones, start) == iv
  {
    BacksSteps(m, Load(m.register.g, ones, k, iv), INIT_CLOCKS, true);
    LoadShows(m.register.g, ones, k, iv);
  }

  /** Different keys or vectors leave different states. */
  lemma InitializationInjective<W(!new)>(m: Machine<W>, ones: W, k: seq<W>, iv: seq<W>, k': seq<W>, iv': seq<W>)
    requires MachineLaws(m) && |k| == |iv| == |k'| == |iv'| == 4
    ensures Initialized(m, ones, k, iv) == Initialized(m, ones, k', iv') <==> k == k' && iv == iv'
  {
    InitializationReversible(m, ones, k, iv);
    InitializationReversible(m, ones, k', iv');
  }

  /** Keystream word t: the output XOR the first register word, one clock after the discarded one. */
  function KeyWord<W>(m: Machine<W>, s: State<W>, t: nat): W
    requires Fits(s)
  {
    Output(m, Steps(m, s, t + 1, false))
  }

  function Output<W>(m: Machine<W>, s: State<W>): W
    requires Fits(s)
  {
    m.register.g.add(Out(m, s), s.lfsr[0])
  }

  /** The first n words of the keystream. */
  function KeyWords<W>(m: Machine<W>, s: State<W>, n: nat): (z: seq<W>)
    requires Fits(s)
    ensures |z| == n
  {
    if n == 0 then [] else KeyWords(m, s, n - 1) + [KeyWord(m, s, n - 1)]
  }

  lemma {:induction false} KeyWordsAt<W>(m: Machine<W>, s: State<W>, n: nat, t: nat)
    requires Fits(s) && t < n
    ensures KeyWords(m, s, n)[t] == KeyWord(m, s, t)
  {
    if t < n - 1 { KeyWordsAt(m, s, n - 1, t); }
  }

  /** A shorter keystream is a prefix of a longer one. */
  lemma {:induction false} KeyWordsPrefix<W>(m: Machine<W>, s: State<W>, n: nat, k: nat)
    requires Fits(s) && k <= n
    ensures KeyWords(m, s, n)[..k] == KeyWords(m, s, k)
  {
    if k < n {
      KeyWordsPrefix(m, s, n - 1, k);
      assert KeyWords(m, s, n)[..k] == KeyWords(m, s, n - 1)[..k];
    }
  }

  /** In keystream mode the register half runs by itself. */
  lemma {:induction false} StepsRegister<W(!new)>(m: Machine<W>, s: State<W>, n: nat)
    requires Fits(s)
    ensures Steps(m, s, n, false).lfsr == Clocks(m.register, s.lfsr, Silence(m.register, n))
  {
    if n > 0 {
      StepsRegister(m, s, n - 1);
      SilenceClocks(m.register, s.lfsr, n);
    }
  }

  lemma SilenceClocks<W>(k: Register<W>, l: seq<W>, n: nat)
    requires |l| == 16 && n > 0
    ensures Clocks(k, l, Silence(k, n)) == Clock(k, Clocks(k, l, Silence(k, n - 1)), k.g.zero)
  {
    assert Silence(k, n)[..n - 1] == Silence(k, n - 1);
  }

  /** The keystream, with its register words taken from the linear recurrence. */
  lemma KeyWordFollowsRecurrence<W(!new)>(m: Machine<W>, s: State<W>, t: nat)
    requires MachineLaws(m) && Fits(s)
    ensures var now := Steps(m, s, t + 1, false);
            KeyWord(m, s, t) == m.register.g.add(OutOf(m, Recurrence(m.register, s.lfsr, t + 16), now.r1, now.r2),
                                                 Recurrence(m.register, s.lfsr, t + 1))
  {
    StepsRegister(m, s, t + 1);
    ClocksFollowRecurrence(m.register, s.lfsr, t + 1, 15);
    ClocksFollowRecurrence(m.register, s.lfsr, t + 1, 0);
  }

  // ---- The source's state and its methods

  class S3gState<W(0)> {
    const m: Machine<W>
    var lfsr: array<W>
    var fsm: array<W>

    ghost predicate Valid()
      reads this
    {
      lfsr.Length == 16 && fsm.Length == 3 && lfsr != fsm
    }

    ghost function Now(): (s: State<W>)
      requires Valid()
      reads this, lfsr, fsm
      ensures Fits(s)
    {
      State(lfsr[..], fsm[0], fsm[1], fsm[2])
    }

    /** `s3g_initialize`: allocates the arrays, loads them and clocks both halves together. */
    constructor (machine: Machine<W>, ones: W, k: array<W>, iv: array<W>)
      requires k.Length == iv.Length == 4
      ensures Valid() && m == machine && fresh(lfsr) && fresh(fsm)
      ensures Now() == Initialized(machine, ones, k[..], iv[..])
    {
      m := machine;
      lfsr := new W[16];
      fsm := new W[3];
      new;
      LoadState(ones, k, iv);
      ghost var start := Now();
      for i := 0 to 32
        invariant Valid() && fresh(lfsr) && fresh(fsm)
        invariant Now() == Steps(m, start, i, true)
      {
        var f := ClockFsm();
        ClockLfsr(f);
      }
    }

    /** `s3g_clock_lfsr` */
    method ClockLfsr(f: W)
      requires Valid()
      modifies lfsr
      ensures Valid() && lfsr[..] == Clock(m.register, old(lfsr[..]), f)
    {
      ghost var was := lfsr[..];
      var v := Feed(m.register, lfsr[0], lfsr[2], lfsr[11], f);
      for i := 0 to 15
        invariant forall k | 0 <= k < i :: lfsr[k] == was[k + 1]
        invariant forall k | i <= k < 16 :: lfsr[k] == was[k]
      {
        lfsr[i] := lfsr[i + 1];
      }
      lfsr[15] := v;
    }

    /** `s3g_clock_fsm` */
    method ClockFsm() returns (f: W)
      requires Valid()
      modifies fsm
      ensures Valid() && f == Out(m, old(Now()))
      ensures Now() == State(old(lfsr[..]), NextOf(m, old(fsm[1]), old(fsm[2]), old(lfsr[5])),
                             m.s1(old(fsm[0])), m.s2(old(fsm[1])))
    {
      f := m.register.g.add(m.plus(lfsr[15], fsm[0]), fsm[1]);
      var r := m.plus(fsm[1], m.register.g.add(fsm[2], lfsr[5]));
      fsm[2] := m.s2(fsm[1]);
      fsm[1] := m.s1(fsm[0]);
      fsm[0] := r;
    }

    /** The assignments of `s3g_initialize`. */
    method LoadState(ones: W, k: array<W>, iv: array<W>)
      requires Valid() && k.Length == iv.Length == 4
      requires {lfsr, fsm} !! {k, iv}
      modifies lfsr, fsm
      ensures Valid() && Now() == Load(m.register.g, ones, k[..], iv[..])
    {
      LoadUpper(ones, k[..], iv[..]);
      LoadLower(ones, k[..]);
      assert lfsr[..] == lfsr[..8] + lfsr[8..];
      fsm[0] := m.register.g.zero;
      fsm[1] := m.register.g.zero;
      fsm[2] := m.register.g.zero;
    }

    method LoadUpper(ones: W, k: seq<W>, iv: seq<W>)
      requires Valid() && |k| == |iv| == 4
      modifies lfsr
      ensures lfsr[8..] == Load(m.register.g, ones, k, iv).lfsr[8..]
    {
      var g := m.register.g;
      lfsr[15] := g.add(k[3], iv[0]);
      lfsr[14] := k[2];
      lfsr[13] := k[1];
      lfsr[12] := g.add(k[0], iv[1]);
      ghost var top := lfsr[12..];
      assert top == Load(m.register.g, ones, k, iv).lfsr[12..];
      LoadMiddle(ones, k, iv);
      assert lfsr[8..] == lfsr[8..12] + top;
    }

    method LoadMiddle(ones: W, k: seq<W>, iv: seq<W>)
      requires Valid() && |k| == |iv| == 4
      modifies lfsr
      ensures lfsr[8..12] == [m.register.g.add(k[0], ones), m.register.g.add(m.register.g.add(k[1], ones), iv[3]),
                              m.register.g.add(m.register.g.add(k[2], ones), iv[2]), m.register.g.add(k[3], ones)]
      ensures lfsr[12..] == old(lfsr[12..])
    {
      var g := m.register.g;
      lfsr[11] := g.add(k[3], ones);
      lfsr[10] := g.add(g.add(k[2], ones), iv[2]);
      lfsr[9] := g.add(g.add(k[1], ones), iv[3]);
      lfsr[8] := g.add(k[0], ones);
    }

    method LoadLower(ones: W, k: seq<W>)
      requires Valid() && |k| == 4
      modifies lfsr
      ensures lfsr[8..] == old(lfsr[8..])
      ensures lfsr[..8] == [m.register.g.add(k[0], ones), m.register.g.add(k[1], ones), m.register.g.add(k[2], ones),
                            m.register.g.add(k[3], ones), k[0], k[1], k[2], k[3]]
    {
      var g := m.register.g;
      lfsr[7] := k[3];
      lfsr[6] := k[2];
      lfsr[5] := k[1];
      lfsr[4] := k[0];
      lfsr[3] := g.add(k[3], ones);
      lfsr[2] := g.add(k[2], ones);
      lfsr[1] := g.add(k[1], ones);
      lfsr[0] := g.add(k[0], ones);
    }

    /** `s3g_generate_keystream` */
    method GenerateKeystream(n: nat, ks: array<W>)
      requires Valid() && n <= ks.Length && ks != lfsr && ks != fsm
      modifies lfsr, fsm, ks
      ensures Valid() && Now() == Steps(m, old(Now()), n + 1, false)
      ensures ks[..n] == KeyWords(m, old(Now()), n) && ks[n..] == old(ks[n..])
    {
      ghost var start := Now();
      var f := ClockFsm();
      ClockLfsr(m.register.g.zero);
      assert Steps(m, start, 0, false) == start;
      for t := 0 to n
        invariant Valid() && Now() == Steps(m, start, t + 1, false)
        invariant ks[..t] == KeyWords(m, start, t) && ks[n..] == old(ks[n..])
      {
        var z := NextKeyWord();
        ks[t] := z;
        assert ks[..t + 1] == ks[..t] + [z];
      }
    }

    /** One iteration of the keystream loop. */
    method NextKeyWord() returns (z: W)
      requires Valid()
      modifies lfsr, fsm
      ensures Valid() && Now() == Step(m, old(Now()), false)
      ensures z == Output(m, old(Now()))
    {
      var f := ClockFsm();
      z := m.register.g.add(f, lfsr[0]);
      ClockLfsr(m.register.g.zero);
    }
  }

  /** Initialises a machine and takes n words of keystream from it. */
  method Keystream<W(0)>(m: Machine<W>, ones: W, k: array<W>, iv: array<W>, n: nat) returns (ks: array<W>)
    requires k.Length == iv.Length == 4
    ensures fresh(ks) && ks[..] == KeyWords(m, Initialized(m, ones, k[..], iv[..]), n)
  {
    var state := new S3gState(m, ones, k, iv);
    ks := new W[n](_ => m.register.g.zero);
    state.GenerateKeystream(n, ks);
    assert ks[..n] == ks[..];
  }
}
