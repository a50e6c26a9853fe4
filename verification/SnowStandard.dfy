/** SNOW 3G as the standard writes it (sections 3.4 and 4 of the SNOW 3G specification): one sequence of
    register words and three of state machine words, over the time since loading.

    Nothing of `SnowMachine` but its operations is used in the sequences; `KeystreamIsStandard` says that
    the machine of the source puts out their keystream. */
module SnowStandard {
  import opened XorAlgebra
  import opened SnowMachine

  /** A machine with its key and vector. */
  datatype Setup<!W> = Setup(m: Machine<W>, ones: W, k: seq<W>, iv: seq<W>)

  predicate Proper<W>(p: Setup<W>)
  {
    |p.k| == |p.iv| == 4
  }

  /** The word loaded at position t: a key word, inverted in the first half of each eight, with a word of
      the vector at four of the positions. */
  function Loaded<W>(p: Setup<W>, t: nat): W
    requires Proper(p) && t < 16
  {
    var add := p.m.register.g.add;
    var x := if t % 8 < 4 then add(p.k[t % 4], p.ones) else p.k[t % 4];
    match t
    case 9 => add(x, p.iv[3])
    case 10 => add(x, p.iv[2])
    case 12 => add(x, p.iv[1])
    case 15 => add(x, p.iv[0])
    case _ => x
  }

  /** Register words: at time t the register holds those from t to t + 15.  The output of the state
      machine is fed back for the first 32 clocks. */
  function A<W>(p: Setup<W>, t: nat): W
    requires Proper(p)
    decreases t, 0
  {
    var add := p.m.register.g.add;
    if t < 16 then Loaded(p, t)
    else
      var fed := add(add(p.m.register.times(A(p, t - 16)), A(p, t - 14)), p.m.register.over(A(p, t - 5)));
      if t - 16 < 32 then add(fed, F(p, t - 16)) else fed
  }

  /** The words of the state machine at time t. */
  function R1<W>(p: Setup<W>, t: nat): W
    requires Proper(p)
    decreases t + 4, 1
  {
    if t == 0 then p.m.register.g.zero
    else p.m.plus(R2(p, t - 1), p.m.register.g.add(R3(p, t - 1), A(p, t + 4)))
  }

  function R2<W>(p: Setup<W>, t: nat): W
    requires Proper(p)
    decreases t + 4, 1
  {
    if t == 0 then p.m.register.g.zero else p.m.s1(R1(p, t - 1))
  }

  function R3<W>(p: Setup<W>, t: nat): W
    requires Proper(p)
    decreases t + 4, 1
  {
    if t == 0 then p.m.register.g.zero else p.m.s2(R2(p, t - 1))
  }

  /** The output of the state machine at time t. */
  function F<W>(p: Setup<W>, t: nat): W
    requires Proper(p)
    decreases t + 15, 2
  {
    p.m.register.g.add(p.m.plus(A(p, t + 15), R1(p, t)), R2(p, t))
  }

  /** Word i of the keystream: after 32 clocks of initialisation and one whose output is discarded. */
  function Z<W>(p: Setup<W>, i: nat): W
    requires Proper(p)
  {
    p.m.register.g.add(F(p, 33 + i), A(p, 33 + i))
  }

  // ---- The machine of the source follows the sequences

  function WordsOf<W>(p: Setup<W>): nat -> W
    requires Proper(p)
  {
    (t: nat) => A(p, t)
  }

  /** The state at time t. */
  function At<W>(p: Setup<W>, t: nat): (s: State<W>)
    requires Proper(p)
    ensures Fits(s)
  {
    State(Window(WordsOf(p), t), R1(p, t), R2(p, t), R3(p, t))
  }

  lemma LoadedAt<W>(p: Setup<W>, i: nat)
    requires Proper(p) && i < 16
    ensures Load(p.m.register.g, p.ones, p.k, p.iv).lfsr[i] == Loaded(p, i)
  {
  }

  lemma LoadIs<W>(p: Setup<W>)
    requires Proper(p)
    ensures Load(p.m.register.g, p.ones, p.k, p.iv) == At(p, 0)
  {
    var s := Load(p.m.register.g, p.ones, p.k, p.iv);
    forall i | 0 <= i < 16 ensures s.lfsr[i] == A(p, 0 + i) {
      LoadedAt(p, i);
    }
    assert s.lfsr == Window(WordsOf(p), 0);
  }

  lemma FeedIs<W(!new)>(p: Setup<W>, t: nat, f: W)
    requires Proper(p) && Laws(p.m.register.g) && f == if t < 32 then F(p, t) else p.m.register.g.zero
    ensures Feed(p.m.register, A(p, t), A(p, t + 2), A(p, t + 11), f) == A(p, t + 16)
  {
    var g, k := p.m.register.g, p.m.register;
    assert SelfAt(g, g.add(g.add(k.times(A(p, t)), A(p, t + 2)), k.over(A(p, t + 11))));
  }

  lemma StepIs<W(!new)>(p: Setup<W>, t: nat, coupled: bool)
    requires Proper(p) && Laws(p.m.register.g) && coupled == (t < 32)
    ensures Step(p.m, At(p, t), coupled) == At(p, t + 1)
  {
    assert At(p, t).lfsr[15] == A(p, t + 15) && At(p, t).lfsr[5] == A(p, t + 5);
    var f := if coupled then F(p, t) else p.m.register.g.zero;
    FeedIs(p, t, f);
    WindowClock(p.m.register, WordsOf(p), t, f);
  }

  function Path<W>(p: Setup<W>): nat -> State<W>
    requires Proper(p)
  {
    (t: nat) => At(p, t)
  }

  lemma PathSteps<W(!new)>(p: Setup<W>, t: nat, coupled: bool)
    requires Proper(p) && Laws(p.m.register.g) && coupled == (t < 32)
    ensures StepsTo(p.m, Path(p), t, coupled)
  {
    StepIs(p, t, coupled);
  }

  /** Initialisation ends at time 32. */
  lemma InitializedIs<W(!new)>(p: Setup<W>)
    requires Proper(p) && Laws(p.m.register.g)
    ensures Initialized(p.m, p.ones, p.k, p.iv) == Path(p)(32)
  {
    LoadIs(p);
    forall t: nat | t < 32 ensures StepsTo(p.m, Path(p), t, true) {
      PathSteps(p, t, true);
    }
    StepsFollow(p.m, Path(p), 0, 32, true);
  }

  lemma OutputIs<W>(p: Setup<W>, t: nat)
    requires Proper(p)
    ensures Output(p.m, At(p, t)) == p.m.register.g.add(F(p, t), A(p, t))
  {
  }

  /** The keystream of the source's machine is that of the standard. */
  lemma KeystreamIsStandard<W(!new)>(p: Setup<W>, i: nat)
    requires Proper(p) && Laws(p.m.register.g)
    ensures KeyWord(p.m, Initialized(p.m, p.ones, p.k, p.iv), i) == Z(p, i)
  {
    InitializedIs(p);
    forall t: nat | 32 <= t < 33 + i ensures StepsTo(p.m, Path(p), t, false) {
      PathSteps(p, t, false);
    }
    StepsFollow(p.m, Path(p), 32, i + 1, false);
    OutputIs(p, 33 + i);
  }
}
