/** The algebra behind column mixing, over any group in which everything is its own inverse.

    A mixing is x + (s(x) + f(d(x))), where s sums a column, d adds neighbours and f doubles.
    From the laws that relate the three, mixing twice is x + f f d d (x), and mixing four times
    changes nothing. */
module XorAlgebra {

  datatype Group<!T> = Group(add: (T, T) -> T, zero: T)

  predicate AssocAt<T(==)>(g: Group<T>, x: T, y: T, z: T) { g.add(g.add(x, y), z) == g.add(x, g.add(y, z)) }
  predicate CommAt<T(==)>(g: Group<T>, x: T, y: T) { g.add(x, y) == g.add(y, x) }
  predicate SelfAt<T(==)>(g: Group<T>, x: T) { g.add(x, x) == g.zero && g.add(x, g.zero) == x }

  ghost predicate Laws<T(!new)>(g: Group<T>)
  {
    (forall x, y, z :: AssocAt(g, x, y, z)) && (forall x, y :: CommAt(g, x, y)) && (forall x :: SelfAt(g, x))
  }

  predicate AddsAt<T(==)>(g: Group<T>, f: T -> T, x: T, y: T) { f(g.add(x, y)) == g.add(f(x), f(y)) }

  ghost predicate Linear<T(!new)>(g: Group<T>, f: T -> T)
  {
    forall x, y :: AddsAt(g, f, x, y)
  }

  /** (x + p) + (p + w) is x + w. */
  lemma Cancel<T(!new)>(g: Group<T>, x: T, p: T, w: T)
    requires Laws(g)
    ensures g.add(g.add(x, p), g.add(p, w)) == g.add(x, w)
  {
    assert AssocAt(g, x, p, g.add(p, w)) && AssocAt(g, p, p, w) && SelfAt(g, p);
    assert CommAt(g, g.zero, w) && SelfAt(g, w);
  }

  /** (x + y) + y is x. */
  lemma Peel<T(!new)>(g: Group<T>, x: T, y: T)
    requires Laws(g)
    ensures g.add(g.add(x, y), y) == x
  {
    assert AssocAt(g, x, y, y) && SelfAt(g, y) && SelfAt(g, x);
  }

  /** (a + p) + (b + q) is (a + b) + (p + q). */
  lemma Swap<T(!new)>(g: Group<T>, a: T, b: T, p: T, q: T)
    requires Laws(g)
    ensures g.add(g.add(a, p), g.add(b, q)) == g.add(g.add(a, b), g.add(p, q))
  {
    assert AssocAt(g, a, p, g.add(b, q)) && AssocAt(g, p, b, q) && CommAt(g, p, b) && AssocAt(g, b, p, q);
    assert AssocAt(g, a, b, g.add(p, q));
  }

  lemma LinearZero<T(!new)>(g: Group<T>, f: T -> T)
    requires Laws(g) && Linear(g, f)
    ensures f(g.zero) == g.zero
  {
    assert SelfAt(g, g.zero) && AddsAt(g, f, g.zero, g.zero) && SelfAt(g, f(g.zero));
  }

  /** The laws that relate the sum s, the difference d and the doubling f at one argument. */
  predicate MixLawsAt<T(==)>(g: Group<T>, s: T -> T, d: T -> T, f: T -> T, x: T)
  {
    && s(d(x)) == g.zero && d(s(x)) == g.zero && s(s(x)) == g.zero
    && d(d(d(d(x)))) == g.zero
    && s(f(x)) == f(s(x)) && d(f(x)) == f(d(x))
  }

  ghost predicate MixLaws<T(!new)>(g: Group<T>, s: T -> T, d: T -> T, f: T -> T)
  {
    && Laws(g) && Linear(g, s) && Linear(g, d) && Linear(g, f)
    && forall x :: MixLawsAt(g, s, d, f, x)
  }

  function Mixed<T>(g: Group<T>, s: T -> T, d: T -> T, f: T -> T, x: T): T
  {
    g.add(x, g.add(s(x), f(d(x))))
  }

  lemma MixedSum<T(!new)>(g: Group<T>, s: T -> T, d: T -> T, f: T -> T, x: T)
    requires MixLaws(g, s, d, f)
    ensures s(Mixed(g, s, d, f, x)) == s(x)
  {
    assert AddsAt(g, s, x, g.add(s(x), f(d(x)))) && AddsAt(g, s, s(x), f(d(x)));
    assert MixLawsAt(g, s, d, f, x) && MixLawsAt(g, s, d, f, d(x));
    LinearZero(g, f);
    assert SelfAt(g, g.zero) && SelfAt(g, s(x));
  }

  lemma MixedDifference<T(!new)>(g: Group<T>, s: T -> T, d: T -> T, f: T -> T, x: T)
    requires MixLaws(g, s, d, f)
    ensures f(d(Mixed(g, s, d, f, x))) == g.add(f(d(x)), f(f(d(d(x)))))
  {
    assert AddsAt(g, d, x, g.add(s(x), f(d(x)))) && AddsAt(g, d, s(x), f(d(x)));
    assert MixLawsAt(g, s, d, f, x) && MixLawsAt(g, s, d, f, d(x));
    assert CommAt(g, g.zero, f(d(d(x)))) && SelfAt(g, f(d(d(x))));
    assert AddsAt(g, f, d(x), f(d(d(x))));
  }

  /** f f d d */
  function Twisted<T>(d: T -> T, f: T -> T, x: T): T
  {
    f(f(d(d(x))))
  }

  lemma MixedTwice<T(!new)>(g: Group<T>, s: T -> T, d: T -> T, f: T -> T, x: T)
    requires MixLaws(g, s, d, f)
    ensures Mixed(g, s, d, f, Mixed(g, s, d, f, x)) == g.add(x, Twisted(d, f, x))
  {
    MixedSum(g, s, d, f, x);
    MixedDifference(g, s, d, f, x);
    assert AssocAt(g, s(x), f(d(x)), Twisted(d, f, x));
    Cancel(g, x, g.add(s(x), f(d(x))), Twisted(d, f, x));
  }

  lemma TwistedAdds<T(!new)>(g: Group<T>, d: T -> T, f: T -> T, x: T, y: T)
    requires Linear(g, d) && Linear(g, f)
    ensures Twisted(d, f, g.add(x, y)) == g.add(Twisted(d, f, x), Twisted(d, f, y))
  {
    assert AddsAt(g, d, x, y) && AddsAt(g, d, d(x), d(y));
    assert AddsAt(g, f, d(d(x)), d(d(y))) && AddsAt(g, f, f(d(d(x))), f(d(d(y))));
  }

  lemma TwistedTwice<T(!new)>(g: Group<T>, s: T -> T, d: T -> T, f: T -> T, x: T)
    requires MixLaws(g, s, d, f)
    ensures Twisted(d, f, Twisted(d, f, x)) == g.zero
  {
    assert MixLawsAt(g, s, d, f, f(d(d(x)))) && MixLawsAt(g, s, d, f, d(d(x)));
    assert MixLawsAt(g, s, d, f, f(d(d(d(x))))) && MixLawsAt(g, s, d, f, d(d(d(x))));
    assert MixLawsAt(g, s, d, f, x);
    LinearZero(g, f);
  }

  /** Four mixings change nothing. */
  lemma MixedFour<T(!new)>(g: Group<T>, s: T -> T, d: T -> T, f: T -> T, x: T)
    requires MixLaws(g, s, d, f)
    ensures Mixed(g, s, d, f, Mixed(g, s, d, f, Mixed(g, s, d, f, Mixed(g, s, d, f, x)))) == x
  {
    var y := Mixed(g, s, d, f, Mixed(g, s, d, f, x));
    MixedTwice(g, s, d, f, x);
    MixedTwice(g, s, d, f, y);
    TwistedAdds(g, d, f, x, Twisted(d, f, x));
    TwistedTwice(g, s, d, f, x);
    Cancel(g, x, Twisted(d, f, x), g.zero);
    assert SelfAt(g, x);
  }

  /** Addition position by position. */
  function Sums<T>(g: Group<T>, x: seq<T>, y: seq<T>): (r: seq<T>)
    requires |x| == |y|
    ensures |r| == |x|
  {
    seq(|x|, i requires 0 <= i < |x| => g.add(x[i], y[i]))
  }

  // ---- Building linear maps

  lemma ComposeLinear<T(!new)>(g: Group<T>, f: T -> T, h: T -> T, k: T -> T)
    requires Linear(g, f) && Linear(g, h) && forall x :: k(x) == f(h(x))
    ensures Linear(g, k)
  {
    forall x, y ensures AddsAt(g, k, x, y) {
      assert AddsAt(g, h, x, y) && AddsAt(g, f, h(x), h(y));
    }
  }

  /** A map that an additive bijection carries to a linear map is linear. */
  lemma TransportLinear<T(!new), U(!new)>(g: Group<T>, f: T -> T, into: T -> U, back: U -> T,
                                          h: Group<U>, k: U -> U)
    requires Linear(h, k)
    requires forall x :: FollowsAt(f, into, back, k, x)
    requires forall x, y :: CarriesAt(g, into, h, x, y)
    ensures Linear(g, f)
  {
    forall x, y ensures AddsAt(g, f, x, y) {
      assert CarriesAt(g, into, h, x, y) && AddsAt(h, k, into(x), into(y)) && CarriesAt(g, into, h, f(x), f(y));
      assert FollowsAt(f, into, back, k, g.add(x, y));
      assert FollowsAt(f, into, back, k, x) && FollowsAt(f, into, back, k, y);
      assert FollowsAt(f, into, back, k, f(g.add(x, y))) && FollowsAt(f, into, back, k, g.add(f(x), f(y)));
    }
  }

  predicate FollowsAt<T(==), U(==)>(f: T -> T, into: T -> U, back: U -> T, k: U -> U, x: T)
  {
    back(into(x)) == x && into(f(x)) == k(into(x))
  }

  predicate CarriesAt<T, U(==)>(g: Group<T>, into: T -> U, h: Group<U>, x: T, y: T)
  {
    into(g.add(x, y)) == h.add(into(x), into(y))
  }
}
