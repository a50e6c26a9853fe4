/** The column mixing that Rijndael and the two S-boxes of SNOW 3G share.

    Columns are taken over any group in which everything is its own inverse, with any additive
    doubling f; bytes under XOR are the instance of the source.  Mixing four times is the identity,
    which is how mixing is undone. */
module MixColumn {
  import opened XorAlgebra

  datatype Column<T> = Column(a: T, b: T, c: T, d: T)

  /** The mixing of one column as the source computes it: the sum of the column, and one doubling
      for each pair of neighbours. */
  function Mix<T>(g: Group<T>, f: T -> T, x: Column<T>): Column<T>
  {
    var sum := Total(g, x);
    Column(g.add(x.a, g.add(sum, f(g.add(x.a, x.b)))), g.add(x.b, g.add(sum, f(g.add(x.b, x.c)))),
           g.add(x.c, g.add(sum, f(g.add(x.c, x.d)))), g.add(x.d, g.add(sum, f(g.add(x.d, x.a)))))
  }

  function Total<T>(g: Group<T>, x: Column<T>): T
  {
    g.add(g.add(g.add(x.a, x.b), x.c), x.d)
  }

  /** A map applied to each entry. */
  function Each<T>(s: T -> T, x: Column<T>): Column<T>
  {
    Column(s(x.a), s(x.b), s(x.c), s(x.d))
  }

  // ---- Columns as a group

  function Plus<T>(g: Group<T>, x: Column<T>, y: Column<T>): Column<T>
  {
    Column(g.add(x.a, y.a), g.add(x.b, y.b), g.add(x.c, y.c), g.add(x.d, y.d))
  }

  function Columns<T>(g: Group<T>): Group<Column<T>>
  {
    Group((x, y) => Plus(g, x, y), Column(g.zero, g.zero, g.zero, g.zero))
  }

  function Sum<T>(g: Group<T>): Column<T> -> Column<T>
  {
    (x: Column<T>) => Column(Total(g, x), Total(g, x), Total(g, x), Total(g, x))
  }

  function Difference<T>(g: Group<T>): Column<T> -> Column<T>
  {
    (x: Column<T>) => Column(g.add(x.a, x.b), g.add(x.b, x.c), g.add(x.c, x.d), g.add(x.d, x.a))
  }

  function Doubling<T>(f: T -> T): Column<T> -> Column<T>
  {
    (x: Column<T>) => Column(f(x.a), f(x.b), f(x.c), f(x.d))
  }

  lemma ColumnLaws<T(!new)>(g: Group<T>)
    requires Laws(g)
    ensures Laws(Columns(g))
  {
    forall x, y, z ensures AssocAt(Columns(g), x, y, z) {
      assert AssocAt(g, x.a, y.a, z.a) && AssocAt(g, x.b, y.b, z.b);
      assert AssocAt(g, x.c, y.c, z.c) && AssocAt(g, x.d, y.d, z.d);
    }
    forall x, y ensures CommAt(Columns(g), x, y) {
      assert CommAt(g, x.a, y.a) && CommAt(g, x.b, y.b) && CommAt(g, x.c, y.c) && CommAt(g, x.d, y.d);
    }
    forall x ensures SelfAt(Columns(g), x) {
      assert SelfAt(g, x.a) && SelfAt(g, x.b) && SelfAt(g, x.c) && SelfAt(g, x.d);
    }
  }

  lemma TotalAdds<T(!new)>(g: Group<T>, x: Column<T>, y: Column<T>)
    requires Laws(g)
    ensures Total(g, Plus(g, x, y)) == g.add(Total(g, x), Total(g, y))
  {
    Swap(g, x.a, x.b, y.a, y.b);
    Swap(g, g.add(x.a, x.b), x.c, g.add(y.a, y.b), y.c);
    Swap(g, g.add(g.add(x.a, x.b), x.c), x.d, g.add(g.add(y.a, y.b), y.c), y.d);
  }

  lemma MapsLinear<T(!new)>(g: Group<T>, f: T -> T)
    requires Laws(g) && Linear(g, f)
    ensures Linear(Columns(g), Sum(g)) && Linear(Columns(g), Difference(g)) && Linear(Columns(g), Doubling(f))
  {
    forall x, y ensures AddsAt(Columns(g), Sum(g), x, y) {
      TotalAdds(g, x, y);
    }
    forall x, y ensures AddsAt(Columns(g), Difference(g), x, y) {
      Swap(g, x.a, x.b, y.a, y.b);
      Swap(g, x.b, x.c, y.b, y.c);
      Swap(g, x.c, x.d, y.c, y.d);
      Swap(g, x.d, x.a, y.d, y.a);
    }
    forall x, y ensures AddsAt(Columns(g), Doubling(f), x, y) {
      assert AddsAt(g, f, x.a, y.a) && AddsAt(g, f, x.b, y.b) && AddsAt(g, f, x.c, y.c) && AddsAt(g, f, x.d, y.d);
    }
  }

  lemma TotalVanishes<T(!new)>(g: Group<T>, x: Column<T>)
    requires Laws(g)
    ensures Total(g, Difference(g)(x)) == g.zero
    ensures g.add(g.add(g.add(Total(g, x), Total(g, x)), Total(g, x)), Total(g, x)) == g.zero
  {
    Cancel(g, x.a, x.b, x.c);
    Cancel(g, x.a, x.c, x.d);
    Cancel(g, x.a, x.d, x.a);
    assert SelfAt(g, x.a) && SelfAt(g, Total(g, x)) && CommAt(g, g.zero, Total(g, x));
  }

  lemma DifferenceTwice<T(!new)>(g: Group<T>, x: Column<T>)
    requires Laws(g)
    ensures Difference(g)(Difference(g)(x))
            == Column(g.add(x.a, x.c), g.add(x.b, x.d), g.add(x.c, x.a), g.add(x.d, x.b))
  {
    Cancel(g, x.a, x.b, x.c);
    Cancel(g, x.b, x.c, x.d);
    Cancel(g, x.c, x.d, x.a);
    Cancel(g, x.d, x.a, x.b);
  }

  lemma DifferenceFour<T(!new)>(g: Group<T>, x: Column<T>)
    requires Laws(g)
    ensures Difference(g)(Difference(g)(Difference(g)(Difference(g)(x)))) == Columns(g).zero
  {
    DifferenceTwice(g, x);
    DifferenceTwice(g, Difference(g)(Difference(g)(x)));
    Cancel(g, x.a, x.c, x.a);
    Cancel(g, x.b, x.d, x.b);
    Cancel(g, x.c, x.a, x.c);
    Cancel(g, x.d, x.b, x.d);
    assert SelfAt(g, x.a) && SelfAt(g, x.b) && SelfAt(g, x.c) && SelfAt(g, x.d);
  }

  lemma DoublingCommutes<T(!new)>(g: Group<T>, f: T -> T, x: Column<T>)
    requires Linear(g, f)
    ensures Sum(g)(Doubling(f)(x)) == Doubling(f)(Sum(g)(x))
    ensures Difference(g)(Doubling(f)(x)) == Doubling(f)(Difference(g)(x))
  {
    assert AddsAt(g, f, x.a, x.b) && AddsAt(g, f, x.b, x.c) && AddsAt(g, f, x.c, x.d) && AddsAt(g, f, x.d, x.a);
    assert AddsAt(g, f, g.add(x.a, x.b), x.c) && AddsAt(g, f, g.add(g.add(x.a, x.b), x.c), x.d);
  }

  lemma ColumnMixLaws<T(!new)>(g: Group<T>, f: T -> T)
    requires Laws(g) && Linear(g, f)
    ensures MixLaws(Columns(g), Sum(g), Difference(g), Doubling(f))
  {
    ColumnLaws(g);
    MapsLinear(g, f);
    forall x ensures MixLawsAt(Columns(g), Sum(g), Difference(g), Doubling(f), x) {
      TotalVanishes(g, x);
      DifferenceFour(g, x);
      DoublingCommutes(g, f, x);
      assert SelfAt(g, Total(g, x));
    }
  }

  lemma MixIsMixed<T>(g: Group<T>, f: T -> T, x: Column<T>)
    ensures Mix(g, f, x) == Mixed(Columns(g), Sum(g), Difference(g), Doubling(f), x)
  {
  }

  /** Mixing a column four times is the identity, for every column. */
  lemma MixFour<T(!new)>(g: Group<T>, f: T -> T, x: Column<T>)
    requires Laws(g) && Linear(g, f)
    ensures Mix(g, f, Mix(g, f, Mix(g, f, Mix(g, f, x)))) == x
  {
    MixIsMixed(g, f, x);
    MixIsMixed(g, f, Mix(g, f, x));
    MixIsMixed(g, f, Mix(g, f, Mix(g, f, x)));
    MixIsMixed(g, f, Mix(g, f, Mix(g, f, Mix(g, f, x))));
    ColumnMixLaws(g, f);
    MixedFour(Columns(g), Sum(g), Difference(g), Doubling(f), x);
  }

  /** Three more mixings undo one. */
  function Unmix<T>(g: Group<T>, f: T -> T, x: Column<T>): Column<T>
  {
    Mix(g, f, Mix(g, f, Mix(g, f, x)))
  }

  lemma UnmixMix<T(!new)>(g: Group<T>, f: T -> T, x: Column<T>)
    requires Laws(g) && Linear(g, f)
    ensures Unmix(g, f, Mix(g, f, x)) == x && Mix(g, f, Unmix(g, f, x)) == x
  {
    MixFour(g, f, x);
  }

  // ---- The matrix

  /** One row of the circulant matrix 2, 3, 1, 1. */
  function Row<T>(g: Group<T>, f: T -> T, a: T, b: T, c: T, d: T): T
  {
    g.add(g.add(g.add(f(a), g.add(f(b), b)), c), d)
  }

  /** The product of the circulant matrix with a column. */
  function Circulant<T>(g: Group<T>, f: T -> T, x: Column<T>): Column<T>
  {
    Column(Row(g, f, x.a, x.b, x.c, x.d), Row(g, f, x.b, x.c, x.d, x.a),
           Row(g, f, x.c, x.d, x.a, x.b), Row(g, f, x.d, x.a, x.b, x.c))
  }

  /** a + (((a + b) + c) + d + p + q) is p + (q + b) + c + d. */
  lemma RowSum<T(!new)>(g: Group<T>, a: T, b: T, c: T, d: T, p: T, q: T)
    requires Laws(g)
    ensures g.add(a, g.add(g.add(g.add(g.add(a, b), c), d), g.add(p, q))) == g.add(g.add(g.add(p, g.add(q, b)), c), d)
  {
    var cd, pq := g.add(c, d), g.add(p, q);
    assert AssocAt(g, g.add(a, b), c, d) && AssocAt(g, a, b, cd);
    assert AssocAt(g, a, g.add(b, cd), pq) && AssocAt(g, a, a, g.add(g.add(b, cd), pq)) && SelfAt(g, a);
    assert CommAt(g, g.zero, g.add(g.add(b, cd), pq)) && SelfAt(g, g.add(g.add(b, cd), pq));
    assert CommAt(g, g.add(b, cd), pq) && AssocAt(g, pq, b, cd) && AssocAt(g, p, q, b);
    assert AssocAt(g, g.add(p, g.add(q, b)), c, d);
  }

  /** The total does not depend on where the column is cut. */
  lemma TotalTurns<T(!new)>(g: Group<T>, x: Column<T>)
    requires Laws(g)
    ensures Total(g, x) == Total(g, Column(x.b, x.c, x.d, x.a))
  {
    assert AssocAt(g, g.add(x.a, x.b), x.c, x.d) && AssocAt(g, x.a, x.b, g.add(x.c, x.d));
    assert CommAt(g, x.a, g.add(x.b, g.add(x.c, x.d))) && AssocAt(g, x.b, x.c, x.d);
  }

  /** The fast form of the source multiplies by the matrix. */
  lemma MixIsCirculant<T(!new)>(g: Group<T>, f: T -> T, x: Column<T>)
    requires Laws(g) && Linear(g, f)
    ensures Mix(g, f, x) == Circulant(g, f, x)
  {
    assert AddsAt(g, f, x.a, x.b) && AddsAt(g, f, x.b, x.c) && AddsAt(g, f, x.c, x.d) && AddsAt(g, f, x.d, x.a);
    TotalTurns(g, x);
    TotalTurns(g, Column(x.b, x.c, x.d, x.a));
    TotalTurns(g, Column(x.c, x.d, x.a, x.b));
    RowSum(g, x.a, x.b, x.c, x.d, f(x.a), f(x.b));
    RowSum(g, x.b, x.c, x.d, x.a, f(x.b), f(x.c));
    RowSum(g, x.c, x.d, x.a, x.b, f(x.c), f(x.d));
    RowSum(g, x.d, x.a, x.b, x.c, f(x.d), f(x.a));
  }
}
