/** What the scale and the verdict of a peer comparison mean, and that neither unit nor origin matters to them. */
module Scales {
  import opened Seqs
  import opened Statistics

  // ---------------------------------------------------------------- another unit, another origin

  /** The same population, each number by its image. */
  function Mapped(xs: seq<real>, f: real -> real): seq<real> { seq(|xs|, i requires 0 <= i < |xs| => f(xs[i])) }

  ghost predicate Keeps(f: real -> real, x: real, y: real) { x <= y <==> f(x) <= f(y) }

  ghost predicate Rises(f: real -> real) { forall x, y {:trigger Keeps(f, x, y)} :: Keeps(f, x, y) }

  lemma RisesStrictly(f: real -> real, x: real, y: real)
    requires Rises(f)
    ensures x < y <==> f(x) < f(y)
    ensures x == y <==> f(x) == f(y)
  {
    assert Keeps(f, x, y) && Keeps(f, y, x);
  }

  lemma MappedCons(x: real, xs: seq<real>, f: real -> real)
    ensures Mapped([x] + xs, f) == [f(x)] + Mapped(xs, f)
  {
  }

  lemma {:induction false} InsertedMapped(x: real, xs: seq<real>, f: real -> real)
    requires Rises(f)
    ensures Inserted(f(x), Mapped(xs, f)) == Mapped(Inserted(x, xs), f)
  {
    if xs == [] {
      InsertedAlone(x, f);
    } else {
      var first, rest := xs[0], xs[1..];
      RisesStrictly(f, first, x);
      InsertedMapped(x, rest, f);
      InsertedStep(x, first, rest, f);
      assert xs == [first] + rest;
    }
  }

  lemma InsertedAlone(x: real, f: real -> real)
    ensures Inserted(f(x), Mapped([], f)) == Mapped(Inserted(x, []), f)
  {
    assert Mapped([], f) == [] && Mapped([x], f) == [f(x)];
  }

  lemma InsertedStep(x: real, first: real, rest: seq<real>, f: real -> real)
    requires x <= first <==> f(x) <= f(first)
    requires Inserted(f(x), Mapped(rest, f)) == Mapped(Inserted(x, rest), f)
    ensures Inserted(f(x), Mapped([first] + rest, f)) == Mapped(Inserted(x, [first] + rest), f)
  {
    MappedCons(first, rest, f);
    assert ([first] + rest)[1..] == rest && ([f(first)] + Mapped(rest, f))[1..] == Mapped(rest, f);
    if x <= first { MappedCons(x, [first] + rest, f); } else { MappedCons(first, Inserted(x, rest), f); }
  }

  lemma {:induction false} InOrderMapped(xs: seq<real>, f: real -> real)
    requires Rises(f)
    ensures InOrder(Mapped(xs, f)) == Mapped(InOrder(xs), f)
  {
    if xs == [] {
      NothingMapped(f);
    } else {
      InOrderMapped(xs[1..], f);
      InOrderStep(xs, xs[0], xs[1..], f);
    }
  }

  lemma NothingMapped(f: real -> real)
    ensures Mapped([], f) == []
  {
  }

  lemma InOrderStep(xs: seq<real>, first: real, rest: seq<real>, f: real -> real)
    requires Rises(f) && InOrder(Mapped(rest, f)) == Mapped(InOrder(rest), f) && xs == [first] + rest
    ensures InOrder(Mapped(xs, f)) == Mapped(InOrder(xs), f)
  {
    InsertedMapped(first, InOrder(rest), f);
    OneMoreInOrder(first, rest);
    OneMoreInOrder(f(first), Mapped(rest, f));
    MappedCons(first, rest, f);
  }

  lemma OneMoreInOrder(first: real, rest: seq<real>)
    ensures InOrder([first] + rest) == Inserted(first, InOrder(rest))
  {
    assert ([first] + rest)[1..] == rest;
  }

  lemma {:induction false} CountsMapped(xs: seq<real>, v: real, f: real -> real)
    requires Rises(f)
    ensures Below(Mapped(xs, f), f(v)) == Below(xs, v) && Equal(Mapped(xs, f), f(v)) == Equal(xs, v)
  {
    if xs != [] {
      var last := xs[|xs| - 1];
      CountsMapped(xs[..|xs| - 1], v, f);
      assert Mapped(xs, f)[..|xs| - 1] == Mapped(xs[..|xs| - 1], f);
      RisesStrictly(f, last, v);
    }
  }

  lemma PercentileMapped(xs: seq<real>, v: real, f: real -> real)
    requires xs != [] && Rises(f)
    ensures Percentile(Mapped(xs, f), f(v)) == Percentile(xs, v)
  {
    CountsMapped(xs, v, f);
  }

  // Facts about one map, each at one point, so that no proof below multiplies.

  ghost predicate HalvesAt(f: real -> real, x: real, y: real) { (f(x) + f(y)) / 2.0 == f((x + y) / 2.0) }

  ghost predicate MovesAt(f: real -> real, g: real -> real, x: real, y: real) { f(x) - f(y) == g(x - y) }

  ghost predicate AddsAt(g: real -> real, x: real, y: real) { g(x + y) == g(x) + g(y) }

  ghost predicate FactorAt(g: real -> real, k: real, x: real) { g(k * x) == k * g(x) }

  ghost predicate PartAt(g: real -> real, x: real, n: real) { n != 0.0 ==> g(x / n) == g(x) / n }

  ghost predicate RatioAt(g: real -> real, x: real, s: real) { s != 0.0 ==> g(s) != 0.0 && g(x) / g(s) == x / s }

  /** Positions go by `f`, distances by `g`. */
  ghost predicate Change(f: real -> real, g: real -> real) {
    && Rises(f) && Rises(g) && g(0.0) == 0.0
    && (forall x, y {:trigger HalvesAt(f, x, y)} :: HalvesAt(f, x, y))
    && (forall x, y {:trigger HalvesAt(g, x, y)} :: HalvesAt(g, x, y))
    && (forall x, y {:trigger MovesAt(f, g, x, y)} :: MovesAt(f, g, x, y))
    && (forall x, y {:trigger AddsAt(g, x, y)} :: AddsAt(g, x, y))
    && (forall x, y {:trigger FactorAt(g, x, y)} :: FactorAt(g, x, y))
    && (forall x, y {:trigger PartAt(g, x, y)} :: PartAt(g, x, y))
    && (forall x, y {:trigger RatioAt(g, x, y)} :: RatioAt(g, x, y))
  }

  lemma MiddleMapped(xs: seq<real>, f: real -> real)
    requires xs != [] && forall x, y {:trigger HalvesAt(f, x, y)} :: HalvesAt(f, x, y)
    ensures Middle(Mapped(xs, f)) == f(Middle(xs))
  {
    if |xs| % 2 == 0 { assert HalvesAt(f, xs[|xs| / 2 - 1], xs[|xs| / 2]); }
  }

  lemma MedianMapped(xs: seq<real>, f: real -> real)
    requires xs != [] && Rises(f) && forall x, y {:trigger HalvesAt(f, x, y)} :: HalvesAt(f, x, y)
    ensures Median(Mapped(xs, f)) == f(Median(xs))
  {
    InOrderMapped(xs, f);
    assert |InOrder(xs)| == |multiset(InOrder(xs))| == |multiset(xs)| == |xs|;
    MiddleMapped(InOrder(xs), f);
  }

  lemma AbsMapped(x: real, m: real, f: real -> real, g: real -> real)
    requires Change(f, g)
    ensures Abs(f(x) - f(m)) == g(Abs(x - m))
  {
    assert MovesAt(f, g, x, m) && MovesAt(f, g, m, x);
    RisesStrictly(g, x - m, 0.0);
  }

  lemma DeviationsMapped(xs: seq<real>, m: real, f: real -> real, g: real -> real)
    requires Change(f, g)
    ensures Deviations(Mapped(xs, f), f(m)) == Mapped(Deviations(xs, m), g)
  {
    forall i | 0 <= i < |xs| ensures Deviations(Mapped(xs, f), f(m))[i] == Mapped(Deviations(xs, m), g)[i] {
      AbsMapped(xs[i], m, f, g);
    }
  }

  lemma {:induction false} SumMapped(xs: seq<real>, f: real -> real, g: real -> real)
    requires Change(f, g)
    ensures Sum(Mapped(xs, g)) == g(Sum(xs))
  {
    if xs != [] {
      var init, last := xs[..|xs| - 1], xs[|xs| - 1];
      SumMapped(init, f, g);
      assert Mapped(xs, g)[..|xs| - 1] == Mapped(init, g);
      assert AddsAt(g, Sum(init), last);
    }
  }

  lemma SpreadMapped(mad: real, total: real, n: nat, k: Settings, f: real -> real, g: real -> real)
    requires n > 0 && Change(f, g)
    ensures Spread(g(mad), g(total), n, k) == g(Spread(mad, total, n, k))
  {
    RisesStrictly(g, mad, 0.0);
    if mad != 0.0 {
      assert FactorAt(g, k.madScale, mad);
      FactorMapped(k.madScale, mad, Spread(mad, total, n, k), g);
    } else {
      assert PartAt(g, total, n as real) && FactorAt(g, k.meanScale, total / n as real);
      MeanMapped(k.meanScale, total, n as real, Spread(mad, total, n, k), g);
    }
  }

  lemma FactorMapped(factor: real, x: real, product: real, g: real -> real)
    requires FactorAt(g, factor, x) && product == factor * x
    ensures factor * g(x) == g(product)
  {
  }

  lemma MeanMapped(factor: real, total: real, n: real, product: real, g: real -> real)
    requires n != 0.0 && product == factor * (total / n)
    requires PartAt(g, total, n) && FactorAt(g, factor, total / n)
    ensures factor * (g(total) / n) == g(product)
  {
  }

  lemma ScaleMapped(xs: seq<real>, m: real, k: Settings, f: real -> real, g: real -> real)
    requires xs != [] && Change(f, g)
    ensures Scale(Mapped(xs, f), f(m), k) == g(Scale(xs, m, k))
  {
    var ds := Deviations(xs, m);
    DeviationsMapped(xs, m, f, g);
    MedianMapped(ds, g);
    SumMapped(ds, f, g);
    SpreadMapped(Median(ds), Sum(ds), |xs|, k, f, g);
  }

  lemma ZMapped(k: Settings, v: real, m: real, s: real, f: real -> real, g: real -> real)
    requires Change(f, g)
    ensures RobustZ(k, f(v), f(m), g(s)) == RobustZ(k, v, m, s)
  {
    RisesStrictly(f, v, m);
    RisesStrictly(g, s, 0.0);
    assert MovesAt(f, g, v, m) && RatioAt(g, v - m, s);
  }

  /** The same verdict, up to the figures that carry the unit. */
  ghost predicate SameVerdict(p: PeerStat, q: PeerStat) {
    q.n == p.n && q.percentile == p.percentile && q.z == p.z && q.deviant == p.deviant
  }

  lemma PeerMapped(k: Settings, xs: seq<real>, v: real, tail: Tail, f: real -> real, g: real -> real)
    requires xs != [] && Change(f, g)
    ensures CentreOf(k, Mapped(xs, f)) == Centre(f(CentreOf(k, xs).median), g(CentreOf(k, xs).scale))
    ensures SameVerdict(Peer(k, xs, CentreOf(k, xs), v, tail), Peer(k, Mapped(xs, f), CentreOf(k, Mapped(xs, f)), f(v), tail))
  {
    MedianMapped(xs, f);
    ScaleMapped(xs, Median(xs), k, f, g);
    PercentileMapped(xs, v, f);
    ZMapped(k, v, CentreOf(k, xs).median, CentreOf(k, xs).scale, f, g);
  }

  // ---------------------------------------------------------------- a unit is such a change

  /** Another unit, `a` to one, and another origin. */
  function Unit(a: real, b: real): real -> real { (x: real) => a * x + b }

  lemma UnitRises(a: real, b: real)
    requires a > 0.0
    ensures Rises(Unit(a, b))
  {
    forall x: real, y: real ensures Keeps(Unit(a, b), x, y) { Order(a, b, x, y); }
  }

  lemma Order(a: real, b: real, x: real, y: real)
    requires a > 0.0
    ensures x <= y <==> Unit(a, b)(x) <= Unit(a, b)(y)
  {
    var p, q := a * x, a * y;
    Times(a, x, y);
    assert Unit(a, b)(x) == p + b && Unit(a, b)(y) == q + b;
  }

  lemma Times(a: real, x: real, y: real)
    requires a > 0.0
    ensures x <= y <==> a * x <= a * y
    ensures a * (x - y) == a * x - a * y
  {
    assert a * (x - y) == a * x - a * y;
  }

  lemma Midway(a: real, b: real, x: real, y: real)
    ensures HalvesAt(Unit(a, b), x, y)
  {
  }

  lemma Moves(a: real, b: real, x: real, y: real)
    ensures MovesAt(Unit(a, b), Unit(a, 0.0), x, y) && AddsAt(Unit(a, 0.0), x, y)
  {
  }

  lemma Exchange(k: real, a: real, x: real)
    ensures k * (a * x) == a * (k * x)
  {
  }

  lemma Factor(a: real, k: real, x: real)
    ensures FactorAt(Unit(a, 0.0), k, x)
  {
    Exchange(k, a, x);
  }

  lemma Cancelled(q: real, d: real)
    requires d != 0.0
    ensures (q * d) / d == q
  {
  }

  lemma Part(a: real, x: real, n: real)
    ensures PartAt(Unit(a, 0.0), x, n)
  {
    if n != 0.0 { Shared(a, x, n); }
  }

  lemma Shared(a: real, x: real, n: real)
    requires n != 0.0
    ensures a * (x / n) == (a * x) / n
  {
    var q := x / n;
    Exchange(n, a, q);
    assert a * x == (a * q) * n;
    Cancelled(a * q, n);
  }

  lemma Ratio(a: real, x: real, s: real)
    requires a > 0.0
    ensures RatioAt(Unit(a, 0.0), x, s)
  {
    if s != 0.0 { SameQuotient(x, s, a); }
  }

  lemma SameQuotient(x: real, s: real, a: real)
    requires a > 0.0 && s != 0.0
    ensures a * s != 0.0 && (a * x) / (a * s) == x / s
  {
    var q := x / s;
    Times(a, s, 0.0);
    Times(a, 0.0, s);
    Exchange(q, a, s);
    assert a * x == q * (a * s);
    Cancelled(q, a * s);
  }

  lemma UnitsAreChanges(a: real, b: real)
    requires a > 0.0
    ensures Change(Unit(a, b), Unit(a, 0.0))
  {
    var f, g := Unit(a, b), Unit(a, 0.0);
    UnitRises(a, b);
    UnitRises(a, 0.0);
    forall x: real, y: real ensures HalvesAt(f, x, y) { Midway(a, b, x, y); }
    forall x: real, y: real ensures HalvesAt(g, x, y) { Midway(a, 0.0, x, y); }
    forall x: real, y: real ensures MovesAt(f, g, x, y) { Moves(a, b, x, y); }
    forall x: real, y: real ensures AddsAt(g, x, y) { Moves(a, b, x, y); }
    forall k: real, x: real ensures FactorAt(g, k, x) { Factor(a, k, x); }
    forall x: real, n: real ensures PartAt(g, x, n) { Part(a, x, n); }
    forall x: real, s: real ensures RatioAt(g, x, s) { Ratio(a, x, s); }
  }

  /** Main result. In another unit, and from another origin, the centre is the same centre, and a
      value keeps its percentile, its distance in scales and its verdict on every tail. */
  lemma UnitsDoNotMatter(k: Settings, xs: seq<real>, ys: seq<real>, v: real, tail: Tail, a: real, b: real)
    requires xs != [] && a > 0.0 && |ys| == |xs| && forall i :: 0 <= i < |xs| ==> ys[i] == Unit(a, b)(xs[i])
    ensures CentreOf(k, ys) == Centre(Unit(a, b)(CentreOf(k, xs).median), Unit(a, 0.0)(CentreOf(k, xs).scale))
    ensures SameVerdict(Peer(k, xs, CentreOf(k, xs), v, tail), Peer(k, ys, CentreOf(k, ys), Unit(a, b)(v), tail))
  {
    assert ys == Mapped(xs, Unit(a, b));
    UnitsAreChanges(a, b);
    PeerMapped(k, xs, v, tail, Unit(a, b), Unit(a, 0.0));
  }

  // ---------------------------------------------------------------- what the scale says

  lemma {:induction false} EqualIsMultiplicity(xs: seq<real>, v: real)
    ensures Equal(xs, v) == multiset(xs)[v]
  {
    if xs != [] {
      assert xs == xs[..|xs| - 1] + [xs[|xs| - 1]];
      EqualIsMultiplicity(xs[..|xs| - 1], v);
    }
  }

  lemma {:induction false} EqualInDeviations(xs: seq<real>, m: real)
    ensures Equal(Deviations(xs, m), 0.0) == Equal(xs, m)
  {
    if xs != [] {
      assert Deviations(xs, m)[..|xs| - 1] == Deviations(xs[..|xs| - 1], m);
      EqualInDeviations(xs[..|xs| - 1], m);
    }
  }

  lemma {:induction false} NoneBelow(xs: seq<real>)
    requires forall i :: 0 <= i < |xs| ==> xs[i] >= 0.0
    ensures Below(xs, 0.0) == 0 && Sum(xs) >= 0.0
    ensures Sum(xs) == 0.0 <==> forall i :: 0 <= i < |xs| ==> xs[i] == 0.0
  {
    if xs != [] {
      NoneBelow(xs[..|xs| - 1]);
      assert forall i :: 0 <= i < |xs| - 1 ==> xs[..|xs| - 1][i] == xs[i];
    }
  }

  /** The middle of numbers that are not negative is zero exactly when more than half of them are. */
  lemma MiddleIsZeroIff(ordered: seq<real>)
    requires ordered != [] && Rising(ordered) && forall i :: 0 <= i < |ordered| ==> ordered[i] >= 0.0
    ensures Middle(ordered) >= 0.0
    ensures Middle(ordered) == 0.0 <==> 2 * Equal(ordered, 0.0) > |ordered|
  {
    NoneBelow(ordered);
    CountsAreInsertionPoints(ordered, 0.0);
  }

  lemma MedianIsZeroIff(ds: seq<real>)
    requires ds != [] && forall i :: 0 <= i < |ds| ==> ds[i] >= 0.0
    ensures Median(ds) >= 0.0
    ensures Median(ds) == 0.0 <==> 2 * Equal(ds, 0.0) > |ds|
  {
    var o := InOrder(ds);
    InOrderIsRising(ds);
    assert |o| == |multiset(o)| == |multiset(ds)| == |ds|;
    forall i | 0 <= i < |o| ensures o[i] >= 0.0 { assert o[i] in multiset(ds); }
    MiddleIsZeroIff(o);
    EqualIsMultiplicity(o, 0.0);
    EqualIsMultiplicity(ds, 0.0);
  }

  lemma Positive(x: real, y: real)
    requires x > 0.0 && y >= 0.0
    ensures x * y >= 0.0 && (x * y == 0.0 <==> y == 0.0)
  {
  }

  lemma MeanIsZeroIff(total: real, n: nat)
    requires n > 0 && total >= 0.0
    ensures total / n as real >= 0.0 && (total / n as real == 0.0 <==> total == 0.0)
  {
  }

  lemma {:induction false} AllEqual(xs: seq<real>, v: real)
    requires forall i :: 0 <= i < |xs| ==> xs[i] == v
    ensures Equal(xs, v) == |xs|
  {
    if xs != [] { AllEqual(xs[..|xs| - 1], v); }
  }

  lemma SpreadMeaning(k: Settings, mad: real, total: real, n: nat)
    requires n > 0 && k.madScale > 0.0 && k.meanScale > 0.0 && mad >= 0.0 && total >= 0.0 && (total == 0.0 ==> mad == 0.0)
    ensures Spread(mad, total, n, k) >= 0.0
    ensures Spread(mad, total, n, k) == 0.0 <==> total == 0.0
  {
    MeanIsZeroIff(total, n);
    Positive(k.madScale, mad);
    Positive(k.meanScale, total / n as real);
  }

  /** Deviations that add up to nothing have a median of nothing. */
  lemma MedianOfDeviations(ds: seq<real>)
    requires ds != [] && forall i :: 0 <= i < |ds| ==> ds[i] >= 0.0
    ensures Median(ds) >= 0.0 && Sum(ds) >= 0.0
    ensures Median(ds) == 0.0 <==> 2 * Equal(ds, 0.0) > |ds|
    ensures Sum(ds) == 0.0 ==> Median(ds) == 0.0
  {
    MedianIsZeroIff(ds);
    NoneBelow(ds);
    if Sum(ds) == 0.0 { AllEqual(ds, 0.0); }
  }

  lemma DeviationsVanishIff(xs: seq<real>, m: real)
    ensures Sum(Deviations(xs, m)) == 0.0 <==> forall i :: 0 <= i < |xs| ==> xs[i] == m
  {
    var ds := Deviations(xs, m);
    NoneBelow(ds);
    assert forall i :: 0 <= i < |xs| ==> (ds[i] == 0.0 <==> xs[i] == m);
  }

  /** The scale is never negative, and nothing only when the whole population is one value. */
  lemma ScaleVanishesIff(k: Settings, xs: seq<real>, m: real)
    requires xs != [] && k.madScale > 0.0 && k.meanScale > 0.0
    ensures Scale(xs, m, k) >= 0.0
    ensures Scale(xs, m, k) == 0.0 <==> forall i :: 0 <= i < |xs| ==> xs[i] == m
  {
    var ds := Deviations(xs, m);
    MedianOfDeviations(ds);
    SpreadMeaning(k, Median(ds), Sum(ds), |xs|);
    DeviationsVanishIff(xs, m);
  }

  lemma MedianDeviationVanishesIff(xs: seq<real>, m: real)
    requires xs != []
    ensures Median(Deviations(xs, m)) == 0.0 <==> 2 * Equal(xs, m) > |xs|
  {
    MedianOfDeviations(Deviations(xs, m));
    EqualInDeviations(xs, m);
  }

  ghost predicate ComesFrom(k: Settings, scale: real, mostly: bool, mad: real, mean: real) {
    scale == if mostly then k.meanScale * mean else k.madScale * mad
  }

  lemma SpreadSource(k: Settings, mad: real, total: real, n: nat, mostly: bool)
    requires n > 0 && (mad == 0.0 <==> mostly)
    ensures ComesFrom(k, Spread(mad, total, n, k), mostly, mad, total / n as real)
  {
  }

  /** The scale comes from the median deviation unless more than half of the population sits
      exactly on the median, and then from the mean one. */
  lemma ScaleMeaning(k: Settings, xs: seq<real>, m: real)
    requires xs != []
    ensures ComesFrom(k, Scale(xs, m, k), 2 * Equal(xs, m) > |xs|, Median(Deviations(xs, m)), Sum(Deviations(xs, m)) / |xs| as real)
  {
    MedianDeviationVanishesIff(xs, m);
    SpreadSource(k, Median(Deviations(xs, m)), Sum(Deviations(xs, m)), |xs|, 2 * Equal(xs, m) > |xs|);
  }

  // ---------------------------------------------------------------- what the verdict says

  lemma {:induction false} RanksGrow(xs: seq<real>, v: real, w: real)
    requires v <= w
    ensures MidRank(xs, v) <= MidRank(xs, w)
  {
    if xs != [] { RanksGrow(xs[..|xs| - 1], v, w); }
  }

  lemma Shares(a: real, b: real, n: real)
    requires n > 0.0 && a <= b
    ensures a / n <= b / n
  {
  }

  lemma PercentilesGrow(xs: seq<real>, v: real, w: real)
    requires xs != [] && v <= w
    ensures Percentile(xs, v) <= Percentile(xs, w)
  {
    RanksGrow(xs, v, w);
    Shares(MidRank(xs, v), MidRank(xs, w), |xs| as real);
    QuantizeIsMonotone(MidRank(xs, v) / |xs| as real * 100.0, MidRank(xs, w) / |xs| as real * 100.0, 100);
  }

  lemma ZGrows(k: Settings, v: real, w: real, m: real, s: real)
    requires v <= w && s >= 0.0 && k.cap >= 0.0
    ensures RobustZ(k, v, m, s) <= RobustZ(k, w, m, s)
  {
    if s != 0.0 {
      Shares(v - m, w - m, s);
      QuantizeIsMonotone((v - m) / s, (w - m) / s, 100);
    }
  }

  /** A value further out is never less deviant: higher ones on the upper tail, lower ones on the
      lower tail. */
  lemma FurtherOutIsNoLessDeviant(k: Settings, xs: seq<real>, v: real, w: real)
    requires xs != [] && v <= w && k.madScale > 0.0 && k.meanScale > 0.0 && k.cap >= 0.0
    ensures Peer(k, xs, CentreOf(k, xs), v, Upper).deviant ==> Peer(k, xs, CentreOf(k, xs), w, Upper).deviant
    ensures Peer(k, xs, CentreOf(k, xs), w, Lower).deviant ==> Peer(k, xs, CentreOf(k, xs), v, Lower).deviant
  {
    ScaleVanishesIff(k, xs, Median(xs));
    PercentilesGrow(xs, v, w);
    ZGrows(k, v, w, CentreOf(k, xs).median, CentreOf(k, xs).scale);
  }

  /** The verdict read off the reported figures: on one tail the percentile and the distance in
      scales must both reach their limits, or one of them where that is enough; with two tails,
      either tail will do. */
  lemma VerdictMeaning(k: Settings, xs: seq<real>, v: real)
    requires xs != []
    ensures var up, down, both := Peer(k, xs, CentreOf(k, xs), v, Upper), Peer(k, xs, CentreOf(k, xs), v, Lower), Peer(k, xs, CentreOf(k, xs), v, Both);
            && (k.needBoth ==> (up.deviant <==> up.percentile >= k.percentileMin && up.z >= k.zMin))
            && (!k.needBoth ==> (up.deviant <==> up.percentile >= k.percentileMin || up.z >= k.zMin))
            && (k.needBoth ==> (down.deviant <==> 100.0 - down.percentile >= k.percentileMin && -down.z >= k.zMin))
            && (!k.needBoth ==> (down.deviant <==> 100.0 - down.percentile >= k.percentileMin || -down.z >= k.zMin))
            && (both.deviant <==> up.deviant || down.deviant)
    ensures k.needBoth && k.zMin > 0.0 ==> !(Peer(k, xs, CentreOf(k, xs), v, Upper).deviant && Peer(k, xs, CentreOf(k, xs), v, Lower).deviant)
  {
  }

  /** A band is reached from its limit on, and any total above nothing is in some band. */
  lemma BandMeaning(k: Bands, total: real)
    requires 0.0 < k.medium <= k.high
    ensures Rank(BandOf(k, total)) >= 3 <==> total >= k.high
    ensures Rank(BandOf(k, total)) >= 2 <==> total >= k.medium
    ensures Rank(BandOf(k, total)) >= 1 <==> total > 0.0
  {
  }

  // ---------------------------------------------------------------- what the outlyingness says

  function KeptOnes(ds: seq<Deviation>, keep: set<Name>): seq<Deviation> { Filter(ds, (d: Deviation) => d.verified && d.signal in keep) }

  function HistoricOnes(ds: seq<Deviation>, keep: set<Name>): seq<Deviation> { Filter(KeptOnes(ds, keep), (d: Deviation) => d.selfDeviant) }

  function StrengthsOf(ds: seq<Deviation>): seq<real> { seq(|ds|, i requires 0 <= i < |ds| => ds[i].strength) }

  lemma KeptStep(ds: seq<Deviation>, keep: set<Name>)
    requires ds != []
    ensures KeptOnes(ds, keep) == (if ds[0].verified && ds[0].signal in keep then [ds[0]] else []) + KeptOnes(ds[1..], keep)
  {
  }

  lemma HistoricStep(d: Deviation, ks: seq<Deviation>)
    ensures |Filter([d] + ks, (d: Deviation) => d.selfDeviant)| == (if d.selfDeviant then 1 else 0) + |Filter(ks, (d: Deviation) => d.selfDeviant)|
  {
    FilterStep(d, ks, (d: Deviation) => d.selfDeviant);
  }

  lemma StrengthStep(d: Deviation, ks: seq<Deviation>)
    ensures Sum(StrengthsOf([d] + ks)) == d.strength + Sum(StrengthsOf(ks))
  {
    assert StrengthsOf([d] + ks) == [d.strength] + StrengthsOf(ks);
    SumConcat([d.strength], StrengthsOf(ks));
    OneSummand(d.strength);
  }

  lemma {:induction false} KeptMeaning(ds: seq<Deviation>, keep: set<Name>)
    ensures Chosen(ds, keep) == |KeptOnes(ds, keep)| && Historic(ds, keep) == |HistoricOnes(ds, keep)|
    ensures Strengths(ds, keep) == Sum(StrengthsOf(KeptOnes(ds, keep)))
  {
    if ds == [] {
      Nothing(keep);
    } else {
      var ks := KeptOnes(ds[1..], keep);
      KeptMeaning(ds[1..], keep);
      KeptStep(ds, keep);
      HistoricStep(ds[0], ks);
      StrengthStep(ds[0], ks);
      assert [] + ks == ks;
    }
  }

  lemma Nothing(keep: set<Name>)
    ensures KeptOnes([], keep) == [] && HistoricOnes([], keep) == [] && Sum(StrengthsOf([])) == 0.0
  {
  }

  lemma OneSummand(x: real)
    ensures Sum([x]) == x
  {
    assert [x][..0] == [];
  }

  /** The four components, over the verified deviations that are kept: their strengths added up,
      how many there are beyond the first, how many deviate from their own history, and the joint
      rarity, each times its weight and rounded. */
  lemma ScoresMeaning(w: Weights, ds: seq<Deviation>, joint: bool, keep: set<Name>)
    ensures var s, ks := Outlyingness(w, ds, joint, keep), KeptOnes(ds, keep);
            && s.peers == Contribution(Sum(StrengthsOf(ks)), w.peers)
            && s.breadth == Contribution(if |ks| >= 2 then (|ks| - 1) as real else 0.0, w.breadth)
            && s.history == Contribution(|HistoricOnes(ds, keep)| as real, w.history)
            && s.joint == Contribution(if joint && JOINT in keep then 1.0 else 0.0, w.joint)
  {
    KeptMeaning(ds, keep);
  }

  /** Rounding to four decimals moves a contribution by half of the last one at most. */
  lemma ContributionMeaning(raw: real, weight: real)
    ensures raw * weight - 0.00005 <= Contribution(raw, weight) <= raw * weight + 0.00005
  {
    var x := raw * weight;
    RoundMeaning(x * 10000.0);
    NearEnough(x, Round(x * 10000.0) as real);
  }

  lemma NearEnough(x: real, n: real)
    requires x * 10000.0 - 0.5 <= n <= x * 10000.0 + 0.5
    ensures x - 0.00005 <= n / 10000.0 <= x + 0.00005
  {
  }

  /** What a profile verified is what the residual may leave out. */
  lemma VerifiedMeaning(ds: seq<Deviation>, joint: bool, n: Name)
    ensures n in Verified(ds, joint) <==> (joint && n == JOINT) || exists d :: d in ds && d.verified && d.signal == n
  {
  }
}
