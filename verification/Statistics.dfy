/** Robust peer statistics with every rounding step, the symmetry of the two tails, and the
    residual outlyingness. */
module Statistics {
  import opened Seqs

  // ---------------------------------------------------------------- rounding

  /** Half to even. */
  function Round(x: real): int {
    var f := x.Floor;
    if x - f as real < 0.5 then f
    else if x - f as real > 0.5 then f + 1
    else if f % 2 == 0 then f else f + 1
  }

  /** Rounding moves no number further than a half, and to an even one at exactly a half. */
  lemma RoundMeaning(x: real)
    ensures x - 0.5 <= Round(x) as real <= x + 0.5
    ensures x - Round(x) as real == 0.5 || Round(x) as real - x == 0.5 ==> Round(x) % 2 == 0
  {
  }

  lemma RoundIsMonotone(x: real, y: real)
    requires x <= y
    ensures Round(x) <= Round(y)
  {
    assert x.Floor <= y.Floor;
  }

  lemma OnlyRounding(x: real, n: int)
    requires x - 0.5 <= n as real <= x + 0.5
    requires x - n as real == 0.5 || n as real - x == 0.5 ==> n % 2 == 0
    ensures n == Round(x)
  {
  }

  /** Rounding commutes with reflection about a whole number or about an even one's half. */
  lemma RoundReflects(k: int, x: real)
    requires k % 2 == 0
    ensures Round(k as real - x) == k - Round(x)
  {
    RoundMeaning(x);
    OnlyRounding(k as real - x, k - Round(x));
  }

  /** `quantize` to steps of one over `per`. */
  function Quantize(x: real, per: nat): real
    requires per > 0
  {
    Round(x * per as real) as real / per as real
  }

  lemma QuotientsOrder(a: int, b: int, per: nat)
    requires a <= b && per > 0
    ensures a as real / per as real <= b as real / per as real
  {
  }

  lemma QuantizeIsMonotone(x: real, y: real, per: nat)
    requires x <= y && per > 0
    ensures Quantize(x, per) <= Quantize(y, per)
  {
    assert x * per as real <= y * per as real;
    RoundIsMonotone(x * per as real, y * per as real);
    QuotientsOrder(Round(x * per as real), Round(y * per as real), per);
  }

  lemma QuantizeIsOdd(x: real, per: nat)
    requires per > 0
    ensures Quantize(-x, per) == -Quantize(x, per)
  {
    assert -x * per as real == 0 as real - x * per as real;
    RoundReflects(0, x * per as real);
  }

  // ---------------------------------------------------------------- order statistics

  function Inserted(x: real, xs: seq<real>): (r: seq<real>)
    ensures multiset(r) == multiset(xs) + multiset{x}
  {
    if xs == [] then [x] else
      assert xs == [xs[0]] + xs[1..];
      if x <= xs[0] then [x] + xs else [xs[0]] + Inserted(x, xs[1..])
  }

  lemma {:induction false} InsertedIsRising(x: real, xs: seq<real>)
    requires Rising(xs)
    ensures Rising(Inserted(x, xs))
  {
    if xs != [] && x > xs[0] {
      var rest := Inserted(x, xs[1..]);
      InsertedIsRising(x, xs[1..]);
      forall j | 0 <= j < |rest| ensures xs[0] <= rest[j] {
        assert rest[j] in multiset(rest);
        assert rest[j] == x || rest[j] in multiset(xs[1..]);
      }
    }
  }

  function InOrder(xs: seq<real>): (r: seq<real>)
    ensures multiset(r) == multiset(xs)
  {
    if xs == [] then [] else
      assert xs == [xs[0]] + xs[1..];
      Inserted(xs[0], InOrder(xs[1..]))
  }

  lemma {:induction false} InOrderIsRising(xs: seq<real>)
    ensures Rising(InOrder(xs))
  {
    if xs != [] {
      InOrderIsRising(xs[1..]);
      InsertedIsRising(xs[0], InOrder(xs[1..]));
    }
  }

  lemma SameHead(xs: seq<real>, ys: seq<real>)
    requires multiset(xs) == multiset(ys) && Rising(xs) && Rising(ys) && xs != [] && ys != []
    ensures xs[0] == ys[0]
  {
    assert xs[0] in multiset(ys) && ys[0] in multiset(xs);
  }

  lemma SameRest(xs: seq<real>, ys: seq<real>)
    requires multiset(xs) == multiset(ys) && xs != [] && ys != [] && xs[0] == ys[0]
    ensures multiset(xs[1..]) == multiset(ys[1..])
  {
    assert xs == [xs[0]] + xs[1..] && ys == [ys[0]] + ys[1..];
    assert multiset(xs[1..]) == multiset(xs) - multiset{xs[0]};
    assert multiset(ys[1..]) == multiset(ys) - multiset{ys[0]};
  }

  lemma {:induction false} RisingIsUnique(xs: seq<real>, ys: seq<real>)
    requires multiset(xs) == multiset(ys) && Rising(xs) && Rising(ys)
    ensures xs == ys
  {
    assert |xs| == |multiset(xs)| == |multiset(ys)| == |ys|;
    if xs != [] {
      SameHead(xs, ys);
      SameRest(xs, ys);
      RisingIsUnique(xs[1..], ys[1..]);
      SameHeadAndTail(xs, ys);
    }
  }

  function Middle(ordered: seq<real>): real
    requires ordered != []
  {
    var mid := |ordered| / 2;
    if |ordered| % 2 == 1 then ordered[mid] else (ordered[mid - 1] + ordered[mid]) / 2.0
  }

  /** `median_of`: sorts unless already sorted. */
  function Median(xs: seq<real>): real
    requires xs != []
  {
    assert |InOrder(xs)| == |multiset(InOrder(xs))| == |multiset(xs)| == |xs|;
    Middle(InOrder(xs))
  }

  lemma MedianOfPermutation(xs: seq<real>, ys: seq<real>)
    requires xs != [] && ys != [] && multiset(xs) == multiset(ys)
    ensures Median(xs) == Median(ys)
  {
    InOrderIsRising(xs);
    InOrderIsRising(ys);
    RisingIsUnique(InOrder(xs), InOrder(ys));
  }

  // ---------------------------------------------------------------- reflection

  /** The population with every sign turned, again in rising order. */
  function Mirror(xs: seq<real>): seq<real> {
    seq(|xs|, i requires 0 <= i < |xs| => -xs[|xs| - 1 - i])
  }

  function Backwards(xs: seq<real>): seq<real> {
    seq(|xs|, i requires 0 <= i < |xs| => xs[|xs| - 1 - i])
  }

  lemma {:induction false} BackwardsIsPermutation(xs: seq<real>)
    ensures multiset(Backwards(xs)) == multiset(xs)
  {
    if xs != [] {
      assert Backwards(xs) == Backwards(xs[1..]) + [xs[0]];
      assert xs == [xs[0]] + xs[1..];
      BackwardsIsPermutation(xs[1..]);
    }
  }

  lemma MirrorMiddle(xs: seq<real>)
    requires xs != []
    ensures Middle(Mirror(xs)) == -Middle(xs)
  {
    var n, mid := |xs|, |xs| / 2;
    if n % 2 == 1 {
      assert n - 1 - mid == mid;
    } else {
      assert n - 1 - mid == mid - 1;
    }
  }

  lemma MedianOfRising(xs: seq<real>)
    requires xs != [] && Rising(xs)
    ensures Median(xs) == Middle(xs)
  {
    InOrderIsRising(xs);
    RisingIsUnique(InOrder(xs), xs);
  }

  lemma MirrorIsRising(xs: seq<real>)
    requires Rising(xs)
    ensures Rising(Mirror(xs))
  {
  }

  lemma MirrorMedian(xs: seq<real>)
    requires xs != [] && Rising(xs)
    ensures Median(Mirror(xs)) == -Median(xs)
  {
    MirrorIsRising(xs);
    MedianOfRising(xs);
    MedianOfRising(Mirror(xs));
    MirrorMiddle(xs);
  }

  function Abs(x: real): real { if x < 0.0 then -x else x }

  function Deviations(xs: seq<real>, m: real): seq<real> {
    seq(|xs|, i requires 0 <= i < |xs| => Abs(xs[i] - m))
  }

  function Sum(xs: seq<real>): real { if xs == [] then 0.0 else Sum(xs[..|xs| - 1]) + xs[|xs| - 1] }

  lemma {:induction false} SumConcat(xs: seq<real>, ys: seq<real>)
    ensures Sum(xs + ys) == Sum(xs) + Sum(ys)
  {
    if ys == [] {
      assert xs + ys == xs;
    } else {
      assert (xs + ys)[..|xs + ys| - 1] == xs + ys[..|ys| - 1];
      SumConcat(xs, ys[..|ys| - 1]);
    }
  }

  lemma {:induction false} SumBackwards(xs: seq<real>)
    ensures Sum(Backwards(xs)) == Sum(xs)
  {
    if xs != [] {
      assert Backwards(xs) == Backwards(xs[1..]) + [xs[0]];
      assert xs == [xs[0]] + xs[1..];
      SumBackwards(xs[1..]);
      SumConcat(Backwards(xs[1..]), [xs[0]]);
      SumConcat([xs[0]], xs[1..]);
    }
  }

  datatype Settings = Settings(madScale: real, meanScale: real, cap: real, percentileMin: real, zMin: real, needBoth: bool)

  function Spread(mad: real, total: real, n: nat, k: Settings): real
    requires n > 0
  {
    if mad != 0.0 then k.madScale * mad else k.meanScale * (total / n as real)
  }

  /** `robust_scale`: the median deviation, or the mean one when that is zero. */
  function Scale(xs: seq<real>, m: real, k: Settings): real
    requires xs != []
  {
    Spread(Median(Deviations(xs, m)), Sum(Deviations(xs, m)), |xs|, k)
  }

  lemma MirrorDeviations(xs: seq<real>, m: real, b: real)
    requires b == -m
    ensures Deviations(Mirror(xs), b) == Backwards(Deviations(xs, m))
  {
  }

  lemma MirrorScale(xs: seq<real>, m: real, b: real, k: Settings)
    requires xs != [] && b == -m
    ensures Scale(Mirror(xs), b, k) == Scale(xs, m, k)
  {
    MirrorDeviations(xs, m, b);
    SpreadOfBackwards(Deviations(xs, m));
  }

  lemma SpreadOfBackwards(ds: seq<real>)
    requires ds != []
    ensures Median(Backwards(ds)) == Median(ds) && Sum(Backwards(ds)) == Sum(ds)
  {
    BackwardsIsPermutation(ds);
    MedianOfPermutation(Backwards(ds), ds);
    SumBackwards(ds);
  }

  // ---------------------------------------------------------------- percentile

  function Below(xs: seq<real>, v: real): nat {
    if xs == [] then 0 else Below(xs[..|xs| - 1], v) + if xs[|xs| - 1] < v then 1 else 0
  }

  function Equal(xs: seq<real>, v: real): nat {
    if xs == [] then 0 else Equal(xs[..|xs| - 1], v) + if xs[|xs| - 1] == v then 1 else 0
  }

  lemma {:induction false} CountsConcat(xs: seq<real>, ys: seq<real>, v: real)
    ensures Below(xs + ys, v) == Below(xs, v) + Below(ys, v) && Equal(xs + ys, v) == Equal(xs, v) + Equal(ys, v)
  {
    if ys == [] {
      assert xs + ys == xs;
    } else {
      assert (xs + ys)[..|xs + ys| - 1] == xs + ys[..|ys| - 1];
      CountsConcat(xs, ys[..|ys| - 1], v);
    }
  }

  /** Turning every sign exchanges what lies below with what lies above. */
  lemma {:induction false} MirrorCounts(xs: seq<real>, v: real)
    ensures Below(Mirror(xs), -v) + Below(xs, v) + Equal(xs, v) == |xs|
    ensures Equal(Mirror(xs), -v) == Equal(xs, v)
  {
    if xs != [] {
      var init, last := xs[..|xs| - 1], xs[|xs| - 1];
      assert Mirror(xs) == [-last] + Mirror(init);
      CountsConcat([-last], Mirror(init), -v);
      MirrorCounts(init, v);
      var one := [-last];
      assert one[..0] == [];
    }
  }

  /** The insertion points `bisect` finds in a sorted population are these counts. */
  lemma {:induction false} CountsAreInsertionPoints(xs: seq<real>, v: real)
    requires Rising(xs)
    ensures 0 <= Below(xs, v) <= Below(xs, v) + Equal(xs, v) <= |xs|
    ensures forall i :: 0 <= i < Below(xs, v) ==> xs[i] < v
    ensures forall i :: Below(xs, v) <= i < Below(xs, v) + Equal(xs, v) ==> xs[i] == v
    ensures forall i :: Below(xs, v) + Equal(xs, v) <= i < |xs| ==> xs[i] > v
  {
    if xs != [] {
      var init, last := xs[..|xs| - 1], xs[|xs| - 1];
      CountsAreInsertionPoints(init, v);
      assert forall i :: 0 <= i < |init| ==> init[i] == xs[i] && xs[i] <= last;
    }
  }

  /** Twice the rank, ties at the middle of their range. */
  function MidRank(xs: seq<real>, v: real): real { Below(xs, v) as real + Equal(xs, v) as real / 2.0 }

  /** `_percentile`, in hundredths. */
  function Percentile(xs: seq<real>, v: real): real
    requires xs != []
  {
    Quantize(MidRank(xs, v) / |xs| as real * 100.0, 100)
  }

  lemma RatioReflects(a: real, b: real, n: real)
    requires n > 0.0 && a + b == n
    ensures a / n * 100.0 * 100.0 == 10000.0 - b / n * 100.0 * 100.0
  {
    assert a / n + b / n == (a + b) / n;
    assert n / n == 1.0;
  }

  lemma QuantizedShareReflects(a: real, b: real, n: real)
    requires n > 0.0 && a + b == n
    ensures Quantize(a / n * 100.0, 100) == 100.0 - Quantize(b / n * 100.0, 100)
  {
    RatioReflects(a, b, n);
    RoundReflects(10000, b / n * 100.0 * 100.0);
  }

  lemma MirrorRank(xs: seq<real>, v: real)
    ensures MidRank(Mirror(xs), -v) + MidRank(xs, v) == |xs| as real
  {
    MirrorCounts(xs, v);
  }

  lemma MirrorPercentile(xs: seq<real>, v: real)
    requires xs != []
    ensures Percentile(Mirror(xs), -v) == 100.0 - Percentile(xs, v)
  {
    MirrorRank(xs, v);
    QuantizedShareReflects(MidRank(Mirror(xs), -v), MidRank(xs, v), |xs| as real);
  }

  // ---------------------------------------------------------------- screening

  datatype Tail = Upper | Lower | Both

  datatype PeerStat = PeerStat(n: nat, median: real, scale: real, percentile: real, z: real, deviant: bool)

  predicate Joined(k: Settings, p: bool, z: bool) { if k.needBoth then p && z else p || z }

  /** `_screen`. */
  predicate Screened(k: Settings, percentile: real, z: real, tail: Tail) {
    || (tail != Lower && Joined(k, percentile >= k.percentileMin, z >= k.zMin))
    || (tail != Upper && Joined(k, percentile <= 100.0 - k.percentileMin, -z >= k.zMin))
  }

  /** How many scales the value is from the median; from a constant population, all or nothing. */
  function RobustZ(k: Settings, v: real, median: real, scale: real): real {
    if scale != 0.0 then Quantize((v - median) / scale, 100)
    else if v > median then k.cap else if v < median then -k.cap else 0.0
  }

  /** The median and the scale of a population. */
  datatype Centre = Centre(median: real, scale: real)

  function CentreOf(k: Settings, xs: seq<real>): Centre
    requires xs != []
  {
    Centre(Median(xs), Scale(xs, Median(xs), k))
  }

  function Judged(k: Settings, n: nat, c: Centre, percentile: real, v: real, tail: Tail): PeerStat {
    var z := RobustZ(k, v, c.median, c.scale);
    PeerStat(n, Quantize(c.median, 10000), Quantize(c.scale, 10000), percentile, z, Screened(k, percentile, z, tail))
  }

  /** `peer_stat`, given the population's centre. */
  function Peer(k: Settings, xs: seq<real>, c: Centre, v: real, tail: Tail): PeerStat
    requires xs != []
  {
    Judged(k, |xs|, c, Percentile(xs, v), v, tail)
  }

  function Opposite(t: Tail): Tail {
    match t
    case Upper => Lower
    case Lower => Upper
    case Both => Both
  }

  lemma MirrorZ(k: Settings, v: real, median: real, scale: real)
    ensures RobustZ(k, -v, -median, scale) == -RobustZ(k, v, median, scale)
  {
    if scale != 0.0 {
      assert (-v - -median) / scale == -((v - median) / scale);
      QuantizeIsOdd((v - median) / scale, 100);
    }
  }

  lemma MirrorScreen(k: Settings, percentile: real, z: real, tail: Tail)
    ensures Screened(k, 100.0 - percentile, -z, Opposite(tail)) == Screened(k, percentile, z, tail)
  {
  }

  /** The same fact seen from the other side of zero. */
  ghost predicate Mirrored(p: PeerStat, q: PeerStat) {
    && q.deviant == p.deviant && q.n == p.n && q.scale == p.scale
    && q.median == -p.median && q.z == -p.z && q.percentile == 100.0 - p.percentile
  }

  function Turned(c: Centre): Centre { Centre(-c.median, c.scale) }

  lemma MirrorJudged(k: Settings, n: nat, c: Centre, percentile: real, v: real, tail: Tail)
    ensures Mirrored(Judged(k, n, c, percentile, v, tail), Judged(k, n, Turned(c), 100.0 - percentile, -v, Opposite(tail)))
  {
    MirrorScreen(k, percentile, RobustZ(k, v, c.median, c.scale), tail);
    MirrorZ(k, v, c.median, c.scale);
    QuantizeIsOdd(c.median, 10000);
  }

  lemma MirrorPeer(k: Settings, xs: seq<real>, c: Centre, v: real, tail: Tail)
    requires xs != []
    ensures Mirrored(Peer(k, xs, c, v, tail), Peer(k, Mirror(xs), Turned(c), -v, Opposite(tail)))
  {
    MirrorPercentile(xs, v);
    MirrorJudged(k, |xs|, c, Percentile(xs, v), v, tail);
  }

  lemma MirrorCentre(k: Settings, xs: seq<real>)
    requires xs != [] && Rising(xs)
    ensures CentreOf(k, Mirror(xs)) == Turned(CentreOf(k, xs))
  {
    MirrorMedian(xs);
    MirrorScale(xs, Median(xs), Median(Mirror(xs)), k);
  }

  /** Main result: turning every sign turns the statistics and keeps the verdict, on the
      opposite tail. */
  lemma TailsAreSymmetric(k: Settings, xs: seq<real>, v: real, tail: Tail)
    requires xs != [] && Rising(xs)
    ensures Mirrored(Peer(k, xs, CentreOf(k, xs), v, tail), Peer(k, Mirror(xs), CentreOf(k, Mirror(xs)), -v, Opposite(tail)))
  {
    MirrorCentre(k, xs);
    MirrorPeer(k, xs, CentreOf(k, xs), v, tail);
  }

  // ---------------------------------------------------------------- outlyingness

  type Name = string

  const JOINT := "joint"

  datatype Deviation = Deviation(signal: Name, strength: real, verified: bool, selfDeviant: bool)

  datatype Weights = Weights(peers: real, breadth: real, history: real, joint: real)

  datatype Bands = Bands(medium: real, high: real)

  datatype Band = NoBand | Low | Medium | High

  function Rank(b: Band): nat { match b case NoBand => 0 case Low => 1 case Medium => 2 case High => 3 }

  function BandOf(k: Bands, total: real): Band {
    if total >= k.high then High else if total >= k.medium then Medium else if total > 0.0 then Low else NoBand
  }

  /** The least distance from the median, in scales, of the comparisons. */
  function Weakest(ps: seq<PeerStat>): (weakest: real)
    requires ps != []
    ensures weakest >= 0.0
  {
    var first := Abs(ps[0].z);
    if |ps| == 1 then first else
      var others := Weakest(ps[1..]);
      if first <= others then first else others
  }

  lemma {:induction false} WeakestIsLeast(ps: seq<PeerStat>)
    requires ps != []
    ensures (exists p :: p in ps && Abs(p.z) == Weakest(ps)) && forall p :: p in ps ==> Weakest(ps) <= Abs(p.z)
  {
    assert ps == [ps[0]] + ps[1..];
    if |ps| > 1 { WeakestIsLeast(ps[1..]); }
  }

  function Share(x: real): real { Quantize(if x < 1.0 then x else 1.0, 10000) }

  /** `_strength`: how far the weakest confirming comparison is out, as a share of the cap. */
  function Strength(k: Settings, confirming: seq<PeerStat>): real
    requires k.cap > 0.0
  {
    if confirming == [] then 0.0 else Share(Weakest(confirming) / k.cap)
  }

  lemma SharesGrow(x: real, y: real)
    requires 0.0 <= x <= y
    ensures 0.0 <= Share(x) <= Share(y) <= 1.0
  {
    QuantizeIsMonotone(0.0, if x < 1.0 then x else 1.0, 10000);
    QuantizeIsMonotone(if x < 1.0 then x else 1.0, if y < 1.0 then y else 1.0, 10000);
    QuantizeIsMonotone(if y < 1.0 then y else 1.0, 1.0, 10000);
  }

  lemma Quotients(a: real, b: real, cap: real)
    requires 0.0 <= a <= b && cap > 0.0
    ensures 0.0 <= a / cap <= b / cap
  {
  }

  /** A strength lies between nothing and one, is nothing without confirmation, and is decided by
      the weakest confirmation: one more can only lower it, and none that confirms counts less. */
  lemma StrengthIsAShare(k: Settings, confirming: seq<PeerStat>, p: PeerStat)
    requires k.cap > 0.0
    ensures 0.0 <= Strength(k, confirming) <= 1.0 && Strength(k, []) == 0.0
    ensures p in confirming ==> Strength(k, confirming) <= Strength(k, [p])
    ensures confirming != [] ==> Strength(k, confirming + [p]) <= Strength(k, confirming)
    ensures confirming != [] ==> exists q :: q in confirming && Strength(k, confirming) == Strength(k, [q])
  {
    if confirming != [] {
      WeakestIsLeast(confirming);
      WeakestIsLeast(confirming + [p]);
      assert forall q :: q in confirming ==> q in confirming + [p];
      Quotients(Weakest(confirming), Weakest(confirming), k.cap);
      SharesGrow(Weakest(confirming) / k.cap, Weakest(confirming) / k.cap);
      Quotients(Weakest(confirming + [p]), Weakest(confirming), k.cap);
      SharesGrow(Weakest(confirming + [p]) / k.cap, Weakest(confirming) / k.cap);
      var least :| least in confirming && Abs(least.z) == Weakest(confirming);
      assert Strength(k, confirming) == Strength(k, [least]);
      if p in confirming {
        Quotients(Weakest(confirming), Abs(p.z), k.cap);
        SharesGrow(Weakest(confirming) / k.cap, Abs(p.z) / k.cap);
      }
    }
  }

  predicate Kept(d: Deviation, keep: set<Name>) { d.verified && d.signal in keep }

  function Strengths(ds: seq<Deviation>, keep: set<Name>): real {
    if ds == [] then 0.0 else (if Kept(ds[0], keep) then ds[0].strength else 0.0) + Strengths(ds[1..], keep)
  }

  function Chosen(ds: seq<Deviation>, keep: set<Name>): nat {
    if ds == [] then 0 else (if Kept(ds[0], keep) then 1 else 0) + Chosen(ds[1..], keep)
  }

  function Historic(ds: seq<Deviation>, keep: set<Name>): nat {
    if ds == [] then 0 else (if Kept(ds[0], keep) && ds[0].selfDeviant then 1 else 0) + Historic(ds[1..], keep)
  }

  datatype Scores = Scores(peers: real, breadth: real, history: real, joint: real)

  function Contribution(raw: real, weight: real): real { Quantize(raw * weight, 10000) }

  /** `outlyingness`, as the contribution of each component. */
  function Outlyingness(w: Weights, ds: seq<Deviation>, joint: bool, keep: set<Name>): Scores {
    var n := Chosen(ds, keep);
    Scores(Contribution(Strengths(ds, keep), w.peers),
           Contribution(if n == 0 then 0.0 else (n - 1) as real, w.breadth),
           Contribution(Historic(ds, keep) as real, w.history),
           Contribution(if joint && JOINT in keep then 1.0 else 0.0, w.joint))
  }

  function Total(s: Scores): real { Quantize(s.peers + s.breadth + s.history + s.joint, 10000) }

  /** What a profile verified. */
  function Verified(ds: seq<Deviation>, joint: bool): set<Name> {
    (set d | d in ds && d.verified :: d.signal) + if joint then {JOINT} else {}
  }

  /** `residual`. */
  function Residual(w: Weights, ds: seq<Deviation>, joint: bool, unexplained: set<Name>): Scores {
    Outlyingness(w, ds, joint, unexplained * Verified(ds, joint))
  }

  ghost predicate WeightsOk(w: Weights) { w.peers >= 0.0 && w.breadth >= 0.0 && w.history >= 0.0 && w.joint >= 0.0 }

  ghost predicate DeviationsOk(ds: seq<Deviation>) { forall d :: d in ds ==> d.strength >= 0.0 }

  lemma {:induction false} MoreIsKept(ds: seq<Deviation>, some: set<Name>, all: set<Name>)
    requires some <= all && DeviationsOk(ds)
    ensures 0.0 <= Strengths(ds, some) <= Strengths(ds, all)
    ensures Chosen(ds, some) <= Chosen(ds, all) && Historic(ds, some) <= Historic(ds, all)
  {
    if ds != [] {
      assert ds[0] in ds;
      MoreIsKept(ds[1..], some, all);
    }
  }

  lemma ContributionIsMonotone(a: real, b: real, weight: real)
    requires 0.0 <= a <= b && weight >= 0.0
    ensures 0.0 <= Contribution(a, weight) <= Contribution(b, weight)
  {
    assert 0.0 <= a * weight <= b * weight;
    QuantizeIsMonotone(0.0, a * weight, 10000);
    QuantizeIsMonotone(a * weight, b * weight, 10000);
  }

  ghost predicate NoMore(a: Scores, b: Scores) {
    0.0 <= a.peers <= b.peers && 0.0 <= a.breadth <= b.breadth && 0.0 <= a.history <= b.history && 0.0 <= a.joint <= b.joint
  }

  lemma OutlyingnessIsMonotone(w: Weights, ds: seq<Deviation>, joint: bool, some: set<Name>, all: set<Name>)
    requires WeightsOk(w) && DeviationsOk(ds) && some <= all
    ensures NoMore(Outlyingness(w, ds, joint, some), Outlyingness(w, ds, joint, all))
  {
    MoreIsKept(ds, some, all);
    var n, m := Chosen(ds, some), Chosen(ds, all);
    ContributionIsMonotone(Strengths(ds, some), Strengths(ds, all), w.peers);
    ContributionIsMonotone(if n == 0 then 0.0 else (n - 1) as real, if m == 0 then 0.0 else (m - 1) as real, w.breadth);
    ContributionIsMonotone(Historic(ds, some) as real, Historic(ds, all) as real, w.history);
    ContributionIsMonotone(if joint && JOINT in some then 1.0 else 0.0, if joint && JOINT in all then 1.0 else 0.0, w.joint);
  }

  lemma TotalIsMonotone(a: Scores, b: Scores, k: Bands)
    requires NoMore(a, b)
    ensures 0.0 <= Total(a) <= Total(b) && Rank(BandOf(k, Total(a))) <= Rank(BandOf(k, Total(b)))
  {
    var x, y := a.peers + a.breadth + a.history + a.joint, b.peers + b.breadth + b.history + b.joint;
    QuantizeIsMonotone(0.0, x, 10000);
    QuantizeIsMonotone(x, y, 10000);
  }

  lemma {:induction false} NothingKept(ds: seq<Deviation>, keep: set<Name>)
    requires forall d :: d in ds && d.verified ==> d.signal !in keep
    ensures Strengths(ds, keep) == 0.0 && Chosen(ds, keep) == 0 && Historic(ds, keep) == 0
  {
    if ds != [] {
      assert ds[0] in ds;
      NothingKept(ds[1..], keep);
    }
  }

  /** Main result: explaining more leaves no larger residual in any component, explaining
      everything leaves nothing, explaining nothing leaves the raw outlyingness, and the
      residual band never exceeds the raw one. */
  lemma ResidualMeaning(w: Weights, ds: seq<Deviation>, joint: bool, k: Bands, some: set<Name>, more: set<Name>)
    requires WeightsOk(w) && DeviationsOk(ds) && some <= more
    ensures NoMore(Residual(w, ds, joint, some), Residual(w, ds, joint, more))
    ensures Total(Residual(w, ds, joint, some)) <= Total(Residual(w, ds, joint, more))
    ensures Total(Residual(w, ds, joint, {})) == 0.0
    ensures Residual(w, ds, joint, Verified(ds, joint)) == Outlyingness(w, ds, joint, Verified(ds, joint))
    ensures Rank(BandOf(k, Total(Residual(w, ds, joint, some)))) <= Rank(BandOf(k, Total(Outlyingness(w, ds, joint, Verified(ds, joint)))))
  {
    var v := Verified(ds, joint);
    OutlyingnessIsMonotone(w, ds, joint, some * v, more * v);
    TotalIsMonotone(Residual(w, ds, joint, some), Residual(w, ds, joint, more), k);
    OutlyingnessIsMonotone(w, ds, joint, some * v, v);
    TotalIsMonotone(Residual(w, ds, joint, some), Outlyingness(w, ds, joint, v), k);
    NothingKept(ds, {} * v);
    assert v * v == v;
  }
}
