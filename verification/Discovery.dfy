/** From mined patterns to rules: what the full conjunction means, what simplifying keeps. */
module Discovery {
  import opened Seqs
  import opened Rules

  /** What an episode is said to show. */
  datatype Item = Signature(value: string) | Desk(value: string) | Flag(name: Name) | Band(name: Name, band: nat)

  type Grid = map<Name, seq<real>>

  const SIGNATURE := "sequence_signature"
  const DESK := "desk"

  /** How many cuts the value reaches. */
  function BandOf(cuts: seq<real>, v: real): (n: nat)
    ensures n <= |cuts|
  {
    if cuts == [] then 0 else BandOf(cuts[..|cuts| - 1], v) + if v >= cuts[|cuts| - 1] then 1 else 0
  }

  /** `episode_items`: the signature and the desk are always known. */
  function Items(grid: Grid, flags: set<Name>, s: Signals): set<Item>
    requires SIGNATURE in s.labels && DESK in s.labels
  {
    {Signature(s.labels[SIGNATURE]), Desk(s.labels[DESK])}
    + (set n | n in flags && n in s.flags && s.flags[n] :: Flag(n))
    + (set n | n in grid && n in s.numeric :: Band(n, BandOf(grid[n], s.numeric[n])))
  }

  /** `_item_condition`. */
  function Compiled(grid: Grid, i: Item): seq<Condition>
    requires i.Band? ==> i.name in grid && i.band <= |grid[i.name]|
  {
    match i
    case Signature(l) => [Condition(SIGNATURE, Eq, Value(Word(l)))]
    case Desk(l) => [Condition(DESK, Eq, Value(Word(l)))]
    case Flag(n) => [Condition(n, Eq, Value(Word("true")))]
    case Band(n, b) =>
      (if b > 0 then [Condition(n, Ge, Value(Number(grid[n][b - 1])))] else [])
      + (if b < |grid[n]| then [Condition(n, Lt, Value(Number(grid[n][b])))] else [])
  }

  predicate Compilable(grid: Grid, items: seq<Item>) {
    forall i :: i in items && i.Band? ==> i.name in grid && i.band <= |grid[i.name]|
  }

  function CompiledAll(grid: Grid, items: seq<Item>): seq<Condition>
    requires Compilable(grid, items)
  {
    if items == [] then [] else Compiled(grid, items[0]) + CompiledAll(grid, items[1..])
  }

  /** The language knows every signal an item can name, as the kind the item needs. */
  ghost predicate Speaks(lang: Language, grid: Grid, flags: set<Name>) {
    && SIGNATURE in lang.kinds && lang.kinds[SIGNATURE] == LabelSignal
    && DESK in lang.kinds && lang.kinds[DESK] == LabelSignal
    && (forall n :: n in flags ==> n in lang.kinds && lang.kinds[n] == FlagSignal)
    && (forall n :: n in grid ==> n in lang.kinds && lang.kinds[n] == NumericSignal)
  }

  /** Between two neighbouring cuts, and nowhere else, a value has the band between them. */
  lemma {:induction false} BandIsInterval(cuts: seq<real>, v: real, b: nat)
    requires Rising(cuts) && b <= |cuts|
    ensures BandOf(cuts, v) == b <==> (b > 0 ==> v >= cuts[b - 1]) && (b < |cuts| ==> v < cuts[b])
  {
    if cuts != [] {
      var init := cuts[..|cuts| - 1];
      if b < |cuts| { BandIsInterval(init, v, b); } else { BandIsInterval(init, v, b - 1); }
      BandIsInterval(init, v, |init|);
      if v >= cuts[|cuts| - 1] { assert forall i :: 0 <= i < |init| ==> v >= cuts[i]; }
    }
  }

  /** The item the rule language cannot tell apart from nothing at all. */
  predicate Unbounded(grid: Grid, i: Item) { i.Band? && i.name in grid && grid[i.name] == [] }

  /** One compiled item holds exactly where the item is, except that a band without cuts
      compiles to no condition and so also holds where its signal is absent. */
  lemma ItemMeaning(lang: Language, grid: Grid, flags: set<Name>, i: Item, s: Signals)
    requires Speaks(lang, grid, flags) && SignalsOk(lang, s) && SIGNATURE in s.labels && DESK in s.labels
    requires i.Flag? ==> i.name in flags
    requires i.Band? ==> i.name in grid && i.band <= |grid[i.name]| && Rising(grid[i.name])
    ensures Fires(lang, Compiled(grid, i), map[], s) <==>
            i in Items(grid, flags, s) || (Unbounded(grid, i) && i.name !in s.numeric)
  {
    match i
    case Signature(l) => OneCondition(lang, Compiled(grid, i)[0], s);
    case Desk(l) => OneCondition(lang, Compiled(grid, i)[0], s);
    case Flag(n) => OneCondition(lang, Compiled(grid, i)[0], s);
    case Band(n, b) => BandMeaning(lang, grid, n, b, s);
  }

  lemma OneCondition(lang: Language, c: Condition, s: Signals)
    ensures Fires(lang, [c], map[], s) <==> Holds(lang, c, map[], s)
  {
    assert c in [c];
  }

  lemma BandMeaning(lang: Language, grid: Grid, n: Name, b: nat, s: Signals)
    requires n in grid && n in lang.kinds && lang.kinds[n] == NumericSignal && b <= |grid[n]| && Rising(grid[n])
    ensures Fires(lang, Compiled(grid, Band(n, b)), map[], s) <==>
            if n in s.numeric then BandOf(grid[n], s.numeric[n]) == b else grid[n] == []
  {
    var cs, cuts := Compiled(grid, Band(n, b)), grid[n];
    if b > 0 { assert Condition(n, Ge, Value(Number(cuts[b - 1]))) in cs; }
    if b < |cuts| { assert Condition(n, Lt, Value(Number(cuts[b]))) in cs; }
    if n in s.numeric { BandIsInterval(cuts, s.numeric[n], b); }
  }

  lemma FiresConcat(lang: Language, cs: seq<Condition>, ds: seq<Condition>, s: Signals)
    ensures Fires(lang, cs + ds, map[], s) <==> Fires(lang, cs, map[], s) && Fires(lang, ds, map[], s)
  {
    assert forall c :: c in cs + ds <==> c in cs || c in ds;
  }

  ghost predicate Plain(grid: Grid, flags: set<Name>, items: seq<Item>) {
    && Compilable(grid, items)
    && (forall i :: i in items && i.Flag? ==> i.name in flags)
    && (forall i :: i in items && i.Band? ==> Rising(grid[i.name]))
  }

  /** Meaning of the full conjunction, for rising cuts. */
  lemma {:induction false} ConjunctionMeaning(lang: Language, grid: Grid, flags: set<Name>, items: seq<Item>, s: Signals)
    requires Speaks(lang, grid, flags) && SignalsOk(lang, s) && SIGNATURE in s.labels && DESK in s.labels
    requires Plain(grid, flags, items)
    ensures Fires(lang, CompiledAll(grid, items), map[], s) <==>
            forall i :: i in items ==> i in Items(grid, flags, s) || (Unbounded(grid, i) && i.name !in s.numeric)
  {
    if items != [] {
      assert items == [items[0]] + items[1..];
      ItemMeaning(lang, grid, flags, items[0], s);
      ConjunctionMeaning(lang, grid, flags, items[1..], s);
      FiresConcat(lang, Compiled(grid, items[0]), CompiledAll(grid, items[1..]), s);
    }
  }

  /** With rising, non-empty cuts the compiled rule fires on exactly the episodes that show
      every item of the pattern. */
  lemma CompiledRuleMeansPattern(lang: Language, grid: Grid, flags: set<Name>, items: seq<Item>, s: Signals)
    requires Speaks(lang, grid, flags) && SignalsOk(lang, s) && SIGNATURE in s.labels && DESK in s.labels
    requires Plain(grid, flags, items) && forall i :: i in items && i.Band? ==> grid[i.name] != []
    ensures Fires(lang, CompiledAll(grid, items), map[], s) <==> (set i | i in items) <= Items(grid, flags, s)
  {
    ConjunctionMeaning(lang, grid, flags, items, s);
  }

  /** Without cuts a pattern and its rule part exactly on the episodes that lack the signal. */
  lemma EmptyCutsWiden(lang: Language, grid: Grid, flags: set<Name>, n: Name, s: Signals)
    requires Speaks(lang, grid, flags) && SignalsOk(lang, s) && SIGNATURE in s.labels && DESK in s.labels
    requires n in grid && grid[n] == []
    ensures Fires(lang, CompiledAll(grid, [Band(n, 0)]), map[], s)
    ensures Band(n, 0) in Items(grid, flags, s) <==> n in s.numeric
  {
    ConjunctionMeaning(lang, grid, flags, [Band(n, 0)], s);
  }

  // ---------------------------------------------------------------- simplification

  datatype Label = Escalated | Cleared

  datatype Fact = Fact(signals: Signals, outcome: Option<Label>, detected: bool)

  /** What a rule is judged on. */
  datatype Bench = Bench(lang: Language, facts: seq<Fact>, growth: real, maxOverlap: real)

  /** How many episodes fire, and of those how many production detects, how many carry a
      label and how many were escalated. */
  datatype Score = Score(fires: nat, detected: nat, labelled: nat, escalated: nat)

  predicate FiresOn(k: Bench, cs: seq<Condition>, f: Fact) { Fires(k.lang, cs, map[], f.signals) }

  function Count(facts: seq<Fact>, p: Fact -> bool): nat {
    if facts == [] then 0 else (if p(facts[0]) then 1 else 0) + Count(facts[1..], p)
  }

  function ScoreOf(k: Bench, cs: seq<Condition>): Score {
    Score(Count(k.facts, (f: Fact) => FiresOn(k, cs, f)),
          Count(k.facts, (f: Fact) => FiresOn(k, cs, f) && f.detected),
          Count(k.facts, (f: Fact) => FiresOn(k, cs, f) && f.outcome.Some?),
          Count(k.facts, (f: Fact) => FiresOn(k, cs, f) && f.outcome == Some(Escalated)))
  }

  /** `_precision`: what it returns of a score. */
  function Precision(s: Score): Option<real> {
    if s.labelled == 0 then None else Some(s.escalated as real / s.labelled as real)
  }

  function Overlap(s: Score): real { if s.fires == 0 then 0.0 else s.detected as real / s.fires as real }

  function OtherThan(c: Condition): Condition -> bool { (d: Condition) => d != c }

  function Without(cs: seq<Condition>, c: Condition): seq<Condition> { Filter(cs, OtherThan(c)) }

  function Base(fires: nat): real { if fires == 0 then 1.0 else fires as real }

  function Grown(fires: nat, factor: real): real { Base(fires) * factor }

  predicate Better(k: Bench, trial: Score, best: Score) {
    && PrecisionKept(best, trial)
    && trial.fires as real <= Grown(best.fires, k.growth)
    && Overlap(trial) <= k.maxOverlap
  }

  predicate PrecisionKept(before: Score, after: Score) {
    Precision(before).Some? && Precision(after).Some? && Precision(after).value >= Precision(before).value
  }

  /** One pass over the conditions, dropping each that is not missed. */
  function Simplified(k: Bench, best: seq<Condition>, todo: seq<Condition>): seq<Condition>
    decreases |todo|
  {
    if todo == [] then best
    else
      var trial := Without(best, todo[0]);
      Simplified(k, if trial != [] && Better(k, ScoreOf(k, trial), ScoreOf(k, best)) then trial else best, todo[1..])
  }

  /** `synthesize_rule`, given the compiled conditions. */
  method SynthesizeRule(k: Bench, conditions: seq<Condition>) returns (best: seq<Condition>)
    ensures best == Simplified(k, conditions, conditions)
  {
    best := conditions;
    var score := ScoreOf(k, best);
    for i := 0 to |conditions|
      invariant score == ScoreOf(k, best)
      invariant Simplified(k, conditions, conditions) == Simplified(k, best, conditions[i..])
    {
      assert conditions[i..][1..] == conditions[i + 1..];
      var trial := Without(best, conditions[i]);
      if trial == [] { continue; }
      var trialScore := ScoreOf(k, trial);
      if Better(k, trialScore, score) {
        best, score := trial, trialScore;
      }
    }
  }

  /** Dropping conditions only adds episodes. */
  lemma FewerConditionsFireWider(k: Bench, some: seq<Condition>, all: seq<Condition>, s: Signals)
    requires forall c :: c in some ==> c in all
    ensures Fires(k.lang, all, map[], s) ==> Fires(k.lang, some, map[], s)
  {
  }

  /** What simplifying keeps: some of the conditions, at least one, no less precise, and no
      wider overlap with production once anything was dropped. */
  ghost predicate Keeps(k: Bench, before: seq<Condition>, after: seq<Condition>) {
    && (forall c :: c in after ==> c in before) && |after| <= |before|
    && (before != [] ==> after != [])
    && (after == before || PrecisionKept(ScoreOf(k, before), ScoreOf(k, after)))
    && (after == before || Overlap(ScoreOf(k, after)) <= k.maxOverlap)
  }

  lemma {:induction false} WithoutShrinks(cs: seq<Condition>, c: Condition)
    ensures |Without(cs, c)| <= |cs|
    ensures |Without(cs, c)| == |cs| ==> Without(cs, c) == cs
  {
    if cs != [] {
      assert cs == [cs[0]] + cs[1..];
      WithoutShrinks(cs[1..], c);
    }
  }

  lemma DroppingKeeps(k: Bench, best: seq<Condition>, c: Condition)
    requires Without(best, c) != [] && Better(k, ScoreOf(k, Without(best, c)), ScoreOf(k, best))
    ensures Keeps(k, best, Without(best, c))
  {
    WithoutShrinks(best, c);
  }

  lemma KeepsTransitively(k: Bench, a: seq<Condition>, b: seq<Condition>, c: seq<Condition>)
    requires Keeps(k, a, b) && Keeps(k, b, c)
    ensures Keeps(k, a, c)
  {
  }

  lemma {:induction false} SimplifyingKeeps(k: Bench, best: seq<Condition>, todo: seq<Condition>)
    ensures Keeps(k, best, Simplified(k, best, todo))
    decreases |todo|
  {
    if todo != [] {
      var trial := Without(best, todo[0]);
      if trial != [] && Better(k, ScoreOf(k, trial), ScoreOf(k, best)) {
        DroppingKeeps(k, best, todo[0]);
        SimplifyingKeeps(k, trial, todo[1..]);
        KeepsTransitively(k, best, trial, Simplified(k, trial, todo[1..]));
      } else {
        SimplifyingKeeps(k, best, todo[1..]);
      }
    }
  }

  function Power(x: real, n: nat): real { if n == 0 then 1.0 else x * Power(x, n - 1) }

  lemma {:induction false} PowersGrow(x: real, n: nat, m: nat)
    requires x >= 1.0 && n <= m
    ensures 1.0 <= Power(x, n) <= Power(x, m)
    decreases m
  {
    if m > 0 {
      PowersGrow(x, if n == 0 then 0 else n - 1, m - 1);
      assert x * Power(x, m - 1) >= Power(x, m - 1);
      if n > 0 { assert x * Power(x, m - 1) >= x * Power(x, n - 1); }
    }
  }

  function Volume(k: Bench, cs: seq<Condition>): nat { ScoreOf(k, cs).fires }

  ghost predicate GrownWithin(before: nat, after: nat, x: real, n: nat) { after as real <= Grown(before, Power(x, n)) }

  /** No more fires than one growth step for each condition dropped. */
  ghost predicate VolumeWithin(k: Bench, before: seq<Condition>, after: seq<Condition>) {
    |after| <= |before| && GrownWithin(Volume(k, before), Volume(k, after), k.growth, |before| - |after|)
  }

  lemma Scaled(a: real, b: real, c: real)
    requires a <= b && c >= 0.0
    ensures a * c <= b * c
  {
  }

  lemma ScaledTwice(u: real, v: real, x: real, p: real, q: real)
    requires 0.0 <= u && v <= u * x && p >= 0.0 && x * p <= q
    ensures v * p <= u * q
  {
    Scaled(v, u * x, p);
    assert (u * x) * p == u * (x * p);
    Scaled(x * p, q, u);
  }

  lemma BaseGrown(a: nat, b: nat, x: real)
    requires x >= 1.0 && b as real <= Grown(a, x)
    ensures Base(b) <= Grown(a, x)
  {
    Scaled(1.0, Base(a), x);
  }

  lemma PowerStep(x: real, n: nat, m: nat)
    requires x >= 1.0 && n < m
    ensures Power(x, n) >= 0.0 && x * Power(x, n) <= Power(x, m)
  {
    PowersGrow(x, n + 1, m);
    PowersGrow(x, n, n);
  }

  lemma GrownTwice(a: nat, b: nat, c: nat, x: real, p: real, q: real)
    requires Base(b) <= Grown(a, x) && c as real <= Grown(b, p) && p >= 0.0 && x * p <= q
    ensures c as real <= Grown(a, q)
  {
    ScaledTwice(Base(a), Base(b), x, p, q);
  }

  lemma OneMoreGrowth(a: nat, b: nat, c: nat, x: real, n: nat, m: nat)
    requires x >= 1.0 && n < m && b as real <= Grown(a, x) && GrownWithin(b, c, x, n)
    ensures GrownWithin(a, c, x, m)
  {
    PowerStep(x, n, m);
    BaseGrown(a, b, x);
    GrownTwice(a, b, c, x, Power(x, n), Power(x, m));
  }

  lemma OneMoreDrop(k: Bench, best: seq<Condition>, trial: seq<Condition>, after: seq<Condition>)
    requires k.growth >= 1.0 && |trial| < |best| && VolumeWithin(k, trial, after)
    requires Volume(k, trial) as real <= Grown(Volume(k, best), k.growth)
    ensures VolumeWithin(k, best, after)
  {
    OneMoreGrowth(Volume(k, best), Volume(k, trial), Volume(k, after), k.growth, |trial| - |after|, |best| - |after|);
  }

  lemma NothingDropped(k: Bench, best: seq<Condition>)
    ensures VolumeWithin(k, best, best)
  {
    assert Power(k.growth, 0) == 1.0;
  }

  /** The volume limit is per dropped condition, so it compounds with their number. */
  lemma {:induction false} VolumeCompounds(k: Bench, best: seq<Condition>, todo: seq<Condition>)
    requires k.growth >= 1.0
    ensures VolumeWithin(k, best, Simplified(k, best, todo))
    decreases |todo|
  {
    if todo != [] {
      var trial := Without(best, todo[0]);
      WithoutShrinks(best, todo[0]);
      if trial != [] && Better(k, ScoreOf(k, trial), ScoreOf(k, best)) {
        VolumeCompounds(k, trial, todo[1..]);
        if trial != best { OneMoreDrop(k, best, trial, Simplified(k, trial, todo[1..])); }
      } else {
        VolumeCompounds(k, best, todo[1..]);
      }
    } else {
      NothingDropped(k, best);
    }
  }

  /** A valid full rule stays valid. */
  lemma SimplifiedRuleIsValid(k: Bench, r: Rule)
    requires ValidRule(k.lang, r)
    ensures ValidRule(k.lang, r.(conditions := Simplified(k, r.conditions, r.conditions)))
  {
    SimplifyingKeeps(k, r.conditions, r.conditions);
  }

  /** Main result: the synthesized rule still fires on every episode that shows the pattern, is
      no less precise on the labels than the exact rule, and is left exact when the labels do
      not say how precise it is. */
  lemma SynthesisIsSound(k: Bench, grid: Grid, flags: set<Name>, items: seq<Item>, s: Signals)
    requires Speaks(k.lang, grid, flags) && SignalsOk(k.lang, s) && SIGNATURE in s.labels && DESK in s.labels
    requires Plain(grid, flags, items) && forall i :: i in items && i.Band? ==> grid[i.name] != []
    ensures var full := CompiledAll(grid, items);
            var rule := Simplified(k, full, full);
            && ((set i | i in items) <= Items(grid, flags, s) ==> Fires(k.lang, rule, map[], s))
            && (full != [] ==> rule != [])
            && (rule == full || PrecisionKept(ScoreOf(k, full), ScoreOf(k, rule)))
            && (Precision(ScoreOf(k, full)).None? ==> rule == full)
  {
    var full := CompiledAll(grid, items);
    CompiledRuleMeansPattern(k.lang, grid, flags, items, s);
    SimplifyingKeeps(k, full, full);
    FewerConditionsFireWider(k, Simplified(k, full, full), full, s);
  }
}
