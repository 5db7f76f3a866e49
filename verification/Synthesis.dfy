/** What the one pass of rule synthesis guarantees on every bench, and from which size on it does not. */
module Synthesis {
  import opened Seqs
  import opened Rules
  import opened Discovery

  function Of(cs: seq<Condition>): set<Condition> { set c | c in cs }

  function Distinct(cs: seq<Condition>): nat { |Of(cs)| }

  ghost predicate Among(some: seq<Condition>, all: seq<Condition>) { forall c :: c in some ==> c in all }

  /** The synthesized rule is the exact one or within one growth step of it. */
  predicate WithinOneStep(k: Bench, full: seq<Condition>) {
    var rule := Simplified(k, full, full);
    rule == full || Volume(k, rule) as real <= Grown(Volume(k, full), k.growth)
  }

  /** Passes the code's own test against the exact rule. */
  predicate Qualifies(k: Bench, full: seq<Condition>, cs: seq<Condition>) {
    && cs != [] && (forall c :: c in cs ==> c in full)
    && (cs == full || Better(k, ScoreOf(k, cs), ScoreOf(k, full)))
  }

  /** No rule that passes that test has fewer conditions than the synthesized one. */
  ghost predicate IsSmallest(k: Bench, full: seq<Condition>) {
    forall cs :: Qualifies(k, full, cs) ==> Distinct(Simplified(k, full, full)) <= Distinct(cs)
  }

  /** On every bench of this growth limit, for every rule of so many distinct conditions. */
  ghost predicate OneStepSuffices(growth: real, conditions: nat) {
    forall k: Bench, full :: k.growth == growth && Distinct(full) == conditions ==> WithinOneStep(k, full)
  }

  ghost predicate SmallestAlways(growth: real, conditions: nat) {
    forall k: Bench, full :: k.growth == growth && Distinct(full) == conditions ==> IsSmallest(k, full)
  }

  // ---------------------------------------------------------------- counting

  lemma {:induction false} CountWider(facts: seq<Fact>, p: Fact -> bool, q: Fact -> bool)
    requires forall f :: f in facts && p(f) ==> q(f)
    ensures Count(facts, p) <= Count(facts, q)
  {
    if facts != [] { CountWider(facts[1..], p, q); }
  }

  lemma CountSame(facts: seq<Fact>, p: Fact -> bool, q: Fact -> bool)
    requires forall f :: f in facts ==> p(f) == q(f)
    ensures Count(facts, p) == Count(facts, q)
  {
    CountWider(facts, p, q);
    CountWider(facts, q, p);
  }

  lemma {:induction false} CountConcat(fs: seq<Fact>, gs: seq<Fact>, p: Fact -> bool)
    ensures Count(fs + gs, p) == Count(fs, p) + Count(gs, p)
  {
    if fs == [] {
      assert fs + gs == gs;
    } else {
      assert (fs + gs)[1..] == fs[1..] + gs;
      CountConcat(fs[1..], gs, p);
    }
  }

  lemma {:induction false} CountNone(facts: seq<Fact>, p: Fact -> bool)
    requires forall f :: f in facts ==> !p(f)
    ensures Count(facts, p) == 0
  {
    if facts != [] { CountNone(facts[1..], p); }
  }

  lemma {:induction false} CountSome(facts: seq<Fact>, p: Fact -> bool, f: Fact)
    requires f in facts && p(f)
    ensures Count(facts, p) >= 1
  {
    if !p(facts[0]) { CountSome(facts[1..], p, f); }
  }

  lemma WiderVolume(k: Bench, some: seq<Condition>, all: seq<Condition>)
    requires Among(some, all)
    ensures Volume(k, all) <= Volume(k, some)
  {
    forall f | f in k.facts && FiresOn(k, all, f) ensures FiresOn(k, some, f) {
      FewerConditionsFireWider(k, some, all, f.signals);
    }
    CountWider(k.facts, (f: Fact) => FiresOn(k, all, f), (f: Fact) => FiresOn(k, some, f));
  }

  lemma LabelledFire(k: Bench, cs: seq<Condition>)
    ensures ScoreOf(k, cs).labelled <= ScoreOf(k, cs).fires
  {
    CountWider(k.facts, (f: Fact) => FiresOn(k, cs, f) && f.outcome.Some?, (f: Fact) => FiresOn(k, cs, f));
  }

  /** A score depends on which conditions there are, not on how often. */
  lemma SameConditionsSameScore(k: Bench, cs: seq<Condition>, ds: seq<Condition>)
    requires Among(cs, ds) && Among(ds, cs)
    ensures ScoreOf(k, cs) == ScoreOf(k, ds)
  {
    assert forall f :: FiresOn(k, cs, f) == FiresOn(k, ds, f);
    CountSame(k.facts, (f: Fact) => FiresOn(k, cs, f), (f: Fact) => FiresOn(k, ds, f));
    CountSame(k.facts, (f: Fact) => FiresOn(k, cs, f) && f.detected, (f: Fact) => FiresOn(k, ds, f) && f.detected);
    CountSame(k.facts, (f: Fact) => FiresOn(k, cs, f) && f.outcome.Some?, (f: Fact) => FiresOn(k, ds, f) && f.outcome.Some?);
    CountSame(k.facts, (f: Fact) => FiresOn(k, cs, f) && f.outcome == Some(Escalated),
              (f: Fact) => FiresOn(k, ds, f) && f.outcome == Some(Escalated));
  }

  // ---------------------------------------------------------------- no growth allowed

  lemma ScaledDown(a: real, x: real)
    ensures a >= 1.0 && x < 1.0 ==> a * x < a
  {
  }

  lemma NoRoom(before: nat, after: nat, growth: real)
    requires 1 <= before <= after && growth <= 1.0 && after as real <= Grown(before, growth)
    ensures after == before && growth == 1.0
  {
    ScaledDown(before as real, growth);
  }

  lemma TightDrop(k: Bench, all: seq<Condition>, some: seq<Condition>)
    requires k.growth <= 1.0 && Among(some, all) && Better(k, ScoreOf(k, some), ScoreOf(k, all))
    ensures k.growth == 1.0 && Volume(k, some) == Volume(k, all)
  {
    WiderVolume(k, some, all);
    LabelledFire(k, all);
    NoRoom(Volume(k, all), Volume(k, some), k.growth);
  }

  lemma {:induction false} TightPass(k: Bench, best: seq<Condition>, todo: seq<Condition>)
    requires k.growth <= 1.0
    ensures Volume(k, Simplified(k, best, todo)) == Volume(k, best)
    ensures k.growth < 1.0 ==> Simplified(k, best, todo) == best
    decreases |todo|
  {
    if todo != [] {
      var trial := Without(best, todo[0]);
      if trial != [] && Better(k, ScoreOf(k, trial), ScoreOf(k, best)) {
        TightDrop(k, best, trial);
        TightPass(k, trial, todo[1..]);
      } else {
        TightPass(k, best, todo[1..]);
      }
    }
  }

  lemma SameVolumeIsWithin(v: nat, growth: real)
    requires growth == 1.0
    ensures v as real <= Grown(v, growth)
  {
  }

  lemma TightIsWithin(k: Bench, full: seq<Condition>)
    requires k.growth <= 1.0
    ensures WithinOneStep(k, full)
  {
    TightPass(k, full, full);
    if k.growth == 1.0 { SameVolumeIsWithin(Volume(k, full), k.growth); }
  }

  lemma ShrinkingIsSmallest(k: Bench, full: seq<Condition>)
    requires k.growth < 1.0
    ensures IsSmallest(k, full)
  {
    TightPass(k, full, full);
    forall cs | Qualifies(k, full, cs) ensures cs == full {
      if cs != full { TightDrop(k, full, cs); }
    }
  }

  // ---------------------------------------------------------------- at most two conditions

  ghost predicate Single(cs: seq<Condition>) { forall c, d :: c in cs && d in cs ==> c == d }

  lemma {:induction false} KeptWhole(cs: seq<Condition>, c: Condition)
    requires c !in cs
    ensures Without(cs, c) == cs
  {
    if cs != [] { KeptWhole(cs[1..], c); }
  }

  lemma {:induction false} SingleStays(k: Bench, best: seq<Condition>, todo: seq<Condition>)
    requires Single(best)
    ensures Simplified(k, best, todo) == best
    decreases |todo|
  {
    if todo != [] {
      var trial := Without(best, todo[0]);
      if trial != [] {
        assert trial[0] in trial;
        KeptWhole(best, todo[0]);
      }
      SingleStays(k, best, todo[1..]);
    }
  }

  lemma TwoMembers(all: set<Condition>, c: Condition, d: Condition)
    requires c in all && d in all && c != d
    ensures |all| >= 2
  {
    SubsetIsSmaller({c, d}, all);
  }

  lemma ThreeMembers(all: set<Condition>, c: Condition, d: Condition, e: Condition)
    requires c in all && d in all && e in all && c != d && d != e && c != e
    ensures |all| >= 3
  {
    SubsetIsSmaller({c, d, e}, all);
  }

  lemma OneIsSingle(cs: seq<Condition>)
    requires Distinct(cs) <= 1
    ensures Single(cs)
  {
    forall c, d | c in cs && d in cs ensures c == d {
      if c != d { TwoMembers(Of(cs), c, d); }
    }
  }

  lemma SingleIsOne(cs: seq<Condition>)
    requires Single(cs)
    ensures Distinct(cs) <= 1
  {
    if cs != [] {
      assert cs[0] in cs;
      assert Of(cs) == {cs[0]};
    }
  }

  /** Of two conditions only one can be dropped. */
  lemma OneLeft(best: seq<Condition>, c: Condition)
    requires Distinct(best) <= 2
    ensures Without(best, c) == best || Single(Without(best, c))
  {
    var trial := Without(best, c);
    if c in best {
      assert Of(trial) == Of(best) - {c};
      OneIsSingle(trial);
    } else {
      KeptWhole(best, c);
    }
  }

  lemma {:induction false} PairDropsOnce(k: Bench, best: seq<Condition>, todo: seq<Condition>)
    requires Distinct(best) <= 2
    ensures var rule := Simplified(k, best, todo);
            rule == best || (Single(rule) && Volume(k, rule) as real <= Grown(Volume(k, best), k.growth))
    decreases |todo|
  {
    if todo != [] {
      var trial := Without(best, todo[0]);
      OneLeft(best, todo[0]);
      if trial != [] && trial != best && Better(k, ScoreOf(k, trial), ScoreOf(k, best)) {
        SingleStays(k, trial, todo[1..]);
      } else {
        PairDropsOnce(k, best, todo[1..]);
      }
    }
  }

  lemma {:induction false} PairFindsIt(k: Bench, best: seq<Condition>, todo: seq<Condition>, x: Condition)
    requires Distinct(best) <= 2 && x in todo && Without(best, x) != [] && x in best
    requires Better(k, ScoreOf(k, Without(best, x)), ScoreOf(k, best))
    ensures Single(Simplified(k, best, todo))
    decreases |todo|
  {
    var trial := Without(best, todo[0]);
    OneLeft(best, todo[0]);
    if trial != [] && trial != best && Better(k, ScoreOf(k, trial), ScoreOf(k, best)) {
      SingleStays(k, trial, todo[1..]);
    } else {
      assert trial == best ==> todo[0] !in best;
      PairFindsIt(k, best, todo[1..], x);
    }
  }

  /** What is left of two conditions when only the kind in `cs` stays. */
  lemma OtherOfTwo(full: seq<Condition>, cs: seq<Condition>) returns (x: Condition)
    requires Distinct(full) == 2 && cs != [] && Single(cs) && Among(cs, full)
    ensures x in full && x != cs[0] && Among(Without(full, x), cs) && Among(cs, Without(full, x))
  {
    var all := Of(full);
    assert cs[0] in cs && cs[0] in all;
    assert all != {cs[0]};
    x :| x in all && x != cs[0];
    forall c | c in full && c != x ensures c == cs[0] {
      if c != cs[0] { ThreeMembers(all, c, x, cs[0]); }
    }
  }

  lemma SmallerIsFound(k: Bench, full: seq<Condition>, cs: seq<Condition>)
    requires Distinct(full) == 2 && Distinct(cs) == 1 && Qualifies(k, full, cs)
    ensures Distinct(Simplified(k, full, full)) <= 1
  {
    OneIsSingle(cs);
    var x := OtherOfTwo(full, cs);
    SameConditionsSameScore(k, cs, Without(full, x));
    assert cs[0] in Without(full, x);
    PairFindsIt(k, full, full, x);
    SingleIsOne(Simplified(k, full, full));
  }

  lemma PairIsSmallest(k: Bench, full: seq<Condition>)
    requires Distinct(full) <= 2
    ensures IsSmallest(k, full)
  {
    var rule := Simplified(k, full, full);
    SimplifyingKeeps(k, full, full);
    SubsetIsSmaller(Of(rule), Of(full));
    forall cs | Qualifies(k, full, cs) ensures Distinct(rule) <= Distinct(cs) {
      assert cs[0] in Of(cs);
      if Distinct(full) == 2 && Distinct(cs) == 1 { SmallerIsFound(k, full, cs); }
    }
  }

  // ---------------------------------------------------------------- benches of flags

  /** A rule language, what every episode shows, and some of the language's flags. */
  datatype Setup = Setup(lang: Language, base: Signals, flags: seq<Name>, growth: real, maxOverlap: real)

  ghost predicate SetupOk(z: Setup) {
    && NoDuplicates(z.flags) && z.maxOverlap >= 0.0
    && SignalsOk(z.lang, z.base)
    && forall n :: n in z.flags ==> n in z.lang.kinds && z.lang.kinds[n] == FlagSignal
  }

  function Size(z: Setup): nat { |z.flags| }

  function IsSet(z: Setup, i: nat): Condition
    requires i < Size(z)
  {
    Condition(z.flags[i], Eq, Value(Word("true")))
  }

  lemma SetOnce(z: Setup, i: nat, j: nat)
    requires NoDuplicates(z.flags) && i < Size(z) && j < Size(z)
    ensures IsSet(z, i) == IsSet(z, j) <==> i == j
  {
  }

  /** The conditions from `lo` on. */
  function Conds(z: Setup, lo: nat): (cs: seq<Condition>)
    requires lo <= Size(z)
    ensures |cs| == Size(z) - lo
  {
    seq(Size(z) - lo, i requires 0 <= i < Size(z) - lo => IsSet(z, lo + i))
  }

  lemma CondsStep(z: Setup, lo: nat)
    requires lo < Size(z)
    ensures Conds(z, lo) == [IsSet(z, lo)] + Conds(z, lo + 1)
  {
  }

  lemma CondsMembers(z: Setup, lo: nat, c: Condition)
    requires lo <= Size(z)
    ensures c in Conds(z, lo) <==> exists i {:trigger IsSet(z, i)} :: lo <= i < Size(z) && c == IsSet(z, i)
  {
    forall i: nat | lo <= i < Size(z) ensures IsSet(z, i) in Conds(z, lo) { assert Conds(z, lo)[i - lo] == IsSet(z, i); }
  }

  lemma CondsHas(z: Setup, lo: nat, i: nat)
    requires NoDuplicates(z.flags) && lo <= Size(z) && i < Size(z)
    ensures IsSet(z, i) in Conds(z, lo) <==> lo <= i
  {
    CondsMembers(z, lo, IsSet(z, i));
    forall j: nat | j < Size(z) ensures IsSet(z, j) == IsSet(z, i) <==> j == i { SetOnce(z, i, j); }
  }

  lemma {:induction false} CondsDistinct(z: Setup, lo: nat)
    requires NoDuplicates(z.flags) && lo <= Size(z)
    ensures Distinct(Conds(z, lo)) == Size(z) - lo
    decreases Size(z) - lo
  {
    if lo < Size(z) {
      CondsDistinct(z, lo + 1);
      CondsHas(z, lo + 1, lo);
      CondsStep(z, lo);
      assert Of(Conds(z, lo)) == {IsSet(z, lo)} + Of(Conds(z, lo + 1));
    }
  }

  lemma DropsFirst(z: Setup, lo: nat)
    requires NoDuplicates(z.flags) && lo < Size(z)
    ensures Without(Conds(z, lo), IsSet(z, lo)) == Conds(z, lo + 1)
  {
    CondsHas(z, lo + 1, lo);
    CondsStep(z, lo);
    KeptWhole(Conds(z, lo + 1), IsSet(z, lo));
    FilterStep(IsSet(z, lo), Conds(z, lo + 1), OtherThan(IsSet(z, lo)));
  }

  function Named(z: Setup, off: set<nat>): set<Name> { set i | i in off && i < Size(z) :: z.flags[i] }

  /** An episode that shows every one of the flags but those at `off`. */
  function Showing(z: Setup, off: set<nat>, outcome: Label): Fact {
    var flags := map n | n in z.base.flags.Keys + (set f | f in z.flags) ::
                   if n in z.flags then n !in Named(z, off) else z.base.flags[n];
    Fact(z.base.(flags := flags), Some(outcome), false)
  }

  function FlagBench(z: Setup, facts: seq<Fact>): Bench { Bench(z.lang, facts, z.growth, z.maxOverlap) }

  lemma FlagHolds(z: Setup, off: set<nat>, outcome: Label, i: nat)
    requires SetupOk(z) && i < Size(z)
    ensures Holds(z.lang, IsSet(z, i), map[], Showing(z, off, outcome).signals) <==> i !in off
  {
    assert z.flags[i] in z.flags;
    assert z.flags[i] in Named(z, off) <==> i in off;
  }

  lemma ShowingIsOk(z: Setup, off: set<nat>, outcome: Label)
    requires SetupOk(z)
    ensures SignalsOk(z.lang, Showing(z, off, outcome).signals)
  {
  }

  lemma ShowingFires(k: Bench, z: Setup, off: set<nat>, outcome: Label, cs: seq<Condition>)
    requires SetupOk(z) && k.lang == z.lang && Among(cs, Conds(z, 0))
    ensures FiresOn(k, cs, Showing(z, off, outcome)) <==>
            forall i {:trigger IsSet(z, i)} :: 0 <= i < Size(z) && IsSet(z, i) in cs ==> i !in off
  {
    forall i: nat | i < Size(z) ensures Holds(k.lang, IsSet(z, i), map[], Showing(z, off, outcome).signals) <==> i !in off {
      FlagHolds(z, off, outcome, i);
    }
    forall c | c in cs ensures exists i {:trigger IsSet(z, i)} :: 0 <= i < Size(z) && c == IsSet(z, i) { CondsMembers(z, 0, c); }
  }

  lemma CondsAmong(z: Setup, lo: nat)
    requires lo <= Size(z)
    ensures Among(Conds(z, lo), Conds(z, 0))
  {
    forall c | c in Conds(z, lo) ensures c in Conds(z, 0) {
      CondsMembers(z, lo, c);
      CondsMembers(z, 0, c);
    }
  }

  lemma TailFires(k: Bench, z: Setup, off: set<nat>, outcome: Label, lo: nat)
    requires SetupOk(z) && k.lang == z.lang && lo <= Size(z) && forall i :: i in off ==> i < Size(z)
    ensures FiresOn(k, Conds(z, lo), Showing(z, off, outcome)) <==> forall i :: i in off ==> i < lo
  {
    CondsAmong(z, lo);
    ShowingFires(k, z, off, outcome, Conds(z, lo));
    forall i: nat | i < Size(z) ensures IsSet(z, i) in Conds(z, lo) <==> lo <= i { CondsHas(z, lo, i); }
    forall i | i in off ensures IsSet(z, i) in Conds(z, lo) <==> lo <= i {}
  }

  // ---------------------------------------------------------------- two steps beyond one

  function Copies(n: nat, f: Fact): seq<Fact> { if n == 0 then [] else [f] + Copies(n - 1, f) }

  lemma {:induction false} CountCopies(n: nat, f: Fact, p: Fact -> bool)
    ensures Count(Copies(n, f), p) == if p(f) then n else 0
    ensures forall g :: g in Copies(n, f) ==> g == f
  {
    if n > 0 { CountCopies(n - 1, f, p); }
  }

  /** `base` episodes show every flag, `more` lack the first, one lacks the first two. */
  function Stairs(z: Setup, base: nat, more: nat): seq<Fact> {
    Copies(base, Showing(z, {}, Escalated)) + Copies(more, Showing(z, {0}, Escalated)) + Copies(1, Showing(z, {0, 1}, Escalated))
  }

  lemma StairsCount(z: Setup, base: nat, more: nat, p: Fact -> bool)
    ensures Count(Stairs(z, base, more), p)
      == (if p(Showing(z, {}, Escalated)) then base else 0)
       + (if p(Showing(z, {0}, Escalated)) then more else 0)
       + (if p(Showing(z, {0, 1}, Escalated)) then 1 else 0)
    ensures forall f :: f in Stairs(z, base, more) ==> f.outcome == Some(Escalated) && !f.detected
  {
    CountConcat(Copies(base, Showing(z, {}, Escalated)) + Copies(more, Showing(z, {0}, Escalated)),
                Copies(1, Showing(z, {0, 1}, Escalated)), p);
    CountConcat(Copies(base, Showing(z, {}, Escalated)), Copies(more, Showing(z, {0}, Escalated)), p);
    CountCopies(base, Showing(z, {}, Escalated), p);
    CountCopies(more, Showing(z, {0}, Escalated), p);
    CountCopies(1, Showing(z, {0, 1}, Escalated), p);
  }

  lemma AllEscalated(k: Bench, cs: seq<Condition>)
    requires forall f :: f in k.facts ==> f.outcome == Some(Escalated) && !f.detected
    ensures var v := Volume(k, cs); ScoreOf(k, cs) == Score(v, 0, v, v)
  {
    CountNone(k.facts, (f: Fact) => FiresOn(k, cs, f) && f.detected);
    CountSame(k.facts, (f: Fact) => FiresOn(k, cs, f), (f: Fact) => FiresOn(k, cs, f) && f.outcome.Some?);
    CountSame(k.facts, (f: Fact) => FiresOn(k, cs, f), (f: Fact) => FiresOn(k, cs, f) && f.outcome == Some(Escalated));
  }

  lemma StairsVolume(z: Setup, base: nat, more: nat, lo: nat)
    requires SetupOk(z) && lo <= 2 < Size(z)
    ensures var k := FlagBench(z, Stairs(z, base, more));
            var v := base + (if lo >= 1 then more else 0) + (if lo == 2 then 1 else 0);
            ScoreOf(k, Conds(z, lo)) == Score(v, 0, v, v)
  {
    var k := FlagBench(z, Stairs(z, base, more));
    TailFires(k, z, {}, Escalated, lo);
    TailFires(k, z, {0}, Escalated, lo);
    TailFires(k, z, {0, 1}, Escalated, lo);
    StairsCount(z, base, more, (f: Fact) => FiresOn(k, Conds(z, lo), f));
    AllEscalated(k, Conds(z, lo));
  }

  lemma PreciseIsBetter(k: Bench, v: nat, v': nat)
    requires v >= 1 && v' >= 1 && v' as real <= Grown(v, k.growth) && k.maxOverlap >= 0.0
    ensures Better(k, Score(v', 0, v', v'), Score(v, 0, v, v))
  {
    assert v as real / v as real == 1.0 && v' as real / v' as real == 1.0;
    assert 0 as real / v' as real == 0.0;
  }

  lemma AcceptsFirst(k: Bench, best: seq<Condition>, todo: seq<Condition>, trial: seq<Condition>)
    requires todo != [] && trial == Without(best, todo[0]) && trial != []
    requires Better(k, ScoreOf(k, trial), ScoreOf(k, best))
    ensures Simplified(k, best, todo) == Simplified(k, trial, todo[1..])
  {
  }

  lemma AcceptsInOrder(k: Bench, z: Setup, lo: nat)
    requires SetupOk(z) && lo + 1 < Size(z) && Better(k, ScoreOf(k, Conds(z, lo + 1)), ScoreOf(k, Conds(z, lo)))
    ensures Simplified(k, Conds(z, lo), Conds(z, lo)) == Simplified(k, Conds(z, lo + 1), Conds(z, lo + 1))
  {
    DropsFirst(z, lo);
    assert Conds(z, lo)[1..] == Conds(z, lo + 1);
    AcceptsFirst(k, Conds(z, lo), Conds(z, lo), Conds(z, lo + 1));
  }

  /** The next drop, when every episode that fires is escalated and none is detected. */
  lemma NextDropped(k: Bench, z: Setup, lo: nat, u: nat, v: nat)
    requires SetupOk(z) && lo + 1 < Size(z) && k.maxOverlap >= 0.0 && u >= 1 && v >= 1 && v as real <= Grown(u, k.growth)
    requires ScoreOf(k, Conds(z, lo)) == Score(u, 0, u, u) && ScoreOf(k, Conds(z, lo + 1)) == Score(v, 0, v, v)
    ensures Simplified(k, Conds(z, lo), Conds(z, lo)) == Simplified(k, Conds(z, lo + 1), Conds(z, lo + 1))
  {
    PreciseIsBetter(k, u, v);
    AcceptsInOrder(k, z, lo);
  }

  lemma NeverNarrower(k: Bench, cs: seq<Condition>)
    ensures Volume(k, Simplified(k, cs, cs)) >= Volume(k, cs)
  {
    SimplifyingKeeps(k, cs, cs);
    WiderVolume(k, Simplified(k, cs, cs), cs);
  }

  lemma BreaksInTwo(k: Bench, z: Setup, u: nat, v: nat, x: nat)
    requires SetupOk(z) && Size(z) > 2 && k.maxOverlap >= 0.0 && u >= 1 && v >= 1 && x > u
    requires v as real <= Grown(u, k.growth) < x as real && x as real <= Grown(v, k.growth)
    requires ScoreOf(k, Conds(z, 0)) == Score(u, 0, u, u) && ScoreOf(k, Conds(z, 1)) == Score(v, 0, v, v)
    requires ScoreOf(k, Conds(z, 2)) == Score(x, 0, x, x)
    ensures !WithinOneStep(k, Conds(z, 0))
  {
    NextDropped(k, z, 0, u, v);
    NextDropped(k, z, 1, v, x);
    NeverNarrower(k, Conds(z, 2));
  }

  lemma StairSizes(growth: real) returns (base: nat, more: nat)
    requires growth > 1.0
    ensures base >= 1 && (base + more) as real <= Grown(base, growth) < (base + more + 1) as real
    ensures (base + more + 1) as real <= Grown(base + more, growth)
  {
    var x := growth - 1.0;
    base := Reciprocal(x);
    var room := base as real * x;
    more := room.Floor;
    Split(base as real, growth);
    Scaled(base as real, (base + more) as real, x);
    Split((base + more) as real, growth);
  }

  lemma Split(a: real, growth: real)
    ensures a * growth == a + a * (growth - 1.0)
  {
  }

  lemma Reciprocal(x: real) returns (n: nat)
    requires x > 0.0
    ensures n >= 1 && n as real * x >= 1.0
  {
    var y := 1.0 / x;
    assert y * x == 1.0 && y > 0.0;
    n := y.Floor + 1;
    Scaled(y, n as real, x);
  }

  ghost predicate BenchOf(k: Bench, z: Setup) {
    && k.lang == z.lang && k.growth == z.growth && k.maxOverlap == z.maxOverlap
    && forall f :: f in k.facts ==> SignalsOk(k.lang, f.signals) && f.signals == z.base.(flags := f.signals.flags)
  }

  lemma {:induction false} CopiesOf(n: nat, f: Fact, g: Fact)
    requires g in Copies(n, f)
    ensures g == f
  {
    if g != f { CopiesOf(n - 1, f, g); }
  }

  /** In any language, with any limit above 1: a bench and the rule of any three flags or more,
      whose simplification exceeds the limit. */
  lemma StairsBreak(z: Setup) returns (k: Bench)
    requires SetupOk(z) && z.growth > 1.0 && Size(z) > 2
    ensures BenchOf(k, z) && Distinct(Conds(z, 0)) == Size(z) && !WithinOneStep(k, Conds(z, 0))
  {
    var base, more := StairSizes(z.growth);
    k := FlagBench(z, Stairs(z, base, more));
    CondsDistinct(z, 0);
    StairsExceed(z, k, base, more);
    StairsAreOk(z, base, more);
  }

  lemma StairsExceed(z: Setup, k: Bench, base: nat, more: nat)
    requires SetupOk(z) && Size(z) > 2 && k == FlagBench(z, Stairs(z, base, more)) && base >= 1
    requires (base + more) as real <= Grown(base, z.growth) < (base + more + 1) as real
    requires (base + more + 1) as real <= Grown(base + more, z.growth)
    ensures !WithinOneStep(k, Conds(z, 0))
  {
    StairsVolume(z, base, more, 0);
    StairsVolume(z, base, more, 1);
    StairsVolume(z, base, more, 2);
    BreaksInTwo(k, z, base, base + more, base + more + 1);
  }

  lemma StairsAreOk(z: Setup, base: nat, more: nat)
    requires SetupOk(z)
    ensures BenchOf(FlagBench(z, Stairs(z, base, more)), z)
  {
    var k := FlagBench(z, Stairs(z, base, more));
    forall f | f in k.facts ensures SignalsOk(k.lang, f.signals) && f.signals == z.base.(flags := f.signals.flags) {
      ShowingIsOk(z, {}, Escalated);
      ShowingIsOk(z, {0}, Escalated);
      ShowingIsOk(z, {0, 1}, Escalated);
      if f in Copies(base, Showing(z, {}, Escalated)) { CopiesOf(base, Showing(z, {}, Escalated), f); }
      else if f in Copies(more, Showing(z, {0}, Escalated)) { CopiesOf(more, Showing(z, {0}, Escalated), f); }
      else { CopiesOf(1, Showing(z, {0, 1}, Escalated), f); }
    }
  }

  /** A language of so many flags, in which nothing else is shown. */
  function Plainest(n: nat, growth: real): (z: Setup)
    ensures SetupOk(z) && Size(z) == n && z.growth == growth
  {
    var flags := seq(n, i requires 0 <= i < n => seq(i + 1, _ => 'f'));
    assert forall i :: 0 <= i < n ==> |flags[i]| == i + 1;
    Setup(Language(map name | name in flags :: FlagSignal, {}, n), Signals(map[], map[], map[]), flags, growth, 1.0)
  }

  /** The growth limit bounds the synthesized rule as a whole exactly when it leaves no room to
      grow or at most one condition can be dropped; otherwise some bench exceeds it. */
  lemma OneStepSufficesIff(growth: real, conditions: nat)
    ensures OneStepSuffices(growth, conditions) <==> growth <= 1.0 || conditions <= 2
  {
    if growth <= 1.0 || conditions <= 2 {
      forall k: Bench, full | k.growth == growth && Distinct(full) == conditions ensures WithinOneStep(k, full) {
        if growth <= 1.0 { TightIsWithin(k, full); } else { PairDropsOnce(k, full, full); }
      }
    } else {
      var k := StairsBreak(Plainest(conditions, growth));
    }
  }

  // ---------------------------------------------------------------- a smaller rule overlooked

  /** One cleared episode for each flag from `lo` on, lacking it and the first. */
  function Blocks(z: Setup, lo: nat): seq<Fact>
    requires lo <= Size(z)
    decreases Size(z) - lo
  {
    if lo == Size(z) then [] else [Showing(z, {0, lo}, Cleared)] + Blocks(z, lo + 1)
  }

  ghost predicate Block(z: Setup, lo: nat, f: Fact) {
    exists i: nat {:trigger Showing(z, {0, i}, Cleared)} :: lo <= i < Size(z) && f == Showing(z, {0, i}, Cleared)
  }

  lemma BlockStep(z: Setup, lo: nat, f: Fact)
    requires lo < Size(z)
    ensures Block(z, lo, f) <==> f == Showing(z, {0, lo}, Cleared) || Block(z, lo + 1, f)
  {
  }

  lemma {:induction false} BlocksMembers(z: Setup, lo: nat, f: Fact)
    requires lo <= Size(z)
    ensures f in Blocks(z, lo) <==> Block(z, lo, f)
    decreases Size(z) - lo
  {
    if lo < Size(z) {
      BlocksMembers(z, lo + 1, f);
      BlockStep(z, lo, f);
    }
  }

  function Decoy(z: Setup): Bench
    requires Size(z) > 2
  {
    FlagBench(z, [Showing(z, {}, Escalated)] + Blocks(z, 1))
  }

  lemma BlockedScore(k: Bench, z: Setup, cs: seq<Condition>)
    requires SetupOk(z) && Size(z) > 2 && k == Decoy(z) && Among(cs, Conds(z, 0))
    requires forall i {:trigger Showing(z, {0, i}, Cleared)} :: 1 <= i < Size(z) ==> !FiresOn(k, cs, Showing(z, {0, i}, Cleared))
    ensures ScoreOf(k, cs) == Score(1, 0, 1, 1)
  {
    ShowingFires(k, z, {}, Escalated, cs);
    var rest := Blocks(z, 1);
    forall f | f in rest ensures !FiresOn(k, cs, f) { BlocksMembers(z, 1, f); }
    assert k.facts[1..] == rest;
    CountNone(rest, (f: Fact) => FiresOn(k, cs, f));
    CountNone(rest, (f: Fact) => FiresOn(k, cs, f) && f.detected);
    CountNone(rest, (f: Fact) => FiresOn(k, cs, f) && f.outcome.Some?);
    CountNone(rest, (f: Fact) => FiresOn(k, cs, f) && f.outcome == Some(Escalated));
  }

  lemma TailIsBlocked(z: Setup, lo: nat)
    requires SetupOk(z) && Size(z) > 2 && lo <= 1
    ensures ScoreOf(Decoy(z), Conds(z, lo)) == Score(1, 0, 1, 1)
  {
    var k := Decoy(z);
    CondsAmong(z, lo);
    forall i {:trigger Showing(z, {0, i}, Cleared)} | 1 <= i < Size(z) ensures !FiresOn(k, Conds(z, lo), Showing(z, {0, i}, Cleared)) {
      TailFires(k, z, {0, i}, Cleared, lo);
    }
    BlockedScore(k, z, Conds(z, lo));
  }

  lemma FirstIsBlocked(z: Setup)
    requires SetupOk(z) && Size(z) > 2
    ensures ScoreOf(Decoy(z), [IsSet(z, 0)]) == Score(1, 0, 1, 1) && IsSet(z, 0) in Conds(z, 0)
  {
    var k := Decoy(z);
    CondsHas(z, 0, 0);
    forall i {:trigger Showing(z, {0, i}, Cleared)} | 1 <= i < Size(z) ensures !FiresOn(k, [IsSet(z, 0)], Showing(z, {0, i}, Cleared)) {
      ShowingFires(k, z, {0, i}, Cleared, [IsSet(z, 0)]);
      assert IsSet(z, 0) in [IsSet(z, 0)];
    }
    BlockedScore(k, z, [IsSet(z, 0)]);
  }

  /** Without any other condition the rule also fires on a cleared episode. */
  lemma Imprecise(z: Setup, i: nat)
    requires SetupOk(z) && Size(z) > 2 && 1 <= i < Size(z)
    ensures var s := ScoreOf(Decoy(z), Without(Conds(z, 1), IsSet(z, i))); s.labelled >= 2 && s.escalated <= 1
  {
    var k, cs := Decoy(z), Without(Conds(z, 1), IsSet(z, i));
    var block, rest := Showing(z, {0, i}, Cleared), Blocks(z, 1);
    CondsAmong(z, 1);
    ShowingFires(k, z, {}, Escalated, cs);
    ShowingFires(k, z, {0, i}, Cleared, cs);
    CondsHas(z, 1, 0);
    BlocksMembers(z, 1, block);
    assert k.facts[1..] == rest;
    CountSome(rest, (f: Fact) => FiresOn(k, cs, f) && f.outcome.Some?, block);
    forall f | f in rest ensures f.outcome == Some(Cleared) { BlocksMembers(z, 1, f); }
    CountNone(rest, (f: Fact) => FiresOn(k, cs, f) && f.outcome == Some(Escalated));
  }

  lemma LessPrecise(k: Bench, s: Score)
    requires s.labelled >= 2 && s.escalated <= 1
    ensures !Better(k, s, Score(1, 0, 1, 1))
  {
    assert s.escalated as real / s.labelled as real < 1.0;
  }

  lemma {:induction false} NothingMoreDropped(z: Setup, lo: nat)
    requires SetupOk(z) && Size(z) > 2 && 1 <= lo <= Size(z)
    ensures Simplified(Decoy(z), Conds(z, 1), Conds(z, lo)) == Conds(z, 1)
    decreases Size(z) - lo
  {
    if lo < Size(z) {
      TailIsBlocked(z, 1);
      Imprecise(z, lo);
      LessPrecise(Decoy(z), ScoreOf(Decoy(z), Without(Conds(z, 1), IsSet(z, lo))));
      CondsStep(z, lo);
      NothingMoreDropped(z, lo + 1);
    }
  }

  lemma DecoyPass(z: Setup)
    requires SetupOk(z) && Size(z) > 2 && z.growth >= 1.0
    ensures Simplified(Decoy(z), Conds(z, 0), Conds(z, 0)) == Conds(z, 1)
  {
    TailIsBlocked(z, 0);
    TailIsBlocked(z, 1);
    NextDropped(Decoy(z), z, 0, 1, 1);
    NothingMoreDropped(z, 1);
  }

  lemma DecoyIsOk(z: Setup)
    requires SetupOk(z) && Size(z) > 2
    ensures BenchOf(Decoy(z), z)
  {
    forall f | f in Decoy(z).facts ensures SignalsOk(z.lang, f.signals) && f.signals == z.base.(flags := f.signals.flags) {
      if f in Blocks(z, 1) {
        BlocksMembers(z, 1, f);
        var i: nat :| 1 <= i < Size(z) && f == Showing(z, {0, i}, Cleared);
        ShowingIsOk(z, {0, i}, Cleared);
      } else {
        ShowingIsOk(z, {}, Escalated);
      }
    }
  }

  /** In any language, with any limit of at least 1: a bench on which one pass over the rule of
      any three flags or more overlooks a smaller rule. */
  lemma DecoyBreaks(z: Setup) returns (k: Bench)
    requires SetupOk(z) && z.growth >= 1.0 && Size(z) > 2
    ensures BenchOf(k, z) && Distinct(Conds(z, 0)) == Size(z) && !IsSmallest(k, Conds(z, 0))
  {
    k := Decoy(z);
    var full := Conds(z, 0);
    CondsDistinct(z, 0);
    CondsDistinct(z, 1);
    DecoyPass(z);
    TailIsBlocked(z, 0);
    FirstIsBlocked(z);
    PreciseIsBetter(k, 1, 1);
    assert Qualifies(k, full, [IsSet(z, 0)]);
    SingleIsOne([IsSet(z, 0)]);
    DecoyIsOk(z);
  }

  /** One pass finds a smallest rule exactly when nothing may be dropped or there are at most
      two conditions; otherwise some bench has a smaller rule that it overlooks. */
  lemma SmallestAlwaysIff(growth: real, conditions: nat)
    ensures SmallestAlways(growth, conditions) <==> growth < 1.0 || conditions <= 2
  {
    if growth < 1.0 || conditions <= 2 {
      forall k: Bench, full | k.growth == growth && Distinct(full) == conditions ensures IsSmallest(k, full) {
        if growth < 1.0 { ShrinkingIsSmallest(k, full); } else { PairIsSmallest(k, full); }
      }
    } else {
      var k := DecoyBreaks(Plainest(conditions, growth));
    }
  }

  // ---------------------------------------------------------------- in the engine's own signals

  function FlagItems(flags: seq<Name>): (items: seq<Item>)
    ensures |items| == |flags| && forall i :: 0 <= i < |flags| ==> items[i] == Flag(flags[i])
  {
    seq(|flags|, i requires 0 <= i < |flags| => Flag(flags[i]))
  }

  /** The conditions are what a pattern of those flags compiles to. */
  lemma {:induction false} FlagsCompile(z: Setup, grid: Grid, lo: nat)
    requires lo <= Size(z)
    ensures Compilable(grid, FlagItems(z.flags[lo..])) && CompiledAll(grid, FlagItems(z.flags[lo..])) == Conds(z, lo)
    decreases Size(z) - lo
  {
    var items := FlagItems(z.flags[lo..]);
    if lo < Size(z) {
      FlagsCompile(z, grid, lo + 1);
      assert items[1..] == FlagItems(z.flags[lo + 1..]);
      CondsStep(z, lo);
    }
  }

  const MINED: seq<Item> := [Flag("has_amend"), Flag("has_cancel"), Flag("near_period_end")]

  /** A pattern the miner can find: on some bench of the engine's own signals its rule outgrows any
      limit above 1, and on some bench one pass overlooks a smaller rule for it. */
  lemma MinedPatternBreaks(lang: Language, base: Signals, grid: Grid, growth: real, maxOverlap: real) returns (k: Bench, q: Bench)
    requires forall i :: i in MINED ==> i.name in lang.kinds && lang.kinds[i.name] == FlagSignal
    requires SignalsOk(lang, base) && growth > 1.0 && maxOverlap >= 0.0
    ensures Compilable(grid, MINED) && k.lang == q.lang == lang && k.growth == q.growth == growth && k.maxOverlap == q.maxOverlap == maxOverlap
    ensures forall f :: f in k.facts + q.facts ==> SignalsOk(lang, f.signals) && f.signals == base.(flags := f.signals.flags)
    ensures !WithinOneStep(k, CompiledAll(grid, MINED)) && !IsSmallest(q, CompiledAll(grid, MINED))
  {
    var flags := ["has_amend", "has_cancel", "near_period_end"];
    var z := Setup(lang, base, flags, growth, maxOverlap);
    assert |flags[0]| == 9 && |flags[1]| == 10 && |flags[2]| == 15;
    assert MINED[0] in MINED && MINED[1] in MINED && MINED[2] in MINED;
    assert FlagItems(z.flags[0..]) == MINED;
    FlagsCompile(z, grid, 0);
    k := StairsBreak(z);
    q := DecoyBreaks(z);
  }
}
