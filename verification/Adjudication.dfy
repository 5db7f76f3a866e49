/** The verifier: typed anomaly, then unexplained deviation, then benign, then abstain. */
module Adjudication {
  import opened Seqs
  import opened Evidence
  import opened Hypotheses

  datatype Assessed = Assessed(typ: HypType, eval: Evaluation)

  datatype Reason = InsufficientEvidence | NoSupportedExplanation

  datatype Split = Split(unexplained: set<Signal>, explained: set<Signal>, pending: set<Signal>)

  datatype Outcome = Outcome(
    conclusion: Option<HypType>,
    reason: Option<Reason>,
    missing: set<Missing>,
    split: Split)

  type Explains = map<HypType, set<Signal>>

  /** `sorted(results, key=catalog position)`, which is stable. */
  function RankedBy(order: seq<HypType>, rs: seq<Assessed>): seq<Assessed> {
    if order == [] then [] else OfType(rs, order[0]) + RankedBy(order[1..], rs)
  }

  function OfType(rs: seq<Assessed>, t: HypType): seq<Assessed> { Filter(rs, (r: Assessed) => r.typ == t) }

  function Ranked(rs: seq<Assessed>): seq<Assessed> { RankedBy(CATALOG, rs) }

  predicate Has(r: Assessed, status: Status, klass: Class) { r.eval.status == status && ClassOf(r.typ) == klass }

  predicate TypedAnomaly(r: Assessed) { Has(r, Supported, Anomalous) && !Residual(r.typ) }

  predicate SupportedBenign(r: Assessed) { Has(r, Supported, Benign) }

  predicate SupportedResidual(r: Assessed) { Residual(r.typ) && r.eval.status == Supported }

  predicate ContradictedBenign(r: Assessed) { Has(r, Contradicted, Benign) }

  predicate Adverse(rs: seq<Assessed>) { exists r :: r in rs && Has(r, Contradicted, Context) }

  /** Lacks evidence in a way that blocks a benign conclusion. */
  predicate Blocking(r: Assessed) { r.eval.status == Insufficient && ClassOf(r.typ) != Context }

  function BlockingMissing(rs: seq<Assessed>): set<Missing> {
    set r, m | r in rs && Blocking(r) && m in r.eval.missing :: m
  }

  function CoveredBy(t: HypType, covers: Explains): set<Signal> { if t in covers then covers[t] else {} }

  function Covered(rs: seq<Assessed>, status: Status, covers: Explains): set<Signal> {
    set r, x | r in rs && Has(r, status, Benign) && x in CoveredBy(r.typ, covers) :: x
  }

  function Deviating(rs: seq<Assessed>): set<Signal> {
    set r, x | r in rs && SupportedResidual(r) && x in r.eval.signals :: x
  }

  function DeviationSplit(rs: seq<Assessed>, covers: Explains): Split {
    var deviating := Deviating(rs);
    var covered, could := Covered(rs, Supported, covers), Covered(rs, Insufficient, covers);
    Split(deviating - covered - could, deviating * covered, (deviating - covered) * could)
  }

  function Types(rs: seq<Assessed>): seq<HypType> { if rs == [] then [] else [rs[0].typ] + Types(rs[1..]) }

  /** The ruling. The record's two other fields follow as functions of their own. */
  function Adjudicate(rs: seq<Assessed>, covers: Explains): Outcome {
    var ranked := Ranked(rs);
    var split := DeviationSplit(ranked, covers);
    var typed := Filter(ranked, TypedAnomaly);
    var blocking := Filter(ranked, Blocking);
    var benign := Filter(ranked, SupportedBenign);
    if typed != [] then
      Outcome(Some(typed[0].typ), None, {}, split)
    else if split.unexplained != {} then
      var residual := Filter(ranked, SupportedResidual);
      assert residual != [] by {
        var x :| x in split.unexplained;
        assert x in Deviating(ranked);
      }
      Outcome(Some(residual[0].typ), None, {}, split)
    else if benign != [] && blocking == [] then
      Outcome(Some(benign[0].typ), None, {}, split)
    else if blocking != [] then
      Outcome(None, Some(InsufficientEvidence), BlockingMissing(ranked), split)
    else
      Outcome(None, Some(NoSupportedExplanation), {}, split)
  }

  /** Benign hypotheses the evidence rules out, in catalog order. */
  function ContradictedTypes(rs: seq<Assessed>): seq<HypType> { Types(Filter(Ranked(rs), ContradictedBenign)) }

  predicate HistoryAdverse(rs: seq<Assessed>) { Adverse(Ranked(rs)) }

  // ---------------------------------------------------------------- meaning, free of order

  lemma {:induction false} RankedByMembers(order: seq<HypType>, rs: seq<Assessed>, r: Assessed)
    ensures r in RankedBy(order, rs) <==> r in rs && r.typ in order
  {
    if order != [] {
      RankedByMembers(order[1..], rs, r);
      assert r.typ in order <==> r.typ == order[0] || r.typ in order[1..];
    }
  }

  lemma RankedMembers(rs: seq<Assessed>, r: Assessed)
    ensures r in Ranked(rs) <==> r in rs
  {
    RankedByMembers(CATALOG, rs, r);
    match r.typ
    case PeriodEndRoundTrip => assert CATALOG[0] == r.typ;
    case OffMarketAmendment => assert CATALOG[1] == r.typ;
    case RebookEconomicsChanged => assert CATALOG[2] == r.typ;
    case VerifiedPeerDeviation => assert CATALOG[3] == r.typ;
    case CancelRebookCorrection => assert CATALOG[4] == r.typ;
    case PriceCorrection => assert CATALOG[5] == r.typ;
    case LateBookingOperational => assert CATALOG[6] == r.typ;
    case RoutineExecution => assert CATALOG[7] == r.typ;
    case RecurringBenignContext => assert CATALOG[8] == r.typ;
  }

  /** First catalog entry among `types`. */
  function First(order: seq<HypType>, types: set<HypType>): (t: Option<HypType>)
    ensures t.Some? <==> exists x :: x in order && x in types
    ensures t.Some? ==> t.value in order && t.value in types
  {
    if order == [] then None
    else if order[0] in types then Some(order[0])
    else First(order[1..], types)
  }

  function TypesWhere(rs: seq<Assessed>, p: Assessed -> bool): set<HypType> {
    set r | r in rs && p(r) :: r.typ
  }

  lemma {:induction false} HeadOfRanked(order: seq<HypType>, rs: seq<Assessed>, p: Assessed -> bool)
    ensures var hits := Filter(RankedBy(order, rs), p);
            var first := First(order, TypesWhere(rs, p));
            (hits != [] <==> first.Some?) && (hits != [] ==> hits[0].typ == first.value)
  {
    if order != [] {
      var here := OfType(rs, order[0]);
      FilterConcat(here, RankedBy(order[1..], rs), p);
      HeadOfRanked(order[1..], rs, p);
      var hits := Filter(here, p);
      if order[0] in TypesWhere(rs, p) {
        var r :| r in rs && p(r) && r.typ == order[0];
        assert r in hits;
        assert hits[0] in hits;
      } else {
        assert forall r :: r in here ==> !p(r);
      }
    }
  }

  /** The conclusion in terms of which evaluations occur, whatever their order and number. */
  function Conclusion(rs: seq<Assessed>, covers: Explains): Option<HypType> {
    var typed := TypesWhere(rs, TypedAnomaly);
    var benign := TypesWhere(rs, SupportedBenign);
    if typed != {} then First(CATALOG, typed)
    else if DeviationSplit(rs, covers).unexplained != {} then Some(VerifiedPeerDeviation)
    else if benign != {} && !exists r :: r in rs && Blocking(r) then First(CATALOG, benign)
    else None
  }

  lemma RankedSplit(rs: seq<Assessed>, covers: Explains)
    ensures DeviationSplit(Ranked(rs), covers) == DeviationSplit(rs, covers)
  {
    forall r ensures r in Ranked(rs) <==> r in rs { RankedMembers(rs, r); }
  }

  lemma FirstFinds(types: set<HypType>)
    ensures types != {} <==> First(CATALOG, types).Some?
  {
    forall t: HypType ensures t in CATALOG {
      RankedMembers([Assessed(t, Evaluation(Proposed, {}, {}))], Assessed(t, Evaluation(Proposed, {}, {})));
      RankedByMembers(CATALOG, [Assessed(t, Evaluation(Proposed, {}, {}))], Assessed(t, Evaluation(Proposed, {}, {})));
    }
  }

  lemma HeadIsFirst(rs: seq<Assessed>, p: Assessed -> bool)
    ensures var hits := Filter(Ranked(rs), p);
            var types := TypesWhere(rs, p);
            (hits == [] <==> types == {}) && (hits != [] ==> First(CATALOG, types) == Some(hits[0].typ))
  {
    HeadOfRanked(CATALOG, rs, p);
    FirstFinds(TypesWhere(rs, p));
  }

  lemma BlockingRanked(rs: seq<Assessed>, r: Assessed)
    ensures r in Filter(Ranked(rs), Blocking) <==> r in rs && Blocking(r)
  {
    RankedMembers(rs, r);
  }

  lemma NothingBlocks(rs: seq<Assessed>)
    ensures Filter(Ranked(rs), Blocking) == [] <==> !exists r :: r in rs && Blocking(r)
  {
    forall r ensures r in Filter(Ranked(rs), Blocking) <==> r in rs && Blocking(r) { BlockingRanked(rs, r); }
    var blocking := Filter(Ranked(rs), Blocking);
    assert blocking != [] ==> blocking[0] in blocking;
  }

  lemma ResidualHead(ranked: seq<Assessed>)
    ensures var hits := Filter(ranked, SupportedResidual);
            hits != [] ==> hits[0].typ == VerifiedPeerDeviation
  {
    var hits := Filter(ranked, SupportedResidual);
    assert hits != [] ==> hits[0] in hits;
  }

  /** The conclusion and the split depend only on which evaluations occur. */
  lemma AdjudicationMeaning(rs: seq<Assessed>, covers: Explains)
    ensures Adjudicate(rs, covers).conclusion == Conclusion(rs, covers)
    ensures Adjudicate(rs, covers).split == DeviationSplit(rs, covers)
  {
    RankedSplit(rs, covers);
    HeadIsFirst(rs, TypedAnomaly);
    HeadIsFirst(rs, SupportedBenign);
    NothingBlocks(rs);
    ResidualHead(Ranked(rs));
  }

  function WhyNot(rs: seq<Assessed>): Reason {
    if exists r :: r in rs && Blocking(r) then InsufficientEvidence else NoSupportedExplanation
  }

  lemma RankedMissing(rs: seq<Assessed>)
    ensures BlockingMissing(Ranked(rs)) == BlockingMissing(rs)
  {
    forall r ensures r in Ranked(rs) <==> r in rs { RankedMembers(rs, r); }
  }

  lemma NoBlockingNoMissing(rs: seq<Assessed>)
    requires !exists r :: r in rs && Blocking(r)
    ensures BlockingMissing(rs) == {}
  {
  }

  /** An abstention says what is missing: exactly what the blocking evaluations miss. */
  lemma AbstentionMeaning(rs: seq<Assessed>, covers: Explains)
    ensures var a := Adjudicate(rs, covers);
            if a.conclusion.Some? then a.reason.None? && a.missing == {}
            else a.missing == BlockingMissing(rs) && a.reason == Some(WhyNot(rs))
  {
    NothingBlocks(rs);
    RankedMissing(rs);
    if !exists r :: r in rs && Blocking(r) { NoBlockingNoMissing(rs); }
  }

  // ---------------------------------------------------------------- order of the results

  function Repeat(t: HypType, n: nat): seq<HypType> { if n == 0 then [] else [t] + Repeat(t, n - 1) }

  lemma FilterPermuted(rs: seq<Assessed>, rs': seq<Assessed>, p: Assessed -> bool)
    requires multiset(rs) == multiset(rs')
    ensures |Filter(rs, p)| == |Filter(rs', p)|
  {
    FilterOfPermutation(rs, rs', p);
    assert |multiset(Filter(rs, p))| == |Filter(rs, p)| && |multiset(Filter(rs', p))| == |Filter(rs', p)|;
  }

  lemma {:induction false} TypesOfOneType(rs: seq<Assessed>, t: HypType)
    requires forall r :: r in rs ==> r.typ == t
    ensures Types(rs) == Repeat(t, |rs|)
  {
    if rs != [] { TypesOfOneType(rs[1..], t); }
  }

  lemma {:induction false} TypesConcat(rs: seq<Assessed>, qs: seq<Assessed>)
    ensures Types(rs + qs) == Types(rs) + Types(qs)
  {
    if rs == [] {
      assert rs + qs == qs;
    } else {
      assert (rs + qs)[1..] == rs[1..] + qs;
      TypesConcat(rs[1..], qs);
    }
  }

  lemma OfTypePermuted(rs: seq<Assessed>, rs': seq<Assessed>, t: HypType)
    requires multiset(rs) == multiset(rs')
    ensures multiset(OfType(rs, t)) == multiset(OfType(rs', t))
  {
    forall x ensures multiset(OfType(rs, t))[x] == multiset(OfType(rs', t))[x] {
      FilterCounts(rs, (r: Assessed) => r.typ == t, x);
      FilterCounts(rs', (r: Assessed) => r.typ == t, x);
    }
  }

  lemma BucketTypesPermuted(rs: seq<Assessed>, rs': seq<Assessed>, t: HypType, q: Assessed -> bool)
    requires multiset(rs) == multiset(rs')
    ensures Types(Filter(OfType(rs, t), q)) == Types(Filter(OfType(rs', t), q))
  {
    OfTypePermuted(rs, rs', t);
    FilterPermuted(OfType(rs, t), OfType(rs', t), q);
    TypesOfOneType(Filter(OfType(rs, t), q), t);
    TypesOfOneType(Filter(OfType(rs', t), q), t);
  }

  lemma RankedTypesStep(order: seq<HypType>, rs: seq<Assessed>, q: Assessed -> bool)
    requires order != []
    ensures Types(Filter(RankedBy(order, rs), q))
         == Types(Filter(OfType(rs, order[0]), q)) + Types(Filter(RankedBy(order[1..], rs), q))
  {
    FilterConcat(OfType(rs, order[0]), RankedBy(order[1..], rs), q);
    TypesConcat(Filter(OfType(rs, order[0]), q), Filter(RankedBy(order[1..], rs), q));
  }

  lemma {:induction false} RankedTypesPermuted(order: seq<HypType>, rs: seq<Assessed>, rs': seq<Assessed>, q: Assessed -> bool)
    requires multiset(rs) == multiset(rs')
    ensures Types(Filter(RankedBy(order, rs), q)) == Types(Filter(RankedBy(order, rs'), q))
  {
    if order != [] {
      RankedTypesStep(order, rs, q);
      RankedTypesStep(order, rs', q);
      BucketTypesPermuted(rs, rs', order[0], q);
      RankedTypesPermuted(order[1..], rs, rs', q);
    }
  }

  ghost predicate SameMembers(rs: seq<Assessed>, rs': seq<Assessed>) { forall r :: r in rs <==> r in rs' }

  lemma SameTypes(rs: seq<Assessed>, rs': seq<Assessed>, p: Assessed -> bool)
    requires SameMembers(rs, rs')
    ensures TypesWhere(rs, p) == TypesWhere(rs', p)
  {
  }

  lemma SameSplit(rs: seq<Assessed>, rs': seq<Assessed>, covers: Explains)
    requires SameMembers(rs, rs')
    ensures DeviationSplit(rs, covers) == DeviationSplit(rs', covers)
  {
    assert Deviating(rs) == Deviating(rs');
    assert Covered(rs, Supported, covers) == Covered(rs', Supported, covers);
    assert Covered(rs, Insufficient, covers) == Covered(rs', Insufficient, covers);
  }

  lemma SameBlocking(rs: seq<Assessed>, rs': seq<Assessed>)
    requires SameMembers(rs, rs')
    ensures (exists r :: r in rs && Blocking(r)) <==> (exists r :: r in rs' && Blocking(r))
  {
  }

  lemma SameConclusion(rs: seq<Assessed>, rs': seq<Assessed>, covers: Explains)
    requires SameMembers(rs, rs')
    ensures Adjudicate(rs, covers).conclusion == Adjudicate(rs', covers).conclusion
    ensures Adjudicate(rs, covers).split == Adjudicate(rs', covers).split
  {
    AdjudicationMeaning(rs, covers);
    AdjudicationMeaning(rs', covers);
    SameTypes(rs, rs', TypedAnomaly);
    SameTypes(rs, rs', SupportedBenign);
    SameSplit(rs, rs', covers);
    SameBlocking(rs, rs');
  }

  lemma SameMissing(rs: seq<Assessed>, rs': seq<Assessed>)
    requires SameMembers(rs, rs')
    ensures BlockingMissing(rs) == BlockingMissing(rs')
  {
  }

  lemma SameAbstention(rs: seq<Assessed>, rs': seq<Assessed>, covers: Explains)
    requires SameMembers(rs, rs')
    ensures Adjudicate(rs, covers).reason == Adjudicate(rs', covers).reason
    ensures Adjudicate(rs, covers).missing == Adjudicate(rs', covers).missing
  {
    SameConclusion(rs, rs', covers);
    AbstentionMeaning(rs, covers);
    AbstentionMeaning(rs', covers);
    SameBlocking(rs, rs');
    SameMissing(rs, rs');
  }

  lemma RankedAdverse(rs: seq<Assessed>)
    ensures Adverse(Ranked(rs)) == Adverse(rs)
  {
    forall r ensures r in Ranked(rs) <==> r in rs { RankedMembers(rs, r); }
  }

  lemma SameAdverse(rs: seq<Assessed>, rs': seq<Assessed>)
    requires SameMembers(rs, rs')
    ensures HistoryAdverse(rs) == HistoryAdverse(rs')
  {
    RankedAdverse(rs);
    RankedAdverse(rs');
  }

  lemma PermutedMembers(rs: seq<Assessed>, rs': seq<Assessed>)
    requires multiset(rs) == multiset(rs')
    ensures SameMembers(rs, rs')
  {
    forall r ensures r in rs <==> r in rs' { assert r in rs <==> r in multiset(rs); assert r in rs' <==> r in multiset(rs'); }
  }

  /** Adjudication does not depend on the order of the results. */
  lemma AdjudicationIsOrderFree(rs: seq<Assessed>, rs': seq<Assessed>, covers: Explains)
    requires multiset(rs) == multiset(rs')
    ensures Adjudicate(rs, covers) == Adjudicate(rs', covers)
    ensures ContradictedTypes(rs) == ContradictedTypes(rs')
    ensures HistoryAdverse(rs) == HistoryAdverse(rs')
  {
    PermutedMembers(rs, rs');
    RankedTypesPermuted(CATALOG, rs, rs', ContradictedBenign);
    SameConclusion(rs, rs', covers);
    SameAbstention(rs, rs', covers);
    SameAdverse(rs, rs');
  }

  // ---------------------------------------------------------------- stability of conclusions

  /** `anew` re-assesses `stored`: a verdict already reached is kept, nothing assessed anew was left
      unassessed, and what only `stored` assessed was ruled out. */
  ghost predicate Settles(stored: seq<Assessed>, anew: seq<Assessed>) {
    && (forall r, q :: r in stored && q in anew && r.typ == q.typ && Definite(r.eval) ==> SameVerdict(r.eval, q.eval))
    && (forall q :: q in anew ==> exists r :: r in stored && r.typ == q.typ && r.eval.status != Proposed)
    && (forall r :: r in stored && r.eval.status != Contradicted ==> exists q :: q in anew && q.typ == r.typ)
  }

  ghost predicate NoneBlocking(rs: seq<Assessed>) { !exists r :: r in rs && Blocking(r) }

  lemma SettledSupport(stored: seq<Assessed>, anew: seq<Assessed>, r: Assessed) returns (q: Assessed)
    requires Settles(stored, anew) && r in stored && r.eval.status == Supported
    ensures q in anew && q.typ == r.typ && SameVerdict(r.eval, q.eval)
  {
    q :| q in anew && q.typ == r.typ;
  }

  /** New evidence can only take explanations away from a deviation. */
  lemma UnexplainedGrows(stored: seq<Assessed>, anew: seq<Assessed>, covers: Explains)
    requires Settles(stored, anew)
    ensures Deviating(stored) <= Deviating(anew)
    ensures DeviationSplit(stored, covers).unexplained <= DeviationSplit(anew, covers).unexplained
  {
    forall x | x in Deviating(stored) ensures x in Deviating(anew) {
      var r :| r in stored && SupportedResidual(r) && x in r.eval.signals;
      var q := SettledSupport(stored, anew, r);
    }
    forall x | x in Covered(anew, Supported, covers) || x in Covered(anew, Insufficient, covers)
      ensures x in Covered(stored, Supported, covers) || x in Covered(stored, Insufficient, covers)
    {
      var q :| q in anew && (Has(q, Supported, Benign) || Has(q, Insufficient, Benign)) && x in CoveredBy(q.typ, covers);
      var r :| r in stored && r.typ == q.typ && r.eval.status != Proposed;
    }
  }

  lemma TypedGrows(stored: seq<Assessed>, anew: seq<Assessed>)
    requires Settles(stored, anew)
    ensures TypesWhere(stored, TypedAnomaly) <= TypesWhere(anew, TypedAnomaly)
  {
    forall t | t in TypesWhere(stored, TypedAnomaly) ensures t in TypesWhere(anew, TypedAnomaly) {
      var r :| r in stored && TypedAnomaly(r) && r.typ == t;
      var q := SettledSupport(stored, anew, r);
      assert TypedAnomaly(q);
    }
  }

  lemma SettledBack(stored: seq<Assessed>, anew: seq<Assessed>, q: Assessed) returns (r: Assessed)
    requires Settles(stored, anew) && NoneBlocking(stored) && q in anew && ClassOf(q.typ) != Context
    ensures r in stored && r.typ == q.typ && Definite(r.eval) && SameVerdict(r.eval, q.eval)
  {
    r :| r in stored && r.typ == q.typ && r.eval.status != Proposed;
    assert !Blocking(r);
  }

  lemma SettledTypes(stored: seq<Assessed>, anew: seq<Assessed>, p: Assessed -> bool)
    requires Settles(stored, anew) && NoneBlocking(stored)
    requires p == TypedAnomaly || p == SupportedBenign
    ensures TypesWhere(stored, p) == TypesWhere(anew, p)
  {
    forall t | t in TypesWhere(stored, p) ensures t in TypesWhere(anew, p) {
      var r :| r in stored && p(r) && r.typ == t;
      var q := SettledSupport(stored, anew, r);
      assert p(q);
    }
    forall t | t in TypesWhere(anew, p) ensures t in TypesWhere(stored, p) {
      var q :| q in anew && p(q) && q.typ == t;
      var r := SettledBack(stored, anew, q);
      assert p(r);
    }
  }

  lemma SettledSplit(stored: seq<Assessed>, anew: seq<Assessed>, covers: Explains)
    requires Settles(stored, anew) && NoneBlocking(stored)
    ensures NoneBlocking(anew)
    ensures DeviationSplit(stored, covers) == DeviationSplit(anew, covers)
  {
    forall q | q in anew && Blocking(q) ensures false { var r := SettledBack(stored, anew, q); }
    UnexplainedGrows(stored, anew, covers);
    forall x | x in Deviating(anew) ensures x in Deviating(stored) {
      var q :| q in anew && SupportedResidual(q) && x in q.eval.signals;
      var r := SettledBack(stored, anew, q);
    }
    assert Covered(stored, Insufficient, covers) == {} && Covered(anew, Insufficient, covers) == {};
    forall x ensures x in Covered(stored, Supported, covers) <==> x in Covered(anew, Supported, covers) {
      if x in Covered(stored, Supported, covers) {
        var r :| r in stored && Has(r, Supported, Benign) && x in CoveredBy(r.typ, covers);
        var q := SettledSupport(stored, anew, r);
      }
      if x in Covered(anew, Supported, covers) {
        var q :| q in anew && Has(q, Supported, Benign) && x in CoveredBy(q.typ, covers);
        var r := SettledBack(stored, anew, q);
      }
    }
  }

  /** With nothing left blocking, re-assessment changes neither conclusion nor split. */
  lemma SettledConclusion(stored: seq<Assessed>, anew: seq<Assessed>, covers: Explains)
    requires Settles(stored, anew) && NoneBlocking(stored)
    ensures Adjudicate(stored, covers).conclusion == Adjudicate(anew, covers).conclusion
    ensures Adjudicate(stored, covers).split == Adjudicate(anew, covers).split
  {
    AdjudicationMeaning(stored, covers);
    AdjudicationMeaning(anew, covers);
    SettledTypes(stored, anew, TypedAnomaly);
    SettledTypes(stored, anew, SupportedBenign);
    SettledSplit(stored, anew, covers);
  }

  lemma ConclusionClass(rs: seq<Assessed>, covers: Explains)
    ensures var c := Adjudicate(rs, covers).conclusion;
            var anomalous := TypesWhere(rs, TypedAnomaly) != {} || DeviationSplit(rs, covers).unexplained != {};
            && (c.Some? && ClassOf(c.value) == Anomalous <==> anomalous)
            && (c.Some? && !anomalous ==> ClassOf(c.value) == Benign && NoneBlocking(rs))
  {
    AdjudicationMeaning(rs, covers);
    FirstFinds(TypesWhere(rs, TypedAnomaly));
    FirstFinds(TypesWhere(rs, SupportedBenign));
  }

  /** Whatever further evidence shows, a conclusion keeps its class, and a benign conclusion is
      kept entirely. */
  lemma ConclusionsAreSound(stored: seq<Assessed>, anew: seq<Assessed>, covers: Explains)
    requires Settles(stored, anew) && Adjudicate(stored, covers).conclusion.Some?
    ensures var c, f := Adjudicate(stored, covers).conclusion, Adjudicate(anew, covers).conclusion;
            && f.Some? && ClassOf(f.value) == ClassOf(c.value)
            && (ClassOf(c.value) == Benign ==> f == c)
  {
    ConclusionClass(stored, covers);
    ConclusionClass(anew, covers);
    if ClassOf(Adjudicate(stored, covers).conclusion.value) == Anomalous {
      TypedGrows(stored, anew);
      UnexplainedGrows(stored, anew, covers);
    } else {
      SettledConclusion(stored, anew, covers);
    }
  }

  // ---------------------------------------------------------------- what a ruling reads

  ghost predicate Stands(r: Assessed, qs: seq<Assessed>) { exists q :: q in qs && q.typ == r.typ && SameVerdict(r.eval, q.eval) }

  /** Every evaluation of `rs` that rules nothing out has one of the same verdict in `qs`. */
  ghost predicate Represented(rs: seq<Assessed>, qs: seq<Assessed>) {
    forall r {:trigger Stands(r, qs)} :: r in rs && r.eval.status != Contradicted ==> Stands(r, qs)
  }

  lemma RepresentedTypes(rs: seq<Assessed>, qs: seq<Assessed>)
    requires Represented(rs, qs)
    ensures TypesWhere(rs, TypedAnomaly) <= TypesWhere(qs, TypedAnomaly)
    ensures TypesWhere(rs, SupportedBenign) <= TypesWhere(qs, SupportedBenign)
    ensures (exists r :: r in rs && Blocking(r)) ==> exists q :: q in qs && Blocking(q)
  {
    forall t | t in TypesWhere(rs, TypedAnomaly) ensures t in TypesWhere(qs, TypedAnomaly) {
      var r :| r in rs && TypedAnomaly(r) && r.typ == t;
      assert Stands(r, qs);
      var q :| q in qs && q.typ == r.typ && SameVerdict(r.eval, q.eval);
      assert TypedAnomaly(q);
    }
    forall t | t in TypesWhere(rs, SupportedBenign) ensures t in TypesWhere(qs, SupportedBenign) {
      var r :| r in rs && SupportedBenign(r) && r.typ == t;
      assert Stands(r, qs);
      var q :| q in qs && q.typ == r.typ && SameVerdict(r.eval, q.eval);
      assert SupportedBenign(q);
    }
    if r :| r in rs && Blocking(r) {
      assert Stands(r, qs);
      var q :| q in qs && q.typ == r.typ && SameVerdict(r.eval, q.eval);
      assert Blocking(q);
    }
  }

  lemma RepresentedSignals(rs: seq<Assessed>, qs: seq<Assessed>, covers: Explains)
    requires Represented(rs, qs)
    ensures Deviating(rs) <= Deviating(qs)
    ensures Covered(rs, Supported, covers) <= Covered(qs, Supported, covers)
    ensures Covered(rs, Insufficient, covers) <= Covered(qs, Insufficient, covers)
  {
    forall x | x in Deviating(rs) ensures x in Deviating(qs) {
      var r :| r in rs && SupportedResidual(r) && x in r.eval.signals;
      assert Stands(r, qs);
      var q :| q in qs && q.typ == r.typ && SameVerdict(r.eval, q.eval);
      assert SupportedResidual(q);
    }
    forall st, x | st != Contradicted && x in Covered(rs, st, covers) ensures x in Covered(qs, st, covers) {
      var r :| r in rs && Has(r, st, Benign) && x in CoveredBy(r.typ, covers);
      assert Stands(r, qs);
      var q :| q in qs && q.typ == r.typ && SameVerdict(r.eval, q.eval);
      assert Has(q, st, Benign);
    }
  }

  lemma SameReadingsSameConclusion(rs: seq<Assessed>, qs: seq<Assessed>, covers: Explains)
    requires TypesWhere(rs, TypedAnomaly) == TypesWhere(qs, TypedAnomaly)
    requires TypesWhere(rs, SupportedBenign) == TypesWhere(qs, SupportedBenign)
    requires (exists r :: r in rs && Blocking(r)) <==> (exists q :: q in qs && Blocking(q))
    requires Deviating(rs) == Deviating(qs) && Covered(rs, Supported, covers) == Covered(qs, Supported, covers)
    requires Covered(rs, Insufficient, covers) == Covered(qs, Insufficient, covers)
    ensures Conclusion(rs, covers) == Conclusion(qs, covers)
  {
  }

  /** Results that represent each other lead to the same conclusion. */
  lemma SameVerdictsSameConclusion(rs: seq<Assessed>, qs: seq<Assessed>, covers: Explains)
    requires Represented(rs, qs) && Represented(qs, rs)
    ensures Adjudicate(rs, covers).conclusion == Adjudicate(qs, covers).conclusion
  {
    SameVerdictsSameReadings(rs, qs, covers);
    AdjudicationMeaning(rs, covers);
    AdjudicationMeaning(qs, covers);
  }

  lemma SameVerdictsSameReadings(rs: seq<Assessed>, qs: seq<Assessed>, covers: Explains)
    requires Represented(rs, qs) && Represented(qs, rs)
    ensures Conclusion(rs, covers) == Conclusion(qs, covers)
  {
    RepresentedTypes(rs, qs);
    RepresentedTypes(qs, rs);
    RepresentedSignals(rs, qs, covers);
    RepresentedSignals(qs, rs, covers);
    SameReadingsSameConclusion(rs, qs, covers);
  }
}
