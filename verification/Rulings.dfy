/** What a ruling means, in terms of the results themselves. */
module Rulings {
  import opened Seqs
  import opened Evidence
  import opened Hypotheses
  import opened Adjudication

  /** The verified peer deviation is supported, and by this signal among others. */
  ghost predicate IsDeviating(rs: seq<Assessed>, x: Signal) {
    exists r :: r in rs && r.typ == VerifiedPeerDeviation && r.eval.status == Supported && x in r.eval.signals
  }

  /** A benign hypothesis with this status is configured to explain the signal. */
  ghost predicate IsCovered(rs: seq<Assessed>, status: Status, covers: Explains, x: Signal) {
    exists r :: r in rs && ClassOf(r.typ) == Benign && r.eval.status == status && r.typ in covers && x in covers[r.typ]
  }

  /** A supported anomaly that stands on its own evidence. */
  ghost predicate IsTyped(r: Assessed) {
    r.eval.status == Supported && ClassOf(r.typ) == Anomalous && r.typ != VerifiedPeerDeviation
  }

  ghost predicate IsExplanation(r: Assessed) { r.eval.status == Supported && ClassOf(r.typ) == Benign }

  /** A hypothesis that matters still lacks evidence. */
  ghost predicate LacksEvidence(r: Assessed) { r.eval.status == Insufficient && ClassOf(r.typ) != Context }

  /** Signal by signal: a deviation is explained exactly when a supported benign hypothesis covers
      it, waits exactly when only one that lacks evidence does, and is unexplained exactly when
      neither does; nothing else is in the split. */
  lemma SplitMeaning(rs: seq<Assessed>, covers: Explains, x: Signal)
    ensures var split := Adjudicate(rs, covers).split;
            && (x in split.unexplained <==>
                  IsDeviating(rs, x) && !IsCovered(rs, Supported, covers, x) && !IsCovered(rs, Insufficient, covers, x))
            && (x in split.explained <==> IsDeviating(rs, x) && IsCovered(rs, Supported, covers, x))
            && (x in split.pending <==>
                  IsDeviating(rs, x) && !IsCovered(rs, Supported, covers, x) && IsCovered(rs, Insufficient, covers, x))
  {
    AdjudicationMeaning(rs, covers);
    DeviatingMeaning(rs, x);
    CoveredMeaning(rs, Supported, covers, x);
    CoveredMeaning(rs, Insufficient, covers, x);
  }

  lemma DeviatingMeaning(rs: seq<Assessed>, x: Signal)
    ensures x in Deviating(rs) <==> IsDeviating(rs, x)
  {
  }

  lemma CoveredMeaning(rs: seq<Assessed>, status: Status, covers: Explains, x: Signal)
    ensures x in Covered(rs, status, covers) <==> IsCovered(rs, status, covers, x)
  {
    if x in Covered(rs, status, covers) {
      var r :| r in rs && Has(r, status, Benign) && x in CoveredBy(r.typ, covers);
    }
    if r :| r in rs && ClassOf(r.typ) == Benign && r.eval.status == status && r.typ in covers && x in covers[r.typ] {
      assert Has(r, status, Benign) && x in CoveredBy(r.typ, covers);
    }
  }

  /** Every deviation is in exactly one part. */
  lemma SplitPartitions(rs: seq<Assessed>, covers: Explains)
    ensures var split := Adjudicate(rs, covers).split;
            && split.unexplained !! split.explained && split.explained !! split.pending && split.unexplained !! split.pending
            && forall x :: x in split.unexplained + split.explained + split.pending <==> IsDeviating(rs, x)
  {
    forall x
      ensures var split := Adjudicate(rs, covers).split;
              && (x in split.unexplained + split.explained + split.pending <==> IsDeviating(rs, x))
              && !(x in split.unexplained && x in split.explained) && !(x in split.explained && x in split.pending)
              && !(x in split.unexplained && x in split.pending)
    {
      SplitMeaning(rs, covers, x);
    }
  }

  /** A deviation nobody explains or might yet explain. */
  ghost predicate LeavesUnexplained(rs: seq<Assessed>, covers: Explains) {
    exists x :: IsDeviating(rs, x) && !IsCovered(rs, Supported, covers, x) && !IsCovered(rs, Insufficient, covers, x)
  }

  lemma UnexplainedMeaning(rs: seq<Assessed>, covers: Explains)
    ensures DeviationSplit(rs, covers).unexplained != {} <==> LeavesUnexplained(rs, covers)
  {
    AdjudicationMeaning(rs, covers);
    forall x ensures x in DeviationSplit(rs, covers).unexplained <==>
      IsDeviating(rs, x) && !IsCovered(rs, Supported, covers, x) && !IsCovered(rs, Insufficient, covers, x) { SplitMeaning(rs, covers, x); }
  }

  /** Of several supported hypotheses the catalog's order decides. */
  ghost predicate Foremost(rs: seq<Assessed>, p: Assessed -> bool, t: HypType) {
    && (exists r :: r in rs && p(r) && r.typ == t)
    && exists i :: 0 <= i < |CATALOG| && CATALOG[i] == t && forall j, r :: 0 <= j < i && r in rs && p(r) ==> r.typ != CATALOG[j]
  }

  lemma {:induction false} FirstMeaning(order: seq<HypType>, types: set<HypType>)
    ensures var first := First(order, types);
            first.Some? ==> exists i :: 0 <= i < |order| && order[i] == first.value && forall j :: 0 <= j < i ==> order[j] !in types
  {
    if order != [] && order[0] !in types {
      FirstMeaning(order[1..], types);
      if First(order, types).Some? {
        var i :| 0 <= i < |order[1..]| && order[1..][i] == First(order, types).value && forall j :: 0 <= j < i ==> order[1..][j] !in types;
        assert order[i + 1] == First(order, types).value;
        forall j | 0 <= j < i + 1 ensures order[j] !in types { if j > 0 { assert order[1..][j - 1] !in types; } }
      }
    }
  }

  lemma FirstIsForemost(rs: seq<Assessed>, p: Assessed -> bool, order: seq<HypType>)
    requires order == CATALOG && TypesWhere(rs, p) != {}
    ensures First(order, TypesWhere(rs, p)).Some? && Foremost(rs, p, First(order, TypesWhere(rs, p)).value)
  {
    var types := TypesWhere(rs, p);
    FirstFinds(types);
    FirstMeaning(order, types);
    var t := First(order, types).value;
    var i :| 0 <= i < |order| && order[i] == t && forall j :: 0 <= j < i ==> order[j] !in types;
    forall j, r | 0 <= j < i && r in rs && p(r) ensures r.typ != order[j] { assert r.typ in types; }
  }

  /** The whole ruling, without reference to how it is made: first the foremost typed anomaly, then
      a deviation left unexplained, then the foremost benign explanation once nothing that
      matters lacks evidence, and otherwise no conclusion. */
  lemma RulingMeaning(rs: seq<Assessed>, covers: Explains)
    ensures var c := Adjudicate(rs, covers).conclusion;
            if exists r :: r in rs && IsTyped(r) then c.Some? && Foremost(rs, r => IsTyped(r), c.value)
            else if LeavesUnexplained(rs, covers) then c == Some(VerifiedPeerDeviation)
            else if (exists r :: r in rs && IsExplanation(r)) && !exists r :: r in rs && LacksEvidence(r)
              then c.Some? && Foremost(rs, r => IsExplanation(r), c.value)
            else c.None?
  {
    AdjudicationMeaning(rs, covers);
    UnexplainedMeaning(rs, covers);
    WhereMeaning(rs);
    if TypesWhere(rs, TypedAnomaly) != {} { TypedForemost(rs); }
    if TypesWhere(rs, SupportedBenign) != {} { BenignForemost(rs); }
    BlockingMeaning(rs);
  }

  lemma WhereMeaning(rs: seq<Assessed>)
    ensures TypesWhere(rs, TypedAnomaly) != {} <==> exists r :: r in rs && IsTyped(r)
    ensures TypesWhere(rs, SupportedBenign) != {} <==> exists r :: r in rs && IsExplanation(r)
  {
    if r :| r in rs && IsTyped(r) { assert r.typ in TypesWhere(rs, TypedAnomaly); }
    if r :| r in rs && IsExplanation(r) { assert r.typ in TypesWhere(rs, SupportedBenign); }
  }

  lemma BlockingMeaning(rs: seq<Assessed>)
    ensures (exists r :: r in rs && Blocking(r)) <==> exists r :: r in rs && LacksEvidence(r)
  {
    forall r ensures Blocking(r) <==> LacksEvidence(r) {}
  }

  lemma SamePredicate(rs: seq<Assessed>, p: Assessed -> bool, q: Assessed -> bool, t: HypType)
    requires Foremost(rs, p, t) && forall r :: p(r) == q(r)
    ensures Foremost(rs, q, t)
  {
    var i :| 0 <= i < |CATALOG| && CATALOG[i] == t && forall j, r :: 0 <= j < i && r in rs && p(r) ==> r.typ != CATALOG[j];
    assert forall j, r :: 0 <= j < i && r in rs && q(r) ==> r.typ != CATALOG[j];
  }

  lemma TypedForemost(rs: seq<Assessed>)
    requires TypesWhere(rs, TypedAnomaly) != {}
    ensures First(CATALOG, TypesWhere(rs, TypedAnomaly)).Some?
    ensures Foremost(rs, r => IsTyped(r), First(CATALOG, TypesWhere(rs, TypedAnomaly)).value)
  {
    FirstIsForemost(rs, TypedAnomaly, CATALOG);
    SamePredicate(rs, TypedAnomaly, r => IsTyped(r), First(CATALOG, TypesWhere(rs, TypedAnomaly)).value);
  }

  lemma BenignForemost(rs: seq<Assessed>)
    requires TypesWhere(rs, SupportedBenign) != {}
    ensures First(CATALOG, TypesWhere(rs, SupportedBenign)).Some?
    ensures Foremost(rs, r => IsExplanation(r), First(CATALOG, TypesWhere(rs, SupportedBenign)).value)
  {
    FirstIsForemost(rs, SupportedBenign, CATALOG);
    SamePredicate(rs, SupportedBenign, r => IsExplanation(r), First(CATALOG, TypesWhere(rs, SupportedBenign)).value);
  }

  /** A benign conclusion follows when no typed anomaly is supported, nothing that matters lacks
      evidence, some benign hypothesis is supported, and supported ones cover every deviation. */
  lemma CoveredDeviationsAreBenign(rs: seq<Assessed>, covers: Explains)
    requires !exists r :: r in rs && IsTyped(r)
    requires !exists r :: r in rs && LacksEvidence(r)
    requires exists r :: r in rs && IsExplanation(r)
    requires forall x :: IsDeviating(rs, x) ==> IsCovered(rs, Supported, covers, x)
    ensures var c := Adjudicate(rs, covers).conclusion; c.Some? && ClassOf(c.value) == Benign
  {
    RulingMeaning(rs, covers);
  }

  /** Whatever its class says, the catalog concludes these nine and in this order. */
  lemma CatalogOrder(t: HypType)
    ensures ClassOf(t) == Anomalous <==> t in [PeriodEndRoundTrip, OffMarketAmendment, RebookEconomicsChanged, VerifiedPeerDeviation]
    ensures ClassOf(t) == Context <==> t == RecurringBenignContext
    ensures t in CATALOG[..4] <==> ClassOf(t) == Anomalous
    ensures CATALOG[8] == RecurringBenignContext && |CATALOG| == 9
  {
    assert CATALOG[..4] == [PeriodEndRoundTrip, OffMarketAmendment, RebookEconomicsChanged, VerifiedPeerDeviation];
  }
}
