/** The hypothesis catalog: when each applies, what it needs, and its evaluator. */
module Hypotheses {
  import opened Seqs
  import opened Trades
  import opened Evidence

  datatype Status = Proposed | Supported | Contradicted | Insufficient

  datatype Class = Anomalous | Benign | Context

  const CATALOG: seq<HypType> := [
    PeriodEndRoundTrip, OffMarketAmendment, RebookEconomicsChanged, VerifiedPeerDeviation,
    CancelRebookCorrection, PriceCorrection, LateBookingOperational, RoutineExecution,
    RecurringBenignContext]

  function ClassOf(t: HypType): Class {
    match t
    case PeriodEndRoundTrip | OffMarketAmendment | RebookEconomicsChanged | VerifiedPeerDeviation => Anomalous
    case CancelRebookCorrection | PriceCorrection | LateBookingOperational | RoutineExecution => Benign
    case RecurringBenignContext => Context
  }

  predicate Residual(t: HypType) { t == VerifiedPeerDeviation }

  /** Optional contract fields the evaluator relies on. */
  function Fields(t: HypType): set<Field> {
    match t
    case PeriodEndRoundTrip | OffMarketAmendment | RebookEconomicsChanged => {"PRICE"}
    case CancelRebookCorrection | PriceCorrection => {"PRICE", "QUANTITY", "SIDE"}
    case RoutineExecution => {"NOTIONAL_USD"}
    case _ => {}
  }

  /** Why an evaluation lacks evidence. */
  datatype Missing =
    | NeedsRequest(request: Request)
    | FieldUnavailable(name: Field)
    | NeedsAmendments
    | NeedsPrice(fromVersion: int, toVersion: int)
    | NeedsRebookLinkFor(cancelled: TradeId)
    | NeedsRebookLink
    | NeedsPeerBaseline
    | NeedsHistory
    | NeedsRecord(name: string)
    | Claimed(text: string)  // named by a policy when it abstained

  datatype Evaluation = Evaluation(status: Status, missing: set<Missing>, signals: set<Signal>)

  predicate Applies(t: HypType, s: Subject, cfg: Config) {
    match t
    case PeriodEndRoundTrip => s.Flag("has_amend") && (s.Flag("near_period_end") || s.Flag("crosses_period_end"))
    case OffMarketAmendment | PriceCorrection => s.Flag("has_amend")
    case RebookEconomicsChanged | CancelRebookCorrection => s.Flag("has_cancel")
    case LateBookingOperational =>
      var name := "booking_latency_hours_max";
      name in s.episode.numbers && s.episode.numbers[name] >= cfg.lateBookingHours
    case RoutineExecution => s.NumberIs("n_events", 1.0) && s.NumberIs("n_trades", 1.0)
    case VerifiedPeerDeviation | RecurringBenignContext => true
  }

  // ---------------------------------------------------------------- requirements

  const PRICE_SIGNAL: Signal := "max_price_change_pct"

  function PerTrade(trades: seq<TradeId>, history: bool): (rs: seq<Request>)
    ensures |rs| == |trades|
    ensures forall i :: 0 <= i < |trades| ==>
      rs[i] == if history then GetTradeHistory(trades[i]) else CompareVersions(trades[i])
  {
    if trades == [] then []
    else [if history then GetTradeHistory(trades[0]) else CompareVersions(trades[0])] + PerTrade(trades[1..], history)
  }

  function Comparisons(pairs: seq<Pair>): (rs: seq<Request>)
    ensures |rs| == |pairs|
    ensures forall i :: 0 <= i < |pairs| ==> rs[i] == CompareTrades(pairs[i].0, pairs[i].1)
  {
    if pairs == [] then [] else [CompareTrades(pairs[0].0, pairs[0].1)] + Comparisons(pairs[1..])
  }

  function Requirements(t: HypType, s: Subject): seq<Request> {
    var e := s.episode.episodeId;
    match t
    case PeriodEndRoundTrip | PriceCorrection => PerTrade(s.episode.tradeIds, false)
    case OffMarketAmendment => PerTrade(s.episode.tradeIds, false) + [GetPeerComparison(e, PRICE_SIGNAL)]
    case CancelRebookCorrection => [GetEventSequence(e)] + Comparisons(s.RebookPairs())
    case RebookEconomicsChanged => [GetEventSequence(e)] + Comparisons(s.RebookPairs()) + [GetRecurrence(e)]
    case VerifiedPeerDeviation => [GetDeviationProfile(e)]
    case LateBookingOperational | RoutineExecution => PerTrade(s.episode.tradeIds, true)
    case RecurringBenignContext => [GetPriorOutcomes(e)]
  }

  function MissingRequests(t: HypType, s: Subject, bag: Bag): seq<Request> {
    Filter(Requirements(t, s), r => r !in bag)
  }

  // ---------------------------------------------------------------- evaluators

  function Verdict(contradicted: bool, missing: set<Missing>): (e: Evaluation)
    ensures e.status != Proposed && e.signals == {} && e.missing == missing
    ensures e.status == Contradicted <==> contradicted
    ensures e.status == Supported <==> !contradicted && missing == {}
  {
    Evaluation(if contradicted then Contradicted else if missing != {} then Insufficient else Supported, missing, {})
  }

  function Diffs(trades: seq<TradeId>, bag: Bag): seq<VersionDiff> {
    if trades == [] then []
    else
      var r := CompareVersions(trades[0]);
      (if r in bag && bag[r].VersionsV? then bag[r].diffs else []) + Diffs(trades[1..], bag)
  }

  function RoutineEval(s: Subject, bag: Bag, cfg: Config): Evaluation
    requires s.episode.tradeIds != [] && HasAll(Requirements(RoutineExecution, s), bag) && WellTyped(bag)
  {
    assert PerTrade(s.episode.tradeIds, true)[0] in Requirements(RoutineExecution, s);
    var history := bag[GetTradeHistory(s.episode.tradeIds[0])].versions;
    Verdict(
      || |history| != 1
      || !history[0].eventType.NewEvent?
      || history[0].latencyHours > cfg.routineMaxLatencyHours
      || s.episode.outliers - cfg.routineAllowedOutliers != {},
      {})
  }

  /** What rules an amendment out as a correction; only checked when its price is known. */
  predicate NotACorrection(d: VersionDiff, cfg: Config) {
    d.priceChangePct.Some? &&
    (|| d.priceChangePct.value == 0.0
     || d.priceChangePct.value > cfg.priceCorrectionMaxPct
     || d.quantityChanged || d.sideChanged || d.instrumentChanged
     || d.hoursAfterBooking > cfg.correctionWindowHours
     || d.crossesPeriodEnd)
  }

  function PriceCorrectionEval(s: Subject, bag: Bag, cfg: Config): Evaluation {
    var amends := Filter(Diffs(s.episode.tradeIds, bag), (d: VersionDiff) => d.eventType.AmendEvent?);
    if amends == [] then Evaluation(Insufficient, {NeedsAmendments}, {})
    else Verdict(
      exists d :: d in amends && NotACorrection(d, cfg),
      set d | d in amends && d.priceChangePct.None? :: NeedsPrice(d.fromVersion, d.toVersion))
  }

  function OffMarketEval(s: Subject, bag: Bag, cfg: Config): Evaluation
    requires GetPeerComparison(s.episode.episodeId, PRICE_SIGNAL) in bag && WellTyped(bag)
  {
    var priced := Filter(Diffs(s.episode.tradeIds, bag),
                         (d: VersionDiff) => d.eventType.AmendEvent? && d.priceChangePct.Some?);
    if forall d :: d in priced ==> d.priceChangePct.value <= cfg.offMarketMinPct then Verdict(true, {})
    else
      var peer := bag[GetPeerComparison(s.episode.episodeId, PRICE_SIGNAL)];
      if !peer.available || peer.percentile.None? then Evaluation(Insufficient, {NeedsPeerBaseline}, {})
      else
        Verdict(!(|| peer.percentile.value >= cfg.offMarketPercentile
                  || (peer.robustZ.Some? && peer.robustZ.value >= cfg.offMarketRobustZ)), {})
  }

  predicate Bump(d: VersionDiff, cfg: Config) {
    && d.eventType.AmendEvent? && d.priceChangePct.Some?
    && d.priceChangePct.value >= cfg.roundTripMinPct && d.hoursToPeriodEnd <= cfg.periodEndHours
  }

  predicate RoundTripIn(diffs: seq<VersionDiff>, cfg: Config) {
    var bumps := Filter(diffs, d => Bump(d, cfg));
    var reverts := Filter(diffs, (d: VersionDiff) => d.crossesPeriodEnd && d.restoresOriginalPrice);
    bumps != [] && reverts != [] && reverts[0].toVersion > bumps[0].toVersion
  }

  function RoundTripEval(s: Subject, bag: Bag, cfg: Config): Evaluation
    requires HasAll(Requirements(PeriodEndRoundTrip, s), bag) && WellTyped(bag)
  {
    Verdict(!exists t :: t in s.episode.tradeIds &&
                        CompareVersions(t) in bag && RoundTripIn(bag[CompareVersions(t)].diffs, cfg), {})
  }

  function Cancelled(e: EpisodeId, bag: Bag): set<TradeId>
    requires GetEventSequence(e) in bag && WellTyped(bag)
  {
    set x | x in bag[GetEventSequence(e)].events && x.eventType.CancelEvent? :: x.tradeId
  }

  predicate Exceeds(x: Option<real>, limit: real) { x.None? || x.value > limit }

  predicate ChangesEconomics(c: TradeComparison, cfg: Config) {
    || !(c.sameInstrument && c.sameSide)
    || Exceeds(c.quantityDiffPct, cfg.rebookQtyTolerancePct)
    || Exceeds(c.priceDiffPct, cfg.rebookPriceTolerancePct)
    || Exceeds(c.minutesAfterCancel, cfg.rebookMaxMinutes)
  }

  predicate BreaksRebook(p: Pair, bag: Bag, cfg: Config) {
    var r := CompareTrades(p.0, p.1);
    r in bag && bag[r].ComparisonV? && ChangesEconomics(bag[r].cmp, cfg)
  }

  function RebookEval(s: Subject, bag: Bag, cfg: Config): Evaluation
    requires GetEventSequence(s.episode.episodeId) in bag && WellTyped(bag)
  {
    var pairs := s.RebookPairSet();
    var cancelled := Cancelled(s.episode.episodeId, bag);
    Verdict(
      exists p :: p in pairs && p.0 in cancelled && BreaksRebook(p, bag, cfg),
      set c | c in cancelled && !exists p :: p in pairs && p.0 == c :: NeedsRebookLinkFor(c))
  }

  predicate Reprices(p: Pair, bag: Bag, cfg: Config) {
    var r := CompareTrades(p.0, p.1);
    r in bag && bag[r].ComparisonV? &&
    bag[r].cmp.priceDiffPct.Some? && bag[r].cmp.priceDiffPct.value > cfg.rebookPriceTolerancePct
  }

  function RepriceEval(s: Subject, bag: Bag, cfg: Config): Evaluation {
    var pairs := s.RebookPairSet();
    if pairs == {} then Evaluation(Insufficient, {NeedsRebookLink}, {})
    else Verdict(!exists p :: p in pairs && Reprices(p, bag, cfg), {})
  }

  function DeviationEval(s: Subject, bag: Bag): Evaluation
    requires GetDeviationProfile(s.episode.episodeId) in bag && WellTyped(bag)
  {
    var view := bag[GetDeviationProfile(s.episode.episodeId)];
    if !view.profiled then Evaluation(Insufficient, {NeedsPeerBaseline}, {})
    else if view.verified == [] then Verdict(true, {})
    else Evaluation(Supported, {}, set x | x in view.verified)
  }

  function ContextEval(s: Subject, bag: Bag, cfg: Config): Evaluation
    requires GetPriorOutcomes(s.episode.episodeId) in bag && WellTyped(bag)
  {
    var prior := bag[GetPriorOutcomes(s.episode.episodeId)];
    if prior.curatedEscalated > 0 then Verdict(true, {})
    else Verdict(false, if prior.curatedCleared >= cfg.contextMinCleared then {} else {NeedsHistory})
  }

  function LateEval(cfg: Config): Evaluation {
    Evaluation(Insufficient, set x | x in cfg.lateBookingMissing :: NeedsRecord(x), {})
  }

  function RunEvaluator(t: HypType, s: Subject, bag: Bag, cfg: Config): (e: Evaluation)
    requires s.episode.tradeIds != [] && HasAll(Requirements(t, s), bag) && WellTyped(bag)
    ensures e.status != Proposed
  {
    match t
    case PeriodEndRoundTrip => RoundTripEval(s, bag, cfg)
    case OffMarketAmendment => OffMarketEval(s, bag, cfg)
    case RebookEconomicsChanged => RepriceEval(s, bag, cfg)
    case VerifiedPeerDeviation => DeviationEval(s, bag)
    case CancelRebookCorrection => RebookEval(s, bag, cfg)
    case PriceCorrection => PriceCorrectionEval(s, bag, cfg)
    case LateBookingOperational => LateEval(cfg)
    case RoutineExecution => RoutineEval(s, bag, cfg)
    case RecurringBenignContext => ContextEval(s, bag, cfg)
  }

  /** `evaluate`: preconditions, then data capabilities, then evidence, then the evaluator. */
  function Evaluate(t: HypType, s: Subject, bag: Bag, cfg: Config): (e: Evaluation)
    requires s.episode.tradeIds != [] && WellTyped(bag)
    ensures e.status != Proposed
  {
    if !Applies(t, s, cfg) then Evaluation(Contradicted, {}, {})
    else if Fields(t) * s.unavailable != {} then
      Evaluation(Insufficient, set f | f in Fields(t) * s.unavailable :: FieldUnavailable(f), {})
    else
      var missing := MissingRequests(t, s, bag);
      if missing != [] then Evaluation(Insufficient, set r | r in missing :: NeedsRequest(r), {})
      else
        assert forall r :: r in Requirements(t, s) && r !in bag ==> r in missing;
        RunEvaluator(t, s, bag, cfg)
  }

  predicate Definite(e: Evaluation) { e.status == Supported || e.status == Contradicted }

  /** Same status and same verified deviations. */
  predicate SameVerdict(d: Evaluation, e: Evaluation) { d.status == e.status && d.signals == e.signals }

  // ---------------------------------------------------------------- evidence and link laws

  lemma {:induction false} DiffsWithin(trades: seq<TradeId>, bag: Bag, views: Bag)
    requires Within(bag, views) && HasAll(PerTrade(trades, false), bag)
    ensures Diffs(trades, bag) == Diffs(trades, views)
  {
    if trades != [] {
      var rs := PerTrade(trades, false);
      assert rs[0] in rs && rs[0] == CompareVersions(trades[0]);
      assert PerTrade(trades[1..], false) == rs[1..];
      assert forall r :: r in rs[1..] ==> r in rs;
      DiffsWithin(trades[1..], bag, views);
    }
  }

  lemma ComparisonsIn(pairs: seq<Pair>, p: Pair)
    requires p in pairs
    ensures CompareTrades(p.0, p.1) in Comparisons(pairs)
  {
    var i :| 0 <= i < |pairs| && pairs[i] == p;
    assert Comparisons(pairs)[i] == CompareTrades(p.0, p.1);
  }

  lemma PairComparisonsPresent(t: HypType, s: Subject, bag: Bag, p: Pair)
    requires t == CancelRebookCorrection || t == RebookEconomicsChanged
    requires HasAll(Requirements(t, s), bag) && p in s.RebookPairSet()
    ensures CompareTrades(p.0, p.1) in bag
  {
    ComparisonsIn(s.RebookPairs(), p);
    assert CompareTrades(p.0, p.1) in Requirements(t, s);
  }

  lemma RoundTripReadsItsVersions(s: Subject, bag: Bag, views: Bag, cfg: Config)
    requires s.episode.tradeIds != [] && WellTyped(bag) && WellTyped(views) && Within(bag, views)
    requires HasAll(Requirements(PeriodEndRoundTrip, s), bag)
    ensures RunEvaluator(PeriodEndRoundTrip, s, bag, cfg) == RunEvaluator(PeriodEndRoundTrip, s, views, cfg)
  {
    var trades := s.episode.tradeIds;
    forall x | x in trades ensures CompareVersions(x) in bag {
      var i :| 0 <= i < |trades| && trades[i] == x;
      assert PerTrade(trades, false)[i] in Requirements(PeriodEndRoundTrip, s);
    }
  }

  lemma AmendmentReadsItsVersions(s: Subject, bag: Bag, views: Bag, cfg: Config)
    requires s.episode.tradeIds != [] && WellTyped(bag) && WellTyped(views) && Within(bag, views)
    requires HasAll(Requirements(OffMarketAmendment, s), bag)
    ensures RunEvaluator(OffMarketAmendment, s, bag, cfg) == RunEvaluator(OffMarketAmendment, s, views, cfg)
  {
    assert HasAll(PerTrade(s.episode.tradeIds, false), bag);
    DiffsWithin(s.episode.tradeIds, bag, views);
  }

  /** An evaluator reads nothing but its requirements. */
  lemma EvaluatorReadsItsRequirements(t: HypType, s: Subject, bag: Bag, views: Bag, cfg: Config)
    requires s.episode.tradeIds != [] && WellTyped(bag) && WellTyped(views) && Within(bag, views)
    requires HasAll(Requirements(t, s), bag)
    ensures HasAll(Requirements(t, s), views)
    ensures RunEvaluator(t, s, bag, cfg) == RunEvaluator(t, s, views, cfg)
  {
    var trades := s.episode.tradeIds;
    match t
    case PeriodEndRoundTrip => RoundTripReadsItsVersions(s, bag, views, cfg);
    case OffMarketAmendment => AmendmentReadsItsVersions(s, bag, views, cfg);
    case PriceCorrection => DiffsWithin(trades, bag, views);
    case RoutineExecution => assert PerTrade(trades, true)[0] in Requirements(t, s);
    case RebookEconomicsChanged =>
      assert GetEventSequence(s.episode.episodeId) in Requirements(t, s);
      RebooksReadTheirComparisons(t, s, bag, views, cfg);
    case CancelRebookCorrection =>
      assert GetEventSequence(s.episode.episodeId) in Requirements(t, s);
      RebooksReadTheirComparisons(t, s, bag, views, cfg);
    case _ =>
  }

  lemma RebooksReadTheirComparisons(t: HypType, s: Subject, bag: Bag, views: Bag, cfg: Config)
    requires t == CancelRebookCorrection || t == RebookEconomicsChanged
    requires WellTyped(bag) && WellTyped(views) && Within(bag, views) && HasAll(Requirements(t, s), bag)
    requires GetEventSequence(s.episode.episodeId) in bag
    ensures RebookEval(s, bag, cfg) == RebookEval(s, views, cfg)
    ensures RepriceEval(s, bag, cfg) == RepriceEval(s, views, cfg)
  {
    forall p | p in s.RebookPairSet()
      ensures BreaksRebook(p, bag, cfg) == BreaksRebook(p, views, cfg) && Reprices(p, bag, cfg) == Reprices(p, views, cfg)
    {
      PairComparisonsPresent(t, s, bag, p);
    }
    assert Cancelled(s.episode.episodeId, bag) == Cancelled(s.episode.episodeId, views);
  }

  lemma DefiniteMeansEvidenced(t: HypType, s: Subject, bag: Bag, cfg: Config)
    requires s.episode.tradeIds != [] && WellTyped(bag)
    requires Definite(Evaluate(t, s, bag, cfg)) && Applies(t, s, cfg)
    ensures Fields(t) * s.unavailable == {} && HasAll(Requirements(t, s), bag)
    ensures Evaluate(t, s, bag, cfg) == RunEvaluator(t, s, bag, cfg)
  {
    assert forall r :: r in Requirements(t, s) && r !in bag ==> r in MissingRequests(t, s, bag);
  }

  lemma EvidencedEvaluation(t: HypType, s: Subject, bag: Bag, cfg: Config)
    requires s.episode.tradeIds != [] && WellTyped(bag) && HasAll(Requirements(t, s), bag)
    requires Applies(t, s, cfg) && Fields(t) * s.unavailable == {}
    ensures Evaluate(t, s, bag, cfg) == RunEvaluator(t, s, bag, cfg)
  {
    assert MissingRequests(t, s, bag) == [];
  }

  /** Once a hypothesis has all its evidence, more evidence changes nothing. */
  lemma MoreEvidenceKeepsEvaluation(t: HypType, s: Subject, bag: Bag, views: Bag, cfg: Config)
    requires s.episode.tradeIds != [] && WellTyped(bag) && WellTyped(views) && Within(bag, views)
    requires HasAll(Requirements(t, s), bag)
    ensures Evaluate(t, s, bag, cfg) == Evaluate(t, s, views, cfg)
  {
    if Applies(t, s, cfg) && Fields(t) * s.unavailable == {} {
      EvaluatorReadsItsRequirements(t, s, bag, views, cfg);
      EvidencedEvaluation(t, s, bag, cfg);
      EvidencedEvaluation(t, s, views, cfg);
    }
  }

  /** The checks a proposed link must pass to become verified. */
  predicate LinkChecks(c: TradeComparison, cfg: Config) {
    && c.aCancelled && c.sameInstrument && c.sameBook && c.sameSide
    && c.quantityDiffPct.Some? && c.quantityDiffPct.value <= cfg.rebookQtyTolerancePct
    && c.priceDiffPct.Some? && c.priceDiffPct.value <= cfg.rebookPriceTolerancePct
    && c.minutesAfterCancel.Some? && 0.0 <= c.minutesAfterCancel.value <= cfg.rebookMaxMinutes
    && !c.bHasOriginalLink
  }

  ghost predicate PassedChecks(p: Pair, bag: Bag, cfg: Config) {
    var r := CompareTrades(p.0, p.1);
    r in bag && bag[r].ComparisonV? && LinkChecks(bag[r].cmp, cfg)
  }

  /** Links added later all passed the checks. */
  ghost predicate CleanExtension(s: Subject, s': Subject, bag: Bag, cfg: Config) {
    && s' == s.(verifiedLinks := s'.verifiedLinks)
    && s.verifiedLinks <= s'.verifiedLinks
    && forall p :: p in s'.verifiedLinks - s.verifiedLinks ==> PassedChecks(p, bag, cfg)
  }

  lemma ExtensionPairs(s: Subject, s': Subject, bag: Bag, cfg: Config)
    requires CleanExtension(s, s', bag, cfg)
    ensures s.RebookPairSet() <= s'.RebookPairSet()
    ensures forall p :: p in s'.RebookPairSet() - s.RebookPairSet() ==> PassedChecks(p, bag, cfg)
  {
  }

  lemma ExtensionRequirements(t: HypType, s: Subject, s': Subject, bag: Bag, cfg: Config)
    requires CleanExtension(s, s', bag, cfg) && HasAll(Requirements(t, s), bag)
    ensures HasAll(Requirements(t, s'), bag)
  {
    if t == CancelRebookCorrection || t == RebookEconomicsChanged {
      ExtensionPairs(s, s', bag, cfg);
      forall p | p in s'.RebookPairSet() ensures CompareTrades(p.0, p.1) in bag {
        if p in s.RebookPairSet() { PairComparisonsPresent(t, s, bag, p); } else { assert PassedChecks(p, bag, cfg); }
      }
      var e := s.episode.episodeId;
      assert GetEventSequence(e) in Requirements(t, s);
      assert t == RebookEconomicsChanged ==> GetRecurrence(e) in Requirements(t, s);
      forall r | r in Comparisons(s'.RebookPairs()) ensures r in bag {
        var i :| 0 <= i < |s'.RebookPairs()| && r == Comparisons(s'.RebookPairs())[i];
        assert s'.RebookPairs()[i] in s'.RebookPairSet();
      }
    }
  }

  lemma CleanLinksKeepRebook(s: Subject, s': Subject, bag: Bag, cfg: Config)
    requires GetEventSequence(s.episode.episodeId) in bag && WellTyped(bag) && CleanExtension(s, s', bag, cfg)
    requires Definite(RebookEval(s, bag, cfg))
    ensures SameVerdict(RebookEval(s, bag, cfg), RebookEval(s', bag, cfg))
  {
    ExtensionPairs(s, s', bag, cfg);
    var cancelled := Cancelled(s.episode.episodeId, bag);
    var pairs, pairs' := s.RebookPairSet(), s'.RebookPairSet();
    forall p | p in pairs' && BreaksRebook(p, bag, cfg)
      ensures p in pairs
    {
      assert p in pairs' - pairs ==> PassedChecks(p, bag, cfg);
    }
    if RebookEval(s, bag, cfg).status == Supported {
      forall c | c in cancelled
        ensures exists p :: p in pairs' && p.0 == c
      {
        assert NeedsRebookLinkFor(c) !in RebookEval(s, bag, cfg).missing;
      }
    }
  }

  lemma CleanLinksKeepReprice(s: Subject, s': Subject, bag: Bag, cfg: Config)
    requires CleanExtension(s, s', bag, cfg)
    requires Definite(RepriceEval(s, bag, cfg))
    ensures SameVerdict(RepriceEval(s, bag, cfg), RepriceEval(s', bag, cfg))
  {
    ExtensionPairs(s, s', bag, cfg);
    forall p | p in s'.RebookPairSet() && Reprices(p, bag, cfg)
      ensures p in s.RebookPairSet()
    {
      assert p in s'.RebookPairSet() - s.RebookPairSet() ==> PassedChecks(p, bag, cfg);
    }
  }

  /** Links matter to two evaluators only. */
  lemma OtherEvaluatorsIgnoreLinks(t: HypType, s: Subject, s': Subject, bag: Bag, cfg: Config)
    requires t != CancelRebookCorrection && t != RebookEconomicsChanged
    requires s' == s.(verifiedLinks := s'.verifiedLinks)
    requires s.episode.tradeIds != [] && WellTyped(bag) && HasAll(Requirements(t, s), bag)
    ensures Requirements(t, s') == Requirements(t, s)
    ensures RunEvaluator(t, s', bag, cfg) == RunEvaluator(t, s, bag, cfg)
  {
  }

  lemma CleanLinksKeepRun(t: HypType, s: Subject, s': Subject, bag: Bag, cfg: Config)
    requires s.episode.tradeIds != [] && WellTyped(bag) && CleanExtension(s, s', bag, cfg)
    requires HasAll(Requirements(t, s), bag) && HasAll(Requirements(t, s'), bag)
    requires Definite(RunEvaluator(t, s, bag, cfg))
    ensures SameVerdict(RunEvaluator(t, s, bag, cfg), RunEvaluator(t, s', bag, cfg))
  {
    match t
    case CancelRebookCorrection =>
      assert GetEventSequence(s.episode.episodeId) in Requirements(t, s);
      CleanLinksKeepRebook(s, s', bag, cfg);
    case RebookEconomicsChanged => CleanLinksKeepReprice(s, s', bag, cfg);
    case _ => OtherEvaluatorsIgnoreLinks(t, s, s', bag, cfg);
  }

  /** A link that passed the checks never flips a verdict that was already reached. */
  lemma CleanLinksKeepVerdict(t: HypType, s: Subject, s': Subject, bag: Bag, cfg: Config)
    requires s.episode.tradeIds != [] && WellTyped(bag) && CleanExtension(s, s', bag, cfg)
    requires Definite(Evaluate(t, s, bag, cfg))
    ensures SameVerdict(Evaluate(t, s, bag, cfg), Evaluate(t, s', bag, cfg))
  {
    if Applies(t, s, cfg) {
      DefiniteMeansEvidenced(t, s, bag, cfg);
      ExtensionRequirements(t, s, s', bag, cfg);
      EvidencedEvaluation(t, s', bag, cfg);
      CleanLinksKeepRun(t, s, s', bag, cfg);
    }
  }

  /** What was definite on partial evidence stays so on all the evidence and later links. */
  lemma VerdictsAreStable(t: HypType, s: Subject, s': Subject, bag: Bag, views: Bag, cfg: Config)
    requires s.episode.tradeIds != [] && WellTyped(bag) && WellTyped(views) && Within(bag, views)
    requires CleanExtension(s, s', views, cfg) && Definite(Evaluate(t, s, bag, cfg))
    ensures SameVerdict(Evaluate(t, s, bag, cfg), Evaluate(t, s', views, cfg))
  {
    if Applies(t, s, cfg) {
      DefiniteMeansEvidenced(t, s, bag, cfg);
      MoreEvidenceKeepsEvaluation(t, s, bag, views, cfg);
    }
    CleanLinksKeepVerdict(t, s, s', views, cfg);
  }

  // ---------------------------------------------------------------- links and requirements

  ghost function RequirementSet(t: HypType, s: Subject): set<Request> { set r | r in Requirements(t, s) }

  lemma ComparisonsOf(s: Subject, r: Request)
    ensures r in Comparisons(s.RebookPairs()) <==> r.CompareTrades? && (r.a, r.b) in s.RebookPairSet()
  {
    var pairs := s.RebookPairs();
    if r.CompareTrades? && (r.a, r.b) in pairs { ComparisonsIn(pairs, (r.a, r.b)); }
    if r in Comparisons(pairs) {
      var i :| 0 <= i < |pairs| && Comparisons(pairs)[i] == r;
      assert pairs[i] in s.RebookPairSet();
    }
  }

  lemma RebookRequirementShape(t: HypType, s: Subject, r: Request)
    requires t == CancelRebookCorrection || t == RebookEconomicsChanged
    ensures r in Requirements(t, s) <==>
      || r == GetEventSequence(s.episode.episodeId)
      || (t == RebookEconomicsChanged && r == GetRecurrence(s.episode.episodeId))
      || (r.CompareTrades? && (r.a, r.b) in s.RebookPairSet())
  {
    ComparisonsOf(s, r);
  }

  lemma SameRequirementsSamePairs(t: HypType, s: Subject, s': Subject)
    requires t == CancelRebookCorrection || t == RebookEconomicsChanged
    requires s.episode == s'.episode && RequirementSet(t, s) == RequirementSet(t, s')
    ensures s.RebookPairSet() == s'.RebookPairSet()
  {
    forall p: Pair ensures p in s.RebookPairSet() <==> p in s'.RebookPairSet() {
      var r := CompareTrades(p.0, p.1);
      RebookRequirementShape(t, s, r);
      RebookRequirementShape(t, s', r);
      assert r in RequirementSet(t, s) <==> r in RequirementSet(t, s');
    }
  }

  /** Links enter an evaluation only through the requirements they add. */
  lemma SameRequirementsSameEvaluation(t: HypType, s: Subject, s': Subject, bag: Bag, cfg: Config)
    requires s.episode.tradeIds != [] && WellTyped(bag)
    requires s' == s.(verifiedLinks := s'.verifiedLinks) && RequirementSet(t, s) == RequirementSet(t, s')
    requires HasAll(Requirements(t, s), bag)
    ensures Evaluate(t, s, bag, cfg) == Evaluate(t, s', bag, cfg)
  {
    forall r | r in Requirements(t, s') ensures r in bag {
      assert r in RequirementSet(t, s') && r in RequirementSet(t, s);
    }
    if Applies(t, s, cfg) && Fields(t) * s.unavailable == {} {
      EvidencedEvaluation(t, s, bag, cfg);
      EvidencedEvaluation(t, s', bag, cfg);
      if t == CancelRebookCorrection || t == RebookEconomicsChanged {
        SameRequirementsSamePairs(t, s, s');
      } else {
        OtherEvaluatorsIgnoreLinks(t, s, s', bag, cfg);
      }
    }
  }
}
