/** When each hypothesis of the catalog is supported, ruled out or left open, read off the views. */
module Verdicts {
  import opened Seqs
  import opened Trades
  import opened Evidence
  import opened Hypotheses

  // ---------------------------------------------------------------- what an evaluation passes through

  /** To which episodes each hypothesis applies. */
  lemma AppliesMeaning(s: Subject, cfg: Config)
    ensures var amended := "has_amend" in s.episode.flags && s.episode.flags["has_amend"];
            var cancelled := "has_cancel" in s.episode.flags && s.episode.flags["has_cancel"];
            var near := "near_period_end" in s.episode.flags && s.episode.flags["near_period_end"];
            var crosses := "crosses_period_end" in s.episode.flags && s.episode.flags["crosses_period_end"];
            var n := s.episode.numbers;
            && (Applies(PeriodEndRoundTrip, s, cfg) <==> amended && (near || crosses))
            && (Applies(OffMarketAmendment, s, cfg) <==> amended) && (Applies(PriceCorrection, s, cfg) <==> amended)
            && (Applies(RebookEconomicsChanged, s, cfg) <==> cancelled) && (Applies(CancelRebookCorrection, s, cfg) <==> cancelled)
            && (Applies(LateBookingOperational, s, cfg) <==>
                  "booking_latency_hours_max" in n && n["booking_latency_hours_max"] >= cfg.lateBookingHours)
            && (Applies(RoutineExecution, s, cfg) <==> "n_events" in n && "n_trades" in n && n["n_events"] == 1.0 == n["n_trades"])
            && Applies(VerifiedPeerDeviation, s, cfg) && Applies(RecurringBenignContext, s, cfg)
  {
  }

  /** Which optional fields each relies on. */
  lemma FieldsMeaning(t: HypType, name: Field)
    ensures name in Fields(t) <==>
      || (name == "PRICE" && (t == PeriodEndRoundTrip || t == OffMarketAmendment || t == RebookEconomicsChanged
                              || t == CancelRebookCorrection || t == PriceCorrection))
      || ((name == "QUANTITY" || name == "SIDE") && (t == CancelRebookCorrection || t == PriceCorrection))
      || (name == "NOTIONAL_USD" && t == RoutineExecution)
  {
  }

  /** A rebook pair of the episode: cancelled trade first. */
  ghost predicate Rebooked(s: Subject, a: TradeId, b: TradeId) {
    || (exists l :: l in s.episode.links && (l.kind == RebookOf || l.kind == AgentLink) && l.dst == a && l.src == b)
    || ((a, b) in s.verifiedLinks && (a in s.episode.tradeIds || b in s.episode.tradeIds))
  }

  lemma RebookedMeaning(s: Subject, a: TradeId, b: TradeId)
    ensures (a, b) in s.RebookPairSet() <==> Rebooked(s, a, b)
  {
  }

  lemma PerTradeMembers(trades: seq<TradeId>, history: bool, r: Request)
    ensures r in PerTrade(trades, history) <==> exists t :: t in trades && r == if history then GetTradeHistory(t) else CompareVersions(t)
  {
    var rs := PerTrade(trades, history);
    if t :| t in trades && r == if history then GetTradeHistory(t) else CompareVersions(t) {
      var i :| 0 <= i < |trades| && trades[i] == t;
      assert rs[i] == r;
    }
  }

  /** What each hypothesis asks for. */
  lemma RequirementsMeaning(t: HypType, s: Subject, r: Request)
    ensures var e, trades := s.episode.episodeId, s.episode.tradeIds;
            r in Requirements(t, s) <==>
            match t
            case PeriodEndRoundTrip | PriceCorrection => exists x :: x in trades && r == CompareVersions(x)
            case OffMarketAmendment => (exists x :: x in trades && r == CompareVersions(x)) || r == GetPeerComparison(e, "max_price_change_pct")
            case CancelRebookCorrection => r == GetEventSequence(e) || (r.CompareTrades? && Rebooked(s, r.a, r.b))
            case RebookEconomicsChanged =>
              r == GetEventSequence(e) || r == GetRecurrence(e) || (r.CompareTrades? && Rebooked(s, r.a, r.b))
            case VerifiedPeerDeviation => r == GetDeviationProfile(e)
            case LateBookingOperational | RoutineExecution => exists x :: x in trades && r == GetTradeHistory(x)
            case RecurringBenignContext => r == GetPriorOutcomes(e)
  {
    PerTradeMembers(s.episode.tradeIds, true, r);
    PerTradeMembers(s.episode.tradeIds, false, r);
    if t == CancelRebookCorrection || t == RebookEconomicsChanged {
      RebookRequirementShape(t, s, r);
      if r.CompareTrades? { RebookedMeaning(s, r.a, r.b); }
    }
  }

  /** What does not apply is ruled out; what lacks a field or a request is left open and says
      exactly which; only then does the evidence speak. */
  lemma StagesMeaning(t: HypType, s: Subject, bag: Bag, cfg: Config)
    requires s.episode.tradeIds != [] && WellTyped(bag)
    ensures var e := Evaluate(t, s, bag, cfg);
            && (!Applies(t, s, cfg) ==> e.status == Contradicted)
            && (Applies(t, s, cfg) && Fields(t) * s.unavailable != {} ==>
                  e.status == Insufficient && forall m :: m in e.missing <==> m.FieldUnavailable? && m.name in Fields(t) && m.name in s.unavailable)
            && (Applies(t, s, cfg) && Fields(t) * s.unavailable == {} && (exists r :: r in Requirements(t, s) && r !in bag) ==>
                  e.status == Insufficient && forall m :: m in e.missing <==> m.NeedsRequest? && m.request in Requirements(t, s) && m.request !in bag)
  {
    if Applies(t, s, cfg) && Fields(t) * s.unavailable == {} {
      var lacking := MissingRequests(t, s, bag);
      forall r ensures r in lacking <==> r in Requirements(t, s) && r !in bag {}
      if r :| r in Requirements(t, s) && r !in bag { assert r in lacking; }
    }
  }

  /** Applicable, with every field it relies on and every request it asks for. */
  ghost predicate Ready(t: HypType, s: Subject, bag: Bag, cfg: Config) {
    && s.episode.tradeIds != [] && WellTyped(bag)
    && Applies(t, s, cfg) && Fields(t) !! s.unavailable && forall r :: r in Requirements(t, s) ==> r in bag
  }

  lemma ReadyRuns(t: HypType, s: Subject, bag: Bag, cfg: Config)
    requires Ready(t, s, bag, cfg)
    ensures HasAll(Requirements(t, s), bag) && Evaluate(t, s, bag, cfg) == RunEvaluator(t, s, bag, cfg)
  {
    assert Fields(t) * s.unavailable == {};
    EvidencedEvaluation(t, s, bag, cfg);
  }

  lemma VersionsHeld(t: HypType, s: Subject, bag: Bag, cfg: Config, x: TradeId)
    requires t == PeriodEndRoundTrip || t == PriceCorrection || t == OffMarketAmendment
    requires Ready(t, s, bag, cfg) && x in s.episode.tradeIds
    ensures CompareVersions(x) in bag && bag[CompareVersions(x)].VersionsV?
  {
    RequirementsMeaning(t, s, CompareVersions(x));
    assert Fits(CompareVersions(x), bag[CompareVersions(x)]);
  }

  // ---------------------------------------------------------------- round trip

  lemma {:induction false} FilterHead<T(!new)>(xs: seq<T>, p: T -> bool, i: nat)
    requires i < |xs| && p(xs[i]) && forall j :: 0 <= j < i ==> !p(xs[j])
    ensures Filter(xs, p) != [] && Filter(xs, p)[0] == xs[i]
  {
    if i > 0 { FilterHead(xs[1..], p, i - 1); }
  }

  lemma {:induction false} FirstThat<T(!new)>(xs: seq<T>, p: T -> bool) returns (i: nat)
    requires exists x :: x in xs && p(x)
    ensures i < |xs| && p(xs[i]) && forall j :: 0 <= j < i ==> !p(xs[j])
  {
    i := 0;
    if !p(xs[0]) {
      assert xs == [xs[0]] + xs[1..];
      i := FirstThat(xs[1..], p);
      i := i + 1;
    }
  }

  /** An amendment that moves the price by the minimum or more, close before a period end. */
  ghost predicate Moves(d: VersionDiff, cfg: Config) {
    && d.eventType == AmendEvent && d.priceChangePct.Some? && d.hoursToPeriodEnd <= cfg.periodEndHours
    && d.priceChangePct.value >= cfg.roundTripMinPct
  }

  ghost predicate Restores(d: VersionDiff) { d.restoresOriginalPrice && d.crossesPeriodEnd }

  ghost predicate FirstMove(ds: seq<VersionDiff>, cfg: Config, i: nat) {
    i < |ds| && Moves(ds[i], cfg) && forall j :: 0 <= j < i ==> !Moves(ds[j], cfg)
  }

  ghost predicate FirstRestore(ds: seq<VersionDiff>, k: nat) {
    k < |ds| && Restores(ds[k]) && forall j :: 0 <= j < k ==> !Restores(ds[j])
  }

  /** The first restored price comes in a later version than the first move. */
  ghost predicate MovedAndRestored(ds: seq<VersionDiff>, cfg: Config) {
    exists i: nat, k: nat :: FirstMove(ds, cfg, i) && FirstRestore(ds, k) && ds[k].toVersion > ds[i].toVersion
  }

  function Bumps(ds: seq<VersionDiff>, cfg: Config): seq<VersionDiff> { Filter(ds, (d: VersionDiff) => Bump(d, cfg)) }

  function Reverts(ds: seq<VersionDiff>): seq<VersionDiff> {
    Filter(ds, (d: VersionDiff) => d.crossesPeriodEnd && d.restoresOriginalPrice)
  }

  lemma RoundTripInUses(ds: seq<VersionDiff>, cfg: Config)
    ensures RoundTripIn(ds, cfg) <==>
            Bumps(ds, cfg) != [] && Reverts(ds) != [] && Reverts(ds)[0].toVersion > Bumps(ds, cfg)[0].toVersion
  {
  }

  lemma FirstMoveIs(ds: seq<VersionDiff>, cfg: Config, i: nat)
    requires FirstMove(ds, cfg, i)
    ensures Bumps(ds, cfg) != [] && Bumps(ds, cfg)[0] == ds[i]
  {
    FilterHead(ds, (d: VersionDiff) => Bump(d, cfg), i);
  }

  lemma FirstRestoreIs(ds: seq<VersionDiff>, k: nat)
    requires FirstRestore(ds, k)
    ensures Reverts(ds) != [] && Reverts(ds)[0] == ds[k]
  {
    FilterHead(ds, (d: VersionDiff) => d.crossesPeriodEnd && d.restoresOriginalPrice, k);
  }

  lemma SomeMove(ds: seq<VersionDiff>, cfg: Config) returns (i: nat)
    requires Bumps(ds, cfg) != []
    ensures FirstMove(ds, cfg, i)
  {
    assert Bumps(ds, cfg)[0] in Bumps(ds, cfg);
    i := FirstThat(ds, (d: VersionDiff) => Bump(d, cfg));
  }

  lemma SomeRestore(ds: seq<VersionDiff>) returns (k: nat)
    requires Reverts(ds) != []
    ensures FirstRestore(ds, k)
  {
    assert Reverts(ds)[0] in Reverts(ds);
    k := FirstThat(ds, (d: VersionDiff) => d.crossesPeriodEnd && d.restoresOriginalPrice);
  }

  lemma RoundTripInMeaning(ds: seq<VersionDiff>, cfg: Config)
    ensures RoundTripIn(ds, cfg) <==> MovedAndRestored(ds, cfg)
  {
    RoundTripInUses(ds, cfg);
    if Bumps(ds, cfg) != [] && Reverts(ds) != [] {
      var i := SomeMove(ds, cfg);
      var k := SomeRestore(ds);
      FirstMoveIs(ds, cfg, i);
      FirstRestoreIs(ds, k);
    }
    if i: nat, k: nat :| FirstMove(ds, cfg, i) && FirstRestore(ds, k) && ds[k].toVersion > ds[i].toVersion {
      FirstMoveIs(ds, cfg, i);
      FirstRestoreIs(ds, k);
    }
  }

  lemma RoundTripMeaning(s: Subject, bag: Bag, cfg: Config)
    requires Ready(PeriodEndRoundTrip, s, bag, cfg)
    ensures forall x :: x in s.episode.tradeIds ==> CompareVersions(x) in bag && bag[CompareVersions(x)].VersionsV?
    ensures var e := Evaluate(PeriodEndRoundTrip, s, bag, cfg);
            var seen := exists x :: x in s.episode.tradeIds && MovedAndRestored(bag[CompareVersions(x)].diffs, cfg);
            e.missing == {} && e.signals == {} && e.status == if seen then Supported else Contradicted
  {
    ReadyRuns(PeriodEndRoundTrip, s, bag, cfg);
    forall x | x in s.episode.tradeIds
      ensures CompareVersions(x) in bag && bag[CompareVersions(x)].VersionsV?
      ensures RoundTripIn(bag[CompareVersions(x)].diffs, cfg) <==> MovedAndRestored(bag[CompareVersions(x)].diffs, cfg)
    {
      VersionsHeld(PeriodEndRoundTrip, s, bag, cfg, x);
      RoundTripInMeaning(bag[CompareVersions(x)].diffs, cfg);
    }
  }

  // ---------------------------------------------------------------- amendments

  /** An amendment of one of the episode's trades. */
  ghost predicate Amends(s: Subject, bag: Bag, d: VersionDiff) {
    d.eventType == AmendEvent &&
    exists x :: x in s.episode.tradeIds && CompareVersions(x) in bag && bag[CompareVersions(x)].VersionsV? && d in bag[CompareVersions(x)].diffs
  }

  lemma {:induction false} DiffsMembers(trades: seq<TradeId>, bag: Bag, d: VersionDiff)
    ensures d in Diffs(trades, bag) <==>
      exists x :: x in trades && CompareVersions(x) in bag && bag[CompareVersions(x)].VersionsV? && d in bag[CompareVersions(x)].diffs
  {
    if trades != [] {
      assert trades == [trades[0]] + trades[1..];
      DiffsMembers(trades[1..], bag, d);
    }
  }

  lemma AmendsMeaning(s: Subject, bag: Bag, d: VersionDiff)
    ensures Amends(s, bag, d) <==> d in Diffs(s.episode.tradeIds, bag) && d.eventType.AmendEvent?
  {
    DiffsMembers(s.episode.tradeIds, bag, d);
  }

  /** A prompt, bounded change of the price and of nothing else. */
  ghost predicate Corrects(d: VersionDiff, cfg: Config) {
    && d.priceChangePct.Some? && d.priceChangePct.value != 0.0 && d.priceChangePct.value <= cfg.priceCorrectionMaxPct
    && !d.quantityChanged && !d.sideChanged && !d.instrumentChanged
    && d.hoursAfterBooking <= cfg.correctionWindowHours && !d.crossesPeriodEnd
  }

  lemma PriceCorrectionMeaning(s: Subject, bag: Bag, cfg: Config)
    requires Ready(PriceCorrection, s, bag, cfg)
    ensures var e := Evaluate(PriceCorrection, s, bag, cfg);
            var amended := exists d :: Amends(s, bag, d);
            var broken := exists d :: Amends(s, bag, d) && d.priceChangePct.Some? && !Corrects(d, cfg);
            var unpriced := exists d :: Amends(s, bag, d) && d.priceChangePct.None?;
            && e.signals == {}
            && (e.status == Supported <==> amended && forall d :: Amends(s, bag, d) ==> Corrects(d, cfg))
            && (e.status == Contradicted <==> broken)
            && (e.status == Insufficient <==> !broken && (!amended || unpriced))
            && (!amended ==> e.missing == {NeedsAmendments})
            && (amended ==> forall m :: m in e.missing <==>
                  exists d :: Amends(s, bag, d) && d.priceChangePct.None? && m == NeedsPrice(d.fromVersion, d.toVersion))
  {
    ReadyRuns(PriceCorrection, s, bag, cfg);
    var amends := Filter(Diffs(s.episode.tradeIds, bag), (d: VersionDiff) => d.eventType.AmendEvent?);
    forall d ensures d in amends <==> Amends(s, bag, d) { AmendsMeaning(s, bag, d); }
    assert amends != [] ==> amends[0] in amends;
    assert forall d :: NotACorrection(d, cfg) <==> d.priceChangePct.Some? && !Corrects(d, cfg);
    CorrectionStatus(amends, Evaluate(PriceCorrection, s, bag, cfg), cfg);
  }

  lemma CorrectionStatus(amends: seq<VersionDiff>, e: Evaluation, cfg: Config)
    requires e == if amends == [] then Evaluation(Insufficient, {NeedsAmendments}, {})
                  else Verdict(exists d :: d in amends && NotACorrection(d, cfg),
                               set d | d in amends && d.priceChangePct.None? :: NeedsPrice(d.fromVersion, d.toVersion))
    ensures e.status == Supported <==> amends != [] && forall d :: d in amends ==> Corrects(d, cfg)
    ensures e.status == Contradicted <==> exists d :: d in amends && d.priceChangePct.Some? && !Corrects(d, cfg)
    ensures amends != [] ==> forall m :: m in e.missing <==>
              exists d :: d in amends && d.priceChangePct.None? && m == NeedsPrice(d.fromVersion, d.toVersion)
    ensures e.status == Insufficient && amends != [] ==> exists d :: d in amends && d.priceChangePct.None?
  {
    forall d | d in amends && d.priceChangePct.None? ensures NeedsPrice(d.fromVersion, d.toVersion) in e.missing {}
  }

  /** Above the normal size of a correction. */
  ghost predicate Large(d: VersionDiff, cfg: Config) { d.priceChangePct.Some? && d.priceChangePct.value > cfg.offMarketMinPct }

  /** Out of the ordinary for the peers, by rank or by distance. */
  ghost predicate Unusual(peer: View, cfg: Config)
    requires peer.PeerV?
  {
    && peer.percentile.Some?
    && (peer.percentile.value >= cfg.offMarketPercentile || (peer.robustZ.Some? && peer.robustZ.value >= cfg.offMarketRobustZ))
  }

  lemma OffMarketMeaning(s: Subject, bag: Bag, cfg: Config)
    requires Ready(OffMarketAmendment, s, bag, cfg)
    ensures var r := GetPeerComparison(s.episode.episodeId, "max_price_change_pct"); r in bag && bag[r].PeerV?
    ensures var e := Evaluate(OffMarketAmendment, s, bag, cfg);
            var peer := bag[GetPeerComparison(s.episode.episodeId, "max_price_change_pct")];
            var large := exists d :: Amends(s, bag, d) && Large(d, cfg);
            && e.signals == {}
            && (e.status == Supported <==> large && peer.available && Unusual(peer, cfg))
            && (e.status == Insufficient <==> large && (!peer.available || peer.percentile.None?))
            && (e.status == Contradicted <==> !large || (peer.available && peer.percentile.Some? && !Unusual(peer, cfg)))
            && e.missing == if e.status == Insufficient then {NeedsPeerBaseline} else {}
  {
    var r := GetPeerComparison(s.episode.episodeId, "max_price_change_pct");
    RequirementsMeaning(OffMarketAmendment, s, r);
    assert Fits(r, bag[r]);
    ReadyRuns(OffMarketAmendment, s, bag, cfg);
    OffMarketStatus(s, bag, cfg);
  }

  lemma OffMarketStatus(s: Subject, bag: Bag, cfg: Config)
    requires WellTyped(bag)
    requires var r := GetPeerComparison(s.episode.episodeId, "max_price_change_pct"); r in bag && bag[r].PeerV?
    ensures var e := OffMarketEval(s, bag, cfg);
            var peer := bag[GetPeerComparison(s.episode.episodeId, "max_price_change_pct")];
            var large := exists d :: Amends(s, bag, d) && Large(d, cfg);
            && e.signals == {}
            && e.status == (if !large then Contradicted else if !peer.available || peer.percentile.None? then Insufficient
                            else if Unusual(peer, cfg) then Supported else Contradicted)
            && e.missing == if e.status == Insufficient then {NeedsPeerBaseline} else {}
  {
    var priced := Filter(Diffs(s.episode.tradeIds, bag), (d: VersionDiff) => d.eventType.AmendEvent? && d.priceChangePct.Some?);
    forall d ensures d in priced <==> Amends(s, bag, d) && d.priceChangePct.Some? { AmendsMeaning(s, bag, d); }
  }

  // ---------------------------------------------------------------- rebooks

  lemma RebookHeld(t: HypType, s: Subject, bag: Bag, cfg: Config)
    requires t == CancelRebookCorrection || t == RebookEconomicsChanged
    requires Ready(t, s, bag, cfg)
    ensures GetEventSequence(s.episode.episodeId) in bag && bag[GetEventSequence(s.episode.episodeId)].SequenceV?
    ensures forall a, b :: Rebooked(s, a, b) ==> CompareTrades(a, b) in bag && bag[CompareTrades(a, b)].ComparisonV?
  {
    RequirementsMeaning(t, s, GetEventSequence(s.episode.episodeId));
    assert Fits(GetEventSequence(s.episode.episodeId), bag[GetEventSequence(s.episode.episodeId)]);
    forall a, b | Rebooked(s, a, b) ensures CompareTrades(a, b) in bag && bag[CompareTrades(a, b)].ComparisonV? {
      RequirementsMeaning(t, s, CompareTrades(a, b));
      assert Fits(CompareTrades(a, b), bag[CompareTrades(a, b)]);
    }
  }

  /** Some rebook of the episode moved the price by more than the tolerance. */
  ghost predicate Repriced(s: Subject, bag: Bag, cfg: Config)
    requires forall a, b :: Rebooked(s, a, b) ==> CompareTrades(a, b) in bag && bag[CompareTrades(a, b)].ComparisonV?
  {
    exists a, b :: Rebooked(s, a, b) && Exceeding(bag[CompareTrades(a, b)].cmp, cfg)
  }

  ghost predicate Exceeding(c: TradeComparison, cfg: Config) {
    c.priceDiffPct.Some? && c.priceDiffPct.value > cfg.rebookPriceTolerancePct
  }

  lemma RepricedMeaning(s: Subject, bag: Bag, cfg: Config)
    requires forall a, b :: Rebooked(s, a, b) ==> CompareTrades(a, b) in bag && bag[CompareTrades(a, b)].ComparisonV?
    ensures Repriced(s, bag, cfg) <==> exists p :: p in s.RebookPairSet() && Reprices(p, bag, cfg)
    ensures s.RebookPairSet() != {} <==> exists a, b :: Rebooked(s, a, b)
  {
    if p: Pair :| p in s.RebookPairSet() { RebookedMeaning(s, p.0, p.1); }
    if p: Pair :| p in s.RebookPairSet() && Reprices(p, bag, cfg) { RebookedMeaning(s, p.0, p.1); }
    if a: TradeId, b: TradeId :| Rebooked(s, a, b) { RebookedMeaning(s, a, b); }
    if a: TradeId, b: TradeId :| Rebooked(s, a, b) && Exceeding(bag[CompareTrades(a, b)].cmp, cfg) {
      RebookedMeaning(s, a, b);
      assert Reprices((a, b), bag, cfg);
    }
  }

  lemma RepriceMeaning(s: Subject, bag: Bag, cfg: Config)
    requires Ready(RebookEconomicsChanged, s, bag, cfg)
    ensures forall a, b :: Rebooked(s, a, b) ==> CompareTrades(a, b) in bag && bag[CompareTrades(a, b)].ComparisonV?
    ensures var e := Evaluate(RebookEconomicsChanged, s, bag, cfg);
            var linked := exists a, b :: Rebooked(s, a, b);
            && e.signals == {}
            && e.status == (if Repriced(s, bag, cfg) then Supported else if linked then Contradicted else Insufficient)
            && e.missing == (if linked then {} else {NeedsRebookLink})
  {
    RebookHeld(RebookEconomicsChanged, s, bag, cfg);
    ReadyRuns(RebookEconomicsChanged, s, bag, cfg);
    RepricedMeaning(s, bag, cfg);
  }

  /** The event sequence shows the trade cancelled. */
  ghost predicate ShownCancelled(s: Subject, bag: Bag, c: TradeId)
    requires GetEventSequence(s.episode.episodeId) in bag && bag[GetEventSequence(s.episode.episodeId)].SequenceV?
  {
    exists x :: x in bag[GetEventSequence(s.episode.episodeId)].events && x.eventType == CancelEvent && x.tradeId == c
  }

  /** The rebook repeats the cancelled trade: same instrument and side, quantity, price and time
      known and within their limits. */
  ghost predicate Repeats(c: TradeComparison, cfg: Config) {
    && c.sameInstrument && c.sameSide
    && c.quantityDiffPct.Some? && c.quantityDiffPct.value <= cfg.rebookQtyTolerancePct
    && c.priceDiffPct.Some? && c.priceDiffPct.value <= cfg.rebookPriceTolerancePct
    && c.minutesAfterCancel.Some? && c.minutesAfterCancel.value <= cfg.rebookMaxMinutes
  }

  /** Some rebook of a cancelled trade does not repeat it. */
  ghost predicate Differs(s: Subject, bag: Bag, cfg: Config)
    requires GetEventSequence(s.episode.episodeId) in bag && bag[GetEventSequence(s.episode.episodeId)].SequenceV?
    requires forall a, b :: Rebooked(s, a, b) ==> CompareTrades(a, b) in bag && bag[CompareTrades(a, b)].ComparisonV?
  {
    exists a, b :: ShownCancelled(s, bag, a) && Rebooked(s, a, b) && !Repeats(bag[CompareTrades(a, b)].cmp, cfg)
  }

  /** The trade was cancelled and nothing rebooks it. */
  ghost predicate Unrebooked(s: Subject, bag: Bag, c: TradeId)
    requires GetEventSequence(s.episode.episodeId) in bag && bag[GetEventSequence(s.episode.episodeId)].SequenceV?
  {
    ShownCancelled(s, bag, c) && forall b :: !Rebooked(s, c, b)
  }

  lemma DiffersMeaning(s: Subject, bag: Bag, cfg: Config)
    requires WellTyped(bag) && GetEventSequence(s.episode.episodeId) in bag && bag[GetEventSequence(s.episode.episodeId)].SequenceV?
    requires forall a, b :: Rebooked(s, a, b) ==> CompareTrades(a, b) in bag && bag[CompareTrades(a, b)].ComparisonV?
    ensures Differs(s, bag, cfg) <==>
            exists p :: p in s.RebookPairSet() && p.0 in Cancelled(s.episode.episodeId, bag) && BreaksRebook(p, bag, cfg)
  {
    if p: Pair :| p in s.RebookPairSet() && p.0 in Cancelled(s.episode.episodeId, bag) && BreaksRebook(p, bag, cfg) {
      RebookedMeaning(s, p.0, p.1);
      assert ShownCancelled(s, bag, p.0) && !Repeats(bag[CompareTrades(p.0, p.1)].cmp, cfg);
    }
    if a: TradeId, b: TradeId :| ShownCancelled(s, bag, a) && Rebooked(s, a, b) && !Repeats(bag[CompareTrades(a, b)].cmp, cfg) {
      RebookedMeaning(s, a, b);
      assert (a, b) in s.RebookPairSet() && BreaksRebook((a, b), bag, cfg);
    }
  }

  lemma UnrebookedMeaning(s: Subject, bag: Bag, c: TradeId)
    requires WellTyped(bag) && GetEventSequence(s.episode.episodeId) in bag && bag[GetEventSequence(s.episode.episodeId)].SequenceV?
    ensures Unrebooked(s, bag, c) <==> c in Cancelled(s.episode.episodeId, bag) && !exists p :: p in s.RebookPairSet() && p.0 == c
  {
    if p: Pair :| p in s.RebookPairSet() && p.0 == c { RebookedMeaning(s, p.0, p.1); }
    if b: TradeId :| Rebooked(s, c, b) {
      RebookedMeaning(s, c, b);
      assert (c, b).0 == c;
    }
  }

  lemma RebookMeaning(s: Subject, bag: Bag, cfg: Config)
    requires Ready(CancelRebookCorrection, s, bag, cfg)
    ensures GetEventSequence(s.episode.episodeId) in bag && bag[GetEventSequence(s.episode.episodeId)].SequenceV?
    ensures forall a, b :: Rebooked(s, a, b) ==> CompareTrades(a, b) in bag && bag[CompareTrades(a, b)].ComparisonV?
    ensures var e := Evaluate(CancelRebookCorrection, s, bag, cfg);
            && e.signals == {}
            && e.status == (if Differs(s, bag, cfg) then Contradicted
                            else if exists c :: Unrebooked(s, bag, c) then Insufficient else Supported)
            && forall m :: m in e.missing <==> m.NeedsRebookLinkFor? && Unrebooked(s, bag, m.cancelled)
  {
    RebookHeld(CancelRebookCorrection, s, bag, cfg);
    ReadyRuns(CancelRebookCorrection, s, bag, cfg);
    RebookStatus(s, bag, cfg);
  }

  lemma RebookStatus(s: Subject, bag: Bag, cfg: Config)
    requires WellTyped(bag) && GetEventSequence(s.episode.episodeId) in bag && bag[GetEventSequence(s.episode.episodeId)].SequenceV?
    requires forall a, b :: Rebooked(s, a, b) ==> CompareTrades(a, b) in bag && bag[CompareTrades(a, b)].ComparisonV?
    ensures var e := RebookEval(s, bag, cfg);
            && e.signals == {}
            && e.status == (if Differs(s, bag, cfg) then Contradicted
                            else if exists c :: Unrebooked(s, bag, c) then Insufficient else Supported)
            && forall m :: m in e.missing <==> m.NeedsRebookLinkFor? && Unrebooked(s, bag, m.cancelled)
  {
    var e := RebookEval(s, bag, cfg);
    DiffersMeaning(s, bag, cfg);
    forall c ensures NeedsRebookLinkFor(c) in e.missing <==> Unrebooked(s, bag, c) { UnrebookedMeaning(s, bag, c); }
    assert forall m :: m in e.missing ==> m.NeedsRebookLinkFor?;
    if c: TradeId :| Unrebooked(s, bag, c) { assert NeedsRebookLinkFor(c) in e.missing; }
    if m :| m in e.missing { assert Unrebooked(s, bag, m.cancelled); }
  }

  // ---------------------------------------------------------------- the others

  lemma DeviationMeaning(s: Subject, bag: Bag, cfg: Config)
    requires Ready(VerifiedPeerDeviation, s, bag, cfg)
    ensures var r := GetDeviationProfile(s.episode.episodeId); r in bag && bag[r].DeviationV?
    ensures var e, profile := Evaluate(VerifiedPeerDeviation, s, bag, cfg), bag[GetDeviationProfile(s.episode.episodeId)];
            && e.status == (if !profile.profiled then Insufficient else if |profile.verified| > 0 then Supported else Contradicted)
            && e.missing == (if profile.profiled then {} else {NeedsPeerBaseline})
            && forall x :: x in e.signals <==> profile.profiled && x in profile.verified
  {
    var r := GetDeviationProfile(s.episode.episodeId);
    RequirementsMeaning(VerifiedPeerDeviation, s, r);
    assert Fits(r, bag[r]);
    ReadyRuns(VerifiedPeerDeviation, s, bag, cfg);
  }

  lemma ContextMeaning(s: Subject, bag: Bag, cfg: Config)
    requires Ready(RecurringBenignContext, s, bag, cfg)
    ensures var r := GetPriorOutcomes(s.episode.episodeId); r in bag && bag[r].PriorV?
    ensures var e, prior := Evaluate(RecurringBenignContext, s, bag, cfg), bag[GetPriorOutcomes(s.episode.episodeId)];
            && e.signals == {}
            && e.status == (if prior.curatedEscalated > 0 then Contradicted
                            else if prior.curatedCleared >= cfg.contextMinCleared then Supported else Insufficient)
            && e.missing == (if e.status == Insufficient then {NeedsHistory} else {})
  {
    var r := GetPriorOutcomes(s.episode.episodeId);
    RequirementsMeaning(RecurringBenignContext, s, r);
    assert Fits(r, bag[r]);
    ReadyRuns(RecurringBenignContext, s, bag, cfg);
  }

  lemma LateMeaning(s: Subject, bag: Bag, cfg: Config)
    requires Ready(LateBookingOperational, s, bag, cfg)
    ensures var e := Evaluate(LateBookingOperational, s, bag, cfg);
            e.status == Insufficient && e.signals == {} && forall m :: m in e.missing <==> m.NeedsRecord? && m.name in cfg.lateBookingMissing
  {
    ReadyRuns(LateBookingOperational, s, bag, cfg);
    var e := Evaluate(LateBookingOperational, s, bag, cfg);
    forall m ensures m in e.missing <==> m.NeedsRecord? && m.name in cfg.lateBookingMissing {
      assert m.NeedsRecord? ==> m == NeedsRecord(m.name);
    }
  }

  lemma NothingLeft(xs: set<Signal>, ys: set<Signal>)
    ensures xs - ys == {} <==> xs <= ys
  {
    forall x | x in xs && x !in ys ensures x in xs - ys {}
  }

  lemma RoutineMeaning(s: Subject, bag: Bag, cfg: Config)
    requires Ready(RoutineExecution, s, bag, cfg)
    ensures var r := GetTradeHistory(s.episode.tradeIds[0]); r in bag && bag[r].HistoryV? && bag[r].versions != []
    ensures var e, versions := Evaluate(RoutineExecution, s, bag, cfg), bag[GetTradeHistory(s.episode.tradeIds[0])].versions;
            var plain := |versions| == 1 && versions[0].eventType == NewEvent && versions[0].latencyHours <= cfg.routineMaxLatencyHours
                         && s.episode.outliers <= cfg.routineAllowedOutliers;
            e.missing == {} && e.signals == {} && e.status == if plain then Supported else Contradicted
  {
    var r := GetTradeHistory(s.episode.tradeIds[0]);
    RequirementsMeaning(RoutineExecution, s, r);
    assert Fits(r, bag[r]);
    ReadyRuns(RoutineExecution, s, bag, cfg);
    NothingLeft(s.episode.outliers, cfg.routineAllowedOutliers);
  }
}
