/** What the evidence tools return: a frozen partial function from request to typed view. */
module Evidence {
  import opened Seqs
  import opened Trades

  type EpisodeId = string
  type Signal = string
  type Field = string

  datatype LinkView = LinkView(src: TradeId, dst: TradeId, kind: LinkKind)

  datatype EpisodeView = EpisodeView(
    episodeId: EpisodeId,
    tradeIds: seq<TradeId>,
    links: seq<LinkView>,
    numbers: map<Signal, real>,
    flags: map<Signal, bool>,
    outliers: set<Signal>)

  datatype VersionView = VersionView(eventType: EventType, latencyHours: real)

  datatype VersionDiff = VersionDiff(
    fromVersion: int,
    toVersion: int,
    eventType: EventType,
    priceChangePct: Option<real>,
    quantityChanged: bool,
    sideChanged: bool,
    instrumentChanged: bool,
    hoursAfterBooking: real,
    hoursToPeriodEnd: real,
    crossesPeriodEnd: bool,
    restoresOriginalPrice: bool)

  datatype SeqEvent = SeqEvent(tradeId: TradeId, eventType: EventType)

  datatype TradeComparison = TradeComparison(
    aCancelled: bool,
    sameInstrument: bool,
    sameBook: bool,
    sameSide: bool,
    quantityDiffPct: Option<real>,
    priceDiffPct: Option<real>,
    minutesAfterCancel: Option<real>,
    bHasOriginalLink: bool)

  /** One tool call. `Other` covers the tools whose output no evaluator reads; the tool that
      only gives leads is apart because its items may not be cited. */
  datatype Request =
    | GetEpisode(episode: EpisodeId)
    | GetTradeHistory(trade: TradeId)
    | CompareVersions(trade: TradeId)
    | GetEventSequence(episode: EpisodeId)
    | GetPeerComparison(episode: EpisodeId, signal: Signal)
    | GetRecurrence(episode: EpisodeId)
    | GetPriorOutcomes(episode: EpisodeId)
    | GetDeviationProfile(episode: EpisodeId)
    | GetRelatedEpisodes(episode: EpisodeId)
    | CompareTrades(a: TradeId, b: TradeId)
    | Other(tool: string, args: string)
    | SimilarCases(args: string)

  datatype View =
    | EpisodeV(episode: EpisodeView)
    | HistoryV(versions: seq<VersionView>)
    | VersionsV(diffs: seq<VersionDiff>)
    | SequenceV(events: seq<SeqEvent>)
    | PeerV(available: bool, percentile: Option<real>, robustZ: Option<real>)
    | RecurrenceV(bookRebookEpisodes: int)
    | PriorV(curatedCleared: int, curatedEscalated: int)
    | DeviationV(profiled: bool, verified: seq<Signal>)
    | RelatedV(unresolved: seq<Pair>)
    | ComparisonV(cmp: TradeComparison)
    | OtherV

  /** The view type each tool returns, and what its construction guarantees: an episode lists
      distinct trades and at least one, a trade history holds at least one version. */
  ghost predicate Fits(r: Request, v: View) {
    match r
    case GetEpisode(e) =>
      v.EpisodeV? && v.episode.episodeId == e && v.episode.tradeIds != [] && NoDuplicates(v.episode.tradeIds)
    case GetTradeHistory(_) => v.HistoryV? && v.versions != []
    case CompareVersions(_) => v.VersionsV?
    case GetEventSequence(_) => v.SequenceV?
    case GetPeerComparison(_, _) => v.PeerV?
    case GetRecurrence(_) => v.RecurrenceV?
    case GetPriorOutcomes(_) => v.PriorV?
    case GetDeviationProfile(_) => v.DeviationV?
    case GetRelatedEpisodes(_) => v.RelatedV?
    case CompareTrades(_, _) => v.ComparisonV?
    case Other(_, _) => v.OtherV?
    case SimilarCases(_) => v.OtherV?
  }

  /** Evidence keyed by request: an evidence bag, or the whole frozen snapshot. */
  type Bag = map<Request, View>

  ghost predicate WellTyped(bag: Bag) {
    forall r :: r in bag ==> Fits(r, bag[r])
  }

  ghost predicate Within(bag: Bag, views: Bag) {
    forall r :: r in bag ==> r in views && bag[r] == views[r]
  }

  ghost predicate HasAll(rs: seq<Request>, bag: Bag) {
    forall r :: r in rs ==> r in bag
  }

  /** Pinned decision environment of one run. `links` are the (cancelled, rebook) pairs that
      were already verified or confirmed when the snapshot was taken. */
  datatype Snapshot = Snapshot(views: Bag, links: set<Pair>, unavailable: set<Field>, cfg: Config)

  datatype HypType =
    | PeriodEndRoundTrip
    | OffMarketAmendment
    | RebookEconomicsChanged
    | VerifiedPeerDeviation
    | CancelRebookCorrection
    | PriceCorrection
    | LateBookingOperational
    | RoutineExecution
    | RecurringBenignContext

  datatype Config = Config(
    routineMaxLatencyHours: real,
    routineAllowedOutliers: set<Signal>,
    priceCorrectionMaxPct: real,
    correctionWindowHours: real,
    rebookQtyTolerancePct: real,
    rebookPriceTolerancePct: real,
    rebookMaxMinutes: real,
    lateBookingHours: real,
    lateBookingMissing: set<string>,
    offMarketMinPct: real,
    offMarketPercentile: real,
    offMarketRobustZ: real,
    roundTripMinPct: real,
    periodEndHours: real,
    contextMinCleared: int,
    maxConsecutiveRejections: int,
    explains: map<HypType, set<Signal>>)

  datatype Subject = Subject(episode: EpisodeView, verifiedLinks: set<Pair>, unavailable: set<Field>)
  {
    predicate Flag(name: Signal) { name in episode.flags && episode.flags[name] }

    predicate NumberIs(name: Signal, x: real) { name in episode.numbers && episode.numbers[name] == x }

    /** Links of the episode itself, and verified links that touch one of its trades. */
    function RebookPairSet(): set<Pair> {
      (set l | l in episode.links && (l.kind == RebookOf || l.kind == AgentLink) :: (l.dst, l.src))
      + (set p | p in verifiedLinks && (p.0 in episode.tradeIds || p.1 in episode.tradeIds))
    }

    function RebookPairs(): seq<Pair> { SortedPairs(RebookPairSet()) }
  }
}
