/** A run whose accepted abstention abandons an anomaly that its evidence supports. */
module Abandonment {
  import opened Seqs
  import opened Evidence
  import opened Hypotheses
  import opened Adjudication
  import opened Investigator
  import opened Protocol
  import opened Soundness
  import opened Abstention

  /** No amendment, no cancellation, not a lone event of a lone trade, not booked late. */
  predicate Unremarkable(v: EpisodeView, cfg: Config) {
    && !("has_amend" in v.flags && v.flags["has_amend"])
    && !("has_cancel" in v.flags && v.flags["has_cancel"])
    && !("n_events" in v.numbers && v.numbers["n_events"] == 1.0 && "n_trades" in v.numbers && v.numbers["n_trades"] == 1.0)
    && ("booking_latency_hours_max" in v.numbers ==> v.numbers["booking_latency_hours_max"] < cfg.lateBookingHours)
  }

  predicate Deviates(v: View) { v.DeviationV? && v.profiled && v.verified != [] }

  /** An unremarkable episode, so that only the residual and the context hypotheses apply to it,
      whose deviation profile verifies something: nothing can explain that. */
  ghost predicate PlainDeviation(w: Snapshot, e: EpisodeId) {
    && WellTyped(w.views) && GetEpisode(e) in w.views && GetDeviationProfile(e) in w.views
    && Unremarkable(w.views[GetEpisode(e)].episode, w.cfg)
    && Deviates(w.views[GetDeviationProfile(e)])
  }

  /** Two new trades, booked at once, whose kind recurs unusually often in their book; the signals
      are those the engine always gives an episode with events. */
  function Example(e: EpisodeId, cfg: Config): Snapshot {
    Snapshot(map[GetEpisode(e) := EpisodeV(EpisodeView(e, [0, 1], [], Numbers(), Flags(), {})),
                 GetDeviationProfile(e) := DeviationV(true, ["book_signature_recurrence"])], {}, {}, cfg)
  }

  function Numbers(): map<Signal, real> {
    map["n_trades" := 2.0, "n_events" := 2.0, "n_amends" := 0.0, "n_cancels" := 0.0, "n_alerts" := 1.0, "n_rules_fired" := 1.0,
        "span_hours" := 1.0, "booking_latency_hours_max" := 0.0, "hours_to_period_end_min" := 200.0, "rebook_count" := 0.0,
        "book_signature_recurrence" := 40.0, "instrument_signature_recurrence" := 1.0]
  }

  function Flags(): map<Signal, bool> {
    map["has_amend" := false, "has_cancel" := false, "near_period_end" := false, "price_round_trip" := false,
        "crosses_period_end" := false, "has_rebook_link" := false, "lifecycle_valid" := true]
  }

  /** The example is one, whatever the configuration, as long as booking at once is not late. */
  lemma ExampleIsOne(e: EpisodeId, cfg: Config)
    requires cfg.lateBookingHours > 0.0
    ensures PlainDeviation(Example(e, cfg), e)
  {
  }

  const BOTH: seq<Option<HypType>> := [Some(VerifiedPeerDeviation), Some(RecurringBenignContext)]

  /** The policy evaluates both hypotheses before it fetches the profile. */
  function Early(e: EpisodeId): seq<Turn> {
    [Turn(CallTool(GetEpisode(e)), true)] + [Turn(Propose(BOTH), true)] + [Turn(EvaluateHyp(1), true)]
    + [Turn(EvaluateHyp(2), true)] + [Turn(CallTool(GetDeviationProfile(e)), true)]
  }

  ghost predicate At(s: InvState, e: EpisodeId, hs: seq<HypState>, evidence: seq<Item>) {
    s.episodeId == e && s.hypotheses == hs && s.evidence == evidence && s.proposals == [] && !Done(s)
  }

  /** The run of these turns stands at `s`, still open, with this record. */
  ghost predicate StandsAt(w: Snapshot, e: EpisodeId, turns: seq<Turn>, s: InvState, hs: seq<HypState>, evidence: seq<Item>) {
    Inv(w, Start(e)) && s == Run(w, Start(e), turns) && Inv(w, s) && At(s, e, hs, evidence)
  }

  lemma FirstTurn(w: Snapshot, s: InvState, turn: Turn, rest: seq<Turn>)
    requires Inv(w, s) && !Done(s)
    ensures Run(w, s, [turn] + rest) == Run(w, Next(w, s, turn), rest)
  {
    assert ([turn] + rest)[1..] == rest;
  }

  lemma {:induction false} OneMoreTurn(w: Snapshot, s: InvState, turns: seq<Turn>, turn: Turn)
    requires Inv(w, s) && !Done(Run(w, s, turns))
    ensures Run(w, s, turns + [turn]) == Next(w, Run(w, s, turns), turn)
    decreases |turns|
  {
    if turns == [] {
      assert turns + [turn] == [turn] + [];
      FirstTurn(w, s, turn, []);
    } else {
      var rest := turns[1..];
      assert turns == [turns[0]] + rest && turns + [turn] == [turns[0]] + (rest + [turn]);
      FirstTurn(w, s, turns[0], rest);
      FirstTurn(w, s, turns[0], rest + [turn]);
      OneMoreTurn(w, Next(w, s, turns[0]), rest, turn);
    }
  }

  /** Counting stalls changes none of this. */
  lemma CountingKeeps(w: Snapshot, s: InvState, turn: Turn, t: InvState, e: EpisodeId, hs: seq<HypState>, evidence: seq<Item>)
    requires Inv(w, s) && !Done(s) && t == Handle(w, s, turn.action, turn.ok).0 && At(t, e, hs, evidence)
    ensures At(Next(w, s, turn), e, hs, evidence)
  {
  }

  lemma Fetches(w: Snapshot, s: InvState, e: EpisodeId, hs: seq<HypState>, evidence: seq<Item>, r: Request)
    requires Inv(w, s) && At(s, e, hs, evidence) && r in w.views && !Holds(evidence, r)
    ensures At(Next(w, s, Turn(CallTool(r), true)), e, hs, evidence + [Item(|evidence| + 1, r, w.views[r])])
  {
  }

  function New(id: nat, t: HypType): HypState { HypState(id, t, UNEVALUATED, [], -1, {}) }

  const OPENED: seq<HypState> := [New(1, VerifiedPeerDeviation), New(2, RecurringBenignContext)]

  lemma BothAdded()
    ensures AddTypes([], BOTH) == OPENED
  {
    assert BOTH[1..] == [Some(RecurringBenignContext)] && BOTH[1..][1..] == [];
    var one := [New(1, VerifiedPeerDeviation)];
    assert AddTypes([], BOTH) == AddTypes([] + one, BOTH[1..]);
    assert [] + one == one && KnownTypes(one) == {VerifiedPeerDeviation};
    assert AddTypes(one, BOTH[1..]) == AddTypes(one + [New(2, RecurringBenignContext)], []);
  }

  lemma ProposesBoth(w: Snapshot, s: InvState, e: EpisodeId, evidence: seq<Item>)
    requires Inv(w, s) && At(s, e, [], evidence)
    ensures At(Next(w, s, Turn(Propose(BOTH), true)), e, OPENED, evidence)
  {
    BothAdded();
  }

  /** The one request the hypothesis needs. */
  function Needs(t: HypType, e: EpisodeId): Request {
    if t == VerifiedPeerDeviation then GetDeviationProfile(e) else GetPriorOutcomes(e)
  }

  /** The record of an evaluation that lacked its one request. */
  function Lacking(id: nat, t: HypType, e: EpisodeId): HypState {
    HypState(id, t, Evaluation(Insufficient, {NeedsRequest(Needs(t, e))}, {}), [], 1, {Needs(t, e)})
  }

  lemma LacksIt(t: HypType, subject: Subject, bag: Bag, cfg: Config, r: Request)
    requires subject.episode.tradeIds != [] && WellTyped(bag) && r !in bag
    requires (t == VerifiedPeerDeviation || t == RecurringBenignContext) && r == Needs(t, subject.episode.episodeId)
    ensures Evaluate(t, subject, bag, cfg) == Evaluation(Insufficient, {NeedsRequest(r)}, {})
    ensures Requirements(t, subject) == [r]
  {
    assert Requirements(t, subject) == [r];
    assert MissingRequests(t, subject, bag) == [r];
  }

  lemma Lacks(w: Snapshot, s: InvState, id: nat, t: HypType, item: Item)
    requires PlainDeviation(w, s.episodeId) && Inv(w, s) && s.evidence == [item] && s.proposals == []
    requires item.request == GetEpisode(s.episodeId) && (t == VerifiedPeerDeviation || t == RecurringBenignContext)
    ensures SubjectOf(w, s).Some?
    ensures Judged(w, s, New(id, t), SubjectOf(w, s).value) == Lacking(id, t, s.episodeId)
  {
    var r := Needs(t, s.episodeId);
    assert s.evidence[0] == item;
    SubjectFromViews(w, s);
    BagMembers(w, s.evidence, r);
    LacksIt(t, SubjectOf(w, s).value, BagOf(s.evidence), w.cfg, r);
    assert (set q | q in [r]) == {r};
    assert IdsOf(s.evidence, {r}) == [];
  }

  lemma EvaluatesInPlace(w: Snapshot, s: InvState, i: nat)
    requires Inv(w, s) && i < |s.hypotheses| && SubjectOf(w, s).Some?
    ensures OnEvaluate(w, s, i + 1) ==
      (s.(hypotheses := s.hypotheses[i := Judged(w, s, s.hypotheses[i], SubjectOf(w, s).value)]), Observation(0, false))
  {
    var at := Find(s.hypotheses, i + 1);
    assert s.hypotheses[i] in s.hypotheses && s.hypotheses[i].id == i + 1;
    assert at.Some?;
    assert s.hypotheses[at.value].id == at.value + 1;
  }

  lemma EvaluatesAt(w: Snapshot, s: InvState, e: EpisodeId, hs: seq<HypState>, evidence: seq<Item>, i: nat, judged: HypState)
    requires Inv(w, s) && At(s, e, hs, evidence) && i < |hs| && SubjectOf(w, s).Some?
    requires judged == Judged(w, s, hs[i], SubjectOf(w, s).value)
    ensures At(Next(w, s, Turn(EvaluateHyp(i + 1), true)), e, hs[i := judged], evidence)
  {
    EvaluatesInPlace(w, s, i);
    CountingKeeps(w, s, Turn(EvaluateHyp(i + 1), true), OnEvaluate(w, s, i + 1).0, e, hs[i := judged], evidence);
  }

  lemma OnlyTwoApply(w: Snapshot, e: EpisodeId, links: set<Pair>, t: HypType)
    requires PlainDeviation(w, e)
    ensures Applies(t, FullSubject(w, e, links), w.cfg) <==> t == VerifiedPeerDeviation || t == RecurringBenignContext
  {
  }

  /** With the profile at hand, the deviation is what the evidence supports. */
  lemma ProfileConcludes(w: Snapshot, e: EpisodeId, links: set<Pair>, bag: Bag)
    requires PlainDeviation(w, e) && WellTyped(bag)
    requires GetDeviationProfile(e) in bag && Deviates(bag[GetDeviationProfile(e)])
    ensures Adjudicate(AssessAll(CATALOG, FullSubject(w, e, links), bag, w.cfg), w.cfg.explains).conclusion == Some(VerifiedPeerDeviation)
  {
    var subject, verified := FullSubject(w, e, links), bag[GetDeviationProfile(e)].verified;
    ProfileSupports(subject, bag, w.cfg);
    var rs := AssessAll(CATALOG, subject, bag, w.cfg);
    forall r | r in rs ensures r.typ == VerifiedPeerDeviation || r.typ == RecurringBenignContext {
      FullMembers(subject, bag, w.cfg, r);
      OnlyTwoApply(w, e, links, r.typ);
    }
    var found := Assessed(VerifiedPeerDeviation, Evaluation(Supported, {}, set x | x in verified));
    FullMembers(subject, bag, w.cfg, found);
    ResidualConcludes(rs, w.cfg.explains, found, verified[0]);
  }

  lemma ProfileSupports(subject: Subject, bag: Bag, cfg: Config)
    requires subject.episode.tradeIds != [] && WellTyped(bag)
    requires GetDeviationProfile(subject.episode.episodeId) in bag && Deviates(bag[GetDeviationProfile(subject.episode.episodeId)])
    ensures var verified := bag[GetDeviationProfile(subject.episode.episodeId)].verified;
            Evaluate(VerifiedPeerDeviation, subject, bag, cfg) == Evaluation(Supported, {}, set x | x in verified)
  {
    EvidencedEvaluation(VerifiedPeerDeviation, subject, bag, cfg);
  }

  lemma ResidualConcludes(rs: seq<Assessed>, covers: Explains, found: Assessed, x: Signal)
    requires forall r :: r in rs ==> r.typ == VerifiedPeerDeviation || r.typ == RecurringBenignContext
    requires found in rs && SupportedResidual(found) && x in found.eval.signals
    ensures Adjudicate(rs, covers).conclusion == Some(VerifiedPeerDeviation)
  {
    AdjudicationMeaning(rs, covers);
    assert TypesWhere(rs, TypedAnomaly) == {};
    assert Covered(rs, Supported, covers) == {} && Covered(rs, Insufficient, covers) == {};
    assert x in DeviationSplit(rs, covers).unexplained;
  }

  lemma UnsupportedAbstains(rs: seq<Assessed>, covers: Explains)
    requires forall r :: r in rs ==> r.eval.status == Insufficient
    ensures Adjudicate(rs, covers).conclusion.None?
  {
    AdjudicationMeaning(rs, covers);
    assert Deviating(rs) == {};
  }

  function FirstItem(w: Snapshot, e: EpisodeId): Item
    requires GetEpisode(e) in w.views
  {
    Item(1, GetEpisode(e), w.views[GetEpisode(e)])
  }

  lemma Opened(w: Snapshot, e: EpisodeId) returns (s: InvState)
    requires PlainDeviation(w, e)
    ensures StandsAt(w, e, [Turn(CallTool(GetEpisode(e)), true)], s, [], [FirstItem(w, e)])
  {
    StartInv(w, e);
    var turn := Turn(CallTool(GetEpisode(e)), true);
    s := Next(w, Start(e), turn);
    Fetches(w, Start(e), e, [], [], GetEpisode(e));
    assert [] + [FirstItem(w, e)] == [FirstItem(w, e)] && [] + [turn] == [turn];
    OneMoreTurn(w, Start(e), [], turn);
  }

  lemma Proposed(w: Snapshot, e: EpisodeId) returns (s: InvState)
    requires PlainDeviation(w, e)
    ensures StandsAt(w, e, [Turn(CallTool(GetEpisode(e)), true)] + [Turn(Propose(BOTH), true)], s, OPENED, [FirstItem(w, e)])
  {
    var fetched := Opened(w, e);
    ProposesBoth(w, fetched, e, [FirstItem(w, e)]);
    s := Next(w, fetched, Turn(Propose(BOTH), true));
    OneMoreTurn(w, Start(e), [Turn(CallTool(GetEpisode(e)), true)], Turn(Propose(BOTH), true));
  }

  lemma EvaluatedNext(w: Snapshot, e: EpisodeId, turns: seq<Turn>, s: InvState, hs: seq<HypState>, i: nat, t: HypType) returns (r: InvState)
    requires PlainDeviation(w, e) && StandsAt(w, e, turns, s, hs, [FirstItem(w, e)])
    requires i < |hs| && hs[i] == New(i + 1, t) && (t == VerifiedPeerDeviation || t == RecurringBenignContext)
    ensures StandsAt(w, e, turns + [Turn(EvaluateHyp(i + 1), true)], r, hs[i := Lacking(i + 1, t, e)], [FirstItem(w, e)])
  {
    Lacks(w, s, i + 1, t, FirstItem(w, e));
    EvaluatesAt(w, s, e, hs, [FirstItem(w, e)], i, Lacking(i + 1, t, e));
    r := Next(w, s, Turn(EvaluateHyp(i + 1), true));
    OneMoreTurn(w, Start(e), turns, Turn(EvaluateHyp(i + 1), true));
  }

  lemma FetchedNext(w: Snapshot, e: EpisodeId, turns: seq<Turn>, s: InvState, hs: seq<HypState>) returns (r: InvState)
    requires PlainDeviation(w, e) && StandsAt(w, e, turns, s, hs, [FirstItem(w, e)])
    ensures StandsAt(w, e, turns + [Turn(CallTool(GetDeviationProfile(e)), true)], r, hs,
                     [FirstItem(w, e)] + [Item(2, GetDeviationProfile(e), w.views[GetDeviationProfile(e)])])
  {
    Fetches(w, s, e, hs, [FirstItem(w, e)], GetDeviationProfile(e));
    r := Next(w, s, Turn(CallTool(GetDeviationProfile(e)), true));
    OneMoreTurn(w, Start(e), turns, Turn(CallTool(GetDeviationProfile(e)), true));
  }

  lemma EarlyRun(w: Snapshot, e: EpisodeId) returns (s: InvState)
    requires PlainDeviation(w, e)
    ensures StandsAt(w, e, Early(e), s, JudgedBoth(e),
                     [FirstItem(w, e)] + [Item(2, GetDeviationProfile(e), w.views[GetDeviationProfile(e)])])
  {
    var two := [Turn(CallTool(GetEpisode(e)), true)] + [Turn(Propose(BOTH), true)];
    s := Proposed(w, e);
    s := EvaluatedNext(w, e, two, s, OPENED, 0, VerifiedPeerDeviation);
    var hs := OPENED[0 := Lacking(1, VerifiedPeerDeviation, e)];
    s := EvaluatedNext(w, e, two + [Turn(EvaluateHyp(1), true)], s, hs, 1, RecurringBenignContext);
    BothJudged(e);
    s := FetchedNext(w, e, two + [Turn(EvaluateHyp(1), true)] + [Turn(EvaluateHyp(2), true)], s, JudgedBoth(e));
  }

  function JudgedBoth(e: EpisodeId): seq<HypState> {
    [Lacking(1, VerifiedPeerDeviation, e), Lacking(2, RecurringBenignContext, e)]
  }

  lemma BothJudged(e: EpisodeId)
    ensures OPENED[0 := Lacking(1, VerifiedPeerDeviation, e)][1 := Lacking(2, RecurringBenignContext, e)] == JudgedBoth(e)
  {
  }

  /** A run that breaks the promise with the episode evidence and the profile held: the records
      say INSUFFICIENT, nobody makes them afresh, and the abstention is accepted although the
      evidence held, like all the evidence there is, supports an anomaly. */
  lemma AbandonedAnomaly(w: Snapshot, e: EpisodeId, reason: string) returns (s: InvState)
    requires PlainDeviation(w, e)
    ensures Inv(w, Start(e)) && s == Run(w, Start(e), Early(e)) && Inv(w, s) && AllTraced(w, s) && !Done(s)
    ensures Known(w, e) && Holds(s.evidence, GetEpisode(e)) && Holds(s.evidence, GetDeviationProfile(e))
    ensures Abstains(w, s, reason, {})
    ensures FreshRuling(w, s).conclusion == Some(VerifiedPeerDeviation)
    ensures FullAssessment(w, e, Links(w, s)).conclusion == Some(VerifiedPeerDeviation)
    ensures !JustifiedAbstention(w, s)
  {
    s := EarlyRun(w, e);
    RunsAreTraced(w, Start(e), Early(e));
    assert s.evidence[0].request == GetEpisode(e) && s.evidence[1].request == GetDeviationProfile(e);
    AbstainsAnyway(w, s, reason);
    EvidenceSpeaks(w, s);
  }

  /** The same on the example: a run the engine can really be asked for. */
  lemma ExampleIsAbandoned(e: EpisodeId, cfg: Config, reason: string) returns (s: InvState)
    requires cfg.lateBookingHours > 0.0
    ensures var w := Example(e, cfg);
            && Inv(w, Start(e)) && s == Run(w, Start(e), Early(e)) && Inv(w, s)
            && Abstains(w, s, reason, {}) && Known(w, e)
            && FullAssessment(w, e, Links(w, s)).conclusion == Some(VerifiedPeerDeviation)
  {
    ExampleIsOne(e, cfg);
    s := AbandonedAnomaly(Example(e, cfg), e, reason);
  }

  lemma AbstainsAnyway(w: Snapshot, s: InvState, reason: string)
    requires PlainDeviation(w, s.episodeId) && Inv(w, s) && !Done(s) && Holds(s.evidence, GetEpisode(s.episodeId))
    requires s.hypotheses == JudgedBoth(s.episodeId)
    ensures Abstains(w, s, reason, {})
  {
    AbstainingOutcome(w, s, reason, {});
    SubjectFromViews(w, s);
    SubjectIsFull(w, s);
    forall r | r in EvaluationsOf(s.hypotheses) ensures r.eval.status == Insufficient { EvaluationMembers(s.hypotheses, r); }
    UnsupportedAbstains(EvaluationsOf(s.hypotheses), w.cfg.explains);
    assert Evaluated(s.hypotheses[0]) && Evaluated(s.hypotheses[1]);
    forall t | Applies(t, Now(w, s), w.cfg) ensures t in EvaluatedTypes(s.hypotheses) {
      OnlyTwoApply(w, s.episodeId, Links(w, s), t);
      assert t == s.hypotheses[0].typ || t == s.hypotheses[1].typ;
    }
    PendingMembers(w, s, Now(w, s));
  }

  lemma EvidenceSpeaks(w: Snapshot, s: InvState)
    requires PlainDeviation(w, s.episodeId) && Inv(w, s) && Holds(s.evidence, GetDeviationProfile(s.episodeId))
    ensures FreshRuling(w, s).conclusion == Some(VerifiedPeerDeviation)
    ensures FullAssessment(w, s.episodeId, Links(w, s)).conclusion == Some(VerifiedPeerDeviation)
  {
    BagMembers(w, s.evidence, GetDeviationProfile(s.episodeId));
    ProfileConcludes(w, s.episodeId, Links(w, s), BagOf(s.evidence));
    ProfileConcludes(w, s.episodeId, Links(w, s), w.views);
  }
}
