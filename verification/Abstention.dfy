/** When an accepted abstention keeps its promise: nothing the run holds supports a conclusion. */
module Abstention {
  import opened Seqs
  import opened Trades
  import opened Evidence
  import opened Hypotheses
  import opened Adjudication
  import opened Investigator
  import opened Protocol
  import opened Soundness

  // ---------------------------------------------------------------- the promise

  /** The subject under the links of the run. */
  ghost function Now(w: Snapshot, s: InvState): (subject: Subject)
    requires Known(w, s.episodeId)
    ensures subject.episode.tradeIds != []
  {
    FullSubject(w, s.episodeId, Links(w, s))
  }

  /** What the verifier rules when every applicable hypothesis is evaluated afresh on the
      evidence the run holds. */
  ghost function FreshRuling(w: Snapshot, s: InvState): Outcome
    requires Known(w, s.episodeId) && WellTyped(BagOf(s.evidence))
  {
    Adjudicate(AssessAll(CATALOG, Now(w, s), BagOf(s.evidence), w.cfg), w.cfg.explains)
  }

  /** The documented promise: an abstention is accepted only where every applicable hypothesis
      was evaluated and the evidence supports no conclusion. */
  ghost predicate JustifiedAbstention(w: Snapshot, s: InvState)
    requires Known(w, s.episodeId) && WellTyped(BagOf(s.evidence))
  {
    && (forall t :: Applies(t, Now(w, s), w.cfg) ==> t in EvaluatedTypes(s.hypotheses))
    && FreshRuling(w, s).conclusion.None?
  }

  predicate Abstains(w: Snapshot, s: InvState, reason: string, missing: set<Missing>) {
    OnAbstain(w, s, reason, missing).0.abstained
  }

  // ---------------------------------------------------------------- where records come from

  /** The record is the evaluation on evidence and links the run held at some time. */
  ghost predicate From(w: Snapshot, s: InvState, h: HypState, bag: Bag, links: set<Pair>)
    requires Known(w, s.episodeId)
  {
    && WellTyped(bag) && Within(bag, BagOf(s.evidence)) && w.links <= links <= Links(w, s)
    && var then_ := FullSubject(w, s.episodeId, links);
    h.eval == Evaluate(h.typ, then_, bag, w.cfg) && h.needed == RequirementSet(h.typ, then_)
  }

  ghost predicate Traced(w: Snapshot, s: InvState, h: HypState) {
    Known(w, s.episodeId) && exists bag, links :: From(w, s, h, bag, links)
  }

  /** Every recorded evaluation was one. */
  ghost predicate AllTraced(w: Snapshot, s: InvState) {
    forall h {:trigger Traced(w, s, h)} :: h in s.hypotheses && Evaluated(h) ==> Traced(w, s, h)
  }

  lemma TraceGrows(w: Snapshot, s: InvState, t: InvState, h: HypState)
    requires Traced(w, s, h) && t.episodeId == s.episodeId
    requires Within(BagOf(s.evidence), BagOf(t.evidence)) && Links(w, s) <= Links(w, t)
    ensures Traced(w, t, h)
  {
    var bag, links :| From(w, s, h, bag, links);
    assert From(w, t, h, bag, links);
  }

  /** Anything that keeps the records and only adds evidence and links keeps them traced. */
  lemma GrowthKeepsTraces(w: Snapshot, s: InvState, t: InvState)
    requires AllTraced(w, s) && t.episodeId == s.episodeId
    requires forall h :: h in t.hypotheses && Evaluated(h) ==> h in s.hypotheses
    requires Within(BagOf(s.evidence), BagOf(t.evidence)) && Links(w, s) <= Links(w, t)
    ensures AllTraced(w, t)
  {
    forall h | h in t.hypotheses && Evaluated(h) ensures Traced(w, t, h) {
      assert Traced(w, s, h);
      TraceGrows(w, s, t, h);
    }
  }

  lemma {:induction false} AddedAreUnevaluated(hs: seq<HypState>, types: seq<Option<HypType>>, h: HypState)
    requires h in AddTypes(hs, types) && Evaluated(h)
    ensures h in hs
    decreases |types|
  {
    if types != [] {
      if types[0].None? || types[0].value in KnownTypes(hs) {
        AddedAreUnevaluated(hs, types[1..], h);
      } else {
        AddedAreUnevaluated(hs + [HypState(|hs| + 1, types[0].value, UNEVALUATED, [], -1, {})], types[1..], h);
      }
    }
  }

  lemma JudgedIsTraced(w: Snapshot, s: InvState, h: HypState, subject: Subject)
    requires Inv(w, s) && SubjectOf(w, s) == Some(subject)
    ensures Traced(w, s, Judged(w, s, h, subject))
  {
    SubjectIsFull(w, s);
    assert From(w, s, Judged(w, s, h, subject), BagOf(s.evidence), Links(w, s));
  }

  lemma EvaluatingKeepsTraces(w: Snapshot, s: InvState, id: nat)
    requires Inv(w, s) && AllTraced(w, s)
    ensures AllTraced(w, OnEvaluate(w, s, id).0)
  {
    var at, subject := Find(s.hypotheses, id), SubjectOf(w, s);
    if at.Some? && subject.Some? {
      var g := Judged(w, s, s.hypotheses[at.value], subject.value);
      var t := OnEvaluate(w, s, id).0;
      JudgedIsTraced(w, s, s.hypotheses[at.value], subject.value);
      forall h | h in t.hypotheses && Evaluated(h) ensures Traced(w, t, h) {
        assert h == g || h in s.hypotheses;
        assert Traced(w, s, h);
        TraceGrows(w, s, t, h);
      }
    }
  }

  lemma CallingKeepsTraces(w: Snapshot, s: InvState, r: Request, ok: bool)
    requires Inv(w, s) && !Done(s) && AllTraced(w, s)
    ensures AllTraced(w, OnCall(w, s, r, ok).0)
  {
    var t := OnCall(w, s, r, ok).0;
    HandleKeepsInv(w, s, CallTool(r), ok);
    if t != s { BagGrows(w, s.evidence, Item(|s.evidence| + 1, r, w.views[r])); }
    GrowthKeepsTraces(w, s, t);
  }

  lemma LinkingKeepsTraces(w: Snapshot, s: InvState, a: TradeId, b: TradeId)
    requires Inv(w, s) && AllTraced(w, s)
    ensures AllTraced(w, OnLink(w, s, a, b).0)
  {
    if CompareTrades(a, b) in BagOf(s.evidence) { LinkOutcome(w, s, a, b); }
    GrowthKeepsTraces(w, s, OnLink(w, s, a, b).0);
  }

  lemma HandlingKeepsTraces(w: Snapshot, s: InvState, action: Action, ok: bool)
    requires Inv(w, s) && !Done(s) && AllTraced(w, s)
    ensures AllTraced(w, Handle(w, s, action, ok).0)
  {
    match action
    case Propose(types) =>
      forall h | h in AddTypes(s.hypotheses, types) && Evaluated(h) ensures h in s.hypotheses { AddedAreUnevaluated(s.hypotheses, types, h); }
      GrowthKeepsTraces(w, s, OnPropose(s, types).0);
    case CallTool(r) => CallingKeepsTraces(w, s, r, ok);
    case EvaluateHyp(id) => EvaluatingKeepsTraces(w, s, id);
    case ProposeLink(a, b) => LinkingKeepsTraces(w, s, a, b);
    case Conclude(id, cited, clean) => GrowthKeepsTraces(w, s, OnConclude(w, s, id, cited, clean).0);
    case Abstain(reason, missing) => GrowthKeepsTraces(w, s, OnAbstain(w, s, reason, missing).0);
  }

  lemma NextKeepsTraces(w: Snapshot, s: InvState, turn: Turn)
    requires Inv(w, s) && !Done(s) && AllTraced(w, s)
    ensures AllTraced(w, Next(w, s, turn))
  {
    HandlingKeepsTraces(w, s, turn.action, turn.ok);
    GrowthKeepsTraces(w, Handle(w, s, turn.action, turn.ok).0, Next(w, s, turn));
  }

  /** In every state any policy can reach, every recorded evaluation was one. */
  lemma {:induction false} RunsAreTraced(w: Snapshot, s: InvState, turns: seq<Turn>)
    requires Inv(w, s) && AllTraced(w, s)
    ensures AllTraced(w, Run(w, s, turns))
    decreases |turns|
  {
    if turns != [] && !Done(s) {
      NextKeepsTraces(w, s, turns[0]);
      RunsAreTraced(w, Next(w, s, turns[0]), turns[1..]);
    }
  }

  // ---------------------------------------------------------------- records that are out of date

  /** Recorded as lacking evidence, though the run now holds everything the hypothesis requires:
      it was judged before a request was answered or a link was verified. */
  ghost predicate Outdated(w: Snapshot, s: InvState, h: HypState)
    requires Known(w, s.episodeId)
  {
    && h.eval.status == Insufficient
    && HasAll(Requirements(h.typ, Now(w, s)), BagOf(s.evidence))
    && (h.needed != RequirementSet(h.typ, Now(w, s)) || exists m :: m in h.eval.missing && m.NeedsRequest?)
  }

  /** The recorded evaluations, those out of date made afresh. */
  ghost function Revised(w: Snapshot, s: InvState, hs: seq<HypState>): seq<Assessed>
    requires Known(w, s.episodeId) && WellTyped(BagOf(s.evidence))
  {
    if hs == [] then []
    else (if Evaluated(hs[0]) then [Revision(w, s, hs[0])] else []) + Revised(w, s, hs[1..])
  }

  ghost function Revision(w: Snapshot, s: InvState, h: HypState): Assessed
    requires Known(w, s.episodeId) && WellTyped(BagOf(s.evidence))
  {
    Assessed(h.typ, if Outdated(w, s, h) then Evaluate(h.typ, Now(w, s), BagOf(s.evidence), w.cfg) else h.eval)
  }

  lemma {:induction false} RevisedMembers(w: Snapshot, s: InvState, hs: seq<HypState>, r: Assessed)
    requires Known(w, s.episodeId) && WellTyped(BagOf(s.evidence))
    ensures r in Revised(w, s, hs) <==> exists h :: h in hs && Evaluated(h) && r == Revision(w, s, h)
  {
    if hs != [] {
      RevisedMembers(w, s, hs[1..], r);
      assert hs == [hs[0]] + hs[1..];
    }
  }

  lemma {:induction false} NothingToRevise(w: Snapshot, s: InvState, hs: seq<HypState>)
    requires Known(w, s.episodeId) && WellTyped(BagOf(s.evidence))
    requires forall h :: h in hs ==> !Outdated(w, s, h)
    ensures Revised(w, s, hs) == EvaluationsOf(hs)
  {
    if hs != [] { NothingToRevise(w, s, hs[1..]); }
  }

  lemma LinksAreChecked(w: Snapshot, s: InvState, links: set<Pair>)
    requires Inv(w, s) && Known(w, s.episodeId) && w.links <= links <= Links(w, s)
    ensures CleanExtension(FullSubject(w, s.episodeId, links), Now(w, s), BagOf(s.evidence), w.cfg)
  {
    forall p | p in Links(w, s) - links ensures PassedChecks(p, BagOf(s.evidence), w.cfg) {
      var q :| q in s.proposals && q.verified && (q.a, q.b) == p;
    }
  }

  lemma LackingIsNamed(t: HypType, s: Subject, bag: Bag, cfg: Config)
    requires s.episode.tradeIds != [] && WellTyped(bag) && Applies(t, s, cfg) && Fields(t) * s.unavailable == {}
    ensures forall r :: r in Requirements(t, s) && r !in bag ==> NeedsRequest(r) in Evaluate(t, s, bag, cfg).missing
  {
    forall r | r in Requirements(t, s) && r !in bag ensures NeedsRequest(r) in Evaluate(t, s, bag, cfg).missing {
      assert r in MissingRequests(t, s, bag);
    }
  }

  /** An evaluation that lacked a fact other than a request keeps its verdict on more evidence. */
  lemma SameRequirementsKeep(t: HypType, before: Subject, now: Subject, bag: Bag, bag': Bag, cfg: Config)
    requires before.episode.tradeIds != [] && WellTyped(bag) && WellTyped(bag') && Within(bag, bag')
    requires now == before.(verifiedLinks := now.verifiedLinks) && RequirementSet(t, before) == RequirementSet(t, now)
    requires forall m :: m in Evaluate(t, before, bag, cfg).missing ==> !m.NeedsRequest?
    requires Applies(t, before, cfg) && Fields(t) * before.unavailable == {}
    ensures Evaluate(t, now, bag', cfg) == Evaluate(t, before, bag, cfg)
  {
    LackingIsNamed(t, before, bag, cfg);
    MoreEvidenceKeepsEvaluation(t, before, bag, bag', cfg);
    SameRequirementsSameEvaluation(t, before, now, bag', cfg);
  }

  lemma LackingStaysLacking(t: HypType, now: Subject, bag: Bag, cfg: Config)
    requires now.episode.tradeIds != [] && WellTyped(bag) && Applies(t, now, cfg)
    requires !HasAll(Requirements(t, now), bag) || Fields(t) * now.unavailable != {}
    ensures Evaluate(t, now, bag, cfg).status == Insufficient && Evaluate(t, now, bag, cfg).signals == {}
  {
    if Fields(t) * now.unavailable == {} {
      var r :| r in Requirements(t, now) && r !in bag;
      assert r in MissingRequests(t, now, bag);
    }
  }

  lemma InsufficientHasNoSignals(t: HypType, s: Subject, bag: Bag, cfg: Config)
    requires s.episode.tradeIds != [] && WellTyped(bag) && Evaluate(t, s, bag, cfg).status == Insufficient
    ensures Evaluate(t, s, bag, cfg).signals == {} && Applies(t, s, cfg)
  {
  }

  /** A record that is not out of date has the verdict of today's evidence. */
  lemma UpToDate(w: Snapshot, s: InvState, h: HypState)
    requires Inv(w, s) && Known(w, s.episodeId) && Traced(w, s, h) && !Outdated(w, s, h)
    ensures SameVerdict(h.eval, Evaluate(h.typ, Now(w, s), BagOf(s.evidence), w.cfg))
  {
    var bag, links :| From(w, s, h, bag, links);
    var before, now := FullSubject(w, s.episodeId, links), Now(w, s);
    LinksAreChecked(w, s, links);
    if Definite(h.eval) {
      VerdictsAreStable(h.typ, before, now, bag, BagOf(s.evidence), w.cfg);
    } else {
      InsufficientHasNoSignals(h.typ, before, bag, w.cfg);
      if !HasAll(Requirements(h.typ, now), BagOf(s.evidence)) || Fields(h.typ) * now.unavailable != {} {
        LackingStaysLacking(h.typ, now, BagOf(s.evidence), w.cfg);
      } else {
        SameRequirementsKeep(h.typ, before, now, bag, BagOf(s.evidence), w.cfg);
      }
    }
  }

  lemma RevisionIsCurrent(w: Snapshot, s: InvState, h: HypState)
    requires Inv(w, s) && AllTraced(w, s) && Known(w, s.episodeId) && h in s.hypotheses && Evaluated(h)
    ensures SameVerdict(Revision(w, s, h).eval, Evaluate(h.typ, Now(w, s), BagOf(s.evidence), w.cfg))
  {
    assert Traced(w, s, h);
    if !Outdated(w, s, h) { UpToDate(w, s, h); }
  }

  ghost function FreshResults(w: Snapshot, s: InvState): seq<Assessed>
    requires Known(w, s.episodeId) && WellTyped(BagOf(s.evidence))
  {
    AssessAll(CATALOG, Now(w, s), BagOf(s.evidence), w.cfg)
  }

  lemma RevisedAreFresh(w: Snapshot, s: InvState)
    requires Inv(w, s) && AllTraced(w, s) && Known(w, s.episodeId)
    ensures Represented(Revised(w, s, s.hypotheses), FreshResults(w, s))
  {
    forall r | r in Revised(w, s, s.hypotheses) && r.eval.status != Contradicted ensures Stands(r, FreshResults(w, s)) {
      RevisedMembers(w, s, s.hypotheses, r);
      var h :| h in s.hypotheses && Evaluated(h) && r == Revision(w, s, h);
      RevisionIsCurrent(w, s, h);
      var q := Assessed(h.typ, Evaluate(h.typ, Now(w, s), BagOf(s.evidence), w.cfg));
      FullMembers(Now(w, s), BagOf(s.evidence), w.cfg, q);
      assert q in FreshResults(w, s);
    }
  }

  lemma FreshAreRevised(w: Snapshot, s: InvState)
    requires Inv(w, s) && AllTraced(w, s) && SubjectOf(w, s).Some? && Pending(w, s, SubjectOf(w, s).value) == {}
    ensures Known(w, s.episodeId) && Represented(FreshResults(w, s), Revised(w, s, s.hypotheses))
  {
    SubjectIsFull(w, s);
    forall q | q in FreshResults(w, s) && q.eval.status != Contradicted ensures Stands(q, Revised(w, s, s.hypotheses)) {
      FullMembers(Now(w, s), BagOf(s.evidence), w.cfg, q);
      PendingMembers(w, s, SubjectOf(w, s).value);
      var h :| h in s.hypotheses && Evaluated(h) && h.typ == q.typ;
      RevisionIsCurrent(w, s, h);
      RevisedMembers(w, s, s.hypotheses, Revision(w, s, h));
    }
  }

  /** Making afresh only what is out of date gives the ruling of a wholly fresh assessment. */
  lemma RevisingIsEnough(w: Snapshot, s: InvState)
    requires Inv(w, s) && AllTraced(w, s) && SubjectOf(w, s).Some? && Pending(w, s, SubjectOf(w, s).value) == {}
    ensures Known(w, s.episodeId)
    ensures FreshRuling(w, s).conclusion == Adjudicate(Revised(w, s, s.hypotheses), w.cfg.explains).conclusion
  {
    SubjectIsFull(w, s);
    RevisedAreFresh(w, s);
    FreshAreRevised(w, s);
    SameVerdictsSameConclusion(Revised(w, s, s.hypotheses), FreshResults(w, s), w.cfg.explains);
  }

  // ---------------------------------------------------------------- when the promise is kept

  lemma AbstainingOutcome(w: Snapshot, s: InvState, reason: string, missing: set<Missing>)
    requires Inv(w, s) && !Done(s)
    ensures Abstains(w, s, reason, missing) <==>
      var at := SubjectOf(w, s);
      at.None? || (Pending(w, s, at.value) == {} && Adjudged(w, s).conclusion.None?)
  {
  }

  lemma NothingHeldNothingEvaluated(w: Snapshot, s: InvState)
    requires Inv(w, s) && Known(w, s.episodeId) && SubjectOf(w, s).None?
    ensures !JustifiedAbstention(w, s)
  {
    assert Applies(VerifiedPeerDeviation, Now(w, s), w.cfg);
    assert VerifiedPeerDeviation !in EvaluatedTypes(s.hypotheses);
  }

  /** Exactly when an accepted abstention keeps its promise: the episode evidence is held, and
      evaluating again what is out of date leads to no conclusion. */
  lemma AbstentionIsJustifiedIff(w: Snapshot, s: InvState, reason: string, missing: set<Missing>)
    requires Inv(w, s) && AllTraced(w, s) && !Done(s) && Known(w, s.episodeId)
    requires Abstains(w, s, reason, missing)
    ensures JustifiedAbstention(w, s) <==>
      && Holds(s.evidence, GetEpisode(s.episodeId))
      && Adjudicate(Revised(w, s, s.hypotheses), w.cfg.explains).conclusion.None?
  {
    AbstainingOutcome(w, s, reason, missing);
    SubjectFromViews(w, s);
    if SubjectOf(w, s).Some? {
      SubjectIsFull(w, s);
      PendingMembers(w, s, Now(w, s));
      RevisingIsEnough(w, s);
    } else {
      NothingHeldNothingEvaluated(w, s);
    }
  }

  /** The same over every run of any policy, whichever of its calls failed. */
  lemma EveryAbstention(w: Snapshot, e: EpisodeId, turns: seq<Turn>, reason: string, missing: set<Missing>)
    requires Known(w, e)
    ensures Inv(w, Start(e))
    ensures var s := Run(w, Start(e), turns);
            !Done(s) && Abstains(w, s, reason, missing) ==>
              (JustifiedAbstention(w, s) <==>
                && Holds(s.evidence, GetEpisode(e))
                && Adjudicate(Revised(w, s, s.hypotheses), w.cfg.explains).conclusion.None?)
  {
    StartInv(w, e);
    RunsAreTraced(w, Start(e), turns);
    var s := Run(w, Start(e), turns);
    if !Done(s) && Abstains(w, s, reason, missing) { AbstentionIsJustifiedIff(w, s, reason, missing); }
  }

  /** With the episode evidence held and nothing out of date, the guard is the promise. */
  lemma UpToDateAbstentions(w: Snapshot, s: InvState, reason: string, missing: set<Missing>)
    requires Inv(w, s) && AllTraced(w, s) && !Done(s)
    requires Holds(s.evidence, GetEpisode(s.episodeId))
    requires Known(w, s.episodeId) && forall h :: h in s.hypotheses ==> !Outdated(w, s, h)
    ensures Abstains(w, s, reason, missing) <==> JustifiedAbstention(w, s)
  {
    AbstainingOutcome(w, s, reason, missing);
    SubjectFromViews(w, s);
    SubjectIsFull(w, s);
    PendingMembers(w, s, Now(w, s));
    if Pending(w, s, Now(w, s)) == {} {
      RevisingIsEnough(w, s);
      NothingToRevise(w, s, s.hypotheses);
    }
  }

  // ---------------------------------------------------------------- where it is broken

  /** Without the episode evidence nothing is checked: an abstention on the first turn is
      accepted though the residual hypothesis, which always applies, was never evaluated. */
  lemma UnguardedAbstention(w: Snapshot, e: EpisodeId, reason: string)
    requires Known(w, e)
    ensures Inv(w, Start(e)) && AllTraced(w, Start(e))
    ensures Abstains(w, Start(e), reason, {})
    ensures !JustifiedAbstention(w, Start(e))
  {
    StartInv(w, e);
    NothingHeldNothingEvaluated(w, Start(e));
  }
}
