/** Safety over whole runs: no policy gets a conclusion full evidence would not support. */
module Soundness {
  import opened Seqs
  import opened Evidence
  import opened Hypotheses
  import opened Adjudication
  import opened Investigator
  import opened Protocol

  /** One turn of an arbitrary policy, and whether the executor let its tool call through. */
  datatype Turn = Turn(action: Action, ok: bool)

  ghost function Next(w: Snapshot, s: InvState, turn: Turn): (r: InvState)
    requires Inv(w, s) && !Done(s)
    ensures Inv(w, r) && r.episodeId == s.episodeId
  {
    ApplyKeepsInv(w, s, turn.action, turn.ok);
    Apply(w, s, turn.action, turn.ok).0
  }

  /** The runtime's loop over the turns of any policy: it stops once the run is done. */
  ghost function Run(w: Snapshot, s: InvState, turns: seq<Turn>): (r: InvState)
    requires Inv(w, s)
    ensures Inv(w, r) && r.episodeId == s.episodeId
    decreases |turns|
  {
    if turns == [] || Done(s) then s else Run(w, Next(w, s, turns[0]), turns[1..])
  }

  /** Every applicable hypothesis of `order`, evaluated on all the evidence there is. */
  ghost function AssessAll(order: seq<HypType>, subject: Subject, views: Bag, cfg: Config): seq<Assessed>
    requires subject.episode.tradeIds != [] && WellTyped(views)
  {
    if order == [] then [] else AssessOne(order[0], subject, views, cfg) + AssessAll(order[1..], subject, views, cfg)
  }

  ghost function AssessOne(t: HypType, subject: Subject, views: Bag, cfg: Config): seq<Assessed>
    requires subject.episode.tradeIds != [] && WellTyped(views)
  {
    if Applies(t, subject, cfg) then [Assessed(t, Evaluate(t, subject, views, cfg))] else []
  }

  ghost predicate Known(w: Snapshot, e: EpisodeId) { WellTyped(w.views) && GetEpisode(e) in w.views }

  ghost function FullSubject(w: Snapshot, e: EpisodeId, links: set<Pair>): (s: Subject)
    requires Known(w, e)
    ensures s.episode.tradeIds != []
  {
    assert Fits(GetEpisode(e), w.views[GetEpisode(e)]);
    Subject(w.views[GetEpisode(e)].episode, links, w.unavailable)
  }

  /** The exhaustive assessment of an episode under the given verified links. */
  ghost function FullAssessment(w: Snapshot, e: EpisodeId, links: set<Pair>): Outcome
    requires Known(w, e)
  {
    AssessmentBy(CATALOG, w, e, links)
  }

  ghost function AssessmentBy(order: seq<HypType>, w: Snapshot, e: EpisodeId, links: set<Pair>): Outcome
    requires Known(w, e)
  {
    Adjudicate(AssessAll(order, FullSubject(w, e, links), w.views, w.cfg), w.cfg.explains)
  }

  lemma {:induction false} AssessAllMembers(order: seq<HypType>, subject: Subject, views: Bag, cfg: Config, q: Assessed)
    requires subject.episode.tradeIds != [] && WellTyped(views)
    ensures q in AssessAll(order, subject, views, cfg) <==>
      q.typ in order && Applies(q.typ, subject, cfg) && q.eval == Evaluate(q.typ, subject, views, cfg)
  {
    if order != [] {
      AssessAllMembers(order[1..], subject, views, cfg, q);
      assert order == [order[0]] + order[1..];
    }
  }

  lemma {:induction false} EvaluationMembers(hs: seq<HypState>, r: Assessed)
    ensures r in EvaluationsOf(hs) <==> exists h :: h in hs && Evaluated(h) && r == Assessed(h.typ, h.eval)
  {
    if hs != [] {
      EvaluationMembers(hs[1..], r);
      assert hs == [hs[0]] + hs[1..];
    }
  }

  lemma CatalogIsComplete(t: HypType)
    ensures t in CATALOG
  {
    RankedMembers([Assessed(t, UNEVALUATED)], Assessed(t, UNEVALUATED));
    RankedByMembers(CATALOG, [Assessed(t, UNEVALUATED)], Assessed(t, UNEVALUATED));
  }

  lemma FullMembers(subject: Subject, views: Bag, cfg: Config, q: Assessed)
    requires subject.episode.tradeIds != [] && WellTyped(views)
    ensures q in AssessAll(CATALOG, subject, views, cfg) <==>
      Applies(q.typ, subject, cfg) && q.eval == Evaluate(q.typ, subject, views, cfg)
  {
    AssessAllMembers(CATALOG, subject, views, cfg, q);
    CatalogIsComplete(q.typ);
  }

  lemma RecordAgrees(w: Snapshot, s: InvState, subject: Subject, r: Assessed)
    requires Inv(w, s) && SubjectOf(w, s) == Some(subject) && r in EvaluationsOf(s.hypotheses)
    ensures Definite(r.eval) ==> SameVerdict(r.eval, Evaluate(r.typ, subject, w.views, w.cfg))
    ensures r.eval.status != Contradicted ==> Applies(r.typ, subject, w.cfg)
    ensures r.eval.status != Proposed
  {
    EvaluationMembers(s.hypotheses, r);
  }

  lemma AssessedHere(w: Snapshot, s: InvState, subject: Subject, t: HypType) returns (r: Assessed)
    requires Inv(w, s) && SubjectOf(w, s) == Some(subject) && Pending(w, s, subject) == {}
    requires Applies(t, subject, w.cfg)
    ensures r in EvaluationsOf(s.hypotheses) && r.typ == t && r.eval.status != Proposed
  {
    CatalogIsComplete(t);
    assert t !in Pending(w, s, subject);
    assert t in EvaluatedTypes(s.hypotheses);
    var h :| h in s.hypotheses && Evaluated(h) && h.typ == t;
    r := Assessed(h.typ, h.eval);
    EvaluationMembers(s.hypotheses, r);
    RecordAgrees(w, s, subject, r);
  }

  /** What the run recorded is settled by the full assessment under its final links. */
  lemma RecordsSettle(w: Snapshot, s: InvState, subject: Subject)
    requires Inv(w, s) && SubjectOf(w, s) == Some(subject) && Pending(w, s, subject) == {}
    ensures Settles(EvaluationsOf(s.hypotheses), AssessAll(CATALOG, subject, w.views, w.cfg))
  {
    var stored, full := EvaluationsOf(s.hypotheses), AssessAll(CATALOG, subject, w.views, w.cfg);
    forall r, q | r in stored && q in full && r.typ == q.typ && Definite(r.eval)
      ensures SameVerdict(r.eval, q.eval)
    {
      FullMembers(subject, w.views, w.cfg, q);
      RecordAgrees(w, s, subject, r);
    }
    forall q | q in full ensures exists r :: r in stored && r.typ == q.typ && r.eval.status != Proposed {
      FullMembers(subject, w.views, w.cfg, q);
      var r := AssessedHere(w, s, subject, q.typ);
    }
    forall r | r in stored && r.eval.status != Contradicted ensures exists q :: q in full && q.typ == r.typ {
      RecordAgrees(w, s, subject, r);
      var q := Assessed(r.typ, Evaluate(r.typ, subject, w.views, w.cfg));
      FullMembers(subject, w.views, w.cfg, q);
    }
  }

  lemma SubjectIsFull(w: Snapshot, s: InvState)
    requires Inv(w, s) && SubjectOf(w, s).Some?
    ensures Known(w, s.episodeId)
    ensures SubjectOf(w, s).value == FullSubject(w, s.episodeId, Links(w, s))
  {
    SubjectFromViews(w, s);
  }

  lemma ConcludedIsSound(w: Snapshot, s: InvState)
    requires Inv(w, s) && s.conclusion.Some?
    ensures Known(w, s.episodeId)
    ensures var full := FullAssessment(w, s.episodeId, Links(w, s)).conclusion;
            && full.Some? && ClassOf(full.value) == ClassOf(s.conclusion.value)
            && (ClassOf(s.conclusion.value) == Benign ==> full == s.conclusion)
  {
    SubjectIsFull(w, s);
    var subject := SubjectOf(w, s).value;
    RecordsSettle(w, s, subject);
    ConclusionsAreSound(EvaluationsOf(s.hypotheses), AssessAll(CATALOG, subject, w.views, w.cfg), w.cfg.explains);
  }

  /** Main safety theorem. Whatever the policy did and whichever calls failed, an accepted
      conclusion has the class of the full assessment under the final verified links, and a
      benign one is exactly its conclusion. */
  lemma EveryConclusionIsSound(w: Snapshot, e: EpisodeId, turns: seq<Turn>)
    requires WellTyped(w.views)
    ensures Inv(w, Start(e))
    ensures var s := Run(w, Start(e), turns);
            s.conclusion.Some? ==>
              && Known(w, e)
              && var full := FullAssessment(w, e, Links(w, s)).conclusion;
              && full.Some? && ClassOf(full.value) == ClassOf(s.conclusion.value)
              && (ClassOf(s.conclusion.value) == Benign ==> full == s.conclusion)
  {
    StartInv(w, e);
    var s := Run(w, Start(e), turns);
    if s.conclusion.Some? { ConcludedIsSound(w, s); }
  }

  /** A benign conclusion also fixes the deviation split: no deviation is left unexplained or
      waiting for evidence, and those explained are the ones full evidence explains. */
  lemma BenignLeavesNothingOpen(w: Snapshot, s: InvState)
    requires Inv(w, s) && s.conclusion.Some? && ClassOf(s.conclusion.value) == Benign
    ensures Known(w, s.episodeId)
    ensures NoneBlocking(EvaluationsOf(s.hypotheses))
    ensures Adjudged(w, s).split == FullAssessment(w, s.episodeId, Links(w, s)).split
    ensures Adjudged(w, s).split.unexplained == {} && Adjudged(w, s).split.pending == {}
  {
    SubjectIsFull(w, s);
    var subject, stored := SubjectOf(w, s).value, EvaluationsOf(s.hypotheses);
    ConclusionClass(stored, w.cfg.explains);
    AdjudicationMeaning(stored, w.cfg.explains);
    RecordsSettle(w, s, subject);
    SettledConclusion(stored, AssessAll(CATALOG, subject, w.views, w.cfg), w.cfg.explains);
    assert Covered(stored, Insufficient, w.cfg.explains) == {};
  }

  lemma PendingMembers(w: Snapshot, s: InvState, subject: Subject)
    ensures Pending(w, s, subject) == {} <==>
      forall t :: Applies(t, subject, w.cfg) ==> t in EvaluatedTypes(s.hypotheses)
  {
    forall t ensures t in Pending(w, s, subject) <==> Applies(t, subject, w.cfg) && t !in EvaluatedTypes(s.hypotheses) {
      CatalogIsComplete(t);
    }
  }
}
