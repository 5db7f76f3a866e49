/** A run the playbook makes alone ends in exactly the exhaustive assessment: each step keeps
    every recorded evaluation exact, and the closing step reports what adjudicating all of
    them gives. */
module PlaybookExactness {
  import opened Seqs
  import opened Evidence
  import opened Hypotheses
  import opened Adjudication
  import opened Investigator
  import opened Protocol
  import opened Soundness
  import opened PlaybookProgress

  /** Under whichever links the recorded requirements are the right ones, the record is the
      evaluation on all the evidence. */
  ghost predicate ExactRecord(w: Snapshot, e: EpisodeId, h: HypState)
    requires Known(w, e)
  {
    forall links :: h.needed == RequirementSet(h.typ, FullSubject(w, e, links)) ==>
      h.eval == Evaluate(h.typ, FullSubject(w, e, links), w.views, w.cfg)
  }

  ghost predicate ExactHyp(w: Snapshot, e: EpisodeId, h: HypState)
    requires Known(w, e)
  {
    Applies(h.typ, FullSubject(w, e, {}), w.cfg) && (Evaluated(h) ==> ExactRecord(w, e, h))
  }

  ghost predicate Exact(w: Snapshot, s: InvState) {
    Inv(w, s) && Known(w, s.episodeId) && forall h :: h in s.hypotheses ==> ExactHyp(w, s.episodeId, h)
  }

  /** The playbook evaluates only with all the evidence at hand, so its records are exact. */
  lemma EvidencedRecordIsExact(w: Snapshot, s: InvState, h: HypState, subject: Subject)
    requires Inv(w, s) && SubjectOf(w, s) == Some(subject)
    requires MissingRequests(h.typ, subject, BagOf(s.evidence)) == []
    ensures Known(w, s.episodeId) && ExactRecord(w, s.episodeId, Judged(w, s, h, subject))
  {
    SubjectIsFull(w, s);
    BagIsPartOfViews(w, s.evidence);
    var bag, t := BagOf(s.evidence), h.typ;
    assert forall r :: r in Requirements(t, subject) && r !in bag ==> r in MissingRequests(t, subject, bag);
    MoreEvidenceKeepsEvaluation(t, subject, bag, w.views, w.cfg);
    forall links | RequirementSet(t, subject) == RequirementSet(t, FullSubject(w, s.episodeId, links))
      ensures Evaluate(t, subject, bag, w.cfg) == Evaluate(t, FullSubject(w, s.episodeId, links), w.views, w.cfg)
    {
      SameRequirementsSameEvaluation(t, subject, FullSubject(w, s.episodeId, links), w.views, w.cfg);
    }
  }

  // ---------------------------------------------------------------- steps keep exactness

  lemma SameCoreExact(w: Snapshot, t: InvState, n: InvState)
    requires Exact(w, t) && SameCore(t, n) && n.conclusion == t.conclusion
    ensures Exact(w, n)
  {
    SameCoreInv(w, t, n);
  }

  lemma {:induction false} AddedTypesOnly(hs: seq<HypState>, types: seq<Option<HypType>>, h: HypState)
    requires h in AddTypes(hs, types)
    ensures h in hs || (!Evaluated(h) && Some(h.typ) in types)
    decreases |types|
  {
    if types != [] {
      assert types == [types[0]] + types[1..];
      if types[0].None? || types[0].value in KnownTypes(hs) {
        AddedTypesOnly(hs, types[1..], h);
      } else {
        AddedTypesOnly(hs + [HypState(|hs| + 1, types[0].value, UNEVALUATED, [], -1, {})], types[1..], h);
      }
    }
  }

  lemma ProposingKeepsExact(w: Snapshot, s: InvState, ts: seq<HypType>)
    requires Exact(w, s) && !Done(s)
    requires forall t :: t in ts ==> Applies(t, FullSubject(w, s.episodeId, {}), w.cfg)
    ensures Exact(w, OnPropose(s, Somes(ts)).0)
  {
    ProposeKeepsInv(w, s, Somes(ts));
    forall h | h in AddTypes(s.hypotheses, Somes(ts))
      ensures ExactHyp(w, s.episodeId, h)
    {
      AddedTypesOnly(s.hypotheses, Somes(ts), h);
      if h !in s.hypotheses {
        var i :| 0 <= i < |ts| && Somes(ts)[i] == Some(h.typ);
      }
    }
  }

  lemma EvaluatingKeepsExact(w: Snapshot, s: InvState, subject: Subject, i: nat)
    requires Exact(w, s) && !Done(s) && SubjectOf(w, s) == Some(subject) && i < |s.hypotheses|
    requires MissingRequests(s.hypotheses[i].typ, subject, BagOf(s.evidence)) == []
    ensures Exact(w, Handle(w, s, EvaluateHyp(s.hypotheses[i].id), true).0)
  {
    EvaluateKeepsInv(w, s, s.hypotheses[i].id);
    EvaluationHandled(w, s, subject, i);
    EvidencedRecordIsExact(w, s, s.hypotheses[i], subject);
    var h := Judged(w, s, s.hypotheses[i], subject);
    ExactAfterUpdate(w, s.episodeId, s.hypotheses, i, h);
  }

  lemma ExactAfterUpdate(w: Snapshot, e: EpisodeId, hs: seq<HypState>, i: nat, h: HypState)
    requires Known(w, e) && i < |hs| && h.typ == hs[i].typ && ExactRecord(w, e, h)
    requires forall g :: g in hs ==> ExactHyp(w, e, g)
    ensures forall g :: g in hs[i := h] ==> ExactHyp(w, e, g)
  {
    assert ExactHyp(w, e, hs[i]);
    forall g | g in hs[i := h] ensures ExactHyp(w, e, g) {
      var j :| 0 <= j < |hs| && hs[i := h][j] == g;
    }
  }

  lemma SameHypothesesExact(w: Snapshot, s: InvState, t: InvState)
    requires Exact(w, s) && Inv(w, t) && t.hypotheses == s.hypotheses && t.episodeId == s.episodeId
    ensures Exact(w, t)
  {
  }

  lemma UnproposedApply(order: seq<HypType>, w: Snapshot, s: InvState, subject: Subject, t: HypType)
    requires Inv(w, s) && SubjectOf(w, s) == Some(subject) && t in Unproposed(order, w, s, subject)
    ensures Known(w, s.episodeId) && Applies(t, FullSubject(w, s.episodeId, {}), w.cfg)
  {
    SubjectIsFull(w, s);
    AppliesIgnoresLinks(t, subject, FullSubject(w, s.episodeId, {}), w.cfg);
  }

  /** The cases in which the playbook does not close the run. */
  ghost predicate Working(order: seq<HypType>, w: Snapshot, s: InvState) {
    var at := SubjectOf(w, s);
    at.Some? ==>
      || Unproposed(order, w, s, at.value) != []
      || LinkStep(s, BagOf(s.evidence)).Some?
      || NextCheck(order, s.hypotheses, at.value, BagOf(s.evidence)).Some?
  }

  lemma LinkStepKeepsHypotheses(w: Snapshot, s: InvState)
    requires Usable(w, s) && LinkStep(s, BagOf(s.evidence)).Some?
    ensures Handle(w, s, LinkStep(s, BagOf(s.evidence)).value, true).0.hypotheses == s.hypotheses
  {
  }

  lemma CheckKeepsExact(order: seq<HypType>, w: Snapshot, s: InvState, subject: Subject)
    requires Exact(w, s) && !Done(s) && SubjectOf(w, s) == Some(subject)
    requires NextCheck(order, s.hypotheses, subject, BagOf(s.evidence)).Some?
    ensures Exact(w, Handle(w, s, NextCheck(order, s.hypotheses, subject, BagOf(s.evidence)).value, true).0)
  {
    NextCheckMeaning(order, s.hypotheses, subject, BagOf(s.evidence));
    var action := NextCheck(order, s.hypotheses, subject, BagOf(s.evidence)).value;
    if action.CallTool? {
      HandleKeepsInv(w, s, CallTool(action.request), true);
      SameHypothesesExact(w, s, OnCall(w, s, action.request, true).0);
    } else {
      var i :| 0 <= i < |s.hypotheses| && action.id == s.hypotheses[i].id
               && MissingRequests(s.hypotheses[i].typ, subject, BagOf(s.evidence)) == [];
      EvaluatingKeepsExact(w, s, subject, i);
    }
  }

  lemma WorkingKeepsExact(order: seq<HypType>, w: Snapshot, s: InvState)
    requires Exact(w, s) && !Done(s) && Working(order, w, s)
    ensures Exact(w, Handle(w, s, PlaybookBy(order, w, s), true).0)
  {
    var at := SubjectOf(w, s);
    if at.None? {
      HandleKeepsInv(w, s, CallTool(GetEpisode(s.episodeId)), true);
      SameHypothesesExact(w, s, OnCall(w, s, GetEpisode(s.episodeId), true).0);
    } else if Unproposed(order, w, s, at.value) != [] {
      var ts := Unproposed(order, w, s, at.value);
      forall t | t in ts ensures Applies(t, FullSubject(w, s.episodeId, {}), w.cfg) {
        UnproposedApply(order, w, s, at.value, t);
      }
      ProposingKeepsExact(w, s, ts);
    } else if LinkStep(s, BagOf(s.evidence)).Some? {
      var action := LinkStep(s, BagOf(s.evidence)).value;
      HandleKeepsInv(w, s, action, true);
      LinkStepKeepsHypotheses(w, s);
      SameHypothesesExact(w, s, Handle(w, s, action, true).0);
    } else {
      CheckKeepsExact(order, w, s, at.value);
    }
  }

  // ---------------------------------------------------------------- the end of the run

  lemma SettledRecordIsExact(order: seq<HypType>, w: Snapshot, s: InvState, subject: Subject, h: HypState)
    requires Complete(order) && Exact(w, s) && SubjectOf(w, s) == Some(subject) && h in s.hypotheses
    requires NextCheck(order, s.hypotheses, subject, BagOf(s.evidence)).None?
    ensures Evaluated(h) && h.eval == Evaluate(h.typ, subject, w.views, w.cfg) && Applies(h.typ, subject, w.cfg)
  {
    SubjectIsFull(w, s);
    SettledHypothesis(order, w, s, subject, h);
    assert ExactHyp(w, s.episodeId, h);
    AppliesIgnoresLinks(h.typ, subject, FullSubject(w, s.episodeId, {}), w.cfg);
    forall r ensures r in h.needed <==> r in Requirements(h.typ, subject) {
      assert r in multiset(h.needed) <==> r in multiset(Requirements(h.typ, subject));
    }
    assert h.needed == RequirementSet(h.typ, subject);
  }

  lemma SettledMembers(order: seq<HypType>, w: Snapshot, s: InvState, subject: Subject, q: Assessed)
    requires Complete(order) && Exact(w, s) && SubjectOf(w, s) == Some(subject) && Settled(order, w, s, subject)
    ensures q in EvaluationsOf(s.hypotheses) <==> q in AssessAll(order, subject, w.views, w.cfg)
  {
    EvaluationMembers(s.hypotheses, q);
    AssessAllMembers(order, subject, w.views, w.cfg, q);
    if q in EvaluationsOf(s.hypotheses) {
      var h :| h in s.hypotheses && Evaluated(h) && q == Assessed(h.typ, h.eval);
      SettledRecordIsExact(order, w, s, subject, h);
    }
    if q in AssessAll(order, subject, w.views, w.cfg) {
      NothingUnproposed(order, w, s, subject, q.typ);
      var h :| h in s.hypotheses && h.typ == q.typ;
      SettledRecordIsExact(order, w, s, subject, h);
    }
  }

  lemma {:induction false} EvaluationsAreDistinct(hs: seq<HypState>)
    requires forall i, j :: 0 <= i < j < |hs| ==> hs[i].typ != hs[j].typ
    ensures NoDuplicates(EvaluationsOf(hs))
  {
    if hs != [] {
      EvaluationsAreDistinct(hs[1..]);
      var r := Assessed(hs[0].typ, hs[0].eval);
      EvaluationMembers(hs[1..], r);
      forall i | 0 <= i < |hs[1..]| ensures hs[1..][i].typ != r.typ { assert hs[1..][i] == hs[i + 1]; }
    }
  }

  lemma {:induction false} AssessmentsAreDistinct(order: seq<HypType>, subject: Subject, views: Bag, cfg: Config)
    requires subject.episode.tradeIds != [] && WellTyped(views) && NoDuplicates(order)
    ensures NoDuplicates(AssessAll(order, subject, views, cfg))
  {
    if order != [] {
      AssessmentsAreDistinct(order[1..], subject, views, cfg);
      AssessAllMembers(order[1..], subject, views, cfg,
                       Assessed(order[0], Evaluate(order[0], subject, views, cfg)));
      assert order[0] !in order[1..];
    }
  }

  lemma SameMembersSameMultiset(rs: seq<Assessed>, qs: seq<Assessed>)
    requires NoDuplicates(rs) && NoDuplicates(qs) && SameMembers(rs, qs)
    ensures multiset(rs) == multiset(qs)
  {
    SetOfNoDuplicates(rs);
    SetOfNoDuplicates(qs);
    assert (set r | r in rs) == (set r | r in qs);
  }

  lemma SettledResults(order: seq<HypType>, w: Snapshot, s: InvState, subject: Subject)
    requires Complete(order) && NoDuplicates(order)
    requires Exact(w, s) && SubjectOf(w, s) == Some(subject) && Settled(order, w, s, subject)
    ensures multiset(EvaluationsOf(s.hypotheses)) == multiset(AssessAll(order, subject, w.views, w.cfg))
  {
    var stored, full := EvaluationsOf(s.hypotheses), AssessAll(order, subject, w.views, w.cfg);
    forall q ensures q in stored <==> q in full { SettledMembers(order, w, s, subject, q); }
    EvaluationsAreDistinct(s.hypotheses);
    AssessmentsAreDistinct(order, subject, w.views, w.cfg);
    SameMembersSameMultiset(stored, full);
  }

  /** A settled exact state rules as the exhaustive assessment does. */
  lemma SettledRuling(order: seq<HypType>, w: Snapshot, s: InvState, subject: Subject)
    requires Complete(order) && NoDuplicates(order)
    requires Exact(w, s) && SubjectOf(w, s) == Some(subject) && Settled(order, w, s, subject)
    ensures Adjudged(w, s) == AssessmentBy(order, w, s.episodeId, Links(w, s))
  {
    SubjectIsFull(w, s);
    SettledResults(order, w, s, subject);
    AdjudicationIsOrderFree(EvaluationsOf(s.hypotheses), AssessAll(order, subject, w.views, w.cfg), w.cfg.explains);
  }

  /** What a finished run reports, against a ruling. */
  ghost predicate Reports(s: InvState, verdict: Outcome) {
    && s.conclusion == verdict.conclusion
    && (verdict.conclusion.None? ==>
          s.abstained && s.abstainReason == Some(ReasonText(verdict.reason)) && verdict.missing <= s.missing)
  }

  ghost predicate IsOrder(order: seq<HypType>) { Complete(order) && NoDuplicates(order) }

  lemma CatalogIsOrder()
    ensures IsOrder(CATALOG)
  {
    forall t: HypType ensures t in CATALOG { CatalogIsComplete(t); }
  }

  lemma PlaybookStepIsExact(order: seq<HypType>, w: Snapshot, s: InvState)
    requires IsOrder(order) && Exact(w, s) && !Done(s)
    ensures var t := Handle(w, s, PlaybookBy(order, w, s), true).0;
            if Working(order, w, s) then Exact(w, t) && !Done(t)
            else SameCore(s, t) && Reports(t, AssessmentBy(order, w, s.episodeId, Links(w, s)))
  {
    if Working(order, w, s) {
      WorkingKeepsExact(order, w, s);
      WorkingStaysOpen(order, w, s);
    } else {
      var subject := SubjectOf(w, s).value;
      ClosingIsAccepted(order, w, s, subject);
      SettledRuling(order, w, s, subject);
    }
  }

  lemma OnlyClosingActionsClose(w: Snapshot, s: InvState, action: Action)
    requires Inv(w, s) && !Done(s) && !action.Conclude? && !action.Abstain?
    ensures !Done(Handle(w, s, action, true).0)
  {
  }

  lemma WorkingDoesNotClose(order: seq<HypType>, w: Snapshot, s: InvState)
    requires Inv(w, s) && Working(order, w, s)
    ensures !PlaybookBy(order, w, s).Conclude? && !PlaybookBy(order, w, s).Abstain?
  {
    var at := SubjectOf(w, s);
    if at.Some? { NextCheckStaysOpen(order, w, s, at.value); }
  }

  lemma NextCheckStaysOpen(order: seq<HypType>, w: Snapshot, s: InvState, subject: Subject)
    requires Inv(w, s)
    ensures var next := NextCheck(order, s.hypotheses, subject, BagOf(s.evidence));
            next.Some? ==> !next.value.Conclude? && !next.value.Abstain?
  {
    NextCheckMeaning(order, s.hypotheses, subject, BagOf(s.evidence));
  }

  lemma WorkingStaysOpen(order: seq<HypType>, w: Snapshot, s: InvState)
    requires Inv(w, s) && !Done(s) && Working(order, w, s)
    ensures !Done(Handle(w, s, PlaybookBy(order, w, s), true).0)
  {
    WorkingDoesNotClose(order, w, s);
    OnlyClosingActionsClose(w, s, PlaybookBy(order, w, s));
  }

  lemma FinishReports(w: Snapshot, s: InvState)
    requires Exact(w, s) && !Done(s) && ToolsAnswer(w, s.episodeId)
    ensures Reports(Finish(w, s), FullAssessment(w, s.episodeId, Links(w, Finish(w, s))))
    decreases LeftOf(w, s).types, LeftOf(w, s).pairs, LeftOf(w, s).requests, LeftOf(w, s).stale, LeftOf(w, s).open
  {
    CatalogIsOrder();
    PlaybookStepIsExact(CATALOG, w, s);
    PlaybookProgresses(w, s);
    var t, n := Handle(w, s, Playbook(w, s), true).0, PlaybookStep(w, s);
    NextIsHandled(w, s, Playbook(w, s), t);
    if Working(CATALOG, w, s) {
      SameCoreExact(w, t, n);
      FinishReports(w, n);
    } else {
      assert Finish(w, n) == n;
      assert Links(w, n) == Links(w, s);
    }
  }

  /** Main result for the playbook. Started afresh with tools that answer, it ends by reporting
      exactly the exhaustive assessment of the episode under the final links; if it verified no
      new link, that is the assessment of the snapshot itself. */
  lemma PlaybookEqualsAssessment(w: Snapshot, e: EpisodeId)
    requires ToolsAnswer(w, e)
    ensures Inv(w, Start(e))
    ensures var f := Finish(w, Start(e));
            && Done(f)
            && Reports(f, FullAssessment(w, e, Links(w, f)))
            && (VerifiedPairs(f.proposals) <= w.links ==> Reports(f, FullAssessment(w, e, w.links)))
  {
    StartInv(w, e);
    FinishReports(w, Start(e));
    WithoutNewLinks(w, Finish(w, Start(e)));
  }

  lemma WithoutNewLinks(w: Snapshot, f: InvState)
    ensures VerifiedPairs(f.proposals) <= w.links ==> Links(w, f) == w.links
  {
  }
}
