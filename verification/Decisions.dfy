/** The gate between investigation and human review, and the cohort former. */
module Decisions {
  import opened Seqs
  import opened Evidence
  import opened Hypotheses
  import opened Adjudication
  import Rulings
  import opened Investigator
  import opened Protocol
  import opened Soundness

  type Desk = string

  /** Case ids, numbered in their string order. */
  type CaseId = nat

  /** The parts of an investigation result that a decision reads. */
  datatype Findings = Findings(
    conclusion: Option<HypType>,
    abstainReason: Option<string>,
    verifiedLink: bool,
    historyAdverse: bool,
    unexplained: set<Signal>,
    pending: set<Signal>)

  /** `finalize`: adjudication is repeated on what the finished state recorded. */
  function Finalize(w: Snapshot, s: InvState): Findings {
    Findings(
      s.conclusion,
      if s.conclusion.Some? then None else if s.abstainReason.Some? then s.abstainReason else Some("NO_CONCLUSION"),
      VerifiedPairs(s.proposals) != {},
      exists h :: h in s.hypotheses && h.typ == RecurringBenignContext && h.eval.status == Contradicted,
      Adjudged(w, s).split.unexplained,
      Adjudged(w, s).split.pending)
  }

  /** What a decision gets to read, in terms of the finished state: a verified link exactly when a
      proposal is verified, adverse history exactly when the context record is ruled out, a reason
      exactly without a conclusion, and each deviation as the records leave it. */
  lemma FinalizeMeaning(w: Snapshot, s: InvState, x: Signal)
    ensures var f, rs := Finalize(w, s), EvaluationsOf(s.hypotheses);
            && f.conclusion == s.conclusion
            && f.abstainReason == (match s.conclusion
                                   case Some(_) => None
                                   case None => match s.abstainReason case Some(text) => Some(text) case None => Some("NO_CONCLUSION"))
            && (f.verifiedLink <==> exists p :: p in s.proposals && p.verified)
            && (f.historyAdverse <==> exists h :: h in s.hypotheses && h.typ == RecurringBenignContext && h.eval.status == Contradicted)
            && (x in f.unexplained <==>
                  Rulings.IsDeviating(rs, x) && !Rulings.IsCovered(rs, Supported, w.cfg.explains, x) && !Rulings.IsCovered(rs, Insufficient, w.cfg.explains, x))
            && (x in f.pending <==>
                  Rulings.IsDeviating(rs, x) && !Rulings.IsCovered(rs, Supported, w.cfg.explains, x) && Rulings.IsCovered(rs, Insufficient, w.cfg.explains, x))
  {
    Rulings.SplitMeaning(EvaluationsOf(s.hypotheses), w.cfg.explains, x);
    LinksMeaning(s.proposals);
  }

  lemma LinksMeaning(proposals: seq<LinkProposal>)
    ensures VerifiedPairs(proposals) != {} <==> exists p :: p in proposals && p.verified
  {
    if p :| p in proposals && p.verified { assert (p.a, p.b) in VerifiedPairs(proposals); }
  }

  datatype Scope = Scope(hypothesis: HypType, desk: Desk)

  predicate PolicyAllows(policy: seq<Scope>, t: HypType, desk: Desk) {
    exists s :: s in policy && s.hypothesis == t && (s.desk == "*" || s.desk == desk)
  }

  /** Scopes add up, in any order, and each allows its hypothesis on its own desk, or on every desk
      when it names none. */
  lemma PolicyMeaning(policy: seq<Scope>, more: seq<Scope>, s: Scope, t: HypType, desk: Desk)
    ensures !PolicyAllows([], t, desk)
    ensures PolicyAllows([s], t, desk) <==> s.hypothesis == t && desk in {s.desk} + if s.desk == "*" then {desk} else {}
    ensures PolicyAllows(policy + more, t, desk) <==> PolicyAllows(policy, t, desk) || PolicyAllows(more, t, desk)
  {
    assert s in [s];
  }

  datatype CaseReason =
    | AgentUnavailable
    | AbstainedFor(text: string)
    | UnexplainedDeviation(signals: set<Signal>)
    | AnomalySupported(hypothesis: HypType)
    | BulkPolicyNotEligible(hypothesis: HypType)
    | UnconfirmedAgentLink
    | AdverseHistory
    | Override(name: string)
    | HighAttentionScore
    | Degraded(name: string)
    | DataQuality(name: string)
    | RunBlock(name: string)
    | ControlSample
    | CohortBelowMinSize

  datatype Recommendation = IndividualReview | EscalationRecommended | ProposedBulk

  /** Everything a decision reads besides the investigation. `residualRank` and
      `escalationRank` are ranks in the band order; `fraction` is the case's sampling hash. */
  datatype Setting = Setting(
    desk: Desk,
    qualityFlags: seq<string>,
    overrides: seq<string>,
    highAttention: bool,
    degraded: seq<string>,
    runBlocks: seq<string>,
    residualRank: nat,
    escalationRank: nat,
    blockingDegraded: set<string>,
    blockingQuality: set<string>,
    controlRate: real,
    fraction: real,
    policy: seq<Scope>)

  datatype Case = Case(
    id: CaseId,
    desk: Desk,
    recommendation: Recommendation,
    reasons: seq<CaseReason>,
    conclusion: Option<HypType>,
    controlSample: bool,
    cohort: Option<seq<CaseId>>)

  /** When nothing stands against bulk review, stated without reference to the reason list. */
  predicate Unobjected(f: Option<Findings>, ctx: Setting) {
    && f.Some? && f.value.conclusion.Some?
    && ClassOf(f.value.conclusion.value) == Benign
    && PolicyAllows(ctx.policy, f.value.conclusion.value, ctx.desk)
    && !f.value.verifiedLink && !f.value.historyAdverse
    && ctx.overrides == [] && !ctx.highAttention && ctx.runBlocks == []
    && (forall d :: d in ctx.degraded ==> d !in ctx.blockingDegraded)
    && (forall q :: q in ctx.qualityFlags ==> q !in ctx.blockingQuality)
  }

  /** The protocol concludes anomalous or benign hypotheses only. */
  predicate Concludable(f: Findings) {
    && (f.conclusion.None? ==> f.abstainReason.Some?)
    && (f.conclusion.Some? ==> ClassOf(f.conclusion.value) != Hypotheses.Context)
  }

  /** What an investigation itself says against bulk review. */
  predicate FromFindings(r: CaseReason, f: Option<Findings>, ctx: Setting) {
    match r
    case AgentUnavailable => f.None?
    case AbstainedFor(text) => f.Some? && f.value.conclusion.None? && f.value.abstainReason == Some(text)
    case UnexplainedDeviation(signals) =>
      f.Some? && f.value.conclusion.Some? && ClassOf(f.value.conclusion.value) == Anomalous
      && Residual(f.value.conclusion.value) && signals == f.value.unexplained
    case AnomalySupported(t) => f.Some? && f.value.conclusion == Some(t) && ClassOf(t) == Anomalous && !Residual(t)
    case BulkPolicyNotEligible(t) =>
      f.Some? && f.value.conclusion == Some(t) && ClassOf(t) != Anomalous && !PolicyAllows(ctx.policy, t, ctx.desk)
    case UnconfirmedAgentLink => f.Some? && f.value.verifiedLink
    case AdverseHistory => f.Some? && f.value.historyAdverse
    case _ => false
  }

  /** What the case's surroundings say against it. */
  predicate FromSetting(r: CaseReason, ctx: Setting) {
    match r
    case Override(n) => n in ctx.overrides
    case HighAttentionScore => ctx.highAttention
    case Degraded(n) => n in ctx.degraded && n in ctx.blockingDegraded
    case DataQuality(n) => n in ctx.qualityFlags && n in ctx.blockingQuality
    case RunBlock(n) => n in ctx.runBlocks
    case _ => false
  }

  function Tagged(names: seq<string>, blocking: set<string>, tag: string -> CaseReason): seq<CaseReason> {
    if names == [] then []
    else (if names[0] in blocking then [tag(names[0])] else []) + Tagged(names[1..], blocking, tag)
  }

  lemma {:induction false} TaggedMembers(names: seq<string>, blocking: set<string>, tag: string -> CaseReason, r: CaseReason)
    ensures r in Tagged(names, blocking, tag) <==> exists n :: n in names && n in blocking && r == tag(n)
  {
    if names != [] {
      TaggedMembers(names[1..], blocking, tag, r);
      assert names == [names[0]] + names[1..];
    }
  }

  function All(names: seq<string>): set<string> { set n | n in names }

  /** The reasons the investigation gives, and what it recommends by itself. */
  method WeighFindings(f: Option<Findings>, ctx: Setting) returns (reasons: seq<CaseReason>, recommendation: Recommendation)
    requires f.Some? ==> Concludable(f.value)
    ensures forall r :: r in reasons <==> FromFindings(r, f, ctx)
    ensures recommendation == EscalationRecommended || recommendation == IndividualReview
    ensures recommendation == EscalationRecommended <==>
      && f.Some? && f.value.conclusion.Some? && ClassOf(f.value.conclusion.value) == Anomalous
      && (Residual(f.value.conclusion.value) ==> ctx.residualRank >= ctx.escalationRank)
  {
    reasons, recommendation := [], IndividualReview;
    match f {
      case None => reasons := reasons + [AgentUnavailable];
      case Some(x) =>
        match x.conclusion {
          case None => reasons := reasons + [AbstainedFor(x.abstainReason.value)];
          case Some(t) =>
            if ClassOf(t) == Anomalous && Residual(t) {
              reasons := reasons + [UnexplainedDeviation(x.unexplained)];
              if ctx.residualRank >= ctx.escalationRank { recommendation := EscalationRecommended; }
            } else if ClassOf(t) == Anomalous {
              recommendation := EscalationRecommended;
              reasons := reasons + [AnomalySupported(t)];
            } else if !PolicyAllows(ctx.policy, t, ctx.desk) {
              reasons := reasons + [BulkPolicyNotEligible(t)];
            }
        }
        if x.verifiedLink { reasons := reasons + [UnconfirmedAgentLink]; }
        if x.historyAdverse { reasons := reasons + [AdverseHistory]; }
    }
  }

  /** The reasons the case's surroundings give. */
  method WeighSetting(ctx: Setting) returns (reasons: seq<CaseReason>)
    ensures forall r :: r in reasons <==> FromSetting(r, ctx)
  {
    var overridden := Tagged(ctx.overrides, All(ctx.overrides), n => Override(n));
    var degraded := Tagged(ctx.degraded, ctx.blockingDegraded, n => Degraded(n));
    var tainted := Tagged(ctx.qualityFlags, ctx.blockingQuality, n => DataQuality(n));
    var blocked := Tagged(ctx.runBlocks, All(ctx.runBlocks), n => RunBlock(n));
    var scored := if ctx.highAttention then [HighAttentionScore] else [];
    reasons := overridden + scored + degraded + tainted + blocked;
    forall r ensures r in reasons <==> FromSetting(r, ctx) {
      TaggedMembers(ctx.overrides, All(ctx.overrides), n => Override(n), r);
      TaggedMembers(ctx.degraded, ctx.blockingDegraded, n => Degraded(n), r);
      TaggedMembers(ctx.qualityFlags, ctx.blockingQuality, n => DataQuality(n), r);
      TaggedMembers(ctx.runBlocks, All(ctx.runBlocks), n => RunBlock(n), r);
    }
  }

  /** Nothing stands against a case exactly when no reason does. */
  lemma UnobjectedMeaning(f: Option<Findings>, ctx: Setting)
    requires f.Some? ==> Concludable(f.value)
    ensures Unobjected(f, ctx) <==> forall r :: !FromFindings(r, f, ctx) && !FromSetting(r, ctx)
  {
    if forall r :: !FromFindings(r, f, ctx) && !FromSetting(r, ctx) {
      assert !FromFindings(AgentUnavailable, f, ctx) && !FromSetting(HighAttentionScore, ctx);
      NoFindingObjects(f, ctx);
      NoSettingObjects(ctx);
    }
  }

  lemma NoFindingObjects(f: Option<Findings>, ctx: Setting)
    requires (f.Some? ==> Concludable(f.value)) && forall r :: !FromFindings(r, f, ctx)
    ensures f.Some? && f.value.conclusion.Some? && ClassOf(f.value.conclusion.value) == Benign
    ensures PolicyAllows(ctx.policy, f.value.conclusion.value, ctx.desk) && !f.value.verifiedLink && !f.value.historyAdverse
  {
    assert !FromFindings(AgentUnavailable, f, ctx) && !FromFindings(UnconfirmedAgentLink, f, ctx) && !FromFindings(AdverseHistory, f, ctx);
    assert f.value.abstainReason.Some? ==> !FromFindings(AbstainedFor(f.value.abstainReason.value), f, ctx);
    var t := f.value.conclusion.value;
    assert !FromFindings(UnexplainedDeviation(f.value.unexplained), f, ctx) && !FromFindings(AnomalySupported(t), f, ctx);
    assert !FromFindings(BulkPolicyNotEligible(t), f, ctx);
  }

  lemma NothingListed(names: seq<string>)
    ensures names == [] <==> forall n :: n !in names
  {
    if names != [] { assert names[0] in names; }
  }

  lemma NoSettingObjects(ctx: Setting)
    requires forall r :: !FromSetting(r, ctx)
    ensures ctx.overrides == [] && !ctx.highAttention && ctx.runBlocks == []
    ensures forall d :: d in ctx.degraded ==> d !in ctx.blockingDegraded
    ensures forall q :: q in ctx.qualityFlags ==> q !in ctx.blockingQuality
  {
    assert !FromSetting(HighAttentionScore, ctx);
    NothingListed(ctx.overrides);
    NothingListed(ctx.runBlocks);
    forall n ensures n !in ctx.overrides && n !in ctx.runBlocks {
      assert !FromSetting(Override(n), ctx) && !FromSetting(RunBlock(n), ctx);
    }
    forall d | d in ctx.degraded ensures d !in ctx.blockingDegraded { assert !FromSetting(Degraded(d), ctx); }
    forall q | q in ctx.qualityFlags ensures q !in ctx.blockingQuality { assert !FromSetting(DataQuality(q), ctx); }
  }

  /** What a case carries over, and when it is proposed for bulk review. */
  ghost predicate Decided(c: Case, f: Option<Findings>, ctx: Setting) {
    && c.desk == ctx.desk && c.cohort.None?
    && c.conclusion == (if f.Some? then f.value.conclusion else None)
    && (c.recommendation == ProposedBulk <==> Unobjected(f, ctx) && ctx.fraction >= ctx.controlRate)
  }

  /** `decide_case`: collect every reason against bulk review, then recommend. The reasons are
      exactly those that hold; a case is proposed for bulk exactly when nothing stands against
      it and it is not sampled, and only a verified anomaly is escalated. */
  method DecideCase(id: CaseId, f: Option<Findings>, ctx: Setting) returns (c: Case)
    requires f.Some? ==> Concludable(f.value)
    ensures c.id == id && c.desk == ctx.desk && c.cohort.None? && Decided(c, f, ctx)
    ensures c.conclusion == if f.Some? then f.value.conclusion else None
    ensures forall r :: r in c.reasons <==> FromFindings(r, f, ctx) || FromSetting(r, ctx) || (r == ControlSample && c.controlSample)
    ensures c.recommendation == ProposedBulk <==> Unobjected(f, ctx) && ctx.fraction >= ctx.controlRate
    ensures c.controlSample <==> Unobjected(f, ctx) && ctx.fraction < ctx.controlRate
    ensures c.recommendation == EscalationRecommended <==>
      && c.conclusion.Some? && ClassOf(c.conclusion.value) == Anomalous
      && (Residual(c.conclusion.value) ==> ctx.residualRank >= ctx.escalationRank)
  {
    var found, recommendation := WeighFindings(f, ctx);
    var around := WeighSetting(ctx);
    var reasons := found + around;
    UnobjectedMeaning(f, ctx);
    assert reasons == [] <==> Unobjected(f, ctx) by {
      if reasons != [] { assert reasons[0] in reasons; }
    }
    var control := false;
    var benign := f.Some? && f.value.conclusion.Some? && ClassOf(f.value.conclusion.value) == Benign;
    if recommendation != EscalationRecommended && benign && reasons == [] {
      if ctx.fraction < ctx.controlRate {
        control := true;
        reasons := reasons + [ControlSample];
      } else {
        recommendation := ProposedBulk;
      }
    }
    var conclusion := if f.Some? then f.value.conclusion else None;
    c := Case(id, ctx.desk, recommendation, reasons, conclusion, control, None);
  }

  // ---------------------------------------------------------------- end to end

  lemma FinishedRunsAreConcludable(w: Snapshot, s: InvState)
    requires Inv(w, s) && Done(s)
    ensures Concludable(Finalize(w, s))
  {
    if s.conclusion.Some? { ConclusionClass(EvaluationsOf(s.hypotheses), w.cfg.explains); }
  }

  /** Whatever policy drove the investigation, a case with nothing against bulk review carries
      exactly the conclusion of the exhaustive assessment of the unchanged snapshot, which
      leaves no deviation unexplained or pending. */
  lemma BulkAgreesWithAssessment(w: Snapshot, s: InvState, ctx: Setting)
    requires Inv(w, s) && Done(s) && Unobjected(Some(Finalize(w, s)), ctx)
    ensures Known(w, s.episodeId)
    ensures FullAssessment(w, s.episodeId, w.links).conclusion == s.conclusion
    ensures FullAssessment(w, s.episodeId, w.links).split.unexplained == {}
    ensures FullAssessment(w, s.episodeId, w.links).split.pending == {}
    ensures forall h :: h in s.hypotheses && Evaluated(h) && ClassOf(h.typ) != Hypotheses.Context ==> h.eval.status != Insufficient
  {
    assert Links(w, s) == w.links;
    ConcludedIsSound(w, s);
    BenignLeavesNothingOpen(w, s);
    forall h | h in s.hypotheses && Evaluated(h) && ClassOf(h.typ) != Hypotheses.Context
      ensures h.eval.status != Insufficient
    {
      EvaluationMembers(s.hypotheses, Assessed(h.typ, h.eval));
      assert !Blocking(Assessed(h.typ, h.eval));
    }
  }

  // ---------------------------------------------------------------- cohorts

  datatype Cohort = Cohort(hypothesis: HypType, desk: Desk, ids: seq<CaseId>)

  function Flatten(chunks: seq<seq<CaseId>>): seq<CaseId> {
    if chunks == [] then [] else Flatten(chunks[..|chunks| - 1]) + chunks[|chunks| - 1]
  }

  lemma FlattenLast(chunks: seq<seq<CaseId>>, chunk: seq<CaseId>)
    ensures Flatten(chunks + [chunk]) == Flatten(chunks) + chunk
  {
    assert (chunks + [chunk])[..|chunks|] == chunks;
  }

  /** The members before `start` are cut or left over. */
  ghost predicate CutUpTo(members: seq<CaseId>, start: int, kept: seq<seq<CaseId>>, left: seq<CaseId>, minSize: int, maxSize: int) {
    && 0 <= start <= |members|
    && Flatten(kept) + left == members[..start]
    && (if minSize <= maxSize then left == [] || (|left| < minSize && start == |members|) else kept == [])
    && Cut(kept, minSize, maxSize, start < |members|)
  }

  lemma ChunkKept(members: seq<CaseId>, start: int, stop: int, kept: seq<seq<CaseId>>, left: seq<CaseId>, minSize: int, maxSize: int)
    requires CutUpTo(members, start, kept, left, minSize, maxSize) && start < |members| && maxSize >= 1
    requires stop == (if start + maxSize <= |members| then start + maxSize else |members|) && stop - start >= minSize
    ensures CutUpTo(members, stop, kept + [members[start..stop]], left, minSize, maxSize)
  {
    var chunk := members[start..stop];
    SliceStep(members, start, stop);
    FlattenLast(kept, chunk);
    CutAgain(kept, chunk, minSize, maxSize, stop < |members|);
  }

  lemma ChunkLeft(members: seq<CaseId>, start: int, stop: int, kept: seq<seq<CaseId>>, left: seq<CaseId>, minSize: int, maxSize: int)
    requires CutUpTo(members, start, kept, left, minSize, maxSize) && start < |members| && maxSize >= 1
    requires stop == (if start + maxSize <= |members| then start + maxSize else |members|) && stop - start < minSize
    ensures CutUpTo(members, stop, kept, left + members[start..stop], minSize, maxSize)
  {
    SliceStep(members, start, stop);
    Associate(Flatten(kept), left, members[start..stop]);
  }

  /** Cut sorted members into chunks of `maxSize`; chunks below `minSize` are left over. With
      `minSize <= maxSize` only the tail can be left over; otherwise everything is. */
  method CutChunks(members: seq<CaseId>, minSize: int, maxSize: int) returns (kept: seq<seq<CaseId>>, left: seq<CaseId>)
    requires maxSize >= 1
    ensures Flatten(kept) + left == members
    ensures if minSize <= maxSize then left == [] || |left| < minSize else kept == []
    ensures forall i :: 0 <= i < |kept| ==> LegalSize(kept[i], minSize, maxSize)
    ensures forall i :: 0 <= i < |kept| - 1 ==> |kept[i]| == maxSize
  {
    kept, left := [], [];
    var start := 0;
    while start < |members|
      invariant CutUpTo(members, start, kept, left, minSize, maxSize)
    {
      var stop := if start + maxSize <= |members| then start + maxSize else |members|;
      var chunk := members[start..stop];
      if |chunk| < minSize {
        ChunkLeft(members, start, stop, kept, left, minSize, maxSize);
        left := left + chunk;
      } else {
        ChunkKept(members, start, stop, kept, left, minSize, maxSize);
        kept := kept + [chunk];
      }
      start := stop;
    }
    assert members[..|members|] == members;
  }

  /** Legal chunks, all full but perhaps the last; while members remain, that one too. */
  ghost predicate Cut(kept: seq<seq<CaseId>>, minSize: int, maxSize: int, more: bool) {
    && (forall i :: 0 <= i < |kept| ==> LegalSize(kept[i], minSize, maxSize))
    && (forall i :: 0 <= i < |kept| - (if more then 0 else 1) ==> |kept[i]| == maxSize)
  }

  lemma CutAgain(kept: seq<seq<CaseId>>, chunk: seq<CaseId>, minSize: int, maxSize: int, more: bool)
    requires Cut(kept, minSize, maxSize, true) && LegalSize(chunk, minSize, maxSize) && (more ==> |chunk| == maxSize)
    ensures Cut(kept + [chunk], minSize, maxSize, more)
  {
  }

  predicate LegalSize(chunk: seq<CaseId>, minSize: int, maxSize: int) { chunk != [] && minSize <= |chunk| <= maxSize }

  lemma SliceStep(xs: seq<CaseId>, i: nat, j: nat)
    requires i <= j <= |xs|
    ensures xs[..j] == xs[..i] + xs[i..j]
  {
  }

  lemma Associate(a: seq<CaseId>, b: seq<CaseId>, c: seq<CaseId>)
    ensures a + b + c == a + (b + c)
  {
  }

  // ---------------------------------------------------------------- forming cohorts

  type Key = (HypType, Desk)

  predicate IsBulk(c: Case) { c.recommendation == ProposedBulk && c.conclusion.Some? }

  function KeyOf(c: Case): Key
    requires IsBulk(c)
  {
    (c.conclusion.value, c.desk)
  }

  function Demoted(c: Case): Case {
    c.(recommendation := IndividualReview, reasons := c.reasons + [CohortBelowMinSize])
  }

  type Cases = map<CaseId, Case>

  ghost predicate Keyed(input: Cases) {
    forall id :: id in input ==> input[id].id == id && input[id].cohort.None?
  }

  /** What may become of a case: kept as it is, demoted, or placed in a cohort of its kind. */
  ghost predicate Fate(c: Case, c': Case, cohorts: seq<Cohort>) {
    if !IsBulk(c) then c' == c
    else
      || c' == Demoted(c)
      || (&& c'.cohort.Some? && c' == c.(cohort := c'.cohort)
          && c.id in c'.cohort.value && Cohort(c.conclusion.value, c.desk, c'.cohort.value) in cohorts)
  }

  /** A cohort of legal size whose members point back to it and share its kind. */
  ghost predicate CohortOk(k: Cohort, final: Cases, minSize: int, maxSize: int) {
    && LegalSize(k.ids, minSize, maxSize)
    && NoDuplicates(k.ids)
    && forall id :: id in k.ids ==>
         && id in final && IsBulk(final[id]) && KeyOf(final[id]) == (k.hypothesis, k.desk)
         && final[id].cohort == Some(k.ids)
  }

  ghost predicate Disjoint(cohorts: seq<Cohort>) {
    forall i, j :: 0 <= i < j < |cohorts| ==> forall id :: id in cohorts[i].ids ==> id !in cohorts[j].ids
  }

  ghost predicate Placed(input: Cases, final: Cases, cohorts: seq<Cohort>, minSize: int, maxSize: int) {
    && (forall id :: id in final ==> id in input && Fate(input[id], final[id], cohorts))
    && (forall k :: k in cohorts ==> CohortOk(k, final, minSize, maxSize))
    && Disjoint(cohorts)
  }

  /** Cases of one kind that were sent back to individual review. */
  ghost function DemotedIn(input: Cases, final: Cases, key: Key): set<CaseId> {
    set id | id in final && id in input && IsBulk(input[id]) && KeyOf(input[id]) == key && !IsBulk(final[id])
  }

  function Members(input: Cases, key: Key): set<CaseId> {
    set id | id in input && IsBulk(input[id]) && KeyOf(input[id]) == key
  }

  function InCohort(input: Cases, ids: seq<CaseId>): Cases
    requires forall id :: id in ids ==> id in input
  {
    map id | id in ids :: input[id].(cohort := Some(ids))
  }

  function SentBack(input: Cases, ids: seq<CaseId>): Cases
    requires forall id :: id in ids ==> id in input
  {
    map id | id in ids :: Demoted(input[id])
  }

  lemma AddCohort(input: Cases, final: Cases, cohorts: seq<Cohort>, key: Key, ids: seq<CaseId>, minSize: int, maxSize: int)
    requires Keyed(input) && Placed(input, final, cohorts, minSize, maxSize)
    requires LegalSize(ids, minSize, maxSize) && NoDuplicates(ids)
    requires forall id :: id in ids ==> id in input && id in Members(input, key) && id !in final
    ensures Placed(input, final + InCohort(input, ids), cohorts + [Cohort(key.0, key.1, ids)], minSize, maxSize)
  {
    var k := Cohort(key.0, key.1, ids);
    var after, more := final + InCohort(input, ids), cohorts + [k];
    assert more[|cohorts|] == k;
    forall id | id in after ensures id in input && Fate(input[id], after[id], more) {
      if id in ids { assert k in more; } else { assert Fate(input[id], final[id], cohorts); }
    }
    forall c | c in more ensures CohortOk(c, after, minSize, maxSize) {
      if c in cohorts { assert CohortOk(c, final, minSize, maxSize); }
    }
    forall i, j, id | 0 <= i < j < |more| && id in more[i].ids ensures id !in more[j].ids {
      if j == |cohorts| { assert more[i] in cohorts && CohortOk(more[i], final, minSize, maxSize); }
      else { assert more[i] == cohorts[i] && more[j] == cohorts[j]; }
    }
  }

  lemma AddDemoted(input: Cases, final: Cases, cohorts: seq<Cohort>, key: Key, left: seq<CaseId>, minSize: int, maxSize: int)
    requires Keyed(input) && Placed(input, final, cohorts, minSize, maxSize)
    requires forall id :: id in left ==> id in input && id in Members(input, key) && id !in final
    ensures Placed(input, final + SentBack(input, left), cohorts, minSize, maxSize)
  {
    var after := final + SentBack(input, left);
    forall id | id in after ensures id in input && Fate(input[id], after[id], cohorts) {
      if id !in left { assert Fate(input[id], final[id], cohorts); }
    }
    forall c | c in cohorts ensures CohortOk(c, after, minSize, maxSize) {
      assert CohortOk(c, final, minSize, maxSize);
    }
  }

  lemma {:induction false} FlattenMembers(chunks: seq<seq<CaseId>>, i: nat, id: CaseId)
    requires i < |chunks| && id in chunks[i]
    ensures id in Flatten(chunks)
  {
    if i < |chunks| - 1 { FlattenMembers(chunks[..|chunks| - 1], i, id); }
  }

  lemma NotInBoth(xs: seq<CaseId>, ys: seq<CaseId>, id: CaseId)
    requires NoDuplicates(xs + ys) && id in xs
    ensures id !in ys
  {
    var a :| 0 <= a < |xs| && xs[a] == id;
    forall b | 0 <= b < |ys| ensures ys[b] != id { assert (xs + ys)[a] != (xs + ys)[|xs| + b]; }
  }

  lemma {:induction false} FlattenDistinct(chunks: seq<seq<CaseId>>, i: nat, j: nat, id: CaseId)
    requires NoDuplicates(Flatten(chunks)) && i < |chunks| && j < |chunks| && id in chunks[i] && id in chunks[j]
    ensures i == j && NoDuplicates(chunks[i])
  {
    var init, last := chunks[..|chunks| - 1], chunks[|chunks| - 1];
    assert Flatten(chunks) == Flatten(init) + last;
    assert NoDuplicates(Flatten(init)) by {
      forall a, b | 0 <= a < b < |Flatten(init)| ensures Flatten(init)[a] != Flatten(init)[b] {
        assert Flatten(chunks)[a] != Flatten(chunks)[b];
      }
    }
    if i == |chunks| - 1 && j == |chunks| - 1 {
      forall a, b | 0 <= a < b < |last| ensures last[a] != last[b] {
        assert Flatten(chunks)[|Flatten(init)| + a] != Flatten(chunks)[|Flatten(init)| + b];
      }
    } else if i == |chunks| - 1 || j == |chunks| - 1 {
      FlattenMembers(init, if i == |chunks| - 1 then j else i, id);
      NotInBoth(Flatten(init), last, id);
    } else {
      FlattenDistinct(init, i, j, id);
    }
  }

  lemma {:induction false} FlattenPrefix(chunks: seq<seq<CaseId>>, i: nat, id: CaseId)
    requires i <= |chunks| && id in Flatten(chunks[..i])
    ensures exists j :: 0 <= j < i && id in chunks[j]
  {
    if i > 0 {
      assert chunks[..i][..i - 1] == chunks[..i - 1];
      if id !in chunks[i - 1] { FlattenPrefix(chunks, i - 1, id); }
    }
  }

  ghost predicate Extends(final: Cases, more: Cases) { forall id :: id in final ==> id in more && more[id] == final[id] }

  lemma ChunkElement(kept: seq<seq<CaseId>>, i: nat, id: CaseId)
    requires NoDuplicates(Flatten(kept)) && i < |kept| && id in kept[i]
    ensures id in Flatten(kept) && id !in Flatten(kept[..i])
  {
    FlattenMembers(kept, i, id);
    if id in Flatten(kept[..i]) {
      FlattenPrefix(kept, i, id);
      var j :| 0 <= j < i && id in kept[j];
      FlattenDistinct(kept, i, j, id);
    }
  }

  lemma ChunkGrows(kept: seq<seq<CaseId>>, i: nat)
    requires i < |kept|
    ensures Flatten(kept[..i + 1]) == Flatten(kept[..i]) + kept[i]
  {
    assert kept[..i + 1] == kept[..i] + [kept[i]];
    FlattenLast(kept[..i], kept[i]);
  }

  method PlaceChunks(input: Cases, before: Cases, formed: seq<Cohort>, key: Key, kept: seq<seq<CaseId>>, minSize: int, maxSize: int)
    returns (final: Cases, cohorts: seq<Cohort>)
    requires Keyed(input) && Placed(input, before, formed, minSize, maxSize)
    requires NoDuplicates(Flatten(kept)) && forall i :: 0 <= i < |kept| ==> LegalSize(kept[i], minSize, maxSize)
    requires forall id :: id in Flatten(kept) ==> id in input && id in Members(input, key) && id !in before
    ensures Placed(input, final, cohorts, minSize, maxSize) && Extends(before, final)
    ensures forall id :: id in final <==> id in before || id in Flatten(kept)
    ensures forall id :: id in Flatten(kept) ==> id in final && IsBulk(final[id])
  {
    final, cohorts := before, formed;
    for i := 0 to |kept|
      invariant Placed(input, final, cohorts, minSize, maxSize)
      invariant Extends(before, final)
      invariant forall id :: id in final <==> id in before || id in Flatten(kept[..i])
      invariant forall id :: id in Flatten(kept[..i]) ==> id in final && IsBulk(final[id])
    {
      forall id | id in kept[i] ensures id in Flatten(kept) && id !in final { ChunkElement(kept, i, id); }
      FlattenDistinct(kept, i, i, kept[i][0]);
      ChunkGrows(kept, i);
      AddCohort(input, final, cohorts, key, kept[i], minSize, maxSize);
      final := final + InCohort(input, kept[i]);
      cohorts := cohorts + [Cohort(key.0, key.1, kept[i])];
    }
    assert kept[..|kept|] == kept;
  }

  /** `members` split into those placed in chunks and those left over. */
  ghost predicate Parts(input: Cases, key: Key, chunked: seq<CaseId>, left: seq<CaseId>) {
    && (forall id :: id in Members(input, key) <==> id in chunked || id in left)
    && (forall id :: id in left ==> id !in chunked)
  }

  lemma SendingBack(input: Cases, before: Cases, placed: Cases, key: Key, chunked: seq<CaseId>, left: seq<CaseId>)
    requires Parts(input, key, chunked, left) && Extends(before, placed)
    requires forall id :: id in Members(input, key) ==> id !in before
    requires forall id :: id in placed <==> id in before || id in chunked
    requires forall id :: id in chunked ==> id in placed && IsBulk(placed[id])
    requires forall id :: id in left ==> id in input
    ensures var final := placed + SentBack(input, left);
            && final.Keys == before.Keys + Members(input, key) && Extends(before, final)
            && |DemotedIn(input, final, key)| <= |left|
  {
    var final := placed + SentBack(input, left);
    forall id | id in DemotedIn(input, final, key) ensures id in left {
      assert id in Members(input, key) && id !in before;
    }
    DemotedCount(DemotedIn(input, final, key), left);
  }

  /** Place one group: its chunks become cohorts, its remainder goes back to review. */
  method PlaceGroup(input: Cases, before: Cases, formed: seq<Cohort>, key: Key, minSize: int, maxSize: int)
    returns (final: Cases, cohorts: seq<Cohort>)
    requires maxSize >= 1 && Keyed(input) && Placed(input, before, formed, minSize, maxSize)
    requires forall id :: id in Members(input, key) ==> id !in before
    ensures Placed(input, final, cohorts, minSize, maxSize)
    ensures final.Keys == before.Keys + Members(input, key) && Extends(before, final)
    ensures minSize <= maxSize ==> DemotedIn(input, final, key) == {} || |DemotedIn(input, final, key)| < minSize
  {
    var members := Sorted(Members(input, key));
    var kept, left := CutChunks(members, minSize, maxSize);
    GroupIsDistinct(members, kept, left);
    assert Parts(input, key, Flatten(kept), left);
    MembersAreInput(input, key);
    final, cohorts := PlaceChunks(input, before, formed, key, kept, minSize, maxSize);
    SendingBack(input, before, final, key, Flatten(kept), left);
    AddDemoted(input, final, cohorts, key, left, minSize, maxSize);
    final := final + SentBack(input, left);
  }

  lemma MembersAreInput(input: Cases, key: Key)
    ensures forall id :: id in Members(input, key) ==> id in input
  {
  }

  lemma DemotedCount(s: set<CaseId>, left: seq<CaseId>)
    requires forall id :: id in s ==> id in left
    ensures |s| <= |left|
  {
    DistinctCount(left);
    assert s <= set id | id in left;
    SubsetIsSmaller(s, set id | id in left);
  }

  lemma GroupIsDistinct(members: seq<CaseId>, kept: seq<seq<CaseId>>, left: seq<CaseId>)
    requires Ascending(members) && Flatten(kept) + left == members
    ensures NoDuplicates(Flatten(kept))
    ensures forall id :: id in members <==> id in Flatten(kept) || id in left
    ensures forall id :: id in left ==> id !in Flatten(kept)
  {
    var all := Flatten(kept);
    forall i, j | 0 <= i < j < |all| ensures all[i] != all[j] { assert members[i] < members[j]; }
    forall id | id in left ensures id !in all {
      var j :| 0 <= j < |left| && left[j] == id;
      forall i | 0 <= i < |all| ensures all[i] != id { assert members[i] < members[|all| + j]; }
    }
  }

  ghost predicate DistinctIds(cases: seq<Case>) { forall i, j :: 0 <= i < j < |cases| ==> cases[i].id != cases[j].id }

  function Index(cases: seq<Case>): Cases { if cases == [] then map[] else Index(cases[1..])[cases[0].id := cases[0]] }

  lemma {:induction false} IndexMembers(cases: seq<Case>)
    requires DistinctIds(cases)
    ensures forall c :: c in cases <==> c.id in Index(cases) && Index(cases)[c.id] == c
    ensures forall id :: id in Index(cases) ==> Index(cases)[id].id == id
  {
    if cases != [] {
      IndexMembers(cases[1..]);
      assert cases == [cases[0]] + cases[1..];
      forall c | c in cases[1..] ensures c.id != cases[0].id {
        var i :| 0 <= i < |cases[1..]| && cases[1..][i] == c;
        assert cases[i + 1].id != cases[0].id;
      }
    }
  }

  function Listing(final: Cases, ids: seq<CaseId>): (out: seq<Case>)
    requires forall id :: id in ids ==> id in final
    ensures |out| == |ids| && forall i :: 0 <= i < |ids| ==> out[i] == final[ids[i]]
  {
    if ids == [] then [] else [final[ids[0]]] + Listing(final, ids[1..])
  }

  lemma {:induction false} ListingIndex(final: Cases, ids: seq<CaseId>)
    requires forall id :: id in ids ==> id in final && final[id].id == id
    ensures Index(Listing(final, ids)).Keys == (set id | id in ids)
    ensures forall id :: id in ids ==> Index(Listing(final, ids))[id] == final[id]
  {
    if ids != [] {
      ListingIndex(final, ids[1..]);
      assert ids == [ids[0]] + ids[1..];
      assert Listing(final, ids)[1..] == Listing(final, ids[1..]);
    }
  }

  lemma ListingIsFinal(final: Cases, ids: seq<CaseId>)
    requires forall id :: id in final ==> final[id].id == id
    requires (forall id :: id in ids <==> id in final) && Ascending(ids)
    ensures Index(Listing(final, ids)) == final
    ensures forall i, j :: 0 <= i < j < |ids| ==> Listing(final, ids)[i].id < Listing(final, ids)[j].id
  {
    ListingIndex(final, ids);
    SameCases(Index(Listing(final, ids)), final);
    ListingAscends(final, ids);
  }

  lemma SameCases(a: Cases, b: Cases)
    requires a.Keys == b.Keys && forall id :: id in b ==> a[id] == b[id]
    ensures a == b
  {
  }

  lemma ListingAscends(final: Cases, ids: seq<CaseId>)
    requires (forall id :: id in ids ==> id in final && final[id].id == id) && Ascending(ids)
    ensures forall i, j :: 0 <= i < j < |ids| ==> Listing(final, ids)[i].id < Listing(final, ids)[j].id
  {
  }

  /** What forming cohorts guarantees about a whole run, case by case and cohort by cohort. */
  ghost predicate WellFormed(input: Cases, final: Cases, cohorts: seq<Cohort>, minSize: int, maxSize: int) {
    && final.Keys == input.Keys
    && Placed(input, final, cohorts, minSize, maxSize)
    && (minSize <= maxSize ==> forall key :: DemotedIn(input, final, key) == {} || |DemotedIn(input, final, key)| < minSize)
  }

  /** `form_cohorts`: group bulk proposals by verified explanation and desk, cut each group into
      cohorts of legal size, and send what is left back to individual review. */
  method FormCohorts(cases: seq<Case>, minSize: int, maxSize: int) returns (out: seq<Case>, cohorts: seq<Cohort>)
    requires maxSize >= 1 && DistinctIds(cases) && forall c :: c in cases ==> c.cohort.None?
    ensures forall i, j :: 0 <= i < j < |out| ==> out[i].id < out[j].id
    ensures WellFormed(Index(cases), Index(out), cohorts, minSize, maxSize)
  {
    var input := Index(cases);
    IndexMembers(cases);
    InputIsKeyed(cases);
    var final, keys := SeparateBulk(cases, input);
    cohorts := [];
    final, cohorts := PlaceAll(input, final, keys, minSize, maxSize);
    var ids := Sorted(final.Keys);
    PlacedIds(input, final, cohorts, minSize, maxSize);
    out := Listing(final, ids);
    ListingIsFinal(final, ids);
  }

  lemma PlacedIds(input: Cases, final: Cases, cohorts: seq<Cohort>, minSize: int, maxSize: int)
    requires Keyed(input) && Placed(input, final, cohorts, minSize, maxSize)
    ensures forall id :: id in final ==> final[id].id == id
  {
    forall id | id in final ensures final[id].id == id { assert Fate(input[id], final[id], cohorts); }
  }

  lemma InputIsKeyed(cases: seq<Case>)
    requires DistinctIds(cases) && forall c :: c in cases ==> c.cohort.None?
    ensures Keyed(Index(cases))
  {
    IndexMembers(cases);
  }

  /** The first pass: cases that are not bulk proposals are final; the others name a group. */
  method SeparateBulk(cases: seq<Case>, input: Cases) returns (final: Cases, keys: set<Key>)
    requires forall c :: c in cases <==> c.id in input && input[c.id] == c
    requires forall id :: id in input ==> input[id].id == id
    ensures forall id :: id in final <==> id in input && !IsBulk(input[id])
    ensures forall id :: id in final ==> final[id] == input[id]
    ensures forall id :: id in input && IsBulk(input[id]) ==> KeyOf(input[id]) in keys
  {
    final, keys := map[], {};
    for i := 0 to |cases|
      invariant forall id :: id in final ==> id in input && final[id] == input[id] && !IsBulk(input[id])
      invariant forall j :: 0 <= j < i ==> if IsBulk(cases[j]) then KeyOf(cases[j]) in keys else cases[j].id in final
    {
      assert cases[i] in cases;
      if IsBulk(cases[i]) { keys := keys + {KeyOf(cases[i])}; } else { final := final[cases[i].id := cases[i]]; }
    }
    forall id | id in input
      ensures if IsBulk(input[id]) then KeyOf(input[id]) in keys else id in final
    {
      assert input[id] in cases;
    }
  }

  ghost predicate KeyDone(input: Cases, final: Cases, key: Key, minSize: int, maxSize: int) {
    && (forall id :: id in Members(input, key) ==> id in final)
    && (minSize <= maxSize ==> DemotedIn(input, final, key) == {} || |DemotedIn(input, final, key)| < minSize)
  }

  lemma KeyStaysDone(input: Cases, final: Cases, more: Cases, key: Key, minSize: int, maxSize: int)
    requires KeyDone(input, final, key, minSize, maxSize) && Extends(final, more)
    ensures KeyDone(input, more, key, minSize, maxSize)
  {
    forall id | id in DemotedIn(input, more, key) ensures id in DemotedIn(input, final, key) {
      assert id in Members(input, key);
    }
    assert DemotedIn(input, more, key) == DemotedIn(input, final, key);
  }

  method PlaceAll(input: Cases, single: Cases, keys: set<Key>, minSize: int, maxSize: int) returns (final: Cases, cohorts: seq<Cohort>)
    requires maxSize >= 1 && Keyed(input)
    requires forall id :: id in single <==> id in input && !IsBulk(input[id])
    requires forall id :: id in single ==> single[id] == input[id]
    requires forall id :: id in input && IsBulk(input[id]) ==> KeyOf(input[id]) in keys
    ensures WellFormed(input, final, cohorts, minSize, maxSize)
  {
    final, cohorts := single, [];
    var todo := keys;
    while todo != {}
      invariant todo <= keys
      invariant Placed(input, final, cohorts, minSize, maxSize)
      invariant forall id :: id in final <==> id in input && (IsBulk(input[id]) ==> KeyOf(input[id]) in keys - todo)
      invariant forall key :: key in keys - todo ==> KeyDone(input, final, key, minSize, maxSize)
    {
      var key :| key in todo;
      var before := final;
      final, cohorts := PlaceGroup(input, final, cohorts, key, minSize, maxSize);
      forall k | k in keys - todo ensures KeyDone(input, final, k, minSize, maxSize) {
        KeyStaysDone(input, before, final, k, minSize, maxSize);
      }
      todo := todo - {key};
    }
    forall key | minSize <= maxSize
      ensures DemotedIn(input, final, key) == {} || |DemotedIn(input, final, key)| < minSize
    {
      if key in keys {
        assert KeyDone(input, final, key, minSize, maxSize);
      } else {
        assert DemotedIn(input, final, key) == {};
      }
    }
  }

  /** Every bulk proposal that leaves the former lies in exactly one cohort, of legal size, whose
      members all share its conclusion and desk. */
  lemma BulkCasesHaveOneCohort(input: Cases, final: Cases, cohorts: seq<Cohort>, minSize: int, maxSize: int, id: CaseId)
    requires Keyed(input) && WellFormed(input, final, cohorts, minSize, maxSize) && id in final && IsBulk(final[id])
    ensures IsBulk(input[id]) && KeyOf(input[id]) == KeyOf(final[id])
    ensures exists i :: 0 <= i < |cohorts| && id in cohorts[i].ids && final[id].cohort == Some(cohorts[i].ids)
                        && (cohorts[i].hypothesis, cohorts[i].desk) == KeyOf(final[id])
                        && LegalSize(cohorts[i].ids, minSize, maxSize)
                        && forall j :: 0 <= j < |cohorts| && id in cohorts[j].ids ==> j == i
  {
    assert Fate(input[id], final[id], cohorts);
    var k := Cohort(final[id].conclusion.value, final[id].desk, final[id].cohort.value);
    assert k in cohorts && CohortOk(k, final, minSize, maxSize);
    var i :| 0 <= i < |cohorts| && cohorts[i] == k;
  }

  // ---------------------------------------------------------------- the whole way

  /** Where a case came from: its investigation, if there was one, and its surroundings. */
  datatype Origin = Origin(run: Option<(Snapshot, InvState)>, ctx: Setting)

  ghost predicate DecidedFrom(c: Case, o: Origin) {
    match o.run
    case None => Decided(c, None, o.ctx)
    case Some((w, s)) => Inv(w, s) && Done(s) && Decided(c, Some(Finalize(w, s)), o.ctx)
  }

  /** The investigation of the snapshot bears the case out: a benign conclusion that policy allows
      to the desk, that of the exhaustive assessment, with no link waiting to be confirmed and no
      deviation unexplained or pending. */
  ghost predicate BornOut(c: Case, o: Origin) {
    match o.run
    case None => false
    case Some((w, s)) =>
      && Known(w, s.episodeId) && c.conclusion.Some? && ClassOf(c.conclusion.value) == Benign
      && PolicyAllows(o.ctx.policy, c.conclusion.value, c.desk)
      && VerifiedPairs(s.proposals) == {}
      && var full := FullAssessment(w, s.episodeId, w.links);
      full.conclusion == c.conclusion && full.split.unexplained == {} && full.split.pending == {}
  }

  /** Exactly one cohort lists the case; it is of legal size and of the case's kind. */
  ghost predicate InOneCohort(c: Case, cohorts: seq<Cohort>, minSize: int, maxSize: int)
    requires c.conclusion.Some?
  {
    exists i :: 0 <= i < |cohorts| && c.id in cohorts[i].ids && c.cohort == Some(cohorts[i].ids)
                && cohorts[i].hypothesis == c.conclusion.value && cohorts[i].desk == c.desk
                && LegalSize(cohorts[i].ids, minSize, maxSize)
                && forall j :: 0 <= j < |cohorts| && c.id in cohorts[j].ids ==> j == i
  }

  lemma ProposalsAreBornOut(c: Case, o: Origin)
    requires DecidedFrom(c, o) && c.recommendation == ProposedBulk
    ensures BornOut(c, o)
  {
    var (w, s) := o.run.value;
    BulkAgreesWithAssessment(w, s, o.ctx);
  }

  lemma RisingIdsAreDistinct(out: seq<Case>)
    requires forall i, j :: 0 <= i < j < |out| ==> out[i].id < out[j].id
    ensures DistinctIds(out)
  {
  }

  /** What `form_cohorts` sends out as a bulk proposal came in as one, equal but for its cohort. */
  lemma BulkCameAsBulk(input: Cases, final: Cases, cohorts: seq<Cohort>, minSize: int, maxSize: int, id: CaseId)
    requires Keyed(input) && WellFormed(input, final, cohorts, minSize, maxSize) && id in final && IsBulk(final[id])
    ensures id in input && IsBulk(input[id]) && final[id] == input[id].(cohort := final[id].cohort)
    ensures final[id].conclusion.Some? && InOneCohort(final[id], cohorts, minSize, maxSize)
  {
    assert Fate(input[id], final[id], cohorts);
    BulkCasesHaveOneCohort(input, final, cohorts, minSize, maxSize, id);
  }

  /** Main result, the whole way: a case decided from a finished investigation that leaves cohort
      forming as a bulk proposal is borne out by the exhaustive assessment of the snapshot, and
      lies in exactly one legal cohort of its kind. */
  lemma BulkIsJustified(cases: seq<Case>, origins: map<CaseId, Origin>, out: seq<Case>, cohorts: seq<Cohort>,
                        minSize: int, maxSize: int, c: Case)
    requires DistinctIds(cases) && forall x :: x in cases ==> x.id in origins && DecidedFrom(x, origins[x.id])
    requires forall i, j :: 0 <= i < j < |out| ==> out[i].id < out[j].id
    requires WellFormed(Index(cases), Index(out), cohorts, minSize, maxSize) && c in out && c.recommendation == ProposedBulk
    ensures c.id in origins && BornOut(c, origins[c.id]) && InOneCohort(c, cohorts, minSize, maxSize)
  {
    forall x | x in cases ensures x.cohort.None? { assert DecidedFrom(x, origins[x.id]); }
    var before := CameFrom(cases, out, cohorts, minSize, maxSize, c);
    ProposalsAreBornOut(before, origins[c.id]);
  }

  /** A proposal that leaves came in as one, and lies in one cohort if it has a conclusion. */
  lemma CameFrom(cases: seq<Case>, out: seq<Case>, cohorts: seq<Cohort>, minSize: int, maxSize: int, c: Case) returns (before: Case)
    requires DistinctIds(cases) && forall x :: x in cases ==> x.cohort.None?
    requires forall i, j :: 0 <= i < j < |out| ==> out[i].id < out[j].id
    requires WellFormed(Index(cases), Index(out), cohorts, minSize, maxSize) && c in out && c.recommendation == ProposedBulk
    ensures before in cases && before.recommendation == ProposedBulk && c == before.(cohort := c.cohort)
    ensures c.conclusion.Some? ==> InOneCohort(c, cohorts, minSize, maxSize)
  {
    RisingIdsAreDistinct(out);
    IndexMembers(out);
    IndexMembers(cases);
    InputIsKeyed(cases);
    before := Index(cases)[c.id];
    assert before in cases && Fate(before, c, cohorts);
    if c.conclusion.Some? { BulkCameAsBulk(Index(cases), Index(out), cohorts, minSize, maxSize, c.id); }
  }
}
