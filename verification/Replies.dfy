/** When the protocol refuses an action, told from the state and the action alone. */
module Replies {
  import opened Seqs
  import opened Trades
  import opened Evidence
  import opened Hypotheses
  import opened Adjudication
  import opened Investigator

  /** The run holds evidence of the request that is more than a lead. */
  ghost predicate Holds(s: InvState, r: Request) { !r.SimilarCases? && exists e :: e in s.evidence && e.request == r }

  lemma {:induction false} BagHolds(evidence: seq<Item>, r: Request)
    ensures r in BagOf(evidence) <==> !r.SimilarCases? && exists e :: e in evidence && e.request == r
  {
    if evidence != [] {
      BagHolds(evidence[..|evidence| - 1], r);
      assert evidence == evidence[..|evidence| - 1] + [evidence[|evidence| - 1]];
    }
  }

  /** The view of the episode is held; what the tools return has the type of its request. */
  lemma SubjectMeaning(w: Snapshot, s: InvState)
    requires Usable(w, s)
    ensures SubjectOf(w, s).Some? <==> Holds(s, GetEpisode(s.episodeId))
  {
    BagHolds(s.evidence, GetEpisode(s.episodeId));
    var bag, r := BagOf(s.evidence), GetEpisode(s.episodeId);
    if r in bag { assert Fits(r, bag[r]); }
  }

  ghost predicate Named(s: InvState, id: nat) { exists h :: h in s.hypotheses && h.id == id }

  /** A hypothesis of the catalog applies that nobody evaluated. */
  ghost predicate Unjudged(w: Snapshot, s: InvState, subject: Subject) {
    exists t :: t in CATALOG && Applies(t, subject, w.cfg) && forall h :: h in s.hypotheses && h.typ == t ==> h.evaluatedAt < 0
  }

  lemma PendingMeaning(w: Snapshot, s: InvState, subject: Subject)
    ensures Pending(w, s, subject) != {} <==> Unjudged(w, s, subject)
  {
    forall t ensures t in EvaluatedTypes(s.hypotheses) <==> exists h :: h in s.hypotheses && h.typ == t && h.evaluatedAt >= 0 {}
    if t :| t in CATALOG && Applies(t, subject, w.cfg) && forall h :: h in s.hypotheses && h.typ == t ==> h.evaluatedAt < 0 {
      assert t in Pending(w, s, subject);
    }
    if t :| t in Pending(w, s, subject) { assert t !in EvaluatedTypes(s.hypotheses); }
  }

  /** Everything cited is an evidence id, and none is a mere lead. */
  ghost predicate CitesEvidence(s: InvState, cited: set<nat>) {
    forall x :: x in cited ==> exists e :: e in s.evidence && e.id == x && !e.request.SimilarCases?
  }

  lemma CitableMeaning(s: InvState, cited: set<nat>)
    ensures cited <= CitableIds(s) <==> CitesEvidence(s, cited)
  {
    forall x ensures x in CitableIds(s) <==> exists e :: e in s.evidence && e.id == x && !e.request.SimilarCases? {}
  }

  /** What proposals, calls, evaluations and links are refused for, and what they cost. */
  lemma GatheringMeaning(w: Snapshot, s: InvState, action: Action, ok: bool)
    requires Usable(w, s) && !action.Conclude? && !action.Abstain?
    ensures var obs := Handle(w, s, action, ok).1;
            && obs.toolCalls == (if action.CallTool? then 1 else 0)
            && (obs.refused <==>
                match action
                case Propose(types) => exists i :: 0 <= i < |types| && types[i] == None
                case CallTool(r) => !ok || r !in w.views
                case EvaluateHyp(id) => !Named(s, id) || !Holds(s, GetEpisode(s.episodeId))
                case ProposeLink(a, b) => !Holds(s, CompareTrades(a, b)))
  {
    match action
    case Propose(types) =>
    case CallTool(r) =>
    case EvaluateHyp(id) => SubjectMeaning(w, s);
    case ProposeLink(a, b) => ComparisonMeaning(w, s, a, b);
  }

  lemma ComparisonMeaning(w: Snapshot, s: InvState, a: TradeId, b: TradeId)
    requires Usable(w, s)
    ensures OnLink(w, s, a, b).1.refused <==> !Holds(s, CompareTrades(a, b))
  {
    var r, bag := CompareTrades(a, b), BagOf(s.evidence);
    BagHolds(s.evidence, r);
    if r in bag { assert Fits(r, bag[r]); }
  }

  ghost predicate FirstNamed(s: InvState, id: nat, i: nat) {
    i < |s.hypotheses| && s.hypotheses[i].id == id && forall j :: 0 <= j < i ==> s.hypotheses[j].id != id
  }

  lemma FindMeaning(s: InvState, id: nat, i: nat)
    ensures Find(s.hypotheses, id) == Some(i) <==> FirstNamed(s, id, i)
  {
    if FirstNamed(s, id, i) {
      assert s.hypotheses[i] in s.hypotheses;
      assert Find(s.hypotheses, id).Some?;
      var at := Find(s.hypotheses, id).value;
      assert s.hypotheses[at].id == id;
    }
  }

  /** The first hypothesis of that id is the one the verifier concludes. */
  ghost predicate Backed(w: Snapshot, s: InvState, id: nat) {
    exists i: nat :: FirstNamed(s, id, i) && Adjudged(w, s).conclusion == Some(s.hypotheses[i].typ)
  }

  /** The episode is held and every applicable hypothesis was evaluated. */
  ghost predicate Complete(w: Snapshot, s: InvState) {
    SubjectOf(w, s).Some? && !Unjudged(w, s, SubjectOf(w, s).value)
  }

  lemma BackedMeaning(w: Snapshot, s: InvState, id: nat)
    ensures Backed(w, s, id) <==>
      Find(s.hypotheses, id).Some? && Adjudged(w, s).conclusion == Some(s.hypotheses[Find(s.hypotheses, id).value].typ)
  {
    if Find(s.hypotheses, id).Some? { FindMeaning(s, id, Find(s.hypotheses, id).value); }
    forall i: nat | FirstNamed(s, id, i) ensures Find(s.hypotheses, id) == Some(i) { FindMeaning(s, id, i); }
  }

  /** A conclusion is accepted exactly when the episode is held, every applicable hypothesis was
      evaluated, the verifier concludes the first hypothesis of that id, the prose is acceptable
      and cites evidence that is no mere lead; it then is the run's conclusion. */
  lemma ConclusionMeaning(w: Snapshot, s: InvState, id: nat, cited: set<nat>, clean: bool)
    requires Usable(w, s)
    ensures var (t, obs) := OnConclude(w, s, id, cited, clean);
            && obs.toolCalls == 0
            && (!obs.refused <==> Complete(w, s) && Backed(w, s, id) && clean && CitesEvidence(s, cited))
            && t == if obs.refused then s else s.(conclusion := Adjudged(w, s).conclusion)
  {
    CitableMeaning(s, cited);
    BackedMeaning(w, s, id);
    if SubjectOf(w, s).Some? { PendingMeaning(w, s, SubjectOf(w, s).value); }
  }

  /** An abstention is refused exactly when the episode is held and an applicable hypothesis is
      unevaluated or the verifier has a conclusion; accepted, it ends the run and lists what the
      policy and every record miss. */
  lemma AbstentionMeaning(w: Snapshot, s: InvState, reason: string, missing: set<Missing>)
    requires Usable(w, s)
    ensures var (t, obs) := OnAbstain(w, s, reason, missing);
            && obs.toolCalls == 0
            && (obs.refused <==>
                SubjectOf(w, s).Some? && (!Complete(w, s) || Adjudged(w, s).conclusion.Some?))
            && (obs.refused ==> t == s)
            && (!obs.refused ==>
                && t.abstained && t.conclusion == s.conclusion && t.evidence == s.evidence && t.hypotheses == s.hypotheses
                && (forall m :: m in t.missing <==> m in missing || exists h :: h in s.hypotheses && m in h.eval.missing))
  {
    if SubjectOf(w, s).Some? { PendingMeaning(w, s, SubjectOf(w, s).value); }
  }

  // ---------------------------------------------------------------- what the playbook links

  /** Some record waits for a rebook of the trade. */
  ghost predicate Waits(s: InvState, a: TradeId) { exists h :: h in s.hypotheses && NeedsRebookLinkFor(a) in h.eval.missing }

  /** The trade waits for a rebook, and this one was not proposed yet. */
  ghost predicate IsCandidate(s: InvState, p: Pair) {
    Waits(s, p.0) && forall x :: x in s.proposals ==> x.a != p.0 || x.b != p.1
  }

  /** The first candidate of the list. */
  ghost predicate FirstCandidate(s: InvState, unresolved: seq<Pair>, i: nat) {
    i < |unresolved| && IsCandidate(s, unresolved[i]) && forall j :: 0 <= j < i ==> !IsCandidate(s, unresolved[j])
  }

  lemma GapsMeaning(s: InvState, a: TradeId)
    ensures a in RebookGaps(s.hypotheses) <==> Waits(s, a)
  {
    if h :| h in s.hypotheses && NeedsRebookLinkFor(a) in h.eval.missing { assert NeedsRebookLinkFor(a).cancelled == a; }
    if a in RebookGaps(s.hypotheses) {
      var h, m :| h in s.hypotheses && m in h.eval.missing && m.NeedsRebookLinkFor? && m.cancelled == a;
      assert m == NeedsRebookLinkFor(a);
    }
  }

  lemma OpenPairMeaning(s: InvState, unresolved: seq<Pair>)
    ensures var open := OpenPair(unresolved, RebookGaps(s.hypotheses), ProposedPairs(s.proposals));
            && (open.Some? ==> FirstCandidate(s, unresolved, open.value))
            && (open.None? ==> forall p: Pair :: p in unresolved ==> !IsCandidate(s, p))
  {
    forall p: Pair ensures p.0 in RebookGaps(s.hypotheses) && p !in ProposedPairs(s.proposals) <==> IsCandidate(s, p) {
      GapsMeaning(s, p.0);
      assert p == (p.0, p.1);
    }
  }

  /** The playbook looks for rebooks exactly while some record waits for one: first it asks for the
      unresolved pairs, then it has the first candidate among them compared and proposes it. */
  lemma LinkStepMeaning(s: InvState, bag: Bag)
    ensures var related, step := GetRelatedEpisodes(s.episodeId), LinkStep(s, bag);
            if !exists a :: Waits(s, a) then step == None
            else if related !in bag || !bag[related].RelatedV? then step == Some(CallTool(related))
            else if !exists p: Pair :: p in bag[related].unresolved && IsCandidate(s, p) then step == None
            else exists i: nat :: FirstCandidate(s, bag[related].unresolved, i) &&
                   var p := bag[related].unresolved[i];
                   step == Some(if CompareTrades(p.0, p.1) in bag then ProposeLink(p.0, p.1) else CallTool(CompareTrades(p.0, p.1)))
  {
    forall a ensures a in RebookGaps(s.hypotheses) <==> Waits(s, a) { GapsMeaning(s, a); }
    assert RebookGaps(s.hypotheses) == {} <==> !exists a :: Waits(s, a);
    var related := GetRelatedEpisodes(s.episodeId);
    if related in bag && bag[related].RelatedV? {
      var unresolved := bag[related].unresolved;
      OpenPairMeaning(s, unresolved);
      var open := OpenPair(unresolved, RebookGaps(s.hypotheses), ProposedPairs(s.proposals));
      if open.Some? { assert unresolved[open.value] in unresolved; }
    }
  }
}
