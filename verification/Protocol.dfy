/** What every step of an investigation keeps, whatever the policy asks for. */
module Protocol {
  import opened Seqs
  import opened Trades
  import opened Evidence
  import opened Hypotheses
  import opened Adjudication
  import opened Investigator

  // ---------------------------------------------------------------- evidence

  /** Evidence is numbered, holds each request once, and agrees with the frozen views. */
  ghost predicate EvidenceOk(w: Snapshot, evidence: seq<Item>) {
    && (forall i :: 0 <= i < |evidence| ==> evidence[i].id == i + 1)
    && (forall i :: 0 <= i < |evidence| ==> evidence[i].request in w.views && evidence[i].view == w.views[evidence[i].request])
    && (forall i, j :: 0 <= i < j < |evidence| ==> evidence[i].request != evidence[j].request)
  }

  ghost predicate Holds(evidence: seq<Item>, r: Request) { exists e :: e in evidence && e.request == r }

  lemma EvidencePrefix(w: Snapshot, evidence: seq<Item>)
    requires EvidenceOk(w, evidence) && evidence != []
    ensures EvidenceOk(w, evidence[..|evidence| - 1])
    ensures var last := evidence[|evidence| - 1]; last.request in w.views && last.view == w.views[last.request]
  {
  }

  lemma HoldsLast(init: seq<Item>, last: Item, r: Request)
    ensures Holds(init + [last], r) <==> Holds(init, r) || last.request == r
  {
    if last.request == r { assert last in init + [last]; }
    if Holds(init, r) {
      var e :| e in init && e.request == r;
      assert e in init + [last];
    }
  }

  lemma {:induction false} BagMembers(w: Snapshot, evidence: seq<Item>, r: Request)
    requires EvidenceOk(w, evidence)
    ensures r in BagOf(evidence) <==> Holds(evidence, r) && !LeadOnly(r)
    ensures r in BagOf(evidence) ==> r in w.views && BagOf(evidence)[r] == w.views[r]
  {
    if evidence != [] {
      var init, last := evidence[..|evidence| - 1], evidence[|evidence| - 1];
      assert evidence == init + [last];
      EvidencePrefix(w, evidence);
      HoldsLast(init, last, r);
      BagMembers(w, init, r);
    }
  }

  lemma BagIsPartOfViews(w: Snapshot, evidence: seq<Item>)
    requires EvidenceOk(w, evidence) && WellTyped(w.views)
    ensures Within(BagOf(evidence), w.views) && WellTyped(BagOf(evidence))
  {
    forall r | r in BagOf(evidence)
      ensures r in w.views && BagOf(evidence)[r] == w.views[r]
    {
      BagMembers(w, evidence, r);
    }
  }

  lemma BagGrows(w: Snapshot, evidence: seq<Item>, item: Item)
    requires EvidenceOk(w, evidence) && EvidenceOk(w, evidence + [item])
    ensures Within(BagOf(evidence), BagOf(evidence + [item]))
  {
    var all := evidence + [item];
    assert all[..|evidence|] == evidence;
    forall i | 0 <= i < |evidence| ensures evidence[i].request != item.request {
      assert all[i] == evidence[i] && all[|evidence|] == item;
    }
    BagMembers(w, evidence, item.request);
  }

  // ---------------------------------------------------------------- the invariant

  /** Every proposal names its pair once and has the status its comparison gives it. */
  ghost predicate ProposalsOk(bag: Bag, proposals: seq<LinkProposal>, cfg: Config) {
    && (forall i, j :: 0 <= i < j < |proposals| ==> (proposals[i].a, proposals[i].b) != (proposals[j].a, proposals[j].b))
    && forall p :: p in proposals ==>
         && CompareTrades(p.a, p.b) in bag && bag[CompareTrades(p.a, p.b)].ComparisonV?
         && p.verified == LinkChecks(bag[CompareTrades(p.a, p.b)].cmp, cfg)
  }

  /** A recorded evaluation: a verdict is the one all the evidence gives today; what does not
      apply was ruled out; requirements recorded with no progress since are today's. */
  ghost predicate RecordOk(w: Snapshot, h: HypState, subject: Subject, progress: nat)
    requires subject.episode.tradeIds != [] && WellTyped(w.views)
  {
    && h.eval.status != Proposed
    && h.evaluatedAt <= progress
    && (Definite(h.eval) ==> SameVerdict(h.eval, Evaluate(h.typ, subject, w.views, w.cfg)))
    && (!Applies(h.typ, subject, w.cfg) ==> h.eval.status == Contradicted)
    && (h.evaluatedAt == progress ==> h.needed == set r | r in Requirements(h.typ, subject))
  }

  ghost predicate HypothesesOk(w: Snapshot, hs: seq<HypState>, subject: Option<Subject>, citable: set<nat>, progress: nat)
    requires WellTyped(w.views) && (subject.Some? ==> subject.value.episode.tradeIds != [])
  {
    && (forall i :: 0 <= i < |hs| ==> hs[i].id == i + 1)
    && (forall i, j :: 0 <= i < j < |hs| ==> hs[i].typ != hs[j].typ)
    && forall h :: h in hs ==>
         && (forall x :: x in h.evidenceIds ==> x in citable)
         && if Evaluated(h) then subject.Some? && RecordOk(w, h, subject.value, progress)
            else h.eval == UNEVALUATED
  }

  /** What acceptance of a conclusion guarantees about the state it is accepted in. */
  ghost predicate ConcludedWell(w: Snapshot, s: InvState) {
    && SubjectOf(w, s).Some?
    && Pending(w, s, SubjectOf(w, s).value) == {}
    && Adjudged(w, s).conclusion == s.conclusion
  }

  ghost predicate Inv(w: Snapshot, s: InvState) {
    && WellTyped(w.views)
    && EvidenceOk(w, s.evidence)
    && Usable(w, s)
    && ProposalsOk(BagOf(s.evidence), s.proposals, w.cfg)
    && HypothesesOk(w, s.hypotheses, SubjectOf(w, s), CitableIds(s), Progress(s))
    && (s.conclusion.Some? ==> ConcludedWell(w, s))
  }

  lemma StartInv(w: Snapshot, e: EpisodeId)
    requires WellTyped(w.views)
    ensures Inv(w, Start(e))
  {
  }

  // ---------------------------------------------------------------- steps

  lemma SubjectFromViews(w: Snapshot, s: InvState)
    requires EvidenceOk(w, s.evidence) && WellTyped(w.views)
    ensures Usable(w, s)
    ensures SubjectOf(w, s).Some? <==> Holds(s.evidence, GetEpisode(s.episodeId))
    ensures SubjectOf(w, s).Some? ==>
      && GetEpisode(s.episodeId) in w.views
      && SubjectOf(w, s).value == Subject(w.views[GetEpisode(s.episodeId)].episode, Links(w, s), w.unavailable)
      && SubjectOf(w, s).value.episode.episodeId == s.episodeId
  {
    BagIsPartOfViews(w, s.evidence);
    BagMembers(w, s.evidence, GetEpisode(s.episodeId));
  }

  lemma {:induction false} AddTypesKeeps(hs: seq<HypState>, types: seq<Option<HypType>>)
    requires forall i :: 0 <= i < |hs| ==> hs[i].id == i + 1
    requires forall i, j :: 0 <= i < j < |hs| ==> hs[i].typ != hs[j].typ
    ensures var r := AddTypes(hs, types);
            && hs <= r
            && (forall i :: 0 <= i < |r| ==> r[i].id == i + 1)
            && (forall i, j :: 0 <= i < j < |r| ==> r[i].typ != r[j].typ)
            && (forall i :: |hs| <= i < |r| ==> r[i].eval == UNEVALUATED && r[i].evaluatedAt == -1 && r[i].evidenceIds == [])
            && (forall t :: t in KnownTypes(r) <==> t in KnownTypes(hs) || Some(t) in types)
    decreases |types|
  {
    if types != [] {
      if types[0].None? || types[0].value in KnownTypes(hs) {
        AddTypesKeeps(hs, types[1..]);
      } else {
        var hs' := hs + [HypState(|hs| + 1, types[0].value, UNEVALUATED, [], -1, {})];
        assert KnownTypes(hs') == KnownTypes(hs) + {types[0].value};
        AddTypesKeeps(hs', types[1..]);
      }
      assert types == [types[0]] + types[1..];
    }
  }

  lemma ProposeKeepsInv(w: Snapshot, s: InvState, types: seq<Option<HypType>>)
    requires Inv(w, s) && !Done(s)
    ensures Inv(w, OnPropose(s, types).0)
  {
    AddTypesKeeps(s.hypotheses, types);
    var s' := OnPropose(s, types).0;
    forall h | h in s'.hypotheses
      ensures h in s.hypotheses || (h.eval == UNEVALUATED && h.evaluatedAt == -1 && h.evidenceIds == [])
    {
      var i :| 0 <= i < |s'.hypotheses| && s'.hypotheses[i] == h;
      if i < |s.hypotheses| { assert s.hypotheses[i] == h; }
    }
  }

  /** Recording what a tool call returned. */
  lemma AppendKeepsInv(w: Snapshot, s: InvState, item: Item)
    requires Inv(w, s) && !Done(s)
    requires item.id == |s.evidence| + 1 && item.request in w.views && item.view == w.views[item.request]
    requires !Holds(s.evidence, item.request)
    ensures Inv(w, s.(evidence := s.evidence + [item]))
  {
    var s' := s.(evidence := s.evidence + [item]);
    assert EvidenceOk(w, s'.evidence);
    BagGrows(w, s.evidence, item);
    SubjectFromViews(w, s);
    SubjectFromViews(w, s');
    assert CitableIds(s) <= CitableIds(s');
  }

  lemma EvaluateKeepsInv(w: Snapshot, s: InvState, id: nat)
    requires Inv(w, s) && !Done(s)
    ensures Inv(w, OnEvaluate(w, s, id).0)
  {
    var at, subject := Find(s.hypotheses, id), SubjectOf(w, s);
    if at.Some? && subject.Some? {
      JudgedRecord(w, s, s.hypotheses[at.value], subject.value);
      RecordKeepsInv(w, s, at.value, Judged(w, s, s.hypotheses[at.value], subject.value));
    }
  }

  lemma RecordKeepsInv(w: Snapshot, s: InvState, i: nat, h: HypState)
    requires Inv(w, s) && !Done(s) && SubjectOf(w, s).Some? && i < |s.hypotheses|
    requires h.id == s.hypotheses[i].id && h.typ == s.hypotheses[i].typ && Evaluated(h)
    requires (forall x :: x in h.evidenceIds ==> x in CitableIds(s)) && RecordOk(w, h, SubjectOf(w, s).value, Progress(s))
    ensures Inv(w, s.(hypotheses := s.hypotheses[i := h]))
  {
    var s' := s.(hypotheses := s.hypotheses[i := h]);
    assert SubjectOf(w, s') == SubjectOf(w, s);
    assert CitableIds(s') == CitableIds(s);
    forall g | g in s'.hypotheses ensures g == h || g in s.hypotheses {
      var j :| 0 <= j < |s'.hypotheses| && s'.hypotheses[j] == g;
    }
  }

  lemma NeverLeadOnly(t: HypType, subject: Subject, r: Request)
    requires r in Requirements(t, subject)
    ensures !LeadOnly(r)
  {
  }

  lemma JudgedRecord(w: Snapshot, s: InvState, h: HypState, subject: Subject)
    requires Inv(w, s) && SubjectOf(w, s) == Some(subject)
    ensures RecordOk(w, Judged(w, s, h, subject), subject, Progress(s))
    ensures forall x :: x in Judged(w, s, h, subject).evidenceIds ==> x in CitableIds(s)
  {
    BagIsPartOfViews(w, s.evidence);
    forall e | e in s.evidence && e.request in Requirements(h.typ, subject) ensures !LeadOnly(e.request) {
      NeverLeadOnly(h.typ, subject, e.request);
    }
    if Definite(Evaluate(h.typ, subject, BagOf(s.evidence), w.cfg)) {
      VerdictsAreStable(h.typ, subject, subject, BagOf(s.evidence), w.views, w.cfg);
    }
  }

  ghost predicate DistinctPairs(proposals: seq<LinkProposal>) {
    forall i, j :: 0 <= i < j < |proposals| ==> (proposals[i].a, proposals[i].b) != (proposals[j].a, proposals[j].b)
  }

  lemma DistinctTail(proposals: seq<LinkProposal>)
    requires DistinctPairs(proposals) && proposals != []
    ensures DistinctPairs(proposals[1..])
    ensures forall q :: q in proposals[1..] ==> (q.a, q.b) != (proposals[0].a, proposals[0].b)
  {
    forall q | q in proposals[1..] ensures (q.a, q.b) != (proposals[0].a, proposals[0].b) {
      var i :| 0 <= i < |proposals| - 1 && proposals[1..][i] == q;
      assert proposals[i + 1] == q;
    }
  }

  lemma DistinctWith(p: LinkProposal, rest: seq<LinkProposal>)
    requires DistinctPairs(rest) && forall q :: q in rest ==> (q.a, q.b) != (p.a, p.b)
    ensures DistinctPairs([p] + rest)
  {
    var all := [p] + rest;
    forall i, j | 0 <= i < j < |all| ensures (all[i].a, all[i].b) != (all[j].a, all[j].b) {
      assert all[j] == rest[j - 1] && rest[j - 1] in rest;
    }
  }

  lemma {:induction false} OthersAreDistinct(proposals: seq<LinkProposal>, a: TradeId, b: TradeId)
    requires DistinctPairs(proposals)
    ensures DistinctPairs(Filter(proposals, (p: LinkProposal) => !(p.a == a && p.b == b)))
  {
    if proposals != [] {
      DistinctTail(proposals);
      OthersAreDistinct(proposals[1..], a, b);
      DistinctWith(proposals[0], Filter(proposals[1..], (p: LinkProposal) => !(p.a == a && p.b == b)));
    }
  }

  lemma {:induction false} OthersCount(proposals: seq<LinkProposal>, a: TradeId, b: TradeId)
    requires DistinctPairs(proposals)
    ensures var others := Filter(proposals, (p: LinkProposal) => !(p.a == a && p.b == b));
            if (a, b) in ProposedPairs(proposals) then |others| == |proposals| - 1 else others == proposals
  {
    if proposals != [] {
      var p, rest := proposals[0], proposals[1..];
      assert proposals == [p] + rest;
      DistinctTail(proposals);
      OthersCount(rest, a, b);
      assert ProposedPairs(proposals) == {(p.a, p.b)} + ProposedPairs(rest);
      assert p.a == a && p.b == b ==> (a, b) !in ProposedPairs(rest);
    }
  }

  lemma OthersAfterProposal(proposals: seq<LinkProposal>, a: TradeId, b: TradeId)
    requires DistinctPairs(proposals)
    ensures var others := Filter(proposals, (p: LinkProposal) => !(p.a == a && p.b == b));
            && DistinctPairs(others)
            && ((a, b) in ProposedPairs(proposals) ==> |others| == |proposals| - 1)
            && ((a, b) !in ProposedPairs(proposals) ==> others == proposals)
  {
    OthersAreDistinct(proposals, a, b);
    OthersCount(proposals, a, b);
  }

  function OtherProposals(proposals: seq<LinkProposal>, a: TradeId, b: TradeId): seq<LinkProposal> {
    Filter(proposals, (p: LinkProposal) => !(p.a == a && p.b == b))
  }

  /** The proposals after the pair was proposed with this outcome. */
  function Proposing(proposals: seq<LinkProposal>, a: TradeId, b: TradeId, status: bool): seq<LinkProposal> {
    OtherProposals(proposals, a, b) + [LinkProposal(a, b, status)]
  }

  lemma LinkProposes(proposals: seq<LinkProposal>, a: TradeId, b: TradeId, status: bool)
    requires DistinctPairs(proposals)
    ensures var after := Proposing(proposals, a, b, status);
            && ProposedPairs(after) == ProposedPairs(proposals) + {(a, b)}
            && |after| == |proposals| + if (a, b) in ProposedPairs(proposals) then 0 else 1
  {
    OthersAfterProposal(proposals, a, b);
    forall p: Pair ensures p in ProposedPairs(Proposing(proposals, a, b, status)) <==> p in ProposedPairs(proposals) || p == (a, b) {
      ProposedPairMembers(proposals, OtherProposals(proposals, a, b), status, a, b, p);
    }
  }

  lemma LinkVerifies(w: Snapshot, s: InvState, a: TradeId, b: TradeId, status: bool)
    requires CompareTrades(a, b) in BagOf(s.evidence) && ProposalsOk(BagOf(s.evidence), s.proposals, w.cfg)
    requires BagOf(s.evidence)[CompareTrades(a, b)].ComparisonV?
    requires status == LinkChecks(BagOf(s.evidence)[CompareTrades(a, b)].cmp, w.cfg)
    ensures var before, after := VerifiedPairs(s.proposals), VerifiedPairs(Proposing(s.proposals, a, b, status));
            && before <= after <= before + {(a, b)}
            && ((a, b) in after <==> status)
            && ((a, b) in ProposedPairs(s.proposals) ==> after == before)
  {
    var others := OtherProposals(s.proposals, a, b);
    forall p: Pair | p != (a, b)
      ensures p in VerifiedPairs(Proposing(s.proposals, a, b, status)) <==> p in VerifiedPairs(s.proposals)
    {
      VerifiedPairMembers(s.proposals, others, status, a, b, p);
    }
    VerifiedLast(w, s, others, status, a, b);
  }

  lemma LinkIsProposing(w: Snapshot, s: InvState, a: TradeId, b: TradeId)
    requires CompareTrades(a, b) in BagOf(s.evidence) && BagOf(s.evidence)[CompareTrades(a, b)].ComparisonV?
    ensures OnLink(w, s, a, b).0.proposals == Proposing(s.proposals, a, b, LinkChecks(BagOf(s.evidence)[CompareTrades(a, b)].cmp, w.cfg))
  {
  }

  lemma ProposingKeeps(bag: Bag, proposals: seq<LinkProposal>, a: TradeId, b: TradeId, status: bool, cfg: Config)
    requires ProposalsOk(bag, proposals, cfg) && CompareTrades(a, b) in bag && bag[CompareTrades(a, b)].ComparisonV?
    requires status == LinkChecks(bag[CompareTrades(a, b)].cmp, cfg)
    ensures ProposalsOk(bag, Proposing(proposals, a, b, status), cfg)
  {
    var others, after := OtherProposals(proposals, a, b), Proposing(proposals, a, b, status);
    OthersAfterProposal(proposals, a, b);
    forall i, j | 0 <= i < j < |after| ensures (after[i].a, after[i].b) != (after[j].a, after[j].b) {
      if j == |others| { assert others[i] in others; }
    }
  }

  lemma LinkKeepsProposals(w: Snapshot, s: InvState, a: TradeId, b: TradeId)
    requires Inv(w, s) && CompareTrades(a, b) in BagOf(s.evidence)
    ensures ProposalsOk(BagOf(s.evidence), OnLink(w, s, a, b).0.proposals, w.cfg)
  {
    BagMembers(w, s.evidence, CompareTrades(a, b));
    LinkIsProposing(w, s, a, b);
    ProposingKeeps(BagOf(s.evidence), s.proposals, a, b, LinkChecks(BagOf(s.evidence)[CompareTrades(a, b)].cmp, w.cfg), w.cfg);
  }

  /** A proposal keeps the other pairs, and gives its pair the status the comparison implies. */
  lemma LinkOutcome(w: Snapshot, s: InvState, a: TradeId, b: TradeId)
    requires Inv(w, s) && CompareTrades(a, b) in BagOf(s.evidence)
    ensures var s' := OnLink(w, s, a, b).0;
            && ProposedPairs(s'.proposals) == ProposedPairs(s.proposals) + {(a, b)}
            && Links(w, s) <= Links(w, s') <= Links(w, s) + {(a, b)}
            && ((a, b) in Links(w, s') - Links(w, s) ==> PassedChecks((a, b), w.views, w.cfg))
            && (if (a, b) in ProposedPairs(s.proposals)
                then |s'.proposals| == |s.proposals| && Links(w, s') == Links(w, s)
                else |s'.proposals| == |s.proposals| + 1)
  {
    BagMembers(w, s.evidence, CompareTrades(a, b));
    var status := LinkChecks(BagOf(s.evidence)[CompareTrades(a, b)].cmp, w.cfg);
    LinkIsProposing(w, s, a, b);
    LinkProposes(s.proposals, a, b, status);
    LinkVerifies(w, s, a, b, status);
  }

  lemma VerifiedLast(w: Snapshot, s: InvState, others: seq<LinkProposal>, status: bool, a: TradeId, b: TradeId)
    requires CompareTrades(a, b) in BagOf(s.evidence) && ProposalsOk(BagOf(s.evidence), s.proposals, w.cfg)
    requires BagOf(s.evidence)[CompareTrades(a, b)].ComparisonV?
    requires status == LinkChecks(BagOf(s.evidence)[CompareTrades(a, b)].cmp, w.cfg)
    requires others == Filter(s.proposals, (p: LinkProposal) => !(p.a == a && p.b == b))
    ensures (a, b) in VerifiedPairs(others + [LinkProposal(a, b, status)]) <==> status
    ensures (a, b) in VerifiedPairs(s.proposals) ==> status
    ensures (a, b) in ProposedPairs(s.proposals) && status ==> (a, b) in VerifiedPairs(s.proposals)
  {
    var all := others + [LinkProposal(a, b, status)];
    assert all[|others|] == LinkProposal(a, b, status);
    if (a, b) in ProposedPairs(s.proposals) {
      var p :| p in s.proposals && p.a == a && p.b == b;
      assert p.verified == status;
    }
  }

  lemma ProposedPairMembers(ps: seq<LinkProposal>, others: seq<LinkProposal>, status: bool, a: TradeId, b: TradeId, p: Pair)
    requires others == Filter(ps, (q: LinkProposal) => !(q.a == a && q.b == b))
    ensures p in ProposedPairs(others + [LinkProposal(a, b, status)]) <==> p in ProposedPairs(ps) || p == (a, b)
  {
    var all := others + [LinkProposal(a, b, status)];
    assert all[|others|] == LinkProposal(a, b, status);
    if p in ProposedPairs(ps) && p != (a, b) {
      var q :| q in ps && (q.a, q.b) == p;
      assert q in all;
    }
  }

  lemma VerifiedPairMembers(ps: seq<LinkProposal>, others: seq<LinkProposal>, status: bool, a: TradeId, b: TradeId, p: Pair)
    requires others == Filter(ps, (q: LinkProposal) => !(q.a == a && q.b == b)) && p != (a, b)
    ensures p in VerifiedPairs(others + [LinkProposal(a, b, status)]) <==> p in VerifiedPairs(ps)
  {
    var all := others + [LinkProposal(a, b, status)];
    if p in VerifiedPairs(ps) {
      var q :| q in ps && q.verified && (q.a, q.b) == p;
      assert q in all;
    }
    if p in VerifiedPairs(all) {
      var q :| q in all && q.verified && (q.a, q.b) == p;
      assert q in others;
    }
  }

  lemma LinkKeepsInv(w: Snapshot, s: InvState, a: TradeId, b: TradeId)
    requires Inv(w, s) && !Done(s)
    ensures Inv(w, OnLink(w, s, a, b).0)
  {
    var s' := OnLink(w, s, a, b).0;
    if s' != s {
      LinkKeepsProposals(w, s, a, b);
      LinkOutcome(w, s, a, b);
      SubjectFromViews(w, s);
      SubjectFromViews(w, s');
      assert CitableIds(s) == CitableIds(s');
      forall h | h in s'.hypotheses && Evaluated(h)
        ensures SubjectOf(w, s').Some? && RecordOk(w, h, SubjectOf(w, s').value, Progress(s'))
      {
        RecordSurvivesLinks(w, h, SubjectOf(w, s).value, SubjectOf(w, s').value, Progress(s), Progress(s'));
      }
    }
  }

  lemma RecordSurvivesLinks(w: Snapshot, h: HypState, subject: Subject, subject': Subject, progress: nat, progress': nat)
    requires WellTyped(w.views) && subject.episode.tradeIds != []
    requires CleanExtension(subject, subject', w.views, w.cfg)
    requires progress <= progress' && (progress == progress' ==> subject == subject')
    requires RecordOk(w, h, subject, progress)
    ensures RecordOk(w, h, subject', progress')
  {
    if Definite(h.eval) {
      CleanLinksKeepVerdict(h.typ, subject, subject', w.views, w.cfg);
    }
  }

  /** Equal but for the conclusion, the abstention and the stall counters. */
  ghost predicate SameCore(s: InvState, s': InvState) {
    && s'.episodeId == s.episodeId && s'.hypotheses == s.hypotheses
    && s'.evidence == s.evidence && s'.proposals == s.proposals
  }

  lemma SameCoreInv(w: Snapshot, s: InvState, s': InvState)
    requires Inv(w, s) && SameCore(s, s')
    ensures SubjectOf(w, s') == SubjectOf(w, s) && Adjudged(w, s') == Adjudged(w, s)
    ensures s'.conclusion == s.conclusion || s'.conclusion.None? ==> Inv(w, s')
    ensures ConcludedWell(w, s') ==> Inv(w, s')
  {
    assert CitableIds(s') == CitableIds(s) && Progress(s') == Progress(s);
  }

  lemma ConcludeKeepsInv(w: Snapshot, s: InvState, id: nat, cited: set<nat>, clean: bool)
    requires Inv(w, s) && !Done(s)
    ensures Inv(w, OnConclude(w, s, id, cited, clean).0)
  {
    var s' := OnConclude(w, s, id, cited, clean).0;
    SameCoreInv(w, s, s');
  }

  lemma AbstainKeepsInv(w: Snapshot, s: InvState, reason: string, missing: set<Missing>)
    requires Inv(w, s) && !Done(s)
    ensures Inv(w, OnAbstain(w, s, reason, missing).0)
  {
    SameCoreInv(w, s, OnAbstain(w, s, reason, missing).0);
  }

  lemma HandleKeepsInv(w: Snapshot, s: InvState, action: Action, ok: bool)
    requires Inv(w, s) && !Done(s)
    ensures Inv(w, Handle(w, s, action, ok).0) && Handle(w, s, action, ok).0.episodeId == s.episodeId
  {
    match action
    case Propose(types) => ProposeKeepsInv(w, s, types);
    case CallTool(r) =>
      if ok && r in w.views && !Holds(s.evidence, r) { AppendKeepsInv(w, s, Item(|s.evidence| + 1, r, w.views[r])); }
    case EvaluateHyp(id) => EvaluateKeepsInv(w, s, id);
    case ProposeLink(a, b) => LinkKeepsInv(w, s, a, b);
    case Conclude(id, cited, clean) => ConcludeKeepsInv(w, s, id, cited, clean);
    case Abstain(reason, missing) => AbstainKeepsInv(w, s, reason, missing);
  }

  /** Every action, accepted or refused, keeps the protocol invariant. */
  lemma ApplyKeepsInv(w: Snapshot, s: InvState, action: Action, ok: bool)
    requires Inv(w, s) && !Done(s)
    ensures Inv(w, Apply(w, s, action, ok).0) && Apply(w, s, action, ok).0.episodeId == s.episodeId
  {
    HandleKeepsInv(w, s, action, ok);
    SameCoreInv(w, Handle(w, s, action, ok).0, Apply(w, s, action, ok).0);
  }
}
