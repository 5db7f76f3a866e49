/** The playbook finishes every run: from any state any policy can reach, each of its steps
    lowers a measure of what is left to propose, fetch, link, evaluate and close, so it comes
    to an end. */
module PlaybookProgress {
  import opened Seqs
  import opened Trades
  import opened Evidence
  import opened Hypotheses
  import opened Adjudication
  import opened Investigator
  import opened Protocol
  import opened Soundness

  // ---------------------------------------------------------------- what the playbook asks for

  ghost function Unresolved(w: Snapshot, e: EpisodeId): seq<Pair> {
    var r := GetRelatedEpisodes(e);
    if r in w.views && w.views[r].RelatedV? then w.views[r].unresolved else []
  }

  /** Every request the playbook can come to make for this episode. */
  ghost function Pool(w: Snapshot, e: EpisodeId): set<Request>
    requires Known(w, e)
  {
    {GetEpisode(e), GetRelatedEpisodes(e)}
    + (set t, r | t in CATALOG && r in Requirements(t, FullSubject(w, e, w.links)) :: r)
    + (set p | p in Unresolved(w, e) :: CompareTrades(p.0, p.1))
  }

  ghost predicate ToolsAnswer(w: Snapshot, e: EpisodeId) {
    Known(w, e) && forall r :: r in Pool(w, e) ==> r in w.views
  }

  // ---------------------------------------------------------------- termination measure

  ghost function TypesToPropose(w: Snapshot, e: EpisodeId, hs: seq<HypState>): set<HypType>
    requires Known(w, e)
  {
    set t | t in CATALOG && Applies(t, FullSubject(w, e, {}), w.cfg) && t !in KnownTypes(hs)
  }

  ghost function PairsToPropose(w: Snapshot, e: EpisodeId, proposals: seq<LinkProposal>): set<Pair> {
    set p | p in Unresolved(w, e) && p !in ProposedPairs(proposals)
  }

  ghost function ToFetch(w: Snapshot, e: EpisodeId, evidence: seq<Item>): set<Request>
    requires Known(w, e)
  {
    set r | r in Pool(w, e) && !Holds(evidence, r)
  }

  ghost function ToEvaluate(w: Snapshot, e: EpisodeId, hs: seq<HypState>, links: set<Pair>): set<nat>
    requires Known(w, e)
  {
    set i: nat | i < |hs| && Stale(hs[i], FullSubject(w, e, links))
  }

  /** What is left: types to propose, pairs to propose, evidence to fetch, hypotheses to
      evaluate, and whether the run is open. */
  datatype Left = Left(types: set<HypType>, pairs: set<Pair>, requests: set<Request>, stale: set<nat>, open: bool)

  ghost function LeftOf(w: Snapshot, s: InvState): Left
    requires Known(w, s.episodeId)
  {
    Left(TypesToPropose(w, s.episodeId, s.hypotheses),
         PairsToPropose(w, s.episodeId, s.proposals),
         ToFetch(w, s.episodeId, s.evidence),
         ToEvaluate(w, s.episodeId, s.hypotheses, Links(w, s)),
         !Done(s))
  }

  /** Lexicographic order on what is left. */
  ghost predicate Less(m: Left, n: Left) {
    || m.types < n.types
    || (m.types == n.types && m.pairs < n.pairs)
    || (m.types == n.types && m.pairs == n.pairs && m.requests < n.requests)
    || (m.types == n.types && m.pairs == n.pairs && m.requests == n.requests && m.stale < n.stale)
    || (m.types == n.types && m.pairs == n.pairs && m.requests == n.requests && m.stale == n.stale && !m.open && n.open)
  }

  ghost predicate Progresses(w: Snapshot, s: InvState, action: Action)
    requires Inv(w, s) && !Done(s) && Known(w, s.episodeId)
  {
    var s' := Next(w, s, Turn(action, true));
    Signature(s') != Signature(s) && Less(LeftOf(w, s'), LeftOf(w, s))
  }

  /** Only the stall counters separate the next state from what the handler returns. */
  lemma NextIsHandled(w: Snapshot, s: InvState, action: Action, t: InvState)
    requires Inv(w, s) && !Done(s) && Known(w, s.episodeId)
    requires t == Handle(w, s, action, true).0
    ensures var n := Next(w, s, Turn(action, true));
            SameCore(t, n) && n.conclusion == t.conclusion && n.abstained == t.abstained
    ensures t.episodeId == s.episodeId && Inv(w, t)
    ensures Signature(t) != Signature(s) && Less(LeftOf(w, t), LeftOf(w, s)) ==> Progresses(w, s, action)
  {
    HandleKeepsInv(w, s, action, true);
    var n := Next(w, s, Turn(action, true));
    assert Signature(n) == Signature(t);
    assert LeftOf(w, n) == LeftOf(w, t);
  }

  // ---------------------------------------------------------------- requirements

  lemma RequirementsAreDistinct(t: HypType, s: Subject)
    requires NoDuplicates(s.episode.tradeIds)
    ensures NoDuplicates(Requirements(t, s))
  {
    if t == CancelRebookCorrection || t == RebookEconomicsChanged {
      RebookRequirementsOnce(t, s);
    } else {
      TradesOnce(s.episode.tradeIds, true);
      TradesOnce(s.episode.tradeIds, false);
    }
  }

  lemma RebookRequirementsOnce(t: HypType, s: Subject)
    requires t == CancelRebookCorrection || t == RebookEconomicsChanged
    ensures NoDuplicates(Requirements(t, s))
  {
    var e, cs := s.episode.episodeId, Comparisons(s.RebookPairs());
    PairsOnce(s.RebookPairs());
    forall r | r in cs ensures r.CompareTrades? { ComparisonsOf(s, r); }
    FramedOnce([GetEventSequence(e)], cs);
    if t == RebookEconomicsChanged { FramedOnce([GetEventSequence(e)] + cs, [GetRecurrence(e)]); }
  }

  lemma FramedOnce(rs: seq<Request>, qs: seq<Request>)
    requires NoDuplicates(rs) && NoDuplicates(qs) && forall r :: r in rs ==> r !in qs
    ensures NoDuplicates(rs + qs)
  {
    forall i, j | 0 <= i < j < |rs + qs| ensures (rs + qs)[i] != (rs + qs)[j] {
      if i < |rs| <= j { assert rs[i] in rs && qs[j - |rs|] in qs; }
    }
  }

  lemma TradesOnce(trades: seq<TradeId>, history: bool)
    requires NoDuplicates(trades)
    ensures NoDuplicates(PerTrade(trades, history))
  {
  }

  lemma PairsOnce(pairs: seq<Pair>)
    requires NoDuplicates(pairs)
    ensures NoDuplicates(Comparisons(pairs))
  {
    forall i, j | 0 <= i < j < |pairs| ensures Comparisons(pairs)[i] != Comparisons(pairs)[j] {
      assert pairs[i] != pairs[j];
    }
  }

  lemma RecordedSetMatchesList(t: HypType, s: Subject)
    requires NoDuplicates(s.episode.tradeIds)
    ensures multiset(Requirements(t, s)) == multiset(set r | r in Requirements(t, s))
  {
    RequirementsAreDistinct(t, s);
    SetOfNoDuplicates(Requirements(t, s));
  }

  lemma DistinctTrades(w: Snapshot, e: EpisodeId, links: set<Pair>)
    requires Known(w, e)
    ensures NoDuplicates(FullSubject(w, e, links).episode.tradeIds)
    ensures FullSubject(w, e, links).episode.episodeId == e
  {
    assert Fits(GetEpisode(e), w.views[GetEpisode(e)]);
  }

  /** A requirement under the links of the run is in the pool, or was met by a proposal. */
  lemma RequirementsArePooled(w: Snapshot, s: InvState, t: HypType, r: Request)
    requires Inv(w, s) && Known(w, s.episodeId)
    requires r in Requirements(t, FullSubject(w, s.episodeId, Links(w, s)))
    ensures r in Pool(w, s.episodeId) || r in BagOf(s.evidence)
  {
    CatalogIsComplete(t);
    var now, base := FullSubject(w, s.episodeId, Links(w, s)), FullSubject(w, s.episodeId, w.links);
    if t == CancelRebookCorrection || t == RebookEconomicsChanged {
      RebookRequirementShape(t, now, r);
      RebookRequirementShape(t, base, r);
      if r !in Requirements(t, base) {
        assert (r.a, r.b) in VerifiedPairs(s.proposals);
      }
    } else {
      assert Requirements(t, base) == Requirements(t, now);
    }
  }

  // ---------------------------------------------------------------- one step of each kind

  ghost predicate Complete(order: seq<HypType>) { forall t: HypType :: t in order }

  lemma AppliesIgnoresLinks(t: HypType, s: Subject, s': Subject, cfg: Config)
    requires s.episode == s'.episode
    ensures Applies(t, s, cfg) == Applies(t, s', cfg)
  {
  }

  lemma UnproposedMember(order: seq<HypType>, w: Snapshot, s: InvState, subject: Subject, t: HypType)
    requires Complete(order)
    ensures t in Unproposed(order, w, s, subject) <==> Applies(t, subject, w.cfg) && t !in KnownTypes(s.hypotheses)
  {
  }

  lemma TypesShrink(w: Snapshot, e: EpisodeId, hs: seq<HypState>, hs': seq<HypState>, t: HypType)
    requires Known(w, e) && KnownTypes(hs) <= KnownTypes(hs')
    requires Applies(t, FullSubject(w, e, {}), w.cfg) && t !in KnownTypes(hs) && t in KnownTypes(hs')
    ensures TypesToPropose(w, e, hs') < TypesToPropose(w, e, hs)
  {
    CatalogIsComplete(t);
    assert t in TypesToPropose(w, e, hs) && t !in TypesToPropose(w, e, hs');
  }

  lemma ProposingProgresses(w: Snapshot, s: InvState, ts: seq<HypType>)
    requires Inv(w, s) && !Done(s) && Known(w, s.episodeId)
    requires ts != [] && ts[0] !in KnownTypes(s.hypotheses) && Applies(ts[0], FullSubject(w, s.episodeId, {}), w.cfg)
    ensures Progresses(w, s, Propose(Somes(ts)))
  {
    AddingShrinks(w, s.episodeId, s.hypotheses, ts);
    NextIsHandled(w, s, Propose(Somes(ts)), s.(hypotheses := AddTypes(s.hypotheses, Somes(ts))));
  }

  lemma AddingShrinks(w: Snapshot, e: EpisodeId, hs: seq<HypState>, ts: seq<HypType>)
    requires forall i :: 0 <= i < |hs| ==> hs[i].id == i + 1
    requires forall i, j :: 0 <= i < j < |hs| ==> hs[i].typ != hs[j].typ
    requires Known(w, e) && ts != [] && ts[0] !in KnownTypes(hs) && Applies(ts[0], FullSubject(w, e, {}), w.cfg)
    ensures TypesToPropose(w, e, AddTypes(hs, Somes(ts))) < TypesToPropose(w, e, hs)
    ensures HypMarks(AddTypes(hs, Somes(ts))) != HypMarks(hs)
  {
    AddTypesKeeps(hs, Somes(ts));
    var hs' := AddTypes(hs, Somes(ts));
    assert Somes(ts)[0] == Some(ts[0]);
    assert ts[0] in KnownTypes(hs');
    TypesShrink(w, e, hs, hs', ts[0]);
    assert hs' != hs && hs <= hs';
    assert |HypMarks(hs')| != |HypMarks(hs)|;
  }

  lemma FirstUnproposed(order: seq<HypType>, w: Snapshot, s: InvState, subject: Subject)
    requires Complete(order) && Inv(w, s) && SubjectOf(w, s) == Some(subject) && Unproposed(order, w, s, subject) != []
    ensures Known(w, s.episodeId)
    ensures var t := Unproposed(order, w, s, subject)[0];
            t !in KnownTypes(s.hypotheses) && Applies(t, FullSubject(w, s.episodeId, {}), w.cfg)
  {
    SubjectIsFull(w, s);
    var t := Unproposed(order, w, s, subject)[0];
    assert t in Unproposed(order, w, s, subject);
    UnproposedMember(order, w, s, subject, t);
    AppliesIgnoresLinks(t, subject, FullSubject(w, s.episodeId, {}), w.cfg);
  }

  lemma FetchingProgresses(w: Snapshot, s: InvState, r: Request)
    requires Inv(w, s) && !Done(s) && Known(w, s.episodeId)
    requires r in Pool(w, s.episodeId) && r in w.views && !Holds(s.evidence, r)
    ensures Progresses(w, s, CallTool(r))
  {
    var item := Item(|s.evidence| + 1, r, w.views[r]);
    var more := s.evidence + [item];
    forall q ensures Holds(more, q) <==> Holds(s.evidence, q) || q == r {
      if Holds(s.evidence, q) {
        var e :| e in s.evidence && e.request == q;
        assert e in more;
      }
      assert more[|s.evidence|] == item;
    }
    assert r in ToFetch(w, s.episodeId, s.evidence) && r !in ToFetch(w, s.episodeId, more);
    NextIsHandled(w, s, CallTool(r), s.(evidence := more));
  }

  lemma LinkingProgresses(w: Snapshot, s: InvState, a: TradeId, b: TradeId)
    requires Inv(w, s) && !Done(s) && Known(w, s.episodeId)
    requires (a, b) in Unresolved(w, s.episodeId) && (a, b) !in ProposedPairs(s.proposals)
    requires CompareTrades(a, b) in BagOf(s.evidence)
    ensures Progresses(w, s, ProposeLink(a, b))
  {
    BagMembers(w, s.evidence, CompareTrades(a, b));
    LinkOutcome(w, s, a, b);
    var t := OnLink(w, s, a, b).0;
    assert t == s.(proposals := t.proposals);
    PairsShrink(w, s.episodeId, s.proposals, t.proposals, (a, b));
    NextIsHandled(w, s, ProposeLink(a, b), t);
  }

  lemma PairsShrink(w: Snapshot, e: EpisodeId, before: seq<LinkProposal>, after: seq<LinkProposal>, p: Pair)
    requires p in Unresolved(w, e) && p !in ProposedPairs(before)
    requires ProposedPairs(after) == ProposedPairs(before) + {p}
    ensures PairsToPropose(w, e, after) < PairsToPropose(w, e, before)
  {
    assert p in PairsToPropose(w, e, before) && p !in PairsToPropose(w, e, after);
  }

  lemma FindsById(w: Snapshot, s: InvState, i: nat)
    requires Inv(w, s) && i < |s.hypotheses|
    ensures Find(s.hypotheses, s.hypotheses[i].id) == Some(i)
  {
    var at := Find(s.hypotheses, s.hypotheses[i].id);
    assert s.hypotheses[i] in s.hypotheses;
  }

  lemma StaleShrinks(w: Snapshot, e: EpisodeId, hs: seq<HypState>, links: set<Pair>, i: nat, h: HypState)
    requires Known(w, e) && i < |hs|
    requires Stale(hs[i], FullSubject(w, e, links)) && !Stale(h, FullSubject(w, e, links))
    ensures ToEvaluate(w, e, hs[i := h], links) < ToEvaluate(w, e, hs, links)
  {
    assert i in ToEvaluate(w, e, hs, links) && i !in ToEvaluate(w, e, hs[i := h], links);
  }

  lemma SameTypesSameProposals(w: Snapshot, e: EpisodeId, hs: seq<HypState>, hs': seq<HypState>)
    requires Known(w, e) && KnownTypes(hs) == KnownTypes(hs')
    ensures TypesToPropose(w, e, hs) == TypesToPropose(w, e, hs')
  {
  }

  lemma EvaluatingProgresses(w: Snapshot, s: InvState, subject: Subject, i: nat)
    requires Inv(w, s) && !Done(s) && SubjectOf(w, s) == Some(subject) && Known(w, s.episodeId)
    requires i < |s.hypotheses| && Stale(s.hypotheses[i], subject)
    ensures Progresses(w, s, EvaluateHyp(s.hypotheses[i].id))
  {
    SubjectIsFull(w, s);
    var h := s.hypotheses[i];
    JudgedIsCurrent(w, s, h, subject);
    EvaluationHandled(w, s, subject, i);
    ReplacingProgresses(w, s, i, Judged(w, s, h, subject));
  }

  lemma EvaluationHandled(w: Snapshot, s: InvState, subject: Subject, i: nat)
    requires Inv(w, s) && SubjectOf(w, s) == Some(subject) && i < |s.hypotheses|
    ensures Handle(w, s, EvaluateHyp(s.hypotheses[i].id), true).0
         == s.(hypotheses := s.hypotheses[i := Judged(w, s, s.hypotheses[i], subject)])
  {
    FindsById(w, s, i);
  }

  lemma ReplacingProgresses(w: Snapshot, s: InvState, i: nat, h: HypState)
    requires Inv(w, s) && !Done(s) && Known(w, s.episodeId) && i < |s.hypotheses|
    requires h.typ == s.hypotheses[i].typ
    requires h.eval.status != s.hypotheses[i].eval.status || h.evaluatedAt != s.hypotheses[i].evaluatedAt
    requires Stale(s.hypotheses[i], FullSubject(w, s.episodeId, Links(w, s)))
    requires !Stale(h, FullSubject(w, s.episodeId, Links(w, s)))
    requires Handle(w, s, EvaluateHyp(s.hypotheses[i].id), true).0 == s.(hypotheses := s.hypotheses[i := h])
    ensures Progresses(w, s, EvaluateHyp(s.hypotheses[i].id))
  {
    var hs := s.hypotheses[i := h];
    SameTypesAfterUpdate(s.hypotheses, i, h);
    SameTypesSameProposals(w, s.episodeId, s.hypotheses, hs);
    StaleShrinks(w, s.episodeId, s.hypotheses, Links(w, s), i, h);
    MarksDiffer(s.hypotheses, i, h);
    NextIsHandled(w, s, EvaluateHyp(s.hypotheses[i].id), s.(hypotheses := hs));
  }

  lemma MarksDiffer(hs: seq<HypState>, i: nat, h: HypState)
    requires i < |hs| && (h.eval.status != hs[i].eval.status || h.evaluatedAt != hs[i].evaluatedAt)
    ensures HypMarks(hs[i := h]) != HypMarks(hs)
  {
    assert HypMarks(hs[i := h])[i] != HypMarks(hs)[i];
  }

  /** After an evaluation the hypothesis is current; if it was stale, its mark changed. */
  lemma JudgedIsCurrent(w: Snapshot, s: InvState, h: HypState, subject: Subject)
    requires Inv(w, s) && SubjectOf(w, s) == Some(subject) && Known(w, s.episodeId) && h in s.hypotheses
    ensures var h' := Judged(w, s, h, subject);
            && !Stale(h', subject)
            && (Stale(h, subject) ==> h'.eval.status != h.eval.status || h'.evaluatedAt != h.evaluatedAt)
  {
    SubjectIsFull(w, s);
    DistinctTrades(w, s.episodeId, Links(w, s));
    RecordedSetMatchesList(h.typ, subject);
  }

  lemma SameTypesAfterUpdate(hs: seq<HypState>, i: nat, h: HypState)
    requires i < |hs| && h.typ == hs[i].typ
    ensures KnownTypes(hs[i := h]) == KnownTypes(hs)
  {
    var hs' := hs[i := h];
    forall t ensures t in KnownTypes(hs') <==> t in KnownTypes(hs) {
      if t in KnownTypes(hs) {
        var j :| 0 <= j < |hs| && hs[j].typ == t;
        assert hs'[j] in hs';
      }
      if t in KnownTypes(hs') {
        var j :| 0 <= j < |hs'| && hs'[j].typ == t;
        assert hs[j] in hs;
      }
    }
  }

  lemma ClosingProgresses(w: Snapshot, s: InvState, action: Action, t: InvState)
    requires Inv(w, s) && !Done(s) && Known(w, s.episodeId)
    requires t == Handle(w, s, action, true).0 && Done(t) && SameCore(s, t)
    ensures Progresses(w, s, action)
  {
    NextIsHandled(w, s, action, t);
  }

  // ---------------------------------------------------------------- the whole policy

  lemma NotHeld(w: Snapshot, s: InvState, r: Request)
    requires Inv(w, s) && r !in BagOf(s.evidence) && !LeadOnly(r)
    ensures !Holds(s.evidence, r)
  {
    BagMembers(w, s.evidence, r);
  }

  lemma LinkStepProgresses(w: Snapshot, s: InvState)
    requires Inv(w, s) && !Done(s) && ToolsAnswer(w, s.episodeId)
    requires LinkStep(s, BagOf(s.evidence)).Some?
    ensures Progresses(w, s, LinkStep(s, BagOf(s.evidence)).value)
  {
    var bag, related := BagOf(s.evidence), GetRelatedEpisodes(s.episodeId);
    BagIsPartOfViews(w, s.evidence);
    if related !in bag {
      NotHeld(w, s, related);
      FetchingProgresses(w, s, related);
    } else {
      assert Fits(related, bag[related]);
      assert bag[related].unresolved == Unresolved(w, s.episodeId);
      var unresolved := bag[related].unresolved;
      var i := OpenPair(unresolved, RebookGaps(s.hypotheses), ProposedPairs(s.proposals)).value;
      var (a, b) := unresolved[i];
      assert (a, b) in Unresolved(w, s.episodeId);
      if CompareTrades(a, b) !in bag {
        NotHeld(w, s, CompareTrades(a, b));
        FetchingProgresses(w, s, CompareTrades(a, b));
      } else {
        LinkingProgresses(w, s, a, b);
      }
    }
  }

  ghost predicate CheckFound(action: Action, hs: seq<HypState>, subject: Subject, bag: Bag) {
    || (action.CallTool? && exists t :: action.request in MissingRequests(t, subject, bag))
    || (action.EvaluateHyp? && exists i :: 0 <= i < |hs| && action.id == hs[i].id && Stale(hs[i], subject)
                                            && MissingRequests(hs[i].typ, subject, bag) == [])
  }

  ghost predicate NothingToCheck(h: HypState, subject: Subject, bag: Bag) {
    MissingRequests(h.typ, subject, bag) == [] && !Stale(h, subject)
  }

  lemma HypOfIsUnique(hs: seq<HypState>, i: nat)
    requires forall i, j :: 0 <= i < j < |hs| ==> hs[i].typ != hs[j].typ
    requires i < |hs|
    ensures HypOf(hs, hs[i].typ) == Some(i)
  {
    assert hs[i] in hs;
  }

  lemma CheckTypeMeaning(t: HypType, hs: seq<HypState>, subject: Subject, bag: Bag)
    requires forall i, j :: 0 <= i < j < |hs| ==> hs[i].typ != hs[j].typ
    ensures var check := CheckType(t, hs, subject, bag);
            if check.Some? then CheckFound(check.value, hs, subject, bag)
            else forall i :: 0 <= i < |hs| && hs[i].typ == t ==> NothingToCheck(hs[i], subject, bag)
  {
    var at := HypOf(hs, t);
    if at.Some? {
      var missing := MissingRequests(t, subject, bag);
      assert missing != [] ==> missing[0] in missing;
    }
    forall i | 0 <= i < |hs| && hs[i].typ == t
      ensures at == Some(i)
    {
      HypOfIsUnique(hs, i);
    }
  }

  /** The next check, if any, is a missing requirement or a stale evaluation of some recorded
      hypothesis; if none, every recorded hypothesis of `order` is current and evidenced. */
  lemma {:induction false} NextCheckMeaning(order: seq<HypType>, hs: seq<HypState>, subject: Subject, bag: Bag)
    requires forall i, j :: 0 <= i < j < |hs| ==> hs[i].typ != hs[j].typ
    ensures var next := NextCheck(order, hs, subject, bag);
            if next.Some? then CheckFound(next.value, hs, subject, bag)
            else forall i :: 0 <= i < |hs| && hs[i].typ in order ==> NothingToCheck(hs[i], subject, bag)
  {
    if order != [] {
      assert order == [order[0]] + order[1..];
      CheckTypeMeaning(order[0], hs, subject, bag);
      NextCheckMeaning(order[1..], hs, subject, bag);
    }
  }

  lemma CheckProgresses(order: seq<HypType>, w: Snapshot, s: InvState, subject: Subject)
    requires Inv(w, s) && !Done(s) && ToolsAnswer(w, s.episodeId) && SubjectOf(w, s) == Some(subject)
    requires NextCheck(order, s.hypotheses, subject, BagOf(s.evidence)).Some?
    ensures Progresses(w, s, NextCheck(order, s.hypotheses, subject, BagOf(s.evidence)).value)
  {
    SubjectIsFull(w, s);
    var bag := BagOf(s.evidence);
    NextCheckMeaning(order, s.hypotheses, subject, bag);
    var action := NextCheck(order, s.hypotheses, subject, bag).value;
    if action.CallTool? {
      var t :| action.request in MissingRequests(t, subject, bag);
      RequirementsArePooled(w, s, t, action.request);
      NeverLeadOnly(t, subject, action.request);
      NotHeld(w, s, action.request);
      FetchingProgresses(w, s, action.request);
    } else {
      var i :| 0 <= i < |s.hypotheses| && action.id == s.hypotheses[i].id && Stale(s.hypotheses[i], subject);
      EvaluatingProgresses(w, s, subject, i);
    }
  }

  /** All applicable hypotheses are recorded, evidenced and currently evaluated. */
  ghost predicate Settled(order: seq<HypType>, w: Snapshot, s: InvState, subject: Subject) {
    && Unproposed(order, w, s, subject) == []
    && NextCheck(order, s.hypotheses, subject, BagOf(s.evidence)).None?
  }

  lemma NothingUnproposed(order: seq<HypType>, w: Snapshot, s: InvState, subject: Subject, t: HypType)
    requires Complete(order)
    requires Unproposed(order, w, s, subject) == [] && Applies(t, subject, w.cfg)
    ensures t in KnownTypes(s.hypotheses)
  {
    UnproposedMember(order, w, s, subject, t);
  }

  lemma SettledHypothesis(order: seq<HypType>, w: Snapshot, s: InvState, subject: Subject, h: HypState)
    requires Complete(order)
    requires Inv(w, s) && h in s.hypotheses
    requires NextCheck(order, s.hypotheses, subject, BagOf(s.evidence)).None?
    ensures Evaluated(h) && MissingRequests(h.typ, subject, BagOf(s.evidence)) == [] && !Stale(h, subject)
  {
    NextCheckMeaning(order, s.hypotheses, subject, BagOf(s.evidence));
    var i :| 0 <= i < |s.hypotheses| && s.hypotheses[i] == h;
  }

  lemma SettledLeavesNothingPending(order: seq<HypType>, w: Snapshot, s: InvState, subject: Subject)
    requires Complete(order)
    requires Inv(w, s) && SubjectOf(w, s) == Some(subject) && Settled(order, w, s, subject)
    ensures Pending(w, s, subject) == {}
  {
    forall t | Applies(t, subject, w.cfg) ensures t in EvaluatedTypes(s.hypotheses) {
      NothingUnproposed(order, w, s, subject, t);
      var h :| h in s.hypotheses && h.typ == t;
      SettledHypothesis(order, w, s, subject, h);
    }
    PendingMembers(w, s, subject);
  }

  lemma ConclusionIsRecorded(w: Snapshot, s: InvState)
    requires Inv(w, s) && Adjudged(w, s).conclusion.Some?
    ensures HypOf(s.hypotheses, Adjudged(w, s).conclusion.value).Some?
  {
    var rs, t := EvaluationsOf(s.hypotheses), Adjudged(w, s).conclusion.value;
    ConclusionOccurs(rs, w.cfg.explains);
    var r :| r in rs && r.typ == t;
    EvaluationMembers(s.hypotheses, r);
  }

  lemma ConclusionOccurs(rs: seq<Assessed>, covers: Explains)
    ensures var c := Adjudicate(rs, covers).conclusion;
            c.Some? ==> exists r :: r in rs && r.typ == c.value
  {
    AdjudicationMeaning(rs, covers);
    FirstFinds(TypesWhere(rs, TypedAnomaly));
    FirstFinds(TypesWhere(rs, SupportedBenign));
    if TypesWhere(rs, TypedAnomaly) == {} && DeviationSplit(rs, covers).unexplained != {} {
      var x :| x in Deviating(rs);
    }
  }

  lemma ConcludingIsAccepted(w: Snapshot, s: InvState, i: nat, cited: set<nat>)
    requires Inv(w, s) && SubjectOf(w, s).Some? && Pending(w, s, SubjectOf(w, s).value) == {}
    requires i < |s.hypotheses| && (forall x :: x in cited ==> x in s.hypotheses[i].evidenceIds)
    requires Adjudged(w, s).conclusion == Some(s.hypotheses[i].typ)
    ensures OnConclude(w, s, s.hypotheses[i].id, cited, true).0 == s.(conclusion := Adjudged(w, s).conclusion)
  {
    FindsById(w, s, i);
    assert s.hypotheses[i] in s.hypotheses;
  }

  lemma AbstainingIsAccepted(w: Snapshot, s: InvState)
    requires SubjectOf(w, s).Some? && Pending(w, s, SubjectOf(w, s).value) == {}
    requires Adjudged(w, s).conclusion.None?
    ensures var verdict := Adjudged(w, s);
            OnAbstain(w, s, ReasonText(verdict.reason), verdict.missing).0
            == s.(abstained := true, abstainReason := Some(ReasonText(verdict.reason)),
                  missing := verdict.missing + KnownMissing(s))
  {
  }

  /** What a settled run ends in: the verifier's conclusion, or its reason and missing list. */
  function Closed(w: Snapshot, s: InvState): InvState {
    var verdict := Adjudged(w, s);
    if verdict.conclusion.Some? then s.(conclusion := verdict.conclusion)
    else s.(abstained := true, abstainReason := Some(ReasonText(verdict.reason)), missing := verdict.missing + KnownMissing(s))
  }

  lemma ClosingHandled(w: Snapshot, s: InvState, subject: Subject)
    requires Inv(w, s) && SubjectOf(w, s) == Some(subject) && Pending(w, s, subject) == {}
    ensures Handle(w, s, ClosingAction(w, s), true).0 == Closed(w, s)
  {
    if Adjudged(w, s).conclusion.Some? { ConcludingHandled(w, s, subject); } else { AbstainingIsAccepted(w, s); }
  }

  lemma ConcludingHandled(w: Snapshot, s: InvState, subject: Subject)
    requires Inv(w, s) && SubjectOf(w, s) == Some(subject) && Pending(w, s, subject) == {} && Adjudged(w, s).conclusion.Some?
    ensures Handle(w, s, ClosingAction(w, s), true).0 == Closed(w, s)
  {
    ConclusionIsRecorded(w, s);
    var i := HypOf(s.hypotheses, Adjudged(w, s).conclusion.value).value;
    ClosingConcludes(w, s, i);
    ConcludingIsAccepted(w, s, i, Cited(s.hypotheses[i].evidenceIds));
  }

  lemma ClosingConcludes(w: Snapshot, s: InvState, i: nat)
    requires Usable(w, s) && Adjudged(w, s).conclusion.Some? && HypOf(s.hypotheses, Adjudged(w, s).conclusion.value) == Some(i)
    ensures i < |s.hypotheses|
    ensures Handle(w, s, ClosingAction(w, s), true) == OnConclude(w, s, s.hypotheses[i].id, Cited(s.hypotheses[i].evidenceIds), true)
  {
  }

  /** Once settled, the playbook's closing action is accepted and says what the verifier says. */
  lemma ClosingIsAccepted(order: seq<HypType>, w: Snapshot, s: InvState, subject: Subject)
    requires Complete(order)
    requires Inv(w, s) && !Done(s) && SubjectOf(w, s) == Some(subject) && Settled(order, w, s, subject)
    requires LinkStep(s, BagOf(s.evidence)).None?
    ensures Handle(w, s, PlaybookBy(order, w, s), true).0 == Closed(w, s)
  {
    SettledLeavesNothingPending(order, w, s, subject);
    ClosingHandled(w, s, subject);
  }

  lemma PlaybookByProgresses(order: seq<HypType>, w: Snapshot, s: InvState)
    requires Complete(order) && Inv(w, s) && !Done(s) && ToolsAnswer(w, s.episodeId)
    ensures Progresses(w, s, PlaybookBy(order, w, s))
  {
    var at := SubjectOf(w, s);
    if at.None? {
      SubjectFromViews(w, s);
      FetchingProgresses(w, s, GetEpisode(s.episodeId));
    } else if Unproposed(order, w, s, at.value) != [] {
      FirstUnproposed(order, w, s, at.value);
      ProposingProgresses(w, s, Unproposed(order, w, s, at.value));
    } else if LinkStep(s, BagOf(s.evidence)).Some? {
      LinkStepProgresses(w, s);
    } else if NextCheck(order, s.hypotheses, at.value, BagOf(s.evidence)).Some? {
      CheckProgresses(order, w, s, at.value);
    } else {
      ClosingIsAccepted(order, w, s, at.value);
      ClosingProgresses(w, s, PlaybookBy(order, w, s), Closed(w, s));
    }
  }

  /** From any state that any policy can reach, the playbook's next action changes the
      signature and brings the run closer to its end, provided its tools answer. */
  lemma PlaybookProgresses(w: Snapshot, s: InvState)
    requires Inv(w, s) && !Done(s) && ToolsAnswer(w, s.episodeId)
    ensures Progresses(w, s, Playbook(w, s))
  {
    forall t: HypType ensures t in CATALOG { CatalogIsComplete(t); }
    PlaybookByProgresses(CATALOG, w, s);
  }

  ghost function PlaybookStep(w: Snapshot, s: InvState): (r: InvState)
    requires Inv(w, s) && !Done(s)
    ensures Inv(w, r) && r.episodeId == s.episodeId
  {
    Next(w, s, Turn(Playbook(w, s), true))
  }

  /** The playbook run to its end. That this function is total is the termination claim. */
  ghost function Finish(w: Snapshot, s: InvState): (r: InvState)
    requires Inv(w, s) && ToolsAnswer(w, s.episodeId)
    ensures Inv(w, r) && Done(r) && r.episodeId == s.episodeId
    decreases LeftOf(w, s).types, LeftOf(w, s).pairs, LeftOf(w, s).requests, LeftOf(w, s).stale, LeftOf(w, s).open
  {
    if Done(s) then s
    else
      PlaybookProgresses(w, s);
      Finish(w, PlaybookStep(w, s))
  }
}
