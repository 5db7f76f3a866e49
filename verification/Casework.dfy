/** The handlers as they run: each updates the fields of one investigation in place. */
module Casework {
  import opened Seqs
  import opened Trades
  import opened Evidence
  import opened Hypotheses
  import opened Adjudication
  import opened Investigator
  import opened Protocol
  import opened Soundness
  import opened Abstention

  // ---------------------------------------------------------------- scans over the state

  lemma FirstMatch<T(!new)>(xs: seq<T>, p: T -> bool, i: nat)
    requires i < |xs| && p(xs[i]) && forall j :: 0 <= j < i ==> !p(xs[j])
    ensures IndexOf(xs, p) == Some(i)
  {
  }

  lemma OthersLast(init: seq<LinkProposal>, p: LinkProposal, a: TradeId, b: TradeId)
    ensures OtherProposals(init + [p], a, b) == OtherProposals(init, a, b) + if p.a == a && p.b == b then [] else [p]
  {
    FilterConcat(init, [p], (q: LinkProposal) => !(q.a == a && q.b == b));
  }

  /** `next(x for x in hypotheses if x.id == id)`. */
  method FindHypothesis(hs: seq<HypState>, id: nat) returns (at: Option<nat>)
    ensures at == Find(hs, id)
  {
    for i := 0 to |hs|
      invariant forall j :: 0 <= j < i ==> hs[j].id != id
    {
      if hs[i].id == id {
        FirstMatch(hs, (h: HypState) => h.id == id, i);
        return Some(i);
      }
    }
    return None;
  }

  /** `_bag`: later items replace earlier ones, leads are left out. */
  method GatherBag(evidence: seq<Item>) returns (bag: Bag)
    ensures bag == BagOf(evidence)
  {
    bag := map[];
    for i := 0 to |evidence|
      invariant bag == BagOf(evidence[..i])
    {
      assert evidence[..i + 1][..i] == evidence[..i];
      if !LeadOnly(evidence[i].request) { bag := bag[evidence[i].request := evidence[i].view]; }
    }
    assert evidence[..|evidence|] == evidence;
  }

  method GatherLinks(proposals: seq<LinkProposal>) returns (pairs: set<Pair>)
    ensures pairs == VerifiedPairs(proposals)
  {
    pairs := {};
    for i := 0 to |proposals|
      invariant pairs == VerifiedPairs(proposals[..i])
    {
      assert proposals[..i + 1] == proposals[..i] + [proposals[i]];
      if proposals[i].verified { pairs := pairs + {(proposals[i].a, proposals[i].b)}; }
    }
    assert proposals[..|proposals|] == proposals;
  }

  /** `_subject`. */
  method ReadSubject(w: Snapshot, s: InvState) returns (subject: Option<Subject>)
    ensures subject == SubjectOf(w, s)
  {
    var bag := GatherBag(s.evidence);
    var r := GetEpisode(s.episodeId);
    if r !in bag || !bag[r].EpisodeV? { return None; }
    var verified := GatherLinks(s.proposals);
    return Some(Subject(bag[r].episode, w.links + verified, w.unavailable));
  }

  /** Applicable hypotheses not evaluated yet, in catalog order. */
  method FindPending(w: Snapshot, s: InvState, subject: Subject) returns (pending: seq<HypType>)
    ensures forall t :: t in pending <==> t in Pending(w, s, subject)
  {
    var evaluated := {};
    for i := 0 to |s.hypotheses|
      invariant evaluated == EvaluatedTypes(s.hypotheses[..i])
    {
      assert s.hypotheses[..i + 1] == s.hypotheses[..i] + [s.hypotheses[i]];
      if s.hypotheses[i].evaluatedAt >= 0 { evaluated := evaluated + {s.hypotheses[i].typ}; }
    }
    assert s.hypotheses[..|s.hypotheses|] == s.hypotheses;
    pending := PendingAmong(CATALOG, w, evaluated, subject);
  }

  method PendingAmong(order: seq<HypType>, w: Snapshot, evaluated: set<HypType>, subject: Subject) returns (pending: seq<HypType>)
    ensures forall t :: t in pending <==> t in order && Applies(t, subject, w.cfg) && t !in evaluated
  {
    pending := [];
    for i := 0 to |order|
      invariant forall t :: t in pending <==> t in order[..i] && Applies(t, subject, w.cfg) && t !in evaluated
    {
      assert order[..i + 1] == order[..i] + [order[i]];
      if Applies(order[i], subject, w.cfg) && order[i] !in evaluated { pending := pending + [order[i]]; }
    }
    assert order[..|order|] == order;
  }

  /** `_evaluations`. */
  method GatherEvaluations(hs: seq<HypState>) returns (rs: seq<Assessed>)
    ensures rs == EvaluationsOf(hs)
  {
    rs := [];
    for i := 0 to |hs|
      invariant rs + EvaluationsOf(hs[i..]) == EvaluationsOf(hs)
    {
      NextEvaluation(hs, i);
      if hs[i].evaluatedAt >= 0 {
        Regroup(rs, [Assessed(hs[i].typ, hs[i].eval)], EvaluationsOf(hs[i + 1..]));
        rs := rs + [Assessed(hs[i].typ, hs[i].eval)];
      } else {
        Regroup(rs, [], EvaluationsOf(hs[i + 1..]));
      }
    }
    assert hs[|hs|..] == [];
  }

  lemma NextEvaluation(hs: seq<HypState>, i: nat)
    requires i < |hs|
    ensures EvaluationsOf(hs[i..]) == (if Evaluated(hs[i]) then [Assessed(hs[i].typ, hs[i].eval)] else []) + EvaluationsOf(hs[i + 1..])
  {
    assert hs[i..][0] == hs[i] && hs[i..][1..] == hs[i + 1..];
  }

  method GatherIds(evidence: seq<Item>, needed: set<Request>) returns (ids: seq<nat>)
    ensures ids == IdsOf(evidence, needed)
  {
    ids := [];
    for i := 0 to |evidence|
      invariant ids + IdsOf(evidence[i..], needed) == IdsOf(evidence, needed)
    {
      assert evidence[i..][0] == evidence[i] && evidence[i..][1..] == evidence[i + 1..];
      if evidence[i].request in needed {
        assert ids + ([evidence[i].id] + IdsOf(evidence[i + 1..], needed)) == (ids + [evidence[i].id]) + IdsOf(evidence[i + 1..], needed);
        ids := ids + [evidence[i].id];
      }
    }
    assert evidence[|evidence|..] == [];
  }

  method GatherOthers(proposals: seq<LinkProposal>, a: TradeId, b: TradeId) returns (others: seq<LinkProposal>)
    ensures others == OtherProposals(proposals, a, b)
  {
    others := [];
    for i := 0 to |proposals|
      invariant others == OtherProposals(proposals[..i], a, b)
    {
      assert proposals[..i + 1] == proposals[..i] + [proposals[i]];
      OthersLast(proposals[..i], proposals[i], a, b);
      if proposals[i].a != a || proposals[i].b != b { others := others + [proposals[i]]; }
    }
    assert proposals[..|proposals|] == proposals;
  }

  method GatherCitable(evidence: seq<Item>) returns (ids: set<nat>)
    ensures ids == set e | e in evidence && !LeadOnly(e.request) :: e.id
  {
    ids := {};
    for i := 0 to |evidence|
      invariant ids == set e | e in evidence[..i] && !LeadOnly(e.request) :: e.id
    {
      assert evidence[..i + 1] == evidence[..i] + [evidence[i]];
      if !LeadOnly(evidence[i].request) { ids := ids + {evidence[i].id}; }
    }
    assert evidence[..|evidence|] == evidence;
  }

  method GatherMissing(hs: seq<HypState>) returns (missing: set<Missing>)
    ensures missing == set h, m | h in hs && m in h.eval.missing :: m
  {
    missing := {};
    for i := 0 to |hs|
      invariant missing == set h, m | h in hs[..i] && m in h.eval.missing :: m
    {
      assert hs[..i + 1] == hs[..i] + [hs[i]];
      missing := missing + hs[i].eval.missing;
    }
    assert hs[..|hs|] == hs;
  }

  method Judge(w: Snapshot, s: InvState, h: HypState, subject: Subject) returns (judged: HypState)
    requires subject.episode.tradeIds != [] && WellTyped(BagOf(s.evidence))
    ensures judged == Judged(w, s, h, subject)
  {
    var bag := GatherBag(s.evidence);
    var result := Evaluate(h.typ, subject, bag, w.cfg);
    var needed := set r | r in Requirements(h.typ, subject);
    var ids := GatherIds(s.evidence, needed);
    judged := h.(eval := result, evidenceIds := ids, evaluatedAt := |s.evidence| + |s.proposals|, needed := needed);
  }

  // ---------------------------------------------------------------- what acceptance guarantees

  /** The record of `id` carries the verdict all the evidence gives, if it carries one. */
  ghost predicate RightlyJudged(w: Snapshot, s: InvState, id: nat)
    requires Usable(w, s) && WellTyped(w.views)
  {
    && SubjectOf(w, s).Some?
    && forall h :: h in s.hypotheses && h.id == id ==>
         && h.evaluatedAt == Progress(s)
         && (Definite(h.eval) ==> SameVerdict(h.eval, Evaluate(h.typ, SubjectOf(w, s).value, w.views, w.cfg)))
  }

  /** The pair is on record, and counts as a link only if it passed every check. */
  ghost predicate RightlyLinked(w: Snapshot, s: InvState, s': InvState, a: TradeId, b: TradeId) {
    && ProposedPairs(s'.proposals) == ProposedPairs(s.proposals) + {(a, b)}
    && Links(w, s) <= Links(w, s') <= Links(w, s) + {(a, b)}
    && ((a, b) in Links(w, s') - Links(w, s) ==> PassedChecks((a, b), w.views, w.cfg))
  }

  /** The conclusion is one the exhaustive assessment under the verified links bears out. */
  ghost predicate RightlyConcluded(w: Snapshot, s: InvState) {
    && Known(w, s.episodeId) && s.conclusion.Some?
    && var full := FullAssessment(w, s.episodeId, Links(w, s)).conclusion;
    && full.Some? && ClassOf(full.value) == ClassOf(s.conclusion.value)
    && (ClassOf(s.conclusion.value) == Benign ==> full == s.conclusion)
  }

  /** With the episode evidence held and no record out of date, the abstention is justified. */
  ghost predicate RightlyAbstained(w: Snapshot, s: InvState)
    requires WellTyped(BagOf(s.evidence))
  {
    (Known(w, s.episodeId) && Holds(s.evidence, GetEpisode(s.episodeId)) && forall h :: h in s.hypotheses ==> !Outdated(w, s, h))
    ==> JustifiedAbstention(w, s)
  }

  lemma EvaluatingIsRight(w: Snapshot, s: InvState, id: nat)
    requires Inv(w, s) && !Done(s) && !OnEvaluate(w, s, id).1.refused
    ensures Inv(w, OnEvaluate(w, s, id).0) && RightlyJudged(w, OnEvaluate(w, s, id).0, id)
  {
    EvaluateKeepsInv(w, s, id);
    var s', i := OnEvaluate(w, s, id).0, Find(s.hypotheses, id).value;
    forall h | h in s'.hypotheses && h.id == id ensures h == s'.hypotheses[i] {
      var j :| 0 <= j < |s'.hypotheses| && s'.hypotheses[j] == h;
      assert s'.hypotheses[j].id == j + 1 && s'.hypotheses[i].id == i + 1;
    }
  }

  lemma LinkingIsRight(w: Snapshot, s: InvState, a: TradeId, b: TradeId)
    requires Inv(w, s) && !Done(s) && !OnLink(w, s, a, b).1.refused
    ensures Inv(w, OnLink(w, s, a, b).0) && RightlyLinked(w, s, OnLink(w, s, a, b).0, a, b)
  {
    LinkKeepsInv(w, s, a, b);
    LinkOutcome(w, s, a, b);
  }

  lemma ConcludingIsRight(w: Snapshot, s: InvState, id: nat, cited: set<nat>, clean: bool)
    requires Inv(w, s) && !Done(s) && !OnConclude(w, s, id, cited, clean).1.refused
    ensures Inv(w, OnConclude(w, s, id, cited, clean).0) && RightlyConcluded(w, OnConclude(w, s, id, cited, clean).0)
  {
    ConcludeKeepsInv(w, s, id, cited, clean);
    ConcludedIsSound(w, OnConclude(w, s, id, cited, clean).0);
  }

  lemma AbstainingIsRight(w: Snapshot, s: InvState, reason: string, claimed: set<Missing>)
    requires Inv(w, s) && AllTraced(w, s) && !Done(s) && !OnAbstain(w, s, reason, claimed).1.refused
    ensures RightlyAbstained(w, s)
  {
    if Known(w, s.episodeId) && Holds(s.evidence, GetEpisode(s.episodeId)) && forall h :: h in s.hypotheses ==> !Outdated(w, s, h) {
      UpToDateAbstentions(w, s, reason, claimed);
    }
  }

  // ---------------------------------------------------------------- the investigation

  class Investigation {
    const episodeId: EpisodeId
    var hypotheses: seq<HypState>
    var evidence: seq<Item>
    var proposals: seq<LinkProposal>
    var conclusion: Option<HypType>
    var abstained: bool
    var abstainReason: Option<string>
    var missing: set<Missing>
    var streak: nat
    var recovering: bool

    function State(): InvState
      reads this
    {
      InvState(episodeId, hypotheses, evidence, proposals, conclusion, abstained, abstainReason, missing, streak, recovering)
    }

    constructor (e: EpisodeId)
      ensures State() == Start(e)
    {
      episodeId := e;
      hypotheses, evidence, proposals := [], [], [];
      conclusion, abstained, abstainReason, missing := None, false, None, {};
      streak, recovering := 0, false;
    }

    method ProposeTypes(types: seq<Option<HypType>>) returns (obs: Observation)
      modifies this
      ensures (State(), obs) == OnPropose(old(State()), types)
    {
      var rejected := false;
      var known := KnownTypes(hypotheses);
      ghost var was := hypotheses;
      for i := 0 to |types|
        invariant known == KnownTypes(hypotheses)
        invariant rejected == (None in types[..i])
        invariant AddTypes(hypotheses, types[i..]) == AddTypes(was, types)
        invariant State() == old(State()).(hypotheses := hypotheses)
      {
        assert types[i..][0] == types[i] && types[i..][1..] == types[i + 1..];
        assert types[..i + 1] == types[..i] + [types[i]];
        match types[i]
        case None => rejected := true;
        case Some(t) =>
          if t !in known {
            var h := HypState(|hypotheses| + 1, t, UNEVALUATED, [], -1, {});
            hypotheses := hypotheses + [h];
            known := known + {t};
          }
      }
      assert types[..|types|] == types && types[|types|..] == [];
      obs := Observation(0, rejected);
    }

    method Call(w: Snapshot, r: Request, ok: bool) returns (obs: Observation)
      modifies this
      ensures (State(), obs) == OnCall(w, old(State()), r, ok)
    {
      if !ok || r !in w.views { return Observation(1, true); }
      for i := 0 to |evidence|
        invariant forall j :: 0 <= j < i ==> evidence[j].request != r
      {
        if evidence[i].request == r { return Observation(1, false); }
      }
      evidence := evidence + [Item(|evidence| + 1, r, w.views[r])];
      obs := Observation(1, false);
    }

    /** Judges the first hypothesis of that id on the evidence held, and changes nothing else. */
    method EvaluateHypothesis(w: Snapshot, id: nat) returns (obs: Observation)
      requires Usable(w, State())
      modifies this`hypotheses
      ensures (State(), obs) == OnEvaluate(w, old(State()), id)
      ensures obs.refused <==> SubjectOf(w, old(State())).None? || forall h :: h in old(hypotheses) ==> h.id != id
      ensures obs.refused ==> hypotheses == old(hypotheses)
      ensures !obs.refused && Inv(w, old(State())) && !Done(old(State())) ==> Inv(w, State()) && RightlyJudged(w, State(), id)
    {
      ghost var was := State();
      var at := FindHypothesis(hypotheses, id);
      var subject := ReadSubject(w, State());
      if at.None? || subject.None? { return Observation(0, true); }
      var judged := Judge(w, State(), hypotheses[at.value], subject.value);
      hypotheses := hypotheses[at.value := judged];
      obs := Observation(0, false);
      if Inv(w, was) && !Done(was) { EvaluatingIsRight(w, was, id); }
    }

    /** Records the pair once, with the status its comparison gives it. */
    method Link(w: Snapshot, a: TradeId, b: TradeId) returns (obs: Observation)
      modifies this`proposals
      ensures (State(), obs) == OnLink(w, old(State()), a, b)
      ensures obs.refused ==> proposals == old(proposals)
      ensures !obs.refused && Inv(w, old(State())) && !Done(old(State())) ==>
        Inv(w, State()) && RightlyLinked(w, old(State()), State(), a, b)
    {
      ghost var was := State();
      var r := CompareTrades(a, b);
      var bag := GatherBag(evidence);
      if r !in bag || !bag[r].ComparisonV? { return Observation(0, true); }
      var others := GatherOthers(proposals, a, b);
      proposals := others + [LinkProposal(a, b, LinkChecks(bag[r].cmp, w.cfg))];
      obs := Observation(0, false);
      if Inv(w, was) && !Done(was) { LinkingIsRight(w, was, a, b); }
    }

    /** Concludes only what the verifier concludes from every applicable hypothesis. */
    method TryConclude(w: Snapshot, id: nat, cited: set<nat>, clean: bool) returns (obs: Observation)
      modifies this`conclusion
      ensures (State(), obs) == OnConclude(w, old(State()), id, cited, clean)
      ensures obs.refused ==> conclusion == old(conclusion)
      ensures !obs.refused ==> clean && forall x :: x in cited ==> exists e :: e in evidence && e.id == x && !LeadOnly(e.request)
      ensures !obs.refused && Inv(w, old(State())) && !Done(old(State())) ==> Inv(w, State()) && RightlyConcluded(w, State())
    {
      ghost var was := State();
      var at := FindHypothesis(hypotheses, id);
      var subject := ReadSubject(w, State());
      if at.None? || subject.None? { return Observation(0, true); }
      var pending := FindPending(w, State(), subject.value);
      if pending != [] {
        assert pending[0] in Pending(w, was, subject.value);
        return Observation(0, true);
      }
      var rs := GatherEvaluations(hypotheses);
      var typ := hypotheses[at.value].typ;
      if Adjudicate(rs, w.cfg.explains).conclusion != Some(typ) { return Observation(0, true); }
      var citable := GatherCitable(evidence);
      if !clean || !(cited <= citable) { return Observation(0, true); }
      conclusion := Some(typ);
      obs := Observation(0, false);
      assert Pending(w, was, subject.value) == {};
      if Inv(w, was) && !Done(was) { ConcludingIsRight(w, was, id, cited, clean); }
    }

    /** Abstains where the guard lets it, and says what every record is missing. */
    method TryAbstain(w: Snapshot, reason: string, claimed: set<Missing>) returns (obs: Observation)
      modifies this
      ensures (State(), obs) == OnAbstain(w, old(State()), reason, claimed)
      ensures obs.refused ==> State() == old(State())
      ensures !obs.refused ==>
        claimed <= missing && forall h, m :: h in hypotheses && m in h.eval.missing ==> m in missing
      ensures !obs.refused && Inv(w, old(State())) && !Done(old(State())) && AllTraced(w, old(State())) ==>
        Inv(w, State()) && RightlyAbstained(w, old(State()))
    {
      ghost var was := State();
      var subject := ReadSubject(w, State());
      if subject.Some? {
        var pending := FindPending(w, State(), subject.value);
        var rs := GatherEvaluations(hypotheses);
        if pending != [] || Adjudicate(rs, w.cfg.explains).conclusion.Some? {
          assert pending != [] ==> pending[0] in Pending(w, was, subject.value);
          return Observation(0, true);
        }
        assert Pending(w, was, subject.value) == {};
      }
      var known := GatherMissing(hypotheses);
      abstained := true;
      abstainReason := Some(if |reason| <= 120 then reason else reason[..120]);
      missing := claimed + known;
      obs := Observation(0, false);
      if Inv(w, was) && !Done(was) && AllTraced(w, was) {
        AbstainKeepsInv(w, was, reason, claimed);
        AbstainingIsRight(w, was, reason, claimed);
      }
    }

    method Dispatch(w: Snapshot, action: Action, ok: bool) returns (obs: Observation)
      requires Usable(w, State())
      modifies this
      ensures (State(), obs) == Handle(w, old(State()), action, ok)
    {
      match action
      case Propose(types) => obs := ProposeTypes(types);
      case CallTool(r) => obs := Call(w, r, ok);
      case EvaluateHyp(id) => obs := EvaluateHypothesis(w, id);
      case ProposeLink(a, b) => obs := Link(w, a, b);
      case Conclude(id, cited, clean) => obs := TryConclude(w, id, cited, clean);
      case Abstain(reason, claimed) => obs := TryAbstain(w, reason, claimed);
    }

    /** `apply`: handle the action, then count a stall or reset the streak. */
    method Step(w: Snapshot, action: Action, ok: bool) returns (obs: Observation)
      requires Usable(w, State())
      modifies this
      ensures (State(), obs) == Apply(w, old(State()), action, ok)
      ensures Inv(w, old(State())) && !Done(old(State())) ==> Inv(w, State())
    {
      ghost var was := State();
      var before := Signature(State());
      obs := Dispatch(w, action, ok);
      HandledThenCounted(w, was, action, ok, State(), obs);
      CountStall(w.cfg, obs.refused || Signature(State()) == before);
      if Inv(w, was) && !Done(was) { ApplyKeepsInv(w, was, action, ok); }
    }

    method CountStall(cfg: Config, stalled: bool)
      modifies this`streak, this`recovering
      ensures State() == Stalled(cfg, old(State()), stalled)
    {
      streak := if stalled then streak + 1 else 0;
      if streak >= cfg.maxConsecutiveRejections { recovering := true; }
    }
  }

  function Stalled(cfg: Config, t: InvState, stalled: bool): InvState {
    var streak := if stalled then t.streak + 1 else 0;
    t.(streak := streak, recovering := t.recovering || streak >= cfg.maxConsecutiveRejections)
  }

  lemma HandledThenCounted(w: Snapshot, s: InvState, action: Action, ok: bool, t: InvState, obs: Observation)
    requires Usable(w, s) && (t, obs) == Handle(w, s, action, ok)
    ensures Apply(w, s, action, ok) == (Stalled(w.cfg, t, obs.refused || Signature(t) == Signature(s)), obs)
  {
  }
}
