/** The investigation protocol: the transition function, and the playbook as a policy. */
module Investigator {
  import opened Seqs
  import opened Trades
  import opened Evidence
  import opened Hypotheses
  import opened Adjudication

  datatype Item = Item(id: nat, request: Request, view: View)

  datatype HypState = HypState(
    id: nat,
    typ: HypType,
    eval: Evaluation,
    evidenceIds: seq<nat>,
    evaluatedAt: int,
    needed: set<Request>)

  datatype LinkProposal = LinkProposal(a: TradeId, b: TradeId, verified: bool)

  datatype InvState = InvState(
    episodeId: EpisodeId,
    hypotheses: seq<HypState>,
    evidence: seq<Item>,
    proposals: seq<LinkProposal>,
    conclusion: Option<HypType>,
    abstained: bool,
    abstainReason: Option<string>,
    missing: set<Missing>,
    streak: nat,
    recovering: bool)

  /** What a policy may ask for. `None` stands for a hypothesis type outside the catalog; a
      summary is known by the evidence ids it cites and by whether its prose is acceptable. */
  datatype Action =
    | Propose(types: seq<Option<HypType>>)
    | CallTool(request: Request)
    | EvaluateHyp(id: nat)
    | ProposeLink(a: TradeId, b: TradeId)
    | Conclude(id: nat, cited: set<nat>, cleanProse: bool)
    | Abstain(reason: string, missing: set<Missing>)

  /** The parts of an observation that the protocol itself reads. */
  datatype Observation = Observation(toolCalls: nat, refused: bool)

  // ---------------------------------------------------------------- reading the state

  predicate LeadOnly(r: Request) { r.SimilarCases? }

  function BagOf(evidence: seq<Item>): Bag {
    if evidence == [] then map[]
    else
      var last := evidence[|evidence| - 1];
      var bag := BagOf(evidence[..|evidence| - 1]);
      if LeadOnly(last.request) then bag else bag[last.request := last.view]
  }

  function VerifiedPairs(proposals: seq<LinkProposal>): set<Pair> {
    set p | p in proposals && p.verified :: (p.a, p.b)
  }

  function Links(w: Snapshot, s: InvState): set<Pair> { w.links + VerifiedPairs(s.proposals) }

  function SubjectOf(w: Snapshot, s: InvState): Option<Subject> {
    var r := GetEpisode(s.episodeId);
    var bag := BagOf(s.evidence);
    if r in bag && bag[r].EpisodeV? then Some(Subject(bag[r].episode, Links(w, s), w.unavailable)) else None
  }

  function Progress(s: InvState): nat { |s.evidence| + |s.proposals| }

  predicate Evaluated(h: HypState) { h.evaluatedAt >= 0 }

  function EvaluationsOf(hs: seq<HypState>): seq<Assessed> {
    if hs == [] then []
    else (if Evaluated(hs[0]) then [Assessed(hs[0].typ, hs[0].eval)] else []) + EvaluationsOf(hs[1..])
  }

  function Adjudged(w: Snapshot, s: InvState): Outcome { Adjudicate(EvaluationsOf(s.hypotheses), w.cfg.explains) }

  predicate Done(s: InvState) { s.conclusion.Some? || s.abstained }

  datatype HypMark = HypMark(typ: HypType, status: Status, evaluatedAt: int, missing: set<Missing>)

  datatype Mark = Mark(hypotheses: seq<HypMark>, evidence: nat, proposals: seq<LinkProposal>,
                       conclusion: Option<HypType>, abstained: bool)

  function HypMarks(hs: seq<HypState>): (r: seq<HypMark>)
    ensures |r| == |hs|
    ensures forall i :: 0 <= i < |hs| ==>
      r[i] == HypMark(hs[i].typ, hs[i].eval.status, hs[i].evaluatedAt, hs[i].eval.missing)
  {
    if hs == [] then []
    else [HypMark(hs[0].typ, hs[0].eval.status, hs[0].evaluatedAt, hs[0].eval.missing)] + HypMarks(hs[1..])
  }

  /** What an action can change: equal before and after means no progress. */
  function Signature(s: InvState): Mark {
    Mark(HypMarks(s.hypotheses), |s.evidence|, s.proposals, s.conclusion, s.abstained)
  }

  /** First position whose element satisfies `p`. */
  function IndexOf<T(!new)>(xs: seq<T>, p: T -> bool): (r: Option<nat>)
    ensures r.Some? ==> r.value < |xs| && p(xs[r.value])
    ensures r.Some? ==> forall j :: 0 <= j < r.value ==> !p(xs[j])
    ensures r.None? ==> forall x :: x in xs ==> !p(x)
  {
    if xs == [] then None
    else if p(xs[0]) then Some(0)
    else match IndexOf(xs[1..], p) case None => None case Some(i) => Some(i + 1)
  }

  function Find(hs: seq<HypState>, id: nat): Option<nat> { IndexOf(hs, (h: HypState) => h.id == id) }

  function KnownTypes(hs: seq<HypState>): set<HypType> { set h | h in hs :: h.typ }

  function EvaluatedTypes(hs: seq<HypState>): set<HypType> { set h | h in hs && Evaluated(h) :: h.typ }

  /** Applicable hypotheses that were never evaluated. */
  function Pending(w: Snapshot, s: InvState, subject: Subject): set<HypType> {
    set t | t in CATALOG && Applies(t, subject, w.cfg) && t !in EvaluatedTypes(s.hypotheses)
  }

  function CitableIds(s: InvState): set<nat> { set e | e in s.evidence && !LeadOnly(e.request) :: e.id }

  // ---------------------------------------------------------------- transition

  const UNEVALUATED: Evaluation := Evaluation(Proposed, {}, {})

  function AddTypes(hs: seq<HypState>, types: seq<Option<HypType>>): seq<HypState>
    decreases |types|
  {
    if types == [] then hs
    else if types[0].None? || types[0].value in KnownTypes(hs) then AddTypes(hs, types[1..])
    else AddTypes(hs + [HypState(|hs| + 1, types[0].value, UNEVALUATED, [], -1, {})], types[1..])
  }

  function OnPropose(s: InvState, types: seq<Option<HypType>>): (InvState, Observation) {
    (s.(hypotheses := AddTypes(s.hypotheses, types)), Observation(0, None in types))
  }

  function OnCall(w: Snapshot, s: InvState, r: Request, ok: bool): (InvState, Observation) {
    if !ok || r !in w.views then (s, Observation(1, true))
    else if exists e :: e in s.evidence && e.request == r then (s, Observation(1, false))
    else (s.(evidence := s.evidence + [Item(|s.evidence| + 1, r, w.views[r])]), Observation(1, false))
  }

  function IdsOf(evidence: seq<Item>, needed: set<Request>): (ids: seq<nat>)
    ensures forall x :: x in ids <==> exists e :: e in evidence && e.request in needed && e.id == x
  {
    if evidence == [] then []
    else (if evidence[0].request in needed then [evidence[0].id] else []) + IdsOf(evidence[1..], needed)
  }

  function Judged(w: Snapshot, s: InvState, h: HypState, subject: Subject): HypState
    requires subject.episode.tradeIds != [] && WellTyped(BagOf(s.evidence))
  {
    var needed := set r | r in Requirements(h.typ, subject);
    h.(eval := Evaluate(h.typ, subject, BagOf(s.evidence), w.cfg),
       evidenceIds := IdsOf(s.evidence, needed),
       evaluatedAt := Progress(s),
       needed := needed)
  }

  function OnEvaluate(w: Snapshot, s: InvState, id: nat): (InvState, Observation)
    requires Usable(w, s)
  {
    var at, subject := Find(s.hypotheses, id), SubjectOf(w, s);
    if at.None? || subject.None? then (s, Observation(0, true))
    else
      var i := at.value;
      (s.(hypotheses := s.hypotheses[i := Judged(w, s, s.hypotheses[i], subject.value)]), Observation(0, false))
  }

  function OnLink(w: Snapshot, s: InvState, a: TradeId, b: TradeId): (InvState, Observation) {
    var r, bag := CompareTrades(a, b), BagOf(s.evidence);
    if r !in bag || !bag[r].ComparisonV? then (s, Observation(0, true))
    else
      var others := Filter(s.proposals, (p: LinkProposal) => !(p.a == a && p.b == b));
      (s.(proposals := others + [LinkProposal(a, b, LinkChecks(bag[r].cmp, w.cfg))]), Observation(0, false))
  }

  function OnConclude(w: Snapshot, s: InvState, id: nat, cited: set<nat>, clean: bool): (InvState, Observation) {
    var at, subject := Find(s.hypotheses, id), SubjectOf(w, s);
    if at.None? || subject.None? then (s, Observation(0, true))
    else if Pending(w, s, subject.value) != {} then (s, Observation(0, true))
    else if Adjudged(w, s).conclusion != Some(s.hypotheses[at.value].typ) then (s, Observation(0, true))
    else if !clean || !(cited <= CitableIds(s)) then (s, Observation(0, true))
    else (s.(conclusion := Some(s.hypotheses[at.value].typ)), Observation(0, false))
  }

  function KnownMissing(s: InvState): set<Missing> { set h, m | h in s.hypotheses && m in h.eval.missing :: m }

  function OnAbstain(w: Snapshot, s: InvState, reason: string, missing: set<Missing>): (InvState, Observation) {
    var subject := SubjectOf(w, s);
    if subject.Some? && (Pending(w, s, subject.value) != {} || Adjudged(w, s).conclusion.Some?) then
      (s, Observation(0, true))
    else
      (s.(abstained := true,
          abstainReason := Some(if |reason| <= 120 then reason else reason[..120]),
          missing := missing + KnownMissing(s)),
       Observation(0, false))
  }

  /** The handlers read evidence by its type: an episode view has trades, other views have the
      type their tool returns. */
  ghost predicate Usable(w: Snapshot, s: InvState) {
    && WellTyped(BagOf(s.evidence))
    && (SubjectOf(w, s).Some? ==> SubjectOf(w, s).value.episode.tradeIds != [])
  }

  function Handle(w: Snapshot, s: InvState, action: Action, ok: bool): (InvState, Observation)
    requires Usable(w, s)
  {
    match action
    case Propose(types) => OnPropose(s, types)
    case CallTool(r) => OnCall(w, s, r, ok)
    case EvaluateHyp(id) => OnEvaluate(w, s, id)
    case ProposeLink(a, b) => OnLink(w, s, a, b)
    case Conclude(id, cited, clean) => OnConclude(w, s, id, cited, clean)
    case Abstain(reason, missing) => OnAbstain(w, s, reason, missing)
  }

  /** A refused action, or one that changes nothing, is a stall; too many in a row hand the run
      to the playbook for good. */
  function Counted(cfg: Config, s: InvState, t: InvState, refused: bool): InvState {
    var streak := if refused || Signature(t) == Signature(s) then t.streak + 1 else 0;
    t.(streak := streak, recovering := t.recovering || streak >= cfg.maxConsecutiveRejections)
  }

  /** `apply`. `ok` says whether the executor let a tool call through this time. */
  function Apply(w: Snapshot, s: InvState, action: Action, ok: bool): (InvState, Observation)
    requires Usable(w, s)
  {
    var (t, obs) := Handle(w, s, action, ok);
    (Counted(w.cfg, s, t, obs.refused), obs)
  }

  function Start(e: EpisodeId): InvState {
    InvState(e, [], [], [], None, false, None, {}, 0, false)
  }

  // ---------------------------------------------------------------- playbook

  function RebookGaps(hs: seq<HypState>): set<TradeId> {
    set h, m | h in hs && m in h.eval.missing && m.NeedsRebookLinkFor? :: m.cancelled
  }

  function ProposedPairs(proposals: seq<LinkProposal>): set<Pair> { set p | p in proposals :: (p.a, p.b) }

  function OpenPair(unresolved: seq<Pair>, gaps: set<TradeId>, proposed: set<Pair>): Option<nat> {
    IndexOf(unresolved, (p: Pair) => p.0 in gaps && p !in proposed)
  }

  function LinkStep(s: InvState, bag: Bag): Option<Action> {
    var gaps := RebookGaps(s.hypotheses);
    var related := GetRelatedEpisodes(s.episodeId);
    if gaps == {} then None
    else if related !in bag || !bag[related].RelatedV? then Some(CallTool(related))
    else
      var unresolved := bag[related].unresolved;
      match OpenPair(unresolved, gaps, ProposedPairs(s.proposals))
      case None => None
      case Some(i) =>
        var (a, b) := unresolved[i];
        Some(if CompareTrades(a, b) !in bag then CallTool(CompareTrades(a, b)) else ProposeLink(a, b))
  }

  function HypOf(hs: seq<HypState>, t: HypType): Option<nat> { IndexOf(hs, (h: HypState) => h.typ == t) }

  /** Not evaluated yet, or evaluated under other requirements than today's. Both sides of the
      comparison are sorted lists: the requirements as listed, and the recorded set. */
  predicate Stale(h: HypState, subject: Subject) {
    h.eval.status == Proposed || multiset(Requirements(h.typ, subject)) != multiset(h.needed)
  }

  function CheckType(t: HypType, hs: seq<HypState>, subject: Subject, bag: Bag): Option<Action> {
    match HypOf(hs, t)
    case None => None
    case Some(i) =>
      var missing := MissingRequests(t, subject, bag);
      if missing != [] then Some(CallTool(missing[0]))
      else if Stale(hs[i], subject) then Some(EvaluateHyp(hs[i].id))
      else None
  }

  function NextCheck(order: seq<HypType>, hs: seq<HypState>, subject: Subject, bag: Bag): Option<Action> {
    if order == [] then None
    else
      var check := CheckType(order[0], hs, subject, bag);
      if check.Some? then check else NextCheck(order[1..], hs, subject, bag)
  }

  function ReasonText(r: Option<Reason>): (text: string)
    ensures |text| <= 120
  {
    match r
    case Some(InsufficientEvidence) => "INSUFFICIENT_EVIDENCE"
    case Some(NoSupportedExplanation) => "NO_SUPPORTED_EXPLANATION"
    case None => "NO_CONCLUSION"
  }

  function Unproposed(order: seq<HypType>, w: Snapshot, s: InvState, subject: Subject): seq<HypType> {
    Filter(order, t => Applies(t, subject, w.cfg) && t !in KnownTypes(s.hypotheses))
  }

  function Somes(ts: seq<HypType>): (r: seq<Option<HypType>>)
    ensures |r| == |ts| && forall i :: 0 <= i < |ts| ==> r[i] == Some(ts[i])
  {
    if ts == [] then [] else [Some(ts[0])] + Somes(ts[1..])
  }

  /** The deterministic policy. */
  function Playbook(w: Snapshot, s: InvState): Action { PlaybookBy(CATALOG, w, s) }

  /** The policy for any catalog order. It cites at most six of the conclusion's evidence ids. */
  function PlaybookBy(order: seq<HypType>, w: Snapshot, s: InvState): Action {
    var at := SubjectOf(w, s);
    if at.None? then CallTool(GetEpisode(s.episodeId))
    else
      var subject := at.value;
      var unproposed := Unproposed(order, w, s, subject);
      var bag := BagOf(s.evidence);
      if unproposed != [] then Propose(Somes(unproposed))
      else
        var link := LinkStep(s, bag);
        if link.Some? then link.value
        else
          var check := NextCheck(order, s.hypotheses, subject, bag);
          if check.Some? then check.value else ClosingAction(w, s)
  }

  /** Conclude what the verifier concludes, or abstain for its reason. */
  function ClosingAction(w: Snapshot, s: InvState): Action {
    var verdict := Adjudged(w, s);
    match verdict.conclusion
    case Some(t) =>
      var i := HypOf(s.hypotheses, t);
      if i.Some? then Conclude(s.hypotheses[i.value].id, Cited(s.hypotheses[i.value].evidenceIds), true)
      else Conclude(0, {}, true)
    case None => Abstain(ReasonText(verdict.reason), verdict.missing)
  }

  /** The first six evidence ids. */
  function Cited(ids: seq<nat>): set<nat> {
    var first := if |ids| <= 6 then ids else ids[..6];
    set x | x in first
  }
}
