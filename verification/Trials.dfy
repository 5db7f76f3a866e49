/** What the calls of a run say about where a candidate stands: which evidence stops it, which brings it to release. */
module Trials {
  import opened Seqs
  import opened Governance
  import opened Rollbacks

  /** The record before call `n` of a run from nothing. */
  ghost function Before(fourEyes: bool, ops: seq<Op>, n: nat): Record
    requires n <= |ops|
  {
    Run(fourEyes, Empty(), ops[..n])
  }

  ghost predicate Accepted(fourEyes: bool, ops: seq<Op>, n: nat) {
    n < |ops| && Step(fourEyes, Before(fourEyes, ops, n), ops[n]).refusal.None?
  }

  /** Call `n` files the finding and is accepted. */
  ghost predicate Filed(fourEyes: bool, ops: seq<Op>, n: nat, c: Id, f: Finding) {
    Accepted(fourEyes, ops, n) && ops[n].RecordFinding? && ops[n].c == c && ops[n].finding == f
  }

  ghost predicate Submitted(fourEyes: bool, ops: seq<Op>, n: nat, c: Id) {
    Accepted(fourEyes, ops, n) && ops[n].Submit? && ops[n].c == c
  }

  ghost predicate Approved(fourEyes: bool, ops: seq<Op>, n: nat, c: Id) {
    Accepted(fourEyes, ops, n) && ops[n].Approve? && ops[n].c == c
  }

  lemma OneMore(fourEyes: bool, ops: seq<Op>, n: nat)
    requires n < |ops|
    ensures Before(fourEyes, ops, n + 1) == Step(fourEyes, Before(fourEyes, ops, n), ops[n]).record
  {
    assert ops[..n + 1] == ops[..n] + [ops[n]];
    RunsInTurn(fourEyes, Empty(), ops[..n], [ops[n]]);
    OneCall(fourEyes, Before(fourEyes, ops, n), ops[n]);
  }

  // ---------------------------------------------------------------- one call

  /** Someone no agent's name is given to, and no mere service. */
  ghost predicate IsPerson(p: Principal) {
    (|p.user| < 6 || p.user[..6] != "agent:") && (Service in p.roles ==> Admin in p.roles)
  }

  ghost predicate HasOne(p: Principal, rs: set<Role>) { exists r :: r in p.roles && (r in rs || r == Admin) }

  /** Who may do what the candidate waits for. */
  lemma RolesMeaning(p: Principal)
    ensures Human(p) <==> IsPerson(p)
    ensures Has(p, Approver) <==> HasOne(p, {Approver})
    ensures Has(p, Investigator) || Has(p, Approver) <==> HasOne(p, {Investigator, Approver})
  {
    if "agent:" <= p.user { assert p.user[..6] == "agent:"; }
  }

  /** The call that files this event, told from the call alone. */
  ghost predicate Causes(op: Op, c: Id, e: Event) {
    match e.state
    case Draft => op.Create? && op.c == c && e.actor == op.candidate.proposedBy
    case Replayed => op.RecordFinding? && op.c == c && op.finding == ReplayRun && e.actor == op.actor
    case CounterexamplesPassed => op.RecordFinding? && op.c == c && op.finding == Attack(true) && e.actor == op.actor
    case CounterexamplesFailed => op.RecordFinding? && op.c == c && op.finding == Attack(false) && e.actor == op.actor
    case ShadowPassed => op.RecordFinding? && op.c == c && op.finding == Shadow(true) && e.actor == op.actor
    case ShadowFailed => op.RecordFinding? && op.c == c && op.finding == Shadow(false) && e.actor == op.actor
    case AwaitingApproval => op.Submit? && op.c == c && e.actor == op.p.user && IsPerson(op.p) && HasOne(op.p, {Investigator, Approver})
    case Released => op.Approve? && op.c == c && e.actor == op.p.user && IsPerson(op.p) && HasOne(op.p, {Approver})
    case Rejected => op.Reject? && op.c == c && e.actor == op.p.user && IsPerson(op.p) && HasOne(op.p, {Approver})
  }

  /** Nothing new, or one new event that the call causes and that comes with no refusal. */
  ghost predicate OneEventOf(g: Record, op: Op, c: Id, r: Reply) {
    var was, now := EventsOf(g, c), EventsOf(r.record, c);
    || now == was
    || (now != [] && now == was + [now[|now| - 1]] && r.refusal.None? && Causes(op, c, now[|now| - 1]))
  }

  lemma OneMove(g: Record, h: Record, op: Op, k: Id, state: State, actor: Id, c: Id)
    requires h.events == g.events && Causes(op, k, Event(state, actor))
    ensures OneEventOf(g, op, c, Move(h, k, state, actor))
  {
  }

  lemma OneFinding(g: Record, op: Op, c: Id)
    requires op.RecordFinding?
    ensures OneEventOf(g, op, c, OnFinding(g, op.c, op.finding, op.actor, op.report, op.content))
  {
    OneMove(g, g.(reports := g.reports[op.report := op.content]), op, op.c, StateOf(op.finding), op.actor, c);
  }

  lemma OneSubmission(g: Record, op: Op, c: Id)
    requires op.Submit? || op.Reject?
    ensures OneEventOf(g, op, c, if op.Submit? then OnSubmit(g, op.c, op.p) else OnReject(g, op.c, op.p))
  {
    RolesMeaning(op.p);
    if Human(op.p) && (if op.Submit? then Has(op.p, Investigator) || Has(op.p, Approver) else Has(op.p, Approver)) {
      OneMove(g, g, op, op.c, if op.Submit? then AwaitingApproval else Rejected, op.p.user, c);
    }
  }

  lemma OneApproval(fourEyes: bool, g: Record, op: Op, c: Id)
    requires op.Approve?
    ensures OneEventOf(g, op, c, OnApprove(g, fourEyes, op.c, op.p, op.at))
  {
    RolesMeaning(op.p);
  }

  lemma OneCreation(g: Record, op: Op, c: Id)
    requires op.Create?
    ensures OneEventOf(g, op, c, OnCreate(g, op.c, op.candidate))
  {
  }

  /** A call adds at most one event to a log, and only one that it causes, and only when accepted. */
  lemma OneEvent(fourEyes: bool, g: Record, op: Op, c: Id)
    ensures OneEventOf(g, op, c, Step(fourEyes, g, op))
  {
    match op
    case Seed(rules, scopes, at) =>
    case Create(k, candidate) => OneCreation(g, op, c);
    case RecordFinding(k, f, actor, report, content) => OneFinding(g, op, c);
    case Submit(k, p) => OneSubmission(g, op, c);
    case Reject(k, p) => OneSubmission(g, op, c);
    case Approve(k, p, at) => OneApproval(fourEyes, g, op, c);
    case Rollback(bundle, p) =>
  }

  /** The finding the call reports is what the log then ends with. */
  lemma FindingIsFiled(fourEyes: bool, g: Record, op: Op)
    requires op.RecordFinding? && Step(fourEyes, g, op).refusal.None?
    ensures var now := EventsOf(Step(fourEyes, g, op).record, op.c);
            now != [] && Causes(op, op.c, now[|now| - 1]) && |now| == |EventsOf(g, op.c)| + 1
  {
  }

  // ---------------------------------------------------------------- failed evidence

  /** Neither up for approval nor released, nor has it ever been. */
  ghost predicate NeverUp(es: seq<Event>) { forall k :: 0 <= k < |es| ==> es[k].state != AwaitingApproval && es[k].state != Released }

  ghost predicate Failed(s: State) { s == CounterexamplesFailed || s == ShadowFailed }

  /** Off the way to release. */
  ghost predicate Off(s: State) { Failed(s) || s == Rejected }

  /** Up for approval, or beyond. */
  ghost predicate Up(s: State) { s == AwaitingApproval || s == Released || s == Rejected }

  lemma OneMoveOn(s: State, t: State)
    requires t in Allowed(s)
    ensures Off(s) ==> Off(t)
    ensures Up(s) ==> Up(t)
  {
  }

  lemma PathAt(es: seq<Event>, k: nat)
    requires Path(es) && 0 < k < |es|
    ensures es[k].state in Allowed(es[k - 1].state)
  {
  }

  lemma {:induction false} MovesOn(es: seq<Event>, q: nat, k: nat)
    requires Path(es) && q <= k < |es|
    ensures Off(es[q].state) ==> Off(es[k].state)
    ensures Up(es[q].state) ==> Up(es[k].state)
    decreases k
  {
    if q < k {
      MovesOn(es, q, k - 1);
      PathAt(es, k);
      OneMoveOn(es[k - 1].state, es[k].state);
    }
  }

  /** A log with failed evidence in it was never up for approval. */
  lemma FailureIsFinal(es: seq<Event>, k: nat)
    requires Path(es) && k < |es| && Failed(es[k].state)
    ensures NeverUp(es)
  {
    forall q | 0 <= q < |es| ensures es[q].state != AwaitingApproval && es[q].state != Released {
      if q <= k { MovesOn(es, q, k); } else { MovesOn(es, k, q); }
    }
  }

  lemma LogsGrow(fourEyes: bool, ops: seq<Op>, n: nat, m: nat, c: Id)
    requires n <= m <= |ops|
    ensures EventsOf(Before(fourEyes, ops, n), c) <= EventsOf(Before(fourEyes, ops, m), c)
  {
    assert ops[..m] == ops[..n] + ops[n..m];
    RunsInTurn(fourEyes, Empty(), ops[..n], ops[n..m]);
    RunsOnlyAppend(fourEyes, Before(fourEyes, ops, n), ops[n..m]);
  }

  lemma LogsArePaths(fourEyes: bool, ops: seq<Op>, n: nat, c: Id)
    requires n <= |ops| && EventsOf(Before(fourEyes, ops, n), c) != []
    ensures Path(EventsOf(Before(fourEyes, ops, n), c))
  {
    EmptyIsLawful(fourEyes);
    RunsAreLawful(fourEyes, Empty(), ops[..n]);
    assert LogOk(fourEyes, Before(fourEyes, ops, n), c);
  }

  /** Main result. A candidate for which a failed attack or a failed shadow run was filed is never
      up for approval and never released, neither before that call nor after it. */
  lemma FailedEvidenceStops(fourEyes: bool, ops: seq<Op>, i: nat, c: Id, n: nat)
    requires Filed(fourEyes, ops, i, c, Attack(false)) || Filed(fourEyes, ops, i, c, Shadow(false))
    requires n <= |ops|
    ensures NeverUp(EventsOf(Before(fourEyes, ops, n), c))
  {
    var now, late := EventsOf(Before(fourEyes, ops, i + 1), c), EventsOf(Before(fourEyes, ops, |ops|), c);
    OneMore(fourEyes, ops, i);
    FindingIsFiled(fourEyes, Before(fourEyes, ops, i), ops[i]);
    assert Failed(now[|now| - 1].state);
    LogsGrow(fourEyes, ops, i + 1, |ops|, c);
    LogsArePaths(fourEyes, ops, |ops|, c);
    assert late[|now| - 1] == now[|now| - 1];
    FailureIsFinal(late, |now| - 1);
    LogsGrow(fourEyes, ops, n, |ops|, c);
    EarlierNeverUp(EventsOf(Before(fourEyes, ops, n), c), late);
  }

  lemma EarlierNeverUp(es: seq<Event>, late: seq<Event>)
    requires es <= late && NeverUp(late)
    ensures NeverUp(es)
  {
    forall k | 0 <= k < |es| ensures es[k].state != AwaitingApproval && es[k].state != Released { assert es[k] == late[k]; }
  }

  // ---------------------------------------------------------------- where an event comes from

  /** Call `n` filed event `q` of the candidate's log. */
  ghost predicate FiledAs(fourEyes: bool, ops: seq<Op>, n: nat, c: Id, q: nat, e: Event) {
    Accepted(fourEyes, ops, n) && Causes(ops[n], c, e) && |EventsOf(Before(fourEyes, ops, n), c)| == q
  }

  lemma NothingYet(fourEyes: bool, ops: seq<Op>, c: Id)
    ensures EventsOf(Before(fourEyes, ops, 0), c) == []
  {
  }

  /** Each event was filed by an accepted call that causes it. */
  lemma {:induction false} EventsHaveCalls(fourEyes: bool, ops: seq<Op>, n: nat, c: Id, q: nat) returns (p: nat)
    requires n <= |ops| && q < |EventsOf(Before(fourEyes, ops, n), c)|
    ensures p < n && FiledAs(fourEyes, ops, p, c, q, EventsOf(Before(fourEyes, ops, n), c)[q])
  {
    NothingYet(fourEyes, ops, c);
    if n > 0 {
      OneMore(fourEyes, ops, n - 1);
      OneEvent(fourEyes, Before(fourEyes, ops, n - 1), ops[n - 1], c);
      if q < |EventsOf(Before(fourEyes, ops, n - 1), c)| {
        p := EventsHaveCalls(fourEyes, ops, n - 1, c, q);
      } else {
        p := n - 1;
      }
    }
  }

  /** Later events were filed by later calls. */
  lemma CallsAreInOrder(fourEyes: bool, ops: seq<Op>, i: nat, j: nat, c: Id, q: nat, u: nat, e: Event, f: Event)
    requires FiledAs(fourEyes, ops, i, c, q, e) && FiledAs(fourEyes, ops, j, c, u, f) && q < u
    ensures i < j
  {
    if j <= i { LogsGrow(fourEyes, ops, j, i, c); }
  }

  /** The calls of the run, in order, that brought the candidate to release. */
  ghost predicate BroughtBy(fourEyes: bool, ops: seq<Op>, c: Id, replay: nat, attack: nat, shadow: nat, submit: nat, approve: nat) {
    && replay < attack < shadow < submit < approve < |ops|
    && Filed(fourEyes, ops, replay, c, ReplayRun)
    && Filed(fourEyes, ops, attack, c, Attack(true))
    && Filed(fourEyes, ops, shadow, c, Shadow(true))
    && Submitted(fourEyes, ops, submit, c)
    && Approved(fourEyes, ops, approve, c)
    && IsPerson(ops[submit].p) && HasOne(ops[submit].p, {Investigator, Approver})
    && IsPerson(ops[approve].p) && HasOne(ops[approve].p, {Approver})
    && (fourEyes ==> ops[submit].p.user != ops[approve].p.user)
  }

  lemma ReleasedLogs(fourEyes: bool, ops: seq<Op>, c: Id, es: seq<Event>)
    requires es == EventsOf(Run(fourEyes, Empty(), ops), c) && IsReleased(es)
    ensures |es| == 6 && es[1].state == Replayed && es[2].state == CounterexamplesPassed && es[3].state == ShadowPassed
    ensures es[4].state == AwaitingApproval && es[5].state == Released && (fourEyes ==> es[4].actor != es[5].actor)
  {
    ReleasesAreGoverned(fourEyes, ops, c);
    assert |States(es)| == 6;
    assert forall k {:trigger es[k]} :: 0 <= k < 6 ==> es[k].state == States(es)[k];
  }

  /** Main result. For every released candidate the calls of the run hold, in this order, an accepted
      replay, a passed attack, a passed shadow run, a submission and an approval by persons with
      the role; under four eyes the two are not the same person. */
  lemma ReleasesAreEarned(fourEyes: bool, ops: seq<Op>, c: Id)
    requires var es := EventsOf(Before(fourEyes, ops, |ops|), c); IsReleased(es)
    ensures exists replay: nat, attack: nat, shadow: nat, submit: nat, approve: nat ::
              BroughtBy(fourEyes, ops, c, replay, attack, shadow, submit, approve)
  {
    var n := |ops|;
    var es := EventsOf(Before(fourEyes, ops, n), c);
    assert ops[..n] == ops;
    ReleasedLogs(fourEyes, ops, c, es);
    var replay := EventsHaveCalls(fourEyes, ops, n, c, 1);
    var attack := EventsHaveCalls(fourEyes, ops, n, c, 2);
    var shadow := EventsHaveCalls(fourEyes, ops, n, c, 3);
    var submit := EventsHaveCalls(fourEyes, ops, n, c, 4);
    var approve := EventsHaveCalls(fourEyes, ops, n, c, 5);
    CallsAreInOrder(fourEyes, ops, replay, attack, c, 1, 2, es[1], es[2]);
    CallsAreInOrder(fourEyes, ops, attack, shadow, c, 2, 3, es[2], es[3]);
    CallsAreInOrder(fourEyes, ops, shadow, submit, c, 3, 4, es[3], es[4]);
    CallsAreInOrder(fourEyes, ops, submit, approve, c, 4, 5, es[4], es[5]);
    assert BroughtBy(fourEyes, ops, c, replay, attack, shadow, submit, approve);
  }
}
