/** What a rollback does to the candidates that wait for approval. */
module Rollbacks {
  import opened Seqs
  import opened Governance

  /** Everything an approval needs but the newest bundle being active. */
  ghost predicate Waiting(fourEyes: bool, g: Record, c: Id, p: Principal) {
    && Has(p, Approver) && Human(p)
    && c in g.events && g.events[c] != [] && g.events[c][|g.events[c]| - 1].state == AwaitingApproval
    && (fourEyes ==> g.events[c][|g.events[c]| - 1].actor != p.user)
    && c in g.candidates && g.candidates[c].payload != Nothing
    && Active(g).Some?
  }

  /** Of a waiting candidate the bundle number decides alone: taken, the approval is refused for
      it; free, the approval goes through. */
  lemma WaitingIsDecided(fourEyes: bool, g: Record, c: Id, p: Principal, at: nat)
    requires Lawful(fourEyes, g) && Waiting(fourEyes, g, c, p)
    ensures OnApprove(g, fourEyes, c, p, at).refusal == if Active(g) == Some(Newest(g)) then None else Some(ImmutableArtifact)
  {
    ActiveExists(fourEyes, g);
    SubmitterOfAwaiting(g.events[c]);
    assert BundleOk(g, Active(g).value);
    var b := Extended(g.bundles[Active(g).value], g.candidates[c].payload, at, p.user, c);
    TakenUnlessNewest(fourEyes, g, c, b);
  }

  /** Any rollback below the newest bundle turns an approval that would have succeeded into a
      refusal, and activating the newest bundle again turns it back. */
  lemma RollbackBlocks(fourEyes: bool, g: Record, c: Id, p: Principal, at: nat, bundle: nat, q: Principal)
    requires Lawful(fourEyes, g) && Approvable(fourEyes, g, c, p)
    requires bundle in g.bundles && bundle != Newest(g) && Has(q, Approver) && Human(q)
    ensures OnRollback(g, bundle, q).refusal.None?
    ensures var n := OnRollback(g, bundle, q).record;
            && Lawful(fourEyes, n) && Waiting(fourEyes, n, c, p) && Active(n) == Some(bundle)
            && OnApprove(n, fourEyes, c, p, at).refusal == Some(ImmutableArtifact)
            && OnApprove(OnRollback(n, Newest(g), q).record, fourEyes, c, p, at).refusal.None?
  {
    var n := OnRollback(g, bundle, q).record;
    RolledBack(fourEyes, g, c, p, bundle, q);
    WaitingIsDecided(fourEyes, n, c, p, at);
    ActiveExists(fourEyes, g);
    RolledBack(fourEyes, n, c, p, Newest(g), q);
    WaitingIsDecided(fourEyes, OnRollback(n, Newest(g), q).record, c, p, at);
  }

  /** A rollback keeps the law and what waits, and activates the bundle. */
  lemma RolledBack(fourEyes: bool, g: Record, c: Id, p: Principal, bundle: nat, q: Principal)
    requires Lawful(fourEyes, g) && Waiting(fourEyes, g, c, p) && bundle in g.bundles && Has(q, Approver) && Human(q)
    ensures var r := OnRollback(g, bundle, q);
            r.refusal.None? && Lawful(fourEyes, r.record) && Waiting(fourEyes, r.record, c, p)
            && Active(r.record) == Some(bundle) && r.record.bundles == g.bundles
  {
    RollingBackKeepsLaw(fourEyes, g, bundle, q);
  }

  // ---------------------------------------------------------------- a run that gets there

  lemma {:induction false} RunsInTurn(fourEyes: bool, g: Record, first: seq<Op>, then_: seq<Op>)
    ensures Run(fourEyes, g, first + then_) == Run(fourEyes, Run(fourEyes, g, first), then_)
    decreases |first|
  {
    if first == [] {
      assert first + then_ == then_;
    } else {
      assert (first + then_)[1..] == first[1..] + then_;
      RunsInTurn(fourEyes, Step(fourEyes, g, first[0]).record, first[1..], then_);
    }
  }

  lemma OneCall(fourEyes: bool, g: Record, op: Op)
    ensures Run(fourEyes, g, [op]) == Step(fourEyes, g, op).record
  {
    assert [op][1..] == [];
  }

  /** The calls that bring a candidate up for approval. */
  function Raise(c: Id, p: Principal): seq<Op> {
    [Create(c, Candidate(NewScope(c), "agent:discovery"))]
    + [RecordFinding(c, ReplayRun, "platform", c + ".replay", "")]
    + [RecordFinding(c, Attack(true), "platform", c + ".attack", "")]
    + [RecordFinding(c, Shadow(true), "platform", c + ".shadow", "")]
    + [Submit(c, p)]
  }

  /** The log ends there, and nothing but logs, reports and the audit trail has changed. */
  ghost predicate Raised(g: Record, n: Record, c: Id, state: State, actor: Id) {
    && c in n.events && n.events[c] != [] && n.events[c][|n.events[c]| - 1] == Event(state, actor)
    && c in n.candidates && n.candidates[c].payload == NewScope(c)
    && n.bundles == g.bundles && n.activations == g.activations
    && (forall k :: k != c ==> EventsOf(n, k) == EventsOf(g, k))
    && n.candidates.Keys == g.candidates.Keys + {c}
  }

  ghost predicate Blank(g: Record) { forall r :: r in g.reports ==> g.reports[r] == "" }

  lemma Created(fourEyes: bool, g: Record, c: Id)
    requires c !in g.candidates && c !in g.events && Blank(g)
    ensures var n := Run(fourEyes, g, [Create(c, Candidate(NewScope(c), "agent:discovery"))]);
            Raised(g, n, c, Draft, "agent:discovery") && Blank(n)
  {
    OneCall(fourEyes, g, Create(c, Candidate(NewScope(c), "agent:discovery")));
  }

  lemma Noted(g: Record, n: Record, c: Id, f: Finding, state: State, actor: Id, report: Id)
    requires Raised(g, n, c, state, actor) && Blank(n) && StateOf(f) in Allowed(state)
    ensures var r := OnFinding(n, c, f, "platform", report, "").record;
            Raised(g, r, c, StateOf(f), "platform") && Blank(r)
  {
  }

  lemma NotedNext(fourEyes: bool, g: Record, ops: seq<Op>, c: Id, f: Finding, state: State, actor: Id, report: Id)
    requires Raised(g, Run(fourEyes, g, ops), c, state, actor) && Blank(Run(fourEyes, g, ops)) && StateOf(f) in Allowed(state)
    ensures var n := Run(fourEyes, g, ops + [RecordFinding(c, f, "platform", report, "")]);
            Raised(g, n, c, StateOf(f), "platform") && Blank(n)
  {
    var n, op := Run(fourEyes, g, ops), RecordFinding(c, f, "platform", report, "");
    RunsInTurn(fourEyes, g, ops, [op]);
    OneCall(fourEyes, n, op);
    Noted(g, n, c, f, state, actor, report);
  }

  lemma SubmittedNext(fourEyes: bool, g: Record, ops: seq<Op>, c: Id, actor: Id, p: Principal)
    requires Raised(g, Run(fourEyes, g, ops), c, ShadowPassed, actor) && Blank(Run(fourEyes, g, ops))
    requires Has(p, Investigator) && Human(p)
    ensures var n := Run(fourEyes, g, ops + [Submit(c, p)]);
            Raised(g, n, c, AwaitingApproval, p.user) && Blank(n)
  {
    var n := Run(fourEyes, g, ops);
    RunsInTurn(fourEyes, g, ops, [Submit(c, p)]);
    OneCall(fourEyes, n, Submit(c, p));
  }

  lemma RaisingRaises(fourEyes: bool, g: Record, c: Id, p: Principal)
    requires c !in g.candidates && c !in g.events && Blank(g) && Has(p, Investigator) && Human(p)
    ensures Raised(g, Run(fourEyes, g, Raise(c, p)), c, AwaitingApproval, p.user) && Blank(Run(fourEyes, g, Raise(c, p)))
  {
    var one := [Create(c, Candidate(NewScope(c), "agent:discovery"))];
    Created(fourEyes, g, c);
    NotedNext(fourEyes, g, one, c, ReplayRun, Draft, "agent:discovery", c + ".replay");
    var two := one + [RecordFinding(c, ReplayRun, "platform", c + ".replay", "")];
    NotedNext(fourEyes, g, two, c, Attack(true), Replayed, "platform", c + ".attack");
    var three := two + [RecordFinding(c, Attack(true), "platform", c + ".attack", "")];
    NotedNext(fourEyes, g, three, c, Shadow(true), CounterexamplesPassed, "platform", c + ".shadow");
    var four := three + [RecordFinding(c, Shadow(true), "platform", c + ".shadow", "")];
    SubmittedNext(fourEyes, g, four, c, "platform", p);
  }

  /** The newest bundle is active, and what is stored as a report is blank. */
  ghost predicate Ready(fourEyes: bool, g: Record) { Lawful(fourEyes, g) && Blank(g) && Active(g) == Some(Newest(g)) }

  lemma RaisedIsApprovable(fourEyes: bool, g: Record, c: Id, p: Principal, q: Principal)
    requires Ready(fourEyes, g) && c !in g.candidates && Has(p, Investigator) && Human(p)
    requires Has(q, Approver) && Human(q) && q.user != p.user
    ensures var n := Run(fourEyes, g, Raise(c, p));
            Lawful(fourEyes, n) && Approvable(fourEyes, n, c, q) && Raised(g, n, c, AwaitingApproval, p.user) && Blank(n)
  {
    RaisingRaises(fourEyes, g, c, p);
    RunsAreLawful(fourEyes, g, Raise(c, p));
  }

  lemma ApprovedIsReady(fourEyes: bool, g: Record, c: Id, q: Principal, at: nat)
    requires Lawful(fourEyes, g) && Approvable(fourEyes, g, c, q) && Blank(g)
    ensures var n := Run(fourEyes, g, [Approve(c, q, at)]);
            Ready(fourEyes, n) && Newest(n) == Newest(g) + 1 && n.candidates == g.candidates
  {
    OneCall(fourEyes, g, Approve(c, q, at));
    ApprovalMeaning(fourEyes, g, c, q, at);
    var n := ApprovedBy(g, c, q.user, at);
    OneMoreKey(g.bundles, Newest(g) + 1, n.bundles[Newest(g) + 1]);
    StepKeepsLaw(fourEyes, g, Approve(c, q, at));
  }

  lemma SeededIsReady(fourEyes: bool, g: Record)
    requires g == Empty()
    ensures var n := Run(fourEyes, g, [Seed([], [], 0)]); Ready(fourEyes, n) && Newest(n) == 1 && n.candidates == map[]
  {
    OneCall(fourEyes, g, Seed([], [], 0));
    EmptyIsLawful(fourEyes);
    StepKeepsLaw(fourEyes, g, Seed([], [], 0));
    assert OnSeed(g, [], [], 0).record.bundles.Keys == {1};
  }

  lemma ReleasedNext(fourEyes: bool, g: Record, c: Id, p: Principal, q: Principal, at: nat, bundle: nat)
    requires Ready(fourEyes, g) && c !in g.candidates && bundle in g.bundles
    requires Has(p, Investigator) && Human(p) && Has(q, Approver) && Human(q) && q.user != p.user
    ensures var n := Run(fourEyes, g, Raise(c, p) + [Approve(c, q, at)]);
            Ready(fourEyes, n) && n.candidates.Keys == g.candidates.Keys + {c} && bundle in n.bundles && bundle != Newest(n)
  {
    var raised := Run(fourEyes, g, Raise(c, p));
    RaisedIsApprovable(fourEyes, g, c, p, q);
    ApprovedIsReady(fourEyes, raised, c, q, at);
    RunsOnlyAppend(fourEyes, raised, [Approve(c, q, at)]);
    RunsInTurn(fourEyes, g, Raise(c, p), [Approve(c, q, at)]);
  }

  lemma RaisedThenBlocked(fourEyes: bool, g: Record, d: Id, p: Principal, q: Principal, bundle: nat, at: nat)
    requires Ready(fourEyes, g) && d !in g.candidates && bundle in g.bundles && bundle != Newest(g)
    requires Has(p, Investigator) && Human(p) && Has(q, Approver) && Human(q) && q.user != p.user
    ensures var up := Run(fourEyes, g, Raise(d, p));
            var n := Run(fourEyes, up, [Rollback(bundle, q)]);
            && Approvable(fourEyes, up, d, q)
            && Active(n) == Some(bundle) && Waiting(fourEyes, n, d, q)
            && OnApprove(n, fourEyes, d, q, at).refusal == Some(ImmutableArtifact)
  {
    var up := Run(fourEyes, g, Raise(d, p));
    RaisedIsApprovable(fourEyes, g, d, p, q);
    assert up.bundles == g.bundles;
    BlockedNext(fourEyes, up, d, q, bundle, at);
  }

  lemma BlockedNext(fourEyes: bool, g: Record, d: Id, q: Principal, bundle: nat, at: nat)
    requires Lawful(fourEyes, g) && Approvable(fourEyes, g, d, q) && bundle in g.bundles && bundle != Newest(g)
    ensures var n := Run(fourEyes, g, [Rollback(bundle, q)]);
            && Active(n) == Some(bundle) && Waiting(fourEyes, n, d, q)
            && OnApprove(n, fourEyes, d, q, at).refusal == Some(ImmutableArtifact)
  {
    OneCall(fourEyes, g, Rollback(bundle, q));
    RolledBack(fourEyes, g, d, q, bundle, q);
    WaitingIsDecided(fourEyes, OnRollback(g, bundle, q).record, d, q, at);
  }

  /** One candidate released, the next one up for approval: rolled back to any bundle but the
      newest, it meets every other condition and is refused because its bundle number is taken. */
  lemma NextIsBlocked(fourEyes: bool, g: Record, c: Id, d: Id, p: Principal, q: Principal, bundle: nat, at: nat)
    requires Ready(fourEyes, g) && c !in g.candidates && d !in g.candidates && c != d && bundle in g.bundles
    requires Has(p, Investigator) && Human(p) && Has(q, Approver) && Human(q) && q.user != p.user
    ensures var up := Run(fourEyes, g, Raise(c, p) + [Approve(c, q, at)] + Raise(d, p));
            var n := Run(fourEyes, up, [Rollback(bundle, q)]);
            && Approvable(fourEyes, up, d, q)
            && Active(n) == Some(bundle) && Waiting(fourEyes, n, d, q)
            && OnApprove(n, fourEyes, d, q, at).refusal == Some(ImmutableArtifact)
  {
    var released := Run(fourEyes, g, Raise(c, p) + [Approve(c, q, at)]);
    ReleasedNext(fourEyes, g, c, p, q, at, bundle);
    RaisedThenBlocked(fourEyes, released, d, p, q, bundle, at);
    RunsInTurn(fourEyes, g, Raise(c, p) + [Approve(c, q, at)], Raise(d, p));
  }

  const ANN: Principal := Principal("ann", {Investigator})
  const BOB: Principal := Principal("bob", {Approver})

  /** Seeded, a first candidate released, a second one up for approval, rolled back to the seed. */
  function Calls(): seq<Op> {
    [Seed([], [], 0)] + (Raise("first", ANN) + [Approve("first", BOB, 1)] + Raise("second", ANN) + [Rollback(1, BOB)])
  }

  lemma SecondIsBlocked(fourEyes: bool)
    ensures var n := Run(fourEyes, Empty(), Calls());
            Waiting(fourEyes, n, "second", BOB) && OnApprove(n, fourEyes, "second", BOB, 1).refusal == Some(ImmutableArtifact)
  {
    var first, second := "first", "second";
    assert |first| != |second|;
    var g := Run(fourEyes, Empty(), [Seed([], [], 0)]);
    SeededIsReady(fourEyes, Empty());
    assert BundleOk(g, 1);
    NextIsBlocked(fourEyes, g, first, second, ANN, BOB, 1, 1);
    RunsInTurn(fourEyes, Empty(), [Seed([], [], 0)], Raise(first, ANN) + [Approve(first, BOB, 1)] + Raise(second, ANN) + [Rollback(1, BOB)]);
    RunsInTurn(fourEyes, g, Raise(first, ANN) + [Approve(first, BOB, 1)] + Raise(second, ANN), [Rollback(1, BOB)]);
  }
}
