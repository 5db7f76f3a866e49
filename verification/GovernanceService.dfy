/** The governance service as it runs, method by method the transitions of `Governance`. */
module GovernanceService {
  import opened Seqs
  import opened Governance

  // ---------------------------------------------------------------- what success guarantees

  /** A passed check stands at the end of all the checks before it, in order. */
  ghost predicate CameTheWay(g: Record, c: Id, state: State) {
    && c in g.events && g.events[c] != [] && g.events[c][|g.events[c]| - 1].state == state
    && (WayTo(state) != [] ==> States(g.events[c]) == WayTo(state))
  }

  /** Nothing more can happen to the candidate. */
  ghost predicate Closed(g: Record, c: Id) { forall state, actor :: Move(g, c, state, actor).refusal.Some? }

  /** No approval by anyone of anything goes through. */
  ghost predicate Frozen(fourEyes: bool, g: Record) { forall c, p, at :: OnApprove(g, fourEyes, c, p, at).refusal.Some? }

  lemma MovedTheWay(fourEyes: bool, g: Record, c: Id, state: State, actor: Id)
    requires Lawful(fourEyes, g) && state != Released && Move(g, c, state, actor).refusal.None?
    ensures Lawful(fourEyes, Move(g, c, state, actor).record)
    ensures CameTheWay(Move(g, c, state, actor).record, c, state)
  {
    MoveKeepsLaw(fourEyes, g, c, state, actor);
    var n := Move(g, c, state, actor).record;
    assert LogOk(fourEyes, n, c);
    if WayTo(state) != [] { OneWayToRelease(n.events[c]); }
  }

  /** A recorded finding keeps the law, and moves only a candidate that came the way. */
  ghost predicate Advances(fourEyes: bool, g: Record, c: Id, f: Finding, r: Reply) {
    Lawful(fourEyes, g) ==> Lawful(fourEyes, r.record) && (r.refusal.None? ==> CameTheWay(r.record, c, StateOf(f)))
  }

  lemma FoundTheWay(fourEyes: bool, g: Record, c: Id, f: Finding, actor: Id, report: Id, content: string)
    ensures Advances(fourEyes, g, c, f, OnFinding(g, c, f, actor, report, content))
  {
    if Lawful(fourEyes, g) { FoundLawfully(fourEyes, g, c, f, actor, report, content); }
  }

  lemma FoundLawfully(fourEyes: bool, g: Record, c: Id, f: Finding, actor: Id, report: Id, content: string)
    requires Lawful(fourEyes, g)
    ensures var r := OnFinding(g, c, f, actor, report, content);
            Lawful(fourEyes, r.record) && (r.refusal.None? ==> CameTheWay(r.record, c, StateOf(f)))
  {
    var n := g.(reports := g.reports[report := content]);
    ReportsKeepLaw(fourEyes, g, n);
    MoveKeepsLaw(fourEyes, n, c, StateOf(f), actor);
    if Move(n, c, StateOf(f), actor).refusal.None? { MovedTheWay(fourEyes, n, c, StateOf(f), actor); }
  }

  lemma RejectedIsClosed(g: Record, c: Id, actor: Id)
    requires Move(g, c, Rejected, actor).refusal.None?
    ensures Closed(Move(g, c, Rejected, actor).record, c)
  {
  }

  lemma RolledBackIsFrozen(fourEyes: bool, g: Record, bundle: nat, p: Principal)
    requires Lawful(fourEyes, g) && OnRollback(g, bundle, p).refusal.None?
    ensures var n := OnRollback(g, bundle, p).record; Lawful(fourEyes, n) && (bundle != Newest(n) ==> Frozen(fourEyes, n))
  {
    RollingBackKeepsLaw(fourEyes, g, bundle, p);
    var n := OnRollback(g, bundle, p).record;
    if bundle != Newest(n) {
      forall c, q, at ensures OnApprove(n, fourEyes, c, q, at).refusal.Some? { ApprovalSucceedsIff(fourEyes, n, c, q, at); }
    }
  }

  /** Only the submitter's own approval is refused for it, whatever else holds. */
  lemma OwnSubmissionIsRefused(g: Record, c: Id, p: Principal, at: nat)
    requires Submitter(EventsOf(g, c)) == Some(p.user)
    ensures OnApprove(g, true, c, p, at).refusal.Some?
  {
  }

  /** An approval keeps the law, and goes through exactly when it may. */
  ghost predicate Governed(fourEyes: bool, g: Record, c: Id, p: Principal, r: Reply) {
    Lawful(fourEyes, g) ==> Lawful(fourEyes, r.record) && (r.refusal.None? <==> Approvable(fourEyes, g, c, p))
  }

  lemma ApprovingIsGoverned(fourEyes: bool, g: Record, c: Id, p: Principal, at: nat)
    ensures Governed(fourEyes, g, c, p, OnApprove(g, fourEyes, c, p, at))
  {
    if Lawful(fourEyes, g) {
      ApprovingKeepsLaw(fourEyes, g, c, p, at);
      ApprovalSucceedsIff(fourEyes, g, c, p, at);
    }
  }

  lemma SeedingActivates(fourEyes: bool, g: Record, rules: seq<Rule>, scopes: seq<Id>, at: nat)
    requires Lawful(fourEyes, g)
    ensures var r := OnSeed(g, rules, scopes, at);
            Lawful(fourEyes, r.record) && r.refusal.None? && Active(r.record).Some? && Active(r.record).value in r.record.bundles
  {
    SeedingKeepsLaw(fourEyes, g, rules, scopes, at);
  }

  // ---------------------------------------------------------------- the service

  /** The governance service over its stored record. A method either returns `None` or says why
      it refused. */
  class Service {
    const fourEyes: bool
    var candidates: map<Id, Candidate>
    var events: map<Id, seq<Event>>
    var bundles: map<nat, Bundle>
    var activations: seq<Activation>
    var reports: map<Id, string>
    var audit: seq<Entry>

    constructor (fourEyes: bool)
      ensures this.fourEyes == fourEyes && Stored() == Empty()
    {
      this.fourEyes := fourEyes;
      candidates, events, bundles, activations, reports, audit := map[], map[], map[], [], map[], [];
    }

    ghost function Stored(): Record reads this { Record(candidates, events, bundles, activations, reports, audit) }

    /** Appends an event to a candidate's log, and to the audit log. */
    method Note(c: Id, state: State, actor: Id)
      modifies this`events, this`audit
      ensures Stored() == Append(old(Stored()), c, state, actor)
    {
      events := events[c := (if c in events then events[c] else []) + [Event(state, actor)]];
      audit := audit + [Entry(actor, Moved(c, state))];
    }

    method CheckedNote(c: Id, state: State, actor: Id) returns (refusal: Option<Refusal>)
      modifies this`events, this`audit
      ensures Reply(Stored(), refusal) == Move(old(Stored()), c, state, actor)
    {
      if c !in events || events[c] == [] { return Some(UnknownCandidate); }
      if state !in Allowed(events[c][|events[c]| - 1].state) { return Some(NotAllowed); }
      Note(c, state, actor);
      return None;
    }

    method Activated(bundle: nat, actor: Id)
      modifies this`activations, this`audit
      ensures Stored() == Activate(old(Stored()), bundle, actor)
    {
      activations := activations + [Activation(bundle, actor)];
      audit := audit + [Entry(actor, Fact.Activated(bundle))];
    }

    /** Seeds an empty record; a seeded one stays as it is. */
    method SeedPolicy(rules: seq<Rule>, scopes: seq<Id>, at: nat) returns (refusal: Option<Refusal>)
      modifies this`bundles, this`activations, this`audit
      ensures Reply(Stored(), refusal) == OnSeed(old(Stored()), rules, scopes, at)
      ensures old(activations) != [] ==> Stored() == old(Stored())
      ensures Lawful(fourEyes, old(Stored())) ==>
        Lawful(fourEyes, Stored()) && refusal.None? && Active(Stored()).Some? && Active(Stored()).value in bundles
    {
      ghost var was := Stored();
      if Lawful(fourEyes, was) { SeedingActivates(fourEyes, was, rules, scopes, at); }
      if activations != [] { return None; }
      var b := Bundle(1, None, rules, scopes, at, "seed", None);
      if 1 in bundles && bundles[1] != b { return Some(ImmutableArtifact); }
      bundles := bundles[1 := b];
      Activated(1, "seed");
      return None;
    }

    /** Opens a log for a new candidate; a known one keeps its payload and its log. */
    method CreateCandidate(c: Id, candidate: Candidate)
      modifies this`candidates, this`events, this`audit
      ensures Reply(Stored(), None) == OnCreate(old(Stored()), c, candidate)
      ensures c in old(candidates) ==> Stored() == old(Stored())
      ensures Lawful(fourEyes, old(Stored())) ==> Lawful(fourEyes, Stored()) && c in events && events[c] != []
    {
      ghost var was := Stored();
      if Lawful(fourEyes, was) {
        CreatingKeepsLaw(fourEyes, was, c, candidate);
        assert LogOk(fourEyes, OnCreate(was, c, candidate).record, c);
      }
      if c !in candidates {
        candidates := candidates[c := candidate];
        Note(c, Draft, candidate.proposedBy);
      }
    }

    /** Stores the report and moves the candidate; a report is never replaced, and a candidate
        that is moved by a passed check has passed all the checks before it. */
    method RecordStep(c: Id, f: Finding, actor: Id, report: Id, content: string) returns (refusal: Option<Refusal>)
      modifies this`reports, this`events, this`audit
      ensures Reply(Stored(), refusal) == OnFinding(old(Stored()), c, f, actor, report, content)
      ensures refusal.Some? ==> events == old(events) && audit == old(audit)
      ensures refusal.None? ==> report in reports && reports[report] == content
      ensures forall r :: r in old(reports) ==> r in reports && reports[r] == old(reports)[r]
      ensures forall k :: k != c ==> EventsOf(Stored(), k) == EventsOf(old(Stored()), k)
      ensures Advances(fourEyes, old(Stored()), c, f, Reply(Stored(), refusal))
    {
      FoundTheWay(fourEyes, Stored(), c, f, actor, report, content);
      if report in reports && reports[report] != content { return Some(ImmutableArtifact); }
      reports := reports[report := content];
      refusal := CheckedNote(c, StateOf(f), actor);
    }

    /** Puts a candidate that passed every check up for approval by somebody else. */
    method SubmitCandidate(c: Id, p: Principal) returns (refusal: Option<Refusal>)
      modifies this`events, this`audit
      ensures Reply(Stored(), refusal) == OnSubmit(old(Stored()), c, p)
      ensures refusal.Some? ==> Stored() == old(Stored())
      ensures refusal.None? ==> Human(p) && forall at :: OnApprove(Stored(), true, c, p, at).refusal.Some?
      ensures Lawful(fourEyes, old(Stored())) && refusal.None? ==>
        Lawful(fourEyes, Stored()) && CameTheWay(Stored(), c, AwaitingApproval)
    {
      ghost var was := Stored();
      if Lawful(fourEyes, was) && OnSubmit(was, c, p).refusal.None? { MovedTheWay(fourEyes, was, c, AwaitingApproval, p.user); }
      if !Has(p, Investigator) && !Has(p, Approver) { return Some(NeedsRole); }
      if !Human(p) { return Some(NeedsHuman); }
      refusal := CheckedNote(c, AwaitingApproval, p.user);
      if refusal.None? {
        forall at ensures OnApprove(Stored(), true, c, p, at).refusal.Some? { OwnSubmissionIsRefused(Stored(), c, p, at); }
      }
    }

    /** Ends a candidate for good. */
    method RejectCandidate(c: Id, p: Principal) returns (refusal: Option<Refusal>)
      modifies this`events, this`audit
      ensures Reply(Stored(), refusal) == OnReject(old(Stored()), c, p)
      ensures refusal.Some? ==> Stored() == old(Stored())
      ensures refusal.None? ==> Human(p) && Has(p, Approver) && Closed(Stored(), c)
      ensures Lawful(fourEyes, old(Stored())) ==> Lawful(fourEyes, Stored())
    {
      ghost var was := Stored();
      if Lawful(fourEyes, was) { MoveKeepsLaw(fourEyes, was, c, Rejected, p.user); }
      if OnReject(was, c, p).refusal.None? { RejectedIsClosed(was, c, p.user); }
      if !Has(p, Approver) { return Some(NeedsRole); }
      if !Human(p) { return Some(NeedsHuman); }
      refusal := CheckedNote(c, Rejected, p.user);
    }

    /** Makes a stored bundle the active one and changes no bundle; below the newest bundle this
        freezes approvals. */
    method RollbackTo(bundle: nat, p: Principal) returns (refusal: Option<Refusal>)
      modifies this`activations, this`audit
      ensures Reply(Stored(), refusal) == OnRollback(old(Stored()), bundle, p)
      ensures refusal.None? <==> Has(p, Approver) && Human(p) && bundle in bundles
      ensures if refusal.None? then Active(Stored()) == Some(bundle) else Stored() == old(Stored())
      ensures Lawful(fourEyes, old(Stored())) ==> Lawful(fourEyes, Stored())
      ensures Lawful(fourEyes, old(Stored())) && refusal.None? && bundle != Newest(Stored()) ==> Frozen(fourEyes, Stored())
    {
      ghost var was := Stored();
      if Lawful(fourEyes, was) && OnRollback(was, bundle, p).refusal.None? { RolledBackIsFrozen(fourEyes, was, bundle, p); }
      if !Has(p, Approver) { return Some(NeedsRole); }
      if !Human(p) { return Some(NeedsHuman); }
      if bundle !in bundles { return Some(UnknownBundle); }
      Activated(bundle, p.user);
      audit := audit + [Entry(p.user, RolledBack(bundle))];
      return None;
    }

    /** The actor of the newest submission of a log. */
    method LastSubmitter(es: seq<Event>) returns (who: Option<Id>)
      ensures who == Submitter(es)
    {
      var i := |es|;
      assert es[..|es|] == es;
      while i > 0
        invariant 0 <= i <= |es| && Submitter(es) == Submitter(es[..i])
      {
        if es[i - 1].state == AwaitingApproval { return Some(es[i - 1].actor); }
        assert es[..i][..i - 1] == es[..i - 1];
        i := i - 1;
      }
      return None;
    }

    method Extend(parent: Bundle, payload: Payload, at: nat, author: Id, source: Id) returns (b: Bundle)
      requires payload != Nothing
      ensures b == Extended(parent, payload, at, author, source)
    {
      var rules, scopes := parent.rules, parent.scopes;
      if payload.NewRule? {
        rules := Filter(rules, NotNamed(payload.rule.ruleId)) + [payload.rule];
      } else {
        scopes := Filter(scopes, NotScope(payload.scope)) + [payload.scope];
      }
      b := Bundle(parent.version + 1, Some(parent.version), rules, scopes, at, author, Some(source));
    }

    method ApproveCandidate(c: Id, p: Principal, at: nat) returns (refusal: Option<Refusal>)
      modifies this
      ensures Reply(Stored(), refusal) == OnApprove(old(Stored()), fourEyes, c, p, at)
      ensures Governed(fourEyes, old(Stored()), c, p, Reply(Stored(), refusal))
    {
      ApprovingIsGoverned(fourEyes, Stored(), c, p, at);
      if !Has(p, Approver) { return Some(NeedsRole); }
      if !Human(p) { return Some(NeedsHuman); }
      if c !in events || events[c] == [] { return Some(UnknownCandidate); }
      if events[c][|events[c]| - 1].state != AwaitingApproval { return Some(NotAwaiting); }
      var submitter := LastSubmitter(events[c]);
      if fourEyes && submitter == Some(p.user) { return Some(OwnSubmission); }
      if c !in candidates { return Some(UnknownCandidate); }
      if activations == [] { return Some(NotSeeded); }
      var active := activations[|activations| - 1].bundle;
      if active !in bundles { return Some(UnknownBundle); }
      var parent, payload := bundles[active], candidates[c].payload;
      if payload == Nothing { return Some(NoPayload); }
      var b := Extend(parent, payload, at, p.user, c);
      if b.version in bundles && bundles[b.version] != b { return Some(ImmutableArtifact); }
      bundles := bundles[b.version := b];
      Note(c, Released, p.user);
      Activated(b.version, p.user);
      return None;
    }
  }
}
