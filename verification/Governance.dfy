/** The only path by which rules and bulk policy change, over any sequence of calls. */
module Governance {
  import opened Seqs

  type Id = string

  datatype State =
    | Draft | Replayed
    | CounterexamplesPassed | CounterexamplesFailed
    | ShadowPassed | ShadowFailed
    | AwaitingApproval | Released | Rejected

  function Allowed(s: State): set<State> {
    match s
    case Draft => {Replayed, Rejected}
    case Replayed => {CounterexamplesPassed, CounterexamplesFailed, Rejected}
    case CounterexamplesPassed => {ShadowPassed, ShadowFailed, Rejected}
    case CounterexamplesFailed => {Rejected}
    case ShadowPassed => {AwaitingApproval, Rejected}
    case ShadowFailed => {Rejected}
    case AwaitingApproval => {Released, Rejected}
    case Released => {}
    case Rejected => {}
  }

  datatype Role = Viewer | Investigator | Approver | Admin | Service

  datatype Principal = Principal(user: Id, roles: set<Role>)

  predicate Has(p: Principal, r: Role) { r in p.roles || Admin in p.roles }

  predicate Human(p: Principal) {
    !("agent:" <= p.user) && !(Service in p.roles && Admin !in p.roles)
  }

  datatype Rule = Rule(ruleId: Id, body: string)

  /** What a candidate would release. */
  datatype Payload = NewRule(rule: Rule) | NewScope(scope: Id) | Nothing

  datatype Candidate = Candidate(payload: Payload, proposedBy: Id)

  datatype Event = Event(state: State, actor: Id)

  /** Bundle `BUNDLE-n` is filed under its version `n`. */
  datatype Bundle = Bundle(
    version: nat,
    parent: Option<nat>,
    rules: seq<Rule>,
    scopes: seq<Id>,
    createdAt: nat,
    createdBy: Id,
    source: Option<Id>)

  datatype Activation = Activation(bundle: nat, actor: Id)

  datatype Fact = Moved(candidate: Id, state: State) | Activated(bundle: nat) | RolledBack(bundle: nat)

  datatype Entry = Entry(actor: Id, fact: Fact)

  /** Everything governance has stored. */
  datatype Record = Record(
    candidates: map<Id, Candidate>,
    events: map<Id, seq<Event>>,
    bundles: map<nat, Bundle>,
    activations: seq<Activation>,
    reports: map<Id, string>,
    audit: seq<Entry>)

  datatype Refusal =
    | NeedsRole | NeedsHuman
    | UnknownCandidate | NotAllowed | NotAwaiting | OwnSubmission | NoPayload
    | NotSeeded | UnknownBundle | ImmutableArtifact

  datatype Reply = Reply(record: Record, refusal: Option<Refusal>)

  function Done(g: Record): Reply { Reply(g, None) }
  function Refused(g: Record, why: Refusal): Reply { Reply(g, Some(why)) }

  function Empty(): Record { Record(map[], map[], map[], [], map[], []) }

  // ---------------------------------------------------------------- the operations

  function EventsOf(g: Record, c: Id): seq<Event> { if c in g.events then g.events[c] else [] }

  /** The event and its audit entry. */
  function Append(g: Record, c: Id, state: State, actor: Id): Record {
    g.(events := g.events[c := EventsOf(g, c) + [Event(state, actor)]], audit := g.audit + [Entry(actor, Moved(c, state))])
  }

  /** `_event`. */
  function Move(g: Record, c: Id, state: State, actor: Id): Reply {
    var es := EventsOf(g, c);
    if es == [] then Refused(g, UnknownCandidate)
    else if state !in Allowed(es[|es| - 1].state) then Refused(g, NotAllowed)
    else Done(Append(g, c, state, actor))
  }

  function OnCreate(g: Record, c: Id, candidate: Candidate): Reply {
    if c in g.candidates then Done(g)
    else Done(Append(g.(candidates := g.candidates[c := candidate]), c, Draft, candidate.proposedBy))
  }

  /** The evidence the platform records: a replay, an attack and a shadow run. */
  datatype Finding = ReplayRun | Attack(passed: bool) | Shadow(passed: bool)

  function StateOf(f: Finding): State {
    match f
    case ReplayRun => Replayed
    case Attack(passed) => if passed then CounterexamplesPassed else CounterexamplesFailed
    case Shadow(passed) => if passed then ShadowPassed else ShadowFailed
  }

  /** `record_step`: the report is stored before the state is checked. */
  function OnFinding(g: Record, c: Id, f: Finding, actor: Id, report: Id, content: string): Reply {
    if report in g.reports && g.reports[report] != content then Refused(g, ImmutableArtifact)
    else Move(g.(reports := g.reports[report := content]), c, StateOf(f), actor)
  }

  function OnSubmit(g: Record, c: Id, p: Principal): Reply {
    if !Has(p, Investigator) && !Has(p, Approver) then Refused(g, NeedsRole)
    else if !Human(p) then Refused(g, NeedsHuman)
    else Move(g, c, AwaitingApproval, p.user)
  }

  function OnReject(g: Record, c: Id, p: Principal): Reply {
    if !Has(p, Approver) then Refused(g, NeedsRole)
    else if !Human(p) then Refused(g, NeedsHuman)
    else Move(g, c, Rejected, p.user)
  }

  function Activate(g: Record, bundle: nat, actor: Id): Record {
    g.(activations := g.activations + [Activation(bundle, actor)], audit := g.audit + [Entry(actor, Activated(bundle))])
  }

  function Active(g: Record): Option<nat> {
    if g.activations == [] then None else Some(g.activations[|g.activations| - 1].bundle)
  }

  function OnSeed(g: Record, rules: seq<Rule>, scopes: seq<Id>, at: nat): Reply {
    if g.activations != [] then Done(g)
    else
      var b := Bundle(1, None, rules, scopes, at, "seed", None);
      if 1 in g.bundles && g.bundles[1] != b then Refused(g, ImmutableArtifact)
      else Done(Activate(g.(bundles := g.bundles[1 := b]), 1, "seed"))
  }

  function OnRollback(g: Record, bundle: nat, p: Principal): Reply {
    if !Has(p, Approver) then Refused(g, NeedsRole)
    else if !Human(p) then Refused(g, NeedsHuman)
    else if bundle !in g.bundles then Refused(g, UnknownBundle)
    else
      var a := Activate(g, bundle, p.user);
      Done(a.(audit := a.audit + [Entry(p.user, RolledBack(bundle))]))
  }

  /** Who submitted last. */
  function Submitter(es: seq<Event>): Option<Id> {
    if es == [] then None
    else if es[|es| - 1].state == AwaitingApproval then Some(es[|es| - 1].actor)
    else Submitter(es[..|es| - 1])
  }

  function NotNamed(id: Id): Rule -> bool { (r: Rule) => r.ruleId != id }
  function NotScope(scope: Id): Id -> bool { (s: Id) => s != scope }

  function Extended(parent: Bundle, payload: Payload, at: nat, author: Id, source: Id): Bundle
    requires payload != Nothing
  {
    Bundle(
      parent.version + 1,
      Some(parent.version),
      if payload.NewRule? then Filter(parent.rules, NotNamed(payload.rule.ruleId)) + [payload.rule] else parent.rules,
      if payload.NewScope? then Filter(parent.scopes, NotScope(payload.scope)) + [payload.scope] else parent.scopes,
      at, author, Some(source))
  }

  function OnApprove(g: Record, fourEyes: bool, c: Id, p: Principal, at: nat): Reply {
    var es := EventsOf(g, c);
    if !Has(p, Approver) then Refused(g, NeedsRole)
    else if !Human(p) then Refused(g, NeedsHuman)
    else if es == [] then Refused(g, UnknownCandidate)
    else if es[|es| - 1].state != AwaitingApproval then Refused(g, NotAwaiting)
    else if fourEyes && Submitter(es) == Some(p.user) then Refused(g, OwnSubmission)
    else if c !in g.candidates then Refused(g, UnknownCandidate)
    else if Active(g).None? then Refused(g, NotSeeded)
    else if Active(g).value !in g.bundles then Refused(g, UnknownBundle)
    else if g.candidates[c].payload == Nothing then Refused(g, NoPayload)
    else
      var b := Extended(g.bundles[Active(g).value], g.candidates[c].payload, at, p.user, c);
      if b.version in g.bundles && g.bundles[b.version] != b then Refused(g, ImmutableArtifact)
      else
        Done(Activate(Append(g.(bundles := g.bundles[b.version := b]), c, Released, p.user), b.version, p.user))
  }

  datatype Op =
    | Seed(rules: seq<Rule>, scopes: seq<Id>, at: nat)
    | Create(c: Id, candidate: Candidate)
    | RecordFinding(c: Id, finding: Finding, actor: Id, report: Id, content: string)
    | Submit(c: Id, p: Principal)
    | Reject(c: Id, p: Principal)
    | Approve(c: Id, p: Principal, at: nat)
    | Rollback(bundle: nat, p: Principal)

  function Step(fourEyes: bool, g: Record, op: Op): Reply {
    match op
    case Seed(rules, scopes, at) => OnSeed(g, rules, scopes, at)
    case Create(c, candidate) => OnCreate(g, c, candidate)
    case RecordFinding(c, f, actor, report, content) => OnFinding(g, c, f, actor, report, content)
    case Submit(c, p) => OnSubmit(g, c, p)
    case Reject(c, p) => OnReject(g, c, p)
    case Approve(c, p, at) => OnApprove(g, fourEyes, c, p, at)
    case Rollback(bundle, p) => OnRollback(g, bundle, p)
  }

  function Run(fourEyes: bool, g: Record, ops: seq<Op>): Record
    decreases |ops|
  {
    if ops == [] then g else Run(fourEyes, Step(fourEyes, g, ops[0]).record, ops[1..])
  }

  // ---------------------------------------------------------------- candidate logs

  ghost predicate Path(es: seq<Event>) {
    && es != [] && es[0].state == Draft
    && forall i {:trigger es[i]} :: 0 < i < |es| ==> es[i].state in Allowed(es[i - 1].state)
  }

  /** The states of a log that ends in `s`, when `s` is on the way to release. */
  function WayTo(s: State): seq<State> {
    match s
    case Draft => [Draft]
    case Replayed => [Draft, Replayed]
    case CounterexamplesPassed => [Draft, Replayed, CounterexamplesPassed]
    case ShadowPassed => [Draft, Replayed, CounterexamplesPassed, ShadowPassed]
    case AwaitingApproval => [Draft, Replayed, CounterexamplesPassed, ShadowPassed, AwaitingApproval]
    case Released => [Draft, Replayed, CounterexamplesPassed, ShadowPassed, AwaitingApproval, Released]
    case _ => []
  }

  function States(es: seq<Event>): seq<State> { seq(|es|, i requires 0 <= i < |es| => es[i].state) }

  lemma OneStepFurther(s: State, t: State)
    requires t in Allowed(s) && WayTo(t) != []
    ensures WayTo(s) != [] && WayTo(t) == WayTo(s) + [t]
  {
  }

  lemma PathsHavePaths(es: seq<Event>)
    requires Path(es) && |es| > 1
    ensures Path(es[..|es| - 1])
  {
  }

  /** A log that stands on the way to release came the whole way and no other. */
  lemma {:induction false} OneWayToRelease(es: seq<Event>)
    requires Path(es) && WayTo(es[|es| - 1].state) != []
    ensures States(es) == WayTo(es[|es| - 1].state)
  {
    if |es| == 1 {
      assert States(es) == [Draft];
    } else {
      var init := es[..|es| - 1];
      assert es[|es| - 1].state in Allowed(es[|es| - 2].state);
      OneStepFurther(es[|es| - 2].state, es[|es| - 1].state);
      PathsHavePaths(es);
      OneWayToRelease(init);
      assert States(es) == States(init) + [es[|es| - 1].state];
    }
  }

  /** Released by someone else than whoever submitted. */
  ghost predicate FourEyes(es: seq<Event>) {
    es != [] && es[|es| - 1].state == Released ==> |es| == 6 && es[4].actor != es[5].actor
  }

  ghost predicate LogOk(fourEyes: bool, g: Record, c: Id) {
    && c in g.candidates && c in g.events
    && Path(g.events[c])
    && (fourEyes ==> FourEyes(g.events[c]))
  }

  // ---------------------------------------------------------------- bundles

  /** Bundle `v` extends bundle `v - 1` by exactly the payload of its source, which is released. */
  ghost predicate BundleOk(g: Record, v: nat) {
    && v in g.bundles && v > 0 && g.bundles[v].version == v
    && var b := g.bundles[v];
       if v == 1 then b.parent.None? && b.source.None?
       else
         && v - 1 in g.bundles && b.source.Some? && b.source.value in g.candidates && b.source.value in g.events
         && IsReleased(g.events[b.source.value])
         && g.candidates[b.source.value].payload != Nothing
         && b == Extended(g.bundles[v - 1], g.candidates[b.source.value].payload, b.createdAt, b.createdBy, b.source.value)
  }

  ghost predicate IsReleased(es: seq<Event>) { es != [] && es[|es| - 1].state == Released }

  /** The one bundle a released candidate is the source of. */
  ghost predicate ReleasedAs(g: Record, c: Id) {
    c in g.events && IsReleased(g.events[c]) ==> exists v :: v in g.bundles && g.bundles[v].source == Some(c)
  }

  ghost predicate Numbered(bundles: map<nat, Bundle>) { forall v :: v in bundles <==> 1 <= v <= |bundles| }

  ghost predicate ActivationsOk(g: Record) {
    && (forall i :: 0 <= i < |g.activations| ==> g.activations[i].bundle in g.bundles)
    && (g.activations == [] <==> g.bundles == map[])
  }

  ghost predicate AllBundlesOk(g: Record) { forall v {:trigger BundleOk(g, v)} :: v in g.bundles ==> BundleOk(g, v) }

  ghost predicate AllReleased(g: Record) { forall c {:trigger ReleasedAs(g, c)} :: ReleasedAs(g, c) }

  ghost predicate BundlesOk(g: Record) {
    && Numbered(g.bundles) && ActivationsOk(g) && AllBundlesOk(g) && AllReleased(g)
  }

  ghost predicate LogsOk(fourEyes: bool, g: Record) {
    g.events.Keys == g.candidates.Keys && forall c {:trigger LogOk(fourEyes, g, c)} :: c in g.events ==> LogOk(fourEyes, g, c)
  }

  // ---------------------------------------------------------------- the audit trail

  function MovesOf(c: Id): Entry -> bool { (e: Entry) => e.fact.Moved? && e.fact.candidate == c }

  function AsEvents(es: seq<Entry>): seq<Event> {
    seq(|es|, i requires 0 <= i < |es| => if es[i].fact.Moved? then Event(es[i].fact.state, es[i].actor) else Event(Draft, es[i].actor))
  }

  /** The audit entries about a candidate are its log. */
  ghost predicate Mirrored(g: Record, c: Id) { AsEvents(Filter(g.audit, MovesOf(c))) == EventsOf(g, c) }

  ghost predicate AuditOk(g: Record) { forall c {:trigger Mirrored(g, c)} :: Mirrored(g, c) }

  ghost predicate Lawful(fourEyes: bool, g: Record) { LogsOk(fourEyes, g) && BundlesOk(g) && AuditOk(g) }

  // ---------------------------------------------------------------- every step keeps the logs

  lemma AppendKeepsPath(es: seq<Event>, e: Event)
    requires Path(es) && e.state in Allowed(es[|es| - 1].state)
    ensures Path(es + [e])
  {
  }

  lemma SubmitterOfAwaiting(es: seq<Event>)
    requires es != [] && es[|es| - 1].state == AwaitingApproval
    ensures Submitter(es) == Some(es[|es| - 1].actor)
  {
  }

  lemma AwaitingIsFifth(es: seq<Event>)
    requires Path(es) && es[|es| - 1].state == AwaitingApproval
    ensures |es| == 5
  {
    OneWayToRelease(es);
    assert |States(es)| == |es|;
  }

  /** A move that is not a release, or a release by someone else, keeps every log lawful. */
  lemma MovingKeepsLogs(fourEyes: bool, g: Record, c: Id, state: State, actor: Id)
    requires LogsOk(fourEyes, g) && c in g.events && g.events[c] != []
    requires state in Allowed(g.events[c][|g.events[c]| - 1].state)
    requires fourEyes && state == Released ==> g.events[c][|g.events[c]| - 1].actor != actor
    ensures LogsOk(fourEyes, Append(g, c, state, actor))
  {
    assert LogOk(fourEyes, g, c);
    var n, es := Append(g, c, state, actor), g.events[c];
    AppendKeepsPath(es, Event(state, actor));
    if state == Released { AwaitingIsFifth(es); }
    forall k | k in n.events ensures LogOk(fourEyes, n, k) {
      if k != c { assert LogOk(fourEyes, g, k); }
    }
  }

  lemma MirrorAppendedAt(g: Record, c: Id, state: State, actor: Id, k: Id)
    requires Mirrored(g, k)
    ensures Mirrored(Append(g, c, state, actor), k)
  {
    var e := Entry(actor, Moved(c, state));
    AuditGrows(g.audit, e, k);
    AsEventsGrows(Filter(g.audit, MovesOf(k)), e);
  }

  lemma AsEventsGrows(es: seq<Entry>, e: Entry)
    requires e.fact.Moved?
    ensures AsEvents(es + [e]) == AsEvents(es) + [Event(e.fact.state, e.actor)]
    ensures AsEvents(es + []) == AsEvents(es)
  {
    assert es + [] == es;
  }

  lemma MirrorAppended(g: Record, c: Id, state: State, actor: Id)
    requires AuditOk(g)
    ensures AuditOk(Append(g, c, state, actor))
  {
    forall k ensures Mirrored(Append(g, c, state, actor), k) {
      assert Mirrored(g, k);
      MirrorAppendedAt(g, c, state, actor, k);
    }
  }

  lemma AuditGrows(audit: seq<Entry>, e: Entry, c: Id)
    ensures Filter(audit + [e], MovesOf(c)) == Filter(audit, MovesOf(c)) + (if MovesOf(c)(e) then [e] else [])
  {
    FilterConcat(audit, [e], MovesOf(c));
    FilterStep(e, [], MovesOf(c));
    assert [e] + [] == [e];
  }

  /** An audit entry about a bundle leaves every candidate's trail alone. */
  lemma MirrorKept(g: Record, n: Record, e: Entry)
    requires AuditOk(g) && n.events == g.events && n.audit == g.audit + [e] && !e.fact.Moved?
    ensures AuditOk(n)
  {
    forall c ensures Mirrored(n, c) {
      assert Mirrored(g, c);
      AuditGrows(g.audit, e, c);
    }
  }

  // ---------------------------------------------------------------- every step keeps the bundles

  /** A move that does not release keeps every bundle lawful: released logs never move again. */
  lemma MovingKeepsBundles(fourEyes: bool, g: Record, c: Id, state: State, actor: Id)
    requires LogsOk(fourEyes, g) && BundlesOk(g) && c in g.events && g.events[c] != []
    requires state in Allowed(g.events[c][|g.events[c]| - 1].state) && state != Released
    ensures BundlesOk(Append(g, c, state, actor))
  {
    var n := Append(g, c, state, actor);
    assert !IsReleased(g.events[c]) && !IsReleased(n.events[c]);
    forall v | v in n.bundles ensures BundleOk(n, v) { assert BundleOk(g, v); }
    forall k ensures ReleasedAs(n, k) { assert ReleasedAs(g, k); }
  }

  lemma CreatingKeepsLaw(fourEyes: bool, g: Record, c: Id, candidate: Candidate)
    requires Lawful(fourEyes, g)
    ensures Lawful(fourEyes, OnCreate(g, c, candidate).record)
  {
    if c !in g.candidates {
      var mid := g.(candidates := g.candidates[c := candidate]);
      var n := Append(mid, c, Draft, candidate.proposedBy);
      forall k ensures Mirrored(mid, k) { assert Mirrored(g, k); }
      MirrorAppended(mid, c, Draft, candidate.proposedBy);
      forall k | k in n.events ensures LogOk(fourEyes, n, k) {
        if k != c { assert LogOk(fourEyes, g, k); }
      }
      forall v | v in n.bundles ensures BundleOk(n, v) { assert BundleOk(g, v); }
      forall k ensures ReleasedAs(n, k) { assert ReleasedAs(g, k); }
    }
  }

  lemma MoveKeepsLaw(fourEyes: bool, g: Record, c: Id, state: State, actor: Id)
    requires Lawful(fourEyes, g) && state != Released
    ensures Lawful(fourEyes, Move(g, c, state, actor).record)
  {
    if Move(g, c, state, actor).refusal.None? {
      MovingKeepsLogs(fourEyes, g, c, state, actor);
      MovingKeepsBundles(fourEyes, g, c, state, actor);
      MirrorAppended(g, c, state, actor);
    }
  }

  /** Reports are nobody's candidate, bundle or activation. */
  lemma ReportsKeepLaw(fourEyes: bool, g: Record, n: Record)
    requires Lawful(fourEyes, g) && n == g.(reports := n.reports)
    ensures Lawful(fourEyes, n)
  {
    forall c | c in n.events ensures LogOk(fourEyes, n, c) { assert LogOk(fourEyes, g, c); }
    forall v | v in n.bundles ensures BundleOk(n, v) { assert BundleOk(g, v); }
    forall c ensures ReleasedAs(n, c) && Mirrored(n, c) { assert ReleasedAs(g, c) && Mirrored(g, c); }
  }

  lemma ActivatingKeepsLaw(fourEyes: bool, g: Record, bundle: nat, actor: Id)
    requires Lawful(fourEyes, g) && bundle in g.bundles
    ensures Lawful(fourEyes, Activate(g, bundle, actor))
  {
    var n := Activate(g, bundle, actor);
    forall c | c in n.events ensures LogOk(fourEyes, n, c) { assert LogOk(fourEyes, g, c); }
    forall v | v in n.bundles ensures BundleOk(n, v) { assert BundleOk(g, v); }
    forall c ensures ReleasedAs(n, c) { assert ReleasedAs(g, c); }
    MirrorKept(g, n, Entry(actor, Activated(bundle)));
  }

  lemma RollingBackKeepsLaw(fourEyes: bool, g: Record, bundle: nat, p: Principal)
    requires Lawful(fourEyes, g)
    ensures Lawful(fourEyes, OnRollback(g, bundle, p).record)
  {
    if OnRollback(g, bundle, p).refusal.None? {
      var a := Activate(g, bundle, p.user);
      var n := a.(audit := a.audit + [Entry(p.user, RolledBack(bundle))]);
      ActivatingKeepsLaw(fourEyes, g, bundle, p.user);
      forall c | c in n.events ensures LogOk(fourEyes, n, c) { assert LogOk(fourEyes, a, c); }
      forall v | v in n.bundles ensures BundleOk(n, v) { assert BundleOk(a, v); }
      forall c ensures ReleasedAs(n, c) { assert ReleasedAs(a, c); }
      MirrorKept(a, n, Entry(p.user, RolledBack(bundle)));
    }
  }

  lemma SeedingKeepsLaw(fourEyes: bool, g: Record, rules: seq<Rule>, scopes: seq<Id>, at: nat)
    requires Lawful(fourEyes, g)
    ensures Lawful(fourEyes, OnSeed(g, rules, scopes, at).record)
  {
    if g.activations == [] {
      var b := Bundle(1, None, rules, scopes, at, "seed", None);
      var mid := g.(bundles := g.bundles[1 := b]);
      var n := Activate(mid, 1, "seed");
      assert g.bundles == map[] && n.bundles == map[1 := b];
      assert n.bundles.Keys == {1};
      forall c | c in n.events ensures LogOk(fourEyes, n, c) { assert LogOk(fourEyes, g, c); }
      assert BundleOk(n, 1);
      forall c ensures ReleasedAs(n, c) && Mirrored(mid, c) { assert ReleasedAs(g, c) && Mirrored(g, c); }
      MirrorKept(mid, n, Entry("seed", Activated(1)));
    }
  }

  // ---------------------------------------------------------------- approval

  /** The newest bundle. */
  function Newest(g: Record): nat { |g.bundles| }

  /** What a caller can check before approving. */
  ghost predicate Approvable(fourEyes: bool, g: Record, c: Id, p: Principal) {
    && Has(p, Approver) && Human(p)
    && c in g.events && g.events[c] != []
    && g.events[c][|g.events[c]| - 1].state == AwaitingApproval
    && (fourEyes ==> g.events[c][|g.events[c]| - 1].actor != p.user)
    && c in g.candidates && g.candidates[c].payload != Nothing
    && Active(g) == Some(Newest(g))
  }

  /** The bundle an approval would write exists already exactly when the active one is not the
      newest, and then it came from another candidate. */
  lemma TakenUnlessNewest(fourEyes: bool, g: Record, c: Id, b: Bundle)
    requires Lawful(fourEyes, g) && Active(g).Some? && c in g.events && !IsReleased(g.events[c])
    requires Active(g).value in g.bundles && b.version == g.bundles[Active(g).value].version + 1 && b.source == Some(c)
    ensures b.version in g.bundles <==> Active(g) != Some(Newest(g))
    ensures b.version in g.bundles ==> g.bundles[b.version] != b
  {
    var v := Active(g).value;
    assert BundleOk(g, v);
    assert 1 <= v <= |g.bundles|;
    if v + 1 in g.bundles { assert BundleOk(g, v + 1); }
  }

  lemma ActiveExists(fourEyes: bool, g: Record)
    requires Lawful(fourEyes, g) && Active(g).Some?
    ensures Active(g).value in g.bundles
  {
  }

  /** Of an awaiting candidate, with an approver who is not its submitter. */
  lemma AwaitedApproval(fourEyes: bool, g: Record, c: Id, p: Principal, at: nat)
    requires Lawful(fourEyes, g) && c in g.events && g.events[c] != [] && Has(p, Approver) && Human(p)
    requires g.events[c][|g.events[c]| - 1].state == AwaitingApproval
    requires fourEyes ==> g.events[c][|g.events[c]| - 1].actor != p.user
    ensures OnApprove(g, fourEyes, c, p, at).refusal.None? <==>
            c in g.candidates && g.candidates[c].payload != Nothing && Active(g) == Some(Newest(g))
  {
    SubmitterOfAwaiting(g.events[c]);
    if Active(g).Some? {
      ActiveExists(fourEyes, g);
      if c in g.candidates && g.candidates[c].payload != Nothing {
        TakenUnlessNewest(fourEyes, g, c, Extended(g.bundles[Active(g).value], g.candidates[c].payload, at, p.user, c));
      }
    }
  }

  /** An approval goes through exactly when the approver may approve, the candidate awaits it
      and the active bundle is the newest one; otherwise it changes nothing. After a rollback
      no approval succeeds until the newest bundle is active again. */
  lemma ApprovalSucceedsIff(fourEyes: bool, g: Record, c: Id, p: Principal, at: nat)
    requires Lawful(fourEyes, g)
    ensures OnApprove(g, fourEyes, c, p, at).refusal.None? <==> Approvable(fourEyes, g, c, p)
    ensures OnApprove(g, fourEyes, c, p, at).refusal.Some? ==> OnApprove(g, fourEyes, c, p, at).record == g
  {
    var es := EventsOf(g, c);
    if es != [] && es[|es| - 1].state == AwaitingApproval && Has(p, Approver) && Human(p) {
      SubmitterOfAwaiting(es);
      if fourEyes ==> es[|es| - 1].actor != p.user { AwaitedApproval(fourEyes, g, c, p, at); }
    }
    RefusedApprovalsKeep(fourEyes, g, c, p, at);
  }

  lemma RefusedApprovalsKeep(fourEyes: bool, g: Record, c: Id, p: Principal, at: nat)
    ensures OnApprove(g, fourEyes, c, p, at).refusal.Some? ==> OnApprove(g, fourEyes, c, p, at).record == g
  {
  }

  /** The record after a successful approval. */
  function ApprovedBy(g: Record, c: Id, actor: Id, at: nat): Record
    requires Newest(g) in g.bundles && c in g.candidates && g.candidates[c].payload != Nothing
  {
    var b := Extended(g.bundles[Newest(g)], g.candidates[c].payload, at, actor, c);
    Activate(Append(g.(bundles := g.bundles[b.version := b]), c, Released, actor), b.version, actor)
  }

  lemma ApprovalMeaning(fourEyes: bool, g: Record, c: Id, p: Principal, at: nat)
    requires Lawful(fourEyes, g) && Approvable(fourEyes, g, c, p)
    ensures Newest(g) in g.bundles && g.bundles[Newest(g)].version == Newest(g) && Newest(g) + 1 !in g.bundles
    ensures OnApprove(g, fourEyes, c, p, at).record == ApprovedBy(g, c, p.user, at)
  {
    ActiveExists(fourEyes, g);
    assert BundleOk(g, Newest(g));
    ApprovalSucceedsIff(fourEyes, g, c, p, at);
  }

  ghost predicate CanRelease(g: Record, c: Id) {
    && Newest(g) in g.bundles && g.bundles[Newest(g)].version == Newest(g) && Newest(g) + 1 !in g.bundles
    && c in g.candidates && g.candidates[c].payload != Nothing && c in g.events
  }

  lemma OldBundleOk(g: Record, c: Id, actor: Id, at: nat, u: nat)
    requires CanRelease(g, c) && BundleOk(g, u)
    ensures BundleOk(ApprovedBy(g, c, actor, at), u)
  {
  }

  lemma NewBundleOk(g: Record, c: Id, actor: Id, at: nat)
    requires CanRelease(g, c) && BundleOk(g, Newest(g))
    ensures BundleOk(ApprovedBy(g, c, actor, at), Newest(g) + 1)
  {
    var n := ApprovedBy(g, c, actor, at);
    assert IsReleased(n.events[c]);
  }

  lemma OneMoreNumber(bundles: map<nat, Bundle>, b: Bundle)
    requires Numbered(bundles) && |bundles| + 1 !in bundles
    ensures Numbered(bundles[|bundles| + 1 := b])
  {
    OneMoreKey(bundles, |bundles| + 1, b);
  }

  lemma OneMoreKey(bundles: map<nat, Bundle>, v: nat, b: Bundle)
    requires v !in bundles
    ensures |bundles[v := b]| == |bundles| + 1
  {
    assert bundles[v := b].Keys == bundles.Keys + {v};
    assert |bundles[v := b]| == |bundles[v := b].Keys| && |bundles| == |bundles.Keys|;
  }

  lemma ReleasedAsKept(g: Record, c: Id, actor: Id, at: nat, k: Id)
    requires CanRelease(g, c) && ReleasedAs(g, k)
    ensures ReleasedAs(ApprovedBy(g, c, actor, at), k)
  {
    var n := ApprovedBy(g, c, actor, at);
    if k == c {
      assert n.bundles[Newest(g) + 1].source == Some(c);
    } else if k in g.events && IsReleased(g.events[k]) {
      var v :| v in g.bundles && g.bundles[v].source == Some(k);
      assert v in n.bundles && n.bundles[v].source == Some(k);
    }
  }

  lemma ActivationsKept(g: Record, c: Id, actor: Id, at: nat)
    requires CanRelease(g, c) && ActivationsOk(g)
    ensures ActivationsOk(ApprovedBy(g, c, actor, at))
  {
    var n := ApprovedBy(g, c, actor, at);
    assert Newest(g) + 1 in n.bundles;
    forall i | 0 <= i < |n.activations| ensures n.activations[i].bundle in n.bundles {
      if i < |g.activations| { assert n.activations[i] == g.activations[i]; }
    }
  }

  lemma AllBundlesKept(g: Record, c: Id, actor: Id, at: nat)
    requires AllBundlesOk(g) && CanRelease(g, c)
    ensures AllBundlesOk(ApprovedBy(g, c, actor, at))
  {
    assert BundleOk(g, Newest(g));
    NewBundleOk(g, c, actor, at);
    forall u | u in g.bundles ensures BundleOk(ApprovedBy(g, c, actor, at), u) {
      assert BundleOk(g, u);
      OldBundleOk(g, c, actor, at, u);
    }
  }

  lemma AllReleasedKept(g: Record, c: Id, actor: Id, at: nat)
    requires AllReleased(g) && CanRelease(g, c)
    ensures AllReleased(ApprovedBy(g, c, actor, at))
  {
    forall k ensures ReleasedAs(ApprovedBy(g, c, actor, at), k) {
      assert ReleasedAs(g, k);
      ReleasedAsKept(g, c, actor, at, k);
    }
  }

  lemma NewBundleKeepsBundles(g: Record, c: Id, actor: Id, at: nat)
    requires BundlesOk(g) && CanRelease(g, c)
    ensures BundlesOk(ApprovedBy(g, c, actor, at))
  {
    AllBundlesKept(g, c, actor, at);
    AllReleasedKept(g, c, actor, at);
    ActivationsKept(g, c, actor, at);
    OneMoreNumber(g.bundles, ApprovedBy(g, c, actor, at).bundles[Newest(g) + 1]);
  }

  lemma ApprovingKeepsLaw(fourEyes: bool, g: Record, c: Id, p: Principal, at: nat)
    requires Lawful(fourEyes, g)
    ensures Lawful(fourEyes, OnApprove(g, fourEyes, c, p, at).record)
  {
    ApprovalSucceedsIff(fourEyes, g, c, p, at);
    if Approvable(fourEyes, g, c, p) {
      ApprovalMeaning(fourEyes, g, c, p, at);
      var n := ApprovedBy(g, c, p.user, at);
      NewBundleKeepsBundles(g, c, p.user, at);
      ReleaseKeepsLogs(fourEyes, g, n, c, p.user, at);
    }
  }

  lemma ReleaseKeepsLogs(fourEyes: bool, g: Record, n: Record, c: Id, actor: Id, at: nat)
    requires LogsOk(fourEyes, g) && AuditOk(g) && c in g.events && g.events[c] != []
    requires var last := g.events[c][|g.events[c]| - 1]; last.state == AwaitingApproval && (fourEyes ==> last.actor != actor)
    requires Newest(g) in g.bundles && c in g.candidates && g.candidates[c].payload != Nothing && n == ApprovedBy(g, c, actor, at)
    ensures LogsOk(fourEyes, n) && AuditOk(n)
  {
    var released := Append(g, c, Released, actor);
    MovingKeepsLogs(fourEyes, g, c, Released, actor);
    MirrorAppended(g, c, Released, actor);
    forall k | k in n.events ensures LogOk(fourEyes, n, k) { assert LogOk(fourEyes, released, k); }
    MirrorKept(released, n, n.audit[|n.audit| - 1]);
  }

  // ---------------------------------------------------------------- whole runs

  lemma StepKeepsLaw(fourEyes: bool, g: Record, op: Op)
    requires Lawful(fourEyes, g)
    ensures Lawful(fourEyes, Step(fourEyes, g, op).record)
  {
    match op
    case Seed(rules, scopes, at) => SeedingKeepsLaw(fourEyes, g, rules, scopes, at);
    case Create(c, candidate) => CreatingKeepsLaw(fourEyes, g, c, candidate);
    case RecordFinding(c, f, actor, report, content) =>
      var n := g.(reports := g.reports[report := content]);
      ReportsKeepLaw(fourEyes, g, n);
      MoveKeepsLaw(fourEyes, n, c, StateOf(f), actor);
    case Submit(c, p) => MoveKeepsLaw(fourEyes, g, c, AwaitingApproval, p.user);
    case Reject(c, p) => MoveKeepsLaw(fourEyes, g, c, Rejected, p.user);
    case Approve(c, p, at) => ApprovingKeepsLaw(fourEyes, g, c, p, at);
    case Rollback(bundle, p) => RollingBackKeepsLaw(fourEyes, g, bundle, p);
  }

  lemma EmptyIsLawful(fourEyes: bool)
    ensures Lawful(fourEyes, Empty())
  {
    forall c ensures Mirrored(Empty(), c) && ReleasedAs(Empty(), c) {}
  }

  /** Every sequence of calls, by anyone, keeps the law. */
  lemma {:induction false} RunsAreLawful(fourEyes: bool, g: Record, ops: seq<Op>)
    requires Lawful(fourEyes, g)
    ensures Lawful(fourEyes, Run(fourEyes, g, ops))
    decreases |ops|
  {
    if ops != [] {
      StepKeepsLaw(fourEyes, g, ops[0]);
      RunsAreLawful(fourEyes, Step(fourEyes, g, ops[0]).record, ops[1..]);
    }
  }

  /** What is stored once is there for good, unchanged. */
  ghost predicate Extends(g: Record, n: Record) {
    && (forall v :: v in g.bundles ==> v in n.bundles && n.bundles[v] == g.bundles[v])
    && (forall c :: c in g.candidates ==> c in n.candidates && n.candidates[c] == g.candidates[c])
    && (forall c :: c in g.events ==> c in n.events && g.events[c] <= n.events[c])
    && (forall r :: r in g.reports ==> r in n.reports && n.reports[r] == g.reports[r])
    && g.activations <= n.activations && g.audit <= n.audit
  }

  lemma AppendExtends(g: Record, c: Id, state: State, actor: Id)
    ensures Extends(g, Append(g, c, state, actor))
  {
  }

  lemma ExtendsTransitively(g: Record, m: Record, n: Record)
    requires Extends(g, m) && Extends(m, n)
    ensures Extends(g, n)
  {
  }

  lemma MoveExtends(g: Record, c: Id, state: State, actor: Id)
    ensures Extends(g, Move(g, c, state, actor).record)
  {
    AppendExtends(g, c, state, actor);
  }

  lemma FindingExtends(g: Record, c: Id, f: Finding, actor: Id, report: Id, content: string)
    ensures Extends(g, OnFinding(g, c, f, actor, report, content).record)
  {
    MoveExtends(g.(reports := g.reports[report := content]), c, StateOf(f), actor);
  }

  lemma SeedExtends(g: Record, rules: seq<Rule>, scopes: seq<Id>, at: nat)
    ensures Extends(g, OnSeed(g, rules, scopes, at).record)
  {
  }

  lemma CreateExtends(g: Record, c: Id, candidate: Candidate)
    ensures Extends(g, OnCreate(g, c, candidate).record)
  {
    if c !in g.candidates { AppendExtends(g.(candidates := g.candidates[c := candidate]), c, Draft, candidate.proposedBy); }
  }

  lemma RollbackExtends(g: Record, bundle: nat, p: Principal)
    ensures Extends(g, OnRollback(g, bundle, p).record)
  {
  }

  lemma StepExtends(fourEyes: bool, g: Record, op: Op)
    ensures Extends(g, Step(fourEyes, g, op).record)
  {
    match op
    case Seed(rules, scopes, at) => SeedExtends(g, rules, scopes, at);
    case Create(c, candidate) => CreateExtends(g, c, candidate);
    case RecordFinding(c, f, actor, report, content) => FindingExtends(g, c, f, actor, report, content);
    case Submit(c, p) => MoveExtends(g, c, AwaitingApproval, p.user);
    case Reject(c, p) => MoveExtends(g, c, Rejected, p.user);
    case Approve(c, p, at) => ApprovalExtends(g, fourEyes, c, p, at);
    case Rollback(bundle, p) => RollbackExtends(g, bundle, p);
  }

  lemma ApprovalExtends(g: Record, fourEyes: bool, c: Id, p: Principal, at: nat)
    ensures Extends(g, OnApprove(g, fourEyes, c, p, at).record)
  {
    if OnApprove(g, fourEyes, c, p, at).refusal.None? {
      var b := Extended(g.bundles[Active(g).value], g.candidates[c].payload, at, p.user, c);
      AppendExtends(g.(bundles := g.bundles[b.version := b]), c, Released, p.user);
    }
  }

  lemma {:induction false} RunsOnlyAppend(fourEyes: bool, g: Record, ops: seq<Op>)
    ensures Extends(g, Run(fourEyes, g, ops))
    decreases |ops|
  {
    if ops != [] {
      StepExtends(fourEyes, g, ops[0]);
      RunsOnlyAppend(fourEyes, Step(fourEyes, g, ops[0]).record, ops[1..]);
      ExtendsTransitively(g, Step(fourEyes, g, ops[0]).record, Run(fourEyes, g, ops));
    }
  }

  /** A refused call changes no candidate, log, bundle, activation or audit entry. */
  lemma RefusalsChangeNothing(fourEyes: bool, g: Record, op: Op)
    requires Step(fourEyes, g, op).refusal.Some?
    ensures var n := Step(fourEyes, g, op).record; n == g.(reports := n.reports) && (!op.RecordFinding? ==> n == g)
  {
  }

  /** Nobody but a human with the role submits, rejects, approves or rolls back. */
  lemma OthersAreRefused(fourEyes: bool, g: Record, op: Op)
    requires op.Submit? || op.Reject? || op.Approve? || op.Rollback?
    requires !Human(op.p) || (!Has(op.p, Approver) && (op.Submit? ==> !Has(op.p, Investigator)))
    ensures Step(fourEyes, g, op).refusal.Some? && Step(fourEyes, g, op).record == g
  {
  }

  /** Main result. In every reachable record a released candidate took the six steps in order,
      was approved by someone other than its submitter when four eyes are required, and is the
      source of a bundle that adds exactly its payload to the bundle one version below. */
  lemma ReleasesAreGoverned(fourEyes: bool, ops: seq<Op>, c: Id)
    requires var g := Run(fourEyes, Empty(), ops); c in g.events && IsReleased(g.events[c])
    ensures var es := Run(fourEyes, Empty(), ops).events[c];
            && States(es) == [Draft, Replayed, CounterexamplesPassed, ShadowPassed, AwaitingApproval, Released]
            && (fourEyes ==> es[4].actor != es[5].actor)
    ensures var g := Run(fourEyes, Empty(), ops);
            exists v :: v in g.bundles && g.bundles[v].source == Some(c) && BundleOk(g, v)
  {
    var g := Run(fourEyes, Empty(), ops);
    EmptyIsLawful(fourEyes);
    RunsAreLawful(fourEyes, Empty(), ops);
    assert LogOk(fourEyes, g, c) && ReleasedAs(g, c);
    OneWayToRelease(g.events[c]);
    var v :| v in g.bundles && g.bundles[v].source == Some(c);
    assert BundleOk(g, v);
  }

  /** The parent of a bundle, and its parent, and so on down to the first. */
  function Ancestors(g: Record, v: nat): seq<nat> {
    if v in g.bundles && g.bundles[v].parent.Some? && g.bundles[v].parent.value < v
    then [v] + Ancestors(g, g.bundles[v].parent.value) else [v]
  }

  /** Every parent chain counts down to the first bundle one version at a time. */
  lemma {:induction false} ParentChainsReachTheSeed(fourEyes: bool, g: Record, v: nat)
    requires Lawful(fourEyes, g) && v in g.bundles
    ensures |Ancestors(g, v)| == v
    ensures forall i :: 0 <= i < v ==> Ancestors(g, v)[i] == v - i && v - i in g.bundles
  {
    assert BundleOk(g, v);
    if v > 1 { ParentChainsReachTheSeed(fourEyes, g, v - 1); }
  }

  /** A released bundle differs from the one below by its candidate's payload alone. */
  lemma ReleaseAddsOnlyItsPayload(g: Record, v: nat, r: Rule, s: Id)
    requires BundleOk(g, v) && v > 1
    ensures v - 1 in g.bundles && g.bundles[v].source.Some? && g.bundles[v].source.value in g.candidates
    ensures var b, below := g.bundles[v], g.bundles[v - 1];
            match g.candidates[b.source.value].payload
            case NewRule(rule) =>
              b.scopes == below.scopes && (r in b.rules <==> r == rule || (r in below.rules && r.ruleId != rule.ruleId))
            case NewScope(scope) =>
              b.rules == below.rules && (s in b.scopes <==> s == scope || s in below.scopes)
            case Nothing => false
  {
  }

  /** After a rollback nothing can be released until the newest bundle is active again. */
  lemma NoReleaseBelowTheNewest(fourEyes: bool, ops: seq<Op>, c: Id, p: Principal, at: nat)
    requires var g := Run(fourEyes, Empty(), ops); Active(g) != Some(Newest(g))
    ensures var g := Run(fourEyes, Empty(), ops);
            OnApprove(g, fourEyes, c, p, at).refusal.Some? && OnApprove(g, fourEyes, c, p, at).record == g
  {
    EmptyIsLawful(fourEyes);
    RunsAreLawful(fourEyes, Empty(), ops);
    ApprovalSucceedsIff(fourEyes, Run(fourEyes, Empty(), ops), c, p, at);
  }
}
