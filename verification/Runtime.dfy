/** The durable agent loop: next action, budgets, checkpoints, crashes and resumption. */
module Runtime {
  import opened Seqs

  datatype Fault = ModelFailed | InvalidReply

  datatype Reply<+A> = Action(action: A) | Malformed | Unavailable

  datatype Policy = Llm | Playbook | PlaybookBudget | PlaybookRecovery | PlaybookFallback

  datatype Exhaustion = StepsSpent | ToolCallsSpent

  datatype Counters = Counters(
    steps: nat,
    toolCalls: nat,
    modelCalls: nat,
    fallbacks: nat,
    invalidReplies: nat,
    repairs: nat,
    faults: seq<Fault>)

  datatype Budget = Budget(maxSteps: int, maxToolCalls: int, maxModelCalls: int)

  /** A tool call and what the frozen snapshot answers. */
  datatype Call = Call(request: string, answer: string)

  datatype CallId = CallId(step: nat, request: string)

  /** What applying one action does: the next state, and the tool call it made, if any. */
  datatype Effect<+S> = Effect(state: S, call: Option<Call>)

  datatype Program<!S, !A, !R> = Program(
    start: S,
    playbook: S -> A,
    stuck: S -> bool,
    done: S -> bool,
    exhaust: (S, Exhaustion) -> S,
    apply: (S, A, nat) -> Effect<S>,
    finalize: (S, Counters) -> R)

  /** A program under a budget, with a model or without one. `reply` is given the state, the
      model calls made before and whether this is the repair of an invalid reply. */
  datatype Setup<!S, !A, !R> = Setup(program: Program<S, A, R>, budget: Budget, llm: bool, reply: (S, nat, bool) -> Reply<A>)

  datatype Position<+S> = Position(state: S, counters: Counters)

  /** A row of the step log, under the step number of its counters. */
  datatype Row<+S, +A> = Row(policy: Policy, action: A, position: Position<S>)

  datatype Choice<+A> = Choice(action: A, policy: Policy, counters: Counters)

  function Fresh(): Counters { Counters(0, 0, 0, 0, 0, 0, []) }

  function Start<S, A, R>(w: Setup<S, A, R>): Position<S> { Position(w.program.start, Fresh()) }

  // ---------------------------------------------------------------- one step

  function FallBack<S, A, R>(w: Setup<S, A, R>, s: S, c: Counters, policy: Policy): Choice<A> {
    Choice(w.program.playbook(s), policy, c.(fallbacks := c.fallbacks + 1))
  }

  function FaultOf<A>(r: Reply<A>): Fault { if r.Unavailable? then ModelFailed else InvalidReply }

  /** The reply to the second request of a step. */
  function Repair<S, A, R>(w: Setup<S, A, R>, s: S, c: Counters): Choice<A> {
    var r, called := w.reply(s, c.modelCalls, true), c.(modelCalls := c.modelCalls + 1);
    match r
    case Action(a) => Choice(a, Llm, called)
    case Unavailable => FallBack(w, s, called.(faults := called.faults + [ModelFailed]), PlaybookFallback)
    case Malformed =>
      FallBack(w, s, called.(invalidReplies := called.invalidReplies + 1, faults := called.faults + [InvalidReply]), PlaybookFallback)
  }

  /** `_next_action`. */
  function NextAction<S, A, R>(w: Setup<S, A, R>, s: S, c: Counters): Choice<A> {
    if !w.llm then Choice(w.program.playbook(s), Playbook, c)
    else if c.modelCalls >= w.budget.maxModelCalls then FallBack(w, s, c, PlaybookBudget)
    else if w.program.stuck(s) then FallBack(w, s, c, PlaybookRecovery)
    else
      var r, called := w.reply(s, c.modelCalls, false), c.(modelCalls := c.modelCalls + 1);
      match r
      case Action(a) => Choice(a, Llm, called)
      case Unavailable => FallBack(w, s, called.(faults := called.faults + [ModelFailed]), PlaybookFallback)
      case Malformed =>
        var wrong := called.(invalidReplies := called.invalidReplies + 1);
        if wrong.modelCalls < w.budget.maxModelCalls then Repair(w, s, wrong.(repairs := wrong.repairs + 1))
        else FallBack(w, s, wrong.(faults := wrong.faults + [InvalidReply]), PlaybookFallback)
  }

  function Exhausted(b: Budget, c: Counters): Option<Exhaustion> {
    if c.steps >= b.maxSteps then Some(StepsSpent)
    else if c.toolCalls >= b.maxToolCalls then Some(ToolCallsSpent)
    else None
  }

  predicate Halted<S, A, R>(w: Setup<S, A, R>, x: Position<S>) {
    w.program.done(x.state) || Exhausted(w.budget, x.counters).Some?
  }

  function Spent(c: Counters, call: Option<Call>): Counters {
    c.(steps := c.steps + 1, toolCalls := c.toolCalls + if call.Some? then 1 else 0)
  }

  function EffectOf<S, A, R>(w: Setup<S, A, R>, x: Position<S>): Effect<S> {
    w.program.apply(x.state, NextAction(w, x.state, x.counters).action, x.counters.steps)
  }

  function StepFrom<S, A, R>(w: Setup<S, A, R>, x: Position<S>): Row<S, A> {
    var choice, effect := NextAction(w, x.state, x.counters), EffectOf(w, x);
    Row(choice.policy, choice.action, Position(effect.state, Spent(choice.counters, effect.call)))
  }

  // ---------------------------------------------------------------- the uninterrupted run

  /** The rows a run from `x` writes when nothing interrupts it. */
  function Trace<S, A, R>(w: Setup<S, A, R>, x: Position<S>): seq<Row<S, A>>
    decreases w.budget.maxSteps - x.counters.steps
  {
    if Halted(w, x) then [] else
      CountsUp(w, x);
      [StepFrom(w, x)] + Trace(w, StepFrom(w, x).position)
  }

  /** A step adds one to the step counter and at most one tool call and two model calls. */
  lemma CountsUp<S, A, R>(w: Setup<S, A, R>, x: Position<S>)
    ensures var c, n := x.counters, StepFrom(w, x).position.counters;
            && n.steps == c.steps + 1
            && c.toolCalls <= n.toolCalls <= c.toolCalls + 1
            && c.modelCalls <= n.modelCalls <= c.modelCalls + 2
  {
  }

  /** Where a run from `x` stands after `n` of its rows. */
  function After<S, A, R>(w: Setup<S, A, R>, x: Position<S>, n: nat): Position<S>
    requires n <= |Trace(w, x)|
  {
    if n == 0 then x else Trace(w, x)[n - 1].position
  }

  /** The state a stopped run is finalized in. */
  function Closed<S, A, R>(w: Setup<S, A, R>, x: Position<S>): S {
    if w.program.done(x.state) then x.state else
      match Exhausted(w.budget, x.counters)
      case Some(reason) => w.program.exhaust(x.state, reason)
      case None => x.state
  }

  function Outcome<S, A, R>(w: Setup<S, A, R>, x: Position<S>): R {
    var last := After(w, x, |Trace(w, x)|);
    w.program.finalize(Closed(w, last), last.counters)
  }

  /** Row by row, the trace is what the steps do. */
  lemma {:induction false} TraceAt<S, A, R>(w: Setup<S, A, R>, x: Position<S>, n: nat)
    requires n <= |Trace(w, x)|
    ensures n < |Trace(w, x)| <==> !Halted(w, After(w, x, n))
    ensures n < |Trace(w, x)| ==> Trace(w, x)[n] == StepFrom(w, After(w, x, n))
    ensures After(w, x, n).counters.steps == x.counters.steps + n
    decreases n
  {
    if n > 0 {
      CountsUp(w, x);
      var next := StepFrom(w, x).position;
      TraceAt(w, next, n - 1);
      assert Trace(w, x) == [StepFrom(w, x)] + Trace(w, next);
      assert After(w, x, n) == After(w, next, n - 1);
    }
  }

  /** Resuming from any row writes exactly the rest of the log and ends with the same result. */
  lemma {:induction false} ResumeCompletesTheTrace<S, A, R>(w: Setup<S, A, R>, x: Position<S>, n: nat)
    requires n <= |Trace(w, x)|
    ensures Trace(w, After(w, x, n)) == Trace(w, x)[n..]
    ensures Outcome(w, After(w, x, n)) == Outcome(w, x)
    decreases n
  {
    if n > 0 {
      CountsUp(w, x);
      var next := StepFrom(w, x).position;
      assert Trace(w, x) == [StepFrom(w, x)] + Trace(w, next);
      assert After(w, x, n) == After(w, next, n - 1);
      ResumeCompletesTheTrace(w, next, n - 1);
      SameLastPosition(w, x);
    }
  }

  lemma SameLastPosition<S, A, R>(w: Setup<S, A, R>, x: Position<S>)
    requires !Halted(w, x)
    ensures Outcome(w, StepFrom(w, x).position) == Outcome(w, x)
  {
    CountsUp(w, x);
    assert Trace(w, x) == [StepFrom(w, x)] + Trace(w, StepFrom(w, x).position);
  }

  /** Whatever one step from any position keeps. */
  ghost predicate Preserved<S(!new), A, R>(w: Setup<S, A, R>, p: S -> bool) {
    forall x: Position<S> {:trigger StepFrom(w, x)} :: p(x.state) && !Halted(w, x) ==> p(StepFrom(w, x).position.state)
  }

  /** What holds at the start and is kept by every step holds at every checkpoint. */
  lemma {:induction false} CheckpointsKeep<S(!new), A, R>(w: Setup<S, A, R>, p: S -> bool, n: nat)
    requires n <= |Trace(w, Start(w))| && p(w.program.start) && Preserved(w, p)
    ensures p(After(w, Start(w), n).state)
  {
    if n > 0 {
      CheckpointsKeep(w, p, n - 1);
      TraceAt(w, Start(w), n - 1);
    }
  }

  // ---------------------------------------------------------------- budgets

  ghost predicate WithinBudget(b: Budget, c: Counters) {
    && c.steps <= Positive(b.maxSteps) && c.toolCalls <= Positive(b.maxToolCalls) && c.modelCalls <= Positive(b.maxModelCalls)
    && c.repairs <= c.invalidReplies <= c.modelCalls
    && c.fallbacks <= c.steps && |c.faults| <= c.fallbacks
  }

  function Positive(n: int): nat { if n < 0 then 0 else n }

  lemma StepStaysWithinBudget<S, A, R>(w: Setup<S, A, R>, x: Position<S>)
    requires WithinBudget(w.budget, x.counters) && !Halted(w, x)
    ensures WithinBudget(w.budget, StepFrom(w, x).position.counters)
  {
  }

  /** No persisted counter ever exceeds its budget. */
  lemma {:induction false} RunsStayWithinBudget<S, A, R>(w: Setup<S, A, R>, x: Position<S>, n: nat)
    requires WithinBudget(w.budget, x.counters) && n <= |Trace(w, x)|
    ensures WithinBudget(w.budget, After(w, x, n).counters)
    decreases n
  {
    if n > 0 {
      CountsUp(w, x);
      var next := StepFrom(w, x).position;
      StepStaysWithinBudget(w, x);
      assert Trace(w, x) == [StepFrom(w, x)] + Trace(w, next);
      assert After(w, x, n) == After(w, next, n - 1);
      RunsStayWithinBudget(w, next, n - 1);
    }
  }

  /** Without a model the replies decide nothing. */
  lemma {:induction false} PlaybookRunsIgnoreTheModel<S, A, R>(w: Setup<S, A, R>, x: Position<S>, other: (S, nat, bool) -> Reply<A>)
    requires !w.llm
    ensures Trace(w.(reply := other), x) == Trace(w, x) && Outcome(w.(reply := other), x) == Outcome(w, x)
    decreases w.budget.maxSteps - x.counters.steps
  {
    var v := w.(reply := other);
    if !Halted(w, x) {
      CountsUp(w, x);
      assert StepFrom(v, x) == StepFrom(w, x);
      PlaybookRunsIgnoreTheModel(w, StepFrom(w, x).position, other);
      SameLastPosition(w, x);
      SameLastPosition(v, x);
    }
  }

  // ---------------------------------------------------------------- what is stored

  /** The step rows, by step number, after `n` rows. */
  function Rows<S, A>(trace: seq<Row<S, A>>, n: nat): map<nat, Row<S, A>>
    requires n <= |trace|
  {
    if n == 0 then map[] else Rows(trace, n - 1)[n := trace[n - 1]]
  }

  /** The step numbers of `rows` are 1 to `n`, without a gap. */
  ghost predicate Numbered<S, A>(rows: map<nat, Row<S, A>>, n: nat) { forall k :: k in rows <==> 1 <= k <= n }

  lemma {:induction false} RowsAt<S, A>(trace: seq<Row<S, A>>, n: nat)
    requires n <= |trace|
    ensures Numbered(Rows(trace, n), n)
    ensures forall k :: 1 <= k <= n ==> Rows(trace, n)[k] == trace[k - 1]
  {
    if n > 0 { RowsAt(trace, n - 1); }
  }

  function InsertIgnore(calls: map<CallId, string>, step: nat, call: Option<Call>): map<CallId, string> {
    match call
    case None => calls
    case Some(c) => var id := CallId(step, c.request); if id in calls then calls else calls[id := c.answer]
  }

  /** The tool calls recorded by the first `n` steps. */
  function Calls<S, A, R>(w: Setup<S, A, R>, x: Position<S>, n: nat): map<CallId, string>
    requires n <= |Trace(w, x)|
  {
    if n == 0 then map[] else
      var before := After(w, x, n - 1);
      InsertIgnore(Calls(w, x, n - 1), before.counters.steps, EffectOf(w, before).call)
  }

  /** The tables of one run. */
  datatype Image<+S, +A, +R> = Image(started: bool, rows: map<nat, Row<S, A>>, calls: map<CallId, string>, result: Option<R>)

  /** `n` steps are checkpointed; the tool call of the next one may already be recorded. */
  ghost predicate At<S, A, R>(w: Setup<S, A, R>, i: Image<S, A, R>, n: nat) {
    && n <= |Trace(w, Start(w))|
    && i.rows == Rows(Trace(w, Start(w)), n)
    && (i.calls == Calls(w, Start(w), n) || (n < |Trace(w, Start(w))| && i.calls == Calls(w, Start(w), n + 1)))
    && (n > 0 ==> i.started)
  }

  ghost predicate Complete<S, A, R>(w: Setup<S, A, R>, i: Image<S, A, R>) {
    var t := Trace(w, Start(w));
    && i.started && i.rows == Rows(t, |t|) && i.calls == Calls(w, Start(w), |t|)
    && i.result == Some(Outcome(w, Start(w)))
  }

  /** The stored part of a run is always a beginning of the uninterrupted run. */
  ghost predicate Consistent<S, A, R>(w: Setup<S, A, R>, i: Image<S, A, R>) {
    if i.result.Some? then Complete(w, i) else exists n :: At(w, i, n)
  }

  ghost predicate Untouched<S, A, R>(i: Image<S, A, R>) { i == Image(false, map[], map[], None) }

  lemma NothingStored<S, A, R>(w: Setup<S, A, R>, i: Image<S, A, R>)
    requires Untouched(i)
    ensures Consistent(w, i)
  {
    assert At(w, i, 0);
  }

  /** Any two finished runs of the same setup stored the same log, calls and result. */
  lemma FinishedRunsAgree<S, A, R>(w: Setup<S, A, R>, i: Image<S, A, R>, j: Image<S, A, R>)
    requires Consistent(w, i) && Consistent(w, j) && i.result.Some? && j.result.Some?
    ensures i == j
  {
  }

  /** How far an image got, finished or not. */
  lemma ReachedStep<S, A, R>(w: Setup<S, A, R>, i: Image<S, A, R>) returns (n: nat)
    requires Consistent(w, i)
    ensures var t := Trace(w, Start(w));
            && n <= |t| && i.rows == Rows(t, n)
            && (i.calls == Calls(w, Start(w), n) || (n < |t| && i.calls == Calls(w, Start(w), n + 1)))
  {
    if i.result.Some? {
      n := |Trace(w, Start(w))|;
    } else {
      n :| At(w, i, n);
    }
  }

  /** A log that was cut off is a beginning of every finished one, without a gap, and within
      budget row by row. */
  lemma CutLogsArePrefixes<S, A, R>(w: Setup<S, A, R>, i: Image<S, A, R>, j: Image<S, A, R>)
    requires Consistent(w, i) && Consistent(w, j) && j.result.Some?
    ensures exists n :: Numbered(i.rows, n)
    ensures forall k :: k in i.rows ==> k in j.rows && i.rows[k] == j.rows[k]
    ensures forall k :: k in i.rows ==> i.rows[k].position.counters.steps == k && WithinBudget(w.budget, i.rows[k].position.counters)
    ensures forall id :: id in i.calls ==> id in j.calls && j.calls[id] == i.calls[id]
  {
    var x, t := Start(w), Trace(w, Start(w));
    var n := ReachedStep(w, i);
    RowsAt(t, n);
    RowsAt(t, |t|);
    forall k | k in i.rows
      ensures i.rows[k].position.counters.steps == k && WithinBudget(w.budget, i.rows[k].position.counters)
    {
      TraceAt(w, x, k);
      RunsStayWithinBudget(w, x, k);
    }
    CallsGrow(w, x, if i.calls == Calls(w, x, n) then n else n + 1, |t|);
  }

  lemma {:induction false} CallsGrow<S, A, R>(w: Setup<S, A, R>, x: Position<S>, n: nat, m: nat)
    requires n <= m <= |Trace(w, x)|
    ensures forall id :: id in Calls(w, x, n) ==> id in Calls(w, x, m) && Calls(w, x, m)[id] == Calls(w, x, n)[id]
    decreases m - n
  {
    if n < m { CallsGrow(w, x, n, m - 1); }
  }

  // ---------------------------------------------------------------- checkpoints

  lemma GreatestExists(s: set<nat>) returns (most: nat)
    requires s != {}
    ensures most in s && forall y :: y in s ==> y <= most
  {
    most :| most in s;
    var rest := s - {most};
    assert s == rest + {most};
    if rest != {} {
      var other := GreatestExists(rest);
      most := if most < other then other else most;
    }
  }

  function Greatest(s: set<nat>): (most: nat)
    requires s != {}
    ensures most in s && forall y :: y in s ==> y <= most
  {
    assert exists most :: most in s && forall y :: y in s ==> y <= most by { var most := GreatestExists(s); }
    var most :| most in s && forall y :: y in s ==> y <= most;
    most
  }

  /** The row with the greatest number is the last one written. */
  lemma LastRow<S, A, R>(w: Setup<S, A, R>, i: Image<S, A, R>, n: nat)
    requires At(w, i, n)
    ensures i.rows == map[] <==> n == 0
    ensures n > 0 ==> Greatest(i.rows.Keys) == n && n in i.rows && i.rows[n].position == After(w, Start(w), n)
  {
    RowsAt(Trace(w, Start(w)), n);
    if n > 0 {
      assert n in i.rows;
      assert Greatest(i.rows.Keys) in i.rows;
    }
  }

  datatype Ending<+R> = Crashed | Finished(result: R, replayed: bool, resumed: bool)

  method ChooseAction<S, A, R>(w: Setup<S, A, R>, s: S, before: Counters) returns (choice: Choice<A>)
    ensures choice == NextAction(w, s, before)
  {
    var c := before;
    if !w.llm { return Choice(w.program.playbook(s), Playbook, c); }
    if c.modelCalls >= w.budget.maxModelCalls { return FallBack(w, s, c, PlaybookBudget); }
    if w.program.stuck(s) { return FallBack(w, s, c, PlaybookRecovery); }
    var fault, attempt := ModelFailed, 0;
    while attempt < 2
      invariant 0 <= attempt <= 2
      invariant attempt == 0 ==> c == before
      invariant attempt == 1 ==>
        && w.reply(s, before.modelCalls, false).Malformed?
        && NextAction(w, s, before) == Repair(w, s, c)
      invariant attempt == 2 ==>
        NextAction(w, s, before) == FallBack(w, s, c.(faults := c.faults + [fault]), PlaybookFallback)
    {
      var r := w.reply(s, c.modelCalls, attempt == 1);
      c := c.(modelCalls := c.modelCalls + 1);
      if r.Action? { return Choice(r.action, Llm, c); }
      fault := FaultOf(r);
      if r.Unavailable? {
        attempt := 2;
      } else {
        c := c.(invalidReplies := c.invalidReplies + 1);
        if attempt == 0 && c.modelCalls < w.budget.maxModelCalls {
          c := c.(repairs := c.repairs + 1);
          attempt := 1;
        } else {
          attempt := 2;
        }
      }
    }
    return FallBack(w, s, c.(faults := c.faults + [fault]), PlaybookFallback);
  }

  /** The run stands at `x`, the checkpoint of step `m`, and goes on from there. */
  ghost predicate Stands<S, A, R>(w: Setup<S, A, R>, i: Image<S, A, R>, x: Position<S>, m: nat) {
    At(w, i, m) && i.started && i.result.None? && x == After(w, Start(w), m)
  }

  /** The tool call of the next step on record, and then its checkpoint. */
  lemma CheckpointReached<S, A, R>(w: Setup<S, A, R>, i: Image<S, A, R>, n: nat)
    requires At(w, i, n) && i.started && n < |Trace(w, Start(w))|
    ensures var x := After(w, Start(w), n);
            var calls := InsertIgnore(i.calls, x.counters.steps, EffectOf(w, x).call);
            && At(w, i.(calls := calls), n)
            && At(w, i.(calls := calls, rows := i.rows[n + 1 := Trace(w, Start(w))[n]]), n + 1)
  {
    var x := After(w, Start(w), n);
    assert Calls(w, Start(w), n + 1) == InsertIgnore(Calls(w, Start(w), n), x.counters.steps, EffectOf(w, x).call);
  }

  lemma KeptRows<S, A>(trace: seq<Row<S, A>>, n: nat, m: nat)
    requires n <= m <= |trace|
    ensures forall k :: k in Rows(trace, n) ==> k in Rows(trace, m) && Rows(trace, m)[k] == Rows(trace, n)[k]
  {
    RowsAt(trace, n);
    RowsAt(trace, m);
  }

  /** What a run leaves behind at step `m`. */
  ghost predicate Left<S, A, R>(w: Setup<S, A, R>, i: Image<S, A, R>, m: nat, ending: Ending<R>) {
    && m <= |Trace(w, Start(w))| && i.rows == Rows(Trace(w, Start(w)), m)
    && if ending.Finished? then Complete(w, i) && ending.result == Outcome(w, Start(w)) else i.result.None? && At(w, i, m)
  }

  lemma CrashLeaves<S, A, R>(w: Setup<S, A, R>, i: Image<S, A, R>, x: Position<S>, m: nat)
    requires Stands(w, i, x, m)
    ensures Left(w, i, m, Crashed)
  {
  }

  /** Where the run stops, its log is complete. */
  lemma StoppedIsComplete<S, A, R>(w: Setup<S, A, R>, i: Image<S, A, R>, m: nat)
    requires At(w, i, m) && i.started && Halted(w, After(w, Start(w), m))
    ensures var x := After(w, Start(w), m);
            Complete(w, i.(result := Some(w.program.finalize(Closed(w, x), x.counters)))) && m == |Trace(w, Start(w))|
  {
    TraceAt(w, Start(w), m);
  }
}
