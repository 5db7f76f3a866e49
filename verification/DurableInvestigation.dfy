/** The investigation protocol run by the durable loop: safety across models, failed calls,
    exhausted budgets and crashes at once, and exactness of every run that needs no model and
    meets no budget. */
module DurableInvestigation {
  import opened Seqs
  import opened Evidence
  import opened Hypotheses
  import opened Adjudication
  import opened Investigator
  import opened Protocol
  import opened Soundness
  import opened PlaybookProgress
  import opened PlaybookExactness
  import opened Decisions
  import Runtime

  /** What surrounds one investigation: the snapshot, the episode, which tool calls the executor
      lets through at which step, and how a call is written on record. */
  datatype Inquiry = Inquiry(w: Snapshot, e: EpisodeId, lets: (Request, nat) -> bool, record: Request -> Runtime.Call)

  function ExhaustionText(why: Runtime.Exhaustion): string {
    if why.StepsSpent? then "BUDGET_STEPS" else "BUDGET_TOOL_CALLS"
  }

  /** `exhaust`. */
  function OnExhausted(s: InvState, why: Runtime.Exhaustion): InvState {
    s.(abstained := true, abstainReason := Some(ExhaustionText(why)), missing := KnownMissing(s))
  }

  ghost predicate Open(w: Snapshot, s: InvState) { Inv(w, s) && !Done(s) }

  ghost function Answered(c: Inquiry, s: InvState, a: Action, step: nat): InvState
    requires Open(c.w, s)
  {
    Next(c.w, s, Turn(a, a.CallTool? ==> c.lets(a.request, step)))
  }

  /** The investigator as a program of the runtime. Outside the reachable states, where it is
      never asked, a step changes nothing. */
  ghost function Agent(c: Inquiry): Runtime.Program<InvState, Action, Findings> {
    Runtime.Program(
      Start(c.e),
      (s: InvState) => Playbook(c.w, s),
      (s: InvState) => s.recovering,
      (s: InvState) => Done(s),
      (s: InvState, why: Runtime.Exhaustion) => OnExhausted(s, why),
      (s: InvState, a: Action, step: nat) =>
        Runtime.Effect(if Open(c.w, s) then Answered(c, s, a, step) else s, if a.CallTool? then Some(c.record(a.request)) else None),
      (s: InvState, n: Runtime.Counters) => Finalize(c.w, s))
  }

  type Reply = (InvState, nat, bool) -> Runtime.Reply<Action>

  ghost function Durable(c: Inquiry, b: Runtime.Budget, llm: bool, reply: Reply): Runtime.Setup<InvState, Action, Findings> {
    Runtime.Setup(Agent(c), b, llm, reply)
  }

  lemma OneStep(c: Inquiry, b: Runtime.Budget, llm: bool, reply: Reply, x: Runtime.Position<InvState>)
    requires Open(c.w, x.state)
    ensures var v := Durable(c, b, llm, reply);
            var a := Runtime.NextAction(v, x.state, x.counters).action;
            Runtime.StepFrom(v, x).position.state == Answered(c, x.state, a, x.counters.steps)
  {
  }

  /** How many steps the uninterrupted run takes. */
  ghost function Length(c: Inquiry, b: Runtime.Budget, llm: bool, reply: Reply): nat {
    |Runtime.Trace(Durable(c, b, llm, reply), Runtime.Start(Durable(c, b, llm, reply)))|
  }

  /** Where the run stands after `n` steps. */
  ghost function Checkpoint(c: Inquiry, b: Runtime.Budget, llm: bool, reply: Reply, n: nat): Runtime.Position<InvState>
    requires n <= Length(c, b, llm, reply)
  {
    Runtime.After(Durable(c, b, llm, reply), Runtime.Start(Durable(c, b, llm, reply)), n)
  }

  ghost predicate Proper(c: Inquiry, s: InvState) { Inv(c.w, s) && s.episodeId == c.e }

  lemma StepsKeepProper(c: Inquiry, b: Runtime.Budget, llm: bool, reply: Reply, x: Runtime.Position<InvState>)
    requires Proper(c, x.state) && !Runtime.Halted(Durable(c, b, llm, reply), x)
    ensures Proper(c, Runtime.StepFrom(Durable(c, b, llm, reply), x).position.state)
  {
    OneStep(c, b, llm, reply, x);
  }

  /** Every checkpoint of every run, with any model, is a state of the protocol. */
  lemma CheckpointsKeepTheInvariant(c: Inquiry, b: Runtime.Budget, llm: bool, reply: Reply, n: nat)
    requires WellTyped(c.w.views) && n <= Length(c, b, llm, reply)
    ensures var s := Checkpoint(c, b, llm, reply, n).state; Inv(c.w, s) && s.episodeId == c.e
  {
    var v, p := Durable(c, b, llm, reply), (s: InvState) => Proper(c, s);
    StartInv(c.w, c.e);
    forall x: Runtime.Position<InvState> | p(x.state) && !Runtime.Halted(v, x) ensures p(Runtime.StepFrom(v, x).position.state) {
      StepsKeepProper(c, b, llm, reply, x);
    }
    Runtime.CheckpointsKeep(v, p, n);
  }

  /** What a conclusion must agree with. */
  ghost predicate SoundFinding(c: Inquiry, links: set<Pair>, t: HypType) {
    && Known(c.w, c.e)
    && var full := FullAssessment(c.w, c.e, links).conclusion;
    && full.Some? && ClassOf(full.value) == ClassOf(t) && (ClassOf(t) == Benign ==> full == Some(t))
  }

  /** A run that stops with a conclusion was done, and its last state is what is reported. */
  lemma FinishedWithConclusion(c: Inquiry, b: Runtime.Budget, llm: bool, reply: Reply, x: Runtime.Position<InvState>)
    requires Inv(c.w, x.state) && x.state.episodeId == c.e && Runtime.Halted(Durable(c, b, llm, reply), x)
    requires Finalize(c.w, Runtime.Closed(Durable(c, b, llm, reply), x)).conclusion.Some?
    ensures var f := Finalize(c.w, Runtime.Closed(Durable(c, b, llm, reply), x));
            Finalize(c.w, x.state) == f && SoundFinding(c, Links(c.w, x.state), f.conclusion.value)
  {
    if Done(x.state) { ConcludedIsSound(c.w, x.state); }
  }

  /** Whatever the model replies, whichever calls fail and however often the process dies, a
      conclusion that is ever stored as the result is the one full evidence supports, under the
      links of the last checkpoint. */
  lemma StoredConclusionsAreSound(c: Inquiry, b: Runtime.Budget, llm: bool, reply: Reply,
                                  i: Runtime.Image<InvState, Action, Findings>)
    requires WellTyped(c.w.views)
    requires Runtime.Consistent(Durable(c, b, llm, reply), i) && i.result.Some? && i.result.value.conclusion.Some?
    ensures var s := Checkpoint(c, b, llm, reply, Length(c, b, llm, reply)).state;
            && Inv(c.w, s) && s.episodeId == c.e && Finalize(c.w, s) == i.result.value
            && SoundFinding(c, Links(c.w, s), i.result.value.conclusion.value)
  {
    var n := Length(c, b, llm, reply);
    CheckpointsKeepTheInvariant(c, b, llm, reply, n);
    Runtime.TraceAt(Durable(c, b, llm, reply), Runtime.Start(Durable(c, b, llm, reply)), n);
    FinishedWithConclusion(c, b, llm, reply, Checkpoint(c, b, llm, reply, n));
  }

  // ---------------------------------------------------------------- without a model

  /** A state of the inquiry from which the playbook ends at `end`. */
  ghost predicate OnTheWay(c: Inquiry, s: InvState, end: InvState) {
    ToolsAnswer(c.w, c.e) && s.episodeId == c.e && Inv(c.w, s) && Finish(c.w, s) == end
  }

  lemma PlaybookStaysOnTheWay(c: Inquiry, s: InvState, end: InvState)
    requires Open(c.w, s) && OnTheWay(c, s, end)
    ensures OnTheWay(c, PlaybookStep(c.w, s), end)
  {
  }

  lemma PlaybookAnswers(c: Inquiry, b: Runtime.Budget, reply: Reply, x: Runtime.Position<InvState>)
    requires Open(c.w, x.state) && forall r, k :: c.lets(r, k)
    ensures Runtime.StepFrom(Durable(c, b, false, reply), x).position.state == PlaybookStep(c.w, x.state)
  {
    OneStep(c, b, false, reply, x);
  }

  lemma StepsStayOnTheWay(c: Inquiry, b: Runtime.Budget, reply: Reply, x: Runtime.Position<InvState>, end: InvState)
    requires (forall r, k :: c.lets(r, k)) && OnTheWay(c, x.state, end) && !Runtime.Halted(Durable(c, b, false, reply), x)
    ensures OnTheWay(c, Runtime.StepFrom(Durable(c, b, false, reply), x).position.state, end)
  {
    PlaybookAnswers(c, b, reply, x);
    PlaybookStaysOnTheWay(c, x.state, end);
  }

  /** Every checkpoint of a model-free run lies on the way to the same end. */
  lemma CheckpointsLeadToTheFinish(c: Inquiry, b: Runtime.Budget, reply: Reply, n: nat, end: InvState)
    requires (forall r, k :: c.lets(r, k)) && n <= Length(c, b, false, reply) && OnTheWay(c, Start(c.e), end)
    ensures OnTheWay(c, Checkpoint(c, b, false, reply, n).state, end)
  {
    var v, p := Durable(c, b, false, reply), (s: InvState) => OnTheWay(c, s, end);
    forall x: Runtime.Position<InvState> | p(x.state) && !Runtime.Halted(v, x) ensures p(Runtime.StepFrom(v, x).position.state) {
      StepsStayOnTheWay(c, b, reply, x, end);
    }
    Runtime.CheckpointsKeep(v, p, n);
  }

  /** A model-free run that no budget cuts short stores exactly the exhaustive assessment,
      wherever it was interrupted on the way. */
  lemma ModelFreeRunsAreExact(c: Inquiry, b: Runtime.Budget, reply: Reply, i: Runtime.Image<InvState, Action, Findings>)
    requires ToolsAnswer(c.w, c.e) && forall r, k :: c.lets(r, k)
    requires Runtime.Consistent(Durable(c, b, false, reply), i) && i.result.Some?
    requires Done(Checkpoint(c, b, false, reply, Length(c, b, false, reply)).state)
    ensures Inv(c.w, Start(c.e))
    ensures var f := Finish(c.w, Start(c.e));
            i.result == Some(Finalize(c.w, f)) && Reports(f, FullAssessment(c.w, c.e, Links(c.w, f)))
  {
    StartInv(c.w, c.e);
    CheckpointsLeadToTheFinish(c, b, reply, Length(c, b, false, reply), Finish(c.w, Start(c.e)));
    PlaybookEqualsAssessment(c.w, c.e);
  }
}
