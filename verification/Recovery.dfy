/** When the model is asked, when the playbook answers instead, and how a stuck run is handed over. */
module Recovery {
  import opened Seqs
  import opened Runtime

  // ---------------------------------------------------------------- one step

  /** The model may be asked: it is enabled, has calls left, and the run is not stuck. */
  predicate Asks<S, A, R>(w: Setup<S, A, R>, s: S, c: Counters) {
    w.llm && c.modelCalls < w.budget.maxModelCalls && !w.program.stuck(s)
  }

  /** The second request of a step: the first reply was malformed and a call is left. */
  predicate Repairs<S, A, R>(w: Setup<S, A, R>, s: S, c: Counters) {
    Asks(w, s, c) && w.reply(s, c.modelCalls, false).Malformed? && c.modelCalls + 1 < w.budget.maxModelCalls
  }

  /** The reply that counts: to the repair if there is one. */
  function LastReply<S, A, R>(w: Setup<S, A, R>, s: S, c: Counters): Reply<A> {
    if Repairs(w, s, c) then w.reply(s, c.modelCalls + 1, true) else w.reply(s, c.modelCalls, false)
  }

  /** Which policy acts and what it does, case by case. */
  lemma PolicyMeaning<S, A, R>(w: Setup<S, A, R>, s: S, c: Counters)
    ensures var x := NextAction(w, s, c);
            && (x.policy == Playbook <==> !w.llm)
            && (x.policy == PlaybookBudget <==> w.llm && c.modelCalls >= w.budget.maxModelCalls)
            && (x.policy == PlaybookRecovery <==> w.llm && c.modelCalls < w.budget.maxModelCalls && w.program.stuck(s))
            && (x.policy == Llm || x.policy == PlaybookFallback <==> Asks(w, s, c))
            && (x.policy == Llm <==> Asks(w, s, c) && LastReply(w, s, c).Action?)
            && (x.policy == Llm ==> Action(x.action) == LastReply(w, s, c))
            && (x.policy != Llm ==> x.action == w.program.playbook(s))
  {
  }

  /** What the step is charged: a model call for each request, a fallback whenever an enabled model
      does not act, a fault whenever it was asked in vain, and the invalid replies and repairs. */
  lemma ChargeMeaning<S, A, R>(w: Setup<S, A, R>, s: S, c: Counters)
    ensures var x, n := NextAction(w, s, c), NextAction(w, s, c).counters;
            && n.steps == c.steps && n.toolCalls == c.toolCalls
            && n.modelCalls == c.modelCalls + (if Repairs(w, s, c) then 2 else if Asks(w, s, c) then 1 else 0)
            && n.fallbacks == c.fallbacks + (if w.llm && x.policy != Llm then 1 else 0)
            && n.repairs == c.repairs + (if Repairs(w, s, c) then 1 else 0)
            && n.invalidReplies == c.invalidReplies
                 + (if Asks(w, s, c) && w.reply(s, c.modelCalls, false).Malformed? then 1 else 0)
                 + (if Repairs(w, s, c) && w.reply(s, c.modelCalls + 1, true).Malformed? then 1 else 0)
            && n.faults == c.faults + (if x.policy != PlaybookFallback then []
                                       else if LastReply(w, s, c).Unavailable? then [ModelFailed] else [InvalidReply])
  {
  }

  /** A run stops exactly when it is done or a limit is reached, steps before tool calls; it is
      closed with the reason unless it was done. */
  lemma StopMeaning<S, A, R>(w: Setup<S, A, R>, x: Position<S>)
    ensures Halted(w, x) <==>
      w.program.done(x.state) || x.counters.steps >= w.budget.maxSteps || x.counters.toolCalls >= w.budget.maxToolCalls
    ensures w.program.done(x.state) ==> Closed(w, x) == x.state
    ensures Halted(w, x) && !w.program.done(x.state) ==>
      Closed(w, x) == w.program.exhaust(x.state, if x.counters.steps >= w.budget.maxSteps then StepsSpent else ToolCallsSpent)
  {
  }

  // ---------------------------------------------------------------- over a trace

  /** Once stuck, always stuck. */
  ghost predicate StaysStuck<S(!new), A, R>(w: Setup<S, A, R>, x: Position<S>, n: nat)
    requires n <= |Trace(w, x)|
  {
    forall m {:trigger After(w, x, m)} :: n <= m <= |Trace(w, x)| ==> w.program.stuck(After(w, x, m).state)
  }

  /** From the first stuck checkpoint on, the model is not asked again: every action is the
      playbook's, under a playbook label, and no model call is counted. */
  lemma {:induction false} RecoveryIsForGood<S(!new), A, R>(w: Setup<S, A, R>, x: Position<S>, n: nat, m: nat)
    requires n <= m <= |Trace(w, x)| && StaysStuck(w, x, n)
    ensures After(w, x, m).counters.modelCalls == After(w, x, n).counters.modelCalls
    ensures m < |Trace(w, x)| ==>
      var row := Trace(w, x)[m];
      && row.action == w.program.playbook(After(w, x, m).state)
      && row.policy == if !w.llm then Playbook
                       else if After(w, x, n).counters.modelCalls >= w.budget.maxModelCalls then PlaybookBudget else PlaybookRecovery
    decreases m
  {
    TraceAt(w, x, m);
    var now := After(w, x, m);
    assert w.program.stuck(now.state);
    PolicyMeaning(w, now.state, now.counters);
    if m > n {
      RecoveryIsForGood(w, x, n, m - 1);
      TraceAt(w, x, m - 1);
      var before := After(w, x, m - 1);
      assert w.program.stuck(before.state);
      ChargeMeaning(w, before.state, before.counters);
      SpentKeepsCalls(w, before);
    }
  }

  lemma SpentKeepsCalls<S, A, R>(w: Setup<S, A, R>, x: Position<S>)
    ensures StepFrom(w, x).position.counters.modelCalls == NextAction(w, x.state, x.counters).counters.modelCalls
  {
  }
}
