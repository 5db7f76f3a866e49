/** The durable loop as it runs over its tables, dying at any write. */
module DurableStore {
  import opened Seqs
  import opened Runtime

  /** The tables, and how many more writes succeed before the process dies. */
  class Store<!S, !A, !R> {
    var started: bool
    var rows: map<nat, Row<S, A>>
    var calls: map<CallId, string>
    var result: Option<R>
    var writesLeft: nat

    constructor ()
      ensures Untouched(Stored())
    {
      started, rows, calls, result := false, map[], map[], None;
    }

    ghost function Stored(): Image<S, A, R> reads this { Image(started, rows, calls, result) }

    /** Every write first asks whether the process still lives. */
    method Alive() returns (alive: bool)
      modifies this`writesLeft
      ensures alive == (old(writesLeft) > 0) && writesLeft == if alive then old(writesLeft) - 1 else 0
    {
      alive := writesLeft > 0;
      if alive { writesLeft := writesLeft - 1; }
    }
  }

  /** Continues at the last checkpoint, or at the start. */
  method ResumeOrStart<S, A, R>(w: Setup<S, A, R>, store: Store<S, A, R>, ghost n: nat) returns (alive: bool, x: Position<S>, resumed: bool)
    requires At(w, store.Stored(), n)
    modifies store`started, store`writesLeft
    ensures At(w, store.Stored(), n) && store.started == (old(store.started) || alive)
    ensures alive ==> x == After(w, Start(w), n) && resumed == old(store.started)
    ensures alive <== old(store.writesLeft) > 0
    ensures old(store.writesLeft) <= store.writesLeft + 1
  {
    LastRow(w, store.Stored(), n);
    alive, resumed, x := true, store.started, Start(w);
    if !store.started {
      alive := store.Alive();
      if alive { store.started := true; }
    } else if store.rows != map[] {
      x := store.rows[Greatest(store.rows.Keys)].position;
    }
  }

  /** One step: the action, its tool call on record, then the checkpoint. */
  method TakeStep<S, A, R>(w: Setup<S, A, R>, store: Store<S, A, R>, x: Position<S>, ghost n: nat) returns (alive: bool, next: Position<S>)
    requires Stands(w, store.Stored(), x, n) && !Halted(w, x)
    modifies store`rows, store`calls, store`writesLeft
    ensures n < |Trace(w, Start(w))|
    ensures if alive then Stands(w, store.Stored(), next, n + 1) else Stands(w, store.Stored(), x, n)
    ensures alive <== old(store.writesLeft) > 1
    ensures old(store.writesLeft) <= store.writesLeft + 2
  {
    TraceAt(w, Start(w), n);
    CheckpointReached(w, store.Stored(), n);
    next := x;
    var choice := ChooseAction(w, x.state, x.counters);
    var effect := w.program.apply(x.state, choice.action, x.counters.steps);
    if effect.call.Some? {
      alive := store.Alive();
      if !alive { return; }
      store.calls := InsertIgnore(store.calls, x.counters.steps, effect.call);
    }
    var counters := Spent(choice.counters, effect.call);
    alive := store.Alive();
    if !alive { return; }
    next := Position(effect.state, counters);
    store.rows := store.rows[counters.steps := Row(choice.policy, choice.action, next)];
  }

  /** Finalizes a stopped run and stores its result. */
  method Conclude<S, A, R>(w: Setup<S, A, R>, store: Store<S, A, R>, x: Position<S>, state: S, resumed: bool, ghost m: nat) returns (ending: Ending<R>)
    requires Stands(w, store.Stored(), x, m) && Halted(w, x) && state == Closed(w, x)
    modifies store`result, store`writesLeft
    ensures Left(w, store.Stored(), m, ending)
    ensures ending.Finished? ==> !ending.replayed && ending.resumed == resumed
    ensures old(store.writesLeft) > 0 ==> ending.Finished?
  {
    StoppedIsComplete(w, store.Stored(), m);
    var result := w.program.finalize(state, x.counters);
    var alive := store.Alive();
    if !alive { return Crashed; }
    store.result := Some(result);
    return Finished(result, false, resumed);
  }

  /** The loop of a run, from the checkpoint it resumed at. */
  method Loop<S, A, R>(w: Setup<S, A, R>, store: Store<S, A, R>, start: Position<S>, resumed: bool, ghost n: nat) returns (ending: Ending<R>, ghost m: nat)
    requires Stands(w, store.Stored(), start, n) && n <= |Trace(w, Start(w))|
    modifies store`rows, store`calls, store`result, store`writesLeft
    ensures Left(w, store.Stored(), m, ending) && n <= m
    ensures ending.Finished? ==> !ending.replayed && ending.resumed == resumed
    ensures old(store.writesLeft) > 2 * (|Trace(w, Start(w))| - n) ==> ending.Finished?
  {
    m := n;
    var x, state := start, start.state;
    while !w.program.done(x.state)
      invariant state == x.state && Stands(w, store.Stored(), x, m) && n <= m <= |Trace(w, Start(w))|
      invariant old(store.writesLeft) - 2 * (m - n) <= store.writesLeft
      decreases |Trace(w, Start(w))| - m
    {
      var reason := Exhausted(w.budget, x.counters);
      if reason.Some? {
        state := w.program.exhaust(state, reason.value);
        break;
      }
      var alive, next := TakeStep(w, store, x, m);
      if !alive {
        CrashLeaves(w, store.Stored(), x, m);
        return Crashed, m;
      }
      x, state, m := next, next.state, m + 1;
    }
    ending := Conclude(w, store, x, state, resumed, m);
  }

  /** A run that has no result yet. */
  method Continue<S, A, R>(w: Setup<S, A, R>, store: Store<S, A, R>, ghost n: nat) returns (ending: Ending<R>, ghost m: nat)
    requires At(w, store.Stored(), n) && store.result.None?
    modifies store
    ensures Left(w, store.Stored(), m, ending) && n <= m
    ensures ending.Finished? ==> !ending.replayed && (ending.resumed ==> old(store.started))
    ensures old(store.writesLeft) >= 2 * |Trace(w, Start(w))| + 2 ==> ending.Finished?
  {
    var alive, x, resumed := ResumeOrStart(w, store, n);
    if !alive { return Crashed, n; }
    ending, m := Loop(w, store, x, resumed, n);
  }

  /** One run of the program over its store, which may die at any write. */
  method Run<S, A, R>(w: Setup<S, A, R>, store: Store<S, A, R>) returns (ending: Ending<R>)
    requires Consistent(w, store.Stored())
    modifies store
    ensures Consistent(w, store.Stored())
    ensures ending.Finished? ==> Complete(w, store.Stored()) && ending.result == Outcome(w, Start(w))
    ensures ending.Finished? ==> ending.replayed == old(store.result.Some?) && (ending.resumed ==> old(store.started))
    ensures old(store.result.Some?) ==> store.Stored() == old(store.Stored())
    ensures forall k :: k in old(store.rows) ==> k in store.rows && store.rows[k] == old(store.rows[k])
    ensures old(store.writesLeft) >= 2 * |Trace(w, Start(w))| + 2 ==> ending.Finished?
  {
    if store.result.Some? { return Finished(store.result.value, true, false); }
    ghost var n: nat :| At(w, store.Stored(), n);
    ghost var m;
    ending, m := Continue(w, store, n);
    KeptRows(Trace(w, Start(w)), n, m);
  }

  /** However often and wherever earlier runs died, the run that finishes returns and stores
      what the uninterrupted run does. */
  method RunUntilFinished<S, A, R>(w: Setup<S, A, R>, store: Store<S, A, R>, lives: seq<nat>) returns (result: R)
    requires Untouched(store.Stored())
    modifies store
    ensures result == Outcome(w, Start(w)) && Complete(w, store.Stored())
  {
    NothingStored(w, store.Stored());
    for i := 0 to |lives|
      invariant Consistent(w, store.Stored())
    {
      store.writesLeft := lives[i];
      var ending := Run(w, store);
    }
    store.writesLeft := 2 * |Trace(w, Start(w))| + 2;
    var ending := Run(w, store);
    result := ending.result;
  }
}
