/** How an investigation gets stuck, and that it is handed over to the playbook for good. */
module Stalls {
  import opened Seqs
  import opened Evidence
  import opened Investigator
  import opened Protocol
  import opened Soundness
  import opened DurableInvestigation
  import opened Recovery
  import Runtime

  /** One run of the investigator: what it is about, its budget, its model. */
  datatype Setting = Setting(c: Inquiry, b: Runtime.Budget, llm: bool, reply: Reply)

  ghost predicate IsRun(r: Setting) { WellTyped(r.c.w.views) }

  ghost function Rows(r: Setting): nat { Length(r.c, r.b, r.llm, r.reply) }

  ghost function Stand(r: Setting, n: nat): Runtime.Position<InvState>
    requires n <= Rows(r)
  {
    Checkpoint(r.c, r.b, r.llm, r.reply, n)
  }

  ghost function Row(r: Setting, n: nat): Runtime.Row<InvState, Action>
    requires n < Rows(r)
  {
    Runtime.Trace(Durable(r.c, r.b, r.llm, r.reply), Runtime.Start(Durable(r.c, r.b, r.llm, r.reply)))[n]
  }

  ghost function LetThrough(r: Setting, n: nat): bool
    requires n < Rows(r)
  {
    var a := Row(r, n).action;
    a.CallTool? ==> r.c.lets(a.request, Stand(r, n).counters.steps)
  }

  lemma StandsAreProper(r: Setting, n: nat)
    requires IsRun(r) && n <= Rows(r)
    ensures Inv(r.c.w, Stand(r, n).state) && Usable(r.c.w, Stand(r, n).state)
  {
    CheckpointsKeepTheInvariant(r.c, r.b, r.llm, r.reply, n);
  }

  /** The step was refused, or changed nothing that counts as progress. */
  ghost predicate StalledAt(r: Setting, n: nat)
    requires n < Rows(r)
  {
    var s := Stand(r, n).state;
    Usable(r.c.w, s) && var (t, obs) := Handle(r.c.w, s, Row(r, n).action, LetThrough(r, n)); obs.refused || Signature(t) == Signature(s)
  }

  /** Each row is a step of the protocol from the checkpoint before it. */
  lemma RowsAreSteps(r: Setting, n: nat)
    requires IsRun(r) && n < Rows(r)
    ensures Open(r.c.w, Stand(r, n).state)
    ensures Stand(r, n + 1).state == Next(r.c.w, Stand(r, n).state, Turn(Row(r, n).action, LetThrough(r, n)))
  {
    var v := Durable(r.c, r.b, r.llm, r.reply);
    StandsAreProper(r, n);
    Runtime.TraceAt(v, Runtime.Start(v), n);
    OneStep(r.c, r.b, r.llm, r.reply, Stand(r, n));
  }

  lemma CountedMeaning(w: Snapshot, s: InvState, turn: Turn)
    requires Inv(w, s) && !Done(s)
    ensures var (t, obs) := Handle(w, s, turn.action, turn.ok);
            var stalled, n := obs.refused || Signature(t) == Signature(s), Next(w, s, turn);
            && n.streak == (if stalled then s.streak + 1 else 0)
            && n.recovering == (s.recovering || n.streak >= w.cfg.maxConsecutiveRejections)
  {
    HandlersKeepCounters(w, s, turn.action, turn.ok);
  }

  lemma HandlersKeepCounters(w: Snapshot, s: InvState, action: Action, ok: bool)
    requires Usable(w, s)
    ensures Handle(w, s, action, ok).0.streak == s.streak && Handle(w, s, action, ok).0.recovering == s.recovering
  {
  }

  lemma OneRow(r: Setting, n: nat)
    requires IsRun(r) && n < Rows(r)
    ensures Stand(r, n + 1).state.streak == if StalledAt(r, n) then Stand(r, n).state.streak + 1 else 0
    ensures Stand(r, n + 1).state.recovering ==
      (Stand(r, n).state.recovering || Stand(r, n + 1).state.streak >= r.c.w.cfg.maxConsecutiveRejections)
  {
    RowsAreSteps(r, n);
    StandsAreProper(r, n);
    CountedMeaning(r.c.w, Stand(r, n).state, Turn(Row(r, n).action, LetThrough(r, n)));
  }

  // ---------------------------------------------------------------- counting on its own

  /** Which steps stalled, and after each step the streak and the flag. */
  datatype Course = Course(marks: seq<bool>, streaks: seq<nat>, flags: seq<bool>)

  ghost predicate Counted(co: Course, limit: int) {
    && |co.streaks| == |co.flags| == |co.marks| + 1
    && co.streaks[0] == 0 && !co.flags[0]
    && forall n: nat {:trigger CountedAt(co, limit, n)} :: n < |co.marks| ==> CountedAt(co, limit, n)
  }

  ghost predicate CountedAt(co: Course, limit: int, n: nat)
    requires |co.streaks| == |co.flags| == |co.marks| + 1 && n < |co.marks|
  {
    && co.streaks[n + 1] == (if co.marks[n] then co.streaks[n] + 1 else 0)
    && co.flags[n + 1] == (co.flags[n] || co.streaks[n + 1] >= limit)
  }

  ghost predicate AllMarked(marks: seq<bool>, i: nat, n: nat)
    requires n <= |marks|
  {
    forall k :: i <= k < n ==> marks[k]
  }

  /** So many marks in a row come before. */
  ghost predicate Streaky(marks: seq<bool>, limit: int, n: nat)
    requires n <= |marks|
  {
    exists i: nat, j: nat :: i + limit == j && j <= n && AllMarked(marks, i, j)
  }

  /** The streak is the number of marks in a row just before. */
  lemma {:induction false} StreakMeaning(co: Course, limit: int, n: nat)
    requires Counted(co, limit) && n <= |co.marks|
    ensures co.streaks[n] <= n && AllMarked(co.marks, n - co.streaks[n], n)
    ensures co.streaks[n] < n ==> !co.marks[n - co.streaks[n] - 1]
  {
    if n > 0 {
      StreakMeaning(co, limit, n - 1);
      assert CountedAt(co, limit, n - 1);
    }
  }

  lemma {:induction false} FlagsStay(co: Course, limit: int, n: nat, m: nat)
    requires Counted(co, limit) && n <= m <= |co.marks| && co.flags[n]
    ensures co.flags[m]
    decreases m
  {
    if n < m {
      FlagsStay(co, limit, n, m - 1);
      assert CountedAt(co, limit, m - 1);
    }
  }

  lemma LongStreakFlags(co: Course, limit: int, i: nat, j: nat)
    requires Counted(co, limit) && limit >= 1 && i + limit == j <= |co.marks| && AllMarked(co.marks, i, j)
    ensures co.flags[j]
  {
    StreakMeaning(co, limit, j);
    assert CountedAt(co, limit, j - 1);
  }

  lemma LaterMarks(marks: seq<bool>, i: nat, j: int, n: nat)
    requires i <= j <= n <= |marks| && AllMarked(marks, i, n)
    ensures AllMarked(marks, j, n)
  {
  }

  lemma {:induction false} FlagsMeanStreaks(co: Course, limit: int, n: nat)
    requires Counted(co, limit) && limit >= 1 && n <= |co.marks| && co.flags[n]
    ensures Streaky(co.marks, limit, n)
  {
    if n > 0 {
      assert CountedAt(co, limit, n - 1);
      if co.flags[n - 1] {
        FlagsMeanStreaks(co, limit, n - 1);
        var i: nat, j: nat :| i + limit == j && j <= n - 1 && AllMarked(co.marks, i, j);
      } else {
        StreakMeaning(co, limit, n);
        LaterMarks(co.marks, n - co.streaks[n], n - limit, n);
      }
    }
  }

  // ---------------------------------------------------------------- the run

  ghost function CourseOf(r: Setting): Course
    requires IsRun(r)
    ensures Recorded(r, CourseOf(r))
  {
    Course(
      seq(Rows(r), n requires 0 <= n < Rows(r) => StalledAt(r, n)),
      seq(Rows(r) + 1, n requires 0 <= n < Rows(r) + 1 => Stand(r, n).state.streak),
      seq(Rows(r) + 1, n requires 0 <= n < Rows(r) + 1 => Stand(r, n).state.recovering))
  }

  ghost predicate Recorded(r: Setting, co: Course)
    requires IsRun(r)
  {
    && |co.streaks| == |co.flags| == |co.marks| + 1 == Rows(r) + 1
    && (forall n: nat {:trigger Stand(r, n)} :: n <= Rows(r) ==> co.streaks[n] == Stand(r, n).state.streak && co.flags[n] == Stand(r, n).state.recovering)
    && (forall n: nat {:trigger StalledAt(r, n)} :: n < Rows(r) ==> co.marks[n] == StalledAt(r, n))
  }

  lemma CourseIsCountedAt(r: Setting, co: Course, n: nat)
    requires IsRun(r) && n < Rows(r) && Recorded(r, co)
    ensures CountedAt(co, r.c.w.cfg.maxConsecutiveRejections, n)
  {
    OneRow(r, n);
  }

  lemma StartsClean(r: Setting)
    ensures Stand(r, 0).state.streak == 0 && !Stand(r, 0).state.recovering
  {
  }

  lemma CourseIsCounted(r: Setting, co: Course)
    requires IsRun(r) && Recorded(r, co)
    ensures Counted(co, r.c.w.cfg.maxConsecutiveRejections)
  {
    forall n: nat {:trigger CountedAt(co, r.c.w.cfg.maxConsecutiveRejections, n)} | n < Rows(r) ensures CountedAt(co, r.c.w.cfg.maxConsecutiveRejections, n) {
      CourseIsCountedAt(r, co, n);
    }
    StartsClean(r);
  }

  /** So many stalls in a row happened before the checkpoint. */
  ghost predicate Stuck(r: Setting, n: nat)
    requires IsRun(r) && n <= Rows(r)
  {
    Streaky(CourseOf(r).marks, r.c.w.cfg.maxConsecutiveRejections, n)
  }

  /** A run recovers exactly when, some time before, as many steps in a row as the limit says were
      refused or made no progress. */
  lemma RecoveringIff(r: Setting, n: nat)
    requires IsRun(r) && n <= Rows(r) && r.c.w.cfg.maxConsecutiveRejections >= 1
    ensures Stand(r, n).state.recovering <==> Stuck(r, n)
  {
    var co, limit := CourseOf(r), r.c.w.cfg.maxConsecutiveRejections;
    CourseIsCounted(r, CourseOf(r));
    if co.flags[n] { FlagsMeanStreaks(co, limit, n); }
    if Streaky(co.marks, limit, n) {
      var i: nat, j: nat :| i + limit == j && j <= n && AllMarked(co.marks, i, j);
      LongStreakFlags(co, limit, i, j);
      FlagsStay(co, limit, j, n);
    }
  }

  lemma StuckStays(r: Setting, n: nat, m: nat)
    requires IsRun(r) && r.c.w.cfg.maxConsecutiveRejections >= 1 && n <= m <= Rows(r) && Stuck(r, n)
    ensures Stand(r, m).state.recovering
  {
    RecoveringIff(r, n);
    CourseIsCounted(r, CourseOf(r));
    FlagsStay(CourseOf(r), r.c.w.cfg.maxConsecutiveRejections, n, m);
  }

  /** From then on the model is out: every action is the playbook's and no model call is made. */
  lemma StuckRunsAreHandedOver(r: Setting, n: nat, m: nat)
    requires IsRun(r) && r.c.w.cfg.maxConsecutiveRejections >= 1 && n <= m <= Rows(r) && Stuck(r, n)
    ensures Stand(r, m).counters.modelCalls == Stand(r, n).counters.modelCalls
    ensures m < Rows(r) ==>
      && Row(r, m).action == Investigator.Playbook(r.c.w, Stand(r, m).state)
      && Row(r, m).policy == if !r.llm then Runtime.Playbook
                             else if Stand(r, n).counters.modelCalls >= r.b.maxModelCalls then Runtime.PlaybookBudget else Runtime.PlaybookRecovery
  {
    var v := Durable(r.c, r.b, r.llm, r.reply);
    forall k | n <= k <= Rows(r) ensures v.program.stuck(Runtime.After(v, Runtime.Start(v), k).state) { StuckStays(r, n, k); }
    RecoveryIsForGood(v, Runtime.Start(v), n, m);
  }
}
