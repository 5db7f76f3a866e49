/** What makes two trades an unresolved pair, and an earlier episode a recurrence, told from events and times. */
module Candidates {
  import opened Seqs
  import opened Trades
  import opened Linking
  import opened EpisodeAssembly
  import opened Residue
  import W = Windows

  // ---------------------------------------------------------------- unresolved pairs

  /** The first cancellation. */
  ghost predicate CancelledAt(es: seq<Event>, i: nat) {
    i < |es| && es[i].kind.CancelEvent? && forall j :: 0 <= j < i ==> !es[j].kind.CancelEvent?
  }

  /** The last event that is no cancellation, or the only one there is. */
  ghost predicate TermsAt(es: seq<Event>, j: nat) {
    j < |es| && (|es| == 1 || (!es[j].kind.CancelEvent? && forall x :: j < x < |es| ==> es[x].kind.CancelEvent?))
  }

  /** Booked as new, and never claiming an original. */
  ghost predicate BookedNew(es: seq<Event>) {
    es != [] && es[0].kind.NewEvent? && forall i :: 0 <= i < |es| ==> es[i].original.None?
  }

  /** Booked after the cancellation and within the window, on the cancelled trade's terms. */
  ghost predicate Rebooks(k: Search, es: seq<Event>, fs: seq<Event>, i: nat, j: nat)
    requires fs != []
  {
    && CancelledAt(es, i) && TermsAt(es, j)
    && es[i].time <= fs[0].time <= es[i].time + k.window
    && fs[0].instrument == es[j].instrument && fs[0].book == es[j].book
    && fs[0].side == es[j].side && fs[0].quantity == es[j].quantity
  }

  lemma {:induction false} FirstCancelMeaning(es: seq<Event>)
    ensures FirstCancel(es).Some? ==> exists i: nat :: CancelledAt(es, i) && es[i] == FirstCancel(es).value
    ensures FirstCancel(es).None? ==> forall i :: 0 <= i < |es| ==> !es[i].kind.CancelEvent?
  {
    if es != [] && !es[0].kind.CancelEvent? {
      FirstCancelMeaning(es[1..]);
      if FirstCancel(es[1..]).Some? {
        var i: nat :| CancelledAt(es[1..], i) && es[1..][i] == FirstCancel(es[1..]).value;
        assert forall j :: 0 < j < i + 1 ==> es[j] == es[1..][j - 1];
        assert CancelledAt(es, i + 1);
      } else {
        assert forall j :: 0 < j < |es| ==> es[j] == es[1..][j - 1];
      }
    } else if es != [] {
      assert CancelledAt(es, 0);
    }
  }

  lemma {:induction false} LastLiveMeaning(es: seq<Event>)
    ensures LastLive(es).Some? ==> exists j: nat :: j < |es| && es[j] == LastLive(es).value && !es[j].kind.CancelEvent?
                                     && forall x :: j < x < |es| ==> es[x].kind.CancelEvent?
    ensures LastLive(es).None? ==> forall j :: 0 <= j < |es| ==> es[j].kind.CancelEvent?
  {
    if es != [] && es[|es| - 1].kind.CancelEvent? { LastLiveMeaning(es[..|es| - 1]); }
  }

  lemma LastTermsMeaning(es: seq<Event>)
    requires es != []
    ensures LastTerms(es).Some? ==> exists j: nat :: TermsAt(es, j) && es[j] == LastTerms(es).value
    ensures LastTerms(es).None? ==> forall j: nat :: !TermsAt(es, j)
  {
    LastLiveMeaning(es);
    if |es| == 1 {
      assert TermsAt(es, 0);
    } else if LastLive(es).Some? {
      var j: nat :| j < |es| && es[j] == LastLive(es).value && !es[j].kind.CancelEvent? && forall x :: j < x < |es| ==> es[x].kind.CancelEvent?;
      assert TermsAt(es, j);
    }
  }

  lemma OneCancellation(es: seq<Event>, i: nat, j: nat)
    requires CancelledAt(es, i) && CancelledAt(es, j)
    ensures i == j
  {
  }

  lemma OneTerms(es: seq<Event>, i: nat, j: nat)
    requires TermsAt(es, i) && TermsAt(es, j)
    ensures i == j
  {
  }

  lemma LinkedMeaning(accepted: seq<Link>, t: TradeId)
    ensures t in Linked(accepted) <==> exists l :: l in accepted && l.kind == RebookOf && (l.src == t || l.dst == t)
  {
  }

  lemma FreshMeaning(es: seq<Event>)
    requires es != []
    ensures IsFresh(es) <==> BookedNew(es)
  {
    assert forall i :: 0 <= i < |es| ==> es[i] in es;
  }

  /** What the search compares, event by event. */
  lemma ComparedMeaning(k: Search, es: seq<Event>, fs: seq<Event>)
    requires es != [] && fs != []
    ensures (exists i: nat, j: nat :: Rebooks(k, es, fs, i, j)) <==>
      && FirstCancel(es).Some? && LastTerms(es).Some?
      && 0 <= fs[0].time - FirstCancel(es).value.time <= k.window && SameTerms(fs[0], LastTerms(es).value)
  {
    FirstCancelMeaning(es);
    LastTermsMeaning(es);
    if FirstCancel(es).Some? && LastTerms(es).Some? {
      var i: nat :| CancelledAt(es, i) && es[i] == FirstCancel(es).value;
      var j: nat :| TermsAt(es, j) && es[j] == LastTerms(es).value;
      assert Rebooks(k, es, fs, i, j) <==>
        0 <= fs[0].time - es[i].time <= k.window && SameTerms(fs[0], es[j]);
      forall p: nat, q: nat | Rebooks(k, es, fs, p, q) ensures p == i && q == j {
        OneCancellation(es, p, i);
        OneTerms(es, q, j);
      }
    }
  }

  /** A pair is plausible exactly when no accepted rebook link names the cancelled trade, the other
      is in another episode, was booked as new and claims no original, and rebooks it: within the
      window of its first cancellation, on the terms of its last live event. */
  lemma PlausibleMeaning(b: Book, m: Merges, k: Search, t: TradeId, o: TradeId)
    requires Assembled(b, m) && t in b.byTrade && o in b.byTrade
    ensures Plausible(b, m, k, t, o) <==>
      && (forall l :: l in m.accepted && l.kind == RebookOf ==> l.src != t && l.dst != t)
      && m.rep[o] != m.rep[t] && BookedNew(b.byTrade[o])
      && exists i: nat, j: nat :: Rebooks(k, b.byTrade[t], b.byTrade[o], i, j)
  {
    LinkedMeaning(m.accepted, t);
    FreshMeaning(b.byTrade[o]);
    ComparedMeaning(k, b.byTrade[t], b.byTrade[o]);
  }

  // ---------------------------------------------------------------- windows and recurrences

  /** The window before a period holds exactly the episodes that end in it, as often as they occur. */
  lemma WindowMeaning(es: seq<W.Ended>, p: int, lookback: int, shift: int, e: W.Ended)
    ensures multiset(W.Window(W.ByEnd(es), p, lookback, shift))[e] ==
      if p - shift - lookback <= e.end && e.end < p - shift then multiset(es)[e] else 0
  {
    assert multiset(W.ByEnd(es)) == multiset(es);
    FilterCounts(W.ByEnd(es), W.EndsIn(p - lookback - shift, p - shift), e);
  }

  /** Of the same signature, on the same book or in the same instrument, ended before the other
      started and no longer ago than the window. */
  predicate Recurs(x: W.Ended, e: W.Ended, scope: W.Scope, window: int) {
    && x.signature == e.signature
    && (match scope case ByBook => x.book == e.book case ByInstrument => x.instrument == e.instrument)
    && e.start - window <= x.end < e.start
  }

  /** A recurrence counts exactly the episodes that recur: each one more that does raises it by one,
      and each that does not leaves it. */
  lemma RecurrenceMeaning(es: seq<W.Ended>, all: seq<W.Ended>, x: W.Ended, e: W.Ended, scope: W.Scope, window: int)
    requires all != [] && all[0] == x && all[1..] == es
    ensures W.Prior(all, scope, window)(e) == W.Prior(es, scope, window)(e) + if Recurs(x, e, scope, window) then 1 else 0
  {
    var g := W.GroupOf(e, scope);
    OneMorePrior(es, all, x, g, e.start - window, e.start);
    PriorAt(x, e, g, scope, window);
    PriorIsCount(es, e, g, scope, window);
    PriorIsCount(all, e, g, scope, window);
  }

  /** Without episodes there is no recurrence. */
  lemma NoRecurrence(e: W.Ended, scope: W.Scope, window: int)
    ensures W.Prior([], scope, window)(e) == 0
  {
  }

  lemma PriorIsCount(es: seq<W.Ended>, e: W.Ended, g: W.Group, scope: W.Scope, window: int)
    requires g == W.GroupOf(e, scope)
    ensures W.Prior(es, scope, window)(e) == W.CountPrior(es, g, e.start - window, e.start)
  {
  }

  lemma PriorAt(x: W.Ended, e: W.Ended, g: W.Group, scope: W.Scope, window: int)
    requires g == W.GroupOf(e, scope)
    ensures W.PriorIn(g, e.start - window, e.start)(x) <==> Recurs(x, e, scope, window)
  {
  }

  lemma OneMorePrior(es: seq<W.Ended>, all: seq<W.Ended>, x: W.Ended, g: W.Group, from: int, until: int)
    requires all != [] && all[0] == x && all[1..] == es
    ensures W.CountPrior(all, g, from, until) == W.CountPrior(es, g, from, until) + if W.PriorIn(g, from, until)(x) then 1 else 0
  {
  }
}
