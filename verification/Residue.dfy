/** Cancelled trades without a rebook link, and the new trades that may have replaced them. */
module Residue {
  import opened Seqs
  import opened Trades
  import opened Linking
  import opened EpisodeAssembly

  /** How long after a cancellation a replacement may be booked, and how many are kept. */
  datatype Search = Search(window: int, most: nat)

  /** Episodes are named by their smallest trade. */
  datatype Unresolved = Unresolved(cancelled: TradeId, candidate: TradeId, episodeA: TradeId, episodeB: TradeId, gap: int)

  // ---------------------------------------------------------------- one cancelled trade

  function FirstCancel(es: seq<Event>): Option<Event> {
    if es == [] then None else if es[0].kind.CancelEvent? then Some(es[0]) else FirstCancel(es[1..])
  }

  function LastLive(es: seq<Event>): Option<Event> {
    if es == [] then None
    else if !es[|es| - 1].kind.CancelEvent? then Some(es[|es| - 1])
    else LastLive(es[..|es| - 1])
  }

  /** The event whose terms a replacement must have; of several events there may be none. */
  function LastTerms(es: seq<Event>): Option<Event>
    requires es != []
  {
    if |es| > 1 then LastLive(es) else Some(es[0])
  }

  function Linked(accepted: seq<Link>): set<TradeId> {
    (set l | l in accepted && l.kind == RebookOf :: l.dst) + (set l | l in accepted && l.kind == RebookOf :: l.src)
  }

  /** A trade that begins as new and claims no original. */
  predicate IsFresh(es: seq<Event>)
    requires es != []
  {
    es[0].kind.NewEvent? && forall e :: e in es ==> e.original.None?
  }

  predicate SameTerms(e: Event, f: Event) {
    e.instrument == f.instrument && e.book == f.book && e.side == f.side && e.quantity == f.quantity
  }

  ghost predicate Assembled(b: Book, m: Merges) { BookOk(b) && m.rep.Keys == TradeIds(b) }

  /** `o` may have replaced `t`, cancelled by `cancel` with the terms of `last`. */
  predicate Replaces(b: Book, m: Merges, k: Search, t: TradeId, cancel: Event, last: Event, o: TradeId)
    requires Assembled(b, m) && t in b.byTrade && o in b.byTrade
  {
    var first := b.byTrade[o][0];
    && IsFresh(b.byTrade[o]) && o != t && m.rep[o] != m.rep[t]
    && 0 <= first.time - cancel.time <= k.window
    && SameTerms(first, last)
  }

  /** The replacements, each with its distance in time. */
  function Found(b: Book, m: Merges, k: Search, t: TradeId, cancel: Event, last: Event): set<Pair>
    requires Assembled(b, m) && t in b.byTrade
  {
    set o | o in b.byTrade && Replaces(b, m, k, t, cancel, last, o) :: (b.byTrade[o][0].time - cancel.time, o)
  }

  function FirstOf(ps: seq<Pair>, most: nat): (r: seq<Pair>)
    ensures forall p :: p in r ==> p in ps
  {
    if |ps| <= most then ps else ps[..most]
  }

  function Named(m: Merges, t: TradeId, ps: seq<Pair>): (r: seq<Unresolved>)
    requires t in m.rep && forall p :: p in ps ==> p.1 in m.rep
    ensures |r| == |ps| && forall i :: 0 <= i < |ps| ==> r[i] == Unresolved(t, ps[i].1, m.rep[t], m.rep[ps[i].1], ps[i].0)
  {
    if ps == [] then [] else [Unresolved(t, ps[0].1, m.rep[t], m.rep[ps[0].1], ps[0].0)] + Named(m, t, ps[1..])
  }

  /** The trade was cancelled and no accepted rebook link names it. */
  predicate Open(b: Book, m: Merges, t: TradeId)
    requires t in b.byTrade
  {
    FirstCancel(b.byTrade[t]).Some? && t !in Linked(m.accepted)
  }

  /** What one trade contributes; the original raises where there is nothing to compare with. */
  function ResidueOf(b: Book, m: Merges, k: Search, t: TradeId): Option<seq<Unresolved>>
    requires Assembled(b, m) && t in b.byTrade
  {
    if !Open(b, m, t) then Some([])
    else match LastTerms(b.byTrade[t])
      case None => None
      case Some(last) =>
        Some(Named(m, t, FirstOf(SortedPairs(Found(b, m, k, t, FirstCancel(b.byTrade[t]).value, last)), k.most)))
  }

  /** `_residue` over the trades in order. */
  function Residue(b: Book, m: Merges, k: Search, ts: seq<TradeId>): Option<seq<Unresolved>>
    requires Assembled(b, m) && forall t :: t in ts ==> t in b.byTrade
  {
    if ts == [] then Some([])
    else
      var before, one := Residue(b, m, k, ts[..|ts| - 1]), ResidueOf(b, m, k, ts[|ts| - 1]);
      if before.None? || one.None? then None else Some(before.value + one.value)
  }

  // ---------------------------------------------------------------- as it runs

  /** One pass over the trades that begin as new. */
  method FindReplacements(b: Book, m: Merges, k: Search, t: TradeId, cancel: Event, last: Event, starts: set<TradeId>)
    returns (found: set<Pair>)
    requires Assembled(b, m) && t in b.byTrade
    requires forall o :: o in starts <==> o in b.byTrade && IsFresh(b.byTrade[o])
    ensures found == Found(b, m, k, t, cancel, last)
  {
    found := {};
    var todo := starts;
    while todo != {}
      invariant todo <= starts
      invariant found == set o | o in starts - todo && Replaces(b, m, k, t, cancel, last, o) :: (b.byTrade[o][0].time - cancel.time, o)
    {
      var o :| o in todo;
      todo := todo - {o};
      assert starts - todo == starts - (todo + {o}) + {o};
      if o == t || m.rep[o] == m.rep[t] { continue; }
      var gap := b.byTrade[o][0].time - cancel.time;
      if !(0 <= gap <= k.window) { continue; }
      if !SameTerms(b.byTrade[o][0], last) { continue; }
      found := found + {(gap, o)};
    }
  }

  method FindFor(b: Book, m: Merges, k: Search, t: TradeId, linked: set<TradeId>, starts: set<TradeId>)
    returns (pairs: Option<seq<Unresolved>>)
    requires Assembled(b, m) && t in b.byTrade && linked == Linked(m.accepted)
    requires forall o :: o in starts <==> o in b.byTrade && IsFresh(b.byTrade[o])
    ensures pairs == ResidueOf(b, m, k, t)
  {
    var cancel := FirstCancel(b.byTrade[t]);
    if cancel.None? || t in linked { return Some([]); }
    var last := LastTerms(b.byTrade[t]);
    if last.None? { return None; }
    var found := FindReplacements(b, m, k, t, cancel.value, last.value, starts);
    pairs := Some(Named(m, t, FirstOf(SortedPairs(found), k.most)));
  }

  /** The whole search; `None` where the original raises. */
  method FindResidue(b: Book, m: Merges, k: Search) returns (pairs: Option<seq<Unresolved>>)
    requires Assembled(b, m)
    ensures pairs == Residue(b, m, k, Sorted(b.byTrade.Keys))
  {
    var linked := Linked(m.accepted);
    var starts := set o | o in b.byTrade && IsFresh(b.byTrade[o]);
    var ts := Sorted(b.byTrade.Keys);
    var result: seq<Unresolved> := [];
    for i := 0 to |ts|
      invariant Residue(b, m, k, ts[..i]) == Some(result)
    {
      assert ts[i] in ts;
      var one := FindFor(b, m, k, ts[i], linked, starts);
      if one.None? {
        RaisesOnce(b, m, k, ts, i);
        return None;
      }
      OneMoreTrade(b, m, k, ts, i, result, one.value);
      result := result + one.value;
    }
    assert ts[..|ts|] == ts;
    pairs := Some(result);
  }

  lemma OneMoreTrade(b: Book, m: Merges, k: Search, ts: seq<TradeId>, i: nat, before: seq<Unresolved>, one: seq<Unresolved>)
    requires Assembled(b, m) && (forall t :: t in ts ==> t in b.byTrade) && i < |ts|
    requires Residue(b, m, k, ts[..i]) == Some(before) && ResidueOf(b, m, k, ts[i]) == Some(one)
    ensures Residue(b, m, k, ts[..i + 1]) == Some(before + one)
  {
    assert ts[..i + 1][..i] == ts[..i] && ts[..i + 1][i] == ts[i];
  }

  lemma {:induction false} RaisesOnce(b: Book, m: Merges, k: Search, ts: seq<TradeId>, i: nat)
    requires Assembled(b, m) && (forall t :: t in ts ==> t in b.byTrade) && i < |ts| && ResidueOf(b, m, k, ts[i]).None?
    ensures Residue(b, m, k, ts).None?
  {
    if i < |ts| - 1 { RaisesOnce(b, m, k, ts[..|ts| - 1], i); }
  }

  // ---------------------------------------------------------------- the nearest of a set

  /** The pairs before `p` in order. */
  function Before(s: set<Pair>, p: Pair): set<Pair> { set q | q in s && q != p && PairLe(q, p) }

  lemma {:induction false} PositionIsRank(s: set<Pair>, i: nat)
    requires i < |SortedPairs(s)|
    ensures |Before(s, SortedPairs(s)[i])| == i
    decreases s
  {
    var r, least := SortedPairs(s), LeastPair(s);
    var rest := s - {least};
    if i == 0 {
      assert Before(s, least) == {};
    } else {
      PositionIsRank(rest, i - 1);
      assert r[i] == SortedPairs(rest)[i - 1] && r[i] in SortedPairs(rest);
      LeastIsBefore(s, least, r[i]);
    }
  }

  lemma LeastIsBefore(s: set<Pair>, least: Pair, p: Pair)
    requires least in s && (forall q :: q in s ==> PairLe(least, q)) && p in s - {least}
    ensures |Before(s, p)| == 1 + |Before(s - {least}, p)|
  {
    assert Before(s, p) == {least} + Before(s - {least}, p);
  }

  lemma FirstOfMeaning(s: set<Pair>, most: nat, p: Pair)
    ensures p in FirstOf(SortedPairs(s), most) <==> p in s && |Before(s, p)| < most
  {
    var r := SortedPairs(s);
    if p in s {
      var i :| 0 <= i < |r| && r[i] == p;
      PositionIsRank(s, i);
      if p in FirstOf(r, most) {
        var j :| 0 <= j < |FirstOf(r, most)| && FirstOf(r, most)[j] == p;
        PositionIsRank(s, j);
      }
      if i < most { assert FirstOf(r, most)[i] == p; }
    }
  }

  // ---------------------------------------------------------------- what the pairs mean

  /** A cancelled trade without a rebook link, and an economically identical trade booked as new
      within the window in another episode. */
  ghost predicate Plausible(b: Book, m: Merges, k: Search, t: TradeId, o: TradeId)
    requires Assembled(b, m)
  {
    && t in b.byTrade && o in b.byTrade && Open(b, m, t) && LastTerms(b.byTrade[t]).Some?
    && Replaces(b, m, k, t, FirstCancel(b.byTrade[t]).value, LastTerms(b.byTrade[t]).value, o)
  }

  /** How long after the cancellation the candidate was booked. */
  ghost function Gap(b: Book, m: Merges, k: Search, t: TradeId, o: TradeId): int
    requires Assembled(b, m) && Plausible(b, m, k, t, o)
  {
    b.byTrade[o][0].time - FirstCancel(b.byTrade[t]).value.time
  }

  /** The candidates booked sooner, or as soon and with a smaller id. */
  ghost function Nearer(b: Book, m: Merges, k: Search, t: TradeId, o: TradeId): set<TradeId>
    requires Assembled(b, m) && Plausible(b, m, k, t, o)
  {
    set x | x in b.byTrade && Plausible(b, m, k, t, x)
            && (Gap(b, m, k, t, x) < Gap(b, m, k, t, o) || (Gap(b, m, k, t, x) == Gap(b, m, k, t, o) && x < o))
  }

  lemma {:induction false} PairedAreAsMany(ts: set<TradeId>, ps: set<Pair>)
    requires forall t :: t in ts ==> exists p :: p in ps && p.1 == t
    requires forall p :: p in ps ==> p.1 in ts
    requires forall p, q :: p in ps && q in ps && p.1 == q.1 ==> p == q
    ensures |ts| == |ps|
    decreases ts
  {
    if ts != {} {
      var t :| t in ts;
      var p :| p in ps && p.1 == t;
      forall u | u in ts - {t} ensures exists q :: q in ps - {p} && q.1 == u {
        var q :| q in ps && q.1 == u;
        assert q in ps - {p};
      }
      PairedAreAsMany(ts - {t}, ps - {p});
    } else {
      assert ps == {};
    }
  }

  ghost predicate Lists(pairs: seq<Unresolved>, b: Book, m: Merges, k: Search, t: TradeId, o: TradeId)
    requires Assembled(b, m) && Plausible(b, m, k, t, o)
  {
    Unresolved(t, o, m.rep[t], m.rep[o], Gap(b, m, k, t, o)) in pairs
  }

  lemma NearerAreBefore(b: Book, m: Merges, k: Search, t: TradeId, o: TradeId)
    requires Assembled(b, m) && Plausible(b, m, k, t, o)
    ensures var found := Found(b, m, k, t, FirstCancel(b.byTrade[t]).value, LastTerms(b.byTrade[t]).value);
            (Gap(b, m, k, t, o), o) in found && |Nearer(b, m, k, t, o)| == |Before(found, (Gap(b, m, k, t, o), o))|
  {
    var found := Found(b, m, k, t, FirstCancel(b.byTrade[t]).value, LastTerms(b.byTrade[t]).value);
    var before := Before(found, (Gap(b, m, k, t, o), o));
    forall x | x in Nearer(b, m, k, t, o) ensures exists p :: p in before && p.1 == x {
      assert (Gap(b, m, k, t, x), x) in before;
    }
    PairedAreAsMany(Nearer(b, m, k, t, o), before);
  }

  /** What one trade contributes: its nearest candidates, as many as are kept. */
  lemma OneMeaning(b: Book, m: Merges, k: Search, t: TradeId, o: TradeId)
    requires Assembled(b, m) && t in b.byTrade && ResidueOf(b, m, k, t).Some? && Plausible(b, m, k, t, o)
    ensures Lists(ResidueOf(b, m, k, t).value, b, m, k, t, o) <==> |Nearer(b, m, k, t, o)| < k.most
  {
    var found := Found(b, m, k, t, FirstCancel(b.byTrade[t]).value, LastTerms(b.byTrade[t]).value);
    NearerAreBefore(b, m, k, t, o);
    FirstOfMeaning(found, k.most, (Gap(b, m, k, t, o), o));
    NamedMembers(m, t, FirstOf(SortedPairs(found), k.most), (Gap(b, m, k, t, o), o));
  }

  lemma NamedMembers(m: Merges, t: TradeId, ps: seq<Pair>, p: Pair)
    requires t in m.rep && p.1 in m.rep && forall q :: q in ps ==> q.1 in m.rep
    ensures Unresolved(t, p.1, m.rep[t], m.rep[p.1], p.0) in Named(m, t, ps) <==> p in ps
  {
    var u, r := Unresolved(t, p.1, m.rep[t], m.rep[p.1], p.0), Named(m, t, ps);
    if p in ps {
      var i :| 0 <= i < |ps| && ps[i] == p;
      assert r[i] == u;
    }
    if u in r {
      var i :| 0 <= i < |r| && r[i] == u;
      assert ps[i] == p;
    }
  }

  /** What one trade lists is a plausible pair of its own. */
  lemma OneIsPlausible(b: Book, m: Merges, k: Search, t: TradeId, u: Unresolved)
    requires Assembled(b, m) && t in b.byTrade && ResidueOf(b, m, k, t).Some? && u in ResidueOf(b, m, k, t).value
    ensures u.cancelled == t && Plausible(b, m, k, t, u.candidate)
    ensures u == Unresolved(t, u.candidate, m.rep[t], m.rep[u.candidate], Gap(b, m, k, t, u.candidate))
  {
    var found := Found(b, m, k, t, FirstCancel(b.byTrade[t]).value, LastTerms(b.byTrade[t]).value);
    var ps, r := FirstOf(SortedPairs(found), k.most), ResidueOf(b, m, k, t).value;
    var i :| 0 <= i < |r| && r[i] == u;
    FirstOfMeaning(found, k.most, ps[i]);
    assert ps[i] in ps;
  }

  lemma {:induction false} ResidueMembers(b: Book, m: Merges, k: Search, ts: seq<TradeId>, u: Unresolved)
    requires Assembled(b, m) && (forall t :: t in ts ==> t in b.byTrade) && Residue(b, m, k, ts).Some?
    ensures forall t :: t in ts ==> ResidueOf(b, m, k, t).Some?
    ensures u in Residue(b, m, k, ts).value <==> exists t :: t in ts && u in ResidueOf(b, m, k, t).value
  {
    if ts != [] {
      var init, t := ts[..|ts| - 1], ts[|ts| - 1];
      assert ts == init + [t];
      ResidueMembers(b, m, k, init, u);
    }
  }

  /** Main result: the unresolved pairs are exactly the plausible ones, up to the limit of the
      nearest for each cancelled trade; each joins two different episodes. */
  lemma ResidueMeaning(b: Book, m: Merges, k: Search, pairs: seq<Unresolved>)
    requires Assembled(b, m) && Residue(b, m, k, Sorted(b.byTrade.Keys)) == Some(pairs)
    ensures forall t, o :: Plausible(b, m, k, t, o) ==> (Lists(pairs, b, m, k, t, o) <==> |Nearer(b, m, k, t, o)| < k.most)
    ensures forall u :: u in pairs ==>
      && Plausible(b, m, k, u.cancelled, u.candidate) && Lists(pairs, b, m, k, u.cancelled, u.candidate)
      && u.episodeA == m.rep[u.cancelled] && u.episodeB == m.rep[u.candidate] && u.episodeA != u.episodeB
  {
    var ts := Sorted(b.byTrade.Keys);
    forall t, o | Plausible(b, m, k, t, o) ensures Lists(pairs, b, m, k, t, o) <==> |Nearer(b, m, k, t, o)| < k.most {
      var u := Unresolved(t, o, m.rep[t], m.rep[o], Gap(b, m, k, t, o));
      ResidueMembers(b, m, k, ts, u);
      OneMeaning(b, m, k, t, o);
      if u in pairs {
        var x :| x in ts && u in ResidueOf(b, m, k, x).value;
        OneIsPlausible(b, m, k, x, u);
      }
    }
    forall u | u in pairs
      ensures Plausible(b, m, k, u.cancelled, u.candidate)
      ensures u == Unresolved(u.cancelled, u.candidate, m.rep[u.cancelled], m.rep[u.candidate], Gap(b, m, k, u.cancelled, u.candidate))
    {
      ResidueMembers(b, m, k, ts, u);
      var x :| x in ts && u in ResidueOf(b, m, k, x).value;
      OneIsPlausible(b, m, k, x, u);
    }
  }

  // ---------------------------------------------------------------- where it raises

  ghost predicate OnlyCancels(es: seq<Event>) { |es| > 1 && forall e :: e in es ==> e.kind.CancelEvent? }

  lemma {:induction false} LastLiveMeaning(es: seq<Event>)
    ensures LastLive(es).None? <==> forall e :: e in es ==> e.kind.CancelEvent?
  {
    if es != [] {
      assert es == es[..|es| - 1] + [es[|es| - 1]];
      LastLiveMeaning(es[..|es| - 1]);
    }
  }

  lemma RaisesOn(b: Book, m: Merges, k: Search, t: TradeId)
    requires Assembled(b, m) && t in b.byTrade
    ensures ResidueOf(b, m, k, t).None? <==> OnlyCancels(b.byTrade[t]) && t !in Linked(m.accepted)
  {
    LastLiveMeaning(b.byTrade[t]);
    if OnlyCancels(b.byTrade[t]) { assert b.byTrade[t][0] in b.byTrade[t]; }
  }

  /** The search raises exactly when some trade without a rebook link has several events and all
      of them are cancellations. */
  lemma ResidueRaisesIff(b: Book, m: Merges, k: Search)
    requires Assembled(b, m)
    ensures Residue(b, m, k, Sorted(b.byTrade.Keys)).None? <==>
            exists t :: t in b.byTrade && OnlyCancels(b.byTrade[t]) && t !in Linked(m.accepted)
  {
    RaisesAmong(b, m, k, Sorted(b.byTrade.Keys));
  }

  lemma {:induction false} RaisesAmong(b: Book, m: Merges, k: Search, ts: seq<TradeId>)
    requires Assembled(b, m) && forall t :: t in ts ==> t in b.byTrade
    ensures Residue(b, m, k, ts).None? <==> exists t :: t in ts && OnlyCancels(b.byTrade[t]) && t !in Linked(m.accepted)
  {
    if ts != [] {
      var init, t := ts[..|ts| - 1], ts[|ts| - 1];
      assert ts == init + [t];
      RaisesAmong(b, m, k, init);
      RaisesOn(b, m, k, t);
    }
  }

  // ---------------------------------------------------------------- all that is built

  datatype Built = Built(episodes: map<TradeId, Episode>, episodeOf: map<TradeId, TradeId>, unresolved: seq<Unresolved>)

  /** `build_episodes`. */
  function BuildEpisodes(g: Guards, k: Search, events: seq<Event>, alerts: seq<AlertRow>, overlay: seq<Overlay>): Option<Built> {
    BookIsOk(events, alerts, overlay);
    var b := BookOf(events, alerts, overlay);
    AssemblyIsGood(g, b);
    var m := Assemble(g, b);
    match Residue(b, m, k, Sorted(b.byTrade.Keys))
    case None => None
    case Some(pairs) => Some(Built(Episodes(b, m), m.rep, pairs))
  }

  /** `build_episodes` raises exactly when some trade has several events, all of them
      cancellations, and no rebook link the assembly accepted names it. */
  lemma BuildRaisesIff(g: Guards, k: Search, events: seq<Event>, alerts: seq<AlertRow>, overlay: seq<Overlay>)
    ensures var b := BookOf(events, alerts, overlay);
            && BookOk(b)
            && (BuildEpisodes(g, k, events, alerts, overlay).None? <==>
                exists t :: t in b.byTrade && OnlyCancels(b.byTrade[t]) && t !in Linked(Assemble(g, b).accepted))
  {
    var b := BookOf(events, alerts, overlay);
    BookIsOk(events, alerts, overlay);
    AssemblyIsGood(g, b);
    ResidueRaisesIff(b, Assemble(g, b), k);
  }

  lemma {:induction false} LinksMembers(steps: seq<Step>, l: Link)
    requires l in LinksOf(steps)
    ensures exists s :: s in steps && !s.Mark? && s.link == l
  {
    var here := if steps[0].Mark? then [] else [steps[0].link];
    assert steps == [steps[0]] + steps[1..];
    if l !in here { LinksMembers(steps[1..], l); }
  }

  lemma {:induction false} StrongMembers(g: Guards, b: Book, ts: seq<TradeId>, s: Step)
    requires (forall t :: t in ts ==> t in b.byTrade) && s in StrongSteps(g, b, ts)
    ensures exists t :: t in ts && s in StrongStep(g, b, t)
  {
    var init, last := ts[..|ts| - 1], ts[|ts| - 1];
    assert ts == init + [last];
    if s !in StrongStep(g, b, last) { StrongMembers(g, b, init, s); }
  }

  lemma AcceptedRebook(m: Merges, first: seq<Step>, weak: seq<Step>, l: Link) returns (s: Step)
    requires Recorded(m) == multiset(LinksOf(first + weak)) && AllRebooks(weak, false)
    requires l in m.accepted && l.kind == RebookOf
    ensures s in first && !s.Mark? && s.link == l
  {
    assert l in multiset(m.accepted) && l in Recorded(m);
    assert l in LinksOf(first + weak);
    LinksMembers(first + weak, l);
    s :| s in first + weak && !s.Mark? && s.link == l;
  }

  lemma StrongStepNames(g: Guards, b: Book, ts: seq<TradeId>, s: Step)
    requires (forall t :: t in ts ==> t in b.byTrade) && s in StrongSteps(g, b, ts) && !s.Mark?
    ensures s.link.src in b.byTrade && Original(b.byTrade[s.link.src]) == Some(s.link.dst)
  {
    StrongMembers(g, b, ts, s);
    var t :| t in ts && s in StrongStep(g, b, t);
  }

  /** A rebook link runs from a trade to the original that trade names. */
  lemma RebooksNameOriginals(g: Guards, b: Book, m: Merges, l: Link)
    requires BookOk(b) && m == Assemble(g, b) && l in m.accepted && l.kind == RebookOf
    ensures l.src in b.byTrade && Original(b.byTrade[l.src]) == Some(l.dst)
  {
    NoLinkIsLost(g, b);
    WeakStepsOk(g, b);
    var s := AcceptedRebook(m, FirstSteps(g, b), WeakSteps(g, b), l);
    StrongStepNames(g, b, Sorted(b.byTrade.Keys), s);
  }

  /** No trade named `t` as its original, nor does `t` name one. */
  ghost predicate Unrelated(b: Book, t: TradeId)
    requires t in b.byTrade
  {
    Original(b.byTrade[t]).None? && forall u :: u in b.byTrade ==> Original(b.byTrade[u]) != Some(t)
  }

  lemma UnrelatedIsUnlinked(g: Guards, b: Book, m: Merges, t: TradeId)
    requires BookOk(b) && m == Assemble(g, b) && t in b.byTrade && Unrelated(b, t)
    ensures t !in Linked(m.accepted)
  {
    forall l | l in m.accepted && l.kind == RebookOf ensures l.src != t && l.dst != t { RebooksNameOriginals(g, b, m, l); }
  }

  /** A trade of several events, all cancellations, that neither carries an original nor is
      named as one, makes `build_episodes` raise, whatever else it is given. */
  lemma UnrelatedCancelsRaise(g: Guards, k: Search, events: seq<Event>, alerts: seq<AlertRow>, overlay: seq<Overlay>, t: TradeId)
    requires var b := BookOf(events, alerts, overlay); t in b.byTrade && OnlyCancels(b.byTrade[t]) && Unrelated(b, t)
    ensures BuildEpisodes(g, k, events, alerts, overlay).None?
  {
    var b := BookOf(events, alerts, overlay);
    BuildRaisesIff(g, k, events, alerts, overlay);
    UnrelatedIsUnlinked(g, b, Assemble(g, b), t);
  }

  lemma {:induction false} NoOriginal(es: seq<Event>)
    requires forall e :: e in es ==> e.original.None?
    ensures Original(es).None?
  {
    if es != [] { NoOriginal(es[1..]); }
  }

  lemma TwoCancelsBook(events: seq<Event>, c: Event)
    requires events == [c, c.(version := c.version + 1)] && c.kind.CancelEvent? && c.original.None?
    ensures var b := BookOf(events, [], []);
            b.byTrade.Keys == {c.trade} && OnlyCancels(b.byTrade[c.trade]) && Unrelated(b, c.trade)
  {
    var es := LifecycleOf(events, c.trade);
    TwoFiltered(events[0], events[1], OfTrade(c.trade));
    assert multiset(es) == multiset(events);
    forall e | e in es ensures e.kind.CancelEvent? && e.original.None? { assert e in multiset(events); }
    assert |es| == |multiset(es)| == |multiset(events)| == |events|;
    NoOriginal(es);
  }

  /** Two versions of one cancellation, and nothing else, are such an input. */
  lemma TwoCancelsRaise(g: Guards, k: Search, c: Event)
    requires c.kind.CancelEvent? && c.original.None?
    ensures BuildEpisodes(g, k, [c, c.(version := c.version + 1)], [], []).None?
  {
    TwoCancelsBook([c, c.(version := c.version + 1)], c);
    UnrelatedCancelsRaise(g, k, [c, c.(version := c.version + 1)], [], [], c.trade);
  }

  lemma TwoFiltered(e: Event, f: Event, p: Event -> bool)
    requires p(e) && p(f)
    ensures Filter([e, f], p) == [e, f]
  {
    assert [e, f] == [e] + [f];
    FilterStep(e, [f], p);
    assert [f] == [f] + [];
    FilterStep(f, [], p);
  }

  /** Reordering the inputs changes no episode, link, rejection, flag or unresolved pair. */
  lemma OrderDoesNotMatter(g: Guards, k: Search, events: seq<Event>, alerts: seq<AlertRow>, overlay: seq<Overlay>,
                           events': seq<Event>, alerts': seq<AlertRow>, overlay': seq<Overlay>)
    requires multiset(events) == multiset(events') && multiset(alerts) == multiset(alerts') && multiset(overlay) == multiset(overlay')
    requires Identified(events, alerts, overlay)
    ensures BuildEpisodes(g, k, events, alerts, overlay) == BuildEpisodes(g, k, events', alerts', overlay')
  {
    BookIsOrderFree(events, alerts, overlay, events', alerts', overlay');
  }
}
