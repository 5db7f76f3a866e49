/** Canonical episode construction as a fold of guarded merges over candidate links, and the
    invariant that every merge keeps. */
module Linking {
  import opened Seqs
  import opened Trades

  type Instrument = string

  datatype Tier = Strong | Medium | Agent
  datatype Link = Link(src: TradeId, dst: TradeId, kind: LinkKind, tier: Tier)
  datatype Refusal = OverSpan | CrossInstrument | OverGap
  datatype Rejection = Rejection(link: Link, reason: Refusal)
  datatype KeyName = UrnRef | AlternateTradeId

  datatype Flag =
    | RejectedLink(reason: Refusal)
    | DegenerateOriginal
    | DanglingOriginal
    | DegenerateKey(name: KeyName)
    | HubDemoted(name: KeyName)

  datatype Guards = Guards(maxSpan: int, mediumGap: int, maxFanout: int, degenerate: set<nat>, strip: nat -> nat)

  /** Per trade: first and last time, and the instruments of its own events. */
  datatype Facts = Facts(first: map<TradeId, int>, last: map<TradeId, int>, own: map<TradeId, set<Instrument>>)

  ghost predicate FactsOk(f: Facts) { f.first.Keys == f.last.Keys == f.own.Keys }

  /** Representatives, and per representative the span and instruments of its set. Entries of
      ids that lost their set are kept and never read again. */
  datatype Merges = Merges(
    rep: map<TradeId, TradeId>,
    lo: map<TradeId, int>,
    hi: map<TradeId, int>,
    instruments: map<TradeId, set<Instrument>>,
    accepted: seq<Link>,
    rejected: seq<Rejection>,
    flags: set<(TradeId, Flag)>)

  function Init(f: Facts): Merges {
    Merges(map t | t in f.first :: t, f.first, f.last, f.own, [], [], {})
  }

  ghost predicate Keyed(f: Facts, m: Merges) {
    m.rep.Keys == m.lo.Keys == m.hi.Keys == m.instruments.Keys == f.first.Keys == f.last.Keys == f.own.Keys
  }

  ghost predicate Representatives(rep: map<TradeId, TradeId>) {
    forall t :: t in rep ==> rep[t] in rep && rep[rep[t]] == rep[t] && rep[t] <= t
  }

  predicate Within(m: Merges, l: Link) { l.src in m.rep && l.dst in m.rep }

  predicate HasSet(m: Merges, a: TradeId) { a in m.lo && a in m.hi && a in m.instruments }

  /** Both trades are known and their sets have an entry. */
  predicate Ready(m: Merges, l: Link) { Within(m, l) && HasSet(m, m.rep[l.src]) && HasSet(m, m.rep[l.dst]) }

  function Merged(rep: map<TradeId, TradeId>, a: TradeId, b: TradeId): map<TradeId, TradeId> {
    var root := if a < b then a else b;
    map t | t in rep :: if rep[t] == a || rep[t] == b then root else rep[t]
  }

  function Min(a: int, b: int): int { if a <= b then a else b }
  function Max(a: int, b: int): int { if a >= b then a else b }

  /** Why joining the different sets of `a` and `b` is refused, if it is. */
  function Objection(g: Guards, m: Merges, tier: Tier, a: TradeId, b: TradeId): Option<Refusal>
    requires HasSet(m, a) && HasSet(m, b)
  {
    if Max(m.hi[a], m.hi[b]) - Min(m.lo[a], m.lo[b]) > g.maxSpan then Some(OverSpan)
    else if tier != Strong && m.instruments[a] != m.instruments[b] then Some(CrossInstrument)
    else None
  }

  /** The sets of `a` and `b` become one, led by the smaller id. */
  function Join(m: Merges, a: TradeId, b: TradeId): Merges
    requires HasSet(m, a) && HasSet(m, b)
  {
    var root := if a < b then a else b;
    m.(rep := Merged(m.rep, a, b),
       lo := m.lo[root := Min(m.lo[a], m.lo[b])],
       hi := m.hi[root := Max(m.hi[a], m.hi[b])],
       instruments := m.instruments[root := m.instruments[a] + m.instruments[b]])
  }

  /** `attempt`. */
  function Attempt(g: Guards, m: Merges, l: Link): Merges
    requires Ready(m, l)
  {
    var a, b := m.rep[l.src], m.rep[l.dst];
    if a == b then m.(accepted := m.accepted + [l])
    else match Objection(g, m, l.tier, a, b)
      case Some(reason) =>
        m.(rejected := m.rejected + [Rejection(l, reason)],
           flags := m.flags + {(l.src, RejectedLink(reason)), (l.dst, RejectedLink(reason))})
      case None => Join(m, a, b).(accepted := m.accepted + [l])
  }

  /** What the stages do, in order: try a link, refuse one whose trades are booked too far
      apart, or mark a trade. */
  datatype Step = Try(link: Link) | TooFar(link: Link) | Mark(trade: TradeId, flag: Flag)

  function Take(g: Guards, m: Merges, s: Step): Merges {
    match s
    case Try(l) => if Ready(m, l) then Attempt(g, m, l) else m
    case TooFar(l) => m.(rejected := m.rejected + [Rejection(l, OverGap)])
    case Mark(t, flag) => m.(flags := m.flags + {(t, flag)})
  }

  // ---------------------------------------------------------------- connectivity

  ghost predicate Edge(links: seq<Link>, x: TradeId, y: TradeId) {
    exists l :: l in links && ((l.src == x && l.dst == y) || (l.src == y && l.dst == x))
  }

  ghost predicate Path(links: seq<Link>, p: seq<TradeId>, x: TradeId, y: TradeId) {
    p != [] && p[0] == x && p[|p| - 1] == y && forall i :: 0 <= i < |p| - 1 ==> Edge(links, p[i], p[i + 1])
  }

  ghost predicate Connected(links: seq<Link>, x: TradeId, y: TradeId) { exists p :: Path(links, p, x, y) }

  lemma Reflexive(links: seq<Link>, x: TradeId)
    ensures Connected(links, x, x)
  {
    assert Path(links, [x], x, x);
  }

  lemma OneEdge(links: seq<Link>, x: TradeId, y: TradeId)
    requires Edge(links, x, y)
    ensures Connected(links, x, y)
  {
    assert Path(links, [x, y], x, y);
  }

  lemma Transitive(links: seq<Link>, x: TradeId, y: TradeId, z: TradeId)
    requires Connected(links, x, y) && Connected(links, y, z)
    ensures Connected(links, x, z)
  {
    var p :| Path(links, p, x, y);
    var q :| Path(links, q, y, z);
    var r := p + q[1..];
    forall i | 0 <= i < |r| - 1 ensures Edge(links, r[i], r[i + 1]) {
      if i < |p| - 1 {
        assert Edge(links, p[i], p[i + 1]);
      } else {
        assert Edge(links, q[i - |p| + 1], q[i - |p| + 2]);
      }
    }
    assert Path(links, r, x, z);
  }

  lemma MoreLinks(links: seq<Link>, more: seq<Link>, x: TradeId, y: TradeId)
    requires Connected(links, x, y) && forall l :: l in links ==> l in more
    ensures Connected(more, x, y)
  {
    var p :| Path(links, p, x, y);
    forall i | 0 <= i < |p| - 1 ensures Edge(more, p[i], p[i + 1]) {
      assert Edge(links, p[i], p[i + 1]);
    }
    assert Path(more, p, x, y);
  }

  /** Any colouring that agrees across every link agrees along every path. */
  lemma {:induction false} PathsKeepLabels(links: seq<Link>, colour: map<TradeId, TradeId>, p: seq<TradeId>, x: TradeId, y: TradeId)
    requires forall l :: l in links ==> l.src in colour && l.dst in colour && colour[l.src] == colour[l.dst]
    requires Path(links, p, x, y) && x in colour
    ensures y in colour && colour[x] == colour[y]
  {
    if |p| > 1 {
      assert Edge(links, p[0], p[1]);
      forall i | 0 <= i < |p[1..]| - 1 ensures Edge(links, p[1..][i], p[1..][i + 1]) {
        assert Edge(links, p[i + 1], p[i + 2]);
      }
      PathsKeepLabels(links, colour, p[1..], p[1], y);
    }
  }

  // ---------------------------------------------------------------- invariant of the fold

  /** The sets are exactly the connected components of the accepted links. */
  ghost predicate Components(rep: map<TradeId, TradeId>, accepted: seq<Link>) {
    && (forall l :: l in accepted ==> l.src in rep && l.dst in rep && rep[l.src] == rep[l.dst])
    && (forall x, y {:trigger Connected(accepted, x, y)} :: x in rep && y in rep && rep[x] == rep[y] ==> Connected(accepted, x, y))
  }

  function Members(rep: map<TradeId, TradeId>, r: TradeId): set<TradeId> { set t | t in rep && rep[t] == r }

  /** A span and an instrument set are the aggregate over the trades `ts`. */
  ghost predicate Aggregate(f: Facts, ts: set<TradeId>, lo: int, hi: int, instruments: set<Instrument>) {
    && (forall t :: t in ts ==> t in f.first && t in f.last && t in f.own)
    && (forall t :: t in ts ==> lo <= f.first[t] && f.last[t] <= hi && f.own[t] <= instruments)
    && (exists t :: t in ts && f.first[t] == lo)
    && (exists t :: t in ts && f.last[t] == hi)
    && (forall i :: i in instruments ==> exists t :: t in ts && i in f.own[t])
  }

  lemma JoinAggregates(f: Facts, ts: set<TradeId>, us: set<TradeId>, lo: int, hi: int, lo': int, hi': int,
                       x: set<Instrument>, y: set<Instrument>)
    requires Aggregate(f, ts, lo, hi, x) && Aggregate(f, us, lo', hi', y)
    ensures Aggregate(f, ts + us, Min(lo, lo'), Max(hi, hi'), x + y)
  {
    var t0 :| t0 in ts && f.first[t0] == lo;
    var u0 :| u0 in us && f.first[u0] == lo';
    var t1 :| t1 in ts && f.last[t1] == hi;
    var u1 :| u1 in us && f.last[u1] == hi';
    assert t0 in ts + us && u0 in ts + us && t1 in ts + us && u1 in ts + us;
    forall i | i in x + y ensures exists t :: t in ts + us && i in f.own[t] {
      if i in x {
        var t :| t in ts && i in f.own[t];
        assert t in ts + us;
      } else {
        var t :| t in us && i in f.own[t];
        assert t in ts + us;
      }
    }
  }

  lemma MergedMembers(rep: map<TradeId, TradeId>, a: TradeId, b: TradeId, r: TradeId)
    requires a in rep && b in rep && a != b && r in rep
    ensures var root, other := if a < b then a else b, if a < b then b else a;
            Members(Merged(rep, a, b), r) ==
              if r == root then Members(rep, a) + Members(rep, b) else if r == other then {} else Members(rep, r)
  {
  }

  /** A set of two or more trades spans at most the limit. */
  ghost predicate SpanBounded(g: Guards, f: Facts, m: Merges)
    requires Keyed(f, m)
  {
    forall x :: x in m.rep && m.rep[x] != x && m.rep[x] in m.rep ==> m.hi[m.rep[x]] - m.lo[m.rep[x]] <= g.maxSpan
  }

  ghost predicate AllAggregates(f: Facts, m: Merges)
    requires Keyed(f, m)
  {
    forall r {:trigger Members(m.rep, r)} :: r in m.rep && m.rep[r] == r ==> Aggregate(f, Members(m.rep, r), m.lo[r], m.hi[r], m.instruments[r])
  }

  ghost predicate Good(g: Guards, f: Facts, m: Merges) {
    && Keyed(f, m)
    && Representatives(m.rep)
    && Components(m.rep, m.accepted)
    && AllAggregates(f, m)
    && SpanBounded(g, f, m)
  }

  lemma InitAggregates(f: Facts)
    requires FactsOk(f)
    ensures Keyed(f, Init(f)) && AllAggregates(f, Init(f))
  {
    var m := Init(f);
    forall r | r in m.rep ensures Aggregate(f, Members(m.rep, r), m.lo[r], m.hi[r], m.instruments[r]) {
      assert Members(m.rep, r) == {r};
      assert r in Members(m.rep, r);
    }
  }

  lemma InitIsGood(g: Guards, f: Facts)
    requires FactsOk(f)
    ensures Good(g, f, Init(f))
  {
    InitAggregates(f);
    var m := Init(f);
    forall x, y | x in m.rep && y in m.rep && m.rep[x] == m.rep[y] ensures Connected(m.accepted, x, y) {
      Reflexive(m.accepted, x);
    }
  }

  lemma AcceptInside(rep: map<TradeId, TradeId>, accepted: seq<Link>, l: Link)
    requires Components(rep, accepted) && l.src in rep && l.dst in rep && rep[l.src] == rep[l.dst]
    ensures Components(rep, accepted + [l])
  {
    forall x, y | x in rep && y in rep && rep[x] == rep[y] ensures Connected(accepted + [l], x, y) {
      MoreLinks(accepted, accepted + [l], x, y);
    }
  }

  lemma AcceptMerge(rep: map<TradeId, TradeId>, accepted: seq<Link>, l: Link)
    requires Representatives(rep) && Components(rep, accepted) && l.src in rep && l.dst in rep
    ensures Components(Merged(rep, rep[l.src], rep[l.dst]), accepted + [l])
  {
    var a, b, more := rep[l.src], rep[l.dst], accepted + [l];
    var after := Merged(rep, a, b);
    forall x, y | x in after && y in after && after[x] == after[y] ensures Connected(more, x, y) {
      if rep[x] == rep[y] {
        MoreLinks(accepted, more, x, y);
      } else {
        var u, v := if rep[x] == a then l.src else l.dst, if rep[x] == a then l.dst else l.src;
        assert rep[x] == rep[u] && rep[v] == rep[y];
        MoreLinks(accepted, more, x, u);
        MoreLinks(accepted, more, v, y);
        assert more[|accepted|] == l;
        OneEdge(more, u, v);
        Transitive(more, x, u, v);
        Transitive(more, x, v, y);
      }
    }
  }

  lemma MergedRepresentatives(rep: map<TradeId, TradeId>, a: TradeId, b: TradeId)
    requires Representatives(rep) && a in rep && b in rep && rep[a] == a && rep[b] == b
    ensures Representatives(Merged(rep, a, b))
  {
    var after, root := Merged(rep, a, b), if a < b then a else b;
    assert after[root] == root;
    forall t | t in after ensures after[t] in after && after[after[t]] == after[t] && after[t] <= t {
      assert rep[t] in rep && rep[rep[t]] == rep[t] && rep[t] <= t;
    }
  }

  ghost predicate TwoRoots(m: Merges, a: TradeId, b: TradeId) {
    a in m.rep && b in m.rep && m.rep[a] == a && m.rep[b] == b && a != b
  }

  lemma JoinKeepsAggregate(f: Facts, m: Merges, a: TradeId, b: TradeId, r: TradeId)
    requires Keyed(f, m) && AllAggregates(f, m) && TwoRoots(m, a, b)
    requires r in m.rep && Join(m, a, b).rep[r] == r
    ensures var n := Join(m, a, b); Aggregate(f, Members(n.rep, r), n.lo[r], n.hi[r], n.instruments[r])
  {
    MergedMembers(m.rep, a, b, r);
    if r == a || r == b {
      JoinAggregates(f, Members(m.rep, a), Members(m.rep, b), m.lo[a], m.hi[a], m.lo[b], m.hi[b], m.instruments[a], m.instruments[b]);
    }
  }

  lemma JoinKeepsAggregates(f: Facts, m: Merges, a: TradeId, b: TradeId)
    requires Keyed(f, m) && AllAggregates(f, m) && TwoRoots(m, a, b)
    ensures Keyed(f, Join(m, a, b)) && AllAggregates(f, Join(m, a, b))
  {
    forall r | r in m.rep && Join(m, a, b).rep[r] == r
      ensures var n := Join(m, a, b); Aggregate(f, Members(n.rep, r), n.lo[r], n.hi[r], n.instruments[r])
    {
      JoinKeepsAggregate(f, m, a, b, r);
    }
  }

  lemma JoinKeepsSpan(g: Guards, f: Facts, m: Merges, a: TradeId, b: TradeId)
    requires Keyed(f, m) && Representatives(m.rep) && SpanBounded(g, f, m) && TwoRoots(m, a, b)
    requires Max(m.hi[a], m.hi[b]) - Min(m.lo[a], m.lo[b]) <= g.maxSpan
    ensures Keyed(f, Join(m, a, b)) && SpanBounded(g, f, Join(m, a, b))
  {
  }

  lemma JoinKeepsSets(g: Guards, f: Facts, m: Merges, a: TradeId, b: TradeId, tier: Tier)
    requires Keyed(f, m) && Representatives(m.rep) && AllAggregates(f, m) && SpanBounded(g, f, m)
    requires TwoRoots(m, a, b) && Objection(g, m, tier, a, b).None?
    ensures var n := Join(m, a, b);
            Keyed(f, n) && Representatives(n.rep) && AllAggregates(f, n) && SpanBounded(g, f, n)
  {
    MergedRepresentatives(m.rep, a, b);
    JoinKeepsSpan(g, f, m, a, b);
    JoinKeepsAggregates(f, m, a, b);
  }

  lemma JoinKeepsGood(g: Guards, f: Facts, m: Merges, l: Link, a: TradeId, b: TradeId)
    requires Keyed(f, m) && Representatives(m.rep) && AllAggregates(f, m) && SpanBounded(g, f, m)
    requires TwoRoots(m, a, b) && Objection(g, m, l.tier, a, b).None?
    requires Components(Merged(m.rep, a, b), m.accepted + [l])
    ensures Good(g, f, Join(m, a, b).(accepted := m.accepted + [l]))
  {
    JoinKeepsSets(g, f, m, a, b, l.tier);
    OnlyLinksDiffer(g, f, Join(m, a, b), Join(m, a, b).(accepted := m.accepted + [l]));
  }

  ghost predicate SameSets(m: Merges, n: Merges) {
    n.rep == m.rep && n.lo == m.lo && n.hi == m.hi && n.instruments == m.instruments
  }

  lemma OnlyLinksDiffer(g: Guards, f: Facts, m: Merges, n: Merges)
    requires Keyed(f, m) && Representatives(m.rep) && AllAggregates(f, m) && SpanBounded(g, f, m)
    requires SameSets(m, n) && Components(n.rep, n.accepted)
    ensures Good(g, f, n)
  {
  }

  /** Every link that is tried keeps the whole invariant. */
  lemma AttemptKeepsGood(g: Guards, f: Facts, m: Merges, l: Link)
    requires Good(g, f, m) && Within(m, l)
    ensures Ready(m, l)
    ensures Good(g, f, Attempt(g, m, l)) && Attempt(g, m, l).rep.Keys == m.rep.Keys
  {
    var a, b, n := m.rep[l.src], m.rep[l.dst], Attempt(g, m, l);
    if a == b {
      AcceptInside(m.rep, m.accepted, l);
      OnlyLinksDiffer(g, f, m, n);
    } else if Objection(g, m, l.tier, a, b).None? {
      AcceptMerge(m.rep, m.accepted, l);
      JoinKeepsGood(g, f, m, l, a, b);
    } else {
      OnlyLinksDiffer(g, f, m, n);
    }
  }

  lemma TakeKeepsGood(g: Guards, f: Facts, m: Merges, s: Step)
    requires Good(g, f, m) && (s.Try? ==> Within(m, s.link))
    ensures Good(g, f, Take(g, m, s)) && Take(g, m, s).rep.Keys == m.rep.Keys
  {
    if s.Try? { AttemptKeepsGood(g, f, m, s.link); } else { OnlyLinksDiffer(g, f, m, Take(g, m, s)); }
  }

  // ---------------------------------------------------------------- folding the steps

  ghost predicate AllWithin(ids: set<TradeId>, steps: seq<Step>) {
    forall s :: s in steps && !s.Mark? ==> s.link.src in ids && s.link.dst in ids
  }

  /** The steps in order, each taken against what the earlier ones left. */
  function Fold(g: Guards, m: Merges, steps: seq<Step>): Merges
    decreases |steps|
  {
    if steps == [] then m else Fold(g, Take(g, m, steps[0]), steps[1..])
  }

  lemma AllWithinTail(ids: set<TradeId>, steps: seq<Step>)
    requires AllWithin(ids, steps) && steps != []
    ensures AllWithin(ids, [steps[0]]) && AllWithin(ids, steps[1..])
    ensures !steps[0].Mark? ==> steps[0].link.src in ids && steps[0].link.dst in ids
  {
    assert steps[0] in steps;
  }

  /** Taking every step keeps the whole invariant. */
  lemma {:induction false} FoldKeepsGood(g: Guards, f: Facts, m: Merges, steps: seq<Step>)
    requires Good(g, f, m) && AllWithin(m.rep.Keys, steps)
    ensures Good(g, f, Fold(g, m, steps)) && Fold(g, m, steps).rep.Keys == m.rep.Keys
    decreases |steps|
  {
    if steps != [] {
      AllWithinTail(m.rep.Keys, steps);
      TakeKeepsGood(g, f, m, steps[0]);
      FoldKeepsGood(g, f, Take(g, m, steps[0]), steps[1..]);
    }
  }

  lemma {:induction false} FoldConcat(g: Guards, m: Merges, steps: seq<Step>, more: seq<Step>)
    ensures Fold(g, m, steps + more) == Fold(g, Fold(g, m, steps), more)
    decreases |steps|
  {
    if steps == [] {
      assert steps + more == more;
    } else {
      assert (steps + more)[0] == steps[0] && (steps + more)[1..] == steps[1..] + more;
      FoldConcat(g, Take(g, m, steps[0]), steps[1..], more);
    }
  }

  // ---------------------------------------------------------------- what is recorded

  /** The part of the invariant that lets every known link be tried. */
  ghost predicate Formed(m: Merges) {
    m.rep.Keys == m.lo.Keys == m.hi.Keys == m.instruments.Keys && Representatives(m.rep)
  }

  lemma AttemptKeepsFormed(g: Guards, m: Merges, l: Link)
    requires Formed(m) && Within(m, l)
    ensures Ready(m, l) && Formed(Attempt(g, m, l)) && Attempt(g, m, l).rep.Keys == m.rep.Keys
  {
    var a, b := m.rep[l.src], m.rep[l.dst];
    if a != b && Objection(g, m, l.tier, a, b).None? { MergedRepresentatives(m.rep, a, b); }
  }

  lemma TakeKeepsFormed(g: Guards, m: Merges, s: Step)
    requires Formed(m) && (s.Try? ==> Within(m, s.link))
    ensures Formed(Take(g, m, s)) && Take(g, m, s).rep.Keys == m.rep.Keys
  {
    if s.Try? { AttemptKeepsFormed(g, m, s.link); }
  }

  function Links(rs: seq<Rejection>): seq<Link> { if rs == [] then [] else [rs[0].link] + Links(rs[1..]) }

  function LinksOf(steps: seq<Step>): seq<Link> {
    if steps == [] then [] else (if steps[0].Mark? then [] else [steps[0].link]) + LinksOf(steps[1..])
  }

  lemma {:induction false} LinksAppend(rs: seq<Rejection>, r: Rejection)
    ensures Links(rs + [r]) == Links(rs) + [r.link]
  {
    if rs != [] {
      assert (rs + [r])[0] == rs[0] && (rs + [r])[1..] == rs[1..] + [r];
      LinksAppend(rs[1..], r);
    }
  }

  /** How one step changes the two lists. */
  ghost predicate Accepts(m: Merges, n: Merges, l: Link) { n.accepted == m.accepted + [l] && n.rejected == m.rejected }

  ghost predicate Refuses(m: Merges, n: Merges, l: Link) {
    n.accepted == m.accepted && exists reason :: n.rejected == m.rejected + [Rejection(l, reason)]
  }

  lemma AttemptRecords(g: Guards, m: Merges, l: Link)
    requires Ready(m, l)
    ensures Accepts(m, Attempt(g, m, l), l) || Refuses(m, Attempt(g, m, l), l)
  {
  }

  lemma TakeRecords(g: Guards, m: Merges, s: Step)
    requires s.Try? ==> Ready(m, s.link)
    ensures var n := Take(g, m, s);
            if s.Mark? then n.accepted == m.accepted && n.rejected == m.rejected
            else Accepts(m, n, s.link) || Refuses(m, n, s.link)
  {
    if s.Try? { AttemptRecords(g, m, s.link); }
  }

  /** The step's trades are known. */
  ghost predicate CanTake(m: Merges, s: Step) { Formed(m) && (s.Try? ==> Within(m, s.link)) }

  function Recorded(m: Merges): multiset<Link> { multiset(m.accepted) + multiset(Links(m.rejected)) }

  lemma CanTakeIsReady(m: Merges, s: Step)
    requires CanTake(m, s)
    ensures s.Try? ==> Ready(m, s.link)
  {
  }

  lemma RefusalRecorded(m: Merges, n: Merges, l: Link)
    requires Refuses(m, n, l)
    ensures Recorded(n) == Recorded(m) + multiset{l}
  {
    var reason :| n.rejected == m.rejected + [Rejection(l, reason)];
    LinksAppend(m.rejected, Rejection(l, reason));
  }

  lemma TakeRecordsOnce(g: Guards, m: Merges, s: Step)
    requires CanTake(m, s)
    ensures Recorded(Take(g, m, s)) == Recorded(m) + (if s.Mark? then multiset{} else multiset{s.link})
  {
    CanTakeIsReady(m, s);
    TakeRecords(g, m, s);
    if !s.Mark? && Refuses(m, Take(g, m, s), s.link) { RefusalRecorded(m, Take(g, m, s), s.link); }
  }

  /** After the first step, what remains can still be taken. */
  lemma AfterFirstStep(g: Guards, m: Merges, steps: seq<Step>)
    requires Formed(m) && AllWithin(m.rep.Keys, steps) && steps != []
    ensures CanTake(m, steps[0])
    ensures var n := Take(g, m, steps[0]);
            n.rep.Keys == m.rep.Keys && Formed(n) && AllWithin(n.rep.Keys, steps[1..])
  {
    AllWithinTail(m.rep.Keys, steps);
    if steps[0].Try? { AttemptKeepsFormed(g, m, steps[0].link); }
    TakeKeepsFormed(g, m, steps[0]);
  }

  /** No candidate is lost or invented: each is accepted or rejected, once. */
  lemma {:induction false} EveryCandidateIsRecorded(g: Guards, m: Merges, steps: seq<Step>)
    requires Formed(m) && AllWithin(m.rep.Keys, steps)
    ensures Recorded(Fold(g, m, steps)) == Recorded(m) + multiset(LinksOf(steps))
    decreases |steps|
  {
    if steps != [] {
      AfterFirstStep(g, m, steps);
      TakeRecordsOnce(g, m, steps[0]);
      EveryCandidateIsRecorded(g, Take(g, m, steps[0]), steps[1..]);
    }
  }

  // ---------------------------------------------------------------- strong cores

  /** Every set has the instruments its members' cores had. */
  ghost predicate CoresAgree(m: Merges, core: map<TradeId, set<Instrument>>) {
    m.rep.Keys == core.Keys && forall t {:trigger core[t]} :: t in m.rep ==> m.rep[t] in m.instruments && m.instruments[m.rep[t]] == core[t]
  }

  lemma WeakAttemptKeepsCores(g: Guards, m: Merges, l: Link, core: map<TradeId, set<Instrument>>)
    requires Formed(m) && Ready(m, l) && l.tier != Strong && CoresAgree(m, core)
    ensures CoresAgree(Attempt(g, m, l), core)
  {
    var a, b := m.rep[l.src], m.rep[l.dst];
    if a != b && Objection(g, m, l.tier, a, b).None? {
      assert m.instruments[a] == m.instruments[b];
      assert Join(m, a, b).instruments[if a < b then a else b] == m.instruments[a];
    }
  }

  predicate IsStrong(l: Link) { l.tier == Strong }

  /** Every link among the steps is strong, or none is. */
  ghost predicate AllStrong(steps: seq<Step>, strong: bool) {
    forall s :: s in steps && !s.Mark? ==> IsStrong(s.link) == strong
  }

  lemma AllStrongTail(steps: seq<Step>, strong: bool)
    requires AllStrong(steps, strong) && steps != []
    ensures AllStrong(steps[1..], strong) && (!steps[0].Mark? ==> IsStrong(steps[0].link) == strong)
  {
    assert steps[0] in steps;
  }

  lemma WeakTakeKeepsCores(g: Guards, m: Merges, s: Step, core: map<TradeId, set<Instrument>>)
    requires CanTake(m, s) && (s.Try? ==> !IsStrong(s.link)) && CoresAgree(m, core)
    ensures CoresAgree(Take(g, m, s), core)
  {
    if s.Try? { AttemptKeepsFormed(g, m, s.link); }
    if s.Try? { WeakAttemptKeepsCores(g, m, s.link, core); }
  }

  lemma {:induction false} WeakFoldKeepsCores(g: Guards, m: Merges, steps: seq<Step>, core: map<TradeId, set<Instrument>>)
    requires Formed(m) && AllWithin(m.rep.Keys, steps) && CoresAgree(m, core) && AllStrong(steps, false)
    ensures CoresAgree(Fold(g, m, steps), core)
    decreases |steps|
  {
    if steps != [] {
      AfterFirstStep(g, m, steps);
      AllStrongTail(steps, false);
      WeakTakeKeepsCores(g, m, steps[0], core);
      WeakFoldKeepsCores(g, Take(g, m, steps[0]), steps[1..], core);
    }
  }

  lemma StrongAppend(xs: seq<Link>, l: Link)
    ensures Filter(xs + [l], IsStrong) == Filter(xs, IsStrong) + (if IsStrong(l) then [l] else [])
  {
    FilterConcat(xs, [l], IsStrong);
    FilterStep(l, [], IsStrong);
    assert [l] + [] == [l];
  }

  lemma TakeAccepts(g: Guards, m: Merges, s: Step)
    requires CanTake(m, s)
    ensures Take(g, m, s).accepted == m.accepted || (!s.Mark? && Take(g, m, s).accepted == m.accepted + [s.link])
  {
    CanTakeIsReady(m, s);
    TakeRecords(g, m, s);
  }

  lemma WeakStepKeepsStrong(g: Guards, m: Merges, s: Step)
    requires CanTake(m, s) && (s.Mark? || !IsStrong(s.link))
    ensures Filter(Take(g, m, s).accepted, IsStrong) == Filter(m.accepted, IsStrong)
  {
    TakeAccepts(g, m, s);
    if !s.Mark? { StrongAppend(m.accepted, s.link); }
  }

  lemma StrongStepIsStrong(g: Guards, m: Merges, s: Step)
    requires CanTake(m, s) && (s.Mark? || IsStrong(s.link)) && Filter(m.accepted, IsStrong) == m.accepted
    ensures Filter(Take(g, m, s).accepted, IsStrong) == Take(g, m, s).accepted
  {
    TakeAccepts(g, m, s);
    if !s.Mark? { StrongAppend(m.accepted, s.link); }
  }

  /** Weak steps leave the strong part of the accepted links alone. */
  lemma {:induction false} WeakFoldKeepsStrong(g: Guards, m: Merges, steps: seq<Step>)
    requires Formed(m) && AllWithin(m.rep.Keys, steps) && AllStrong(steps, false)
    ensures Filter(Fold(g, m, steps).accepted, IsStrong) == Filter(m.accepted, IsStrong)
    decreases |steps|
  {
    if steps != [] {
      AfterFirstStep(g, m, steps);
      AllStrongTail(steps, false);
      WeakStepKeepsStrong(g, m, steps[0]);
      WeakFoldKeepsStrong(g, Take(g, m, steps[0]), steps[1..]);
    }
  }

  /** Strong steps accept strong links only. */
  lemma {:induction false} StrongFoldIsStrong(g: Guards, m: Merges, steps: seq<Step>)
    requires Formed(m) && AllWithin(m.rep.Keys, steps) && AllStrong(steps, true)
    requires Filter(m.accepted, IsStrong) == m.accepted
    ensures Filter(Fold(g, m, steps).accepted, IsStrong) == Fold(g, m, steps).accepted
    decreases |steps|
  {
    if steps != [] {
      AfterFirstStep(g, m, steps);
      AllStrongTail(steps, true);
      StrongStepIsStrong(g, m, steps[0]);
      StrongFoldIsStrong(g, Take(g, m, steps[0]), steps[1..]);
    }
  }

  // ---------------------------------------------------------------- the two stages together

  /** The trades joined to `t` by the strong links. */
  ghost function CoreOf(ids: set<TradeId>, strong: seq<Link>, t: TradeId): set<TradeId> {
    set u | u in ids && Connected(strong, t, u)
  }

  ghost function InstrumentsOf(f: Facts, us: set<TradeId>): set<Instrument> {
    set u, i | u in us && u in f.own && i in f.own[u] :: i
  }

  /** Members of a set are exactly the trades its links connect. */
  lemma ComponentIsCore(rep: map<TradeId, TradeId>, accepted: seq<Link>, t: TradeId)
    requires Representatives(rep) && Components(rep, accepted) && t in rep
    ensures Members(rep, rep[t]) == CoreOf(rep.Keys, accepted, t)
  {
    forall u | u in rep ensures rep[u] == rep[t] <==> Connected(accepted, t, u) {
      if Connected(accepted, t, u) {
        var p :| Path(accepted, p, t, u);
        PathsKeepLabels(accepted, rep, p, t, u);
      }
    }
  }

  lemma AggregateIsUnion(f: Facts, ts: set<TradeId>, lo: int, hi: int, instruments: set<Instrument>)
    requires Aggregate(f, ts, lo, hi, instruments)
    ensures instruments == InstrumentsOf(f, ts)
  {
  }

  /** A set's recorded instruments are those of the trades its links connect. */
  lemma RecordedInstruments(g: Guards, f: Facts, m: Merges, t: TradeId)
    requires Good(g, f, m) && t in m.rep
    ensures m.rep[t] in m.instruments
    ensures m.instruments[m.rep[t]] == InstrumentsOf(f, CoreOf(m.rep.Keys, m.accepted, t))
  {
    var r := m.rep[t];
    ComponentIsCore(m.rep, m.accepted, t);
    assert Aggregate(f, Members(m.rep, r), m.lo[r], m.hi[r], m.instruments[r]);
    AggregateIsUnion(f, Members(m.rep, r), m.lo[r], m.hi[r], m.instruments[r]);
  }

  ghost function Cores(m: Merges): map<TradeId, set<Instrument>>
    requires Formed(m)
  {
    map t | t in m.rep :: m.instruments[m.rep[t]]
  }

  lemma CoresOfStrongStage(g: Guards, f: Facts, m: Merges)
    requires Good(g, f, m) && Formed(m)
    ensures CoresAgree(m, Cores(m))
    ensures forall t :: t in m.rep ==> Cores(m)[t] == InstrumentsOf(f, CoreOf(m.rep.Keys, m.accepted, t))
  {
    forall t | t in m.rep ensures Cores(m)[t] == InstrumentsOf(f, CoreOf(m.rep.Keys, m.accepted, t)) {
      RecordedInstruments(g, f, m, t);
    }
  }

  lemma GoodIsFormed(g: Guards, f: Facts, m: Merges)
    requires Good(g, f, m)
    ensures Formed(m)
  {
  }

  /** Every set's instruments are those of each of its members' strong cores. */
  ghost predicate CoresUniform(f: Facts, m: Merges) {
    forall t :: t in m.rep ==>
      && m.rep[t] in m.instruments
      && m.instruments[m.rep[t]] == InstrumentsOf(f, CoreOf(m.rep.Keys, Filter(m.accepted, IsStrong), t))
  }

  /** Weak steps after a strong stage keep the strong cores' instruments. */
  lemma WeakStage(g: Guards, f: Facts, m: Merges, steps: seq<Step>)
    requires Good(g, f, m) && AllWithin(m.rep.Keys, steps) && AllStrong(steps, false)
    requires Filter(m.accepted, IsStrong) == m.accepted
    ensures CoresUniform(f, Fold(g, m, steps))
  {
    GoodIsFormed(g, f, m);
    CoresOfStrongStage(g, f, m);
    WeakFoldKeepsCores(g, m, steps, Cores(m));
    WeakFoldKeepsStrong(g, m, steps);
  }

  /** Everything the finished fold guarantees, over strong steps followed by weak ones. */
  lemma TwoStages(g: Guards, f: Facts, strong: seq<Step>, weak: seq<Step>)
    requires FactsOk(f) && AllWithin(f.first.Keys, strong) && AllWithin(f.first.Keys, weak)
    requires AllStrong(strong, true) && AllStrong(weak, false)
    ensures var n := Fold(g, Init(f), strong + weak);
            Good(g, f, n) && n.rep.Keys == f.first.Keys && CoresUniform(f, n)
  {
    InitIsGood(g, f);
    GoodIsFormed(g, f, Init(f));
    FoldConcat(g, Init(f), strong, weak);
    FoldKeepsGood(g, f, Init(f), strong);
    FoldKeepsGood(g, f, Fold(g, Init(f), strong), weak);
    StrongFoldIsStrong(g, Init(f), strong);
    WeakStage(g, f, Fold(g, Init(f), strong), weak);
  }

  /** Two trades share a representative exactly when accepted links connect them. */
  lemma SameSetIffConnected(g: Guards, f: Facts, m: Merges, x: TradeId, y: TradeId)
    requires Good(g, f, m) && x in m.rep && y in m.rep
    ensures m.rep[x] == m.rep[y] <==> Connected(m.accepted, x, y)
  {
    ComponentIsCore(m.rep, m.accepted, x);
    assert y in CoreOf(m.rep.Keys, m.accepted, x) <==> Connected(m.accepted, x, y);
    assert y in Members(m.rep, m.rep[x]) <==> m.rep[y] == m.rep[x];
  }

  /** A recorded span covers every trade of its set. */
  lemma SpanCovers(g: Guards, f: Facts, m: Merges, x: TradeId)
    requires Good(g, f, m) && x in m.rep
    ensures m.rep[x] in m.rep && m.lo[m.rep[x]] <= f.first[x] && f.last[x] <= m.hi[m.rep[x]]
  {
    var r := m.rep[x];
    assert Aggregate(f, Members(m.rep, r), m.lo[r], m.hi[r], m.instruments[r]);
    assert x in Members(m.rep, r);
  }

  lemma SharedSpan(g: Guards, f: Facts, m: Merges, y: TradeId, z: TradeId)
    requires Good(g, f, m) && y in m.rep && z in m.rep && m.rep[y] == m.rep[z] && y != z
    ensures m.rep[y] in m.rep && m.hi[m.rep[y]] - m.lo[m.rep[y]] <= g.maxSpan
  {
    var other := if m.rep[y] == y then z else y;
    assert m.rep[other] != other;
  }
}
