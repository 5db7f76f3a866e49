/** Which links the two stages try, from the events, alerts and confirmed links they are given,
    and the episodes that result. */
module EpisodeAssembly {
  import opened Seqs
  import opened Trades
  import opened Linking

  /** One ingested event. An original id that is empty is the same as none. */
  datatype Event = Event(
    trade: TradeId,
    version: int,
    kind: EventType,
    time: int,
    instrument: Instrument,
    book: string,
    side: string,
    quantity: real,
    original: Option<nat>,
    urn: Option<nat>,
    alternate: Option<nat>)

  datatype AlertRow = AlertRow(id: nat, trade: TradeId, time: int)

  datatype Overlay = Overlay(src: TradeId, dst: TradeId, canonical: bool)

  /** Everything `build_episodes` reads, in the order it puts it. */
  datatype Book = Book(byTrade: map<TradeId, seq<Event>>, alerts: seq<AlertRow>, overlay: seq<Overlay>)

  function EventKey(e: Event): Key { (e.version, e.time) }
  function AlertKey(a: AlertRow): Key { (a.id, 0) }
  function OverlayKey(o: Overlay): Key { (o.src, o.dst) }
  function OfTrade(t: TradeId): Event -> bool { (e: Event) => e.trade == t }
  function AlertOf(t: TradeId): AlertRow -> bool { (a: AlertRow) => a.trade == t }

  function LifecycleOf(events: seq<Event>, t: TradeId): seq<Event> { SortBy(Filter(events, OfTrade(t)), EventKey) }

  function BookOf(events: seq<Event>, alerts: seq<AlertRow>, overlay: seq<Overlay>): Book {
    Book(map e | e in events :: e.trade := LifecycleOf(events, e.trade), SortBy(alerts, AlertKey), SortBy(overlay, OverlayKey))
  }

  ghost predicate BookOk(b: Book) { forall t :: t in b.byTrade ==> b.byTrade[t] != [] }

  lemma BookIsOk(events: seq<Event>, alerts: seq<AlertRow>, overlay: seq<Overlay>)
    ensures BookOk(BookOf(events, alerts, overlay))
  {
    forall e | e in events ensures LifecycleOf(events, e.trade) != [] {
      assert e in Filter(events, OfTrade(e.trade));
      assert e in multiset(LifecycleOf(events, e.trade));
    }
  }

  function TradeIds(b: Book): set<TradeId> { b.byTrade.Keys + set a | a in b.alerts :: a.trade }

  // ---------------------------------------------------------------- facts per trade

  function EventTimes(es: seq<Event>): seq<int> { seq(|es|, i requires 0 <= i < |es| => es[i].time) }
  function AlertTimes(xs: seq<AlertRow>): seq<int> { seq(|xs|, i requires 0 <= i < |xs| => xs[i].time) }

  function Earliest(ts: seq<int>): (r: int)
    requires ts != []
    ensures r in ts && forall t :: t in ts ==> r <= t
  {
    if |ts| == 1 then ts[0] else
      assert ts == [ts[0]] + ts[1..];
      Min(ts[0], Earliest(ts[1..]))
  }

  function Latest(ts: seq<int>): (r: int)
    requires ts != []
    ensures r in ts && forall t :: t in ts ==> t <= r
  {
    if |ts| == 1 then ts[0] else
      assert ts == [ts[0]] + ts[1..];
      Max(ts[0], Latest(ts[1..]))
  }

  /** The event times of a trade, or its alerts' when it has no event. */
  function Times(b: Book, t: TradeId): (r: seq<int>)
    requires BookOk(b) && t in TradeIds(b)
    ensures r != []
  {
    if t in b.byTrade then EventTimes(b.byTrade[t])
    else
      var own := Filter(b.alerts, AlertOf(t));
      assert own != [] by {
        var a :| a in b.alerts && a.trade == t;
        assert a in own;
      }
      AlertTimes(own)
  }

  function FactsOf(b: Book): Facts
    requires BookOk(b)
  {
    Facts(map t | t in TradeIds(b) :: Earliest(Times(b, t)),
          map t | t in TradeIds(b) :: Latest(Times(b, t)),
          map t | t in TradeIds(b) :: if t in b.byTrade then {b.byTrade[t][0].instrument} else {})
  }

  // ---------------------------------------------------------------- stage one

  /** The first original id any event of the trade carries. */
  function Original(es: seq<Event>): Option<nat> {
    if es == [] then None else if es[0].original.Some? then es[0].original else Original(es[1..])
  }

  function StrongStep(g: Guards, b: Book, t: TradeId): seq<Step>
    requires t in b.byTrade
  {
    match Original(b.byTrade[t])
    case None => []
    case Some(o) =>
      if o == t then []
      else if o in g.degenerate then [Mark(t, DegenerateOriginal)]
      else if o !in b.byTrade then [Mark(t, DanglingOriginal)]
      else [Try(Link(t, o, RebookOf, Strong))]
  }

  function StrongSteps(g: Guards, b: Book, ts: seq<TradeId>): seq<Step>
    requires forall t :: t in ts ==> t in b.byTrade
  {
    if ts == [] then [] else StrongSteps(g, b, ts[..|ts| - 1]) + StrongStep(g, b, ts[|ts| - 1])
  }

  // ---------------------------------------------------------------- confirmed links

  function OverlayStep(ids: set<TradeId>, o: Overlay): seq<Step> {
    if o.src in ids && o.dst in ids && o.canonical then [Try(Link(o.src, o.dst, AgentLink, Agent))] else []
  }

  function OverlaySteps(ids: set<TradeId>, os: seq<Overlay>): seq<Step> {
    if os == [] then [] else OverlaySteps(ids, os[..|os| - 1]) + OverlayStep(ids, os[|os| - 1])
  }

  // ---------------------------------------------------------------- stage two

  function KeyValue(e: Event, name: KeyName): Option<nat> { if name == UrnRef then e.urn else e.alternate }

  /** The value a trade is indexed under, if it has a usable one. */
  function UsableValue(g: Guards, b: Book, name: KeyName, t: TradeId): Option<nat>
    requires BookOk(b) && t in b.byTrade
  {
    match KeyValue(b.byTrade[t][0], name)
    case None => None
    case Some(v) => if v in g.degenerate then None else Some(g.strip(v))
  }

  function KeyMark(g: Guards, b: Book, name: KeyName, t: TradeId): seq<Step>
    requires BookOk(b) && t in b.byTrade
  {
    match KeyValue(b.byTrade[t][0], name)
    case None => []
    case Some(v) => if v in g.degenerate then [Mark(t, DegenerateKey(name))] else []
  }

  function KeyMarks(g: Guards, b: Book, name: KeyName, ts: seq<TradeId>): seq<Step>
    requires BookOk(b) && forall t :: t in ts ==> t in b.byTrade
  {
    if ts == [] then [] else KeyMarks(g, b, name, ts[..|ts| - 1]) + KeyMark(g, b, name, ts[|ts| - 1])
  }

  /** The trades of `seen` indexed under `v`: those whose key is `v`, and for alternate ids the
      trade that `v` names. */
  function Holders(g: Guards, b: Book, name: KeyName, seen: set<TradeId>, v: nat): set<TradeId>
    requires BookOk(b) && seen <= b.byTrade.Keys
  {
    var own := set t | t in seen && UsableValue(g, b, name, t) == Some(v);
    if own != {} && name == AlternateTradeId && v in b.byTrade then own + {v} else own
  }

  /** The index after the trades of `seen`. */
  function Index(g: Guards, b: Book, name: KeyName, seen: set<TradeId>): map<nat, set<TradeId>>
    requires BookOk(b) && seen <= b.byTrade.Keys
  {
    map t | t in seen && UsableValue(g, b, name, t).Some? ::
      UsableValue(g, b, name, t).value := Holders(g, b, name, seen, UsableValue(g, b, name, t).value)
  }

  function KindOf(name: KeyName): LinkKind { if name == UrnRef then SharedUrn else AlternateId }

  function Distance(a: int, b: int): int { if a >= b then a - b else b - a }

  function AttachStep(g: Guards, f: Facts, name: KeyName, anchor: TradeId, t: TradeId): seq<Step>
    requires anchor in f.first && t in f.first
  {
    var l := Link(t, anchor, KindOf(name), Medium);
    if Distance(f.first[t], f.first[anchor]) > g.mediumGap then [TooFar(l)] else [Try(l)]
  }

  function AttachSteps(g: Guards, f: Facts, name: KeyName, anchor: TradeId, ts: seq<TradeId>): seq<Step>
    requires anchor in f.first && forall t :: t in ts ==> t in f.first
  {
    if ts == [] then []
    else AttachSteps(g, f, name, anchor, ts[..|ts| - 1]) + AttachStep(g, f, name, anchor, ts[|ts| - 1])
  }

  function HubMarks(name: KeyName, ts: seq<TradeId>): seq<Step> {
    if ts == [] then [] else HubMarks(name, ts[..|ts| - 1]) + [Mark(ts[|ts| - 1], HubDemoted(name))]
  }

  /** What one indexed value gives: a hub is marked and skipped, others attach to the smallest id. */
  function ValueSteps(g: Guards, f: Facts, name: KeyName, holders: set<TradeId>): seq<Step>
    requires holders != {} && holders <= f.first.Keys
  {
    var ts := Sorted(holders);
    assert Least(holders) in ts;
    if |ts| > g.maxFanout then HubMarks(name, ts) else AttachSteps(g, f, name, ts[0], ts[1..])
  }

  ghost predicate IndexOk(f: Facts, index: map<nat, set<TradeId>>) {
    forall v {:trigger index[v]} :: v in index ==> index[v] != {} && index[v] <= f.first.Keys
  }

  lemma IndexIsOk(g: Guards, b: Book, name: KeyName)
    requires BookOk(b)
    ensures IndexOk(FactsOf(b), Index(g, b, name, b.byTrade.Keys))
  {
    var index := Index(g, b, name, b.byTrade.Keys);
    forall v | v in index ensures index[v] != {} && index[v] <= TradeIds(b) {
      var t :| t in b.byTrade && UsableValue(g, b, name, t) == Some(v);
      assert t in Holders(g, b, name, b.byTrade.Keys, v);
    }
  }

  function IndexSteps(g: Guards, f: Facts, name: KeyName, index: map<nat, set<TradeId>>, vs: seq<nat>): seq<Step>
    requires IndexOk(f, index) && forall v :: v in vs ==> v in index
  {
    if vs == [] then []
    else IndexSteps(g, f, name, index, vs[..|vs| - 1]) + ValueSteps(g, f, name, index[vs[|vs| - 1]])
  }

  function KeySteps(g: Guards, b: Book, name: KeyName): seq<Step>
    requires BookOk(b)
  {
    IndexIsOk(g, b, name);
    var index := Index(g, b, name, b.byTrade.Keys);
    KeyMarks(g, b, name, Sorted(b.byTrade.Keys)) + IndexSteps(g, FactsOf(b), name, index, Sorted(index.Keys))
  }

  function WeakSteps(g: Guards, b: Book): seq<Step>
    requires BookOk(b)
  {
    OverlaySteps(TradeIds(b), b.overlay) + KeySteps(g, b, UrnRef) + KeySteps(g, b, AlternateTradeId)
  }

  function FirstSteps(g: Guards, b: Book): seq<Step> { StrongSteps(g, b, Sorted(b.byTrade.Keys)) }

  /** The whole assembly, as the fold of its steps. */
  function Assemble(g: Guards, b: Book): Merges
    requires BookOk(b)
  {
    Fold(g, Init(FactsOf(b)), FirstSteps(g, b) + WeakSteps(g, b))
  }

  // ---------------------------------------------------------------- the steps name known trades

  /** Only the strong stage proposes rebook links. */
  ghost predicate AllRebooks(steps: seq<Step>, strong: bool) {
    forall s :: s in steps && !s.Mark? ==> (s.link.kind == RebookOf) == strong
  }

  /** Known trades, and links that are strong or not as the stage says. */
  ghost predicate StageOk(ids: set<TradeId>, steps: seq<Step>, strong: bool) {
    AllWithin(ids, steps) && AllStrong(steps, strong) && AllRebooks(steps, strong)
  }

  lemma StageOkConcat(ids: set<TradeId>, steps: seq<Step>, more: seq<Step>, strong: bool)
    requires StageOk(ids, steps, strong) && StageOk(ids, more, strong)
    ensures StageOk(ids, steps + more, strong)
  {
  }

  lemma {:induction false} StrongStepsOk(g: Guards, b: Book, ts: seq<TradeId>)
    requires forall t :: t in ts ==> t in b.byTrade
    ensures StageOk(TradeIds(b), StrongSteps(g, b, ts), true)
  {
    if ts != [] {
      StrongStepsOk(g, b, ts[..|ts| - 1]);
      StageOkConcat(TradeIds(b), StrongSteps(g, b, ts[..|ts| - 1]), StrongStep(g, b, ts[|ts| - 1]), true);
    }
  }

  lemma {:induction false} OverlayStepsOk(ids: set<TradeId>, os: seq<Overlay>)
    ensures StageOk(ids, OverlaySteps(ids, os), false)
  {
    if os != [] {
      OverlayStepsOk(ids, os[..|os| - 1]);
      StageOkConcat(ids, OverlaySteps(ids, os[..|os| - 1]), OverlayStep(ids, os[|os| - 1]), false);
    }
  }

  lemma {:induction false} KeyMarksOk(g: Guards, b: Book, name: KeyName, ts: seq<TradeId>)
    requires BookOk(b) && forall t :: t in ts ==> t in b.byTrade
    ensures StageOk(TradeIds(b), KeyMarks(g, b, name, ts), false)
  {
    if ts != [] {
      KeyMarksOk(g, b, name, ts[..|ts| - 1]);
      StageOkConcat(TradeIds(b), KeyMarks(g, b, name, ts[..|ts| - 1]), KeyMark(g, b, name, ts[|ts| - 1]), false);
    }
  }

  lemma {:induction false} HubMarksOk(ids: set<TradeId>, name: KeyName, ts: seq<TradeId>)
    ensures StageOk(ids, HubMarks(name, ts), false)
  {
    if ts != [] { HubMarksOk(ids, name, ts[..|ts| - 1]); }
  }

  lemma {:induction false} AttachStepsOk(g: Guards, f: Facts, name: KeyName, anchor: TradeId, ts: seq<TradeId>)
    requires anchor in f.first && forall t :: t in ts ==> t in f.first
    ensures StageOk(f.first.Keys, AttachSteps(g, f, name, anchor, ts), false)
  {
    if ts != [] {
      AttachStepsOk(g, f, name, anchor, ts[..|ts| - 1]);
      StageOkConcat(f.first.Keys, AttachSteps(g, f, name, anchor, ts[..|ts| - 1]), AttachStep(g, f, name, anchor, ts[|ts| - 1]), false);
    }
  }

  lemma ValueStepsOk(g: Guards, f: Facts, name: KeyName, holders: set<TradeId>)
    requires holders != {} && holders <= f.first.Keys
    ensures StageOk(f.first.Keys, ValueSteps(g, f, name, holders), false)
  {
    var ts := Sorted(holders);
    assert Least(holders) in ts;
    HubMarksOk(f.first.Keys, name, ts);
    AttachStepsOk(g, f, name, ts[0], ts[1..]);
  }

  lemma {:induction false} IndexStepsOk(g: Guards, f: Facts, name: KeyName, index: map<nat, set<TradeId>>, vs: seq<nat>)
    requires IndexOk(f, index) && forall v :: v in vs ==> v in index
    ensures StageOk(f.first.Keys, IndexSteps(g, f, name, index, vs), false)
  {
    if vs != [] {
      var v := vs[|vs| - 1];
      IndexStepsOk(g, f, name, index, vs[..|vs| - 1]);
      ValueStepsOk(g, f, name, index[v]);
      StageOkConcat(f.first.Keys, IndexSteps(g, f, name, index, vs[..|vs| - 1]), ValueSteps(g, f, name, index[v]), false);
    }
  }

  lemma FactsCoverTrades(b: Book)
    requires BookOk(b)
    ensures FactsOk(FactsOf(b)) && FactsOf(b).first.Keys == TradeIds(b)
  {
  }

  lemma KeyStepsOk(g: Guards, b: Book, name: KeyName)
    requires BookOk(b)
    ensures StageOk(TradeIds(b), KeySteps(g, b, name), false)
  {
    var index, ts, f := Index(g, b, name, b.byTrade.Keys), Sorted(b.byTrade.Keys), FactsOf(b);
    IndexIsOk(g, b, name);
    FactsCoverTrades(b);
    KeyMarksOk(g, b, name, ts);
    IndexStepsOk(g, f, name, index, Sorted(index.Keys));
    StageOkConcat(TradeIds(b), KeyMarks(g, b, name, ts), IndexSteps(g, f, name, index, Sorted(index.Keys)), false);
  }

  lemma WeakStepsOk(g: Guards, b: Book)
    requires BookOk(b)
    ensures StageOk(TradeIds(b), WeakSteps(g, b), false)
  {
    var ids := TradeIds(b);
    OverlayStepsOk(ids, b.overlay);
    KeyStepsOk(g, b, UrnRef);
    KeyStepsOk(g, b, AlternateTradeId);
    StageOkConcat(ids, OverlaySteps(ids, b.overlay), KeySteps(g, b, UrnRef), false);
    StageOkConcat(ids, OverlaySteps(ids, b.overlay) + KeySteps(g, b, UrnRef), KeySteps(g, b, AlternateTradeId), false);
  }

  lemma StagesAreGood(g: Guards, f: Facts, strong: seq<Step>, weak: seq<Step>)
    requires FactsOk(f) && StageOk(f.first.Keys, strong, true) && StageOk(f.first.Keys, weak, false)
    ensures var n := Fold(g, Init(f), strong + weak); Good(g, f, n) && n.rep.Keys == f.first.Keys && CoresUniform(f, n)
  {
    TwoStages(g, f, strong, weak);
  }

  /** The finished assembly keeps every invariant of the fold. */
  lemma AssemblyIsGood(g: Guards, b: Book)
    requires BookOk(b)
    ensures var n := Assemble(g, b);
            Good(g, FactsOf(b), n) && n.rep.Keys == TradeIds(b) && CoresUniform(FactsOf(b), n)
  {
    FactsCoverTrades(b);
    StrongStepsOk(g, b, Sorted(b.byTrade.Keys));
    WeakStepsOk(g, b);
    StagesAreGood(g, FactsOf(b), FirstSteps(g, b), WeakSteps(g, b));
  }

  // ---------------------------------------------------------------- the episodes

  datatype Episode = Episode(trades: seq<TradeId>, alerts: seq<AlertRow>, links: seq<Link>, rejected: seq<Rejection>, flags: set<Flag>)

  function AlertIn(ts: set<TradeId>): AlertRow -> bool { (a: AlertRow) => a.trade in ts }
  function LinkIn(ts: set<TradeId>): Link -> bool { (l: Link) => l.src in ts }
  function RejectionIn(ts: set<TradeId>): Rejection -> bool { (r: Rejection) => r.link.src in ts || r.link.dst in ts }

  function EpisodeOf(b: Book, m: Merges, ts: set<TradeId>): Episode {
    Episode(Sorted(ts),
            Filter(b.alerts, AlertIn(ts)),
            Filter(m.accepted, LinkIn(ts)),
            Filter(m.rejected, RejectionIn(ts)),
            set p | p in m.flags && p.0 in ts :: p.1)
  }

  /** The episodes, by the smallest id of their trades. */
  function Episodes(b: Book, m: Merges): map<TradeId, Episode> {
    map t | t in m.rep :: m.rep[t] := EpisodeOf(b, m, Members(m.rep, m.rep[t]))
  }

  // ---------------------------------------------------------------- what the episodes promise

  /** Two trades share an episode exactly when accepted links connect them. */
  lemma EpisodesAreComponents(g: Guards, b: Book, x: TradeId, y: TradeId)
    requires BookOk(b) && x in TradeIds(b) && y in TradeIds(b)
    ensures var m := Assemble(g, b);
            && m.rep.Keys == TradeIds(b)
            && (y in Episodes(b, m)[m.rep[x]].trades <==> Connected(m.accepted, x, y))
  {
    var m := Assemble(g, b);
    AssemblyIsGood(g, b);
    SameSetIffConnected(g, FactsOf(b), m, x, y);
    assert y in Members(m.rep, m.rep[x]) <==> m.rep[y] == m.rep[x];
  }

  /** The episodes found at a representative. */
  lemma EpisodeAt(b: Book, m: Merges, r: TradeId)
    requires Representatives(m.rep)
    ensures r in Episodes(b, m) <==> r in m.rep && m.rep[r] == r
    ensures r in Episodes(b, m) ==> Episodes(b, m)[r] == EpisodeOf(b, m, Members(m.rep, r))
  {
    if r in m.rep && m.rep[r] == r { assert m.rep[r] in Episodes(b, m); }
  }

  /** A trade is listed by the episode of its representative and no other. */
  lemma TradeListedOnce(b: Book, m: Merges, t: TradeId, r: TradeId)
    requires Representatives(m.rep) && t in m.rep
    ensures m.rep[t] in Episodes(b, m)
    ensures r in Episodes(b, m) ==> (t in Episodes(b, m)[r].trades <==> r == m.rep[t])
  {
    EpisodeAt(b, m, m.rep[t]);
    EpisodeAt(b, m, r);
  }

  lemma AlertListedOnce(b: Book, m: Merges, a: AlertRow, r: TradeId)
    requires Representatives(m.rep) && a in b.alerts && a.trade in m.rep
    ensures m.rep[a.trade] in Episodes(b, m)
    ensures r in Episodes(b, m) ==> (a in Episodes(b, m)[r].alerts <==> r == m.rep[a.trade])
  {
    EpisodeAt(b, m, m.rep[a.trade]);
    EpisodeAt(b, m, r);
  }

  /** An episode is filed under its smallest trade, and its links stay inside it. */
  lemma EpisodeIsClosed(b: Book, m: Merges, r: TradeId)
    requires Representatives(m.rep) && Components(m.rep, m.accepted) && r in Episodes(b, m)
    ensures var e := Episodes(b, m)[r];
            && e.trades != [] && e.trades[0] == r && Ascending(e.trades)
            && (forall l :: l in e.links <==> l in m.accepted && l.src in e.trades)
            && (forall l :: l in e.links ==> l.dst in e.trades)
  {
    EpisodeAt(b, m, r);
    FirstIsSmallest(Members(m.rep, r), r);
  }

  /** An episode lists every refused link that ends in it, on either side, and carries exactly the
      flags of its trades. */
  lemma EpisodeCarriesRefusals(b: Book, m: Merges, r: TradeId, x: Rejection, q: Flag)
    requires Representatives(m.rep) && r in Episodes(b, m)
    ensures var e := Episodes(b, m)[r];
            && (x in e.rejected <==> x in m.rejected && (x.link.src in e.trades || x.link.dst in e.trades))
            && (q in e.flags <==> exists t :: t in e.trades && (t, q) in m.flags)
  {
    EpisodeAt(b, m, r);
    var e := Episodes(b, m)[r];
    assert forall t :: t in e.trades <==> t in Members(m.rep, r);
    if q in e.flags {
      var p :| p in m.flags && p.0 in e.trades && p.1 == q;
      assert (p.0, q) in m.flags;
    }
  }

  lemma FirstIsSmallest(ts: set<TradeId>, r: TradeId)
    requires r in ts && forall t :: t in ts ==> r <= t
    ensures Sorted(ts) != [] && Sorted(ts)[0] == r
  {
    assert r in Sorted(ts);
    assert forall i :: 0 <= i < |Sorted(ts)| ==> Sorted(ts)[i] in Sorted(ts);
  }

  /** `r` is the one episode that satisfies `holds`. */
  ghost predicate OnlyAt(es: map<TradeId, Episode>, r: TradeId, holds: Episode -> bool) {
    r in es && forall s :: s in es ==> (holds(es[s]) <==> s == r)
  }

  function Lists(t: TradeId): Episode -> bool { (e: Episode) => t in e.trades }
  function ListsAlert(a: AlertRow): Episode -> bool { (e: Episode) => a in e.alerts }

  lemma TradeInOneEpisode(b: Book, m: Merges, t: TradeId)
    requires Representatives(m.rep) && t in m.rep
    ensures OnlyAt(Episodes(b, m), m.rep[t], Lists(t))
  {
    forall s | s in Episodes(b, m) ensures Lists(t)(Episodes(b, m)[s]) <==> s == m.rep[t] { TradeListedOnce(b, m, t, s); }
    TradeListedOnce(b, m, t, t);
  }

  lemma AlertInOneEpisode(b: Book, m: Merges, a: AlertRow)
    requires Representatives(m.rep) && a in b.alerts && a.trade in m.rep
    ensures OnlyAt(Episodes(b, m), m.rep[a.trade], ListsAlert(a))
  {
    forall s | s in Episodes(b, m) ensures ListsAlert(a)(Episodes(b, m)[s]) <==> s == m.rep[a.trade] { AlertListedOnce(b, m, a, s); }
    AlertListedOnce(b, m, a, a.trade);
  }

  /** Every trade and every alert is in exactly one episode. */
  lemma EpisodesPartition(g: Guards, b: Book)
    requires BookOk(b)
    ensures forall t :: t in TradeIds(b) ==> exists r :: OnlyAt(Episodes(b, Assemble(g, b)), r, Lists(t))
    ensures forall a :: a in b.alerts ==> exists r :: OnlyAt(Episodes(b, Assemble(g, b)), r, ListsAlert(a))
  {
    var m := Assemble(g, b);
    AssemblyIsGood(g, b);
    forall t | t in TradeIds(b) ensures exists r :: OnlyAt(Episodes(b, m), r, Lists(t)) { TradeInOneEpisode(b, m, t); }
    forall a | a in b.alerts ensures exists r :: OnlyAt(Episodes(b, m), r, ListsAlert(a)) { AlertInOneEpisode(b, m, a); }
  }

  /** In an episode of two trades or more, no trade ends further than the limit after any other
      (or itself) begins. */
  lemma SpanIsBounded(g: Guards, b: Book, x: TradeId, y: TradeId, z: TradeId)
    requires BookOk(b) && x in TradeIds(b) && y in TradeIds(b) && z in TradeIds(b) && y != z
    requires Connected(Assemble(g, b).accepted, x, y) && Connected(Assemble(g, b).accepted, x, z)
    ensures FactsOf(b).last[x] - FactsOf(b).first[y] <= g.maxSpan
  {
    var m, f := Assemble(g, b), FactsOf(b);
    AssemblyIsGood(g, b);
    SameSetIffConnected(g, f, m, x, y);
    SameSetIffConnected(g, f, m, x, z);
    SpanCovers(g, f, m, x);
    SpanCovers(g, f, m, y);
    SharedSpan(g, f, m, y, z);
  }

  /** All strong-lineage cores inside one episode have the same instruments. */
  lemma CoresShareInstruments(g: Guards, b: Book, x: TradeId, y: TradeId)
    requires BookOk(b) && x in TradeIds(b) && y in TradeIds(b) && Connected(Assemble(g, b).accepted, x, y)
    ensures var strong := Filter(Assemble(g, b).accepted, IsStrong);
            InstrumentsOf(FactsOf(b), CoreOf(TradeIds(b), strong, x)) == InstrumentsOf(FactsOf(b), CoreOf(TradeIds(b), strong, y))
  {
    AssemblyIsGood(g, b);
    SameSetIffConnected(g, FactsOf(b), Assemble(g, b), x, y);
  }

  /** Every link any stage proposes ends up accepted or rejected, exactly once. */
  lemma NoLinkIsLost(g: Guards, b: Book)
    requires BookOk(b)
    ensures Recorded(Assemble(g, b)) == multiset(LinksOf(FirstSteps(g, b) + WeakSteps(g, b)))
  {
    var f := FactsOf(b);
    FactsCoverTrades(b);
    InitIsGood(g, f);
    StrongStepsOk(g, b, Sorted(b.byTrade.Keys));
    WeakStepsOk(g, b);
    EveryCandidateIsRecorded(g, Init(f), FirstSteps(g, b) + WeakSteps(g, b));
  }

  // ---------------------------------------------------------------- input order

  /** No two events of a trade share version and time, no two alerts an id, no two confirmed
      links a pair. */
  ghost predicate Identified(events: seq<Event>, alerts: seq<AlertRow>, overlay: seq<Overlay>) {
    && (forall t :: KeysIdentify(multiset(Filter(events, OfTrade(t))), EventKey))
    && KeysIdentify(multiset(alerts), AlertKey)
    && KeysIdentify(multiset(overlay), OverlayKey)
  }

  lemma SameLifecycles(events: seq<Event>, events': seq<Event>, t: TradeId)
    requires multiset(events) == multiset(events') && KeysIdentify(multiset(Filter(events, OfTrade(t))), EventKey)
    ensures LifecycleOf(events, t) == LifecycleOf(events', t)
  {
    FilterOfPermutation(events, events', OfTrade(t));
    SortIsOrderFree(Filter(events, OfTrade(t)), Filter(events', OfTrade(t)), EventKey);
  }

  /** Reordering the inputs changes nothing that is assembled from them. */
  lemma BookIsOrderFree(events: seq<Event>, alerts: seq<AlertRow>, overlay: seq<Overlay>,
                        events': seq<Event>, alerts': seq<AlertRow>, overlay': seq<Overlay>)
    requires multiset(events) == multiset(events') && multiset(alerts) == multiset(alerts') && multiset(overlay) == multiset(overlay')
    requires Identified(events, alerts, overlay)
    ensures BookOf(events, alerts, overlay) == BookOf(events', alerts', overlay')
  {
    SortIsOrderFree(alerts, alerts', AlertKey);
    SortIsOrderFree(overlay, overlay', OverlayKey);
    var own, own' := BookOf(events, alerts, overlay).byTrade, BookOf(events', alerts', overlay').byTrade;
    assert forall e :: e in events <==> e in multiset(events);
    assert forall e :: e in events' <==> e in multiset(events');
    forall t | t in own ensures own[t] == own'[t] {
      SameLifecycles(events, events', t);
    }
  }
}
