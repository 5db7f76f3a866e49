/** Which links an assembly tries, which it refuses, and that every refusal is justified. */
module EpisodeLinks {
  import opened Seqs
  import opened Trades
  import opened Linking
  import opened EpisodeAssembly

  // ---------------------------------------------------------------- times and instruments

  /** A trade spans its events, or its alerts when it has no event, and has the instrument of
      its first event. */
  lemma FactsMeaning(b: Book, t: TradeId)
    requires BookOk(b) && t in TradeIds(b)
    ensures var f := FactsOf(b);
            if t in b.byTrade then
              && f.own[t] == {b.byTrade[t][0].instrument}
              && (exists e :: e in b.byTrade[t] && e.time == f.first[t]) && (exists e :: e in b.byTrade[t] && e.time == f.last[t])
              && forall e :: e in b.byTrade[t] ==> f.first[t] <= e.time <= f.last[t]
            else
              && f.own[t] == {}
              && (exists a :: a in b.alerts && a.trade == t && a.time == f.first[t])
              && (exists a :: a in b.alerts && a.trade == t && a.time == f.last[t])
              && forall a :: a in b.alerts && a.trade == t ==> f.first[t] <= a.time <= f.last[t]
  {
    var f, times := FactsOf(b), Times(b, t);
    assert f.first[t] == Earliest(times) && f.last[t] == Latest(times);
    if t in b.byTrade {
      EventTimesMembers(b.byTrade[t]);
    } else {
      AlertTimesMembers(Filter(b.alerts, AlertOf(t)));
      assert forall a :: a in Filter(b.alerts, AlertOf(t)) <==> a in b.alerts && a.trade == t;
    }
  }

  lemma EventTimesMembers(es: seq<Event>)
    ensures forall x :: x in EventTimes(es) <==> exists e :: e in es && e.time == x
    ensures forall e :: e in es ==> e.time in EventTimes(es)
  {
    forall e | e in es ensures e.time in EventTimes(es) {
      var i :| 0 <= i < |es| && es[i] == e;
      assert EventTimes(es)[i] == e.time;
    }
  }

  lemma AlertTimesMembers(xs: seq<AlertRow>)
    ensures forall x :: x in AlertTimes(xs) <==> exists a :: a in xs && a.time == x
    ensures forall a :: a in xs ==> a.time in AlertTimes(xs)
  {
    forall a | a in xs ensures a.time in AlertTimes(xs) {
      var i :| 0 <= i < |xs| && xs[i] == a;
      assert AlertTimes(xs)[i] == a.time;
    }
  }

  // ---------------------------------------------------------------- what the events call for

  /** The first original id that any event carries. */
  ghost predicate FirstOriginal(es: seq<Event>, o: nat) {
    exists i :: 0 <= i < |es| && es[i].original == Some(o) && forall j :: 0 <= j < i ==> es[j].original.None?
  }

  lemma {:induction false} OriginalMeaning(es: seq<Event>, o: nat)
    ensures Original(es) == Some(o) <==> FirstOriginal(es, o)
  {
    if es != [] {
      OriginalMeaning(es[1..], o);
      if es[0].original.None? {
        if FirstOriginal(es[1..], o) {
          var i :| 0 <= i < |es[1..]| && es[1..][i].original == Some(o) && forall j :: 0 <= j < i ==> es[1..][j].original.None?;
          assert es[i + 1].original == Some(o);
          forall j | 0 <= j < i + 1 ensures es[j].original.None? { if j > 0 { assert es[1..][j - 1].original.None?; } }
        }
        if FirstOriginal(es, o) {
          var i :| 0 <= i < |es| && es[i].original == Some(o) && forall j :: 0 <= j < i ==> es[j].original.None?;
          assert es[1..][i - 1].original == Some(o);
        }
      }
    }
  }

  /** Lineage: a trade that names another known trade as its original; an original that is no
      id or nobody's is marked instead. */
  ghost predicate DueLineage(g: Guards, b: Book, s: Step) {
    exists t, o :: t in b.byTrade && FirstOriginal(b.byTrade[t], o) && o != t && s == LineageStep(g, b, t, o)
  }

  function LineageStep(g: Guards, b: Book, t: TradeId, o: nat): Step {
    if o in g.degenerate then Mark(t, DegenerateOriginal)
    else if o !in b.byTrade then Mark(t, DanglingOriginal)
    else Try(Link(t, o, RebookOf, Strong))
  }

  /** Confirmation: a canonical link between known trades. */
  ghost predicate DueOverlay(b: Book, s: Step) {
    exists o :: o in b.overlay && o.canonical && o.src in TradeIds(b) && o.dst in TradeIds(b) && s == Try(Link(o.src, o.dst, AgentLink, Agent))
  }

  function KeyOf(b: Book, name: KeyName, t: TradeId): Option<nat>
    requires BookOk(b) && t in b.byTrade
  {
    match name
    case UrnRef => b.byTrade[t][0].urn
    case AlternateTradeId => b.byTrade[t][0].alternate
  }

  /** The first event carries a key that means something, and this is its value. */
  ghost predicate HasKey(g: Guards, b: Book, name: KeyName, v: nat, t: TradeId)
    requires BookOk(b)
  {
    t in b.byTrade && KeyOf(b, name, t).Some? && KeyOf(b, name, t).value !in g.degenerate && g.strip(KeyOf(b, name, t).value) == v
  }

  /** Filed under the value: those that carry it, and the trade an alternate id names. */
  ghost predicate Shares(g: Guards, b: Book, name: KeyName, v: nat, t: TradeId)
    requires BookOk(b)
  {
    HasKey(g, b, name, v, t) || (name == AlternateTradeId && t == v && t in b.byTrade && exists u :: HasKey(g, b, name, v, u))
  }

  ghost function Group(g: Guards, b: Book, name: KeyName, v: nat): set<TradeId>
    requires BookOk(b)
  {
    set t | t in b.byTrade && Shares(g, b, name, v, t)
  }

  /** The smallest id of the group. */
  ghost predicate Anchors(g: Guards, b: Book, name: KeyName, v: nat, a: TradeId)
    requires BookOk(b)
  {
    Shares(g, b, name, v, a) && forall t :: Shares(g, b, name, v, t) ==> a <= t
  }

  /** The trades begin further apart than keys may reach. */
  predicate Apart(g: Guards, f: Facts, l: Link)
    requires l.src in f.first && l.dst in f.first
  {
    f.first[l.src] - f.first[l.dst] > g.mediumGap || f.first[l.dst] - f.first[l.src] > g.mediumGap
  }

  /** A shared key: the others of a group join its anchor, if they begin close enough; a group
      that is too large is marked instead, as is a key that means nothing. */
  ghost predicate DueKey(g: Guards, b: Book, name: KeyName, s: Step)
    requires BookOk(b)
  {
    || (exists t :: Meaningless(g, b, name, t) && s == Mark(t, DegenerateKey(name)))
    || (exists v :: DueHub(g, b, name, v, s))
    || (exists v :: DueJoin(g, b, name, v, s))
  }

  ghost predicate DueHub(g: Guards, b: Book, name: KeyName, v: nat, s: Step)
    requires BookOk(b)
  {
    |Group(g, b, name, v)| > g.maxFanout && exists t :: Shares(g, b, name, v, t) && s == Mark(t, HubDemoted(name))
  }

  ghost predicate DueJoin(g: Guards, b: Book, name: KeyName, v: nat, s: Step)
    requires BookOk(b)
  {
    exists t, a :: Joins(g, b, name, v, t, a) && s == KeyStep(g, b, name, t, a)
  }

  predicate Meaningless(g: Guards, b: Book, name: KeyName, t: TradeId)
    requires BookOk(b)
  {
    t in b.byTrade && KeyOf(b, name, t).Some? && KeyOf(b, name, t).value in g.degenerate
  }

  ghost predicate Joins(g: Guards, b: Book, name: KeyName, v: nat, t: TradeId, a: TradeId)
    requires BookOk(b)
  {
    Shares(g, b, name, v, t) && Anchors(g, b, name, v, a) && t != a && |Group(g, b, name, v)| <= g.maxFanout
  }

  function KeyLink(name: KeyName, t: TradeId, a: TradeId): Link {
    Link(t, a, if name == UrnRef then SharedUrn else AlternateId, Medium)
  }

  function GroupStep(g: Guards, f: Facts, name: KeyName, t: TradeId, a: TradeId): Step
    requires t in f.first && a in f.first
  {
    if Apart(g, f, KeyLink(name, t, a)) then TooFar(KeyLink(name, t, a)) else Try(KeyLink(name, t, a))
  }

  function KeyStep(g: Guards, b: Book, name: KeyName, t: TradeId, a: TradeId): Step
    requires BookOk(b) && t in b.byTrade && a in b.byTrade
  {
    FactsCoverTrades(b);
    GroupStep(g, FactsOf(b), name, t, a)
  }

  function Steps(g: Guards, b: Book): seq<Step>
    requires BookOk(b)
  {
    FirstSteps(g, b) + WeakSteps(g, b)
  }

  lemma {:induction false} StrongMembers(g: Guards, b: Book, ts: seq<TradeId>, s: Step)
    requires forall t :: t in ts ==> t in b.byTrade
    ensures s in StrongSteps(g, b, ts) <==> exists t :: t in ts && s in StrongStep(g, b, t)
  {
    if ts != [] {
      assert ts == ts[..|ts| - 1] + [ts[|ts| - 1]];
      StrongMembers(g, b, ts[..|ts| - 1], s);
    }
  }

  lemma LineageAt(g: Guards, b: Book, t: TradeId, s: Step)
    requires t in b.byTrade
    ensures s in StrongStep(g, b, t) <==> exists o :: FirstOriginal(b.byTrade[t], o) && o != t && s == LineageStep(g, b, t, o)
  {
    forall o: nat ensures Original(b.byTrade[t]) == Some(o) <==> FirstOriginal(b.byTrade[t], o) { OriginalMeaning(b.byTrade[t], o); }
    if s in StrongStep(g, b, t) {
      var o := Original(b.byTrade[t]).value;
      assert FirstOriginal(b.byTrade[t], o) && o != t && s == LineageStep(g, b, t, o);
    }
  }

  lemma LineageMeaning(g: Guards, b: Book, s: Step)
    ensures s in FirstSteps(g, b) <==> DueLineage(g, b, s)
  {
    StrongMembers(g, b, Sorted(b.byTrade.Keys), s);
    forall t | t in b.byTrade
      ensures s in StrongStep(g, b, t) <==> exists o :: FirstOriginal(b.byTrade[t], o) && o != t && s == LineageStep(g, b, t, o)
    {
      LineageAt(g, b, t, s);
    }
    assert forall t :: t in Sorted(b.byTrade.Keys) <==> t in b.byTrade;
  }

  lemma {:induction false} OverlayMembers(ids: set<TradeId>, os: seq<Overlay>, s: Step)
    ensures s in OverlaySteps(ids, os) <==> exists o :: o in os && s in OverlayStep(ids, o)
  {
    if os != [] {
      assert os == os[..|os| - 1] + [os[|os| - 1]];
      OverlayMembers(ids, os[..|os| - 1], s);
    }
  }

  lemma {:induction false} KeyMarksMembers(g: Guards, b: Book, name: KeyName, ts: seq<TradeId>, s: Step)
    requires BookOk(b) && forall t :: t in ts ==> t in b.byTrade
    ensures s in KeyMarks(g, b, name, ts) <==> exists t :: t in ts && s in KeyMark(g, b, name, t)
  {
    if ts != [] {
      assert ts == ts[..|ts| - 1] + [ts[|ts| - 1]];
      KeyMarksMembers(g, b, name, ts[..|ts| - 1], s);
    }
  }

  lemma {:induction false} HubMarksMembers(name: KeyName, ts: seq<TradeId>, s: Step)
    ensures s in HubMarks(name, ts) <==> exists t :: t in ts && s == Mark(t, HubDemoted(name))
  {
    if ts != [] {
      assert ts == ts[..|ts| - 1] + [ts[|ts| - 1]];
      HubMarksMembers(name, ts[..|ts| - 1], s);
    }
  }

  lemma {:induction false} AttachMembers(g: Guards, f: Facts, name: KeyName, anchor: TradeId, ts: seq<TradeId>, s: Step)
    requires anchor in f.first && forall t :: t in ts ==> t in f.first
    ensures s in AttachSteps(g, f, name, anchor, ts) <==> exists t :: t in ts && s in AttachStep(g, f, name, anchor, t)
  {
    if ts != [] {
      assert ts == ts[..|ts| - 1] + [ts[|ts| - 1]];
      AttachMembers(g, f, name, anchor, ts[..|ts| - 1], s);
    }
  }

  lemma {:induction false} IndexStepsMembers(g: Guards, f: Facts, name: KeyName, index: map<nat, set<TradeId>>, vs: seq<nat>, s: Step)
    requires IndexOk(f, index) && forall v :: v in vs ==> v in index
    ensures s in IndexSteps(g, f, name, index, vs) <==> exists v :: v in vs && s in ValueSteps(g, f, name, index[v])
  {
    if vs != [] {
      assert vs == vs[..|vs| - 1] + [vs[|vs| - 1]];
      IndexStepsMembers(g, f, name, index, vs[..|vs| - 1], s);
    }
  }

  lemma {:induction false} SortedSize(s: set<nat>)
    ensures |Sorted(s)| == |s|
  {
    if s != {} { SortedSize(s - {Least(s)}); }
  }

  lemma SortedFirst(s: set<nat>)
    requires s != {}
    ensures Sorted(s) != [] && Sorted(s)[0] == Least(s)
    ensures forall t :: t in Sorted(s)[1..] <==> t in s && t != Least(s)
  {
  }

  /** What one group calls for. */
  ghost predicate DueGroup(g: Guards, f: Facts, name: KeyName, holders: set<TradeId>, s: Step)
    requires holders != {} && holders <= f.first.Keys
  {
    if |holders| > g.maxFanout then exists t :: t in holders && s == Mark(t, HubDemoted(name))
    else exists t :: t in holders && t != Least(holders) && s == GroupStep(g, f, name, t, Least(holders))
  }

  lemma ValueStepsMeaning(g: Guards, f: Facts, name: KeyName, holders: set<TradeId>, s: Step)
    requires holders != {} && holders <= f.first.Keys
    ensures s in ValueSteps(g, f, name, holders) <==> DueGroup(g, f, name, holders, s)
  {
    SortedSize(holders);
    SortedFirst(holders);
    if |holders| > g.maxFanout {
      HubMarksMembers(name, Sorted(holders), s);
    } else {
      AttachMeaning(g, f, name, Least(holders), Sorted(holders)[1..], holders, s);
    }
  }

  lemma AttachAt(g: Guards, f: Facts, name: KeyName, a: TradeId, t: TradeId, s: Step)
    requires a in f.first && t in f.first
    ensures s in AttachStep(g, f, name, a, t) <==> s == GroupStep(g, f, name, t, a)
  {
  }

  lemma AttachMeaning(g: Guards, f: Facts, name: KeyName, a: TradeId, ts: seq<TradeId>, holders: set<TradeId>, s: Step)
    requires a in f.first && holders <= f.first.Keys && forall t :: t in ts <==> t in holders && t != a
    ensures s in AttachSteps(g, f, name, a, ts) <==> exists t :: t in holders && t != a && s == GroupStep(g, f, name, t, a)
  {
    AttachMembers(g, f, name, a, ts, s);
    forall t | t in ts ensures s in AttachStep(g, f, name, a, t) <==> s == GroupStep(g, f, name, t, a) { AttachAt(g, f, name, a, t, s); }
  }

  lemma HoldersMeaning(g: Guards, b: Book, name: KeyName, v: nat)
    requires BookOk(b)
    ensures var index := Index(g, b, name, b.byTrade.Keys);
            && (v in index <==> exists t :: HasKey(g, b, name, v, t))
            && (v in index ==> index[v] == Group(g, b, name, v))
  {
    forall t | t in b.byTrade ensures UsableValue(g, b, name, t) == Some(v) <==> HasKey(g, b, name, v, t) {}
    var index := Index(g, b, name, b.byTrade.Keys);
    if v in index {
      var t :| t in b.byTrade && UsableValue(g, b, name, t) == Some(v);
      assert HasKey(g, b, name, v, t);
      HoldersAreGroup(g, b, name, v, t);
    }
    if t :| HasKey(g, b, name, v, t) { assert UsableValue(g, b, name, t) == Some(v); }
  }

  lemma HoldersAreGroup(g: Guards, b: Book, name: KeyName, v: nat, t: TradeId)
    requires BookOk(b) && HasKey(g, b, name, v, t)
    ensures Holders(g, b, name, b.byTrade.Keys, v) == Group(g, b, name, v)
  {
    var own := set u | u in b.byTrade.Keys && UsableValue(g, b, name, u) == Some(v);
    assert t in own;
    forall u ensures u in own <==> HasKey(g, b, name, v, u) {}
  }

  lemma GroupMembers(g: Guards, b: Book, name: KeyName, v: nat)
    requires BookOk(b)
    ensures forall t :: t in Group(g, b, name, v) <==> Shares(g, b, name, v, t)
    ensures Group(g, b, name, v) != {} ==> Anchors(g, b, name, v, Least(Group(g, b, name, v)))
  {
  }

  lemma KeyMeaning(g: Guards, b: Book, name: KeyName, s: Step)
    requires BookOk(b)
    ensures s in KeySteps(g, b, name) <==> DueKey(g, b, name, s)
  {
    IndexIsOk(g, b, name);
    MarksMeaning(g, b, name, s);
    IndexedMeaning(g, b, name, Index(g, b, name, b.byTrade.Keys), s);
    GroupsMeaning(g, b, name, s);
  }

  lemma MarkAt(g: Guards, b: Book, name: KeyName, t: TradeId, s: Step)
    requires BookOk(b) && t in b.byTrade
    ensures s in KeyMark(g, b, name, t) <==> Meaningless(g, b, name, t) && s == Mark(t, DegenerateKey(name))
  {
  }

  lemma MarksMeaning(g: Guards, b: Book, name: KeyName, s: Step)
    requires BookOk(b)
    ensures s in KeyMarks(g, b, name, Sorted(b.byTrade.Keys)) <==> exists t :: Meaningless(g, b, name, t) && s == Mark(t, DegenerateKey(name))
  {
    KeyMarksMembers(g, b, name, Sorted(b.byTrade.Keys), s);
    forall t | t in b.byTrade
      ensures s in KeyMark(g, b, name, t) <==> Meaningless(g, b, name, t) && s == Mark(t, DegenerateKey(name)) { MarkAt(g, b, name, t, s); }
    assert forall t :: t in Sorted(b.byTrade.Keys) <==> t in b.byTrade;
  }

  lemma HubIsDue(g: Guards, b: Book, name: KeyName, v: nat, s: Step)
    requires BookOk(b) && Group(g, b, name, v) != {} && |Group(g, b, name, v)| > g.maxFanout
    ensures DueGroup(g, FactsOf(b), name, Group(g, b, name, v), s) <==> DueHub(g, b, name, v, s)
  {
    GroupMembers(g, b, name, v);
  }

  lemma SameStep(g: Guards, b: Book, name: KeyName, t: TradeId, a: TradeId)
    requires BookOk(b) && t in b.byTrade && a in b.byTrade
    ensures t in FactsOf(b).first && a in FactsOf(b).first
    ensures KeyStep(g, b, name, t, a) == GroupStep(g, FactsOf(b), name, t, a)
  {
    FactsCoverTrades(b);
  }

  lemma GroupJoins(g: Guards, b: Book, name: KeyName, v: nat, s: Step, f: Facts, group: set<TradeId>)
    requires BookOk(b) && f == FactsOf(b) && group == Group(g, b, name, v) && group != {} && |group| <= g.maxFanout
    requires group <= f.first.Keys && DueGroup(g, f, name, group, s)
    ensures DueJoin(g, b, name, v, s)
  {
    var t :| t in group && t != Least(group) && s == GroupStep(g, f, name, t, Least(group));
    JoinsMeaning(g, b, name, v, t, Least(group));
    SameStep(g, b, name, t, Least(group));
  }

  lemma JoinGroups(g: Guards, b: Book, name: KeyName, v: nat, s: Step, f: Facts, group: set<TradeId>)
    requires BookOk(b) && f == FactsOf(b) && group == Group(g, b, name, v) && group != {} && |group| <= g.maxFanout
    requires group <= f.first.Keys && DueJoin(g, b, name, v, s)
    ensures DueGroup(g, f, name, group, s)
  {
    var t, a :| Joins(g, b, name, v, t, a) && s == KeyStep(g, b, name, t, a);
    JoinsMeaning(g, b, name, v, t, a);
    SameStep(g, b, name, t, a);
  }

  lemma JoinIsDue(g: Guards, b: Book, name: KeyName, v: nat, s: Step, group: set<TradeId>)
    requires BookOk(b) && group == Group(g, b, name, v) && group != {} && |group| <= g.maxFanout
    ensures group <= FactsOf(b).first.Keys
    ensures DueGroup(g, FactsOf(b), name, group, s) <==> DueJoin(g, b, name, v, s)
  {
    FactsCoverTrades(b);
    if DueGroup(g, FactsOf(b), name, group, s) { GroupJoins(g, b, name, v, s, FactsOf(b), group); }
    if DueJoin(g, b, name, v, s) { JoinGroups(g, b, name, v, s, FactsOf(b), group); }
  }

  /** What the group of one value calls for, in terms of its members. */
  lemma GroupIsDue(g: Guards, b: Book, name: KeyName, v: nat, s: Step)
    requires BookOk(b) && Group(g, b, name, v) != {}
    ensures DueGroup(g, FactsOf(b), name, Group(g, b, name, v), s) <==> DueHub(g, b, name, v, s) || DueJoin(g, b, name, v, s)
  {
    if |Group(g, b, name, v)| > g.maxFanout {
      HubIsDue(g, b, name, v, s);
    } else {
      JoinIsDue(g, b, name, v, s, Group(g, b, name, v));
    }
  }

  lemma JoinsMeaning(g: Guards, b: Book, name: KeyName, v: nat, t: TradeId, a: TradeId)
    requires BookOk(b) && Group(g, b, name, v) != {}
    ensures Joins(g, b, name, v, t, a) <==>
            t in Group(g, b, name, v) && t != a && a == Least(Group(g, b, name, v)) && |Group(g, b, name, v)| <= g.maxFanout
  {
    GroupMembers(g, b, name, v);
    if Joins(g, b, name, v, t, a) { assert a in Group(g, b, name, v); }
  }

  lemma GroupsMeaning(g: Guards, b: Book, name: KeyName, s: Step)
    requires BookOk(b)
    ensures DueKey(g, b, name, s) <==>
      || (exists t :: Meaningless(g, b, name, t) && s == Mark(t, DegenerateKey(name)))
      || (exists v :: Group(g, b, name, v) != {} && DueGroup(g, FactsOf(b), name, Group(g, b, name, v), s))
  {
    forall v: nat
      ensures DueHub(g, b, name, v, s) || DueJoin(g, b, name, v, s) <==>
              Group(g, b, name, v) != {} && DueGroup(g, FactsOf(b), name, Group(g, b, name, v), s)
    {
      GroupMembers(g, b, name, v);
      if Group(g, b, name, v) != {} { GroupIsDue(g, b, name, v, s); }
    }
  }

  lemma IndexedMeaning(g: Guards, b: Book, name: KeyName, index: map<nat, set<TradeId>>, s: Step)
    requires BookOk(b) && index == Index(g, b, name, b.byTrade.Keys) && IndexOk(FactsOf(b), index)
    ensures s in IndexSteps(g, FactsOf(b), name, index, Sorted(index.Keys)) <==>
            exists v :: Group(g, b, name, v) != {} && DueGroup(g, FactsOf(b), name, Group(g, b, name, v), s)
  {
    IndexStepsMembers(g, FactsOf(b), name, index, Sorted(index.Keys), s);
    if v :| v in Sorted(index.Keys) && s in ValueSteps(g, FactsOf(b), name, index[v]) { IndexedOne(g, b, name, index, v, s); }
    if v: nat :| Group(g, b, name, v) != {} && DueGroup(g, FactsOf(b), name, Group(g, b, name, v), s) {
      IndexedOne(g, b, name, index, v, s);
      assert v in Sorted(index.Keys);
    }
  }

  lemma IndexedOne(g: Guards, b: Book, name: KeyName, index: map<nat, set<TradeId>>, v: nat, s: Step)
    requires BookOk(b) && index == Index(g, b, name, b.byTrade.Keys) && IndexOk(FactsOf(b), index)
    ensures v in index <==> Group(g, b, name, v) != {}
    ensures v in index ==> (s in ValueSteps(g, FactsOf(b), name, index[v]) <==> DueGroup(g, FactsOf(b), name, Group(g, b, name, v), s))
  {
    HoldersMeaning(g, b, name, v);
    GroupMembers(g, b, name, v);
    if v in index {
      ValueStepsMeaning(g, FactsOf(b), name, index[v], s);
    } else if t :| t in Group(g, b, name, v) {
      assert Shares(g, b, name, v, t);
    }
  }

  /** Everything the assembly does, read off the events and the confirmed links. */
  lemma StepsMeaning(g: Guards, b: Book, s: Step)
    requires BookOk(b)
    ensures s in Steps(g, b) <==> DueLineage(g, b, s) || DueOverlay(b, s) || DueKey(g, b, UrnRef, s) || DueKey(g, b, AlternateTradeId, s)
  {
    LineageMeaning(g, b, s);
    OverlayMembers(TradeIds(b), b.overlay, s);
    assert s in OverlaySteps(TradeIds(b), b.overlay) <==> DueOverlay(b, s);
    KeyMeaning(g, b, UrnRef, s);
    KeyMeaning(g, b, AlternateTradeId, s);
  }
}
