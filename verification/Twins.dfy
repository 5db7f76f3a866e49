/** The smallest books: two trades of one event each that share a key. */
module Twins {
  import opened Seqs
  import opened Trades
  import opened Linking
  import opened EpisodeAssembly
  import opened EpisodeLinks
  import opened EpisodeRefusals

  /** Two trades of one event each, that share a key and nothing else. */
  ghost predicate AreTwins(g: Guards, e: Event, f: Event) {
    && e.trade < f.trade && e.instrument == f.instrument
    && e.original.None? && f.original.None? && e.alternate.None? && f.alternate.None?
    && e.urn.Some? && f.urn == e.urn && e.urn.value !in g.degenerate && g.maxFanout >= 2
  }

  ghost predicate BookOfTwins(b: Book, e: Event, f: Event) {
    && BookOk(b) && b.byTrade.Keys == {e.trade, f.trade} && b.byTrade[e.trade] == [e] && b.byTrade[f.trade] == [f]
    && b.overlay == [] && b.alerts == []
  }

  lemma OneEvent(e: Event, events: seq<Event>, t: TradeId)
    requires |events| == 2 && e in events && e.trade == t && forall x :: x in events && x.trade == t ==> x == e
    requires events[0] != events[1]
    ensures LifecycleOf(events, t) == [e]
  {
    assert events == [events[0]] + ([events[1]] + []);
    FilterStep(events[0], [events[1]] + [], OfTrade(t));
    FilterStep(events[1], [], OfTrade(t));
    assert Filter(events, OfTrade(t)) == [e];
    assert [e][1..] == [];
  }

  lemma TradesOf(events: seq<Event>, e: Event)
    requires e in events
    ensures e.trade in BookOf(events, [], []).byTrade && BookOf(events, [], []).byTrade[e.trade] == LifecycleOf(events, e.trade)
  {
  }

  lemma BookKeys(events: seq<Event>)
    ensures BookOf(events, [], []).byTrade.Keys == set e | e in events :: e.trade
  {
  }

  lemma NothingElse(events: seq<Event>)
    ensures BookOf(events, [], []).overlay == [] && BookOf(events, [], []).alerts == []
  {
  }

  lemma TwoTrades(events: seq<Event>, e: Event, f: Event)
    requires events == [e, f]
    ensures (set x | x in events :: x.trade) == {e.trade, f.trade}
  {
  }

  lemma OneLifecycle(events: seq<Event>, e: Event)
    requires |events| == 2 && e in events && events[0] != events[1] && forall x :: x in events && x.trade == e.trade ==> x == e
    ensures e.trade in BookOf(events, [], []).byTrade && BookOf(events, [], []).byTrade[e.trade] == [e]
  {
    TradesOf(events, e);
    OneEvent(e, events, e.trade);
  }

  lemma TwinsBook(events: seq<Event>, e: Event, f: Event)
    requires events == [e, f] && e.trade < f.trade
    ensures BookOfTwins(BookOf(events, [], []), e, f)
  {
    BookIsOk(events, [], []);
    NothingElse(events);
    BookKeys(events);
    TwoTrades(events, e, f);
    OneLifecycle(events, e);
    OneLifecycle(events, f);
  }

  /** The group of the key they share, and no other group. */
  lemma TwinsShare(g: Guards, b: Book, e: Event, f: Event, name: KeyName, v: nat, t: TradeId)
    requires AreTwins(g, e, f) && BookOfTwins(b, e, f)
    ensures Shares(g, b, name, v, t) <==> name == UrnRef && v == g.strip(e.urn.value) && (t == e.trade || t == f.trade)
  {
    if name == AlternateTradeId {
      forall u ensures !HasKey(g, b, name, v, u) {}
    }
  }

  lemma TwinsJoin(g: Guards, b: Book, e: Event, f: Event, name: KeyName, v: nat, t: TradeId, a: TradeId)
    requires AreTwins(g, e, f) && BookOfTwins(b, e, f)
    ensures Joins(g, b, name, v, t, a) <==> name == UrnRef && v == g.strip(e.urn.value) && t == f.trade && a == e.trade
  {
    forall u ensures Shares(g, b, name, v, u) <==> name == UrnRef && v == g.strip(e.urn.value) && (u == e.trade || u == f.trade) {
      TwinsShare(g, b, e, f, name, v, u);
    }
    if name == UrnRef && v == g.strip(e.urn.value) {
      assert Group(g, b, name, v) == {e.trade, f.trade};
    }
  }

  lemma NoLineage(g: Guards, b: Book, e: Event, f: Event, s: Step)
    requires AreTwins(g, e, f) && BookOfTwins(b, e, f)
    ensures !DueLineage(g, b, s)
  {
    forall t, o: nat | t in b.byTrade ensures !FirstOriginal(b.byTrade[t], o) {}
  }

  lemma KeyJoinsOnly(g: Guards, b: Book, name: KeyName, s: Step)
    requires BookOk(b) && !s.Mark?
    ensures DueKey(g, b, name, s) <==> exists v :: DueJoin(g, b, name, v, s)
  {
  }

  lemma UrnDue(g: Guards, b: Book, e: Event, f: Event, s: Step)
    requires AreTwins(g, e, f) && BookOfTwins(b, e, f)
    ensures (exists v :: DueJoin(g, b, UrnRef, v, s)) <==> s == KeyStep(g, b, UrnRef, f.trade, e.trade)
  {
    var w := g.strip(e.urn.value);
    TwinsJoin(g, b, e, f, UrnRef, w, f.trade, e.trade);
    if s == KeyStep(g, b, UrnRef, f.trade, e.trade) { assert DueJoin(g, b, UrnRef, w, s); }
    if v: nat :| DueJoin(g, b, UrnRef, v, s) {
      var t: TradeId, a: TradeId :| Joins(g, b, UrnRef, v, t, a) && s == KeyStep(g, b, UrnRef, t, a);
      TwinsJoin(g, b, e, f, UrnRef, v, t, a);
    }
  }

  lemma AlternateDue(g: Guards, b: Book, e: Event, f: Event, v: nat, s: Step)
    requires AreTwins(g, e, f) && BookOfTwins(b, e, f)
    ensures !DueJoin(g, b, AlternateTradeId, v, s)
  {
    forall t: TradeId, a: TradeId ensures !Joins(g, b, AlternateTradeId, v, t, a) { TwinsJoin(g, b, e, f, AlternateTradeId, v, t, a); }
  }

  /** The one link that is proposed. */
  lemma TwinsStep(g: Guards, b: Book, e: Event, f: Event, s: Step)
    requires AreTwins(g, e, f) && BookOfTwins(b, e, f) && !s.Mark?
    ensures s in Steps(g, b) <==> s == KeyStep(g, b, UrnRef, f.trade, e.trade)
  {
    StepsMeaning(g, b, s);
    NoLineage(g, b, e, f, s);
    KeyJoinsOnly(g, b, UrnRef, s);
    KeyJoinsOnly(g, b, AlternateTradeId, s);
    UrnDue(g, b, e, f, s);
    forall v: nat ensures !DueJoin(g, b, AlternateTradeId, v, s) { AlternateDue(g, b, e, f, v, s); }
  }

  lemma FarTwinsPart(g: Guards, b: Book, m: Merges, e: Event, f: Event)
    requires AreTwins(g, e, f) && BookOfTwins(b, e, f) && m == Assemble(g, b)
    requires Distance(e.time, f.time) > g.mediumGap
    ensures !Together(m, f.trade, e.trade)
  {
    TwinsFacts(g, b, e, f);
    forall k ensures k !in m.accepted {
      AssemblySources(g, b, k);
      TwinsStep(g, b, e, f, Try(k));
    }
    AloneMeaning(m, f.trade, e.trade);
  }

  lemma NearTwinsMeet(g: Guards, b: Book, m: Merges, e: Event, f: Event, l: Link)
    requires AreTwins(g, e, f) && BookOfTwins(b, e, f) && m == Assemble(g, b) && l == KeyLink(UrnRef, f.trade, e.trade)
    requires Distance(e.time, f.time) <= g.mediumGap && Distance(e.time, f.time) <= g.maxSpan
    ensures Together(m, f.trade, e.trade)
  {
    NearTwinsAreReady(g, b, e, f, l);
    PairsJoin(g, b, l);
  }

  lemma NearTwinsAreReady(g: Guards, b: Book, e: Event, f: Event, l: Link)
    requires AreTwins(g, e, f) && BookOfTwins(b, e, f) && l == KeyLink(UrnRef, f.trade, e.trade)
    requires Distance(e.time, f.time) <= g.mediumGap && Distance(e.time, f.time) <= g.maxSpan
    ensures Try(l) in Steps(g, b) && OnTheirOwn(g, b, l.src, l.dst) && Close(g, FactsOf(b), l.src, l.dst)
    ensures l.src in TradeIds(b) && l.dst in TradeIds(b) && l.src in FactsOf(b).own && l.dst in FactsOf(b).own
    ensures FactsOf(b).own[l.src] == FactsOf(b).own[l.dst]
  {
    TwinsFacts(g, b, e, f);
    TwinsStep(g, b, e, f, Try(l));
    forall k | Try(k) in Steps(g, b) ensures k == l { TwinsStep(g, b, e, f, Try(k)); }
    FactsMeaning(b, e.trade);
    FactsMeaning(b, f.trade);
  }

  lemma TogetherIsShort(g: Guards, b: Book, x: TradeId, y: TradeId)
    requires BookOk(b) && x in TradeIds(b) && y in TradeIds(b) && x != y && Together(Assemble(g, b), x, y)
    ensures FactsOf(b).last[x] - FactsOf(b).first[y] <= g.maxSpan && FactsOf(b).last[y] - FactsOf(b).first[x] <= g.maxSpan
  {
    var m := Assemble(g, b);
    TogetherIsMutual(g, b, x, y);
    Reflexive(m.accepted, x);
    Reflexive(m.accepted, y);
    SpanIsBounded(g, b, x, y, x);
    SpanIsBounded(g, b, y, x, y);
  }

  /** Their times, and what is called for. */
  lemma TwinsFacts(g: Guards, b: Book, e: Event, f: Event)
    requires AreTwins(g, e, f) && BookOfTwins(b, e, f)
    ensures var facts := FactsOf(b);
            && e.trade in facts.first && f.trade in facts.first && e.trade in facts.last && f.trade in facts.last
            && facts.first[e.trade] == facts.last[e.trade] == e.time && facts.first[f.trade] == facts.last[f.trade] == f.time
    ensures var l := KeyLink(UrnRef, f.trade, e.trade);
            KeyStep(g, b, UrnRef, f.trade, e.trade) == if Distance(e.time, f.time) > g.mediumGap then TooFar(l) else Try(l)
  {
    FactsMeaning(b, e.trade);
    FactsMeaning(b, f.trade);
    FactsCoverTrades(b);
  }

  lemma TwinsDecide(g: Guards, b: Book, m: Merges, e: Event, f: Event)
    requires AreTwins(g, e, f) && BookOfTwins(b, e, f) && m == Assemble(g, b)
    ensures Together(m, f.trade, e.trade) <==> Distance(e.time, f.time) <= g.mediumGap && Distance(e.time, f.time) <= g.maxSpan
  {
    if Distance(e.time, f.time) > g.mediumGap {
      FarTwinsPart(g, b, m, e, f);
    } else if Distance(e.time, f.time) <= g.maxSpan {
      NearTwinsMeet(g, b, m, e, f, KeyLink(UrnRef, f.trade, e.trade));
    } else {
      LongTwinsPart(g, b, m, e, f);
    }
  }

  lemma LongTwinsPart(g: Guards, b: Book, m: Merges, e: Event, f: Event)
    requires AreTwins(g, e, f) && BookOfTwins(b, e, f) && m == Assemble(g, b) && Distance(e.time, f.time) > g.maxSpan
    ensures !Together(m, f.trade, e.trade)
  {
    TwinsFacts(g, b, e, f);
    if Together(m, f.trade, e.trade) { TogetherIsShort(g, b, f.trade, e.trade); }
  }

  /** Two such trades share an episode exactly when they begin within the gap that keys may bridge
      and within the span of an episode. */
  lemma TwinsMeet(g: Guards, events: seq<Event>, e: Event, f: Event)
    requires AreTwins(g, e, f) && events == [e, f]
    ensures BookOk(BookOf(events, [], []))
    ensures Together(Assemble(g, BookOf(events, [], [])), f.trade, e.trade) <==>
            Distance(e.time, f.time) <= g.mediumGap && Distance(e.time, f.time) <= g.maxSpan
  {
    TwinsBook(events, e, f);
    TwinsDecide(g, BookOf(events, [], []), Assemble(g, BookOf(events, [], [])), e, f);
  }
}
