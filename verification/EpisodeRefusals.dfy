/** Every link an assembly refuses is refused for a reason its finished episodes bear out. */
module EpisodeRefusals {
  import opened Seqs
  import opened Trades
  import opened Linking
  import opened EpisodeAssembly
  import opened EpisodeLinks

  // ---------------------------------------------------------------- where the lists come from

  ghost predicate Refused(m: Merges, l: Link, reason: Refusal) { Rejection(l, reason) in m.rejected }

  /** Tried and not accepted. */
  ghost predicate TurnedDown(m: Merges, l: Link) { Refused(m, l, OverSpan) || Refused(m, l, CrossInstrument) }

  /** How `m` becomes `n` as far as one link is concerned. */
  ghost predicate Sources(m: Merges, n: Merges, l: Link, tried: bool, far: bool) {
    && (l in m.accepted ==> l in n.accepted) && (l in n.accepted ==> l in m.accepted || tried)
    && (TurnedDown(m, l) ==> TurnedDown(n, l))
    && (Refused(n, l, OverGap) <==> Refused(m, l, OverGap) || far)
    && (TurnedDown(n, l) ==> TurnedDown(m, l) || tried)
    && (tried ==> l in n.accepted || TurnedDown(n, l))
  }

  lemma TakeSources(g: Guards, m: Merges, s: Step, l: Link)
    requires CanTake(m, s)
    ensures Sources(m, Take(g, m, s), l, s == Try(l), s == TooFar(l))
  {
    CanTakeIsReady(m, s);
  }

  lemma SourcesFollow(m: Merges, n: Merges, k: Merges, l: Link, tried: bool, far: bool, tried': bool, far': bool)
    requires Sources(m, n, l, tried, far) && Sources(n, k, l, tried', far')
    ensures Sources(m, k, l, tried || tried', far || far')
  {
  }

  /** What is accepted or turned down was tried, what was tried is accepted or turned down, and
      what is refused as too far apart is exactly what was found too far apart. */
  lemma {:induction false} FoldSources(g: Guards, m: Merges, steps: seq<Step>, l: Link)
    requires Formed(m) && AllWithin(m.rep.Keys, steps)
    ensures Sources(m, Fold(g, m, steps), l, Try(l) in steps, TooFar(l) in steps)
    decreases |steps|
  {
    if steps != [] {
      var s, rest := steps[0], steps[1..];
      AfterFirstStep(g, m, steps);
      TakeSources(g, m, s, l);
      FoldSources(g, Take(g, m, s), rest, l);
      SourcesFollow(m, Take(g, m, s), Fold(g, m, steps), l, s == Try(l), s == TooFar(l), Try(l) in rest, TooFar(l) in rest);
      HeadOrTail(steps, Try(l));
      HeadOrTail(steps, TooFar(l));
    }
  }

  lemma HeadOrTail(steps: seq<Step>, s: Step)
    requires steps != []
    ensures s in steps <==> s == steps[0] || s in steps[1..]
  {
    assert steps == [steps[0]] + steps[1..];
  }

  // ---------------------------------------------------------------- flags

  /** One of its links was turned down, and this says why. */
  ghost predicate Blamed(m: Merges, t: TradeId, flag: Flag) {
    exists l, why :: (why == OverSpan || why == CrossInstrument) && Refused(m, l, why) && (t == l.src || t == l.dst) && flag == RejectedLink(why)
  }

  ghost predicate BlameFlagged(m: Merges) {
    forall t: TradeId, flag {:trigger Blamed(m, t, flag)} :: Blamed(m, t, flag) ==> (t, flag) in m.flags
  }

  lemma TakeFlags(g: Guards, m: Merges, s: Step, t: TradeId, flag: Flag)
    requires CanTake(m, s) && BlameFlagged(m)
    ensures BlameFlagged(Take(g, m, s))
    ensures (t, flag) in Take(g, m, s).flags <==> (t, flag) in m.flags || s == Mark(t, flag) || Blamed(Take(g, m, s), t, flag)
  {
    CanTakeIsReady(m, s);
    var n := Take(g, m, s);
    forall u: TradeId, why | Blamed(n, u, why) ensures (u, why) in n.flags {
      var l: Link, r: Refusal :| (r == OverSpan || r == CrossInstrument) && Refused(n, l, r) && (u == l.src || u == l.dst) && why == RejectedLink(r);
      if Refused(m, l, r) { assert Blamed(m, u, why); }
    }
    if (t, flag) in n.flags && (t, flag) !in m.flags && s.Try? {
      var r := n.rejected[|m.rejected|];
      assert Refused(n, s.link, r.reason) && flag == RejectedLink(r.reason);
    }
  }

  lemma BlameGrows(g: Guards, m: Merges, steps: seq<Step>, t: TradeId, flag: Flag)
    requires Formed(m) && AllWithin(m.rep.Keys, steps) && Blamed(m, t, flag)
    ensures Blamed(Fold(g, m, steps), t, flag)
  {
    var l: Link, why: Refusal :| (why == OverSpan || why == CrossInstrument) && Refused(m, l, why) && (t == l.src || t == l.dst) && flag == RejectedLink(why);
    RefusalsStay(g, m, steps, l, why);
  }

  lemma RefusalStays(g: Guards, m: Merges, s: Step, l: Link, why: Refusal)
    requires CanTake(m, s) && Refused(m, l, why)
    ensures Refused(Take(g, m, s), l, why)
  {
    CanTakeIsReady(m, s);
  }

  lemma {:induction false} RefusalsStay(g: Guards, m: Merges, steps: seq<Step>, l: Link, why: Refusal)
    requires Formed(m) && AllWithin(m.rep.Keys, steps) && Refused(m, l, why)
    ensures Refused(Fold(g, m, steps), l, why)
    decreases |steps|
  {
    if steps != [] {
      AfterFirstStep(g, m, steps);
      RefusalStays(g, m, steps[0], l, why);
      RefusalsStay(g, Take(g, m, steps[0]), steps[1..], l, why);
    }
  }

  lemma {:induction false} FoldFlags(g: Guards, m: Merges, steps: seq<Step>, t: TradeId, flag: Flag)
    requires Formed(m) && AllWithin(m.rep.Keys, steps) && BlameFlagged(m)
    ensures (t, flag) in Fold(g, m, steps).flags <==> (t, flag) in m.flags || Mark(t, flag) in steps || Blamed(Fold(g, m, steps), t, flag)
    decreases |steps|
  {
    if steps != [] {
      AfterFirstStep(g, m, steps);
      TakeFlags(g, m, steps[0], t, flag);
      var n := Take(g, m, steps[0]);
      FoldFlags(g, n, steps[1..], t, flag);
      HeadOrTail(steps, Mark(t, flag));
      if Blamed(n, t, flag) { BlameGrows(g, n, steps[1..], t, flag); }
    } else if Blamed(m, t, flag) {
      assert (t, flag) in m.flags;
    }
  }

  // ---------------------------------------------------------------- too long a span

  /** The sets of two trades are different, and together span more than the limit. */
  ghost predicate TooLong(g: Guards, m: Merges, x: TradeId, y: TradeId) {
    && x in m.rep && y in m.rep && m.rep[x] != m.rep[y] && HasSet(m, m.rep[x]) && HasSet(m, m.rep[y])
    && Max(m.hi[m.rep[x]], m.hi[m.rep[y]]) - Min(m.lo[m.rep[x]], m.lo[m.rep[y]]) > g.maxSpan
  }

  ghost predicate SpansRefused(g: Guards, m: Merges) {
    forall l {:trigger Refused(m, l, OverSpan)} :: Refused(m, l, OverSpan) ==> TooLong(g, m, l.src, l.dst)
  }

  lemma JoinedEntry(m: Merges, a: TradeId, b: TradeId, x: TradeId)
    requires Formed(m) && TwoRoots(m, a, b) && x in m.rep
    ensures var n, r := Join(m, a, b), m.rep[x];
            && x in n.rep && HasSet(m, r) && HasSet(n, n.rep[x])
            && (r != a && r != b ==> n.rep[x] == r) && (r == a || r == b ==> n.rep[x] == if a < b then a else b)
            && n.lo[n.rep[x]] <= m.lo[r] && m.hi[r] <= n.hi[n.rep[x]]
  {
  }

  /** Sets only grow, and two that are too long together are never joined. */
  lemma JoiningStaysTooLong(g: Guards, m: Merges, a: TradeId, b: TradeId, x: TradeId, y: TradeId)
    requires Formed(m) && TwoRoots(m, a, b) && Max(m.hi[a], m.hi[b]) - Min(m.lo[a], m.lo[b]) <= g.maxSpan
    requires TooLong(g, m, x, y)
    ensures TooLong(g, Join(m, a, b), x, y)
  {
    JoinedEntry(m, a, b, x);
    JoinedEntry(m, a, b, y);
  }

  lemma TakeKeepsSpans(g: Guards, m: Merges, s: Step)
    requires CanTake(m, s) && SpansRefused(g, m)
    ensures SpansRefused(g, Take(g, m, s))
  {
    CanTakeIsReady(m, s);
    var n := Take(g, m, s);
    forall l | Refused(n, l, OverSpan) ensures TooLong(g, n, l.src, l.dst) {
      if Refused(m, l, OverSpan) {
        assert TooLong(g, m, l.src, l.dst);
        if n.rep != m.rep { JoiningStaysTooLong(g, m, m.rep[s.link.src], m.rep[s.link.dst], l.src, l.dst); }
      }
    }
  }

  lemma {:induction false} FoldKeepsSpans(g: Guards, m: Merges, steps: seq<Step>)
    requires Formed(m) && AllWithin(m.rep.Keys, steps) && SpansRefused(g, m)
    ensures SpansRefused(g, Fold(g, m, steps))
    decreases |steps|
  {
    if steps != [] {
      AfterFirstStep(g, m, steps);
      TakeKeepsSpans(g, m, steps[0]);
      FoldKeepsSpans(g, Take(g, m, steps[0]), steps[1..]);
    }
  }

  // ---------------------------------------------------------------- other instruments

  ghost predicate InstrumentsRefused(m: Merges, core: map<TradeId, set<Instrument>>) {
    forall l {:trigger Refused(m, l, CrossInstrument)} :: Refused(m, l, CrossInstrument) ==>
      !IsStrong(l) && l.src in core && l.dst in core && core[l.src] != core[l.dst]
  }

  lemma WeakTakeKeepsInstruments(g: Guards, m: Merges, s: Step, core: map<TradeId, set<Instrument>>)
    requires CanTake(m, s) && (s.Try? ==> !IsStrong(s.link)) && CoresAgree(m, core) && InstrumentsRefused(m, core)
    ensures InstrumentsRefused(Take(g, m, s), core)
  {
    CanTakeIsReady(m, s);
    var n := Take(g, m, s);
    forall l | Refused(n, l, CrossInstrument)
      ensures !IsStrong(l) && l.src in core && l.dst in core && core[l.src] != core[l.dst]
    {
      if !Refused(m, l, CrossInstrument) { assert s == Try(l) && core[l.src] == m.instruments[m.rep[l.src]]; }
    }
  }

  ghost predicate CoresRefuse(m: Merges, core: map<TradeId, set<Instrument>>) { CoresAgree(m, core) && InstrumentsRefused(m, core) }

  lemma WeakTakeKeepsRefusals(g: Guards, m: Merges, s: Step, core: map<TradeId, set<Instrument>>)
    requires CanTake(m, s) && (!s.Mark? ==> !IsStrong(s.link)) && CoresRefuse(m, core)
    ensures CoresRefuse(Take(g, m, s), core)
  {
    WeakTakeKeepsCores(g, m, s, core);
    WeakTakeKeepsInstruments(g, m, s, core);
  }

  lemma {:induction false} WeakFoldKeepsRefusals(g: Guards, m: Merges, steps: seq<Step>, core: map<TradeId, set<Instrument>>)
    requires Formed(m) && AllWithin(m.rep.Keys, steps) && AllStrong(steps, false) && CoresRefuse(m, core)
    ensures CoresRefuse(Fold(g, m, steps), core)
    decreases |steps|
  {
    if steps != [] {
      AfterFirstStep(g, m, steps);
      AllStrongTail(steps, false);
      WeakTakeKeepsRefusals(g, m, steps[0], core);
      WeakFoldKeepsRefusals(g, Take(g, m, steps[0]), steps[1..], core);
    }
  }

  ghost predicate NoneCrossed(m: Merges) { forall l {:trigger Refused(m, l, CrossInstrument)} :: !Refused(m, l, CrossInstrument) }

  lemma {:induction false} StrongFoldCrossesNone(g: Guards, m: Merges, steps: seq<Step>)
    requires Formed(m) && AllWithin(m.rep.Keys, steps) && AllStrong(steps, true) && NoneCrossed(m)
    ensures NoneCrossed(Fold(g, m, steps))
    decreases |steps|
  {
    if steps != [] {
      AfterFirstStep(g, m, steps);
      AllStrongTail(steps, true);
      StrongTakeCrossesNone(g, m, steps[0]);
      StrongFoldCrossesNone(g, Take(g, m, steps[0]), steps[1..]);
    }
  }

  lemma StrongTakeCrossesNone(g: Guards, m: Merges, s: Step)
    requires CanTake(m, s) && (s.Try? ==> IsStrong(s.link)) && NoneCrossed(m)
    ensures NoneCrossed(Take(g, m, s))
  {
    CanTakeIsReady(m, s);
    forall l ensures !Refused(Take(g, m, s), l, CrossInstrument) { assert !Refused(m, l, CrossInstrument); }
  }

  // ---------------------------------------------------------------- the finished assembly

  ghost predicate Together(m: Merges, x: TradeId, y: TradeId) { Connected(m.accepted, x, y) }

  /** In the episodes of the two trades something ends more than the limit after something begins. */
  ghost predicate Exceed(g: Guards, f: Facts, m: Merges, x: TradeId, y: TradeId)
    requires m.rep.Keys <= f.first.Keys && m.rep.Keys <= f.last.Keys
  {
    exists u, v :: u in m.rep && v in m.rep && (Together(m, x, u) || Together(m, y, u)) && (Together(m, x, v) || Together(m, y, v))
      && f.last[u] - f.first[v] > g.maxSpan
  }

  /** The instruments of the strong lineage around a trade. */
  ghost function CoreInstruments(b: Book, m: Merges, x: TradeId): set<Instrument>
    requires BookOk(b)
  {
    InstrumentsOf(FactsOf(b), CoreOf(TradeIds(b), Filter(m.accepted, IsStrong), x))
  }

  ghost predicate Sound(g: Guards, b: Book, m: Merges) {
    && BookOk(b) && Good(g, FactsOf(b), m) && m.rep.Keys == TradeIds(b) && CoresUniform(FactsOf(b), m)
    && SpansRefused(g, m) && exists core :: CoresRefuse(m, core)
  }

  lemma AssemblyIsSound(g: Guards, b: Book)
    requires BookOk(b)
    ensures Sound(g, b, Assemble(g, b))
  {
    var f := FactsOf(b);
    FactsCoverTrades(b);
    AssemblyIsGood(g, b);
    StrongStepsOk(g, b, Sorted(b.byTrade.Keys));
    WeakStepsOk(g, b);
    StagesAreSound(g, f, FirstSteps(g, b), WeakSteps(g, b));
  }

  lemma StagesAreSound(g: Guards, f: Facts, strong: seq<Step>, weak: seq<Step>)
    requires FactsOk(f) && StageOk(f.first.Keys, strong, true) && StageOk(f.first.Keys, weak, false)
    ensures var n := Fold(g, Init(f), strong + weak);
            SpansRefused(g, n) && exists core :: CoresRefuse(n, core)
  {
    InitIsGood(g, f);
    GoodIsFormed(g, f, Init(f));
    FoldConcat(g, Init(f), strong, weak);
    var mid := Fold(g, Init(f), strong);
    FoldKeepsGood(g, f, Init(f), strong);
    GoodIsFormed(g, f, mid);
    FoldKeepsSpans(g, Init(f), strong);
    FoldKeepsSpans(g, mid, weak);
    StrongFoldCrossesNone(g, Init(f), strong);
    CoresOfStrongStage(g, f, mid);
    assert InstrumentsRefused(mid, Cores(mid));
    WeakFoldKeepsRefusals(g, mid, weak, Cores(mid));
  }

  /** The trade that ends last in the set of another, and the one that begins first. */
  lemma Extremes(g: Guards, f: Facts, m: Merges, z: TradeId) returns (last: TradeId, first: TradeId)
    requires Good(g, f, m) && z in m.rep
    ensures last in m.rep && Connected(m.accepted, z, last) && HasSet(m, m.rep[z]) && f.last[last] == m.hi[m.rep[z]]
    ensures first in m.rep && Connected(m.accepted, z, first) && f.first[first] == m.lo[m.rep[z]]
  {
    var r := m.rep[z];
    assert Aggregate(f, Members(m.rep, r), m.lo[r], m.hi[r], m.instruments[r]);
    last :| last in Members(m.rep, r) && f.last[last] == m.hi[r];
    first :| first in Members(m.rep, r) && f.first[first] == m.lo[r];
    SameSetIffConnected(g, f, m, z, last);
    SameSetIffConnected(g, f, m, z, first);
  }

  lemma TooLongMeaning(g: Guards, f: Facts, m: Merges, x: TradeId, y: TradeId) returns (u: TradeId, v: TradeId)
    requires Good(g, f, m) && TooLong(g, m, x, y)
    ensures u in m.rep && v in m.rep && f.last[u] - f.first[v] > g.maxSpan && !Connected(m.accepted, x, y)
    ensures Connected(m.accepted, x, u) || Connected(m.accepted, y, u)
    ensures Connected(m.accepted, x, v) || Connected(m.accepted, y, v)
  {
    SameSetIffConnected(g, f, m, x, y);
    var xLast, xFirst := Extremes(g, f, m, x);
    var yLast, yFirst := Extremes(g, f, m, y);
    u := if m.hi[m.rep[x]] >= m.hi[m.rep[y]] then xLast else yLast;
    v := if m.lo[m.rep[x]] <= m.lo[m.rep[y]] then xFirst else yFirst;
  }

  lemma TooLongExceeds(g: Guards, f: Facts, m: Merges, x: TradeId, y: TradeId)
    requires Good(g, f, m) && TooLong(g, m, x, y)
    ensures !Together(m, x, y) && Exceed(g, f, m, x, y)
  {
    var u, v := TooLongMeaning(g, f, m, x, y);
    assert Together(m, x, u) || Together(m, y, u);
  }

  lemma CrossedDiffer(g: Guards, f: Facts, m: Merges, core: map<TradeId, set<Instrument>>, l: Link)
    requires Good(g, f, m) && CoresUniform(f, m) && CoresRefuse(m, core) && Refused(m, l, CrossInstrument)
    ensures !IsStrong(l) && l.src in m.rep && l.dst in m.rep && !Connected(m.accepted, l.src, l.dst)
    ensures var strong := Filter(m.accepted, IsStrong);
            InstrumentsOf(f, CoreOf(m.rep.Keys, strong, l.src)) != InstrumentsOf(f, CoreOf(m.rep.Keys, strong, l.dst))
  {
    SameSetIffConnected(g, f, m, l.src, l.dst);
  }

  /** Main result: every refusal of the finished assembly is justified by its episodes. Refused for
      its span, a link joins two episodes that together exceed the limit; for instruments, it is
      not lineage and joins two episodes whose lineages trade different instruments; for its gap, it is a
      key link between trades that begin too far apart. */
  lemma RefusalsAreJustified(g: Guards, b: Book, l: Link, why: Refusal)
    requires BookOk(b) && Refused(Assemble(g, b), l, why)
    ensures l.src in TradeIds(b) && l.dst in TradeIds(b)
    ensures FactsOf(b).first.Keys == FactsOf(b).last.Keys == Assemble(g, b).rep.Keys == TradeIds(b)
    ensures var m := Assemble(g, b);
            match why
            case OverSpan => !Together(m, l.src, l.dst) && Exceed(g, FactsOf(b), m, l.src, l.dst)
            case CrossInstrument =>
              !IsStrong(l) && !Together(m, l.src, l.dst) && CoreInstruments(b, m, l.src) != CoreInstruments(b, m, l.dst)
            case OverGap => IsKeyLink(l) && Apart(g, FactsOf(b), l)
  {
    var m := Assemble(g, b);
    AssemblyIsSound(g, b);
    match why
    case OverSpan =>
      assert TooLong(g, m, l.src, l.dst);
      TooLongExceeds(g, FactsOf(b), m, l.src, l.dst);
    case CrossInstrument =>
      var core :| CoresRefuse(m, core);
      CrossedDiffer(g, FactsOf(b), m, core, l);
    case OverGap =>
      AssemblySources(g, b, l);
      FarStepsMeaning(g, b, l);
  }

  predicate IsKeyLink(l: Link) { l.kind == SharedUrn || l.kind == AlternateId }

  lemma AssemblySources(g: Guards, b: Book, l: Link)
    requires BookOk(b)
    ensures var m := Assemble(g, b);
            && (l in m.accepted ==> Try(l) in Steps(g, b))
            && (Refused(m, l, OverGap) <==> TooFar(l) in Steps(g, b))
            && (TurnedDown(m, l) ==> Try(l) in Steps(g, b))
            && (Try(l) in Steps(g, b) ==> l in m.accepted || TurnedDown(m, l))
  {
    var f := FactsOf(b);
    FactsCoverTrades(b);
    InitIsGood(g, f);
    GoodIsFormed(g, f, Init(f));
    StrongStepsOk(g, b, Sorted(b.byTrade.Keys));
    WeakStepsOk(g, b);
    FoldSources(g, Init(f), Steps(g, b), l);
  }

  lemma StepsWithin(g: Guards, b: Book, s: Step)
    requires BookOk(b) && s in Steps(g, b) && !s.Mark?
    ensures s.link.src in TradeIds(b) && s.link.dst in TradeIds(b)
  {
    FactsCoverTrades(b);
    StrongStepsOk(g, b, Sorted(b.byTrade.Keys));
    WeakStepsOk(g, b);
  }

  /** Only key links are found too far apart, and exactly those that are; no other is kept back. */
  lemma FarStepsMeaning(g: Guards, b: Book, l: Link)
    requires BookOk(b)
    ensures TooFar(l) in Steps(g, b) ==> l.src in TradeIds(b) && l.dst in TradeIds(b) && IsKeyLink(l) && Apart(g, FactsOf(b), l)
    ensures Try(l) in Steps(g, b) && IsKeyLink(l) ==> l.src in TradeIds(b) && l.dst in TradeIds(b) && !Apart(g, FactsOf(b), l)
  {
    FactsCoverTrades(b);
    if TooFar(l) in Steps(g, b) { KeyStepsOnly(g, b, TooFar(l)); }
    if Try(l) in Steps(g, b) && IsKeyLink(l) { KeyStepsOnly(g, b, Try(l)); }
  }

  lemma LineageKinds(g: Guards, b: Book, s: Step)
    requires DueLineage(g, b, s) && !s.Mark?
    ensures s.Try? && s.link.kind == RebookOf
  {
  }

  lemma OverlayKinds(b: Book, s: Step)
    requires DueOverlay(b, s)
    ensures s.Try? && s.link.kind == AgentLink
  {
  }

  lemma KeyStepsOnly(g: Guards, b: Book, s: Step)
    requires BookOk(b) && s in Steps(g, b) && !s.Mark? && (s.TooFar? || IsKeyLink(s.link))
    ensures IsKeyLink(s.link) && s.link.src in FactsOf(b).first && s.link.dst in FactsOf(b).first
    ensures s.TooFar? <==> Apart(g, FactsOf(b), s.link)
  {
    StepsMeaning(g, b, s);
    if DueLineage(g, b, s) { LineageKinds(g, b, s); }
    if DueOverlay(b, s) { OverlayKinds(b, s); }
    if DueKey(g, b, UrnRef, s) { KeyStepMeaning(g, b, UrnRef, s); } else { KeyStepMeaning(g, b, AlternateTradeId, s); }
  }

  lemma KeyStepMeaning(g: Guards, b: Book, name: KeyName, s: Step)
    requires BookOk(b) && DueKey(g, b, name, s) && !s.Mark?
    ensures IsKeyLink(s.link) && s.link.tier == Medium && s.link.src in FactsOf(b).first && s.link.dst in FactsOf(b).first
    ensures s.TooFar? <==> Apart(g, FactsOf(b), s.link)
  {
  }

  /** Main result: a proposed link is accepted exactly when its trades end up in one episode and,
      if it is a key link, begin close enough. */
  lemma AcceptedIff(g: Guards, b: Book, l: Link)
    requires BookOk(b) && (Try(l) in Steps(g, b) || TooFar(l) in Steps(g, b))
    ensures l.src in TradeIds(b) && l.dst in TradeIds(b)
    ensures var m := Assemble(g, b);
            && (l in m.accepted <==> !(IsKeyLink(l) && Apart(g, FactsOf(b), l)) && Together(m, l.src, l.dst))
            && (Refused(m, l, OverGap) <==> IsKeyLink(l) && Apart(g, FactsOf(b), l))
  {
    var m := Assemble(g, b);
    AssemblySources(g, b, l);
    FarStepsMeaning(g, b, l);
    AssemblyIsGood(g, b);
    if l in m.accepted {
      StepsWithin(g, b, Try(l));
      SameSetIffConnected(g, FactsOf(b), m, l.src, l.dst);
    }
    if Try(l) in Steps(g, b) {
      StepsWithin(g, b, Try(l));
      if Refused(m, l, OverSpan) { RefusalsAreJustified(g, b, l, OverSpan); }
      if Refused(m, l, CrossInstrument) { RefusalsAreJustified(g, b, l, CrossInstrument); }
    }
  }

  /** The quality flags of the finished assembly: what the events mark, and for both ends of every
      link turned down the reason. */
  lemma FlagsMeaning(g: Guards, b: Book, t: TradeId, flag: Flag)
    requires BookOk(b)
    ensures (t, flag) in Assemble(g, b).flags <==> Mark(t, flag) in Steps(g, b) || Blamed(Assemble(g, b), t, flag)
  {
    var f := FactsOf(b);
    FactsCoverTrades(b);
    InitIsGood(g, f);
    GoodIsFormed(g, f, Init(f));
    StrongStepsOk(g, b, Sorted(b.byTrade.Keys));
    WeakStepsOk(g, b);
    FoldFlags(g, Init(f), Steps(g, b), t, flag);
  }

  // ---------------------------------------------------------------- two trades on their own

  ghost predicate Touches(l: Link, x: TradeId) { l.src == x || l.dst == x }

  ghost predicate Between(l: Link, x: TradeId, y: TradeId) { (l.src == x && l.dst == y) || (l.src == y && l.dst == x) }

  /** Nothing is proposed between either of them and a third. */
  ghost predicate OnTheirOwn(g: Guards, b: Book, x: TradeId, y: TradeId)
    requires BookOk(b)
  {
    forall l :: Try(l) in Steps(g, b) && (Touches(l, x) || Touches(l, y)) ==> Between(l, x, y)
  }

  lemma AloneStaysAlone(links: seq<Link>, x: TradeId, u: TradeId)
    requires (forall l :: l in links ==> !Touches(l, x)) && Connected(links, x, u)
    ensures u == x
  {
    var p :| Path(links, p, x, u);
    assert |p| > 1 ==> Edge(links, p[0], p[1]);
  }

  /** No accepted link touches the trade: it is its own episode and its own core. */
  ghost predicate Alone(m: Merges, x: TradeId) { forall l :: l in m.accepted ==> !Touches(l, x) }

  lemma AloneMeaning(m: Merges, x: TradeId, u: TradeId)
    requires Alone(m, x)
    ensures Together(m, x, u) ==> u == x
    ensures Connected(Filter(m.accepted, IsStrong), x, u) ==> u == x
  {
    if Together(m, x, u) { AloneStaysAlone(m.accepted, x, u); }
    if Connected(Filter(m.accepted, IsStrong), x, u) { AloneStaysAlone(Filter(m.accepted, IsStrong), x, u); }
  }

  lemma OwnCore(f: Facts, ids: set<TradeId>, m: Merges, x: TradeId)
    requires Alone(m, x) && x in ids && x in f.own
    ensures InstrumentsOf(f, CoreOf(ids, Filter(m.accepted, IsStrong), x)) == f.own[x]
  {
    var strong := Filter(m.accepted, IsStrong);
    forall u ensures u in CoreOf(ids, strong, x) <==> u == x {
      AloneMeaning(m, x, u);
      Reflexive(strong, x);
    }
    assert CoreOf(ids, strong, x) == {x};
  }

  /** The two trades are no longer than the limit, taken together. */
  ghost predicate Close(g: Guards, f: Facts, x: TradeId, y: TradeId) {
    && x in f.first && y in f.first && x in f.last && y in f.last
    && Max(f.last[x], f.last[y]) - Min(f.first[x], f.first[y]) <= g.maxSpan
  }

  lemma AloneNeverExceed(g: Guards, f: Facts, m: Merges, x: TradeId, y: TradeId)
    requires m.rep.Keys <= f.first.Keys && m.rep.Keys <= f.last.Keys && Alone(m, x) && Alone(m, y) && Close(g, f, x, y)
    ensures !Exceed(g, f, m, x, y)
  {
    forall u | Together(m, x, u) || Together(m, y, u) ensures u == x || u == y {
      AloneMeaning(m, x, u);
      AloneMeaning(m, y, u);
    }
  }

  lemma NeverTooLong(g: Guards, b: Book, m: Merges, l: Link)
    requires BookOk(b) && m == Assemble(g, b) && Alone(m, l.src) && Alone(m, l.dst) && Close(g, FactsOf(b), l.src, l.dst)
    ensures !Refused(m, l, OverSpan)
  {
    if Refused(m, l, OverSpan) {
      RefusalsAreJustified(g, b, l, OverSpan);
      AloneNeverExceed(g, FactsOf(b), m, l.src, l.dst);
    }
  }

  lemma NeverCrossed(g: Guards, b: Book, m: Merges, l: Link)
    requires BookOk(b) && m == Assemble(g, b) && l.src in TradeIds(b) && l.dst in TradeIds(b)
    requires Alone(m, l.src) && Alone(m, l.dst) && FactsOf(b).own[l.src] == FactsOf(b).own[l.dst]
    ensures !Refused(m, l, CrossInstrument)
  {
    OwnCore(FactsOf(b), TradeIds(b), m, l.src);
    OwnCore(FactsOf(b), TradeIds(b), m, l.dst);
    if Refused(m, l, CrossInstrument) { RefusalsAreJustified(g, b, l, CrossInstrument); }
  }

  lemma NobodyElse(g: Guards, b: Book, m: Merges, l: Link)
    requires BookOk(b) && m == Assemble(g, b) && OnTheirOwn(g, b, l.src, l.dst)
    requires !Together(m, l.src, l.dst) && !Together(m, l.dst, l.src)
    ensures Alone(m, l.src) && Alone(m, l.dst)
  {
    forall k | k in m.accepted ensures !Touches(k, l.src) && !Touches(k, l.dst) {
      AssemblySources(g, b, k);
      if Touches(k, l.src) || Touches(k, l.dst) {
        assert Between(k, l.src, l.dst);
        OneEdge(m.accepted, l.src, l.dst);
      }
    }
  }

  lemma TogetherIsMutual(g: Guards, b: Book, x: TradeId, y: TradeId)
    requires BookOk(b) && x in TradeIds(b) && y in TradeIds(b)
    ensures Together(Assemble(g, b), x, y) <==> Together(Assemble(g, b), y, x)
  {
    AssemblyIsGood(g, b);
    SameSetIffConnected(g, FactsOf(b), Assemble(g, b), x, y);
    SameSetIffConnected(g, FactsOf(b), Assemble(g, b), y, x);
  }

  /** Two trades for which a link is tried and nothing else is proposed share an episode if they
      stay within the span and trade the same instruments. */
  lemma PairsJoin(g: Guards, b: Book, l: Link)
    requires BookOk(b) && Try(l) in Steps(g, b) && OnTheirOwn(g, b, l.src, l.dst)
    requires Close(g, FactsOf(b), l.src, l.dst) && l.src in TradeIds(b) && l.dst in TradeIds(b)
    requires FactsOf(b).own[l.src] == FactsOf(b).own[l.dst]
    ensures Together(Assemble(g, b), l.src, l.dst)
  {
    var m := Assemble(g, b);
    AcceptedIff(g, b, l);
    AssemblySources(g, b, l);
    TogetherIsMutual(g, b, l.src, l.dst);
    if !Together(m, l.src, l.dst) {
      NobodyElse(g, b, m, l);
      NeverTooLong(g, b, m, l);
      NeverCrossed(g, b, m, l);
    }
  }
}
