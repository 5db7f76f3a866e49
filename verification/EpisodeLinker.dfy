/** The linking code as it runs: union-find with path halving, and the stages over it. */
module EpisodeLinker {
  import opened Seqs
  import opened Trades
  import opened Linking
  import opened EpisodeAssembly
  import opened LinkRounds

  class UnionFind {
    var parent: map<TradeId, TradeId>
    ghost var rep: map<TradeId, TradeId>

    ghost predicate Valid() reads this { Leads(parent, rep) }

    constructor (items: set<TradeId>)
      ensures Valid() && rep == map i | i in items :: i
    {
      parent := map i | i in items :: i;
      rep := map i | i in items :: i;
      new;
      assert forall x :: x in rep ==> ClimbsAt(parent, rep, x) && LedAt(parent, rep, x);
    }

    /** The representative of `x`; shortens the path on the way and moves no representative. */
    method Find(x: TradeId) returns (r: TradeId)
      requires Valid() && x in rep
      modifies this`parent
      ensures Valid() && x in rep && r == rep[x] && r in rep && rep[r] == r
    {
      assert LedAt(parent, rep, x);
      r := x;
      while parent[r] != r
        invariant Valid() && r in parent && rep[r] == rep[x]
        decreases r
      {
        assert ClimbsAt(parent, rep, r) && ClimbsAt(parent, rep, parent[r]);
        HalvingKeepsLeaders(parent, rep, r);
        parent := Halved(parent, r);
        r := parent[r];
        assert ClimbsAt(parent, rep, r);
      }
      assert ClimbsAt(parent, rep, r);
    }

    /** The sets of `a` and `b` become one, led by the smaller of their representatives. */
    method Union(a: TradeId, b: TradeId) returns (root: TradeId)
      requires Valid() && a in rep && b in rep
      modifies this
      ensures Valid() && rep == Merged(old(rep), old(rep[a]), old(rep[b]))
      ensures root == old(if rep[a] < rep[b] then rep[a] else rep[b])
    {
      var ra := Find(a);
      var rb := Find(b);
      var child;
      root, child := if ra < rb then ra else rb, if ra < rb then rb else ra;
      HangingMerges(parent, rep, root, child);
      MergedIsSymmetric(rep, ra, rb);
      parent := parent[child := root];
      rep := Merged(rep, ra, rb);
    }
  }

  /** The state `build_episodes` keeps while it links. */
  class Linker {
    const g: Guards
    const uf: UnionFind
    var lo: map<TradeId, int>
    var hi: map<TradeId, int>
    var instruments: map<TradeId, set<Instrument>>
    var accepted: seq<Link>
    var rejected: seq<Rejection>
    var flags: set<(TradeId, Flag)>

    ghost function State(): Merges reads this, uf {
      Merges(uf.rep, lo, hi, instruments, accepted, rejected, flags)
    }

    ghost predicate Valid() reads this, uf {
      uf.Valid() && uf.rep.Keys == lo.Keys == hi.Keys == instruments.Keys
    }

    constructor (g: Guards, f: Facts)
      requires FactsOk(f)
      ensures Valid() && fresh(uf) && this.g == g && State() == Init(f)
    {
      this.g := g;
      uf := new UnionFind(f.first.Keys);
      lo, hi, instruments := f.first, f.last, f.own;
      accepted, rejected, flags := [], [], {};
    }

    /** Two sets become one, over the span the caller has checked. */
    method Combine(a: TradeId, b: TradeId, first: int, last: int)
      requires uf.Valid() && a in uf.rep && b in uf.rep && uf.rep[a] == a && uf.rep[b] == b && HasSet(State(), a) && HasSet(State(), b)
      requires first == Min(lo[a], lo[b]) && last == Max(hi[a], hi[b])
      modifies this, uf
      ensures uf.Valid() && State() == Join(old(State()), a, b)
    {
      var root := uf.Union(a, b);
      lo, hi := lo[root := first], hi[root := last];
      instruments := instruments[root := instruments[a] + instruments[b]];
    }

    /** The guarded merge, whose trades are known. */
    method TryMerge(l: Link)
      requires uf.Valid() && Ready(State(), l)
      modifies this, uf
      ensures uf.Valid() && State() == Linking.Attempt(g, old(State()), l)
    {
      var a := uf.Find(l.src);
      var b := uf.Find(l.dst);
      if a == b {
        accepted := accepted + [l];
        return;
      }
      var first, last := Min(lo[a], lo[b]), Max(hi[a], hi[b]);
      var reason := None;
      if last - first > g.maxSpan {
        reason := Some(OverSpan);
      } else if l.tier != Strong && instruments[a] != instruments[b] {
        reason := Some(CrossInstrument);
      }
      if reason.Some? {
        rejected := rejected + [Rejection(l, reason.value)];
        flags := flags + {(l.src, RejectedLink(reason.value)), (l.dst, RejectedLink(reason.value))};
      } else {
        Combine(a, b, first, last);
        accepted := accepted + [l];
      }
    }

    /** One guarded merge. */
    method Attempt(l: Link)
      requires Valid() && Within(State(), l)
      modifies this, uf
      ensures Valid() && State() == Take(g, old(State()), Try(l))
    {
      assert LedAt(uf.parent, uf.rep, l.src) && LedAt(uf.parent, uf.rep, l.dst);
      TryMerge(l);
    }

    method Flagged(t: TradeId, flag: Flag)
      requires Valid()
      modifies this`flags
      ensures Valid() && State() == Take(g, old(State()), Mark(t, flag))
    {
      flags := flags + {(t, flag)};
    }

    method Refuse(l: Link)
      requires Valid()
      modifies this`rejected
      ensures Valid() && State() == Take(g, old(State()), TooFar(l))
    {
      rejected := rejected + [Rejection(l, OverGap)];
    }

    /** The lineage link of one trade, if its first original id gives one. */
    method StrongLink(b: Book, t: TradeId)
      requires Valid() && b.byTrade.Keys <= uf.rep.Keys && t in b.byTrade
      modifies this, uf
      ensures Valid() && uf.rep.Keys == old(uf.rep.Keys) && State() == Fold(g, old(State()), StrongStep(g, b, t))
    {
      var original := Original(b.byTrade[t]);
      if original.None? || original.value == t { return; }
      if original.value in g.degenerate {
        Flagged(t, DegenerateOriginal);
      } else if original.value !in b.byTrade {
        Flagged(t, DanglingOriginal);
      } else {
        Attempt(Link(t, original.value, RebookOf, Strong));
      }
    }

    /** Stage one, in the order of the trade ids. */
    method StrongStage(b: Book)
      requires Valid() && b.byTrade.Keys <= uf.rep.Keys
      modifies this, uf
      ensures Valid() && uf.rep.Keys == old(uf.rep.Keys) && State() == Fold(g, old(State()), FirstSteps(g, b))
    {
      var ts := Sorted(b.byTrade.Keys);
      ghost var before, ids := State(), uf.rep.Keys;
      for i := 0 to |ts|
        invariant Valid() && uf.rep.Keys == ids
        invariant State() == Fold(g, before, StrongSteps(g, b, ts[..i]))
      {
        NextStrong(g, b, before, ts, i);
        StrongLink(b, ts[i]);
      }
      assert ts[..|ts|] == ts;
    }

    method OverlayLink(ids: set<TradeId>, o: Overlay)
      requires Valid() && uf.rep.Keys == ids
      modifies this, uf
      ensures Valid() && uf.rep.Keys == ids && State() == Fold(g, old(State()), OverlayStep(ids, o))
    {
      if o.src in ids && o.dst in ids && o.canonical {
        Attempt(Link(o.src, o.dst, AgentLink, Agent));
      }
    }

    /** The confirmed links, in the order of their pairs. */
    method OverlayStage(ids: set<TradeId>, os: seq<Overlay>)
      requires Valid() && uf.rep.Keys == ids
      modifies this, uf
      ensures Valid() && uf.rep.Keys == ids && State() == Fold(g, old(State()), OverlaySteps(ids, os))
    {
      ghost var before := State();
      for i := 0 to |os|
        invariant Valid() && uf.rep.Keys == ids
        invariant State() == Fold(g, before, OverlaySteps(ids, os[..i]))
      {
        NextOverlay(g, ids, before, os, i);
        OverlayLink(ids, os[i]);
      }
      assert os[..|os|] == os;
    }

    /** Marks a trade's degenerate key, or indexes the trade. */
    method IndexTrade(b: Book, name: KeyName, t: TradeId, index: map<nat, set<TradeId>>) returns (next: map<nat, set<TradeId>>)
      requires Valid() && BookOk(b) && t in b.byTrade
      modifies this`flags
      ensures Valid() && State() == Fold(g, old(State()), KeyMark(g, b, name, t))
      ensures next == WithTrade(g, b, name, index, t)
    {
      next := index;
      var value := KeyValue(b.byTrade[t][0], name);
      if value.Some? {
        if value.value in g.degenerate {
          Flagged(t, DegenerateKey(name));
        } else {
          var v := g.strip(value.value);
          var holders := Entry(next, v) + {t};
          if name == AlternateTradeId && v in b.byTrade {
            holders := holders + {v};
          }
          next := next[v := holders];
        }
      }
    }

    /** Marks the degenerate keys and indexes the others. */
    method BuildIndex(b: Book, name: KeyName) returns (index: map<nat, set<TradeId>>)
      requires Valid() && BookOk(b)
      modifies this`flags
      ensures Valid() && State() == Fold(g, old(State()), KeyMarks(g, b, name, Sorted(b.byTrade.Keys)))
      ensures index == Index(g, b, name, b.byTrade.Keys)
    {
      var ts := Sorted(b.byTrade.Keys);
      index := map[];
      NoneIndexed(g, b, name, ts);
      ghost var before := State();
      for i := 0 to |ts|
        invariant Valid()
        invariant State() == Fold(g, before, KeyMarks(g, b, name, ts[..i]))
        invariant Indexed(g, b, name, ts, i, index)
      {
        NextKeyMark(g, b, name, before, ts, i);
        ghost var was := index;
        index := IndexTrade(b, name, ts[i], index);
        IndexedNext(g, b, name, ts, i, was, index);
      }
      assert ts[..|ts|] == ts;
      AllIndexed(g, b, name, ts, index);
    }

    /** Marks the trades of a key that too many share. */
    method DemoteHub(name: KeyName, ts: seq<TradeId>)
      requires Valid()
      modifies this`flags
      ensures Valid() && State() == Fold(g, old(State()), HubMarks(name, ts))
    {
      ghost var before := State();
      for i := 0 to |ts|
        invariant Valid() && State() == Fold(g, before, HubMarks(name, ts[..i]))
      {
        NextHubMark(g, name, before, ts, i);
        Flagged(ts[i], HubDemoted(name));
      }
      assert ts[..|ts|] == ts;
    }

    /** One trade against the anchor of its key. */
    method AttachOne(f: Facts, name: KeyName, anchor: TradeId, t: TradeId)
      requires Valid() && anchor in f.first && t in f.first && uf.rep.Keys == f.first.Keys
      modifies this, uf
      ensures Valid() && uf.rep.Keys == f.first.Keys && State() == Fold(g, old(State()), AttachStep(g, f, name, anchor, t))
    {
      var l := Link(t, anchor, KindOf(name), Medium);
      if Distance(f.first[t], f.first[anchor]) > g.mediumGap {
        Refuse(l);
      } else {
        Attempt(l);
      }
    }

    /** The trades of a key, one after the other, against its anchor. */
    method AttachAll(f: Facts, name: KeyName, anchor: TradeId, ts: seq<TradeId>)
      requires Valid() && anchor in f.first && (forall t :: t in ts ==> t in f.first) && uf.rep.Keys == f.first.Keys
      modifies this, uf
      ensures Valid() && uf.rep.Keys == f.first.Keys && State() == Fold(g, old(State()), AttachSteps(g, f, name, anchor, ts))
    {
      ghost var before := State();
      for i := 0 to |ts|
        invariant Valid() && uf.rep.Keys == f.first.Keys
        invariant State() == Fold(g, before, AttachSteps(g, f, name, anchor, ts[..i]))
      {
        NextAttach(g, f, name, before, anchor, ts, i);
        AttachOne(f, name, anchor, ts[i]);
      }
      assert ts[..|ts|] == ts;
    }

    /** The trades that share one key value. */
    method AttachHolders(f: Facts, name: KeyName, holders: set<TradeId>)
      requires Valid() && holders != {} && holders <= f.first.Keys && uf.rep.Keys == f.first.Keys
      modifies this, uf
      ensures Valid() && uf.rep.Keys == f.first.Keys && State() == Fold(g, old(State()), ValueSteps(g, f, name, holders))
    {
      var ts := Sorted(holders);
      assert Least(holders) in ts;
      if |ts| > g.maxFanout {
        DemoteHub(name, ts);
      } else {
        AttachAll(f, name, ts[0], ts[1..]);
      }
    }

    method AttachEntry(f: Facts, name: KeyName, index: map<nat, set<TradeId>>, v: nat)
      requires Valid() && IndexOk(f, index) && v in index && uf.rep.Keys == f.first.Keys
      modifies this, uf
      ensures Valid() && uf.rep.Keys == f.first.Keys && State() == Fold(g, old(State()), ValueSteps(g, f, name, index[v]))
    {
      AttachHolders(f, name, index[v]);
    }

    /** Every indexed value, in order. */
    method AttachIndex(f: Facts, name: KeyName, index: map<nat, set<TradeId>>)
      requires Valid() && IndexOk(f, index) && uf.rep.Keys == f.first.Keys
      modifies this, uf
      ensures Valid() && uf.rep.Keys == f.first.Keys
      ensures State() == Fold(g, old(State()), IndexSteps(g, f, name, index, Sorted(index.Keys)))
    {
      var vs := Sorted(index.Keys);
      ghost var before := State();
      for i := 0 to |vs|
        invariant Valid() && uf.rep.Keys == f.first.Keys
        invariant Attached(g, f, name, index, before, vs, i, State())
      {
        ghost var mid := State();
        AttachEntry(f, name, index, vs[i]);
        AttachedNext(g, f, name, index, before, vs, i, mid, State());
      }
      AllAttached(g, f, name, index, before, vs, State());
    }

    /** Stage two for one key. */
    method KeyStage(b: Book, name: KeyName)
      requires Valid() && BookOk(b) && uf.rep.Keys == TradeIds(b)
      modifies this, uf
      ensures Valid() && uf.rep.Keys == TradeIds(b) && State() == Fold(g, old(State()), KeySteps(g, b, name))
    {
      IndexIsOk(g, b, name);
      FactsCoverTrades(b);
      var index := BuildIndex(b, name);
      AttachIndex(FactsOf(b), name, index);
      FoldConcat(g, old(State()), KeyMarks(g, b, name, Sorted(b.byTrade.Keys)),
                 IndexSteps(g, FactsOf(b), name, index, Sorted(index.Keys)));
    }
  }

  /** The two stages, run over a fresh state, are the fold of their steps. */
  method LinkAll(g: Guards, b: Book) returns (linker: Linker)
    requires BookOk(b)
    ensures fresh(linker) && linker.Valid() && linker.State() == Assemble(g, b)
  {
    var f := FactsOf(b);
    FactsCoverTrades(b);
    AssembleInStages(g, b);
    linker := new Linker(g, f);
    linker.StrongStage(b);
    linker.OverlayStage(TradeIds(b), b.overlay);
    linker.KeyStage(b, UrnRef);
    linker.KeyStage(b, AlternateTradeId);
  }
}
