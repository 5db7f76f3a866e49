/** What one move of the union-find and one round of each linking loop do, stated on values. */
module LinkRounds {
  import opened Seqs
  import opened Trades
  import opened Linking
  import opened EpisodeAssembly

  /** The parent of `x` is no larger and in the same set, and a root is its own representative. */
  ghost predicate ClimbsAt(parent: map<TradeId, TradeId>, rep: map<TradeId, TradeId>, x: TradeId) {
    && x in parent && x in rep
    && parent[x] in parent && parent[x] in rep
    && parent[x] <= x && rep[parent[x]] == rep[x] && (parent[x] == x ==> rep[x] == x)
  }

  /** The representative of `x` is a root, and no larger than `x`. */
  ghost predicate LedAt(parent: map<TradeId, TradeId>, rep: map<TradeId, TradeId>, x: TradeId) {
    x in rep && rep[x] in rep && rep[x] in parent && parent[rep[x]] == rep[x] && rep[x] <= x
  }

  /** Climbing from any id ends at its representative. */
  ghost predicate Leads(parent: map<TradeId, TradeId>, rep: map<TradeId, TradeId>) {
    && parent.Keys == rep.Keys
    && (forall x {:trigger ClimbsAt(parent, rep, x)} :: x in rep ==> ClimbsAt(parent, rep, x))
    && (forall x {:trigger LedAt(parent, rep, x)} :: x in rep ==> LedAt(parent, rep, x))
  }

  function Halved(parent: map<TradeId, TradeId>, x: TradeId): map<TradeId, TradeId>
    requires x in parent && parent[x] in parent
  {
    parent[x := parent[parent[x]]]
  }

  /** Pointing an id at its grandparent moves no representative. */
  lemma HalvingKeepsLeaders(parent: map<TradeId, TradeId>, rep: map<TradeId, TradeId>, x: TradeId)
    requires Leads(parent, rep) && x in parent && parent[x] in parent && parent[x] != x
    ensures Leads(Halved(parent, x), rep)
  {
    var after := Halved(parent, x);
    assert after.Keys == rep.Keys;
    assert ClimbsAt(parent, rep, x) && ClimbsAt(parent, rep, parent[x]);
    forall y | y in rep ensures ClimbsAt(after, rep, y) && LedAt(after, rep, y) {
      assert ClimbsAt(parent, rep, y) && LedAt(parent, rep, y);
    }
  }

  lemma HangingAt(parent: map<TradeId, TradeId>, rep: map<TradeId, TradeId>, root: TradeId, child: TradeId, x: TradeId)
    requires ClimbsAt(parent, rep, x) && LedAt(parent, rep, x)
    requires LedAt(parent, rep, root) && LedAt(parent, rep, child) && parent.Keys == rep.Keys
    requires rep[root] == root && rep[child] == child && root <= child
    ensures var after, merged := parent[child := root], Merged(rep, root, child);
            ClimbsAt(after, merged, x) && LedAt(after, merged, x)
  {
  }

  /** Hanging the larger of two roots below the smaller merges exactly their two sets. */
  lemma HangingMerges(parent: map<TradeId, TradeId>, rep: map<TradeId, TradeId>, root: TradeId, child: TradeId)
    requires Leads(parent, rep) && root in rep && child in rep && rep[root] == root && rep[child] == child && root <= child
    ensures Leads(parent[child := root], Merged(rep, root, child))
  {
    var after, merged := parent[child := root], Merged(rep, root, child);
    assert LedAt(parent, rep, root) && LedAt(parent, rep, child);
    assert after.Keys == merged.Keys;
    forall x | x in rep ensures ClimbsAt(after, merged, x) && LedAt(after, merged, x) {
      assert ClimbsAt(parent, rep, x) && LedAt(parent, rep, x);
      HangingAt(parent, rep, root, child, x);
    }
  }

  lemma MergedIsSymmetric(rep: map<TradeId, TradeId>, a: TradeId, b: TradeId)
    ensures Merged(rep, a, b) == Merged(rep, b, a)
  {
  }

  // ---------------------------------------------------------------- one more round of each loop

  lemma NextStrong(g: Guards, b: Book, m: Merges, ts: seq<TradeId>, i: nat)
    requires i < |ts| && forall t :: t in ts ==> t in b.byTrade
    ensures Fold(g, m, StrongSteps(g, b, ts[..i + 1])) == Fold(g, Fold(g, m, StrongSteps(g, b, ts[..i])), StrongStep(g, b, ts[i]))
  {
    assert ts[..i + 1][..i] == ts[..i];
    FoldConcat(g, m, StrongSteps(g, b, ts[..i]), StrongStep(g, b, ts[i]));
  }

  lemma NextOverlay(g: Guards, ids: set<TradeId>, m: Merges, os: seq<Overlay>, i: nat)
    requires i < |os|
    ensures Fold(g, m, OverlaySteps(ids, os[..i + 1])) == Fold(g, Fold(g, m, OverlaySteps(ids, os[..i])), OverlayStep(ids, os[i]))
  {
    assert os[..i + 1][..i] == os[..i];
    FoldConcat(g, m, OverlaySteps(ids, os[..i]), OverlayStep(ids, os[i]));
  }

  lemma NextKeyMark(g: Guards, b: Book, name: KeyName, m: Merges, ts: seq<TradeId>, i: nat)
    requires BookOk(b) && i < |ts| && forall t :: t in ts ==> t in b.byTrade
    ensures Fold(g, m, KeyMarks(g, b, name, ts[..i + 1])) == Fold(g, Fold(g, m, KeyMarks(g, b, name, ts[..i])), KeyMark(g, b, name, ts[i]))
  {
    assert ts[..i + 1][..i] == ts[..i];
    FoldConcat(g, m, KeyMarks(g, b, name, ts[..i]), KeyMark(g, b, name, ts[i]));
  }

  lemma NextHubMark(g: Guards, name: KeyName, m: Merges, ts: seq<TradeId>, i: nat)
    requires i < |ts|
    ensures Fold(g, m, HubMarks(name, ts[..i + 1])) == Fold(g, Fold(g, m, HubMarks(name, ts[..i])), [Mark(ts[i], HubDemoted(name))])
  {
    assert ts[..i + 1][..i] == ts[..i];
    FoldConcat(g, m, HubMarks(name, ts[..i]), [Mark(ts[i], HubDemoted(name))]);
  }

  lemma NextAttach(g: Guards, f: Facts, name: KeyName, m: Merges, anchor: TradeId, ts: seq<TradeId>, i: nat)
    requires i < |ts| && anchor in f.first && forall t :: t in ts ==> t in f.first
    ensures Fold(g, m, AttachSteps(g, f, name, anchor, ts[..i + 1]))
            == Fold(g, Fold(g, m, AttachSteps(g, f, name, anchor, ts[..i])), AttachStep(g, f, name, anchor, ts[i]))
  {
    assert ts[..i + 1][..i] == ts[..i];
    FoldConcat(g, m, AttachSteps(g, f, name, anchor, ts[..i]), AttachStep(g, f, name, anchor, ts[i]));
  }

  lemma NextValue(g: Guards, f: Facts, name: KeyName, index: map<nat, set<TradeId>>, m: Merges, vs: seq<nat>, i: nat)
    requires i < |vs| && IndexOk(f, index) && forall v :: v in vs ==> v in index
    ensures Fold(g, m, IndexSteps(g, f, name, index, vs[..i + 1]))
            == Fold(g, Fold(g, m, IndexSteps(g, f, name, index, vs[..i])), ValueSteps(g, f, name, index[vs[i]]))
  {
    assert vs[..i + 1][..i] == vs[..i];
    FoldConcat(g, m, IndexSteps(g, f, name, index, vs[..i]), ValueSteps(g, f, name, index[vs[i]]));
  }

  function Front(ts: seq<TradeId>, i: nat): set<TradeId>
    requires i <= |ts|
  {
    set t | t in ts[..i]
  }

  lemma NextFront(ts: seq<TradeId>, i: nat)
    requires i < |ts|
    ensures Front(ts, i + 1) == Front(ts, i) + {ts[i]}
  {
    assert ts[..i + 1] == ts[..i] + [ts[i]];
  }

  function Entry(index: map<nat, set<TradeId>>, v: nat): set<TradeId> { if v in index then index[v] else {} }

  lemma SameHolders(g: Guards, b: Book, name: KeyName, seen: set<TradeId>, t: TradeId, v: nat)
    requires BookOk(b) && seen <= b.byTrade.Keys && t in b.byTrade && UsableValue(g, b, name, t) != Some(v)
    requires v in Index(g, b, name, seen + {t})
    ensures v in Index(g, b, name, seen) && Index(g, b, name, seen)[v] == Index(g, b, name, seen + {t})[v]
  {
    var own := set u | u in seen && UsableValue(g, b, name, u) == Some(v);
    var more := set u | u in seen + {t} && UsableValue(g, b, name, u) == Some(v);
    assert own == more;
    var u :| u in seen + {t} && UsableValue(g, b, name, u) == Some(v);
    assert u in seen;
  }

  lemma MoreHolders(g: Guards, b: Book, name: KeyName, seen: set<TradeId>, t: TradeId, v: nat)
    requires BookOk(b) && seen <= b.byTrade.Keys && t in b.byTrade && UsableValue(g, b, name, t) == Some(v)
    ensures var before, after := Index(g, b, name, seen), Index(g, b, name, seen + {t});
            v in after && after[v] == Entry(before, v) + {t} + if name == AlternateTradeId && v in b.byTrade then {v} else {}
  {
    var own := set u | u in seen && UsableValue(g, b, name, u) == Some(v);
    var more := set u | u in seen + {t} && UsableValue(g, b, name, u) == Some(v);
    assert more == own + {t};
    assert t in seen + {t};
    if own != {} {
      var u :| u in own;
      assert v in Index(g, b, name, seen);
    }
  }

  /** The index with one more trade. */
  function WithTrade(g: Guards, b: Book, name: KeyName, index: map<nat, set<TradeId>>, t: TradeId): map<nat, set<TradeId>>
    requires BookOk(b) && t in b.byTrade
  {
    match UsableValue(g, b, name, t)
    case None => index
    case Some(v) => if name == AlternateTradeId && v in b.byTrade then index[v := Entry(index, v) + {t} + {v}] else index[v := Entry(index, v) + {t}]
  }

  lemma NextIndexAt(g: Guards, b: Book, name: KeyName, seen: set<TradeId>, t: TradeId, v: nat)
    requires BookOk(b) && seen <= b.byTrade.Keys && t in b.byTrade
    ensures var next, after := WithTrade(g, b, name, Index(g, b, name, seen), t), Index(g, b, name, seen + {t});
            (v in next <==> v in after) && (v in after ==> next[v] == after[v])
  {
    if UsableValue(g, b, name, t) == Some(v) {
      MoreHolders(g, b, name, seen, t, v);
    } else if v in Index(g, b, name, seen + {t}) {
      SameHolders(g, b, name, seen, t, v);
    }
  }

  lemma NextIndex(g: Guards, b: Book, name: KeyName, ts: seq<TradeId>, i: nat)
    requires BookOk(b) && i < |ts| && forall t :: t in ts ==> t in b.byTrade
    ensures Front(ts, i) <= b.byTrade.Keys && Front(ts, i + 1) <= b.byTrade.Keys
    ensures Index(g, b, name, Front(ts, i + 1)) == WithTrade(g, b, name, Index(g, b, name, Front(ts, i)), ts[i])
  {
    NextFront(ts, i);
    var next, after := WithTrade(g, b, name, Index(g, b, name, Front(ts, i)), ts[i]), Index(g, b, name, Front(ts, i + 1));
    forall v ensures (v in next <==> v in after) && (v in after ==> next[v] == after[v]) {
      NextIndexAt(g, b, name, Front(ts, i), ts[i], v);
    }
    SameIndex(next, after);
  }

  lemma SameIndex(a: map<nat, set<TradeId>>, b: map<nat, set<TradeId>>)
    requires forall v :: (v in a <==> v in b) && (v in b ==> a[v] == b[v])
    ensures a == b
  {
  }

  /** The first `i` trades are indexed. */
  ghost predicate Indexed(g: Guards, b: Book, name: KeyName, ts: seq<TradeId>, i: nat, index: map<nat, set<TradeId>>)
    requires BookOk(b)
  {
    i <= |ts| && Front(ts, i) <= b.byTrade.Keys && index == Index(g, b, name, Front(ts, i))
  }

  lemma IndexedNext(g: Guards, b: Book, name: KeyName, ts: seq<TradeId>, i: nat, index: map<nat, set<TradeId>>, next: map<nat, set<TradeId>>)
    requires BookOk(b) && i < |ts| && (forall t :: t in ts ==> t in b.byTrade)
    requires Indexed(g, b, name, ts, i, index) && next == WithTrade(g, b, name, index, ts[i])
    ensures Indexed(g, b, name, ts, i + 1, next)
  {
    NextIndex(g, b, name, ts, i);
  }

  lemma NoneIndexed(g: Guards, b: Book, name: KeyName, ts: seq<TradeId>)
    requires BookOk(b)
    ensures Indexed(g, b, name, ts, 0, map[])
  {
  }

  lemma AllIndexed(g: Guards, b: Book, name: KeyName, ts: seq<TradeId>, index: map<nat, set<TradeId>>)
    requires BookOk(b) && (forall t :: t in ts <==> t in b.byTrade) && Indexed(g, b, name, ts, |ts|, index)
    ensures index == Index(g, b, name, b.byTrade.Keys)
  {
    assert ts[..|ts|] == ts;
    assert Front(ts, |ts|) == b.byTrade.Keys;
  }

  /** The first `i` indexed values are attached. */
  ghost predicate Attached(g: Guards, f: Facts, name: KeyName, index: map<nat, set<TradeId>>, m: Merges, vs: seq<nat>, i: nat, n: Merges)
    requires IndexOk(f, index) && forall v :: v in vs ==> v in index
  {
    i <= |vs| && n == Fold(g, m, IndexSteps(g, f, name, index, vs[..i]))
  }

  lemma AttachedNext(g: Guards, f: Facts, name: KeyName, index: map<nat, set<TradeId>>, m: Merges, vs: seq<nat>, i: nat, mid: Merges, n: Merges)
    requires IndexOk(f, index) && (forall v :: v in vs ==> v in index) && i < |vs|
    requires Attached(g, f, name, index, m, vs, i, mid) && n == Fold(g, mid, ValueSteps(g, f, name, index[vs[i]]))
    ensures Attached(g, f, name, index, m, vs, i + 1, n)
  {
    NextValue(g, f, name, index, m, vs, i);
  }

  lemma AllAttached(g: Guards, f: Facts, name: KeyName, index: map<nat, set<TradeId>>, m: Merges, vs: seq<nat>, n: Merges)
    requires IndexOk(f, index) && (forall v :: v in vs ==> v in index) && Attached(g, f, name, index, m, vs, |vs|, n)
    ensures n == Fold(g, m, IndexSteps(g, f, name, index, vs))
  {
    assert vs[..|vs|] == vs;
  }

  lemma AssembleInStages(g: Guards, b: Book)
    requires BookOk(b)
    ensures Assemble(g, b) ==
            Fold(g, Fold(g, Fold(g, Fold(g, Init(FactsOf(b)), FirstSteps(g, b)), OverlaySteps(TradeIds(b), b.overlay)),
                         KeySteps(g, b, UrnRef)), KeySteps(g, b, AlternateTradeId))
  {
    var m, first, over := Init(FactsOf(b)), FirstSteps(g, b), OverlaySteps(TradeIds(b), b.overlay);
    FoldConcat(g, m, first, WeakSteps(g, b));
    FoldConcat(g, Fold(g, m, first), over + KeySteps(g, b, UrnRef), KeySteps(g, b, AlternateTradeId));
    FoldConcat(g, Fold(g, m, first), over, KeySteps(g, b, UrnRef));
  }
}
