/** Support counts of item combinations, and the rarest combination of individually common items. */
module JointRarity {
  import opened Seqs

  /** Informative items, numbered in their string order. */
  type Item = nat

  // ---------------------------------------------------------------- combinations

  function Prepended(x: Item, cs: seq<seq<Item>>): (r: seq<seq<Item>>)
    ensures |r| == |cs|
    ensures forall i :: 0 <= i < |cs| ==> r[i] == [x] + cs[i]
  {
    if cs == [] then [] else [[x] + cs[0]] + Prepended(x, cs[1..])
  }

  /** `combinations(items, size)`, in the order it yields them. */
  function Combos(items: seq<Item>, size: nat): seq<seq<Item>> {
    if size == 0 then [[]]
    else if items == [] then []
    else Prepended(items[0], Combos(items[1..], size - 1)) + Combos(items[1..], size)
  }

  ghost predicate IsCombo(items: seq<Item>, size: nat, c: seq<Item>) {
    |c| == size && Ascending(c) && forall x {:trigger x in c} :: x in c ==> x in items
  }

  lemma PrependedMembers(x: Item, cs: seq<seq<Item>>, c: seq<Item>)
    ensures c in Prepended(x, cs) <==> c != [] && c[0] == x && c[1..] in cs
  {
    var r := Prepended(x, cs);
    if c != [] && c[0] == x && c[1..] in cs {
      var i :| 0 <= i < |cs| && cs[i] == c[1..];
      assert r[i] == [x] + c[1..] == c;
    }
    if c in r {
      var i :| 0 <= i < |r| && r[i] == c;
      assert c == [x] + cs[i] && c[1..] == cs[i];
    }
  }

  lemma AscendingFirst(c: seq<Item>)
    requires c != [] && Ascending(c)
    ensures Ascending(c[1..]) && forall y :: y in c[1..] ==> c[0] < y
  {
    forall y | y in c[1..] ensures c[0] < y {
      var i :| 0 <= i < |c[1..]| && c[1..][i] == y;
      assert c[i + 1] == y;
    }
  }

  lemma AscendingWith(c: seq<Item>)
    requires c != [] && Ascending(c[1..]) && forall y :: y in c[1..] ==> c[0] < y
    ensures Ascending(c)
  {
    forall i, j | 0 <= i < j < |c| ensures c[i] < c[j] {
      assert c[j] == c[1..][j - 1] && c[1..][j - 1] in c[1..];
      if i > 0 { assert c[i] == c[1..][i - 1]; }
    }
  }

  lemma ComboTail(items: seq<Item>, size: nat, c: seq<Item>)
    requires Ascending(items) && items != [] && size > 0 && c != [] && c[0] == items[0]
    ensures IsCombo(items, size, c) <==> IsCombo(items[1..], size - 1, c[1..])
  {
    AscendingFirst(items);
    assert items == [items[0]] + items[1..] && c == [c[0]] + c[1..];
    if IsCombo(items, size, c) {
      AscendingFirst(c);
      forall y | y in c[1..] ensures y in items[1..] { assert y in c; }
    }
    if IsCombo(items[1..], size - 1, c[1..]) {
      forall y | y in c[1..] ensures c[0] < y && y in items { assert y in items[1..]; }
      AscendingWith(c);
    }
  }

  lemma ComboWithout(items: seq<Item>, size: nat, c: seq<Item>)
    requires Ascending(items) && items != [] && size > 0 && (c == [] || c[0] != items[0])
    ensures IsCombo(items, size, c) <==> IsCombo(items[1..], size, c)
  {
    AscendingFirst(items);
    assert items == [items[0]] + items[1..];
    if IsCombo(items, size, c) && c != [] {
      AscendingFirst(c);
      assert c == [c[0]] + c[1..] && c[0] in c && c[0] in items[1..];
      forall y | y in c ensures y in items[1..] {
        assert items[0] < c[0] && (y == c[0] || y in c[1..]);
      }
    }
    if IsCombo(items[1..], size, c) {
      forall y | y in c ensures y in items { assert y in items[1..]; }
    }
  }

  lemma ComboNeedsTail(items: seq<Item>, size: nat, c: seq<Item>)
    requires Ascending(items) && items != [] && c != [] && c[0] == items[0]
    ensures !IsCombo(items[1..], size, c)
  {
    AscendingFirst(items);
    assert c[0] in c;
  }

  lemma ComboSplit(items: seq<Item>, size: nat, c: seq<Item>)
    requires items != [] && size > 0
    ensures c in Combos(items, size) <==>
            (c != [] && c[0] == items[0] && c[1..] in Combos(items[1..], size - 1)) || c in Combos(items[1..], size)
  {
    PrependedMembers(items[0], Combos(items[1..], size - 1), c);
  }

  lemma ComboWithFirst(items: seq<Item>, size: nat, c: seq<Item>, rest: seq<Item>, tail: seq<Item>)
    requires Ascending(items) && items != [] && size > 0 && c != [] && c[0] == items[0] && rest == items[1..] && tail == c[1..]
    requires tail in Combos(rest, size - 1) <==> IsCombo(rest, size - 1, tail)
    requires c in Combos(rest, size) <==> IsCombo(rest, size, c)
    ensures c in Combos(items, size) <==> IsCombo(items, size, c)
  {
    ComboSplit(items, size, c);
    ComboTail(items, size, c);
    ComboNeedsTail(items, size, c);
  }

  lemma ComboWithoutFirst(items: seq<Item>, size: nat, c: seq<Item>)
    requires Ascending(items) && items != [] && size > 0 && (c == [] || c[0] != items[0])
    requires c in Combos(items[1..], size) <==> IsCombo(items[1..], size, c)
    ensures c in Combos(items, size) <==> IsCombo(items, size, c)
  {
    ComboSplit(items, size, c);
    ComboWithout(items, size, c);
  }

  ghost predicate Yields(items: seq<Item>, size: nat) {
    forall c {:trigger IsCombo(items, size, c)} :: c in Combos(items, size) <==> IsCombo(items, size, c)
  }

  lemma YieldsMore(items: seq<Item>, size: nat, rest: seq<Item>)
    requires Ascending(items) && items != [] && size > 0 && rest == items[1..]
    requires Yields(rest, size - 1) && Yields(rest, size)
    ensures Yields(items, size)
  {
    forall c ensures c in Combos(items, size) <==> IsCombo(items, size, c) {
      assert IsCombo(rest, size, c) <==> c in Combos(rest, size);
      if c != [] && c[0] == items[0] {
        assert IsCombo(rest, size - 1, c[1..]) <==> c[1..] in Combos(rest, size - 1);
        ComboWithFirst(items, size, c, rest, c[1..]);
      } else {
        ComboWithoutFirst(items, size, c);
      }
    }
  }

  lemma {:induction false} AllYield(items: seq<Item>, size: nat)
    requires Ascending(items)
    ensures Yields(items, size)
    decreases |items|
  {
    if size == 0 || items == [] {
      forall c ensures c in Combos(items, size) <==> IsCombo(items, size, c) { NothingToCombine(items, size, c); }
    } else {
      var rest := items[1..];
      TailAscends(items);
      AllYield(rest, size - 1);
      AllYield(rest, size);
      YieldsMore(items, size, rest);
    }
  }

  /** Of sorted distinct items, exactly the sorted subsets of the size are yielded. */
  lemma CombosAreSubsets(items: seq<Item>, size: nat, c: seq<Item>)
    requires Ascending(items)
    ensures c in Combos(items, size) <==> IsCombo(items, size, c)
  {
    AllYield(items, size);
  }

  lemma NothingToCombine(items: seq<Item>, size: nat, c: seq<Item>)
    requires size == 0 || items == []
    ensures c in Combos(items, size) <==> IsCombo(items, size, c)
  {
    if c != [] { assert c[0] in c; }
  }

  lemma TailAscends(items: seq<Item>)
    requires items != [] && Ascending(items)
    ensures Ascending(items[1..])
  {
  }

  lemma PrependedDistinct(x: Item, cs: seq<seq<Item>>)
    requires NoDuplicates(cs)
    ensures NoDuplicates(Prepended(x, cs))
  {
    var r := Prepended(x, cs);
    forall i: int, j: int | 0 <= i < j < |r| ensures r[i] != r[j] {
      assert r[i][1..] == cs[i] && r[j][1..] == cs[j];
    }
  }

  ghost predicate Apart(xs: seq<seq<Item>>, ys: seq<seq<Item>>) { forall x :: x in xs ==> x !in ys }

  lemma DistinctConcat(xs: seq<seq<Item>>, ys: seq<seq<Item>>)
    requires NoDuplicates(xs) && NoDuplicates(ys) && Apart(xs, ys)
    ensures NoDuplicates(xs + ys)
  {
    var all := xs + ys;
    forall i: int, j: int | 0 <= i < j < |all| ensures all[i] != all[j] {
      if i < |xs| <= j { assert all[i] in xs && all[j] == ys[j - |xs|] && all[j] in ys; }
    }
  }

  lemma {:induction false} CombosAreDistinct(items: seq<Item>, size: nat)
    requires Ascending(items)
    ensures NoDuplicates(Combos(items, size))
    decreases |items|
  {
    if size > 0 && items != [] {
      var x, rest := items[0], items[1..];
      AscendingFirst(items);
      CombosAreDistinct(rest, size - 1);
      CombosAreDistinct(rest, size);
      PrependedDistinct(x, Combos(rest, size - 1));
      forall c | c in Prepended(x, Combos(rest, size - 1)) ensures c !in Combos(rest, size) {
        PrependedMembers(x, Combos(rest, size - 1), c);
        CombosAreSubsets(rest, size, c);
        ComboNeedsTail(items, size, c);
      }
      DistinctConcat(Prepended(x, Combos(rest, size - 1)), Combos(rest, size));
    }
  }

  // ---------------------------------------------------------------- the index

  /** How many of `windows` contain every item of `c`. */
  function Containing(windows: seq<set<Item>>, c: seq<Item>): nat {
    if windows == [] then 0
    else Containing(windows[..|windows| - 1], c) + if Contains(windows[|windows| - 1], c) then 1 else 0
  }

  predicate Contains(items: set<Item>, c: seq<Item>) { forall x :: x in c ==> x in items }

  type Counts = map<seq<Item>, nat>

  function Get(counts: Counts, c: seq<Item>): nat { if c in counts then counts[c] else 0 }

  datatype Index = Index(n: nat, counts: Counts)

  /** The combinations one episode adds, up to the order. */
  function AllCombos(items: seq<Item>, order: nat): seq<seq<Item>> {
    if order == 0 then [] else AllCombos(items, order - 1) + Combos(items, order)
  }

  lemma {:induction false} AllCombosMembers(items: seq<Item>, order: nat, c: seq<Item>)
    requires Ascending(items)
    ensures c in AllCombos(items, order) <==> 1 <= |c| <= order && IsCombo(items, |c|, c)
  {
    if order > 0 {
      AllCombosMembers(items, order - 1, c);
      CombosAreSubsets(items, order, c);
    }
  }

  ghost predicate OfSize(cs: seq<seq<Item>>, least: nat, most: nat) { forall c :: c in cs ==> least <= |c| <= most }

  lemma CombosSize(items: seq<Item>, size: nat)
    requires Ascending(items)
    ensures OfSize(Combos(items, size), size, size)
  {
    AllYield(items, size);
  }

  lemma {:induction false} AllCombosSize(items: seq<Item>, order: nat)
    requires Ascending(items)
    ensures OfSize(AllCombos(items, order), 0, order)
  {
    if order > 0 {
      AllCombosSize(items, order - 1);
      CombosSize(items, order);
      SizesConcat(AllCombos(items, order - 1), Combos(items, order), order);
    }
  }

  lemma SizesConcat(xs: seq<seq<Item>>, ys: seq<seq<Item>>, size: nat)
    requires size > 0 && OfSize(xs, 0, size - 1) && OfSize(ys, size, size)
    ensures OfSize(xs + ys, 0, size) && Apart(xs, ys)
  {
  }

  lemma {:induction false} AllCombosAreDistinct(items: seq<Item>, order: nat)
    requires Ascending(items)
    ensures NoDuplicates(AllCombos(items, order))
  {
    if order > 0 {
      var smaller, larger := AllCombos(items, order - 1), Combos(items, order);
      AllCombosAreDistinct(items, order - 1);
      CombosAreDistinct(items, order);
      AllCombosSize(items, order - 1);
      CombosSize(items, order);
      SizesConcat(smaller, larger, order);
      DistinctConcat(smaller, larger);
    }
  }

  /** The exact contents of an index over `windows`. */
  ghost predicate Counted(windows: seq<set<Item>>, order: nat, counts: Counts) {
    forall c {:trigger Get(counts, c)} :: 1 <= |c| <= order && Ascending(c) ==> Get(counts, c) == Containing(windows, c)
  }

  /** One more of everything in `cs`. */
  ghost predicate Added(before: Counts, after: Counts, cs: seq<seq<Item>>) {
    forall c {:trigger Get(after, c)} :: Get(after, c) == Get(before, c) + multiset(cs)[c]
  }

  method CountAll(before: Counts, cs: seq<seq<Item>>) returns (counts: Counts)
    ensures Added(before, counts, cs)
  {
    counts := before;
    for i := 0 to |cs|
      invariant Added(before, counts, cs[..i])
    {
      ghost var was := counts;
      counts := counts[cs[i] := Get(counts, cs[i]) + 1];
      assert cs[..i + 1] == cs[..i] + [cs[i]];
      assert forall c :: Get(counts, c) == Get(was, c) + (if c == cs[i] then 1 else 0);
    }
    assert cs[..|cs|] == cs;
  }

  lemma {:induction false} OnceIn<T>(xs: seq<T>, x: T)
    requires NoDuplicates(xs)
    ensures multiset(xs)[x] == if x in xs then 1 else 0
  {
    if xs != [] {
      assert xs == [xs[0]] + xs[1..];
      OnceIn(xs[1..], x);
    }
  }

  lemma SortedKnows(items: set<Item>, c: seq<Item>)
    ensures (forall x :: x in c ==> x in Sorted(items)) <==> Contains(items, c)
  {
  }

  lemma OneMoreWindow(windows: seq<set<Item>>, items: set<Item>, order: nat, before: Counts, after: Counts)
    requires Counted(windows, order, before) && Added(before, after, AllCombos(Sorted(items), order))
    ensures Counted(windows + [items], order, after)
  {
    forall c | 1 <= |c| <= order && Ascending(c) ensures Get(after, c) == Containing(windows + [items], c) {
      assert (windows + [items])[..|windows|] == windows;
      AllCombosMembers(Sorted(items), order, c);
      AllCombosAreDistinct(Sorted(items), order);
      OnceIn(AllCombos(Sorted(items), order), c);
      SortedKnows(items, c);
      assert Get(before, c) == Containing(windows, c);
    }
  }

  lemma NextWindow(windows: seq<set<Item>>, i: nat, order: nat, before: Counts, after: Counts)
    requires i < |windows| && Counted(windows[..i], order, before)
    requires Added(before, after, AllCombos(Sorted(windows[i]), order))
    ensures Counted(windows[..i + 1], order, after)
  {
    OneLonger(windows, i);
    OneMoreWindow(windows[..i], windows[i], order, before, after);
  }

  lemma OneLonger(windows: seq<set<Item>>, i: nat)
    requires i < |windows|
    ensures windows[..i + 1] == windows[..i] + [windows[i]]
  {
  }

  /** `build_item_index`: the counts are those of plain containment. */
  method BuildIndex(windows: seq<set<Item>>, order: nat) returns (index: Index)
    ensures index.n == |windows| && Counted(windows, order, index.counts)
  {
    var counts: Counts := map[];
    for i := 0 to |windows|
      invariant Counted(windows[..i], order, counts)
    {
      ghost var was := counts;
      counts := CountAll(counts, AllCombos(Sorted(windows[i]), order));
      NextWindow(windows, i, order, was, counts);
    }
    assert windows[..|windows|] == windows;
    index := Index(|windows|, counts);
  }

  /** Support never grows with more items. */
  lemma {:induction false} SupportIsAntiMonotone(windows: seq<set<Item>>, c: seq<Item>, d: seq<Item>)
    requires forall x :: x in c ==> x in d
    ensures Containing(windows, d) <= Containing(windows, c)
  {
    if windows != [] { SupportIsAntiMonotone(windows[..|windows| - 1], c, d); }
  }

  function WithoutAt(windows: seq<set<Item>>, i: nat): seq<set<Item>>
    requires i < |windows|
  {
    windows[..i] + windows[i + 1..]
  }

  lemma {:induction false} ContainingConcat(a: seq<set<Item>>, b: seq<set<Item>>, c: seq<Item>)
    ensures Containing(a + b, c) == Containing(a, c) + Containing(b, c)
  {
    if b == [] {
      assert a + b == a;
    } else {
      assert (a + b)[..|a + b| - 1] == a + b[..|b| - 1];
      ContainingConcat(a, b[..|b| - 1], c);
    }
  }

  /** Leaving one's own episode out counts exactly the others. */
  lemma LeaveOneOut(windows: seq<set<Item>>, i: nat, c: seq<Item>)
    requires i < |windows| && Contains(windows[i], c)
    ensures Containing(windows, c) - 1 == Containing(WithoutAt(windows, i), c)
  {
    assert windows == windows[..i] + ([windows[i]] + windows[i + 1..]);
    ContainingConcat(windows[..i], [windows[i]] + windows[i + 1..], c);
    ContainingConcat([windows[i]], windows[i + 1..], c);
    ContainingConcat(windows[..i], windows[i + 1..], c);
    var own := [windows[i]];
    assert own[..0] == [] && Containing(own, c) == 1;
  }

  // ---------------------------------------------------------------- the rarest combination

  datatype Rarity = Rarity(items: seq<Item>, support: int, weakest: int)

  function Support(index: Index, own: nat, c: seq<Item>): int { Get(index.counts, c) - own }

  /** The support of the least supported item of `c`. */
  function Weakest(index: Index, own: nat, c: seq<Item>): int
    requires c != []
  {
    var last := Support(index, own, [c[|c| - 1]]);
    if |c| == 1 then last else
      var others := Weakest(index, own, c[..|c| - 1]);
      if last < others then last else others
  }

  lemma {:induction false} WeakestIsLeast(index: Index, own: nat, c: seq<Item>, x: Item)
    requires c != [] && x in c
    ensures Weakest(index, own, c) <= Support(index, own, [x])
  {
    if |c| > 1 {
      assert c == c[..|c| - 1] + [c[|c| - 1]];
      if x != c[|c| - 1] { WeakestIsLeast(index, own, c[..|c| - 1], x); }
    }
  }

  lemma {:induction false} WeakestIsOne(index: Index, own: nat, c: seq<Item>) returns (x: Item)
    requires c != []
    ensures x in c && Weakest(index, own, c) == Support(index, own, [x])
  {
    x := c[|c| - 1];
    if |c| > 1 && Weakest(index, own, c[..|c| - 1]) <= Support(index, own, [x]) { x := WeakestIsOne(index, own, c[..|c| - 1]); }
  }

  predicate Rarer(a: Rarity, b: Rarity) { a.support < b.support || (a.support == b.support && a.weakest > b.weakest) }

  /** A strict order up to equal figures: fewer occurrences are rarer, and of as many the ones of
      the more common items; nothing is rarer than its like. */
  lemma RarerIsStrict(a: Rarity, b: Rarity, c: Rarity)
    ensures a.support < b.support ==> Rarer(a, b)
    ensures a.support == b.support ==> (Rarer(a, b) <==> b.weakest < a.weakest)
    ensures !(Rarer(a, b) && Rarer(b, a)) && !Rarer(a, a)
    ensures Rarer(a, b) && Rarer(b, c) ==> Rarer(a, c)
    ensures Rarer(a, b) || Rarer(b, a) || (a.support == b.support && a.weakest == b.weakest)
  {
  }

  function RarityOf(index: Index, own: nat, c: seq<Item>): Rarity
    requires c != []
  {
    Rarity(c, Support(index, own, c), Weakest(index, own, c))
  }

  function Common(index: Index, own: nat, minItem: int, items: seq<Item>): seq<Item> {
    if items == [] then []
    else Common(index, own, minItem, items[..|items| - 1])
         + if Support(index, own, [items[|items| - 1]]) >= minItem then [items[|items| - 1]] else []
  }

  lemma AscendingAppend(c: seq<Item>, last: Item)
    requires Ascending(c) && forall x :: x in c ==> x < last
    ensures Ascending(c + [last])
  {
    forall i, j | 0 <= i < j < |c| + 1 ensures (c + [last])[i] < (c + [last])[j] {
      if j == |c| { assert c[i] in c; }
    }
  }

  lemma {:induction false} CommonItems(index: Index, own: nat, minItem: int, items: seq<Item>)
    ensures Ascending(items) ==> Ascending(Common(index, own, minItem, items))
    ensures forall x :: x in Common(index, own, minItem, items) <==> x in items && Support(index, own, [x]) >= minItem
  {
    if items != [] {
      var init, last := items[..|items| - 1], items[|items| - 1];
      CommonItems(index, own, minItem, init);
      assert items == init + [last];
      if Ascending(items) {
        forall x | x in Common(index, own, minItem, init) ensures x < last { assert x in init; }
        AscendingAppend(Common(index, own, minItem, init), last);
      }
    }
  }

  /** Combinations of two items up to the order, smaller sizes first. */
  function Pairs(items: seq<Item>, order: nat): seq<seq<Item>> {
    if order < 2 then [] else Pairs(items, order - 1) + Combos(items, order)
  }

  lemma {:induction false} PairsMembers(items: seq<Item>, order: nat, c: seq<Item>)
    requires Ascending(items)
    ensures c in Pairs(items, order) <==> 2 <= |c| <= order && IsCombo(items, |c|, c)
  {
    if order >= 2 {
      PairsMembers(items, order - 1, c);
      CombosAreSubsets(items, order, c);
    }
  }

  /** `best` is the first of the least of `cs`. */
  ghost predicate FirstLeast(index: Index, own: nat, cs: seq<seq<Item>>, best: Option<Rarity>) {
    if best.None? then cs == [] else
      exists i :: 0 <= i < |cs| && cs[i] != [] && best.value == RarityOf(index, own, cs[i])
        && (forall j :: 0 <= j < |cs| && cs[j] != [] ==> !Rarer(RarityOf(index, own, cs[j]), best.value))
        && (forall j :: 0 <= j < i && cs[j] != [] ==> Rarer(best.value, RarityOf(index, own, cs[j])))
  }

  method RarestOf(index: Index, own: nat, cs: seq<seq<Item>>) returns (best: Option<Rarity>)
    requires forall c :: c in cs ==> c != []
    ensures FirstLeast(index, own, cs, best)
  {
    best := None;
    ghost var at := 0;
    for i := 0 to |cs|
      invariant best.None? <==> i == 0
      invariant best.Some? ==> 0 <= at < i && cs[at] != [] && best.value == RarityOf(index, own, cs[at])
      invariant best.Some? ==> forall j :: 0 <= j < i && cs[j] != [] ==> !Rarer(RarityOf(index, own, cs[j]), best.value)
      invariant best.Some? ==> forall j :: 0 <= j < at && cs[j] != [] ==> Rarer(best.value, RarityOf(index, own, cs[j]))
    {
      assert cs[i] in cs;
      var r := RarityOf(index, own, cs[i]);
      if best.None? || Rarer(r, best.value) { best, at := Some(r), i; }
    }
  }

  datatype Verdict = Verdict(best: Rarity, referenceN: int, verified: bool)

  datatype Limits = Limits(order: nat, minItem: int, minReference: int, maxSupport: int)

  /** `joint_rarity` of an episode showing `items`. */
  method JointRarityOf(items: set<Item>, index: Index, k: Limits, inReference: bool) returns (verdict: Option<Verdict>)
    ensures var own := if inReference then 1 else 0;
            var cs := Candidates(items, k, index, own);
            && (verdict.None? <==> cs == [])
            && (verdict.Some? ==>
                 && FirstLeast(index, own, cs, Some(verdict.value.best))
                 && verdict.value.referenceN == index.n - own
                 && (verdict.value.verified <==> index.n - own >= k.minReference && verdict.value.best.support <= k.maxSupport))
  {
    var own := if inReference then 1 else 0;
    var common := Common(index, own, k.minItem, Sorted(items));
    CommonItems(index, own, k.minItem, Sorted(items));
    forall c | c in Pairs(common, k.order) ensures c != [] { PairsMembers(common, k.order, c); }
    var best := RarestOf(index, own, Pairs(common, k.order));
    if best.None? { return None; }
    var n := index.n - own;
    return Some(Verdict(best.value, n, n >= k.minReference && best.value.support <= k.maxSupport));
  }

  // ---------------------------------------------------------------- in counts of other episodes

  /** The index counts `windows`; `others` are those of other episodes than the one that shows
      `items`, whose own window is among them exactly when `own` is one. */
  ghost predicate Among(windows: seq<set<Item>>, order: nat, index: Index, items: set<Item>, own: nat, others: seq<set<Item>>) {
    && Counted(windows, order, index.counts) && order >= 1 && own <= 1
    && if own == 0 then others == windows
       else exists i :: 0 <= i < |windows| && windows[i] == items && others == WithoutAt(windows, i)
  }

  lemma SupportMeaning(windows: seq<set<Item>>, order: nat, index: Index, items: set<Item>, own: nat, others: seq<set<Item>>, c: seq<Item>)
    requires Among(windows, order, index, items, own, others) && 1 <= |c| <= order && Ascending(c) && Contains(items, c)
    ensures Support(index, own, c) == Containing(others, c)
  {
    if own == 1 {
      var i :| 0 <= i < |windows| && windows[i] == items && others == WithoutAt(windows, i);
      LeaveOneOut(windows, i, c);
    }
  }

  /** A combination the search looks at: two or more of the episode's own items, each common
      among the other episodes. */
  ghost predicate Eligible(items: set<Item>, others: seq<set<Item>>, k: Limits, c: seq<Item>) {
    && 2 <= |c| <= k.order && Ascending(c) && Contains(items, c)
    && forall x :: x in c ==> Containing(others, [x]) >= k.minItem
  }

  /** The least seen item of `c` is seen in `n` windows. */
  ghost predicate LeastSeen(others: seq<set<Item>>, c: seq<Item>, n: int) {
    && (exists x :: x in c && Containing(others, [x]) == n)
    && forall x :: x in c ==> n <= Containing(others, [x])
  }

  function Candidates(items: set<Item>, k: Limits, index: Index, own: nat): seq<seq<Item>> {
    Pairs(Common(index, own, k.minItem, Sorted(items)), k.order)
  }

  lemma CandidatesAreEligible(windows: seq<set<Item>>, k: Limits, index: Index, items: set<Item>, own: nat, others: seq<set<Item>>, c: seq<Item>)
    requires Among(windows, k.order, index, items, own, others)
    ensures c in Candidates(items, k, index, own) <==> Eligible(items, others, k, c)
  {
    var common := Common(index, own, k.minItem, Sorted(items));
    CommonItems(index, own, k.minItem, Sorted(items));
    PairsMembers(common, k.order, c);
    forall x | x in c ensures x in common <==> x in items && Containing(others, [x]) >= k.minItem {
      if x in items { SupportMeaning(windows, k.order, index, items, own, others, [x]); }
    }
  }

  lemma WeakestMeaning(windows: seq<set<Item>>, k: Limits, index: Index, items: set<Item>, own: nat, others: seq<set<Item>>, c: seq<Item>)
    requires Among(windows, k.order, index, items, own, others) && Eligible(items, others, k, c)
    ensures LeastSeen(others, c, Weakest(index, own, c))
  {
    var least := WeakestIsOne(index, own, c);
    SupportMeaning(windows, k.order, index, items, own, others, [least]);
    forall x | x in c ensures Weakest(index, own, c) <= Containing(others, [x]) {
      SupportMeaning(windows, k.order, index, items, own, others, [x]);
      WeakestIsLeast(index, own, c, x);
    }
  }

  lemma LeastSeenOnce(others: seq<set<Item>>, c: seq<Item>, m: int, n: int)
    requires LeastSeen(others, c, m) && LeastSeen(others, c, n)
    ensures m == n
  {
  }

  lemma CandidateMeaning(windows: seq<set<Item>>, k: Limits, index: Index, items: set<Item>, own: nat, others: seq<set<Item>>, c: seq<Item>)
    requires Among(windows, k.order, index, items, own, others) && Eligible(items, others, k, c)
    ensures c != [] && c in Candidates(items, k, index, own)
    ensures var r := RarityOf(index, own, c);
            r.items == c && r.support == Containing(others, c) && LeastSeen(others, c, r.weakest)
  {
    CandidatesAreEligible(windows, k, index, items, own, others, c);
    SupportMeaning(windows, k.order, index, items, own, others, c);
    WeakestMeaning(windows, k, index, items, own, others, c);
  }

  /** What a joint rarity means, for an episode inside or outside the reference: among the
      eligible combinations it is seen in the fewest other episodes, and of those its least
      seen item is seen most. */
  lemma RarestMeaning(windows: seq<set<Item>>, k: Limits, index: Index, items: set<Item>, own: nat, others: seq<set<Item>>, best: Rarity)
    requires Among(windows, k.order, index, items, own, others)
    requires FirstLeast(index, own, Candidates(items, k, index, own), Some(best))
    ensures Eligible(items, others, k, best.items)
    ensures best.support == Containing(others, best.items) && LeastSeen(others, best.items, best.weakest)
    ensures forall c, n :: Eligible(items, others, k, c) && LeastSeen(others, c, n) ==>
              best.support < Containing(others, c) || (best.support == Containing(others, c) && best.weakest >= n)
  {
    var cs := Candidates(items, k, index, own);
    var at :| 0 <= at < |cs| && cs[at] != [] && best == RarityOf(index, own, cs[at]);
    assert cs[at] in cs;
    CandidatesAreEligible(windows, k, index, items, own, others, cs[at]);
    CandidateMeaning(windows, k, index, items, own, others, cs[at]);
    forall c, n | Eligible(items, others, k, c) && LeastSeen(others, c, n)
      ensures best.support < Containing(others, c) || (best.support == Containing(others, c) && best.weakest >= n)
    {
      CandidateMeaning(windows, k, index, items, own, others, c);
      LeastSeenOnce(others, c, n, Weakest(index, own, c));
      var j :| 0 <= j < |cs| && cs[j] == c;
      assert !Rarer(RarityOf(index, own, cs[j]), best);
    }
  }

  /** There is no verdict exactly when no combination is eligible. */
  lemma NoVerdictMeaning(windows: seq<set<Item>>, k: Limits, index: Index, items: set<Item>, own: nat, others: seq<set<Item>>)
    requires Among(windows, k.order, index, items, own, others)
    ensures Candidates(items, k, index, own) == [] <==> !exists c :: Eligible(items, others, k, c)
  {
    var cs := Candidates(items, k, index, own);
    if cs != [] {
      assert cs[0] in cs;
      CandidatesAreEligible(windows, k, index, items, own, others, cs[0]);
    } else {
      forall c ensures !Eligible(items, others, k, c) { CandidatesAreEligible(windows, k, index, items, own, others, c); }
    }
  }
}
