/** Reference windows and recurrence counts: bisection over the episodes sorted by their end. */
module Windows {
  import opened Seqs

  datatype Ended = Ended(id: nat, start: int, end: int, signature: string, book: string, instrument: string)

  datatype Scope = ByBook | ByInstrument

  /** What a recurrence is counted over. */
  datatype Group = Group(scope: Scope, name: string, signature: string)

  function GroupOf(e: Ended, scope: Scope): Group {
    Group(scope, if scope == ByBook then e.book else e.instrument, e.signature)
  }

  function EndKey(e: Ended): Key { (e.end, 0) }

  /** `sorted(ends.items(), key=end)`, which is stable. */
  function ByEnd(es: seq<Ended>): seq<Ended> { SortBy(es, EndKey) }

  function Ends(es: seq<Ended>): seq<int> { seq(|es|, i requires 0 <= i < |es| => es[i].end) }

  function EndsIn(from: int, until: int): Ended -> bool { (e: Ended) => from <= e.end < until }

  function InGroup(g: Group): Ended -> bool { (e: Ended) => GroupOf(e, g.scope) == g }

  /** An episode of the group that ends in the window. */
  function PriorIn(g: Group, from: int, until: int): Ended -> bool {
    (e: Ended) => GroupOf(e, g.scope) == g && from <= e.end < until
  }

  // ---------------------------------------------------------------- bisection

  ghost predicate Climbs(xs: seq<int>) { forall i, j :: 0 <= i < j < |xs| ==> xs[i] <= xs[j] }

  /** The first position that is not below `v`. */
  ghost predicate Splits(xs: seq<int>, v: int, i: nat) {
    && i <= |xs|
    && (forall j :: 0 <= j < i ==> xs[j] < v)
    && (forall j :: i <= j < |xs| ==> v <= xs[j])
  }

  method BisectLeft(xs: seq<int>, v: int) returns (i: nat)
    requires Climbs(xs)
    ensures Splits(xs, v, i)
  {
    i := 0;
    var hi := |xs|;
    while i < hi
      invariant i <= hi <= |xs|
      invariant forall j :: 0 <= j < i ==> xs[j] < v
      invariant forall j :: hi <= j < |xs| ==> v <= xs[j]
    {
      var mid := (i + hi) / 2;
      if xs[mid] < v { i := mid + 1; } else { hi := mid; }
    }
  }

  lemma {:induction false} FilterAll<T(!new)>(xs: seq<T>, p: T -> bool)
    requires forall x :: x in xs ==> p(x)
    ensures Filter(xs, p) == xs
  {
    if xs != [] { FilterAll(xs[1..], p); }
  }

  ghost predicate InEndOrder(es: seq<Ended>) { forall i, j :: 0 <= i < j < |es| ==> es[i].end <= es[j].end }

  lemma FilterMiddle<T(!new)>(a: seq<T>, b: seq<T>, c: seq<T>, p: T -> bool)
    requires (forall x :: x in a ==> !p(x)) && (forall x :: x in b ==> p(x)) && forall x :: x in c ==> !p(x)
    ensures Filter(a + (b + c), p) == b
  {
    FilterConcat(a, b + c, p);
    FilterConcat(b, c, p);
    FilterAll(b, p);
    assert Filter(a, p) == [] && Filter(c, p) == [];
  }

  lemma MiddlePart(es: seq<Ended>, p: Ended -> bool, lo: nat, hi: nat)
    requires lo <= hi <= |es|
    requires (forall i :: 0 <= i < lo ==> !p(es[i])) && (forall i :: hi <= i < |es| ==> !p(es[i]))
    requires forall i :: lo <= i < hi ==> p(es[i])
    ensures Filter(es, p) == es[lo..hi]
  {
    Outside(es, p, 0, lo);
    Outside(es, p, hi, |es|);
    Inside(es, p, lo, hi);
    ThreeParts(es, lo, hi);
    FilterMiddle(es[0..lo], es[lo..hi], es[hi..|es|], p);
  }

  lemma ThreeParts<T>(xs: seq<T>, lo: nat, hi: nat)
    requires lo <= hi <= |xs|
    ensures xs == xs[0..lo] + (xs[lo..hi] + xs[hi..|xs|])
  {
  }

  lemma Inside(es: seq<Ended>, p: Ended -> bool, from: nat, until: nat)
    requires from <= until <= |es| && forall i :: from <= i < until ==> p(es[i])
    ensures forall x :: x in es[from..until] ==> p(x)
  {
    forall x | x in es[from..until] ensures p(x) {
      var i :| 0 <= i < until - from && es[from..until][i] == x;
      assert es[from + i] == x;
    }
  }

  lemma Outside(es: seq<Ended>, p: Ended -> bool, from: nat, until: nat)
    requires from <= until <= |es| && forall i :: from <= i < until ==> !p(es[i])
    ensures forall x :: x in es[from..until] ==> !p(x)
  {
    forall x | x in es[from..until] ensures !p(x) {
      var i :| 0 <= i < until - from && es[from..until][i] == x;
      assert es[from + i] == x;
    }
  }

  lemma FilterLast<T(!new)>(xs: seq<T>, y: T, p: T -> bool)
    ensures Filter(xs + [y], p) == Filter(xs, p) + if p(y) then [y] else []
  {
    FilterConcat(xs, [y], p);
  }

  lemma SplitsByEnd(es: seq<Ended>, v: int, i: nat)
    requires Splits(Ends(es), v, i)
    ensures i <= |es| && (forall j :: 0 <= j < i ==> es[j].end < v) && (forall j :: i <= j < |es| ==> v <= es[j].end)
  {
    assert forall j :: 0 <= j < |es| ==> es[j].end == Ends(es)[j];
  }

  /** Between the two insertion points lies exactly what ends in the window. */
  lemma SliceIsFilter(es: seq<Ended>, from: int, until: int, lo: nat, hi: nat)
    requires Splits(Ends(es), from, lo) && Splits(Ends(es), until, hi)
    ensures lo <= |es| && hi <= |es| && Filter(es, EndsIn(from, until)) == if lo <= hi then es[lo..hi] else []
  {
    SplitsByEnd(es, from, lo);
    SplitsByEnd(es, until, hi);
    if lo <= hi {
      MiddlePart(es, EndsIn(from, until), lo, hi);
    } else {
      forall i | 0 <= i < |es| ensures !EndsIn(from, until)(es[i]) { assert i < lo || hi <= i; }
      MiddlePart(es, EndsIn(from, until), lo, lo);
    }
  }

  /** `window_ids`. */
  method EndingIn(byEnd: seq<Ended>, times: seq<int>, from: int, until: int) returns (es: seq<Ended>)
    requires times == Ends(byEnd) && Climbs(times)
    ensures es == Filter(byEnd, EndsIn(from, until))
  {
    var lo := BisectLeft(times, from);
    var hi := BisectLeft(times, until);
    SliceIsFilter(byEnd, from, until, lo, hi);
    es := if lo <= hi then byEnd[lo..hi] else [];
  }

  lemma ByEndClimbs(es: seq<Ended>)
    ensures InEndOrder(ByEnd(es))
  {
    SortIsOrdered(es, EndKey);
    forall i, j | 0 <= i < j < |ByEnd(es)| ensures ByEnd(es)[i].end <= ByEnd(es)[j].end {
      assert KeyLe(EndKey(ByEnd(es)[i]), EndKey(ByEnd(es)[j]));
    }
  }

  // ---------------------------------------------------------------- reference windows

  /** What ends in the lookback before the period, both moved back by the shift. */
  function Window(byEnd: seq<Ended>, p: int, lookback: int, shift: int): seq<Ended> {
    Filter(byEnd, EndsIn(p - lookback - shift, p - shift))
  }

  function WindowOf(byEnd: seq<Ended>, lookback: int, shift: int): int -> seq<Ended> {
    (p: int) => Window(byEnd, p, lookback, shift)
  }

  ghost predicate Tabulates(windows: map<int, seq<Ended>>, f: int -> seq<Ended>) {
    forall p {:trigger windows[p]} :: p in windows ==> windows[p] == f(p)
  }

  lemma OneMoreWindow(windows: map<int, seq<Ended>>, f: int -> seq<Ended>, p: int)
    requires Tabulates(windows, f)
    ensures Tabulates(windows[p := f(p)], f)
  {
  }

  method ShiftedWindow(byEnd: seq<Ended>, times: seq<int>, p: int, lookback: int, shift: int) returns (w: seq<Ended>)
    requires times == Ends(byEnd) && Climbs(times)
    ensures w == Window(byEnd, p, lookback, shift)
  {
    w := EndingIn(byEnd, times, p - lookback - shift, p - shift);
  }

  /** The reference of each period, and the same window moved back by the shift. */
  method References(byEnd: seq<Ended>, times: seq<int>, periods: seq<int>, lookback: int, shift: int)
    returns (windows: map<int, seq<Ended>>, shifted: map<int, seq<Ended>>)
    requires times == Ends(byEnd) && Climbs(times)
    ensures windows.Keys == shifted.Keys == set p | p in periods
    ensures Tabulates(windows, WindowOf(byEnd, lookback, 0)) && Tabulates(shifted, WindowOf(byEnd, lookback, shift))
  {
    windows, shifted := map[], map[];
    for i := 0 to |periods|
      invariant windows.Keys == shifted.Keys == set p | p in periods[..i]
      invariant Tabulates(windows, WindowOf(byEnd, lookback, 0)) && Tabulates(shifted, WindowOf(byEnd, lookback, shift))
    {
      var p := periods[i];
      assert periods[..i + 1] == periods[..i] + [p];
      var now := ShiftedWindow(byEnd, times, p, lookback, 0);
      var older := ShiftedWindow(byEnd, times, p, lookback, shift);
      OneMoreWindow(windows, WindowOf(byEnd, lookback, 0), p);
      OneMoreWindow(shifted, WindowOf(byEnd, lookback, shift), p);
      windows, shifted := windows[p := now], shifted[p := older];
    }
    assert periods[..|periods|] == periods;
  }

  lemma EndsClimb(es: seq<Ended>)
    requires InEndOrder(es)
    ensures Climbs(Ends(es))
  {
  }

  method SortByEnd(es: seq<Ended>) returns (byEnd: seq<Ended>, times: seq<int>)
    ensures byEnd == ByEnd(es) && times == Ends(byEnd) && Climbs(times)
  {
    byEnd := ByEnd(es);
    ByEndClimbs(es);
    EndsClimb(byEnd);
    times := Ends(byEnd);
  }

  /** The windows of all periods that occur, over episodes in any order. */
  method ReferencesOf(es: seq<Ended>, periods: seq<int>, lookback: int, shift: int)
    returns (windows: map<int, seq<Ended>>, shifted: map<int, seq<Ended>>)
    ensures windows.Keys == shifted.Keys == set p | p in periods
    ensures Tabulates(windows, WindowOf(ByEnd(es), lookback, 0)) && Tabulates(shifted, WindowOf(ByEnd(es), lookback, shift))
  {
    var byEnd, times := SortByEnd(es);
    windows, shifted := References(byEnd, times, periods, lookback, shift);
  }

  lemma InsertPast(x: Ended, y: Ended, rest: seq<Ended>)
    requires !KeyLe(EndKey(x), EndKey(y))
    ensures Insert(x, [y] + rest, EndKey) == [y] + Insert(x, rest, EndKey)
  {
    assert ([y] + rest)[1..] == rest;
  }

  lemma {:induction false} InsertFiltered(x: Ended, es: seq<Ended>, p: Ended -> bool)
    requires Ordered(es, EndKey)
    ensures Filter(Insert(x, es, EndKey), p) == if p(x) then Insert(x, Filter(es, p), EndKey) else Filter(es, p)
  {
    if es == [] || KeyLe(EndKey(x), EndKey(es[0])) {
      FilteredHere(x, es, p);
    } else {
      var y, rest := es[0], es[1..];
      assert es == [y] + rest;
      TailOrdered(es);
      InsertFiltered(x, rest, p);
      FilteredPast(x, y, rest, Insert(x, rest, EndKey), p, Filter(rest, p));
    }
  }

  lemma TailOrdered(es: seq<Ended>)
    requires es != [] && Ordered(es, EndKey)
    ensures Ordered(es[1..], EndKey)
  {
  }

  lemma InsertHere(x: Ended, es: seq<Ended>)
    requires es == [] || KeyLe(EndKey(x), EndKey(es[0]))
    ensures Insert(x, es, EndKey) == [x] + es
  {
  }

  lemma FirstStaysFirst(x: Ended, es: seq<Ended>, e: Ended)
    requires Ordered(es, EndKey) && e in es && KeyLe(EndKey(x), EndKey(es[0]))
    ensures KeyLe(EndKey(x), EndKey(e))
  {
    var i :| 0 <= i < |es| && es[i] == e;
    assert i > 0 ==> KeyLe(EndKey(es[0]), EndKey(es[i]));
  }

  lemma FilteredHere(x: Ended, es: seq<Ended>, p: Ended -> bool)
    requires Ordered(es, EndKey) && (es == [] || KeyLe(EndKey(x), EndKey(es[0])))
    ensures Filter(Insert(x, es, EndKey), p) == if p(x) then Insert(x, Filter(es, p), EndKey) else Filter(es, p)
  {
    InsertHere(x, es);
    FilterStep(x, es, p);
    KeptHere(x, es, Filter(es, p));
  }

  lemma KeptHere(x: Ended, es: seq<Ended>, kept: seq<Ended>)
    requires Ordered(es, EndKey) && (es == [] || KeyLe(EndKey(x), EndKey(es[0]))) && forall e :: e in kept ==> e in es
    ensures Insert(x, kept, EndKey) == [x] + kept && [] + kept == kept
  {
    if kept != [] {
      assert kept[0] in es;
      FirstStaysFirst(x, es, kept[0]);
    }
    InsertHere(x, kept);
  }

  lemma FilteredPast(x: Ended, y: Ended, rest: seq<Ended>, inserted: seq<Ended>, p: Ended -> bool, kept: seq<Ended>)
    requires !KeyLe(EndKey(x), EndKey(y)) && inserted == Insert(x, rest, EndKey) && kept == Filter(rest, p)
    requires Filter(inserted, p) == if p(x) then Insert(x, kept, EndKey) else kept
    ensures Filter(Insert(x, [y] + rest, EndKey), p) == if p(x) then Insert(x, Filter([y] + rest, p), EndKey) else Filter([y] + rest, p)
  {
    InsertPast(x, y, rest);
    FilterStep(y, inserted, p);
    FilterStep(y, rest, p);
    PastHead(x, y, p(x), p(y), kept);
  }

  lemma PastHead(x: Ended, y: Ended, keepX: bool, keepY: bool, kept: seq<Ended>)
    requires !KeyLe(EndKey(x), EndKey(y))
    ensures var head := if keepY then [y] else [];
            head + (if keepX then Insert(x, kept, EndKey) else kept) == if keepX then Insert(x, head + kept, EndKey) else head + kept
  {
    if keepY { InsertPast(x, y, kept); } else { assert [] + kept == kept; }
  }

  /** Filtering before or after the stable sort is the same. */
  lemma {:induction false} FilterSorted(es: seq<Ended>, p: Ended -> bool)
    ensures Filter(ByEnd(es), p) == ByEnd(Filter(es, p))
  {
    if es != [] {
      var x, rest := es[0], es[1..];
      assert es == [x] + rest;
      FilterSorted(rest, p);
      SortIsOrdered(rest, EndKey);
      InsertFiltered(x, ByEnd(rest), p);
      FilterStep(x, rest, p);
      ByEndStep(x, rest);
      HeadSorted(x, p(x), Filter(rest, p));
    }
  }

  lemma HeadSorted(x: Ended, keep: bool, kept: seq<Ended>)
    ensures ByEnd((if keep then [x] else []) + kept) == if keep then Insert(x, ByEnd(kept), EndKey) else ByEnd(kept)
  {
    if keep { ByEndStep(x, kept); } else { assert [] + kept == kept; }
  }

  lemma ByEndStep(x: Ended, rest: seq<Ended>)
    ensures ByEnd([x] + rest) == Insert(x, ByEnd(rest), EndKey)
  {
    assert ([x] + rest)[1..] == rest;
  }

  /** Main result: a reference window is what a plain filter over all episodes gives, and nothing
      that ends at or after the period, however much of it there is, enters or moves it. */
  lemma ReferencesArePointInTime(es: seq<Ended>, later: seq<Ended>, period: int, lookback: int)
    requires forall e :: e in later ==> period <= e.end
    ensures Window(ByEnd(es + later), period, lookback, 0) == ByEnd(Filter(es, EndsIn(period - lookback, period)))
    ensures forall e :: e in Window(ByEnd(es + later), period, lookback, 0) ==> e in es && e.end < period
  {
    var p := EndsIn(period - lookback, period);
    FilterSorted(es + later, p);
    FilterConcat(es, later, p);
    assert Filter(es, p) + [] == Filter(es, p);
    forall e | e in ByEnd(Filter(es, p)) ensures e in es && e.end < period {
      assert e in multiset(ByEnd(Filter(es, p)));
      assert e in Filter(es, p);
    }
  }

  // ---------------------------------------------------------------- recurrence

  function CountPrior(es: seq<Ended>, g: Group, from: int, until: int): nat { |Filter(es, PriorIn(g, from, until))| }

  type Groups = map<Group, seq<int>>

  function TimesOf(index: Groups, g: Group): seq<int> { if g in index then index[g] else [] }

  lemma EndsConcat(a: seq<Ended>, b: seq<Ended>)
    ensures Ends(a + b) == Ends(a) + Ends(b)
  {
  }

  lemma OneMoreEnd(es: seq<Ended>, e: Ended, g: Group)
    ensures Ends(Filter(es + [e], InGroup(g))) == Ends(Filter(es, InGroup(g))) + if GroupOf(e, g.scope) == g then [e.end] else []
  {
    FilterLast(es, e, InGroup(g));
    EndsConcat(Filter(es, InGroup(g)), if GroupOf(e, g.scope) == g then [e] else []);
  }

  ghost predicate IndexOf(index: Groups, es: seq<Ended>) {
    forall g {:trigger TimesOf(index, g)} :: TimesOf(index, g) == Ends(Filter(es, InGroup(g)))
  }

  method IndexOne(before: Groups, es: seq<Ended>, e: Ended) returns (index: Groups)
    requires IndexOf(before, es)
    ensures IndexOf(index, es + [e])
  {
    var book, instrument := GroupOf(e, ByBook), GroupOf(e, ByInstrument);
    index := before[book := TimesOf(before, book) + [e.end]];
    index := index[instrument := TimesOf(index, instrument) + [e.end]];
    forall g ensures TimesOf(index, g) == Ends(Filter(es + [e], InGroup(g))) {
      OneMoreEnd(es, e, g);
      assert TimesOf(before, g) == Ends(Filter(es, InGroup(g)));
    }
  }

  /** The index of end times, group by group. */
  method BuildIndex(byEnd: seq<Ended>) returns (index: Groups)
    ensures IndexOf(index, byEnd)
  {
    index := map[];
    for i := 0 to |byEnd|
      invariant IndexOf(index, byEnd[..i])
    {
      assert byEnd[..i + 1] == byEnd[..i] + [byEnd[i]];
      index := IndexOne(index, byEnd[..i], byEnd[i]);
    }
    assert byEnd[..|byEnd|] == byEnd;
  }

  lemma {:induction false} FilterTwice(es: seq<Ended>, p: Ended -> bool, q: Ended -> bool, both: Ended -> bool)
    requires forall e :: both(e) <==> p(e) && q(e)
    ensures Filter(Filter(es, p), q) == Filter(es, both)
  {
    if es != [] {
      FilterTwice(es[1..], p, q, both);
      FilterConcat(if p(es[0]) then [es[0]] else [], Filter(es[1..], p), q);
    }
  }

  lemma {:induction false} FilterClimbs(es: seq<Ended>, p: Ended -> bool)
    requires InEndOrder(es)
    ensures InEndOrder(Filter(es, p))
  {
    if es != [] {
      var x, rest := es[0], es[1..];
      assert es == [x] + rest;
      FilterClimbs(rest, p);
      FilterStep(x, rest, p);
      HeadClimbs(x, rest, Filter(rest, p));
    }
  }

  lemma HeadClimbs(x: Ended, rest: seq<Ended>, kept: seq<Ended>)
    requires InEndOrder([x] + rest) && InEndOrder(kept) && forall e :: e in kept ==> e in rest
    ensures InEndOrder([x] + kept) && InEndOrder([] + kept)
  {
    forall e | e in kept ensures x.end <= e.end {
      var i :| 0 <= i < |rest| && rest[i] == e;
      assert ([x] + rest)[0].end <= ([x] + rest)[i + 1].end;
    }
    forall i, j | 0 <= i < j < |kept| + 1 ensures ([x] + kept)[i].end <= ([x] + kept)[j].end {
      assert kept[j - 1] in kept;
    }
    assert [] + kept == kept;
  }

  /** How many of `times` lie in the window. */
  function Between(times: seq<int>, from: int, until: int): nat {
    if times == [] then 0
    else
      var last := times[|times| - 1];
      Between(times[..|times| - 1], from, until) + if from <= last < until then 1 else 0
  }

  /** Two insertion points count what lies between them. */
  lemma {:induction false} PointsCount(times: seq<int>, from: int, until: int, lo: nat, hi: nat)
    requires Splits(times, from, lo) && Splits(times, until, hi)
    ensures Between(times, from, until) == if hi >= lo then hi - lo else 0
  {
    if times != [] {
      var n := |times| - 1;
      PointsCount(times[..n], from, until, if lo > n then n else lo, if hi > n then n else hi);
      assert times[n] < from <==> lo > n;
      assert times[n] < until <==> hi > n;
    }
  }

  lemma {:induction false} BetweenCountsEnds(es: seq<Ended>, from: int, until: int)
    ensures Between(Ends(es), from, until) == |Filter(es, EndsIn(from, until))|
  {
    if es != [] {
      var init, last := es[..|es| - 1], es[|es| - 1];
      assert es == init + [last];
      BetweenCountsEnds(init, from, until);
      FilterLast(init, last, EndsIn(from, until));
      BetweenLast(init, last, from, until);
    }
  }

  lemma BetweenLast(init: seq<Ended>, last: Ended, from: int, until: int)
    ensures Between(Ends(init + [last]), from, until) == Between(Ends(init), from, until) + if from <= last.end < until then 1 else 0
  {
    assert Ends(init + [last]) == Ends(init) + [last.end];
    assert (Ends(init) + [last.end])[..|init|] == Ends(init);
  }

  /** The times of a group tell how many of its episodes end in any window. */
  ghost predicate Tells(es: seq<Ended>, g: Group, times: seq<int>) {
    Climbs(times) && forall from, until {:trigger Between(times, from, until)} :: Between(times, from, until) == CountPrior(es, g, from, until)
  }

  lemma GroupCount(byEnd: seq<Ended>, es: seq<Ended>, g: Group, from: int, until: int)
    requires multiset(byEnd) == multiset(es)
    ensures |Filter(Filter(byEnd, InGroup(g)), EndsIn(from, until))| == CountPrior(es, g, from, until)
  {
    var p := PriorIn(g, from, until);
    FilterTwice(byEnd, InGroup(g), EndsIn(from, until), p);
    FilterOfPermutation(byEnd, es, p);
    assert |multiset(Filter(byEnd, p))| == |Filter(byEnd, p)| && |multiset(Filter(es, p))| == |Filter(es, p)|;
  }

  lemma GroupTells(byEnd: seq<Ended>, es: seq<Ended>, g: Group)
    requires InEndOrder(byEnd) && multiset(byEnd) == multiset(es)
    ensures Tells(es, g, Ends(Filter(byEnd, InGroup(g))))
  {
    FilterClimbs(byEnd, InGroup(g));
    var group := Filter(byEnd, InGroup(g));
    forall from, until ensures Between(Ends(group), from, until) == CountPrior(es, g, from, until) {
      BetweenCountsEnds(group, from, until);
      GroupCount(byEnd, es, g, from, until);
    }
  }

  ghost predicate AllTell(es: seq<Ended>, index: Groups) { forall g {:trigger TimesOf(index, g)} :: Tells(es, g, TimesOf(index, g)) }

  method IndexByEnd(es: seq<Ended>) returns (index: Groups)
    ensures AllTell(es, index)
  {
    var byEnd := ByEnd(es);
    ByEndClimbs(es);
    index := BuildIndex(byEnd);
    forall g ensures Tells(es, g, TimesOf(index, g)) { GroupTells(byEnd, es, g); }
  }

  /** The two bisections of one signal. */
  method Recurrence(ghost es: seq<Ended>, index: Groups, e: Ended, scope: Scope, window: int) returns (count: nat)
    requires AllTell(es, index)
    ensures count == Prior(es, scope, window)(e)
  {
    var times := TimesOf(index, GroupOf(e, scope));
    var lo := BisectLeft(times, e.start - window);
    var hi := BisectLeft(times, e.start);
    PointsCount(times, e.start - window, e.start, lo, hi);
    count := if hi >= lo then hi - lo else 0;
  }

  /** How many earlier episodes of its group end in the window before an episode starts. */
  function Prior(es: seq<Ended>, scope: Scope, window: int): Ended -> nat {
    (e: Ended) => CountPrior(es, GroupOf(e, scope), e.start - window, e.start)
  }

  ghost predicate Counted(es: seq<Ended>, counts: seq<nat>, f: Ended -> nat) {
    |counts| <= |es| && forall i {:trigger counts[i]} :: 0 <= i < |counts| ==> counts[i] == f(es[i])
  }

  lemma OneMoreCounted(es: seq<Ended>, counts: seq<nat>, n: nat, f: Ended -> nat)
    requires Counted(es, counts, f) && |counts| < |es| && n == f(es[|counts|])
    ensures Counted(es, counts + [n], f)
  {
  }

  /** The two recurrence signals of every episode are what plain filters over all episodes count. */
  method Recurrences(es: seq<Ended>, window: int) returns (book: seq<nat>, instrument: seq<nat>)
    ensures |book| == |instrument| == |es|
    ensures Counted(es, book, Prior(es, ByBook, window)) && Counted(es, instrument, Prior(es, ByInstrument, window))
  {
    var index := IndexByEnd(es);
    book, instrument := [], [];
    for i := 0 to |es|
      invariant |book| == |instrument| == i
      invariant Counted(es, book, Prior(es, ByBook, window)) && Counted(es, instrument, Prior(es, ByInstrument, window))
    {
      var b := Recurrence(es, index, es[i], ByBook, window);
      var k := Recurrence(es, index, es[i], ByInstrument, window);
      OneMoreCounted(es, book, b, Prior(es, ByBook, window));
      OneMoreCounted(es, instrument, k, Prior(es, ByInstrument, window));
      book, instrument := book + [b], instrument + [k];
    }
  }

  /** A recurrence counts history only: what ends at or after the episode starts, the episode
      itself included, never changes it. */
  lemma RecurrenceIsHistory(es: seq<Ended>, later: seq<Ended>, e: Ended, scope: Scope, window: int)
    requires forall x :: x in later ==> e.start <= x.end
    ensures Prior(es + later, scope, window)(e) == Prior(es, scope, window)(e)
  {
    LaterIsIgnored(es, later, GroupOf(e, scope), e.start - window, e.start);
  }

  lemma LaterIsIgnored(es: seq<Ended>, later: seq<Ended>, g: Group, from: int, until: int)
    requires forall x :: x in later ==> until <= x.end
    ensures CountPrior(es + later, g, from, until) == CountPrior(es, g, from, until)
  {
    FilterAround(es, later, PriorIn(g, from, until));
  }

  lemma FilterAround<T(!new)>(xs: seq<T>, ys: seq<T>, p: T -> bool)
    requires forall y :: y in ys ==> !p(y)
    ensures Filter(xs + ys, p) == Filter(xs, p)
  {
    FilterConcat(xs, ys, p);
    assert Filter(ys, p) == [];
  }
}
