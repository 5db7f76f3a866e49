/** Sequence and ordering helpers shared by the models: filters, permutations, and the sorts
    that forget the original order. */
module Seqs {

  datatype Option<+T> = None | Some(value: T)

  /** The elements of `xs` that satisfy `p`, in order. */
  function Filter<T(!new)>(xs: seq<T>, p: T -> bool): (r: seq<T>)
    ensures forall x :: x in r <==> x in xs && p(x)
    ensures (forall x :: x in xs ==> !p(x)) ==> r == []
  {
    if xs == [] then []
    else (if p(xs[0]) then [xs[0]] else []) + Filter(xs[1..], p)
  }

  ghost predicate NoDuplicates<T>(xs: seq<T>) {
    forall i, j :: 0 <= i < j < |xs| ==> xs[i] != xs[j]
  }

  lemma {:induction false} FilterKeepsNoDuplicates<T(!new)>(xs: seq<T>, p: T -> bool)
    requires NoDuplicates(xs)
    ensures NoDuplicates(Filter(xs, p))
  {
    if xs != [] {
      FilterKeepsNoDuplicates(xs[1..], p);
      assert xs == [xs[0]] + xs[1..];
      assert xs[0] !in Filter(xs[1..], p);
    }
  }

  lemma FilterStep<T(!new)>(x: T, xs: seq<T>, p: T -> bool)
    ensures Filter([x] + xs, p) == (if p(x) then [x] else []) + Filter(xs, p)
  {
    assert ([x] + xs)[1..] == xs;
  }

  lemma Regroup<T>(xs: seq<T>, ys: seq<T>, zs: seq<T>)
    ensures (xs + ys) + zs == xs + (ys + zs)
  {
  }

  lemma {:induction false} FilterConcat<T(!new)>(xs: seq<T>, ys: seq<T>, p: T -> bool)
    ensures Filter(xs + ys, p) == Filter(xs, p) + Filter(ys, p)
  {
    if xs == [] {
      assert xs + ys == ys;
    } else {
      var x, rest := xs[0], xs[1..];
      Regroup([x], rest, ys);
      assert xs == [x] + rest;
      FilterStep(x, rest + ys, p);
      FilterStep(x, rest, p);
      FilterConcat(rest, ys, p);
      Regroup(if p(x) then [x] else [], Filter(rest, p), Filter(ys, p));
    }
  }

  /** Pairs of ids in the lexicographic order Python gives tuples. */
  type Pair = (nat, nat)

  predicate PairLe(p: Pair, q: Pair) {
    p.0 < q.0 || (p.0 == q.0 && p.1 <= q.1)
  }

  lemma {:induction false} LeastPairExists(s: set<Pair>) returns (least: Pair)
    requires s != {}
    ensures least in s && forall q :: q in s ==> PairLe(least, q)
  {
    var x :| x in s;
    var rest := s - {x};
    assert s == rest + {x};
    least := x;
    if rest != {} {
      var y := LeastPairExists(rest);
      least := if PairLe(x, y) then x else y;
    }
  }

  function LeastPair(s: set<Pair>): (p: Pair)
    requires s != {}
    ensures p in s && forall q :: q in s ==> PairLe(p, q)
  {
    assert exists p :: p in s && forall q :: q in s ==> PairLe(p, q) by { var p := LeastPairExists(s); }
    var p :| p in s && forall q :: q in s ==> PairLe(p, q);
    p
  }

  /** `sorted(set(pairs))`. */
  function SortedPairs(s: set<Pair>): (r: seq<Pair>)
    ensures forall p :: p in r <==> p in s
    ensures NoDuplicates(r)
  {
    if s == {} then []
    else
      var p := LeastPair(s);
      var rest := SortedPairs(s - {p});
      assert p !in rest;
      [p] + rest
  }

  lemma {:induction false} LeastExists(s: set<nat>) returns (least: nat)
    requires s != {}
    ensures least in s && forall y :: y in s ==> least <= y
  {
    var x :| x in s;
    var rest := s - {x};
    assert s == rest + {x};
    least := x;
    if rest != {} {
      var z := LeastExists(rest);
      least := if x <= z then x else z;
    }
  }

  function Least(s: set<nat>): (x: nat)
    requires s != {}
    ensures x in s && forall y :: y in s ==> x <= y
  {
    assert exists x :: x in s && forall y :: y in s ==> x <= y by { var x := LeastExists(s); }
    var x :| x in s && forall y :: y in s ==> x <= y;
    x
  }

  ghost predicate Ascending(xs: seq<nat>) { forall i, j :: 0 <= i < j < |xs| ==> xs[i] < xs[j] }

  /** `sorted(ids)`. */
  function Sorted(s: set<nat>): (r: seq<nat>)
    ensures forall x :: x in r <==> x in s
    ensures Ascending(r)
  {
    if s == {} then []
    else
      var x := Least(s);
      var rest := Sorted(s - {x});
      assert forall i :: 0 <= i < |rest| ==> rest[i] in rest;
      [x] + rest
  }

  lemma SubsetIsSmaller<T>(small: set<T>, large: set<T>)
    requires small <= large
    ensures |small| <= |large|
  {
    assert large == small + (large - small);
  }

  lemma {:induction false} DistinctCount<T>(xs: seq<T>)
    ensures |set x | x in xs| <= |xs|
    ensures NoDuplicates(xs) ==> |set x | x in xs| == |xs|
  {
    if xs == [] {
      assert (set x | x in xs) == {};
    } else {
      DistinctCount(xs[1..]);
      assert xs == [xs[0]] + xs[1..];
      assert (set x | x in xs) == {xs[0]} + (set x | x in xs[1..]);
      if NoDuplicates(xs) { assert xs[0] !in xs[1..]; }
    }
  }

  lemma {:induction false} SetOfNoDuplicates<T>(xs: seq<T>)
    requires NoDuplicates(xs)
    ensures multiset(xs) == multiset(set x | x in xs)
  {
    if xs == [] {
      assert (set x | x in xs) == {};
    } else {
      var rest := xs[1..];
      assert xs == [xs[0]] + rest;
      assert xs[0] !in rest;
      SetOfNoDuplicates(rest);
      assert (set x | x in xs) == {xs[0]} + (set x | x in rest);
    }
  }

  /** Numbers that never fall. */
  ghost predicate Rising(xs: seq<real>) { forall i, j :: 0 <= i < j < |xs| ==> xs[i] <= xs[j] }

  /** A sort key of two numbers, compared lexicographically. */
  type Key = (int, int)

  predicate KeyLe(p: Key, q: Key) { p.0 < q.0 || (p.0 == q.0 && p.1 <= q.1) }

  ghost predicate Ordered<T(!new)>(xs: seq<T>, key: T -> Key) {
    forall i, j :: 0 <= i < j < |xs| ==> KeyLe(key(xs[i]), key(xs[j]))
  }

  function Insert<T(!new)>(x: T, xs: seq<T>, key: T -> Key): (r: seq<T>)
    ensures multiset(r) == multiset(xs) + multiset{x}
  {
    if xs == [] then [x]
    else
      assert xs == [xs[0]] + xs[1..];
      if KeyLe(key(x), key(xs[0])) then [x] + xs else [xs[0]] + Insert(x, xs[1..], key)
  }

  lemma {:induction false} InsertKeepsOrder<T(!new)>(x: T, xs: seq<T>, key: T -> Key)
    requires Ordered(xs, key)
    ensures Ordered(Insert(x, xs, key), key)
  {
    if xs != [] && !KeyLe(key(x), key(xs[0])) {
      var rest := Insert(x, xs[1..], key);
      InsertKeepsOrder(x, xs[1..], key);
      forall j | 0 <= j < |rest| ensures KeyLe(key(xs[0]), key(rest[j])) {
        assert rest[j] in multiset(rest);
        assert rest[j] == x || rest[j] in multiset(xs[1..]);
      }
    }
  }

  /** The stable `sorted(xs, key=key)`. */
  function SortBy<T(!new)>(xs: seq<T>, key: T -> Key): (r: seq<T>)
    ensures multiset(r) == multiset(xs)
  {
    if xs == [] then [] else
      assert xs == [xs[0]] + xs[1..];
      Insert(xs[0], SortBy(xs[1..], key), key)
  }

  lemma {:induction false} SortIsOrdered<T(!new)>(xs: seq<T>, key: T -> Key)
    ensures Ordered(SortBy(xs, key), key)
  {
    if xs != [] {
      SortIsOrdered(xs[1..], key);
      InsertKeepsOrder(xs[0], SortBy(xs[1..], key), key);
    }
  }

  /** Equal keys mean equal elements. */
  ghost predicate KeysIdentify<T(!new)>(xs: multiset<T>, key: T -> Key) {
    forall x, y :: x in xs && y in xs && key(x) == key(y) ==> x == y
  }

  lemma OrderedHeads<T(!new)>(xs: seq<T>, ys: seq<T>, key: T -> Key)
    requires multiset(xs) == multiset(ys) && Ordered(xs, key) && Ordered(ys, key) && KeysIdentify(multiset(xs), key)
    requires xs != [] && ys != []
    ensures xs[0] == ys[0]
  {
    assert xs[0] in multiset(ys) && ys[0] in multiset(xs);
    var i :| 0 <= i < |ys| && ys[i] == xs[0];
    var j :| 0 <= j < |xs| && xs[j] == ys[0];
    assert KeyLe(key(ys[0]), key(ys[i])) || i == 0;
    assert KeyLe(key(xs[0]), key(xs[j])) || j == 0;
  }

  lemma DropHead<T(!new)>(xs: seq<T>, key: T -> Key)
    requires Ordered(xs, key) && KeysIdentify(multiset(xs), key) && xs != []
    ensures multiset(xs[1..]) == multiset(xs) - multiset{xs[0]}
    ensures Ordered(xs[1..], key) && KeysIdentify(multiset(xs[1..]), key)
  {
    assert xs == [xs[0]] + xs[1..];
  }

  lemma SameHeadAndTail<T>(xs: seq<T>, ys: seq<T>)
    requires xs != [] && ys != [] && xs[0] == ys[0] && xs[1..] == ys[1..]
    ensures xs == ys
  {
    assert xs == [xs[0]] + xs[1..] && ys == [ys[0]] + ys[1..];
  }

  lemma {:induction false} OrderedIsUnique<T(!new)>(xs: seq<T>, ys: seq<T>, key: T -> Key)
    requires multiset(xs) == multiset(ys) && Ordered(xs, key) && Ordered(ys, key) && KeysIdentify(multiset(xs), key)
    ensures xs == ys
  {
    assert |xs| == |multiset(xs)| == |multiset(ys)| == |ys|;
    if xs != [] {
      OrderedHeads(xs, ys, key);
      DropHead(xs, key);
      DropHead(ys, key);
      OrderedIsUnique(xs[1..], ys[1..], key);
      SameHeadAndTail(xs, ys);
    }
  }

  /** Sorting by keys that identify their elements forgets the original order. */
  lemma SortIsOrderFree<T(!new)>(xs: seq<T>, ys: seq<T>, key: T -> Key)
    requires multiset(xs) == multiset(ys) && KeysIdentify(multiset(xs), key)
    ensures SortBy(xs, key) == SortBy(ys, key)
  {
    SortIsOrdered(xs, key);
    SortIsOrdered(ys, key);
    OrderedIsUnique(SortBy(xs, key), SortBy(ys, key), key);
  }

  lemma {:induction false} FilterCounts<T(!new)>(xs: seq<T>, p: T -> bool, x: T)
    ensures multiset(Filter(xs, p))[x] == if p(x) then multiset(xs)[x] else 0
  {
    if xs != [] {
      assert xs == [xs[0]] + xs[1..];
      FilterCounts(xs[1..], p, x);
    }
  }

  lemma FilterOfPermutation<T(!new)>(xs: seq<T>, ys: seq<T>, p: T -> bool)
    requires multiset(xs) == multiset(ys)
    ensures multiset(Filter(xs, p)) == multiset(Filter(ys, p))
  {
    forall x ensures multiset(Filter(xs, p))[x] == multiset(Filter(ys, p))[x] {
      FilterCounts(xs, p, x);
      FilterCounts(ys, p, x);
    }
  }
}
