/** Vocabulary shared by every module: error values, sets and counts of lists, dictionaries
    built from lists, the string order that the program sorts by, and the stable sort that
    stands behind each of its `sorted` calls. */
module Prelude {

  datatype Option<+T> = None | Some(value: T)

  datatype Result<+T, +E> = Ok(value: T) | Err(error: E)

  /** No element occurs twice. */
  ghost predicate Distinct<T>(s: seq<T>) {
    forall i, j :: 0 <= i < j < |s| ==> s[i] != s[j]
  }

  /** Code-point lexicographic order on strings. */
  predicate StrLe(a: string, b: string) {
    |a| == 0 || (|b| > 0 && (a[0] < b[0] || (a[0] == b[0] && StrLe(a[1..], b[1..]))))
  }

  lemma {:induction false} StrLeTotal(a: string, b: string)
    ensures StrLe(a, b) || StrLe(b, a)
  {
    if |a| > 0 && |b| > 0 { StrLeTotal(a[1..], b[1..]); }
  }

  lemma {:induction false} StrLeAntisymmetric(a: string, b: string)
    requires StrLe(a, b) && StrLe(b, a)
    ensures a == b
  {
    if |a| > 0 && |b| > 0 {
      StrLeAntisymmetric(a[1..], b[1..]);
      assert a == [a[0]] + a[1..] && b == [b[0]] + b[1..];
    }
  }

  lemma {:induction false} StrLeTransitive(a: string, b: string, c: string)
    requires StrLe(a, b) && StrLe(b, c)
    ensures StrLe(a, c)
  {
    if |a| > 0 && a[0] == b[0] && b[0] == c[0] { StrLeTransitive(a[1..], b[1..], c[1..]); }
  }

  ghost predicate Sorted<T>(s: seq<T>, le: (T, T) -> bool) {
    forall i, j :: 0 <= i < j < |s| ==> le(s[i], s[j])
  }

  /** `le` orders all values, possibly with ties. */
  ghost predicate Preorder<T(!new)>(le: (T, T) -> bool) {
    && (forall a, b :: le(a, b) || le(b, a))
    && (forall a, b, c :: le(a, b) && le(b, c) ==> le(a, c))
  }

  /** Values of `s` that tie under `le` are the same value. */
  ghost predicate NoTies<T>(s: seq<T>, le: (T, T) -> bool) {
    forall a, b :: a in s && b in s && le(a, b) && le(b, a) ==> a == b
  }

  function Insert<T>(x: T, s: seq<T>, le: (T, T) -> bool): (r: seq<T>) {
    if s == [] || le(x, s[0]) then [x] + s else [s[0]] + Insert(x, s[1..], le)
  }

  /** Stable sort. */
  function SortBy<T>(s: seq<T>, le: (T, T) -> bool): (r: seq<T>) {
    if s == [] then [] else Insert(s[0], SortBy(s[1..], le), le)
  }

  lemma {:induction false} InsertKeeps<T(!new)>(x: T, s: seq<T>, le: (T, T) -> bool)
    requires Preorder(le) && Sorted(s, le)
    ensures multiset(Insert(x, s, le)) == multiset{x} + multiset(s)
    ensures Sorted(Insert(x, s, le), le)
  {
    if s == [] {
    } else if le(x, s[0]) {
    } else {
      InsertKeeps(x, s[1..], le);
      var rest := Insert(x, s[1..], le);
      assert s == [s[0]] + s[1..];
      forall y | y in rest ensures le(s[0], y) {
        assert y in multiset(rest);
        assert y == x || y in multiset(s[1..]);
      }
    }
  }

  lemma {:induction false} SortByCorrect<T(!new)>(s: seq<T>, le: (T, T) -> bool)
    requires Preorder(le)
    ensures multiset(SortBy(s, le)) == multiset(s)
    ensures |SortBy(s, le)| == |s|
    ensures Sorted(SortBy(s, le), le)
  {
    if s != [] {
      SortByCorrect(s[1..], le);
      InsertKeeps(s[0], SortBy(s[1..], le), le);
      assert s == [s[0]] + s[1..];
    }
    assert |multiset(SortBy(s, le))| == |multiset(s)|;
  }

  lemma FirstsAgree<T(!new)>(a: seq<T>, b: seq<T>, le: (T, T) -> bool)
    requires Preorder(le) && Sorted(a, le) && Sorted(b, le) && multiset(a) == multiset(b) && NoTies(a, le) && a != []
    ensures b != [] && a[0] == b[0]
  {
    assert |multiset(a)| == |multiset(b)|;
    assert a[0] in multiset(b) && b[0] in multiset(a);
    assert le(a[0], b[0]) && le(b[0], a[0]);
  }

  lemma RestsRearranged<T>(a: seq<T>, b: seq<T>)
    requires multiset(a) == multiset(b) && a != [] && b != [] && a[0] == b[0]
    ensures multiset(a[1..]) == multiset(b[1..])
  {
    assert a == [a[0]] + a[1..] && b == [b[0]] + b[1..];
    assert multiset(a[1..]) == multiset(a) - multiset{a[0]};
    assert multiset(b[1..]) == multiset(b) - multiset{b[0]};
  }

  lemma EmptyRearranged<T>(a: seq<T>, b: seq<T>)
    requires multiset(a) == multiset(b) && a == []
    ensures b == []
  {
    assert |multiset(a)| == |multiset(b)|;
  }

  /** Two sorted arrangements of the same tie-free values are equal. */
  lemma {:induction false} SortedUnique<T(!new)>(a: seq<T>, b: seq<T>, le: (T, T) -> bool)
    requires Preorder(le) && Sorted(a, le) && Sorted(b, le)
    requires multiset(a) == multiset(b) && NoTies(a, le)
    ensures a == b
  {
    if a == [] {
      EmptyRearranged(a, b);
    } else {
      FirstsAgree(a, b, le);
      RestsRearranged(a, b);
      SortedUnique(a[1..], b[1..], le);
      assert a == [a[0]] + a[1..] && b == [b[0]] + b[1..];
    }
  }

  /** Sorting forgets the order in which tie-free values were supplied. */
  lemma SortByOrderFree<T(!new)>(a: seq<T>, b: seq<T>, le: (T, T) -> bool)
    requires Preorder(le) && multiset(a) == multiset(b) && NoTies(a, le)
    ensures SortBy(a, le) == SortBy(b, le)
  {
    SortByCorrect(a, le);
    SortByCorrect(b, le);
    SameElements(SortBy(a, le), a);
    SortedUnique(SortBy(a, le), SortBy(b, le), le);
  }

  /** Sorting a sorted sequence returns it, ties included. */
  lemma {:induction false} SortByFixpoint<T(!new)>(s: seq<T>, le: (T, T) -> bool)
    requires Sorted(s, le)
    ensures SortBy(s, le) == s
  {
    if s != [] {
      SortByFixpoint(s[1..], le);
      assert s == [s[0]] + s[1..];
    }
  }

  lemma SameElements<T(!new)>(a: seq<T>, b: seq<T>)
    requires multiset(a) == multiset(b)
    ensures forall x :: x in a <==> x in b
    ensures (set x | x in a) == (set x | x in b)
    ensures |a| == |b|
  {
    forall x ensures x in a <==> x in b {
      assert x in a <==> x in multiset(a);
      assert x in b <==> x in multiset(b);
    }
    assert |multiset(a)| == |multiset(b)|;
  }

  function SetOf<T>(s: seq<T>): set<T> { set x | x in s }

  /** Python's `len(items) == len(set(items))`. */
  predicate NoRepeats<T(==)>(s: seq<T>) { |s| == |SetOf(s)| }

  lemma {:induction false} NoRepeatsSpec<T>(s: seq<T>)
    ensures |SetOf(s)| <= |s|
    ensures NoRepeats(s) <==> Distinct(s)
  {
    if s != [] {
      var rest := s[1..];
      NoRepeatsSpec(rest);
      assert s == [s[0]] + rest;
      assert SetOf(s) == SetOf(rest) + {s[0]};
      if s[0] in rest {
        assert SetOf(s) == SetOf(rest);
        var j :| 0 <= j < |rest| && rest[j] == s[0];
        assert s[j + 1] == s[0];
      }
    }
  }

  /** Rearranging distinct values leaves them distinct. */
  lemma DistinctRearranged<T(!new)>(a: seq<T>, b: seq<T>)
    requires multiset(a) == multiset(b)
    ensures Distinct(a) <==> Distinct(b)
  {
    NoRepeatsSpec(a);
    NoRepeatsSpec(b);
    SameElements(a, b);
  }

  lemma {:induction false} DistinctCounts<T>(s: seq<T>, x: T)
    requires Distinct(s)
    ensures multiset(s)[x] == if x in s then 1 else 0
  {
    if s != [] {
      assert s == [s[0]] + s[1..];
      DistinctCounts(s[1..], x);
    }
  }

  /** Distinct lists of the same values are rearrangements of each other. */
  lemma DistinctSameValues<T(!new)>(a: seq<T>, b: seq<T>)
    requires Distinct(a) && Distinct(b) && SetOf(a) == SetOf(b)
    ensures multiset(a) == multiset(b)
  {
    forall x ensures multiset(a)[x] == multiset(b)[x] {
      DistinctCounts(a, x);
      DistinctCounts(b, x);
      assert x in a <==> x in SetOf(a);
      assert x in b <==> x in SetOf(b);
    }
  }

  lemma StrLePreorder()
    ensures Preorder(StrLe)
  {
    forall a, b ensures StrLe(a, b) || StrLe(b, a) { StrLeTotal(a, b); }
    forall a, b, c | StrLe(a, b) && StrLe(b, c) ensures StrLe(a, c) { StrLeTransitive(a, b, c); }
  }

  predicate Least(x: string, s: set<string>) { x in s && forall y :: y in s ==> StrLe(x, y) }

  lemma {:induction false} LeastExists(s: set<string>) returns (m: string)
    requires s != {}
    ensures Least(m, s)
  {
    StrLePreorder();
    m :| m in s;
    if s != {m} {
      assert s - {m} != {} by { assert s == (s - {m}) + {m}; }
      var n := LeastExists(s - {m});
      if StrLe(n, m) {
        forall y | y in s ensures StrLe(n, y) { if y != m { assert y in s - {m}; } }
        m := n;
      } else {
        forall y | y in s ensures StrLe(m, y) {
          if y != m { assert y in s - {m} && StrLe(m, n) && StrLe(n, y); }
        }
      }
    }
  }

  lemma LeastIsUnique(s: set<string>)
    requires s != {}
    ensures exists m :: Least(m, s)
    ensures forall x, z :: Least(x, s) && Least(z, s) ==> x == z
  {
    var m := LeastExists(s);
    forall x, z | Least(x, s) && Least(z, s) ensures x == z { StrLeAntisymmetric(x, z); }
  }

  function LeastOf(s: set<string>): (m: string)
    requires s != {}
    ensures Least(m, s)
  {
    LeastIsUnique(s);
    var m :| Least(m, s);
    m
  }

  /** `sorted(...)` of a set of strings. */
  function SortedOf(s: set<string>): seq<string> {
    if s == {} then [] else [LeastOf(s)] + SortedOf(s - {LeastOf(s)})
  }

  lemma ConsSorted(x: string, rest: seq<string>)
    requires Distinct(rest) && Sorted(rest, StrLe) && forall y :: y in SetOf(rest) ==> y != x && StrLe(x, y)
    ensures Distinct([x] + rest) && Sorted([x] + rest, StrLe)
  {
    assert forall i :: 0 <= i < |rest| ==> rest[i] in SetOf(rest);
  }

  lemma {:induction false} SortedOfSpec(s: set<string>)
    ensures SetOf(SortedOf(s)) == s && |SortedOf(s)| == |s|
    ensures Distinct(SortedOf(s)) && Sorted(SortedOf(s), StrLe)
  {
    if s != {} {
      var x := LeastOf(s);
      var rest := SortedOf(s - {x});
      SortedOfSpec(s - {x});
      ConsSorted(x, rest);
      assert SetOf([x] + rest) == {x} + SetOf(rest);
    }
  }

  /** A list that sorting leaves alone is sorted, and conversely. */
  lemma SortedIffFixed(r: seq<string>)
    ensures SortBy(r, StrLe) == r <==> Sorted(r, StrLe)
  {
    StrLePreorder();
    SortByCorrect(r, StrLe);
    if Sorted(r, StrLe) { SortByFixpoint(r, StrLe); }
  }

  function MapSeq<A, B>(f: A -> B, s: seq<A>): seq<B> {
    if s == [] then [] else [f(s[0])] + MapSeq(f, s[1..])
  }

  lemma {:induction false} MapAt<A, B>(f: A -> B, s: seq<A>)
    ensures |MapSeq(f, s)| == |s| && forall i :: 0 <= i < |s| ==> MapSeq(f, s)[i] == f(s[i])
  {
    if s != [] { MapAt(f, s[1..]); }
  }

  lemma {:induction false} MapConcat<A, B>(f: A -> B, a: seq<A>, b: seq<A>)
    ensures MapSeq(f, a + b) == MapSeq(f, a) + MapSeq(f, b)
  {
    if a == [] {
      assert a + b == b;
    } else {
      assert (a + b)[1..] == a[1..] + b;
      MapConcat(f, a[1..], b);
    }
  }

  lemma Without<A>(s: seq<A>, j: nat)
    requires j < |s|
    ensures multiset(s) == multiset(s[..j] + s[j + 1..]) + multiset{s[j]}
  {
    assert s == s[..j] + [s[j]] + s[j + 1..];
  }

  lemma RemoveHead<A>(a: seq<A>, b: seq<A>) returns (j: nat)
    requires multiset(a) == multiset(b) && a != []
    ensures j < |b| && b[j] == a[0] && multiset(a[1..]) == multiset(b[..j] + b[j + 1..])
  {
    assert a[0] in multiset(b);
    j :| 0 <= j < |b| && b[j] == a[0];
    Without(b, j);
    Without(a, 0);
    assert a[..0] + a[1..] == a[1..];
    CancelOne(multiset(a[1..]), multiset(b[..j] + b[j + 1..]), a[0]);
  }

  lemma CancelOne<A>(x: multiset<A>, y: multiset<A>, v: A)
    requires x + multiset{v} == y + multiset{v}
    ensures x == y
  {
    assert x == (x + multiset{v}) - multiset{v};
  }

  lemma MapAround<A, B>(f: A -> B, x: seq<A>, v: A, y: seq<A>)
    ensures MapSeq(f, x + [v] + y) == MapSeq(f, x) + [f(v)] + MapSeq(f, y)
  {
    MapConcat(f, x + [v], y);
    MapConcat(f, x, [v]);
    assert MapSeq(f, [v]) == [f(v)];
  }

  lemma TakeOut<A>(x: seq<A>, v: A, y: seq<A>)
    ensures multiset(x + [v] + y) == multiset{v} + multiset(x + y)
  {
  }

  lemma MapRemove<A, B>(f: A -> B, b: seq<A>, j: nat)
    requires j < |b|
    ensures multiset(MapSeq(f, b)) == multiset{f(b[j])} + multiset(MapSeq(f, b[..j] + b[j + 1..]))
  {
    SplitAround(b, j);
    MapTakeOut(f, b[..j], b[j], b[j + 1..]);
  }

  lemma SplitAround<A>(b: seq<A>, j: nat)
    requires j < |b|
    ensures b[..j] + [b[j]] + b[j + 1..] == b
  {
  }

  lemma MapTakeOut<A, B>(f: A -> B, x: seq<A>, v: A, y: seq<A>)
    ensures multiset(MapSeq(f, x + [v] + y)) == multiset{f(v)} + multiset(MapSeq(f, x + y))
  {
    MapAround(f, x, v, y);
    MapConcat(f, x, y);
    TakeOut(MapSeq(f, x), f(v), MapSeq(f, y));
  }

  /** Mapping a rearrangement gives a rearrangement. */
  lemma {:induction false} MapRearranged<A, B>(f: A -> B, a: seq<A>, b: seq<A>)
    requires multiset(a) == multiset(b)
    ensures multiset(MapSeq(f, a)) == multiset(MapSeq(f, b))
  {
    assert |multiset(a)| == |multiset(b)|;
    if a != [] {
      var j := RemoveHead(a, b);
      MapRearranged(f, a[1..], b[..j] + b[j + 1..]);
      MapRemove(f, b, j);
    }
  }

  lemma SetOfEmpty<A>(s: seq<A>)
    ensures SetOf(s) == {} <==> s == []
  {
    if s != [] { assert s[0] in SetOf(s); }
  }

  /** The dictionary comprehension {key(x): x for x in xs}; later entries win. */
  function ById<K(==), T>(key: T -> K, xs: seq<T>): map<K, T> {
    if xs == [] then map[] else ById(key, xs[..|xs| - 1])[key(xs[|xs| - 1]) := xs[|xs| - 1]]
  }

  lemma {:induction false} ByIdKeys<K, T>(key: T -> K, xs: seq<T>)
    ensures ById(key, xs).Keys == SetOf(MapSeq(key, xs))
  {
    MapAt(key, xs);
    if xs != [] {
      var init, last := xs[..|xs| - 1], xs[|xs| - 1];
      assert xs == init + [last];
      ByIdKeys(key, init);
      MapConcat(key, init, [last]);
      assert MapSeq(key, [last]) == [key(last)];
      assert SetOf(MapSeq(key, init) + [key(last)]) == SetOf(MapSeq(key, init)) + {key(last)};
    }
  }

  /** With distinct keys every entry is found under its own key. */
  lemma {:induction false} ByIdFinds<K, T>(key: T -> K, xs: seq<T>)
    requires Distinct(MapSeq(key, xs))
    ensures forall x :: x in xs ==> key(x) in ById(key, xs) && ById(key, xs)[key(x)] == x
  {
    MapAt(key, xs);
    if xs != [] {
      var init, last := xs[..|xs| - 1], xs[|xs| - 1];
      MapAt(key, init);
      assert forall i :: 0 <= i < |init| ==> MapSeq(key, init)[i] == MapSeq(key, xs)[i];
      ByIdFinds(key, init);
      forall x | x in xs ensures key(x) in ById(key, xs) && ById(key, xs)[key(x)] == x {
        var i :| 0 <= i < |xs| && xs[i] == x;
        if i < |init| {
          assert init[i] == x;
          assert MapSeq(key, xs)[i] != MapSeq(key, xs)[|xs| - 1];
        }
      }
    }
  }

  /** With distinct keys the table does not depend on the order of the entries. */
  lemma RearrangedSameTable<K(!new), T(!new)>(key: T -> K, a: seq<T>, b: seq<T>)
    requires Distinct(MapSeq(key, a)) && Distinct(MapSeq(key, b)) && multiset(a) == multiset(b)
    ensures ById(key, a) == ById(key, b)
  {
    ByIdFinds(key, a);
    ByIdFinds(key, b);
    ByIdKeys(key, a);
    ByIdKeys(key, b);
    MapAt(key, a);
    SameElements(a, b);
    MapRearranged(key, a, b);
    SameElements(MapSeq(key, a), MapSeq(key, b));
    forall k | k in ById(key, a) ensures ById(key, a)[k] == ById(key, b)[k] {
      assert k in SetOf(MapSeq(key, a));
      var i :| 0 <= i < |a| && MapSeq(key, a)[i] == k;
      assert a[i] in a && a[i] in b;
    }
  }

  /** Later entries override earlier ones. */
  lemma {:induction false} ByIdConcat<K, T>(key: T -> K, a: seq<T>, b: seq<T>)
    ensures ById(key, a + b) == ById(key, a) + ById(key, b)
  {
    if b == [] {
      assert a + b == a;
    } else {
      var init, last := b[..|b| - 1], b[|b| - 1];
      assert (a + b)[..|a + b| - 1] == a + init && (a + b)[|a + b| - 1] == last;
      ByIdConcat(key, a, init);
    }
  }

  function FlatMap<A, B>(f: A -> seq<B>, s: seq<A>): seq<B> {
    if s == [] then [] else f(s[0]) + FlatMap(f, s[1..])
  }

  lemma {:induction false} FlatMapConcat<A, B>(f: A -> seq<B>, a: seq<A>, b: seq<A>)
    ensures FlatMap(f, a + b) == FlatMap(f, a) + FlatMap(f, b)
  {
    if a == [] {
      assert a + b == b;
    } else {
      var head, x, y := f(a[0]), FlatMap(f, a[1..]), FlatMap(f, b);
      assert (a + b)[1..] == a[1..] + b;
      FlatMapConcat(f, a[1..], b);
      assert head + (x + y) == (head + x) + y;
    }
  }

  lemma {:induction false} InFlatMap<A, B(!new)>(f: A -> seq<B>, s: seq<A>)
    ensures forall x :: x in FlatMap(f, s) <==> exists a :: a in s && x in f(a)
  {
    if s != [] {
      InFlatMap(f, s[1..]);
      assert s == [s[0]] + s[1..];
      forall x ensures x in FlatMap(f, s) <==> exists a :: a in s && x in f(a) {
        if x in f(s[0]) { assert s[0] in s; }
        if x in FlatMap(f, s[1..]) {
          var a :| a in s[1..] && x in f(a);
          assert a in s;
        }
      }
    }
  }

  function Filter<A>(p: A -> bool, s: seq<A>): seq<A> {
    if s == [] then [] else (if p(s[0]) then [s[0]] else []) + Filter(p, s[1..])
  }

  lemma {:induction false} InFilter<A(!new)>(p: A -> bool, s: seq<A>)
    ensures forall x :: x in Filter(p, s) <==> x in s && p(x)
  {
    if s != [] {
      InFilter(p, s[1..]);
      assert s == [s[0]] + s[1..];
    }
  }

  lemma InMapSeq<A(!new), B(!new)>(f: A -> B, s: seq<A>)
    ensures forall y :: y in MapSeq(f, s) <==> exists x :: x in s && f(x) == y
  {
    MapAt(f, s);
    forall y ensures y in MapSeq(f, s) <==> exists x :: x in s && f(x) == y {
      if y in MapSeq(f, s) {
        var i :| 0 <= i < |s| && MapSeq(f, s)[i] == y;
        assert s[i] in s;
      }
      forall x | x in s && f(x) == y ensures y in MapSeq(f, s) {
        var i :| 0 <= i < |s| && s[i] == x;
        assert MapSeq(f, s)[i] == y;
      }
    }
  }

  /** What a table holds is an entry under its own key. */
  lemma {:induction false} ByIdHolds<K, T(!new)>(key: T -> K, xs: seq<T>)
    ensures forall k :: k in ById(key, xs) ==> ById(key, xs)[k] in xs && key(ById(key, xs)[k]) == k
    ensures forall x :: x in xs ==> key(x) in ById(key, xs)
  {
    if xs != [] {
      var init, last := xs[..|xs| - 1], xs[|xs| - 1];
      assert xs == init + [last];
      ByIdHolds(key, init);
    }
  }
}
