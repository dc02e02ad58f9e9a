/** A stable sort, and what it guarantees. */
module Sorting {

  function Insert<T>(x: T, xs: seq<T>, le: (T, T) -> bool): seq<T> {
    if xs == [] then [x]
    else if le(x, xs[0]) then [x] + xs
    else [xs[0]] + Insert(x, xs[1..], le)
  }

  // Python's `sorted`: equal elements keep their order.
  function Sort<T>(xs: seq<T>, le: (T, T) -> bool): seq<T> {
    if xs == [] then [] else Insert(xs[0], Sort(xs[1..], le), le)
  }

  ghost predicate Total<T(!new)>(le: (T, T) -> bool) {
    forall a, b :: le(a, b) || le(b, a)
  }

  ghost predicate Transitive<T(!new)>(le: (T, T) -> bool) {
    forall a, b, c :: le(a, b) && le(b, c) ==> le(a, c)
  }

  ghost predicate Sorted<T>(xs: seq<T>, le: (T, T) -> bool) {
    forall i, j :: 0 <= i < j < |xs| ==> le(xs[i], xs[j])
  }

  lemma {:induction false} InsertPermutes<T>(x: T, xs: seq<T>, le: (T, T) -> bool)
    ensures multiset(Insert(x, xs, le)) == multiset(xs) + multiset{x}
  {
    if xs != [] {
      InsertPermutes(x, xs[1..], le);
      assert xs == [xs[0]] + xs[1..];
    }
  }

  lemma {:induction false} SortPermutes<T>(xs: seq<T>, le: (T, T) -> bool)
    ensures multiset(Sort(xs, le)) == multiset(xs) && |Sort(xs, le)| == |xs|
  {
    if xs != [] {
      SortPermutes(xs[1..], le);
      InsertPermutes(xs[0], Sort(xs[1..], le), le);
      assert xs == [xs[0]] + xs[1..];
      assert |multiset(Sort(xs, le))| == |multiset(xs)|;
    }
  }

  lemma {:induction false} InsertSorts<T(!new)>(x: T, xs: seq<T>, le: (T, T) -> bool)
    requires Total(le) && Transitive(le) && Sorted(xs, le)
    ensures Sorted(Insert(x, xs, le), le)
  {
    if xs != [] && !le(x, xs[0]) {
      InsertSorts(x, xs[1..], le);
      InsertPermutes(x, xs[1..], le);
      var rest := Insert(x, xs[1..], le);
      forall j | 0 <= j < |rest| ensures le(xs[0], rest[j]) {
        assert rest[j] in multiset(rest);
      }
    }
  }

  lemma {:induction false} SortSorts<T(!new)>(xs: seq<T>, le: (T, T) -> bool)
    requires Total(le) && Transitive(le)
    ensures Sorted(Sort(xs, le), le)
  {
    if xs != [] {
      SortSorts(xs[1..], le);
      InsertSorts(xs[0], Sort(xs[1..], le), le);
    }
  }

  // Sorting what is sorted changes nothing.
  lemma {:induction false} SortOfSorted<T>(xs: seq<T>, le: (T, T) -> bool)
    requires Sorted(xs, le)
    ensures Sort(xs, le) == xs
  {
    if xs != [] { SortOfSorted(xs[1..], le); }
  }

  lemma SortKeepsElements<T>(xs: seq<T>, le: (T, T) -> bool)
    ensures forall x :: x in Sort(xs, le) <==> x in xs
  {
    SortPermutes(xs, le);
    forall x ensures x in Sort(xs, le) <==> x in xs {
      assert x in multiset(Sort(xs, le)) <==> x in multiset(xs);
    }
  }

  lemma CountsTwice<T>(ys: seq<T>, i: nat, j: nat)
    requires i < j < |ys| && ys[i] == ys[j]
    ensures multiset(ys)[ys[i]] >= 2
  {
    assert ys == ys[..j] + [ys[j]] + ys[j + 1..];
    assert ys[..j][i] == ys[i];
    assert ys[i] in multiset(ys[..j]);
  }

  // ---------------------------------------------------------------- stability

  function Filter<T>(p: T -> bool, xs: seq<T>): seq<T> {
    if xs == [] then []
    else if p(xs[0]) then [xs[0]] + Filter(p, xs[1..])
    else Filter(p, xs[1..])
  }

  function Class<T>(le: (T, T) -> bool, a: T): T -> bool {
    b => le(a, b) && le(b, a)
  }

  lemma {:induction false} FilterElements<T>(p: T -> bool, xs: seq<T>)
    ensures forall x :: x in Filter(p, xs) <==> x in xs && p(x)
  {
    if xs != [] { FilterElements(p, xs[1..]); }
  }

  // Predicates that agree on the elements filter alike.
  lemma {:induction false} FilterSame<T>(p: T -> bool, q: T -> bool, xs: seq<T>)
    requires forall x :: x in xs ==> p(x) == q(x)
    ensures Filter(p, xs) == Filter(q, xs)
  {
    if xs != [] {
      assert xs[0] in xs && forall x :: x in xs[1..] ==> x in xs;
      FilterSame(p, q, xs[1..]);
    }
  }

  lemma {:induction false} FilterSorted<T>(p: T -> bool, xs: seq<T>, le: (T, T) -> bool)
    requires Sorted(xs, le)
    ensures Sorted(Filter(p, xs), le)
    ensures forall j :: 0 <= j < |Filter(p, xs)| ==> exists i :: 0 <= i < |xs| && xs[i] == Filter(p, xs)[j]
  {
    if xs != [] {
      var rest := Filter(p, xs[1..]);
      FilterSorted(p, xs[1..], le);
      forall j | 0 <= j < |rest| ensures exists i :: 1 <= i < |xs| && xs[i] == rest[j] {
        var i :| 0 <= i < |xs[1..]| && xs[1..][i] == rest[j];
        assert xs[i + 1] == rest[j];
      }
    }
  }

  lemma {:induction false} FilterInsert<T(!new)>(p: T -> bool, x: T, xs: seq<T>, le: (T, T) -> bool)
    requires Transitive(le) && Sorted(xs, le)
    ensures Filter(p, Insert(x, xs, le)) == if p(x) then Insert(x, Filter(p, xs), le) else Filter(p, xs)
  {
    if xs != [] {
      if le(x, xs[0]) {
        assert ([x] + xs)[1..] == xs;
        FilterElements(p, xs);
        if p(x) && Filter(p, xs) != [] { assert Filter(p, xs)[0] in xs; }
      } else {
        FilterInsert(p, x, xs[1..], le);
        assert ([xs[0]] + Insert(x, xs[1..], le))[1..] == Insert(x, xs[1..], le);
        if p(x) && p(xs[0]) {
          assert ([xs[0]] + Filter(p, xs[1..]))[1..] == Filter(p, xs[1..]);
        }
      }
    }
  }

  // Taking elements out commutes with sorting.
  lemma {:induction false} FilterSort<T(!new)>(p: T -> bool, xs: seq<T>, le: (T, T) -> bool)
    requires Total(le) && Transitive(le)
    ensures Filter(p, Sort(xs, le)) == Sort(Filter(p, xs), le)
  {
    if xs != [] {
      FilterSort(p, xs[1..], le);
      SortSorts(xs[1..], le);
      FilterInsert(p, xs[0], Sort(xs[1..], le), le);
      if p(xs[0]) { assert ([xs[0]] + Filter(p, xs[1..]))[1..] == Filter(p, xs[1..]); }
    }
  }

  // Equal elements keep their order.
  lemma SortStable<T(!new)>(xs: seq<T>, le: (T, T) -> bool, a: T)
    requires Total(le) && Transitive(le)
    ensures Filter(Class(le, a), Sort(xs, le)) == Filter(Class(le, a), xs)
  {
    FilterSort(Class(le, a), xs, le);
    FilterElements(Class(le, a), xs);
    var same := Filter(Class(le, a), xs);
    assert forall i :: 0 <= i < |same| ==> same[i] in same;
    SortOfSorted(same, le);
  }

  // A sorted sequence is determined by its classes of equal elements.
  lemma {:induction false} SortedByClasses<T(!new)>(xs: seq<T>, ys: seq<T>, le: (T, T) -> bool)
    requires Total(le) && Transitive(le) && Sorted(xs, le) && Sorted(ys, le)
    requires forall a :: Filter(Class(le, a), xs) == Filter(Class(le, a), ys)
    ensures xs == ys
  {
    if xs == [] {
      if ys != [] { FilterElements(Class(le, ys[0]), ys); }
    } else {
      var a := xs[0];
      FilterElements(Class(le, a), xs);
      FilterElements(Class(le, a), ys);
      assert a in Filter(Class(le, a), ys);
      var b := ys[0];
      FilterElements(Class(le, b), xs);
      FilterElements(Class(le, b), ys);
      assert b in Filter(Class(le, b), xs);
      assert le(b, a) && le(a, b);
      assert Filter(Class(le, a), xs)[0] == a && Filter(Class(le, a), ys)[0] == b;
      forall c ensures Filter(Class(le, c), xs[1..]) == Filter(Class(le, c), ys[1..]) {
        assert Filter(Class(le, c), xs) == Filter(Class(le, c), ys);
        if Class(le, c)(a) {
          assert Filter(Class(le, c), xs)[1..] == Filter(Class(le, c), xs[1..]);
          assert Filter(Class(le, c), ys)[1..] == Filter(Class(le, c), ys[1..]);
        }
      }
      SortedByClasses(xs[1..], ys[1..], le);
    }
  }

  // Lexicographic order of strings by character code.
  predicate StringLe(a: string, b: string) {
    a == [] || (b != [] && (a[0] < b[0] || (a[0] == b[0] && StringLe(a[1..], b[1..]))))
  }

  lemma {:induction false} StringLeTotal(a: string, b: string)
    ensures StringLe(a, b) || StringLe(b, a)
    ensures StringLe(a, b) && StringLe(b, a) ==> a == b
  {
    if a != [] && b != [] && a[0] == b[0] { StringLeTotal(a[1..], b[1..]); }
  }

  lemma {:induction false} StringLeTransitive(a: string, b: string, c: string)
    requires StringLe(a, b) && StringLe(b, c)
    ensures StringLe(a, c)
  {
    if a != [] && b != [] && c != [] && a[0] == b[0] == c[0] { StringLeTransitive(a[1..], b[1..], c[1..]); }
  }
}
