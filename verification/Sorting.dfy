/** The library sorts the program calls (`sort.SliceStable`, `sort.Slice`, `sort.Ints`,
    `sort.Strings`), as one stable insertion sort over an arbitrary strict weak order. */
module Sorting {

  /** `less` never orders a pair both ways, and "not less" is transitive. */
  ghost predicate WeakOrder<T(!new)>(less: (T, T) -> bool) {
    && (forall a, b :: less(a, b) ==> !less(b, a))
    && (forall a, b, c :: !less(a, b) && !less(b, c) ==> !less(a, c))
  }

  ghost predicate Ordered<T>(s: seq<T>, less: (T, T) -> bool) {
    forall i, j :: 0 <= i < j < |s| ==> !less(s[j], s[i])
  }

  /** Puts `x` in front of the first element that is not below it. */
  function Insert<T>(x: T, s: seq<T>, less: (T, T) -> bool): seq<T> {
    if s == [] || !less(s[0], x) then [x] + s else [s[0]] + Insert(x, s[1..], less)
  }

  function Sort<T>(s: seq<T>, less: (T, T) -> bool): seq<T> {
    if s == [] then [] else Insert(s[0], Sort(s[1..], less), less)
  }

  lemma {:induction false} InsertPermutes<T>(x: T, s: seq<T>, less: (T, T) -> bool)
    ensures multiset(Insert(x, s, less)) == multiset{x} + multiset(s)
  {
    if s != [] && less(s[0], x) {
      InsertPermutes(x, s[1..], less);
      assert s == [s[0]] + s[1..];
    }
  }

  lemma {:induction false} SortPermutes<T>(s: seq<T>, less: (T, T) -> bool)
    ensures multiset(Sort(s, less)) == multiset(s)
    ensures |Sort(s, less)| == |s|
    ensures forall x :: x in Sort(s, less) <==> x in s
  {
    if s != [] {
      SortPermutes(s[1..], less);
      InsertPermutes(s[0], Sort(s[1..], less), less);
      assert s == [s[0]] + s[1..];
    }
    assert |multiset(Sort(s, less))| == |multiset(s)|;
    forall x ensures x in Sort(s, less) <==> x in s {
      assert x in Sort(s, less) <==> x in multiset(Sort(s, less));
      assert x in s <==> x in multiset(s);
    }
  }

  lemma {:induction false} InsertOrdered<T(!new)>(x: T, s: seq<T>, less: (T, T) -> bool)
    requires WeakOrder(less) && Ordered(s, less)
    ensures Ordered(Insert(x, s, less), less)
  {
    if s != [] {
      if less(s[0], x) {
        var rest := Insert(x, s[1..], less);
        InsertOrdered(x, s[1..], less);
        InsertPermutes(x, s[1..], less);
        forall j | 0 <= j < |rest| ensures !less(rest[j], s[0]) {
          assert rest[j] in multiset{x} + multiset(s[1..]);
        }
      } else {
        forall j | 0 <= j < |s| ensures !less(s[j], x) {
          assert j == 0 || !less(s[j], s[0]);
        }
      }
    }
  }

  lemma {:induction false} SortOrders<T(!new)>(s: seq<T>, less: (T, T) -> bool)
    requires WeakOrder(less)
    ensures Ordered(Sort(s, less), less)
  {
    if s != [] {
      SortOrders(s[1..], less);
      InsertOrdered(s[0], Sort(s[1..], less), less);
    }
  }

  /** The elements of `s` that satisfy `keep`, in order. */
  function Filter<T>(s: seq<T>, keep: T -> bool): seq<T> {
    if s == [] then []
    else if keep(s[0]) then [s[0]] + Filter(s[1..], keep)
    else Filter(s[1..], keep)
  }

  /** `keep` holds of equivalent elements only, so no two kept ones are ordered. */
  ghost predicate OneClass<T(!new)>(keep: T -> bool, less: (T, T) -> bool) {
    forall a, b :: keep(a) && keep(b) ==> !less(a, b)
  }

  lemma {:induction false} InsertStable<T(!new)>(x: T, s: seq<T>, less: (T, T) -> bool, keep: T -> bool)
    requires OneClass(keep, less)
    ensures Filter(Insert(x, s, less), keep) == (if keep(x) then [x] else []) + Filter(s, keep)
  {
    if s != [] && less(s[0], x) {
      InsertStable(x, s[1..], less, keep);
      FilterFirst(s[0], Insert(x, s[1..], less), keep);
      FilterFirst(s[0], s[1..], keep);
      assert s == [s[0]] + s[1..];
    } else {
      FilterFirst(x, s, keep);
    }
  }

  lemma FilterFirst<T>(x: T, s: seq<T>, keep: T -> bool)
    ensures Filter([x] + s, keep) == (if keep(x) then [x] else []) + Filter(s, keep)
  {
    assert ([x] + s)[1..] == s;
  }

  /** Elements that compare equal keep the order they came in. */
  lemma {:induction false} SortStable<T(!new)>(s: seq<T>, less: (T, T) -> bool, keep: T -> bool)
    requires OneClass(keep, less)
    ensures Filter(Sort(s, less), keep) == Filter(s, keep)
  {
    if s != [] {
      SortStable(s[1..], less, keep);
      InsertStable(s[0], Sort(s[1..], less), less, keep);
    }
  }

  /** A total order leaves one way to arrange a bag of elements. */
  lemma {:induction false} OrderedUnique<T(!new)>(s: seq<T>, t: seq<T>, less: (T, T) -> bool)
    requires multiset(s) == multiset(t)
    requires Ordered(s, less) && Ordered(t, less)
    requires forall a, b :: a in s && b in s && a != b ==> less(a, b) || less(b, a)
    ensures s == t
  {
    assert |multiset(s)| == |s| && |multiset(t)| == |t|;
    if s != [] {
      SameFirst(s, t, less);
      WithoutFirst(s);
      WithoutFirst(t);
      assert s == [s[0]] + s[1..];
      OrderedUnique(s[1..], t[1..], less);
    }
  }

  lemma SameFirst<T(!new)>(s: seq<T>, t: seq<T>, less: (T, T) -> bool)
    requires s != [] && t != [] && multiset(s) == multiset(t) && Ordered(s, less) && Ordered(t, less)
    requires forall a, b :: a in s && b in s && a != b ==> less(a, b) || less(b, a)
    ensures s[0] == t[0]
  {
    assert s[0] in multiset(t) && t[0] in multiset(s);
    var i :| 0 <= i < |t| && t[i] == s[0];
    var j :| 0 <= j < |s| && s[j] == t[0];
  }

  lemma WithoutFirst<T>(s: seq<T>)
    requires s != []
    ensures multiset(s[1..]) == multiset(s) - multiset{s[0]}
  {
    assert s == [s[0]] + s[1..];
  }

  lemma Twice<T>(s: seq<T>, i: nat, j: nat)
    requires i < j < |s| && s[i] == s[j]
    ensures 2 <= multiset(s)[s[i]]
  {
    assert s == s[..j] + [s[j]] + s[j + 1..];
    assert s[i] in s[..j];
  }

  lemma Once<T>(s: seq<T>, a: nat)
    requires a < |s|
    requires forall i, j :: 0 <= i < j < |s| ==> s[i] != s[j]
    ensures multiset(s)[s[a]] == 1
  {
    assert s == s[..a] + [s[a]] + s[a + 1..];
    assert s[a] !in s[..a] && s[a] !in s[a + 1..];
  }

  /** A sequence that lists a set has no repetitions. */
  lemma ListsOnce<T>(l: seq<T>, s: set<T>)
    requires multiset(l) == multiset(s)
    ensures forall x :: x in l <==> x in s
    ensures forall i, j :: 0 <= i < j < |l| ==> l[i] != l[j]
  {
    forall x ensures x in l <==> x in s {
      assert x in l <==> x in multiset(l);
    }
    forall i, j | 0 <= i < j < |l| ensures l[i] != l[j] {
      if l[i] == l[j] {
        Twice(l, i, j);
      }
    }
  }
}
