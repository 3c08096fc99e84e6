/** Sorting by a comparison function, the contract of Go's `sort.Slice`, `sort.SliceStable`
    and SQL's ORDER BY, together with the uniqueness facts that make an order deterministic. */
module Ordering {

  /** A strict weak order: what `sort.Slice` demands of its comparison function. */
  ghost predicate WeakOrder<T(!new)>(less: (T, T) -> bool) {
    && (forall a, b :: less(a, b) ==> !less(b, a))
    && (forall a, b, c :: less(a, c) ==> less(a, b) || less(b, c))
  }

  /** No later element is smaller than an earlier one. */
  ghost predicate Sorted<T>(less: (T, T) -> bool, s: seq<T>) {
    forall i, j :: 0 <= i < j < |s| ==> !less(s[j], s[i])
  }

  ghost predicate Distinct<T>(s: seq<T>) {
    forall i, j :: 0 <= i < j < |s| ==> s[i] != s[j]
  }

  function Insert<T>(less: (T, T) -> bool, x: T, s: seq<T>): (r: seq<T>)
    ensures multiset(r) == multiset(s) + multiset{x}
  {
    if s == [] then [x]
    else if less(s[0], x) then
      assert s == [s[0]] + s[1..];
      [s[0]] + Insert(less, x, s[1..])
    else [x] + s
  }

  function Sort<T>(less: (T, T) -> bool, s: seq<T>): (r: seq<T>)
    ensures multiset(r) == multiset(s)
    ensures |r| == |s|
  {
    if s == [] then []
    else
      assert s == [s[0]] + s[1..];
      var r := Insert(less, s[0], Sort(less, s[1..]));
      assert |multiset(r)| == |r|;
      r
  }

  lemma {:induction false} InsertSorted<T(!new)>(less: (T, T) -> bool, x: T, s: seq<T>)
    requires WeakOrder(less) && Sorted(less, s)
    ensures Sorted(less, Insert(less, x, s))
  {
    if s != [] && less(s[0], x) {
      InsertSorted(less, x, s[1..]);
      var rest := Insert(less, x, s[1..]);
      forall j | 0 <= j < |rest| ensures !less(rest[j], s[0]) {
        assert rest[j] in multiset(rest);
        if rest[j] != x {
          assert rest[j] in s[1..];
        }
      }
    }
  }

  lemma {:induction false} SortSorted<T(!new)>(less: (T, T) -> bool, s: seq<T>)
    requires WeakOrder(less)
    ensures Sorted(less, Sort(less, s))
  {
    if s != [] {
      SortSorted(less, s[1..]);
      InsertSorted(less, s[0], Sort(less, s[1..]));
    }
  }

  /** Any two distinct elements of the sequence are ordered one way or the other. */
  ghost predicate TotalOn<T>(less: (T, T) -> bool, s: seq<T>) {
    forall a, b :: a in s && b in s && a != b ==> less(a, b) || less(b, a)
  }

  /** When the order is total on the elements there is only one sorted arrangement, so every
      correct sorting algorithm and every input order give the same sequence. */
  lemma {:induction false} SortedUnique<T(!new)>(less: (T, T) -> bool, s: seq<T>, t: seq<T>)
    requires WeakOrder(less) && TotalOn(less, s)
    requires Sorted(less, s) && Sorted(less, t)
    requires multiset(s) == multiset(t)
    ensures s == t
  {
    SameLength(s, t);
    if s != [] {
      SortedHead(less, s, t);
      TailMultiset(s);
      TailMultiset(t);
      SortedUnique(less, s[1..], t[1..]);
      assert s == [s[0]] + s[1..] && t == [t[0]] + t[1..];
    }
  }

  lemma SortedHead<T(!new)>(less: (T, T) -> bool, s: seq<T>, t: seq<T>)
    requires TotalOn(less, s) && Sorted(less, s) && Sorted(less, t)
    requires multiset(s) == multiset(t) && s != [] && t != []
    ensures s[0] == t[0]
  {
    assert s[0] in multiset(t) && t[0] in multiset(s);
    var i :| 0 <= i < |t| && t[i] == s[0];
    var j :| 0 <= j < |s| && s[j] == t[0];
  }

  lemma TailMultiset<T>(s: seq<T>)
    requires s != []
    ensures multiset(s[1..]) == multiset(s) - multiset{s[0]}
  {
    assert s == [s[0]] + s[1..];
  }

  lemma SameLength<T>(s: seq<T>, t: seq<T>)
    requires multiset(s) == multiset(t)
    ensures |s| == |t|
  {
    assert |s| == |multiset(s)| && |t| == |multiset(t)|;
  }

  /** The elements of a set in some order, which the caller does not control: the order of
      rows in an unordered query and of keys in a Go map iteration. */
  method Enumerate<T(==)>(s: set<T>) returns (r: seq<T>)
    ensures Distinct(r) && |r| == |s|
    ensures forall x :: x in r <==> x in s
  {
    r := [];
    var rest := s;
    while rest != {}
      invariant rest <= s && Distinct(r) && |r| + |rest| == |s|
      invariant forall x :: x in r <==> x in s - rest
    {
      var x :| x in rest;
      assert x !in r;
      rest := rest - {x};
      r := r + [x];
    }
  }

  /** Duplicate-free sequences with the same elements are permutations of each other. */
  lemma {:induction false} DistinctSameElements<T>(s: seq<T>, t: seq<T>)
    requires Distinct(s) && Distinct(t)
    requires forall x :: x in s <==> x in t
    ensures multiset(s) == multiset(t)
  {
    forall x ensures multiset(s)[x] == multiset(t)[x] {
      DistinctCount(s, x);
      DistinctCount(t, x);
    }
  }

  lemma {:induction false} DistinctCount<T>(s: seq<T>, x: T)
    requires Distinct(s)
    ensures multiset(s)[x] == if x in s then 1 else 0
  {
    if s != [] {
      assert s == [s[0]] + s[1..];
      DistinctCount(s[1..], x);
    }
  }

  function Elements<T>(s: seq<T>): set<T> {
    set x | x in s
  }

  lemma ElementsCons<T>(s: seq<T>)
    requires s != []
    ensures Elements(s) == {s[0]} + Elements(s[1..])
  {
    assert s == [s[0]] + s[1..];
  }

  /** The members of `keep`, in the order of `s`. */
  function Keep<T>(s: seq<T>, keep: set<T>): seq<T> {
    if s == [] then []
    else Keep(s[..|s| - 1], keep) + if s[|s| - 1] in keep then [s[|s| - 1]] else []
  }

  lemma {:induction false} KeepMembers<T>(s: seq<T>, keep: set<T>)
    ensures forall x :: x in Keep(s, keep) <==> x in s && x in keep
    ensures forall i :: 0 <= i < |Keep(s, keep)| ==> Keep(s, keep)[i] in s
  {
    if s != [] {
      KeepMembers(s[..|s| - 1], keep);
      assert s == s[..|s| - 1] + [s[|s| - 1]];
    }
  }

  lemma {:induction false} KeepOrder<T>(less: (T, T) -> bool, s: seq<T>, keep: set<T>)
    requires Distinct(s)
    ensures Distinct(Keep(s, keep))
    ensures Sorted(less, s) ==> Sorted(less, Keep(s, keep))
  {
    if s != [] {
      var init, last := s[..|s| - 1], s[|s| - 1];
      KeepOrder(less, init, keep);
      var kept := Keep(init, keep);
      forall i | 0 <= i < |kept| ensures kept[i] in init {
        KeepMembers(init, keep);
      }
      if Sorted(less, s) {
        assert Sorted(less, init);
        forall i | 0 <= i < |kept| ensures !less(last, kept[i]) {
          var k :| 0 <= k < |init| && init[k] == kept[i];
          assert !less(s[|s| - 1], s[k]);
        }
      }
    }
  }

  lemma PermutationDistinct<T>(s: seq<T>, t: seq<T>)
    requires Distinct(s) && multiset(s) == multiset(t)
    ensures Distinct(t) && forall x :: x in t <==> x in s
  {
    forall x ensures x in t <==> x in s { assert x in t <==> x in multiset(t); }
    if i, j :| 0 <= i < j < |t| && t[i] == t[j] {
      assert t == t[..i] + [t[i]] + t[i + 1..j] + [t[j]] + t[j + 1..];
      assert multiset(t)[t[i]] >= 2;
      DistinctCount(s, t[i]);
    }
  }
}
