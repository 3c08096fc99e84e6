/** Finite directed graphs given as edge sets: walks, acyclicity, and the well-foundedness
    facts the dependency graph needs. */
module Reachability {
  type Edges = set<(string, string)>

  /** A walk of exactly `n + 1` edges leads from `x` to `y`. */
  ghost predicate ReachesIn(e: Edges, x: string, y: string, n: nat)
    decreases n
  {
    if n == 0 then (x, y) in e
    else exists z :: (x, z) in e && ReachesIn(e, z, y, n - 1)
  }

  /** A non-empty walk leads from `x` to `y`. */
  ghost predicate Reaches(e: Edges, x: string, y: string) {
    exists n: nat :: ReachesIn(e, x, y, n)
  }

  ghost predicate Acyclic(e: Edges) {
    forall x :: !Reaches(e, x, x)
  }

  lemma EdgeReaches(e: Edges, x: string, y: string)
    requires (x, y) in e
    ensures Reaches(e, x, y)
  {
    assert ReachesIn(e, x, y, 0);
  }

  lemma {:induction false} ReachesInTransitive(e: Edges, x: string, y: string, z: string, n: nat)
    requires ReachesIn(e, x, y, n) && Reaches(e, y, z)
    ensures Reaches(e, x, z)
    decreases n
  {
    var via := y;
    if n > 0 {
      via :| (x, via) in e && ReachesIn(e, via, y, n - 1);
      ReachesInTransitive(e, via, y, z, n - 1);
    }
    var m: nat :| ReachesIn(e, via, z, m);
    assert ReachesIn(e, x, z, m + 1);
  }

  lemma ReachesTransitive(e: Edges, x: string, y: string, z: string)
    requires Reaches(e, x, y) && Reaches(e, y, z)
    ensures Reaches(e, x, z)
  {
    var n: nat :| ReachesIn(e, x, y, n);
    ReachesInTransitive(e, x, y, z, n);
  }

  /** A walk starts with an edge. */
  lemma FirstEdge(e: Edges, x: string, y: string) returns (z: string)
    requires Reaches(e, x, y)
    ensures (x, z) in e && (z == y || Reaches(e, z, y))
  {
    var n: nat :| ReachesIn(e, x, y, n);
    if n == 0 {
      z := y;
    } else {
      z :| (x, z) in e && ReachesIn(e, z, y, n - 1);
    }
  }

  lemma {:induction false} ReachesInMonotone(e: Edges, f: Edges, x: string, y: string, n: nat)
    requires e <= f && ReachesIn(e, x, y, n)
    ensures ReachesIn(f, x, y, n)
    decreases n
  {
    if n > 0 {
      var z :| (x, z) in e && ReachesIn(e, z, y, n - 1);
      ReachesInMonotone(e, f, z, y, n - 1);
    }
  }

  lemma ReachesMonotone(e: Edges, f: Edges, x: string, y: string)
    requires e <= f && Reaches(e, x, y)
    ensures Reaches(f, x, y)
  {
    var n: nat :| ReachesIn(e, x, y, n);
    ReachesInMonotone(e, f, x, y, n);
  }

  lemma SubsetAcyclic(e: Edges, f: Edges)
    requires e <= f && Acyclic(f)
    ensures Acyclic(e)
  {
    forall x ensures !Reaches(e, x, x) {
      if Reaches(e, x, x) { ReachesMonotone(e, f, x, x); }
    }
  }

  /** `x` is `y` or reaches it. */
  ghost predicate ReachesOrSame(e: Edges, x: string, y: string) {
    x == y || Reaches(e, x, y)
  }

  /** A walk in the extended graph either avoids the new edge or can be cut at its ends. */
  lemma {:induction false} WalkWithNewEdge(e: Edges, from: string, to: string, x: string, y: string, n: nat)
    requires ReachesIn(e + {(from, to)}, x, y, n)
    ensures Reaches(e, x, y) || (ReachesOrSame(e, x, from) && ReachesOrSame(e, to, y))
    decreases n
  {
    if n == 0 {
      if (x, y) in e { EdgeReaches(e, x, y); }
    } else {
      var z :| (x, z) in e + {(from, to)} && ReachesIn(e + {(from, to)}, z, y, n - 1);
      WalkWithNewEdge(e, from, to, z, y, n - 1);
      if (x, z) in e {
        EdgeReaches(e, x, z);
        if Reaches(e, z, y) { ReachesTransitive(e, x, z, y); }
        if Reaches(e, z, from) { ReachesTransitive(e, x, z, from); }
      }
    }
  }

  /** Adding an edge to an acyclic graph closes a cycle exactly when it is a loop or its
      target already reaches its source. */
  lemma NewEdgeClosesCycle(e: Edges, from: string, to: string)
    requires Acyclic(e)
    ensures Acyclic(e + {(from, to)}) <==> !ReachesOrSame(e, to, from)
  {
    var f := e + {(from, to)};
    if ReachesOrSame(e, to, from) {
      EdgeReaches(f, from, to);
      if to != from {
        ReachesMonotone(e, f, to, from);
        ReachesTransitive(f, from, to, from);
      }
      assert Reaches(f, from, from);
    } else {
      forall x ensures !Reaches(f, x, x) {
        if Reaches(f, x, x) {
          var n: nat :| ReachesIn(f, x, x, n);
          WalkWithNewEdge(e, from, to, x, x, n);
          if Reaches(e, to, x) && Reaches(e, x, from) { ReachesTransitive(e, to, x, from); }
        }
      }
    }
  }

  function Targets(e: Edges): set<string> {
    set p | p in e :: p.1
  }

  lemma {:induction false} ReachedIsTarget(e: Edges, x: string, y: string, n: nat)
    requires ReachesIn(e, x, y, n)
    ensures y in Targets(e)
    decreases n
  {
    if n == 0 {
      assert (x, y).1 == y;
    } else {
      var z :| (x, z) in e && ReachesIn(e, z, y, n - 1);
      ReachedIsTarget(e, z, y, n - 1);
    }
  }

  /** Everything a non-empty walk from `x` can end in. */
  ghost function ReachSet(e: Edges, x: string): set<string> {
    set y | y in Targets(e) && Reaches(e, x, y)
  }

  lemma ReachSetExact(e: Edges, x: string, y: string)
    ensures y in ReachSet(e, x) <==> Reaches(e, x, y)
  {
    if Reaches(e, x, y) {
      var n: nat :| ReachesIn(e, x, y, n);
      ReachedIsTarget(e, x, y, n);
    }
  }

  /** In an acyclic graph following an edge strictly shrinks what can still be reached. */
  lemma ReachSetShrinks(e: Edges, x: string, y: string)
    requires Acyclic(e) && (x, y) in e
    ensures ReachSet(e, y) < ReachSet(e, x)
    ensures |ReachSet(e, y)| < |ReachSet(e, x)|
  {
    EdgeReaches(e, x, y);
    ReachSetExact(e, x, y);
    forall z | z in ReachSet(e, y) ensures z in ReachSet(e, x) {
      ReachesTransitive(e, x, y, z);
    }
    assert y in ReachSet(e, x) - ReachSet(e, y);
    StrictSubsetSmaller(ReachSet(e, y), ReachSet(e, x));
  }

  lemma StrictSubsetSmaller<T>(a: set<T>, b: set<T>)
    requires a < b
    ensures |a| < |b|
  {
    assert b == a + (b - a);
  }

  /** Every member of a set leads, inside the set, to one with no successor in the set. */
  lemma {:induction false} SinkWithin(e: Edges, s: set<string>, x: string) returns (m: string)
    requires Acyclic(e) && x in s
    ensures m in s
    ensures forall y :: (m, y) in e ==> y !in s
    decreases |ReachSet(e, x)|
  {
    if y :| y in s && (x, y) in e {
      ReachSetShrinks(e, x, y);
      m := SinkWithin(e, s, y);
    } else {
      m := x;
    }
  }

  // ---------------------------------------------------------------- search without a visited set

  function Pow(b: nat, n: nat): (r: nat)
    ensures b > 0 ==> r > 0
  {
    if n == 0 then 1 else b * Pow(b, n - 1)
  }

  lemma {:induction false} PowMonotone(b: nat, m: nat, n: nat)
    requires b > 0 && m <= n
    ensures Pow(b, m) <= Pow(b, n)
    decreases n - m
  {
    if m < n {
      PowMonotone(b, m, n - 1);
      assert Pow(b, n) == b * Pow(b, n - 1) >= 1 * Pow(b, n - 1);
    }
  }

  /** Bounds the rows a UNION ALL search still has to visit: a queued node counts for all the
      walks that start at it. */
  ghost function SearchWeight(e: Edges, queue: seq<string>): nat {
    if queue == [] then 0
    else Pow(|Targets(e)| + 1, |ReachSet(e, queue[0])|) + SearchWeight(e, queue[1..])
  }

  lemma {:induction false} SearchWeightAppend(e: Edges, a: seq<string>, b: seq<string>)
    ensures SearchWeight(e, a + b) == SearchWeight(e, a) + SearchWeight(e, b)
    decreases |a|
  {
    if a == [] {
      assert a + b == b;
    } else {
      assert (a + b)[1..] == a[1..] + b;
      SearchWeightAppend(e, a[1..], b);
    }
  }

  lemma {:induction false} SuccessorsWeigh(e: Edges, x: string, next: seq<string>)
    requires Acyclic(e)
    requires forall y :: y in next ==> (x, y) in e
    requires next != []
    ensures |ReachSet(e, x)| > 0
    ensures SearchWeight(e, next) <= |next| * Pow(|Targets(e)| + 1, |ReachSet(e, x)| - 1)
    decreases |next|
  {
    var b := |Targets(e)| + 1;
    ReachSetShrinks(e, x, next[0]);
    var w := Pow(b, |ReachSet(e, x)| - 1);
    PowMonotone(b, |ReachSet(e, next[0])|, |ReachSet(e, x)| - 1);
    if |next| > 1 {
      SuccessorsWeigh(e, x, next[1..]);
    }
    assert (|next| - 1) * w + w == |next| * w;
  }

  lemma MulLess(k: nat, b: nat, w: nat)
    requires k < b && w > 0
    ensures k * w < b * w
  {}

  lemma SuccessorsLighter(e: Edges, x: string, next: seq<string>)
    requires Acyclic(e) && |next| <= |Targets(e)|
    requires forall y :: y in next ==> (x, y) in e
    ensures SearchWeight(e, next) < Pow(|Targets(e)| + 1, |ReachSet(e, x)|)
  {
    if next != [] {
      SuccessorsWeigh(e, x, next);
      MulLess(|next|, |Targets(e)| + 1, Pow(|Targets(e)| + 1, |ReachSet(e, x)| - 1));
    }
  }

  /** Replacing a node by its successors makes the queue strictly lighter, so the search ends;
      this is where acyclicity is needed. */
  lemma SearchProgress(e: Edges, queue: seq<string>, next: seq<string>)
    requires Acyclic(e) && queue != [] && |next| <= |Targets(e)|
    requires forall y :: y in next ==> (queue[0], y) in e
    ensures SearchWeight(e, queue[1..] + next) < SearchWeight(e, queue)
  {
    SearchWeightAppend(e, queue[1..], next);
    SuccessorsLighter(e, queue[0], next);
  }
}
