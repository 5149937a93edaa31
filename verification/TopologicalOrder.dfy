/** Which order Kahn's algorithm with a sorted queue promises, independently of the algorithm. */
module TopologicalOrder {
  import opened Names
  import opened DependencyGraph

  /** `n` is registered, not listed yet, and all its registered dependencies are listed. */
  ghost predicate Ready(g: Graph, done: seq<Name>, n: Name) {
    n in g && n !in done && forall d :: d in g[n] && d in g ==> d in done
  }

  ghost predicate DependencyOrder(g: Graph, order: seq<Name>) {
    forall i :: 0 <= i < |order| ==> Ready(g, order[..i], order[i])
  }

  ghost predicate Exhausted(g: Graph, order: seq<Name>) {
    forall n :: !Ready(g, order, n)
  }

  ghost predicate IsLeastReady(g: Graph, done: seq<Name>, n: Name) {
    Ready(g, done, n) && forall m :: Ready(g, done, m) ==> AtMost(n, m)
  }

  /** Every position holds the alphabetically first name that was ready there. */
  ghost predicate Greedy(g: Graph, order: seq<Name>) {
    forall i :: 0 <= i < |order| ==> IsLeastReady(g, order[..i], order[i])
  }

  lemma GreedyIsDependencyOrder(g: Graph, order: seq<Name>)
    requires Greedy(g, order)
    ensures DependencyOrder(g, order)
  {
    forall i | 0 <= i < |order| ensures Ready(g, order[..i], order[i]) {
      assert IsLeastReady(g, order[..i], order[i]);
    }
  }

  /** No name twice, and every name after all of its registered dependencies. */
  lemma DependencyOrderIsTopological(g: Graph, order: seq<Name>)
    requires DependencyOrder(g, order)
    ensures Distinct(order)
    ensures forall i, d :: 0 <= i < |order| && d in g ==>
              order[i] in g && (d in g[order[i]] ==> d in order[..i])
  {
    forall i, j | 0 <= i < j < |order| ensures order[i] != order[j] {
      assert Ready(g, order[..j], order[j]);
      assert order[..j][i] == order[i];
    }
    forall i, d | 0 <= i < |order| && d in g
      ensures order[i] in g && (d in g[order[i]] ==> d in order[..i])
    {
      assert Ready(g, order[..i], order[i]);
    }
  }

  lemma {:induction false} ListedIsAcyclic(g: Graph, order: seq<Name>, i: nat)
    requires DependencyOrder(g, order) && i < |order|
    ensures !Cyclic(g, order[i])
  {
    var n := order[i];
    assert Ready(g, order[..i], n);
    CyclicStep(g, n);
    if Cyclic(g, n) {
      var d :| d in g[n] && Cyclic(g, d);
      CyclicStep(g, d);
      var j :| 0 <= j < i && order[..i][j] == d;
      ListedIsAcyclic(g, order, j);
    }
  }

  /** Exactly the names that reach a cycle are missing from an exhausted order. */
  lemma OmitsExactlyTheCyclic(g: Graph, order: seq<Name>)
    requires DependencyOrder(g, order) && Exhausted(g, order)
    ensures forall n :: n in order <==> n in g && !Cyclic(g, n)
  {
    DependencyOrderIsTopological(g, order);
    forall n | n in order ensures n in g && !Cyclic(g, n) {
      var i :| 0 <= i < |order| && order[i] == n;
      assert Ready(g, order[..i], order[i]);
      ListedIsAcyclic(g, order, i);
    }
    var stuck := set n | n in g.Keys && n !in order;
    forall n | n in stuck ensures exists d :: d in g[n] && d in stuck {
      assert !Ready(g, order, n);
    }
    forall n | n in g && n !in order ensures Cyclic(g, n) {
      StuckIsCyclic(g, stuck, n);
    }
  }

  lemma {:induction false} DistinctLength(s: seq<Name>)
    requires Distinct(s)
    ensures |set x | x in s| == |s|
  {
    if s != [] {
      var last := |s| - 1;
      DistinctLength(s[..last]);
      assert (set x | x in s) == (set x | x in s[..last]) + {s[last]};
    }
  }

  /** The order is shorter than the registry if and only if some registered name reaches a cycle. */
  lemma ShorterIffSomeCycle(g: Graph, order: seq<Name>)
    requires DependencyOrder(g, order) && Exhausted(g, order)
    ensures |order| <= |g|
    ensures |order| < |g| <==> exists n :: n in g && Cyclic(g, n)
  {
    OmitsExactlyTheCyclic(g, order);
    DependencyOrderIsTopological(g, order);
    var listed := set x | x in order;
    DistinctLength(order);
    NotLarger(listed, g.Keys);
    if exists n :: n in g && Cyclic(g, n) {
      var n :| n in g && Cyclic(g, n);
      assert n in g.Keys && n !in listed;
      Smaller(listed, g.Keys);
    } else {
      assert listed == g.Keys;
    }
  }

  /** Lexicographic comparison of two orders by their names. */
  ghost predicate PrecedesOrEqual(a: seq<Name>, b: seq<Name>) {
    a == b || exists i :: 0 <= i < |a| && i < |b| && a[..i] == b[..i] && Before(a[i], b[i])
  }

  lemma {:induction false} FirstDifference(a: seq<Name>, b: seq<Name>) returns (i: nat)
    ensures i <= |a| && i <= |b| && a[..i] == b[..i]
    ensures i == |a| || i == |b| || a[i] != b[i]
  {
    if a == [] || b == [] || a[0] != b[0] {
      i := 0;
    } else {
      var k := FirstDifference(a[1..], b[1..]);
      i := k + 1;
      assert a[..i] == [a[0]] + a[1..][..k] && b[..i] == [b[0]] + b[1..][..k];
    }
  }

  /** A greedy order comes first among all exhausted dependency orders. */
  lemma GreedyIsLeast(g: Graph, order: seq<Name>, other: seq<Name>)
    requires Greedy(g, order) && Exhausted(g, order)
    requires DependencyOrder(g, other) && Exhausted(g, other)
    ensures PrecedesOrEqual(order, other)
  {
    var i := FirstDifference(order, other);
    assert order[..|order|] == order && other[..|other|] == other;
    if i < |order| {
      assert IsLeastReady(g, order[..i], order[i]);
    }
    if i < |other| {
      assert Ready(g, other[..i], other[i]);
    }
  }

  /** How many entries of a dependency tuple are still open. */
  function OpenCount(deps: seq<Name>, open: set<Name>): nat {
    if deps == [] then 0
    else OpenCount(deps[..|deps| - 1], open) + (if deps[|deps| - 1] in open then 1 else 0)
  }

  lemma {:induction false} OpenCountZero(deps: seq<Name>, open: set<Name>)
    ensures OpenCount(deps, open) == 0 <==> forall d :: d in deps ==> d !in open
  {
    if deps != [] {
      var last := |deps| - 1;
      OpenCountZero(deps[..last], open);
      assert deps == deps[..last] + [deps[last]];
    }
  }

  /** Closing one name lowers the count by its number of occurrences, repeats included. */
  lemma {:induction false} OpenCountClose(deps: seq<Name>, open: set<Name>, closed: Name)
    requires closed in open
    ensures OpenCount(deps, open) == OpenCount(deps, open - {closed}) + multiset(deps)[closed]
  {
    if deps != [] {
      var last := |deps| - 1;
      OpenCountClose(deps[..last], open, closed);
      assert deps == deps[..last] + [deps[last]];
    }
  }
}
