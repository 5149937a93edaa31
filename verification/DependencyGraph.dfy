/** The dependency relation of a container, and what it means to reach a cycle.
    All three algorithms of packages/bootstrap/container.py are proved against `Cyclic`.
 */
module DependencyGraph {
  import opened Names

  /** Registered name to its declared dependencies, which may be unregistered or repeated. */
  type Graph = map<Name, seq<Name>>

  ghost predicate Walk(g: Graph, p: seq<Name>) {
    forall i :: 0 <= i < |p| - 1 ==> p[i] in g && p[i + 1] in g[p[i]]
  }

  ghost predicate IsRoute(g: Graph, p: seq<Name>, a: Name, b: Name) {
    |p| >= 2 && p[0] == a && p[|p| - 1] == b && Walk(g, p)
  }

  /** `b` is a direct or indirect dependency of `a`. */
  ghost predicate Reaches(g: Graph, a: Name, b: Name) {
    exists p :: IsRoute(g, p, a, b)
  }

  ghost predicate OnCycle(g: Graph, c: Name) {
    Reaches(g, c, c)
  }

  /** `n` lies on a dependency cycle or depends on one. */
  ghost predicate Cyclic(g: Graph, n: Name) {
    exists c :: (c == n || Reaches(g, n, c)) && OnCycle(g, c)
  }

  lemma EdgeReaches(g: Graph, a: Name, b: Name)
    requires a in g && b in g[a]
    ensures Reaches(g, a, b)
  {
    assert IsRoute(g, [a, b], a, b);
  }

  lemma ReachesTransitive(g: Graph, a: Name, b: Name, c: Name)
    requires Reaches(g, a, b) && Reaches(g, b, c)
    ensures Reaches(g, a, c)
  {
    var p :| IsRoute(g, p, a, b);
    var q :| IsRoute(g, q, b, c);
    assert IsRoute(g, p + q[1..], a, c);
  }

  lemma FirstStep(g: Graph, a: Name, b: Name) returns (d: Name)
    requires Reaches(g, a, b)
    ensures a in g && d in g[a]
    ensures d == b || Reaches(g, d, b)
  {
    var p :| IsRoute(g, p, a, b);
    d := p[1];
    if d != b {
      assert IsRoute(g, p[1..], d, b);
    }
  }

  /** A name reaches a cycle exactly when it is registered and one of its dependencies does. */
  lemma CyclicStep(g: Graph, n: Name)
    ensures Cyclic(g, n) <==> n in g && exists d :: d in g[n] && Cyclic(g, d)
  {
    if Cyclic(g, n) {
      var c :| (c == n || Reaches(g, n, c)) && OnCycle(g, c);
      var d := FirstStep(g, n, c);
      if c == n && d != n {
        EdgeReaches(g, n, d);
        ReachesTransitive(g, d, n, d);
      }
    }
    if n in g && exists d :: d in g[n] && Cyclic(g, d) {
      var d :| d in g[n] && Cyclic(g, d);
      var c :| (c == d || Reaches(g, d, c)) && OnCycle(g, c);
      EdgeReaches(g, n, d);
      if c != d { ReachesTransitive(g, n, d, c); }
    }
  }

  /** The registered direct and indirect dependencies of `n`. */
  ghost function Descendants(g: Graph, n: Name): set<Name> {
    set m | m in g.Keys && Reaches(g, n, m)
  }

  lemma NotLarger<T>(a: set<T>, b: set<T>)
    requires a <= b
    ensures |a| <= |b|
  {
    assert b == a + (b - a);
  }

  lemma Smaller<T>(a: set<T>, b: set<T>)
    requires a < b
    ensures |a| < |b|
  {
    var x :| x in b && x !in a;
    NotLarger(a, b - {x});
  }

  /** The measure that justifies recursion over an acyclic part of the graph. */
  lemma DescendantsShrink(g: Graph, n: Name, d: Name)
    requires n in g && d in g[n] && d in g && !Cyclic(g, n)
    ensures Descendants(g, d) < Descendants(g, n)
    ensures |Descendants(g, d)| < |Descendants(g, n)|
  {
    EdgeReaches(g, n, d);
    assert d in Descendants(g, n);
    assert !Reaches(g, d, d);
    forall m | m in Descendants(g, d) ensures m in Descendants(g, n) {
      ReachesTransitive(g, n, d, m);
    }
    Smaller(Descendants(g, d), Descendants(g, n));
  }

  lemma AcyclicIfDependenciesAre(g: Graph, n: Name)
    requires n in g && forall j :: 0 <= j < |g[n]| ==> !Cyclic(g, g[n][j])
    ensures !Cyclic(g, n)
  {
    CyclicStep(g, n);
  }

  lemma DependencyIsEasier(g: Graph, n: Name, d: Name)
    requires n in g && d in g[n] && d in g
    ensures !Cyclic(g, n) ==> !Cyclic(g, d) && |Descendants(g, d)| < |Descendants(g, n)|
  {
    if !Cyclic(g, n) {
      CyclicStep(g, n);
      DescendantsShrink(g, n, d);
    }
  }

  lemma UnregisteredReachesNothing(g: Graph, n: Name)
    requires n !in g
    ensures !Cyclic(g, n) && Descendants(g, n) == {}
  {
    forall m ensures !Reaches(g, n, m) {
      if Reaches(g, n, m) { var d := FirstStep(g, n, m); }
    }
    CyclicStep(g, n);
  }

  /** The registered names among the first `i` of `deps` and below them. */
  ghost function ReachedBy(g: Graph, deps: seq<Name>, i: nat): set<Name>
    requires i <= |deps|
  {
    set m | m in g.Keys && exists j :: 0 <= j < i && (m == deps[j] || Reaches(g, deps[j], m))
  }

  lemma ReachedByStep(g: Graph, deps: seq<Name>, i: nat)
    requires i < |deps|
    ensures ReachedBy(g, deps, i + 1) ==
            ReachedBy(g, deps, i) + (if deps[i] in g then {deps[i]} + Descendants(g, deps[i]) else {})
    ensures deps[i] !in g ==> !Cyclic(g, deps[i])
  {
    if deps[i] !in g { UnregisteredReachesNothing(g, deps[i]); }
  }

  lemma ReachedByAll(g: Graph, n: Name)
    requires n in g
    ensures ReachedBy(g, g[n], |g[n]|) == Descendants(g, n)
  {
    forall m | m in Descendants(g, n) ensures m in ReachedBy(g, g[n], |g[n]|) {
      var d := FirstStep(g, n, m);
      var j :| 0 <= j < |g[n]| && g[n][j] == d;
    }
    forall m | m in ReachedBy(g, g[n], |g[n]|) ensures Reaches(g, n, m) {
      var j :| 0 <= j < |g[n]| && (m == g[n][j] || Reaches(g, g[n][j], m));
      EdgeReaches(g, n, g[n][j]);
      if m != g[n][j] { ReachesTransitive(g, n, g[n][j], m); }
    }
  }

  /** A registered set in which everyone depends on a member reaches a cycle throughout. */
  lemma {:induction false} StuckIsCyclic(g: Graph, stuck: set<Name>, n: Name)
    requires stuck <= g.Keys && n in stuck
    requires forall m :: m in stuck ==> exists d :: d in g[m] && d in stuck
    ensures Cyclic(g, n)
    decreases |Descendants(g, n)|
  {
    if !Cyclic(g, n) {
      var d :| d in g[n] && d in stuck;
      DescendantsShrink(g, n, d);
      StuckIsCyclic(g, stuck, d);
      CyclicStep(g, n);
    }
  }

  /** Every name `n` depends on, directly or not, is registered. */
  ghost predicate Complete(g: Graph, n: Name) {
    n in g && forall m :: Reaches(g, n, m) ==> m in g
  }

  lemma CompleteStep(g: Graph, n: Name)
    requires n in g
    ensures Complete(g, n) <==> forall d :: d in g[n] ==> Complete(g, d)
  {
    if Complete(g, n) {
      forall d | d in g[n] ensures Complete(g, d) {
        EdgeReaches(g, n, d);
        forall m | Reaches(g, d, m) ensures m in g { ReachesTransitive(g, n, d, m); }
      }
    }
    if forall d :: d in g[n] ==> Complete(g, d) {
      forall m | Reaches(g, n, m) ensures m in g {
        var d := FirstStep(g, n, m);
      }
    }
  }
}
