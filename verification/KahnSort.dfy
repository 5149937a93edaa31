/** Kahn's algorithm of packages/bootstrap/container.py, proved to produce the greedy order. */
module KahnSort {
  import opened Names
  import opened DependencyGraph
  import opened TopologicalOrder

  /** `names` is the registry's iteration order. */
  ghost predicate Lists(names: seq<Name>, g: Graph) {
    Distinct(names) && forall n :: n in names <==> n in g
  }

  /** `counts` holds each of the `names` once per occurrence of `d` in its dependency tuple. */
  ghost predicate CountsDependents(g: Graph, names: set<Name>, d: Name, counts: multiset<Name>) {
    forall n :: counts[n] == (if n in names && n in g then multiset(g[n])[d] else 0)
  }

  ghost function ToSet(s: seq<Name>): set<Name> {
    set x | x in s
  }

  /** The state of Kahn's algorithm while the dependents in `pending` still have to lose one count. */
  ghost predicate Releasing(g: Graph, done: seq<Name>, inDegree: map<Name, int>, queue: seq<Name>,
                            pending: multiset<Name>)
  {
    && inDegree.Keys == g.Keys
    && (forall n :: n in g ==> inDegree[n] == OpenCount(g[n], g.Keys - ToSet(done)) + pending[n])
    && (forall n :: n in done ==> n in g && inDegree[n] == 0)
    && Distinct(queue)
    && (forall n :: n in queue <==> n in g && n !in done && inDegree[n] == 0)
  }

  /** The loop invariant of Kahn's algorithm. */
  ghost predicate KahnState(g: Graph, done: seq<Name>, inDegree: map<Name, int>, queue: seq<Name>) {
    Releasing(g, done, inDegree, queue, multiset{}) && Ascending(queue)
  }

  lemma ReadyIffNoneOpen(g: Graph, done: seq<Name>, n: Name)
    requires n in g && n !in done
    ensures Ready(g, done, n) <==> OpenCount(g[n], g.Keys - ToSet(done)) == 0
  {
    OpenCountZero(g[n], g.Keys - ToSet(done));
  }

  lemma HeadIsLeastReady(g: Graph, done: seq<Name>, inDegree: map<Name, int>, queue: seq<Name>)
    requires KahnState(g, done, inDegree, queue) && queue != []
    ensures IsLeastReady(g, done, queue[0])
  {
    assert queue[0] in queue;
    ReadyIffNoneOpen(g, done, queue[0]);
    forall m | Ready(g, done, m) ensures AtMost(queue[0], m) {
      ReadyIffNoneOpen(g, done, m);
      assert m in queue;
      AtMostReflexive(m);
    }
  }

  lemma NothingListed(g: Graph, inDegree: map<Name, int>, queue: seq<Name>)
    requires inDegree.Keys == g.Keys
    requires forall n :: n in g ==> inDegree[n] == OpenCount(g[n], g.Keys)
    requires Ascending(queue) && Distinct(queue)
    requires forall n :: n in queue <==> n in g && inDegree[n] == 0
    ensures KahnState(g, [], inDegree, queue) && Greedy(g, [])
  {
    assert g.Keys - ToSet([]) == g.Keys;
  }

  lemma TakeStep(s: seq<Name>, j: nat)
    requires j < |s|
    ensures s[..j + 1] == s[..j] + [s[j]] && s[..j + 1][..j] == s[..j]
  {
  }

  lemma ToSetStep(s: seq<Name>, i: nat)
    requires i < |s|
    ensures ToSet(s[..i + 1]) == ToSet(s[..i]) + {s[i]}
    ensures Distinct(s) ==> s[i] !in ToSet(s[..i])
  {
    TakeStep(s, i);
  }

  lemma GreedyGrows(g: Graph, done: seq<Name>, inDegree: map<Name, int>, queue: seq<Name>)
    requires KahnState(g, done, inDegree, queue) && queue != []
    requires Greedy(g, done)
    ensures Greedy(g, done + [queue[0]])
    ensures queue[0] in g
    ensures g.Keys - ToSet(done + [queue[0]]) < g.Keys - ToSet(done)
  {
    var order := done + [queue[0]];
    HeadIsLeastReady(g, done, inDegree, queue);
    forall i | 0 <= i < |order| ensures IsLeastReady(g, order[..i], order[i]) {
      assert order[..i] == done[..i];
      assert done[..|done|] == done;
    }
    assert queue[0] in queue;
    ToSetStep(order, |done|);
    assert order[..|done|] == done && order[..|order|] == order;
  }

  lemma StoppedIsExhausted(g: Graph, done: seq<Name>, inDegree: map<Name, int>)
    requires KahnState(g, done, inDegree, [])
    ensures Exhausted(g, done)
  {
    forall m ensures !Ready(g, done, m) {
      if Ready(g, done, m) { ReadyIffNoneOpen(g, done, m); }
    }
  }

  lemma ListHead(g: Graph, done: seq<Name>, inDegree: map<Name, int>, queue: seq<Name>, counts: multiset<Name>)
    requires KahnState(g, done, inDegree, queue) && queue != []
    requires CountsDependents(g, g.Keys, queue[0], counts)
    ensures Releasing(g, done + [queue[0]], inDegree, queue[1..], counts)
  {
    var current := queue[0];
    assert current in queue;
    assert queue == [current] + queue[1..];
    assert g.Keys - ToSet(done + [current]) == g.Keys - ToSet(done) - {current};
    forall n | n in g
      ensures inDegree[n] == OpenCount(g[n], g.Keys - ToSet(done + [current])) + counts[n]
    {
      OpenCountClose(g[n], g.Keys - ToSet(done), current);
    }
  }

  lemma ReleaseOne(g: Graph, done: seq<Name>, inDegree: map<Name, int>, queue: seq<Name>, pending: multiset<Name>,
                   n: Name)
    requires Releasing(g, done, inDegree, queue, pending)
    requires n in g && n in pending
    ensures var less := inDegree[n := inDegree[n] - 1];
            Releasing(g, done, less, if less[n] == 0 then queue + [n] else queue, pending - multiset{n})
  {
  }

  lemma ReleaseNext(g: Graph, done: seq<Name>, inDegree: map<Name, int>, queue: seq<Name>, neighbors: seq<Name>, k: nat)
    requires k < |neighbors|
    requires Releasing(g, done, inDegree, queue, multiset(neighbors[k..]))
    requires forall n :: n in neighbors ==> n in g
    ensures var n := neighbors[k];
            var less := inDegree[n := inDegree[n] - 1];
            n in g &&
            Releasing(g, done, less, if less[n] == 0 then queue + [n] else queue, multiset(neighbors[k + 1..]))
  {
    assert neighbors[k..] == [neighbors[k]] + neighbors[k + 1..];
    ReleaseOne(g, done, inDegree, queue, multiset(neighbors[k..]), neighbors[k]);
  }

  lemma DependentsAreRegistered(g: Graph, current: Name, dependents: seq<Name>)
    requires CountsDependents(g, g.Keys, current, multiset(dependents))
    ensures forall n :: n in dependents ==> n in g
  {
    forall n | n in dependents ensures n in g { assert n in multiset(dependents); }
  }

  lemma ListsAll(names: seq<Name>, g: Graph)
    requires Lists(names, g)
    ensures ToSet(names[..|names|]) == g.Keys
  {
    assert names[..|names|] == names;
  }

  /** The adjacency lists after the first `j` entries of the dependency tuple of `name`. */
  ghost predicate AddedEdges(g: Graph, name: Name, j: nat, before: map<Name, seq<Name>>, after: map<Name, seq<Name>>)
    requires name in g && j <= |g[name]| && before.Keys == g.Keys
  {
    && after.Keys == g.Keys
    && forall d :: d in g ==> multiset(after[d]) == multiset(before[d])[name := multiset(g[name][..j])[d]]
  }

  /** The adjacency lists once the dependency tuples of the `done` names are entered. */
  ghost predicate CountedDependents(g: Graph, done: set<Name>, dependents: map<Name, seq<Name>>) {
    && dependents.Keys == g.Keys
    && forall d :: d in g ==> CountsDependents(g, done, d, multiset(dependents[d]))
  }

  lemma AddedNone(g: Graph, name: Name, earlier: set<Name>, before: map<Name, seq<Name>>)
    requires name in g && name !in earlier && CountedDependents(g, earlier, before)
    ensures AddedEdges(g, name, 0, before, before)
  {
  }

  lemma AddedOne(g: Graph, name: Name, j: nat, before: map<Name, seq<Name>>, after: map<Name, seq<Name>>)
    requires name in g && j < |g[name]| && before.Keys == g.Keys
    requires AddedEdges(g, name, j, before, after)
    ensures var d := g[name][j];
            AddedEdges(g, name, j + 1, before, if d in g then after[d := after[d] + [name]] else after)
  {
    assert g[name][..j + 1] == g[name][..j] + [g[name][j]];
  }

  /** The in-degrees once the dependency tuples of the `done` names are counted. */
  ghost predicate CountedDegrees(g: Graph, done: set<Name>, inDegree: map<Name, int>) {
    && inDegree.Keys == g.Keys
    && forall n :: n in g ==> inDegree[n] == if n in done then OpenCount(g[n], g.Keys) else 0
  }

  lemma DegreesMore(g: Graph, name: Name, earlier: set<Name>, inDegree: map<Name, int>)
    requires name in g && CountedDegrees(g, earlier, inDegree)
    ensures CountedDegrees(g, earlier + {name}, inDegree[name := OpenCount(g[name], g.Keys)])
  {
  }

  lemma DependentsMore(g: Graph, name: Name, earlier: set<Name>, before: map<Name, seq<Name>>,
                       after: map<Name, seq<Name>>)
    requires name in g && name !in earlier
    requires CountedDependents(g, earlier, before)
    requires AddedEdges(g, name, |g[name]|, before, after)
    ensures CountedDependents(g, earlier + {name}, after)
  {
    assert g[name][..|g[name]|] == g[name];
  }

  lemma CountedMore(g: Graph, name: Name, earlier: set<Name>, inDegree: map<Name, int>, degree: nat,
                    before: map<Name, seq<Name>>, after: map<Name, seq<Name>>)
    requires name in g && name !in earlier
    requires CountedDegrees(g, earlier, inDegree) && CountedDependents(g, earlier, before)
    requires degree == OpenCount(g[name][..|g[name]|], g.Keys)
    requires AddedEdges(g, name, |g[name]|, before, after)
    ensures CountedDegrees(g, earlier + {name}, inDegree[name := degree])
    ensures CountedDependents(g, earlier + {name}, after)
  {
    assert g[name][..|g[name]|] == g[name];
    DegreesMore(g, name, earlier, inDegree);
    DependentsMore(g, name, earlier, before, after);
  }

  lemma OpenCountStep(deps: seq<Name>, j: nat, open: set<Name>)
    requires j < |deps|
    ensures OpenCount(deps[..j + 1], open) == OpenCount(deps[..j], open) + (if deps[j] in open then 1 else 0)
  {
    TakeStep(deps, j);
  }

  lemma CountedNone(g: Graph, names: seq<Name>)
    ensures CountedDegrees(g, ToSet(names[..0]), map n | n in g.Keys :: 0)
    ensures CountedDependents(g, ToSet(names[..0]), map n | n in g.Keys :: [])
  {
  }

  method AddEdges(g: Graph, name: Name, ghost earlier: set<Name>, inDegree: map<Name, int>,
                  dependents: map<Name, seq<Name>>)
    returns (inDegree': map<Name, int>, dependents': map<Name, seq<Name>>)
    requires name in g && name !in earlier
    requires CountedDegrees(g, earlier, inDegree) && CountedDependents(g, earlier, dependents)
    ensures CountedDegrees(g, earlier + {name}, inDegree') && CountedDependents(g, earlier + {name}, dependents')
  {
    var dependencies := g[name];
    var degree := inDegree[name];
    dependents' := dependents;
    AddedNone(g, name, earlier, dependents);
    for j := 0 to |dependencies|
      invariant degree == OpenCount(dependencies[..j], g.Keys)
      invariant AddedEdges(g, name, j, dependents, dependents')
    {
      OpenCountStep(dependencies, j, g.Keys);
      AddedOne(g, name, j, dependents, dependents');
      var d := dependencies[j];
      if d in g {
        dependents' := dependents'[d := dependents'[d] + [name]];
        degree := degree + 1;
      }
    }
    CountedMore(g, name, earlier, inDegree, degree, dependents, dependents');
    inDegree' := inDegree[name := degree];
  }

  /** The in-degree map and adjacency lists of Kahn's algorithm: `inDegree[n]` counts the
      registered entries of the dependency tuple of `n`, repeats included, and `dependents[d]`
      lists `n` once per entry. */
  method BuildEdges(g: Graph, names: seq<Name>) returns (inDegree: map<Name, int>, dependents: map<Name, seq<Name>>)
    requires Lists(names, g)
    ensures CountedDegrees(g, g.Keys, inDegree) && CountedDependents(g, g.Keys, dependents)
  {
    inDegree := map n | n in g.Keys :: 0;
    dependents := map n | n in g.Keys :: [];
    CountedNone(g, names);
    for i := 0 to |names|
      invariant CountedDegrees(g, ToSet(names[..i]), inDegree)
      invariant CountedDependents(g, ToSet(names[..i]), dependents)
    {
      ToSetStep(names, i);
      assert names[i] in names;
      inDegree, dependents := AddEdges(g, names[i], ToSet(names[..i]), inDegree, dependents);
    }
    ListsAll(names, g);
  }

  method InitialQueue(g: Graph, names: seq<Name>, inDegree: map<Name, int>) returns (queue: seq<Name>)
    requires Lists(names, g) && inDegree.Keys == g.Keys
    ensures Ascending(queue) && Distinct(queue)
    ensures forall n :: n in queue <==> n in g && inDegree[n] == 0
  {
    queue := [];
    for i := 0 to |names|
      invariant Distinct(queue)
      invariant forall n :: n in queue <==> n in names[..i] && inDegree[n] == 0
    {
      if inDegree[names[i]] == 0 { queue := queue + [names[i]]; }
    }
    assert names[..|names|] == names;
    queue := Sorted(queue);
  }

  /** Lowers the count of every neighbor in turn, and appends those that reach zero. */
  method LowerAll(ghost g: Graph, ghost done: seq<Name>, inDegree: map<Name, int>, queue: seq<Name>,
                  neighbors: seq<Name>)
    returns (inDegree': map<Name, int>, queue': seq<Name>)
    requires Releasing(g, done, inDegree, queue, multiset(neighbors))
    requires forall n :: n in neighbors ==> n in g
    ensures Releasing(g, done, inDegree', queue', multiset{})
  {
    inDegree', queue' := inDegree, queue;
    assert neighbors[0..] == neighbors;
    for k := 0 to |neighbors|
      invariant Releasing(g, done, inDegree', queue', multiset(neighbors[k..]))
    {
      ReleaseNext(g, done, inDegree', queue', neighbors, k);
      var neighbor := neighbors[k];
      inDegree' := inDegree'[neighbor := inDegree'[neighbor] - 1];
      queue' := if inDegree'[neighbor] == 0 then queue' + [neighbor] else queue';
    }
    assert neighbors[|neighbors|..] == [];
  }

  /** One step of the loop: `current` has just been listed, and its dependents lose it. */
  method Release(g: Graph, current: Name, ghost before: seq<Name>, inDegree: map<Name, int>, queue: seq<Name>,
                 dependents: seq<Name>)
    returns (inDegree': map<Name, int>, queue': seq<Name>)
    requires queue != [] && current == queue[0]
    requires KahnState(g, before, inDegree, queue)
    requires CountsDependents(g, g.Keys, current, multiset(dependents))
    ensures KahnState(g, before + [current], inDegree', queue')
  {
    DependentsAreRegistered(g, current, dependents);
    ListHead(g, before, inDegree, queue, multiset(dependents));
    var neighbors := Sorted(dependents);
    inDegree', queue' := LowerAll(g, before + [current], inDegree, queue[1..], neighbors);
    queue' := Sorted(queue');
  }

  /** Kahn's algorithm over a queue that is sorted again after every step. */
  method Sort(g: Graph, names: seq<Name>) returns (result: seq<Name>)
    requires Lists(names, g)
    ensures Greedy(g, result) && Exhausted(g, result)
  {
    ghost var keys := g.Keys;
    var inDegree, dependents := BuildEdges(g, names);
    var queue := InitialQueue(g, names, inDegree);
    result := [];
    NothingListed(g, inDegree, queue);
    while queue != []
      invariant KahnState(g, result, inDegree, queue)
      invariant Greedy(g, result)
      decreases keys - ToSet(result)
    {
      var current := queue[0];
      GreedyGrows(g, result, inDegree, queue);
      inDegree, queue := Release(g, current, result, inDegree, queue, dependents[current]);
      result := result + [current];
    }
    StoppedIsExhausted(g, result, inDegree);
  }
}
