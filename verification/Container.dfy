/** The dependency container of packages/bootstrap/container.py. */
module Container {
  import opened Names
  import opened DependencyGraph
  import opened Evaluation
  import opened TopologicalOrder
  import opened KahnSort
  import opened Options

  datatype RegistrationResult = Registered | EmptyName | NotCallable | AlreadyRegistered | SelfDependency

  /** What `all` returns: a dictionary with its key order, or the first resolution error. */
  datatype AllResult<+V> = Everything(order: seq<Name>, instances: map<Name, V>) | Failed(error: ResolutionError)

  datatype Problem =
    | Missing(name: Name, dependency: Name) | CycleEdge(dependency: Name, name: Name) | SelfReference(name: Name)

  /** `validate` recurses without a visited set, so it can exceed the interpreter's recursion limit. */
  datatype Validation = RecursionExceeded | Problems(problems: seq<Problem>)

  datatype ReachedNames = TooDeep | Names(names: set<Name>)

  /** The two sets that one three-colour search updates in place. */
  class Marks {
    var visiting: set<Name>
    var visited: set<Name>

    constructor ()
      ensures visiting == {} && visited == {}
    {
      visiting, visited := {}, {};
    }
  }

  /** The cache together with the log of successful factory calls. */
  datatype Trace<V> = Trace(cache: map<Name, V>, log: seq<Name>)
  {
    function Add(name: Name, value: V): Trace<V> {
      Trace(cache[name := value], log + [name])
    }
  }

  /** Nothing cached is lost or rebuilt, and each newly cached name was built by one factory call. */
  ghost predicate BuiltOnce<V>(before: Trace<V>, after: Trace<V>) {
    && before.log <= after.log
    && Distinct(after.log[|before.log|..])
    && (forall n :: n in after.log[|before.log|..] <==> n in after.cache && n !in before.cache)
    && (forall n :: n in before.cache ==> n in after.cache && after.cache[n] == before.cache[n])
  }

  lemma BuiltNothing<V>(t: Trace<V>)
    ensures BuiltOnce(t, t) && t.log[|t.log|..] == []
  {
  }

  lemma NothingLost<V>(before: Trace<V>, after: Trace<V>)
    requires BuiltOnce(before, after)
    ensures before.log <= after.log
    ensures forall n :: n in before.cache ==> n in after.cache && after.cache[n] == before.cache[n]
  {
  }

  lemma BuiltOnceCompose<V>(t0: Trace<V>, t1: Trace<V>, t2: Trace<V>)
    requires BuiltOnce(t0, t1) && BuiltOnce(t1, t2)
    ensures BuiltOnce(t0, t2)
    ensures t2.log[|t0.log|..] == t1.log[|t0.log|..] + t2.log[|t1.log|..]
  {
    var a, b := t1.log[|t0.log|..], t2.log[|t1.log|..];
    assert t2.log[|t0.log|..] == a + b;
    forall i, j | 0 <= i < j < |a + b| ensures (a + b)[i] != (a + b)[j] {
      if i < |a| <= j {
        assert a[i] in a && b[j - |a|] in b;
      } else if |a| <= i {
        assert b[i - |a|] != b[j - |a|];
      }
    }
  }

  lemma BuiltOnceOneMore<V>(t: Trace<V>, n: Name, v: V)
    requires n !in t.cache
    ensures BuiltOnce(t, t.Add(n, v)) && t.Add(n, v).log[|t.log|..] == [n]
  {
  }

  /** The names of `order` that are not cached yet, in order. */
  function Uncached<V>(order: seq<Name>, cache: map<Name, V>): seq<Name> {
    if order == [] then []
    else Uncached(order[..|order| - 1], cache) +
         (if order[|order| - 1] in cache then [] else [order[|order| - 1]])
  }

  ghost predicate CoherentCache<V>(regs: Registry<V>, cache: map<Name, V>) {
    forall n :: n in cache ==> Evaluate(regs, n) == Ok(cache[n])
  }

  lemma CoherentUpdate<V>(regs: Registry<V>, cache: map<Name, V>, n: Name, v: V)
    requires CoherentCache(regs, cache) && Evaluate(regs, n) == Ok(v)
    ensures CoherentCache(regs, cache[n := v])
  {
  }

  lemma CoherentRegister<V>(regs: Registry<V>, cache: map<Name, V>, n: Name, r: Registration<V>)
    requires CoherentCache(regs, cache) && n !in regs
    ensures CoherentCache(regs[n := r], cache)
  {
    forall m | m in cache ensures Evaluate(regs[n := r], m) == Ok(cache[m]) {
      EvaluationIsStable(regs, regs[n := r], m);
    }
  }

  function SelfProblems<V>(regs: Registry<V>, n: Name): seq<Problem>
    requires n in regs
  {
    if n in regs[n].dependencies then [SelfReference(n)] else []
  }

  ghost predicate AllIn(s: seq<Name>, names: set<Name>) {
    forall n :: n in s ==> n in names
  }

  /** The keyword arguments a cache holds for these dependencies. */
  function CachedArguments<V>(dependencies: seq<Name>, cache: map<Name, V>): map<Name, V>
    requires AllIn(dependencies, cache.Keys)
  {
    map d | d in dependencies :: cache[d]
  }

  /** The cached instance of `n` is what its factory makes of the cached instances of its dependencies. */
  ghost predicate BuiltFrom<V>(regs: Registry<V>, cache: map<Name, V>, n: Name) {
    && n in regs && n in cache && AllIn(regs[n].dependencies, cache.Keys)
    && regs[n].factory(CachedArguments(regs[n].dependencies, cache)) == Instance(cache[n])
  }

  /** Every factory that was called in between got the cached instances of its dependencies. */
  ghost predicate NewFromCache<V>(regs: Registry<V>, before: Trace<V>, after: Trace<V>)
    requires before.log <= after.log
  {
    forall n :: n in after.log[|before.log|..] ==> BuiltFrom(regs, after.cache, n)
  }

  lemma StaysBuilt<V>(regs: Registry<V>, small: map<Name, V>, large: map<Name, V>, n: Name)
    requires BuiltFrom(regs, small, n) && forall m :: m in small ==> m in large && large[m] == small[m]
    ensures BuiltFrom(regs, large, n)
  {
    var deps := regs[n].dependencies;
    assert CachedArguments(deps, small) == CachedArguments(deps, large);
  }

  lemma NewFromCacheCompose<V>(regs: Registry<V>, t0: Trace<V>, t1: Trace<V>, t2: Trace<V>)
    requires BuiltOnce(t0, t1) && BuiltOnce(t1, t2) && NewFromCache(regs, t0, t1) && NewFromCache(regs, t1, t2)
    ensures BuiltOnce(t0, t2) && NewFromCache(regs, t0, t2)
  {
    hide BuiltFrom;
    BuiltOnceCompose(t0, t1, t2);
    forall n | n in t2.log[|t0.log|..] ensures BuiltFrom(regs, t2.cache, n) {
      if n in t1.log[|t0.log|..] { StaysBuilt(regs, t1.cache, t2.cache, n); }
    }
  }

  lemma NewFromCacheOneMore<V>(regs: Registry<V>, n: Name, t: Trace<V>, args: map<Name, V>, v: V)
    requires n in regs && n !in t.cache && n !in regs[n].dependencies && AllIn(regs[n].dependencies, t.cache.Keys)
    requires args == CachedArguments(regs[n].dependencies, t.cache) && regs[n].factory(args) == Instance(v)
    ensures BuiltOnce(t, t.Add(n, v)) && NewFromCache(regs, t, t.Add(n, v))
  {
    BuiltOnceOneMore(t, n, v);
    assert CachedArguments(regs[n].dependencies, t.cache[n := v]) == args;
  }

  /** What one call of `resolve(name)` does, in a cache that was coherent before or was not. */
  ghost predicate Resolution<V>(regs: Registry<V>, name: Name, coherent: bool, before: Trace<V>, r: Outcome<V>,
                                after: Trace<V>)
  {
    match after
    case Trace(cache, log) =>
      // In a coherent cache the answer is the uncached one, error included, and coherence is kept.
      && (coherent ==> CoherentCache(regs, cache) && r == Evaluate(regs, name))
      // Nothing is built twice, whether or not the resolution succeeds, and nothing unrelated is built.
      && BuiltOnce(before, after)
      && (forall n :: n in log[|before.log|..] ==> n == name || Reaches(GraphOf(regs), name, n))
      // Every factory called gets the cached instances of its dependencies.
      && NewFromCache(regs, before, after)
      // A cached name is returned as it is, and a resolved name is cached.
      && (name in before.cache ==> r == Ok(before.cache[name]) && after == before)
      && (r.Ok? ==> name in cache && cache[name] == r.value)
      // A new name resolves only when all its dependencies are registered,
      && (name !in before.cache && r.Ok? ==> name in regs && AllIn(regs[name].dependencies, regs.Keys))
      // and when they are all cached already, at most one factory is called.
      && (name !in before.cache && name in regs && AllIn(regs[name].dependencies, before.cache.Keys) ==>
            after == if r.Ok? then before.Add(name, r.value) else before)
  }

  /** `result` maps exactly the `names`, to their cached instances. */
  ghost predicate HoldsExactly<V>(result: map<Name, V>, names: seq<Name>, cache: map<Name, V>) {
    && (forall n :: n in result <==> n in names)
    && (forall n :: n in result ==> n in cache && cache[n] == result[n])
  }

  /** The state of the argument loop of `resolve(name)` after `i` dependencies. */
  ghost predicate Collected<V>(regs: Registry<V>, name: Name, i: nat, coherent: bool, before: Trace<V>,
                               args: map<Name, V>, after: Trace<V>)
    requires name in regs && !Cyclic(GraphOf(regs), name) && i <= |regs[name].dependencies|
  {
    match after
    case Trace(cache, log) =>
      && name !in cache
      && (coherent ==> CoherentCache(regs, cache) && EvaluateDependencies(regs, name, i) == Ok(args))
      && BuiltOnce(before, after) && NewFromCache(regs, before, after)
      && HoldsExactly(args, regs[name].dependencies[..i], cache)
      && (forall n :: n in log[|before.log|..] ==> Reaches(GraphOf(regs), name, n))
      && (forall j :: 0 <= j < i ==> regs[name].dependencies[j] in regs)
      && (AllIn(regs[name].dependencies, before.cache.Keys) ==> after == before)
  }

  lemma CollectNone<V>(regs: Registry<V>, name: Name, coherent: bool, t: Trace<V>)
    requires name in regs && !Cyclic(GraphOf(regs), name) && name !in t.cache
    requires coherent ==> CoherentCache(regs, t.cache)
    ensures Collected(regs, name, 0, coherent, t, map[], t)
  {
    BuiltNothing(t);
  }

  lemma {:induction false} PrefixFailureIsFailure<V>(regs: Registry<V>, n: Name, i: nat, k: nat)
    requires n in regs && !Cyclic(GraphOf(regs), n) && i <= k <= |regs[n].dependencies|
    ensures EvaluateDependencies(regs, n, i).Err? ==>
              EvaluateDependencies(regs, n, k) == EvaluateDependencies(regs, n, i)
    decreases k
  {
    if i < k { PrefixFailureIsFailure(regs, n, i, k - 1); }
  }

  lemma NextArgument<V>(regs: Registry<V>, n: Name, i: nat, args: map<Name, V>)
    requires n in regs && !Cyclic(GraphOf(regs), n) && i < |regs[n].dependencies|
    requires EvaluateDependencies(regs, n, i) == Ok(args)
    ensures var deps := regs[n].dependencies; var d := deps[i];
            if d !in regs then EvaluateDependencies(regs, n, |deps|) == Err(MissingDependency(n, d))
            else match Evaluate(regs, d)
                 case Err(e) => EvaluateDependencies(regs, n, |deps|) == Err(e)
                 case Ok(v) => EvaluateDependencies(regs, n, i + 1) == Ok(args[d := v])
  {
    PrefixFailureIsFailure(regs, n, i + 1, |regs[n].dependencies|);
  }

  lemma FailureIsEvaluation<V>(regs: Registry<V>, name: Name, e: ResolutionError)
    requires name in regs && !Cyclic(GraphOf(regs), name)
    requires EvaluateDependencies(regs, name, |regs[name].dependencies|) == Err(e)
    ensures Evaluate(regs, name) == Err(e)
  {
  }

  lemma CollectMissing<V>(regs: Registry<V>, name: Name, i: nat, coherent: bool, t0: Trace<V>, args: map<Name, V>,
                          t: Trace<V>)
    requires name in regs && !Cyclic(GraphOf(regs), name) && i < |regs[name].dependencies| && t0.cache.Keys <= regs.Keys
    requires Collected(regs, name, i, coherent, t0, args, t)
    requires regs[name].dependencies[i] !in regs
    ensures Resolution(regs, name, coherent, t0, Err(MissingDependency(name, regs[name].dependencies[i])), t)
  {
    if coherent { NextArgument(regs, name, i, args); }
  }

  /** What the log gains while a dependency `d` of `name` is resolved. */
  lemma CollectLog<V>(regs: Registry<V>, name: Name, d: Name, t0: Trace<V>, t1: Trace<V>, t2: Trace<V>)
    requires name in regs && d in regs[name].dependencies && !Cyclic(GraphOf(regs), name) && name !in t1.cache
    requires BuiltOnce(t0, t1) && BuiltOnce(t1, t2)
    requires forall n :: n in t1.log[|t0.log|..] ==> Reaches(GraphOf(regs), name, n)
    requires forall n :: n in t2.log[|t1.log|..] ==> n == d || Reaches(GraphOf(regs), d, n)
    ensures BuiltOnce(t0, t2) && name !in t2.cache
    ensures forall n :: n in t2.log[|t0.log|..] ==> Reaches(GraphOf(regs), name, n)
  {
    var g := GraphOf(regs);
    EdgeReaches(g, name, d);
    BuiltOnceCompose(t0, t1, t2);
    forall n | n in t2.log[|t1.log|..] ensures Reaches(g, name, n) && n != name {
      if n != d { ReachesTransitive(g, name, d, n); }
    }
  }

  lemma ExtendResult<V>(order: seq<Name>, i: nat, result: map<Name, V>, v: V, c1: map<Name, V>, c2: map<Name, V>)
    requires i < |order|
    requires HoldsExactly(result, order[..i], c1)
    requires forall n :: n in c1 ==> n in c2 && c2[n] == c1[n]
    requires order[i] in c2 && c2[order[i]] == v
    ensures HoldsExactly(result[order[i] := v], order[..i + 1], c2)
  {
    TakeStep(order, i);
  }

  lemma AllCollected<V>(regs: Registry<V>, name: Name, args: map<Name, V>, cache: map<Name, V>)
    requires name in regs && HoldsExactly(args, regs[name].dependencies[..|regs[name].dependencies|], cache)
    ensures AllIn(regs[name].dependencies, cache.Keys)
    ensures args == CachedArguments(regs[name].dependencies, cache)
  {
    var deps := regs[name].dependencies;
    assert deps[..|deps|] == deps;
  }

  lemma CollectNext<V>(regs: Registry<V>, name: Name, i: nat, coherent: bool, t0: Trace<V>, args: map<Name, V>,
                       t1: Trace<V>, coherent1: bool, r: Outcome<V>, t2: Trace<V>)
    requires name in regs && !Cyclic(GraphOf(regs), name) && i < |regs[name].dependencies|
    requires Collected(regs, name, i, coherent, t0, args, t1)
    requires coherent1 <==> CoherentCache(regs, t1.cache)
    requires regs[name].dependencies[i] in regs
    requires Resolution(regs, regs[name].dependencies[i], coherent1, t1, r, t2)
    ensures r.Ok? ==> Collected(regs, name, i + 1, coherent, t0, args[regs[name].dependencies[i] := r.value], t2)
    ensures r.Err? ==> Resolution(regs, name, coherent, t0, Err(r.error), t2)
  {
    hide BuiltFrom, NewFromCache, HoldsExactly, CoherentCache, Cyclic, Evaluate, EvaluateDependencies;
    hide Reaches, BuiltOnce;
    var d := regs[name].dependencies[i];
    if coherent {
      NextArgument(regs, name, i, args);
      if r.Err? { FailureIsEvaluation(regs, name, r.error); }
    }
    NewFromCacheCompose(regs, t0, t1, t2);
    CollectLog(regs, name, d, t0, t1, t2);
    NothingLost(t0, t1);
    NothingLost(t1, t2);
    if r.Ok? { ExtendResult(regs[name].dependencies, i, args, r.value, t1.cache, t2.cache); }
  }

  lemma NotItsOwnDependency<V>(regs: Registry<V>, name: Name)
    requires name in regs && !Cyclic(GraphOf(regs), name)
    ensures name !in regs[name].dependencies
  {
    if name in regs[name].dependencies { EdgeReaches(GraphOf(regs), name, name); }
  }

  lemma CallIsEvaluation<V>(regs: Registry<V>, name: Name, args: map<Name, V>)
    requires name in regs && !Cyclic(GraphOf(regs), name)
    requires EvaluateDependencies(regs, name, |regs[name].dependencies|) == Ok(args)
    ensures Evaluate(regs, name) == Call(regs, name, args)
  {
  }

  lemma CallBuilds<V>(regs: Registry<V>, name: Name, t0: Trace<V>, args: map<Name, V>, t: Trace<V>)
    requires name in regs && !Cyclic(GraphOf(regs), name) && name !in t.cache
    requires HoldsExactly(args, regs[name].dependencies[..|regs[name].dependencies|], t.cache)
    requires BuiltOnce(t0, t) && NewFromCache(regs, t0, t)
    ensures var r := Call(regs, name, args);
            r.Ok? ==>
              var after := t.Add(name, r.value);
              && BuiltOnce(t0, after) && NewFromCache(regs, t0, after)
              && after.log[|t0.log|..] == t.log[|t0.log|..] + [name]
  {
    var r := Call(regs, name, args);
    if r.Ok? {
      AllCollected(regs, name, args, t.cache);
      NotItsOwnDependency(regs, name);
      NewFromCacheOneMore(regs, name, t, args, r.value);
      hide BuiltFrom, NewFromCache, CachedArguments, AllIn, HoldsExactly;
      NewFromCacheCompose(regs, t0, t, t.Add(name, r.value));
      BuiltOnceOneMore(t, name, r.value);
      BuiltOnceCompose(t0, t, t.Add(name, r.value));
    }
  }

  lemma CallCompletes<V>(regs: Registry<V>, name: Name, coherent: bool, t0: Trace<V>, args: map<Name, V>, t: Trace<V>)
    requires name in regs && !Cyclic(GraphOf(regs), name) && name !in t0.cache
    requires Collected(regs, name, |regs[name].dependencies|, coherent, t0, args, t)
    ensures var r := Call(regs, name, args);
            Resolution(regs, name, coherent, t0, r, if r.Ok? then t.Add(name, r.value) else t)
  {
    hide BuiltFrom, NewFromCache, BuiltOnce, HoldsExactly, CoherentCache, Call, Evaluate, EvaluateDependencies, Cyclic;
    CallBuilds(regs, name, t0, args, t);
    if coherent { CallIsEvaluation(regs, name, args); }
    var r := Call(regs, name, args);
    if r.Ok? && coherent { CoherentUpdate(regs, t.cache, name, r.value); }
  }

  lemma SplitAt<T>(s: seq<T>, i: nat)
    requires i < |s|
    ensures s == s[..i] + [s[i]] + s[i + 1..]
  {
  }

  lemma WithoutIndex(s: seq<Name>, i: nat)
    requires Distinct(s) && i < |s|
    ensures var r := s[..i] + s[i + 1..];
            Distinct(r) && multiset(r) == multiset(s) - multiset{s[i]} && forall n :: n in r <==> n in s && n != s[i]
  {
    var r := s[..i] + s[i + 1..];
    SplitAt(s, i);
    forall n ensures n in r <==> n in s && n != s[i] {
      if n in r {
        assert n in s[..i] || n in s[i + 1..];
      }
    }
  }

  /** Name `i` of the sorted order has no value, and every name before it is cached. */
  ghost predicate FailedAt<V>(regs: Registry<V>, order: seq<Name>, i: nat, coherent: bool, error: ResolutionError,
                              cache: map<Name, V>)
  {
    && Greedy(GraphOf(regs), order) && Exhausted(GraphOf(regs), order) && i < |order|
    && (forall j :: 0 <= j < i ==> order[j] in cache)
    && (coherent ==> Evaluate(regs, order[i]) == Err(error))
  }

  /** What `all` does: on success it returns every name that reaches no cycle, in the sorted order,
      after one factory call for each name that was not cached; on failure it stops at a name that
      cannot be resolved, keeping what was built. */
  ghost predicate ResolvedAll<V>(regs: Registry<V>, coherent: bool, before: Trace<V>, r: AllResult<V>, after: Trace<V>)
  {
    match r
    case Everything(order, instances) =>
      && Greedy(GraphOf(regs), order) && Exhausted(GraphOf(regs), order)
      && (forall n :: n in instances <==> n in regs && !Cyclic(GraphOf(regs), n))
      && (forall n :: n in instances ==> n in after.cache && after.cache[n] == instances[n])
      && BuiltOnce(before, after) && after.log == before.log + Uncached(order, before.cache)
      && NewFromCache(regs, before, after)
      && (coherent ==> CoherentCache(regs, after.cache))
    case Failed(error) =>
      && BuiltOnce(before, after) && NewFromCache(regs, before, after)
      && (coherent ==> CoherentCache(regs, after.cache))
      && exists order, i: nat :: FailedAt(regs, order, i, coherent, error, after.cache)
  }

  /** In a right cache, `all` succeeds exactly when every name that reaches no cycle has a value. */
  lemma AllSucceedsIff<V>(regs: Registry<V>, before: Trace<V>, r: AllResult<V>, after: Trace<V>)
    requires ResolvedAll(regs, true, before, r, after)
    ensures r.Everything? <==> forall n :: n in regs && !Cyclic(GraphOf(regs), n) ==> Evaluate(regs, n).Ok?
  {
    if r.Everything? {
      forall n | n in regs && !Cyclic(GraphOf(regs), n) ensures Evaluate(regs, n).Ok? { assert n in r.instances; }
    } else {
      var order, i: nat :| FailedAt(regs, order, i, true, r.error, after.cache);
      GreedyIsDependencyOrder(GraphOf(regs), order);
      ListedIsAcyclic(GraphOf(regs), order, i);
      assert Ready(GraphOf(regs), order[..i], order[i]);
    }
  }

  /** The state of the loop of `all` after the first `i` names of `order`: each of them is resolved
      and cached, and the factories of exactly those not cached before were called, in that order. */
  ghost predicate ResolvedUpTo<V>(regs: Registry<V>, order: seq<Name>, i: nat, coherent: bool,
                                  before: Trace<V>, result: map<Name, V>, after: Trace<V>)
    requires i <= |order|
  {
    match after
    case Trace(cache, log) =>
      && (coherent ==> CoherentCache(regs, cache))
      && BuiltOnce(before, after) && NewFromCache(regs, before, after)
      && HoldsExactly(result, order[..i], cache)
      && log == before.log + Uncached(order[..i], before.cache)
  }

  lemma ResolvedNone<V>(regs: Registry<V>, order: seq<Name>, coherent: bool, t: Trace<V>)
    requires coherent ==> CoherentCache(regs, t.cache)
    ensures ResolvedUpTo(regs, order, 0, coherent, t, map[], t)
  {
    BuiltNothing(t);
  }

  lemma ResolvedLast<V>(regs: Registry<V>, order: seq<Name>, coherent: bool, t0: Trace<V>, result: map<Name, V>,
                        t: Trace<V>)
    requires Greedy(GraphOf(regs), order) && Exhausted(GraphOf(regs), order)
    requires ResolvedUpTo(regs, order, |order|, coherent, t0, result, t)
    ensures ResolvedAll(regs, coherent, t0, Everything(order, result), t)
  {
    OmitsExactlyTheCyclic(GraphOf(regs), order);
    assert order[..|order|] == order;
  }

  lemma EarlierAreCached<V>(order: seq<Name>, i: nat, result: map<Name, V>, c1: map<Name, V>, c2: map<Name, V>)
    requires i < |order| && HoldsExactly(result, order[..i], c1)
    requires forall n :: n in c1 ==> n in c2
    ensures forall j :: 0 <= j < i ==> order[j] in c2
  {
    forall j | 0 <= j < i ensures order[j] in c2 { assert order[..i][j] == order[j]; }
  }

  lemma {:induction false} UncachedMembers<V>(s: seq<Name>, cache: map<Name, V>)
    ensures forall n :: n in Uncached(s, cache) ==> n in s
  {
    if s != [] { UncachedMembers(s[..|s| - 1], cache); }
  }

  /** The next name of the order is cached exactly when it was cached at the start. */
  lemma NewInLog<V>(order: seq<Name>, i: nat, t0: Trace<V>, t1: Trace<V>)
    requires i < |order| && order[i] !in order[..i]
    requires BuiltOnce(t0, t1) && t1.log == t0.log + Uncached(order[..i], t0.cache)
    ensures order[i] in t1.cache <==> order[i] in t0.cache
  {
    UncachedMembers(order[..i], t0.cache);
    assert t1.log[|t0.log|..] == Uncached(order[..i], t0.cache);
  }

  lemma UncachedStep<V>(order: seq<Name>, i: nat, cache: map<Name, V>)
    requires i < |order|
    ensures Uncached(order[..i + 1], cache) ==
            Uncached(order[..i], cache) + (if order[i] in cache then [] else [order[i]])
  {
    TakeStep(order, i);
  }

  lemma LogOneMore<V>(order: seq<Name>, i: nat, t0: Trace<V>, l1: seq<Name>, l2: seq<Name>)
    requires i < |order| && l1 == t0.log + Uncached(order[..i], t0.cache)
    requires l2 == if order[i] in t0.cache then l1 else l1 + [order[i]]
    ensures l2 == t0.log + Uncached(order[..i + 1], t0.cache)
  {
    UncachedStep(order, i, t0.cache);
  }

  lemma DependenciesCached<V>(regs: Registry<V>, order: seq<Name>, i: nat, result: map<Name, V>, cache: map<Name, V>)
    requires DependencyOrder(GraphOf(regs), order) && i < |order|
    requires HoldsExactly(result, order[..i], cache)
    ensures order[i] in regs && order[i] !in order[..i]
    ensures forall d :: d in regs[order[i]].dependencies && d in regs ==> d in cache
  {
    assert Ready(GraphOf(regs), order[..i], order[i]);
  }

  /** A name whose registered dependencies are cached takes at most its own factory call. */
  lemma OneStep<V>(regs: Registry<V>, name: Name, coherent: bool, before: Trace<V>, v: V, after: Trace<V>)
    requires Resolution(regs, name, coherent, before, Ok(v), after) && name in regs
    requires forall d :: d in regs[name].dependencies && d in regs ==> d in before.cache
    ensures after == if name in before.cache then before else before.Add(name, v)
    ensures name in after.cache && after.cache[name] == v
  {
  }

  lemma ResolvedOne<V>(regs: Registry<V>, order: seq<Name>, i: nat, coherent: bool, t0: Trace<V>, result: map<Name, V>,
                       t1: Trace<V>, coherent1: bool, v: V, t2: Trace<V>)
    requires DependencyOrder(GraphOf(regs), order) && i < |order|
    requires ResolvedUpTo(regs, order, i, coherent, t0, result, t1)
    requires coherent1 <==> CoherentCache(regs, t1.cache)
    requires Resolution(regs, order[i], coherent1, t1, Ok(v), t2)
    ensures ResolvedUpTo(regs, order, i + 1, coherent, t0, result[order[i] := v], t2)
  {
    BuiltOnceCompose(t0, t1, t2);
    NewFromCacheCompose(regs, t0, t1, t2);
    hide BuiltFrom;
    DependenciesCached(regs, order, i, result, t1.cache);
    OneStep(regs, order[i], coherent1, t1, v, t2);
    NewInLog(order, i, t0, t1);
    ExtendResult(order, i, result, v, t1.cache, t2.cache);
    LogOneMore(order, i, t0, t1.log, t2.log);
  }

  lemma FailedOne<V>(regs: Registry<V>, order: seq<Name>, i: nat, coherent: bool, t0: Trace<V>, result: map<Name, V>,
                     t1: Trace<V>, coherent1: bool, error: ResolutionError, t2: Trace<V>)
    requires Greedy(GraphOf(regs), order) && Exhausted(GraphOf(regs), order) && i < |order|
    requires ResolvedUpTo(regs, order, i, coherent, t0, result, t1)
    requires coherent1 <==> CoherentCache(regs, t1.cache)
    requires Resolution(regs, order[i], coherent1, t1, Err(error), t2)
    ensures ResolvedAll(regs, coherent, t0, Failed(error), t2)
  {
    BuiltOnceCompose(t0, t1, t2);
    NewFromCacheCompose(regs, t0, t1, t2);
    EarlierAreCached(order, i, result, t1.cache, t2.cache);
    assert FailedAt(regs, order, i, coherent, error, t2.cache);
  }

  /** One name of the order resolved: its registered dependencies are all cached by then. */
  lemma ResolvedNext<V>(regs: Registry<V>, order: seq<Name>, i: nat, coherent: bool, t0: Trace<V>, result: map<Name, V>,
                        t1: Trace<V>, coherent1: bool, r: Outcome<V>, t2: Trace<V>)
    requires Greedy(GraphOf(regs), order) && Exhausted(GraphOf(regs), order) && i < |order|
    requires ResolvedUpTo(regs, order, i, coherent, t0, result, t1)
    requires coherent1 <==> CoherentCache(regs, t1.cache)
    requires Resolution(regs, order[i], coherent1, t1, r, t2)
    ensures order[i] in regs && forall d :: d in regs[order[i]].dependencies && d in regs ==> d in t1.cache
    ensures r.Ok? ==> ResolvedUpTo(regs, order, i + 1, coherent, t0, result[order[i] := r.value], t2)
    ensures r.Err? ==> ResolvedAll(regs, coherent, t0, Failed(r.error), t2)
  {
    GreedyIsDependencyOrder(GraphOf(regs), order);
    DependenciesCached(regs, order, i, result, t1.cache);
    if r.Ok? {
      ResolvedOne(regs, order, i, coherent, t0, result, t1, coherent1, r.value, t2);
    } else {
      FailedOne(regs, order, i, coherent, t0, result, t1, coherent1, r.error, t2);
    }
  }

  lemma ReachedIsAcyclic(g: Graph, n: Name, m: Name)
    requires !Cyclic(g, n) && Reaches(g, n, m)
    ensures !Cyclic(g, m)
  {
    if Cyclic(g, m) {
      var c :| (c == m || Reaches(g, m, c)) && OnCycle(g, c);
      if c != m { ReachesTransitive(g, n, m, c); }
    }
  }

  lemma {:induction false} UnaffectedByRemoval<V>(regs: Registry<V>, name: Name, n: Name)
    requires n in regs && n != name && !Reaches(GraphOf(regs), n, name)
    requires Evaluate(regs, n).Ok?
    ensures Evaluate(regs - {name}, n) == Evaluate(regs, n)
    decreases |Descendants(GraphOf(regs), n)|
  {
    var g, rest := GraphOf(regs), regs - {name};
    var h := GraphOf(rest);
    var deps := regs[n].dependencies;
    EvaluationSucceedsExactlyWhenSound(regs, n);
    ArgumentsAreValues(regs, n, |deps|);
    forall d | d in deps
      ensures d in rest && Evaluate(rest, d) == Evaluate(regs, d) && !Cyclic(h, d)
    {
      EdgeReaches(g, n, d);
      DescendantsShrink(g, n, d);
      if Reaches(g, d, name) { ReachesTransitive(g, n, d, name); }
      UnaffectedByRemoval(regs, name, d);
      EvaluationSucceedsExactlyWhenSound(rest, d);
    }
    CyclicStep(h, n);
    DependenciesAreStable(rest, regs, n, |deps|);
  }

  lemma ForgettingDependency<V>(regs: Registry<V>, name: Name, cache: map<Name, V>)
    requires cache.Keys <= regs.Keys && CoherentCache(regs, cache)
    ensures CoherentCache(regs - {name}, cache - {name}) <==>
            forall n :: n in cache - {name} ==> !Reaches(GraphOf(regs), n, name)
  {
    var g, rest := GraphOf(regs), regs - {name};
    forall n | n in cache && n != name
      ensures Evaluate(rest, n) == Ok(cache[n]) <==> !Reaches(g, n, name)
    {
      if Evaluate(rest, n).Ok? {
        EvaluationIsStable(rest, regs, n);
      }
      if !Reaches(g, n, name) {
        UnaffectedByRemoval(regs, name, n);
      }
    }
  }

  class DependencyContainer<V> {
    /** The `_registrations` dictionary, with its insertion order. */
    var names: seq<Name>
    var registrations: Registry<V>
    /** The `_resolved` cache. */
    var resolved: map<Name, V>
    /** Factory calls that returned an instance, in call order. */
    ghost var built: seq<Name>
    /** How many factory calls raised. */
    ghost var raised: nat

    ghost function Dependencies(): (g: Graph)
      reads this`registrations
    {
      GraphOf(registrations)
    }

    /** Nothing unregistered is cached. */
    ghost predicate CacheRegistered()
      reads this`registrations, this`resolved
    {
      resolved.Keys <= registrations.Keys
    }

    ghost predicate Valid()
      reads this`names, this`registrations, this`resolved
    {
      && Distinct(names)
      && (forall n :: n in names <==> n in registrations)
      && (forall n :: n in registrations ==> n != "" && n !in registrations[n].dependencies)
      && CacheRegistered()
    }

    /** Every cached instance is what evaluating its name without a cache gives. */
    ghost predicate Coherent()
      reads this`registrations, this`resolved
    {
      CoherentCache(registrations, resolved)
    }

    ghost function History(): Trace<V>
      reads this`resolved, this`built
    {
      Trace(resolved, built)
    }

    constructor ()
      ensures Valid() && Coherent()
      ensures registrations == map[] && resolved == map[] && built == [] && raised == 0
    {
      names, registrations, resolved := [], map[], map[];
      built, raised := [], 0;
    }

    method Register(name: Name, factory: Option<Factory<V>>, dependencies: seq<Name>) returns (r: RegistrationResult)
      requires Valid()
      modifies this`names, this`registrations
      ensures Valid()
      ensures old(Coherent()) ==> Coherent()
      ensures r == (if name == "" then EmptyName
                    else if factory.None? then NotCallable
                    else if name in old(registrations) then AlreadyRegistered
                    else if name in dependencies then SelfDependency
                    else Registered)
      ensures r != Registered ==> names == old(names) && registrations == old(registrations)
      ensures r == Registered ==> names == old(names) + [name]
      ensures r == Registered ==> registrations == old(registrations)[name := Registration(factory.value, dependencies)]
    {
      if name == "" { return EmptyName; }
      if factory.None? { return NotCallable; }
      if name in registrations { return AlreadyRegistered; }
      for i := 0 to |dependencies|
        invariant name !in dependencies[..i]
      {
        if dependencies[i] == name { return SelfDependency; }
      }
      ghost var before := registrations;
      registrations := registrations[name := Registration(factory.value, dependencies)];
      names := names + [name];
      if old(Coherent()) { CoherentRegister(before, resolved, name, Registration(factory.value, dependencies)); }
      return Registered;
    }

    /** Removes a name and its own instance, and leaves the instances of its dependents cached.
        The cache stays coherent exactly when no remaining cached name depends on `name`. */
    method Unregister(name: Name)
      requires Valid()
      modifies this`names, this`registrations, this`resolved
      ensures Valid()
      ensures registrations == old(registrations) - {name} && resolved == old(resolved) - {name}
      ensures multiset(names) == multiset(old(names)) - multiset{name}
      ensures old(Coherent()) ==>
                (Coherent() <==> forall n :: n in resolved ==> !Reaches(old(Dependencies()), n, name))
    {
      if old(Coherent()) { ForgettingDependency(registrations, name, resolved); }
      RemoveName(name);
      registrations := registrations - {name};
      resolved := resolved - {name};
    }

    method RemoveName(name: Name)
      requires Distinct(names)
      modifies this`names
      ensures Distinct(names)
      ensures multiset(names) == multiset(old(names)) - multiset{name}
      ensures forall n :: n in names <==> n in old(names) && n != name
    {
      var i := 0;
      while i < |names| && names[i] != name
        invariant 0 <= i <= |names|
        invariant name !in names[..i]
      {
        i := i + 1;
      }
      if i < |names| {
        WithoutIndex(names, i);
        names := names[..i] + names[i + 1..];
      } else {
        assert name !in multiset(names);
      }
    }

    method Clear()
      modifies this`names, this`registrations, this`resolved
      ensures Valid() && Coherent()
      ensures registrations == map[] && resolved == map[]
    {
      names, registrations, resolved := [], map[], map[];
    }

    /** Three-colour search: gray names are those on the current path, black ones are done. */
    method HasCycle(name: Name, marks: Marks) returns (found: bool)
      requires forall v :: v in marks.visiting ==> Reaches(Dependencies(), v, name)
      requires forall b :: b in marks.visited ==> !Cyclic(Dependencies(), b)
      modifies marks
      ensures found <==> Cyclic(Dependencies(), name)
      ensures !found ==> marks.visiting == old(marks.visiting)
      ensures !found ==> marks.visited >= old(marks.visited) + {name}
      ensures !found ==> forall b :: b in marks.visited ==> !Cyclic(Dependencies(), b)
      decreases registrations.Keys - marks.visiting
    {
      ghost var g := Dependencies();
      if name in marks.visiting { return true; }
      if name in marks.visited { return false; }
      CyclicStep(g, name);
      marks.visiting := marks.visiting + {name};
      if name in registrations {
        var dependencies := registrations[name].dependencies;
        for i := 0 to |dependencies|
          invariant marks.visiting == old(marks.visiting) + {name}
          invariant marks.visited >= old(marks.visited)
          invariant forall b :: b in marks.visited ==> !Cyclic(g, b)
          invariant forall j :: 0 <= j < i ==> !Cyclic(g, dependencies[j])
        {
          EdgeReaches(g, name, dependencies[i]);
          forall v | v in marks.visiting ensures Reaches(g, v, dependencies[i]) {
            if v != name { ReachesTransitive(g, v, name, dependencies[i]); }
          }
          var below := HasCycle(dependencies[i], marks);
          if below { return true; }
        }
      }
      marks.visiting := marks.visiting - {name};
      marks.visited := marks.visited + {name};
      return false;
    }

    /** Path-set search. Each report is an edge that closes a cycle reachable from `start`. */
    method DetectCycles(start: Name, path: set<Name>) returns (errors: seq<Problem>)
      requires Valid()
      requires start !in path
      requires forall v :: v in path ==> Reaches(Dependencies(), v, start)
      ensures errors != [] <==> Cyclic(Dependencies(), start)
      ensures forall e :: e in errors ==>
                e.CycleEdge? && e.name in registrations && e.dependency in registrations[e.name].dependencies &&
                OnCycle(Dependencies(), e.name)
      decreases registrations.Keys - path
    {
      ghost var g := Dependencies();
      errors := [];
      CyclicStep(g, start);
      if start !in registrations { return; }
      var dependencies := registrations[start].dependencies;
      for i := 0 to |dependencies|
        invariant errors != [] <==> exists j :: 0 <= j < i && Cyclic(g, dependencies[j])
        invariant forall e :: e in errors ==>
                    e.CycleEdge? && e.name in registrations && e.dependency in registrations[e.name].dependencies &&
                    OnCycle(g, e.name)
      {
        var d := dependencies[i];
        EdgeReaches(g, start, d);
        if d in path {
          ReachesTransitive(g, d, start, d);
          ReachesTransitive(g, start, d, start);
          assert OnCycle(g, d);
          errors := errors + [CycleEdge(d, start)];
        } else if d in registrations {
          forall v | v in path + {start} ensures Reaches(g, v, d) {
            if v != start { ReachesTransitive(g, v, start, d); }
          }
          var below := DetectCycles(d, path + {start});
          errors := errors + below;
        } else {
          CyclicStep(g, d);
        }
      }
    }

    /** Recursion without a visited set: `limit` is how many nested calls the interpreter allows. */
    method GetReachable(start: Name, limit: nat) returns (r: ReachedNames)
      ensures Cyclic(Dependencies(), start) ==> r == TooDeep
      ensures r.Names? ==> r.names == Descendants(Dependencies(), start)
      ensures !Cyclic(Dependencies(), start) && limit > |Descendants(Dependencies(), start)| ==> r.Names?
      decreases limit
    {
      if limit == 0 { return TooDeep; }
      ghost var g := Dependencies();
      if start !in registrations {
        UnregisteredReachesNothing(g, start);
        return Names({});
      }
      var dependencies := registrations[start].dependencies;
      var reachable: set<Name> := {};
      for i := 0 to |dependencies|
        invariant forall j :: 0 <= j < i ==> !Cyclic(g, dependencies[j])
        invariant reachable == ReachedBy(g, dependencies, i)
      {
        var d := dependencies[i];
        ReachedByStep(g, dependencies, i);
        if d in registrations {
          DependencyIsEasier(g, start, d);
          reachable := reachable + {d};
          var below := GetReachable(d, limit - 1);
          if below.TooDeep? { return TooDeep; }
          reachable := reachable + below.names;
        }
      }
      AcyclicIfDependenciesAre(g, start);
      ReachedByAll(g, start);
      return Names(reachable);
    }

    /** The returned list names exactly the unregistered dependencies: no list is ever returned
        for a registry with a cycle, because the reachability pass then recurses without end. */
    method Validate(limit: nat) returns (r: Validation)
      requires Valid()
      ensures (exists n :: n in registrations && Cyclic(Dependencies(), n)) ==> r == RecursionExceeded
      ensures (forall n :: n in registrations ==> !Cyclic(Dependencies(), n)) && limit > |registrations| ==> r.Problems?
      ensures r.Problems? ==> forall p :: p in r.problems <==>
                p.Missing? && p.name in registrations &&
                p.dependency in registrations[p.name].dependencies && p.dependency !in registrations
    {
      ghost var g := Dependencies();
      var errors := MissingDependencies();
      ghost var missing := errors;
      var visited: set<Name> := {};
      for i := 0 to |names|
        invariant errors == missing
        invariant forall n :: n in visited ==> !Cyclic(g, n)
        invariant forall j :: 0 <= j < i ==> !Cyclic(g, names[j])
      {
        var name := names[i];
        if name !in visited {
          var cycleErrors := DetectCycles(name, {});
          errors := errors + cycleErrors;
          var reachable := GetReachable(name, limit);
          if reachable.TooDeep? {
            assert name in registrations;
            NotLarger(Descendants(g, name), registrations.Keys);
            return RecursionExceeded;
          }
          forall m | m in reachable.names ensures !Cyclic(g, m) { ReachedIsAcyclic(g, name, m); }
          visited := visited + reachable.names;
        }
      }
      for i := 0 to |names|
        invariant errors == missing
      {
        errors := errors + SelfProblems(registrations, names[i]);
      }
      return Problems(errors);
    }

    method MissingDependencies() returns (errors: seq<Problem>)
      requires Valid()
      ensures forall p :: p in errors <==>
                p.Missing? && p.name in registrations &&
                p.dependency in registrations[p.name].dependencies && p.dependency !in registrations
    {
      errors := [];
      for i := 0 to |names|
        invariant forall p :: p in errors <==>
                    p.Missing? && p.name in names[..i] && p.name in registrations &&
                    p.dependency in registrations[p.name].dependencies && p.dependency !in registrations
      {
        var name := names[i];
        var dependencies := registrations[name].dependencies;
        ghost var earlier := errors;
        for j := 0 to |dependencies|
          invariant forall p :: p in errors <==>
                      p in earlier ||
                      (p.Missing? && p.name == name && p.dependency in dependencies[..j]
                       && p.dependency !in registrations)
        {
          if dependencies[j] !in registrations {
            errors := errors + [Missing(name, dependencies[j])];
          }
        }
        assert dependencies[..|dependencies|] == dependencies;
      }
      assert names[..|names|] == names;
    }

    /** Memoised resolution. It asks for `CacheRegistered()` alone: the rest of `Valid()` is about
        fields outside its frame, so a caller that has it keeps it. */
    method Resolve(name: Name) returns (r: Outcome<V>)
      requires CacheRegistered()
      modifies this`resolved, this`built, this`raised
      ensures CacheRegistered()
      ensures Resolution(registrations, name, old(Coherent()), old(History()), r, History())
      ensures raised == old(raised) + (if r.Err? && r.error.FromFactory() then 1 else 0)
      decreases |Descendants(Dependencies(), name)|, 2
    {
      BuiltNothing(History());
      if name in resolved { return Ok(resolved[name]); }
      if name !in registrations { return Err(NotRegistered(name)); }
      var marks := new Marks();
      var cyclic := HasCycle(name, marks);
      if cyclic { return Err(Circular(name)); }
      r := Instantiate(name);
    }

    /** The part of `resolve` after the cycle check. */
    method Instantiate(name: Name) returns (r: Outcome<V>)
      requires CacheRegistered() && name in registrations && name !in resolved && !Cyclic(Dependencies(), name)
      modifies this`resolved, this`built, this`raised
      ensures CacheRegistered()
      ensures Resolution(registrations, name, old(Coherent()), old(History()), r, History())
      ensures raised == old(raised) + (if r.Err? && r.error.FromFactory() then 1 else 0)
      decreases |Descendants(Dependencies(), name)|, 1
    {
      hide Resolution, Collected, Cyclic, CoherentCache;
      var arguments := ResolveDependencies(name);
      if arguments.Err? { return Err(arguments.error); }
      r := Call(registrations, name, arguments.value);
      CallCompletes(registrations, name, old(Coherent()), old(History()), arguments.value, History());
      if r.Err? {
        raised := raised + 1;
        return;
      }
      resolved := resolved[name := r.value];
      built := built + [name];
    }

    /** The loop of `resolve` that collects the keyword arguments of `name`. */
    method ResolveDependencies(name: Name) returns (r: Outcome<map<Name, V>>)
      requires CacheRegistered() && name in registrations && name !in resolved && !Cyclic(Dependencies(), name)
      modifies this`resolved, this`built, this`raised
      ensures CacheRegistered()
      ensures r.Ok? ==> Collected(registrations, name, |registrations[name].dependencies|, old(Coherent()),
                                  old(History()), r.value, History())
      ensures r.Err? ==> Resolution(registrations, name, old(Coherent()), old(History()), Err(r.error), History())
      ensures raised == old(raised) + (if r.Err? && r.error.FromFactory() then 1 else 0)
      decreases |Descendants(Dependencies(), name)|, 0
    {
      var dependencies := registrations[name].dependencies;
      var arguments: map<Name, V> := map[];
      CollectNone(registrations, name, Coherent(), History());
      for i := 0 to |dependencies|
        invariant CacheRegistered()
        invariant raised == old(raised)
        invariant Collected(registrations, name, i, old(Coherent()), old(History()), arguments, History())
      {
        var d := dependencies[i];
        if d !in registrations {
          CollectMissing(registrations, name, i, old(Coherent()), old(History()), arguments, History());
          return Err(MissingDependency(name, d));
        }
        DescendantsShrink(Dependencies(), name, d);
        ghost var before, coherent := History(), Coherent();
        var value := Resolve(d);
        CollectNext(registrations, name, i, old(Coherent()), old(History()), arguments, before, coherent, value,
                    History());
        if value.Err? { return Err(value.error); }
        arguments := arguments[d := value.value];
      }
      return Ok(arguments);
    }

    method TopologicalSort() returns (result: seq<Name>)
      requires Valid()
      ensures Greedy(Dependencies(), result) && Exhausted(Dependencies(), result)
    {
      result := Sort(GraphOf(registrations), names);
    }

    /** Resolves every name the topological order lists. Names that reach a cycle are left out
        silently, so the result names the whole registry exactly when it has no cycle. */
    method All() returns (r: AllResult<V>)
      requires Valid()
      modifies this`resolved, this`built, this`raised
      ensures CacheRegistered()
      ensures ResolvedAll(registrations, old(Coherent()), old(History()), r, History())
      ensures old(Coherent()) ==>
                (r.Everything? <==>
                 forall n :: n in registrations && !Cyclic(Dependencies(), n) ==> Evaluate(registrations, n).Ok?)
    {
      var sorted := TopologicalSort();
      r := ResolveInOrder(sorted);
      if old(Coherent()) { AllSucceedsIff(registrations, old(History()), r, History()); }
    }

    method ResolveInOrder(sorted: seq<Name>) returns (r: AllResult<V>)
      requires CacheRegistered()
      requires Greedy(Dependencies(), sorted) && Exhausted(Dependencies(), sorted)
      modifies this`resolved, this`built, this`raised
      ensures CacheRegistered()
      ensures ResolvedAll(registrations, old(Coherent()), old(History()), r, History())
    {
      var result: map<Name, V> := map[];
      ResolvedNone(registrations, sorted, Coherent(), History());
      for i := 0 to |sorted|
        invariant CacheRegistered()
        invariant ResolvedUpTo(registrations, sorted, i, old(Coherent()), old(History()), result, History())
      {
        ghost var before, coherent := History(), Coherent();
        var value := Resolve(sorted[i]);
        ResolvedNext(registrations, sorted, i, old(Coherent()), old(History()), result, before, coherent, value,
                     History());
        if value.Err? { return Failed(value.error); }
        result := result[sorted[i] := value.value];
      }
      ResolvedLast(registrations, sorted, old(Coherent()), old(History()), result, History());
      return Everything(sorted, result);
    }
  }

  /** One call made on a container. */
  datatype Operation<!V> =
    | DoRegister(name: Name, factory: Option<Factory<V>>, dependencies: seq<Name>) | DoResolve(name: Name) | DoAll

  method Step<V>(container: DependencyContainer<V>, operation: Operation<V>, ghost start: Trace<V>)
    requires container.Valid() && container.Coherent() && BuiltOnce(start, container.History())
    modifies container
    ensures container.Valid() && container.Coherent() && BuiltOnce(start, container.History())
  {
    ghost var before := container.History();
    match operation
    case DoRegister(name, factory, dependencies) =>
      var registered := container.Register(name, factory, dependencies);
    case DoResolve(name) =>
      var resolved := container.Resolve(name);
      BuiltOnceCompose(start, before, container.History());
    case DoAll =>
      var all := container.All();
      BuiltOnceCompose(start, before, container.History());
  }

  /** Any run of registrations and resolutions on a new container, whatever they answer: every cached
      instance is the uncached value of its name, and each was built by one factory call. */
  method AnyRun<V>(operations: seq<Operation<V>>) returns (container: DependencyContainer<V>)
    ensures fresh(container) && container.Valid() && container.Coherent()
    ensures Distinct(container.built) && forall n :: n in container.built <==> n in container.resolved
  {
    container := new DependencyContainer<V>();
    ghost var start := container.History();
    BuiltNothing(start);
    for i := 0 to |operations|
      invariant fresh(container) && container.Valid() && container.Coherent()
      invariant BuiltOnce(start, container.History())
    {
      Step(container, operations[i], start);
    }
    assert container.built[0..] == container.built;
  }

  /** With factories that never raise, it succeeds exactly when all of them depend on registered
      names only; and when nothing is missing and nothing is cyclic, it returns the whole registry. */
  lemma AllSucceedsIffComplete<V(!new)>(regs: Registry<V>, before: Trace<V>, r: AllResult<V>, after: Trace<V>)
    requires ResolvedAll(regs, true, before, r, after)
    requires forall n :: n in regs ==> NeverRaises(regs[n].factory)
    ensures r.Everything? <==> forall n :: n in regs && !Cyclic(GraphOf(regs), n) ==> Complete(GraphOf(regs), n)
    ensures (forall n :: n in regs ==> !Cyclic(GraphOf(regs), n) && Complete(GraphOf(regs), n))
            <==> r.Everything? && r.instances.Keys == regs.Keys
  {
    AllSucceedsIff(regs, before, r, after);
    forall n ensures Evaluate(regs, n).Ok? <==> Complete(GraphOf(regs), n) && !Cyclic(GraphOf(regs), n) {
      ResolvableIff(regs, n);
    }
    if r.Everything? && r.instances.Keys == regs.Keys {
      forall n | n in regs ensures !Cyclic(GraphOf(regs), n) { assert n in r.instances; }
    }
  }
}
