/** What `resolve` should return: plain recursive evaluation, with no cache. */
module Evaluation {
  import opened Names
  import opened DependencyGraph

  /** What calling a factory does: it builds, or it raises `TypeError`, or something else. */
  datatype Built<+V> = Instance(value: V) | RaisedTypeError | RaisedOther

  /** A deterministic factory over its keyword arguments. */
  type Factory<!V> = map<Name, V> -> Built<V>

  datatype Registration<!V> = Registration(factory: Factory<V>, dependencies: seq<Name>)

  type Registry<!V> = map<Name, Registration<V>>

  datatype ResolutionError =
    | NotRegistered(name: Name)
    | Circular(name: Name)
    | MissingDependency(name: Name, dependency: Name)
    | FactoryTypeError(name: Name)
    | FactoryRaised(name: Name)
  {
    predicate FromFactory() { FactoryTypeError? || FactoryRaised? }
  }

  datatype Outcome<+V> = Ok(value: V) | Err(error: ResolutionError)

  function GraphOf<V>(regs: Registry<V>): (g: Graph)
    ensures g.Keys == regs.Keys
  {
    map n | n in regs :: regs[n].dependencies
  }

  function Call<V>(regs: Registry<V>, n: Name, args: map<Name, V>): Outcome<V>
    requires n in regs
  {
    match regs[n].factory(args)
    case Instance(v) => Ok(v)
    case RaisedTypeError => Err(FactoryTypeError(n))
    case RaisedOther => Err(FactoryRaised(n))
  }

  /** The value of `n`: its factory applied to the values of its dependencies. */
  ghost function Evaluate<V>(regs: Registry<V>, n: Name): Outcome<V>
    decreases |Descendants(GraphOf(regs), n)|, 1, 0
  {
    if n !in regs then Err(NotRegistered(n))
    else if Cyclic(GraphOf(regs), n) then Err(Circular(n))
    else
      var args := EvaluateDependencies(regs, n, |regs[n].dependencies|);
      if args.Err? then Err(args.error) else Call(regs, n, args.value)
  }

  /** The keyword arguments made of the first `k` dependencies of `n`, or the first failure. */
  ghost function EvaluateDependencies<V>(regs: Registry<V>, n: Name, k: nat): Outcome<map<Name, V>>
    requires n in regs && !Cyclic(GraphOf(regs), n) && k <= |regs[n].dependencies|
    decreases |Descendants(GraphOf(regs), n)|, 0, k
  {
    if k == 0 then Ok(map[])
    else
      var before := EvaluateDependencies(regs, n, k - 1);
      var d := regs[n].dependencies[k - 1];
      if before.Err? then before
      else if d !in regs then Err(MissingDependency(n, d))
      else
        DescendantsShrink(GraphOf(regs), n, d);
        var v := Evaluate(regs, d);
        if v.Err? then Err(v.error) else Ok(before.value[d := v.value])
  }

  /** When the arguments are complete, they hold exactly the dependencies' own values. */
  lemma {:induction false} ArgumentsAreValues<V>(regs: Registry<V>, n: Name, k: nat)
    requires n in regs && !Cyclic(GraphOf(regs), n) && k <= |regs[n].dependencies|
    requires EvaluateDependencies(regs, n, k).Ok?
    ensures var args := EvaluateDependencies(regs, n, k).value;
            args.Keys == (set i | 0 <= i < k :: regs[n].dependencies[i]) &&
            forall d :: d in args ==> d in regs && Evaluate(regs, d) == Ok(args[d])
  {
    if k > 0 {
      ArgumentsAreValues(regs, n, k - 1);
    }
  }

  /** `args` holds the value of every dependency of `n`, and nothing else. */
  ghost predicate ValuesOf<V>(regs: Registry<V>, n: Name, args: map<Name, V>)
    requires n in regs
  {
    && (forall d :: d in args <==> d in regs[n].dependencies)
    && (forall d :: d in args ==> Evaluate(regs, d) == Ok(args[d]))
  }

  /** The first `k` dependencies of `n` have values. */
  ghost predicate HaveValues<V>(regs: Registry<V>, n: Name, k: nat)
    requires n in regs && k <= |regs[n].dependencies|
  {
    forall i :: 0 <= i < k ==> Evaluate(regs, regs[n].dependencies[i]).Ok?
  }

  lemma {:induction false} ArgumentsComplete<V>(regs: Registry<V>, n: Name, k: nat)
    requires n in regs && !Cyclic(GraphOf(regs), n) && k <= |regs[n].dependencies| && HaveValues(regs, n, k)
    ensures EvaluateDependencies(regs, n, k).Ok?
  {
    if k > 0 {
      ArgumentsComplete(regs, n, k - 1);
      assert Evaluate(regs, regs[n].dependencies[k - 1]).Ok?;
    }
  }

  ghost predicate ValuesUpTo<V>(regs: Registry<V>, n: Name, k: nat, args: map<Name, V>)
    requires n in regs && k <= |regs[n].dependencies|
  {
    && (forall d :: d in args <==> d in regs[n].dependencies[..k])
    && (forall d :: d in args ==> Evaluate(regs, d) == Ok(args[d]))
  }

  lemma {:induction false} FoundUpTo<V>(regs: Registry<V>, n: Name, k: nat)
    requires n in regs && !Cyclic(GraphOf(regs), n) && k <= |regs[n].dependencies|
    requires EvaluateDependencies(regs, n, k).Ok?
    ensures ValuesUpTo(regs, n, k, EvaluateDependencies(regs, n, k).value)
  {
    if k > 0 {
      var deps := regs[n].dependencies;
      FoundUpTo(regs, n, k - 1);
      assert deps[..k] == deps[..k - 1] + [deps[k - 1]];
    }
  }

  lemma WholeValues<V>(regs: Registry<V>, n: Name, args: map<Name, V>)
    requires n in regs && ValuesUpTo(regs, n, |regs[n].dependencies|, args)
    ensures ValuesOf(regs, n, args)
  {
    hide Evaluate;
    assert regs[n].dependencies[..|regs[n].dependencies|] == regs[n].dependencies;
  }

  lemma FoundArguments<V>(regs: Registry<V>, n: Name)
    requires n in regs && !Cyclic(GraphOf(regs), n) && HaveValues(regs, n, |regs[n].dependencies|)
    ensures var found := EvaluateDependencies(regs, n, |regs[n].dependencies|);
            found.Ok? && ValuesOf(regs, n, found.value)
  {
    hide *;
    ArgumentsComplete(regs, n, |regs[n].dependencies|);
    FoundUpTo(regs, n, |regs[n].dependencies|);
    WholeValues(regs, n, EvaluateDependencies(regs, n, |regs[n].dependencies|).value);
  }

  lemma AllHaveValues<V>(regs: Registry<V>, n: Name, args: map<Name, V>)
    requires n in regs && ValuesOf(regs, n, args)
    ensures HaveValues(regs, n, |regs[n].dependencies|)
  {
    hide Evaluate;
    var deps := regs[n].dependencies;
    forall i | 0 <= i < |deps| ensures Evaluate(regs, deps[i]).Ok? { assert deps[i] in args; }
  }

  /** There is only one such mapping. */
  lemma OnlyOneArguments<V>(regs: Registry<V>, n: Name, a: map<Name, V>, b: map<Name, V>)
    requires n in regs && ValuesOf(regs, n, a) && ValuesOf(regs, n, b)
    ensures a == b
  {
    hide Evaluate;
    forall d | d in a ensures a[d] == b[d] { assert Ok(a[d]) == Ok(b[d]); }
  }

  lemma ArgumentsAre<V>(regs: Registry<V>, n: Name, args: map<Name, V>)
    requires n in regs && !Cyclic(GraphOf(regs), n) && ValuesOf(regs, n, args)
    ensures EvaluateDependencies(regs, n, |regs[n].dependencies|) == Ok(args)
  {
    hide *;
    AllHaveValues(regs, n, args);
    FoundArguments(regs, n);
    OnlyOneArguments(regs, n, EvaluateDependencies(regs, n, |regs[n].dependencies|).value, args);
  }

  /** A name whose dependencies have values is its factory called with exactly these values: an instance
      is its value, and either kind of exception its own error. */
  lemma EvaluationCallsTheFactory<V>(regs: Registry<V>, n: Name, args: map<Name, V>)
    requires n in regs && !Cyclic(GraphOf(regs), n) && ValuesOf(regs, n, args)
    ensures Evaluate(regs, n) == match regs[n].factory(args)
                                 case Instance(v) => Ok(v)
                                 case RaisedTypeError => Err(FactoryTypeError(n))
                                 case RaisedOther => Err(FactoryRaised(n))
  {
    ArgumentsAre(regs, n, args);
  }

  lemma {:induction false} ArgumentsFail<V>(regs: Registry<V>, n: Name, i: nat, k: nat)
    requires n in regs && !Cyclic(GraphOf(regs), n) && i < k <= |regs[n].dependencies|
    requires HaveValues(regs, n, i) && Evaluate(regs, regs[n].dependencies[i]).Err?
    ensures var d := regs[n].dependencies[i];
            EvaluateDependencies(regs, n, k)
            == Err(if d in regs then Evaluate(regs, d).error else MissingDependency(n, d))
    decreases k
  {
    if i < k - 1 { ArgumentsFail(regs, n, i, k - 1); } else { ArgumentsComplete(regs, n, i); }
  }

  /** Otherwise it fails: an unregistered name as such, a name that reaches a cycle as circular, and any other as
      its first dependency without a value does, or because that one is not registered. */
  lemma EvaluationFailsFirst<V>(regs: Registry<V>, n: Name)
    ensures n !in regs ==> Evaluate(regs, n) == Err(NotRegistered(n))
    ensures n in regs && Cyclic(GraphOf(regs), n) ==> Evaluate(regs, n) == Err(Circular(n))
    ensures n in regs && !Cyclic(GraphOf(regs), n) ==>
              forall i {:trigger regs[n].dependencies[i]} ::
                0 <= i < |regs[n].dependencies| && HaveValues(regs, n, i) ==>
                var d := regs[n].dependencies[i];
                && (d !in regs ==> Evaluate(regs, n) == Err(MissingDependency(n, d)))
                && (d in regs && Evaluate(regs, d).Err? ==> Evaluate(regs, n) == Err(Evaluate(regs, d).error))
  {
    if n in regs && !Cyclic(GraphOf(regs), n) {
      forall i | 0 <= i < |regs[n].dependencies| && HaveValues(regs, n, i)
                 && Evaluate(regs, regs[n].dependencies[i]).Err?
        ensures var d := regs[n].dependencies[i];
                Evaluate(regs, n) == Err(if d in regs then Evaluate(regs, d).error else MissingDependency(n, d))
      {
        ArgumentsFail(regs, n, i, |regs[n].dependencies|);
      }
    }
  }

  /** One of the two always applies. */
  lemma {:induction false} ValuesOrFirstFailure<V>(regs: Registry<V>, n: Name, k: nat)
    requires n in regs && !Cyclic(GraphOf(regs), n) && k <= |regs[n].dependencies|
    ensures HaveValues(regs, n, k) || exists i :: 0 <= i < k && HaveValues(regs, n, i)
                                             && Evaluate(regs, regs[n].dependencies[i]).Err?
    ensures HaveValues(regs, n, |regs[n].dependencies|) ==> exists args :: ValuesOf(regs, n, args)
  {
    var deps := regs[n].dependencies;
    if k > 0 { ValuesOrFirstFailure(regs, n, k - 1); }
    if HaveValues(regs, n, |deps|) { FoundArguments(regs, n); }
  }

  /** A container error never comes from the factories; and nothing else makes evaluation fail. */
  lemma {:induction false} EvaluationSucceedsExactlyWhenSound<V>(regs: Registry<V>, n: Name)
    ensures Evaluate(regs, n).Ok? || Evaluate(regs, n).error.FromFactory()
            ==> n in regs && !Cyclic(GraphOf(regs), n)
    ensures Evaluate(regs, n).Ok? ==> Complete(GraphOf(regs), n)
    ensures Complete(GraphOf(regs), n) && !Cyclic(GraphOf(regs), n)
            ==> Evaluate(regs, n).Ok? || Evaluate(regs, n).error.FromFactory()
    decreases |Descendants(GraphOf(regs), n)|, 1, 0
  {
    var g := GraphOf(regs);
    if n in regs && !Cyclic(g, n) {
      CompleteStep(g, n);
      DependenciesSucceed(regs, n, |regs[n].dependencies|);
    }
  }

  lemma {:induction false} DependenciesSucceed<V>(regs: Registry<V>, n: Name, k: nat)
    requires n in regs && !Cyclic(GraphOf(regs), n) && k <= |regs[n].dependencies|
    ensures var r := EvaluateDependencies(regs, n, k);
            (r.Ok? ==> forall i :: 0 <= i < k ==> Complete(GraphOf(regs), regs[n].dependencies[i])) &&
            (Complete(GraphOf(regs), n) ==> r.Ok? || r.error.FromFactory())
    decreases |Descendants(GraphOf(regs), n)|, 0, k
  {
    if k > 0 {
      var g := GraphOf(regs);
      DependenciesSucceed(regs, n, k - 1);
      var d := regs[n].dependencies[k - 1];
      CompleteStep(g, n);
      CyclicStep(g, n);
      assert d in g[n] && (Complete(g, n) ==> Complete(g, d));
      if d in regs {
        DescendantsShrink(g, n, d);
        EvaluationSucceedsExactlyWhenSound(regs, d);
      }
    }
  }

  ghost predicate NeverRaises<V(!new)>(f: Factory<V>) {
    forall args: map<Name, V> :: f(args).Instance?
  }

  lemma {:induction false} NoFactoryError<V(!new)>(regs: Registry<V>, n: Name)
    requires forall m :: m in regs ==> NeverRaises(regs[m].factory)
    ensures Evaluate(regs, n).Err? ==> !Evaluate(regs, n).error.FromFactory()
    decreases |Descendants(GraphOf(regs), n)|, 1, 0
  {
    if n in regs && !Cyclic(GraphOf(regs), n) {
      NoFactoryErrorBelow(regs, n, |regs[n].dependencies|);
    }
  }

  /** With factories that never raise, a name resolves if and only if everything reachable from
      it is registered and none of it lies on a cycle. */
  lemma ResolvableIff<V(!new)>(regs: Registry<V>, n: Name)
    requires forall m :: m in regs ==> NeverRaises(regs[m].factory)
    ensures Evaluate(regs, n).Ok? <==> Complete(GraphOf(regs), n) && !Cyclic(GraphOf(regs), n)
  {
    EvaluationSucceedsExactlyWhenSound(regs, n);
    NoFactoryError(regs, n);
  }

  lemma {:induction false} NoFactoryErrorBelow<V(!new)>(regs: Registry<V>, n: Name, k: nat)
    requires forall m :: m in regs ==> NeverRaises(regs[m].factory)
    requires n in regs && !Cyclic(GraphOf(regs), n) && k <= |regs[n].dependencies|
    ensures EvaluateDependencies(regs, n, k).Err? ==> !EvaluateDependencies(regs, n, k).error.FromFactory()
    decreases |Descendants(GraphOf(regs), n)|, 0, k
  {
    if k > 0 {
      NoFactoryErrorBelow(regs, n, k - 1);
      var d := regs[n].dependencies[k - 1];
      if d in regs {
        DescendantsShrink(GraphOf(regs), n, d);
        NoFactoryError(regs, d);
      }
    }
  }

  ghost predicate Extends<V>(small: Registry<V>, large: Registry<V>) {
    small.Keys <= large.Keys && forall n :: n in small ==> large[n] == small[n]
  }

  lemma {:induction false} DependenciesAreStable<V>(small: Registry<V>, large: Registry<V>, n: Name, k: nat)
    requires Extends(small, large) && n in small && k <= |small[n].dependencies|
    requires !Cyclic(GraphOf(small), n) && !Cyclic(GraphOf(large), n)
    requires forall d :: d in small[n].dependencies ==> d in small && Evaluate(large, d) == Evaluate(small, d)
    ensures EvaluateDependencies(large, n, k) == EvaluateDependencies(small, n, k)
  {
    if k > 0 { DependenciesAreStable(small, large, n, k - 1); }
  }

  /** A value once computed is not changed by further registrations. */
  lemma {:induction false} EvaluationIsStable<V>(small: Registry<V>, large: Registry<V>, n: Name)
    requires Extends(small, large) && Evaluate(small, n).Ok?
    ensures Evaluate(large, n) == Evaluate(small, n)
    ensures !Cyclic(GraphOf(large), n)
    ensures forall m :: Reaches(GraphOf(large), n, m) ==> m in small
    decreases |Descendants(GraphOf(small), n)|
  {
    var g, h := GraphOf(small), GraphOf(large);
    var deps := small[n].dependencies;
    EvaluationSucceedsExactlyWhenSound(small, n);
    CompleteStep(g, n);
    forall d | d in deps
      ensures Evaluate(small, d).Ok? && Evaluate(large, d) == Evaluate(small, d)
      ensures d in small && !Cyclic(h, d)
      ensures forall m :: Reaches(h, d, m) ==> m in small
    {
      ArgumentsAreValues(small, n, |deps|);
      DescendantsShrink(g, n, d);
      EvaluationIsStable(small, large, d);
    }
    CyclicStep(h, n);
    forall m | Reaches(h, n, m) ensures m in small {
      var d := FirstStep(h, n, m);
    }
    DependenciesAreStable(small, large, n, |deps|);
  }
}
