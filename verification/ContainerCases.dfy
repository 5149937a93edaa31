/** Concrete runs in which the container of packages/bootstrap/container.py breaks a promise. */
module ContainerCases {
  import opened Names
  import opened Options
  import opened DependencyGraph
  import opened Evaluation
  import opened TopologicalOrder
  import opened Container

  /** A factory that never raises. */
  function Constant(): Factory<int> {
    (arguments: map<Name, int>) => Instance(0)
  }

  /** Two names that depend on each other. */
  function Mutual(): Registry<int> {
    map["a" := Registration(Constant(), ["b"]), "b" := Registration(Constant(), ["a"])]
  }

  lemma MutualIsCyclic()
    ensures Cyclic(GraphOf(Mutual()), "a") && Cyclic(GraphOf(Mutual()), "b")
  {
    var g := GraphOf(Mutual());
    assert IsRoute(g, ["a", "b", "a"], "a", "a");
    assert OnCycle(g, "a");
    EdgeReaches(g, "b", "a");
  }

  method TwoForwardReferences() returns (container: DependencyContainer<int>)
    ensures fresh(container) && container.Valid() && container.Coherent()
    ensures container.registrations == Mutual() && container.resolved == map[]
  {
    container := new DependencyContainer<int>();
    var first := container.Register("a", Some(Constant()), ["b"]);
    var second := container.Register("b", Some(Constant()), ["a"]);
  }

  ghost predicate AllCyclic<V>(regs: Registry<V>) {
    forall n :: n in regs ==> Cyclic(GraphOf(regs), n)
  }

  /** When every name reaches a cycle, `all` succeeds and returns nothing. */
  lemma NothingListed<V>(regs: Registry<V>, before: Trace<V>, r: AllResult<V>, after: Trace<V>)
    requires AllCyclic(regs) && ResolvedAll(regs, true, before, r, after)
    ensures r.Everything? && r.instances == map[]
  {
    AllSucceedsIff(regs, before, r, after);
  }

  method ValidateCyclic<V>(container: DependencyContainer<V>, name: Name, limit: nat) returns (validation: Validation)
    requires container.Valid() && name in container.registrations && AllCyclic(container.registrations)
    ensures validation == RecursionExceeded
  {
    validation := container.Validate(limit);
  }

  method AllOfCyclic<V>(container: DependencyContainer<V>) returns (everything: AllResult<V>)
    requires container.Valid() && container.Coherent() && AllCyclic(container.registrations)
    modifies container
    ensures container.registrations == old(container.registrations)
    ensures everything.Everything? && everything.instances == map[]
  {
    ghost var before := container.History();
    everything := container.All();
    NothingListed(container.registrations, before, everything, container.History());
  }

  lemma MutualIsAllCyclic()
    ensures "a" in Mutual() && AllCyclic(Mutual())
  {
    MutualIsCyclic();
  }

  /** Forward references register a cycle. `validate` then never returns a list, for any recursion
      limit, and `all` succeeds with nothing. */
  method MutualDependency(limit: nat)
    returns (container: DependencyContainer<int>, validation: Validation, everything: AllResult<int>)
    ensures container.registrations == Mutual() && validation == RecursionExceeded
    ensures everything.Everything? && everything.instances == map[]
  {
    container := TwoForwardReferences();
    MutualIsAllCyclic();
    validation := ValidateCyclic(container, "a", limit);
    everything := AllOfCyclic(container);
  }

  /** A name and its only dependency. */
  function Pair(): Registry<int> {
    map["a" := Registration(Constant(), []), "b" := Registration(Constant(), ["a"])]
  }

  lemma PairResolves()
    ensures Evaluate(Pair(), "b").Ok?
  {
    var g := GraphOf(Pair());
    CyclicStep(g, "a");
    CyclicStep(g, "b");
    CompleteStep(g, "a");
    CompleteStep(g, "b");
    ResolvableIff(Pair(), "b");
  }

  lemma NoValueWithout(name: Name)
    requires name == "a"
    ensures Evaluate(Pair() - {name}, "b").Err?
  {
    var rest := Pair() - {name};
    EvaluationSucceedsExactlyWhenSound(rest, "b");
    EdgeReaches(GraphOf(rest), "b", "a");
  }

  /** Removing a dependency leaves its dependent cached, although it has no value any more. */
  method StaleDependent() returns (container: DependencyContainer<int>)
    ensures container.Valid() && !container.Coherent()
    ensures "b" in container.resolved && Evaluate(container.registrations, "b").Err?
  {
    container := new DependencyContainer<int>();
    var first := container.Register("a", Some(Constant()), []);
    var second := container.Register("b", Some(Constant()), ["a"]);
    assert container.registrations == Pair();
    PairResolves();
    var value := container.Resolve("b");
    EdgeReaches(container.Dependencies(), "b", "a");
    container.Unregister("a");
    NoValueWithout("a");
  }
}
