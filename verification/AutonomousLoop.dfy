/** The execution loop of packages/autonomous/engine.py.
    Adapters and policies are arbitrary functions of the state they see; every pass of the loop
    sees a different state, so they may behave differently on every pass. */
module AutonomousLoop {
  import opened AutonomousState

  datatype Decision = CONTINUE | STOP | SKIP

  /** What the adapters do in one iteration: raise before or after the score is read, or finish. */
  datatype Attempt =
    | RaisedBeforeScore
    | RaisedAfterScore(score: real)
    | Finished(score: real, verification: string)

  type Policy = State -> Decision
  type Adapters = (State, string) -> Attempt

  datatype Setup = Setup(sequence: seq<string>, policies: seq<Policy>, adapters: Adapters)

  /** The loop's variables: the state and the pre-computed policy results still unused. */
  datatype Config = Config(state: State, results: seq<Decision>)

  function Perform(s: State, workflow: string, attempt: Attempt): Iteration {
    match attempt
    case RaisedBeforeScore => Iteration(s.current + 1, workflow, 0.0, "SKIPPED", FAILED, false)
    case RaisedAfterScore(score) => Iteration(s.current + 1, workflow, score, "SKIPPED", FAILED, false)
    case Finished(score, verification) =>
      Iteration(s.current + 1, workflow, score, verification, if score >= 0.5 then COMPLETED else FAILED, false)
  }

  function Record(s: State, iteration: Iteration): State {
    if iteration.status == FAILED then RecordFailure(s, iteration) else AdvanceIteration(s, iteration)
  }

  function NextWorkflow(sequence: seq<string>, s: State): string
    requires sequence != [] && 0 <= s.current
  {
    sequence[s.current % |sequence|]
  }

  datatype ScanResult = ScanResult(stopped: bool, results: seq<Decision>)

  /** Policies in order, each answered by the next pre-computed result while there is one.
      SKIP ends the scan like CONTINUE past the last policy: the workflow still runs. */
  function Scan(policies: seq<Policy>, s: State, results: seq<Decision>): ScanResult {
    if policies == [] then ScanResult(false, results)
    else
      var decision := if results != [] then results[0] else policies[0](s);
      var rest := if results != [] then results[1..] else results;
      match decision
      case STOP => ScanResult(true, rest)
      case SKIP => ScanResult(false, rest)
      case CONTINUE => Scan(policies[1..], s, rest)
  }

  /** The answer of policy `i`: the pre-computed result in its place, or its own. */
  function Answer(policies: seq<Policy>, s: State, results: seq<Decision>, i: nat): Decision
    requires i < |policies|
  {
    if i < |results| then results[i] else policies[i](s)
  }

  /** The first `k` policies let the run go on. */
  ghost predicate AllContinue(policies: seq<Policy>, s: State, results: seq<Decision>, k: nat)
    requires k <= |policies|
  {
    forall j :: 0 <= j < k ==> Answer(policies, s, results, j) == CONTINUE
  }

  /** Some policy stops the run before another one says anything but CONTINUE. */
  ghost predicate SomeoneStops(policies: seq<Policy>, s: State, results: seq<Decision>) {
    exists i :: 0 <= i < |policies| && Answer(policies, s, results, i) == STOP && AllContinue(policies, s, results, i)
  }

  /** The scan asks `asked` policies: up to the first that does not say CONTINUE, or all. */
  ghost predicate Asks(policies: seq<Policy>, s: State, results: seq<Decision>, asked: nat) {
    && asked <= |policies|
    && (asked > 0 ==> AllContinue(policies, s, results, asked - 1))
    && (asked < |policies| ==> asked > 0 && Answer(policies, s, results, asked - 1) != CONTINUE)
  }

  /** What is left of the pre-computed results: one was used up for each policy asked. */
  ghost predicate Leaves(policies: seq<Policy>, s: State, results: seq<Decision>, left: seq<Decision>) {
    exists asked: nat :: Asks(policies, s, results, asked)
                         && left == results[if asked <= |results| then asked else |results|..]
  }

  function Later(results: seq<Decision>): seq<Decision> {
    if results == [] then [] else results[1..]
  }

  lemma LaterAnswers(policies: seq<Policy>, s: State, results: seq<Decision>)
    requires policies != []
    ensures forall j :: 0 <= j < |policies| - 1 ==>
              Answer(policies[1..], s, Later(results), j) == Answer(policies, s, results, j + 1)
  {
  }

  lemma OneMoreAsked(policies: seq<Policy>, s: State, results: seq<Decision>, asked: nat)
    requires policies != [] && Answer(policies, s, results, 0) == CONTINUE
    requires Asks(policies[1..], s, Later(results), asked)
    ensures Asks(policies, s, results, asked + 1)
  {
    LaterAnswers(policies, s, results);
    forall j | 0 <= j < asked ensures Answer(policies, s, results, j) == CONTINUE {
      if j > 0 { assert Answer(policies[1..], s, Later(results), j - 1) == CONTINUE; }
    }
  }

  lemma ScanStep(policies: seq<Policy>, s: State, results: seq<Decision>)
    requires policies != []
    ensures var first := Answer(policies, s, results, 0);
            Scan(policies, s, results) ==
              if first == CONTINUE then Scan(policies[1..], s, Later(results))
              else ScanResult(first == STOP, Later(results))
  {
  }

  lemma NothingOrOneAsked(policies: seq<Policy>, s: State, results: seq<Decision>)
    ensures policies == [] ==> Asks(policies, s, results, 0)
    ensures policies != [] && Answer(policies, s, results, 0) != CONTINUE ==> Asks(policies, s, results, 1)
  {
  }

  lemma DropOneMore(results: seq<Decision>, asked: nat)
    ensures var later := Later(results);
            later[if asked <= |later| then asked else |later|..] ==
            results[if asked + 1 <= |results| then asked + 1 else |results|..]
  {
  }

  /** The scan asks policies in order and reports whether the last one asked said STOP. */
  lemma {:induction false} ScanAsks(policies: seq<Policy>, s: State, results: seq<Decision>) returns (asked: nat)
    ensures Asks(policies, s, results, asked)
    ensures Scan(policies, s, results).results == results[if asked <= |results| then asked else |results|..]
    ensures Scan(policies, s, results).stopped <==> asked > 0 && Answer(policies, s, results, asked - 1) == STOP
  {
    NothingOrOneAsked(policies, s, results);
    if policies == [] {
      asked := 0;
    } else {
      ScanStep(policies, s, results);
      if Answer(policies, s, results, 0) != CONTINUE {
        hide Scan, Asks, AllContinue;
        asked := 1;
      } else {
        hide Scan, AllContinue, Later;
        asked := ScanAsks(policies[1..], s, Later(results));
        DropOneMore(results, asked);
        OneMoreAsked(policies, s, results, asked);
        LaterAnswers(policies, s, results);
        asked := asked + 1;
      }
    }
  }

  lemma OnlyOneEnd(policies: seq<Policy>, s: State, results: seq<Decision>, asked: nat, i: nat)
    requires Asks(policies, s, results, asked)
    requires i < |policies| && AllContinue(policies, s, results, i) && Answer(policies, s, results, i) != CONTINUE
    ensures asked == i + 1
  {
  }

  /** The scan stops the run exactly when some policy says STOP and every earlier one CONTINUE. */
  lemma ScanStopsIff(policies: seq<Policy>, s: State, results: seq<Decision>)
    ensures Scan(policies, s, results).stopped <==> SomeoneStops(policies, s, results)
    ensures Leaves(policies, s, results, Scan(policies, s, results).results)
  {
    var asked := ScanAsks(policies, s, results);
    if SomeoneStops(policies, s, results) {
      var i :| 0 <= i < |policies| && Answer(policies, s, results, i) == STOP && AllContinue(policies, s, results, i);
      OnlyOneEnd(policies, s, results, asked, i);
    }
  }

  function TrailingFailures(records: seq<Iteration>): nat {
    if records == [] || records[|records| - 1].status == COMPLETED then 0
    else 1 + TrailingFailures(records[..|records| - 1])
  }

  lemma {:induction false} AtMostLength(records: seq<Iteration>)
    ensures TrailingFailures(records) <= |records|
  {
    if records != [] { AtMostLength(records[..|records| - 1]); }
  }

  lemma RepeatedFailureIffThreeTrailing(s: State)
    ensures RepeatedFailure(s) <==> TrailingFailures(s.iterations) >= 3
  {
    var r := s.iterations;
    if |r| >= 3 {
      var r1, r2 := r[..|r| - 1], r[..|r| - 2];
      assert r1[..|r1| - 1] == r2;
      assert r1[|r1| - 1] == r[|r| - 2] && r2[|r2| - 1] == r[|r| - 3];
      assert TrailingFailures(r2) >= 1 <==> r2[|r2| - 1].status == FAILED;
    } else {
      AtMostLength(r);
    }
  }

  /** Iterations still allowed. */
  function Remaining(s: State): nat {
    if s.maxIterations <= s.current then 0 else s.maxIterations - s.current
  }

  /** One iteration's effect on the measure: failures do not advance the counter, so they
      have to use up the failures still tolerated. */
  lemma RecordingMakesProgress(s: State, iteration: Iteration)
    requires !ShouldStop(s)
    ensures TrailingFailures(s.iterations) < 3
    ensures var s' := Record(s, iteration);
            Remaining(s') < Remaining(s) ||
            (Remaining(s') == Remaining(s) && TrailingFailures(s'.iterations) == TrailingFailures(s.iterations) + 1)
  {
    RepeatedFailureIffThreeTrailing(s);
    assert (s.iterations + [iteration])[..|s.iterations|] == s.iterations;
  }

  datatype Outcome = Halt(results: seq<Decision>) | Next(config: Config)

  /** One pass of the loop. */
  function Pass(setup: Setup, c: Config): Outcome
    requires 0 <= c.state.current
  {
    if ShouldStop(c.state) then Halt(c.results)
    else
      var scan := Scan(setup.policies, c.state, c.results);
      if scan.stopped || setup.sequence == [] then Halt(scan.results)
      else
        var workflow := NextWorkflow(setup.sequence, c.state);
        Next(Config(Record(c.state, Perform(c.state, workflow, setup.adapters(c.state, workflow))), scan.results))
  }

  /** The configuration in which the loop ends. */
  function Run(setup: Setup, c: Config): (final: Config)
    requires 0 <= c.state.current
    ensures 0 <= final.state.current && final.state.maxIterations == c.state.maxIterations
    decreases Remaining(c.state), 3 - TrailingFailures(c.state.iterations)
  {
    match Pass(setup, c)
    case Halt(results) => c.(results := results)
    case Next(c') =>
      var workflow := NextWorkflow(setup.sequence, c.state);
      RecordingMakesProgress(c.state, Perform(c.state, workflow, setup.adapters(c.state, workflow)));
      Run(setup, c')
  }

  datatype FinalStatus = EMPTY | ACHIEVED | PARTIAL | UNSUCCESSFUL

  function DetermineFinalStatus(s: State): FinalStatus {
    if s.iterations == [] then EMPTY
    else if exists i :: 0 <= i < |s.iterations| && s.iterations[i].score >= 0.8 then ACHIEVED
    else if exists i :: 0 <= i < |s.iterations| && s.iterations[i].status == COMPLETED then PARTIAL
    else UNSUCCESSFUL
  }

  /** The state as it was before record `k`. */
  ghost function Before(s: State, k: nat): State
    requires k <= |s.iterations| && k <= |s.workflows|
  {
    State(Count(s.iterations[..k], COMPLETED), s.workflows[..k], s.iterations[..k], s.maxIterations)
  }

  ghost predicate RecordedRightly(sequence: seq<string>, s: State, k: nat)
    requires k < |s.iterations| && |s.workflows| == |s.iterations|
  {
    && sequence != []
    && s.iterations[k].workflow == s.workflows[k] == sequence[Count(s.iterations[..k], COMPLETED) % |sequence|]
    && s.iterations[k].number == Count(s.iterations[..k], COMPLETED) + 1
    && !s.iterations[k].policyStop
    && !ShouldStop(Before(s, k))
  }

  /** What every state of a run satisfies: the counter is the number of completed records, the
      workflow list names the records, and each record was made when nothing asked to stop, for the
      workflow and number that the records completed before it call for. */
  ghost predicate Reachable(sequence: seq<string>, s: State) {
    && |s.workflows| == |s.iterations|
    && s.current == Count(s.iterations, COMPLETED)
    && forall k :: 0 <= k < |s.iterations| ==> RecordedRightly(sequence, s, k)
  }

  lemma EarlierRecordStays(sequence: seq<string>, s: State, s': State, k: nat)
    requires Reachable(sequence, s) && k < |s.iterations| && |s'.workflows| == |s'.iterations|
    requires s.iterations <= s'.iterations && s.workflows <= s'.workflows && s.maxIterations == s'.maxIterations
    ensures RecordedRightly(sequence, s', k)
  {
    assert RecordedRightly(sequence, s, k);
    assert s'.iterations[..k] == s.iterations[..k] && s'.workflows[..k] == s.workflows[..k];
  }

  lemma NewRecordIsRight(sequence: seq<string>, s: State, attempt: Attempt)
    requires Reachable(sequence, s) && !ShouldStop(s) && sequence != []
    ensures var s' := Record(s, Perform(s, NextWorkflow(sequence, s), attempt));
            && |s'.iterations| == |s'.workflows| == |s.iterations| + 1 && s'.maxIterations == s.maxIterations
            && s.iterations <= s'.iterations && s.workflows <= s'.workflows
            && s'.current == Count(s'.iterations, COMPLETED) && RecordedRightly(sequence, s', |s.iterations|)
  {
    var s' := Record(s, Perform(s, NextWorkflow(sequence, s), attempt));
    var n := |s.iterations|;
    assert s'.iterations[..n] == s.iterations && s'.workflows[..n] == s.workflows;
    assert Before(s', n) == s;
  }

  lemma RecordKeepsReachable(sequence: seq<string>, s: State, attempt: Attempt)
    requires Reachable(sequence, s) && !ShouldStop(s) && sequence != []
    ensures Reachable(sequence, Record(s, Perform(s, NextWorkflow(sequence, s), attempt)))
  {
    var s' := Record(s, Perform(s, NextWorkflow(sequence, s), attempt));
    NewRecordIsRight(sequence, s, attempt);
    forall k | 0 <= k < |s.iterations| ensures RecordedRightly(sequence, s', k) {
      EarlierRecordStays(sequence, s, s', k);
    }
  }

  /** Every run keeps the invariant. */
  lemma {:induction false} RunKeepsReachable(setup: Setup, c: Config)
    requires Reachable(setup.sequence, c.state)
    ensures Reachable(setup.sequence, Run(setup, c).state)
    decreases Remaining(c.state), 3 - TrailingFailures(c.state.iterations)
  {
    if Pass(setup, c).Next? {
      var workflow := NextWorkflow(setup.sequence, c.state);
      var attempt := setup.adapters(c.state, workflow);
      RecordingMakesProgress(c.state, Perform(c.state, workflow, attempt));
      RecordKeepsReachable(setup.sequence, c.state, attempt);
      RunKeepsReachable(setup, Pass(setup, c).config);
    }
  }

  lemma FinalIsReachable(setup: Setup, maxIterations: int, results: seq<Decision>)
    ensures Reachable(setup.sequence, Run(setup, Config(Create(maxIterations), results)).state)
  {
    RunKeepsReachable(setup, Config(Create(maxIterations), results));
  }

  /** Between two completed records there are at most two failed ones. */
  lemma {:induction false} AtMostThreePerCompletion(sequence: seq<string>, s: State, k: nat)
    requires Reachable(sequence, s) && k <= |s.iterations|
    ensures k <= 3 * Count(s.iterations[..k], COMPLETED) + TrailingFailures(s.iterations[..k])
  {
    if k > 0 {
      AtMostThreePerCompletion(sequence, s, k - 1);
      assert RecordedRightly(sequence, s, k - 1);
      RepeatedFailureIffThreeTrailing(Before(s, k - 1));
      assert s.iterations[..k][..k - 1] == s.iterations[..k - 1];
    }
  }

  lemma ReachableIsBounded(sequence: seq<string>, s: State)
    requires Reachable(sequence, s)
    ensures |s.iterations| <= 3 * (if s.maxIterations > 0 then s.maxIterations else 0)
  {
    var n := |s.iterations|;
    if n > 0 {
      AtMostThreePerCompletion(sequence, s, n - 1);
      assert RecordedRightly(sequence, s, n - 1);
      RepeatedFailureIffThreeTrailing(Before(s, n - 1));
    }
  }

  /** A run records at most three iterations for each one the goal allows. */
  lemma RunIsBounded(setup: Setup, maxIterations: int, results: seq<Decision>)
    ensures |Run(setup, Config(Create(maxIterations), results)).state.iterations|
            <= 3 * (if maxIterations > 0 then maxIterations else 0)
  {
    FinalIsReachable(setup, maxIterations, results);
    ReachableIsBounded(setup.sequence, Run(setup, Config(Create(maxIterations), results)).state);
  }

  /** Every record but the last missed the goal score and failed verification, and three failures
      in a row are the end of the run. */
  lemma OnlyTheLastRecordStops(sequence: seq<string>, s: State, k: nat)
    requires Reachable(sequence, s) && k + 1 < |s.iterations|
    ensures s.iterations[k].score < GOAL_SCORE && !Verified(s.iterations[k])
    ensures k >= 2 ==> exists j :: k - 2 <= j <= k && s.iterations[j].status == COMPLETED
  {
    assert RecordedRightly(sequence, s, k + 1);
    var before := Before(s, k + 1);
    assert before.iterations[k] == s.iterations[k];
    if k >= 2 {
      assert !RepeatedFailure(before);
      var j :| k - 2 <= j <= k && before.iterations[j].status != FAILED;
      assert s.iterations[j].status == COMPLETED;
    }
  }

  /** A failed workflow is the one tried next, under the same number. */
  lemma FailureIsRetried(sequence: seq<string>, s: State, k: nat)
    requires Reachable(sequence, s) && k + 1 < |s.iterations|
    ensures s.iterations[k].status == FAILED ==>
              s.iterations[k + 1].workflow == s.iterations[k].workflow &&
              s.iterations[k + 1].number == s.iterations[k].number
    ensures s.iterations[k].status == COMPLETED ==> s.iterations[k + 1].number == s.iterations[k].number + 1
  {
    assert RecordedRightly(sequence, s, k) && RecordedRightly(sequence, s, k + 1);
    assert s.iterations[..k + 1][..k] == s.iterations[..k];
  }

  lemma {:induction false} CountsSome(records: seq<Iteration>)
    ensures Count(records, COMPLETED) > 0 <==> exists i :: 0 <= i < |records| && records[i].status == COMPLETED
  {
    if records != [] {
      var front := records[..|records| - 1];
      CountsSome(front);
      assert forall i :: 0 <= i < |front| ==> front[i] == records[i];
    }
  }

  /** The report status is decided by the last record alone, although the code scans them all;
      and a run is reported as unsuccessful only after at most three records. */
  lemma StatusReadsTheLastRecord(sequence: seq<string>, s: State)
    requires Reachable(sequence, s)
    ensures DetermineFinalStatus(s) == EMPTY <==> s.iterations == []
    ensures DetermineFinalStatus(s) == ACHIEVED <==>
              s.iterations != [] && s.iterations[|s.iterations| - 1].score >= GOAL_SCORE
    ensures DetermineFinalStatus(s) == PARTIAL <==>
              && Count(s.iterations, COMPLETED) > 0 && s.iterations[|s.iterations| - 1].score < GOAL_SCORE
    ensures DetermineFinalStatus(s) == UNSUCCESSFUL ==> |s.iterations| <= 3
  {
    forall k | 0 <= k < |s.iterations| - 1 ensures s.iterations[k].score < GOAL_SCORE {
      OnlyTheLastRecordStops(sequence, s, k);
    }
    CountsSome(s.iterations);
    if |s.iterations| > 3 {
      OnlyTheLastRecordStops(sequence, s, 2);
    }
  }

  ghost predicate NeverStops(setup: Setup, results: seq<Decision>) {
    STOP !in results && forall i, s :: 0 <= i < |setup.policies| ==> setup.policies[i](s) != STOP
  }

  lemma {:induction false} ScanNeverStops(policies: seq<Policy>, s: State, results: seq<Decision>)
    requires STOP !in results && forall i :: 0 <= i < |policies| ==> policies[i](s) != STOP
    ensures !Scan(policies, s, results).stopped && STOP !in Scan(policies, s, results).results
  {
    if policies != [] {
      ScanNeverStops(policies[1..], s, if results != [] then results[1..] else results);
    }
  }

  /** Unless a policy stops it or nothing is planned, a run ends only in a stopping condition. */
  lemma {:induction false} RunEndsForAReason(setup: Setup, c: Config)
    requires 0 <= c.state.current && setup.sequence != [] && NeverStops(setup, c.results)
    ensures ShouldStop(Run(setup, c).state)
    decreases Remaining(c.state), 3 - TrailingFailures(c.state.iterations)
  {
    if !ShouldStop(c.state) {
      ScanNeverStops(setup.policies, c.state, c.results);
      var workflow := NextWorkflow(setup.sequence, c.state);
      RecordingMakesProgress(c.state, Perform(c.state, workflow, setup.adapters(c.state, workflow)));
      RunEndsForAReason(setup, Pass(setup, c).config);
    }
  }

  /** Adapters that fail twice and then complete, again and again, without reaching the goal. */
  function Stubborn(): Setup {
    Setup(["workflow"], [], (s: State, w: string) => Finished(if |s.iterations| % 3 == 2 then 0.5 else 0.0, "UNKNOWN"))
  }

  /** The state of that run after `k` records. */
  ghost function StubbornState(maxIterations: int, k: nat): State {
    if k == 0 then Create(maxIterations)
    else
      var s := StubbornState(maxIterations, k - 1);
      Record(s, Perform(s, "workflow", Finished(if (k - 1) % 3 == 2 then 0.5 else 0.0, "UNKNOWN")))
  }

  lemma NotASuccessStatus()
    ensures "UNKNOWN" !in SUCCESS_STATUSES
  {
    assert |"UNKNOWN"| == 7 && "UNKNOWN"[0] == 'U';
  }

  lemma {:induction false} StubbornShape(maxIterations: int, k: nat)
    ensures var s := StubbornState(maxIterations, k);
            && |s.iterations| == k && s.current == k / 3 && s.maxIterations == maxIterations
            && TrailingFailures(s.iterations) == k % 3
            && forall i :: 0 <= i < k ==>
                 s.iterations[i].score < GOAL_SCORE && !Verified(s.iterations[i]) && !s.iterations[i].policyStop
  {
    if k > 0 {
      StubbornShape(maxIterations, k - 1);
      var s, t := StubbornState(maxIterations, k - 1), StubbornState(maxIterations, k);
      var last := Perform(s, "workflow", Finished(if (k - 1) % 3 == 2 then 0.5 else 0.0, "UNKNOWN"));
      assert t.iterations == s.iterations + [last];
      assert t.iterations[..k - 1] == s.iterations;
      NotASuccessStatus();
    }
  }

  lemma StubbornPass(maxIterations: nat, k: nat)
    ensures var s := StubbornState(maxIterations, k);
            && s.current >= 0
            && (k < 3 * maxIterations
               ==> Pass(Stubborn(), Config(s, [])) == Next(Config(StubbornState(maxIterations, k + 1), [])))
            && (k == 3 * maxIterations ==> Pass(Stubborn(), Config(s, [])) == Halt([]))
  {
    var s := StubbornState(maxIterations, k);
    StubbornShape(maxIterations, k);
    RepeatedFailureIffThreeTrailing(s);
    if k < 3 * maxIterations {
      assert !GoalAchieved(s) && !VerificationSuccessful(s) && !MaxIterationsReached(s) && !PolicyRequestedStop(s);
      assert StoppingReasons(s) == [];
      assert Scan([], s, []) == ScanResult(false, []);
      assert NextWorkflow(["workflow"], s) == "workflow";
    } else if k == 3 * maxIterations {
      assert MaxIterationsReached(s);
    }
  }

  lemma RunUnfolds(setup: Setup, c: Config, c': Config)
    requires 0 <= c.state.current && 0 <= c'.state.current && Pass(setup, c) == Next(c')
    ensures Run(setup, c) == Run(setup, c')
  {
  }

  lemma {:induction false} StubbornRun(maxIterations: nat, k: nat)
    requires k <= 3 * maxIterations
    ensures StubbornState(maxIterations, k).current >= 0
    ensures Run(Stubborn(), Config(StubbornState(maxIterations, k), [])).state
            == StubbornState(maxIterations, 3 * maxIterations)
    decreases 3 * maxIterations - k
  {
    StubbornPass(maxIterations, k);
    if k < 3 * maxIterations {
      StubbornRun(maxIterations, k + 1);
      RunUnfolds(Stubborn(), Config(StubbornState(maxIterations, k), []),
                 Config(StubbornState(maxIterations, k + 1), []));
    }
  }

  /** The bound of `RunIsBounded` is reached, for every limit. */
  lemma BoundIsTight(maxIterations: nat)
    ensures |Run(Stubborn(), Config(Create(maxIterations), [])).state.iterations| == 3 * maxIterations
  {
    StubbornRun(maxIterations, 0);
    StubbornShape(maxIterations, 3 * maxIterations);
  }

  // What a run records, and where it ends.

  /** The state gives this reason to stop. */
  ghost predicate Gives(s: State, reason: Reason) {
    match reason
    case GoalMet => exists i :: 0 <= i < |s.iterations| && s.iterations[i].score >= 0.8
    case VerificationPassed =>
      s.iterations != [] && s.iterations[|s.iterations| - 1].verification in ["PASSED", "COMPLETED", "SUCCESS"]
    case IterationLimit => s.current >= s.maxIterations
    case RepeatedFailures => TrailingFailures(s.iterations) >= 3
    case PolicyStop => s.iterations != [] && s.iterations[|s.iterations| - 1].policyStop
  }

  lemma ReasonIff(s: State, reason: Reason)
    ensures reason in StoppingReasons(s) <==> Gives(s, reason)
  {
    RepeatedFailureIffThreeTrailing(s);
    assert "" !in SUCCESS_STATUSES;
  }

  /** A state asks to stop exactly when it gives one of the five reasons. */
  lemma ShouldStopIff(s: State)
    ensures ShouldStop(s) <==> exists reason :: Gives(s, reason)
    ensures forall reason :: reason in StoppingReasons(s) <==> Gives(s, reason)
  {
    hide StoppingReasons, Gives;
    forall reason ensures reason in StoppingReasons(s) <==> Gives(s, reason) { ReasonIff(s, reason); }
    if StoppingReasons(s) != [] { assert StoppingReasons(s)[0] in StoppingReasons(s); }
  }

  /** The record says what the adapters did: their score and verification if they finished, the score alone
      if they raised after it, and nothing before. */
  ghost predicate RecordSays(setup: Setup, s: State, record: Iteration) {
    match setup.adapters(s, record.workflow)
    case RaisedBeforeScore => record.score == 0.0 && record.verification == "SKIPPED" && record.status == FAILED
    case RaisedAfterScore(score) => record.score == score && record.verification == "SKIPPED" && record.status == FAILED
    case Finished(score, verification) =>
      record.score == score && record.verification == verification && (record.status == COMPLETED <==> score >= 0.5)
  }

  /** Before record `k` no policy stopped the run, the policies used up the results between `left[k]` and
      `left[k + 1]`, and the record says what the adapters then did. */
  ghost predicate RecordedAfter(setup: Setup, s: State, left: seq<seq<Decision>>, k: nat)
    requires k < |s.iterations| && |s.workflows| == |s.iterations| && |left| == |s.iterations| + 1
  {
    && !SomeoneStops(setup.policies, Before(s, k), left[k])
    && Leaves(setup.policies, Before(s, k), left[k], left[k + 1])
    && RecordSays(setup, Before(s, k), s.iterations[k])
  }

  /** The records of a state, each with the results left before it. */
  ghost predicate History(setup: Setup, results: seq<Decision>, s: State, left: seq<seq<Decision>>) {
    && Reachable(setup.sequence, s)
    && |left| == |s.iterations| + 1 && left[0] == results
    && forall k :: 0 <= k < |s.iterations| ==> RecordedAfter(setup, s, left, k)
  }

  /** The run ended here because the state asks to stop, or a policy stopped it, or nothing is planned. */
  ghost predicate EndsAt(setup: Setup, s: State, left: seq<Decision>, results: seq<Decision>) {
    if ShouldStop(s) then results == left
    else
      && (SomeoneStops(setup.policies, s, left) || setup.sequence == [])
      && Leaves(setup.policies, s, left, results)
  }

  lemma EarlierRecordSays(setup: Setup, s: State, s': State, left: seq<seq<Decision>>, next: seq<Decision>, k: nat)
    requires k < |s.iterations| && |s.workflows| == |s.iterations| && |left| == |s.iterations| + 1
    requires |s'.iterations| == |s'.workflows| == |s.iterations| + 1 && s'.maxIterations == s.maxIterations
    requires s.iterations <= s'.iterations && s.workflows <= s'.workflows
    requires RecordedAfter(setup, s, left, k)
    ensures RecordedAfter(setup, s', left + [next], k)
  {
    assert s'.iterations[..k] == s.iterations[..k] && s'.workflows[..k] == s.workflows[..k];
  }

  /** A whole reachable state is its own state before the next record. */
  lemma BeforeTheNext(sequence: seq<string>, s: State, s': State)
    requires Reachable(sequence, s) && |s'.iterations| == |s'.workflows| == |s.iterations| + 1
    requires s.iterations <= s'.iterations && s.workflows <= s'.workflows && s'.maxIterations == s.maxIterations
    ensures Before(s', |s.iterations|) == s
  {
    var n := |s.iterations|;
    assert s'.iterations[..n] == s.iterations && s'.workflows[..n] == s.workflows;
  }

  lemma NewRecordSays(setup: Setup, s: State)
    requires setup.sequence != [] && 0 <= s.current
    ensures var workflow := NextWorkflow(setup.sequence, s);
            var s' := Record(s, Perform(s, workflow, setup.adapters(s, workflow)));
            && s'.iterations == s.iterations + [Perform(s, workflow, setup.adapters(s, workflow))]
            && RecordSays(setup, s, s'.iterations[|s.iterations|])
  {
  }

  lemma HistoryGrows(setup: Setup, results: seq<Decision>, c: Config, left: seq<seq<Decision>>, next: Config)
    requires History(setup, results, c.state, left) && left[|c.state.iterations|] == c.results
    requires Pass(setup, c) == Next(next)
    ensures History(setup, results, next.state, left + [next.results])
  {
    var s, s' := c.state, next.state;
    var attempt := setup.adapters(s, NextWorkflow(setup.sequence, s));
    NewRecordIsRight(setup.sequence, s, attempt);
    RecordKeepsReachable(setup.sequence, s, attempt);
    forall k | 0 <= k < |s.iterations| ensures RecordedAfter(setup, s', left + [next.results], k) {
      EarlierRecordSays(setup, s, s', left, next.results, k);
    }
    BeforeTheNext(setup.sequence, s, s');
    NewRecordSays(setup, s);
    ScanStopsIff(setup.policies, s, c.results);
  }

  /** Every run has such a history, and ends for one of these reasons. */
  lemma {:induction false} RunHasHistory(setup: Setup, results: seq<Decision>, c: Config, left: seq<seq<Decision>>)
    returns (all: seq<seq<Decision>>)
    requires History(setup, results, c.state, left) && left[|c.state.iterations|] == c.results
    ensures var final := Run(setup, c);
            && History(setup, results, final.state, all)
            && EndsAt(setup, final.state, all[|final.state.iterations|], final.results)
    decreases Remaining(c.state), 3 - TrailingFailures(c.state.iterations)
  {
    match Pass(setup, c)
    case Halt(_) =>
      all := left;
      ScanStopsIff(setup.policies, c.state, c.results);
    case Next(next) =>
      var workflow := NextWorkflow(setup.sequence, c.state);
      RecordingMakesProgress(c.state, Perform(c.state, workflow, setup.adapters(c.state, workflow)));
      HistoryGrows(setup, results, c, left, next);
      all := RunHasHistory(setup, results, next, left + [next.results]);
  }

  /** A run with this history ends in this state, with these results unused. */
  ghost predicate Explains(setup: Setup, maxIterations: int, results: seq<Decision>, final: Config) {
    && final.state.maxIterations == maxIterations
    && exists left :: History(setup, results, final.state, left)
                      && EndsAt(setup, final.state, left[|final.state.iterations|], final.results)
  }

  /** What a whole run does, record by record: no record follows a state that asks to stop or whose policies stop
      the run, each says what its workflow's adapters did, and the run ends in the first state that does. */
  lemma RunIsExplained(setup: Setup, maxIterations: int, results: seq<Decision>)
    ensures Explains(setup, maxIterations, results, Run(setup, Config(Create(maxIterations), results)))
  {
    var start := Config(Create(maxIterations), results);
    assert History(setup, results, start.state, [results]);
    var left := RunHasHistory(setup, results, start, [results]);
  }

  lemma {:induction false} RunOnlyAdds(setup: Setup, c: Config)
    requires 0 <= c.state.current
    ensures c.state.iterations <= Run(setup, c).state.iterations
    decreases Remaining(c.state), 3 - TrailingFailures(c.state.iterations)
  {
    if Pass(setup, c).Next? {
      var workflow := NextWorkflow(setup.sequence, c.state);
      RecordingMakesProgress(c.state, Perform(c.state, workflow, setup.adapters(c.state, workflow)));
      NewRecordSays(setup, c.state);
      RunOnlyAdds(setup, Pass(setup, c).config);
    }
  }

  /** A run records something exactly when an iteration is allowed, a workflow is planned, and no policy stops it. */
  lemma RecordsSomethingIff(setup: Setup, maxIterations: int, results: seq<Decision>)
    ensures Run(setup, Config(Create(maxIterations), results)).state.iterations != []
            <==> maxIterations > 0 && setup.sequence != []
                 && !SomeoneStops(setup.policies, Create(maxIterations), results)
  {
    var start := Config(Create(maxIterations), results);
    ScanStopsIff(setup.policies, start.state, results);
    ShouldStopIff(start.state);
    if Pass(setup, start).Next? {
      var next := Pass(setup, start).config;
      NewRecordSays(setup, start.state);
      RunUnfolds(setup, start, next);
      RunOnlyAdds(setup, next);
    }
  }

  datatype Report = Report(status: FinalStatus, iterations: seq<Iteration>, statistics: Statistics)

  class AutonomousEngine {
    var policyResults: seq<Decision>

    constructor (policyResults: seq<Decision>)
      ensures this.policyResults == policyResults
    {
      this.policyResults := policyResults;
    }

    method EvaluatePolicy(policy: Policy, s: State) returns (decision: Decision)
      modifies this
      ensures decision == if old(policyResults) != [] then old(policyResults)[0] else policy(s)
      ensures policyResults == if old(policyResults) != [] then old(policyResults)[1..] else old(policyResults)
    {
      if policyResults != [] {
        decision := policyResults[0];
        policyResults := policyResults[1..];
      } else {
        decision := policy(s);
      }
    }

    method CheckPolicies(policies: seq<Policy>, s: State) returns (stopped: bool)
      modifies this
      ensures ScanResult(stopped, policyResults) == Scan(policies, s, old(policyResults))
      ensures stopped <==> SomeoneStops(policies, s, old(policyResults))
      ensures Leaves(policies, s, old(policyResults), policyResults)
    {
      ScanStopsIff(policies, s, policyResults);
      for i := 0 to |policies|
        invariant Scan(policies[i..], s, policyResults) == Scan(policies, s, old(policyResults))
      {
        assert policies[i..][1..] == policies[i + 1..];
        var decision := EvaluatePolicy(policies[i], s);
        if decision == STOP { return true; }
        if decision == SKIP { return false; }
      }
      return false;
    }

    method Loop(setup: Setup, start: State) returns (state: State)
      requires 0 <= start.current
      modifies this
      ensures Config(state, policyResults) == Run(setup, Config(start, old(policyResults)))
    {
      state := start;
      while true
        invariant 0 <= state.current
        invariant Run(setup, Config(state, policyResults)) == Run(setup, Config(start, old(policyResults)))
        decreases Remaining(state), 3 - TrailingFailures(state.iterations)
      {
        if ShouldStop(state) { break; }
        var stopped := CheckPolicies(setup.policies, state);
        if stopped || setup.sequence == [] { break; }
        var workflow := NextWorkflow(setup.sequence, state);
        var iteration := Perform(state, workflow, setup.adapters(state, workflow));
        RecordingMakesProgress(state, iteration);
        if iteration.status == FAILED {
          state := RecordFailure(state, iteration);
        } else {
          state := AdvanceIteration(state, iteration);
        }
      }
    }

    method Execute(maxIterations: int, setup: Setup) returns (report: Report)
      modifies this
      ensures var final := Run(setup, Config(Create(maxIterations), old(policyResults)));
              && report.iterations == final.state.iterations && policyResults == final.results
              && report.status == DetermineFinalStatus(final.state)
              && StatisticsOf(final.state, report.statistics)
              && Explains(setup, maxIterations, old(policyResults), final)
    {
      RunIsExplained(setup, maxIterations, policyResults);
      var state := Loop(setup, Create(maxIterations));
      var statistics := GetStatistics(state);
      report := Report(DetermineFinalStatus(state), state.iterations, statistics);
    }
  }
}
