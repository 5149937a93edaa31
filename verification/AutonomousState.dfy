/** Autonomous run state, its transitions, and the stopping conditions read off it
    (packages/autonomous/state.py and packages/autonomous/stopping.py). */
module AutonomousState {

  datatype Status = COMPLETED | FAILED

  /** One iteration record. `policyStop` is the `policy_stop` entry of its metadata. */
  datatype Iteration = Iteration(
    number: int, workflow: string, score: real, verification: string, status: Status, policyStop: bool)

  datatype State = State(current: int, workflows: seq<string>, iterations: seq<Iteration>, maxIterations: int)

  function Create(maxIterations: int): State {
    State(0, [], [], maxIterations)
  }

  function AdvanceIteration(s: State, iteration: Iteration): State {
    s.(current := s.current + 1,
       iterations := s.iterations + [iteration],
       workflows := s.workflows + [iteration.workflow])
  }

  function RecordFailure(s: State, iteration: Iteration): State {
    s.(iterations := s.iterations + [iteration],
       workflows := s.workflows + [iteration.workflow])
  }

  const GOAL_SCORE := 0.8
  const SUCCESS_STATUSES := ["PASSED", "COMPLETED", "SUCCESS"]
  const REPEATED_FAILURE_THRESHOLD := 3

  predicate GoalAchieved(s: State) {
    exists i :: 0 <= i < |s.iterations| && s.iterations[i].score >= GOAL_SCORE
  }

  predicate Verified(iteration: Iteration) {
    iteration.verification != "" && iteration.verification in SUCCESS_STATUSES
  }

  predicate VerificationSuccessful(s: State) {
    s.iterations != [] && Verified(s.iterations[|s.iterations| - 1])
  }

  predicate MaxIterationsReached(s: State) {
    s.current >= s.maxIterations
  }

  predicate RepeatedFailure(s: State) {
    && |s.iterations| >= REPEATED_FAILURE_THRESHOLD
    && forall i :: |s.iterations| - REPEATED_FAILURE_THRESHOLD <= i < |s.iterations| ==>
         s.iterations[i].status == FAILED
  }

  predicate PolicyRequestedStop(s: State) {
    s.iterations != [] && s.iterations[|s.iterations| - 1].policyStop
  }

  datatype Reason = GoalMet | VerificationPassed | IterationLimit | RepeatedFailures | PolicyStop

  function StoppingReasons(s: State): seq<Reason> {
    (if GoalAchieved(s) then [GoalMet] else []) +
    (if VerificationSuccessful(s) then [VerificationPassed] else []) +
    (if MaxIterationsReached(s) then [IterationLimit] else []) +
    (if RepeatedFailure(s) then [RepeatedFailures] else []) +
    (if PolicyRequestedStop(s) then [PolicyStop] else [])
  }

  predicate ShouldStop(s: State) {
    |StoppingReasons(s)| > 0
  }

  /** How many of the records have the given status. */
  function Count(records: seq<Iteration>, status: Status): nat {
    if records == [] then 0
    else Count(records[..|records| - 1], status) + (if records[|records| - 1].status == status then 1 else 0)
  }

  lemma {:induction false} EveryRecordIsCounted(records: seq<Iteration>)
    ensures Count(records, COMPLETED) + Count(records, FAILED) == |records|
  {
    if records != [] { EveryRecordIsCounted(records[..|records| - 1]); }
  }

  function ScoreSum(records: seq<Iteration>): real {
    if records == [] then 0.0 else ScoreSum(records[..|records| - 1]) + records[|records| - 1].score
  }

  datatype Statistics = Statistics(total: nat, successful: nat, failed: nat, workflowsExecuted: nat, averageScore: real)

  /** The counts add up, and the average is the exact mean of the scores. */
  ghost predicate StatisticsOf(s: State, stats: Statistics) {
    && stats.total == |s.iterations| == stats.successful + stats.failed
    && stats.successful == Count(s.iterations, COMPLETED)
    && stats.workflowsExecuted == |s.workflows|
    && stats.averageScore * stats.total as real == ScoreSum(s.iterations)
    && (stats.total == 0 ==> stats.averageScore == 0.0)
  }

  method GetStatistics(s: State) returns (stats: Statistics)
    ensures StatisticsOf(s, stats)
  {
    var successful, failed, sum := 0, 0, 0.0;
    for i := 0 to |s.iterations|
      invariant successful == Count(s.iterations[..i], COMPLETED)
      invariant failed == Count(s.iterations[..i], FAILED)
      invariant sum == ScoreSum(s.iterations[..i])
    {
      assert s.iterations[..i + 1][..i] == s.iterations[..i];
      if s.iterations[i].status == COMPLETED {
        successful := successful + 1;
      } else if s.iterations[i].status == FAILED {
        failed := failed + 1;
      }
      sum := sum + s.iterations[i].score;
    }
    assert s.iterations[..|s.iterations|] == s.iterations;
    EveryRecordIsCounted(s.iterations);
    var average := if s.iterations == [] then 0.0 else sum / |s.iterations| as real;
    stats := Statistics(|s.iterations|, successful, failed, |s.workflows|, average);
  }
}
