/**
 * How often a chunk is tried (retry.ts): a task gives up exactly when its hundredth attempt fails,
 * and before that every failure is followed by another attempt.
 */
module WatcherRetries {
  import opened Watcher

  /** How many of the steps are failures of task `i`. */
  function Failures(steps: seq<Step>, i: nat): nat {
    if steps == [] then 0 else (if steps[0] == Fail(i) then 1 else 0) + Failures(steps[1..], i)
  }

  /** What a phase says about the failures so far. */
  predicate FitsPhase(active: bool, phase: Phase, failures: nat) {
    match phase
    case Queued => failures == 0
    case Requesting(attempt, _) => failures == attempt - 1 && attempt <= 100
    case Processing(attempt, _) => failures == attempt - 1 && attempt <= 100
    case AwaitingTxs(attempt, _, _) => failures == attempt - 1 && attempt <= 100
    case Sleeping(attempt) => failures == attempt && attempt < 100
    case Finished => failures < 100
    case Exhausted => failures == 100
    case Aborted => !active && failures <= 100
  }

  /** Task `i` has failed so often; one that does not exist yet has not. */
  predicate Fits(s: Watch, i: nat, failures: nat) {
    if i < |s.tasks| then FitsPhase(s.active, s.tasks[i].phase, failures) else failures == 0
  }

  lemma FitStep(c: Config, s: Watch, step: Step, i: nat, failures: nat)
    requires IsConfig(c) && Enabled(c, s, step) && Fits(s, i, failures)
    ensures Fits(Next(c, s, step), i, failures + if step == Fail(i) then 1 else 0)
  {
  }

  lemma {:induction false} FitRun(c: Config, s: Watch, steps: seq<Step>, i: nat, failures: nat)
    requires IsConfig(c) && IsRun(c, s, steps) && Fits(s, i, failures)
    ensures Fits(Exec(c, s, steps), i, failures + Failures(steps, i))
    decreases |steps|
  {
    if steps != [] {
      FitStep(c, s, steps[0], i, failures);
      FitRun(c, Next(c, s, steps[0]), steps[1..], i, failures + if steps[0] == Fail(i) then 1 else 0);
    }
  }

  /**
   * In every run, honest or not, a task is at the attempt after its failures, waits for another one
   * after fewer than a hundred, and is given up exactly when a hundred attempts have failed, unless
   * the watcher is shut down.
   */
  lemma GivesUpAfterHundred(c: Config, start: Watch, steps: seq<Step>, i: nat)
    requires IsConfig(c) && IsRun(c, start, steps) && start.tasks == [] && i < |Exec(c, start, steps).tasks|
    ensures var end := Exec(c, start, steps); var phase := end.tasks[i].phase;
            && FitsPhase(end.active, phase, Failures(steps, i))
            && (end.active ==> (phase.Exhausted? <==> Failures(steps, i) == 100))
  {
    FitRun(c, start, steps, i, 0);
  }
}
