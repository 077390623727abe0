/**
 * internal/composition/executor.go: running a planned composition. The steps of
 * a wave run as goroutines that share one results map; here each is a little
 * program counter machine whose atomic steps are the lock sections of
 * executeStepWithErrorHandling, and a schedule is any interleaving of them.
 *
 * Evaluate is the meaning of a composition: a recursive evaluator that never
 * mentions waves, goroutines or the results map.
 */
module Execution {
  import opened Wrappers
  import opened Sorting
  import opened DependencyGraph

  datatype StepResult = StepResult(status: int, body: string, errorRuleMatched: bool)

  /** The results map; None is a nil entry. */
  type Results = map<string, Option<StepResult>>

  /** What an expression sees of a step: a missing entry reads as nil. */
  function Entry(results: Results, step: string): Option<StepResult> {
    if step in results then results[step] else None
  }

  datatype Step = Step(upstream: string, optional: bool)

  datatype Composition = Composition(steps: map<string, Step>, upstreams: set<string>, deps: Graph)

  datatype SendError = Timeout | Upstream(message: string)

  /**
   * Building, sending and reading one step's request in the environment made
   * from a results map. The cache and the coalescer are inside it: module
   * Sharing says when a step ends with them as by its own request.
   */
  type Send = (string, Results) -> Result<StepResult, SendError>

  datatype Cause =
    | StepNotFound
    | UpstreamNotFound
    | DependencyFailed
    | SendFailed(error: SendError)
    | ErrorRuleMatched(status: int)

  datatype StepError = StepError(step: string, cause: Cause, optional: bool)

  /** How one step ends: its entry, its error if any, and whether it wrote an entry at all. */
  datatype Outcome = Outcome(result: Option<StepResult>, error: Option<StepError>, writes: bool)

  /** checkDependenciesFailed */
  predicate DependenciesFailed(deps: seq<string>, results: Results) {
    exists i :: 0 <= i < |deps| && Entry(results, deps[i]) == None
  }

  function Deps(c: Composition, step: string): seq<string> {
    if step in c.deps then c.deps[step] else []
  }

  /** The outcome of a step whose dependencies ended as env says. */
  function OutcomeOf(c: Composition, send: Send, step: string, env: Results): Outcome {
    if step !in c.steps then
      Outcome(None, Some(StepError(step, StepNotFound, false)), false)
    else if DependenciesFailed(Deps(c, step), env) then
      Outcome(None, Some(StepError(step, DependencyFailed, true)), true)
    else if c.steps[step].upstream !in c.upstreams then
      Outcome(None, Some(StepError(step, UpstreamNotFound, c.steps[step].optional)), false)
    else
      SentOutcome(c, step, send(step, env))
  }

  function SentOutcome(c: Composition, step: string, sent: Result<StepResult, SendError>): Outcome
    requires step in c.steps
  {
    match sent
    case Failure(e) => Outcome(None, Some(StepError(step, SendFailed(e), c.steps[step].optional)), true)
    case Success(r) =>
      Outcome(Some(r), if r.errorRuleMatched then Some(StepError(step, ErrorRuleMatched(r.status), true)) else None, true)
  }

  // ----- The evaluator -----

  /** The outcome of a step that runs within k waves, from those of its dependencies. */
  ghost function Eval(c: Composition, send: Send, step: string, k: nat): Outcome
    requires step in Done(c.deps, k)
    decreases k, 1
  {
    OutcomeOf(c, send, step, EnvAt(c, send, step, k))
  }

  ghost function EnvAt(c: Composition, send: Send, step: string, k: nat): Results
    requires step in Done(c.deps, k)
    decreases k, 0
  {
    map d | d in ToSet(c.deps[step]) :: Eval(c, send, d, k - 1).result
  }

  lemma {:induction false} EnvAnyDepth(c: Composition, send: Send, step: string, j: nat, k: nat)
    requires step in Done(c.deps, j) && step in Done(c.deps, k)
    ensures EnvAt(c, send, step, j) == EnvAt(c, send, step, k)
    decreases j
  {
    forall d | d in ToSet(c.deps[step]) ensures Eval(c, send, d, j - 1) == Eval(c, send, d, k - 1) {
      EnvAnyDepth(c, send, d, j - 1, k - 1);
    }
  }

  /** The composition has a plan. */
  ghost predicate Plannable(c: Composition) {
    Runnable(c.deps) == c.deps.Keys
  }

  ghost function Evaluate(c: Composition, send: Send, step: string): Outcome
    requires Plannable(c) && step in c.deps
  {
    Eval(c, send, step, |c.deps|)
  }

  /** What a step's own evaluation sees: the results of its dependencies. */
  ghost function DepResults(c: Composition, send: Send, step: string): Results
    requires Plannable(c) && step in c.deps && forall d :: d in c.deps[step] ==> d in c.deps
  {
    map d | d in ToSet(c.deps[step]) :: Evaluate(c, send, d).result
  }

  lemma DepsPlanned(c: Composition)
    requires Plannable(c)
    ensures Closed(c.deps)
  {
    forall s, d | s in c.deps && d in c.deps[s] ensures d in c.deps {
      assert s in Done(c.deps, |c.deps|);
    }
  }

  /** The recursion equation: a step is its outcome on its dependencies' results. */
  lemma EvaluateUnfolds(c: Composition, send: Send, step: string)
    requires Plannable(c) && step in c.deps && Closed(c.deps)
    ensures Evaluate(c, send, step) == OutcomeOf(c, send, step, DepResults(c, send, step))
  {
    EnvIsDepResults(c, send, step);
  }

  lemma EnvIsDepResults(c: Composition, send: Send, step: string)
    requires Plannable(c) && step in c.deps && Closed(c.deps)
    ensures EnvAt(c, send, step, |c.deps|) == DepResults(c, send, step)
  {
    var n := |c.deps|;
    forall d | d in ToSet(c.deps[step]) ensures Eval(c, send, d, n - 1) == Eval(c, send, d, n) {
      EnvAnyDepth(c, send, d, n - 1, n);
    }
  }

  // ----- What the evaluator says about nil entries and errors -----

  /** The step itself fails: its dependencies are fine and it is not. */
  ghost predicate FailsItself(c: Composition, send: Send, step: string)
    requires Plannable(c) && step in c.deps
  {
    var o := Evaluate(c, send, step);
    o.result == None && o.error.Some? && o.error.value.cause != DependencyFailed
  }

  /** The step's error is one that aborts the run. */
  ghost predicate RequiredFailure(c: Composition, send: Send, step: string)
    requires Plannable(c) && step in c.deps
  {
    var e := Evaluate(c, send, step).error;
    e.Some? && !e.value.optional
  }

  /** A run is aborted by the steps that are not optional and fail although their dependencies are fine. */
  lemma RequiredFailureIff(c: Composition, send: Send, step: string)
    requires Plannable(c) && Closed(c.deps) && step in c.deps && step in c.steps
    ensures RequiredFailure(c, send, step) <==> !c.steps[step].optional && FailsItself(c, send, step)
    ensures FailsItself(c, send, step) <==>
              Evaluate(c, send, step).result == None && forall d :: d in c.deps[step] ==> Evaluate(c, send, d).result != None
  {
    EvaluateUnfolds(c, send, step);
    SkippedIffDependencyNil(c, send, step);
  }

  lemma SkippedIffDependencyNil(c: Composition, send: Send, step: string)
    requires Plannable(c) && Closed(c.deps) && step in c.deps && step in c.steps
    ensures Evaluate(c, send, step).error == Some(StepError(step, DependencyFailed, true)) <==>
            exists d :: d in c.deps[step] && Evaluate(c, send, d).result == None
  {
    EvaluateUnfolds(c, send, step);
    var env := DepResults(c, send, step);
    var deps := c.deps[step];
    if d :| d in deps && Evaluate(c, send, d).result == None {
      var i :| 0 <= i < |deps| && deps[i] == d;
      assert Entry(env, deps[i]) == None;
    }
    if DependenciesFailed(deps, env) {
      var i :| 0 <= i < |deps| && Entry(env, deps[i]) == None;
      assert deps[i] in ToSet(deps);
    }
  }

  /** An entry is nil exactly when the step or one it transitively waits for fails itself. */
  lemma {:induction false} NilIffAncestorFails(c: Composition, send: Send, step: string, k: nat)
    requires Plannable(c) && Closed(c.deps) && step in Done(c.deps, k)
    requires c.deps.Keys == c.steps.Keys
    ensures Evaluate(c, send, step).result == None <==>
            exists t :: t in c.deps && Reaches(c.deps, step, t) && FailsItself(c, send, t)
    decreases k
  {
    EvaluateUnfolds(c, send, step);
    SkippedIffDependencyNil(c, send, step);
    forall d | d in c.deps[step]
      ensures Evaluate(c, send, d).result == None <==>
              exists t :: t in c.deps && Reaches(c.deps, d, t) && FailsItself(c, send, t)
    {
      NilIffAncestorFails(c, send, d, k - 1);
    }
    hide Evaluate, FailsItself, Plannable;
    if Evaluate(c, send, step).result == None {
      if !FailsItself(c, send, step) {
        var d :| d in c.deps[step] && Evaluate(c, send, d).result == None;
        var t :| t in c.deps && Reaches(c.deps, d, t) && FailsItself(c, send, t);
        ReachesBack(c.deps, step, d, t);
      } else {
        assert Reaches(c.deps, step, step);
      }
    }
    if t :| t in c.deps && Reaches(c.deps, step, t) && FailsItself(c, send, t) {
      if t != step {
        var d := ReachesFirst(c.deps, step, t);
        assert Evaluate(c, send, d).result == None;
      }
    }
  }

  /** A step contributes an error exactly when its entry is nil or matched an error rule. */
  lemma ErrorIffNilOrMatched(c: Composition, send: Send, step: string)
    requires Plannable(c) && Closed(c.deps) && step in c.deps
    ensures var o := Evaluate(c, send, step);
            o.error.Some? <==> o.result == None || o.result.value.errorRuleMatched
  {
    EvaluateUnfolds(c, send, step);
  }
}
