/**
 * Execute itself (internal/composition/executor.go): the loop over waves, the
 * shared maps it updates, and the goroutines of a wave, run by a scheduler
 * that may pick any of them for every single step.
 */
module Executor {
  import opened Wrappers
  import opened Sorting
  import opened DependencyGraph
  import opened Execution
  import opened WaveMachine
  import Planner

  datatype StepErrorDetail = StepErrorDetail(step: string, message: string, status: string)

  /** SanitizeErrorMessage */
  function Message(cause: Cause): string {
    match cause
    case SendFailed(Timeout) => "timeout"
    case ErrorRuleMatched(_) => "error rule matched"
    case DependencyFailed => "dependency_failed"
    case _ => "upstream error"
  }

  datatype ExecuteResult =
    | Result(steps: Results, stepErrors: seq<StepErrorDetail>, isPartial: bool)
    | RequiredStepError(step: string, cause: Cause)

  /** BuildErrorsArray: one detail an error, skipped exactly for a failed dependency. */
  method BuildErrorsArray(errors: seq<StepError>) returns (details: seq<StepErrorDetail>)
    ensures |details| == |errors|
    ensures forall i :: 0 <= i < |errors| ==>
              && details[i].step == errors[i].step
              && details[i].message == Message(errors[i].cause)
              && details[i].status == if errors[i].cause == DependencyFailed then "skipped" else "failed"
  {
    details := [];
    for i := 0 to |errors|
      invariant |details| == i
      invariant forall j :: 0 <= j < i ==>
              && details[j].step == errors[j].step
              && details[j].message == Message(errors[j].cause)
              && details[j].status == if errors[j].cause == DependencyFailed then "skipped" else "failed"
    {
      var message := Message(errors[i].cause);
      var status := if message == "dependency_failed" then "skipped" else "failed";
      details := details + [StepErrorDetail(errors[i].step, message, status)];
    }
  }

  /** The details are those of every step with an error, each once, and of no other. */
  ghost predicate DetailsOf(c: Composition, send: Send, details: seq<StepErrorDetail>)
    requires Plannable(c)
  {
    && (forall i :: 0 <= i < |details| ==>
          && details[i].step in c.deps && Evaluate(c, send, details[i].step).error.Some?
          && var cause := Evaluate(c, send, details[i].step).error.value.cause;
             details[i].message == Message(cause) &&
             details[i].status == if cause == DependencyFailed then "skipped" else "failed")
    && (forall i, j :: 0 <= i < j < |details| ==> details[i].step != details[j].step)
    && forall s :: s in c.deps && Evaluate(c, send, s).error.Some? ==> exists i :: 0 <= i < |details| && details[i].step == s
  }

  lemma DetailsAreComplete(c: Composition, send: Send, errors: seq<StepError>, details: seq<StepErrorDetail>)
    requires Plannable(c) && Closed(c.deps) && ErrorsOf(c, send, c.deps.Keys, errors)
    requires |details| == |errors|
    requires forall i :: 0 <= i < |errors| ==>
              && details[i].step == errors[i].step
              && details[i].message == Message(errors[i].cause)
              && details[i].status == if errors[i].cause == DependencyFailed then "skipped" else "failed"
    ensures DetailsOf(c, send, details)
  {
    forall i | 0 <= i < |errors|
      ensures errors[i].step in c.deps && Evaluate(c, send, errors[i].step).error == Some(errors[i])
    {
      assert errors[i] in errors;
    }
    hide Evaluate, Message, Plannable, Closed;
    forall s | s in c.deps && Evaluate(c, send, s).error.Some?
      ensures exists i :: 0 <= i < |details| && details[i].step == s
    {
      ErrorNamesStep(c, send, s);
      var e := Evaluate(c, send, s).error.value;
      var i :| 0 <= i < |errors| && errors[i] == e;
      assert details[i].step == s;
    }
  }

  /** What Execute promises, whatever the scheduler does. */
  ghost predicate ExecutesRight(c: Composition, send: Send, r: ExecuteResult)
    requires Plannable(c)
  {
    match r
    case Result(steps, stepErrors, isPartial) =>
      && NoRequired(c, send, c.deps.Keys)
      && steps == ExpectedResults(c, send)
      && DetailsOf(c, send, stepErrors)
      && (isPartial <==> Degraded(c, send))
    case RequiredStepError(step, cause) =>
      step in c.deps && RequiredFailure(c, send, step) && cause == Evaluate(c, send, step).error.value.cause
  }

  lemma ReturnIsRight(c: Composition, send: Send, waves: Planner.Waves, st: State, details: seq<StepErrorDetail>)
    requires Planned(c, send, waves) && Inv(c, send, waves, st) && st.verdict == Returned
    requires DetailsOf(c, send, details)
    ensures ExecutesRight(c, send, Result(st.results, details, |st.allErrors| > 0))
  {
    InvDecides(c, send, waves, st);
  }

  lemma AbortionIsRight(c: Composition, send: Send, waves: Planner.Waves, st: State)
    requires Planned(c, send, waves) && Inv(c, send, waves, st) && st.verdict.Aborted?
    ensures ExecutesRight(c, send, RequiredStepError(st.verdict.step, st.verdict.cause))
    ensures AbortedRight(c, send, st.wave, st.results, st.verdict.step, st.verdict.cause)
  {
    InvDecides(c, send, waves, st);
  }

  lemma ReturnedErrors(c: Composition, send: Send, waves: Planner.Waves, st: State)
    requires Planned(c, send, waves) && Inv(c, send, waves, st) && st.verdict == Returned
    ensures Plannable(c) && Closed(c.deps) && ErrorsOf(c, send, c.deps.Keys, st.allErrors) && NoRequired(c, send, c.deps.Keys)
  {
    InvDecides(c, send, waves, st);
  }

  // ----- What a run shows, read off its results map alone -----

  /** Every step that the step waits for has an entry that is not nil. */
  ghost predicate DepsFine(c: Composition, results: Results, step: string)
    requires step in c.deps
  {
    forall d :: d in c.deps[step] ==> d in results && results[d] != None
  }

  /** The entries of the steps it waits for: all that a step's request is built from. */
  ghost function EnvOf(c: Composition, results: Results, step: string): Results
    requires step in c.deps && DepsFine(c, results, step)
  {
    map d | d in ToSet(c.deps[step]) :: results[d]
  }

  /** The step gets as far as sending its request. */
  ghost predicate IsSent(c: Composition, results: Results, step: string)
    requires step in c.deps
  {
    step in c.steps && DepsFine(c, results, step) && c.steps[step].upstream in c.upstreams
  }

  /** The entry of a step is what its request returned; nil if that failed or a dependency is nil; else there is none. */
  ghost predicate Explained(c: Composition, send: Send, results: Results, step: string)
    requires step in c.deps
  {
    && (IsSent(c, results, step) ==>
          && step in results
          && match send(step, EnvOf(c, results, step))
             case Success(r) => results[step] == Some(r)
             case Failure(_) => results[step] == None)
    && (step in c.steps && !DepsFine(c, results, step) ==> step in results && results[step] == None)
    && (step !in c.steps || (DepsFine(c, results, step) && c.steps[step].upstream !in c.upstreams) ==> step !in results)
  }

  /** A detail tells the client why its step has no entry or only a replaced one. */
  ghost predicate Informs(c: Composition, send: Send, results: Results, detail: StepErrorDetail)
    requires detail.step in c.deps
  {
    var step := detail.step;
    if IsSent(c, results, step) then
      && detail.status == "failed"
      && match send(step, EnvOf(c, results, step))
         case Failure(Timeout) => detail.message == "timeout"
         case Failure(Upstream(_)) => detail.message == "upstream error"
         case Success(r) => r.errorRuleMatched && detail.message == "error rule matched"
    else if step in c.steps && !DepsFine(c, results, step) then
      detail.status == "skipped" && detail.message == "dependency_failed"
    else
      detail.status == "failed" && detail.message == "upstream error"
  }

  /** No entry, a nil one, or one that an error rule replaced. */
  ghost predicate IsDegraded(results: Results, step: string) {
    Entry(results, step) == None || Entry(results, step).value.errorRuleMatched
  }

  /** Every degraded step, and no other, is told of once. */
  ghost predicate DetailsShow(c: Composition, send: Send, results: Results, details: seq<StepErrorDetail>) {
    && (forall i :: 0 <= i < |details| ==>
          details[i].step in c.deps && IsDegraded(results, details[i].step) && Informs(c, send, results, details[i]))
    && (forall i, j :: 0 <= i < j < |details| ==> details[i].step != details[j].step)
    && (forall s :: s in c.deps && IsDegraded(results, s) ==> exists i :: 0 <= i < |details| && details[i].step == s)
  }

  /** A run that returns: every step explained, none that failed required, and every degraded one told of. */
  ghost predicate ResultShows(c: Composition, send: Send, results: Results, details: seq<StepErrorDetail>, isPartial: bool) {
    && results.Keys <= c.deps.Keys
    && (forall s :: s in c.deps ==> Explained(c, send, results, s))
    && (forall s :: s in c.deps ==> s in c.steps && (DepsFine(c, results, s) && Entry(results, s) == None ==> c.steps[s].optional))
    && DetailsShow(c, send, results, details)
    && (isPartial <==> exists s :: s in c.deps && IsDegraded(results, s))
  }

  /** A run that aborts: all steps up to this wave explained, and step failed in it although it is required. */
  ghost predicate AbortShows(c: Composition, send: Send, k: nat, results: Results, step: string, cause: Cause) {
    && (forall s :: s in Done(c.deps, k + 1) ==> Explained(c, send, results, s))
    && step in Layer(c.deps, k) && FailedFor(c, send, results, step, cause)
  }

  /** The step is unknown, or it is required and has no upstream, or its request failed like that. */
  ghost predicate FailedFor(c: Composition, send: Send, results: Results, step: string, cause: Cause)
    requires step in c.deps
  {
    match cause
    case StepNotFound => step !in c.steps
    case UpstreamNotFound =>
      && step in c.steps && !c.steps[step].optional
      && DepsFine(c, results, step) && c.steps[step].upstream !in c.upstreams
    case SendFailed(e) =>
      && IsSent(c, results, step) && !c.steps[step].optional
      && send(step, EnvOf(c, results, step)) == Failure(e)
    case _ => false
  }

  /** The entries of the step and of those it waits for are settled. */
  ghost predicate SettledWithDeps(c: Composition, send: Send, results: Results, step: string)
    requires Plannable(c) && Closed(c.deps) && step in c.deps
  {
    Settled(c, send, results, step) && forall d :: d in c.deps[step] ==> Settled(c, send, results, d)
  }

  lemma EnvIsSettled(c: Composition, send: Send, results: Results, step: string)
    requires Plannable(c) && Closed(c.deps) && step in c.deps && SettledWithDeps(c, send, results, step)
    ensures DepsFine(c, results, step) <==> !DependenciesFailed(c.deps[step], DepResults(c, send, step))
    ensures DepsFine(c, results, step) ==> EnvOf(c, results, step) == DepResults(c, send, step)
  {
    var deps, env := c.deps[step], DepResults(c, send, step);
    forall d | d in deps ensures Entry(env, d) == Entry(results, d) {
      assert Settled(c, send, results, d);
    }
    hide Settled, Evaluate;
    if DependenciesFailed(deps, env) {
      var i :| 0 <= i < |deps| && Entry(env, deps[i]) == None;
      assert deps[i] in deps;
    }
    if d :| d in deps && !(d in results && results[d] != None) {
      var i :| 0 <= i < |deps| && deps[i] == d;
      assert Entry(env, deps[i]) == None;
    }
  }

  lemma SettledIsExplained(c: Composition, send: Send, results: Results, step: string)
    requires Plannable(c) && Closed(c.deps) && step in c.deps && SettledWithDeps(c, send, results, step)
    ensures Explained(c, send, results, step)
    ensures Evaluate(c, send, step).error.Some? <==> IsDegraded(results, step)
  {
    EnvIsSettled(c, send, results, step);
    EvaluateUnfolds(c, send, step);
    ErrorIffNilOrMatched(c, send, step);
    hide DependenciesFailed, DepResults, Evaluate, EnvOf, DepsFine;
  }

  /** Why a step has an error, and whether that aborts the run. */
  lemma ErrorIsExplained(c: Composition, send: Send, results: Results, step: string, detail: StepErrorDetail)
    requires Plannable(c) && Closed(c.deps) && step in c.deps && SettledWithDeps(c, send, results, step)
    requires Evaluate(c, send, step).error.Some? && detail.step == step
    requires var cause := Evaluate(c, send, step).error.value.cause;
             && detail.message == Message(cause)
             && detail.status == if cause == DependencyFailed then "skipped" else "failed"
    ensures Informs(c, send, results, detail)
  {
    EnvIsSettled(c, send, results, step);
    EvaluateUnfolds(c, send, step);
    hide DependenciesFailed, DepResults, Evaluate, EnvOf, DepsFine;
  }

  lemma RequiredIsExplained(c: Composition, send: Send, results: Results, step: string)
    requires Plannable(c) && Closed(c.deps) && step in c.deps && SettledWithDeps(c, send, results, step)
    requires RequiredFailure(c, send, step)
    ensures FailedFor(c, send, results, step, Evaluate(c, send, step).error.value.cause)
  {
    EnvIsSettled(c, send, results, step);
    EvaluateUnfolds(c, send, step);
    hide DependenciesFailed, DepResults, Evaluate, EnvOf, DepsFine, SettledWithDeps, Plannable, Closed;
  }

  lemma NotRequired(c: Composition, send: Send, results: Results, step: string)
    requires Plannable(c) && Closed(c.deps) && step in c.deps && SettledWithDeps(c, send, results, step)
    requires !RequiredFailure(c, send, step)
    ensures step in c.steps && (DepsFine(c, results, step) && Entry(results, step) == None ==> c.steps[step].optional)
  {
    EnvIsSettled(c, send, results, step);
    EvaluateUnfolds(c, send, step);
    hide DependenciesFailed, DepResults, Evaluate, EnvOf, DepsFine;
  }

  lemma ReturnedSettled(c: Composition, send: Send, waves: Planner.Waves, st: State)
    requires Planned(c, send, waves) && Inv(c, send, waves, st) && st.verdict == Returned
    ensures st.results.Keys <= c.deps.Keys
    ensures forall s :: s in c.deps ==> Settled(c, send, st.results, s)
  {
    hide Settled, ErrorsOf, InFlight, PcInv, NoRequired;
    assert Done(c.deps, st.wave) == c.deps.Keys;
  }

  lemma AbortedSettled(c: Composition, send: Send, waves: Planner.Waves, st: State)
    requires Planned(c, send, waves) && Inv(c, send, waves, st) && st.verdict.Aborted?
    ensures Done(c.deps, st.wave + 1) <= c.deps.Keys
    ensures forall s :: s in Done(c.deps, st.wave + 1) ==> Settled(c, send, st.results, s)
  {
    hide Settled, ErrorsOf, NoRequired;
    DoneAndLayer(c.deps, st.wave);
    forall s | s in st.pcs ensures Settled(c, send, st.results, s) {
      assert PcInv(c, send, st.results, s, st.pcs[s]);
    }
  }

  lemma StepShows(c: Composition, send: Send, results: Results, step: string)
    requires Plannable(c) && Closed(c.deps) && step in c.deps && !RequiredFailure(c, send, step)
    requires forall s :: s in c.deps ==> Settled(c, send, results, s)
    ensures SettledWithDeps(c, send, results, step) && Explained(c, send, results, step)
    ensures step in c.steps && (DepsFine(c, results, step) && Entry(results, step) == None ==> c.steps[step].optional)
    ensures Evaluate(c, send, step).error.Some? <==> IsDegraded(results, step)
  {
    hide Settled, Evaluate, Explained, IsDegraded, RequiredFailure, DepsFine, Plannable;
    SettledIsExplained(c, send, results, step);
    NotRequired(c, send, results, step);
  }

  lemma DetailsAreShown(c: Composition, send: Send, results: Results, details: seq<StepErrorDetail>)
    requires Plannable(c) && Closed(c.deps) && DetailsOf(c, send, details)
    requires forall s :: s in c.deps ==>
               SettledWithDeps(c, send, results, s) && (Evaluate(c, send, s).error.Some? <==> IsDegraded(results, s))
    ensures DetailsShow(c, send, results, details)
  {
    hide Evaluate, Plannable, Closed, SettledWithDeps, IsDegraded, Message, Informs;
    forall i | 0 <= i < |details|
      ensures details[i].step in c.deps && IsDegraded(results, details[i].step) && Informs(c, send, results, details[i])
    {
      ErrorIsExplained(c, send, results, details[i].step, details[i]);
    }
  }

  lemma SettledShows(c: Composition, send: Send, results: Results, details: seq<StepErrorDetail>)
    requires Plannable(c) && Closed(c.deps) && DetailsOf(c, send, details)
    requires results.Keys <= c.deps.Keys
    requires forall s :: s in c.deps ==> Settled(c, send, results, s) && !RequiredFailure(c, send, s)
    ensures ResultShows(c, send, results, details, |details| > 0)
  {
    hide DepsFine, Explained, IsDegraded, DetailsShow, SettledWithDeps, Settled, Evaluate, RequiredFailure, Plannable, Closed,
      DetailsOf, Entry;
    forall s | s in c.deps
      ensures SettledWithDeps(c, send, results, s) && Explained(c, send, results, s)
      ensures s in c.steps && (DepsFine(c, results, s) && Entry(results, s) == None ==> c.steps[s].optional)
      ensures Evaluate(c, send, s).error.Some? <==> IsDegraded(results, s)
    {
      StepShows(c, send, results, s);
    }
    DetailsAreShown(c, send, results, details);
    PartialIffDegraded(c, send, results, details);
  }

  lemma ReturnShows(c: Composition, send: Send, waves: Planner.Waves, st: State, details: seq<StepErrorDetail>)
    requires Planned(c, send, waves) && Inv(c, send, waves, st) && st.verdict == Returned
    requires DetailsOf(c, send, details) && NoRequired(c, send, c.deps.Keys)
    ensures ResultShows(c, send, st.results, details, |details| > 0)
  {
    ReturnedSettled(c, send, waves, st);
    hide Inv, Settled, RequiredFailure, Plannable, DetailsOf, ResultShows;
    SettledShows(c, send, st.results, details);
  }

  lemma PartialIffDegraded(c: Composition, send: Send, results: Results, details: seq<StepErrorDetail>)
    requires DetailsShow(c, send, results, details)
    ensures |details| > 0 <==> exists s :: s in c.deps && IsDegraded(results, s)
  {
    hide IsDegraded, Informs;
    if |details| > 0 {
      assert IsDegraded(results, details[0].step);
    }
  }

  lemma AbortionShows(c: Composition, send: Send, waves: Planner.Waves, st: State)
    requires Planned(c, send, waves) && Inv(c, send, waves, st) && st.verdict.Aborted?
    requires AbortedRight(c, send, st.wave, st.results, st.verdict.step, st.verdict.cause)
    ensures AbortShows(c, send, st.wave, st.results, st.verdict.step, st.verdict.cause)
  {
    AbortedSettled(c, send, waves, st);
    var k, results := st.wave, st.results;
    hide Inv, Settled, Evaluate, Explained, RequiredFailure, FailedFor;
    forall s | s in Done(c.deps, k + 1) ensures SettledWithDeps(c, send, results, s) && Explained(c, send, results, s) {
      DoneDown(c.deps, k, s);
      SettledIsExplained(c, send, results, s);
    }
    DoneAndLayer(c.deps, k);
    RequiredIsExplained(c, send, results, st.verdict.step);
  }

  /** Whatever the schedule: the entries are what the requests returned, each sent with the entries of its dependencies. */
  lemma ScheduleResultsAreSent(c: Composition, send: Send, waves: Planner.Waves, run: seq<State>)
    requires Planned(c, send, waves) && Schedule(c, send, waves, run)
    ensures var last := run[|run| - 1];
            && (last.verdict == Returned ==> forall s :: s in c.deps ==> Explained(c, send, last.results, s))
            && (last.verdict.Aborted? ==>
                  AbortShows(c, send, last.wave, last.results, last.verdict.step, last.verdict.cause))
  {
    var last := run[|run| - 1];
    ScheduleHasInv(c, send, waves, run, |run| - 1);
    hide Inv, Schedule, Explained, AbortShows, Settled, AbortedRight, DepsFine, Evaluate;
    if last.verdict == Returned {
      ReturnedSettled(c, send, waves, last);
      forall s | s in c.deps ensures Explained(c, send, last.results, s) {
        SettledIsExplained(c, send, last.results, s);
      }
    } else if last.verdict.Aborted? {
      InvDecides(c, send, waves, last);
      AbortionShows(c, send, waves, last);
    }
  }

  lemma DoneDown(g: Graph, k: nat, s: string)
    requires s in Done(g, k + 1)
    ensures s in g && forall d :: d in g[s] ==> d in Done(g, k + 1)
  {
    DoneStep(g, k, s);
    DoneGrows(g, k, k + 1);
  }

  lemma InitIsRunning(waves: Planner.Waves)
    ensures Init(waves).wave == 0 && Init(waves).verdict == if 0 < |waves| then Running else Returned
  {
  }

  lemma EndWaveMoves(waves: Planner.Waves, st: State)
    requires st.verdict == Running && st.wave < |waves|
    ensures var next := EndWave(waves, st);
            next.verdict.Aborted? || (next.wave == st.wave + 1 && next.verdict == if next.wave < |waves| then Running else Returned)
  {
  }

  class Execute {
    var wave: nat
    var pcs: map<string, Pc>
    var results: Results
    var waveErrors: seq<StepError>
    var allErrors: seq<StepError>
    var verdict: Verdict

    constructor ()
      ensures View() == State(0, map[], map[], [], [], Running)
    {
      wave, pcs, results, waveErrors, allErrors, verdict := 0, map[], map[], [], [], Running;
    }

    ghost function View(): State
      reads this
    {
      State(wave, pcs, results, waveErrors, allErrors, verdict)
    }

    /** One lock section of the goroutine that runs step. */
    method Goroutine(c: Composition, send: Send, step: string)
      requires step in pcs
      modifies this
      ensures View() == Act(c, send, old(View()), step)
      ensures old(pcs[step]).Ready? ==> pcs == old(pcs)[step := Sending(results)] && results == old(results)
      ensures old(pcs[step]).Sending? ==>
                pcs == old(pcs)[step := Writing(send(step, old(pcs[step]).env))] && results == old(results)
      ensures old(pcs[step]).Writing? && step in c.steps ==>
                results == old(results)[step := match old(pcs[step]).sent case Success(r) => Some(r) case Failure(_) => None]
    {
      match pcs[step]
      case Start =>
        if step !in c.steps {
          pcs := pcs[step := Reporting(Some(StepError(step, StepNotFound, false)))];
        } else if DependenciesFailed(Deps(c, step), results) {
          pcs := pcs[step := Skipping];
        } else if c.steps[step].upstream !in c.upstreams {
          pcs := pcs[step := Reporting(Some(StepError(step, UpstreamNotFound, c.steps[step].optional)))];
        } else {
          pcs := pcs[step := Ready];
        }
      case Skipping =>
        results := results[step := None];
        pcs := pcs[step := Reporting(Some(StepError(step, DependencyFailed, true)))];
      case Ready =>
        pcs := pcs[step := Sending(results)];
      case Sending(env) =>
        pcs := pcs[step := Writing(send(step, env))];
      case Writing(sent) =>
        if step in c.steps {
          match sent
          case Failure(e) =>
            results := results[step := None];
            pcs := pcs[step := Reporting(Some(StepError(step, SendFailed(e), c.steps[step].optional)))];
          case Success(r) =>
            results := results[step := Some(r)];
            pcs := pcs[step := Reporting(
              if r.errorRuleMatched then Some(StepError(step, ErrorRuleMatched(r.status), true)) else None)];
        }
      case Reporting(error) =>
        if error.Some? {
          waveErrors := waveErrors + [error.value];
        }
        pcs := pcs[step := Finished];
      case Finished =>
    }

    /** Starts the wave's goroutines and waits until all have finished. */
    method RunWave(c: Composition, send: Send, waves: Planner.Waves)
      requires Planned(c, send, waves) && Inv(c, send, waves, View()) && verdict == Running && wave < |waves|
      modifies this
      ensures Inv(c, send, waves, View()) && WaveOver(View()) && verdict == Running && wave == old(wave)
    {
      hide Inv;
      while exists s :: s in pcs && pcs[s] != Finished
        invariant Inv(c, send, waves, View()) && verdict == Running && wave == old(wave)
        decreases StepsLeft(waves, View())
      {
        var step :| step in pcs && pcs[step] != Finished;
        ghost var before := View();
        ActKeepsInv(c, send, waves, before, step);
        Goroutine(c, send, step);
        assert Next(c, send, waves, before, View());
        NextUsesAStep(c, send, waves, before, View());
      }
    }

    /** After wg.Wait: the wave's errors join the others, then abort, next wave or return. */
    method EndOfWave(waves: Planner.Waves)
      requires verdict == Running && wave < |waves|
      modifies this
      ensures View() == EndWave(waves, old(View()))
    {
      allErrors := allErrors + waveErrors;
      if HasRequiredFailure(waveErrors) {
        var e := FirstRequired(waveErrors);
        verdict := Aborted(e.step, e.cause);
        return;
      }
      waveErrors := [];
      wave := wave + 1;
      if wave < |waves| {
        pcs := Begin(waves[wave]);
      } else {
        pcs, verdict := map[], Returned;
      }
    }

    method Start(waves: Planner.Waves)
      modifies this
      ensures View() == Init(waves)
    {
      results, allErrors, waveErrors := map[], [], [];
      wave, verdict := 0, Running;
      pcs := if waves == [] then map[] else Begin(waves[0]);
      if waves == [] { verdict := Returned; }
    }

    /** Runs the planned waves one after the other. */
    method Run(c: Composition, send: Send, waves: Planner.Waves) returns (r: ExecuteResult)
      requires Planned(c, send, waves)
      modifies this
      ensures ExecutesRight(c, send, r)
      ensures r.RequiredStepError? ==> AbortedRight(c, send, wave, results, r.step, r.cause)
      ensures r.Result? ==> ResultShows(c, send, r.steps, r.stepErrors, r.isPartial)
      ensures r.RequiredStepError? ==> AbortShows(c, send, wave, results, r.step, r.cause)
    {
      hide Inv, ExecutesRight, ErrorsOf, DetailsOf, AbortedRight, Planned, Evaluate, Message, Init, EndWave, WaveOver,
        ResultShows, AbortShows, NoRequired;
      InitHasInv(c, send, waves);
      InitIsRunning(waves);
      Start(waves);
      while wave < |waves|
        invariant Inv(c, send, waves, View())
        invariant verdict == if wave < |waves| then Running else Returned
        decreases |waves| - wave
      {
        RunWave(c, send, waves);
        ghost var before := View();
        EndWaveMoves(waves, before);
        NextKeepsInv(c, send, waves, before, EndWave(waves, before));
        EndOfWave(waves);
        if verdict.Aborted? {
          AbortionIsRight(c, send, waves, View());
          AbortionShows(c, send, waves, View());
          return RequiredStepError(verdict.step, verdict.cause);
        }
      }
      ReturnedErrors(c, send, waves, View());
      var details := BuildErrorsArray(allErrors);
      DetailsAreComplete(c, send, allErrors, details);
      ReturnIsRight(c, send, waves, View(), details);
      ReturnShows(c, send, waves, View(), details);
      return Result(results, details, |allErrors| > 0);
    }
  }
}
