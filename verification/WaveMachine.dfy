/**
 * The concurrent run of a composition (internal/composition/executor.go,
 * Execute). Act is one atomic step of one goroutine, EndWave what Execute does
 * after wg.Wait. The invariant ties every reachable state to the evaluator, so
 * the result does not depend on the schedule.
 */
module WaveMachine {
  import opened Wrappers
  import opened Sorting
  import opened DependencyGraph
  import opened Execution
  import Planner

  /** Where the goroutine of one step is. */
  datatype Pc =
    | Start
    | Skipping
    | Ready
    | Sending(env: Results)
    | Writing(sent: Result<StepResult, SendError>)
    | Reporting(error: Option<StepError>)
    | Finished

  datatype Verdict = Running | Returned | Aborted(step: string, cause: Cause)

  datatype State = State(
    wave: nat,
    pcs: map<string, Pc>,
    results: Results,
    waveErrors: seq<StepError>,
    allErrors: seq<StepError>,
    verdict: Verdict)

  function Begin(wave: seq<string>): map<string, Pc> {
    map s | s in wave :: Start
  }

  function Init(waves: Planner.Waves): State {
    State(0, if waves == [] then map[] else Begin(waves[0]), map[], [], [], if waves == [] then Returned else Running)
  }

  /** The next atomic step of the goroutine of step. */
  function Act(c: Composition, send: Send, st: State, step: string): State
    requires step in st.pcs
  {
    match st.pcs[step]
    case Start =>
      st.(pcs := st.pcs[step :=
        if step !in c.steps then Reporting(Some(StepError(step, StepNotFound, false)))
        else if DependenciesFailed(Deps(c, step), st.results) then Skipping
        else if c.steps[step].upstream !in c.upstreams then
          Reporting(Some(StepError(step, UpstreamNotFound, c.steps[step].optional)))
        else Ready])
    case Skipping =>
      st.(results := st.results[step := None],
          pcs := st.pcs[step := Reporting(Some(StepError(step, DependencyFailed, true)))])
    case Ready =>
      st.(pcs := st.pcs[step := Sending(st.results)])
    case Sending(env) =>
      st.(pcs := st.pcs[step := Writing(send(step, env))])
    case Writing(sent) =>
      if step !in c.steps then st
      else
        var o := SentOutcome(c, step, sent);
        st.(results := st.results[step := o.result], pcs := st.pcs[step := Reporting(o.error)])
    case Reporting(error) =>
      st.(waveErrors := st.waveErrors + (if error.Some? then [error.value] else []), pcs := st.pcs[step := Finished])
    case Finished => st
  }

  /** HasRequiredFailure */
  predicate HasRequiredFailure(errors: seq<StepError>) {
    exists i :: 0 <= i < |errors| && !errors[i].optional
  }

  /** The first required failure in the order the goroutines reported. */
  function FirstRequired(errors: seq<StepError>): (e: StepError)
    requires HasRequiredFailure(errors)
    ensures e in errors && !e.optional
  {
    if !errors[0].optional then errors[0]
    else
      assert HasRequiredFailure(errors[1..]) by {
        var i :| 0 <= i < |errors| && !errors[i].optional;
        assert errors[1..][i - 1] == errors[i];
      }
      FirstRequired(errors[1..])
  }

  predicate WaveOver(st: State) {
    forall s :: s in st.pcs ==> st.pcs[s] == Finished
  }

  /** After wg.Wait: abort, start the next wave, or return. */
  function EndWave(waves: Planner.Waves, st: State): State {
    if HasRequiredFailure(st.waveErrors) then
      var e := FirstRequired(st.waveErrors);
      st.(allErrors := st.allErrors + st.waveErrors, verdict := Aborted(e.step, e.cause))
    else if st.wave + 1 < |waves| then
      State(st.wave + 1, Begin(waves[st.wave + 1]), st.results, [], st.allErrors + st.waveErrors, Running)
    else
      State(st.wave + 1, map[], st.results, [], st.allErrors + st.waveErrors, Returned)
  }

  ghost predicate Next(c: Composition, send: Send, waves: Planner.Waves, a: State, b: State) {
    && a.verdict == Running
    && if WaveOver(a) then b == EndWave(waves, a)
       else exists s :: s in a.pcs && a.pcs[s] != Finished && b == Act(c, send, a, s)
  }

  /** Any schedule: any sequence of such steps from the start. */
  ghost predicate Schedule(c: Composition, send: Send, waves: Planner.Waves, run: seq<State>) {
    && run != [] && run[0] == Init(waves)
    && forall i :: 0 <= i < |run| - 1 ==> Next(c, send, waves, run[i], run[i + 1])
  }

  // ----- What is known of the composition -----

  /** A step's request depends only on the entries of the steps it waits for. */
  ghost predicate LocalSend(c: Composition, send: Send) {
    forall s, e1, e2 :: s in c.deps && SameEntries(c.deps[s], e1, e2) ==> send(s, e1) == send(s, e2)
  }

  ghost predicate SameEntries(deps: seq<string>, e1: Results, e2: Results) {
    forall d :: d in deps ==> Entry(e1, d) == Entry(e2, d)
  }

  ghost predicate Planned(c: Composition, send: Send, waves: Planner.Waves) {
    && Planner.IsPlan(c.deps, waves) && Plannable(c) && Closed(c.deps)
    && LocalSend(c, send)
  }

  lemma PlanMakesPlanned(c: Composition, send: Send, waves: Planner.Waves)
    requires Planner.IsPlan(c.deps, waves) && LocalSend(c, send)
    ensures Planned(c, send, waves)
  {
    RunnableHoldsAll(c.deps, |waves|);
    DepsPlanned(c);
  }

  // ----- The invariant -----

  /** The entry of a step that has finished writing is the evaluator's. */
  ghost predicate Settled(c: Composition, send: Send, results: Results, step: string)
    requires Plannable(c) && step in c.deps
  {
    var o := Evaluate(c, send, step);
    (step in results <==> o.writes) && Entry(results, step) == o.result
  }

  /** The outcome is still to be decided by sending. */
  ghost predicate WillSend(c: Composition, send: Send, step: string)
    requires Plannable(c) && Closed(c.deps) && step in c.deps
  {
    && step in c.steps && c.steps[step].upstream in c.upstreams
    && Evaluate(c, send, step) == SentOutcome(c, step, send(step, DepResults(c, send, step)))
  }

  ghost predicate PcInv(c: Composition, send: Send, results: Results, step: string, pc: Pc)
    requires Plannable(c) && Closed(c.deps) && step in c.deps
  {
    match pc
    case Start => step !in results
    case Skipping => step !in results && step in c.steps &&
        Evaluate(c, send, step) == Outcome(None, Some(StepError(step, DependencyFailed, true)), true)
    case Ready => step !in results && WillSend(c, send, step)
    case Sending(env) => step !in results && WillSend(c, send, step) &&
        SameEntries(c.deps[step], env, DepResults(c, send, step))
    case Writing(sent) => step !in results && WillSend(c, send, step) && sent == send(step, DepResults(c, send, step))
    case Reporting(error) => Settled(c, send, results, step) && error == Evaluate(c, send, step).error
    case Finished => Settled(c, send, results, step)
  }

  /** errors are the errors of steps, once each. */
  ghost predicate ErrorsOf(c: Composition, send: Send, steps: set<string>, errors: seq<StepError>)
    requires Plannable(c) && steps <= c.deps.Keys
  {
    && NoDuplicates(errors)
    && (forall e :: e in errors ==> e.step in steps && Evaluate(c, send, e.step).error == Some(e))
    && forall s :: s in steps && Evaluate(c, send, s).error.Some? ==> Evaluate(c, send, s).error.value in errors
  }

  ghost function FinishedIn(pcs: map<string, Pc>): set<string> {
    set s | s in pcs && pcs[s] == Finished
  }

  /** No step of the finished waves is a required failure. */
  ghost predicate NoRequired(c: Composition, send: Send, steps: set<string>)
    requires Plannable(c) && steps <= c.deps.Keys
  {
    forall s :: s in steps ==> !RequiredFailure(c, send, s)
  }

  /** The finished waves: their entries are settled, their errors collected, none required. */
  ghost predicate Behind(c: Composition, send: Send, done: set<string>, results: Results, errors: seq<StepError>)
    requires Plannable(c) && done <= c.deps.Keys
  {
    && (forall s :: s in done ==> Settled(c, send, results, s))
    && ErrorsOf(c, send, done, errors)
    && NoRequired(c, send, done)
  }

  /** The errors of the waves before this one; an aborted run has appended this one's. */
  ghost function Collected(st: State): seq<StepError> {
    if st.verdict.Aborted? && |st.waveErrors| <= |st.allErrors| then st.allErrors[..|st.allErrors| - |st.waveErrors|]
    else st.allErrors
  }

  /** The wave that runs, and which goroutines that means. */
  ghost predicate Position(c: Composition, waves: Planner.Waves, st: State) {
    && st.wave <= |waves|
    && st.pcs.Keys == (if st.wave < |waves| then Layer(c.deps, st.wave) else {})
    && (st.verdict.Returned? <==> st.wave == |waves|)
  }

  ghost predicate InFlight(c: Composition, send: Send, pcs: map<string, Pc>, results: Results)
    requires Plannable(c) && Closed(c.deps)
  {
    forall s :: s in pcs ==> s in c.deps && PcInv(c, send, results, s, pcs[s])
  }

  /** An aborted run names a required failure of the wave that just ended. */
  ghost predicate AbortIsRight(c: Composition, send: Send, st: State)
    requires Plannable(c)
  {
    st.verdict.Aborted? ==>
      && WaveOver(st) && st.verdict.step in st.pcs && st.verdict.step in c.deps
      && RequiredFailure(c, send, st.verdict.step)
      && st.verdict.cause == Evaluate(c, send, st.verdict.step).error.value.cause
  }

  ghost predicate Inv(c: Composition, send: Send, waves: Planner.Waves, st: State)
    requires Planned(c, send, waves)
  {
    && Position(c, waves, st)
    && Behind(c, send, Done(c.deps, st.wave), st.results, Collected(st))
    && InFlight(c, send, st.pcs, st.results)
    && st.results.Keys <= Done(c.deps, st.wave) + st.pcs.Keys
    && ErrorsOf(c, send, FinishedIn(st.pcs), st.waveErrors)
    && AbortIsRight(c, send, st)
  }

  // ----- One goroutine step keeps it -----

  lemma SameEntriesSameFailure(deps: seq<string>, e1: Results, e2: Results)
    requires SameEntries(deps, e1, e2)
    ensures DependenciesFailed(deps, e1) <==> DependenciesFailed(deps, e2)
  {
    forall i | 0 <= i < |deps| ensures Entry(e1, deps[i]) == Entry(e2, deps[i]) {
      assert deps[i] in deps;
    }
  }

  /** When a wave runs, everything its steps wait for is settled. */
  lemma DepsSettled(c: Composition, send: Send, waves: Planner.Waves, st: State, step: string)
    requires Planned(c, send, waves) && Inv(c, send, waves, st) && step in st.pcs
    ensures SameEntries(c.deps[step], st.results, DepResults(c, send, step))
  {
    DoneStep(c.deps, st.wave, step);
    forall d | d in c.deps[step] ensures Entry(st.results, d) == Entry(DepResults(c, send, step), d) {
      assert Settled(c, send, st.results, d);
    }
  }

  /** Only the entry of step may differ. */
  ghost predicate OthersKept(step: string, before: Results, after: Results) {
    && after.Keys <= before.Keys + {step}
    && forall s :: s != step ==> (s in before <==> s in after) && Entry(before, s) == Entry(after, s)
  }

  lemma BehindFramed(c: Composition, send: Send, done: set<string>, step: string, before: Results, after: Results,
                     errors: seq<StepError>)
    requires Plannable(c) && done <= c.deps.Keys && step !in done
    requires OthersKept(step, before, after) && Behind(c, send, done, before, errors)
    ensures Behind(c, send, done, after, errors)
  {
    forall s | s in done ensures Settled(c, send, after, s) {
      assert s != step && Settled(c, send, before, s);
    }
  }

  lemma InFlightFramed(c: Composition, send: Send, pcs: map<string, Pc>, step: string, pc: Pc,
                       before: Results, after: Results)
    requires Plannable(c) && Closed(c.deps) && step in pcs && InFlight(c, send, pcs, before)
    requires OthersKept(step, before, after) && PcInv(c, send, after, step, pc)
    ensures InFlight(c, send, pcs[step := pc], after)
  {
    forall s | s in pcs && s != step ensures PcInv(c, send, after, s, pcs[s]) {
      assert PcInv(c, send, before, s, pcs[s]);
    }
  }

  /** A goroutine step that leaves the other entries alone keeps the invariant. */
  lemma Framed(c: Composition, send: Send, waves: Planner.Waves, st: State, step: string,
               pc: Pc, results: Results, errors: seq<StepError>)
    requires Planned(c, send, waves) && Inv(c, send, waves, st) && st.verdict == Running && step in st.pcs
    requires OthersKept(step, st.results, results)
    requires PcInv(c, send, results, step, pc)
    requires ErrorsOf(c, send, FinishedIn(st.pcs[step := pc]), errors)
    ensures Inv(c, send, waves, st.(pcs := st.pcs[step := pc], results := results, waveErrors := errors))
  {
    BehindFramed(c, send, Done(c.deps, st.wave), step, st.results, results, st.allErrors);
    InFlightFramed(c, send, st.pcs, step, pc, st.results, results);
    hide Behind, InFlight, PcInv, ErrorsOf, Evaluate;
    assert st.pcs[step := pc].Keys == st.pcs.Keys;
  }

  /** Before it reports, a goroutine does not touch the errors. */
  lemma FinishedUnchanged(pcs: map<string, Pc>, step: string, pc: Pc)
    requires step in pcs && pcs[step] != Finished && pc != Finished
    ensures FinishedIn(pcs[step := pc]) == FinishedIn(pcs)
  {
  }

  lemma StartStep(c: Composition, send: Send, waves: Planner.Waves, st: State, step: string)
    requires Planned(c, send, waves) && Inv(c, send, waves, st) && step in st.pcs && st.pcs[step] == Start
    ensures PcInv(c, send, st.results, step, Act(c, send, st, step).pcs[step])
  {
    DepsSettled(c, send, waves, st, step);
    EvaluateUnfolds(c, send, step);
    SameEntriesSameFailure(c.deps[step], st.results, DepResults(c, send, step));
    assert PcInv(c, send, st.results, step, Start);
  }

  /** A wave reports the errors of the steps that have finished. */
  lemma ReportStep(c: Composition, send: Send, pcs: map<string, Pc>, step: string, error: Option<StepError>,
                   errors: seq<StepError>)
    requires Plannable(c) && pcs.Keys <= c.deps.Keys && step in pcs && pcs[step] == Reporting(error)
    requires error == Evaluate(c, send, step).error && (error.Some? ==> error.value.step == step)
    requires ErrorsOf(c, send, FinishedIn(pcs), errors)
    ensures ErrorsOf(c, send, FinishedIn(pcs[step := Finished]), errors + if error.Some? then [error.value] else [])
  {
    var after := errors + if error.Some? then [error.value] else [];
    assert FinishedIn(pcs[step := Finished]) == FinishedIn(pcs) + {step};
    forall e | e in errors ensures error.Some? ==> e != error.value {
      assert e.step in FinishedIn(pcs);
    }
    forall s | s in FinishedIn(pcs) + {step} && Evaluate(c, send, s).error.Some?
      ensures Evaluate(c, send, s).error.value in after
    {
      if s == step { assert after[|errors|] == error.value; }
    }
  }

  lemma ErrorNamesStep(c: Composition, send: Send, step: string)
    requires Plannable(c) && Closed(c.deps) && step in c.deps
    ensures Evaluate(c, send, step).error.Some? ==> Evaluate(c, send, step).error.value.step == step
  {
    EvaluateUnfolds(c, send, step);
  }

  lemma ActShape(c: Composition, send: Send, st: State, step: string)
    requires step in st.pcs
    ensures var next := Act(c, send, st, step);
            && step in next.pcs && next.pcs == st.pcs[step := next.pcs[step]]
            && next == st.(pcs := next.pcs, results := next.results, waveErrors := next.waveErrors)
            && OthersKept(step, st.results, next.results)
  {
  }

  lemma ActDecides(c: Composition, send: Send, waves: Planner.Waves, st: State, step: string)
    requires Planned(c, send, waves) && Inv(c, send, waves, st) && step in st.pcs && st.pcs[step] != Finished
    ensures var next := Act(c, send, st, step);
            step in c.deps && step in next.pcs && PcInv(c, send, next.results, step, next.pcs[step])
  {
    assert PcInv(c, send, st.results, step, st.pcs[step]);
    match st.pcs[step] {
      case Start =>
        StartStep(c, send, waves, st, step);
      case Ready =>
        DepsSettled(c, send, waves, st, step);
      case Sending(env) =>
        assert SameEntries(c.deps[step], env, DepResults(c, send, step));
      case _ =>
    }
  }

  /** Only a report changes the wave's errors. */
  lemma ActReports(c: Composition, send: Send, waves: Planner.Waves, st: State, step: string)
    requires Planned(c, send, waves) && Inv(c, send, waves, st) && step in st.pcs && st.pcs[step] != Finished
    ensures var next := Act(c, send, st, step);
            FinishedIn(next.pcs) <= c.deps.Keys && ErrorsOf(c, send, FinishedIn(next.pcs), next.waveErrors)
  {
    var next := Act(c, send, st, step);
    assert st.pcs.Keys <= c.deps.Keys && PcInv(c, send, st.results, step, st.pcs[step]);
    assert FinishedIn(next.pcs) <= c.deps.Keys;
    hide ErrorsOf, Evaluate, Inv, Planned;
    if st.pcs[step].Reporting? {
      ErrorNamesStep(c, send, step);
      ReportStep(c, send, st.pcs, step, st.pcs[step].error, st.waveErrors);
    } else {
      FinishedUnchanged(st.pcs, step, next.pcs[step]);
    }
  }

  lemma ActKeepsInv(c: Composition, send: Send, waves: Planner.Waves, st: State, step: string)
    requires Planned(c, send, waves) && Inv(c, send, waves, st) && st.verdict == Running
    requires step in st.pcs && st.pcs[step] != Finished
    ensures Inv(c, send, waves, Act(c, send, st, step))
  {
    hide Inv, Act, PcInv, ErrorsOf, FinishedIn, OthersKept;
    ActShape(c, send, st, step);
    ActDecides(c, send, waves, st, step);
    ActReports(c, send, waves, st, step);
    var next := Act(c, send, st, step);
    Framed(c, send, waves, st, step, next.pcs[step], next.results, next.waveErrors);
  }

  // ----- Ending a wave keeps it -----

  lemma {:induction false} RequiredIn(errors: seq<StepError>)
    ensures HasRequiredFailure(errors) <==> exists e :: e in errors && !e.optional
  {
    if e :| e in errors && !e.optional {
      var i :| 0 <= i < |errors| && errors[i] == e;
      assert !errors[i].optional;
    }
  }

  /** The errors of two disjoint sets of steps make the errors of both. */
  lemma ErrorsJoin(c: Composition, send: Send, a: set<string>, b: set<string>, xs: seq<StepError>, ys: seq<StepError>)
    requires Plannable(c) && a <= c.deps.Keys && b <= c.deps.Keys && a !! b
    requires ErrorsOf(c, send, a, xs) && ErrorsOf(c, send, b, ys)
    ensures ErrorsOf(c, send, a + b, xs + ys)
  {
    forall x, y | x in xs && y in ys ensures x != y {
      assert x.step in a && y.step in b;
    }
    var zs := xs + ys;
    assert NoDuplicates(zs) by {
      forall i, j | 0 <= i < j < |zs| ensures zs[i] != zs[j] {
        if i < |xs| <= j { assert zs[i] in xs && zs[j] in ys; }
      }
    }
  }

  lemma WaveRequired(c: Composition, send: Send, steps: set<string>, errors: seq<StepError>)
    requires Plannable(c) && steps <= c.deps.Keys && ErrorsOf(c, send, steps, errors)
    ensures HasRequiredFailure(errors) <==> !NoRequired(c, send, steps)
  {
    RequiredIn(errors);
    if e :| e in errors && !e.optional {
      assert RequiredFailure(c, send, e.step);
    }
    if s :| s in steps && RequiredFailure(c, send, s) {
      assert Evaluate(c, send, s).error.value in errors;
    }
  }

  lemma AllFinished(pcs: map<string, Pc>)
    requires forall s :: s in pcs ==> pcs[s] == Finished
    ensures FinishedIn(pcs) == pcs.Keys
  {
  }

  lemma NoneFinished(wave: seq<string>)
    ensures Begin(wave).Keys == ToSet(wave) && FinishedIn(Begin(wave)) == {}
  {
  }

  lemma AbortKeepsInv(c: Composition, send: Send, waves: Planner.Waves, st: State)
    requires Planned(c, send, waves) && Inv(c, send, waves, st) && st.verdict == Running
    requires WaveOver(st) && HasRequiredFailure(st.waveErrors)
    ensures Inv(c, send, waves, EndWave(waves, st))
  {
    var e := FirstRequired(st.waveErrors);
    assert e.step in FinishedIn(st.pcs) && Evaluate(c, send, e.step).error == Some(e);
    assert Collected(EndWave(waves, st)) == st.allErrors;
  }

  /** The steps of a finished wave join those behind it. */
  lemma WaveSettles(c: Composition, send: Send, done: set<string>, layer: set<string>, results: Results,
                    all: seq<StepError>, errors: seq<StepError>)
    requires Plannable(c) && done <= c.deps.Keys && layer <= c.deps.Keys && done !! layer
    requires Behind(c, send, done, results, all)
    requires forall s :: s in layer ==> Settled(c, send, results, s)
    requires ErrorsOf(c, send, layer, errors) && !HasRequiredFailure(errors)
    ensures Behind(c, send, done + layer, results, all + errors)
  {
    WaveRequired(c, send, layer, errors);
    ErrorsJoin(c, send, done, layer, all, errors);
  }

  lemma DoneAndLayer(g: Graph, k: nat)
    ensures Done(g, k + 1) == Done(g, k) + Layer(g, k) && Done(g, k) !! Layer(g, k)
  {
    DoneGrows(g, k, k + 1);
  }

  /** No step of the next wave has been touched. */
  lemma NextWaveStarts(c: Composition, send: Send, k: nat, wave: seq<string>, results: Results)
    requires Plannable(c) && Closed(c.deps) && Planner.IsWave(c.deps, k, wave)
    requires results.Keys <= Done(c.deps, k)
    ensures Begin(wave).Keys == Layer(c.deps, k) && FinishedIn(Begin(wave)) == {}
    ensures InFlight(c, send, Begin(wave), results)
    ensures ErrorsOf(c, send, {}, [])
  {
    NoneFinished(wave);
  }

  lemma WaveBehind(c: Composition, send: Send, waves: Planner.Waves, st: State)
    requires Planned(c, send, waves) && Inv(c, send, waves, st) && st.verdict == Running
    requires WaveOver(st) && !HasRequiredFailure(st.waveErrors)
    ensures Behind(c, send, Done(c.deps, st.wave + 1), st.results, st.allErrors + st.waveErrors)
    ensures st.results.Keys <= Done(c.deps, st.wave + 1)
  {
    var done, layer := Done(c.deps, st.wave), Layer(c.deps, st.wave);
    AllFinished(st.pcs);
    forall s | s in layer ensures Settled(c, send, st.results, s) {
      assert PcInv(c, send, st.results, s, st.pcs[s]);
    }
    DoneAndLayer(c.deps, st.wave);
    WaveSettles(c, send, done, layer, st.results, st.allErrors, st.waveErrors);
  }

  lemma AdvanceKeepsInv(c: Composition, send: Send, waves: Planner.Waves, st: State)
    requires Planned(c, send, waves) && Inv(c, send, waves, st) && st.verdict == Running
    requires WaveOver(st) && !HasRequiredFailure(st.waveErrors)
    ensures Inv(c, send, waves, EndWave(waves, st))
  {
    hide Behind, InFlight, ErrorsOf, AbortIsRight;
    WaveBehind(c, send, waves, st);
    AdvanceFrom(c, send, waves, st, st.wave + 1);
  }

  lemma AdvanceFrom(c: Composition, send: Send, waves: Planner.Waves, st: State, k: nat)
    requires Planned(c, send, waves) && st.wave + 1 == k <= |waves| && !HasRequiredFailure(st.waveErrors)
    requires Behind(c, send, Done(c.deps, k), st.results, st.allErrors + st.waveErrors)
    requires st.results.Keys <= Done(c.deps, k)
    ensures Inv(c, send, waves, EndWave(waves, st))
  {
    hide Inv, Planned, Behind, Done, HasRequiredFailure, FirstRequired;
    if k < |waves| {
      StartHasInv(c, send, waves, k, st.results, st.allErrors + st.waveErrors);
    } else {
      ReturnHasInv(c, send, waves, k, st.results, st.allErrors + st.waveErrors);
    }
  }

  lemma StartHasInv(c: Composition, send: Send, waves: Planner.Waves, k: nat, results: Results, errors: seq<StepError>)
    requires Planned(c, send, waves) && k < |waves|
    requires Behind(c, send, Done(c.deps, k), results, errors) && results.Keys <= Done(c.deps, k)
    ensures Inv(c, send, waves, State(k, Begin(waves[k]), results, [], errors, Running))
  {
    assert Planner.IsWave(c.deps, k, waves[k]);
    NextWaveStarts(c, send, k, waves[k], results);
  }

  lemma ReturnHasInv(c: Composition, send: Send, waves: Planner.Waves, k: nat, results: Results, errors: seq<StepError>)
    requires Planned(c, send, waves) && k == |waves|
    requires Behind(c, send, Done(c.deps, k), results, errors) && results.Keys <= Done(c.deps, k)
    ensures Inv(c, send, waves, State(k, map[], results, [], errors, Returned))
  {
    assert FinishedIn(map[]) == {};
  }

  // ----- Every schedule -----

  lemma InitHasInv(c: Composition, send: Send, waves: Planner.Waves)
    requires Planned(c, send, waves)
    ensures Inv(c, send, waves, Init(waves))
  {
    if waves == [] {
      ReturnHasInv(c, send, waves, 0, map[], []);
    } else {
      StartHasInv(c, send, waves, 0, map[], []);
    }
  }

  lemma NextKeepsInv(c: Composition, send: Send, waves: Planner.Waves, a: State, b: State)
    requires Planned(c, send, waves) && Inv(c, send, waves, a) && Next(c, send, waves, a, b)
    ensures Inv(c, send, waves, b)
  {
    if WaveOver(a) {
      if HasRequiredFailure(a.waveErrors) {
        AbortKeepsInv(c, send, waves, a);
      } else {
        AdvanceKeepsInv(c, send, waves, a);
      }
    } else {
      var s :| s in a.pcs && a.pcs[s] != Finished && b == Act(c, send, a, s);
      ActKeepsInv(c, send, waves, a, s);
    }
  }

  /** Whatever the interleaving, every state keeps the invariant. */
  lemma {:induction false} ScheduleHasInv(c: Composition, send: Send, waves: Planner.Waves, run: seq<State>, n: nat)
    requires Planned(c, send, waves) && Schedule(c, send, waves, run) && n < |run|
    ensures Inv(c, send, waves, run[n])
  {
    if n == 0 {
      InitHasInv(c, send, waves);
    } else {
      ScheduleHasInv(c, send, waves, run, n - 1);
      assert Next(c, send, waves, run[n - 1], run[n - 1 + 1]);
      NextKeepsInv(c, send, waves, run[n - 1], run[n]);
    }
  }

  // ----- What a finished schedule has computed -----

  /** The results map the evaluator prescribes: the entries of the steps that write one. */
  ghost function ExpectedResults(c: Composition, send: Send): Results
    requires Plannable(c)
  {
    map s | s in c.deps && Evaluate(c, send, s).writes :: Evaluate(c, send, s).result
  }

  /** Some entry is nil, or stands for a response an error rule replaced. */
  ghost predicate Degraded(c: Composition, send: Send)
    requires Plannable(c)
  {
    exists s :: s in c.deps &&
      (Evaluate(c, send, s).result == None || Evaluate(c, send, s).result.value.errorRuleMatched)
  }

  ghost predicate ReturnedRight(c: Composition, send: Send, results: Results, errors: seq<StepError>)
    requires Plannable(c)
  {
    && results == ExpectedResults(c, send)
    && ErrorsOf(c, send, c.deps.Keys, errors)
    && (errors != [] <==> Degraded(c, send))
    && NoRequired(c, send, c.deps.Keys)
  }

  /** step is a required failure of wave k, no earlier wave holds one, and no later wave has run. */
  ghost predicate AbortedRight(c: Composition, send: Send, k: nat, results: Results, step: string, cause: Cause)
    requires Plannable(c)
  {
    && step in Layer(c.deps, k) && RequiredFailure(c, send, step)
    && cause == Evaluate(c, send, step).error.value.cause
    && NoRequired(c, send, Done(c.deps, k))
    && results.Keys <= Done(c.deps, k + 1)
  }

  lemma BehindAll(c: Composition, send: Send, results: Results, errors: seq<StepError>)
    requires Plannable(c) && Closed(c.deps)
    requires Behind(c, send, c.deps.Keys, results, errors) && results.Keys <= c.deps.Keys
    ensures ReturnedRight(c, send, results, errors)
  {
    forall s | s in c.deps ensures Settled(c, send, results, s) {}
    assert results.Keys == ExpectedResults(c, send).Keys;
    forall s | s in c.deps
      ensures Evaluate(c, send, s).error.Some? <==>
              Evaluate(c, send, s).result == None || Evaluate(c, send, s).result.value.errorRuleMatched
    {
      ErrorIffNilOrMatched(c, send, s);
    }
    if errors != [] {
      assert errors[0] in errors && errors[0].step in c.deps;
    }
  }

  lemma InvDecides(c: Composition, send: Send, waves: Planner.Waves, st: State)
    requires Planned(c, send, waves) && Inv(c, send, waves, st)
    ensures st.verdict == Returned ==> ReturnedRight(c, send, st.results, st.allErrors)
    ensures st.verdict.Aborted? ==>
              AbortedRight(c, send, st.wave, st.results, st.verdict.step, st.verdict.cause)
  {
    hide Settled, ErrorsOf, InFlight, ReturnedRight, PcInv;
    if st.verdict == Returned {
      assert Done(c.deps, st.wave) == c.deps.Keys;
      BehindAll(c, send, st.results, st.allErrors);
    } else if st.verdict.Aborted? {
      DoneAndLayer(c.deps, st.wave);
    }
  }

  /**
   * Refinement: whatever the interleaving of a wave's goroutines, a run that
   * returns has the evaluator's results and errors, and a run that aborts
   * names a required failure of the earliest wave that has one.
   */
  lemma ScheduleRefinesEvaluator(c: Composition, send: Send, waves: Planner.Waves, run: seq<State>)
    requires Planned(c, send, waves) && Schedule(c, send, waves, run)
    ensures var last := run[|run| - 1];
            && (last.verdict == Returned ==> ReturnedRight(c, send, last.results, last.allErrors))
            && (last.verdict.Aborted? ==>
                  AbortedRight(c, send, last.wave, last.results, last.verdict.step, last.verdict.cause))
  {
    ScheduleHasInv(c, send, waves, run, |run| - 1);
    InvDecides(c, send, waves, run[|run| - 1]);
  }

  /** Two schedules of one composition return the same results, or both abort. */
  lemma ScheduleIrrelevant(c: Composition, send: Send, waves: Planner.Waves, r1: seq<State>, r2: seq<State>)
    requires Planned(c, send, waves) && Schedule(c, send, waves, r1) && Schedule(c, send, waves, r2)
    requires r1[|r1| - 1].verdict != Running && r2[|r2| - 1].verdict != Running
    ensures var a, b := r1[|r1| - 1], r2[|r2| - 1];
            && (a.verdict == Returned <==> b.verdict == Returned)
            && (a.verdict == Returned ==> a.results == b.results && ToSet(a.allErrors) == ToSet(b.allErrors))
            && (a.verdict.Aborted? ==> a.wave == b.wave)
  {
    hide ErrorsOf, Settled, Next, ExpectedResults, RequiredFailure;
    var a, b := r1[|r1| - 1], r2[|r2| - 1];
    ScheduleRefinesEvaluator(c, send, waves, r1);
    ScheduleRefinesEvaluator(c, send, waves, r2);
    if a.verdict == Returned && b.verdict == Returned {
      SameErrors(c, send, a.allErrors, b.allErrors);
    }
    if a.verdict.Aborted? && b.verdict.Aborted? {
      if a.wave < b.wave { DoneGrows(c.deps, a.wave + 1, b.wave); }
      if b.wave < a.wave { DoneGrows(c.deps, b.wave + 1, a.wave); }
    }
  }

  lemma SameErrors(c: Composition, send: Send, xs: seq<StepError>, ys: seq<StepError>)
    requires Plannable(c) && ErrorsOf(c, send, c.deps.Keys, xs) && ErrorsOf(c, send, c.deps.Keys, ys)
    ensures ToSet(xs) == ToSet(ys)
  {
  }

  // ----- Every schedule ends -----

  ghost function Rank(pc: Pc): nat {
    match pc
    case Start => 5
    case Ready => 4
    case Sending(_) => 3
    case Writing(_) => 2
    case Skipping => 2
    case Reporting(_) => 1
    case Finished => 0
  }

  /** The goroutine steps the wave still has before it. */
  ghost function Work(pcs: map<string, Pc>, wave: seq<string>): nat {
    if wave == [] then 0 else (if wave[0] in pcs then Rank(pcs[wave[0]]) else 0) + Work(pcs, wave[1..])
  }

  lemma {:induction false} WorkDrops(pcs: map<string, Pc>, wave: seq<string>, step: string, pc: Pc)
    requires step in pcs && Rank(pc) < Rank(pcs[step])
    ensures Work(pcs[step := pc], wave) <= Work(pcs, wave)
    ensures step in wave ==> Work(pcs[step := pc], wave) < Work(pcs, wave)
  {
    if wave != [] { WorkDrops(pcs, wave[1..], step, pc); }
  }

  lemma {:induction false} WorkOfBegin(pcs: map<string, Pc>, wave: seq<string>)
    ensures Work(pcs, wave) <= 5 * |wave|
  {
    if wave != [] { WorkOfBegin(pcs, wave[1..]); }
  }

  ghost function Later(waves: Planner.Waves, k: nat): nat
    decreases |waves| - k
  {
    if k >= |waves| then 0 else 1 + 5 * |waves[k]| + Later(waves, k + 1)
  }

  /** An upper bound on the atomic steps that are left. */
  ghost function StepsLeft(waves: Planner.Waves, st: State): nat {
    if st.verdict == Running && st.wave < |waves| then Work(st.pcs, waves[st.wave]) + 1 + Later(waves, st.wave + 1) else 0
  }

  lemma ActUsesWork(c: Composition, send: Send, st: State, step: string)
    requires Plannable(c) && Closed(c.deps) && step in st.pcs && st.pcs[step] != Finished
    requires step in c.deps && PcInv(c, send, st.results, step, st.pcs[step])
    ensures Rank(Act(c, send, st, step).pcs[step]) < Rank(st.pcs[step])
    ensures Act(c, send, st, step).pcs == st.pcs[step := Act(c, send, st, step).pcs[step]]
    ensures Act(c, send, st, step).wave == st.wave && Act(c, send, st, step).verdict == st.verdict
  {
  }

  lemma EndUsesAStep(waves: Planner.Waves, a: State)
    requires a.verdict == Running && a.wave < |waves|
    ensures StepsLeft(waves, EndWave(waves, a)) < StepsLeft(waves, a)
  {
    var b := EndWave(waves, a);
    if b.verdict == Running {
      WorkOfBegin(b.pcs, waves[b.wave]);
    }
  }

  lemma LessLeft(waves: Planner.Waves, a: State, b: State)
    requires a.verdict == b.verdict == Running && a.wave == b.wave < |waves|
    ensures Work(b.pcs, waves[a.wave]) < Work(a.pcs, waves[a.wave]) ==> StepsLeft(waves, b) < StepsLeft(waves, a)
  {
  }

  lemma GoroutineUsesAStep(c: Composition, send: Send, waves: Planner.Waves, a: State, s: string)
    requires Planned(c, send, waves) && a.verdict == Running && Position(c, waves, a)
    requires s in a.pcs && a.pcs[s] != Finished && s in c.deps && PcInv(c, send, a.results, s, a.pcs[s])
    ensures StepsLeft(waves, Act(c, send, a, s)) < StepsLeft(waves, a)
  {
    hide PcInv, LocalSend, Act, Work, StepsLeft, Rank;
    assert Planner.IsWave(c.deps, a.wave, waves[a.wave]);
    assert s in ToSet(waves[a.wave]);
    ActUsesWork(c, send, a, s);
    LessLeft(waves, a, Act(c, send, a, s));
    WorkDrops(a.pcs, waves[a.wave], s, Act(c, send, a, s).pcs[s]);
  }

  lemma NextUsesAStep(c: Composition, send: Send, waves: Planner.Waves, a: State, b: State)
    requires Planned(c, send, waves) && Inv(c, send, waves, a) && Next(c, send, waves, a, b)
    ensures StepsLeft(waves, b) < StepsLeft(waves, a)
  {
    hide PcInv, ErrorsOf, Behind, LocalSend, Act, EndWave, StepsLeft;
    if WaveOver(a) {
      EndUsesAStep(waves, a);
    } else {
      var s :| s in a.pcs && a.pcs[s] != Finished && b == Act(c, send, a, s);
      GoroutineUsesAStep(c, send, waves, a, s);
    }
  }

  lemma {:induction false} StepsAreBounded(c: Composition, send: Send, waves: Planner.Waves, run: seq<State>, n: nat)
    requires Planned(c, send, waves) && Schedule(c, send, waves, run) && n < |run|
    ensures n + StepsLeft(waves, run[n]) <= Later(waves, 0)
  {
    if n == 0 {
      if waves != [] { WorkOfBegin(Begin(waves[0]), waves[0]); }
    } else {
      StepsAreBounded(c, send, waves, run, n - 1);
      ScheduleHasInv(c, send, waves, run, n - 1);
      assert Next(c, send, waves, run[n - 1], run[n - 1 + 1]);
      NextUsesAStep(c, send, waves, run[n - 1], run[n]);
    }
  }

  /** No schedule runs for ever, and one that has no verdict yet can go on. */
  lemma SchedulesEnd(c: Composition, send: Send, waves: Planner.Waves, run: seq<State>) returns (next: State)
    requires Planned(c, send, waves) && Schedule(c, send, waves, run)
    ensures |run| <= Later(waves, 0) + 1
    ensures run[|run| - 1].verdict == Running ==> Next(c, send, waves, run[|run| - 1], next)
  {
    StepsAreBounded(c, send, waves, run, |run| - 1);
    var a := run[|run| - 1];
    if WaveOver(a) {
      next := EndWave(waves, a);
    } else {
      var s :| s in a.pcs && a.pcs[s] != Finished;
      next := Act(c, send, a, s);
    }
  }
}
