/**
 * internal/composition/dag.go: the gateway's wave planner, Kahn's algorithm
 * over step names. Go ranges over maps in an unspecified order, so every such
 * loop here picks any remaining key.
 */
module Planner {
  import opened Wrappers
  import opened Sorting
  import opened DependencyGraph

  /** The error of BuildDAG. */
  datatype PlanError =
    | MissingStep(step: string, dep: string)
    | Cycle(steps: seq<string>)

  type Waves = seq<seq<string>>

  /** waves runs every step, each in the wave Done assigns to it, none twice. */
  ghost predicate IsPlan(g: Graph, waves: Waves) {
    Done(g, |waves|) == g.Keys && AreWaves(g, waves)
  }

  ghost predicate AreWaves(g: Graph, waves: Waves) {
    forall k :: 0 <= k < |waves| ==> IsWave(g, k, waves[k])
  }

  ghost predicate IsWave(g: Graph, k: nat, wave: seq<string>) {
    wave != [] && NoDuplicates(wave) && ToSet(wave) == Layer(g, k)
  }

  /** The names in a cycle error: the steps that never run, sorted. */
  ghost predicate IsCycleReport(g: Graph, names: seq<string>) {
    names != [] && Sorted(names) && NoDuplicates(names) && ToSet(names) == g.Keys - Runnable(g)
  }

  // ----- Counting unmet dependencies -----

  /** How many entries of deps are outside done; a repeated entry counts each time. */
  ghost function Unmet(deps: seq<string>, done: set<string>): nat {
    if deps == [] then 0 else (if deps[0] in done then 0 else 1) + Unmet(deps[1..], done)
  }

  lemma {:induction false} UnmetZero(deps: seq<string>, done: set<string>)
    ensures Unmet(deps, done) == 0 <==> Satisfied(deps, done)
  {
    if deps != [] {
      UnmetZero(deps[1..], done);
      assert deps == [deps[0]] + deps[1..];
    }
  }

  lemma {:induction false} UnmetOfNone(deps: seq<string>)
    ensures Unmet(deps, {}) == |deps|
  {
    if deps != [] { UnmetOfNone(deps[1..]); }
  }

  /** Finishing step meets exactly the entries that name it. */
  lemma {:induction false} UnmetAfter(deps: seq<string>, done: set<string>, step: string)
    requires step !in done
    ensures Unmet(deps, done + {step}) == Unmet(deps, done) - multiset(deps)[step]
  {
    if deps != [] {
      UnmetAfter(deps[1..], done, step);
      assert deps == [deps[0]] + deps[1..];
    }
  }

  // ----- The adjacency lists -----

  /** The dependents recorded for dep; Go reads a missing map entry as nil. */
  function Dependents(edges: Graph, dep: string): seq<string> {
    if dep in edges then edges[dep] else []
  }

  /** How often s is recorded under dep. */
  ghost function Recorded(edges: Graph, dep: string, s: string): nat {
    multiset(Dependents(edges, dep))[s]
  }

  /** How often a step of steps names dep. */
  ghost function Named(g: Graph, steps: set<string>, dep: string, s: string): nat {
    if s in steps && s in g then multiset(g[s])[dep] else 0
  }

  /** edges lists a step under dep once for each time the step names dep. */
  ghost predicate Inverts(g: Graph, steps: set<string>, edges: Graph) {
    forall dep, s :: Recorded(edges, dep, s) == Named(g, steps, dep, s)
  }

  lemma AddEdge(edges: Graph, dep: string, step: string, d: string, s: string)
    ensures Recorded(edges[dep := Dependents(edges, dep) + [step]], d, s) ==
            Recorded(edges, d, s) + if d == dep && s == step then 1 else 0
  {
  }

  /** Records step under each of its dependencies. */
  method AddEdges(step: string, deps: seq<string>, edges0: Graph) returns (edges: Graph)
    ensures forall d, s :: Recorded(edges, d, s) == Recorded(edges0, d, s) + if s == step then multiset(deps)[d] else 0
  {
    edges := edges0;
    for i := 0 to |deps|
      invariant forall d, s {:trigger Recorded(edges, d, s)} ::
                  Recorded(edges, d, s) == Recorded(edges0, d, s) + if s == step then multiset(deps[..i])[d] else 0
    {
      assert deps[..i + 1] == deps[..i] + [deps[i]];
      var next := edges[deps[i] := Dependents(edges, deps[i]) + [step]];
      forall d, s
        ensures Recorded(next, d, s) == Recorded(edges0, d, s) + if s == step then multiset(deps[..i + 1])[d] else 0
      {
        AddEdge(edges, deps[i], step, d, s);
      }
      edges := next;
    }
    assert deps[..|deps|] == deps;
  }

  /** The first two loops: in-degrees and reversed edges. */
  method CountEdges(deps: Graph) returns (inDegree: map<string, int>, edges: Graph)
    ensures inDegree.Keys == deps.Keys
    ensures forall s :: s in deps ==> inDegree[s] == |deps[s]|
    ensures Inverts(deps, deps.Keys, edges)
  {
    inDegree, edges := map[], map[];
    var rest := deps.Keys;
    while rest != {}
      invariant rest <= deps.Keys && inDegree.Keys == deps.Keys - rest
    {
      var step :| step in rest;
      if step !in inDegree {
        inDegree := inDegree[step := 0];
      }
      rest := rest - {step};
    }
    rest := deps.Keys;
    while rest != {}
      invariant rest <= deps.Keys && inDegree.Keys == deps.Keys
      invariant forall s :: s in deps && s !in rest ==> inDegree[s] == |deps[s]|
      invariant Inverts(deps, deps.Keys - rest, edges)
    {
      var step :| step in rest;
      inDegree := inDegree[step := |deps[step]|];
      edges := AddEdges(step, deps[step], edges);
      rest := rest - {step};
    }
    assert deps.Keys - rest == deps.Keys;
  }

  /** The steps with in-degree zero, or those above zero. */
  method WithDegree(inDegree: map<string, int>, zero: bool) returns (steps: seq<string>)
    ensures NoDuplicates(steps)
    ensures forall s :: s in steps <==> s in inDegree && (inDegree[s] == 0 <==> zero)
  {
    steps := [];
    var rest := inDegree.Keys;
    while rest != {}
      invariant rest <= inDegree.Keys
      invariant NoDuplicates(steps)
      invariant forall s :: s in steps <==> s in inDegree && s !in rest && (inDegree[s] == 0 <==> zero)
    {
      var step :| step in rest;
      if (inDegree[step] == 0) == zero {
        steps := steps + [step];
      }
      rest := rest - {step};
    }
  }

  /** inDegree counts the entries still unmet when done and the released entries are over. */
  ghost predicate DegreesAre(g: Graph, inDegree: map<string, int>, done: set<string>, released: multiset<string>) {
    inDegree.Keys == g.Keys && forall s :: s in g ==> inDegree[s] == Unmet(g[s], done) - released[s]
  }

  /** queue holds the steps that became ready since those in started did. */
  ghost predicate BecameReady(inDegree: map<string, int>, queue: seq<string>, started: set<string>) {
    && NoDuplicates(queue)
    && (forall s :: s in started ==> s in inDegree && inDegree[s] == 0)
    && forall s :: s in queue <==> s in inDegree && inDegree[s] == 0 && s !in started
  }

  /** The i-th dependent is a step that still has an unmet entry for this step. */
  lemma EntryLeft(g: Graph, edges: Graph, step: string, i: nat, done: set<string>)
    requires Inverts(g, g.Keys, edges) && step !in done
    requires i < |Dependents(edges, step)|
    ensures var waiting := Dependents(edges, step);
            waiting[i] in g && Unmet(g[waiting[i]], done) > multiset(waiting[..i])[waiting[i]]
  {
    var waiting := Dependents(edges, step);
    var s := waiting[i];
    assert waiting == waiting[..i] + [s] + waiting[i + 1..];
    assert Recorded(edges, step, s) == Named(g, g.Keys, step, s);
    UnmetAfter(g[s], done, step);
  }

  lemma ReleaseOne(g: Graph, inDegree: map<string, int>, queue: seq<string>, started: set<string>, done: set<string>,
                   released: multiset<string>, s: string)
    requires DegreesAre(g, inDegree, done, released) && BecameReady(inDegree, queue, started)
    requires s in g && Unmet(g[s], done) > released[s]
    ensures s in inDegree && var after := inDegree[s := inDegree[s] - 1];
            && DegreesAre(g, after, done, released + multiset{s})
            && BecameReady(after, if after[s] == 0 then queue + [s] else queue, started)
  {
    assert inDegree[s] > 0;
  }

  lemma AllReleased(g: Graph, edges: Graph, step: string, inDegree: map<string, int>, done: set<string>)
    requires Inverts(g, g.Keys, edges) && step !in done
    requires DegreesAre(g, inDegree, done, multiset(Dependents(edges, step)))
    ensures DegreesAre(g, inDegree, done + {step}, multiset{})
  {
    forall s | s in g ensures inDegree[s] == Unmet(g[s], done + {step}) {
      assert Recorded(edges, step, s) == Named(g, g.Keys, step, s);
      UnmetAfter(g[s], done, step);
    }
  }

  /** One step of a wave is done: release the steps that wait for it. */
  method Release(g: Graph, edges: Graph, step: string, inDegree0: map<string, int>, queue0: seq<string>,
                 ghost started: set<string>, ghost done: set<string>)
    returns (inDegree: map<string, int>, nextQueue: seq<string>)
    requires Inverts(g, g.Keys, edges) && step !in done
    requires DegreesAre(g, inDegree0, done, multiset{}) && BecameReady(inDegree0, queue0, started)
    ensures DegreesAre(g, inDegree, done + {step}, multiset{})
    ensures BecameReady(inDegree, nextQueue, started)
  {
    inDegree, nextQueue := inDegree0, queue0;
    var waiting := Dependents(edges, step);
    for i := 0 to |waiting|
      invariant DegreesAre(g, inDegree, done, multiset(waiting[..i]))
      invariant BecameReady(inDegree, nextQueue, started)
    {
      hide Inverts, DegreesAre;
      var dependent := waiting[i];
      assert waiting[..i + 1] == waiting[..i] + [dependent];
      EntryLeft(g, edges, step, i, done);
      ReleaseOne(g, inDegree, nextQueue, started, done, multiset(waiting[..i]), dependent);
      hide BecameReady;
      inDegree := inDegree[dependent := inDegree[dependent] - 1];
      if inDegree[dependent] == 0 {
        nextQueue := nextQueue + [dependent];
      }
    }
    assert waiting[..|waiting|] == waiting;
    AllReleased(g, edges, step, inDegree, done);
  }

  lemma ReadyAreNext(g: Graph, inDegree: map<string, int>, k: nat, queue: seq<string>)
    requires Consistent(g, inDegree, queue, Done(g, k))
    ensures NoDuplicates(queue) && ToSet(queue) == Layer(g, k)
  {
    forall s | s in g ensures inDegree[s] == 0 <==> s in Done(g, k + 1) {
      UnmetZero(g[s], Done(g, k));
      DoneStep(g, k, s);
    }
  }

  lemma NextInQueue(queue: seq<string>, i: nat)
    requires NoDuplicates(queue) && i < |queue|
    ensures ToSet(queue[..i + 1]) == ToSet(queue[..i]) + {queue[i]} && queue[i] !in queue[..i] && queue[i] in queue
  {
    assert queue[..i + 1] == queue[..i] + [queue[i]];
  }

  /** The body of the wave loop: runs the queue and collects the next one. */
  method RunWave(g: Graph, edges: Graph, queue: seq<string>, inDegree0: map<string, int>, ghost before: set<string>)
    returns (inDegree: map<string, int>, nextQueue: seq<string>)
    requires Inverts(g, g.Keys, edges)
    requires Consistent(g, inDegree0, queue, before)
    ensures Consistent(g, inDegree, nextQueue, before + ToSet(queue))
  {
    inDegree, nextQueue := inDegree0, [];
    ghost var done := before;
    assert NoDuplicates(queue) && forall s :: s in queue ==> s !in before;
    for i := 0 to |queue|
      invariant done == before + ToSet(queue[..i])
      invariant DegreesAre(g, inDegree, done, multiset{})
      invariant BecameReady(inDegree, nextQueue, before + ToSet(queue))
    {
      hide DegreesAre, BecameReady, Inverts;
      NextInQueue(queue, i);
      inDegree, nextQueue := Release(g, edges, queue[i], inDegree, nextQueue, before + ToSet(queue), done);
      done := done + {queue[i]};
    }
    assert queue[..|queue|] == queue;
  }

  lemma WaveAdds(g: Graph, k: nat, wave: seq<string>)
    requires IsWave(g, k, wave)
    ensures Done(g, k + 1) == Done(g, k) + ToSet(wave)
    ensures |Done(g, k + 1)| == |Done(g, k)| + |wave| <= |g|
  {
    DoneGrows(g, k, k + 1);
    CardinalityOfDistinct(wave);
    assert Done(g, k + 1) == Done(g, k) + ToSet(wave);
    CardinalityLeq(Done(g, k + 1), g.Keys);
  }

  lemma AppendWave(g: Graph, waves: Waves, wave: seq<string>)
    requires AreWaves(g, waves) && IsWave(g, |waves|, wave)
    ensures AreWaves(g, waves + [wave])
  {
  }

  /** What the wave loop knows of its degrees and its queue when done are the finished steps. */
  ghost predicate Consistent(g: Graph, inDegree: map<string, int>, queue: seq<string>, done: set<string>) {
    DegreesAre(g, inDegree, done, multiset{}) && BecameReady(inDegree, queue, done)
  }

  lemma QueueIsWave(g: Graph, waves: Waves, inDegree: map<string, int>, queue: seq<string>)
    requires AreWaves(g, waves) && queue != []
    requires Consistent(g, inDegree, queue, Done(g, |waves|))
    ensures AreWaves(g, waves + [queue])
    ensures Done(g, |waves + [queue]|) == Done(g, |waves|) + ToSet(queue)
    ensures |Done(g, |waves|) + ToSet(queue)| == |Done(g, |waves|)| + |queue| <= |g|
  {
    ReadyAreNext(g, inDegree, |waves|, queue);
    WaveAdds(g, |waves|, queue);
    AppendWave(g, waves, queue);
  }

  /** Plans the waves, or names the steps that wait for a cycle. */
  method BuildExecutionPlan(deps: Graph) returns (r: Result<Waves, seq<string>>)
    ensures r.Success? <==> Runnable(deps) == deps.Keys
    ensures r.Success? ==> IsPlan(deps, r.value)
    ensures r.Failure? ==> IsCycleReport(deps, r.error)
  {
    var inDegree, edges := CountEdges(deps);
    forall s | s in deps ensures inDegree[s] == Unmet(deps[s], {}) {
      UnmetOfNone(deps[s]);
    }
    var queue := WithDegree(inDegree, true);
    var waves, processed;
    waves, processed, inDegree := RunWaves(deps, edges, inDegree, queue);
    assert |inDegree| == |inDegree.Keys| == |deps.Keys|;
    if processed != |inDegree| {
      var cycleSteps := WithDegree(inDegree, false);
      NeverReady(deps, inDegree, |waves|, cycleSteps);
      var sorted := Sort(cycleSteps);
      SomeNeverRun(deps, sorted);
      return Failure(sorted);
    }
    CardinalityFull(Done(deps, |waves|), deps.Keys);
    return Success(waves);
  }

  lemma SomeNeverRun(g: Graph, names: seq<string>)
    requires Runnable(g) != g.Keys && ToSet(names) == g.Keys - Runnable(g)
    ensures names != []
  {
    var s :| s in g && s !in Runnable(g);
    assert s in ToSet(names);
  }

  /** The loop over waves. */
  method RunWaves(deps: Graph, edges: Graph, inDegree0: map<string, int>, queue0: seq<string>)
    returns (waves: Waves, processed: nat, inDegree: map<string, int>)
    requires Inverts(deps, deps.Keys, edges)
    requires Consistent(deps, inDegree0, queue0, {})
    ensures AreWaves(deps, waves) && processed == |Done(deps, |waves|)|
    ensures Done(deps, |waves|) == Runnable(deps) && Layer(deps, |waves|) == {}
    ensures DegreesAre(deps, inDegree, Done(deps, |waves|), multiset{})
  {
    waves, processed, inDegree := [], 0, inDegree0;
    var queue := queue0;
    ghost var done := {};
    while |queue| > 0
      invariant done == Done(deps, |waves|)
      invariant Consistent(deps, inDegree, queue, done)
      invariant AreWaves(deps, waves)
      invariant processed == |done| <= |deps|
      decreases |deps| - processed
    {
      var wave := queue;
      QueueIsWave(deps, waves, inDegree, wave);
      inDegree, queue := RunWave(deps, edges, wave, inDegree, done);
      waves := waves + [wave];
      processed := processed + |wave|;
      done := done + ToSet(wave);
    }
    ReadyAreNext(deps, inDegree, |waves|, queue);
    EmptyLayerEnds(deps, |waves|);
  }

  /** After the last wave, the steps with a degree left are those that never run. */
  lemma NeverReady(g: Graph, inDegree: map<string, int>, k: nat, blocked: seq<string>)
    requires DegreesAre(g, inDegree, Done(g, k), multiset{})
    requires Layer(g, k) == {}
    requires forall s :: s in blocked <==> s in inDegree && inDegree[s] != 0
    ensures ToSet(blocked) == g.Keys - Runnable(g)
  {
    EmptyLayerEnds(g, k);
    DoneGrows(g, k, k + 1);
    forall s | s in g ensures inDegree[s] == 0 <==> s in Done(g, k) {
      UnmetZero(g[s], Done(g, k));
      DoneStep(g, k, s);
    }
  }

  /** Refuses a dependency that is no step, then plans. */
  method BuildDAG(stepDeps: Graph) returns (r: Result<Waves, PlanError>)
    ensures r.Success? <==> Closed(stepDeps) && Acyclic(stepDeps)
    ensures r.Success? ==> IsPlan(stepDeps, r.value)
    ensures r.Failure? && r.error.MissingStep? ==>
      r.error.step in stepDeps && r.error.dep in stepDeps[r.error.step] && r.error.dep !in stepDeps
    ensures r.Failure? && r.error.Cycle? ==>
      Closed(stepDeps) && r.error.steps != [] && Sorted(r.error.steps) &&
      forall s :: s in r.error.steps <==> s in stepDeps && ReachesCycle(stepDeps, s)
  {
    var rest := stepDeps.Keys;
    while rest != {}
      invariant rest <= stepDeps.Keys
      invariant forall s, d :: s in stepDeps && s !in rest && d in stepDeps[s] ==> d in stepDeps
    {
      var stepName :| stepName in rest;
      var deps := stepDeps[stepName];
      for i := 0 to |deps|
        invariant forall d :: d in deps[..i] ==> d in stepDeps
      {
        if deps[i] !in stepDeps {
          return Failure(MissingStep(stepName, deps[i]));
        }
      }
      assert deps[..|deps|] == deps;
      rest := rest - {stepName};
    }
    AcyclicIffAllRun(stepDeps);
    var plan := BuildExecutionPlan(stepDeps);
    match plan
    case Success(waves) =>
      return Success(waves);
    case Failure(steps) =>
      forall s | s in stepDeps ensures s in steps <==> ReachesCycle(stepDeps, s) {
        BlockedIffReachesCycle(stepDeps, s);
        assert s in ToSet(steps) <==> s in steps;
      }
      forall s | s in steps ensures s in stepDeps {
        assert s in ToSet(steps);
      }
      return Failure(Cycle(steps));
  }

  /** A plan runs every step once, after everything it waits for. */
  lemma PlanOrdersDependencies(g: Graph, waves: Waves, s: string)
    requires Closed(g) && IsPlan(g, waves) && s in g
    ensures exists k :: 0 <= k < |waves| && s in waves[k] && LongestChain(g, s, k + 1)
    ensures forall j, k :: 0 <= j < |waves| && 0 <= k < |waves| && s in waves[j] && s in waves[k] ==> j == k
    ensures forall j, k, d :: 0 <= j < |waves| && 0 <= k < |waves| && s in waves[k] && d in g[s] && d in waves[j] ==> j < k
  {
    LayersPartition(g, |waves|, s);
    var k: nat :| k < |waves| && s in Layer(g, k);
    LayerIsLongestChain(g, s, k);
    assert s in ToSet(waves[k]);
    forall j | 0 <= j < |waves| && s in waves[j] ensures j == k {
      assert s in ToSet(waves[j]);
    }
    forall j, d | 0 <= j < |waves| && d in g[s] && d in waves[j] ensures j < k {
      assert d in ToSet(waves[j]) && d in Done(g, k);
      if k <= j { DoneGrows(g, k, j); }
    }
  }
}
