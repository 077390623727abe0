/**
 * The composition editor: the second planner and the reachability search of
 * studio/src/lib/dag.ts. The last lemmas hold the editor's planner and the
 * gateway's against each other.
 */
module GraphEditor {
  import opened Sorting
  import opened DependencyGraph
  import Planner

  /** A drawn step: its name and the names in its depends_on. */
  datatype DagStep = DagStep(name: string, dependsOn: seq<string>)

  function Names(steps: seq<DagStep>): (names: set<string>) {
    set s | s in steps :: s.name
  }

  /** The entries of deps that are steps. */
  function Known(deps: seq<string>, names: set<string>): (known: seq<string>)
    ensures forall d :: d in known <==> d in deps && d in names
    ensures (forall d :: d in deps ==> d in names) ==> known == deps
  {
    if deps == [] then []
    else
      assert deps == [deps[0]] + deps[1..];
      (if deps[0] in names then [deps[0]] else []) + Known(deps[1..], names)
  }

  /** No later step has the name. */
  predicate LastOfName(steps: seq<DagStep>, i: int)
    requires 0 <= i < |steps|
  {
    forall j :: i < j < |steps| ==> steps[j].name != steps[i].name
  }

  /** dependsOnMap: of two steps with one name the later entry stands. */
  function DependsOnMap(steps: seq<DagStep>): (g: Graph)
    ensures g.Keys == Names(steps)
    ensures Closed(g)
  {
    var g := Entries(steps, Names(steps));
    assert forall s, d :: s in g && d in g[s] ==> d in g;
    g
  }

  function Entries(steps: seq<DagStep>, names: set<string>): (g: Graph)
    ensures g.Keys == Names(steps)
    ensures forall s, d :: s in g && d in g[s] ==> d in names
  {
    if steps == [] then map[]
    else
      var last := steps[|steps| - 1];
      assert steps == steps[..|steps| - 1] + [last];
      Entries(steps[..|steps| - 1], names)[last.name := Known(last.dependsOn, names)]
  }

  // ----- Reachability -----

  /** What has been seen, is stacked or is the target covers everything a seen step reaches. */
  ghost predicate Explored(g: Graph, seen: set<string>, stacked: set<string>) {
    forall s, d :: s in seen && s in g && d in g[s] ==> d in seen || d in stacked
  }

  lemma {:induction false} SeenIsClosed(g: Graph, seen: set<string>, p: seq<string>)
    requires Explored(g, seen, {}) && |p| > 0 && p[0] in seen
    requires forall i :: 0 <= i < |p| - 1 ==> p[i] in g && p[i + 1] in g[p[i]]
    ensures p[|p| - 1] in seen
  {
    if |p| > 1 {
      assert p[1] in g[p[0]];
      SeenIsClosed(g, seen, p[1..]);
    }
  }

  /** What the search knows: everything on the stack is reachable, and nothing was skipped. */
  ghost predicate Searching(g: Graph, step: string, target: string, seen: set<string>, stacked: set<string>) {
    && seen <= g.Keys + {step} && target !in seen && step in seen + stacked
    && stacked <= g.Keys + {step}
    && (forall s :: s in stacked ==> Reaches(g, step, s))
    && Explored(g, seen, stacked)
  }

  lemma LessToSee(all: set<string>, seen: set<string>, cur: string)
    requires cur in all && cur !in seen
    ensures |all - (seen + {cur})| < |all - seen|
  {
    CardinalityStrict(all - (seen + {cur}), all - seen);
  }

  lemma ExploredOn(g: Graph, seen: set<string>, stacked: set<string>, cur: string, next: set<string>)
    requires Explored(g, seen, stacked + {cur})
    requires next == if cur in g then ToSet(g[cur]) else {}
    ensures Explored(g, seen + {cur}, stacked + next)
  {
  }

  lemma ReachedNext(g: Graph, step: string, cur: string, next: set<string>)
    requires Closed(g) && Reaches(g, step, cur) && next == if cur in g then ToSet(g[cur]) else {}
    ensures forall d :: d in next ==> d in g && Reaches(g, step, d)
  {
    forall d | d in next ensures d in g && Reaches(g, step, d) {
      ReachesFurther(g, step, cur, d);
    }
  }

  lemma SearchOn(g: Graph, step: string, target: string, seen: set<string>, stacked: set<string>, cur: string,
                 next: set<string>)
    requires Closed(g) && Searching(g, step, target, seen, stacked + {cur}) && cur != target && cur !in seen
    requires next == if cur in g then ToSet(g[cur]) else {}
    ensures Searching(g, step, target, seen + {cur}, stacked + next)
    ensures |g.Keys + {step} - (seen + {cur})| < |g.Keys + {step} - seen|
  {
    hide Reaches, Explored, Closed;
    assert cur in stacked + {cur} && Explored(g, seen, stacked + {cur});
    LessToSee(g.Keys + {step}, seen, cur);
    ReachedNext(g, step, cur, next);
    ExploredOn(g, seen, stacked, cur, next);
  }

  lemma SearchDone(g: Graph, step: string, target: string, seen: set<string>)
    requires Searching(g, step, target, seen, {})
    ensures !Reaches(g, step, target)
  {
    if p :| Route(g, p, step, target) {
      SeenIsClosed(g, seen, p);
    }
  }

  /** The worklist loop of dependsOnTransitively, on a last-in-first-out stack. */
  method Search(g: Graph, step: string, target: string) returns (reached: bool)
    requires Closed(g)
    ensures reached <==> Reaches(g, step, target)
  {
    var seen := {};
    var stack := [step];
    while |stack| > 0
      invariant Searching(g, step, target, seen, ToSet(stack))
      decreases |g.Keys + {step} - seen|, |stack|
    {
      var cur := stack[|stack| - 1];
      ToSetOfLast(stack);
      stack := stack[..|stack| - 1];
      if cur == target {
        return true;
      }
      if cur in seen {
        continue;
      }
      var next := if cur in g then g[cur] else [];
      SearchOn(g, step, target, seen, ToSet(stack), cur, ToSet(next));
      seen := seen + {cur};
      ToSetOfSum(stack, next);
      stack := stack + next;
    }
    assert ToSet(stack) == {};
    SearchDone(g, step, target, seen);
    return false;
  }

  /** dependsOnTransitively decides reachability, a step reaching itself included. */
  method DependsOnTransitively(steps: seq<DagStep>, step: string, target: string) returns (reached: bool)
    ensures reached <==> Reaches(DependsOnMap(steps), step, target)
  {
    reached := Search(DependsOnMap(steps), step, target);
  }

  // ----- The editor's waves -----

  /** The names once each, in order of first appearance, as a JavaScript Set keeps them. */
  function Distinct(names: seq<string>): (r: seq<string>)
    ensures NoDuplicates(r) && ToSet(r) == ToSet(names)
  {
    if names == [] then []
    else
      var init := Distinct(names[..|names| - 1]);
      var last := names[|names| - 1];
      ToSetOfLast(names);
      ToSetOfSum(init, [last]);
      assert last in init <==> last in ToSet(init);
      if last in init then init else init + [last]
  }

  /** The steps of remaining that wait for none of waiting. */
  function Ready(g: Graph, remaining: seq<string>, waiting: seq<string>): (wave: seq<string>)
    requires forall s :: s in remaining ==> s in g
    ensures forall s :: s in wave <==> s in remaining && forall d :: d in g[s] ==> d !in waiting
    ensures NoDuplicates(remaining) ==> NoDuplicates(wave)
  {
    if remaining == [] then []
    else
      assert remaining == [remaining[0]] + remaining[1..];
      var rest := Ready(g, remaining[1..], waiting);
      if forall d :: d in g[remaining[0]] ==> d !in waiting then [remaining[0]] + rest else rest
  }

  function Without(names: seq<string>, name: string): (r: seq<string>)
    ensures forall s :: s in r <==> s in names && s != name
    ensures NoDuplicates(names) ==> NoDuplicates(r)
  {
    if names == [] then []
    else
      assert names == [names[0]] + names[1..];
      var rest := Without(names[1..], name);
      assert NoDuplicates(names) ==> names[0] !in rest;
      if names[0] == name then rest else [names[0]] + rest
  }

  /** waves is a plan, except that the steps that never run share the last wave. */
  ghost predicate IsLayout(g: Graph, waves: seq<seq<string>>) {
    if Runnable(g) == g.Keys then Planner.IsPlan(g, waves)
    else
      var n := |waves| - 1;
      && n >= 0
      && Planner.AreWaves(g, waves[..n]) && Done(g, n) == Runnable(g)
      && waves[n] != [] && NoDuplicates(waves[n]) && ToSet(waves[n]) == g.Keys - Runnable(g)
  }

  method DeleteAll(remaining0: seq<string>, next: seq<string>) returns (remaining: seq<string>)
    requires NoDuplicates(remaining0)
    ensures NoDuplicates(remaining) && ToSet(remaining) == ToSet(remaining0) - ToSet(next)
  {
    remaining := remaining0;
    for i := 0 to |next|
      invariant NoDuplicates(remaining) && ToSet(remaining) == ToSet(remaining0) - ToSet(next[..i])
    {
      assert next[..i + 1] == next[..i] + [next[i]];
      ToSetOfSum(next[..i], [next[i]]);
      assert ToSet(Without(remaining, next[i])) == ToSet(remaining) - {next[i]};
      remaining := Without(remaining, next[i]);
    }
    assert next[..|next|] == next;
  }

  lemma ReadyIsLayer(g: Graph, k: nat, remaining: seq<string>)
    requires Closed(g) && NoDuplicates(remaining) && ToSet(remaining) == g.Keys - Done(g, k)
    requires forall s :: s in remaining ==> s in g
    ensures ToSet(Ready(g, remaining, remaining)) == Layer(g, k)
  {
    DoneGrows(g, k, k + 1);
    forall s | s in g ensures s in Ready(g, remaining, remaining) <==> s in Layer(g, k) {
      DoneStep(g, k, s);
      assert s in ToSet(remaining) <==> s in remaining;
      forall d | d in g[s] ensures d in Done(g, k) <==> d !in remaining {
        assert d in ToSet(remaining) <==> d in remaining;
      }
    }
  }

  /** computeWaves: a step runs in the first wave after all its dependencies. */
  method ComputeWaves(steps: seq<DagStep>) returns (waves: seq<seq<string>>)
    ensures IsLayout(DependsOnMap(steps), waves)
  {
    var names := seq(|steps|, i requires 0 <= i < |steps| => steps[i].name);
    var g := DependsOnMap(steps);
    assert ToSet(names) == g.Keys by {
      forall s | s in steps ensures s.name in names {
        var i :| 0 <= i < |steps| && steps[i] == s;
        assert names[i] == s.name;
      }
    }
    waves := LayOut(g, Distinct(names));
  }

  /** The wave loop of computeWaves. */
  method LayOut(g: Graph, names: seq<string>) returns (waves: seq<seq<string>>)
    requires Closed(g) && NoDuplicates(names) && ToSet(names) == g.Keys
    ensures IsLayout(g, waves)
  {
    var remaining := names;
    waves := [];
    ghost var done := {};
    while |remaining| > 0
      invariant done == Done(g, |waves|)
      invariant Remaining(g, done, remaining)
      invariant Planner.AreWaves(g, waves)
      decreases |g.Keys - done|
    {
      var wave := TakeWave(g, |waves|, remaining);
      if |wave| == 0 {
        CycleWave(g, waves, remaining);
        return waves + [remaining];
      }
      NextWave(g, waves, wave, done);
      remaining := DeleteAll(remaining, wave);
      done := done + ToSet(wave);
      waves := waves + [wave];
    }
    AllLaidOut(g, waves, remaining);
  }

  lemma AllLaidOut(g: Graph, waves: seq<seq<string>>, remaining: seq<string>)
    requires Planner.AreWaves(g, waves) && Remaining(g, Done(g, |waves|), remaining) && remaining == []
    ensures IsLayout(g, waves)
  {
    assert ToSet(remaining) == {};
    forall s | s in g ensures s in Done(g, |waves|) {
      assert s in ToSet(remaining) <==> s !in Done(g, |waves|);
    }
    RunnableHoldsAll(g, |waves|);
  }

  ghost predicate Remaining(g: Graph, done: set<string>, remaining: seq<string>) {
    NoDuplicates(remaining) && ToSet(remaining) == g.Keys - done
  }

  method TakeWave(g: Graph, ghost k: nat, remaining: seq<string>) returns (wave: seq<string>)
    requires Closed(g) && Remaining(g, Done(g, k), remaining)
    ensures NoDuplicates(wave) && ToSet(wave) == Layer(g, k)
  {
    RemainingAreSteps(g, Done(g, k), remaining);
    ReadyIsLayer(g, k, remaining);
    wave := Ready(g, remaining, remaining);
  }

  lemma RemainingAreSteps(g: Graph, done: set<string>, remaining: seq<string>)
    requires Remaining(g, done, remaining)
    ensures forall s :: s in remaining ==> s in g
  {
    forall s | s in remaining ensures s in g { assert s in ToSet(remaining); }
  }

  lemma NextWave(g: Graph, waves: seq<seq<string>>, wave: seq<string>, done: set<string>)
    requires Planner.AreWaves(g, waves) && Planner.IsWave(g, |waves|, wave) && done == Done(g, |waves|)
    ensures Planner.AreWaves(g, waves + [wave])
    ensures Done(g, |waves + [wave]|) == done + ToSet(wave)
    ensures |g.Keys - (done + ToSet(wave))| < |g.Keys - done|
    ensures g.Keys - done - ToSet(wave) == g.Keys - (done + ToSet(wave))
  {
    Planner.AppendWave(g, waves, wave);
    Planner.WaveAdds(g, |waves|, wave);
    assert wave[0] in ToSet(wave);
    CardinalityStrict(g.Keys - (done + ToSet(wave)), g.Keys - done);
  }

  lemma CycleWave(g: Graph, waves: seq<seq<string>>, remaining: seq<string>)
    requires Planner.AreWaves(g, waves) && Layer(g, |waves|) == {}
    requires Remaining(g, Done(g, |waves|), remaining) && remaining != []
    ensures IsLayout(g, waves + [remaining])
  {
    EmptyLayerEnds(g, |waves|);
    assert remaining[0] in ToSet(remaining);
    assert (waves + [remaining])[..|waves|] == waves;
  }

  // ----- The two planners agree -----

  /** The same steps, each waiting for the same others, whatever the order and repetition. */
  ghost predicate SameDeps(g: Graph, h: Graph) {
    g.Keys == h.Keys && forall s :: s in g ==> ToSet(g[s]) == ToSet(h[s])
  }

  lemma SameElement(xs: seq<string>, ys: seq<string>, x: string)
    requires ToSet(xs) == ToSet(ys)
    ensures x in xs <==> x in ys
  {
    assert x in ToSet(xs) <==> x in ToSet(ys);
  }

  lemma {:induction false} SameDone(g: Graph, h: Graph, k: nat)
    requires SameDeps(g, h)
    ensures Done(g, k) == Done(h, k)
  {
    if k > 0 {
      SameDone(g, h, k - 1);
      forall s | s in g ensures s in Done(g, k) <==> s in Done(h, k) {
        forall d ensures d in g[s] <==> d in h[s] { SameElement(g[s], h[s], d); }
      }
    }
  }

  lemma SameLayers(g: Graph, h: Graph)
    requires SameDeps(g, h)
    ensures Runnable(g) == Runnable(h)
    ensures forall k: nat :: Layer(g, k) == Layer(h, k)
  {
    assert |g.Keys| == |g| && |h.Keys| == |h|;
    SameDone(g, h, |g|);
    forall k: nat ensures Layer(g, k) == Layer(h, k) {
      SameDone(g, h, k);
      SameDone(g, h, k + 1);
    }
  }

  ghost predicate DistinctNames(steps: seq<DagStep>) {
    forall i, j :: 0 <= i < j < |steps| ==> steps[i].name != steps[j].name
  }

  /** The gateway's graph of the drawn steps. */
  ghost predicate Draws(steps: seq<DagStep>, g: Graph) {
    && DistinctNames(steps) && Names(steps) == g.Keys
    && forall s :: s in steps ==> ToSet(g[s.name]) == ToSet(s.dependsOn)
  }

  lemma {:induction false} EntryOf(steps: seq<DagStep>, names: set<string>, i: nat)
    requires i < |steps| && LastOfName(steps, i)
    ensures Entries(steps, names)[steps[i].name] == Known(steps[i].dependsOn, names)
  {
    var last := steps[|steps| - 1];
    var init := steps[..|steps| - 1];
    assert steps == init + [last];
    if i < |init| {
      assert last.name != steps[i].name;
      EntryOf(init, names, i);
    }
  }

  /** The drawn graph: each name stands for its last step, with those of its dependencies that are drawn. */
  lemma DependsOnMapIs(steps: seq<DagStep>, i: nat, d: string)
    requires i < |steps| && LastOfName(steps, i)
    ensures DependsOnMap(steps).Keys == Names(steps) && Closed(DependsOnMap(steps))
    ensures d in DependsOnMap(steps)[steps[i].name] <==> d in steps[i].dependsOn && d in Names(steps)
    ensures (forall e :: e in steps[i].dependsOn ==> e in Names(steps)) ==>
              DependsOnMap(steps)[steps[i].name] == steps[i].dependsOn
  {
    EntryOf(steps, Names(steps), i);
  }

  lemma DrawsSameDeps(steps: seq<DagStep>, g: Graph)
    requires Draws(steps, g) && Closed(g)
    ensures SameDeps(g, DependsOnMap(steps))
  {
    var h := DependsOnMap(steps);
    forall n | n in g ensures ToSet(g[n]) == ToSet(h[n]) {
      var s :| s in steps && s.name == n;
      var i :| 0 <= i < |steps| && steps[i] == s;
      EntryOf(steps, Names(steps), i);
      forall d | d in s.dependsOn ensures d in Names(steps) { SameElement(g[n], s.dependsOn, d); }
    }
  }

  /** A plan has a wave for each layer that is not empty. */
  lemma PlanLength(g: Graph, waves: Planner.Waves)
    requires Planner.IsPlan(g, waves)
    ensures forall k: nat :: k < |waves| <==> Layer(g, k) != {}
  {
    forall k: nat ensures k < |waves| <==> Layer(g, k) != {} {
      if k < |waves| {
        assert Planner.IsWave(g, k, waves[k]);
        assert waves[k][0] in ToSet(waves[k]);
      } else {
        DoneGrows(g, |waves|, k);
      }
    }
  }

  /** Where the gateway has a plan, the editor draws the same waves. */
  lemma PlannersAgree(steps: seq<DagStep>, g: Graph, plan: Planner.Waves, drawn: seq<seq<string>>)
    requires Draws(steps, g) && Closed(g)
    requires Planner.IsPlan(g, plan)
    requires IsLayout(DependsOnMap(steps), drawn)
    ensures |plan| == |drawn|
    ensures forall k :: 0 <= k < |plan| ==> ToSet(plan[k]) == ToSet(drawn[k])
  {
    var h := DependsOnMap(steps);
    DrawsSameDeps(steps, g);
    SameLayers(g, h);
    RunnableHoldsAll(g, |plan|);
    PlanLength(g, plan);
    PlanLength(h, drawn);
    assert |plan| < |drawn| <==> Layer(g, |plan|) != {};
    assert |drawn| < |plan| <==> Layer(h, |drawn|) != {};
    forall k | 0 <= k < |plan| ensures ToSet(plan[k]) == ToSet(drawn[k]) {
      assert Planner.IsWave(g, k, plan[k]) && Planner.IsWave(h, k, drawn[k]);
    }
  }

  /** Where the gateway reports a cycle, the editor's last wave is the steps it names. */
  lemma PlannersAgreeOnCycles(steps: seq<DagStep>, g: Graph, report: seq<string>, drawn: seq<seq<string>>)
    requires Draws(steps, g) && Closed(g)
    requires Planner.IsCycleReport(g, report)
    requires IsLayout(DependsOnMap(steps), drawn)
    ensures |drawn| > 0 && ToSet(drawn[|drawn| - 1]) == ToSet(report)
    ensures forall k :: 0 <= k < |drawn| - 1 ==> ToSet(drawn[k]) == Layer(g, k)
  {
    var h := DependsOnMap(steps);
    DrawsSameDeps(steps, g);
    SameLayers(g, h);
    assert report[0] in ToSet(report);
    LayoutLayers(h, drawn);
  }

  lemma LayoutLayers(g: Graph, drawn: seq<seq<string>>)
    requires IsLayout(g, drawn) && Runnable(g) != g.Keys
    ensures |drawn| > 0 && ToSet(drawn[|drawn| - 1]) == g.Keys - Runnable(g)
    ensures forall k :: 0 <= k < |drawn| - 1 ==> ToSet(drawn[k]) == Layer(g, k)
  {
    var n := |drawn| - 1;
    forall k | 0 <= k < n ensures ToSet(drawn[k]) == Layer(g, k) {
      assert Planner.IsWave(g, k, drawn[..n][k]);
    }
  }
}
