/**
 * What it means for steps to be runnable wave by wave. Both planners, the
 * gateway's and the editor's, are proved against Done; the lemmas here say
 * what Done means in terms of dependency chains and cycles.
 */
module DependencyGraph {

  /** Each step and the steps it waits for. */
  type Graph = map<string, seq<string>>

  /** The steps that can run within the first k waves. */
  ghost function Done(g: Graph, k: nat): (done: set<string>)
    ensures done <= g.Keys
  {
    if k == 0 then {} else set s | s in g && Satisfied(g[s], Done(g, k - 1))
  }

  ghost predicate Satisfied(deps: seq<string>, done: set<string>) {
    forall d :: d in deps ==> d in done
  }

  /** The steps of wave k. */
  ghost function Layer(g: Graph, k: nat): set<string> {
    Done(g, k + 1) - Done(g, k)
  }

  /** The steps that run in some wave. */
  ghost function Runnable(g: Graph): set<string> {
    Done(g, |g|)
  }

  /** Every dependency is a step, which BuildDAG checks first. */
  ghost predicate Closed(g: Graph) {
    forall s, d :: s in g && d in g[s] ==> d in g
  }

  /** A dependency chain: each step waits for the next one. */
  ghost predicate Chain(g: Graph, p: seq<string>) {
    && p != []
    && (forall i :: 0 <= i < |p| ==> p[i] in g)
    && (forall i :: 0 <= i < |p| - 1 ==> p[i + 1] in g[p[i]])
  }

  /** A chain that comes back to one of its own steps. */
  ghost predicate Lasso(g: Graph, p: seq<string>, i: nat) {
    Chain(g, p) && i < |p| - 1 && p[i] == p[|p| - 1]
  }

  ghost predicate ReachesCycle(g: Graph, s: string) {
    exists p, i :: Lasso(g, p, i) && p[0] == s
  }

  ghost predicate Acyclic(g: Graph) {
    forall s :: s in g ==> !ReachesCycle(g, s)
  }

  // ----- Done as a fixed point -----

  lemma DoneStep(g: Graph, k: nat, s: string)
    requires s in g
    ensures s in Done(g, k + 1) <==> Satisfied(g[s], Done(g, k))
  {
  }

  lemma {:induction false} DoneGrows(g: Graph, j: nat, k: nat)
    requires j <= k
    ensures Done(g, j) <= Done(g, k)
    decreases k
  {
    if 0 < j {
      DoneGrows(g, j - 1, k - 1);
    }
  }

  lemma {:induction false} DoneStays(g: Graph, j: nat, k: nat)
    requires j <= k && Done(g, j) == Done(g, j + 1)
    ensures Done(g, k) == Done(g, j)
    decreases k
  {
    if j < k {
      DoneStays(g, j, k - 1);
    }
  }

  /** Until it stops growing, Done gains at least one step a wave. */
  lemma {:induction false} DoneGainsOne(g: Graph, k: nat)
    ensures |Done(g, k)| >= k || Done(g, k) == Done(g, k + 1)
  {
    if k > 0 {
      DoneGainsOne(g, k - 1);
      DoneGrows(g, k - 1, k);
      if Done(g, k - 1) != Done(g, k) {
        CardinalityStrict(Done(g, k - 1), Done(g, k));
      } else {
        DoneStays(g, k - 1, k + 1);
      }
    }
  }

  lemma CardinalityStrict<T>(a: set<T>, b: set<T>)
    requires a < b
    ensures |a| < |b|
  {
    assert b == a + (b - a);
  }

  lemma CardinalityFull<T>(a: set<T>, b: set<T>)
    requires a <= b && |a| == |b|
    ensures a == b
  {
    if a != b { CardinalityStrict(a, b); }
  }

  lemma RunnableIsFixed(g: Graph)
    ensures Done(g, |g| + 1) == Runnable(g)
  {
    DoneGainsOne(g, |g|);
    DoneGrows(g, |g|, |g| + 1);
    if |Done(g, |g|)| >= |g| {
      CardinalityLeq(Done(g, |g|), g.Keys);
      CardinalityFull(Done(g, |g|), g.Keys);
    }
  }

  lemma CardinalityLeq<T>(a: set<T>, b: set<T>)
    requires a <= b
    ensures |a| <= |b|
  {
    assert b == a + (b - a);
  }

  lemma RunnableHoldsAll(g: Graph, k: nat)
    ensures Done(g, k) <= Runnable(g)
  {
    RunnableIsFixed(g);
    if k <= |g| {
      DoneGrows(g, k, |g|);
    } else {
      DoneStays(g, |g|, k);
    }
  }

  /** Once a wave is empty, everything runnable has run. */
  lemma EmptyLayerEnds(g: Graph, k: nat)
    requires Layer(g, k) == {}
    ensures Done(g, k) == Done(g, k + 1) == Runnable(g)
  {
    DoneGrows(g, k, k + 1);
    assert Done(g, k + 1) == Done(g, k) by {
      assert Done(g, k + 1) == Done(g, k) + Layer(g, k);
    }
    RunnableHoldsAll(g, k);
    if k <= |g| {
      DoneStays(g, k, |g|);
    } else {
      RunnableIsFixed(g);
      DoneStays(g, |g|, k);
    }
  }

  /** Each runnable step is in exactly one wave. */
  lemma {:induction false} LayersPartition(g: Graph, k: nat, s: string)
    requires s in Done(g, k)
    ensures exists j: nat :: j < k && s in Layer(g, j)
    ensures forall i: nat, j: nat :: s in Layer(g, i) && s in Layer(g, j) ==> i == j
  {
    if s in Done(g, k - 1) {
      LayersPartition(g, k - 1, s);
    } else {
      assert s in Layer(g, k - 1);
    }
    forall i: nat, j: nat | s in Layer(g, i) && s in Layer(g, j) ensures i == j {
      if i < j { DoneGrows(g, i + 1, j); }
      if j < i { DoneGrows(g, j + 1, i); }
    }
  }

  // ----- Chains -----

  /** A step that runs within k waves starts no chain of more than k steps. */
  lemma {:induction false} ChainFits(g: Graph, p: seq<string>, k: nat)
    requires Chain(g, p) && p[0] in Done(g, k)
    ensures |p| <= k
  {
    if |p| > 1 {
      assert p[1] in g[p[0]];
      ChainFits(g, p[1..], k - 1);
    }
  }

  /** A step that does not run within k waves starts a chain of k + 1 steps. */
  lemma {:induction false} ChainBlocks(g: Graph, s: string, k: nat) returns (p: seq<string>)
    requires Closed(g) && s in g && s !in Done(g, k)
    ensures Chain(g, p) && p[0] == s && |p| == k + 1
    decreases k
  {
    p := [s];
    if k > 0 {
      var d :| d in g[s] && d !in Done(g, k - 1);
      var rest := ChainBlocks(g, d, k - 1);
      p := p + rest;
    }
  }

  /** s starts a chain of n steps, and none longer. */
  ghost predicate LongestChain(g: Graph, s: string, n: nat) {
    && (exists p :: Chain(g, p) && p[0] == s && |p| == n)
    && (forall p :: Chain(g, p) && p[0] == s ==> |p| <= n)
  }

  /** The wave of a step is the number of edges on its longest dependency chain. */
  lemma LayerIsLongestChain(g: Graph, s: string, k: nat)
    requires Closed(g) && s in g
    ensures s in Layer(g, k) <==> LongestChain(g, s, k + 1)
  {
    if s in Layer(g, k) {
      var p := ChainBlocks(g, s, k);
      forall q | Chain(g, q) && q[0] == s ensures |q| <= k + 1 {
        ChainFits(g, q, k + 1);
      }
    }
    if LongestChain(g, s, k + 1) {
      if s in Done(g, k) {
        var p :| Chain(g, p) && p[0] == s && |p| == k + 1;
        ChainFits(g, p, k);
      }
      if s !in Done(g, k + 1) {
        var p := ChainBlocks(g, s, k + 1);
      }
    }
  }

  // ----- Cycles -----

  /** A chain longer than the graph repeats a step. */
  lemma {:induction false} Pigeonhole(p: seq<string>, names: set<string>) returns (i: nat, j: nat)
    requires forall k :: 0 <= k < |p| ==> p[k] in names
    requires |p| > |names|
    ensures i < j < |p| && p[i] == p[j]
  {
    var last := |p| - 1;
    if k :| 0 <= k < last && p[k] == p[last] {
      i, j := k, last;
    } else {
      i, j := Pigeonhole(p[..last], names - {p[last]});
    }
  }

  /** No step of a lasso ever runs: each waits for another one on it. */
  lemma {:induction false} LassoNeverRuns(g: Graph, p: seq<string>, i: nat, k: nat)
    requires Lasso(g, p, i)
    ensures forall m :: 0 <= m < |p| ==> p[m] !in Done(g, k)
  {
    if k > 0 {
      LassoNeverRuns(g, p, i, k - 1);
      forall m | 0 <= m < |p| ensures p[m] !in Done(g, k) {
        var next := if m < |p| - 1 then m + 1 else i + 1;
        assert p[next] in g[p[m]];
      }
    }
  }

  /** A step of a closed graph never runs exactly when it reaches a cycle. */
  lemma BlockedIffReachesCycle(g: Graph, s: string)
    requires Closed(g) && s in g
    ensures s !in Runnable(g) <==> ReachesCycle(g, s)
  {
    if s !in Runnable(g) {
      var p := ChainBlocks(g, s, |g|);
      assert |g| == |g.Keys|;
      var i, j := Pigeonhole(p, g.Keys);
      assert Lasso(g, p[..j + 1], i) && p[..j + 1][0] == s;
    }
    if p, i :| Lasso(g, p, i) && p[0] == s {
      LassoNeverRuns(g, p, i, |g|);
    }
  }

  lemma AcyclicIffAllRun(g: Graph)
    requires Closed(g)
    ensures Acyclic(g) <==> Runnable(g) == g.Keys
  {
    forall s | s in g ensures s in Runnable(g) <==> !ReachesCycle(g, s) {
      BlockedIffReachesCycle(g, s);
    }
    assert Acyclic(g) ==> Runnable(g) == g.Keys by {
      if Acyclic(g) {
        forall s | s in g ensures s in Runnable(g) {}
      }
    }
  }

  // ----- Reachability -----

  /** step reaches target over zero or more dependencies. */
  ghost predicate Reaches(g: Graph, step: string, target: string) {
    step == target || exists p :: Route(g, p, step, target)
  }

  ghost predicate Route(g: Graph, p: seq<string>, step: string, target: string) {
    && |p| > 1 && p[0] == step && p[|p| - 1] == target
    && forall i :: 0 <= i < |p| - 1 ==> p[i] in g && p[i + 1] in g[p[i]]
  }

  lemma ReachesFurther(g: Graph, a: string, b: string, c: string)
    requires Reaches(g, a, b) && b in g && c in g[b]
    ensures Reaches(g, a, c)
  {
    if a == b {
      assert Route(g, [a, c], a, c);
    } else {
      var p :| Route(g, p, a, b);
      assert Route(g, p + [c], a, c);
    }
  }

  lemma ReachesBack(g: Graph, a: string, b: string, c: string)
    requires a in g && b in g[a] && Reaches(g, b, c)
    ensures Reaches(g, a, c)
  {
    if b == c {
      assert Route(g, [a, b], a, c);
    } else {
      var p :| Route(g, p, b, c);
      assert ([a] + p)[0] == a && forall i :: 0 < i <= |p| ==> ([a] + p)[i] == p[i - 1];
      assert Route(g, [a] + p, a, c);
    }
  }

  /** The first step of a route that is not empty. */
  lemma ReachesFirst(g: Graph, a: string, c: string) returns (b: string)
    requires Reaches(g, a, c) && a != c
    ensures a in g && b in g[a] && Reaches(g, b, c)
  {
    var p :| Route(g, p, a, c);
    b := p[1];
    if |p| > 2 {
      assert Route(g, p[1..], b, c);
    }
  }

  // ----- Ranks -----

  /** Every dependency is a step of smaller rank. */
  ghost predicate Ranked(g: Graph, rank: map<string, nat>) {
    && rank.Keys == g.Keys
    && forall s, d :: s in g && d in g[s] ==> d in g && rank[d] < rank[s]
  }

  lemma {:induction false} RankBoundsWave(g: Graph, rank: map<string, nat>, s: string, n: nat)
    requires Ranked(g, rank) && s in g && rank[s] < n
    ensures s in Done(g, n)
    decreases n
  {
    forall d | d in g[s] ensures d in Done(g, n - 1) {
      RankBoundsWave(g, rank, d, n - 1);
    }
  }

  /** A ranking proves that every step runs. */
  lemma RankedRuns(g: Graph, rank: map<string, nat>)
    requires Ranked(g, rank)
    ensures Runnable(g) == g.Keys
  {
    forall s | s in g ensures s in Runnable(g) {
      RankBoundsWave(g, rank, s, rank[s] + 1);
      RunnableHoldsAll(g, rank[s] + 1);
    }
  }

  /** The number of waves before the first in which s can have run. */
  ghost function WaveOf(g: Graph, s: string, k: nat): (w: nat)
    requires s in Done(g, k)
    ensures s in Layer(g, w)
  {
    if s in Done(g, k - 1) then WaveOf(g, s, k - 1) else k - 1
  }

  /** If every step runs, the waves rank the graph. */
  lemma RunsRanked(g: Graph) returns (rank: map<string, nat>)
    requires Runnable(g) == g.Keys
    ensures Ranked(g, rank)
  {
    rank := map s | s in g :: WaveOf(g, s, |g|);
    forall s, d | s in g && d in g[s] ensures d in g && rank[d] < rank[s] {
      assert s in Layer(g, rank[s]);
      assert d in Done(g, rank[s]);
      if rank[s] <= rank[d] {
        DoneGrows(g, rank[s], rank[d]);
      }
    }
  }
}
