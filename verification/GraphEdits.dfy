/**
 * Drawing and deleting edges: connect and disconnect of
 * studio/src/features/resources/step-graph.tsx, and what the gateway makes of
 * the edited steps (internal/composition/stepdeps.go). The claim is that edits
 * never turn steps the gateway accepts into steps it refuses.
 */
module GraphEdits {
  import opened Wrappers
  import opened Sorting
  import opened DependencyGraph
  import opened GraphEditor

  /** A value of the composition's YAML, as far as the graph looks at it. */
  datatype Js = Str(value: string) | Other

  datatype DependsOn = Absent | List(items: seq<Js>) | NoList

  /** One entry of a composition's steps; rest stands for the fields that pass through. */
  datatype Step = Step(name: Js, dependsOn: DependsOn, rest: int)

  function Strings(items: seq<Js>): (r: seq<string>)
    ensures (forall i :: 0 <= i < |items| ==> items[i].Str?) ==>
              |r| == |items| && forall i :: 0 <= i < |items| ==> r[i] == items[i].value
  {
    if items == [] then [] else (if items[0].Str? then [items[0].value] else []) + Strings(items[1..])
  }

  function Explicit(s: Step): seq<string> {
    if s.dependsOn.List? then Strings(s.dependsOn.items) else []
  }

  /** named: the steps that have a name. */
  function Named(steps: seq<Step>): seq<DagStep> {
    if steps == [] then []
    else
      var s := steps[0];
      (if s.name.Str? && s.name.value != "" then [DagStep(s.name.value, Explicit(s))] else []) + Named(steps[1..])
  }

  function StringList(names: seq<string>): DependsOn {
    if |names| > 0 then List(seq(|names|, i requires 0 <= i < |names| => Str(names[i]))) else Absent
  }

  /** withDependsOn: an empty list removes the key. */
  function WithDependsOn(steps: seq<Step>, step: string, next: seq<string>): (r: seq<Step>)
    ensures |r| == |steps|
    ensures forall i :: 0 <= i < |steps| ==>
              r[i] == if steps[i].name != Str(step) then steps[i] else steps[i].(dependsOn := StringList(next))
  {
    seq(|steps|, i requires 0 <= i < |steps| =>
      if steps[i].name != Str(step) then steps[i] else steps[i].(dependsOn := StringList(next)))
  }

  function Find(list: seq<DagStep>, name: string): (r: Option<DagStep>)
    ensures r.Some? ==> r.value in list && r.value.name == name
    ensures r.None? <==> name !in Names(list)
  {
    if list == [] then None
    else
      assert list == [list[0]] + list[1..];
      if list[0].name == name then Some(list[0]) else Find(list[1..], name)
  }

  // ----- Template references -----

  /** The steps the templates of each step reference. */
  type References = map<string, seq<string>>

  function Of(refs: References, name: string): seq<string> {
    if name in refs then refs[name] else []
  }

  /** uniqueSorted: the names once each, sorted, without those in skip. */
  method UniqueSorted(names: seq<string>, skip: seq<string>) returns (out: seq<string>)
    ensures Sorted(out) && NoDuplicates(out)
    ensures ToSet(out) == ToSet(names) - ToSet(skip)
  {
    out := [];
    for i := 0 to |names|
      invariant NoDuplicates(out)
      invariant ToSet(out) == ToSet(names[..i]) - ToSet(skip)
    {
      assert names[..i + 1] == names[..i] + [names[i]];
      ToSetOfSum(names[..i], [names[i]]);
      if names[i] !in skip && names[i] !in out {
        ToSetOfSum(out, [names[i]]);
        out := out + [names[i]];
      }
    }
    assert names[..|names|] == names;
    out := Sort(out);
  }

  /** inferredFor: references to another drawn step that are not explicit. */
  function InferredFor(step: DagStep, inferred: References, names: set<string>): (r: seq<string>)
    ensures forall d :: d in r <==> d in Of(inferred, step.name) && d != step.name && d in names && d !in step.dependsOn
  {
    Keep(Of(inferred, step.name), names - {step.name} - (set d | d in step.dependsOn))
  }

  function Keep(xs: seq<string>, keep: set<string>): (r: seq<string>)
    ensures forall d :: d in r <==> d in xs && d in keep
  {
    if xs == [] then []
    else
      assert xs == [xs[0]] + xs[1..];
      (if xs[0] in keep then [xs[0]] else []) + Keep(xs[1..], keep)
  }

  /** What each step waits for at runtime, as the editor sees it. */
  function Runtime(steps: seq<Step>, inferred: References): (r: seq<DagStep>)
    ensures |r| == |Named(steps)|
    ensures forall i :: 0 <= i < |r| ==>
              r[i].name == Named(steps)[i].name &&
              r[i].dependsOn == Named(steps)[i].dependsOn + InferredFor(Named(steps)[i], inferred, Names(Named(steps)))
  {
    var list := Named(steps);
    seq(|list|, i requires 0 <= i < |list| =>
      DagStep(list[i].name, list[i].dependsOn + InferredFor(list[i], inferred, Names(list))))
  }

  // ----- The edits -----

  datatype Problem = NoProblem | SelfDependency | WouldCycle

  /** connect refuses an edge that would close a cycle at runtime. */
  ghost predicate Refuses(steps: seq<Step>, inferred: References, step: string, dep: string) {
    || Find(Named(steps), step).None? || Find(Named(steps), dep).None?
    || step == dep
    || dep in Find(Named(steps), step).value.dependsOn
    || Reaches(DependsOnMap(Runtime(steps, inferred)), dep, step)
  }

  ghost function Connected(steps: seq<Step>, inferred: References, step: string, dep: string): seq<Step> {
    if Refuses(steps, inferred, step, dep) then steps
    else WithDependsOn(steps, step, Find(Named(steps), step).value.dependsOn + [dep])
  }

  function Dropped(xs: seq<string>, x: string): (r: seq<string>)
    ensures forall d :: d in r <==> d in xs && d != x
  {
    if xs == [] then []
    else
      assert xs == [xs[0]] + xs[1..];
      (if xs[0] == x then [] else [xs[0]]) + Dropped(xs[1..], x)
  }

  function DisconnectedOne(steps: seq<Step>, step: string, dep: string): seq<Step> {
    var cur := Find(Named(steps), step);
    if cur.None? then steps else WithDependsOn(steps, step, Dropped(cur.value.dependsOn, dep))
  }

  function Disconnected(steps: seq<Step>, pairs: seq<(string, string)>): seq<Step> {
    if pairs == [] then steps
    else
      var n := |pairs| - 1;
      DisconnectedOne(Disconnected(steps, pairs[..n]), pairs[n].0, pairs[n].1)
  }

  /** Removing from a list takes out the name wherever it stands and keeps the order of the others. */
  lemma {:induction false} DroppedInside(a: seq<string>, b: seq<string>, x: string, y: string)
    ensures Dropped(a + [y] + b, x) == Dropped(a, x) + (if y == x then [] else [y]) + Dropped(b, x)
  {
    var s := a + [y] + b;
    if a == [] {
      assert s[0] == y && s[1..] == b;
    } else {
      assert s[0] == a[0] && s[1..] == a[1..] + [y] + b;
      DroppedInside(a[1..], b, x, y);
      var first, mid := if a[0] == x then [] else [a[0]], if y == x then [] else [y];
      assert Dropped(s, x) == first + Dropped(s[1..], x) && Dropped(a, x) == first + Dropped(a[1..], x);
      hide Dropped;
      assert first + (Dropped(a[1..], x) + mid + Dropped(b, x)) == first + Dropped(a[1..], x) + mid + Dropped(b, x);
    }
  }

  /** The edge from dep can be drawn to the step at i: both exist, it is not there yet and closes no cycle. */
  ghost predicate CanLink(steps: seq<Step>, inferred: References, step: string, dep: string, i: int) {
    && 0 <= i < |steps| && steps[i].name == Str(step)
    && (exists j :: 0 <= j < |steps| && steps[j].name == Str(dep))
    && step != dep && dep !in Explicit(steps[i])
    && !Reaches(DependsOnMap(Runtime(steps, inferred)), dep, step)
  }

  /** after is before with dep at the end of the list of the step at i. */
  ghost predicate Linked(before: seq<Step>, after: seq<Step>, dep: string, i: int)
    requires 0 <= i < |before|
  {
    && |after| == |before|
    && after[i].name == before[i].name && after[i].rest == before[i].rest
    && Explicit(after[i]) == Explicit(before[i]) + [dep]
    && forall k :: 0 <= k < |before| && k != i ==> after[k] == before[k]
  }

  /** after is before without the edges of pairs: no other edge, step or field is touched, and no empty list is left. */
  ghost predicate Unlinked(before: seq<Step>, after: seq<Step>, pairs: seq<(string, string)>) {
    && |after| == |before|
    && forall i :: 0 <= i < |before| ==> UnlinkedAt(before[i], after[i], pairs)
  }

  ghost predicate UnlinkedAt(before: Step, after: Step, pairs: seq<(string, string)>) {
    && after.name == before.name && after.rest == before.rest
    && (forall d :: d in Explicit(after) <==> d in Explicit(before) && !Pairs(pairs, before.name, d))
    && if Mentions(pairs, before.name) then after.dependsOn != List([]) else after == before
  }

  ghost predicate Pairs(pairs: seq<(string, string)>, name: Js, d: string) {
    name.Str? && (name.value, d) in pairs
  }

  ghost predicate Mentions(pairs: seq<(string, string)>, name: Js) {
    exists k :: 0 <= k < |pairs| && Str(pairs[k].0) == name
  }

  /** The graph's state: its steps, the references last reported, and the message shown. */
  class StepGraph {
    var steps: seq<Step>
    var inferred: References
    var problem: Problem

    constructor (steps0: seq<Step>, inferred0: References)
      ensures steps == steps0 && inferred == inferred0 && problem == NoProblem
    {
      steps, inferred, problem := steps0, inferred0, NoProblem;
    }

    method Connect(step: string, dep: string)
      modifies this`steps, this`problem
      ensures steps == Connected(old(steps), inferred, step, dep)
      ensures steps != old(steps) ==> problem == NoProblem
      ensures var known, current := Names(Named(old(steps))), Find(Named(old(steps)), step);
              problem == if step !in known || dep !in known then old(problem)
                         else if step == dep then SelfDependency
                         else if dep in current.value.dependsOn then NoProblem
                         else if Reaches(DependsOnMap(Runtime(old(steps), inferred)), dep, step) then WouldCycle
                         else NoProblem
      ensures problem == WouldCycle && old(problem) != WouldCycle ==>
                Reaches(DependsOnMap(Runtime(old(steps), inferred)), dep, step)
      ensures WellFormed(old(steps)) ==>
                forall i :: CanLink(old(steps), inferred, step, dep, i) ==> Linked(old(steps), steps, dep, i)
      ensures WellFormed(old(steps)) && steps != old(steps) ==> exists i :: CanLink(old(steps), inferred, step, dep, i)
    {
      ConnectLinks(steps, inferred, step, dep);
      hide CanLink, Linked, WellFormed, Runtime;
      var list := Named(steps);
      var target := Find(list, step);
      if target.None? || Find(list, dep).None? {
        return;
      }
      if step == dep {
        problem := SelfDependency;
        return;
      }
      if dep in target.value.dependsOn {
        problem := NoProblem;
        return;
      }
      var cycle := DependsOnTransitively(Runtime(steps, inferred), dep, step);
      if cycle {
        problem := WouldCycle;
        return;
      }
      problem := NoProblem;
      steps := WithDependsOn(steps, step, target.value.dependsOn + [dep]);
    }

    method Disconnect(pairs: seq<(string, string)>)
      modifies this`steps, this`problem
      ensures steps == Disconnected(old(steps), pairs) && problem == NoProblem
      ensures WellFormed(old(steps)) ==> Unlinked(old(steps), steps, pairs)
    {
      DisconnectUnlinks(steps, pairs);
      hide WellFormed, Unlinked;
      var next := steps;
      for i := 0 to |pairs|
        invariant next == Disconnected(old(steps), pairs[..i])
        invariant steps == old(steps)
      {
        var cur := Find(Named(next), pairs[i].0);
        assert pairs[..i + 1][..i] == pairs[..i];
        if cur.Some? {
          next := WithDependsOn(next, pairs[i].0, Dropped(cur.value.dependsOn, pairs[i].1));
        }
      }
      assert pairs[..|pairs|] == pairs;
      problem := NoProblem;
      steps := next;
    }
  }

  // ----- What the gateway makes of the steps -----

  /** Steps the gateway can decode: each has its own name and a list of names, if any. */
  ghost predicate WellFormed(steps: seq<Step>) {
    && (forall i :: 0 <= i < |steps| ==>
          && steps[i].name.Str? && steps[i].name.value != ""
          && (steps[i].dependsOn.Absent? ||
              (steps[i].dependsOn.List? && forall j :: 0 <= j < |steps[i].dependsOn.items| ==> steps[i].dependsOn.items[j].Str?)))
    && forall i, j :: 0 <= i < j < |steps| ==> steps[i].name != steps[j].name
  }

  /** MergeDependencies: explicit and referenced steps, once each. */
  function MergeDependencies(explicit: seq<string>, referenced: seq<string>): (r: seq<string>)
    ensures ToSet(r) == ToSet(explicit) + ToSet(referenced)
    ensures NoDuplicates(r)
  {
    ToSetOfSum(explicit, referenced);
    Distinct(explicit + referenced)
  }

  /** The step graph the gateway plans. */
  function GatewayGraph(steps: seq<Step>, refs: References): Graph {
    MergedGraph(Named(steps), refs)
  }

  function MergedGraph(list: seq<DagStep>, refs: References): (g: Graph)
    ensures g.Keys == Names(list)
  {
    map n | n in Names(list) :: MergeDependencies(Find(list, n).value.dependsOn, Of(refs, n))
  }

  /** The gateway has a plan for the steps: what BuildDAG decides. */
  ghost predicate Accepts(steps: seq<Step>, refs: References) {
    WellFormed(steps) && Closed(GatewayGraph(steps, refs)) && Acyclic(GatewayGraph(steps, refs))
  }

  /** inferred is what StepDependencies reports for the steps. */
  ghost predicate Current(inferred: References, steps: seq<Step>, refs: References) {
    forall i :: 0 <= i < |Named(steps)| ==>
      var s := Named(steps)[i];
      ToSet(Of(inferred, s.name)) == ToSet(Of(refs, s.name)) - ToSet(s.dependsOn)
  }

  // ----- Reading the steps by index -----

  lemma {:induction false} NamedByIndex(steps: seq<Step>)
    requires forall i :: 0 <= i < |steps| ==> steps[i].name.Str? && steps[i].name.value != ""
    ensures |Named(steps)| == |steps|
    ensures forall i :: 0 <= i < |steps| ==> Named(steps)[i] == DagStep(steps[i].name.value, Explicit(steps[i]))
  {
    if steps != [] {
      NamedByIndex(steps[1..]);
      forall i | 0 < i < |steps| ensures Named(steps)[i] == DagStep(steps[i].name.value, Explicit(steps[i])) {
        assert Named(steps)[i] == Named(steps[1..])[i - 1];
      }
    }
  }

  lemma {:induction false} FindByIndex(list: seq<DagStep>, i: nat)
    requires DistinctNames(list) && i < |list|
    ensures Find(list, list[i].name) == Some(list[i])
  {
    if i > 0 {
      FindByIndex(list[1..], i - 1);
    }
  }

  lemma DistinctOfWellFormed(steps: seq<Step>)
    requires WellFormed(steps)
    ensures DistinctNames(Named(steps))
    ensures |Named(steps)| == |steps|
  {
    NamedByIndex(steps);
  }

  lemma StringsOfList(names: seq<string>, s: Step)
    requires s.dependsOn == StringList(names)
    ensures Explicit(s) == names
  {
  }

  /** after is list with the dependencies of one step replaced. */
  ghost predicate Edited(list: seq<DagStep>, after: seq<DagStep>, step: string, next: seq<string>) {
    && |after| == |list|
    && forall i :: 0 <= i < |list| ==> after[i] == if list[i].name == step then DagStep(step, next) else list[i]
  }

  lemma SameNames(list: seq<DagStep>, after: seq<DagStep>)
    requires |after| == |list| && forall i :: 0 <= i < |list| ==> after[i].name == list[i].name
    ensures Names(after) == Names(list)
  {
    forall n | n in Names(list) ensures n in Names(after) {
      var i :| 0 <= i < |list| && list[i].name == n;
      assert after[i] in after;
    }
    forall n | n in Names(after) ensures n in Names(list) {
      var i :| 0 <= i < |after| && after[i].name == n;
      assert list[i] in list;
    }
  }

  /** Setting the dependencies of one step changes that step's entry only. */
  lemma EditedGraph(list: seq<DagStep>, after: seq<DagStep>, refs: References, step: string, next: seq<string>)
    requires DistinctNames(list) && step in Names(list) && Edited(list, after, step, next)
    ensures MergedGraph(after, refs) == MergedGraph(list, refs)[step := MergeDependencies(next, Of(refs, step))]
  {
    SameNames(list, after);
    var g, h := MergedGraph(list, refs), MergedGraph(after, refs);
    var deps := MergeDependencies(next, Of(refs, step));
    forall n | n in g ensures h[n] == if n == step then deps else g[n] {
      EntryEdited(list, after, refs, step, next, n);
    }
    MapUpdated(g, h, step, deps);
  }

  lemma MapUpdated(g: Graph, h: Graph, step: string, deps: seq<string>)
    requires h.Keys == g.Keys && step in g
    requires forall n :: n in g ==> h[n] == if n == step then deps else g[n]
    ensures h == g[step := deps]
  {
  }

  lemma EntryEdited(list: seq<DagStep>, after: seq<DagStep>, refs: References, step: string, next: seq<string>, n: string)
    requires DistinctNames(list) && n in Names(list) && Edited(list, after, step, next)
    requires n in MergedGraph(after, refs)
    ensures MergedGraph(after, refs)[n] ==
              if n == step then MergeDependencies(next, Of(refs, step)) else MergedGraph(list, refs)[n]
  {
    var i :| 0 <= i < |list| && list[i].name == n;
    SameNamesDistinct(list, after);
    FindByIndex(list, i);
    FindByIndex(after, i);
    hide DistinctNames, Find, MergeDependencies, Names;
  }

  lemma SameNamesDistinct(list: seq<DagStep>, after: seq<DagStep>)
    requires DistinctNames(list) && |after| == |list| && forall i :: 0 <= i < |list| ==> after[i].name == list[i].name
    ensures DistinctNames(after)
  {
  }

  lemma EntryIn(steps: seq<Step>, refs: References, s: DagStep)
    requires Find(Named(steps), s.name) == Some(s)
    ensures s.name in GatewayGraph(steps, refs)
    ensures ToSet(GatewayGraph(steps, refs)[s.name]) == ToSet(s.dependsOn) + ToSet(Of(refs, s.name))
  {
  }

  /** Removing dependencies of a step keeps the rank. */
  lemma FewerKeepRank(g: Graph, rank: map<string, nat>, step: string, deps: seq<string>)
    requires Ranked(g, rank) && step in g && ToSet(deps) <= ToSet(g[step])
    ensures Ranked(g[step := deps], rank)
  {
    forall d | d in deps ensures d in g[step] {
      assert d in ToSet(deps);
      assert d in ToSet(g[step]) <==> d in g[step];
    }
  }

  lemma EditedSteps(steps: seq<Step>, step: string, next: seq<string>)
    requires WellFormed(steps)
    ensures WellFormed(WithDependsOn(steps, step, next))
    ensures Edited(Named(steps), Named(WithDependsOn(steps, step, next)), step, next)
  {
    var edited := WithDependsOn(steps, step, next);
    NamedByIndex(steps);
    NamedByIndex(edited);
    forall i | 0 <= i < |steps|
      ensures Named(edited)[i] == if Named(steps)[i].name == step then DagStep(step, next) else Named(steps)[i]
    {
      if Named(steps)[i].name == step { StringsOfList(next, edited[i]); }
    }
  }

  // ----- What an edit changes -----

  lemma FindStep(steps: seq<Step>, i: nat)
    requires WellFormed(steps) && i < |steps|
    ensures Find(Named(steps), steps[i].name.value) == Some(DagStep(steps[i].name.value, Explicit(steps[i])))
  {
    NamedByIndex(steps);
    DistinctOfWellFormed(steps);
    FindByIndex(Named(steps), i);
  }

  lemma FindsIff(steps: seq<Step>, name: string)
    requires WellFormed(steps)
    ensures Find(Named(steps), name).Some? ==> exists i :: 0 <= i < |steps| && steps[i].name == Str(name)
    ensures (exists i :: 0 <= i < |steps| && steps[i].name == Str(name)) ==> Find(Named(steps), name).Some?
  {
    NamedByIndex(steps);
    forall i | 0 <= i < |steps| ensures Named(steps)[i] in Named(steps) {}
    hide Named, Explicit, Find;
  }

  lemma CanLinkIff(steps: seq<Step>, inferred: References, step: string, dep: string, i: nat)
    requires WellFormed(steps) && i < |steps| && steps[i].name == Str(step)
    ensures CanLink(steps, inferred, step, dep, i) <==> !Refuses(steps, inferred, step, dep)
  {
    FindStep(steps, i);
    FindsIff(steps, dep);
    hide WellFormed, Named, Find, Runtime, Explicit;
  }

  /** Connecting links the two steps where that can be done, and does nothing where not. */
  lemma ConnectLinks(steps: seq<Step>, inferred: References, step: string, dep: string)
    ensures var after := Connected(steps, inferred, step, dep);
            && (WellFormed(steps) ==> forall i :: CanLink(steps, inferred, step, dep, i) ==> Linked(steps, after, dep, i))
            && (WellFormed(steps) && after != steps ==> exists i :: CanLink(steps, inferred, step, dep, i))
  {
    if WellFormed(steps) {
      forall i | CanLink(steps, inferred, step, dep, i)
        ensures Linked(steps, Connected(steps, inferred, step, dep), dep, i)
      {
        CanLinkIff(steps, inferred, step, dep, i);
        FindStep(steps, i);
        StringsOfList(Explicit(steps[i]) + [dep], Connected(steps, inferred, step, dep)[i]);
      }
      if !Refuses(steps, inferred, step, dep) {
        FindsIff(steps, step);
        var i :| 0 <= i < |steps| && steps[i].name == Str(step);
        CanLinkIff(steps, inferred, step, dep, i);
      }
    }
  }

  lemma DisconnectOneUnlinks(steps: seq<Step>, step: string, dep: string)
    requires WellFormed(steps)
    ensures Unlinked(steps, DisconnectedOne(steps, step, dep), [(step, dep)])
  {
    var after := DisconnectedOne(steps, step, dep);
    FindsIff(steps, step);
    forall i | 0 <= i < |steps| ensures UnlinkedAt(steps[i], after[i], [(step, dep)]) {
      if steps[i].name == Str(step) {
        FindStep(steps, i);
        hide WellFormed, Named, Find, UnlinkedAt, Dropped;
        DroppedUnlinks(steps[i], step, dep);
      } else {
        hide WellFormed, Named, Find, Dropped;
      }
    }
    hide WellFormed, Named, Find, UnlinkedAt, Dropped;
  }

  lemma DisconnectOneKeepsForm(steps: seq<Step>, step: string, dep: string)
    requires WellFormed(steps)
    ensures WellFormed(DisconnectedOne(steps, step, dep))
  {
    var cur := Find(Named(steps), step);
    if cur.Some? { EditedSteps(steps, step, Dropped(cur.value.dependsOn, dep)); }
    hide WellFormed;
  }

  lemma DroppedUnlinks(s: Step, step: string, dep: string)
    requires s.name == Str(step)
    ensures UnlinkedAt(s, s.(dependsOn := StringList(Dropped(Explicit(s), dep))), [(step, dep)])
  {
    StringsOfList(Dropped(Explicit(s), dep), s.(dependsOn := StringList(Dropped(Explicit(s), dep))));
    hide Explicit, Dropped;
    assert [(step, dep)][0].0 == step;
  }

  lemma UnlinkedOnce(a: Step, b: Step, c: Step, pairs: seq<(string, string)>, last: (string, string))
    requires UnlinkedAt(a, b, pairs) && UnlinkedAt(b, c, [last])
    ensures UnlinkedAt(a, c, pairs + [last])
  {
    var all := pairs + [last];
    assert all[|pairs|] == last;
    forall d ensures Pairs(all, a.name, d) <==> Pairs(pairs, a.name, d) || Pairs([last], a.name, d) {}
    if Mentions(pairs, a.name) {
      var k :| 0 <= k < |pairs| && Str(pairs[k].0) == a.name;
      assert all[k] == pairs[k];
    }
    if Mentions([last], a.name) { assert Str(all[|pairs|].0) == a.name; }
  }

  /** Disconnecting takes out the edges of the pairs and nothing else. */
  lemma {:induction false} DisconnectUnlinks(steps: seq<Step>, pairs: seq<(string, string)>)
    ensures WellFormed(steps) ==> WellFormed(Disconnected(steps, pairs))
    ensures WellFormed(steps) ==> Unlinked(steps, Disconnected(steps, pairs), pairs)
  {
    if WellFormed(steps) && pairs != [] {
      var n := |pairs| - 1;
      DisconnectUnlinks(steps, pairs[..n]);
      var mid := Disconnected(steps, pairs[..n]);
      DisconnectOneUnlinks(mid, pairs[n].0, pairs[n].1);
      DisconnectOneKeepsForm(mid, pairs[n].0, pairs[n].1);
      var after := Disconnected(steps, pairs);
      hide UnlinkedAt, WellFormed;
      forall i | 0 <= i < |steps| ensures UnlinkedAt(steps[i], after[i], pairs) {
        UnlinkedOnce(steps[i], mid[i], after[i], pairs[..n], pairs[n]);
        assert pairs[..n] + [pairs[n]] == pairs;
      }
    }
  }

  // ----- Edits keep the steps acceptable -----

  lemma AcceptsByRank(steps: seq<Step>, refs: References, rank: map<string, nat>)
    requires WellFormed(steps) && Ranked(GatewayGraph(steps, refs), rank)
    ensures Accepts(steps, refs)
  {
    RankedRuns(GatewayGraph(steps, refs), rank);
    AcyclicIffAllRun(GatewayGraph(steps, refs));
  }

  lemma RankOfAccepted(steps: seq<Step>, refs: References) returns (rank: map<string, nat>)
    requires Accepts(steps, refs)
    ensures Ranked(GatewayGraph(steps, refs), rank)
  {
    AcyclicIffAllRun(GatewayGraph(steps, refs));
    rank := RunsRanked(GatewayGraph(steps, refs));
  }

  lemma RuntimeEntryAt(steps: seq<Step>, refs: References, inferred: References, rank: map<string, nat>, i: nat)
    requires WellFormed(steps) && Current(inferred, steps, refs) && Ranked(GatewayGraph(steps, refs), rank)
    requires i < |Named(steps)| == |Runtime(steps, inferred)|
    ensures var s := Runtime(steps, inferred)[i];
            && s.name == Named(steps)[i].name && s.name in GatewayGraph(steps, refs)
            && ToSet(GatewayGraph(steps, refs)[s.name]) == ToSet(s.dependsOn)
  {
    hide Named, Find, ToSet, Runtime, InferredFor, Of, WellFormed, DistinctNames, MergeDependencies, Names, Current, MergedGraph;
    var g, s := GatewayGraph(steps, refs), Named(steps)[i];
    DistinctOfWellFormed(steps);
    FindByIndex(Named(steps), i);
    EntryIn(steps, refs, s);
    CurrentAt(inferred, steps, refs, i);
    RankedAt(g, rank, s.name);
    hide GatewayGraph, Ranked;
    RuntimeEntry(g[s.name], s, Of(refs, s.name), inferred, Names(Named(steps)), rank);
  }

  lemma CurrentAt(inferred: References, steps: seq<Step>, refs: References, i: nat)
    requires Current(inferred, steps, refs) && i < |Named(steps)|
    ensures var s := Named(steps)[i];
            ToSet(Of(inferred, s.name)) == ToSet(Of(refs, s.name)) - ToSet(s.dependsOn)
  {
  }

  lemma RankedAt(g: Graph, rank: map<string, nat>, n: string)
    requires Ranked(g, rank) && n in g
    ensures n in rank && forall d :: d in g[n] ==> d in g.Keys && d in rank && rank[d] < rank[n]
  {
  }

  /** The editor's runtime graph is the gateway's, when the references are current. */
  lemma RuntimeIsGateway(steps: seq<Step>, refs: References, inferred: References)
    requires Accepts(steps, refs) && Current(inferred, steps, refs)
    ensures SameDeps(GatewayGraph(steps, refs), DependsOnMap(Runtime(steps, inferred)))
  {
    var g := GatewayGraph(steps, refs);
    var list, runtime := Named(steps), Runtime(steps, inferred);
    var rank := RankOfAccepted(steps, refs);
    DistinctOfWellFormed(steps);
    forall i | 0 <= i < |runtime|
      ensures runtime[i].name == list[i].name && runtime[i].name in g && ToSet(g[runtime[i].name]) == ToSet(runtime[i].dependsOn)
    {
      RuntimeEntryAt(steps, refs, inferred, rank, i);
    }
    SameNames(runtime, list);
    hide Runtime, GatewayGraph, ToSet, Ranked, Current, Named, WellFormed;
    DrawsSameDeps(runtime, g);
  }

  lemma RuntimeEntry(merged: seq<string>, s: DagStep, referenced: seq<string>, inferred: References, names: set<string>,
                     rank: map<string, nat>)
    requires ToSet(merged) == ToSet(s.dependsOn) + ToSet(referenced)
    requires s.name in rank && forall d :: d in merged ==> d in names && d in rank && rank[d] < rank[s.name]
    requires ToSet(Of(inferred, s.name)) == ToSet(referenced) - ToSet(s.dependsOn)
    ensures ToSet(merged) == ToSet(s.dependsOn + InferredFor(s, inferred, names))
  {
    var extra := InferredFor(s, inferred, names);
    ToSetOfSum(s.dependsOn, extra);
    forall d ensures d in ToSet(extra) <==> d in ToSet(referenced) - ToSet(s.dependsOn) {
      assert d in ToSet(Of(inferred, s.name)) <==> d in Of(inferred, s.name);
      assert d in ToSet(merged) <==> d in merged;
    }
  }

  lemma EdgeReaches(g: Graph, h: Graph, n: string, d: string, step: string)
    requires SameDeps(g, h) && n in g && d in g[n]
    ensures Reaches(h, d, step) ==> Reaches(h, n, step)
  {
    SameElement(g[n], h[n], d);
    if Reaches(h, d, step) { ReachesBack(h, n, d, step); }
  }

  /** An edge whose end does not reach its start leaves the graph ranked. */
  lemma EdgeKeepsRank(g: Graph, h: Graph, rank: map<string, nat>, step: string, dep: string, deps: seq<string>)
    returns (rank': map<string, nat>)
    requires Ranked(g, rank) && SameDeps(g, h)
    requires step in g && dep in g && !Reaches(h, dep, step)
    requires ToSet(deps) == ToSet(g[step]) + {dep}
    ensures Ranked(g[step := deps], rank')
  {
    var shift := rank[dep] + 1;
    rank' := map n | n in g :: if Reaches(h, n, step) then rank[n] + shift else rank[n];
    var g' := g[step := deps];
    forall d ensures d in deps <==> d in g[step] || d == dep {
      assert d in deps <==> d in ToSet(deps);
      assert d in g[step] <==> d in ToSet(g[step]);
    }
    assert Reaches(h, step, step);
    forall n, d | n in g' && d in g'[n] ensures d in g' && rank'[d] < rank'[n] {
      if d in g[n] { EdgeReaches(g, h, n, d, step); }
      hide Reaches, SameDeps;
    }
  }

  /** Steps stay accepted when the edited graph has a rank. */
  lemma EditAccepted(steps: seq<Step>, refs: References, step: string, next: seq<string>, rank: map<string, nat>)
    requires WellFormed(steps) && step in Names(Named(steps))
    requires Ranked(GatewayGraph(steps, refs)[step := MergeDependencies(next, Of(refs, step))], rank)
    ensures Accepts(WithDependsOn(steps, step, next), refs)
  {
    DistinctOfWellFormed(steps);
    EditedSteps(steps, step, next);
    EditedGraph(Named(steps), Named(WithDependsOn(steps, step, next)), refs, step, next);
    AcceptsByRank(WithDependsOn(steps, step, next), refs, rank);
  }

  lemma MergedEdge(target: DagStep, dep: string, referenced: seq<string>)
    ensures ToSet(MergeDependencies(target.dependsOn + [dep], referenced)) ==
            ToSet(MergeDependencies(target.dependsOn, referenced)) + {dep}
  {
    ToSetOfSum(target.dependsOn, [dep]);
  }

  lemma EdgeAccepted(steps: seq<Step>, refs: References, h: Graph, target: DagStep, dep: string)
    requires Accepts(steps, refs) && SameDeps(GatewayGraph(steps, refs), h)
    requires Find(Named(steps), target.name) == Some(target) && dep in Names(Named(steps))
    requires !Reaches(h, dep, target.name)
    ensures Accepts(WithDependsOn(steps, target.name, target.dependsOn + [dep]), refs)
  {
    var rank := RankOfAccepted(steps, refs);
    EntryIn(steps, refs, target);
    MergedEdge(target, dep, Of(refs, target.name));
    var g, deps := GatewayGraph(steps, refs), MergeDependencies(target.dependsOn + [dep], Of(refs, target.name));
    hide GatewayGraph, MergeDependencies, Accepts, WithDependsOn, Ranked, Reaches, SameDeps, ToSet;
    var rank' := EdgeKeepsRank(g, h, rank, target.name, dep, deps);
    EditAccepted(steps, refs, target.name, target.dependsOn + [dep], rank');
  }

  lemma ConnectKeepsAccepted(steps: seq<Step>, refs: References, inferred: References, step: string, dep: string)
    requires Accepts(steps, refs) && Current(inferred, steps, refs)
    ensures Accepts(Connected(steps, inferred, step, dep), refs)
  {
    if !Refuses(steps, inferred, step, dep) {
      RuntimeIsGateway(steps, refs, inferred);
      EdgeAccepted(steps, refs, DependsOnMap(Runtime(steps, inferred)), Find(Named(steps), step).value, dep);
    }
  }

  lemma DisconnectOneKeepsAccepted(steps: seq<Step>, refs: References, step: string, dep: string)
    requires Accepts(steps, refs)
    ensures Accepts(DisconnectedOne(steps, step, dep), refs)
  {
    var cur := Find(Named(steps), step);
    if cur.Some? {
      var next := Dropped(cur.value.dependsOn, dep);
      var rank := RankOfAccepted(steps, refs);
      EntryIn(steps, refs, cur.value);
      assert ToSet(next) <= ToSet(cur.value.dependsOn);
      FewerKeepRank(GatewayGraph(steps, refs), rank, step, MergeDependencies(next, Of(refs, step)));
      EditAccepted(steps, refs, step, next, rank);
    }
  }

  lemma {:induction false} DisconnectKeepsAccepted(steps: seq<Step>, refs: References, pairs: seq<(string, string)>)
    requires Accepts(steps, refs)
    ensures Accepts(Disconnected(steps, pairs), refs)
  {
    if pairs != [] {
      var n := |pairs| - 1;
      DisconnectKeepsAccepted(steps, refs, pairs[..n]);
      DisconnectOneKeepsAccepted(Disconnected(steps, pairs[..n]), refs, pairs[n].0, pairs[n].1);
    }
  }

  datatype Edit = Connect(step: string, dep: string) | Disconnect(pairs: seq<(string, string)>)

  ghost function Apply(steps: seq<Step>, inferred: References, edit: Edit): seq<Step> {
    match edit
    case Connect(step, dep) => Connected(steps, inferred, step, dep)
    case Disconnect(pairs) => Disconnected(steps, pairs)
  }

  /** The references are reported anew before each edit; edits do not touch templates. */
  ghost predicate Session(states: seq<seq<Step>>, refs: References) {
    forall i :: 0 <= i < |states| - 1 ==> EditStep(states[i], states[i + 1], refs)
  }

  ghost predicate EditStep(before: seq<Step>, after: seq<Step>, refs: References) {
    exists inferred, edit :: Current(inferred, before, refs) && after == Apply(before, inferred, edit)
  }

  lemma EditStepKeepsAccepted(before: seq<Step>, after: seq<Step>, refs: References)
    requires EditStep(before, after, refs) && Accepts(before, refs)
    ensures Accepts(after, refs)
  {
    var inferred, edit :| Current(inferred, before, refs) && after == Apply(before, inferred, edit);
    match edit
    case Connect(step, dep) => ConnectKeepsAccepted(before, refs, inferred, step, dep);
    case Disconnect(pairs) => DisconnectKeepsAccepted(before, refs, pairs);
  }

  /** Any sequence of edits from steps the gateway accepts ends in steps it accepts. */
  lemma {:induction false} EditsKeepAccepted(states: seq<seq<Step>>, refs: References, n: nat)
    requires Session(states, refs) && n < |states| && Accepts(states[0], refs)
    ensures Accepts(states[n], refs)
  {
    hide Accepts, EditStep;
    if n > 0 {
      EditsKeepAccepted(states, refs, n - 1);
      assert EditStep(states[n - 1], states[n - 1 + 1], refs);
      EditStepKeepsAccepted(states[n - 1], states[n], refs);
    }
  }
}
