/**
 * internal/admin/accumulator.go: what a gateway counts between two pushes, for
 * all requests together and for each composition.
 */
module Accumulator {
  import opened Sorting
  import opened Histogram

  datatype StepSample = StepSample(name: string, upstream: string, duration: real, isError: bool, cached: bool)

  /** One call of Record. */
  datatype Rec = Rec(composition: string, duration: real, isError: bool, isPartial: bool, steps: seq<StepSample>)

  datatype AccStep = AccStep(latencies: seq<real>, errors: nat, cacheHits: nat, upstream: string)

  datatype AccBucket = AccBucket(requests: nat, errors: nat, partials: nat, latencies: seq<real>, steps: map<string, AccStep>)

  const NEW_BUCKET := AccBucket(0, 0, 0, [], map[])

  datatype StepBucket = StepBucket(requests: nat, errors: nat, cacheHits: nat, upstream: string)

  datatype Bucket = Bucket(
    minute: int,
    composition: string,
    requests: nat,
    errors: nat,
    partials: nat,
    latency: seq<nat>,
    steps: map<string, StepBucket>)

  // ----- What the counts mean -----

  /** How many records satisfy p. */
  function HowMany(recs: seq<Rec>, p: Rec -> bool): nat {
    if recs == [] then 0 else HowMany(recs[..|recs| - 1], p) + if p(recs[|recs| - 1]) then 1 else 0
  }

  function Durations(recs: seq<Rec>): (ds: seq<real>)
    ensures |ds| == |recs| && forall i :: 0 <= i < |recs| ==> ds[i] == recs[i].duration
  {
    seq(|recs|, i requires 0 <= i < |recs| => recs[i].duration)
  }

  /** The samples of one step, over all records in order. */
  function SamplesOf(recs: seq<Rec>, name: string): seq<StepSample> {
    if recs == [] then []
    else SamplesOf(recs[..|recs| - 1], name) + NamedIn(recs[|recs| - 1].steps, name)
  }

  function NamedIn(samples: seq<StepSample>, name: string): seq<StepSample> {
    if samples == [] then []
    else
      var n := |samples| - 1;
      NamedIn(samples[..n], name) + if samples[n].name == name then [samples[n]] else []
  }

  function Errors(samples: seq<StepSample>): nat {
    if samples == [] then 0
    else Errors(samples[..|samples| - 1]) + if samples[|samples| - 1].isError then 1 else 0
  }

  function Hits(samples: seq<StepSample>): nat {
    if samples == [] then 0
    else Hits(samples[..|samples| - 1]) + if samples[|samples| - 1].cached then 1 else 0
  }

  /** The step's counts are those of its samples; the upstream is the first sample's. */
  ghost predicate StepCounts(st: AccStep, samples: seq<StepSample>) {
    && samples != [] && st.upstream == samples[0].upstream
    && |st.latencies| == |samples| && (forall i :: 0 <= i < |samples| ==> st.latencies[i] == samples[i].duration)
    && st.errors == Errors(samples)
    && st.cacheHits == Hits(samples)
  }

  ghost predicate StepsCount(steps: map<string, AccStep>, samplesOf: string -> seq<StepSample>) {
    forall name :: if name in steps then StepCounts(steps[name], samplesOf(name)) else samplesOf(name) == []
  }

  /** The bucket counts exactly these records. */
  ghost predicate Counts(b: AccBucket, recs: seq<Rec>) {
    && b.requests == |recs|
    && b.errors == HowMany(recs, (r: Rec) => r.isError)
    && b.partials == HowMany(recs, (r: Rec) => r.isPartial)
    && b.latencies == Durations(recs)
    && StepsCount(b.steps, name => SamplesOf(recs, name))
  }

  /** The records of one composition. */
  function Of(recs: seq<Rec>, composition: string): seq<Rec> {
    if recs == [] then []
    else
      var n := |recs| - 1;
      Of(recs[..n], composition) + if recs[n].composition == composition then [recs[n]] else []
  }

  /** A flushed bucket tells the truth about these records. */
  ghost predicate Reports(b: Bucket, recs: seq<Rec>) {
    && b.requests == |recs|
    && b.errors == HowMany(recs, (r: Rec) => r.isError)
    && b.partials == HowMany(recs, (r: Rec) => r.isPartial)
    && IsHistogram(b.latency, Durations(recs))
    && forall name :: if name in b.steps then StepReports(b.steps[name], SamplesOf(recs, name)) else SamplesOf(recs, name) == []
  }

  ghost predicate StepReports(sb: StepBucket, samples: seq<StepSample>) {
    && samples != [] && sb.requests == |samples| && sb.upstream == samples[0].upstream
    && sb.errors == Errors(samples)
    && sb.cacheHits == Hits(samples)
  }

  // ----- Recording -----

  /** One sample more for its step. */
  function Sampled(steps: map<string, AccStep>, s: StepSample): map<string, AccStep> {
    var st := if s.name in steps then steps[s.name] else AccStep([], 0, 0, s.upstream);
    steps[s.name := AccStep(st.latencies + [s.duration],
                            st.errors + if s.isError then 1 else 0,
                            st.cacheHits + if s.cached then 1 else 0,
                            st.upstream)]
  }

  lemma StepCountsGrow(st: AccStep, samples: seq<StepSample>, s: StepSample)
    requires if samples == [] then st == AccStep([], 0, 0, s.upstream) else StepCounts(st, samples)
    ensures StepCounts(AccStep(st.latencies + [s.duration], st.errors + (if s.isError then 1 else 0),
                               st.cacheHits + (if s.cached then 1 else 0), st.upstream), samples + [s])
  {
    var all := samples + [s];
    assert all[..|all| - 1] == samples && all[|all| - 1] == s;
    assert all[0] == if samples == [] then s else samples[0];
    assert Errors(all) == Errors(samples) + if s.isError then 1 else 0;
    assert Hits(all) == Hits(samples) + if s.cached then 1 else 0;
  }

  /** recordBucket's loop over the steps of one request. */
  method RecordSteps(steps0: map<string, AccStep>, ghost recs: seq<Rec>, samples: seq<StepSample>)
    returns (steps: map<string, AccStep>)
    requires StepsCount(steps0, name => SamplesOf(recs, name))
    ensures StepsCount(steps, name => SamplesOf(recs, name) + NamedIn(samples, name))
  {
    steps := steps0;
    forall name ensures SamplesOf(recs, name) + NamedIn(samples[..0], name) == SamplesOf(recs, name) {}
    for i := 0 to |samples|
      invariant StepsCount(steps, name => SamplesOf(recs, name) + NamedIn(samples[..i], name))
    {
      var s := samples[i];
      assert samples[..i + 1][..i] == samples[..i];
      ghost var before := name => SamplesOf(recs, name) + NamedIn(samples[..i], name);
      ghost var after := name => SamplesOf(recs, name) + NamedIn(samples[..i + 1], name);
      forall name ensures after(name) == before(name) + if name == s.name then [s] else [] {}
      SampleStep(steps, before, after, s);
      steps := Sampled(steps, s);
    }
    assert samples[..|samples|] == samples;
  }

  lemma SampleStep(steps: map<string, AccStep>, before: string -> seq<StepSample>, after: string -> seq<StepSample>, s: StepSample)
    requires StepsCount(steps, before)
    requires forall name :: after(name) == before(name) + if name == s.name then [s] else []
    ensures StepsCount(Sampled(steps, s), after)
  {
    var st := if s.name in steps then steps[s.name] else AccStep([], 0, 0, s.upstream);
    StepCountsGrow(st, before(s.name), s);
    forall name | name != s.name ensures after(name) == before(name) {}
  }

  /** recordBucket */
  method RecordBucket(b: AccBucket, ghost recs: seq<Rec>, r: Rec) returns (next: AccBucket)
    requires Counts(b, recs)
    ensures Counts(next, recs + [r])
  {
    assert (recs + [r])[..|recs|] == recs;
    var steps := RecordSteps(b.steps, recs, r.steps);
    next := AccBucket(b.requests + 1, b.errors + (if r.isError then 1 else 0), b.partials + (if r.isPartial then 1 else 0),
                      b.latencies + [r.duration], steps);
    forall name ensures SamplesOf(recs + [r], name) == SamplesOf(recs, name) + NamedIn(r.steps, name) {}
    assert b.latencies + [r.duration] == Durations(recs + [r]);
  }

  // ----- Flushing -----

  /** toBucket; percentiles and means are rounded numbers and not modelled. */
  method ToBucket(minute: int, composition: string, b: AccBucket, ghost recs: seq<Rec>) returns (out: Bucket)
    requires Counts(b, recs)
    ensures out.minute == minute && out.composition == composition && Reports(out, recs)
  {
    var latency := ComputeLatencyBuckets(b.latencies);
    var steps := map name | name in b.steps ::
      var st := b.steps[name]; StepBucket(|st.latencies|, st.errors, st.cacheHits, st.upstream);
    out := Bucket(minute, composition, b.requests, b.errors, b.partials, latency, steps);
  }

  /** One flush of a window: the global bucket first, then one bucket for each composition recorded. */
  ghost predicate OneFlush(buckets: seq<Bucket>, minute: int, recs: seq<Rec>) {
    && buckets != [] && buckets[0].composition == "" && Reports(buckets[0], recs)
    && (forall i :: 0 <= i < |buckets| ==> buckets[i].minute == minute)
    && (forall i :: 0 < i < |buckets| ==>
          Of(recs, buckets[i].composition) != [] && Reports(buckets[i], Of(recs, buckets[i].composition)))
    && (forall i, j :: 0 < i < j < |buckets| ==> buckets[i].composition != buckets[j].composition)
    && forall r :: r in recs ==> HasBucket(buckets, r.composition)
  }

  ghost predicate HasBucket(buckets: seq<Bucket>, composition: string) {
    exists i :: 0 < i < |buckets| && buckets[i].composition == composition
  }

  lemma HasBucketMore(buckets: seq<Bucket>, b: Bucket)
    requires buckets != []
    ensures forall c :: HasBucket(buckets + [b], c) <==> HasBucket(buckets, c) || c == b.composition
  {
    var after := buckets + [b];
    forall c ensures HasBucket(after, c) <==> HasBucket(buckets, c) || c == b.composition {
      if i :| 0 < i < |buckets| && buckets[i].composition == c { assert after[i].composition == c; }
      assert after[|buckets|] == b;
    }
  }

  lemma OfGrows(recs: seq<Rec>, r: Rec)
    ensures forall c :: Of(recs + [r], c) == if r.composition == c then Of(recs, c) + [r] else Of(recs, c)
  {
    assert (recs + [r])[..|recs|] == recs;
  }

  lemma OfNone()
    ensures forall c :: Of([], c) == []
  {
  }

  lemma EmptyCounts()
    ensures Counts(NEW_BUCKET, [])
  {
  }

  class Accumulator {
    var global: AccBucket
    var perComp: map<string, AccBucket>
    /** When the window opened, in seconds. */
    var start: int
    /** The calls of Record since then. */
    ghost var window: seq<Rec>

    ghost predicate Valid()
      reads this
    {
      && Counts(global, window)
      && (forall c :: c in perComp <==> Of(window, c) != [])
      && (forall c :: c in perComp ==> Counts(perComp[c], Of(window, c)))
    }

    constructor (now: int)
      ensures Valid() && window == [] && start == now
    {
      global, perComp, start, window := NEW_BUCKET, map[], now, [];
    }

    method Record(r: Rec)
      requires Valid()
      modifies this
      ensures Valid() && window == old(window) + [r] && start == old(start)
    {
      OfGrows(window, r);
      EmptyCounts();
      hide Counts, Of;
      global := RecordBucket(global, window, r);
      var cb := if r.composition in perComp then perComp[r.composition] else NEW_BUCKET;
      assert r.composition !in perComp ==> Of(window, r.composition) == [];
      cb := RecordBucket(cb, Of(window, r.composition), r);
      perComp := perComp[r.composition := cb];
      window := window + [r];
    }

    /** Buckets carry the minute in which the window opened; a new window opens now. */
    method Flush(now: int) returns (buckets: seq<Bucket>)
      requires Valid()
      modifies this
      ensures Valid() && window == [] && start == now
      ensures OneFlush(buckets, old(start) / 60, old(window))
    {
      hide Counts, Reports, Of;
      var minute := start / 60;
      var first := ToBucket(minute, "", global, window);
      buckets := [first];
      var rest := perComp.Keys;
      while rest != {}
        invariant Valid() && window == old(window)
        invariant rest <= perComp.Keys && |buckets| >= 1 && buckets[0] == first
        invariant forall i :: 0 < i < |buckets| ==>
                    && buckets[i].minute == minute && buckets[i].composition in perComp && buckets[i].composition !in rest
                    && Reports(buckets[i], Of(window, buckets[i].composition))
        invariant forall i, j :: 0 < i < j < |buckets| ==> buckets[i].composition != buckets[j].composition
        invariant forall c :: c in perComp && c !in rest ==> HasBucket(buckets, c)
      {
        var c :| c in rest;
        var b := ToBucket(minute, c, perComp[c], Of(window, c));
        HasBucketMore(buckets, b);
        hide HasBucket, Valid;
        buckets := buckets + [b];
        rest := rest - {c};
      }
      forall r | r in window ensures r.composition in perComp {
        RecordedSomewhere(window, r);
      }
      EmptyCounts();
      OfNone();
      global := NEW_BUCKET;
      perComp := map[];
      start, window := now, [];
    }
  }

  lemma {:induction false} RecordedSomewhere(recs: seq<Rec>, r: Rec)
    requires r in recs
    ensures Of(recs, r.composition) != []
  {
    var n := |recs| - 1;
    if r != recs[n] {
      assert recs == recs[..n] + [recs[n]];
      RecordedSomewhere(recs[..n], r);
    }
  }

  // ----- Nothing is lost between the two counts -----

  function SumRequests(buckets: seq<Bucket>): nat {
    if buckets == [] then 0 else SumRequests(buckets[..|buckets| - 1]) + buckets[|buckets| - 1].requests
  }

  function SumOf(recs: seq<Rec>, compositions: seq<string>): nat {
    if compositions == [] then 0
    else SumOf(recs, compositions[..|compositions| - 1]) + |Of(recs, compositions[|compositions| - 1])|
  }

  lemma {:induction false} OneMore(recs: seq<Rec>, r: Rec, compositions: seq<string>)
    requires NoDuplicates(compositions)
    ensures SumOf(recs + [r], compositions) == SumOf(recs, compositions) + if r.composition in compositions then 1 else 0
  {
    if compositions != [] {
      var n := |compositions| - 1;
      assert compositions == compositions[..n] + [compositions[n]];
      assert (recs + [r])[..|recs|] == recs;
      OneMore(recs, r, compositions[..n]);
    } else {
      assert r.composition !in compositions;
    }
  }

  /** Distinct compositions that cover the records share them out. */
  lemma {:induction false} Shares(recs: seq<Rec>, compositions: seq<string>)
    requires NoDuplicates(compositions) && forall r :: r in recs ==> r.composition in compositions
    ensures SumOf(recs, compositions) == |recs|
  {
    if recs == [] {
      NoneToShare(compositions);
    } else {
      var n := |recs| - 1;
      assert recs == recs[..n] + [recs[n]];
      assert recs[n] in recs;
      Shares(recs[..n], compositions);
      OneMore(recs[..n], recs[n], compositions);
    }
  }

  lemma {:induction false} NoneToShare(compositions: seq<string>)
    ensures SumOf([], compositions) == 0
  {
    if compositions != [] { NoneToShare(compositions[..|compositions| - 1]); }
  }

  lemma {:induction false} SumByName(recs: seq<Rec>, buckets: seq<Bucket>, compositions: seq<string>)
    requires |compositions| == |buckets|
    requires forall i :: 0 <= i < |buckets| ==> buckets[i].requests == |Of(recs, compositions[i])|
    ensures SumRequests(buckets) == SumOf(recs, compositions)
  {
    if buckets != [] { SumByName(recs, buckets[..|buckets| - 1], compositions[..|buckets| - 1]); }
  }

  lemma RequestsReported(b: Bucket, recs: seq<Rec>)
    requires Reports(b, recs)
    ensures b.requests == |recs|
  {
  }

  /** In one flush the compositions' requests add up to the gateway's total. */
  lemma FlushConserves(buckets: seq<Bucket>, minute: int, recs: seq<Rec>)
    requires OneFlush(buckets, minute, recs)
    ensures SumRequests(buckets[1..]) == buckets[0].requests == |recs|
  {
    hide Reports, Of;
    forall i | 0 < i < |buckets| ensures buckets[i].requests == |Of(recs, buckets[i].composition)| {
      RequestsReported(buckets[i], Of(recs, buckets[i].composition));
    }
    RequestsReported(buckets[0], recs);
    var rest := buckets[1..];
    var compositions := seq(|rest|, i requires 0 <= i < |rest| => rest[i].composition);
    forall r | r in recs ensures r.composition in compositions {
      var i :| 0 < i < |buckets| && buckets[i].composition == r.composition;
      assert compositions[i - 1] == r.composition;
    }
    SumByName(recs, rest, compositions);
    Shares(recs, compositions);
  }
}
