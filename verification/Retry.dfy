/**
 * internal/upstream/retry.go: the retry loop around one upstream request.
 * Trip is the loop as a recursive specification, RoundTrip the loop itself.
 * Durations are whole nanoseconds without overflow; what the network, the
 * request body, the clock and the random source do is the World.
 */
module Retry {
  import opened Wrappers

  datatype Config = Config(
    maxAttempts: int,
    interval: int,
    maxBackoff: int,
    backoffOn: seq<int>,
    dropOn: seq<int>,
    retryNonIdempotent: bool)

  const MILLISECOND := 1_000_000
  const SECOND := 1_000_000_000

  /** applyRetryDefaults */
  function WithDefaults(c: Config): (d: Config)
    ensures d.maxAttempts >= 1 && d.interval > 0 && d.maxBackoff > 0 && d.backoffOn != []
    ensures c.maxAttempts >= 1 ==> d.maxAttempts == c.maxAttempts
    ensures c.maxBackoff > 0 ==> d.maxBackoff == c.maxBackoff
  {
    c.(maxAttempts := if c.maxAttempts <= 0 then 3 else c.maxAttempts,
       interval := if c.interval <= 0 then 250 * MILLISECOND else c.interval,
       maxBackoff := if c.maxBackoff <= 0 then 5 * SECOND else c.maxBackoff,
       backoffOn := if c.backoffOn == [] then [429, 502, 503, 504] else c.backoffOn)
  }

  /** A body that is absent, can be read once only, or comes from GetBody. */
  datatype Body = NoBody | ReadOnce | Recreatable

  /** Retry-After in seconds, if it parses as a number. */
  datatype Response = Response(status: int, retryAfter: Option<int>)

  datatype World = World(
    verb: string,
    body: Body,
    getBody: nat -> bool,
    send: nat -> Result<Response, string>,
    jitter: nat -> real,
    /** How long into the wait after an attempt the end of the context is seen, if it is; of a tie either may be seen. */
    cancelled: nat -> Option<nat>)

  ghost predicate GoodWorld(w: World) {
    forall a :: 0.8 <= w.jitter(a) <= 1.2
  }

  predicate IsRetryable(verb: string, retryNonIdempotent: bool) {
    retryNonIdempotent || verb in ["GET", "HEAD", "OPTIONS", "PUT", "DELETE"]
  }

  function Pow2(n: nat): nat {
    if n == 0 then 1 else 2 * Pow2(n - 1)
  }

  /** retryBackoff: doubling with jitter, the exponent stopping at 20, the result at the maximum. */
  function Backoff(c: Config, w: World, attempt: nat): int {
    var exponent := if attempt > 20 then 20 else attempt;
    var d := (c.interval as real * Pow2(exponent) as real * w.jitter(attempt)).Floor;
    if d > c.maxBackoff then c.maxBackoff else d
  }

  /** How long the loop means to wait after an attempt. */
  function Delay(c: Config, w: World, attempt: nat): int {
    var resp := w.send(attempt);
    if resp.Success? && resp.value.retryAfter.Some? then
      var secs := if resp.value.retryAfter.value < 0 then 0 else resp.value.retryAfter.value;
      if secs * SECOND > c.maxBackoff then c.maxBackoff else secs * SECOND
    else
      Backoff(c, w, attempt)
  }

  lemma ScaledInterval(i: int, p: nat, j: real)
    requires i > 0 && j >= 0.8
    ensures i as real * p as real * j >= 0.0
  {
    assert i as real * p as real >= 0.0;
  }

  lemma DelayInRange(c: Config, w: World, attempt: nat)
    requires GoodWorld(w) && c.interval > 0 && c.maxBackoff > 0
    ensures 0 <= Delay(c, w, attempt) <= c.maxBackoff
  {
    var exponent := if attempt > 20 then 20 else attempt;
    ScaledInterval(c.interval, Pow2(exponent), w.jitter(attempt));
  }

  /** The time a wait takes: cut short when the context ends first. */
  function Waited(c: Config, w: World, attempt: nat): int {
    if Interrupted(c, w, attempt) then w.cancelled(attempt).value else Delay(c, w, attempt)
  }

  predicate Interrupted(c: Config, w: World, attempt: nat) {
    w.cancelled(attempt).Some? && w.cancelled(attempt).value <= Delay(c, w, attempt)
  }

  predicate CanResend(w: World, attempt: nat) {
    w.body == NoBody || (w.body == Recreatable && w.getBody(attempt))
  }

  // ----- The loop as a specification -----

  /** Settled: nothing to retry. Exhausted: no attempts left. Interrupted: cancelled while waiting. Abandoned: no body to resend. */
  datatype Ending = Settled | Exhausted | Cut | Abandoned

  /** What the loop does from some attempt on: requests sent, waits, bodies drained, and why it ends. */
  datatype Trace = Trace(sends: nat, waits: seq<int>, drains: seq<nat>, ending: Ending)

  function After(waits: seq<int>, drains: seq<nat>, rest: Trace): Trace {
    Trace(1 + rest.sends, waits + rest.waits, drains + rest.drains, rest.ending)
  }

  /** Is the outcome of the attempt one the loop retries. */
  predicate Retries(c: Config, w: World, attempt: nat) {
    match w.send(attempt)
    case Failure(_) => true
    case Success(r) => r.status !in c.dropOn && r.status in c.backoffOn
  }

  /** held is the last response kept, if the previous attempt got one. */
  function Trip(c: Config, w: World, attempt: nat, held: Option<nat>): Trace
    requires attempt < c.maxAttempts
    decreases c.maxAttempts - attempt
  {
    if attempt > 0 && !CanResend(w, attempt) then Trace(0, [], [], Abandoned)
    else if !Retries(c, w, attempt) then Trace(1, [], [], Settled)
    else
      var got := w.send(attempt).Success?;
      var again := if got && held.Some? then [held.value] else [];
      if attempt + 1 >= c.maxAttempts then Trace(1, [], again, Exhausted)
      else if Interrupted(c, w, attempt) then Trace(1, [Waited(c, w, attempt)], again, Cut)
      else
        After([Waited(c, w, attempt)], again + if got then [attempt] else [],
              Trip(c, w, attempt + 1, if got then Some(attempt) else None))
  }

  /** The statuses worth a retry: those configured, or the four that stand for a busy or absent upstream. */
  function BackoffStatuses(cfg: Config): seq<int> {
    if cfg.backoffOn == [] then [429, 502, 503, 504] else cfg.backoffOn
  }

  lemma DefaultsAre()
    ensures WithDefaults(Config(0, 0, 0, [], [], false)) ==
              Config(3, 250 * MILLISECOND, 5 * SECOND, [429, 502, 503, 504], [], false)
    ensures forall c: Config :: c.maxAttempts > 0 && c.interval > 0 && c.maxBackoff > 0 && c.backoffOn != [] ==>
              WithDefaults(c) == c
  {
  }

  /** A number in Retry-After is the wait in seconds, not below zero and not above the maximum. */
  lemma HeaderDecides(c: Config, w: World, attempt: nat, secs: int)
    requires w.send(attempt).Success? && w.send(attempt).value.retryAfter == Some(secs) && c.maxBackoff > 0
    ensures secs <= 0 ==> Delay(c, w, attempt) == 0
    ensures 0 < secs && secs * SECOND <= c.maxBackoff ==> Delay(c, w, attempt) == secs * SECOND
    ensures c.maxBackoff < secs * SECOND ==> Delay(c, w, attempt) == c.maxBackoff
  {
  }

  ghost predicate NoHeader(w: World, attempt: nat) {
    w.send(attempt).Success? ==> w.send(attempt).value.retryAfter == None
  }

  lemma NoHeaderDelay(c: Config, w: World, attempt: nat)
    requires NoHeader(w, attempt)
    ensures Delay(c, w, attempt) == Backoff(c, w, attempt)
  {
  }

  /** The interval after some doublings. */
  function Plain(c: Config, attempt: nat): int {
    c.interval * Pow2(if attempt > 20 then 20 else attempt)
  }

  lemma PlainDoubles(c: Config, attempt: nat)
    ensures Plain(c, 0) == c.interval
    ensures Plain(c, attempt + 1) == if attempt < 20 then 2 * Plain(c, attempt) else Plain(c, attempt)
  {
    if attempt < 20 {
      assert Pow2(attempt + 1) == 2 * Pow2(attempt);
    }
  }

  lemma PlainBackoff(c: Config, w: World, attempt: nat)
    requires w.jitter(attempt) == 1.0 && NoHeader(w, attempt)
    ensures Delay(c, w, attempt) == if Plain(c, attempt) > c.maxBackoff then c.maxBackoff else Plain(c, attempt)
  {
    NoHeaderDelay(c, w, attempt);
    var p := Pow2(if attempt > 20 then 20 else attempt);
    assert c.interval as real * p as real * 1.0 == (c.interval * p) as real;
    hide Delay, Pow2;
  }

  /** Without jitter the wait starts at the interval and doubles until it is the maximum, for twenty doublings at most. */
  lemma DelayDoubles(c: Config, w: World, attempt: nat)
    requires c.interval > 0 && c.maxBackoff > 0
    requires forall a: nat :: NoHeader(w, a) && w.jitter(a) == 1.0
    ensures Delay(c, w, 0) == if c.interval < c.maxBackoff then c.interval else c.maxBackoff
    ensures attempt < 20 ==>
              Delay(c, w, attempt + 1) ==
              if 2 * Delay(c, w, attempt) < c.maxBackoff then 2 * Delay(c, w, attempt) else c.maxBackoff
    ensures attempt >= 20 ==> Delay(c, w, attempt + 1) == Delay(c, w, attempt)
  {
    hide Delay, Plain;
    forall a: nat ensures Delay(c, w, a) == if Plain(c, a) > c.maxBackoff then c.maxBackoff else Plain(c, a) {
      assert NoHeader(w, a);
      PlainBackoff(c, w, a);
    }
    hide NoHeader;
    PlainDoubles(c, attempt);
  }

  /** Jitter moves the wait by a fifth at most, and never beyond the maximum. */
  lemma JitterIsSmall(c: Config, w: World, attempt: nat)
    requires c.interval > 0 && c.maxBackoff > 0 && GoodWorld(w) && NoHeader(w, attempt)
    ensures Delay(c, w, attempt) <= c.maxBackoff && 5 * Delay(c, w, attempt) <= 6 * Plain(c, attempt)
    ensures 5 * (Delay(c, w, attempt) + 1) > 4 * (if Plain(c, attempt) > c.maxBackoff then c.maxBackoff else Plain(c, attempt))
  {
    NoHeaderDelay(c, w, attempt);
    PlainPositive(c, attempt);
    var y := JitteredBackoff(c, w, attempt);
    hide *;
    FloorBounds(Plain(c, attempt), y);
  }

  lemma PlainPositive(c: Config, attempt: nat)
    requires c.interval > 0
    ensures Plain(c, attempt) >= 0
  {
  }

  lemma JitteredBackoff(c: Config, w: World, attempt: nat) returns (y: real)
    requires c.interval > 0 && GoodWorld(w)
    ensures 0.8 * Plain(c, attempt) as real <= y <= 1.2 * Plain(c, attempt) as real
    ensures Backoff(c, w, attempt) == if y.Floor > c.maxBackoff then c.maxBackoff else y.Floor
  {
    y := BackoffIs(c, w, attempt);
    PlainPositive(c, attempt);
    assert 0.8 <= w.jitter(attempt) <= 1.2;
    hide *;
    Jittered(Plain(c, attempt) as real, w.jitter(attempt), y);
  }

  lemma BackoffIs(c: Config, w: World, attempt: nat) returns (y: real)
    ensures y == Plain(c, attempt) as real * w.jitter(attempt)
    ensures Backoff(c, w, attempt) == if y.Floor > c.maxBackoff then c.maxBackoff else y.Floor
  {
    var p := Pow2(if attempt > 20 then 20 else attempt);
    assert c.interval as real * p as real == (c.interval * p) as real;
    y := c.interval as real * p as real * w.jitter(attempt);
  }

  lemma Jittered(x: real, j: real, y: real)
    requires x >= 0.0 && 0.8 <= j <= 1.2 && y == x * j
    ensures 0.8 * x <= y <= 1.2 * x
  {
    assert x * (j - 0.8) >= 0.0 && x * (1.2 - j) >= 0.0;
  }

  lemma FloorBounds(x: int, y: real)
    requires 0.8 * x as real <= y <= 1.2 * x as real
    ensures 5 * y.Floor <= 6 * x && 5 * (y.Floor + 1) > 4 * x
  {
  }

  /** The wait after an attempt: as long as meant, or less when the context ends in it. */
  ghost predicate IsWait(c: Config, w: World, attempt: nat, wait: int, cut: bool) {
    if cut then w.cancelled(attempt) == Some(wait) && wait <= Delay(c, w, attempt)
    else wait == Delay(c, w, attempt) && (w.cancelled(attempt) == None || w.cancelled(attempt).value > wait)
  }

  lemma WaitedIs(c: Config, w: World, attempt: nat)
    ensures IsWait(c, w, attempt, Waited(c, w, attempt), Interrupted(c, w, attempt))
  {
  }

  /** Wait i follows attempt i, and only the last is cut short, when the run is. */
  lemma {:induction false} EachWait(c: Config, w: World, attempt: nat, held: Option<nat>)
    requires attempt < c.maxAttempts
    ensures var t := Trip(c, w, attempt, held);
            && (t.ending == Cut ==> t.waits != [])
            && forall i :: 0 <= i < |t.waits| ==> IsWait(c, w, attempt + i, t.waits[i], t.ending == Cut && i == |t.waits| - 1)
    decreases c.maxAttempts - attempt
  {
    hide IsWait, Waited, Retries, Interrupted;
    WaitedIs(c, w, attempt);
    if attempt + 1 < c.maxAttempts {
      var got := if w.send(attempt).Success? then Some(attempt) else None;
      EachWait(c, w, attempt + 1, got);
      var t, rest := Trip(c, w, attempt, held), Trip(c, w, attempt + 1, got);
      assert forall i :: 0 < i < |t.waits| ==> t.waits[i] == rest.waits[i - 1];
    }
  }

  /** The request of an attempt after the first has no body, or a new one. */
  ghost predicate HasBody(w: World, attempt: nat) {
    w.body == NoBody || (w.body == Recreatable && w.getBody(attempt))
  }

  /** Every request sent again has its body; a run is abandoned at the first attempt that has none. */
  lemma {:induction false} ResendsHaveBodies(c: Config, w: World, attempt: nat, held: Option<nat>)
    requires attempt < c.maxAttempts
    ensures var t := Trip(c, w, attempt, held);
            && (forall a :: attempt <= a < attempt + t.sends && a > 0 ==> HasBody(w, a))
            && (t.ending == Abandoned ==> 0 < attempt + t.sends < c.maxAttempts && !HasBody(w, attempt + t.sends))
    decreases c.maxAttempts - attempt
  {
    hide Delay, Retries, Interrupted, Waited;
    if attempt + 1 < c.maxAttempts {
      ResendsHaveBodies(c, w, attempt + 1, if w.send(attempt).Success? then Some(attempt) else None);
    }
  }

  lemma MethodsRetried(verb: string)
    ensures IsRetryable(verb, true)
    ensures IsRetryable(verb, false) <==> verb in {"GET", "HEAD", "OPTIONS", "PUT", "DELETE"}
  {
  }

  // ----- The loop -----

  /** A trace with what came before it. */
  function Prefix(sends: nat, waits: seq<int>, drains: seq<nat>, rest: Trace): Trace {
    Trace(sends + rest.sends, waits + rest.waits, drains + rest.drains, rest.ending)
  }

  lemma PrefixAfter(sends: nat, waits: seq<int>, drains: seq<nat>, wait: int, more: seq<nat>, rest: Trace)
    ensures Prefix(sends, waits, drains, After([wait], more, rest)) == Prefix(sends + 1, waits + [wait], drains + more, rest)
  {
    assert waits + ([wait] + rest.waits) == waits + [wait] + rest.waits;
    assert drains + (more + rest.drains) == drains + more + rest.drains;
  }

  lemma PrefixLast(sends: nat, waits: seq<int>, drains: seq<nat>, last: Trace)
    ensures Prefix(sends, waits, drains, last) ==
              Trace(sends + last.sends, waits + last.waits, drains + last.drains, last.ending)
    ensures waits + [] == waits && drains + [] == drains
  {
  }

  /** What the loop knows at the head of an attempt. */
  ghost predicate AtAttempt(c: Config, w: World, attempt: nat, lastResp: Option<Response>, lastErr: string,
                            waits: seq<int>, drains: seq<nat>)
  {
    && attempt < c.maxAttempts
    && Trip(c, w, 0, None) == Prefix(attempt, waits, drains, Trip(c, w, attempt, Held(attempt, lastResp)))
    && (attempt > 0 ==> w.send(attempt - 1) == if lastResp.Some? then Success(lastResp.value) else Failure(lastErr))
    && (attempt == 0 ==> lastResp == None)
  }

  function Held(attempt: nat, lastResp: Option<Response>): Option<nat> {
    if lastResp.Some? && attempt > 0 then Some(attempt - 1) else None
  }

  lemma NextAttempt(c: Config, w: World, attempt: nat, held: Option<nat>, waits: seq<int>, drains: seq<nat>, more: seq<nat>)
    requires attempt + 1 < c.maxAttempts && (attempt == 0 || CanResend(w, attempt))
    requires Retries(c, w, attempt) && !Interrupted(c, w, attempt)
    requires more == (if w.send(attempt).Success? && held.Some? then [held.value] else [])
                     + if w.send(attempt).Success? then [attempt] else []
    ensures Prefix(attempt, waits, drains, Trip(c, w, attempt, held)) ==
            Prefix(attempt + 1, waits + [Waited(c, w, attempt)], drains + more,
                   Trip(c, w, attempt + 1, if w.send(attempt).Success? then Some(attempt) else None))
  {
    PrefixAfter(attempt, waits, drains, Waited(c, w, attempt), more,
                Trip(c, w, attempt + 1, if w.send(attempt).Success? then Some(attempt) else None));
  }

  /** RoundTrip's result with what it did on the way. */
  method RoundTrip(cfg: Config, w: World) returns (result: Result<Response, string>, trace: Trace)
    ensures var c := WithDefaults(cfg);
            if IsRetryable(w.verb, c.retryNonIdempotent)
            then trace == Trip(c, w, 0, None) && trace.sends >= 1 && result == w.send(trace.sends - 1)
            else trace == Trace(1, [], [], Settled) && result == w.send(0)
    ensures w.verb !in {"GET", "HEAD", "OPTIONS", "PUT", "DELETE"} && !cfg.retryNonIdempotent ==>
              trace.sends == 1 && trace.waits == []
    ensures w.verb in {"GET", "HEAD", "OPTIONS", "PUT", "DELETE"} || cfg.retryNonIdempotent ==>
              (trace.ending == Settled <==>
                 result.Success? && (result.value.status in cfg.dropOn || result.value.status !in BackoffStatuses(cfg)))
    ensures forall a :: 0 <= a < trace.sends - 1 && w.send(a).Success? ==>
              w.send(a).value.status in BackoffStatuses(cfg) && w.send(a).value.status !in cfg.dropOn
  {
    var c := WithDefaults(cfg);
    MethodsRetried(w.verb);
    SendsBounded(c, w, 0, None);
    hide Trip, IsRetryable;
    if !IsRetryable(w.verb, c.retryNonIdempotent) {
      return w.send(0), Trace(1, [], [], Settled);
    }
    result, trace := Loop(c, w);
    assert forall a :: 0 <= a < trace.sends - 1 && w.send(a).Success? ==> Retries(c, w, a);
  }

  /** The loop over attempts; it always returns from inside. */
  method Loop(c: Config, w: World) returns (result: Result<Response, string>, trace: Trace)
    requires c.maxAttempts >= 1
    ensures trace == Trip(c, w, 0, None) && trace.sends >= 1 && result == w.send(trace.sends - 1)
  {
    hide Interrupted, Waited, Delay, CanResend, Prefix;
    var lastResp: Option<Response> := None;
    var lastErr := "";
    var waits: seq<int>, drains: seq<nat> := [], [];
    PrefixLast(0, [], [], Trip(c, w, 0, None));
    var attempt := 0;
    while attempt < c.maxAttempts
      invariant AtAttempt(c, w, attempt, lastResp, lastErr, waits, drains)
      decreases c.maxAttempts - attempt
    {
      PrefixLast(attempt, waits, drains, Trip(c, w, attempt, Held(attempt, lastResp)));
      if attempt > 0 && !CanResend(w, attempt) {
        result := if lastResp.Some? then Success(lastResp.value) else Failure(lastErr);
        return result, Trace(attempt, waits, drains, Abandoned);
      }
      var outcome := w.send(attempt);
      ghost var held, before := Held(attempt, lastResp), drains;
      if outcome.Failure? {
        lastErr := outcome.error;
        lastResp := None;
      } else {
        if outcome.value.status in c.dropOn || outcome.value.status !in c.backoffOn {
          return outcome, Trace(attempt + 1, waits, drains, Settled);
        }
        if lastResp.Some? {
          drains := drains + [attempt - 1];
        }
        lastResp := Some(outcome.value);
      }
      if attempt + 1 >= c.maxAttempts {
        return outcome, Trace(attempt + 1, waits, drains, Exhausted);
      }
      if Interrupted(c, w, attempt) {
        return outcome, Trace(attempt + 1, waits + [Waited(c, w, attempt)], drains, Cut);
      }
      ghost var again: seq<nat> := if outcome.Success? && held.Some? then [held.value] else [];
      ghost var more: seq<nat> := again + if outcome.Success? then [attempt] else [];
      NextAttempt(c, w, attempt, held, waits, before, more);
      if outcome.Success? {
        drains := drains + [attempt];
      }
      assert drains == before + more;
      waits := waits + [Waited(c, w, attempt)];
      attempt := attempt + 1;
    }
    assert false;
  }

  // ----- What the loop promises -----

  function Sum(xs: seq<int>): int {
    if xs == [] then 0 else xs[0] + Sum(xs[1..])
  }

  /** At least one request is sent and at most MaxAttempts; every one before the last was one to retry. */
  lemma {:induction false} SendsBounded(c: Config, w: World, attempt: nat, held: Option<nat>)
    requires attempt < c.maxAttempts
    ensures var t := Trip(c, w, attempt, held);
            && attempt + t.sends <= c.maxAttempts
            && (attempt == 0 ==> t.sends >= 1)
            && (t.sends == 0 <==> attempt > 0 && !CanResend(w, attempt))
            && (forall a :: attempt <= a < attempt + t.sends - 1 ==> Retries(c, w, a))
            && (t.ending == Settled <==> t.sends > 0 && !Retries(c, w, attempt + t.sends - 1))
            && (t.ending == Exhausted ==> attempt + t.sends == c.maxAttempts)
    decreases c.maxAttempts - attempt
  {
    if attempt + 1 < c.maxAttempts {
      SendsBounded(c, w, attempt + 1, if w.send(attempt).Success? then Some(attempt) else None);
    }
  }

  /**
   * How often and how long the loop waits. A wait is followed by a request,
   * unless the context cut it short or no body could be had for that request.
   */
  lemma {:induction false} WaitsCounted(c: Config, w: World, attempt: nat, held: Option<nat>)
    requires attempt < c.maxAttempts && GoodWorld(w) && c.interval > 0 && c.maxBackoff > 0
    ensures var t := Trip(c, w, attempt, held);
            && |t.waits| == t.sends + (if t.ending.Cut? || t.ending.Abandoned? then 1 else 0) - 1
            && forall i :: 0 <= i < |t.waits| ==> 0 <= t.waits[i] <= c.maxBackoff
    decreases c.maxAttempts - attempt
  {
    WaitInRange(c, w, attempt);
    hide Delay, Waited, Interrupted, Retries;
    if attempt + 1 < c.maxAttempts {
      WaitsCounted(c, w, attempt + 1, if w.send(attempt).Success? then Some(attempt) else None);
    }
  }

  lemma WaitInRange(c: Config, w: World, attempt: nat)
    requires GoodWorld(w) && c.interval > 0 && c.maxBackoff > 0
    ensures 0 <= Waited(c, w, attempt) <= c.maxBackoff
  {
    DelayInRange(c, w, attempt);
  }

  lemma {:induction false} SumInRange(xs: seq<int>, most: int)
    requires forall i :: 0 <= i < |xs| ==> 0 <= xs[i] <= most
    ensures 0 <= Sum(xs) <= |xs| * most
  {
    if xs != [] {
      SumInRange(xs[1..], most);
      assert |xs| * most == |xs[1..]| * most + most;
    }
  }

  // ----- How a run ends, from what it meets -----

  /** After this attempt the loop waits in full and sends again. */
  predicate GoesOn(c: Config, w: World, attempt: nat) {
    attempt + 1 < c.maxAttempts && Retries(c, w, attempt) && !Interrupted(c, w, attempt) && CanResend(w, attempt + 1)
  }

  /** The loop comes from one attempt to the other. */
  ghost predicate Gets(c: Config, w: World, from: nat, to: nat) {
    from <= to && forall a :: from <= a < to ==> GoesOn(c, w, a)
  }

  /** The loop waits after this attempt, but the context ends in the wait. */
  predicate CutAt(c: Config, w: World, attempt: nat) {
    attempt + 1 < c.maxAttempts && Retries(c, w, attempt) && Interrupted(c, w, attempt)
  }

  /** The loop waits after this attempt, and then has no body to send. */
  predicate NoBodyAfter(c: Config, w: World, attempt: nat) {
    attempt + 1 < c.maxAttempts && Retries(c, w, attempt) && !Interrupted(c, w, attempt) && !CanResend(w, attempt + 1)
  }

  lemma GetsNext(c: Config, w: World, from: nat)
    requires GoesOn(c, w, from)
    ensures forall to: nat :: to > from ==> (Gets(c, w, from, to) <==> Gets(c, w, from + 1, to))
  {
  }

  /** Each ending, and the number of requests, from the answers, the body and the context alone. */
  lemma {:induction false} EndingIff(c: Config, w: World, from: nat, held: Option<nat>)
    requires from < c.maxAttempts && (from == 0 || CanResend(w, from))
    ensures var t := Trip(c, w, from, held);
            && t.sends > 0 && Gets(c, w, from, from + t.sends - 1) && !GoesOn(c, w, from + t.sends - 1)
            && (t.ending == Cut <==> CutAt(c, w, from + t.sends - 1))
            && (t.ending == Abandoned <==> NoBodyAfter(c, w, from + t.sends - 1))
    decreases c.maxAttempts - from
  {
    if GoesOn(c, w, from) {
      EndingIff(c, w, from + 1, if w.send(from).Success? then Some(from) else None);
      GetsNext(c, w, from);
      hide GoesOn, Retries, Interrupted, CanResend;
    } else {
      assert Gets(c, w, from, from);
      hide Delay;
    }
  }

  /** There is one attempt at which the loop stops. */
  lemma OneStop(c: Config, w: World, k: nat, last: nat)
    requires Gets(c, w, 0, k) && !GoesOn(c, w, k) && Gets(c, w, 0, last) && !GoesOn(c, w, last)
    ensures k == last
  {
  }

  /** The context ends the loop iff it comes to a wait in which the context ends. */
  lemma CutIff(c: Config, w: World)
    requires 0 < c.maxAttempts
    ensures Trip(c, w, 0, None).ending == Cut <==> exists k: nat :: Gets(c, w, 0, k) && CutAt(c, w, k)
  {
    EndingIff(c, w, 0, None);
    var last := Trip(c, w, 0, None).sends - 1;
    hide Trip;
    if k: nat :| Gets(c, w, 0, k) && CutAt(c, w, k) {
      OneStop(c, w, k, last);
    }
  }

  /** A retry is abandoned iff the loop comes to one whose body cannot be had. */
  lemma AbandonedIff(c: Config, w: World)
    requires 0 < c.maxAttempts
    ensures Trip(c, w, 0, None).ending == Abandoned <==> exists k: nat :: Gets(c, w, 0, k) && NoBodyAfter(c, w, k)
  {
    EndingIff(c, w, 0, None);
    var last := Trip(c, w, 0, None).sends - 1;
    hide Trip;
    if k: nat :| Gets(c, w, 0, k) && NoBodyAfter(c, w, k) {
      OneStop(c, w, k, last);
    }
  }

  /** The loop comes to a wait that leads to no request. */
  ghost predicate WaitsInVain(c: Config, w: World) {
    exists k: nat :: Gets(c, w, 0, k) && k + 1 < c.maxAttempts && Retries(c, w, k) && (Interrupted(c, w, k) || !CanResend(w, k + 1))
  }

  lemma InVainIff(c: Config, w: World)
    requires 0 < c.maxAttempts
    ensures var t := Trip(c, w, 0, None); t.ending == Cut || t.ending == Abandoned <==> WaitsInVain(c, w)
  {
    CutIff(c, w);
    AbandonedIff(c, w);
    hide Trip, Gets, Retries, Interrupted, CanResend;
    if k: nat :| Gets(c, w, 0, k) && CutAt(c, w, k) {
      assert Gets(c, w, 0, k) && k + 1 < c.maxAttempts && Retries(c, w, k) && Interrupted(c, w, k);
    }
    if k: nat :| Gets(c, w, 0, k) && NoBodyAfter(c, w, k) {
      assert Gets(c, w, 0, k) && k + 1 < c.maxAttempts && Retries(c, w, k) && !CanResend(w, k + 1);
    }
    if WaitsInVain(c, w) {
      var k: nat :| Gets(c, w, 0, k) && k + 1 < c.maxAttempts && Retries(c, w, k) && (Interrupted(c, w, k) || !CanResend(w, k + 1));
      assert CutAt(c, w, k) || NoBodyAfter(c, w, k);
    }
  }

  /**
   * The loop waits once for each request after the first, and once more iff it
   * waits in vain; so it sleeps at most sends * MaxBackoff, and at most
   * (sends - 1) * MaxBackoff unless it waits in vain.
   */
  lemma SleepBound(c: Config, w: World)
    requires 0 < c.maxAttempts && GoodWorld(w) && c.interval > 0 && c.maxBackoff > 0
    ensures var t := Trip(c, w, 0, None);
            && Sum(t.waits) <= t.sends * c.maxBackoff
            && (!WaitsInVain(c, w) ==> Sum(t.waits) <= (t.sends - 1) * c.maxBackoff)
            && |t.waits| == (if WaitsInVain(c, w) then t.sends else t.sends - 1)
            && (t.ending.Settled? || t.ending.Exhausted? <==> !WaitsInVain(c, w))
  {
    WaitsCounted(c, w, 0, None);
    SendsBounded(c, w, 0, None);
    InVainIff(c, w);
    hide Trip, Retries, WaitsInVain;
    var t := Trip(c, w, 0, None);
    SumInRange(t.waits, c.maxBackoff);
    Times(|t.waits|, t.sends, c.maxBackoff);
  }

  lemma Times(m: int, n: int, k: int)
    requires m <= n && k > 0
    ensures m * k <= n * k
  {
  }

  /** A body that can be read only once: one request, then a wait that leads to none. */
  lemma WaitWithoutRequest()
    ensures var c := WithDefaults(Config(3, SECOND, SECOND, [], [], false));
            var w := World("PUT", ReadOnce, _ => false, _ => Success(Response(503, Some(1))), _ => 1.0, _ => None);
            var t := Trip(c, w, 0, None);
            t == Trace(1, [SECOND], [0], Abandoned) && Sum(t.waits) > (t.sends - 1) * c.maxBackoff
  {
    var c := WithDefaults(Config(3, SECOND, SECOND, [], [], false));
    var w := World("PUT", ReadOnce, _ => false, _ => Success(Response(503, Some(1))), _ => 1.0, _ => None);
    assert Retries(c, w, 0);
    assert Delay(c, w, 0) == SECOND;
    assert Trip(c, w, 1, Some(0)) == Trace(0, [], [], Abandoned);
    assert Trip(c, w, 0, None) == Trace(1, [SECOND], [0], Abandoned);
    assert Sum([SECOND]) == SECOND + Sum([]);
  }

  /** Every response received before the last request is drained. */
  lemma {:induction false} EarlierDrained(c: Config, w: World, attempt: nat, held: Option<nat>)
    requires attempt < c.maxAttempts
    ensures var t := Trip(c, w, attempt, held);
            forall a :: attempt <= a < attempt + t.sends - 1 && w.send(a).Success? ==> a in t.drains
    decreases c.maxAttempts - attempt
  {
    hide Delay, Waited, Interrupted, Retries;
    if attempt + 1 < c.maxAttempts {
      EarlierDrained(c, w, attempt + 1, if w.send(attempt).Success? then Some(attempt) else None);
    }
  }

  /** Only responses are drained, the held one and those received since; the last only when a retry is abandoned. */
  lemma {:induction false} OnlyThoseDrained(c: Config, w: World, attempt: nat, held: Option<nat>)
    requires attempt < c.maxAttempts && (held.Some? ==> held.value < attempt)
    ensures var t := Trip(c, w, attempt, held);
            && (t.sends == 0 ==> t.drains == [] && t.ending == Abandoned)
            && forall a :: a in t.drains ==>
                 Some(a) == held ||
                 (attempt <= a < attempt + t.sends && w.send(a).Success? &&
                  (a == attempt + t.sends - 1 ==> t.ending == Abandoned))
    decreases c.maxAttempts - attempt
  {
    hide Delay, Waited, Interrupted, Retries;
    if attempt + 1 < c.maxAttempts {
      OnlyThoseDrained(c, w, attempt + 1, if w.send(attempt).Success? then Some(attempt) else None);
    }
  }

  lemma {:induction false} AbandonedIsDrained(c: Config, w: World, attempt: nat, held: Option<nat>)
    requires attempt < c.maxAttempts
    ensures var t := Trip(c, w, attempt, held);
            t.sends > 0 && t.ending == Abandoned && w.send(attempt + t.sends - 1).Success? ==> attempt + t.sends - 1 in t.drains
    decreases c.maxAttempts - attempt
  {
    hide Delay, Waited, Interrupted, Retries;
    if attempt + 1 < c.maxAttempts {
      AbandonedIsDrained(c, w, attempt + 1, if w.send(attempt).Success? then Some(attempt) else None);
    }
  }

  /** Every response but the returned one is drained; the returned one is, only when a retry had to be abandoned. */
  lemma ReturnedIsUndrained(c: Config, w: World)
    requires 0 < c.maxAttempts
    ensures var t := Trip(c, w, 0, None);
            && (forall a :: 0 <= a < t.sends - 1 && w.send(a).Success? ==> a in t.drains)
            && (t.sends - 1 in t.drains <==> t.ending == Abandoned && w.send(t.sends - 1).Success?)
  {
    hide Trip, Retries;
    EarlierDrained(c, w, 0, None);
    OnlyThoseDrained(c, w, 0, None);
    AbandonedIsDrained(c, w, 0, None);
    SendsBounded(c, w, 0, None);
  }

  /** With no body, or one GetBody always gives back, no retry is abandoned and the returned response is undrained. */
  lemma RewindableNeverAbandoned(c: Config, w: World)
    requires 0 < c.maxAttempts && (w.body == NoBody || (w.body == Recreatable && forall a :: w.getBody(a)))
    ensures var t := Trip(c, w, 0, None); t.ending != Abandoned && t.sends - 1 !in t.drains
  {
    AbandonedIff(c, w);
    ReturnedIsUndrained(c, w);
  }

  /** A read-once body is given up on exactly when its first outcome asks for a retry that would be made. */
  lemma ReadOnceAbandonedIff(c: Config, w: World)
    requires 0 < c.maxAttempts && w.body == ReadOnce
    ensures Trip(c, w, 0, None).ending == Abandoned <==>
              1 < c.maxAttempts && Retries(c, w, 0) && !Interrupted(c, w, 0)
  {
    AbandonedIff(c, w);
    hide Trip, Retries, Interrupted;
    assert Gets(c, w, 0, 0);
    assert !GoesOn(c, w, 0);
    if k: nat :| Gets(c, w, 0, k) && NoBodyAfter(c, w, k) {
      assert k == 0;
    }
    if 1 < c.maxAttempts && Retries(c, w, 0) && !Interrupted(c, w, 0) {
      assert NoBodyAfter(c, w, 0);
    }
  }
}
