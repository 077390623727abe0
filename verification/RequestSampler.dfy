/**
 * internal/hotreload/requests.go: the sampler of finished requests. Requests
 * are recorded while a push is under way; each section that holds the mutex is
 * one atomic step.
 */
module RequestSampler {
  const SUCCESSES_PER_MINUTE := 60
  const MAX_QUEUED_SAMPLES := 1000

  /** The minute of Go's zero time. */
  const ZERO_MINUTE := -1035593280

  datatype Rec = Rec(path: string, time: int, status: int, isPartial: bool)

  predicate Failed(rec: Rec) {
    rec.status >= 500 || rec.isPartial
  }

  /** Time.Truncate(time.Minute) */
  function Minute(rec: Rec): int {
    rec.time / 60
  }

  /** What a push under way took from the queue, and what it sends. */
  datatype Flight = Flight(taken: seq<Rec>, batch: seq<Rec>)

  /**
   * Pushes under way have numbers. Those of the loop are numbered LOOP, of
   * which there is one at a time; at shutdown another may overlap it.
   */
  datatype State = State(
    queue: seq<Rec>,
    pending: seq<Rec>,
    minute: int,
    successes: nat,
    dropped: nat,
    flights: map<nat, Flight>)

  const LOOP: nat := 0
  const EMPTY := State([], [], ZERO_MINUTE, 0, 0, map[])

  /** Failures always count as samples, successes while the minute has room. */
  predicate Sampled(st: State, rec: Rec) {
    Failed(rec) || Minute(rec) != st.minute || st.successes < SUCCESSES_PER_MINUTE
  }

  function Counted(st: State, rec: Rec): State {
    if Failed(rec) then st
    else if Minute(rec) != st.minute then st.(minute := Minute(rec), successes := 1)
    else if st.successes < SUCCESSES_PER_MINUTE then st.(successes := st.successes + 1)
    else st
  }

  datatype Event = Record(rec: Rec) | Take(push: nat) | Fail(push: nat) | Deliver(push: nat)

  predicate Enabled(st: State, e: Event) {
    match e
    case Record(_) => true
    case Take(push) => push !in st.flights
    case Fail(push) => push in st.flights
    case Deliver(push) => push in st.flights
  }

  function Apply(st: State, e: Event): State
    requires Enabled(st, e)
  {
    match e
    case Record(rec) =>
      var counted := Counted(st, rec);
      if !Sampled(st, rec) then counted
      else if |st.queue| >= MAX_QUEUED_SAMPLES then counted.(dropped := st.dropped + 1)
      else counted.(queue := st.queue + [rec])
    case Take(push) =>
      var batch := st.pending + st.queue;
      st.(queue := [], flights := if |batch| == 0 then st.flights else st.flights[push := Flight(st.queue, batch)])
    case Fail(push) =>
      st.(dropped := st.dropped + |st.pending|, pending := st.flights[push].taken, flights := st.flights - {push})
    case Deliver(push) =>
      st.(pending := [], flights := st.flights - {push})
  }

  // ----- The sampler -----

  class Sampler {
    var queue: seq<Rec>
    var pending: seq<Rec>
    var minute: int
    var successes: nat
    var dropped: nat
    /** The local variables of the running pushes. */
    ghost var flights: map<nat, Flight>

    constructor ()
      ensures View() == EMPTY
    {
      queue, pending, minute, successes, dropped, flights := [], [], ZERO_MINUTE, 0, 0, map[];
    }

    ghost function View(): State
      reads this
    {
      State(queue, pending, minute, successes, dropped, flights)
    }

    method Record(rec: Rec)
      modifies this
      ensures View() == Apply(old(View()), Event.Record(rec))
      ensures pending == old(pending) && flights == old(flights)
      ensures rec.status >= 500 || rec.isPartial ==> minute == old(minute) && successes == old(successes)
      ensures rec.status < 500 && !rec.isPartial ==>
                && minute == rec.time / 60
                && successes == (if minute != old(minute) then 1 else if old(successes) < 60 then old(successes) + 1 else old(successes))
      ensures if rec.status < 500 && !rec.isPartial && rec.time / 60 == old(minute) && old(successes) >= 60
              then queue == old(queue) && dropped == old(dropped)
              else if |old(queue)| >= 1000 then queue == old(queue) && dropped == old(dropped) + 1
              else queue == old(queue) + [rec] && dropped == old(dropped)
    {
      if !Failed(rec) {
        var m := Minute(rec);
        if m != minute {
          minute, successes := m, 0;
        }
        if successes >= SUCCESSES_PER_MINUTE {
          return;
        }
        successes := successes + 1;
      }
      if |queue| >= MAX_QUEUED_SAMPLES {
        dropped := dropped + 1;
        return;
      }
      queue := queue + [rec];
    }

    /** Push up to the request; an empty batch is not sent. */
    method TakeBatch(ghost push: nat) returns (taken: seq<Rec>, batch: seq<Rec>)
      requires push !in flights
      modifies this
      ensures View() == Apply(old(View()), Take(push))
      ensures taken == old(queue) && batch == old(pending) + taken
      ensures push in flights <==> batch != []
      ensures batch != [] ==> flights[push] == Flight(taken, batch)
      ensures queue == [] && pending == old(pending) && dropped == old(dropped)
    {
      taken := queue;
      queue := [];
      batch := pending + taken;
      flights := if |batch| == 0 then flights else flights[push := Flight(taken, batch)];
    }

    /** Push from the answer on. */
    method Settle(ghost push: nat, taken: seq<Rec>, sent: bool)
      requires push in flights && flights[push].taken == taken
      modifies this
      ensures View() == Apply(old(View()), if sent then Deliver(push) else Fail(push))
      ensures queue == old(queue) && pending == (if sent then [] else taken)
      ensures dropped == old(dropped) + if sent then 0 else |old(pending)|
    {
      if !sent {
        dropped := dropped + |pending|;
        pending := taken;
      } else {
        pending := [];
      }
      flights := flights - {push};
    }
  }

  // ----- Runs -----

  /** Any interleaving of records with pushes. */
  predicate Runs(events: seq<Event>)
    decreases |events|, 0
  {
    events == [] || (Runs(events[..|events| - 1]) && Enabled(After(events[..|events| - 1]), events[|events| - 1]))
  }

  function After(events: seq<Event>): State
    requires Runs(events)
    decreases |events|, 1
  {
    if events == [] then EMPTY else Apply(After(events[..|events| - 1]), events[|events| - 1])
  }

  /** What became of samples so far: admitted, sent in some batch, acknowledged and given up. */
  datatype Ledger = Ledger(admitted: multiset<Rec>, sends: multiset<Rec>, acknowledged: multiset<Rec>, givenUp: multiset<Rec>)

  const BLANK := Ledger(multiset{}, multiset{}, multiset{}, multiset{})

  ghost function Entered(l: Ledger, st: State, e: Event): Ledger
    requires Enabled(st, e)
  {
    match e
    case Record(rec) =>
      if !Sampled(st, rec) then l
      else if |st.queue| >= MAX_QUEUED_SAMPLES then
        l.(admitted := l.admitted + multiset{rec}, givenUp := l.givenUp + multiset{rec})
      else l.(admitted := l.admitted + multiset{rec})
    case Take(_) => l.(sends := l.sends + multiset(st.pending + st.queue))
    case Fail(_) => l.(givenUp := l.givenUp + multiset(st.pending))
    case Deliver(push) => l.(acknowledged := l.acknowledged + multiset(st.flights[push].batch))
  }

  ghost function Books(events: seq<Event>): Ledger
    requires Runs(events)
  {
    if events == [] then BLANK
    else Entered(Books(events[..|events| - 1]), After(events[..|events| - 1]), events[|events| - 1])
  }

  /** No push but the loop's. */
  predicate OneAtATime(events: seq<Event>) {
    forall i :: 0 <= i < |events| && events[i].Take? ==> events[i].push == LOOP
  }

  function InFlight(st: State): seq<Rec> {
    if LOOP in st.flights then st.flights[LOOP].taken else []
  }

  /** How often each sample may still be sent. */
  ghost function MayStillSend(st: State): multiset<Rec> {
    multiset(st.queue) + multiset(st.queue) + multiset(if LOOP in st.flights then InFlight(st) else st.pending)
  }

  ghost predicate Balanced(st: State, l: Ledger) {
    && st.flights.Keys <= {LOOP} && (LOOP in st.flights ==> st.flights[LOOP].batch == st.pending + InFlight(st))
    && l.admitted == multiset(st.queue) + multiset(st.pending) + multiset(InFlight(st)) + l.acknowledged + l.givenUp
    && st.dropped == |l.givenUp|
    && l.sends + MayStillSend(st) <= l.admitted + l.admitted
    && |st.queue| <= MAX_QUEUED_SAMPLES && |st.pending| <= MAX_QUEUED_SAMPLES && |InFlight(st)| <= MAX_QUEUED_SAMPLES
  }

  lemma StepBalances(st: State, l: Ledger, e: Event)
    requires Balanced(st, l) && Enabled(st, e) && (e.Take? ==> e.push == LOOP)
    ensures Balanced(Apply(st, e), Entered(l, st, e))
  {
    match e
    case Record(rec) =>
      RecordBalances(st, l, rec);
    case Take(_) =>
      assert multiset(st.pending + st.queue) == multiset(st.pending) + multiset(st.queue);
      assert |st.pending + st.queue| == 0 ==> st.pending == [] && st.queue == [];
    case Fail(_) =>
      assert |l.givenUp + multiset(st.pending)| == |l.givenUp| + |st.pending|;
    case Deliver(_) =>
      assert multiset(st.pending + InFlight(st)) == multiset(st.pending) + multiset(InFlight(st));
  }

  lemma RoomForTwo(sends: multiset<Rec>, may: multiset<Rec>, admitted: multiset<Rec>, one: multiset<Rec>)
    requires sends + may <= admitted + admitted
    ensures sends + (may + one + one) <= (admitted + one) + (admitted + one)
    ensures sends + may <= (admitted + one) + (admitted + one)
    ensures forall rec :: sends[rec] <= 2 * admitted[rec]
  {
    forall rec ensures sends[rec] + may[rec] <= 2 * admitted[rec] {
      assert (sends + may)[rec] <= (admitted + admitted)[rec];
    }
  }

  lemma OneMoreEach(a: multiset<Rec>, rest: multiset<Rec>, one: multiset<Rec>)
    ensures (a + one) + (a + one) + rest == (a + a + rest) + one + one
  {
  }

  lemma OneMore(q: multiset<Rec>, p: multiset<Rec>, f: multiset<Rec>, k: multiset<Rec>, g: multiset<Rec>, one: multiset<Rec>)
    ensures q + one + p + f + k + g == q + p + f + k + g + one
    ensures q + p + f + k + (g + one) == q + p + f + k + g + one
  {
  }

  lemma RecordBalances(st: State, l: Ledger, rec: Rec)
    requires Balanced(st, l)
    ensures Balanced(Apply(st, Event.Record(rec)), Entered(l, st, Event.Record(rec)))
  {
    var one, next := multiset{rec}, Apply(st, Event.Record(rec));
    RoomForTwo(l.sends, MayStillSend(st), l.admitted, one);
    OneMore(multiset(st.queue), multiset(st.pending), multiset(InFlight(st)), l.acknowledged, l.givenUp, one);
    if Sampled(st, rec) && |st.queue| < MAX_QUEUED_SAMPLES {
      QueuedMore(st, next, rec);
    }
    assert |l.givenUp + one| == |l.givenUp| + 1;
    assert next.pending == st.pending && next.flights == st.flights && InFlight(next) == InFlight(st);
    assert next.queue == st.queue ==> MayStillSend(next) == MayStillSend(st);
    hide MayStillSend, InFlight, Failed, Minute;
  }

  lemma QueuedMore(st: State, next: State, rec: Rec)
    requires next.queue == st.queue + [rec] && next.pending == st.pending && next.flights == st.flights
    ensures multiset(next.queue) == multiset(st.queue) + multiset{rec}
    ensures MayStillSend(next) == MayStillSend(st) + multiset{rec} + multiset{rec}
  {
    OneMoreEach(multiset(st.queue), multiset(if LOOP in st.flights then InFlight(st) else st.pending), multiset{rec});
  }

  lemma {:induction false} AlwaysBalanced(events: seq<Event>)
    requires Runs(events) && OneAtATime(events)
    ensures Balanced(After(events), Books(events))
  {
    if events != [] {
      var n := |events| - 1;
      AlwaysBalanced(events[..n]);
      StepBalances(After(events[..n]), Books(events[..n]), events[n]);
    }
  }

  /**
   * In every run without overlapping pushes each admitted sample is queued,
   * pending, in flight, acknowledged or counted as dropped, and no sample is
   * sent more than twice.
   */
  lemma SamplesAreAccounted(events: seq<Event>)
    requires Runs(events) && OneAtATime(events)
    ensures var st, l := After(events), Books(events);
            && l.admitted == multiset(st.queue) + multiset(st.pending) + multiset(InFlight(st)) + l.acknowledged + l.givenUp
            && st.dropped == |l.givenUp|
            && (forall rec :: l.sends[rec] <= 2 * l.admitted[rec])
            && |st.pending + InFlight(st)| <= 2 * MAX_QUEUED_SAMPLES
  {
    AlwaysBalanced(events);
    var st, l := After(events), Books(events);
    hide After, Books, MayStillSend;
    RoomForTwo(l.sends, MayStillSend(st), l.admitted, multiset{});
  }

  /** Recorded, pushed in vain, then pushed by the loop and by an overlapping push; the first fails, the second is delivered. */
  function Overlap(rec: Rec): seq<Event> {
    SentInVain(rec) + [Take(LOOP)] + [Take(1)] + [Fail(LOOP)] + [Deliver(1)]
  }

  function SentInVain(rec: Rec): seq<Event> {
    [Event.Record(rec)] + [Take(LOOP)] + [Fail(LOOP)]
  }

  /** A push that overlaps another can send a sample a third time, and one that is delivered can count as dropped. */
  lemma OverlapDefeatsTheBooks(rec: Rec)
    requires Failed(rec)
    ensures var events := Overlap(rec);
            && Runs(events) && Books(events).admitted == multiset{rec} && Books(events).sends[rec] == 3
            && rec in Books(events).acknowledged && After(events).dropped == 1
  {
    PendingOnce(rec);
    SentAgain(rec);
    hide Runs, After, Books, Apply, Entered, Enabled, Failed, SentInVain;
    var e := SentInVain(rec);
    OneMoreEvent(e, Take(LOOP));
    OneMoreEvent(e + [Take(LOOP)], Take(1));
    OneMoreEvent(e + [Take(LOOP)] + [Take(1)], Fail(LOOP));
    OneMoreEvent(e + [Take(LOOP)] + [Take(1)] + [Fail(LOOP)], Deliver(1));
  }

  /** The sample while it is pending with some pushes of it under way. */
  function PendingState(rec: Rec, pending: seq<Rec>, dropped: nat, pushes: set<nat>): State {
    State([], pending, ZERO_MINUTE, 0, dropped, map push | push in pushes :: Flight([], [rec]))
  }

  /** Two pushes send the pending sample, one fails and one is delivered. */
  lemma SentAgain(rec: Rec)
    ensures var s3, l3 := PendingState(rec, [rec], 0, {}), Ledger(multiset{rec}, multiset{rec}, multiset{}, multiset{});
            && Enabled(s3, Take(LOOP))
            && var s4, l4 := Apply(s3, Take(LOOP)), Entered(l3, s3, Take(LOOP));
               && Enabled(s4, Take(1))
               && var s5, l5 := Apply(s4, Take(1)), Entered(l4, s4, Take(1));
                  && Enabled(s5, Fail(LOOP))
                  && var s6, l6 := Apply(s5, Fail(LOOP)), Entered(l5, s5, Fail(LOOP));
                     && Enabled(s6, Deliver(1)) && Apply(s6, Deliver(1)).dropped == 1
                     && Entered(l6, s6, Deliver(1)) == Ledger(multiset{rec}, multiset{rec, rec, rec}, multiset{rec}, multiset{rec})
  {
    TakeAgain(rec, {}, LOOP);
    TakeAgain(rec, {LOOP}, 1);
    assert {} + {LOOP} == {LOOP};
    var s5 := PendingState(rec, [rec], 0, {LOOP} + {1});
    assert Apply(s5, Fail(LOOP)).flights == map[1 := Flight([], [rec])];
    hide PendingState;
  }

  lemma TakeAgain(rec: Rec, pushes: set<nat>, push: nat)
    requires push !in pushes
    ensures var st := PendingState(rec, [rec], 0, pushes);
            && Enabled(st, Take(push)) && Apply(st, Take(push)) == PendingState(rec, [rec], 0, pushes + {push})
            && forall l :: Entered(l, st, Take(push)) == l.(sends := l.sends + multiset{rec})
  {
    assert [rec] + [] == [rec];
  }

  /** Recorded, sent once and pending. */
  lemma PendingOnce(rec: Rec)
    requires Failed(rec)
    ensures var events := SentInVain(rec);
            && Runs(events) && After(events) == PendingState(rec, [rec], 0, {})
            && Books(events) == Ledger(multiset{rec}, multiset{rec}, multiset{}, multiset{})
  {
    SentOnce(rec);
    var e := [Event.Record(rec)];
    assert e == [] + e && Runs([]) && After([]) == EMPTY && Books([]) == BLANK;
    hide Runs, After, Books, Apply, Entered, Enabled, Failed;
    OneMoreEvent([], Event.Record(rec));
    OneMoreEvent(e, Take(LOOP));
    OneMoreEvent(e + [Take(LOOP)], Fail(LOOP));
  }

  lemma SentOnce(rec: Rec)
    requires Failed(rec)
    ensures Enabled(EMPTY, Event.Record(rec))
    ensures var s1, l1 := Apply(EMPTY, Event.Record(rec)), Entered(BLANK, EMPTY, Event.Record(rec));
            && Enabled(s1, Take(LOOP))
            && var s2, l2 := Apply(s1, Take(LOOP)), Entered(l1, s1, Take(LOOP));
               && Enabled(s2, Fail(LOOP)) && Apply(s2, Fail(LOOP)) == PendingState(rec, [rec], 0, {})
               && Entered(l2, s2, Fail(LOOP)) == Ledger(multiset{rec}, multiset{rec}, multiset{}, multiset{})
  {
    assert [] + [rec] == [rec];
  }

  lemma OneMoreEvent(events: seq<Event>, e: Event)
    requires Runs(events) && Enabled(After(events), e)
    ensures Runs(events + [e]) && After(events + [e]) == Apply(After(events), e)
    ensures Books(events + [e]) == Entered(Books(events), After(events), e)
  {
    assert (events + [e])[..|events|] == events;
  }

  // ----- The cap on successes -----

  /** The success that e admits in minute m, if it does. */
  function Admits(st: State, e: Event, m: int): nat {
    if e.Record? && !Failed(e.rec) && Minute(e.rec) == m && Sampled(st, e.rec) then 1 else 0
  }

  function AdmittedIn(events: seq<Event>, m: int): nat
    requires Runs(events)
  {
    if events == [] then 0
    else AdmittedIn(events[..|events| - 1], m) + Admits(After(events[..|events| - 1]), events[|events| - 1], m)
  }

  /** How often the sampler's minute becomes m: the branch of Record that restarts the count. */
  function Comes(events: seq<Event>, m: int): nat
    requires Runs(events)
  {
    if events == [] then if EMPTY.minute == m then 1 else 0
    else
      var before := After(events[..|events| - 1]).minute;
      Comes(events[..|events| - 1], m) + if before != m && After(events).minute == m then 1 else 0
  }

  /** Each time the minute comes, it admits at most its cap; the count is that of the last time. */
  lemma {:induction false} CountIsKept(events: seq<Event>, m: int)
    requires Runs(events)
    ensures m == After(events).minute ==>
              Comes(events, m) > 0 && After(events).successes <= SUCCESSES_PER_MINUTE &&
              AdmittedIn(events, m) <= SUCCESSES_PER_MINUTE * (Comes(events, m) - 1) + After(events).successes
    ensures AdmittedIn(events, m) <= SUCCESSES_PER_MINUTE * Comes(events, m)
    ensures After(events).successes <= SUCCESSES_PER_MINUTE
  {
    if events != [] { CountIsKept(events[..|events| - 1], m); }
  }

  /** A minute admits at most its cap of successes each time the sampler comes to it; failures are never capped. */
  lemma AdmissionsPerVisit(events: seq<Event>, m: int)
    requires Runs(events)
    ensures AdmittedIn(events, m) <= SUCCESSES_PER_MINUTE * Comes(events, m)
    ensures forall rec :: Failed(rec) ==> Sampled(After(events), rec)
  {
    CountIsKept(events, m);
  }

  /** So the cap holds of every minute that the sampler does not come back to. */
  lemma SuccessesAreCapped(events: seq<Event>, m: int)
    requires Runs(events) && Comes(events, m) <= 1
    ensures AdmittedIn(events, m) <= SUCCESSES_PER_MINUTE
  {
    CountIsKept(events, m);
  }

  /** Successes arrive in the order of their minutes. */
  predicate InOrder(events: seq<Event>)
    requires Runs(events)
  {
    events == [] || (
      var before, e := events[..|events| - 1], events[|events| - 1];
      InOrder(before) && (e.Record? && !Failed(e.rec) ==> Minute(e.rec) >= After(before).minute)
    )
  }

  /** In order, no minute comes back. */
  lemma {:induction false} InOrderComesOnce(events: seq<Event>, m: int)
    requires Runs(events) && InOrder(events)
    ensures Comes(events, m) <= 1
    ensures m > After(events).minute ==> Comes(events, m) == 0
  {
    if events != [] { InOrderComesOnce(events[..|events| - 1], m); }
  }

  // ----- Coming back -----

  function SuccessIn(m: int): (rec: Rec)
    ensures !Failed(rec) && Minute(rec) == m
  {
    Rec("/", m * 60, 200, false)
  }

  function Then(events: seq<Event>, rec: Rec): seq<Event> {
    events + [Event.Record(rec)]
  }

  lemma ThenRuns(events: seq<Event>, rec: Rec, m: int)
    requires Runs(events)
    ensures var more := Then(events, rec);
            && Runs(more) && After(more) == Apply(After(events), Event.Record(rec))
            && AdmittedIn(more, m) == AdmittedIn(events, m) + Admits(After(events), Event.Record(rec), m)
            && Comes(more, m) == Comes(events, m) + if After(events).minute != m && After(more).minute == m then 1 else 0
  {
    assert Then(events, rec)[..|events|] == events;
  }

  /** Record successes of minute m until it has none left. */
  lemma FillMinute(events: seq<Event>, m: int, n: nat) returns (more: seq<Event>)
    requires Runs(events) && After(events).minute == m && After(events).successes + n == SUCCESSES_PER_MINUTE
    ensures Runs(more) && After(more).minute == m && After(more).successes == SUCCESSES_PER_MINUTE
    ensures Comes(more, m) == Comes(events, m) && AdmittedIn(more, m) == AdmittedIn(events, m) + n
    decreases n
  {
    more := events;
    if n > 0 {
      ThenRuns(events, SuccessIn(m), m);
      hide Runs, After, AdmittedIn, Comes;
      more := FillMinute(Then(events, SuccessIn(m)), m, n - 1);
    }
  }

  /** However often a minute may come, there is a run in which it does and admits its cap each time. */
  lemma {:induction false} CapEachTime(m: int, times: nat) returns (events: seq<Event>)
    requires m != ZERO_MINUTE
    ensures Runs(events) && Comes(events, m) == times && AdmittedIn(events, m) == SUCCESSES_PER_MINUTE * times
    ensures times > 0 ==> After(events).minute == m
  {
    events := [];
    if times > 0 {
      var before := CapEachTime(m, times - 1);
      ThenRuns(before, SuccessIn(m + 1), m);
      var left := Then(before, SuccessIn(m + 1));
      ThenRuns(left, SuccessIn(m), m);
      hide Runs, After, AdmittedIn, Comes;
      events := FillMinute(Then(left, SuccessIn(m)), m, SUCCESSES_PER_MINUTE - 1);
    }
  }

  /**
   * The cap is a bound on all runs in which the minute comes a given number of
   * times iff that number is at most one.
   */
  lemma CapHoldsIffNotBack(m: int, times: nat)
    requires m != ZERO_MINUTE
    ensures times <= 1 <==>
              forall events: seq<Event> :: Runs(events) && Comes(events, m) == times ==> AdmittedIn(events, m) <= SUCCESSES_PER_MINUTE
  {
    forall events: seq<Event> | Runs(events) && Comes(events, m) == times && times <= 1
      ensures AdmittedIn(events, m) <= SUCCESSES_PER_MINUTE
    {
      CountIsKept(events, m);
    }
    if times > 1 {
      var events := CapEachTime(m, times);
      assert AdmittedIn(events, m) == SUCCESSES_PER_MINUTE * times;
    }
  }

  /** A success of another minute makes the sampler forget the count, and the cap starts anew. */
  lemma OutOfOrderForgets(st: State, early: Rec, late: Rec)
    requires !Failed(early) && !Failed(late) && Minute(early) == st.minute && Minute(late) != st.minute
    ensures var back := Apply(Apply(st, Event.Record(late)), Event.Record(early));
            back.minute == st.minute && back.successes == 1
  {
  }
}
