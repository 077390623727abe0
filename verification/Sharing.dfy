/**
 * When sharing a response changes nothing. A joiner takes over what the leader
 * of its flight ended with, after the leader's error rules and within the
 * leader's timeout and request context; a hit reads a body again that another
 * execution has stored (internal/composition/executor.go). Here each execution
 * has an end of its own, the one that sending the request itself would give,
 * and the question is whether it ends so under every schedule, which is what
 * the executor's theorems take a send to be.
 */
module Sharing {
  import opened Wrappers
  import opened StepDelivery

  /** What an execution's own request is answered with. */
  datatype Reply = Reply(status: int, headers: Headers, raw: Raw)

  /** An error rule: for these statuses the body is replaced. */
  datatype Rule = Rule(statuses: seq<int>, body: Content)

  /**
   * What an execution gets for its own request, or why that fails, and its
   * error rules. Replies may differ between executions of one key: the timeout
   * and the context are the execution's, and the upstream need not answer
   * twice the same.
   */
  datatype World = World(reply: (nat, string) -> Result<Reply, string>, rules: nat -> seq<Rule>)

  /** matchErrorRule: the body of the first rule for the status. */
  function Replacement(rules: seq<Rule>, status: int): Option<Content> {
    if rules == [] then None
    else if status in rules[0].statuses then Some(rules[0].body)
    else Replacement(rules[1..], status)
  }

  /** sendStepRequest's result: a rule replaces the body and leaves the bytes. */
  function Ruled(rules: seq<Rule>, reply: Reply): StepResult {
    var body := Replacement(rules, reply.status);
    if body.Some? then StepResult(reply.status, reply.headers, body.value, reply.raw, true)
    else StepResult(reply.status, reply.headers, reply.raw.shows, reply.raw, false)
  }

  /** How the execution would end by sending the request itself. */
  function OwnEnd(w: World, id: nat, key: string): Result<StepResult, string> {
    match w.reply(id, key)
    case Failure(why) => Failure(why)
    case Success(reply) => Success(Ruled(w.rules(id), reply))
  }

  /** A step of StepDelivery in which every request ends as w says. */
  ghost predicate NextIn(w: World, a: State, b: State) {
    || (exists id, key, config :: Begins(a, b, id, key, config))
    || (exists now :: Ticks(a, b, now))
    || (exists id :: LooksUp(a, b, id))
    || (exists id, flight :: Chooses(a, b, id, flight))
    || (exists id :: LandsOwn(w, a, b, id))
    || (exists id :: Shares(a, b, id))
    || (exists id :: SendsOwn(w, a, b, id))
    || (exists id :: Fills(a, b, id))
  }

  ghost predicate LandsOwn(w: World, a: State, b: State, id: nat) {
    id in a.executions && Lands(a, b, id, OwnEnd(w, id, a.executions[id].key))
  }

  ghost predicate SendsOwn(w: World, a: State, b: State, id: nat) {
    id in a.executions && Sends(a, b, id, OwnEnd(w, id, a.executions[id].key))
  }

  ghost predicate RunIn(w: World, run: seq<State>) {
    && run != [] && (exists t :: run[0] == State(map[], map[], map[], map[], {}, t))
    && forall i :: 0 <= i < |run| - 1 ==> NextIn(w, run[i], run[i + 1])
  }

  lemma RunInRuns(w: World, run: seq<State>)
    requires RunIn(w, run)
    ensures Run(run)
  {
    hide Begins, Ticks, LooksUp, Chooses, Lands, Shares, Sends, Fills;
    forall i | 0 <= i < |run| - 1 ensures Next(run[i], run[i + 1]) {
      assert NextIn(w, run[i], run[i + 1]);
    }
  }

  // ----- What every run keeps -----

  /** Some execution of the key has sent the request and got the response itself. */
  ghost predicate Produced(w: World, st: State, rec: Receipt) {
    exists id :: id in st.executions && st.executions[id].key == rec.key && OwnEnd(w, id, rec.key) == Success(rec.result) &&
                 HasSent(st.executions[id].pc)
  }

  predicate HasSent(pc: Pc) {
    (pc.Got? || pc.Served?) && pc.origin == Own
  }

  /** Some execution of the key fails so by itself. */
  ghost predicate FailedFirst(w: World, st: State, key: string, why: string) {
    exists id :: id in st.executions && st.executions[id].key == key && OwnEnd(w, id, key) == Failure(why)
  }

  ghost predicate EndedRight(w: World, st: State, id: nat)
    requires id in st.executions
  {
    var e := st.executions[id];
    match e.pc
    case Got(r, Own, _) => OwnEnd(w, id, e.key) == Success(r)
    case Served(r, Own, _) => OwnEnd(w, id, e.key) == Success(r)
    case Failed(why) => FailedFirst(w, st, e.key, why)
    case _ => true
  }

  ghost predicate InvIn(w: World, st: State) {
    && (forall rec :: rec in st.received ==> Produced(w, st, rec))
    && (forall f :: f in st.flights ==> FlightFailed(w, st, st.flights[f]))
    && (forall id :: id in st.executions ==> EndedRight(w, st, id))
  }

  ghost predicate FlightFailed(w: World, st: State, f: Flight) {
    f.landed.Some? && f.landed.value.outcome.Failure? ==> FailedFirst(w, st, f.key, f.landed.value.outcome.error)
  }

  /** Executions stay, under their key, and have sent what they have sent. */
  ghost predicate KeysStay(a: State, b: State) {
    forall id :: id in a.executions ==>
      id in b.executions && b.executions[id].key == a.executions[id].key &&
      (HasSent(a.executions[id].pc) ==> HasSent(b.executions[id].pc))
  }

  lemma ProducedStays(w: World, a: State, b: State, rec: Receipt)
    requires Produced(w, a, rec) && KeysStay(a, b)
    ensures Produced(w, b, rec)
  {
    var id :| id in a.executions && a.executions[id].key == rec.key && OwnEnd(w, id, rec.key) == Success(rec.result) &&
              HasSent(a.executions[id].pc);
    assert id in b.executions;
  }

  lemma FailedFirstStays(w: World, a: State, b: State, key: string, why: string)
    requires FailedFirst(w, a, key, why) && KeysStay(a, b)
    ensures FailedFirst(w, b, key, why)
  {
    var id :| id in a.executions && a.executions[id].key == key && OwnEnd(w, id, key) == Failure(why);
    assert id in b.executions;
  }

  lemma EndedRightStays(w: World, a: State, b: State, id: nat)
    requires id in a.executions && EndedRight(w, a, id) && KeysStay(a, b) && b.executions[id] == a.executions[id]
    ensures EndedRight(w, b, id)
  {
    hide FailedFirst, OwnEnd;
    var e := a.executions[id];
    if e.pc.Failed? { FailedFirstStays(w, a, b, e.key, e.pc.why); }
  }

  lemma FlightFailedStays(w: World, a: State, b: State, f: Flight)
    requires FlightFailed(w, a, f) && KeysStay(a, b)
    ensures FlightFailed(w, b, f)
  {
    hide FailedFirst;
    if f.landed.Some? && f.landed.value.outcome.Failure? {
      FailedFirstStays(w, a, b, f.key, f.landed.value.outcome.error);
    }
  }

  /** One execution moves on; at most one response and one flight are new. */
  lemma MoveKeepsInvIn(w: World, a: State, b: State, id: nat)
    requires InvIn(w, a) && KeysStay(a, b) && id in b.executions
    requires forall i :: i in b.executions && i != id ==> i in a.executions && b.executions[i] == a.executions[i]
    requires EndedRight(w, b, id)
    requires forall rec :: rec in b.received ==> rec in a.received || Produced(w, b, rec)
    requires forall f :: f in b.flights ==> (f in a.flights && b.flights[f] == a.flights[f]) || FlightFailed(w, b, b.flights[f])
    ensures InvIn(w, b)
  {
    hide Produced, EndedRight, FlightFailed;
    forall rec | rec in b.received ensures Produced(w, b, rec) {
      if rec in a.received { ProducedStays(w, a, b, rec); }
    }
    forall f | f in b.flights ensures FlightFailed(w, b, b.flights[f]) {
      if f in a.flights && b.flights[f] == a.flights[f] { FlightFailedStays(w, a, b, a.flights[f]); }
    }
    forall i | i in b.executions ensures EndedRight(w, b, i) {
      if i != id { EndedRightStays(w, a, b, i); }
    }
  }

  /** Sending ends an execution as w says. */
  lemma OwnEndKeeps(w: World, a: State, b: State, id: nat)
    requires id in a.executions && id in b.executions && b.executions[id].key == a.executions[id].key
    requires var own := OwnEnd(w, id, a.executions[id].key);
             b.executions[id].pc == if own.Success? then Got(own.value, Own, a.clock) else Failed(own.error)
    ensures EndedRight(w, b, id)
    ensures var own := OwnEnd(w, id, a.executions[id].key);
            && (own.Success? ==> Produced(w, b, Receipt(a.executions[id].key, own.value, a.clock)))
            && (own.Failure? ==> FailedFirst(w, b, a.executions[id].key, own.error))
  {
    hide OwnEnd;
  }

  lemma LandKeepsInvIn(w: World, a: State, b: State, id: nat)
    requires InvIn(w, a) && LandsOwn(w, a, b, id)
    ensures InvIn(w, b)
  {
    hide OwnEnd, Produced, FailedFirst, EndedRight, InvIn, Proper;
    OwnEndKeeps(w, a, b, id);
    MoveKeepsInvIn(w, a, b, id);
  }

  lemma SendKeepsInvIn(w: World, a: State, b: State, id: nat)
    requires InvIn(w, a) && SendsOwn(w, a, b, id)
    ensures InvIn(w, b)
  {
    hide OwnEnd, Produced, FailedFirst, EndedRight, InvIn, Proper, FlightFailed;
    OwnEndKeeps(w, a, b, id);
    MoveKeepsInvIn(w, a, b, id);
  }

  lemma ShareKeepsInvIn(w: World, a: State, b: State, id: nat)
    requires Inv(a) && InvIn(w, a) && Shares(a, b, id)
    ensures InvIn(w, b)
  {
    hide Cacheable, Produced, OwnEnd, FailedFirst;
    var flight := a.flights[a.executions[id].pc.flight];
    assert ExecutionInv(a, a.executions[id]) && FlightFailed(w, a, flight);
    hide InvIn, Inv;
    if flight.landed.value.outcome.Failure? {
      FailedFirstStays(w, a, b, flight.key, flight.landed.value.outcome.error);
    }
    MoveKeepsInvIn(w, a, b, id);
  }

  lemma FillKeepsInvIn(w: World, a: State, b: State, id: nat)
    requires InvIn(w, a) && Fills(a, b, id)
    ensures InvIn(w, b)
  {
    hide Storable, Produced, OwnEnd, FailedFirst;
    assert EndedRight(w, a, id);
    hide InvIn;
    MoveKeepsInvIn(w, a, b, id);
  }

  lemma TickKeepsInvIn(w: World, a: State, b: State, now: int)
    requires InvIn(w, a) && Ticks(a, b, now)
    ensures InvIn(w, b)
  {
    hide Produced, EndedRight, FlightFailed;
    forall rec | rec in b.received ensures Produced(w, b, rec) { ProducedStays(w, a, b, rec); }
    forall f | f in b.flights ensures FlightFailed(w, b, b.flights[f]) { FlightFailedStays(w, a, b, a.flights[f]); }
    forall i | i in b.executions ensures EndedRight(w, b, i) { EndedRightStays(w, a, b, i); }
  }

  lemma BeginKeepsInvIn(w: World, a: State, b: State, id: nat, key: string, config: Config)
    requires InvIn(w, a) && Begins(a, b, id, key, config)
    ensures InvIn(w, b)
  {
    hide Produced, OwnEnd, InvIn, FlightFailed;
    MoveKeepsInvIn(w, a, b, id);
  }

  lemma LookUpKeepsInvIn(w: World, a: State, b: State, id: nat)
    requires InvIn(w, a) && LooksUp(a, b, id)
    ensures InvIn(w, b)
  {
    hide Produced, OwnEnd, InvIn, FlightFailed;
    MoveKeepsInvIn(w, a, b, id);
  }

  lemma ChooseKeepsInvIn(w: World, a: State, b: State, id: nat, flight: nat)
    requires InvIn(w, a) && Chooses(a, b, id, flight)
    ensures InvIn(w, b)
  {
    hide Produced, OwnEnd, InvIn, FailedFirst;
    assert forall f :: f in b.flights && f !in a.flights ==> FlightFailed(w, b, b.flights[f]);
    hide FlightFailed;
    MoveKeepsInvIn(w, a, b, id);
  }

  lemma NextKeepsInvIn(w: World, a: State, b: State)
    requires Inv(a) && InvIn(w, a) && NextIn(w, a, b)
    ensures InvIn(w, b)
  {
    hide Inv, InvIn, Begins, Ticks, LooksUp, Chooses, LandsOwn, Shares, SendsOwn, Fills;
    if id, key, config :| Begins(a, b, id, key, config) {
      BeginKeepsInvIn(w, a, b, id, key, config);
    } else if now :| Ticks(a, b, now) {
      TickKeepsInvIn(w, a, b, now);
    } else if id :| LooksUp(a, b, id) {
      LookUpKeepsInvIn(w, a, b, id);
    } else if id, flight :| Chooses(a, b, id, flight) {
      ChooseKeepsInvIn(w, a, b, id, flight);
    } else if id :| LandsOwn(w, a, b, id) {
      LandKeepsInvIn(w, a, b, id);
    } else if id :| Shares(a, b, id) {
      ShareKeepsInvIn(w, a, b, id);
    } else if id :| SendsOwn(w, a, b, id) {
      SendKeepsInvIn(w, a, b, id);
    } else {
      var id :| Fills(a, b, id);
      FillKeepsInvIn(w, a, b, id);
    }
  }

  lemma {:induction false} RunHasInvIn(w: World, run: seq<State>, n: nat)
    requires RunIn(w, run) && n < |run|
    ensures InvIn(w, run[n])
  {
    if n > 0 {
      RunHasInvIn(w, run, n - 1);
      RunInRuns(w, run);
      RunHasInv(run, n - 1);
      assert NextIn(w, run[n - 1], run[n - 1 + 1]);
      NextKeepsInvIn(w, run[n - 1], run[n]);
    }
  }

  // ----- When everyone ends on its own -----

  /** The same end; unless exact, one failure is as good as another: the entry is nil either way. */
  predicate SameEnd(exact: bool, a: Result<StepResult, string>, b: Result<StepResult, string>) {
    a == b || (!exact && a.Failure? && b.Failure?)
  }

  /** An execution whose own end is `theirs` may get `ours` from another one and end as by itself. */
  predicate MayTakeOver(exact: bool, ours: Result<StepResult, string>, theirs: Result<StepResult, string>) {
    match ours
    case Failure(_) => SameEnd(exact, ours, theirs)
    case Success(r) =>
      && (Cacheable(r.headers) ==> theirs == ours)
      && (Storable(r) ==> theirs == Success(HitOf(r)))
  }

  predicate Compatible(w: World, exact: bool, key: string, i: nat, j: nat) {
    MayTakeOver(exact, OwnEnd(w, i, key), OwnEnd(w, j, key)) && MayTakeOver(exact, OwnEnd(w, j, key), OwnEnd(w, i, key))
  }

  ghost predicate AllCompatible(w: World, exact: bool, st: State) {
    forall i, j :: i in st.executions && j in st.executions && i != j && st.executions[i].key == st.executions[j].key ==>
      Compatible(w, exact, st.executions[i].key, i, j)
  }

  /** The execution, if it has ended, ended as by its own request. */
  ghost predicate EndsOwn(w: World, exact: bool, st: State, id: nat)
    requires id in st.executions
  {
    var e := st.executions[id];
    match e.pc
    case Served(r, _, _) => OwnEnd(w, id, e.key) == Success(r)
    case Failed(why) => SameEnd(exact, Failure(why), OwnEnd(w, id, e.key))
    case _ => true
  }

  ghost predicate AllEndOwn(w: World, exact: bool, st: State) {
    forall id :: id in st.executions ==> EndsOwn(w, exact, st, id)
  }

  lemma EndIsOwn(w: World, exact: bool, st: State, id: nat)
    requires Inv(st) && InvIn(w, st) && AllCompatible(w, exact, st) && id in st.executions
    ensures EndsOwn(w, exact, st, id)
  {
    var e := st.executions[id];
    assert ExecutionInv(st, e) && EndedRight(w, st, id);
    if e.pc.Failed? {
      FailureIsOwn(w, exact, st, id);
    } else if e.pc.Served? && e.pc.origin != Own {
      ServedIsOwn(w, exact, st, id);
    }
  }

  lemma FailureIsOwn(w: World, exact: bool, st: State, id: nat)
    requires InvIn(w, st) && AllCompatible(w, exact, st) && id in st.executions && st.executions[id].pc.Failed?
    ensures EndsOwn(w, exact, st, id)
  {
    var e := st.executions[id];
    assert EndedRight(w, st, id);
    hide InvIn, OwnEnd;
    var i :| i in st.executions && st.executions[i].key == e.key && OwnEnd(w, i, e.key) == Failure(e.pc.why);
    if i != id { assert Compatible(w, exact, e.key, i, id); }
  }

  lemma ServedIsOwn(w: World, exact: bool, st: State, id: nat)
    requires Inv(st) && InvIn(w, st) && AllCompatible(w, exact, st)
    requires id in st.executions && st.executions[id].pc.Served? && st.executions[id].pc.origin != Own
    ensures EndsOwn(w, exact, st, id)
  {
    var e := st.executions[id];
    assert ExecutionInv(st, e);
    var sent := if e.pc.origin.FromCache? then Reread(e.pc.result) else e.pc.result;
    var rec := Receipt(e.key, sent, e.pc.receivedAt);
    assert Produced(w, st, rec);
    hide Inv, InvIn, OwnEnd;
    var i :| i in st.executions && st.executions[i].key == e.key && OwnEnd(w, i, e.key) == Success(sent) &&
             HasSent(st.executions[i].pc);
    assert i != id && Compatible(w, exact, e.key, i, id);
  }

  /** In any run, executions of one key that are compatible all end as by their own requests. */
  lemma CompatibleEndsOwn(w: World, exact: bool, run: seq<State>, n: nat)
    requires RunIn(w, run) && n < |run| && AllCompatible(w, exact, run[n])
    ensures AllEndOwn(w, exact, run[n])
  {
    RunInRuns(w, run);
    RunHasInv(run, n);
    RunHasInvIn(w, run, n);
    forall id | id in run[n].executions ensures EndsOwn(w, exact, run[n], id) {
      EndIsOwn(w, exact, run[n], id);
    }
  }

  /** Equal rules and equal replies for each key are enough, as long as no reply that may be stored is JSON null. */
  lemma EqualRulesEndOwn(w: World, run: seq<State>, n: nat)
    requires RunIn(w, run) && n < |run|
    requires forall i, j :: i in run[n].executions && j in run[n].executions && run[n].executions[i].key == run[n].executions[j].key ==>
               w.rules(i) == w.rules(j) && w.reply(i, run[n].executions[i].key) == w.reply(j, run[n].executions[i].key)
    requires forall i :: i in run[n].executions ==>
               var end := OwnEnd(w, i, run[n].executions[i].key); end.Success? && Storable(end.value) ==> end.value.raw.shows != Nil
    ensures AllEndOwn(w, true, run[n])
  {
    var st := run[n];
    forall i, j | i in st.executions && j in st.executions && i != j && st.executions[i].key == st.executions[j].key
      ensures Compatible(w, true, st.executions[i].key, i, j)
    {
      assert w.rules(i) == w.rules(j);
      hide Storable, Cacheable, Replacement;
      StorableIsUnmatched(OwnEnd(w, i, st.executions[i].key));
    }
    CompatibleEndsOwn(w, true, run, n);
  }

  lemma StorableIsUnmatched(end: Result<StepResult, string>)
    ensures end.Success? && Storable(end.value) ==> !end.value.matched
  {
  }

  // ----- And when not -----

  /** Nobody but i and j, and both for the key. */
  ghost predicate Pair(st: State, key: string, i: nat, j: nat) {
    forall id :: id in st.executions ==> (id == i || id == j) && st.executions[id].key == key
  }

  /** Whatever the schedule and the configurations, i and j end as by their own requests. */
  ghost predicate AlwaysOwn(w: World, exact: bool, key: string, i: nat, j: nat) {
    forall run :: RunIn(w, run) && Pair(run[|run| - 1], key, i, j) ==> AllEndOwn(w, exact, run[|run| - 1])
  }

  /** A run whose last state has j end as it would not by itself. */
  lemma Refutes(w: World, exact: bool, key: string, i: nat, j: nat, run: seq<State>)
    requires RunIn(w, run) && Pair(run[|run| - 1], key, i, j) && j in run[|run| - 1].executions
    requires !EndsOwn(w, exact, run[|run| - 1], j)
    ensures !AlwaysOwn(w, exact, key, i, j) && !AlwaysOwn(w, exact, key, j, i)
  {
    assert run != [];
    hide RunIn, EndsOwn;
    assert Pair(run[|run| - 1], key, j, i);
  }

  const JOINING := Config(true, None, true)

  function Two(key: string, config: Config, i: nat, pi: Pc, j: nat, pj: Pc): map<nat, Execution> {
    map[i := Execution(key, config, pi), j := Execution(key, config, pj)]
  }

  function Ended(end: Result<StepResult, string>, origin: Origin): Pc {
    if end.Success? then Got(end.value, origin, 0) else Failed(end.error)
  }

  /** The leader i ends so, and the joiner j with it. */
  function Takeover(key: string, i: nat, j: nat, end: Result<StepResult, string>, k: nat): State {
    var flying := map[0 := Flight(key, None)];
    var landed := map[0 := Flight(key, Some(Landed(end, 0)))];
    var received := if end.Success? then {Receipt(key, end.value, 0)} else {};
    if k == 0 then State(map[], map[], map[], map[], {}, 0)
    else if k == 1 then State(map[i := Execution(key, JOINING, Choose)], map[], map[], map[], {}, 0)
    else if k == 2 then State(Two(key, JOINING, i, Choose, j, Choose), map[], map[], map[], {}, 0)
    else if k == 3 then State(Two(key, JOINING, i, Lead(0), j, Choose), flying, map[key := 0], map[], {}, 0)
    else if k == 4 then State(Two(key, JOINING, i, Lead(0), j, Join(0)), flying, map[key := 0], map[], {}, 0)
    else if k == 5 then State(Two(key, JOINING, i, Ended(end, Own), j, Join(0)), landed, map[], map[], received, 0)
    else if k == 6 || end.Failure? then
      State(Two(key, JOINING, i, Ended(end, Own), j, Ended(end, FromFlight)), landed, map[], map[], received, 0)
    else
      State(Two(key, JOINING, i, Ended(end, Own), j, Served(end.value, FromFlight, 0)), landed, map[], map[], received, 0)
  }

  lemma TakeoverBegins(key: string, i: nat, j: nat, end: Result<StepResult, string>)
    requires i != j
    ensures Begins(Takeover(key, i, j, end, 0), Takeover(key, i, j, end, 1), i, key, JOINING)
    ensures Begins(Takeover(key, i, j, end, 1), Takeover(key, i, j, end, 2), j, key, JOINING)
  {
  }

  lemma TakeoverChooses(key: string, i: nat, j: nat, end: Result<StepResult, string>)
    requires i != j
    ensures Chooses(Takeover(key, i, j, end, 2), Takeover(key, i, j, end, 3), i, 0)
    ensures Chooses(Takeover(key, i, j, end, 3), Takeover(key, i, j, end, 4), j, 0)
  {
  }

  lemma OwnEndIsProper(w: World, id: nat, key: string)
    ensures OwnEnd(w, id, key).Success? ==> Proper(OwnEnd(w, id, key).value)
  {
  }

  lemma TakeoverLands(w: World, key: string, i: nat, j: nat, end: Result<StepResult, string>)
    requires i != j && OwnEnd(w, i, key) == end
    ensures LandsOwn(w, Takeover(key, i, j, end, 4), Takeover(key, i, j, end, 5), i)
  {
    OwnEndIsProper(w, i, key);
    hide OwnEnd, Proper;
    assert map[key := 0 as nat] - {key} == map[];
  }

  lemma TakeoverShares(key: string, i: nat, j: nat, end: Result<StepResult, string>)
    requires i != j && (end.Success? ==> Cacheable(end.value.headers))
    ensures Shares(Takeover(key, i, j, end, 5), Takeover(key, i, j, end, 6), j)
  {
    hide Cacheable;
  }

  lemma TakeoverFills(key: string, i: nat, j: nat, end: Result<StepResult, string>)
    requires i != j && end.Success?
    ensures Fills(Takeover(key, i, j, end, 6), Takeover(key, i, j, end, 7), j)
  {
    hide Cacheable;
  }

  function Last(end: Result<StepResult, string>): nat {
    if end.Success? then 7 else 6
  }

  lemma TakeoverNext(w: World, key: string, i: nat, j: nat, end: Result<StepResult, string>, k: nat)
    requires i != j && OwnEnd(w, i, key) == end && (end.Success? ==> Cacheable(end.value.headers)) && k < Last(end)
    ensures NextIn(w, Takeover(key, i, j, end, k), Takeover(key, i, j, end, k + 1))
  {
    hide Takeover, Begins, Chooses, LandsOwn, Shares, Fills, OwnEnd, Cacheable;
    TakeoverBegins(key, i, j, end);
    TakeoverChooses(key, i, j, end);
    TakeoverLands(w, key, i, j, end);
    TakeoverShares(key, i, j, end);
    if end.Success? { TakeoverFills(key, i, j, end); }
    assert k in {0, 1, 2, 3, 4, 5, 6};
  }

  function TakeoverRun(key: string, i: nat, j: nat, end: Result<StepResult, string>): (run: seq<State>)
    ensures |run| == Last(end) + 1 && forall k :: 0 <= k <= Last(end) ==> run[k] == Takeover(key, i, j, end, k)
  {
    seq(Last(end) + 1, k requires 0 <= k <= Last(end) => Takeover(key, i, j, end, k))
  }

  lemma TakeoverRuns(w: World, key: string, i: nat, j: nat, end: Result<StepResult, string>)
    requires i != j && OwnEnd(w, i, key) == end && (end.Success? ==> Cacheable(end.value.headers))
    ensures RunIn(w, TakeoverRun(key, i, j, end))
  {
    var run := TakeoverRun(key, i, j, end);
    assert run[0] == State(map[], map[], map[], map[], {}, 0);
    hide Takeover, TakeoverRun, NextIn, OwnEnd, Cacheable;
    forall k | 0 <= k < |run| - 1 ensures NextIn(w, run[k], run[k + 1]) {
      TakeoverNext(w, key, i, j, end, k);
    }
  }

  /** A leader's end that may be shared, or its failure, becomes the joiner's. */
  lemma TakesOver(w: World, exact: bool, key: string, i: nat, j: nat)
    requires i != j
    requires var end := OwnEnd(w, i, key);
             !SameEnd(exact, end, OwnEnd(w, j, key)) && (end.Success? ==> Cacheable(end.value.headers))
    ensures !AlwaysOwn(w, exact, key, i, j) && !AlwaysOwn(w, exact, key, j, i)
  {
    var end := OwnEnd(w, i, key);
    var run := TakeoverRun(key, i, j, end);
    TakeoverRuns(w, key, i, j, end);
    var last := run[|run| - 1];
    assert last == Takeover(key, i, j, end, Last(end));
    assert last.executions[j].pc == if end.Success? then Served(end.value, FromFlight, 0) else Failed(end.error);
    assert Pair(last, key, i, j);
    hide RunIn, Takeover, TakeoverRun, OwnEnd, Pair, Cacheable;
    Refutes(w, exact, key, i, j, run);
  }

  // ----- A hit that reads differently -----

  const CACHING := Config(true, Some(1), false)

  function Entry(key: string, r: StepResult): map<string, Cached> {
    map[key := Cached(r.status, r.headers, r.raw, 0, 1, 0)]
  }

  /** The sender i stores its response, and j hits it. */
  function LateReader(key: string, i: nat, j: nat, r: StepResult, k: nat): State {
    var got, served := Got(r, Own, 0), Served(r, Own, 0);
    var receipt := Receipt(key, r, 0);
    if k == 0 then State(map[], map[], map[], map[], {}, 0)
    else if k == 1 then State(map[i := Execution(key, CACHING, Lookup)], map[], map[], map[], {}, 0)
    else if k == 2 then State(map[i := Execution(key, CACHING, Choose)], map[], map[], map[], {}, 0)
    else if k == 3 then State(map[i := Execution(key, CACHING, Send)], map[], map[], map[], {}, 0)
    else if k == 4 then State(map[i := Execution(key, CACHING, got)], map[], map[], map[], {receipt}, 0)
    else if k == 5 then State(map[i := Execution(key, CACHING, served)], map[], map[], Entry(key, r), {receipt}, 0)
    else if k == 6 then State(Two(key, CACHING, i, served, j, Lookup), map[], map[], Entry(key, r), {receipt}, 0)
    else State(Two(key, CACHING, i, served, j, Served(HitOf(r), FromCache(0), 0)), map[], map[], Entry(key, r), {receipt}, 0)
  }

  lemma ReaderStarts(key: string, i: nat, j: nat, r: StepResult)
    requires i != j
    ensures Begins(LateReader(key, i, j, r, 0), LateReader(key, i, j, r, 1), i, key, CACHING)
    ensures LooksUp(LateReader(key, i, j, r, 1), LateReader(key, i, j, r, 2), i)
    ensures Chooses(LateReader(key, i, j, r, 2), LateReader(key, i, j, r, 3), i, 0)
    ensures Begins(LateReader(key, i, j, r, 5), LateReader(key, i, j, r, 6), j, key, CACHING)
  {
  }

  lemma ReaderSends(w: World, key: string, i: nat, j: nat, r: StepResult)
    requires i != j && OwnEnd(w, i, key) == Success(r)
    ensures SendsOwn(w, LateReader(key, i, j, r, 3), LateReader(key, i, j, r, 4), i)
  {
    OwnEndIsProper(w, i, key);
    hide OwnEnd, Proper;
  }

  lemma ReaderEnds(key: string, i: nat, j: nat, r: StepResult)
    requires i != j && Storable(r) && Proper(r)
    ensures Fills(LateReader(key, i, j, r, 4), LateReader(key, i, j, r, 5), i)
    ensures LooksUp(LateReader(key, i, j, r, 6), LateReader(key, i, j, r, 7), j)
  {
    assert !r.matched && Fresh(Cached(r.status, r.headers, r.raw, 0, 1, 0)) == r;
    hide Storable;
  }

  lemma ReaderNext(w: World, key: string, i: nat, j: nat, r: StepResult, k: nat)
    requires i != j && OwnEnd(w, i, key) == Success(r) && Storable(r) && Proper(r) && k < 7
    ensures NextIn(w, LateReader(key, i, j, r, k), LateReader(key, i, j, r, k + 1))
  {
    hide LateReader, Begins, LooksUp, Chooses, SendsOwn, Fills, OwnEnd, Storable, Proper;
    ReaderStarts(key, i, j, r);
    ReaderSends(w, key, i, j, r);
    ReaderEnds(key, i, j, r);
    assert k in {0, 1, 2, 3, 4, 5, 6};
  }

  function ReaderRun(key: string, i: nat, j: nat, r: StepResult): (run: seq<State>)
    ensures |run| == 8 && forall k :: 0 <= k < 8 ==> run[k] == LateReader(key, i, j, r, k)
  {
    seq(8, k requires 0 <= k < 8 => LateReader(key, i, j, r, k))
  }

  lemma ReaderRuns(w: World, key: string, i: nat, j: nat, r: StepResult)
    requires i != j && OwnEnd(w, i, key) == Success(r) && Storable(r) && Proper(r)
    ensures RunIn(w, ReaderRun(key, i, j, r))
  {
    var run := ReaderRun(key, i, j, r);
    assert run[0] == State(map[], map[], map[], map[], {}, 0);
    hide LateReader, ReaderRun, NextIn, OwnEnd, Storable, Proper;
    forall k | 0 <= k < |run| - 1 ensures NextIn(w, run[k], run[k + 1]) {
      ReaderNext(w, key, i, j, r, k);
    }
  }

  /** A stored response that a hit reads differently is not what j gets by itself. */
  lemma ReadsDifferently(w: World, exact: bool, key: string, i: nat, j: nat, r: StepResult)
    requires i != j && OwnEnd(w, i, key) == Success(r) && Storable(r) && OwnEnd(w, j, key) != Success(HitOf(r))
    ensures !AlwaysOwn(w, exact, key, i, j) && !AlwaysOwn(w, exact, key, j, i)
  {
    OwnEndIsProper(w, i, key);
    var run := ReaderRun(key, i, j, r);
    ReaderRuns(w, key, i, j, r);
    var last := run[|run| - 1];
    assert last == LateReader(key, i, j, r, 7);
    assert last.executions[j].pc == Served(HitOf(r), FromCache(0), 0);
    assert Pair(last, key, i, j);
    hide RunIn, LateReader, ReaderRun, OwnEnd, Pair, Storable, HitOf;
    Refutes(w, exact, key, i, j, run);
  }

  // ----- The exact condition -----

  lemma IncompatibleFails(w: World, exact: bool, key: string, i: nat, j: nat)
    requires i != j && !MayTakeOver(exact, OwnEnd(w, i, key), OwnEnd(w, j, key))
    ensures !AlwaysOwn(w, exact, key, i, j) && !AlwaysOwn(w, exact, key, j, i)
  {
    var ours, theirs := OwnEnd(w, i, key), OwnEnd(w, j, key);
    hide AlwaysOwn, OwnEnd;
    if ours.Failure? || (Cacheable(ours.value.headers) && theirs != ours) {
      hide Cacheable;
      TakesOver(w, exact, key, i, j);
    } else {
      hide Cacheable;
      ReadsDifferently(w, exact, key, i, j, ours.value);
    }
  }

  /**
   * Two executions of one key end as by their own requests under every
   * schedule, with any configurations, iff they may take over each other's
   * ends: a failure only from one that fails, what may be shared only from one
   * that gets the same, and what may be stored only when a hit reads it the
   * same. With exact, the failures have to be the same too.
   */
  lemma AlwaysOwnIff(w: World, exact: bool, key: string, i: nat, j: nat)
    requires i != j
    ensures AlwaysOwn(w, exact, key, i, j) <==> Compatible(w, exact, key, i, j)
  {
    if Compatible(w, exact, key, i, j) {
      forall run | RunIn(w, run) && Pair(run[|run| - 1], key, i, j) ensures AllEndOwn(w, exact, run[|run| - 1]) {
        hide RunIn, OwnEnd, MayTakeOver;
        assert AllCompatible(w, exact, run[|run| - 1]);
        CompatibleEndsOwn(w, exact, run, |run| - 1);
      }
    } else if !MayTakeOver(exact, OwnEnd(w, i, key), OwnEnd(w, j, key)) {
      IncompatibleFails(w, exact, key, i, j);
    } else {
      IncompatibleFails(w, exact, key, j, i);
    }
  }

  // ----- Three ordinary inputs -----

  /** A leader that times out or is cancelled fails a joiner that would not have failed, whatever their rules. */
  lemma LeaderFailureSpreads(w: World, exact: bool, key: string, leader: nat, joiner: nat)
    requires leader != joiner && w.reply(leader, key).Failure? && w.reply(joiner, key).Success?
    ensures !AlwaysOwn(w, exact, key, leader, joiner)
  {
    hide AlwaysOwn;
    TakesOver(w, exact, key, leader, joiner);
  }

  /** With different replacements for one status, the joiner shows the leader's, although both read the same bytes. */
  lemma ReplacementSpreads(w: World, exact: bool, key: string, leader: nat, joiner: nat, reply: Reply)
    requires leader != joiner && w.reply(leader, key) == w.reply(joiner, key) == Success(reply) && Cacheable(reply.headers)
    requires Replacement(w.rules(leader), reply.status) != Replacement(w.rules(joiner), reply.status)
    requires Replacement(w.rules(leader), reply.status).Some? && Replacement(w.rules(joiner), reply.status).Some?
    ensures !AlwaysOwn(w, exact, key, leader, joiner)
  {
    hide AlwaysOwn, Cacheable, Replacement;
    TakesOver(w, exact, key, leader, joiner);
  }

  /** Without any rules, a hit on JSON null shows the text that the sender and a second request show as nil. */
  lemma NullBecomesText(w: World, exact: bool, key: string, sender: nat, reader: nat, reply: Reply)
    requires sender != reader && w.reply(sender, key) == w.reply(reader, key) == Success(reply)
    requires w.rules(sender) == w.rules(reader) == [] && reply.raw.shows == Nil
    requires reply.status < 500 && Cacheable(reply.headers)
    ensures !AlwaysOwn(w, exact, key, sender, reader)
  {
    hide AlwaysOwn, Cacheable;
    ReadsDifferently(w, exact, key, sender, reader, Ruled([], reply));
  }
}
