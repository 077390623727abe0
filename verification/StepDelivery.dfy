/**
 * How executeStepWithErrorHandling obtains a step's response
 * (internal/composition/executor.go): from the cache, from another caller's
 * flight, or by sending. Any number of step executions interleave. The cache is
 * the plain map that StepCache is shown to be, and the coalescer is
 * singleflight: one leader per key, the others share its result.
 */
module StepDelivery {
  import opened Strings
  import opened Wrappers

  type Headers = map<string, seq<string>>

  // ----- isCacheable -----

  /** http.Header.Get: the first line of a header. */
  function First(headers: Headers, name: string): string {
    if name in headers && headers[name] != [] then headers[name][0] else ""
  }

  function Split(s: string): (parts: seq<string>)
    ensures parts != []
  {
    if s == "" then [""]
    else if s[0] == ',' then [""] + Split(s[1..])
    else
      var rest := Split(s[1..]);
      [[s[0]] + rest[0]] + rest[1..]
  }

  function ToLower(s: string): string {
    seq(|s|, i requires 0 <= i < |s| => if 'A' <= s[i] <= 'Z' then (s[i] as int + 32) as char else s[i])
  }

  const PRIVATE := "private"
  const NO_STORE := "no-store"

  /** isCacheable: no Set-Cookie, and a Cache-Control without private and no-store. */
  method IsCacheable(headers: Headers) returns (r: bool)
    ensures r == Cacheable(headers)
  {
    if First(headers, "Set-Cookie") != "" {
      return false;
    }
    var parts := Split(First(headers, "Cache-Control"));
    for i := 0 to |parts|
      invariant forall j :: 0 <= j < i ==> !Forbids(parts[j])
    {
      if Forbids(parts[i]) {
        return false;
      }
    }
    return true;
  }

  predicate Forbids(part: string) {
    ToLower(TrimSpace(part)) == PRIVATE || ToLower(TrimSpace(part)) == NO_STORE
  }

  predicate Cacheable(headers: Headers) {
    && First(headers, "Set-Cookie") == ""
    && var parts := Split(First(headers, "Cache-Control"));
       forall i :: 0 <= i < |parts| ==> !Forbids(parts[i])
  }

  lemma {:induction false} SplitAtComma(a: string, b: string)
    ensures Split(a + "," + b) == Split(a) + Split(b)
  {
    if a == "" {
      assert a + "," + b == "," + b;
      assert ("," + b)[1..] == b;
    } else {
      assert (a + "," + b)[1..] == a[1..] + "," + b;
      SplitAtComma(a[1..], b);
    }
  }

  lemma {:induction false} SplitNoComma(s: string)
    requires ',' !in s
    ensures Split(s) == [s]
  {
    if s != "" {
      SplitNoComma(s[1..]);
      assert s == [s[0]] + s[1..];
    }
  }

  /** A part of a comma-separated list: comma-free, and bounded by a comma or an end on either side. */
  ghost predicate IsPart(list: string, part: string) {
    exists before, after :: PartBetween(list, before, part, after)
  }

  ghost predicate PartBetween(list: string, before: string, part: string, after: string) {
    && list == before + part + after && ',' !in part
    && (before == "" || before[|before| - 1] == ',') && (after == "" || after[0] == ',')
  }

  lemma {:induction false} PartAt(list: string, i: nat) returns (before: string, after: string)
    requires i < |Split(list)|
    ensures PartBetween(list, before, Split(list)[i], after) && (i == 0 <==> before == "")
  {
    if list == "" {
      before, after := "", "";
    } else if list[0] == ',' {
      if i == 0 {
        before, after := "", list;
      } else {
        before, after := PartAt(list[1..], i - 1);
        before := "," + before;
        assert list == "," + list[1..];
      }
    } else {
      before, after := PartAt(list[1..], i);
      assert list == [list[0]] + list[1..];
      if i > 0 {
        before := [list[0]] + before;
      } else {
        assert list == "" + Split(list)[0] + after;
      }
    }
  }

  lemma PartIsSplit(list: string, before: string, part: string, after: string)
    requires PartBetween(list, before, part, after)
    ensures part in Split(list)
  {
    PartBegins(part, after);
    hide Split;
    if before == "" {
      assert list == part + after;
    } else {
      var b := before[..|before| - 1];
      assert list == b + "," + (part + after);
      SplitAtComma(b, part + after);
    }
  }

  lemma PartBegins(part: string, after: string)
    requires ',' !in part && (after == "" || after[0] == ',')
    ensures part in Split(part + after)
  {
    SplitNoComma(part);
    hide Split;
    if after == "" {
      assert part + after == part;
    } else {
      assert part + after == part + "," + after[1..];
      SplitAtComma(part, after[1..]);
    }
  }

  /** A response may be shared iff it sets no cookie and no part of its first Cache-Control line forbids it. */
  lemma CacheableIff(headers: Headers)
    ensures Cacheable(headers) <==>
              First(headers, "Set-Cookie") == "" &&
              forall part :: IsPart(First(headers, "Cache-Control"), part) ==> !Forbids(part)
  {
    var list := First(headers, "Cache-Control");
    hide Forbids, First;
    forall part | IsPart(list, part) ensures part in Split(list) {
      var before, after :| PartBetween(list, before, part, after);
      PartIsSplit(list, before, part, after);
    }
    forall i | 0 <= i < |Split(list)| ensures IsPart(list, Split(list)[i]) {
      var before, after := PartAt(list, i);
    }
  }

  /** A forbidding directive counts wherever it stands in the list: alone, first, last or between others. */
  lemma DirectiveAnywhereForbids(headers: Headers, directive: string)
    requires IsPart(First(headers, "Cache-Control"), directive) && Forbids(directive)
    ensures !Cacheable(headers)
  {
    CacheableIff(headers);
  }

  /** The directives that forbid: private and no-store, in any case, with any space around. */
  lemma ForbidsIff(part: string)
    ensures Forbids(part) <==>
              exists left, directive, right ::
                && part == left + directive + right && AllSpace(left) && AllSpace(right)
                && (EqualFold(directive, "private") || EqualFold(directive, "no-store"))
  {
    if Forbids(part) {
      var directive := TrimSpace(part);
      TrimIff(part, directive);
      var left, right :| AllSpace(left) && AllSpace(right) && part == left + directive + right;
      assert EqualFold(directive, "private") || EqualFold(directive, "no-store");
    }
    if left, directive, right :|
      && part == left + directive + right && AllSpace(left) && AllSpace(right)
      && (EqualFold(directive, "private") || EqualFold(directive, "no-store"))
    {
      TrimIff(part, directive);
      hide TrimSpace, AllSpace;
      Folded(directive);
    }
  }

  /** The same letters but for the case; lower is in lower case. */
  predicate EqualFold(s: string, lower: string) {
    |s| == |lower| && forall i :: 0 <= i < |s| ==>
      s[i] == lower[i] || ('a' <= lower[i] <= 'z' && s[i] as int == lower[i] as int - 32)
  }

  lemma Folded(s: string)
    ensures EqualFold(s, "private") ==> ToLower(s) == PRIVATE && IsTrimmed(s)
    ensures EqualFold(s, "no-store") ==> ToLower(s) == NO_STORE && IsTrimmed(s)
  {
  }

  lemma TrimmedForbids(part: string)
    requires IsTrimmed(part)
    ensures Forbids(part) <==> EqualFold(part, "private") || EqualFold(part, "no-store")
  {
    assert part == "" + part + "" && AllSpace("");
    TrimIff(part, part);
    hide TrimSpace, AllSpace, IsTrimmed;
    Folded(part);
  }

  lemma PaddedForbids(left: string, directive: string, right: string)
    requires AllSpace(left) && AllSpace(right) && (EqualFold(directive, "private") || EqualFold(directive, "no-store"))
    ensures Forbids(left + directive + right)
  {
    hide AllSpace, EqualFold, Forbids;
    ForbidsIff(left + directive + right);
  }

  lemma ForbiddingParts()
    ensures Forbids("no-store") && Forbids("private") && Forbids("NO-STORE") && Forbids(" Private ") && Forbids(" no-store")
  {
    hide Forbids;
    TrimmedForbids("no-store");
    TrimmedForbids("private");
    TrimmedForbids("NO-STORE");
    PaddedForbids(" ", "Private", " ");
    PaddedForbids(" ", "no-store", "");
    assert " " + "Private" + " " == " Private " && " " + "no-store" + "" == " no-store";
  }

  lemma OtherParts()
    ensures !Forbids("") && !Forbids("public") && !Forbids("no-cache") && !Forbids("private=x")
  {
    hide Forbids;
    TrimmedForbids("");
    TrimmedForbids("public");
    TrimmedForbids("no-cache");
    TrimmedForbids("private=x");
    assert "no-cache"[3] == 'c' && "no-store"[3] == 's';
  }

  /** A list with a forbidding directive at its end or its beginning. */
  lemma ListsForbid(headers: Headers, line: string)
    requires First(headers, "Cache-Control") == line
    ensures line == "max-age=60, no-store" ==> !Cacheable(headers)
    ensures line == "private,max-age=60" ==> !Cacheable(headers)
  {
    ForbiddingParts();
    hide Cacheable, First, Forbids;
    if line == "max-age=60," + " no-store" + "" {
      PartForbids(headers, "max-age=60,", " no-store", "");
    }
    if line == "" + "private" + ",max-age=60" {
      PartForbids(headers, "", "private", ",max-age=60");
    }
  }

  lemma PartForbids(headers: Headers, before: string, part: string, after: string)
    requires PartBetween(First(headers, "Cache-Control"), before, part, after) && Forbids(part)
    ensures !Cacheable(headers)
  {
    hide Forbids, PartBetween, First, Cacheable;
    DirectiveAnywhereForbids(headers, part);
  }

  /** Lines after the first one of Cache-Control never count, whatever they say. */
  lemma LaterLinesIgnored(headers: Headers, line: string, more: seq<string>)
    ensures Cacheable(headers["Cache-Control" := [line] + more]) <==> Cacheable(headers["Cache-Control" := [line]])
    ensures Cacheable(map["Cache-Control" := ["max-age=60", "no-store"]])
  {
    var one, all := headers["Cache-Control" := [line]], headers["Cache-Control" := [line] + more];
    assert "Set-Cookie" != "Cache-Control";
    assert First(one, "Cache-Control") == First(all, "Cache-Control") && First(one, "Set-Cookie") == First(all, "Set-Cookie");
    MaxAgeAllows();
  }

  lemma MaxAgeAllows()
    ensures Cacheable(map["Cache-Control" := ["max-age=60", "no-store"]])
  {
    hide Cacheable, Forbids, IsSpace, First;
    var headers: Headers := map["Cache-Control" := ["max-age=60", "no-store"]];
    MaxAgeLine();
    NotForbidden("max-age=60");
    assert First(headers, "Set-Cookie") == "" && First(headers, "Cache-Control") == "max-age=60" by {
      FirstOfOne("Cache-Control", ["max-age=60", "no-store"], "Set-Cookie");
    }
    OnePart(headers, "max-age=60");
  }

  lemma FirstOfOne(name: string, lines: seq<string>, other: string)
    requires lines != [] && |other| != |name|
    ensures First(map[name := lines], name) == lines[0] && First(map[name := lines], other) == ""
  {
  }

  lemma MaxAgeLine()
    ensures var line := "max-age=60"; |line| > 8 && ',' !in line && !IsSpace(line[0]) && !IsSpace(line[|line| - 1])
  {
  }

  lemma OnePart(headers: Headers, line: string)
    requires First(headers, "Set-Cookie") == "" && First(headers, "Cache-Control") == line && ',' !in line
    ensures Cacheable(headers) <==> !Forbids(line)
  {
    SplitNoComma(line);
    hide Split, Forbids, First;
    assert Split(line)[0] == line;
  }

  lemma NotForbidden(part: string)
    requires |part| > 8 && !IsSpace(part[0]) && !IsSpace(part[|part| - 1])
    ensures !Forbids(part)
  {
    TrimKeeps(part);
    hide TrimSpace;
    assert |ToLower(part)| == |part|;
  }

  // ----- Executions -----

  /** What expressions see of a body: nil, text, or a decoded JSON value other than null. */
  datatype Content = Nil | Text(text: string) | Json(value: string)

  /** The bytes of a body, and what they read as under their Content-Type: text if they are no JSON. */
  datatype Raw = Raw(bytes: string, shows: Content)

  /** A step's result; body and matched are set by the error rules of the step that sent the request. */
  datatype StepResult = StepResult(status: int, headers: Headers, body: Content, raw: Raw, matched: bool)

  /** Without a matching rule a sender shows the body it has read. */
  predicate Proper(r: StepResult) {
    !r.matched ==> r.body == r.raw.shows
  }

  /** A hit reads the bytes again and takes nil for a failure to read them. */
  function HitBody(raw: Raw): Content {
    if raw.shows == Nil then Text(raw.bytes) else raw.shows
  }

  /** What a hit makes of a response. */
  function HitOf(r: StepResult): StepResult {
    r.(body := HitBody(r.raw))
  }

  /** The response as its sender had read it. */
  function Reread(r: StepResult): StepResult {
    r.(body := r.raw.shows)
  }

  /** A hit shows a response as its sender did, unless that was JSON null. */
  lemma HitIsSameIff(r: StepResult)
    requires Proper(r) && !r.matched
    ensures HitOf(r) == r <==> r.raw.shows != Nil
    ensures r.raw.shows == Nil ==> r.body == Nil && HitOf(r).body == Text(r.raw.bytes)
  {
  }

  /** What of a step's configuration matters here. */
  datatype Config = Config(isGet: bool, ttl: Option<int>, coalesce: bool)

  datatype Origin = Own | FromCache(at: int) | FromFlight

  /** Where an execution is between building its request and ending. */
  datatype Pc =
    | Lookup
    | Choose
    | Lead(flight: nat)
    | Join(flight: nat)
    | Send
    | Got(result: StepResult, origin: Origin, receivedAt: int)
    | Served(result: StepResult, origin: Origin, receivedAt: int)
    | Failed(why: string)

  datatype Execution = Execution(key: string, config: Config, pc: Pc)

  /** A flight's outcome and when it arrived. */
  datatype Landed = Landed(outcome: Result<StepResult, string>, at: int)

  datatype Flight = Flight(key: string, landed: Option<Landed>)

  /** A cached response; receivedAt only records when it had arrived. */
  datatype Cached = Cached(status: int, headers: Headers, raw: Raw, storedAt: int, ttl: int, receivedAt: int)

  /** The response an entry was made from. */
  function Fresh(c: Cached): StepResult {
    StepResult(c.status, c.headers, c.raw.shows, c.raw, false)
  }

  /** A response that arrived, and when. */
  datatype Receipt = Receipt(key: string, result: StepResult, at: int)

  datatype State = State(
    executions: map<nat, Execution>,
    flights: map<nat, Flight>,
    inFlight: map<string, nat>,
    cache: map<string, Cached>,
    received: set<Receipt>,
    clock: int)

  function Set(st: State, id: nat, pc: Pc): State
    requires id in st.executions
  {
    st.(executions := st.executions[id := st.executions[id].(pc := pc)])
  }

  predicate UsesCache(c: Config) {
    c.ttl.Some? && c.isGet
  }

  /** May the result be stored: the four tests of the cache fill. */
  predicate Storable(r: StepResult) {
    r.status < 500 && !r.matched && Cacheable(r.headers)
  }

  ghost predicate Begins(a: State, b: State, id: nat, key: string, config: Config) {
    && id !in a.executions
    && b == a.(executions := a.executions[id := Execution(key, config, if UsesCache(config) then Lookup else Choose)])
  }

  ghost predicate Ticks(a: State, b: State, now: int) {
    a.clock <= now && b == a.(clock := now)
  }

  /** A hit ends the execution; error rules are not consulted again. */
  ghost predicate LooksUp(a: State, b: State, id: nat) {
    && id in a.executions && a.executions[id].pc == Lookup
    && var key := a.executions[id].key;
       if key in a.cache && a.clock <= a.cache[key].storedAt + a.cache[key].ttl then
         var c := a.cache[key];
         b == Set(a, id, Served(HitOf(Fresh(c)), FromCache(a.clock), c.receivedAt))
       else
         b == Set(a, id, Choose)
  }

  /** A coalescing GET joins the flight of its key or starts one under a new name. */
  ghost predicate Chooses(a: State, b: State, id: nat, flight: nat) {
    && id in a.executions && a.executions[id].pc == Choose
    && var e := a.executions[id];
       if !(e.config.coalesce && e.config.isGet) then b == Set(a, id, Send)
       else if e.key in a.inFlight then b == Set(a, id, Join(a.inFlight[e.key]))
       else
         && flight !in a.flights
         && b == Set(a.(flights := a.flights[flight := Flight(e.key, None)], inFlight := a.inFlight[e.key := flight]),
                     id, Lead(flight))
  }

  /** The leader's request ends; the flight is forgotten and its result handed out. */
  ghost predicate Lands(a: State, b: State, id: nat, outcome: Result<StepResult, string>) {
    && id in a.executions && a.executions[id].pc.Lead? && (outcome.Success? ==> Proper(outcome.value))
    && var e := a.executions[id];
       var landed := a.(flights := a.flights[e.pc.flight := Flight(e.key, Some(Landed(outcome, a.clock)))],
                        inFlight := a.inFlight - {e.key},
                        received := a.received + if outcome.Success? then {Receipt(e.key, outcome.value, a.clock)} else {});
       b == Set(landed, id, if outcome.Success? then Got(outcome.value, Own, a.clock) else Failed(outcome.error))
  }

  /** A joiner takes the result, unless it is user specific: then it sends its own request. */
  ghost predicate Shares(a: State, b: State, id: nat) {
    && id in a.executions && a.executions[id].pc.Join?
    && var f := a.executions[id].pc.flight;
       && f in a.flights && a.flights[f].landed.Some?
       && var landed := a.flights[f].landed.value;
          match landed.outcome
          case Failure(why) => b == Set(a, id, Failed(why))
          case Success(r) => b == Set(a, id, if Cacheable(r.headers) then Got(r, FromFlight, landed.at) else Send)
  }

  ghost predicate Sends(a: State, b: State, id: nat, outcome: Result<StepResult, string>) {
    && id in a.executions && a.executions[id].pc == Send && (outcome.Success? ==> Proper(outcome.value))
    && match outcome
       case Failure(why) => b == Set(a, id, Failed(why))
       case Success(r) =>
         b == Set(a.(received := a.received + {Receipt(a.executions[id].key, r, a.clock)}), id, Got(r, Own, a.clock))
  }

  function Filled(e: Execution, r: StepResult, clock: int): Cached
    requires e.config.ttl.Some? && e.pc.Got?
  {
    Cached(r.status, r.headers, r.raw, clock, e.config.ttl.value, e.pc.receivedAt)
  }

  /** The cache fill, then the end. A joiner fills the cache as well. */
  ghost predicate Fills(a: State, b: State, id: nat) {
    && id in a.executions && a.executions[id].pc.Got?
    && var e := a.executions[id];
       var r := e.pc.result;
       var filled := if UsesCache(e.config) && Storable(r)
                     then a.(cache := a.cache[e.key := Filled(e, r, a.clock)])
                     else a;
       b == Set(filled, id, Served(r, e.pc.origin, e.pc.receivedAt))
  }

  ghost predicate Next(a: State, b: State) {
    || (exists id, key, config :: Begins(a, b, id, key, config))
    || (exists now :: Ticks(a, b, now))
    || (exists id :: LooksUp(a, b, id))
    || (exists id, flight :: Chooses(a, b, id, flight))
    || (exists id, outcome :: Lands(a, b, id, outcome))
    || (exists id :: Shares(a, b, id))
    || (exists id, outcome :: Sends(a, b, id, outcome))
    || (exists id :: Fills(a, b, id))
  }

  ghost predicate Run(run: seq<State>) {
    && run != [] && (exists t :: run[0] == State(map[], map[], map[], map[], {}, t))
    && forall i :: 0 <= i < |run| - 1 ==> Next(run[i], run[i + 1])
  }

  // ----- Where responses come from -----

  /** The entry was made from a storable response received for the same key. */
  ghost predicate EntryFrom(received: set<Receipt>, key: string, c: Cached) {
    Receipt(key, Fresh(c), c.receivedAt) in received && Storable(Fresh(c)) && c.receivedAt <= c.storedAt
  }

  ghost predicate FlightInv(received: set<Receipt>, f: Flight) {
    f.landed.Some? && f.landed.value.outcome.Success? ==>
      Receipt(f.key, f.landed.value.outcome.value, f.landed.value.at) in received
  }

  /** What an execution holds was received for its key, and may be held by it. */
  ghost predicate ResultFrom(received: set<Receipt>, key: string, r: StepResult, origin: Origin, at: int) {
    match origin
    case Own => Receipt(key, r, at) in received
    case FromFlight => Receipt(key, r, at) in received && Cacheable(r.headers)
    case FromCache(_) => Receipt(key, Reread(r), at) in received && Storable(Reread(r)) && r == HitOf(Reread(r))
  }

  ghost predicate ExecutionInv(st: State, e: Execution) {
    match e.pc
    case Lead(f) => f in st.flights && st.flights[f].key == e.key
    case Join(f) => f in st.flights && st.flights[f].key == e.key
    case Got(r, origin, at) => !origin.FromCache? && ResultFrom(st.received, e.key, r, origin, at)
    case Served(r, origin, at) => ResultFrom(st.received, e.key, r, origin, at)
    case _ => true
  }

  ghost predicate Inv(st: State) {
    && (forall key :: key in st.cache ==> EntryFrom(st.received, key, st.cache[key]))
    && (forall rec :: rec in st.received ==> rec.at <= st.clock && Proper(rec.result))
    && (forall f :: f in st.flights ==> FlightInv(st.received, st.flights[f]))
    && (forall key :: key in st.inFlight ==> st.inFlight[key] in st.flights && st.flights[st.inFlight[key]].key == key)
    && (forall id :: id in st.executions ==> ExecutionInv(st, st.executions[id]))
  }

  lemma MovesOn(st: State, id: nat, pc: Pc)
    requires Inv(st) && id in st.executions && ExecutionInv(st, st.executions[id].(pc := pc))
    ensures Inv(Set(st, id, pc))
  {
    forall i | i in st.executions && i != id ensures ExecutionInv(Set(st, id, pc), st.executions[i]) {
      assert ExecutionInv(st, st.executions[i]);
    }
  }

  /** Receiving more, and landing or starting flights, takes nothing from what others hold. */
  lemma GrowthKeepsExecution(a: State, b: State, e: Execution)
    requires ExecutionInv(a, e) && a.received <= b.received
    requires forall f :: f in a.flights ==> f in b.flights && b.flights[f].key == a.flights[f].key
    ensures ExecutionInv(b, e)
  {
    hide Storable, Cacheable;
  }

  lemma GrowthKeepsInv(a: State, b: State)
    requires Inv(a) && a.received <= b.received && b.executions == a.executions && b.cache == a.cache
    requires b.clock == a.clock && forall rec :: rec in b.received ==> rec.at <= b.clock && Proper(rec.result)
    requires forall f :: f in a.flights ==> f in b.flights && b.flights[f].key == a.flights[f].key
    requires forall f :: f in b.flights ==> FlightInv(b.received, b.flights[f])
    requires forall key :: key in b.inFlight ==> b.inFlight[key] in b.flights && b.flights[b.inFlight[key]].key == key
    ensures Inv(b)
  {
    hide Storable, Cacheable;
    forall id | id in b.executions ensures ExecutionInv(b, b.executions[id]) {
      GrowthKeepsExecution(a, b, a.executions[id]);
    }
  }

  lemma LookUpKeepsInv(a: State, b: State, id: nat)
    requires Inv(a) && LooksUp(a, b, id)
    ensures Inv(b)
  {
    hide Cacheable;
    MovesOn(a, id, b.executions[id].pc);
  }

  lemma ChooseKeepsInv(a: State, b: State, id: nat, flight: nat)
    requires Inv(a) && Chooses(a, b, id, flight)
    ensures Inv(b)
  {
    hide ResultFrom, EntryFrom;
    var e := a.executions[id];
    if e.config.coalesce && e.config.isGet && e.key !in a.inFlight {
      var started := a.(flights := a.flights[flight := Flight(e.key, None)], inFlight := a.inFlight[e.key := flight]);
      GrowthKeepsInv(a, started);
      MovesOn(started, id, Lead(flight));
    } else {
      MovesOn(a, id, b.executions[id].pc);
    }
  }

  lemma LandKeepsInv(a: State, b: State, id: nat, outcome: Result<StepResult, string>)
    requires Inv(a) && Lands(a, b, id, outcome)
    ensures Inv(b)
  {
    hide EntryFrom, Storable;
    var e := a.executions[id];
    assert ExecutionInv(a, e);
    var landed := a.(flights := a.flights[e.pc.flight := Flight(e.key, Some(Landed(outcome, a.clock)))],
                     inFlight := a.inFlight - {e.key},
                     received := a.received + if outcome.Success? then {Receipt(e.key, outcome.value, a.clock)} else {});
    forall f | f in landed.flights ensures FlightInv(landed.received, landed.flights[f]) {
      if f != e.pc.flight { assert FlightInv(a.received, a.flights[f]); }
    }
    GrowthKeepsInv(a, landed);
    MovesOn(landed, id, b.executions[id].pc);
  }

  lemma ShareKeepsInv(a: State, b: State, id: nat)
    requires Inv(a) && Shares(a, b, id)
    ensures Inv(b)
  {
    hide Cacheable;
    assert ExecutionInv(a, a.executions[id]);
    assert FlightInv(a.received, a.flights[a.executions[id].pc.flight]);
    MovesOn(a, id, b.executions[id].pc);
  }

  lemma SendKeepsInv(a: State, b: State, id: nat, outcome: Result<StepResult, string>)
    requires Inv(a) && Sends(a, b, id, outcome)
    ensures Inv(b)
  {
    hide EntryFrom, Storable;
    if outcome.Success? {
      var more := a.(received := a.received + {Receipt(a.executions[id].key, outcome.value, a.clock)});
      GrowthKeepsInv(a, more);
      MovesOn(more, id, Got(outcome.value, Own, a.clock));
    } else {
      MovesOn(a, id, Failed(outcome.error));
    }
  }

  lemma FillKeepsInv(a: State, b: State, id: nat)
    requires Inv(a) && Fills(a, b, id)
    ensures Inv(b)
  {
    hide Cacheable;
    var e := a.executions[id];
    var r := e.pc.result;
    assert ExecutionInv(a, e);
    if UsesCache(e.config) && Storable(r) {
      var c := Filled(e, r, a.clock);
      assert EntryFrom(a.received, e.key, c) by {
        assert Fresh(c) == r;
      }
      var filled := a.(cache := a.cache[e.key := c]);
      forall i | i in filled.executions ensures ExecutionInv(filled, filled.executions[i]) {
        GrowthKeepsExecution(a, filled, a.executions[i]);
      }
      MovesOn(filled, id, Served(r, e.pc.origin, e.pc.receivedAt));
    } else {
      MovesOn(a, id, Served(r, e.pc.origin, e.pc.receivedAt));
    }
  }

  lemma NextKeepsInv(a: State, b: State)
    requires Inv(a) && Next(a, b)
    ensures Inv(b)
  {
    hide Inv;
    if id, key, config :| Begins(a, b, id, key, config) {
      BeginKeepsInv(a, b, id, key, config);
    } else if now :| Ticks(a, b, now) {
      TickKeepsInv(a, b, now);
    } else if id :| LooksUp(a, b, id) {
      LookUpKeepsInv(a, b, id);
    } else if id, flight :| Chooses(a, b, id, flight) {
      ChooseKeepsInv(a, b, id, flight);
    } else if id, outcome :| Lands(a, b, id, outcome) {
      LandKeepsInv(a, b, id, outcome);
    } else if id :| Shares(a, b, id) {
      ShareKeepsInv(a, b, id);
    } else if id, outcome :| Sends(a, b, id, outcome) {
      SendKeepsInv(a, b, id, outcome);
    } else {
      var id :| Fills(a, b, id);
      FillKeepsInv(a, b, id);
    }
  }

  lemma BeginKeepsInv(a: State, b: State, id: nat, key: string, config: Config)
    requires Inv(a) && Begins(a, b, id, key, config)
    ensures Inv(b)
  {
    hide ResultFrom, EntryFrom;
    forall i | i in a.executions ensures ExecutionInv(b, b.executions[i]) {
      assert ExecutionInv(a, a.executions[i]);
    }
  }

  lemma TickKeepsInv(a: State, b: State, now: int)
    requires Inv(a) && Ticks(a, b, now)
    ensures Inv(b)
  {
    hide ResultFrom, EntryFrom;
    forall i | i in a.executions ensures ExecutionInv(b, b.executions[i]) {
      assert ExecutionInv(a, a.executions[i]);
    }
  }

  lemma {:induction false} RunHasInv(run: seq<State>, n: nat)
    requires Run(run) && n < |run|
    ensures Inv(run[n])
  {
    if n > 0 {
      RunHasInv(run, n - 1);
      assert Next(run[n - 1], run[n - 1 + 1]);
      NextKeepsInv(run[n - 1], run[n]);
    }
  }

  /** Every response a step ends with was received for its key, a hit read again; a shared one passes isCacheable. */
  lemma ServedWasReceived(run: seq<State>, n: nat, id: nat)
    requires Run(run) && n < |run| && id in run[n].executions && run[n].executions[id].pc.Served?
    ensures var e := run[n].executions[id];
            && Receipt(e.key, if e.pc.origin.FromCache? then Reread(e.pc.result) else e.pc.result, e.pc.receivedAt)
               in run[n].received
            && e.pc.receivedAt <= run[n].clock && (e.pc.origin.FromCache? ==> e.pc.result == HitOf(Reread(e.pc.result)))
            && (e.pc.origin.FromFlight? ==> Cacheable(e.pc.result.headers))
            && (e.pc.origin.FromCache? ==>
                  Cacheable(e.pc.result.headers) && e.pc.result.status < 500 && !e.pc.result.matched)
  {
    RunHasInv(run, n);
    assert ExecutionInv(run[n], run[n].executions[id]);
  }

  /**
   * A hit serves a response that arrived under its key, at most its time to
   * live after it was stored, and so at most the time to live and the delay of
   * storing it after it arrived.
   */
  lemma HitIsFresh(run: seq<State>, n: nat, id: nat)
    requires Run(run) && n < |run| - 1 && LooksUp(run[n], run[n + 1], id)
    requires run[n + 1].executions[id].pc.Served?
    ensures var a, e := run[n], run[n + 1].executions[id];
            && e.key in a.cache
            && var c := a.cache[e.key];
               && e.pc == Served(HitOf(Fresh(c)), FromCache(a.clock), c.receivedAt)
               && Receipt(e.key, Fresh(c), e.pc.receivedAt) in a.received
               && a.clock - c.storedAt <= c.ttl && c.receivedAt <= c.storedAt
               && a.clock - e.pc.receivedAt <= c.ttl + (c.storedAt - c.receivedAt)
  {
    RunHasInv(run, n);
    assert EntryFrom(run[n].received, run[n].executions[id].key, run[n].cache[run[n].executions[id].key]);
  }

  // ----- How old a hit can be -----

  ghost predicate Path(path: seq<State>) {
    path != [] && forall i :: 0 <= i < |path| - 1 ==> Next(path[i], path[i + 1])
  }

  /** The last step of the path is a hit of the entry c, older since its receipt than c's time to live. */
  ghost predicate EndsInLateHit(path: seq<State>, key: string, c: Cached, id: nat) {
    && Path(path) && |path| >= 2
    && var a, b := path[|path| - 2], path[|path| - 1];
       && key in a.cache && a.cache[key] == c && LooksUp(a, b, id)
       && a.executions[id].key == key && b.executions[id].pc.Served?
       && a.clock - c.receivedAt > c.ttl
  }

  /** Some continuation of st serves its entry of key later after the receipt than the time to live. */
  ghost predicate CanServeLate(st: State, key: string)
    requires key in st.cache
  {
    exists path, id :: EndsInLateHit(path, key, st.cache[key], id) && path[0] == st
  }

  lemma {:induction false} ClockGoesOn(path: seq<State>, i: nat)
    requires Path(path) && i < |path|
    ensures path[0].clock <= path[i].clock
  {
    if i > 0 {
      ClockGoesOn(path, i - 1);
      assert Next(path[i - 1], path[i - 1 + 1]);
      hide Storable, Cacheable, UsesCache;
    }
  }

  lemma NewName(used: set<nat>) returns (id: nat)
    ensures id !in used
  {
    id := 0;
    var rest, seen: set<nat> := used, {};
    while id in used
      invariant rest == used - seen && forall n :: n in used && n < id ==> n in seen
      invariant forall n :: n in seen ==> n < id
      decreases |rest|
    {
      assert id in rest;
      seen := seen + {id};
      rest := rest - {id};
      id := id + 1;
    }
  }

  /** Wait until the entry is about to expire, then ask for it. */
  lemma LateHit(st: State, key: string)
    requires key in st.cache && st.cache[key].receivedAt < st.cache[key].storedAt
    requires st.clock <= st.cache[key].storedAt + st.cache[key].ttl
    ensures CanServeLate(st, key)
  {
    var c := st.cache[key];
    var now := c.storedAt + c.ttl;
    var id := NewName(st.executions.Keys);
    var config := Config(true, Some(c.ttl), false);
    var ticked := st.(clock := now);
    var begun := ticked.(executions := ticked.executions[id := Execution(key, config, Lookup)]);
    var hit := Set(begun, id, Served(HitOf(Fresh(c)), FromCache(now), c.receivedAt));
    assert Ticks(st, ticked, now) && Begins(ticked, begun, id, key, config) && LooksUp(begun, hit, id);
    var path := [st, ticked, begun, hit];
    hide Ticks, Begins, LooksUp;
    assert Next(path[0], path[1]) && Next(path[1], path[2]) && Next(path[2], path[3]);
    hide Next;
    assert LooksUp(path[2], path[3], id);
    assert EndsInLateHit(path, key, c, id);
  }

  /**
   * In every run, an entry that has not expired can be served later after its
   * receipt than its time to live iff it was not stored at the clock reading
   * of its receipt.
   */
  lemma ServedLateIff(run: seq<State>, n: nat, key: string)
    requires Run(run) && n < |run| && key in run[n].cache
    ensures var c := run[n].cache[key];
            CanServeLate(run[n], key) <==> c.storedAt != c.receivedAt && run[n].clock <= c.storedAt + c.ttl
  {
    var st := run[n];
    var c := st.cache[key];
    RunHasInv(run, n);
    assert EntryFrom(st.received, key, c);
    hide Inv, Next, Run;
    if c.storedAt != c.receivedAt && st.clock <= c.storedAt + c.ttl {
      LateHit(st, key);
    }
    if path, id :| EndsInLateHit(path, key, c, id) && path[0] == st {
      ClockGoesOn(path, |path| - 2);
    }
  }

  /** So it is settled when the entry is stored: it can be served late iff the fill comes after the receipt. */
  lemma LateIffStoredLate(run: seq<State>, n: nat, id: nat)
    requires Run(run) && n < |run| - 1 && Fills(run[n], run[n + 1], id)
    requires var e := run[n].executions[id]; UsesCache(e.config) && Storable(e.pc.result)
    ensures var e := run[n].executions[id];
            && e.key in run[n + 1].cache
            && (CanServeLate(run[n + 1], e.key) <==> run[n].clock != e.pc.receivedAt && e.config.ttl.value >= 0)
  {
    ServedLateIff(run, n + 1, run[n].executions[id].key);
  }

  // ----- A joiner that stores late -----

  const KEY := "key"
  const BODY := Raw("body", Text("body"))
  const PLAIN := StepResult(200, map[], Text("body"), BODY, false)
  const COALESCED := Config(true, Some(5), true)

  /** Two executions of one key up to the landing of their flight at clock 0. */
  function Shared(pc0: Pc, pc1: Pc): map<nat, Execution> {
    map[0 := Execution(KEY, COALESCED, pc0), 1 := Execution(KEY, COALESCED, pc1)]
  }

  const RECEIVED := Receipt(KEY, PLAIN, 0)
  const FLOWN := map[0 := Flight(KEY, Some(Landed(Success(PLAIN), 0)))]

  function Stored(at: int): map<string, Cached> {
    map[KEY := Cached(200, map[], BODY, at, 5, 0)]
  }

  const SERVED := Served(PLAIN, Own, 0)
  const JOINED := Served(PLAIN, FromFlight, 0)
  const TAKEN := Got(PLAIN, FromFlight, 0)
  const FLYING := map[0 := Flight(KEY, None)]

  /** The leader receives and stores at 0, the joiner stores at 100, and a third execution hits at 105. */
  function LateState(i: nat): State {
    if i == 0 then State(map[], map[], map[], map[], {}, 0)
    else if i == 1 then State(map[0 := Execution(KEY, COALESCED, Lookup)], map[], map[], map[], {}, 0)
    else if i == 2 then State(Shared(Lookup, Lookup), map[], map[], map[], {}, 0)
    else if i == 3 then State(Shared(Choose, Lookup), map[], map[], map[], {}, 0)
    else if i == 4 then State(Shared(Choose, Choose), map[], map[], map[], {}, 0)
    else if i == 5 then State(Shared(Lead(0), Choose), FLYING, map[KEY := 0], map[], {}, 0)
    else if i == 6 then State(Shared(Lead(0), Join(0)), FLYING, map[KEY := 0], map[], {}, 0)
    else if i == 7 then State(Shared(Got(PLAIN, Own, 0), Join(0)), FLOWN, map[], map[], {RECEIVED}, 0)
    else if i == 8 then State(Shared(SERVED, Join(0)), FLOWN, map[], Stored(0), {RECEIVED}, 0)
    else if i == 9 then State(Shared(SERVED, TAKEN), FLOWN, map[], Stored(0), {RECEIVED}, 0)
    else if i == 10 then State(Shared(SERVED, TAKEN), FLOWN, map[], Stored(0), {RECEIVED}, 100)
    else if i == 11 then State(Shared(SERVED, JOINED), FLOWN, map[], Stored(100), {RECEIVED}, 100)
    else if i == 12 then State(Shared(SERVED, JOINED), FLOWN, map[], Stored(100), {RECEIVED}, 105)
    else if i == 13 then
      State(Shared(SERVED, JOINED)[2 := Execution(KEY, COALESCED, Lookup)], FLOWN, map[], Stored(100), {RECEIVED}, 105)
    else
      State(Shared(SERVED, JOINED)[2 := Execution(KEY, COALESCED, Served(PLAIN, FromCache(105), 0))],
            FLOWN, map[], Stored(100), {RECEIVED}, 105)
  }

  lemma PlainIsStorable()
    ensures Storable(PLAIN)
  {
    SplitNoComma("");
    assert First(PLAIN.headers, "Cache-Control") == "" && First(PLAIN.headers, "Set-Cookie") == "";
    assert |ToLower(TrimSpace(""))| == 0;
  }

  lemma LateBegins()
    ensures Begins(LateState(0), LateState(1), 0, KEY, COALESCED) && Begins(LateState(1), LateState(2), 1, KEY, COALESCED)
    ensures Begins(LateState(12), LateState(13), 2, KEY, COALESCED)
    ensures Ticks(LateState(9), LateState(10), 100) && Ticks(LateState(11), LateState(12), 105)
  {
  }

  lemma LateLooksUp()
    ensures LooksUp(LateState(2), LateState(3), 0) && LooksUp(LateState(3), LateState(4), 1)
    ensures LooksUp(LateState(13), LateState(14), 2)
  {
  }

  lemma LateFlies()
    ensures Chooses(LateState(4), LateState(5), 0, 0) && Chooses(LateState(5), LateState(6), 1, 0)
  {
  }

  lemma LateLands()
    ensures Lands(LateState(6), LateState(7), 0, Success(PLAIN))
  {
    assert map[KEY := 0 as nat] - {KEY} == map[];
  }

  lemma LateShares()
    ensures Shares(LateState(8), LateState(9), 1)
  {
    PlainIsStorable();
    hide Cacheable;
  }

  lemma LateFillsLeader()
    ensures Fills(LateState(7), LateState(8), 0)
  {
    PlainIsStorable();
    hide Storable;
  }

  lemma LateFillsJoiner()
    ensures Fills(LateState(10), LateState(11), 1)
  {
    PlainIsStorable();
    hide Storable;
  }

  lemma LateNext(i: nat)
    requires i < 14
    ensures Next(LateState(i), LateState(i + 1))
  {
    hide LateState, Begins, Ticks, LooksUp, Chooses, Lands, Shares, Fills;
    LateBegins();
    LateLooksUp();
    LateFlies();
    LateLands();
    LateShares();
    LateFillsLeader();
    LateFillsJoiner();
    assert i in {0, 1, 2, 3, 4, 5, 6, 7, 8, 9, 10, 11, 12, 13};
  }

  function LateRun(): (run: seq<State>)
    ensures |run| == 15 && forall i :: 0 <= i < 15 ==> run[i] == LateState(i)
  {
    seq(15, i requires 0 <= i < 15 => LateState(i))
  }

  lemma LateRunRuns()
    ensures Run(LateRun())
  {
    var run := LateRun();
    assert run[0] == State(map[], map[], map[], map[], {}, 0);
    hide LateState, LateRun, Next;
    forall i | 0 <= i < |run| - 1 ensures Next(run[i], run[i + 1]) {
      LateNext(i);
    }
  }

  /** A response that arrived at 0 with a time to live of 5 is served from the cache at 105. */
  lemma JoinerServesLate()
    ensures var run := LateRun();
            && Run(run) && LooksUp(run[13], run[14], 2)
            && 2 in run[14].executions && run[14].executions[2].pc == Served(PLAIN, FromCache(105), 0)
            && KEY in run[13].cache && run[13].cache[KEY].ttl == 5
  {
    LateRunRuns();
    LateLooksUp();
    hide Run, LooksUp, LateRun;
  }
}
