/**
 * Studio to gateway: serveArtifact (internal/studio/gatewayapi.go), the poller
 * (internal/hotreload/poller.go, client.go) and reloadFromBytes
 * (cmd/restitch/run.go). A gateway asks for the newest version with the entity
 * tag of the version it runs (sections 13.1.2 and 15.4.5 of RFC 9110), while
 * Studio goes on publishing and replies go missing.
 */
module Poller {
  import opened Wrappers
  import opened Versions

  // ----- Entity tags -----

  function Digit(d: nat): char
    requires d < 10
  {
    ['0', '1', '2', '3', '4', '5', '6', '7', '8', '9'][d]
  }

  function Decimal(n: nat): (s: string)
    ensures s != ""
  {
    if n < 10 then [Digit(n)] else Decimal(n / 10) + [Digit(n % 10)]
  }

  lemma {:induction false} DecimalInjective(m: nat, n: nat)
    requires Decimal(m) == Decimal(n)
    ensures m == n
  {
    var s, t := Decimal(m), Decimal(n);
    assert s[|s| - 1] == Digit(m % 10) && t[|t| - 1] == Digit(n % 10);
    if m >= 10 && n >= 10 {
      assert s[..|s| - 1] == Decimal(m / 10) && t[..|t| - 1] == Decimal(n / 10);
      DecimalInjective(m / 10, n / 10);
    }
  }

  function ETag(env: string, n: nat): string {
    "\"" + env + "-" + Decimal(n) + "\""
  }

  lemma ETagInjective(env: string, m: nat, n: nat)
    requires ETag(env, m) == ETag(env, n)
    ensures m == n
  {
    var s, t := ETag(env, m), ETag(env, n);
    var k := |env| + 2;
    assert s[k..|s| - 1] == Decimal(m);
    assert t[k..|t| - 1] == Decimal(n);
    DecimalInjective(m, n);
  }

  // ----- One request -----

  datatype Reply =
    | NoVersion
    | NotModified
    | Artifact(yaml: string, etag: string, version: nat)
    | Lost

  /** serveArtifact for the current version. The version's row is immutable, so it is read with its number. */
  ghost function Serve(rows: Table, env: string, ifNoneMatch: string): Reply
    requires Contiguous(rows)
  {
    var n := Count(rows, env);
    if n == 0 then NoVersion
    else
      assert Key(env, n) in rows;
      if ifNoneMatch == ETag(env, n) then NotModified else Artifact(rows[Key(env, n)].yaml, ETag(env, n), n)
  }

  /** What the gateway serves; the first pipeline serves only the probes. */
  datatype Pipeline = Pipeline(hash: string, yaml: Option<string>)

  /** How the stages of one reload go; some of them ask the environment or the network. */
  datatype Stages = Stages(loads: bool, compiles: bool)

  /** reloadFromBytes: every stage that can fail comes before the swap. */
  function Reloaded(current: Pipeline, yaml: string, hash: string -> string, stages: Stages): Option<Pipeline> {
    if !stages.loads then None
    else if current.hash == hash(yaml) then Some(current)
    else if !stages.compiles then None
    else Some(Pipeline(hash(yaml), Some(yaml)))
  }

  datatype ErrorType = NoError | NoVersionYet | FetchFailed | ReloadFailed

  datatype Gateway = Gateway(
    pipeline: Pipeline,
    lastETag: string,
    version: nat,
    error: ErrorType,
    consecutiveErrors: nat)

  function Fails(gw: Gateway, error: ErrorType): Gateway {
    gw.(error := error, consecutiveErrors := gw.consecutiveErrors + 1)
  }

  /** One pass of the loop in Run, once the reply is in. */
  function RunOnce(gw: Gateway, reply: Reply, maxBytes: nat, hash: string -> string, stages: Stages): Gateway {
    match reply
    case NoVersion => Fails(gw, NoVersionYet)
    case Lost => Fails(gw, FetchFailed)
    case NotModified => gw.(error := NoError, consecutiveErrors := 0)
    case Artifact(yaml, etag, version) =>
      if |yaml| > maxBytes then Fails(gw, FetchFailed)
      else
        var next := Reloaded(gw.pipeline, yaml, hash, stages);
        if next.None? then Fails(gw, ReloadFailed)
        else Gateway(next.value, etag, version, NoError, 0)
  }

  /** The reply brings an artifact of a size that is read, it loads, and it is what runs or compiles. */
  predicate TakesOver(current: Pipeline, reply: Reply, maxBytes: nat, hash: string -> string, stages: Stages) {
    && reply.Artifact? && |reply.yaml| <= maxBytes
    && stages.loads && (current.hash == hash(reply.yaml) || stages.compiles)
  }

  /** The poller and the pipeline it keeps up to date. */
  class PollLoop {
    const hash: string -> string
    const maxBytes: nat
    var pipeline: Pipeline
    var lastETag: string
    var version: nat
    var error: ErrorType
    var consecutiveErrors: nat

    constructor (hash: string -> string, maxBytes: nat)
      ensures View() == Gateway(Pipeline("", None), "", 0, NoError, 0)
      ensures this.hash == hash && this.maxBytes == maxBytes
    {
      this.hash, this.maxBytes := hash, maxBytes;
      pipeline, lastETag, version, error, consecutiveErrors := Pipeline("", None), "", 0, NoError, 0;
    }

    function View(): Gateway
      reads this
    {
      Gateway(pipeline, lastETag, version, error, consecutiveErrors)
    }

    method Reload(yaml: string, stages: Stages) returns (accepted: bool)
      modifies this`pipeline
      ensures accepted <==> stages.loads && (old(pipeline.hash) == hash(yaml) || stages.compiles)
      ensures accepted ==> pipeline.hash == hash(yaml)
      ensures pipeline == if accepted && old(pipeline.hash) != hash(yaml) then Pipeline(hash(yaml), Some(yaml)) else old(pipeline)
      ensures Reloaded(old(pipeline), yaml, hash, stages) == if accepted then Some(pipeline) else None
    {
      if !stages.loads {
        return false;
      }
      var h := hash(yaml);
      if pipeline.hash == h {
        return true;
      }
      if !stages.compiles {
        return false;
      }
      pipeline := Pipeline(h, Some(yaml));
      return true;
    }

    method Poll(reply: Reply, stages: Stages)
      modifies this
      ensures View() == RunOnce(old(View()), reply, maxBytes, hash, stages)
      ensures if TakesOver(old(pipeline), reply, maxBytes, hash, stages)
              then pipeline.hash == hash(reply.yaml) && lastETag == reply.etag && version == reply.version
              else pipeline == old(pipeline) && lastETag == old(lastETag) && version == old(version)
      ensures error == match reply
                       case NoVersion => NoVersionYet
                       case Lost => FetchFailed
                       case NotModified => NoError
                       case Artifact(yaml, _, _) =>
                         if |yaml| > maxBytes then FetchFailed
                         else if TakesOver(old(pipeline), reply, maxBytes, hash, stages) then NoError
                         else ReloadFailed
      ensures consecutiveErrors == if error == NoError then 0 else old(consecutiveErrors) + 1
    {
      var failure := NoError;
      match reply {
        case NoVersion => failure := NoVersionYet;
        case Lost => failure := FetchFailed;
        case NotModified =>
        case Artifact(yaml, etag, number) =>
          if |yaml| > maxBytes {
            failure := FetchFailed;
          } else {
            var accepted := Reload(yaml, stages);
            if accepted {
              lastETag, version := etag, number;
            } else {
              failure := ReloadFailed;
            }
          }
      }
      error := failure;
      consecutiveErrors := if failure == NoError then 0 else consecutiveErrors + 1;
    }
  }

  // ----- Runs -----

  datatype Wire = Idle | Asked(ifNoneMatch: string) | Answered(reply: Reply)

  datatype State = Link(rows: Table, gateway: Gateway, wire: Wire)

  datatype World = World(env: string, maxBytes: nat, hash: string -> string)

  /** SHA-256 in hex, taken to have no collisions. */
  ghost predicate GoodHash(w: World) {
    (forall a, b :: w.hash(a) == w.hash(b) ==> a == b) && forall a :: w.hash(a) != ""
  }

  /** Publishes and rollbacks, in this environment and others. */
  ghost predicate Publishes(a: State, b: State) {
    b == a.(rows := b.rows) && Contiguous(b.rows) && KeepsRows(a.rows, b.rows)
  }

  ghost predicate Asks(a: State, b: State) {
    a.wire == Idle && b == a.(wire := Asked(a.gateway.lastETag))
  }

  ghost predicate Answers(w: World, a: State, b: State) {
    && a.wire.Asked? && Contiguous(a.rows)
    && b == a.(wire := Answered(Serve(a.rows, w.env, a.wire.ifNoneMatch)))
  }

  ghost predicate Loses(a: State, b: State) {
    a.wire != Idle && b == a.(wire := Answered(Lost))
  }

  ghost predicate Polls(w: World, a: State, b: State, stages: Stages) {
    && a.wire.Answered?
    && b == Link(a.rows, RunOnce(a.gateway, a.wire.reply, w.maxBytes, w.hash, stages), Idle)
  }

  ghost predicate Next(w: World, a: State, b: State) {
    || Publishes(a, b) || Asks(a, b) || Answers(w, a, b) || Loses(a, b)
    || exists stages :: Polls(w, a, b, stages)
  }

  const START := Link(map[], Gateway(Pipeline("", None), "", 0, NoError, 0), Idle)

  ghost predicate Run(w: World, run: seq<State>) {
    && run != [] && run[0] == START
    && forall i :: 0 <= i < |run| - 1 ==> Next(w, run[i], run[i + 1])
  }

  /** The gateway runs nothing yet, or exactly the version its tag and number name. */
  ghost predicate RunsNamedVersion(w: World, rows: Table, gw: Gateway) {
    if gw.version == 0 then gw.lastETag == "" && gw.pipeline == Pipeline("", None)
    else
      && Key(w.env, gw.version) in rows
      && gw.lastETag == ETag(w.env, gw.version)
      && var yaml := rows[Key(w.env, gw.version)].yaml;
         gw.pipeline == Pipeline(w.hash(yaml), Some(yaml))
  }

  /** A reply on its way is about a published version not older than the one that runs. */
  ghost predicate WireInv(w: World, st: State) {
    match st.wire
    case Idle => true
    case Asked(tag) => tag == st.gateway.lastETag
    case Answered(reply) =>
      match reply
      case Artifact(yaml, etag, n) =>
        && Key(w.env, n) in st.rows && yaml == st.rows[Key(w.env, n)].yaml
        && etag == ETag(w.env, n) && n > st.gateway.version
      case NotModified => st.gateway.version > 0
      case _ => true
  }

  ghost predicate Inv(w: World, st: State) {
    Contiguous(st.rows) && RunsNamedVersion(w, st.rows, st.gateway) && WireInv(w, st)
  }

  lemma AnswerKeepsInv(w: World, a: State, b: State)
    requires Inv(w, a) && Answers(w, a, b)
    ensures Inv(w, b)
    ensures b.wire.reply == NotModified ==> a.gateway.version == Count(a.rows, w.env)
    ensures b.wire.reply.Artifact? ==> b.wire.reply.version == Count(a.rows, w.env) > a.gateway.version
  {
    var n, v := Count(a.rows, w.env), a.gateway.version;
    Taken(a.rows, w.env, n);
    Taken(a.rows, w.env, v);
    if v > 0 && a.gateway.lastETag == ETag(w.env, n) {
      ETagInjective(w.env, v, n);
    }
  }

  lemma PollKeepsInv(w: World, a: State, b: State, stages: Stages)
    requires GoodHash(w) && Inv(w, a) && Polls(w, a, b, stages)
    ensures Inv(w, b)
  {
    if a.wire.reply.Artifact? {
      var next := Reloaded(a.gateway.pipeline, a.wire.reply.yaml, w.hash, stages);
      if next.Some? && a.gateway.pipeline.hash == w.hash(a.wire.reply.yaml) {
        assert a.gateway.version > 0;
      }
    }
  }

  lemma NextKeepsInv(w: World, a: State, b: State)
    requires GoodHash(w) && Inv(w, a) && Next(w, a, b)
    ensures Inv(w, b) && a.gateway.version <= b.gateway.version
  {
    if Answers(w, a, b) {
      AnswerKeepsInv(w, a, b);
    } else if stages :| Polls(w, a, b, stages) {
      PollKeepsInv(w, a, b, stages);
    }
  }

  /** In every run the tag, the number and the running pipeline name one accepted version. */
  lemma {:induction false} GatewayRunsWhatItNames(w: World, run: seq<State>, n: nat)
    requires GoodHash(w) && Run(w, run) && n < |run|
    ensures Inv(w, run[n])
  {
    if n == 0 {
      assert forall env :: Numbers(map[], env) == {};
    } else {
      GatewayRunsWhatItNames(w, run, n - 1);
      assert Next(w, run[n - 1], run[n - 1 + 1]);
      NextKeepsInv(w, run[n - 1], run[n]);
    }
  }

  lemma {:induction false} AppliedVersionNeverDecreases(w: World, run: seq<State>, i: nat, j: nat)
    requires GoodHash(w) && Run(w, run) && i <= j < |run|
    ensures run[i].gateway.version <= run[j].gateway.version
    decreases j - i
  {
    if i < j {
      AppliedVersionNeverDecreases(w, run, i, j - 1);
      GatewayRunsWhatItNames(w, run, j - 1);
      assert Next(w, run[j - 1], run[j - 1 + 1]);
      NextKeepsInv(w, run[j - 1], run[j]);
    }
  }

  /** A 304 is answered exactly when the gateway runs the newest version. */
  lemma NotModifiedIffNewest(w: World, run: seq<State>, n: nat)
    requires GoodHash(w) && Run(w, run) && n < |run| - 1 && Answers(w, run[n], run[n + 1])
    ensures run[n + 1].wire.reply == NotModified <==>
              run[n].gateway.version == Count(run[n].rows, w.env) && run[n].gateway.version > 0
  {
    GatewayRunsWhatItNames(w, run, n);
    AnswerKeepsInv(w, run[n], run[n + 1]);
  }

  /** A pass either leaves pipeline, tag and number alone, or moves all three to the version in the reply. */
  lemma RejectedChangesNothing(w: World, run: seq<State>, n: nat, stages: Stages)
    requires GoodHash(w) && Run(w, run) && n < |run| - 1 && Polls(w, run[n], run[n + 1], stages)
    ensures var a, b := run[n].gateway, run[n + 1].gateway;
            if !TakesOver(a.pipeline, run[n].wire.reply, w.maxBytes, w.hash, stages)
            then b.version == a.version && b.pipeline == a.pipeline && b.lastETag == a.lastETag
            else
              && b.version == run[n].wire.reply.version > a.version
              && b.lastETag == ETag(w.env, b.version) && b.pipeline.yaml == Some(run[n].wire.reply.yaml)
  {
    GatewayRunsWhatItNames(w, run, n);
    GatewayRunsWhatItNames(w, run, n + 1);
  }

  /** A pass over an artifact that does not load or compile counts one error and leaves what runs alone. */
  lemma FailedStagesOnlyCount(w: World, run: seq<State>, n: nat, stages: Stages)
    requires Run(w, run) && n < |run| - 1 && Polls(w, run[n], run[n + 1], stages)
    requires run[n].wire.reply.Artifact? && |run[n].wire.reply.yaml| <= w.maxBytes
    requires !stages.loads || (run[n].gateway.pipeline.hash != w.hash(run[n].wire.reply.yaml) && !stages.compiles)
    ensures var a, b := run[n].gateway, run[n + 1].gateway;
            b == Gateway(a.pipeline, a.lastETag, a.version, ReloadFailed, a.consecutiveErrors + 1)
  {
  }

  /** Pass m brought this version, and its YAML loaded. */
  ghost predicate Loaded(w: World, run: seq<State>, m: nat, stages: Stages, version: nat) {
    && m + 1 < |run| && Polls(w, run[m], run[m + 1], stages) && stages.loads
    && run[m].wire.reply.Artifact? && run[m].wire.reply.version == version
  }

  /** Pass m brought this YAML, and it loaded and compiled. */
  ghost predicate Compiled(w: World, run: seq<State>, m: nat, stages: Stages, yaml: string) {
    && m + 1 < |run| && Polls(w, run[m], run[m + 1], stages) && stages.loads && stages.compiles
    && run[m].wire.reply.Artifact? && run[m].wire.reply.yaml == yaml
  }

  /** What runs was accepted: some pass loaded its version, and some pass loaded and compiled its YAML. */
  lemma {:induction false} WhatRunsWasAccepted(w: World, run: seq<State>, n: nat)
    requires Run(w, run) && n < |run|
    ensures var gw := run[n].gateway;
            && (gw.version > 0 ==> exists m: nat, stages :: m < n && Loaded(w, run, m, stages, gw.version))
            && (gw.pipeline.yaml.Some? ==>
                  exists m: nat, stages :: m < n && Compiled(w, run, m, stages, gw.pipeline.yaml.value))
  {
    if n > 0 {
      WhatRunsWasAccepted(w, run, n - 1);
      var a, b := run[n - 1], run[n];
      assert Next(w, run[n - 1], run[n - 1 + 1]);
      if a.gateway != b.gateway {
        var stages :| Polls(w, a, b, stages);
        assert b.gateway.version != a.gateway.version ==> Loaded(w, run, n - 1, stages, b.gateway.version);
        assert b.gateway.pipeline != a.gateway.pipeline ==> Compiled(w, run, n - 1, stages, b.gateway.pipeline.yaml.value);
      }
    }
  }

  /** Every publishing step of Versions is one the poller's runs allow for. */
  lemma VersionsStepsPublish(a: Versions.State, b: Versions.State, gw: Gateway, wire: Wire)
    requires Versions.Inv(a) && Versions.Next(a, b)
    ensures Publishes(Link(a.rows, gw, wire), Link(b.rows, gw, wire))
  {
    hide Versions.Next, Versions.CallInv;
    Versions.NextKeepsInv(a, b);
    Versions.NextKeepsRows(a, b);
  }
}
