/**
 * internal/upstream/cache.go: the sharded cache with a janitor. The claim is
 * that nobody can tell it from one map that is never swept: expired entries
 * are already invisible when the janitor takes them.
 */
module StepCache {
  import opened Wrappers

  const NUM_SHARDS := 16

  datatype Response = Response(status: int, headers: map<string, seq<string>>, body: string)

  /** expires is a point in time; the entry is gone once now is after it. */
  datatype CacheEntry = CacheEntry(response: Response, expires: int)

  type Entries = map<string, CacheEntry>

  function HashOf(key: string): nat {
    if key == "" then 0 else (HashOf(key[..|key| - 1]) * 31 + key[|key| - 1] as int) % 0x1_0000_0000
  }

  function Shard(key: string): (i: nat)
    ensures i < NUM_SHARDS
  {
    HashOf(key) % NUM_SHARDS
  }

  function Visible(entries: Entries, key: string, now: int): Option<Response> {
    if key in entries && now <= entries[key].expires then Some(entries[key].response) else None
  }

  function Swept(entries: Entries, now: int): Entries {
    map k | k in entries && now <= entries[k].expires :: entries[k]
  }

  // ----- The cache -----

  class Cache {
    const shards: array<Entries>

    predicate Valid()
      reads this
    {
      shards.Length == NUM_SHARDS
    }

    constructor ()
      ensures Valid() && fresh(shards) && shards[..] == Empty()
    {
      shards := new Entries[NUM_SHARDS](_ => map[]);
      new;
      assert shards[..] == Empty();
    }

    method ShardOf(key: string) returns (i: nat)
      ensures i == Shard(key) && i < NUM_SHARDS
    {
      var h := 0;
      for j := 0 to |key|
        invariant h == HashOf(key[..j])
      {
        assert key[..j + 1][..j] == key[..j];
        h := (h * 31 + key[j] as int) % 0x1_0000_0000;
      }
      assert key[..|key|] == key;
      i := h % NUM_SHARDS;
    }

    method Get(key: string, now: int) returns (r: Option<Response>)
      requires Valid()
      ensures r == GetFrom(shards[..], key, now)
      ensures r.Some? <==> key in shards[Shard(key)] && now <= shards[Shard(key)][key].expires
      ensures r.Some? ==> r.value == shards[Shard(key)][key].response
    {
      var i := ShardOf(key);
      if key !in shards[i] || now > shards[i][key].expires {
        return None;
      }
      return Some(shards[i][key].response);
    }

    method Set(key: string, response: Response, ttl: int, now: int)
      requires Valid()
      modifies shards
      ensures shards[..] == SetIn(old(shards[..]), key, response, ttl, now)
      ensures forall i, k :: 0 <= i < NUM_SHARDS && (i != Shard(key) || k != key) ==>
                (k in shards[i] <==> k in old(shards[i])) && (k in shards[i] ==> shards[i][k] == old(shards[i])[k])
      ensures key in shards[Shard(key)] && shards[Shard(key)][key] == CacheEntry(response, now + ttl)
    {
      var i := ShardOf(key);
      shards[i] := shards[i][key := CacheEntry(response, now + ttl)];
    }

    /** What the janitor does under one shard's lock; now is when the sweep began. */
    method SweepShard(i: nat, now: int)
      requires Valid() && i < NUM_SHARDS
      modifies shards
      ensures shards[..] == SweepIn(old(shards[..]), i, now)
      ensures forall k :: k in shards[i] <==> k in old(shards[i]) && now <= old(shards[i])[k].expires
      ensures forall k :: k in shards[i] ==> shards[i][k] == old(shards[i])[k]
      ensures forall j :: 0 <= j < NUM_SHARDS && j != i ==> shards[j] == old(shards[j])
    {
      var rest := shards[i].Keys;
      while rest != {}
        invariant rest <= old(shards[i]).Keys && shards[..] == old(shards[..])[i := shards[i]]
        invariant forall k :: k in shards[i] <==>
                    k in old(shards[i]) && (k in rest || now <= old(shards[i])[k].expires)
        invariant forall k :: k in shards[i] ==> shards[i][k] == old(shards[i])[k]
      {
        var k :| k in rest;
        if now > shards[i][k].expires {
          shards[i] := shards[i] - {k};
        }
        rest := rest - {k};
      }
      assert shards[i] == Swept(old(shards[i]), now);
    }
  }

  // ----- What any run of it shows -----

  type Shards = s: seq<Entries> | |s| == NUM_SHARDS witness Empty()

  function Empty(): seq<Entries> {
    seq(NUM_SHARDS, _ => map[])
  }

  function GetFrom(shards: Shards, key: string, now: int): Option<Response> {
    Visible(shards[Shard(key)], key, now)
  }

  function SetIn(shards: Shards, key: string, response: Response, ttl: int, now: int): Shards {
    shards[Shard(key) := shards[Shard(key)][key := CacheEntry(response, now + ttl)]]
  }

  function SweepIn(shards: Shards, i: nat, now: int): Shards
    requires i < NUM_SHARDS
  {
    shards[i := Swept(shards[i], now)]
  }

  datatype Op =
    | OpGet(key: string, now: int)
    | OpSet(key: string, response: Response, ttl: int, now: int)
    | OpSweep(shard: nat, now: int)

  function Step(shards: Shards, op: Op): Shards {
    match op
    case OpGet(_, _) => shards
    case OpSet(key, response, ttl, now) => SetIn(shards, key, response, ttl, now)
    case OpSweep(i, now) => if i < NUM_SHARDS then SweepIn(shards, i, now) else shards
  }

  /** The shards after the first n operations on an empty cache. */
  function StateAfter(ops: seq<Op>, n: nat): Shards
    requires n <= |ops|
  {
    if n == 0 then Empty() else Step(StateAfter(ops, n - 1), ops[n - 1])
  }

  /** Operation m is the last of the first n that sets the key. */
  ghost predicate LastSet(ops: seq<Op>, n: nat, m: nat, key: string)
    requires n <= |ops|
  {
    && m < n && ops[m].OpSet? && ops[m].key == key
    && forall i :: m < i < n ==> !(ops[i].OpSet? && ops[i].key == key)
  }

  ghost predicate NeverSet(ops: seq<Op>, n: nat, key: string)
    requires n <= |ops|
  {
    forall i :: 0 <= i < n ==> !(ops[i].OpSet? && ops[i].key == key)
  }

  /** The key's shard holds what the last Set of the key stored, or that is past by time t. */
  lemma {:induction false} HoldsLastSet(ops: seq<Op>, n: nat, m: nat, key: string, t: int)
    requires n <= |ops| && forall i :: 0 <= i < n ==> ops[i].now <= t
    ensures NeverSet(ops, n, key) ==> key !in StateAfter(ops, n)[Shard(key)]
    ensures LastSet(ops, n, m, key) ==>
              var entries, expires := StateAfter(ops, n)[Shard(key)], ops[m].now + ops[m].ttl;
              if key in entries then entries[key] == CacheEntry(ops[m].response, expires) else expires < t
  {
    if n > 0 { HoldsLastSet(ops, n - 1, m, key, t); }
  }

  /**
   * A Get answers what the last Set of its key stored, until the time to live
   * after that Set has passed; whatever else has been set, read or swept.
   */
  lemma GetAnswersLastSet(ops: seq<Op>, n: nat, m: nat)
    requires n < |ops| && ops[n].OpGet? && forall i :: 0 <= i < n ==> ops[i].now <= ops[n].now
    ensures NeverSet(ops, n, ops[n].key) ==> GetFrom(StateAfter(ops, n), ops[n].key, ops[n].now) == None
    ensures LastSet(ops, n, m, ops[n].key) ==>
              GetFrom(StateAfter(ops, n), ops[n].key, ops[n].now) ==
              if ops[n].now <= ops[m].now + ops[m].ttl then Some(ops[m].response) else None
  {
    HoldsLastSet(ops, n, m, ops[n].key, ops[n].now);
    hide StateAfter, Shard;
  }

  /** One map, never swept. */
  function PlainStep(plain: Entries, op: Op): Entries {
    match op
    case OpSet(key, response, ttl, now) => plain[key := CacheEntry(response, now + ttl)]
    case _ => plain
  }

  function Answers(shards: Shards, ops: seq<Op>): seq<Option<Response>>
    decreases |ops|
  {
    if ops == [] then []
    else
      (if ops[0].OpGet? then [GetFrom(shards, ops[0].key, ops[0].now)] else [])
      + Answers(Step(shards, ops[0]), ops[1..])
  }

  function PlainAnswers(plain: Entries, ops: seq<Op>): seq<Option<Response>>
    decreases |ops|
  {
    if ops == [] then []
    else
      (if ops[0].OpGet? then [Visible(plain, ops[0].key, ops[0].now)] else [])
      + PlainAnswers(PlainStep(plain, ops[0]), ops[1..])
  }

  /** Reads happen at times that do not go back; a sweep may use an older reading of the clock. */
  ghost predicate ClockMonotone(ops: seq<Op>, clock: int) {
    ops == [] ||
    (if ops[0].OpSweep? then ops[0].now <= clock && ClockMonotone(ops[1..], clock)
     else clock <= ops[0].now && ClockMonotone(ops[1..], ops[0].now))
  }

  /** The shards hold the plain map, but for entries that are past at clock. */
  ghost predicate Represents(shards: Shards, plain: Entries, clock: int) {
    forall key :: Agrees(shards[Shard(key)], plain, clock, key)
  }

  ghost predicate Agrees(entries: Entries, plain: Entries, clock: int, key: string) {
    if key in entries then key in plain && entries[key] == plain[key]
    else key in plain ==> plain[key].expires < clock
  }

  lemma StepRepresents(shards: Shards, plain: Entries, clock: int, op: Op)
    requires Represents(shards, plain, clock)
    requires if op.OpSweep? then op.now <= clock else clock <= op.now
    ensures Represents(Step(shards, op), PlainStep(plain, op), if op.OpSweep? then clock else op.now)
  {
    var after := Step(shards, op);
    forall key ensures Agrees(after[Shard(key)], PlainStep(plain, op), if op.OpSweep? then clock else op.now, key) {
      assert Agrees(shards[Shard(key)], plain, clock, key);
    }
  }

  /** Under a monotone clock no sequence of reads, writes and sweeps tells the cache from the plain map. */
  lemma {:induction false} SweepsAreInvisible(shards: Shards, plain: Entries, clock: int, ops: seq<Op>)
    requires Represents(shards, plain, clock) && ClockMonotone(ops, clock)
    ensures Answers(shards, ops) == PlainAnswers(plain, ops)
    decreases |ops|
  {
    if ops != [] {
      var op := ops[0];
      StepRepresents(shards, plain, clock, op);
      if op.OpGet? {
        assert Agrees(shards[Shard(op.key)], plain, clock, op.key);
      }
      SweepsAreInvisible(Step(shards, op), PlainStep(plain, op), if op.OpSweep? then clock else op.now, ops[1..]);
    }
  }

  /** From the empty cache on. */
  lemma CacheIsPlainMap(ops: seq<Op>, clock: int)
    requires ClockMonotone(ops, clock)
    ensures Answers(Empty(), ops) == PlainAnswers(map[], ops)
  {
    forall key ensures Agrees(Empty()[Shard(key)], map[], clock, key) {}
    SweepsAreInvisible(Empty(), map[], clock, ops);
  }

  /** A clock that goes back tells them apart: the sweep has taken an entry a later, earlier read would see. */
  lemma BackwardClockDiffers(response: Response)
    ensures var ops := [OpSet("", response, 5, 0), OpSweep(0, 6), OpGet("", 5)];
            Answers(Empty(), ops) == [None] && PlainAnswers(map[], ops) == [Some(response)]
  {
    var ops := [OpSet("", response, 5, 0), OpSweep(0, 6), OpGet("", 5)];
    var s1 := Step(Empty(), ops[0]);
    var s2 := Step(s1, ops[1]);
    assert Shard("") == 0;
    assert "" !in s2[0];
    assert ops[1..] == [OpSweep(0, 6), OpGet("", 5)] && ops[1..][1..] == [OpGet("", 5)];
    assert Answers(s2, [OpGet("", 5)]) == [None];
    assert Answers(s1, ops[1..]) == [None];
    var p1 := PlainStep(map[], ops[0]);
    assert PlainAnswers(p1, [OpGet("", 5)]) == [Some(response)];
    assert PlainAnswers(p1, ops[1..]) == [Some(response)];
  }
}
