/**
 * Usage delivery: UsagePusher.Push (internal/hotreload/usage.go) and storeUsage
 * (internal/studio/usage.go). A push may be lost, its acknowledgement may be
 * lost, and it may arrive long after the gateway gave up on it; a bucket gets
 * two chances and the store is keyed so that a second arrival changes nothing.
 */
module Usage {
  import opened Wrappers
  import opened Accumulator

  /** A gateway instance of an environment. */
  datatype Source = Source(env: string, instance: string)

  datatype Push = Push(source: Source, buckets: seq<Bucket>)

  datatype RowKey = RowKey(source: Source, minute: int, composition: string)

  type Store = map<RowKey, Bucket>

  function KeyOf(source: Source, b: Bucket): RowKey {
    RowKey(source, b.minute, b.composition)
  }

  /** The upserts of storeUsage; a bucket without requests is skipped. */
  function Upserted(store: Store, push: Push): Store
    decreases |push.buckets|
  {
    if push.buckets == [] then store
    else
      var n := |push.buckets| - 1;
      var before := Upserted(store, push.(buckets := push.buckets[..n]));
      var b := push.buckets[n];
      if b.requests == 0 then before else before[KeyOf(push.source, b) := b]
  }

  /** The retention sweep of one environment. */
  function Retained(store: Store, env: string, cutoff: int): Store {
    map k | k in store && !(k.source.env == env && k.minute < cutoff) :: store[k]
  }

  /** Bucket i is the last one of the push that is not empty and has this key. */
  ghost predicate LastInPush(push: Push, k: RowKey, i: int) {
    && 0 <= i < |push.buckets| && push.buckets[i].requests > 0 && KeyOf(push.source, push.buckets[i]) == k
    && forall j :: i < j < |push.buckets| ==> push.buckets[j].requests == 0 || KeyOf(push.source, push.buckets[j]) != k
  }

  /** row is the last bucket of the push for the key, or what the store held when there is none. */
  ghost predicate IsRowAfter(before: Store, push: Push, k: RowKey, row: Bucket) {
    && (forall i :: LastInPush(push, k, i) ==> row == push.buckets[i])
    && ((forall i :: !LastInPush(push, k, i)) ==> k in before && row == before[k])
  }

  lemma {:induction false} UpsertedRow(store: Store, push: Push, k: RowKey)
    ensures k in Upserted(store, push) ==> IsRowAfter(store, push, k, Upserted(store, push)[k])
    decreases |push.buckets|
  {
    if push.buckets != [] {
      var n := |push.buckets| - 1;
      var b, init := push.buckets[n], push.(buckets := push.buckets[..n]);
      UpsertedRow(store, init, k);
      if b.requests > 0 && KeyOf(push.source, b) == k {
        assert LastInPush(push, k, n);
      } else {
        forall i ensures LastInPush(push, k, i) <==> LastInPush(init, k, i) {
          assert forall j :: 0 <= j < n ==> init.buckets[j] == push.buckets[j];
        }
      }
    }
  }

  lemma {:induction false} UpsertKeys(store: Store, push: Push)
    ensures forall k :: k in Upserted(store, push) <==>
              k in store || exists b :: b in push.buckets && b.requests > 0 && k == KeyOf(push.source, b)
    decreases |push.buckets|
  {
    if push.buckets != [] {
      var n := |push.buckets| - 1;
      UpsertKeys(store, push.(buckets := push.buckets[..n]));
      assert push.buckets == push.buckets[..n] + [push.buckets[n]];
    }
  }

  class UsageStore {
    var rows: Store
    /** The last breaker states each instance has reported. */
    var breakers: map<Source, map<string, string>>

    constructor ()
      ensures rows == map[] && breakers == map[]
    {
      rows, breakers := map[], map[];
    }

    /** storeUsage; states are the breaker states of the push, if it carries any. */
    method StoreUsage(push: Push, states: Option<map<string, string>>, cutoff: int)
      modifies this
      ensures rows == Retained(Upserted(old(rows), push), push.source.env, cutoff)
      ensures breakers == if states.Some? then old(breakers)[push.source := states.value] else old(breakers)
      ensures forall k :: k in rows <==>
                && !(k.source.env == push.source.env && k.minute < cutoff)
                && (k in old(rows) || exists b :: b in push.buckets && b.requests > 0 && k == KeyOf(push.source, b))
      ensures forall k :: k in rows ==> IsRowAfter(old(rows), push, k, rows[k])
    {
      UpsertKeys(rows, push);
      forall k ensures k in Upserted(rows, push) ==> IsRowAfter(rows, push, k, Upserted(rows, push)[k]) {
        UpsertedRow(rows, push, k);
      }
      hide IsRowAfter, KeyOf;
      for i := 0 to |push.buckets|
        invariant rows == Upserted(old(rows), push.(buckets := push.buckets[..i])) && breakers == old(breakers)
      {
        assert push.buckets[..i + 1][..i] == push.buckets[..i];
        var b := push.buckets[i];
        if b.requests == 0 {
          continue;
        }
        rows := rows[KeyOf(push.source, b) := b];
      }
      assert push.buckets[..|push.buckets|] == push.buckets;
      if states.Some? {
        breakers := breakers[push.source := states.value];
      }
      rows := Retained(rows, push.source.env, cutoff);
    }
  }

  // ----- The pusher -----

  class UsagePusher {
    var pending: seq<Bucket>
    var dropped: nat

    constructor ()
      ensures pending == [] && dropped == 0
    {
      pending, dropped := [], 0;
    }

    /** Push: flush, send with what is left over; acknowledged says how SendUsage ends. */
    method Push(acc: Accumulator, now: int, acknowledged: bool) returns (sent: seq<Bucket>)
      requires acc.Valid()
      modifies this, acc
      ensures acc.Valid() && acc.window == []
      ensures exists flushed :: OneFlush(flushed, old(acc.start) / 60, old(acc.window)) && sent == old(pending) + flushed
                && pending == (if acknowledged then [] else flushed)
      ensures dropped == old(dropped) + if acknowledged then 0 else |old(pending)|
    {
      var flushed := acc.Flush(now);
      sent := pending + flushed;
      if !acknowledged {
        if |pending| > 0 {
          dropped := dropped + |pending|;
        }
        pending := flushed;
        return;
      }
      pending := [];
    }
  }

  // ----- All instances and the network -----

  /** One instance; the last three fields only record what has happened. */
  datatype Pusher = Pusher(
    window: int,
    pending: seq<Bucket>,
    dropped: nat,
    flushed: seq<Bucket>,
    acked: multiset<Bucket>,
    lost: multiset<Bucket>,
    sends: multiset<Bucket>)

  datatype State = State(pushers: map<Source, Pusher>, network: set<Push>, store: Store, cutoffs: map<string, int>)

  /** The buckets of one flush: its window's minute, different compositions. */
  ghost predicate FlushOf(buckets: seq<Bucket>, minute: int) {
    && (forall i :: 0 <= i < |buckets| ==> buckets[i].minute == minute)
    && forall i, j :: 0 <= i < j < |buckets| ==> buckets[i].composition != buckets[j].composition
  }

  /** The accumulator's flushes are such, exactly when no request came to a composition with the empty name. */
  lemma FlushesAreDistinct(buckets: seq<Bucket>, minute: int, recs: seq<Rec>)
    requires OneFlush(buckets, minute, recs)
    ensures FlushOf(buckets, minute) <==> forall r :: r in recs ==> r.composition != ""
  {
    hide Reports;
    if r :| r in recs && r.composition == "" {
      var i :| 0 < i < |buckets| && buckets[i].composition == r.composition;
      assert buckets[0].composition == buckets[i].composition;
    } else {
      forall i | 0 < i < |buckets| ensures buckets[i].composition != "" {
        NamedByARecord(recs, buckets[i].composition);
      }
    }
  }

  lemma {:induction false} NamedByARecord(recs: seq<Rec>, composition: string)
    requires Of(recs, composition) != []
    ensures exists r :: r in recs && r.composition == composition
  {
    var n := |recs| - 1;
    assert recs == recs[..n] + [recs[n]];
    if recs[n].composition == composition {
      assert recs[n] in recs;
    } else {
      NamedByARecord(recs[..n], composition);
      var r :| r in recs[..n] && r.composition == composition;
      assert r in recs;
    }
  }

  function Pushed(p: Pusher, flushed: seq<Bucket>, window: int, acknowledged: bool): Pusher {
    var batch := p.pending + flushed;
    Pusher(window,
           if acknowledged then [] else flushed,
           p.dropped + if acknowledged then 0 else |p.pending|,
           p.flushed + flushed,
           p.acked + if acknowledged then multiset(batch) else multiset{},
           p.lost + if acknowledged then multiset{} else multiset(p.pending),
           p.sends + multiset(batch))
  }

  ghost predicate Starts(a: State, b: State, source: Source, window: int) {
    && source !in a.pushers
    && b == a.(pushers := a.pushers[source := Pusher(window, [], 0, [], multiset{}, multiset{}, multiset{})])
  }

  /**
   * One push. An acknowledged one has been stored; of any other the gateway
   * knows nothing. The next window opens no earlier, but perhaps in the same
   * minute: the ticker may be late once and on time the next time.
   */
  ghost predicate Pushes(a: State, b: State, source: Source, flushed: seq<Bucket>, window: int, acknowledged: bool) {
    && source in a.pushers
    && var p := a.pushers[source];
       var push := Push(source, p.pending + flushed);
       && FlushOf(flushed, p.window) && p.window <= window
       && b == a.(pushers := a.pushers[source := Pushed(p, flushed, window, acknowledged)],
                  network := a.network + {push},
                  store := if acknowledged then Upserted(a.store, push) else a.store)
  }

  /** Any push ever sent may arrive, at any time and more than once. */
  ghost predicate Arrives(a: State, b: State, push: Push) {
    push in a.network && b == a.(store := Upserted(a.store, push))
  }

  /** The latest cutoff an environment has seen. */
  function Greatest(cutoffs: map<string, int>, env: string, cutoff: int): int {
    if env in cutoffs && cutoffs[env] > cutoff then cutoffs[env] else cutoff
  }

  /** A sweep may use an earlier cutoff than the last one: the retention can be raised. */
  ghost predicate Sweeps(a: State, b: State, env: string, cutoff: int) {
    b == a.(store := Retained(a.store, env, cutoff), cutoffs := a.cutoffs[env := Greatest(a.cutoffs, env, cutoff)])
  }

  ghost predicate Next(a: State, b: State) {
    || (exists source, window :: Starts(a, b, source, window))
    || (exists source, flushed, window, acknowledged :: Pushes(a, b, source, flushed, window, acknowledged))
    || (exists push :: Arrives(a, b, push))
    || (exists env, cutoff :: Sweeps(a, b, env, cutoff))
  }

  ghost predicate Run(run: seq<State>) {
    && run != [] && run[0] == State(map[], {}, map[], map[])
    && forall i :: 0 <= i < |run| - 1 ==> Next(run[i], run[i + 1])
  }

  // ----- One instance's books -----

  /** Every flushed bucket is acknowledged, lost or pending, and none was sent more than twice. */
  ghost predicate Balanced(p: Pusher) {
    && multiset(p.flushed) == p.acked + p.lost + multiset(p.pending)
    && p.dropped == |p.lost|
    && forall b :: p.sends[b] <= 2 * p.acked[b] + 2 * p.lost[b] + multiset(p.pending)[b]
  }

  lemma PushKeepsBalance(p: Pusher, flushed: seq<Bucket>, window: int, acknowledged: bool)
    requires Balanced(p)
    ensures Balanced(Pushed(p, flushed, window, acknowledged))
  {
    var q := Pushed(p, flushed, window, acknowledged);
    assert multiset(p.pending + flushed) == multiset(p.pending) + multiset(flushed);
    assert multiset(p.flushed + flushed) == multiset(p.flushed) + multiset(flushed);
  }

  /** The keys of all flushed buckets differ. */
  ghost predicate KeysDiffer(p: Pusher) {
    forall i, j :: 0 <= i < j < |p.flushed| ==>
      (p.flushed[i].minute, p.flushed[i].composition) != (p.flushed[j].minute, p.flushed[j].composition)
  }

  /** They do, and their minutes are behind the window. */
  ghost predicate DistinctKeys(p: Pusher) {
    (forall i :: 0 <= i < |p.flushed| ==> p.flushed[i].minute < p.window) && KeysDiffer(p)
  }

  lemma PushKeepsKeysDistinct(p: Pusher, flushed: seq<Bucket>, window: int, acknowledged: bool)
    requires DistinctKeys(p) && FlushOf(flushed, p.window) && p.window < window
    ensures DistinctKeys(Pushed(p, flushed, window, acknowledged))
  {
  }

  lemma SameKeySameBucket(p: Pusher, b: Bucket, c: Bucket)
    requires KeysDiffer(p) && b in p.flushed && c in p.flushed
    requires b.minute == c.minute && b.composition == c.composition
    ensures b == c
  {
  }

  // ----- The store -----

  /** Everything on the wire was flushed by its source. */
  ghost predicate SentWasFlushed(st: State) {
    forall push :: push in st.network ==>
      push.source in st.pushers && forall b :: b in push.buckets ==> b in st.pushers[push.source].flushed
  }

  /** A row is the bucket its source flushed under its key. */
  ghost predicate RowRight(st: State, k: RowKey, row: Bucket) {
    && k.source in st.pushers && row in st.pushers[k.source].flushed
    && k == KeyOf(k.source, row) && row.requests > 0
  }

  ghost predicate StoreRight(st: State) {
    forall k :: k in st.store ==> RowRight(st, k, st.store[k])
  }

  /** An acknowledged bucket is stored until its retention ends. */
  ghost predicate AckedStored(st: State) {
    forall source, b :: source in st.pushers && b in st.pushers[source].acked && b.requests > 0 ==>
      Kept(st, source, b)
  }

  ghost predicate Kept(st: State, source: Source, b: Bucket) {
    KeyOf(source, b) in st.store || (source.env in st.cutoffs && b.minute < st.cutoffs[source.env])
  }

  ghost predicate PushersRight(st: State) {
    forall source :: source in st.pushers ==>
      var p := st.pushers[source];
      Balanced(p) && forall b :: b in p.pending ==> b in p.flushed
  }

  ghost predicate Inv(st: State) {
    PushersRight(st) && SentWasFlushed(st) && StoreRight(st) && AckedStored(st)
  }

  lemma UpsertRows(store: Store, push: Push)
    ensures forall k :: k in Upserted(store, push) ==>
              (k in store && Upserted(store, push)[k] == store[k]) ||
              exists b :: b in push.buckets && b.requests > 0 && k == KeyOf(push.source, b) && Upserted(store, push)[k] == b
    ensures forall k :: k in store ==> k in Upserted(store, push)
    ensures forall b :: b in push.buckets && b.requests > 0 ==> KeyOf(push.source, b) in Upserted(store, push)
  {
    UpsertKeys(store, push);
    forall k | k in Upserted(store, push)
      ensures (k in store && Upserted(store, push)[k] == store[k]) ||
              exists b :: b in push.buckets && b.requests > 0 && k == KeyOf(push.source, b) && Upserted(store, push)[k] == b
    {
      UpsertedAt(store, push, k);
      LastForIsIn(push.source, push.buckets, k);
    }
  }

  lemma {:induction false} LastForIsIn(source: Source, buckets: seq<Bucket>, k: RowKey)
    ensures var last := LastFor(source, buckets, k);
            last.Some? ==> last.value in buckets && last.value.requests > 0 && KeyOf(source, last.value) == k
    decreases |buckets|
  {
    if buckets != [] {
      LastForIsIn(source, buckets[..|buckets| - 1], k);
    }
  }

  /** An arriving push leaves every row right. */
  lemma ArrivalKeepsRows(st: State, push: Push)
    requires Inv(st) && push.source in st.pushers
    requires forall b :: b in push.buckets ==> b in st.pushers[push.source].flushed
    ensures StoreRight(st.(store := Upserted(st.store, push)))
    ensures AckedStored(st.(store := Upserted(st.store, push)))
  {
    hide Balanced, DistinctKeys;
    UpsertRows(st.store, push);
    var after := st.(store := Upserted(st.store, push));
    forall k | k in after.store ensures RowRight(after, k, after.store[k]) {
      if k in st.store && after.store[k] == st.store[k] {
        assert RowRight(st, k, st.store[k]);
      }
    }
    forall source, b | source in st.pushers && b in st.pushers[source].acked && b.requests > 0
      ensures Kept(after, source, b)
    {
      assert Kept(st, source, b);
    }
  }

  lemma StartKeepsInv(a: State, b: State, source: Source, window: int)
    requires Inv(a) && Starts(a, b, source, window)
    ensures Inv(b)
  {
    hide Balanced, DistinctKeys;
    assert Balanced(b.pushers[source]) by {
      NewPusherRight(window);
    }
    forall k | k in b.store ensures RowRight(b, k, b.store[k]) {
      assert RowRight(a, k, a.store[k]);
    }
    forall s, x | s in b.pushers && x in b.pushers[s].acked && x.requests > 0 ensures Kept(b, s, x) {
      assert Kept(a, s, x);
    }
  }

  lemma NewPusherRight(window: int)
    ensures var p := Pusher(window, [], 0, [], multiset{}, multiset{}, multiset{});
            Balanced(p) && DistinctKeys(p)
  {
  }

  lemma PushKeepsPushers(a: State, b: State, source: Source, flushed: seq<Bucket>, window: int, acknowledged: bool)
    requires PushersRight(a) && Pushes(a, b, source, flushed, window, acknowledged)
    ensures PushersRight(b)
  {
    hide Balanced;
    PushKeepsBalance(a.pushers[source], flushed, window, acknowledged);
  }

  lemma PushKeepsNetwork(a: State, b: State, source: Source, flushed: seq<Bucket>, window: int, acknowledged: bool)
    requires PushersRight(a) && SentWasFlushed(a) && Pushes(a, b, source, flushed, window, acknowledged)
    ensures SentWasFlushed(b)
  {
    hide Balanced, DistinctKeys;
    var p := a.pushers[source];
    forall x | x in p.pending + flushed ensures x in b.pushers[source].flushed {
      assert x in p.pending ==> x in p.flushed;
    }
  }

  lemma PushKeepsStore(a: State, b: State, source: Source, flushed: seq<Bucket>, window: int, acknowledged: bool)
    requires StoreRight(a) && SentWasFlushed(b) && Pushes(a, b, source, flushed, window, acknowledged)
    ensures StoreRight(b)
  {
    var push := Push(source, a.pushers[source].pending + flushed);
    assert push in b.network;
    forall k | k in b.store ensures RowRight(b, k, b.store[k]) {
      RowAfterPush(a, b, source, push, acknowledged, k);
    }
  }

  lemma PushKeepsAcked(a: State, b: State, source: Source, flushed: seq<Bucket>, window: int, acknowledged: bool)
    requires AckedStored(a) && Pushes(a, b, source, flushed, window, acknowledged)
    ensures AckedStored(b)
  {
    var push := Push(source, a.pushers[source].pending + flushed);
    forall s, x | s in b.pushers && x in b.pushers[s].acked && x.requests > 0 ensures Kept(b, s, x) {
      AckAfterPush(a, b, source, push, acknowledged, s, x);
    }
  }

  lemma PushKeepsInv(a: State, b: State, source: Source, flushed: seq<Bucket>, window: int, acknowledged: bool)
    requires Inv(a) && Pushes(a, b, source, flushed, window, acknowledged)
    ensures Inv(b)
  {
    hide PushersRight, SentWasFlushed, StoreRight, AckedStored, Pushes;
    PushKeepsPushers(a, b, source, flushed, window, acknowledged);
    PushKeepsNetwork(a, b, source, flushed, window, acknowledged);
    PushKeepsStore(a, b, source, flushed, window, acknowledged);
    PushKeepsAcked(a, b, source, flushed, window, acknowledged);
  }

  lemma RowAfterPush(a: State, b: State, source: Source, push: Push, acknowledged: bool, k: RowKey)
    requires StoreRight(a) && source in a.pushers && source in b.pushers && push.source == source
    requires b.store == if acknowledged then Upserted(a.store, push) else a.store
    requires forall s :: s in a.pushers ==> s in b.pushers && forall x :: x in a.pushers[s].flushed ==> x in b.pushers[s].flushed
    requires forall x :: x in push.buckets ==> x in b.pushers[source].flushed
    requires k in b.store
    ensures RowRight(b, k, b.store[k])
  {
    UpsertRows(a.store, push);
    if k in a.store && b.store[k] == a.store[k] {
      assert RowRight(a, k, a.store[k]);
    }
  }

  lemma AckAfterPush(a: State, b: State, source: Source, push: Push, acknowledged: bool, s: Source, x: Bucket)
    requires AckedStored(a) && source in a.pushers && push.source == source && b.cutoffs == a.cutoffs
    requires b.store == if acknowledged then Upserted(a.store, push) else a.store
    requires s in a.pushers && s in b.pushers && x in b.pushers[s].acked && x.requests > 0
    requires b.pushers[s].acked ==
               if s == source && acknowledged then a.pushers[s].acked + multiset(push.buckets) else a.pushers[s].acked
    ensures Kept(b, s, x)
  {
    UpsertRows(a.store, push);
    if x in a.pushers[s].acked {
      assert Kept(a, s, x);
    } else {
      assert x in push.buckets;
    }
  }

  lemma SweepKeepsInv(a: State, b: State, env: string, cutoff: int)
    requires Inv(a) && Sweeps(a, b, env, cutoff)
    ensures Inv(b)
  {
    hide Balanced, DistinctKeys;
    forall k | k in b.store ensures RowRight(b, k, b.store[k]) {
      assert RowRight(a, k, a.store[k]);
    }
    forall s, x | s in b.pushers && x in b.pushers[s].acked && x.requests > 0 ensures Kept(b, s, x) {
      assert Kept(a, s, x);
    }
  }

  lemma NextKeepsInv(a: State, b: State)
    requires Inv(a) && Next(a, b)
    ensures Inv(b)
  {
    if source, window :| Starts(a, b, source, window) {
      StartKeepsInv(a, b, source, window);
    } else if source, flushed, window, acknowledged :| Pushes(a, b, source, flushed, window, acknowledged) {
      PushKeepsInv(a, b, source, flushed, window, acknowledged);
    } else if push :| Arrives(a, b, push) {
      ArrivalKeepsRows(a, push);
    } else {
      var env, cutoff :| Sweeps(a, b, env, cutoff);
      SweepKeepsInv(a, b, env, cutoff);
    }
  }

  lemma {:induction false} RunHasInv(run: seq<State>, n: nat)
    requires Run(run) && n < |run|
    ensures Inv(run[n])
  {
    hide Inv;
    if n == 0 {
      StartInv();
    } else {
      RunHasInv(run, n - 1);
      assert Next(run[n - 1], run[n - 1 + 1]);
      NextKeepsInv(run[n - 1], run[n]);
    }
  }

  lemma StartInv()
    ensures Inv(State(map[], {}, map[], map[]))
  {
  }

  // ----- The claims -----

  /** The source's windows open in different minutes. */
  ghost predicate DistinctWindows(run: seq<State>, source: Source) {
    forall i :: 0 <= i < |run| - 1 ==> WindowMoves(run[i], run[i + 1], source)
  }

  ghost predicate WindowMoves(a: State, b: State, source: Source) {
    source in a.pushers && source in b.pushers && a.pushers[source] != b.pushers[source] ==>
      a.pushers[source].window < b.pushers[source].window
  }

  /** Then no two of its buckets share a key. */
  lemma {:induction false} DistinctWindowsDistinctKeys(run: seq<State>, n: nat, source: Source)
    requires Run(run) && DistinctWindows(run, source) && n < |run| && source in run[n].pushers
    ensures DistinctKeys(run[n].pushers[source])
  {
    hide DistinctKeys;
    if n > 0 {
      var a, b := run[n - 1], run[n - 1 + 1];
      assert Next(a, b) && WindowMoves(a, b, source);
      if source in a.pushers { DistinctWindowsDistinctKeys(run, n - 1, source); }
      KeysStayDistinct(a, b, source);
    }
  }

  lemma KeysStayDistinct(a: State, b: State, source: Source)
    requires Next(a, b) && WindowMoves(a, b, source) && source in b.pushers
    requires source in a.pushers ==> DistinctKeys(a.pushers[source])
    ensures DistinctKeys(b.pushers[source])
  {
    hide DistinctKeys, FlushOf;
    if s, window :| Starts(a, b, s, window) {
      NewPusherRight(window);
    } else if s, flushed, window, acknowledged :| Pushes(a, b, s, flushed, window, acknowledged) {
      if s == source && b.pushers[source] != a.pushers[source] {
        PushKeepsKeysDistinct(a.pushers[source], flushed, window, acknowledged);
      }
    }
  }

  /**
   * Conservation: a flushed bucket is acknowledged, counted dropped or pending,
   * and was sent at most twice for each time it was flushed, which is once when
   * keys differ.
   */
  lemma DeliveryIsAccounted(run: seq<State>, n: nat, source: Source)
    requires Run(run) && n < |run| && source in run[n].pushers
    ensures var p := run[n].pushers[source];
            && multiset(p.flushed) == p.acked + p.lost + multiset(p.pending)
            && p.dropped == |p.lost|
            && (forall b :: p.sends[b] <= 2 * multiset(p.flushed)[b])
            && (KeysDiffer(p) ==> forall b :: 2 * multiset(p.flushed)[b] <= 2)
  {
    RunHasInv(run, n);
    var p := run[n].pushers[source];
    assert Balanced(p);
    if KeysDiffer(p) {
      forall b ensures multiset(p.flushed)[b] <= 1 {
        AtMostOnce(p.flushed, b);
      }
    }
  }

  lemma {:induction false} AtMostOnce(xs: seq<Bucket>, b: Bucket)
    requires forall i, j :: 0 <= i < j < |xs| ==> (xs[i].minute, xs[i].composition) != (xs[j].minute, xs[j].composition)
    ensures multiset(xs)[b] <= 1
  {
    if xs != [] {
      var n := |xs| - 1;
      AtMostOnce(xs[..n], b);
      assert xs == xs[..n] + [xs[n]];
      if xs[n] == b {
        assert b !in xs[..n];
      }
    }
  }

  /** A stored row is a flushed bucket with its key, and the only one when keys differ: no arrival counts twice. */
  lemma StoredRowIsTheBucket(run: seq<State>, n: nat, k: RowKey)
    requires Run(run) && n < |run| && k in run[n].store
    ensures k.source in run[n].pushers && run[n].store[k] in run[n].pushers[k.source].flushed && KeyOf(k.source, run[n].store[k]) == k
    ensures KeysDiffer(run[n].pushers[k.source]) ==> forall b :: b in run[n].pushers[k.source].flushed && KeyOf(k.source, b) == k ==> b == run[n].store[k]
  {
    RunHasInv(run, n);
    var st := run[n];
    assert RowRight(st, k, st.store[k]);
    forall b | KeysDiffer(st.pushers[k.source]) && b in st.pushers[k.source].flushed && KeyOf(k.source, b) == k
      ensures b == st.store[k]
    {
      SameKeySameBucket(st.pushers[k.source], b, st.store[k]);
    }
  }

  /** When keys differ, an acknowledged bucket stays stored, unchanged, until some cutoff has passed its minute. */
  lemma AcknowledgedIsStored(run: seq<State>, n: nat, source: Source, b: Bucket)
    requires Run(run) && n < |run| && source in run[n].pushers
    requires KeysDiffer(run[n].pushers[source])
    requires b in run[n].pushers[source].acked && b.requests > 0
    ensures var st := run[n];
            (KeyOf(source, b) in st.store && st.store[KeyOf(source, b)] == b) ||
            (source.env in st.cutoffs && b.minute < st.cutoffs[source.env])
  {
    RunHasInv(run, n);
    assert Kept(run[n], source, b);
    var p := run[n].pushers[source];
    assert Balanced(p);
    assert b in multiset(p.flushed);
    if KeyOf(source, b) in run[n].store {
      StoredRowIsTheBucket(run, n, KeyOf(source, b));
    }
  }

  /** The hypothesis is needed: two windows that open in one minute share a key, and the later one replaces the earlier. */
  lemma SameMinuteReplaces(source: Source, a: Bucket, b: Bucket)
    requires a.requests > 0 && b.requests > 0
    ensures var store := Upserted(Upserted(map[], Push(source, [a])), Push(source, [b]));
            (KeyOf(source, a) in store && store[KeyOf(source, a)] == a)
              <==> a == b || (a.minute, a.composition) != (b.minute, b.composition)
  {
    assert [a][..0] == [] && [b][..0] == [];
    assert Upserted(map[], Push(source, [])) == map[];
    var first := Upserted(map[], Push(source, [a]));
    assert first == map[KeyOf(source, a) := a];
    assert Upserted(first, Push(source, [])) == first;
  }

  // ----- Whatever the windows -----

  /** The last non-empty bucket for the key. */
  function LastFor(source: Source, buckets: seq<Bucket>, k: RowKey): Option<Bucket>
    decreases |buckets|
  {
    if buckets == [] then None
    else
      var b := buckets[|buckets| - 1];
      if b.requests > 0 && KeyOf(source, b) == k then Some(b) else LastFor(source, buckets[..|buckets| - 1], k)
  }

  lemma {:induction false} UpsertedAt(store: Store, push: Push, k: RowKey)
    ensures var after, last := Upserted(store, push), LastFor(push.source, push.buckets, k);
            if last.Some? then k in after && after[k] == last.value
            else (k in after <==> k in store) && (k in store ==> after[k] == store[k])
    decreases |push.buckets|
  {
    if push.buckets != [] {
      UpsertedAt(store, push.(buckets := push.buckets[..|push.buckets| - 1]), k);
    }
  }

  /** In this step the push reaches the store: it is acknowledged, or arrives late or again. */
  ghost predicate Delivered(a: State, b: State, push: Push) {
    || Arrives(a, b, push)
    || exists flushed, window ::
         Pushes(a, b, push.source, flushed, window, true) && push.buckets == a.pushers[push.source].pending + flushed
  }

  /** The step brings another non-empty bucket for the key. */
  ghost predicate Replaces(a: State, b: State, k: RowKey, bucket: Bucket) {
    exists push :: Delivered(a, b, push) && LastFor(push.source, push.buckets, k).Some? &&
                   LastFor(push.source, push.buckets, k).value != bucket
  }

  /** The step sweeps the key away. */
  ghost predicate SweepsAway(a: State, b: State, k: RowKey) {
    exists cutoff :: Sweeps(a, b, k.source.env, cutoff) && k.minute < cutoff
  }

  ghost predicate Holds(st: State, k: RowKey, bucket: Bucket) {
    k in st.store && st.store[k] == bucket
  }

  lemma DeliveredUpserts(a: State, b: State, push: Push)
    requires Delivered(a, b, push)
    ensures b.store == Upserted(a.store, push)
  {
    if !Arrives(a, b, push) {
      var flushed, window :| Pushes(a, b, push.source, flushed, window, true) &&
                             push.buckets == a.pushers[push.source].pending + flushed;
      assert push == Push(push.source, a.pushers[push.source].pending + flushed);
    }
  }

  /** A stored bucket survives a step iff the step neither replaces it nor sweeps it away. */
  lemma HoldsIff(a: State, b: State, k: RowKey, bucket: Bucket)
    requires Next(a, b) && Holds(a, k, bucket)
    ensures Holds(b, k, bucket) <==> !Replaces(a, b, k, bucket) && !SweepsAway(a, b, k)
  {
    if push :| Delivered(a, b, push) && LastFor(push.source, push.buckets, k).Some? &&
               LastFor(push.source, push.buckets, k).value != bucket {
      DeliveredUpserts(a, b, push);
      UpsertedAt(a.store, push, k);
    }
    if !Holds(b, k, bucket) { LostBy(a, b, k, bucket); }
  }

  lemma LostBy(a: State, b: State, k: RowKey, bucket: Bucket)
    requires Next(a, b) && Holds(a, k, bucket) && !Holds(b, k, bucket)
    ensures Replaces(a, b, k, bucket) || SweepsAway(a, b, k)
  {
    hide FlushOf, Upserted;
    if push :| Arrives(a, b, push) {
      UpsertedAt(a.store, push, k);
      assert Delivered(a, b, push);
    } else if source, flushed, window, acknowledged :| Pushes(a, b, source, flushed, window, acknowledged) {
      var push := Push(source, a.pushers[source].pending + flushed);
      UpsertedAt(a.store, push, k);
      assert acknowledged;
      assert Pushes(a, b, push.source, flushed, window, true);
      assert Delivered(a, b, push);
    } else if env, cutoff :| Sweeps(a, b, env, cutoff) {
      assert Sweeps(a, b, k.source.env, cutoff);
    }
  }

  /**
   * In every run, whether or not windows share a minute: a bucket that reaches
   * the store is in it from then on iff it is the last non-empty one for its
   * key in its push, and no later push brings another one for the key and no
   * sweep passes its minute.
   */
  lemma StaysIff(run: seq<State>, i: nat, n: nat, push: Push, bucket: Bucket)
    requires Run(run) && i < n < |run| && Delivered(run[i], run[i + 1], push)
    requires bucket in push.buckets && bucket.requests > 0
    ensures var k := KeyOf(push.source, bucket);
            (forall j :: i < j <= n ==> Holds(run[j], k, bucket)) <==>
              && LastFor(push.source, push.buckets, k) == Some(bucket)
              && forall j :: i < j < n ==> !Replaces(run[j], run[j + 1], k, bucket) && !SweepsAway(run[j], run[j + 1], k)
  {
    var k := KeyOf(push.source, bucket);
    DeliveredUpserts(run[i], run[i + 1], push);
    UpsertedAt(run[i].store, push, k);
    HasLast(push.source, push.buckets, bucket);
    assert Holds(run[i + 1], k, bucket) <==> LastFor(push.source, push.buckets, k) == Some(bucket);
    hide Holds, Replaces, SweepsAway, Next, Delivered, LastFor;
    if LastFor(push.source, push.buckets, k) == Some(bucket) {
      HoldsThroughIff(run, i + 1, n, k, bucket);
    }
  }

  lemma {:induction false} HasLast(source: Source, buckets: seq<Bucket>, bucket: Bucket)
    requires bucket in buckets && bucket.requests > 0
    ensures LastFor(source, buckets, KeyOf(source, bucket)).Some?
    decreases |buckets|
  {
    var n := |buckets| - 1;
    assert buckets == buckets[..n] + [buckets[n]];
    if bucket in buckets[..n] { HasLast(source, buckets[..n], bucket); }
  }

  lemma {:induction false} HoldsThroughIff(run: seq<State>, m: nat, n: nat, k: RowKey, bucket: Bucket)
    requires Run(run) && m <= n < |run| && Holds(run[m], k, bucket)
    ensures (forall j :: m <= j <= n ==> Holds(run[j], k, bucket)) <==>
              forall j :: m <= j < n ==> !Replaces(run[j], run[j + 1], k, bucket) && !SweepsAway(run[j], run[j + 1], k)
    decreases n - m
  {
    hide Holds, Replaces, SweepsAway, Next;
    if m < n {
      HoldsThroughIff(run, m, n - 1, k, bucket);
      assert Next(run[n - 1], run[n - 1 + 1]);
      if Holds(run[n - 1], k, bucket) { HoldsIff(run[n - 1], run[n], k, bucket); }
    }
  }

  // ----- Two windows of one minute -----

  function After(st: State, source: Source, flushed: seq<Bucket>, window: int): State
    requires source in st.pushers
  {
    var p := st.pushers[source];
    var push := Push(source, p.pending + flushed);
    st.(pushers := st.pushers[source := Pushed(p, flushed, window, true)],
        network := st.network + {push},
        store := Upserted(st.store, push))
  }

  lemma AfterPushes(st: State, source: Source, flushed: seq<Bucket>, window: int)
    requires source in st.pushers && FlushOf(flushed, st.pushers[source].window) && st.pushers[source].window <= window
    ensures Pushes(st, After(st, source, flushed, window), source, flushed, window, true)
  {
  }

  /** The instance has started, and then pushed the buckets one by one. */
  function Started(source: Source, minute: int): State {
    State(map[source := Pusher(minute, [], 0, [], multiset{}, multiset{}, multiset{})], {}, map[], map[])
  }

  function Twice(source: Source, first: Bucket, second: Bucket): State {
    After(After(Started(source, first.minute), source, [first], first.minute), source, [second], first.minute)
  }

  lemma TwiceHolds(source: Source, first: Bucket, second: Bucket)
    requires second.requests > 0 && KeyOf(source, first) == KeyOf(source, second) && first != second
    ensures var st := Twice(source, first, second);
            && source in st.pushers && first in st.pushers[source].acked && st.cutoffs == map[]
            && !Holds(st, KeyOf(source, first), first)
  {
    var one := After(Started(source, first.minute), source, [first], first.minute);
    assert [] + [first] == [first] && [] + [second] == [second];
    assert first in multiset([first]);
    UpsertedAt(one.store, Push(source, [second]), KeyOf(source, first));
    hide Upserted;
  }

  lemma TwiceSteps(source: Source, first: Bucket, second: Bucket)
    requires KeyOf(source, first) == KeyOf(source, second)
    ensures var minute := first.minute;
            var s1 := Started(source, minute);
            var s2 := After(s1, source, [first], minute);
            Next(State(map[], {}, map[], map[]), s1) && Next(s1, s2) && Next(s2, Twice(source, first, second))
  {
    var minute := first.minute;
    var s1 := Started(source, minute);
    assert Starts(State(map[], {}, map[], map[]), s1, source, minute);
    AfterPushes(s1, source, [first], minute);
    AfterPushes(After(s1, source, [first], minute), source, [second], minute);
    hide Pushes, Starts, Upserted, Pushed;
  }

  function SameMinute(source: Source, first: Bucket, second: Bucket): (run: seq<State>)
    ensures |run| == 4 && run[0] == State(map[], {}, map[], map[]) && run[1] == Started(source, first.minute)
    ensures run[2] == After(run[1], source, [first], first.minute) && run[3] == Twice(source, first, second)
  {
    [State(map[], {}, map[], map[]), Started(source, first.minute),
     After(Started(source, first.minute), source, [first], first.minute), Twice(source, first, second)]
  }

  lemma RunOfFour(run: seq<State>)
    requires |run| == 4 && run[0] == State(map[], {}, map[], map[])
    requires Next(run[0], run[1]) && Next(run[1], run[2]) && Next(run[2], run[3])
    ensures Run(run)
  {
    hide Next;
    forall i | 0 <= i < 3 ensures Next(run[i], run[i + 1]) {
      assert i == 0 || i == 1 || i == 2;
    }
  }

  /** The first bucket is acknowledged, and gone from the store with the second push, without any retention. */
  lemma SameMinuteRun(source: Source, first: Bucket, second: Bucket)
    requires second.requests > 0 && KeyOf(source, first) == KeyOf(source, second) && first != second
    ensures var run := SameMinute(source, first, second);
            && Run(run) && source in run[3].pushers && first in run[3].pushers[source].acked
            && !Holds(run[3], KeyOf(source, first), first) && run[3].cutoffs == map[]
  {
    hide *;
    TwiceSteps(source, first, second);
    TwiceHolds(source, first, second);
    RunOfFour(SameMinute(source, first, second));
  }
}
