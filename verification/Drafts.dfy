/**
 * Draft resources and their revisions: saveResource, the delete handler and
 * missingOrStale of internal/studio/draft.go, and replaceDraft of
 * internal/studio/publish.go. Editors hold the revision they loaded and send it
 * back as the base of their save; each SQL statement, and replaceDraft as a
 * transaction, is atomic.
 */
module Drafts {
  import opened Wrappers

  datatype Kind = KUpstream | KComposition | KAuth | KRateLimit | KSettings

  function KindName(kind: Kind): string {
    match kind
    case KUpstream => "upstream"
    case KComposition => "composition"
    case KAuth => "auth"
    case KRateLimit => "rate_limit"
    case KSettings => "settings"
  }

  datatype Key = Key(env: string, kind: Kind, name: string)

  datatype Row = Row(revision: nat, body: string)

  type Table = map<Key, Row>

  datatype Refusal = Exists | NotFound | Stale | DuplicateKey

  /** saveResource: base 0 creates, any other base must be the current revision. */
  function Saved(rows: Table, key: Key, base: nat, body: string): Result<Table, Refusal> {
    if base == 0 then
      if key in rows then Failure(Exists) else Success(rows[key := Row(1, body)])
    else if key in rows && rows[key].revision == base then
      Success(rows[key := Row(base + 1, body)])
    else
      Failure(if key in rows then Stale else NotFound)
  }

  /** The delete handler. */
  function Deleted(rows: Table, key: Key, base: nat): Result<Table, Refusal> {
    if key in rows && rows[key].revision == base then Success(rows - {key})
    else Failure(if key in rows then Stale else NotFound)
  }

  datatype Resource = Resource(kind: Kind, name: string, body: string)

  function RevisionOf(rows: Table, key: Key): nat {
    if key in rows then rows[key].revision else 0
  }

  function OtherEnvironments(rows: Table, env: string): Table {
    map key | key in rows && key.env != env :: rows[key]
  }

  /** The inserts of replaceDraft, each counting up from the revision before. */
  function Inserted(rows: Table, env: string, resources: seq<Resource>): Option<Table> {
    if resources == [] then Some(OtherEnvironments(rows, env))
    else
      var last := resources[|resources| - 1];
      var key := Key(env, last.kind, last.name);
      var before := Inserted(rows, env, resources[..|resources| - 1]);
      if before.None? || key in before.value then None
      else Some(before.value[key := Row(RevisionOf(rows, key) + 1, last.body)])
  }

  /** replaceDraft as one transaction: a repeated resource violates the key and rolls all of it back. */
  function Replaced(rows: Table, env: string, resources: seq<Resource>): Result<Table, Refusal> {
    var after := Inserted(rows, env, resources);
    if after.Some? then Success(after.value) else Failure(DuplicateKey)
  }

  // ----- What a replacement leaves -----

  /** No two resources have the same kind and name. */
  ghost predicate AllDiffer(resources: seq<Resource>) {
    forall i, j :: 0 <= i < j < |resources| ==> resources[i].kind != resources[j].kind || resources[i].name != resources[j].name
  }

  ghost predicate SameRow(before: Table, after: Table, key: Key) {
    if key in before then key in after && after[key] == before[key] else key !in after
  }

  /** The environment holds the resources of the list and no others, each with its body and its next revision. */
  ghost predicate HoldsExactly(before: Table, after: Table, env: string, resources: seq<Resource>) {
    && (forall i :: 0 <= i < |resources| ==> HoldsNext(before, after, env, resources[i]))
    && (forall key :: key in after && key.env == env ==>
          exists i :: 0 <= i < |resources| && resources[i].kind == key.kind && resources[i].name == key.name)
    && (forall key: Key :: key.env != env ==> SameRow(before, after, key))
  }

  ghost predicate HoldsNext(before: Table, after: Table, env: string, resource: Resource) {
    var key := Key(env, resource.kind, resource.name);
    && key in after && after[key].body == resource.body
    && after[key].revision == if key in before then before[key].revision + 1 else 1
  }

  lemma InsertedNext(rows: Table, env: string, resources: seq<Resource>, i: nat)
    requires i < |resources|
    ensures var before, last := Inserted(rows, env, resources[..i]), resources[i];
            var key := Key(env, last.kind, last.name);
            Inserted(rows, env, resources[..i + 1]) ==
              if before.None? || key in before.value then None
              else Some(before.value[key := Row(RevisionOf(rows, key) + 1, last.body)])
  {
    assert resources[..i + 1][..i] == resources[..i];
  }

  lemma HeldIff(rows: Table, after: Table, env: string, resources: seq<Resource>, kind: Kind, name: string)
    requires HoldsExactly(rows, after, env, resources)
    ensures Key(env, kind, name) in after <==> exists i :: 0 <= i < |resources| && resources[i].kind == kind && resources[i].name == name
  {
    if i :| 0 <= i < |resources| && resources[i].kind == kind && resources[i].name == name {
      assert HoldsNext(rows, after, env, resources[i]);
    }
  }

  /** What the inserts come to, said of the list and of the rows before and after. */
  ghost predicate InsertsRight(rows: Table, env: string, resources: seq<Resource>, after: Option<Table>) {
    && (after.Some? <==> AllDiffer(resources))
    && (after.Some? ==> HoldsExactly(rows, after.value, env, resources))
  }

  lemma {:induction false} InsertedIs(rows: Table, env: string, resources: seq<Resource>)
    ensures InsertsRight(rows, env, resources, Inserted(rows, env, resources))
  {
    if resources != [] {
      hide Inserted, InsertsRight;
      var n := |resources| - 1;
      InsertedIs(rows, env, resources[..n]);
      InsertedNext(rows, env, resources, n);
      assert resources == resources[..n] + [resources[n]] && resources[..n + 1] == resources;
      OneMoreInsert(rows, env, resources[..n], resources[n], Inserted(rows, env, resources[..n]));
    }
  }

  lemma OneMoreInsert(rows: Table, env: string, first: seq<Resource>, last: Resource, before: Option<Table>)
    requires InsertsRight(rows, env, first, before)
    ensures var key := Key(env, last.kind, last.name);
            InsertsRight(rows, env, first + [last],
                         if before.None? || key in before.value then None
                         else Some(before.value[key := Row(RevisionOf(rows, key) + 1, last.body)]))
  {
    DifferMore(first, last);
    hide AllDiffer, HoldsExactly, RevisionOf;
    if before.Some? {
      HeldIff(rows, before.value, env, first, last.kind, last.name);
      if Key(env, last.kind, last.name) !in before.value {
        HoldsOneMore(rows, before.value, env, first, last);
      }
    }
  }

  lemma DifferMore(first: seq<Resource>, last: Resource)
    ensures AllDiffer(first + [last]) <==>
              AllDiffer(first) && !exists i :: 0 <= i < |first| && first[i].kind == last.kind && first[i].name == last.name
  {
    var all := first + [last];
    assert all[|first|] == last;
    assert forall i :: 0 <= i < |first| ==> all[i] == first[i];
  }

  lemma HoldsOneMore(rows: Table, before: Table, env: string, first: seq<Resource>, last: Resource)
    requires HoldsExactly(rows, before, env, first)
    requires Key(env, last.kind, last.name) !in before
    ensures HoldsExactly(rows, before[Key(env, last.kind, last.name) :=
              Row(RevisionOf(rows, Key(env, last.kind, last.name)) + 1, last.body)], env, first + [last])
  {
    var key := Key(env, last.kind, last.name);
    var after, all := before[key := Row(RevisionOf(rows, key) + 1, last.body)], first + [last];
    assert all[|first|] == last;
    forall i | 0 <= i < |all| ensures HoldsNext(rows, after, env, all[i]) {
      if i < |first| {
        assert all[i] == first[i] && HoldsNext(rows, before, env, first[i]);
      }
    }
    forall k | k in after && k.env == env ensures exists i :: 0 <= i < |all| && all[i].kind == k.kind && all[i].name == k.name {
      if k != key {
        var i :| 0 <= i < |first| && first[i].kind == k.kind && first[i].name == k.name;
        assert all[i] == first[i];
      }
    }
    forall k: Key | k.env != env ensures SameRow(rows, after, k) {
      assert SameRow(rows, before, k);
    }
  }

  lemma NothingInserted(rows: Table, env: string)
    ensures Inserted(rows, env, []) == Some(OtherEnvironments(rows, env))
  {
  }

  /** replaceDraft succeeds iff all resources differ, and then the environment holds exactly them. */
  lemma ReplacedIs(rows: Table, env: string, resources: seq<Resource>)
    ensures var r := Replaced(rows, env, resources);
            && (r.Success? <==> AllDiffer(resources))
            && (r.Success? ==> HoldsExactly(rows, r.value, env, resources))
            && (r.Failure? ==> r.error == DuplicateKey)
  {
    InsertedIs(rows, env, resources);
  }

  // ----- The handlers -----

  /** The map key replaceDraft uses for a revision. */
  function RevisionName(kind: Kind, name: string): string {
    KindName(kind) + "/" + name
  }

  lemma PrefixBeforeSlash(a: string, b: string, x: string, y: string)
    requires '/' !in a && '/' !in b && a + "/" + x == b + "/" + y
    ensures a == b && x == y
  {
    var s, t := a + "/" + x, b + "/" + y;
    assert forall i :: 0 <= i < |a| ==> s[i] != '/';
    assert forall i :: 0 <= i < |b| ==> t[i] != '/';
    assert s[|a|] == '/' && t[|b|] == '/';
    assert s[..|a|] == a && s[|a| + 1..] == x;
    assert t[..|b|] == b && t[|b| + 1..] == y;
  }

  /** No two resources share a revision entry: a kind has no slash. */
  lemma RevisionNamesDiffer(k1: Kind, n1: string, k2: Kind, n2: string)
    requires RevisionName(k1, n1) == RevisionName(k2, n2)
    ensures k1 == k2 && n1 == n2
  {
    PrefixBeforeSlash(KindName(k1), KindName(k2), n1, n2);
  }

  class DraftTable {
    var rows: Table

    constructor ()
      ensures rows == map[]
    {
      rows := map[];
    }

    method SaveResource(key: Key, base: nat, body: string) returns (r: Result<Row, Refusal>)
      modifies this
      ensures Saved(old(rows), key, base, body) == if r.Success? then Success(rows) else Failure(r.error)
      ensures r.Success? <==> if base == 0 then key !in old(rows) else key in old(rows) && old(rows)[key].revision == base
      ensures r.Success? ==> rows == old(rows)[key := Row(base + 1, body)] && r.value == Row(base + 1, body)
      ensures r.Failure? ==>
                rows == old(rows) && r.error == if base == 0 then Exists else if key in rows then Stale else NotFound
    {
      var affected := 0;
      if base == 0 {
        if key !in rows {
          rows := rows[key := Row(1, body)];
          affected := 1;
        }
      } else if key in rows && rows[key].revision == base {
        rows := rows[key := Row(rows[key].revision + 1, body)];
        affected := 1;
      }
      if affected == 0 {
        if base == 0 {
          return Failure(Exists);
        }
        var why := MissingOrStale(key);
        return Failure(why);
      }
      r := GetResource(key);
    }

    method GetResource(key: Key) returns (r: Result<Row, Refusal>)
      ensures r == if key in rows then Success(rows[key]) else Failure(NotFound)
    {
      r := if key in rows then Success(rows[key]) else Failure(NotFound);
    }

    /** Why a write matched no row. */
    method MissingOrStale(key: Key) returns (why: Refusal)
      ensures why == if key in rows then Stale else NotFound
    {
      var current := GetResource(key);
      why := if current.Failure? then current.error else Stale;
    }

    method DeleteResource(key: Key, base: nat) returns (r: Result<(), Refusal>)
      modifies this
      ensures Deleted(old(rows), key, base) == if r.Success? then Success(rows) else Failure(r.error)
      ensures r.Success? <==> key in old(rows) && old(rows)[key].revision == base
      ensures r.Success? ==> key !in rows && forall k :: k != key ==> SameRow(old(rows), rows, k)
      ensures r.Failure? ==> rows == old(rows) && r.error == if key in rows then Stale else NotFound
    {
      if key in rows && rows[key].revision == base {
        rows := rows - {key};
        return Success(());
      }
      var why := MissingOrStale(key);
      return Failure(why);
    }

    /** SELECT kind, name, revision: what each resource's next insert counts up from. */
    method Revisions(env: string) returns (revisions: map<string, nat>)
      ensures forall kind, name ::
        (if RevisionName(kind, name) in revisions then revisions[RevisionName(kind, name)] else 0)
          == RevisionOf(rows, Key(env, kind, name))
    {
      revisions := map[];
      var rest := rows.Keys;
      while rest != {}
        invariant rest <= rows.Keys
        invariant forall kind, name :: RevisionName(kind, name) in revisions <==>
                    Key(env, kind, name) in rows && Key(env, kind, name) !in rest
        invariant forall kind, name :: RevisionName(kind, name) in revisions ==>
                    revisions[RevisionName(kind, name)] == rows[Key(env, kind, name)].revision
      {
        var key: Key :| key in rest;
        if key.env == env {
          forall kind, name | RevisionName(kind, name) == RevisionName(key.kind, key.name)
            ensures Key(env, kind, name) == key
          {
            RevisionNamesDiffer(kind, name, key.kind, key.name);
          }
          revisions := revisions[RevisionName(key.kind, key.name) := rows[key].revision];
        }
        rest := rest - {key};
      }
    }

    method ReplaceDraft(env: string, resources: seq<Resource>) returns (r: Result<(), Refusal>)
      modifies this
      ensures Replaced(old(rows), env, resources) == if r.Success? then Success(rows) else Failure(r.error)
      ensures r.Success? <==> AllDiffer(resources)
      ensures r.Success? ==> HoldsExactly(old(rows), rows, env, resources)
      ensures r.Failure? ==> rows == old(rows) && r.error == DuplicateKey
    {
      ReplacedIs(rows, env, resources);
      hide AllDiffer, HoldsExactly, Inserted, OtherEnvironments, RevisionName;
      NothingInserted(rows, env);
      var before := rows;
      var revisions := Revisions(env);
      rows := OtherEnvironments(rows, env);
      for i := 0 to |resources|
        invariant Inserted(before, env, resources[..i]) == Some(rows)
      {
        var res := resources[i];
        var key := Key(env, res.kind, res.name);
        InsertedNext(before, env, resources, i);
        if key in rows {
          DuplicateStays(before, env, resources, i + 1);
          rows := before;
          return Failure(DuplicateKey);
        }
        var name := RevisionName(res.kind, res.name);
        var revision := if name in revisions then revisions[name] else 0;
        rows := rows[key := Row(revision + 1, res.body)];
      }
      assert resources[..|resources|] == resources;
      return Success(());
    }
  }

  lemma {:induction false} DuplicateStays(rows: Table, env: string, resources: seq<Resource>, i: nat)
    requires i <= |resources| && Inserted(rows, env, resources[..i]) == None
    ensures Inserted(rows, env, resources) == None
    decreases |resources|
  {
    if i < |resources| {
      assert resources[..|resources| - 1][..i] == resources[..i];
      DuplicateStays(rows, env, resources[..|resources| - 1], i);
    } else {
      assert resources[..i] == resources;
    }
  }

  // ----- Any interleaving of editors -----

  datatype Op =
    | Save(key: Key, base: nat, body: string)
    | Delete(key: Key, base: nat)
    | Replace(env: string, resources: seq<Resource>)

  function Outcome(rows: Table, op: Op): Result<Table, Refusal> {
    match op
    case Save(key, base, body) => Saved(rows, key, base, body)
    case Delete(key, base) => Deleted(rows, key, base)
    case Replace(env, resources) => Replaced(rows, env, resources)
  }

  function Apply(rows: Table, op: Op): Table {
    var r := Outcome(rows, op);
    if r.Success? then r.value else rows
  }

  /** The table after the first n operations. */
  function After(ops: seq<Op>, n: nat): Table
    requires n <= |ops|
  {
    if n == 0 then map[] else Apply(After(ops, n - 1), ops[n - 1])
  }

  /** Operation i commits and leaves the resource written. */
  predicate Writes(ops: seq<Op>, i: nat, key: Key)
    requires i < |ops|
  {
    && Outcome(After(ops, i), ops[i]).Success?
    && key in After(ops, i + 1)
    && match ops[i]
       case Save(k, _, _) => k == key
       case Delete(_, _) => false
       case Replace(env, _) => env == key.env
  }

  /** How many of the operations i..j write the resource. */
  function WritesIn(ops: seq<Op>, i: nat, j: nat, key: Key): nat
    requires i <= j <= |ops|
  {
    if i == j then 0 else WritesIn(ops, i, j - 1, key) + if Writes(ops, j - 1, key) then 1 else 0
  }

  ghost predicate PresentThroughout(ops: seq<Op>, i: nat, j: nat, key: Key)
    requires i <= j <= |ops|
  {
    forall n :: i <= n <= j ==> key in After(ops, n)
  }

  /** What a replacement does to one resource of its environment. */
  lemma {:induction false} InsertedRevision(rows: Table, env: string, resources: seq<Resource>, key: Key)
    requires Inserted(rows, env, resources).Some?
    ensures var after := Inserted(rows, env, resources).value;
            && (key.env != env ==> (key in after <==> key in rows) && (key in rows ==> after[key] == rows[key]))
            && (key.env == env && key in after ==> after[key].revision == RevisionOf(rows, key) + 1)
  {
    if resources != [] {
      InsertedRevision(rows, env, resources[..|resources| - 1], key);
    }
  }

  /** One operation: a write counts the revision up by one, anything else leaves a present row alone. */
  lemma StepRevision(ops: seq<Op>, i: nat, key: Key)
    requires i < |ops| && key in After(ops, i + 1)
    ensures After(ops, i + 1)[key].revision ==
              RevisionOf(After(ops, i), key) + if Writes(ops, i, key) then 1 else 0
    ensures !Writes(ops, i, key) ==> key in After(ops, i) && After(ops, i + 1)[key] == After(ops, i)[key]
  {
    var rows := After(ops, i);
    match ops[i]
    case Save(k, base, body) =>
    case Delete(k, base) =>
    case Replace(env, resources) =>
      if Inserted(rows, env, resources).Some? {
        InsertedRevision(rows, env, resources, key);
      }
  }

  /** While a resource stays present its revision counts its writes. */
  lemma {:induction false} RevisionCountsWrites(ops: seq<Op>, i: nat, j: nat, key: Key)
    requires i <= j <= |ops| && PresentThroughout(ops, i, j, key)
    ensures After(ops, j)[key].revision == After(ops, i)[key].revision + WritesIn(ops, i, j, key)
    decreases j - i
  {
    if i < j {
      RevisionCountsWrites(ops, i, j - 1, key);
      StepRevision(ops, j - 1, key);
    }
  }

  lemma {:induction false} RevisionPositive(ops: seq<Op>, n: nat, key: Key)
    requires n <= |ops| && key in After(ops, n)
    ensures After(ops, n)[key].revision > 0
  {
    if n > 0 {
      StepRevision(ops, n - 1, key);
      if !Writes(ops, n - 1, key) { RevisionPositive(ops, n - 1, key); }
    }
  }

  /** No lost update: a save from the revision loaded at i commits at j iff nothing was written between. */
  lemma SaveCommitsIffUnchanged(ops: seq<Op>, i: nat, j: nat, key: Key)
    requires i <= j < |ops| && PresentThroughout(ops, i, j, key)
    requires ops[j].Save? && ops[j].key == key && ops[j].base == After(ops, i)[key].revision
    ensures Outcome(After(ops, j), ops[j]).Success? <==> WritesIn(ops, i, j, key) == 0
    ensures Outcome(After(ops, j), ops[j]).Failure? ==> Outcome(After(ops, j), ops[j]).error == Stale
  {
    RevisionPositive(ops, i, key);
    RevisionCountsWrites(ops, i, j, key);
  }

  /** Committed saves form a chain: of two saves with one base, the later is refused. */
  lemma OneSavePerBase(ops: seq<Op>, i: nat, j: nat, key: Key)
    requires i < j < |ops| && PresentThroughout(ops, i + 1, j, key)
    requires ops[i].Save? && ops[i].key == key && ops[j].Save? && ops[j].key == key && ops[i].base == ops[j].base
    requires Outcome(After(ops, i), ops[i]).Success?
    ensures Outcome(After(ops, j), ops[j]).Failure?
  {
    CommittedRevision(ops, i);
    hide After;
    RevisionCountsWrites(ops, i + 1, j, key);
  }

  lemma CommittedRevision(ops: seq<Op>, i: nat)
    requires i < |ops| && ops[i].Save? && Outcome(After(ops, i), ops[i]).Success?
    ensures ops[i].key in After(ops, i + 1) && After(ops, i + 1)[ops[i].key].revision == ops[i].base + 1
  {
  }

  /** In general the revision is the number of writes since the resource was last absent. */
  lemma RevisionSinceCreation(ops: seq<Op>, i: nat, j: nat, key: Key)
    requires i < j <= |ops| && key !in After(ops, i) && PresentThroughout(ops, i + 1, j, key)
    ensures After(ops, j)[key].revision == WritesIn(ops, i, j, key)
  {
    hide After;
    assert key in After(ops, i + 1);
    FirstWrite(ops, i, key);
    RevisionCountsWrites(ops, i + 1, j, key);
    WritesSplit(ops, i, i + 1, j, key);
  }

  lemma FirstWrite(ops: seq<Op>, i: nat, key: Key)
    requires i < |ops| && key !in After(ops, i) && key in After(ops, i + 1)
    ensures After(ops, i + 1)[key].revision == 1 && WritesIn(ops, i, i + 1, key) == 1
  {
    StepRevision(ops, i, key);
    hide After;
    assert WritesIn(ops, i, i, key) == 0;
  }

  lemma {:induction false} WritesSplit(ops: seq<Op>, i: nat, m: nat, j: nat, key: Key)
    requires i <= m <= j <= |ops|
    ensures WritesIn(ops, i, j, key) == WritesIn(ops, i, m, key) + WritesIn(ops, m, j, key)
    decreases j - m
  {
    if m < j { WritesSplit(ops, i, m, j - 1, key); }
  }

  /**
   * The presence hypothesis is needed: after delete and create the numbering
   * starts again, and a save from before the delete commits.
   */
  lemma RecreationDefeatsTheCheck(key: Key)
    ensures var ops := [Save(key, 0, "a"), Delete(key, 1), Save(key, 0, "b"), Save(key, 1, "c")];
            && After(ops, 1)[key] == Row(1, "a")
            && After(ops, 3)[key] == Row(1, "b")
            && Outcome(After(ops, 3), ops[3]) == Success(map[key := Row(2, "c")])
  {
    var ops := [Save(key, 0, "a"), Delete(key, 1), Save(key, 0, "b"), Save(key, 1, "c")];
    assert After(ops, 0) == map[];
    assert After(ops, 1) == map[key := Row(1, "a")];
    assert After(ops, 2) == map[];
    assert After(ops, 3) == map[key := Row(1, "b")];
    assert After(ops, 3)[key := Row(2, "c")] == map[key := Row(2, "c")];
  }

  /**
   * Exactly when a save from an earlier revision commits, resources coming and
   * going: the writes since its present life began number the base it holds.
   */
  lemma SaveCommitsExactly(ops: seq<Op>, i: nat, j: nat, key: Key)
    requires i < j < |ops| && key !in After(ops, i) && PresentThroughout(ops, i + 1, j, key)
    requires ops[j].Save? && ops[j].key == key
    ensures Outcome(After(ops, j), ops[j]).Success? <==> ops[j].base == WritesIn(ops, i, j, key)
  {
    RevisionSinceCreation(ops, i, j, key);
    RevisionPositive(ops, j, key);
  }
}
