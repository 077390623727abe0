/**
 * internal/studio/publish.go: appending numbered artifact versions while other
 * publishers do the same. Each SQL statement is one atomic step; the primary
 * key (environment, number) is the only coordination.
 */
module Versions {
  import opened Wrappers

  /** A row of studio_artifact_versions without its key. */
  datatype Version = Version(yaml: string, author: string, message: string)

  /** The primary key. */
  datatype Key = Key(env: string, number: nat)

  type Table = map<Key, Version>

  /** The version numbers of an environment. */
  ghost function Numbers(rows: Table, env: string): set<nat> {
    set k | k in rows && k.env == env :: k.number
  }

  ghost function Count(rows: Table, env: string): nat {
    |Numbers(rows, env)|
  }

  /** COALESCE(MAX(number), 0) */
  ghost predicate IsMax(rows: Table, env: string, n: nat) {
    && (forall k: nat :: Key(env, k) in rows ==> k <= n)
    && (n != 0 ==> Key(env, n) in rows)
  }

  /** The numbers of every environment are exactly 1..n. */
  ghost predicate Contiguous(rows: Table) {
    forall env, k: nat {:trigger Key(env, k) in rows} :: Key(env, k) in rows <==> 1 <= k <= Count(rows, env)
  }

  lemma Taken(rows: Table, env: string, k: nat)
    requires Contiguous(rows)
    ensures Key(env, k) in rows <==> 1 <= k <= Count(rows, env)
  {
  }

  lemma MaxIsCount(rows: Table, env: string, n: nat)
    requires Contiguous(rows) && IsMax(rows, env, n)
    ensures n == Count(rows, env)
  {
    assert Key(env, n) in rows <==> 1 <= n <= Count(rows, env);
    var c := Count(rows, env);
    assert Key(env, c) in rows <==> 1 <= c;
  }

  lemma NumberIn(rows: Table, env: string, k: nat)
    ensures k in Numbers(rows, env) <==> Key(env, k) in rows
  {
  }

  lemma NumbersOfAppend(rows: Table, env: string, n: nat, v: Version, e: string)
    ensures Numbers(rows[Key(env, n) := v], e) == if e == env then Numbers(rows, e) + {n} else Numbers(rows, e)
  {
    var after := rows[Key(env, n) := v];
    forall k: nat ensures k in Numbers(after, e) <==> k in Numbers(rows, e) || (e == env && k == n) {
      NumberIn(rows, e, k);
      NumberIn(after, e, k);
    }
  }

  lemma CountOfAppend(rows: Table, env: string, n: nat, v: Version, e: string)
    requires Key(env, n) !in rows
    ensures Count(rows[Key(env, n) := v], e) == if e == env then Count(rows, e) + 1 else Count(rows, e)
  {
    NumbersOfAppend(rows, env, n, v, e);
    NumberIn(rows, env, n);
    hide Numbers;
  }

  lemma AppendIsContiguous(rows: Table, env: string, n: nat, v: Version)
    requires Contiguous(rows) && n == Count(rows, env) + 1
    ensures Contiguous(rows[Key(env, n) := v])
    ensures Count(rows[Key(env, n) := v], env) == n
    ensures forall e :: e != env ==> Count(rows[Key(env, n) := v], e) == Count(rows, e)
  {
    var after := rows[Key(env, n) := v];
    Taken(rows, env, n);
    hide Count;
    forall e ensures Count(after, e) == if e == env then n else Count(rows, e) {
      CountOfAppend(rows, env, n, v, e);
    }
    forall e, k: nat ensures Key(e, k) in after <==> 1 <= k <= Count(after, e) {
      Taken(rows, e, k);
    }
  }

  // ----- Any number of publishers -----

  const MAX_ATTEMPTS := 3

  /** Where a call of writeVersion is. */
  datatype Pc =
    | ReadMax(attempt: nat)
    | Insert(attempt: nat, next: nat)
    | Published(number: nat)
    | Conflict

  /** A call of writeVersion; before is how many versions there were when it began. */
  datatype Call = Call(env: string, doc: Version, before: nat, pc: Pc)

  datatype State = State(rows: Table, calls: map<nat, Call>)

  ghost predicate Begins(a: State, b: State, id: nat, env: string, doc: Version) {
    id !in a.calls && b == a.(calls := a.calls[id := Call(env, doc, Count(a.rows, env), ReadMax(0))])
  }

  /** The rollback handler: version n's YAML becomes the document of a new call. */
  ghost predicate RollsBack(a: State, b: State, id: nat, env: string, n: nat, author: string, message: string) {
    Key(env, n) in a.rows && Begins(a, b, id, env, Version(a.rows[Key(env, n)].yaml, author, message))
  }

  /** One SQL statement of one call. */
  ghost predicate Steps(a: State, b: State, id: nat) {
    && id in a.calls
    && var call := a.calls[id];
       match call.pc
       case ReadMax(attempt) =>
         exists n: nat :: IsMax(a.rows, call.env, n) && b == a.(calls := a.calls[id := call.(pc := Insert(attempt, n + 1))])
       case Insert(attempt, next) =>
         if Key(call.env, next) !in a.rows then
           b == State(a.rows[Key(call.env, next) := call.doc], a.calls[id := call.(pc := Published(next))])
         else
           b == a.(calls := a.calls[id := call.(pc := if attempt + 1 < MAX_ATTEMPTS then ReadMax(attempt + 1) else Conflict)])
       case _ => false
  }

  ghost predicate Next(a: State, b: State) {
    || (exists id, env, doc :: Begins(a, b, id, env, doc))
    || (exists id :: Steps(a, b, id))
  }

  ghost predicate Run(run: seq<State>) {
    && run != [] && run[0] == State(map[], map[])
    && forall i :: 0 <= i < |run| - 1 ==> Next(run[i], run[i + 1])
  }

  /** A call that failed k inserts has seen at least k versions appear. */
  ghost predicate CallInv(rows: Table, call: Call) {
    match call.pc
    case ReadMax(attempt) => attempt < MAX_ATTEMPTS && Count(rows, call.env) >= call.before + attempt
    case Insert(attempt, next) =>
      attempt < MAX_ATTEMPTS && call.before + attempt < next <= Count(rows, call.env) + 1
    case Published(number) => Key(call.env, number) in rows && rows[Key(call.env, number)] == call.doc && number > call.before
    case Conflict => Count(rows, call.env) >= call.before + MAX_ATTEMPTS
  }

  ghost predicate Owns(call: Call, key: Key) {
    call.pc.Published? && Key(call.env, call.pc.number) == key
  }

  ghost predicate Inv(st: State) {
    && Contiguous(st.rows)
    && (forall id :: id in st.calls ==> CallInv(st.rows, st.calls[id]))
    // Each row was added by exactly one successful call.
    && (forall key :: key in st.rows ==> exists id :: id in st.calls && Owns(st.calls[id], key))
    && (forall i, j :: i in st.calls && j in st.calls && i != j && st.calls[i].pc.Published? ==>
          !Owns(st.calls[j], Key(st.calls[i].env, st.calls[i].pc.number)))
  }

  /** A call that owns no row changes nothing when it moves on. */
  lemma CallMoves(a: State, id: nat, call: Call)
    requires Inv(a) && (id in a.calls ==> !a.calls[id].pc.Published?)
    requires CallInv(a.rows, call) && !call.pc.Published?
    ensures Inv(a.(calls := a.calls[id := call]))
  {
    hide Contiguous, CallInv;
    var b := a.(calls := a.calls[id := call]);
    forall key | key in b.rows ensures exists i :: i in b.calls && Owns(b.calls[i], key) {
      var i :| i in a.calls && Owns(a.calls[i], key);
      assert i in b.calls && Owns(b.calls[i], key);
    }
  }

  lemma GrowthKeepsCall(rows: Table, env: string, n: nat, v: Version, call: Call)
    requires Contiguous(rows) && n == Count(rows, env) + 1 && CallInv(rows, call)
    ensures CallInv(rows[Key(env, n) := v], call)
  {
    AppendIsContiguous(rows, env, n, v);
    assert Key(env, n) in rows <==> 1 <= n <= Count(rows, env);
    if call.env != env {
      assert Count(rows[Key(env, n) := v], call.env) == Count(rows, call.env);
    }
  }

  lemma InsertKeepsInv(a: State, id: nat, attempt: nat, next: nat)
    requires Inv(a) && id in a.calls && a.calls[id].pc == Insert(attempt, next)
    requires Key(a.calls[id].env, next) !in a.rows
    ensures next == Count(a.rows, a.calls[id].env) + 1
    ensures Inv(State(a.rows[Key(a.calls[id].env, next) := a.calls[id].doc],
                      a.calls[id := a.calls[id].(pc := Published(next))]))
  {
    var call := a.calls[id];
    assert CallInv(a.rows, call);
    assert Key(call.env, next) in a.rows <==> 1 <= next <= Count(a.rows, call.env);
    AppendIsContiguous(a.rows, call.env, next, call.doc);
    var b := State(a.rows[Key(call.env, next) := call.doc], a.calls[id := call.(pc := Published(next))]);
    assert CallInv(b.rows, b.calls[id]);
    hide Contiguous, CallInv, Count;
    forall i | i in b.calls ensures CallInv(b.rows, b.calls[i]) {
      if i != id { GrowthKeepsCall(a.rows, call.env, next, call.doc, a.calls[i]); }
    }
    forall key | key in b.rows ensures exists i :: i in b.calls && Owns(b.calls[i], key) {
      if key in a.rows {
        var i :| i in a.calls && Owns(a.calls[i], key);
        assert i in b.calls && Owns(b.calls[i], key);
      } else {
        assert Owns(b.calls[id], key);
      }
    }
    forall i | i in a.calls && i != id && a.calls[i].pc.Published?
      ensures Key(a.calls[i].env, a.calls[i].pc.number) != Key(call.env, next)
    {
      assert CallInv(a.rows, a.calls[i]);
    }
  }

  lemma StepsKeepInv(a: State, b: State, id: nat)
    requires Inv(a) && Steps(a, b, id)
    ensures Inv(b)
  {
    var call := a.calls[id];
    assert CallInv(a.rows, call);
    match call.pc
    case ReadMax(attempt) =>
      var n: nat :| IsMax(a.rows, call.env, n) && b == a.(calls := a.calls[id := call.(pc := Insert(attempt, n + 1))]);
      MaxIsCount(a.rows, call.env, n);
      CallMoves(a, id, call.(pc := Insert(attempt, n + 1)));
    case Insert(attempt, next) =>
      if Key(call.env, next) !in a.rows {
        InsertKeepsInv(a, id, attempt, next);
      } else {
        assert Key(call.env, next) in a.rows <==> 1 <= next <= Count(a.rows, call.env);
        CallMoves(a, id, b.calls[id]);
      }
  }

  lemma NextKeepsInv(a: State, b: State)
    requires Inv(a) && Next(a, b)
    ensures Inv(b)
  {
    if id, env, doc :| Begins(a, b, id, env, doc) {
      CallMoves(a, id, b.calls[id]);
    } else {
      var id :| Steps(a, b, id);
      StepsKeepInv(a, b, id);
    }
  }

  lemma {:induction false} RunHasInv(run: seq<State>, n: nat)
    requires Run(run) && n < |run|
    ensures Inv(run[n])
  {
    if n > 0 {
      RunHasInv(run, n - 1);
      assert Next(run[n - 1], run[n - 1 + 1]);
      NextKeepsInv(run[n - 1], run[n]);
    } else {
      assert forall env :: Numbers(map[], env) == {};
    }
  }

  /** In every run the numbers of an environment are 1..n. */
  lemma NumbersAreContiguous(run: seq<State>, n: nat, env: string)
    requires Run(run) && n < |run|
    ensures forall k: nat :: Key(env, k) in run[n].rows <==> 1 <= k <= Count(run[n].rows, env)
  {
    RunHasInv(run, n);
  }

  /** Every row of a is a row of b, unchanged. */
  ghost predicate KeepsRows(a: Table, b: Table) {
    forall key :: key in a ==> key in b && b[key] == a[key]
  }

  // ----- History -----

  lemma NextKeepsRows(a: State, b: State)
    requires Next(a, b)
    ensures KeepsRows(a.rows, b.rows)
  {
  }

  /** History is append-only: a row, once there, never changes or goes. */
  lemma {:induction false} RowsNeverChange(run: seq<State>, i: nat, j: nat, key: Key)
    requires Run(run) && i <= j < |run| && key in run[i].rows
    ensures key in run[j].rows && run[j].rows[key] == run[i].rows[key]
    decreases j - i
  {
    if i < j {
      RowsNeverChange(run, i, j - 1, key);
      assert Next(run[j - 1], run[j - 1 + 1]);
    }
  }

  /** A successful call is the only owner of its row, and the row holds its document. */
  lemma OneRowPerSuccess(run: seq<State>, n: nat, key: Key)
    requires Run(run) && n < |run| && key in run[n].rows
    ensures exists id :: id in run[n].calls && Owns(run[n].calls[id], key) && run[n].rows[key] == run[n].calls[id].doc
    ensures forall i, j :: i in run[n].calls && j in run[n].calls && Owns(run[n].calls[i], key) && Owns(run[n].calls[j], key) ==> i == j
  {
    RunHasInv(run, n);
    var st := run[n];
    var id :| id in st.calls && Owns(st.calls[id], key);
    assert CallInv(st.rows, st.calls[id]);
  }

  /** The numbers of an environment above the first `before`. */
  ghost function NewNumbers(rows: Table, env: string, before: nat): set<nat> {
    set k | k in Numbers(rows, env) && k > before
  }

  lemma ThreeIn(all: set<nat>, a: nat, b: nat, c: nat)
    requires a in all && b in all && c in all && a < b < c
    ensures |all| >= 3
  {
    assert |all - {a} - {b} - {c}| == |all| - 3;
  }

  lemma ThreeNew(rows: Table, env: string, before: nat)
    requires Contiguous(rows) && Count(rows, env) >= before + 3
    ensures |NewNumbers(rows, env, before)| >= 3
  {
    Taken(rows, env, before + 1);
    Taken(rows, env, before + 2);
    Taken(rows, env, before + 3);
    ThreeIn(NewNumbers(rows, env, before), before + 1, before + 2, before + 3);
  }

  /** A 409 means that at least three calls other than this one published meanwhile. */
  lemma ConflictMeansThreeOthers(run: seq<State>, n: nat, id: nat)
    requires Run(run) && n < |run| && id in run[n].calls && run[n].calls[id].pc == Conflict
    ensures var call := run[n].calls[id];
            && |NewNumbers(run[n].rows, call.env, call.before)| >= 3
            && forall k :: k in NewNumbers(run[n].rows, call.env, call.before) ==>
                 exists other :: other != id && other in run[n].calls && Owns(run[n].calls[other], Key(call.env, k))
  {
    RunHasInv(run, n);
    var st, call := run[n], run[n].calls[id];
    assert CallInv(st.rows, call);
    ThreeNew(st.rows, call.env, call.before);
    forall k | k in NewNumbers(st.rows, call.env, call.before)
      ensures exists other :: other != id && other in st.calls && Owns(st.calls[other], Key(call.env, k))
    {
      assert Key(call.env, k) in st.rows;
      var other :| other in st.calls && Owns(st.calls[other], Key(call.env, k));
    }
  }

  /** A call publishes the document it began with. */
  lemma {:induction false} CallsKeepTheirDocument(run: seq<State>, i: nat, j: nat, id: nat)
    requires Run(run) && i <= j < |run| && id in run[i].calls
    ensures id in run[j].calls && run[j].calls[id].env == run[i].calls[id].env && run[j].calls[id].doc == run[i].calls[id].doc
    ensures run[j].calls[id].before == run[i].calls[id].before
    decreases j - i
  {
    if i < j {
      CallsKeepTheirDocument(run, i, j - 1, id);
      assert Next(run[j - 1], run[j - 1 + 1]);
    }
  }

  /** Rolling back to version n publishes the YAML version n still has. */
  lemma RollbackRepublishes(run: seq<State>, i: nat, j: nat, id: nat, env: string, n: nat, author: string, message: string,
                            number: nat)
    requires Run(run) && i < j < |run| && RollsBack(run[i], run[i + 1], id, env, n, author, message)
    requires id in run[j].calls && run[j].calls[id].pc == Published(number)
    ensures Key(env, n) in run[j].rows && Key(env, number) in run[j].rows
    ensures run[j].rows[Key(env, number)].yaml == run[j].rows[Key(env, n)].yaml && number > n
  {
    CallsKeepTheirDocument(run, i + 1, j, id);
    RowsNeverChange(run, i, j, Key(env, n));
    RunHasInv(run, j);
    RunHasInv(run, i);
    assert CallInv(run[j].rows, run[j].calls[id]);
    assert Key(env, n) in run[i].rows <==> 1 <= n <= Count(run[i].rows, env);
  }

  // ----- writeVersion itself -----

  /** The database table, with other publishers at work between our statements. */
  class VersionTable {
    var rows: Table
    /** The rows our own calls have inserted. */
    ghost var own: set<Key>

    constructor ()
      ensures rows == map[] && own == {} && Contiguous(rows)
    {
      rows, own := map[], {};
      new;
      assert forall env :: Numbers(rows, env) == {};
    }

    method SelectMax(env: string) returns (n: nat)
      ensures IsMax(rows, env, n)
    {
      n := 0;
      var rest := rows.Keys;
      while rest != {}
        invariant rest <= rows.Keys
        invariant forall k: nat :: Key(env, k) in rows && Key(env, k) !in rest ==> k <= n
        invariant n != 0 ==> Key(env, n) in rows
      {
        var key :| key in rest;
        if key.env == env && key.number > n {
          n := key.number;
        }
        rest := rest - {key};
      }
    }

    /** INSERT ... ON CONFLICT DO NOTHING */
    method InsertIfAbsent(env: string, n: nat, v: Version) returns (affected: nat)
      modifies this`rows
      ensures affected == if Key(env, n) in old(rows) then 0 else 1
      ensures rows == if Key(env, n) in old(rows) then old(rows) else old(rows)[Key(env, n) := v]
    {
      if Key(env, n) in rows {
        return 0;
      }
      rows := rows[Key(env, n) := v];
      return 1;
    }

    /** Whatever other publishers commit between two of our statements. */
    method Others(ghost env: string)
      requires Contiguous(rows)
      modifies this`rows
      ensures Contiguous(rows)
      ensures KeepsRows(old(rows), rows)
      ensures Count(rows, env) >= old(Count(rows, env))
    {
      var publishes: nat :| true;
      for i := 0 to publishes
        invariant Contiguous(rows)
        invariant KeepsRows(old(rows), rows)
        invariant Count(rows, env) >= old(Count(rows, env))
      {
        var other: string, v: Version := *, *;
        var n := SelectMax(other);
        MaxIsCount(rows, other, n);
        AppendIsContiguous(rows, other, n + 1, v);
        Taken(rows, other, n + 1);
        var _ := InsertIfAbsent(other, n + 1, v);
      }
    }

    /** One pass of the loop: read the maximum, insert the next number, None if it was taken meanwhile. */
    method Attempt(env: string, v: Version) returns (number: Option<nat>)
      requires Contiguous(rows)
      modifies this
      ensures Contiguous(rows) && KeepsRows(old(rows), rows)
      ensures number.Some? ==>
                && number.value > old(Count(rows, env)) && own == old(own) + {Key(env, number.value)}
                && Key(env, number.value) in rows && rows[Key(env, number.value)] == v
      ensures number.None? ==> own == old(own) && Count(rows, env) > old(Count(rows, env))
    {
      hide Contiguous, IsMax, Count;
      Others(env);
      var max := SelectMax(env);
      MaxIsCount(rows, env, max);
      Others(env);
      Taken(rows, env, max + 1);
      if Key(env, max + 1) !in rows {
        AppendIsContiguous(rows, env, max + 1, v);
      }
      var affected := InsertIfAbsent(env, max + 1, v);
      if affected == 1 {
        own := own + {Key(env, max + 1)};
        return Some(max + 1);
      }
      return None;
    }

    /** Up to three attempts; None is the 409. */
    method WriteVersion(env: string, v: Version) returns (number: Option<nat>)
      requires Contiguous(rows)
      modifies this
      ensures Contiguous(rows) && KeepsRows(old(rows), rows)
      ensures number.Some? ==>
                && number.value > old(Count(rows, env)) && own == old(own) + {Key(env, number.value)}
                && Key(env, number.value) in rows && rows[Key(env, number.value)] == v
      ensures number.None? ==> own == old(own) && Count(rows, env) >= old(Count(rows, env)) + 3
    {
      hide Contiguous, Count;
      for attempt := 0 to MAX_ATTEMPTS
        invariant Contiguous(rows) && own == old(own)
        invariant KeepsRows(old(rows), rows)
        invariant Count(rows, env) >= old(Count(rows, env)) + attempt
      {
        number := Attempt(env, v);
        if number.Some? {
          return;
        }
      }
      return None;
    }
  }
}
