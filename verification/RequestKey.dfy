/**
 * internal/upstream/coalesce.go, RequestKey: the bytes whose digest decides
 * which outgoing requests share a cache entry or a flight. Strings are byte
 * strings: one char stands for one byte. The digest itself is SHA-256 and
 * taken to have no collisions, so the claims are about the bytes hashed.
 */
module RequestKey {
  import opened Wrappers
  import opened Sorting

  type Header = map<string, seq<string>>

  /** GetBody is nil, fails, or gives the body. */
  datatype Body = NoBody | Unreadable | Bytes(content: string)

  datatype Request = Request(verb: string, url: string, header: Header, body: Body)

  // ----- Canonical header names -----

  predicate IsTokenChar(c: char) {
    || 'a' <= c <= 'z' || 'A' <= c <= 'Z' || '0' <= c <= '9'
    || c in "!#$%&'*+-.^_`|~"
  }

  predicate IsToken(name: string) {
    forall i :: 0 <= i < |name| ==> IsTokenChar(name[i])
  }

  function Upper(c: char): char {
    if 'a' <= c <= 'z' then (c as int - 32) as char else c
  }

  function Lower(c: char): char {
    if 'A' <= c <= 'Z' then (c as int + 32) as char else c
  }

  function Cased(name: string, upper: bool): string {
    if name == "" then ""
    else [if upper then Upper(name[0]) else Lower(name[0])] + Cased(name[1..], name[0] == '-')
  }

  /** http.CanonicalHeaderKey: a name that is no token stays as it is. */
  function Canonical(name: string): string {
    if IsToken(name) then Cased(name, true) else name
  }

  const PER_REQUEST_HEADERS := {"X-Request-Id", "X-Correlation-Id", "Traceparent", "Tracestate", "Baggage"}

  function LowerAll(s: string): (r: string)
    ensures |r| == |s| && forall i :: 0 <= i < |s| ==> r[i] == Lower(s[i])
  {
    seq(|s|, i requires 0 <= i < |s| => Lower(s[i]))
  }

  lemma {:induction false} LowerOfCased(name: string, upper: bool)
    ensures LowerAll(Cased(name, upper)) == LowerAll(name)
  {
    if name != "" {
      LowerOfCased(name[1..], name[0] == '-');
      assert LowerAll(name) == [Lower(name[0])] + LowerAll(name[1..]);
      var c := Cased(name, upper);
      assert c[1..] == Cased(name[1..], name[0] == '-');
      assert LowerAll(c) == [Lower(c[0])] + LowerAll(c[1..]);
    }
  }

  lemma {:induction false} SameLowerSameCased(a: string, b: string, upper: bool)
    requires LowerAll(a) == LowerAll(b)
    ensures Cased(a, upper) == Cased(b, upper)
  {
    assert |a| == |LowerAll(a)| == |LowerAll(b)| == |b|;
    if a != "" {
      assert Lower(a[0]) == LowerAll(a)[0] == LowerAll(b)[0] == Lower(b[0]);
      assert LowerAll(a[1..]) == LowerAll(a)[1..];
      assert LowerAll(b[1..]) == LowerAll(b)[1..];
      SameLowerSameCased(a[1..], b[1..], a[0] == '-');
    }
  }

  /** Two header names are one canonically iff they differ in case only. */
  lemma CanonicalIff(a: string, b: string)
    requires IsToken(a) && IsToken(b)
    ensures Canonical(a) == Canonical(b) <==> LowerAll(a) == LowerAll(b)
  {
    LowerOfCased(a, true);
    LowerOfCased(b, true);
    if LowerAll(a) == LowerAll(b) { SameLowerSameCased(a, b, true); }
  }

  lemma TokenOfLower(name: string)
    requires IsToken(LowerAll(name))
    ensures IsToken(name)
  {
    forall i | 0 <= i < |name| ensures IsTokenChar(name[i]) {
      assert IsTokenChar(LowerAll(name)[i]);
    }
  }

  /** canonical is lower with a capital letter at the start and after each hyphen. */
  predicate Capitalized(lower: string, canonical: string) {
    |canonical| == |lower| && forall i :: 0 <= i < |lower| ==> CapitalizedAt(lower, canonical, i)
  }

  predicate CapitalizedAt(lower: string, canonical: string, i: int)
    requires 0 <= i < |lower| == |canonical|
  {
    && ('a' <= lower[i] <= 'z' || lower[i] == '-')
    && canonical[i] == if i == 0 || lower[i - 1] == '-' then Upper(lower[i]) else lower[i]
  }

  lemma {:induction false} CasedAt(name: string, upper: bool, i: nat)
    requires i < |name|
    ensures |Cased(name, upper)| == |name|
    ensures Cased(name, upper)[i] == if (if i == 0 then upper else name[i - 1] == '-') then Upper(name[i]) else Lower(name[i])
  {
    if i > 0 {
      CasedAt(name[1..], name[0] == '-', i - 1);
    } else if |name| > 1 {
      CasedAt(name[1..], name[0] == '-', 0);
    }
  }

  lemma LowerOfUpper(c: char)
    requires 'a' <= c <= 'z' || c == '-'
    ensures Lower(c) == c && Lower(Upper(c)) == c && IsTokenChar(c)
  {
  }

  lemma CapitalizedIsCased(lower: string, canonical: string)
    requires lower != "" && Capitalized(lower, canonical)
    ensures Cased(lower, true) == canonical && LowerAll(lower) == lower && LowerAll(canonical) == lower && IsToken(lower)
  {
    CasedAt(lower, true, 0);
    forall i | 0 <= i < |lower|
      ensures Cased(lower, true)[i] == canonical[i] && Lower(lower[i]) == lower[i] == Lower(canonical[i]) && IsTokenChar(lower[i])
    {
      assert CapitalizedAt(lower, canonical, i);
      CasedAt(lower, true, i);
      LowerOfUpper(lower[i]);
    }
  }

  lemma CanonicalOf(name: string, lower: string, canonical: string)
    requires lower != "" && Capitalized(lower, canonical)
    ensures Canonical(name) == canonical <==> LowerAll(name) == lower
  {
    CapitalizedIsCased(lower, canonical);
    LowerOfCased(name, true);
    if LowerAll(name) == lower {
      TokenOfLower(name);
      SameLowerSameCased(name, lower, true);
    }
  }

  lemma HyphenCapitalized(a: string, b: string, ca: string, cb: string)
    requires Capitalized(a, ca) && Capitalized(b, cb)
    ensures Capitalized(a + "-" + b, ca + "-" + cb)
  {
    var s, t := a + "-" + b, ca + "-" + cb;
    assert s[|a|] == '-' && t[|a|] == '-' && Upper('-') == '-';
    forall i | 0 <= i < |s| ensures CapitalizedAt(s, t, i) {
      if i < |a| {
        assert CapitalizedAt(a, ca, i);
        assert s[i] == a[i] && t[i] == ca[i];
        assert i > 0 ==> s[i - 1] == a[i - 1];
      } else if i > |a| {
        var j := i - |a| - 1;
        assert CapitalizedAt(b, cb, j);
        assert s[i] == b[j] && t[i] == cb[j];
        assert j > 0 ==> s[i - 1] == b[j - 1];
      }
    }
  }

  predicate Letters(s: string) {
    forall i :: 0 <= i < |s| ==> 'a' <= s[i] <= 'z'
  }

  lemma WordCapitalized(first: char, rest: string)
    requires 'a' <= first <= 'z' && Letters(rest)
    ensures Capitalized([first] + rest, [Upper(first)] + rest)
  {
  }

  lemma WordsCapitalized()
    ensures Capitalized("x", "X")
    ensures Capitalized("id", "Id")
    ensures Capitalized("request", "Request")
    ensures Capitalized("correlation", "Correlation")
  {
    hide Capitalized;
    WordCapitalized('x', "");
    WordCapitalized('i', "d");
    WordCapitalized('r', "equest");
    WordCapitalized('c', "orrelation");
    assert ['x'] + "" == "x" && ['X'] + "" == "X";
    assert ['i'] + "d" == "id" && ['I'] + "d" == "Id";
    assert ['r'] + "equest" == "request" && ['R'] + "equest" == "Request";
    assert ['c'] + "orrelation" == "correlation" && ['C'] + "orrelation" == "Correlation";
  }

  lemma WholeNamesCapitalized()
    ensures Capitalized("baggage", "Baggage")
    ensures Capitalized("traceparent", "Traceparent")
    ensures Capitalized("tracestate", "Tracestate")
  {
    hide Capitalized;
    WordCapitalized('b', "aggage");
    WordCapitalized('t', "raceparent");
    WordCapitalized('t', "racestate");
    assert ['b'] + "aggage" == "baggage" && ['B'] + "aggage" == "Baggage";
    assert ['t'] + "raceparent" == "traceparent" && ['T'] + "raceparent" == "Traceparent";
    assert ['t'] + "racestate" == "tracestate" && ['T'] + "racestate" == "Tracestate";
  }

  /** The names that do not count, in whatever case they are written. */
  lemma PerRequestNames(name: string)
    ensures Canonical(name) in PER_REQUEST_HEADERS <==>
              LowerAll(name) in {"x-request-id", "x-correlation-id", "traceparent", "tracestate", "baggage"}
  {
    hide Capitalized, Canonical, LowerAll;
    WordsCapitalized();
    WholeNamesCapitalized();
    HyphenCapitalized("x", "request", "X", "Request");
    HyphenCapitalized("x", "correlation", "X", "Correlation");
    assert "x" + "-" + "request" == "x-request" && "X" + "-" + "Request" == "X-Request";
    assert "x" + "-" + "correlation" == "x-correlation" && "X" + "-" + "Correlation" == "X-Correlation";
    HyphenCapitalized("x-request", "id", "X-Request", "Id");
    HyphenCapitalized("x-correlation", "id", "X-Correlation", "Id");
    assert "x-request" + "-" + "id" == "x-request-id" && "X-Request" + "-" + "Id" == "X-Request-Id";
    assert "x-correlation" + "-" + "id" == "x-correlation-id" && "X-Correlation" + "-" + "Id" == "X-Correlation-Id";
    CanonicalOf(name, "x-request-id", "X-Request-Id");
    CanonicalOf(name, "x-correlation-id", "X-Correlation-Id");
    CanonicalOf(name, "traceparent", "Traceparent");
    CanonicalOf(name, "tracestate", "Tracestate");
    CanonicalOf(name, "baggage", "Baggage");
  }

  // ----- The encoding -----

  /** The last `width` base-256 digits of n, the highest first. */
  function BigEndian(n: nat, width: nat): (s: string)
    ensures |s| == width
    decreases width
  {
    if width == 0 then "" else BigEndian(n / 256, width - 1) + [(n % 256) as char]
  }

  function Len(n: nat): string {
    BigEndian(n, 8)
  }

  function Field(s: string): string {
    Len(|s|) + s
  }

  function Values(vs: seq<string>): string {
    if vs == [] then "" else Field(vs[0]) + Values(vs[1..])
  }

  datatype Entry = Entry(name: string, values: seq<string>)

  function EncodedEntry(e: Entry): string {
    Field(e.name) + Len(|e.values|) + Values(e.values)
  }

  function Entries(es: seq<Entry>): string {
    if es == [] then "" else EncodedEntry(es[0]) + Entries(es[1..])
  }

  function BodyBytes(body: Body): string {
    if body.Bytes? then body.content else ""
  }

  function Encoded(req: Request, auth: string, es: seq<Entry>): string {
    Field(req.verb) + (Field(req.url) + (Len(|es|) + (Entries(es) + (Field(BodyBytes(req.body)) + Field(auth)))))
  }

  // ----- RequestKey -----

  /** The header names that count. */
  function KeyNames(header: Header): set<string> {
    set n | n in header && Canonical(n) !in PER_REQUEST_HEADERS
  }

  function EntriesOf(header: Header, names: seq<string>): (es: seq<Entry>)
    requires forall n :: n in names ==> n in header
    ensures |es| == |names|
    ensures forall i :: 0 <= i < |names| ==> es[i] == Entry(Canonical(names[i]), header[names[i]])
  {
    seq(|names|, i requires 0 <= i < |names| => Entry(Canonical(names[i]), header[names[i]]))
  }

  ghost predicate SortedByCanonical(names: seq<string>) {
    forall i, j :: 0 <= i < j < |names| ==> Leq(Canonical(names[i]), Canonical(names[j]))
  }

  /** The order RequestKey may visit the counting names in. */
  ghost predicate Visits(header: Header, names: seq<string>) {
    NoDuplicates(names) && ToSet(names) == KeyNames(header) && SortedByCanonical(names)
  }

  lemma VisitsKnown(header: Header, names: seq<string>)
    requires Visits(header, names)
    ensures forall n :: n in names ==> n in header
  {
    forall n | n in names ensures n in header { assert n in ToSet(names); }
  }

  /** bytes can be hashed for the request; the order of equal canonical names is up to the runtime. */
  ghost predicate Hashes(req: Request, auth: string, bytes: string) {
    exists names :: HashesBy(req, auth, bytes, names)
  }

  ghost predicate HashesBy(req: Request, auth: string, bytes: string, names: seq<string>) {
    Visited(req.header, names) && bytes == Encoded(req, auth, EntriesOf(req.header, names))
  }

  function InsertByCanonical(x: string, xs: seq<string>): (r: seq<string>)
    ensures forall y :: y in r <==> y == x || y in xs
  {
    if xs == [] || Leq(Canonical(x), Canonical(xs[0])) then [x] + xs
    else
      assert xs == [xs[0]] + xs[1..];
      [xs[0]] + InsertByCanonical(x, xs[1..])
  }

  lemma {:induction false} InsertKeepsCanonicalOrder(x: string, xs: seq<string>)
    requires SortedByCanonical(xs) && NoDuplicates(xs) && x !in xs
    ensures SortedByCanonical(InsertByCanonical(x, xs)) && NoDuplicates(InsertByCanonical(x, xs))
  {
    if xs == [] {
    } else if Leq(Canonical(x), Canonical(xs[0])) {
      forall j | 0 <= j < |xs| ensures Leq(Canonical(x), Canonical(xs[j])) {
        if j > 0 { LeqTransitive(Canonical(x), Canonical(xs[0]), Canonical(xs[j])); }
      }
    } else {
      LeqTotal(Canonical(x), Canonical(xs[0]));
      InsertKeepsCanonicalOrder(x, xs[1..]);
      var r := InsertByCanonical(x, xs[1..]);
      forall j | 0 <= j < |r| ensures Leq(Canonical(xs[0]), Canonical(r[j])) && r[j] != xs[0] {
        assert r[j] in r;
      }
    }
  }

  /** Writes one header: its name, how many values, and each value. */
  method WriteEntry(h0: string, name: string, values: seq<string>) returns (h: string)
    ensures h == h0 + EncodedEntry(Entry(name, values))
  {
    hide Field, Len;
    h := h0 + Field(name) + Len(|values|);
    ghost var start := h;
    for j := 0 to |values|
      invariant h + Values(values[j..]) == start + Values(values)
    {
      assert values[j..][1..] == values[j + 1..];
      Assoc(h, Field(values[j]), Values(values[j + 1..]));
      h := h + Field(values[j]);
    }
    Assoc(h0 + Field(name), Len(|values|), Values(values));
    Assoc(h0, Field(name), Len(|values|));
    assert values[|values|..] == [];
    assert h + "" == h;
    Assoc(h0, Field(name) + Len(|values|), Values(values));
  }

  method WriteEntries(h0: string, es: seq<Entry>) returns (h: string)
    ensures h == h0 + Entries(es)
  {
    hide EncodedEntry;
    h := h0;
    for i := 0 to |es|
      invariant h + Entries(es[i..]) == h0 + Entries(es)
    {
      assert es[i..][1..] == es[i + 1..];
      Assoc(h, EncodedEntry(es[i]), Entries(es[i + 1..]));
      h := WriteEntry(h, es[i].name, es[i].values);
    }
    assert es[|es|..] == [];
    assert h + "" == h;
  }

  lemma FlatEncoded(req: Request, auth: string, es: seq<Entry>)
    ensures Encoded(req, auth, es) ==
              ((((Field(req.verb) + Field(req.url)) + Len(|es|)) + Entries(es)) + Field(BodyBytes(req.body))) + Field(auth)
  {
    hide Field, Len, Entries;
    var m, u, n, e, b, a := Field(req.verb), Field(req.url), Len(|es|), Entries(es), Field(BodyBytes(req.body)), Field(auth);
    Assoc(m, u, n + (e + (b + a)));
    Assoc(m + u, n, e + (b + a));
    Assoc((m + u) + n, e, b + a);
    Assoc(((m + u) + n) + e, b, a);
  }

  /** The bytes hashed for req, or an error when the body cannot be read. */
  method Key(req: Request, clientAuthorization: string) returns (r: Result<string, string>)
    ensures r.Failure? <==> req.body.Unreadable?
    ensures r.Success? ==> Hashes(req, clientAuthorization, r.value)
  {
    hide Field, Len, Encoded, Visits, Entries;
    var h := Field(req.verb) + Field(req.url);
    var names := SortedNames(req.header);
    VisitsKnown(req.header, names);
    h := h + Len(|names|);
    var es := EntriesOf(req.header, names);
    h := WriteEntries(h, es);
    if req.body.Unreadable? {
      return Failure("read request body for key");
    }
    h := h + Field(BodyBytes(req.body));
    h := h + Field(clientAuthorization);
    FlatEncoded(req, clientAuthorization, es);
    assert HashesBy(req, clientAuthorization, h, names);
    return Success(h);
  }

  method SortedNames(header: Header) returns (names: seq<string>)
    ensures Visits(header, names)
  {
    names := [];
    var rest := header.Keys;
    while rest != {}
      invariant rest <= header.Keys
      invariant NoDuplicates(names) && SortedByCanonical(names)
      invariant forall n :: n in names <==> n in header && n !in rest && Canonical(n) !in PER_REQUEST_HEADERS
    {
      var name :| name in rest;
      if Canonical(name) !in PER_REQUEST_HEADERS {
        InsertKeepsCanonicalOrder(name, names);
        names := InsertByCanonical(name, names);
      }
      rest := rest - {name};
    }
  }

  // ----- The encoding can be read back -----

  function Power(k: nat): nat {
    if k == 0 then 1 else 256 * Power(k - 1)
  }

  lemma {:induction false} BigEndianInjective(m: nat, n: nat, width: nat)
    requires m < Power(width) && n < Power(width) && BigEndian(m, width) == BigEndian(n, width)
    ensures m == n
    decreases width
  {
    if width > 0 {
      var s, t := BigEndian(m, width), BigEndian(n, width);
      assert s[..width - 1] == BigEndian(m / 256, width - 1) && t[..width - 1] == BigEndian(n / 256, width - 1);
      assert s[width - 1] == (m % 256) as char && t[width - 1] == (n % 256) as char;
      BigEndianInjective(m / 256, n / 256, width - 1);
    }
  }

  /** A length Go can have: 64 bits hold it. */
  predicate Fits(n: nat) {
    n < Power(8)
  }

  lemma LenThenInjective(m: nat, n: nat, x: string, y: string)
    requires Fits(m) && Fits(n) && Len(m) + x == Len(n) + y
    ensures m == n && x == y
  {
    hide BigEndian, Power;
    SplitAt(Len(m), Len(n), x, y);
    BigEndianInjective(m, n, 8);
  }

  lemma Assoc(a: string, b: string, c: string)
    ensures (a + b) + c == a + (b + c)
  {
  }

  /** What follows a prefix of known length. */
  lemma SplitAt(a: string, b: string, x: string, y: string)
    requires |a| == |b| && a + x == b + y
    ensures a == b && x == y
  {
    assert a == (a + x)[..|a|] == (b + y)[..|a|] == b;
    assert x == (a + x)[|a|..] == (b + y)[|a|..] == y;
  }

  /** A field ends where its length says, so what follows is determined too. */
  lemma FieldThenInjective(a: string, b: string, x: string, y: string)
    requires Fits(|a|) && Fits(|b|) && Field(a) + x == Field(b) + y
    ensures a == b && x == y
  {
    hide Len, Fits;
    Assoc(Len(|a|), a, x);
    Assoc(Len(|b|), b, y);
    LenThenInjective(|a|, |b|, a + x, b + y);
    SplitAt(a, b, x, y);
  }

  predicate ValuesFit(vs: seq<string>) {
    Fits(|vs|) && forall i :: 0 <= i < |vs| ==> Fits(|vs[i]|)
  }

  lemma {:induction false} ValuesThenInjective(vs: seq<string>, ws: seq<string>, x: string, y: string)
    requires |vs| == |ws| && Values(vs) + x == Values(ws) + y
    requires forall i :: 0 <= i < |vs| ==> Fits(|vs[i]|) && Fits(|ws[i]|)
    ensures vs == ws && x == y
  {
    hide Field, Fits;
    assert "" + x == x && "" + y == y;
    if vs != [] {
      Assoc(Field(vs[0]), Values(vs[1..]), x);
      Assoc(Field(ws[0]), Values(ws[1..]), y);
      FieldThenInjective(vs[0], ws[0], Values(vs[1..]) + x, Values(ws[1..]) + y);
      ValuesThenInjective(vs[1..], ws[1..], x, y);
      assert vs == [vs[0]] + vs[1..] && ws == [ws[0]] + ws[1..];
    }
  }

  predicate EntryFits(e: Entry) {
    Fits(|e.name|) && ValuesFit(e.values)
  }

  lemma EncodedEntryThen(e: Entry, x: string)
    ensures EncodedEntry(e) + x == Field(e.name) + (Len(|e.values|) + (Values(e.values) + x))
  {
    hide Field, Len, Values;
    Assoc(Field(e.name) + Len(|e.values|), Values(e.values), x);
    Assoc(Field(e.name), Len(|e.values|), Values(e.values) + x);
  }

  lemma EntryThenInjective(d: Entry, e: Entry, x: string, y: string)
    requires EntryFits(d) && EntryFits(e) && EncodedEntry(d) + x == EncodedEntry(e) + y
    ensures d == e && x == y
  {
    hide Field, Len, Values, Fits;
    EncodedEntryThen(d, x);
    EncodedEntryThen(e, y);
    FieldThenInjective(d.name, e.name, Len(|d.values|) + (Values(d.values) + x), Len(|e.values|) + (Values(e.values) + y));
    LenThenInjective(|d.values|, |e.values|, Values(d.values) + x, Values(e.values) + y);
    ValuesThenInjective(d.values, e.values, x, y);
  }

  lemma {:induction false} EntriesThenInjective(ds: seq<Entry>, es: seq<Entry>, x: string, y: string)
    requires |ds| == |es| && Entries(ds) + x == Entries(es) + y
    requires forall i :: 0 <= i < |ds| ==> EntryFits(ds[i]) && EntryFits(es[i])
    ensures ds == es && x == y
  {
    hide EncodedEntry, EntryFits;
    assert "" + x == x && "" + y == y;
    if ds != [] {
      Assoc(EncodedEntry(ds[0]), Entries(ds[1..]), x);
      Assoc(EncodedEntry(es[0]), Entries(es[1..]), y);
      EntryThenInjective(ds[0], es[0], Entries(ds[1..]) + x, Entries(es[1..]) + y);
      EntriesThenInjective(ds[1..], es[1..], x, y);
      assert ds == [ds[0]] + ds[1..] && es == [es[0]] + es[1..];
    }
  }

  // ----- Which requests share a key -----

  /** Every length fits 64 bits, as any Go value's does. */
  ghost predicate RequestFits(req: Request, auth: string) {
    && Fits(|req.verb|) && Fits(|req.url|) && Fits(|req.header|) && Fits(|BodyBytes(req.body)|) && Fits(|auth|)
    && forall n :: n in req.header ==> Fits(|Canonical(n)|) && ValuesFit(req.header[n])
  }

  /** No two names of the header are written the same canonically. */
  ghost predicate DistinctCanonical(header: Header) {
    forall m, n :: m in header && n in header && Canonical(m) == Canonical(n) ==> m == n
  }

  /** Every name of a that counts is in b, with the same values in the same order. */
  ghost predicate Within(a: Header, b: Header) {
    forall m :: m in KeyNames(a) ==> exists n :: n in KeyNames(b) && Canonical(m) == Canonical(n) && a[m] == b[n]
  }

  /** One header means the same as the other, but for the per-request names. */
  ghost predicate SameHeaders(a: Header, b: Header) {
    Within(a, b) && Within(b, a)
  }

  ghost predicate SameRequest(r1: Request, auth1: string, r2: Request, auth2: string) {
    && r1.verb == r2.verb && r1.url == r2.url && SameHeaders(r1.header, r2.header)
    && BodyBytes(r1.body) == BodyBytes(r2.body) && auth1 == auth2
  }

  function CanonicalNames(names: seq<string>): (cs: seq<string>)
    ensures |cs| == |names| && forall i :: 0 <= i < |names| ==> cs[i] == Canonical(names[i])
  {
    seq(|names|, i requires 0 <= i < |names| => Canonical(names[i]))
  }

  /** Visiting orders of headers that mean the same give the same entries. */
  lemma SameHeadersSameEntries(a: Header, b: Header, ms: seq<string>, ns: seq<string>)
    requires DistinctCanonical(a) && DistinctCanonical(b) && SameHeaders(a, b)
    requires Visits(a, ms) && Visits(b, ns)
    requires (forall n :: n in ms ==> n in a) && (forall n :: n in ns ==> n in b)
    ensures EntriesOf(a, ms) == EntriesOf(b, ns)
  {
    hide Canonical, SortedByCanonical, Sorted;
    var cs, ds := CanonicalNames(ms), CanonicalNames(ns);
    CanonicalSorted(a, ms);
    CanonicalSorted(b, ns);
    assert ToSet(cs) == ToSet(ds) by {
      forall c | c in cs ensures c in ds { CanonicalAcross(a, b, ms, ns, c); }
      forall c | c in ds ensures c in cs { CanonicalAcross(b, a, ns, ms, c); }
    }
    SortedIsUnique(cs, ds);
    forall i | 0 <= i < |ms| ensures EntriesOf(a, ms)[i] == EntriesOf(b, ns)[i] {
      assert cs[i] == ds[i];
      assert ms[i] in ToSet(ms) && ns[i] in ToSet(ns);
      var n :| n in KeyNames(b) && Canonical(ms[i]) == Canonical(n) && a[ms[i]] == b[n];
      assert n == ns[i];
    }
  }

  lemma CanonicalSorted(a: Header, ms: seq<string>)
    requires DistinctCanonical(a) && Visits(a, ms)
    ensures Sorted(CanonicalNames(ms)) && NoDuplicates(CanonicalNames(ms))
  {
    VisitsKnown(a, ms);
    var cs := CanonicalNames(ms);
    forall i, j | 0 <= i < j < |cs| ensures cs[i] != cs[j] {
      assert ms[i] in ms && ms[j] in ms;
    }
  }

  lemma CanonicalAcross(a: Header, b: Header, ms: seq<string>, ns: seq<string>, c: string)
    requires Within(a, b) && Visits(a, ms) && Visits(b, ns) && c in CanonicalNames(ms)
    ensures c in CanonicalNames(ns)
  {
    hide Canonical, SortedByCanonical, NoDuplicates;
    var i :| 0 <= i < |ms| && Canonical(ms[i]) == c;
    assert ms[i] in ToSet(ms);
    var n :| n in KeyNames(b) && Canonical(n) == c && a[ms[i]] == b[n];
    assert n in ToSet(ns);
    var j :| 0 <= j < |ns| && ns[j] == n;
    assert CanonicalNames(ns)[j] == c;
  }

  /** Equal entries make headers that mean the same. */
  lemma SameEntriesSameHeaders(a: Header, b: Header, ms: seq<string>, ns: seq<string>)
    requires Visits(a, ms) && Visits(b, ns)
    requires (forall n :: n in ms ==> n in a) && (forall n :: n in ns ==> n in b)
    requires EntriesOf(a, ms) == EntriesOf(b, ns)
    ensures SameHeaders(a, b)
  {
    var ds, es := EntriesOf(a, ms), EntriesOf(b, ns);
    assert |ms| == |ds| == |es| == |ns|;
    forall m | m in KeyNames(a)
      ensures exists n :: n in KeyNames(b) && Canonical(m) == Canonical(n) && a[m] == b[n]
    {
      assert m in ToSet(ms);
      var i :| 0 <= i < |ms| && ms[i] == m;
      assert ds[i] == es[i] && ns[i] in ToSet(ns);
    }
    forall n | n in KeyNames(b)
      ensures exists m :: m in KeyNames(a) && Canonical(n) == Canonical(m) && b[n] == a[m]
    {
      assert n in ToSet(ns);
      var i :| 0 <= i < |ns| && ns[i] == n;
      assert ds[i] == es[i] && ms[i] in ToSet(ms);
    }
  }

  lemma EncodedInjective(r1: Request, auth1: string, ds: seq<Entry>, r2: Request, auth2: string, es: seq<Entry>)
    requires Encoded(r1, auth1, ds) == Encoded(r2, auth2, es)
    requires Fits(|r1.verb|) && Fits(|r1.url|) && Fits(|BodyBytes(r1.body)|) && Fits(|auth1|)
    requires Fits(|r2.verb|) && Fits(|r2.url|) && Fits(|BodyBytes(r2.body)|) && Fits(|auth2|)
    requires Fits(|ds|) && forall i :: 0 <= i < |ds| ==> EntryFits(ds[i])
    requires Fits(|es|) && forall i :: 0 <= i < |es| ==> EntryFits(es[i])
    ensures r1.verb == r2.verb && r1.url == r2.url && ds == es
    ensures BodyBytes(r1.body) == BodyBytes(r2.body) && auth1 == auth2
  {
    var b1, b2 := Field(BodyBytes(r1.body)) + Field(auth1), Field(BodyBytes(r2.body)) + Field(auth2);
    var n1, n2 := Len(|ds|) + (Entries(ds) + b1), Len(|es|) + (Entries(es) + b2);
    FieldThenInjective(r1.verb, r2.verb, Field(r1.url) + n1, Field(r2.url) + n2);
    FieldThenInjective(r1.url, r2.url, n1, n2);
    LenThenInjective(|ds|, |es|, Entries(ds) + b1, Entries(es) + b2);
    EntriesThenInjective(ds, es, b1, b2);
    FieldThenInjective(BodyBytes(r1.body), BodyBytes(r2.body), Field(auth1), Field(auth2));
    assert Field(auth1) + "" == Field(auth1) && Field(auth2) + "" == Field(auth2);
    FieldThenInjective(auth1, auth2, "", "");
  }

  lemma EntriesFit(req: Request, auth: string, names: seq<string>)
    requires RequestFits(req, auth) && Visits(req.header, names) && forall n :: n in names ==> n in req.header
    ensures Fits(|EntriesOf(req.header, names)|)
    ensures forall i :: 0 <= i < |names| ==> EntryFits(EntriesOf(req.header, names)[i])
  {
    CardinalityOfDistinct(names);
    assert ToSet(names) <= req.header.Keys;
    assert req.header.Keys == ToSet(names) + (req.header.Keys - ToSet(names));
    assert |req.header.Keys| == |req.header|;
    forall i | 0 <= i < |names| ensures EntryFits(EntriesOf(req.header, names)[i]) {
      assert names[i] in names;
    }
  }

  ghost predicate Visited(header: Header, names: seq<string>) {
    Visits(header, names) && forall n :: n in names ==> n in header
  }

  lemma SameBytesSameRequest(r1: Request, auth1: string, ms: seq<string>, r2: Request, auth2: string, ns: seq<string>)
    requires RequestFits(r1, auth1) && RequestFits(r2, auth2) && Visited(r1.header, ms) && Visited(r2.header, ns)
    requires Encoded(r1, auth1, EntriesOf(r1.header, ms)) == Encoded(r2, auth2, EntriesOf(r2.header, ns))
    ensures SameRequest(r1, auth1, r2, auth2)
  {
    hide Visits, Encoded, SameHeaders;
    EntriesFit(r1, auth1, ms);
    EntriesFit(r2, auth2, ns);
    EncodedInjective(r1, auth1, EntriesOf(r1.header, ms), r2, auth2, EntriesOf(r2.header, ns));
    SameEntriesSameHeaders(r1.header, r2.header, ms, ns);
  }

  lemma SameRequestSameBytes(r1: Request, auth1: string, ms: seq<string>, r2: Request, auth2: string, ns: seq<string>)
    requires DistinctCanonical(r1.header) && DistinctCanonical(r2.header) && Visited(r1.header, ms) && Visited(r2.header, ns)
    requires SameRequest(r1, auth1, r2, auth2)
    ensures Encoded(r1, auth1, EntriesOf(r1.header, ms)) == Encoded(r2, auth2, EntriesOf(r2.header, ns))
  {
    SameHeadersSameEntries(r1.header, r2.header, ms, ns);
  }

  /**
   * Two requests hash the same bytes exactly when they are the same request:
   * in particular the bytes do not depend on the order of the header map.
   */
  lemma SameKeyIffSameRequest(r1: Request, auth1: string, b1: string, r2: Request, auth2: string, b2: string)
    requires RequestFits(r1, auth1) && RequestFits(r2, auth2)
    requires DistinctCanonical(r1.header) && DistinctCanonical(r2.header)
    requires Hashes(r1, auth1, b1) && Hashes(r2, auth2, b2)
    ensures b1 == b2 <==> SameRequest(r1, auth1, r2, auth2)
  {
    var ms :| HashesBy(r1, auth1, b1, ms);
    var ns :| HashesBy(r2, auth2, b2, ns);
    if b1 == b2 { SameBytesSameRequest(r1, auth1, ms, r2, auth2, ns); }
    if SameRequest(r1, auth1, r2, auth2) { SameRequestSameBytes(r1, auth1, ms, r2, auth2, ns); }
  }

  /** Header names as Header.Set stores them. */
  ghost predicate AllCanonical(header: Header) {
    forall n :: n in header ==> Canonical(n) == n
  }

  /** For canonical names, meaning the same is being equal outside the per-request names. */
  lemma CanonicalHeadersAreMaps(a: Header, b: Header)
    requires AllCanonical(a) && AllCanonical(b)
    ensures DistinctCanonical(a)
    ensures SameHeaders(a, b) <==> a - PER_REQUEST_HEADERS == b - PER_REQUEST_HEADERS
  {
    var x, y := a - PER_REQUEST_HEADERS, b - PER_REQUEST_HEADERS;
    assert x.Keys == KeyNames(a) && y.Keys == KeyNames(b);
    if SameHeaders(a, b) {
      forall n | n in x ensures n in y && x[n] == y[n] { assert n in KeyNames(a); }
      forall n | n in y ensures n in x { assert n in KeyNames(b); }
    }
    if x == y {
      forall n | n in KeyNames(a) ensures n in KeyNames(b) && a[n] == b[n] { assert x[n] == y[n]; }
      forall n | n in KeyNames(b) ensures n in KeyNames(a) && a[n] == b[n] { assert x[n] == y[n]; }
    }
  }

  // ----- When the bytes depend on the order of the map -----

  /** Spellings of one canonical name carry the same values. */
  ghost predicate SpellingsAgree(header: Header) {
    forall m, n :: m in KeyNames(header) && n in KeyNames(header) && Canonical(m) == Canonical(n) ==> header[m] == header[n]
  }

  /** Whatever order the runtime visits the header map in, the bytes are the same. */
  ghost predicate KeyIsStable(req: Request, auth: string) {
    forall b1, b2 :: Hashes(req, auth, b1) && Hashes(req, auth, b2) ==> b1 == b2
  }

  lemma CanonicalWithout(ns: seq<string>, j: nat)
    requires j < |ns|
    ensures var rest := ns[..j] + ns[j + 1..];
            && multiset(ns) == multiset(rest) + multiset{ns[j]}
            && multiset(CanonicalNames(ns)) == multiset(CanonicalNames(rest)) + multiset{Canonical(ns[j])}
  {
    hide Canonical;
    var rest := ns[..j] + ns[j + 1..];
    var cs, ds := CanonicalNames(ns), CanonicalNames(rest);
    assert ns == ns[..j] + [ns[j]] + ns[j + 1..];
    assert cs == cs[..j] + [cs[j]] + cs[j + 1..];
    assert ds == cs[..j] + cs[j + 1..];
  }

  lemma {:induction false} CanonicalPermuted(ms: seq<string>, ns: seq<string>)
    requires multiset(ms) == multiset(ns)
    ensures multiset(CanonicalNames(ms)) == multiset(CanonicalNames(ns))
  {
    hide Canonical, CanonicalNames;
    if ms == [] {
      assert |ns| == |multiset(ns)| == 0;
    } else {
      assert ms[0] in multiset(ns);
      var j :| 0 <= j < |ns| && ns[j] == ms[0];
      CanonicalWithout(ms, 0);
      CanonicalWithout(ns, j);
      assert ms[..0] + ms[0 + 1..] == ms[1..];
      assert multiset(ms[1..]) == multiset(ms) - multiset{ms[0]} == multiset(ns[..j] + ns[j + 1..]);
      CanonicalPermuted(ms[1..], ns[..j] + ns[j + 1..]);
    }
  }

  lemma VisitsAgree(header: Header, ms: seq<string>, ns: seq<string>)
    requires Visited(header, ms) && Visited(header, ns) && SpellingsAgree(header)
    ensures EntriesOf(header, ms) == EntriesOf(header, ns)
  {
    DistinctPermutation(ms, ns);
    CanonicalPermuted(ms, ns);
    var cs, ds := CanonicalNames(ms), CanonicalNames(ns);
    SortedPermutation(cs, ds);
    hide Canonical, SortedByCanonical, NoDuplicates;
    forall i | 0 <= i < |ms| ensures EntriesOf(header, ms)[i] == EntriesOf(header, ns)[i] {
      assert cs[i] == ds[i];
      assert ms[i] in ToSet(ms) && ns[i] in ToSet(ns);
    }
  }

  lemma {:induction false} SomeVisit(names: set<string>) returns (visit: seq<string>)
    ensures NoDuplicates(visit) && ToSet(visit) == names && SortedByCanonical(visit)
    decreases |names|
  {
    if names == {} {
      return [];
    }
    var n :| n in names;
    var others := SomeVisit(names - {n});
    assert n !in ToSet(others);
    InsertKeepsCanonicalOrder(n, others);
    visit := InsertByCanonical(n, others);
    forall x ensures x in visit <==> x in names {
      assert x in others <==> x in ToSet(others);
    }
  }

  /** Two spellings may change places. */
  lemma SwapVisits(header: Header, names: seq<string>, i: nat, j: nat)
    requires Visits(header, names) && i < |names| && j < |names| && Canonical(names[i]) == Canonical(names[j])
    ensures Visits(header, names[i := names[j]][j := names[i]])
  {
    hide Canonical, KeyNames;
    var swapped := names[i := names[j]][j := names[i]];
    forall n | n in names ensures n in swapped {
      var k :| 0 <= k < |names| && names[k] == n;
      assert swapped[if k == i then j else if k == j then i else k] == n;
    }
    forall n | n in swapped ensures n in names {
      var k :| 0 <= k < |swapped| && swapped[k] == n;
    }
    assert ToSet(swapped) == ToSet(names);
  }

  lemma DisagreementShows(req: Request, auth: string, m: string, n: string)
    requires RequestFits(req, auth) && m in KeyNames(req.header) && n in KeyNames(req.header)
    requires Canonical(m) == Canonical(n) && req.header[m] != req.header[n]
    ensures !KeyIsStable(req, auth)
  {
    hide Canonical, Encoded;
    var names := SomeVisit(KeyNames(req.header));
    assert m in ToSet(names) && n in ToSet(names);
    var i :| 0 <= i < |names| && names[i] == m;
    var j :| 0 <= j < |names| && names[j] == n;
    SwapVisits(req.header, names, i, j);
    var swapped := names[i := n][j := m];
    VisitsKnown(req.header, names);
    VisitsKnown(req.header, swapped);
    DifferentVisits(req, auth, names, swapped, i);
  }

  lemma DifferentVisits(req: Request, auth: string, ms: seq<string>, ns: seq<string>, i: nat)
    requires RequestFits(req, auth) && Visited(req.header, ms) && Visited(req.header, ns)
    requires i < |ms| == |ns| && req.header[ms[i]] != req.header[ns[i]]
    ensures !KeyIsStable(req, auth)
  {
    var ds, es := EntriesOf(req.header, ms), EntriesOf(req.header, ns);
    EntriesFit(req, auth, ms);
    EntriesFit(req, auth, ns);
    assert ds[i] != es[i];
    hide Visited, Encoded, EntryFits, Fits;
    assert HashesBy(req, auth, Encoded(req, auth, ds), ms) && HashesBy(req, auth, Encoded(req, auth, es), ns);
    assert Hashes(req, auth, Encoded(req, auth, ds)) && Hashes(req, auth, Encoded(req, auth, es));
    if KeyIsStable(req, auth) {
      EncodedInjective(req, auth, ds, req, auth, es);
    }
  }

  /** The bytes do not depend on the order of the header map iff spellings of one name carry the same values. */
  lemma KeyIsStableIff(req: Request, auth: string)
    requires RequestFits(req, auth)
    ensures KeyIsStable(req, auth) <==> SpellingsAgree(req.header)
  {
    hide Canonical, Encoded, RequestFits, Visited;
    if SpellingsAgree(req.header) {
      forall b1, b2 | Hashes(req, auth, b1) && Hashes(req, auth, b2) ensures b1 == b2 {
        var ms :| HashesBy(req, auth, b1, ms);
        var ns :| HashesBy(req, auth, b2, ns);
        hide SpellingsAgree;
        VisitsAgree(req.header, ms, ns);
      }
    } else {
      var m, n :| m in KeyNames(req.header) && n in KeyNames(req.header) && Canonical(m) == Canonical(n)
                  && req.header[m] != req.header[n];
      DisagreementShows(req, auth, m, n);
    }
  }

  /** Two spellings of one name with different values leave the bytes to the runtime's map order. */
  lemma SpellingsDefeatTheKey()
    ensures var header := map["a" := ["1"], "A" := ["2"]];
            exists b1, b2 :: b1 != b2 && Hashes(Request("GET", "/", header, NoBody), "", b1)
                                      && Hashes(Request("GET", "/", header, NoBody), "", b2)
  {
    hide Encoded, Canonical, Hashes, HashesBy;
    var header := map["a" := ["1"], "A" := ["2"]];
    var req := Request("GET", "/", header, NoBody);
    SpellingHashes(header, "a", "A");
    SpellingHashes(header, "A", "a");
    CanonicalOfA();
    DifferentEntries(req, [Entry("A", ["1"]), Entry("A", ["2"])], [Entry("A", ["2"]), Entry("A", ["1"])]);
  }

  lemma DifferentEntries(req: Request, ds: seq<Entry>, es: seq<Entry>)
    requires req.verb == "GET" && req.url == "/" && req.body == NoBody
    requires ds == [Entry("A", ["1"]), Entry("A", ["2"])] && es == [Entry("A", ["2"]), Entry("A", ["1"])]
    ensures Encoded(req, "", ds) != Encoded(req, "", es)
  {
    hide Encoded;
    assert Fits(0) && Fits(1) && Fits(2) && Fits(3) by {
      assert Power(8) >= 256;
    }
    assert ds[0].values[0] == "1" && es[0].values[0] == "2";
    if Encoded(req, "", ds) == Encoded(req, "", es) {
      EncodedInjective(req, "", ds, req, "", es);
    }
  }

  lemma SpellingHashes(header: Header, m: string, n: string)
    requires header == map["a" := ["1"], "A" := ["2"]] && {m, n} == {"a", "A"}
    ensures var req := Request("GET", "/", header, NoBody);
            Hashes(req, "", Encoded(req, "", [Entry("A", header[m]), Entry("A", header[n])]))
  {
    hide Encoded, Canonical;
    CanonicalOfA();
    var req := Request("GET", "/", header, NoBody);
    var names := [m, n];
    assert KeyNames(header) == {"a", "A"};
    assert ToSet(names) == {m, n};
    LeqTotal("A", "A");
    assert EntriesOf(header, names) == [Entry("A", header[m]), Entry("A", header[n])];
    assert HashesBy(req, "", Encoded(req, "", EntriesOf(header, names)), names);
  }

  lemma CanonicalOfA()
    ensures Canonical("a") == "A" && Canonical("A") == "A"
  {
    assert Cased("a", true) == "A" && Cased("A", true) == "A";
  }
}
