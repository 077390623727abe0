/**
 * internal/gwconfig/env.go: the scanner behind ${VAR} and ${VAR:default}. The
 * gateway expands with its environment, Studio with a placeholder for every
 * name; both, and References, are the same scan with another replacement.
 */
module EnvScan {
  import opened Wrappers

  datatype Reference = Reference(name: string, default: Option<string>)

  datatype ScanError = DollarAtEnd | BareDollar | Unclosed | Unset(name: string)

  type Replace = Reference -> Result<string, ScanError>

  /** strings.Index for one character. */
  function Index(s: string, c: char): (i: Option<nat>)
    ensures i.Some? ==> i.value < |s| && s[i.value] == c && c !in s[..i.value]
    ensures i.None? <==> c !in s
  {
    if s == "" then None
    else if s[0] == c then Some(0)
    else
      assert s == [s[0]] + s[1..];
      var rest := Index(s[1..], c);
      if rest.None? then None
      else
        assert s[..rest.value + 1] == [s[0]] + s[1..][..rest.value];
        Some(rest.value + 1)
  }

  function ReferenceOf(content: string): Reference {
    var colon := Index(content, ':');
    if colon.Some? then Reference(content[..colon.value], Some(content[colon.value + 1..])) else Reference(content, None)
  }

  // ----- The syntax, apart from any replacement -----

  datatype Segment = Literal(c: char) | Substitute(r: Reference)

  /** The first segment of s and how long it is, or what is wrong with it. */
  function First(s: string): (r: Result<(Segment, nat), ScanError>)
    requires s != ""
    ensures r.Success? ==> 0 < r.value.1 <= |s|
    ensures r.Failure? ==> !r.error.Unset?
  {
    if s[0] != '$' then Success((Literal(s[0]), 1))
    else if |s| == 1 then Failure(DollarAtEnd)
    else if s[1] == '$' then Success((Literal('$'), 2))
    else if s[1] != '{' then Failure(BareDollar)
    else
      var end := Index(s[2..], '}');
      if end.None? then Failure(Unclosed)
      else Success((Substitute(ReferenceOf(s[2..2 + end.value])), 2 + end.value + 1))
  }

  function Parse(s: string): (r: Result<seq<Segment>, ScanError>)
    ensures r.Failure? ==> !r.error.Unset?
  {
    if s == "" then Success([])
    else
      var first := First(s);
      if first.Failure? then Failure(first.error)
      else
        var rest := Parse(s[first.value.1..]);
        if rest.Failure? then rest else Success([first.value.0] + rest.value)
  }

  function Render(segments: seq<Segment>, replace: Replace): Result<string, ScanError> {
    if segments == [] then Success("")
    else
      var first := match segments[0]
                   case Literal(c) => Success([c])
                   case Substitute(r) => replace(r);
      if first.Failure? then first
      else
        var rest := Render(segments[1..], replace);
        if rest.Failure? then rest else Success(first.value + rest.value)
  }

  function ReferencesOf(segments: seq<Segment>): seq<Reference> {
    if segments == [] then []
    else (if segments[0].Substitute? then [segments[0].r] else []) + ReferencesOf(segments[1..])
  }

  // ----- The scan -----

  /** What scan returns, and the references it hands to replace, in order. */
  datatype Scanned = Scanned(out: Result<string, ScanError>, visited: seq<Reference>)

  /** The scan of s after what has been written and visited. */
  function ScanFrom(s: string, replace: Replace, written: string, visited: seq<Reference>): Scanned
    decreases |s|
  {
    if s == "" then Scanned(Success(written), visited)
    else
      match First(s)
      case Failure(e) => Scanned(Failure(e), visited)
      case Success((Literal(c), n)) => ScanFrom(s[n..], replace, written + [c], visited)
      case Success((Substitute(r), n)) =>
        match replace(r)
        case Failure(e) => Scanned(Failure(e), visited + [r])
        case Success(v) => ScanFrom(s[n..], replace, written + v, visited + [r])
  }

  /** The first segment at position i, in terms of the characters there. */
  lemma FirstAt(s: string, i: nat)
    requires i < |s|
    ensures First(s[i..]) ==
              if s[i] != '$' then Success((Literal(s[i]), 1))
              else if i + 1 >= |s| then Failure(DollarAtEnd)
              else if s[i + 1] == '$' then Success((Literal('$'), 2))
              else if s[i + 1] != '{' then Failure(BareDollar)
              else
                var end := Index(s[i + 2..], '}');
                if end.None? then Failure(Unclosed)
                else Success((Substitute(ReferenceOf(s[i + 2..i + 2 + end.value])), 2 + end.value + 1))
  {
    hide Index, ReferenceOf;
    if i + 2 <= |s| {
      assert s[i..][2..] == s[i + 2..];
      var end := Index(s[i + 2..], '}');
      if end.Some? {
        assert s[i..][2..2 + end.value] == s[i + 2..i + 2 + end.value];
      }
    }
  }

  /** The scan after one segment, rest being what follows it. */
  function Continued(segment: Segment, rest: string, replace: Replace, written: string, visited: seq<Reference>): Scanned {
    if segment.Literal? then ScanFrom(rest, replace, written + [segment.c], visited)
    else
      var val := replace(segment.r);
      if val.Failure? then Scanned(Failure(val.error), visited + [segment.r])
      else ScanFrom(rest, replace, written + val.value, visited + [segment.r])
  }

  lemma ScanOn(s: string, i: nat, replace: Replace, written: string, visited: seq<Reference>)
    requires i < |s| && First(s[i..]).Success?
    ensures ScanFrom(s[i..], replace, written, visited) ==
              Continued(First(s[i..]).value.0, s[i + First(s[i..]).value.1..], replace, written, visited)
  {
    hide First;
    var n := First(s[i..]).value.1;
    assert s[i..][n..] == s[i + n..];
  }

  lemma ScanFails(s: string, i: nat, replace: Replace, written: string, visited: seq<Reference>)
    requires i < |s| && First(s[i..]).Failure?
    ensures ScanFrom(s[i..], replace, written, visited) == Scanned(Failure(First(s[i..]).error), visited)
  {
  }

  method Scan(s: string, replace: Replace) returns (r: Scanned)
    ensures r == ScanFrom(s, replace, "", [])
  {
    hide First, Index, ReferenceOf, ScanFrom;
    var b: string, visited: seq<Reference> := "", [];
    var i := 0;
    while i < |s|
      invariant i <= |s|
      invariant ScanFrom(s, replace, "", []) == ScanFrom(s[i..], replace, b, visited)
      decreases |s| - i
    {
      FirstAt(s, i);
      if First(s[i..]).Success? {
        ScanOn(s, i, replace, b, visited);
      } else {
        ScanFails(s, i, replace, b, visited);
      }
      if s[i] != '$' {
        b := b + [s[i]];
        i := i + 1;
        continue;
      }
      if i + 1 >= |s| {
        return Scanned(Failure(DollarAtEnd), visited);
      }
      var next := s[i + 1];
      if next == '$' {
        b := b + ['$'];
        i := i + 2;
        continue;
      }
      if next != '{' {
        return Scanned(Failure(BareDollar), visited);
      }
      var end := Index(s[i + 2..], '}');
      if end.None? {
        return Scanned(Failure(Unclosed), visited);
      }
      var content := s[i + 2..i + 2 + end.value];
      i := i + 2 + end.value + 1;
      var ref := ReferenceOf(content);
      visited := visited + [ref];
      var val := replace(ref);
      if val.Failure? {
        return Scanned(Failure(val.error), visited);
      }
      b := b + val.value;
    }
    assert s[i..] == "";
    ScanEnds(replace, b, visited);
    return Scanned(Success(b), visited);
  }

  lemma ScanEnds(replace: Replace, written: string, visited: seq<Reference>)
    ensures ScanFrom("", replace, written, visited) == Scanned(Success(written), visited)
  {
  }

  /** The environment as the gateway sees it. */
  type Lookup = string -> Option<string>

  function Expanding(lookup: Lookup): Replace {
    (r: Reference) =>
      var val := lookup(r.name);
      if val.Some? && val.value != "" then Success(val.value)
      else if r.default.Some? then Success(r.default.value)
      else Failure(Unset(r.name))
  }

  method ExpandWith(s: string, lookup: Lookup) returns (r: Result<string, ScanError>)
    ensures r == Expanded(s, lookup)
  {
    var scanned := Scan(s, Expanding(lookup));
    ScanIsRender(s, Expanding(lookup), "", []);
    return scanned.out;
  }

  method References(s: string) returns (refs: seq<Reference>, error: Option<ScanError>)
    ensures error.Some? <==> Parse(s).Failure?
    ensures error.None? ==> refs == ReferencesOf(Parse(s).value)
  {
    var scanned := Scan(s, _ => Success(""));
    ScanIsRender(s, _ => Success(""), "", []);
    if Parse(s).Success? {
      AlwaysRenders(Parse(s).value, _ => Success(""));
    }
    return scanned.visited, if scanned.out.Failure? then Some(scanned.out.error) else None;
  }

  /** What a scan means: the segments, rendered; the segments do not depend on the replacement. */
  function Expanded(s: string, lookup: Lookup): Result<string, ScanError> {
    ScanFrom(s, Expanding(lookup), "", []).out
  }

  // ----- A scan is parsing and then rendering -----

  lemma {:induction false} ScanIsRender(s: string, replace: Replace, written: string, visited: seq<Reference>)
    ensures var scanned := ScanFrom(s, replace, written, visited);
            && (Parse(s).Failure? ==> scanned.out.Failure?)
            && (Parse(s).Success? ==>
                  match Render(Parse(s).value, replace)
                  case Failure(e) => scanned.out == Failure(e)
                  case Success(v) => scanned == Scanned(Success(written + v), visited + ReferencesOf(Parse(s).value)))
    decreases |s|
  {
    if s == "" {
      assert written + "" == written && visited + [] == visited;
    } else if First(s).Success? {
      var (segment, n) := First(s).value;
      match segment {
        case Literal(c) =>
          ScanIsRender(s[n..], replace, written + [c], visited);
        case Substitute(r) =>
          if replace(r).Success? {
            ScanIsRender(s[n..], replace, written + replace(r).value, visited + [r]);
          }
      }
      if Parse(s).Success? {
        AssembleStep(segment, Parse(s[n..]).value, replace, written, visited);
      }
    }
  }

  lemma AssembleStep(segment: Segment, rest: seq<Segment>, replace: Replace, written: string, visited: seq<Reference>)
    ensures ([segment] + rest)[1..] == rest
    ensures segment.Literal? ==>
              (forall v: string :: written + [segment.c] + v == written + ([segment.c] + v)) &&
              visited + ReferencesOf([segment] + rest) == visited + ReferencesOf(rest)
    ensures segment.Substitute? ==>
              (forall u: string, v: string :: written + u + v == written + (u + v)) &&
              visited + ReferencesOf([segment] + rest) == visited + [segment.r] + ReferencesOf(rest)
  {
    assert ([segment] + rest)[1..] == rest;
  }

  lemma {:induction false} AlwaysRenders(segments: seq<Segment>, replace: Replace)
    requires forall r :: replace(r).Success?
    ensures Render(segments, replace).Success?
  {
    if segments != [] { AlwaysRenders(segments[1..], replace); }
  }

  // ----- Doubling dollars -----

  function Doubled(s: string): string {
    if s == "" then "" else (if s[0] == '$' then "$$" else [s[0]]) + Doubled(s[1..])
  }

  /** The scan undoes doubling, whatever the string. */
  lemma {:induction false} UndoesDoubling(s: string, replace: Replace, written: string)
    ensures ScanFrom(Doubled(s), replace, written, []) == Scanned(Success(written + s), [])
    decreases |s|
  {
    if s == "" {
      assert written + "" == written;
    } else {
      var d := Doubled(s);
      UndoesDoubling(s[1..], replace, written + [s[0]]);
      assert written + [s[0]] + s[1..] == written + s by {
        assert s == [s[0]] + s[1..];
      }
      if s[0] == '$' {
        assert d[2..] == Doubled(s[1..]);
      } else {
        assert d[1..] == Doubled(s[1..]);
      }
    }
  }

  // ----- Concatenation -----

  lemma {:induction false} IndexInPrefix(a: string, b: string, c: char)
    requires c in a
    ensures Index(a + b, c) == Index(a, c)
  {
    assert (a + b)[0] == a[0];
    if a[0] != c {
      assert a == [a[0]] + a[1..];
      assert (a + b)[1..] == a[1..] + b;
      IndexInPrefix(a[1..], b, c);
    }
  }

  /** A good first segment stays what it is, whatever follows. */
  lemma FirstOfPrefix(a: string, b: string)
    requires a != "" && First(a).Success?
    ensures First(a + b) == First(a)
  {
    var s := a + b;
    assert s[0] == a[0];
    if a[0] == '$' {
      assert s[1] == a[1];
      if a[1] == '{' {
        assert s[2..] == a[2..] + b;
        IndexInPrefix(a[2..], b, '}');
        var end := Index(a[2..], '}').value;
        assert s[2..2 + end] == a[2..2 + end];
      }
    }
  }

  /** Parsing distributes over concatenation after a good prefix. */
  lemma {:induction false} ParseConcat(a: string, b: string)
    requires Parse(a).Success?
    ensures Parse(a + b) == if Parse(b).Failure? then Parse(b) else Success(Parse(a).value + Parse(b).value)
    decreases |a|
  {
    if a == "" {
      assert a + b == b;
      if Parse(b).Success? { assert [] + Parse(b).value == Parse(b).value; }
    } else {
      FirstOfPrefix(a, b);
      var (segment, n) := First(a).value;
      assert (a + b)[n..] == a[n..] + b;
      ParseConcat(a[n..], b);
      if Parse(b).Success? {
        assert [segment] + (Parse(a[n..]).value + Parse(b).value) == [segment] + Parse(a[n..]).value + Parse(b).value;
      }
    }
  }

  lemma {:induction false} RenderConcat(xs: seq<Segment>, ys: seq<Segment>, replace: Replace)
    ensures Render(xs + ys, replace) ==
              if Render(xs, replace).Failure? then Render(xs, replace)
              else if Render(ys, replace).Failure? then Render(ys, replace)
              else Success(Render(xs, replace).value + Render(ys, replace).value)
  {
    if xs == [] {
      assert xs + ys == ys;
      if Render(ys, replace).Success? { assert "" + Render(ys, replace).value == Render(ys, replace).value; }
    } else {
      assert (xs + ys)[1..] == xs[1..] + ys;
      RenderConcat(xs[1..], ys, replace);
      if Render(xs, replace).Success? && Render(ys, replace).Success? {
        RenderAssoc(xs, replace, Render(ys, replace).value);
      }
    }
  }

  lemma RenderAssoc(xs: seq<Segment>, replace: Replace, v: string)
    requires xs != [] && Render(xs, replace).Success?
    ensures var u := if xs[0].Literal? then [xs[0].c] else replace(xs[0].r).value;
            u + (Render(xs[1..], replace).value + v) == Render(xs, replace).value + v
  {
  }

  /** Expansion distributes over concatenation after a prefix that expands. */
  lemma ExpandConcat(a: string, b: string, lookup: Lookup)
    requires Expanded(a, lookup).Success?
    ensures Expanded(a + b, lookup).Success? <==> Expanded(b, lookup).Success?
    ensures Expanded(b, lookup).Success? ==>
              Expanded(a + b, lookup) == Success(Expanded(a, lookup).value + Expanded(b, lookup).value)
  {
    ExpandedMeans(a, lookup);
    ExpandedMeans(b, lookup);
    ExpandedMeans(a + b, lookup);
    ParseConcat(a, b);
    if Parse(b).Success? {
      RenderConcat(Parse(a).value, Parse(b).value, Expanding(lookup));
    }
  }

  lemma ExpandedMeans(s: string, lookup: Lookup)
    ensures Parse(s).Failure? ==> Expanded(s, lookup).Failure?
    ensures Parse(s).Success? ==> Expanded(s, lookup) == Render(Parse(s).value, Expanding(lookup))
  {
    ScanIsRender(s, Expanding(lookup), "", []);
    if Parse(s).Success? && Render(Parse(s).value, Expanding(lookup)).Success? {
      assert "" + Render(Parse(s).value, Expanding(lookup)).value == Render(Parse(s).value, Expanding(lookup)).value;
    }
  }

  // ----- The written form -----

  /** A segment that some text stands for. */
  predicate IsWritten(segment: Segment) {
    segment.Substitute? ==>
      && ':' !in segment.r.name && '}' !in segment.r.name
      && (segment.r.default.Some? ==> '}' !in segment.r.default.value)
  }

  /** That text. */
  function Written(segment: Segment): string {
    match segment
    case Literal(c) => if c == '$' then "$$" else [c]
    case Substitute(Reference(name, None)) => "${" + name + "}"
    case Substitute(Reference(name, Some(default))) => "${" + (name + ":" + default) + "}"
  }

  function WrittenOut(segments: seq<Segment>): string {
    if segments == [] then "" else Written(segments[0]) + WrittenOut(segments[1..])
  }

  lemma {:induction false} IndexAt(a: string, c: char, b: string)
    requires c !in a
    ensures Index(a + [c] + b, c) == Some(|a|)
  {
    var s := a + [c] + b;
    if a == [] {
      assert s[0] == c;
    } else {
      assert s[0] == a[0] && s[1..] == a[1..] + [c] + b;
      IndexAt(a[1..], c, b);
    }
  }

  lemma ReferenceOfName(name: string)
    requires ':' !in name
    ensures ReferenceOf(name) == Reference(name, None)
  {
  }

  lemma ReferenceOfDefault(name: string, default: string)
    requires ':' !in name
    ensures ReferenceOf(name + ":" + default) == Reference(name, Some(default))
  {
    var s := name + ":" + default;
    IndexAt(name, ':', default);
    assert s[..|name|] == name && s[|name| + 1..] == default;
  }

  /** A reference in braces is the first segment, up to the first closing brace. */
  lemma FirstReference(content: string, rest: string)
    requires '}' !in content
    ensures First("${" + content + "}" + rest) == Success((Substitute(ReferenceOf(content)), |content| + 3))
    ensures ("${" + content + "}" + rest)[|content| + 3..] == rest
  {
    var s := "${" + content + "}" + rest;
    assert s[2..] == content + "}" + rest;
    IndexAt(content, '}', rest);
    assert s[2..2 + |content|] == content;
  }

  lemma FirstOfWritten(segment: Segment, rest: string)
    requires IsWritten(segment)
    ensures Written(segment) != "" && (Written(segment) + rest)[|Written(segment)|..] == rest
    ensures First(Written(segment) + rest) == Success((segment, |Written(segment)|))
  {
    if segment.Literal? {
      hide Index, ReferenceOf;
      assert (Written(segment) + rest)[|Written(segment)|..] == rest;
    } else {
      hide First, Index, ReferenceOf, IsWritten;
      if segment.r.default.None? {
        ReferenceOfName(segment.r.name);
        FirstReference(segment.r.name, rest);
      } else {
        ReferenceOfDefault(segment.r.name, segment.r.default.value);
        FirstReference(segment.r.name + ":" + segment.r.default.value, rest);
      }
    }
  }

  /** The text a reference in braces stands for is the one between the braces. */
  lemma WrittenOfReference(content: string)
    requires '}' !in content
    ensures IsWritten(Substitute(ReferenceOf(content)))
    ensures Written(Substitute(ReferenceOf(content))) == "${" + content + "}"
  {
    var colon := Index(content, ':');
    if colon.Some? {
      assert content == content[..colon.value] + ":" + content[colon.value + 1..];
    }
  }

  lemma WrittenOfFirst(s: string)
    requires s != "" && First(s).Success?
    ensures var (segment, n) := First(s).value;
            IsWritten(segment) && Written(segment) == s[..n]
  {
    if s[0] == '$' && s[1] == '{' {
      var content := s[2..2 + Index(s[2..], '}').value];
      assert content == s[2..][..|content|];
      WrittenOfReference(content);
      assert s[..|content| + 3] == "${" + content + "}";
      hide Written, IsWritten, ReferenceOf;
    }
  }

  /** Parsing is the inverse of writing out; a text no segments are written as does not parse. */
  lemma {:induction false} ParseIff(s: string, segments: seq<Segment>)
    ensures Parse(s) == Success(segments) <==>
              s == WrittenOut(segments) && forall i :: 0 <= i < |segments| ==> IsWritten(segments[i])
    decreases |s|, |segments|
  {
    if s != "" && First(s).Success? {
      var (segment, n) := First(s).value;
      WrittenOfFirst(s);
      assert s == s[..n] + s[n..];
      if Parse(s) == Success(segments) {
        ParseIff(s[n..], segments[1..]);
      }
    }
    if segments != [] && s == WrittenOut(segments) && forall i :: 0 <= i < |segments| ==> IsWritten(segments[i]) {
      FirstOfWritten(segments[0], WrittenOut(segments[1..]));
      ParseIff(WrittenOut(segments[1..]), segments[1..]);
      assert [segments[0]] + segments[1..] == segments;
    }
  }

  // ----- From left to right -----

  /** The scan of a text that begins with one that scans goes on from there. */
  lemma {:induction false} ScanGoesOn(a: string, b: string, replace: Replace, written: string, visited: seq<Reference>)
    requires ScanFrom(a, replace, written, visited).out.Success?
    ensures var scanned := ScanFrom(a, replace, written, visited);
            ScanFrom(a + b, replace, written, visited) == ScanFrom(b, replace, scanned.out.value, scanned.visited)
    decreases |a|
  {
    if a == "" {
      assert a + b == b;
    } else {
      FirstOfPrefix(a, b);
      var (segment, n) := First(a).value;
      assert (a + b)[n..] == a[n..] + b;
      match segment
      case Literal(c) => ScanGoesOn(a[n..], b, replace, written + [c], visited);
      case Substitute(r) => ScanGoesOn(a[n..], b, replace, written + replace(r).value, visited + [r]);
    }
  }

  /** After a text that expands, a first segment at fault decides. */
  lemma FaultAfter(before: string, rest: string, lookup: Lookup, e: ScanError)
    requires Expanded(before, lookup).Success? && rest != ""
    requires match First(rest)
             case Failure(f) => f == e
             case Success((Literal(_), _)) => false
             case Success((Substitute(r), _)) => Expanding(lookup)(r) == Failure(e)
    ensures Expanded(before + rest, lookup) == Failure(e)
  {
    ScanGoesOn(before, rest, Expanding(lookup), "", []);
    hide First;
  }

  lemma FirstAtFault(after: string, c: char)
    ensures First("$") == Failure(DollarAtEnd)
    ensures c != '$' && c != '{' ==> First("$" + [c] + after) == Failure(BareDollar)
    ensures '}' !in after ==> First("${" + after) == Failure(Unclosed)
  {
    assert ("${" + after)[2..] == after;
  }

  /** The first fault from the left is the one reported. */
  lemma FaultsAreReported(before: string, after: string, c: char, name: string, lookup: Lookup)
    requires Expanded(before, lookup).Success?
    ensures Expanded(before + "$", lookup) == Failure(DollarAtEnd)
    ensures c != '$' && c != '{' ==> Expanded(before + ("$" + [c] + after), lookup) == Failure(BareDollar)
    ensures '}' !in after ==> Expanded(before + ("${" + after), lookup) == Failure(Unclosed)
    ensures ':' !in name && '}' !in name && (lookup(name) == None || lookup(name) == Some("")) ==>
              Expanded(before + ("${" + name + "}" + after), lookup) == Failure(Unset(name))
  {
    FirstAtFault(after, c);
    if ':' !in name && '}' !in name {
      ReferenceOfName(name);
      FirstReference(name, after);
    }
    hide First, Index, ReferenceOf, Expanded, ScanFrom;
    FaultAfter(before, "$", lookup, DollarAtEnd);
    if c != '$' && c != '{' { FaultAfter(before, "$" + [c] + after, lookup, BareDollar); }
    if '}' !in after { FaultAfter(before, "${" + after, lookup, Unclosed); }
    if ':' !in name && '}' !in name && (lookup(name) == None || lookup(name) == Some("")) {
      FaultAfter(before, "${" + name + "}" + after, lookup, Unset(name));
    }
  }

  /** A default stands in for a variable that is missing or empty, and only then. */
  lemma DefaultStandsIn(before: string, name: string, default: string, after: string, lookup: Lookup)
    requires Expanded(before, lookup).Success? && Expanded(after, lookup).Success?
    requires '}' !in name && ':' !in name && '}' !in default
    ensures lookup(name) == None || lookup(name) == Some("") ==>
              Expanded(before + ("${" + (name + ":" + default) + "}" + after), lookup) ==
              Success(Expanded(before, lookup).value + (default + Expanded(after, lookup).value))
    ensures forall value :: lookup(name) == Some(value) && value != "" ==>
              Expanded(before + ("${" + (name + ":" + default) + "}" + after), lookup) ==
              Success(Expanded(before, lookup).value + (value + Expanded(after, lookup).value))
  {
    ReferenceOfDefault(name, default);
    var r := Reference(name, Some(default));
    ReferenceIsReplaced(before, name + ":" + default, after, lookup);
  }

  /** Whatever a reference is replaced by stands in its place. */
  lemma ReferenceIsReplaced(before: string, content: string, after: string, lookup: Lookup)
    requires Expanded(before, lookup).Success? && Expanded(after, lookup).Success? && '}' !in content
    requires Expanding(lookup)(ReferenceOf(content)).Success?
    ensures Expanded(before + ("${" + content + "}" + after), lookup) ==
            Success(Expanded(before, lookup).value
                    + (Expanding(lookup)(ReferenceOf(content)).value + Expanded(after, lookup).value))
  {
    var middle, r := "${" + content + "}", ReferenceOf(content);
    var v := Expanding(lookup)(r).value;
    FirstReference(content, "");
    assert middle + "" == middle && middle[|content| + 3..] == "";
    assert Parse("") == Success([]) && [Substitute(r)] + [] == [Substitute(r)];
    assert Parse(middle) == Success([Substitute(r)]);
    ExpandedMeans(middle, lookup);
    assert Render([Substitute(r)], Expanding(lookup)) == Success(v + "");
    assert v + "" == v;
    ExpandConcat(middle, after, lookup);
    ExpandConcat(before, middle + after, lookup);
  }

  /** An inserted value is never scanned: dollars and braces in it come out as they are. */
  lemma ValuesAreVerbatim(before: string, name: string, after: string, lookup: Lookup, value: string)
    requires Expanded(before, lookup).Success? && Expanded(after, lookup).Success?
    requires '}' !in name && ':' !in name && lookup(name) == Some(value) && value != ""
    ensures Expanded(before + ("${" + name + "}" + after), lookup) ==
              Success(Expanded(before, lookup).value + (value + Expanded(after, lookup).value))
  {
    ReferenceOfName(name);
    ReferenceIsReplaced(before, name, after, lookup);
  }

  // ----- When expansion succeeds -----

  predicate HasValue(r: Reference, lookup: Lookup) {
    r.default.Some? || (lookup(r.name).Some? && lookup(r.name).value != "")
  }

  lemma {:induction false} RendersIff(segments: seq<Segment>, lookup: Lookup)
    ensures Render(segments, Expanding(lookup)).Success? <==>
              forall r :: r in ReferencesOf(segments) ==> HasValue(r, lookup)
  {
    if segments != [] {
      RendersIff(segments[1..], lookup);
      var first := if segments[0].Substitute? then [segments[0].r] else [];
      assert forall r :: r in ReferencesOf(segments) <==> r in first || r in ReferencesOf(segments[1..]);
      if segments[0].Substitute? {
        assert Expanding(lookup)(segments[0].r).Success? <==> HasValue(segments[0].r, lookup);
        assert segments[0].r in first;
      }
    }
  }

  /** ExpandWith succeeds exactly when the syntax is right and every listed reference has a default or a value. */
  lemma ExpandsIff(s: string, lookup: Lookup)
    ensures Expanded(s, lookup).Success? <==>
              Parse(s).Success? && forall r :: r in ReferencesOf(Parse(s).value) ==> HasValue(r, lookup)
  {
    ExpandedMeans(s, lookup);
    if Parse(s).Success? { RendersIff(Parse(s).value, lookup); }
  }

  /** Studio's placeholder expansion accepts exactly the syntax, so whatever the gateway expands Studio accepted. */
  lemma StudioAgreesOnSyntax(s: string, lookup: Lookup, placeholder: string)
    requires placeholder != ""
    ensures Expanded(s, _ => Some(placeholder)).Success? <==> Parse(s).Success?
    ensures Expanded(s, lookup).Success? ==> Expanded(s, _ => Some(placeholder)).Success?
  {
    ExpandsIff(s, _ => Some(placeholder));
    ExpandsIff(s, lookup);
  }
}
