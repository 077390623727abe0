/**
 * internal/composition/template.go and expr.go: a string holding {{ expr }}
 * parts is split into literal and expression segments, compiled once, and
 * rendered against an environment. The expression language itself is a
 * parameter: which texts compile, which steps a text reads, and what each
 * text evaluates to.
 */
module Templates {
  import opened Wrappers
  import opened Sorting
  import opened Strings

  /**
   * A value. Scalar is any other scalar, such as a truth value; Obj is a decoded
   * object, StringMap a map of strings such as the request's headers.
   */
  datatype Value =
    | Nil
    | Str(text: string)
    | Int(number: int)
    | Float(magnitude: real)
    | Scalar(notation: string)
    | Obj(fields: map<string, Value>)
    | StringMap(entries: map<string, string>)
    | Arr(items: seq<Value>)

  datatype Language = Language(accepts: string -> bool, stepsOf: string -> seq<string>)

  /** Evaluation against one request: None is a runtime error. */
  datatype Env = Env(
    run: string -> Option<Value>,
    show: Value -> string,
    pathEscape: string -> string,
    queryEscape: string -> string,
    json: Value -> Option<string>)

  datatype Segment = Literal(text: string) | Expr(text: string)

  datatype Template = Template(raw: string, segments: seq<Segment>, deps: seq<string>, isSingle: bool)

  datatype TemplateError = Unclosed(raw: string) | BadExpression(text: string)

  datatype EscapeMode = EscapeNone | EscapePath | EscapeQuery | EscapeJSON

  // ----- Delimiters -----

  predicate At(s: string, c: char, i: int) {
    0 <= i && i + 1 < |s| && s[i] == c && s[i + 1] == c
  }

  /** Where c first stands twice in a row, -1 if nowhere. */
  function Twice(s: string, c: char): (r: int)
    ensures r == -1 || At(s, c, r)
    ensures forall j :: At(s, c, j) ==> 0 <= r <= j
  {
    if |s| < 2 then -1
    else if s[0] == c && s[1] == c then 0
    else
      var r := Twice(s[1..], c);
      assert forall j :: At(s, c, j) ==> At(s[1..], c, j - 1);
      if r < 0 then -1 else assert At(s[1..], c, r); r + 1
  }

  predicate IsExpression(s: string) {
    Twice(s, '{') >= 0 && Twice(s, '}') >= 0
  }

  // ----- Pieces: the text as written -----

  datatype Piece = Lit(text: string) | Hole(inner: string)

  function Source(p: Piece): string {
    match p
    case Lit(text) => text
    case Hole(inner) => "{{" + inner + "}}"
  }

  function Join(pieces: seq<Piece>): string {
    if pieces == [] then "" else Source(pieces[0]) + Join(pieces[1..])
  }

  /**
   * The one way to read a text: literals are not empty and open no hole, not
   * even with the hole that follows, and a hole closes at its first "}}".
   */
  predicate WellFormed(pieces: seq<Piece>) {
    pieces == [] || (
      && WellFormed(pieces[1..])
      && match pieces[0]
         case Hole(inner) => Twice(inner + "}}", '}') == |inner|
         case Lit(text) =>
           && text != ""
           && if |pieces| == 1 then Twice(text, '{') == -1 else pieces[1].Hole? && Twice(text + "{{", '{') == |text|
    )
  }

  function Prepend(before: seq<Piece>, rest: Option<seq<Piece>>): Option<seq<Piece>> {
    if rest.Some? then Some(before + rest.value) else None
  }

  function Before(text: string): seq<Piece> {
    if text == "" then [] else [Lit(text)]
  }

  datatype Turn = Rest(text: string) | Open | Next(text: string, inner: string, after: string)

  /** How far one turn of the loop reads. */
  function Step(raw: string): (t: Turn)
    ensures t.Next? ==> |t.after| < |raw|
  {
    var i := Twice(raw, '{');
    if i < 0 then Rest(raw)
    else
      var e := Twice(raw[i + 2..], '}');
      if e < 0 then Open else Next(raw[..i], raw[i + 2..][..e], raw[i + 2..][e + 2..])
  }

  /** What parseSegments reads, without compiling; None when a hole is not closed. */
  function Parse(raw: string): Option<seq<Piece>>
    decreases |raw|
  {
    match Step(raw)
    case Rest(text) => Some(Before(text))
    case Open => None
    case Next(text, inner, after) => Prepend(Before(text) + [Hole(inner)], Parse(after))
  }

  lemma {:induction false} ParseThenJoin(raw: string)
    ensures Parse(raw).Some? ==> Join(Parse(raw).value) == raw && WellFormed(Parse(raw).value)
    decreases |raw|
  {
    match Step(raw)
    case Rest(text) =>
      assert Join(Before(text)) == text;
    case Open =>
    case Next(text, inner, after) =>
      ParseThenJoin(after);
      StepReads(raw);
      hide Step, Join, WellFormed;
      if Parse(after).Some? {
        ReadHole(text, inner, Parse(after).value);
      }
  }

  lemma ConsHole(inner: string, tail: seq<Piece>)
    ensures WellFormed([Hole(inner)] + tail) <==> WellFormed(tail) && Twice(inner + "}}", '}') == |inner|
    ensures Join([Hole(inner)] + tail) == "{{" + inner + "}}" + Join(tail)
  {
    hide Twice;
    assert ([Hole(inner)] + tail)[1..] == tail;
  }

  lemma ConsLit(text: string, inner: string, tail: seq<Piece>)
    ensures var hole := [Hole(inner)] + tail;
            && (WellFormed([Lit(text)] + hole) <==> WellFormed(hole) && text != "" && Twice(text + "{{", '{') == |text|)
            && Join([Lit(text)] + hole) == text + Join(hole)
  {
    hide Twice;
    var hole := [Hole(inner)] + tail;
    var all := [Lit(text)] + hole;
    assert all[0] == Lit(text) && all[1] == Hole(inner) && all[1..] == hole;
  }

  lemma ReadHole(text: string, inner: string, tail: seq<Piece>)
    requires WellFormed(tail) && Twice(text + "{{", '{') == |text| && Twice(inner + "}}", '}') == |inner|
    ensures WellFormed(Before(text) + [Hole(inner)] + tail)
    ensures Join(Before(text) + [Hole(inner)] + tail) == text + ("{{" + inner + "}}" + Join(tail))
  {
    hide Twice, WellFormed, Join;
    ConsHole(inner, tail);
    ConsLit(text, inner, tail);
    assert Before(text) + [Hole(inner)] + tail == Before(text) + ([Hole(inner)] + tail);
    if text == "" {
      assert Before(text) + ([Hole(inner)] + tail) == [Hole(inner)] + tail;
    }
  }

  lemma StepReads(raw: string)
    requires Step(raw).Next?
    ensures var t := Step(raw);
            && raw == t.text + ("{{" + t.inner + "}}" + t.after)
            && Twice(t.text + "{{", '{') == |t.text| && Twice(t.inner + "}}", '}') == |t.inner|
  {
    var i := Twice(raw, '{');
    var rest := raw[i + 2..];
    var e := Twice(rest, '}');
    PrefixFirst(rest, '}', e, "}}");
    PrefixFirst(raw, '{', i, "{{");
    Cut(raw, '{', i, "{{");
    Cut(rest, '}', e, "}}");
    var text, inner, after := raw[..i], rest[..e], rest[e + 2..];
    assert Step(raw) == Next(text, inner, after);
    hide *;
    Regroup("{{", inner, "}}", after);
  }

  lemma Regroup(a: string, b: string, c: string, d: string)
    ensures a + (b + c + d) == a + b + c + d
  {
  }

  lemma Cut(s: string, c: char, i: int, delimiter: string)
    requires At(s, c, i) && delimiter == [c, c]
    ensures s == s[..i] + (delimiter + s[i + 2..]) && s == s[..i] + delimiter + s[i + 2..]
  {
  }

  /** Cutting the text after a delimiter leaves the delimiter where it was first. */
  lemma PrefixFirst(s: string, c: char, i: int, delimiter: string)
    requires i == Twice(s, c) && i >= 0 && delimiter == [c, c]
    ensures Twice(s[..i] + delimiter, c) == i
  {
    var t := s[..i] + delimiter;
    assert t == s[..i + 2];
    assert At(t, c, i);
    forall j | At(t, c, j) ensures At(s, c, j) {
    }
  }

  /** What follows a delimiter does not move its first place. */
  lemma Extended(s: string, c: char, i: int, more: string)
    requires i >= 0 && |s| == i + 2 && Twice(s, c) == i
    ensures Twice(s + more, c) == i
  {
    var t := s + more;
    assert At(s, c, i);
    assert At(t, c, i);
    forall j | At(t, c, j) ensures i <= j {
      if j < i { assert At(s, c, j); }
    }
  }

  lemma {:induction false} JoinThenParse(pieces: seq<Piece>)
    requires WellFormed(pieces)
    ensures Parse(Join(pieces)) == Some(pieces)
    decreases |pieces|
  {
    hide Twice, Parse, At;
    if pieces == [] || (|pieces| == 1 && pieces[0].Lit?) {
      ParseText(pieces);
    } else if pieces[0].Hole? {
      var inner, tail := pieces[0].inner, pieces[1..];
      hide WellFormed, Join;
      assert pieces == [Hole(inner)] + tail;
      ConsHole(inner, tail);
      JoinThenParse(tail);
      OpensAtOnce();
      ParseHole("", inner, Join(tail), tail);
      assert Before("") + [Hole(inner)] + tail == pieces;
      assert Join(pieces) == "" + ("{{" + inner + "}}" + Join(tail));
    } else {
      var text, inner, tail := pieces[0].text, pieces[1].inner, pieces[2..];
      hide WellFormed, Join;
      assert pieces == [Lit(text)] + ([Hole(inner)] + tail);
      ConsLit(text, inner, tail);
      ConsHole(inner, tail);
      JoinThenParse(tail);
      ParseHole(text, inner, Join(tail), tail);
      assert Before(text) + [Hole(inner)] + tail == pieces;
    }
  }

  lemma OpensAtOnce()
    ensures "" + "{{" == "{{" && Twice("{{", '{') == 0
  {
    assert At("{{", '{', 0);
  }

  lemma ParseText(pieces: seq<Piece>)
    requires WellFormed(pieces) && (pieces == [] || (|pieces| == 1 && pieces[0].Lit?))
    ensures Parse(Join(pieces)) == Some(pieces)
  {
    if pieces != [] {
      assert pieces[1..] == [] && pieces == [pieces[0]];
      assert Join(pieces) == pieces[0].text + "" == pieces[0].text;
    }
  }

  lemma ParseHole(text: string, inner: string, after: string, tail: seq<Piece>)
    requires Twice(text + "{{", '{') == |text| && Twice(inner + "}}", '}') == |inner|
    requires Parse(after) == Some(tail)
    ensures Parse(text + ("{{" + inner + "}}" + after)) == Some(Before(text) + [Hole(inner)] + tail)
  {
    var raw := text + ("{{" + inner + "}}" + after);
    var rest := inner + "}}" + after;
    HoleSplits(text, inner, after);
    Extended(text + "{{", '{', |text|, rest);
    Extended(inner + "}}", '}', |inner|, after);
    assert Step(raw) == Next(text, inner, after);
    hide Twice, Before, Step;
  }

  lemma HoleSplits(text: string, inner: string, after: string)
    ensures var raw, rest, i, e := text + ("{{" + inner + "}}" + after), inner + "}}" + after, |text|, |inner|;
            && raw == text + "{{" + rest && raw[..i] == text && raw[i + 2..] == rest
            && rest[..e] == inner && rest[e + 2..] == after
  {
  }

  /** Reading and writing a template are inverse: there is one well-formed reading, and it is the one read. */
  lemma ParseIff(raw: string, pieces: seq<Piece>)
    ensures Parse(raw) == Some(pieces) <==> WellFormed(pieces) && Join(pieces) == raw
  {
    ParseThenJoin(raw);
    if WellFormed(pieces) { JoinThenParse(pieces); }
  }

  /** An opening that no closing follows, anywhere in the rest of the text. */
  ghost predicate Dangling(raw: string, k: int) {
    At(raw, '{', k) && Twice(raw[k + 2..], '}') == -1
  }

  /** A text cannot be read iff it has a "{{" with no "}}" after it. */
  lemma {:induction false} UnreadableIffDangling(raw: string)
    ensures Parse(raw).None? <==> exists k :: Dangling(raw, k)
    decreases |raw|
  {
    hide Dangling, Twice;
    StepDangles(raw);
    if Step(raw).Next? {
      NextDangles(raw);
      hide Step;
      UnreadableIffDangling(Step(raw).after);
    }
  }

  lemma StepDangles(raw: string)
    ensures Step(raw).Rest? ==> forall k :: !Dangling(raw, k)
    ensures Step(raw).Open? ==> Dangling(raw, Twice(raw, '{'))
  {
  }

  /** How much of the text one closed hole uses up, with the literal before it. */
  function Past(raw: string): (n: nat)
    requires Step(raw).Next?
    ensures n <= |raw|
  {
    |Step(raw).text| + |Step(raw).inner| + 4
  }

  lemma StepAfter(raw: string)
    requires Step(raw).Next?
    ensures var i := Twice(raw, '{');
            var e := Twice(raw[i + 2..], '}');
            i >= 0 && e >= 0 && Past(raw) == i + e + 4 && Step(raw).after == raw[Past(raw)..]
  {
  }

  lemma AfterDangles(raw: string, k: int)
    requires Step(raw).Next?
    ensures Dangling(Step(raw).after, k) ==> Dangling(raw, Past(raw) + k)
    ensures Dangling(raw, k) ==> Dangling(Step(raw).after, k - Past(raw))
  {
    AfterIs(raw);
    hide *;
    DanglingShifts(raw, Past(raw), Step(raw).after, k);
    if Dangling(raw, k) {
      DanglesPast(raw, k);
      DanglingShifts(raw, Past(raw), Step(raw).after, k - Past(raw));
    }
  }

  lemma AfterIs(raw: string)
    requires Step(raw).Next?
    ensures Step(raw).after == raw[Past(raw)..]
  {
    StepAfter(raw);
  }

  /** Past a closed hole nothing changes. */
  lemma NextDangles(raw: string)
    requires Step(raw).Next?
    ensures (exists k :: Dangling(raw, k)) <==> exists k :: Dangling(Step(raw).after, k)
  {
    hide *;
    if k :| Dangling(Step(raw).after, k) { AfterDangles(raw, k); }
    if k :| Dangling(raw, k) { AfterDangles(raw, k); }
  }

  lemma DanglingShifts(raw: string, past: nat, after: string, k: int)
    requires past <= |raw| && after == raw[past..]
    ensures 0 <= k ==> (Dangling(after, k) <==> Dangling(raw, past + k))
    ensures k < 0 ==> !Dangling(after, k)
  {
    if 0 <= k && At(raw, '{', past + k) { assert after[k + 2..] == raw[past + k + 2..]; }
  }

  lemma DanglesPast(raw: string, k: int)
    requires Step(raw).Next? && Dangling(raw, k)
    ensures k >= Past(raw)
  {
    StepAfter(raw);
    var i := Twice(raw, '{');
    var e := Twice(raw[i + 2..], '}');
    hide Step, Past;
    assert At(raw[i + 2..], '}', e);
    assert raw[i + 2 + e] == '}' && raw[i + 3 + e] == '}';
    ClosingAfter(raw, k, i + 2 + e);
  }

  lemma ClosingAfter(raw: string, k: int, end: int)
    requires At(raw, '}', end)
    ensures 0 <= k && k + 2 <= end ==> Twice(raw[k + 2..], '}') >= 0
  {
    if 0 <= k && k + 2 <= end { assert At(raw[k + 2..], '}', end - (k + 2)); }
  }

  // ----- Compiling -----

  function SegmentOf(p: Piece): Segment {
    match p
    case Lit(text) => Literal(text)
    case Hole(inner) => Expr(TrimSpace(inner))
  }

  function SegmentsOf(pieces: seq<Piece>): seq<Segment> {
    seq(|pieces|, i requires 0 <= i < |pieces| => SegmentOf(pieces[i]))
  }

  predicate AllCompile(lang: Language, segments: seq<Segment>) {
    forall i :: 0 <= i < |segments| && segments[i].Expr? ==> lang.accepts(segments[i].text)
  }

  predicate TemplateCompiles(lang: Language, raw: string) {
    Parse(raw).Some? && AllCompile(lang, SegmentsOf(Parse(raw).value))
  }

  /** The segments are the pieces: literals as they stand, expressions without the spaces around them. */
  lemma SegmentsAre(raw: string)
    requires Parse(raw).Some?
    ensures var pieces, segments := Parse(raw).value, SegmentsOf(Parse(raw).value);
            && |segments| == |pieces|
            && forall i :: 0 <= i < |pieces| ==>
                 match pieces[i]
                 case Lit(text) => segments[i] == Literal(text)
                 case Hole(inner) => segments[i].Expr? && IsTrimmed(segments[i].text) && PaddedWith(inner, segments[i].text)
  {
    forall i | 0 <= i < |Parse(raw).value| && Parse(raw).value[i].Hole? {
      TrimSplits(Parse(raw).value[i].inner);
    }
    hide TrimSpace, Parse, IsTrimmed;
  }

  ghost predicate PaddedWith(inner: string, text: string) {
    exists left, right :: AllSpace(left) && AllSpace(right) && inner == left + text + right
  }

  /** A string counts as a template iff it holds both an opening and a closing, in whatever order. */
  lemma IsExpressionIff(s: string)
    ensures IsExpression(s) <==> (exists i :: At(s, '{', i)) && (exists i :: At(s, '}', i))
  {
  }

  lemma SegmentsOfSum(a: seq<Piece>, b: seq<Piece>)
    ensures SegmentsOf(a + b) == SegmentsOf(a) + SegmentsOf(b)
  {
  }

  /** The first segments decide already if one of them does not compile. */
  lemma BadPrefix(lang: Language, a: seq<Piece>, rest: Option<seq<Piece>>)
    requires !AllCompile(lang, SegmentsOf(a))
    ensures rest.Some? ==> !AllCompile(lang, SegmentsOf(a + rest.value))
  {
    var i :| 0 <= i < |a| && SegmentsOf(a)[i].Expr? && !lang.accepts(SegmentsOf(a)[i].text);
    if rest.Some? { assert SegmentsOf(a + rest.value)[i] == SegmentsOf(a)[i]; }
  }

  lemma NothingDone(raw: string)
    ensures Parse(raw) == Prepend([], Parse(raw))
  {
    if Parse(raw).Some? { assert [] + Parse(raw).value == Parse(raw).value; }
  }

  lemma PrependTwice(a: seq<Piece>, b: seq<Piece>, rest: Option<seq<Piece>>)
    ensures Prepend(a, Prepend(b, rest)) == Prepend(a + b, rest)
  {
    if rest.Some? { assert a + (b + rest.value) == (a + b) + rest.value; }
  }

  /** One turn of the loop: a literal if there is one, then an expression. */
  lemma Turned(lang: Language, done: seq<Piece>, t: Turn, literals: seq<Segment>)
    requires t.Next? && AllCompile(lang, SegmentsOf(done))
    requires literals == if t.text != "" then [Literal(t.text)] else []
    ensures var now := done + Before(t.text) + [Hole(t.inner)];
            && (forall rest: Option<seq<Piece>> :: Prepend(done, Prepend(Before(t.text) + [Hole(t.inner)], rest)) == Prepend(now, rest))
            && SegmentsOf(now) == SegmentsOf(done) + literals + [Expr(TrimSpace(t.inner))]
            && (AllCompile(lang, SegmentsOf(now)) <==> lang.accepts(TrimSpace(t.inner)))
  {
    var now := done + Before(t.text) + [Hole(t.inner)];
    assert done + (Before(t.text) + [Hole(t.inner)]) == now;
    forall rest: Option<seq<Piece>>
      ensures Prepend(done, Prepend(Before(t.text) + [Hole(t.inner)], rest)) == Prepend(now, rest)
    {
      PrependTwice(done, Before(t.text) + [Hole(t.inner)], rest);
    }
    SegmentsOfSum(done, Before(t.text));
    SegmentsOfSum(done + Before(t.text), [Hole(t.inner)]);
    hide TrimSpace;
    AllCompileMore(lang, SegmentsOf(done), literals, TrimSpace(t.inner));
  }

  lemma AllCompileMore(lang: Language, segments: seq<Segment>, literals: seq<Segment>, text: string)
    requires AllCompile(lang, segments) && forall i :: 0 <= i < |literals| ==> literals[i].Literal?
    ensures AllCompile(lang, segments + literals + [Expr(text)]) <==> lang.accepts(text)
  {
    var all := segments + literals + [Expr(text)];
    assert all[|all| - 1] == Expr(text);
  }

  /** What one turn of the loop settles about the whole text. */
  lemma TurnSettles(lang: Language, raw: string, done: seq<Piece>, rest: string)
    requires AllCompile(lang, SegmentsOf(done)) && Parse(raw) == Prepend(done, Parse(rest))
    ensures var t := Step(rest);
            match t
            case Rest(text) =>
              && text == rest && TemplateCompiles(lang, raw)
              && SegmentsOf(Parse(raw).value) == SegmentsOf(done) + if rest != "" then [Literal(rest)] else []
            case Open => Parse(raw).None?
            case Next(text, inner, after) =>
              var now := done + Before(text) + [Hole(inner)];
              && Parse(raw) == Prepend(now, Parse(after))
              && SegmentsOf(now) == SegmentsOf(done) + (if text != "" then [Literal(text)] else []) + [Expr(TrimSpace(inner))]
              && (lang.accepts(TrimSpace(inner)) ==> AllCompile(lang, SegmentsOf(now)))
              && (!lang.accepts(TrimSpace(inner)) ==> !TemplateCompiles(lang, raw))
  {
    var t := Step(rest);
    if t.Rest? {
      SegmentsOfSum(done, Before(rest));
    } else if t.Next? {
      var literals := if t.text != "" then [Literal(t.text)] else [];
      var now := done + Before(t.text) + [Hole(t.inner)];
      Turned(lang, done, t, literals);
      hide TrimSpace, AllCompile, SegmentsOf, Before;
      if !lang.accepts(TrimSpace(t.inner)) {
        BadPrefix(lang, now, Parse(t.after));
      }
    }
  }

  method ParseSegments(lang: Language, raw: string) returns (r: Result<seq<Segment>, TemplateError>)
    ensures r.Success? <==> TemplateCompiles(lang, raw)
    ensures r.Success? ==> r.value == SegmentsOf(Parse(raw).value)
    ensures r.Failure? && r.error.Unclosed? ==> Parse(raw).None?
    ensures r.Failure? && r.error.BadExpression? ==> !lang.accepts(r.error.text)
  {
    var segments: seq<Segment> := [];
    var rest := raw;
    ghost var done: seq<Piece> := [];
    NothingDone(raw);
    while true
      invariant segments == SegmentsOf(done) && AllCompile(lang, segments)
      invariant Parse(raw) == Prepend(done, Parse(rest))
      decreases |rest|
    {
      hide SegmentsOf, AllCompile, TrimSpace, Before, Parse, Prepend, TemplateCompiles;
      TurnSettles(lang, raw, done, rest);
      ghost var step, was := Step(rest), done;
      var idx := Twice(rest, '{');
      if idx < 0 {
        if rest != "" {
          segments := segments + [Literal(rest)];
        }
        return Success(segments);
      }
      if idx > 0 {
        segments := segments + [Literal(rest[..idx])];
      }
      rest := rest[idx + 2..];
      var end := Twice(rest, '}');
      if end < 0 {
        return Failure(Unclosed(raw));
      }
      var text := TrimSpace(rest[..end]);
      rest := rest[end + 2..];
      if !lang.accepts(text) {
        return Failure(BadExpression(text));
      }
      segments := segments + [Expr(text)];
      done := was + Before(step.text) + [Hole(step.inner)];
    }
  }

  /** More names, each only when it is new. */
  function AddAll(deps: seq<string>, more: seq<string>): seq<string> {
    if more == [] then deps
    else
      var n := |more| - 1;
      var before := AddAll(deps, more[..n]);
      if more[n] in before then before else before + [more[n]]
  }

  function DepsOf(lang: Language, segments: seq<Segment>): seq<string> {
    if segments == [] then []
    else
      var n := |segments| - 1;
      var before := DepsOf(lang, segments[..n]);
      if segments[n].Expr? then AddAll(before, lang.stepsOf(segments[n].text)) else before
  }

  lemma {:induction false} AddAllIs(deps: seq<string>, more: seq<string>)
    requires NoDuplicates(deps)
    ensures NoDuplicates(AddAll(deps, more))
    ensures forall d :: d in AddAll(deps, more) <==> d in deps || d in more
  {
    if more != [] {
      var n := |more| - 1;
      AddAllIs(deps, more[..n]);
      assert more == more[..n] + [more[n]];
    }
  }

  /** A step is a dependency of the segments when one of their expressions reads it. */
  ghost predicate ReadsStep(lang: Language, segments: seq<Segment>, step: string) {
    exists i :: 0 <= i < |segments| && segments[i].Expr? && step in lang.stepsOf(segments[i].text)
  }

  lemma {:induction false} DepsAreTheStepsRead(lang: Language, segments: seq<Segment>)
    ensures NoDuplicates(DepsOf(lang, segments))
    ensures forall d :: d in DepsOf(lang, segments) <==> ReadsStep(lang, segments, d)
  {
    if segments != [] {
      var n := |segments| - 1;
      DepsAreTheStepsRead(lang, segments[..n]);
      if segments[n].Expr? {
        AddAllIs(DepsOf(lang, segments[..n]), lang.stepsOf(segments[n].text));
      }
      forall d ensures ReadsStep(lang, segments, d) <==>
                       ReadsStep(lang, segments[..n], d) || (segments[n].Expr? && d in lang.stepsOf(segments[n].text))
      {
        if ReadsStep(lang, segments[..n], d) {
          var i :| 0 <= i < n && segments[..n][i].Expr? && d in lang.stepsOf(segments[..n][i].text);
          assert segments[i] == segments[..n][i];
        }
        if ReadsStep(lang, segments, d) {
          var i :| 0 <= i < |segments| && segments[i].Expr? && d in lang.stepsOf(segments[i].text);
          if i < n { assert segments[..n][i] == segments[i]; }
        }
      }
    }
  }

  predicate IsHole(pieces: seq<Piece>) {
    |pieces| == 1 && pieces[0].Hole?
  }

  function CompiledTemplate(lang: Language, raw: string): Template
    requires TemplateCompiles(lang, raw)
  {
    var pieces := Parse(raw).value;
    var segments := SegmentsOf(pieces);
    Template(raw, segments, DepsOf(lang, segments), IsHole(pieces))
  }

  lemma JoinHole(inner: string)
    ensures Join([Hole(inner)]) == "{{" + inner + "}}"
  {
    assert [Hole(inner)][1..] == [] && Join([]) == "";
    assert Join([Hole(inner)]) == "{{" + inner + "}}" + "";
  }

  lemma TrimHole(raw: string, inner: string)
    requires raw == "{{" + inner + "}}"
    ensures TrimSpace(raw) == raw && |raw| >= 4 && raw[..2] == "{{" && raw[|raw| - 2..] == "}}"
  {
    hide TrimSpace;
    TrimKeeps(raw);
  }

  /** The text is one expression between its delimiters, with nothing around it. */
  ghost predicate IsOneHole(raw: string, inner: string) {
    raw == "{{" + inner + "}}" && forall j :: At(inner + "}}", '}', j) ==> j >= |inner|
  }

  lemma SingleIs(raw: string)
    requires Parse(raw).Some?
    ensures IsHole(Parse(raw).value) <==> exists inner :: IsOneHole(raw, inner)
  {
    var pieces := Parse(raw).value;
    ParseIff(raw, pieces);
    if IsHole(pieces) {
      assert pieces == [Hole(pieces[0].inner)];
      JoinHole(pieces[0].inner);
      assert Twice(pieces[0].inner + "}}", '}') == |pieces[0].inner|;
      assert IsOneHole(raw, pieces[0].inner);
    }
    if inner :| IsOneHole(raw, inner) {
      assert At(inner + "}}", '}', |inner|);
      assert Twice(inner + "}}", '}') == |inner|;
      JoinHole(inner);
      ParseIff(raw, [Hole(inner)]);
    }
  }

  /** Text of a lone hole begins and ends with the delimiters even untrimmed. */
  lemma HoleText(raw: string)
    requires Parse(raw).Some? && IsHole(Parse(raw).value)
    ensures TrimSpace(raw) == raw && |raw| >= 4 && raw[..2] == "{{" && raw[|raw| - 2..] == "}}"
  {
    ParseThenJoin(raw);
    hide Parse, WellFormed, TrimSpace, Join;
    var inner := Parse(raw).value[0].inner;
    assert Parse(raw).value == [Hole(inner)];
    JoinHole(inner);
    TrimHole(raw, inner);
  }

  function CountExprs(segments: seq<Segment>): nat {
    if segments == [] then 0
    else CountExprs(segments[..|segments| - 1]) + if segments[|segments| - 1].Expr? then 1 else 0
  }

  lemma {:induction false} AllExprs(segments: seq<Segment>)
    requires forall i :: 0 <= i < |segments| ==> segments[i].Expr?
    ensures CountExprs(segments) == |segments|
  {
    if segments != [] { AllExprs(segments[..|segments| - 1]); }
  }

  lemma {:induction false} LiteralsHoldText(pieces: seq<Piece>)
    requires WellFormed(pieces)
    ensures forall i :: 0 <= i < |pieces| && pieces[i].Lit? ==> pieces[i].text != ""
  {
    if pieces != [] {
      LiteralsHoldText(pieces[1..]);
      assert forall i :: 0 < i < |pieces| ==> pieces[i] == pieces[1..][i - 1];
    }
  }

  predicate EmptyLiterals(segments: seq<Segment>) {
    forall i :: 0 <= i < |segments| && segments[i].Literal? ==> segments[i].text == ""
  }

  /** What the two loops count says whether the text is one hole and nothing else, not even spaces. */
  lemma SingleIffHole(raw: string)
    requires Parse(raw).Some?
    ensures var segments := SegmentsOf(Parse(raw).value);
            CountExprs(segments) == 1 && EmptyLiterals(segments) <==> IsHole(Parse(raw).value)
  {
    var pieces := Parse(raw).value;
    var segments := SegmentsOf(pieces);
    ParseThenJoin(raw);
    LiteralsHoldText(pieces);
    if IsHole(pieces) {
      AllExprs(segments);
    } else if EmptyLiterals(segments) {
      forall i | 0 <= i < |segments| ensures segments[i].Expr? {
        assert segments[i] == SegmentOf(pieces[i]);
      }
      AllExprs(segments);
    }
  }

  method CompileTemplate(lang: Language, raw: string) returns (r: Result<Template, TemplateError>)
    ensures r.Success? <==> TemplateCompiles(lang, raw)
    ensures r.Success? ==> r.value == CompiledTemplate(lang, raw)
    ensures r.Success? ==> r.value.raw == raw && (r.value.isSingle <==> exists inner :: IsOneHole(raw, inner))
    ensures r.Success? ==> forall d :: d in r.value.deps <==> ReadsStep(lang, r.value.segments, d)
  {
    if Parse(raw).Some? {
      SingleIs(raw);
      DepsAreTheStepsRead(lang, SegmentsOf(Parse(raw).value));
    }
    hide ReadsStep, IsOneHole;
    var parsed := ParseSegments(lang, raw);
    if parsed.Failure? {
      return Failure(parsed.error);
    }
    var segments := parsed.value;
    var deps := CollectDeps(lang, segments);
    SingleIffHole(raw);
    if IsHole(Parse(raw).value) { HoleText(raw); }
    var trimmed := TrimSpace(raw);
    var isSingle := false;
    if "{{" <= trimmed && |trimmed| >= 2 && trimmed[|trimmed| - 2..] == "}}" {
      var exprs, literal := CountSegments(segments);
      isSingle := exprs == 1 && !literal;
    }
    return Success(Template(raw, segments, deps, isSingle));
  }

  lemma OneMoreSegment(segments: seq<Segment>, i: nat)
    requires i < |segments|
    ensures CountExprs(segments[..i + 1]) == CountExprs(segments[..i]) + if segments[i].Expr? then 1 else 0
    ensures EmptyLiterals(segments[..i + 1]) <==> EmptyLiterals(segments[..i]) && (segments[i].Expr? || segments[i].text == "")
  {
    var upTo := segments[..i + 1];
    assert upTo[..i] == segments[..i] && upTo[i] == segments[i];
    if EmptyLiterals(upTo) {
      forall j | 0 <= j < i && upTo[..i][j].Literal? ensures upTo[..i][j].text == "" {
        assert upTo[..i][j] == upTo[j];
      }
    }
  }

  method CountSegments(segments: seq<Segment>) returns (exprs: nat, literal: bool)
    ensures exprs == CountExprs(segments) && literal == !EmptyLiterals(segments)
  {
    exprs, literal := 0, false;
    for i := 0 to |segments|
      invariant exprs == CountExprs(segments[..i]) && literal == !EmptyLiterals(segments[..i])
    {
      hide CountExprs, EmptyLiterals;
      OneMoreSegment(segments, i);
      if segments[i].Expr? {
        exprs := exprs + 1;
      } else if segments[i].text != "" {
        literal := true;
      }
    }
    assert segments[..|segments|] == segments;
  }

  method CollectDeps(lang: Language, segments: seq<Segment>) returns (deps: seq<string>)
    ensures deps == DepsOf(lang, segments)
  {
    deps := [];
    for i := 0 to |segments|
      invariant deps == DepsOf(lang, segments[..i])
    {
      assert segments[..i + 1][..i] == segments[..i];
      if segments[i].Expr? {
        var more := lang.stepsOf(segments[i].text);
        ghost var before := deps;
        for j := 0 to |more|
          invariant deps == AddAll(before, more[..j])
        {
          assert more[..j + 1][..j] == more[..j];
          if more[j] !in deps {
            deps := deps + [more[j]];
          }
        }
        assert more[..|more|] == more;
      }
    }
    assert segments[..|segments|] == segments;
  }

  // ----- Evaluating -----

  function Escaped(env: Env, mode: EscapeMode, value: Value): Option<string> {
    match mode
    case EscapeNone => Some(env.show(value))
    case EscapePath => Some(env.pathEscape(env.show(value)))
    case EscapeQuery => Some(env.queryEscape(env.show(value)))
    case EscapeJSON => env.json(value)
  }

  /** One segment as text: a literal is itself, never escaped. */
  function Rendered(env: Env, mode: EscapeMode, segment: Segment): Option<string> {
    match segment
    case Literal(text) => Some(text)
    case Expr(text) => if env.run(text).None? then None else Escaped(env, mode, env.run(text).value)
  }

  /** All segments in order, None if any of them errs. */
  function Filled(env: Env, mode: EscapeMode, segments: seq<Segment>): Option<string> {
    if segments == [] then Some("")
    else
      var n := |segments| - 1;
      var before, last := Filled(env, mode, segments[..n]), Rendered(env, mode, segments[n]);
      if before.Some? && last.Some? then Some(before.value + last.value) else None
  }

  lemma {:induction false} FilledIff(env: Env, mode: EscapeMode, segments: seq<Segment>)
    ensures Filled(env, mode, segments).Some? <==>
            forall i :: 0 <= i < |segments| ==> Rendered(env, mode, segments[i]).Some?
  {
    if segments != [] { FilledIff(env, mode, segments[..|segments| - 1]); }
  }

  /** A segment that errs spoils every longer run of segments. */
  lemma {:induction false} FilledPrefix(env: Env, mode: EscapeMode, segments: seq<Segment>, i: nat)
    requires i <= |segments| && Filled(env, mode, segments[..i]).None?
    ensures Filled(env, mode, segments).None?
  {
    FilledIff(env, mode, segments[..i]);
    FilledIff(env, mode, segments);
    var j :| 0 <= j < i && Rendered(env, mode, segments[..i][j]).None?;
    assert segments[j] == segments[..i][j];
  }

  function Concat(parts: seq<string>): string {
    if parts == [] then "" else Concat(parts[..|parts| - 1]) + parts[|parts| - 1]
  }

  /** The part a segment becomes: a literal as it is, a value as it shows or in JSON, and escaped where a path or query needs it. */
  ghost predicate IsPart(env: Env, mode: EscapeMode, segment: Segment, part: string) {
    if segment.Literal? then part == segment.text
    else
      && env.run(segment.text).Some?
      && var v := env.run(segment.text).value;
         && (mode == EscapeNone ==> part == env.show(v))
         && (mode == EscapePath ==> part == env.pathEscape(env.show(v)))
         && (mode == EscapeQuery ==> part == env.queryEscape(env.show(v)))
         && (mode == EscapeJSON ==> env.json(v) == Some(part))
  }

  /** An expression errs, or its value has no JSON where JSON is asked for. */
  ghost predicate CannotShow(env: Env, mode: EscapeMode, segment: Segment) {
    segment.Expr? &&
      (env.run(segment.text).None? || (mode == EscapeJSON && env.json(env.run(segment.text).value).None?))
  }

  /** text is made of one part for each segment, in order. */
  ghost predicate MadeOf(env: Env, mode: EscapeMode, segments: seq<Segment>, text: string) {
    exists parts: seq<string> :: PartsAre(env, mode, segments, parts) && text == Concat(parts)
  }

  ghost predicate PartsAre(env: Env, mode: EscapeMode, segments: seq<Segment>, parts: seq<string>) {
    |parts| == |segments| && forall i :: 0 <= i < |segments| ==> IsPart(env, mode, segments[i], parts[i])
  }

  lemma RenderedIs(env: Env, mode: EscapeMode, segment: Segment)
    ensures Rendered(env, mode, segment).None? <==> CannotShow(env, mode, segment)
    ensures Rendered(env, mode, segment).Some? ==> IsPart(env, mode, segment, Rendered(env, mode, segment).value)
  {
  }

  lemma OneMorePart(env: Env, mode: EscapeMode, segments: seq<Segment>, text: string, last: Segment, part: string)
    requires MadeOf(env, mode, segments, text) && IsPart(env, mode, last, part)
    ensures MadeOf(env, mode, segments + [last], text + part)
  {
    hide IsPart;
    var parts :| PartsAre(env, mode, segments, parts) && text == Concat(parts);
    var all, longer := parts + [part], segments + [last];
    assert Concat(all) == text + part by {
      assert all[..|all| - 1] == parts;
    }
    hide Concat;
    forall i | 0 <= i < |longer| ensures IsPart(env, mode, longer[i], all[i]) {
      if i < |segments| { assert longer[i] == segments[i] && all[i] == parts[i]; }
    }
    assert PartsAre(env, mode, longer, all);
  }

  lemma {:induction false} FilledIsMade(env: Env, mode: EscapeMode, segments: seq<Segment>)
    ensures Filled(env, mode, segments).Some? ==> MadeOf(env, mode, segments, Filled(env, mode, segments).value)
  {
    if segments == [] {
      assert PartsAre(env, mode, segments, []) && Concat([]) == "";
    } else {
      hide Rendered, IsPart, MadeOf;
      var n := |segments| - 1;
      FilledIsMade(env, mode, segments[..n]);
      RenderedIs(env, mode, segments[n]);
      assert segments == segments[..n] + [segments[n]];
      if Filled(env, mode, segments).Some? {
        OneMorePart(env, mode, segments[..n], Filled(env, mode, segments[..n]).value, segments[n], Rendered(env, mode, segments[n]).value);
      }
    }
  }

  lemma NotFilledIff(env: Env, mode: EscapeMode, segments: seq<Segment>)
    ensures Filled(env, mode, segments).None? <==> exists i :: 0 <= i < |segments| && CannotShow(env, mode, segments[i])
  {
    FilledIff(env, mode, segments);
    forall i | 0 <= i < |segments| ensures Rendered(env, mode, segments[i]).None? <==> CannotShow(env, mode, segments[i]) {
      RenderedIs(env, mode, segments[i]);
    }
    hide Filled, Rendered, CannotShow;
  }

  lemma FilledNext(env: Env, mode: EscapeMode, segments: seq<Segment>, i: nat)
    requires i < |segments|
    ensures var before, last := Filled(env, mode, segments[..i]), Rendered(env, mode, segments[i]);
            Filled(env, mode, segments[..i + 1]) == if before.Some? && last.Some? then Some(before.value + last.value) else None
  {
    assert segments[..i + 1][..i] == segments[..i];
  }

  method EvalString(t: Template, env: Env, mode: EscapeMode) returns (r: Option<string>)
    ensures r == Filled(env, mode, t.segments)
    ensures r.Some? ==> MadeOf(env, mode, t.segments, r.value)
    ensures r.None? <==> exists i :: 0 <= i < |t.segments| && CannotShow(env, mode, t.segments[i])
  {
    FilledIsMade(env, mode, t.segments);
    NotFilledIff(env, mode, t.segments);
    hide MadeOf, CannotShow, Escaped;
    if |t.segments| == 0 {
      return Some("");
    }
    if |t.segments| == 1 && t.segments[0].Literal? {
      assert t.segments[..0] == [] && "" + t.segments[0].text == t.segments[0].text;
      return Some(t.segments[0].text);
    }
    var b := "";
    for i := 0 to |t.segments|
      invariant Filled(env, mode, t.segments[..i]) == Some(b)
    {
      hide Filled;
      FilledNext(env, mode, t.segments, i);
      var seg := t.segments[i];
      if seg.Literal? {
        b := b + seg.text;
      } else {
        var val := env.run(seg.text);
        var s := if val.Some? then Escaped(env, mode, val.value) else None;
        if s.None? {
          FilledPrefix(env, mode, t.segments, i + 1);
          return None;
        }
        b := b + s.value;
      }
    }
    assert t.segments[..|t.segments|] == t.segments;
    return Some(b);
  }

  /** The value of a template: of a lone hole the expression's own, otherwise text. */
  function ValueOf(t: Template, env: Env): Option<Value> {
    if t.isSingle && |t.segments| == 1 && t.segments[0].Expr? then env.run(t.segments[0].text)
    else
      var s := Filled(env, EscapeNone, t.segments);
      if s.Some? then Some(Str(s.value)) else None
  }

  method EvalValue(t: Template, env: Env) returns (r: Option<Value>)
    requires t.isSingle ==> |t.segments| == 1 && t.segments[0].Expr?
    ensures r == ValueOf(t, env)
    ensures t.isSingle ==> r == env.run(t.segments[0].text)
    ensures !t.isSingle && r.Some? ==> r.value.Str? && MadeOf(env, EscapeNone, t.segments, r.value.text)
  {
    hide MadeOf;
    if t.isSingle {
      for i := 0 to |t.segments|
        invariant i == 0
      {
        if t.segments[i].Expr? {
          return env.run(t.segments[i].text);
        }
      }
    }
    var s := EvalString(t, env, EscapeNone);
    return if s.Some? then Some(Str(s.value)) else None;
  }

  /** A template errs iff one of its expressions does, whichever way it is evaluated. */
  lemma TemplateErrsIff(lang: Language, raw: string, env: Env)
    requires TemplateCompiles(lang, raw)
    ensures var t := CompiledTemplate(lang, raw);
            ValueOf(t, env).None? <==> exists i :: 0 <= i < |t.segments| && t.segments[i].Expr? && env.run(t.segments[i].text).None?
  {
    var t := CompiledTemplate(lang, raw);
    FilledIff(env, EscapeNone, t.segments);
    if t.isSingle { assert t.segments[0] == SegmentOf(Parse(raw).value[0]); }
    forall i | 0 <= i < |t.segments|
      ensures Rendered(env, EscapeNone, t.segments[i]).None? <==> t.segments[i].Expr? && env.run(t.segments[i].text).None?
    {
    }
  }

  lemma {:induction false} FilledOfSum(env: Env, mode: EscapeMode, a: seq<Segment>, b: seq<Segment>)
    ensures Filled(env, mode, a + b) ==
            if Filled(env, mode, a).Some? && Filled(env, mode, b).Some?
            then Some(Filled(env, mode, a).value + Filled(env, mode, b).value) else None
  {
    if b == [] {
      assert a + b == a;
      if Filled(env, mode, a).Some? { assert Filled(env, mode, a).value + "" == Filled(env, mode, a).value; }
    } else {
      var n := |b| - 1;
      FilledOfSum(env, mode, a, b[..n]);
      assert (a + b)[..|a + b| - 1] == a + b[..n];
      assert (a + b)[|a + b| - 1] == b[n];
      var x, y, z := Filled(env, mode, a), Filled(env, mode, b[..n]), Rendered(env, mode, b[n]);
      hide Filled, Rendered;
      if x.Some? && y.Some? && z.Some? {
        assert x.value + y.value + z.value == x.value + (y.value + z.value);
      }
    }
  }
}
