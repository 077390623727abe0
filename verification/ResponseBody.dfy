/**
 * internal/composition/parser.go: compileBodyNode, and response.go:
 * evaluateBodyNode and BuildResponse. A response body is compiled into a tree
 * of templates once and evaluated for every request; a template that errs
 * because a step it reads failed gives nothing instead of an error.
 */
module ResponseBody {
  import opened Wrappers
  import opened Templates

  datatype Node = TmplNode(tmpl: Template) | MapNode(children: map<string, Node>) | ListNode(elements: seq<Node>) | LitNode(literal: Value)

  // ----- Compiling -----

  predicate BodyCompiles(lang: Language, body: Value) {
    match body
    case Str(s) => IsExpression(s) ==> TemplateCompiles(lang, s)
    case Obj(fields) => forall k :: k in fields ==> BodyCompiles(lang, fields[k])
    case Arr(items) => forall i :: 0 <= i < |items| ==> BodyCompiles(lang, items[i])
    case _ => true
  }

  function Compiled(lang: Language, body: Value): Node
    requires BodyCompiles(lang, body)
  {
    match body
    case Str(s) => if IsExpression(s) then TmplNode(CompiledTemplate(lang, s)) else LitNode(body)
    case Obj(fields) => MapNode(map k | k in fields :: Compiled(lang, fields[k]))
    case Arr(items) => ListNode(seq(|items|, i requires 0 <= i < |items| => Compiled(lang, items[i])))
    case _ => LitNode(body)
  }

  method CompileBodyNode(lang: Language, body: Value) returns (r: Result<Node, TemplateError>)
    ensures r.Success? <==> BodyCompiles(lang, body)
    ensures r.Success? ==> r.value == Compiled(lang, body)
    decreases body
  {
    hide CompiledTemplate, TemplateCompiles, IsExpression, IsOneHole, ReadsStep;
    match body
    case Str(s) =>
      if !IsExpression(s) {
        return Success(LitNode(body));
      }
      var t := CompileTemplate(lang, s);
      return if t.Success? then Success(TmplNode(t.value)) else Failure(t.error);
    case Obj(fields) =>
      var m: map<string, Node> := map[];
      var rest := fields.Keys;
      while rest != {}
        invariant rest <= fields.Keys
        invariant forall k :: k in fields && k !in rest ==> BodyCompiles(lang, fields[k])
        invariant m == map k | k in fields && k !in rest :: Compiled(lang, fields[k])
      {
        var key :| key in rest;
        var node := CompileBodyNode(lang, fields[key]);
        if node.Failure? {
          return Failure(node.error);
        }
        m := m[key := node.value];
        rest := rest - {key};
      }
      return Success(MapNode(m));
    case Arr(items) =>
      var list: seq<Node> := [];
      for i := 0 to |items|
        invariant |list| == i
        invariant forall j :: 0 <= j < i ==> BodyCompiles(lang, items[j]) && list[j] == Compiled(lang, items[j])
      {
        var node := CompileBodyNode(lang, items[i]);
        if node.Failure? {
          return Failure(node.error);
        }
        list := list + [node.value];
      }
      return Success(ListNode(list));
    case _ =>
      return Success(LitNode(body));
  }

  // ----- Evaluating -----

  predicate HasFailed(deps: seq<string>, failed: set<string>) {
    exists i :: 0 <= i < |deps| && deps[i] in failed
  }

  method HasFailedDep(deps: seq<string>, failed: set<string>) returns (r: bool)
    ensures r == HasFailed(deps, failed)
  {
    for i := 0 to |deps|
      invariant forall j :: 0 <= j < i ==> deps[j] !in failed
    {
      if deps[i] in failed {
        return true;
      }
    }
    return false;
  }

  /** A template's part of the result: its value, or nothing when a step it reads failed. */
  function Filling(t: Template, env: Env, failed: set<string>): Option<Value> {
    var v := ValueOf(t, env);
    if v.None? && HasFailed(t.deps, failed) then Some(if t.isSingle then Nil else Str("")) else v
  }

  /** What a template gives, and what it gives in place of a value when a step it reads failed. */
  lemma FillingIs(t: Template, env: Env, failed: set<string>)
    requires SoundTemplate(t)
    ensures t.isSingle && env.run(t.segments[0].text).Some? ==> Filling(t, env, failed) == env.run(t.segments[0].text)
    ensures t.isSingle && env.run(t.segments[0].text).None? ==>
              Filling(t, env, failed) == if exists d :: d in t.deps && d in failed then Some(Nil) else None
    ensures !t.isSingle && (exists i :: 0 <= i < |t.segments| && CannotShow(env, EscapeNone, t.segments[i])) ==>
              Filling(t, env, failed) == if exists d :: d in t.deps && d in failed then Some(Str("")) else None
    ensures !t.isSingle && !(exists i :: 0 <= i < |t.segments| && CannotShow(env, EscapeNone, t.segments[i])) ==>
              exists text :: Filling(t, env, failed) == Some(Str(text)) && MadeOf(env, EscapeNone, t.segments, text)
  {
    FilledIsMade(env, EscapeNone, t.segments);
    NotFilledIff(env, EscapeNone, t.segments);
    hide Filled, CannotShow, MadeOf;
    if d :| d in t.deps && d in failed {
      var i :| 0 <= i < |t.deps| && t.deps[i] == d;
      assert HasFailed(t.deps, failed);
    }
  }

  function Evaluated(node: Node, env: Env, failed: set<string>): Option<Value> {
    match node
    case TmplNode(t) => Filling(t, env, failed)
    case MapNode(children) =>
      if forall k :: k in children ==> Evaluated(children[k], env, failed).Some?
      then Some(Obj(map k | k in children :: Evaluated(children[k], env, failed).value)) else None
    case ListNode(elements) =>
      if forall i :: 0 <= i < |elements| ==> Evaluated(elements[i], env, failed).Some?
      then Some(Arr(seq(|elements|, i requires 0 <= i < |elements| => Evaluated(elements[i], env, failed).value))) else None
    case LitNode(v) => Some(v)
  }

  lemma EvaluatedMap(children: map<string, Node>, env: Env, failed: set<string>)
    ensures var r := Evaluated(MapNode(children), env, failed);
            && (r.Some? <==> forall k :: k in children ==> Evaluated(children[k], env, failed).Some?)
            && (r.Some? ==> r.value.Obj? && r.value.fields.Keys == children.Keys
                            && forall k :: k in children ==> Evaluated(children[k], env, failed) == Some(r.value.fields[k]))
  {
  }

  lemma EvaluatedList(elements: seq<Node>, env: Env, failed: set<string>)
    ensures var r := Evaluated(ListNode(elements), env, failed);
            && (r.Some? <==> forall i :: 0 <= i < |elements| ==> Evaluated(elements[i], env, failed).Some?)
            && (r.Some? ==> r.value.Arr? && |r.value.items| == |elements|
                            && forall i :: 0 <= i < |elements| ==> Evaluated(elements[i], env, failed) == Some(r.value.items[i]))
  {
  }

  /** Templates as compilation leaves them. */
  predicate Sound(node: Node) {
    match node
    case TmplNode(t) => SoundTemplate(t)
    case MapNode(children) => forall k :: k in children ==> Sound(children[k])
    case ListNode(elements) => forall i :: 0 <= i < |elements| ==> Sound(elements[i])
    case LitNode(_) => true
  }

  method EvaluateBodyNode(node: Node, env: Env, failed: set<string>) returns (r: Option<Value>)
    requires Sound(node)
    ensures r == Evaluated(node, env, failed)
    decreases node
  {
    match node
    case TmplNode(t) =>
      var val := EvalValue(t, env);
      if val.None? {
        var excused := HasFailedDep(t.deps, failed);
        if excused {
          return Some(if t.isSingle then Nil else Str(""));
        }
      }
      return val;
    case MapNode(children) =>
      EvaluatedMap(children, env, failed);
      var result: map<string, Value> := map[];
      var rest := children.Keys;
      while rest != {}
        invariant rest <= children.Keys
        invariant forall k :: k in children && k !in rest ==> Evaluated(children[k], env, failed).Some?
        invariant result == map k | k in children && k !in rest :: Evaluated(children[k], env, failed).value
      {
        var key :| key in rest;
        var val := EvaluateBodyNode(children[key], env, failed);
        if val.None? {
          return None;
        }
        result := result[key := val.value];
        rest := rest - {key};
      }
      assert result == Evaluated(node, env, failed).value.fields;
      return Some(Obj(result));
    case ListNode(elements) =>
      EvaluatedList(elements, env, failed);
      var result: seq<Value> := [];
      for i := 0 to |elements|
        invariant |result| == i
        invariant forall j :: 0 <= j < i ==> Evaluated(elements[j], env, failed) == Some(result[j])
      {
        var val := EvaluateBodyNode(elements[i], env, failed);
        if val.None? {
          return None;
        }
        result := result + [val.value];
      }
      assert result == Evaluated(node, env, failed).value.items;
      return Some(Arr(result));
    case LitNode(v) =>
      return Some(v);
  }

  lemma {:induction false} CompiledIsSound(lang: Language, body: Value)
    requires BodyCompiles(lang, body)
    ensures Sound(Compiled(lang, body))
  {
    match body
    case Obj(fields) =>
      forall k | k in fields ensures Sound(Compiled(lang, fields[k])) { CompiledIsSound(lang, fields[k]); }
    case Arr(items) =>
      forall i | 0 <= i < |items| ensures Sound(Compiled(lang, items[i])) { CompiledIsSound(lang, items[i]); }
    case Str(s) =>
      if IsExpression(s) {
        var pieces := Parse(s).value;
        assert IsHole(pieces) ==> SegmentsOf(pieces)[0] == SegmentOf(pieces[0]);
      }
    case _ =>
  }

  // ----- Meaning -----

  predicate TemplateFree(body: Value) {
    match body
    case Str(s) => !IsExpression(s)
    case Obj(fields) => forall k :: k in fields ==> TemplateFree(fields[k])
    case Arr(items) => forall i :: 0 <= i < |items| ==> TemplateFree(items[i])
    case _ => true
  }

  /** A body without templates compiles, and is its own value in every environment. */
  lemma {:induction false} TemplateFreeIsItself(lang: Language, body: Value, env: Env, failed: set<string>)
    requires TemplateFree(body)
    ensures BodyCompiles(lang, body) && Evaluated(Compiled(lang, body), env, failed) == Some(body)
  {
    match body
    case Obj(fields) =>
      forall k | k in fields
        ensures BodyCompiles(lang, fields[k]) && Evaluated(Compiled(lang, fields[k]), env, failed) == Some(fields[k])
      {
        TemplateFreeIsItself(lang, fields[k], env, failed);
      }
      assert Evaluated(Compiled(lang, body), env, failed).value.fields == fields;
    case Arr(items) =>
      forall i | 0 <= i < |items|
        ensures BodyCompiles(lang, items[i]) && Evaluated(Compiled(lang, items[i]), env, failed) == Some(items[i])
      {
        TemplateFreeIsItself(lang, items[i], env, failed);
      }
      assert Evaluated(Compiled(lang, body), env, failed).value.items == items;
    case _ =>
  }

  datatype Move = Field(key: string) | Index(i: nat)

  /** The part of a value that a path leads to. */
  function ValueAt(v: Value, path: seq<Move>): Option<Value>
    decreases |path|
  {
    if path == [] then Some(v)
    else match path[0]
      case Field(k) => if v.Obj? && k in v.fields then ValueAt(v.fields[k], path[1..]) else None
      case Index(i) => if v.Arr? && i < |v.items| then ValueAt(v.items[i], path[1..]) else None
  }

  /** Some template of the body. */
  ghost predicate TemplateIn(body: Value, raw: string) {
    IsExpression(raw) && exists path :: ValueAt(body, path) == Some(Str(raw))
  }

  /** A template errs for itself: an expression errs, and no step that the template reads failed. */
  ghost predicate Errs(raw: string, lang: Language, env: Env, failed: set<string>)
    requires TemplateCompiles(lang, raw)
  {
    && (exists i :: ExprErrs(SegmentsOf(Parse(raw).value), i, env))
    && forall step :: ReadsStep(lang, SegmentsOf(Parse(raw).value), step) ==> step !in failed
  }

  ghost predicate ExprErrs(segments: seq<Segment>, i: int, env: Env) {
    0 <= i < |segments| && segments[i].Expr? && env.run(segments[i].text).None?
  }

  lemma FillingErrs(raw: string, lang: Language, env: Env, failed: set<string>)
    requires TemplateCompiles(lang, raw)
    ensures Filling(CompiledTemplate(lang, raw), env, failed).None? <==> Errs(raw, lang, env, failed)
  {
    var t := CompiledTemplate(lang, raw);
    TemplateErrsIff(lang, raw, env);
    DepsAreTheStepsRead(lang, t.segments);
    assert t.segments == SegmentsOf(Parse(raw).value) && t.deps == DepsOf(lang, t.segments);
    hide Parse, SegmentsOf, ValueOf, DepsOf, ReadsStep;
    assert ValueOf(t, env).None? <==> exists i :: ExprErrs(t.segments, i, env) by {
      if i :| 0 <= i < |t.segments| && t.segments[i].Expr? && env.run(t.segments[i].text).None? {
        assert ExprErrs(t.segments, i, env);
      }
    }
    if HasFailed(t.deps, failed) {
      var i :| 0 <= i < |t.deps| && t.deps[i] in failed;
      assert ReadsStep(lang, t.segments, t.deps[i]);
    }
    if step :| ReadsStep(lang, t.segments, step) && step in failed {
      assert step in t.deps;
    }
  }

  ghost predicate ErringIn(lang: Language, body: Value, env: Env, failed: set<string>) {
    exists raw :: TemplateIn(body, raw) && TemplateCompiles(lang, raw) && Errs(raw, lang, env, failed)
  }

  /** A body fails to evaluate iff it holds a template that errs for itself. */
  lemma {:induction false} EvaluationErrsIff(lang: Language, body: Value, env: Env, failed: set<string>)
    requires BodyCompiles(lang, body)
    ensures Evaluated(Compiled(lang, body), env, failed).None? <==> ErringIn(lang, body, env, failed)
  {
    match body
    case Str(s) =>
      if IsExpression(s) { FillingErrs(s, lang, env, failed); }
      OnlyItself(s);
    case Obj(fields) =>
      var node := Compiled(lang, body);
      EvaluatedMap(node.children, env, failed);
      TemplatesOfFields(fields);
      forall k | k in fields
        ensures Evaluated(node.children[k], env, failed).None? <==> ErringIn(lang, fields[k], env, failed)
      {
        EvaluationErrsIff(lang, fields[k], env, failed);
      }
      hide Evaluated, TemplateIn, Errs, TemplateCompiles;
    case Arr(items) =>
      var node := Compiled(lang, body);
      EvaluatedList(node.elements, env, failed);
      TemplatesOfItems(items);
      forall i | 0 <= i < |items|
        ensures Evaluated(node.elements[i], env, failed).None? <==> ErringIn(lang, items[i], env, failed)
      {
        EvaluationErrsIff(lang, items[i], env, failed);
      }
      hide Evaluated, TemplateIn, Errs, TemplateCompiles;
    case _ =>
      NoTemplate(body);
  }

  lemma OnlyItself(s: string)
    ensures forall raw :: TemplateIn(Str(s), raw) <==> raw == s && IsExpression(s)
  {
    assert ValueAt(Str(s), []) == Some(Str(s));
  }

  lemma NoTemplate(body: Value)
    requires !body.Str? && !body.Obj? && !body.Arr?
    ensures forall raw :: !TemplateIn(body, raw)
  {
  }

  lemma TemplatesOfFields(fields: map<string, Value>)
    ensures forall raw :: TemplateIn(Obj(fields), raw) <==> exists k :: k in fields && TemplateIn(fields[k], raw)
  {
    var body := Obj(fields);
    forall raw, k | k in fields && TemplateIn(fields[k], raw) ensures TemplateIn(body, raw) {
      var path: seq<Move> :| ValueAt(fields[k], path) == Some(Str(raw));
      assert ([Field(k)] + path)[1..] == path;
      assert ValueAt(body, [Field(k)] + path) == Some(Str(raw));
    }
    forall raw | TemplateIn(body, raw) ensures exists k :: k in fields && TemplateIn(fields[k], raw) {
      var path: seq<Move> :| ValueAt(body, path) == Some(Str(raw));
      assert ValueAt(fields[path[0].key], path[1..]) == Some(Str(raw));
      assert TemplateIn(fields[path[0].key], raw);
    }
  }

  lemma TemplatesOfItems(items: seq<Value>)
    ensures forall raw :: TemplateIn(Arr(items), raw) <==> exists i :: 0 <= i < |items| && TemplateIn(items[i], raw)
  {
    var body := Arr(items);
    forall raw, i | 0 <= i < |items| && TemplateIn(items[i], raw) ensures TemplateIn(body, raw) {
      var path: seq<Move> :| ValueAt(items[i], path) == Some(Str(raw));
      assert ([Index(i)] + path)[1..] == path;
      assert ValueAt(body, [Index(i)] + path) == Some(Str(raw));
    }
    forall raw | TemplateIn(body, raw) ensures exists i :: 0 <= i < |items| && TemplateIn(items[i], raw) {
      var path: seq<Move> :| ValueAt(body, path) == Some(Str(raw));
      assert ValueAt(items[path[0].i], path[1..]) == Some(Str(raw));
      assert TemplateIn(items[path[0].i], raw);
    }
  }

  /** A body fails to compile iff it holds a template that does. */
  lemma {:induction false} CompilationFailsIff(lang: Language, body: Value)
    ensures !BodyCompiles(lang, body) <==> exists raw :: TemplateIn(body, raw) && !TemplateCompiles(lang, raw)
  {
    match body
    case Str(s) =>
      OnlyItself(s);
    case Obj(fields) =>
      forall k | k in fields
        ensures !BodyCompiles(lang, fields[k]) <==> exists raw :: TemplateIn(fields[k], raw) && !TemplateCompiles(lang, raw)
      {
        CompilationFailsIff(lang, fields[k]);
      }
      TemplatesOfFields(fields);
    case Arr(items) =>
      forall i | 0 <= i < |items|
        ensures !BodyCompiles(lang, items[i]) <==> exists raw :: TemplateIn(items[i], raw) && !TemplateCompiles(lang, raw)
      {
        CompilationFailsIff(lang, items[i]);
      }
      TemplatesOfItems(items);
    case _ =>
      NoTemplate(body);
  }

  /**
   * At every path of the body the result holds what the part there evaluates
   * to: nothing is moved, dropped or evaluated under other circumstances.
   */
  lemma {:induction false} EvaluatedAt(lang: Language, body: Value, env: Env, failed: set<string>, path: seq<Move>)
    requires BodyCompiles(lang, body) && Evaluated(Compiled(lang, body), env, failed).Some?
    requires ValueAt(body, path).Some?
    ensures BodyCompiles(lang, ValueAt(body, path).value)
    ensures ValueAt(Evaluated(Compiled(lang, body), env, failed).value, path)
            == Evaluated(Compiled(lang, ValueAt(body, path).value), env, failed)
    decreases |path|
  {
    if path != [] {
      var node := Compiled(lang, body);
      match path[0]
      case Field(k) =>
        EvaluatedMap(node.children, env, failed);
        assert node.children[k] == Compiled(lang, body.fields[k]);
        EvaluatedAt(lang, body.fields[k], env, failed, path[1..]);
      case Index(i) =>
        EvaluatedList(node.elements, env, failed);
        assert node.elements[i] == Compiled(lang, body.items[i]);
        EvaluatedAt(lang, body.items[i], env, failed, path[1..]);
    }
  }

  // ----- The response -----

  /** staticStatus is 0 when none is given. */
  datatype CompiledResponse = CompiledResponse(staticStatus: int, statusTmpl: Option<Template>, contentType: string, body: Node)

  datatype CompositionResponse = CompositionResponse(status: int, contentType: string, body: Value)

  const ERRORS := "_errors"

  /** The body with the step errors attached, which only a decoded object can carry: a map of strings cannot. */
  function WithErrors(body: Value, errors: seq<Value>): Value {
    if |errors| > 0 && body.Obj? then Obj(body.fields[ERRORS := Arr(errors)]) else body
  }

  /** int(v) of a float64 in Go: towards zero. */
  function Truncated(v: real): int {
    if v < 0.0 then -(-v).Floor else v.Floor
  }

  /** n is v without its fraction. */
  predicate IsTowardsZero(n: int, v: real) {
    if v >= 0.0 then n as real <= v < (n + 1) as real else (n - 1) as real < v <= n as real
  }

  /** The status: a template's number before a fixed one before 200; None when the template gives no number. */
  function StatusOf(resp: CompiledResponse, env: Env): Option<int> {
    if resp.statusTmpl.Some? then
      var v := ValueOf(resp.statusTmpl.value, env);
      if v.Some? && v.value.Int? then Some(v.value.number)
      else if v.Some? && v.value.Float? then Some(Truncated(v.value.magnitude))
      else None
    else Some(if resp.staticStatus != 0 then resp.staticStatus else 200)
  }

  predicate SoundTemplate(t: Template) {
    t.isSingle ==> |t.segments| == 1 && t.segments[0].Expr?
  }

  method BuildResponse(resp: CompiledResponse, env: Env, errors: seq<Value>, failed: set<string>)
    returns (r: Option<CompositionResponse>)
    requires Sound(resp.body) && (resp.statusTmpl.Some? ==> SoundTemplate(resp.statusTmpl.value))
    ensures r.Some? <==> StatusOf(resp, env).Some? && Evaluated(resp.body, env, failed).Some?
    ensures r.Some? ==> r.value.status == StatusOf(resp, env).value && r.value.contentType == resp.contentType
    ensures r.Some? ==> r.value.body == WithErrors(Evaluated(resp.body, env, failed).value, errors)
    ensures r.Some? && resp.statusTmpl.None? ==> r.value.status == if resp.staticStatus != 0 then resp.staticStatus else 200
    ensures r.Some? && resp.statusTmpl.Some? ==>
              match ValueOf(resp.statusTmpl.value, env)
              case Some(Int(number)) => r.value.status == number
              case Some(Float(v)) => IsTowardsZero(r.value.status, v)
              case _ => false
    ensures r.Some? && |errors| > 0 && Evaluated(resp.body, env, failed).value.Obj? ==>
              r.value.body == Obj(Evaluated(resp.body, env, failed).value.fields["_errors" := Arr(errors)])
    ensures r.Some? && (|errors| == 0 || !Evaluated(resp.body, env, failed).value.Obj?) ==>
              Some(r.value.body) == Evaluated(resp.body, env, failed)
  {
    var status := 200;
    if resp.staticStatus != 0 {
      status := resp.staticStatus;
    }
    if resp.statusTmpl.Some? {
      var value := EvalValue(resp.statusTmpl.value, env);
      if value.None? {
        return None;
      }
      match value.value
      case Int(number) => status := number;
      case Float(magnitude) => status := Truncated(magnitude);
      case _ => return None;
    }
    var body := EvaluateBodyNode(resp.body, env, failed);
    if body.None? {
      return None;
    }
    var v := body.value;
    if |errors| > 0 {
      if v.Obj? {
        v := Obj(v.fields[ERRORS := Arr(errors)]);
      }
    }
    return Some(CompositionResponse(status, resp.contentType, v));
  }

  /** A status template has no use for failed steps: one that errs fails the response, whichever steps failed. */
  lemma StatusIsNotNilSafe(lang: Language, resp: CompiledResponse, raw: string, env: Env)
    requires TemplateCompiles(lang, raw) && resp.statusTmpl == Some(CompiledTemplate(lang, raw))
    requires exists i :: ExprErrs(SegmentsOf(Parse(raw).value), i, env)
    ensures StatusOf(resp, env).None?
    ensures forall failed :: HasFailed(resp.statusTmpl.value.deps, failed) ==> Filling(resp.statusTmpl.value, env, failed).Some?
  {
    TemplateErrsIff(lang, raw, env);
    hide Parse, SegmentsOf, ValueOf;
    var i :| ExprErrs(SegmentsOf(Parse(raw).value), i, env);
    assert CompiledTemplate(lang, raw).segments == SegmentsOf(Parse(raw).value);
  }
}
