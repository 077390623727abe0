/**
 * internal/studio/publish.go: assembleArtifact renders a draft as one artifact
 * document, splitArtifact takes a document apart into draft resources. YAML
 * itself is taken to be a faithful notation for maps, so documents are maps.
 */
module Artifact {
  import opened Wrappers
  import opened Sorting
  import opened Drafts

  datatype Yaml = Scalar(text: string) | List(items: seq<Yaml>) | Map(entries: map<string, Yaml>)

  type Body = map<string, Yaml>

  datatype Part = Part(kind: Kind, name: string, body: Body)

  const SINGLETON := "default"
  const UPSTREAMS := "upstreams"
  const COMPOSITIONS := "compositions"
  const AUTH := "auth"
  const RATE_LIMIT := "rate_limit"
  const RESERVED := {UPSTREAMS, COMPOSITIONS, AUTH, RATE_LIMIT}

  // ----- Assembling -----

  /** The bodies of one kind by name; of two with one name the later stands. */
  function Named(parts: seq<Part>, kind: Kind): Body {
    if parts == [] then map[]
    else
      var n := |parts| - 1;
      var before := Named(parts[..n], kind);
      if parts[n].kind == kind then before[parts[n].name := Map(parts[n].body)] else before
  }

  /** What a resource puts at the top level of the document: auth, rate_limit, or its settings. */
  function Put(before: Body, p: Part): Body {
    match p.kind
    case KAuth => before[AUTH := Map(p.body)]
    case KRateLimit => before[RATE_LIMIT := Map(p.body)]
    case KSettings => before + p.body
    case _ => before
  }

  function Top(parts: seq<Part>): Body {
    if parts == [] then map[] else Put(Top(parts[..|parts| - 1]), parts[|parts| - 1])
  }

  function Section(name: string, entries: Body): Body {
    if |entries| > 0 then map[name := Map(entries)] else map[]
  }

  function Assembled(parts: seq<Part>): Body {
    WithSections(Top(parts), Named(parts, KUpstream), Named(parts, KComposition))
  }

  method WithSettings(before: Body, body: Body) returns (doc: Body)
    ensures doc == before + body
  {
    doc := before;
    var rest := body.Keys;
    while rest != {}
      invariant rest <= body.Keys
      invariant doc == before + (map k | k in body && k !in rest :: body[k])
    {
      var k :| k in rest;
      doc := doc[k := body[k]];
      rest := rest - {k};
    }
    assert (map k | k in body && k !in rest :: body[k]) == body;
  }

  lemma OneMore(parts: seq<Part>, i: nat)
    requires i < |parts|
    ensures Top(parts[..i + 1]) == Put(Top(parts[..i]), parts[i])
    ensures forall kind :: Named(parts[..i + 1], kind) ==
              if parts[i].kind == kind then Named(parts[..i], kind)[parts[i].name := Map(parts[i].body)] else Named(parts[..i], kind)
  {
    assert parts[..i + 1][..i] == parts[..i];
  }

  /** Adding the two sections, each when it is not empty. */
  function WithSections(top: Body, upstreams: Body, compositions: Body): Body {
    top + Section(UPSTREAMS, upstreams) + Section(COMPOSITIONS, compositions)
  }

  lemma AddSection(doc: Body, name: string, entries: Body)
    ensures |entries| > 0 ==> doc + Section(name, entries) == doc[name := Map(entries)]
    ensures |entries| == 0 ==> doc + Section(name, entries) == doc
  {
  }

  method AssembleArtifact(parts: seq<Part>) returns (doc: Body)
    ensures doc == Assembled(parts)
  {
    hide Top, Named, Section;
    var upstreams, compositions;
    doc, upstreams, compositions := Distribute(parts);
    AddSection(doc, UPSTREAMS, upstreams);
    if |upstreams| > 0 {
      doc := doc[UPSTREAMS := Map(upstreams)];
    }
    AddSection(doc, COMPOSITIONS, compositions);
    if |compositions| > 0 {
      doc := doc[COMPOSITIONS := Map(compositions)];
    }
  }

  /** The loop over the draft: each resource to its section, or to the top level. */
  method Distribute(parts: seq<Part>) returns (doc: Body, upstreams: Body, compositions: Body)
    ensures doc == Top(parts) && upstreams == Named(parts, KUpstream) && compositions == Named(parts, KComposition)
  {
    doc, upstreams, compositions := map[], map[], map[];
    for i := 0 to |parts|
      invariant doc == Top(parts[..i])
      invariant upstreams == Named(parts[..i], KUpstream) && compositions == Named(parts[..i], KComposition)
    {
      hide Top, Named;
      var r := parts[i];
      OneMore(parts, i);
      match r.kind
      case KUpstream => upstreams := upstreams[r.name := Map(r.body)];
      case KComposition => compositions := compositions[r.name := Map(r.body)];
      case KAuth => doc := doc[AUTH := Map(r.body)];
      case KRateLimit => doc := doc[RATE_LIMIT := Map(r.body)];
      case KSettings => doc := WithSettings(doc, r.body);
    }
    assert parts[..|parts|] == parts;
  }

  // ----- Splitting -----

  /** A section is a mapping of mappings. */
  predicate SectionOk(doc: Body, key: string) {
    key in doc ==> doc[key].Map? && forall n :: n in doc[key].entries ==> doc[key].entries[n].Map?
  }

  predicate SingleOk(doc: Body, key: string) {
    key in doc ==> doc[key].Map?
  }

  /** The documents splitArtifact accepts. */
  predicate Splittable(doc: Body) {
    SectionOk(doc, UPSTREAMS) && SectionOk(doc, COMPOSITIONS) && SingleOk(doc, AUTH) && SingleOk(doc, RATE_LIMIT)
  }

  ghost function SectionParts(doc: Body, key: string, kind: Kind): set<Part>
    requires SectionOk(doc, key)
  {
    if key in doc then set n | n in doc[key].entries :: Part(kind, n, doc[key].entries[n].entries) else {}
  }

  ghost function SingleParts(doc: Body, key: string, kind: Kind): set<Part>
    requires SingleOk(doc, key)
  {
    if key in doc then {Part(kind, SINGLETON, doc[key].entries)} else {}
  }

  /** Whatever is not reserved. */
  function Settings(doc: Body): Body {
    map k | k in doc && k !in RESERVED :: doc[k]
  }

  ghost function SettingsParts(doc: Body): set<Part> {
    if Settings(doc) == map[] then {} else {Part(KSettings, SINGLETON, Settings(doc))}
  }

  ghost function Parts(doc: Body): set<Part>
    requires Splittable(doc)
  {
    SectionParts(doc, UPSTREAMS, KUpstream) + SectionParts(doc, COMPOSITIONS, KComposition)
    + SingleParts(doc, AUTH, KAuth) + SingleParts(doc, RATE_LIMIT, KRateLimit) + SettingsParts(doc)
  }

  /** One resource a kind and name. */
  ghost predicate DistinctParts(parts: seq<Part>) {
    forall i, j :: 0 <= i < j < |parts| ==> (parts[i].kind, parts[i].name) != (parts[j].kind, parts[j].name)
  }

  method SplitSection(items: Body, kind: Kind) returns (r: Result<seq<Part>, string>)
    ensures r.Success? <==> forall n :: n in items ==> items[n].Map?
    ensures r.Success? ==> DistinctParts(r.value) && ToSet(r.value) == set n | n in items :: Part(kind, n, items[n].entries)
    ensures r.Success? ==> forall i :: 0 <= i < |r.value| ==> r.value[i].kind == kind
  {
    var out: seq<Part> := [];
    var rest := items.Keys;
    while rest != {}
      invariant rest <= items.Keys
      invariant forall n :: n in items && n !in rest ==> items[n].Map?
      invariant forall i :: 0 <= i < |out| ==>
                  && out[i].name in items && out[i].name !in rest && items[out[i].name].Map?
                  && out[i] == Part(kind, out[i].name, items[out[i].name].entries)
      invariant forall n :: n in items && n !in rest ==> Part(kind, n, items[n].entries) in out
      invariant DistinctParts(out)
    {
      var name :| name in rest;
      if !items[name].Map? {
        return Failure(name);
      }
      out := out + [Part(kind, name, items[name].entries)];
      rest := rest - {name};
    }
    return Success(out);
  }

  /** The parts one reserved key contributes. */
  ghost function PartsAt(doc: Body, key: string): set<Part> {
    if key == UPSTREAMS && SectionOk(doc, key) then SectionParts(doc, key, KUpstream)
    else if key == COMPOSITIONS && SectionOk(doc, key) then SectionParts(doc, key, KComposition)
    else if key == AUTH && SingleOk(doc, key) then SingleParts(doc, key, KAuth)
    else if key == RATE_LIMIT && SingleOk(doc, key) then SingleParts(doc, key, KRateLimit)
    else {}
  }

  function KeyOf(kind: Kind): string {
    match kind
    case KUpstream => UPSTREAMS
    case KComposition => COMPOSITIONS
    case KAuth => AUTH
    case KRateLimit => RATE_LIMIT
    case KSettings => ""
  }

  predicate KeyOk(doc: Body, key: string) {
    && ((key == UPSTREAMS || key == COMPOSITIONS) ==> SectionOk(doc, key))
    && ((key == AUTH || key == RATE_LIMIT) ==> SingleOk(doc, key))
  }

  /** out holds the parts of the keys seen so far. */
  ghost predicate Gathered(doc: Body, seen: set<string>, out: seq<Part>) {
    && DistinctParts(out)
    && (forall p :: p in out ==> p.kind != KSettings && KeyOf(p.kind) in seen && p in PartsAt(doc, KeyOf(p.kind)))
    && (forall k, p :: k in seen && p in PartsAt(doc, k) ==> p in out)
  }

  lemma JoinParts(a: seq<Part>, b: seq<Part>)
    requires DistinctParts(a) && DistinctParts(b)
    requires forall p, q :: p in a && q in b ==> p.kind != q.kind
    ensures DistinctParts(a + b)
  {
    forall i, j | 0 <= i < |a| && 0 <= j < |b| ensures a[i].kind != b[j].kind {
      assert a[i] in a && b[j] in b;
    }
  }

  lemma GatherMore(doc: Body, seen: set<string>, out: seq<Part>, kind: Kind, more: seq<Part>)
    requires Gathered(doc, seen, out) && KeyOf(kind) !in seen && kind != KSettings
    requires DistinctParts(more) && ToSet(more) == PartsAt(doc, KeyOf(kind))
    requires forall i :: 0 <= i < |more| ==> more[i].kind == kind
    ensures Gathered(doc, seen + {KeyOf(kind)}, out + more)
  {
    hide PartsAt;
    forall p | p in more ensures p.kind == kind && p in PartsAt(doc, KeyOf(kind)) {
      assert p in ToSet(more);
    }
    JoinParts(out, more);
    forall k, p | k in seen + {KeyOf(kind)} && p in PartsAt(doc, k) ensures p in out + more {
      if k == KeyOf(kind) { assert p in ToSet(more); }
    }
  }

  /** A settings key contributes nothing by itself. */
  lemma GatherSetting(doc: Body, seen: set<string>, out: seq<Part>, key: string)
    requires Gathered(doc, seen, out) && key !in RESERVED
    ensures Gathered(doc, seen + {key}, out)
  {
    hide SectionParts, SingleParts, SectionOk, SingleOk;
  }

  /** The parts of one reserved key, or that it is malformed. */
  method SplitKey(doc: Body, kind: Kind) returns (r: Result<seq<Part>, string>)
    requires kind != KSettings && KeyOf(kind) in doc
    ensures r.Success? <==> KeyOk(doc, KeyOf(kind))
    ensures r.Success? ==> DistinctParts(r.value) && ToSet(r.value) == PartsAt(doc, KeyOf(kind))
    ensures r.Success? ==> forall i :: 0 <= i < |r.value| ==> r.value[i].kind == kind
  {
    var key := KeyOf(kind);
    if !doc[key].Map? {
      return Failure(key);
    }
    if kind == KUpstream || kind == KComposition {
      r := SplitSection(doc[key].entries, kind);
    } else {
      r := Success([Part(kind, SINGLETON, doc[key].entries)]);
    }
  }

  /** The resources of a document, in whatever order the runtime visits its keys. */
  method SplitArtifact(doc: Body) returns (r: Result<seq<Part>, string>)
    ensures r.Success? <==> Splittable(doc)
    ensures r.Success? ==> DistinctParts(r.value) && ToSet(r.value) == Parts(doc)
  {
    hide PartsAt, Gathered, KeyOk, SectionParts, SingleParts, SettingsParts, Splittable, Parts, DistinctParts;
    var out: seq<Part> := [];
    var settings: Body := map[];
    var rest := doc.Keys;
    NothingGathered(doc);
    while rest != {}
      invariant rest <= doc.Keys
      invariant forall k :: k in doc && k !in rest ==> KeyOk(doc, k)
      invariant settings == map k | k in doc && k !in rest && k !in RESERVED :: doc[k]
      invariant Gathered(doc, doc.Keys - rest, out)
    {
      var key :| key in rest;
      assert doc.Keys - (rest - {key}) == doc.Keys - rest + {key};
      if key in RESERVED {
        var kind := if key == UPSTREAMS then KUpstream else if key == COMPOSITIONS then KComposition
                    else if key == AUTH then KAuth else KRateLimit;
        var items := SplitKey(doc, kind);
        if items.Failure? {
          SplittableIff(doc);
          return Failure(key);
        }
        GatherMore(doc, doc.Keys - rest, out, kind, items.value);
        out := out + items.value;
      } else {
        SettingKeyOk(doc, key);
        GatherSetting(doc, doc.Keys - rest, out, key);
        settings := settings[key := doc[key]];
      }
      rest := rest - {key};
    }
    assert settings == Settings(doc);
    assert doc.Keys - rest == doc.Keys;
    SplittableIff(doc);
    GatheredAll(doc, out);
    if |settings| > 0 {
      out := out + [Part(KSettings, SINGLETON, settings)];
    }
    return Success(out);
  }

  lemma NothingGathered(doc: Body)
    ensures Gathered(doc, doc.Keys - doc.Keys, [])
  {
  }

  lemma SettingKeyOk(doc: Body, key: string)
    requires key !in RESERVED
    ensures KeyOk(doc, key)
  {
  }

  lemma SplittableIff(doc: Body)
    ensures Splittable(doc) <==> forall k :: k in doc ==> KeyOk(doc, k)
  {
    if forall k :: k in doc ==> KeyOk(doc, k) {
      assert KeyOk(doc, UPSTREAMS) || UPSTREAMS !in doc;
      assert KeyOk(doc, COMPOSITIONS) || COMPOSITIONS !in doc;
      assert KeyOk(doc, AUTH) || AUTH !in doc;
      assert KeyOk(doc, RATE_LIMIT) || RATE_LIMIT !in doc;
    }
  }

  /** With every key seen, only the settings are missing. */
  lemma GatheredAll(doc: Body, out: seq<Part>)
    requires Splittable(doc) && Gathered(doc, doc.Keys, out)
    ensures DistinctParts(out) && ToSet(out) + SettingsParts(doc) == Parts(doc)
    ensures Settings(doc) != map[] ==> SettingsParts(doc) == {Part(KSettings, SINGLETON, Settings(doc))}
    ensures Settings(doc) == map[] ==> SettingsParts(doc) == {}
    ensures var last := [Part(KSettings, SINGLETON, Settings(doc))];
            DistinctParts(out + last) && ToSet(out + last) == ToSet(out) + {last[0]}
  {
    hide SectionParts, SingleParts;
    AllParts(doc);
    assert ToSet(out) == PartsAt(doc, UPSTREAMS) + PartsAt(doc, COMPOSITIONS) + PartsAt(doc, AUTH) + PartsAt(doc, RATE_LIMIT) by {
      hide PartsAt;
      forall p | p in out
        ensures p in PartsAt(doc, UPSTREAMS) + PartsAt(doc, COMPOSITIONS) + PartsAt(doc, AUTH) + PartsAt(doc, RATE_LIMIT)
      {
        assert p in PartsAt(doc, KeyOf(p.kind));
      }
    }
    ToSetOfSum(out, [Part(KSettings, SINGLETON, Settings(doc))]);
  }

  lemma AllParts(doc: Body)
    requires Splittable(doc)
    ensures Parts(doc) == PartsAt(doc, UPSTREAMS) + PartsAt(doc, COMPOSITIONS) + PartsAt(doc, AUTH) + PartsAt(doc, RATE_LIMIT)
                          + SettingsParts(doc)
    ensures UPSTREAMS !in doc ==> PartsAt(doc, UPSTREAMS) == {}
    ensures COMPOSITIONS !in doc ==> PartsAt(doc, COMPOSITIONS) == {}
    ensures AUTH !in doc ==> PartsAt(doc, AUTH) == {}
    ensures RATE_LIMIT !in doc ==> PartsAt(doc, RATE_LIMIT) == {}
  {
    assert UPSTREAMS != COMPOSITIONS && UPSTREAMS != AUTH && UPSTREAMS != RATE_LIMIT
           && COMPOSITIONS != AUTH && COMPOSITIONS != RATE_LIMIT && AUTH != RATE_LIMIT;
  }

  // ----- Round trips -----

  /** Singletons carry the one name they may have, and settings keep off the reserved keys. */
  ghost predicate GoodPart(p: Part) {
    && (p.kind in {KAuth, KRateLimit, KSettings} ==> p.name == SINGLETON)
    && (p.kind == KSettings ==> p.body.Keys !! RESERVED)
  }

  ghost predicate GoodDraft(parts: seq<Part>) {
    DistinctParts(parts) && forall p :: p in parts ==> GoodPart(p)
  }

  lemma {:induction false} NamedEntries(parts: seq<Part>, kind: Kind)
    requires DistinctParts(parts)
    ensures forall n :: n in Named(parts, kind) ==>
              Named(parts, kind)[n].Map? && Part(kind, n, Named(parts, kind)[n].entries) in parts
    ensures forall p :: p in parts && p.kind == kind ==> p.name in Named(parts, kind) && Named(parts, kind)[p.name] == Map(p.body)
  {
    if parts != [] {
      var n := |parts| - 1;
      var init, last := parts[..n], parts[n];
      NamedEntries(init, kind);
      assert parts == init + [last];
      forall p | p in parts && p.kind == kind ensures p.name in Named(parts, kind) && Named(parts, kind)[p.name] == Map(p.body) {
        if p != last {
          var i :| 0 <= i < n && init[i] == p;
          assert parts[i] == p;
        }
      }
    }
  }

  /** The top-level entry k comes from a resource of the draft. */
  ghost predicate EntryFrom(parts: set<Part>, k: string, v: Yaml) {
    if k == AUTH then v.Map? && Part(KAuth, SINGLETON, v.entries) in parts
    else if k == RATE_LIMIT then v.Map? && Part(KRateLimit, SINGLETON, v.entries) in parts
    else k !in RESERVED && exists body :: Part(KSettings, SINGLETON, body) in parts && k in body && body[k] == v
  }

  /** The resource is where it belongs at the top level, if it belongs there. */
  ghost predicate PartIn(top: Body, p: Part) {
    match p.kind
    case KAuth => AUTH in top && top[AUTH] == Map(p.body)
    case KRateLimit => RATE_LIMIT in top && top[RATE_LIMIT] == Map(p.body)
    case KSettings => forall k :: k in p.body ==> k in top && top[k] == p.body[k]
    case _ => true
  }

  ghost predicate TopRight(parts: set<Part>, top: Body) {
    (forall k :: k in top ==> EntryFrom(parts, k, top[k])) && forall p :: p in parts ==> PartIn(top, p)
  }

  lemma EntryStays(parts: set<Part>, p: Part, k: string, v: Yaml)
    requires EntryFrom(parts, k, v)
    ensures EntryFrom(parts + {p}, k, v)
  {
    if k != AUTH && k != RATE_LIMIT {
      var body :| Part(KSettings, SINGLETON, body) in parts && k in body && body[k] == v;
      assert Part(KSettings, SINGLETON, body) in parts + {p};
    }
  }

  lemma EntryPut(parts: set<Part>, p: Part, before: Body, k: string)
    requires GoodPart(p) && k in Put(before, p) && (k in before ==> EntryFrom(parts, k, before[k]))
    ensures EntryFrom(parts + {p}, k, Put(before, p)[k])
  {
    if k in before && Put(before, p)[k] == before[k] {
      EntryStays(parts, p, k, before[k]);
    } else if p.kind == KSettings {
      assert k in p.body;
      assert Part(KSettings, SINGLETON, p.body) in parts + {p};
    }
  }

  lemma PartStays(p: Part, last: Part, before: Body)
    requires GoodPart(p) && GoodPart(last) && (p.kind, p.name) != (last.kind, last.name)
    requires PartIn(before, p)
    ensures PartIn(Put(before, last), p)
  {
    assert AUTH in RESERVED && RATE_LIMIT in RESERVED && AUTH != RATE_LIMIT;
  }

  lemma {:induction false} TopIsRight(parts: seq<Part>)
    requires GoodDraft(parts)
    ensures TopRight(ToSet(parts), Top(parts))
  {
    if parts != [] {
      var n := |parts| - 1;
      var init, last := parts[..n], parts[n];
      assert parts == init + [last];
      assert forall p :: p in init ==> p in parts;
      TopIsRight(init);
      ToSetOfLast(parts);
      assert Top(parts) == Put(Top(init), last);
      TopStep(init, last, Top(init));
    }
  }

  lemma TopStep(init: seq<Part>, last: Part, before: Body)
    requires GoodDraft(init + [last]) && TopRight(ToSet(init), before)
    ensures TopRight(ToSet(init) + {last}, Put(before, last))
  {
    var parts, after := init + [last], Put(before, last);
    assert last in parts;
    forall k | k in after ensures EntryFrom(ToSet(init) + {last}, k, after[k]) {
      EntryPut(ToSet(init), last, before, k);
    }
    forall p | p in ToSet(init) + {last} ensures PartIn(after, p) {
      if p in init {
        var i :| 0 <= i < |init| && init[i] == p;
        assert parts[i] == p && parts[|init|] == last;
        PartStays(p, last, before);
      }
    }
  }

  // ----- Splitting what was assembled -----

  /** Each section of an assembled document is the resources of its kind, and the rest is the top level. */
  lemma AssembledAt(parts: seq<Part>)
    requires GoodDraft(parts)
    ensures var doc := Assembled(parts);
            && (UPSTREAMS in doc <==> Named(parts, KUpstream) != map[])
            && (UPSTREAMS in doc ==> doc[UPSTREAMS] == Map(Named(parts, KUpstream)))
            && (COMPOSITIONS in doc <==> Named(parts, KComposition) != map[])
            && (COMPOSITIONS in doc ==> doc[COMPOSITIONS] == Map(Named(parts, KComposition)))
            && (forall k :: k != UPSTREAMS && k != COMPOSITIONS ==>
                  (k in doc <==> k in Top(parts)) && (k in doc ==> doc[k] == Top(parts)[k]))
  {
    TopIsRight(parts);
    NoSections(ToSet(parts), Top(parts));
    hide Named, Top, TopRight, GoodDraft;
    SectionsAt(Top(parts), Named(parts, KUpstream), Named(parts, KComposition));
  }

  lemma SectionsAt(top: Body, upstreams: Body, compositions: Body)
    requires UPSTREAMS !in top && COMPOSITIONS !in top
    ensures var doc := WithSections(top, upstreams, compositions);
            && (UPSTREAMS in doc <==> upstreams != map[])
            && (UPSTREAMS in doc ==> doc[UPSTREAMS] == Map(upstreams))
            && (COMPOSITIONS in doc <==> compositions != map[])
            && (COMPOSITIONS in doc ==> doc[COMPOSITIONS] == Map(compositions))
            && (forall k :: k != UPSTREAMS && k != COMPOSITIONS ==>
                  (k in doc <==> k in top) && (k in doc ==> doc[k] == top[k]))
  {
    assert UPSTREAMS != COMPOSITIONS;
    var one := top + Section(UPSTREAMS, upstreams);
    SectionAt(top, UPSTREAMS, upstreams);
    SectionAt(one, COMPOSITIONS, compositions);
    hide Section;
  }

  lemma SectionAt(doc: Body, name: string, entries: Body)
    requires name !in doc
    ensures var after := doc + Section(name, entries);
            && (name in after <==> entries != map[])
            && (name in after ==> after[name] == Map(entries))
            && (forall k :: k != name ==> (k in after <==> k in doc) && (k in after ==> after[k] == doc[k]))
  {
  }

  lemma NotFromSections(parts: set<Part>, v: Yaml)
    ensures !EntryFrom(parts, UPSTREAMS, v) && !EntryFrom(parts, COMPOSITIONS, v)
  {
    assert UPSTREAMS != AUTH && UPSTREAMS != RATE_LIMIT && COMPOSITIONS != AUTH && COMPOSITIONS != RATE_LIMIT;
  }

  lemma NoSections(parts: set<Part>, top: Body)
    requires TopRight(parts, top)
    ensures UPSTREAMS !in top && COMPOSITIONS !in top
  {
    hide EntryFrom;
    forall v ensures !EntryFrom(parts, UPSTREAMS, v) && !EntryFrom(parts, COMPOSITIONS, v) {
      NotFromSections(parts, v);
    }
  }

  ghost function OfKind(parts: set<Part>, kind: Kind): set<Part> {
    set p | p in parts && p.kind == kind
  }

  /** A settings resource with no keys leaves nothing behind in the document. */
  ghost predicate Lasting(p: Part) {
    p.kind == KSettings ==> p.body != map[]
  }

  ghost function LastingParts(parts: seq<Part>): set<Part> {
    set p | p in parts && Lasting(p)
  }

  lemma SectionBack(parts: seq<Part>, doc: Body, key: string, kind: Kind)
    requires DistinctParts(parts) && kind != KSettings
    requires key in doc <==> Named(parts, kind) != map[]
    requires key in doc ==> doc[key] == Map(Named(parts, kind))
    ensures SectionOk(doc, key) && SectionParts(doc, key, kind) == OfKind(LastingParts(parts), kind)
  {
    NamedEntries(parts, kind);
    hide Named;
    forall p | p in OfKind(LastingParts(parts), kind) ensures p in SectionParts(doc, key, kind) {
      assert p.name in doc[key].entries && p == Part(kind, p.name, doc[key].entries[p.name].entries);
    }
  }

  lemma SingleBack(parts: seq<Part>, doc: Body, key: string, kind: Kind)
    requires GoodDraft(parts) && (kind == KAuth || kind == KRateLimit) && key == KeyOf(kind)
    requires TopRight(ToSet(parts), Top(parts))
    requires key in doc <==> key in Top(parts)
    requires key in doc ==> doc[key] == Top(parts)[key]
    ensures SingleOk(doc, key) && SingleParts(doc, key, kind) == OfKind(LastingParts(parts), kind)
  {
    hide Top;
    assert AUTH != RATE_LIMIT;
    if key in doc {
      assert EntryFrom(ToSet(parts), key, doc[key]);
      var p := Part(kind, SINGLETON, doc[key].entries);
      assert p in parts && Lasting(p);
    }
    forall p | p in OfKind(LastingParts(parts), kind) ensures p in SingleParts(doc, key, kind) {
      assert PartIn(Top(parts), p) && GoodPart(p);
    }
  }

  lemma EntryIsSettings(parts: seq<Part>, p: Part, k: string, v: Yaml)
    requires GoodDraft(parts) && p in parts && p.kind == KSettings
    requires k !in RESERVED && EntryFrom(ToSet(parts), k, v)
    ensures k in p.body && p.body[k] == v
  {
    assert AUTH in RESERVED && RATE_LIMIT in RESERVED && GoodPart(p);
    hide DistinctParts;
    var body :| Part(KSettings, SINGLETON, body) in ToSet(parts) && k in body && body[k] == v;
    OnlyOne(parts, p, Part(KSettings, SINGLETON, body));
  }

  lemma BodyIsIn(parts: seq<Part>, top: Body, p: Part, k: string)
    requires GoodDraft(parts) && p in parts && p.kind == KSettings && PartIn(top, p) && k in p.body
    ensures k !in RESERVED && k in top && top[k] == p.body[k]
  {
    hide DistinctParts;
    assert GoodPart(p);
  }

  /** A settings resource of the draft is exactly what is not reserved. */
  lemma SettingsAre(parts: seq<Part>, doc: Body, p: Part)
    requires GoodDraft(parts) && p in parts && p.kind == KSettings
    requires TopRight(ToSet(parts), Top(parts))
    requires forall k :: k != UPSTREAMS && k != COMPOSITIONS ==>
               (k in doc <==> k in Top(parts)) && (k in doc ==> doc[k] == Top(parts)[k])
    ensures Settings(doc) == p.body
  {
    hide Top, GoodDraft, PartIn, EntryFrom;
    assert PartIn(Top(parts), p);
    forall k | k in p.body ensures k in Settings(doc) && Settings(doc)[k] == p.body[k] {
      BodyIsIn(parts, Top(parts), p, k);
    }
    forall k | k in Settings(doc) ensures k in p.body {
      assert EntryFrom(ToSet(parts), k, doc[k]);
      EntryIsSettings(parts, p, k, doc[k]);
    }
    hide Settings, TopRight;
  }

  lemma OnlyOne(parts: seq<Part>, p: Part, q: Part)
    requires DistinctParts(parts) && p in parts && q in parts && p.kind == q.kind && p.name == q.name
    ensures p == q
  {
    var i :| 0 <= i < |parts| && parts[i] == p;
    var j :| 0 <= j < |parts| && parts[j] == q;
    assert i == j;
  }

  /** What is not reserved comes from a settings resource, which then has keys. */
  lemma SettingsCome(parts: seq<Part>, doc: Body, k: string)
    requires GoodDraft(parts) && k in Settings(doc)
    requires TopRight(ToSet(parts), Top(parts))
    requires forall k :: k != UPSTREAMS && k != COMPOSITIONS ==>
               (k in doc <==> k in Top(parts)) && (k in doc ==> doc[k] == Top(parts)[k])
    ensures Part(KSettings, SINGLETON, Settings(doc)) in OfKind(LastingParts(parts), KSettings)
  {
    hide Top, PartIn;
    assert EntryFrom(ToSet(parts), k, doc[k]);
    var body :| Part(KSettings, SINGLETON, body) in ToSet(parts) && k in body && body[k] == doc[k];
    SettingsAre(parts, doc, Part(KSettings, SINGLETON, body));
  }

  lemma SettingsBack(parts: seq<Part>, doc: Body)
    requires GoodDraft(parts)
    requires TopRight(ToSet(parts), Top(parts))
    requires forall k :: k != UPSTREAMS && k != COMPOSITIONS ==>
               (k in doc <==> k in Top(parts)) && (k in doc ==> doc[k] == Top(parts)[k])
    ensures SettingsParts(doc) == OfKind(LastingParts(parts), KSettings)
  {
    forall p | p in OfKind(LastingParts(parts), KSettings) ensures p in SettingsParts(doc) {
      hide Top, TopRight, Settings, DistinctParts;
      SettingsAre(parts, doc, p);
      assert GoodPart(p);
    }
    forall p | p in SettingsParts(doc) ensures p in OfKind(LastingParts(parts), KSettings) {
      hide Top, TopRight, GoodDraft, OfKind, LastingParts;
      var k :| k in Settings(doc);
      SettingsCome(parts, doc, k);
    }
  }

  lemma KindsCover(parts: set<Part>)
    ensures parts == OfKind(parts, KUpstream) + OfKind(parts, KComposition) + OfKind(parts, KAuth) + OfKind(parts, KRateLimit)
                     + OfKind(parts, KSettings)
  {
    forall p | p in parts ensures p in OfKind(parts, p.kind) && p.kind in {KUpstream, KComposition, KAuth, KRateLimit, KSettings} {
    }
  }

  /**
   * Splitting an assembled draft gives back its resources, all but a settings
   * resource that holds nothing.
   */
  lemma SplitOfAssembled(parts: seq<Part>)
    requires GoodDraft(parts)
    ensures Splittable(Assembled(parts))
    ensures Parts(Assembled(parts)) == LastingParts(parts)
  {
    var doc := Assembled(parts);
    AssembledAt(parts);
    TopIsRight(parts);
    hide Assembled, Top, Named, TopRight, SectionParts, SingleParts, SectionOk, SingleOk, LastingParts, SettingsParts;
    assert AUTH != UPSTREAMS && AUTH != COMPOSITIONS && RATE_LIMIT != UPSTREAMS && RATE_LIMIT != COMPOSITIONS;
    SectionBack(parts, doc, UPSTREAMS, KUpstream);
    SectionBack(parts, doc, COMPOSITIONS, KComposition);
    SingleBack(parts, doc, AUTH, KAuth);
    SingleBack(parts, doc, RATE_LIMIT, KRateLimit);
    SettingsBack(parts, doc);
    KindsCover(LastingParts(parts));
  }

  /** So nothing is lost iff no settings resource is empty. */
  lemma SplitLosesOnlyEmptySettings(parts: seq<Part>)
    requires GoodDraft(parts)
    ensures Splittable(Assembled(parts))
    ensures Parts(Assembled(parts)) == ToSet(parts) <==> forall p :: p in parts ==> Lasting(p)
  {
    SplitOfAssembled(parts);
    hide Assembled, Parts, Lasting;
    if Parts(Assembled(parts)) == ToSet(parts) {
      forall p | p in parts ensures Lasting(p) {
        assert p in LastingParts(parts);
      }
    }
  }

  /** Where each resource of the draft stands in the document. */
  lemma DocumentHolds(parts: seq<Part>, p: Part)
    requires GoodDraft(parts) && p in parts
    ensures var doc := Assembled(parts);
            match p.kind
            case KUpstream => HoldsIn(doc, "upstreams", p)
            case KComposition => HoldsIn(doc, "compositions", p)
            case KAuth => "auth" in doc && doc["auth"] == Map(p.body)
            case KRateLimit => "rate_limit" in doc && doc["rate_limit"] == Map(p.body)
            case KSettings => forall k :: k in p.body ==> k in doc && doc[k] == p.body[k]
  {
    hide Assembled, Top, Named, TopRight, GoodDraft;
    AssembledAt(parts);
    PartAtTop(parts, p);
    NameInSection(parts, p);
    assert AUTH != UPSTREAMS && AUTH != COMPOSITIONS && RATE_LIMIT != UPSTREAMS && RATE_LIMIT != COMPOSITIONS;
  }

  lemma PartAtTop(parts: seq<Part>, p: Part)
    requires GoodDraft(parts) && p in parts
    ensures PartIn(Top(parts), p) && (p.kind == KSettings ==> p.body.Keys !! RESERVED)
  {
    TopIsRight(parts);
    hide Top, PartIn;
    assert p in ToSet(parts) && GoodPart(p);
  }

  lemma NameInSection(parts: seq<Part>, p: Part)
    requires GoodDraft(parts) && p in parts
    ensures p.name in Named(parts, p.kind) && Named(parts, p.kind)[p.name] == Map(p.body)
  {
    NamedEntries(parts, p.kind);
  }

  predicate HoldsIn(doc: Body, section: string, p: Part) {
    section in doc && doc[section].Map? && p.name in doc[section].entries && doc[section].entries[p.name] == Map(p.body)
  }

  // ----- Assembling what was split -----

  /** A document without the sections that hold nothing. */
  function Trimmed(doc: Body): Body {
    map k | k in doc && !((k == UPSTREAMS || k == COMPOSITIONS) && doc[k] == Map(map[])) :: doc[k]
  }

  lemma PartsByKind(doc: Body)
    requires Splittable(doc)
    ensures OfKind(Parts(doc), KUpstream) == SectionParts(doc, UPSTREAMS, KUpstream)
    ensures OfKind(Parts(doc), KComposition) == SectionParts(doc, COMPOSITIONS, KComposition)
    ensures OfKind(Parts(doc), KAuth) == SingleParts(doc, AUTH, KAuth)
    ensures OfKind(Parts(doc), KRateLimit) == SingleParts(doc, RATE_LIMIT, KRateLimit)
    ensures OfKind(Parts(doc), KSettings) == SettingsParts(doc)
  {
    hide SectionOk, SingleOk, Settings;
    SectionKind(doc, UPSTREAMS, KUpstream);
    SectionKind(doc, COMPOSITIONS, KComposition);
    hide SectionParts;
  }

  lemma SectionKind(doc: Body, key: string, kind: Kind)
    requires SectionOk(doc, key)
    ensures forall p :: p in SectionParts(doc, key, kind) ==> p.kind == kind
  {
  }

  lemma NamedOfSplit(doc: Body, out: seq<Part>, key: string, kind: Kind)
    requires DistinctParts(out) && SectionOk(doc, key) && OfKind(ToSet(out), kind) == SectionParts(doc, key, kind)
    ensures Named(out, kind) == if key in doc then doc[key].entries else map[]
  {
    NamedEntries(out, kind);
    hide Named;
    var items: Body := if key in doc then doc[key].entries else map[];
    forall n | n in items ensures n in Named(out, kind) && Named(out, kind)[n] == items[n] {
      assert Part(kind, n, items[n].entries) in OfKind(ToSet(out), kind);
    }
    forall n | n in Named(out, kind) ensures n in items {
      assert Part(kind, n, Named(out, kind)[n].entries) in OfKind(ToSet(out), kind);
    }
  }

  lemma SplitIsGood(doc: Body, out: seq<Part>)
    requires Splittable(doc) && DistinctParts(out) && ToSet(out) == Parts(doc)
    ensures GoodDraft(out)
  {
    PartsByKind(doc);
    hide Parts, Splittable, SectionOk, SingleOk;
    forall p | p in out ensures GoodPart(p) {
      assert p in OfKind(Parts(doc), p.kind);
    }
  }

  /** Top-level keys other than the sections come back as they were. */
  lemma TopOfSplit(doc: Body, out: seq<Part>, k: string)
    requires Splittable(doc) && GoodDraft(out) && ToSet(out) == Parts(doc) && k != UPSTREAMS && k != COMPOSITIONS
    requires TopRight(ToSet(out), Top(out))
    ensures k in doc <==> k in Top(out)
    ensures k in doc ==> doc[k] == Top(out)[k]
  {
    hide Top, Parts;
    PartsByKind(doc);
    var top := Top(out);
    if k in doc {
      var p := if k == AUTH then Part(KAuth, SINGLETON, doc[AUTH].entries)
               else if k == RATE_LIMIT then Part(KRateLimit, SINGLETON, doc[RATE_LIMIT].entries)
               else Part(KSettings, SINGLETON, Settings(doc));
      assert k !in RESERVED ==> k in Settings(doc);
      assert p in OfKind(Parts(doc), p.kind);
      assert PartIn(top, p);
    }
    if k in top {
      assert EntryFrom(ToSet(out), k, top[k]);
      EntryOfSplit(doc, k, top[k]);
    }
  }

  lemma EntryOfSplit(doc: Body, k: string, v: Yaml)
    requires Splittable(doc) && EntryFrom(Parts(doc), k, v)
    ensures k in doc
  {
    PartsByKind(doc);
    hide Parts;
    if k == AUTH {
      assert Part(KAuth, SINGLETON, v.entries) in OfKind(Parts(doc), KAuth);
    } else if k == RATE_LIMIT {
      assert Part(KRateLimit, SINGLETON, v.entries) in OfKind(Parts(doc), KRateLimit);
    } else {
      var body :| Part(KSettings, SINGLETON, body) in Parts(doc) && k in body && body[k] == v;
      assert Part(KSettings, SINGLETON, body) in OfKind(Parts(doc), KSettings);
    }
  }

  /** Two documents that agree off the sections, and on the sections but for empty ones. */
  lemma SameButEmpty(a: Body, doc: Body, upstreams: Body, compositions: Body)
    requires UPSTREAMS in a <==> upstreams != map[]
    requires UPSTREAMS in a ==> a[UPSTREAMS] == Map(upstreams)
    requires COMPOSITIONS in a <==> compositions != map[]
    requires COMPOSITIONS in a ==> a[COMPOSITIONS] == Map(compositions)
    requires UPSTREAMS in doc ==> doc[UPSTREAMS] == Map(upstreams)
    requires UPSTREAMS !in doc ==> upstreams == map[]
    requires COMPOSITIONS in doc ==> doc[COMPOSITIONS] == Map(compositions)
    requires COMPOSITIONS !in doc ==> compositions == map[]
    requires forall k :: k != UPSTREAMS && k != COMPOSITIONS ==> (k in doc <==> k in a) && (k in doc ==> doc[k] == a[k])
    ensures a == Trimmed(doc)
  {
  }

  /**
   * Assembling the resources of a document, in any order, gives the document
   * back, without upstreams and compositions sections that hold nothing.
   */
  lemma AssembledOfSplit(doc: Body, out: seq<Part>)
    requires Splittable(doc) && DistinctParts(out) && ToSet(out) == Parts(doc)
    ensures Assembled(out) == Trimmed(doc)
  {
    SplitIsGood(doc, out);
    AssembledAt(out);
    TopIsRight(out);
    PartsByKind(doc);
    hide Assembled, Top, Named, Parts, TopRight, SectionParts, SingleParts, SettingsParts, GoodDraft, DistinctParts, OfKind, Trimmed;
    NamedOfSplit(doc, out, UPSTREAMS, KUpstream);
    NamedOfSplit(doc, out, COMPOSITIONS, KComposition);
    forall k | k != UPSTREAMS && k != COMPOSITIONS
      ensures (k in doc <==> k in Assembled(out)) && (k in doc ==> doc[k] == Assembled(out)[k])
    {
      TopOfSplit(doc, out, k);
    }
    SameButEmpty(Assembled(out), doc, Named(out, KUpstream), Named(out, KComposition));
  }
}
