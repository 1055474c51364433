/** The bodies of an operation's template: the loop over content types in `operationTemplates`
    (`internal/openapi/template.go`).

    How a value is marshalled is given here; `Rendering` says what JSON and forms are. */
module RequestBodies {
  import opened Wrappers
  import opened Placeholders
  import opened Substitution
  import opened Templates
  import opened Schemas
  import opened SchemaValues
  import opened SchemaCompiler

  /** A media type; its schema may be nil. */
  datatype Content = Content(contentType: string, schema: Option<Schema>)

  function StringsOf(c: Content): nat { if c.schema.Some? then Strings(c.schema.value) else 0 }

  /** How many placeholders are drawn for the content types: an XML body is compiled twice. */
  function ContentMinted(c: Content): nat {
    if c.schema.None? then 0 else (if c.contentType == XML_CONTENT then 2 else 1) * Minted(c.schema.value)
  }

  function BodiesMinted(cs: seq<Content>): nat {
    if cs == [] then 0 else BodiesMinted(cs[..|cs| - 1]) + ContentMinted(cs[|cs| - 1])
  }

  lemma {:induction false} PrefixMinted(cs: seq<Content>, i: nat)
    requires i <= |cs|
    ensures BodiesMinted(cs[..i]) <= BodiesMinted(cs)
    ensures i < |cs| ==> BodiesMinted(cs[..i + 1]) == BodiesMinted(cs[..i]) + ContentMinted(cs[i])
    decreases |cs| - i
  {
    if i < |cs| {
      assert cs[..i + 1][..i] == cs[..i];
      PrefixMinted(cs, i + 1);
    } else {
      assert cs[..i] == cs;
    }
  }

  /** The placeholders a content type with strings supports. */
  function ContentPlaceholders(contentType: string): set<string> {
    if contentType == JSON_CONTENT then {JSON_REQUEST, JSON_BODY}
    else if contentType == XML_CONTENT then {XML_BODY}
    else if contentType == FORM_CONTENT then {HTML_FORM}
    else {REQUEST_BODY}
  }

  /** The content types with a body of their own; all others share the plain one. */
  predicate Marshalled(contentType: string) { contentType in {JSON_CONTENT, XML_CONTENT, FORM_CONTENT} }

  function BodyPlaceholders(cs: seq<Content>): set<string> {
    if cs == [] then {}
    else
      var c := cs[|cs| - 1];
      BodyPlaceholders(cs[..|cs| - 1]) + if StringsOf(c) > 0 then ContentPlaceholders(c.contentType) else {}
  }

  datatype Bodies = Bodies(body: map<string, string>, params: Params, placeholders: set<string>)

  datatype Built<T> = Built(value: T) | BuildError | BuildCrash

  /** How a value is rendered in a content type, if it can be. */
  type Marshal = (string, Value) -> Option<string>

  /** The text renders a value of the schema, with these parameters for its placeholders. */
  ghost predicate RenderOf(text: string, c: Content, ps: Params, marshal: Marshal) {
    exists v :: ValueOf(v, c, ps) && marshal(c.contentType, v) == Some(text)
  }

  /** A value that the schema of a content type may compile to. */
  ghost predicate ValueOf(v: Value, c: Content, ps: Params) {
    c.schema.Some? && IsValue(v, c.schema.value, c.contentType == XML_CONTENT, "", ps)
  }

  ghost predicate Rendered(text: string, contentType: string, cs: seq<Content>, ps: Params, marshal: Marshal) {
    exists i | 0 <= i < |cs| :: cs[i].contentType == contentType && RenderOf(text, cs[i], ps, marshal)
  }

  ghost predicate Limited(spec: ParamSpec, cs: seq<Content>) {
    exists i | 0 <= i < |cs| && cs[i].schema.Some? :: LeafOf(cs[i].schema.value, spec)
  }

  /** What the bodies of an operation promise: every parameter is a minted word with the limits of
      a string in a schema; every placeholder has a body, the body of a content type renders its
      schema with those words in its holes, and the plain body is itself one of them. */
  ghost predicate BodiesFit(b: Bodies, cs: seq<Content>, marshal: Marshal) {
    && b.placeholders == BodyPlaceholders(cs)
    && (forall k | k in b.params :: IsWord(k, 16) && b.params[k].paramType == "string" && Limited(b.params[k], cs))
    && (forall p | p in b.placeholders :: ContentTypeOf(p) in b.body)
    && (forall ct | ct in b.body && Marshalled(ct) :: Rendered(b.body[ct], ct, cs, b.params, marshal))
    && (PLAIN_CONTENT in b.body ==> b.body[PLAIN_CONTENT] in b.params)
  }

  lemma RenderedMore(text: string, contentType: string, cs: seq<Content>, c: Content, ps: Params, more: Params,
                     marshal: Marshal)
    requires Rendered(text, contentType, cs, ps, marshal) && Kept(ps, more)
    ensures Rendered(text, contentType, cs + [c], more, marshal)
  {
    var i :| 0 <= i < |cs| && cs[i].contentType == contentType && RenderOf(text, cs[i], ps, marshal);
    RenderKept(text, cs[i], ps, more, marshal);
    hide RenderOf;
    assert (cs + [c])[i] == cs[i];
  }

  lemma RenderedLast(text: string, cs: seq<Content>, c: Content, ps: Params, more: Params, marshal: Marshal)
    requires RenderOf(text, c, ps, marshal) && Kept(ps, more)
    ensures Rendered(text, c.contentType, cs + [c], more, marshal)
  {
    RenderKept(text, c, ps, more, marshal);
    hide RenderOf;
    assert (cs + [c])[|cs|] == c;
  }

  lemma RenderKept(text: string, c: Content, ps: Params, more: Params, marshal: Marshal)
    requires RenderOf(text, c, ps, marshal) && Kept(ps, more)
    ensures RenderOf(text, c, more, marshal)
  {
    var v :| ValueOf(v, c, ps) && marshal(c.contentType, v) == Some(text);
    ValueKept(v, c.schema.value, c.contentType == XML_CONTENT, "", ps, more);
    hide IsValue, Kept;
    assert ValueOf(v, c, more);
  }

  lemma LimitedMore(spec: ParamSpec, cs: seq<Content>, c: Content)
    requires Limited(spec, cs) || (c.schema.Some? && LeafOf(c.schema.value, spec))
    ensures Limited(spec, cs + [c])
  {
    if Limited(spec, cs) {
      var i :| 0 <= i < |cs| && cs[i].schema.Some? && LeafOf(cs[i].schema.value, spec);
      assert LeafOf((cs + [c])[i].schema.value, spec);
    } else {
      assert LeafOf((cs + [c])[|cs|].schema.value, spec);
    }
  }

  /** What a compiled content type brings to the bodies. */
  ghost predicate Brings(r: Outcome, c: Content) {
    && r.Compiled? && ValueOf(r.value, c, r.paramSpec) && Leaves(r.paramSpec, c.schema.value)
    && (forall k | k in r.paramSpec :: IsWord(k, 16) && r.paramSpec[k].paramType == "string")
    && (r.strAvailable <==> StringsOf(c) > 0)
    && (r.strAvailable <==> exists k :: k in r.paramSpec)
  }

  lemma SoundBrings(r: Outcome, c: Content, names: seq<string>, n: nat, m: nat)
    requires Fresh(names) && c.schema.Some? && Sound(r, names, n, m, Strings(c.schema.value))
    requires Shaped(r, c.schema.value, c.contentType == XML_CONTENT, "")
    ensures Brings(r, c)
  {
    forall k | k in r.paramSpec ensures IsWord(k, 16) {
      var i :| n <= i < m && i < |names| && names[i] == k;
    }
    if r.strAvailable {
      assert r.paramSpec.Keys != {};
    }
    hide IsValue, Leaves, HoleKeys;
  }

  // How building ends.

  /** An XML body is compiled twice, as JSON first; a media type without a schema is a nil
      dereference. */
  function ContentFate(c: Content): Fate {
    if c.schema.None? then Panicking
    else if c.contentType == XML_CONTENT && FateOf(c.schema.value, false).Good? then FateOf(c.schema.value, true)
    else FateOf(c.schema.value, false)
  }

  /** The content type compiles and some value of its schema is marshalled. */
  ghost predicate MayPass(c: Content, marshal: Marshal) {
    && ContentFate(c).Good?
    && (Marshalled(c.contentType) ==> exists v, ps :: ValueOf(v, c, ps) && marshal(c.contentType, v).Some?)
  }

  /** The content type does not compile, or some value of its schema is not marshalled. */
  ghost predicate MayFail(c: Content, marshal: Marshal) {
    || ContentFate(c).Failing?
    || (ContentFate(c).Good? && Marshalled(c.contentType)
        && exists v, ps :: ValueOf(v, c, ps) && marshal(c.contentType, v).None?)
  }

  /** How building bodies may end: with all of them, or at the first content type that fails or
      panics. */
  ghost predicate MayEnd(f: Fate, cs: seq<Content>, marshal: Marshal) {
    match f
    case Good => forall i | 0 <= i < |cs| :: MayPass(cs[i], marshal)
    case Failing => exists i :: 0 <= i < |cs| && MayFail(cs[i], marshal) && AllPass(cs[..i], marshal)
    case Panicking => exists i :: 0 <= i < |cs| && ContentFate(cs[i]).Panicking? && AllPass(cs[..i], marshal)
  }

  ghost predicate AllPass(cs: seq<Content>, marshal: Marshal) {
    forall i | 0 <= i < |cs| :: MayPass(cs[i], marshal)
  }

  function EndOf<T>(r: Built<T>): Fate {
    match r
    case Built(_) => Good
    case BuildError => Failing
    case BuildCrash => Panicking
  }

  function Stopped<T>(r: Outcome): Built<T> { if r.Crash? then BuildCrash else BuildError }

  /** The loop over the content types of a request body. */
  method BuildBodies(cs: seq<Content>, marshal: Marshal, names: seq<string>, n: nat) returns (r: Built<Bodies>, m: nat)
    requires Fresh(names) && n + BodiesMinted(cs) <= |names|
    ensures MayEnd(EndOf(r), cs, marshal)
    ensures r.Built? ==> BodiesFit(r.value, cs, marshal)
    ensures r.Built? ==> m == n + BodiesMinted(cs) && Specs(r.value.params, names, n, m)
  {
    hide *;
    NoBodies(marshal, names, n);
    var b := Bodies(map[], map[], {});
    m := n;
    for i := 0 to |cs|
      invariant BodiesFit(b, cs[..i], marshal) && AllPass(cs[..i], marshal)
      invariant m == n + BodiesMinted(cs[..i]) && Specs(b.params, names, n, m)
    {
      var c := cs[i];
      PrefixMinted(cs, i);
      PrefixMinted(cs, i + 1);
      var r0, l := CompileContent(c, names, m);
      if !r0.Compiled? {
        r := Stopped(r0);
        m := l;
        StopsHere(r0, r, cs, i, marshal);
        return;
      }
      NewParams(b.params, r0.paramSpec, names, n, m, l);
      m := l;
      var text := "";
      if Marshalled(c.contentType) {
        var marshalled := marshal(c.contentType, r0.value);
        if marshalled.None? {
          r := BuildError;
          MarshalFails(r0, r, cs, i, marshal);
          return;
        }
        text := marshalled.value;
      }
      Passes(r0, text, cs, i, marshal);
      b := AddContent(b, cs[..i], c, r0, text, marshal);
    }
    AllPassed(cs, marshal);
    r := Built(b);
    EndsGood(r);
  }

  /** The schema of a content type, compiled once more for XML. */
  method CompileContent(c: Content, names: seq<string>, n: nat) returns (r: Outcome, m: nat)
    requires Fresh(names) && n + ContentMinted(c) <= |names|
    ensures Ending(r) == ContentFate(c)
    ensures r.Compiled? ==> Brings(r, c) && m == n + ContentMinted(c) && Specs(r.paramSpec, names, n, m)
  {
    hide Sound, Shaped, Brings, FateOf, Specs, Fresh, Minted;
    if c.schema.None? {
      return Crash, n;
    }
    ghost var from := n;
    r, m := SchemaToMap("", c.schema.value, false, names, n);
    if r.Compiled? && c.contentType == XML_CONTENT {
      SoundSpecs(r, names, n, m, Strings(c.schema.value));
      from := m;
      r, m := SchemaToMap("", c.schema.value, true, names, m);
    }
    if r.Compiled? {
      SoundBrings(r, c, names, from, m);
      SoundSpecs(r, names, from, m, Strings(c.schema.value));
      SpecsWiden(r.paramSpec, names, from, m, n, m);
    }
  }

  lemma SoundSpecs(r: Outcome, names: seq<string>, n: nat, m: nat, count: nat)
    requires Sound(r, names, n, m, count)
    ensures n <= m && Specs(r.paramSpec, names, n, m)
  {
  }

  /** Parameters minted later are other parameters. */
  lemma NewParams(a: Params, b: Params, names: seq<string>, n: nat, m: nat, l: nat)
    requires Fresh(names) && Specs(a, names, n, m) && Specs(b, names, m, l) && n <= m <= l
    ensures Kept(a, a + b) && Kept(b, a + b) && Specs(a + b, names, n, l)
  {
    MintedApart(a, b, names, n, m, l);
    SpecsMerge(a, b, names, n, m, l);
    UnionKeeps(a, b);
  }

  lemma StopsHere(r0: Outcome, r: Built<Bodies>, cs: seq<Content>, i: nat, marshal: Marshal)
    requires i < |cs| && AllPass(cs[..i], marshal) && Ending(r0) == ContentFate(cs[i]) && !r0.Compiled?
    requires r == Stopped(r0)
    ensures !r.Built? && MayEnd(EndOf(r), cs, marshal)
  {
    hide ContentFate, MayPass;
  }

  lemma MarshalFails(r0: Outcome, r: Built<Bodies>, cs: seq<Content>, i: nat, marshal: Marshal)
    requires i < |cs| && AllPass(cs[..i], marshal) && Ending(r0) == ContentFate(cs[i]) && Brings(r0, cs[i])
    requires Marshalled(cs[i].contentType) && marshal(cs[i].contentType, r0.value).None? && r == BuildError
    ensures MayEnd(EndOf(r), cs, marshal)
  {
    hide ContentFate, MayPass, ValueOf;
  }

  lemma Passes(r0: Outcome, text: string, cs: seq<Content>, i: nat, marshal: Marshal)
    requires i < |cs| && AllPass(cs[..i], marshal) && Ending(r0) == ContentFate(cs[i]) && Brings(r0, cs[i])
    requires Marshalled(cs[i].contentType) ==> marshal(cs[i].contentType, r0.value) == Some(text)
    ensures AllPass(cs[..i + 1], marshal) && cs[..i + 1] == cs[..i] + [cs[i]]
  {
    hide ContentFate, ValueOf;
    assert MayPass(cs[i], marshal);
    assert forall j | 0 <= j < i :: cs[..i][j] == cs[j];
  }

  lemma AllPassed(cs: seq<Content>, marshal: Marshal)
    ensures cs[..|cs|] == cs && (AllPass(cs, marshal) ==> MayEnd(Good, cs, marshal))
  {
    hide MayPass;
    assert cs[..|cs|] == cs;
  }

  lemma EndsGood(r: Built<Bodies>)
    ensures r.Built? ==> EndOf(r) == Good
  {
  }

  lemma NoBodies(marshal: Marshal, names: seq<string>, n: nat)
    ensures BodiesFit(Bodies(map[], map[], {}), [], marshal) && AllPass([], marshal) && Specs(map[], names, n, n)
    ensures BodiesMinted([]) == 0
  {
  }

  lemma PlaceholdersHaveBody(contentType: string)
    ensures forall p | p in ContentPlaceholders(contentType) ::
      ContentTypeOf(p) == if Marshalled(contentType) then contentType else PLAIN_CONTENT
    ensures !Marshalled(PLAIN_CONTENT)
  {
  }

  /** One content type, compiled and marshalled. */
  method AddContent(b: Bodies, ghost cs: seq<Content>, c: Content, r: Outcome, text: string, ghost marshal: Marshal)
    returns (b': Bodies)
    requires BodiesFit(b, cs, marshal) && Brings(r, c)
    requires Marshalled(c.contentType) ==> marshal(c.contentType, r.value) == Some(text)
    requires Kept(b.params, b.params + r.paramSpec) && Kept(r.paramSpec, b.params + r.paramSpec)
    ensures BodiesFit(b', cs + [c], marshal) && b'.params == b.params + r.paramSpec
  {
    hide IsWord, Strings, ContentPlaceholders, ContentTypeOf, Marshalled, Rendered, Limited, ValueOf, LeafOf, Kept;
    PlaceholdersHaveBody(c.contentType);
    var body := b.body;
    if Marshalled(c.contentType) {
      body := body[c.contentType := text];
    } else if r.strAvailable {
      var k :| k in r.paramSpec;
      body := body[PLAIN_CONTENT := k];
    }
    b' := Bodies(body, b.params + r.paramSpec,
                 b.placeholders + if r.strAvailable then ContentPlaceholders(c.contentType) else {});
    assert (cs + [c])[..|cs|] == cs;
    forall k | k in b'.params ensures Limited(b'.params[k], cs + [c]) {
      LimitedMore(b'.params[k], cs, c);
    }
    forall ct | ct in body && Marshalled(ct) ensures Rendered(body[ct], ct, cs + [c], b'.params, marshal) {
      BodyRendered(b, cs, c, r, text, ct, body, b'.params, marshal);
    }
  }

  lemma BodyRendered(b: Bodies, cs: seq<Content>, c: Content, r: Outcome, text: string, ct: string,
                     body: map<string, string>, more: Params, marshal: Marshal)
    requires BodiesFit(b, cs, marshal) && Brings(r, c) && Marshalled(ct) && ct in body
    requires Marshalled(c.contentType) ==> marshal(c.contentType, r.value) == Some(text)
    requires Marshalled(c.contentType) ==> body == b.body[c.contentType := text]
    requires !Marshalled(c.contentType) ==> ct in b.body && body[ct] == b.body[ct]
    requires Kept(b.params, more) && Kept(r.paramSpec, more)
    ensures Rendered(body[ct], ct, cs + [c], more, marshal)
  {
    hide IsWord, ValueOf, Leaves, Limited, Kept;
    if Marshalled(c.contentType) && ct == c.contentType {
      assert RenderOf(text, c, r.paramSpec, marshal);
      RenderedLast(text, cs, c, r.paramSpec, more, marshal);
    } else {
      RenderedMore(b.body[ct], ct, cs, c, b.params, more, marshal);
    }
  }

  lemma FitPlaceholders(b: Bodies, cs: seq<Content>, marshal: Marshal)
    requires BodiesFit(b, cs, marshal)
    ensures b == Bodies(b.body, b.params, BodyPlaceholders(cs))
  {
  }

  lemma {:induction false} BodyPlaceholdersKnown(cs: seq<Content>)
    ensures BodyPlaceholders(cs) <= {HTML_FORM, JSON_BODY, JSON_REQUEST, XML_BODY, REQUEST_BODY}
    ensures JSON_BODY in BodyPlaceholders(cs) <==>
      exists c :: c in cs && c.contentType == JSON_CONTENT && StringsOf(c) > 0
    ensures JSON_BODY in BodyPlaceholders(cs) <==> JSON_REQUEST in BodyPlaceholders(cs)
    ensures {URL_PATH, URL_PARAM, HEADER} !! BodyPlaceholders(cs)
  {
    if cs != [] {
      BodyPlaceholdersKnown(cs[..|cs| - 1]);
      assert cs == cs[..|cs| - 1] + [cs[|cs| - 1]];
    }
  }

  /** A content type of this name compiles with a string. */
  ghost predicate HasStrings(cs: seq<Content>, contentType: string) {
    exists c :: c in cs && c.contentType == contentType && StringsOf(c) > 0
  }

  ghost predicate HasOtherStrings(cs: seq<Content>) {
    exists c :: c in cs && StringsOf(c) > 0
      && c.contentType !in {"application/json", "application/xml", "application/x-www-form-urlencoded"}
  }

  /** Which placeholders the bodies serve: those of each content type that has a string. */
  lemma {:induction false} BodyPlaceholdersMeaning(cs: seq<Content>, p: string)
    ensures p in BodyPlaceholders(cs) <==>
      || (p in {"JSONBody", "JSONRequest"} && HasStrings(cs, "application/json"))
      || (p == "XMLBody" && HasStrings(cs, "application/xml"))
      || (p == "HTMLForm" && HasStrings(cs, "application/x-www-form-urlencoded"))
      || (p == "RequestBody" && HasOtherStrings(cs))
  {
    if cs != [] {
      var n := |cs| - 1;
      BodyPlaceholdersMeaning(cs[..n], p);
      assert cs == cs[..n] + [cs[n]];
      MoreStrings(cs[..n], cs[n], "application/json");
      MoreStrings(cs[..n], cs[n], "application/xml");
      MoreStrings(cs[..n], cs[n], "application/x-www-form-urlencoded");
      MoreOtherStrings(cs[..n], cs[n]);
      hide HasStrings, HasOtherStrings, StringsOf;
    }
  }

  lemma MoreStrings(cs: seq<Content>, c: Content, contentType: string)
    ensures HasStrings(cs + [c], contentType) <==>
      HasStrings(cs, contentType) || (c.contentType == contentType && StringsOf(c) > 0)
  {
    hide StringsOf;
    assert forall x :: x in cs + [c] <==> x in cs || x == c;
  }

  lemma MoreOtherStrings(cs: seq<Content>, c: Content)
    ensures HasOtherStrings(cs + [c]) <==>
      || HasOtherStrings(cs)
      || (StringsOf(c) > 0
          && c.contentType !in {"application/json", "application/xml", "application/x-www-form-urlencoded"})
  {
    hide StringsOf;
    assert forall x :: x in cs + [c] <==> x in cs || x == c;
  }

  // ----- When building succeeds -----

  /** The marshallers of the program: JSON takes every value, XML and forms take exactly the maps. */
  ghost predicate TakesMaps(marshal: Marshal) {
    forall contentType, v | Marshalled(contentType) ::
      marshal(contentType, v).Some? <==> contentType == JSON_CONTENT || v.Object?
  }

  /** The schema compiles, in both modes for XML, and to a map where one is asked for. */
  predicate Ready(c: Content) {
    ContentFate(c).Good? && (c.contentType in {XML_CONTENT, FORM_CONTENT} ==>
      YieldsMap(c.schema.value, c.contentType == XML_CONTENT))
  }

  lemma ReadyIff(c: Content, marshal: Marshal)
    requires TakesMaps(marshal)
    ensures MayPass(c, marshal) ==> Ready(c)
    ensures MayFail(c, marshal) ==> !Ready(c) && !ContentFate(c).Panicking?
    ensures ContentFate(c).Panicking? ==> !Ready(c)
  {
    hide FateOf, IsValue, YieldsMap;
    if Marshalled(c.contentType) && c.schema.Some? {
      forall v, ps | ValueOf(v, c, ps) ensures v.Object? <==> YieldsMap(c.schema.value, c.contentType == XML_CONTENT) {
        MapIff(v, c.schema.value, c.contentType == XML_CONTENT, "", ps);
      }
    }
  }

  /** The first content types are ready, and this one is not. */
  predicate FirstUnready(cs: seq<Content>, i: int) {
    0 <= i < |cs| && !Ready(cs[i]) && forall j | 0 <= j < i :: Ready(cs[j])
  }

  /** Bodies are built if and only if every content type is ready; otherwise building panics if the
      first one that is not has a schema that panics, or none, and fails if not. */
  lemma BuiltIffReady(f: Fate, cs: seq<Content>, marshal: Marshal)
    requires MayEnd(f, cs, marshal) && TakesMaps(marshal)
    ensures f.Good? <==> forall i | 0 <= i < |cs| :: Ready(cs[i])
    ensures forall i | FirstUnready(cs, i) :: f.Panicking? <==> ContentFate(cs[i]).Panicking?
    ensures !f.Good? ==> exists i :: FirstUnready(cs, i)
  {
    if !f.Good? {
      var i := FirstStop(f, cs, marshal);
      assert FirstUnready(cs, i);
    } else {
      forall i | 0 <= i < |cs| ensures Ready(cs[i]) {
        ReadyIff(cs[i], marshal);
      }
    }
  }

  lemma FirstStop(f: Fate, cs: seq<Content>, marshal: Marshal) returns (i: int)
    requires MayEnd(f, cs, marshal) && TakesMaps(marshal) && !f.Good?
    ensures FirstUnready(cs, i) && (f.Panicking? <==> ContentFate(cs[i]).Panicking?)
  {
    hide Ready, MayPass, MayFail, ContentFate, TakesMaps;
    if f.Failing? {
      i :| 0 <= i < |cs| && MayFail(cs[i], marshal) && AllPass(cs[..i], marshal);
    } else {
      i :| 0 <= i < |cs| && ContentFate(cs[i]).Panicking? && AllPass(cs[..i], marshal);
    }
    ReadyIff(cs[i], marshal);
    forall j | 0 <= j < i ensures Ready(cs[j]) {
      assert MayPass(cs[..i][j], marshal);
      ReadyIff(cs[j], marshal);
    }
  }
}
