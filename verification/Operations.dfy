/** From an OpenAPI operation to its template (`operationTemplates`, `pathTemplates` in
    `internal/openapi/template.go` and `parseParameters` in `internal/openapi/parameters.go`).

    How a single parameter is parsed and how a value is marshalled are given; the maps of
    parameters and content types are sequences in the order they happen to be walked. */
module Operations {
  import opened Wrappers
  import opened Order
  import Text
  import opened Placeholders
  import opened Substitution
  import opened Templates
  import opened Schemas
  import opened SchemaValues
  import opened SchemaCompiler
  import opened Rendering
  import opened RequestBodies
  import opened XmlStrings

  const PATH := "path"
  const QUERY := "query"
  const IN_HEADER := "header"

  /** What parsing a parameter gives: its spec, an error, or a panic. */
  datatype Parsed = Parsed(spec: ParamSpec) | Unparsable | ParsePanic

  datatype Parameter = Parameter(place: string, key: string, parsed: Parsed)

  datatype AllParameters = AllParameters(path: Params, query: Params, headers: Params, placeholders: set<string>)

  // ----- Parameters -----

  function ParameterFate(p: Parameter): Fate {
    if p.place !in {PATH, QUERY, IN_HEADER} then Failing
    else match p.parsed
      case Parsed(_) => Good
      case Unparsable => Failing
      case ParsePanic => Panicking
  }

  /** How parsing the parameters ends: as the first one that is not read. */
  function ParametersFate(ps: seq<Parameter>): Fate {
    if ps == [] then Good
    else
      var before := ParametersFate(ps[..|ps| - 1]);
      if before.Good? then ParameterFate(ps[|ps| - 1]) else before
  }

  predicate Readable(p: Parameter) { ParameterFate(p).Good? }

  predicate AllReadable(ps: seq<Parameter>) { forall i | 0 <= i < |ps| :: Readable(ps[i]) }

  lemma {:induction false} ReadableIff(ps: seq<Parameter>)
    ensures ParametersFate(ps).Good? <==> AllReadable(ps)
  {
    if ps != [] {
      var before := ps[..|ps| - 1];
      ReadableIff(before);
      assert ps == before + [ps[|ps| - 1]];
      assert forall i | 0 <= i < |before| :: before[i] == ps[i];
    }
  }

  /** Once parsing has stopped, later parameters do not matter. */
  lemma {:induction false} FateStays(ps: seq<Parameter>, n: nat)
    requires n <= |ps| && !ParametersFate(ps[..n]).Good?
    ensures ParametersFate(ps) == ParametersFate(ps[..n])
  {
    if n < |ps| {
      assert ps[..|ps| - 1][..n] == ps[..n];
      FateStays(ps[..|ps| - 1], n);
    } else {
      assert ps[..n] == ps;
    }
  }

  /** The last parameter of each key, among those in one place. */
  function Latest(ps: seq<Parameter>, place: string): Params
    requires forall i | 0 <= i < |ps| :: Readable(ps[i])
  {
    if ps == [] then map[]
    else
      var p := ps[|ps| - 1];
      assert Readable(p);
      var before := Latest(ps[..|ps| - 1], place);
      if p.place == place then before[p.key := p.parsed.spec] else before
  }

  /** The last parameter of that name in that place. */
  ghost predicate LastNamed(ps: seq<Parameter>, place: string, k: string, i: nat) {
    && i < |ps| && ps[i].place == place && ps[i].key == k && ps[i].parsed.Parsed?
    && forall j | i < j < |ps| :: ps[j].place != place || ps[j].key != k
  }

  /** A place has exactly the parameters named there, each as it was parsed last. */
  lemma {:induction false} LatestMeaning(ps: seq<Parameter>, place: string, k: string)
    requires AllReadable(ps)
    ensures k in Latest(ps, place) <==> exists i: nat :: LastNamed(ps, place, k, i)
    ensures forall i: nat | LastNamed(ps, place, k, i) :: Latest(ps, place)[k] == ps[i].parsed.spec
  {
    if ps != [] {
      var n := |ps| - 1;
      var before := ps[..n];
      assert forall i | 0 <= i < n :: before[i] == ps[i];
      LatestMeaning(before, place, k);
      assert Readable(ps[n]);
      if ps[n].place == place && ps[n].key == k {
        assert LastNamed(ps, place, k, n);
      } else {
        forall i: nat ensures LastNamed(ps, place, k, i) <==> LastNamed(before, place, k, i) {
        }
      }
    }
  }

  /** The parameter cannot be read: it is in no known place, or parsing it fails or panics. */
  predicate Bad(p: Parameter) { p.place !in {"path", "query", "header"} || !p.parsed.Parsed? }

  ghost predicate FirstBad(ps: seq<Parameter>, i: nat) {
    i < |ps| && Bad(ps[i]) && forall j | 0 <= j < i :: !Bad(ps[j])
  }

  /** Parsing succeeds if every parameter can be read; otherwise the first that cannot decides, and only one in
      a known place can panic. */
  lemma {:induction false} ParametersEnd(ps: seq<Parameter>)
    ensures ParametersFate(ps).Good? <==> forall i | 0 <= i < |ps| :: !Bad(ps[i])
    ensures forall i: nat | FirstBad(ps, i) ::
      ParametersFate(ps).Panicking? <==> ps[i].place in {"path", "query", "header"} && ps[i].parsed.ParsePanic?
  {
    if ps != [] {
      var n := |ps| - 1;
      var before := ps[..n];
      assert forall i | 0 <= i < n :: before[i] == ps[i];
      ParametersEnd(before);
      forall i: nat | FirstBad(ps, i)
        ensures ParametersFate(ps).Panicking?
          <==> ps[i].place in {"path", "query", "header"} && ps[i].parsed.ParsePanic?
      {
        if i < n {
          assert FirstBad(before, i);
        }
      }
    }
  }

  predicate IsString(p: Parameter) { p.parsed.Parsed? && p.parsed.spec.paramType == "string" }

  predicate HasString(ps: seq<Parameter>, place: string) {
    exists i | 0 <= i < |ps| :: ps[i].place == place && IsString(ps[i])
  }

  /** The placeholders that the parameters support. */
  function ParameterPlaceholders(ps: seq<Parameter>): set<string> {
    (if HasString(ps, PATH) then {URL_PATH} else {})
    + (if HasString(ps, QUERY) then {URL_PARAM} else {})
    + if HasString(ps, IN_HEADER) then {HEADER} else {}
  }

  lemma NoStrings()
    ensures forall place :: !HasString([], place)
  {
  }

  lemma HasStringAppend(ps: seq<Parameter>, p: Parameter, place: string)
    ensures HasString(ps + [p], place) <==> HasString(ps, place) || (p.place == place && IsString(p))
  {
    var all := ps + [p];
    assert all[|ps|] == p;
    assert forall i | 0 <= i < |ps| :: all[i] == ps[i];
  }

  /** The placeholder that stands for strings in a place. */
  function PlaceholderIn(place: string): string {
    if place == PATH then URL_PATH else if place == QUERY then URL_PARAM else HEADER
  }

  /** What the first parameters give. */
  function Collected(ps: seq<Parameter>): AllParameters
    requires AllReadable(ps)
  {
    AllParameters(Latest(ps, PATH), Latest(ps, QUERY), Latest(ps, IN_HEADER), ParameterPlaceholders(ps))
  }

  lemma CollectOne(before: seq<Parameter>, p: Parameter)
    requires AllReadable(before) && Readable(p)
    ensures AllReadable(before + [p]) && ParametersFate(before + [p]).Good?
    ensures forall place ::
      Latest(before + [p], place) ==
      if p.place == place then Latest(before, place)[p.key := p.parsed.spec] else Latest(before, place)
    ensures ParameterPlaceholders(before + [p]) ==
      ParameterPlaceholders(before) + if IsString(p) then {PlaceholderIn(p.place)} else {}
  {
    assert (before + [p])[..|before|] == before;
    assert forall i | 0 <= i < |before| :: (before + [p])[i] == before[i];
    ReadableIff(before + [p]);
    HasStringAppend(before, p, PATH);
    HasStringAppend(before, p, QUERY);
    HasStringAppend(before, p, IN_HEADER);
    hide HasString;
  }

  /** `parseParameters`. */
  method ParseParameters(ps: seq<Parameter>) returns (r: Built<AllParameters>)
    ensures EndOf(r) == ParametersFate(ps)
    ensures r.Built? ==> AllReadable(ps) && r.value == Collected(ps)
  {
    NoStrings();
    var a := AllParameters(map[], map[], map[], {});
    for i := 0 to |ps|
      invariant AllReadable(ps[..i]) && a == Collected(ps[..i])
    {
      var p := ps[i];
      assert ps[..i + 1] == ps[..i] + [p];
      if p.place !in {PATH, QUERY, IN_HEADER} || !p.parsed.Parsed? {
        StopAt(ps, i);
        return if p.place in {PATH, QUERY, IN_HEADER} && p.parsed.ParsePanic? then BuildCrash else BuildError;
      }
      CollectOne(ps[..i], p);
      hide AllReadable, Latest, ParameterPlaceholders, ParametersFate;
      var spec := p.parsed.spec;
      var isString := spec.paramType == "string";
      if p.place == PATH {
        a := a.(path := a.path[p.key := spec], placeholders := a.placeholders + if isString then {URL_PATH} else {});
      } else if p.place == QUERY {
        a := a.(query := a.query[p.key := spec], placeholders := a.placeholders + if isString then {URL_PARAM} else {});
      } else {
        a := a.(headers := a.headers[p.key := spec],
                placeholders := a.placeholders + if isString then {HEADER} else {});
      }
    }
    assert ps[..|ps|] == ps;
    ReadableIff(ps);
    r := Built(a);
  }

  lemma StopAt(ps: seq<Parameter>, i: nat)
    requires i < |ps| && AllReadable(ps[..i]) && !Readable(ps[i])
    ensures ParametersFate(ps) == ParameterFate(ps[i])
  {
    assert ps[..i + 1][..i] == ps[..i];
    ReadableIff(ps[..i]);
    FateStays(ps, i + 1);
  }

  // ----- Operations and paths -----

  datatype Operation = Operation(parameters: seq<Parameter>, contents: seq<Content>)

  /** How building the template of an operation may end. */
  ghost predicate OperationMayEnd(f: Fate, o: Operation, marshal: Marshal) {
    var parameters := ParametersFate(o.parameters);
    if parameters.Good? then MayEnd(f, o.contents, marshal) else f == parameters
  }

  /** `operationTemplates`. */
  method OperationTemplate(basePath: string, path: string, httpMethod: string, o: Operation, marshal: Marshal,
                           names: seq<string>, n: nat) returns (r: Built<Template>, m: nat)
    requires Fresh(names) && n + BodiesMinted(o.contents) <= |names|
    ensures OperationMayEnd(EndOf(r), o, marshal)
    ensures r.Built? ==> m == n + BodiesMinted(o.contents) && Specs(r.value.bodyParameters, names, n, m)
    ensures r.Built? ==> Serves(r.value, o, marshal) && r.value.httpMethod == httpMethod && r.value.path == path
    ensures r.Built? ==> r.value.url == Text.TrimSuffix(basePath, "/") + path
  {
    hide MayEnd, BodiesFit, Specs;
    m := n;
    var a := ParseParameters(o.parameters);
    if !a.Built? {
      return if a.BuildCrash? then BuildCrash else BuildError, m;
    }
    var b;
    b, m := BuildBodies(o.contents, marshal, names, n);
    match b
    case BuildError => r := BuildError;
    case BuildCrash => r := BuildCrash;
    case Built(bodies) =>
      FitPlaceholders(bodies, o.contents, marshal);
      var url := Text.TrimSuffix(basePath, "/") + path;
      r := Built(Template(httpMethod, path, url, a.value.path, a.value.query, a.value.headers, bodies.params,
                          bodies.body, a.value.placeholders + bodies.placeholders));
  }

  /** A template serves a placeholder exactly when the operation has a string where it goes, and its
      bodies render the schemas. */
  ghost predicate Serves(t: Template, o: Operation, marshal: Marshal) {
    && AllReadable(o.parameters)
    && t.pathParameters == Latest(o.parameters, PATH) && t.queryParameters == Latest(o.parameters, QUERY)
    && t.headers == Latest(o.parameters, IN_HEADER)
    && t.placeholders == ParameterPlaceholders(o.parameters) + BodyPlaceholders(o.contents)
    && BodiesFit(Bodies(t.body, t.bodyParameters, BodyPlaceholders(o.contents)), o.contents, marshal)
  }

  /** Every template is indexed under known placeholders only, so a request made for a placeholder
      from the template's own index entry is never missing. */
  lemma ServesKnown(t: Template, o: Operation, marshal: Marshal)
    requires Serves(t, o, marshal)
    ensures t.placeholders <= KNOWN
    ensures "URLPath" in t.placeholders <==> TakesString(o, "path")
    ensures "Header" in t.placeholders <==> TakesString(o, "header")
    ensures "URLParam" in t.placeholders <==> TakesString(o, "query")
  {
    BodyPlaceholdersKnown(o.contents);
    StringsTaken(o, "path");
    StringsTaken(o, "header");
    StringsTaken(o, "query");
    hide BodiesFit, HasString, TakesString, BodyPlaceholders, Readable, Latest;
  }

  /** The operation takes a string in that place. */
  ghost predicate TakesString(o: Operation, place: string) {
    exists p | p in o.parameters :: p.place == place && p.parsed.Parsed? && p.parsed.spec.paramType == "string"
  }

  lemma StringsTaken(o: Operation, place: string)
    ensures HasString(o.parameters, place) <==> TakesString(o, place)
  {
    if HasString(o.parameters, place) {
      var i :| 0 <= i < |o.parameters| && o.parameters[i].place == place && IsString(o.parameters[i]);
      assert o.parameters[i] in o.parameters;
    }
  }

  /** With a plain body every request carries the payload itself, if the limits of the string that
      stands for the body admit it, and that string's placeholder otherwise: if and only if an admitted
      payload holds no other admitted placeholder, or is that placeholder. */
  lemma PlainBodyIsPayload(t: Template, o: Operation, marshal: Marshal, payload: string)
    requires Serves(t, o, marshal) && PLAIN_CONTENT in t.body
    ensures var k := t.body[PLAIN_CONTENT];
      (forall req | MadeFrom(req, t, REQUEST_BODY, payload) ::
         req.body == if Admits(t.bodyParameters[k], payload) then payload else k)
      <==> (Admits(t.bodyParameters[k], payload) ==>
              forall x | x in AdmittedKeys(t.bodyParameters, payload) && x != k ::
                Text.Contains(payload, x) ==> payload == x)
  {
    var k := t.body[PLAIN_CONTENT];
    var ps := [Piece.Hole(k)];
    PlainFits(t, o, marshal);
    OneHole(k, Same());
    OneHole(k, Payload(t, payload));
    assert ps[0] == Piece.Hole(k) && HasHole(ps, k);
    assert Payload(t, payload)(k) == if Admits(t.bodyParameters[k], payload) then payload else k;
    hide Serves, MadeFrom, Shown, Delimited;
    RenderedBody(t, REQUEST_BODY, payload, ps);
  }

  lemma PlainFits(t: Template, o: Operation, marshal: Marshal)
    requires Serves(t, o, marshal) && PLAIN_CONTENT in t.body
    ensures t.body[PLAIN_CONTENT] in t.bodyParameters && MintedParams(t.bodyParameters)
  {
    hide IsWord;
  }

  lemma OneHole(k: string, shows: Values)
    ensures var ps := [Piece.Hole(k)];
      Shown(ps, shows) == shows(k) && Delimited(ps) && forall x | HasHole(ps, x) :: x == k
  {
    var ps := [Piece.Hole(k)];
    assert Shown(ps[1..], shows) == "" && shows(k) + "" == shows(k);
  }

  datatype PathItem = PathItem(
    connect: Option<Operation>, delete: Option<Operation>, get: Option<Operation>, head: Option<Operation>,
    options: Option<Operation>, patch: Option<Operation>, post: Option<Operation>, put: Option<Operation>,
    trace: Option<Operation>)

  /** A template to be built: its method and its operation, which is dereferenced. */
  type Slot = (string, Option<Operation>)

  /** When `present` is not nil, a template is built from `used`. */
  function Listed(httpMethod: string, present: Option<Operation>, used: Option<Operation>): seq<Slot> {
    if present.Some? then [(httpMethod, used)] else []
  }

  /** How many placeholders are drawn for the templates. */
  function SlotsMinted(xs: seq<Slot>): nat {
    if xs == [] then 0
    else
      var o := xs[|xs| - 1].1;
      SlotsMinted(xs[..|xs| - 1]) + if o.Some? then BodiesMinted(o.value.contents) else 0
  }

  lemma {:induction false} SlotsAppend(xs: seq<Slot>, ys: seq<Slot>)
    ensures SlotsMinted(xs + ys) == SlotsMinted(xs) + SlotsMinted(ys)
  {
    if ys == [] {
      assert xs + ys == xs;
    } else {
      var before := ys[..|ys| - 1];
      assert (xs + ys)[..|xs + ys| - 1] == xs + before;
      SlotsAppend(xs, before);
    }
  }

  /** The body parameters of the templates were drawn from `n` to `m`, and no two templates share
      one. */
  ghost predicate DrawnApart(ts: seq<Template>, names: seq<string>, n: nat, m: nat) {
    n <= m && (forall i | 0 <= i < |ts| :: Specs(ts[i].bodyParameters, names, n, m)) && NoneShared(ts)
  }

  ghost predicate NoneShared(ts: seq<Template>) {
    forall i, j | 0 <= i < j < |ts| :: ts[i].bodyParameters.Keys !! ts[j].bodyParameters.Keys
  }

  lemma DrawnMore(a: seq<Template>, b: seq<Template>, names: seq<string>, n: nat, m: nat, l: nat)
    requires Fresh(names) && DrawnApart(a, names, n, m) && DrawnApart(b, names, m, l)
    ensures DrawnApart(a + b, names, n, l)
  {
    var all := a + b;
    forall i | 0 <= i < |all| ensures Specs(all[i].bodyParameters, names, n, l) {
      if i < |a| {
        SpecsWiden(a[i].bodyParameters, names, n, m, n, l);
      } else {
        SpecsWiden(b[i - |a|].bodyParameters, names, m, l, n, l);
      }
    }
    forall i, j | 0 <= i < j < |all| ensures all[i].bodyParameters.Keys !! all[j].bodyParameters.Keys {
      if i < |a| <= j {
        MintedApart(a[i].bodyParameters, b[j - |a|].bodyParameters, names, n, m, l);
      } else if |a| <= i {
        assert b[i - |a|].bodyParameters.Keys !! b[j - |a|].bodyParameters.Keys;
      }
    }
  }

  ghost predicate SlotMayEnd(f: Fate, x: Slot, marshal: Marshal) {
    if x.1.None? then f.Panicking? else OperationMayEnd(f, x.1.value, marshal)
  }

  /** What comes of the templates of a path: one for each slot, or the end of the first slot that
      fails or panics. */
  ghost predicate PathEnds(r: Built<seq<Template>>, xs: seq<Slot>, basePath: string, path: string, marshal: Marshal) {
    if r.Built? then
      |r.value| == |xs| && forall i | 0 <= i < |xs| :: BuiltFor(r.value[i], xs[i], basePath, path, marshal)
    else exists i :: StopsAt(EndOf(r), xs, i, marshal)
  }

  ghost predicate BuiltFor(t: Template, x: Slot, basePath: string, path: string, marshal: Marshal) {
    && SlotMayEnd(Good, x, marshal) && x.1.Some? && Serves(t, x.1.value, marshal)
    && t.httpMethod == x.0 && t.path == path && t.url == Text.TrimSuffix(basePath, "/") + path
  }

  ghost predicate StopsAt(f: Fate, xs: seq<Slot>, i: int, marshal: Marshal) {
    0 <= i < |xs| && SlotMayEnd(f, xs[i], marshal) && forall j | 0 <= j < i :: SlotMayEnd(Good, xs[j], marshal)
  }

  /** One of the nine operations of a path item, after those before it, which drew from `n` to `l`. */
  method AddOperation(before: Built<seq<Template>>, ghost xs: seq<Slot>, basePath: string, path: string,
                      httpMethod: string, present: Option<Operation>, used: Option<Operation>, marshal: Marshal,
                      names: seq<string>, ghost n: nat, l: nat) returns (r: Built<seq<Template>>, m: nat)
    requires Fresh(names) && PathEnds(before, xs, basePath, path, marshal)
    requires before.Built? ==>
      DrawnApart(before.value, names, n, l) && l + SlotsMinted(Listed(httpMethod, present, used)) <= |names|
    ensures PathEnds(r, xs + Listed(httpMethod, present, used), basePath, path, marshal)
    ensures r.Built? ==>
      before.Built? && DrawnApart(r.value, names, n, m) && m == l + SlotsMinted(Listed(httpMethod, present, used))
  {
    hide SlotMayEnd, Serves, Specs, Fresh;
    ghost var all := xs + Listed(httpMethod, present, used);
    m := l;
    if !before.Built? {
      ghost var i :| StopsAt(EndOf(before), xs, i, marshal);
      assert StopsAt(EndOf(before), all, i, marshal);
      return before, m;
    }
    if present.None? {
      assert all == xs;
      return before, m;
    }
    assert forall i | 0 <= i < |xs| :: all[i] == xs[i] && BuiltFor(before.value[i], xs[i], basePath, path, marshal);
    if used.None? {
      NilCrashes(all[|xs|], marshal);
      r := BuildCrash;
      assert StopsAt(EndOf(r), all, |xs|, marshal);
      return;
    }
    OneSlot(httpMethod, used);
    var t;
    t, m := OperationTemplate(basePath, path, httpMethod, used.value, marshal, names, l);
    SlotEnds(EndOf(t), all[|xs|], marshal);
    match t
    case BuildError =>
      r := BuildError;
      assert StopsAt(EndOf(r), all, |xs|, marshal);
    case BuildCrash =>
      r := BuildCrash;
      assert StopsAt(EndOf(r), all, |xs|, marshal);
    case Built(template) =>
      r := Built(before.value + [template]);
      DrawnMore(before.value, [template], names, n, l, m);
      assert all == xs + [(httpMethod, used)];
  }

  lemma OneSlot(httpMethod: string, used: Option<Operation>)
    ensures SlotsMinted([(httpMethod, used)]) == if used.Some? then BodiesMinted(used.value.contents) else 0
  {
    assert SlotsMinted([(httpMethod, used)][..0]) == 0;
  }

  lemma NilCrashes(x: Slot, marshal: Marshal)
    requires x.1.None?
    ensures SlotMayEnd(Panicking, x, marshal)
  {
  }

  lemma SlotEnds(f: Fate, x: Slot, marshal: Marshal)
    requires x.1.Some? && OperationMayEnd(f, x.1.value, marshal)
    ensures SlotMayEnd(f, x, marshal)
  {
    hide OperationMayEnd;
  }

  /** The operations that `pathTemplates` builds templates from, with the method given to each. */
  function PathOperations(p: PathItem): seq<Slot> { BeforeGet(p) + Gets(p) + AfterHead(p) }

  function BeforeGet(p: PathItem): seq<Slot> {
    Listed("CONNECT", p.connect, p.connect) + Listed("DELETE", p.delete, p.delete)
  }

  function Gets(p: PathItem): seq<Slot> { Listed("GET", p.get, p.get) + Listed("GET", p.head, p.get) }

  function AfterHead(p: PathItem): seq<Slot> {
    Listed("OPTIONS", p.options, p.options) + Listed("PATCH", p.patch, p.patch) + Listed("POST", p.post, p.post)
    + Listed("PUT", p.put, p.put) + Listed("TRACE", p.trace, p.trace)
  }

  lemma PathMinted(p: PathItem)
    ensures SlotsMinted(PathOperations(p)) ==
      SlotsMinted(Listed("CONNECT", p.connect, p.connect))
      + SlotsMinted(Listed("DELETE", p.delete, p.delete))
      + SlotsMinted(Listed("GET", p.get, p.get))
      + SlotsMinted(Listed("GET", p.head, p.get))
      + SlotsMinted(Listed("OPTIONS", p.options, p.options))
      + SlotsMinted(Listed("PATCH", p.patch, p.patch))
      + SlotsMinted(Listed("POST", p.post, p.post))
      + SlotsMinted(Listed("PUT", p.put, p.put))
      + SlotsMinted(Listed("TRACE", p.trace, p.trace))
  {
    hide SlotsMinted, Listed;
    SlotsAppend(BeforeGet(p) + Gets(p), AfterHead(p));
    SlotsAppend(BeforeGet(p), Gets(p));
    SlotsAppend(Listed("CONNECT", p.connect, p.connect), Listed("DELETE", p.delete, p.delete));
    SlotsAppend(Listed("GET", p.get, p.get), Listed("GET", p.head, p.get));
    var options, patch := Listed("OPTIONS", p.options, p.options), Listed("PATCH", p.patch, p.patch);
    var post, put := Listed("POST", p.post, p.post), Listed("PUT", p.put, p.put);
    SlotsAppend(options + patch + post + put, Listed("TRACE", p.trace, p.trace));
    SlotsAppend(options + patch + post, put);
    SlotsAppend(options + patch, post);
    SlotsAppend(options, patch);
  }

  /** `pathTemplates`. */
  method PathTemplates(basePath: string, path: string, p: PathItem, marshal: Marshal, names: seq<string>, n: nat)
    returns (r: Built<seq<Template>>, m: nat)
    requires Fresh(names) && n + SlotsMinted(PathOperations(p)) <= |names|
    ensures PathEnds(r, PathOperations(p), basePath, path, marshal)
    ensures r.Built? ==> m == n + SlotsMinted(PathOperations(p)) && DrawnApart(r.value, names, n, m)
  {
    r := Built([]);
    m := n;
    ghost var xs: seq<Slot> := [];
    PathMinted(p);
    hide PathEnds, Listed, DrawnApart, SlotsMinted, Fresh;
    NoOperations(basePath, path, marshal, names, n);
    r, m := AddOperation(r, xs, basePath, path, "CONNECT", p.connect, p.connect, marshal, names, n, m);
    xs := xs + Listed("CONNECT", p.connect, p.connect);
    r, m := AddOperation(r, xs, basePath, path, "DELETE", p.delete, p.delete, marshal, names, n, m);
    xs := xs + Listed("DELETE", p.delete, p.delete);
    r, m := AddOperation(r, xs, basePath, path, "GET", p.get, p.get, marshal, names, n, m);
    xs := xs + Listed("GET", p.get, p.get);
    r, m := AddOperation(r, xs, basePath, path, "GET", p.head, p.get, marshal, names, n, m);
    xs := xs + Listed("GET", p.head, p.get);
    r, m := AddOperation(r, xs, basePath, path, "OPTIONS", p.options, p.options, marshal, names, n, m);
    xs := xs + Listed("OPTIONS", p.options, p.options);
    r, m := AddOperation(r, xs, basePath, path, "PATCH", p.patch, p.patch, marshal, names, n, m);
    xs := xs + Listed("PATCH", p.patch, p.patch);
    r, m := AddOperation(r, xs, basePath, path, "POST", p.post, p.post, marshal, names, n, m);
    xs := xs + Listed("POST", p.post, p.post);
    r, m := AddOperation(r, xs, basePath, path, "PUT", p.put, p.put, marshal, names, n, m);
    xs := xs + Listed("PUT", p.put, p.put);
    r, m := AddOperation(r, xs, basePath, path, "TRACE", p.trace, p.trace, marshal, names, n, m);
    xs := xs + Listed("TRACE", p.trace, p.trace);
    assert xs == PathOperations(p);
  }

  lemma NoOperations(basePath: string, path: string, marshal: Marshal, names: seq<string>, n: nat)
    ensures PathEnds(Built([]), [], basePath, path, marshal) && DrawnApart([], names, n, n)
  {
  }

  // ----- HEAD -----

  /** A HEAD operation is never used.  Where the path has a GET operation it makes a second template
      of that one; without one it is the only nil dereference, and reached unless CONNECT or DELETE
      fails before. */
  lemma HeadBecomesGet(r: Built<seq<Template>>, basePath: string, path: string, p: PathItem, marshal: Marshal)
    requires PathEnds(r, PathOperations(p), basePath, path, marshal)
    ensures (exists x :: x in PathOperations(p) && x.1.None?) <==> p.head.Some? && p.get.None?
    ensures r.Built? ==> forall t | t in r.value :: t.httpMethod != "HEAD"
    ensures r.Built? && p.head.Some? ==> p.get.Some? && exists i :: TwoGets(r.value, i, p.get.value, marshal)
    ensures p.head.Some? && p.get.None? && r.BuildError? ==>
      || (p.connect.Some? && OperationMayEnd(Failing, p.connect.value, marshal))
      || (p.delete.Some? && OperationMayEnd(Failing, p.delete.value, marshal))
  {
    SlotsKnown(p);
    if r.Built? {
      HeadsBuilt(r.value, basePath, path, p, marshal);
    } else if p.head.Some? && p.get.None? && r.BuildError? {
      StoppedBefore(p, marshal);
    }
    hide *;
  }

  lemma HeadsBuilt(ts: seq<Template>, basePath: string, path: string, p: PathItem, marshal: Marshal)
    requires PathEnds(Built(ts), PathOperations(p), basePath, path, marshal)
    ensures forall t | t in ts :: t.httpMethod != "HEAD"
    ensures p.head.Some? ==> p.get.Some? && exists i :: TwoGets(ts, i, p.get.value, marshal)
  {
    var xs, n := PathOperations(p), |BeforeGet(p)|;
    SlotsKnown(p);
    SlotsInPlace(p);
    hide PathOperations, Gets, BeforeGet, SlotMayEnd, Serves;
    forall t | t in ts ensures t.httpMethod != "HEAD" {
      var i :| 0 <= i < |ts| && ts[i] == t;
      assert BuiltFor(ts[i], xs[i], basePath, path, marshal) && xs[i] in xs;
    }
    if p.head.Some? {
      assert BuiltFor(ts[n], xs[n], basePath, path, marshal) && xs[n].1.Some?;
      assert BuiltFor(ts[n + 1], xs[n + 1], basePath, path, marshal);
      assert TwoGets(ts, n, p.get.value, marshal);
    }
  }

  lemma SlotsInPlace(p: PathItem)
    ensures |PathOperations(p)| >= |BeforeGet(p)| + |Gets(p)| && PathOperations(p)[..|BeforeGet(p)|] == BeforeGet(p)
    ensures forall i | 0 <= i < |Gets(p)| :: PathOperations(p)[|BeforeGet(p)| + i] == Gets(p)[i]
    ensures p.head.Some? ==> PathOperations(p)[|BeforeGet(p)|] == ("GET", p.get)
    ensures p.head.Some? && p.get.Some? ==>
      |BeforeGet(p)| + 1 < |PathOperations(p)| && PathOperations(p)[|BeforeGet(p)| + 1] == ("GET", p.get)
  {
    GetSlots(p);
    hide BeforeGet, Gets, AfterHead;
  }

  lemma StoppedBefore(p: PathItem, marshal: Marshal)
    requires p.head.Some? && p.get.None? && exists i :: StopsAt(Failing, PathOperations(p), i, marshal)
    ensures (p.connect.Some? && OperationMayEnd(Failing, p.connect.value, marshal))
         || (p.delete.Some? && OperationMayEnd(Failing, p.delete.value, marshal))
  {
    var xs, n := PathOperations(p), |BeforeGet(p)|;
    SlotsInPlace(p);
    hide PathOperations, Gets, AfterHead, OperationMayEnd;
    var i :| StopsAt(Failing, xs, i, marshal);
    assert SlotMayEnd(Failing, xs[i], marshal);
    assert i < n;
    assert xs[..n][i] == BeforeGet(p)[i];
  }

  /** Two neighbouring templates of one operation, both with the method GET. */
  ghost predicate TwoGets(ts: seq<Template>, i: int, o: Operation, marshal: Marshal) {
    && 0 <= i < |ts| - 1 && ts[i].httpMethod == "GET" && ts[i + 1].httpMethod == "GET"
    && Serves(ts[i], o, marshal) && Serves(ts[i + 1], o, marshal)
  }

  lemma SlotsKnown(p: PathItem)
    ensures forall x | x in PathOperations(p) :: x.0 != "HEAD"
    ensures (exists x :: x in PathOperations(p) && x.1.None?) <==> p.head.Some? && p.get.None?
    ensures p.head.Some? ==> Gets(p) == if p.get.Some? then [("GET", p.get), ("GET", p.get)] else [("GET", None)]
  {
    OthersPresent(p);
    GetSlots(p);
    hide BeforeGet, Gets, AfterHead;
    if p.head.Some? && p.get.None? {
      assert ("GET", p.get) in PathOperations(p);
    }
  }

  lemma OthersPresent(p: PathItem)
    ensures forall x | x in BeforeGet(p) || x in AfterHead(p) :: x.0 != "HEAD" && x.1.Some?
  {
  }

  lemma GetSlots(p: PathItem)
    ensures Gets(p) ==
      (if p.get.Some? then [("GET", p.get)] else []) + if p.head.Some? then [("GET", p.get)] else []
    ensures p.head.Some? ==> Gets(p) == if p.get.Some? then [("GET", p.get), ("GET", p.get)] else [("GET", None)]
    ensures forall x | x in Gets(p) :: x == ("GET", p.get)
    ensures p.head.Some? ==> ("GET", p.get) in Gets(p)
    ensures p.head.None? && p.get.None? ==> Gets(p) == []
  {
  }

  /** A slot for each operation of the path under its own method, and for HEAD one more of GET. */
  lemma SlotsMeaning(p: PathItem, x: Slot)
    ensures x in PathOperations(p) <==>
      || (x == ("CONNECT", p.connect) && p.connect.Some?) || (x == ("DELETE", p.delete) && p.delete.Some?)
      || (x == ("GET", p.get) && (p.get.Some? || p.head.Some?))
      || (x == ("OPTIONS", p.options) && p.options.Some?) || (x == ("PATCH", p.patch) && p.patch.Some?)
      || (x == ("POST", p.post) && p.post.Some?) || (x == ("PUT", p.put) && p.put.Some?)
      || (x == ("TRACE", p.trace) && p.trace.Some?)
  {
    FirstSlots(p, x);
    GetSlots(p);
    LastSlots(p, x);
    hide BeforeGet, Gets, AfterHead;
  }

  lemma FirstSlots(p: PathItem, x: Slot)
    ensures x in BeforeGet(p) <==>
      (x == ("CONNECT", p.connect) && p.connect.Some?) || (x == ("DELETE", p.delete) && p.delete.Some?)
    ensures x in Gets(p) <==> x == ("GET", p.get) && (p.get.Some? || p.head.Some?)
  {
  }

  lemma LastSlots(p: PathItem, x: Slot)
    ensures x in AfterHead(p) <==>
      || (x == ("OPTIONS", p.options) && p.options.Some?) || (x == ("PATCH", p.patch) && p.patch.Some?)
      || (x == ("POST", p.post) && p.post.Some?) || (x == ("PUT", p.put) && p.put.Some?)
      || (x == ("TRACE", p.trace) && p.trace.Some?)
  {
  }

  /** In alphabetical order of the methods, none of which is after the last one. */
  ghost predicate UpTo(xs: seq<Slot>, last: string) {
    && (forall i, j | 0 <= i < j < |xs| :: !Less(xs[j].0, xs[i].0))
    && forall x | x in xs :: !Less(last, x.0)
  }

  lemma OneMore(xs: seq<Slot>, last: string, httpMethod: string, present: Option<Operation>, used: Option<Operation>)
    requires UpTo(xs, last) && (last == httpMethod || Less(last, httpMethod))
    ensures UpTo(xs + Listed(httpMethod, present, used), httpMethod)
  {
    LessIsTotal();
    hide Less;
  }

  /** The slots of a path come in the alphabetical order of their methods. */
  lemma SlotsInOrder(p: PathItem)
    ensures forall i, j | 0 <= i < j < |PathOperations(p)| :: !Less(PathOperations(p)[j].0, PathOperations(p)[i].0)
  {
    MethodsIncrease();
    hide Less, Listed, UpTo;
    assert UpTo([], "CONNECT") by {
      NothingUpTo("CONNECT");
    }
    var one := Listed("CONNECT", p.connect, p.connect);
    OneMore([], "CONNECT", "CONNECT", p.connect, p.connect);
    assert [] + one == one;
    OneMore(one, "CONNECT", "DELETE", p.delete, p.delete);
    var gets := BeforeGet(p) + Listed("GET", p.get, p.get);
    OneMore(BeforeGet(p), "DELETE", "GET", p.get, p.get);
    OneMore(gets, "GET", "GET", p.head, p.get);
    assert gets + Listed("GET", p.head, p.get) == BeforeGet(p) + Gets(p);
    LastInOrder(p, BeforeGet(p) + Gets(p));
    OrderOf(PathOperations(p), "TRACE");
  }

  lemma LastInOrder(p: PathItem, xs: seq<Slot>)
    requires UpTo(xs, "GET")
    ensures UpTo(xs + AfterHead(p), "TRACE")
  {
    MethodsIncrease();
    hide Less, Listed, UpTo;
    var options := xs + Listed("OPTIONS", p.options, p.options);
    var patch := options + Listed("PATCH", p.patch, p.patch);
    var post := patch + Listed("POST", p.post, p.post);
    var put := post + Listed("PUT", p.put, p.put);
    OneMore(xs, "GET", "OPTIONS", p.options, p.options);
    OneMore(options, "OPTIONS", "PATCH", p.patch, p.patch);
    OneMore(patch, "PATCH", "POST", p.post, p.post);
    OneMore(post, "POST", "PUT", p.put, p.put);
    OneMore(put, "PUT", "TRACE", p.trace, p.trace);
    assert put + Listed("TRACE", p.trace, p.trace) == xs + AfterHead(p);
  }

  lemma NothingUpTo(last: string)
    ensures UpTo([], last)
  {
  }

  lemma OrderOf(xs: seq<Slot>, last: string)
    requires UpTo(xs, last)
    ensures forall i, j | 0 <= i < j < |xs| :: !Less(xs[j].0, xs[i].0)
  {
  }

  lemma MethodsIncrease()
    ensures Less("CONNECT", "DELETE") && Less("DELETE", "GET") && Less("GET", "OPTIONS") && Less("OPTIONS", "PATCH")
    ensures Less("PATCH", "POST") && Less("POST", "PUT") && Less("PUT", "TRACE")
  {
  }

  // ----- From schema to request -----

  /** The marshallers of the program for JSON and for forms, which `Rendering` models. */
  ghost predicate WritesAs(marshal: Marshal, w: Writer) {
    && (forall v :: marshal(JSON_CONTENT, v) == Some(Json(v, Same(), Marshalling(w))))
    && (forall v | marshal(FORM_CONTENT, v).Some? && WordHoles(v) :: IsForm(marshal(FORM_CONTENT, v).value, v, w))
  }

  ghost predicate IsForm(text: string, v: Value, w: Writer) {
    v.Object? && exists order :: IsOrder(order, v.fields.Keys) && text == Form(v.fields, order, Same(), w)
  }

  /** The body of a content type was made from a value of its schema. */
  ghost predicate BodyValue(v: Value, contentType: string, i: nat, o: Operation, t: Template) {
    && i < |o.contents| && o.contents[i].contentType == contentType && ValueOf(v, o.contents[i], t.bodyParameters)
  }

  lemma BodyHasValue(t: Template, o: Operation, marshal: Marshal, contentType: string) returns (v: Value, i: nat)
    requires Serves(t, o, marshal) && Marshalled(contentType) && contentType in t.body
    ensures BodyValue(v, contentType, i, o, t) && marshal(contentType, v) == Some(t.body[contentType])
    ensures MintedParams(t.bodyParameters)
  {
    hide IsWord, ValueOf;
    assert Rendered(t.body[contentType], contentType, o.contents, t.bodyParameters, marshal);
    i :| 0 <= i < |o.contents| && o.contents[i].contentType == contentType
         && RenderOf(t.body[contentType], o.contents[i], t.bodyParameters, marshal);
    v :| ValueOf(v, o.contents[i], t.bodyParameters) && marshal(contentType, v) == Some(t.body[contentType]);
  }

  /** In place of every string of the schema such a value has a placeholder of its own, whose parameter
      has the limits of that string; and it has as many as strings are left in the schema. */
  lemma BodyValueFits(v: Value, contentType: string, i: nat, o: Operation, t: Template)
    requires BodyValue(v, contentType, i, o, t) && contentType != XML_CONTENT
    ensures HolesWithin(v, t.bodyParameters.Keys) && HolesApart(v)
    ensures Conforms(v, o.contents[i].schema.value, t.bodyParameters)
    ensures |HoleKeys(v)| == Left(o.contents[i].schema.value, {})
  {
    var s := o.contents[i].schema.value;
    ValueApart(v, s, false, "", t.bodyParameters);
    ValueConforms(v, s, "", t.bodyParameters);
    HolesLeft(v, s, "", t.bodyParameters, {});
    NothingHidden(v);
  }

  /** The value behind an XML body has its placeholders apart, as many as strings are left in XML. */
  lemma XmlValueFits(v: Value, i: nat, o: Operation, t: Template)
    requires BodyValue(v, XML_CONTENT, i, o, t)
    ensures HolesWithin(v, t.bodyParameters.Keys) && HolesApart(v)
    ensures |HoleKeys(v)| == XmlLeft(o.contents[i].schema.value, "", {})
    ensures v.Object? ==> v.fields.Keys == XmlNames(o.contents[i].schema.value, "")
  {
    var s := o.contents[i].schema.value;
    ValueApart(v, s, true, "", t.bodyParameters);
    XmlHolesLeft(v, s, "", t.bodyParameters, {});
    NothingHidden(v);
    hide HoleKeys, HolesApart, IsValue, XmlLeft, XmlNames;
  }

  /** In place of a string stands the payload exactly when the string's own limits admit it. */
  lemma StringHoldsPayload(v: Value, s: Schema, t: Template, payload: string)
    requires !Joins(s) && s.oneOf.NoRefs? && s.schemaType == "string" && Conforms(v, s, t.bodyParameters)
    ensures v.Hole? && Payload(t, payload)(v.key) ==
      if s.minLength <= |payload| <= (if s.maxLength.Some? then s.maxLength.value else MAX_UINT) then payload else v.key
  {
  }

  /** From the schema to the request: a JSON body is a value of the schema, and in every request its
      admitted strings hold the payload and nothing else differs, whatever the order of the map: if and
      only if the payload holds no admitted placeholder but that of a hole itself. */
  lemma JsonRequest(t: Template, o: Operation, marshal: Marshal, w: Writer, placeholder: string, payload: string)
    returns (v: Value, i: nat)
    requires Serves(t, o, marshal) && WritesAs(marshal, w) && JSON_CONTENT in t.body
    requires placeholder in {JSON_BODY, JSON_REQUEST}
    ensures BodyValue(v, JSON_CONTENT, i, o, t) && t.body[JSON_CONTENT] == Json(v, Same(), Marshalling(w))
    ensures Conforms(v, o.contents[i].schema.value, t.bodyParameters) && HolesApart(v)
    ensures var ps := Pieces(v, Marshalling(w), []);
      NamesFree(ps, t, payload) ==>
        (Compatible(ps, t, payload) <==>
           forall req | MadeFrom(req, t, placeholder, payload) ::
             req.body == Json(v, Payload(t, payload), Marshalling(w)))
  {
    v, i := BodyHasValue(t, o, marshal, JSON_CONTENT);
    BodyValueFits(v, JSON_CONTENT, i, o, t);
    hide Serves, BodyValue, Json, Pieces, MadeFrom, NamesFree, Compatible, Conforms, HolesApart, HoleKeys;
    if NamesFree(Pieces(v, Marshalling(w), []), t, payload) {
      JsonBodyMeaning(t, placeholder, payload, v, w);
    }
  }

  /** A request for a served JSON placeholder carries a compatible payload if a string that is left in
      the schema admits it, and does not depend on the payload if none does. */
  lemma JsonCarries(t: Template, o: Operation, marshal: Marshal, w: Writer, placeholder: string, payload: string,
                    req: Request) returns (v: Value, i: nat)
    requires Serves(t, o, marshal) && WritesAs(marshal, w) && JSON_CONTENT in t.body
    requires placeholder in {JSON_BODY, JSON_REQUEST} && MadeFrom(req, t, placeholder, payload)
    ensures BodyValue(v, JSON_CONTENT, i, o, t) && |HoleKeys(v)| == Left(o.contents[i].schema.value, {})
    ensures var ps := Pieces(v, Marshalling(w), []);
      NamesFree(ps, t, payload) && Compatible(ps, t, payload) ==> Carries(req, t, v, payload, t.body[JSON_CONTENT])
  {
    v, i := BodyHasValue(t, o, marshal, JSON_CONTENT);
    BodyValueFits(v, JSON_CONTENT, i, o, t);
    hide Serves, BodyValue, Json, Pieces, MadeFrom, NamesFree, Compatible, Conforms, HolesApart, HoleKeys, Carries;
    var ps := Pieces(v, Marshalling(w), []);
    if NamesFree(ps, t, payload) && Compatible(ps, t, payload) {
      JsonBodyCarries(t, placeholder, payload, v, w, req);
    }
  }

  /** A placeholder is served for a string that is not left in the body: an operation, its template,
      and the value that is its JSON body. */
  method ServedInVain(basePath: string, path: string, marshal: Marshal, names: seq<string>)
    returns (o: Operation, t: Template, ghost v: Value)
    requires TakesMaps(marshal) && Fresh(names) && |names| > 0
    ensures forall c | c in o.contents :: Ready(c)
    ensures Serves(t, o, marshal) && JSON_BODY in t.placeholders
    ensures BodyValue(v, JSON_CONTENT, 0, o, t) && marshal(JSON_CONTENT, v) == Some(t.body[JSON_CONTENT])
    ensures forall u, i | BodyValue(u, JSON_CONTENT, i, o, t) :: HoleKeys(u) == {}
  {
    o := Vain();
    VainContent();
    hide *;
    var r, m := OperationTemplate(basePath, path, "POST", o, marshal, names, 0);
    VainBuilt(r, marshal);
    t := r.value;
    v := VainValue(t, marshal);
  }

  function Vain(): Operation { Operation([], [Content(JSON_CONTENT, Some(Hiding()))]) }

  lemma VainContent()
    ensures var cs := Vain().contents;
      (forall c | c in cs :: Ready(c)) && BodiesMinted(cs) == 1 && JSON_BODY in BodyPlaceholders(cs)
  {
    var c := Content(JSON_CONTENT, Some(Hiding()));
    HiddenString();
    assert [c][..0] == [];
    hide Hiding, FateOf, Minted, Strings;
  }

  lemma VainBuilt(r: Built<Template>, marshal: Marshal)
    requires TakesMaps(marshal) && OperationMayEnd(EndOf(r), Vain(), marshal)
    ensures r.Built?
  {
    VainContent();
    hide Ready, TakesMaps, MayEnd, BodiesMinted, BodyPlaceholders;
    BuiltIffReady(EndOf(r), Vain().contents, marshal);
  }

  lemma VainValue(t: Template, marshal: Marshal) returns (v: Value)
    requires Serves(t, Vain(), marshal)
    ensures JSON_BODY in t.placeholders && JSON_CONTENT in t.body
    ensures BodyValue(v, JSON_CONTENT, 0, Vain(), t) && marshal(JSON_CONTENT, v) == Some(t.body[JSON_CONTENT])
    ensures forall u, i | BodyValue(u, JSON_CONTENT, i, Vain(), t) :: HoleKeys(u) == {}
  {
    var o := Vain();
    VainContent();
    HiddenString();
    hide Ready, BodiesMinted, BodyPlaceholders, Hiding, HoleKeys, Left, Conforms, HolesApart, ValueOf;
    assert ContentTypeOf(JSON_BODY) == JSON_CONTENT;
    var i;
    v, i := BodyHasValue(t, o, marshal, JSON_CONTENT);
    forall u, j | BodyValue(u, JSON_CONTENT, j, o, t) ensures HoleKeys(u) == {} {
      BodyValueFits(u, JSON_CONTENT, j, o, t);
    }
  }

  lemma {:induction false} MintedHoles(v: Value, ps: Params)
    requires HolesWithin(v, ps.Keys) && MintedParams(ps)
    ensures WordHoles(v)
    decreases v
  {
    PartsWithin(v, ps.Keys);
    match v
    case List(items) =>
      forall i | 0 <= i < |items| ensures WordHoles(items[i]) {
        MintedHoles(items[i], ps);
      }
    case Object(fields) =>
      forall k | k in fields ensures WordHoles(fields[k]) {
        MintedHoles(fields[k], ps);
      }
    case _ =>
  }

  lemma BodyHasForm(t: Template, o: Operation, marshal: Marshal, w: Writer)
    returns (v: Value, i: nat, order: seq<string>)
    requires Serves(t, o, marshal) && WritesAs(marshal, w) && FORM_CONTENT in t.body
    ensures BodyValue(v, FORM_CONTENT, i, o, t) && v.Object? && IsOrder(order, v.fields.Keys)
    ensures t.body[FORM_CONTENT] == Form(v.fields, order, Same(), w) && MintedParams(t.bodyParameters)
  {
    v, i := BodyHasValue(t, o, marshal, FORM_CONTENT);
    BodyValueFits(v, FORM_CONTENT, i, o, t);
    MintedHoles(v, t.bodyParameters);
    assert IsForm(t.body[FORM_CONTENT], v, w);
    order :| IsOrder(order, v.fields.Keys) && t.body[FORM_CONTENT] == Form(v.fields, order, Same(), w);
  }

  /** The same for a form. */
  lemma FormRequest(t: Template, o: Operation, marshal: Marshal, w: Writer, payload: string)
    returns (v: Value, i: nat, order: seq<string>)
    requires Serves(t, o, marshal) && WritesAs(marshal, w) && FORM_CONTENT in t.body
    ensures BodyValue(v, FORM_CONTENT, i, o, t) && v.Object? && IsOrder(order, v.fields.Keys)
    ensures t.body[FORM_CONTENT] == Form(v.fields, order, Same(), w)
    ensures Conforms(v, o.contents[i].schema.value, t.bodyParameters) && HolesApart(v)
    ensures var ps := FormPieces(v.fields, order, w);
      NamesFree(ps, t, payload) ==>
        (Compatible(ps, t, payload) <==>
           forall req | MadeFrom(req, t, HTML_FORM, payload) ::
             req.body == Form(v.fields, order, Payload(t, payload), w))
  {
    v, i, order := BodyHasForm(t, o, marshal, w);
    BodyValueFits(v, FORM_CONTENT, i, o, t);
    hide Serves, BodyValue, Form, FormPieces, MadeFrom, NamesFree, Compatible, Conforms, HolesApart, HoleKeys;
    if NamesFree(FormPieces(v.fields, order, w), t, payload) {
      FormBodyMeaning(t, payload, v.fields, order, w);
    }
  }

  /** The same for a form. */
  lemma FormCarries(t: Template, o: Operation, marshal: Marshal, w: Writer, payload: string, req: Request)
    returns (v: Value, i: nat, order: seq<string>)
    requires Serves(t, o, marshal) && WritesAs(marshal, w) && FORM_CONTENT in t.body
    requires MadeFrom(req, t, HTML_FORM, payload)
    ensures BodyValue(v, FORM_CONTENT, i, o, t) && |HoleKeys(v)| == Left(o.contents[i].schema.value, {})
    ensures v.Object? && IsOrder(order, v.fields.Keys)
    ensures var ps := FormPieces(v.fields, order, w);
      NamesFree(ps, t, payload) && Compatible(ps, t, payload) ==> Carries(req, t, v, payload, t.body[FORM_CONTENT])
  {
    v, i, order := BodyHasForm(t, o, marshal, w);
    BodyValueFits(v, FORM_CONTENT, i, o, t);
    hide Serves, BodyValue, Form, FormPieces, MadeFrom, NamesFree, Compatible, Conforms, HolesApart, HoleKeys, Carries;
    var ps := FormPieces(v.fields, order, w);
    if NamesFree(ps, t, payload) && Compatible(ps, t, payload) {
      FormBodyCarries(t, payload, v, order, w, req);
    }
  }

  // ----- All templates -----

  /** A template of an operation of a path. */
  ghost predicate Sourced(t: Template, paths: seq<(string, PathItem)>, marshal: Marshal) {
    exists i, x :: 0 <= i < |paths| && x in PathOperations(paths[i].1) && t.path == paths[i].0
      && x.1.Some? && t.httpMethod == x.0 && Serves(t, x.1.value, marshal)
  }

  /** Every operation has its template. */
  ghost predicate Covered(ts: seq<Template>, x: Slot, basePath: string, path: string, marshal: Marshal) {
    exists t :: t in ts && BuiltFor(t, x, basePath, path, marshal)
  }

  ghost predicate AllCovered(ts: seq<Template>, basePath: string, paths: seq<(string, PathItem)>, n: nat,
                             marshal: Marshal)
    requires n <= |paths|
  {
    forall i, x | 0 <= i < n && x in PathOperations(paths[i].1) :: Covered(ts, x, basePath, paths[i].0, marshal)
  }

  /** Exactly the templates of the list, each under every placeholder it serves and no other. */
  ghost predicate IndexedAs(index: Index, ts: seq<Template>) {
    forall p, t: Template :: p in index && t in index[p] <==> t in ts && p in t.placeholders
  }

  /** How many placeholders are drawn for the first `i` paths. */
  function PathsMinted(paths: seq<(string, PathItem)>, i: nat): nat
    requires i <= |paths|
  {
    if i == 0 then 0 else PathsMinted(paths, i - 1) + SlotsMinted(PathOperations(paths[i - 1].1))
  }

  lemma {:induction false} PathsMint(paths: seq<(string, PathItem)>, i: nat)
    requires i <= |paths|
    ensures PathsMinted(paths, i) <= PathsMinted(paths, |paths|)
    decreases |paths| - i
  {
    hide SlotsMinted, PathOperations;
    if i < |paths| {
      PathsMint(paths, i + 1);
    }
  }

  /** `NewTemplates`; the paths come in the order in which their map is walked. */
  method NewTemplates(basePath: string, paths: seq<(string, PathItem)>, marshal: Marshal, names: seq<string>)
    returns (r: Built<Index>)
    requires Fresh(names) && PathsMinted(paths, |paths|) <= |names|
    ensures r.Built? ==> exists ts ::
      && IndexedAs(r.value, ts) && AllCovered(ts, basePath, paths, |paths|, marshal) && NoneShared(ts)
      && forall t | t in ts :: Sourced(t, paths, marshal) && t.placeholders <= KNOWN
    ensures !r.Built? ==> exists i, j :: 0 <= i < |paths| && StopsAt(EndOf(r), PathOperations(paths[i].1), j, marshal)
  {
    hide PathOperations, Serves, StopsAt, Covered, SlotsMinted, Fresh, Specs;
    var unsorted: seq<Template> := [];
    var n := 0;
    for i := 0 to |paths|
      invariant (forall t | t in unsorted :: Sourced(t, paths, marshal))
        && AllCovered(unsorted, basePath, paths, i, marshal)
      invariant n == PathsMinted(paths, i) && DrawnApart(unsorted, names, 0, n)
    {
      PathsMint(paths, i + 1);
      var ts, m := PathTemplates(basePath, paths[i].0, paths[i].1, marshal, names, n);
      match ts
      case BuildError =>
        r := BuildError;
        PathStops(ts, r, basePath, paths, i, marshal);
        return;
      case BuildCrash =>
        r := BuildCrash;
        PathStops(ts, r, basePath, paths, i, marshal);
        return;
      case Built(value) =>
        PathSourced(ts, basePath, paths, i, marshal);
        MoreCovered(unsorted, ts, basePath, paths, i, marshal);
        DrawnMore(unsorted, value, names, 0, n, m);
        n := m;
        unsorted := unsorted + value;
    }
    var index := IndexTemplates(unsorted);
    AllKnown(unsorted, paths, marshal);
    forall p, t: Template ensures p in index && t in index[p] <==> t in unsorted && p in t.placeholders {
      IndexedNeverNil(index, unsorted, p, t);
    }
    assert IndexedAs(index, unsorted);
    r := Built(index);
  }

  lemma PathStops(ts: Built<seq<Template>>, r: Built<Index>, basePath: string, paths: seq<(string, PathItem)>, i: nat,
                  marshal: Marshal)
    requires i < |paths| && PathEnds(ts, PathOperations(paths[i].1), basePath, paths[i].0, marshal)
    requires !ts.Built? && EndOf(r) == EndOf(ts)
    ensures exists k, j :: 0 <= k < |paths| && StopsAt(EndOf(r), PathOperations(paths[k].1), j, marshal)
  {
    hide PathOperations, StopsAt;
    var j :| StopsAt(EndOf(ts), PathOperations(paths[i].1), j, marshal);
    assert StopsAt(EndOf(r), PathOperations(paths[i].1), j, marshal);
  }

  lemma MoreCovered(before: seq<Template>, ts: Built<seq<Template>>, basePath: string, paths: seq<(string, PathItem)>,
                    i: nat, marshal: Marshal)
    requires i < |paths| && AllCovered(before, basePath, paths, i, marshal)
    requires ts.Built? && PathEnds(ts, PathOperations(paths[i].1), basePath, paths[i].0, marshal)
    ensures AllCovered(before + ts.value, basePath, paths, i + 1, marshal)
  {
    hide PathOperations, BuiltFor;
    forall k, x | 0 <= k < i + 1 && x in PathOperations(paths[k].1)
      ensures Covered(before + ts.value, x, basePath, paths[k].0, marshal)
    {
      if k < i {
        var t :| t in before && BuiltFor(t, x, basePath, paths[k].0, marshal);
        assert t in before + ts.value;
      } else {
        var xs := PathOperations(paths[i].1);
        var j :| 0 <= j < |xs| && xs[j] == x;
        assert ts.value[j] in before + ts.value;
      }
    }
  }

  lemma PathSourced(ts: Built<seq<Template>>, basePath: string, paths: seq<(string, PathItem)>, i: nat,
                    marshal: Marshal)
    requires i < |paths| && ts.Built? && PathEnds(ts, PathOperations(paths[i].1), basePath, paths[i].0, marshal)
    ensures forall t | t in ts.value :: Sourced(t, paths, marshal)
  {
    hide PathOperations, Serves;
    var xs := PathOperations(paths[i].1);
    forall t | t in ts.value ensures Sourced(t, paths, marshal) {
      var j :| 0 <= j < |xs| && ts.value[j] == t;
      assert BuiltFor(t, xs[j], basePath, paths[i].0, marshal);
      assert xs[j] in PathOperations(paths[i].1);
    }
  }

  lemma AllKnown(ts: seq<Template>, paths: seq<(string, PathItem)>, marshal: Marshal)
    requires forall t | t in ts :: Sourced(t, paths, marshal)
    ensures forall t | t in ts :: t.placeholders <= KNOWN
  {
    hide PathOperations, Serves;
    forall t | t in ts ensures t.placeholders <= KNOWN {
      var i, x :| 0 <= i < |paths| && x in PathOperations(paths[i].1) && t.path == paths[i].0
        && x.1.Some? && t.httpMethod == x.0 && Serves(t, x.1.value, marshal);
      ServesKnown(t, x.1.value, marshal);
    }
  }
}
