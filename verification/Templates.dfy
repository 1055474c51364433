/** OpenAPI request templates (`internal/openapi/template.go`): which placeholders a template
    serves, the index by placeholder, and the requests made from it. */
module Templates {
  import opened Order
  import opened Text
  import opened Substitution
  import opened PathSubstitution

  const HEADER := "Header"
  const URL_PARAM := "URLParam"
  const URL_PATH := "URLPath"
  const HTML_FORM := "HTMLForm"
  const JSON_BODY := "JSONBody"
  const JSON_REQUEST := "JSONRequest"
  const XML_BODY := "XMLBody"
  const REQUEST_BODY := "RequestBody"

  const JSON_CONTENT := "application/json"
  const XML_CONTENT := "application/xml"
  const FORM_CONTENT := "application/x-www-form-urlencoded"
  const PLAIN_CONTENT := "text/plain"

  /** The placeholders `CreateRequest` knows. */
  const KNOWN: set<string> :=
    {HEADER, URL_PARAM, URL_PATH, HTML_FORM, JSON_BODY, JSON_REQUEST, XML_BODY, REQUEST_BODY}

  /** `parameterSpec`. */
  datatype ParamSpec = ParamSpec(paramType: string, value: string, minLength: nat, maxLength: nat)

  type Params = map<string, ParamSpec>

  /** `Template`. */
  datatype Template = Template(
    httpMethod: string, path: string, url: string,
    pathParameters: Params, queryParameters: Params, headers: Params, bodyParameters: Params,
    body: map<string, string>, placeholders: set<string>)

  datatype Request = Request(
    httpMethod: string, url: string, rawQuery: string,
    contentType: string, headers: map<string, string>, body: string)

  /** The (nil, nil) exit, the exit with an error, and a request. */
  datatype Created = NoRequest | Failed | Made(req: Request)

  /** A string parameter whose length bounds admit the payload. */
  predicate Admits(spec: ParamSpec, payload: string) {
    spec.paramType == "string" && spec.minLength <= |payload| <= spec.maxLength
  }

  function Pick(spec: ParamSpec, payload: string): string {
    if Admits(spec, payload) then payload else spec.value
  }

  // ----- Requests -----

  predicate IsBodyKind(placeholder: string) {
    placeholder in {HTML_FORM, JSON_BODY, JSON_REQUEST, XML_BODY, REQUEST_BODY}
  }

  function ContentTypeOf(placeholder: string): string {
    if placeholder == HTML_FORM then FORM_CONTENT
    else if placeholder == JSON_BODY || placeholder == JSON_REQUEST then JSON_CONTENT
    else if placeholder == XML_BODY then XML_CONTENT
    else if placeholder == REQUEST_BODY then PLAIN_CONTENT
    else ""
  }

  /** Reading a missing body of a Go map yields the empty string. */
  function BodyOf(t: Template, contentType: string): string {
    if contentType in t.body then t.body[contentType] else ""
  }

  function AdmittedKeys(ps: Params, payload: string): set<string> {
    set k | k in ps && Admits(ps[k], payload)
  }

  /** The value of each path parameter; the payload goes to the path for `URLPath` only. */
  function PathValues(t: Template, placeholder: string, payload: string): Values {
    (k: string) =>
      if k !in t.pathParameters then ""
      else if placeholder == URL_PATH then Pick(t.pathParameters[k], payload)
      else t.pathParameters[k].value
  }

  function Picked(ps: Params, payload: string): map<string, string> {
    map k | k in ps :: Pick(ps[k], payload)
  }

  /** `r` is `s` after the replacements for `keys`, in some order. */
  ghost predicate IsChain(r: string, s: string, keys: set<string>, value: Values) {
    exists order :: IsOrder(order, keys) && r == Chain(s, order, value)
  }

  function Pairs(order: seq<string>, params: map<string, string>): seq<string>
    requires forall k | k in order :: k in params
  {
    seq(|order|, i requires 0 <= i < |order| => order[i] + "=" + params[order[i]])
  }

  ghost predicate IsQuery(q: string, params: map<string, string>) {
    exists order: seq<string> :: IsOrder(order, params.Keys) && q == Join(Pairs(order, params), "&")
  }

  /** What a request made from a template is, for some order in which each map was walked. */
  ghost predicate MadeFrom(req: Request, t: Template, placeholder: string, payload: string) {
    && req.httpMethod == t.httpMethod
    && IsChain(req.url, t.url, t.pathParameters.Keys, PathValues(t, placeholder, payload))
    && IsQuery(req.rawQuery, if placeholder == URL_PARAM then Picked(t.queryParameters, payload) else map[])
    && req.headers == (if placeholder == HEADER then Picked(t.headers, payload) else map[])
    && req.contentType == ContentTypeOf(placeholder)
    && if IsBodyKind(placeholder) then
         IsChain(req.body, BodyOf(t, ContentTypeOf(placeholder)),
                 AdmittedKeys(t.bodyParameters, payload), Always(payload))
       else req.body == ""
  }

  lemma ChainExtends(s: string, order: seq<string>, k: string, keys: set<string>, value: Values)
    requires IsOrder(order, keys) && k !in keys
    ensures IsOrder(order + [k], keys + {k})
    ensures Chain(s, order + [k], value) == ReplaceAll(Chain(s, order, value), k, value(k))
  {
    assert (order + [k])[..|order|] == order;
  }

  /** One of the loops that fill a body. */
  method FillBody(text: string, ps: Params, payload: string) returns (body: string)
    ensures IsChain(body, text, AdmittedKeys(ps, payload), Always(payload))
  {
    body := text;
    var rest := ps.Keys;
    ghost var order: seq<string> := [];
    while rest != {}
      invariant rest <= ps.Keys
      invariant IsOrder(order, AdmittedKeys(ps, payload) - rest) && body == Chain(text, order, Always(payload))
      decreases rest
    {
      var k :| k in rest;
      if Admits(ps[k], payload) {
        ChainExtends(text, order, k, AdmittedKeys(ps, payload) - rest, Always(payload));
        assert AdmittedKeys(ps, payload) - (rest - {k}) == (AdmittedKeys(ps, payload) - rest) + {k};
        body := ReplaceAll(body, k, payload);
        order := order + [k];
      } else {
        assert AdmittedKeys(ps, payload) - (rest - {k}) == AdmittedKeys(ps, payload) - rest;
      }
      rest := rest - {k};
    }
    assert AdmittedKeys(ps, payload) - rest == AdmittedKeys(ps, payload);
  }

  /** The loops over the path parameters. */
  method FillPath(t: Template, placeholder: string, payload: string) returns (path: string)
    ensures IsChain(path, t.url, t.pathParameters.Keys, PathValues(t, placeholder, payload))
  {
    path := t.url;
    var rest := t.pathParameters.Keys;
    ghost var value := PathValues(t, placeholder, payload);
    ghost var order: seq<string> := [];
    NoneFilled(t.url, rest, value);
    hide ReplaceAll, Chain, IsOrder, PathValues, Admits;
    while rest != {}
      invariant rest <= t.pathParameters.Keys
      invariant IsOrder(order, t.pathParameters.Keys - rest) && path == Chain(t.url, order, value)
      decreases rest
    {
      var k :| k in rest;
      var spec := t.pathParameters[k];
      ChainExtends(t.url, order, k, t.pathParameters.Keys - rest, value);
      PathValueAt(t, placeholder, payload, k);
      assert t.pathParameters.Keys - (rest - {k}) == (t.pathParameters.Keys - rest) + {k};
      if placeholder == URL_PATH && Admits(spec, payload) {
        path := ReplaceAll(path, k, payload);
      } else {
        path := ReplaceAll(path, k, spec.value);
      }
      order := order + [k];
      rest := rest - {k};
    }
    assert t.pathParameters.Keys - rest == t.pathParameters.Keys;
  }

  lemma NoneFilled(s: string, keys: set<string>, value: Values)
    ensures IsOrder([], keys - keys) && Chain(s, [], value) == s
  {
  }

  lemma PathValueAt(t: Template, placeholder: string, payload: string, k: string)
    requires k in t.pathParameters
    ensures var spec := t.pathParameters[k];
      PathValues(t, placeholder, payload)(k)
      == if placeholder == URL_PATH && Admits(spec, payload) then payload else spec.value
  {
  }

  /** The loops over headers and query parameters. */
  method PickAll(ps: Params, payload: string) returns (picked: map<string, string>)
    ensures picked == Picked(ps, payload)
  {
    picked := map[];
    var rest := ps.Keys;
    while rest != {}
      invariant rest <= ps.Keys && picked == map k | k in ps && k !in rest :: Pick(ps[k], payload)
      decreases rest
    {
      var k :| k in rest;
      if Admits(ps[k], payload) {
        picked := picked[k := payload];
      } else {
        picked := picked[k := ps[k].value];
      }
      rest := rest - {k};
    }
  }

  method JoinQuery(params: map<string, string>) returns (q: string)
    ensures IsQuery(q, params)
  {
    var parts: seq<string> := [];
    var rest := params.Keys;
    ghost var order: seq<string> := [];
    while rest != {}
      invariant rest <= params.Keys && IsOrder(order, params.Keys - rest) && parts == Pairs(order, params)
      decreases rest
    {
      var k :| k in rest;
      parts := parts + [k + "=" + params[k]];
      order := order + [k];
      rest := rest - {k};
    }
    assert params.Keys - rest == params.Keys;
    q := Join(parts, "&");
  }

  /** `CreateRequest`; `parses` says which URLs `http.NewRequest` accepts. */
  method CreateRequest(t: Template, placeholder: string, payload: string, parses: string -> bool) returns (r: Created)
    ensures r.NoRequest? <==> placeholder !in t.placeholders || placeholder !in KNOWN
    ensures r.Made? ==> MadeFrom(r.req, t, placeholder, payload) && parses(r.req.url)
    ensures r.Failed? ==>
      exists url :: IsChain(url, t.url, t.pathParameters.Keys, PathValues(t, placeholder, payload)) && !parses(url)
  {
    if placeholder !in t.placeholders {
      return NoRequest;
    }
    var body, contentType := "", "";
    var queryParams: map<string, string> := map[];
    var headers: map<string, string> := map[];
    if placeholder == HEADER {
      headers := PickAll(t.headers, payload);
    } else if placeholder == URL_PATH {
      // filled below
    } else if placeholder == URL_PARAM {
      queryParams := PickAll(t.queryParameters, payload);
    } else if IsBodyKind(placeholder) {
      contentType := ContentTypeOf(placeholder);
      body := FillBody(BodyOf(t, contentType), t.bodyParameters, payload);
    } else {
      return NoRequest;
    }
    var path := FillPath(t, placeholder, payload);
    if !parses(path) {
      return Failed;
    }
    var rawQuery := JoinQuery(queryParams);
    r := Made(Request(t.httpMethod, path, rawQuery, contentType, headers, body));
  }

  /** Some request is made, for any order of the body parameters and of the path parameters. */
  lemma RequestExists(t: Template, placeholder: string, payload: string, bodyOrder: seq<string>, pathOrder: seq<string>)
    returns (req: Request)
    requires IsOrder(bodyOrder, AdmittedKeys(t.bodyParameters, payload)) && IsOrder(pathOrder, t.pathParameters.Keys)
    ensures MadeFrom(req, t, placeholder, payload)
    ensures req.url == Chain(t.url, pathOrder, PathValues(t, placeholder, payload))
    ensures IsBodyKind(placeholder) ==>
      req.body == Chain(BodyOf(t, ContentTypeOf(placeholder)), bodyOrder, Always(payload))
  {
    var query := if placeholder == URL_PARAM then Picked(t.queryParameters, payload) else map[];
    var queryOrder := SomeOrder(query.Keys);
    var body := if IsBodyKind(placeholder)
                then Chain(BodyOf(t, ContentTypeOf(placeholder)), bodyOrder, Always(payload)) else "";
    req := Request(t.httpMethod, Chain(t.url, pathOrder, PathValues(t, placeholder, payload)),
                   Join(Pairs(queryOrder, query), "&"), ContentTypeOf(placeholder),
                   if placeholder == HEADER then Picked(t.headers, payload) else map[], body);
    hide Chain, Join;
  }

  // ----- What a request carries -----

  /** A string whose length bounds admit the payload. */
  ghost predicate AdmitsIn(spec: ParamSpec, payload: string) {
    spec.paramType == "string" && spec.minLength <= |payload| && |payload| <= spec.maxLength
  }

  /** A parameter that admits the payload shows it, and any other its own value. */
  ghost predicate ShowsIn(text: string, spec: ParamSpec, payload: string) {
    if AdmitsIn(spec, payload) then text == payload else text == spec.value
  }

  /** A header request has the headers of the template, each with the payload if it admits it, no query and no
      body. */
  lemma HeaderRequest(req: Request, t: Template, payload: string)
    requires MadeFrom(req, t, "Header", payload)
    ensures req.httpMethod == t.httpMethod && req.rawQuery == "" && req.contentType == "" && req.body == ""
    ensures req.headers.Keys == t.headers.Keys
    ensures forall k | k in t.headers :: ShowsIn(req.headers[k], t.headers[k], payload)
  {
    NoQuery();
    hide Chain;
  }

  lemma NoQuery()
    ensures forall q | IsQuery(q, map[]) :: q == ""
  {
    forall q | IsQuery(q, map[]) ensures q == "" {
      var none: map<string, string> := map[];
      var order: seq<string> :| IsOrder(order, none.Keys) && q == Join(Pairs(order, none), "&");
      FirstIsIn(order);
    }
  }

  lemma FirstIsIn(order: seq<string>)
    ensures order == [] || order[0] in order
  {
  }

  /** A query request has one "name=value" for each query parameter, by the same rule, joined by "&". */
  lemma QueryRequest(req: Request, t: Template, payload: string) returns (order: seq<string>, parts: seq<string>)
    requires MadeFrom(req, t, "URLParam", payload)
    ensures req.httpMethod == t.httpMethod && req.contentType == "" && req.body == ""
    ensures IsOrder(order, t.queryParameters.Keys) && req.rawQuery == Join(parts, "&") && |parts| == |order|
    ensures forall i | 0 <= i < |order| :: order[i] in t.queryParameters && PairShows(parts[i], order[i], t, payload)
  {
    var picked := Picked(t.queryParameters, payload);
    assert IsQuery(req.rawQuery, picked);
    hide MadeFrom, Join, ShowsIn;
    order :| IsOrder(order, picked.Keys) && req.rawQuery == Join(Pairs(order, picked), "&");
    parts := Pairs(order, picked);
    forall i | 0 <= i < |order| ensures order[i] in t.queryParameters && PairShows(parts[i], order[i], t, payload) {
      assert order[i] in order;
      PickShows(t.queryParameters[order[i]], payload);
      assert parts[i] == order[i] + "=" + picked[order[i]];
    }
  }

  /** "name=value", with the payload where the parameter admits it. */
  ghost predicate PairShows(pair: string, name: string, t: Template, payload: string)
    requires name in t.queryParameters
  {
    exists text :: pair == name + "=" + text && ShowsIn(text, t.queryParameters[name], payload)
  }

  lemma PickShows(spec: ParamSpec, payload: string)
    ensures ShowsIn(Pick(spec, payload), spec, payload)
  {
  }

  /** In every request each path parameter is replaced once, in some order: for `URLPath` by the payload, if
      it admits it, and otherwise by its own value. */
  lemma PathRequest(req: Request, t: Template, placeholder: string, payload: string)
    returns (order: seq<string>, value: Values)
    requires MadeFrom(req, t, placeholder, payload)
    ensures IsOrder(order, t.pathParameters.Keys) && req.url == Chain(t.url, order, value)
    ensures forall k | k in t.pathParameters ::
      if placeholder == "URLPath" then ShowsIn(value(k), t.pathParameters[k], payload)
      else value(k) == t.pathParameters[k].value
    ensures placeholder != "Header" ==> req.headers == map[]
    ensures placeholder != "URLParam" ==> req.rawQuery == ""
  {
    NoQuery();
    value := PathValues(t, placeholder, payload);
    order :| IsOrder(order, t.pathParameters.Keys) && req.url == Chain(t.url, order, value);
    hide Chain, IsQuery;
  }

  /** The content type of a body. */
  ghost predicate GoesWith(placeholder: string, contentType: string) {
    || (placeholder == "JSONBody" && contentType == "application/json")
    || (placeholder == "JSONRequest" && contentType == "application/json")
    || (placeholder == "XMLBody" && contentType == "application/xml")
    || (placeholder == "HTMLForm" && contentType == "application/x-www-form-urlencoded")
    || (placeholder == "RequestBody" && contentType == "text/plain")
  }

  /** A body request has the body of its content type, in which each string parameter whose length bounds
      admit the payload is replaced by it, once, in some order. */
  lemma BodyRequest(req: Request, t: Template, placeholder: string, contentType: string, payload: string)
    returns (order: seq<string>, value: Values)
    requires GoesWith(placeholder, contentType) && MadeFrom(req, t, placeholder, payload)
    ensures req.contentType == contentType && req.httpMethod == t.httpMethod
    ensures forall k :: k in order <==> k in t.bodyParameters && AdmitsIn(t.bodyParameters[k], payload)
    ensures forall i, j | 0 <= i < j < |order| :: order[i] != order[j]
    ensures forall k :: value(k) == payload
    ensures req.body == Chain(if contentType in t.body then t.body[contentType] else "", order, value)
  {
    value := Always(payload);
    var keys := AdmittedKeys(t.bodyParameters, payload);
    order :| IsOrder(order, keys) && req.body == Chain(BodyOf(t, ContentTypeOf(placeholder)), order, value);
    hide Chain, IsQuery;
  }

  /** Whatever the order in which the parameters are walked, the payload stands exactly in the
      string holes whose length bounds admit it, and every other hole keeps its placeholder: if and
      only if the payload contains no admitted placeholder but that of a hole itself. */
  lemma BodyMeaning(t: Template, placeholder: string, payload: string, ps: seq<Piece>, n: nat)
    requires IsBodyKind(placeholder) && BodyOf(t, ContentTypeOf(placeholder)) == Plain(ps)
    requires 0 < n && Delimited(ps) && WordsOnly(ps, AdmittedKeys(t.bodyParameters, payload), n)
    ensures Harmless(ps, AdmittedKeys(t.bodyParameters, payload), Always(payload)) <==>
      forall req | MadeFrom(req, t, placeholder, payload) ::
        req.body == Fill(ps, AdmittedKeys(t.bodyParameters, payload), Always(payload))
  {
    var keys, value := AdmittedKeys(t.bodyParameters, payload), Always(payload);
    BodyOrderIff(ps, keys, n, payload);
    hide Delimited, WordsOnly, Harmless, Chain, Plain, Fill, IsQuery;
    forall req | MadeFrom(req, t, placeholder, payload)
      ensures exists order :: IsOrder(order, keys) && req.body == Chain(Plain(ps), order, value)
    {
    }
    forall order | IsOrder(order, keys)
      ensures exists req :: MadeFrom(req, t, placeholder, payload) && req.body == Chain(Plain(ps), order, value)
    {
      var pathOrder := SomeOrder(t.pathParameters.Keys);
      var req := RequestExists(t, placeholder, payload, order, pathOrder);
    }
  }

  /** The path parameters that take the payload. */
  function AdmittedInPath(t: Template, placeholder: string, payload: string): set<string> {
    if placeholder == URL_PATH then AdmittedKeys(t.pathParameters, payload) else {}
  }

  /** Every path parameter is filled, by the payload if it is a string that admits it and the
      placeholder is `URLPath`, by its own value otherwise, whatever the order: if and only if the
      payload contains no path parameter but that of a hole itself.  `p` are the literals and braced
      names of the payload; own values contain no key.  Either no literal leaves a brace open (`end`), or
      none closes one that it did not open. */
  lemma PathMeaning(t: Template, placeholder: string, payload: string, ps: seq<Piece>, p: seq<Piece>, end: bool)
    requires t.url == Plain(ps) && BracedOnly(ps, t.pathParameters.Keys, end)
    requires payload == Plain(p) && BracedOnly(p, t.pathParameters.Keys, end)
    requires forall k | k in t.pathParameters :: Inert(t.pathParameters[k].value, t.pathParameters.Keys, end)
    ensures Harmless(ps, t.pathParameters.Keys, PathValues(t, placeholder, payload)) <==>
      forall req | MadeFrom(req, t, placeholder, payload) ::
        req.url == Fill(ps, t.pathParameters.Keys, PathValues(t, placeholder, payload))
  {
    var keys, value := t.pathParameters.Keys, PathValues(t, placeholder, payload);
    PathOrderIff(ps, keys, AdmittedInPath(t, placeholder, payload), p, value, end);
    hide Harmless, Chain, Plain, Fill, IsQuery, BracedOnly, PathValues;
    forall req | MadeFrom(req, t, placeholder, payload)
      ensures exists order :: IsOrder(order, keys) && req.url == Chain(Plain(ps), order, value)
    {
    }
    forall order | IsOrder(order, keys)
      ensures exists req :: MadeFrom(req, t, placeholder, payload) && req.url == Chain(Plain(ps), order, value)
    {
      var bodyOrder := SomeOrder(AdmittedKeys(t.bodyParameters, payload));
      var req := RequestExists(t, placeholder, payload, bodyOrder, order);
    }
  }

  // A template with two path parameters, and a payload that names the second one.

  function TwoNames(): Template {
    var spec := ParamSpec("string", "v", 0, 100);
    Template("GET", "/{a}/{b}", "/{a}/{b}", map["{a}" := spec, "{b}" := spec], map[], map[], map[], map[], {URL_PATH})
  }

  /** The order in which the parameters are walked decides between two requests. */
  lemma PathOrderCanMatter() returns (r: Request, r': Request)
    ensures MadeFrom(r, TwoNames(), URL_PATH, "x{b}") && r.url == "/xx{b}/x{b}"
    ensures MadeFrom(r', TwoNames(), URL_PATH, "x{b}") && r'.url == "/x{b}/x{b}"
  {
    FirstThenSecond();
    SecondThenFirst();
    hide ReplaceAll;
    var t := TwoNames();
    ChainOfTwo("{a}", "{b}");
    ChainOfTwo("{b}", "{a}");
    r := RequestExists(t, URL_PATH, "x{b}", [], ["{a}", "{b}"]);
    r' := RequestExists(t, URL_PATH, "x{b}", [], ["{b}", "{a}"]);
  }

  lemma ChainOfTwo(k: string, k': string)
    requires k != k' && {k, k'} == {"{a}", "{b}"}
    ensures IsOrder([k, k'], TwoNames().pathParameters.Keys)
    ensures Chain(TwoNames().url, [k, k'], PathValues(TwoNames(), URL_PATH, "x{b}"))
         == ReplaceAll(ReplaceAll("/{a}/{b}", k, "x{b}"), k', "x{b}")
  {
    hide ReplaceAll;
    var value := PathValues(TwoNames(), URL_PATH, "x{b}");
    assert value(k) == "x{b}" && value(k') == "x{b}";
    assert [k][..0] == [];
    assert Chain("/{a}/{b}", [k], value) == ReplaceAll("/{a}/{b}", k, "x{b}");
    assert [k, k'][..1] == [k];
  }

  /** The first of the names replaced. */
  lemma ReplaceFirst(before: string, k: string, rest: string, v: string)
    requires IsBraced(k) && ClosedEnd(before) && !Contains(before, k)
    ensures ReplaceAll(before + k + rest, k, v) == before + v + ReplaceAll(rest, k, v)
  {
    CutByClosedEnd(before, k + rest, k);
    assert before + k + rest == before + (k + rest);
    ReplaceConcat(before, k + rest, k, v);
    ReplaceNothing(before, k, v);
    assert (k + rest)[..|k|] == k && (k + rest)[|k|..] == rest;
  }

  /** A text with one name in braces contains no other. */
  lemma NoOtherName(before: string, k': string, after: string, k: string)
    requires IsBraced(k) && IsBraced(k') && k != k'
    requires forall i | 0 <= i < |before| :: before[i] != '{'
    requires forall i | 0 <= i < |after| :: after[i] != '{'
    ensures !Contains(before + k' + after, k)
  {
    hide Contains, NoStraddle;
    NoBraceNoKey(before, k);
    NoBraceNoKey(after, k);
    HoleHoldsItself(k', k);
    BracedIsClosed(k', true);
    CutByClosedEnd(k', after, k);
    CutByClosedEnd(before, k' + after, k);
    ContainsConcat(k', after, k);
    ContainsConcat(before, k' + after, k);
    assert before + k' + after == before + (k' + after);
  }

  lemma FirstThenSecond()
    ensures ReplaceAll(ReplaceAll("/{a}/{b}", "{a}", "x{b}"), "{b}", "x{b}") == "/xx{b}/x{b}"
  {
    hide ReplaceAll, Contains;
    ReplaceOnce("/", "{a}", "/{b}", "{b}");
    assert "/" + "{a}" + "/{b}" == "/{a}/{b}" && "/" + "x{b}" + "/{b}" == "/x{b}/{b}";
    NoBraceNoKey("/x", "{b}");
    ReplaceFirst("/x", "{b}", "/{b}", "x{b}");
    NoBraceNoKey("/", "{b}");
    ReplaceLast("/");
    assert "/x" + "{b}" + "/{b}" == "/x{b}/{b}" && "/" + "{b}" == "/{b}";
    assert "/x" + "x{b}" + ("/" + "x{b}") == "/xx{b}/x{b}";
  }

  lemma SecondThenFirst()
    ensures ReplaceAll(ReplaceAll("/{a}/{b}", "{b}", "x{b}"), "{a}", "x{b}") == "/x{b}/x{b}"
  {
    hide ReplaceAll, Contains;
    NoOtherName("/", "{a}", "/", "{b}");
    assert "/" + "{a}" + "/" == "/{a}/" && "/{a}/"[3] == '}';
    ReplaceLast("/{a}/");
    assert "/{a}/" + "{b}" == "/{a}/{b}" && "/{a}/" + "x{b}" == "/{a}/x{b}";
    ReplaceOnce("/", "{a}", "/x{b}", "{b}");
    assert "/" + "{a}" + "/x{b}" == "/{a}/x{b}" && "/" + "x{b}" + "/x{b}" == "/x{b}/x{b}";
  }

  /** The first of two names, where the other one does not hold it. */
  lemma ReplaceOnce(before: string, k: string, rest: string, k': string)
    requires IsBraced(k) && k' == "{b}" && k != k' && rest in {"/{b}", "/x{b}"}
    requires forall i | 0 <= i < |before| :: before[i] != '{'
    ensures ReplaceAll(before + k + rest, k, "x{b}") == before + "x{b}" + rest
  {
    hide ReplaceAll, Contains;
    NoBraceNoKey(before, k);
    ReplaceFirst(before, k, rest, "x{b}");
    NoOtherName("/", k', "", k);
    NoOtherName("/x", k', "", k);
    assert "/" + k' + "" == "/{b}" && "/x" + k' + "" == "/x{b}";
    ReplaceNothing(rest, k, "x{b}");
  }

  lemma ReplaceLast(before: string)
    requires ClosedEnd(before) && !Contains(before, "{b}")
    ensures ReplaceAll(before + "{b}", "{b}", "x{b}") == before + "x{b}"
  {
    ReplaceFirst(before, "{b}", "", "x{b}");
    assert ReplaceAll("", "{b}", "x{b}") == "";
    hide ReplaceAll;
    assert before + "{b}" + "" == before + "{b}" && before + "x{b}" + "" == before + "x{b}";
  }

  // A payload that closes a brace it did not open and leaves one open: around the literal between two
  // parameters it makes the name of a third.

  function Joinable(): Template {
    var spec := ParamSpec("string", "v", 0, 100);
    var url := "/{a}/{c}{/b}";
    Template("GET", url, url, map["{a}" := spec, "{c}" := spec, "{/b}" := spec], map[], map[], map[], map[], {URL_PATH})
  }

  function JoinablePieces(): seq<Piece> { [Lit("/"), Hole("{a}"), Lit("/"), Hole("{c}"), Hole("{/b}")] }

  function JoinedValues(): Values { PathValues(Joinable(), URL_PATH, "b}{") }

  lemma JoinableKeys()
    ensures Joinable().pathParameters.Keys == {"{a}", "{c}", "{/b}"} && Joinable().url == "/{a}/{c}{/b}"
    ensures JoinedValues() == PathValues(Joinable(), URL_PATH, "b}{")
    ensures forall k | k in {"{a}", "{c}", "{/b}"} :: JoinedValues()(k) == "b}{"
  {
  }

  /** Then an order can differ from the simultaneous replacement although the payload holds no
      parameter. */
  lemma PayloadsCanJoin() returns (r: Request)
    ensures var ps, keys, value := JoinablePieces(), Joinable().pathParameters.Keys, JoinedValues();
      && Joinable().url == Plain(ps) && BracedOnly(ps, keys, true) && BracedOnly(ps, keys, false)
      && Harmless(ps, keys, value) && r.url != Fill(ps, keys, value)
    ensures MadeFrom(r, Joinable(), URL_PATH, "b}{")
  {
    JoinableTexts();
    JoinableKeys();
    JoinableBraced(true);
    JoinableBraced(false);
    JoinableHarmless();
    JoinedChain();
    hide *;
    r := RequestExists(Joinable(), URL_PATH, "b}{", [], ["{c}", "{a}", "{/b}"]);
  }

  lemma JoinableShown(shows: Values)
    ensures Shown(JoinablePieces(), shows) == "/" + (shows("{a}") + ("/" + (shows("{c}") + shows("{/b}"))))
  {
    var ps := JoinablePieces();
    assert ps[1..][1..] == ps[2..] && ps[2..][1..] == ps[3..] && ps[3..][1..] == ps[4..] && ps[4..][1..] == [];
    assert Shown(ps[4..], shows) == shows("{/b}");
    assert Shown(ps[3..], shows) == shows("{c}") + Shown(ps[4..], shows);
    assert Shown(ps[2..], shows) == "/" + Shown(ps[3..], shows);
    assert Shown(ps[1..], shows) == shows("{a}") + Shown(ps[2..], shows);
  }

  lemma JoinableTexts()
    ensures Joinable().url == Plain(JoinablePieces()) && IsOrder([], AdmittedKeys(Joinable().bodyParameters, "b}{"))
    ensures var url := Fill(JoinablePieces(), Joinable().pathParameters.Keys, JoinedValues());
      |url| > 3 && url[3] == '{'
  {
    JoinableKeys();
    var filled := Filled(Joinable().pathParameters.Keys, JoinedValues());
    JoinableShown(Same());
    JoinableShown(filled);
    hide Shown, JoinedValues, JoinablePieces;
    assert filled("{a}") == "b}{";
  }

  lemma MissingChar(s: string, k: string, j: nat)
    requires j < |k| && k[j] !in s
    ensures !Contains(s, k)
  {
    ContainsIffOccurs(s, k);
    forall i: nat ensures !OccursAt(s, k, i) {
      OccurrenceAt(s, k, i, j);
    }
  }

  lemma JoinableBraced(end: bool)
    ensures BracedOnly(JoinablePieces(), {"{a}", "{c}", "{/b}"}, end)
  {
    MissingChar("/", "{a}", 1);
    MissingChar("/", "{c}", 1);
    MissingChar("/", "{/b}", 0);
    hide Contains;
    assert ClosedEnd("/") && ClosedStart("/");
    hide Closed;
    assert Closed("/", end);
    assert IsBraced("{a}") && IsBraced("{c}") && IsBraced("{/b}");
    hide IsBraced;
  }

  lemma JoinableHarmless()
    ensures Harmless(JoinablePieces(), Joinable().pathParameters.Keys, JoinedValues())
  {
    JoinableKeys();
    MissingChar("b}{", "{a}", 1);
    MissingChar("b}{", "{c}", 1);
    MissingChar("b}{", "{/b}", 1);
    hide Contains, Joinable, JoinedValues, JoinablePieces, HasHole;
  }

  lemma JoinedChain()
    ensures var order := ["{c}", "{a}", "{/b}"];
      && IsOrder(order, Joinable().pathParameters.Keys)
      && var url := Chain(Joinable().url, order, JoinedValues()); |url| > 3 && url[3] == 'b'
  {
    JoinableKeys();
    JoinedSteps();
    var s1, s2, value := "/{a}/b}{{/b}", "/b}{/b}{{/b}", JoinedValues();
    hide ReplaceAll, Joinable, JoinedValues;
    assert Chain("/{a}/{c}{/b}", [], value) == "/{a}/{c}{/b}";
    assert ["{c}"][..0] == [] && ["{c}", "{a}"][..1] == ["{c}"] && ["{c}", "{a}", "{/b}"][..2] == ["{c}", "{a}"];
    assert Chain("/{a}/{c}{/b}", ["{c}"], value) == s1;
    assert Chain("/{a}/{c}{/b}", ["{c}", "{a}"], value) == s2;
  }

  lemma JoinedSteps()
    ensures ReplaceAll("/{a}/{c}{/b}", "{c}", "b}{") == "/{a}/b}{{/b}"
    ensures ReplaceAll("/{a}/b}{{/b}", "{a}", "b}{") == "/b}{/b}{{/b}"
    ensures var url := ReplaceAll("/b}{/b}{{/b}", "{/b}", "b}{"); |url| > 3 && url[3] == 'b'
  {
    hide ReplaceAll, Contains;
    assert "/{a}/"[3] == '}';
    ReplaceMissing("/{a}/", "{c}", "{/b}", 1);
    assert "/{a}/" + "{c}" + "{/b}" == "/{a}/{c}{/b}" && "/{a}/" + "b}{" + "{/b}" == "/{a}/b}{{/b}";
    ReplaceMissing("/", "{a}", "/b}{{/b}", 1);
    assert "/" + "{a}" + "/b}{{/b}" == "/{a}/b}{{/b}" && "/" + "b}{" + "/b}{{/b}" == "/b}{/b}{{/b}";
    MissingChar("/b}", "{/b}", 0);
    ReplaceFirst("/b}", "{/b}", "{{/b}", "b}{");
    assert "/b}" + "{/b}" + "{{/b}" == "/b}{/b}{{/b}";
  }

  lemma ReplaceMissing(before: string, k: string, rest: string, j: nat)
    requires IsBraced(k) && ClosedEnd(before) && j < |k| && k[j] !in before && k[j] !in rest
    ensures ReplaceAll(before + k + rest, k, "b}{") == before + "b}{" + rest
  {
    MissingChar(before, k, j);
    MissingChar(rest, k, j);
    hide ReplaceAll, Contains;
    ReplaceFirst(before, k, rest, "b}{");
    ReplaceNothing(rest, k, "b}{");
  }

  // ----- The index -----

  type Index = map<string, seq<Template>>

  /** The templates that serve a placeholder, in order. */
  function Serving(ts: seq<Template>, p: string): seq<Template> {
    if ts == [] then []
    else Serving(ts[..|ts| - 1], p) + if p in ts[|ts| - 1].placeholders then [ts[|ts| - 1]] else []
  }

  lemma {:induction false} ServingIsFilter(ts: seq<Template>, p: string)
    ensures Serving(ts, p) == Filter(ts, (t: Template) => p in t.placeholders)
  {
    if ts != [] {
      ServingIsFilter(ts[..|ts| - 1], p);
    }
  }

  /** Reading a missing entry of a Go map of slices yields an empty one. */
  function Entry(index: Index, p: string): seq<Template> {
    if p in index then index[p] else []
  }

  /** The index agrees with a plain scan: the entry of a placeholder lists the templates that serve
      it, and a placeholder that none serves has no entry. */
  ghost predicate Indexes(index: Index, ts: seq<Template>) {
    && (forall p :: Entry(index, p) == Serving(ts, p))
    && (forall p | p in index :: index[p] != [])
  }

  /** The second half of `NewTemplates`. */
  method IndexTemplates(ts: seq<Template>) returns (index: Index)
    ensures Indexes(index, ts)
  {
    index := map[];
    for i := 0 to |ts|
      invariant Indexes(index, ts[..i])
    {
      ghost var before := index;
      index := AddTemplate(index, ts[i]);
      assert ts[..i + 1][..i] == ts[..i];
      forall p ensures Entry(index, p) == Serving(ts[..i + 1], p) {
        assert Entry(before, p) == Serving(ts[..i], p);
      }
    }
    assert ts[..|ts|] == ts;
  }

  /** One template, under each of its placeholders. */
  method AddTemplate(index: Index, t: Template) returns (r: Index)
    requires forall p | p in index :: index[p] != []
    ensures forall p :: Entry(r, p) == Entry(index, p) + if p in t.placeholders then [t] else []
    ensures forall p | p in r :: r[p] != []
  {
    r := index;
    var rest := t.placeholders;
    while rest != {}
      invariant rest <= t.placeholders
      invariant forall p :: Entry(r, p) == Entry(index, p) + if p in t.placeholders && p !in rest then [t] else []
      invariant forall p | p in r :: r[p] != []
      decreases rest
    {
      var p :| p in rest;
      r := r[p := Entry(r, p) + [t]];
      rest := rest - {p};
    }
  }

  lemma {:induction false} ServingIff(ts: seq<Template>, p: string, t: Template)
    ensures t in Serving(ts, p) <==> t in ts && p in t.placeholders
    ensures |Serving(ts, p)| <= |ts|
  {
    if ts != [] {
      ServingIff(ts[..|ts| - 1], p, t);
    }
  }

  /** A template is indexed under a placeholder exactly when it serves it; when templates serve
      known placeholders only, `CreateRequest` on an indexed pair never takes a (nil, nil) exit. */
  lemma IndexedNeverNil(index: Index, ts: seq<Template>, p: string, t: Template)
    requires Indexes(index, ts) && forall u | u in ts :: u.placeholders <= KNOWN
    ensures p in index && t in index[p] <==> t in ts && p in t.placeholders
    ensures p in index && t in index[p] ==> p in t.placeholders && p in KNOWN
  {
    ServingIff(ts, p, t);
    assert Entry(index, p) == Serving(ts, p);
  }
}
