/** How one exchange with the target is judged: `checkBlockedOrPassed`, `toInfo` and the
    branches of `updateDB` in `internal/scanner/scanner.go`, as values.

    Regular expressions, WAF-specific block checks, routing and response validation are
    uninterpreted: they enter as predicates or as given answers.  A Go panic is a `Crash`. */
module Outcomes {
  import opened Wrappers
  import opened Ledger

  /** `io.EOF` and `ECONNRESET` are treated alike; every other error is failed. */
  datatype SendError = ConnReset | OtherError(message: string)

  /** `headers` maps each header to its first value; `error` is "" when there is none. */
  datatype Response = Response(statusCode: int, headers: map<string, string>, content: string, error: string)

  datatype Reply = Reply(resp: Option<Response>, err: Option<SendError>)

  /** The part of an OpenAPI template that reaches the report. */
  datatype Endpoint = Endpoint(httpMethod: string, path: string)

  datatype Config = Config(
    blockConnReset: bool, ignoreUnresolved: bool, nonBlockedAsPassed: bool,
    checkBlock: Option<Response -> bool>,
    blockRegex: Option<string -> bool>, passRegex: Option<string -> bool>,
    blockStatusCodes: seq<int>, passStatusCodes: seq<int>,
    grpcAvailable: bool, graphQLAvailable: bool,
    templates: Option<map<string, seq<Endpoint>>>)   // None without an OpenAPI document

  datatype PayloadConfig = PayloadConfig(
    payload: string, encoder: string, placeholder: Placeholder,
    setName: string, caseName: string, testType: string, isTruePositive: bool,
    debugHeaderValue: string)

  const GRPC := "gRPC"
  const GRAPHQL := "GraphQL"

  // ----- Blocked or passed -----

  function HeaderLine(name: string, value: string): string { name + ": " + value }

  /** The expression matches a header line or a non-empty body. */
  predicate MatchesResponse(regex: string -> bool, r: Response) {
    || (exists h :: h in r.headers && regex(HeaderLine(h, r.headers[h])))
    || (r.content != "" && regex(r.content))
  }

  predicate WafSaysBlocked(c: Config, r: Response) {
    c.checkBlock.Some? && c.checkBlock.value(r)
  }

  predicate Blocks(c: Config, r: Response) {
    || WafSaysBlocked(c, r)
    || (c.blockRegex.Some? && MatchesResponse(c.blockRegex.value, r))
    || r.statusCode in c.blockStatusCodes
  }

  predicate Passes(c: Config, r: Response) {
    && !WafSaysBlocked(c, r)
    && ((c.passRegex.Some? && MatchesResponse(c.passRegex.value, r)) || r.statusCode in c.passStatusCodes)
  }

  /** One regular expression against the headers, then against the body. */
  method MatchResponse(regex: string -> bool, r: Response) returns (matched: bool)
    ensures matched <==> MatchesResponse(regex, r)
  {
    matched := false;
    var rest := r.headers.Keys;
    while rest != {}
      invariant rest <= r.headers.Keys
      invariant matched <==> exists h :: h in r.headers && h !in rest && regex(HeaderLine(h, r.headers[h]))
      decreases rest
    {
      var h :| h in rest;
      if regex(HeaderLine(h, r.headers[h])) {
        matched := true;
      }
      rest := rest - {h};
    }
    if !matched && |r.content| > 0 {
      matched := regex(r.content);
    }
  }

  /** `checkBlockedOrPassed`. */
  method CheckBlockedOrPassed(c: Config, r: Response) returns (blocked: bool, passed: bool)
    ensures blocked == Blocks(c, r) && passed == Passes(c, r)
  {
    if c.checkBlock.Some? {
      if c.checkBlock.value(r) {
        return true, false;
      }
    }
    blocked, passed := false, false;
    if c.blockRegex.Some? {
      blocked := MatchResponse(c.blockRegex.value, r);
    }
    if c.passRegex.Some? {
      passed := MatchResponse(c.passRegex.value, r);
    }
    ghost var blocked0, passed0 := blocked, passed;
    for i := 0 to |c.blockStatusCodes|
      invariant blocked <==> blocked0 || r.statusCode in c.blockStatusCodes[..i]
    {
      if r.statusCode == c.blockStatusCodes[i] {
        blocked := true;
      }
    }
    for i := 0 to |c.passStatusCodes|
      invariant passed <==> passed0 || r.statusCode in c.passStatusCodes[..i]
    {
      if r.statusCode == c.passStatusCodes[i] {
        passed := true;
      }
    }
    assert c.blockStatusCodes[..|c.blockStatusCodes|] == c.blockStatusCodes;
    assert c.passStatusCodes[..|c.passStatusCodes|] == c.passStatusCodes;
  }

  // ----- The decision of updateDB -----

  /** The four fields of `testStatus`, each standing for one ledger. */
  datatype Slot = PassedSlot | BlockedSlot | UnresolvedSlot | FailedSlot

  /** One exchange as `updateDB` sees it.  `route` and `routeByPath` say whether the request is
      routed as it stands, and after its path is replaced; `valid` whether the response
      conforms to the specification. */
  datatype Exchange = Exchange(
    hasRequest: bool, resp: Option<Response>, err: Option<SendError>, info: string, isGRPC: bool,
    route: bool, routeByPath: bool, valid: bool)

  datatype Decision =
    | Note(slot: Slot, notes: seq<string>)   // recorded, with what is appended to AdditionalInfo
    | Refuse                                 // an error is returned and nothing is recorded
    | Crash                                  // a nil response is dereferenced

  function NoteOf(info: string, text: string): seq<string> {
    if |info| != 0 then [text] else []
  }

  predicate HasSpace(s: string) { ' ' in s }

  function Judge(c: Config, x: Exchange, blocked: bool, passed: bool): Decision {
    if c.templates.Some? && !x.isGRPC then
      if !x.hasRequest then Refuse
      else if !x.route && !(HasSpace(x.info) && x.routeByPath) then Refuse
      else if x.resp.None? then Crash
      else if x.valid && !blocked then Note(PassedSlot, NoteOf(x.info, x.info))
      else Note(BlockedSlot, NoteOf(x.info, x.info))
    else if (blocked && passed) || (!blocked && !passed) then Note(UnresolvedSlot, NoteOf(x.info, x.info))
    else if blocked then Note(BlockedSlot, NoteOf(x.info, x.info))
    else Note(PassedSlot, NoteOf(x.info, x.info))
  }

  function Decide(c: Config, x: Exchange): Decision {
    match x.err
    case Some(OtherError(message)) => Note(FailedSlot, NoteOf(x.info, message))
    case Some(ConnReset) =>
      if c.blockConnReset then Judge(c, x, true, false)
      else Note(UnresolvedSlot, NoteOf(x.info, x.info))
    case None =>
      if x.resp.None? then Crash else Judge(c, x, Blocks(c, x.resp.value), Passes(c, x.resp.value))
  }

  /** `toInfo`: without a response the status code stays zero. */
  function RecordOf(pc: PayloadConfig, resp: Option<Response>): Record {
    Record(pc.payload, pc.encoder, pc.placeholder.name, pc.setName, pc.caseName, pc.testType,
           if resp.Some? then resp.value.statusCode else 0)
  }

  function EventOf(c: Config, pc: PayloadConfig, slot: Slot, resp: Option<Response>): Event {
    var r := RecordOf(pc, resp);
    match slot
    case PassedSlot => Passed(r)
    case BlockedSlot => Blocked(r)
    case FailedSlot => Failed(r)
    case UnresolvedSlot => Unresolved(r, c.ignoreUnresolved, c.nonBlockedAsPassed, pc.isTruePositive)
  }

  // ----- One item, without OpenAPI templates -----

  /** `resp.GetError()` becomes the send error when there is none. */
  function WithResponseError(r: Reply): Reply {
    if r.err.None? && r.resp.Some? && r.resp.value.error != ""
    then r.(err := Some(OtherError(r.resp.value.error))) else r
  }

  predicate Skipped(c: Config, pc: PayloadConfig) {
    if pc.placeholder.name == GRPC then !c.grpcAvailable
    else pc.placeholder.name == GRAPHQL && !c.graphQLAvailable
  }

  /** The exchange that `sendGrpcRequest`, `sendGraphQLRequest` or `sendRequest` hands over. */
  function PlainExchange(pc: PayloadConfig, reply: Reply): Exchange {
    var isGRPC := pc.placeholder.name == GRPC;
    var r := if isGRPC then reply else WithResponseError(reply);
    Exchange(false, r.resp, r.err, "", isGRPC, false, false, false)
  }

  /** What one item adds to the ledger. */
  function PlainEvents(c: Config, pc: PayloadConfig, reply: Reply): seq<Event> {
    if Skipped(c, pc) then []
    else
      var x := PlainExchange(pc, reply);
      match Decide(c, x)
      case Note(slot, _) => [EventOf(c, pc, slot, x.resp)]
      case Refuse => []
      case Crash => []
  }

  /** A client answers with a response or an error. */
  predicate Answered(r: Reply) { r.resp.Some? || r.err.Some? }

  /** The event speaks of the set and case of the item, with the flags and polarity it was
      sent with. */
  predicate SentAs(e: Event, c: Config, pc: PayloadConfig) {
    && e.rec.testSet == pc.setName && e.rec.testCase == pc.caseName
    && (e.Unresolved? ==>
          (e.ignoreUnresolved, e.nonBlockedAsPassed, e.isTruePositive)
          == (c.ignoreUnresolved, c.nonBlockedAsPassed, pc.isTruePositive))
  }

  /** Without OpenAPI templates every answered item that is not skipped is recorded exactly
      once. */
  lemma PlainRecordsOnce(c: Config, pc: PayloadConfig, reply: Reply)
    requires !c.templates.Some? && Answered(reply)
    ensures var es := PlainEvents(c, pc, reply);
      && |es| == (if Skipped(c, pc) then 0 else 1)
      && forall e | e in es :: SentAs(e, c, pc)
  {
    if !Skipped(c, pc) {
      var x := PlainExchange(pc, reply);
      assert Decide(c, x).Note?;
    }
  }

  /** With OpenAPI templates loaded, a plain HTTP or GraphQL exchange carries no request, so it
      is recorded exactly when it failed to send, or was reset and resets are not blocks. */
  lemma OpenAPIDropsPlainExchanges(c: Config, pc: PayloadConfig, reply: Reply)
    requires c.templates.Some? && Answered(reply) && pc.placeholder.name != GRPC && !Skipped(c, pc)
    ensures PlainEvents(c, pc, reply) != [] <==>
      var r := WithResponseError(reply);
      r.err.Some? && (r.err.value.OtherError? || !c.blockConnReset)
  {
  }
}
