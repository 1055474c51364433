/** What the program makes of a reply (`checkBlockedOrPassed`, `sendRequest` and `updateDB` in
    `internal/scanner/scanner.go`), said of the reply and the configuration alone: the reasons to
    call a request blocked or passed, and the record each combination of them leaves. */
module Verdicts {
  import opened Wrappers
  import opened Order
  import opened Ledger
  import opened Outcomes
  import opened TemplateRuns

  // ----- Reasons -----

  /** The expression matches "name: value" of a header, or a body that is not empty. */
  predicate Hits(regex: Option<string -> bool>, r: Response) {
    regex.Some? &&
    ((exists h | h in r.headers :: regex.value(h + ": " + r.headers[h])) || (r.content != "" && regex.value(r.content)))
  }

  predicate Detected(c: Config, r: Response) { c.checkBlock.Some? && c.checkBlock.value(r) }

  predicate BlockReason(c: Config, r: Response) {
    Detected(c, r) || Hits(c.blockRegex, r) || r.statusCode in c.blockStatusCodes
  }

  /** The block check of the WAF leaves no reason to pass. */
  predicate PassReason(c: Config, r: Response) {
    !Detected(c, r) && (Hits(c.passRegex, r) || r.statusCode in c.passStatusCodes)
  }

  /** What became of a request. */
  datatype Effect = Stopped | GotThrough | Unclear | Broken | NotSent

  function EffectOf(c: Config, pc: PayloadConfig, reply: Reply): Effect {
    if pc.placeholder.name == "gRPC" && !c.grpcAvailable then NotSent
    else if pc.placeholder.name == "GraphQL" && !c.graphQLAvailable then NotSent
    else
      match reply.err
      case Some(ConnReset) => if c.blockConnReset then Stopped else Unclear
      case Some(OtherError(_)) => Broken
      case None =>
        if reply.resp.None? || (pc.placeholder.name != "gRPC" && reply.resp.value.error != "") then Broken
        else
          var blocking, passing := BlockReason(c, reply.resp.value), PassReason(c, reply.resp.value);
          if blocking == passing then Unclear else if blocking then Stopped else GotThrough
  }

  // ----- Records -----

  /** The record of an item: its own payload, encoder, placeholder, set, case and type, with the status
      of the response, or zero. */
  ghost predicate RecordFor(r: Record, pc: PayloadConfig, resp: Option<Response>) {
    && r.payload == pc.payload && r.encoder == pc.encoder && r.placeholder == pc.placeholder.name
    && r.testSet == pc.setName && r.testCase == pc.caseName && r.testType == pc.testType
    && r.statusCode == (if resp.Some? then resp.value.statusCode else 0)
  }

  /** The update that an effect makes. */
  ghost predicate Leaves(e: Event, f: Effect, c: Config, pc: PayloadConfig, resp: Option<Response>) {
    && RecordFor(e.rec, pc, resp)
    && match f
       case Stopped => e.Blocked?
       case GotThrough => e.Passed?
       case Broken => e.Failed?
       case Unclear =>
         && e.Unresolved? && e.ignoreUnresolved == c.ignoreUnresolved
         && e.nonBlockedAsPassed == c.nonBlockedAsPassed && e.isTruePositive == pc.isTruePositive
       case NotSent => false
  }

  /** Without OpenAPI templates every answered item leaves exactly the update of its effect, and one that
      is not sent leaves none. */
  lemma EffectRecorded(c: Config, pc: PayloadConfig, reply: Reply)
    requires c.templates.None? && Answered(reply)
    ensures var es, f := PlainEvents(c, pc, reply), EffectOf(c, pc, reply);
      if f.NotSent? then es == [] else |es| == 1 && Leaves(es[0], f, c, pc, reply.resp)
  {
    if reply.resp.Some? {
      ReasonsDecide(c, reply.resp.value);
    }
    hide Blocks, Passes, BlockReason, PassReason;
  }

  lemma ReasonsDecide(c: Config, r: Response)
    ensures Blocks(c, r) == BlockReason(c, r) && Passes(c, r) == PassReason(c, r)
  {
    SameHits(c.blockRegex, r);
    SameHits(c.passRegex, r);
  }

  lemma SameHits(regex: Option<string -> bool>, r: Response)
    ensures Hits(regex, r) <==> regex.Some? && MatchesResponse(regex.value, r)
  {
    if regex.Some? {
      forall h | h in r.headers ensures HeaderLine(h, r.headers[h]) == h + ": " + r.headers[h] {
      }
    }
  }

  // ----- The same, reason by reason -----

  /** A response without an error: only a reason to block makes a blocked record, only a reason to pass a
      passed one, both or neither an unresolved one. */
  lemma ReplyJudged(c: Config, pc: PayloadConfig, r: Response)
    requires c.templates.None? && (pc.placeholder.name == "gRPC" || r.error == "")
    requires pc.placeholder.name == "gRPC" ==> c.grpcAvailable
    requires pc.placeholder.name == "GraphQL" ==> c.graphQLAvailable
    ensures var waf := c.checkBlock.Some? && c.checkBlock.value(r);
      var blocking := waf || r.statusCode in c.blockStatusCodes
        || (c.blockRegex.Some? && exists h | h in r.headers :: c.blockRegex.value(h + ": " + r.headers[h]))
        || (c.blockRegex.Some? && r.content != "" && c.blockRegex.value(r.content));
      var passing := !waf && (r.statusCode in c.passStatusCodes
        || (c.passRegex.Some? && exists h | h in r.headers :: c.passRegex.value(h + ": " + r.headers[h]))
        || (c.passRegex.Some? && r.content != "" && c.passRegex.value(r.content)));
      var record := Record(pc.payload, pc.encoder, pc.placeholder.name, pc.setName, pc.caseName, pc.testType,
                           r.statusCode);
      && (blocking && !passing ==> PlainEvents(c, pc, Reply(Some(r), None)) == [Blocked(record)])
      && (passing && !blocking ==> PlainEvents(c, pc, Reply(Some(r), None)) == [Passed(record)])
      && (blocking == passing ==>
            PlainEvents(c, pc, Reply(Some(r), None))
            == [Unresolved(record, c.ignoreUnresolved, c.nonBlockedAsPassed, pc.isTruePositive)])
  {
    EffectRecorded(c, pc, Reply(Some(r), None));
  }

  /** A reset is blocked or unresolved, as configured; any other error, also one of the response, is
      failed. */
  lemma ErrorJudged(c: Config, pc: PayloadConfig, reply: Reply)
    requires c.templates.None? && Answered(reply)
    requires pc.placeholder.name == "gRPC" ==> c.grpcAvailable
    requires pc.placeholder.name == "GraphQL" ==> c.graphQLAvailable
    ensures var es := PlainEvents(c, pc, reply);
      && (reply.err == Some(ConnReset) ==>
            |es| == 1 && (if c.blockConnReset then es[0].Blocked? else es[0].Unresolved?))
      && (reply.err.Some? && reply.err.value.OtherError? ==> |es| == 1 && es[0].Failed?)
      && (reply.err.None? && pc.placeholder.name != "gRPC" && reply.resp.value.error != "" ==>
            |es| == 1 && es[0].Failed?)
  {
    EffectRecorded(c, pc, reply);
  }

  // ----- Templates -----

  /** An exchange with a template that is answered without an error: unless it is routed, as it is or after
      its path is replaced, it ends the run; valid and without a reason to block it goes to the passed record,
      otherwise to the blocked one, with "method path" as its note. */
  lemma TemplateJudged(c: Config, t: Endpoint, a: Attempt)
    requires c.templates.Some? && a.reply.resp.Some? && a.reply.err.None?
    ensures var v, r := VerdictOf(c, ExchangeOf(t, a)), a.reply.resp.value;
      var blocking := (c.checkBlock.Some? && c.checkBlock.value(r)) || r.statusCode in c.blockStatusCodes
        || (c.blockRegex.Some? && exists h | h in r.headers :: c.blockRegex.value(h + ": " + r.headers[h]))
        || (c.blockRegex.Some? && r.content != "" && c.blockRegex.value(r.content));
      && v.resp == Some(r)
      && (a.route || a.routeByPath ==>
            v.decision == Note(if a.valid && !blocking then PassedSlot else BlockedSlot,
                               [t.httpMethod + " " + t.path]))
      && (!a.route && !a.routeByPath ==> v.decision == Refuse)
  {
    ReasonsDecide(c, a.reply.resp.value);
    NoteHasSpace(t);
  }

  lemma NoteHasSpace(t: Endpoint)
    ensures TemplateNote(t) == t.httpMethod + " " + t.path && HasSpace(TemplateNote(t)) && |TemplateNote(t)| > 0
  {
    assert TemplateNote(t)[|t.httpMethod|] == ' ';
  }

  /** Without a response: a reset that is not a block is unresolved, a failure is noted with its own
      message, and a reset that is a block dereferences the missing response. */
  lemma TemplateFails(c: Config, t: Endpoint, a: Attempt)
    requires c.templates.Some? && a.reply.err.Some?
    ensures var d := VerdictOf(c, ExchangeOf(t, a)).decision;
      match a.reply.err.value
      case OtherError(message) => d == Note(FailedSlot, [message])
      case ConnReset =>
        if !c.blockConnReset then d == Note(UnresolvedSlot, [t.httpMethod + " " + t.path])
        else if !a.route && !a.routeByPath then d == Refuse
        else a.reply.resp.None? ==> d == Crash
  {
    NoteHasSpace(t);
  }

  /** "method path" of those of the first `n` templates that are kept, in order. */
  function Marks(ts: seq<Endpoint>, keep: nat -> bool, n: nat): seq<string>
    requires n <= |ts|
  {
    if n == 0 then []
    else Marks(ts, keep, n - 1) + if keep(n - 1) then [ts[n - 1].httpMethod + " " + ts[n - 1].path] else []
  }

  /** The response conforms to the document and gives no reason to block. */
  function Through(c: Config, attempts: nat -> Attempt): nat -> bool {
    (i: nat) =>
      attempts(i).reply.resp.Some? && attempts(i).valid && !BlockReason(c, attempts(i).reply.resp.value)
  }

  /** A run over templates that returns no error, with every request answered: the passed record is
      annotated with the templates that the payload got through to, the blocked one with all others, in
      the order of the templates; nothing is unresolved or failed. */
  lemma RunSplitsTemplates(c: Config, pc: PayloadConfig, a: Answer, ts: seq<Endpoint>)
    requires c.templates.Some? && TemplateRun(c, pc, a).result.Done?
    requires var index, p := c.templates.value, pc.placeholder.name; ts == if p in index then index[p] else []
    requires forall i: nat | i < |ts| :: a.attempts(i).reply.resp.Some? && a.attempts(i).reply.err.None?
    ensures var vs, through := TemplateRun(c, pc, a).verdicts, Through(c, a.attempts);
      && SlotNotes(vs, PassedSlot) == Marks(ts, through, |ts|)
      && SlotNotes(vs, BlockedSlot) == Marks(ts, (i: nat) => !through(i), |ts|)
      && SlotNotes(vs, UnresolvedSlot) == SlotNotes(vs, FailedSlot) == []
  {
    var vs := TemplateRun(c, pc, a).verdicts;
    DoneNotesAll(c, ts, a.attempts, 0, [], []);
    forall i: nat | i < |ts| ensures vs[i].decision == Note(SlotFor(c, a.attempts, i), [TemplateNote(ts[i])]) {
      assert Exchanged(vs[i], c, ts[i], a.attempts(i));
      RoutedOrRefused(c, ts[i], a.attempts(i));
    }
    assert vs[..|vs|] == vs;
    MarksAre(c, ts, a.attempts, vs, |ts|);
  }

  function SlotFor(c: Config, attempts: nat -> Attempt, i: nat): Slot {
    if Through(c, attempts)(i) then PassedSlot else BlockedSlot
  }

  lemma RoutedOrRefused(c: Config, t: Endpoint, a: Attempt)
    requires c.templates.Some? && a.reply.resp.Some? && a.reply.err.None? && Noted(VerdictOf(c, ExchangeOf(t, a)))
    ensures VerdictOf(c, ExchangeOf(t, a)).decision ==
      Note(if a.valid && !BlockReason(c, a.reply.resp.value) then PassedSlot else BlockedSlot, [TemplateNote(t)])
  {
    ReasonsDecide(c, a.reply.resp.value);
    NoteHasSpace(t);
  }

  lemma {:induction false} MarksAre(c: Config, ts: seq<Endpoint>, attempts: nat -> Attempt, vs: seq<Verdict>, n: nat)
    requires n <= |ts| && |vs| == |ts|
    requires forall i: nat | i < |ts| ::
      vs[i].decision == Note(SlotFor(c, attempts, i), [ts[i].httpMethod + " " + ts[i].path])
    ensures SlotNotes(vs[..n], PassedSlot) == Marks(ts, Through(c, attempts), n)
    ensures SlotNotes(vs[..n], BlockedSlot) == Marks(ts, (i: nat) => !Through(c, attempts)(i), n)
    ensures SlotNotes(vs[..n], UnresolvedSlot) == SlotNotes(vs[..n], FailedSlot) == []
  {
    if n > 0 {
      MarksAre(c, ts, attempts, vs, n - 1);
      assert vs[..n][..n - 1] == vs[..n - 1];
      assert vs[..n][n - 1] == vs[n - 1];
      hide Through;
    }
  }

  /** The verdict is the first of its slot. */
  ghost predicate FirstInSlot(vs: seq<Verdict>, i: nat, slot: Slot) {
    i < |vs| && GoesTo(vs[i], slot) && forall j | 0 <= j < i :: !GoesTo(vs[j], slot)
  }

  /** The record of a slot is made from the first exchange that goes there: its effect is that of the
      slot, and its status code the one of that response. */
  lemma {:induction false} FirstOfSlotRecorded(c: Config, pc: PayloadConfig, vs: seq<Verdict>, i: nat, slot: Slot)
    requires FirstInSlot(vs, i, slot)
    ensures exists e :: e in RunEvents(c, pc, vs) && SlotOfEvent(e) == slot && RecordFor(e.rec, pc, vs[i].resp)
    decreases |vs|
  {
    var n := |vs| - 1;
    var before, v := vs[..n], vs[n];
    assert vs == before + [v];
    EventsAppend(c, pc, before, v);
    if i < n {
      assert FirstInSlot(before, i, slot);
      FirstOfSlotRecorded(c, pc, before, i, slot);
    } else {
      var e := EventOf(c, pc, slot, v.resp);
      assert e in NewEvents(c, pc, before, v);
      assert RecordFor(e.rec, pc, v.resp);
    }
  }

  /** With templates loaded, an item other than gRPC and GraphQL leaves the updates of its run.  Then, if that
      returned no error, one more for a plain request that fails, or that is reset while resets are not blocks;
      after an error the plain request is not sent. */
  lemma RunThenPlain(c: Config, pc: PayloadConfig, a: Answer) returns (more: seq<Event>)
    requires c.templates.Some? && Answered(a.reply) && pc.placeholder.name !in {"gRPC", "GraphQL"}
    ensures ItemEvents(c, pc, a) == RunEvents(c, pc, TemplateRun(c, pc, a).verdicts) + more
    ensures var f, err := EffectOf(c, pc, a.reply), a.reply.err;
      if TemplateRun(c, pc, a).result.Done? && (f.Broken? || (f.Unclear? && err.Some?))
      then |more| == 1 && Leaves(more[0], f, c, pc, a.reply.resp) else more == []
    ensures !TemplateRun(c, pc, a).result.Done? ==> ItemResult(c, pc, a) == TemplateRun(c, pc, a).result
  {
    more := if TemplateRun(c, pc, a).result.Done? then PlainEvents(c, pc, a.reply) else [];
    hide TemplateRun, RunEvents, Blocks, Passes, BlockReason, PassReason;
  }
}
