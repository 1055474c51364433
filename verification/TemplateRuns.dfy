/** What a run over OpenAPI templates adds up to (`sendOpenAPIRequests` and `updateDB` in
    `internal/scanner/scanner.go`): one `testStatus` is shared by all templates, so the first
    exchange of a slot makes a record and the later ones only annotate it. */
module TemplateRuns {
  import opened Wrappers
  import opened Order
  import opened Ledger
  import opened Outcomes

  /** What happens to one template: whether its request could be made, and the answer. */
  datatype Attempt = Attempt(created: bool, reply: Reply, route: bool, routeByPath: bool, valid: bool)

  /** All that the outside world answers to one item: whether its payload could be encoded, what
      happens to each template, and the reply to the plain exchange. */
  datatype Answer = Answer(encoded: bool, attempts: nat -> Attempt, reply: Reply)

  /** "method path", as it is appended to the additional information. */
  function TemplateNote(t: Endpoint): string { t.httpMethod + " " + t.path }

  function ExchangeOf(t: Endpoint, a: Attempt): Exchange {
    Exchange(true, a.reply.resp, a.reply.err, TemplateNote(t), false, a.route, a.routeByPath, a.valid)
  }

  /** A decided exchange, with the response the record is made from. */
  datatype Verdict = Verdict(decision: Decision, resp: Option<Response>)

  function VerdictOf(c: Config, x: Exchange): Verdict { Verdict(Decide(c, x), x.resp) }

  predicate Noted(v: Verdict) { v.decision.Note? }

  predicate GoesTo(v: Verdict, slot: Slot) { Noted(v) && v.decision.slot == slot }

  predicate Hit(vs: seq<Verdict>, slot: Slot) {
    exists i | 0 <= i < |vs| :: GoesTo(vs[i], slot)
  }

  /** The notes that reach a slot, in template order. */
  function SlotNotes(vs: seq<Verdict>, slot: Slot): seq<string> {
    if vs == [] then []
    else
      var v := vs[|vs| - 1];
      SlotNotes(vs[..|vs| - 1], slot) + if GoesTo(v, slot) then v.decision.notes else []
  }

  lemma {:induction false} NoHitNoNotes(vs: seq<Verdict>, slot: Slot)
    requires !Hit(vs, slot)
    ensures SlotNotes(vs, slot) == []
  {
    if vs != [] {
      var before := vs[..|vs| - 1];
      assert vs == before + [vs[|vs| - 1]];
      HitAppend(before, vs[|vs| - 1], slot);
      NoHitNoNotes(before, slot);
    }
  }

  /** The update a verdict makes after a run: one, unless its slot was reached before. */
  function NewEvents(c: Config, pc: PayloadConfig, before: seq<Verdict>, v: Verdict): seq<Event> {
    if Noted(v) && !Hit(before, v.decision.slot) then [EventOf(c, pc, v.decision.slot, v.resp)] else []
  }

  /** The ledger updates of a run. */
  function RunEvents(c: Config, pc: PayloadConfig, vs: seq<Verdict>): seq<Event> {
    if vs == [] then []
    else RunEvents(c, pc, vs[..|vs| - 1]) + NewEvents(c, pc, vs[..|vs| - 1], vs[|vs| - 1])
  }

  lemma HitAppend(vs: seq<Verdict>, v: Verdict, slot: Slot)
    ensures Hit(vs + [v], slot) <==> Hit(vs, slot) || GoesTo(v, slot)
  {
    if Hit(vs, slot) {
      var i :| 0 <= i < |vs| && GoesTo(vs[i], slot);
      assert GoesTo((vs + [v])[i], slot);
    }
    if GoesTo(v, slot) {
      assert GoesTo((vs + [v])[|vs|], slot);
    }
  }

  lemma NotesAppend(vs: seq<Verdict>, v: Verdict, slot: Slot)
    ensures SlotNotes(vs + [v], slot) == SlotNotes(vs, slot) + if GoesTo(v, slot) then v.decision.notes else []
  {
    assert (vs + [v])[..|vs|] == vs;
  }

  lemma EventsAppend(c: Config, pc: PayloadConfig, vs: seq<Verdict>, v: Verdict)
    ensures RunEvents(c, pc, vs + [v]) == RunEvents(c, pc, vs) + NewEvents(c, pc, vs, v)
  {
    assert (vs + [v])[..|vs|] == vs;
  }

  /** The slot an update belongs to. */
  function SlotOfEvent(e: Event): Slot {
    match e
    case Passed(_) => PassedSlot
    case Blocked(_) => BlockedSlot
    case Failed(_) => FailedSlot
    case Unresolved(_, _, _, _) => UnresolvedSlot
  }

  function InSlot(slot: Slot): Event -> bool { (e: Event) => SlotOfEvent(e) == slot }

  lemma CountNewEvents(c: Config, pc: PayloadConfig, before: seq<Verdict>, v: Verdict, slot: Slot)
    ensures CountIf(NewEvents(c, pc, before, v), InSlot(slot)) == if GoesTo(v, slot) && !Hit(before, slot) then 1 else 0
  {
    if Noted(v) {
      var e := EventOf(c, pc, v.decision.slot, v.resp);
      assert SlotOfEvent(e) == v.decision.slot;
      CountIfAppend([], e, InSlot(slot));
      assert [] + [e] == [e];
    }
  }

  /** A run makes one record in each ledger it reaches, and none in the others. */
  lemma {:induction false} OneRecordPerSlot(c: Config, pc: PayloadConfig, vs: seq<Verdict>, slot: Slot)
    ensures CountIf(RunEvents(c, pc, vs), InSlot(slot)) == if Hit(vs, slot) then 1 else 0
  {
    if vs != [] {
      var before, v := vs[..|vs| - 1], vs[|vs| - 1];
      assert before + [v] == vs;
      OneRecordPerSlot(c, pc, before, slot);
      HitAppend(before, v, slot);
      EventsAppend(c, pc, before, v);
      CountIfConcat(RunEvents(c, pc, before), NewEvents(c, pc, before, v), InSlot(slot));
      CountNewEvents(c, pc, before, v, slot);
    }
  }

  lemma {:induction false} RunSentAs(c: Config, pc: PayloadConfig, vs: seq<Verdict>)
    ensures forall e | e in RunEvents(c, pc, vs) :: SentAs(e, c, pc)
  {
    if vs != [] {
      RunSentAs(c, pc, vs[..|vs| - 1]);
    }
  }

  predicate NotedOnce(v: Verdict) { Noted(v) && |v.decision.notes| == 1 }

  /** Every template leaves exactly one note, in exactly one slot. */
  lemma {:induction false} NotesPartition(vs: seq<Verdict>)
    requires forall i | 0 <= i < |vs| :: NotedOnce(vs[i])
    ensures |SlotNotes(vs, PassedSlot)| + |SlotNotes(vs, BlockedSlot)|
          + |SlotNotes(vs, UnresolvedSlot)| + |SlotNotes(vs, FailedSlot)| == |vs|
  {
    if vs != [] {
      var n := |vs| - 1;
      NotesPartition(vs[..n]);
      assert NotedOnce(vs[n]);
    }
  }

  /** An exchange with a template is noted once, or not at all. */
  lemma TemplateNoted(c: Config, t: Endpoint, a: Attempt)
    ensures var v := VerdictOf(c, ExchangeOf(t, a)); Noted(v) ==> NotedOnce(v)
  {
    var x := ExchangeOf(t, a);
    assert |x.info| == |t.httpMethod| + 1 + |t.path|;
    NotesHaveText(c, x);
  }

  lemma NotesHaveText(c: Config, x: Exchange)
    ensures Decide(c, x).Note? ==> |Decide(c, x).notes| == if |x.info| != 0 then 1 else 0
  {
  }

  /** The ledger after one more exchange of a run. */
  lemma LedgerStep(c: Config, pc: PayloadConfig, vs: seq<Verdict>, v: Verdict, b0: Book, b: Book, b': Book)
    requires AllRegistered(b0.counters, RunEvents(c, pc, vs)) && b == Replay(b0, RunEvents(c, pc, vs))
    requires Registered(b.counters, Key(pc.setName, pc.caseName))
    requires Noted(v) && !Hit(vs, v.decision.slot) ==> b' == Post(b, EventOf(c, pc, v.decision.slot, v.resp))
    requires !Noted(v) || Hit(vs, v.decision.slot) ==> b' == b
    ensures AllRegistered(b0.counters, RunEvents(c, pc, vs + [v])) && b' == Replay(b0, RunEvents(c, pc, vs + [v]))
  {
    hide Replay, Post, RunEvents, EventOf;
    EventsAppend(c, pc, vs, v);
    if Noted(v) && !Hit(vs, v.decision.slot) {
      var e := EventOf(c, pc, v.decision.slot, v.resp);
      EventKey(c, pc, v.decision.slot, v.resp);
      assert Registered(b0.counters, KeyOf(e.rec));
      ReplayAppend(b0, RunEvents(c, pc, vs), e);
    } else {
      assert RunEvents(c, pc, vs + [v]) == RunEvents(c, pc, vs);
    }
  }

  lemma EventKey(c: Config, pc: PayloadConfig, slot: Slot, resp: Option<Response>)
    ensures KeyOf(EventOf(c, pc, slot, resp).rec) == Key(pc.setName, pc.caseName)
  {
  }

  // ----- How far a run gets -----

  /** `Done` is a nil error, `Refused` an error, `Crashed` a nil dereference. */
  datatype Result = Done | Refused | Crashed

  function ResultOf(d: Decision): Result {
    match d case Note(_, _) => Done case Refuse => Refused case Crash => Crashed
  }

  /** A run over templates: the exchanges made, what it returns, and the templates scanned. */
  datatype Run = Run(verdicts: seq<Verdict>, result: Result, scanned: seq<Key>)

  function PathOf(t: Endpoint): Key { Key(t.path, t.httpMethod) }

  /** Path and method of every template, in order. */
  function PathsOf(ts: seq<Endpoint>): seq<Key> {
    seq(|ts|, j requires 0 <= j < |ts| => Key(ts[j].path, ts[j].httpMethod))
  }

  /** The rest of a run, from template `i` on.  It stops at the first request that cannot be
      made and after the first exchange that is not noted.  A template is scanned once its
      exchange is handled, even when that ends the run with an error. */
  function RunFrom(c: Config, ts: seq<Endpoint>, attempts: nat -> Attempt, i: nat, vs: seq<Verdict>,
                   scanned: seq<Key>): Run
    requires i <= |ts|
    decreases |ts| - i
  {
    if i == |ts| then Run(vs, Done, scanned)
    else if !attempts(i).created then Run(vs, Refused, scanned)
    else
      var v := VerdictOf(c, ExchangeOf(ts[i], attempts(i)));
      var result := ResultOf(v.decision);
      if result.Crashed? then Run(vs + [v], result, scanned)
      else if !result.Done? then Run(vs + [v], result, scanned + [PathOf(ts[i])])
      else RunFrom(c, ts, attempts, i + 1, vs + [v], scanned + [PathOf(ts[i])])
  }

  predicate Exchanged(v: Verdict, c: Config, t: Endpoint, a: Attempt) {
    a.created && v == VerdictOf(c, ExchangeOf(t, a)) && Noted(v)
  }

  /** A run that returns no error has exchanged a request with every template, in order, noted
      each of them once, and scanned them all. */
  lemma {:induction false} DoneNotesAll(c: Config, ts: seq<Endpoint>, attempts: nat -> Attempt, i: nat,
                                        vs: seq<Verdict>, scanned: seq<Key>)
    requires i <= |ts| && |vs| == i
    ensures var run := RunFrom(c, ts, attempts, i, vs, scanned);
      run.result.Done? ==>
        && |run.verdicts| == |ts| && vs <= run.verdicts
        && (forall j | i <= j < |ts| :: Exchanged(run.verdicts[j], c, ts[j], attempts(j)))
        && run.scanned == scanned + PathsOf(ts[i..])
    decreases |ts| - i
  {
    hide Decide;
    if i < |ts| && attempts(i).created {
      var v := VerdictOf(c, ExchangeOf(ts[i], attempts(i)));
      if ResultOf(v.decision).Done? {
        DoneNotesAll(c, ts, attempts, i + 1, vs + [v], scanned + [PathOf(ts[i])]);
      }
    }
  }

  /** Its request is made and its exchange noted. */
  predicate Passable(c: Config, t: Endpoint, a: Attempt) {
    a.created && Decide(c, ExchangeOf(t, a)).Note?
  }

  /** A run ends at the first template that cannot be passed: without an exchange when its request cannot
      be made, otherwise with one, after which a refused template is scanned and a crash leaves it out. */
  lemma {:induction false} RunStops(c: Config, ts: seq<Endpoint>, attempts: nat -> Attempt, i: nat, n: nat,
                                    vs: seq<Verdict>, scanned: seq<Key>)
    requires i <= n < |ts| && |vs| == i
    requires (forall j: nat | i <= j < n :: Passable(c, ts[j], attempts(j))) && !Passable(c, ts[n], attempts(n))
    ensures var run, d := RunFrom(c, ts, attempts, i, vs, scanned), Decide(c, ExchangeOf(ts[n], attempts(n)));
      var made, refused := attempts(n).created, d == Refuse;
      && run.result == (if !made || refused then Refused else Crashed)
      && |run.verdicts| == (if made then n + 1 else n) && vs <= run.verdicts
      && (forall j | i <= j < |run.verdicts| :: run.verdicts[j] == VerdictOf(c, ExchangeOf(ts[j], attempts(j))))
      && run.scanned == scanned + PathsOf(if made && refused then ts[i..n + 1] else ts[i..n])
    decreases n - i
  {
    hide *;
    if i < n {
      var v := VerdictOf(c, ExchangeOf(ts[i], attempts(i)));
      RunGoesOn(c, ts, attempts, i, vs, scanned);
      RunStops(c, ts, attempts, i + 1, n, vs + [v], scanned + [PathOf(ts[i])]);
      PathsCons(ts, i, n);
      PathsCons(ts, i, n + 1);
    } else {
      RunEnds(c, ts, attempts, i, vs, scanned);
    }
  }

  lemma RunGoesOn(c: Config, ts: seq<Endpoint>, attempts: nat -> Attempt, i: nat, vs: seq<Verdict>, scanned: seq<Key>)
    requires i < |ts| && Passable(c, ts[i], attempts(i))
    ensures RunFrom(c, ts, attempts, i, vs, scanned) ==
      RunFrom(c, ts, attempts, i + 1, vs + [VerdictOf(c, ExchangeOf(ts[i], attempts(i)))], scanned + [PathOf(ts[i])])
  {
    hide Decide;
  }

  lemma RunEnds(c: Config, ts: seq<Endpoint>, attempts: nat -> Attempt, i: nat, vs: seq<Verdict>, scanned: seq<Key>)
    requires i < |ts| && !Passable(c, ts[i], attempts(i))
    ensures var run, d := RunFrom(c, ts, attempts, i, vs, scanned), Decide(c, ExchangeOf(ts[i], attempts(i)));
      var made, refused := attempts(i).created, d == Refuse;
      && run.result == (if !made || refused then Refused else Crashed)
      && run.verdicts == vs + (if made then [VerdictOf(c, ExchangeOf(ts[i], attempts(i)))] else [])
      && run.scanned == scanned + PathsOf(if made && refused then ts[i..i + 1] else ts[i..i])
  {
    hide Decide;
  }

  lemma PathsCons(ts: seq<Endpoint>, i: nat, n: nat)
    requires i < n <= |ts|
    ensures PathsOf(ts[i..n]) == [PathOf(ts[i])] + PathsOf(ts[i + 1..n])
  {
  }

  /** After a run that returns no error the notes over the four slots sum to the number of
      templates, and each ledger has at most one new record. */
  lemma DoneRunAddsUp(c: Config, pc: PayloadConfig, a: Answer)
    requires TemplateRun(c, pc, a).result.Done?
    ensures var vs, p := TemplateRun(c, pc, a).verdicts, pc.placeholder.name;
      && |SlotNotes(vs, PassedSlot)| + |SlotNotes(vs, BlockedSlot)|
         + |SlotNotes(vs, UnresolvedSlot)| + |SlotNotes(vs, FailedSlot)|
         == (if c.templates.Some? && p in c.templates.value then |c.templates.value[p]| else 0)
      && forall slot :: CountIf(RunEvents(c, pc, vs), InSlot(slot)) <= 1
  {
    var ts, vs := TemplatesFor(c, pc), TemplateRun(c, pc, a).verdicts;
    DoneNotesAll(c, ts, a.attempts, 0, [], []);
    forall i | 0 <= i < |vs| ensures NotedOnce(vs[i]) {
      assert Exchanged(vs[i], c, ts[i], a.attempts(i));
      TemplateNoted(c, ts[i], a.attempts(i));
    }
    NotesPartition(vs);
    forall slot ensures CountIf(RunEvents(c, pc, vs), InSlot(slot)) <= 1 {
      OneRecordPerSlot(c, pc, vs, slot);
    }
  }

  // ----- One item on its own -----

  /** A single exchange with a fresh `testStatus` is a run of one. */
  lemma SingleRun(c: Config, pc: PayloadConfig, x: Exchange)
    ensures RunEvents(c, pc, [VerdictOf(c, x)])
         == if Decide(c, x).Note? then [EventOf(c, pc, Decide(c, x).slot, x.resp)] else []
  {
    var v := VerdictOf(c, x);
    assert [v][..0] == [];
  }

  function PlainResult(c: Config, pc: PayloadConfig, reply: Reply): Result {
    if Skipped(c, pc) then Done else ResultOf(Decide(c, PlainExchange(pc, reply)))
  }

  /** The templates indexed under the placeholder of an item. */
  function TemplatesFor(c: Config, pc: PayloadConfig): seq<Endpoint> {
    if c.templates.Some? && pc.placeholder.name in c.templates.value then c.templates.value[pc.placeholder.name] else []
  }

  predicate TemplatesFirst(c: Config, pc: PayloadConfig) {
    pc.placeholder.name != GRPC && pc.placeholder.name != GRAPHQL && c.templates.Some?
  }

  /** A payload that cannot be encoded is not sent. */
  function TemplateRun(c: Config, pc: PayloadConfig, a: Answer): Run {
    if a.encoded then RunFrom(c, TemplatesFor(c, pc), a.attempts, 0, [], []) else Run([], Refused, [])
  }

  /** Everything one item adds to the ledger: with templates loaded, first their run, then, if
      that returned no error, the plain exchange. */
  function ItemEvents(c: Config, pc: PayloadConfig, a: Answer): seq<Event> {
    if TemplatesFirst(c, pc) then
      var run := TemplateRun(c, pc, a);
      RunEvents(c, pc, run.verdicts) + if run.result.Done? then PlainEvents(c, pc, a.reply) else []
    else PlainEvents(c, pc, a.reply)
  }

  /** What `sendPayload` returns. */
  function ItemResult(c: Config, pc: PayloadConfig, a: Answer): Result {
    if TemplatesFirst(c, pc) && !TemplateRun(c, pc, a).result.Done? then TemplateRun(c, pc, a).result
    else PlainResult(c, pc, a.reply)
  }

  /** Whatever the mode, an item never touches a key but its own, and its unresolved updates
      carry the flags of the scan and its own polarity. */
  lemma ItemSentAs(c: Config, pc: PayloadConfig, a: Answer)
    ensures forall e | e in ItemEvents(c, pc, a) :: SentAs(e, c, pc)
  {
    RunSentAs(c, pc, TemplateRun(c, pc, a).verdicts);
    PlainSentAs(c, pc, a.reply);
  }

  lemma PlainSentAs(c: Config, pc: PayloadConfig, reply: Reply)
    ensures forall e | e in PlainEvents(c, pc, reply) :: SentAs(e, c, pc)
  {
  }
}
