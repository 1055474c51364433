/** The scanner of `internal/scanner/scanner.go`: how the outcome of every exchange reaches the
    results database.  The network and the router are given answers (`Reply`, `Attempt`). */
module Scanner {
  import opened Wrappers
  import opened Order
  import opened Ledger
  import opened Outcomes
  import opened TemplateRuns
  import opened Database
  import opened Tables

  /** `testStatus`: the record of each ledger that the current item has made so far. */
  class TestStatus {
    var passedTest: Info?
    var blockedTest: Info?
    var unresolvedTest: Info?
    var failedTest: Info?

    constructor ()
      ensures Valid() && Records() == {null}
      ensures forall slot :: At(slot) == null
    {
      passedTest, blockedTest, unresolvedTest, failedTest := null, null, null, null;
    }

    function At(slot: Slot): Info?
      reads this
    {
      match slot
      case PassedSlot => passedTest
      case BlockedSlot => blockedTest
      case UnresolvedSlot => unresolvedTest
      case FailedSlot => failedTest
    }

    /** No record is in two slots. */
    ghost predicate Valid()
      reads this
    {
      && (passedTest == null || (passedTest != blockedTest && passedTest != unresolvedTest && passedTest != failedTest))
      && (blockedTest == null || (blockedTest != unresolvedTest && blockedTest != failedTest))
      && (unresolvedTest == null || unresolvedTest != failedTest)
    }

    ghost function Records(): set<Info?>
      reads this
    {
      {passedTest, blockedTest, unresolvedTest, failedTest}
    }

    method Put(slot: Slot, o: Info)
      modifies this
      ensures passedTest == if slot == PassedSlot then o else old(passedTest)
      ensures blockedTest == if slot == BlockedSlot then o else old(blockedTest)
      ensures unresolvedTest == if slot == UnresolvedSlot then o else old(unresolvedTest)
      ensures failedTest == if slot == FailedSlot then o else old(failedTest)
    {
      match slot {
        case PassedSlot => passedTest := o;
        case BlockedSlot => blockedTest := o;
        case UnresolvedSlot => unresolvedTest := o;
        case FailedSlot => failedTest := o;
      }
    }
  }

  ghost function NotesOf(o: Info?): seq<string>
    reads o
  {
    if o == null then [] else o.additionalInfo
  }

  /** A slot: its record, what that record is annotated with, and the list it belongs to. */
  datatype Cell = Cell(o: Info?, notes: seq<string>, list: seq<Info>)

  datatype Cells = Cells(passed: Cell, blocked: Cell, unresolved: Cell, failed: Cell)

  /** The slot after the exchanges `vs` of a run, its list having grown from `l0`. */
  ghost predicate CellState(x: Cell, l0: seq<Info>, vs: seq<Verdict>, s: Slot) {
    && (x.o != null <==> Hit(vs, s))
    && (x.o != null ==> x.notes == SlotNotes(vs, s))
    && x.list == l0 + if x.o != null then [x.o] else []
  }

  /** A slot is filled once it is hit, it annotates one record, and that is the one listed. */
  ghost predicate CellsState(x: Cells, l0: Lists, vs: seq<Verdict>) {
    && CellState(x.passed, l0.passed, vs, PassedSlot) && CellState(x.blocked, l0.blocked, vs, BlockedSlot)
    && CellState(x.unresolved, l0.na, vs, UnresolvedSlot) && CellState(x.failed, l0.failed, vs, FailedSlot)
  }

  /** What one verdict does to a slot. */
  ghost predicate CellStep(x: Cell, x': Cell, v: Verdict, s: Slot) {
    if !GoesTo(v, s) then x' == x
    else if x.o != null then x' == Cell(x.o, x.notes + v.decision.notes, x.list)
    else x'.o != null && x'.notes == v.decision.notes && x'.list == x.list + [x'.o]
  }

  ghost predicate CellsStep(x: Cells, x': Cells, v: Verdict) {
    && CellStep(x.passed, x'.passed, v, PassedSlot) && CellStep(x.blocked, x'.blocked, v, BlockedSlot)
    && CellStep(x.unresolved, x'.unresolved, v, UnresolvedSlot) && CellStep(x.failed, x'.failed, v, FailedSlot)
  }

  lemma CellAfter(x: Cell, x': Cell, l0: seq<Info>, vs: seq<Verdict>, v: Verdict, s: Slot)
    requires CellState(x, l0, vs, s) && CellStep(x, x', v, s)
    ensures CellState(x', l0, vs + [v], s)
  {
    HitAppend(vs, v, s);
    NotesAppend(vs, v, s);
    if !GoesTo(v, s) {
      assert SlotNotes(vs + [v], s) == SlotNotes(vs, s);
    } else if x.o == null {
      NoHitNoNotes(vs, s);
    }
  }

  lemma CellsAfter(x: Cells, x': Cells, l0: Lists, vs: seq<Verdict>, v: Verdict)
    requires CellsState(x, l0, vs) && CellsStep(x, x', v)
    ensures CellsState(x', l0, vs + [v])
  {
    CellAfter(x.passed, x'.passed, l0.passed, vs, v, PassedSlot);
    CellAfter(x.blocked, x'.blocked, l0.blocked, vs, v, BlockedSlot);
    CellAfter(x.unresolved, x'.unresolved, l0.na, vs, v, UnresolvedSlot);
    CellAfter(x.failed, x'.failed, l0.failed, vs, v, FailedSlot);
  }

  function CellAt(x: Cells, s: Slot): Cell {
    match s
    case PassedSlot => x.passed
    case BlockedSlot => x.blocked
    case UnresolvedSlot => x.unresolved
    case FailedSlot => x.failed
  }

  /** The verdict is the first of its slot. */
  predicate First(x: Cells, v: Verdict) { Noted(v) && CellAt(x, v.decision.slot).o == null }

  /** The ledger after a verdict. */
  function PostIf(first: bool, b: Book, c: Config, pc: PayloadConfig, v: Verdict): Book
    requires Registered(b.counters, Key(pc.setName, pc.caseName)) && (first ==> Noted(v))
  {
    if first then Post(b, EventOf(c, pc, v.decision.slot, v.resp)) else b
  }

  /** The record of a slot is annotated. */
  function Annotated(x: Cells, s: Slot, notes: seq<string>): Cells {
    match s
    case PassedSlot => x.(passed := AnnotatedCell(x.passed, notes))
    case BlockedSlot => x.(blocked := AnnotatedCell(x.blocked, notes))
    case UnresolvedSlot => x.(unresolved := AnnotatedCell(x.unresolved, notes))
    case FailedSlot => x.(failed := AnnotatedCell(x.failed, notes))
  }

  function AnnotatedCell(x: Cell, notes: seq<string>): Cell { Cell(x.o, x.notes + notes, x.list) }

  /** Making a record and annotating it is one step. */
  lemma BeginThenAnnotate(x: Cells, y: Cells, s: Slot, notes: seq<string>, resp: Option<Response>)
    requires if CellAt(x, s).o == null then CellsStep(x, y, Verdict(Note(s, []), resp)) else y == x
    ensures CellsStep(x, Annotated(y, s, notes), Verdict(Note(s, notes), resp))
  {
  }

  lemma RunStart(c: Config, pc: PayloadConfig, x: Cells, b0: Book, l0: Lists)
    requires Registered(b0.counters, Key(pc.setName, pc.caseName))
    requires x == Cells(Cell(null, [], l0.passed), Cell(null, [], l0.blocked),
                        Cell(null, [], l0.na), Cell(null, [], l0.failed))
    ensures RunValue(c, pc, x, b0, [], l0, b0)
  {
  }

  /** A run, one verdict later. */
  lemma RunStep(x: Cells, x': Cells, l0: Lists, vs: seq<Verdict>, v: Verdict,
                c: Config, pc: PayloadConfig, b0: Book, b: Book, b': Book)
    requires RunValue(c, pc, x, b, vs, l0, b0)
    requires CellsStep(x, x', v) && b' == PostIf(First(x, v), b, c, pc, v)
    ensures RunValue(c, pc, x', b', vs + [v], l0, b0)
  {
    CellsAfter(x, x', l0, vs, v);
    if Noted(v) {
      FilledIffHit(x, l0, vs, v.decision.slot);
    }
    LedgerStep(c, pc, vs, v, b0, b, b');
  }

  lemma FilledIffHit(x: Cells, l0: Lists, vs: seq<Verdict>, s: Slot)
    requires CellsState(x, l0, vs)
    ensures CellAt(x, s).o != null <==> Hit(vs, s)
  {
  }

  /** The slots, lists and ledger after the exchanges `vs` for `pc`, counted from `l0` and `b0`. */
  ghost predicate RunValue(c: Config, pc: PayloadConfig, x: Cells, b: Book, vs: seq<Verdict>, l0: Lists, b0: Book) {
    && CellsState(x, l0, vs)
    && Registered(b.counters, Key(pc.setName, pc.caseName))
    && AllRegistered(b0.counters, RunEvents(c, pc, vs))
    && b == Replay(b0, RunEvents(c, pc, vs))
  }

  /** A run lists no record but those of its slots. */
  lemma RunLists(c: Config, pc: PayloadConfig, x: Cells, b: Book, vs: seq<Verdict>, l0: Lists, b0: Book, l: Lists,
                 records: set<Info?>)
    requires RunValue(c, pc, x, b, vs, l0, b0)
    requires l == Lists(x.passed.list, x.blocked.list, x.failed.list, x.unresolved.list)
    requires records == {x.passed.o, x.blocked.o, x.unresolved.o, x.failed.o}
    ensures forall o: Info | o in InfosOf(l) && o !in InfosOf(l0) :: o in records
  {
  }

  class Scanner {
    const cfg: Config
    const db: DB

    constructor (cfg: Config, db: DB)
      ensures this.cfg == cfg && this.db == db
    {
      this.cfg, this.db := cfg, db;
    }

    /** The four `Update*` calls. */
    method Update(slot: Slot, o: Info, isTruePositive: bool)
      requires Registered(db.counters, KeyOf(o.rec))
      modifies db`counters, db`passedTests, db`blockedTests, db`failedTests, db`naTests
      ensures db.Contents() == Post(old(db.Contents()),
        match slot
        case PassedSlot => Passed(o.rec)
        case BlockedSlot => Blocked(o.rec)
        case FailedSlot => Failed(o.rec)
        case UnresolvedSlot => Unresolved(o.rec, cfg.ignoreUnresolved, cfg.nonBlockedAsPassed, isTruePositive))
      ensures db.passedTests == if slot == PassedSlot then old(db.passedTests) + [o] else old(db.passedTests)
      ensures db.blockedTests == if slot == BlockedSlot then old(db.blockedTests) + [o] else old(db.blockedTests)
      ensures db.naTests == if slot == UnresolvedSlot then old(db.naTests) + [o] else old(db.naTests)
      ensures db.failedTests == if slot == FailedSlot then old(db.failedTests) + [o] else old(db.failedTests)
    {
      match slot {
        case PassedSlot => db.UpdatePassedTests(o);
        case BlockedSlot => db.UpdateBlockedTests(o);
        case FailedSlot => db.UpdateFailedTests(o);
        case UnresolvedSlot => db.UpdateNaTests(o, cfg.ignoreUnresolved, cfg.nonBlockedAsPassed, isTruePositive);
      }
    }

    /** The slots of an item, with the lists of the database. */
    ghost function View(ts: TestStatus): Cells
      reads db, ts, ts.Records()
    {
      Cells(Cell(ts.passedTest, NotesOf(ts.passedTest), db.passedTests),
            Cell(ts.blockedTest, NotesOf(ts.blockedTest), db.blockedTests),
            Cell(ts.unresolvedTest, NotesOf(ts.unresolvedTest), db.naTests),
            Cell(ts.failedTest, NotesOf(ts.failedTest), db.failedTests))
    }

    /** The idiom at every end of `updateDB`: the first exchange of a slot makes its record, and
        each one annotates it when there is additional information. */
    method NoteIn(pc: PayloadConfig, ts: TestStatus, info: Info, additionalInfo: string, text: string, slot: Slot,
                  ghost v: Verdict)
      requires Registered(db.counters, Key(pc.setName, pc.caseName)) && ts.Valid()
      requires info !in ts.Records() && info.rec == RecordOf(pc, v.resp) && info.additionalInfo == []
      requires v.decision == Note(slot, NoteOf(additionalInfo, text))
      modifies db`counters, db`passedTests, db`blockedTests, db`failedTests, db`naTests
      modifies ts, info, ts.Records()
      ensures ts.Valid() && ts.Records() <= old(ts.Records()) + {info}
      ensures CellsStep(old(View(ts)), View(ts), v)
      ensures db.Contents() == PostIf(old(First(View(ts), v)), old(db.Contents()), cfg, pc, v)
    {
      hide CellsStep, Annotated;
      if ts.At(slot) == null {
        Begin(pc, ts, info, slot, v);
      }
      BeginThenAnnotate(old(View(ts)), View(ts), slot, v.decision.notes, v.resp);
      Annotate(ts, slot, additionalInfo, text);
    }

    method Annotate(ts: TestStatus, slot: Slot, additionalInfo: string, text: string)
      requires ts.Valid() && ts.At(slot) != null
      modifies ts.At(slot)
      ensures View(ts) == Annotated(old(View(ts)), slot, NoteOf(additionalInfo, text))
    {
      var o := ts.At(slot);
      if |additionalInfo| != 0 {
        o.additionalInfo := o.additionalInfo + [text];
      }
    }

    /** The first record of a slot. */
    method Begin(pc: PayloadConfig, ts: TestStatus, info: Info, slot: Slot, ghost v: Verdict)
      requires Registered(db.counters, Key(pc.setName, pc.caseName)) && ts.Valid()
      requires info !in ts.Records() && info.rec == RecordOf(pc, v.resp) && info.additionalInfo == []
      requires ts.At(slot) == null
      modifies db`counters, db`passedTests, db`blockedTests, db`failedTests, db`naTests, ts
      ensures ts.Valid() && ts.At(slot) == info && ts.Records() <= old(ts.Records()) + {info}
      ensures CellsStep(old(View(ts)), View(ts), Verdict(Note(slot, []), v.resp))
      ensures db.Contents() == Post(old(db.Contents()), EventOf(cfg, pc, slot, v.resp))
    {
      ts.Put(slot, info);
      Update(slot, info, pc.isTruePositive);
    }

    /** The end of `updateDB`, once the exchange is known to be blocked or passed. */
    method Conclude(pc: PayloadConfig, ts: TestStatus, info: Info, x: Exchange, blocked: bool, passed: bool,
                    ghost v: Verdict)
      returns (result: Result)
      requires Registered(db.counters, Key(pc.setName, pc.caseName)) && ts.Valid()
      requires info !in ts.Records() && info.rec == RecordOf(pc, v.resp) && info.additionalInfo == []
      requires v == Verdict(Judge(cfg, x, blocked, passed), x.resp)
      modifies db`counters, db`passedTests, db`blockedTests, db`failedTests, db`naTests
      modifies ts, info, ts.Records()
      ensures ts.Valid() && result == ResultOf(v.decision)
      ensures ts.Records() <= old(ts.Records()) + {info}
      ensures CellsStep(old(View(ts)), View(ts), v)
      ensures db.Contents() == PostIf(old(First(View(ts), v)), old(db.Contents()), cfg, pc, v)
    {
      if cfg.templates.Some? && !x.isGRPC {
        if !x.hasRequest {
          return Refused;
        }
        if !x.route {
          if !HasSpace(x.info) || !x.routeByPath {
            return Refused;
          }
        }
        if x.resp.None? {
          return Crashed;
        }
        if x.valid && !blocked {
          NoteIn(pc, ts, info, x.info, x.info, PassedSlot, v);
        } else {
          NoteIn(pc, ts, info, x.info, x.info, BlockedSlot, v);
        }
        return Done;
      }
      if (blocked && passed) || (!blocked && !passed) {
        NoteIn(pc, ts, info, x.info, x.info, UnresolvedSlot, v);
      } else if blocked {
        NoteIn(pc, ts, info, x.info, x.info, BlockedSlot, v);
      } else {
        NoteIn(pc, ts, info, x.info, x.info, PassedSlot, v);
      }
      return Done;
    }

    /** `updateDB`. */
    method UpdateDB(pc: PayloadConfig, ts: TestStatus, x: Exchange) returns (result: Result)
      requires Registered(db.counters, Key(pc.setName, pc.caseName)) && ts.Valid()
      modifies db`counters, db`passedTests, db`blockedTests, db`failedTests, db`naTests
      modifies ts, ts.Records()
      ensures ts.Valid()
      ensures result == ResultOf(Decide(cfg, x))
      ensures forall o | o in ts.Records() && o !in old(ts.Records()) :: fresh(o)
      ensures CellsStep(old(View(ts)), View(ts), VerdictOf(cfg, x))
      ensures db.Contents() ==
        PostIf(old(First(View(ts), VerdictOf(cfg, x))), old(db.Contents()), cfg, pc, VerdictOf(cfg, x))
    {
      var info := new Info(RecordOf(pc, x.resp));
      ghost var v := VerdictOf(cfg, x);
      var blockedByReset := false;
      match x.err {
        case Some(ConnReset) =>
          if cfg.blockConnReset {
            blockedByReset := true;
          } else {
            NoteIn(pc, ts, info, x.info, x.info, UnresolvedSlot, v);
            return Done;
          }
        case Some(OtherError(message)) =>
          NoteIn(pc, ts, info, x.info, message, FailedSlot, v);
          return Done;
        case None =>
      }
      var blocked, passed := true, false;
      if !blockedByReset {
        if x.resp.None? {
          return Crashed;
        }
        blocked, passed := CheckBlockedOrPassed(cfg, x.resp.value);
      }
      result := Conclude(pc, ts, info, x, blocked, passed, v);
    }

    // ----- A run over templates -----

    /** After the exchanges `vs` for `pc`, counted from the lists `l0` and the ledger `b0`: each
        slot holds the one record it added to its list, annotated once per exchange that went
        there, and the ledger has one update for each slot reached. */
    ghost predicate RunState(pc: PayloadConfig, ts: TestStatus, vs: seq<Verdict>, l0: Lists, b0: Book)
      reads db, ts, ts.Records()
    {
      ts.Valid() && RunValue(cfg, pc, View(ts), db.Contents(), vs, l0, b0)
    }

    method Handle(pc: PayloadConfig, ts: TestStatus, x: Exchange, ghost vs: seq<Verdict>, ghost l0: Lists,
                  ghost b0: Book)
      returns (result: Result)
      requires RunState(pc, ts, vs, l0, b0)
      modifies db`counters, db`passedTests, db`blockedTests, db`failedTests, db`naTests
      modifies ts, ts.Records()
      ensures forall o | o in ts.Records() && o !in old(ts.Records()) :: fresh(o)
      ensures result == ResultOf(Decide(cfg, x)) && RunState(pc, ts, vs + [VerdictOf(cfg, x)], l0, b0)
    {
      ghost var b, before := db.Contents(), View(ts);
      result := UpdateDB(pc, ts, x);
      RunStep(before, View(ts), l0, vs, VerdictOf(cfg, x), cfg, pc, b0, b, db.Contents());
    }

    method AddPath(pc: PayloadConfig, ts: TestStatus, t: Endpoint, ghost vs: seq<Verdict>, ghost l0: Lists,
                   ghost b0: Book)
      requires RunState(pc, ts, vs, l0, b0)
      modifies db`scannedPaths
      ensures RunState(pc, ts, vs, l0, b0)
      ensures db.scannedPaths == AddScanned(old(db.scannedPaths), PathOf(t))
    {
      ghost var x, b := View(ts), db.Contents();
      db.AddToScannedPaths(t.httpMethod, t.path);
      assert View(ts) == x && db.Contents() == b;
    }

    /** `sendOpenAPIRequests`: every template indexed under the placeholder, with one shared
        `testStatus`. */
    method SendOpenAPIRequests(pc: PayloadConfig, a: Answer) returns (result: Result, ts: TestStatus)
      requires Registered(db.counters, Key(pc.setName, pc.caseName))
      modifies db`counters, db`passedTests, db`blockedTests, db`failedTests, db`naTests, db`scannedPaths
      ensures fresh(ts) && RunState(pc, ts, TemplateRun(cfg, pc, a).verdicts, old(db.AllLists()), old(db.Contents()))
      ensures result == TemplateRun(cfg, pc, a).result
      ensures fresh(ts.Records() - {null})
      ensures db.scannedPaths == ScanAll(old(db.scannedPaths), TemplateRun(cfg, pc, a).scanned)
    {
      hide RunValue, Decide;
      ts := new TestStatus();
      RunStart(cfg, pc, View(ts), db.Contents(), db.AllLists());
      if !a.encoded {
        return Refused, ts;
      }
      ghost var l0, b0, vs, scanned := db.AllLists(), db.Contents(), [], [];
      var templates := TemplatesFor(cfg, pc);
      for i := 0 to |templates|
        invariant RunState(pc, ts, vs, l0, b0)
        invariant fresh(ts.Records() - {null})
        invariant db.scannedPaths == ScanAll(old(db.scannedPaths), scanned)
        invariant i == |vs| && RunFrom(cfg, templates, a.attempts, i, vs, scanned) == TemplateRun(cfg, pc, a)
      {
        if !a.attempts(i).created {
          return Refused, ts;
        }
        var x := ExchangeOf(templates[i], a.attempts(i));
        result := Handle(pc, ts, x, vs, l0, b0);
        vs := vs + [VerdictOf(cfg, x)];
        if result.Crashed? {
          return;
        }
        AddPath(pc, ts, templates[i], vs, l0, b0);
        ScanAllAppend(old(db.scannedPaths), scanned, PathOf(templates[i]));
        scanned := scanned + [PathOf(templates[i])];
        if !result.Done? {
          return;
        }
      }
      result := Done;
    }

    /** An exchange with a `testStatus` of its own. */
    method SendAlone(pc: PayloadConfig, x: Exchange) returns (result: Result)
      requires Registered(db.counters, Key(pc.setName, pc.caseName))
      modifies db`counters, db`passedTests, db`blockedTests, db`failedTests, db`naTests
      ensures result == ResultOf(Decide(cfg, x))
      ensures AllRegistered(old(db.counters), RunEvents(cfg, pc, [VerdictOf(cfg, x)]))
      ensures forall o | o in db.Infos() && o !in old(db.Infos()) :: fresh(o)
      ensures db.Contents() == Replay(old(db.Contents()), RunEvents(cfg, pc, [VerdictOf(cfg, x)]))
    {
      hide Decide, VerdictOf, CellsState, RunEvents, Replay, AllRegistered;
      var ts := new TestStatus();
      ghost var l0, b0 := db.AllLists(), db.Contents();
      RunStart(cfg, pc, View(ts), b0, l0);
      result := Handle(pc, ts, x, [], l0, b0);
      assert [] + [VerdictOf(cfg, x)] == [VerdictOf(cfg, x)];
      hide RunValue, InfosOf;
      RunLists(cfg, pc, View(ts), db.Contents(), [VerdictOf(cfg, x)], l0, b0, db.AllLists(), ts.Records());
    }

    /** `sendGrpcRequest`. */
    method SendGrpcRequest(pc: PayloadConfig, reply: Reply) returns (result: Result)
      requires Registered(db.counters, Key(pc.setName, pc.caseName)) && pc.placeholder.name == GRPC
      modifies db`counters, db`passedTests, db`blockedTests, db`failedTests, db`naTests
      ensures result == PlainResult(cfg, pc, reply)
      ensures AllRegistered(old(db.counters), PlainEvents(cfg, pc, reply))
      ensures forall o | o in db.Infos() && o !in old(db.Infos()) :: fresh(o)
      ensures db.Contents() == Replay(old(db.Contents()), PlainEvents(cfg, pc, reply))
    {
      hide Decide;
      if !cfg.grpcAvailable {
        return Done;
      }
      var x := Exchange(false, reply.resp, reply.err, "", true, false, false, false);
      SingleRun(cfg, pc, x);
      result := SendAlone(pc, x);
    }

    /** `sendGraphQLRequest`. */
    method SendGraphQLRequest(pc: PayloadConfig, reply: Reply) returns (result: Result)
      requires Registered(db.counters, Key(pc.setName, pc.caseName)) && pc.placeholder.name == GRAPHQL
      modifies db`counters, db`passedTests, db`blockedTests, db`failedTests, db`naTests
      ensures result == PlainResult(cfg, pc, reply)
      ensures AllRegistered(old(db.counters), PlainEvents(cfg, pc, reply))
      ensures forall o | o in db.Infos() && o !in old(db.Infos()) :: fresh(o)
      ensures db.Contents() == Replay(old(db.Contents()), PlainEvents(cfg, pc, reply))
    {
      hide Decide;
      if !cfg.graphQLAvailable {
        return Done;
      }
      var err := reply.err;
      if err.None? && reply.resp.Some? && reply.resp.value.error != "" {
        err := Some(OtherError(reply.resp.value.error));
      }
      var x := Exchange(false, reply.resp, err, "", false, false, false, false);
      SingleRun(cfg, pc, x);
      result := SendAlone(pc, x);
    }

    /** `sendRequest`. */
    method SendRequest(pc: PayloadConfig, reply: Reply) returns (result: Result)
      requires Registered(db.counters, Key(pc.setName, pc.caseName))
      requires pc.placeholder.name != GRPC && pc.placeholder.name != GRAPHQL
      modifies db`counters, db`passedTests, db`blockedTests, db`failedTests, db`naTests
      ensures result == PlainResult(cfg, pc, reply)
      ensures AllRegistered(old(db.counters), PlainEvents(cfg, pc, reply))
      ensures forall o | o in db.Infos() && o !in old(db.Infos()) :: fresh(o)
      ensures db.Contents() == Replay(old(db.Contents()), PlainEvents(cfg, pc, reply))
    {
      hide Decide;
      var err := reply.err;
      if err.None? && reply.resp.Some? && reply.resp.value.error != "" {
        err := Some(OtherError(reply.resp.value.error));
      }
      var x := Exchange(false, reply.resp, err, "", false, false, false, false);
      SingleRun(cfg, pc, x);
      result := SendAlone(pc, x);
    }

    /** `sendPayload`: the ledger afterwards is the one the item's updates lead to. */
    method SendPayload(pc: PayloadConfig, a: Answer) returns (result: Result)
      requires Registered(db.counters, Key(pc.setName, pc.caseName))
      modifies db`counters, db`passedTests, db`blockedTests, db`failedTests, db`naTests, db`scannedPaths
      ensures result == ItemResult(cfg, pc, a)
      ensures AllRegistered(old(db.counters), ItemEvents(cfg, pc, a))
      ensures forall o | o in db.Infos() && o !in old(db.Infos()) :: fresh(o)
      ensures db.Contents() == Replay(old(db.Contents()), ItemEvents(cfg, pc, a))
      ensures db.scannedPaths ==
        if TemplatesFirst(cfg, pc) then ScanAll(old(db.scannedPaths), TemplateRun(cfg, pc, a).scanned)
                                 else old(db.scannedPaths)
    {
      hide PlainEvents, PlainResult, TemplateRun, CellsState, InfosOf;
      if pc.placeholder.name == GRPC {
        result := SendGrpcRequest(pc, a.reply);
        return;
      }
      if pc.placeholder.name == GRAPHQL {
        result := SendGraphQLRequest(pc, a.reply);
        return;
      }
      ghost var b0, l0, run := db.Contents(), db.AllLists(), [];
      if cfg.templates.Some? {
        var ts;
        result, ts := SendOpenAPIRequests(pc, a);
        run := RunEvents(cfg, pc, TemplateRun(cfg, pc, a).verdicts);
        RunLists(cfg, pc, View(ts), db.Contents(), TemplateRun(cfg, pc, a).verdicts, l0, b0,
                 db.AllLists(), ts.Records());
        if !result.Done? {
          assert run + [] == run;
          return;
        }
      }
      result := SendRequest(pc, a.reply);
      ReplayConcat(b0, run, PlainEvents(cfg, pc, a.reply));
      assert [] + PlainEvents(cfg, pc, a.reply) == PlainEvents(cfg, pc, a.reply);
    }

    // ----- Availability pre-checks -----

    /** `CheckGRPCAvailability`. */
    method CheckGRPCAvailability(available: bool)
      modifies db`isGrpcAvailable
      ensures db.isGrpcAvailable == available
    {
      db.isGrpcAvailable := available;
    }

    /** `CheckGraphQLAvailability`: it also overwrites the gRPC flag. */
    method CheckGraphQLAvailability(available: bool)
      modifies db`isGrpcAvailable, db`isGraphQLAvailable
      ensures db.isGraphQLAvailable == available && db.isGrpcAvailable == available
    {
      db.isGrpcAvailable := available;
      db.isGraphQLAvailable := available;
    }

    /** The pre-checks in the order `run` makes them.  The report's gRPC flag is right exactly when
        gRPC and GraphQL are both available or both not. */
    method CheckAvailability(grpc: bool, graphQL: bool)
      modifies db`isGrpcAvailable, db`isGraphQLAvailable
      ensures db.isGraphQLAvailable == graphQL
      ensures db.isGrpcAvailable == grpc <==> grpc == graphQL
    {
      CheckGRPCAvailability(grpc);
      CheckGraphQLAvailability(graphQL);
    }
  }
}
