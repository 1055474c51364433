/** The scan pipeline: one producer, a bounded channel, and workers that may be interleaved
    and cancelled at any point (`produceTests` and `Run` in `internal/scanner/scanner.go`). */
module Pipeline {
  import opened Wrappers
  import opened Ledger
  import opened Outcomes
  import opened TemplateRuns

  // ----- The plan: every payload x encoder x placeholder of every case -----

  datatype Debug = Debug(enabled: bool, digest: string -> string)

  function DebugValue(d: Debug, t: Case, payload: string, encoder: string, ph: Placeholder): string {
    if d.enabled then d.digest(t.testSet + t.name + ph.name + encoder + payload) else ""
  }

  function Item(d: Debug, t: Case, payload: string, encoder: string, ph: Placeholder): PayloadConfig {
    PayloadConfig(payload, encoder, ph, t.testSet, t.name, t.testType, t.isTruePositive,
                  DebugValue(d, t, payload, encoder, ph))
  }

  function ForPlaceholders(d: Debug, t: Case, payload: string, encoder: string, n: nat): seq<PayloadConfig>
    requires n <= |t.placeholders|
  {
    if n == 0 then []
    else ForPlaceholders(d, t, payload, encoder, n - 1) + [Item(d, t, payload, encoder, t.placeholders[n - 1])]
  }

  function ForEncoders(d: Debug, t: Case, payload: string, n: nat): seq<PayloadConfig>
    requires n <= |t.encoders|
  {
    if n == 0 then []
    else ForEncoders(d, t, payload, n - 1) + ForPlaceholders(d, t, payload, t.encoders[n - 1], |t.placeholders|)
  }

  function ForPayloads(d: Debug, t: Case, n: nat): seq<PayloadConfig>
    requires n <= |t.payloads|
  {
    if n == 0 then []
    else ForPayloads(d, t, n - 1) + ForEncoders(d, t, t.payloads[n - 1], |t.encoders|)
  }

  function Plan(d: Debug, tests: seq<Case>): seq<PayloadConfig> {
    if tests == [] then []
    else
      var t := tests[|tests| - 1];
      Plan(d, tests[..|tests| - 1]) + ForPayloads(d, t, |t.payloads|)
  }

  /** Where the item of the a-th payload, b-th encoder and c-th placeholder of a case stands
      among the items of the case. */
  function Offset(t: Case, a: nat, b: nat, c: nat): nat {
    (a * |t.encoders| + b) * |t.placeholders| + c
  }

  lemma {:induction false} PlaceholdersAt(d: Debug, t: Case, payload: string, encoder: string, n: nat)
    requires n <= |t.placeholders|
    ensures var s := ForPlaceholders(d, t, payload, encoder, n);
      && |s| == n
      && forall c | 0 <= c < n :: s[c] == Item(d, t, payload, encoder, t.placeholders[c])
  {
    if n > 0 {
      PlaceholdersAt(d, t, payload, encoder, n - 1);
    }
  }

  lemma {:induction false} EncodersAt(d: Debug, t: Case, payload: string, n: nat, b: nat, c: nat)
    requires n <= |t.encoders|
    ensures |ForEncoders(d, t, payload, n)| == n * |t.placeholders|
    ensures b < n && c < |t.placeholders| ==>
      && b * |t.placeholders| + c < n * |t.placeholders|
      && ForEncoders(d, t, payload, n)[b * |t.placeholders| + c]
         == Item(d, t, payload, t.encoders[b], t.placeholders[c])
  {
    if n > 0 {
      EncodersAt(d, t, payload, n - 1, b, c);
      PlaceholdersAt(d, t, payload, t.encoders[n - 1], |t.placeholders|);
      assert n * |t.placeholders| == (n - 1) * |t.placeholders| + |t.placeholders|;
    }
  }

  lemma {:induction false} PayloadsAt(d: Debug, t: Case, n: nat, a: nat, b: nat, c: nat)
    requires n <= |t.payloads|
    ensures |ForPayloads(d, t, n)| == n * |t.encoders| * |t.placeholders|
    ensures a < n && b < |t.encoders| && c < |t.placeholders| ==>
      && Offset(t, a, b, c) < |ForPayloads(d, t, n)|
      && ForPayloads(d, t, n)[Offset(t, a, b, c)] == Item(d, t, t.payloads[a], t.encoders[b], t.placeholders[c])
  {
    if n > 0 {
      PayloadsAt(d, t, n - 1, a, b, c);
      EncodersAt(d, t, t.payloads[n - 1], |t.encoders|, b, c);
      assert ForPayloads(d, t, n) == ForPayloads(d, t, n - 1) + ForEncoders(d, t, t.payloads[n - 1], |t.encoders|);
      assert Offset(t, a, b, c) == (a * |t.encoders| + b) * |t.placeholders| + c;
      hide *;
      Distribute(n - 1, |t.encoders|, |t.placeholders|);
      Distribute3(a, |t.encoders|, b, |t.placeholders|);
    }
  }

  lemma Distribute(n: nat, e: nat, p: nat)
    ensures (n + 1) * e * p == n * e * p + e * p
  {
  }

  lemma Distribute3(a: nat, e: nat, b: nat, p: nat)
    ensures (a * e + b) * p == a * e * p + b * p
  {
  }

  lemma {:induction false} PlanIsItems(d: Debug, tests: seq<Case>, i: nat, a: nat, b: nat, c: nat)
    ensures |Plan(d, tests)| == NumberOfTests(tests)
    ensures i < |tests| && a < |tests[i].payloads| && b < |tests[i].encoders| && c < |tests[i].placeholders| ==>
      var at := NumberOfTests(tests[..i]) + Offset(tests[i], a, b, c);
      && at < |Plan(d, tests)|
      && Plan(d, tests)[at] == Item(d, tests[i], tests[i].payloads[a], tests[i].encoders[b], tests[i].placeholders[c])
  {
    if tests != [] {
      var n := |tests| - 1;
      PlanIsItems(d, tests[..n], i, a, b, c);
      PayloadsAt(d, tests[n], |tests[n].payloads|, a, b, c);
      if i < n {
        assert tests[..n][..i] == tests[..i];
      }
    }
  }

  lemma PlanSize(d: Debug, tests: seq<Case>)
    ensures |Plan(d, tests)| == NumberOfTests(tests)
  {
    PlanIsItems(d, tests, 0, 0, 0, 0);
  }

  /** The plan is exactly the cross product: it has one item for each test, and the one of every (case,
      payload, encoder, placeholder) stands at its mixed-radix position, with the set, name, type and
      polarity of the case, and with the digest of set, name, placeholder, encoder and payload in the debug
      header if there is one. */
  lemma PlanAt(d: Debug, tests: seq<Case>, i: nat, a: nat, b: nat, c: nat)
    requires i < |tests| && a < |tests[i].payloads| && b < |tests[i].encoders| && c < |tests[i].placeholders|
    ensures |Plan(d, tests)| == NumberOfTests(tests)
    ensures var t := tests[i];
      var at := NumberOfTests(tests[..i]) + (a * |t.encoders| + b) * |t.placeholders| + c;
      && at < |Plan(d, tests)|
      && var item := Plan(d, tests)[at];
      && item.payload == t.payloads[a] && item.encoder == t.encoders[b] && item.placeholder == t.placeholders[c]
      && item.setName == t.testSet && item.caseName == t.name
      && item.testType == t.testType && item.isTruePositive == t.isTruePositive
      && item.debugHeaderValue ==
         if d.enabled then d.digest(t.testSet + t.name + t.placeholders[c].name + t.encoders[b] + t.payloads[a])
         else ""
  {
    PlanIsItems(d, tests, i, a, b, c);
    hide Plan, NumberOfTests;
  }

  /** What the producer sends when it gives up after `patience` items. */
  function Upto(s: seq<PayloadConfig>, patience: nat): seq<PayloadConfig> {
    if patience < |s| then s[..patience] else s
  }

  /** `produceTests`; a cancellation is taken after `patience` sends. */
  method ProduceTests(tests: seq<Case>, d: Debug, patience: nat) returns (sent: seq<PayloadConfig>)
    ensures sent == Upto(Plan(d, tests), patience)
    ensures sent <= Plan(d, tests)
    ensures |sent| == if patience < NumberOfTests(tests) then patience else NumberOfTests(tests)
  {
    PlanSize(d, tests);
    sent := [];
    for i := 0 to |tests|
      invariant sent == Plan(d, tests[..i]) && |sent| <= patience
    {
      PlanGrows(d, tests, i + 1);
      assert tests[..i + 1][..i] == tests[..i];
      var items, stopped := ProduceCase(tests[i], d, patience - |sent|);
      sent := sent + items;
      if stopped {
        return;
      }
    }
    assert tests[..|tests|] == tests;
  }

  /** The three inner loops of `produceTests`. */
  method ProduceCase(t: Case, d: Debug, patience: nat) returns (sent: seq<PayloadConfig>, stopped: bool)
    ensures sent == Upto(ForPayloads(d, t, |t.payloads|), patience)
    ensures stopped <==> patience < |ForPayloads(d, t, |t.payloads|)|
  {
    ghost var all := ForPayloads(d, t, |t.payloads|);
    PayloadsAt(d, t, |t.payloads|, 0, 0, 0);
    sent := [];
    OffsetCarries(t, 0, 0);
    for a := 0 to |t.payloads|
      invariant |sent| == Offset(t, a, 0, 0) && sent <= all && |sent| <= patience
    {
      for b := 0 to |t.encoders|
        invariant |sent| == Offset(t, a, b, 0) && sent <= all && |sent| <= patience
      {
        for c := 0 to |t.placeholders|
          invariant |sent| == Offset(t, a, b, c) && sent <= all && |sent| <= patience
        {
          var wrk := Item(d, t, t.payloads[a], t.encoders[b], t.placeholders[c]);
          PayloadsAt(d, t, |t.payloads|, a, b, c);
          if |sent| == patience {
            return sent, true;
          }
          sent := sent + [wrk];
        }
        OffsetCarries(t, a, b);
      }
      OffsetCarries(t, a, 0);
    }
    OffsetCarries(t, |t.payloads|, 0);
    stopped := false;
  }

  lemma OffsetCarries(t: Case, a: nat, b: nat)
    ensures Offset(t, a, b, |t.placeholders|) == Offset(t, a, b + 1, 0)
    ensures Offset(t, a, |t.encoders|, 0) == Offset(t, a + 1, 0, 0)
    ensures Offset(t, a, 0, 0) == a * |t.encoders| * |t.placeholders|
  {
    var e, p := |t.encoders|, |t.placeholders|;
    Distribute3(a, e, b, p);
    Distribute3(a, e, b + 1, p);
    Distribute(a, e, p);
    assert (b + 1) * p == b * p + p;
    assert (a + 1) * e == a * e + e;
  }

  lemma {:induction false} PlanGrows(d: Debug, tests: seq<Case>, n: nat)
    requires n <= |tests|
    ensures Plan(d, tests[..n]) <= Plan(d, tests)
    decreases |tests| - n
  {
    if n < |tests| {
      PlanGrows(d, tests, n + 1);
      assert tests[..n + 1][..n] == tests[..n];
    } else {
      assert tests[..n] == tests;
    }
  }

  // ----- The pipeline as a state machine -----

  /** A worker waits, has an item in `sendPayload`, has recorded it but not counted it, or has
      returned. */
  datatype Worker = Idle | Busy(item: PayloadConfig) | Recorded(item: PayloadConfig) | Exited

  /** `sent` counts the items the producer has sent; `log` lists the items whose outcome is
      recorded, in recording order, with the answer each got. */
  datatype State = State(
    sent: nat, closed: bool, chan: seq<PayloadConfig>, workers: seq<Worker>,
    processed: seq<PayloadConfig>, counter: nat,
    log: seq<(PayloadConfig, Answer)>, cancelled: bool)

  function Init(n: nat): State {
    State(0, false, [], seq(n, _ => Idle), [], 0, [], false)
  }

  datatype Step =
    | Send | Close | Quit | Cancel
    | Receive(w: nat) | Store(w: nat, answer: Answer) | Finish(w: nat) | Drained(w: nat) | Abandon(w: nat)

  /** The step can be taken now.  The channel holds as many items as there are workers. */
  predicate Enabled(plan: seq<PayloadConfig>, s: State, t: Step) {
    match t
    case Send => !s.closed && s.sent < |plan| && |s.chan| < |s.workers|
    case Close => !s.closed && s.sent == |plan|
    case Quit => !s.closed && s.sent < |plan| && s.cancelled
    case Cancel => !s.cancelled
    case Receive(w) => w < |s.workers| && s.workers[w].Idle? && s.chan != []
    case Store(w, answer) => w < |s.workers| && s.workers[w].Busy? && Answered(answer.reply)
    case Finish(w) => w < |s.workers| && s.workers[w].Recorded?
    case Drained(w) => w < |s.workers| && s.workers[w].Idle? && s.chan == [] && s.closed
    case Abandon(w) => w < |s.workers| && s.workers[w].Idle? && s.cancelled
  }

  function Take(plan: seq<PayloadConfig>, s: State, t: Step): State
    requires Enabled(plan, s, t)
  {
    match t
    case Send => s.(chan := s.chan + [plan[s.sent]], sent := s.sent + 1)
    case Close => s.(closed := true)
    case Quit => s.(closed := true)
    case Cancel => s.(cancelled := true)
    case Receive(w) => s.(workers := s.workers[w := Busy(s.chan[0])], chan := s.chan[1..])
    case Store(w, answer) =>
      s.(workers := s.workers[w := Recorded(s.workers[w].item)], log := s.log + [(s.workers[w].item, answer)])
    case Finish(w) =>
      s.(workers := s.workers[w := Idle], processed := s.processed + [s.workers[w].item], counter := s.counter + 1)
    case Drained(w) => s.(workers := s.workers[w := Exited])
    case Abandon(w) => s.(workers := s.workers[w := Exited])
  }

  ghost predicate IsRun(plan: seq<PayloadConfig>, n: nat, run: seq<State>, steps: seq<Step>) {
    && |run| == |steps| + 1
    && run[0] == Init(n)
    && forall i | 0 <= i < |steps| :: Enabled(plan, run[i], steps[i]) && run[i + 1] == Take(plan, run[i], steps[i])
  }

  lemma RunPrefix(plan: seq<PayloadConfig>, n: nat, run: seq<State>, steps: seq<Step>, m: nat)
    requires IsRun(plan, n, run, steps) && m <= |steps|
    ensures IsRun(plan, n, run[..m + 1], steps[..m])
  {
    forall i | 0 <= i < m
      ensures Enabled(plan, run[..m + 1][i], steps[..m][i])
      ensures run[..m + 1][i + 1] == Take(plan, run[..m + 1][i], steps[..m][i])
    {
      assert Enabled(plan, run[i], steps[i]);
    }
  }

  predicate AllExited(s: State) { forall w | 0 <= w < |s.workers| :: s.workers[w].Exited? }

  // ----- What every reachable state keeps -----

  function HeldBy(w: Worker): multiset<PayloadConfig> {
    if w.Busy? || w.Recorded? then multiset{w.item} else multiset{}
  }

  function RecordedBy(w: Worker): multiset<PayloadConfig> {
    if w.Recorded? then multiset{w.item} else multiset{}
  }

  /** Items in the hands of the workers. */
  function InFlight(ws: seq<Worker>): multiset<PayloadConfig> {
    if ws == [] then multiset{} else InFlight(ws[..|ws| - 1]) + HeldBy(ws[|ws| - 1])
  }

  function Uncounted(ws: seq<Worker>): multiset<PayloadConfig> {
    if ws == [] then multiset{} else Uncounted(ws[..|ws| - 1]) + RecordedBy(ws[|ws| - 1])
  }

  function Items(log: seq<(PayloadConfig, Answer)>): seq<PayloadConfig> {
    seq(|log|, i requires 0 <= i < |log| => log[i].0)
  }

  lemma {:induction false} InFlightUpdate(ws: seq<Worker>, w: nat, x: Worker)
    requires w < |ws|
    ensures InFlight(ws[w := x]) + HeldBy(ws[w]) == InFlight(ws) + HeldBy(x)
  {
    hide HeldBy;
    var n := |ws| - 1;
    if w == n {
      assert ws[w := x][..n] == ws[..n];
    } else {
      InFlightUpdate(ws[..n], w, x);
      assert ws[w := x][..n] == ws[..n][w := x];
      Exchange3(InFlight(ws[..n][w := x]), HeldBy(ws[w]), InFlight(ws[..n]), HeldBy(x), HeldBy(ws[n]));
    }
  }

  lemma {:induction false} UncountedUpdate(ws: seq<Worker>, w: nat, x: Worker)
    requires w < |ws|
    ensures Uncounted(ws[w := x]) + RecordedBy(ws[w]) == Uncounted(ws) + RecordedBy(x)
  {
    hide RecordedBy;
    var n := |ws| - 1;
    if w == n {
      assert ws[w := x][..n] == ws[..n];
    } else {
      UncountedUpdate(ws[..n], w, x);
      assert ws[w := x][..n] == ws[..n][w := x];
      Exchange3(Uncounted(ws[..n][w := x]), RecordedBy(ws[w]), Uncounted(ws[..n]), RecordedBy(x), RecordedBy(ws[n]));
    }
  }

  lemma Exchange3<T>(a: multiset<T>, b: multiset<T>, c: multiset<T>, d: multiset<T>, e: multiset<T>)
    requires a + b == c + d
    ensures (a + e) + b == (c + e) + d
  {
    assert (a + e) + b == (a + b) + e;
    assert (c + e) + d == (c + d) + e;
  }

  /** What the producer has sent is in the channel, with a worker, or processed. */
  ghost predicate Conserved(plan: seq<PayloadConfig>, s: State) {
    && s.sent <= |plan|
    && multiset(plan[..s.sent]) == multiset(s.chan) + InFlight(s.workers) + multiset(s.processed)
  }

  /** What is recorded is counted, or about to be. */
  ghost predicate Accounted(s: State) {
    && multiset(Items(s.log)) == Uncounted(s.workers) + multiset(s.processed)
    && s.counter == |s.processed|
    && (forall i | 0 <= i < |s.log| :: Answered(s.log[i].1.reply))
  }

  /** Without a cancellation the channel closes and the workers return only when all is sent. */
  ghost predicate Patient(plan: seq<PayloadConfig>, s: State) {
    !s.cancelled ==>
      && (s.closed ==> s.sent == |plan|)
      && (forall w | 0 <= w < |s.workers| && s.workers[w].Exited? :: s.closed && s.chan == [])
  }

  ghost predicate Inv(plan: seq<PayloadConfig>, n: nat, s: State) {
    && |s.workers| == n && |s.chan| <= n
    && Conserved(plan, s) && Accounted(s) && Patient(plan, s)
  }

  lemma {:induction false} InitInFlight(n: nat)
    ensures InFlight(Init(n).workers) == multiset{} && Uncounted(Init(n).workers) == multiset{}
  {
    if n > 0 {
      InitInFlight(n - 1);
      assert Init(n).workers[..n - 1] == Init(n - 1).workers;
    }
  }

  lemma InitInv(plan: seq<PayloadConfig>, n: nat)
    ensures Inv(plan, n, Init(n))
  {
    InitInFlight(n);
    assert plan[..0] == [];
  }

  lemma Cancellation<T>(a: multiset<T>, b: multiset<T>, c: multiset<T>)
    requires a + c == b + c
    ensures a == b
  {
    forall x ensures a[x] == b[x] {
      assert (a + c)[x] == (b + c)[x];
    }
  }

  lemma SameHeld(ws: seq<Worker>, w: nat, x: Worker)
    requires w < |ws| && HeldBy(ws[w]) == HeldBy(x)
    ensures InFlight(ws[w := x]) == InFlight(ws)
  {
    InFlightUpdate(ws, w, x);
    Cancellation(InFlight(ws[w := x]), InFlight(ws), HeldBy(x));
  }

  lemma SameRecorded(ws: seq<Worker>, w: nat, x: Worker)
    requires w < |ws| && RecordedBy(ws[w]) == RecordedBy(x)
    ensures Uncounted(ws[w := x]) == Uncounted(ws)
  {
    UncountedUpdate(ws, w, x);
    Cancellation(Uncounted(ws[w := x]), Uncounted(ws), RecordedBy(x));
  }

  lemma StepConserved(plan: seq<PayloadConfig>, s: State, t: Step)
    requires Conserved(plan, s) && Enabled(plan, s, t)
    ensures Conserved(plan, Take(plan, s, t))
  {
    hide InFlight;
    match t {
      case Send => SendConserves(plan, s);
      case Receive(w) => ReceiveConserves(plan, s, w);
      case Store(w, answer) => SameHeld(s.workers, w, Recorded(s.workers[w].item));
      case Finish(w) => FinishConserves(plan, s, w);
      case Drained(w) => SameHeld(s.workers, w, Exited);
      case Abandon(w) => SameHeld(s.workers, w, Exited);
      case _ =>
    }
  }

  lemma SendConserves(plan: seq<PayloadConfig>, s: State)
    requires Conserved(plan, s) && Enabled(plan, s, Send)
    ensures Conserved(plan, Take(plan, s, Send))
  {
    hide InFlight;
    var x := plan[s.sent];
    assert plan[..s.sent + 1] == plan[..s.sent] + [x];
    assert multiset(s.chan + [x]) == multiset(s.chan) + multiset{x};
    AddFirst(multiset(s.chan), InFlight(s.workers), multiset(s.processed), x);
  }

  lemma AddFirst<T>(a: multiset<T>, b: multiset<T>, c: multiset<T>, x: T)
    ensures a + b + c + multiset{x} == (a + multiset{x}) + b + c
  {
  }

  lemma ReceiveConserves(plan: seq<PayloadConfig>, s: State, w: nat)
    requires Conserved(plan, s) && Enabled(plan, s, Receive(w))
    ensures Conserved(plan, Take(plan, s, Receive(w)))
  {
    var x, s' := s.chan[0], Take(plan, s, Receive(w));
    assert s.chan == [x] + s'.chan;
    InFlightUpdate(s.workers, w, Busy(x));
    assert InFlight(s'.workers) == InFlight(s.workers) + multiset{x};
    MoveOne(multiset(s'.chan), x, InFlight(s.workers), multiset(s.processed));
  }

  lemma FinishConserves(plan: seq<PayloadConfig>, s: State, w: nat)
    requires Conserved(plan, s) && Enabled(plan, s, Finish(w))
    ensures Conserved(plan, Take(plan, s, Finish(w)))
  {
    var x, s' := s.workers[w].item, Take(plan, s, Finish(w));
    InFlightUpdate(s.workers, w, Idle);
    assert InFlight(s.workers) == InFlight(s'.workers) + multiset{x};
    MoveTwo(multiset(s.chan), InFlight(s'.workers), x, multiset(s.processed));
  }

  lemma MoveOne<T>(a: multiset<T>, x: T, b: multiset<T>, c: multiset<T>)
    ensures (multiset{x} + a) + b + c == a + (b + multiset{x}) + c
  {
  }

  lemma MoveTwo<T>(a: multiset<T>, b: multiset<T>, x: T, c: multiset<T>)
    ensures a + (b + multiset{x}) + c == a + b + (c + multiset{x})
  {
  }

  lemma StepAccounted(plan: seq<PayloadConfig>, s: State, t: Step)
    requires Accounted(s) && Enabled(plan, s, t)
    ensures Accounted(Take(plan, s, t))
  {
    match t {
      case Receive(w) => SameRecorded(s.workers, w, Busy(s.chan[0]));
      case Store(w, answer) => StoreAccounts(plan, s, w, answer);
      case Finish(w) => FinishAccounts(plan, s, w);
      case Drained(w) => SameRecorded(s.workers, w, Exited);
      case Abandon(w) => SameRecorded(s.workers, w, Exited);
      case _ =>
    }
  }

  lemma ItemsAppend(log: seq<(PayloadConfig, Answer)>, x: PayloadConfig, answer: Answer)
    ensures Items(log + [(x, answer)]) == Items(log) + [x]
  {
  }

  lemma StoreAccounts(plan: seq<PayloadConfig>, s: State, w: nat, answer: Answer)
    requires Accounted(s) && Enabled(plan, s, Store(w, answer))
    ensures Accounted(Take(plan, s, Store(w, answer)))
  {
    var x, s' := s.workers[w].item, Take(plan, s, Store(w, answer));
    ItemsAppend(s.log, x, answer);
    assert Uncounted(s'.workers) == Uncounted(s.workers) + multiset{x} by {
      UncountedUpdate(s.workers, w, Recorded(x));
    }
    assert multiset(Items(s'.log)) == multiset(Items(s.log)) + multiset{x};
    AddOne(Uncounted(s.workers), multiset(s.processed), x);
  }

  lemma AddOne<T>(a: multiset<T>, b: multiset<T>, x: T)
    ensures (a + b) + multiset{x} == (a + multiset{x}) + b
  {
  }

  lemma FinishAccounts(plan: seq<PayloadConfig>, s: State, w: nat)
    requires Accounted(s) && Enabled(plan, s, Finish(w))
    ensures Accounted(Take(plan, s, Finish(w)))
  {
    hide Uncounted;
    var x, s' := s.workers[w].item, Take(plan, s, Finish(w));
    UncountedUpdate(s.workers, w, Idle);
    assert Uncounted(s.workers) == Uncounted(s'.workers) + multiset{x};
    assert multiset(s'.processed) == multiset(s.processed) + multiset{x};
  }

  lemma StepInv(plan: seq<PayloadConfig>, n: nat, s: State, t: Step)
    requires Inv(plan, n, s) && Enabled(plan, s, t)
    ensures Inv(plan, n, Take(plan, s, t))
  {
    StepConserved(plan, s, t);
    StepAccounted(plan, s, t);
    StepPatient(plan, s, t);
  }

  lemma StepPatient(plan: seq<PayloadConfig>, s: State, t: Step)
    requires Patient(plan, s) && Enabled(plan, s, t)
    ensures Patient(plan, Take(plan, s, t))
  {
  }

  /** Every reachable state, cancelled or not: what the producer has sent is what the channel
      holds, the workers hold, and the workers have finished; and the channel never overfills. */
  lemma {:induction false} ReachableInv(plan: seq<PayloadConfig>, n: nat, run: seq<State>, steps: seq<Step>)
    requires IsRun(plan, n, run, steps)
    ensures Inv(plan, n, run[|steps|])
  {
    if steps == [] {
      InitInv(plan, n);
    } else {
      var m := |steps| - 1;
      RunPrefix(plan, n, run, steps, m);
      ReachableInv(plan, n, run[..m + 1], steps[..m]);
      StepInv(plan, n, run[m], steps[m]);
    }
  }

  // ----- Progress and termination -----

  function WorkerWork(w: Worker): nat {
    match w case Idle => 1 case Busy(_) => 3 case Recorded(_) => 2 case Exited => 0
  }

  function WorkersWork(ws: seq<Worker>): nat {
    if ws == [] then 0 else WorkersWork(ws[..|ws| - 1]) + WorkerWork(ws[|ws| - 1])
  }

  /** The work left: strictly smaller after every step. */
  function Work(plan: seq<PayloadConfig>, s: State): int {
    4 * (|plan| - s.sent) + 3 * |s.chan| + WorkersWork(s.workers)
    + (if s.closed then 0 else 1) + (if s.cancelled then 0 else 1)
  }

  lemma {:induction false} WorkersWorkUpdate(ws: seq<Worker>, w: nat, x: Worker)
    requires w < |ws|
    ensures WorkersWork(ws[w := x]) + WorkerWork(ws[w]) == WorkersWork(ws) + WorkerWork(x)
  {
    var n := |ws| - 1;
    if w == n {
      assert ws[w := x][..n] == ws[..n];
    } else {
      WorkersWorkUpdate(ws[..n], w, x);
      assert ws[w := x][..n] == ws[..n][w := x];
    }
  }

  lemma StepWorks(plan: seq<PayloadConfig>, s: State, t: Step)
    requires s.sent <= |plan| && Enabled(plan, s, t)
    ensures Work(plan, Take(plan, s, t)) == Work(plan, s) - 1
  {
    match t {
      case Receive(w) => WorkersWorkUpdate(s.workers, w, Busy(s.chan[0]));
      case Store(w, answer) => WorkersWorkUpdate(s.workers, w, Recorded(s.workers[w].item));
      case Finish(w) => WorkersWorkUpdate(s.workers, w, Idle);
      case Drained(w) => WorkersWorkUpdate(s.workers, w, Exited);
      case Abandon(w) => WorkersWorkUpdate(s.workers, w, Exited);
      case _ =>
    }
  }

  lemma {:induction false} IdleWork(n: nat)
    ensures WorkersWork(Init(n).workers) == n
  {
    if n > 0 {
      IdleWork(n - 1);
      assert Init(n).workers[..n - 1] == Init(n - 1).workers;
    }
  }

  /** No run is longer than four steps per item, one per worker, and two. */
  lemma {:induction false} RunsTerminate(plan: seq<PayloadConfig>, n: nat, run: seq<State>, steps: seq<Step>)
    requires IsRun(plan, n, run, steps)
    ensures |steps| + Work(plan, run[|steps|]) == 4 * |plan| + n + 2
    ensures |steps| <= 4 * |plan| + n + 2
  {
    if steps == [] {
      IdleWork(n);
    } else {
      var m := |steps| - 1;
      RunPrefix(plan, n, run, steps, m);
      RunsTerminate(plan, n, run[..m + 1], steps[..m]);
      ReachableInv(plan, n, run[..m + 1], steps[..m]);
      StepWorks(plan, run[m], steps[m]);
    }
  }

  /** With at least one worker the pipeline never deadlocks: until all workers have returned
      some step other than a cancellation can be taken. */
  lemma NeverStuck(plan: seq<PayloadConfig>, n: nat, s: State)
    requires Inv(plan, n, s) && 1 <= n && !AllExited(s)
    ensures exists t: Step :: !t.Cancel? && Enabled(plan, s, t)
  {
    var w :| 0 <= w < n && !s.workers[w].Exited?;
    match s.workers[w] {
      case Busy(_) =>
        var reply := Reply(None, Some(ConnReset));
        assert Enabled(plan, s, Store(w, Answer(true, _ => Attempt(false, reply, false, false, false), reply)));
      case Recorded(_) => assert Enabled(plan, s, Finish(w));
      case Idle =>
        if s.chan != [] {
          assert Enabled(plan, s, Receive(w));
        } else if s.closed {
          assert Enabled(plan, s, Drained(w));
        } else if s.sent < |plan| {
          assert Enabled(plan, s, Send);
        } else {
          assert Enabled(plan, s, Close);
        }
    }
  }

  // ----- The finished scan -----

  /** An uncancelled scan, run until all workers have returned. */
  ghost predicate Completed(plan: seq<PayloadConfig>, n: nat, run: seq<State>, steps: seq<Step>) {
    IsRun(plan, n, run, steps) && AllExited(run[|steps|]) && !run[|steps|].cancelled
  }

  lemma RunExtends(plan: seq<PayloadConfig>, n: nat, run: seq<State>, steps: seq<Step>, t: Step)
    requires IsRun(plan, n, run, steps) && Enabled(plan, run[|steps|], t)
    ensures IsRun(plan, n, run + [Take(plan, run[|steps|], t)], steps + [t])
  {
  }

  /** Every uncancelled run, however it began, can be carried on until it is complete. */
  lemma {:induction false} CanComplete(plan: seq<PayloadConfig>, n: nat, run: seq<State>, steps: seq<Step>)
    requires 1 <= n && IsRun(plan, n, run, steps) && !run[|steps|].cancelled
    ensures exists run': seq<State>, steps': seq<Step> :: Completed(plan, n, run', steps') && steps <= steps'
    decreases 4 * |plan| + n + 2 - |steps|
  {
    if AllExited(run[|steps|]) {
      assert Completed(plan, n, run, steps) && steps <= steps;
    } else {
      var s := run[|steps|];
      ReachableInv(plan, n, run, steps);
      NeverStuck(plan, n, s);
      var t: Step :| !t.Cancel? && Enabled(plan, s, t);
      RunExtends(plan, n, run, steps, t);
      RunsTerminate(plan, n, run + [Take(plan, s, t)], steps + [t]);
      CanComplete(plan, n, run + [Take(plan, s, t)], steps + [t]);
      var run', steps' :| Completed(plan, n, run', steps') && steps + [t] <= steps';
      assert steps <= steps';
    }
  }

  lemma {:induction false} ExitedHoldNothing(ws: seq<Worker>)
    requires forall w | 0 <= w < |ws| :: ws[w].Exited?
    ensures InFlight(ws) == multiset{} && Uncounted(ws) == multiset{}
  {
    if ws != [] {
      ExitedHoldNothing(ws[..|ws| - 1]);
    }
  }

  /** When an uncancelled scan is over, whatever the interleaving, every planned item has been
      processed, recorded and counted exactly once. */
  lemma FinishedScan(plan: seq<PayloadConfig>, n: nat, run: seq<State>, steps: seq<Step>)
    requires 1 <= n && Completed(plan, n, run, steps)
    ensures var last := run[|steps|];
      && multiset(last.processed) == multiset(plan)
      && multiset(Items(last.log)) == multiset(plan)
      && last.counter == |plan| == |last.log|
  {
    var last := run[|steps|];
    ReachableInv(plan, n, run, steps);
    ExitedHoldNothing(last.workers);
    assert last.workers[0].Exited?;
    assert plan[..last.sent] == plan;
    assert |last.processed| == |multiset(last.processed)| == |multiset(plan)| == |plan|;
    assert |Items(last.log)| == |multiset(Items(last.log))|;
  }
}
