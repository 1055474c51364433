/** The DNS cache of `pkg/dnscache/dnscache.go`: the resolver object, one call at a time, and its
    calls interleaved.  The lock is held for a read or a commit, never across a lookup. */
module DnsCache {
  import opened Wrappers
  import opened Order

  type Ips = seq<string>
  type Cache = map<string, Ips>

  // ----- One call at a time -----

  /** The cache after every key has been looked up again: a failed lookup keeps the old entry. */
  function Refreshed(c: Cache, answers: string -> Option<Ips>): Cache {
    map a | a in c :: if answers(a).Some? then answers(a).value else c[a]
  }

  /** The ticker and the channel of `New`; closing a closed channel would panic. */
  class Closer {
    var closed: bool

    constructor ()
      ensures !closed
    {
      closed := false;
    }

    method Call()
      requires !closed
      modifies this
      ensures closed
    {
      closed := true;
    }
  }

  class Resolver {
    var cache: Cache
    var closer: Closer?

    ghost predicate Valid()
      reads this, closer
    {
      closer != null ==> !closer.closed
    }

    /** `New`. */
    constructor ()
      ensures Valid() && closer != null && cache == map[]
    {
      cache := map[];
      closer := new Closer();
    }

    /** `LookupIP`; `answer` is what the DNS server says. */
    method LookupIP(addr: string, answer: Option<Ips>) returns (ips: Option<Ips>)
      modifies this`cache
      ensures ips == answer
      ensures cache == if answer.Some? then old(cache)[addr := answer.value] else old(cache)
    {
      if answer.None? {
        return None;
      }
      cache := cache[addr := answer.value];
      return answer;
    }

    /** `Fetch`: the server is asked (`asked`) only when the address is not cached. */
    method Fetch(addr: string, answer: Option<Ips>) returns (ips: Option<Ips>, asked: bool)
      modifies this`cache
      ensures asked <==> addr !in old(cache)
      ensures ips == if addr in old(cache) then Some(old(cache)[addr]) else answer
      ensures cache == if asked && answer.Some? then old(cache)[addr := answer.value] else old(cache)
    {
      if addr in cache {
        return Some(cache[addr]), false;
      }
      ips := LookupIP(addr, answer);
      asked := true;
    }

    /** The keys of the cache, in some order. */
    method Keys() returns (addrs: seq<string>)
      ensures forall a :: a in addrs <==> a in cache
    {
      addrs := [];
      var rest := cache.Keys;
      while rest != {}
        invariant rest <= cache.Keys
        invariant forall a :: a in addrs <==> a in cache.Keys && a !in rest
        decreases rest
      {
        var a :| a in rest;
        addrs := addrs + [a];
        rest := rest - {a};
      }
    }

    /** `Refresh`, not interleaved with other calls, for any order of the map's keys. */
    method Refresh(answers: string -> Option<Ips>)
      modifies this`cache
      ensures cache == Refreshed(old(cache), answers)
    {
      var addrs := Keys();
      ghost var done: set<string> := {};
      for i := 0 to |addrs|
        invariant cache.Keys == old(cache).Keys
        invariant forall j | 0 <= j < i :: addrs[j] in done
        invariant forall a | a in cache ::
          cache[a] == if a in done && answers(a).Some? then answers(a).value else old(cache)[a]
      {
        var ips := LookupIP(addrs[i], answers(addrs[i]));
        done := done + {addrs[i]};
      }
    }

    /** `Stop`: the closer runs exactly once, however often this is called. */
    method Stop()
      requires Valid()
      modifies this`closer, closer
      ensures Valid() && closer == null
      ensures old(closer) != null ==> old(closer).closed
    {
      if closer != null {
        closer.Call();
        closer := null;
      }
    }
  }

  // ----- Interleaved calls -----

  /** A call in progress: waiting for the answer about `addr`, or holding the successful answer
      number `at` and about to commit it; a refresh goes on with `rest`. */
  datatype Call =
    | Idle
    | Looking(addr: string, rest: seq<string>)
    | Committing(addr: string, ips: Ips, at: nat, rest: seq<string>)

  datatype Commit = Commit(addr: string, ips: Ips, at: nat)

  /** `answers` is what the server said, in order; `commits` what was written, in order. */
  datatype State = State(cache: Cache, calls: seq<Call>, answers: seq<(string, Option<Ips>)>, commits: seq<Commit>)

  datatype Step =
    | StartLookup(t: nat, addr: string)         // LookupIP
    | FetchHit(t: nat, addr: string)            // Fetch, cached
    | FetchMiss(t: nat, addr: string)           // Fetch, not cached
    | StartRefresh(t: nat, addrs: seq<string>)  // Refresh, with the keys in some order
    | Answer(t: nat, answer: Option<Ips>)       // the lookup of a call returns
    | Write(t: nat)                             // a call commits under the lock

  function Init(n: nat): State { State(map[], seq(n, _ => Idle), [], []) }

  function Next(rest: seq<string>): Call {
    if rest == [] then Idle else Looking(rest[0], rest[1..])
  }

  ghost predicate Enabled(s: State, x: Step) {
    && x.t < |s.calls|
    && match x
       case StartLookup(t, _) => s.calls[t].Idle?
       case FetchHit(t, addr) => s.calls[t].Idle? && addr in s.cache
       case FetchMiss(t, addr) => s.calls[t].Idle? && addr !in s.cache
       case StartRefresh(t, addrs) => s.calls[t].Idle? && multiset(addrs) == multiset(s.cache.Keys)
       case Answer(t, _) => s.calls[t].Looking?
       case Write(t) => s.calls[t].Committing?
  }

  function Take(s: State, x: Step): State
    requires Enabled(s, x)
  {
    var c := s.calls[x.t];
    match x
    case StartLookup(t, addr) => s.(calls := s.calls[t := Looking(addr, [])])
    case FetchHit(t, addr) => s
    case FetchMiss(t, addr) => s.(calls := s.calls[t := Looking(addr, [])])
    case StartRefresh(t, addrs) => s.(calls := s.calls[t := Next(addrs)])
    case Answer(t, answer) =>
      s.(calls := s.calls[t := if answer.Some? then Committing(c.addr, answer.value, |s.answers|, c.rest)
                               else Next(c.rest)],
         answers := s.answers + [(c.addr, answer)])
    case Write(t) =>
      s.(cache := s.cache[c.addr := c.ips], calls := s.calls[t := Next(c.rest)],
         commits := s.commits + [Commit(c.addr, c.ips, c.at)])
  }

  /** The states that steps lead through. */
  ghost predicate Leads(s: State, run: seq<State>, steps: seq<Step>) {
    && |run| == |steps| + 1
    && run[0] == s
    && forall i | 0 <= i < |steps| :: Enabled(run[i], steps[i]) && run[i + 1] == Take(run[i], steps[i])
  }

  ghost predicate IsRun(n: nat, run: seq<State>, steps: seq<Step>) { Leads(Init(n), run, steps) }

  /** The position of the last commit of an address, or -1. */
  function LastCommit(commits: seq<Commit>, a: string): (i: int)
    ensures -1 <= i < |commits|
    ensures i >= 0 ==> commits[i].addr == a
    ensures forall j | i < j < |commits| :: commits[j].addr != a
  {
    if commits == [] then -1
    else if commits[|commits| - 1].addr == a then |commits| - 1
    else LastCommit(commits[..|commits| - 1], a)
  }

  /** The position of the last successful answer about an address, or -1. */
  function LastAnswer(answers: seq<(string, Option<Ips>)>, a: string): (i: int)
    ensures -1 <= i < |answers|
    ensures i >= 0 ==> answers[i].0 == a && answers[i].1.Some?
    ensures forall j | i < j < |answers| :: answers[j].0 != a || answers[j].1.None?
  {
    if answers == [] then -1
    else
      var last := answers[|answers| - 1];
      if last.0 == a && last.1.Some? then |answers| - 1 else LastAnswer(answers[..|answers| - 1], a)
  }

  predicate Said(answers: seq<(string, Option<Ips>)>, a: string, ips: Ips, at: nat) {
    at < |answers| && answers[at] == (a, Some(ips))
  }

  /** The cache holds exactly the last commits, and everything committed was answered. */
  ghost predicate Inv(s: State) {
    && (forall a :: a in s.cache <==> LastCommit(s.commits, a) >= 0)
    && (forall a | a in s.cache :: s.cache[a] == s.commits[LastCommit(s.commits, a)].ips)
    && (forall i | 0 <= i < |s.commits| :: Said(s.answers, s.commits[i].addr, s.commits[i].ips, s.commits[i].at))
    && (forall t | 0 <= t < |s.calls| && s.calls[t].Committing? ::
          Said(s.answers, s.calls[t].addr, s.calls[t].ips, s.calls[t].at))
  }

  lemma LastCommitAppend(commits: seq<Commit>, c: Commit, a: string)
    ensures LastCommit(commits + [c], a) == if c.addr == a then |commits| else LastCommit(commits, a)
  {
    assert (commits + [c])[..|commits|] == commits;
  }

  lemma StepInv(s: State, x: Step)
    requires Inv(s) && Enabled(s, x)
    ensures Inv(Take(s, x))
  {
    if x.Write? {
      WriteInv(s, x);
    } else {
      QuietInv(s, x);
    }
    hide Inv, Take;
  }

  lemma QuietInv(s: State, x: Step)
    requires Inv(s) && Enabled(s, x) && !x.Write?
    ensures Inv(Take(s, x))
  {
    hide LastCommit;
    var s' := Take(s, x);
    assert s'.commits == s.commits && s'.cache == s.cache;
    assert forall a, ips, at | Said(s.answers, a, ips, at) :: Said(s'.answers, a, ips, at);
  }

  lemma WriteInv(s: State, x: Step)
    requires Inv(s) && Enabled(s, x) && x.Write?
    ensures Inv(Take(s, x))
  {
    var s', c := Take(s, x), s.calls[x.t];
    forall a
      ensures a in s'.cache <==> LastCommit(s'.commits, a) >= 0
      ensures a in s'.cache ==> s'.cache[a] == s'.commits[LastCommit(s'.commits, a)].ips
    {
      LastCommitAppend(s.commits, Commit(c.addr, c.ips, c.at), a);
    }
    hide LastCommit;
  }

  lemma RunPrefix(n: nat, run: seq<State>, steps: seq<Step>, m: nat)
    requires IsRun(n, run, steps) && m <= |steps|
    ensures IsRun(n, run[..m + 1], steps[..m])
  {
    forall i | 0 <= i < m
      ensures Enabled(run[..m + 1][i], steps[..m][i]) && run[..m + 1][i + 1] == Take(run[..m + 1][i], steps[..m][i])
    {
      assert Enabled(run[i], steps[i]);
    }
  }

  /** In every reachable state of every interleaving the cache holds, for each address, the most
      recently committed successful answer about it. */
  lemma {:induction false} CacheIsLastCommits(n: nat, run: seq<State>, steps: seq<Step>)
    requires IsRun(n, run, steps)
    ensures Inv(run[|steps|])
  {
    if steps != [] {
      var m := |steps| - 1;
      RunPrefix(n, run, steps, m);
      CacheIsLastCommits(n, run[..m + 1], steps[..m]);
      StepInv(run[m], steps[m]);
    }
  }

  /** No key ever leaves the cache. */
  lemma {:induction false} KeysNeverShrink(n: nat, run: seq<State>, steps: seq<Step>, i: nat, j: nat)
    requires IsRun(n, run, steps) && i <= j <= |steps|
    ensures run[i].cache.Keys <= run[j].cache.Keys
    decreases j
  {
    if i < j {
      KeysNeverShrink(n, run, steps, i, j - 1);
      assert Enabled(run[j - 1], steps[j - 1]);
    }
  }

  /** The step commits an answer about `a`. */
  predicate Commits(s: State, x: Step, a: string) {
    x.Write? && x.t < |s.calls| && s.calls[x.t].Committing? && s.calls[x.t].addr == a
  }

  /** Between two moments without a commit of `a` its entry does not change, whatever hits, failed
      lookups, refreshes and commits of other addresses happen. */
  lemma {:induction false} EntryKept(n: nat, run: seq<State>, steps: seq<Step>, i: nat, j: nat, a: string)
    requires IsRun(n, run, steps) && i <= j <= |steps| && a in run[i].cache
    requires forall k | i <= k < j :: !Commits(run[k], steps[k], a)
    ensures a in run[j].cache && run[j].cache[a] == run[i].cache[a]
    decreases j
  {
    if i < j {
      EntryKept(n, run, steps, i, j - 1, a);
      assert Enabled(run[j - 1], steps[j - 1]);
      assert !Commits(run[j - 1], steps[j - 1], a);
    }
  }

  // ----- A refresh among other calls -----

  /** The addresses a call still has to ask about. */
  function Todo(c: Call): seq<string> {
    match c
    case Idle => []
    case Looking(addr, rest) => [addr] + rest
    case Committing(_, _, _, rest) => rest
  }

  ghost predicate AskedSince(s: State, from: nat, a: string) {
    exists k :: from <= k < |s.answers| && s.answers[k].0 == a
  }

  lemma AskedStep(s: State, x: Step, t: nat, from: nat, a: string)
    requires Enabled(s, x) && t < |s.calls| && from <= |s.answers|
    requires a in Todo(s.calls[t]) || AskedSince(s, from, a)
    ensures a in Todo(Take(s, x).calls[t]) || AskedSince(Take(s, x), from, a)
  {
    var s' := Take(s, x);
    if AskedSince(s, from, a) {
      var k :| from <= k < |s.answers| && s.answers[k].0 == a;
      assert s'.answers[k].0 == a;
    } else if x.t == t && x.Answer? && s.calls[t].addr == a {
      assert s'.answers[|s.answers|].0 == a;
    }
  }

  /** However it is interleaved, a refresh that was started on some addresses has, at any later
      moment, asked again about all but those it still has to do: about all of them once done. */
  lemma {:induction false} RefreshAsksAll(n: nat, run: seq<State>, steps: seq<Step>, i: nat, j: nat, t: nat,
                                          addrs: seq<string>, a: string)
    requires IsRun(n, run, steps) && i < j <= |steps| && steps[i] == StartRefresh(t, addrs) && a in addrs
    ensures t < |run[j].calls| && |run[i].answers| <= |run[j].answers|
    ensures a in Todo(run[j].calls[t]) || AskedSince(run[j], |run[i].answers|, a)
    decreases j
  {
    assert Enabled(run[i], steps[i]);
    if j == i + 1 {
      assert Todo(Next(addrs)) == addrs;
    } else {
      RefreshAsksAll(n, run, steps, i, j - 1, t, addrs, a);
      AskedStep(run[j - 1], steps[j - 1], t, |run[i].answers|, a);
    }
  }

  // ----- Freshness -----

  predicate BusyWith(c: Call, a: string) { !c.Idle? && c.addr == a }

  /** At most one call at a time has a lookup of `a` under way. */
  ghost predicate Exclusive(s: State, a: string) {
    forall t, u | 0 <= t < |s.calls| && 0 <= u < |s.calls| && BusyWith(s.calls[t], a) && BusyWith(s.calls[u], a)
      :: t == u
  }

  /** The entry of `a` is the newest successful answer about it. */
  predicate Current(s: State, a: string) {
    var newest := LastAnswer(s.answers, a);
    if newest < 0 then a !in s.cache else a in s.cache && s.cache[a] == s.answers[newest].1.value
  }

  /** The entry of `a` is the newest successful answer about it, unless a call is about to
      commit that answer. */
  ghost predicate Fresh(s: State, a: string) {
    if Pending(s, a) then
      forall t | 0 <= t < |s.calls| && Holds(s.calls[t], a) :: s.calls[t].at == LastAnswer(s.answers, a)
    else Current(s, a)
  }

  predicate Holds(c: Call, a: string) { c.Committing? && c.addr == a }

  ghost predicate Pending(s: State, a: string) {
    exists t :: 0 <= t < |s.calls| && Holds(s.calls[t], a)
  }

  lemma LastAnswerAppend(answers: seq<(string, Option<Ips>)>, x: (string, Option<Ips>), a: string)
    ensures LastAnswer(answers + [x], a) == if x.0 == a && x.1.Some? then |answers| else LastAnswer(answers, a)
  {
    assert (answers + [x])[..|answers|] == answers;
  }

  /** A step of a call that holds an answer about `a` before and after, or neither. */
  lemma SamePending(s: State, s': State, t: nat, a: string)
    requires t < |s.calls| == |s'.calls| && forall u | 0 <= u < |s.calls| && u != t :: s'.calls[u] == s.calls[u]
    requires Holds(s.calls[t], a) == Holds(s'.calls[t], a)
    ensures Pending(s, a) <==> Pending(s', a)
  {
    if Pending(s, a) {
      var u :| 0 <= u < |s.calls| && Holds(s.calls[u], a);
      assert Holds(s'.calls[u], a);
    }
    if Pending(s', a) {
      var u :| 0 <= u < |s'.calls| && Holds(s'.calls[u], a);
      assert Holds(s.calls[u], a);
    }
  }

  lemma FreshStep(s: State, x: Step, a: string)
    requires Inv(s) && Enabled(s, x) && Exclusive(s, a) && Fresh(s, a)
    ensures Fresh(Take(s, x), a)
  {
    var s', c := Take(s, x), s.calls[x.t];
    if x.Answer? {
      LastAnswerAppend(s.answers, (c.addr, x.answer), a);
    }
    if (x.Answer? || x.Write?) && c.addr == a {
      assert BusyWith(c, a);
      forall t | 0 <= t < |s.calls| && Holds(s.calls[t], a) ensures t == x.t {
        assert BusyWith(s.calls[t], a);
      }
      if x.Answer? {
        AnsweredFresh(s, x, a);
      } else {
        assert Holds(s.calls[x.t], a);
        assert forall t | 0 <= t < |s'.calls| && t != x.t :: s'.calls[t] == s.calls[t];
        assert !Pending(s', a);
      }
    } else {
      SamePending(s, s', x.t, a);
    }
  }

  lemma AnsweredFresh(s: State, x: Step, a: string)
    requires Enabled(s, x) && x.Answer? && s.calls[x.t].addr == a && Fresh(s, a)
    requires forall t | 0 <= t < |s.calls| && Holds(s.calls[t], a) :: t == x.t
    ensures Fresh(Take(s, x), a)
  {
    var s' := Take(s, x);
    LastAnswerAppend(s.answers, (a, x.answer), a);
    assert !Pending(s, a);
    assert forall t | 0 <= t < |s'.calls| && t != x.t :: s'.calls[t] == s.calls[t];
    if x.answer.Some? {
      assert Holds(s'.calls[x.t], a);
    } else {
      assert !Pending(s', a);
    }
  }

  /** As long as lookups of an address never overlap, its entry is the newest answer about it. */
  lemma {:induction false} FreshIfExclusive(n: nat, run: seq<State>, steps: seq<Step>, a: string)
    requires IsRun(n, run, steps)
    requires forall i | 0 <= i < |steps| :: Exclusive(run[i], a)
    ensures Fresh(run[|steps|], a)
  {
    if steps == [] {
      assert !Pending(run[0], a);
    } else {
      var m := |steps| - 1;
      RunPrefix(n, run, steps, m);
      CacheIsLastCommits(n, run[..m + 1], steps[..m]);
      FreshIfExclusive(n, run[..m + 1], steps[..m], a);
      FreshStep(run[m], steps[m], a);
    }
  }

  // ----- Exactly when an entry stays fresh -----

  predicate Looks(c: Call, a: string) { c.Looking? && c.addr == a }

  /** No call has a lookup of `a` under way. */
  ghost predicate Quiet(s: State, a: string) {
    forall t | 0 <= t < |s.calls| :: !BusyWith(s.calls[t], a)
  }

  /** The step makes a call begin a lookup of `a`. */
  ghost predicate Begins(s: State, x: Step, a: string)
    requires Enabled(s, x)
  {
    Looks(Take(s, x).calls[x.t], a)
  }

  /** A continuation of `s` in which no further lookup of `a` begins. */
  ghost predicate Continues(s: State, run: seq<State>, steps: seq<Step>, a: string) {
    && Leads(s, run, steps)
    && forall i | 0 <= i < |steps| :: !Begins(run[i], steps[i], a)
  }

  /** However the calls under way go on, once they are over the entry is the newest answer. */
  ghost predicate StaysFresh(s: State, a: string) {
    forall run, steps | Continues(s, run, steps, a) && Quiet(run[|steps|], a) :: Current(run[|steps|], a)
  }

  /** No answer about `a` waits for its commit, and at most one call asks about a current entry; or
      no call asks, and every answer that waits says what the newest one says. */
  ghost predicate Settled(s: State, a: string) {
    if Pending(s, a) then
      && (forall t | 0 <= t < |s.calls| :: !Looks(s.calls[t], a))
      && LastAnswer(s.answers, a) >= 0
      && forall t | 0 <= t < |s.calls| && Holds(s.calls[t], a) ::
           s.calls[t].ips == s.answers[LastAnswer(s.answers, a)].1.value
    else
      && (forall t, u | 0 <= t < |s.calls| && 0 <= u < |s.calls| && Looks(s.calls[t], a) && Looks(s.calls[u], a)
         :: t == u)
      && Current(s, a)
  }

  lemma SettledStep(s: State, x: Step, a: string)
    requires Enabled(s, x) && !Begins(s, x, a) && Settled(s, a)
    ensures Settled(Take(s, x), a)
  {
    var s', c := Take(s, x), s.calls[x.t];
    assert forall t | 0 <= t < |s'.calls| && t != x.t :: s'.calls[t] == s.calls[t];
    if x.Answer? {
      LastAnswerAppend(s.answers, (c.addr, x.answer), a);
    }
    if Holds(s.calls[x.t], a) == Holds(s'.calls[x.t], a) {
      SamePending(s, s', x.t, a);
    } else if Holds(s'.calls[x.t], a) {
      assert Looks(c, a);
      assert !Pending(s, a);
    } else {
      assert Pending(s, a);
    }
  }

  lemma {:induction false} SettledThrough(s: State, run: seq<State>, steps: seq<Step>, a: string)
    requires Continues(s, run, steps, a) && Settled(s, a)
    ensures Settled(run[|steps|], a)
  {
    if steps != [] {
      var m := |steps| - 1;
      assert Continues(s, run[..m + 1], steps[..m], a);
      SettledThrough(s, run[..m + 1], steps[..m], a);
      assert Enabled(run[m], steps[m]);
      SettledStep(run[m], steps[m], a);
    }
  }

  // A call never asks about the same address twice.

  function Asks(c: Call): seq<string> { if c.Idle? then [] else [c.addr] + c.rest }

  ghost predicate AsksOnce(s: State) {
    forall t | 0 <= t < |s.calls| :: Distinct(Asks(s.calls[t]))
  }

  lemma AsksOnceStep(s: State, x: Step)
    requires AsksOnce(s) && Enabled(s, x)
    ensures AsksOnce(Take(s, x))
  {
    OthersKept(s, x);
    StepperAsksOnce(s, x);
    hide Take, Enabled, Asks, Distinct;
    forall t | 0 <= t < |Take(s, x).calls| ensures Distinct(Asks(Take(s, x).calls[t])) {
      if t != x.t {
        assert Take(s, x).calls[t] == s.calls[t];
      }
    }
  }

  lemma OthersKept(s: State, x: Step)
    requires Enabled(s, x)
    ensures x.t < |s.calls| == |Take(s, x).calls|
    ensures forall t | 0 <= t < |s.calls| && t != x.t :: Take(s, x).calls[t] == s.calls[t]
  {
  }

  lemma StepperAsksOnce(s: State, x: Step)
    requires AsksOnce(s) && Enabled(s, x)
    ensures Distinct(Asks(Take(s, x).calls[x.t]))
  {
    var c := s.calls[x.t];
    assert Distinct(Asks(c));
    match x
    case StartRefresh(_, addrs) =>
      KeysDistinct(addrs, s.cache.Keys);
      NextAsks(addrs);
    case Answer(_, _) =>
      RestDistinct(c);
      NextAsks(c.rest);
    case Write(_) =>
      RestDistinct(c);
      NextAsks(c.rest);
    case _ =>
  }

  lemma NextAsks(rest: seq<string>)
    ensures Asks(Next(rest)) == rest
  {
  }

  lemma RestDistinct(c: Call)
    requires !c.Idle? && Distinct(Asks(c))
    ensures Distinct(c.rest)
  {
    assert forall i | 0 <= i < |c.rest| :: c.rest[i] == Asks(c)[i + 1];
  }

  lemma KeysDistinct(addrs: seq<string>, keys: set<string>)
    requires multiset(addrs) == multiset(keys)
    ensures Distinct(addrs)
  {
    forall i, j | 0 <= i < j < |addrs| ensures addrs[i] != addrs[j] {
      if addrs[i] == addrs[j] {
        TwiceInMultiset(addrs, i, j);
      }
    }
  }

  lemma {:induction false} ReachableAsksOnce(n: nat, run: seq<State>, steps: seq<Step>)
    requires IsRun(n, run, steps)
    ensures AsksOnce(run[|steps|])
  {
    if steps != [] {
      var m := |steps| - 1;
      RunPrefix(n, run, steps, m);
      ReachableAsksOnce(n, run[..m + 1], steps[..m]);
      assert Enabled(run[m], steps[m]);
      AsksOnceStep(run[m], steps[m]);
    }
  }

  /** How many steps the calls busy with `a` still need for it. */
  function Work(calls: seq<Call>, a: string): nat {
    if calls == [] then 0
    else
      var c := calls[|calls| - 1];
      Work(calls[..|calls| - 1], a) + if Looks(c, a) then 2 else if Holds(c, a) then 1 else 0
  }

  lemma {:induction false} WorkFalls(calls: seq<Call>, t: nat, c: Call, a: string)
    requires t < |calls| && BusyWith(calls[t], a) && !Looks(c, a) && (Holds(c, a) ==> Looks(calls[t], a))
    ensures Work(calls[t := c], a) < Work(calls, a)
  {
    var m := |calls| - 1;
    if t == m {
      assert calls[t := c][..m] == calls[..m];
    } else {
      assert calls[t := c][..m] == calls[..m][t := c];
      WorkFalls(calls[..m], t, c, a);
    }
  }

  /** A step of a call busy with `a`: it answers or commits, and begins no lookup of `a`. */
  lemma BusyStep(s: State, x: Step, a: string)
    requires AsksOnce(s) && Enabled(s, x) && (x.Answer? || x.Write?) && s.calls[x.t].addr == a
    ensures !Begins(s, x, a) && AsksOnce(Take(s, x)) && Work(Take(s, x).calls, a) < Work(s.calls, a)
  {
    var c := s.calls[x.t];
    assert Distinct(Asks(c));
    assert c.rest != [] ==> Asks(c)[0] == a && Asks(c)[1] == c.rest[0];
    AsksOnceStep(s, x);
    WorkFalls(s.calls, x.t, Take(s, x).calls[x.t], a);
  }

  /** From an unsettled state the calls under way can leave an older answer in the cache. */
  lemma {:induction false} GoesStale(s: State, a: string) returns (run: seq<State>, steps: seq<Step>)
    requires AsksOnce(s) && !Settled(s, a)
    ensures Continues(s, run, steps, a) && Quiet(run[|steps|], a) && !Current(run[|steps|], a)
    decreases Work(s.calls, a)
  {
    if Quiet(s, a) {
      run, steps := [s], [];
      assert !Pending(s, a);
    } else {
      var x := UnsettlingStep(s, a);
      BusyStep(s, x, a);
      var run', steps' := GoesStale(Take(s, x), a);
      run, steps := [s] + run', [x] + steps';
      forall i | 0 <= i < |steps|
        ensures Enabled(run[i], steps[i]) && !Begins(run[i], steps[i], a) && run[i + 1] == Take(run[i], steps[i])
      {
        assert i > 0 ==> steps[i] == steps'[i - 1] && run[i] == run'[i - 1];
      }
    }
  }

  /** While calls are busy with `a`, one of them has a step that leaves the state unsettled. */
  lemma UnsettlingStep(s: State, a: string) returns (x: Step)
    requires AsksOnce(s) && !Settled(s, a) && !Quiet(s, a)
    ensures Enabled(s, x) && (x.Answer? || x.Write?) && s.calls[x.t].addr == a && !Settled(Take(s, x), a)
  {
    if exists t :: 0 <= t < |s.calls| && Looks(s.calls[t], a) {
      var t :| 0 <= t < |s.calls| && Looks(s.calls[t], a);
      if Pending(s, a) {
        var u :| 0 <= u < |s.calls| && Holds(s.calls[u], a);
        x := Answer(t, Some(s.calls[u].ips + [""]));
        AnswerOther(s, x, u, a);
      } else if exists u :: 0 <= u < |s.calls| && Looks(s.calls[u], a) && u != t {
        var u :| 0 <= u < |s.calls| && Looks(s.calls[u], a) && u != t;
        x := Answer(t, Some([]));
        assert Holds(Take(s, x).calls[t], a) && Looks(Take(s, x).calls[u], a);
      } else {
        x := Answer(t, None);
        AnswerNothing(s, x, a);
      }
    } else {
      var t :| 0 <= t < |s.calls| && BusyWith(s.calls[t], a);
      assert Holds(s.calls[t], a);
      x := WriteLast(s, a);
    }
  }

  /** An answer that differs from one that waits. */
  lemma AnswerOther(s: State, x: Step, u: nat, a: string)
    requires Enabled(s, x) && x.Answer? && x.answer.Some? && s.calls[x.t].addr == a
    requires u < |s.calls| && Holds(s.calls[u], a) && s.calls[u].ips != x.answer.value
    ensures !Settled(Take(s, x), a)
  {
    LastAnswerAppend(s.answers, (a, x.answer), a);
    assert Take(s, x).calls[u] == s.calls[u];
  }

  /** The only lookup fails. */
  lemma AnswerNothing(s: State, x: Step, a: string)
    requires AsksOnce(s) && Enabled(s, x) && x == Answer(x.t, None) && Looks(s.calls[x.t], a)
    requires !Pending(s, a) && !Current(s, a)
    ensures !Settled(Take(s, x), a)
  {
    LastAnswerAppend(s.answers, (a, None), a);
    BusyStep(s, x, a);
    SamePending(s, Take(s, x), x.t, a);
  }

  /** No call asks about `a` and an answer that waits is not the newest: the others commit first. */
  lemma WriteLast(s: State, a: string) returns (x: Step)
    requires AsksOnce(s) && Pending(s, a) && !Settled(s, a) && forall t | 0 <= t < |s.calls| :: !Looks(s.calls[t], a)
    ensures Enabled(s, x) && x.Write? && s.calls[x.t].addr == a && !Settled(Take(s, x), a)
  {
    var newest := LastAnswer(s.answers, a);
    var u :| 0 <= u < |s.calls| && Holds(s.calls[u], a) && (newest < 0 || s.calls[u].ips != s.answers[newest].1.value);
    if exists w :: 0 <= w < |s.calls| && Holds(s.calls[w], a) && w != u {
      var w :| 0 <= w < |s.calls| && Holds(s.calls[w], a) && w != u;
      x := Write(w);
      assert Take(s, x).calls[u] == s.calls[u];
    } else {
      x := Write(u);
      BusyStep(s, x, a);
      var s' := Take(s, x);
      assert forall t | 0 <= t < |s'.calls| && t != u :: s'.calls[t] == s.calls[t];
      assert !Pending(s', a);
    }
  }

  /** In every reachable state: the calls under way leave the newest answer in the cache, however
      they go on, if and only if the state is settled. */
  lemma FreshIffSettled(n: nat, run: seq<State>, steps: seq<Step>, a: string)
    requires IsRun(n, run, steps)
    ensures StaysFresh(run[|steps|], a) <==> Settled(run[|steps|], a)
  {
    var s := run[|steps|];
    ReachableAsksOnce(n, run, steps);
    if Settled(s, a) {
      forall more, xs | Continues(s, more, xs, a) && Quiet(more[|xs|], a) ensures Current(more[|xs|], a) {
        SettledThrough(s, more, xs, a);
        assert !Pending(more[|xs|], a);
      }
    } else {
      var more, xs := GoesStale(s, a);
    }
  }

  /** A lookup of `a` overlaps another one. */
  ghost predicate Overlap(s: State, a: string) {
    exists t, u :: 0 <= t < |s.calls| && 0 <= u < |s.calls| && t != u && Looks(s.calls[t], a) && BusyWith(s.calls[u], a)
  }

  /** Every overlap with a lookup that is not answered yet can leave an older answer in the cache; a
      fresh entry that at most one call is busy with stays fresh. */
  lemma OverlapGoesStale(n: nat, run: seq<State>, steps: seq<Step>, a: string)
    requires IsRun(n, run, steps)
    ensures Overlap(run[|steps|], a) ==> !StaysFresh(run[|steps|], a)
    ensures Exclusive(run[|steps|], a) && Fresh(run[|steps|], a) ==> StaysFresh(run[|steps|], a)
  {
    var s := run[|steps|];
    FreshIffSettled(n, run, steps, a);
    CacheIsLastCommits(n, run, steps);
    if Exclusive(s, a) && Fresh(s, a) {
      ExclusiveSettled(s, a);
    }
    if Overlap(s, a) {
      var t, u :| 0 <= t < |s.calls| && 0 <= u < |s.calls| && t != u && Looks(s.calls[t], a) && BusyWith(s.calls[u], a);
      assert Holds(s.calls[u], a) || Looks(s.calls[u], a);
    }
  }

  lemma ExclusiveSettled(s: State, a: string)
    requires Inv(s) && Exclusive(s, a) && Fresh(s, a)
    ensures Settled(s, a)
  {
    forall t | 0 <= t < |s.calls| && Holds(s.calls[t], a)
      ensures forall u | 0 <= u < |s.calls| :: !Looks(s.calls[u], a) {
      assert BusyWith(s.calls[t], a);
      forall u | 0 <= u < |s.calls| ensures !Looks(s.calls[u], a) {
        assert Looks(s.calls[u], a) ==> BusyWith(s.calls[u], a);
      }
    }
    assert forall t | 0 <= t < |s.calls| && Looks(s.calls[t], a) :: BusyWith(s.calls[t], a);
    if Pending(s, a) {
      var t :| 0 <= t < |s.calls| && Holds(s.calls[t], a);
      assert s.calls[t].at == LastAnswer(s.answers, a);
      assert Said(s.answers, s.calls[t].addr, s.calls[t].ips, s.calls[t].at);
    }
  }
}
