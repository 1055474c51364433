/** Filling placeholders: a chain of `strings.ReplaceAll` calls over a map, in whatever order the
    map is walked, against one simultaneous replacement (`CreateRequest` in
    `internal/openapi/template.go`). */
module Substitution {
  import opened Text

  /** A text with holes; a hole is written as its placeholder. */
  datatype Piece = Lit(text: string) | Hole(key: string)

  /** The value of every placeholder. */
  type Values = string -> string

  function Always(payload: string): Values { (k: string) => payload }

  function Same(): Values { (k: string) => k }

  /** What every hole shows when the placeholders in `done` are filled. */
  function Filled(done: set<string>, value: Values): Values {
    (k: string) => if k in done then value(k) else k
  }

  /** The text when every hole shows what `shows` says. */
  function Shown(ps: seq<Piece>, shows: Values): string {
    if ps == [] then ""
    else (if ps[0].Lit? then ps[0].text else shows(ps[0].key)) + Shown(ps[1..], shows)
  }

  /** The text as written. */
  function Plain(ps: seq<Piece>): string { Shown(ps, Same()) }

  /** The simultaneous replacement of the placeholders in `done`. */
  function Fill(ps: seq<Piece>, done: set<string>, value: Values): string { Shown(ps, Filled(done, value)) }

  /** One `ReplaceAll` after another, in the given order. */
  function Chain(s: string, order: seq<string>, value: Values): string {
    if order == [] then s
    else
      var last := order[|order| - 1];
      ReplaceAll(Chain(s, order[..|order| - 1], value), last, value(last))
  }

  /** What every hole shows after a chain of replacements. */
  function Chained(order: seq<string>, value: Values): Values { (k: string) => Chain(k, order, value) }

  /** Each element of `keys` once. */
  ghost predicate IsOrder(order: seq<string>, keys: set<string>) {
    && (forall k :: k in order <==> k in keys)
    && (forall i, j | 0 <= i < j < |order| :: order[i] != order[j])
  }

  ghost predicate HasHole(ps: seq<Piece>, k: string) {
    exists i | 0 <= i < |ps| :: ps[i] == Hole(k)
  }

  /** Every order in which the map is walked gives the simultaneous replacement. */
  ghost predicate OrderIrrelevant(ps: seq<Piece>, keys: set<string>, value: Values) {
    forall order | IsOrder(order, keys) :: Chain(Plain(ps), order, value) == Fill(ps, keys, value)
  }

  /** The text does not change when `k` is filled. */
  predicate Resists(s: string, k: string, value: Values) { !Contains(s, k) || value(k) == k }

  /** The value of a hole resists every other placeholder. */
  ghost predicate Harmless(ps: seq<Piece>, keys: set<string>, value: Values) {
    forall h, k | h in keys && HasHole(ps, h) && k in keys && k != h :: Resists(value(h), k, value)
  }

  // ----- One replacement -----

  /** No occurrence of `k` in `a + b` begins in `a` and ends in `b`. */
  ghost predicate NoStraddle(a: string, b: string, k: string) {
    forall i: nat | i < |a| && |a| < i + |k| :: !OccursAt(a + b, k, i)
  }

  lemma PrefixOfConcat(a: string, b: string, k: string)
    requires k != "" && a != "" && NoStraddle(a, b, k)
    ensures HasPrefix(a + b, k) <==> HasPrefix(a, k)
  {
    assert HasPrefix(a + b, k) <==> OccursAt(a + b, k, 0);
    if |k| <= |a| {
      assert (a + b)[..|k|] == a[..|k|];
    }
  }

  lemma {:induction false} ReplaceConcat(a: string, b: string, k: string, v: string)
    requires k != "" && NoStraddle(a, b, k)
    ensures ReplaceAll(a + b, k, v) == ReplaceAll(a, k, v) + ReplaceAll(b, k, v)
    decreases |a|
  {
    if a == "" {
      assert a + b == b;
    } else {
      PrefixOfConcat(a, b, k);
      if HasPrefix(a, k) {
        assert (a + b)[|k|..] == a[|k|..] + b;
        DropStraddle(a, b, k, |k|);
        ReplaceConcat(a[|k|..], b, k, v);
      } else {
        assert (a + b)[1..] == a[1..] + b;
        DropStraddle(a, b, k, 1);
        ReplaceConcat(a[1..], b, k, v);
      }
    }
  }

  lemma DropStraddle(a: string, b: string, k: string, n: nat)
    requires NoStraddle(a, b, k) && n <= |a|
    ensures NoStraddle(a[n..], b, k)
  {
    assert (a + b)[n..] == a[n..] + b;
    forall i: nat | i < |a[n..]| && |a[n..]| < i + |k| ensures !OccursAt(a[n..] + b, k, i) {
      OccursShift(a + b, k, n, i);
    }
  }

  lemma {:induction false} ReplaceNothing(s: string, k: string, v: string)
    requires k != "" && !Contains(s, k)
    ensures ReplaceAll(s, k, v) == s
  {
    if s != "" {
      ReplaceNothing(s[1..], k, v);
    }
  }

  lemma ReplaceWhole(k: string, v: string)
    requires k != ""
    ensures ReplaceAll(k, k, v) == v
  {
    assert k[..|k|] == k && k[|k|..] == "";
    assert v + "" == v;
  }

  /** A placeholder replaced by itself. */
  lemma {:induction false} ReplaceSelf(s: string, k: string)
    requires k != ""
    ensures ReplaceAll(s, k, k) == s
  {
    if s == "" {
    } else if HasPrefix(s, k) {
      ReplaceSelf(s[|k|..], k);
      assert s == s[..|k|] + s[|k|..];
    } else {
      ReplaceSelf(s[1..], k);
    }
  }

  lemma {:induction false} ReplaceLonger(s: string, k: string, v: string)
    requires 0 < |k| <= |v|
    ensures |ReplaceAll(s, k, v)| >= |s|
    ensures |k| < |v| && Contains(s, k) ==> |ReplaceAll(s, k, v)| > |s|
  {
    if s != "" {
      ReplaceLonger(if HasPrefix(s, k) then s[|k|..] else s[1..], k, v);
    }
  }

  lemma {:induction false} ContainsSameLength(s: string, k: string)
    requires |s| == |k|
    ensures Contains(s, k) ==> s == k
  {
    if HasPrefix(s, k) {
      assert s[..|k|] == s;
    } else if s != "" {
      ContainsShorter(s[1..], k);
    }
  }

  lemma {:induction false} ContainsShorter(s: string, k: string)
    requires |s| < |k|
    ensures !Contains(s, k)
  {
    if s != "" {
      ContainsShorter(s[1..], k);
    }
  }

  lemma ContainedShorter(s: string, k: string)
    requires Contains(s, k) && s != k
    ensures |k| < |s|
  {
    if |s| < |k| {
      ContainsShorter(s, k);
    } else if |s| == |k| {
      ContainsSameLength(s, k);
    }
  }

  lemma {:induction false} ContainsConcat(a: string, b: string, k: string)
    ensures Contains(a, k) || Contains(b, k) ==> Contains(a + b, k)
    ensures k != "" && NoStraddle(a, b, k) ==> (Contains(a + b, k) <==> Contains(a, k) || Contains(b, k))
  {
    if a == "" {
      assert a + b == b;
      ContainsEmpty(k, b);
    } else {
      assert (a + b)[1..] == a[1..] + b;
      ContainsConcat(a[1..], b, k);
      if HasPrefix(a, k) {
        assert (a + b)[..|k|] == k;
      }
      if k != "" && NoStraddle(a, b, k) {
        PrefixOfConcat(a, b, k);
        DropStraddle(a, b, k, 1);
      }
    }
  }

  lemma ContainsEmpty(k: string, b: string)
    ensures Contains("", k) ==> k == "" && Contains(b, k)
  {
  }

  // ----- Texts with holes -----

  lemma {:induction false} ShownEqual(ps: seq<Piece>, f: Values, g: Values)
    requires forall k | HasHole(ps, k) :: f(k) == g(k)
    ensures Shown(ps, f) == Shown(ps, g)
  {
    if ps != [] {
      HolesOfRest(ps);
      ShownEqual(ps[1..], f, g);
    }
  }

  lemma {:induction false} ShownLonger(ps: seq<Piece>, f: Values, g: Values, h: string)
    requires forall k | HasHole(ps, k) :: |f(k)| >= |g(k)|
    ensures |Shown(ps, f)| >= |Shown(ps, g)|
    ensures HasHole(ps, h) && |f(h)| > |g(h)| ==> |Shown(ps, f)| > |Shown(ps, g)|
  {
    if ps != [] {
      HolesOfRest(ps);
      ShownLonger(ps[1..], f, g, h);
    }
  }

  lemma HolesOfRest(ps: seq<Piece>)
    requires ps != []
    ensures forall k :: HasHole(ps, k) <==> ps[0] == Hole(k) || HasHole(ps[1..], k)
  {
    forall k | HasHole(ps, k) ensures ps[0] == Hole(k) || HasHole(ps[1..], k) {
      var i :| 0 <= i < |ps| && ps[i] == Hole(k);
      assert i > 0 ==> ps[1..][i - 1] == Hole(k);
    }
    forall k | HasHole(ps[1..], k) ensures HasHole(ps, k) {
      var i :| 0 <= i < |ps[1..]| && ps[1..][i] == Hole(k);
      assert ps[i + 1] == Hole(k);
    }
  }

  lemma {:induction false} ShownContains(ps: seq<Piece>, shows: Values, h: string, k: string)
    requires HasHole(ps, h) && Contains(shows(h), k)
    ensures Contains(Shown(ps, shows), k)
  {
    HolesOfRest(ps);
    var first := if ps[0].Lit? then ps[0].text else shows(ps[0].key);
    ContainsConcat(first, Shown(ps[1..], shows), k);
    if ps[0] != Hole(h) {
      ShownContains(ps[1..], shows, h, k);
    }
  }

  // ----- Chains -----

  lemma {:induction false} ChainConcat(s: string, a: seq<string>, b: seq<string>, value: Values)
    ensures Chain(s, a + b, value) == Chain(Chain(s, a, value), b, value)
  {
    if b == [] {
      assert a + b == a;
    } else {
      assert (a + b)[..|a + b| - 1] == a + b[..|b| - 1];
      ChainConcat(s, a, b[..|b| - 1], value);
    }
  }

  /** A text that none of the replacements changes. */
  lemma {:induction false} ChainKeeps(s: string, order: seq<string>, value: Values)
    requires forall k | k in order :: k != "" && Resists(s, k, value)
    ensures Chain(s, order, value) == s
  {
    if order != [] {
      var before, k := order[..|order| - 1], order[|order| - 1];
      assert k in order && forall x | x in before :: x in order;
      ChainKeeps(s, before, value);
      if Contains(s, k) {
        ReplaceSelf(s, k);
      } else {
        ReplaceNothing(s, k, value(k));
      }
    }
  }

  /** No hole contains a placeholder other than its own. */
  ghost predicate Apart(ps: seq<Piece>, keys: set<string>) {
    && (forall k | k in keys :: k != "")
    && (forall h, k | HasHole(ps, h) && k in keys && k != h :: !Contains(h, k))
  }

  /** `h` is filled before `k`. */
  ghost predicate FilledBefore(order: seq<string>, h: string, k: string) {
    exists i, j :: 0 <= i < j < |order| && order[i] == h && order[j] == k
  }

  /** The turn of a key in an order. */
  lemma Turn(order: seq<string>, keys: set<string>, h: string) returns (before: seq<string>, after: seq<string>)
    requires IsOrder(order, keys) && h in keys
    ensures order == before + [h] + after && h !in before
    ensures forall k | k in before :: k in keys
    ensures forall k | k in after :: k in keys && FilledBefore(order, h, k)
  {
    var i :| 0 <= i < |order| && order[i] == h;
    before, after := order[..i], order[i + 1..];
    forall k | k in before ensures k in keys && k != h {
      var j :| 0 <= j < i && order[j] == k;
    }
    forall k | k in after ensures k in keys && FilledBefore(order, h, k) {
      var j :| i < j < |order| && order[j] == k;
    }
  }

  /** Until its own turn a hole shows its placeholder; then it shows its value. */
  lemma HoleFilled(ps: seq<Piece>, keys: set<string>, h: string, before: seq<string>, after: seq<string>, value: Values)
    requires Apart(ps, keys) && HasHole(ps, h) && h in keys && h !in before && forall k | k in before :: k in keys
    ensures Chain(h, before + [h] + after, value) == Chain(value(h), after, value)
  {
    ChainKeeps(h, before, value);
    ChainConcat(h, before, [h], value);
    assert [h][..0] == [];
    ReplaceWhole(h, value(h));
    ChainConcat(h, before + [h], after, value);
  }

  lemma HoleSettled(ps: seq<Piece>, keys: set<string>, h: string, order: seq<string>, value: Values)
    requires Apart(ps, keys) && HasHole(ps, h) && IsOrder(order, keys)
    requires forall k | FilledBefore(order, h, k) :: Resists(value(h), k, value)
    ensures Chain(h, order, value) == if h in keys then value(h) else h
  {
    if h in keys {
      var before, after := Turn(order, keys, h);
      HoleFilled(ps, keys, h, before, after, value);
      ChainKeeps(value(h), after, value);
    } else {
      ChainKeeps(h, order, value);
    }
  }

  /** The chain acts on every hole by itself. */
  ghost predicate Piecewise(ps: seq<Piece>, order: seq<string>, value: Values) {
    Chain(Plain(ps), order, value) == Shown(ps, Chained(order, value))
  }

  /** An order in which no filled hole changes again gives the simultaneous replacement. */
  lemma SettledOrder(ps: seq<Piece>, keys: set<string>, order: seq<string>, value: Values)
    requires Apart(ps, keys) && IsOrder(order, keys) && Piecewise(ps, order, value)
    requires forall h, k | HasHole(ps, h) && FilledBefore(order, h, k) :: Resists(value(h), k, value)
    ensures Chain(Plain(ps), order, value) == Fill(ps, keys, value)
  {
    forall h | HasHole(ps, h) ensures Chain(h, order, value) == if h in keys then value(h) else h {
      HoleSettled(ps, keys, h, order, value);
    }
    ShownEqual(ps, Chained(order, value), Filled(keys, value));
  }

  lemma HarmlessSettles(ps: seq<Piece>, keys: set<string>, order: seq<string>, value: Values)
    requires Harmless(ps, keys, value) && IsOrder(order, keys)
    ensures forall h, k | HasHole(ps, h) && FilledBefore(order, h, k) :: Resists(value(h), k, value)
  {
    forall h, k | HasHole(ps, h) && FilledBefore(order, h, k) ensures Resists(value(h), k, value) {
      var i, j :| 0 <= i < j < |order| && order[i] == h && order[j] == k;
      assert order[i] in order && order[j] in order;
    }
  }

  lemma {:induction false} SomeOrder(keys: set<string>) returns (order: seq<string>)
    ensures IsOrder(order, keys)
  {
    if keys == {} {
      order := [];
    } else {
      var k :| k in keys;
      order := SomeOrder(keys - {k});
      order := order + [k];
    }
  }

  lemma OrdersJoin(a: seq<string>, ka: set<string>, b: seq<string>, kb: set<string>)
    requires IsOrder(a, ka) && IsOrder(b, kb) && ka !! kb
    ensures IsOrder(a + b, ka + kb)
  {
    forall i, j | 0 <= i < j < |a + b| ensures (a + b)[i] != (a + b)[j] {
      if i < |a| <= j {
        assert a[i] in a && b[j - |a|] in b;
      }
    }
  }

  // ----- Bodies: words between delimiters -----

  predicate IsLetter(c: char) { 'a' <= c <= 'z' || 'A' <= c <= 'Z' }

  /** A minted placeholder: `n` letters. */
  predicate IsWord(k: string, n: nat) {
    |k| == n && forall i | 0 <= i < n :: IsLetter(k[i])
  }

  /** Literals and holes alternate, and no letter stands next to a hole. */
  predicate Delimited(ps: seq<Piece>) {
    ps != [] ==>
      && (|ps| > 1 ==>
            match ps[0]
            case Hole(_) => ps[1].Lit? && ps[1].text != "" && !IsLetter(ps[1].text[0])
            case Lit(text) => ps[1].Hole? && (text == "" || !IsLetter(text[|text| - 1])))
      && Delimited(ps[1..])
  }

  /** The holes and the keys are words of one length, and no literal contains a key. */
  ghost predicate WordsOnly(ps: seq<Piece>, keys: set<string>, n: nat) {
    && (forall k | k in keys :: IsWord(k, n))
    && (forall k | HasHole(ps, k) :: |k| == n)
    && LiteralsFree(ps, keys)
  }

  ghost predicate LiteralsFree(ps: seq<Piece>, keys: set<string>) {
    forall i, k | 0 <= i < |ps| && ps[i].Lit? && k in keys :: !Contains(ps[i].text, k)
  }

  lemma CutByNonLetter(a: string, b: string, k: string, n: nat)
    requires IsWord(k, n)
    requires a == "" || b == "" || !IsLetter(a[|a| - 1]) || !IsLetter(b[0])
    ensures NoStraddle(a, b, k)
  {
    forall i: nat | i < |a| && |a| < i + |k| ensures !OccursAt(a + b, k, i) {
      OccurrenceAt(a + b, k, i, |a| - 1 - i);
      OccurrenceAt(a + b, k, i, |a| - i);
    }
  }

  function Replaced(shows: Values, k: string, v: string): Values { (x: string) => ReplaceAll(shows(x), k, v) }

  /** One `ReplaceAll` of a word acts on every hole by itself, whatever the holes show. */
  lemma {:induction false} ReplaceShown(ps: seq<Piece>, shows: Values, k: string, n: nat, v: string)
    requires 0 < n && IsWord(k, n) && Delimited(ps) && LiteralsFree(ps, {k})
    ensures ReplaceAll(Shown(ps, shows), k, v) == Shown(ps, Replaced(shows, k, v))
  {
    if ps != [] {
      var first, rest := if ps[0].Lit? then ps[0].text else shows(ps[0].key), Shown(ps[1..], shows);
      assert LiteralsFree(ps[1..], {k}) by {
        forall i | 0 <= i < |ps[1..]| && ps[1..][i].Lit? ensures !Contains(ps[1..][i].text, k) {
          assert ps[1..][i] == ps[i + 1];
        }
      }
      ReplaceShown(ps[1..], shows, k, n, v);
      CutByNonLetter(first, rest, k, n);
      ReplaceConcat(first, rest, k, v);
      if ps[0].Lit? {
        ReplaceNothing(first, k, v);
      }
    }
  }

  /** Hence a chain of replacements acts on every hole by itself. */
  lemma {:induction false} WordsPiecewise(ps: seq<Piece>, keys: set<string>, n: nat, order: seq<string>, value: Values)
    requires 0 < n && Delimited(ps) && WordsOnly(ps, keys, n) && forall k | k in order :: k in keys
    ensures Piecewise(ps, order, value)
  {
    if order == [] {
      ShownEqual(ps, Same(), Chained(order, value));
    } else {
      var before, k := order[..|order| - 1], order[|order| - 1];
      assert k in order && forall x | x in before :: x in order;
      WordsPiecewise(ps, keys, n, before, value);
      ReplaceShown(ps, Chained(before, value), k, n, value(k));
      ShownEqual(ps, Replaced(Chained(before, value), k, value(k)), Chained(order, value));
    }
  }

  lemma WordsApart(ps: seq<Piece>, keys: set<string>, n: nat)
    requires 0 < n && WordsOnly(ps, keys, n)
    ensures Apart(ps, keys)
  {
    forall h, k | HasHole(ps, h) && k in keys && k != h ensures !Contains(h, k) {
      ContainsSameLength(h, k);
    }
  }

  /** Bodies: every order of the replacements gives the simultaneous one if and only if the payload
      contains no key, other than a hole's own, that filling would change. */
  lemma BodyOrderIff(ps: seq<Piece>, keys: set<string>, n: nat, payload: string)
    requires 0 < n && Delimited(ps) && WordsOnly(ps, keys, n)
    ensures OrderIrrelevant(ps, keys, Always(payload)) <==> Harmless(ps, keys, Always(payload))
  {
    hide Chain, Shown, Delimited, WordsOnly, Contains;
    var value := Always(payload);
    WordsApart(ps, keys, n);
    if Harmless(ps, keys, value) {
      forall order | IsOrder(order, keys) ensures Chain(Plain(ps), order, value) == Fill(ps, keys, value) {
        WordsPiecewise(ps, keys, n, order, value);
        HarmlessSettles(ps, keys, order, value);
        SettledOrder(ps, keys, order, value);
      }
    } else {
      var h, k :| h in keys && HasHole(ps, h) && k in keys && k != h && !Resists(payload, k, value);
      var order := GrowingOrder(ps, keys, n, payload, h, k);
    }
  }

  lemma {:induction false} ChainLonger(s: string, order: seq<string>, value: Values)
    requires forall k | k in order :: 0 < |k| <= |value(k)|
    ensures |Chain(s, order, value)| >= |s|
  {
    if order != [] {
      var before, k := order[..|order| - 1], order[|order| - 1];
      ChainLonger(s, before, value);
      ReplaceLonger(Chain(s, before, value), k, value(k));
    }
  }

  /** When `h` is filled first and then `k`, which the payload contains, the text outgrows the
      simultaneous replacement. */
  lemma GrowingOrder(ps: seq<Piece>, keys: set<string>, n: nat, payload: string, h: string, k: string)
    returns (order: seq<string>)
    requires 0 < n && Delimited(ps) && WordsOnly(ps, keys, n)
    requires h in keys && HasHole(ps, h) && k in keys && k != h && Contains(payload, k) && payload != k
    ensures IsOrder(order, keys)
    ensures |Chain(Plain(ps), order, Always(payload))| > |Fill(ps, keys, Always(payload))|
  {
    var value := Always(payload);
    var rest := SomeOrder(keys - {h, k});
    order := [h, k] + rest;
    OrderFromTwo(h, k, rest, keys);
    assert forall x | x in rest :: x in keys;
    ContainedShorter(payload, k);
    WordsApart(ps, keys, n);
    WordsPiecewise(ps, keys, n, order, value);
    forall x | HasHole(ps, x) ensures |Chain(x, order, value)| >= |Filled(keys, value)(x)| {
      HoleGrows(ps, keys, x, order, value);
    }
    FirstGrows(ps, keys, h, k, payload, rest);
    hide Chain, Shown, HasHole, Delimited, WordsOnly, IsOrder;
    ShownLonger(ps, Chained(order, value), Filled(keys, value), h);
  }

  lemma FirstGrows(ps: seq<Piece>, keys: set<string>, h: string, k: string, payload: string, rest: seq<string>)
    requires Apart(ps, keys) && HasHole(ps, h) && h in keys && k in keys
    requires |k| < |payload| && Contains(payload, k) && forall x | x in rest :: 0 < |x| <= |payload|
    ensures |Chain(h, [h, k] + rest, Always(payload))| > |payload|
  {
    hide ReplaceAll, Contains;
    assert [h, k] + rest == [] + [h] + ([k] + rest);
    HoleFilled(ps, keys, h, [], [k] + rest, Always(payload));
    ChainConcat(payload, [k], rest, Always(payload));
    assert [k][..0] == [];
    ReplaceLonger(payload, k, payload);
    ChainLonger(ReplaceAll(payload, k, payload), rest, Always(payload));
  }

  lemma OrderFromTwo(h: string, k: string, rest: seq<string>, keys: set<string>)
    requires h in keys && k in keys && h != k && IsOrder(rest, keys - {h, k})
    ensures IsOrder([h, k] + rest, keys)
  {
    assert IsOrder([h, k], {h, k});
    OrdersJoin([h, k], {h, k}, rest, keys - {h, k});
    assert {h, k} + (keys - {h, k}) == keys;
  }

  lemma HoleGrows(ps: seq<Piece>, keys: set<string>, h: string, order: seq<string>, value: Values)
    requires Apart(ps, keys) && HasHole(ps, h) && IsOrder(order, keys)
    requires forall k | k in keys :: 0 < |k| <= |value(k)|
    ensures |Chain(h, order, value)| >= |Filled(keys, value)(h)|
  {
    if h in keys {
      var before, after := Turn(order, keys, h);
      HoleFilled(ps, keys, h, before, after, value);
      ChainLonger(value(h), after, value);
    } else {
      ChainLonger(h, order, value);
    }
  }

  /** The payload contains at most one admitted key that has a hole. */
  ghost predicate HoldsOneHole(ps: seq<Piece>, keys: set<string>, payload: string) {
    forall h, k | h in keys && HasHole(ps, h) && Contains(payload, h) && k in keys && HasHole(ps, k)
                  && Contains(payload, k) :: h == k
  }

  /** Under the same condition all orders agree with each other, where the payload contains at most
      one of the keys that have holes; `OrderAgreement` has the other payloads. */
  lemma OneHoleAgrees(ps: seq<Piece>, keys: set<string>, n: nat, payload: string)
    requires 0 < n && Delimited(ps) && WordsOnly(ps, keys, n) && HoldsOneHole(ps, keys, payload)
    ensures Harmless(ps, keys, Always(payload)) <==>
      forall o, o' | IsOrder(o, keys) && IsOrder(o', keys) ::
        Chain(Plain(ps), o, Always(payload)) == Chain(Plain(ps), o', Always(payload))
  {
    hide Chain, Shown, Delimited, WordsOnly, Contains;
    var value := Always(payload);
    BodyOrderIff(ps, keys, n, payload);
    if !Harmless(ps, keys, value) {
      var h, k :| h in keys && HasHole(ps, h) && k in keys && k != h && !Resists(payload, k, value);
      var o := GrowingOrder(ps, keys, n, payload, h, k);
      var o' := SettlingOrder(ps, keys, payload);
      WordsApart(ps, keys, n);
      WordsPiecewise(ps, keys, n, o', value);
      SettledOrder(ps, keys, o', value);
    }
  }

  /** First the keys in the payload, those with holes last, and then the others. */
  lemma SettlingOrder(ps: seq<Piece>, keys: set<string>, payload: string) returns (order: seq<string>)
    requires HoldsOneHole(ps, keys, payload)
    ensures IsOrder(order, keys)
    ensures forall h, k | HasHole(ps, h) && FilledBefore(order, h, k) :: Resists(payload, k, Always(payload))
  {
    var first := set k | k in keys && Contains(payload, k) && !HasHole(ps, k);
    var second := set k | k in keys && Contains(payload, k) && HasHole(ps, k);
    var o1 := SomeOrder(first);
    var o2 := SomeOrder(second);
    var o3 := SomeOrder(keys - first - second);
    order := o1 + o2 + o3;
    assert forall i | 0 <= i < |order| ::
      order[i] == if i < |o1| then o1[i] else if i < |o1| + |o2| then o2[i - |o1|] else o3[i - |o1| - |o2|];
    OrdersJoin(o1, first, o2, second);
    OrdersJoin(o1 + o2, first + second, o3, keys - first - second);
    assert first + second + (keys - first - second) == keys;
    forall h, k | HasHole(ps, h) && FilledBefore(order, h, k) ensures Resists(payload, k, Always(payload)) {
      var i, j :| 0 <= i < j < |order| && order[i] == h && order[j] == k;
      if j < |o1| + |o2| {
        assert order[i] in first + second && order[j] in first + second;
        assert h in second && i >= |o1|;
        assert k in second;
      } else {
        assert order[j] in keys - first - second;
      }
    }
  }
}
