/** Filling the parameters of a path: names in braces, which a payload may contain as well.  One
    replacement is one substitution on the pieces of the text. */
module PathSubstitution {
  import opened Text
  import opened Substitution

  /** `{name}`, the key of a path parameter. */
  predicate IsBraced(k: string) {
    && |k| >= 2 && k[0] == '{' && k[|k| - 1] == '}'
    && forall i | 0 < i < |k| - 1 :: k[i] != '{' && k[i] != '}'
  }

  /** A closing brace follows every opening one. */
  ghost predicate ClosedEnd(s: string) {
    forall i | 0 <= i < |s| && s[i] == '{' :: exists j :: i < j < |s| && s[j] == '}'
  }

  /** An opening brace comes before every closing one. */
  ghost predicate ClosedStart(s: string) {
    forall i | 0 <= i < |s| && s[i] == '}' :: exists j :: 0 <= j < i && s[j] == '{'
  }

  /** No brace stays open at the end, or none is closed that was not opened. */
  ghost predicate Closed(s: string, end: bool) { if end then ClosedEnd(s) else ClosedStart(s) }

  /** A text that contains no key, and of two such texts none begins in one and ends in the other. */
  ghost predicate Inert(s: string, keys: set<string>, end: bool) {
    Closed(s, end) && forall k | k in keys :: !Contains(s, k)
  }

  ghost predicate BracedOnly(ps: seq<Piece>, keys: set<string>, end: bool) {
    && (forall k | k in keys :: IsBraced(k))
    && (forall i | 0 <= i < |ps| :: if ps[i].Lit? then Inert(ps[i].text, keys, end) else IsBraced(ps[i].key))
  }

  /** A key that occurs in `k' + b` from its first character on is `k'` itself. */
  lemma BracedPrefix(k: string, k': string, b: string)
    requires IsBraced(k) && IsBraced(k')
    ensures OccursAt(k' + b, k, 0) ==> k == k'
  {
    OccurrenceAt(k' + b, k, 0, |k| - 1);
    OccurrenceAt(k' + b, k, 0, |k'| - 1);
    if |k| == |k'| {
      assert (k' + b)[0..|k|] == k';
    }
  }

  lemma {:induction false} NoBraceNoKey(s: string, k: string)
    requires IsBraced(k) && forall i | 0 <= i < |s| :: s[i] != '{'
    ensures !Contains(s, k)
  {
    assert HasPrefix(s, k) <==> OccursAt(s, k, 0);
    OccurrenceAt(s, k, 0, 0);
    if s != "" {
      NoBraceNoKey(s[1..], k);
    }
  }

  lemma HoleHoldsItself(k': string, k: string)
    requires IsBraced(k') && IsBraced(k)
    ensures Contains(k', k) ==> k' == k
  {
    assert k' + "" == k' && (HasPrefix(k', k) <==> OccursAt(k', k, 0));
    BracedPrefix(k, k', "");
    NoBraceNoKey(k'[1..], k);
  }

  lemma CutByClosedEnd(a: string, b: string, k: string)
    requires IsBraced(k) && ClosedEnd(a)
    ensures NoStraddle(a, b, k)
  {
    forall i: nat | i < |a| && |a| < i + |k| ensures !OccursAt(a + b, k, i) {
      OccurrenceAt(a + b, k, i, 0);
      if a[i] == '{' {
        var j :| i < j < |a| && a[j] == '}';
        OccurrenceAt(a + b, k, i, j - i);
      }
    }
  }

  lemma CutByClosedStart(a: string, b: string, k: string)
    requires IsBraced(k) && ClosedStart(b)
    ensures NoStraddle(a, b, k)
  {
    forall i: nat | i < |a| && |a| < i + |k| ensures !OccursAt(a + b, k, i) {
      var e := i + |k| - 1;
      OccurrenceAt(a + b, k, i, |k| - 1);
      if e < |a + b| && b[e - |a|] == '}' {
        var j :| 0 <= j < e - |a| && b[j] == '{';
        OccurrenceAt(a + b, k, i, |a| + j - i);
      }
    }
  }

  lemma BracedIsClosed(k: string, end: bool)
    requires IsBraced(k)
    ensures Closed(k, end)
  {
    assert k[|k| - 1] == '}' && k[0] == '{';
  }

  lemma ClosedConcat(a: string, b: string, end: bool)
    requires Closed(a, end) && Closed(b, end)
    ensures Closed(a + b, end)
  {
    var s := a + b;
    if end {
      forall i | 0 <= i < |s| && s[i] == '{' ensures exists j :: i < j < |s| && s[j] == '}' {
        if i < |a| {
          var j :| i < j < |a| && a[j] == '}';
          assert s[j] == '}';
        } else {
          var j :| i - |a| < j < |b| && b[j] == '}';
          assert s[|a| + j] == '}';
        }
      }
    } else {
      forall i | 0 <= i < |s| && s[i] == '}' ensures exists j :: 0 <= j < i && s[j] == '{' {
        if i < |a| {
          var j :| 0 <= j < i && a[j] == '{';
          assert s[j] == '{';
        } else {
          var j :| 0 <= j < i - |a| && b[j] == '{';
          assert s[|a| + j] == '{';
        }
      }
    }
  }

  /** A literal or a hole, as text. */
  function PieceText(p: Piece): string { if p.Lit? then p.text else p.key }

  lemma PlainOne(p: Piece)
    ensures Plain([p]) == PieceText(p)
  {
    assert Shown([p][1..], Same()) == "";
  }

  lemma {:induction false} PlainClosed(ps: seq<Piece>, keys: set<string>, end: bool)
    requires BracedOnly(ps, keys, end)
    ensures Closed(Plain(ps), end)
  {
    if ps != [] {
      assert forall i | 0 <= i < |ps[1..]| :: ps[1..][i] == ps[i + 1];
      PlainClosed(ps[1..], keys, end);
      if ps[0].Hole? {
        BracedIsClosed(ps[0].key, end);
      }
      ClosedConcat(PieceText(ps[0]), Plain(ps[1..]), end);
    }
  }

  lemma BracedFirst(ps: seq<Piece>, keys: set<string>, k: string, end: bool)
    requires ps != [] && BracedOnly(ps, keys, end) && k in keys
    ensures Plain(ps) == PieceText(ps[0]) + Plain(ps[1..]) && BracedOnly(ps[1..], keys, end)
    ensures NoStraddle(PieceText(ps[0]), Plain(ps[1..]), k)
    ensures Contains(PieceText(ps[0]), k) <==> ps[0] == Hole(k)
  {
    assert forall i | 0 <= i < |ps[1..]| :: ps[1..][i] == ps[i + 1];
    if ps[0].Hole? {
      BracedIsClosed(ps[0].key, end);
      HoleHoldsItself(ps[0].key, k);
    }
    if end {
      CutByClosedEnd(PieceText(ps[0]), Plain(ps[1..]), k);
    } else {
      PlainClosed(ps[1..], keys, end);
      CutByClosedStart(PieceText(ps[0]), Plain(ps[1..]), k);
    }
  }

  /** The keys in a text are those of its holes. */
  lemma {:induction false} ContainsIffHole(ps: seq<Piece>, keys: set<string>, k: string, end: bool)
    requires BracedOnly(ps, keys, end) && k in keys
    ensures Contains(Plain(ps), k) <==> HasHole(ps, k)
  {
    if ps != [] {
      BracedFirst(ps, keys, k, end);
      ContainsIffHole(ps[1..], keys, k, end);
      ContainsConcat(PieceText(ps[0]), Plain(ps[1..]), k);
      HolesOfRest(ps);
    }
  }

  /** The holes of `k` become the pieces `v`. */
  function Subst(ps: seq<Piece>, k: string, v: seq<Piece>): seq<Piece> {
    if ps == [] then [] else (if ps[0] == Hole(k) then v else [ps[0]]) + Subst(ps[1..], k, v)
  }

  lemma {:induction false} PlainConcat(a: seq<Piece>, b: seq<Piece>)
    ensures Plain(a + b) == Plain(a) + Plain(b)
  {
    if a == [] {
      assert a + b == b;
    } else {
      assert (a + b)[1..] == a[1..] + b;
      PlainConcat(a[1..], b);
    }
  }

  /** One `ReplaceAll` is one substitution. */
  lemma {:induction false} ReplaceIsSubst(ps: seq<Piece>, keys: set<string>, k: string, v: seq<Piece>, end: bool)
    requires BracedOnly(ps, keys, end) && k in keys
    ensures ReplaceAll(Plain(ps), k, Plain(v)) == Plain(Subst(ps, k, v))
  {
    if ps != [] {
      BracedFirst(ps, keys, k, end);
      ReplaceIsSubst(ps[1..], keys, k, v, end);
      ReplaceConcat(PieceText(ps[0]), Plain(ps[1..]), k, Plain(v));
      PlainConcat(if ps[0] == Hole(k) then v else [ps[0]], Subst(ps[1..], k, v));
      if ps[0] == Hole(k) {
        ReplaceWhole(k, Plain(v));
      } else {
        ReplaceNothing(PieceText(ps[0]), k, Plain(v));
        PlainOne(ps[0]);
      }
    }
  }

  lemma {:induction false} SubstHoles(ps: seq<Piece>, keys: set<string>, k: string, v: seq<Piece>, end: bool)
    requires BracedOnly(ps, keys, end) && BracedOnly(v, keys, end)
    ensures BracedOnly(Subst(ps, k, v), keys, end)
    ensures forall x | HasHole(Subst(ps, k, v), x) :: HasHole(v, x) || (HasHole(ps, x) && x != k)
  {
    if ps != [] {
      assert forall i | 0 <= i < |ps[1..]| :: ps[1..][i] == ps[i + 1];
      SubstHoles(ps[1..], keys, k, v, end);
      HolesOfRest(ps);
      var first, rest := if ps[0] == Hole(k) then v else [ps[0]], Subst(ps[1..], k, v);
      forall x | HasHole(first + rest, x) ensures HasHole(v, x) || (HasHole(ps, x) && x != k) {
        HoleOfConcat(first, rest, x);
      }
    }
  }

  lemma HoleOfConcat(a: seq<Piece>, b: seq<Piece>, x: string)
    ensures HasHole(a + b, x) ==> HasHole(a, x) || HasHole(b, x)
  {
    if HasHole(a + b, x) {
      var i :| 0 <= i < |a + b| && (a + b)[i] == Hole(x);
      if i < |a| {
        assert a[i] == Hole(x);
      } else {
        assert b[i - |a|] == Hole(x);
      }
    }
  }

  lemma {:induction false} SubstConcat(a: seq<Piece>, b: seq<Piece>, k: string, v: seq<Piece>)
    ensures Subst(a + b, k, v) == Subst(a, k, v) + Subst(b, k, v)
  {
    if a == [] {
      assert a + b == b;
    } else {
      assert (a + b)[1..] == a[1..] + b;
      SubstConcat(a[1..], b, k, v);
    }
  }

  /** A path whose admitted parameters take the payload `p`, and the others a value of their own. */
  ghost predicate PathCase(ps: seq<Piece>, keys: set<string>, admitted: set<string>, p: seq<Piece>, value: Values,
                           end: bool) {
    && BracedOnly(ps, keys, end) && BracedOnly(p, keys, end) && admitted <= keys
    && (forall k | k in admitted :: value(k) == Plain(p))
    && (forall k | k in keys && k !in admitted :: Inert(value(k), keys, end))
  }

  /** The value of a placeholder, as pieces. */
  function ValuePieces(admitted: set<string>, p: seq<Piece>, value: Values, k: string): seq<Piece> {
    if k in admitted then p else [Lit(value(k))]
  }

  function SubstAll(ps: seq<Piece>, order: seq<string>, admitted: set<string>, p: seq<Piece>,
                    value: Values): seq<Piece> {
    if order == [] then ps
    else
      var k := order[|order| - 1];
      Subst(SubstAll(ps, order[..|order| - 1], admitted, p, value), k, ValuePieces(admitted, p, value, k))
  }

  lemma ValueIsPieces(ps: seq<Piece>, keys: set<string>, admitted: set<string>, p: seq<Piece>, value: Values,
                      k: string, end: bool)
    requires PathCase(ps, keys, admitted, p, value, end) && k in keys
    ensures var v := ValuePieces(admitted, p, value, k);
      Plain(v) == value(k) && BracedOnly(v, keys, end) && (k !in admitted ==> forall x :: !HasHole(v, x))
  {
    if k !in admitted {
      PlainOne(Lit(value(k)));
    }
  }

  /** A chain of replacements is a chain of substitutions, in any text of the same kind. */
  lemma {:induction false} ChainIsSubst(c: seq<Piece>, ps: seq<Piece>, keys: set<string>, admitted: set<string>,
                                        p: seq<Piece>, value: Values, order: seq<string>, end: bool)
    requires PathCase(ps, keys, admitted, p, value, end) && BracedOnly(c, keys, end)
    requires forall k | k in order :: k in keys
    ensures BracedOnly(SubstAll(c, order, admitted, p, value), keys, end)
    ensures Chain(Plain(c), order, value) == Plain(SubstAll(c, order, admitted, p, value))
  {
    if order != [] {
      var before, k := order[..|order| - 1], order[|order| - 1];
      assert k in order && forall x | x in before :: x in order;
      ChainIsSubst(c, ps, keys, admitted, p, value, before, end);
      hide BracedOnly, Plain;
      var d := SubstAll(c, before, admitted, p, value);
      ValueIsPieces(ps, keys, admitted, p, value, k, end);
      ReplaceIsSubst(d, keys, k, ValuePieces(admitted, p, value, k), end);
      SubstHoles(d, keys, k, ValuePieces(admitted, p, value, k), end);
    }
  }

  lemma {:induction false} SubstAllConcat(a: seq<Piece>, b: seq<Piece>, order: seq<string>, admitted: set<string>,
                                          p: seq<Piece>, value: Values)
    ensures SubstAll(a + b, order, admitted, p, value)
         == SubstAll(a, order, admitted, p, value) + SubstAll(b, order, admitted, p, value)
  {
    if order != [] {
      var before, k := order[..|order| - 1], order[|order| - 1];
      SubstAllConcat(a, b, before, admitted, p, value);
      SubstConcat(SubstAll(a, before, admitted, p, value), SubstAll(b, before, admitted, p, value), k,
                  ValuePieces(admitted, p, value, k));
    }
  }

  lemma {:induction false} PathPiecewise(c: seq<Piece>, ps: seq<Piece>, keys: set<string>, admitted: set<string>,
                                         p: seq<Piece>, value: Values, order: seq<string>, end: bool)
    requires PathCase(ps, keys, admitted, p, value, end) && BracedOnly(c, keys, end)
    requires forall k | k in order :: k in keys
    ensures Piecewise(c, order, value)
  {
    ChainIsSubst(c, ps, keys, admitted, p, value, order, end);
    if c == [] {
      ChainKeeps("", order, value);
    } else {
      var first := [c[0]];
      assert c == first + c[1..];
      assert BracedOnly(first, keys, end) && BracedOnly(c[1..], keys, end);
      hide BracedOnly, Contains, Chain, ReplaceAll, PathCase;
      PathPiecewise(c[1..], ps, keys, admitted, p, value, order, end);
      ChainIsSubst(first, ps, keys, admitted, p, value, order, end);
      ChainIsSubst(c[1..], ps, keys, admitted, p, value, order, end);
      SubstAllConcat(first, c[1..], order, admitted, p, value);
      PlainConcat(SubstAll(first, order, admitted, p, value), SubstAll(c[1..], order, admitted, p, value));
      PlainOne(c[0]);
      if c[0].Lit? {
        ChainKeeps(c[0].text, order, value);
      }
    }
  }

  lemma BracedApart(ps: seq<Piece>, keys: set<string>, end: bool)
    requires BracedOnly(ps, keys, end)
    ensures Apart(ps, keys)
  {
    forall h, k | HasHole(ps, h) && k in keys && k != h ensures !Contains(h, k) {
      HoleHoldsItself(h, k);
    }
  }

  /** Paths: every order of the replacements gives the simultaneous one if and only if the payload
      contains no key, other than a hole's own, that filling would change. */
  lemma PathOrderIff(ps: seq<Piece>, keys: set<string>, admitted: set<string>, p: seq<Piece>, value: Values, end: bool)
    requires PathCase(ps, keys, admitted, p, value, end)
    ensures OrderIrrelevant(ps, keys, value) <==> Harmless(ps, keys, value)
  {
    BracedApart(ps, keys, end);
    hide Chain, Shown, BracedOnly, Contains;
    if Harmless(ps, keys, value) {
      forall order | IsOrder(order, keys) ensures Chain(Plain(ps), order, value) == Fill(ps, keys, value) {
        PathPiecewise(ps, ps, keys, admitted, p, value, order, end);
        HarmlessSettles(ps, keys, order, value);
        SettledOrder(ps, keys, order, value);
      }
    } else {
      var h, k :| h in keys && HasHole(ps, h) && k in keys && k != h && !Resists(value(h), k, value);
      assert h in admitted;
      if k in admitted {
        var order := GrowingPath(ps, keys, admitted, p, value, h, k, end);
      } else {
        var order := ErasingPath(ps, keys, admitted, p, value, h, k, end);
      }
    }
  }

  /** When `k`, which the payload contains, is filled last and by a value of its own, it is gone from
      the text; the simultaneous replacement keeps it. */
  lemma ErasingPath(ps: seq<Piece>, keys: set<string>, admitted: set<string>, p: seq<Piece>, value: Values, h: string,
                    k: string, end: bool) returns (order: seq<string>)
    requires PathCase(ps, keys, admitted, p, value, end) && h in keys && HasHole(ps, h)
    requires k in keys && k !in admitted && Contains(value(h), k)
    ensures IsOrder(order, keys) && Chain(Plain(ps), order, value) != Fill(ps, keys, value)
  {
    hide Chain, Shown, BracedOnly, Contains;
    var before := SomeOrder(keys - {k});
    order := before + [k];
    OrdersJoin(before, keys - {k}, [k], {k});
    assert keys - {k} + {k} == keys;
    ChainIsSubst(ps, ps, keys, admitted, p, value, order, end);
    ChainIsSubst(ps, ps, keys, admitted, p, value, before, end);
    assert order[..|order| - 1] == before;
    var v := ValuePieces(admitted, p, value, k);
    ValueIsPieces(ps, keys, admitted, p, value, k, end);
    SubstHoles(SubstAll(ps, before, admitted, p, value), keys, k, v, end);
    ContainsIffHole(SubstAll(ps, order, admitted, p, value), keys, k, end);
    ShownContains(ps, Filled(keys, value), h, k);
  }

  /** Once the others are filled, filling admitted keys only adds to the text. */
  lemma {:induction false} SubstGrows(c: seq<Piece>, ps: seq<Piece>, keys: set<string>, admitted: set<string>,
                                      p: seq<Piece>, value: Values, order: seq<string>, end: bool)
    requires PathCase(ps, keys, admitted, p, value, end) && BracedOnly(c, keys, end)
      && forall k | k in order :: k in admitted
    requires forall x | HasHole(c, x) :: HasHole(p, x)
    ensures forall x | HasHole(SubstAll(c, order, admitted, p, value), x) :: HasHole(p, x)
    ensures |Chain(Plain(c), order, value)| >= |Plain(c)|
  {
    if order != [] {
      var before, k := order[..|order| - 1], order[|order| - 1];
      assert k in order && forall x | x in before :: x in order;
      hide BracedOnly, Contains, HasHole, ReplaceAll;
      SubstGrows(c, ps, keys, admitted, p, value, before, end);
      ChainIsSubst(c, ps, keys, admitted, p, value, before, end);
      ChainIsSubst(c, ps, keys, admitted, p, value, order, end);
      var d := SubstAll(c, before, admitted, p, value);
      SubstHoles(d, keys, k, p, end);
      ContainsIffHole(d, keys, k, end);
      ContainsIffHole(p, keys, k, end);
      if Contains(Plain(d), k) {
        ContainedNotLonger(Plain(p), k);
        ReplaceLonger(Plain(d), k, Plain(p));
      } else {
        ReplaceNothing(Plain(d), k, Plain(p));
      }
    }
  }

  lemma ContainedNotLonger(s: string, k: string)
    requires Contains(s, k)
    ensures |k| <= |s|
  {
    if s != k {
      ContainedShorter(s, k);
    }
  }

  /** First the parameters with a value of their own, then `h`, then `k`, which the payload contains:
      the text outgrows the simultaneous replacement. */
  lemma GrowingPath(ps: seq<Piece>, keys: set<string>, admitted: set<string>, p: seq<Piece>, value: Values, h: string,
                    k: string, end: bool) returns (order: seq<string>)
    requires PathCase(ps, keys, admitted, p, value, end)
    requires h in admitted && HasHole(ps, h) && k in admitted && k != h && Contains(Plain(p), k) && Plain(p) != k
    ensures IsOrder(order, keys) && Chain(Plain(ps), order, value) != Fill(ps, keys, value)
  {
    hide Chain, Shown, BracedOnly, Contains;
    var own := SomeOrder(keys - admitted);
    var rest := SomeOrder(admitted - {h, k});
    var late := [h, k] + rest;
    order := own + late;
    OrderFromTwo(h, k, rest, admitted);
    OrdersJoin(own, keys - admitted, late, admitted);
    assert keys - admitted + admitted == keys;
    BracedApart(ps, keys, end);
    PathPiecewise(ps, ps, keys, admitted, p, value, order, end);
    forall x | HasHole(ps, x) ensures |Chain(x, order, value)| >= |Filled(keys, value)(x)| {
      PathHoleGrows(ps, keys, admitted, p, value, own, late, x, end);
    }
    PathFirstGrows(ps, keys, admitted, p, value, own, rest, h, k, end);
    ShownLonger(ps, Chained(order, value), Filled(keys, value), h);
  }

  lemma LateAfter(own: seq<string>, late: seq<string>, ownKeys: set<string>, lateKeys: set<string>, h: string,
                  k: string)
    requires IsOrder(own, ownKeys) && IsOrder(late, lateKeys) && ownKeys !! lateKeys
    requires h in lateKeys && FilledBefore(own + late, h, k)
    ensures k in lateKeys
  {
    assert forall i | 0 <= i < |own| :: own[i] in own && own[i] != h;
    var i, j :| 0 <= i < j < |own + late| && (own + late)[i] == h && (own + late)[j] == k;
    assert late[j - |own|] in late;
  }

  lemma PathHoleGrows(ps: seq<Piece>, keys: set<string>, admitted: set<string>, p: seq<Piece>, value: Values,
                      own: seq<string>, late: seq<string>, x: string, end: bool)
    requires PathCase(ps, keys, admitted, p, value, end) && Apart(ps, keys) && HasHole(ps, x)
    requires IsOrder(own, keys - admitted) && IsOrder(late, admitted) && IsOrder(own + late, keys)
    ensures |Chain(x, own + late, value)| >= |Filled(keys, value)(x)|
  {
    hide BracedOnly, Contains, Chain;
    if x in admitted {
      var before, after := Turn(own + late, keys, x);
      HoleFilled(ps, keys, x, before, after, value);
      forall k | k in after ensures k in admitted {
        LateAfter(own, late, keys - admitted, admitted, x, k);
      }
      SubstGrows(p, ps, keys, admitted, p, value, after, end);
    } else if x in keys {
      HoleSettled(ps, keys, x, own + late, value);
    } else {
      ChainKeeps(x, own + late, value);
    }
  }

  lemma PathFirstGrows(ps: seq<Piece>, keys: set<string>, admitted: set<string>, p: seq<Piece>, value: Values,
                       own: seq<string>, rest: seq<string>, h: string, k: string, end: bool)
    requires PathCase(ps, keys, admitted, p, value, end) && Apart(ps, keys) && HasHole(ps, h)
    requires h in admitted && k in admitted && Contains(Plain(p), k) && Plain(p) != k
    requires IsOrder(own, keys - admitted) && forall x | x in rest :: x in admitted
    ensures |Chain(h, own + ([h, k] + rest), value)| > |Plain(p)|
  {
    hide BracedOnly, Contains, ReplaceAll;
    assert own + ([h, k] + rest) == own + [h] + ([k] + rest);
    HoleFilled(ps, keys, h, own, [k] + rest, value);
    ChainConcat(Plain(p), [k], rest, value);
    assert [k][..0] == [];
    ContainedShorter(Plain(p), k);
    ReplaceLonger(Plain(p), k, Plain(p));
    ReplaceIsSubst(p, keys, k, p, end);
    SubstHoles(p, keys, k, p, end);
    SubstGrows(Subst(p, k, p), ps, keys, admitted, p, value, rest, end);
  }
}
