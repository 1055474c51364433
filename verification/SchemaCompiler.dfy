/** The compiler from an OpenAPI schema to a request value (`schemaToMap` in
    `internal/openapi/schema.go` and the generators in `internal/openapi/helpers.go`).

    Random choices are nondeterministic.  Placeholders are drawn from a supply of distinct ones, of
    which the first `n` are gone. */
module SchemaCompiler {
  import opened Wrappers
  import opened Placeholders
  import opened Substitution
  import opened Templates
  import opened Schemas
  import opened SchemaValues

  // ----- Random numbers and strings -----

  /** `rand.Intn`, which panics unless its argument is positive. */
  method Intn(n: int) returns (r: Option<int>)
    ensures r.Some? <==> 0 < n
    ensures r.Some? ==> 0 <= r.value < n
  {
    if n <= 0 {
      return None;
    }
    var x :| 0 <= x < n;
    return Some(x);
  }

  /** `genRandomString`: letters only, or a panic. */
  method GenRandomString(minLength: Length, maxLength: nat) returns (r: Option<string>)
    ensures r.Some? <==> StringFits(minLength, maxLength)
    ensures r.Some? ==> AtLeast16(minLength) <= |r.value| && (maxLength <= MAX_INT ==> |r.value| <= maxLength)
    ensures r.Some? ==> IsWord(r.value, |r.value|)
  {
    var low := AtLeast16(minLength);
    if maxLength <= MAX_INT {
      AsIntFits(maxLength - low + 1);
    }
    var extra := Intn(AsInt(maxLength - low + 1));
    if extra.None? {
      return None;
    }
    var s := "";
    while |s| < low + extra.value
      invariant |s| <= low + extra.value && IsWord(s, |s|)
    {
      var c: char :| IsLetter(c) by { assert IsLetter('a'); }
      s := s + [c];
    }
    return Some(s);
  }

  // ----- What every compilation keeps -----

  /** A compiled schema: it has strings exactly when it has parameters, as many as `count`, and
      every placeholder left in its value is the key of one. */
  ghost predicate Sound(r: Outcome, names: seq<string>, n: nat, m: nat, count: nat) {
    && r.Compiled? && n <= m
    && (r.strAvailable <==> r.paramSpec != map[])
    && |r.paramSpec| == count
    && HolesWithin(r.value, r.paramSpec.Keys)
    && Specs(r.paramSpec, names, n, m)
  }

  lemma UnionSize(a: Params, b: Params)
    requires a.Keys !! b.Keys
    ensures |a + b| == |a| + |b|
  {
    assert (a + b).Keys == a.Keys + b.Keys;
    assert |a + b| == |(a + b).Keys| && |a| == |a.Keys| && |b| == |b.Keys|;
  }

  /** What is collected so far, and one more compiled value whose fields `more` are added. */
  lemma MergeSound(fields: map<string, Value>, str: bool, ps: Params, count: nat, more: map<string, Value>,
                   inner: Outcome, innerCount: nat, names: seq<string>, n: nat, m: nat, l: nat)
    requires Fresh(names)
    requires Sound(Compiled(Object(fields), str, ps), names, n, m, count)
    requires Sound(inner, names, m, l, innerCount) && HolesWithin(Object(more), inner.paramSpec.Keys)
    ensures Sound(Compiled(Object(fields + more), str || inner.strAvailable, ps + inner.paramSpec),
                  names, n, l, count + innerCount)
  {
    MintedApart(ps, inner.paramSpec, names, n, m, l);
    UnionSize(ps, inner.paramSpec);
    SpecsMerge(ps, inner.paramSpec, names, n, m, l);
    FieldsMerge(fields, ps.Keys, more, inner.paramSpec.Keys);
    hide HolesWithin, Specs;
    assert (ps + inner.paramSpec).Keys == ps.Keys + inner.paramSpec.Keys;
    assert str ==> |ps| > 0;
    assert inner.strAvailable ==> |inner.paramSpec| > 0;
  }

  lemma FieldsMerge(fields: map<string, Value>, keys: set<string>, more: map<string, Value>, moreKeys: set<string>)
    requires HolesWithin(Object(fields), keys) && HolesWithin(Object(more), moreKeys)
    ensures HolesWithin(Object(fields + more), keys + moreKeys)
  {
    UnionHoles(fields, more);
  }

  // ----- Values under more parameters -----

  /** Every parameter is still there, unchanged. */
  ghost predicate Kept(ps: Params, more: Params) { forall k | k in ps :: k in more && more[k] == ps[k] }

  /** More parameters leave a value what it is. */
  lemma {:induction false} ValueKept(v: Value, s: Schema, isXML: bool, name: string, ps: Params, more: Params)
    requires IsValue(v, s, isXML, name, ps) && Kept(ps, more)
    ensures IsValue(v, s, isXML, name, more)
    decreases s, 2, 0
  {
    if Joins(s) {
      BranchesKept(v.fields, s, isXML, name, ps, more, |Branches(s)|);
    } else if s.oneOf.Refs? {
      if Chosen(s).Some? {
        ValueKept(v, Chosen(s).value, isXML, name, ps, more);
      }
    } else if isXML {
      var u :| IsTyped(u, s, true, XmlName(name, s.xml), ps) && v == Wrap(XmlName(name, s.xml), s.xml, u);
      TypedKept(u, s, true, XmlName(name, s.xml), ps, more);
    } else {
      TypedKept(v, s, false, name, ps, more);
    }
  }

  lemma {:induction false} TypedKept(v: Value, s: Schema, isXML: bool, name: string, ps: Params, more: Params)
    requires IsTyped(v, s, isXML, name, ps) && Kept(ps, more)
    ensures IsTyped(v, s, isXML, name, more)
    decreases s, 1, 0
  {
    if s.schemaType == "array" {
      var item :| IsValue(item, s.items.value, isXML, name, ps) && v == List(Repeat(item, ArrayLength(s)));
      ValueKept(item, s.items.value, isXML, name, ps, more);
    } else if s.schemaType == "object" {
      PropertiesKept(v.fields, s, isXML, ps, more, |s.properties|);
    }
  }

  lemma {:induction false} BranchesKept(fields: map<string, Value>, s: Schema, isXML: bool, name: string, ps: Params,
                                        more: Params, i: nat)
    requires i <= |Branches(s)| && JoinsBranches(fields, s, isXML, name, ps, i) && Kept(ps, more)
    ensures JoinsBranches(fields, s, isXML, name, more, i)
    decreases s, 0, i
  {
    if i == 0 {
    } else if Branches(s)[i - 1].None? {
      BranchesKept(fields, s, isXML, name, ps, more, i - 1);
    } else {
      var t := Branches(s)[i - 1].value;
      var before, inner :| JoinsBranches(before, s, isXML, name, ps, i - 1)
        && IsValue(inner, t, isXML, name, ps) && inner.Object? && Extends(fields, before, inner.fields);
      BranchesKept(before, s, isXML, name, ps, more, i - 1);
      ValueKept(inner, t, isXML, name, ps, more);
      hide Extends;
    }
  }

  lemma {:induction false} PropertiesKept(fields: map<string, Value>, s: Schema, isXML: bool, ps: Params, more: Params,
                                          i: nat)
    requires i <= |s.properties| && MergesProperties(fields, s, isXML, ps, i) && Kept(ps, more)
    ensures MergesProperties(fields, s, isXML, more, i)
    decreases s, 0, i
  {
    if i > 0 {
      var p := s.properties[i - 1];
      var before, inner :| MergesProperties(before, s, isXML, ps, i - 1)
        && IsValue(inner, p.schema.value, isXML, p.name, ps) && Extends(fields, before, Fields(isXML, p.name, inner));
      PropertiesKept(before, s, isXML, ps, more, i - 1);
      ValueKept(inner, p.schema.value, isXML, p.name, ps, more);
      hide Extends;
    }
  }

  lemma UnionKeeps(a: Params, b: Params)
    requires a.Keys !! b.Keys
    ensures Kept(a, a + b) && Kept(b, a + b)
  {
  }

  // ----- The loops -----

  ghost predicate Leaves(ps: Params, s: Schema) { forall k | k in ps :: LeafOf(s, ps[k]) }

  /** A compiled schema gives one of its values, with the parameters of its placeholders; every
      parameter has the limits of a string in the schema. */
  ghost predicate Shaped(r: Outcome, s: Schema, isXML: bool, name: string) {
    r.Compiled? && IsValue(r.value, s, isXML, name, r.paramSpec) && Leaves(r.paramSpec, s)
  }

  ghost predicate TypedShaped(r: Outcome, s: Schema, isXML: bool, tag: string) {
    r.Compiled? && IsTyped(r.value, s, isXML, tag, r.paramSpec) && Leaves(r.paramSpec, s)
  }

  /** What is collected from the first `i` branches. */
  ghost predicate Joined(fields: map<string, Value>, ps: Params, s: Schema, isXML: bool, name: string, i: nat)
    requires i <= |Branches(s)|
  {
    JoinsBranches(fields, s, isXML, name, ps, i) && Leaves(ps, s)
  }

  /** What is collected from the first `i` properties. */
  ghost predicate Merged(fields: map<string, Value>, ps: Params, s: Schema, isXML: bool, i: nat)
    requires i <= |s.properties|
  {
    MergesProperties(fields, s, isXML, ps, i) && Leaves(ps, s)
  }

  /** Placeholders that were minted apart are apart. */
  lemma SoundApart(fields: map<string, Value>, str: bool, ps: Params, count: nat, more: map<string, Value>,
                   inner: Outcome, innerCount: nat, names: seq<string>, n: nat, m: nat, l: nat)
    requires Fresh(names)
    requires Sound(Compiled(Object(fields), str, ps), names, n, m, count)
    requires Sound(inner, names, m, l, innerCount) && HolesWithin(Object(more), inner.paramSpec.Keys)
    ensures Extends(fields + more, fields, more) && ps.Keys !! inner.paramSpec.Keys
  {
    MintedApart(ps, inner.paramSpec, names, n, m, l);
    hide HoleKeys;
  }

  lemma JoinMore(fields: map<string, Value>, ps: Params, s: Schema, isXML: bool, name: string, i: nat, inner: Outcome)
    requires Joins(s) && i < |Branches(s)| && Branches(s)[i].Some? && Joined(fields, ps, s, isXML, name, i)
    requires Shaped(inner, Branches(s)[i].value, isXML, name) && inner.value.Object?
    requires ps.Keys !! inner.paramSpec.Keys && Extends(fields + inner.value.fields, fields, inner.value.fields)
    ensures Joined(fields + inner.value.fields, ps + inner.paramSpec, s, isXML, name, i + 1)
  {
    var more, t := ps + inner.paramSpec, Branches(s)[i].value;
    UnionKeeps(ps, inner.paramSpec);
    BranchesKept(fields, s, isXML, name, ps, more, i);
    ValueKept(inner.value, t, isXML, name, inner.paramSpec, more);
    BranchLeaves(inner.paramSpec, s, i);
    hide IsValue, Extends, LeafOf;
  }

  lemma BranchLeaves(ps: Params, s: Schema, i: nat)
    requires Joins(s) && i < |Branches(s)| && Branches(s)[i].Some? && Leaves(ps, Branches(s)[i].value)
    ensures Leaves(ps, s)
  {
  }

  lemma JoinSkip(fields: map<string, Value>, ps: Params, s: Schema, isXML: bool, name: string, i: nat)
    requires i < |Branches(s)| && Branches(s)[i].None? && Joined(fields, ps, s, isXML, name, i)
    ensures Joined(fields, ps, s, isXML, name, i + 1)
  {
    hide LeafOf;
  }

  lemma JoinDone(fields: map<string, Value>, str: bool, ps: Params, s: Schema, isXML: bool, name: string)
    requires Joins(s) && Joined(fields, ps, s, isXML, name, |Branches(s)|)
    ensures Shaped(Compiled(Object(fields), str, ps), s, isXML, name)
  {
    hide LeafOf;
  }

  lemma ObjectMore(fields: map<string, Value>, ps: Params, s: Schema, isXML: bool, i: nat, inner: Outcome)
    requires !Joins(s) && s.oneOf.NoRefs? && s.schemaType == "object"
    requires i < |s.properties| && s.properties[i].schema.Some? && Merged(fields, ps, s, isXML, i)
    requires Shaped(inner, s.properties[i].schema.value, isXML, s.properties[i].name)
    requires ps.Keys !! inner.paramSpec.Keys
    requires var given := Fields(isXML, s.properties[i].name, inner.value); Extends(fields + given, fields, given)
    ensures Merged(fields + Fields(isXML, s.properties[i].name, inner.value), ps + inner.paramSpec, s, isXML, i + 1)
  {
    var more, p := ps + inner.paramSpec, s.properties[i];
    UnionKeeps(ps, inner.paramSpec);
    PropertiesKept(fields, s, isXML, ps, more, i);
    ValueKept(inner.value, p.schema.value, isXML, p.name, inner.paramSpec, more);
    PropertyLeaves(inner.paramSpec, s, i);
    hide IsValue, Extends, LeafOf, Fields;
  }

  lemma PropertyLeaves(ps: Params, s: Schema, i: nat)
    requires !Joins(s) && s.oneOf.NoRefs? && s.schemaType == "object"
    requires i < |s.properties| && s.properties[i].schema.Some? && Leaves(ps, s.properties[i].schema.value)
    ensures Leaves(ps, s)
  {
  }

  lemma ObjectDone(fields: map<string, Value>, str: bool, ps: Params, s: Schema, isXML: bool, tag: string)
    requires !Joins(s) && s.oneOf.NoRefs? && s.schemaType == "object"
    requires Merged(fields, ps, s, isXML, |s.properties|)
    ensures TypedShaped(Compiled(Object(fields), str, ps), s, isXML, tag)
  {
    hide LeafOf;
  }

  lemma NothingIsShaped(s: Schema, isXML: bool, name: string)
    ensures Joined(map[], map[], s, isXML, name, 0) && Merged(map[], map[], s, isXML, 0)
  {
  }

  lemma NothingIsSound(names: seq<string>, n: nat)
    ensures Sound(Compiled(Null, false, map[]), names, n, n, 0)
    ensures Sound(Compiled(Object(map[]), false, map[]), names, n, n, 0)
  {
  }

  lemma WrapDone(r: Outcome, name: string, s: Schema, names: seq<string>, n: nat, m: nat)
    requires !Joins(s) && s.oneOf.NoRefs? && Sound(r, names, n, m, Strings(s))
    requires TypedShaped(r, s, true, XmlName(name, s.xml))
    ensures var w := Compiled(Wrap(XmlName(name, s.xml), s.xml, r.value), r.strAvailable, r.paramSpec);
      Sound(w, names, n, m, Strings(s)) && Shaped(w, s, true, name) && w.value.Object?
  {
    TypedApart(r.value, s, true, XmlName(name, s.xml), r.paramSpec);
    WrapApart(XmlName(name, s.xml), s.xml, r.value, r.paramSpec.Keys);
    hide HoleKeys, LeafOf, Strings, Specs;
  }

  lemma TypedDone(r: Outcome, name: string, s: Schema)
    requires !Joins(s) && s.oneOf.NoRefs? && TypedShaped(r, s, false, name)
    ensures Shaped(r, s, false, name)
  {
    hide LeafOf, IsTyped;
  }

  // ----- The compiler -----

  /** `schemaToMap`.  Every schema tree is compiled, by recursion on its structure, where the supply
      has a placeholder for each of its strings. */
  method SchemaToMap(name: string, s: Schema, isXML: bool, names: seq<string>, n: nat) returns (r: Outcome, m: nat)
    requires Fresh(names) && n + Minted(s) <= |names|
    ensures Ending(r) == FateOf(s, isXML)
    ensures r.Compiled? ==> m == n + Minted(s)
    ensures r.Compiled? ==> Sound(r, names, n, m, Strings(s)) && Shaped(r, s, isXML, name)
    ensures r.Compiled? ==> (r.value.Object? <==> YieldsMap(s, isXML))
    decreases s, 1
  {
    hide Sound, Shaped, TypedShaped, Wrap;
    if Joins(s) {
      r, m := CompileJoin(name, s, isXML, names, n);
      return;
    }
    if s.oneOf.Refs? {
      r, m := CompileOneOf(name, s, isXML, names, n);
      return;
    }
    var tag := if isXML then XmlName(name, s.xml) else name;
    r, m := CompileTyped(tag, s, isXML, names, n);
    if r.Compiled? {
      if isXML {
        WrapDone(r, name, s, names, n, m);
        r := Compiled(Wrap(tag, s.xml, r.value), r.strAvailable, r.paramSpec);
      } else {
        TypedDone(r, name, s);
      }
    }
  }

  /** One more branch of a join. */
  lemma JoinStep(fields: map<string, Value>, str: bool, ps: Params, s: Schema, isXML: bool, name: string, i: nat,
                 inner: Outcome, names: seq<string>, n: nat, m: nat, l: nat)
    requires Fresh(names) && Joins(s) && i < |Branches(s)| && Branches(s)[i].Some?
    requires Sound(Compiled(Object(fields), str, ps), names, n, m, Total(s, i)) && Joined(fields, ps, s, isXML, name, i)
    requires Sound(inner, names, m, l, Strings(Branches(s)[i].value))
    requires Shaped(inner, Branches(s)[i].value, isXML, name) && inner.value.Object?
    ensures Joined(fields + inner.value.fields, ps + inner.paramSpec, s, isXML, name, i + 1)
    ensures Sound(Compiled(Object(fields + inner.value.fields), str || inner.strAvailable, ps + inner.paramSpec),
                  names, n, l, Total(s, i + 1))
  {
    hide HolesWithin, HoleKeys, Specs, Shaped, Joined, Extends, Strings, Fresh;
    var more, count := inner.value.fields, Strings(Branches(s)[i].value);
    SoundApart(fields, str, ps, Total(s, i), more, inner, count, names, n, m, l);
    JoinMore(fields, ps, s, isXML, name, i, inner);
    MergeSound(fields, str, ps, Total(s, i), more, inner, count, names, n, m, l);
  }

  lemma JoinCounts(s: Schema, isXML: bool)
    requires Joins(s)
    ensures FateOf(s, isXML) == BranchesFate(s, isXML, |Branches(s)|)
    ensures Minted(s) == MintedInBranches(s, |Branches(s)|) && Strings(s) == Total(s, |Branches(s)|)
  {
  }

  /** `allOf` and `anyOf`: every branch must yield a map, and the maps are merged. */
  method CompileJoin(name: string, s: Schema, isXML: bool, names: seq<string>, n: nat) returns (r: Outcome, m: nat)
    requires Fresh(names) && n + Minted(s) <= |names| && Joins(s)
    ensures Ending(r) == FateOf(s, isXML)
    ensures r.Compiled? ==> m == n + Minted(s)
    ensures r.Compiled? ==> Sound(r, names, n, m, Strings(s)) && Shaped(r, s, isXML, name) && r.value.Object?
    decreases s, 0, 1
  {
    NothingIsSound(names, n);
    NothingIsShaped(s, isXML, name);
    JoinCounts(s, isXML);
    hide Sound, Shaped, Joined, FateOf, Strings, Minted, Fresh;
    var refs := Branches(s);
    var fields: map<string, Value> := map[];
    var ps: Params := map[];
    var str := false;
    m := n;
    for i := 0 to |refs|
      invariant BranchesFate(s, isXML, i).Good? && m == n + MintedInBranches(s, i)
      invariant Sound(Compiled(Object(fields), str, ps), names, n, m, Total(s, i))
        && Joined(fields, ps, s, isXML, name, i)
    {
      BranchesMint(s, i + 1);
      if refs[i].Some? {
        var inner, l := CompileBranch(name, s, i, isXML, names, m);
        if !inner.Compiled? {
          return inner, l;
        }
        JoinStep(fields, str, ps, s, isXML, name, i, inner, names, n, m, l);
        fields := fields + inner.value.fields;
        ps := ps + inner.paramSpec;
        str := str || inner.strAvailable;
        m := l;
      } else {
        JoinSkip(fields, ps, s, isXML, name, i);
      }
    }
    JoinDone(fields, str, ps, s, isXML, name);
    r := Compiled(Object(fields), str, ps);
  }

  /** One branch of `allOf`, `anyOf` or `oneOf`, which must yield a map. */
  method CompileBranch(name: string, s: Schema, i: nat, isXML: bool, names: seq<string>, n: nat)
    returns (r: Outcome, m: nat)
    requires Fresh(names) && (Joins(s) || s.oneOf.Refs?) && i < |Branches(s)| && Branches(s)[i].Some?
    requires BranchesFate(s, isXML, i).Good? && n + Minted(Branches(s)[i].value) <= |names|
    ensures Ending(r) == BranchesFate(s, isXML, i + 1)
    ensures !r.Compiled? ==> Ending(r) == FateOf(s, isXML)
    ensures r.Compiled? ==>
      && m == n + Minted(Branches(s)[i].value)
      && Sound(r, names, n, m, Strings(Branches(s)[i].value))
      && Shaped(r, Branches(s)[i].value, isXML, name) && r.value.Object?
    decreases s, 0, 0
  {
    hide Sound, Shaped;
    r, m := SchemaToMap(name, Branches(s)[i].value, isXML, names, n);
    if !BranchesFate(s, isXML, i + 1).Good? {
      BranchEnds(s, isXML, i + 1);
    }
    if r.Compiled? && !r.value.Object? {
      r := Error;
    }
  }

  /** `oneOf`: every branch must yield a map; the first one with the most placeholders is taken,
      and null when none has any. */
  method CompileOneOf(name: string, s: Schema, isXML: bool, names: seq<string>, n: nat) returns (r: Outcome, m: nat)
    requires Fresh(names) && n + Minted(s) <= |names| && !Joins(s) && s.oneOf.Refs?
    ensures Ending(r) == FateOf(s, isXML)
    ensures r.Compiled? ==> m == n + Minted(s)
    ensures r.Compiled? ==> Sound(r, names, n, m, Strings(s)) && Shaped(r, s, isXML, name)
    ensures r.Compiled? ==> (r.value.Object? <==> Strings(s) > 0)
    ensures r.Compiled? && Strings(s) == 0 ==> r == Compiled(Null, false, map[])
    ensures r.Compiled? && Strings(s) > 0 ==>
      exists i: nat :: FirstLargest(s, i) && Shaped(r, Branches(s)[i].value, isXML, name)
    decreases s, 0, 1
  {
    var refs := Branches(s);
    r := Compiled(Null, false, map[]);
    m := n;
    PickNothing(s, isXML, name, names, n);
    hide *;
    for i := 0 to |refs|
      invariant BranchesFate(s, isXML, i).Good? && Picks(r, s, isXML, name, names, n, m, i)
      invariant m == n + MintedInBranches(s, i)
    {
      OneBranch(s, i);
      if refs[i].Some? {
        var inner, l := CompileBranch(name, s, i, isXML, names, m);
        if !inner.Compiled? {
          return inner, l;
        }
        PickStep(r, inner, s, isXML, name, names, n, m, l, i);
        if inner.strAvailable && |inner.paramSpec| > |r.paramSpec| {
          r := inner;
        }
        m := l;
        EndsGood(inner);
      } else {
        PickSkip(r, s, isXML, name, names, n, m, i);
      }
    }
    PickDone(r, s, isXML, name, names, n, m);
  }

  /** What the loop over the first `i` branches has found. */
  ghost predicate Picks(r: Outcome, s: Schema, isXML: bool, name: string, names: seq<string>, n: nat, m: nat, i: nat)
    requires i <= |Branches(s)|
  {
    && Sound(r, names, n, m, Largest(s, i))
    && PickedAt(r, s, isXML, name, ChosenAt(s, i))
  }

  /** The result is that of a branch, or nothing. */
  ghost predicate PickedAt(r: Outcome, s: Schema, isXML: bool, name: string, c: int)
    requires -1 <= c < |Branches(s)| && (c >= 0 ==> Branches(s)[c].Some?)
  {
    if c < 0 then r == Compiled(Null, false, map[]) else Shaped(r, Branches(s)[c].value, isXML, name) && r.value.Object?
  }

  lemma EndsGood(r: Outcome)
    ensures r.Compiled? <==> Ending(r).Good?
  {
  }

  lemma OneBranch(s: Schema, i: nat)
    requires i < |Branches(s)|
    ensures MintedInBranches(s, i + 1) <= MintedInBranches(s, |Branches(s)|)
    ensures MintedInBranches(s, i + 1) ==
      MintedInBranches(s, i) + if Branches(s)[i].Some? then Minted(Branches(s)[i].value) else 0
  {
    BranchesMint(s, i + 1);
  }

  lemma PickNothing(s: Schema, isXML: bool, name: string, names: seq<string>, n: nat)
    requires !Joins(s) && s.oneOf.Refs?
    ensures Picks(Compiled(Null, false, map[]), s, isXML, name, names, n, n, 0)
    ensures BranchesFate(s, isXML, 0).Good? && MintedInBranches(s, 0) == 0
    ensures Minted(s) == MintedInBranches(s, |Branches(s)|)
  {
  }

  lemma PickSkip(r: Outcome, s: Schema, isXML: bool, name: string, names: seq<string>, n: nat, m: nat, i: nat)
    requires i < |Branches(s)| && Branches(s)[i].None? && Picks(r, s, isXML, name, names, n, m, i)
    ensures Picks(r, s, isXML, name, names, n, m, i + 1)
    ensures BranchesFate(s, isXML, i).Good? ==> BranchesFate(s, isXML, i + 1).Good?
  {
    assert ChosenAt(s, i + 1) == ChosenAt(s, i) && Largest(s, i + 1) == Largest(s, i);
    hide Sound, Shaped;
  }

  lemma PickStep(r: Outcome, inner: Outcome, s: Schema, isXML: bool, name: string, names: seq<string>, n: nat,
                 m: nat, l: nat, i: nat)
    requires !Joins(s) && s.oneOf.Refs? && i < |Branches(s)| && Branches(s)[i].Some?
    requires Picks(r, s, isXML, name, names, n, m, i)
    requires Sound(inner, names, m, l, Strings(Branches(s)[i].value))
    requires Shaped(inner, Branches(s)[i].value, isXML, name) && inner.value.Object?
    ensures Picks(if inner.strAvailable && |inner.paramSpec| > |r.paramSpec| then inner else r,
                  s, isXML, name, names, n, l, i + 1)
  {
    PickSound(r, inner, Largest(s, i), Strings(Branches(s)[i].value), names, n, m, l);
    assert ChosenAt(s, i + 1) == if Strings(Branches(s)[i].value) > Largest(s, i) then i else ChosenAt(s, i);
    assert Largest(s, i + 1) == Max(Largest(s, i), Strings(Branches(s)[i].value));
    hide Sound, Shaped, Strings, Largest, ChosenAt;
  }

  lemma PickDone(r: Outcome, s: Schema, isXML: bool, name: string, names: seq<string>, n: nat, m: nat)
    requires !Joins(s) && s.oneOf.Refs? && Picks(r, s, isXML, name, names, n, m, |Branches(s)|)
    ensures Sound(r, names, n, m, Strings(s)) && Shaped(r, s, isXML, name) && (r.value.Object? <==> Strings(s) > 0)
    ensures FateOf(s, isXML) == BranchesFate(s, isXML, |Branches(s)|) && r.Compiled?
    ensures Strings(s) == 0 ==> r == Compiled(Null, false, map[])
    ensures Strings(s) > 0 ==> exists i: nat :: FirstLargest(s, i) && Shaped(r, Branches(s)[i].value, isXML, name)
  {
    var c := ChosenAt(s, |Branches(s)|);
    if c >= 0 {
      ChosenIsFirstLargest(s, c);
    }
  }

  /** The better of two sound results is sound. */
  lemma PickSound(r: Outcome, inner: Outcome, count: nat, innerCount: nat, names: seq<string>, n: nat, m: nat, l: nat)
    requires Sound(r, names, n, m, count) && Sound(inner, names, m, l, innerCount)
    ensures |inner.paramSpec| > 0 ==> inner.strAvailable
    ensures |r.paramSpec| == count && |inner.paramSpec| == innerCount
    ensures Sound(r, names, n, l, count) && Sound(inner, names, n, l, innerCount)
  {
    SpecsWiden(inner.paramSpec, names, m, l, n, l);
    SpecsWiden(r.paramSpec, names, n, m, n, l);
  }

  /** The switch on the type. */
  method CompileTyped(name: string, s: Schema, isXML: bool, names: seq<string>, n: nat) returns (r: Outcome, m: nat)
    requires Fresh(names) && n + Minted(s) <= |names| && !Joins(s) && s.oneOf.NoRefs?
    ensures Ending(r) == FateOf(s, isXML)
    ensures r.Compiled? ==> m == n + Minted(s)
    ensures r.Compiled? ==> Sound(r, names, n, m, Strings(s)) && TypedShaped(r, s, isXML, name)
    ensures r.Compiled? ==> (r.value.Object? <==> s.schemaType == "object")
    decreases s, 0, 1
  {
    m := n;
    if s.schemaType == "integer" {
      var low := LowInt(s);
      var i := Intn(HighInt(s) - low);
      r := if i.Some? then Compiled(Integer(low + i.value), false, map[]) else Crash;
    } else if s.schemaType == "number" {
      var low := LowFloat(s);
      var i := Intn(Truncate(HighFloat(s) - low));
      r := if i.Some? then Compiled(Float(low + i.value as real), false, map[]) else Crash;
      assert i.Some? ==> IsStep(r.value.r, s, i.value);
    } else if s.schemaType == "string" {
      r, m := CompileString(name, s, isXML, names, n);
    } else if s.schemaType == "boolean" {
      r := Compiled(Str("false"), false, map[]);
    } else if s.schemaType == "array" {
      r, m := CompileArray(name, s, isXML, names, n);
    } else if s.schemaType == "object" {
      r, m := CompileObject(name, s, isXML, names, n);
    } else {
      r := Error;
    }
  }

  /** A string becomes a fresh placeholder with the limits of its schema. */
  method CompileString(name: string, s: Schema, isXML: bool, names: seq<string>, n: nat) returns (r: Outcome, m: nat)
    requires n < |names| && !Joins(s) && s.oneOf.NoRefs? && s.schemaType == "string"
    ensures Ending(r) == FateOf(s, isXML)
    ensures r.Compiled? ==> m == n + 1
    ensures r.Compiled? ==> Sound(r, names, n, m, Strings(s)) && TypedShaped(r, s, isXML, name) && !r.value.Object?
  {
    m := n;
    var maxLength: nat := if s.maxLength.Some? then s.maxLength.value else MAX_UINT;
    var value := GenRandomString(s.minLength, if s.maxLength.Some? then s.maxLength.value else s.minLength + 16);
    if value.None? {
      return Crash, m;
    }
    var placeholder := names[n];
    m := n + 1;
    var spec := ParamSpec("string", value.value, s.minLength, maxLength);
    r := Compiled(Value.Hole(placeholder), true, map[placeholder := spec]);
    assert placeholder in r.paramSpec && MintedIn(placeholder, names, n, m);
  }

  lemma ArrayDone(r: Outcome, name: string, s: Schema, isXML: bool, names: seq<string>, n: nat, m: nat)
    requires !Joins(s) && s.oneOf.NoRefs? && s.schemaType == "array" && s.items.Some?
    requires Sound(r, names, n, m, Strings(s.items.value)) && Shaped(r, s.items.value, isXML, name)
    ensures var list := Compiled(List(Repeat(r.value, ArrayLength(s))), r.strAvailable, r.paramSpec);
      Sound(list, names, n, m, Strings(s)) && TypedShaped(list, s, isXML, name)
  {
    RepeatedHoles(r.value, ArrayLength(s));
    hide HoleKeys, Specs, IsValue;
  }

  /** An array repeats one compiled item; its length is the schema's `minLength`, at least one. */
  method CompileArray(name: string, s: Schema, isXML: bool, names: seq<string>, n: nat) returns (r: Outcome, m: nat)
    requires Fresh(names) && n + Minted(s) <= |names| && !Joins(s) && s.oneOf.NoRefs? && s.schemaType == "array"
    ensures Ending(r) == FateOf(s, isXML)
    ensures r.Compiled? ==> m == n + Minted(s)
    ensures r.Compiled? ==> Sound(r, names, n, m, Strings(s)) && TypedShaped(r, s, isXML, name)
    ensures r.Compiled? ==>
      && r.value.List? && (forall i | 0 <= i < |r.value.items| :: r.value.items[i] == r.value.items[0])
      && (s.minItems <= |r.value.items| <==> s.minItems <= if s.minLength == 0 then 1 else s.minLength)
    decreases s, 0, 0
  {
    if s.items.None? {
      return Crash, n;
    }
    r, m := SchemaToMap(name, s.items.value, isXML, names, n);
    if r.Compiled? {
      ArrayDone(r, name, s, isXML, names, n, m);
      var minArrayLength := s.minLength;
      if minArrayLength == 0 {
        minArrayLength := 1;
      }
      var inner := r.value;
      r := Compiled(List(seq(minArrayLength, _ => inner)), r.strAvailable, r.paramSpec);
      assert r.value.items == Repeat(inner, ArrayLength(s));
    }
  }

  lemma FieldsKeepHoles(isXML: bool, name: string, v: Value, keys: set<string>)
    requires HolesWithin(v, keys)
    ensures HolesWithin(Object(Fields(isXML, name, v)), keys)
  {
    if isXML && v.Object? {
      assert Object(v.fields) == v;
    }
  }

  /** The loop over the properties of an object. */
  method CompileObject(name: string, s: Schema, isXML: bool, names: seq<string>, n: nat) returns (r: Outcome, m: nat)
    requires Fresh(names) && n + Minted(s) <= |names| && !Joins(s) && s.oneOf.NoRefs? && s.schemaType == "object"
    ensures Ending(r) == FateOf(s, isXML)
    ensures r.Compiled? ==> m == n + Minted(s)
    ensures r.Compiled? ==> Sound(r, names, n, m, Strings(s)) && TypedShaped(r, s, isXML, name) && r.value.Object?
    decreases s, 0, 0
  {
    NothingIsSound(names, n);
    NothingIsShaped(s, isXML, name);
    hide HolesWithin, HoleKeys, Specs, Shaped, Merged, TypedShaped, Extends;
    var fields: map<string, Value> := map[];
    var ps: Params := map[];
    var str := false;
    m := n;
    for i := 0 to |s.properties|
      invariant PropertiesFate(s, isXML, i).Good? && m == n + MintedInProperties(s, i)
      invariant Sound(Compiled(Object(fields), str, ps), names, n, m, OfProperties(s, i))
      invariant Merged(fields, ps, s, isXML, i)
    {
      var p := s.properties[i];
      PropertiesMint(s, i + 1);
      if !PropertiesFate(s, isXML, i + 1).Good? {
        PropertyEnds(s, isXML, i + 1);
      }
      if p.schema.None? {
        return Crash, m;
      }
      var inner, l := SchemaToMap(p.name, p.schema.value, isXML, names, m);
      if !inner.Compiled? {
        return inner, l;
      }
      var more := Fields(isXML, p.name, inner.value);
      FieldsKeepHoles(isXML, p.name, inner.value, inner.paramSpec.Keys);
      SoundApart(fields, str, ps, OfProperties(s, i), more, inner, Strings(p.schema.value), names, n, m, l);
      ObjectMore(fields, ps, s, isXML, i, inner);
      MergeSound(fields, str, ps, OfProperties(s, i), more, inner, Strings(p.schema.value), names, n, m, l);
      fields := fields + more;
      ps := ps + inner.paramSpec;
      str := str || inner.strAvailable;
      m := l;
    }
    ObjectDone(fields, str, ps, s, isXML, name);
    r := Compiled(Object(fields), str, ps);
  }
}
