/** OpenAPI schemas and the request values they compile to (`internal/openapi/schema.go`), on finite
    schema trees: how a compilation ends, and which values it may give.

    A map of properties is a sequence here: the order in which the walk happens to visit it.  A Go
    panic is a `Crash`. */
module Schemas {
  import opened Wrappers
  import opened Templates

  const MAX_INT := 0x7FFF_FFFF_FFFF_FFFF
  const UINT_RANGE := 0x1_0000_0000_0000_0000
  const MAX_UINT := UINT_RANGE - 1

  /** A length that an `int` can hold. */
  type Length = x: int | 0 <= x <= MAX_INT

  datatype Xml = Xml(name: string, prefix: string, namespace: string, attribute: bool)

  datatype Property = Property(name: string, schema: Option<Schema>)

  /** A list of references, or no list; a reference may be nil. */
  datatype Refs = NoRefs | Refs(list: seq<Option<Schema>>)

  datatype Schema = Schema(
    anyOf: Refs, allOf: Refs, oneOf: Refs,
    schemaType: string,
    min: Option<real>, max: Option<real>, exclusiveMin: bool, exclusiveMax: bool,
    minLength: Length, maxLength: Option<Length>,
    items: Option<Schema>, minItems: nat, properties: seq<Property>, xml: Option<Xml>)

  /** The value tree; `Hole` is a minted placeholder, and numbers stand for their printed text. */
  datatype Value =
    | Null | Str(text: string) | Integer(i: int) | Float(r: real) | Hole(key: string)
    | List(items: seq<Value>) | Object(fields: map<string, Value>)

  datatype Outcome = Compiled(value: Value, strAvailable: bool, paramSpec: Params) | Error | Crash

  /** How a compilation ends. */
  datatype Fate = Good | Failing | Panicking

  function Ending(r: Outcome): Fate {
    match r
    case Compiled(_, _, _) => Good
    case Error => Failing
    case Crash => Panicking
  }

  // ----- Random numbers and strings -----

  /** `int(x)` on a float: towards zero. */
  function Truncate(x: real): int { if x >= 0.0 then x.Floor else -((-x).Floor) }

  /** A `uint64` taken as an `int`. */
  function AsInt(x: int): int {
    var u := x % UINT_RANGE;
    if u <= MAX_INT then u else u - UINT_RANGE
  }

  lemma AsIntFits(x: int)
    requires -MAX_INT <= x <= MAX_INT
    ensures AsInt(x) == x
  {
  }

  function LowInt(s: Schema): int {
    (if s.min.Some? then Truncate(s.min.value) else 0) + if s.exclusiveMin then 1 else 0
  }

  function HighInt(s: Schema): int {
    (if s.max.Some? then Truncate(s.max.value) else 10000) + if s.exclusiveMax then 0 else 1
  }

  function LowFloat(s: Schema): real {
    (if s.min.Some? then s.min.value else 0.0) + if s.exclusiveMin then 1.0 else 0.0
  }

  function HighFloat(s: Schema): real {
    (if s.max.Some? then s.max.value else 10000.0) + if s.exclusiveMax then 0.0 else 1.0
  }

  function AtLeast16(n: nat): nat { if n < 16 then 16 else n }

  predicate StringFits(minLength: Length, maxLength: nat) { 0 < AsInt(maxLength - AtLeast16(minLength) + 1) }

  // ----- What a schema compiles to -----

  /** `allOf` wins over `anyOf`; both are compiled alike. */
  predicate Joins(s: Schema) { s.allOf.Refs? || s.anyOf.Refs? }

  /** The schemas that `allOf`, `anyOf` or `oneOf` refers to; a nil reference is skipped. */
  function Branches(s: Schema): (refs: seq<Option<Schema>>)
    ensures forall i | 0 <= i < |refs| && refs[i].Some? :: refs[i].value < s
  {
    if s.allOf.Refs? then s.allOf.list
    else if s.anyOf.Refs? then s.anyOf.list
    else if s.oneOf.Refs? then s.oneOf.list
    else []
  }

  function Max(a: nat, b: nat): nat { if a < b then b else a }

  /** How many placeholders compiling the schema leaves: all of the branches of `allOf` and
      `anyOf`, the largest number among those of `oneOf`, all of the properties. */
  function Strings(s: Schema): nat
    decreases s, 1, 0
  {
    if Joins(s) then Total(s, |Branches(s)|)
    else if s.oneOf.Refs? then Largest(s, |Branches(s)|)
    else if s.schemaType == "string" then 1
    else if s.schemaType == "array" then (if s.items.Some? then Strings(s.items.value) else 0)
    else if s.schemaType == "object" then OfProperties(s, |s.properties|)
    else 0
  }

  function Total(s: Schema, i: nat): nat
    requires i <= |Branches(s)|
    decreases s, 0, i
  {
    if i == 0 then 0
    else
      var ref := Branches(s)[i - 1];
      Total(s, i - 1) + if ref.Some? then Strings(ref.value) else 0
  }

  function Largest(s: Schema, i: nat): nat
    requires i <= |Branches(s)|
    decreases s, 0, i
  {
    if i == 0 then 0
    else
      var ref := Branches(s)[i - 1];
      Max(Largest(s, i - 1), if ref.Some? then Strings(ref.value) else 0)
  }

  function OfProperties(s: Schema, i: nat): nat
    requires i <= |s.properties|
    decreases s, 0, i
  {
    if i == 0 then 0
    else
      var p := s.properties[i - 1];
      OfProperties(s, i - 1) + if p.schema.Some? then Strings(p.schema.value) else 0
  }

  /** How many placeholders compiling the schema draws: one for each string it comes by, also in the
      branches of `oneOf` that are not taken. */
  function Minted(s: Schema): nat
    decreases s, 1, 0
  {
    if Joins(s) || s.oneOf.Refs? then MintedInBranches(s, |Branches(s)|)
    else if s.schemaType == "string" then 1
    else if s.schemaType == "array" then (if s.items.Some? then Minted(s.items.value) else 0)
    else if s.schemaType == "object" then MintedInProperties(s, |s.properties|)
    else 0
  }

  function MintedInBranches(s: Schema, i: nat): nat
    requires i <= |Branches(s)|
    decreases s, 0, i
  {
    if i == 0 then 0
    else
      var ref := Branches(s)[i - 1];
      MintedInBranches(s, i - 1) + if ref.Some? then Minted(ref.value) else 0
  }

  function MintedInProperties(s: Schema, i: nat): nat
    requires i <= |s.properties|
    decreases s, 0, i
  {
    if i == 0 then 0
    else
      var p := s.properties[i - 1];
      MintedInProperties(s, i - 1) + if p.schema.Some? then Minted(p.schema.value) else 0
  }

  lemma {:induction false} BranchesMint(s: Schema, i: nat)
    requires i <= |Branches(s)|
    ensures MintedInBranches(s, i) <= MintedInBranches(s, |Branches(s)|)
    decreases |Branches(s)| - i
  {
    if i < |Branches(s)| {
      BranchesMint(s, i + 1);
    }
  }

  lemma {:induction false} PropertiesMint(s: Schema, i: nat)
    requires i <= |s.properties|
    ensures MintedInProperties(s, i) <= MintedInProperties(s, |s.properties|)
    decreases |s.properties| - i
  {
    if i < |s.properties| {
      PropertiesMint(s, i + 1);
    }
  }

  /** Never more placeholders are left than are drawn. */
  lemma {:induction false} StringsMinted(s: Schema)
    ensures Strings(s) <= Minted(s)
    decreases s, 1, 0
  {
    if Joins(s) || s.oneOf.Refs? {
      StringsOfBranches(s, |Branches(s)|);
    } else if s.schemaType == "array" {
      if s.items.Some? {
        StringsMinted(s.items.value);
      }
    } else if s.schemaType == "object" {
      StringsOfProperties(s, |s.properties|);
    }
  }

  lemma {:induction false} StringsOfBranches(s: Schema, i: nat)
    requires i <= |Branches(s)|
    ensures Largest(s, i) <= Total(s, i) <= MintedInBranches(s, i)
    decreases s, 0, i
  {
    if i > 0 {
      StringsOfBranches(s, i - 1);
      if Branches(s)[i - 1].Some? {
        StringsMinted(Branches(s)[i - 1].value);
      }
    }
  }

  lemma {:induction false} StringsOfProperties(s: Schema, i: nat)
    requires i <= |s.properties|
    ensures OfProperties(s, i) <= MintedInProperties(s, i)
    decreases s, 0, i
  {
    if i > 0 {
      StringsOfProperties(s, i - 1);
      if s.properties[i - 1].schema.Some? {
        StringsMinted(s.properties[i - 1].schema.value);
      }
    }
  }

  /** The compiled value is a map. */
  predicate YieldsMap(s: Schema, isXML: bool) {
    if Joins(s) then true
    else if s.oneOf.Refs? then Strings(s) > 0
    else isXML || s.schemaType == "object"
  }

  /** How compiling a schema ends: as the first branch, property or item that does not compile, in
      the order of the walk. */
  function FateOf(s: Schema, isXML: bool): Fate
    decreases s, 1, 0
  {
    if Joins(s) || s.oneOf.Refs? then BranchesFate(s, isXML, |Branches(s)|)
    else if s.schemaType == "integer" then (if LowInt(s) < HighInt(s) then Good else Panicking)
    else if s.schemaType == "number" then (if 0 < Truncate(HighFloat(s) - LowFloat(s)) then Good else Panicking)
    else if s.schemaType == "string" then
      (if s.maxLength.Some? ==> StringFits(s.minLength, s.maxLength.value) then Good else Panicking)
    else if s.schemaType == "boolean" then Good
    else if s.schemaType == "array" then (if s.items.Some? then FateOf(s.items.value, isXML) else Panicking)
    else if s.schemaType == "object" then PropertiesFate(s, isXML, |s.properties|)
    else Failing
  }

  /** The first `i` branches; each must compile to a map. */
  function BranchesFate(s: Schema, isXML: bool, i: nat): Fate
    requires i <= |Branches(s)|
    decreases s, 0, i
  {
    if i == 0 then Good
    else
      var before, ref := BranchesFate(s, isXML, i - 1), Branches(s)[i - 1];
      if !before.Good? || ref.None? then before
      else if !FateOf(ref.value, isXML).Good? then FateOf(ref.value, isXML)
      else if YieldsMap(ref.value, isXML) then Good else Failing
  }

  /** The first `i` properties; a property without a schema is a nil dereference. */
  function PropertiesFate(s: Schema, isXML: bool, i: nat): Fate
    requires i <= |s.properties|
    decreases s, 0, i
  {
    if i == 0 then Good
    else
      var before, p := PropertiesFate(s, isXML, i - 1), s.properties[i - 1];
      if !before.Good? then before
      else if p.schema.None? then Panicking
      else FateOf(p.schema.value, isXML)
  }

  predicate Compiles(s: Schema, isXML: bool) { FateOf(s, isXML).Good? }

  lemma {:induction false} BranchEnds(s: Schema, isXML: bool, i: nat)
    requires i <= |Branches(s)| && !BranchesFate(s, isXML, i).Good?
    ensures BranchesFate(s, isXML, |Branches(s)|) == BranchesFate(s, isXML, i)
    decreases |Branches(s)| - i
  {
    if i < |Branches(s)| {
      BranchEnds(s, isXML, i + 1);
    }
  }

  lemma {:induction false} PropertyEnds(s: Schema, isXML: bool, i: nat)
    requires i <= |s.properties| && !PropertiesFate(s, isXML, i).Good?
    ensures PropertiesFate(s, isXML, |s.properties|) == PropertiesFate(s, isXML, i)
    decreases |s.properties| - i
  {
    if i < |s.properties| {
      PropertyEnds(s, isXML, i + 1);
    }
  }

  /** The branch of `oneOf` that is taken, among the first `i`, or -1 if none has a string. */
  function ChosenAt(s: Schema, i: nat): (c: int)
    requires i <= |Branches(s)|
    ensures -1 <= c < i && (c < 0 <==> Largest(s, i) == 0)
    ensures c >= 0 ==> Branches(s)[c].Some? && Strings(Branches(s)[c].value) == Largest(s, i)
  {
    if i == 0 then -1
    else
      var ref := Branches(s)[i - 1];
      if ref.Some? && Strings(ref.value) > Largest(s, i - 1) then i - 1 else ChosenAt(s, i - 1)
  }

  /** The alternative that a schema with `oneOf` stands for. */
  function Chosen(s: Schema): (t: Option<Schema>)
    ensures t.Some? ==> t.value < s
  {
    var c := ChosenAt(s, |Branches(s)|);
    if c < 0 then None else Branches(s)[c]
  }

  /** The first of the branches that have the most strings. */
  ghost predicate FirstLargest(s: Schema, i: nat) {
    && i < |Branches(s)| && Branches(s)[i].Some? && Strings(Branches(s)[i].value) == Strings(s)
    && forall j | 0 <= j < i && Branches(s)[j].Some? :: Strings(Branches(s)[j].value) < Strings(s)
  }

  lemma {:induction false} ChosenFirst(s: Schema, i: nat, j: nat)
    requires j < i <= |Branches(s)| && Branches(s)[j].Some?
    ensures Strings(Branches(s)[j].value) <= Largest(s, i)
    ensures j < ChosenAt(s, i) ==> Strings(Branches(s)[j].value) < Largest(s, i)
  {
    if j < i - 1 {
      ChosenFirst(s, i - 1, j);
    }
  }

  /** A `oneOf` stands for the first of the branches with the most strings, if any has one. */
  lemma ChosenIsFirstLargest(s: Schema, i: nat)
    requires !Joins(s) && s.oneOf.Refs?
    ensures Chosen(s).None? <==> Strings(s) == 0
    ensures Strings(s) > 0 ==> (FirstLargest(s, i) <==> i == ChosenAt(s, |Branches(s)|))
  {
    var n := |Branches(s)|;
    var c := ChosenAt(s, n);
    forall j: nat | j < n && Branches(s)[j].Some?
      ensures Strings(Branches(s)[j].value) <= Strings(s) && (j < c ==> Strings(Branches(s)[j].value) < Strings(s))
    {
      ChosenFirst(s, n, j);
    }
  }

  // ----- The value of a schema -----

  /** The placeholders left in a value. */
  function HoleKeys(v: Value): set<string> {
    match v
    case Hole(key) => {key}
    case List(items) => set i, k | 0 <= i < |items| && k in HoleKeys(items[i]) :: k
    case Object(fields) => set f, k | f in fields && k in HoleKeys(fields[f]) :: k
    case _ => {}
  }

  /** Every placeholder left in the value is one of `keys`. */
  predicate HolesWithin(v: Value, keys: set<string>) { HoleKeys(v) <= keys }

  /** What a property adds to its object: in XML the fields of a map are taken as they are. */
  function Fields(isXML: bool, name: string, v: Value): map<string, Value> {
    if isXML && v.Object? then v.fields else map[name := v]
  }

  // ----- XML -----

  /** The tag: the schema's own name if it has one, an attribute mark or a prefix. */
  function XmlName(name: string, xml: Option<Xml>): string {
    if xml.None? then name
    else
      var x := xml.value;
      var own := if x.name != "" then x.name else name;
      if own == "" then own
      else if x.attribute then "-" + own
      else if x.prefix != "" then x.prefix + ":" + own
      else own
  }

  function Wrapped(xml: Option<Xml>, v: Value): map<string, Value> {
    var fields := if v.Object? then v.fields else map["#text" := v, "#seq" := Integer(0)];
    if xml.Some? && xml.value.namespace != "" then
      var xmlns := if xml.value.prefix != "" then "xmlns:" + xml.value.prefix else "xmlns";
      fields["#attr" := Attributes(xmlns, xml.value.namespace)]
    else fields
  }

  function Attributes(xmlns: string, namespace: string): Value {
    Object(map[xmlns := Object(map["#text" := Str(namespace), "#seq" := Integer(0)])])
  }

  /** The end of `schemaToMap`: text is wrapped in a map, and the map in its tag. */
  function Wrap(tag: string, xml: Option<Xml>, v: Value): Value {
    if tag != "" then Object(map[tag := Object(Wrapped(xml, v))]) else Object(Wrapped(xml, v))
  }

  /** The limits are those of the string, and the parameter's own value is within what the generator
      draws for them. */
  predicate OwnLimits(spec: ParamSpec, s: Schema) {
    && spec.paramType == "string" && spec.minLength == s.minLength
    && spec.maxLength == (if s.maxLength.Some? then s.maxLength.value else MAX_UINT)
    && spec.minLength <= |spec.value| && (s.maxLength.Some? ==> |spec.value| <= spec.maxLength)
  }

  /** The length of a compiled array: what the code reads is `minLength`. */
  function ArrayLength(s: Schema): nat { if s.minLength == 0 then 1 else s.minLength }

  function Repeat(item: Value, n: nat): seq<Value> { seq(n, _ => item) }

  /** A whole number of steps from the lower bound. */
  ghost predicate IsNumber(r: real, s: Schema) { exists k: int :: IsStep(r, s, k) }

  ghost predicate IsStep(r: real, s: Schema, k: int) {
    0 <= k && k < Truncate(HighFloat(s) - LowFloat(s)) && r == LowFloat(s) + (k as real)
  }

  /** A value the schema may compile to, under a name, with the parameters of its placeholders.  A
      `oneOf` has the value of its alternative; in XML mode any other schema but a join is wrapped in
      its tag. */
  ghost predicate IsValue(v: Value, s: Schema, isXML: bool, name: string, ps: Params)
    decreases s, 2, 0
  {
    if Joins(s) then v.Object? && JoinsBranches(v.fields, s, isXML, name, ps, |Branches(s)|)
    else if s.oneOf.Refs? then
      if Chosen(s).Some? then v.Object? && IsValue(v, Chosen(s).value, isXML, name, ps) else v.Null?
    else if isXML then
      exists u :: IsTyped(u, s, true, XmlName(name, s.xml), ps) && v == Wrap(XmlName(name, s.xml), s.xml, u)
    else IsTyped(v, s, false, name, ps)
  }

  /** The value by the type of the schema: a string is a placeholder with the limits of that string,
      and an array repeats one item. */
  ghost predicate IsTyped(v: Value, s: Schema, isXML: bool, name: string, ps: Params)
    decreases s, 1, 0
  {
    if s.schemaType == "integer" then v.Integer? && LowInt(s) <= v.i < HighInt(s)
    else if s.schemaType == "number" then v.Float? && IsNumber(v.r, s)
    else if s.schemaType == "string" then v.Hole? && v.key in ps && OwnLimits(ps[v.key], s)
    else if s.schemaType == "boolean" then v == Str("false")
    else if s.schemaType == "array" then
      s.items.Some? && exists item ::
        IsValue(item, s.items.value, isXML, name, ps) && v == List(Repeat(item, ArrayLength(s)))
    else
      s.schemaType == "object" && v.Object? && MergesProperties(v.fields, s, isXML, ps, |s.properties|)
  }

  /** The values of the first `i` branches, all of them maps, merged in order.  No placeholder of one
      is a placeholder of another. */
  ghost predicate JoinsBranches(fields: map<string, Value>, s: Schema, isXML: bool, name: string, ps: Params, i: nat)
    requires i <= |Branches(s)|
    decreases s, 0, i
  {
    if i == 0 then fields == map[]
    else if Branches(s)[i - 1].None? then JoinsBranches(fields, s, isXML, name, ps, i - 1)
    else exists before, inner ::
      && JoinsBranches(before, s, isXML, name, ps, i - 1)
      && IsValue(inner, Branches(s)[i - 1].value, isXML, name, ps) && inner.Object?
      && Extends(fields, before, inner.fields)
  }

  /** What the first `i` properties give, merged in the order of the walk. */
  ghost predicate MergesProperties(fields: map<string, Value>, s: Schema, isXML: bool, ps: Params, i: nat)
    requires i <= |s.properties|
    decreases s, 0, i
  {
    if i == 0 then fields == map[]
    else
      var p := s.properties[i - 1];
      p.schema.Some? && exists before, inner ::
        && MergesProperties(before, s, isXML, ps, i - 1)
        && IsValue(inner, p.schema.value, isXML, p.name, ps)
        && Extends(fields, before, Fields(isXML, p.name, inner))
  }

  /** More fields are added, with placeholders of their own. */
  ghost predicate Extends(fields: map<string, Value>, before: map<string, Value>, more: map<string, Value>) {
    fields == before + more && HoleKeys(Object(before)) !! HoleKeys(Object(more))
  }

  /** The limits of a parameter are those of a string in the schema, and its own value is within
      what the generator draws for them. */
  ghost predicate LeafOf(s: Schema, spec: ParamSpec)
    decreases s
  {
    if Joins(s) then
      exists i | 0 <= i < |Branches(s)| && Branches(s)[i].Some? :: LeafOf(Branches(s)[i].value, spec)
    else if s.oneOf.Refs? then Chosen(s).Some? && LeafOf(Chosen(s).value, spec)
    else if s.schemaType == "array" then s.items.Some? && LeafOf(s.items.value, spec)
    else if s.schemaType == "object" then
      exists i | 0 <= i < |s.properties| && s.properties[i].schema.Some? :: LeafOf(s.properties[i].schema.value, spec)
    else
      s.schemaType == "string" && OwnLimits(spec, s)
  }
}
