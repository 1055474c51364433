/** What the values of a schema are like: their placeholders, their fields, and how many strings of the
    schema are left in them. */
module SchemaValues {
  import opened Wrappers
  import opened Templates
  import opened Schemas

  // ----- Placeholders -----

  lemma PartsWithin(v: Value, keys: set<string>)
    ensures v.List? ==> (HolesWithin(v, keys) <==> forall i | 0 <= i < |v.items| :: HolesWithin(v.items[i], keys))
    ensures v.Object? ==> (HolesWithin(v, keys) <==> forall f | f in v.fields :: HolesWithin(v.fields[f], keys))
  {
    if v.List? {
      forall i | 0 <= i < |v.items| && HolesWithin(v, keys) ensures HolesWithin(v.items[i], keys) {
        assert forall k | k in HoleKeys(v.items[i]) :: k in HoleKeys(v);
      }
    }
    if v.Object? {
      forall f | f in v.fields && HolesWithin(v, keys) ensures HolesWithin(v.fields[f], keys) {
        assert forall k | k in HoleKeys(v.fields[f]) :: k in HoleKeys(v);
      }
    }
  }

  lemma FieldHoles(fields: map<string, Value>, f: string)
    requires f in fields
    ensures HoleKeys(fields[f]) <= HoleKeys(Object(fields))
  {
    PartsWithin(Object(fields), HoleKeys(Object(fields)));
  }

  lemma UnionHoles(a: map<string, Value>, b: map<string, Value>)
    ensures HoleKeys(Object(a + b)) <= HoleKeys(Object(a)) + HoleKeys(Object(b))
    ensures a.Keys !! b.Keys ==> HoleKeys(Object(a + b)) == HoleKeys(Object(a)) + HoleKeys(Object(b))
  {
    forall k | k in HoleKeys(Object(a + b)) ensures k in HoleKeys(Object(a)) + HoleKeys(Object(b)) {
      var f :| f in a + b && k in HoleKeys((a + b)[f]);
      FieldHoles(if f in b then b else a, f);
    }
    if a.Keys !! b.Keys {
      forall k | k in HoleKeys(Object(a)) + HoleKeys(Object(b)) ensures k in HoleKeys(Object(a + b)) {
        if k in HoleKeys(Object(a)) {
          var f :| f in a && k in HoleKeys(a[f]);
          assert (a + b)[f] == a[f];
        } else {
          var f :| f in b && k in HoleKeys(b[f]);
          assert (a + b)[f] == b[f];
        }
      }
    }
  }

  lemma FewerHoles(a: map<string, Value>, hidden: set<string>)
    ensures HoleKeys(Object(a - hidden)) <= HoleKeys(Object(a))
  {
    forall k | k in HoleKeys(Object(a - hidden)) ensures k in HoleKeys(Object(a)) {
      var f :| f in a - hidden && k in HoleKeys((a - hidden)[f]);
      FieldHoles(a, f);
    }
  }

  /** In every map different fields have different placeholders, and a list repeats one item. */
  ghost predicate HolesApart(v: Value) {
    match v
    case List(items) => forall i | 0 <= i < |items| :: items[i] == items[0] && HolesApart(items[i])
    case Object(fields) => FieldsApart(fields) && forall f | f in fields :: HolesApart(fields[f])
    case _ => true
  }

  ghost predicate FieldsApart(fields: map<string, Value>) {
    forall f, g | f in fields && g in fields && f != g :: HoleKeys(fields[f]) !! HoleKeys(fields[g])
  }

  lemma ExtendsApart(fields: map<string, Value>, before: map<string, Value>, more: map<string, Value>)
    requires Extends(fields, before, more) && HolesApart(Object(before)) && HolesApart(Object(more))
    ensures HolesApart(Object(fields))
  {
    forall f, g | f in fields && g in fields && f != g ensures HoleKeys(fields[f]) !! HoleKeys(fields[g]) {
      FieldHoles(if f in more then more else before, f);
      FieldHoles(if g in more then more else before, g);
    }
    forall f | f in fields ensures HolesApart(fields[f]) {
      assert fields[f] == if f in more then more[f] else before[f];
    }
  }

  /** Every placeholder left is a parameter, and every string has a placeholder of its own. */
  lemma {:induction false} ValueApart(v: Value, s: Schema, isXML: bool, name: string, ps: Params)
    requires IsValue(v, s, isXML, name, ps)
    ensures HolesApart(v) && HolesWithin(v, ps.Keys)
    decreases s, 2, 0
  {
    hide HolesApart, HoleKeys;
    if Joins(s) {
      BranchesApart(v.fields, s, isXML, name, ps, |Branches(s)|);
    } else if s.oneOf.Refs? {
      if Chosen(s).Some? {
        ValueApart(v, Chosen(s).value, isXML, name, ps);
      } else {
        NullApart();
      }
    } else if isXML {
      var tag := XmlName(name, s.xml);
      var u :| IsTyped(u, s, true, tag, ps) && v == Wrap(tag, s.xml, u);
      TypedApart(u, s, true, tag, ps);
      WrapApart(tag, s.xml, u, ps.Keys);
    } else {
      TypedApart(v, s, false, name, ps);
    }
  }

  lemma NullApart()
    ensures HolesApart(Null) && HoleKeys(Null) == {}
  {
  }

  lemma {:induction false} TypedApart(v: Value, s: Schema, isXML: bool, name: string, ps: Params)
    requires IsTyped(v, s, isXML, name, ps)
    ensures HolesApart(v) && HolesWithin(v, ps.Keys)
    decreases s, 1, 0
  {
    if s.schemaType == "array" {
      var item :| IsValue(item, s.items.value, isXML, name, ps) && v == List(Repeat(item, ArrayLength(s)));
      ValueApart(item, s.items.value, isXML, name, ps);
      PartsWithin(v, ps.Keys);
    } else if s.schemaType == "object" {
      PropertiesApart(v.fields, s, isXML, ps, |s.properties|);
    }
  }

  lemma {:induction false} BranchesApart(fields: map<string, Value>, s: Schema, isXML: bool, name: string, ps: Params,
                                         i: nat)
    requires i <= |Branches(s)| && JoinsBranches(fields, s, isXML, name, ps, i)
    ensures HolesApart(Object(fields)) && HolesWithin(Object(fields), ps.Keys)
    decreases s, 0, i
  {
    if i == 0 {
    } else if Branches(s)[i - 1].None? {
      BranchesApart(fields, s, isXML, name, ps, i - 1);
    } else {
      var t := Branches(s)[i - 1].value;
      var before, inner :| JoinsBranches(before, s, isXML, name, ps, i - 1)
        && IsValue(inner, t, isXML, name, ps) && inner.Object? && Extends(fields, before, inner.fields);
      BranchesApart(before, s, isXML, name, ps, i - 1);
      ValueApart(inner, t, isXML, name, ps);
      hide HolesApart, HoleKeys, IsValue;
      assert inner == Object(inner.fields);
      ExtendsApart(fields, before, inner.fields);
      UnionHoles(before, inner.fields);
    }
  }

  lemma {:induction false} PropertiesApart(fields: map<string, Value>, s: Schema, isXML: bool, ps: Params, i: nat)
    requires i <= |s.properties| && MergesProperties(fields, s, isXML, ps, i)
    ensures HolesApart(Object(fields)) && HolesWithin(Object(fields), ps.Keys)
    decreases s, 0, i
  {
    if i > 0 {
      var p := s.properties[i - 1];
      var before, inner :| MergesProperties(before, s, isXML, ps, i - 1)
        && IsValue(inner, p.schema.value, isXML, p.name, ps) && Extends(fields, before, Fields(isXML, p.name, inner));
      PropertiesApart(before, s, isXML, ps, i - 1);
      ValueApart(inner, p.schema.value, isXML, p.name, ps);
      FieldApart(isXML, p.name, inner, ps.Keys);
      hide HolesApart, HoleKeys, IsValue;
      ExtendsApart(fields, before, Fields(isXML, p.name, inner));
      UnionHoles(before, Fields(isXML, p.name, inner));
    }
  }

  lemma FieldApart(isXML: bool, name: string, v: Value, keys: set<string>)
    requires HolesApart(v) && HolesWithin(v, keys)
    ensures var more := Object(Fields(isXML, name, v)); HolesApart(more) && HolesWithin(more, keys)
  {
    var more := Fields(isXML, name, v);
    if isXML && v.Object? {
      assert Object(more) == v;
    } else {
      PartsWithin(Object(more), keys);
    }
  }

  lemma WrapApart(tag: string, xml: Option<Xml>, v: Value, keys: set<string>)
    requires HolesApart(v) && HolesWithin(v, keys)
    ensures HolesApart(Wrap(tag, xml, v)) && HolesWithin(Wrap(tag, xml, v), keys)
  {
    WrappedApart(xml, v, keys);
    var w := Object(Wrapped(xml, v));
    if tag != "" {
      PartsWithin(Wrap(tag, xml, v), keys);
      hide HoleKeys, Wrapped;
      assert Wrap(tag, xml, v).fields.Keys == {tag};
    }
  }

  lemma WrappedApart(xml: Option<Xml>, v: Value, keys: set<string>)
    requires HolesApart(v) && HolesWithin(v, keys)
    ensures HolesApart(Object(Wrapped(xml, v))) && HolesWithin(Object(Wrapped(xml, v)), keys)
  {
    var fields := if v.Object? then v.fields else map["#text" := v, "#seq" := Integer(0)];
    assert HolesApart(Object(fields)) && HolesWithin(Object(fields), keys) by {
      PartsWithin(Object(fields), keys);
      if v.Object? {
        assert Object(fields) == v;
      }
    }
    if xml.Some? && xml.value.namespace != "" {
      var xmlns := if xml.value.prefix != "" then "xmlns:" + xml.value.prefix else "xmlns";
      AttributesApart(xmlns, xml.value.namespace);
      var attr := Attributes(xmlns, xml.value.namespace);
      assert Wrapped(xml, v) == fields["#attr" := attr];
      UpdateApart(fields, "#attr", attr, keys);
    }
  }

  lemma AttributesApart(xmlns: string, namespace: string)
    ensures HolesApart(Attributes(xmlns, namespace)) && HoleKeys(Attributes(xmlns, namespace)) == {}
  {
    var attr := Attributes(xmlns, namespace);
    var text := attr.fields[xmlns];
    assert HoleKeys(text) == {} && HolesApart(text) by {
      assert forall f | f in text.fields :: HoleKeys(text.fields[f]) == {};
    }
    assert forall f | f in attr.fields :: attr.fields[f] == text;
  }

  lemma UpdateApart(fields: map<string, Value>, f: string, v: Value, keys: set<string>)
    requires HolesApart(Object(fields)) && HolesWithin(Object(fields), keys) && HolesApart(v) && HoleKeys(v) == {}
    ensures HolesApart(Object(fields[f := v])) && HolesWithin(Object(fields[f := v]), keys)
  {
    PartsWithin(Object(fields), keys);
    PartsWithin(Object(fields[f := v]), keys);
    hide HoleKeys;
    var w := fields[f := v];
    forall g, h | g in w && h in w && g != h ensures HoleKeys(w[g]) !! HoleKeys(w[h]) {
    }
  }

  /** A value is a map exactly when its schema yields one. */
  lemma {:induction false} MapIff(v: Value, s: Schema, isXML: bool, name: string, ps: Params)
    requires IsValue(v, s, isXML, name, ps)
    ensures v.Object? <==> YieldsMap(s, isXML)
  {
    if !Joins(s) && s.oneOf.Refs? {
      ChosenIsFirstLargest(s, 0);
    }
  }

  // ----- XML -----

  /** In XML mode a typed value stands in its tag, if that has a name; text is marked as such, and a
      namespace is declared under its prefix. */
  ghost predicate Tagged(v: Value, tag: string, s: Schema) {
    && v.Object? && (tag != "" ==> v.fields.Keys == {tag} && v.fields[tag].Object?)
    && var fields := if tag != "" then v.fields[tag].fields else v.fields;
      && (s.schemaType != "object" ==> {"#text", "#seq"} <= fields.Keys)
      && (s.xml.Some? && s.xml.value.namespace != "" ==>
            "#attr" in fields && fields["#attr"].Object? && Declares(fields["#attr"].fields, s.xml.value))
  }

  ghost predicate Declares(attr: map<string, Value>, x: Xml) {
    && attr.Keys == {if x.prefix == "" then "xmlns" else "xmlns:" + x.prefix}
    && forall k | k in attr ::
         attr[k].Object? && "#text" in attr[k].fields && attr[k].fields["#text"] == Str(x.namespace)
  }

  /** Every typed value in XML mode is tagged. */
  lemma XmlTagged(v: Value, s: Schema, name: string, ps: Params)
    requires !Joins(s) && s.oneOf.NoRefs? && IsValue(v, s, true, name, ps)
    ensures Tagged(v, XmlName(name, s.xml), s)
  {
    var tag := XmlName(name, s.xml);
    var u :| IsTyped(u, s, true, tag, ps) && v == Wrap(tag, s.xml, u);
  }

  // ----- The fields of a value -----

  /** The names of the fields of a compiled value, if it is a map; as far as branch or property `i`. */
  function Names(s: Schema): set<string>
    decreases s, 1, 0
  {
    if Joins(s) then BranchNames(s, |Branches(s)|)
    else if s.oneOf.Refs? then (if Chosen(s).Some? then Names(Chosen(s).value) else {})
    else if s.schemaType == "object" then PropertyNames(s, |s.properties|)
    else {}
  }

  function BranchNames(s: Schema, i: nat): set<string>
    requires i <= |Branches(s)|
    decreases s, 0, i
  {
    if i == 0 then {}
    else
      var ref := Branches(s)[i - 1];
      BranchNames(s, i - 1) + if ref.Some? then Names(ref.value) else {}
  }

  /** The last of the first `i` branches that has a field of that name, or -1. */
  function LastBranch(s: Schema, k: string, i: nat): (j: int)
    requires i <= |Branches(s)|
    ensures -1 <= j < i && (j >= 0 ==> Branches(s)[j].Some? && k in Names(Branches(s)[j].value))
    ensures forall l | j < l < i && Branches(s)[l].Some? :: k !in Names(Branches(s)[l].value)
  {
    if i == 0 then -1
    else
      var ref := Branches(s)[i - 1];
      if ref.Some? && k in Names(ref.value) then i - 1 else LastBranch(s, k, i - 1)
  }

  function PropertyNames(s: Schema, i: nat): set<string>
    requires i <= |s.properties|
  {
    if i == 0 then {} else PropertyNames(s, i - 1) + {s.properties[i - 1].name}
  }

  /** In JSON mode, the value has the shape the schema asks for. */
  ghost predicate Conforms(v: Value, s: Schema, ps: Params)
    decreases s, 1
  {
    if Joins(s) then
      v.Object? && v.fields.Keys == Names(s) && forall k | k in v.fields :: GivesField(s, k, v.fields[k], ps)
    else if s.oneOf.Refs? then (if Chosen(s).Some? then Conforms(v, Chosen(s).value, ps) else v.Null?)
    else if s.schemaType == "integer" then v.Integer? && LowInt(s) <= v.i < HighInt(s)
    else if s.schemaType == "number" then v.Float? && IsNumber(v.r, s)
    else if s.schemaType == "string" then v.Hole? && v.key in ps && OwnLimits(ps[v.key], s)
    else if s.schemaType == "boolean" then v == Str("false")
    else if s.schemaType == "array" then
      v.List? && |v.items| == ArrayLength(s)
      && s.items.Some? && forall i | 0 <= i < |v.items| :: Conforms(v.items[i], s.items.value, ps)
    else
      && s.schemaType == "object" && v.Object? && v.fields.Keys == Names(s)
      && forall k | k in v.fields :: GivesField(s, k, v.fields[k], ps)
  }

  /** The last branch that has the field, or the last property of that name, gives it the value. */
  ghost predicate GivesField(s: Schema, k: string, v: Value, ps: Params)
    decreases s, 0, 1
  {
    if Joins(s) then
      var j := LastBranch(s, k, |Branches(s)|);
      j >= 0 && GivesField(Branches(s)[j].value, k, v, ps)
    else if s.oneOf.Refs? then Chosen(s).Some? && GivesField(Chosen(s).value, k, v, ps)
    else
      s.schemaType == "object" && PropertyGives(s, |s.properties|, k, v, ps)
  }

  /** The last of the first `i` properties of that name. */
  ghost predicate PropertyGives(s: Schema, i: nat, k: string, v: Value, ps: Params)
    requires i <= |s.properties|
    decreases s, 0, 0
  {
    exists j | 0 <= j < i && s.properties[j].schema.Some? ::
      && s.properties[j].name == k && Conforms(v, s.properties[j].schema.value, ps)
      && forall l | j < l < i :: s.properties[l].name != k
  }

  ghost predicate BranchGives(s: Schema, i: nat, k: string, v: Value, ps: Params)
    requires i <= |Branches(s)|
  {
    var j := LastBranch(s, k, i);
    j >= 0 && GivesField(Branches(s)[j].value, k, v, ps)
  }

  /** The fields of a conforming map. */
  lemma {:induction false} ObjectGives(v: Value, s: Schema, ps: Params)
    requires Conforms(v, s, ps) && v.Object?
    ensures v.fields.Keys == Names(s) && forall k | k in v.fields :: GivesField(s, k, v.fields[k], ps)
    decreases s
  {
    if !Joins(s) && s.oneOf.Refs? {
      ObjectGives(v, Chosen(s).value, ps);
    }
  }

  /** What compiles in JSON mode has exactly the fields of the schema, each from the last branch or
      property that has it, and in place of every string its own placeholder. */
  lemma {:induction false} ValueConforms(v: Value, s: Schema, name: string, ps: Params)
    requires IsValue(v, s, false, name, ps)
    ensures Conforms(v, s, ps)
    decreases s, 2, 0
  {
    if Joins(s) {
      BranchesConform(v.fields, s, name, ps, |Branches(s)|);
    } else if s.oneOf.Refs? {
      if Chosen(s).Some? {
        ValueConforms(v, Chosen(s).value, name, ps);
      }
    } else if s.schemaType == "array" {
      var item :| IsValue(item, s.items.value, false, name, ps) && v == List(Repeat(item, ArrayLength(s)));
      ValueConforms(item, s.items.value, name, ps);
    } else if s.schemaType == "object" {
      PropertiesConform(v.fields, s, ps, |s.properties|);
    }
  }

  lemma {:induction false} BranchesConform(fields: map<string, Value>, s: Schema, name: string, ps: Params, i: nat)
    requires i <= |Branches(s)| && JoinsBranches(fields, s, false, name, ps, i)
    ensures fields.Keys == BranchNames(s, i) && forall k | k in fields :: BranchGives(s, i, k, fields[k], ps)
    decreases s, 0, i
  {
    if i == 0 {
    } else if Branches(s)[i - 1].None? {
      BranchesConform(fields, s, name, ps, i - 1);
      hide *;
      BranchSkipped(fields, s, ps, i);
    } else {
      var t := Branches(s)[i - 1].value;
      var before, inner :| JoinsBranches(before, s, false, name, ps, i - 1)
        && IsValue(inner, t, false, name, ps) && inner.Object? && Extends(fields, before, inner.fields);
      BranchesConform(before, s, name, ps, i - 1);
      ValueConforms(inner, t, name, ps);
      ObjectGives(inner, t, ps);
      hide *;
      BranchAdded(fields, before, s, ps, i, inner.fields);
    }
  }

  lemma BranchSkipped(fields: map<string, Value>, s: Schema, ps: Params, i: nat)
    requires 0 < i <= |Branches(s)| && Branches(s)[i - 1].None?
    requires fields.Keys == BranchNames(s, i - 1) && forall k | k in fields :: BranchGives(s, i - 1, k, fields[k], ps)
    ensures fields.Keys == BranchNames(s, i) && forall k | k in fields :: BranchGives(s, i, k, fields[k], ps)
  {
    hide GivesField, Names;
  }

  lemma BranchAdded(fields: map<string, Value>, before: map<string, Value>, s: Schema, ps: Params, i: nat,
                    more: map<string, Value>)
    requires 0 < i <= |Branches(s)| && Branches(s)[i - 1].Some? && Extends(fields, before, more)
    requires before.Keys == BranchNames(s, i - 1) && forall k | k in before :: BranchGives(s, i - 1, k, before[k], ps)
    requires var t := Branches(s)[i - 1].value;
      more.Keys == Names(t) && forall k | k in more :: GivesField(t, k, more[k], ps)
    ensures fields.Keys == BranchNames(s, i) && forall k | k in fields :: BranchGives(s, i, k, fields[k], ps)
  {
    hide GivesField, Names, HoleKeys, BranchGives;
    forall k | k in fields ensures BranchGives(s, i, k, fields[k], ps) {
      BranchStep(s, i, k, fields[k], ps);
    }
  }

  lemma BranchStep(s: Schema, i: nat, k: string, v: Value, ps: Params)
    requires 0 < i <= |Branches(s)| && Branches(s)[i - 1].Some?
    requires var t := Branches(s)[i - 1].value;
      if k in Names(t) then GivesField(t, k, v, ps) else BranchGives(s, i - 1, k, v, ps)
    ensures BranchGives(s, i, k, v, ps)
  {
    hide GivesField, Names;
  }

  lemma {:induction false} PropertiesConform(fields: map<string, Value>, s: Schema, ps: Params, i: nat)
    requires i <= |s.properties| && MergesProperties(fields, s, false, ps, i)
    ensures fields.Keys == PropertyNames(s, i) && forall k | k in fields :: PropertyGives(s, i, k, fields[k], ps)
    decreases s, 0, i
  {
    if i > 0 {
      var p := s.properties[i - 1];
      var before, inner :| MergesProperties(before, s, false, ps, i - 1)
        && IsValue(inner, p.schema.value, false, p.name, ps) && Extends(fields, before, Fields(false, p.name, inner));
      PropertiesConform(before, s, ps, i - 1);
      ValueConforms(inner, p.schema.value, p.name, ps);
      LastProperty(s, i, inner, ps);
      hide *;
      PropertyAdded(fields, before, s, ps, i, inner);
    }
  }

  lemma PropertyAdded(fields: map<string, Value>, before: map<string, Value>, s: Schema, ps: Params, i: nat,
                      inner: Value)
    requires 0 < i <= |s.properties| && Extends(fields, before, Fields(false, s.properties[i - 1].name, inner))
    requires before.Keys == PropertyNames(s, i - 1)
      && forall k | k in before :: PropertyGives(s, i - 1, k, before[k], ps)
    requires PropertyGives(s, i, s.properties[i - 1].name, inner, ps)
    ensures fields.Keys == PropertyNames(s, i) && forall k | k in fields :: PropertyGives(s, i, k, fields[k], ps)
  {
    hide HoleKeys, PropertyGives;
    forall k | k in before && k != s.properties[i - 1].name ensures PropertyGives(s, i, k, before[k], ps) {
      EarlierProperty(s, i, k, before[k], ps);
    }
  }

  lemma LastProperty(s: Schema, i: nat, v: Value, ps: Params)
    requires 0 < i <= |s.properties| && s.properties[i - 1].schema.Some?
    requires Conforms(v, s.properties[i - 1].schema.value, ps)
    ensures PropertyGives(s, i, s.properties[i - 1].name, v, ps)
  {
    hide Conforms;
  }

  lemma EarlierProperty(s: Schema, i: nat, k: string, v: Value, ps: Params)
    requires 0 < i <= |s.properties| && k != s.properties[i - 1].name && PropertyGives(s, i - 1, k, v, ps)
    ensures PropertyGives(s, i, k, v, ps)
  {
    hide Conforms;
  }

  // ----- The strings left in a value -----

  /** How many placeholders are left in a JSON value without its fields in `hidden`: a field that a
      later branch gives again hides the strings of the earlier one. */
  function Left(s: Schema, hidden: set<string>): nat
    decreases s, 1, 0
  {
    if Joins(s) then LeftInBranches(s, hidden, |Branches(s)|)
    else if s.oneOf.Refs? then (if Chosen(s).Some? then Left(Chosen(s).value, hidden) else 0)
    else if s.schemaType == "string" then 1
    else if s.schemaType == "array" then (if s.items.Some? then Left(s.items.value, {}) else 0)
    else if s.schemaType == "object" then LeftInProperties(s, hidden, |s.properties|)
    else 0
  }

  function LeftInBranches(s: Schema, hidden: set<string>, i: nat): nat
    requires i <= |Branches(s)|
    decreases s, 0, i
  {
    if i == 0 then 0
    else if Branches(s)[i - 1].None? then LeftInBranches(s, hidden, i - 1)
    else
      var t := Branches(s)[i - 1].value;
      Left(t, hidden) + LeftInBranches(s, hidden + Names(t), i - 1)
  }

  function LeftInProperties(s: Schema, hidden: set<string>, i: nat): nat
    requires i <= |s.properties|
    decreases s, 0, i
  {
    if i == 0 then 0
    else
      var p := s.properties[i - 1];
      (if p.name in hidden || p.schema.None? then 0 else Left(p.schema.value, {}))
      + LeftInProperties(s, hidden + {p.name}, i - 1)
  }

  /** A JSON value has exactly as many placeholders as strings are left in its schema. */
  lemma {:induction false} HolesLeft(v: Value, s: Schema, name: string, ps: Params, hidden: set<string>)
    requires IsValue(v, s, false, name, ps)
    ensures |HoleKeys(if v.Object? then Object(v.fields - hidden) else v)| == Left(s, hidden)
    decreases s, 2, 0
  {
    if Joins(s) {
      BranchesLeft(v.fields, s, name, ps, hidden, |Branches(s)|);
    } else if s.oneOf.Refs? {
      if Chosen(s).Some? {
        HolesLeft(v, Chosen(s).value, name, ps, hidden);
      }
    } else if s.schemaType == "array" {
      var item :| IsValue(item, s.items.value, false, name, ps) && v == List(Repeat(item, ArrayLength(s)));
      HolesLeft(item, s.items.value, name, ps, {});
      NothingHidden(item);
      RepeatedHoles(item, ArrayLength(s));
    } else if s.schemaType == "object" {
      PropertiesLeft(v.fields, s, ps, hidden, |s.properties|);
    }
  }

  lemma NothingHidden(v: Value)
    ensures v.Object? ==> Object(v.fields - {}) == v
  {
    if v.Object? {
      assert v.fields - {} == v.fields;
    }
  }

  lemma RepeatedHoles(item: Value, n: nat)
    requires n > 0
    ensures HoleKeys(List(Repeat(item, n))) == HoleKeys(item)
  {
    var items := Repeat(item, n);
    forall k ensures k in HoleKeys(List(items)) <==> k in HoleKeys(item) {
      if k in HoleKeys(item) {
        assert items[0] == item;
      }
    }
  }

  /** Of the fields that are not hidden, the later ones hide the earlier. */
  lemma SplitHoles(fields: map<string, Value>, before: map<string, Value>, more: map<string, Value>,
                   hidden: set<string>)
    requires Extends(fields, before, more)
    ensures |HoleKeys(Object(fields - hidden))|
         == |HoleKeys(Object(before - (hidden + more.Keys)))| + |HoleKeys(Object(more - hidden))|
  {
    var early, late := before - (hidden + more.Keys), more - hidden;
    assert fields - hidden == early + late;
    UnionHoles(early, late);
    FewerHoles(before, hidden + more.Keys);
    FewerHoles(more, hidden);
    hide HoleKeys;
    DisjointSize(HoleKeys(Object(early)), HoleKeys(Object(late)), HoleKeys(Object(fields - hidden)));
  }

  lemma DisjointSize(a: set<string>, b: set<string>, c: set<string>)
    requires a !! b && c == a + b
    ensures |c| == |a| + |b|
  {
  }

  lemma {:induction false} BranchesLeft(fields: map<string, Value>, s: Schema, name: string, ps: Params,
                                        hidden: set<string>, i: nat)
    requires i <= |Branches(s)| && JoinsBranches(fields, s, false, name, ps, i)
    ensures |HoleKeys(Object(fields - hidden))| == LeftInBranches(s, hidden, i)
    decreases s, 0, i
  {
    if i == 0 {
      assert fields - hidden == map[];
    } else if Branches(s)[i - 1].None? {
      BranchesLeft(fields, s, name, ps, hidden, i - 1);
    } else {
      var t := Branches(s)[i - 1].value;
      var before, inner :| JoinsBranches(before, s, false, name, ps, i - 1)
        && IsValue(inner, t, false, name, ps) && inner.Object? && Extends(fields, before, inner.fields);
      ValueConforms(inner, t, name, ps);
      ObjectGives(inner, t, ps);
      BranchesLeft(before, s, name, ps, hidden + Names(t), i - 1);
      HolesLeft(inner, t, name, ps, hidden);
      assert |HoleKeys(Object(inner.fields - hidden))| == Left(t, hidden);
      hide *;
      BranchLeft(fields, before, inner.fields, s, hidden, i);
    }
  }

  lemma BranchLeft(fields: map<string, Value>, before: map<string, Value>, more: map<string, Value>, s: Schema,
                   hidden: set<string>, i: nat)
    requires 0 < i <= |Branches(s)| && Branches(s)[i - 1].Some? && Extends(fields, before, more)
    requires var t := Branches(s)[i - 1].value;
      && more.Keys == Names(t)
      && |HoleKeys(Object(before - (hidden + Names(t))))| == LeftInBranches(s, hidden + Names(t), i - 1)
      && |HoleKeys(Object(more - hidden))| == Left(t, hidden)
    ensures |HoleKeys(Object(fields - hidden))| == LeftInBranches(s, hidden, i)
  {
    SplitHoles(fields, before, more, hidden);
    hide HoleKeys, Extends, Left, Names;
  }

  lemma {:induction false} PropertiesLeft(fields: map<string, Value>, s: Schema, ps: Params, hidden: set<string>,
                                          i: nat)
    requires i <= |s.properties| && MergesProperties(fields, s, false, ps, i)
    ensures |HoleKeys(Object(fields - hidden))| == LeftInProperties(s, hidden, i)
    decreases s, 0, i
  {
    if i == 0 {
      assert fields - hidden == map[];
    } else {
      var p := s.properties[i - 1];
      var before, inner :| MergesProperties(before, s, false, ps, i - 1)
        && IsValue(inner, p.schema.value, false, p.name, ps) && Extends(fields, before, Fields(false, p.name, inner));
      PropertiesLeft(before, s, ps, hidden + {p.name}, i - 1);
      HolesLeft(inner, p.schema.value, p.name, ps, {});
      NothingHidden(inner);
      assert |HoleKeys(inner)| == Left(p.schema.value, {});
      hide *;
      PropertyLeft(fields, before, inner, s, hidden, i);
    }
  }

  lemma PropertyLeft(fields: map<string, Value>, before: map<string, Value>, inner: Value, s: Schema,
                     hidden: set<string>, i: nat)
    requires 0 < i <= |s.properties| && s.properties[i - 1].schema.Some?
    requires var p := s.properties[i - 1];
      && Extends(fields, before, Fields(false, p.name, inner))
      && |HoleKeys(Object(before - (hidden + {p.name})))| == LeftInProperties(s, hidden + {p.name}, i - 1)
      && |HoleKeys(inner)| == Left(p.schema.value, {})
    ensures |HoleKeys(Object(fields - hidden))| == LeftInProperties(s, hidden, i)
  {
    var p := s.properties[i - 1];
    SplitHoles(fields, before, Fields(false, p.name, inner), hidden);
    OneField(p.name, inner, hidden);
    hide HoleKeys, Extends, Left;
  }

  lemma OneField(name: string, v: Value, hidden: set<string>)
    ensures Fields(false, name, v).Keys == {name}
    ensures |HoleKeys(Object(Fields(false, name, v) - hidden))| == if name in hidden then 0 else |HoleKeys(v)|
  {
    var more := Fields(false, name, v);
    if name in hidden {
      assert more - hidden == map[];
    } else {
      assert more - hidden == more && more[name] == v;
      assert HoleKeys(Object(more)) == HoleKeys(v);
    }
  }

  /** Never more strings are left than are compiled. */
  lemma {:induction false} LeftOfStrings(s: Schema, hidden: set<string>)
    ensures Left(s, hidden) <= Strings(s)
    decreases s, 1, 0
  {
    if Joins(s) {
      LeftOfBranches(s, hidden, |Branches(s)|);
    } else if s.oneOf.Refs? {
      if Chosen(s).Some? {
        LeftOfStrings(Chosen(s).value, hidden);
      }
    } else if s.schemaType == "array" {
      if s.items.Some? {
        LeftOfStrings(s.items.value, {});
      }
    } else if s.schemaType == "object" {
      LeftOfProperties(s, hidden, |s.properties|);
    }
  }

  lemma {:induction false} LeftOfBranches(s: Schema, hidden: set<string>, i: nat)
    requires i <= |Branches(s)|
    ensures LeftInBranches(s, hidden, i) <= Total(s, i)
    decreases s, 0, i
  {
    if i > 0 {
      var ref := Branches(s)[i - 1];
      if ref.Some? {
        LeftOfStrings(ref.value, hidden);
        LeftOfBranches(s, hidden + Names(ref.value), i - 1);
      } else {
        LeftOfBranches(s, hidden, i - 1);
      }
    }
  }

  lemma {:induction false} LeftOfProperties(s: Schema, hidden: set<string>, i: nat)
    requires i <= |s.properties|
    ensures LeftInProperties(s, hidden, i) <= OfProperties(s, i)
    decreases s, 0, i
  {
    if i > 0 {
      var p := s.properties[i - 1];
      if p.schema.Some? {
        LeftOfStrings(p.schema.value, {});
      }
      LeftOfProperties(s, hidden + {p.name}, i - 1);
    }
  }

  // ----- How a schema without parts compiles -----

  /** A boolean always compiles and a type that is not known never; an integer needs a range with a number in it,
      a number one that is at least one wide, and a string with a maximum length one that leaves room for 16
      letters and for its minimum; an array without items and a property without a schema are nil
      dereferences. */
  lemma LeavesCompile(s: Schema, isXML: bool)
    requires !Joins(s) && s.oneOf.NoRefs?
    ensures s.schemaType == "boolean" ==> FateOf(s, isXML).Good?
    ensures s.schemaType !in {"boolean", "integer", "number", "string", "array", "object"} ==> FateOf(s, isXML).Failing?
    ensures s.schemaType == "integer" ==>
      FateOf(s, isXML) == if LowInt(s) < HighInt(s) then Good else Panicking
    ensures s.schemaType == "number" ==>
      FateOf(s, isXML) == if HighFloat(s) - LowFloat(s) >= 1.0 then Good else Panicking
    ensures s.schemaType == "string" && s.maxLength.None? ==> FateOf(s, isXML).Good?
    ensures s.schemaType == "string" && s.maxLength.Some? ==>
      FateOf(s, isXML) ==
        if 16 <= s.maxLength.value && s.minLength <= s.maxLength.value then Good else Panicking
    ensures s.schemaType == "array" && s.items.None? ==> FateOf(s, isXML).Panicking?
  {
    if s.schemaType == "string" && s.maxLength.Some? {
      AsIntFits(s.maxLength.value - AtLeast16(s.minLength) + 1);
    }
  }

  /** The property keeps the object from compiling. */
  predicate Stops(p: Property, isXML: bool) { p.schema.None? || !FateOf(p.schema.value, isXML).Good? }

  ghost predicate FirstStop(s: Schema, isXML: bool, i: nat) {
    i < |s.properties| && Stops(s.properties[i], isXML) && forall j | 0 <= j < i :: !Stops(s.properties[j], isXML)
  }

  /** An object compiles if all its properties do; otherwise the first that does not decides: one without a
      schema is a nil dereference, any other ends as its schema does. */
  lemma ObjectEnds(s: Schema, isXML: bool)
    requires !Joins(s) && s.oneOf.NoRefs? && s.schemaType == "object"
    ensures FateOf(s, isXML).Good? <==> forall p | p in s.properties :: !Stops(p, isXML)
    ensures forall i: nat | FirstStop(s, isXML, i) ::
      FateOf(s, isXML) == match s.properties[i].schema case None => Panicking case Some(t) => FateOf(t, isXML)
  {
    PropertiesPass(s, isXML, |s.properties|);
    forall i: nat | FirstStop(s, isXML, i)
      ensures FateOf(s, isXML) == match s.properties[i].schema case None => Panicking case Some(t) => FateOf(t, isXML)
    {
      StoppedAt(s, isXML, i);
    }
  }

  lemma StoppedAt(s: Schema, isXML: bool, i: nat)
    requires FirstStop(s, isXML, i)
    ensures PropertiesFate(s, isXML, |s.properties|) ==
      match s.properties[i].schema case None => Panicking case Some(t) => FateOf(t, isXML)
  {
    PropertiesPass(s, isXML, i);
    PropertyEnds(s, isXML, i + 1);
    hide FateOf;
  }

  lemma {:induction false} PropertiesPass(s: Schema, isXML: bool, n: nat)
    requires n <= |s.properties|
    ensures PropertiesFate(s, isXML, n).Good? <==> forall j | 0 <= j < n :: !Stops(s.properties[j], isXML)
  {
    if n > 0 {
      PropertiesPass(s, isXML, n - 1);
      hide FateOf;
    }
  }

  /** The branch keeps the join, or the choice, from compiling. */
  predicate Breaks(ref: Option<Schema>, isXML: bool) {
    ref.Some? && (!FateOf(ref.value, isXML).Good? || !YieldsMap(ref.value, isXML))
  }

  ghost predicate FirstBreak(s: Schema, isXML: bool, i: nat) {
    i < |Branches(s)| && Breaks(Branches(s)[i], isXML) && forall j | 0 <= j < i :: !Breaks(Branches(s)[j], isXML)
  }

  /** A schema with branches compiles if each does, to a map, or is nil; otherwise the first that does not
      decides: it ends as that branch, or with an error if only the map is missing. */
  lemma BranchesEnd(s: Schema, isXML: bool)
    requires Joins(s) || s.oneOf.Refs?
    ensures FateOf(s, isXML).Good? <==> forall j | 0 <= j < |Branches(s)| :: !Breaks(Branches(s)[j], isXML)
    ensures forall i: nat | FirstBreak(s, isXML, i) ::
      var ends := FateOf(Branches(s)[i].value, isXML); FateOf(s, isXML) == if ends.Good? then Failing else ends
  {
    BranchesPass(s, isXML, |Branches(s)|);
    forall i: nat | FirstBreak(s, isXML, i)
      ensures var ends := FateOf(Branches(s)[i].value, isXML); FateOf(s, isXML) == if ends.Good? then Failing else ends
    {
      BrokenAt(s, isXML, i);
    }
  }

  lemma BrokenAt(s: Schema, isXML: bool, i: nat)
    requires FirstBreak(s, isXML, i)
    ensures var ends := FateOf(Branches(s)[i].value, isXML);
      BranchesFate(s, isXML, |Branches(s)|) == if ends.Good? then Failing else ends
  {
    BranchesPass(s, isXML, i);
    BranchEnds(s, isXML, i + 1);
    hide FateOf, YieldsMap, Branches;
  }

  lemma {:induction false} BranchesPass(s: Schema, isXML: bool, n: nat)
    requires n <= |Branches(s)|
    ensures BranchesFate(s, isXML, n).Good? <==> forall j | 0 <= j < n :: !Breaks(Branches(s)[j], isXML)
  {
    if n > 0 {
      BranchesPass(s, isXML, n - 1);
      hide FateOf, YieldsMap, Branches;
    }
  }

  // ----- Where the code does not meet the schema -----

  /** A schema of a type without more. */
  function OfType(schemaType: string, properties: seq<Property>): Schema {
    Schema(NoRefs, NoRefs, NoRefs, schemaType, None, None, false, false, 0, None, None, 0, properties, None)
  }

  /** An object that must have a string `a` and a boolean `a`. */
  function Hiding(): Schema {
    var text := OfType("object", [Property("a", Some(OfType("string", [])))]);
    var flag := OfType("object", [Property("a", Some(OfType("boolean", [])))]);
    OfType("object", []).(allOf := Refs([Some(text), Some(flag)]))
  }

  /** It compiles with one string, which the second branch hides: nothing is left of it. */
  lemma HiddenString()
    ensures Compiles(Hiding(), false) && Strings(Hiding()) == Minted(Hiding()) == 1 && Left(Hiding(), {}) == 0
  {
    var s := Hiding();
    var text, flag := s.allOf.list[0].value, s.allOf.list[1].value;
    OneProperty("string");
    OneProperty("boolean");
    assert Branches(s) == [Some(text), Some(flag)];
    assert LeftInBranches(s, {}, 2) == Left(flag, {}) + LeftInBranches(s, {} + Names(flag), 1);
    assert LeftInBranches(s, {} + Names(flag), 1) == Left(text, {} + Names(flag)) + 0;
    assert {} + Names(flag) == {"a"};
    assert Total(s, 2) == Total(s, 1) + Strings(flag) && Total(s, 1) == Total(s, 0) + Strings(text);
    assert BranchesFate(s, false, 1).Good? && BranchesFate(s, false, 2).Good?;
  }

  lemma OneProperty(schemaType: string)
    requires schemaType in {"string", "boolean"}
    ensures var s := OfType("object", [Property("a", Some(OfType(schemaType, [])))]);
      && Compiles(s, false) && Names(s) == {"a"} && Left(s, {"a"}) == 0
      && Strings(s) == Left(s, {}) == if schemaType == "string" then 1 else 0
  {
    var inner := OfType(schemaType, []);
    var s := OfType("object", [Property("a", Some(inner))]);
    var strings := if schemaType == "string" then 1 else 0;
    OneLeaf(schemaType);
    assert PropertiesFate(s, false, 1) == FateOf(inner, false);
    assert OfProperties(s, 1) == OfProperties(s, 0) + Strings(inner);
    assert LeftInProperties(s, {}, 1) == Left(inner, {}) + LeftInProperties(s, {} + {"a"}, 0);
    assert LeftInProperties(s, {"a"}, 1) == 0 + LeftInProperties(s, {"a"} + {"a"}, 0);
    assert PropertyNames(s, 1) == PropertyNames(s, 0) + {"a"};
  }

  lemma OneLeaf(schemaType: string)
    requires schemaType in {"string", "boolean"}
    ensures var s := OfType(schemaType, []);
      && FateOf(s, false).Good?
      && Strings(s) == Left(s, {}) == if schemaType == "string" then 1 else 0
  {
  }

  /** The number is within the bounds of the schema. */
  ghost predicate WithinBounds(x: real, s: Schema) {
    && (s.min.Some? ==> if s.exclusiveMin then s.min.value < x else s.min.value <= x)
    && (s.max.Some? ==> if s.exclusiveMax then x < s.max.value else x <= s.max.value)
  }

  predicate Whole(x: real) { x.Floor as real == x }

  /** The integers that a schema may compile to are within its bounds if and only if cutting off the decimals
      of a bound that belongs to the range does not widen it: a positive lower bound and a negative upper
      one must be whole. */
  lemma IntegersWithin(s: Schema, name: string, ps: Params)
    requires !Joins(s) && s.oneOf.NoRefs? && s.schemaType == "integer" && Compiles(s, false)
    ensures (forall v | IsValue(v, s, false, name, ps) :: v.Integer? && WithinBounds(v.i as real, s))
       <==> && (s.min.Some? && !s.exclusiveMin && s.min.value > 0.0 ==> Whole(s.min.value))
            && (s.max.Some? && !s.exclusiveMax && s.max.value < 0.0 ==> Whole(s.max.value))
  {
    var least, greatest := Integer(LowInt(s)), Integer(HighInt(s) - 1);
    assert IsValue(least, s, false, name, ps) && IsValue(greatest, s, false, name, ps);
  }

  /** Not below the bound with its decimals cut off, or above that when the bound is excluded. */
  predicate FromCut(i: int, bound: real, excluded: bool) {
    if bound >= 0.0 then (if excluded then i as real > bound else i as real > bound - 1.0)
    else (if excluded then i as real >= bound + 1.0 else i as real >= bound)
  }

  predicate UpToCut(i: int, bound: real, excluded: bool) {
    if bound >= 0.0 then (if excluded then i as real <= bound - 1.0 else i as real <= bound)
    else (if excluded then i as real < bound else i as real < bound + 1.0)
  }

  /** Which integers a schema may compile to; without bounds, those from 0 to 10000. */
  lemma IntegersGiven(i: int, s: Schema, name: string, ps: Params)
    requires !Joins(s) && s.oneOf.NoRefs? && s.schemaType == "integer"
    ensures IsValue(Integer(i), s, false, name, ps) <==>
      && FromCut(i, if s.min.Some? then s.min.value else 0.0, s.exclusiveMin)
      && UpToCut(i, if s.max.Some? then s.max.value else 10000.0, s.exclusiveMax)
  {
  }

  /** Which numbers: whole steps above the lower bound, up to the upper one, or to one less when that is
      excluded. */
  lemma NumbersGiven(r: real, s: Schema, name: string, ps: Params)
    requires !Joins(s) && s.oneOf.NoRefs? && s.schemaType == "number"
    ensures var low, high := if s.min.Some? then s.min.value else 0.0, if s.max.Some? then s.max.value else 10000.0;
      IsValue(Float(r), s, false, name, ps) <==>
        && Whole(r - low) && (if s.exclusiveMin then low < r else low <= r)
        && r <= (if s.exclusiveMax then high - 1.0 else high)
  {
    NumberSteps(r, s);
    hide *;
    assert IsValue(Float(r), s, false, name, ps) <==> IsNumber(r, s) by {
      NumberValue(r, s, name, ps);
    }
  }

  lemma NumberValue(r: real, s: Schema, name: string, ps: Params)
    requires !Joins(s) && s.oneOf.NoRefs? && s.schemaType == "number"
    ensures IsValue(Float(r), s, false, name, ps) <==> IsNumber(r, s)
  {
  }

  lemma NumberSteps(r: real, s: Schema)
    ensures var low, high := if s.min.Some? then s.min.value else 0.0, if s.max.Some? then s.max.value else 10000.0;
      IsNumber(r, s) <==>
        && Whole(r - low) && (if s.exclusiveMin then low < r else low <= r)
        && r <= (if s.exclusiveMax then high - 1.0 else high)
  {
    var low, first := LowFloat(s), if s.exclusiveMin then 1 else 0;
    var base, room := low - first as real, HighFloat(s) - low;
    assert base == if s.min.Some? then s.min.value else 0.0;
    StepsFromBase(r, base, first, low, room);
    hide LowFloat, HighFloat, Truncate;
    if IsNumber(r, s) {
      var k: int :| IsStep(r, s, k);
      CutBound(k, room);
      assert StepFrom(r, low, room, k);
    }
    if exists k: int :: StepFrom(r, low, room, k) {
      var k: int :| StepFrom(r, low, room, k);
      CutBound(k, room);
      assert IsStep(r, s, k);
    }
  }

  ghost predicate StepFrom(r: real, low: real, room: real, k: int) {
    0 <= k && k as real + 1.0 <= room && r == low + k as real
  }

  lemma CutBound(k: int, room: real)
    ensures 0 <= k ==> (k < Truncate(room) <==> k as real + 1.0 <= room)
  {
  }

  /** The steps from `first` above a base are the numbers a whole distance away from it. */
  lemma StepsFromBase(r: real, base: real, first: int, low: real, room: real)
    requires low == base + first as real
    ensures (exists k: int :: StepFrom(r, low, room, k)) <==> Whole(r - base) && low <= r && r - low + 1.0 <= room
  {
    var n := (r - base).Floor;
    if Whole(r - base) && low <= r && r - low + 1.0 <= room {
      assert StepFrom(r, low, room, n - first);
    }
    forall k: int | StepFrom(r, low, room, k) ensures Whole(r - base) {
      assert r - base == (k + first) as real;
    }
  }

  /** An array is one item, or as many as `minLength` says, each a value of its items' schema. */
  lemma ItemsGiven(v: Value, s: Schema, name: string, ps: Params)
    requires !Joins(s) && s.oneOf.NoRefs? && s.schemaType == "array" && IsValue(v, s, false, name, ps)
    ensures v.List? && |v.items| >= 1 && (s.minLength > 0 ==> |v.items| == s.minLength)
    ensures s.minLength == 0 ==> |v.items| == 1
    ensures s.items.Some?
    ensures forall i, j | 0 <= i < |v.items| && 0 <= j < |v.items| :: v.items[i] == v.items[j]
    ensures forall i | 0 <= i < |v.items| :: IsValue(v.items[i], s.items.value, false, name, ps)
  {
  }

  /** A number is always within its bounds. */
  lemma NumbersWithin(v: Value, s: Schema, name: string, ps: Params)
    requires !Joins(s) && s.oneOf.NoRefs? && s.schemaType == "number" && IsValue(v, s, false, name, ps)
    ensures v.Float? && WithinBounds(v.r, s)
  {
    var k: int :| IsStep(v.r, s, k);
    assert k as real <= HighFloat(s) - LowFloat(s) - 1.0;
  }

  /** Two booleans are asked for, and one is compiled. */
  lemma TooFewItems() returns (s: Schema)
    ensures Compiles(s, false) && s.schemaType == "array" && s.minItems == 2
    ensures forall v, name, ps | IsValue(v, s, false, name, ps) :: v.List? && |v.items| == 1
  {
    s := OfType("array", []).(items := Some(OfType("boolean", [])), minItems := 2);
  }

  lemma EarlierFails(s: Schema, isXML: bool, i: nat)
    requires i < |s.properties| && s.properties[i].schema.Some? && !Compiles(s.properties[i].schema.value, isXML)
    ensures !PropertiesFate(s, isXML, |s.properties|).Good?
  {
    PropertyEnds(s, isXML, i + 1);
  }

  /** A string with a maximum length compiles exactly when that is at least 16 and at least its
      minimum length; a shorter one anywhere among the properties keeps the object from compiling. */
  lemma ShortStringFails(s: Schema, i: nat, isXML: bool)
    requires !Joins(s) && s.oneOf.NoRefs? && s.schemaType == "object" && i < |s.properties|
    requires s.properties[i].schema.Some?
    requires var t := s.properties[i].schema.value;
      !Joins(t) && t.oneOf.NoRefs? && t.schemaType == "string" && t.maxLength.Some?
    ensures var t := s.properties[i].schema.value;
      && (Compiles(t, isXML) <==> 16 <= t.maxLength.value && t.minLength <= t.maxLength.value)
      && (t.maxLength.value < 16 ==> FateOf(t, isXML).Panicking? && !Compiles(s, isXML))
  {
    var t := s.properties[i].schema.value;
    AsIntFits(t.maxLength.value - AtLeast16(t.minLength) + 1);
    if t.maxLength.value < 16 {
      EarlierFails(s, isXML, i);
    }
  }
}
