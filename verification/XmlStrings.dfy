/** The strings left in an XML value (`schemaToMap` in `internal/openapi/schema.go`): tags rename and
    nest the fields, a map with an empty tag gives its fields to the one around it, and a declared
    namespace takes the place of a field `#attr`. */
module XmlStrings {
  import opened Wrappers
  import opened Templates
  import opened Schemas
  import opened SchemaValues

  // ----- The fields of an XML value -----

  /** The fields that declare a namespace. */
  function Declared(xml: Option<Xml>): set<string> {
    if xml.Some? && xml.value.namespace != "" then {"#attr"} else {}
  }

  /** The names of the fields of a compiled XML value, if it is a map. */
  function XmlNames(s: Schema, name: string): set<string>
    decreases s, 2, 0
  {
    if Joins(s) then XmlBranchNames(s, name, |Branches(s)|)
    else if s.oneOf.Refs? then (if Chosen(s).Some? then XmlNames(Chosen(s).value, name) else {})
    else if XmlName(name, s.xml) != "" then {XmlName(name, s.xml)}
    else MarkedNames(s)
  }

  /** Within the tag. */
  function MarkedNames(s: Schema): set<string>
    decreases s, 1, 0
  {
    (if s.schemaType == "object" then XmlPropertyNames(s, |s.properties|) else {"#text", "#seq"}) + Declared(s.xml)
  }

  function XmlBranchNames(s: Schema, name: string, i: nat): set<string>
    requires i <= |Branches(s)|
    decreases s, 0, i
  {
    if i == 0 then {}
    else
      var ref := Branches(s)[i - 1];
      XmlBranchNames(s, name, i - 1) + if ref.Some? then XmlNames(ref.value, name) else {}
  }

  function XmlPropertyNames(s: Schema, i: nat): set<string>
    requires i <= |s.properties|
    decreases s, 0, i
  {
    if i == 0 then {} else XmlPropertyNames(s, i - 1) + XmlGiven(s, i - 1)
  }

  /** The fields that a property gives. */
  function XmlGiven(s: Schema, i: nat): set<string>
    requires i < |s.properties|
    decreases s, 0, i
  {
    var p := s.properties[i];
    if p.schema.Some? && YieldsMap(p.schema.value, true) then XmlNames(p.schema.value, p.name) else {p.name}
  }

  // ----- The strings left -----

  /** How many placeholders are left in an XML value without its fields in `hidden`. */
  function XmlLeft(s: Schema, name: string, hidden: set<string>): nat
    decreases s, 2, 0
  {
    if Joins(s) then XmlLeftInBranches(s, name, hidden, |Branches(s)|)
    else if s.oneOf.Refs? then (if Chosen(s).Some? then XmlLeft(Chosen(s).value, name, hidden) else 0)
    else
      var tag := XmlName(name, s.xml);
      if tag == "" then LeftMarked(s, tag, hidden) else if tag in hidden then 0 else LeftMarked(s, tag, {})
  }

  /** Within the tag. */
  function LeftMarked(s: Schema, tag: string, hidden: set<string>): nat
    decreases s, 1, 0
  {
    if s.schemaType == "object" then XmlLeftInProperties(s, hidden + Declared(s.xml), |s.properties|)
    else if "#text" in hidden then 0
    else if s.schemaType == "string" then 1
    else if s.schemaType == "array" && s.items.Some? then XmlLeft(s.items.value, tag, {})
    else 0
  }

  function XmlLeftInBranches(s: Schema, name: string, hidden: set<string>, i: nat): nat
    requires i <= |Branches(s)|
    decreases s, 0, i
  {
    if i == 0 then 0
    else if Branches(s)[i - 1].None? then XmlLeftInBranches(s, name, hidden, i - 1)
    else
      var t := Branches(s)[i - 1].value;
      XmlLeft(t, name, hidden) + XmlLeftInBranches(s, name, hidden + XmlNames(t, name), i - 1)
  }

  function XmlLeftInProperties(s: Schema, hidden: set<string>, i: nat): nat
    requires i <= |s.properties|
    decreases s, 0, i
  {
    if i == 0 then 0
    else
      XmlLeftOf(s, hidden, i - 1) + XmlLeftInProperties(s, hidden + XmlGiven(s, i - 1), i - 1)
  }

  /** What is left of a property. */
  function XmlLeftOf(s: Schema, hidden: set<string>, i: nat): nat
    requires i < |s.properties|
    decreases s, 0, i
  {
    var p := s.properties[i];
    if p.schema.Some? && YieldsMap(p.schema.value, true) then XmlLeft(p.schema.value, p.name, hidden) else 0
  }

  // ----- Tags -----

  /** A field without placeholders only hides what was there. */
  lemma FieldHides(fields: map<string, Value>, f: string, v: Value, hidden: set<string>)
    requires HoleKeys(v) == {}
    ensures HoleKeys(Object(fields[f := v] - hidden)) == HoleKeys(Object(fields - (hidden + {f})))
  {
    var all, early := fields[f := v] - hidden, fields - (hidden + {f});
    forall k ensures k in HoleKeys(Object(all)) <==> k in HoleKeys(Object(early)) {
      if k in HoleKeys(Object(all)) {
        var g :| g in all && k in HoleKeys(all[g]);
        assert g in early && early[g] == all[g];
      }
      if k in HoleKeys(Object(early)) {
        var g :| g in early && k in HoleKeys(early[g]);
        assert g in all && early[g] == all[g];
      }
    }
  }

  lemma NoHolesIn(xmlns: string, namespace: string)
    ensures HoleKeys(Attributes(xmlns, namespace)) == {}
  {
    var attr := Attributes(xmlns, namespace);
    assert forall f | f in attr.fields[xmlns].fields :: HoleKeys(attr.fields[xmlns].fields[f]) == {};
    assert HoleKeys(attr.fields[xmlns]) == {};
  }

  /** A map in its tag, or text marked as such. */
  function Marked(v: Value): map<string, Value> {
    if v.Object? then v.fields else map["#text" := v, "#seq" := Integer(0)]
  }

  lemma WrappedHoles(xml: Option<Xml>, v: Value, hidden: set<string>)
    ensures Wrapped(xml, v).Keys == Marked(v).Keys + Declared(xml)
    ensures HoleKeys(Object(Wrapped(xml, v) - hidden)) == HoleKeys(Object(Marked(v) - (hidden + Declared(xml))))
  {
    if xml.Some? && xml.value.namespace != "" {
      var xmlns := if xml.value.prefix != "" then "xmlns:" + xml.value.prefix else "xmlns";
      NoHolesIn(xmlns, xml.value.namespace);
      hide HoleKeys, Attributes;
      FieldHides(Marked(v), "#attr", Attributes(xmlns, xml.value.namespace), hidden);
    } else {
      assert hidden + Declared(xml) == hidden;
    }
  }

  lemma TextHoles(v: Value, hidden: set<string>)
    requires !v.Object?
    ensures HoleKeys(Object(Marked(v) - hidden)) == if "#text" in hidden then {} else HoleKeys(v)
  {
    var left := Marked(v) - hidden;
    assert HoleKeys(Integer(0)) == {};
    forall k ensures k in HoleKeys(Object(left)) <==> "#text" !in hidden && k in HoleKeys(v) {
      if "#text" in left {
        assert left["#text"] == v;
      }
    }
  }

  /** A wrapped value: what is left within the tag, unless the tag is hidden. */
  lemma WrapLeft(tag: string, xml: Option<Xml>, u: Value, hidden: set<string>, inner: set<string>)
    requires inner == if tag == "" then hidden else {}
    ensures var w := Wrap(tag, xml, u);
      && w.fields.Keys == (if tag == "" then Marked(u).Keys + Declared(xml) else {tag})
      && |HoleKeys(Object(w.fields - hidden))| ==
         if tag != "" && tag in hidden then 0 else |HoleKeys(Object(Marked(u) - (inner + Declared(xml))))|
  {
    WrappedHoles(xml, u, inner);
    if tag != "" {
      var v := Object(Wrapped(xml, u));
      NothingHidden(v);
      assert Fields(false, tag, v) == map[tag := v];
      hide HoleKeys, Wrapped;
      OneField(tag, v, hidden);
    }
  }

  // ----- Counting -----

  /** The value has the fields of the schema, and as many placeholders as strings are left. */
  ghost predicate Counted(v: Value, s: Schema, name: string, hidden: set<string>) {
    && (v.Object? ==> v.fields.Keys == XmlNames(s, name))
    && |HoleKeys(if v.Object? then Object(v.fields - hidden) else v)| == XmlLeft(s, name, hidden)
  }

  /** An XML value has exactly as many placeholders as strings are left in its schema. */
  lemma {:induction false} XmlHolesLeft(v: Value, s: Schema, name: string, ps: Params, hidden: set<string>)
    requires IsValue(v, s, true, name, ps)
    ensures Counted(v, s, name, hidden)
    decreases s, 3, 0
  {
    if Joins(s) {
      XmlBranchesLeft(v.fields, s, name, ps, hidden, |Branches(s)|);
    } else if s.oneOf.Refs? {
      if Chosen(s).Some? {
        XmlHolesLeft(v, Chosen(s).value, name, ps, hidden);
      }
    } else {
      var tag := XmlName(name, s.xml);
      var u :| IsTyped(u, s, true, tag, ps) && v == Wrap(tag, s.xml, u);
      MarkedLeft(u, s, tag, ps, if tag == "" then hidden else {});
      hide *;
      TaggedLeft(u, s, name, hidden);
    }
  }

  lemma TaggedLeft(u: Value, s: Schema, name: string, hidden: set<string>)
    requires !Joins(s) && s.oneOf.NoRefs? && Marked(u).Keys + Declared(s.xml) == MarkedNames(s)
    requires var tag := XmlName(name, s.xml);
      var inner := if tag == "" then hidden else {};
      |HoleKeys(Object(Marked(u) - (inner + Declared(s.xml))))| == LeftMarked(s, tag, inner)
    ensures Counted(Wrap(XmlName(name, s.xml), s.xml, u), s, name, hidden)
  {
    var tag := XmlName(name, s.xml);
    WrapLeft(tag, s.xml, u, hidden, if tag == "" then hidden else {});
    hide HoleKeys, LeftMarked, MarkedNames, XmlName, Wrapped, Marked, Declared;
  }

  lemma {:induction false} MarkedLeft(u: Value, s: Schema, tag: string, ps: Params, hidden: set<string>)
    requires IsTyped(u, s, true, tag, ps)
    ensures Marked(u).Keys + Declared(s.xml) == MarkedNames(s)
    ensures |HoleKeys(Object(Marked(u) - (hidden + Declared(s.xml))))| == LeftMarked(s, tag, hidden)
    decreases s, 2, 0
  {
    TypedKinds(u, s, tag, ps);
    hide HoleKeys, IsTyped, IsValue, MergesProperties;
    hide XmlNames, XmlLeft, XmlPropertyNames, XmlLeftInProperties, Declared;
    if s.schemaType == "object" {
      XmlPropertiesLeft(u.fields, s, ps, hidden + Declared(s.xml), |s.properties|);
    } else {
      TextHoles(u, hidden + Declared(s.xml));
      assert "#text" in hidden + Declared(s.xml) <==> "#text" in hidden by {
        NotText(s.xml);
      }
      if s.schemaType == "array" {
        var item := ItemOf(u, s, tag, ps);
        XmlHolesLeft(item, s.items.value, tag, ps, {});
        NothingHidden(item);
      }
    }
  }

  lemma NotText(xml: Option<Xml>)
    ensures "#text" !in Declared(xml)
  {
  }

  lemma TypedKinds(u: Value, s: Schema, tag: string, ps: Params)
    requires IsTyped(u, s, true, tag, ps)
    ensures u.Object? <==> s.schemaType == "object"
    ensures u.Object? ==> MergesProperties(u.fields, s, true, ps, |s.properties|)
    ensures s.schemaType == "array" ==> s.items.Some?
    ensures s.schemaType !in {"object", "array"} ==> |HoleKeys(u)| == if s.schemaType == "string" then 1 else 0
  {
    hide IsValue, MergesProperties;
  }

  lemma ItemOf(u: Value, s: Schema, tag: string, ps: Params) returns (item: Value)
    requires s.schemaType == "array" && s.items.Some? && IsTyped(u, s, true, tag, ps)
    ensures IsValue(item, s.items.value, true, tag, ps) && HoleKeys(u) == HoleKeys(item)
  {
    hide IsValue;
    item :| IsValue(item, s.items.value, true, tag, ps) && u == List(Repeat(item, ArrayLength(s)));
    RepeatedHoles(item, ArrayLength(s));
    hide HoleKeys;
  }

  lemma {:induction false} XmlBranchesLeft(fields: map<string, Value>, s: Schema, name: string, ps: Params,
                                           hidden: set<string>, i: nat)
    requires i <= |Branches(s)| && JoinsBranches(fields, s, true, name, ps, i)
    ensures fields.Keys == XmlBranchNames(s, name, i)
    ensures |HoleKeys(Object(fields - hidden))| == XmlLeftInBranches(s, name, hidden, i)
    decreases s, 0, i
  {
    hide *;
    if i == 0 {
      NoBranches(fields, s, name, ps, hidden);
    } else if Branches(s)[i - 1].None? {
      NilBranch(fields, s, name, ps, hidden, i);
      XmlBranchesLeft(fields, s, name, ps, hidden, i - 1);
    } else {
      var before, inner := LastJoined(fields, s, name, ps, i);
      var t := Branches(s)[i - 1].value;
      XmlHolesLeft(inner, t, name, ps, hidden);
      XmlBranchesLeft(before, s, name, ps, hidden + XmlNames(t, name), i - 1);
      XmlBranchStep(fields, before, inner, s, name, hidden, i);
    }
  }

  lemma NoFields(fields: map<string, Value>, hidden: set<string>)
    requires fields == map[]
    ensures HoleKeys(Object(fields - hidden)) == {}
  {
    assert fields - hidden == map[];
  }

  lemma NoBranches(fields: map<string, Value>, s: Schema, name: string, ps: Params, hidden: set<string>)
    requires JoinsBranches(fields, s, true, name, ps, 0)
    ensures fields.Keys == XmlBranchNames(s, name, 0)
    ensures |HoleKeys(Object(fields - hidden))| == XmlLeftInBranches(s, name, hidden, 0)
  {
    NoFields(fields, hidden);
    hide HoleKeys;
  }

  lemma NilBranch(fields: map<string, Value>, s: Schema, name: string, ps: Params, hidden: set<string>, i: nat)
    requires 0 < i <= |Branches(s)| && Branches(s)[i - 1].None? && JoinsBranches(fields, s, true, name, ps, i)
    ensures JoinsBranches(fields, s, true, name, ps, i - 1)
    ensures XmlBranchNames(s, name, i) == XmlBranchNames(s, name, i - 1)
    ensures XmlLeftInBranches(s, name, hidden, i) == XmlLeftInBranches(s, name, hidden, i - 1)
  {
  }

  lemma LastJoined(fields: map<string, Value>, s: Schema, name: string, ps: Params, i: nat)
    returns (before: map<string, Value>, inner: Value)
    requires 0 < i <= |Branches(s)| && Branches(s)[i - 1].Some? && JoinsBranches(fields, s, true, name, ps, i)
    ensures JoinsBranches(before, s, true, name, ps, i - 1) && IsValue(inner, Branches(s)[i - 1].value, true, name, ps)
    ensures inner.Object? && Extends(fields, before, inner.fields)
  {
    hide IsValue, Extends;
    before, inner :| JoinsBranches(before, s, true, name, ps, i - 1)
      && IsValue(inner, Branches(s)[i - 1].value, true, name, ps) && inner.Object?
      && Extends(fields, before, inner.fields);
  }

  lemma XmlBranchStep(fields: map<string, Value>, before: map<string, Value>, inner: Value, s: Schema, name: string,
                      hidden: set<string>, i: nat)
    requires 0 < i <= |Branches(s)| && Branches(s)[i - 1].Some? && inner.Object?
    requires Extends(fields, before, inner.fields) && before.Keys == XmlBranchNames(s, name, i - 1)
    requires var t := Branches(s)[i - 1].value;
      && Counted(inner, t, name, hidden)
      && |HoleKeys(Object(before - (hidden + XmlNames(t, name))))|
         == XmlLeftInBranches(s, name, hidden + XmlNames(t, name), i - 1)
    ensures fields.Keys == XmlBranchNames(s, name, i)
    ensures |HoleKeys(Object(fields - hidden))| == XmlLeftInBranches(s, name, hidden, i)
  {
    SplitHoles(fields, before, inner.fields, hidden);
    hide HoleKeys, XmlNames, XmlLeft;
  }

  lemma {:induction false} XmlPropertiesLeft(fields: map<string, Value>, s: Schema, ps: Params, hidden: set<string>,
                                             i: nat)
    requires i <= |s.properties| && MergesProperties(fields, s, true, ps, i)
    ensures fields.Keys == XmlPropertyNames(s, i)
    ensures |HoleKeys(Object(fields - hidden))| == XmlLeftInProperties(s, hidden, i)
    decreases s, 0, i
  {
    hide *;
    if i == 0 {
      NoProperties(fields, s, ps, hidden);
    } else {
      var before, inner := LastGiven(fields, s, ps, i);
      var p := s.properties[i - 1];
      XmlHolesLeft(inner, p.schema.value, p.name, ps, hidden);
      GivenFields(inner, s, i - 1, ps, hidden);
      XmlPropertiesLeft(before, s, ps, hidden + XmlGiven(s, i - 1), i - 1);
      XmlPropertyStep(fields, before, Fields(true, p.name, inner), s, hidden, i);
    }
  }

  lemma NoProperties(fields: map<string, Value>, s: Schema, ps: Params, hidden: set<string>)
    requires MergesProperties(fields, s, true, ps, 0)
    ensures fields.Keys == XmlPropertyNames(s, 0)
    ensures |HoleKeys(Object(fields - hidden))| == XmlLeftInProperties(s, hidden, 0)
  {
    NoFields(fields, hidden);
    hide HoleKeys;
  }

  lemma LastGiven(fields: map<string, Value>, s: Schema, ps: Params, i: nat)
    returns (before: map<string, Value>, inner: Value)
    requires 0 < i <= |s.properties| && MergesProperties(fields, s, true, ps, i)
    ensures var p := s.properties[i - 1];
      && p.schema.Some? && MergesProperties(before, s, true, ps, i - 1)
      && IsValue(inner, p.schema.value, true, p.name, ps) && Extends(fields, before, Fields(true, p.name, inner))
  {
    hide IsValue, Extends, Fields;
    var p := s.properties[i - 1];
    before, inner :| MergesProperties(before, s, true, ps, i - 1)
      && IsValue(inner, p.schema.value, true, p.name, ps) && Extends(fields, before, Fields(true, p.name, inner));
  }

  lemma XmlPropertyStep(fields: map<string, Value>, before: map<string, Value>, more: map<string, Value>, s: Schema,
                        hidden: set<string>, i: nat)
    requires 0 < i <= |s.properties| && Extends(fields, before, more) && before.Keys == XmlPropertyNames(s, i - 1)
    requires more.Keys == XmlGiven(s, i - 1) && |HoleKeys(Object(more - hidden))| == XmlLeftOf(s, hidden, i - 1)
    requires |HoleKeys(Object(before - (hidden + XmlGiven(s, i - 1))))|
          == XmlLeftInProperties(s, hidden + XmlGiven(s, i - 1), i - 1)
    ensures fields.Keys == XmlPropertyNames(s, i)
    ensures |HoleKeys(Object(fields - hidden))| == XmlLeftInProperties(s, hidden, i)
  {
    SplitHoles(fields, before, more, hidden);
    hide HoleKeys, XmlGiven, XmlLeftOf;
  }

  lemma GivenFields(v: Value, s: Schema, i: nat, ps: Params, hidden: set<string>)
    requires i < |s.properties| && s.properties[i].schema.Some?
    requires var p := s.properties[i];
      IsValue(v, p.schema.value, true, p.name, ps) && Counted(v, p.schema.value, p.name, hidden)
    ensures var more := Fields(true, s.properties[i].name, v);
      more.Keys == XmlGiven(s, i) && |HoleKeys(Object(more - hidden))| == XmlLeftOf(s, hidden, i)
  {
    var p := s.properties[i];
    MapIff(v, p.schema.value, true, p.name, ps);
    if !v.Object? {
      OneField(p.name, v, hidden);
      NoMapNoHoles(v, p.schema.value, p.name, ps);
    }
  }

  lemma {:induction false} NoMapNoHoles(v: Value, s: Schema, name: string, ps: Params)
    requires IsValue(v, s, true, name, ps) && !v.Object?
    ensures v.Null?
  {
  }

  /** Never more strings are left than are compiled. */
  lemma {:induction false} XmlLeftOfStrings(s: Schema, name: string, hidden: set<string>)
    ensures XmlLeft(s, name, hidden) <= Strings(s)
    decreases s, 2, 0
  {
    if Joins(s) {
      XmlLeftOfBranches(s, name, hidden, |Branches(s)|);
    } else if s.oneOf.Refs? {
      if Chosen(s).Some? {
        XmlLeftOfStrings(Chosen(s).value, name, hidden);
      }
    } else {
      var tag := XmlName(name, s.xml);
      LeftMarkedOfStrings(s, tag, if tag == "" then hidden else {});
    }
  }

  lemma {:induction false} LeftMarkedOfStrings(s: Schema, tag: string, hidden: set<string>)
    requires !Joins(s) && s.oneOf.NoRefs?
    ensures LeftMarked(s, tag, hidden) <= Strings(s)
    decreases s, 1, 0
  {
    if s.schemaType == "object" {
      XmlLeftOfProperties(s, hidden + Declared(s.xml), |s.properties|);
    } else if s.schemaType == "array" && s.items.Some? {
      XmlLeftOfStrings(s.items.value, tag, {});
    }
  }

  lemma {:induction false} XmlLeftOfBranches(s: Schema, name: string, hidden: set<string>, i: nat)
    requires i <= |Branches(s)|
    ensures XmlLeftInBranches(s, name, hidden, i) <= Total(s, i)
    decreases s, 0, i
  {
    if i > 0 {
      var ref := Branches(s)[i - 1];
      if ref.Some? {
        XmlLeftOfStrings(ref.value, name, hidden);
        XmlLeftOfBranches(s, name, hidden + XmlNames(ref.value, name), i - 1);
      } else {
        XmlLeftOfBranches(s, name, hidden, i - 1);
      }
    }
  }

  lemma {:induction false} XmlLeftOfProperties(s: Schema, hidden: set<string>, i: nat)
    requires i <= |s.properties|
    ensures XmlLeftInProperties(s, hidden, i) <= OfProperties(s, i)
    decreases s, 0, i
  {
    if i > 0 {
      var p := s.properties[i - 1];
      if p.schema.Some? {
        XmlLeftOfStrings(p.schema.value, p.name, hidden);
      }
      XmlLeftOfProperties(s, hidden + XmlGiven(s, i - 1), i - 1);
    }
  }

  // ----- Names -----

  /** The name of a tag: the schema's own name before the one of the property; an attribute is marked by a
      hyphen, and otherwise a prefix stands before the name. */
  lemma XmlNameMeaning(name: string, x: Xml)
    ensures XmlName(name, None) == name
    ensures x.name == "" && name == "" ==> XmlName(name, Some(x)) == ""
    ensures x.name != "" && x.attribute ==> XmlName(name, Some(x)) == "-" + x.name
    ensures x.name == "" && name != "" && x.attribute ==> XmlName(name, Some(x)) == "-" + name
    ensures x.name != "" && !x.attribute && x.prefix == "" ==> XmlName(name, Some(x)) == x.name
    ensures x.name == "" && name != "" && !x.attribute && x.prefix == "" ==> XmlName(name, Some(x)) == name
    ensures x.name != "" && !x.attribute && x.prefix != "" ==> XmlName(name, Some(x)) == x.prefix + ":" + x.name
    ensures x.name == "" && name != "" && !x.attribute && x.prefix != "" ==>
      XmlName(name, Some(x)) == x.prefix + ":" + name
  {
  }
}
