/** Rendering a compiled value as a request body (`jsonMarshal` and `htmlFormMarshal` in
    `internal/openapi/schema.go`): the text has its placeholders between delimiters, so that filling
    them is rendering the value with the payload in its holes.

    How names and numbers are printed inside JSON quotes is given. */
module Rendering {
  import opened Wrappers
  import opened Order
  import opened Text
  import opened Substitution
  import opened Templates
  import opened Schemas

  /** `escape` is the text of a string inside JSON quotes; `enc` is what becomes of every piece of
      JSON outside the holes: nothing in a JSON body, URL escaping in a form. */
  datatype Writer = Writer(
    escape: string -> string, integer: int -> string, float: real -> string, enc: string -> string)

  // ----- JSON -----

  /** The keys of a map in the order of `json.Marshal`. */
  ghost function SortedNames(keys: set<string>): (order: seq<string>)
    ensures IsOrder(order, keys) && StrictlySorted(order, Less)
  {
    SortedNamesExist(keys);
    var order: seq<string> :| IsOrder(order, keys) && StrictlySorted(order, Less);
    order
  }

  lemma SortedNamesExist(keys: set<string>)
    ensures exists order: seq<string> :: IsOrder(order, keys) && StrictlySorted(order, Less)
  {
    var some := SomeOrder(keys);
    LessIsTotal();
    SortDistinct(some, Less);
    var order := Sort(some, Less);
    forall i, j | 0 <= i < j < |order| ensures order[i] != order[j] {
      assert Less(order[i], order[j]);
    }
    assert IsOrder(order, keys);
  }

  /** The value as JSON, when its holes show what `shows` says; numbers are strings already. */
  ghost function Json(v: Value, shows: Values, w: Writer): string
    decreases v, 1, 0
  {
    match v
    case Null => w.enc("null")
    case Str(text) => w.enc("\"" + w.escape(text) + "\"")
    case Integer(i) => w.enc("\"" + w.integer(i) + "\"")
    case Float(r) => w.enc("\"" + w.float(r) + "\"")
    case Hole(key) => w.enc("\"") + shows(key) + w.enc("\"")
    case List(items) => w.enc("[") + JsonItems(items, shows, w) + w.enc("]")
    case Object(fields) => w.enc("{") + JsonFields(v, SortedNames(fields.Keys), shows, w) + w.enc("}")
  }

  ghost function JsonItems(items: seq<Value>, shows: Values, w: Writer): string
    decreases items, 0, 0
  {
    if items == [] then ""
    else
      Json(items[0], shows, w) + if |items| == 1 then "" else w.enc(",") + JsonItems(items[1..], shows, w)
  }

  ghost function JsonFields(v: Value, order: seq<string>, shows: Values, w: Writer): string
    requires v.Object? && forall k | k in order :: k in v.fields
    decreases v, 0, |order|
  {
    if order == [] then ""
    else
      w.enc("\"" + w.escape(order[0]) + "\":") + Json(v.fields[order[0]], shows, w)
      + if |order| == 1 then "" else w.enc(",") + JsonFields(v, order[1..], shows, w)
  }

  /** The JSON of each item. */
  ghost function ItemTexts(items: seq<Value>, shows: Values, w: Writer): seq<string> {
    seq(|items|, i requires 0 <= i < |items| => Json(items[i], shows, w))
  }

  /** "name": value, of each field. */
  ghost function FieldTexts(v: Value, order: seq<string>, shows: Values, w: Writer): seq<string>
    requires v.Object? && forall k | k in order :: k in v.fields
  {
    seq(|order|, i requires 0 <= i < |order| =>
      "\"" + w.escape(order[i]) + "\":" + Json(v.fields[order[i]], shows, w))
  }

  /** The JSON of a value: every scalar is a string, a list is its items between brackets, and an object its
      fields between braces in the order of their names, with commas between them. */
  lemma JsonMeaning(v: Value, shows: Values, w: Writer)
    requires forall s :: w.enc(s) == s
    ensures match v
      case Null => Json(v, shows, w) == "null"
      case Str(text) => Json(v, shows, w) == "\"" + w.escape(text) + "\""
      case Integer(i) => Json(v, shows, w) == "\"" + w.integer(i) + "\""
      case Float(r) => Json(v, shows, w) == "\"" + w.float(r) + "\""
      case Hole(key) => Json(v, shows, w) == "\"" + shows(key) + "\""
      case List(items) => Json(v, shows, w) == "[" + Join(ItemTexts(items, shows, w), ",") + "]"
      case Object(fields) =>
        exists order :: IsOrder(order, fields.Keys) && StrictlySorted(order, Less)
          && Json(v, shows, w) == "{" + Join(FieldTexts(v, order, shows, w), ",") + "}"
  {
    match v
    case List(items) => ItemsJoin(items, shows, w);
    case Object(fields) =>
      var order := SortedNames(fields.Keys);
      FieldsJoin(v, order, shows, w);
      assert IsOrder(order, fields.Keys) && StrictlySorted(order, Less);
    case _ =>
  }

  lemma {:induction false} ItemsJoin(items: seq<Value>, shows: Values, w: Writer)
    requires forall s :: w.enc(s) == s
    ensures JsonItems(items, shows, w) == Join(ItemTexts(items, shows, w), ",")
  {
    if items != [] {
      ItemsJoin(items[1..], shows, w);
      FirstItem(items, shows, w);
      hide *;
      JoinFirst(Json(items[0], shows, w), ItemTexts(items[1..], shows, w), ",");
    }
  }

  lemma FirstItem(items: seq<Value>, shows: Values, w: Writer)
    requires items != [] && forall s :: w.enc(s) == s
    ensures var first, texts := Json(items[0], shows, w), ItemTexts(items[1..], shows, w);
      && ItemTexts(items, shows, w) == [first] + texts
      && JsonItems(items, shows, w) == first + if texts == [] then "" else "," + JsonItems(items[1..], shows, w)
  {
    hide Json;
  }

  lemma {:induction false} FieldsJoin(v: Value, order: seq<string>, shows: Values, w: Writer)
    requires v.Object? && (forall k | k in order :: k in v.fields) && forall s :: w.enc(s) == s
    ensures JsonFields(v, order, shows, w) == Join(FieldTexts(v, order, shows, w), ",")
  {
    if order != [] {
      FieldsJoin(v, order[1..], shows, w);
      var first := FirstField(v, order, shows, w);
      hide *;
      JoinFirst(first, FieldTexts(v, order[1..], shows, w), ",");
    }
  }

  lemma FirstField(v: Value, order: seq<string>, shows: Values, w: Writer) returns (first: string)
    requires v.Object? && (forall k | k in order :: k in v.fields) && order != [] && forall s :: w.enc(s) == s
    ensures var texts := FieldTexts(v, order[1..], shows, w);
      && FieldTexts(v, order, shows, w) == [first] + texts
      && JsonFields(v, order, shows, w) == first + if texts == [] then "" else "," + JsonFields(v, order[1..], shows, w)
  {
    first := "\"" + w.escape(order[0]) + "\":" + Json(v.fields[order[0]], shows, w);
    hide Json;
  }

  lemma JoinFirst(first: string, rest: seq<string>, sep: string)
    ensures Join([first] + rest, sep) == first + if rest == [] then "" else sep + Join(rest, sep)
  {
    assert ([first] + rest)[1..] == rest;
    if rest != [] {
      assert Join([first] + rest, sep) == first + sep + Join(rest, sep);
      hide *;
      assert first + sep + Join(rest, sep) == first + (sep + Join(rest, sep));
    } else {
      assert first + "" == first;
    }
  }

  // ----- The same text as pieces -----

  /** A literal before other pieces; literals that meet are joined. */
  function Put(text: string, after: seq<Piece>): seq<Piece> {
    if text == "" then after
    else if after != [] && after[0].Lit? then [Lit(text + after[0].text)] + after[1..]
    else [Lit(text)] + after
  }

  function PutHole(before: string, key: string, behind: string, after: seq<Piece>): seq<Piece> {
    Put(before, [Piece.Hole(key)] + Put(behind, after))
  }

  /** The pieces of the value before other pieces. */
  ghost function Pieces(v: Value, w: Writer, after: seq<Piece>): seq<Piece>
    decreases v, 1, 0
  {
    match v
    case Hole(key) => PutHole(w.enc("\""), key, w.enc("\""), after)
    case List(items) => Put(w.enc("["), ItemPieces(items, w, Put(w.enc("]"), after)))
    case Object(fields) =>
      Put(w.enc("{"), FieldPieces(v, SortedNames(fields.Keys), w, Put(w.enc("}"), after)))
    case _ => Put(Json(v, Same(), w), after)
  }

  ghost function ItemPieces(items: seq<Value>, w: Writer, after: seq<Piece>): seq<Piece>
    decreases items, 0, 0
  {
    if items == [] then after
    else Pieces(items[0], w, if |items| == 1 then after else Put(w.enc(","), ItemPieces(items[1..], w, after)))
  }

  ghost function FieldPieces(v: Value, order: seq<string>, w: Writer, after: seq<Piece>): seq<Piece>
    requires v.Object? && forall k | k in order :: k in v.fields
    decreases v, 0, |order|
  {
    if order == [] then after
    else
      Put(w.enc("\"" + w.escape(order[0]) + "\":"),
          Pieces(v.fields[order[0]], w,
                 if |order| == 1 then after else Put(w.enc(","), FieldPieces(v, order[1..], w, after))))
  }

  /** Pieces that a delimiter may come before: none, or a literal first. */
  predicate Open(ps: seq<Piece>) { Delimited(ps) && (ps != [] ==> ps[0].Lit? && ps[0].text != "") }

  /** A text that keeps letters away on both sides. */
  predicate Delimiter(s: string) { s != "" && !IsLetter(s[0]) && !IsLetter(s[|s| - 1]) }

  lemma PutShows(text: string, after: seq<Piece>, shows: Values)
    ensures Shown(Put(text, after), shows) == text + Shown(after, shows)
  {
    if text != "" && after != [] && after[0].Lit? {
      assert Put(text, after)[1..] == after[1..];
      assert text + after[0].text + Shown(after[1..], shows) == text + (after[0].text + Shown(after[1..], shows));
    } else if text != "" {
      assert Put(text, after)[1..] == after;
    }
  }

  lemma PutOpen(text: string, after: seq<Piece>)
    requires Open(after)
    ensures Open(Put(text, after))
  {
    if text != "" && after != [] {
      assert Put(text, after)[1..] == after[1..];
    } else if text != "" {
      assert Put(text, after)[1..] == [];
    }
  }

  lemma PutHoleFits(before: string, key: string, behind: string, after: seq<Piece>, shows: Values)
    ensures Shown(PutHole(before, key, behind, after), shows) == before + (shows(key) + (behind + Shown(after, shows)))
    ensures Open(after) && Delimiter(before) && Delimiter(behind) ==> Open(PutHole(before, key, behind, after))
  {
    var tail := Put(behind, after);
    var hole := [Piece.Hole(key)] + tail;
    assert hole[1..] == tail;
    PutShows(behind, after, shows);
    PutShows(before, hole, shows);
    assert before != "" ==> Put(before, hole)[1..] == hole;
    if Open(after) && Delimiter(behind) {
      PutOpen(behind, after);
      assert tail[0].text[0] == behind[0];
    }
  }

  /** The pieces read as the value does, and delimiters keep letters away from the holes. */
  lemma {:induction false} PiecesShow(v: Value, w: Writer, after: seq<Piece>, shows: Values)
    ensures Shown(Pieces(v, w, after), shows) == Json(v, shows, w) + Shown(after, shows)
    ensures Open(after) && Delimiter(w.enc("\"")) ==> Open(Pieces(v, w, after))
    decreases v, 1, 0
  {
    hide Shown, Put, PutHole, Open, Delimiter;
    match v
    case Hole(key) =>
      PutHoleFits(w.enc("\""), key, w.enc("\""), after, shows);
    case List(items) =>
      var end := Put(w.enc("]"), after);
      Surround(w.enc("["), ItemPieces(items, w, end), JsonItems(items, shows, w), w.enc("]"), after, shows);
      ItemsShow(items, w, end, shows);
    case Object(fields) =>
      var end := Put(w.enc("}"), after);
      var order := SortedNames(fields.Keys);
      Surround(w.enc("{"), FieldPieces(v, order, w, end), JsonFields(v, order, shows, w), w.enc("}"), after, shows);
      FieldsShow(v, order, w, end, shows);
    case _ =>
      assert Json(v, Same(), w) == Json(v, shows, w);
      PutShows(Json(v, shows, w), after, shows);
      if Open(after) {
        PutOpen(Json(v, shows, w), after);
      }
  }

  /** Brackets around pieces that read as `text` before the closing one. */
  lemma Surround(before: string, inner: seq<Piece>, text: string, behind: string, after: seq<Piece>, shows: Values)
    ensures Shown(inner, shows) == text + Shown(Put(behind, after), shows) ==>
      Shown(Put(before, inner), shows) == before + text + behind + Shown(after, shows)
    ensures (Open(after) ==> Open(Put(behind, after))) && (Open(inner) ==> Open(Put(before, inner)))
  {
    PutShows(behind, after, shows);
    PutShows(before, inner, shows);
    if Open(after) {
      PutOpen(behind, after);
    }
    if Open(inner) {
      PutOpen(before, inner);
    }
    assert before + (text + (behind + Shown(after, shows))) == before + text + behind + Shown(after, shows);
  }

  lemma {:induction false} ItemsShow(items: seq<Value>, w: Writer, after: seq<Piece>, shows: Values)
    ensures Shown(ItemPieces(items, w, after), shows) == JsonItems(items, shows, w) + Shown(after, shows)
    ensures Open(after) && Delimiter(w.enc("\"")) ==> Open(ItemPieces(items, w, after))
    decreases items, 0, 0
  {
    hide Shown, Put, Open, Delimiter, Json, Pieces;
    if items == [] {
    } else if |items| == 1 {
      PiecesShow(items[0], w, after, shows);
      assert JsonItems(items, shows, w) == Json(items[0], shows, w) + "" == Json(items[0], shows, w);
    } else {
      var rest := ItemPieces(items[1..], w, after);
      ItemsShow(items[1..], w, after, shows);
      Separate(Json(items[0], shows, w), w.enc(","), rest, JsonItems(items[1..], shows, w), after, shows);
      PiecesShow(items[0], w, Put(w.enc(","), rest), shows);
    }
  }

  /** A text and a separator before pieces that read as `text`. */
  lemma Separate(first: string, sep: string, rest: seq<Piece>, text: string, after: seq<Piece>, shows: Values)
    requires Shown(rest, shows) == text + Shown(after, shows)
    ensures first + Shown(Put(sep, rest), shows) == first + (sep + text) + Shown(after, shows)
    ensures Open(rest) ==> Open(Put(sep, rest))
  {
    PutShows(sep, rest, shows);
    if Open(rest) {
      PutOpen(sep, rest);
    }
    hide Shown, Put, Open;
    assert first + (sep + (text + Shown(after, shows))) == first + (sep + text) + Shown(after, shows);
  }

  lemma {:induction false} FieldsShow(v: Value, order: seq<string>, w: Writer, after: seq<Piece>, shows: Values)
    requires v.Object? && forall k | k in order :: k in v.fields
    ensures Shown(FieldPieces(v, order, w, after), shows) == JsonFields(v, order, shows, w) + Shown(after, shows)
    ensures Open(after) && Delimiter(w.enc("\"")) ==> Open(FieldPieces(v, order, w, after))
    decreases v, 0, |order|
  {
    hide Shown, Put, Open, Delimiter, Json, Pieces;
    if order != [] {
      var name, value := w.enc("\"" + w.escape(order[0]) + "\":"), v.fields[order[0]];
      if |order| == 1 {
        PiecesShow(value, w, after, shows);
        Named(name, Pieces(value, w, after), Json(value, shows, w), "", after, shows);
      } else {
        var rest := FieldPieces(v, order[1..], w, after);
        var sep := w.enc(",");
        FieldsShow(v, order[1..], w, after, shows);
        Separate(Json(value, shows, w), sep, rest, JsonFields(v, order[1..], shows, w), after, shows);
        PiecesShow(value, w, Put(sep, rest), shows);
        Named(name, Pieces(value, w, Put(sep, rest)), Json(value, shows, w), sep + JsonFields(v, order[1..], shows, w),
              after, shows);
      }
    }
  }

  lemma Named(name: string, inner: seq<Piece>, text: string, more: string, after: seq<Piece>, shows: Values)
    requires Shown(inner, shows) == text + more + Shown(after, shows)
    ensures Shown(Put(name, inner), shows) == name + text + more + Shown(after, shows)
    ensures Open(inner) ==> Open(Put(name, inner))
  {
    PutShows(name, inner, shows);
    if Open(inner) {
      PutOpen(name, inner);
    }
    assert name + (text + more + Shown(after, shows)) == name + text + more + Shown(after, shows);
  }

  lemma PutHoles(text: string, after: seq<Piece>)
    ensures forall k :: HasHole(Put(text, after), k) <==> HasHole(after, k)
  {
    var ps := Put(text, after);
    if ps != [] {
      HolesOfRest(ps);
    }
    if after != [] {
      HolesOfRest(after);
    }
    assert text != "" && after != [] && after[0].Lit? ==> ps[1..] == after[1..];
    assert text != "" && (after == [] || after[0].Hole?) ==> ps[1..] == after;
  }

  /** The holes of the pieces are those of the value. */
  lemma {:induction false} PiecesHoles(v: Value, w: Writer, after: seq<Piece>)
    ensures forall k :: HasHole(Pieces(v, w, after), k) <==> k in HoleKeys(v) || HasHole(after, k)
    decreases v, 1, 0
  {
    hide HasHole, Put;
    match v
    case Hole(key) =>
      var hole := [Piece.Hole(key)] + Put(w.enc("\""), after);
      PutHoles(w.enc("\""), after);
      assert hole[1..] == Put(w.enc("\""), after);
      HolesOfRest(hole);
      PutHoles(w.enc("\""), hole);
    case List(items) =>
      PutHoles(w.enc("]"), after);
      ItemsHoles(items, w, Put(w.enc("]"), after));
      PutHoles(w.enc("["), ItemPieces(items, w, Put(w.enc("]"), after)));
    case Object(fields) =>
      var order := SortedNames(fields.Keys);
      PutHoles(w.enc("}"), after);
      FieldsHoles(v, order, w, Put(w.enc("}"), after));
      PutHoles(w.enc("{"), FieldPieces(v, order, w, Put(w.enc("}"), after)));
      AllFieldHoles(fields, order);
    case _ =>
      PutHoles(Json(v, Same(), w), after);
  }

  lemma {:induction false} ItemsHoles(items: seq<Value>, w: Writer, after: seq<Piece>)
    ensures forall k :: HasHole(ItemPieces(items, w, after), k) <==> k in HoleKeys(List(items)) || HasHole(after, k)
    decreases items, 0, 0
  {
    hide HasHole, Put, Pieces;
    if items != [] {
      FirstItemHoles(items);
      PiecesHoles(items[0], w, after);
      if |items| > 1 {
        ItemsHoles(items[1..], w, after);
        PutHoles(w.enc(","), ItemPieces(items[1..], w, after));
        PiecesHoles(items[0], w, Put(w.enc(","), ItemPieces(items[1..], w, after)));
      }
      hide HoleKeys;
    }
  }

  lemma FirstItemHoles(items: seq<Value>)
    requires items != []
    ensures HoleKeys(List(items)) == HoleKeys(items[0]) + HoleKeys(List(items[1..]))
    ensures |items| == 1 ==> HoleKeys(List(items)) == HoleKeys(items[0])
  {
    forall k ensures k in HoleKeys(List(items)) <==> k in HoleKeys(items[0]) + HoleKeys(List(items[1..])) {
      if k in HoleKeys(List(items)) {
        var i :| 0 <= i < |items| && k in HoleKeys(items[i]);
        assert i > 0 ==> items[1..][i - 1] == items[i];
      }
      if k in HoleKeys(List(items[1..])) {
        var i :| 0 <= i < |items[1..]| && k in HoleKeys(items[1..][i]);
        assert items[i + 1] == items[1..][i];
      }
    }
  }

  /** A placeholder in one of the fields listed. */
  ghost predicate HoleIn(fields: map<string, Value>, order: seq<string>, k: string)
    requires forall f | f in order :: f in fields
  {
    exists f :: f in order && k in HoleKeys(fields[f])
  }

  lemma AllFieldHoles(fields: map<string, Value>, order: seq<string>)
    requires IsOrder(order, fields.Keys)
    ensures forall k :: HoleIn(fields, order, k) <==> k in HoleKeys(Object(fields))
  {
    forall k ensures HoleIn(fields, order, k) <==> k in HoleKeys(Object(fields)) {
      if k in HoleKeys(Object(fields)) {
        var f :| f in fields && k in HoleKeys(fields[f]);
        assert f in order;
      }
    }
  }

  lemma FirstFieldHoles(fields: map<string, Value>, order: seq<string>)
    requires order != [] && forall f | f in order :: f in fields
    ensures forall k :: HoleIn(fields, order, k) <==> k in HoleKeys(fields[order[0]]) || HoleIn(fields, order[1..], k)
  {
    hide HoleKeys;
    assert forall f :: f in order <==> f == order[0] || f in order[1..];
  }

  lemma {:induction false} FieldsHoles(v: Value, order: seq<string>, w: Writer, after: seq<Piece>)
    requires v.Object? && forall k | k in order :: k in v.fields
    ensures forall k :: HasHole(FieldPieces(v, order, w, after), k) <==> HoleIn(v.fields, order, k) || HasHole(after, k)
    decreases v, 0, |order|
  {
    hide HasHole, Put, Pieces;
    if order != [] {
      var name, value := w.enc("\"" + w.escape(order[0]) + "\":"), v.fields[order[0]];
      FirstFieldHoles(v.fields, order);
      if |order| == 1 {
        PiecesHoles(value, w, after);
        PutHoles(name, Pieces(value, w, after));
      } else {
        var rest := Put(w.enc(","), FieldPieces(v, order[1..], w, after));
        FieldsHoles(v, order[1..], w, after);
        PutHoles(w.enc(","), FieldPieces(v, order[1..], w, after));
        PiecesHoles(value, w, rest);
        PutHoles(name, Pieces(value, w, rest));
        hide HoleIn, HoleKeys;
      }
    }
  }

  // ----- Forms -----

  function HexDigit(n: nat): char
    requires n < 16
  {
    if n < 10 then '0' + n as char else 'A' + (n - 10) as char
  }

  predicate Unreserved(c: char) { IsLetter(c) || '0' <= c <= '9' || c == '-' || c == '_' || c == '.' || c == '~' }

  /** `url.QueryEscape`, byte by byte. */
  function QueryEscape(s: string): string {
    if s == "" then ""
    else
      var c := s[0];
      (if Unreserved(c) then [c]
       else if c == ' ' then "+"
       else ['%', HexDigit(c as int / 16 % 16), HexDigit(c as int % 16)]) + QueryEscape(s[1..])
  }

  const HEX := "0123456789ABCDEF"

  /** Letters, digits and -_.~ stand for themselves, a space for a plus, and any other byte for a percent sign
      and its two hexadecimal digits. */
  lemma QueryEscapeMeaning(c: char)
    requires c as int < 256
    ensures |HEX| == 16 && QueryEscape([c]) ==
      if 'a' <= c <= 'z' || 'A' <= c <= 'Z' || '0' <= c <= '9' || c in "-_.~" then [c]
      else if c == ' ' then "+"
      else ['%', HEX[c as int / 16], HEX[c as int % 16]]
  {
    assert [c][1..] == "" && QueryEscape("") == "";
    HexDigitIs(c as int / 16 % 16);
    HexDigitIs(c as int % 16);
    hide HexDigit;
  }

  lemma HexDigitIs(x: nat)
    requires x < 16
    ensures |HEX| == 16 && HexDigit(x) == HEX[x]
  {
  }

  lemma {:induction false} QueryEscapeConcat(a: string, b: string)
    ensures QueryEscape(a + b) == QueryEscape(a) + QueryEscape(b)
  {
    if a == "" {
      assert a + b == b;
    } else {
      assert (a + b)[1..] == a[1..] + b;
      QueryEscapeConcat(a[1..], b);
    }
  }

  lemma {:induction false} QueryEscapeWord(s: string)
    requires forall i | 0 <= i < |s| :: IsLetter(s[i])
    ensures QueryEscape(s) == s
  {
    if s != "" {
      QueryEscapeWord(s[1..]);
    }
  }

  function Escaping(w: Writer): Writer { w.(enc := QueryEscape) }

  function Marshalling(w: Writer): Writer { w.(enc := Same()) }

  /** The holes of the value hold letters only. */
  ghost predicate WordHoles(v: Value) {
    match v
    case Hole(key) => IsWord(key, |key|)
    case List(items) => forall i | 0 <= i < |items| :: WordHoles(items[i])
    case Object(fields) => forall k | k in fields :: WordHoles(fields[k])
    case _ => true
  }

  /** Escaping the marshalled value is escaping every piece of it. */
  lemma {:induction false} EscapedJson(v: Value, w: Writer)
    requires WordHoles(v)
    ensures QueryEscape(Json(v, Same(), Marshalling(w))) == Json(v, Same(), Escaping(w))
    decreases v, 1, 0
  {
    var m := Marshalling(w);
    hide QueryEscape;
    match v
    case Hole(key) =>
      QueryEscapeWord(key);
      QueryEscapeConcat("\"" + key, "\"");
      QueryEscapeConcat("\"", key);
    case List(items) =>
      EscapedItems(items, w);
      QueryEscapeConcat("[" + JsonItems(items, Same(), m), "]");
      QueryEscapeConcat("[", JsonItems(items, Same(), m));
    case Object(fields) =>
      var inner := JsonFields(v, SortedNames(fields.Keys), Same(), m);
      EscapedFields(v, SortedNames(fields.Keys), w);
      QueryEscapeConcat("{" + inner, "}");
      QueryEscapeConcat("{", inner);
    case _ =>
  }

  lemma {:induction false} EscapedItems(items: seq<Value>, w: Writer)
    requires forall i | 0 <= i < |items| :: WordHoles(items[i])
    ensures QueryEscape(JsonItems(items, Same(), Marshalling(w))) == JsonItems(items, Same(), Escaping(w))
    decreases items, 0, 0
  {
    if items != [] {
      var m := Marshalling(w);
      EscapedJson(items[0], w);
      EscapedItems(items[1..], w);
      var more := if |items| == 1 then "" else "," + JsonItems(items[1..], Same(), m);
      QueryEscapeConcat(Json(items[0], Same(), m), more);
      QueryEscapeConcat(",", JsonItems(items[1..], Same(), m));
    }
  }

  lemma {:induction false} EscapedFields(v: Value, order: seq<string>, w: Writer)
    requires v.Object? && WordHoles(v) && forall k | k in order :: k in v.fields
    ensures QueryEscape(JsonFields(v, order, Same(), Marshalling(w))) == JsonFields(v, order, Same(), Escaping(w))
    decreases v, 0, |order|
  {
    if order != [] {
      var m := Marshalling(w);
      var name, value := "\"" + w.escape(order[0]) + "\":", Json(v.fields[order[0]], Same(), m);
      EscapedJson(v.fields[order[0]], w);
      EscapedFields(v, order[1..], w);
      var more := if |order| == 1 then "" else "," + JsonFields(v, order[1..], Same(), m);
      QueryEscapeConcat(name + value, more);
      QueryEscapeConcat(name, value);
      QueryEscapeConcat(",", JsonFields(v, order[1..], Same(), m));
    }
  }

  /** A field of a form: a string as it is, anything else as escaped JSON. */
  ghost function FieldText(v: Value, shows: Values, w: Writer): string {
    match v
    case Str(text) => text
    case Integer(i) => w.integer(i)
    case Float(r) => w.float(r)
    case Hole(key) => shows(key)
    case _ => Json(v, shows, Escaping(w))
  }

  /** The form, with the fields in the order in which the map is walked. */
  ghost function Form(fields: map<string, Value>, order: seq<string>, shows: Values, w: Writer): string
    requires forall k | k in order :: k in fields
  {
    if order == [] then ""
    else
      order[0] + "=" + FieldText(fields[order[0]], shows, w)
      + if |order| == 1 then "" else "&" + Form(fields, order[1..], shows, w)
  }

  /** What `htmlFormMarshal` writes for a field. */
  ghost function FormPart(v: Value, w: Writer): string {
    match v
    case Str(text) => text
    case Integer(i) => w.integer(i)
    case Float(r) => w.float(r)
    case Hole(key) => key
    case _ => QueryEscape(Json(v, Same(), Marshalling(w)))
  }

  ghost function FormParts(fields: map<string, Value>, order: seq<string>, w: Writer): seq<string>
    requires forall k | k in order :: k in fields
  {
    seq(|order|, i requires 0 <= i < |order| => order[i] + "=" + FormPart(fields[order[i]], w))
  }

  /** `htmlFormMarshal`; `json` is `jsonMarshal`. */
  method HtmlFormMarshal(v: Value, w: Writer, json: Value -> string) returns (r: Option<string>)
    requires forall x :: json(x) == Json(x, Same(), Marshalling(w))
    ensures r.Some? <==> v.Object?
    ensures r.Some? && WordHoles(v) ==>
      exists order :: IsOrder(order, v.fields.Keys) && r.value == Form(v.fields, order, Same(), w)
  {
    if !v.Object? {
      return None;
    }
    var parts: seq<string> := [];
    var rest := v.fields.Keys;
    ghost var order: seq<string> := [];
    while rest != {}
      invariant rest <= v.fields.Keys && IsOrder(order, v.fields.Keys - rest)
      invariant parts == FormParts(v.fields, order, w)
      decreases rest
    {
      var k :| k in rest;
      var str;
      match v.fields[k] {
        case Str(text) => str := text;
        case Integer(i) => str := w.integer(i);
        case Float(x) => str := w.float(x);
        case Hole(key) => str := key;
        case _ => str := QueryEscape(json(v.fields[k]));
      }
      parts := parts + [k + "=" + str];
      order := order + [k];
      rest := rest - {k};
    }
    assert v.fields.Keys - rest == v.fields.Keys;
    if WordHoles(v) {
      PartsJoin(v.fields, order, w);
    }
    r := Some(Join(parts, "&"));
  }

  lemma {:induction false} PartsJoin(fields: map<string, Value>, order: seq<string>, w: Writer)
    requires (forall k | k in order :: k in fields) && forall k | k in fields :: WordHoles(fields[k])
    ensures Join(FormParts(fields, order, w), "&") == Form(fields, order, Same(), w)
  {
    if order != [] {
      PartsJoin(fields, order[1..], w);
      FieldMarshalled(fields[order[0]], w);
      var first := FirstPart(fields, order, w);
      hide *;
      JoinFirst(first, FormParts(fields, order[1..], w), "&");
    }
  }

  lemma FirstPart(fields: map<string, Value>, order: seq<string>, w: Writer) returns (first: string)
    requires (forall k | k in order :: k in fields) && order != []
    requires FieldText(fields[order[0]], Same(), w) == FormPart(fields[order[0]], w)
    ensures var parts := FormParts(fields, order[1..], w);
      && FormParts(fields, order, w) == [first] + parts
      && Form(fields, order, Same(), w) == first + if parts == [] then "" else "&" + Form(fields, order[1..], Same(), w)
  {
    hide FormPart, FieldText;
    first := order[0] + "=" + FormPart(fields[order[0]], w);
  }

  lemma FieldMarshalled(v: Value, w: Writer)
    requires WordHoles(v)
    ensures FieldText(v, Same(), w) == FormPart(v, w)
  {
    if v.Null? || v.List? || v.Object? {
      EscapedJson(v, w);
    }
  }

  /** What a field of a form shows: a string, a number or a placeholder as it is, anything else as JSON with every
      piece outside its placeholders escaped. */
  ghost function Parts(fields: map<string, Value>, order: seq<string>, shows: Values, w: Writer): seq<string>
    requires forall k | k in order :: k in fields
  {
    seq(|order|, i requires 0 <= i < |order| =>
      var v := fields[order[i]];
      order[i] + "=" +
      (match v
       case Str(text) => text
       case Integer(n) => w.integer(n)
       case Float(r) => w.float(r)
       case Hole(key) => shows(key)
       case _ => Json(v, shows, Escaping(w))))
  }

  /** A form lists "name=value" for each field, with "&" between them. */
  lemma {:induction false} FormMeaning(fields: map<string, Value>, order: seq<string>, shows: Values, w: Writer)
    requires forall k | k in order :: k in fields
    ensures Form(fields, order, shows, w) == Join(Parts(fields, order, shows, w), "&")
  {
    if order != [] {
      FormMeaning(fields, order[1..], shows, w);
      var parts := Parts(fields, order, shows, w);
      assert parts[1..] == Parts(fields, order[1..], shows, w);
      assert parts[0] == order[0] + "=" + FieldText(fields[order[0]], shows, w);
      hide FieldText;
      var rest := Form(fields, order[1..], shows, w);
      assert parts[0] + "&" + rest == parts[0] + ("&" + rest);
    }
  }

  ghost function PartPieces(name: string, v: Value, w: Writer, after: seq<Piece>): seq<Piece> {
    match v
    case Hole(key) => Put(name + "=", [Piece.Hole(key)] + after)
    case List(_) => Put(name + "=", Pieces(v, Escaping(w), after))
    case Object(_) => Put(name + "=", Pieces(v, Escaping(w), after))
    case _ => Put(name + "=", Put(FieldText(v, Same(), w), after))
  }

  ghost function FormPieces(fields: map<string, Value>, order: seq<string>, w: Writer): seq<Piece>
    requires forall k | k in order :: k in fields
  {
    if order == [] then []
    else
      PartPieces(order[0], fields[order[0]], w,
                 if |order| == 1 then [] else Put("&", FormPieces(fields, order[1..], w)))
  }

  lemma PartShows(name: string, v: Value, w: Writer, after: seq<Piece>, shows: Values)
    ensures Shown(PartPieces(name, v, w, after), shows) == name + "=" + FieldText(v, shows, w) + Shown(after, shows)
    ensures Open(after) && (after != [] ==> !IsLetter(after[0].text[0])) ==> Open(PartPieces(name, v, w, after))
  {
    var key := name + "=";
    var text := FieldText(v, shows, w);
    assert key[|key| - 1] == '=';
    if v.Hole? {
      HoleAfter(key, v.key, after, shows);
    } else if v.List? || v.Object? {
      QuoteEscapes();
      PiecesShow(v, Escaping(w), after, shows);
      hide Shown, Put, Pieces, Json;
      NameFirst(key, Pieces(v, Escaping(w), after), text, after, shows);
    } else {
      assert text == FieldText(v, Same(), w);
      PutShows(text, after, shows);
      if Open(after) {
        PutOpen(text, after);
      }
      hide Shown, Put, FieldText;
      NameFirst(key, Put(text, after), text, after, shows);
    }
  }

  lemma NameFirst(key: string, inner: seq<Piece>, text: string, after: seq<Piece>, shows: Values)
    requires Shown(inner, shows) == text + Shown(after, shows)
    ensures Shown(Put(key, inner), shows) == key + text + Shown(after, shows)
    ensures Open(inner) ==> Open(Put(key, inner))
  {
    PutShows(key, inner, shows);
    if Open(inner) {
      PutOpen(key, inner);
    }
    hide Shown, Put, Open;
    assert key + (text + Shown(after, shows)) == key + text + Shown(after, shows);
  }

  lemma HoleAfter(key: string, hole: string, after: seq<Piece>, shows: Values)
    requires key != "" && !IsLetter(key[|key| - 1])
    ensures Shown(Put(key, [Piece.Hole(hole)] + after), shows) == key + shows(hole) + Shown(after, shows)
    ensures Open(after) && (after != [] ==> !IsLetter(after[0].text[0])) ==> Open(Put(key, [Piece.Hole(hole)] + after))
  {
    var ps := [Piece.Hole(hole)] + after;
    assert ps[1..] == after;
    PutShows(key, ps, shows);
    assert Put(key, ps)[1..] == ps;
  }

  lemma QuoteEscapes()
    ensures Delimiter(QueryEscape("\""))
  {
    assert QueryEscape("\""[1..]) == "";
    assert QueryEscape("\"") == ['%', HexDigit(2), HexDigit(2)] + "";
  }

  /** The pieces read as the form does, with no letter next to a hole. */
  lemma {:induction false} FormShows(fields: map<string, Value>, order: seq<string>, w: Writer, shows: Values)
    requires forall k | k in order :: k in fields
    ensures Shown(FormPieces(fields, order, w), shows) == Form(fields, order, shows, w)
    ensures Open(FormPieces(fields, order, w))
  {
    hide Shown, Put, FieldText, PartPieces;
    if order == [] {
      EmptyShows(shows);
    } else if |order| == 1 {
      EmptyShows(shows);
      PartShows(order[0], fields[order[0]], w, [], shows);
    } else {
      var rest := FormPieces(fields, order[1..], w);
      FormShows(fields, order[1..], w, shows);
      PutShows("&", rest, shows);
      AmpersandFirst(rest);
      PartShows(order[0], fields[order[0]], w, Put("&", rest), shows);
    }
  }

  lemma EmptyShows(shows: Values)
    ensures Shown([], shows) == ""
  {
  }

  lemma AmpersandFirst(rest: seq<Piece>)
    requires Open(rest)
    ensures Open(Put("&", rest)) && Put("&", rest) != [] && !IsLetter(Put("&", rest)[0].text[0])
  {
    PutOpen("&", rest);
  }

  lemma PartHoles(name: string, v: Value, w: Writer, after: seq<Piece>)
    ensures forall k :: HasHole(PartPieces(name, v, w, after), k) <==> k in HoleKeys(v) || HasHole(after, k)
  {
    if v.Hole? {
      var hole := [Piece.Hole(v.key)] + after;
      assert hole[1..] == after;
      HolesOfRest(hole);
      PutHoles(name + "=", hole);
    } else if v.List? || v.Object? {
      PiecesHoles(v, Escaping(w), after);
      PutHoles(name + "=", Pieces(v, Escaping(w), after));
    } else {
      PutHoles(FieldText(v, Same(), w), after);
      PutHoles(name + "=", Put(FieldText(v, Same(), w), after));
    }
  }

  lemma {:induction false} FormHoles(fields: map<string, Value>, order: seq<string>, w: Writer)
    requires forall k | k in order :: k in fields
    ensures forall k :: HasHole(FormPieces(fields, order, w), k) <==> HoleIn(fields, order, k)
  {
    NoHoles();
    if order != [] {
      FirstFieldHoles(fields, order);
      FormHoles(fields, order[1..], w);
      hide HasHole, Put, PartPieces, HoleKeys;
      PutHoles("&", FormPieces(fields, order[1..], w));
      PartHoles(order[0], fields[order[0]], w,
                if |order| == 1 then [] else Put("&", FormPieces(fields, order[1..], w)));
    }
  }

  lemma NoHoles()
    ensures forall k :: !HasHole([], k)
  {
  }

  // ----- Filling a rendered body -----

  /** What a body is when the payload stands in the admitted holes. */
  function Payload(t: Template, payload: string): Values {
    Filled(AdmittedKeys(t.bodyParameters, payload), Always(payload))
  }

  ghost predicate MintedParams(ps: Params) { forall k | k in ps :: IsWord(k, 16) }

  /** The text around the holes, names above all, holds no admitted placeholder. */
  ghost predicate NamesFree(ps: seq<Piece>, t: Template, payload: string) {
    LiteralsFree(ps, AdmittedKeys(t.bodyParameters, payload))
  }

  /** The payload holds no admitted placeholder but that of a hole itself. */
  ghost predicate Compatible(ps: seq<Piece>, t: Template, payload: string) {
    Harmless(ps, AdmittedKeys(t.bodyParameters, payload), Always(payload))
  }

  /** Every request shows the payload in the admitted holes, if and only if the payload is compatible. */
  lemma RenderedBody(t: Template, placeholder: string, payload: string, ps: seq<Piece>)
    requires IsBodyKind(placeholder) && BodyOf(t, ContentTypeOf(placeholder)) == Plain(ps)
    requires Delimited(ps) && MintedParams(t.bodyParameters) && forall k | HasHole(ps, k) :: k in t.bodyParameters
    requires NamesFree(ps, t, payload)
    ensures Compatible(ps, t, payload) <==>
      forall req | MadeFrom(req, t, placeholder, payload) :: req.body == Shown(ps, Payload(t, payload))
  {
    BodyMeaning(t, placeholder, payload, ps, 16);
  }

  /** A request carries a compatible payload if a hole admits it, and is the same for all payloads that
      none admits. */
  lemma BodyCarries(t: Template, placeholder: string, payload: string, ps: seq<Piece>, req: Request)
    requires IsBodyKind(placeholder) && BodyOf(t, ContentTypeOf(placeholder)) == Plain(ps)
    requires Delimited(ps) && MintedParams(t.bodyParameters) && forall k | HasHole(ps, k) :: k in t.bodyParameters
    requires NamesFree(ps, t, payload) && Compatible(ps, t, payload) && MadeFrom(req, t, placeholder, payload)
    ensures forall k | HasHole(ps, k) && Admits(t.bodyParameters[k], payload) :: Contains(req.body, payload)
    ensures (forall k | HasHole(ps, k) :: !Admits(t.bodyParameters[k], payload)) ==>
      req.body == BodyOf(t, ContentTypeOf(placeholder))
  {
    RenderedBody(t, placeholder, payload, ps);
    forall k | HasHole(ps, k) && Admits(t.bodyParameters[k], payload) ensures Contains(req.body, payload) {
      ContainsItself(payload);
      ShownContains(ps, Payload(t, payload), k, payload);
    }
    if forall k | HasHole(ps, k) :: !Admits(t.bodyParameters[k], payload) {
      ShownEqual(ps, Payload(t, payload), Same());
    }
  }

  lemma ContainsItself(s: string)
    ensures Contains(s, s)
  {
    assert s[..|s|] == s;
  }

  /** A JSON body made from a value becomes the JSON of that value with the payload in its admitted
      holes, whatever the order in which the parameters are walked: if and only if the payload is
      compatible. */
  lemma JsonBodyMeaning(t: Template, placeholder: string, payload: string, v: Value, w: Writer)
    requires placeholder in {JSON_BODY, JSON_REQUEST}
    requires BodyOf(t, JSON_CONTENT) == Json(v, Same(), Marshalling(w))
    requires MintedParams(t.bodyParameters) && HolesWithin(v, t.bodyParameters.Keys)
    requires NamesFree(Pieces(v, Marshalling(w), []), t, payload)
    ensures Compatible(Pieces(v, Marshalling(w), []), t, payload) <==>
      forall req | MadeFrom(req, t, placeholder, payload) :: req.body == Json(v, Payload(t, payload), Marshalling(w))
  {
    JsonIsPieces(v, w, Same());
    JsonIsPieces(v, w, Payload(t, payload));
    hide Pieces, Json, Shown, MadeFrom, Compatible;
    RenderedBody(t, placeholder, payload, Pieces(v, Marshalling(w), []));
  }

  lemma JsonIsPieces(v: Value, w: Writer, shows: Values)
    ensures var ps := Pieces(v, Marshalling(w), []);
      Shown(ps, shows) == Json(v, shows, Marshalling(w)) && Delimited(ps)
      && forall k :: HasHole(ps, k) <==> k in HoleKeys(v)
  {
    NoHoles();
    EmptyShows(shows);
    PiecesShow(v, Marshalling(w), [], shows);
    PiecesHoles(v, Marshalling(w), []);
  }

  /** A form made from an object becomes the form of that object with the payload in its admitted
      holes: if and only if the payload is compatible. */
  lemma FormBodyMeaning(t: Template, payload: string, fields: map<string, Value>, order: seq<string>, w: Writer)
    requires IsOrder(order, fields.Keys) && BodyOf(t, FORM_CONTENT) == Form(fields, order, Same(), w)
    requires MintedParams(t.bodyParameters) && HolesWithin(Object(fields), t.bodyParameters.Keys)
    requires NamesFree(FormPieces(fields, order, w), t, payload)
    ensures Compatible(FormPieces(fields, order, w), t, payload) <==>
      forall req | MadeFrom(req, t, HTML_FORM, payload) :: req.body == Form(fields, order, Payload(t, payload), w)
  {
    FormIsPieces(fields, order, w, Same());
    FormIsPieces(fields, order, w, Payload(t, payload));
    hide FormPieces, Form, Shown, MadeFrom, Compatible;
    RenderedBody(t, HTML_FORM, payload, FormPieces(fields, order, w));
  }

  lemma FormIsPieces(fields: map<string, Value>, order: seq<string>, w: Writer, shows: Values)
    requires IsOrder(order, fields.Keys)
    ensures var ps := FormPieces(fields, order, w);
      && Shown(ps, shows) == Form(fields, order, shows, w) && Delimited(ps)
      && forall k :: HasHole(ps, k) <==> k in HoleKeys(Object(fields))
  {
    FormShows(fields, order, w, shows);
    FormHoles(fields, order, w);
    AllFieldHoles(fields, order);
  }

  /** The payload is in the body if a hole of the value admits it; if none does, the body is the
      template's own. */
  ghost predicate Carries(req: Request, t: Template, v: Value, payload: string, text: string) {
    && (forall k | k in HoleKeys(v) && k in t.bodyParameters && Admits(t.bodyParameters[k], payload) ::
          Contains(req.body, payload))
    && ((forall k | k in HoleKeys(v) && k in t.bodyParameters :: !Admits(t.bodyParameters[k], payload)) ==>
          req.body == text)
  }

  lemma JsonBodyCarries(t: Template, placeholder: string, payload: string, v: Value, w: Writer, req: Request)
    requires placeholder in {JSON_BODY, JSON_REQUEST} && MadeFrom(req, t, placeholder, payload)
    requires BodyOf(t, JSON_CONTENT) == Json(v, Same(), Marshalling(w))
    requires MintedParams(t.bodyParameters) && HolesWithin(v, t.bodyParameters.Keys)
    requires var ps := Pieces(v, Marshalling(w), []); NamesFree(ps, t, payload) && Compatible(ps, t, payload)
    ensures Carries(req, t, v, payload, BodyOf(t, JSON_CONTENT))
  {
    JsonIsPieces(v, w, Same());
    hide Pieces, Json, MadeFrom, NamesFree, Compatible;
    BodyCarries(t, placeholder, payload, Pieces(v, Marshalling(w), []), req);
  }

  lemma FormBodyCarries(t: Template, payload: string, v: Value, order: seq<string>, w: Writer, req: Request)
    requires v.Object? && IsOrder(order, v.fields.Keys) && MadeFrom(req, t, HTML_FORM, payload)
    requires BodyOf(t, FORM_CONTENT) == Form(v.fields, order, Same(), w)
    requires MintedParams(t.bodyParameters) && HolesWithin(v, t.bodyParameters.Keys)
    requires var ps := FormPieces(v.fields, order, w); NamesFree(ps, t, payload) && Compatible(ps, t, payload)
    ensures Carries(req, t, v, payload, BodyOf(t, FORM_CONTENT))
  {
    FormIsPieces(v.fields, order, w, Same());
    hide FormPieces, Form, MadeFrom, NamesFree, Compatible;
    BodyCarries(t, HTML_FORM, payload, FormPieces(v.fields, order, w), req);
  }
}
