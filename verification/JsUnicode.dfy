/** The JSUnicode encoder (`internal/payload/encoder/jsunicode.go`) against the decoder of the test
    server (`tests/integration/waf/decoder.go`).

    A payload is a sequence of Unicode scalar values.  The UTF-16 transformations are those of
    section 2 of RFC 2781, big-endian and without a byte order mark; like the library's, the
    decoder replaces what is not well-formed by U+FFFD. */
module JsUnicode {
  import opened Wrappers
  import opened Text

  type Byte = x: int | 0 <= x < 256
  type Unit = x: int | 0 <= x < 0x10000
  type Scalar = x: int | (0 <= x < 0xD800) || (0xE000 <= x < 0x110000)

  // ----- UTF-16 -----

  /** Section 2.1 of RFC 2781: one unit, or a surrogate pair. */
  function UnitsOf(x: Scalar): seq<Unit> {
    if x < 0x10000 then [x]
    else [0xD800 + (x - 0x10000) / 0x400, 0xDC00 + (x - 0x10000) % 0x400]
  }

  function Utf16(data: seq<Scalar>): seq<Unit> {
    if data == [] then [] else UnitsOf(data[0]) + Utf16(data[1..])
  }

  predicate Leads(u: Unit) { 0xD800 <= u < 0xDC00 }
  predicate Trails(u: Unit) { 0xDC00 <= u < 0xE000 }

  const REPLACEMENT: Scalar := 0xFFFD

  /** Section 2.2 of RFC 2781. */
  function Scalars(us: seq<Unit>): seq<Scalar> {
    if us == [] then []
    else if Leads(us[0]) && |us| >= 2 && Trails(us[1]) then
      [0x10000 + (us[0] - 0xD800) * 0x400 + (us[1] - 0xDC00)] + Scalars(us[2..])
    else if Trails(us[0]) && |us| >= 2 && Trails(us[1]) then
      [REPLACEMENT] + Scalars(us[2..])   // the library takes this pair together
    else if Leads(us[0]) || Trails(us[0]) then [REPLACEMENT] + Scalars(us[1..])
    else [us[0]] + Scalars(us[1..])
  }

  function High(u: Unit): Byte { u / 256 }
  function Low(u: Unit): Byte { u % 256 }

  function UnitOf(hi: Byte, lo: Byte): Unit { hi * 256 + lo }

  function BigEndian(us: seq<Unit>): seq<Byte> {
    if us == [] then [] else [High(us[0]), Low(us[0])] + BigEndian(us[1..])
  }

  /** Whole units from bytes; a single byte left over counts as malformed. */
  function DecodeBytes(b: seq<Byte>): seq<Scalar> {
    Scalars(UnitsFrom(b)) + if |b| % 2 == 1 then [REPLACEMENT] else []
  }

  function UnitsFrom(b: seq<Byte>): seq<Unit> {
    if |b| < 2 then [] else [UnitOf(b[0], b[1])] + UnitsFrom(b[2..])
  }

  // ----- Hexadecimal -----

  function HexDigit(x: nat): char
    requires x < 16
  {
    if x < 10 then '0' + x as char else 'a' + (x - 10) as char
  }

  function HexValue(c: char): Option<nat> {
    if '0' <= c <= '9' then Some(c as int - '0' as int)
    else if 'a' <= c <= 'f' then Some(c as int - 'a' as int + 10)
    else if 'A' <= c <= 'F' then Some(c as int - 'A' as int + 10)
    else None
  }

  /** `%02x`. */
  function Hex2(b: Byte): string { [HexDigit(b / 16), HexDigit(b % 16)] }

  /** `hex.DecodeString`: an odd length or a foreign character is an error. */
  function HexDecode(s: string): Option<seq<Byte>> {
    if s == "" then Some([])
    else if |s| == 1 then None
    else
      var hi, lo := HexValue(s[0]), HexValue(s[1]);
      if hi.None? || lo.None? || hi.value >= 16 || lo.value >= 16 then None
      else
        match HexDecode(s[2..])
        case None => None
        case Some(rest) => Some([hi.value * 16 + lo.value] + rest)
  }

  // ----- The encoder and the decoder -----

  const ESCAPE := "\\u"

  /** `\u%02x%02x`. */
  function Escape(hi: Byte, lo: Byte): string { ESCAPE + (Hex2(hi) + Hex2(lo)) }

  /** Pairs of bytes, each printed as an escape. */
  function Print(b: seq<Byte>): string {
    if |b| < 2 then "" else Escape(b[0], b[1]) + Print(b[2..])
  }

  /** `Encode`: the loop over the UTF-16 bytes. */
  method Encode(data: seq<Scalar>) returns (ret: string)
    ensures ret == Print(BigEndian(Utf16(data)))
  {
    hide Print, Escape, BigEndian, Utf16;
    var bytes := BigEndian(Utf16(data));
    BigEndianSize(Utf16(data));
    PrintNothing();
    ret := "";
    var i := 0;
    while i < |bytes|
      invariant 0 <= i <= |bytes| && i % 2 == 0
      invariant ret + Print(bytes[i..]) == Print(bytes)
    {
      PrintNext(bytes, i, ret);
      ret := ret + Escape(bytes[i], bytes[i + 1]);
      i := i + 2;
    }
    assert bytes[i..] == [];
  }

  lemma PrintNothing()
    ensures Print([]) == ""
  {
  }

  lemma PrintNext(b: seq<Byte>, i: nat, ret: string)
    requires i + 1 < |b|
    ensures ret + Print(b[i..]) == (ret + Escape(b[i], b[i + 1])) + Print(b[i + 2..])
  {
    assert b[i..][2..] == b[i + 2..];
    hide Escape;
  }

  /** `decodeJSUnicode`. */
  function DecodeJSUnicode(payload: string): Option<seq<Scalar>> {
    match HexDecode(ReplaceAll(payload, ESCAPE, ""))
    case None => None
    case Some(bytes) => Some(DecodeBytes(bytes))
  }

  // ----- The round trip -----

  lemma {:induction false} BigEndianSize(us: seq<Unit>)
    ensures |BigEndian(us)| == 2 * |us|
  {
    if us != [] {
      BigEndianSize(us[1..]);
    }
  }

  lemma UnitsDecode(x: Scalar, rest: seq<Unit>)
    ensures Scalars(UnitsOf(x) + rest) == [x] + Scalars(rest)
  {
    var us := UnitsOf(x) + rest;
    if x < 0x10000 {
      assert us[1..] == rest;
    } else {
      assert us[2..] == rest;
      assert Leads(us[0]) && Trails(us[1]);
    }
  }

  /** UTF-16 is decoded exactly, surrogate pairs included. */
  lemma {:induction false} Utf16RoundTrip(data: seq<Scalar>)
    ensures Scalars(Utf16(data)) == data
  {
    if data != [] {
      UnitsDecode(data[0], Utf16(data[1..]));
      Utf16RoundTrip(data[1..]);
      assert data == [data[0]] + data[1..];
    }
  }

  lemma {:induction false} BytesRoundTrip(us: seq<Unit>)
    ensures UnitsFrom(BigEndian(us)) == us
  {
    if us != [] {
      BytesRoundTrip(us[1..]);
      assert BigEndian(us)[2..] == BigEndian(us[1..]);
      assert us == [us[0]] + us[1..];
    }
  }

  /** The hexadecimal digits of some bytes. */
  function HexOf(b: seq<Byte>): string {
    if b == [] then "" else Hex2(b[0]) + HexOf(b[1..])
  }

  lemma HexDigitValue(x: nat)
    requires x < 16
    ensures HexValue(HexDigit(x)) == Some(x) && HexDigit(x) != '\\'
  {
  }

  lemma HexStep(b: Byte, rest: string, bytes: seq<Byte>)
    requires HexDecode(rest) == Some(bytes)
    ensures HexDecode(Hex2(b) + rest) == Some([b] + bytes)
  {
    HexDigitValue(b / 16);
    HexDigitValue(b % 16);
    hide HexDigit, HexValue;
    var s := Hex2(b) + rest;
    assert s[0] == HexDigit(b / 16) && s[1] == HexDigit(b % 16) && s[2..] == rest;
  }

  lemma {:induction false} HexRoundTrip(b: seq<Byte>)
    ensures HexDecode(HexOf(b)) == Some(b)
  {
    if b != [] {
      HexRoundTrip(b[1..]);
      HexStep(b[0], HexOf(b[1..]), b[1..]);
      hide HexDecode, Hex2;
      assert b == [b[0]] + b[1..];
    }
  }

  predicate Plain(s: string) { forall i | 0 <= i < |s| :: s[i] != '\\' }

  /** Text without a backslash is copied. */
  lemma {:induction false} ReplaceSkips(plain: string, s: string)
    requires Plain(plain)
    ensures ReplaceAll(plain + s, ESCAPE, "") == plain + ReplaceAll(s, ESCAPE, "")
  {
    if plain == "" {
      assert plain + s == s;
    } else {
      assert (plain + s)[1..] == plain[1..] + s;
      assert !HasPrefix(plain + s, ESCAPE) by {
        assert (plain + s)[0] != '\\';
      }
      ReplaceSkips(plain[1..], s);
      assert plain == [plain[0]] + plain[1..];
    }
  }

  lemma {:induction false} EscapesVanish(b: seq<Byte>)
    requires |b| % 2 == 0
    ensures ReplaceAll(Print(b), ESCAPE, "") == HexOf(b)
    ensures |Print(b)| == 3 * |b|
  {
    if b != [] {
      EscapesVanish(b[2..]);
      EscapeVanishes(b[0], b[1], Print(b[2..]));
      HexOfTwo(b);
      hide ReplaceAll, Escape, HexOf;
    }
  }

  lemma EscapeVanishes(hi: Byte, lo: Byte, s: string)
    ensures ReplaceAll(Escape(hi, lo) + s, ESCAPE, "") == (Hex2(hi) + Hex2(lo)) + ReplaceAll(s, ESCAPE, "")
    ensures |Escape(hi, lo)| == 6
  {
    var four := Hex2(hi) + Hex2(lo);
    HexIsPlain(hi);
    HexIsPlain(lo);
    hide ReplaceAll, Hex2;
    ReplaceDrops(four + s);
    ReplaceSkips(four, s);
    assert Escape(hi, lo) + s == ESCAPE + (four + s);
    HexSize(hi);
    HexSize(lo);
  }

  lemma HexSize(b: Byte)
    ensures |Hex2(b)| == 2
  {
  }

  lemma HexOfTwo(b: seq<Byte>)
    requires |b| >= 2
    ensures HexOf(b) == (Hex2(b[0]) + Hex2(b[1])) + HexOf(b[2..])
  {
    assert b[1..][1..] == b[2..];
    hide Hex2;
  }

  lemma ReplaceDrops(s: string)
    ensures ReplaceAll(ESCAPE + s, ESCAPE, "") == ReplaceAll(s, ESCAPE, "")
  {
    assert (ESCAPE + s)[..|ESCAPE|] == ESCAPE && (ESCAPE + s)[|ESCAPE|..] == s;
  }

  lemma HexIsPlain(b: Byte)
    ensures Plain(Hex2(b))
  {
    HexDigitValue(b / 16);
    HexDigitValue(b % 16);
  }

  /** For every sequence of scalar values the decoder inverts the encoder, and the text has six
      characters for each UTF-16 code unit. */
  lemma RoundTrip(data: seq<Scalar>)
    ensures DecodeJSUnicode(Print(BigEndian(Utf16(data)))) == Some(data)
    ensures |Print(BigEndian(Utf16(data)))| == 6 * |Utf16(data)|
  {
    hide *;
    var us := Utf16(data);
    BigEndianSize(us);
    EscapesVanish(BigEndian(us));
    HexRoundTrip(BigEndian(us));
    DecodesHex(Print(BigEndian(us)), BigEndian(us));
    UnitsDecoded(us);
    Utf16RoundTrip(data);
  }

  lemma DecodesHex(payload: string, bytes: seq<Byte>)
    requires HexDecode(ReplaceAll(payload, ESCAPE, "")) == Some(bytes)
    ensures DecodeJSUnicode(payload) == Some(DecodeBytes(bytes))
  {
  }

  lemma UnitsDecoded(us: seq<Unit>)
    ensures DecodeBytes(BigEndian(us)) == Scalars(us)
  {
    BigEndianSize(us);
    BytesRoundTrip(us);
    hide Scalars, BigEndian, UnitsFrom;
    assert Scalars(us) + [] == Scalars(us);
  }

  /** One unit for a scalar of the basic plane, two for any other. */
  lemma {:induction false} UnitsCount(data: seq<Scalar>)
    ensures |Utf16(data)| == |data| + Beyond(data)
  {
    if data != [] {
      UnitsCount(data[1..]);
    }
  }

  function Beyond(data: seq<Scalar>): nat {
    if data == [] then 0 else (if data[0] >= 0x10000 then 1 else 0) + Beyond(data[1..])
  }

  // ----- What the text is -----

  const HEX := "0123456789abcdef"

  lemma HexDigitIs(x: nat)
    requires x < 16
    ensures |HEX| == 16 && HexDigit(x) == HEX[x]
  {
  }

  /** A scalar of the basic plane is its own unit; any other is a leading and a trailing surrogate with ten bits
      each of what exceeds that plane. */
  lemma UnitsMeaning(x: Scalar)
    ensures x < 0x10000 ==> UnitsOf(x) == [x]
    ensures x >= 0x10000 ==>
      var us := UnitsOf(x);
      |us| == 2 && 0xD800 <= us[0] < 0xDC00 <= us[1] < 0xE000
      && x == 0x10000 + (us[0] as int - 0xD800) * 1024 + (us[1] as int - 0xDC00)
  {
  }

  /** The units of a text are those of its scalars, in order. */
  lemma {:induction false} Utf16Concat(a: seq<Scalar>, b: seq<Scalar>)
    ensures Utf16([]) == [] && (forall x: Scalar :: Utf16([x]) == UnitsOf(x))
    ensures Utf16(a + b) == Utf16(a) + Utf16(b)
  {
    forall x: Scalar ensures Utf16([x]) == UnitsOf(x) {
      assert [x][1..] == [] && UnitsOf(x) + [] == UnitsOf(x);
    }
    if a == [] {
      assert a + b == b;
    } else {
      assert (a + b)[1..] == a[1..] + b;
      Utf16Concat(a[1..], b);
      hide UnitsOf;
    }
  }

  /** Each unit is printed as a backslash, a "u" and its four hexadecimal digits, the highest first. */
  ghost predicate IsEscapeOf(text: string, u: Unit) {
    |HEX| == 16 &&
    text == ['\\', 'u', HEX[u / 4096], HEX[u / 256 % 16], HEX[u / 16 % 16], HEX[u % 16]]
  }

  lemma EscapeIs(u: Unit)
    ensures IsEscapeOf(Escape(High(u), Low(u)), u)
  {
    HexDigitIs(u / 4096);
    HexDigitIs(u / 256 % 16);
    HexDigitIs(u / 16 % 16);
    HexDigitIs(u % 16);
    FourDigits(u);
    hide HexDigit;
  }

  lemma FourDigits(u: Unit)
    ensures u / 256 / 16 == u / 4096 && u / 4096 < 16 && u % 256 / 16 == u / 16 % 16 && u % 256 % 16 == u % 16
  {
  }

  lemma {:induction false} PrintedAt(us: seq<Unit>, i: nat)
    requires i < |us|
    ensures |Print(BigEndian(us))| == 6 * |us|
    ensures IsEscapeOf(Print(BigEndian(us))[6 * i..6 * i + 6], us[i])
  {
    var rest := Print(BigEndian(us[1..]));
    var first := Escape(High(us[0]), Low(us[0]));
    EscapeIs(us[0]);
    assert BigEndian(us)[2..] == BigEndian(us[1..]);
    assert Print(BigEndian(us)) == first + rest;
    hide Print, BigEndian, Escape, IsEscapeOf, High, Low;
    if i > 0 {
      PrintedAt(us[1..], i - 1);
      assert (first + rest)[6 * i..6 * i + 6] == rest[6 * (i - 1)..6 * (i - 1) + 6];
    } else {
      assert (first + rest)[..6] == first;
      if |us| > 1 {
        PrintedAt(us[1..], 0);
      } else {
        NothingPrinted();
      }
    }
  }

  lemma NothingPrinted()
    ensures Print(BigEndian([])) == ""
  {
  }
}
