/** The Base64 and Base64Flat encoders (`internal/payload/encoder/base64.go`) against the decoder
    of the test server (`tests/integration/waf/decoder.go`).

    The library's encoding is the one of section 4 of RFC 4648.  Its decoder skips line breaks
    and accepts padding only at the end of the last group. */
module Base64 {
  import opened Wrappers
  import opened Text

  type Byte = x: int | 0 <= x < 256
  type Sextet = x: int | 0 <= x < 64

  // ----- The alphabet -----

  function Digit(x: Sextet): char {
    if x < 26 then 'A' + x as char
    else if x < 52 then 'a' + (x - 26) as char
    else if x < 62 then '0' + (x - 52) as char
    else if x == 62 then '+'
    else '/'
  }

  function Value(c: char): Option<Sextet> {
    if 'A' <= c <= 'Z' then Some(c as int - 'A' as int)
    else if 'a' <= c <= 'z' then Some(c as int - 'a' as int + 26)
    else if '0' <= c <= '9' then Some(c as int - '0' as int + 52)
    else if c == '+' then Some(62)
    else if c == '/' then Some(63)
    else None
  }

  lemma DigitValue(x: Sextet)
    ensures Value(Digit(x)) == Some(x) && Digit(x) != '=' && Digit(x) != '\r' && Digit(x) != '\n'
  {
  }

  // ----- The library -----

  /** The digits without padding. */
  function Digits(b: seq<Byte>): string {
    if b == [] then ""
    else if |b| == 1 then [Digit(b[0] / 4), Digit(b[0] % 4 * 16)]
    else if |b| == 2 then [Digit(b[0] / 4), Digit(b[0] % 4 * 16 + b[1] / 16), Digit(b[1] % 16 * 4)]
    else [Digit(b[0] / 4), Digit(b[0] % 4 * 16 + b[1] / 16), Digit(b[1] % 16 * 4 + b[2] / 64), Digit(b[2] % 64)]
         + Digits(b[3..])
  }

  /** The padding of a text of `n` digits. */
  function Padding(n: nat): string {
    if n % 4 == 2 then "==" else if n % 4 == 3 then "=" else ""
  }

  /** `base64.StdEncoding.EncodeToString`. */
  function EncodeToString(b: seq<Byte>): string { Digits(b) + Padding(|Digits(b)|) }

  function WithoutBreaks(s: string): string {
    if s == "" then ""
    else if s[0] == '\r' || s[0] == '\n' then WithoutBreaks(s[1..])
    else [s[0]] + WithoutBreaks(s[1..])
  }

  function FirstByte(x: Sextet, y: Sextet): Byte { x * 4 + y / 16 }
  function SecondByte(y: Sextet, z: Sextet): Byte { y % 16 * 16 + z / 4 }
  function ThirdByte(z: Sextet, w: Sextet): Byte { z % 4 * 64 + w }

  function DecodeGroups(s: string): Option<seq<Byte>> {
    if s == "" then Some([])
    else if |s| < 4 then None
    else
      var x, y, z, w := Value(s[0]), Value(s[1]), Value(s[2]), Value(s[3]);
      if x.None? || y.None? then None
      else if s == [s[0], s[1], '=', '='] then Some([FirstByte(x.value, y.value)])
      else if z.None? then None
      else if s == [s[0], s[1], s[2], '='] then Some([FirstByte(x.value, y.value), SecondByte(y.value, z.value)])
      else if w.None? then None
      else
        match DecodeGroups(s[4..])
        case None => None
        case Some(rest) =>
          Some([FirstByte(x.value, y.value), SecondByte(y.value, z.value), ThirdByte(z.value, w.value)] + rest)
  }

  /** `base64.StdEncoding.DecodeString`. */
  function DecodeString(s: string): Option<seq<Byte>> { DecodeGroups(WithoutBreaks(s)) }

  // ----- The encoder and the decoder -----

  datatype Mode = Normal | Flat | Undefined

  /** `Encode`; an undefined mode is an error. */
  function Encode(mode: Mode, data: seq<Byte>): Option<string> {
    match mode
    case Normal => Some(EncodeToString(data))
    case Flat => Some(ReplaceAll(EncodeToString(data), "=", ""))
    case Undefined => None
  }

  /** `decodeBase64`: pads the payload, then decodes it. */
  method DecodeBase64(payload: string) returns (value: Option<seq<Byte>>)
    ensures value == DecodeString(payload + Padding(|payload|))
  {
    var padded := payload;
    match |padded| % 4 {
      case 2 => padded := padded + "==";
      case 3 => padded := padded + "=";
      case _ => assert padded + "" == padded;
    }
    value := DecodeString(padded);
  }

  // ----- Round trips -----

  predicate IsDigits(s: string) {
    forall i | 0 <= i < |s| :: Value(s[i]).Some?
  }

  lemma {:induction false} DigitsAreDigits(b: seq<Byte>)
    ensures IsDigits(Digits(b))
    ensures |Digits(b)| == (4 * |b| + 2) / 3
  {
    if |b| >= 3 {
      DigitsAreDigits(b[3..]);
    }
  }

  lemma {:induction false} NoBreaks(s: string)
    requires forall i | 0 <= i < |s| :: s[i] != '\r' && s[i] != '\n'
    ensures WithoutBreaks(s) == s
  {
    if s != "" {
      NoBreaks(s[1..]);
    }
  }

  /** Cutting three bytes into four sextets loses nothing. */
  lemma SextetsKeepBytes(a: Byte, b: Byte, c: Byte)
    ensures FirstByte(a / 4, a % 4 * 16 + b / 16) == a
    ensures SecondByte(a % 4 * 16 + b / 16, b % 16 * 4 + c / 64) == b
    ensures ThirdByte(b % 16 * 4 + c / 64, c % 64) == c
  {
  }

  lemma GroupDecodes(x: Sextet, y: Sextet, z: Sextet, w: Sextet, rest: string)
    ensures DecodeGroups([Digit(x), Digit(y), '=', '=']) == Some([FirstByte(x, y)])
    ensures DecodeGroups([Digit(x), Digit(y), Digit(z), '=']) == Some([FirstByte(x, y), SecondByte(y, z)])
    ensures DecodeGroups(rest).Some? ==>
      DecodeGroups([Digit(x), Digit(y), Digit(z), Digit(w)] + rest)
      == Some([FirstByte(x, y), SecondByte(y, z), ThirdByte(z, w)] + DecodeGroups(rest).value)
  {
    DigitValue(x);
    DigitValue(y);
    DigitValue(z);
    DigitValue(w);
    hide Digit, Value, FirstByte, SecondByte, ThirdByte;
    var s := [Digit(x), Digit(y), Digit(z), Digit(w)] + rest;
    assert s[..4] == [Digit(x), Digit(y), Digit(z), Digit(w)] && s[4..] == rest;
    assert Value('=') == None by { ValueOfPad(); }
  }

  lemma ValueOfPad()
    ensures Value('=') == None
  {
  }

  lemma {:induction false} GroupsRoundTrip(b: seq<Byte>)
    ensures DecodeGroups(Digits(b) + Padding(|Digits(b)|)) == Some(b)
  {
    hide DecodeGroups, Digit, FirstByte, SecondByte, ThirdByte;
    if b == [] {
      DecodesEmpty();
      assert Digits(b) + Padding(|Digits(b)|) == "";
    } else if |b| == 1 {
      SextetsKeepBytes(b[0], 0, 0);
      GroupDecodes(b[0] / 4, b[0] % 4 * 16, 0, 0, "");
      assert Digits(b) + Padding(|Digits(b)|) == [Digit(b[0] / 4), Digit(b[0] % 4 * 16), '=', '='];
      assert b == [b[0]];
    } else if |b| == 2 {
      SextetsKeepBytes(b[0], b[1], 0);
      GroupDecodes(b[0] / 4, b[0] % 4 * 16 + b[1] / 16, b[1] % 16 * 4, 0, "");
      assert Digits(b) + Padding(|Digits(b)|)
          == [Digit(b[0] / 4), Digit(b[0] % 4 * 16 + b[1] / 16), Digit(b[1] % 16 * 4), '='];
      assert b == [b[0], b[1]];
    } else {
      SextetsKeepBytes(b[0], b[1], b[2]);
      GroupsRoundTrip(b[3..]);
      var rest := Digits(b[3..]) + Padding(|Digits(b[3..])|);
      GroupDecodes(b[0] / 4, b[0] % 4 * 16 + b[1] / 16, b[1] % 16 * 4 + b[2] / 64, b[2] % 64, rest);
      assert b == [b[0], b[1], b[2]] + b[3..];
      assert |Digits(b)| % 4 == |Digits(b[3..])| % 4;
      var group := [Digit(b[0] / 4), Digit(b[0] % 4 * 16 + b[1] / 16),
                    Digit(b[1] % 16 * 4 + b[2] / 64), Digit(b[2] % 64)];
      assert Digits(b) + Padding(|Digits(b)|) == group + rest;
    }
  }

  lemma DecodesEmpty()
    ensures DecodeGroups("") == Some([])
  {
  }

  lemma DecodesPadded(b: seq<Byte>)
    ensures DecodeString(Digits(b) + Padding(|Digits(b)|)) == Some(b)
  {
    DigitsAreDigits(b);
    NoBreaks(Digits(b) + Padding(|Digits(b)|));
    GroupsRoundTrip(b);
  }

  lemma {:induction false} StripPadding(s: string, pad: string)
    requires IsDigits(s) && forall i | 0 <= i < |pad| :: pad[i] == '='
    ensures ReplaceAll(s + pad, "=", "") == s
    decreases |s| + |pad|
  {
    if s != "" {
      assert (s + pad)[1..] == s[1..] + pad;
      assert Value(s[0]).Some?;
      StripPadding(s[1..], pad);
    } else if pad != "" {
      assert s + pad == pad;
      assert HasPrefix(pad, "=");
      StripPadding(s, pad[1..]);
      assert s + pad[1..] == pad[1..];
    }
  }

  /** The flat text is the normal one without its padding, which is all the '=' there is. */
  lemma FlatIsUnpadded(data: seq<Byte>)
    ensures Encode(Flat, data) == Some(Digits(data)) && IsDigits(Digits(data))
    ensures Encode(Normal, data) == Some(Digits(data) + Padding(|Digits(data)|))
  {
    DigitsAreDigits(data);
    StripPadding(Digits(data), Padding(|Digits(data)|));
  }

  /** Base64Flat loses nothing: its length is never 1 mod 4, it holds no '=', padding it again
      gives the normal text, and the decoder inverts both modes, for every byte string. */
  lemma RoundTrip(data: seq<Byte>)
    ensures var flat, normal := Encode(Flat, data).value, Encode(Normal, data).value;
      && |flat| % 4 != 1 && |normal| == (|data| + 2) / 3 * 4
      && '=' !in flat && flat + Padding(|flat|) == normal
      && DecodeString(flat + Padding(|flat|)) == Some(data)
      && DecodeString(normal + Padding(|normal|)) == Some(data)
  {
    FlatIsUnpadded(data);
    DigitsAreDigits(data);
    DecodesPadded(data);
    hide EncodeToString, DecodeString, Digits, IsDigits;
    Lengths(|data|);
    var flat, normal := Encode(Flat, data).value, Encode(Normal, data).value;
    assert normal + Padding(|normal|) == normal;
    if '=' in flat {
      NoPadInside(flat);
    }
  }

  lemma NoPadInside(s: string)
    requires IsDigits(s)
    ensures '=' !in s
  {
  }

  lemma Lengths(n: nat)
    ensures var digits := (4 * n + 2) / 3;
      digits % 4 != 1 && digits + |Padding(digits)| == (n + 2) / 3 * 4
  {
    Thirds(n / 3, n % 3);
  }

  lemma Thirds(q: nat, r: nat)
    requires r < 3
    ensures var n := 3 * q + r;
      && (4 * n + 2) / 3 == 4 * q + (4 * r + 2) / 3
      && (n + 2) / 3 == q + (r + 2) / 3
  {
  }

  /** Hence neither mode maps two payloads to one text. */
  lemma EncodeInjective(mode: Mode, a: seq<Byte>, b: seq<Byte>)
    requires !mode.Undefined? && Encode(mode, a) == Encode(mode, b)
    ensures a == b
  {
    RoundTrip(a);
    RoundTrip(b);
  }

  // ----- What the text denotes -----

  /** The alphabet of section 4 of RFC 4648. */
  const UPPER := "ABCDEFGHIJKLMNOPQRSTUVWXYZ"
  const LOWER := "abcdefghijklmnopqrstuvwxyz"
  const ALPHABET := UPPER + LOWER + "0123456789" + "+/"

  lemma AlphabetRuns(i: nat)
    ensures |ALPHABET| == 64
    ensures i < 26 ==> ALPHABET[i] == 'A' + i as char
    ensures 26 <= i < 52 ==> ALPHABET[i] == 'a' + (i - 26) as char
    ensures 52 <= i < 62 ==> ALPHABET[i] == '0' + (i - 52) as char
    ensures ALPHABET[62] == '+' && ALPHABET[63] == '/'
  {
  }

  /** Sextets are printed by the alphabet. */
  lemma DigitInAlphabet(x: Sextet)
    ensures |ALPHABET| == 64 && Digit(x) == ALPHABET[x]
  {
    AlphabetRuns(x);
  }

  /** And they are read by it. */
  lemma ValueInAlphabet(c: char)
    ensures match Value(c)
      case Some(x) => |ALPHABET| == 64 && ALPHABET[x] == c
      case None => c !in ALPHABET
  {
    AlphabetRuns(0);
    if Value(c).Some? {
      DigitInAlphabet(Value(c).value);
    } else {
      forall i | 0 <= i < |ALPHABET| ensures ALPHABET[i] != c {
        AlphabetRuns(i);
      }
    }
  }

  function Power(b: nat, n: nat): nat { if n == 0 then 1 else b * Power(b, n - 1) }

  /** The number with these digits. */
  function Number(base: int, ds: seq<int>): int {
    if ds == [] then 0 else base * Number(base, ds[..|ds| - 1]) + ds[|ds| - 1]
  }

  function Sextets(s: string): seq<int>
    requires IsDigits(s)
  {
    seq(|s|, i requires 0 <= i < |s| => Value(s[i]).value as int)
  }

  lemma {:induction false} NumberConcat(base: nat, a: seq<int>, b: seq<int>)
    ensures Number(base, a + b) == Number(base, a) * Power(base, |b|) + Number(base, b)
  {
    if b == [] {
      assert a + b == a;
    } else {
      var n := |b| - 1;
      assert (a + b)[..|a + b| - 1] == a + b[..n];
      NumberConcat(base, a, b[..n]);
      Distribute(base, Number(base, a), Power(base, n), Number(base, b[..n]));
    }
  }

  lemma Distribute(base: int, x: int, p: int, y: int)
    ensures base * (x * p + y) == x * (base * p) + base * y
  {
  }

  /** What the last, incomplete group is shifted by. */
  function Shift(n: nat): nat { if n % 3 == 0 then 1 else if n % 3 == 1 then 16 else 4 }

  /** Whole groups of three bytes, and what is over. */
  lemma {:induction false} GroupPowers(q: nat, r: nat)
    requires r < 3
    ensures Power(64, 4 * q + (if r == 0 then 0 else r + 1)) == Power(256, 3 * q + r) * Shift(r)
  {
    if q == 0 {
      SmallPowers();
      hide Power;
    } else {
      GroupPowers(q - 1, r);
      Fours(64, 4 * (q - 1) + (if r == 0 then 0 else r + 1));
      Threes(256, 3 * (q - 1) + r);
      hide Power, Shift;
      Scale(Power(256, 3 * (q - 1) + r), Shift(r));
    }
  }

  lemma Powers(n: nat)
    ensures Power(64, (4 * n + 2) / 3) == Power(256, n) * Shift(n)
  {
    Thirds(n / 3, n % 3);
    GroupPowers(n / 3, n % 3);
    hide Power;
  }

  lemma SmallPowers()
    ensures Power(64, 0) == 1 && Power(64, 2) == 4096 && Power(64, 3) == 262144
    ensures Power(256, 0) == 1 && Power(256, 1) == 256 && Power(256, 2) == 65536
  {
    assert Power(64, 1) == 64;
  }

  lemma Fours(b: nat, n: nat)
    ensures Power(b, n + 4) == b * (b * (b * (b * Power(b, n))))
  {
    Threes(b, n + 1);
    assert Power(b, n + 1) == b * Power(b, n);
  }

  lemma Threes(b: nat, n: nat)
    ensures Power(b, n + 3) == b * (b * (b * Power(b, n)))
  {
    assert Power(b, n + 1) == b * Power(b, n);
    assert Power(b, n + 2) == b * Power(b, n + 1);
    assert Power(b, n + 3) == b * Power(b, n + 2);
  }

  lemma Scale(p: nat, s: nat)
    ensures 64 * (64 * (64 * (64 * (p * s)))) == 256 * (256 * (256 * p)) * s
  {
  }

  lemma NumberOfFew(base: int, x: int, y: int, z: int, w: int)
    ensures Number(base, [x]) == x
    ensures Number(base, [x, y]) == base * x + y
    ensures Number(base, [x, y, z]) == base * (base * x + y) + z
    ensures Number(base, [x, y, z, w]) == base * (base * (base * x + y) + z) + w
  {
    assert [x][..0] == [] && [x, y][..1] == [x] && [x, y, z][..2] == [x, y] && [x, y, z, w][..3] == [x, y, z];
  }

  lemma SextetsOf(x: Sextet, y: Sextet, z: Sextet, w: Sextet)
    ensures IsDigits([Digit(x), Digit(y)]) && Sextets([Digit(x), Digit(y)]) == [x, y]
    ensures IsDigits([Digit(x), Digit(y), Digit(z)]) && Sextets([Digit(x), Digit(y), Digit(z)]) == [x, y, z]
    ensures IsDigits([Digit(x), Digit(y), Digit(z), Digit(w)])
    ensures Sextets([Digit(x), Digit(y), Digit(z), Digit(w)]) == [x, y, z, w]
  {
    DigitValue(x);
    DigitValue(y);
    DigitValue(z);
    DigitValue(w);
    hide Digit, Value;
  }

  lemma GroupDenotes(b: seq<Byte>)
    requires |b| >= 3
    ensures |Digits(b)| >= 4 && IsDigits(Digits(b)[..4])
    ensures Number(64, Sextets(Digits(b)[..4])) == Number(256, b[..3])
  {
    var x, y, z, w := b[0] / 4, b[0] % 4 * 16 + b[1] / 16, b[1] % 16 * 4 + b[2] / 64, b[2] % 64;
    var group := [Digit(x), Digit(y), Digit(z), Digit(w)];
    assert Digits(b)[..4] == group;
    assert b[..3] == [b[0], b[1], b[2]];
    GroupSum(b[0], b[1], b[2]);
    hide *;
    SextetsOf(x, y, z, w);
    NumberOfFew(64, x, y, z, w);
    NumberOfFew(256, b[0], b[1], b[2], 0);
  }

  lemma GroupSum(a: Byte, b: Byte, c: Byte)
    ensures 64 * (64 * (64 * (a / 4) + (a % 4 * 16 + b / 16)) + (b % 16 * 4 + c / 64)) + c % 64
         == 256 * (256 * a + b) + c
  {
  }

  lemma NumberOfNone()
    ensures Digits([]) == "" && Sextets("") == [] && Number(64, []) == 0 && Number(256, []) == 0
  {
  }

  lemma OneDenotes(b: Byte)
    ensures IsDigits(Digits([b])) && Number(64, Sextets(Digits([b]))) == Number(256, [b]) * 16
  {
    assert Digits([b]) == [Digit(b / 4), Digit(b % 4 * 16)];
    hide *;
    SextetsOf(b / 4, b % 4 * 16, 0, 0);
    NumberOfFew(64, b / 4, b % 4 * 16, 0, 0);
    NumberOfFew(256, b, 0, 0, 0);
  }

  lemma TwoDenotes(b: Byte, c: Byte)
    ensures IsDigits(Digits([b, c])) && Number(64, Sextets(Digits([b, c]))) == Number(256, [b, c]) * 4
  {
    var x, y, z := b / 4, b % 4 * 16 + c / 16, c % 16 * 4;
    assert Digits([b, c]) == [Digit(x), Digit(y), Digit(z)];
    hide *;
    SextetsOf(x, y, z, 0);
    NumberOfFew(64, x, y, z, 0);
    NumberOfFew(256, b, c, 0, 0);
  }

  /** The text is the payload as a number: its bytes are digits to the base 256, its characters to the base 64,
      the most significant first. */
  lemma {:induction false} DigitsDenote(b: seq<Byte>)
    ensures IsDigits(Digits(b)) && Number(64, Sextets(Digits(b))) == Number(256, b) * Shift(|b|)
  {
    hide *;
    DigitsAreDigits(b);
    Shifts();
    if b == [] {
      NumberOfNone();
    } else if |b| == 1 {
      OneDenotes(b[0]);
      assert b == [b[0]];
    } else if |b| == 2 {
      TwoDenotes(b[0], b[1]);
      assert b == [b[0], b[1]];
    } else {
      DigitsDenote(b[3..]);
      DigitsAreDigits(b[3..]);
      FirstGroup(b);
      var group := Digits(b)[..4];
      assert b == b[..3] + b[3..];
      NumberConcat(64, Sextets(group), Sextets(Digits(b[3..])));
      NumberConcat(256, b[..3], b[3..]);
      GroupDenotes(b);
      Powers(|b| - 3);
      SameShift(|b| - 3);
      Combine(Number(256, b[..3]), Power(256, |b| - 3), Shift(|b| - 3), Number(256, b[3..]));
    }
  }

  lemma Shifts()
    ensures Shift(0) == 1 && Shift(1) == 16 && Shift(2) == 4
  {
  }

  lemma FirstGroup(b: seq<Byte>)
    requires |b| >= 3
    ensures |Digits(b)| >= 4 && IsDigits(Digits(b)) && IsDigits(Digits(b)[..4]) && IsDigits(Digits(b[3..]))
    ensures Sextets(Digits(b)) == Sextets(Digits(b)[..4]) + Sextets(Digits(b[3..]))
    ensures |Sextets(Digits(b[3..]))| == |Digits(b[3..])|
  {
    DigitsAreDigits(b);
    DigitsAreDigits(b[3..]);
    assert Digits(b) == Digits(b)[..4] + Digits(b[3..]);
    hide Digits, Value;
  }

  lemma SameShift(n: nat)
    ensures Shift(n + 3) == Shift(n)
  {
  }

  lemma Combine(x: int, p: int, s: int, y: int)
    ensures x * (p * s) + y * s == (x * p + y) * s
  {
  }

  // ----- What the decoder accepts -----

  /** `n` digits and their padding. */
  ghost predicate PaddedAt(s: string, n: nat) {
    n <= |s| && n % 4 != 1 && IsDigits(s[..n]) && s[n..] == Padding(n)
  }

  /** A text without line breaks decodes exactly when it is digits, not one more than a multiple of four, with
      the padding of that many. */
  lemma {:induction false} DecodesIff(s: string)
    ensures DecodeGroups(s).Some? <==> exists n: nat :: PaddedAt(s, n)
  {
    if s == "" {
      assert PaddedAt(s, 0);
    } else if |s| < 4 {
      forall n: nat ensures !PaddedAt(s, n) {
        assert n <= |s| ==> |s[n..]| == |s| - n;
      }
    } else {
      GroupAccepted(s);
      if AllDigits(s) {
        DecodesIff(s[4..]);
        forall n: nat ensures PaddedAt(s, n) <==> n >= 4 && PaddedAt(s[4..], n - 4) {
          LaterPadding(s, n);
        }
        if DecodeGroups(s[4..]).Some? {
          var n: nat :| PaddedAt(s[4..], n);
          assert PaddedAt(s, n + 4);
        }
      } else {
        LastPadding(s);
      }
    }
  }

  /** The first group holds no padding. */
  predicate AllDigits(s: string)
    requires |s| >= 4
  {
    Value(s[0]).Some? && Value(s[1]).Some? && Value(s[2]).Some? && Value(s[3]).Some?
  }

  lemma GroupAccepted(s: string)
    requires |s| >= 4
    ensures AllDigits(s) ==> (DecodeGroups(s).Some? <==> DecodeGroups(s[4..]).Some?)
    ensures !AllDigits(s) ==>
      (DecodeGroups(s).Some? <==>
       Value(s[0]).Some? && Value(s[1]).Some? &&
       (s == [s[0], s[1], '=', '='] || (Value(s[2]).Some? && s == [s[0], s[1], s[2], '='])))
  {
    ValueOfPad();
    hide Value, FirstByte, SecondByte, ThirdByte;
  }

  lemma LaterPadding(s: string, n: nat)
    requires |s| >= 4 && AllDigits(s)
    ensures PaddedAt(s, n) <==> n >= 4 && PaddedAt(s[4..], n - 4)
  {
    ValueOfPad();
    hide Value;
    if n >= 4 && n <= |s| {
      assert s[4..][n - 4..] == s[n..] && Padding(n) == Padding(n - 4);
      var inner := s[4..][..n - 4];
      assert forall i | 0 <= i < n :: s[..n][i] == if i < 4 then s[i] else inner[i - 4];
      assert forall i | 0 <= i < n - 4 :: inner[i] == s[..n][i + 4];
    } else if n <= |s| {
      PadBehind(s, n);
    }
  }

  lemma PadBehind(s: string, n: nat)
    requires n < 4 <= |s|
    ensures s[n..] == Padding(n) ==> s[3] == '='
  {
    var behind := s[n..];
    assert behind[3 - n] == s[3];
  }

  lemma LastPadding(s: string)
    requires |s| >= 4 && !AllDigits(s)
    ensures (exists n: nat :: PaddedAt(s, n)) <==>
      Value(s[0]).Some? && Value(s[1]).Some? &&
      (s == [s[0], s[1], '=', '='] || (Value(s[2]).Some? && s == [s[0], s[1], s[2], '=']))
  {
    ValueOfPad();
    hide Value;
    if Value(s[0]).Some? && Value(s[1]).Some? && s == [s[0], s[1], '=', '='] {
      assert s[2..] == "==";
      assert PaddedAt(s, 2);
    }
    if Value(s[0]).Some? && Value(s[1]).Some? && Value(s[2]).Some? && s == [s[0], s[1], s[2], '='] {
      assert s[3..] == "=";
      assert PaddedAt(s, 3);
    }
    forall n: nat | PaddedAt(s, n)
      ensures Value(s[0]).Some? && Value(s[1]).Some?
      ensures s == [s[0], s[1], '=', '='] || (Value(s[2]).Some? && s == [s[0], s[1], s[2], '='])
    {
      assert forall i | 0 <= i < n :: Value(s[..n][i]).Some? && s[..n][i] == s[i];
      assert n < 4;
      assert s == s[..n] + Padding(n);
    }
  }

  /** Line breaks are skipped wherever they stand. */
  lemma {:induction false} BreaksSkipped(a: string, b: string)
    ensures WithoutBreaks(a + "\n" + b) == WithoutBreaks(a + "\r" + b) == WithoutBreaks(a + b)
  {
    if a == "" {
      assert ("" + "\n" + b)[1..] == b == "" + b && ("" + "\r" + b)[1..] == b;
    } else {
      assert (a + "\n" + b)[1..] == a[1..] + "\n" + b && (a + "\r" + b)[1..] == a[1..] + "\r" + b;
      assert (a + b)[1..] == a[1..] + b;
      BreaksSkipped(a[1..], b);
    }
  }
}
