/** When all orders of filling the placeholders of a body agree with each other (`CreateRequest` in
    `internal/openapi/template.go`).

    A payload with two placeholders `k1` and `k2` that both have holes could still give the same text
    in every order, by chance.  It does not: aligning the text in which `k1` is filled first with the
    one in which `k2` is filled first forces the payload to repeat the text from its first hole on,
    up to a hole where the two texts differ. */
module OrderAgreement {
  import opened Text
  import opened Substitution

  // ----- The first occurrence -----

  lemma ReplaceStep(s: string, k: string, v: string)
    requires k != ""
    ensures s != "" && !HasPrefix(s, k) ==>
      ReplaceAll(s, k, v) == [s[0]] + ReplaceAll(s[1..], k, v) && (Contains(s, k) <==> Contains(s[1..], k))
    ensures s != "" && HasPrefix(s, k) ==> ReplaceAll(s, k, v) == v + ReplaceAll(s[|k|..], k, v)
    ensures s == "" ==> !Contains(s, k)
  {
  }

  /** The first occurrence of a key, which is the first that `ReplaceAll` replaces. */
  ghost predicate FirstAt(s: string, k: string, before: string, after: string) {
    s == before + k + after && forall i: nat | i < |before| :: !OccursAt(s, k, i)
  }

  lemma {:induction false} FirstOccurrence(s: string, k: string, v: string) returns (before: string, after: string)
    requires k != "" && Contains(s, k)
    ensures FirstAt(s, k, before, after)
    ensures ReplaceAll(s, k, v) == before + v + ReplaceAll(after, k, v)
  {
    ReplaceStep(s, k, v);
    hide ReplaceAll, Contains;
    if HasPrefix(s, k) {
      before, after := "", s[|k|..];
      assert "" + v == v;
    } else {
      before, after := FirstOccurrence(s[1..], k, v);
      FirstShift(s, k, before, after);
      before := [s[0]] + before;
      assert s == before + k + after;
    }
  }

  lemma FirstShift(s: string, k: string, before: string, after: string)
    requires s != "" && !HasPrefix(s, k) && FirstAt(s[1..], k, before, after)
    ensures FirstAt(s, k, [s[0]] + before, after)
  {
    forall i: nat | i < |[s[0]] + before| ensures !OccursAt(s, k, i) {
      if i > 0 {
        OccursShift(s, k, 1, i - 1);
      }
    }
    assert s == [s[0]] + s[1..];
  }

  /** Where a text that has grown still begins with the payload, the payload begins with the key. */
  lemma PrefixReplaced(payload: string, k: string, rest: string)
    requires k != "" && Contains(payload, k) && HasPrefix(ReplaceAll(payload, k, payload) + rest, payload)
    ensures HasPrefix(payload, k)
  {
    var before, after := FirstOccurrence(payload, k, payload);
    var text := ReplaceAll(payload, k, payload) + rest;
    assert payload == before + k + after;
    hide ReplaceAll, Contains, FirstAt;
    assert text == before + (payload + (ReplaceAll(after, k, payload) + rest));
    forall j: nat | j < |k| ensures payload[j] == k[j] {
      assert text[|before| + j] == text[..|payload|][|before| + j] == payload[|before| + j];
      assert text[|before| + j] == payload[j];
    }
    assert payload[..|k|] == k;
  }

  /** With a value that begins with the key, replacing leaves a beginning of that size alone. */
  lemma BeginningStays(s: string, k: string, v: string)
    requires 0 < |k| <= |s| && HasPrefix(v, k)
    ensures HasPrefix(ReplaceAll(s, k, v), s[..|k|])
  {
    if Contains(s, k) {
      var before, after := FirstOccurrence(s, k, v);
      assert s == before + k + after;
      hide ReplaceAll, Contains, FirstAt;
      assert v == k + v[|k|..];
      assert ReplaceAll(s, k, v) == before + k + (v[|k|..] + ReplaceAll(after, k, v));
      assert (before + k)[..|k|] == s[..|k|];
    } else {
      ReplaceNothing(s, k, v);
    }
  }

  // ----- Cutting texts -----

  predicate StartsCut(s: string) { s != "" && !IsLetter(s[0]) }

  /** What follows a word that is not `k1` holds `k1` itself, if it begins with no letter. */
  lemma FollowsWord(w: string, q: string, k1: string, n: nat)
    requires 0 < n == |w| && IsWord(k1, n) && w != k1 && Contains(w + q, k1) && (q != "" ==> StartsCut(q))
    ensures StartsCut(q) && Contains(q, k1)
  {
    ContainsSameLength(w, k1);
    CutByNonLetter(w, q, k1, n);
    ContainsConcat(w, q, k1);
    hide IsWord, Contains;
    assert w + "" == w;
  }

  lemma BeginsWithLetter(q: string, k: string, v: string, n: nat, rest: string)
    requires 0 < n && IsWord(k, n) && HasPrefix(v, k) && HasPrefix(q, k)
    ensures !StartsCut(ReplaceAll(q, k, v) + rest)
  {
    ReplaceStep(q, k, v);
    hide ReplaceAll;
    assert (ReplaceAll(q, k, v) + rest)[0] == v[0] == v[..|k|][0];
  }

  /** A text that begins with no letter after a replacement did so before. */
  lemma StartsCutBefore(q: string, k: string, v: string, n: nat, rest: string)
    requires 0 < n && IsWord(k, n) && HasPrefix(v, k) && StartsCut(ReplaceAll(q, k, v) + rest)
    ensures q != "" ==> StartsCut(q)
  {
    ReplaceStep(q, k, v);
    hide ReplaceAll, HasPrefix;
    if HasPrefix(q, k) {
      BeginsWithLetter(q, k, v, n, rest);
    }
  }

  lemma AfterPrefix(s: string, p: string) returns (rest: string)
    requires HasPrefix(s, p)
    ensures |p| <= |s| && rest == s[|p|..] && s == p + rest
  {
    rest := s[|p|..];
  }

  lemma GroupTail(a: string, b: string, c: string)
    ensures (a + b) + c == a + (b + c)
  {
  }

  lemma SameTail(a: string, b: string, c: string)
    requires a + b == a + c
    ensures b == c
  {
    assert b == (a + b)[|a|..] && c == (a + c)[|a|..];
  }

  /** The shorter of two beginnings of a text is a beginning of the longer. */
  lemma ShorterBeginning(a: string, b: string, x: string, y: string)
    requires a + x == b + y && |a| <= |b|
    ensures b == a + b[|a|..]
  {
    assert a == (a + x)[..|a|] && b[..|a|] == (b + y)[..|a|];
  }

  lemma LiteralAlone(q: string, lit: string, k: string, y: string, x: string)
    requires q + y == lit + x && Contains(q, k) && !Contains(lit, k)
    ensures HasPrefix(q, lit)
  {
    hide Contains;
    if |q| <= |lit| {
      ShorterBeginning(q, lit, y, x);
      ContainsConcat(q, lit[|q|..], k);
    } else {
      ShorterBeginning(lit, q, x, y);
    }
  }

  lemma LiteralBeforeKey(q: string, lit: string, k: string, v: string, n: nat, before: string, after: string,
                         rest: string, x: string)
    requires IsWord(k, n) && HasPrefix(v, k) && EndsCut(lit) && !Contains(lit, k) && q == before + k + after
    requires before + (v + rest) == lit + x
    ensures HasPrefix(q, lit)
  {
    hide Contains, IsWord, EndsCut;
    var tail := AfterPrefix(v, k);
    GroupTail(k, tail, rest);
    if |before| < |lit| {
      ReachesIn(lit, before, k, n, tail + rest, x);
    } else {
      ShorterBeginning(lit, before, x, v + rest);
      assert q[..|lit|] == lit;
    }
  }

  /** A literal that a replaced text begins with was there before: it cannot reach into a replaced
      placeholder, which it would contain. */
  lemma LiteralIsPrefix(q: string, lit: string, k1: string, k2: string, v: string, n: nat, y: string, x: string)
    requires 0 < n && IsWord(k2, n) && HasPrefix(v, k2)
    requires EndsCut(lit) && !Contains(lit, k1) && !Contains(lit, k2) && Contains(q, k1)
    requires ReplaceAll(q, k2, v) + y == lit + x
    ensures HasPrefix(q, lit)
  {
    if Contains(q, k2) {
      var before, after := FirstOccurrence(q, k2, v);
      assert q == before + k2 + after;
      hide *;
      var r := ReplaceAll(after, k2, v);
      GroupTail(before + v, r, y);
      GroupTail(before, v, r + y);
      LiteralBeforeKey(q, lit, k2, v, n, before, after, r + y, x);
    } else {
      ReplaceNothing(q, k2, v);
      hide *;
      LiteralAlone(q, lit, k1, y, x);
    }
  }

  lemma WordBeginning(s: string, k: string, n: nat, x: string, y: string)
    requires IsWord(k, n) && 0 < |s| <= n && s + x == k + y
    ensures IsLetter(s[|s| - 1])
  {
    ShorterBeginning(s, k, x, y);
    assert s[|s| - 1] == k[|s| - 1];
  }

  predicate EndsCut(s: string) { s != "" && !IsLetter(s[|s| - 1]) }

  lemma ReachesIn(lit: string, before: string, k: string, n: nat, tail: string, x: string)
    requires IsWord(k, n) && EndsCut(lit) && |before| < |lit| && lit + x == before + (k + tail)
    ensures Contains(lit, k)
  {
    ShorterBeginning(before, lit, k + tail, x);
    var late := lit[|before|..];
    assert before + (late + x) == lit + x;
    SameTail(before, late + x, k + tail);
    if |late| <= n {
      WordBeginning(late, k, n, x, tail);
    } else {
      ShorterBeginning(k, late, tail, x);
      ContainsIffOccurs(lit, k);
      assert OccursAt(lit, k, |before|);
    }
  }

  lemma CutOff(lit: string, rest: string, k: string, v: string, n: nat)
    requires 0 < n && IsWord(k, n) && EndsCut(lit) && !Contains(lit, k)
    ensures Contains(lit + rest, k) <==> Contains(rest, k)
    ensures ReplaceAll(lit + rest, k, v) == lit + ReplaceAll(rest, k, v)
  {
    CutByNonLetter(lit, rest, k, n);
    hide ReplaceAll, Contains, NoStraddle;
    ContainsConcat(lit, rest, k);
    ReplaceConcat(lit, rest, k, v);
    ReplaceNothing(lit, k, v);
  }

  /** Both texts go on behind the literal. */
  lemma LiteralBefore(q: string, lit: string, k1: string, k2: string, v: string, n: nat, y: string, x: string)
    requires 0 < n && IsWord(k1, n) && IsWord(k2, n) && HasPrefix(v, k2)
    requires EndsCut(lit) && !Contains(lit, k1) && !Contains(lit, k2) && Contains(q, k1)
    requires ReplaceAll(q, k2, v) + y == lit + x
    ensures HasPrefix(q, lit) && Contains(q[|lit|..], k1) && ReplaceAll(q[|lit|..], k2, v) + y == x
  {
    hide *;
    LiteralIsPrefix(q, lit, k1, k2, v, n, y, x);
    var rest := AfterPrefix(q, lit);
    CutOff(lit, rest, k1, v, n);
    CutOff(lit, rest, k2, v, n);
    GroupTail(lit, ReplaceAll(rest, k2, v), y);
    SameTail(lit, ReplaceAll(rest, k2, v) + y, x);
  }

  lemma WordAtBeginning(q: string, z: string, k1: string, k2: string, v: string, y: string, x: string)
    requires 0 < |z| == |k1| == |k2| && HasPrefix(v, k2) && Contains(q, k1) && ReplaceAll(q, k2, v) + y == z + x
    ensures |z| <= |q| && q == z + q[|z|..]
  {
    LongEnough(q, k1);
    BeginningStays(q, k2, v);
    hide ReplaceAll, Contains;
    assert (z + x)[..|z|] == z;
    assert q[..|z|] == z;
  }

  /** A word that a replaced text begins with, and that is followed by no letter, was there before. */
  lemma WordBefore(q: string, z: string, k1: string, k2: string, v: string, n: nat, y: string, x: string)
    requires 0 < n == |z| && IsWord(k1, n) && IsWord(k2, n) && HasPrefix(v, k2) && z != k2
    requires Contains(q, k1) && StartsCut(x) && ReplaceAll(q, k2, v) + y == z + x
    ensures n <= |q| && q == z + q[n..] && ReplaceAll(q[n..], k2, v) + y == x
  {
    assert |k1| == |k2| == n;
    hide *;
    WordAtBeginning(q, z, k1, k2, v, y, x);
    var rest := q[n..];
    if Contains(q, k2) {
      NoneAcross(q, z, rest, k2, v, n, y, x);
    } else {
      NoneInAll(q, z, rest, k2);
    }
    ReplaceConcat(z, rest, k2, v);
    ContainsSameLength(z, k2);
    ReplaceNothing(z, k2, v);
    GroupTail(z, ReplaceAll(rest, k2, v), y);
    SameTail(z, ReplaceAll(rest, k2, v) + y, x);
  }

  lemma LongEnough(q: string, k: string)
    requires Contains(q, k)
    ensures |k| <= |q|
  {
    if q != k {
      ContainedShorter(q, k);
    }
  }

  lemma NoneInAll(q: string, z: string, rest: string, k: string)
    requires q == z + rest && !Contains(q, k)
    ensures NoStraddle(z, rest, k)
  {
    ContainsIffOccurs(q, k);
  }

  lemma NoneAcross(q: string, z: string, rest: string, k: string, v: string, n: nat, y: string, x: string)
    requires 0 < n == |z| && IsWord(k, n) && HasPrefix(v, k) && z != k && Contains(q, k) && q == z + rest
    requires StartsCut(x) && ReplaceAll(q, k, v) + y == z + x
    ensures NoStraddle(z, rest, k)
  {
    var before, after := FirstOccurrence(q, k, v);
    if |before| < n {
      hide ReplaceAll, Contains, FirstAt;
      assert v == k + v[n..];
      var tail := v[n..] + ReplaceAll(after, k, v) + y;
      assert z + x == before + (k + tail);
      assert "" + (k + tail) == k + tail;
      if before == "" {
        ShorterBeginning(k, z, tail, x);
      } else {
        LetterInside(before, k, tail, n);
        CutAfter(z, x);
      }
    }
  }

  lemma LetterInside(before: string, k: string, tail: string, n: nat)
    requires IsWord(k, n) && 0 < |before| < n
    ensures IsLetter((before + (k + tail))[n])
  {
    assert (before + (k + tail))[n] == k[n - |before|];
  }

  lemma CutAfter(z: string, x: string)
    requires StartsCut(x)
    ensures !IsLetter((z + x)[|z|])
  {
    assert (z + x)[|z|] == x[0];
  }

  // ----- Aligning two orders -----

  /** Two placeholders in a payload that begins with the second, cut off from what follows. */
  ghost predicate TwoKeys(payload: string, k1: string, k2: string, n: nat) {
    && 0 < n && IsWord(k1, n) && IsWord(k2, n) && k1 != k2
    && HasPrefix(payload, k2) && StartsCut(payload[n..]) && Contains(payload, k1)
  }

  /** The hole shows the payload with `k1` filled in it. */
  predicate Grown(x: string, shows: Values, k1: string, payload: string) {
    x != k1 && shows(x) == ReplaceAll(payload, k1, payload)
  }

  /** A text from a literal on, when `k1` is filled last: its holes show the payload, all others are
      grown, unless they are not filled; at least one is grown. */
  ghost predicate LastFilled(ps: seq<Piece>, shows: Values, payload: string, k1: string, k2: string, n: nat) {
    && Delimited(ps) && LiteralsFree(ps, {k1, k2}) && ps != [] && ps[0].Lit? && StartsCut(ps[0].text)
    && (forall x | HasHole(ps, x) ::
          |x| == n && if x == k1 then shows(x) == payload else
            Grown(x, shows, k1, payload) || (shows(x) == x && x != k2))
    && exists x :: HasHole(ps, x) && Grown(x, shows, k1, payload)
  }

  lemma LiteralAndHole(ps: seq<Piece>, shows: Values) returns (x: string)
    requires Delimited(ps) && |ps| > 1 && ps[0].Lit?
    ensures ps[1] == Hole(x) && (ps[0].text == "" || EndsCut(ps[0].text)) && Delimited(ps[2..])
    ensures |ps| > 2 ==> ps[2].Lit? && StartsCut(ps[2].text) && StartsCut(Shown(ps[2..], shows))
    ensures forall k :: HasHole(ps, k) <==> k == x || HasHole(ps[2..], k)
    ensures Shown(ps, shows) == ps[0].text + (shows(x) + Shown(ps[2..], shows))
  {
    x := ps[1].key;
    HolesOfRest(ps);
    HolesOfRest(ps[1..]);
    assert ps[1..][0] == ps[1] && ps[1..][1..] == ps[2..];
    hide HasHole;
    if |ps| > 2 {
      assert Delimited(ps[1..]) && ps[1..][1] == ps[2];
      assert ps[2..][0] == ps[2];
    }
  }

  lemma NextHole(ps: seq<Piece>, shows: Values, payload: string, k1: string, k2: string, n: nat) returns (x: string)
    requires LastFilled(ps, shows, payload, k1, k2, n)
    ensures |ps| > 1 && ps[1] == Hole(x) && HasHole(ps, x)
    ensures EndsCut(ps[0].text) && !Contains(ps[0].text, k1) && !Contains(ps[0].text, k2)
    ensures Shown(ps, shows) == ps[0].text + (shows(x) + Shown(ps[2..], shows)) && StartsCut(Shown(ps, shows))
    ensures !Grown(x, shows, k1, payload) ==>
      LastFilled(ps[2..], shows, payload, k1, k2, n) && StartsCut(Shown(ps[2..], shows))
  {
    hide Contains, ReplaceAll, Grown;
    var g :| HasHole(ps, g) && Grown(g, shows, k1, payload);
    HolesOfRest(ps);
    assert |ps| > 1;
    x := LiteralAndHole(ps, shows);
    FreeFrom(ps, {k1, k2}, 2);
    hide Delimited, Shown, HasHole, LiteralsFree;
    if !Grown(x, shows, k1, payload) {
      assert HasHole(ps[2..], g);
      NoHoles(ps[2..], g);
      assert ps[2..][0] == ps[2];
    }
  }

  lemma FreeFrom(ps: seq<Piece>, keys: set<string>, n: nat)
    requires n <= |ps| && LiteralsFree(ps, keys)
    ensures LiteralsFree(ps[n..], keys)
    ensures ps != [] && ps[0].Lit? ==> forall k | k in keys :: !Contains(ps[0].text, k)
  {
    hide Contains;
    assert forall i | 0 <= i < |ps[n..]| :: ps[n..][i] == ps[i + n];
  }

  lemma NoHoles(ps: seq<Piece>, k: string)
    requires HasHole(ps, k)
    ensures ps != []
  {
  }

  /** Where the other text goes on with the second placeholder, that was there before as well. */
  lemma PayloadBefore(q: string, payload: string, k1: string, k2: string, n: nat, y: string, x: string)
    requires TwoKeys(payload, k1, k2, n) && Contains(q, k1) && HasPrefix(x, k2)
    requires ReplaceAll(q, k2, payload) + y == x
    ensures n <= |q| && q == k2 + q[n..] && payload + (ReplaceAll(q[n..], k2, payload) + y) == x
  {
    LongEnough(q, k1);
    BeginningStays(q, k2, payload);
    ReplaceStep(q, k2, payload);
    hide ReplaceAll, Contains;
    assert x[..n] == ReplaceAll(q, k2, payload)[..n];
    assert q[..n] == k2;
    GroupTail(payload, ReplaceAll(q[n..], k2, payload), y);
  }

  /** A grown hole begins with the second placeholder, and never with the payload. */
  lemma GrownBegins(payload: string, k1: string, k2: string, n: nat, z: string)
    requires TwoKeys(payload, k1, k2, n)
    ensures HasPrefix(ReplaceAll(payload, k1, payload) + z, k2)
    ensures !HasPrefix(ReplaceAll(payload, k1, payload) + z, payload)
  {
    var rest := AfterPrefix(payload, k2);
    CutByNonLetter(k2, rest, k1, n);
    hide ReplaceAll, Contains, NoStraddle;
    ReplaceConcat(k2, rest, k1, payload);
    ContainsSameLength(k2, k1);
    ReplaceNothing(k2, k1, payload);
    var text := ReplaceAll(payload, k1, payload) + z;
    assert text[..n] == k2;
    if HasPrefix(text, payload) {
      PrefixReplaced(payload, k1, z);
    }
  }

  lemma NeverGrown(q: string, payload: string, k1: string, k2: string, n: nat, y: string, z: string)
    requires TwoKeys(payload, k1, k2, n) && Contains(q, k1)
    ensures ReplaceAll(q, k2, payload) + y != ReplaceAll(payload, k1, payload) + z
  {
    GrownBegins(payload, k1, k2, n, z);
    var text := ReplaceAll(payload, k1, payload) + z;
    if ReplaceAll(q, k2, payload) + y == text {
      PayloadBefore(q, payload, k1, k2, n, y, text);
      hide *;
      BeginsWith(payload, ReplaceAll(q[n..], k2, payload) + y);
    }
  }

  lemma BeginsWith(a: string, b: string)
    ensures HasPrefix(a + b, a)
  {
  }

  /** The payload's rest `q`, with `k2` filled in it, is not what follows when `k1` is filled last:
      literal by literal and hole by hole it would have to repeat that text, up to a hole that has
      grown. */
  lemma {:induction false} Misaligned(ps: seq<Piece>, shows: Values, payload: string, k1: string, k2: string, n: nat,
                                      w: string, q: string, y: string)
    requires TwoKeys(payload, k1, k2, n) && LastFilled(ps, shows, payload, k1, k2, n)
    requires |w| == n && w != k1 && Contains(w + q, k1)
    ensures ReplaceAll(q, k2, payload) + y != Shown(ps, shows)
    decreases |ps|
  {
    var x := NextHole(ps, shows, payload, k1, k2, n);
    if ReplaceAll(q, k2, payload) + y == Shown(ps, shows) {
      var lit, rest := ps[0].text, Shown(ps[2..], shows);
      StartsCutBefore(q, k2, payload, n, y);
      FollowsWord(w, q, k1, n);
      LiteralBefore(q, lit, k1, k2, payload, n, y, shows(x) + rest);
      HoleMisaligned(ps, shows, payload, k1, k2, n, x, q[|lit|..], y);
    }
  }

  lemma {:induction false} HoleMisaligned(ps: seq<Piece>, shows: Values, payload: string, k1: string, k2: string,
                                          n: nat, x: string, q: string, y: string)
    requires TwoKeys(payload, k1, k2, n) && LastFilled(ps, shows, payload, k1, k2, n) && Contains(q, k1)
    requires |ps| > 1 && HasHole(ps, x)
    requires !Grown(x, shows, k1, payload) ==>
      LastFilled(ps[2..], shows, payload, k1, k2, n) && StartsCut(Shown(ps[2..], shows))
    ensures ReplaceAll(q, k2, payload) + y != shows(x) + Shown(ps[2..], shows)
    decreases |ps|, 0
  {
    hide *;
    var rest := Shown(ps[2..], shows);
    HoleKinds(ps, shows, payload, k1, k2, n, x);
    if Grown(x, shows, k1, payload) {
      NeverGrown(q, payload, k1, k2, n, y, rest);
    } else if ReplaceAll(q, k2, payload) + y == shows(x) + rest {
      if x == k1 {
        PrefixExtends(payload, k2, rest);
        PayloadBefore(q, payload, k1, k2, n, y, payload + rest);
        SameTail(payload, ReplaceAll(q[n..], k2, payload) + y, rest);
        Misaligned(ps[2..], shows, payload, k1, k2, n, k2, q[n..], y);
      } else {
        WordBefore(q, x, k1, k2, payload, n, y, rest);
        Misaligned(ps[2..], shows, payload, k1, k2, n, x, q[n..], y);
      }
    }
  }

  lemma HoleKinds(ps: seq<Piece>, shows: Values, payload: string, k1: string, k2: string, n: nat, x: string)
    requires TwoKeys(payload, k1, k2, n) && LastFilled(ps, shows, payload, k1, k2, n) && HasHole(ps, x)
    ensures 0 < n && IsWord(k1, n) && IsWord(k2, n) && |k2| == n && k1 != k2 && HasPrefix(payload, k2) && |x| == n
    ensures x == k1 ==> shows(x) == payload
    ensures Grown(x, shows, k1, payload) ==> shows(x) == ReplaceAll(payload, k1, payload)
    ensures x != k1 && !Grown(x, shows, k1, payload) ==> shows(x) == x && x != k2
  {
    hide ReplaceAll, Contains, HasHole, Delimited, LiteralsFree;
  }

  lemma PrefixExtends(a: string, p: string, b: string)
    requires HasPrefix(a, p)
    ensures HasPrefix(a + b, p)
  {
    assert (a + b)[..|p|] == a[..|p|];
  }

  // ----- Two orders and the first hole -----

  ghost predicate OrdersAgree(ps: seq<Piece>, keys: set<string>, payload: string) {
    forall o, o' | IsOrder(o, keys) && IsOrder(o', keys) ::
      Chain(Plain(ps), o, Always(payload)) == Chain(Plain(ps), o', Always(payload))
  }

  ghost predicate FirstFilled(ps: seq<Piece>, keys: set<string>, i: nat) {
    i < |ps| && ps[i].Hole? && ps[i].key in keys && forall j | 0 <= j < i && ps[j].Hole? :: ps[j].key !in keys
  }

  lemma {:induction false} SomeFirst(ps: seq<Piece>, keys: set<string>, n: nat) returns (i: nat)
    requires n < |ps| && ps[n].Hole? && ps[n].key in keys
    ensures FirstFilled(ps, keys, i)
  {
    if j: nat :| j < n && ps[j].Hole? && ps[j].key in keys {
      i := SomeFirst(ps, keys, j);
    } else {
      i := n;
    }
  }

  /** Pieces that show the same do not matter. */
  lemma {:induction false} CommonStart(ps: seq<Piece>, f: Values, g: Values, i: nat)
    requires i <= |ps| && Delimited(ps) && forall j | 0 <= j < i && ps[j].Hole? :: f(ps[j].key) == g(ps[j].key)
    requires Shown(ps, f) == Shown(ps, g)
    ensures Delimited(ps[i..]) && Shown(ps[i..], f) == Shown(ps[i..], g)
  {
    if i > 0 {
      var first := if ps[0].Lit? then ps[0].text else f(ps[0].key);
      SameTail(first, Shown(ps[1..], f), Shown(ps[1..], g));
      CommonStart(ps[1..], f, g, i - 1);
      assert ps[1..][i - 1..] == ps[i..];
    } else {
      assert ps[0..] == ps;
    }
  }

  lemma Unfilled(ps: seq<Piece>, keys: set<string>, order: seq<string>, x: string, value: Values)
    requires Apart(ps, keys) && IsOrder(order, keys) && HasHole(ps, x) && x !in keys
    ensures Chain(x, order, value) == x
  {
    ChainKeeps(x, order, value);
  }

  /** When two orders agree, so do their texts from the first filled hole on. */
  lemma FromFirstHole(ps: seq<Piece>, keys: set<string>, n: nat, payload: string, i: nat, a: seq<string>,
                      b: seq<string>)
    requires 0 < n && Delimited(ps) && WordsOnly(ps, keys, n) && OrdersAgree(ps, keys, payload)
    requires FirstFilled(ps, keys, i) && IsOrder(a, keys) && IsOrder(b, keys)
    ensures var f, value := ps[i].key, Always(payload);
      && Delimited(ps[i..])
      && Chain(f, a, value) + Shown(ps[i + 1..], Chained(a, value))
         == Chain(f, b, value) + Shown(ps[i + 1..], Chained(b, value))
  {
    var value := Always(payload);
    WordsApart(ps, keys, n);
    WordsPiecewise(ps, keys, n, a, value);
    WordsPiecewise(ps, keys, n, b, value);
    assert Chain(Plain(ps), a, value) == Chain(Plain(ps), b, value);
    hide Chain, WordsOnly, IsOrder, Contains;
    forall j | 0 <= j < i && ps[j].Hole? ensures Chain(ps[j].key, a, value) == Chain(ps[j].key, b, value) {
      assert HasHole(ps, ps[j].key);
      Unfilled(ps, keys, a, ps[j].key, value);
      Unfilled(ps, keys, b, ps[j].key, value);
    }
    CommonStart(ps, Chained(a, value), Chained(b, value), i);
    assert ps[i..][0] == ps[i] && ps[i..][1..] == ps[i + 1..];
  }

  lemma ChainOne(s: string, k: string, value: Values)
    ensures Chain(s, [k], value) == ReplaceAll(s, k, value(k))
  {
    assert [k][..0] == [];
  }

  lemma OrderToTwo(h: string, k: string, rest: seq<string>, keys: set<string>)
    requires h in keys && k in keys && h != k && IsOrder(rest, keys - {h, k})
    ensures IsOrder(rest + [h] + [k], keys) && IsOrder([h] + rest + [k], keys)
  {
    OrdersJoin(rest, keys - {h, k}, [h], {h});
    OrdersJoin([h], {h}, rest, keys - {h, k});
    assert keys - {h, k} + {h} == keys - {k} == {h} + (keys - {h, k});
    OrdersJoin(rest + [h], keys - {k}, [k], {k});
    OrdersJoin([h] + rest, keys - {k}, [k], {k});
    assert keys - {k} + {k} == keys;
  }

  /** When all orders agree, the payload begins with every placeholder in it but that of the first
      hole. */
  lemma OthersBegin(ps: seq<Piece>, keys: set<string>, n: nat, payload: string, i: nat, k: string)
    requires 0 < n && Delimited(ps) && WordsOnly(ps, keys, n) && OrdersAgree(ps, keys, payload)
    requires FirstFilled(ps, keys, i) && k in keys && k != ps[i].key && Contains(payload, k)
    ensures HasPrefix(payload, k)
  {
    var f, value := ps[i].key, Always(payload);
    var rest := SomeOrder(keys - {f, k});
    assert keys - {f, k} == keys - {k, f};
    OrderToTwo(f, k, rest, keys);
    OrderToTwo(k, f, rest, keys);
    var a, b := rest + [f] + [k], rest + [k] + [f];
    WordsApart(ps, keys, n);
    assert HasHole(ps, f);
    FromFirstHole(ps, keys, n, payload, i, a, b);
    hide Delimited, WordsOnly, OrdersAgree, Shown, Contains, ReplaceAll;
    HoleFilled(ps, keys, f, rest, [k], value);
    HoleFilled(ps, keys, f, rest + [k], [], value);
    assert b == (rest + [k]) + [f] + [];
    ChainOne(payload, k, value);
    assert Chain(payload, [], value) == payload;
    BeginsWith(payload, Shown(ps[i + 1..], Chained(b, value)));
    PrefixReplaced(payload, k, Shown(ps[i + 1..], Chained(a, value)));
  }

  // ----- Two placeholders that both have holes -----

  /** Two placeholders of the payload that have holes, the first in the text among them, and no other
      placeholder in the payload. */
  ghost predicate TwoHoles(ps: seq<Piece>, keys: set<string>, payload: string, i: nat, k1: string, k2: string) {
    && FirstFilled(ps, keys, i) && ps[i].key == k1 && k2 in keys && k1 != k2 && HasHole(ps, k2)
    && HasPrefix(payload, k2) && Contains(payload, k1) && Contains(payload, k2)
    && forall x | x in keys && x != k1 && x != k2 :: !Contains(payload, x)
  }

  lemma OnlyTwo(ps: seq<Piece>, keys: set<string>, n: nat, payload: string) returns (i: nat, k1: string, k2: string)
    requires 0 < n && Delimited(ps) && WordsOnly(ps, keys, n) && OrdersAgree(ps, keys, payload)
    requires !HoldsOneHole(ps, keys, payload)
    ensures TwoHoles(ps, keys, payload, i, k1, k2)
  {
    hide Delimited, OrdersAgree, Contains;
    var h, k :| h in keys && HasHole(ps, h) && Contains(payload, h) && k in keys && HasHole(ps, k)
      && Contains(payload, k) && h != k;
    var j :| 0 <= j < |ps| && ps[j] == Hole(h);
    i := SomeFirst(ps, keys, j);
    k1 := ps[i].key;
    forall x | x in keys && x != k1 && Contains(payload, x) ensures n <= |payload| && payload[..n] == x {
      OthersBegin(ps, keys, n, payload, i, x);
    }
    k2 := if k1 == h then k else h;
    assert payload[..n] == k2;
  }

  /** What the holes show when `k1` is filled last, and `k2` first. */
  lemma LastShows(ps: seq<Piece>, keys: set<string>, n: nat, payload: string, i: nat, k1: string, k2: string,
                  rest: seq<string>, x: string)
    requires 0 < n && WordsOnly(ps, keys, n) && TwoHoles(ps, keys, payload, i, k1, k2)
    requires IsOrder(rest, keys - {k2, k1}) && HasHole(ps, x)
    ensures Chain(x, [k2] + rest + [k1], Always(payload)) ==
      if x == k1 then payload else if x in keys then ReplaceAll(payload, k1, payload) else x
  {
    var value, order := Always(payload), [k2] + rest;
    WordsApart(ps, keys, n);
    OrderToTwo(k2, k1, rest, keys);
    hide Contains, ReplaceAll;
    if x == k1 {
      HoleFilled(ps, keys, k1, order, [], value);
      assert order + [k1] + [] == order + [k1];
    } else if x in keys {
      OrdersJoin([k2], {k2}, rest, keys - {k2, k1});
      assert {k2} + (keys - {k2, k1}) == keys - {k1};
      forall k | FilledBefore(order, x, k) ensures Resists(payload, k, value) {
        var a, b :| 0 <= a < b < |order| && order[a] == x && order[b] == k;
        assert k in rest;
      }
      HoleSettled(ps, keys - {k1}, x, order, value);
      ChainConcat(x, order, [k1], value);
      ChainOne(payload, k1, value);
    } else {
      Unfilled(ps, keys, order + [k1], x, value);
    }
  }

  lemma OthersAbsent(ps: seq<Piece>, keys: set<string>, payload: string, i: nat, k1: string, k2: string,
                     rest: seq<string>)
    requires Apart(ps, keys) && TwoHoles(ps, keys, payload, i, k1, k2) && IsOrder(rest, keys - {k1, k2})
    ensures HasHole(ps, k1) && k1 in keys
    ensures forall k | k in rest :: k != "" && Resists(payload, k, Always(payload))
  {
    hide Contains;
    assert ps[i] == Piece.Hole(k1);
    forall k | k in rest ensures k != "" && Resists(payload, k, Always(payload)) {
      assert k in keys - {k1, k2};
    }
  }

  lemma AlwaysPays(payload: string, k1: string, k2: string)
    ensures Always(payload)(k1) == payload == Always(payload)(k2)
  {
  }

  lemma FirstInOrder(k1: string, rest: seq<string>, k2: string)
    ensures [] + [k1] + (rest + [k2]) == [k1] + rest + [k2]
  {
  }

  /** What the first hole shows when `k1` is filled first, and `k2` last. */
  lemma FirstShows(ps: seq<Piece>, keys: set<string>, n: nat, payload: string, i: nat, k1: string, k2: string,
                   rest: seq<string>)
    requires 0 < n && WordsOnly(ps, keys, n) && TwoHoles(ps, keys, payload, i, k1, k2)
    requires IsOrder(rest, keys - {k1, k2})
    ensures Chain(k1, [k1] + rest + [k2], Always(payload)) == ReplaceAll(payload, k2, payload)
  {
    hide *;
    var value := Always(payload);
    WordsApart(ps, keys, n);
    OthersAbsent(ps, keys, payload, i, k1, k2, rest);
    AlwaysPays(payload, k1, k2);
    HoleFilled(ps, keys, k1, [], rest + [k2], value);
    FirstInOrder(k1, rest, k2);
    ChainConcat(payload, rest, [k2], value);
    ChainKeeps(payload, rest, value);
    ChainOne(payload, k2, value);
  }

  lemma HolesBehind(ps: seq<Piece>, keys: set<string>, n: nat, payload: string, i: nat, k1: string, k2: string,
                    rest: seq<string>, x: string)
    requires 0 < n && WordsOnly(ps, keys, n) && TwoHoles(ps, keys, payload, i, k1, k2)
    requires IsOrder(rest, keys - {k2, k1}) && HasHole(ps[i + 1..], x)
    ensures |x| == n && (x !in keys ==> x != k2)
    ensures Chain(x, [k2] + rest + [k1], Always(payload)) ==
      if x == k1 then payload else if x in keys then ReplaceAll(payload, k1, payload) else x
  {
    hide ReplaceAll, Contains, Chain, IsOrder;
    var l :| 0 <= l < |ps[i + 1..]| && ps[i + 1..][l] == Piece.Hole(x);
    assert ps[l + i + 1] == Piece.Hole(x);
    assert HasHole(ps, x);
    LastShows(ps, keys, n, payload, i, k1, k2, rest, x);
  }

  lemma SecondBehind(ps: seq<Piece>, keys: set<string>, n: nat, payload: string, i: nat, k1: string, k2: string)
    requires WordsOnly(ps, keys, n) && TwoHoles(ps, keys, payload, i, k1, k2) && Delimited(ps[i..])
    ensures var tail := ps[i + 1..];
      HasHole(tail, k2) && Delimited(tail) && LiteralsFree(tail, {k1, k2}) && tail[0].Lit? && StartsCut(tail[0].text)
  {
    hide Contains;
    var tail := ps[i + 1..];
    var j :| 0 <= j < |ps| && ps[j] == Piece.Hole(k2);
    assert j > i && tail[j - i - 1] == ps[j];
    assert ps[i..][0] == ps[i] && ps[i..][1..] == tail && ps[i..][1] == tail[0];
    assert forall l | 0 <= l < |tail| :: tail[l] == ps[l + i + 1];
  }

  lemma BehindFirst(ps: seq<Piece>, keys: set<string>, n: nat, payload: string, i: nat, k1: string, k2: string,
                    rest: seq<string>)
    requires 0 < n && WordsOnly(ps, keys, n) && TwoHoles(ps, keys, payload, i, k1, k2) && Delimited(ps[i..])
    requires IsOrder(rest, keys - {k2, k1})
    ensures var shows, tail := Chained([k2] + rest + [k1], Always(payload)), ps[i + 1..];
      LastFilled(tail, shows, payload, k1, k2, n) && StartsCut(Shown(tail, shows))
  {
    var shows, tail := Chained([k2] + rest + [k1], Always(payload)), ps[i + 1..];
    SecondBehind(ps, keys, n, payload, i, k1, k2);
    hide ReplaceAll, Contains, Chain, IsOrder, WordsOnly, Delimited, LiteralsFree, HasHole;
    forall x | HasHole(tail, x)
      ensures |x| == n && (x !in keys ==> x != k2)
      ensures shows(x) == if x == k1 then payload else if x in keys then ReplaceAll(payload, k1, payload) else x
    {
      HolesBehind(ps, keys, n, payload, i, k1, k2, rest, x);
    }
    assert Grown(k2, shows, k1, payload);
    assert Shown(tail, shows)[0] == tail[0].text[0];
  }

  lemma TextsDiffer(ps: seq<Piece>, keys: set<string>, n: nat, payload: string, i: nat, k1: string, k2: string,
                    rest: seq<string>, y: string)
    requires 0 < n && WordsOnly(ps, keys, n) && TwoHoles(ps, keys, payload, i, k1, k2) && Delimited(ps[i..])
    requires IsOrder(rest, keys - {k2, k1})
    ensures ReplaceAll(payload, k2, payload) + y
         != payload + Shown(ps[i + 1..], Chained([k2] + rest + [k1], Always(payload)))
  {
    var shows, tail := Chained([k2] + rest + [k1], Always(payload)), ps[i + 1..];
    BehindFirst(ps, keys, n, payload, i, k1, k2, rest);
    var q := AfterPrefix(payload, k2);
    ReplaceStep(payload, k2, payload);
    hide ReplaceAll, Contains, Shown, LastFilled, Delimited;
    if ReplaceAll(payload, k2, payload) + y == payload + Shown(tail, shows) {
      GroupTail(payload, ReplaceAll(q, k2, payload), y);
      SameTail(payload, ReplaceAll(q, k2, payload) + y, Shown(tail, shows));
      StartsCutBefore(q, k2, payload, n, y);
      FollowsWord(k2, q, k1, n);
      Misaligned(tail, shows, payload, k1, k2, n, k2, q, y);
    }
  }

  /** A payload with two placeholders that both have holes makes two orders differ. */
  lemma TwoHolesDisagree(ps: seq<Piece>, keys: set<string>, n: nat, payload: string)
    requires 0 < n && Delimited(ps) && WordsOnly(ps, keys, n) && !HoldsOneHole(ps, keys, payload)
    ensures !OrdersAgree(ps, keys, payload)
  {
    if OrdersAgree(ps, keys, payload) {
      var i, k1, k2 := OnlyTwo(ps, keys, n, payload);
      var rest := SomeOrder(keys - {k1, k2});
      assert keys - {k1, k2} == keys - {k2, k1};
      hide OrdersAgree, Contains, ReplaceAll, Shown, Delimited, WordsOnly, Chain;
      OrderToTwo(k1, k2, rest, keys);
      OrderToTwo(k2, k1, rest, keys);
      var a, b := [k1] + rest + [k2], [k2] + rest + [k1];
      FromFirstHole(ps, keys, n, payload, i, a, b);
      FirstShows(ps, keys, n, payload, i, k1, k2, rest);
      assert HasHole(ps, k1);
      LastShows(ps, keys, n, payload, i, k1, k2, rest, k1);
      TextsDiffer(ps, keys, n, payload, i, k1, k2, rest, Shown(ps[i + 1..], Chained(a, Always(payload))));
    }
  }

  /** Bodies, for every payload: all orders agree with each other if and only if they all give the
      simultaneous replacement, which is if and only if no filled hole changes again. */
  lemma OrdersAgreeIff(ps: seq<Piece>, keys: set<string>, n: nat, payload: string)
    requires 0 < n && Delimited(ps) && WordsOnly(ps, keys, n)
    ensures OrdersAgree(ps, keys, payload) <==> Harmless(ps, keys, Always(payload))
    ensures OrdersAgree(ps, keys, payload) <==> OrderIrrelevant(ps, keys, Always(payload))
  {
    hide Delimited, WordsOnly, Contains, Chain, Plain;
    BodyOrderIff(ps, keys, n, payload);
    if HoldsOneHole(ps, keys, payload) {
      OneHoleAgrees(ps, keys, n, payload);
    } else {
      TwoHolesDisagree(ps, keys, n, payload);
    }
  }
}
