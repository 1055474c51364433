/** The operations of Go's `strings` package that the modelled code calls. */
module Text {

  /** `strings.TrimSuffix`. */
  function TrimSuffix(s: string, suffix: string): string {
    if |suffix| <= |s| && s[|s| - |suffix|..] == suffix then s[..|s| - |suffix|] else s
  }

  predicate HasPrefix(s: string, p: string) {
    |p| <= |s| && s[..|p|] == p
  }

  /** `strings.Contains`. */
  predicate Contains(s: string, sub: string) {
    HasPrefix(s, sub) || (s != "" && Contains(s[1..], sub))
  }

  predicate OccursAt(s: string, sub: string, i: nat) {
    i + |sub| <= |s| && s[i..i + |sub|] == sub
  }

  /** The characters of an occurrence. */
  lemma OccurrenceAt(s: string, sub: string, i: nat, j: nat)
    ensures OccursAt(s, sub, i) && j < |sub| ==> s[i + j] == sub[j]
  {
    if OccursAt(s, sub, i) && j < |sub| {
      assert s[i..i + |sub|][j] == s[i + j];
    }
  }

  /** Occurrences in a suffix. */
  lemma OccursShift(s: string, sub: string, n: nat, i: nat)
    requires n <= |s|
    ensures OccursAt(s[n..], sub, i) <==> OccursAt(s, sub, n + i)
  {
    if n + i + |sub| <= |s| {
      assert s[n..][i..i + |sub|] == s[n + i..n + i + |sub|];
    }
  }

  /** `strings.Contains` holds exactly when the substring occurs at some offset. */
  lemma {:induction false} ContainsIffOccurs(s: string, sub: string)
    ensures Contains(s, sub) <==> exists i: nat :: OccursAt(s, sub, i)
  {
    if HasPrefix(s, sub) {
      assert OccursAt(s, sub, 0);
    } else if s != "" {
      ContainsIffOccurs(s[1..], sub);
      if Contains(s[1..], sub) {
        var i: nat :| OccursAt(s[1..], sub, i);
        assert s[1..][i..i + |sub|] == s[i + 1..i + 1 + |sub|];
        assert OccursAt(s, sub, i + 1);
      }
      forall i: nat | OccursAt(s, sub, i) ensures Contains(s[1..], sub) {
        assert i > 0;
        assert s[1..][i - 1..i - 1 + |sub|] == s[i..i + |sub|];
        assert OccursAt(s[1..], sub, i - 1);
      }
    }
  }

  /** `strings.ReplaceAll`: occurrences are taken from the left and do not overlap; the
      replacement is not scanned again.  An empty target matches around every character. */
  function ReplaceAll(s: string, target: string, value: string): string {
    if s == "" then (if target == "" then value else "")
    else if target == "" then value + [s[0]] + ReplaceAll(s[1..], target, value)
    else if HasPrefix(s, target) then value + ReplaceAll(s[|target|..], target, value)
    else [s[0]] + ReplaceAll(s[1..], target, value)
  }

  /** `strings.Join`. */
  function Join(parts: seq<string>, sep: string): string {
    if parts == [] then ""
    else if |parts| == 1 then parts[0]
    else parts[0] + sep + Join(parts[1..], sep)
  }

  /** The parts in order, with a separator before each but the first. */
  lemma {:induction false} JoinLast(parts: seq<string>, last: string, sep: string)
    ensures Join([], sep) == ""
    ensures Join(parts + [last], sep) == if parts == [] then last else Join(parts, sep) + sep + last
  {
    if parts != [] {
      assert (parts + [last])[1..] == parts[1..] + [last];
      JoinLast(parts[1..], last, sep);
      var rest := Join(parts[1..], sep);
      assert parts[0] + sep + (rest + sep + last) == parts[0] + sep + rest + sep + last;
    }
  }

  /** One suffix is cut off, if it is there. */
  lemma TrimSuffixMeaning(s: string, rest: string, suffix: string)
    ensures TrimSuffix(rest + suffix, suffix) == rest
    ensures (forall t :: s != t + suffix) ==> TrimSuffix(s, suffix) == s
  {
    assert (rest + suffix)[|rest|..] == suffix && (rest + suffix)[..|rest|] == rest;
    if TrimSuffix(s, suffix) != s {
      assert s == s[..|s| - |suffix|] + suffix;
    }
  }
}
