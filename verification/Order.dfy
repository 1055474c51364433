/** Orders, sorting and counting: what the ledger and its statistics rely on from the
    standard library (`sort.Strings`, `sort.Sort`, `bytes.Compare`).

    Go strings and byte slices are sequences of bytes compared lexicographically; both are
    `string` here, compared by `Less`. */
module Order {

  // ----- Lexicographic order -----

  /** `a < b` on Go strings, and `bytes.Compare(a, b) < 0`. */
  predicate Less(a: string, b: string) {
    b != [] && (a == [] || a[0] < b[0] || (a[0] == b[0] && Less(a[1..], b[1..])))
  }

  /** A pair ordered first by `major`, then by `minor`: (set, case) or (path, method). */
  datatype Key = Key(major: string, minor: string)

  /** `ScannedPaths.Less`; also the order in which the nested sorted loops visit (set, case). */
  predicate KeyLess(a: Key, b: Key) {
    if Less(b.major, a.major) then false
    else if Less(a.major, b.major) then true
    else Less(a.minor, b.minor)
  }

  ghost predicate StrictTotal<T(!new)>(less: (T, T) -> bool) {
    && (forall a :: !less(a, a))
    && (forall a, b, c :: less(a, b) && less(b, c) ==> less(a, c))
    && (forall a, b :: a == b || less(a, b) || less(b, a))
  }

  lemma {:induction false} LessTransitive(a: string, b: string, c: string)
    requires Less(a, b) && Less(b, c)
    ensures Less(a, c)
  {
    if a != [] && a[0] == b[0] == c[0] {
      LessTransitive(a[1..], b[1..], c[1..]);
    }
  }

  lemma {:induction false} LessTrichotomy(a: string, b: string)
    ensures !Less(a, a)
    ensures a == b || Less(a, b) || Less(b, a)
    ensures !(Less(a, b) && Less(b, a))
  {
    if a != [] {
      LessTrichotomy(a[1..], if b == [] then [] else b[1..]);
      if b != [] && a[0] == b[0] && a[1..] == b[1..] {
        assert a == [a[0]] + a[1..] == [b[0]] + b[1..] == b;
      }
    }
  }

  /** The strings agree before `n`, where the first one ends or has the smaller character. */
  predicate DiffersAt(a: string, b: string, n: nat) {
    n <= |a| && n < |b| && a[..n] == b[..n] && (n == |a| || a[n] < b[n])
  }

  /** The order is lexicographic: the first difference decides, and a proper beginning is smaller. */
  lemma {:induction false} LessMeaning(a: string, b: string)
    ensures Less(a, b) <==> exists n: nat :: DiffersAt(a, b, n)
  {
    if b != [] {
      if a == [] || a[0] < b[0] {
        assert DiffersAt(a, b, 0);
      } else if a[0] == b[0] {
        LessMeaning(a[1..], b[1..]);
        if Less(a, b) {
          var n: nat :| DiffersAt(a[1..], b[1..], n);
          assert a == [a[0]] + a[1..] && b == [b[0]] + b[1..];
          assert DiffersAt(a, b, n + 1);
        }
        forall n: nat | DiffersAt(a, b, n) ensures Less(a, b) {
          assert n > 0 && a[1..][..n - 1] == a[..n][1..] && b[1..][..n - 1] == b[..n][1..];
          assert DiffersAt(a[1..], b[1..], n - 1);
        }
      } else {
        forall n: nat ensures !DiffersAt(a, b, n) {
          assert n > 0 && n <= |a| && n <= |b| ==> a[..n][0] != b[..n][0];
        }
      }
    }
  }

  /** Pairs are ordered by the first component, then by the second. */
  lemma KeyLessMeaning(a: Key, b: Key)
    ensures KeyLess(a, b) <==> Less(a.major, b.major) || (a.major == b.major && Less(a.minor, b.minor))
  {
    LessTrichotomy(a.major, b.major);
    LessTrichotomy(b.major, a.major);
  }

  lemma LessIsTotal()
    ensures StrictTotal(Less)
  {
    forall a: string, b: string ensures !Less(a, a) && (a == b || Less(a, b) || Less(b, a)) {
      LessTrichotomy(a, b);
    }
    forall a: string, b: string, c: string | Less(a, b) && Less(b, c) ensures Less(a, c) {
      LessTransitive(a, b, c);
    }
  }

  lemma KeyLessIsTotal()
    ensures StrictTotal(KeyLess)
  {
    LessIsTotal();
    forall a: Key, b: Key, c: Key | KeyLess(a, b) && KeyLess(b, c) ensures KeyLess(a, c) {
      LessTrichotomy(a.major, b.major);
      LessTrichotomy(b.major, c.major);
      LessTrichotomy(a.major, c.major);
    }
  }

  // ----- Sorting -----

  ghost predicate Sorted<T(!new)>(s: seq<T>, less: (T, T) -> bool) {
    forall i, j | 0 <= i < j < |s| :: !less(s[j], s[i])
  }

  ghost predicate StrictlySorted<T(!new)>(s: seq<T>, less: (T, T) -> bool) {
    forall i, j | 0 <= i < j < |s| :: less(s[i], s[j])
  }

  function Insert<T>(x: T, s: seq<T>, less: (T, T) -> bool): seq<T> {
    if s != [] && less(s[0], x) then [s[0]] + Insert(x, s[1..], less) else [x] + s
  }

  /** The library's sort, as a value. */
  function Sort<T>(s: seq<T>, less: (T, T) -> bool): seq<T> {
    if s == [] then [] else Insert(s[0], Sort(s[1..], less), less)
  }

  lemma {:induction false} InsertPermutes<T>(x: T, s: seq<T>, less: (T, T) -> bool)
    ensures multiset(Insert(x, s, less)) == multiset(s) + multiset{x}
  {
    if s != [] && less(s[0], x) {
      InsertPermutes(x, s[1..], less);
      assert s == [s[0]] + s[1..];
    }
  }

  lemma {:induction false} InsertSorts<T(!new)>(x: T, s: seq<T>, less: (T, T) -> bool)
    requires StrictTotal(less) && Sorted(s, less)
    ensures Sorted(Insert(x, s, less), less)
  {
    if s != [] && less(s[0], x) {
      var t := Insert(x, s[1..], less);
      InsertSorts(x, s[1..], less);
      InsertPermutes(x, s[1..], less);
      forall j | 0 <= j < |t| ensures !less(t[j], s[0]) {
        assert t[j] in multiset(t);
        assert t[j] == x || t[j] in s[1..];
      }
    } else {
      forall j | 0 <= j < |s| ensures !less(s[j], x) {
        assert s[j] == s[0] || less(s[0], s[j]);
      }
    }
  }

  lemma {:induction false} SortCorrect<T(!new)>(s: seq<T>, less: (T, T) -> bool)
    requires StrictTotal(less)
    ensures Sorted(Sort(s, less), less)
    ensures multiset(Sort(s, less)) == multiset(s)
  {
    if s != [] {
      SortCorrect(s[1..], less);
      InsertPermutes(s[0], Sort(s[1..], less), less);
      InsertSorts(s[0], Sort(s[1..], less), less);
      assert s == [s[0]] + s[1..];
    }
  }

  /** The sorted arrangement of a multiset is unique. */
  lemma {:induction false} SortedUnique<T(!new)>(a: seq<T>, b: seq<T>, less: (T, T) -> bool)
    requires StrictTotal(less)
    requires Sorted(a, less) && Sorted(b, less)
    requires multiset(a) == multiset(b)
    ensures a == b
  {
    assert |a| == |multiset(a)| == |multiset(b)| == |b|;
    if a != [] {
      assert a == [a[0]] + a[1..];
      assert b == [b[0]] + b[1..];
      assert a[0] == b[0] by {
        assert a[0] in multiset(b) && b[0] in multiset(a);
        assert !less(a[0], b[0]) && !less(b[0], a[0]);
      }
      assert multiset(a[1..]) == multiset(a) - multiset{a[0]};
      assert multiset(b[1..]) == multiset(b) - multiset{b[0]};
      SortedUnique(a[1..], b[1..], less);
    }
  }

  /** Sorting forgets the order of its input, and only that. */
  lemma SortCanonical<T(!new)>(a: seq<T>, b: seq<T>, less: (T, T) -> bool)
    requires StrictTotal(less)
    ensures multiset(a) == multiset(b) <==> Sort(a, less) == Sort(b, less)
  {
    SortCorrect(a, less);
    SortCorrect(b, less);
    if multiset(a) == multiset(b) {
      SortedUnique(Sort(a, less), Sort(b, less), less);
    }
  }

  /** Two strictly sorted sequences with the same elements are equal. */
  lemma StrictlySortedUnique<T(!new)>(a: seq<T>, b: seq<T>, less: (T, T) -> bool)
    requires StrictTotal(less)
    requires StrictlySorted(a, less) && StrictlySorted(b, less)
    requires forall x :: x in a <==> x in b
    ensures a == b
  {
    forall x ensures multiset(a)[x] == multiset(b)[x] {
      StrictMultiplicity(a, x, less);
      StrictMultiplicity(b, x, less);
    }
    assert multiset(a) == multiset(b);
    SortedUnique(a, b, less);
  }

  lemma {:induction false} StrictMultiplicity<T(!new)>(a: seq<T>, x: T, less: (T, T) -> bool)
    requires StrictTotal(less) && StrictlySorted(a, less)
    ensures multiset(a)[x] == if x in a then 1 else 0
  {
    if a != [] {
      assert a == [a[0]] + a[1..];
      StrictMultiplicity(a[1..], x, less);
    }
  }

  ghost predicate Distinct<T>(s: seq<T>) {
    forall i, j | 0 <= i < j < |s| :: s[i] != s[j]
  }

  lemma TwiceInMultiset<T>(s: seq<T>, i: nat, j: nat)
    requires i < j < |s| && s[i] == s[j]
    ensures multiset(s)[s[i]] >= 2
  {
    assert s == s[..j] + [s[j]] + s[j + 1..];
    assert s[i] in s[..j];
  }

  lemma {:induction false} DistinctMultiplicity<T>(s: seq<T>, x: T)
    requires Distinct(s)
    ensures multiset(s)[x] <= 1
  {
    if s != [] {
      assert s == s[..|s| - 1] + [s[|s| - 1]];
      DistinctMultiplicity(s[..|s| - 1], x);
    }
  }

  /** Sorting a sequence without repetition lists its elements in strict order. */
  lemma SortDistinct<T(!new)>(s: seq<T>, less: (T, T) -> bool)
    requires StrictTotal(less) && Distinct(s)
    ensures StrictlySorted(Sort(s, less), less)
    ensures forall x :: x in Sort(s, less) <==> x in s
  {
    SortCorrect(s, less);
    var r := Sort(s, less);
    forall i, j | 0 <= i < j < |r| ensures less(r[i], r[j]) {
      if r[i] == r[j] {
        TwiceInMultiset(r, i, j);
        DistinctMultiplicity(s, r[i]);
        assert false;
      }
    }
    forall x ensures x in r <==> x in s {
      assert x in multiset(r) <==> x in multiset(s);
    }
  }

  // ----- Counting -----

  function CountIf<T>(s: seq<T>, p: T -> bool): nat {
    if s == [] then 0 else CountIf(s[..|s| - 1], p) + if p(s[|s| - 1]) then 1 else 0
  }

  lemma CountIfAppend<T>(s: seq<T>, x: T, p: T -> bool)
    ensures CountIf(s + [x], p) == CountIf(s, p) + if p(x) then 1 else 0
  {
    assert (s + [x])[..|s|] == s;
  }

  lemma {:induction false} CountIfConcat<T>(s: seq<T>, t: seq<T>, p: T -> bool)
    ensures CountIf(s + t, p) == CountIf(s, p) + CountIf(t, p)
  {
    if t == [] {
      assert s + t == s;
    } else {
      assert s + t == (s + t[..|t| - 1]) + [t[|t| - 1]];
      CountIfAppend(s + t[..|t| - 1], t[|t| - 1], p);
      CountIfConcat(s, t[..|t| - 1], p);
    }
  }

  /** Counting depends on the multiset of elements only. */
  lemma {:induction false} CountIfPermutation<T>(s: seq<T>, t: seq<T>, p: T -> bool)
    requires multiset(s) == multiset(t)
    ensures CountIf(s, p) == CountIf(t, p)
  {
    assert |s| == |multiset(s)| == |multiset(t)| == |t|;
    if s != [] {
      var n := |s| - 1;
      var x := s[n];
      assert s == s[..n] + [x];
      assert x in multiset(t);
      var i :| 0 <= i < |t| && t[i] == x;
      assert t == t[..i] + [x] + t[i + 1..];
      assert multiset(t) == multiset(t[..i] + t[i + 1..]) + multiset{x};
      assert multiset(s) == multiset(s[..n]) + multiset{x};
      assert multiset(s[..n]) == multiset(s) - multiset{x};
      CountIfPermutation(s[..n], t[..i] + t[i + 1..], p);
      CountIfConcat(t[..i], t[i + 1..], p);
      CountIfConcat(t[..i] + [x], t[i + 1..], p);
      CountIfAppend(t[..i], x, p);
    }
  }

  // ----- Selecting -----

  /** The elements with a property, in order. */
  function Filter<T>(s: seq<T>, p: T -> bool): seq<T> {
    if s == [] then [] else Filter(s[..|s| - 1], p) + if p(s[|s| - 1]) then [s[|s| - 1]] else []
  }

  ghost predicate Increasing(at: seq<nat>, n: nat) {
    (forall i | 0 <= i < |at| :: at[i] < n) && forall i, j | 0 <= i < j < |at| :: at[i] < at[j]
  }

  /** `r` is what stands in `s` at the places `at`, from left to right. */
  ghost predicate StandsAt<T(!new)>(r: seq<T>, s: seq<T>, at: seq<nat>) {
    |at| == |r| && Increasing(at, |s|) && forall i | 0 <= i < |at| :: r[i] == s[at[i]]
  }

  ghost predicate AllAt<T(!new)>(s: seq<T>, p: T -> bool, at: seq<nat>) {
    forall j: nat | j < |s| :: p(s[j]) <==> j in at
  }

  /** A selection is a subsequence, of exactly the elements with the property. */
  lemma {:induction false} FilterMeaning<T(!new)>(s: seq<T>, p: T -> bool) returns (at: seq<nat>)
    ensures StandsAt(Filter(s, p), s, at) && AllAt(s, p, at)
  {
    if s == [] {
      at := [];
    } else {
      var n := |s| - 1;
      var before := FilterMeaning(s[..n], p);
      if p(s[n]) {
        at := before + [n];
        StandsMore(Filter(s[..n], p), s, before);
      } else {
        at := before;
        assert Filter(s[..n], p) + [] == Filter(s[..n], p);
      }
      AllMore(s, p, before);
    }
  }

  lemma StandsMore<T(!new)>(r: seq<T>, s: seq<T>, before: seq<nat>)
    requires s != [] && StandsAt(r, s[..|s| - 1], before)
    ensures StandsAt(r + [s[|s| - 1]], s, before + [|s| - 1])
  {
  }

  lemma AllMore<T(!new)>(s: seq<T>, p: T -> bool, before: seq<nat>)
    requires s != [] && AllAt(s[..|s| - 1], p, before) && Increasing(before, |s| - 1)
    ensures AllAt(s, p, if p(s[|s| - 1]) then before + [|s| - 1] else before)
  {
    var n: nat := |s| - 1;
    var at := if p(s[n]) then before + [n] else before;
    forall j: nat | j < |s| ensures p(s[j]) <==> j in at {
      if j < n {
        assert s[..n][j] == s[j];
      }
    }
  }
}
