/** The random placeholders that stand for strings in a request body (`genRandomPlaceholder` in
    `internal/openapi/helpers.go`), drawn one after the other from a supply. */
module Placeholders {
  import opened Substitution
  import opened Templates

  const PLACEHOLDER_SIZE := 16

  /** What is drawn, in order: distinct words of the size of a placeholder. */
  ghost predicate Fresh(names: seq<string>) {
    && (forall i | 0 <= i < |names| :: IsWord(names[i], PLACEHOLDER_SIZE))
    && (forall i, j | 0 <= i < j < |names| :: names[i] != names[j])
  }

  /** Drawn from position `n` on and before `m`. */
  ghost predicate MintedIn(k: string, names: seq<string>, n: nat, m: nat) {
    exists i | n <= i < m && i < |names| :: names[i] == k
  }

  /** The parameters of a compilation that drew from `n` to `m`: strings all. */
  ghost predicate Specs(ps: Params, names: seq<string>, n: nat, m: nat) {
    forall k | k in ps :: MintedIn(k, names, n, m) && ps[k].paramType == "string"
  }

  lemma MintedApart(a: Params, b: Params, names: seq<string>, n: nat, m: nat, l: nat)
    requires Fresh(names) && Specs(a, names, n, m) && Specs(b, names, m, l)
    ensures a.Keys !! b.Keys
  {
    forall k | k in a.Keys ensures k !in b.Keys {
      var i :| n <= i < m && i < |names| && names[i] == k;
      assert !MintedIn(k, names, m, l);
    }
  }

  lemma SpecsWiden(a: Params, names: seq<string>, n: nat, m: nat, n': nat, m': nat)
    requires Specs(a, names, n, m) && n' <= n && m <= m'
    ensures Specs(a, names, n', m')
  {
    forall k | k in a ensures MintedIn(k, names, n', m') {
      var i :| n <= i < m && i < |names| && names[i] == k;
    }
  }

  lemma SpecsMerge(a: Params, b: Params, names: seq<string>, n: nat, m: nat, l: nat)
    requires Specs(a, names, n, m) && Specs(b, names, m, l) && n <= m <= l
    ensures Specs(a + b, names, n, l)
  {
    SpecsWiden(a, names, n, m, n, l);
    SpecsWiden(b, names, m, l, n, l);
  }

  // ----- How many there are -----

  /** The number of words of `n` letters. */
  function Words(n: nat): (w: nat)
    ensures w > 0
  {
    if n == 0 then 1 else 52 * Words(n - 1)
  }

  function Letter(d: nat): (c: char)
    requires d < 52
    ensures IsLetter(c)
  {
    if d < 26 then 'a' + d as char else 'A' + (d - 26) as char
  }

  function LetterRank(c: char): (d: nat)
    requires IsLetter(c)
    ensures d < 52 && Letter(d) == c
  {
    if c >= 'a' then (c - 'a') as nat else (c - 'A') as nat + 26
  }

  /** Word number `i`, of `n` letters. */
  function WordOf(i: nat, n: nat): (k: string)
    ensures IsWord(k, n)
  {
    if n == 0 then "" else WordOf(i / 52, n - 1) + [Letter(i % 52)]
  }

  function Rank(k: string, n: nat): (i: nat)
    requires IsWord(k, n)
    ensures i < Words(n)
  {
    if n == 0 then 0
    else
      var before := Rank(k[..n - 1], n - 1);
      assert 52 * before + 52 <= 52 * Words(n - 1);
      52 * before + LetterRank(k[n - 1])
  }

  /** Words and their numbers determine each other. */
  lemma {:induction false} RankOfWord(i: nat, n: nat)
    requires i < Words(n)
    ensures Rank(WordOf(i, n), n) == i
  {
    if n > 0 {
      assert i / 52 < Words(n - 1);
      RankOfWord(i / 52, n - 1);
      var k := WordOf(i, n);
      assert k[..n - 1] == WordOf(i / 52, n - 1);
      assert LetterRank(Letter(i % 52)) == i % 52;
    }
  }

  lemma {:induction false} WordOfRank(k: string, n: nat)
    requires IsWord(k, n)
    ensures WordOf(Rank(k, n), n) == k
  {
    if n > 0 {
      WordOfRank(k[..n - 1], n - 1);
      assert k == k[..n - 1] + [k[n - 1]];
      var before, d := Rank(k[..n - 1], n - 1), LetterRank(k[n - 1]);
      assert (52 * before + d) / 52 == before && (52 * before + d) % 52 == d;
    }
  }

  /** Distinct numbers below `n` are at most `n`. */
  lemma {:induction false} AtMost(xs: seq<nat>, n: nat)
    requires forall i | 0 <= i < |xs| :: xs[i] < n
    requires forall i, j | 0 <= i < j < |xs| :: xs[i] != xs[j]
    ensures |xs| <= n
    decreases n
  {
    if xs == [] {
    } else {
      assert xs[0] < n;
      if i :| 0 <= i < |xs| && xs[i] == n - 1 {
        AtMost(xs[..i] + xs[i + 1..], n - 1);
      } else {
        AtMost(xs, n - 1);
      }
    }
  }

  lemma SupplyBounded(names: seq<string>)
    requires Fresh(names)
    ensures |names| <= Words(PLACEHOLDER_SIZE)
  {
    var ranks := seq(|names|, i requires 0 <= i < |names| => Rank(names[i], PLACEHOLDER_SIZE));
    forall i, j | 0 <= i < j < |names| ensures ranks[i] != ranks[j] {
      WordOfRank(names[i], PLACEHOLDER_SIZE);
      WordOfRank(names[j], PLACEHOLDER_SIZE);
    }
    hide IsWord, Rank, WordOf, Words;
    AtMost(ranks, Words(PLACEHOLDER_SIZE));
  }

  lemma Supply(size: nat) returns (names: seq<string>)
    requires size <= Words(PLACEHOLDER_SIZE)
    ensures |names| == size && Fresh(names)
  {
    names := seq(size, i requires 0 <= i < size => WordOf(i, PLACEHOLDER_SIZE));
    forall i, j | 0 <= i < j < size ensures names[i] != names[j] {
      RankOfWord(i, PLACEHOLDER_SIZE);
      RankOfWord(j, PLACEHOLDER_SIZE);
    }
  }

  /** Distinct placeholders can be drawn up to the number of words, and no more. */
  lemma SupplyIff(size: nat)
    ensures (exists names :: |names| == size && Fresh(names)) <==> size <= Words(PLACEHOLDER_SIZE)
  {
    hide Fresh, Words;
    if size <= Words(PLACEHOLDER_SIZE) {
      var names := Supply(size);
    }
    forall names | |names| == size && Fresh(names) ensures size <= Words(PLACEHOLDER_SIZE) {
      SupplyBounded(names);
    }
  }
}
