/** The Python built-in behaviour the application relies on: the `str` methods
    it calls (`strip`, `split`, `join`, `startswith`, `endswith`, `lower`, `in`),
    truthiness of optional strings and `os.getenv`. */
module Py {
  import opened Wrappers

  /** `c.isspace()` for a one-character string `c`: the characters Python
      treats as whitespace in `str.strip()` with no arguments. */
  predicate IsSpace(c: char) {
    ('\t' <= c <= '\r') || ('\U{1C}' <= c <= ' ') || c == '\U{85}' || c == '\U{A0}'
    || c == '\U{1680}' || ('\U{2000}' <= c <= '\U{200A}') || c == '\U{2028}' || c == '\U{2029}'
    || c == '\U{202F}' || c == '\U{205F}' || c == '\U{3000}'
  }

  /** Every character of `t` is whitespace. */
  predicate AllSpace(t: string) {
    forall i :: 0 <= i < |t| ==> IsSpace(t[i])
  }

  /** How many whitespace characters open `s`. */
  function LeadingSpace(s: string): (n: nat)
    ensures n <= |s|
    ensures forall i :: 0 <= i < n ==> IsSpace(s[i])
    ensures n < |s| ==> !IsSpace(s[n])
  {
    if s != [] && IsSpace(s[0]) then 1 + LeadingSpace(s[1..]) else 0
  }

  /** How many whitespace characters close `s`. */
  function TrailingSpace(s: string): (n: nat)
    ensures n <= |s|
    ensures forall i :: |s| - n <= i < |s| ==> IsSpace(s[i])
    ensures n < |s| ==> !IsSpace(s[|s| - n - 1])
  {
    if s != [] && IsSpace(s[|s| - 1]) then 1 + TrailingSpace(s[..|s| - 1]) else 0
  }

  /** `s.lstrip()`: drops the longest all-whitespace prefix. */
  function TrimStart(s: string): string {
    s[LeadingSpace(s)..]
  }

  /** `s.rstrip()`: drops the longest all-whitespace suffix. */
  function TrimEnd(s: string): string {
    s[..|s| - TrailingSpace(s)]
  }

  /** `s.strip()`. The result is the slice of `s` left after removing its
      leading and its trailing whitespace: everything before it and after it is
      whitespace, and it has no whitespace at either end. It is empty exactly
      when `s` is all whitespace, keeps a non-whitespace first character, and a
      string that already has non-whitespace ends comes back unchanged. */
  function Strip(s: string): (r: string)
    ensures LeadingSpace(s) + |r| <= |s| && r == s[LeadingSpace(s)..LeadingSpace(s) + |r|]
    ensures AllSpace(s[..LeadingSpace(s)]) && AllSpace(s[LeadingSpace(s) + |r|..])
    ensures r != [] ==> !IsSpace(r[0]) && !IsSpace(r[|r| - 1])
    ensures r == [] <==> AllSpace(s)
    ensures s != [] && !IsSpace(s[0]) ==> r != [] && r[0] == s[0]
    ensures s != [] && !IsSpace(s[0]) && !IsSpace(s[|s| - 1]) ==> r == s
  {
    StripSlice(s);
    StripSpaceAround(s);
    StripEnds(s);
    StripEmpty(s);
    StripVisible(s);
    TrimEnd(TrimStart(s))
  }

  /** The stripped text is the slice of `s` between its leading and its
      trailing whitespace. */
  lemma StripSlice(s: string)
    ensures var k, r := LeadingSpace(s), TrimEnd(TrimStart(s));
      k + |r| <= |s| && r == s[k..k + |r|] && k + |r| + TrailingSpace(s[k..]) == |s|
  {
    var k := LeadingSpace(s);
    var m := TrailingSpace(s[k..]);
    assert s[k..][..|s| - k - m] == s[k..|s| - m];
  }

  /** Around the stripped text there is only whitespace. */
  lemma StripSpaceAround(s: string)
    ensures var k, r := LeadingSpace(s), TrimEnd(TrimStart(s));
      k + |r| <= |s| && AllSpace(s[..k]) && AllSpace(s[k + |r|..])
  {
    var k := LeadingSpace(s);
    var m := TrailingSpace(s[k..]);
    StripSlice(s);
    SpacePrefix(s, k);
    SpaceSuffix(s[k..], m);
    SuffixOfSuffix(s, k, m);
  }

  /** The last `m` characters of a suffix of `s` are the last `m` of `s`. */
  lemma SuffixOfSuffix(s: string, k: nat, m: nat)
    requires k + m <= |s|
    ensures s[k..][|s| - k - m..] == s[|s| - m..]
  {
  }

  /** A run of whitespace opening `s` is `AllSpace`. */
  lemma SpacePrefix(s: string, k: nat)
    requires k <= |s| && forall i :: 0 <= i < k ==> IsSpace(s[i])
    ensures AllSpace(s[..k])
  {
    var lead := s[..k];
    forall i | 0 <= i < |lead| ensures IsSpace(lead[i]) {
      assert lead[i] == s[i];
    }
  }

  /** A run of whitespace closing `t` is `AllSpace`. */
  lemma SpaceSuffix(t: string, m: nat)
    requires m <= |t| && forall i :: |t| - m <= i < |t| ==> IsSpace(t[i])
    ensures AllSpace(t[|t| - m..])
  {
    var trail := t[|t| - m..];
    forall i | 0 <= i < |trail| ensures IsSpace(trail[i]) {
      assert trail[i] == t[|t| - m + i];
    }
  }

  /** The stripped text opens and closes with non-whitespace. */
  lemma StripEnds(s: string)
    ensures var r := TrimEnd(TrimStart(s)); r != [] ==> !IsSpace(r[0]) && !IsSpace(r[|r| - 1])
  {
    var k := LeadingSpace(s);
    var t := s[k..];
    var m := TrailingSpace(t);
    var r := TrimEnd(TrimStart(s));
    if r != [] {
      assert r == t[..|t| - m];
      assert r[0] == t[0] == s[k];
      assert r[|r| - 1] == t[|t| - m - 1];
    }
  }

  /** The stripped text is empty exactly when `s` is all whitespace. */
  lemma StripEmpty(s: string)
    ensures TrimEnd(TrimStart(s)) == [] <==> AllSpace(s)
  {
    var k := LeadingSpace(s);
    var t := s[k..];
    var m := TrailingSpace(t);
    if k < |s| {
      assert t[0] == s[k];
      assert !IsSpace(t[0]);
      assert m < |t|;
      assert !AllSpace(s) by { assert !IsSpace(s[k]); }
    } else {
      forall i | 0 <= i < |s| ensures IsSpace(s[i]) {
      }
    }
  }

  /** A non-whitespace first character survives, and a string with
      non-whitespace ends comes back whole. */
  lemma StripVisible(s: string)
    ensures s != [] && !IsSpace(s[0]) ==> TrimEnd(TrimStart(s)) != [] && TrimEnd(TrimStart(s))[0] == s[0]
    ensures s != [] && !IsSpace(s[0]) && !IsSpace(s[|s| - 1]) ==> TrimEnd(TrimStart(s)) == s
  {
    if s != [] && !IsSpace(s[0]) {
      assert LeadingSpace(s) == 0;
      assert TrimStart(s) == s;
      var m := TrailingSpace(s);
      assert m < |s|;
      assert TrimEnd(s)[0] == s[0];
      if !IsSpace(s[|s| - 1]) {
        assert m == 0;
      }
    }
  }

  /** Stripping twice is stripping once. */
  lemma StripIdempotent(s: string)
    ensures Strip(Strip(s)) == Strip(s)
  {
    var r := Strip(s);
    if r != [] {
      assert !IsSpace(r[0]) && !IsSpace(r[|r| - 1]);
    }
  }

  /** Stripping keeps only characters of `s`. */
  lemma StripAvoids(s: string, c: char)
    requires c !in s
    ensures c !in Strip(s)
  {
    var r := Strip(s);
    var k := LeadingSpace(s);
    forall i | 0 <= i < |r| ensures r[i] != c {
      assert r[i] == s[k + i];
    }
  }

  /** `s.split(sep)` for a one-character separator: never empty. */
  function Split(s: string, sep: char): (parts: seq<string>)
    ensures |parts| >= 1
  {
    if s == [] then [""]
    else
      var rest := Split(s[1..], sep);
      if s[0] == sep then [""] + rest else [[s[0]] + rest[0]] + rest[1..]
  }

  /** `sep.join(parts)` */
  function Join(sep: string, parts: seq<string>): string
  {
    if |parts| == 0 then ""
    else if |parts| == 1 then parts[0]
    else parts[0] + sep + Join(sep, parts[1..])
  }

  /** The first part opens the joined string and the last part closes it. */
  lemma {:induction false} JoinEnds(sep: string, parts: seq<string>)
    requires |parts| > 0
    ensures StartsWith(Join(sep, parts), parts[0]) && EndsWith(Join(sep, parts), parts[|parts| - 1])
  {
    if |parts| > 1 {
      JoinEnds(sep, parts[1..]);
    }
  }

  /** `s.startswith(prefix)` */
  predicate StartsWith(s: string, prefix: string) {
    |prefix| <= |s| && s[..|prefix|] == prefix
  }

  /** `s.endswith(suffix)` */
  predicate EndsWith(s: string, suffix: string) {
    |suffix| <= |s| && s[|s| - |suffix|..] == suffix
  }

  /** A concatenation opens with its first part and closes with its second. */
  lemma ConcatEnds(a: string, b: string)
    ensures StartsWith(a + b, a) && EndsWith(a + b, b)
  {
    assert (a + b)[..|a|] == a;
    assert (a + b)[|a|..] == b;
  }

  /** Splitting on a separator and joining the pieces back with it restores the string. */
  lemma {:induction false} JoinSplit(s: string, sep: char)
    ensures Join([sep], Split(s, sep)) == s
  {
    if s != [] {
      var rest := Split(s[1..], sep);
      JoinSplit(s[1..], sep);
      if s[0] == sep {
        assert ([""] + rest)[1..] == rest;
      } else if |rest| > 1 {
        assert ([[s[0]] + rest[0]] + rest[1..])[1..] == rest[1..];
      }
    }
  }

  /** A piece without the separator splits to itself. */
  lemma {:induction false} SplitWithoutSep(p: string, sep: char)
    requires sep !in p
    ensures Split(p, sep) == [p]
  {
    if p != [] {
      SplitWithoutSep(p[1..], sep);
      assert [p[0]] + p[1..] == p;
    }
  }

  /** Splitting stops at the first separator. */
  lemma {:induction false} SplitAtSep(p: string, sep: char, t: string)
    requires sep !in p
    ensures Split(p + [sep] + t, sep) == [p] + Split(t, sep)
  {
    var s := p + [sep] + t;
    if p == [] {
      assert s[1..] == t;
    } else {
      assert s[1..] == p[1..] + [sep] + t;
      SplitAtSep(p[1..], sep, t);
      assert [p[0]] + p[1..] == p;
    }
  }

  /** No piece of a split holds the separator. */
  lemma {:induction false} SplitAvoidsSep(s: string, sep: char)
    ensures forall i :: 0 <= i < |Split(s, sep)| ==> sep !in Split(s, sep)[i]
  {
    if s != [] {
      SplitAvoidsSep(s[1..], sep);
    }
  }

  /** A string that does not open with the separator opens its first piece. */
  lemma SplitFirst(s: string, sep: char)
    requires s != [] && s[0] != sep
    ensures Split(s, sep)[0] != [] && Split(s, sep)[0][0] == s[0]
  {
  }

  /** Joining pieces that hold no separator and splitting again gives the pieces back. */
  lemma {:induction false} SplitJoin(parts: seq<string>, sep: char)
    requires |parts| >= 1
    requires forall i :: 0 <= i < |parts| ==> sep !in parts[i]
    ensures Split(Join([sep], parts), sep) == parts
  {
    if |parts| == 1 {
      SplitWithoutSep(parts[0], sep);
    } else {
      SplitJoin(parts[1..], sep);
      assert Join([sep], parts) == parts[0] + [sep] + Join([sep], parts[1..]);
      SplitAtSep(parts[0], sep, Join([sep], parts[1..]));
      assert [parts[0]] + parts[1..] == parts;
    }
  }

  /** `c.lower()` for every character whose lower case is ASCII: the ASCII
      capitals and the KELVIN SIGN, which Python lowers to `k`. */
  function LowerChar(c: char): char {
    if 'A' <= c <= 'Z' then (c as int + 32) as char
    else if c == KelvinSign then 'k'
    else c
  }

  const KelvinSign: char := '\U{212A}'

  /** `s.lower()`, character by character. */
  function Lower(s: string): (r: string)
    ensures |r| == |s| && forall i :: 0 <= i < |s| ==> r[i] == LowerChar(s[i])
  {
    seq(|s|, i requires 0 <= i < |s| => LowerChar(s[i]))
  }

  /** A string with no upper-case ASCII letter and no KELVIN SIGN is its own
      lower case. */
  lemma LowerOfLowercase(s: string)
    requires forall i :: 0 <= i < |s| ==> !('A' <= s[i] <= 'Z') && s[i] != KelvinSign
    ensures Lower(s) == s
  {
  }

  /** `p` occurs in `s` starting at index `i`. */
  predicate OccursAt(s: string, p: string, i: int) {
    0 <= i && i + |p| <= |s| && s[i..i + |p|] == p
  }

  /** Python's `p in s` for strings. */
  predicate Contains(s: string, p: string) {
    exists i | 0 <= i <= |s| - |p| :: OccursAt(s, p, i)
  }

  /** A string shorter than `p` cannot contain it. */
  lemma NoOccurrenceInShort(x: string, p: string)
    requires |x| < |p|
    ensures !Contains(Lower(x), p)
  {
  }

  /** Neither half of `x + y` contains `p` (after lowering), and every window
      of `|p|` characters that straddles the joint holds a character outside
      `alphabet`, the characters of `p`: either the window reaches `y[k]`, or
      it reaches `x[j]`, or it would fit between them, which the length bound
      rules out. Then `x + y` does not contain `p` either. */
  lemma NoOccurrenceAcross(x: string, y: string, p: string, alphabet: set<char>, j: int, k: int)
    requires forall m :: 0 <= m < |p| ==> p[m] in alphabet
    requires -1 <= j < |x| && 0 <= k <= |y|
    requires j >= 0 ==> LowerChar(x[j]) !in alphabet
    requires k < |y| ==> LowerChar(y[k]) !in alphabet
    requires (k == 0 && |y| > 0) || |x| - j - 1 + k < |p|
    requires !Contains(Lower(x), p) && !Contains(Lower(y), p)
    ensures !Contains(Lower(x + y), p)
  {
    var l := Lower(x + y);
    forall i | 0 <= i <= |l| - |p| ensures !OccursAt(l, p, i) {
      if i + |p| <= |x| {
        LowerWindowLeft(x, y, i, |p|);
        assert !OccursAt(Lower(x), p, i);
      } else if i >= |x| {
        LowerWindowRight(x, y, i, |p|);
        assert !OccursAt(Lower(y), p, i - |x|);
      } else if i <= j {
        assert l[j] == LowerChar(x[j]);
        AlienBlocks(l, p, alphabet, i, j);
      } else {
        assert l[|x| + k] == LowerChar(y[k]);
        AlienBlocks(l, p, alphabet, i, |x| + k);
      }
    }
  }

  /** A window holding a character outside the alphabet of `p` is not `p`. */
  lemma AlienBlocks(l: string, p: string, alphabet: set<char>, i: int, at: int)
    requires forall m :: 0 <= m < |p| ==> p[m] in alphabet
    requires 0 <= i <= at < i + |p| <= |l| && l[at] !in alphabet
    ensures !OccursAt(l, p, i)
  {
    assert l[i..i + |p|][at - i] == l[at];
  }

  /** A window inside the first half reads the same in the lowered whole. */
  lemma LowerWindowLeft(x: string, y: string, i: nat, n: nat)
    requires i + n <= |x|
    ensures Lower(x + y)[i..i + n] == Lower(x)[i..i + n]
  {
  }

  /** A window inside the second half reads the same in the lowered whole. */
  lemma LowerWindowRight(x: string, y: string, i: nat, n: nat)
    requires |x| <= i && i + n <= |x| + |y|
    ensures Lower(x + y)[i..i + n] == Lower(y)[i - |x|..i - |x| + n]
  {
  }

  /** Python truthiness of an optional string: present and non-empty. */
  predicate Truthy(s: Option<string>) {
    s.Some? && s.value != ""
  }

  /** `os.getenv(name)` over a snapshot of the process environment. */
  function GetEnv(env: map<string, string>, name: string): Option<string>
  {
    if name in env then Some(env[name]) else None
  }
}
