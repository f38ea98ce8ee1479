/**
 * String helpers that mirror the Python `str` methods the proxy code relies on:
 * `strip`, `startswith`, `in`, `find`, `split`, `join`, `lower` and decimal rendering
 * of integers. Strings are sequences of characters. Whitespace is Python's full set;
 * digits are the ASCII ones; lower-casing is exact for comparisons with ASCII words.
 */
module Text {
  import opened Wrappers

  /**
   * Whitespace as `str.strip()` and the regex class `\s` see it: the ASCII blanks and
   * controls 0x09-0x0D and 0x1C-0x1F, NEL, no-break space and the Unicode space separators.
   */
  predicate IsSpace(c: char) {
    ('\U{0009}' <= c <= '\U{000D}') || ('\U{001C}' <= c <= '\U{0020}') || c == '\U{0085}' || c == '\U{00A0}'
    || c == '\U{1680}' || ('\U{2000}' <= c <= '\U{200A}') || c == '\U{2028}' || c == '\U{2029}'
    || c == '\U{202F}' || c == '\U{205F}' || c == '\U{3000}'
  }

  predicate IsDigit(c: char) { '0' <= c <= '9' }

  predicate AllDigits(s: string) { forall i :: 0 <= i < |s| ==> IsDigit(s[i]) }

  /** `s.lstrip()` */
  function StripLeft(s: string): string {
    if s != "" && IsSpace(s[0]) then StripLeft(s[1..]) else s
  }

  /** `lstrip` removes a run of leading whitespace and nothing else. */
  lemma {:induction false} StripLeftSpec(s: string)
    ensures |StripLeft(s)| <= |s| && StripLeft(s) == s[|s| - |StripLeft(s)|..]
    ensures StripLeft(s) != "" ==> !IsSpace(StripLeft(s)[0])
    ensures forall i :: 0 <= i < |s| - |StripLeft(s)| ==> IsSpace(s[i])
  {
    if s != "" && IsSpace(s[0]) {
      var t := s[1..];
      StripLeftSpec(t);
      assert StripLeft(s) == StripLeft(t);
      forall i | 0 <= i < |s| - |StripLeft(s)| ensures IsSpace(s[i]) {
        if i > 0 {
          assert s[i] == t[i - 1];
        }
      }
      assert s[|s| - |StripLeft(s)|..] == t[|t| - |StripLeft(t)|..];
    }
  }

  /** `s.rstrip()` */
  function StripRight(s: string): string {
    if s != "" && IsSpace(s[|s| - 1]) then StripRight(s[..|s| - 1]) else s
  }

  /** `rstrip` removes a run of trailing whitespace and nothing else. */
  lemma {:induction false} StripRightSpec(s: string)
    ensures |StripRight(s)| <= |s| && StripRight(s) == s[..|StripRight(s)|]
    ensures StripRight(s) != "" ==> !IsSpace(StripRight(s)[|StripRight(s)| - 1])
    ensures forall i :: |StripRight(s)| <= i < |s| ==> IsSpace(s[i])
  {
    if s != "" && IsSpace(s[|s| - 1]) {
      StripRightSpec(s[..|s| - 1]);
    }
  }

  /** `s.strip()` */
  function Strip(s: string): string {
    StripRight(StripLeft(s))
  }

  /** A string that `strip()` leaves alone: it neither starts nor ends with whitespace. */
  predicate Trimmed(s: string) {
    s == "" || (!IsSpace(s[0]) && !IsSpace(s[|s| - 1]))
  }

  lemma StripTrimmed(s: string)
    requires Trimmed(s)
    ensures Strip(s) == s
  {
  }

  /** `strip()` leaves a trimmed text. */
  lemma StripIsTrimmed(s: string)
    ensures Trimmed(Strip(s))
  {
    var l := StripLeft(s);
    var r := StripRight(l);
    StripLeftSpec(s);
    StripRightSpec(l);
    if r != "" {
      assert r[0] == l[0];
    }
  }

  /** Every character of `s.strip()` is a character of `s`. */
  lemma StripWithin(s: string, c: char)
    requires c in Strip(s)
    ensures c in s
  {
    var l := StripLeft(s);
    var r := StripRight(l);
    StripLeftSpec(s);
    StripRightSpec(l);
    var k :| 0 <= k < |r| && r[k] == c;
    assert l[k] == c;
    assert s[|s| - |l| + k] == c;
  }

  /** Stripping a trimmed text followed by a newline gives back the text. */
  lemma StripTrailingNewline(s: string)
    requires Trimmed(s)
    ensures Strip(s + "\n") == s
  {
    var t := s + "\n";
    assert t[..|t| - 1] == s;
    if s == "" {
      assert t[1..] == "";
      assert StripLeft(t) == "";
    } else {
      assert t[0] == s[0];
      assert StripLeft(t) == t;
      assert StripRight(t) == StripRight(s);
    }
  }

  /** Stripping a trimmed text preceded by a space gives back the text. */
  lemma StripLeadingSpace(s: string)
    requires Trimmed(s)
    ensures Strip(" " + s) == s
  {
    var t := " " + s;
    assert t[1..] == s;
    assert StripLeft(t) == StripLeft(s);
    if s != "" {
      assert StripLeft(s) == s;
    }
    StripTrimmed(s);
  }

  /**
   * A key that neither starts nor ends with whitespace is still a prefix of `key + v` once
   * stripped, whatever `v` is.
   */
  lemma StripKeepsPrefix(key: string, v: string)
    requires key != "" && !IsSpace(key[0]) && !IsSpace(key[|key| - 1])
    ensures key <= Strip(key + v)
  {
    var t := key + v;
    assert t[0] == key[0];
    assert StripLeft(t) == t;
    StripRightSpec(t);
    var r := StripRight(t);
    assert t[|key| - 1] == key[|key| - 1];
    assert |r| >= |key|;
    assert r[..|key|] == t[..|key|] == key;
  }

  /** First index of the character `c` in `s`, as `s.find(c)`. */
  function IndexOf(s: string, c: char): (r: Option<nat>)
    ensures r.None? <==> c !in s
    ensures r.Some? ==> r.value < |s| && s[r.value] == c && c !in s[..r.value]
  {
    if s == "" then None
    else if s[0] == c then Some(0)
    else match IndexOf(s[1..], c)
      case None => None
      case Some(i) => assert s[..i + 1] == [s[0]] + s[1..][..i]; Some(i + 1)
  }

  lemma IndexOfAt(a: string, c: char, b: string)
    requires c !in a
    ensures IndexOf(a + [c] + b, c) == Some(|a|)
  {
    var s := a + [c] + b;
    assert s[|a|] == c;
    assert s[..|a|] == a;
  }

  /** Splitting at the first separator. */
  lemma SplitAt(a: string, c: char, b: string)
    requires c !in a
    ensures Split(a + [c] + b, c) == [a] + Split(b, c)
  {
    var s := a + [c] + b;
    IndexOfAt(a, c, b);
    assert s[..|a|] == a;
    assert s[|a| + 1..] == b;
  }
  /** Three separator-free pieces, joined by the separator, split back into those three. */
  lemma SplitThree(a: string, b: string, c: string, sep: char)
    requires sep !in a && sep !in b && sep !in c
    ensures Split(a + [sep] + (b + [sep] + c), sep) == [a, b, c]
  {
    SplitAt(a, sep, b + [sep] + c);
    SplitAt(b, sep, c);
    assert IndexOf(c, sep) == None;
  }


  /** `s.split(c)` for a one-character separator. */
  function Split(s: string, c: char): (r: seq<string>)
    ensures |r| >= 1
    decreases |s|
  {
    match IndexOf(s, c)
    case None => [s]
    case Some(i) => [s[..i]] + Split(s[i + 1..], c)
  }

  /** No piece of a split holds the separator. */
  lemma {:induction false} SplitPieces(s: string, c: char)
    ensures forall i :: 0 <= i < |Split(s, c)| ==> c !in Split(s, c)[i]
    decreases |s|
  {
    match IndexOf(s, c)
    case None =>
    case Some(i) => SplitPieces(s[i + 1..], c);
  }

  /** `sep.join(xs)` */
  function Join(xs: seq<string>, sep: string): string {
    if |xs| == 0 then ""
    else if |xs| == 1 then xs[0]
    else xs[0] + sep + Join(xs[1..], sep)
  }

  /** A character found neither in the pieces nor in the separator is not in the joined text. */
  lemma {:induction false} JoinExcludes(xs: seq<string>, sep: string, c: char)
    requires c !in sep
    requires forall i :: 0 <= i < |xs| ==> c !in xs[i]
    ensures c !in Join(xs, sep)
  {
    if |xs| > 1 {
      JoinExcludes(xs[1..], sep, c);
    }
  }

  /** Splitting on `c` undoes joining with `c`, when no piece contains `c`. */
  lemma {:induction false} SplitJoin(xs: seq<string>, c: char)
    requires |xs| >= 1
    requires forall i :: 0 <= i < |xs| ==> c !in xs[i]
    ensures Split(Join(xs, [c]), c) == xs
  {
    if |xs| == 1 {
      assert c !in xs[0];
    } else {
      var rest := Join(xs[1..], [c]);
      assert c !in xs[0];
      SplitAt(xs[0], c, rest);
      SplitJoin(xs[1..], c);
      assert xs == [xs[0]] + xs[1..];
    }
  }

  /** Joining the pieces of a split with the separator gives back the text. */
  lemma {:induction false} JoinSplit(s: string, c: char)
    ensures Join(Split(s, c), [c]) == s
    decreases |s|
  {
    match IndexOf(s, c)
    case None =>
    case Some(i) =>
      JoinSplit(s[i + 1..], c);
      var r := Split(s[i + 1..], c);
      assert Split(s, c)[1..] == r;
      assert s == s[..i] + [c] + s[i + 1..];
  }

  /** Does `p` occur in `s` at index `i`? */
  predicate OccursAt(s: string, p: string, i: nat) {
    i + |p| <= |s| && s[i..i + |p|] == p
  }

  /** First index of the substring `p` in `s`, as `s.find(p)`. */
  function Find(s: string, p: string): (r: Option<nat>)
    ensures r.Some? ==> OccursAt(s, p, r.value) && forall j :: 0 <= j < r.value ==> !OccursAt(s, p, j)
    ensures r.None? ==> forall j :: 0 <= j <= |s| ==> !OccursAt(s, p, j)
  {
    if p <= s then Some(0)
    else if s == "" then None
    else match Find(s[1..], p)
      case None =>
        assert forall j :: 1 <= j <= |s| ==> (OccursAt(s, p, j) <==> OccursAt(s[1..], p, j - 1));
        None
      case Some(i) =>
        assert forall j :: 1 <= j <= |s| ==> (OccursAt(s, p, j) <==> OccursAt(s[1..], p, j - 1));
        Some(i + 1)
  }

  /** `p in s` for strings. */
  predicate Contains(s: string, p: string) {
    Find(s, p).Some?
  }

  lemma ContainsAt(s: string, p: string, i: nat)
    requires OccursAt(s, p, i)
    ensures Contains(s, p)
  {
  }

  /** A string contains its own prefixes. */
  lemma ContainsStart(p: string, rest: string)
    ensures Contains(p + rest, p)
  {
    assert (p + rest)[..|p|] == p;
    ContainsAt(p + rest, p, 0);
  }

  /** A string that contains a longer needle contains its prefix too. */
  lemma ContainsPrefixOfNeedle(s: string, p: string, q: string)
    requires Contains(s, p + q)
    ensures Contains(s, p)
  {
    var i := Find(s, p + q).value;
    assert s[i..i + |p|] == (p + q)[..|p|];
    ContainsAt(s, p, i);
  }

  /** A string that contains a needle contains every suffix of it. */
  lemma ContainsSuffixOfNeedle(s: string, p: string, q: string)
    requires Contains(s, p + q)
    ensures Contains(s, q)
  {
    var i := Find(s, p + q).value;
    assert s[i + |p|..i + |p| + |q|] == (p + q)[|p|..];
    ContainsAt(s, q, i + |p|);
  }

  /** A needle holding a character the string lacks does not occur in it. */
  lemma NotContainsChar(s: string, p: string, c: char)
    requires c in p && c !in s
    ensures !Contains(s, p)
  {
    var k :| 0 <= k < |p| && p[k] == c;
    forall i | 0 <= i <= |s|
      ensures !OccursAt(s, p, i)
    {
      if i + |p| <= |s| {
        assert s[i..i + |p|][k] == s[i + k];
      }
    }
  }

  /** A needle that does not end in `c` occurs in `s + [c]` only if it occurs in `s`. */
  lemma ContainsBeforeChar(s: string, c: char, p: string)
    requires Contains(s + [c], p)
    requires p == "" || p[|p| - 1] != c
    ensures Contains(s, p)
  {
    var t := s + [c];
    var i := Find(t, p).value;
    if p != "" {
      assert t[i..i + |p|][|p| - 1] == t[i + |p| - 1];
    }
    assert t[i..i + |p|] == s[i..i + |p|];
    ContainsAt(s, p, i);
  }

  /** A string that lacks `p` lacks it in every suffix too. */
  lemma NotContainsInSuffix(s: string, k: nat, p: string)
    requires k <= |s| && !Contains(s, p)
    ensures !Contains(s[k..], p)
  {
    var t := s[k..];
    forall j | 0 <= j <= |t|
      ensures !OccursAt(t, p, j)
    {
      if j + |p| <= |t| {
        assert t[j..j + |p|] == s[k + j..k + j + |p|];
        assert !OccursAt(s, p, k + j);
      }
    }
  }

  /** A string that lacks `p` lacks every needle that starts with `p`. */
  lemma NotContainsExtended(s: string, p: string, q: string)
    requires !Contains(s, p)
    ensures !Contains(s, p + q)
  {
    forall i | 0 <= i <= |s|
      ensures !OccursAt(s, p + q, i)
    {
      if i + |p + q| <= |s| {
        assert s[i..i + |p + q|][..|p|] == s[i..i + |p|];
        assert !OccursAt(s, p, i);
      }
    }
  }

  /** A needle that does not end in `c` and is missing from `s` is missing from `s + [c]` too. */
  lemma NotContainsBeforeChar(s: string, c: char, p: string)
    requires !Contains(s, p)
    requires p == "" || p[|p| - 1] != c
    ensures !Contains(s + [c], p)
  {
    var t := s + [c];
    assert p != "" by {
      assert OccursAt(s, "", 0);
    }
    forall i | 0 <= i <= |t|
      ensures !OccursAt(t, p, i)
    {
      if i + |p| <= |s| {
        assert t[i..i + |p|] == s[i..i + |p|];
        assert !OccursAt(s, p, i);
      } else if i + |p| == |t| {
        assert t[i..i + |p|][|p| - 1] == c;
      }
    }
  }

  /** No proper suffix of `p` is also a prefix of it, so two occurrences never overlap. */
  predicate BorderFree(p: string) {
    forall k :: 0 < k < |p| ==> !(p[k..] <= p)
  }

  /** `mid` occurs at index `j` of `s` and `tail` occurs somewhere after it. */
  predicate MatchAt(s: string, mid: string, tail: string, j: nat) {
    OccursAt(s, mid, j) && Contains(s[j + |mid|..], tail)
  }

  /**
   * The last index `i < k` at which `mid` occurs in `s` and is followed, somewhere later,
   * by `tail`. This is where a greedy `(.*)` in front of `mid` stops.
   */
  function LastWhere(s: string, mid: string, tail: string, k: nat): (r: Option<nat>)
    requires k <= |s| + 1
    ensures r.Some? ==> r.value < k && MatchAt(s, mid, tail, r.value)
    ensures r.Some? ==> forall j :: r.value < j < k ==> !MatchAt(s, mid, tail, j)
    ensures r.None? ==> forall j :: 0 <= j < k ==> !MatchAt(s, mid, tail, j)
  {
    if k == 0 then None
    else if MatchAt(s, mid, tail, k - 1) then Some(k - 1)
    else LastWhere(s, mid, tail, k - 1)
  }

  /** The last match before `|s| + 1` is at `k` when `k` matches and nothing after it does. */
  lemma LastWhereIs(s: string, mid: string, tail: string, k: nat)
    requires MatchAt(s, mid, tail, k)
    requires forall j :: k < j <= |s| ==> !MatchAt(s, mid, tail, j)
    ensures LastWhere(s, mid, tail, |s| + 1) == Some(k)
  {
  }

  /** `s.split(sep)` for a non-empty separator string. */
  function SplitOn(s: string, sep: string): (r: seq<string>)
    requires sep != ""
    ensures |r| >= 1
    decreases |s|
  {
    match Find(s, sep)
    case None => [s]
    case Some(i) => [s[..i]] + SplitOn(s[i + |sep|..], sep)
  }

  /** `s[n:]` in Python: empty when `n` is past the end. */
  function Drop(s: string, n: nat): string {
    if n <= |s| then s[n..] else ""
  }

  /**
   * `c.lower()` where the result can hold an ASCII letter: A-Z, the Kelvin sign (to 'k') and
   * the dotted capital I (to 'i' and a combining dot). Other characters are kept.
   */
  function LowerChar(c: char): (r: string)
    ensures 1 <= |r| <= 2
  {
    if 'A' <= c <= 'Z' then [(c as int + 32) as char]
    else if c == '\U{212A}' then "k"
    else if c == '\U{0130}' then "i\U{0307}"
    else [c]
  }

  /** `s.lower()` */
  function Lower(s: string): (r: string)
    ensures |s| <= |r| <= 2 * |s|
  {
    if s == "" then "" else LowerChar(s[0]) + Lower(s[1..])
  }

  /** `c` lower-cases to the letter `l`. */
  predicate LowersTo(c: char, l: char) {
    c == l || ('A' <= c <= 'Z' && c as int + 32 == l as int) || (l == 'k' && c == '\U{212A}')
  }

  /** `s` lower-cases letter by letter to `w`. */
  predicate LowerMatches(s: string, w: string) {
    |s| == |w| && forall i :: 0 <= i < |s| ==> LowersTo(s[i], w[i])
  }

  lemma LowerMatchesCons(s: string, w: string)
    requires s != "" && w != ""
    ensures LowerMatches(s, w) <==> LowersTo(s[0], w[0]) && LowerMatches(s[1..], w[1..])
  {
    if LowersTo(s[0], w[0]) && LowerMatches(s[1..], w[1..]) {
      forall i | 0 <= i < |s| ensures LowersTo(s[i], w[i]) {
        if i > 0 { assert LowersTo(s[1..][i - 1], w[1..][i - 1]); }
      }
    }
  }

  lemma LowerCharWord(c: char, l: char)
    requires 'a' <= l <= 'z'
    ensures LowerChar(c) == [l] <==> LowersTo(c, l)
    ensures c == '\U{0130}' ==> !LowersTo(c, l) && |LowerChar(c)| == 2 && !('a' <= LowerChar(c)[1] <= 'z')
  {
  }

  /** The texts whose `lower()` is a given word of ASCII lower-case letters: one variant per letter. */
  lemma {:induction false} LowerIsWord(s: string, w: string)
    requires forall i :: 0 <= i < |w| ==> 'a' <= w[i] <= 'z'
    ensures Lower(s) == w <==> LowerMatches(s, w)
    decreases |s|
  {
    if s != "" && w != "" {
      LowerIsWord(s[1..], w[1..]);
      LowerIsWordStep(s, w);
    }
  }

  /** One letter more: the first characters must match, and so must the rest. */
  lemma LowerIsWordStep(s: string, w: string)
    requires s != "" && w != "" && forall i :: 0 <= i < |w| ==> 'a' <= w[i] <= 'z'
    requires Lower(s[1..]) == w[1..] <==> LowerMatches(s[1..], w[1..])
    ensures Lower(s) == w <==> LowerMatches(s, w)
  {
    LowerMatchesCons(s, w);
    LowerCharWord(s[0], w[0]);
    var head := LowerChar(s[0]);
    assert Lower(s) == head + Lower(s[1..]);
    if s[0] != '\U{0130}' {
      assert w == [w[0]] + w[1..];
    }
  }

  function DigitChar(d: nat): char
    requires d < 10
  {
    "0123456789"[d]
  }

  /** `str(n)` for a natural number: its decimal digits, without leading zeros. */
  function NatToString(n: nat): (r: string)
    ensures r != "" && AllDigits(r)
  {
    if n < 10 then [DigitChar(n)] else NatToString(n / 10) + [DigitChar(n % 10)]
  }

  /** Length of the longest prefix of `s` whose characters all satisfy `p` (a greedy `[…]+` run). */
  function Span(s: string, p: char -> bool): (n: nat)
    ensures n <= |s|
    ensures forall i :: 0 <= i < n ==> p(s[i])
    ensures n < |s| ==> !p(s[n])
    decreases |s|
  {
    if s == [] || !p(s[0]) then 0 else 1 + Span(s[1..], p)
  }

  /** A run that stops where the first character `p` refuses begins. */
  lemma SpanConcat(a: string, b: string, p: char -> bool)
    requires forall i :: 0 <= i < |a| ==> p(a[i])
    requires b == [] || !p(b[0])
    ensures Span(a + b, p) == |a|
  {
    assert forall i :: 0 <= i < |a| ==> (a + b)[i] == a[i];
    assert b != [] ==> (a + b)[|a|] == b[0];
  }
}
