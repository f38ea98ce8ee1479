/**
 * Text files as the proxy code reads and writes them: a file opened in text mode reads
 * with universal newlines ("\r\n" and "\r" become "\n"), `readlines()` splits that text
 * into lines that keep their '\n', writing the lines back concatenates them (a '\n' is
 * written as it is), and the removal loops keep exactly the lines that no pattern matches.
 */
module Lines {
  import opened Wrappers
  import opened Text

  /**
   * The text a file opened in text mode reads as (universal newlines): "\r\n" and a lone
   * "\r" both become "\n".
   */
  function Translate(s: string): (r: string)
    decreases |s|
  {
    if s == "" then ""
    else if s[0] == '\r' then "\n" + Translate(if |s| > 1 && s[1] == '\n' then s[2..] else s[1..])
    else [s[0]] + Translate(s[1..])
  }

  /** No '\r' is left after reading, and only the empty text reads as empty. */
  lemma {:induction false} TranslateNoCr(s: string)
    ensures '\r' !in Translate(s)
    ensures Translate(s) == "" <==> s == ""
    decreases |s|
  {
    if s != "" {
      TranslateNoCr(if s[0] == '\r' && |s| > 1 && s[1] == '\n' then s[2..] else s[1..]);
    }
  }

  /** A text without '\r' reads as it is. */
  lemma {:induction false} TranslateKeeps(s: string)
    requires '\r' !in s
    ensures Translate(s) == s
    decreases |s|
  {
    if s != "" {
      TranslateKeeps(s[1..]);
    }
  }

  /** A "\r\n" at the start reads as one '\n'. */
  lemma TranslateCrLf(t: string)
    requires t != "" && t[0] == '\n'
    ensures Translate(['\r'] + t) == "\n" + Translate(t[1..])
  {
    var s := ['\r'] + t;
    assert s[0] == '\r' && s[1] == '\n' && s[2..] == t[1..];
  }

  /** A lone '\r' at the start reads as '\n'. */
  lemma TranslateCr(t: string)
    requires t == "" || t[0] != '\n'
    ensures Translate(['\r'] + t) == "\n" + Translate(t)
  {
    var s := ['\r'] + t;
    assert s[0] == '\r' && s[1..] == t;
  }

  /** Any other character at the start reads as itself. */
  lemma TranslateChar(c: char, t: string)
    requires c != '\r'
    ensures Translate([c] + t) == [c] + Translate(t)
  {
    var s := [c] + t;
    assert s[0] == c && s[1..] == t;
  }

  /** Reading a text in two parts reads it whole, unless the parts split a "\r\n". */
  lemma {:induction false} TranslateAppend(a: string, b: string)
    requires !(a != "" && a[|a| - 1] == '\r' && b != "" && b[0] == '\n')
    ensures Translate(a + b) == Translate(a) + Translate(b)
    decreases |a|
  {
    if a != "" {
      var c, t := a[0], a[1..];
      assert a == [c] + t && a + b == [c] + (t + b);
      if c == '\r' && t != "" && t[0] == '\n' {
        assert t[1..] != "" ==> t[1..][|t[1..]| - 1] == a[|a| - 1];
        TranslateAppend(t[1..], b);
        CrLfStep(t, b);
      } else if c == '\r' && t == "" {
        assert a == "\r" && a + b == ['\r'] + b;
        LoneCrStep(b);
      } else {
        assert t != "" ==> t[|t| - 1] == a[|a| - 1];
        TranslateAppend(t, b);
        CharStep(c, t, b);
      }
    } else {
      assert a + b == b;
    }
  }

  lemma CrLfStep(t: string, b: string)
    requires t != "" && t[0] == '\n'
    requires Translate(t[1..] + b) == Translate(t[1..]) + Translate(b)
    ensures Translate(['\r'] + (t + b)) == Translate(['\r'] + t) + Translate(b)
  {
    var s := t + b;
    assert s[0] == '\n' && s[1..] == t[1..] + b;
    TranslateCrLf(t);
    TranslateCrLf(s);
    Assoc("\n", Translate(t[1..]), Translate(b));
  }

  lemma LoneCrStep(b: string)
    requires b == "" || b[0] != '\n'
    ensures Translate(['\r'] + b) == Translate("\r") + Translate(b)
  {
    TranslateCr("");
    assert ['\r'] + "" == "\r";
    TranslateCr(b);
  }

  lemma CharStep(c: char, t: string, b: string)
    requires !(c == '\r' && (t == "" || t[0] == '\n'))
    requires Translate(t + b) == Translate(t) + Translate(b)
    ensures Translate([c] + (t + b)) == Translate([c] + t) + Translate(b)
  {
    if c == '\r' {
      assert (t + b)[0] == t[0];
      TranslateCr(t);
      TranslateCr(t + b);
      Assoc("\n", Translate(t), Translate(b));
    } else {
      TranslateChar(c, t);
      TranslateChar(c, t + b);
      Assoc([c], Translate(t), Translate(b));
    }
  }

  /** Concatenation is associative. */
  lemma Assoc<T>(x: seq<T>, y: seq<T>, z: seq<T>)
    ensures x + (y + z) == (x + y) + z
  {
  }

  /** A text ending in '\n' or '\r' (or empty) is exactly one that reads as whole lines. */
  lemma {:induction false} TranslateTerminated(s: string)
    ensures Terminated(Translate(s)) <==> s == "" || s[|s| - 1] == '\n' || s[|s| - 1] == '\r'
    decreases |s|
  {
    if s != "" {
      var rest := if s[0] == '\r' && |s| > 1 && s[1] == '\n' then s[2..] else s[1..];
      TranslateTerminated(rest);
      if rest != "" {
        assert rest[|rest| - 1] == s[|s| - 1];
      }
    }
  }

  /** `f.readlines()` on a file opened in text mode. */
  function FileLines(s: string): seq<string> {
    ReadLines(Translate(s))
  }

  /** A text without '\r' reads back as the lines it holds. */
  lemma FileLinesPlain(x: string)
    requires '\r' !in x
    ensures FileLines(x) == ReadLines(x)
  {
    TranslateKeeps(x);
  }

  /** Writing back what `readlines()` read reproduces the file, its line ends translated. */
  lemma ConcatFileLines(s: string)
    ensures Concat(FileLines(s)) == Translate(s)
  {
    ConcatReadLines(Translate(s));
  }

  /** A character is in none of the lines exactly when it is not in their concatenation. */
  lemma {:induction false} ConcatExcludes(ls: seq<string>, c: char)
    ensures c !in Concat(ls) <==> forall i :: 0 <= i < |ls| ==> c !in ls[i]
  {
    if ls != [] {
      ConcatExcludes(ls[1..], c);
      assert forall i :: 1 <= i < |ls| ==> ls[i] == ls[1..][i - 1];
    }
  }

  /** Splitting text into lines (`str.splitlines(keepends=True)` on text with '\n' ends only). */
  function ReadLines(s: string): seq<string>
    decreases |s|
  {
    if s == "" then []
    else match IndexOf(s, '\n')
      case None => [s]
      case Some(i) => [s[..i + 1]] + ReadLines(s[i + 1..])
  }

  /** Writing the lines one after another. */
  function Concat(ls: seq<string>): string {
    if ls == [] then "" else ls[0] + Concat(ls[1..])
  }

  /** Empty, or ending in '\n': whatever is appended starts on a line of its own. */
  predicate Terminated(s: string) {
    s == "" || s[|s| - 1] == '\n'
  }

  /** One line as `readlines()` yields it: not empty, and '\n' at most as its last character. */
  predicate IsLine(l: string) {
    l != "" && '\n' !in l[..|l| - 1]
  }

  /** A list of lines as `readlines()` yields it: only the last may lack its '\n'. */
  predicate LinesShape(ls: seq<string>) {
    forall i :: 0 <= i < |ls| ==> IsLine(ls[i]) && (i < |ls| - 1 ==> Terminated(ls[i]))
  }

  predicate AllTerminated(ls: seq<string>) {
    forall i :: 0 <= i < |ls| ==> Terminated(ls[i])
  }

  lemma {:induction false} ConcatAppend(a: seq<string>, b: seq<string>)
    ensures Concat(a + b) == Concat(a) + Concat(b)
  {
    if a == [] {
      assert a + b == b;
    } else {
      assert (a + b)[1..] == a[1..] + b;
      ConcatAppend(a[1..], b);
    }
  }

  /** Writing back what `readlines()` read reproduces the file. */
  lemma {:induction false} ConcatReadLines(s: string)
    ensures Concat(ReadLines(s)) == s
    decreases |s|
  {
    if s != "" {
      match IndexOf(s, '\n')
      case None =>
      case Some(i) =>
        ConcatReadLines(s[i + 1..]);
        assert s == s[..i + 1] + s[i + 1..];
    }
  }

  /** `readlines()` always yields a well-shaped list of lines. */
  lemma {:induction false} ReadLinesShape(s: string)
    ensures LinesShape(ReadLines(s))
    decreases |s|
  {
    if s != "" {
      match IndexOf(s, '\n')
      case None =>
      case Some(i) =>
        ReadLinesShape(s[i + 1..]);
        assert s[..i + 1][..i] == s[..i];
    }
  }

  /** The lines of a terminated file are all terminated. */
  lemma {:induction false} ReadLinesTerminated(s: string)
    requires Terminated(s)
    ensures AllTerminated(ReadLines(s))
    decreases |s|
  {
    if s != "" {
      match IndexOf(s, '\n')
      case None =>
      case Some(i) =>
        assert s[i + 1..] == "" || s[i + 1..][|s[i + 1..]| - 1] == s[|s| - 1];
        ReadLinesTerminated(s[i + 1..]);
    }
  }

  /** Concatenating terminated lines gives a terminated text. */
  lemma {:induction false} ConcatTerminated(ls: seq<string>)
    requires AllTerminated(ls)
    ensures Terminated(Concat(ls))
  {
    if ls != [] {
      ConcatTerminated(ls[1..]);
      if Concat(ls[1..]) == "" {
        assert Concat(ls) == ls[0] + "";
      }
    }
  }

  /** A terminated line in front of a text is read back as the first line. */
  /** The last character of joined lines is the last character of the last line. */
  lemma ConcatLast(ls: seq<string>)
    requires ls != [] && ls[|ls| - 1] != ""
    ensures Concat(ls) != "" && Concat(ls)[|Concat(ls)| - 1] == ls[|ls| - 1][|ls[|ls| - 1]| - 1]
  {
    var n := |ls|;
    assert ls == ls[..n - 1] + [ls[n - 1]];
    ConcatAppend(ls[..n - 1], [ls[n - 1]]);
    assert Concat([ls[n - 1]]) == ls[n - 1] + Concat([]);
  }

  /** A text has lines exactly when it is not empty, and then it ends as its last line does. */
  lemma LastLineEnds(s: string)
    ensures ReadLines(s) == [] <==> s == ""
    ensures ReadLines(s) != [] ==> var ls := ReadLines(s);
      ls[|ls| - 1] != "" && ls[|ls| - 1][|ls[|ls| - 1]| - 1] == s[|s| - 1]
  {
    ConcatReadLines(s);
    var ls := ReadLines(s);
    if ls != [] {
      ReadLinesShape(s);
      ConcatLast(ls);
    }
  }

  /** Ending the last line of a list of lines with '\n' keeps it a list of lines. */
  lemma EndLastLine(ls: seq<string>)
    requires LinesShape(ls) && ls != [] && !Terminated(ls[|ls| - 1])
    ensures LinesShape(ls[..|ls| - 1] + [ls[|ls| - 1] + "\n"])
  {
    var n := |ls|;
    var last := ls[n - 1];
    var ls' := ls[..n - 1] + [last + "\n"];
    assert '\n' !in last by {
      assert last == last[..|last| - 1] + [last[|last| - 1]];
    }
    forall i | 0 <= i < |ls'|
      ensures IsLine(ls'[i]) && (i < |ls'| - 1 ==> Terminated(ls'[i]))
    {
      if i == n - 1 {
        assert ls'[i][..|ls'[i]| - 1] == last;
      } else {
        assert ls'[i] == ls[i];
      }
    }
  }

  /** Extending the last line by `t` extends the joined text by `t`. */
  lemma ConcatExtendLast(ls: seq<string>, t: string)
    requires ls != []
    ensures Concat(ls[..|ls| - 1] + [ls[|ls| - 1] + t]) == Concat(ls) + t
  {
    var n := |ls|;
    var last := ls[n - 1];
    var front := ls[..n - 1];
    assert ls == front + [last];
    ConcatAppend(front, [last]);
    ConcatAppend(front, [last + t]);
    ConcatOne(last);
    ConcatOne(last + t);
    Assoc(Concat(front), last, t);
  }

  lemma ConcatOne(l: string)
    ensures Concat([l]) == l
  {
    assert [l][1..] == [];
  }

  /** A newline added to a text whose last line lacks one ends that line and adds none. */
  lemma ReadLinesEndLine(s: string)
    requires !Terminated(s)
    ensures var ls := ReadLines(s);
      ls != [] && ReadLines(s + "\n") == ls[..|ls| - 1] + [ls[|ls| - 1] + "\n"]
  {
    var ls := ReadLines(s);
    ReadLinesShape(s);
    ConcatReadLines(s);
    ConcatLast(ls);
    EndLastLine(ls);
    ConcatExtendLast(ls, "\n");
    ReadLinesConcat(ls[..|ls| - 1] + [ls[|ls| - 1] + "\n"]);
  }

  lemma ReadLinesCons(l: string, rest: string)
    requires IsLine(l) && Terminated(l)
    ensures ReadLines(l + rest) == [l] + ReadLines(rest)
  {
    var body := l[..|l| - 1];
    assert l == body + "\n";
    IndexOfAt(body, '\n', rest);
    assert l + rest == body + ['\n'] + rest;
    assert (l + rest)[..|body| + 1] == l;
    assert (l + rest)[|body| + 1..] == rest;
  }

  /** A single line without '\n' is read back as itself. */
  lemma ReadLinesSingle(l: string)
    requires IsLine(l) && !Terminated(l)
    ensures ReadLines(l) == [l]
  {
    assert l == l[..|l| - 1] + [l[|l| - 1]];
    assert '\n' !in l;
  }

  lemma LinesShapeTail(ls: seq<string>)
    requires LinesShape(ls) && ls != []
    ensures LinesShape(ls[1..])
  {
    forall i | 0 <= i < |ls[1..]|
      ensures IsLine(ls[1..][i]) && (i < |ls[1..]| - 1 ==> Terminated(ls[1..][i]))
    {
      assert ls[1..][i] == ls[i + 1];
    }
  }

  /** Reading back what was written as well-shaped lines gives the same lines. */
  lemma {:induction false} ReadLinesConcat(ls: seq<string>)
    requires LinesShape(ls)
    ensures ReadLines(Concat(ls)) == ls
  {
    if ls != [] {
      var l := ls[0];
      LinesShapeTail(ls);
      ReadLinesConcat(ls[1..]);
      if Terminated(l) {
        ReadLinesCons(l, Concat(ls[1..]));
      } else {
        ReadLinesSingle(l);
        assert ls == [l];
        assert Concat(ls) == l + "" == l;
      }
      assert ls == [l] + ls[1..];
    }
  }

  /**
   * Text without a line break in front of complete lines: it is glued onto the first of
   * them, and the others are read back as they are.
   */
  lemma ReadLinesGlued(p: string, ls: seq<string>)
    requires '\n' !in p && ls != [] && LinesShape(ls) && AllTerminated(ls)
    ensures ReadLines(p + Concat(ls)) == [p + ls[0]] + ls[1..]
  {
    var glued := p + ls[0];
    assert Concat(ls) == ls[0] + Concat(ls[1..]);
    assert p + Concat(ls) == glued + Concat(ls[1..]);
    assert glued[..|glued| - 1] == p + ls[0][..|ls[0]| - 1];
    ReadLinesCons(glued, Concat(ls[1..]));
    LinesShapeTail(ls);
    ReadLinesConcat(ls[1..]);
  }

  /**
   * Text glued onto a block whose lines all match, except the glued first one: a removal
   * pass keeps only that first line.
   */
  lemma RemoveMatchingTextGlued(p: string, ls: seq<string>, m: Matcher)
    requires '\n' !in p && '\r' !in p && ls != [] && LinesShape(ls) && AllTerminated(ls) && NoCr(ls)
    requires !Matches(m, p + ls[0])
    requires forall i :: 1 <= i < |ls| ==> Matches(m, ls[i])
    ensures RemoveMatchingText(p + Concat(ls), m) == p + ls[0]
  {
    ConcatExcludes(ls, '\r');
    TranslateKeeps(p + Concat(ls));
    ReadLinesGlued(p, ls);
    var rest := ls[1..];
    assert forall i :: 0 <= i < |rest| ==> Matches(m, rest[i]) by {
      forall i | 0 <= i < |rest| ensures Matches(m, rest[i]) { assert rest[i] == ls[i + 1]; }
    }
    RemoveMatchingKeepsFirst(p + ls[0], rest, m);
  }

  /** A removal pass that drops every line but an unmatched first one leaves just that line. */
  lemma RemoveMatchingKeepsFirst(first: string, rest: seq<string>, m: Matcher)
    requires !Matches(m, first)
    requires forall i :: 0 <= i < |rest| ==> Matches(m, rest[i])
    ensures Concat(RemoveMatching([first] + rest, m)) == first
  {
    RemoveMatchingAll(rest, m);
    assert ([first] + rest)[1..] == rest;
    assert Concat([first]) == first + Concat([]);
  }

  /** Appending to a terminated file adds lines and leaves the old ones as they were. */
  lemma ReadLinesAppend(a: string, b: string)
    requires Terminated(a)
    ensures ReadLines(a + b) == ReadLines(a) + ReadLines(b)
  {
    var la, lb := ReadLines(a), ReadLines(b);
    ReadLinesShape(a);
    ReadLinesShape(b);
    ReadLinesTerminated(a);
    ConcatReadLines(a);
    ConcatReadLines(b);
    ConcatAppend(la, lb);
    assert LinesShape(la + lb) by {
      forall i | 0 <= i < |la + lb|
        ensures IsLine((la + lb)[i]) && (i < |la + lb| - 1 ==> Terminated((la + lb)[i]))
      {
        if i < |la| {
          assert (la + lb)[i] == la[i];
        } else {
          assert (la + lb)[i] == lb[i - |la|];
        }
      }
    }
    ReadLinesConcat(la + lb);
  }

  /**
   * What decides that a line is one of "ours": a list of regular expressions made of a
   * literal and `.*`, applied with `re.match` (so anchored at the start of the line only),
   * or a list of substrings tested with `in`.
   */
  datatype Matcher =
    | Prefixes(ps: seq<string>)
    | Substrings(ss: seq<string>)

  predicate Matches(m: Matcher, line: string) {
    match m
    case Prefixes(ps) => exists i :: 0 <= i < |ps| && ps[i] <= line
    case Substrings(ss) => exists i :: 0 <= i < |ss| && Contains(line, ss[i])
  }

  /** The lines no pattern matches, in their original order. */
  function RemoveMatching(ls: seq<string>, m: Matcher): (r: seq<string>)
    ensures |r| <= |ls|
    ensures forall i :: 0 <= i < |r| ==> !Matches(m, r[i]) && r[i] in ls
  {
    if ls == [] then []
    else (if Matches(m, ls[0]) then [] else [ls[0]]) + RemoveMatching(ls[1..], m)
  }

  /** The number of lines some pattern matches. */
  function CountMatching(ls: seq<string>, m: Matcher): nat {
    if ls == [] then 0
    else (if Matches(m, ls[0]) then 1 else 0) + CountMatching(ls[1..], m)
  }

  /** Filtering works line by line: it distributes over concatenation, so order is kept. */
  lemma {:induction false} RemoveMatchingAppend(a: seq<string>, b: seq<string>, m: Matcher)
    ensures RemoveMatching(a + b, m) == RemoveMatching(a, m) + RemoveMatching(b, m)
  {
    if a == [] {
      assert a + b == b;
    } else {
      assert (a + b)[1..] == a[1..] + b;
      assert (a + b)[0] == a[0];
      RemoveMatchingAppend(a[1..], b, m);
    }
  }

  lemma {:induction false} CountMatchingAppend(a: seq<string>, b: seq<string>, m: Matcher)
    ensures CountMatching(a + b, m) == CountMatching(a, m) + CountMatching(b, m)
  {
    if a == [] {
      assert a + b == b;
    } else {
      assert (a + b)[1..] == a[1..] + b;
      assert (a + b)[0] == a[0];
      CountMatchingAppend(a[1..], b, m);
    }
  }

  /** A file without matching lines is kept as it is. */
  lemma {:induction false} RemoveMatchingNone(ls: seq<string>, m: Matcher)
    requires forall i :: 0 <= i < |ls| ==> !Matches(m, ls[i])
    ensures RemoveMatching(ls, m) == ls
    ensures CountMatching(ls, m) == 0
  {
    if ls != [] {
      RemoveMatchingNone(ls[1..], m);
    }
  }

  /** Lines that all match are all dropped. */
  lemma {:induction false} RemoveMatchingAll(ls: seq<string>, m: Matcher)
    requires forall i :: 0 <= i < |ls| ==> Matches(m, ls[i])
    ensures RemoveMatching(ls, m) == []
    ensures CountMatching(ls, m) == |ls|
  {
    if ls != [] {
      RemoveMatchingAll(ls[1..], m);
    }
  }

  /** Filtering keeps the shape of a `readlines()` list. */
  lemma {:induction false} RemoveMatchingShape(ls: seq<string>, m: Matcher)
    requires LinesShape(ls)
    ensures LinesShape(RemoveMatching(ls, m))
    ensures AllTerminated(ls) ==> AllTerminated(RemoveMatching(ls, m))
  {
    if ls != [] {
      TailShape(ls);
      RemoveMatchingShape(ls[1..], m);
      if !Matches(m, ls[0]) {
        assert RemoveMatching(ls[1..], m) != [] ==> |ls| > 1;
        ConsShape(ls[0], RemoveMatching(ls[1..], m));
      }
    }
  }

  /** The lines after the first keep the shape. */
  lemma TailShape(ls: seq<string>)
    requires ls != [] && LinesShape(ls)
    ensures LinesShape(ls[1..])
    ensures AllTerminated(ls) ==> AllTerminated(ls[1..])
  {
    assert forall i :: 0 <= i < |ls| - 1 ==> ls[1..][i] == ls[i + 1];
  }

  /** A line in front of lines keeps the shape when it is terminated or alone. */
  lemma ConsShape(l: string, ls: seq<string>)
    requires IsLine(l) && LinesShape(ls) && (ls != [] ==> Terminated(l))
    ensures LinesShape([l] + ls)
    ensures Terminated(l) && AllTerminated(ls) ==> AllTerminated([l] + ls)
  {
    assert forall i :: 1 <= i <= |ls| ==> ([l] + ls)[i] == ls[i - 1];
  }

  /** What a removal pass writes back: the unmatched lines of the file, concatenated. */
  function RemoveMatchingText(s: string, m: Matcher): string {
    Concat(RemoveMatching(FileLines(s), m))
  }

  /** What a removal pass writes has no '\r' left, so it reads back as it is. */
  lemma RemoveMatchingTextPlain(s: string, m: Matcher)
    ensures '\r' !in RemoveMatchingText(s, m)
    ensures Translate(RemoveMatchingText(s, m)) == RemoveMatchingText(s, m)
  {
    var ls := FileLines(s);
    var kept := RemoveMatching(ls, m);
    TranslateNoCr(s);
    ConcatFileLines(s);
    ConcatExcludes(ls, '\r');
    ConcatExcludes(kept, '\r');
    TranslateKeeps(RemoveMatchingText(s, m));
  }

  /** The lines of the rewritten file are exactly the unmatched lines of the old one. */
  lemma RemoveMatchingTextLines(s: string, m: Matcher)
    ensures FileLines(RemoveMatchingText(s, m)) == RemoveMatching(FileLines(s), m)
    ensures Terminated(s) ==> Terminated(RemoveMatchingText(s, m))
  {
    var t := Translate(s);
    RemoveMatchingTextPlain(s, m);
    ReadLinesShape(t);
    RemoveMatchingShape(ReadLines(t), m);
    ReadLinesConcat(RemoveMatching(ReadLines(t), m));
    if Terminated(s) {
      TranslateTerminated(s);
      ReadLinesTerminated(t);
      ConcatTerminated(RemoveMatching(ReadLines(t), m));
    }
  }

  lemma {:induction false} RemoveMatchingIdempotent(ls: seq<string>, m: Matcher)
    ensures RemoveMatching(RemoveMatching(ls, m), m) == RemoveMatching(ls, m)
  {
    RemoveMatchingNone(RemoveMatching(ls, m), m);
  }

  /** A second removal pass with the same patterns changes nothing. */
  lemma RemoveMatchingTextIdempotent(s: string, m: Matcher)
    ensures RemoveMatchingText(RemoveMatchingText(s, m), m) == RemoveMatchingText(s, m)
  {
    RemoveMatchingTextLines(s, m);
    RemoveMatchingIdempotent(FileLines(s), m);
  }

  /** Two removal passes in a row remove what one pass with both sets of patterns removes. */
  lemma {:induction false} RemoveMatchingUnion(ls: seq<string>, m1: Matcher, m2: Matcher, m: Matcher)
    requires forall line :: Matches(m, line) <==> Matches(m1, line) || Matches(m2, line)
    ensures RemoveMatching(RemoveMatching(ls, m1), m2) == RemoveMatching(ls, m)
  {
    if ls != [] {
      RemoveMatchingUnion(ls[1..], m1, m2, m);
      var head := if Matches(m1, ls[0]) then [] else [ls[0]];
      RemoveMatchingAppend(head, RemoveMatching(ls[1..], m1), m2);
    }
  }

  lemma RemoveMatchingTextUnion(s: string, m1: Matcher, m2: Matcher, m: Matcher)
    requires forall line :: Matches(m, line) <==> Matches(m1, line) || Matches(m2, line)
    ensures RemoveMatchingText(RemoveMatchingText(s, m1), m2) == RemoveMatchingText(s, m)
  {
    RemoveMatchingTextLines(s, m1);
    RemoveMatchingUnion(FileLines(s), m1, m2, m);
  }

  /** Text that reads back as one line, or as part of one: no '\n' and no '\r'. */
  predicate OneLine(x: string) {
    '\n' !in x && '\r' !in x
  }

  /** Lines of text, none holding '\r'. */
  predicate NoCr(ls: seq<string>) {
    forall i :: 0 <= i < |ls| ==> '\r' !in ls[i]
  }

  /** Appending '\r'-free lines to a file that ends in '\n' adds exactly those lines to what it reads as. */
  lemma FileLinesAppend(a: string, block: seq<string>)
    requires Terminated(a) && LinesShape(block) && NoCr(block)
    ensures Translate(a + Concat(block)) == Translate(a) + Concat(block)
    ensures FileLines(a + Concat(block)) == FileLines(a) + block
  {
    var b := Concat(block);
    ConcatExcludes(block, '\r');
    TranslateKeeps(b);
    TranslateAppend(a, b);
    TranslateTerminated(a);
    ReadLinesConcat(block);
    ReadLinesAppend(Translate(a), b);
  }

  /** A removal pass over a terminated text followed by a block of matching lines drops the block. */
  lemma RemoveMatchingTextBlock(a: string, block: seq<string>, m: Matcher)
    requires Terminated(a) && LinesShape(block) && NoCr(block)
    requires forall i :: 0 <= i < |block| ==> Matches(m, block[i])
    ensures RemoveMatchingText(a + Concat(block), m) == RemoveMatchingText(a, m)
  {
    FileLinesAppend(a, block);
    RemoveMatchingAppend(FileLines(a), block, m);
    RemoveMatchingAll(block, m);
    assert RemoveMatching(FileLines(a), m) + [] == RemoveMatching(FileLines(a), m);
  }

  /** A removal pass over a text none of whose lines match writes it back with its line ends translated. */
  lemma RemoveMatchingTextNone(s: string, m: Matcher)
    requires forall i :: 0 <= i < |FileLines(s)| ==> !Matches(m, FileLines(s)[i])
    ensures RemoveMatchingText(s, m) == Translate(s)
    ensures '\r' !in s ==> RemoveMatchingText(s, m) == s
  {
    RemoveMatchingNone(FileLines(s), m);
    ConcatFileLines(s);
    if '\r' !in s {
      TranslateKeeps(s);
    }
  }

  /** Substrings none of which ends in a line break. */
  predicate NoneEndsLine(m: Matcher) {
    m.Substrings? && forall i :: 0 <= i < |m.ss| ==> m.ss[i] == "" || m.ss[i][|m.ss[i]| - 1] != '\n'
  }

  /** Ending the last line of a text adds no match for substrings that do not end in '\n'. */
  lemma EndLineUnmatched(s: string, m: Matcher)
    requires !Terminated(s) && NoneEndsLine(m)
    requires forall i :: 0 <= i < |ReadLines(s)| ==> !Matches(m, ReadLines(s)[i])
    ensures forall i :: 0 <= i < |ReadLines(s + "\n")| ==> !Matches(m, ReadLines(s + "\n")[i])
  {
    ReadLinesEndLine(s);
    var ls := ReadLines(s);
    var last := ls[|ls| - 1];
    forall k | 0 <= k < |m.ss|
      ensures !Contains(last + "\n", m.ss[k])
    {
      NotContainsBeforeChar(last, '\n', m.ss[k]);
    }
  }

  /**
   * Filtering a newline-terminated text and appending a block of matching lines: the kept
   * lines, then the block; exactly the block's lines match afterwards.
   */
  lemma FilterThenAppend(s: string, m: Matcher, block: seq<string>)
    requires Terminated(s) && LinesShape(block) && AllTerminated(block) && NoCr(block)
    requires forall i :: 0 <= i < |block| ==> Matches(m, block[i])
    ensures FileLines(RemoveMatchingText(s, m) + Concat(block)) == RemoveMatching(FileLines(s), m) + block
    ensures CountMatching(RemoveMatching(FileLines(s), m) + block, m) == |block|
    ensures Terminated(RemoveMatchingText(s, m) + Concat(block))
  {
    RemoveMatchingTextLines(s, m);
    FileLinesAppend(RemoveMatchingText(s, m), block);
    KeptThenBlockCount(RemoveMatching(FileLines(s), m), block, m);
    ConcatTerminated(block);
  }

  /** Only the block's lines match in kept lines followed by a block of matching lines. */
  lemma KeptThenBlockCount(kept: seq<string>, block: seq<string>, m: Matcher)
    requires forall i :: 0 <= i < |kept| ==> !Matches(m, kept[i])
    requires forall i :: 0 <= i < |block| ==> Matches(m, block[i])
    ensures CountMatching(kept + block, m) == |block|
  {
    RemoveMatchingNone(kept, m);
    RemoveMatchingAll(block, m);
    CountMatchingAppend(kept, block, m);
  }

  /** One more line is written unless the pattern matches it. */
  lemma WriteStep(done: seq<string>, line: string, m: Matcher)
    ensures Concat(RemoveMatching(done + [line], m))
         == Concat(RemoveMatching(done, m)) + (if Matches(m, line) then "" else line)
  {
    RemoveMatchingAppend(done, [line], m);
    ConcatAppend(RemoveMatching(done, m), RemoveMatching([line], m));
    assert [line][1..] == [];
  }

  /**
   * The write loop of a removal pass: the lines are written one by one, skipping those a
   * pattern matches; the result is the content the file is left with.
   */
  method WriteUnmatched(lines: seq<string>, m: Matcher) returns (text: string)
    ensures text == Concat(RemoveMatching(lines, m))
  {
    text := "";
    var i := 0;
    while i < |lines|
      invariant 0 <= i <= |lines|
      invariant text == Concat(RemoveMatching(lines[..i], m))
    {
      var line := lines[i];
      assert lines[..i + 1] == lines[..i] + [line];
      WriteStep(lines[..i], line, m);
      if !Matches(m, line) {
        text := text + line;
      }
      i := i + 1;
    }
    assert lines[..i] == lines;
  }
}
