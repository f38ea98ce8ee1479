/**
 * The lines the shell projection owns inside a shell start-up file: how one variable
 * assignment is rendered for each shell, the regular expression that removes it again,
 * and what a removal or an append pass does to the config files of the installed shells.
 * Both packages share this part of their shell code.
 */
module ManagedLines {
  import opened Text
  import opened Lines

  datatype ShellKind = Bash | Zsh | Fish

  /** The shells in the order the `ShellsTypes` enumeration lists them. */
  const AllShells: seq<ShellKind> := [Bash, Zsh, Fish]

  /** The shells among the first `i` of `AllShells`. */
  function Upto(i: nat): set<ShellKind>
    requires i <= |AllShells|
  {
    set j | 0 <= j < i :: AllShells[j]
  }

  const ProxyVars: seq<string> :=
    ["http_proxy", "HTTP_PROXY", "https_proxy", "HTTPS_PROXY", "ftp_proxy", "FTP_PROXY", "rsync_proxy", "RSYNC_PROXY"]

  const BypassVars: seq<string> := ["no_proxy", "NO_PROXY"]

  /**
   * The literal part of the removal regex for one variable: `export VAR\=.*` for bash and
   * zsh, `set -x VAR .*` for fish. The trailing `.*` matches anything, and `re.match` anchors
   * at the start only, so the regex matches exactly the lines that start with this text.
   */
  function Pattern(kind: ShellKind, name: string): string {
    if kind == Fish then "set -x " + name + " " else "export " + name + "="
  }

  function Patterns(kind: ShellKind, names: seq<string>): Matcher {
    Prefixes(seq(|names|, i requires 0 <= i < |names| => Pattern(kind, names[i])))
  }

  /** One rendered line: `export VAR="value"` or `set -x VAR "value"`, with its newline. */
  function Assignment(kind: ShellKind, name: string, value: string): string {
    Pattern(kind, name) + "\"" + value + "\"\n"
  }

  /** The URL a proxy variable is set to: `scheme://ip:port/`. */
  function Url(scheme: string, ip: string, port: nat): string {
    scheme + "://" + ip + ":" + NatToString(port) + "/"
  }

  function AssignmentLines(kind: ShellKind, assigns: seq<(string, string)>): seq<string> {
    seq(|assigns|, i requires 0 <= i < |assigns| => Assignment(kind, assigns[i].0, assigns[i].1))
  }

  /** The text an append pass writes: one assignment line per variable, in order. */
  function Render(kind: ShellKind, assigns: seq<(string, string)>): string {
    Concat(AssignmentLines(kind, assigns))
  }

  /** `no_proxy` and `NO_PROXY`, both set to the domains joined with ",". */
  function BypassAssignments(domains: seq<string>): seq<(string, string)> {
    var joined := Join(domains, ",");
    [("no_proxy", joined), ("NO_PROXY", joined)]
  }

  /** Domains that read back on one line. */
  predicate NoNewline(domains: seq<string>) {
    forall i :: 0 <= i < |domains| ==> OneLine(domains[i])
  }

  lemma UrlSingleLine(scheme: string, ip: string, port: nat)
    requires OneLine(scheme) && OneLine(ip)
    ensures OneLine(Url(scheme, ip, port))
  {
    assert '\n' !in NatToString(port) && '\r' !in NatToString(port);
  }

  lemma BypassAssignmentsShape(domains: seq<string>)
    requires NoNewline(domains)
    ensures SingleLine(BypassAssignments(domains)) && AssignsOnly(BypassAssignments(domains), BypassVars)
  {
    JoinExcludes(domains, ",", '\n');
    JoinExcludes(domains, ",", '\r');
  }

  /** Rendering distributes over concatenation of the assignments. */
  lemma RenderAppend(kind: ShellKind, a: seq<(string, string)>, b: seq<(string, string)>)
    ensures Render(kind, a + b) == Render(kind, a) + Render(kind, b)
  {
    AssignmentLinesAppend(kind, a, b);
    ConcatAppend(AssignmentLines(kind, a), AssignmentLines(kind, b));
  }

  lemma AssignmentLinesAppend(kind: ShellKind, a: seq<(string, string)>, b: seq<(string, string)>)
    ensures AssignmentLines(kind, a + b) == AssignmentLines(kind, a) + AssignmentLines(kind, b)
  {
    var l, la, lb := AssignmentLines(kind, a + b), AssignmentLines(kind, a), AssignmentLines(kind, b);
    forall i | 0 <= i < |l| ensures l[i] == (la + lb)[i] {
      if i < |a| {
        assert (a + b)[i] == a[i];
      } else {
        assert (a + b)[i] == b[i - |a|];
      }
    }
  }

  /** Proxy variables paired with the URL schemes of their values, in the order they are written. */
  function ProxyPairs(schemes: seq<string>, ip: string, port: nat): seq<(string, string)>
    requires |schemes| == |ProxyVars|
  {
    seq(|ProxyVars|, i requires 0 <= i < |ProxyVars| => (ProxyVars[i], Url(schemes[i], ip, port)))
  }

  lemma ProxyPairsShape(schemes: seq<string>, ip: string, port: nat)
    requires |schemes| == |ProxyVars| && OneLine(ip)
    requires forall i :: 0 <= i < |schemes| ==> OneLine(schemes[i])
    ensures SingleLine(ProxyPairs(schemes, ip, port)) && AssignsOnly(ProxyPairs(schemes, ip, port), ProxyVars)
    ensures |ProxyPairs(schemes, ip, port)| == |ProxyVars|
  {
    var ps := ProxyPairs(schemes, ip, port);
    forall i | 0 <= i < |ps| ensures OneLine(ps[i].0) && OneLine(ps[i].1) && ps[i].0 in ProxyVars {
      UrlSingleLine(schemes[i], ip, port);
      assert OneLine(ProxyVars[i]);
    }
  }

  /** One file of a removal pass right after an append pass over the same shells. */
  lemma UnsetAfterAppendRestoresAt(fs: map<ShellKind, string>, ks: set<ShellKind>, assigns: seq<(string, string)>, names: seq<string>, k: ShellKind)
    requires SingleLine(assigns) && AssignsOnly(assigns, names)
    requires k in ks ==> Terminated(Get(fs, k))
    requires k in ks ==> forall i :: 0 <= i < |FileLines(Get(fs, k))| ==> !Matches(Patterns(k, names), FileLines(Get(fs, k))[i])
    ensures var r := UnsetFiles(AppendFiles(fs, ks, assigns), ks, names);
            (k in r <==> k in fs || k in ks) && (k in r ==> r[k] == Restored(fs, ks, k))
  {
    UnsetAfterAppendAt(fs, ks, assigns, names, k);
    if k in ks {
      var s := Get(fs, k);
      RemoveAfterAppend(s, k, assigns, names);
      RemoveMatchingTextNone(s, Patterns(k, names));
    }
  }

  /** A file as the removal pass leaves it: read and written back, or untouched outside `ks`. */
  function Restored(fs: map<ShellKind, string>, ks: set<ShellKind>, k: ShellKind): string {
    if k in ks then Translate(Get(fs, k)) else Get(fs, k)
  }

  /**
   * A removal pass right after an append pass over the same shells restores every file that
   * ended in a newline and had no managed line, up to its line ends ("\r\n" and "\r" come
   * back as "\n"); a shell that had no file keeps an empty one.
   */
  lemma UnsetAfterAppendFiles(fs: map<ShellKind, string>, ks: set<ShellKind>, assigns: seq<(string, string)>, names: seq<string>)
    requires SingleLine(assigns) && AssignsOnly(assigns, names)
    requires forall k :: k in fs && k in ks ==> Terminated(fs[k])
    requires forall k, i :: k in fs && k in ks && 0 <= i < |FileLines(fs[k])| ==>
               !Matches(Patterns(k, names), FileLines(fs[k])[i])
    ensures UnsetFiles(AppendFiles(fs, ks, assigns), ks, names) == map k | k in fs.Keys + ks :: Restored(fs, ks, k)
  {
    var r := UnsetFiles(AppendFiles(fs, ks, assigns), ks, names);
    var want := map k | k in fs.Keys + ks :: Restored(fs, ks, k);
    forall k ensures (k in r <==> k in want) && (k in r ==> r[k] == want[k]) {
      if k in ks && k !in fs {
        assert Translate(Get(fs, k)) == "";
        assert FileLines(Get(fs, k)) == [];
      }
      UnsetAfterAppendRestoresAt(fs, ks, assigns, names, k);
    }
  }

  /** Files without '\r' come back exactly. */
  lemma RestoredPlain(fs: map<ShellKind, string>, ks: set<ShellKind>)
    requires forall k :: k in fs ==> '\r' !in fs[k]
    ensures (map k | k in fs.Keys + ks :: Restored(fs, ks, k)) == map k | k in fs.Keys + ks :: Get(fs, k)
  {
    forall k | k in fs.Keys + ks ensures Restored(fs, ks, k) == Get(fs, k) {
      if k in fs {
        TranslateKeeps(fs[k]);
      }
    }
  }

  /** A line is managed when it starts with the pattern of one of the names. */
  lemma MatchesIntro(kind: ShellKind, names: seq<string>, i: nat, line: string)
    requires i < |names| && Pattern(kind, names[i]) <= line
    ensures Matches(Patterns(kind, names), line)
  {
    assert Patterns(kind, names).ps[i] == Pattern(kind, names[i]);
  }

  lemma MatchesElim(kind: ShellKind, names: seq<string>, line: string) returns (i: nat)
    requires Matches(Patterns(kind, names), line)
    ensures i < |names| && Pattern(kind, names[i]) <= line
  {
    var ps := Patterns(kind, names).ps;
    i :| 0 <= i < |ps| && ps[i] <= line;
  }

  /** A removal pass right after an append of managed assignments removes the whole block again. */
  lemma RemoveAfterAppend(s: string, kind: ShellKind, assigns: seq<(string, string)>, names: seq<string>)
    requires Terminated(s) && SingleLine(assigns) && AssignsOnly(assigns, names)
    ensures RemoveMatchingText(s + Render(kind, assigns), Patterns(kind, names)) == RemoveMatchingText(s, Patterns(kind, names))
  {
    RenderLines(kind, assigns);
    AssignmentLinesManaged(kind, assigns, names);
    RemoveMatchingTextBlock(s, AssignmentLines(kind, assigns), Patterns(kind, names));
  }

  /** An append of managed assignments adds one managed line per assignment. */
  lemma AppendCount(s: string, kind: ShellKind, assigns: seq<(string, string)>, names: seq<string>)
    requires Terminated(s) && SingleLine(assigns) && AssignsOnly(assigns, names)
    ensures CountMatching(FileLines(s + Render(kind, assigns)), Patterns(kind, names))
         == CountMatching(FileLines(s), Patterns(kind, names)) + |assigns|
    ensures Terminated(s + Render(kind, assigns))
  {
    RenderLines(kind, assigns);
    RenderAllManaged(kind, assigns, names);
    FileLinesAppend(s, AssignmentLines(kind, assigns));
    CountMatchingAppend(FileLines(s), AssignmentLines(kind, assigns), Patterns(kind, names));
  }

  /** An append of proxy (bypass) assignments leaves the count of bypass (proxy) lines as it was. */
  lemma AppendCountOther(s: string, kind: ShellKind, assigns: seq<(string, string)>, names: seq<string>, other: seq<string>)
    requires (names == ProxyVars && other == BypassVars) || (names == BypassVars && other == ProxyVars)
    requires Terminated(s) && SingleLine(assigns) && AssignsOnly(assigns, names)
    ensures CountMatching(FileLines(s + Render(kind, assigns)), Patterns(kind, other))
         == CountMatching(FileLines(s), Patterns(kind, other))
  {
    var added := AssignmentLines(kind, assigns);
    RenderLines(kind, assigns);
    FileLinesAppend(s, added);
    forall i | 0 <= i < |added| ensures !Matches(Patterns(kind, other), added[i]) {
      AssignmentMatches(kind, assigns[i].0, assigns[i].1, names);
      ProxyBypassDisjoint(kind, added[i]);
    }
    RemoveMatchingNone(added, Patterns(kind, other));
    CountMatchingAppend(FileLines(s), added, Patterns(kind, other));
  }

  /** Where the config files stand after an append pass and then a removal pass over the same shells. */
  lemma UnsetAfterAppendAt(fs: map<ShellKind, string>, ks: set<ShellKind>, assigns: seq<(string, string)>, names: seq<string>, k: ShellKind)
    ensures var r := UnsetFiles(AppendFiles(fs, ks, assigns), ks, names);
            (k in r <==> k in fs || k in ks)
            && (k in ks ==> r[k] == RemoveMatchingText(Get(fs, k) + Render(k, assigns), Patterns(k, names)))
            && (k !in ks && k in fs ==> r[k] == fs[k])
  {
  }

  /** Appending two blocks one after the other appends their concatenation. */
  lemma AppendTwice(s: string, k: ShellKind, a: seq<(string, string)>, b: seq<(string, string)>)
    ensures (s + Render(k, a)) + Render(k, b) == s + Render(k, a + b)
  {
    RenderAppend(k, a, b);
    assert (s + Render(k, a)) + Render(k, b) == s + (Render(k, a) + Render(k, b));
  }

  lemma PatternsUnionAt(kind: ShellKind, a: seq<string>, b: seq<string>, line: string)
    ensures Matches(Patterns(kind, a + b), line) <==> Matches(Patterns(kind, a), line) || Matches(Patterns(kind, b), line)
  {
    if Matches(Patterns(kind, a + b), line) {
      PatternsUnionSplit(kind, a, b, line);
    }
    if Matches(Patterns(kind, a), line) || Matches(Patterns(kind, b), line) {
      PatternsUnionJoin(kind, a, b, line);
    }
  }

  lemma PatternsUnionSplit(kind: ShellKind, a: seq<string>, b: seq<string>, line: string)
    requires Matches(Patterns(kind, a + b), line)
    ensures Matches(Patterns(kind, a), line) || Matches(Patterns(kind, b), line)
  {
    var i := MatchesElim(kind, a + b, line);
    if i < |a| {
      assert (a + b)[i] == a[i];
      MatchesIntro(kind, a, i, line);
    } else {
      assert (a + b)[i] == b[i - |a|];
      MatchesIntro(kind, b, i - |a|, line);
    }
  }

  lemma PatternsUnionJoin(kind: ShellKind, a: seq<string>, b: seq<string>, line: string)
    requires Matches(Patterns(kind, a), line) || Matches(Patterns(kind, b), line)
    ensures Matches(Patterns(kind, a + b), line)
  {
    if Matches(Patterns(kind, a), line) {
      var i := MatchesElim(kind, a, line);
      assert (a + b)[i] == a[i];
      MatchesIntro(kind, a + b, i, line);
    } else {
      var i := MatchesElim(kind, b, line);
      assert (a + b)[|a| + i] == b[i];
      MatchesIntro(kind, a + b, |a| + i, line);
    }
  }

  /** The patterns of two variable lists together match what either list matches. */
  lemma PatternsUnion(kind: ShellKind, a: seq<string>, b: seq<string>)
    ensures forall line :: Matches(Patterns(kind, a + b), line)
                       <==> Matches(Patterns(kind, a), line) || Matches(Patterns(kind, b), line)
  {
    forall line ensures Matches(Patterns(kind, a + b), line)
                    <==> Matches(Patterns(kind, a), line) || Matches(Patterns(kind, b), line)
    {
      PatternsUnionAt(kind, a, b, line);
    }
  }

  /** Names and values free of line breaks, so that each assignment reads back as one line. */
  predicate SingleLine(assigns: seq<(string, string)>) {
    forall i :: 0 <= i < |assigns| ==> OneLine(assigns[i].0) && OneLine(assigns[i].1)
  }

  /** Every name assigned is one of `names`. */
  predicate AssignsOnly(assigns: seq<(string, string)>, names: seq<string>) {
    forall i :: 0 <= i < |assigns| ==> assigns[i].0 in names
  }

  /** The removal regex of a variable matches the line the writer renders for it. */
  lemma AssignmentMatches(kind: ShellKind, name: string, value: string, names: seq<string>)
    requires name in names
    ensures Matches(Patterns(kind, names), Assignment(kind, name, value))
  {
    var i :| 0 <= i < |names| && names[i] == name;
    assert Assignment(kind, name, value) == Pattern(kind, name) + ("\"" + value + "\"\n");
    MatchesIntro(kind, names, i, Assignment(kind, name, value));
  }

  lemma AssignmentIsLine(kind: ShellKind, name: string, value: string)
    requires OneLine(name) && OneLine(value)
    ensures IsLine(Assignment(kind, name, value)) && Terminated(Assignment(kind, name, value))
    ensures '\r' !in Assignment(kind, name, value)
  {
    var l := Assignment(kind, name, value);
    var p := Pattern(kind, name);
    assert OneLine(p) by {
      if kind == Fish {
        assert p == "set -x " + name + " ";
      } else {
        assert p == "export " + name + "=";
      }
    }
    assert l[..|l| - 1] == p + "\"" + value + "\"";
  }

  /** A rendered block reads back as its assignment lines, each terminated. */
  lemma RenderLines(kind: ShellKind, assigns: seq<(string, string)>)
    requires SingleLine(assigns)
    ensures ReadLines(Render(kind, assigns)) == AssignmentLines(kind, assigns)
    ensures AllTerminated(AssignmentLines(kind, assigns)) && LinesShape(AssignmentLines(kind, assigns))
    ensures NoCr(AssignmentLines(kind, assigns))
    ensures Terminated(Render(kind, assigns))
  {
    var ls := AssignmentLines(kind, assigns);
    forall i | 0 <= i < |ls| ensures IsLine(ls[i]) && Terminated(ls[i]) && '\r' !in ls[i] {
      AssignmentIsLine(kind, assigns[i].0, assigns[i].1);
    }
    ReadLinesConcat(ls);
    ConcatTerminated(ls);
  }

  /** Every line of a rendered block is one the matching removal pass deletes. */
  lemma RenderAllManaged(kind: ShellKind, assigns: seq<(string, string)>, names: seq<string>)
    requires SingleLine(assigns) && AssignsOnly(assigns, names)
    ensures RemoveMatching(ReadLines(Render(kind, assigns)), Patterns(kind, names)) == []
    ensures CountMatching(ReadLines(Render(kind, assigns)), Patterns(kind, names)) == |assigns|
  {
    RenderLines(kind, assigns);
    AssignmentLinesManaged(kind, assigns, names);
    RemoveMatchingAll(AssignmentLines(kind, assigns), Patterns(kind, names));
  }

  /** Every rendered assignment line is matched by the removal patterns of its names. */
  lemma AssignmentLinesManaged(kind: ShellKind, assigns: seq<(string, string)>, names: seq<string>)
    requires AssignsOnly(assigns, names)
    ensures forall i :: 0 <= i < |AssignmentLines(kind, assigns)| ==>
              Matches(Patterns(kind, names), AssignmentLines(kind, assigns)[i])
  {
    var ls := AssignmentLines(kind, assigns);
    forall i | 0 <= i < |ls| ensures Matches(Patterns(kind, names), ls[i]) {
      AssignmentMatches(kind, assigns[i].0, assigns[i].1, names);
    }
  }

  /** Character 7 of a managed line is the first letter of the variable's name. */
  lemma PatternLetter(kind: ShellKind, names: seq<string>, line: string) returns (name: string)
    requires forall i :: 0 <= i < |names| ==> names[i] != ""
    requires Matches(Patterns(kind, names), line)
    ensures name in names && |line| > 7 && line[7] == name[0]
  {
    var i := MatchesElim(kind, names, line);
    name := names[i];
    assert Pattern(kind, name)[7] == name[0];
  }

  /**
   * The proxy and bypass managed sets are disjoint: no line is matched both by a proxy
   * pattern and by a `no_proxy`/`NO_PROXY` pattern.
   */
  lemma ProxyBypassDisjoint(kind: ShellKind, line: string)
    ensures !(Matches(Patterns(kind, ProxyVars), line) && Matches(Patterns(kind, BypassVars), line))
  {
    if Matches(Patterns(kind, ProxyVars), line) && Matches(Patterns(kind, BypassVars), line) {
      var p := PatternLetter(kind, ProxyVars, line);
      var b := PatternLetter(kind, BypassVars, line);
      assert false;
    }
  }

  /**
   * Removing the lines of one managed set keeps every line of the other: the result has
   * the same lines of the other set, the same number of them, and only drops lines of the
   * removed set.
   */
  lemma {:induction false} RemovalKeepsOtherSet(ls: seq<string>, kind: ShellKind, removed: seq<string>, other: seq<string>)
    requires (removed == ProxyVars && other == BypassVars) || (removed == BypassVars && other == ProxyVars)
    ensures CountMatching(RemoveMatching(ls, Patterns(kind, removed)), Patterns(kind, other))
         == CountMatching(ls, Patterns(kind, other))
    ensures forall i :: 0 <= i < |ls| && Matches(Patterns(kind, other), ls[i]) ==>
              ls[i] in RemoveMatching(ls, Patterns(kind, removed))
  {
    if ls != [] {
      ProxyBypassDisjoint(kind, ls[0]);
      RemovalKeepsOtherSet(ls[1..], kind, removed, other);
      var head := if Matches(Patterns(kind, removed), ls[0]) then [] else [ls[0]];
      CountMatchingAppend(head, RemoveMatching(ls[1..], Patterns(kind, removed)), Patterns(kind, other));
      forall i | 0 <= i < |ls| && Matches(Patterns(kind, other), ls[i])
        ensures ls[i] in RemoveMatching(ls, Patterns(kind, removed))
      {
        if i > 0 {
          assert ls[i] == ls[1..][i - 1];
        }
      }
    }
  }

  /** A file as `open(path, 'w').close()` leaves it when it did not exist. */
  function Get(fs: map<ShellKind, string>, k: ShellKind): string {
    if k in fs then fs[k] else ""
  }

  /**
   * The config files after a removal pass over the shells `ks`: each existing file of such a
   * shell keeps exactly its unmatched lines; missing files stay missing, other files stay as
   * they are.
   */
  function UnsetFiles(fs: map<ShellKind, string>, ks: set<ShellKind>, names: seq<string>): map<ShellKind, string> {
    map k | k in fs :: if k in ks then RemoveMatchingText(fs[k], Patterns(k, names)) else fs[k]
  }

  /**
   * The config files after an append pass over the shells `ks`: a missing file of such a
   * shell is first created empty, then the rendered block is appended.
   */
  function AppendFiles(fs: map<ShellKind, string>, ks: set<ShellKind>, assigns: seq<(string, string)>): map<ShellKind, string> {
    map k | k in fs.Keys + ks :: if k in ks then Get(fs, k) + Render(k, assigns) else fs[k]
  }

  lemma UptoStep(i: nat)
    requires i < |AllShells|
    ensures Upto(i + 1) == Upto(i) + {AllShells[i]}
    ensures AllShells[i] !in Upto(i)
  {
  }

  /** Every shell is among the ones the loops visit. */
  lemma UptoAll(ks: set<ShellKind>)
    ensures ks * Upto(|AllShells|) == ks
  {
    assert AllShells[0] == Bash && AllShells[1] == Zsh && AllShells[2] == Fish;
    assert Bash in Upto(3) && Zsh in Upto(3) && Fish in Upto(3);
    forall k | k in ks ensures k in Upto(3) {
      assert k == Bash || k == Zsh || k == Fish;
    }
  }

  /**
   * Visiting shell `i` in a removal pass: the files of the earlier shells are already
   * rewritten; the pass rewrites this shell's file when the shell is in `ks` and the file exists.
   */
  lemma UnsetFilesNext(fs: map<ShellKind, string>, ks: set<ShellKind>, i: nat, names: seq<string>,
                       current: map<ShellKind, string>)
    requires i < |AllShells| && current == UnsetFiles(fs, ks * Upto(i), names)
    ensures var k := AllShells[i];
            (k in current <==> k in fs) && (k in fs ==> current[k] == fs[k])
            && (k in ks && k in fs ==>
                  UnsetFiles(fs, ks * Upto(i + 1), names) == current[k := RemoveMatchingText(fs[k], Patterns(k, names))])
            && (k !in ks || k !in fs ==> UnsetFiles(fs, ks * Upto(i + 1), names) == current)
  {
    UptoStep(i);
    var k := AllShells[i];
    if k in ks {
      assert ks * Upto(i + 1) == ks * Upto(i) + {k};
    } else {
      assert ks * Upto(i + 1) == ks * Upto(i);
    }
  }

  lemma AppendFilesStep(fs: map<ShellKind, string>, ks: set<ShellKind>, k: ShellKind, assigns: seq<(string, string)>,
                        current: map<ShellKind, string>)
    requires k !in ks && current == AppendFiles(fs, ks, assigns)
    ensures AppendFiles(fs, ks + {k}, assigns) == current[k := Get(current, k) + Render(k, assigns)]
  {
    assert Get(current, k) == Get(fs, k);
  }

  /**
   * Visiting shell `i` in an append pass: the files of the earlier shells already have the
   * block; the pass appends it to this shell's file (or to an empty one) when the shell is in `ks`.
   */
  lemma AppendFilesNext(fs: map<ShellKind, string>, ks: set<ShellKind>, i: nat, assigns: seq<(string, string)>,
                        current: map<ShellKind, string>)
    requires i < |AllShells| && current == AppendFiles(fs, ks * Upto(i), assigns)
    ensures var k := AllShells[i];
            (k in ks ==> AppendFiles(fs, ks * Upto(i + 1), assigns) == current[k := Get(current, k) + Render(k, assigns)])
            && (k !in ks ==> AppendFiles(fs, ks * Upto(i + 1), assigns) == current)
  {
    UptoStep(i);
    var k := AllShells[i];
    if k in ks {
      assert ks * Upto(i + 1) == ks * Upto(i) + {k};
      AppendFilesStep(fs, ks * Upto(i), k, assigns, current);
    } else {
      assert ks * Upto(i + 1) == ks * Upto(i);
    }
  }

  /**
   * The config files after an append pass has visited the shells `ss` in order: the file of
   * each one in `ks` is created when missing and gets the block appended.
   */
  function AppendPass(fs: map<ShellKind, string>, ss: seq<ShellKind>, ks: set<ShellKind>, assigns: seq<(string, string)>): map<ShellKind, string>
    decreases |ss|
  {
    if ss == [] then fs
    else
      var m := AppendPass(fs, ss[..|ss| - 1], ks, assigns);
      var k := ss[|ss| - 1];
      if k in ks then m[k := Get(m, k) + Render(k, assigns)] else m
  }

  /** The config files after a removal pass has visited the shells `ss` in order. */
  function UnsetPass(fs: map<ShellKind, string>, ss: seq<ShellKind>, ks: set<ShellKind>, names: seq<string>): map<ShellKind, string>
    decreases |ss|
  {
    if ss == [] then fs
    else
      var m := UnsetPass(fs, ss[..|ss| - 1], ks, names);
      var k := ss[|ss| - 1];
      if k in ks && k in m then m[k := RemoveMatchingText(m[k], Patterns(k, names))] else m
  }

  lemma {:induction false} AppendPassPrefix(fs: map<ShellKind, string>, ks: set<ShellKind>, assigns: seq<(string, string)>, j: nat)
    requires j <= |AllShells|
    ensures AppendPass(fs, AllShells[..j], ks, assigns) == AppendFiles(fs, ks * Upto(j), assigns)
  {
    if j == 0 {
      assert ks * Upto(0) == {};
    } else {
      AppendPassPrefix(fs, ks, assigns, j - 1);
      var ss := AllShells[..j];
      assert ss[..j - 1] == AllShells[..j - 1] && ss[j - 1] == AllShells[j - 1];
      AppendFilesNext(fs, ks, j - 1, assigns, AppendPass(fs, AllShells[..j - 1], ks, assigns));
    }
  }

  lemma {:induction false} UnsetPassPrefix(fs: map<ShellKind, string>, ks: set<ShellKind>, names: seq<string>, j: nat)
    requires j <= |AllShells|
    ensures UnsetPass(fs, AllShells[..j], ks, names) == UnsetFiles(fs, ks * Upto(j), names)
  {
    if j == 0 {
      assert ks * Upto(0) == {};
    } else {
      UnsetPassPrefix(fs, ks, names, j - 1);
      var ss := AllShells[..j];
      assert ss[..j - 1] == AllShells[..j - 1] && ss[j - 1] == AllShells[j - 1];
      UnsetFilesNext(fs, ks, j - 1, names, UnsetPass(fs, AllShells[..j - 1], ks, names));
    }
  }

  /** An append pass over all shells is `AppendFiles`. */
  lemma AppendPassAll(fs: map<ShellKind, string>, ks: set<ShellKind>, assigns: seq<(string, string)>)
    ensures AppendPass(fs, AllShells, ks, assigns) == AppendFiles(fs, ks, assigns)
  {
    AppendPassPrefix(fs, ks, assigns, |AllShells|);
    assert AllShells[..|AllShells|] == AllShells;
    UptoAll(ks);
  }

  /** A removal pass over all shells is `UnsetFiles`. */
  lemma UnsetPassAll(fs: map<ShellKind, string>, ks: set<ShellKind>, names: seq<string>)
    ensures UnsetPass(fs, AllShells, ks, names) == UnsetFiles(fs, ks, names)
  {
    UnsetPassPrefix(fs, ks, names, |AllShells|);
    assert AllShells[..|AllShells|] == AllShells;
    UptoAll(ks);
  }
}
