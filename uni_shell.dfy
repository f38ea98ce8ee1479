/**
 * The shell projection of uniproxy (`ShellEnvVar`): every set first removes the managed
 * lines of its variables from each installed shell's config file and then appends fresh
 * ones, so the managed block is replaced rather than accumulated.
 */
module UniShell {
  import opened Text
  import opened Lines
  import opened ManagedLines

  /** The URL schemes of the eight proxy variables; the https pair also gets `http://`. */
  const ProxySchemes: seq<string> := ["http", "http", "http", "http", "ftp", "ftp", "rsync", "rsync"]

  /** The eight proxy variables and the URLs they are set to. */
  function ProxyAssignments(ip: string, port: nat): seq<(string, string)> {
    ProxyPairs(ProxySchemes, ip, port)
  }

  /** One config file after an unset of `names` followed by an append of `assigns`. */
  function Replace(s: string, kind: ShellKind, names: seq<string>, assigns: seq<(string, string)>): string {
    RemoveMatchingText(s, Patterns(kind, names)) + Render(kind, assigns)
  }

  /** One config file after `set_proxy_env_var`. */
  function SetProxyText(s: string, kind: ShellKind, ip: string, port: nat): string {
    Replace(s, kind, ProxyVars, ProxyAssignments(ip, port))
  }

  /** One config file after `set_bypass_domains_env_var`. */
  function SetBypassText(s: string, kind: ShellKind, domains: seq<string>): string {
    Replace(s, kind, BypassVars, BypassAssignments(domains))
  }

  /** All config files after `set_proxy_env_var`. */
  function SetProxyFiles(fs: map<ShellKind, string>, ks: set<ShellKind>, ip: string, port: nat): map<ShellKind, string> {
    ReplaceFiles(fs, ks, ProxyVars, ProxyAssignments(ip, port))
  }

  /** All config files after `set_bypass_domains_env_var`. */
  function SetBypassFiles(fs: map<ShellKind, string>, ks: set<ShellKind>, domains: seq<string>): map<ShellKind, string> {
    ReplaceFiles(fs, ks, BypassVars, BypassAssignments(domains))
  }

  lemma ProxyAssignmentsShape(ip: string, port: nat)
    requires OneLine(ip)
    ensures SingleLine(ProxyAssignments(ip, port)) && AssignsOnly(ProxyAssignments(ip, port), ProxyVars)
    ensures |ProxyAssignments(ip, port)| == 8
  {
    ProxyPairsShape(ProxySchemes, ip, port);
  }

  /**
   * Layout after a replace on a file that ends in a newline: its unmanaged lines in their old
   * order, then exactly the new assignment lines; the file still ends in a newline.
   */
  lemma ReplaceLayout(s: string, kind: ShellKind, names: seq<string>, assigns: seq<(string, string)>)
    requires Terminated(s) && SingleLine(assigns) && AssignsOnly(assigns, names)
    ensures FileLines(Replace(s, kind, names, assigns))
         == RemoveMatching(FileLines(s), Patterns(kind, names)) + AssignmentLines(kind, assigns)
    ensures CountMatching(FileLines(Replace(s, kind, names, assigns)), Patterns(kind, names)) == |assigns|
    ensures Terminated(Replace(s, kind, names, assigns))
  {
    RenderLines(kind, assigns);
    AssignmentLinesManaged(kind, assigns, names);
    FilterThenAppend(s, Patterns(kind, names), AssignmentLines(kind, assigns));
  }

  /** Unsetting after a replace removes everything the replace appended. */
  lemma UnsetAfterReplace(s: string, kind: ShellKind, names: seq<string>, assigns: seq<(string, string)>)
    requires Terminated(s) && SingleLine(assigns) && AssignsOnly(assigns, names)
    ensures RemoveMatchingText(Replace(s, kind, names, assigns), Patterns(kind, names))
         == RemoveMatchingText(s, Patterns(kind, names))
  {
    var m := Patterns(kind, names);
    RemoveMatchingTextLines(s, m);
    RenderLines(kind, assigns);
    AssignmentLinesManaged(kind, assigns, names);
    RemoveMatchingTextBlock(RemoveMatchingText(s, m), AssignmentLines(kind, assigns), m);
    RemoveMatchingTextIdempotent(s, m);
  }

  /** Replacing twice with the same values gives the file a single replace gives. */
  lemma ReplaceIdempotent(s: string, kind: ShellKind, names: seq<string>, assigns: seq<(string, string)>)
    requires Terminated(s) && SingleLine(assigns) && AssignsOnly(assigns, names)
    ensures Replace(Replace(s, kind, names, assigns), kind, names, assigns) == Replace(s, kind, names, assigns)
  {
    UnsetAfterReplace(s, kind, names, assigns);
  }

  /**
   * After `set_proxy_env_var`, a config file that ended in a newline holds its other lines
   * unchanged and in order, followed by the eight proxy assignments; exactly eight of its
   * lines are proxy lines.
   */
  lemma SetProxyLayout(s: string, kind: ShellKind, ip: string, port: nat)
    requires Terminated(s) && OneLine(ip)
    ensures FileLines(SetProxyText(s, kind, ip, port))
         == RemoveMatching(FileLines(s), Patterns(kind, ProxyVars)) + AssignmentLines(kind, ProxyAssignments(ip, port))
    ensures CountMatching(FileLines(SetProxyText(s, kind, ip, port)), Patterns(kind, ProxyVars)) == 8
  {
    ProxyAssignmentsShape(ip, port);
    ReplaceLayout(s, kind, ProxyVars, ProxyAssignments(ip, port));
  }

  /** `set_proxy_env_var` is idempotent on a config file that ends in a newline. */
  lemma SetProxyIdempotent(s: string, kind: ShellKind, ip: string, port: nat)
    requires Terminated(s) && OneLine(ip)
    ensures SetProxyText(SetProxyText(s, kind, ip, port), kind, ip, port) == SetProxyText(s, kind, ip, port)
  {
    ProxyAssignmentsShape(ip, port);
    ReplaceIdempotent(s, kind, ProxyVars, ProxyAssignments(ip, port));
  }

  /** `unset_proxy_env_var` after `set_proxy_env_var` leaves what an unset alone leaves. */
  lemma UnsetAfterSetProxy(s: string, kind: ShellKind, ip: string, port: nat)
    requires Terminated(s) && OneLine(ip)
    ensures RemoveMatchingText(SetProxyText(s, kind, ip, port), Patterns(kind, ProxyVars))
         == RemoveMatchingText(s, Patterns(kind, ProxyVars))
  {
    ProxyAssignmentsShape(ip, port);
    UnsetAfterReplace(s, kind, ProxyVars, ProxyAssignments(ip, port));
  }

  /** `set_bypass_domains_env_var` is idempotent on a config file that ends in a newline. */
  lemma SetBypassIdempotent(s: string, kind: ShellKind, domains: seq<string>)
    requires Terminated(s) && NoNewline(domains)
    ensures SetBypassText(SetBypassText(s, kind, domains), kind, domains) == SetBypassText(s, kind, domains)
    ensures CountMatching(FileLines(SetBypassText(s, kind, domains)), Patterns(kind, BypassVars)) == 2
  {
    BypassAssignmentsShape(domains);
    ReplaceIdempotent(s, kind, BypassVars, BypassAssignments(domains));
    ReplaceLayout(s, kind, BypassVars, BypassAssignments(domains));
  }

  /** A replace of one managed set leaves the number of lines of the other set as it was. */
  lemma ReplaceKeepsOther(s: string, kind: ShellKind, names: seq<string>, other: seq<string>, assigns: seq<(string, string)>)
    requires (names == ProxyVars && other == BypassVars) || (names == BypassVars && other == ProxyVars)
    requires Terminated(s) && SingleLine(assigns) && AssignsOnly(assigns, names)
    ensures CountMatching(FileLines(Replace(s, kind, names, assigns)), Patterns(kind, other))
         == CountMatching(FileLines(s), Patterns(kind, other))
  {
    var u := RemoveMatchingText(s, Patterns(kind, names));
    RemoveMatchingTextLines(s, Patterns(kind, names));
    AppendCountOther(u, kind, assigns, names, other);
    RemovalKeepsOtherSet(FileLines(s), kind, names, other);
  }

  /** Setting the proxy leaves the `no_proxy`/`NO_PROXY` lines of a file untouched. */
  lemma SetProxyKeepsBypass(s: string, kind: ShellKind, ip: string, port: nat)
    requires Terminated(s) && OneLine(ip)
    ensures CountMatching(FileLines(SetProxyText(s, kind, ip, port)), Patterns(kind, BypassVars))
         == CountMatching(FileLines(s), Patterns(kind, BypassVars))
  {
    ProxyAssignmentsShape(ip, port);
    ReplaceKeepsOther(s, kind, ProxyVars, BypassVars, ProxyAssignments(ip, port));
  }

  /** Setting the bypass domains leaves the proxy lines of a file untouched. */
  lemma SetBypassKeepsProxy(s: string, kind: ShellKind, domains: seq<string>)
    requires Terminated(s) && NoNewline(domains)
    ensures CountMatching(FileLines(SetBypassText(s, kind, domains)), Patterns(kind, ProxyVars))
         == CountMatching(FileLines(s), Patterns(kind, ProxyVars))
  {
    BypassAssignmentsShape(domains);
    ReplaceKeepsOther(s, kind, BypassVars, ProxyVars, BypassAssignments(domains));
  }

  /** A line starting with `#` is never a managed line. */
  lemma CommentNotManaged(kind: ShellKind, names: seq<string>, rest: string)
    ensures !Matches(Patterns(kind, names), "#" + rest)
  {
    var ps := Patterns(kind, names).ps;
    forall i | 0 <= i < |ps| ensures !(ps[i] <= "#" + rest) {
      assert ps[i] == Pattern(kind, names[i]);
      assert ps[i][0] != ("#" + rest)[0];
    }
  }

  /** The one-line file `#` survives any removal pass unchanged. */
  lemma CommentFileSurvives(kind: ShellKind, names: seq<string>)
    ensures RemoveMatchingText("#", Patterns(kind, names)) == "#"
  {
    assert IsLine("#") && !Terminated("#");
    TranslateKeeps("#");
    ReadLinesSingle("#");
    CommentNotManaged(kind, names, "");
    assert "#" + "" == "#";
    assert RemoveMatching(["#"], Patterns(kind, names)) == ["#"] + RemoveMatching([], Patterns(kind, names));
    assert Concat(["#"]) == "#" + Concat([]);
  }

  /**
   * Appending a block to the file `#`: the first assignment is glued onto the `#` line, the
   * others follow as lines of their own.
   */
  lemma GluedLines(kind: ShellKind, assigns: seq<(string, string)>)
    requires SingleLine(assigns) && |assigns| > 0
    ensures var ls := AssignmentLines(kind, assigns);
            FileLines("#" + Render(kind, assigns)) == ["#" + ls[0]] + ls[1..]
  {
    RenderLines(kind, assigns);
    ConcatExcludes(AssignmentLines(kind, assigns), '\r');
    TranslateKeeps("#" + Render(kind, assigns));
    ReadLinesGlued("#", AssignmentLines(kind, assigns));
  }

  /** A removal pass after appending managed assignments to `#` keeps only the glued line. */
  lemma GluedLineSurvives(kind: ShellKind, assigns: seq<(string, string)>, names: seq<string>)
    requires SingleLine(assigns) && AssignsOnly(assigns, names) && |assigns| > 0
    ensures RemoveMatchingText("#" + Render(kind, assigns), Patterns(kind, names))
         == "#" + AssignmentLines(kind, assigns)[0]
  {
    var ls := AssignmentLines(kind, assigns);
    RenderLines(kind, assigns);
    AssignmentLinesManaged(kind, assigns, names);
    CommentNotManaged(kind, names, ls[0]);
    RemoveMatchingTextGlued("#", ls, Patterns(kind, names));
  }

  /**
   * A config file whose last line lacks its newline (here the one-character file `#`) has the
   * first appended assignment glued onto that line, where the removal regex no longer sees it:
   * a second `set_proxy_env_var` then adds a further copy instead of replacing it.
   */
  lemma UnterminatedFileGrows(kind: ShellKind, ip: string, port: nat)
    requires OneLine(ip)
    ensures FileLines(SetProxyText("#", kind, ip, port))[0]
         == "#" + Assignment(kind, "http_proxy", Url("http", ip, port))
    ensures |SetProxyText(SetProxyText("#", kind, ip, port), kind, ip, port)|
          > |SetProxyText("#", kind, ip, port)|
  {
    var assigns := ProxyAssignments(ip, port);
    var ls := AssignmentLines(kind, assigns);
    ProxyAssignmentsShape(ip, port);
    CommentFileSurvives(kind, ProxyVars);
    GluedLines(kind, assigns);
    GluedLineSurvives(kind, assigns, ProxyVars);
    assert assigns[0] == ("http_proxy", Url("http", ip, port));
  }

  /** All config files after a replace pass: an unset pass followed by an append pass. */
  function ReplaceFiles(fs: map<ShellKind, string>, ks: set<ShellKind>, names: seq<string>, assigns: seq<(string, string)>): map<ShellKind, string> {
    AppendFiles(UnsetFiles(fs, ks, names), ks, assigns)
  }

  /** Where the config files stand after a replace pass, shell by shell. */
  lemma ReplaceFilesAt(fs: map<ShellKind, string>, ks: set<ShellKind>, names: seq<string>, assigns: seq<(string, string)>, k: ShellKind)
    ensures k in ks ==> k in ReplaceFiles(fs, ks, names, assigns)
                        && ReplaceFiles(fs, ks, names, assigns)[k] == Replace(Get(fs, k), k, names, assigns)
    ensures k !in ks ==> (k in ReplaceFiles(fs, ks, names, assigns) <==> k in fs)
                         && (k in fs ==> ReplaceFiles(fs, ks, names, assigns)[k] == fs[k])
  {
    if k in ks && k !in fs {
      assert RemoveMatchingText("", Patterns(k, names)) == "";
    }
  }

  lemma ReplaceFilesIdempotentAt(fs: map<ShellKind, string>, ks: set<ShellKind>, names: seq<string>, assigns: seq<(string, string)>, k: ShellKind)
    requires k in fs && k in ks ==> Terminated(fs[k])
    requires SingleLine(assigns) && AssignsOnly(assigns, names)
    ensures var once := ReplaceFiles(fs, ks, names, assigns);
            var twice := ReplaceFiles(once, ks, names, assigns);
            (k in twice <==> k in once) && (k in twice ==> twice[k] == once[k])
  {
    var once := ReplaceFiles(fs, ks, names, assigns);
    ReplaceFilesAt(fs, ks, names, assigns, k);
    ReplaceFilesAt(once, ks, names, assigns, k);
    if k in ks {
      ReplaceIdempotent(Get(fs, k), k, names, assigns);
    }
  }

  /** A second replace pass with the same values leaves the files as the first one left them. */
  lemma ReplaceFilesIdempotent(fs: map<ShellKind, string>, ks: set<ShellKind>, names: seq<string>, assigns: seq<(string, string)>)
    requires forall k :: k in fs && k in ks ==> Terminated(fs[k])
    requires SingleLine(assigns) && AssignsOnly(assigns, names)
    ensures ReplaceFiles(ReplaceFiles(fs, ks, names, assigns), ks, names, assigns) == ReplaceFiles(fs, ks, names, assigns)
  {
    var once := ReplaceFiles(fs, ks, names, assigns);
    var twice := ReplaceFiles(once, ks, names, assigns);
    forall k ensures (k in twice <==> k in once) && (k in twice ==> twice[k] == once[k]) {
      ReplaceFilesIdempotentAt(fs, ks, names, assigns, k);
    }
    assert twice.Keys == once.Keys;
  }

  /**
   * Calling `set_proxy_env_var` twice leaves the config files as one call does, provided the
   * existing files of the installed shells end in a newline.
   */
  lemma SetProxyFilesIdempotent(fs: map<ShellKind, string>, ks: set<ShellKind>, ip: string, port: nat)
    requires forall k :: k in fs && k in ks ==> Terminated(fs[k])
    requires OneLine(ip)
    ensures SetProxyFiles(SetProxyFiles(fs, ks, ip, port), ks, ip, port) == SetProxyFiles(fs, ks, ip, port)
  {
    ProxyAssignmentsShape(ip, port);
    ReplaceFilesIdempotent(fs, ks, ProxyVars, ProxyAssignments(ip, port));
  }

  /** The same for `set_bypass_domains_env_var`. */
  lemma SetBypassFilesIdempotent(fs: map<ShellKind, string>, ks: set<ShellKind>, domains: seq<string>)
    requires forall k :: k in fs && k in ks ==> Terminated(fs[k])
    requires NoNewline(domains)
    ensures SetBypassFiles(SetBypassFiles(fs, ks, domains), ks, domains) == SetBypassFiles(fs, ks, domains)
  {
    BypassAssignmentsShape(domains);
    ReplaceFilesIdempotent(fs, ks, BypassVars, BypassAssignments(domains));
  }

  /**
   * `ShellEnvVar`: the proxy address, port and bypass domains it writes, the shells whose
   * binary was found when it was built, and the config file of each shell (an absent key is
   * a config file that does not exist).
   */
  class ShellEnvVar {
    const ipAddress: string
    const port: nat
    const bypassDomains: seq<string>
    const installed: set<ShellKind>
    var files: map<ShellKind, string>

    /** `installed` stands for the answers of `which bash`, `which zsh` and `which fish`. */
    constructor (ipAddress: string, port: nat, bypassDomains: seq<string>, installed: set<ShellKind>, files: map<ShellKind, string>)
      ensures this.ipAddress == ipAddress && this.port == port && this.bypassDomains == bypassDomains
      ensures this.installed == installed && this.files == files
    {
      this.ipAddress := ipAddress;
      this.port := port;
      this.bypassDomains := bypassDomains;
      this.installed := installed;
      this.files := files;
    }

    /** Rewrites the config file of `kind` with the lines no pattern matches. */
    method RemoveMatchingLines(lines: seq<string>, m: Matcher, kind: ShellKind)
      modifies this
      ensures files == old(files)[kind := Concat(RemoveMatching(lines, m))]
    {
      var text := WriteUnmatched(lines, m);
      files := files[kind := text];
    }

    /** The loop shared by both unset operations: one removal pass per installed shell. */
    method UnsetVars(names: seq<string>)
      modifies this
      ensures files == UnsetFiles(old(files), installed, names)
    {
      var i := 0;
      while i < |AllShells|
        invariant i <= |AllShells|
        invariant files == UnsetPass(old(files), AllShells[..i], installed, names)
      {
        var kind := AllShells[i];
        if kind in installed && kind in files {
          var lines := FileLines(files[kind]);
          RemoveMatchingLines(lines, Patterns(kind, names), kind);
        }
        assert AllShells[..i + 1][..i] == AllShells[..i];
        i := i + 1;
      }
      assert AllShells[..i] == AllShells;
      UnsetPassAll(old(files), installed, names);
    }

    /** Creates the config file of `kind` when it is missing, then appends the assignments. */
    method AppendToConfig(kind: ShellKind, assigns: seq<(string, string)>)
      modifies this
      ensures files == old(files)[kind := Get(old(files), kind) + Render(kind, assigns)]
    {
      if kind !in files {
        files := files[kind := ""];
      }
      files := files[kind := files[kind] + Render(kind, assigns)];
    }

    /** The loop shared by both set operations: one append per installed shell. */
    method AppendAssignments(assigns: seq<(string, string)>)
      modifies this
      ensures files == AppendFiles(old(files), installed, assigns)
    {
      var i := 0;
      while i < |AllShells|
        invariant i <= |AllShells|
        invariant files == AppendPass(old(files), AllShells[..i], installed, assigns)
      {
        var kind := AllShells[i];
        if kind in installed {
          AppendToConfig(kind, assigns);
        }
        assert AllShells[..i + 1][..i] == AllShells[..i];
        i := i + 1;
      }
      assert AllShells[..i] == AllShells;
      AppendPassAll(old(files), installed, assigns);
    }

    method UnsetProxyEnvVar()
      modifies this
      ensures files == UnsetFiles(old(files), installed, ProxyVars)
    {
      UnsetVars(ProxyVars);
    }

    method SetProxyEnvVar()
      modifies this
      ensures files == SetProxyFiles(old(files), installed, ipAddress, port)
    {
      UnsetProxyEnvVar();
      AppendAssignments(ProxyAssignments(ipAddress, port));
    }

    method UnsetBypassDomainsEnvVar()
      modifies this
      ensures files == UnsetFiles(old(files), installed, BypassVars)
    {
      UnsetVars(BypassVars);
    }

    method SetBypassDomainsEnvVar()
      modifies this
      ensures files == SetBypassFiles(old(files), installed, bypassDomains)
    {
      UnsetBypassDomainsEnvVar();
      AppendAssignments(BypassAssignments(bypassDomains));
    }
  }
}
