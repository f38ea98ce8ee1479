/**
 * The shell projection of proxverter (`ShellEnvVar`): enabling appends the proxy and bypass
 * assignments to each installed shell's config file without removing earlier ones, and
 * disabling removes every managed line of both sets.
 */
module ProxShell {
  import opened Text
  import opened Lines
  import opened ManagedLines

  /** The URL schemes of the eight proxy variables; here the https pair gets `https://`. */
  const ProxySchemes: seq<string> := ["http", "http", "https", "https", "ftp", "ftp", "rsync", "rsync"]

  /** The eight proxy variables and the URLs they are set to. */
  function ProxyAssignments(ip: string, port: nat): seq<(string, string)> {
    ProxyPairs(ProxySchemes, ip, port)
  }

  /** Every variable either operation manages. */
  const ManagedVars: seq<string> := ProxyVars + BypassVars

  /** One config file after `write_proxy_env_var` and then `write_bypass_domains_env_var`. */
  function EnableText(s: string, kind: ShellKind, ip: string, port: nat, domains: seq<string>): string {
    s + Render(kind, ProxyAssignments(ip, port)) + Render(kind, BypassAssignments(domains))
  }

  /** One config file after `del_proxy_env_var` and then `del_bypass_domains_env_var`. */
  function DisableText(s: string, kind: ShellKind): string {
    RemoveMatchingText(RemoveMatchingText(s, Patterns(kind, ProxyVars)), Patterns(kind, BypassVars))
  }

  /** All config files after `enable_proxy`. */
  function EnableFiles(fs: map<ShellKind, string>, ks: set<ShellKind>, ip: string, port: nat, domains: seq<string>): map<ShellKind, string> {
    AppendFiles(fs, ks, ProxyAssignments(ip, port) + BypassAssignments(domains))
  }

  /** All config files after `disable_proxy`. */
  function DisableFiles(fs: map<ShellKind, string>, ks: set<ShellKind>): map<ShellKind, string> {
    UnsetFiles(fs, ks, ManagedVars)
  }

  lemma ProxyAssignmentsShape(ip: string, port: nat)
    requires OneLine(ip)
    ensures SingleLine(ProxyAssignments(ip, port)) && AssignsOnly(ProxyAssignments(ip, port), ProxyVars)
    ensures |ProxyAssignments(ip, port)| == 8
  {
    ProxyPairsShape(ProxySchemes, ip, port);
  }

  /** Everything `enable_proxy` writes is a managed single-line assignment. */
  lemma EnableAssignmentsShape(ip: string, port: nat, domains: seq<string>)
    requires OneLine(ip) && NoNewline(domains)
    ensures SingleLine(ProxyAssignments(ip, port) + BypassAssignments(domains))
    ensures AssignsOnly(ProxyAssignments(ip, port) + BypassAssignments(domains), ManagedVars)
  {
    var pa: seq<(string, string)> := ProxyAssignments(ip, port);
    var ba: seq<(string, string)> := BypassAssignments(domains);
    ProxyAssignmentsShape(ip, port);
    BypassAssignmentsShape(domains);
    forall i | 0 <= i < |pa + ba|
      ensures OneLine((pa + ba)[i].0) && OneLine((pa + ba)[i].1) && (pa + ba)[i].0 in ManagedVars
    {
      if i < |pa| {
        assert (pa + ba)[i] == pa[i];
      } else {
        assert (pa + ba)[i] == ba[i - |pa|];
      }
    }
  }

  /** Disabling is one removal pass with the proxy and the bypass patterns together. */
  lemma DisableTextUnion(s: string, kind: ShellKind)
    ensures DisableText(s, kind) == RemoveMatchingText(s, Patterns(kind, ManagedVars))
  {
    PatternsUnion(kind, ProxyVars, BypassVars);
    RemoveMatchingTextUnion(s, Patterns(kind, ProxyVars), Patterns(kind, BypassVars), Patterns(kind, ManagedVars));
  }

  /**
   * Enabling keeps every line of a config file that ends in a newline and appends the eight
   * proxy lines and then the two bypass lines.
   */
  lemma EnableLayout(s: string, kind: ShellKind, ip: string, port: nat, domains: seq<string>)
    requires Terminated(s) && OneLine(ip) && NoNewline(domains)
    ensures FileLines(EnableText(s, kind, ip, port, domains))
         == FileLines(s) + AssignmentLines(kind, ProxyAssignments(ip, port)) + AssignmentLines(kind, BypassAssignments(domains))
  {
    var rp, rb := Render(kind, ProxyAssignments(ip, port)), Render(kind, BypassAssignments(domains));
    ProxyAssignmentsShape(ip, port);
    BypassAssignmentsShape(domains);
    RenderLines(kind, ProxyAssignments(ip, port));
    RenderLines(kind, BypassAssignments(domains));
    FileLinesAppend(s, AssignmentLines(kind, ProxyAssignments(ip, port)));
    assert Terminated(s + rp);
    FileLinesAppend(s + rp, AssignmentLines(kind, BypassAssignments(domains)));
  }

  /**
   * Enabling does not replace earlier proxy lines: each call adds eight more proxy lines and
   * two more bypass lines to a config file that ends in a newline.
   */
  lemma EnableAccumulates(s: string, kind: ShellKind, ip: string, port: nat, domains: seq<string>)
    requires Terminated(s) && OneLine(ip) && NoNewline(domains)
    ensures CountMatching(FileLines(EnableText(s, kind, ip, port, domains)), Patterns(kind, ProxyVars))
         == CountMatching(FileLines(s), Patterns(kind, ProxyVars)) + 8
    ensures CountMatching(FileLines(EnableText(s, kind, ip, port, domains)), Patterns(kind, BypassVars))
         == CountMatching(FileLines(s), Patterns(kind, BypassVars)) + 2
  {
    var pa, ba := ProxyAssignments(ip, port), BypassAssignments(domains);
    ProxyAssignmentsShape(ip, port);
    BypassAssignmentsShape(domains);
    AppendCount(s, kind, pa, ProxyVars);
    AppendCountOther(s, kind, pa, ProxyVars, BypassVars);
    AppendCount(s + Render(kind, pa), kind, ba, BypassVars);
    AppendCountOther(s + Render(kind, pa), kind, ba, BypassVars, ProxyVars);
  }

  /** After disabling, no proxy or bypass line is left, and every other line is kept in order. */
  lemma DisableRemovesAll(s: string, kind: ShellKind)
    ensures FileLines(DisableText(s, kind)) == RemoveMatching(FileLines(s), Patterns(kind, ManagedVars))
    ensures CountMatching(FileLines(DisableText(s, kind)), Patterns(kind, ManagedVars)) == 0
  {
    var m := Patterns(kind, ManagedVars);
    DisableTextUnion(s, kind);
    RemoveMatchingTextLines(s, m);
    RemoveMatchingNone(RemoveMatching(FileLines(s), m), m);
  }

  /** Disabling twice leaves the file one disable leaves. */
  lemma DisableIdempotent(s: string, kind: ShellKind)
    ensures DisableText(DisableText(s, kind), kind) == DisableText(s, kind)
  {
    DisableTextUnion(s, kind);
    DisableTextUnion(DisableText(s, kind), kind);
    RemoveMatchingTextIdempotent(s, Patterns(kind, ManagedVars));
  }

  /** Disabling after enabling leaves what disabling alone leaves. */
  lemma DisableAfterEnable(s: string, kind: ShellKind, ip: string, port: nat, domains: seq<string>)
    requires Terminated(s) && OneLine(ip) && NoNewline(domains)
    ensures DisableText(EnableText(s, kind, ip, port, domains), kind) == DisableText(s, kind)
  {
    var pa, ba := ProxyAssignments(ip, port), BypassAssignments(domains);
    ProxyAssignmentsShape(ip, port);
    BypassAssignmentsShape(domains);
    assert AssignsOnly(pa, ManagedVars) && AssignsOnly(ba, ManagedVars);
    AppendCount(s, kind, pa, ProxyVars);
    RemoveAfterAppend(s + Render(kind, pa), kind, ba, ManagedVars);
    RemoveAfterAppend(s, kind, pa, ManagedVars);
    DisableTextUnion(s, kind);
    DisableTextUnion(EnableText(s, kind, ip, port, domains), kind);
  }

  /**
   * A config file that ends in a newline and has no managed line comes back from an enable
   * followed by a disable with only its line ends normalised; one without '\r' comes back
   * unchanged.
   */
  lemma EnableDisableRoundTrip(s: string, kind: ShellKind, ip: string, port: nat, domains: seq<string>)
    requires Terminated(s) && OneLine(ip) && NoNewline(domains)
    requires forall i :: 0 <= i < |FileLines(s)| ==> !Matches(Patterns(kind, ManagedVars), FileLines(s)[i])
    ensures DisableText(EnableText(s, kind, ip, port, domains), kind) == Translate(s)
    ensures '\r' !in s ==> DisableText(EnableText(s, kind, ip, port, domains), kind) == s
  {
    DisableAfterEnable(s, kind, ip, port, domains);
    DisableTextUnion(s, kind);
    RemoveMatchingTextNone(s, Patterns(kind, ManagedVars));
  }

  /** `unset_bypass_domains` after `set_bypass_domains` leaves what the unset alone leaves. */
  lemma UnsetBypassAfterSet(s: string, kind: ShellKind, domains: seq<string>)
    requires Terminated(s) && NoNewline(domains)
    ensures RemoveMatchingText(s + Render(kind, BypassAssignments(domains)), Patterns(kind, BypassVars))
         == RemoveMatchingText(s, Patterns(kind, BypassVars))
  {
    BypassAssignmentsShape(domains);
    RemoveAfterAppend(s, kind, BypassAssignments(domains), BypassVars);
  }

  /**
   * `disable_proxy` after `enable_proxy` restores every config file that ended in a newline and
   * had no managed line, up to its line ends; the only other trace is an empty config file for
   * an installed shell that had none.
   */
  lemma DisableAfterEnableFiles(fs: map<ShellKind, string>, ks: set<ShellKind>, ip: string, port: nat, domains: seq<string>)
    requires OneLine(ip) && NoNewline(domains)
    requires forall k :: k in fs && k in ks ==> Terminated(fs[k])
    requires forall k, i :: k in fs && k in ks && 0 <= i < |FileLines(fs[k])| ==>
               !Matches(Patterns(k, ManagedVars), FileLines(fs[k])[i])
    ensures DisableFiles(EnableFiles(fs, ks, ip, port, domains), ks) == map k | k in fs.Keys + ks :: Restored(fs, ks, k)
    ensures (forall k :: k in fs ==> '\r' !in fs[k]) ==>
              DisableFiles(EnableFiles(fs, ks, ip, port, domains), ks) == map k | k in fs.Keys + ks :: Get(fs, k)
  {
    EnableAssignmentsShape(ip, port, domains);
    UnsetAfterAppendFiles(fs, ks, ProxyAssignments(ip, port) + BypassAssignments(domains), ManagedVars);
    if forall k :: k in fs ==> '\r' !in fs[k] {
      RestoredPlain(fs, ks);
    }
  }

  /**
   * proxverter's `ShellEnvVar`: the proxy address, port and bypass domains it writes, the
   * shells whose binary was found when it was built, and the config file of each shell (an
   * absent key is a config file that does not exist).
   */
  class ShellEnvVar {
    const ipAddress: string
    const port: nat
    const bypassDomains: seq<string>
    /** The lines `write_proxy_env_var` writes, in order, as (variable, value) pairs. */
    const proxyAssigns: seq<(string, string)>
    /** The lines `write_bypass_domains_env_var` writes. */
    const bypassAssigns: seq<(string, string)>
    const installed: set<ShellKind>
    var files: map<ShellKind, string>

    /** `installed` stands for the answers of `which bash`, `which zsh` and `which fish`. */
    constructor (ipAddress: string, port: nat, bypassDomains: seq<string>, installed: set<ShellKind>, files: map<ShellKind, string>)
      ensures this.ipAddress == ipAddress && this.port == port && this.bypassDomains == bypassDomains
      ensures this.installed == installed && this.files == files
      ensures proxyAssigns == ProxyAssignments(ipAddress, port) && bypassAssigns == BypassAssignments(bypassDomains)
    {
      this.ipAddress := ipAddress;
      this.port := port;
      this.bypassDomains := bypassDomains;
      this.proxyAssigns := ProxyAssignments(ipAddress, port);
      this.bypassAssigns := BypassAssignments(bypassDomains);
      this.installed := installed;
      this.files := files;
    }

    /** Rewrites the config file of `kind` with the lines no pattern matches. */
    method RemoveMatchingLines(lines: seq<string>, m: Matcher, kind: ShellKind)
      modifies this
      ensures files == old(files)[kind := Concat(RemoveMatching(lines, m))]
    {
      var text := WriteUnmatched(lines, m);
      files := files[kind := text];
    }

    /** Creates the config file when it is missing, then appends the eight proxy assignments. */
    method WriteProxyEnvVar(kind: ShellKind)
      modifies this
      ensures files == old(files)[kind := Get(old(files), kind) + Render(kind, proxyAssigns)]
    {
      if kind !in files {
        files := files[kind := ""];
      }
      files := files[kind := files[kind] + Render(kind, proxyAssigns)];
    }

    /** Creates the config file when it is missing, then appends `no_proxy` and `NO_PROXY`. */
    method WriteBypassDomainsEnvVar(kind: ShellKind)
      modifies this
      ensures files == old(files)[kind := Get(old(files), kind) + Render(kind, bypassAssigns)]
    {
      if kind !in files {
        files := files[kind := ""];
      }
      files := files[kind := files[kind] + Render(kind, bypassAssigns)];
    }

    /** Removes the proxy lines from an existing config file; a missing one stays missing. */
    method DelProxyEnvVar(kind: ShellKind)
      modifies this
      ensures kind in old(files) ==> files == old(files)[kind := RemoveMatchingText(old(files)[kind], Patterns(kind, ProxyVars))]
      ensures kind !in old(files) ==> files == old(files)
    {
      if kind !in files {
        return;
      }
      var lines := FileLines(files[kind]);
      RemoveMatchingLines(lines, Patterns(kind, ProxyVars), kind);
    }

    /** Removes the bypass lines from an existing config file; a missing one stays missing. */
    method DelBypassDomainsEnvVar(kind: ShellKind)
      modifies this
      ensures kind in old(files) ==> files == old(files)[kind := RemoveMatchingText(old(files)[kind], Patterns(kind, BypassVars))]
      ensures kind !in old(files) ==> files == old(files)
    {
      if kind !in files {
        return;
      }
      var lines := FileLines(files[kind]);
      RemoveMatchingLines(lines, Patterns(kind, BypassVars), kind);
    }

    /** The body of the `enable_proxy` loop for one installed shell. */
    method EnableShell(kind: ShellKind)
      modifies this
      ensures files == old(files)[kind := Get(old(files), kind)
                                         + Render(kind, proxyAssigns + bypassAssigns)]
    {
      AppendTwice(Get(files, kind), kind, proxyAssigns, bypassAssigns);
      WriteProxyEnvVar(kind);
      WriteBypassDomainsEnvVar(kind);
    }

    method EnableProxy()
      modifies this
      ensures files == AppendFiles(old(files), installed, proxyAssigns + bypassAssigns)
    {
      var assigns := proxyAssigns + bypassAssigns;
      var i := 0;
      while i < |AllShells|
        invariant i <= |AllShells|
        invariant files == AppendPass(old(files), AllShells[..i], installed, assigns)
      {
        var kind := AllShells[i];
        if kind in installed {
          EnableShell(kind);
        }
        assert AllShells[..i + 1][..i] == AllShells[..i];
        i := i + 1;
      }
      assert AllShells[..i] == AllShells;
      AppendPassAll(old(files), installed, assigns);
    }

    /** The body of the `disable_proxy` loop for one installed shell. */
    method DisableShell(kind: ShellKind)
      modifies this
      ensures kind in old(files) ==> files == old(files)[kind := RemoveMatchingText(old(files)[kind], Patterns(kind, ManagedVars))]
      ensures kind !in old(files) ==> files == old(files)
    {
      if kind in files {
        DisableTextUnion(files[kind], kind);
      }
      DelProxyEnvVar(kind);
      DelBypassDomainsEnvVar(kind);
    }

    method DisableProxy()
      modifies this
      ensures files == DisableFiles(old(files), installed)
    {
      var i := 0;
      while i < |AllShells|
        invariant i <= |AllShells|
        invariant files == UnsetPass(old(files), AllShells[..i], installed, ManagedVars)
      {
        var kind := AllShells[i];
        if kind in installed {
          DisableShell(kind);
        }
        assert AllShells[..i + 1][..i] == AllShells[..i];
        i := i + 1;
      }
      assert AllShells[..i] == AllShells;
      UnsetPassAll(old(files), installed, ManagedVars);
    }

    method SetBypassDomains()
      modifies this
      ensures files == AppendFiles(old(files), installed, bypassAssigns)
    {
      var assigns := bypassAssigns;
      var i := 0;
      while i < |AllShells|
        invariant i <= |AllShells|
        invariant files == AppendPass(old(files), AllShells[..i], installed, assigns)
      {
        var kind := AllShells[i];
        if kind in installed {
          WriteBypassDomainsEnvVar(kind);
        }
        assert AllShells[..i + 1][..i] == AllShells[..i];
        i := i + 1;
      }
      assert AllShells[..i] == AllShells;
      AppendPassAll(old(files), installed, assigns);
    }

    method UnsetBypassDomains()
      modifies this
      ensures files == UnsetFiles(old(files), installed, BypassVars)
    {
      var i := 0;
      while i < |AllShells|
        invariant i <= |AllShells|
        invariant files == UnsetPass(old(files), AllShells[..i], installed, BypassVars)
      {
        var kind := AllShells[i];
        if kind in installed {
          DelBypassDomainsEnvVar(kind);
        }
        assert AllShells[..i + 1][..i] == AllShells[..i];
        i := i + 1;
      }
      assert AllShells[..i] == AllShells;
      UnsetPassAll(old(files), installed, BypassVars);
    }
  }
}
