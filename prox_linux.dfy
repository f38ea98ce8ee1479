/**
 * proxverter's Linux backend (`LinuxProxy`). It patches four configuration files in place:
 * `set_*_vars` rewrites every proxy line of a file so that it points at the proxy, or writes
 * a fixed block when the file has none; `rem_*_vars` deletes every line that contains one of
 * the file's proxy markers. `join` runs the four writers, `del_proxy` the four removers.
 */
module ProxLinux {
  import opened Wrappers
  import opened Text
  import opened Lines

  /** /etc/apt/apt.conf, /etc/environment, /etc/bash.bashrc and /etc/wgetrc. */
  datatype ConfFile = AptConf | EnvConf | BashConf | WgetConf

  /** The exceptions the operations raise. */
  datatype Failure =
    | FileNotFound(file: ConfFile)  // opening a file that does not exist
    | IndexError(file: ConfFile)    // `l[-1]` on the lines of an empty file
    | NotRoot                       // constructing the proxy without root privileges

  /** The `ip:port` text every rewritten line points at. */
  function Address(ip: string, port: string): string {
    ip + ":" + port
  }

  // ---------------------------------------------------------------------------------------
  // The in-place pass of `set_*_vars`

  /** Whether the in-place pass of `set_*_vars` treats a line as a proxy line. */
  predicate Qualifies(f: ConfFile, line: string) {
    match f
    case EnvConf => Contains(line, "proxy")
    case AptConf => Contains(line, "Acquire::") && !Contains(line, "Cache")
    case BashConf => Contains(line, "export")
    case WgetConf => !("#" <= line) && Contains(line, "proxy")
  }

  /**
   * The match of the regex `lead(.*)mid(.*)tail(.*)` that `re.sub` finds in a line without
   * '\n': the text before the match and the text the first group captures. The match starts
   * at the first occurrence of `lead` (a match from a later occurrence also fits from the
   * first one) and runs to the end of the line; the greedy group ends at the last `mid` that
   * is followed by `tail`.
   */
  function GreedyMatch(s: string, lead: string, mid: string, tail: string): (r: Option<(string, string)>)
    ensures r.Some? ==> Contains(s, lead)
  {
    match Find(s, lead)
    case None => None
    case Some(p) =>
      var t := s[p + |lead|..];
      match LastWhere(t, mid, tail, |t| + 1)
      case None => None
      case Some(j) => Some((s[..p], t[..j]))
  }

  /**
   * The regex each writer substitutes, as `(lead, mid, tail)`: `(.*)_proxy=(.*)`,
   * `Acquire::(.*)::proxy (.*)`, `export (.*)_proxy=(.*)` and `(.*)_proxy=(.*)//(.*)`.
   */
  function Pattern(f: ConfFile): (string, string, string) {
    match f
    case EnvConf => ("", "_proxy=", "")
    case AptConf => ("Acquire::", "::proxy ", "")
    case BashConf => ("export ", "_proxy=", "")
    case WgetConf => ("", "_proxy=", "//")
  }

  /**
   * What each writer puts in place of the match, for the captured scheme `g`:
   * `g_proxy="g://ip:port/"` in /etc/environment, `Acquire::g::proxy "g://ip:port/";` in
   * apt.conf, `export g_proxy=g://ip:port` in bash.bashrc and `g_proxy=g://ip:port` in wgetrc,
   * each ending in a newline.
   */
  function Replacement(f: ConfFile, g: string, addr: string): string {
    Pattern(f).0 + g + Pattern(f).1 + ReplacementValue(f, g, addr) + "\n"
  }

  /** What follows the pattern's middle part in the line a writer writes. */
  function ReplacementValue(f: ConfFile, g: string, addr: string): string {
    match f
    case EnvConf => "\"" + g + "://" + addr + "/\""
    case AptConf => "\"" + g + "://" + addr + "/\";"
    case _ => g + "://" + addr
  }

  /**
   * A proxy line after `re.sub(pattern, replacement, line.rstrip())`. When the regex does not
   * match, the stripped line is written back as it is, without its '\n'.
   */
  function Rewrite(f: ConfFile, line: string, addr: string): string {
    var s := StripRight(line);
    var (lead, mid, tail) := Pattern(f);
    match GreedyMatch(s, lead, mid, tail)
    case None => s
    case Some((before, g)) => before + Replacement(f, g, addr)
  }

  /** One line as the in-place pass writes it: rewritten if it is a proxy line. */
  function Written(f: ConfFile, line: string, addr: string): string {
    if Qualifies(f, line) then Rewrite(f, line, addr) else line
  }

  /** Every line as the in-place pass writes it. */
  function RewriteLines(f: ConfFile, ls: seq<string>, addr: string): seq<string> {
    seq(|ls|, i requires 0 <= i < |ls| => Written(f, ls[i], addr))
  }

  lemma RewriteLinesSnoc(f: ConfFile, ls: seq<string>, line: string, addr: string)
    ensures RewriteLines(f, ls + [line], addr) == RewriteLines(f, ls, addr) + [Written(f, line, addr)]
    ensures AnyQualifies(f, ls + [line]) == (AnyQualifies(f, ls) || Qualifies(f, line))
  {
    assert (ls + [line])[|ls|] == line;
    assert forall i :: 0 <= i < |ls| ==> (ls + [line])[i] == ls[i];
  }

  /** The `exists` flag after the pass. */
  predicate AnyQualifies(f: ConfFile, ls: seq<string>) {
    exists i :: 0 <= i < |ls| && Qualifies(f, ls[i])
  }

  /**
   * The in-place pass: each line is written back in turn, rewritten if it is a proxy line,
   * and the flag records whether any was.
   */
  method RewritePass(f: ConfFile, lines: seq<string>, addr: string) returns (text: string, found: bool)
    ensures text == Concat(RewriteLines(f, lines, addr))
    ensures found == AnyQualifies(f, lines)
  {
    text := "";
    found := false;
    var i := 0;
    while i < |lines|
      invariant 0 <= i <= |lines|
      invariant text == Concat(RewriteLines(f, lines[..i], addr))
      invariant found == AnyQualifies(f, lines[..i])
    {
      var line := lines[i];
      assert lines[..i + 1] == lines[..i] + [line];
      RewriteLinesSnoc(f, lines[..i], line, addr);
      ConcatAppend(RewriteLines(f, lines[..i], addr), [Written(f, line, addr)]);
      ConcatOne(Written(f, line, addr));
      if Qualifies(f, line) {
        found := true;
        line := Rewrite(f, line, addr);
      }
      text := text + line;
      i := i + 1;
    }
    assert lines[..i] == lines;
  }

  // ---------------------------------------------------------------------------------------
  // The fallback when a file has no proxy line

  /** The PATH setting /etc/environment is rewritten with. */
  const PathSetting: string :=
    "PATH=\"/usr/local/sbin:" + "/usr/local/bin:" + "/usr/sbin:" + "/usr/bin:" + "/sbin:" + "/bin:" +
    "/usr/games:" + "/usr/local/games\""

  const PathLine: string := PathSetting + "\n"

  /** The apt setting written between the ftp and socks proxies. */
  const NoCacheSetting: string := "Acquire::http" + "::No-" + "Cache" + " \"True\";"

  const NoCacheLine: string := NoCacheSetting + "\n"

  /** The lines a writer puts in a file that has no proxy line. */
  function FallbackLines(f: ConfFile, addr: string): seq<string> {
    match f
    case EnvConf =>
      [PathLine, Replacement(f, "http", addr), Replacement(f, "https", addr),
       Replacement(f, "ftp", addr), Replacement(f, "socks", addr)]
    case AptConf =>
      [Replacement(f, "http", addr), Replacement(f, "https", addr), Replacement(f, "ftp", addr),
       NoCacheLine, Replacement(f, "socks", addr)]
    case _ =>
      [Replacement(f, "http", addr), Replacement(f, "https", addr), Replacement(f, "ftp", addr)]
  }

  /** A text with a '\n' added when it has a last line that lacks one. */
  function EndLine(s: string): string {
    if s == "" || s[|s| - 1] == '\n' then s else s + "\n"
  }

  /**
   * A file after `set_*_vars`: its proxy lines rewritten; or, with none, overwritten by the
   * fallback block (environment, apt) or with the block appended (bash, wget), where an empty
   * file raises IndexError. The in-place pass reads with universal newlines and writes every
   * line back, so the fallback sees the file with its line ends normalised.
   */
  function SetVarsText(f: ConfFile, s: string, addr: string): Result<string, Failure> {
    var ls := FileLines(s);
    if AnyQualifies(f, ls) then Ok(Concat(RewriteLines(f, ls, addr)))
    else FallbackText(f, Translate(s), addr)
  }

  /** A file without proxy lines after the fallback of `set_*_vars`. */
  function FallbackText(f: ConfFile, s: string, addr: string): Result<string, Failure> {
    if f == EnvConf || f == AptConf then Ok(Concat(FallbackLines(f, addr)))
    else if s == "" then Err(IndexError(f))
    else Ok(EndLine(s) + Concat(FallbackLines(f, addr)))
  }

  /** The outcome of one operation: what it raised, and the files afterwards. */
  type Outcome = (Result<(), Failure>, map<ConfFile, string>)

  function SetVarsFiles(fs: map<ConfFile, string>, f: ConfFile, addr: string): Outcome {
    if f !in fs then (Err(FileNotFound(f)), fs)
    else match SetVarsText(f, fs[f], addr)
      case Ok(t) => (Ok(()), fs[f := t])
      case Err(e) => (Err(e), fs)
  }

  // ---------------------------------------------------------------------------------------
  // `rem_*_vars`

  /**
   * The substring that marks a line for deletion for one scheme: `g_proxy` in /etc/environment
   * and wgetrc, `export g_proxy` in bash.bashrc, `Acquire::g` in apt.conf.
   */
  function Marker(f: ConfFile, g: string): string {
    if f == AptConf then "Acquire::" + g else Pattern(f).0 + g + "_proxy"
  }

  /** The substrings that mark a line for deletion in each file, for http, https, ftp and socks. */
  function Markers(f: ConfFile): Matcher {
    Substrings([Marker(f, "http"), Marker(f, "https"), Marker(f, "ftp"), Marker(f, "socks")])
  }

  function RemVarsFiles(fs: map<ConfFile, string>, f: ConfFile): Outcome {
    if f !in fs then (Err(FileNotFound(f)), fs)
    else (Ok(()), fs[f := RemoveMatchingText(fs[f], Markers(f))])
  }

  // ---------------------------------------------------------------------------------------
  // `join` and `del_proxy`

  const JoinOrder: seq<ConfFile> := [EnvConf, AptConf, BashConf, WgetConf]

  const DelOrder: seq<ConfFile> := [WgetConf, BashConf, AptConf, EnvConf]

  /** The writers run on the files in `order`, stopping at the first exception. */
  function SetAll(order: seq<ConfFile>, fs: map<ConfFile, string>, addr: string): Outcome {
    if order == [] then (Ok(()), fs)
    else
      var (r, fs') := SetVarsFiles(fs, order[0], addr);
      if r.Err? then (r, fs') else SetAll(order[1..], fs', addr)
  }

  /** The removers run on the files in `order`, stopping at the first exception. */
  function RemAll(order: seq<ConfFile>, fs: map<ConfFile, string>): Outcome {
    if order == [] then (Ok(()), fs)
    else
      var (r, fs') := RemVarsFiles(fs, order[0]);
      if r.Err? then (r, fs') else RemAll(order[1..], fs')
  }

  /** With no proxy line, the in-place pass writes back the file with '\n' line ends. */
  lemma FallbackAfterPass(f: ConfFile, s: string, addr: string)
    requires !AnyQualifies(f, FileLines(s))
    ensures Concat(RewriteLines(f, FileLines(s), addr)) == Translate(s) && '\r' !in Translate(s)
    ensures SetVarsText(f, s, addr) == FallbackText(f, Translate(s), addr)
    ensures Translate(s) == "" ==> s == ""
  {
    RewriteLinesNone(f, FileLines(s), addr);
    ConcatFileLines(s);
    TranslateNoCr(s);
  }

  /** What the appending fallback does, read off the lines of a text without '\r'. */
  lemma FallbackOutcome(f: ConfFile, x: string, addr: string)
    requires f != EnvConf && f != AptConf && '\r' !in x
    ensures FileLines(x) == [] ==> FallbackText(f, x, addr) == Err(IndexError(f))
    ensures FileLines(x) != [] ==> var l := FileLines(x);
      l[|l| - 1] != "" &&
      FallbackText(f, x, addr) == Ok((if l[|l| - 1][|l[|l| - 1]| - 1] != '\n' then x + "\n" else x) + Concat(FallbackLines(f, addr)))
  {
    FileLinesPlain(x);
    LastLineEnds(x);
  }

  /**
   * `set_*_vars` stated from the file as the in-place pass left it (`x`): a written text
   * replaces it, and an exception leaves it, which must then be the old file.
   */
  lemma SetVarsOutcome(fs: map<ConfFile, string>, f: ConfFile, addr: string, x: string, v: Result<string, Failure>)
    requires f in fs && SetVarsText(f, fs[f], addr) == v
    requires v.Err? ==> fs[f] == x
    ensures SetVarsFiles(fs, f, addr) == match v
              case Ok(t) => (Ok(()), fs[f := x][f := t])
              case Err(e) => (Err(e), fs[f := x])
  {
    if v.Ok? {
      assert fs[f := x][f := v.value] == fs[f := v.value];
    } else {
      assert fs[f := x] == fs;
    }
  }

  class LinuxProxy {
    const ipAddress: string
    const port: string
    /** The contents of the configuration files that exist. */
    var files: map<ConfFile, string>

    /** `__init__` for the root user: the port is kept as text and apt.conf is created if missing. */
    constructor (ipAddress: string, port: nat, files: map<ConfFile, string>)
      ensures this.ipAddress == ipAddress && this.port == NatToString(port)
      ensures this.files == if AptConf in files then files else files[AptConf := ""]
    {
      this.ipAddress := ipAddress;
      this.port := NatToString(port);
      this.files := if AptConf in files then files else files[AptConf := ""];
    }

    /**
     * `__init__` with its privilege check: a caller whose effective user id is not 0 gets
     * OSError, before apt.conf is created.
     */
    static method Open(ipAddress: string, port: nat, euid: nat, files: map<ConfFile, string>)
      returns (r: Result<LinuxProxy, Failure>)
      ensures r.Err? <==> euid != 0
      ensures r.Err? ==> r.error == NotRoot
      ensures r.Ok? ==> fresh(r.value) && r.value.ipAddress == ipAddress && r.value.port == NatToString(port)
      ensures r.Ok? ==> r.value.files == if AptConf in files then files else files[AptConf := ""]
    {
      if euid != 0 {
        return Err(NotRoot);
      }
      var p := new LinuxProxy(ipAddress, port, files);
      r := Ok(p);
    }

    /** `set_env_vars`, `set_apt_vars`, `set_bash_vars` and `set_wget_vars`. */
    method SetVars(f: ConfFile) returns (r: Result<(), Failure>)
      modifies this
      ensures (r, files) == SetVarsFiles(old(files), f, Address(ipAddress, port))
    {
      if f !in files {
        return Err(FileNotFound(f));
      }
      var addr := Address(ipAddress, port);
      var s := files[f];
      var lines := FileLines(s);
      var text, found := RewritePass(f, lines, addr);
      files := files[f := text];
      if found {
        r := Ok(());
      } else {
        FallbackAfterPass(f, s, addr);
        ghost var v := FallbackText(f, Translate(s), addr);
        assert v.Err? ==> s == Translate(s);
        SetVarsOutcome(old(files), f, addr, Translate(s), v);
        r := WriteFallback(f, addr);
      }
    }

    /**
     * The end of `set_*_vars` when the file has no proxy line: overwrite, or append the block.
     * It runs after the in-place pass, which has written the file back with '\n' line ends.
     */
    method WriteFallback(f: ConfFile, addr: string) returns (r: Result<(), Failure>)
      requires f in files && '\r' !in files[f]
      modifies this
      ensures (r, files) == match FallbackText(f, old(files)[f], addr)
        case Ok(t) => (Ok(()), old(files)[f := t])
        case Err(e) => (Err(e), old(files))
    {
      if f == EnvConf || f == AptConf {
        files := files[f := Concat(FallbackLines(f, addr))];
        return Ok(());
      }
      var t := files[f];
      var l := FileLines(t);
      FallbackOutcome(f, t, addr);
      if l == [] {
        return Err(IndexError(f));
      }
      var last := l[|l| - 1];
      if last[|last| - 1] != '\n' {
        t := t + "\n";
      }
      files := files[f := t + Concat(FallbackLines(f, addr))];
      r := Ok(());
    }

    /** `rem_env_vars`, `rem_apt_vars`, `rem_bash_vars` and `rem_wget_vars`. */
    method RemVars(f: ConfFile) returns (r: Result<(), Failure>)
      modifies this
      ensures (r, files) == RemVarsFiles(old(files), f)
    {
      if f !in files {
        return Err(FileNotFound(f));
      }
      var text := WriteUnmatched(FileLines(files[f]), Markers(f));
      files := files[f := text];
      r := Ok(());
    }

    /** `join`: the environment, apt, bash and wget writers in that order. */
    method Join() returns (r: Result<(), Failure>)
      modifies this
      ensures (r, files) == SetAll(JoinOrder, old(files), Address(ipAddress, port))
    {
      ghost var addr := Address(ipAddress, port);
      ghost var fs := files;
      r := SetVars(EnvConf);
      SetAllCons(EnvConf, [AptConf, BashConf, WgetConf], fs, addr);
      if r.Err? {
        return;
      }
      fs := files;
      r := SetVars(AptConf);
      SetAllCons(AptConf, [BashConf, WgetConf], fs, addr);
      if r.Err? {
        return;
      }
      fs := files;
      r := SetVars(BashConf);
      SetAllCons(BashConf, [WgetConf], fs, addr);
      if r.Err? {
        return;
      }
      fs := files;
      r := SetVars(WgetConf);
      SetAllCons(WgetConf, [], fs, addr);
    }

    /** `del_proxy`: the wget, bash, apt and environment removers in that order. */
    method DelProxy() returns (r: Result<(), Failure>)
      modifies this
      ensures (r, files) == RemAll(DelOrder, old(files))
    {
      ghost var fs := files;
      r := RemVars(WgetConf);
      RemAllCons(WgetConf, [BashConf, AptConf, EnvConf], fs);
      if r.Err? {
        return;
      }
      fs := files;
      r := RemVars(BashConf);
      RemAllCons(BashConf, [AptConf, EnvConf], fs);
      if r.Err? {
        return;
      }
      fs := files;
      r := RemVars(AptConf);
      RemAllCons(AptConf, [EnvConf], fs);
      if r.Err? {
        return;
      }
      fs := files;
      r := RemVars(EnvConf);
      RemAllCons(EnvConf, [], fs);
    }
  }

  lemma SetAllCons(f: ConfFile, rest: seq<ConfFile>, fs: map<ConfFile, string>, addr: string)
    ensures SetAll([f] + rest, fs, addr) ==
      var (r, fs') := SetVarsFiles(fs, f, addr);
      if r.Err? then (r, fs') else SetAll(rest, fs', addr)
  {
    assert ([f] + rest)[1..] == rest;
  }

  lemma RemAllCons(f: ConfFile, rest: seq<ConfFile>, fs: map<ConfFile, string>)
    ensures RemAll([f] + rest, fs) ==
      var (r, fs') := RemVarsFiles(fs, f);
      if r.Err? then (r, fs') else RemAll(rest, fs')
  {
    assert ([f] + rest)[1..] == rest;
  }


  // ---------------------------------------------------------------------------------------
  // What a rewrite does to one line

  /** A needle that does not overlap itself occurs in `g + mid + value` after `g` only inside `value`. */
  lemma NoLaterOccurrence(g: string, mid: string, value: string, j: nat)
    requires mid != "" && BorderFree(mid) && !Contains(value, mid)
    requires |g| < j
    ensures !OccursAt(g + mid + value, mid, j)
  {
    var t := g + mid + value;
    if j + |mid| <= |t| {
      if j < |g| + |mid| {
        var k := j - |g|;
        assert !(mid[k..] <= mid);
        assert t[j..j + |mid|][..|mid| - k] == mid[k..];
      } else {
        var i := j - |g| - |mid|;
        assert t[|g| + |mid|..] == value;
        assert t[j..j + |mid|] == t[|g| + |mid|..][i..i + |mid|];
        assert !OccursAt(value, mid, i);
      }
    }
  }

  /**
   * In `lead + g + mid + value`, where `value` holds `tail` but not `mid`, the regex
   * `lead(.*)mid(.*)tail(.*)` matches the whole line and its group is `g`.
   */
  lemma GreedyMatchAssignment(lead: string, g: string, mid: string, value: string, tail: string)
    requires mid != "" && BorderFree(mid)
    requires Contains(value, tail) && !Contains(value, mid)
    ensures GreedyMatch(lead + g + mid + value, lead, mid, tail) == Some(("", g))
  {
    var s := lead + g + mid + value;
    var t := g + mid + value;
    assert s[..|lead|] == lead;
    assert s[|lead|..] == t;
    assert t[|g|..|g| + |mid|] == mid;
    assert t[|g| + |mid|..] == value;
    forall j | |g| < j <= |t|
      ensures !MatchAt(t, mid, tail, j)
    {
      NoLaterOccurrence(g, mid, value, j);
    }
    LastWhereIs(t, mid, tail, |g|);
    assert t[..|g|] == g;
  }

  lemma StripRightNewline(x: string)
    requires x != "" && !IsSpace(x[|x| - 1])
    ensures StripRight(x + "\n") == x
  {
    var y := x + "\n";
    assert y[..|y| - 1] == x;
  }

  /**
   * Each writer rewrites an assignment line `lead + name + mid + value` (for instance
   * `export http_proxy=…` in bash.bashrc) to point at the proxy under the scheme `name`:
   * `name_proxy="name://ip:port/"` in /etc/environment, `Acquire::name::proxy "name://ip:port/";`
   * in apt.conf, `export name_proxy=name://ip:port` in bash.bashrc and `name_proxy=name://ip:port`
   * in wgetrc, each ending in a newline. The value must not repeat the pattern's middle part,
   * must hold its tail (`//` in wgetrc) and must not end in whitespace.
   */
  lemma RewriteAssignment(f: ConfFile, name: string, value: string, addr: string)
    requires !Contains(value, Pattern(f).1) && Contains(value, Pattern(f).2)
    requires var v := Pattern(f).1 + value; !IsSpace(v[|v| - 1])
    ensures Rewrite(f, Pattern(f).0 + name + Pattern(f).1 + value + "\n", addr) == Replacement(f, name, addr)
  {
    var (lead, mid, tail) := Pattern(f);
    var x := lead + name + mid + value;
    assert x[|x| - 1] == (mid + value)[|mid + value| - 1];
    StripRightNewline(x);
    PatternBorderFree(f);
    GreedyMatchAssignment(lead, name, mid, value, tail);
  }

  lemma PatternBorderFree(f: ConfFile)
    ensures Pattern(f).1 != "" && BorderFree(Pattern(f).1)
  {
    var mid := Pattern(f).1;
    forall k | 0 < k < |mid|
      ensures !(mid[k..] <= mid)
    {
      assert mid[k..][0] == mid[k];
    }
  }

  /** Text without whitespace or '_', as addresses, ports and scheme names are. */
  predicate Plain(x: string) {
    forall i :: 0 <= i < |x| ==> !IsSpace(x[i]) && x[i] != '_'
  }

  /**
   * A line a writer has written is left as it is by a second rewrite, so running a writer
   * again on its own output changes nothing there.
   */
  lemma RewriteFixed(f: ConfFile, g: string, addr: string)
    requires Plain(g) && Plain(addr)
    ensures Rewrite(f, Replacement(f, g, addr), addr) == Replacement(f, g, addr)
  {
    ReplacementValueMid(f, g, addr);
    ReplacementValueTail(f, g, addr);
    RewriteAssignment(f, g, ReplacementValue(f, g, addr), addr);
  }

  /** The value a writer writes does not repeat the pattern's middle part. */
  lemma ReplacementValueMid(f: ConfFile, g: string, addr: string)
    requires Plain(g) && Plain(addr)
    ensures !Contains(ReplacementValue(f, g, addr), Pattern(f).1)
  {
    var v := ReplacementValue(f, g, addr);
    if f == AptConf {
      assert ' ' !in v;
      NotContainsChar(v, Pattern(f).1, ' ');
    } else {
      assert '_' !in v;
      NotContainsChar(v, Pattern(f).1, '_');
    }
  }

  /** The value a writer writes holds the pattern's tail and does not end in whitespace. */
  lemma ReplacementValueTail(f: ConfFile, g: string, addr: string)
    requires Plain(addr)
    ensures Contains(ReplacementValue(f, g, addr), Pattern(f).2)
    ensures var v := Pattern(f).1 + ReplacementValue(f, g, addr); !IsSpace(v[|v| - 1])
  {
    var v := ReplacementValue(f, g, addr);
    if f == WgetConf {
      assert v[|g| + 1..|g| + 3] == "//";
      ContainsAt(v, "//", |g| + 1);
    } else {
      assert "" <= v;
    }
    if addr != "" && (f == WgetConf || f == BashConf) {
      assert v[|v| - 1] == addr[|addr| - 1];
    }
  }

  // ---------------------------------------------------------------------------------------
  // The fallback block

  /** The scheme names the fallback block is written for. */
  predicate FallbackScheme(g: string) {
    g == "http" || g == "https" || g == "ftp" || g == "socks"
  }

  /** A text without line breaks followed by '\n' is a whole line. */
  lemma LineOf(x: string)
    requires OneLine(x)
    ensures IsLine(x + "\n") && Terminated(x + "\n") && '\r' !in x + "\n"
  {
    assert (x + "\n")[..|x|] == x;
  }

  lemma ReplacementLine(f: ConfFile, g: string, addr: string)
    requires OneLine(g) && OneLine(addr)
    ensures CleanLine(Replacement(f, g, addr))
  {
    var v := ReplacementValue(f, g, addr);
    assert OneLine(v);
    assert OneLine(Pattern(f).0) && OneLine(Pattern(f).1);
    LineOf(Pattern(f).0 + g + Pattern(f).1 + v);
  }

  /** The fallback block is a list of whole lines, none holding '\r'. */
  lemma FallbackShape(f: ConfFile, addr: string)
    requires OneLine(addr)
    ensures LinesShape(FallbackLines(f, addr)) && AllTerminated(FallbackLines(f, addr))
    ensures NoCr(FallbackLines(f, addr))
  {
    FallbackWhole(f, addr);
  }

  /** Each line of the fallback block is whole and free of '\r'. */
  lemma FallbackWhole(f: ConfFile, addr: string)
    requires OneLine(addr)
    ensures forall i :: 0 <= i < |FallbackLines(f, addr)| ==> CleanLine(FallbackLines(f, addr)[i])
  {
    var http, https, ftp, socks :=
      Replacement(f, "http", addr), Replacement(f, "https", addr), Replacement(f, "ftp", addr), Replacement(f, "socks", addr);
    ReplacementLine(f, "http", addr);
    ReplacementLine(f, "https", addr);
    ReplacementLine(f, "ftp", addr);
    ReplacementLine(f, "socks", addr);
    if f == EnvConf {
      PathLineWhole();
      CleanLines5(PathLine, http, https, ftp, socks);
    } else if f == AptConf {
      NoCacheLineWhole();
      CleanLines5(http, https, ftp, NoCacheLine, socks);
    } else {
      CleanLines3(http, https, ftp);
    }
  }

  lemma PathLineWhole()
    ensures CleanLine(PathLine)
  {
    PathSettingLacks('\n');
    PathSettingLacks('\r');
    LineOf(PathSetting);
  }

  lemma NoCacheLineWhole()
    ensures CleanLine(NoCacheLine)
  {
    assert OneLine(NoCacheSetting);
    LineOf(NoCacheSetting);
  }

  predicate WholeLine(l: string) {
    IsLine(l) && Terminated(l)
  }

  /** A whole line that reads back as written. */
  predicate CleanLine(l: string) {
    WholeLine(l) && '\r' !in l
  }

  lemma CleanLines3(a: string, b: string, c: string)
    requires CleanLine(a) && CleanLine(b) && CleanLine(c)
    ensures forall i :: 0 <= i < 3 ==> CleanLine([a, b, c][i])
  {
  }

  lemma CleanLines5(a: string, b: string, c: string, d: string, e: string)
    requires CleanLine(a) && CleanLine(b) && CleanLine(c) && CleanLine(d) && CleanLine(e)
    ensures forall i :: 0 <= i < 5 ==> CleanLine([a, b, c, d, e][i])
  {
  }

  /** The line each writer writes for a scheme contains that scheme's marker. */
  lemma ReplacementMarked(f: ConfFile, g: string, addr: string)
    requires FallbackScheme(g)
    ensures Matches(Markers(f), Replacement(f, g, addr))
  {
    ReplacementStartsWithMarker(f, g, addr);
    MarkerListed(f, g);
  }

  lemma ReplacementStartsWithMarker(f: ConfFile, g: string, addr: string)
    ensures Contains(Replacement(f, g, addr), Marker(f, g))
  {
    var rest := if f == AptConf then "::proxy " else "=";
    ReplacementAfterMarker(f, g, addr, rest);
    ContainsStart(Marker(f, g), rest + ReplacementValue(f, g, addr) + "\n");
  }

  lemma ReplacementAfterMarker(f: ConfFile, g: string, addr: string, rest: string)
    requires rest == if f == AptConf then "::proxy " else "="
    ensures Replacement(f, g, addr) == Marker(f, g) + (rest + ReplacementValue(f, g, addr) + "\n")
  {
    var m := if f == AptConf then "" else "_proxy";
    if f == AptConf {
      assert Pattern(f).1 == m + rest;
    } else {
      assert Pattern(f).1 == m + rest by { assert "_proxy=" == "_proxy" + "="; }
    }
    Regroup(Pattern(f).0, g, m, rest, ReplacementValue(f, g, addr), "\n");
  }

  lemma Regroup(p: string, g: string, m: string, rest: string, v: string, t: string)
    ensures p + g + (m + rest) + v + t == (p + g + m) + (rest + v + t)
  {
  }

  lemma MarkerListed(f: ConfFile, g: string)
    requires FallbackScheme(g)
    ensures Marker(f, g) in Markers(f).ss
  {
    var i := if g == "http" then 0 else if g == "https" then 1 else if g == "ftp" then 2 else 3;
    assert Markers(f).ss[i] == Marker(f, g);
  }

  /** The apt No-Cache line contains the apt marker for http. */
  lemma NoCacheMarked()
    ensures Matches(Markers(AptConf), NoCacheLine)
  {
    var m := Marker(AptConf, "http");
    assert m == "Acquire::http";
    assert NoCacheLine == m + ("::No-" + "Cache" + " \"True\";" + "\n");
    ContainsStart(m, "::No-" + "Cache" + " \"True\";" + "\n");
    assert Markers(AptConf).ss[0] == m;
  }

  /** The No-Cache line holds "Cache", so the in-place pass of `set_apt_vars` leaves it alone. */
  lemma NoCacheLineKept(addr: string)
    ensures Written(AptConf, NoCacheLine, addr) == NoCacheLine
  {
    var p := "Acquire::http" + "::No-";
    assert NoCacheLine == (p + "Cache") + (" \"True\";" + "\n");
    ContainsStart(p + "Cache", " \"True\";" + "\n");
    ContainsSuffixOfNeedle(NoCacheLine, p, "Cache");
  }

  /** The PATH line holds no 'x', so no "proxy", and the in-place pass of `set_env_vars` leaves it alone. */
  lemma PathLineKept(addr: string)
    ensures Written(EnvConf, PathLine, addr) == PathLine
  {
    PathSettingLacks('x');
    assert 'x' !in PathLine;
    NotContainsChar(PathLine, "proxy", 'x');
  }

  /** The characters that the PATH setting is made of. */
  predicate PathChar(c: char) {
    c == '/' || c == ':' || c == '"' || c == '=' || 'A' <= c <= 'Z' || 'a' <= c <= 'u'
  }

  predicate PathChars(s: string) {
    forall i :: 0 <= i < |s| ==> PathChar(s[i])
  }

  lemma PathPieces()
    ensures PathChars("PATH=\"/usr/local/sbin:") && PathChars("/usr/local/bin:") && PathChars("/usr/sbin:")
    ensures PathChars("/usr/bin:") && PathChars("/sbin:") && PathChars("/bin:")
    ensures PathChars("/usr/games:") && PathChars("/usr/local/games\"")
  {
  }

  lemma PathCharsConcat(a: string, b: string)
    requires PathChars(a) && PathChars(b)
    ensures PathChars(a + b)
  {
    assert forall i :: |a| <= i < |a + b| ==> (a + b)[i] == b[i - |a|];
  }

  lemma PathSettingLacks(c: char)
    requires c == '\n' || c == '\r' || c == '_' || c == 'x'
    ensures c !in PathSetting
  {
    PathPieces();
    var s := "PATH=\"/usr/local/sbin:";
    PathCharsConcat(s, "/usr/local/bin:");
    s := s + "/usr/local/bin:";
    PathCharsConcat(s, "/usr/sbin:");
    s := s + "/usr/sbin:";
    PathCharsConcat(s, "/usr/bin:");
    s := s + "/usr/bin:";
    PathCharsConcat(s, "/sbin:");
    s := s + "/sbin:";
    PathCharsConcat(s, "/bin:");
    s := s + "/bin:";
    PathCharsConcat(s, "/usr/games:");
    s := s + "/usr/games:";
    PathCharsConcat(s, "/usr/local/games\"");
    s := s + "/usr/local/games\"";
    assert s == PathSetting;
    assert !PathChar(c);
  }

  /** The PATH line contains none of the environment's markers: they all hold '_'. */
  lemma PathLineUnmarked()
    ensures !Matches(Markers(EnvConf), PathLine)
  {
    var ss := Markers(EnvConf).ss;
    PathSettingLacks('_');
    assert '_' !in PathLine;
    forall i | 0 <= i < |ss|
      ensures !Contains(PathLine, ss[i])
    {
      assert ss[i][|ss[i]| - 6] == '_';
      NotContainsChar(PathLine, ss[i], '_');
    }
  }

  /**
   * A proxy line in which the regex finds no `mid` is written back stripped, without its
   * '\n', so that it runs into the next line of the file.
   */
  lemma RewriteWithoutMid(f: ConfFile, line: string, addr: string)
    requires !Contains(StripRight(line), Pattern(f).1)
    ensures Rewrite(f, line, addr) == StripRight(line)
    ensures Rewrite(f, line, addr) == "" || Rewrite(f, line, addr)[|Rewrite(f, line, addr)| - 1] != '\n'
  {
    var (lead, mid, tail) := Pattern(f);
    GreedyMatchWithoutMid(StripRight(line), lead, mid, tail);
  }

  /** The regex cannot match a line that lacks its middle part. */
  lemma GreedyMatchWithoutMid(s: string, lead: string, mid: string, tail: string)
    requires !Contains(s, mid)
    ensures GreedyMatch(s, lead, mid, tail) == None
  {
    match Find(s, lead)
    case None =>
    case Some(p) =>
      NotContainsInSuffix(s, p + |lead|, mid);
  }

  /** Without a proxy line the pass writes every line back unchanged. */
  lemma RewriteLinesNone(f: ConfFile, ls: seq<string>, addr: string)
    requires !AnyQualifies(f, ls)
    ensures RewriteLines(f, ls, addr) == ls
  {
  }
  /** `set_env_vars` and `set_apt_vars` never raise once their file exists. */
  lemma OverwriteSucceeds(f: ConfFile, s: string, addr: string)
    requires f == EnvConf || f == AptConf
    ensures SetVarsText(f, s, addr).Ok?
  {
  }

  /**
   * `join` writes /etc/environment and apt.conf before bash.bashrc: with an empty bash.bashrc
   * it raises IndexError there, after both are written, and wgetrc is never reached.
   */
  lemma JoinStopsAtEmptyBash(fs: map<ConfFile, string>, addr: string)
    requires AllPresent(fs) && fs[BashConf] == ""
    ensures SetAll(JoinOrder, fs, addr).0 == Err(IndexError(BashConf))
    ensures SetAll(JoinOrder, fs, addr).1 == SetVarsFiles(SetVarsFiles(fs, EnvConf, addr).1, AptConf, addr).1
    ensures SetAll(JoinOrder, fs, addr).1[BashConf] == "" && SetAll(JoinOrder, fs, addr).1[WgetConf] == fs[WgetConf]
  {
    OverwriteSucceeds(EnvConf, fs[EnvConf], addr);
    var fs1 := SetVarsFiles(fs, EnvConf, addr).1;
    OverwriteSucceeds(AptConf, fs1[AptConf], addr);
    var fs2 := SetVarsFiles(fs1, AptConf, addr).1;
    AppendToEmptyFails(fs2, BashConf, addr);
    assert JoinOrder == [EnvConf] + [AptConf, BashConf, WgetConf];
    SetAllCons(EnvConf, [AptConf, BashConf, WgetConf], fs, addr);
    SetAllCons(AptConf, [BashConf, WgetConf], fs1, addr);
    SetAllCons(BashConf, [WgetConf], fs2, addr);
  }

  // ---------------------------------------------------------------------------------------
  // Writing twice

  /** A line a writer wrote for a plain address comes through its in-place pass unchanged. */
  lemma WrittenReplacement(f: ConfFile, g: string, addr: string)
    requires FallbackScheme(g) && Plain(addr)
    ensures Written(f, Replacement(f, g, addr), addr) == Replacement(f, g, addr)
  {
    SchemePlain(g);
    if Qualifies(f, Replacement(f, g, addr)) {
      RewriteFixed(f, g, addr);
    }
  }

  lemma SchemePlain(g: string)
    requires FallbackScheme(g)
    ensures Plain(g)
  {
  }

  lemma KeptLines3(f: ConfFile, addr: string, a: string, b: string, c: string)
    requires Written(f, a, addr) == a && Written(f, b, addr) == b && Written(f, c, addr) == c
    ensures RewriteLines(f, [a, b, c], addr) == [a, b, c]
  {
  }

  lemma KeptLines5(f: ConfFile, addr: string, a: string, b: string, c: string, d: string, e: string)
    requires Written(f, a, addr) == a && Written(f, b, addr) == b && Written(f, c, addr) == c
    requires Written(f, d, addr) == d && Written(f, e, addr) == e
    ensures RewriteLines(f, [a, b, c, d, e], addr) == [a, b, c, d, e]
  {
  }

  /** The in-place pass leaves the fallback block as it is, for a plain address. */
  lemma BlockKept(f: ConfFile, addr: string)
    requires Plain(addr)
    ensures RewriteLines(f, FallbackLines(f, addr), addr) == FallbackLines(f, addr)
  {
    var http, https, ftp, socks :=
      Replacement(f, "http", addr), Replacement(f, "https", addr), Replacement(f, "ftp", addr), Replacement(f, "socks", addr);
    WrittenReplacement(f, "http", addr);
    WrittenReplacement(f, "https", addr);
    WrittenReplacement(f, "ftp", addr);
    WrittenReplacement(f, "socks", addr);
    if f == EnvConf {
      PathLineKept(addr);
      KeptLines5(f, addr, PathLine, http, https, ftp, socks);
    } else if f == AptConf {
      NoCacheLineKept(addr);
      KeptLines5(f, addr, http, https, ftp, NoCacheLine, socks);
    } else {
      KeptLines3(f, addr, http, https, ftp);
    }
  }

  /**
   * `set_env_vars` and `set_apt_vars` on a file without proxy lines write the fallback block,
   * and a second call leaves it as it is: either its proxy lines are rewritten to themselves,
   * or none qualifies and the same block is written again.
   */
  lemma OverwriteTwice(f: ConfFile, s: string, addr: string)
    requires f == EnvConf || f == AptConf
    requires !AnyQualifies(f, FileLines(s)) && Plain(addr)
    ensures SetVarsText(f, s, addr) == Ok(Concat(FallbackLines(f, addr)))
    ensures SetVarsText(f, Concat(FallbackLines(f, addr)), addr) == Ok(Concat(FallbackLines(f, addr)))
  {
    var b := FallbackLines(f, addr);
    PlainOneLine(addr);
    FallbackShape(f, addr);
    BlockPlain(b);
    ReadLinesConcat(b);
    BlockKept(f, addr);
  }

  /** A block of lines without '\r' reads back as itself. */
  lemma BlockPlain(b: seq<string>)
    requires NoCr(b) && LinesShape(b)
    ensures FileLines(Concat(b)) == b && '\r' !in Concat(b)
  {
    ConcatExcludes(b, '\r');
    TranslateKeeps(Concat(b));
    ReadLinesConcat(b);
  }

  lemma PlainOneLine(x: string)
    requires Plain(x)
    ensures OneLine(x)
  {
    assert forall i :: 0 <= i < |x| ==> x[i] != '\n' && x[i] != '\r';
  }

  /** The http line of bash.bashrc and wgetrc is a proxy line for their in-place pass. */
  lemma HttpLineQualifies(f: ConfFile, addr: string)
    requires f == BashConf || f == WgetConf
    ensures Qualifies(f, Replacement(f, "http", addr))
  {
    var v := ReplacementValue(f, "http", addr);
    if f == BashConf {
      assert Replacement(f, "http", addr) == "export" + (" http_proxy=" + v + "\n");
      ContainsStart("export", " http_proxy=" + v + "\n");
    } else {
      assert Replacement(f, "http", addr) == ("http_" + "proxy") + ("=" + v + "\n");
      ContainsStart("http_" + "proxy", "=" + v + "\n");
      ContainsSuffixOfNeedle(Replacement(f, "http", addr), "http_", "proxy");
      assert Replacement(f, "http", addr)[0] == 'h';
    }
  }

  /** Ending the last line of bash.bashrc or wgetrc does not turn it into a proxy line. */
  lemma EndLineUnqualified(f: ConfFile, s: string)
    requires f == BashConf || f == WgetConf
    requires s != "" && !AnyQualifies(f, ReadLines(s))
    ensures !AnyQualifies(f, ReadLines(EndLine(s)))
  {
    if !Terminated(s) {
      ReadLinesEndLine(s);
      ReadLinesShape(s);
      var ls := ReadLines(s);
      var last := ls[|ls| - 1];
      assert !Qualifies(f, last);
      if f == BashConf {
        NotContainsBeforeChar(last, '\n', "export");
      } else if !("#" <= last) {
        NotContainsBeforeChar(last, '\n', "proxy");
      }
      RewriteLinesSnoc(f, ls[..|ls| - 1], last + "\n", "");
      assert ls == ls[..|ls| - 1] + [last];
      RewriteLinesSnoc(f, ls[..|ls| - 1], last, "");
    }
  }

  /** The in-place pass works line by line, so it distributes over concatenation. */
  lemma RewriteLinesAppend(f: ConfFile, a: seq<string>, b: seq<string>, addr: string)
    ensures RewriteLines(f, a + b, addr) == RewriteLines(f, a, addr) + RewriteLines(f, b, addr)
    ensures AnyQualifies(f, a + b) == (AnyQualifies(f, a) || AnyQualifies(f, b))
  {
    var r := RewriteLines(f, a + b, addr);
    var q := RewriteLines(f, a, addr) + RewriteLines(f, b, addr);
    forall i | 0 <= i < |r|
      ensures r[i] == q[i]
    {
      if i < |a| {
        assert (a + b)[i] == a[i];
      } else {
        assert (a + b)[i] == b[i - |a|];
      }
    }
    assert r == q;
    if AnyQualifies(f, a + b) {
      var i :| 0 <= i < |a + b| && Qualifies(f, (a + b)[i]);
      if i < |a| {
        assert (a + b)[i] == a[i];
      } else {
        assert (a + b)[i] == b[i - |a|];
      }
    }
    if AnyQualifies(f, a) {
      var i :| 0 <= i < |a| && Qualifies(f, a[i]);
      assert (a + b)[i] == a[i];
    }
    if AnyQualifies(f, b) {
      var i :| 0 <= i < |b| && Qualifies(f, b[i]);
      assert (a + b)[|a| + i] == b[i];
    }
  }

  /**
   * `set_bash_vars` and `set_wget_vars` on a non-empty file without proxy lines append the
   * fallback block to the file as the in-place pass wrote it back, and a second call leaves
   * the result as it is: the block's http line is a proxy line, so nothing is appended again,
   * and every line is written back unchanged.
   */
  lemma AppendTwice(f: ConfFile, s: string, addr: string)
    requires f == BashConf || f == WgetConf
    requires s != "" && !AnyQualifies(f, FileLines(s)) && Plain(addr)
    ensures SetVarsText(f, s, addr) == Ok(EndLine(Translate(s)) + Concat(FallbackLines(f, addr)))
    ensures SetVarsText(f, EndLine(Translate(s)) + Concat(FallbackLines(f, addr)), addr)
      == Ok(EndLine(Translate(s)) + Concat(FallbackLines(f, addr)))
  {
    var b := FallbackLines(f, addr);
    var t := Translate(s);
    TranslateNoCr(s);
    assert t != "" && '\r' !in t;
    var e := EndLine(t);
    assert SetVarsText(f, s, addr) == FallbackText(f, t, addr) == Ok(e + Concat(b));
    EndLineUnqualified(f, t);
    AppendedKept(f, e, addr);
  }

  /** The in-place pass on a text without proxy lines followed by the block writes it back as it is. */
  lemma AppendedKept(f: ConfFile, e: string, addr: string)
    requires f == BashConf || f == WgetConf
    requires Terminated(e) && '\r' !in e && !AnyQualifies(f, ReadLines(e)) && Plain(addr)
    ensures SetVarsText(f, e + Concat(FallbackLines(f, addr)), addr) == Ok(e + Concat(FallbackLines(f, addr)))
  {
    var b := FallbackLines(f, addr);
    var t := e + Concat(b);
    PlainOneLine(addr);
    FallbackShape(f, addr);
    ReadLinesConcat(b);
    TranslateKeeps(e);
    FileLinesAppend(e, b);
    RewriteLinesNone(f, ReadLines(e), addr);
    BlockKept(f, addr);
    HttpLineQualifies(f, addr);
    RewriteLinesAppend(f, ReadLines(e), b, addr);
    ConcatFileLines(t);
    ConcatExcludes(b, '\r');
    TranslateKeeps(t);
  }

  // ---------------------------------------------------------------------------------------
  // Writing, then removing

  /** No marker ends in a line break, so ending a line cannot create a match. */
  lemma MarkersEndInLetters(f: ConfFile)
    ensures NoneEndsLine(Markers(f))
  {
    var ss := Markers(f).ss;
    forall i | 0 <= i < |ss|
      ensures ss[i] == "" || ss[i][|ss[i]| - 1] != '\n'
    {
      var g := ["http", "https", "ftp", "socks"][i];
      assert ss[i] == Marker(f, g);
    }
  }

  /** Every line of the fallback block is removed by the matching `rem_*`, bar the PATH line. */
  lemma BlockMarked(f: ConfFile, addr: string)
    ensures var b := FallbackLines(f, addr);
      forall i :: (f == EnvConf ==> 1 <= i) && 0 <= i < |b| ==> Matches(Markers(f), b[i])
  {
    var m := Markers(f);
    var http, https, ftp, socks :=
      Replacement(f, "http", addr), Replacement(f, "https", addr), Replacement(f, "ftp", addr), Replacement(f, "socks", addr);
    ReplacementMarked(f, "http", addr);
    ReplacementMarked(f, "https", addr);
    ReplacementMarked(f, "ftp", addr);
    ReplacementMarked(f, "socks", addr);
    if f == EnvConf {
      AfterFirstMatch(m, PathLine, http, https, ftp, socks);
    } else if f == AptConf {
      NoCacheMarked();
      AllMatch5(m, http, https, ftp, NoCacheLine, socks);
    } else {
      AllMatch3(m, http, https, ftp);
    }
  }

  lemma AllMatch3(m: Matcher, a: string, b: string, c: string)
    requires Matches(m, a) && Matches(m, b) && Matches(m, c)
    ensures forall i :: 0 <= i < 3 ==> Matches(m, [a, b, c][i])
  {
  }

  lemma AllMatch5(m: Matcher, a: string, b: string, c: string, d: string, e: string)
    requires Matches(m, a) && Matches(m, b) && Matches(m, c) && Matches(m, d) && Matches(m, e)
    ensures forall i :: 0 <= i < 5 ==> Matches(m, [a, b, c, d, e][i])
  {
  }

  lemma AfterFirstMatch(m: Matcher, first: string, b: string, c: string, d: string, e: string)
    requires Matches(m, b) && Matches(m, c) && Matches(m, d) && Matches(m, e)
    ensures forall i :: 1 <= i < 5 ==> Matches(m, [first, b, c, d, e][i])
  {
  }

  /** A file none of whose lines holds a marker of `f`. */
  predicate Unmarked(f: ConfFile, ls: seq<string>) {
    forall i :: 0 <= i < |ls| ==> !Matches(Markers(f), ls[i])
  }

  /** In bash.bashrc a line without "export" holds no marker, since every marker starts with it. */
  lemma BashUnmarked(ls: seq<string>)
    requires !AnyQualifies(BashConf, ls)
    ensures Unmarked(BashConf, ls)
  {
    var ss := Markers(BashConf).ss;
    forall i, k | 0 <= i < |ls| && 0 <= k < |ss|
      ensures !Contains(ls[i], ss[k])
    {
      var g := ["http", "https", "ftp", "socks"][k];
      assert ss[k] == "export" + (" " + g + "_proxy");
      NotContainsExtended(ls[i], "export", " " + g + "_proxy");
    }
  }

  /** `rem_apt_vars` removes every line of apt.conf's fallback block, the No-Cache line included. */
  lemma AptBlockRemoved(addr: string)
    requires OneLine(addr)
    ensures RemoveMatchingText(Concat(FallbackLines(AptConf, addr)), Markers(AptConf)) == ""
  {
    var b := FallbackLines(AptConf, addr);
    FallbackShape(AptConf, addr);
    BlockMarked(AptConf, addr);
    RemoveMatchingTextBlock("", b, Markers(AptConf));
    assert "" + Concat(b) == Concat(b);
  }

  /** `rem_env_vars` removes every line of the environment's fallback block but the PATH line. */
  lemma EnvBlockRemoved(addr: string)
    requires OneLine(addr)
    ensures RemoveMatchingText(Concat(FallbackLines(EnvConf, addr)), Markers(EnvConf)) == PathLine
  {
    var b := FallbackLines(EnvConf, addr);
    FallbackShape(EnvConf, addr);
    BlockPlain(b);
    BlockMarked(EnvConf, addr);
    PathLineUnmarked();
    assert b == [PathLine] + b[1..];
    RemoveMatchingKeepsFirst(PathLine, b[1..], Markers(EnvConf));
  }

  /**
   * `rem_bash_vars` and `rem_wget_vars` remove the block appended to a non-empty text without
   * markers and without '\r', and give back that text with its last line ended.
   */
  lemma AppendedBlockRemoved(f: ConfFile, s: string, addr: string)
    requires f == BashConf || f == WgetConf
    requires s != "" && '\r' !in s && OneLine(addr) && Unmarked(f, ReadLines(s))
    ensures RemoveMatchingText(EndLine(s) + Concat(FallbackLines(f, addr)), Markers(f)) == EndLine(s)
  {
    var m := Markers(f);
    FallbackShape(f, addr);
    BlockMarked(f, addr);
    RemoveMatchingTextBlock(EndLine(s), FallbackLines(f, addr), m);
    if !Terminated(s) {
      MarkersEndInLetters(f);
      EndLineUnmatched(s, m);
    }
    TranslateKeeps(EndLine(s));
    RemoveMatchingTextNone(EndLine(s), m);
  }

  /**
   * `set_apt_vars` on a file without proxy lines overwrites it with the fallback block, and
   * `rem_apt_vars` then leaves it empty.
   */
  lemma AptSetThenRemove(fs: map<ConfFile, string>, addr: string)
    requires AptConf in fs && !AnyQualifies(AptConf, FileLines(fs[AptConf])) && OneLine(addr)
    ensures SetVarsFiles(fs, AptConf, addr) == (Ok(()), fs[AptConf := Concat(FallbackLines(AptConf, addr))])
    ensures RemVarsFiles(SetVarsFiles(fs, AptConf, addr).1, AptConf) == (Ok(()), fs[AptConf := ""])
  {
    var t := Concat(FallbackLines(AptConf, addr));
    assert SetVarsText(AptConf, fs[AptConf], addr) == Ok(t);
    var fs1 := fs[AptConf := t];
    assert SetVarsFiles(fs, AptConf, addr) == (Ok(()), fs1);
    AptBlockRemoved(addr);
    assert RemVarsFiles(fs1, AptConf) == (Ok(()), fs1[AptConf := ""]);
    assert fs1[AptConf := ""] == fs[AptConf := ""];
  }

  /**
   * `set_env_vars` on a file without proxy lines discards its content for the fallback block,
   * and `rem_env_vars` then leaves only the PATH line.
   */
  lemma EnvSetThenRemove(fs: map<ConfFile, string>, addr: string)
    requires EnvConf in fs && !AnyQualifies(EnvConf, FileLines(fs[EnvConf])) && OneLine(addr)
    ensures SetVarsFiles(fs, EnvConf, addr) == (Ok(()), fs[EnvConf := Concat(FallbackLines(EnvConf, addr))])
    ensures RemVarsFiles(SetVarsFiles(fs, EnvConf, addr).1, EnvConf) == (Ok(()), fs[EnvConf := PathLine])
  {
    var t := Concat(FallbackLines(EnvConf, addr));
    assert SetVarsText(EnvConf, fs[EnvConf], addr) == Ok(t);
    var fs1 := fs[EnvConf := t];
    assert SetVarsFiles(fs, EnvConf, addr) == (Ok(()), fs1);
    EnvBlockRemoved(addr);
    assert RemVarsFiles(fs1, EnvConf) == (Ok(()), fs1[EnvConf := PathLine]);
    assert fs1[EnvConf := PathLine] == fs[EnvConf := PathLine];
  }

  /**
   * `set_bash_vars` or `set_wget_vars` on a non-empty file without proxy lines appends the
   * block after ending the last line, and the matching `rem_*` then gives back that text with
   * '\n' line ends, when the file held no marker before.
   */
  lemma AppendSetThenRemove(fs: map<ConfFile, string>, f: ConfFile, addr: string)
    requires f == BashConf || f == WgetConf
    requires f in fs && fs[f] != "" && OneLine(addr)
    requires !AnyQualifies(f, FileLines(fs[f])) && Unmarked(f, FileLines(fs[f]))
    ensures SetVarsFiles(fs, f, addr) == (Ok(()), fs[f := EndLine(Translate(fs[f])) + Concat(FallbackLines(f, addr))])
    ensures RemVarsFiles(SetVarsFiles(fs, f, addr).1, f) == (Ok(()), fs[f := EndLine(Translate(fs[f]))])
  {
    TranslateNoCr(fs[f]);
    var e := EndLine(Translate(fs[f]));
    var t := e + Concat(FallbackLines(f, addr));
    assert SetVarsText(f, fs[f], addr) == Ok(t);
    var fs1 := fs[f := t];
    assert SetVarsFiles(fs, f, addr) == (Ok(()), fs1);
    AppendedBlockRemoved(f, Translate(fs[f]), addr);
    assert RemVarsFiles(fs1, f) == (Ok(()), fs1[f := e]);
    assert fs1[f := e] == fs[f := e];
  }

  /** `set_bash_vars` and `set_wget_vars` on an empty file raise IndexError and write nothing. */
  lemma AppendToEmptyFails(fs: map<ConfFile, string>, f: ConfFile, addr: string)
    requires f == BashConf || f == WgetConf
    requires f in fs && fs[f] == ""
    ensures SetVarsFiles(fs, f, addr) == (Err(IndexError(f)), fs)
  {
    assert FileLines("") == [];
  }

  // ---------------------------------------------------------------------------------------
  // `del_proxy` as a whole

  predicate AllPresent(fs: map<ConfFile, string>) {
    AptConf in fs && EnvConf in fs && BashConf in fs && WgetConf in fs
  }

  /** With every file present, `del_proxy` succeeds and cleans each file with its own markers. */
  lemma DelProxyCleans(fs: map<ConfFile, string>)
    requires AllPresent(fs)
    ensures RemAll(DelOrder, fs).0 == Ok(()) && RemAll(DelOrder, fs).1.Keys == fs.Keys
    ensures forall f :: f in fs ==> RemAll(DelOrder, fs).1[f] == RemoveMatchingText(fs[f], Markers(f))
  {
    RemAllPresent(DelOrder, fs);
    forall f: ConfFile
      ensures f in DelOrder
    {
      match f
      case WgetConf => assert DelOrder[0] == f;
      case BashConf => assert DelOrder[1] == f;
      case AptConf => assert DelOrder[2] == f;
      case EnvConf => assert DelOrder[3] == f;
    }
  }

  /** The files after the removal passes for the files in `order`; the others as they were. */
  function CleanedOn(order: seq<ConfFile>, fs: map<ConfFile, string>): map<ConfFile, string> {
    map f | f in fs :: if f in order then RemoveMatchingText(fs[f], Markers(f)) else fs[f]
  }

  /** Removal passes over distinct files that all exist succeed and clean exactly those files. */
  lemma {:induction false} RemAllPresent(order: seq<ConfFile>, fs: map<ConfFile, string>)
    requires forall j :: 0 <= j < |order| ==> order[j] in fs
    requires forall i, j :: 0 <= i < j < |order| ==> order[i] != order[j]
    ensures RemAll(order, fs) == (Ok(()), CleanedOn(order, fs))
  {
    if order == [] {
      assert CleanedOn(order, fs) == fs;
    } else {
      var o := order[0];
      var fs' := fs[o := RemoveMatchingText(fs[o], Markers(o))];
      RemAllPresent(order[1..], fs');
      assert o !in order[1..] by {
        forall k | 0 <= k < |order[1..]| ensures order[1..][k] != o {
          assert order[1..][k] == order[k + 1];
        }
      }
      forall f | f in fs
        ensures CleanedOn(order[1..], fs')[f] == CleanedOn(order, fs)[f]
      {
        assert f in order <==> f == o || f in order[1..];
      }
      assert CleanedOn(order[1..], fs') == CleanedOn(order, fs);
    }
  }

  /** A second `del_proxy` changes nothing. */
  lemma DelProxyIdempotent(fs: map<ConfFile, string>)
    requires AllPresent(fs)
    ensures RemAll(DelOrder, RemAll(DelOrder, fs).1) == RemAll(DelOrder, fs)
  {
    var fs1 := RemAll(DelOrder, fs).1;
    DelProxyCleans(fs);
    DelProxyCleans(fs1);
    forall f | f in fs
      ensures RemAll(DelOrder, fs1).1[f] == fs1[f]
    {
      RemoveMatchingTextIdempotent(fs[f], Markers(f));
    }
    assert RemAll(DelOrder, fs1).1 == fs1;
  }

  /**
   * `del_proxy` stops at the first missing file, after cleaning the ones before it with their
   * own markers; that file and the ones after it are left as they were.
   */
  lemma DelProxyStops(fs: map<ConfFile, string>, k: nat)
    requires k < |DelOrder| && DelOrder[k] !in fs
    requires forall j :: 0 <= j < k ==> DelOrder[j] in fs
    ensures RemAll(DelOrder, fs) == (Err(FileNotFound(DelOrder[k])), CleanedOn(DelOrder[..k], fs))
    ensures forall f :: f in fs <==> f in RemAll(DelOrder, fs).1
  {
    RemAllStops(DelOrder, fs, k);
  }

  lemma {:induction false} RemAllStops(order: seq<ConfFile>, fs: map<ConfFile, string>, k: nat)
    requires k < |order| && order[k] !in fs
    requires forall j :: 0 <= j < k ==> order[j] in fs
    requires forall i, j :: 0 <= i < j < |order| ==> order[i] != order[j]
    ensures RemAll(order, fs) == (Err(FileNotFound(order[k])), CleanedOn(order[..k], fs))
    ensures forall f :: f in fs <==> f in RemAll(order, fs).1
    decreases k
  {
    if k == 0 {
      assert CleanedOn(order[..0], fs) == fs;
    } else {
      var o := order[0];
      var fs' := fs[o := RemoveMatchingText(fs[o], Markers(o))];
      assert RemAll(order, fs) == RemAll(order[1..], fs');
      RemAllStops(order[1..], fs', k - 1);
      CleanedOnStep(order, fs, k);
    }
  }

  /** Cleaning the first file, then the next k - 1, is cleaning the first k. */
  lemma CleanedOnStep(order: seq<ConfFile>, fs: map<ConfFile, string>, k: nat)
    requires 0 < k <= |order| && order[0] in fs
    requires forall i, j :: 0 <= i < j < |order| ==> order[i] != order[j]
    ensures CleanedOn(order[1..][..k - 1], fs[order[0] := RemoveMatchingText(fs[order[0]], Markers(order[0]))])
            == CleanedOn(order[..k], fs)
  {
    var o := order[0];
    var fs' := fs[o := RemoveMatchingText(fs[o], Markers(o))];
    assert order[1..][..k - 1] == order[1..k];
    assert o !in order[1..k] by {
      forall i | 0 <= i < k - 1 ensures order[1..k][i] != o {
        assert order[1..k][i] == order[i + 1];
      }
    }
    forall f | f in fs
      ensures CleanedOn(order[1..k], fs')[f] == CleanedOn(order[..k], fs)[f]
    {
      assert f in order[..k] <==> f == o || f in order[1..k];
    }
    assert CleanedOn(order[1..k], fs') == CleanedOn(order[..k], fs);
  }

}

