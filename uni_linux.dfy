/**
 * The Linux backend of uniproxy (`LinuxProxy`): the desktop proxy settings live in KDE's
 * `kioslaverc` ("Proxy Settings" group) and in GNOME's gsettings, and the session environment
 * in two systemd `environment.d` drop-ins. The settings tools become three maps; the values
 * written to them and read back from them are modelled exactly.
 */
module UniLinux {
  import opened Wrappers
  import opened Text
  import opened Lines

  datatype Desktop = Gnome | Kde

  /**
   * The desktop named by XDG_CURRENT_DESKTOP, compared lower-cased (an unset variable reads
   * as ""); anything but "gnome" or "kde" makes the constructor raise OSError.
   */
  function DetectDesktop(xdg: Option<string>): (r: Result<Desktop, string>)
    ensures xdg.None? ==> r.Err?
  {
    var name := Lower(if xdg.Some? then xdg.value else "");
    if name == "gnome" then Ok(Gnome)
    else if name == "kde" then Ok(Kde)
    else Err("This library requires GNOME or KDE desktop environment")
  }

  /**
   * The desktop is recognised exactly when each character of the variable lower-cases to
   * the matching letter of "gnome" or "kde" (so "GNOME", "Kde" and a Kelvin sign for K pass).
   */
  lemma DetectDesktopIff(xdg: Option<string>)
    ensures DetectDesktop(xdg) == Ok(Gnome) <==> xdg.Some? && LowerMatches(xdg.value, "gnome")
    ensures DetectDesktop(xdg) == Ok(Kde) <==> xdg.Some? && LowerMatches(xdg.value, "kde")
    ensures DetectDesktop(xdg).Err? <==> !(xdg.Some? && (LowerMatches(xdg.value, "gnome") || LowerMatches(xdg.value, "kde")))
  {
    var name := if xdg.Some? then xdg.value else "";
    LowerIsWord(name, "gnome");
    LowerIsWord(name, "kde");
  }

  /** Upper-case spellings of the desktop names are accepted: "GNOME". */
  lemma DetectDesktopGnomeUpper()
    ensures DetectDesktop(Some("GNOME")) == Ok(Gnome)
  {
    DetectDesktopIff(Some("GNOME"));
  }

  /** "KDE", and "KDE" spelled with the Kelvin sign, which `lower()` turns into 'k'. */
  lemma DetectDesktopKdeUpper()
    ensures DetectDesktop(Some("KDE")) == Ok(Kde)
    ensures DetectDesktop(Some("\U{212A}DE")) == Ok(Kde)
  {
    DetectDesktopIff(Some("KDE"));
    DetectDesktopIff(Some("\U{212A}DE"));
  }

  /** The KDE tool for `command`: its name followed by KDE_SESSION_VERSION, "5" when unset. */
  function KdeCommand(command: string, version: Option<string>): (r: string)
    ensures command <= r
    ensures version.None? ==> r[|command|..] == "5"
    ensures version.Some? ==> r[|command|..] == version.value
  {
    command + (if version.Some? then version.value else "5")
  }

  // ---------------------------------------------------------------------------------------
  // GNOME `ignore-hosts`: a bracketed list of single-quoted domains

  function Quote(domain: string): string {
    "'" + domain + "'"
  }

  function Quoted(domains: seq<string>): seq<string> {
    seq(|domains|, i requires 0 <= i < |domains| => Quote(domains[i]))
  }

  /** `format_domains`: every domain in single quotes, joined with ", ", inside brackets. */
  function FormatDomains(domains: seq<string>): (r: string)
    ensures |r| >= 2 && r[0] == '[' && r[|r| - 1] == ']'
    ensures domains == [] ==> r == "[]"
  {
    "[" + Join(Quoted(domains), ", ") + "]"
  }

  /** A domain the quoted-list reader gives back unchanged: no quote, no escape. */
  predicate Plain(domain: string) {
    '\'' !in domain && '\\' !in domain
  }

  /**
   * The first item of a list literal: `'item'` at the start of `s`, with no backslash escape
   * inside, and the text after its closing quote.
   */
  function FirstQuoted(s: string): (r: Option<(string, string)>)
    ensures r.Some? ==> |r.value.1| < |s|
  {
    if |s| < 2 || s[0] != '\'' then None
    else match IndexOf(s[1..], '\'')
      case None => None
      case Some(j) =>
        var item := s[1..j + 1];
        if '\\' in item then None else Some((item, s[j + 2..]))
  }

  /**
   * The items of a list literal: `'item'`, then either the end or ", " and more items. This is
   * the part of Python's `ast.literal_eval` that `format_domains` output exercises.
   */
  function ParseQuotedItems(s: string): Option<seq<string>>
    decreases |s|
  {
    match FirstQuoted(s)
    case None => None
    case Some((item, rest)) =>
      if rest == "" then Some([item])
      else if |rest| >= 2 && rest[..2] == ", " then
        match ParseQuotedItems(rest[2..])
        case None => None
        case Some(items) => Some([item] + items)
      else None
  }

  /** `ast.literal_eval` on a list of single-quoted strings; None where it would raise. */
  function ParseDomainList(s: string): Option<seq<string>> {
    if |s| >= 2 && s[0] == '[' && s[|s| - 1] == ']' then
      var inner := s[1..|s| - 1];
      if inner == "" then Some([]) else ParseQuotedItems(inner)
    else None
  }

  /** A quoted plain item at the head of the text is read off, with the text after it. */
  lemma FirstQuotedPlain(d: string, rest: string)
    requires Plain(d)
    ensures FirstQuoted(Quote(d) + rest) == Some((d, rest))
  {
    var s := "'" + d + "'" + rest;
    assert Quote(d) + rest == s;
    assert s[1..] == d + ['\''] + rest;
    IndexOfAt(d, '\'', rest);
    assert s[1..|d| + 1] == d;
    assert s[|d| + 2..] == rest;
  }

  /** A single quoted plain item reads back as itself. */
  lemma ParseQuotedItemsOne(d: string)
    requires Plain(d)
    ensures ParseQuotedItems(Quote(d)) == Some([d])
  {
    assert Quote(d) + "" == Quote(d);
    FirstQuotedPlain(d, "");
  }

  /** A quoted plain item followed by ", " and a readable list reads back as the longer list. */
  lemma ParseQuotedItemsCons(d: string, more: string)
    requires Plain(d) && ParseQuotedItems(more).Some?
    ensures ParseQuotedItems(Quote(d) + ", " + more) == Some([d] + ParseQuotedItems(more).value)
  {
    var rest := ", " + more;
    assert Quote(d) + ", " + more == Quote(d) + rest;
    FirstQuotedPlain(d, rest);
    assert rest[..2] == ", " && rest[2..] == more;
  }

  /** A one-domain list is that domain in quotes. */
  lemma JoinQuotedOne(domains: seq<string>)
    requires |domains| == 1
    ensures Join(Quoted(domains), ", ") == Quote(domains[0])
  {
  }

  /** A longer list starts with the first domain in quotes and ", ". */
  lemma JoinQuotedCons(domains: seq<string>)
    requires |domains| > 1
    ensures Join(Quoted(domains), ", ") == Quote(domains[0]) + ", " + Join(Quoted(domains[1..]), ", ")
  {
    assert Quoted(domains)[1..] == Quoted(domains[1..]);
  }

  lemma {:induction false} ParseQuotedItemsJoin(domains: seq<string>)
    requires domains != [] && forall i :: 0 <= i < |domains| ==> Plain(domains[i])
    ensures ParseQuotedItems(Join(Quoted(domains), ", ")) == Some(domains)
    decreases |domains|
  {
    if |domains| == 1 {
      JoinQuotedOne(domains);
      ParseQuotedItemsOne(domains[0]);
      assert [domains[0]] == domains;
    } else {
      ParseQuotedItemsJoin(domains[1..]);
      ParseQuotedItemsJoinStep(domains);
    }
  }

  /** The list with one more plain domain in front reads back with that domain in front. */
  lemma ParseQuotedItemsJoinStep(domains: seq<string>)
    requires |domains| > 1 && Plain(domains[0])
    requires ParseQuotedItems(Join(Quoted(domains[1..]), ", ")) == Some(domains[1..])
    ensures ParseQuotedItems(Join(Quoted(domains), ", ")) == Some(domains)
  {
    var more := Join(Quoted(domains[1..]), ", ");
    assert [domains[0]] + domains[1..] == domains;
    JoinQuotedCons(domains);
    ParseQuotedItemsCons(domains[0], more);
  }

  /** Reading back what `format_domains` wrote gives the same domains. */
  lemma FormatDomainsRoundTrip(domains: seq<string>)
    requires forall i :: 0 <= i < |domains| ==> Plain(domains[i])
    ensures ParseDomainList(FormatDomains(domains)) == Some(domains)
  {
    var s := FormatDomains(domains);
    assert s[1..|s| - 1] == Join(Quoted(domains), ", ");
    if domains != [] {
      ParseQuotedItemsJoin(domains);
    }
  }

  /**
   * `get_bypass_domains` on GNOME: the stripped `ignore-hosts` value, evaluated as a list. Only
   * a bracketed text evaluates; an annotated one such as `@as []` makes `literal_eval` raise.
   */
  function GnomeBypassRead(stored: string): (r: Option<seq<string>>)
    ensures r.Some? ==> "[" <= Strip(stored)
    ensures "@" <= Strip(stored) ==> r.None?
  {
    ParseDomainList(Strip(stored))
  }

  lemma GnomeBypassRoundTrip(domains: seq<string>)
    requires forall i :: 0 <= i < |domains| ==> Plain(domains[i])
    ensures GnomeBypassRead(FormatDomains(domains)) == Some(domains)
  {
    StripTrimmed(FormatDomains(domains));
    FormatDomainsRoundTrip(domains);
  }

  // ---------------------------------------------------------------------------------------
  // KDE `NoProxyFor`: the domains joined with ","

  /**
   * `get_bypass_domains` on KDE: the stripped value split at ",", or [] when it is empty; the
   * domains hold no ',', and there are none exactly when the value is blank.
   */
  function KdeBypassRead(stored: string): (r: seq<string>)
    ensures r == [] <==> Strip(stored) == ""
    ensures forall i :: 0 <= i < |r| ==> ',' !in r[i]
  {
    var output := Strip(stored);
    if output != "" then SplitPieces(output, ','); Split(output, ',') else []
  }

  /** A non-empty, comma-free list whose join has no outer whitespace reads back unchanged. */
  lemma KdeBypassRoundTrip(domains: seq<string>)
    requires domains != [] && forall i :: 0 <= i < |domains| ==> ',' !in domains[i]
    requires Join(domains, ",") != "" && Trimmed(Join(domains, ","))
    ensures KdeBypassRead(Join(domains, ",")) == domains
  {
    StripTrimmed(Join(domains, ","));
    SplitJoin(domains, ',');
  }

  /** The empty list is written as "", which reads back as []; so is the list [""]. */
  lemma KdeBypassEmpty()
    ensures KdeBypassRead(Join([], ",")) == []
    ensures KdeBypassRead(Join([""], ",")) == []
  {
    StripTrimmed("");
  }

  // ---------------------------------------------------------------------------------------
  // KDE proxy values `scheme://ip port`

  predicate IsIpChar(c: char) { IsDigit(c) || c == '.' }

  predicate KnownScheme(scheme: string) {
    scheme == "http" || scheme == "https" || scheme == "ftp"
  }

  /** The text after `http://`, `https://` or `ftp://` at the start of `proxy`. */
  function AfterScheme(proxy: string): Option<string> {
    if "http://" <= proxy then Some(proxy[7..])
    else if "https://" <= proxy then Some(proxy[8..])
    else if "ftp://" <= proxy then Some(proxy[6..])
    else None
  }

  /**
   * `extract_ip_and_port`: `re.match(r'(http|https|ftp)://([\d\.]+)\s+(\d+)', proxy)`, anchored
   * at the start only. Each run is greedy and the next one starts with a character the run
   * cannot take, so the runs are the longest ones; None stands for `(None, None)`.
   */
  function ExtractIpAndPort(proxy: string): (r: Option<(string, string)>)
    ensures r.Some? ==> "http://" <= proxy || "https://" <= proxy || "ftp://" <= proxy
    ensures r.Some? ==> r.value.0 != "" && r.value.1 != ""
  {
    match AfterScheme(proxy)
    case None => None
    case Some(rest) => IpAndPort(rest)
  }

  /** The `([\d\.]+)\s+(\d+)` part of the pattern, matched at the start of `rest`. */
  function IpAndPort(rest: string): Option<(string, string)> {
    var n := Span(rest, IsIpChar);
    if n == 0 then None
    else match SpaceAndPort(rest[n..])
      case None => None
      case Some(port) => Some((rest[..n], port))
  }

  /** The `\s+(\d+)` part: blanks, then the port's digits. */
  function SpaceAndPort(s: string): Option<string> {
    var w := Span(s, IsSpace);
    var d := Span(s[w..], IsDigit);
    if w == 0 || d == 0 then None else Some(s[w..][..d])
  }

  /** What `extract_ip_and_port` returns is a non-empty run of digits and dots and a non-empty run of digits. */
  lemma ExtractIpAndPortShape(proxy: string)
    ensures var r := ExtractIpAndPort(proxy);
            r.Some? ==> DottedIp(r.value.0) && r.value.1 != "" && AllDigits(r.value.1)
  {
    match AfterScheme(proxy)
    case None =>
    case Some(rest) =>
      var n := Span(rest, IsIpChar);
      assert forall i :: 0 <= i < n ==> rest[..n][i] == rest[i];
      var s := rest[n..];
      var w := Span(s, IsSpace);
      var d := Span(s[w..], IsDigit);
      assert forall i :: 0 <= i < d ==> s[w..][..d][i] == s[w..][i];
  }

  lemma AfterSchemeKnown(scheme: string, rest: string)
    requires KnownScheme(scheme)
    ensures AfterScheme(scheme + "://" + rest) == Some(rest)
  {
    var s := scheme + "://" + rest;
    if scheme == "https" {
      assert s[4] == 's';
      assert !("http://" <= s);
      assert s[..8] == "https://";
    } else if scheme == "http" {
      assert s[..7] == "http://";
    } else {
      assert s[0] == 'f';
      assert s[..6] == "ftp://";
    }
  }

  /**
   * The parse of `scheme://ip<whitespace>port<tail>`: the ip and the port come back whenever the
   * tail does not continue the port's digits.
   */
  lemma ExtractIpAndPortParses(scheme: string, ip: string, ws: string, port: string, tail: string)
    requires KnownScheme(scheme)
    requires ip != "" && forall i :: 0 <= i < |ip| ==> IsIpChar(ip[i])
    requires ws != "" && forall i :: 0 <= i < |ws| ==> IsSpace(ws[i])
    requires port != "" && AllDigits(port)
    requires tail == "" || !IsDigit(tail[0])
    ensures ExtractIpAndPort(scheme + "://" + ip + ws + port + tail) == Some((ip, port))
  {
    var rest := ip + ws + port + tail;
    assert scheme + "://" + ip + ws + port + tail == scheme + "://" + rest;
    AfterSchemeKnown(scheme, rest);
    IpAndPortParses(ip, ws, port, tail);
  }

  lemma IpAndPortParses(ip: string, ws: string, port: string, tail: string)
    requires ip != "" && forall i :: 0 <= i < |ip| ==> IsIpChar(ip[i])
    requires ws != "" && forall i :: 0 <= i < |ws| ==> IsSpace(ws[i])
    requires port != "" && AllDigits(port)
    requires tail == "" || !IsDigit(tail[0])
    ensures IpAndPort(ip + ws + port + tail) == Some((ip, port))
  {
    var rest := ip + ws + port + tail;
    assert rest == ip + (ws + port + tail);
    SpanConcat(ip, ws + port + tail, IsIpChar);
    assert rest[|ip|..] == ws + port + tail && rest[..|ip|] == ip;
    SpaceAndPortParses(ws, port, tail);
  }

  lemma SpaceAndPortParses(ws: string, port: string, tail: string)
    requires ws != "" && forall i :: 0 <= i < |ws| ==> IsSpace(ws[i])
    requires port != "" && AllDigits(port)
    requires tail == "" || !IsDigit(tail[0])
    ensures SpaceAndPort(ws + port + tail) == Some(port)
  {
    var s := ws + port + tail;
    assert s == ws + (port + tail);
    SpanConcat(ws, port + tail, IsSpace);
    assert s[|ws|..] == port + tail;
    SpanConcat(port, tail, IsDigit);
    assert (port + tail)[..|port|] == port;
  }

  /** What `__set_kde_proxy` writes for one scheme. */
  function KdeProxyValue(scheme: string, ip: string, port: nat): string {
    scheme + "://" + ip + " " + NatToString(port)
  }

  /** An ip of digits and dots that was written by `__set_kde_proxy` is read back by `__get_kde_proxy`. */
  lemma KdeProxyRoundTrip(scheme: string, ip: string, port: nat)
    requires KnownScheme(scheme)
    requires ip != "" && forall i :: 0 <= i < |ip| ==> IsIpChar(ip[i])
    ensures ExtractIpAndPort(Strip(KdeProxyValue(scheme, ip, port))) == Some((ip, NatToString(port)))
  {
    KdeProxyParse(scheme, ip, NatToString(port));
  }

  lemma KdeProxyParse(scheme: string, ip: string, p: string)
    requires KnownScheme(scheme)
    requires ip != "" && forall i :: 0 <= i < |ip| ==> IsIpChar(ip[i])
    requires p != "" && AllDigits(p)
    ensures ExtractIpAndPort(Strip(scheme + "://" + ip + " " + p)) == Some((ip, p))
  {
    KdeProxyValueTrimmed(scheme, ip, p);
    ExtractIpAndPortParsesWhole(scheme, ip, " ", p);
  }

  /** The parse of a value that ends with the port. */
  lemma ExtractIpAndPortParsesWhole(scheme: string, ip: string, ws: string, port: string)
    requires KnownScheme(scheme)
    requires ip != "" && forall i :: 0 <= i < |ip| ==> IsIpChar(ip[i])
    requires ws != "" && forall i :: 0 <= i < |ws| ==> IsSpace(ws[i])
    requires port != "" && AllDigits(port)
    ensures ExtractIpAndPort(scheme + "://" + ip + ws + port) == Some((ip, port))
  {
    assert scheme + "://" + ip + ws + port + "" == scheme + "://" + ip + ws + port;
    ExtractIpAndPortParses(scheme, ip, ws, port, "");
  }

  /** A KDE proxy value has no surrounding whitespace, so reading it strips nothing. */
  lemma KdeProxyValueTrimmed(scheme: string, ip: string, p: string)
    requires KnownScheme(scheme) && p != "" && AllDigits(p)
    ensures Strip(scheme + "://" + ip + " " + p) == scheme + "://" + ip + " " + p
  {
    var v := scheme + "://" + ip + " " + p;
    assert v[0] == scheme[0];
    assert v[|v| - 1] == p[|p| - 1];
    StripTrimmed(v);
  }

  /** The empty value `del_proxy` writes parses as `(None, None)`. */
  lemma ExtractIpAndPortEmpty()
    ensures ExtractIpAndPort(Strip("")) == None
  {
    StripTrimmed("");
  }

  // ---------------------------------------------------------------------------------------
  // systemd environment.d drop-ins: `KEY=VALUE` lines

  function EnvLine(key: string, value: string): string {
    key + "=" + value + "\n"
  }

  function EnvLines(pairs: seq<(string, string)>): seq<string> {
    seq(|pairs|, i requires 0 <= i < |pairs| => EnvLine(pairs[i].0, pairs[i].1))
  }

  /** The text of a drop-in holding `pairs`, one `KEY=VALUE` line each, in order. */
  function EnvText(pairs: seq<(string, string)>): string {
    Concat(EnvLines(pairs))
  }

  /** One drop-in line as systemd reads it: the key up to the first '=', the value after it. */
  function ParseEnvLine(line: string): (r: Option<(string, string)>)
    ensures r.Some? ==> '=' !in r.value.0
  {
    var body := if line != "" && line[|line| - 1] == '\n' then line[..|line| - 1] else line;
    match IndexOf(body, '=')
    case None => None
    case Some(j) => Some((body[..j], body[j + 1..]))
  }

  function ParseEnvText(s: string): seq<Option<(string, string)>> {
    var ls := ReadLines(s);
    seq(|ls|, i requires 0 <= i < |ls| => ParseEnvLine(ls[i]))
  }

  /** A pair a drop-in line can carry: no '=' in the key, no line break anywhere. */
  predicate EnvPair(p: (string, string)) {
    '=' !in p.0 && '\n' !in p.0 && '\n' !in p.1
  }

  lemma EnvLineParses(key: string, value: string)
    requires EnvPair((key, value))
    ensures IsLine(EnvLine(key, value)) && Terminated(EnvLine(key, value))
    ensures ParseEnvLine(EnvLine(key, value)) == Some((key, value))
  {
    var l := EnvLine(key, value);
    var body := key + ['='] + value;
    assert l == body + "\n" && l[|l| - 1] == '\n';
    assert l[..|l| - 1] == body;
    IndexOfAt(key, '=', value);
    assert body[..|key|] == key && body[|key| + 1..] == value;
  }

  /** Reading a drop-in back gives every pair that was written, in order. */
  lemma EnvTextRoundTrip(pairs: seq<(string, string)>)
    requires forall i :: 0 <= i < |pairs| ==> EnvPair(pairs[i])
    ensures ParseEnvText(EnvText(pairs)) == seq(|pairs|, i requires 0 <= i < |pairs| => Some(pairs[i]))
  {
    var ls := EnvLines(pairs);
    forall i | 0 <= i < |ls| ensures IsLine(ls[i]) && Terminated(ls[i]) && ParseEnvLine(ls[i]) == Some(pairs[i]) {
      EnvLineParses(pairs[i].0, pairs[i].1);
    }
    ReadLinesConcat(ls);
  }

  /** The bypass drop-in is its two lines, written one after the other. */
  lemma BypassConfLines(domains: seq<string>)
    ensures BypassConf(domains) == EnvLine("no_proxy", Join(domains, ",")) + EnvLine("NO_PROXY", Join(domains, ","))
  {
    var ls := EnvLines(BypassEnvPairs(domains));
    assert ls[1..][1..] == [];
    assert Concat(ls[1..]) == ls[1] + Concat([]);
  }

  const EnvProxyVars: seq<string> :=
    ["http_proxy", "https_proxy", "ftp_proxy", "rsync_proxy", "HTTP_PROXY", "HTTPS_PROXY", "FTP_PROXY", "RSYNC_PROXY"]
  const EnvProxySchemes: seq<string> := ["http", "http", "ftp", "rsync", "http", "http", "ftp", "rsync"]

  /** `scheme://ip:port`, with no trailing '/'. */
  function EnvUrl(scheme: string, ip: string, port: nat): string {
    scheme + "://" + ip + ":" + NatToString(port)
  }

  function ProxyEnvPairs(ip: string, port: nat): seq<(string, string)> {
    seq(8, i requires 0 <= i < 8 => (EnvProxyVars[i], EnvUrl(EnvProxySchemes[i], ip, port)))
  }

  /** `01-proxy.conf` as `set_proxy_env_var` writes it. */
  function ProxyConf(ip: string, port: nat): string {
    EnvText(ProxyEnvPairs(ip, port))
  }

  /** `02-bypass-domains.conf`: `no_proxy` and `NO_PROXY`, both the domains joined with ",". */
  function BypassEnvPairs(domains: seq<string>): seq<(string, string)> {
    [("no_proxy", Join(domains, ",")), ("NO_PROXY", Join(domains, ","))]
  }

  function BypassConf(domains: seq<string>): string {
    EnvText(BypassEnvPairs(domains))
  }

  /**
   * `01-proxy.conf` holds exactly eight assignments: http_proxy, https_proxy, ftp_proxy,
   * rsync_proxy and then the same four in upper case, https with the `http://` scheme.
   */
  lemma ProxyConfReadsBack(ip: string, port: nat)
    requires '\n' !in ip
    ensures var parsed := ParseEnvText(ProxyConf(ip, port));
            |parsed| == 8 &&
            forall i :: 0 <= i < 8 ==> parsed[i] == Some((EnvProxyVars[i], EnvUrl(EnvProxySchemes[i], ip, port)))
  {
    var pairs := ProxyEnvPairs(ip, port);
    forall i | 0 <= i < 8 ensures EnvPair(pairs[i]) {
      var digits := NatToString(port);
      assert '\n' !in digits by {
        forall k | 0 <= k < |digits| ensures digits[k] != '\n' { assert IsDigit(digits[k]); }
      }
      var name := EnvProxyVars[i];
      assert '=' !in name && '\n' !in name by {
        forall k | 0 <= k < |name| ensures name[k] != '=' && name[k] != '\n' {
          assert 'A' <= name[k] <= 'z';
        }
      }
      assert EnvUrl(EnvProxySchemes[i], ip, port) == EnvProxySchemes[i] + "://" + ip + ":" + digits;
    }
    EnvTextRoundTrip(pairs);
  }

  /** A variable name of letters and underscores holds neither '=' nor a line break. */
  lemma KeyName(name: string)
    requires forall k :: 0 <= k < |name| ==> 'A' <= name[k] <= 'z'
    ensures '=' !in name && '\n' !in name
  {
  }

  /** `02-bypass-domains.conf` reads back as `no_proxy` and `NO_PROXY` with the joined domains. */
  lemma BypassConfReadsBack(domains: seq<string>)
    requires forall i :: 0 <= i < |domains| ==> '\n' !in domains[i]
    ensures ParseEnvText(BypassConf(domains))
         == [Some(("no_proxy", Join(domains, ","))), Some(("NO_PROXY", Join(domains, ",")))]
  {
    JoinExcludes(domains, ",", '\n');
    BypassPairsReadBack(Join(domains, ","));
  }

  lemma BypassPairsReadBack(joined: string)
    requires '\n' !in joined
    ensures ParseEnvText(EnvText([("no_proxy", joined), ("NO_PROXY", joined)]))
         == [Some(("no_proxy", joined)), Some(("NO_PROXY", joined))]
  {
    KeyName("no_proxy");
    KeyName("NO_PROXY");
    EnvTextPair(("no_proxy", joined), ("NO_PROXY", joined));
  }

  /** A drop-in of two lines reads back as its two pairs. */
  lemma EnvTextPair(p0: (string, string), p1: (string, string))
    requires EnvPair(p0) && EnvPair(p1)
    ensures ParseEnvText(EnvText([p0, p1])) == [Some(p0), Some(p1)]
  {
    EnvTextRoundTrip([p0, p1]);
  }

  // ---------------------------------------------------------------------------------------
  // gsettings values: what `gsettings set` stores and what `gsettings get` prints

  /** A value of the types the proxy schema uses: `s` (mode, host), `i` (port) and `as` (ignore-hosts). */
  datatype GValue = GStr(s: string) | GInt(i: int) | GStrs(items: seq<string>)

  /**
   * GLib's `g_unichar_isprint` on the ASCII range and the C1 controls; every character from
   * U+00A0 up counts as printable here.
   */
  predicate GPrintable(c: char) {
    (' ' <= c && c <= '~') || c >= '\U{00A0}'
  }

  /** A text of printable characters only. */
  predicate Printable(s: string) {
    forall i :: 0 <= i < |s| ==> GPrintable(s[i])
  }

  /** The last `width` hexadecimal digits of `n`, in lower case. */
  function HexDigits(n: nat, width: nat): (r: string)
    ensures |r| == width
  {
    if width == 0 then "" else HexDigits(n / 16, width - 1) + ["0123456789abcdef"[n % 16]]
  }

  /** The escape `g_variant_print` writes for a character that is not printable. */
  function ControlEscape(c: char): (r: string)
    ensures |r| >= 2 && r[0] == '\\'
  {
    var n := c as int;
    if n == 7 then "\\a" else if n == 8 then "\\b" else if n == 12 then "\\f"
    else if n == 10 then "\\n" else if n == 13 then "\\r" else if n == 9 then "\\t"
    else if n == 11 then "\\v"
    else if n < 0x1_0000 then "\\u" + HexDigits(n, 4)
    else "\\U" + HexDigits(n, 8)
  }

  /** One character of a string printed inside `q` quotes: the quote and '\\' get a backslash. */
  function PrintChar(c: char, q: char): string {
    (if c == q || c == '\\' then "\\" else "") + (if GPrintable(c) then [c] else ControlEscape(c))
  }

  function PrintChars(s: string, q: char): string {
    if s == "" then "" else PrintChar(s[0], q) + PrintChars(s[1..], q)
  }

  /** A printed string: in double quotes when it holds a single quote, otherwise in single quotes. */
  function PrintString(s: string): (r: string)
    ensures |r| >= 2 && r[0] == r[|r| - 1] && (r[0] == '\'' || r[0] == '"')
    ensures '\'' !in s ==> r[0] == '\''
  {
    var q := if '\'' in s then '"' else '\'';
    [q] + PrintChars(s, q) + [q]
  }

  function PrintStrings(items: seq<string>): (r: seq<string>)
    ensures |r| == |items|
  {
    seq(|items|, i requires 0 <= i < |items| => PrintString(items[i]))
  }

  /**
   * `gsettings get`: the value as `g_variant_print` writes it with type annotations, so a
   * string comes in quotes and an empty string list is `@as []`.
   */
  function GPrint(v: GValue): (r: string)
    ensures r != "" && !IsSpace(r[0]) && !IsSpace(r[|r| - 1])
    ensures v.GStr? ==> r[0] == '\'' || r[0] == '"'
    ensures v.GInt? ==> r[0] == '-' || IsDigit(r[0])
    ensures v.GStrs? ==> r[0] == '[' || r[0] == '@'
  {
    match v
    case GStr(s) => PrintString(s)
    case GInt(i) => if i < 0 then "-" + NatToString(-i) else NatToString(i)
    case GStrs(items) => if items == [] then "@as []" else "[" + Join(PrintStrings(items), ", ") + "]"
  }

  /** A string with no quote, no backslash and nothing to escape prints as itself in single quotes. */
  lemma {:induction false} PrintCharsPlain(s: string)
    requires Plain(s) && Printable(s)
    ensures PrintChars(s, '\'') == s
  {
    if s != "" {
      PrintCharsPlain(s[1..]);
      assert [s[0]] + s[1..] == s;
    }
  }

  lemma PrintStringPlain(s: string)
    requires Plain(s) && Printable(s)
    ensures PrintString(s) == Quote(s)
  {
    PrintCharsPlain(s);
  }

  /** A non-empty list of such strings prints as `format_domains` writes it. */
  lemma PrintDomains(domains: seq<string>)
    requires domains != [] && forall i :: 0 <= i < |domains| ==> Plain(domains[i]) && Printable(domains[i])
    ensures GPrint(GStrs(domains)) == FormatDomains(domains)
  {
    forall i | 0 <= i < |domains|
      ensures PrintStrings(domains)[i] == Quoted(domains)[i]
    {
      PrintStringPlain(domains[i]);
    }
    assert PrintStrings(domains) == Quoted(domains);
  }

  /**
   * The largest port the proxy schemas accept: the `port` keys of org.gnome.system.proxy.http,
   * .https and .ftp are declared with the range 0..65535.
   */
  const GnomePortMax := 65535

  /**
   * A string `gsettings set` stores as given: with no quote it cannot be GVariant text for a
   * string, so the bare-string fallback of `gsettings` stores it unchanged.
   */
  predicate Unquoted(v: string) {
    '\'' !in v && '"' !in v
  }

  // ---------------------------------------------------------------------------------------
  // The backend

  /** The keys of the "Proxy Settings" group of `kioslaverc` that the backend uses. */
  datatype KdeKey = ProxyType | HttpProxy | HttpsProxy | FtpProxy | NoProxyFor

  /**
   * The gsettings keys the backend uses: `mode` and `ignore-hosts` of
   * `org.gnome.system.proxy`, and `host`/`port` of its `http`, `https` and `ftp` children.
   */
  datatype GnomeKey = Mode | IgnoreHosts | HttpHost | HttpPort | HttpsHost | HttpsPort | FtpHost | FtpPort

  /** `01-proxy.conf` and `02-bypass-domains.conf` under `$XDG_CONFIG_HOME/environment.d`. */
  datatype DropIn = ProxyDropIn | BypassDropIn

  /** The bypass list `del_proxy` restores in KDE. */
  const KdeDefaultBypass := "localhost,127.0.0.0/8,::1"

  datatype Endpoint = Endpoint(ipAddress: Option<string>, port: Option<string>)

  /** The dictionary `get_proxy` returns. */
  datatype ProxyInfo = ProxyInfo(isEnable: bool, http: Endpoint, https: Endpoint, ftp: Endpoint)

  function KdeEndpoint(stored: string): Endpoint {
    match ExtractIpAndPort(Strip(stored))
    case None => Endpoint(None, None)
    case Some(p) => Endpoint(Some(p.0), Some(p.1))
  }

  /** The kioslaverc keys after `__set_kde_proxy`; https is written with the `http://` scheme. */
  function KdeProxyWrites(k: map<KdeKey, string>, ip: string, port: nat): map<KdeKey, string> {
    k[HttpProxy := KdeProxyValue("http", ip, port)]
     [HttpsProxy := KdeProxyValue("http", ip, port)]
     [FtpProxy := KdeProxyValue("ftp", ip, port)]
  }


  /** The gsettings keys `del_proxy` resets to their schema defaults. */
  const GnomeResetKeys: set<GnomeKey> := {HttpHost, HttpPort, HttpsHost, HttpsPort, FtpHost, FtpPort, IgnoreHosts}

  /** A proxy address `__get_kde_proxy` can read back. */
  predicate DottedIp(ip: string) {
    ip != "" && forall i :: 0 <= i < |ip| ==> IsIpChar(ip[i])
  }

  /** A bypass list the KDE ","-encoding gives back unchanged. */
  predicate KdeReadable(domains: seq<string>) {
    domains != [] && (forall i :: 0 <= i < |domains| ==> ',' !in domains[i])
    && Join(domains, ",") != "" && Trimmed(Join(domains, ","))
  }

  /**
   * A bypass list the GNOME round trip gives back unchanged: `format_domains` writes it,
   * gsettings prints it the same way, and `ast.literal_eval` reads it.
   */
  predicate GnomeReadable(domains: seq<string>) {
    domains != [] && forall i :: 0 <= i < |domains| ==> Plain(domains[i]) && Printable(domains[i])
  }

  /**
   * The desktop's proxy settings: which desktop runs, the `kioslaverc` "Proxy Settings" group,
   * the gsettings values that were set, and the schema defaults gsettings reports otherwise.
   */
  datatype DesktopSettings = DesktopSettings(desktop: Desktop, gnomeDefaults: map<GnomeKey, GValue>,
                                             kioslaverc: map<KdeKey, string>, gsettings: map<GnomeKey, GValue>)
  {
    /** `kreadconfig`: a missing key prints "". */
    function KdeRead(key: KdeKey): string {
      if key in kioslaverc then kioslaverc[key] else ""
    }

    /** `gsettings get`: the printed value, or the printed default of a key that was not set. */
    function GnomeRead(key: GnomeKey): (r: string)
      ensures Trimmed(r)
    {
      if key in gsettings then GPrint(gsettings[key])
      else if key in gnomeDefaults then GPrint(gnomeDefaults[key])
      else ""
    }

    /**
     * `get_enable` as written: KDE's ProxyType is "1", or the GNOME output is `manual`. As
     * `gsettings get` prints the mode in quotes, the GNOME comparison never holds.
     */
    function GetEnableAsWritten(): (r: bool)
      ensures desktop == Kde ==> r == GetEnable()
      ensures desktop == Gnome && r ==> GnomeRead(Mode) == "manual"
    {
      StripTrimmed(GnomeRead(Mode));
      match desktop
      case Kde => Strip(KdeRead(ProxyType)) == "1"
      case Gnome => Strip(GnomeRead(Mode)) == "manual"
    }

    /** `get_enable` as intended: on GNOME the printed mode is compared with `'manual'`. */
    function GetEnable(): (r: bool)
      ensures desktop == Gnome ==> (r <==> GnomeRead(Mode) == Quote("manual"))
    {
      StripTrimmed(GnomeRead(Mode));
      match desktop
      case Kde => Strip(KdeRead(ProxyType)) == "1"
      case Gnome => Strip(GnomeRead(Mode)) == Quote("manual")
    }

    /** `get_bypass_domains`; None where `ast.literal_eval` raises. */
    function GetBypassDomains(): (r: Option<seq<string>>)
      ensures desktop == Kde ==> r.Some? && forall i :: 0 <= i < |r.value| ==> ',' !in r.value[i]
      ensures desktop == Gnome && "@" <= GnomeRead(IgnoreHosts) ==> r.None?
    {
      StripTrimmed(GnomeRead(IgnoreHosts));
      match desktop
      case Kde => Some(KdeBypassRead(KdeRead(NoProxyFor)))
      case Gnome => GnomeBypassRead(GnomeRead(IgnoreHosts))
    }

    /** `get_proxy`: KDE values are parsed, GNOME values are reported stripped. */
    function GetProxy(): (r: ProxyInfo)
      ensures r.isEnable == GetEnable()
      ensures desktop == Gnome ==> r.http.ipAddress.Some? && r.http.port.Some? && r.https.ipAddress.Some?
                                   && r.https.port.Some? && r.ftp.ipAddress.Some? && r.ftp.port.Some?
      ensures desktop == Kde ==> (r.http.ipAddress.Some? <==> r.http.port.Some?) && (r.https.ipAddress.Some? <==> r.https.port.Some?)
                                 && (r.ftp.ipAddress.Some? <==> r.ftp.port.Some?)
    {
      match desktop
      case Kde =>
        ProxyInfo(GetEnable(), KdeEndpoint(KdeRead(HttpProxy)), KdeEndpoint(KdeRead(HttpsProxy)),
                  KdeEndpoint(KdeRead(FtpProxy)))
      case Gnome =>
        ProxyInfo(GetEnable(),
                  Endpoint(Some(Strip(GnomeRead(HttpHost))), Some(Strip(GnomeRead(HttpPort)))),
                  Endpoint(Some(Strip(GnomeRead(HttpsHost))), Some(Strip(GnomeRead(HttpsPort)))),
                  Endpoint(Some(Strip(GnomeRead(FtpHost))), Some(Strip(GnomeRead(FtpPort)))))
    }

    /** A write through `kwriteconfig`, which only KDE sessions issue. */
    function KdeWrite(key: KdeKey, value: string): DesktopSettings {
      if desktop == Kde then this.(kioslaverc := kioslaverc[key := value]) else this
    }

    /** `gsettings set` of a string key; a value holding a quote is not modelled and changes nothing. */
    function GnomeSetString(key: GnomeKey, value: string): DesktopSettings {
      if Unquoted(value) then this.(gsettings := gsettings[key := GStr(value)]) else this
    }

    /**
     * `gsettings set` of a port: a value outside the schema's range is refused, and since the
     * source does not check the exit status, the key keeps its old value.
     */
    function GnomeSetInt(key: GnomeKey, value: nat): DesktopSettings {
      if value <= GnomePortMax then this.(gsettings := gsettings[key := GInt(value)]) else this
    }

    /** `gsettings set` of `ignore-hosts`: the text is parsed as a string list; text that does not parse changes nothing. */
    function GnomeSetList(key: GnomeKey, text: string): DesktopSettings {
      match ParseDomainList(text)
      case None => this
      case Some(items) => this.(gsettings := gsettings[key := GStrs(items)])
    }
  }

  /** The settings after `__set_kde_proxy` (KDE only) and `__set_gnome_proxy`. */
  function SetProxySettings(s: DesktopSettings, ip: string, port: nat): DesktopSettings {
    var k := if s.desktop == Kde then KdeProxyWrites(s.kioslaverc, ip, port) else s.kioslaverc;
    s.(kioslaverc := k)
     .GnomeSetString(HttpHost, ip).GnomeSetInt(HttpPort, port)
     .GnomeSetString(HttpsHost, ip).GnomeSetInt(HttpsPort, port)
     .GnomeSetString(FtpHost, ip).GnomeSetInt(FtpPort, port)
  }

  /** The switch of `set_enable`: KDE's ProxyType and the gsettings mode. */
  function SetEnableSettings(s: DesktopSettings, isEnable: bool): DesktopSettings {
    s.KdeWrite(ProxyType, if isEnable then "1" else "0").GnomeSetString(Mode, if isEnable then "manual" else "none")
  }

  /** The writes of `set_bypass_domains`: KDE's ","-join and `format_domains` for gsettings. */
  function SetBypassSettings(s: DesktopSettings, domains: seq<string>): DesktopSettings {
    s.KdeWrite(NoProxyFor, Join(domains, ",")).GnomeSetList(IgnoreHosts, FormatDomains(domains))
  }

  /**
   * The writes of `del_proxy`: KDE is switched off with empty proxies and its default bypass
   * list; the GNOME mode becomes "none" and the other keys go back to their defaults.
   */
  function DelProxySettings(s: DesktopSettings): DesktopSettings {
    var k := s.KdeWrite(ProxyType, "0").KdeWrite(HttpProxy, "").KdeWrite(HttpsProxy, "").KdeWrite(FtpProxy, "")
              .KdeWrite(NoProxyFor, KdeDefaultBypass);
    var g := k.GnomeSetString(Mode, "none");
    g.(gsettings := g.gsettings - GnomeResetKeys)
  }

  /** A gsettings write of one key leaves what every other key reads, and the KDE side. */
  lemma GnomeSetKeeps(t: DesktopSettings, key: GnomeKey, other: GnomeKey, v: string, n: nat)
    requires key != other
    ensures var u := t.GnomeSetString(key, v);
            u.GnomeRead(other) == t.GnomeRead(other) && u.desktop == t.desktop && u.kioslaverc == t.kioslaverc
    ensures var u := t.GnomeSetInt(key, n);
            u.GnomeRead(other) == t.GnomeRead(other) && u.desktop == t.desktop && u.kioslaverc == t.kioslaverc
    ensures var u := t.GnomeSetList(key, v);
            u.GnomeRead(other) == t.GnomeRead(other) && u.desktop == t.desktop && u.kioslaverc == t.kioslaverc
  {
  }

  /** `set_proxy` leaves the enabled state as it was. */
  lemma SetProxyKeepsEnable(s: DesktopSettings, ip: string, port: nat)
    ensures SetProxySettings(s, ip, port).GetEnable() == s.GetEnable()
  {
    var k := if s.desktop == Kde then KdeProxyWrites(s.kioslaverc, ip, port) else s.kioslaverc;
    var r0 := s.(kioslaverc := k);
    assert r0.KdeRead(ProxyType) == s.KdeRead(ProxyType) && r0.GnomeRead(Mode) == s.GnomeRead(Mode);
    var r1 := r0.GnomeSetString(HttpHost, ip);
    GnomeSetKeeps(r0, HttpHost, Mode, ip, port);
    var r2 := r1.GnomeSetInt(HttpPort, port);
    GnomeSetKeeps(r1, HttpPort, Mode, ip, port);
    var r3 := r2.GnomeSetString(HttpsHost, ip);
    GnomeSetKeeps(r2, HttpsHost, Mode, ip, port);
    var r4 := r3.GnomeSetInt(HttpsPort, port);
    GnomeSetKeeps(r3, HttpsPort, Mode, ip, port);
    var r5 := r4.GnomeSetString(FtpHost, ip);
    GnomeSetKeeps(r4, FtpHost, Mode, ip, port);
    var r6 := r5.GnomeSetInt(FtpPort, port);
    GnomeSetKeeps(r5, FtpPort, Mode, ip, port);
    assert r6 == SetProxySettings(s, ip, port);
  }

  /** On KDE, `get_proxy` after `set_proxy` parses back a dotted-decimal ip and the port. */
  lemma SetProxyKdeReadsBack(s: DesktopSettings, ip: string, port: nat)
    requires s.desktop == Kde && DottedIp(ip)
    ensures var e := Endpoint(Some(ip), Some(NatToString(port)));
            var p := SetProxySettings(s, ip, port).GetProxy();
            p.http == e && p.https == e && p.ftp == e
  {
    var r := SetProxySettings(s, ip, port);
    assert r.KdeRead(HttpProxy) == KdeProxyValue("http", ip, port) == r.KdeRead(HttpsProxy);
    assert r.KdeRead(FtpProxy) == KdeProxyValue("ftp", ip, port);
    KdeProxyRoundTrip("http", ip, port);
    KdeProxyRoundTrip("ftp", ip, port);
  }

  /**
   * On GNOME, `get_proxy` after `set_proxy` reports the ip as gsettings prints it, in single
   * quotes, and the port, for an ip with no quote, backslash or unprintable character and a
   * port within the schema's 0..65535.
   */
  lemma SetProxyGnomeReadsBack(s: DesktopSettings, ip: string, port: nat)
    requires s.desktop == Gnome && Unquoted(ip) && Plain(ip) && Printable(ip) && port <= GnomePortMax
    ensures var e := Endpoint(Some(Quote(ip)), Some(NatToString(port)));
            var p := SetProxySettings(s, ip, port).GetProxy();
            p.http == e && p.https == e && p.ftp == e
  {
    var r := SetProxySettings(s, ip, port);
    assert r.gsettings[HttpHost] == r.gsettings[HttpsHost] == r.gsettings[FtpHost] == GStr(ip);
    assert r.gsettings[HttpPort] == r.gsettings[HttpsPort] == r.gsettings[FtpPort] == GInt(port);
    PrintStringPlain(ip);
    StripTrimmed(Quote(ip));
    NatToStringTrimmed(port);
  }

  /**
   * A port past the schema's 65535 is refused by gsettings, and `subprocess.run` without
   * `check=True` raises nothing: GNOME keeps reporting the old ports.
   */
  lemma SetProxyGnomeBigPort(s: DesktopSettings, ip: string, port: nat)
    requires s.desktop == Gnome && port > GnomePortMax
    ensures var p := SetProxySettings(s, ip, port).GetProxy();
            var q := s.GetProxy();
            p.http.port == q.http.port && p.https.port == q.https.port && p.ftp.port == q.ftp.port
  {
    var r := SetProxySettings(s, ip, port);
    assert r.GnomeRead(HttpPort) == s.GnomeRead(HttpPort);
    assert r.GnomeRead(HttpsPort) == s.GnomeRead(HttpsPort);
    assert r.GnomeRead(FtpPort) == s.GnomeRead(FtpPort);
  }

  /** The mode `set_enable` stores prints in single quotes. */
  lemma ModeReadsBack(s: DesktopSettings, mode: string)
    requires mode == "manual" || mode == "none"
    ensures s.GnomeSetString(Mode, mode).GnomeRead(Mode) == Quote(mode)
    ensures Strip(Quote(mode)) == Quote(mode)
  {
    PrintStringPlain(mode);
    StripTrimmed(Quote(mode));
  }

  /** After `set_enable(e)`, `get_enable` reports e. */
  lemma SetEnableReadsBack(s: DesktopSettings, isEnable: bool)
    ensures SetEnableSettings(s, isEnable).GetEnable() == isEnable
  {
    var k := s.KdeWrite(ProxyType, if isEnable then "1" else "0");
    if isEnable {
      StripTrimmed("1");
      ModeReadsBack(k, "manual");
    } else {
      StripTrimmed("0");
      ModeReadsBack(k, "none");
      assert Quote("none")[1] != Quote("manual")[1];
    }
  }

  /** A printed gsettings value never equals the bare word `manual`. */
  lemma PrintedNotBare(v: GValue)
    ensures Strip(GPrint(v)) != "manual"
  {
    StripTrimmed(GPrint(v));
  }

  /** On GNOME the `get_enable` as written is false in every state, even right after `set_enable(True)`. */
  lemma GnomeEnableAsWrittenNeverTrue(s: DesktopSettings)
    requires s.desktop == Gnome
    ensures !s.GetEnableAsWritten()
    ensures !SetEnableSettings(s, true).GetEnableAsWritten()
  {
    if Mode in s.gsettings {
      PrintedNotBare(s.gsettings[Mode]);
    } else if Mode in s.gnomeDefaults {
      PrintedNotBare(s.gnomeDefaults[Mode]);
    } else {
      StripTrimmed("");
    }
    var r := SetEnableSettings(s, true);
    PrintedNotBare(r.gsettings[Mode]);
  }

  /** `set_enable` leaves the bypass list as it was. */
  lemma SetEnableKeepsBypass(s: DesktopSettings, isEnable: bool)
    ensures SetEnableSettings(s, isEnable).GetBypassDomains() == s.GetBypassDomains()
  {
    var r := SetEnableSettings(s, isEnable);
    assert r.desktop == s.desktop && r.KdeRead(NoProxyFor) == s.KdeRead(NoProxyFor)
        && r.GnomeRead(IgnoreHosts) == s.GnomeRead(IgnoreHosts);
  }

  /**
   * After `set_bypass_domains(d)`, `get_bypass_domains` gives d back where the encoding allows;
   * on GNOME an empty list prints as `@as []`, which `ast.literal_eval` refuses.
   */
  lemma SetBypassReadsBack(s: DesktopSettings, domains: seq<string>)
    ensures SetBypassSettings(s, domains).GetEnable() == s.GetEnable()
    ensures s.desktop == Gnome && GnomeReadable(domains) ==> SetBypassSettings(s, domains).GetBypassDomains() == Some(domains)
    ensures s.desktop == Gnome && domains == [] ==> SetBypassSettings(s, domains).GetBypassDomains() == None
    ensures s.desktop == Kde && KdeReadable(domains) ==> SetBypassSettings(s, domains).GetBypassDomains() == Some(domains)
  {
    var r := SetBypassSettings(s, domains);
    var k := s.KdeWrite(NoProxyFor, Join(domains, ","));
    assert k.KdeRead(ProxyType) == s.KdeRead(ProxyType) && k.GnomeRead(Mode) == s.GnomeRead(Mode);
    GnomeSetKeeps(k, IgnoreHosts, Mode, FormatDomains(domains), 0);
    assert r.KdeRead(ProxyType) == s.KdeRead(ProxyType) && r.GnomeRead(Mode) == s.GnomeRead(Mode);
    if s.desktop == Kde && KdeReadable(domains) {
      KdeBypassRoundTrip(domains);
    }
    if s.desktop == Gnome && (GnomeReadable(domains) || domains == []) {
      SetBypassGnome(s, domains);
    }
  }

  /** On GNOME, `ignore-hosts` holds the list `set_bypass_domains` formatted. */
  lemma SetBypassGnome(s: DesktopSettings, domains: seq<string>)
    requires s.desktop == Gnome && (GnomeReadable(domains) || domains == [])
    ensures GnomeReadable(domains) ==> SetBypassSettings(s, domains).GetBypassDomains() == Some(domains)
    ensures domains == [] ==> SetBypassSettings(s, domains).GetBypassDomains() == None
  {
    var r := SetBypassSettings(s, domains);
    FormatDomainsRoundTrip(domains);
    assert r.gsettings[IgnoreHosts] == GStrs(domains);
    if domains == [] {
      StripTrimmed("@as []");
    } else {
      PrintDomains(domains);
      GnomeBypassRoundTrip(domains);
    }
  }

  /** After `del_proxy` the proxy is off. */
  lemma DelProxyDisables(s: DesktopSettings)
    ensures !DelProxySettings(s).GetEnable()
  {
    var r := DelProxySettings(s);
    if s.desktop == Kde {
      DelProxyKdeType(s);
      StripTrimmed("0");
    } else {
      DelProxyGnomeMode(s);
      assert Quote("none")[1] != Quote("manual")[1];
    }
  }

  lemma DelProxyKdeType(s: DesktopSettings)
    requires s.desktop == Kde
    ensures DelProxySettings(s).KdeRead(ProxyType) == "0"
  {
  }

  lemma DelProxyGnomeMode(s: DesktopSettings)
    requires s.desktop == Gnome
    ensures Strip(DelProxySettings(s).GnomeRead(Mode)) == Quote("none")
  {
    var r := DelProxySettings(s);
    var g := s.GnomeSetString(Mode, "none");
    assert r == g.(gsettings := g.gsettings - GnomeResetKeys);
    ModeReadsBack(s, "none");
    assert Mode !in GnomeResetKeys && Mode in g.gsettings;
    assert r.GnomeRead(Mode) == g.GnomeRead(Mode);
  }



  /** After `del_proxy` on KDE, `get_proxy` reports no proxies and the default bypass list is back. */
  lemma DelProxyKdeReadsBack(s: DesktopSettings)
    requires s.desktop == Kde
    ensures var p := DelProxySettings(s).GetProxy();
            p.http == Endpoint(None, None) && p.https == Endpoint(None, None) && p.ftp == Endpoint(None, None)
    ensures DelProxySettings(s).GetBypassDomains() == Some(["localhost", "127.0.0.0/8", "::1"])
  {
    var r := DelProxySettings(s);
    assert r.KdeRead(HttpProxy) == "" && r.KdeRead(HttpsProxy) == "" && r.KdeRead(FtpProxy) == "";
    assert r.KdeRead(NoProxyFor) == KdeDefaultBypass;
    ExtractIpAndPortEmpty();
    KdeDefaultBypassReads();
  }

  /** Deleting a file and writing it anew is writing it. */
  lemma ReplaceAfterRemove<K, V>(m: map<K, V>, k: K, v: V)
    ensures (m - {k})[k := v] == m[k := v]
  {
  }

  class LinuxProxy {
    const ipAddress: string
    const port: nat
    var settings: DesktopSettings
    /** The files of `$XDG_CONFIG_HOME/environment.d`. */
    var environmentD: map<DropIn, string>

    constructor(ipAddress: string, port: nat, settings: DesktopSettings, environmentD: map<DropIn, string>)
      ensures this.ipAddress == ipAddress && this.port == port
      ensures this.settings == settings && this.environmentD == environmentD
    {
      this.ipAddress := ipAddress;
      this.port := port;
      this.settings := settings;
      this.environmentD := environmentD;
    }

    /** `unset_proxy_env_var`: deletes `01-proxy.conf`; a missing file is fine. */
    method UnsetProxyEnvVar()
      modifies this
      ensures environmentD == old(environmentD) - {ProxyDropIn}
      ensures settings == old(settings)
    {
      environmentD := environmentD - {ProxyDropIn};
    }

    /** `set_proxy_env_var`: `01-proxy.conf` is replaced by the eight assignments. */
    method SetProxyEnvVar()
      modifies this
      ensures environmentD == old(environmentD)[ProxyDropIn := ProxyConf(ipAddress, port)]
      ensures settings == old(settings)
    {
      UnsetProxyEnvVar();
      environmentD := environmentD[ProxyDropIn := ProxyConf(ipAddress, port)];
    }

    /** `unset_bypass_domains_env_var`: deletes `02-bypass-domains.conf`. */
    method UnsetBypassDomainsEnvVar()
      modifies this
      ensures environmentD == old(environmentD) - {BypassDropIn}
      ensures settings == old(settings)
    {
      environmentD := environmentD - {BypassDropIn};
    }

    /**
     * The `with open(..., "a")` block of `set_bypass_domains_env_var`: the file is created
     * empty, then one line per variable is appended with the domains read from the desktop
     * settings (`read`; both reads see the same settings). When the read raises, the file
     * stays empty and the error propagates.
     */
    method AppendBypassLines(read: Option<seq<string>>) returns (r: Result<(), string>)
      modifies this
      requires BypassDropIn !in environmentD
      ensures settings == old(settings)
      ensures read.Some? ==> r.Ok? && environmentD == old(environmentD)[BypassDropIn := BypassConf(read.value)]
      ensures read.None? ==> r.Err? && environmentD == old(environmentD)[BypassDropIn := ""]
    {
      environmentD := environmentD[BypassDropIn := ""];
      if read.None? {
        return Err("malformed node or string");
      }
      var joined := Join(read.value, ",");
      environmentD := environmentD[BypassDropIn := environmentD[BypassDropIn] + EnvLine("no_proxy", joined)];
      assert environmentD[BypassDropIn] == EnvLine("no_proxy", joined);
      environmentD := environmentD[BypassDropIn := environmentD[BypassDropIn] + EnvLine("NO_PROXY", joined)];
      BypassConfLines(read.value);
      r := Ok(());
    }

    /** `set_bypass_domains_env_var`: the old file is deleted, then the two lines are written. */
    method SetBypassDomainsEnvVar() returns (r: Result<(), string>)
      modifies this
      ensures settings == old(settings)
      ensures settings.GetBypassDomains().Some? ==>
                r.Ok? && environmentD == old(environmentD)[BypassDropIn := BypassConf(settings.GetBypassDomains().value)]
      ensures settings.GetBypassDomains().None? ==> r.Err? && environmentD == old(environmentD)[BypassDropIn := ""]
    {
      var read := settings.GetBypassDomains();
      UnsetBypassDomainsEnvVar();
      r := AppendBypassLines(read);
      ReplaceAfterRemove(old(environmentD), BypassDropIn, environmentD[BypassDropIn]);
    }

    /**
     * `set_proxy`: the desktop settings get the new proxy, and when the proxy is enabled
     * `01-proxy.conf` is rewritten.
     */
    method SetProxy()
      modifies this
      ensures settings == SetProxySettings(old(settings), ipAddress, port)
      ensures environmentD == if settings.GetEnable() then old(environmentD)[ProxyDropIn := ProxyConf(ipAddress, port)]
                              else old(environmentD)
    {
      settings := SetProxySettings(settings, ipAddress, port);
      if settings.GetEnable() {
        SetProxyEnvVar();
      }
    }

    /**
     * `set_enable`: the desktop switch is flipped, then both drop-ins are written (enable) or
     * deleted (disable).
     */
    method SetEnable(isEnable: bool) returns (r: Result<(), string>)
      modifies this
      ensures settings == SetEnableSettings(old(settings), isEnable)
      ensures isEnable ==> ProxyDropIn in environmentD && environmentD[ProxyDropIn] == ProxyConf(ipAddress, port)
      ensures isEnable && settings.GetBypassDomains().Some? ==>
                r.Ok? && environmentD == old(environmentD)[ProxyDropIn := ProxyConf(ipAddress, port)]
                                                          [BypassDropIn := BypassConf(settings.GetBypassDomains().value)]
      ensures isEnable && settings.GetBypassDomains().None? ==>
                r.Err? && environmentD == old(environmentD)[ProxyDropIn := ProxyConf(ipAddress, port)][BypassDropIn := ""]
      ensures !isEnable ==> r.Ok? && environmentD == old(environmentD) - {ProxyDropIn, BypassDropIn}
    {
      settings := SetEnableSettings(settings, isEnable);
      if isEnable {
        SetProxyEnvVar();
        r := SetBypassDomainsEnvVar();
      } else {
        UnsetProxyEnvVar();
        UnsetBypassDomainsEnvVar();
        r := Ok(());
      }
    }

    /**
     * `set_bypass_domains`: the desktop settings get the domains, and when the proxy is
     * enabled the bypass drop-in is rewritten.
     */
    method SetBypassDomains(domains: seq<string>) returns (r: Result<(), string>)
      modifies this
      ensures settings == SetBypassSettings(old(settings), domains)
      ensures !settings.GetEnable() ==> r.Ok? && environmentD == old(environmentD)
      ensures settings.GetEnable() && settings.GetBypassDomains().Some? ==>
                r.Ok? && environmentD == old(environmentD)[BypassDropIn := BypassConf(settings.GetBypassDomains().value)]
      ensures settings.GetEnable() && settings.GetBypassDomains().None? ==>
                r.Err? && environmentD == old(environmentD)[BypassDropIn := ""]
    {
      settings := SetBypassSettings(settings, domains);
      if settings.GetEnable() {
        r := SetBypassDomainsEnvVar();
      } else {
        r := Ok(());
      }
    }

    /** `del_proxy`: the desktop settings are reset and both drop-ins are deleted. */
    method DelProxy()
      modifies this
      ensures settings == DelProxySettings(old(settings))
      ensures environmentD == old(environmentD) - {ProxyDropIn, BypassDropIn}
    {
      settings := DelProxySettings(settings);
      UnsetProxyEnvVar();
      UnsetBypassDomainsEnvVar();
    }

    /** `join`: `set_proxy`, then `set_enable(True)`; the proxy ends up enabled with both drop-ins. */
    method JoinProxy() returns (r: Result<(), string>)
      modifies this
      ensures settings == SetEnableSettings(SetProxySettings(old(settings), ipAddress, port), true)
      ensures ProxyDropIn in environmentD && environmentD[ProxyDropIn] == ProxyConf(ipAddress, port)
      ensures BypassDropIn in environmentD
    {
      SetProxy();
      r := SetEnable(true);
    }
  }

  /** Decimal digits have no surrounding whitespace. */
  lemma NatToStringTrimmed(n: nat)
    ensures Strip(NatToString(n)) == NatToString(n)
  {
    var p := NatToString(n);
    assert IsDigit(p[0]) && IsDigit(p[|p| - 1]);
    StripTrimmed(p);
  }

  /** The KDE default bypass list `del_proxy` writes reads back as its three entries. */
  lemma KdeDefaultBypassReads()
    ensures KdeBypassRead(KdeDefaultBypass) == ["localhost", "127.0.0.0/8", "::1"]
  {
    assert KdeDefaultBypass == "localhost" + [','] + ("127.0.0.0/8" + [','] + "::1");
    KdeBypassThree("localhost", "127.0.0.0/8", "::1");
  }

  /** Three comma-free entries, the first and last without outer blanks, joined with ",". */
  lemma KdeBypassThree(a: string, b: string, c: string)
    requires ',' !in a && ',' !in b && ',' !in c
    requires a != "" && c != "" && !IsSpace(a[0]) && !IsSpace(c[|c| - 1])
    ensures KdeBypassRead(a + [','] + (b + [','] + c)) == [a, b, c]
  {
    var s := a + [','] + (b + [','] + c);
    assert s[0] == a[0] && s[|s| - 1] == c[|c| - 1];
    StripTrimmed(s);
    SplitThree(a, b, c, ',');
  }
}
