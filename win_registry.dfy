/**
 * The Windows proxy settings of both packages: the values under
 * `HKCU\Software\Microsoft\Windows\CurrentVersion\Internet Settings`, the `set_key` rule that
 * keeps a value's registry type, the `ProxyServer` grammar read by `extract_proxies`, and the
 * `ProxyOverride` list. uniproxy and proxverter share this code line for line; only the
 * `WinProxy` classes that drive it differ (UniWin, ProxWin).
 */
module WinRegistry {
  import opened Wrappers
  import opened Text

  /** winreg's type codes for the string and number types. */
  const RegSz: nat := 1
  const RegExpandSz: nat := 2
  const RegDword: nat := 4
  const RegQword: nat := 11

  /** The Python value stored in a registry value: an `int` or a `str`. */
  datatype Data = Num(n: int) | Str(s: string)

  /** A registry value: its data and its registry type. */
  datatype Value = Value(data: Data, kind: nat)

  /** The opened key: value names to values. */
  type Registry = map<string, Value>

  const ProxyEnable := "ProxyEnable"
  const ProxyServer := "ProxyServer"
  const ProxyOverride := "ProxyOverride"

  /**
   * The exceptions of the registry code: a malformed address or data that `SetValueEx` cannot
   * convert to the value's type (ValueError), or `.split` on an `int` (AttributeError).
   */
  datatype Failure = ValueError | AttributeError

  /** `SetValueEx` converts a `str` only to a string type and an `int` only to a number type. */
  predicate Fits(data: Data, kind: nat) {
    match data
    case Str(_) => kind == RegSz || kind == RegExpandSz
    case Num(_) => kind == RegDword || kind == RegQword
  }

  /** The type `set_key` writes under: the value's own type, or REG_SZ for a missing value. */
  function KindOf(reg: Registry, name: string): (k: nat)
    ensures name !in reg ==> k == RegSz
  {
    if name in reg then reg[name].kind else RegSz
  }

  /**
   * `set_key(name, data)`: an existing value is overwritten with its registry type kept; a
   * missing one is created as REG_SZ. No other value changes. `SetValueEx` raises ValueError
   * when the data does not fit that type, and then nothing is written.
   */
  function Stored(reg: Registry, name: string, data: Data): (r: Result<Registry, Failure>)
    ensures r.Ok? <==> Fits(data, KindOf(reg, name))
    ensures r.Err? ==> r.error == ValueError
    ensures r.Ok? ==> name in r.value && r.value[name].data == data
    ensures r.Ok? && name in reg ==> r.value[name].kind == reg[name].kind
    ensures r.Ok? && name !in reg ==> r.value[name].kind == RegSz
    ensures r.Ok? ==> r.value.Keys == reg.Keys + {name}
    ensures r.Ok? ==> forall k :: k in reg && k != name ==> r.value[k] == reg[k]
  {
    var kind := KindOf(reg, name);
    if Fits(data, kind) then Ok(reg[name := Value(data, kind)]) else Err(ValueError)
  }

  /** A missing value is created as REG_SZ, so only a string can be written to it. */
  lemma MissingTakesStrings(reg: Registry, name: string, data: Data)
    requires name !in reg
    ensures Stored(reg, name, data).Ok? <==> data.Str?
  {
  }

  /** Every value holds data of its own type, as a key read from the registry does. */
  predicate WellTyped(reg: Registry) {
    forall k :: k in reg ==> Fits(reg[k].data, reg[k].kind)
  }

  /** A successful `set_key` keeps the key well typed. */
  lemma StoredWellTyped(reg: Registry, name: string, data: Data)
    requires WellTyped(reg) && Stored(reg, name, data).Ok?
    ensures WellTyped(Stored(reg, name, data).value)
  {
  }

  /**
   * Storing the same name twice keeps only the second data, under the type of the first; when
   * the first write succeeds, the second fails exactly when it would have failed alone.
   */
  lemma StoredTwice(reg: Registry, name: string, a: Data, b: Data)
    ensures Stored(reg, name, a).Ok? ==> Stored(Stored(reg, name, a).value, name, b) == Stored(reg, name, b)
  {
    if Stored(reg, name, a).Ok? {
      var first := Stored(reg, name, a).value;
      assert KindOf(first, name) == KindOf(reg, name);
      assert first[name := Value(b, KindOf(reg, name))] == reg[name := Value(b, KindOf(reg, name))];
    }
  }

  /** `get_enable`: ProxyEnable holds the `int` 1; a missing value reads as disabled. */
  function GetEnableOf(reg: Registry): (r: bool)
    ensures ProxyEnable !in reg ==> !r
    ensures r ==> reg[ProxyEnable].data.Num?
  {
    ProxyEnable in reg && reg[ProxyEnable].data == Num(1)
  }

  /** The 1 or 0 that `set_enable` stores. */
  function EnableData(isEnable: bool): Data {
    Num(if isEnable then 1 else 0)
  }

  /**
   * `set_enable(e)` succeeds exactly when ProxyEnable exists with a number type; a missing
   * ProxyEnable would be created as REG_SZ, which refuses the `int`. When it succeeds,
   * `get_enable` reads back e, whatever was there before.
   */
  lemma EnableReadBack(reg: Registry, isEnable: bool)
    ensures Stored(reg, ProxyEnable, EnableData(isEnable)).Ok? <==>
              ProxyEnable in reg && (reg[ProxyEnable].kind == RegDword || reg[ProxyEnable].kind == RegQword)
    ensures ProxyEnable !in reg ==> Stored(reg, ProxyEnable, EnableData(isEnable)) == Err(ValueError)
    ensures Stored(reg, ProxyEnable, EnableData(isEnable)).Ok? ==>
              GetEnableOf(Stored(reg, ProxyEnable, EnableData(isEnable)).value) == isEnable
  {
  }

  /** A ProxyEnable holding a string, even "1", reads as disabled: `"1" == 1` is false in Python. */
  lemma StringNeverEnabled(reg: Registry, s: string)
    requires ProxyEnable in reg && reg[ProxyEnable].data == Str(s)
    ensures !GetEnableOf(reg)
  {
  }

  // ---------------------------------------------------------------------------------------
  // ProxyServer: `extract_proxies`

  /** One proxy: the strings on either side of the ':' of an address. */
  datatype Endpoint = Endpoint(ip: string, port: string)

  /** `{"ip_address": "", "port": ""}`, reported for a protocol without a proxy. */
  const NoEndpoint := Endpoint("", "")

  /** The dict `extract_proxies` builds: protocol name to proxy. */
  type Proxies = map<string, Endpoint>

  /** The text of an address: `ip:port`. */
  function AddressText(e: Endpoint): string {
    e.ip + ":" + e.port
  }

  /**
   * `ip_address, port = address.split(':')`: the unpacking raises ValueError unless the
   * address has exactly one ':'.
   */
  function SplitAddress(address: string): (r: Result<Endpoint, Failure>)
    ensures r.Ok? ==> address == AddressText(r.value) && ':' !in r.value.ip && ':' !in r.value.port
    ensures r.Err? ==> r.error == ValueError
  {
    var parts := Split(address, ':');
    if |parts| == 2 then
      JoinSplit(address, ':');
      assert Join(parts, ":") == parts[0] + ":" + Join(parts[1..], ":");
      Ok(Endpoint(parts[0], parts[1]))
    else Err(ValueError)
  }

  /** The converse: an address with exactly one ':' splits into the two sides. */
  lemma SplitAddressOf(e: Endpoint)
    requires ':' !in e.ip && ':' !in e.port
    ensures SplitAddress(AddressText(e)) == Ok(e)
  {
    SplitAt(e.ip, ':', e.port);
    assert IndexOf(e.port, ':') == None;
    assert AddressText(e) == e.ip + [':'] + e.port;
  }

  /** An entry of the ';'-separated list: `host:port` for every protocol, or `protocol=host:port`. */
  datatype Entry = ForAll(endpoint: Endpoint) | ForProtocol(protocol: string, endpoint: Endpoint)

  /** The text of an entry. */
  function EntryText(e: Entry): string {
    match e
    case ForAll(p) => AddressText(p)
    case ForProtocol(protocol, p) => protocol + "=" + AddressText(p)
  }

  /**
   * One entry of `extract_proxies`: with a '=' it is split at the first one into protocol and
   * address, otherwise the whole entry is the address.
   */
  function ParseEntry(proxy: string): (r: Result<Entry, Failure>)
    ensures r.Ok? ==> proxy == EntryText(r.value)
    ensures r.Ok? && r.value.ForAll? ==> '=' !in proxy
    ensures r.Ok? && r.value.ForProtocol? ==> '=' !in r.value.protocol
  {
    match IndexOf(proxy, '=')
    case None =>
      (match SplitAddress(proxy)
       case Ok(p) => Ok(ForAll(p))
       case Err(f) => Err(f))
    case Some(i) =>
      assert proxy == proxy[..i] + "=" + proxy[i + 1..];
      (match SplitAddress(proxy[i + 1..])
       case Ok(p) => Ok(ForProtocol(proxy[..i], p))
       case Err(f) => Err(f))
  }

  /** A parsed entry's ip and port are the ':'-free sides of `split(':')`. */
  lemma ParseEntryColonFree(proxy: string)
    ensures ParseEntry(proxy).Ok? ==> ':' !in ParseEntry(proxy).value.endpoint.ip && ':' !in ParseEntry(proxy).value.endpoint.port
  {
  }

  /** A well-formed entry: no '=' in the protocol, one ':' in the address, no '=' in a bare address. */
  predicate WellFormed(e: Entry) {
    ':' !in e.endpoint.ip && ':' !in e.endpoint.port &&
    match e
    case ForAll(p) => '=' !in p.ip && '=' !in p.port
    case ForProtocol(protocol, _) => '=' !in protocol
  }

  /** Parsing undoes rendering for well-formed entries. */
  lemma ParseEntryText(e: Entry)
    requires WellFormed(e)
    ensures ParseEntry(EntryText(e)) == Ok(e)
  {
    match e
    case ForAll(p) =>
      NotInAddress(p, '=');
      SplitAddressOf(p);
    case ForProtocol(protocol, p) =>
      IndexOfAt(protocol, '=', AddressText(p));
      var s := protocol + [ '=' ] + AddressText(p);
      assert EntryText(e) == s;
      assert s[..|protocol|] == protocol && s[|protocol| + 1..] == AddressText(p);
      SplitAddressOf(p);
  }

  lemma NotInAddress(p: Endpoint, c: char)
    requires c != ':' && c !in p.ip && c !in p.port
    ensures c !in AddressText(p)
  {
  }

  /** The dict update of one entry: a bare address goes to http, https and ftp. */
  function Apply(acc: Proxies, e: Entry): (r: Proxies)
    ensures e.ForAll? ==> r.Keys == acc.Keys + {"http", "https", "ftp"}
    ensures e.ForAll? ==> r["http"] == e.endpoint && r["https"] == e.endpoint && r["ftp"] == e.endpoint
    ensures e.ForProtocol? ==> r == acc[e.protocol := e.endpoint]
  {
    match e
    case ForAll(p) => acc["http" := p]["https" := p]["ftp" := p]
    case ForProtocol(protocol, p) => acc[protocol := p]
  }

  /** Every ip and port of the dict is free of ':', as `split(':')` leaves them. */
  predicate ColonFree(ps: Proxies) {
    forall protocol :: protocol in ps ==> ':' !in ps[protocol].ip && ':' !in ps[protocol].port
  }

  /** The loop of `extract_proxies` over the entries, from the dict built so far. */
  function ExtractFrom(entries: seq<string>, acc: Proxies): (r: Result<Proxies, Failure>)
    ensures r.Ok? ==> acc.Keys <= r.value.Keys
    ensures r.Err? ==> r.error == ValueError
  {
    if entries == [] then Ok(acc)
    else match ParseEntry(entries[0])
      case Err(f) => Err(f)
      case Ok(e) => ExtractFrom(entries[1..], Apply(acc, e))
  }

  /**
   * `extract_proxies(proxy_server)`: the only exception is ValueError, and every ip and port in
   * the dict is a ':'-free side of a `split(':')`.
   */
  function Extract(proxyServer: string): (r: Result<Proxies, Failure>)
    ensures r.Err? ==> r.error == ValueError
    ensures r.Ok? ==> ColonFree(r.value)
  {
    ExtractFromColonFree(Split(proxyServer, ';'), map[]);
    ExtractFrom(Split(proxyServer, ';'), map[])
  }

  /** Each parsed entry's ip and port are ':'-free, so the dict the loop builds stays ':'-free. */
  lemma {:induction false} ExtractFromColonFree(entries: seq<string>, acc: Proxies)
    requires ColonFree(acc)
    ensures ExtractFrom(entries, acc).Ok? ==> ColonFree(ExtractFrom(entries, acc).value)
  {
    if entries != [] && ParseEntry(entries[0]).Ok? {
      var e := ParseEntry(entries[0]).value;
      ParseEntryColonFree(entries[0]);
      ApplyColonFree(acc, e);
      var next := Apply(acc, e);
      ExtractFromColonFree(entries[1..], next);
      assert ExtractFrom(entries, acc) == ExtractFrom(entries[1..], next);
    }
  }

  /** Adding a ':'-free endpoint keeps the dict ':'-free. */
  lemma ApplyColonFree(acc: Proxies, e: Entry)
    requires ColonFree(acc) && ':' !in e.endpoint.ip && ':' !in e.endpoint.port
    ensures ColonFree(Apply(acc, e))
  {
  }

  /** `extract_proxies` as the source writes it: a loop filling the dict, raising on a bad entry. */
  method ExtractProxies(proxyServer: string) returns (r: Result<Proxies, Failure>)
    ensures r == Extract(proxyServer)
  {
    var entries := Split(proxyServer, ';');
    var proxies: Proxies := map[];
    var i := 0;
    while i < |entries|
      invariant i <= |entries|
      invariant ExtractFrom(entries[i..], proxies) == Extract(proxyServer)
    {
      var proxy := entries[i];
      assert entries[i..][0] == proxy && entries[i..][1..] == entries[i + 1..];
      var eq := IndexOf(proxy, '=');
      if eq.Some? {
        var protocol, address := proxy[..eq.value], proxy[eq.value + 1..];
        var parts := Split(address, ':');
        if |parts| != 2 {
          return Err(ValueError);
        }
        proxies := proxies[protocol := Endpoint(parts[0], parts[1])];
      } else {
        var parts := Split(proxy, ':');
        if |parts| != 2 {
          return Err(ValueError);
        }
        var p := Endpoint(parts[0], parts[1]);
        proxies := proxies["http" := p]["https" := p]["ftp" := p];
      }
      i := i + 1;
    }
    return Ok(proxies);
  }

  /** Every entry of the list parses. */
  predicate AllParse(entries: seq<string>) {
    forall i :: 0 <= i < |entries| ==> ParseEntry(entries[i]).Ok?
  }

  /** The loop succeeds exactly when every entry parses. */
  lemma {:induction false} ExtractFromOkIff(entries: seq<string>, acc: Proxies)
    ensures ExtractFrom(entries, acc).Ok? <==> AllParse(entries)
  {
    if entries != [] {
      var rest := entries[1..];
      match ParseEntry(entries[0])
      case Err(_) =>
      case Ok(e) =>
        ExtractFromOkIff(rest, Apply(acc, e));
        assert AllParse(rest) ==> AllParse(entries) by {
          assert forall i :: 1 <= i < |entries| ==> entries[i] == rest[i - 1];
        }
    }
  }

  /** `extract_proxies` returns a dict exactly when every ';'-separated entry is well formed. */
  lemma ExtractOkIff(proxyServer: string)
    ensures Extract(proxyServer).Ok? <==> AllParse(Split(proxyServer, ';'))
  {
    ExtractFromOkIff(Split(proxyServer, ';'), map[]);
  }

  /** One more entry at the end is applied last, on top of the dict of the others. */
  lemma {:induction false} ExtractFromSnoc(entries: seq<string>, last: string, acc: Proxies)
    requires ExtractFrom(entries, acc).Ok? && ParseEntry(last).Ok?
    ensures ExtractFrom(entries + [last], acc) == Ok(Apply(ExtractFrom(entries, acc).value, ParseEntry(last).value))
  {
    var all := entries + [last];
    if entries == [] {
      assert all == [last];
      ExtractFromOne(last, acc);
    } else {
      ExtractFromStep(entries, acc);
      var e := ParseEntry(entries[0]).value;
      ExtractFromSnoc(entries[1..], last, Apply(acc, e));
      SnocStep(entries, last, acc, e);
    }
  }

  /** The step of `ExtractFromSnoc`: the first entry is applied before the rest and the last one. */
  lemma SnocStep(entries: seq<string>, last: string, acc: Proxies, e: Entry)
    requires entries != [] && ParseEntry(entries[0]) == Ok(e) && ParseEntry(last).Ok?
    requires ExtractFrom(entries[1..], Apply(acc, e)).Ok?
    requires ExtractFrom(entries[1..] + [last], Apply(acc, e))
             == Ok(Apply(ExtractFrom(entries[1..], Apply(acc, e)).value, ParseEntry(last).value))
    ensures ExtractFrom(entries, acc).Ok?
    ensures ExtractFrom(entries + [last], acc) == Ok(Apply(ExtractFrom(entries, acc).value, ParseEntry(last).value))
  {
    var all := entries + [last];
    assert all[0] == entries[0] && all[1..] == entries[1..] + [last];
    ExtractFromStep(entries, acc);
    ExtractFromStep(all, acc);
  }

  /** The first entry parses and is applied; the rest are extracted on top of it. */
  lemma ExtractFromStep(entries: seq<string>, acc: Proxies)
    requires entries != [] && (ExtractFrom(entries, acc).Ok? || ParseEntry(entries[0]).Ok?)
    ensures ParseEntry(entries[0]).Ok?
    ensures ExtractFrom(entries, acc) == ExtractFrom(entries[1..], Apply(acc, ParseEntry(entries[0]).value))
  {
  }

  lemma ExtractFromOne(last: string, acc: Proxies)
    requires ParseEntry(last).Ok?
    ensures ExtractFrom([last], acc) == Ok(Apply(acc, ParseEntry(last).value))
  {
    assert [last][1..] == [];
  }

  /**
   * A later entry for a protocol overrides the earlier ones: appending `protocol=ip:port` to a
   * list that parses maps that protocol to the new proxy and leaves every other protocol as it was.
   */
  lemma LaterEntryWins(entries: seq<string>, e: Entry)
    requires |entries| >= 1 && forall i :: 0 <= i < |entries| ==> ';' !in entries[i]
    requires e.ForProtocol? && WellFormed(e) && ';' !in EntryText(e)
    requires Extract(Join(entries, ";")).Ok?
    ensures Extract(Join(entries + [EntryText(e)], ";")) ==
            Ok(Extract(Join(entries, ";")).value[e.protocol := e.endpoint])
  {
    var t := EntryText(e);
    var all := entries + [t];
    NoneHolds(entries, t, ';');
    SplitJoin(entries, ';');
    SplitJoin(all, ';');
    assert Extract(Join(entries, ";")) == ExtractFrom(entries, map[]);
    assert Extract(Join(all, ";")) == ExtractFrom(all, map[]);
    ParseEntryText(e);
    ExtractFromSnoc(entries, t, map[]);
  }

  /** A character found in no element of a list, nor in one more string, is in no element of the longer list. */
  lemma NoneHolds(xs: seq<string>, y: string, c: char)
    requires forall i :: 0 <= i < |xs| ==> c !in xs[i]
    requires c !in y
    ensures forall i :: 0 <= i < |xs + [y]| ==> c !in (xs + [y])[i]
  {
    forall i | 0 <= i < |xs + [y]|
      ensures c !in (xs + [y])[i]
    {
      if i < |xs| {
        assert (xs + [y])[i] == xs[i];
      }
    }
  }

  /** An entry free of ';' is the whole list. */
  lemma SplitSingle(s: string)
    requires ';' !in s
    ensures Split(s, ';') == [s]
  {
  }

  /**
   * The round trip of `set_proxy`: the `ip:port` it stores reads back as that proxy for http,
   * https and ftp, and for nothing else.
   */
  lemma ExtractAddress(p: Endpoint)
    requires ':' !in p.ip && ':' !in p.port && ';' !in p.ip && ';' !in p.port
    requires '=' !in p.ip && '=' !in p.port
    ensures Extract(AddressText(p)) == Ok(map["http" := p, "https" := p, "ftp" := p])
  {
    var s := AddressText(p);
    NotInAddress(p, ';');
    SplitSingle(s);
    ParseEntryText(ForAll(p));
    assert ExtractFrom([s], map[]) == ExtractFrom([], Apply(map[], ForAll(p)));
  }

  /** The empty ProxyServer that `del_proxy` stores is not an address: reading it raises ValueError. */
  lemma ExtractEmpty()
    ensures Extract("") == Err(ValueError)
  {
    assert Split("", ';') == [""];
    assert Split("", ':') == [""];
  }

  // ---------------------------------------------------------------------------------------
  // get_proxy, get_bypass_domains

  /** The dict `get_proxy` returns. */
  datatype ProxyInfo = ProxyInfo(isEnable: bool, http: Endpoint, https: Endpoint, ftp: Endpoint)

  /** `proxies.get(protocol, {"ip_address": "", "port": ""})` */
  function Lookup(proxies: Proxies, protocol: string): Endpoint {
    if protocol in proxies then proxies[protocol] else NoEndpoint
  }

  /**
   * `get_proxy`: a missing ProxyServer gives the all-empty default (reported disabled even when
   * ProxyEnable is 1); otherwise the value is parsed and any error propagates, since only
   * FileNotFoundError is caught.
   */
  function GetProxyOf(reg: Registry): (r: Result<ProxyInfo, Failure>)
    ensures ProxyServer !in reg ==> r == Ok(ProxyInfo(false, NoEndpoint, NoEndpoint, NoEndpoint))
    ensures ProxyServer in reg && reg[ProxyServer].data.Num? ==> r == Err(AttributeError)
    ensures r.Ok? && ProxyServer in reg ==> r.value.isEnable == GetEnableOf(reg)
  {
    if ProxyServer !in reg then Ok(ProxyInfo(false, NoEndpoint, NoEndpoint, NoEndpoint))
    else match reg[ProxyServer].data
      case Num(_) => Err(AttributeError)
      case Str(v) =>
        (match Extract(v)
         case Err(f) => Err(f)
         case Ok(p) => Ok(ProxyInfo(GetEnableOf(reg), Lookup(p, "http"), Lookup(p, "https"), Lookup(p, "ftp"))))
  }

  /** `get_bypass_domains`: the stored string split on ';'; a missing value is the empty list. */
  function GetBypassOf(reg: Registry): (r: Result<seq<string>, Failure>)
    ensures ProxyOverride !in reg ==> r == Ok([])
    ensures ProxyOverride in reg && reg[ProxyOverride].data.Num? ==> r == Err(AttributeError)
    ensures ProxyOverride in reg && r.Ok? ==> |r.value| >= 1 && Join(r.value, ";") == reg[ProxyOverride].data.s
  {
    if ProxyOverride !in reg then Ok([])
    else match reg[ProxyOverride].data
      case Num(_) => Err(AttributeError)
      case Str(v) => JoinSplit(v, ';'); Ok(Split(v, ';'))
  }

  /** `';'.join(domains)`, what `set_bypass_domains` stores. */
  function BypassText(domains: seq<string>): string {
    Join(domains, ";")
  }

  /** A non-empty list of ';'-free domains reads back as itself. */
  lemma BypassRoundTrip(reg: Registry, domains: seq<string>)
    requires |domains| >= 1 && forall i :: 0 <= i < |domains| ==> ';' !in domains[i]
    ensures var w := Stored(reg, ProxyOverride, Str(BypassText(domains)));
            w.Ok? ==> GetBypassOf(w.value) == Ok(domains)
  {
    SplitJoin(domains, ';');
  }

  /** The empty list is stored as "" and reads back as `[""]`. */
  lemma BypassEmptyReadsBack(reg: Registry)
    ensures var w := Stored(reg, ProxyOverride, Str(BypassText([])));
            w.Ok? ==> GetBypassOf(w.value) == Ok([""])
  {
    assert Split("", ';') == [""];
  }

  // ---------------------------------------------------------------------------------------
  // The registry after join and del_proxy (the same in both packages)

  /** One `set_key` call: the value name and the data. */
  datatype Write = Write(name: string, data: Data)

  /**
   * What a run of `set_key` calls leaves: the key after the writes that succeeded, their names
   * in order, and the error that stopped the run, if one did.
   */
  datatype Outcome = Outcome(reg: Registry, written: seq<string>, failure: Option<Failure>)

  function Names(ws: seq<Write>): (r: seq<string>)
    ensures |r| == |ws| && forall i :: 0 <= i < |ws| ==> r[i] == ws[i].name
  {
    if ws == [] then [] else [ws[0].name] + Names(ws[1..])
  }

  /**
   * The writes in order, each under `set_key`'s rule, until one raises: nothing after a
   * failed write happens, and the writes before it stay.
   */
  function StoreAll(reg: Registry, ws: seq<Write>): (o: Outcome)
    ensures |o.written| <= |ws| && o.written == Names(ws[..|o.written|])
    ensures o.failure.None? <==> |o.written| == |ws|
    ensures o.failure.Some? ==> o.failure.value == ValueError
    decreases |ws|
  {
    if ws == [] then Outcome(reg, [], None)
    else match Stored(reg, ws[0].name, ws[0].data)
      case Err(f) => Outcome(reg, [], Some(f))
      case Ok(next) =>
        var o := StoreAll(next, ws[1..]);
        var done := ws[..|o.written| + 1];
        assert done[0] == ws[0] && done[1..] == ws[1..][..|o.written|];
        assert Names(done) == [ws[0].name] + o.written;
        Outcome(o.reg, [ws[0].name] + o.written, o.failure)
  }

  /** Two writes: the second happens only when the first succeeds. */
  lemma StoreTwo(reg: Registry, u: Write, v: Write)
    ensures var first := Stored(reg, u.name, u.data);
            StoreAll(reg, [u, v]) ==
              if first.Err? then Outcome(reg, [], Some(ValueError))
              else if Stored(first.value, v.name, v.data).Err? then Outcome(first.value, [u.name], Some(ValueError))
              else Outcome(Stored(first.value, v.name, v.data).value, [u.name, v.name], None)
  {
    assert [u, v][1..] == [v];
    assert [v][1..] == [];
    var first := Stored(reg, u.name, u.data);
    if first.Ok? {
      var second := Stored(first.value, v.name, v.data);
      if second.Ok? {
        assert StoreAll(second.value, []) == Outcome(second.value, [], None);
        assert StoreAll(first.value, [v]) == Outcome(second.value, [v.name], None);
      } else {
        assert StoreAll(first.value, [v]) == Outcome(first.value, [], Some(ValueError));
      }
    }
  }

  /** Three writes, each happening only when the ones before it succeeded. */
  lemma StoreThree(reg: Registry, u: Write, v: Write, w: Write)
    ensures var first := Stored(reg, u.name, u.data);
            StoreAll(reg, [u, v, w]) ==
              if first.Err? then Outcome(reg, [], Some(ValueError))
              else Outcome(StoreAll(first.value, [v, w]).reg, [u.name] + StoreAll(first.value, [v, w]).written,
                           StoreAll(first.value, [v, w]).failure)
  {
    assert [u, v, w][1..] == [v, w];
  }

  /** `'%s:%i' % (ip_address, port)` */
  function ProxyAddress(ipAddress: string, port: nat): string {
    ipAddress + ":" + NatToString(port)
  }

  /** The writes of `join`: ProxyServer becomes `ip:port`, then ProxyEnable 1. */
  function JoinWrites(ipAddress: string, port: nat): seq<Write> {
    [Write(ProxyServer, Str(ProxyAddress(ipAddress, port))), Write(ProxyEnable, EnableData(true))]
  }

  /** The writes of `del_proxy`: ProxyEnable 0, ProxyServer "", ProxyOverride "<local>". */
  const ResetWrites: seq<Write> := [Write(ProxyEnable, EnableData(false)), Write(ProxyServer, Str("")), Write(ProxyOverride, Str("<local>"))]

  /** The key after `join`. */
  function Joined(reg: Registry, ipAddress: string, port: nat): Outcome {
    StoreAll(reg, JoinWrites(ipAddress, port))
  }

  /** The key after `del_proxy`. */
  function Reset(reg: Registry): Outcome {
    StoreAll(reg, ResetWrites)
  }

  /** A string can be written to the value: it is missing, or has a string type. */
  predicate TakesString(reg: Registry, name: string) {
    name !in reg || reg[name].kind == RegSz || reg[name].kind == RegExpandSz
  }

  /** A number can be written to the value: it exists with a number type. */
  predicate TakesNumber(reg: Registry, name: string) {
    name in reg && (reg[name].kind == RegDword || reg[name].kind == RegQword)
  }

  /** The three value names differ. */
  lemma NamesDistinct()
    ensures ProxyEnable != ProxyServer && ProxyEnable != ProxyOverride && ProxyServer != ProxyOverride
  {
    assert ProxyEnable[5] != ProxyServer[5];
    assert |ProxyEnable| != |ProxyOverride| && |ProxyServer| != |ProxyOverride|;
  }

  /** Writing one value does not change what another value takes. */
  lemma StoredKeepsTakes(reg: Registry, name: string, data: Data, other: string)
    requires Stored(reg, name, data).Ok? && other != name
    ensures TakesString(Stored(reg, name, data).value, other) == TakesString(reg, other)
    ensures TakesNumber(Stored(reg, name, data).value, other) == TakesNumber(reg, other)
    ensures KindOf(Stored(reg, name, data).value, other) == KindOf(reg, other)
  {
  }

  /** Writing the data a value already holds changes nothing. */
  lemma StoredSame(reg: Registry, name: string, data: Data)
    requires name in reg && reg[name].data == data && Fits(data, reg[name].kind)
    ensures Stored(reg, name, data) == Ok(reg)
  {
    assert reg[name := Value(data, reg[name].kind)] == reg;
  }

  /** `del_proxy` step by step: each write happens only when the ones before it succeeded. */
  lemma ResetSteps(reg: Registry)
    ensures var e := Stored(reg, ProxyEnable, EnableData(false));
            Reset(reg) ==
              if e.Err? then Outcome(reg, [], Some(ValueError))
              else
                var s := Stored(e.value, ProxyServer, Str(""));
                if s.Err? then Outcome(e.value, [ProxyEnable], Some(ValueError))
                else
                  var o := Stored(s.value, ProxyOverride, Str("<local>"));
                  if o.Err? then Outcome(s.value, [ProxyEnable, ProxyServer], Some(ValueError))
                  else Outcome(o.value, [ProxyEnable, ProxyServer, ProxyOverride], None)
  {
    var ws := ResetWrites;
    StoreThree(reg, ws[0], ws[1], ws[2]);
    var e := Stored(reg, ProxyEnable, EnableData(false));
    if e.Ok? {
      StoreTwo(e.value, ws[1], ws[2]);
    }
  }

  /**
   * `join` completes exactly when ProxyServer takes a string and ProxyEnable a number;
   * otherwise it raises ValueError, with ProxyServer already written when only ProxyEnable
   * refuses.
   */
  lemma JoinedOkIff(reg: Registry, ipAddress: string, port: nat)
    ensures Joined(reg, ipAddress, port).failure.None? <==> TakesString(reg, ProxyServer) && TakesNumber(reg, ProxyEnable)
    ensures !TakesString(reg, ProxyServer) ==> Joined(reg, ipAddress, port) == Outcome(reg, [], Some(ValueError))
    ensures TakesString(reg, ProxyServer) && !TakesNumber(reg, ProxyEnable) ==>
              Joined(reg, ipAddress, port) ==
              Outcome(Stored(reg, ProxyServer, Str(ProxyAddress(ipAddress, port))).value, [ProxyServer], Some(ValueError))
  {
    var ws := JoinWrites(ipAddress, port);
    StoreTwo(reg, ws[0], ws[1]);
    NamesDistinct();
    var first := Stored(reg, ProxyServer, ws[0].data);
    if first.Ok? {
      StoredKeepsTakes(reg, ProxyServer, ws[0].data, ProxyEnable);
    }
  }

  /**
   * `del_proxy` completes exactly when ProxyEnable takes a number and ProxyServer and
   * ProxyOverride take strings; on a key without ProxyEnable its first write raises, and only
   * FileNotFoundError is caught.
   */
  lemma ResetOkIff(reg: Registry)
    ensures Reset(reg).failure.None? <==>
              TakesNumber(reg, ProxyEnable) && TakesString(reg, ProxyServer) && TakesString(reg, ProxyOverride)
    ensures !TakesNumber(reg, ProxyEnable) ==> Reset(reg) == Outcome(reg, [], Some(ValueError))
  {
    ResetSteps(reg);
    NamesDistinct();
    var e := Stored(reg, ProxyEnable, EnableData(false));
    if e.Ok? {
      StoredKeepsTakes(reg, ProxyEnable, EnableData(false), ProxyServer);
      StoredKeepsTakes(reg, ProxyEnable, EnableData(false), ProxyOverride);
      var s := Stored(e.value, ProxyServer, Str(""));
      if s.Ok? {
        StoredKeepsTakes(e.value, ProxyServer, Str(""), ProxyOverride);
      }
    }
  }

  /** Digits hold none of the separators of the ProxyServer grammar. */
  lemma DigitsFree(p: string, c: char)
    requires AllDigits(p) && !IsDigit(c)
    ensures c !in p
  {
  }

  /**
   * After a `join` that completes, `get_proxy` reports the proxy enabled, at this ip and the
   * decimal port, for all three protocols.
   */
  lemma JoinedReadsBack(reg: Registry, ipAddress: string, port: nat)
    requires ':' !in ipAddress && ';' !in ipAddress && '=' !in ipAddress
    ensures var p := Endpoint(ipAddress, NatToString(port));
            Joined(reg, ipAddress, port).failure.None? ==>
            GetProxyOf(Joined(reg, ipAddress, port).reg) == Ok(ProxyInfo(true, p, p, p))
  {
    var digits := NatToString(port);
    var p := Endpoint(ipAddress, digits);
    DigitsFree(digits, ':');
    DigitsFree(digits, ';');
    DigitsFree(digits, '=');
    assert AddressText(p) == ProxyAddress(ipAddress, port);
    var ws := JoinWrites(ipAddress, port);
    StoreTwo(reg, ws[0], ws[1]);
    NamesDistinct();
    var j := Joined(reg, ipAddress, port);
    if j.failure.None? {
      assert j.reg[ProxyServer].data == Str(AddressText(p)) && GetEnableOf(j.reg);
      ReadAddress(j.reg, p);
    }
  }

  /** A stored `ip:port` with ProxyEnable 1 reads back as that endpoint for all three protocols, enabled. */
  lemma ReadAddress(reg: Registry, p: Endpoint)
    requires ':' !in p.ip && ':' !in p.port && ';' !in p.ip && ';' !in p.port
    requires '=' !in p.ip && '=' !in p.port
    requires ProxyServer in reg && reg[ProxyServer].data == Str(AddressText(p)) && GetEnableOf(reg)
    ensures GetProxyOf(reg) == Ok(ProxyInfo(true, p, p, p))
  {
    ExtractAddress(p);
  }

  /**
   * After a `del_proxy` that completes: `get_enable` is false, `get_proxy` raises ValueError
   * (the empty ProxyServer is not an address, and only a missing value gives the default), and
   * the bypass list is `["<local>"]`.
   */
  lemma ResetReadsBack(reg: Registry)
    ensures Reset(reg).failure.None? ==> !GetEnableOf(Reset(reg).reg)
    ensures Reset(reg).failure.None? ==> GetProxyOf(Reset(reg).reg) == Err(ValueError)
    ensures Reset(reg).failure.None? ==> GetBypassOf(Reset(reg).reg) == Ok(["<local>"])
  {
    ExtractEmpty();
    assert ';' !in "<local>";
    SplitSingle("<local>");
    ResetSteps(reg);
    NamesDistinct();
  }

  /** Writing any other value leaves `get_enable` as it was. */
  lemma StoredKeepsEnable(reg: Registry, name: string, data: Data)
    requires name != ProxyEnable
    ensures Stored(reg, name, data).Ok? ==> GetEnableOf(Stored(reg, name, data).value) == GetEnableOf(reg)
  {
  }

  /**
   * `del_proxy` is idempotent: a second call leaves the key as the first left it and ends the
   * same way, whether or not the first completed.
   */
  lemma ResetIdempotent(reg: Registry)
    ensures Reset(Reset(reg).reg).reg == Reset(reg).reg
    ensures Reset(Reset(reg).reg).failure == Reset(reg).failure
  {
    var once := Reset(reg).reg;
    ResetSteps(reg);
    ResetSteps(once);
    NamesDistinct();
    var e := Stored(reg, ProxyEnable, EnableData(false));
    if e.Ok? {
      var s := Stored(e.value, ProxyServer, Str(""));
      StoredTwice(reg, ProxyEnable, EnableData(false), EnableData(false));
      if s.Ok? {
        var o := Stored(s.value, ProxyOverride, Str("<local>"));
        StoredSame(s.value, ProxyEnable, EnableData(false));
        StoredTwice(e.value, ProxyServer, Str(""), Str(""));
        if o.Ok? {
          StoredSame(o.value, ProxyEnable, EnableData(false));
          StoredSame(o.value, ProxyServer, Str(""));
          StoredTwice(s.value, ProxyOverride, Str("<local>"), Str("<local>"));
        } else {
          assert once == s.value;
        }
      } else {
        assert once == e.value;
      }
    }
  }

  /** The key a completed `del_proxy` leaves, written out. */
  lemma ResetMap(reg: Registry)
    requires Reset(reg).failure.None?
    ensures Reset(reg).reg == reg[ProxyEnable := Value(EnableData(false), KindOf(reg, ProxyEnable))]
                                 [ProxyServer := Value(Str(""), KindOf(reg, ProxyServer))]
                                 [ProxyOverride := Value(Str("<local>"), KindOf(reg, ProxyOverride))]
  {
    ResetSteps(reg);
    NamesDistinct();
  }

  /** Two keys that differ only in the three proxy values are reset to the same key. */
  lemma SameAfterReset(a: Registry, b: Registry)
    requires forall k :: k != ProxyEnable && k != ProxyServer && k != ProxyOverride ==> (k in a <==> k in b)
    requires forall k :: k in a && k != ProxyEnable && k != ProxyServer && k != ProxyOverride ==> a[k] == b[k]
    requires KindOf(a, ProxyEnable) == KindOf(b, ProxyEnable)
    requires KindOf(a, ProxyServer) == KindOf(b, ProxyServer)
    requires KindOf(a, ProxyOverride) == KindOf(b, ProxyOverride)
    ensures a[ProxyEnable := Value(EnableData(false), KindOf(a, ProxyEnable))]
             [ProxyServer := Value(Str(""), KindOf(a, ProxyServer))]
             [ProxyOverride := Value(Str("<local>"), KindOf(a, ProxyOverride))] ==
            b[ProxyEnable := Value(EnableData(false), KindOf(b, ProxyEnable))]
             [ProxyServer := Value(Str(""), KindOf(b, ProxyServer))]
             [ProxyOverride := Value(Str("<local>"), KindOf(b, ProxyOverride))]
  {
  }

  /**
   * `del_proxy` after a `join` fails exactly when `del_proxy` alone fails, and when it
   * completes it leaves exactly what `del_proxy` alone leaves.
   */
  lemma ResetUndoesJoin(reg: Registry, ipAddress: string, port: nat)
    ensures Reset(Joined(reg, ipAddress, port).reg).failure == Reset(reg).failure
    ensures Reset(reg).failure.None? ==> Reset(Joined(reg, ipAddress, port).reg) == Reset(reg)
  {
    var joined := Joined(reg, ipAddress, port).reg;
    var ws := JoinWrites(ipAddress, port);
    StoreTwo(reg, ws[0], ws[1]);
    JoinedOkIff(reg, ipAddress, port);
    ResetOkIff(reg);
    ResetOkIff(joined);
    NamesDistinct();
    var first := Stored(reg, ProxyServer, ws[0].data);
    if first.Ok? {
      StoredKeepsTakes(reg, ProxyServer, ws[0].data, ProxyEnable);
      StoredKeepsTakes(reg, ProxyServer, ws[0].data, ProxyOverride);
      var second := Stored(first.value, ProxyEnable, ws[1].data);
      if second.Ok? {
        StoredKeepsTakes(first.value, ProxyEnable, ws[1].data, ProxyServer);
        StoredKeepsTakes(first.value, ProxyEnable, ws[1].data, ProxyOverride);
        if Reset(reg).failure.None? {
          ResetMap(reg);
          ResetMap(joined);
          assert KindOf(joined, ProxyServer) == KindOf(reg, ProxyServer);
          assert KindOf(joined, ProxyOverride) == KindOf(reg, ProxyOverride);
          assert KindOf(joined, ProxyEnable) == KindOf(reg, ProxyEnable);
          SameAfterReset(reg, joined);
        }
      }
    }
  }

  /**
   * Writes to two different values commute: in either order they fail together, and when
   * they succeed they leave the same key.
   */
  lemma StoredCommute(reg: Registry, a: string, b: string, x: Data, y: Data)
    requires a != b
    ensures StoreAll(reg, [Write(a, x), Write(b, y)]).failure.None? <==> StoreAll(reg, [Write(b, y), Write(a, x)]).failure.None?
    ensures StoreAll(reg, [Write(a, x), Write(b, y)]).failure.None? ==>
              StoreAll(reg, [Write(a, x), Write(b, y)]).reg == StoreAll(reg, [Write(b, y), Write(a, x)]).reg
  {
    StoreTwo(reg, Write(a, x), Write(b, y));
    StoreTwo(reg, Write(b, y), Write(a, x));
    if Stored(reg, a, x).Ok? {
      StoredKeepsTakes(reg, a, x, b);
    }
    if Stored(reg, b, y).Ok? {
      StoredKeepsTakes(reg, b, y, a);
    }
  }
}
