/**
 * The Windows backend of uniproxy (`WinProxy`): the Internet Settings registry key, plus the
 * user environment that `setx` writes so that console programs see the proxy too. The registry
 * key is a map field, `setx` assignments update a map of variables, and every `set_key` call
 * that succeeds is recorded in `writes`, so that the order of registry writes can be stated.
 * `refresh` (InternetSetOptionW) changes neither and is not modelled.
 */
module UniWin {
  import opened Wrappers
  import opened Text
  import opened WinRegistry

  /** The six proxy variables `set_proxy_env_var` sets, in order. */
  const ProxyVars: seq<string> := ["http_proxy", "HTTP_PROXY", "https_proxy", "HTTPS_PROXY", "ftp_proxy", "FTP_PROXY"]

  /** The two bypass variables. */
  const BypassVars: seq<string> := ["no_proxy", "NO_PROXY"]

  /** `f"{scheme}://{ip_address}:{port}/"` */
  function ProxyUrl(scheme: string, ipAddress: string, port: nat): string {
    scheme + "://" + ipAddress + ":" + NatToString(port) + "/"
  }

  /**
   * The variables `set_proxy_env_var` assigns: http and https both get the `http://` URL, ftp
   * the `ftp://` URL, each in lower and upper case.
   */
  function ProxyEnv(ipAddress: string, port: nat): (r: map<string, string>)
    ensures r.Keys == set v | v in ProxyVars
    ensures forall v :: v in r && v !in ["ftp_proxy", "FTP_PROXY"] ==> r[v] == ProxyUrl("http", ipAddress, port)
    ensures r["ftp_proxy"] == r["FTP_PROXY"] == ProxyUrl("ftp", ipAddress, port)
  {
    var http, ftp := ProxyUrl("http", ipAddress, port), ProxyUrl("ftp", ipAddress, port);
    map["http_proxy" := http, "HTTP_PROXY" := http, "https_proxy" := http, "HTTPS_PROXY" := http,
        "ftp_proxy" := ftp, "FTP_PROXY" := ftp]
  }

  /** `setx VAR ""` for each of `names`. */
  function Blank(names: seq<string>): (r: map<string, string>)
    ensures r.Keys == set v | v in names
    ensures forall v :: v in r ==> r[v] == ""
  {
    map v | v in names :: ""
  }

  /** `'"' + ",".join(domains) + '"'`, the value of both bypass variables. */
  function BypassValue(domains: seq<string>): string {
    "\"" + Join(domains, ",") + "\""
  }

  /**
   * The bypass variables as `set_bypass_domains_env_var` leaves them: the quoted list read from
   * the registry, or blank when reading it raises (they were cleared first).
   */
  function BypassEnvOf(reg: Registry): (r: map<string, string>)
    ensures r.Keys == set v | v in BypassVars
    ensures GetBypassOf(reg).Ok? ==> r["no_proxy"] == r["NO_PROXY"] == BypassValue(GetBypassOf(reg).value)
    ensures GetBypassOf(reg).Err? ==> r["no_proxy"] == r["NO_PROXY"] == ""
  {
    match GetBypassOf(reg)
    case Ok(domains) => map["no_proxy" := BypassValue(domains), "NO_PROXY" := BypassValue(domains)]
    case Err(_) => Blank(BypassVars)
  }

  /** Overriding with a map whose keys cover an earlier override erases the earlier one. */
  lemma OverrideCovered(env: map<string, string>, a: map<string, string>, b: map<string, string>)
    requires a.Keys <= b.Keys
    ensures (env + a) + b == env + b
  {
  }

  /** Unsetting the proxy variables erases every trace of setting them. */
  lemma UnsetAfterSet(env: map<string, string>, ipAddress: string, port: nat)
    ensures (env + ProxyEnv(ipAddress, port)) + Blank(ProxyVars) == env + Blank(ProxyVars)
  {
    OverrideCovered(env, ProxyEnv(ipAddress, port), Blank(ProxyVars));
  }

  /** The proxy and bypass variables are disjoint: clearing the proxy variables keeps no_proxy and NO_PROXY. */
  lemma UnsetProxyKeepsBypass(env: map<string, string>)
    ensures forall v :: v in BypassVars ==> (v in env + Blank(ProxyVars) <==> v in env)
    ensures forall v :: v in BypassVars && v in env ==> (env + Blank(ProxyVars))[v] == env[v]
  {
    forall v | v in BypassVars
      ensures v !in Blank(ProxyVars)
    {
      assert v == "no_proxy" || v == "NO_PROXY";
      assert |v| == 8;
      assert forall w :: w in ProxyVars ==> |w| != 8;
    }
  }

  class WinProxy {
    const ipAddress: string
    const port: nat
    /** The opened Internet Settings key. */
    var reg: Registry
    /** The values `set_key` has written, oldest first. */
    var writes: seq<string>
    /** The user environment that `setx` writes. */
    var env: map<string, string>

    constructor(ipAddress: string, port: nat, reg: Registry, env: map<string, string>)
      ensures this.ipAddress == ipAddress && this.port == port
      ensures this.reg == reg && this.env == env && writes == []
    {
      this.ipAddress := ipAddress;
      this.port := port;
      this.reg := reg;
      this.writes := [];
      this.env := env;
    }

    /**
     * `set_key`: the value is stored under its existing type, or as REG_SZ; data that does
     * not fit that type makes `SetValueEx` raise ValueError, and nothing is written.
     */
    method SetKey(name: string, data: Data) returns (r: Result<(), Failure>)
      modifies this
      ensures Stored(old(reg), name, data).Ok? ==>
                r.Ok? && reg == Stored(old(reg), name, data).value && writes == old(writes) + [name]
      ensures Stored(old(reg), name, data).Err? ==> r == Err(ValueError) && reg == old(reg) && writes == old(writes)
      ensures env == old(env)
    {
      var kind := if name in reg then reg[name].kind else RegSz;
      if !Fits(data, kind) {
        return Err(ValueError);
      }
      reg := reg[name := Value(data, kind)];
      writes := writes + [name];
      r := Ok(());
    }

    /** `unset_proxy_env_var`: the six proxy variables are set to "". */
    method UnsetProxyEnvVar()
      modifies this
      ensures env == old(env) + Blank(ProxyVars)
      ensures reg == old(reg) && writes == old(writes)
    {
      env := env + Blank(ProxyVars);
    }

    /** `set_proxy_env_var`: the proxy variables are cleared, then set to the proxy URLs. */
    method SetProxyEnvVar()
      modifies this
      ensures env == old(env) + ProxyEnv(ipAddress, port)
      ensures reg == old(reg) && writes == old(writes)
    {
      UnsetProxyEnvVar();
      env := env + ProxyEnv(ipAddress, port);
      OverrideCovered(old(env), Blank(ProxyVars), ProxyEnv(ipAddress, port));
    }

    /** `unset_bypass_domains_env_var`: no_proxy and NO_PROXY are set to "". */
    method UnsetBypassDomainsEnvVar()
      modifies this
      ensures env == old(env) + Blank(BypassVars)
      ensures reg == old(reg) && writes == old(writes)
    {
      env := env + Blank(BypassVars);
    }

    /**
     * `set_bypass_domains_env_var`: the bypass variables are cleared, then both get the quoted,
     * ','-joined `get_bypass_domains()`; when that read raises, the error propagates.
     */
    method SetBypassDomainsEnvVar() returns (r: Result<(), Failure>)
      modifies this
      ensures env == old(env) + BypassEnvOf(reg)
      ensures r.Ok? <==> GetBypassOf(reg).Ok?
      ensures r.Err? ==> r.error == GetBypassOf(reg).error
      ensures reg == old(reg) && writes == old(writes)
    {
      UnsetBypassDomainsEnvVar();
      var domains := GetBypassOf(reg);
      if domains.Err? {
        return Err(domains.error);
      }
      var value := BypassValue(domains.value);
      env := env[BypassVars[0] := value];
      env := env[BypassVars[1] := value];
      assert env == old(env) + Blank(BypassVars) + BypassEnvOf(reg);
      OverrideCovered(old(env), Blank(BypassVars), BypassEnvOf(reg));
      r := Ok(());
    }

    /**
     * `set_proxy`: ProxyServer becomes `ip:port`; when the proxy is enabled the proxy
     * variables follow. A ProxyServer of a number type refuses the string, and the ValueError
     * propagates (only IndexError is caught).
     */
    method SetProxy() returns (r: Result<(), Failure>)
      modifies this
      ensures Stored(old(reg), ProxyServer, Str(ProxyAddress(ipAddress, port))).Err? ==>
                r == Err(ValueError) && reg == old(reg) && writes == old(writes) && env == old(env)
      ensures Stored(old(reg), ProxyServer, Str(ProxyAddress(ipAddress, port))).Ok? ==>
                r.Ok? && reg == Stored(old(reg), ProxyServer, Str(ProxyAddress(ipAddress, port))).value &&
                writes == old(writes) + [ProxyServer] &&
                env == if GetEnableOf(old(reg)) then old(env) + ProxyEnv(ipAddress, port) else old(env)
    {
      r := SetKey(ProxyServer, Str(ProxyAddress(ipAddress, port)));
      if r.Err? {
        return;
      }
      StoredKeepsEnable(old(reg), ProxyServer, Str(ProxyAddress(ipAddress, port)));
      if GetEnableOf(reg) {
        SetProxyEnvVar();
      }
    }

    /**
     * `set_enable`: ProxyEnable becomes 1 or 0; enabling sets the proxy and bypass variables,
     * disabling clears them. Only a ProxyEnable of a number type takes the `int`: on a key
     * without one the call raises ValueError before any variable changes.
     */
    method SetEnable(isEnable: bool) returns (r: Result<(), Failure>)
      modifies this
      ensures Stored(old(reg), ProxyEnable, EnableData(isEnable)).Err? ==>
                r == Err(ValueError) && reg == old(reg) && writes == old(writes) && env == old(env)
      ensures ProxyEnable !in old(reg) ==> r == Err(ValueError)
      ensures Stored(old(reg), ProxyEnable, EnableData(isEnable)).Ok? ==>
                reg == Stored(old(reg), ProxyEnable, EnableData(isEnable)).value && writes == old(writes) + [ProxyEnable]
      ensures Stored(old(reg), ProxyEnable, EnableData(isEnable)).Ok? && isEnable ==>
                env == old(env) + ProxyEnv(ipAddress, port) + BypassEnvOf(reg) && (r.Ok? <==> GetBypassOf(reg).Ok?)
      ensures Stored(old(reg), ProxyEnable, EnableData(isEnable)).Ok? && !isEnable ==>
                r.Ok? && env == old(env) + Blank(ProxyVars) + Blank(BypassVars)
    {
      r := SetKey(ProxyEnable, EnableData(isEnable));
      EnableReadBack(old(reg), isEnable);
      if r.Err? {
        return;
      }
      if isEnable {
        SetProxyEnvVar();
        r := SetBypassDomainsEnvVar();
      } else {
        UnsetProxyEnvVar();
        UnsetBypassDomainsEnvVar();
      }
    }

    /**
     * `set_bypass_domains`: ProxyOverride becomes the ';'-joined list; when the proxy is
     * enabled the bypass variables follow. A ProxyOverride of a number type raises ValueError.
     */
    method SetBypassDomains(domains: seq<string>) returns (r: Result<(), Failure>)
      modifies this
      ensures Stored(old(reg), ProxyOverride, Str(BypassText(domains))).Err? ==>
                r == Err(ValueError) && reg == old(reg) && writes == old(writes) && env == old(env)
      ensures Stored(old(reg), ProxyOverride, Str(BypassText(domains))).Ok? ==>
                reg == Stored(old(reg), ProxyOverride, Str(BypassText(domains))).value &&
                writes == old(writes) + [ProxyOverride] && r.Ok? &&
                env == if GetEnableOf(reg) then old(env) + BypassEnvOf(reg) else old(env)
    {
      r := SetKey(ProxyOverride, Str(BypassText(domains)));
      if r.Err? {
        return;
      }
      if GetEnableOf(reg) {
        r := SetBypassDomainsEnvVar();
        assert GetBypassOf(reg).Ok?;
      }
    }

    /**
     * `del_proxy`: `set_enable(False)` clears the variables, then ProxyServer becomes "" and
     * ProxyOverride "<local>". The writes stop at the first that raises, and the ValueError
     * propagates, since only FileNotFoundError is caught.
     */
    method DelProxy() returns (r: Result<(), Failure>)
      modifies this
      ensures reg == Reset(old(reg)).reg && writes == old(writes) + Reset(old(reg)).written
      ensures r.Ok? <==> Reset(old(reg)).failure.None?
      ensures r.Err? ==> r.error == ValueError
      ensures Stored(old(reg), ProxyEnable, EnableData(false)).Ok? ==>
                env == old(env) + Blank(ProxyVars) + Blank(BypassVars)
      ensures Stored(old(reg), ProxyEnable, EnableData(false)).Err? ==> env == old(env)
    {
      ResetSteps(old(reg));
      r := SetEnable(false);
      if r.Err? {
        return;
      }
      r := SetKey(ProxyServer, Str(""));
      if r.Err? {
        return;
      }
      r := SetKey(ProxyOverride, Str("<local>"));
    }

    /**
     * `join`: `set_proxy`, then `set_enable(True)`: ProxyServer is written before ProxyEnable
     * becomes 1. The proxy variables end up set when both writes succeed; a write that raises
     * stops the call with the variables as the completed steps left them.
     */
    method JoinProxy() returns (r: Result<(), Failure>)
      modifies this
      ensures reg == Joined(old(reg), ipAddress, port).reg
      ensures writes == old(writes) + Joined(old(reg), ipAddress, port).written
      ensures Joined(old(reg), ipAddress, port).failure.None? ==>
                env == old(env) + ProxyEnv(ipAddress, port) + BypassEnvOf(reg) &&
                (r.Ok? <==> GetBypassOf(old(reg)).Ok?)
      ensures Joined(old(reg), ipAddress, port).failure.Some? ==>
                r == Err(ValueError) &&
                env == if Joined(old(reg), ipAddress, port).written == [ProxyServer] && GetEnableOf(old(reg))
                       then old(env) + ProxyEnv(ipAddress, port) else old(env)
    {
      var ws := JoinWrites(ipAddress, port);
      StoreTwo(old(reg), ws[0], ws[1]);
      r := SetProxy();
      if r.Err? {
        return;
      }
      r := SetEnable(true);
      OverrideCovered(old(env), ProxyEnv(ipAddress, port), ProxyEnv(ipAddress, port));
      BypassUnchangedByJoin(old(reg), ipAddress, port);
    }
  }

  /** `join` does not write ProxyOverride, so the bypass list reads the same after it. */
  lemma BypassUnchangedByJoin(reg: Registry, ipAddress: string, port: nat)
    ensures GetBypassOf(Joined(reg, ipAddress, port).reg) == GetBypassOf(reg)
  {
    var ws := JoinWrites(ipAddress, port);
    StoreTwo(reg, ws[0], ws[1]);
    NamesDistinct();
  }
}
