/**
 * The Windows backend of proxverter (`WinProxy`): the same Internet Settings key as uniproxy's,
 * written through the same `set_key`, but with no environment variables. `set_proxy` writes only
 * ProxyServer and `set_enable` only ProxyEnable. The key is a map field and every `set_key`
 * call that succeeds is recorded in `writes`; `refresh` is not modelled.
 */
module ProxWin {
  import opened Wrappers
  import opened Text
  import opened WinRegistry

  class WinProxy {
    const ipAddress: string
    const port: nat
    /** The opened Internet Settings key. */
    var reg: Registry
    /** The values `set_key` has written, oldest first. */
    var writes: seq<string>

    constructor(ipAddress: string, port: nat, reg: Registry)
      ensures this.ipAddress == ipAddress && this.port == port
      ensures this.reg == reg && writes == []
    {
      this.ipAddress := ipAddress;
      this.port := port;
      this.reg := reg;
      this.writes := [];
    }

    /**
     * `set_key`: the value is stored under its existing type, or as REG_SZ; data that does
     * not fit that type makes `SetValueEx` raise ValueError, and nothing is written.
     */
    method SetKey(name: string, data: Data) returns (r: Result<(), Failure>)
      modifies this
      ensures Stored(old(reg), name, data).Ok? ==>
                r.Ok? && reg == Stored(old(reg), name, data).value && writes == old(writes) + [name]
      ensures Stored(old(reg), name, data).Err? ==> r == Err(ValueError) && reg == old(reg) && writes == old(writes)
    {
      var kind := if name in reg then reg[name].kind else RegSz;
      if !Fits(data, kind) {
        return Err(ValueError);
      }
      reg := reg[name := Value(data, kind)];
      writes := writes + [name];
      r := Ok(());
    }

    /**
     * `set_proxy`: only ProxyServer is written, as `ip:port`, and whether the proxy is enabled
     * does not change; a ProxyServer of a number type raises ValueError (only IndexError is
     * caught).
     */
    method SetProxy() returns (r: Result<(), Failure>)
      modifies this
      ensures Stored(old(reg), ProxyServer, Str(ProxyAddress(ipAddress, port))).Err? ==>
                r == Err(ValueError) && reg == old(reg) && writes == old(writes)
      ensures Stored(old(reg), ProxyServer, Str(ProxyAddress(ipAddress, port))).Ok? ==>
                r.Ok? && reg == Stored(old(reg), ProxyServer, Str(ProxyAddress(ipAddress, port))).value &&
                writes == old(writes) + [ProxyServer]
      ensures GetEnableOf(reg) == GetEnableOf(old(reg))
    {
      r := SetKey(ProxyServer, Str(ProxyAddress(ipAddress, port)));
      StoredKeepsEnable(old(reg), ProxyServer, Str(ProxyAddress(ipAddress, port)));
    }

    /**
     * `set_enable`: only ProxyEnable is written, as 1 or 0, and `get_enable` reads it back;
     * a ProxyEnable that is missing or of a string type refuses the `int` with ValueError.
     */
    method SetEnable(isEnable: bool) returns (r: Result<(), Failure>)
      modifies this
      ensures Stored(old(reg), ProxyEnable, EnableData(isEnable)).Err? ==>
                r == Err(ValueError) && reg == old(reg) && writes == old(writes)
      ensures Stored(old(reg), ProxyEnable, EnableData(isEnable)).Ok? ==>
                r.Ok? && reg == Stored(old(reg), ProxyEnable, EnableData(isEnable)).value &&
                writes == old(writes) + [ProxyEnable]
      ensures r.Ok? <==> TakesNumber(old(reg), ProxyEnable)
      ensures r.Ok? ==> GetEnableOf(reg) == isEnable
    {
      r := SetKey(ProxyEnable, EnableData(isEnable));
      EnableReadBack(old(reg), isEnable);
    }

    /** `set_bypass_domains`: ProxyOverride becomes the ';'-joined list, or a number-typed one raises ValueError. */
    method SetBypassDomains(domains: seq<string>) returns (r: Result<(), Failure>)
      modifies this
      ensures Stored(old(reg), ProxyOverride, Str(BypassText(domains))).Err? ==>
                r == Err(ValueError) && reg == old(reg) && writes == old(writes)
      ensures Stored(old(reg), ProxyOverride, Str(BypassText(domains))).Ok? ==>
                r.Ok? && reg == Stored(old(reg), ProxyOverride, Str(BypassText(domains))).value &&
                writes == old(writes) + [ProxyOverride]
    {
      r := SetKey(ProxyOverride, Str(BypassText(domains)));
    }

    /**
     * `del_proxy`: ProxyEnable 0, ProxyServer "", ProxyOverride "<local>", in that order; the
     * writes stop at the first that raises, and the ValueError propagates, since only
     * FileNotFoundError is caught.
     */
    method DelProxy() returns (r: Result<(), Failure>)
      modifies this
      ensures reg == Reset(old(reg)).reg && writes == old(writes) + Reset(old(reg)).written
      ensures r.Ok? <==> Reset(old(reg)).failure.None?
      ensures r.Err? ==> r.error == ValueError
    {
      ResetSteps(old(reg));
      r := SetKey(ProxyEnable, Num(0));
      if r.Err? {
        return;
      }
      r := SetKey(ProxyServer, Str(""));
      if r.Err? {
        return;
      }
      r := SetKey(ProxyOverride, Str("<local>"));
    }

    /**
     * `join`: `set_proxy`, then `set_enable(True)`: ProxyServer is written before ProxyEnable
     * becomes 1, and a write that raises stops the call.
     */
    method JoinProxy() returns (r: Result<(), Failure>)
      modifies this
      ensures reg == Joined(old(reg), ipAddress, port).reg
      ensures writes == old(writes) + Joined(old(reg), ipAddress, port).written
      ensures r.Ok? <==> Joined(old(reg), ipAddress, port).failure.None?
      ensures r.Err? ==> r.error == ValueError
    {
      var ws := JoinWrites(ipAddress, port);
      StoreTwo(old(reg), ws[0], ws[1]);
      r := SetProxy();
      if r.Err? {
        return;
      }
      r := SetEnable(true);
    }
  }
}
