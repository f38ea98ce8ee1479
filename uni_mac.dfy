/**
 * The macOS backend of uniproxy (`MacProxy`): everything it knows comes from the text printed by
 * `networksetup` and `route`, and everything it changes is `networksetup`'s per-service proxy
 * configuration. The outputs of the commands that locate the default service are parameters;
 * the per-service web proxy configuration is a map field of a class, and `-getwebproxy` prints
 * it in `networksetup`'s format.
 */
module UniMac {
  import opened Wrappers
  import opened Text
  import Lines

  /** The exceptions: `split(':', 1)[1]` on a line without ':', or the backend's RuntimeError. */
  datatype MacFailure = IndexError | RuntimeError

  // ---------------------------------------------------------------------------------------
  // parse

  /** `line.split(':', 1)[1].strip()`: the stripped text after the first ':'. */
  function AfterColon(line: string): (r: Result<string, MacFailure>)
    ensures r.Err? <==> ':' !in line
    ensures r.Ok? ==> Trimmed(r.value)
  {
    match IndexOf(line, ':')
    case None => Err(IndexError)
    case Some(i) => StripIsTrimmed(line[i + 1..]); Ok(Strip(line[i + 1..]))
  }

  /** A line that starts, after stripping, with a key holding ':' holds ':' itself. */
  lemma StartsColon(line: string, key: string)
    requires key <= Strip(line)
    ensures ':' in key ==> ':' in line
  {
    if ':' in key {
      var k :| 0 <= k < |key| && key[k] == ':';
      assert Strip(line)[k] == ':';
      StripWithin(line, ':');
    }
  }

  /** The value a qualifying line gives: its text after the first ':', stripped. */
  function ValueOf(line: string): (r: Result<Option<string>, MacFailure>)
    ensures r.Err? <==> ':' !in line
    ensures r.Ok? ==> r.value.Some? && Trimmed(r.value.value)
  {
    match AfterColon(line)
    case Ok(v) => Ok(Some(v))
    case Err(e) => Err(e)
  }

  /**
   * `parse` over the output's lines: the value of the first line whose stripped text starts
   * with `key`, None when no line does. It raises only when that line has no ':', which cannot
   * happen for a key that holds one.
   */
  function ParseLines(lines: seq<string>, key: string): (r: Result<Option<string>, MacFailure>)
    ensures r.Ok? && r.value.Some? ==> Trimmed(r.value.value)
    ensures ':' in key ==> r.Ok?
  {
    if lines == [] then Ok(None)
    else if key <= Strip(lines[0]) then StartsColon(lines[0], key); ValueOf(lines[0])
    else ParseLines(lines[1..], key)
  }

  /**
   * `parse(output, key)`: a value it finds is stripped, and it never raises for a key that
   * holds ':' itself.
   */
  function ParseValue(output: string, key: string): (r: Result<Option<string>, MacFailure>)
    ensures r.Ok? && r.value.Some? ==> Trimmed(r.value.value)
    ensures ':' in key ==> r.Ok?
  {
    ParseLines(Split(output, '\n'), key)
  }

  /** The first line that starts with the key is the one whose value `parse` returns. */
  lemma {:induction false} ParseFindsFirst(lines: seq<string>, key: string, i: nat)
    requires i < |lines| && key <= Strip(lines[i])
    requires forall j :: 0 <= j < i ==> !(key <= Strip(lines[j]))
    ensures ParseLines(lines, key) == ValueOf(lines[i])
  {
    if i > 0 {
      ParseFindsFirst(lines[1..], key, i - 1);
    }
  }

  /** `parse` returns None exactly when no stripped line starts with the key. */
  lemma {:induction false} ParseNone(lines: seq<string>, key: string)
    ensures ParseLines(lines, key) == Ok(None) <==> forall j :: 0 <= j < |lines| ==> !(key <= Strip(lines[j]))
  {
    if lines != [] {
      ParseNone(lines[1..], key);
      assert forall j :: 1 <= j < |lines| ==> lines[1..][j - 1] == lines[j];
    }
  }

  /** `parse` as the source writes it: a scan of the lines with an early return. */
  method Parse(output: string, key: string) returns (r: Result<Option<string>, MacFailure>)
    ensures r == ParseValue(output, key)
  {
    var lines := Split(output, '\n');
    ghost var spec := ParseLines(lines, key);
    var i := 0;
    while i < |lines|
      invariant i <= |lines|
      invariant ParseLines(lines[i..], key) == spec
    {
      if key <= Strip(lines[i]) {
        assert lines[i..][0] == lines[i];
        return ValueOf(lines[i]);
      }
      assert lines[i..][1..] == lines[i + 1..];
      i := i + 1;
    }
    assert lines[i..] == [];
    return Ok(None);
  }

  /** A first line that qualifies gives the answer, whatever follows it. */
  lemma ParseFirstLine(line: string, rest: string, key: string)
    requires '\n' !in line && key <= Strip(line)
    ensures ParseValue(line + "\n" + rest, key) == ValueOf(line)
  {
    SplitAt(line, '\n', rest);
    var lines := [line] + Split(rest, '\n');
    assert lines[0] == line;
  }

  /** A first line that does not qualify is skipped. */
  lemma ParseSkipLine(line: string, rest: string, key: string)
    requires '\n' !in line && !(key <= Strip(line))
    ensures ParseValue(line + "\n" + rest, key) == ParseValue(rest, key)
  {
    SplitAt(line, '\n', rest);
    var lines := [line] + Split(rest, '\n');
    assert lines[0] == line && lines[1..] == Split(rest, '\n');
  }

  /** The value of a `key value` line, when the key's only ':' is its last character, is the stripped value. */
  lemma AfterKey(key: string, value: string)
    requires key != "" && key[|key| - 1] == ':' && ':' !in key[..|key| - 1]
    ensures ValueOf(key + value) == Ok(Some(Strip(value)))
  {
    var line := key + value;
    assert line == key[..|key| - 1] + [':'] + value;
    IndexOfAt(key[..|key| - 1], ':', value);
    assert line[|key|..] == value;
  }

  // ---------------------------------------------------------------------------------------
  // get_network_services

  /** The note `networksetup -listallnetworkservices` prints above the list. */
  const AsteriskNote := "An asterisk"

  /** A line that `get_network_services` keeps: not blank, and not the note. */
  predicate Listed(line: string) {
    Strip(line) != "" && !Contains(line, AsteriskNote)
  }

  /** The comprehension of `get_network_services` over the lines: kept lines, stripped, in order. */
  function ServicesOf(lines: seq<string>): (r: seq<string>)
    ensures |r| <= |lines|
    ensures forall i :: 0 <= i < |r| ==> r[i] != "" && Trimmed(r[i])
  {
    if lines == [] then []
    else
      StripIsTrimmed(lines[0]);
      (if Listed(lines[0]) then [Strip(lines[0])] else []) + ServicesOf(lines[1..])
  }

  /**
   * `get_network_services`: the output split into lines, filtered and stripped; at most one
   * service per line, none of them blank or padded.
   */
  function NetworkServices(output: string): (r: seq<string>)
    ensures |r| <= |Split(output, '\n')|
    ensures forall i :: 0 <= i < |r| ==> r[i] != "" && Trimmed(r[i])
  {
    ServicesOf(Split(output, '\n'))
  }

  /** The services of two runs of lines are the services of each, in order. */
  lemma {:induction false} ServicesAppend(xs: seq<string>, ys: seq<string>)
    ensures ServicesOf(xs + ys) == ServicesOf(xs) + ServicesOf(ys)
  {
    if xs == [] {
      assert xs + ys == ys;
    } else {
      assert (xs + ys)[0] == xs[0] && (xs + ys)[1..] == xs[1..] + ys;
      ServicesAppend(xs[1..], ys);
    }
  }

  /**
   * A name is listed exactly when some kept line strips to it; disabled services, whose lines
   * start with '*', are kept like any other.
   */
  lemma {:induction false} ServicesMember(lines: seq<string>, name: string)
    ensures name in ServicesOf(lines) <==> exists i :: 0 <= i < |lines| && Listed(lines[i]) && Strip(lines[i]) == name
  {
    if lines != [] {
      ServicesMember(lines[1..], name);
      if exists i :: 0 <= i < |lines| && Listed(lines[i]) && Strip(lines[i]) == name {
        var i :| 0 <= i < |lines| && Listed(lines[i]) && Strip(lines[i]) == name;
        if i > 0 {
          assert lines[1..][i - 1] == lines[i];
        }
      }
      if exists i :: 0 <= i < |lines[1..]| && Listed(lines[1..][i]) && Strip(lines[1..][i]) == name {
        var i :| 0 <= i < |lines[1..]| && Listed(lines[1..][i]) && Strip(lines[1..][i]) == name;
        assert lines[i + 1] == lines[1..][i];
      }
    }
  }

  /** Lines that are already trimmed, not blank and not the note are all kept, unchanged and in order. */
  lemma {:induction false} ServicesKeepAll(lines: seq<string>)
    requires forall i :: 0 <= i < |lines| ==> Trimmed(lines[i]) && lines[i] != "" && !Contains(lines[i], AsteriskNote)
    ensures ServicesOf(lines) == lines
  {
    if lines != [] {
      StripTrimmed(lines[0]);
      ServicesKeepAll(lines[1..]);
    }
  }

  /** A line that is not listed contributes nothing. */
  lemma ServicesDropped(line: string)
    requires !Listed(line)
    ensures ServicesOf([line]) == []
  {
    assert [line][1..] == [];
  }

  /**
   * The listing `networksetup` prints, the note first and an empty last piece after the final
   * newline, gives exactly the service lines, disabled ones included.
   */
  lemma ServicesOfListing(note: string, services: seq<string>)
    requires Contains(note, AsteriskNote)
    requires forall i :: 0 <= i < |services| ==> Trimmed(services[i]) && services[i] != "" && !Contains(services[i], AsteriskNote)
    ensures ServicesOf([note] + services + [""]) == services
  {
    ServicesDropped(note);
    ServicesWithEmptyLast(services);
    ServicesAppend([note], services + [""]);
    Lines.Assoc([note], services, [""]);
  }

  /** The empty piece after the final newline adds nothing. */
  lemma ServicesWithEmptyLast(services: seq<string>)
    requires forall i :: 0 <= i < |services| ==> Trimmed(services[i]) && services[i] != "" && !Contains(services[i], AsteriskNote)
    ensures ServicesOf(services + [""]) == services
  {
    assert Strip("") == "";
    ServicesDropped("");
    ServicesKeepAll(services);
    ServicesAppend(services, [""]);
  }

  // ---------------------------------------------------------------------------------------
  // get_default_network_service_by_ns

  /** `[line for line in lines if line.strip()]` */
  function NonBlank(lines: seq<string>): (r: seq<string>)
    ensures |r| <= |lines|
    ensures forall i :: 0 <= i < |r| ==> Strip(r[i]) != ""
  {
    if lines == [] then []
    else (if Strip(lines[0]) != "" then [lines[0]] else []) + NonBlank(lines[1..])
  }

  /** The lines `get_default_network_service_by_ns` scans: the first one is dropped only when at least two remain. */
  function ScannedLines(output: string): (r: seq<string>)
    ensures forall i :: 0 <= i < |r| ==> Strip(r[i]) != ""
  {
    var lines := NonBlank(Split(Strip(output), '\n'));
    if |lines| > 1 then lines[1..] else lines
  }

  /** The first line that does not start with '*' once stripped, stripped; None when every one does. */
  function FirstEnabled(lines: seq<string>): (r: Option<string>)
    ensures r.Some? ==> Trimmed(r.value) && !("*" <= r.value)
    ensures (forall i :: 0 <= i < |lines| ==> Strip(lines[i]) != "") && r.Some? ==> r.value != ""
  {
    if lines == [] then None
    else if "*" <= Strip(lines[0]) then FirstEnabled(lines[1..])
    else StripIsTrimmed(lines[0]); Some(Strip(lines[0]))
  }

  /**
   * `get_default_network_service_by_ns`: the first enabled service, None when there is none;
   * a service it returns is a non-empty stripped name not marked '*'.
   */
  function DefaultByNs(output: string): (r: Option<string>)
    ensures r.Some? ==> r.value != "" && Trimmed(r.value) && !("*" <= r.value)
  {
    var service := FirstEnabled(ScannedLines(output));
    if service.Some? && service.value != "" then service else None
  }

  /** The first line not marked disabled is the one `FirstEnabled` returns. */
  lemma {:induction false} FirstEnabledIs(lines: seq<string>, i: nat)
    requires i < |lines| && !("*" <= Strip(lines[i]))
    requires forall j :: 0 <= j < i ==> "*" <= Strip(lines[j])
    ensures FirstEnabled(lines) == Some(Strip(lines[i]))
  {
    if i > 0 {
      FirstEnabledIs(lines[1..], i - 1);
    }
  }

  /** `FirstEnabled` finds nothing exactly when every line is marked disabled. */
  lemma {:induction false} FirstEnabledNone(lines: seq<string>)
    ensures FirstEnabled(lines).None? <==> forall j :: 0 <= j < |lines| ==> "*" <= Strip(lines[j])
  {
    if lines != [] {
      FirstEnabledNone(lines[1..]);
      assert forall j :: 1 <= j < |lines| ==> lines[1..][j - 1] == lines[j];
    }
  }

  /** Scanned lines are never blank, so the first enabled one is always a name, and it never starts with '*'. */
  lemma DefaultByNsSome(output: string)
    ensures DefaultByNs(output).None? <==> forall j :: 0 <= j < |ScannedLines(output)| ==> "*" <= Strip(ScannedLines(output)[j])
    ensures DefaultByNs(output).Some? ==> DefaultByNs(output).value != "" && DefaultByNs(output).value[0] != '*'
  {
    FirstEnabledNone(ScannedLines(output));
  }

  /** `get_default_network_service_by_ns` as the source writes it: `pop(0)`, then a scan with `break`. */
  method DefaultNetworkServiceByNs(output: string) returns (r: Option<string>)
    ensures r == DefaultByNs(output)
  {
    var lines := NonBlank(Split(Strip(output), '\n'));
    if |lines| > 1 {
      lines := lines[1..];
    }
    ghost var spec := FirstEnabled(lines);
    var service: Option<string> := None;
    var i := 0;
    while i < |lines|
      invariant i <= |lines|
      invariant FirstEnabled(lines[i..]) == spec
    {
      assert lines[i..][0] == lines[i];
      if !("*" <= Strip(lines[i])) {
        service := Some(Strip(lines[i]));
        break;
      }
      assert lines[i..][1..] == lines[i + 1..];
      i := i + 1;
    }
    if i == |lines| {
      assert lines[i..] == [];
    }
    r := if service.Some? && service.value != "" then service else None;
  }

  /** Lines none of which is blank are all kept. */
  lemma {:induction false} NonBlankKeepsAll(lines: seq<string>)
    requires forall i :: 0 <= i < |lines| ==> Strip(lines[i]) != ""
    ensures NonBlank(lines) == lines
  {
    if lines != [] {
      assert forall i :: 0 <= i < |lines| - 1 ==> lines[1..][i] == lines[i + 1];
      NonBlankKeepsAll(lines[1..]);
      assert [lines[0]] + lines[1..] == lines;
    }
  }

  lemma RegroupThree(note: string, off: string, on: string)
    ensures note + "\n" + off + "\n" + on == note + ['\n'] + (off + ['\n'] + on)
  {
    Lines.Assoc(note + "\n", off, "\n");
    Lines.Assoc(note + "\n", off + "\n", on);
  }

  /** The listing of two services after the note, with the final newline: the note is dropped. */
  lemma ScannedListing(note: string, off: string, on: string)
    requires Trimmed(note) && Trimmed(off) && Trimmed(on) && note != "" && off != "" && on != ""
    requires '\n' !in note && '\n' !in off && '\n' !in on
    ensures ScannedLines(note + "\n" + off + "\n" + on + "\n") == [off, on]
  {
    ListingLines(note, off, on);
    StripTrimmed(note);
    StripTrimmed(off);
    StripTrimmed(on);
    var lines := [note, off, on];
    NonBlankKeepsAll(lines);
    assert lines[1..] == [off, on];
  }

  lemma ListingLines(note: string, off: string, on: string)
    requires Trimmed(note) && Trimmed(on) && note != "" && on != ""
    requires '\n' !in note && '\n' !in off && '\n' !in on
    ensures Split(Strip(note + "\n" + off + "\n" + on + "\n"), '\n') == [note, off, on]
  {
    var body := note + "\n" + off + "\n" + on;
    assert body[0] == note[0] && body[|body| - 1] == on[|on| - 1];
    StripTrailingNewline(body);
    assert note + "\n" + off + "\n" + on + "\n" == body + "\n";
    RegroupThree(note, off, on);
    SplitThree(note, off, on, '\n');
  }

  /**
   * With the note first, a disabled service (marked '*') and then an enabled one, the enabled
   * one is the default: disabled services are skipped.
   */
  lemma DefaultByNsSkipsDisabled(note: string, off: string, on: string)
    requires Trimmed(note) && Trimmed(off) && Trimmed(on) && note != "" && on != ""
    requires '\n' !in note && '\n' !in off && '\n' !in on
    requires "*" <= off && !("*" <= on)
    ensures DefaultByNs(note + "\n" + off + "\n" + on + "\n") == Some(on)
  {
    ScannedListing(note, off, on);
    StripTrimmed(off);
    StripTrimmed(on);
    FirstEnabledIs([off, on], 1);
  }

  /** When the output is a single service line, no header is dropped and that line is the answer. */
  lemma DefaultByNsSingleLine(line: string)
    requires '\n' !in line && line != "" && Trimmed(line) && line[0] != '*'
    ensures DefaultByNs(line) == Some(line)
  {
    StripTrimmed(line);
    assert Split(line, '\n') == [line];
    assert NonBlank([line]) == [line] by {
      assert [line][1..] == [];
    }
    assert !("*" <= Strip(line));
  }

  // ---------------------------------------------------------------------------------------
  // get_default_network_device

  /** What `route` prints when the machine is not connected to any network. */
  const RouteFailure := "route: writing to routing socket:"

  const InterfaceKey := "interface:"

  /**
   * `get_default_network_device` on the output of `route -n get default`: None when `route`
   * reports no route; otherwise the value of the first `interface:` line, None when there is none.
   */
  function DefaultDevice(routeOutput: string): (r: Option<string>)
    ensures r.Some? ==> Trimmed(r.value)
  {
    var t := Strip(routeOutput);
    assert InterfaceKey[9] == ':';
    if Contains(t, RouteFailure) then None else ParseValue(t, InterfaceKey).value
  }

  /**
   * The device is None exactly when `route` reports no route or no stripped line starts with
   * `interface:`.
   */
  lemma DefaultDeviceNone(routeOutput: string)
    ensures DefaultDevice(routeOutput).None? <==>
      var t := Strip(routeOutput);
      Contains(t, RouteFailure) || forall j :: 0 <= j < |Split(t, '\n')| ==> !(InterfaceKey <= Strip(Split(t, '\n')[j]))
  {
    var t := Strip(routeOutput);
    ParseNone(Split(t, '\n'), InterfaceKey);
  }

  /** `get_default_network_device` as the source writes it: the failure test, then the scan of the lines. */
  method DefaultNetworkDevice(routeOutput: string) returns (r: Option<string>)
    ensures r == DefaultDevice(routeOutput)
  {
    var t := Strip(routeOutput);
    if Contains(t, RouteFailure) {
      return None;
    }
    var lines := Split(t, '\n');
    ghost var spec := ParseLines(lines, InterfaceKey);
    assert InterfaceKey[9] == ':';
    var i := 0;
    while i < |lines|
      invariant i <= |lines|
      invariant ParseLines(lines[i..], InterfaceKey) == spec
    {
      assert lines[i..][0] == lines[i];
      if InterfaceKey <= Strip(lines[i]) {
        StartsColon(lines[i], InterfaceKey);
        return ValueOf(lines[i]).value;
      }
      assert lines[i..][1..] == lines[i + 1..];
      i := i + 1;
    }
    assert lines[i..] == [];
    return None;
  }

  // ---------------------------------------------------------------------------------------
  // get_network_service_name_by_network_device

  const BlockSeparator := "Ethernet Address:"
  const HardwarePortKey := "Hardware Port:"
  const DeviceKey := "Device:"

  /** What one block of `networksetup -listallhardwareports` names. */
  datatype PortEntry = PortEntry(hardwarePort: Option<string>, device: Option<string>)

  /**
   * One line of a block: `line.strip()[15:].strip()` becomes the hardware port when the stripped
   * line starts with `Hardware Port:`, `line.strip()[8:].strip()` the device when it starts with
   * `Device:`.
   */
  function ScanLine(e: PortEntry, line: string): PortEntry {
    var s := Strip(line);
    var e' := if HardwarePortKey <= s then e.(hardwarePort := Some(Strip(Drop(s, 15)))) else e;
    if DeviceKey <= s then e'.(device := Some(Strip(Drop(s, 8)))) else e'
  }

  /** The lines of a block scanned in order; a later line overwrites what an earlier one set. */
  function ScanBlock(lines: seq<string>, e: PortEntry): PortEntry {
    if lines == [] then e else ScanBlock(lines[1..], ScanLine(e, lines[0]))
  }

  /** What a block names, both starting out as None. */
  function BlockEntry(block: string): PortEntry {
    ScanBlock(Split(block, '\n'), PortEntry(None, None))
  }

  /** The hardware port of the first block whose device is `deviceName`; None when no block's is. */
  function PortOf(blocks: seq<string>, deviceName: string): (r: Option<string>)
    ensures r.Some? ==> exists b :: b in blocks && BlockEntry(b).device == Some(deviceName) && BlockEntry(b).hardwarePort == r
  {
    if blocks == [] then None
    else if BlockEntry(blocks[0]).device == Some(deviceName) then BlockEntry(blocks[0]).hardwarePort
    else PortOf(blocks[1..], deviceName)
  }

  /**
   * `get_network_service_name_by_network_device`: None when `networksetup` failed; otherwise the
   * listing is split into blocks at `Ethernet Address:` and searched.
   */
  function ServiceNameByDevice(returnCode: int, listing: string, deviceName: string): (r: Option<string>)
    ensures r.Some? ==> returnCode == 0
    ensures r.Some? ==> exists b :: b in SplitOn(listing, BlockSeparator) && BlockEntry(b).device == Some(deviceName)
                                      && BlockEntry(b).hardwarePort == r
  {
    if returnCode != 0 then None else PortOf(SplitOn(listing, BlockSeparator), deviceName)
  }

  /** A later line acts on what the earlier ones left: the last `Device:` or `Hardware Port:` line wins. */
  lemma {:induction false} ScanBlockLast(lines: seq<string>, line: string, e: PortEntry)
    ensures ScanBlock(lines + [line], e) == ScanLine(ScanBlock(lines, e), line)
  {
    if lines == [] {
      assert [line][1..] == [];
      assert lines + [line] == [line];
    } else {
      assert (lines + [line])[1..] == lines[1..] + [line];
      ScanBlockLast(lines[1..], line, ScanLine(e, lines[0]));
    }
  }

  /** The first block whose device matches decides, even when it names no hardware port. */
  lemma {:induction false} PortOfFirst(blocks: seq<string>, deviceName: string, k: nat)
    requires k < |blocks| && BlockEntry(blocks[k]).device == Some(deviceName)
    requires forall j :: 0 <= j < k ==> BlockEntry(blocks[j]).device != Some(deviceName)
    ensures PortOf(blocks, deviceName) == BlockEntry(blocks[k]).hardwarePort
  {
    if k > 0 {
      assert blocks[1..][k - 1] == blocks[k];
      PortOfFirst(blocks[1..], deviceName, k - 1);
    }
  }

  /** No block names the device: the answer is None. */
  lemma {:induction false} PortOfMissing(blocks: seq<string>, deviceName: string)
    requires forall j :: 0 <= j < |blocks| ==> BlockEntry(blocks[j]).device != Some(deviceName)
    ensures PortOf(blocks, deviceName).None?
  {
    if blocks != [] {
      assert forall j :: 1 <= j < |blocks| ==> blocks[1..][j - 1] == blocks[j];
      PortOfMissing(blocks[1..], deviceName);
    }
  }

  /** A `Hardware Port: <port>` line followed by a `Device: <device>` line names both. */
  lemma ScanPortAndDevice(port: string, device: string)
    requires Trimmed(port) && Trimmed(device) && port != "" && device != ""
    ensures ScanBlock([HardwarePortKey + " " + port, DeviceKey + " " + device], PortEntry(None, None))
         == PortEntry(Some(port), Some(device))
  {
    var a, b := HardwarePortKey + " " + port, DeviceKey + " " + device;
    assert Trimmed(a) && Trimmed(b);
    StripTrimmed(a);
    StripTrimmed(b);
    assert Drop(a, 15) == port;
    assert Drop(b, 8) == device;
    StripTrimmed(port);
    StripTrimmed(device);
    assert ScanLine(PortEntry(None, None), a) == PortEntry(Some(port), None);
    assert ScanLine(PortEntry(Some(port), None), b) == PortEntry(Some(port), Some(device));
    assert !(DeviceKey <= a) && !(HardwarePortKey <= b);
    assert [a, b][1..] == [b];
    assert [b][1..] == [];
    assert ScanBlock([b], PortEntry(Some(port), None)) == PortEntry(Some(port), Some(device));
  }

  /** One line of a block scanned. */
  lemma ScanBlockStep(lines: seq<string>, i: nat, e: PortEntry)
    requires i < |lines|
    ensures ScanBlock(lines[i..], e) == ScanBlock(lines[i + 1..], ScanLine(e, lines[i]))
  {
    assert lines[i..][0] == lines[i] && lines[i..][1..] == lines[i + 1..];
  }

  /** One block searched: it decides when its device matches, and otherwise the rest decide. */
  lemma PortOfStep(blocks: seq<string>, k: nat, deviceName: string)
    requires k < |blocks|
    ensures PortOf(blocks[k..], deviceName) ==
              if BlockEntry(blocks[k]).device == Some(deviceName) then BlockEntry(blocks[k]).hardwarePort
              else PortOf(blocks[k + 1..], deviceName)
  {
    assert blocks[k..][0] == blocks[k] && blocks[k..][1..] == blocks[k + 1..];
  }

  /** `get_network_service_name_by_network_device` as the source writes it: a scan of each block's lines. */
  method NetworkServiceNameByNetworkDevice(returnCode: int, listing: string, deviceName: string)
    returns (r: Option<string>)
    ensures r == ServiceNameByDevice(returnCode, listing, deviceName)
  {
    if returnCode != 0 {
      return None;
    }
    var blocks := SplitOn(listing, BlockSeparator);
    ghost var spec := PortOf(blocks, deviceName);
    var k := 0;
    while k < |blocks|
      invariant k <= |blocks|
      invariant PortOf(blocks[k..], deviceName) == spec
    {
      var hardwarePort, device := ScanPortBlock(blocks[k]);
      PortOfStep(blocks, k, deviceName);
      if device == Some(deviceName) {
        return hardwarePort;
      }
      k := k + 1;
    }
    assert blocks[k..] == [];
    return None;
  }

  /** One block read line by line: the last `Hardware Port:` and `Device:` values, stripped. */
  method ScanPortBlock(block: string) returns (hardwarePort: Option<string>, device: Option<string>)
    ensures PortEntry(hardwarePort, device) == BlockEntry(block)
  {
    var lines := Split(block, '\n');
    hardwarePort, device := None, None;
    var i := 0;
    while i < |lines|
      invariant i <= |lines|
      invariant ScanBlock(lines[i..], PortEntry(hardwarePort, device)) == BlockEntry(block)
    {
      ghost var before := PortEntry(hardwarePort, device);
      ScanBlockStep(lines, i, before);
      var s := Strip(lines[i]);
      if HardwarePortKey <= s {
        hardwarePort := Some(Strip(Drop(s, 15)));
      }
      if DeviceKey <= s {
        device := Some(Strip(Drop(s, 8)));
      }
      assert PortEntry(hardwarePort, device) == ScanLine(before, lines[i]);
      i := i + 1;
    }
    assert lines[i..] == [];
  }

  // ---------------------------------------------------------------------------------------
  // get_default_network_service

  /** The outputs of the commands that locate the default network service. */
  datatype Outputs = Outputs(
    route: string,           // `route -n get default`
    services: string,        // `networksetup -listallnetworkservices`
    hardwareCode: int,       // the return code of `networksetup -listallhardwareports`
    hardwarePorts: string)   // and its output

  /**
   * `get_default_network_service`: the service of the default route's device when there is a
   * default device, with no fallback; the first enabled service when there is none;
   * RuntimeError when that gives None.
   */
  function DefaultService(out: Outputs): (r: Result<string, MacFailure>)
    ensures r.Err? ==> r.error == RuntimeError
    ensures r.Ok? && DefaultDevice(out.route).None? ==> r.value != "" && Trimmed(r.value) && !("*" <= r.value)
    ensures r.Ok? && DefaultDevice(out.route).Some? ==> out.hardwareCode == 0
  {
    var device := DefaultDevice(out.route);
    var service :=
      if device.None? then DefaultByNs(out.services)
      else ServiceNameByDevice(out.hardwareCode, out.hardwarePorts, device.value);
    if service.None? then Err(RuntimeError) else Ok(service.value)
  }

  /** Once a default device is found, the network-service list plays no part, even when the device has no service. */
  lemma RoutedIgnoresServiceList(out: Outputs, services: string)
    requires DefaultDevice(out.route).Some?
    ensures DefaultService(out.(services := services)) == DefaultService(out)
    ensures DefaultService(out).Err? <==>
      ServiceNameByDevice(out.hardwareCode, out.hardwarePorts, DefaultDevice(out.route).value).None?
  {
  }

  /**
   * Offline (`route` cannot write to the routing socket), the listing's first enabled service is
   * the default, whatever the hardware ports say.
   */
  lemma OfflineFallsBack(out: Outputs, note: string, off: string, on: string)
    requires Contains(Strip(out.route), RouteFailure)
    requires out.services == note + "\n" + off + "\n" + on + "\n"
    requires Trimmed(note) && Trimmed(off) && Trimmed(on) && note != "" && on != ""
    requires '\n' !in note && '\n' !in off && '\n' !in on
    requires "*" <= off && !("*" <= on)
    ensures DefaultService(out) == Ok(on)
  {
    DefaultByNsSkipsDisabled(note, off, on);
  }

  /** With no default device and every listed service disabled, there is no default service. */
  lemma OfflineAllDisabled(out: Outputs)
    requires DefaultDevice(out.route).None?
    requires forall j :: 0 <= j < |ScannedLines(out.services)| ==> "*" <= Strip(ScannedLines(out.services)[j])
    ensures DefaultService(out) == Err(RuntimeError)
  {
    DefaultByNsSome(out.services);
  }

  // ---------------------------------------------------------------------------------------
  // get_http_proxy / get_https_proxy

  const EnabledKey := "Enabled:"
  const ServerKey := "Server:"
  const PortKey := "Port:"

  /** One service's web (or secure web) proxy setting as `networksetup` keeps it. */
  datatype WebProxy = WebProxy(enabled: bool, server: string, port: string)

  /** What `get_http_proxy` returns: `enabled`, `ip_address` and `port`, the last two None when absent. */
  datatype ProxyState = ProxyState(enabled: bool, ipAddress: Option<string>, port: Option<string>)

  /** A setting `networksetup` can print back unchanged: single-line values with no surrounding blanks. */
  predicate Printable(p: WebProxy) {
    Trimmed(p.server) && '\n' !in p.server && Trimmed(p.port) && '\n' !in p.port
  }

  /** What `networksetup -getwebproxy <service>` prints for a setting. */
  function Rendered(p: WebProxy): string {
    EnabledKey + " " + (if p.enabled then "Yes" else "No") + "\n" +
    (ServerKey + " " + p.server + "\n" +
    (PortKey + " " + p.port + "\n" +
    "Authenticated Proxy Enabled: 0\n"))
  }

  /**
   * The dictionary `get_http_proxy` builds from the command's output: enabled exactly when the
   * `Enabled:` value is "Yes"; the `Server:` and `Port:` values as `parse` gives them.
   */
  function ReadProxy(output: string): (r: ProxyState)
    ensures r.ipAddress.Some? ==> Trimmed(r.ipAddress.value)
    ensures r.port.Some? ==> Trimmed(r.port.value)
  {
    assert EnabledKey[7] == ':' && ServerKey[6] == ':' && PortKey[4] == ':';
    ProxyState(
      ParseValue(output, EnabledKey).value == Some("Yes"),
      ParseValue(output, ServerKey).value,
      ParseValue(output, PortKey).value)
  }

  /** A first line `<key> <value>` gives `value` for `key`, whatever follows. */
  lemma ParseKeyLine(key: string, value: string, rest: string)
    requires key != "" && key[|key| - 1] == ':' && ':' !in key[..|key| - 1] && !IsSpace(key[0])
    requires Trimmed(value) && '\n' !in key && '\n' !in value
    ensures ParseValue(key + " " + value + "\n" + rest, key) == Ok(Some(value))
  {
    var line := key + " " + value;
    assert line == key + (" " + value);
    assert '\n' !in line;
    StripKeepsPrefix(key, " " + value);
    ParseFirstLine(line, rest, key);
    AfterKey(key, " " + value);
    StripLeadingSpace(value);
  }

  /** A first line `<other> <value>` whose key begins with another letter is skipped. */
  lemma SkipKeyLine(key: string, other: string, value: string, rest: string)
    requires key != "" && other != "" && key[0] != other[0]
    requires !IsSpace(other[0]) && !IsSpace(other[|other| - 1])
    requires '\n' !in other && '\n' !in value
    ensures ParseValue(other + " " + value + "\n" + rest, key) == ParseValue(rest, key)
  {
    var line := other + " " + value;
    assert line == other + (" " + value);
    assert '\n' !in line;
    StripKeepsPrefix(other, " " + value);
    ParseSkipLine(line, rest, key);
  }

  /** The enabled flag reads back from the first line, whatever the server and port are. */
  lemma EnabledReadBack(p: WebProxy)
    ensures ReadProxy(Rendered(p)).enabled == p.enabled
  {
    var yn := if p.enabled then "Yes" else "No";
    ParseKeyLine(EnabledKey, yn, ServerKey + " " + p.server + "\n" + (PortKey + " " + p.port + "\n" + "Authenticated Proxy Enabled: 0\n"));
  }

  /** A key `networksetup` prints: a single ':' at its end, and no blank or newline at its start. */
  predicate KeyShaped(key: string) {
    key != "" && key[|key| - 1] == ':' && ':' !in key[..|key| - 1] && !IsSpace(key[0]) && '\n' !in key
  }

  lemma KeysShaped()
    ensures KeyShaped(EnabledKey) && KeyShaped(ServerKey) && KeyShaped(PortKey)
    ensures EnabledKey[0] != ServerKey[0] && EnabledKey[0] != PortKey[0] && ServerKey[0] != PortKey[0]
  {
    assert EnabledKey[..7] == "Enabled" && ServerKey[..6] == "Server" && PortKey[..4] == "Port";
  }

  /** The value of the second of two `<key> <value>` lines whose keys begin with different letters. */
  lemma ParseSecondKey(k1: string, v1: string, k2: string, v2: string, rest: string)
    requires KeyShaped(k1) && KeyShaped(k2) && k1[0] != k2[0]
    requires '\n' !in v1 && '\n' !in v2 && Trimmed(v2)
    ensures ParseValue(k1 + " " + v1 + "\n" + (k2 + " " + v2 + "\n" + rest), k2) == Ok(Some(v2))
  {
    SkipKeyLine(k2, k1, v1, k2 + " " + v2 + "\n" + rest);
    ParseKeyLine(k2, v2, rest);
  }

  /** The value of the third of three `<key> <value>` lines whose keys begin with different letters. */
  lemma ParseThirdKey(k1: string, v1: string, k2: string, v2: string, k3: string, v3: string, rest: string)
    requires KeyShaped(k1) && KeyShaped(k2) && KeyShaped(k3) && k1[0] != k3[0] && k2[0] != k3[0]
    requires '\n' !in v1 && '\n' !in v2 && '\n' !in v3 && Trimmed(v3)
    ensures ParseValue(k1 + " " + v1 + "\n" + (k2 + " " + v2 + "\n" + (k3 + " " + v3 + "\n" + rest)), k3) == Ok(Some(v3))
  {
    var third := k3 + " " + v3 + "\n" + rest;
    SkipKeyLine(k3, k1, v1, k2 + " " + v2 + "\n" + third);
    SkipKeyLine(k3, k2, v2, third);
    ParseKeyLine(k3, v3, rest);
  }

  /** The server reads back from the second line. */
  lemma ServerReadBack(p: WebProxy)
    requires Printable(p)
    ensures ReadProxy(Rendered(p)).ipAddress == Some(p.server)
  {
    KeysShaped();
    ParseSecondKey(EnabledKey, if p.enabled then "Yes" else "No", ServerKey, p.server,
      PortKey + " " + p.port + "\n" + "Authenticated Proxy Enabled: 0\n");
  }

  /** The port reads back from the third line. */
  lemma PortReadBack(p: WebProxy)
    requires Printable(p)
    ensures ReadProxy(Rendered(p)).port == Some(p.port)
  {
    KeysShaped();
    ParseThirdKey(EnabledKey, if p.enabled then "Yes" else "No", ServerKey, p.server, PortKey, p.port,
      "Authenticated Proxy Enabled: 0\n");
  }

  /** `get_http_proxy` reports a printable setting exactly as it is. */
  lemma ReadProxyRendered(p: WebProxy)
    requires Printable(p)
    ensures ReadProxy(Rendered(p)) == ProxyState(p.enabled, Some(p.server), Some(p.port))
  {
    EnabledReadBack(p);
    ServerReadBack(p);
    PortReadBack(p);
  }

  /** No output (the service is unknown): disabled, with neither server nor port. */
  lemma ReadProxyEmpty()
    ensures ReadProxy("") == ProxyState(false, None, None)
  {
    assert Split("", '\n') == [""];
    assert Strip("") == "";
  }

  /**
   * `get_http_proxy` / `get_https_proxy` on one of `networksetup`'s settings maps: the settings
   * parsed from what `-getwebproxy` (`-getsecurewebproxy`) prints, which is nothing for an unknown
   * service.
   */
  function ProxyOf(settings: map<string, WebProxy>, service: string): (r: ProxyState)
    ensures r.enabled <==> service in settings && settings[service].enabled
    ensures service in settings && Printable(settings[service]) ==>
      r.ipAddress == Some(settings[service].server) && r.port == Some(settings[service].port)
    ensures service !in settings ==> r == ProxyState(false, None, None)
  {
    if service in settings then
      EnabledReadBack(settings[service]);
      if Printable(settings[service]) then ReadProxyRendered(settings[service]); ReadProxy(Rendered(settings[service]))
      else ReadProxy(Rendered(settings[service]))
    else
      ReadProxyEmpty(); ReadProxy("")
  }

  /**
   * `get_enable`: only the default network service is consulted, and the proxy is on when both
   * its web and its secure web proxies are; RuntimeError when there is no default service.
   */
  function EnableOf(web: map<string, WebProxy>, secureWeb: map<string, WebProxy>, out: Outputs): (r: Result<bool, MacFailure>)
    ensures r.Err? <==> DefaultService(out).Err?
    ensures r.Ok? ==> var s := DefaultService(out).value;
      (r.value <==> s in web && web[s].enabled && s in secureWeb && secureWeb[s].enabled)
  {
    match DefaultService(out)
    case Err(e) => Err(e)
    case Ok(s) => Ok(ProxyOf(web, s).enabled && ProxyOf(secureWeb, s).enabled)
  }

  /** The address and port `get_proxy` reports for one scheme. */
  datatype Endpoint = Endpoint(ipAddress: Option<string>, port: Option<string>)

  /** What `get_proxy` returns. */
  datatype ProxyReport = ProxyReport(isEnable: bool, http: Endpoint, https: Endpoint)

  /**
   * `get_proxy`: the default service's web and secure web settings, enabled when both are;
   * RuntimeError when there is no default service.
   */
  function ReportOf(web: map<string, WebProxy>, secureWeb: map<string, WebProxy>, out: Outputs): (r: Result<ProxyReport, MacFailure>)
    ensures r.Err? <==> DefaultService(out).Err?
    ensures r.Ok? ==> EnableOf(web, secureWeb, out) == Ok(r.value.isEnable)
    ensures r.Ok? ==> var s := DefaultService(out).value;
      (s in web && Printable(web[s]) ==> r.value.http == Endpoint(Some(web[s].server), Some(web[s].port))) &&
      (s in secureWeb && Printable(secureWeb[s]) ==> r.value.https == Endpoint(Some(secureWeb[s].server), Some(secureWeb[s].port)))
  {
    match DefaultService(out)
    case Err(e) => Err(e)
    case Ok(s) =>
      var http, https := ProxyOf(web, s), ProxyOf(secureWeb, s);
      Ok(ProxyReport(http.enabled && https.enabled, Endpoint(http.ipAddress, http.port), Endpoint(https.ipAddress, https.port)))
  }

  /** The setting `-setwebproxy` leaves behind once `set_http_proxy` has restored the old state. */
  function Pointed(p: WebProxy, ipAddress: string, port: nat): WebProxy {
    WebProxy(p.enabled, ipAddress, NatToString(port))
  }

  /** A port written by `str(port)` is printed back as it was written. */
  lemma DigitsPrintable(d: string)
    requires d != "" && AllDigits(d)
    ensures Trimmed(d) && '\n' !in d
  {
    assert IsDigit(d[0]) && IsDigit(d[|d| - 1]);
  }

  /**
   * After `set_http_proxy`, `get_http_proxy` reports the new server and port and the enabled
   * flag the service had before; the other services read as before.
   */
  lemma SetThenGet(settings: map<string, WebProxy>, service: string, ipAddress: string, port: nat, other: string)
    requires service in settings && Trimmed(ipAddress) && '\n' !in ipAddress
    requires other != service
    ensures var after := settings[service := Pointed(settings[service], ipAddress, port)];
      ProxyOf(after, service) == ProxyState(settings[service].enabled, Some(ipAddress), Some(NatToString(port))) &&
      ProxyOf(after, other) == ProxyOf(settings, other)
  {
    DigitsPrintable(NatToString(port));
  }

  /** The proxy being configured and `networksetup`'s per-service web and secure web settings. */
  class MacProxy {
    const ipAddress: string
    const port: nat
    /** `-getwebproxy` / `-setwebproxy`, by network service. */
    var web: map<string, WebProxy>
    /** `-getsecurewebproxy` / `-setsecurewebproxy`, by network service. */
    var secureWeb: map<string, WebProxy>
    /** What the commands that locate the default network service print. */
    var outputs: Outputs

    constructor(ipAddress: string, port: nat, web: map<string, WebProxy>, secureWeb: map<string, WebProxy>, outputs: Outputs)
      ensures this.ipAddress == ipAddress && this.port == port
      ensures this.web == web && this.secureWeb == secureWeb && this.outputs == outputs
    {
      this.ipAddress := ipAddress;
      this.port := port;
      this.web := web;
      this.secureWeb := secureWeb;
      this.outputs := outputs;
    }

    /** `get_enable` on the current settings. */
    method GetEnable() returns (r: Result<bool, MacFailure>)
      ensures r == EnableOf(web, secureWeb, outputs)
    {
      var service := DefaultService(outputs);
      if service.Err? {
        return Err(service.error);
      }
      var http := ProxyOf(web, service.value);
      var https := ProxyOf(secureWeb, service.value);
      return Ok(http.enabled && https.enabled);
    }

    /**
     * `set_http_proxy`: `-setwebproxy` stores the server and port and turns the proxy on, so it
     * is turned off again when it was off; an unknown service makes `networksetup` fail.
     */
    method SetHttpProxy(service: string) returns (r: Result<(), MacFailure>)
      modifies this
      ensures service !in old(web) ==> r == Err(RuntimeError) && web == old(web)
      ensures service in old(web) ==> (r.Ok? && web == old(web)[service := Pointed(old(web)[service], ipAddress, port)])
      ensures secureWeb == old(secureWeb) && outputs == old(outputs)
    {
      var isEnabled := ProxyOf(web, service).enabled;
      if service !in web {
        return Err(RuntimeError);
      }
      web := web[service := WebProxy(true, ipAddress, NatToString(port))];
      if !isEnabled {
        web := web[service := web[service].(enabled := false)];
      }
      return Ok(());
    }

    /** `set_https_proxy`: the same through `-setsecurewebproxy`. */
    method SetHttpsProxy(service: string) returns (r: Result<(), MacFailure>)
      modifies this
      ensures service !in old(secureWeb) ==> r == Err(RuntimeError) && secureWeb == old(secureWeb)
      ensures service in old(secureWeb) ==>
        (r.Ok? && secureWeb == old(secureWeb)[service := Pointed(old(secureWeb)[service], ipAddress, port)])
      ensures web == old(web) && outputs == old(outputs)
    {
      var isEnabled := ProxyOf(secureWeb, service).enabled;
      if service !in secureWeb {
        return Err(RuntimeError);
      }
      secureWeb := secureWeb[service := WebProxy(true, ipAddress, NatToString(port))];
      if !isEnabled {
        secureWeb := secureWeb[service := secureWeb[service].(enabled := false)];
      }
      return Ok(());
    }
  }

  /** Pointing the default service's proxies elsewhere does not turn the proxy on or off. */
  lemma SetKeepsEnable(web: map<string, WebProxy>, secureWeb: map<string, WebProxy>, out: Outputs,
                       service: string, ipAddress: string, port: nat)
    requires service in web && service in secureWeb
    ensures EnableOf(web[service := Pointed(web[service], ipAddress, port)],
                     secureWeb[service := Pointed(secureWeb[service], ipAddress, port)], out)
         == EnableOf(web, secureWeb, out)
  {
  }
}
