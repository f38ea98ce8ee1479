# Proxy configuration backends: a verified model

This project models the proxy-configuration backends of two related Python packages, `uniproxy` and `proxverter`. Both
switch a system-wide HTTP/HTTPS/FTP proxy on and off. The operating system is replaced by plain values:

- a shell configuration file (`~/.bashrc`, `~/.zshrc`, `config.fish`) or a file under `/etc` is a string. Python opens
  it in text mode, which reads with universal newlines ("\r\n" and a lone "\r" become "\n"), and `readlines()` splits
  that text into lines that keep their "\n". Everything written back uses "\n";
- the Windows "Internet Settings" registry key is a map from value names to typed values;
- the systemd `environment.d` directory is a map from drop-in names to file contents;
- the KDE `kioslaverc` group is a map from keys to strings;
- GNOME's gsettings are a map from keys to typed values (a string, an integer or a string list), with the schema
  defaults beside them. `gsettings get` prints a value as GVariant text, so strings come back in quotes and an empty list
  as `@as []`;
- the output of macOS commands (`networksetup`, `route`) is an input string, and `networksetup`'s per-service
  web-proxy settings are maps from service names to settings.

Modules, one concern each:

- `Wrappers`: `Option` and `Result`.
- `Text`: the Python string built-ins the sources use (`strip`, `split`, `find`, `join`, `lower`, `str(int)`), with
  Python's full whitespace set.
- `Lines`: the universal-newline read, `readlines()`, writing lines back, and the filter of `remove_matching_lines`.
- `ManagedLines`: the managed shell-variable lines (`export VAR="…"` for bash/zsh, `set -x VAR "…"` for fish), their
  removal regexes, and the passes over the installed shells.
- `UniShell` and `ProxShell`: the `ShellEnvVar` classes of `uniproxy/shell_env_var.py` and
  `proxverter/shell_env_var.py`.
- `UniLinux`: `uniproxy/linux_proxy.py`: desktop detection, the KDE and GNOME encodings, and the `environment.d` drop-ins.
- `ProxLinux`: `proxverter/linux_proxy.py`: the `/etc/environment`, `apt.conf`, `bash.bashrc` and `wgetrc` patchers.
- `WinRegistry`: the registry logic shared by both Windows backends (`set_key`, `extract_proxies`, `get_proxy`,
  `get_enable`, `get_bypass_domains`).
- `UniWin` and `ProxWin`: the `WinProxy` classes of `uniproxy/win_proxy.py` and `proxverter/win_proxy.py`.
- `UniMac`: `uniproxy/mac_proxy.py`: the command-output parsers, the default-service resolution, and the web-proxy
  settings.

Operations that loop, or that update a store in place, are methods. Each is proved equal to a specification function,
and the properties are proved as lemmas about that function.

Exceptions become `Err` values of a `Result`. On Windows this includes the ValueError that `winreg.SetValueEx` raises
when the data does not fit the value's registry type.

Ports are natural numbers, written with `str()` (`Text.NatToString`).

## Model

| member | source | states |
|---|---|---|
| Lines.ConcatReadLines | uniproxy/shell_env_var.py:95-96 | writing back the lines `readlines()` splits a text into reproduces that text exactly (the text as read, after universal newlines) |
| Lines.ConcatFileLines | uniproxy/shell_env_var.py:95-96 | writing back the lines read from a file gives the file with "\r\n" and "\r" turned into "\n" |
| Lines.FileLinesPlain | uniproxy/shell_env_var.py:95-96 | a file without "\r" is read as the lines it holds |
| Lines.TranslateNoCr | uniproxy/shell_env_var.py:95-96 | no "\r" is left after a text-mode read, and only the empty file reads as empty |
| Lines.TranslateKeeps | uniproxy/shell_env_var.py:95-96 | a file without "\r" reads as it is |
| Lines.TranslateTerminated | uniproxy/shell_env_var.py:95-96 | the text read ends in a newline exactly when the file ends in "\n" or "\r" |
| Lines.TranslateAppend | uniproxy/shell_env_var.py:62-70 | reading a text in two parts reads it whole, unless the cut splits a "\r\n" |
| Lines.FileLinesAppend | uniproxy/shell_env_var.py:62-70 | appending "\r"-free lines to a terminated file adds exactly those lines to what the next read sees |
| Lines.ReadLinesShape | uniproxy/shell_env_var.py:95-96 | `readlines()` yields lines that each end in a newline, except possibly the last |
| Lines.ReadLinesAppend | uniproxy/shell_env_var.py:62-70 | appending to a newline-terminated file adds lines and leaves the old lines as they were |
| Lines.ReadLinesGlued | uniproxy/shell_env_var.py:62-70 | text without a final newline, followed by appended lines, is read back with the first appended line glued onto it |
| Lines.RemoveMatching | uniproxy/shell_env_var.py:117-124 | the kept lines are no longer than the input, and none of them matches a pattern |
| Lines.RemoveMatchingAppend | uniproxy/shell_env_var.py:120-122 | the filter works line by line, so it keeps the original order (it distributes over concatenation) |
| Lines.RemoveMatchingNone | uniproxy/shell_env_var.py:120-122 | a file with no matching line is kept as it is |
| Lines.RemoveMatchingAll | uniproxy/shell_env_var.py:120-122 | lines that all match are all dropped |
| Lines.RemoveMatchingShape | uniproxy/shell_env_var.py:120-122 | the kept lines are still a well-shaped `readlines()` list, and stay terminated when the input was |
| Lines.RemoveMatchingTextLines | uniproxy/shell_env_var.py:117-124 | the rewritten file's lines are exactly the unmatched lines of the old file as Python reads it (universal newlines), in order |
| Lines.RemoveMatchingIdempotent | uniproxy/shell_env_var.py:120-122 | filtering twice gives what filtering once gives |
| Lines.RemoveMatchingTextIdempotent | uniproxy/shell_env_var.py:117-124 | a second removal pass with the same patterns changes nothing |
| Lines.RemoveMatchingUnion | proxverter/shell_env_var.py:53-57 | two passes remove what one pass with both pattern lists removes |
| Lines.RemoveMatchingTextUnion | proxverter/shell_env_var.py:53-57 | the same, stated for the rewritten file text |
| Lines.RemoveMatchingTextBlock | uniproxy/shell_env_var.py:117-124 | a removal pass drops a block of matching lines that follows a terminated text |
| Lines.RemoveMatchingTextNone | uniproxy/shell_env_var.py:117-124 | a removal pass writes a file with no matching line back with its line ends turned into "\n"; a file without "\r" comes back unchanged |
| Lines.RemoveMatchingTextPlain | uniproxy/shell_env_var.py:117-124 | what a removal pass writes holds no "\r", so the next read sees it unchanged |
| Lines.EndLineUnmatched | proxverter/linux_proxy.py:80-82 | adding the missing final newline cannot create a match for patterns that do not end in a newline |
| Lines.FilterThenAppend | uniproxy/shell_env_var.py:52-70 | filter then append: the kept lines followed by the block, and exactly the block's lines match afterwards |
| Lines.KeptThenBlockCount | uniproxy/shell_env_var.py:52-70 | after unmatched lines followed by a matching block, the number of matching lines is the block's length |
| Lines.WriteUnmatched | uniproxy/shell_env_var.py:119-122 | the write loop produces the concatenation of the unmatched lines |
| ManagedLines.RenderLines | uniproxy/shell_env_var.py:62-81 | a rendered block of assignments reads back as its assignment lines, each terminated |
| ManagedLines.AssignmentMatches | uniproxy/shell_env_var.py:109-110 | the removal regex of a variable matches the line the writer renders for it, in both dialects |
| ManagedLines.RenderAllManaged | uniproxy/shell_env_var.py:62-81 | every line of a rendered block is deleted by the matching removal pass |
| ManagedLines.ProxyBypassDisjoint | uniproxy/shell_env_var.py:98-110 | no line is matched both by a proxy pattern and by a `no_proxy`/`NO_PROXY` pattern |
| ManagedLines.RemovalKeepsOtherSet | uniproxy/shell_env_var.py:165-171 | removing one managed set keeps every line of the other set, and their number |
| ManagedLines.RemoveAfterAppend | uniproxy/shell_env_var.py:109-122 | a removal pass right after an append of managed lines removes the whole block again |
| ManagedLines.AppendCount | proxverter/shell_env_var.py:69-93 | an append adds exactly one managed line per assignment |
| ManagedLines.AppendCountOther | proxverter/shell_env_var.py:130-144 | an append of proxy (bypass) lines leaves the count of bypass (proxy) lines as it was |
| ManagedLines.UnsetAfterAppendFiles | proxverter/shell_env_var.py:47-57 | a removal pass after an append pass over the same shells restores every terminated file that had no managed line, with its line ends turned into "\n"; a created file stays as an empty file |
| ManagedLines.RestoredPlain | proxverter/shell_env_var.py:47-57 | files without "\r" are restored exactly |
| ManagedLines.PatternsUnion | proxverter/shell_env_var.py:102-114 | the patterns of two variable lists together match what either list matches |
| ManagedLines.AppendTwice | proxverter/shell_env_var.py:50-51 | appending two blocks one after the other appends their concatenation |
| ManagedLines.UnsetFilesNext | uniproxy/shell_env_var.py:87-115 | one step of the shell loop: an installed shell's existing file is rewritten, and any other shell's file is untouched |
| ManagedLines.AppendFilesNext | uniproxy/shell_env_var.py:131-148 | one step of the shell loop: an installed shell's file gets the block (created empty first), and any other shell's file is untouched |
| ManagedLines.AppendPassAll | uniproxy/shell_env_var.py:131-148 | the loop over all shells is the append pass over the installed ones |
| ManagedLines.UnsetPassAll | uniproxy/shell_env_var.py:154-176 | the loop over all shells is the removal pass over the installed ones |
| UniShell.ProxyAssignmentsShape | uniproxy/shell_env_var.py:63-70 | the proxy block is eight one-line assignments of the eight proxy variables |
| UniShell.ReplaceLayout | uniproxy/shell_env_var.py:52-70 | after a remove-then-append, the unmanaged lines come first in their old order, then exactly the new assignments |
| UniShell.UnsetAfterReplace | uniproxy/shell_env_var.py:83-115 | unsetting after a replace removes everything the replace appended |
| UniShell.ReplaceIdempotent | uniproxy/shell_env_var.py:52-70 | replacing twice with the same values gives the file a single replace gives |
| UniShell.SetProxyLayout | uniproxy/shell_env_var.py:61-81 | after `set_proxy_env_var`, a terminated file holds its other lines in order, then the eight proxy lines in the source's order; there are exactly eight proxy lines |
| UniShell.SetProxyIdempotent | uniproxy/shell_env_var.py:52-81 | `set_proxy_env_var` is idempotent on a terminated config file |
| UniShell.UnsetAfterSetProxy | uniproxy/shell_env_var.py:83-115 | unsetting after setting leaves what an unset alone leaves |
| UniShell.SetBypassIdempotent | uniproxy/shell_env_var.py:130-148 | `set_bypass_domains_env_var` is idempotent and leaves exactly two bypass lines |
| UniShell.ReplaceKeepsOther | uniproxy/shell_env_var.py:98-110 | replacing one managed set leaves the number of lines of the other set as it was |
| UniShell.SetProxyKeepsBypass | uniproxy/shell_env_var.py:98-110 | setting the proxy leaves the number of bypass lines unchanged |
| UniShell.SetBypassKeepsProxy | uniproxy/shell_env_var.py:165-171 | setting the bypass domains leaves the number of proxy lines unchanged |
| UniShell.CommentNotManaged | uniproxy/shell_env_var.py:109-110 | the regexes are anchored at the line start, so a `#`-commented line is never managed |
| UniShell.CommentFileSurvives | uniproxy/shell_env_var.py:117-124 | the one-line file `#` survives any removal pass |
| UniShell.GluedLines | uniproxy/shell_env_var.py:62-70 | appending to a file whose last line lacks a newline glues the first assignment onto that line |
| UniShell.GluedLineSurvives | uniproxy/shell_env_var.py:109-122 | the glued line is not removed by the next removal pass |
| UniShell.UnterminatedFileGrows | uniproxy/shell_env_var.py:52-70 | so on an unterminated file `set_proxy_env_var` is not idempotent: the second call makes the file longer |
| UniShell.ReplaceFilesAt | uniproxy/shell_env_var.py:52-70 | where each shell's file stands after a replace pass: installed shells get the replace, the others are untouched |
| UniShell.ReplaceFilesIdempotent | uniproxy/shell_env_var.py:52-70 | a second replace pass over the shells leaves the files as the first left them |
| UniShell.SetProxyFilesIdempotent | uniproxy/shell_env_var.py:48-81 | calling `set_proxy_env_var` twice leaves every config file as one call does |
| UniShell.SetBypassFilesIdempotent | uniproxy/shell_env_var.py:126-148 | the same for `set_bypass_domains_env_var` |
| UniShell.ShellEnvVar.constructor | uniproxy/shell_env_var.py:29-42 | the proxy, the bypass list and the installed shells are recorded |
| UniShell.ShellEnvVar.RemoveMatchingLines | uniproxy/shell_env_var.py:117-124 | the file of the shell becomes the concatenation of its unmatched lines, where the caller reads the lines with universal newlines |
| UniShell.ShellEnvVar.UnsetVars | uniproxy/shell_env_var.py:87-115 | the shell loop of the unset operations is the removal pass over the installed shells' existing files |
| UniShell.ShellEnvVar.AppendToConfig | uniproxy/shell_env_var.py:57-70 | a missing config is created empty, then the block is appended |
| UniShell.ShellEnvVar.AppendAssignments | uniproxy/shell_env_var.py:53-81 | the shell loop of the set operations appends to the installed shells' files only |
| UniShell.ShellEnvVar.UnsetProxyEnvVar | uniproxy/shell_env_var.py:83-115 | the proxy lines are removed from every installed shell's existing file |
| UniShell.ShellEnvVar.SetProxyEnvVar | uniproxy/shell_env_var.py:48-81 | unset, then append the eight proxy lines to every installed shell's file |
| UniShell.ShellEnvVar.UnsetBypassDomainsEnvVar | uniproxy/shell_env_var.py:150-176 | the bypass lines are removed from every installed shell's existing file |
| UniShell.ShellEnvVar.SetBypassDomainsEnvVar | uniproxy/shell_env_var.py:126-148 | unset, then append the two bypass lines with the ","-joined domains |
| ProxShell.ProxyAssignmentsShape | proxverter/shell_env_var.py:76-93 | the proxy block is eight one-line assignments; https uses the `https://` scheme |
| ProxShell.EnableAssignmentsShape | proxverter/shell_env_var.py:47-51 | everything `enable_proxy` writes is a managed one-line assignment |
| ProxShell.DisableTextUnion | proxverter/shell_env_var.py:53-57 | disabling is one removal pass with the proxy and bypass patterns together |
| ProxShell.EnableLayout | proxverter/shell_env_var.py:47-51 | enabling keeps every line of a terminated file and appends the eight proxy lines, then the two bypass lines |
| ProxShell.EnableAccumulates | proxverter/shell_env_var.py:69-93 | each enable adds eight more proxy lines and two more bypass lines: earlier ones are never removed |
| ProxShell.DisableRemovesAll | proxverter/shell_env_var.py:95-128 | after disabling, no managed line is left and every other line is kept in order |
| ProxShell.DisableIdempotent | proxverter/shell_env_var.py:121-128 | disabling twice leaves what one disable leaves |
| ProxShell.DisableAfterEnable | proxverter/shell_env_var.py:47-57 | disabling after enabling leaves what disabling alone leaves |
| ProxShell.EnableDisableRoundTrip | proxverter/shell_env_var.py:47-57 | a terminated file with no managed line comes back from enable then disable with its line ends turned into "\n", and unchanged when it holds no "\r" |
| ProxShell.UnsetBypassAfterSet | proxverter/shell_env_var.py:59-67 | `unset_bypass_domains` after `set_bypass_domains` leaves what the unset alone leaves |
| ProxShell.DisableAfterEnableFiles | proxverter/shell_env_var.py:47-57 | across all shells, disable after enable restores each eligible file up to its line ends, exactly when no file holds "\r"; the only other trace is an empty file created for an installed shell |
| ProxShell.ShellEnvVar.constructor | proxverter/shell_env_var.py:29-42 | the proxy, the bypass list, the installed shells and the two rendered blocks are recorded |
| ProxShell.ShellEnvVar.RemoveMatchingLines | proxverter/shell_env_var.py:121-128 | the file becomes the concatenation of its unmatched lines, where the caller reads the lines with universal newlines |
| ProxShell.ShellEnvVar.WriteProxyEnvVar | proxverter/shell_env_var.py:69-93 | a missing file is created empty, then the eight proxy lines are appended |
| ProxShell.ShellEnvVar.WriteBypassDomainsEnvVar | proxverter/shell_env_var.py:130-144 | a missing file is created empty, then `no_proxy` and `NO_PROXY` are appended |
| ProxShell.ShellEnvVar.DelProxyEnvVar | proxverter/shell_env_var.py:95-119 | the proxy lines are removed from an existing file; a missing file stays missing |
| ProxShell.ShellEnvVar.DelBypassDomainsEnvVar | proxverter/shell_env_var.py:146-163 | the bypass lines are removed from an existing file; a missing file stays missing |
| ProxShell.ShellEnvVar.EnableShell | proxverter/shell_env_var.py:49-51 | one shell gets the proxy block followed by the bypass block |
| ProxShell.ShellEnvVar.EnableProxy | proxverter/shell_env_var.py:47-51 | every installed shell's file gets both blocks appended, and no other file changes |
| ProxShell.ShellEnvVar.DisableShell | proxverter/shell_env_var.py:55-57 | one shell's existing file loses all ten managed variables' lines |
| ProxShell.ShellEnvVar.DisableProxy | proxverter/shell_env_var.py:53-57 | every installed shell's existing file is cleaned, and no other file changes |
| ProxShell.ShellEnvVar.SetBypassDomains | proxverter/shell_env_var.py:59-62 | every installed shell's file gets the two bypass lines appended |
| ProxShell.ShellEnvVar.UnsetBypassDomains | proxverter/shell_env_var.py:64-67 | the bypass lines are removed from every installed shell's existing file |
| UniLinux.DetectDesktop | uniproxy/linux_proxy.py:13-23 | an unset XDG_CURRENT_DESKTOP is refused |
| UniLinux.DetectDesktopIff | uniproxy/linux_proxy.py:13-23 | GNOME (KDE) is recognised exactly when every character of the variable lower-cases to the matching letter of "gnome" ("kde"); anything else raises OSError |
| Text.LowerIsWord | uniproxy/linux_proxy.py:19-23 | `s.lower()` equals a lower-case ASCII word exactly when each character of s lower-cases to its letter, the Kelvin sign to 'k' included |
| UniLinux.DetectDesktopGnomeUpper | uniproxy/linux_proxy.py:19-20 | the comparison is case-insensitive: "GNOME" is GNOME |
| UniLinux.DetectDesktopKdeUpper | uniproxy/linux_proxy.py:22-23 | "KDE" is KDE, and so is "KDE" written with the Kelvin sign, which `lower()` turns into 'k' |
| UniLinux.KdeCommand | uniproxy/linux_proxy.py:25-27 | the KDE tool name is the command followed by KDE_SESSION_VERSION, "5" when that is unset |
| UniLinux.FormatDomains | uniproxy/linux_proxy.py:164-166 | the GNOME encoding is bracketed, and the empty list is "[]" |
| UniLinux.FormatDomainsRoundTrip | uniproxy/linux_proxy.py:164-166 | reading a list literal back from `format_domains` gives the same domains when none holds a quote or backslash |
| UniLinux.GnomeBypassRead | uniproxy/linux_proxy.py:151-154 | `get_bypass_domains` on GNOME evaluates only a bracketed `ignore-hosts` print; an annotated print such as `@as []` makes `ast.literal_eval` raise |
| UniLinux.GnomeBypassRoundTrip | uniproxy/linux_proxy.py:144-166 | the GNOME bypass list read back after it was written is the same list |
| UniLinux.KdeBypassRead | uniproxy/linux_proxy.py:145-150 | `get_bypass_domains` on KDE gives ","-free domains, and none exactly when the stored `NoProxyFor` is blank |
| UniLinux.KdeBypassRoundTrip | uniproxy/linux_proxy.py:144-150 | a non-empty, comma-free list whose join has no outer blanks reads back unchanged from KDE |
| UniLinux.KdeBypassEmpty | uniproxy/linux_proxy.py:147-150 | the empty list (and `[""]`) is stored as "" and reads back as [] |
| UniLinux.ExtractIpAndPort | uniproxy/linux_proxy.py:156-162 | `extract_ip_and_port` finds an ip and a port only after a leading `http://`, `https://` or `ftp://`, and both are non-empty; otherwise `(None, None)` |
| UniLinux.ExtractIpAndPortShape | uniproxy/linux_proxy.py:156-162 | a parsed ip is a non-empty run of digits and dots, and a parsed port is a non-empty run of digits |
| UniLinux.ExtractIpAndPortParses | uniproxy/linux_proxy.py:156-162 | `scheme://ip<blanks>port…` gives back the ip and the port |
| UniLinux.KdeProxyRoundTrip | uniproxy/linux_proxy.py:156-162 | what `__set_kde_proxy` writes for a dotted-decimal ip is parsed back to that ip and the decimal port |
| UniLinux.ExtractIpAndPortEmpty | uniproxy/linux_proxy.py:156-162 | the empty value `del_proxy` writes parses as (None, None) |
| UniLinux.EnvTextRoundTrip | uniproxy/linux_proxy.py:210-217 | reading a drop-in back line by line gives every `KEY=value` pair written, in order |
| UniLinux.ProxyConfReadsBack | uniproxy/linux_proxy.py:206-217 | `01-proxy.conf` holds exactly eight assignments in the source's order, with http and https on the `http://` scheme |
| UniLinux.BypassConfReadsBack | uniproxy/linux_proxy.py:241-244 | `02-bypass-domains.conf` reads back as `no_proxy` and `NO_PROXY`, both with the ","-joined domains |
| UniLinux.SetProxyKeepsEnable | uniproxy/linux_proxy.py:29-36 | `set_proxy` leaves the enabled state as it was |
| UniLinux.SetProxyKdeReadsBack | uniproxy/linux_proxy.py:77-119 | on KDE, `get_proxy` after `set_proxy` gives the dotted-decimal ip and the port for all three schemes |
| UniLinux.SetProxyGnomeReadsBack | uniproxy/linux_proxy.py:121-142 | on GNOME, `get_proxy` after `set_proxy` gives the ip as gsettings prints it, in single quotes, and the port, for all three schemes, for every port in the schema's range 0..65535 |
| UniLinux.GPrint | uniproxy/linux_proxy.py:122-127 | `gsettings get` prints a non-empty value without outer blanks: a string in quotes, an integer in digits, a list in brackets or as `@as []` |
| UniLinux.PrintStringPlain | uniproxy/linux_proxy.py:122-127 | a string without quote, backslash or unprintable character prints as itself in single quotes |
| UniLinux.PrintDomains | uniproxy/linux_proxy.py:152-154 | a non-empty list of such strings prints exactly as `format_domains` writes it |
| UniLinux.SetProxyGnomeBigPort | uniproxy/linux_proxy.py:59-65 | the GNOME proxy schemas give each `port` key the range 0..65535, so gsettings refuses any larger port; the source does not check the exit status, so nothing is raised and GNOME keeps reporting the old ports |
| UniLinux.GnomeSetKeeps | uniproxy/linux_proxy.py:59-72 | a gsettings write of one key leaves what every other key prints, and the KDE side |
| UniLinux.DesktopSettings.GetEnableAsWritten | uniproxy/linux_proxy.py:86-93 | `get_enable` as written: on KDE it agrees with the corrected `get_enable`; on GNOME it holds only if gsettings printed the bare word `manual` |
| UniLinux.DesktopSettings.GetEnable | uniproxy/linux_proxy.py:86-93 | `get_enable` as intended: KDE ProxyType is "1"; on GNOME it holds exactly when gsettings prints the mode as `'manual'` |
| UniLinux.DesktopSettings.GetBypassDomains | uniproxy/linux_proxy.py:144-154 | `get_bypass_domains`: KDE always gives a list of ","-free domains; on GNOME an annotated print such as `@as []` raises |
| UniLinux.DesktopSettings.GetProxy | uniproxy/linux_proxy.py:77-84 | `get_proxy`: `is_enable` is `get_enable`; GNOME reports every ip and port; KDE reports each scheme's ip and port together or neither (`(None, None)`) |
| UniLinux.SetEnableReadsBack | uniproxy/linux_proxy.py:86-93 | `get_enable` (with the GNOME comparison against the printed `'manual'`) after `set_enable(e)` is e |
| UniLinux.ModeReadsBack | uniproxy/linux_proxy.py:43 | the mode `set_enable` stores is printed in single quotes |
| UniLinux.PrintedNotBare | uniproxy/linux_proxy.py:92-93 | no printed gsettings value strips to the bare word `manual` |
| UniLinux.GnomeEnableAsWrittenNeverTrue | uniproxy/linux_proxy.py:92-93 | on GNOME the `get_enable` as written is false in every state, even right after `set_enable(True)` |
| UniLinux.SetEnableKeepsBypass | uniproxy/linux_proxy.py:38-43 | `set_enable` leaves the bypass list as it was |
| UniLinux.SetBypassReadsBack | uniproxy/linux_proxy.py:144-154 | `get_bypass_domains` after `set_bypass_domains(d)` is d wherever the desktop's encoding can carry d; on GNOME the empty list reads back as `@as []`, which `literal_eval` refuses; the enabled state is kept |
| UniLinux.SetBypassGnome | uniproxy/linux_proxy.py:151-154 | on GNOME a printable, quote-free non-empty list reads back as itself, and the empty list raises in `literal_eval` |
| UniLinux.DelProxyDisables | uniproxy/linux_proxy.py:172-194 | after `del_proxy` the proxy is off |
| UniLinux.DelProxyKdeType | uniproxy/linux_proxy.py:173-176 | after `del_proxy` on KDE, ProxyType reads "0" |
| UniLinux.DelProxyGnomeMode | uniproxy/linux_proxy.py:183-185 | after `del_proxy` on GNOME, the mode prints as `'none'` |
| UniLinux.DelProxyKdeReadsBack | uniproxy/linux_proxy.py:172-183 | after `del_proxy` on KDE there are no proxies and the default bypass list is back |
| UniLinux.KdeDefaultBypassReads | uniproxy/linux_proxy.py:179 | the KDE default bypass list reads back as its three entries |
| UniLinux.LinuxProxy.constructor | uniproxy/linux_proxy.py:9-17 | the proxy and the desktop's store are recorded |
| UniLinux.LinuxProxy.UnsetProxyEnvVar | uniproxy/linux_proxy.py:221-230 | `01-proxy.conf` is gone afterwards, whether or not it existed; the desktop is untouched |
| UniLinux.LinuxProxy.SetProxyEnvVar | uniproxy/linux_proxy.py:199-219 | `01-proxy.conf` is replaced by the eight assignments |
| UniLinux.LinuxProxy.UnsetBypassDomainsEnvVar | uniproxy/linux_proxy.py:248-257 | `02-bypass-domains.conf` is gone afterwards, whether or not it existed |
| UniLinux.LinuxProxy.AppendBypassLines | uniproxy/linux_proxy.py:241-244 | the file is created, then gets the two lines; when reading the bypass list raises, the file stays empty and the error propagates |
| UniLinux.LinuxProxy.SetBypassDomainsEnvVar | uniproxy/linux_proxy.py:232-246 | `02-bypass-domains.conf` is replaced by the two lines with the desktop's bypass list, or left empty with an error |
| UniLinux.LinuxProxy.SetProxy | uniproxy/linux_proxy.py:29-36 | the desktop gets the new proxy; only when the proxy is enabled (by the corrected `get_enable`) is `01-proxy.conf` rewritten |
| UniLinux.LinuxProxy.SetEnable | uniproxy/linux_proxy.py:38-50 | the desktop switch is flipped; enabling writes both drop-ins, disabling deletes both |
| UniLinux.LinuxProxy.SetBypassDomains | uniproxy/linux_proxy.py:67-75 | the desktop gets the domains; only when the proxy is enabled (by the corrected `get_enable`) is the bypass drop-in rewritten; an unreadable list leaves it empty with an error |
| UniLinux.LinuxProxy.DelProxy | uniproxy/linux_proxy.py:172-197 | the desktop settings are reset, and both drop-ins are deleted |
| UniLinux.LinuxProxy.JoinProxy | uniproxy/linux_proxy.py:168-170 | `set_proxy`, then `set_enable(True)`: the proxy is on and both drop-ins exist |
| ProxLinux.RewritePass | proxverter/linux_proxy.py:34-38 | the in-place `fileinput` loop writes each line it read (universal newlines) back, rewriting the proxy lines, and the flag is set iff some line qualified |
| ProxLinux.GreedyMatchAssignment | proxverter/linux_proxy.py:36-37 | the greedy regex matches a whole assignment line, and its group is the variable's scheme |
| ProxLinux.RewriteAssignment | proxverter/linux_proxy.py:36-37 | each writer rewrites `X_proxy=…` to point at the proxy under scheme X |
| ProxLinux.RewriteFixed | proxverter/linux_proxy.py:34-38 | a line a writer has written is left as it is by a second rewrite |
| ProxLinux.ReplacementMarked | proxverter/linux_proxy.py:133-171 | every line a writer writes is removed by the matching `rem_*` |
| ProxLinux.NoCacheLineKept | proxverter/linux_proxy.py:51-55 | apt's No-Cache line holds "Cache", so the apt rewrite leaves it alone |
| ProxLinux.PathLineKept | proxverter/linux_proxy.py:34-47 | the PATH line holds no "proxy", so the environment rewrite leaves it alone |
| ProxLinux.PathLineUnmarked | proxverter/linux_proxy.py:153-161 | `rem_env_vars` does not remove the PATH line |
| ProxLinux.RewriteWithoutMid | proxverter/linux_proxy.py:34-38 | a "proxy" line without `_proxy=` is written back stripped, without its newline |
| ProxLinux.RewriteLinesNone | proxverter/linux_proxy.py:34-38 | without a proxy line, every line read is written back unchanged |
| ProxLinux.FallbackAfterPass | proxverter/linux_proxy.py:34-47 | with no proxy line, the in-place pass writes the file back with "\n" line ends, and the fallback works on that text |
| ProxLinux.FallbackOutcome | proxverter/linux_proxy.py:74-104 | the appending fallback raises IndexError exactly on an empty file, and otherwise ends the last line and appends the block |
| ProxLinux.OverwriteSucceeds | proxverter/linux_proxy.py:32-64 | `set_env_vars` and `set_apt_vars` never raise once their file exists |
| ProxLinux.JoinStopsAtEmptyBash | proxverter/linux_proxy.py:191-198 | with an empty bash.bashrc, `join` raises IndexError there, after the environment and apt files were written and before wgetrc |
| ProxLinux.BlockKept | proxverter/linux_proxy.py:34-47 | the rewrite leaves the fallback block as it is |
| ProxLinux.OverwriteTwice | proxverter/linux_proxy.py:40-64 | on a file without proxy lines, the environment and apt writers discard it for the fallback block, and a second call keeps that block |
| ProxLinux.HttpLineQualifies | proxverter/linux_proxy.py:66-73 | the http line written to bash.bashrc or wgetrc is a proxy line for the next rewrite |
| ProxLinux.EndLineUnqualified | proxverter/linux_proxy.py:80-82 | adding the missing final newline does not create a proxy line |
| ProxLinux.RewriteLinesAppend | proxverter/linux_proxy.py:34-38 | the rewrite works line by line: it distributes over concatenation |
| ProxLinux.AppendTwice | proxverter/linux_proxy.py:74-108 | on a non-empty file without proxy lines, the bash and wget writers append the block to the file as the in-place pass wrote it back ("\n" line ends, last line ended), and a second call keeps the result |
| ProxLinux.AppendedKept | proxverter/linux_proxy.py:34-38 | the in-place pass writes a "\r"-free text without proxy lines, followed by the block, back as it is |
| ProxLinux.BlockPlain | proxverter/linux_proxy.py:40-47 | the fallback block holds no "\r" and reads back as its own lines |
| ProxLinux.BlockMarked | proxverter/linux_proxy.py:133-171 | every fallback line except the PATH line is removed by the matching `rem_*` |
| ProxLinux.BashUnmarked | proxverter/linux_proxy.py:143-151 | `rem_bash_vars` keeps every line that lacks "export" |
| ProxLinux.AptBlockRemoved | proxverter/linux_proxy.py:163-171 | `rem_apt_vars` empties the apt fallback, No-Cache line included |
| ProxLinux.EnvBlockRemoved | proxverter/linux_proxy.py:153-161 | `rem_env_vars` leaves only the PATH line of the environment fallback |
| ProxLinux.AppendedBlockRemoved | proxverter/linux_proxy.py:133-151 | the bash and wget removers drop the appended block from a text without "\r" and leave that text with its last line ended |
| ProxLinux.AptSetThenRemove | proxverter/linux_proxy.py:163-171 | set then remove on an apt.conf without proxy lines leaves it empty |
| ProxLinux.EnvSetThenRemove | proxverter/linux_proxy.py:153-161 | set then remove on /etc/environment without proxy lines leaves only the PATH line |
| ProxLinux.AppendSetThenRemove | proxverter/linux_proxy.py:133-151 | set then remove on bash.bashrc or wgetrc gives back the old text with "\n" line ends and its last line ended |
| ProxLinux.AppendToEmptyFails | proxverter/linux_proxy.py:74-104 | the bash and wget writers raise IndexError on an empty file and write nothing |
| ProxLinux.DelProxyCleans | proxverter/linux_proxy.py:200-207 | with all four files present, `del_proxy` succeeds and cleans each file with its own markers |
| ProxLinux.RemAllPresent | proxverter/linux_proxy.py:200-207 | removal passes over distinct existing files succeed and clean exactly those files |
| ProxLinux.DelProxyIdempotent | proxverter/linux_proxy.py:200-207 | a second `del_proxy` changes nothing |
| ProxLinux.DelProxyStops | proxverter/linux_proxy.py:200-207 | `del_proxy` stops with FileNotFoundError at the first missing file, in the order wget, bash, apt, environment, after cleaning each file before it with its own markers; that file and the ones after it are unchanged |
| ProxLinux.LinuxProxy.constructor | proxverter/linux_proxy.py:14-30 | the port is kept as text, and apt.conf is created when missing |
| ProxLinux.LinuxProxy.Open | proxverter/linux_proxy.py:23-30 | OSError exactly when the effective user id is not 0, before apt.conf is created |
| ProxLinux.LinuxProxy.SetVars | proxverter/linux_proxy.py:32-108 | each writer is its in-place rewrite of the lines read with universal newlines, then the fallback, as a function of the old files |
| ProxLinux.LinuxProxy.WriteFallback | proxverter/linux_proxy.py:40-108 | with no proxy line found, on the "\n"-only text the pass wrote back: overwrite, or append after ending the last line; IndexError on an empty file |
| ProxLinux.LinuxProxy.RemVars | proxverter/linux_proxy.py:133-171 | each remover keeps exactly the lines, read with universal newlines, that hold none of its markers |
| ProxLinux.LinuxProxy.Join | proxverter/linux_proxy.py:191-198 | environment, apt, bash, then wget, stopping at the first error |
| ProxLinux.LinuxProxy.DelProxy | proxverter/linux_proxy.py:200-207 | wget, bash, apt, then environment, stopping at the first error |
| WinRegistry.Stored | uniproxy/win_proxy.py:20-25 | `set_key` writes an existing value under its own type and creates a missing one as REG_SZ, changing nothing else; it raises ValueError, writing nothing, exactly when the data does not fit that type |
| WinRegistry.MissingTakesStrings | uniproxy/win_proxy.py:24-25 | a missing value is created as REG_SZ, so writing it succeeds exactly for a string |
| WinRegistry.StoredWellTyped | uniproxy/win_proxy.py:20-25 | a successful `set_key` keeps every value holding data of its own type |
| WinRegistry.StoredSame | uniproxy/win_proxy.py:20-25 | writing the data a value already holds changes nothing |
| WinRegistry.StoredKeepsTakes | uniproxy/win_proxy.py:20-25 | writing one value does not change the type another value is written under |
| WinRegistry.StoreAll | uniproxy/win_proxy.py:105-112 | a run of `set_key` calls stops at the first ValueError; the names written are the prefix of the writes before it |
| WinRegistry.StoreTwo | uniproxy/win_proxy.py:114-117 | two writes: the second happens exactly when the first succeeds |
| WinRegistry.StoreThree | uniproxy/win_proxy.py:105-110 | three writes: the last two happen only when the first succeeds |
| WinRegistry.StoredTwice | uniproxy/win_proxy.py:20-25 | when the first write succeeds, storing twice is storing the second data once: under the first type, failing exactly when that write alone fails |
| WinRegistry.GetEnableOf | uniproxy/win_proxy.py:85-89 | a missing ProxyEnable reads as disabled, and only an integer can read as enabled |
| WinRegistry.EnableReadBack | uniproxy/win_proxy.py:73-89 | `set_enable(e)` succeeds exactly when ProxyEnable exists with a number type (a missing one raises ValueError), and then `get_enable` reads back e |
| WinRegistry.StringNeverEnabled | uniproxy/win_proxy.py:85-89 | a string ProxyEnable, even "1", reads as disabled |
| WinRegistry.SplitAddress | uniproxy/win_proxy.py:59-71 | `ip, port = address.split(':')` succeeds only with exactly one ':', and the two sides rebuild the address |
| WinRegistry.SplitAddressOf | uniproxy/win_proxy.py:59-71 | an address with exactly one ':' splits into its two sides |
| WinRegistry.ParseEntry | uniproxy/win_proxy.py:61-70 | an entry with '=' is split at the first one into protocol and address; otherwise the whole entry is the address |
| WinRegistry.ParseEntryText | uniproxy/win_proxy.py:61-70 | parsing gives back a well-formed entry |
| WinRegistry.Extract | uniproxy/win_proxy.py:59-71 | `extract_proxies` raises only ValueError, and every ip and port in its dict is a ":"-free side of `split(':')` |
| WinRegistry.ExtractProxies | uniproxy/win_proxy.py:59-71 | the dict-filling loop computes the specification of `extract_proxies` |
| WinRegistry.ExtractOkIff | uniproxy/win_proxy.py:59-71 | `extract_proxies` returns a dict exactly when every ';'-separated entry is well formed |
| WinRegistry.ExtractFromSnoc | uniproxy/win_proxy.py:60-70 | entries are applied in ';' order, each on top of the dict of the earlier ones |
| WinRegistry.LaterEntryWins | uniproxy/win_proxy.py:62-65 | a later `proto=ip:port` entry overrides that protocol and leaves the others |
| WinRegistry.ExtractAddress | uniproxy/win_proxy.py:59-71 | the `ip:port` `set_proxy` stores reads back as that proxy for http, https and ftp, and nothing else |
| WinRegistry.ExtractEmpty | uniproxy/win_proxy.py:59-71 | the empty ProxyServer stored by `del_proxy` makes `extract_proxies` raise ValueError |
| WinRegistry.GetProxyOf | uniproxy/win_proxy.py:40-57 | a missing ProxyServer gives the disabled default; an integer value raises; otherwise the enabled flag is `get_enable` |
| WinRegistry.GetBypassOf | uniproxy/win_proxy.py:99-103 | a missing ProxyOverride is []; otherwise the pieces joined with ';' are the stored string |
| WinRegistry.BypassRoundTrip | uniproxy/win_proxy.py:91-103 | a non-empty list of ';'-free domains reads back unchanged |
| WinRegistry.BypassEmptyReadsBack | uniproxy/win_proxy.py:91-103 | the empty list is stored as "" and reads back as `[""]` |
| WinRegistry.JoinedReadsBack | uniproxy/win_proxy.py:114-117 | after a `join` that completes, `get_proxy` reports enabled, with this ip and the decimal port for all three protocols |
| WinRegistry.JoinedOkIff | uniproxy/win_proxy.py:114-117 | `join` completes exactly when ProxyServer takes a string and ProxyEnable exists with a number type; otherwise it raises ValueError, with ProxyServer already written when only ProxyEnable refuses |
| WinRegistry.ResetReadsBack | uniproxy/win_proxy.py:105-112 | after a `del_proxy` that completes: disabled, `get_proxy` raises ValueError, and the bypass list is `["<local>"]` |
| WinRegistry.ResetOkIff | uniproxy/win_proxy.py:105-112 | `del_proxy` completes exactly when all three values take their data; on a key without ProxyEnable it raises ValueError before writing anything |
| WinRegistry.ResetSteps | uniproxy/win_proxy.py:105-110 | `del_proxy` step by step: each write happens only when the ones before it succeeded |
| WinRegistry.ResetMap | uniproxy/win_proxy.py:105-110 | a completed `del_proxy` leaves ProxyEnable 0, ProxyServer "" and ProxyOverride "<local>" under their old types |
| WinRegistry.SameAfterReset | uniproxy/win_proxy.py:105-110 | two keys that differ only in the three proxy values, with the same types, are reset to the same key |
| WinRegistry.StoredKeepsEnable | uniproxy/win_proxy.py:20-25 | a successful write of any value other than ProxyEnable leaves `get_enable` as it was |
| WinRegistry.ResetIdempotent | uniproxy/win_proxy.py:105-110 | a second `del_proxy` leaves the registry as the first left it, and ends with the same error or none |
| WinRegistry.ResetUndoesJoin | uniproxy/win_proxy.py:105-117 | `del_proxy` after `join` fails exactly when `del_proxy` alone fails, and otherwise leaves exactly what it leaves |
| WinRegistry.StoredCommute | uniproxy/win_proxy.py:20-25 | writes to two different values fail together in either order, and when they succeed they commute |
| UniWin.ProxyEnv | uniproxy/win_proxy.py:119-129 | `set_proxy_env_var` assigns the six variables: http and https get the `http://` URL, ftp gets the `ftp://` URL |
| UniWin.Blank | uniproxy/win_proxy.py:131-140 | clearing sets each variable to "" |
| UniWin.BypassEnvOf | uniproxy/win_proxy.py:142-148 | the bypass variables hold the quoted list read from the registry, or are blank when reading it raises |
| UniWin.UnsetAfterSet | uniproxy/win_proxy.py:119-140 | unsetting the proxy variables erases every trace of setting them |
| UniWin.UnsetProxyKeepsBypass | uniproxy/win_proxy.py:131-140 | clearing the proxy variables keeps `no_proxy` and `NO_PROXY` |
| UniWin.BypassUnchangedByJoin | uniproxy/win_proxy.py:114-117 | `join` does not touch ProxyOverride, so the bypass list reads the same afterwards |
| UniWin.WinProxy.constructor | uniproxy/win_proxy.py:6-14 | the proxy, the registry key and the environment are recorded, with no writes yet |
| UniWin.WinProxy.SetKey | uniproxy/win_proxy.py:20-25 | the registry becomes `Stored(old, name, data)` and the write is logged; on a type mismatch ValueError is returned and nothing changes |
| UniWin.WinProxy.UnsetProxyEnvVar | uniproxy/win_proxy.py:131-140 | the six proxy variables become "", and the registry is untouched |
| UniWin.WinProxy.SetProxyEnvVar | uniproxy/win_proxy.py:119-129 | the proxy variables are cleared, then set to the proxy URLs |
| UniWin.WinProxy.UnsetBypassDomainsEnvVar | uniproxy/win_proxy.py:150-155 | `no_proxy` and `NO_PROXY` become "" |
| UniWin.WinProxy.SetBypassDomainsEnvVar | uniproxy/win_proxy.py:142-148 | the bypass variables get the registry's list, and the call fails exactly when reading the list fails |
| UniWin.WinProxy.SetProxy | uniproxy/win_proxy.py:27-37 | ProxyServer becomes `ip:port` unless its type refuses a string (ValueError); only when the proxy is enabled do the variables follow |
| UniWin.WinProxy.SetEnable | uniproxy/win_proxy.py:73-83 | ProxyEnable becomes 1 or 0, or ValueError when it is missing or not a number type; after a write, enabling sets the variables and disabling clears them |
| UniWin.WinProxy.SetBypassDomains | uniproxy/win_proxy.py:91-97 | ProxyOverride becomes the ';'-joined list unless its type refuses a string (ValueError); only when the proxy is enabled do the bypass variables follow |
| UniWin.WinProxy.DelProxy | uniproxy/win_proxy.py:105-112 | ProxyEnable 0, ProxyServer "" and ProxyOverride "<local>", in that order, stopping at the first ValueError; the variables are cleared once the first write succeeded |
| UniWin.WinProxy.JoinProxy | uniproxy/win_proxy.py:114-117 | ProxyServer is written before ProxyEnable becomes 1, stopping at the first ValueError; the variables end up set when both writes succeed |
| ProxWin.WinProxy.constructor | proxverter/win_proxy.py:9-17 | the proxy and the registry key are recorded, with no writes yet |
| ProxWin.WinProxy.SetKey | proxverter/win_proxy.py:23-28 | the registry becomes `Stored(old, name, data)` and the write is logged; on a type mismatch ValueError is returned and nothing changes |
| ProxWin.WinProxy.SetProxy | proxverter/win_proxy.py:30-37 | only ProxyServer is written, as `ip:port`, unless its type refuses a string (ValueError); the enabled state is unchanged |
| ProxWin.WinProxy.SetEnable | proxverter/win_proxy.py:72-80 | only ProxyEnable is written, as 1 or 0; it succeeds exactly when the value exists with a number type, and then `get_enable` reads it back |
| ProxWin.WinProxy.SetBypassDomains | proxverter/win_proxy.py:82-84 | ProxyOverride becomes the ';'-joined list unless its type refuses a string (ValueError) |
| ProxWin.WinProxy.DelProxy | proxverter/win_proxy.py:92-99 | ProxyEnable 0, ProxyServer "" and ProxyOverride "<local>", in that order, stopping at the first ValueError |
| ProxWin.WinProxy.JoinProxy | proxverter/win_proxy.py:101-104 | ProxyServer is written before ProxyEnable becomes 1, stopping at the first ValueError |
| UniMac.AfterColon | uniproxy/mac_proxy.py:197 | `split(':', 1)[1]` raises IndexError exactly when the line has no ':'; the value is stripped |
| UniMac.ParseLines | uniproxy/mac_proxy.py:194-198 | a found value is stripped, and a key that holds ':' can never raise |
| UniMac.ParseFindsFirst | uniproxy/mac_proxy.py:195-197 | the first line whose stripped text starts with the key decides |
| UniMac.ParseNone | uniproxy/mac_proxy.py:194-198 | None exactly when no stripped line starts with the key |
| UniMac.ParseValue | uniproxy/mac_proxy.py:194-198 | `parse` returns a stripped value, and never raises for a key that holds ":" |
| UniMac.Parse | uniproxy/mac_proxy.py:194-198 | the loop with its early return computes the `parse` specification |
| UniMac.ParseFirstLine | uniproxy/mac_proxy.py:195-197 | a qualifying first line gives the answer, whatever follows |
| UniMac.ParseSkipLine | uniproxy/mac_proxy.py:195-196 | a first line that does not qualify is skipped |
| UniMac.ServicesOf | uniproxy/mac_proxy.py:60-61 | the kept services are stripped, non-empty and no more than the lines |
| UniMac.ServicesAppend | uniproxy/mac_proxy.py:60-61 | the comprehension keeps the order of the lines |
| UniMac.ServicesMember | uniproxy/mac_proxy.py:60-61 | a name is listed exactly when a non-blank, non-note line strips to it; disabled '*' services included |
| UniMac.NetworkServices | uniproxy/mac_proxy.py:53-64 | `get_network_services` gives at most one service per output line, each non-empty and stripped |
| UniMac.ServicesOfListing | uniproxy/mac_proxy.py:53-62 | the note line and the empty piece after the final newline are dropped; the services are kept in order |
| UniMac.NonBlank | uniproxy/mac_proxy.py:225 | the kept lines are never blank |
| UniMac.ScannedLines | uniproxy/mac_proxy.py:224-227 | after the first line is dropped (only when at least two remain), every scanned line is non-blank |
| UniMac.FirstEnabled | uniproxy/mac_proxy.py:231-236 | a found service is stripped and does not start with '*' |
| UniMac.FirstEnabledIs | uniproxy/mac_proxy.py:231-236 | the first line not marked disabled is the answer |
| UniMac.FirstEnabledNone | uniproxy/mac_proxy.py:231-238 | nothing is found exactly when every line is marked disabled |
| UniMac.DefaultByNsSome | uniproxy/mac_proxy.py:217-238 | None exactly when every scanned line is disabled; otherwise a non-empty name not starting with '*' |
| UniMac.DefaultByNs | uniproxy/mac_proxy.py:217-241 | `get_default_network_service_by_ns` returns a non-empty stripped service not marked "*", or None |
| UniMac.DefaultNetworkServiceByNs | uniproxy/mac_proxy.py:222-238 | `pop(0)` and the scan with `break` compute the specification |
| UniMac.DefaultByNsSkipsDisabled | uniproxy/mac_proxy.py:226-236 | with the note, a disabled service and an enabled one, the enabled one is the answer |
| UniMac.DefaultByNsSingleLine | uniproxy/mac_proxy.py:226 | a one-line listing is not treated as a header: that line is the answer |
| UniMac.DefaultDevice | uniproxy/mac_proxy.py:206-212 | a found device is stripped |
| UniMac.DefaultDeviceNone | uniproxy/mac_proxy.py:206-212 | None exactly when `route` reports the socket failure or no stripped line starts with `interface:` |
| UniMac.DefaultNetworkDevice | uniproxy/mac_proxy.py:205-212 | the failure test and the scan compute the specification |
| UniMac.ScanBlockLast | uniproxy/mac_proxy.py:256-260 | within a block, the last `Hardware Port:` or `Device:` line wins |
| UniMac.PortOfFirst | uniproxy/mac_proxy.py:252-262 | the first block whose device matches decides, even when it names no port |
| UniMac.PortOfMissing | uniproxy/mac_proxy.py:252-262 | no matching block gives None |
| UniMac.ScanPortAndDevice | uniproxy/mac_proxy.py:257-260 | `Hardware Port: p` then `Device: d` name both, with the fixed offsets 15 and 8 |
| UniMac.PortOf | uniproxy/mac_proxy.py:251-262 | a hardware port found for the device is the one named by a block whose `Device:` is that device |
| UniMac.ServiceNameByDevice | uniproxy/mac_proxy.py:243-264 | `get_network_service_name_by_network_device` answers only when `networksetup` returned 0, and then with the hardware port of a block whose `Device:` is the device |
| UniMac.NetworkServiceNameByNetworkDevice | uniproxy/mac_proxy.py:248-262 | the nested loops compute the block-by-block specification; a failing command gives None |
| UniMac.ScanPortBlock | uniproxy/mac_proxy.py:253-260 | the inner loop over one block's lines leaves the last `Hardware Port:` and `Device:` values, stripped, as the block's entry |
| UniMac.DefaultService | uniproxy/mac_proxy.py:266-281 | `get_default_network_service` raises only RuntimeError; offline it returns an enabled, non-empty, stripped service; with a device it answers only when `networksetup` returned 0 |
| UniMac.RoutedIgnoresServiceList | uniproxy/mac_proxy.py:272-281 | once a device is found, the service list plays no part, and it fails exactly when the device has no port |
| UniMac.OfflineFallsBack | uniproxy/mac_proxy.py:272-274 | offline, the first enabled listed service is the default |
| UniMac.OfflineAllDisabled | uniproxy/mac_proxy.py:272-279 | offline with every service disabled raises RuntimeError |
| UniMac.EnabledReadBack | uniproxy/mac_proxy.py:156 | the enabled flag reads back from `-getwebproxy` output |
| UniMac.ServerReadBack | uniproxy/mac_proxy.py:157 | the server reads back |
| UniMac.PortReadBack | uniproxy/mac_proxy.py:158 | the port reads back |
| UniMac.ReadProxy | uniproxy/mac_proxy.py:151-183 | `get_http_proxy`/`get_https_proxy` report the server and the port stripped, when present |
| UniMac.ReadProxyRendered | uniproxy/mac_proxy.py:151-164 | a printable setting reads back exactly as it is |
| UniMac.ReadProxyEmpty | uniproxy/mac_proxy.py:153-164 | empty output reads as disabled, with neither server nor port |
| UniMac.ProxyOf | uniproxy/mac_proxy.py:151-183 | enabled iff the service is known and enabled; a printable setting reads back; an unknown service is (false, None, None) |
| UniMac.EnableOf | uniproxy/mac_proxy.py:185-192 | only the default service counts, and it is on iff both its proxies are; RuntimeError iff there is no default service |
| UniMac.ReportOf | uniproxy/mac_proxy.py:283-300 | the default service's two settings, enabled as `get_enable` says; RuntimeError iff there is no default service |
| UniMac.SetThenGet | uniproxy/mac_proxy.py:90-104 | after `set_http_proxy`, `get_http_proxy` gives the new server and port and the old enabled flag; other services are unchanged |
| UniMac.SetKeepsEnable | uniproxy/mac_proxy.py:185-192 | pointing both proxies elsewhere does not change `get_enable` |
| UniMac.MacProxy.constructor | uniproxy/mac_proxy.py:12-14 | the proxy and the command state are recorded |
| UniMac.MacProxy.GetEnable | uniproxy/mac_proxy.py:185-192 | the result is `EnableOf` on the current settings |
| UniMac.MacProxy.SetHttpProxy | uniproxy/mac_proxy.py:90-104 | an unknown service raises RuntimeError and changes nothing; otherwise server and port change, the enabled flag is kept, and nothing else changes |
| UniMac.MacProxy.SetHttpsProxy | uniproxy/mac_proxy.py:106-119 | the same for the secure web proxy |

## Left out

- Processes and foreign calls are not modelled: `subprocess` (`networksetup`, `route`, `gsettings`, `kwriteconfig`/`kreadconfig`, `systemctl`, `setx`, `which`), `winreg` handles, and `InternetSetOptionW`. Command outputs are parameters, and their effects are updates to map fields. `refresh` and `refresh_env_var` have no visible effect here, so they are left out.
- The `which` probes of `ShellEnvVar.__init__` (`command_exists`) become the `installed` set of shells.
- Paths (`xdg_config_home`, `expanduser`) are opaque keys. A file that does not exist is a key missing from the map.
- `set_gsettings` and `rem_gsettings` of proxverter/linux_proxy.py are not modelled. They are multiprocessing, setuid/setgid and per-user plumbing around `gsettings` calls.
- `ast.literal_eval` is modelled only on the quoted-list subset that `format_domains` produces. Any other text is `None`, standing for the exception.
- Python regular expressions are not modelled in general. Each pattern the sources use is written as a string predicate:
  - `export VAR\=.*` and `set -x VAR .*` under `re.match` become prefix tests;
  - the greedy `X(.*)_proxy=(.*)` rewrite becomes the first occurrence of the head and the last occurrence of the middle;
  - `extract_ip_and_port`'s pattern becomes a parser of runs.
- `print` of errors from `subprocess.CalledProcessError` in `del_proxy` and `refresh_env_var` is not modelled. The model's commands do not fail.
- `UniMac.MacProxy.SetHttpProxy`: it does not model what `networksetup -getwebproxy` prints for an unknown service. That output is taken to read as disabled, and `-setwebproxy` for an unknown service to fail with RuntimeError.
- `UniMac.MacProxy.SetHttpsProxy`: the same assumption, for `-getsecurewebproxy` and `-setsecurewebproxy`.
- `UniLinux.LinuxProxy.JoinProxy`: states that both drop-ins exist and what `01-proxy.conf` holds. The bypass drop-in's content, and the error when the bypass list cannot be read, are stated by `UniLinux.LinuxProxy.SetEnable`, which it calls.
- The `mac_proxy.py` operations outside the command parsers and the proxy settings are not modelled: `set_proxy`, `del_proxy`, `join`, `set_enable`, and `set_bypass_domains`/`get_bypass_domains`. They are sequences of `networksetup` calls followed by the `ShellEnvVar` operations, which are modelled in `UniShell`.
- `proxverter/mac_proxy.py` is an empty stub.
- `proxverter/certgen.py` (certificate generation), `sysprox.py`, the package `__init__` dispatch and `proxverter/test/test.py` are not part of this model.
- Integer ports are unbounded naturals, and no operation wraps or truncates them. The one bound is GNOME's: `gsettings set` of a port past 65535 fails silently and the old port stays (`GnomePortMax`, `SetProxyGnomeBigPort`). KDE, the drop-ins, the shell files and the registry store any port as text.
- Files are read as text that has already been decoded. A decoding error on read, and the encoding used on write, are not modelled.
- ConcatReadLines, ReadLinesAppend, ReadLinesGlued and the other lemmas about `ReadLines` describe the split of a text already read. The files themselves pass through `Translate` first (`FileLines`). Lemmas that promise a file comes back unchanged (RemoveMatchingTextNone, EnableDisableRoundTrip, DisableAfterEnableFiles, RestoredPlain) promise it only for files without "\r"; otherwise the file comes back with "\n" line ends.
- UnsetAfterAppendFiles, AppendTwice, AppendSetThenRemove and FallbackAfterPass state their results with the line ends of the file turned into "\n"; that is what the source writes back.
- WriteFallback: it requires the "\r"-free text that the in-place pass has just written. SetVars, its only caller, always provides that text.
- AppendedBlockRemoved: it is stated for a text without "\r". AppendSetThenRemove covers any file, with its line ends translated.
- Stored: it models the ValueError for data that does not fit REG_SZ/REG_EXPAND_SZ (strings) or REG_DWORD/REG_QWORD (integers). It does not model OverflowError for an integer beyond the value's width, or values of other types (REG_BINARY, REG_MULTI_SZ), which the proxy values never have.
- GnomeSetString: a value that holds a quote is parsed by `gsettings set` as GVariant text. The model does not parse it, and leaves the key unchanged. The ip addresses and modes the backend writes hold no quote.
- GnomeSetList: `format_domains` output is parsed as a GVariant string list only when no domain holds a quote or a backslash. Other text leaves the key unchanged, where `gsettings` would parse the escapes or fail.
- GPrintable: `g_unichar_isprint` is modelled exactly on the ASCII range and the C1 controls. Every character from U+00A0 up is treated as printable, although GLib escapes unassigned and format characters.
- IsDigit: the ASCII digits only. So ExtractIpAndPort, ExtractIpAndPortShape and ExtractIpAndPortParses do not model that Python's `\d` in `extract_ip_and_port` also matches non-ASCII decimal digits.
- Lower: it is exact where the result can hold an ASCII letter (A-Z, the Kelvin sign and U+0130). Other characters are kept as they are. This is enough for the comparisons with "gnome" and "kde" (DetectDesktopIff), but it is not a general `str.lower()`.
- Rewrite: the ip address and port are inserted verbatim. In proxverter/linux_proxy.py they are spliced into a `re.sub` replacement template, where a backslash would be read as an escape or make `re.sub` raise. Dotted-decimal addresses and decimal ports hold none.
- GetEnableAsWritten: this is the source's GNOME `get_enable`, which is never true (see Findings). The class `LinuxProxy` uses the corrected `GetEnable`. So SetProxy and SetBypassDomains rewrite the drop-ins on GNOME once the mode is `'manual'`; the source as written never does.

## Findings

| source | as written | input that shows it | evidently intended | confidence | as-written member | corrected member |
|---|---|---|---|---|---|---|
| uniproxy/linux_proxy.py:92-93 | GNOME `get_enable` compares the stripped `gsettings get … mode` output with `manual`, but gsettings prints the string as `'manual'`, in quotes | any GNOME session, for instance right after `set_enable(True)`: the output is `'manual'`, so `get_enable` is False; then `set_proxy` and `set_bypass_domains` never rewrite the drop-ins | compare with `'manual'`, the printed form of the stored mode | high; not executed | UniLinux.DesktopSettings.GetEnableAsWritten, shown by UniLinux.GnomeEnableAsWrittenNeverTrue | UniLinux.DesktopSettings.GetEnable, proved by UniLinux.SetEnableReadsBack |
