# A model of the ssh client's start-up decisions, logging and allocation guards

This project models, in Dafny, the decision logic of an OpenSSH-derived
client front end (`ssh.c`), its logging module (`log.c`) and its checked
allocation wrappers (`xmalloc.c`). What the code decides is modelled as
values: option flags and settings, the log level and facility, the chosen
escape character, the forwarding failure policy, the session window, and the
exit status a multiplexing client returns. Proofs are stated over those
values. What the code does to the world is a parameter or is left out:
sockets, the channel layer, syslog, `getopt` and the configuration parser
are examples.

Modules, one concern per file:

- `Wrappers` (`wrappers.dfy`): `Option` and `Min`.
- `CStrings` (`cstrings.dfy`): NUL-terminated strings, `strcasecmp`, `strchr` and `strrchr`.
- `XMalloc` (`xmalloc.dfy`): the `xmalloc` family. A `size_t` is 64 bits wide and its multiplication wraps.
- `Log` (`log.dfy`): the name tables, the mapping from level to prefix and priority, and a `Logger` class holding log.c's statics.
- `ClientOptions` (`clientoptions.dfy`): the option loop of `main` (two passes because of `goto again`), `user@host`, the command join, the tty decision and the mux dispatch.
- `Forwarding` (`forwarding.dfy`): `ssh_init_forwarding`, plus a `ReplyTracker` class for the global-request reply counter.
- `Session` (`session.dfy`): the session channel plan of `ssh_session2`/`ssh_session2_open`.
- `ControlClient` (`controlclient.dfy`): `env_permitted` and `control_client`. This covers the hello exchange, the environment count and emit loops, and the loop that reads the exit status into an 8-byte buffer.

Fatal exits are explicit outcomes. `fatal(...)` becomes a `Fatal` value; `usage()` and `exit(n)` become `Exit(n)`. Calls into code outside the model are parameters:

- the `getopt` result;
- `parse_forward`/`a2port`/`a2tun`/`process_config_line` acceptance;
- `match_pattern`;
- `percent_expand`;
- `strnvis`;
- `malloc` success.

## Model

| member | source | states |
|---|---|---|
| CStrings.ByteAt | ssh.c:421-422 | reading a C string at index i no greater than its length gives a byte in 1..255 before the end and 0 exactly at the terminator |
| CStrings.FirstIndex | ssh.c:1419 | `strchr`: None iff the character is absent; otherwise the index of its first occurrence |
| CStrings.ToLower | log.c:139 | C-locale `tolower` as `strcasecmp` applies it; its two ensures only restate the A-Z to a-z mapping that defines it, and its properties are carried by CaseEqualSymmetric and CaseEqualTransitive |
| CStrings.CaseEqual | log.c:126 | defines `strcasecmp(a, b) == 0`: equal lengths and equal characters after ToLower; characterised by CaseEqualSymmetric, CaseEqualTransitive and Log.LookupIgnoresCase |
| CStrings.LastIndex | ssh.c:572 | `strrchr`: None iff the character is absent; otherwise the index of its last occurrence |
| CStrings.CaseEqualSymmetric | log.c:126 | `strcasecmp` equality is symmetric |
| CStrings.CaseEqualTransitive | log.c:139 | `strcasecmp` equality is transitive |
| XMalloc.DivisionOverflowTest | xmalloc.c:62 | for `n > 0`, the test `SIZE_T_MAX / n < s` holds exactly when `n * s` exceeds `SIZE_T_MAX` |
| XMalloc.WrapExact | xmalloc.c:82 | the wrapped product equals the true product whenever the true one fits in a `size_t` |
| XMalloc.WrappedNonzeroFactors | xmalloc.c:84-86 | a nonzero wrapped product has two nonzero factors, so the division at line 86 is defined |
| XMalloc.CallocGuard | xmalloc.c:60-63 | `xcalloc` passes its guards iff both counts are positive and the product fits; a zero count gives the "zero size" fatal |
| XMalloc.ReallocGuard | xmalloc.c:82-87 | `xrealloc` passes iff `0 < nmemb*size <= SIZE_T_MAX`; "zero size" iff the wrapped product is 0 |
| XMalloc.WrapToZeroIsReportedAsZeroSize | xmalloc.c:82-85 | 2^32 × 2^32 overflows, yet `xrealloc` reports it as a zero size because the product wrapped to 0 |
| XMalloc.XMalloc | xmalloc.c:35-49 | gives a fresh block of exactly `size` iff size > 0 and malloc succeeds; size 0 is the "zero size" fatal |
| XMalloc.XCalloc | xmalloc.c:55-72 | gives a fresh block of `nmemb*size` zero bytes iff the guards pass and calloc succeeds |
| XMalloc.XRealloc | xmalloc.c:78-102 | gives a fresh block of `nmemb*size` iff the guards pass and allocation succeeds; it keeps the old contents up to the shorter length |
| XMalloc.XFree | xmalloc.c:108-117 | passes iff the pointer is not NULL |
| XMalloc.StrlCpy | xmalloc.c:134 | returns the length of `src`, copies the first min(length, n-1) characters and NUL-terminates when `n > 0`; the rest of `dst` is unchanged |
| XMalloc.XStrdup | xmalloc.c:123-136 | gives a fresh block of one more than the length of `str` holding the string and then NUL iff malloc succeeds |
| XMalloc.XAsprintf | xmalloc.c:139-152 | succeeds iff vasprintf's count is non-negative and it set the pointer; it then returns that count (the text itself stays in `*ret`, which the model does not carry) |
| Log.Lookup | log.c:137-141 | returns the value of the first row whose name matches case-insensitively, or NOT_SET when no row matches |
| Log.LogLevelNumber | log.c:132-142 | the result is NOT_SET iff the name is NULL or no level is called that; otherwise it is a valid level |
| Log.LogFacilityNumber | log.c:119-129 | the result is NOT_SET iff the name is NULL or no facility is called that; otherwise it is a valid facility |
| Log.TableValues | log.c:101-116 | a lookup in a table of valid values returns a valid value or NOT_SET |
| Log.LookupAt | log.c:137-140 | when row k is the first match, the lookup returns row k's value |
| Log.LookupIgnoresCase | log.c:139 | two names that are `strcasecmp`-equal look up the same value |
| Log.RowRoundTrip | log.c:137-141 | in a table of case-distinct names, any spelling of row k's name looks up row k's value |
| Log.CheckDistinct | log.c:101-116 | names of at least two characters drawn from A-Z and 0-9 are pairwise distinct ignoring case when any two differ in length or at index 0, index 1 or the last index |
| Log.LevelNamesDistinct | log.c:101-116 | the nine level names are pairwise different ignoring case |
| Log.FacilityNamesDistinct | log.c:79-98 | the twelve facility names are pairwise different ignoring case |
| Log.LevelNamesRoundTrip | log.c:101-116 | any case variant of a level's name maps back to that level |
| Log.FacilityNamesRoundTrip | log.c:79-98 | any case variant of a facility's name maps back to that facility |
| Log.DebugAliases | log.c:111-112 | "DEBUG" and "DEBUG1" both name DEBUG1 |
| Log.LowerCaseLevelName | log.c:139 | "debug3" in lower case names DEBUG3 |
| Log.FacilityCode | log.c:290-328 | every facility maps to one of the syslog facility codes |
| Log.FacilityCodeInjective | log.c:290-328 | different facilities get different syslog codes |
| Log.Emits | log.c:366-367 | defines the threshold: a message is emitted iff its level is at most the configured one; used by Log.Logger.DoLog and ClientOptions.VerboseEnablesDebug |
| Log.Prefix | log.c:369-402 | there is no prefix iff the level is INFO or VERBOSE, or FATAL or ERROR on stderr; the prefix is "internal error" iff the level is outside FATAL..DEBUG3 |
| Log.Priority | log.c:369-402 | the priority is LOG_ERR iff the level is ERROR or outside the known range |
| Log.PrefixStderrOnlyDropsFatalError | log.c:370-379 | the output channel changes the prefix only for FATAL and ERROR |
| Log.PrefixNamesItsLevel | log.c:386-397 | every prefix other than "internal error" is a level name that maps back to the level printed |
| Log.InternalErrorIsNoLevel | log.c:398-399 | "internal error" is not a level name |
| Log.Truncate | log.c:404 | snprintf into a buffer of n+1 keeps a prefix of length min(length of s, n) |
| Log.Formatted | log.c:403-410 | the formatted and encoded message always fits in MSGBUFSIZ-1 characters; the encoder is told which channel it encodes for (LOG_STDERR_VIS or LOG_SYSLOG_VIS) |
| Log.StderrLine | log.c:411-413 | the stderr line fits in the buffer; it is the message followed by CR LF iff there is room, and otherwise it is cut to 1023 characters |
| Log.Logger.constructor | log.c:67-70 | initial log level is INFO, output goes to stderr, facility is LOG_AUTH and there is no argv0 |
| Log.Logger.Init | log.c:261-348 | the level is checked before the facility. The call succeeds iff the level is valid and either stderr is chosen or the facility is valid. The facility code is replaced only on that path. A valid level going to syslog with an unknown facility reports that facility |
| Log.Logger.DoLog | log.c:353-425 | a message above the threshold changes nothing. Otherwise exactly one stderr line or one syslog record (the text cut to 500 characters) is appended. errno is restored, and the level and facility invariant is kept |
| ClientOptions.CaretReadsAsWritten | ssh.c:421-423 | defines the byte positions read by the caret test in C's evaluation order; characterised by CaretTestOverreads |
| ClientOptions.EscapeAsWritten | ssh.c:420-434 | defines `-e` decoded in the source's order of tests, including the byte past the terminator; characterised by EscapeAsWrittenAgrees |
| ClientOptions.CaretReads | ssh.c:421-423 | defines the positions read when the second byte is tested before the third; characterised by CaretReadsInBounds |
| ClientOptions.DecodeEscape | ssh.c:420-434 | `^X` gives X mod 32, a single character gives itself, and "none" gives NONE; any other argument is rejected |
| ClientOptions.CaretTestOverreads | ssh.c:421-423 | the test as written reads past the terminator iff the argument is exactly "^" |
| ClientOptions.EscapeAsWrittenAgrees | ssh.c:420-434 | the order of tests as written decodes every argument exactly as DecodeEscape does |
| ClientOptions.CaretReadsInBounds | ssh.c:421-423 | with the length tested first, no read goes past the terminator |
| ClientOptions.FlagStep | ssh.c:322-552 | defines the flag letters -n, -f, -t, -N, -T and -s on the flag word; characterised by FlagStepKeepsFlags, TtyTwiceForces and NoTtyWins |
| ClientOptions.Verbose | ssh.c:392-407 | defines one -v; characterised by VerboseStep, MoreVerbose and VerboseCount |
| ClientOptions.Step | ssh.c:309-565 | defines one pass through the switch, with any other letter giving usage() (exit 255); characterised by StepKeepsFlags, StepKeepsLevel and MuxSelector |
| ClientOptions.RunOptions | ssh.c:307-566 | defines the getopt loop as a fold of Step that stops at the first non-Continue status; ParseOptions is proved equal to it, and RunKeepsInvariants, VerboseCount and MasterToggles characterise it |
| ClientOptions.OptionStep | ssh.c:309-565 | options that set settings leave the flag word untouched |
| ClientOptions.ParseOptions | ssh.c:307-566 | the getopt loop ends in the state and status that RunOptions specifies |
| ClientOptions.FlagStepKeepsFlags | ssh.c:325-537 | each flag letter keeps the flag implications: -N implies no tty, -f implies stdin from /dev/null, and forced tty implies tty |
| ClientOptions.StepKeepsFlags | ssh.c:307-565 | every option keeps the flag implications |
| ClientOptions.StepKeepsLevel | ssh.c:392-407 | every option leaves the log level NOT_SET or a valid level |
| ClientOptions.RunKeepsInvariants | ssh.c:307-566 | the whole option loop keeps both invariants |
| ClientOptions.VerboseStep | ssh.c:392-401 | the first -v sets debug and DEBUG1; each later one raises the level by one, up to DEBUG3 |
| ClientOptions.MoreVerbose | ssh.c:396-399 | k more -v options after debug is on raise the level by k, capped at DEBUG3 |
| ClientOptions.VerboseCount | ssh.c:392-401 | k ≥ 1 times -v sets the level to min(DEBUG1+k-1, DEBUG3) |
| ClientOptions.VerboseEnablesDebug | ssh.c:392-401 | after k times -v, messages at DEBUGn are emitted iff n ≤ k |
| ClientOptions.MasterToggles | ssh.c:466-471 | for k ≥ 1 and any starting value, k times -M gives ASK when the parity of k (odd) matches whether the start is YES, and YES otherwise; from a start other than YES, odd k gives YES and even k gives ASK |
| ClientOptions.MuxSelector | ssh.c:342-349 | -O is accepted iff its argument is "check" or "exit", which select the alive check or terminate |
| ClientOptions.TtyTwiceForces | ssh.c:387-391 | -t given twice requests a tty and forces it |
| ClientOptions.SplitTarget | ssh.c:571-581 | defines the `user@host` split at the last '@'; characterised by SplitTargetSpec |
| ClientOptions.SplitTargetSpec | ssh.c:571-581 | splits at the last '@'. It fails iff the word starts with '@' and has no other '@'. Without '@' the word is the host. The split re-joins to the word |
| ClientOptions.ParseCommandLine | ssh.c:304-591 | if parsing continues, a host was found |
| ClientOptions.CommandLineLevelIsValid | ssh.c:663-664 | after a successful parse, the level passed to log_init is valid and the flag implications hold |
| ClientOptions.InitialLogLevel | ssh.c:663-664 | NOT_SET gives INFO; any other level is kept |
| ClientOptions.LastSpace | ssh.c:631-636 | the last space of `a + " " + b` sits after `a` when `b` has no space |
| ClientOptions.Join | ssh.c:631-636 | defines the command buffer: the words separated by single spaces; FinishCommandLine is proved equal to it, and SplitJoin and JoinEmpty characterise it |
| ClientOptions.SplitJoin | ssh.c:631-636 | joining words that contain no space with single spaces can be undone |
| ClientOptions.JoinEmpty | ssh.c:621-641 | the joined command is empty iff there are no words or only one empty word |
| ClientOptions.TtyAllocated | ssh.c:644-657 | defines the tty decision: requested or implied by an empty command, then cleared by -N/-T, then cleared when stdin is not a tty unless forced; characterised by NoTtyWins and Session.NoShellSession |
| ClientOptions.FinishCommandLine | ssh.c:621-657 | the command is the words joined. The result is exit 255 iff -s comes with no command, and fatal iff -f comes with no command and no -N. The tty and its warning follow TtyAllocated |
| ClientOptions.NoTtyWins | ssh.c:651-657 | -N or -T means no tty is allocated, even with -t -t |
| ClientOptions.DispatchMux | ssh.c:732-751 | a path of "none" (or no path) with a mux command is fatal, and a real path runs control_client on the expanded path |
| Forwarding.CountTrue | ssh.c:923-937 | counts the successes: the count is all of them iff all succeed and 0 iff none does |
| Forwarding.FirstFailure | ssh.c:945-960 | the index of the first negative return, or None when there is none |
| Forwarding.RemoteWarnings | ssh.c:952-962 | defines the warnings of the remote-forwarding loop without ExitOnForwardFailure; characterised by RemoteWarningsSpec |
| Forwarding.RemoteWarningsSpec | ssh.c:945-964 | there is one warning per failed remote request, in order |
| Forwarding.Policy | ssh.c:917-978 | defines ssh_init_forwarding's outcome in closed form; InitForwarding is proved equal to it, and PolicyLocal and PolicyFatalOnlyUnderExit characterise it |
| Forwarding.PolicyFatalOnlyUnderExit | ssh.c:939-976 | forwarding set-up is fatal only under ExitOnForwardFailure |
| Forwarding.PolicyLocal | ssh.c:939-942 | fatal iff there is at least one listener, one of them failed, and ExitOnForwardFailure is set; the local-forwarding error is logged iff all failed and the option is off |
| Forwarding.CountListeners | ssh.c:923-937 | the loop counts the listeners that succeeded |
| Forwarding.RequestRemotes | ssh.c:945-964 | stops after the first failure iff ExitOnForwardFailure is set; otherwise it issues every request and warns for each failure |
| Forwarding.InitForwarding | ssh.c:917-978 | the whole procedure yields the report that Policy specifies |
| Forwarding.ReplyFor | ssh.c:1156-1178 | ignored iff the id is past the table. A failure is fatal iff ExitOnForwardFailure is set. The port blamed is the one at the id |
| Forwarding.Replies | ssh.c:1156-1178 | there is one action per reply |
| Forwarding.ReplyAt | ssh.c:1160-1162 | the k-th reply is attributed to request k |
| Forwarding.AttributionByOrder | ssh.c:1160 | the blame for reply k depends only on the k-th message type |
| Forwarding.OutOfOrderReplyBlamesWrongPort | ssh.c:1160-1171 | success then failure blames the second port, whichever request actually failed |
| Forwarding.ReplyTracker.constructor | ssh.c:183 | the counter starts at 0 |
| Forwarding.ReplyTracker.OnReply | ssh.c:1156-1178 | each reply advances the counter by one and is handled with ReplyFor at the old counter |
| Forwarding.ReplyTracker.OnReplies | ssh.c:1156-1178 | processes replies until the first fatal failure; the actions match Replies and the counter advances by their number |
| Session.ShiftRight1 | ssh.c:1292-1293 | `x >>= 1` on a non-negative `int` (its 32-bit pattern, shifted logically, which matches C only while the sign bit is clear, as for every caller): twice the result plus the low bit is x, and the result has its sign bit clear |
| Session.Session2Plan | ssh.c:1290-1337 | window and packet are non-negative `int`s. A channel is opened iff there is a shell or a buggy server; with a tty the window and packet are halved and the escape character is used, and without one it is NONE |
| Session.NoShellSession | ssh.c:1318-1337 | with -N the loop has no escape character, and any channel has no callback and the full window |
| ControlClient.EnvName | ssh.c:1419-1420 | the name is the text before the first '='; there is none iff there is no '=' or the name would be empty |
| ControlClient.EnvVerdictOf | ssh.c:1415-1431 | an entry is permitted iff it has a name shorter than the buffer and that name matches a SendEnv pattern; a name that is too long is fatal |
| ControlClient.EnvPermitted | ssh.c:1415-1431 | the pattern search returns the verdict EnvVerdictOf specifies |
| ControlClient.EffectiveCommand | ssh.c:1444-1445 | an unset mux command becomes open; a given one is kept |
| ControlClient.TriesMaster | ssh.c:1447-1456 | defines whether control_client contacts an existing master for a ControlMaster setting; characterised by MasterNeverClient |
| ControlClient.MasterNeverClient | ssh.c:1447-1456 | a single -M makes the session a master, which never acts as a mux client |
| ControlClient.OnConnectFailure | ssh.c:1470-1483 | a connect failure is fatal iff the command is not open; for open, a missing socket falls back to a direct connection |
| ControlClient.MuxFlags | ssh.c:1496-1504 | defines the request flag word from the tty, subsystem, X11 and agent options; characterised by MuxFlagsDecode |
| ControlClient.MuxFlagsDecode | ssh.c:1496-1504 | each request bit is set iff its option is on |
| ControlClient.OnHello | ssh.c:1516-1539 | the session continues to open iff the version and the permission match; check and terminate exit 0; a bad version or a refusal is fatal |
| ControlClient.PermittedVars | ssh.c:1550-1561 | defines the variables sent: the permitted environment entries; EmitPermitted is proved equal to it, and PermittedVarsSpec and PermittedVarsCounts characterise it |
| ControlClient.PermittedVarsSpec | ssh.c:1550-1561 | the j-th variable sent is `environ[idx[j]]` for a strictly increasing `idx` that contains every permitted position and no other, so the order is environment order with one entry per occurrence |
| ControlClient.PermittedVarsCounts | ssh.c:1557-1561 | each variable is sent as many times as it occurs in the environment when permitted, and never otherwise |
| ControlClient.CountPermitted | ssh.c:1550-1553 | the counting loop counts the permitted variables, or stops fatally on a name that is too long |
| ControlClient.EmitPermitted | ssh.c:1557-1561 | the sending loop sends exactly the permitted variables and counts down to 0 |
| ControlClient.PermittedVarsSplit | ssh.c:1557-1561 | the permitted list of a longer environment extends that of its prefix |
| ControlClient.EnvRequest | ssh.c:1546-1562 | no patterns or no environment sends nothing. Otherwise the count is sent, then the permitted variables in order, or the name that is too long is fatal |
| ControlClient.ReadLoop | ssh.c:1594-1607 | the buffer never holds more than 8 bytes and keeps what it already held |
| ControlClient.ReadExitStatus | ssh.c:1593-1607 | the read loop over the 8-byte array ends as ReadLoop specifies |
| ControlClient.HostInt | ssh.c:1621 | four bytes read as an int in host order (taken as little-endian) give a value in the 32-bit signed range |
| ControlClient.HostBytes | ssh.c:1621 | the int's bytes are four |
| ControlClient.HostIntRoundTrip | ssh.c:1621 | reading back an int's host bytes gives the int |
| ControlClient.ExitDecision | ssh.c:1609-1626 | more than 4 bytes or a read error is fatal. Fewer than 4 bytes, or a signal, gives 255. Exactly 4 bytes give the status the master sent |
| ControlClient.ExitByte | ssh.c:1626 | the status reported to the shell is a byte, and it is the value itself when the value fits |
| ControlClient.ChunksArrive | ssh.c:1594-1607 | data arriving in any chunking fills the buffer as the flattened data would, when fewer than EXITVAL_SIZE bytes arrive in total |
| ControlClient.ExitStatusRoundTrip | ssh.c:1594-1626 | however the master's 4 bytes are chunked, the client exits with the master's status |
| ControlClient.SignalBeforeStatus | ssh.c:1598-1615 | a terminating signal before any data gives exit 255 |
| ControlClient.ReceivedBounded | ssh.c:1594-1607 | whatever arrives, the client never stores more than 8 bytes |

## Left out

- The transport, the whole SSH protocol, the channel layer and the client loop: they are separate subsystems, and only the values these functions pass to them are modelled.
- `getopt`: its result (options and operands) is a parameter. The second pass after `goto again` is modelled by running the loop again on the operands after the host.
- Foreign calls are parameters or predicates. These include parse_forward, a2port, a2tun, process_config_line (`-o`), match_pattern, percent_expand, strnvis, vsnprintf, syslog/openlog, socket I/O, and malloc/calloc/realloc/vasprintf success.
- Options with no modelled effect: -1, -2, -4, -6, -P, -k, -K, -b, -F and -I are accepted and change nothing. -c, -m, -p and -o are only accepted or rejected (a message, then exit 255) by a parser parameter. The values -c, -m and -p store belong to the transport. `-o` runs process_config_line, which can also set fields this model carries (LogLevel, EscapeChar, ControlMaster, ControlPath, User); the model's options record does not reflect those writes.
- readconf.c, with fill_default_options and the configuration files, is not part of this model. The `options` record holds only the fields this code reads. A second log_init after configuration is not modelled.
- Constants from headers that are not part of this model are written in the model with their usual values. These are log.h, syslog.h, ssh.h, clientloop.h and readconf.h (LOG_* priorities and facilities, the message numbers of section 4 of RFC 4254, SSHMUX_*, SSH_ESCAPECHAR_NONE). CHAN_SES_WINDOW_DEFAULT and CHAN_SES_PACKET_DEFAULT are parameters.
- All `_TOH_` branches, including the debug output of the `xmalloc` family: they are platform-specific.
- Diagnostic text only: debug, verbose and error messages, the "Shared connection closed" message, log_init's message, and the text of `fatal` messages other than the allocation guards.
- ControlClient.HostInt: the host byte order is taken to be little-endian. Master and client run on the same host, so the exit-status round trip holds for either order. The model does not cover the big-endian case.
- Log.Formatted: the prefix is joined to the already formatted text and cut once. The source adds the prefix to the format string in a 1024 buffer before formatting, so with a format string near 1023 characters the two can differ.
- Forwarding.ReplyTracker.OnReply: the counter is a `nat`; the source's `int` wrap after 2^31 replies is not modelled.
- ControlClient.ReadExitStatus: only `exitval[0]` is set to 0 in the source. The model's buffer starts all zero, which does not matter because only bytes actually read are returned.
- ControlClient.ExitByte: the model takes `exit(v)` to make the low 8 bits, `v mod 256`, visible to the parent. The wait status itself is an operating-system matter outside the source.
- XMalloc.XRealloc: the block is modelled as freshly allocated. Whether realloc returns the same address is not modelled.

## Findings

| source | as written | input that shows it | evidently intended | confidence | as-written member | corrected member |
|---|---|---|---|---|---|---|
| ssh.c:421-423 | `-e` tests `optarg[0] == '^'`, then `optarg[2] == 0`, then `optarg[1] >= 64`; it reads `optarg[2]` before knowing that the string has two characters | `ssh -e '^' host`: `optarg[1]` is the terminator, so `optarg[2]` is one byte past the end of the argument | test `optarg[1] != 0` (the length) before `optarg[2]`; the decoded result does not change, because `optarg[1] == 0` fails the `>= 64` test | not executed | ClientOptions.CaretTestOverreads | ClientOptions.CaretReadsInBounds |
