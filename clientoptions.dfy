/**
 * The ssh client's command line (ssh.c `main`): the getopt loop over the
 * option letters, the `user@host` operand, the second option pass after the
 * host, the remote command and the pseudo-tty decision, the level handed to
 * `log_init`, and the choice between a control client and a fresh connection.
 */
module ClientOptions {
  import opened Wrappers
  import opened CStrings
  import Log

  /** SSH_ESCAPECHAR_NONE (ssh.h). */
  const SSH_ESCAPECHAR_NONE: int := -2
  /** SSH_MAX_IDENTITY_FILES (readconf.h). */
  const SSH_MAX_IDENTITY_FILES: nat := 100

  /** An int option that `initialize_options` leaves at -1 until it is set. */
  datatype Setting = Unset | Set(on: bool)

  /** `options.control_master`: SSHCTL_MASTER_* or still unset. */
  datatype ControlMaster = MasterUnset | MasterNo | MasterYes | MasterAsk | MasterAuto | MasterAutoAsk

  /** `mux_command`: 0 until -O picks one; `control_client` turns 0 into OPEN. */
  datatype MuxCommand = MuxUnset | MuxOpen | MuxAliveCheck | MuxTerminate

  /** The parts of `Options` the command line sets. */
  datatype Options = Options(
    logLevel: int,
    escapeChar: int,
    controlMaster: ControlMaster,
    controlPath: Option<CString>,
    user: Option<CString>,
    forwardX11: Setting,
    forwardX11Trusted: Setting,
    forwardAgent: Setting,
    gatewayPorts: Setting,
    compression: Setting,
    tunOpen: bool,
    identityFiles: seq<CString>,
    localForwards: seq<CString>,
    remoteForwards: seq<CString>)

  /** The flag globals of ssh.c (ssh.c:117-150). */
  datatype Flags = Flags(
    debug: bool,
    tty: bool,
    forceTty: bool,
    noTty: bool,
    noShell: bool,
    stdinNull: bool,
    fork: bool,
    subsystem: bool)

  /** What the option loop updates: the options, the flags, `mux_command`, and whether the version banner was printed. */
  datatype State = State(options: Options, flags: Flags, mux: MuxCommand, versionShown: bool)

  const InitialOptions: Options :=
    Options(-1, -1, MasterUnset, None, None, Unset, Unset, Unset, Unset, Unset, false, [], [], [])

  const InitialFlags: Flags := Flags(false, false, false, false, false, false, false, false)

  const Initial: State := State(InitialOptions, InitialFlags, MuxUnset, false)

  /** How a step ends: carry on, `exit(code)`, or `fatal(msg)` (which exits 255). */
  datatype Status = Continue | Exit(code: int) | Fatal(msg: string)

  /** One option as getopt returns it; options without an argument carry "". */
  datatype Opt = Opt(letter: char, arg: CString)

  /**
   * The external parsers, left uninterpreted: `accepts(c, a)` is whether the
   * checker behind -c, -m, -p, -L, -R, -D, -o or -w accepts `a` (ciphers_valid
   * / cipher_number, mac_valid, a2port, parse_forward, hpdelim, process_config_line,
   * a2tun), and `statOk(a)` is whether stat(a) succeeds for -i.
   */
  datatype Parsers = Parsers(accepts: (char, CString) -> bool, statOk: CString -> bool)

  datatype Outcome = Outcome(status: Status, state: State)

  // ---------------------------------------------------------------- -e

  /** The caret form `^X` of -e: exactly two characters, X in [64, 128). */
  predicate IsCaretForm(arg: CString) {
    |arg| == 2 && arg[0] == '^' && 64 <= arg[1] as int < 128
  }

  /** `-e` (ssh.c:420-434): None is "Bad escape character", exit 255. */
  function DecodeEscape(arg: CString): (r: Option<int>)
    ensures IsCaretForm(arg) ==> r == Some(arg[1] as int % 32) && 0 <= r.value < 32
    ensures !IsCaretForm(arg) && |arg| == 1 ==> r == Some(arg[0] as int)
    ensures arg == "none" ==> r == Some(SSH_ESCAPECHAR_NONE)
    ensures r.None? <==> !IsCaretForm(arg) && |arg| != 1 && arg != "none"
    ensures r.Some? ==> 0 <= r.value < 256 || r.value == SSH_ESCAPECHAR_NONE
  {
    if IsCaretForm(arg) then
      var x := arg[1] as int as bv8;
      assert (x & 31) as int == arg[1] as int % 32;
      Some((x & 31) as int)
    else if |arg| == 1 then Some(arg[0] as int)
    else if arg == "none" then Some(SSH_ESCAPECHAR_NONE)
    else None
  }

  /**
   * The bytes the caret test at ssh.c:421-423 reads, in C's evaluation order
   * (`optarg[0]`, then `optarg[2]`, then `optarg[1]`). `beyond` is whatever
   * byte lies past the terminator of a one-character argument.
   */
  function CaretReadsAsWritten(arg: CString, beyond: int): seq<nat> {
    if ByteAt(arg, 0) != '^' as int then [0]
    else if (if 2 <= |arg| then ByteAt(arg, 2) else beyond) != 0 then [0, 2]
    else [0, 2, 1]
  }

  /** The as-written test reads past the terminator exactly for the argument "^". */
  lemma CaretTestOverreads(arg: CString, beyond: int)
    ensures (exists k | k in CaretReadsAsWritten(arg, beyond) :: k > |arg|) <==> arg == "^"
  {
    if arg == "^" {
      assert 2 in CaretReadsAsWritten(arg, beyond);
    } else if ByteAt(arg, 0) == '^' as int {
      assert |arg| >= 2;
    }
  }

  /** `-e` decoded as written, with the byte past the terminator given as `beyond`. */
  function EscapeAsWritten(arg: CString, beyond: int): Option<int> {
    var b2 := if 2 <= |arg| then ByteAt(arg, 2) else beyond;
    if ByteAt(arg, 0) == '^' as int && b2 == 0 && 64 <= ByteAt(arg, 1) < 128 then Some(ByteAt(arg, 1) % 32)
    else if |arg| == 1 then Some(arg[0] as int)
    else if arg == "none" then Some(SSH_ESCAPECHAR_NONE)
    else None
  }

  /** The stray read cannot change the decoded escape: as written agrees with DecodeEscape. */
  lemma EscapeAsWrittenAgrees(arg: CString, beyond: int)
    ensures EscapeAsWritten(arg, beyond) == DecodeEscape(arg)
  {
    if |arg| >= 3 {
      assert ByteAt(arg, 2) != 0;
    }
  }

  /** The bytes a bounds-respecting caret test reads: the second byte is checked before the third. */
  function CaretReads(arg: CString): seq<nat> {
    if ByteAt(arg, 0) != '^' as int then [0]
    else if ByteAt(arg, 1) == 0 then [0, 1]
    else [0, 1, 2]
  }

  /** The corrected test never reads past the terminator. */
  lemma CaretReadsInBounds(arg: CString)
    ensures forall k | k in CaretReads(arg) :: k <= |arg|
  {
    if ByteAt(arg, 0) == '^' as int && ByteAt(arg, 1) != 0 {
      assert |arg| >= 2;
    }
  }

  // ---------------------------------------------------------------- option loop

  function Next(s: State): Outcome {
    Outcome(Continue, s)
  }

  /** The option letters that only set flags. */
  const FlagLetters: string := "nftNTs"

  /** -n, -f, -t, -N, -T and -s (ssh.c:322-328, 387-391, 534-540, 549-551). */
  function FlagStep(f: Flags, c: char): Flags {
    match c
    case 'n' => f.(stdinNull := true)
    case 'f' => f.(fork := true, stdinNull := true)
    case 't' => f.(forceTty := f.forceTty || f.tty, tty := true)
    case 'N' => f.(noShell := true, noTty := true)
    case 'T' => f.(noTty := true)
    case 's' => f.(subsystem := true)
    case _ => f
  }

  /** -v (ssh.c:392-407): the first one also prints the version and carries on. */
  function Verbose(s: State): State {
    if !s.flags.debug then
      s.(flags := s.flags.(debug := true), options := s.options.(logLevel := Log.SYSLOG_LEVEL_DEBUG1), versionShown := true)
    else if s.options.logLevel < Log.SYSLOG_LEVEL_DEBUG3 then
      s.(options := s.options.(logLevel := s.options.logLevel + 1))
    else s
  }

  /** The cases that set options or select a mux command (the rest of ssh.c:309-565). */
  function OptionStep(s: State, o: Opt, p: Parsers): (r: Outcome)
    ensures r.state.flags == s.flags
  {
    var opts := s.options;
    var a := o.arg;
    match o.letter
    case 'x' => Next(s.(options := opts.(forwardX11 := Set(false))))
    case 'X' => Next(s.(options := opts.(forwardX11 := Set(true))))
    case 'Y' => Next(s.(options := opts.(forwardX11 := Set(true), forwardX11Trusted := Set(true))))
    case 'g' => Next(s.(options := opts.(gatewayPorts := Set(true))))
    case 'O' =>
      if a == "check" then Next(s.(mux := MuxAliveCheck))
      else if a == "exit" then Next(s.(mux := MuxTerminate))
      else Outcome(Fatal("Invalid multiplex command."), s)
    case 'a' => Next(s.(options := opts.(forwardAgent := Set(false))))
    case 'A' => Next(s.(options := opts.(forwardAgent := Set(true))))
    case 'i' =>
      if !p.statOk(a) then Next(s)
      else if |opts.identityFiles| >= SSH_MAX_IDENTITY_FILES then
        Outcome(Fatal("Too many identity files specified"), s)
      else Next(s.(options := opts.(identityFiles := opts.identityFiles + [a])))
    case 'V' => Outcome(Exit(0), s.(versionShown := true))
    case 'w' =>
      var t := s.(options := opts.(tunOpen := true));
      if p.accepts('w', a) then Next(t) else Outcome(Exit(255), t)
    case 'q' => Next(s.(options := opts.(logLevel := Log.SYSLOG_LEVEL_QUIET)))
    case 'e' =>
      (match DecodeEscape(a)
       case None => Outcome(Exit(255), s)
       case Some(e) => Next(s.(options := opts.(escapeChar := e))))
    case 'M' =>
      Next(s.(options := opts.(controlMaster := if opts.controlMaster == MasterYes then MasterAsk else MasterYes)))
    case 'l' => Next(s.(options := opts.(user := Some(a))))
    case 'L' =>
      if p.accepts('L', a) then Next(s.(options := opts.(localForwards := opts.localForwards + [a])))
      else Outcome(Exit(255), s)
    case 'D' =>
      if p.accepts('D', a) then Next(s.(options := opts.(localForwards := opts.localForwards + [a])))
      else Outcome(Exit(255), s)
    case 'R' =>
      if p.accepts('R', a) then Next(s.(options := opts.(remoteForwards := opts.remoteForwards + [a])))
      else Outcome(Exit(255), s)
    case 'c' => if p.accepts('c', a) then Next(s) else Outcome(Exit(255), s)
    case 'm' => if p.accepts('m', a) then Next(s) else Outcome(Exit(255), s)
    case 'p' => if p.accepts('p', a) then Next(s) else Outcome(Exit(255), s)
    case 'o' => if p.accepts('o', a) then Next(s) else Outcome(Exit(255), s)
    case 'C' => Next(s.(options := opts.(compression := Set(true))))
    case 'S' => Next(s.(options := opts.(controlPath := Some(a))))
    case '1' => Next(s)
    case '2' => Next(s)
    case '4' => Next(s)
    case '6' => Next(s)
    case 'P' => Next(s)
    case 'k' => Next(s)
    case 'K' => Next(s)
    case 'b' => Next(s)
    case 'F' => Next(s)
    case 'I' => Next(s)
    case _ => Outcome(Exit(255), s)
  }

  /** One pass of the switch in the getopt loop (ssh.c:309-565); any other letter is usage(), exit 255. */
  function Step(s: State, o: Opt, p: Parsers): Outcome {
    if o.letter in FlagLetters then Next(s.(flags := FlagStep(s.flags, o.letter)))
    else if o.letter == 'v' then Next(Verbose(s))
    else OptionStep(s, o, p)
  }

  /** The getopt loop: steps until the options run out or one of them exits. */
  function RunOptions(s: State, opts: seq<Opt>, p: Parsers): Outcome
    decreases |opts|
  {
    if |opts| == 0 then Outcome(Continue, s)
    else
      var o := Step(s, opts[0], p);
      if o.status.Continue? then RunOptions(o.state, opts[1..], p) else o
  }

  /** The loop at ssh.c:306-566 as a loop, proved to compute RunOptions. */
  method ParseOptions(s0: State, opts: seq<Opt>, p: Parsers) returns (status: Status, s: State)
    ensures Outcome(status, s) == RunOptions(s0, opts, p)
  {
    s := s0;
    var i := 0;
    while i < |opts|
      invariant 0 <= i <= |opts|
      invariant RunOptions(s, opts[i..], p) == RunOptions(s0, opts, p)
    {
      assert opts[i..][1..] == opts[i + 1..];
      var o := Step(s, opts[i], p);
      if !o.status.Continue? {
        return o.status, o.state;
      }
      s := o.state;
      i := i + 1;
    }
    status := Continue;
  }

  // ---------------------------------------------------------------- properties of the loop

  /** Flag implications every step keeps: -N sets both, -f both, the second -t forces a tty already on. */
  predicate FlagsConsistent(f: Flags) {
    (f.noShell ==> f.noTty) && (f.fork ==> f.stdinNull) && (f.forceTty ==> f.tty)
  }

  /** The command line only ever leaves the log level unset or at a level log_init accepts. */
  predicate LevelOk(s: State) {
    s.options.logLevel == Log.SYSLOG_LEVEL_NOT_SET || Log.IsLevel(s.options.logLevel)
  }

  lemma FlagStepKeepsFlags(f: Flags, c: char)
    requires FlagsConsistent(f)
    ensures FlagsConsistent(FlagStep(f, c))
  {
  }

  lemma StepKeepsFlags(s: State, o: Opt, p: Parsers)
    requires FlagsConsistent(s.flags)
    ensures FlagsConsistent(Step(s, o, p).state.flags)
  {
    if o.letter in FlagLetters {
      FlagStepKeepsFlags(s.flags, o.letter);
    } else if o.letter == 'v' {
      assert Verbose(s).flags.debug;
    } else {
      assert Step(s, o, p) == OptionStep(s, o, p);
    }
  }

  lemma StepKeepsLevel(s: State, o: Opt, p: Parsers)
    requires LevelOk(s)
    ensures LevelOk(Step(s, o, p).state)
  {
  }

  lemma {:induction false} RunKeepsInvariants(s: State, opts: seq<Opt>, p: Parsers)
    requires FlagsConsistent(s.flags) && LevelOk(s)
    ensures FlagsConsistent(RunOptions(s, opts, p).state.flags) && LevelOk(RunOptions(s, opts, p).state)
    decreases |opts|
  {
    if |opts| > 0 {
      StepKeepsFlags(s, opts[0], p);
      StepKeepsLevel(s, opts[0], p);
      var o := Step(s, opts[0], p);
      if o.status.Continue? {
        RunKeepsInvariants(o.state, opts[1..], p);
      }
    }
  }

  /** The first -v turns debugging on at DEBUG1; later ones add one level, up to DEBUG3 and never past it. */
  lemma VerboseStep(s: State, p: Parsers)
    requires s.options.logLevel <= Log.SYSLOG_LEVEL_DEBUG3
    ensures var r := Step(s, Opt('v', ""), p);
      r.status == Continue && r.state.flags.debug &&
      r.state.options.logLevel <= Log.SYSLOG_LEVEL_DEBUG3 &&
      (!s.flags.debug ==> r.state.options.logLevel == Log.SYSLOG_LEVEL_DEBUG1 && r.state.versionShown) &&
      (s.flags.debug ==> r.state.options.logLevel == Min(s.options.logLevel + 1, Log.SYSLOG_LEVEL_DEBUG3))
  {
  }

  /** `k` copies of one option. */
  function Repeat(o: Opt, k: nat): (r: seq<Opt>)
    ensures |r| == k && forall i | 0 <= i < k :: r[i] == o
  {
    if k == 0 then [] else [o] + Repeat(o, k - 1)
  }

  lemma {:induction false} MoreVerbose(s: State, k: nat, p: Parsers)
    requires s.flags.debug && s.options.logLevel <= Log.SYSLOG_LEVEL_DEBUG3
    ensures RunOptions(s, Repeat(Opt('v', ""), k), p).status == Continue
    ensures RunOptions(s, Repeat(Opt('v', ""), k), p).state.options.logLevel ==
      Min(s.options.logLevel + k, Log.SYSLOG_LEVEL_DEBUG3)
    decreases k
  {
    if k > 0 {
      var vs := Repeat(Opt('v', ""), k);
      VerboseStep(s, p);
      var o := Step(s, Opt('v', ""), p);
      assert vs[1..] == Repeat(Opt('v', ""), k - 1);
      MoreVerbose(o.state, k - 1, p);
    }
  }

  /** `ssh -v` repeated k times logs at DEBUG1 + k - 1, capped at DEBUG3. */
  lemma {:induction false} VerboseCount(k: nat, p: Parsers)
    requires k >= 1
    ensures RunOptions(Initial, Repeat(Opt('v', ""), k), p).status == Continue
    ensures RunOptions(Initial, Repeat(Opt('v', ""), k), p).state.options.logLevel ==
      Min(Log.SYSLOG_LEVEL_DEBUG1 + k - 1, Log.SYSLOG_LEVEL_DEBUG3)
  {
    var vs := Repeat(Opt('v', ""), k);
    var o := Step(Initial, Opt('v', ""), p);
    assert vs[1..] == Repeat(Opt('v', ""), k - 1);
    MoreVerbose(o.state, k - 1, p);
  }

  /** With k -v options, do_log's filter lets debugN through exactly for N <= k. */
  lemma VerboseEnablesDebug(k: nat, n: nat, p: Parsers)
    requires k >= 1 && 1 <= n <= 3
    ensures var level := RunOptions(Initial, Repeat(Opt('v', ""), k), p).state.options.logLevel;
      Log.Emits(Log.SYSLOG_LEVEL_DEBUG1 + n - 1, level) <==> n <= k
  {
    VerboseCount(k, p);
  }

  /** -M flips between yes and ask; from any other value it selects yes. */
  lemma {:induction false} MasterToggles(s: State, k: nat, p: Parsers)
    requires k >= 1
    ensures var m := RunOptions(s, Repeat(Opt('M', ""), k), p).state.options.controlMaster;
      if (k % 2 == 1) == (s.options.controlMaster == MasterYes) then m == MasterAsk else m == MasterYes
    decreases k
  {
    var ms := Repeat(Opt('M', ""), k);
    var o := Step(s, Opt('M', ""), p);
    assert ms[1..] == Repeat(Opt('M', ""), k - 1);
    if k > 1 {
      MasterToggles(o.state, k - 1, p);
    }
  }

  /** -O accepts exactly "check" and "exit"; anything else is fatal. */
  lemma MuxSelector(s: State, a: CString, p: Parsers)
    ensures Step(s, Opt('O', a), p).status == Continue <==> a == "check" || a == "exit"
    ensures a == "check" ==> Step(s, Opt('O', a), p).state.mux == MuxAliveCheck
    ensures a == "exit" ==> Step(s, Opt('O', a), p).state.mux == MuxTerminate
  {
  }

  /** A second -t forces a tty (ssh.c:387-391). */
  lemma TtyTwiceForces(s: State, p: Parsers)
    ensures var r := RunOptions(s, [Opt('t', ""), Opt('t', "")], p);
      r.status == Continue && r.state.flags.tty && r.state.flags.forceTty
  {
    var o := Step(s, Opt('t', ""), p);
    assert [Opt('t', ""), Opt('t', "")][1..] == [Opt('t', "")];
    assert o.state.flags.tty;
  }

  // ---------------------------------------------------------------- user@host

  datatype Target = Target(user: Option<CString>, host: CString)

  /** The host operand (ssh.c:571-581): split at the last '@'; None is usage() for an '@' that starts the word. */
  function SplitTarget(w: CString): (r: Option<Target>) {
    match LastIndex(w, '@')
    case None => Some(Target(None, w))
    case Some(k) => if k == 0 then None else Some(Target(Some(w[..k]), w[k + 1..]))
  }

  /** SplitTarget splits at the last '@', leaves '@'-free words whole, and rebuilds the word. */
  lemma SplitTargetSpec(w: CString)
    ensures SplitTarget(w).None? <==> |w| > 0 && w[0] == '@' && '@' !in w[1..]
    ensures '@' !in w ==> SplitTarget(w) == Some(Target(None, w))
    ensures SplitTarget(w).Some? && SplitTarget(w).value.user.Some? ==>
      var t := SplitTarget(w).value;
      w == t.user.value + "@" + t.host && '@' !in t.host && |t.user.value| > 0
  {
    var r := LastIndex(w, '@');
    if r.Some? {
      var k := r.value;
      assert w == w[..k] + "@" + w[k + 1..];
      if k != 0 && |w| > 0 && w[0] == '@' {
        assert '@' in w[1..] by { assert w[1..][k - 1] == '@'; }
      }
      if k == 0 {
        assert w[1..] == w[k + 1..];
      }
    }
  }

  // ---------------------------------------------------------------- command line

  /** What getopt hands back: the options in order, then the operands from `optind` on. */
  datatype Getopt = Getopt(opts: seq<Opt>, operands: seq<CString>)

  datatype CommandLine = CommandLine(status: Status, state: State, host: Option<CString>, command: seq<CString>)

  /**
   * ssh.c:304-591: options, then the host operand, then (when more operands
   * follow) a second getopt pass over the operands after the host; what that
   * pass leaves is the remote command. A missing host, or one that starts
   * with '-', is usage().
   */
  function ParseCommandLine(args: seq<CString>, getopt: seq<CString> -> Getopt, p: Parsers): (c: CommandLine)
    ensures c.status == Continue ==> c.host.Some?
  {
    var g := getopt(args);
    var r := RunOptions(Initial, g.opts, p);
    if !r.status.Continue? then CommandLine(r.status, r.state, None, [])
    else if |g.operands| == 0 || ByteAt(g.operands[0], 0) == '-' as int then CommandLine(Exit(255), r.state, None, [])
    else match SplitTarget(g.operands[0])
      case None => CommandLine(Exit(255), r.state, None, [])
      case Some(t) =>
        var s := if t.user.Some? then r.state.(options := r.state.options.(user := t.user)) else r.state;
        if |g.operands| == 1 then CommandLine(Continue, s, Some(t.host), [])
        else
          var g2 := getopt(g.operands[1..]);
          var r2 := RunOptions(s, g2.opts, p);
          CommandLine(r2.status, r2.state, Some(t.host), if r2.status.Continue? then g2.operands else [])
  }

  /** Whatever the command line, the level handed to the first log_init is one it accepts. */
  lemma {:induction false} CommandLineLevelIsValid(args: seq<CString>, getopt: seq<CString> -> Getopt, p: Parsers)
    requires ParseCommandLine(args, getopt, p).status == Continue
    ensures Log.IsLevel(InitialLogLevel(ParseCommandLine(args, getopt, p).state.options.logLevel))
    ensures FlagsConsistent(ParseCommandLine(args, getopt, p).state.flags)
  {
    var g := getopt(args);
    RunKeepsInvariants(Initial, g.opts, p);
    var r := RunOptions(Initial, g.opts, p);
    var t := SplitTarget(g.operands[0]).value;
    var s := if t.user.Some? then r.state.(options := r.state.options.(user := t.user)) else r.state;
    if |g.operands| > 1 {
      RunKeepsInvariants(s, getopt(g.operands[1..]).opts, p);
    }
  }

  /** The level ssh.c:663-664 passes to log_init: INFO when the command line set none. */
  function InitialLogLevel(level: int): (l: int)
    ensures level == Log.SYSLOG_LEVEL_NOT_SET ==> l == Log.SYSLOG_LEVEL_INFO
    ensures level != Log.SYSLOG_LEVEL_NOT_SET ==> l == level
  {
    if level == -1 then Log.SYSLOG_LEVEL_INFO else level
  }

  /** The remote command: the words joined by single spaces (ssh.c:631-636). */
  function Join(words: seq<CString>): string
    decreases |words|
  {
    if |words| == 0 then ""
    else if |words| == 1 then words[0]
    else Join(words[..|words| - 1]) + " " + words[|words| - 1]
  }

  /** A string cut at every space, the inverse of Join. */
  function SplitSpaces(s: string): (r: seq<string>)
    ensures |r| >= 1
    decreases |s|
  {
    match LastIndex(s, ' ')
    case None => [s]
    case Some(k) => SplitSpaces(s[..k]) + [s[k + 1..]]
  }

  /** The last space of `a + " " + b` is the separator when `b` has none. */
  lemma LastSpace(a: string, b: string)
    requires ' ' !in b
    ensures LastIndex(a + " " + b, ' ') == Some(|a|)
    ensures (a + " " + b)[..|a|] == a && (a + " " + b)[|a| + 1..] == b
  {
    var s := a + " " + b;
    assert s[|a|] == ' ';
    assert s[|a| + 1..] == b;
  }

  /** Joining words with no space in them can be undone. */
  lemma {:induction false} SplitJoin(words: seq<CString>)
    requires |words| >= 1
    requires forall i | 0 <= i < |words| :: ' ' !in words[i]
    ensures SplitSpaces(Join(words)) == words
    decreases |words|
  {
    if |words| > 1 {
      var init := words[..|words| - 1];
      var last := words[|words| - 1];
      assert Join(words) == Join(init) + " " + last;
      LastSpace(Join(init), last);
      SplitJoin(init);
      assert init + [last] == words;
    }
  }

  /** The command is empty exactly when there are no words or a single empty one. */
  lemma {:induction false} JoinEmpty(words: seq<CString>)
    ensures |Join(words)| == 0 <==> |words| == 0 || (|words| == 1 && words[0] == "")
    decreases |words|
  {
    if |words| > 1 {
      assert |Join(words)| >= 1;
    }
  }

  /** Whether a pseudo-tty is allocated (ssh.c:646-657). */
  predicate TtyAllocated(f: Flags, commandEmpty: bool, stdinIsTty: bool) {
    (f.tty || commandEmpty) && !f.noTty && (f.forceTty || (stdinIsTty && !f.stdinNull))
  }

  /**
   * ssh.c:621-657: build the remote command, reject a subsystem without a
   * name and a fork without a command, then settle `tty_flag`. `warned` is
   * the "Pseudo-terminal will not be allocated" message.
   */
  method FinishCommandLine(f: Flags, words: seq<CString>, stdinIsTty: bool)
    returns (status: Status, command: string, tty: bool, warned: bool)
    ensures command == Join(words)
    ensures status == Exit(255) <==> |words| == 0 && f.subsystem
    ensures status.Fatal? <==> !(|words| == 0 && f.subsystem) && f.fork && |command| == 0 && !f.noShell
    ensures status == Continue ==> tty == TtyAllocated(f, |command| == 0, stdinIsTty)
    ensures status == Continue ==>
              (warned <==> (f.tty || |command| == 0) && !f.noTty && !f.forceTty && (!stdinIsTty || f.stdinNull))
    ensures status == Continue || status == Exit(255) || status.Fatal?
  {
    tty := f.tty;
    warned := false;
    command := "";
    if |words| == 0 {
      tty := true;
      if f.subsystem {
        return Exit(255), command, tty, warned;
      }
    } else {
      var i := 0;
      while i < |words|
        invariant 0 <= i <= |words|
        invariant command == Join(words[..i])
      {
        assert words[..i + 1][..i] == words[..i];
        if i > 0 {
          command := command + " ";
        }
        command := command + words[i];
        i := i + 1;
      }
      assert words[..i] == words;
    }
    if f.fork && |command| == 0 && !f.noShell {
      return Fatal("Cannot fork into background without a command to execute."), command, tty, warned;
    }
    if |command| == 0 {
      tty := true;
    }
    if f.noTty {
      tty := false;
    }
    if (!stdinIsTty || f.stdinNull) && !f.forceTty {
      if tty {
        warned := true;
      }
      tty := false;
    }
    status := Continue;
  }

  /** -N, or -T, means no tty whatever else the command line says. */
  lemma NoTtyWins(f: Flags, commandEmpty: bool, stdinIsTty: bool)
    requires FlagsConsistent(f) && (f.noShell || f.noTty)
    ensures !TtyAllocated(f, commandEmpty, stdinIsTty)
  {
  }

  // ---------------------------------------------------------------- control path

  datatype Dispatch = NoControlPath | ConnectDirectly | RunControlClient(path: CString)

  /**
   * ssh.c:736-751: a ControlPath of "none" is dropped, any other one is
   * expanded (`expand` stands for tilde_expand_filename and percent_expand),
   * and -O without a ControlPath is fatal.
   */
  function DispatchMux(mux: MuxCommand, path: Option<CString>, expand: CString -> CString): (d: Dispatch)
    ensures d == NoControlPath <==> mux != MuxUnset && (path.None? || path == Some("none"))
    ensures d.RunControlClient? <==> path.Some? && path != Some("none")
    ensures d.RunControlClient? ==> d.path == expand(path.value)
  {
    var cp := if path == Some("none") then None else path;
    if cp.Some? then RunControlClient(expand(cp.value))
    else if mux != MuxUnset then NoControlPath
    else ConnectDirectly
  }
}
