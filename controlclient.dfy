/**
 * The multiplexing client of ssh.c (`env_permitted` and `control_client`):
 * which environment variables may be passed to the master, whether the
 * master is tried at all, the request flags, the master's hello reply, the
 * environment part of the open request, and the loop that reads the
 * command's exit status back from the master. Transport calls are outside
 * the model; what they return is an input.
 */
module ControlClient {
  import opened Wrappers
  import opened CStrings
  import ClientOptions

  // ---------------------------------------------------------------- env_permitted

  /** The size of `name[]` in env_permitted. */
  const NAME_BUF: nat := 1024

  datatype EnvVerdict = Denied | Permitted | NameTooLong

  /** The variable name before the first '='; None when there is no '=' or it comes first. */
  function EnvName(env: CString): (n: Option<CString>)
    ensures n.None? <==> '=' !in env || env[0] == '='
    ensures n.Some? ==> 1 <= |n.value| < |env| && '=' !in n.value && env[..|n.value|] == n.value && env[|n.value|] == '='
  {
    match FirstIndex(env, '=')
    case None => None
    case Some(k) => if k == 0 then None else Some(env[..k])
  }

  /**
   * What env_permitted (ssh.c:1414-1431) decides: `matches` stands for
   * match_pattern and `sendEnv` for the SendEnv patterns. A name that does
   * not fit `name[]` is fatal.
   */
  function EnvVerdictOf(env: CString, sendEnv: seq<CString>, matches: (CString, CString) -> bool): (v: EnvVerdict)
    ensures v == Denied <==>
              EnvName(env).None? ||
              (|EnvName(env).value| < NAME_BUF && forall i | 0 <= i < |sendEnv| :: !matches(EnvName(env).value, sendEnv[i]))
    ensures v == NameTooLong <==> EnvName(env).Some? && |EnvName(env).value| >= NAME_BUF
    ensures v == Permitted <==>
              EnvName(env).Some? && |EnvName(env).value| < NAME_BUF &&
              exists i | 0 <= i < |sendEnv| :: matches(EnvName(env).value, sendEnv[i])
  {
    match EnvName(env)
    case None => Denied
    case Some(name) =>
      if |name| >= NAME_BUF then NameTooLong
      else if exists i | 0 <= i < |sendEnv| :: matches(name, sendEnv[i]) then Permitted
      else Denied
  }

  /** env_permitted as written: strchr, the length check on snprintf's result, then a linear search. */
  method EnvPermitted(env: CString, sendEnv: seq<CString>, matches: (CString, CString) -> bool) returns (v: EnvVerdict)
    ensures v == EnvVerdictOf(env, sendEnv, matches)
  {
    var cp := FirstIndex(env, '=');
    if cp.None? || cp.value == 0 {
      return Denied;
    }
    var name := env[..cp.value];
    var ret := |name|;
    if ret <= 0 || ret >= NAME_BUF {
      return NameTooLong;
    }
    var i := 0;
    while i < |sendEnv|
      invariant 0 <= i <= |sendEnv|
      invariant forall k | 0 <= k < i :: !matches(name, sendEnv[k])
    {
      if matches(name, sendEnv[i]) {
        return Permitted;
      }
      i := i + 1;
    }
    return Denied;
  }

  // ---------------------------------------------------------------- master, flags, hello

  /** control_client turns an unset mux command into OPEN (ssh.c:1444-1445). */
  function EffectiveCommand(m: ClientOptions.MuxCommand): (c: ClientOptions.MuxCommand)
    ensures c != ClientOptions.MuxUnset
    ensures m == ClientOptions.MuxUnset ==> c == ClientOptions.MuxOpen
    ensures m != ClientOptions.MuxUnset ==> c == m
  {
    if m == ClientOptions.MuxUnset then ClientOptions.MuxOpen else m
  }

  /** Whether control_client tries an existing master at all (ssh.c:1447-1456). */
  predicate TriesMaster(cm: ClientOptions.ControlMaster) {
    cm == ClientOptions.MasterNo || cm == ClientOptions.MasterAuto || cm == ClientOptions.MasterAutoAsk
  }

  /** A client that was asked to be a master (-M) never tries to use one. */
  lemma MasterNeverClient(s: ClientOptions.State, p: ClientOptions.Parsers)
    ensures !TriesMaster(ClientOptions.Step(s, ClientOptions.Opt('M', ""), p).state.options.controlMaster)
  {
  }

  datatype ConnectFailure = ConnectFatal | NoSocket | ConnectError

  /**
   * A failed connect to the control socket (ssh.c:1470-1483): fatal unless
   * the command is OPEN, which falls back to a direct connection; a missing
   * socket is only worth a debug line.
   */
  function OnConnectFailure(cmd: ClientOptions.MuxCommand, noEntry: bool): (r: ConnectFailure)
    ensures r == ConnectFatal <==> cmd != ClientOptions.MuxOpen
    ensures r == NoSocket <==> cmd == ClientOptions.MuxOpen && noEntry
  {
    if cmd != ClientOptions.MuxOpen then ConnectFatal
    else if noEntry then NoSocket
    else ConnectError
  }

  const SSHMUX_VER: int := 1
  const SSHMUX_FLAG_TTY: bv32 := 1
  const SSHMUX_FLAG_SUBSYS: bv32 := 2
  const SSHMUX_FLAG_X11_FWD: bv32 := 4
  const SSHMUX_FLAG_AGENT_FWD: bv32 := 8

  /** The request flags (ssh.c:1496-1504). */
  function MuxFlags(tty: bool, subsystem: bool, x11: bool, agent: bool): bv32 {
    var f: bv32 := 0;
    var f := if tty then f | SSHMUX_FLAG_TTY else f;
    var f := if subsystem then f | SSHMUX_FLAG_SUBSYS else f;
    var f := if x11 then f | SSHMUX_FLAG_X11_FWD else f;
    if agent then f | SSHMUX_FLAG_AGENT_FWD else f
  }

  /** The master can read every choice back from the flags, and no other bit is set. */
  lemma MuxFlagsDecode(tty: bool, subsystem: bool, x11: bool, agent: bool)
    ensures var f := MuxFlags(tty, subsystem, x11, agent);
      ((f & SSHMUX_FLAG_TTY != 0) == tty) && ((f & SSHMUX_FLAG_SUBSYS != 0) == subsystem) &&
      ((f & SSHMUX_FLAG_X11_FWD != 0) == x11) && ((f & SSHMUX_FLAG_AGENT_FWD != 0) == agent) &&
      f & !0xF == 0
  {
  }

  datatype Hello = HelloFatal(msg: string) | HelloExit(code: int) | ProceedOpen(masterPid: int)

  /** The master's reply to the hello and what the command then does (ssh.c:1516-1539). */
  function OnHello(cmd: ClientOptions.MuxCommand, version: int, allowed: int, pid: int): (h: Hello)
    requires cmd != ClientOptions.MuxUnset
    ensures h.ProceedOpen? <==> version == SSHMUX_VER && allowed == 1 && cmd == ClientOptions.MuxOpen
    ensures h.ProceedOpen? ==> h.masterPid == pid
    ensures h.HelloExit? ==> h.code == 0 && cmd != ClientOptions.MuxOpen
    ensures h.HelloFatal? <==> version != SSHMUX_VER || allowed != 1
  {
    if version != SSHMUX_VER then HelloFatal("wrong version")
    else if allowed != 1 then HelloFatal("Connection to master denied")
    else match cmd
      case MuxAliveCheck => HelloExit(0)
      case MuxTerminate => HelloExit(0)
      case MuxOpen => ProceedOpen(pid)
  }

  // ---------------------------------------------------------------- environment of the open request

  /** The permitted variables in environment order. */
  function PermittedVars(environ: seq<CString>, sendEnv: seq<CString>, matches: (CString, CString) -> bool): seq<CString>
  {
    if |environ| == 0 then []
    else
      PermittedVars(environ[..|environ| - 1], sendEnv, matches) +
      if EnvVerdictOf(environ[|environ| - 1], sendEnv, matches) == Permitted then [environ[|environ| - 1]] else []
  }

  /** The positions in `environ` of the permitted variables, in increasing order. */
  function PermittedIndices(environ: seq<CString>, sendEnv: seq<CString>, matches: (CString, CString) -> bool): seq<nat>
  {
    if |environ| == 0 then []
    else
      PermittedIndices(environ[..|environ| - 1], sendEnv, matches) +
      if EnvVerdictOf(environ[|environ| - 1], sendEnv, matches) == Permitted then [|environ| - 1] else []
  }

  /**
   * PermittedVars keeps exactly the permitted variables, in environment order
   * and once per occurrence: its j-th entry is `environ[idx[j]]` for a
   * strictly increasing `idx` that hits every permitted position and no other.
   */
  lemma {:induction false} PermittedVarsSpec(environ: seq<CString>, sendEnv: seq<CString>, matches: (CString, CString) -> bool)
    ensures var sent, idx := PermittedVars(environ, sendEnv, matches), PermittedIndices(environ, sendEnv, matches);
      |sent| == |idx| <= |environ| &&
      (forall j | 0 <= j < |idx| :: idx[j] < |environ| && sent[j] == environ[idx[j]]) &&
      (forall j, k | 0 <= j < k < |idx| :: idx[j] < idx[k]) &&
      (forall i | 0 <= i < |environ| :: i in idx <==> EnvVerdictOf(environ[i], sendEnv, matches) == Permitted)
    ensures forall e :: e in PermittedVars(environ, sendEnv, matches) <==>
      e in environ && EnvVerdictOf(e, sendEnv, matches) == Permitted
  {
    if |environ| > 0 {
      var n := |environ| - 1;
      var init := environ[..n];
      PermittedVarsSpec(init, sendEnv, matches);
      assert environ == init + [environ[n]];
      var idx0 := PermittedIndices(init, sendEnv, matches);
      assert n !in idx0;
      forall i | 0 <= i < n ensures init[i] == environ[i] { }
    }
  }

  /** Each variable is sent as many times as it occurs in the environment, when permitted, and never otherwise. */
  lemma {:induction false} PermittedVarsCounts(environ: seq<CString>, sendEnv: seq<CString>, matches: (CString, CString) -> bool, e: CString)
    ensures multiset(PermittedVars(environ, sendEnv, matches))[e] ==
      if EnvVerdictOf(e, sendEnv, matches) == Permitted then multiset(environ)[e] else 0
  {
    if |environ| > 0 {
      var n := |environ| - 1;
      var init := environ[..n];
      PermittedVarsCounts(init, sendEnv, matches, e);
      assert environ == init + [environ[n]];
    }
  }

  /** Some variable has a name too long for env_permitted. */
  predicate AnyTooLong(environ: seq<CString>, sendEnv: seq<CString>, matches: (CString, CString) -> bool) {
    exists i | 0 <= i < |environ| :: EnvVerdictOf(environ[i], sendEnv, matches) == NameTooLong
  }

  /** The count loop (ssh.c:1550-1553): dies on the first over-long name. */
  method CountPermitted(environ: seq<CString>, sendEnv: seq<CString>, matches: (CString, CString) -> bool)
    returns (tooLong: bool, numEnv: int)
    ensures tooLong <==> AnyTooLong(environ, sendEnv, matches)
    ensures !tooLong ==> numEnv == |PermittedVars(environ, sendEnv, matches)|
  {
    numEnv := 0;
    var i := 0;
    while i < |environ|
      invariant 0 <= i <= |environ|
      invariant forall k | 0 <= k < i :: EnvVerdictOf(environ[k], sendEnv, matches) != NameTooLong
      invariant numEnv == |PermittedVars(environ[..i], sendEnv, matches)|
    {
      assert environ[..i + 1][..i] == environ[..i];
      var v := EnvPermitted(environ[i], sendEnv, matches);
      if v == NameTooLong {
        return true, numEnv;
      }
      if v == Permitted {
        numEnv := numEnv + 1;
      }
      i := i + 1;
    }
    assert environ[..i] == environ;
    tooLong := false;
  }

  /**
   * The emit loop (ssh.c:1557-1561): counts `numEnv` down while appending.
   * The `num_env >= 0` guard never stops it early: the count never goes
   * below zero, and exactly the counted variables are sent.
   */
  method EmitPermitted(environ: seq<CString>, sendEnv: seq<CString>, matches: (CString, CString) -> bool, numEnv0: int)
    returns (sent: seq<CString>, numEnv: int)
    requires !AnyTooLong(environ, sendEnv, matches)
    requires numEnv0 == |PermittedVars(environ, sendEnv, matches)|
    ensures sent == PermittedVars(environ, sendEnv, matches)
    ensures numEnv == 0
  {
    sent := [];
    numEnv := numEnv0;
    var i := 0;
    while i < |environ| && numEnv >= 0
      invariant 0 <= i <= |environ|
      invariant sent == PermittedVars(environ[..i], sendEnv, matches)
      invariant numEnv == numEnv0 - |sent|
      invariant |PermittedVars(environ, sendEnv, matches)| ==
        |sent| + |PermittedVars(environ[i..], sendEnv, matches)|
    {
      assert environ[..i + 1][..i] == environ[..i];
      PermittedVarsSplit(environ[i..], sendEnv, matches);
      assert environ[i..][1..] == environ[i + 1..];
      var v := EnvPermitted(environ[i], sendEnv, matches);
      if v == Permitted {
        numEnv := numEnv - 1;
        sent := sent + [environ[i]];
      }
      i := i + 1;
    }
    assert i == |environ|;
    assert environ[..i] == environ;
  }

  /** Peeling the first variable off the filter. */
  lemma {:induction false} PermittedVarsSplit(environ: seq<CString>, sendEnv: seq<CString>, matches: (CString, CString) -> bool)
    requires |environ| > 0
    ensures PermittedVars(environ, sendEnv, matches) ==
      (if EnvVerdictOf(environ[0], sendEnv, matches) == Permitted then [environ[0]] else []) +
      PermittedVars(environ[1..], sendEnv, matches)
    decreases |environ|
  {
    if |environ| > 1 {
      var init := environ[..|environ| - 1];
      PermittedVarsSplit(init, sendEnv, matches);
      assert init[1..] == environ[1..][..|environ| - 2];
    }
  }

  datatype EnvPart = EnvFatal | EnvSent(count: int, vars: seq<CString>)

  /**
   * The environment part of the open request (ssh.c:1546-1562): nothing when
   * no SendEnv pattern is configured or there is no environment (None),
   * otherwise the count and then the counted variables.
   */
  method EnvRequest(environ: Option<seq<CString>>, sendEnv: seq<CString>, matches: (CString, CString) -> bool)
    returns (r: EnvPart)
    ensures |sendEnv| == 0 || environ.None? ==> r == EnvSent(0, [])
    ensures |sendEnv| > 0 && environ.Some? ==>
              (r == EnvFatal <==> AnyTooLong(environ.value, sendEnv, matches))
    ensures |sendEnv| > 0 && environ.Some? && r.EnvSent? ==>
              r.vars == PermittedVars(environ.value, sendEnv, matches) && r.count == |r.vars|
  {
    if |sendEnv| == 0 || environ.None? {
      return EnvSent(0, []);
    }
    var tooLong, numEnv := CountPermitted(environ.value, sendEnv, matches);
    if tooLong {
      return EnvFatal;
    }
    var sent, left := EmitPermitted(environ.value, sendEnv, matches, numEnv);
    r := EnvSent(numEnv, sent);
  }

  // ---------------------------------------------------------------- exit status

  /** A byte read from the socket. */
  type byte = x: int | 0 <= x < 256

  /** `sizeof(exitval)`: the loop reads at most two ints. */
  const EXITVAL_SIZE: nat := 8
  /** `sizeof(int)`. */
  const INT_SIZE: nat := 4

  /**
   * What one call of read(2) on the control socket does: deliver bytes
   * (at most the room left is taken), report EOF, be interrupted by a signal
   * whose handler stored `terminate` (0 for SIGWINCH, which is only relayed),
   * or fail.
   */
  datatype ReadEvent = Data(bytes: seq<byte>) | Eof | Interrupted(terminate: int) | ReadFailed

  datatype LoopEnd = Finished(received: seq<byte>, terminate: int) | ReadError | Blocked

  /** The read loop (ssh.c:1594-1607) over the events it meets; Blocked when they run out first. */
  function ReadLoop(events: seq<ReadEvent>, received: seq<byte>, terminate: int): (e: LoopEnd)
    requires |received| <= EXITVAL_SIZE
    ensures e.Finished? ==> |received| <= |e.received| <= EXITVAL_SIZE && e.received[..|received|] == received
    decreases |events|
  {
    if terminate != 0 || |received| >= EXITVAL_SIZE then Finished(received, terminate)
    else if |events| == 0 then Blocked
    else match events[0]
      case Data(b) =>
        var r := Min(|b|, EXITVAL_SIZE - |received|);
        if r == 0 then Finished(received, terminate)
        else
          var e := ReadLoop(events[1..], received + b[..r], terminate);
          assert e.Finished? ==> e.received[..|received|] == (received + b[..r])[..|received|];
          e
      case Eof => Finished(received, terminate)
      case Interrupted(t) => ReadLoop(events[1..], received, t)
      case ReadFailed => ReadError
  }

  /**
   * The read loop filling `exitval` in place: `buf` is the 8-byte `exitval`
   * array and `i` the byte count. The first int is zeroed first; the second
   * is zeroed too here, as the bytes past the count are never used.
   */
  method ReadExitStatus(events: seq<ReadEvent>) returns (e: LoopEnd)
    ensures e == ReadLoop(events, [], 0)
  {
    var buf := new byte[EXITVAL_SIZE](_ => 0);
    var i: nat := 0;
    var terminate := 0;
    var k := 0;
    while terminate == 0 && i < EXITVAL_SIZE
      invariant 0 <= k <= |events| && i <= EXITVAL_SIZE
      invariant ReadLoop(events[k..], buf[..i], terminate) == ReadLoop(events, [], 0)
      decreases |events| - k, if terminate == 0 then 1 else 0
    {
      if k == |events| {
        return Blocked;
      }
      assert events[k..][1..] == events[k + 1..];
      match events[k]
      case Data(b) =>
        var r := Min(|b|, EXITVAL_SIZE - i);
        if r == 0 {
          break;
        }
        ghost var before := buf[..i];
        var j := 0;
        while j < r
          invariant 0 <= j <= r
          invariant buf[..i] == before
          invariant buf[i..i + j] == b[..j]
        {
          buf[i + j] := b[j];
          assert buf[..i] == before;
          j := j + 1;
        }
        assert buf[..i + r] == before + b[..r];
        i := i + r;
        k := k + 1;
      case Eof =>
        break;
      case Interrupted(t) =>
        terminate := t;
        k := k + 1;
      case ReadFailed =>
        return ReadError;
    }
    e := Finished(buf[..i], terminate);
  }

  /** The int in `exitval[0]`, read in host (little-endian) order. */
  function HostInt(b: seq<byte>): (v: int)
    requires |b| == INT_SIZE
    ensures -0x8000_0000 <= v < 0x8000_0000
  {
    var u: int := b[0] as int + 0x100 * b[1] as int + 0x1_0000 * b[2] as int + 0x100_0000 * b[3] as int;
    if u >= 0x8000_0000 then u - 0x1_0000_0000 else u
  }

  /** The bytes the master writes for the int `v`. */
  function HostBytes(v: int): (b: seq<byte>)
    requires -0x8000_0000 <= v < 0x8000_0000
    ensures |b| == INT_SIZE
  {
    var u := if v < 0 then v + 0x1_0000_0000 else v;
    var q1 := u / 0x100;
    var q2 := q1 / 0x100;
    var q3 := q2 / 0x100;
    [u % 0x100, q1 % 0x100, q2 % 0x100, q3]
  }

  lemma HostIntRoundTrip(v: int)
    requires -0x8000_0000 <= v < 0x8000_0000
    ensures HostInt(HostBytes(v)) == v
  {
    var u := if v < 0 then v + 0x1_0000_0000 else v;
    var q1 := u / 0x100;
    var q2 := q1 / 0x100;
    var q3 := q2 / 0x100;
    assert u == u % 0x100 + 0x100 * q1;
    assert q1 == q1 % 0x100 + 0x100 * q2;
    assert q2 == q2 % 0x100 + 0x100 * q3;
    var b := HostBytes(v);
    assert b[0] as int + 0x100 * b[1] as int + 0x1_0000 * b[2] as int + 0x100_0000 * b[3] as int == u;
  }

  datatype ExitResult = ExitFatal(msg: string) | ExitWith(status: int) | Waiting

  /**
   * What control_client does after the loop (ssh.c:1609-1626): more than an int
   * is fatal, even when a signal ended the loop; a signal, or less than an
   * int, exits 255; otherwise the master's int.
   */
  function ExitDecision(e: LoopEnd): (r: ExitResult)
    ensures r.ExitFatal? <==> e.ReadError? || (e.Finished? && |e.received| > INT_SIZE)
    ensures r == ExitWith(255) <== e.Finished? && |e.received| <= INT_SIZE && (e.terminate != 0 || |e.received| < INT_SIZE)
    ensures e.Finished? && e.terminate == 0 && |e.received| == INT_SIZE ==> r == ExitWith(HostInt(e.received))
    ensures r == Waiting <==> e.Blocked?
  {
    match e
    case ReadError => ExitFatal("read")
    case Blocked => Waiting
    case Finished(received, terminate) =>
      if |received| > INT_SIZE then ExitFatal("master returned too much data")
      else if terminate != 0 then ExitWith(255)
      else if |received| < INT_SIZE then ExitWith(255)
      else ExitWith(HostInt(received))
  }

  /** The process status `exit(v)` leaves: the low byte. */
  function ExitByte(v: int): (s: int)
    ensures 0 <= s < 256
    ensures 0 <= v < 256 ==> s == v
  {
    v % 256
  }

  /** Events that only deliver bytes. */
  predicate AllData(events: seq<ReadEvent>) {
    forall k | 0 <= k < |events| :: events[k].Data? && |events[k].bytes| > 0
  }

  function Flatten(events: seq<ReadEvent>): seq<byte>
    requires AllData(events)
  {
    if |events| == 0 then [] else events[0].bytes + Flatten(events[1..])
  }

  /** Chunks that fit are received whole, however the master's writes were split. */
  lemma {:induction false} ChunksArrive(events: seq<ReadEvent>, rest: seq<ReadEvent>, received: seq<byte>)
    requires AllData(events) && |received| + |Flatten(events)| < EXITVAL_SIZE
    ensures ReadLoop(events + rest, received, 0) == ReadLoop(rest, received + Flatten(events), 0)
    decreases |events|
  {
    if |events| > 0 {
      var b := events[0].bytes;
      assert (events + rest)[1..] == events[1..] + rest;
      assert Min(|b|, EXITVAL_SIZE - |received|) == |b|;
      assert b[..|b|] == b;
      ChunksArrive(events[1..], rest, received + b);
      assert received + b + Flatten(events[1..]) == received + Flatten(events);
    } else {
      assert events + rest == rest;
      assert received + Flatten(events) == received;
    }
  }

  /**
   * The exit status survives the socket: when the master writes the int `v`
   * in any split and then closes, the client ends with `v`, and the shell
   * sees a remote status 0..255 unchanged.
   */
  lemma ExitStatusRoundTrip(v: int, chunks: seq<ReadEvent>)
    requires -0x8000_0000 <= v < 0x8000_0000
    requires AllData(chunks) && Flatten(chunks) == HostBytes(v)
    ensures ExitDecision(ReadLoop(chunks + [Eof], [], 0)) == ExitWith(v)
    ensures 0 <= v < 256 ==> ExitByte(v) == v
  {
    ChunksArrive(chunks, [Eof], []);
    HostIntRoundTrip(v);
  }

  /** A terminating signal before the status arrives always ends in 255, never in fatal. */
  lemma SignalBeforeStatus(signo: int, rest: seq<ReadEvent>)
    requires signo != 0
    ensures ExitDecision(ReadLoop([Interrupted(signo)] + rest, [], 0)) == ExitWith(255)
  {
  }

  /** The byte count stops at 8 whatever the master sends, so the too-much check sees at most 8. */
  lemma ReceivedBounded(events: seq<ReadEvent>)
    ensures ReadLoop(events, [], 0).Finished? ==> |ReadLoop(events, [], 0).received| <= EXITVAL_SIZE
  {
  }
}
