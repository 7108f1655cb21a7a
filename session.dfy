/**
 * The session set-up decisions of ssh.c `ssh_session2` and
 * `ssh_session2_open`: whether a session channel is opened, what window and
 * packet size it asks for, whether the shell set-up callback is registered,
 * and which escape character the client loop gets.
 */
module Session {
  import opened Wrappers
  import ClientOptions

  /**
   * The `int window, packetmax` of ssh_session2_open holding a non-negative
   * value, as the positive CHAN_SES_* defaults are; as a 32-bit pattern its
   * sign bit is clear, so a logical and an arithmetic shift agree.
   */
  type NonNegInt32 = x: bv32 | x < 0x8000_0000

  /**
   * `x >>= 1` on a non-negative `int`, computed on its 32-bit pattern: the
   * floor of half, with nothing lost but the low bit. The shift is logical,
   * so it agrees with C's shift of an `int` only when the sign bit of `x` is
   * clear, as for every NonNegInt32 the callers pass.
   */
  function ShiftRight1(x: bv32): (y: bv32)
    ensures y + y + (x & 1) == x
    ensures y <= x && y < 0x8000_0000
  {
    x >> 1
  }

  datatype ChannelPlan = ChannelPlan(window: NonNegInt32, packetMax: NonNegInt32, setupCallback: bool)

  /** `channel` is None when no session channel is opened. */
  datatype Plan = Plan(channel: Option<ChannelPlan>, loopEscape: int)

  /**
   * ssh.c:1290-1305 and 1318-1337. `defaultWindow` and `defaultPacket` stand
   * for CHAN_SES_WINDOW_DEFAULT and CHAN_SES_PACKET_DEFAULT; `dummyChanBug`
   * is the SSH_BUG_DUMMYCHAN compatibility bit of the server.
   */
  function Session2Plan(noShell: bool, dummyChanBug: bool, tty: bool, escapeChar: int,
                        defaultWindow: NonNegInt32, defaultPacket: NonNegInt32): (p: Plan)
    ensures p.channel.Some? <==> !noShell || dummyChanBug
    ensures p.channel.Some? ==> p.channel.value.setupCallback == !noShell
    ensures p.channel.Some? ==> p.channel.value.window == if tty then ShiftRight1(defaultWindow) else defaultWindow
    ensures p.channel.Some? ==> p.channel.value.packetMax == if tty then ShiftRight1(defaultPacket) else defaultPacket
    ensures p.loopEscape == if tty then escapeChar else ClientOptions.SSH_ESCAPECHAR_NONE
  {
    var window := if tty then ShiftRight1(defaultWindow) else defaultWindow;
    var packetMax := if tty then ShiftRight1(defaultPacket) else defaultPacket;
    var channel := if !noShell || dummyChanBug then Some(ChannelPlan(window, packetMax, !noShell)) else None;
    Plan(channel, if tty then escapeChar else ClientOptions.SSH_ESCAPECHAR_NONE)
  }

  /**
   * With -N the session never allocates a tty, so the client loop runs with
   * no escape character, and any channel opened for a buggy server has neither
   * the shell callback nor a halved window.
   */
  lemma NoShellSession(f: ClientOptions.Flags, commandEmpty: bool, stdinIsTty: bool, dummyChanBug: bool,
                       escapeChar: int, defaultWindow: NonNegInt32, defaultPacket: NonNegInt32)
    requires ClientOptions.FlagsConsistent(f) && f.noShell
    ensures var tty := ClientOptions.TtyAllocated(f, commandEmpty, stdinIsTty);
      var p := Session2Plan(f.noShell, dummyChanBug, tty, escapeChar, defaultWindow, defaultPacket);
      p.loopEscape == ClientOptions.SSH_ESCAPECHAR_NONE &&
      (p.channel.Some? ==> !p.channel.value.setupCallback && p.channel.value.window == defaultWindow)
  {
    ClientOptions.NoTtyWins(f, commandEmpty, stdinIsTty);
  }
}
