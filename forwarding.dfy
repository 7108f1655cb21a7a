/**
 * Port-forwarding start-up and the replies to remote-forward requests
 * (ssh.c `ssh_init_forwarding` and `client_global_request_reply_fwd`). The
 * channel layer is outside the model: what each listener set-up or request
 * returned is an input.
 */
module Forwarding {
  import opened Wrappers

  const LOCAL_FAILED := "Could not request local forwarding."
  const REMOTE_FAILED := "Could not request remote forwarding."
  const TUNNEL_FAILED := "Could not request tunnel forwarding."

  /** What ssh_init_forwarding logs short of fatal: error() for local and tunnel, logit() for remote. */
  datatype Message = LocalError | RemoteWarning(index: nat) | TunnelError

  datatype Report = Report(fatal: Option<string>, messages: seq<Message>, remoteIssued: nat)

  /** How many local listeners came up. */
  function CountTrue(s: seq<bool>): (n: nat)
    ensures n <= |s|
    ensures n == |s| <==> forall i | 0 <= i < |s| :: s[i]
    ensures n == 0 <==> forall i | 0 <= i < |s| :: !s[i]
  {
    if |s| == 0 then 0 else CountTrue(s[..|s| - 1]) + if s[|s| - 1] then 1 else 0
  }

  /** The first remote request that returned < 0. */
  function FirstFailure(r: seq<int>): (f: Option<nat>)
    ensures f.None? <==> forall i | 0 <= i < |r| :: r[i] >= 0
    ensures f.Some? ==> f.value < |r| && r[f.value] < 0 && forall i | 0 <= i < f.value :: r[i] >= 0
  {
    if |r| == 0 then None
    else if r[0] < 0 then Some(0)
    else match FirstFailure(r[1..])
      case None => None
      case Some(k) => Some(k + 1)
  }

  /** The warnings for the failed remote requests, in request order. */
  function RemoteWarnings(r: seq<int>): seq<Message>
  {
    if |r| == 0 then []
    else RemoteWarnings(r[..|r| - 1]) + if r[|r| - 1] < 0 then [RemoteWarning(|r| - 1)] else []
  }

  /** One warning per failed request, naming it, in increasing order; none when nothing failed. */
  lemma {:induction false} RemoteWarningsSpec(r: seq<int>)
    ensures var w := RemoteWarnings(r);
      (forall m | m in w :: m.RemoteWarning? && m.index < |r| && r[m.index] < 0) &&
      (forall i | 0 <= i < |r| && r[i] < 0 :: RemoteWarning(i) in w) &&
      (forall j, k | 0 <= j < k < |w| :: w[j].index < w[k].index) &&
      ((forall i | 0 <= i < |r| :: r[i] >= 0) ==> w == [])
  {
    if |r| > 0 {
      var r0 := r[..|r| - 1];
      RemoteWarningsSpec(r0);
      assert forall i | 0 <= i < |r| - 1 :: r0[i] == r[i];
    }
  }

  /**
   * The policy of ssh_init_forwarding (ssh.c:913-978) in closed form: local
   * failures are fatal under ExitOnForwardFailure when any listener failed,
   * and logged when all failed; the first failed remote request is fatal
   * under it and each one a warning otherwise; the tunnel likewise.
   */
  function Policy(localOk: seq<bool>, remoteRet: seq<int>, tunOpen: bool, tunRet: int, exitOnFailure: bool): Report {
    var n := |localOk|;
    if n > 0 && CountTrue(localOk) < n && exitOnFailure then Report(Some(LOCAL_FAILED), [], 0)
    else
      var m1 := if n > 0 && CountTrue(localOk) == 0 then [LocalError] else [];
      if exitOnFailure && FirstFailure(remoteRet).Some? then
        Report(Some(REMOTE_FAILED), m1, FirstFailure(remoteRet).value + 1)
      else
        var m2 := m1 + RemoteWarnings(remoteRet);
        if tunOpen && tunRet == -1 then
          if exitOnFailure then Report(Some(TUNNEL_FAILED), m2, |remoteRet|)
          else Report(None, m2 + [TunnelError], |remoteRet|)
        else Report(None, m2, |remoteRet|)
  }

  /** With the option off nothing is fatal; with it on nothing is merely warned about. */
  lemma PolicyFatalOnlyUnderExit(localOk: seq<bool>, remoteRet: seq<int>, tunOpen: bool, tunRet: int, exitOnFailure: bool)
    ensures var r := Policy(localOk, remoteRet, tunOpen, tunRet, exitOnFailure);
      (r.fatal.Some? ==> exitOnFailure) &&
      (exitOnFailure ==> forall m | m in r.messages :: m == LocalError)
  {
    RemoteWarningsSpec(remoteRet);
  }

  /** Local forwarding is fatal exactly when there is one, one failed and the option is on. */
  lemma PolicyLocal(localOk: seq<bool>, remoteRet: seq<int>, tunOpen: bool, tunRet: int, exitOnFailure: bool)
    ensures var r := Policy(localOk, remoteRet, tunOpen, tunRet, exitOnFailure);
      (r.fatal == Some(LOCAL_FAILED) <==> |localOk| > 0 && (exists i | 0 <= i < |localOk| :: !localOk[i]) && exitOnFailure) &&
      (LocalError in r.messages <==> |localOk| > 0 && (forall i | 0 <= i < |localOk| :: !localOk[i]) && !exitOnFailure)
  {
    RemoteWarningsSpec(remoteRet);
  }

  /** The first loop of ssh_init_forwarding: `success` summed over the local listeners (ssh.c:923-936). */
  method CountListeners(localOk: seq<bool>) returns (success: nat)
    ensures success == CountTrue(localOk)
  {
    success := 0;
    var i := 0;
    while i < |localOk|
      invariant 0 <= i <= |localOk|
      invariant success == CountTrue(localOk[..i])
    {
      assert localOk[..i + 1][..i] == localOk[..i];
      success := success + if localOk[i] then 1 else 0;
      i := i + 1;
    }
    assert localOk[..i] == localOk;
  }

  /**
   * The second loop (ssh.c:945-964): one request per remote forward, a
   * warning for each that returned < 0, or a stop at the first such one
   * when `exitOnFailure`. `issued` counts the requests sent.
   */
  method RequestRemotes(remoteRet: seq<int>, exitOnFailure: bool) returns (failed: bool, warnings: seq<Message>, issued: nat)
    ensures failed <==> exitOnFailure && FirstFailure(remoteRet).Some?
    ensures failed ==> issued == FirstFailure(remoteRet).value + 1 && warnings == []
    ensures !failed ==> issued == |remoteRet| && warnings == RemoteWarnings(remoteRet)
  {
    warnings := [];
    var j := 0;
    while j < |remoteRet|
      invariant 0 <= j <= |remoteRet|
      invariant warnings == RemoteWarnings(remoteRet[..j])
      invariant exitOnFailure ==> forall k | 0 <= k < j :: remoteRet[k] >= 0
    {
      assert remoteRet[..j + 1][..j] == remoteRet[..j];
      if remoteRet[j] < 0 {
        if exitOnFailure {
          return true, [], j + 1;
        }
        warnings := warnings + [RemoteWarning(j)];
      }
      j := j + 1;
    }
    assert remoteRet[..j] == remoteRet;
    failed, issued := false, j;
  }

  /**
   * ssh_init_forwarding (ssh.c:913-978): `localOk[i]` is what
   * channel_setup_local_fwd_listener reported for local forward i,
   * `remoteRet[i]` what channel_request_remote_forwarding returned for remote
   * forward i, `tunRet` what client_request_tun_fwd returned.
   */
  method InitForwarding(localOk: seq<bool>, remoteRet: seq<int>, tunOpen: bool, tunRet: int, exitOnFailure: bool)
    returns (fatal: Option<string>, messages: seq<Message>, remoteIssued: nat)
    ensures Report(fatal, messages, remoteIssued) == Policy(localOk, remoteRet, tunOpen, tunRet, exitOnFailure)
  {
    var n := |localOk|;
    var success := CountListeners(localOk);
    if n > 0 && success != n && exitOnFailure {
      return Some(LOCAL_FAILED), [], 0;
    }
    messages := [];
    if n > 0 && success == 0 {
      messages := [LocalError];
    }
    var failed, warnings, issued := RequestRemotes(remoteRet, exitOnFailure);
    if failed {
      return Some(REMOTE_FAILED), messages, issued;
    }
    messages := messages + warnings;
    remoteIssued := issued;
    fatal := None;
    if tunOpen && tunRet == -1 {
      if exitOnFailure {
        return Some(TUNNEL_FAILED), messages, remoteIssued;
      }
      messages := messages + [TunnelError];
    }
  }

  // ---------------------------------------------------------------- global request replies

  /** SSH2_MSG_REQUEST_SUCCESS and SSH2_MSG_REQUEST_FAILURE (section 4 of RFC 4254). */
  const SSH2_MSG_REQUEST_SUCCESS := 81
  const SSH2_MSG_REQUEST_FAILURE := 82

  /** What one reply does: nothing, a debug line, a warning, or fatal, naming remote forward `index`. */
  datatype ReplyAction = Ignored | Confirmed(index: nat) | Warned(index: nat, listenPort: int) | Failed(index: nat, listenPort: int)

  /** client_global_request_reply_fwd for the reply that finds the counter at `id` (ssh.c:1155-1178). */
  function ReplyFor(id: nat, msgType: int, listenPorts: seq<int>, exitOnFailure: bool): (a: ReplyAction)
    ensures a.Ignored? <==> id >= |listenPorts|
    ensures !a.Ignored? ==> a.index == id
    ensures a.Failed? <==> id < |listenPorts| && msgType == SSH2_MSG_REQUEST_FAILURE && exitOnFailure
    ensures a.Warned? <==> id < |listenPorts| && msgType == SSH2_MSG_REQUEST_FAILURE && !exitOnFailure
    ensures a.Warned? || a.Failed? ==> a.listenPort == listenPorts[id]
  {
    if id >= |listenPorts| then Ignored
    else if msgType == SSH2_MSG_REQUEST_FAILURE then
      if exitOnFailure then Failed(id, listenPorts[id]) else Warned(id, listenPorts[id])
    else Confirmed(id)
  }

  /** The actions for a run of replies, the first finding the counter at `start`. */
  function Replies(start: nat, types: seq<int>, listenPorts: seq<int>, exitOnFailure: bool): (acts: seq<ReplyAction>)
    ensures |acts| == |types|
    decreases |types|
  {
    if |types| == 0 then []
    else
      Replies(start, types[..|types| - 1], listenPorts, exitOnFailure) +
      [ReplyFor(start + |types| - 1, types[|types| - 1], listenPorts, exitOnFailure)]
  }

  /** The k-th reply is attributed to the request issued k-th, whatever it says. */
  lemma {:induction false} ReplyAt(start: nat, types: seq<int>, listenPorts: seq<int>, exitOnFailure: bool, k: nat)
    requires k < |types|
    ensures Replies(start, types, listenPorts, exitOnFailure)[k] == ReplyFor(start + k, types[k], listenPorts, exitOnFailure)
    decreases |types|
  {
    if k < |types| - 1 {
      ReplyAt(start, types[..|types| - 1], listenPorts, exitOnFailure, k);
    }
  }

  /**
   * Replies are matched to requests by arrival order only: two runs that
   * agree on the k-th reply's type attribute it identically, whatever
   * came before.
   */
  lemma AttributionByOrder(types: seq<int>, other: seq<int>, listenPorts: seq<int>, exitOnFailure: bool, k: nat)
    requires k < |types| && k < |other| && types[k] == other[k]
    ensures Replies(0, types, listenPorts, exitOnFailure)[k] == Replies(0, other, listenPorts, exitOnFailure)[k]
  {
    ReplyAt(0, types, listenPorts, exitOnFailure, k);
    ReplyAt(0, other, listenPorts, exitOnFailure, k);
  }

  /**
   * A server that answered two requests out of order would have its refusal of
   * the first blamed on the second forward's port.
   */
  lemma OutOfOrderReplyBlamesWrongPort()
    ensures Replies(0, [SSH2_MSG_REQUEST_SUCCESS, SSH2_MSG_REQUEST_FAILURE], [2222, 3333], true) ==
      [Confirmed(0), Failed(1, 3333)]
  {
  }

  /** The static `client_global_request_id` together with the forwards it indexes. */
  class ReplyTracker {
    var nextId: nat
    const listenPorts: seq<int>
    const exitOnFailure: bool

    constructor (ports: seq<int>, exitOnForwardFailure: bool)
      ensures nextId == 0 && listenPorts == ports && exitOnFailure == exitOnForwardFailure
    {
      nextId := 0;
      listenPorts := ports;
      exitOnFailure := exitOnForwardFailure;
    }

    /** One reply: the counter is read, then bumped by exactly one. */
    method OnReply(msgType: int) returns (a: ReplyAction)
      modifies this
      ensures nextId == old(nextId) + 1
      ensures a == ReplyFor(old(nextId), msgType, listenPorts, exitOnFailure)
    {
      var i := nextId;
      nextId := nextId + 1;
      a := ReplyFor(i, msgType, listenPorts, exitOnFailure);
    }

    /** A run of replies as the dispatcher delivers them, stopping at the first fatal one. */
    method OnReplies(types: seq<int>) returns (acts: seq<ReplyAction>)
      modifies this
      ensures |acts| <= |types|
      ensures nextId == old(nextId) + |acts|
      ensures acts == Replies(old(nextId), types[..|acts|], listenPorts, exitOnFailure)
      ensures forall k | 0 <= k < |acts| - 1 :: !acts[k].Failed?
      ensures |acts| < |types| ==> |acts| > 0 && acts[|acts| - 1].Failed?
    {
      acts := [];
      var k := 0;
      while k < |types|
        invariant 0 <= k <= |types| && |acts| == k
        invariant nextId == old(nextId) + k
        invariant acts == Replies(old(nextId), types[..k], listenPorts, exitOnFailure)
        invariant forall j | 0 <= j < k :: !acts[j].Failed?
      {
        assert types[..k + 1][..k] == types[..k];
        var a := OnReply(types[k]);
        acts := acts + [a];
        k := k + 1;
        if a.Failed? {
          return;
        }
      }
      assert types[..k] == types;
    }
  }
}
