/**
 * The channel lifecycle: the four run-flags, the video player's pid and the
 * start/stop/exit operations that change them, taken as sequential atomic
 * steps (no threads). Worker threads are recorded by their channel in
 * `spawned`; kill and terminate requests by pid in `signalled`.
 */
module Lifecycle {
  import opened Wrappers
  import opened Video
  import opened SystemCommands

  datatype Channel = ControlChannel | VideoChannel | TelemetryChannel | SupervisorChannel

  /** How one run of the video worker ended. */
  datatype VideoOutcome =
    | NotRunning                      // the flag was already cleared when the worker began
    | RoverDown                       // the echo probe failed: no connection attempted
    | ConnectFailed                   // the stream could not be connected: no player started
    | Relayed(written: seq<byte>, dataRecv: nat, end: RelayEnd)

  /** Everything the lifecycle operations change, in one value. */
  datatype Snapshot = Snapshot(
    runControl: bool, runVideo: bool, runTelemetry: bool, runSupervisor: bool,
    playerPid: Option<int>, launched: seq<int>, signalled: seq<int>, spawned: seq<Channel>)

  class Client {
    var runControl: bool
    var runVideo: bool
    var runTelemetry: bool
    var runSupervisor: bool
    /** The pid of the current video player, if any. */
    var playerPid: Option<int>
    /** Pids of the players started, in order. */
    var launched: seq<int>
    /** Pids a kill or terminate was sent to, in order. */
    var signalled: seq<int>
    /** Worker threads started, in order. */
    var spawned: seq<Channel>
    /** The GUI_SHOW_CONTROL and GUI_SHOW_VIDEO settings. */
    const showControl: bool
    const showVideo: bool

    function State(): Snapshot
      reads this
    {
      Snapshot(runControl, runVideo, runTelemetry, runSupervisor, playerPid, launched, signalled, spawned)
    }

    /** The client only ever holds, kills or terminates the pid of a player it started. */
    ghost predicate Valid()
      reads this
    {
      && (playerPid.Some? ==> playerPid.value in launched)
      && (forall p :: p in signalled ==> p in launched)
    }

    /** Program start: every flag true, no player, and the supervisor thread started. */
    constructor (showControl: bool, showVideo: bool)
      ensures Valid()
      ensures State() == Snapshot(true, true, true, true, None, [], [], [SupervisorChannel])
      ensures this.showControl == showControl && this.showVideo == showVideo
    {
      runControl, runVideo, runTelemetry, runSupervisor := true, true, true, true;
      playerPid := None;
      launched, signalled := [], [];
      spawned := [SupervisorChannel];
      this.showControl, this.showVideo := showControl, showVideo;
    }

    /** Starting the supervisor spawns its thread and leaves its flag alone. */
    method StartSupervisor()
      requires Valid()
      modifies this
      ensures Valid()
      ensures State() == old(State()).(spawned := old(spawned) + [SupervisorChannel])
    {
      spawned := spawned + [SupervisorChannel];
    }

    method StopSupervisor()
      requires Valid()
      modifies this
      ensures Valid()
      ensures State() == old(State()).(runSupervisor := false)
    {
      runSupervisor := false;
    }

    /**
     * Sets the control flag and spawns the worker. Its first step writes to
     * the control status box, which exists only when the control group is
     * shown; otherwise it raises before changing anything.
     */
    method StartControl() returns (raised: bool)
      requires Valid()
      modifies this
      ensures Valid()
      ensures raised <==> !showControl
      ensures State() == if raised then old(State())
                         else old(State()).(runControl := true, spawned := old(spawned) + [ControlChannel])
    {
      if !showControl {
        return true;
      }
      raised := false;
      runControl := true;
      spawned := spawned + [ControlChannel];
    }

    method StopControl()
      requires Valid()
      modifies this
      ensures Valid()
      ensures State() == old(State()).(runControl := false)
    {
      runControl := false;
    }

    /** Like StartControl, for the video flag and the video status box. */
    method StartVideo() returns (raised: bool)
      requires Valid()
      modifies this
      ensures Valid()
      ensures raised <==> !showVideo
      ensures State() == if raised then old(State())
                         else old(State()).(runVideo := true, spawned := old(spawned) + [VideoChannel])
    {
      if !showVideo {
        return true;
      }
      raised := false;
      runVideo := true;
      spawned := spawned + [VideoChannel];
    }

    /**
     * Clears the video flag and kills the player if its pid still exists.
     * The pid is cleared on every path; with no pid at all the existence test
     * raises (`raised`) after that.
     */
    method StopVideo(pidExists: bool) returns (raised: bool)
      requires Valid()
      modifies this
      ensures Valid()
      ensures raised <==> old(playerPid).None?
      ensures State() == old(State()).(
        runVideo := false,
        playerPid := None,
        signalled := if old(playerPid).Some? && pidExists then old(signalled) + [old(playerPid).value] else old(signalled))
    {
      runVideo := false;
      raised := playerPid.None?;
      if playerPid.Some? && pidExists {
        signalled := signalled + [playerPid.value];
      }
      playerPid := None;
    }

    method StartTelemetry()
      requires Valid()
      modifies this
      ensures Valid()
      ensures State() == old(State()).(runTelemetry := true, spawned := old(spawned) + [TelemetryChannel])
    {
      runTelemetry := true;
      spawned := spawned + [TelemetryChannel];
    }

    method StopTelemetry()
      requires Valid()
      modifies this
      ensures Valid()
      ensures State() == old(State()).(runTelemetry := false)
    {
      runTelemetry := false;
    }

    /**
     * The Start button: control, video and telemetry, in that order; a start
     * that raises ends the sequence there.
     */
    method StartAll() returns (raised: bool)
      requires Valid()
      modifies this
      ensures Valid()
      ensures raised <==> !showControl || !showVideo
      ensures !showControl ==> State() == old(State())
      ensures showControl && !showVideo ==>
        State() == old(State()).(runControl := true, spawned := old(spawned) + [ControlChannel])
      ensures showControl && showVideo ==> State() == old(State()).(
        runControl := true, runVideo := true, runTelemetry := true,
        spawned := old(spawned) + [ControlChannel, VideoChannel, TelemetryChannel])
    {
      raised := StartControl();
      if raised {
        return;
      }
      raised := StartVideo();
      if raised {
        return;
      }
      StartTelemetry();
    }

    /**
     * The Stop button as written: when no player pid is held, stopping the
     * video raises and the telemetry flag is never cleared. The supervisor
     * flag is never touched.
     */
    method StopAll(pidExists: bool) returns (raised: bool)
      requires Valid()
      modifies this
      ensures Valid()
      ensures raised <==> old(playerPid).None?
      ensures State() == old(State()).(
        runControl := false, runVideo := false,
        runTelemetry := if raised then old(runTelemetry) else false,
        playerPid := None,
        signalled := if old(playerPid).Some? && pidExists then old(signalled) + [old(playerPid).value] else old(signalled))
    {
      StopControl();
      raised := StopVideo(pidExists);
      if !raised {
        StopTelemetry();
      }
    }

    /** The Stop button as evidently intended: all three channel flags are cleared. */
    method StopAllGuarded(pidExists: bool)
      requires Valid()
      modifies this
      ensures Valid()
      ensures State() == old(State()).(
        runControl := false, runVideo := false, runTelemetry := false,
        playerPid := None,
        signalled := if old(playerPid).Some? && pidExists then old(signalled) + [old(playerPid).value] else old(signalled))
    {
      StopControl();
      var _ := StopVideo(pidExists);
      StopTelemetry();
    }

    /**
     * One run of the video worker. `pingExit` is the probe's exit status,
     * `connected` whether the stream connected, `pid` the new player's pid and
     * `stream` the reads with the flag as seen after each. A started player is
     * terminated when the relay ends, but its pid stays recorded.
     */
    method RunVideo(pingExit: Option<int>, connected: bool, pid: int, stream: seq<Read>) returns (outcome: VideoOutcome)
      requires Valid()
      modifies this
      ensures Valid()
      ensures !old(runVideo) ==> outcome == NotRunning && State() == old(State())
      ensures old(runVideo) && IcmpEchoRequest(pingExit) == -1 ==> outcome == RoverDown && State() == old(State())
      ensures old(runVideo) && IcmpEchoRequest(pingExit) == 1 && !connected ==>
        outcome == ConnectFailed && State() == old(State())
      ensures old(runVideo) && IcmpEchoRequest(pingExit) == 1 && connected ==>
        && outcome.Relayed?
        && outcome.written == Received(stream[..StopIndex(stream)])
        && outcome.dataRecv == |outcome.written|
        && outcome.end == (if StopIndex(stream) == |stream| then StillReceiving
                           else if !stream[StopIndex(stream)].running then FlagCleared
                           else PeerClosed)
        && State() == old(State()).(playerPid := Some(pid), launched := old(launched) + [pid],
                                    signalled := old(signalled) + [pid])
    {
      if !runVideo {
        return NotRunning;
      }
      if IcmpEchoRequest(pingExit) == -1 {
        return RoverDown;
      }
      if !connected {
        return ConnectFailed;
      }
      launched := launched + [pid];
      playerPid := Some(pid);
      var written, dataRecv, _, end := Relay(stream);
      signalled := signalled + [pid];
      outcome := Relayed(written, dataRecv, end);
    }

    /**
     * Shutdown or reboot: send one instruction, then stop control and video
     * when those groups are shown; telemetry is never stopped. A send that
     * fails (`delivered` false) raises before anything is stopped.
     */
    method AdminCommand(command: string, delivered: bool, pidExists: bool) returns (sent: Option<string>, raised: bool)
      requires Valid()
      modifies this
      ensures Valid()
      ensures !delivered ==> sent == None && raised && State() == old(State())
      ensures delivered ==> sent == Some(command) && (raised <==> showVideo && old(playerPid).None?)
      ensures delivered ==> State() == old(State()).(
        runControl := if showControl then false else old(runControl),
        runVideo := if showVideo then false else old(runVideo),
        playerPid := if showVideo then None else old(playerPid),
        signalled := if showVideo && old(playerPid).Some? && pidExists
                     then old(signalled) + [old(playerPid).value] else old(signalled))
    {
      if !delivered {
        return None, true;
      }
      sent, raised := Some(command), false;
      if showControl {
        StopControl();
      }
      if showVideo {
        raised := StopVideo(pidExists);
      }
    }

    method Shutdown(delivered: bool, pidExists: bool) returns (sent: Option<string>, raised: bool)
      requires Valid()
      modifies this
      ensures Valid()
      ensures !delivered ==> sent == None && raised && State() == old(State())
      ensures delivered ==> sent == Some("sudo shutdown -h now") && (raised <==> showVideo && old(playerPid).None?)
      ensures delivered ==> State() == old(State()).(
        runControl := if showControl then false else old(runControl),
        runVideo := if showVideo then false else old(runVideo),
        playerPid := if showVideo then None else old(playerPid),
        signalled := if showVideo && old(playerPid).Some? && pidExists
                     then old(signalled) + [old(playerPid).value] else old(signalled))
    {
      sent, raised := AdminCommand(ShutdownCommand, delivered, pidExists);
    }

    method Reboot(delivered: bool, pidExists: bool) returns (sent: Option<string>, raised: bool)
      requires Valid()
      modifies this
      ensures Valid()
      ensures !delivered ==> sent == None && raised && State() == old(State())
      ensures delivered ==> sent == Some("sudo shutdown -r now") && (raised <==> showVideo && old(playerPid).None?)
      ensures delivered ==> State() == old(State()).(
        runControl := if showControl then false else old(runControl),
        runVideo := if showVideo then false else old(runVideo),
        playerPid := if showVideo then None else old(playerPid),
        signalled := if showVideo && old(playerPid).Some? && pidExists
                     then old(signalled) + [old(playerPid).value] else old(signalled))
    {
      sent, raised := AdminCommand(RebootCommand, delivered, pidExists);
    }

    /**
     * The Exit button: all four flags cleared; a player whose pid still exists
     * is killed and its pid cleared, otherwise the pid is left as it was.
     */
    method Exit(pidExists: bool)
      requires Valid()
      modifies this
      ensures Valid()
      ensures State() == old(State()).(
        runControl := false, runVideo := false, runTelemetry := false, runSupervisor := false,
        playerPid := if old(playerPid).Some? && pidExists then None else old(playerPid),
        signalled := if old(playerPid).Some? && pidExists then old(signalled) + [old(playerPid).value] else old(signalled))
    {
      runControl, runVideo, runTelemetry, runSupervisor := false, false, false, false;
      if playerPid.Some? && pidExists {
        signalled := signalled + [playerPid.value];
        playerPid := None;
      }
    }
  }

  /**
   * Pressing Stop when no player was ever started leaves the telemetry
   * channel running.
   */
  method StopAllLeavesTelemetryRunning() returns (telemetryRunning: bool)
    ensures telemetryRunning
  {
    var c := new Client(true, true);
    var _ := c.StopAll(false);
    telemetryRunning := c.runTelemetry;
  }

  /** The guarded Stop clears the telemetry flag in the same situation. */
  method StopAllGuardedStopsTelemetry() returns (telemetryRunning: bool)
    ensures !telemetryRunning
  {
    var c := new Client(true, true);
    c.StopAllGuarded(false);
    telemetryRunning := c.runTelemetry;
  }
}
