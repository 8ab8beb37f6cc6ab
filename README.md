# Rover ground-station client: a Dafny model of its channel logic

The rover client (`rover_client_GUI.py`) drives a remote rover over three
channels. The control channel sends joystick input as UDP text commands. The
video channel relays a TCP byte stream into a local player process. The
telemetry channel reads `$MOT` status records over UDP. The client also sends
one-shot shutdown and reboot instructions, probes the rover with `ping`, and
reads its settings from `key=value` lines. Four process-wide run-flags and the
player's pid tie the channels' lifetimes together.

This project models the sequential logic of those pieces and proves what it
promises:

- `Control`: `data_to_pwm` and the deadband
  (a positive axis gets a +0.01 bias; duties below 99 become 0; an axis command
  `7,LF,LR,RL,RR` goes out whenever either raw axis is non-zero), the per-tick
  hat/button event encoding (the last event wins), one polling tick and the
  control loop. The imperative parts are methods (`EncodeEvents`,
  `ReadButtons`, `FormatAxisCommand`, `ControlTick`, `RunControl`), each proved
  against a specification function.
- `Video`: the receive-and-forward loop, over a sequence of reads, each read
  being the chunk and the run-flag as seen right after the read.
- `Telemetry`: what one payload does (`Interpret`) and the receive loop.
- `Settings`: `func_get_setting` over the lines of the file.
- `SystemCommands`: the ping result mapping and the two admin instructions.
- `Lifecycle`: class `Client` with the four flags, `playerPid`, and logs of the
  workers spawned, the players launched and the pids signalled. Its methods are
  the start/stop/exit operations, taken as sequential atomic steps.
- `Text`: Python's `str()` of an int, `split`, `join`, `rstrip` and
  `replace(" ", "")`, with their round trips: `Join(Split(s)) == s` always,
  `Split(Join(p)) == p` for a non-empty `p` none of whose fields holds the
  separator (`["a,b"]` joins to `a,b`, which splits into two fields), and
  `ParseNat(NatToString(n)) == n`.

Inputs the program takes from the outside are parameters:

- pygame events and joystick readings;
- received chunks and payloads;
- the run-flag as another thread left it;
- ping's exit status;
- whether a connection succeeded;
- whether a pid still exists;
- the new player's pid.

Behaviour of the code that the model keeps as written:

- The telemetry record `$MOT,125,125` forwards only its second comma-separated field, `Motor: 125` (`Telemetry.MotorExample`).
- A joystick that failed to initialise leaves `j` unbound. The loop's first use of `j` raises, which ends the control loop before anything is sent (`Control.TickDatagrams` with `None`).
- A full positive axis gives a reverse duty of 101, one above the full negative axis's 100: the +0.01 bias is added before scaling by 100 (`Control.FullForwardRightAxis`).
- When the video worker ends on its own, it terminates the player but does not clear `player_pid`. The stale pid stays recorded until a stop clears it, or an exit while the process still exists (`Lifecycle.Client.RunVideo`, `Lifecycle.Client.Exit`).
- A line of the settings file that does not split into exactly two parts around `=` raises a ValueError. This covers a blank line and a value containing `=`. It can happen before the wanted key is reached (`Settings.BadLine`).
- Shutdown and reboot stop nothing when the instruction cannot be sent. `func_system_cmd` then raises from `sendall` on the unconnected socket and from `shutdown` in its `finally` (`Lifecycle.Client.AdminCommand`).
- `start_control_thread` and `start_video_thread` first write to a status box that exists only when that GUI group is shown. Otherwise they raise NameError before setting the flag. When the control group is hidden, the Start button therefore starts nothing.
- The telemetry worker's final status goes to `tag_log`, which is never defined, so "Telemetry stopped" is never shown.

The pygame event type codes are the pygame 1.x values: 9 (hat motion), 10 (button down), 11 (button up). This matches the hard-coded axis code 7, which is pygame 1.x's axis-motion code, and button states reported as `0`/`1`.

## Model

| member | source | states |
|---|---|---|
| `Control.Trunc` | rover_client_GUI.py:182-188 | Python `int()` of a float: the integer nearest to the value in the direction of zero, never more than 1 away |
| `Control.AxisDuties` | rover_client_GUI.py:181-188 | one axis's (forward, reverse) duty pair; a forward duty only for a negative axis, a reverse duty only for a positive one |
| `Control.DataToPwm` | rover_client_GUI.py:178-189 | `data_to_pwm`: LF is non-zero only for a negative first axis and LR only for a positive one; RL and RR likewise for the second axis |
| `Control.AxisDutiesBySign` | rover_client_GUI.py:178-189 | a negative axis gives only the forward duty floor(\|axis\|·100), a positive one only the reverse duty floor((axis+0.01)·100), zero gives neither; at most one of the pair is non-zero |
| `Control.AxisDutiesBounded` | rover_client_GUI.py:178-189 | for an axis in [-1,1] the forward duty is at most 100 and the reverse duty at most 101 |
| `Control.Clamp` | rover_client_GUI.py:256-259 | a clamped duty is 0 or at least 99, never above the duty, and differs from it only when the duty is below 99 |
| `Control.Deadband` | rover_client_GUI.py:256-259 | each of the four duties is clamped as `Control.Clamp` states |
| `Control.DriveMessage` | rover_client_GUI.py:260 | the `7,{},{},{},{}` text of four duties starts with `7,` |
| `Control.AxisMessage` | rover_client_GUI.py:253-260 | one tick's axis command: present exactly when either raw axis is non-zero |
| `Control.FormatAxisCommand` | rover_client_GUI.py:253-260 | the imperative clamp-and-format step yields exactly the axis message of the two axes (deadband applied, "" when both are zero) |
| `Control.AxisMessageSentIff` | rover_client_GUI.py:246-260 | an axis-drive message exists if and only if either raw axis is non-zero, and it then starts with `7,` |
| `Control.AxisMessageDuties` | rover_client_GUI.py:178-260 | for axes in [-1,1] each sent duty is 0 or at least 99; forward duties are at most 100 and reverse ones at most 101; each axis has at most one non-zero duty, on the side its sign selects |
| `Control.DriveMessageRoundTrip` | rover_client_GUI.py:260 | a drive command has five comma-separated fields and decodes back to the four duties it was made from |
| `Control.FullReverseLeftAxis` | rover_client_GUI.py:253-260 | axes (-1, 0) give `7,100,0,0,0` |
| `Control.FullForwardRightAxis` | rover_client_GUI.py:185-188 | axes (0, 1) give `7,0,0,0,101`: the biased reverse duty exceeds 100 |
| `Control.HalfAxesClampToStop` | rover_client_GUI.py:253-260 | axes (0.5, -0.5) clamp to `7,0,0,0,0`, which is still sent |
| `Control.ReadButtons` | rover_client_GUI.py:227-228 | the loop over buttons 0..11 collects exactly the twelve `0`/`1` states |
| `Control.EventMessage` | rover_client_GUI.py:215-237 | the `",".join` message of one hat or button event is non-empty and starts with the event's type code |
| `Control.LastEventMessage` | rover_client_GUI.py:214-237 | the message a batch leaves in `control_msg`: "" or a message that starts with one of the three encoded type codes (9, 10, 11) |
| `Control.EncodeEvents` | rover_client_GUI.py:212-237 | the event-draining loop ends with the message of the last hat or button event of the batch, "" if none |
| `Control.EventMessageFields` | rover_client_GUI.py:215-237 | a hat message splits into type, x, y; a button message into the type and the 12 button states; neither is empty nor reads as a drive command |
| `Control.LastEventWins` | rover_client_GUI.py:214-237 | the message is that of the last hat/button event of the batch, whatever came before it |
| `Control.NoEventMessageIff` | rover_client_GUI.py:239-243 | nothing is sent for a batch if and only if it holds no hat or button event |
| `Control.LastEventOfConcat` | rover_client_GUI.py:214-237 | for a batch split in two, the later part decides the message if it holds an encoded event, else the earlier part; other event types change nothing |
| `Control.TickDatagrams` | rover_client_GUI.py:211-265 | one loop pass's datagrams: at most two, none empty; it raises exactly when there is no usable joystick, and then sends nothing |
| `Control.ControlTick` | rover_client_GUI.py:211-269 | one loop pass sends the event message and then the axis command, each when present; a missing joystick raises before anything is sent |
| `Control.TickOnePerSource` | rover_client_GUI.py:239-265 | a tick sends at most two non-empty datagrams (never merged); the last is a drive command exactly when an axis is non-zero; the first is an event message exactly when the batch holds a hat/button event |
| `Control.ControlStopIndex` | rover_client_GUI.py:209-273 | the loop stops at the first tick whose flag is cleared or that has no usable joystick (its first use raises) |
| `Control.SentByTicks` | rover_client_GUI.py:210-269 | the datagrams of a run of ticks, in order: at most two per tick, none empty |
| `Control.RunControl` | rover_client_GUI.py:209-273 | the control loop sends the datagrams of every tick before the stopping one, in order, and reports why it stopped |
| `Video.StopIndex` | rover_client_GUI.py:373-386 | the relay stops at the first read seen with the flag cleared or with an empty chunk |
| `Video.Relay` | rover_client_GUI.py:366-390 | the bytes written equal the concatenation of the chunks before the stopping read; `data_recv` is their length; each report is the running byte count; the end reason is flag, peer close or still receiving |
| `Video.Received` | rover_client_GUI.py:375-389 | the bytes of a run of reads, in order: at least as long as any one chunk |
| `Video.ReceivedPrefix` | rover_client_GUI.py:389 | what is written is a prefix of everything received |
| `Video.StopIndexIgnoresLater` | rover_client_GUI.py:378-386 | reads arriving after the stopping read do not move the stop |
| `Video.RelayIgnoresLater` | rover_client_GUI.py:373-389 | neither the stopping read nor anything after it is written |
| `Video.ReportsIncrease` | rover_client_GUI.py:382-390 | the reported byte counts strictly increase |
| `Telemetry.Interpret` | rover_client_GUI.py:445-454 | what one payload does: the loop closes exactly on the empty payload, and a motor status is `Motor: ` followed by a non-empty field |
| `Telemetry.MotorRecordShape` | rover_client_GUI.py:450-454 | `$MOT,v` followed by nothing or by further fields yields exactly `Motor: v` |
| `Telemetry.MotorRecordParsed` | rover_client_GUI.py:450-454 | a motor status comes only from a payload starting `$MOT,`, then the non-empty, comma-free forwarded text, then the end or a comma |
| `Telemetry.EndsLoopIff` | rover_client_GUI.py:445-456 | a payload ends the loop (empty, or the IndexError of a lone tag) if and only if it is "" or `$MOT` |
| `Telemetry.MotorExample` | rover_client_GUI.py:450-454 | `$MOT,125,125` yields `Motor: 125` |
| `Telemetry.OtherTagExample` | rover_client_GUI.py:451 | `$GPS,1,2` is ignored |
| `Telemetry.TelemetryStopIndex` | rover_client_GUI.py:443-456 | the loop stops at the first turn with the flag cleared or a loop-ending payload |
| `Telemetry.MotorUpdates` | rover_client_GUI.py:451-454 | every forwarded motor status starts with `Motor: ` |
| `Telemetry.RunTelemetry` | rover_client_GUI.py:442-456 | the loop forwards the motor statuses of the turns before the stopping one, in order, and reports flag, empty payload, record error or still listening |
| `Settings.Normalize` | rover_client_GUI.py:577 | a line after `rstrip("\r\n").replace(" ","")` holds no space and no character the line did not hold |
| `Settings.Fields` | rover_client_GUI.py:578 | `split("=")` of a normalised line: at least one piece, none holding `=` |
| `Settings.GetSetting` | rover_client_GUI.py:576-580 | a value found holds no space and no `=` |
| `Settings.FirstMatchWins` | rover_client_GUI.py:576-579 | the first line whose key matches supplies the value, when every earlier line is a well-formed line for another key |
| `Settings.FoundAtFirstMatch` | rover_client_GUI.py:576-579 | a value found comes from a line splitting into exactly that key and value, preceded only by well-formed lines for other keys |
| `Settings.MissingIff` | rover_client_GUI.py:576-580 | `False` is returned if and only if every line is a well-formed line for another key |
| `Settings.SpacedLine` | rover_client_GUI.py:577-579 | a `key = value` line ending in CR LF reads as that key and value, whatever lines follow |
| `SystemCommands.IcmpEchoRequest` | rover_client_GUI.py:525-533 | the probe gives 1 if and only if ping exited with 0, and -1 otherwise (including when the call raised) |
| `SystemCommands.PingRover` | rover_client_GUI.py:491-500 | the rover is reported up if and only if ping exited with 0 |
| `Text.NatToString` | rover_client_GUI.py:260 | `str()` of a count is non-empty decimal digits without a leading zero |
| `Text.ParseNatToString` | rover_client_GUI.py:260 | a formatted count reads back as the same number |
| `Text.IntToString` | rover_client_GUI.py:217-219 | `str()` of an integer is non-empty and holds no comma |
| `Text.Split` | rover_client_GUI.py:450 | `split(",")`: at least one piece, none holding the separator |
| `Text.Join` | rover_client_GUI.py:221 | `",".join` of n ≥ 1 fields is at least n − 1 characters long, one separator between each pair of fields; `Text.SplitJoin` and `Text.JoinSplit` give its round trips |
| `Text.SplitJoin` | rover_client_GUI.py:221 | splitting a comma-joined message gives its fields back when no field holds a comma |
| `Text.JoinSplit` | rover_client_GUI.py:450 | joining the fields of a split gives the payload back |
| `Text.RStrip` | rover_client_GUI.py:577 | `rstrip("\r\n")` leaves a prefix whose last character is neither CR nor LF, having removed only CR and LF |
| `Text.RemoveChar` | rover_client_GUI.py:577 | `replace(" ", "")` leaves no space, adds no character, shortens the text by exactly its number of spaces, and leaves space-free text unchanged |
| `Lifecycle.Client.Valid` | rover_client_GUI.py:370 | the lifecycle invariant every operation keeps: only pids of launched players are held or signalled |
| `Lifecycle.Client.constructor` | rover_client_GUI.py:27-30 | at start every flag is true, no player pid is held and only the supervisor worker is running |
| `Lifecycle.Client.StartSupervisor` | rover_client_GUI.py:102-106 | spawns the supervisor worker and changes no flag |
| `Lifecycle.Client.StopSupervisor` | rover_client_GUI.py:94-97 | clears the supervisor flag only |
| `Lifecycle.Client.StartControl` | rover_client_GUI.py:138-155 | sets the control flag and spawns one control worker; raises and changes nothing when the control group is hidden |
| `Lifecycle.Client.StopControl` | rover_client_GUI.py:129-133 | clears the control flag only |
| `Lifecycle.Client.StartVideo` | rover_client_GUI.py:306-323 | sets the video flag and spawns one video worker; raises and changes nothing when the video group is hidden |
| `Lifecycle.Client.StopVideo` | rover_client_GUI.py:284-301 | clears the video flag, kills the player if its pid exists, and leaves no pid on every path; raises exactly when no pid was held |
| `Lifecycle.Client.StartTelemetry` | rover_client_GUI.py:419-425 | sets the telemetry flag and spawns one telemetry worker |
| `Lifecycle.Client.StopTelemetry` | rover_client_GUI.py:411-414 | clears the telemetry flag only |
| `Lifecycle.Client.StartAll` | rover_client_GUI.py:70-74 | starts control, video and telemetry in order, stopping at the first start that raises |
| `Lifecycle.Client.StopAll` | rover_client_GUI.py:79-83 | clears control and video; clears telemetry only when a pid was held; never touches the supervisor flag |
| `Lifecycle.Client.StopAllGuarded` | rover_client_GUI.py:79-83 | clears control, video and telemetry in every case and leaves the supervisor flag |
| `Lifecycle.Client.RunVideo` | rover_client_GUI.py:328-400 | with the flag cleared, the rover down or the connect failing, nothing changes; otherwise the player's pid is recorded, the relayed bytes are those `Video.Relay` specifies, and the player is terminated at the end |
| `Lifecycle.Client.AdminCommand` | rover_client_GUI.py:472-486 | an instruction is sent once over a fresh stream; a failed send raises and nothing is stopped |
| `Lifecycle.Client.Shutdown` | rover_client_GUI.py:505-510 | sends `sudo shutdown -h now`, then stops control and video when those groups are shown, and never telemetry |
| `Lifecycle.Client.Reboot` | rover_client_GUI.py:515-520 | sends `sudo shutdown -r now`, then stops control and video when those groups are shown, and never telemetry |
| `Lifecycle.Client.Exit` | rover_client_GUI.py:585-614 | clears all four flags; kills the player and clears its pid only when the pid exists, else leaves the pid |
| `Lifecycle.StopAllLeavesTelemetryRunning` | rover_client_GUI.py:79-83 | pressing Stop with no player pid held leaves the telemetry flag set |
| `Lifecycle.StopAllGuardedStopsTelemetry` | rover_client_GUI.py:79-83 | the guarded Stop clears the telemetry flag in that same situation |

## Findings

| source | as written | input that shows it | evidently intended | confidence | as-written member | corrected member |
|---|---|---|---|---|---|---|
| rover_client_GUI.py:79-83 | `stop_all_treads` calls `stop_video_thread`. When no player pid is held, `psutil.pid_exists(None)` raises a TypeError (`None < 0`) after the `finally` clears the pid. So `stop_telemetry_thread` is never reached. | Press Stop before any video player was started, or press it twice | Stop clears the control, video and telemetry flags | medium, not executed; rests on `psutil.pid_exists` comparing its argument with 0 | `Lifecycle.Client.StopAll`, `Lifecycle.StopAllLeavesTelemetryRunning` | `Lifecycle.Client.StopAllGuarded`, `Lifecycle.StopAllGuardedStopsTelemetry` |

## Left out

- The tkinter window, buttons, status boxes and their colours: UI only. Status messages are not modelled, apart from the outcomes they report (end reasons, `raised` flags).
- Sockets: creating, connecting, sending, receiving, binding and closing them is network I/O. Received data is an input sequence, and a connect or send outcome is a boolean input.
- A `sendto` that raises in the control loop is not modelled. Neither is a player write that raises in the relay loop (the `except` at line 392).
- pygame initialisation, `pygame.event.get`, the joystick driver and `clock.tick(100)`: these are device I/O and timing. Events and joystick readings are inputs.
- A joystick that lacks one of hat 0, buttons 0..11, or axes 1 and 2 is not modelled. pygame raises for those readings, and `JoyState` always carries them.
- A `recv` that raises is not modelled. In the video relay (line 375, caught at 392) and in the telemetry loop (line 444, caught at 456) the model treats it as the end of the input sequence (`StillReceiving`, `Listening`).
- `subprocess.Popen`/`call`, `psutil` and `time.sleep` are external processes. Whether a pid exists is a boolean input, and a kill or terminate is recorded as the pid in `signalled`.
- A failed `Popen` of the player is not modelled. Neither is a player process that a reused pid makes "exist" again.
- Threads, the supervisor loop and the races between `exit`, `stop_video_thread` and the video worker are concurrency. Operations are sequential atomic steps.
- `Lifecycle.Client.RunVideo`: a read with the flag cleared stands for a stop that ran concurrently. That stop's own effect on the flag and the pid is a separate `StopVideo` step, and `RunVideo` does not include it.
- `Telemetry.RunTelemetry` assumes the motor status box exists, which holds when the control group is shown. Without it, the first `$MOT` update raises NameError and the loop ends.
- UTF-8 decoding of telemetry payloads is not modelled. Payloads are already strings, so the exception an invalid payload raises is not modelled either.
- Opening and reading the settings file, the startup sequence in `__main__` (`int()` of each setting), single-instance locking, `os.system("kill …")` and `sys.exit` are OS interaction.
- Float arithmetic in `axis * 100` and `axis + 0.01` is modelled with exact reals. IEEE-754 rounding effects are not captured.
- The ping command line and its 2-second wait are not modelled. Only the exit-status mapping is.
