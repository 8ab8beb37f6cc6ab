/**
 * The sequential logic of the control channel (`start_control`): turning the
 * two joystick axes into four motor duties with a deadband, encoding the hat
 * and button events of one polling tick, and the loop that sends the
 * resulting datagrams tick after tick.
 */
module Control {
  import opened Wrappers
  import opened Text

  // ---------------------------------------------------------------------------
  // Axis-to-duty conversion (data_to_pwm) and deadband
  // ---------------------------------------------------------------------------

  /** Bias added to a positive axis before truncation. */
  const Deviation: real := 0.01
  /** Duties strictly below this level are forced to 0. */
  const InterferenceLevel: nat := 99
  /** Type code that starts an axis-drive command. */
  const AxisCommandCode: string := "7"

  /** The four motor duties: left forward/reverse, right forward/reverse. */
  datatype Duties = Duties(lf: nat, lr: nat, rl: nat, rr: nat)

  /** Python `int()` on a float: truncation toward zero. */
  function Trunc(x: real): (r: int)
    ensures 0.0 <= x ==> r as real <= x < r as real + 1.0
    ensures x < 0.0 ==> r as real - 1.0 < x <= r as real
  {
    if x >= 0.0 then x.Floor else -((-x).Floor)
  }

  function Abs(n: int): nat { if n < 0 then -n else n }

  /** The (forward, reverse) duty pair of one axis, as `data_to_pwm` computes it. */
  function AxisDuties(axis: real): (p: (nat, nat))
    ensures p.0 != 0 ==> axis < 0.0
    ensures p.1 != 0 ==> axis > 0.0
  {
    if axis < 0.0 then (Abs(Trunc(axis * 100.0)), 0)
    else if axis > 0.0 then (0, Abs(Trunc((axis + Deviation) * 100.0)))
    else (0, 0)
  }

  /** `data_to_pwm`: the left pair comes from the first axis, the right pair from the second. */
  function DataToPwm(axis1: real, axis2: real): (d: Duties)
    ensures (d.lf != 0 ==> axis1 < 0.0) && (d.lr != 0 ==> axis1 > 0.0)
    ensures (d.rl != 0 ==> axis2 < 0.0) && (d.rr != 0 ==> axis2 > 0.0)
  {
    var (lf, lr) := AxisDuties(axis1);
    var (rl, rr) := AxisDuties(axis2);
    Duties(lf, lr, rl, rr)
  }

  /**
   * The sign of the axis picks the duty: a negative axis gives only a forward
   * duty of floor(|axis| * 100), a positive one only a reverse duty of
   * floor((axis + 0.01) * 100), and zero gives neither.
   */
  lemma AxisDutiesBySign(axis: real)
    ensures axis < 0.0 ==> AxisDuties(axis) == ((-axis * 100.0).Floor, 0)
    ensures axis > 0.0 ==> AxisDuties(axis) == (0, ((axis + 0.01) * 100.0).Floor)
    ensures axis == 0.0 ==> AxisDuties(axis) == (0, 0)
    ensures AxisDuties(axis).0 == 0 || AxisDuties(axis).1 == 0
  {
  }

  /** For an axis in [-1, 1] the forward duty is at most 100 and the reverse duty at most 101. */
  lemma AxisDutiesBounded(axis: real)
    requires -1.0 <= axis <= 1.0
    ensures AxisDuties(axis).0 <= 100
    ensures AxisDuties(axis).1 <= 101
  {
  }

  /**
   * `out` is what the deadband makes of `duty`: 0 or at least the
   * interference level, never more than `duty`, and different from it only
   * when `duty` is below the level.
   */
  predicate ClampedFrom(out: nat, duty: nat)
  {
    (out == 0 || out >= InterferenceLevel) && out <= duty && (out == duty || duty < InterferenceLevel)
  }

  /** The deadband: a duty below the interference level becomes 0. */
  function Clamp(duty: nat): (c: nat)
    ensures ClampedFrom(c, duty)
  {
    if duty < InterferenceLevel then 0 else duty
  }

  function Deadband(d: Duties): (r: Duties)
    ensures ClampedFrom(r.lf, d.lf) && ClampedFrom(r.lr, d.lr)
    ensures ClampedFrom(r.rl, d.rl) && ClampedFrom(r.rr, d.rr)
  {
    Duties(Clamp(d.lf), Clamp(d.lr), Clamp(d.rl), Clamp(d.rr))
  }

  /** The text of an axis-drive command `7,LF,LR,RL,RR`. */
  function DriveMessage(d: Duties): (m: string)
    ensures |m| >= 2 && m[..2] == AxisCommandCode + ","
  {
    Join([AxisCommandCode, NatToString(d.lf), NatToString(d.lr), NatToString(d.rl), NatToString(d.rr)], ',')
  }

  /**
   * The axis-drive message of one tick: sent whenever either raw axis is
   * non-zero, even if all four duties clamp to 0; otherwise nothing ("").
   */
  function AxisMessage(left: real, right: real): (m: string)
    ensures m != "" <==> left != 0.0 || right != 0.0
  {
    if left != 0.0 || right != 0.0 then DriveMessage(Deadband(DataToPwm(left, right))) else ""
  }

  /** The imperative clamp-and-format step of the control loop. */
  method FormatAxisCommand(left: real, right: real) returns (msg: string)
    ensures msg == AxisMessage(left, right)
  {
    msg := "";
    if left != 0.0 || right != 0.0 {
      var d := DataToPwm(left, right);
      var lf, lr, rl, rr := d.lf, d.lr, d.rl, d.rr;
      if lf < InterferenceLevel { lf := 0; }
      if lr < InterferenceLevel { lr := 0; }
      if rl < InterferenceLevel { rl := 0; }
      if rr < InterferenceLevel { rr := 0; }
      msg := DriveMessage(Duties(lf, lr, rl, rr));
    }
  }

  /** Reads an axis-drive command back into its four duties. */
  function ParseDrive(msg: string): Option<Duties>
  {
    var f := Split(msg, ',');
    if |f| != 5 || f[0] != AxisCommandCode then None
    else match (ParseNat(f[1]), ParseNat(f[2]), ParseNat(f[3]), ParseNat(f[4]))
      case (Some(a), Some(b), Some(c), Some(e)) => Some(Duties(a, b, c, e))
      case _ => None
  }

  /** Every drive command has five comma-separated fields that decode to the duties it was made from. */
  lemma DriveMessageRoundTrip(d: Duties)
    ensures |Split(DriveMessage(d), ',')| == 5
    ensures ParseDrive(DriveMessage(d)) == Some(d)
  {
    var parts := [AxisCommandCode, NatToString(d.lf), NatToString(d.lr), NatToString(d.rl), NatToString(d.rr)];
    forall i | 0 <= i < |parts| ensures ',' !in parts[i] {
      assert ',' !in IntToString(d.lf) && ',' !in IntToString(d.lr);
      assert ',' !in IntToString(d.rl) && ',' !in IntToString(d.rr);
    }
    SplitJoin(parts, ',');
    ParseNatToString(d.lf);
    ParseNatToString(d.lr);
    ParseNatToString(d.rl);
    ParseNatToString(d.rr);
  }

  /** An axis-drive message exists exactly when either raw axis is non-zero. */
  lemma AxisMessageSentIff(left: real, right: real)
    ensures AxisMessage(left, right) != "" <==> left != 0.0 || right != 0.0
    ensures AxisMessage(left, right) != "" ==> AxisMessage(left, right)[..2] == "7,"
  {
  }

  /**
   * For axes in [-1, 1] the duties of a sent command obey the deadband, the
   * range and the per-axis exclusivity: each duty is 0 or at least 99, the
   * forward duties are at most 100 and the reverse ones at most 101, and each
   * axis has at most one non-zero duty, on the side its sign selects.
   */
  lemma AxisMessageDuties(left: real, right: real)
    requires -1.0 <= left <= 1.0 && -1.0 <= right <= 1.0
    requires left != 0.0 || right != 0.0
    ensures var d := Deadband(DataToPwm(left, right));
      && AxisMessage(left, right) == DriveMessage(d)
      && (d.lf == 0 || InterferenceLevel <= d.lf <= 100)
      && (d.lr == 0 || InterferenceLevel <= d.lr <= 101)
      && (d.rl == 0 || InterferenceLevel <= d.rl <= 100)
      && (d.rr == 0 || InterferenceLevel <= d.rr <= 101)
      && (d.lf == 0 || d.lr == 0) && (d.rl == 0 || d.rr == 0)
      && (d.lf != 0 ==> left < 0.0) && (d.lr != 0 ==> left > 0.0)
      && (d.rl != 0 ==> right < 0.0) && (d.rr != 0 ==> right > 0.0)
  {
  }

  /** Full left stick one way: `7,100,0,0,0`. */
  lemma FullReverseLeftAxis()
    ensures AxisMessage(-1.0, 0.0) == "7,100,0,0,0"
  {
    AxisDutiesBySign(-1.0);
    assert DataToPwm(-1.0, 0.0) == Duties(100, 0, 0, 0);
    assert NatToString(100) == "100" && NatToString(0) == "0";
    JoinFiveFields("7", "100", "0", "0", "0");
  }

  /** Full right stick the other way: the biased reverse duty reaches 101, `7,0,0,0,101`. */
  lemma FullForwardRightAxis()
    ensures AxisMessage(0.0, 1.0) == "7,0,0,0,101"
  {
    AxisDutiesBySign(1.0);
    assert DataToPwm(0.0, 1.0) == Duties(0, 0, 0, 101);
    assert NatToString(101) == "101" && NatToString(0) == "0";
    JoinFiveFields("7", "0", "0", "0", "101");
  }

  /** Half deflection clamps to all zeros, and the command is still sent: `7,0,0,0,0`. */
  lemma HalfAxesClampToStop()
    ensures AxisMessage(0.5, -0.5) == "7,0,0,0,0"
  {
    AxisDutiesBySign(0.5);
    AxisDutiesBySign(-0.5);
    assert DataToPwm(0.5, -0.5) == Duties(0, 51, 50, 0);
    assert NatToString(0) == "0";
    JoinFiveFields("7", "0", "0", "0", "0");
  }

  lemma JoinFiveFields(a: string, b: string, c: string, d: string, e: string)
    ensures Join([a, b, c, d, e], ',') == a + "," + b + "," + c + "," + d + "," + e
  {
    JoinCons(d, [e], ',');
    assert [d] + [e] == [d, e];
    JoinCons(c, [d, e], ',');
    assert [c] + [d, e] == [c, d, e];
    JoinCons(b, [c, d, e], ',');
    assert [b] + [c, d, e] == [b, c, d, e];
    JoinCons(a, [b, c, d, e], ',');
    assert [a] + [b, c, d, e] == [a, b, c, d, e];
  }

  // ---------------------------------------------------------------------------
  // Hat and button events of one tick
  // ---------------------------------------------------------------------------

  /** pygame 1.x event type codes of the three event kinds the loop encodes. */
  const JoyHatMotion: int := 9
  const JoyButtonDown: int := 10
  const JoyButtonUp: int := 11
  /** Buttons 0..11 are reported with every button event. */
  const ButtonCount: nat := 12

  /** A pending pygame event; the loop looks only at its type code. */
  datatype Event = Event(code: int)

  type ButtonStates = s: seq<bool> | |s| == 12
    witness [false, false, false, false, false, false, false, false, false, false, false, false]

  /** What the joystick reports when polled: hat 0, buttons 0..11, axes 1 (left) and 2 (right). */
  datatype JoyState = JoyState(hatX: int, hatY: int, buttons: ButtonStates, left: real, right: real)

  predicate Encoded(e: Event)
  {
    e.code == JoyHatMotion || e.code == JoyButtonDown || e.code == JoyButtonUp
  }

  function ButtonText(pressed: bool): string { if pressed then "1" else "0" }

  function ButtonFields(buttons: ButtonStates): (f: seq<string>)
    ensures |f| == ButtonCount
  {
    seq(12, b requires 0 <= b < 12 => ButtonText(buttons[b]))
  }

  /** The `for button in range(0,12)` loop that collects the button states. */
  method ReadButtons(buttons: ButtonStates) returns (fields: seq<string>)
    ensures fields == ButtonFields(buttons)
  {
    fields := [];
    for b := 0 to ButtonCount
      invariant fields == ButtonFields(buttons)[..b]
    {
      fields := fields + [ButtonText(buttons[b])];
    }
  }

  /** `type,x,y` for a hat event; `type` and the 12 button states for a button event. */
  function EventMessage(e: Event, joy: JoyState): (m: string)
    requires Encoded(e)
    ensures m != "" && IntToString(e.code) <= m
  {
    if e.code == JoyHatMotion then Join([IntToString(e.code), IntToString(joy.hatX), IntToString(joy.hatY)], ',')
    else Join([IntToString(e.code)] + ButtonFields(joy.buttons), ',')
  }

  /** The message of the last encoded event of a batch, or "" when the batch has none. */
  function LastEventMessage(events: seq<Event>, joy: JoyState): (m: string)
    ensures m != "" ==> IntToString(JoyHatMotion) <= m || IntToString(JoyButtonDown) <= m || IntToString(JoyButtonUp) <= m
    decreases |events|
  {
    if |events| == 0 then ""
    else if Encoded(events[|events| - 1]) then EventMessage(events[|events| - 1], joy)
    else LastEventMessage(events[..|events| - 1], joy)
  }

  /** The event-draining loop: each encoded event overwrites the message. */
  method EncodeEvents(events: seq<Event>, joy: JoyState) returns (msg: string)
    ensures msg == LastEventMessage(events, joy)
  {
    msg := "";
    for i := 0 to |events|
      invariant msg == LastEventMessage(events[..i], joy)
    {
      var e := events[i];
      if e.code == JoyHatMotion {
        var hatData := [IntToString(e.code), IntToString(joy.hatX), IntToString(joy.hatY)];
        msg := Join(hatData, ',');
      } else if e.code == JoyButtonDown {
        var fields := ReadButtons(joy.buttons);
        msg := Join([IntToString(e.code)] + fields, ',');
      } else if e.code == JoyButtonUp {
        var fields := ReadButtons(joy.buttons);
        msg := Join([IntToString(e.code)] + fields, ',');
      }
      assert events[..i + 1][..i] == events[..i];
    }
    assert events[..|events|] == events;
  }

  /**
   * A hat message has three fields (type, x, y) and a button message thirteen
   * (type, then buttons 0..11); neither is empty and neither reads as a drive command.
   */
  lemma EventMessageFields(e: Event, joy: JoyState)
    requires Encoded(e)
    ensures var f := Split(EventMessage(e, joy), ',');
      && EventMessage(e, joy) != ""
      && (e.code == JoyHatMotion ==> f == [IntToString(e.code), IntToString(joy.hatX), IntToString(joy.hatY)])
      && (e.code != JoyHatMotion ==> |f| == 1 + ButtonCount && f[0] == IntToString(e.code) && f[1..] == ButtonFields(joy.buttons))
      && ParseDrive(EventMessage(e, joy)).None?
  {
    var head := IntToString(e.code);
    assert head == "9" || head == "10" || head == "11";
    if e.code == JoyHatMotion {
      var parts := [head, IntToString(joy.hatX), IntToString(joy.hatY)];
      SplitJoin(parts, ',');
      assert EventMessage(e, joy) == head + [','] + Join(parts[1..], ',');
    } else {
      var parts := [head] + ButtonFields(joy.buttons);
      forall i | 0 <= i < |parts| ensures ',' !in parts[i] {
        if i > 0 { assert parts[i] == ButtonText(joy.buttons[i - 1]); }
      }
      SplitJoin(parts, ',');
      assert EventMessage(e, joy) == head + [','] + Join(parts[1..], ',');
    }
  }

  /** Last write wins: the message is that of the last encoded event of the batch. */
  lemma {:induction false} LastEventWins(events: seq<Event>, joy: JoyState, i: nat)
    requires i < |events| && Encoded(events[i])
    requires forall j :: i < j < |events| ==> !Encoded(events[j])
    ensures LastEventMessage(events, joy) == EventMessage(events[i], joy)
    decreases |events|
  {
    if i < |events| - 1 {
      var init := events[..|events| - 1];
      assert init[i] == events[i];
      LastEventWins(init, joy, i);
    }
  }

  /** Nothing is sent for a batch exactly when it holds no hat or button event. */
  lemma {:induction false} NoEventMessageIff(events: seq<Event>, joy: JoyState)
    ensures LastEventMessage(events, joy) == "" <==> forall j :: 0 <= j < |events| ==> !Encoded(events[j])
    decreases |events|
  {
    if |events| > 0 {
      var n := |events| - 1;
      var init := events[..n];
      NoEventMessageIff(init, joy);
      if Encoded(events[n]) {
        EventMessageFields(events[n], joy);
      } else {
        assert forall j :: 0 <= j < n ==> init[j] == events[j];
      }
    }
  }

  /**
   * Splitting a batch: the later part decides the message if it holds any hat
   * or button event, and otherwise the earlier part does, so events of other
   * types change nothing.
   */
  lemma {:induction false} LastEventOfConcat(a: seq<Event>, b: seq<Event>, joy: JoyState)
    ensures LastEventMessage(a + b, joy)
      == if LastEventMessage(b, joy) != "" then LastEventMessage(b, joy) else LastEventMessage(a, joy)
    decreases |b|
  {
    if |b| == 0 {
      assert a + b == a;
    } else {
      var n := |b| - 1;
      assert (a + b)[..|a + b| - 1] == a + b[..n];
      assert (a + b)[|a + b| - 1] == b[n];
      if Encoded(b[n]) {
        EventMessageFields(b[n], joy);
      } else {
        LastEventOfConcat(a, b[..n], joy);
      }
    }
  }

  // ---------------------------------------------------------------------------
  // One polling tick and the control loop
  // ---------------------------------------------------------------------------

  /**
   * The datagrams of one tick, in sending order, and whether the tick raised.
   * `None` stands for a joystick that failed to initialise: its first use in
   * the loop raises, before anything is sent.
   */
  datatype TickResult = TickResult(sent: seq<string>, crashed: bool)

  function TickDatagrams(events: seq<Event>, joy: Option<JoyState>): (r: TickResult)
    ensures r.crashed <==> joy.None?
    ensures r.crashed ==> r.sent == []
    ensures |r.sent| <= 2 && forall k :: 0 <= k < |r.sent| ==> r.sent[k] != ""
  {
    match joy
    case None => TickResult([], true)
    case Some(j) =>
      var b := LastEventMessage(events, j);
      var a := AxisMessage(j.left, j.right);
      TickResult((if b != "" then [b] else []) + (if a != "" then [a] else []), false)
  }

  /** The body of `while RUN_CONTROL_THREAD`: the event message first, then the axis command. */
  method ControlTick(events: seq<Event>, joy: Option<JoyState>) returns (r: TickResult)
    ensures r == TickDatagrams(events, joy)
  {
    if joy.None? {
      return TickResult([], true);
    }
    var j := joy.value;
    var sent: seq<string> := [];
    var msg := EncodeEvents(events, j);
    if msg != "" {
      sent := sent + [msg];
    }
    msg := FormatAxisCommand(j.left, j.right);
    if msg != "" {
      sent := sent + [msg];
    }
    r := TickResult(sent, false);
  }

  /**
   * A tick sends at most one datagram per source, never merged: an event
   * message exactly when the batch holds a hat or button event, and after it
   * an axis-drive command exactly when either axis is non-zero.
   */
  lemma TickOnePerSource(events: seq<Event>, j: JoyState)
    ensures var r := TickDatagrams(events, Some(j));
      && !r.crashed
      && |r.sent| <= 2
      && (forall k :: 0 <= k < |r.sent| ==> r.sent[k] != "")
      && ((j.left != 0.0 || j.right != 0.0) <==> |r.sent| > 0 && ParseDrive(r.sent[|r.sent| - 1]).Some?)
      && ((exists k :: 0 <= k < |events| && Encoded(events[k])) <==> |r.sent| > 0 && ParseDrive(r.sent[0]).None?)
  {
    var b := LastEventMessage(events, j);
    var a := AxisMessage(j.left, j.right);
    NoEventMessageIff(events, j);
    AxisMessageSentIff(j.left, j.right);
    if a != "" {
      DriveMessageRoundTrip(Deadband(DataToPwm(j.left, j.right)));
    }
    if b != "" {
      LastEventMessageNotDrive(events, j);
    }
  }

  lemma {:induction false} LastEventMessageNotDrive(events: seq<Event>, joy: JoyState)
    requires LastEventMessage(events, joy) != ""
    ensures ParseDrive(LastEventMessage(events, joy)).None?
    decreases |events|
  {
    var n := |events| - 1;
    if Encoded(events[n]) {
      EventMessageFields(events[n], joy);
    } else {
      LastEventMessageNotDrive(events[..n], joy);
    }
  }

  /** A tick as polled: the run-flag at the loop check, the pending events, the joystick. */
  datatype Poll = Poll(running: bool, events: seq<Event>, joy: Option<JoyState>)

  /** How the control loop ended: flag cleared, joystick use raised, or still polling. */
  datatype ControlEnd = ControlStopped | DeviceError | StillPolling

  /**
   * The index of the first poll that ends the loop (flag cleared, or no usable
   * joystick, whose first use raises), or the number of polls.
   */
  function ControlStopIndex(polls: seq<Poll>): (k: nat)
    ensures k <= |polls|
    ensures forall i :: 0 <= i < k ==> polls[i].running && polls[i].joy.Some?
    ensures k < |polls| ==> !polls[k].running || polls[k].joy.None?
    decreases |polls|
  {
    if |polls| == 0 || !polls[0].running || polls[0].joy.None? then 0
    else 1 + ControlStopIndex(polls[1..])
  }

  /** Everything sent by the given ticks, in order. */
  function SentByTicks(polls: seq<Poll>): (sent: seq<string>)
    ensures |sent| <= 2 * |polls|
    ensures forall k :: 0 <= k < |sent| ==> sent[k] != ""
    decreases |polls|
  {
    if |polls| == 0 then []
    else SentByTicks(polls[..|polls| - 1]) + TickDatagrams(polls[|polls| - 1].events, polls[|polls| - 1].joy).sent
  }

  /** The control loop: polls until the flag is seen cleared or the joystick raises. */
  method RunControl(polls: seq<Poll>) returns (sent: seq<string>, end: ControlEnd)
    ensures sent == SentByTicks(polls[..ControlStopIndex(polls)])
    ensures end == if ControlStopIndex(polls) == |polls| then StillPolling
                   else if !polls[ControlStopIndex(polls)].running then ControlStopped
                   else DeviceError
  {
    sent := [];
    var i := 0;
    while i < |polls|
      invariant i <= ControlStopIndex(polls)
      invariant sent == SentByTicks(polls[..i])
      decreases |polls| - i
    {
      if !polls[i].running {
        assert ControlStopIndex(polls) == i;
        return sent, ControlStopped;
      }
      var r := ControlTick(polls[i].events, polls[i].joy);
      if r.crashed {
        assert ControlStopIndex(polls) == i;
        return sent, DeviceError;
      }
      assert polls[..i + 1][..i] == polls[..i];
      sent := sent + r.sent;
      i := i + 1;
    }
    assert ControlStopIndex(polls) == |polls|;
    end := StillPolling;
  }
}
