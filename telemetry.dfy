/**
 * The telemetry channel (`start_telemetry`): each received payload is split on
 * commas; a `$MOT` record with a non-empty second field becomes the motor
 * status `Motor: <field>`, other records are ignored, and an empty payload or
 * a lone `$MOT` ends the loop.
 */
module Telemetry {
  import opened Text

  const MotorTag: string := "$MOT"
  const MotorPrefix: string := "Motor: "

  /** What one received payload does to the loop. */
  datatype Record =
    | Closed                      // empty payload: the loop breaks
    | Truncated                   // a lone `$MOT`: reading field 2 raises IndexError
    | MotorStatus(text: string)   // forwarded to the motor status
    | Ignored                     // any other record

  function Interpret(payload: string): (r: Record)
    ensures r.Closed? <==> payload == ""
    ensures r.MotorStatus? ==> MotorPrefix <= r.text && |r.text| > |MotorPrefix|
  {
    if payload == "" then Closed
    else
      var d := Split(payload, ',');
      if d[0] != MotorTag then Ignored
      else if |d| < 2 then Truncated
      else if d[1] != "" then MotorStatus(MotorPrefix + d[1])
      else Ignored
  }

  /** `$MOT,v` followed by nothing or by further fields yields exactly `Motor: v`. */
  lemma MotorRecordShape(v: string, rest: string)
    requires v != "" && ',' !in v
    requires rest == "" || rest[0] == ','
    ensures Interpret(MotorTag + "," + v + rest) == MotorStatus(MotorPrefix + v)
  {
    var p := MotorTag + "," + v + rest;
    assert p == MotorTag + [','] + (v + rest);
    SplitAfterField(MotorTag, ',', v + rest);
    if rest == "" {
      assert v + rest == v;
      SplitSingleField(v, ',');
    } else {
      assert v + rest == v + [','] + rest[1..];
      SplitAfterField(v, ',', rest[1..]);
    }
  }

  /**
   * Conversely, a motor status comes only from a payload that starts with
   * `$MOT,`, followed by the forwarded text, which holds no comma and is
   * followed by the end of the payload or by a comma.
   */
  lemma MotorRecordParsed(payload: string)
    requires Interpret(payload).MotorStatus?
    ensures var v := Interpret(payload).text[|MotorPrefix|..];
      && MotorPrefix <= Interpret(payload).text
      && v != "" && ',' !in v
      && |MotorTag| + 1 + |v| <= |payload|
      && payload[..|MotorTag| + 1 + |v|] == MotorTag + "," + v
      && (|payload| == |MotorTag| + 1 + |v| || payload[|MotorTag| + 1 + |v|] == ',')
  {
    var d := Split(payload, ',');
    var v := d[1];
    assert Interpret(payload).text[|MotorPrefix|..] == v;
    JoinSplit(payload, ',');
    if |d| == 2 {
      assert d[1..] == [v];
      assert payload == MotorTag + [','] + v;
    } else {
      assert Join(d[1..], ',') == v + [','] + Join(d[1..][1..], ',');
      assert payload == MotorTag + [','] + (v + [','] + Join(d[1..][1..], ','));
    }
  }

  /** The loop ends on a payload exactly when it is empty or is the bare tag `$MOT`. */
  lemma EndsLoopIff(payload: string)
    ensures (Interpret(payload).Closed? || Interpret(payload).Truncated?) <==> payload == "" || payload == MotorTag
  {
    JoinSplit(payload, ',');
    SplitSingleField(MotorTag, ',');
  }

  /** The record `$MOT,125,125` forwards only its second field. */
  lemma MotorExample()
    ensures Interpret("$MOT,125,125") == MotorStatus("Motor: 125")
  {
    var p := MotorTag + "," + "125" + ",125";
    MotorRecordShape("125", ",125");
    assert Interpret(p) == MotorStatus(MotorPrefix + "125");
    assert MotorPrefix + "125" == "Motor: 125";
    assert p == "$MOT,125,125";
  }

  /** A record with another tag changes nothing. */
  lemma OtherTagExample()
    ensures Interpret("$GPS,1,2") == Ignored
  {
    SplitAfterField("$GPS", ',', "1,2");
    assert "$GPS" + [','] + "1,2" == "$GPS,1,2";
  }

  /** One turn of `while RUN_TELEMETRY_THREAD`: the flag at that check, then the payload received. */
  datatype Datagram = Datagram(running: bool, payload: string)

  /** Why the loop stopped: flag cleared, empty payload, a lone `$MOT`, or still listening. */
  datatype TelemetryEnd = TelemetryStopped | ChannelClosed | RecordError | Listening

  predicate EndsLoop(r: Record) { r.Closed? || r.Truncated? }

  /** The index of the first turn that ends the loop, or the number of turns. */
  function TelemetryStopIndex(inbox: seq<Datagram>): (k: nat)
    ensures k <= |inbox|
    ensures forall i :: 0 <= i < k ==> inbox[i].running && !EndsLoop(Interpret(inbox[i].payload))
    ensures k < |inbox| ==> !inbox[k].running || EndsLoop(Interpret(inbox[k].payload))
    decreases |inbox|
  {
    if |inbox| == 0 || !inbox[0].running || EndsLoop(Interpret(inbox[0].payload)) then 0
    else 1 + TelemetryStopIndex(inbox[1..])
  }

  /** The motor statuses forwarded for the given payloads, in order. */
  function MotorUpdates(inbox: seq<Datagram>): (updates: seq<string>)
    ensures forall i :: 0 <= i < |updates| ==> MotorPrefix <= updates[i]
    decreases |inbox|
  {
    if |inbox| == 0 then []
    else
      var r := Interpret(inbox[|inbox| - 1].payload);
      MotorUpdates(inbox[..|inbox| - 1]) + (if r.MotorStatus? then [r.text] else [])
  }

  /** The telemetry loop, with the motor statuses it forwards and why it ended. */
  method RunTelemetry(inbox: seq<Datagram>) returns (updates: seq<string>, end: TelemetryEnd)
    ensures updates == MotorUpdates(inbox[..TelemetryStopIndex(inbox)])
    ensures end == if TelemetryStopIndex(inbox) == |inbox| then Listening
                   else if !inbox[TelemetryStopIndex(inbox)].running then TelemetryStopped
                   else if Interpret(inbox[TelemetryStopIndex(inbox)].payload).Closed? then ChannelClosed
                   else RecordError
  {
    updates := [];
    var i := 0;
    while i < |inbox|
      invariant i <= TelemetryStopIndex(inbox)
      invariant updates == MotorUpdates(inbox[..i])
      decreases |inbox| - i
    {
      if !inbox[i].running {
        return updates, TelemetryStopped;
      }
      var r := Interpret(inbox[i].payload);
      if r.Closed? {
        return updates, ChannelClosed;
      }
      if r.Truncated? {
        return updates, RecordError;
      }
      assert inbox[..i + 1][..i] == inbox[..i];
      if r.MotorStatus? {
        updates := updates + [r.text];
      }
      i := i + 1;
    }
    assert inbox[..|inbox|] == inbox;
    end := Listening;
  }
}
