/** The echo command: each box echoes the test string back, reported as `<box>: <text>`. */
module Echo {
  import opened Wrappers
  import opened Addressing
  import opened Messages

  const EchoCmd: string := "echo"

  datatype EchoFolded = EchoFolded(responses: seq<string>, result: StepResult)

  /** What one reply adds to the responses: `<box>: <text>` for a successful echo, else nothing. */
  function EchoLine(m: Message): seq<string> {
    match DevFromTopic(BoxBaseTopic, EchoCmd, m.topic)
    case None => []
    case Some(box) =>
      if m.payload.Reply? && m.payload.success && m.payload.returnVal.EchoReturn? then
        [box + ": " + m.payload.returnVal.payload]
      else []
  }

  /**
   * `CmdEcho._parse_response`: an unmatched topic, a payload without
   * `success`, or a successful one without `returnVal.payload` raises before
   * anything is appended. With `['all']` it reads the missing
   * `self.discovered` and raises after appending; otherwise it unblocks.
   */
  function EchoStep(responses: seq<string>, m: Message, devices: Devices): (r: EchoFolded)
    ensures r.responses == responses + EchoLine(m)
    ensures r.result == Handled(true) <==>
              (!IsAllList(devices) && DevFromTopic(BoxBaseTopic, EchoCmd, m.topic).Some?
               && m.payload.Reply? && (m.payload.success ==> m.payload.returnVal.EchoReturn?))
    ensures r.result != Handled(false)
  {
    match DevFromTopic(BoxBaseTopic, EchoCmd, m.topic)
    case None => EchoFolded(responses, Raised)
    case Some(box) =>
      match m.payload
      case Exception => EchoFolded(responses, Raised)
      case NoSuccessKey => EchoFolded(responses, Raised)
      case Reply(success, returnVal) =>
        if success && !returnVal.EchoReturn? then EchoFolded(responses, Raised)
        else
          var rs := if success then responses + [box + ": " + returnVal.payload] else responses;
          EchoFolded(rs, if IsAllList(devices) then Raised else Handled(true))
  }

  function FoldEcho(responses: seq<string>, msgs: seq<Message>, devices: Devices): seq<string>
    decreases |msgs|
  {
    if msgs == [] then responses
    else FoldEcho(EchoStep(responses, msgs[0], devices).responses, msgs[1..], devices)
  }

  function EchoLines(msgs: seq<Message>): seq<string> {
    if msgs == [] then [] else EchoLine(msgs[0]) + EchoLines(msgs[1..])
  }

  /**
   * After any sequence of replies the responses are each reply's line, in
   * arrival order; a failed box adds nothing whatever the others reply.
   */
  lemma {:induction false} FoldEchoIsLines(responses: seq<string>, msgs: seq<Message>, devices: Devices)
    ensures FoldEcho(responses, msgs, devices) == responses + EchoLines(msgs)
    decreases |msgs|
  {
    if msgs != [] {
      var next := EchoStep(responses, msgs[0], devices).responses;
      FoldEchoIsLines(next, msgs[1..], devices);
      assert responses + EchoLine(msgs[0]) + EchoLines(msgs[1..])
          == responses + (EchoLine(msgs[0]) + EchoLines(msgs[1..]));
    }
  }

  /**
   * Echo to otbox02 and otbox10, both answering "pong": exactly the two
   * lines `otbox02: pong` and `otbox10: pong`.
   */
  lemma TwoBoxesEcho()
    ensures var msgs := [Message(RespTopic(BoxBaseTopic, "otbox02", EchoCmd), Reply(true, EchoReturn("pong"))),
                         Message(RespTopic(BoxBaseTopic, "otbox10", EchoCmd), Reply(true, EchoReturn("pong")))];
            FoldEcho([], msgs, Explicit(["otbox02", "otbox10"])) == ["otbox02: pong", "otbox10: pong"]
  {
    var devices := Explicit(["otbox02", "otbox10"]);
    var m0 := Message(RespTopic(BoxBaseTopic, "otbox02", EchoCmd), Reply(true, EchoReturn("pong")));
    var m1 := Message(RespTopic(BoxBaseTopic, "otbox10", EchoCmd), Reply(true, EchoReturn("pong")));
    RespTopicRoundTrip(BoxBaseTopic, "otbox02", EchoCmd);
    RespTopicRoundTrip(BoxBaseTopic, "otbox10", EchoCmd);
    var msgs := [m0, m1];
    assert msgs[1..] == [m1] && msgs[1..][1..] == [];
    assert "otbox02" + ": " + "pong" == "otbox02: pong";
    assert "otbox10" + ": " + "pong" == "otbox10: pong";
    assert EchoStep([], m0, devices).responses == ["otbox02: pong"];
    assert EchoStep(["otbox02: pong"], m1, devices).responses == ["otbox02: pong", "otbox10: pong"];
    assert FoldEcho([], msgs, devices) == FoldEcho(["otbox02: pong"], [m1], devices);
    assert FoldEcho(["otbox02: pong"], [m1], devices)
        == FoldEcho(["otbox02: pong", "otbox10: pong"], [], devices);
  }

  /** `CmdEcho`'s response state. */
  class CmdEcho {
    const devices: Devices
    var responses: seq<string>

    constructor (devices: Devices)
      ensures this.devices == devices && responses == []
    {
      this.devices := devices;
      responses := [];
    }

    method ParseResponse(m: Message) returns (r: StepResult)
      modifies this
      ensures EchoFolded(responses, r) == EchoStep(old(responses), m, devices)
    {
      var box := DevFromTopic(BoxBaseTopic, EchoCmd, m.topic);
      if box.None? || !m.payload.Reply? {
        return Raised;
      }
      if m.payload.success {
        if !m.payload.returnVal.EchoReturn? {
          return Raised;
        }
        responses := responses + [box.value + ": " + m.payload.returnVal.payload];
      }
      if IsAllList(devices) {
        r := Raised;
      } else {
        r := Handled(true);
      }
    }

    /** The report: the number of responding boxes and their lines, in arrival order. */
    method Finish() returns (count: nat, lines: seq<string>)
      ensures count == |responses| && lines == responses
    {
      count := |responses|;
      lines := [];
      for k := 0 to |responses|
        invariant lines == responses[..k]
      {
        lines := lines + [responses[k]];
      }
    }
  }
}
