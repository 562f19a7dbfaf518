/**
 * The response tally kept by the program and changesoftware commands:
 * counters and the success and failure topic lists, folded one response
 * at a time, and the OK / FAIL / MUTE report rendered from them.
 */
module Tally {
  import opened Wrappers
  import opened Addressing
  import opened Messages

  const ProgramCmd: string := "program"
  const ChangeSoftwareCmd: string := "changesoftware"

  /** The `self.response` record. */
  datatype Tally = Tally(successCount: int, msgCount: int,
                         failedTopics: seq<string>, successTopics: seq<string>)

  const InitialTally: Tally := Tally(0, 0, [], [])

  /** Every counted response is in exactly one list, and the successes are counted. */
  predicate Consistent(t: Tally) {
    t.msgCount == |t.successTopics| + |t.failedTopics| && t.successCount == |t.successTopics|
  }

  datatype Folded = Folded(tally: Tally, result: StepResult)

  /**
   * One `_parse_response`: responses with an `exception` key are ignored;
   * any other is counted, and one without a `success` key then raises;
   * the rest go to the success or the failure list. With `['all']` an
   * unblock is queued only once `fleet` responses are counted.
   */
  function TallyStep(t: Tally, m: Message, devices: Devices, fleet: nat): (r: Folded)
    ensures m.payload.Exception? ==> r == Folded(t, Handled(false))
    ensures m.payload.NoSuccessKey? ==>
              r == Folded(t.(msgCount := t.msgCount + 1), Raised)
    ensures m.payload.Reply? ==> r.tally.msgCount == t.msgCount + 1 && r.result.Handled?
    ensures m.payload.Reply? && m.payload.success ==>
              r.tally.successCount == t.successCount + 1
              && r.tally.successTopics == t.successTopics + [m.topic]
              && r.tally.failedTopics == t.failedTopics
    ensures m.payload.Reply? && !m.payload.success ==>
              r.tally.successCount == t.successCount
              && r.tally.successTopics == t.successTopics
              && r.tally.failedTopics == t.failedTopics + [m.topic]
    ensures r.result == Handled(true) <==>
              m.payload.Reply? && (!IsAllList(devices) || r.tally.msgCount == fleet)
    ensures Consistent(t) && !m.payload.NoSuccessKey? ==> Consistent(r.tally)
  {
    match m.payload
    case Exception => Folded(t, Handled(false))
    case NoSuccessKey => Folded(t.(msgCount := t.msgCount + 1), Raised)
    case Reply(success, _) =>
      var counted := t.(msgCount := t.msgCount + 1);
      var t' := if success then counted.(successCount := counted.successCount + 1,
                                          successTopics := counted.successTopics + [m.topic])
                else counted.(failedTopics := counted.failedTopics + [m.topic]);
      Folded(t', Handled(if IsAllList(devices) then t'.msgCount == fleet else true))
  }

  /** The tally after the given responses, in order of arrival. */
  function FoldTally(t: Tally, msgs: seq<Message>, devices: Devices, fleet: nat): Tally
    decreases |msgs|
  {
    if msgs == [] then t
    else FoldTally(TallyStep(t, msgs[0], devices, fleet).tally, msgs[1..], devices, fleet)
  }

  /** How many of the responses are counted (all but those with an `exception` key). */
  function Counted(msgs: seq<Message>): nat {
    if msgs == [] then 0 else (if msgs[0].payload.Exception? then 0 else 1) + Counted(msgs[1..])
  }

  predicate NoneMalformed(msgs: seq<Message>) {
    forall k :: 0 <= k < |msgs| ==> !msgs[k].payload.NoSuccessKey?
  }

  /** Folding well-formed responses keeps the tally consistent and counts each non-exception one. */
  lemma {:induction false} FoldKeepsConsistent(t: Tally, msgs: seq<Message>, devices: Devices, fleet: nat)
    requires Consistent(t) && NoneMalformed(msgs)
    ensures Consistent(FoldTally(t, msgs, devices, fleet))
    ensures FoldTally(t, msgs, devices, fleet).msgCount == t.msgCount + Counted(msgs)
    decreases |msgs|
  {
    if msgs != [] {
      FoldKeepsConsistent(TallyStep(t, msgs[0], devices, fleet).tally, msgs[1..], devices, fleet);
    }
  }

  /** Any number of deliveries of exception payloads leave the tally as it was. */
  lemma {:induction false} ExceptionRedeliveryIsNoOp(t: Tally, msgs: seq<Message>, devices: Devices, fleet: nat)
    requires forall k :: 0 <= k < |msgs| ==> msgs[k].payload.Exception?
    ensures FoldTally(t, msgs, devices, fleet) == t
    decreases |msgs|
  {
    if msgs != [] {
      ExceptionRedeliveryIsNoOp(t, msgs[1..], devices, fleet);
    }
  }

  datatype Status = OK | FAIL | MUTE

  /** A report line `<dev> <status>`. */
  datatype ReportLine = ReportLine(device: string, status: Status)

  /** The lines of a report, and whether `_finish` ran to its end (false: a topic did not match). */
  datatype Report = Report(lines: seq<ReportLine>, complete: bool)

  /** The devices of topics matched in order, up to the first topic that does not match. */
  datatype Parsed = Parsed(devices: seq<string>, complete: bool)

  function ParseTopics(base: string, cmd: string, topics: seq<string>): (p: Parsed)
    ensures |p.devices| <= |topics|
    ensures p.complete ==> |p.devices| == |topics|
    ensures p.complete ==> forall k :: 0 <= k < |topics| ==>
              DevFromTopic(base, cmd, topics[k]) == Some(p.devices[k])
  {
    if topics == [] then Parsed([], true)
    else
      var prev := ParseTopics(base, cmd, topics[..|topics| - 1]);
      if !prev.complete then prev
      else match DevFromTopic(base, cmd, topics[|topics| - 1])
        case None => Parsed(prev.devices, false)
        case Some(d) => Parsed(prev.devices + [d], true)
  }

  /** A topic that matches extends a complete parse of the topics before it by its device. */
  lemma ParseStep(base: string, cmd: string, topics: seq<string>, i: nat)
    requires i < |topics| && ParseTopics(base, cmd, topics[..i]).complete
    requires DevFromTopic(base, cmd, topics[i]).Some?
    ensures ParseTopics(base, cmd, topics[..i + 1])
            == Parsed(ParseTopics(base, cmd, topics[..i]).devices + [DevFromTopic(base, cmd, topics[i]).value], true)
  {
    assert topics[..i + 1][..i] == topics[..i];
  }

  /** After the first topic that does not match, parsing stops. */
  lemma {:induction false} ParseStopsAtMismatch(base: string, cmd: string, topics: seq<string>, i: nat)
    requires i < |topics| && ParseTopics(base, cmd, topics[..i]).complete
    requires DevFromTopic(base, cmd, topics[i]).None?
    ensures ParseTopics(base, cmd, topics) == Parsed(ParseTopics(base, cmd, topics[..i]).devices, false)
    decreases |topics|
  {
    if |topics| == i + 1 {
      assert topics[..|topics| - 1] == topics[..i];
    } else {
      var init := topics[..|topics| - 1];
      assert init[..i] == topics[..i];
      ParseStopsAtMismatch(base, cmd, init, i);
    }
  }

  function Tagged(devs: seq<string>, status: Status): (lines: seq<ReportLine>)
    ensures |lines| == |devs|
    ensures forall k :: 0 <= k < |devs| ==> lines[k] == ReportLine(devs[k], status)
  {
    if devs == [] then [] else Tagged(devs[..|devs| - 1], status) + [ReportLine(devs[|devs| - 1], status)]
  }

  /** MUTE for each requested device, in request order, that is not among the responders. */
  function MuteLines(requested: seq<string>, responders: seq<string>): seq<ReportLine> {
    if requested == [] then []
    else
      var d := requested[|requested| - 1];
      MuteLines(requested[..|requested| - 1], responders)
      + (if d !in responders then [ReportLine(d, MUTE)] else [])
  }

  /** The OK and FAIL part of a report, and the devices it names. */
  datatype Outcomes = Outcomes(lines: seq<ReportLine>, responders: seq<string>, complete: bool)

  /**
   * OK for each success topic's device in arrival order, then, only when
   * some counted response was not a success, FAIL for each failure topic's.
   */
  function OutcomeLines(t: Tally, base: string, cmd: string): Outcomes {
    var ok := ParseTopics(base, cmd, t.successTopics);
    if !ok.complete then Outcomes(Tagged(ok.devices, OK), ok.devices, false)
    else if t.msgCount > t.successCount then
      var failed := ParseTopics(base, cmd, t.failedTopics);
      Outcomes(Tagged(ok.devices, OK) + Tagged(failed.devices, FAIL), ok.devices + failed.devices,
               failed.complete)
    else Outcomes(Tagged(ok.devices, OK), ok.devices, true)
  }

  /**
   * The program report: the outcome lines, then MUTE lines when the number
   * of responders differs from `len(devices)`.
   */
  function ProgramReport(t: Tally, devices: Devices): Report {
    var o := OutcomeLines(t, MoteBaseTopic, ProgramCmd);
    if !o.complete then Report(o.lines, false)
    else
      var requested := DeviceList(devices);
      Report(o.lines + (if |o.responders| != |requested| then MuteLines(requested, o.responders) else []),
             true)
  }

  /** The changesoftware report: outcome lines only. */
  function ChangeSoftwareReport(t: Tally): Report {
    var o := OutcomeLines(t, BoxBaseTopic, ChangeSoftwareCmd);
    Report(o.lines, o.complete)
  }

  /** A device gets a MUTE line exactly when it was requested and is not a responder. */
  lemma {:induction false} MuteLinesExactly(requested: seq<string>, responders: seq<string>, d: string, s: Status)
    ensures ReportLine(d, s) in MuteLines(requested, responders) <==>
              s == MUTE && d in requested && d !in responders
    decreases |requested|
  {
    if requested != [] {
      var init := requested[..|requested| - 1];
      MuteLinesExactly(init, responders, d, s);
      assert requested == init + [requested[|requested| - 1]];
    }
  }

  /**
   * With a consistent tally whose topics all match, the FAIL section lists
   * every failure topic (the `msg_count > success_count` guard only skips
   * an empty list) and the responders are the success then failure devices.
   */
  lemma ConsistentOutcomes(t: Tally, base: string, cmd: string)
    requires Consistent(t)
    requires ParseTopics(base, cmd, t.successTopics).complete
    requires ParseTopics(base, cmd, t.failedTopics).complete
    ensures OutcomeLines(t, base, cmd) ==
              var ok := ParseTopics(base, cmd, t.successTopics).devices;
              var failed := ParseTopics(base, cmd, t.failedTopics).devices;
              Outcomes(Tagged(ok, OK) + Tagged(failed, FAIL), ok + failed, true)
  {
    if t.msgCount <= t.successCount {
      assert t.failedTopics == [];
      assert Tagged(ParseTopics(base, cmd, t.failedTopics).devices, FAIL) == [];
    }
  }

  /**
   * In a complete program report a device has a MUTE line iff it was
   * requested, did not respond, and the responder count differs from the
   * number of requested devices.
   */
  lemma ProgramMuteExactly(t: Tally, devices: Devices, d: string)
    requires ProgramReport(t, devices).complete
    ensures var o := OutcomeLines(t, MoteBaseTopic, ProgramCmd);
            ReportLine(d, MUTE) in ProgramReport(t, devices).lines <==>
              d in DeviceList(devices) && d !in o.responders
              && |o.responders| != |DeviceList(devices)|
  {
    var o := OutcomeLines(t, MoteBaseTopic, ProgramCmd);
    var requested := DeviceList(devices);
    OutcomeLinesNotMute(t, MoteBaseTopic, ProgramCmd, d);
    if |o.responders| != |requested| {
      MuteLinesExactly(requested, o.responders, d, MUTE);
      assert ProgramReport(t, devices).lines == o.lines + MuteLines(requested, o.responders);
    } else {
      assert ProgramReport(t, devices).lines == o.lines;
    }
  }

  /** The OK and FAIL part of a report holds no MUTE line. */
  lemma OutcomeLinesNotMute(t: Tally, base: string, cmd: string, d: string)
    ensures ReportLine(d, MUTE) !in OutcomeLines(t, base, cmd).lines
  {
    var ok := ParseTopics(base, cmd, t.successTopics);
    var failed := ParseTopics(base, cmd, t.failedTopics);
    var okLines, failLines := Tagged(ok.devices, OK), Tagged(failed.devices, FAIL);
    assert forall k :: 0 <= k < |okLines| ==> okLines[k].status == OK;
    assert forall k :: 0 <= k < |failLines| ==> failLines[k].status == FAIL;
    assert ReportLine(d, MUTE) !in okLines + failLines;
  }

  /** When every requested device responded exactly once there are no MUTE lines. */
  lemma NoMuteWhenEveryDeviceAnswered(t: Tally, devices: Devices)
    requires ProgramReport(t, devices).complete
    requires multiset(OutcomeLines(t, MoteBaseTopic, ProgramCmd).responders) == multiset(DeviceList(devices))
    ensures ProgramReport(t, devices).lines == OutcomeLines(t, MoteBaseTopic, ProgramCmd).lines
  {
    var o := OutcomeLines(t, MoteBaseTopic, ProgramCmd);
    assert |multiset(o.responders)| == |o.responders|;
    assert |multiset(DeviceList(devices))| == |DeviceList(devices)|;
  }

  predicate Distinct(s: seq<string>) {
    forall i, j :: 0 <= i < j < |s| ==> s[i] != s[j]
  }

  function Elements(s: seq<string>): (e: set<string>)
    ensures forall x :: x in e <==> x in s
  {
    set x | x in s
  }

  lemma {:induction false} DistinctCard(s: seq<string>)
    requires Distinct(s)
    ensures |Elements(s)| == |s|
    decreases |s|
  {
    if s != [] {
      var init := s[..|s| - 1];
      DistinctCard(init);
      assert Elements(s) == Elements(init) + {s[|s| - 1]};
    }
  }

  lemma {:induction false} MuteLinesCount(requested: seq<string>, responders: seq<string>)
    requires Distinct(requested)
    ensures |MuteLines(requested, responders)| == |Elements(requested) - Elements(responders)|
    decreases |requested|
  {
    if requested != [] {
      var init := requested[..|requested| - 1];
      var d := requested[|requested| - 1];
      MuteLinesCount(init, responders);
      var a, rs := Elements(init), Elements(responders);
      assert d !in a;
      assert Elements(requested) == a + {d};
      if d in responders {
        assert Elements(requested) - rs == a - rs;
      } else {
        assert Elements(requested) - rs == (a - rs) + {d};
      }
    }
  }

  /**
   * Every requested device is accounted for exactly once: with distinct
   * requested devices and distinct responders among them, the OK, FAIL and
   * MUTE lines number `len(devices)`.
   */
  lemma ReportAccountsForEveryDevice(t: Tally, devices: Devices)
    requires ProgramReport(t, devices).complete
    requires Distinct(DeviceList(devices))
    requires Distinct(OutcomeLines(t, MoteBaseTopic, ProgramCmd).responders)
    requires forall d :: d in OutcomeLines(t, MoteBaseTopic, ProgramCmd).responders ==> d in DeviceList(devices)
    ensures |ProgramReport(t, devices).lines| == |DeviceList(devices)|
  {
    var o := OutcomeLines(t, MoteBaseTopic, ProgramCmd);
    var requested := DeviceList(devices);
    var req, resp := Elements(requested), Elements(o.responders);
    DistinctCard(requested);
    DistinctCard(o.responders);
    assert |o.lines| == |o.responders| by {
      var ok := ParseTopics(MoteBaseTopic, ProgramCmd, t.successTopics);
      if ok.complete && t.msgCount > t.successCount {
        var failed := ParseTopics(MoteBaseTopic, ProgramCmd, t.failedTopics);
        assert |o.lines| == |ok.devices| + |failed.devices|;
      }
    }
    assert resp <= req;
    assert req * resp == resp;
    assert |req - resp| + |resp| == |req| by {
      assert (req - resp) + resp == req;
      assert (req - resp) * resp == {};
    }
    if |o.responders| != |requested| {
      MuteLinesCount(requested, o.responders);
    }
  }

  /**
   * A program run to devA and devB where only devA answers with success:
   * success_count and msg_count are 1, and the report is `devA OK`, `devB MUTE`.
   */
  lemma OneMuteDevice()
    ensures var devices := Explicit(["devA", "devB"]);
            var msgs := [Message(RespTopic(MoteBaseTopic, "devA", ProgramCmd), Reply(true, NoReturnVal))];
            var t := FoldTally(InitialTally, msgs, devices, NumberOfMotes);
            t.successCount == 1 && t.msgCount == 1
            && ProgramReport(t, devices) == Report([ReportLine("devA", OK), ReportLine("devB", MUTE)], true)
  {
    var devices := Explicit(["devA", "devB"]);
    var topic := RespTopic(MoteBaseTopic, "devA", ProgramCmd);
    var msgs := [Message(topic, Reply(true, NoReturnVal))];
    var t := FoldTally(InitialTally, msgs, devices, NumberOfMotes);
    var first := TallyStep(InitialTally, msgs[0], devices, NumberOfMotes).tally;
    assert first == Tally(1, 1, [], [topic]);
    assert msgs[1..] == [];
    assert t == FoldTally(first, [], devices, NumberOfMotes);
    RespTopicRoundTrip(MoteBaseTopic, "devA", ProgramCmd);
    assert [topic][..0] == [];
    assert ParseTopics(MoteBaseTopic, ProgramCmd, [topic]) == Parsed(["devA"], true);
    assert ["devA", "devB"][..1] == ["devA"];
    assert "devB" != "devA";
    assert MuteLines(["devA", "devB"], ["devA"]) == [ReportLine("devB", MUTE)];
  }

  /** A report method's scan of one topic list, emitting `status` lines. */
  method ScanTopics(base: string, cmd: string, topics: seq<string>, status: Status)
    returns (devs: seq<string>, lines: seq<ReportLine>, complete: bool)
    ensures Parsed(devs, complete) == ParseTopics(base, cmd, topics)
    ensures lines == Tagged(devs, status)
  {
    devs, lines := [], [];
    var i := 0;
    while i < |topics|
      invariant 0 <= i <= |topics|
      invariant ParseTopics(base, cmd, topics[..i]) == Parsed(devs, true)
      invariant lines == Tagged(devs, status)
    {
      var dev := DevFromTopic(base, cmd, topics[i]);
      if dev.None? {
        ParseStopsAtMismatch(base, cmd, topics, i);
        return devs, lines, false;
      }
      ParseStep(base, cmd, topics, i);
      devs := devs + [dev.value];
      lines := lines + [ReportLine(dev.value, status)];
      i := i + 1;
    }
    assert topics[..i] == topics;
    complete := true;
  }

  /** The MUTE loop of the program report. */
  method AppendMutes(lines: seq<ReportLine>, requested: seq<string>, motes: seq<string>)
    returns (lines': seq<ReportLine>)
    ensures lines' == lines + MuteLines(requested, motes)
  {
    lines' := lines;
    var j := 0;
    while j < |requested|
      invariant 0 <= j <= |requested|
      invariant lines' == lines + MuteLines(requested[..j], motes)
    {
      assert requested[..j + 1][..j] == requested[..j];
      if requested[j] !in motes {
        lines' := lines' + [ReportLine(requested[j], MUTE)];
      }
      j := j + 1;
    }
    assert requested[..j] == requested;
  }

  /** `CmdProgram`'s response state. */
  class CmdProgram {
    const devices: Devices
    const imageName: string
    const image: string
    var successCount: int
    var msgCount: int
    var failedMsgTopics: seq<string>
    var successMsgTopics: seq<string>

    function Response(): Tally
      reads this
    {
      Tally(successCount, msgCount, failedMsgTopics, successMsgTopics)
    }

    constructor (devices: Devices, imageName: string, image: string)
      ensures this.devices == devices && this.imageName == imageName && this.image == image
      ensures Response() == InitialTally
    {
      this.devices, this.imageName, this.image := devices, imageName, image;
      successCount, msgCount, failedMsgTopics, successMsgTopics := 0, 0, [], [];
    }

    method ParseResponse(m: Message) returns (r: StepResult)
      modifies this
      ensures Folded(Response(), r) == TallyStep(old(Response()), m, devices, NumberOfMotes)
    {
      if m.payload.Exception? {
        return Handled(false);
      }
      msgCount := msgCount + 1;
      if m.payload.NoSuccessKey? {
        return Raised;
      }
      if m.payload.success {
        successCount := successCount + 1;
        successMsgTopics := successMsgTopics + [m.topic];
      } else {
        failedMsgTopics := failedMsgTopics + [m.topic];
      }
      if IsAllList(devices) {
        r := Handled(msgCount == NumberOfMotes);
      } else {
        r := Handled(true);
      }
    }

    method Finish() returns (report: Report)
      ensures report == ProgramReport(Response(), devices)
    {
      var motes, lines, complete := ScanTopics(MoteBaseTopic, ProgramCmd, successMsgTopics, OK);
      if !complete {
        return Report(lines, false);
      }
      if msgCount > successCount {
        var failed, failLines;
        failed, failLines, complete := ScanTopics(MoteBaseTopic, ProgramCmd, failedMsgTopics, FAIL);
        motes, lines := motes + failed, lines + failLines;
        if !complete {
          return Report(lines, false);
        }
      }
      var requested := DeviceList(devices);
      if |motes| != |requested| {
        lines := AppendMutes(lines, requested, motes);
      }
      report := Report(lines, true);
    }
  }

  /** `CmdChangeSoftware`'s response state: the same tally over boxes, without MUTE lines. */
  class CmdChangeSoftware {
    const devices: Devices
    var successCount: int
    var msgCount: int
    var failedMsgTopics: seq<string>
    var successMsgTopics: seq<string>

    function Response(): Tally
      reads this
    {
      Tally(successCount, msgCount, failedMsgTopics, successMsgTopics)
    }

    constructor (devices: Devices)
      ensures this.devices == devices && Response() == InitialTally
    {
      this.devices := devices;
      successCount, msgCount, failedMsgTopics, successMsgTopics := 0, 0, [], [];
    }

    method ParseResponse(m: Message) returns (r: StepResult)
      modifies this
      ensures Folded(Response(), r) == TallyStep(old(Response()), m, devices, NumberOfBoxes)
    {
      if m.payload.Exception? {
        return Handled(false);
      }
      msgCount := msgCount + 1;
      if m.payload.NoSuccessKey? {
        return Raised;
      }
      if m.payload.success {
        successCount := successCount + 1;
        successMsgTopics := successMsgTopics + [m.topic];
      } else {
        failedMsgTopics := failedMsgTopics + [m.topic];
      }
      if IsAllList(devices) {
        r := Handled(msgCount == NumberOfBoxes);
      } else {
        r := Handled(true);
      }
    }

    method Finish() returns (report: Report)
      ensures report == ChangeSoftwareReport(Response())
    {
      var otboxes, lines, complete := ScanTopics(BoxBaseTopic, ChangeSoftwareCmd, successMsgTopics, OK);
      if complete && msgCount > successCount {
        var failed, failLines;
        failed, failLines, complete := ScanTopics(BoxBaseTopic, ChangeSoftwareCmd, failedMsgTopics, FAIL);
        otboxes, lines := otboxes + failed, lines + failLines;
      }
      report := Report(lines, complete);
    }
  }
}
