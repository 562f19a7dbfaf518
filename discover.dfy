/**
 * The discover command: each box replies once with the motes attached to
 * it, and each listed mote becomes one discovered-mote entry.
 */
module Discover {
  import opened Wrappers
  import opened Addressing
  import opened Messages

  const DiscoverCmd: string := "discovermotes"

  /** One entry of `self.discovered`; `status` is 1 when the mote bootloaded, else 0. */
  datatype DiscoveredMote = DiscoveredMote(box: string, port: string, eui64: Option<string>, status: int)

  function MoteEntry(box: string, mote: MoteInfo): DiscoveredMote {
    DiscoveredMote(box, mote.serialport, mote.eui64, if mote.bootloadSuccess then 1 else 0)
  }

  /** The entries a successful reply from `box` appends, in the order the motes are listed. */
  function MoteEntries(box: string, motes: seq<MoteInfo>): seq<DiscoveredMote> {
    if motes == [] then []
    else MoteEntries(box, motes[..|motes| - 1]) + [MoteEntry(box, motes[|motes| - 1])]
  }

  /**
   * One entry per listed mote: the box is the replying box, the port is the
   * mote's serial port, `eui64` is None exactly when the reply has no
   * EUI64 for it, and `status` is 1 exactly when it bootloaded.
   */
  lemma {:induction false} MoteEntriesAt(box: string, motes: seq<MoteInfo>, k: nat)
    requires k < |motes|
    ensures |MoteEntries(box, motes)| == |motes|
    ensures var e := MoteEntries(box, motes)[k];
            e.box == box && e.port == motes[k].serialport && e.eui64 == motes[k].eui64
            && (e.status == 1 <==> motes[k].bootloadSuccess)
            && (e.status == 0 <==> !motes[k].bootloadSuccess)
    decreases |motes|
  {
    MoteEntriesLength(box, motes);
    if k < |motes| - 1 {
      MoteEntriesAt(box, motes[..|motes| - 1], k);
    }
  }

  lemma {:induction false} MoteEntriesLength(box: string, motes: seq<MoteInfo>)
    ensures |MoteEntries(box, motes)| == |motes|
    decreases |motes|
  {
    if motes != [] {
      MoteEntriesLength(box, motes[..|motes| - 1]);
    }
  }

  /** What one reply adds to the discovered list: the listed motes of a successful reply, else nothing. */
  function Contribution(m: Message): seq<DiscoveredMote> {
    match DevFromTopic(BoxBaseTopic, DiscoverCmd, m.topic)
    case None => []
    case Some(box) =>
      if m.payload.Reply? && m.payload.success && m.payload.returnVal.MotesReturn? then
        MoteEntries(box, m.payload.returnVal.motes)
      else []
  }

  datatype DiscoverFolded = DiscoverFolded(discovered: seq<DiscoveredMote>, result: StepResult)

  /**
   * `CmdDiscover._parse_response`: an unmatched topic, a payload without
   * `success`, or a successful one without `returnVal.motes` raises before
   * anything is appended; a failed box appends nothing. With `['all']` the
   * unblock is queued only when the discovered-mote count is 19.
   */
  function DiscoverStep(discovered: seq<DiscoveredMote>, m: Message, devices: Devices): (r: DiscoverFolded)
    ensures r.discovered == discovered + Contribution(m)
    ensures r.result.Raised? <==>
              DevFromTopic(BoxBaseTopic, DiscoverCmd, m.topic).None? || !m.payload.Reply?
              || (m.payload.success && !m.payload.returnVal.MotesReturn?)
    ensures m.payload.Reply? && !m.payload.success ==> r.discovered == discovered
    ensures r.result == Handled(true) <==>
              !r.result.Raised? && (!IsAllList(devices) || |r.discovered| == NumberOfBoxes)
  {
    match DevFromTopic(BoxBaseTopic, DiscoverCmd, m.topic)
    case None => DiscoverFolded(discovered, Raised)
    case Some(box) =>
      match m.payload
      case Exception => DiscoverFolded(discovered, Raised)
      case NoSuccessKey => DiscoverFolded(discovered, Raised)
      case Reply(success, returnVal) =>
        if success && !returnVal.MotesReturn? then DiscoverFolded(discovered, Raised)
        else
          var d := if success then discovered + MoteEntries(box, returnVal.motes) else discovered;
          DiscoverFolded(d, Handled(if IsAllList(devices) then |d| == NumberOfBoxes else true))
  }

  function FoldDiscover(discovered: seq<DiscoveredMote>, msgs: seq<Message>, devices: Devices): seq<DiscoveredMote>
    decreases |msgs|
  {
    if msgs == [] then discovered
    else FoldDiscover(DiscoverStep(discovered, msgs[0], devices).discovered, msgs[1..], devices)
  }

  function Contributions(msgs: seq<Message>): seq<DiscoveredMote> {
    if msgs == [] then [] else Contribution(msgs[0]) + Contributions(msgs[1..])
  }

  /**
   * After any sequence of replies the discovered list is what each reply
   * contributes, in arrival order; a failed box contributes nothing
   * whatever the other boxes reply.
   */
  lemma {:induction false} FoldIsContributions(discovered: seq<DiscoveredMote>, msgs: seq<Message>, devices: Devices)
    ensures FoldDiscover(discovered, msgs, devices) == discovered + Contributions(msgs)
    decreases |msgs|
  {
    if msgs != [] {
      var next := DiscoverStep(discovered, msgs[0], devices).discovered;
      FoldIsContributions(next, msgs[1..], devices);
      assert discovered + Contribution(msgs[0]) + Contributions(msgs[1..])
          == discovered + (Contribution(msgs[0]) + Contributions(msgs[1..]));
    }
  }

  /** A report line `<box> <eui64> <port> <status>`, with Python's `None` for a missing EUI64. */
  function FormatMote(e: DiscoveredMote): (r: string)
    ensures StartsWith(r, e.box + " " + (if e.eui64.Some? then e.eui64.value else "None") + " " + e.port + " ")
    ensures |r| == |e.box + " " + (if e.eui64.Some? then e.eui64.value else "None") + " " + e.port + " "| + 1
    ensures r[|r| - 1] == (if e.status == 1 then '1' else '0')
  {
    e.box + " " + (if e.eui64.Some? then e.eui64.value else "None") + " " + e.port + " "
    + (if e.status == 1 then "1" else "0")
  }

  /** `CmdDiscover`'s response state. */
  class CmdDiscover {
    const devices: Devices
    var discovered: seq<DiscoveredMote>

    constructor (devices: Devices)
      ensures this.devices == devices && discovered == []
    {
      this.devices := devices;
      discovered := [];
    }

    method ParseResponse(m: Message) returns (r: StepResult)
      modifies this
      ensures DiscoverFolded(discovered, r) == DiscoverStep(old(discovered), m, devices)
    {
      var box := DevFromTopic(BoxBaseTopic, DiscoverCmd, m.topic);
      if box.None? || !m.payload.Reply? {
        return Raised;
      }
      if m.payload.success {
        if !m.payload.returnVal.MotesReturn? {
          return Raised;
        }
        var motes := m.payload.returnVal.motes;
        var i := 0;
        while i < |motes|
          invariant 0 <= i <= |motes|
          invariant discovered == old(discovered) + MoteEntries(box.value, motes[..i])
        {
          assert motes[..i + 1][..i] == motes[..i];
          discovered := discovered + [MoteEntry(box.value, motes[i])];
          i := i + 1;
        }
        assert motes[..i] == motes;
      }
      if IsAllList(devices) {
        r := Handled(|discovered| == NumberOfBoxes);
      } else {
        r := Handled(true);
      }
    }

    /** The report: the number of discovered motes and one line per mote, in discovery order. */
    method Finish() returns (count: nat, lines: seq<string>)
      ensures count == |discovered| && |lines| == |discovered|
      ensures forall k :: 0 <= k < |discovered| ==> lines[k] == FormatMote(discovered[k])
    {
      count := |discovered|;
      lines := [];
      for k := 0 to |discovered|
        invariant |lines| == k
        invariant forall i :: 0 <= i < k ==> lines[i] == FormatMote(discovered[i])
      {
        lines := lines + [FormatMote(discovered[k])];
      }
    }
  }
}
