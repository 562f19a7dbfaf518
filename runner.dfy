/**
 * The runner's dispatch: how many responses it waits for, what it
 * publishes, and the timeouts of its queue gets; the program command's
 * image check before any of it.
 */
module Runner {
  import opened Addressing
  import opened Messages
  import opened ImageCheck
  import opened Tally

  /** The timeout, in seconds, of each queue get before the first one finds the queue empty. */
  const ResponseTimeout: int := 60

  /** What one `self._queue.get(timeout=...)` gives: an unblock item, or `queue.Empty`. */
  datatype GetOutcome = Item | Empty

  datatype Publication = Publication(topic: string, payload: Request)

  /** The k-th get's outcome; gets past the end of the oracle find the queue empty. */
  function GetAt(queue: seq<GetOutcome>, k: nat): GetOutcome {
    if k < |queue| then queue[k] else Empty
  }

  /** Some get before the k-th one timed out. */
  predicate EmptyBefore(queue: seq<GetOutcome>, k: nat) {
    exists j :: 0 <= j < k && GetAt(queue, j) == Empty
  }

  /** `num_responses`: the fleet size of the base topic's class for the string 'all', else the list's length. */
  function NumResponses(devices: Devices, base: string): nat {
    match devices
    case AllStr => if base == MoteBaseTopic then NumberOfMotes else NumberOfBoxes
    case Explicit(list) => |list|
  }

  /**
   * `OpenTBCmdRunner.__init__` after the connection is up: one publish to
   * `<base>/all/cmd/<cmd>` for the string 'all', else one per device in
   * order; then exactly `num_responses` gets, each with the full timeout
   * as its bound until one finds the queue empty, and 0 after that.
   */
  method Dispatch(command: Command, devices: Devices, queue: seq<GetOutcome>)
    returns (published: seq<Publication>, timeouts: seq<int>, timedout: bool)
    ensures devices.AllStr? ==>
              published == [Publication(CmdTopic(BaseTopic(command), "all", CmdName(command)), GenPayload(command))]
              && |timeouts| == (if command.Program? then NumberOfMotes else NumberOfBoxes)
    ensures devices.Explicit? ==>
              |published| == |devices.list| == |timeouts|
              && forall i :: 0 <= i < |published| ==>
                   published[i] == Publication(CmdTopic(BaseTopic(command), devices.list[i], CmdName(command)),
                                               GenPayload(command))
    ensures |timeouts| == NumResponses(devices, BaseTopic(command))
    ensures forall k :: 0 <= k < |timeouts| ==>
              timeouts[k] == if EmptyBefore(queue, k) then 0 else ResponseTimeout
    ensures forall j, k :: 0 <= j < k < |timeouts| && timeouts[j] == 0 ==> timeouts[k] == 0
    ensures timedout <==> EmptyBefore(queue, |timeouts|)
  {
    var base, cmd := BaseTopic(command), CmdName(command);
    var numResponses: nat;
    published := [];
    if devices.AllStr? {
      if base == MoteBaseTopic {
        numResponses := NumberOfMotes;
      } else {
        numResponses := NumberOfBoxes;
      }
      published := [Publication(CmdTopic(base, "all", cmd), GenPayload(command))];
    } else {
      numResponses := |devices.list|;
      for i := 0 to |devices.list|
        invariant |published| == i
        invariant forall k :: 0 <= k < i ==>
                    published[k] == Publication(CmdTopic(base, devices.list[k], cmd), GenPayload(command))
      {
        published := published + [Publication(CmdTopic(base, devices.list[i], cmd), GenPayload(command))];
      }
    }

    timedout := false;
    timeouts := [];
    for k := 0 to numResponses
      invariant |timeouts| == k
      invariant timedout <==> EmptyBefore(queue, k)
      invariant forall i :: 0 <= i < k ==> timeouts[i] == if EmptyBefore(queue, i) then 0 else ResponseTimeout
    {
      var timeout := if timedout then 0 else ResponseTimeout;
      timeouts := timeouts + [timeout];
      if GetAt(queue, k) == Empty {
        timedout := true;
      }
      EmptyBeforeStep(queue, k);
    }
    forall j, k | 0 <= j < k < |timeouts| && timeouts[j] == 0 ensures timeouts[k] == 0 {
      EmptyBeforeMonotone(queue, j, k);
    }
  }

  lemma EmptyBeforeStep(queue: seq<GetOutcome>, k: nat)
    ensures EmptyBefore(queue, k + 1) <==> EmptyBefore(queue, k) || GetAt(queue, k) == Empty
  {
    if GetAt(queue, k) == Empty {
      assert 0 <= k < k + 1 && GetAt(queue, k) == Empty;
    }
  }

  lemma EmptyBeforeMonotone(queue: seq<GetOutcome>, j: nat, k: nat)
    requires j <= k && EmptyBefore(queue, j)
    ensures EmptyBefore(queue, k)
  {
    var i :| 0 <= i < j && GetAt(queue, i) == Empty;
    assert 0 <= i < k;
  }

  /**
   * `CmdProgram.__init__`: the image check comes first, and an image it
   * does not approve (or that makes it raise) aborts before anything is
   * published; otherwise the program request carries the image's base
   * name and the encoded image.
   */
  method RunProgram(flashfile: string, size: nat, lines: seq<string>, image: string, osName: string,
                    devices: Devices, queue: seq<GetOutcome>)
    returns (aborted: bool, published: seq<Publication>, timeouts: seq<int>, timedout: bool)
    ensures aborted <==> !ImageApproved(flashfile, size, lines)
    ensures aborted ==> published == [] && timeouts == [] && !timedout
    ensures !aborted ==>
              |published| == (if devices.AllStr? then 1 else |devices.list|)
              && |timeouts| == NumResponses(devices, MoteBaseTopic)
              && forall p :: p in published ==>
                   p.payload == ProgramRequest(Token, ImageName(osName, flashfile), image)
  {
    var verdict := CheckImage(flashfile, size, lines);
    if !Truthy(verdict) {
      return true, [], [], false;
    }
    var program := new CmdProgram(devices, ImageName(osName, flashfile), image);
    aborted := false;
    published, timeouts, timedout := Dispatch(Program(program.imageName, program.image), devices, queue);
  }
}
