/**
 * Addressing: the topic strings a runner publishes to and subscribes to,
 * recovering a device id from a reply topic, and the device selection a
 * runner is built with.
 */
module Addressing {
  import opened Wrappers

  const MoteBaseTopic: string := "opentestbed/deviceType/mote/deviceId"
  const BoxBaseTopic: string := "opentestbed/deviceType/box/deviceId"

  const NumberOfMotes: nat := 76
  const NumberOfBoxes: nat := 19

  /**
   * The `devices` a runner is given: the string 'all' (the command-line
   * default) or a list of ids (`--d all` gives the one-element list ['all']).
   */
  datatype Devices = AllStr | Explicit(list: seq<string>)

  /** The parsers' test `self.devices == ['all']`. */
  predicate IsAllList(d: Devices) {
    d == Explicit(["all"])
  }

  /**
   * What `for device in self.devices` visits and what `len(self.devices)`
   * counts: for the string 'all', its three characters as one-letter strings.
   */
  function DeviceList(d: Devices): seq<string> {
    match d
    case AllStr => ["a", "l", "l"]
    case Explicit(list) => list
  }

  /**
   * `<base>/<dev>/cmd/<cmd>`, the topic a command is published to; it is
   * never the topic the same device replies on.
   */
  function CmdTopic(base: string, dev: string, cmd: string): (r: string)
    ensures StartsWith(r, base + "/" + dev + "/")
    ensures r != RespTopic(base, dev, cmd)
  {
    var r := base + "/" + dev + "/cmd/" + cmd;
    var p := base + "/" + dev + "/";
    assert r == p + ("cmd/" + cmd) && RespTopic(base, dev, cmd) == p + ("resp/" + cmd);
    assert r[|p|] == 'c' && RespTopic(base, dev, cmd)[|p|] == 'r';
    r
  }

  /**
   * `<base>/<dev>/resp/<cmd>`, the topic a device replies on: for a
   * non-empty, newline-free id the reply pattern captures the id on it.
   */
  function RespTopic(base: string, dev: string, cmd: string): (r: string)
    ensures |dev| >= 1 && NoNewline(dev) ==> Captures(base, cmd, r, dev)
  {
    var r := base + "/" + dev + "/resp/" + cmd;
    assert r[..|r|] == r;
    r
  }

  /**
   * The topics a runner subscribes to: the single wildcard topic
   * `<base>/+/resp/<cmd>` for 'all', else each device's reply topic in order.
   */
  function SubscribeTopics(base: string, cmd: string, devices: Devices): (r: seq<string>)
    ensures devices.AllStr? ==> r == [RespTopic(base, "+", cmd)]
    ensures devices.Explicit? ==>
              |r| == |devices.list|
              && forall i :: 0 <= i < |r| ==> r[i] == RespTopic(base, devices.list[i], cmd)
  {
    match devices
    case AllStr => [RespTopic(base, "+", cmd)]
    case Explicit(list) => seq(|list|, i requires 0 <= i < |list| => RespTopic(base, list[i], cmd))
  }

  predicate StartsWith(s: string, p: string) {
    |p| <= |s| && s[..|p|] == p
  }

  /** `.` in a regular expression matches every character but a newline. */
  predicate NoNewline(s: string) {
    forall k :: 0 <= k < |s| ==> s[k] != '\n'
  }

  /**
   * `s` is a capture the start-anchored pattern `<base>/(.+)/resp/<cmd>` can
   * give on `topic`; the base and command names are taken literally.
   */
  predicate Captures(base: string, cmd: string, topic: string, s: string) {
    |s| >= 1 && NoNewline(s) && StartsWith(topic, base + "/" + s + "/resp/" + cmd)
  }

  /** A capture of length n can only be the n characters after `<base>/`. */
  lemma CaptureIsSlice(base: string, cmd: string, topic: string, s: string)
    requires Captures(base, cmd, topic, s)
    ensures |base| + 1 + |s| <= |topic|
    ensures topic[|base| + 1..|base| + 1 + |s|] == s
  {
    var p := base + "/" + s + "/resp/" + cmd;
    assert topic[..|p|] == p;
    assert p[|base| + 1..|base| + 1 + |s|] == s;
    assert topic[|base| + 1..|base| + 1 + |s|] == topic[..|p|][|base| + 1..|base| + 1 + |s|];
  }

  /** Tries the candidate captures of length n, n - 1, ..., 1 in turn. */
  function Longest(base: string, cmd: string, topic: string, n: nat): (r: Option<string>)
    requires |base| + 1 + n <= |topic|
    ensures r.Some? ==> 1 <= |r.value| <= n && r.value == topic[|base| + 1..|base| + 1 + |r.value|]
    decreases n
  {
    if n == 0 then None
    else
      var cand := topic[|base| + 1..|base| + 1 + n];
      if Captures(base, cmd, topic, cand) then Some(cand) else Longest(base, cmd, topic, n - 1)
  }

  /**
   * What Longest finds at n is a capture, and no capture of length at
   * most n is longer.
   */
  lemma LongestSpec(base: string, cmd: string, topic: string, n: nat)
    requires |base| + 1 + n <= |topic|
    ensures var r := Longest(base, cmd, topic, n);
            (r.Some? ==> Captures(base, cmd, topic, r.value) && |r.value| <= n)
            && (forall s :: Captures(base, cmd, topic, s) && |s| <= n ==> r.Some? && |s| <= |r.value|)
  {
    LongestSound(base, cmd, topic, n);
    forall s | Captures(base, cmd, topic, s) && |s| <= n
      ensures Longest(base, cmd, topic, n).Some? && |s| <= |Longest(base, cmd, topic, n).value|
    {
      LongestMaximal(base, cmd, topic, n, s);
    }
  }

  lemma {:induction false} LongestSound(base: string, cmd: string, topic: string, n: nat)
    requires |base| + 1 + n <= |topic|
    ensures Longest(base, cmd, topic, n).Some? ==> Captures(base, cmd, topic, Longest(base, cmd, topic, n).value)
    decreases n
  {
    if n > 0 && !Captures(base, cmd, topic, topic[|base| + 1..|base| + 1 + n]) {
      LongestSound(base, cmd, topic, n - 1);
    }
  }

  /** A capture no longer than n is found at n or, when the candidate there fails, below n. */
  lemma {:induction false} LongestMaximal(base: string, cmd: string, topic: string, n: nat, s: string)
    requires |base| + 1 + n <= |topic|
    requires Captures(base, cmd, topic, s) && |s| <= n
    ensures Longest(base, cmd, topic, n).Some? && |s| <= |Longest(base, cmd, topic, n).value|
    decreases n
  {
    if !Captures(base, cmd, topic, topic[|base| + 1..|base| + 1 + n]) {
      CaptureIsSlice(base, cmd, topic, s);
      LongestMaximal(base, cmd, topic, n - 1, s);
    }
  }

  lemma ShortTopicHasNoCapture(base: string, cmd: string, topic: string)
    requires |topic| < |base| + 1
    ensures forall s :: !Captures(base, cmd, topic, s)
  {
    forall s ensures !Captures(base, cmd, topic, s) {
      assert |base + "/" + s + "/resp/" + cmd| > |topic|;
    }
  }

  lemma CapturesFit(base: string, cmd: string, topic: string)
    ensures forall s :: Captures(base, cmd, topic, s) ==> |s| <= |topic| - |base| - 1
  {
    forall s | Captures(base, cmd, topic, s) ensures |s| <= |topic| - |base| - 1 {
      CaptureIsSlice(base, cmd, topic, s);
    }
  }

  /**
   * `_dev_from_topic`: the group of the greedy match of `<base>/(.+)/resp/<cmd>`
   * at the start of `topic`; None when the pattern does not match (where the
   * source's `.group(1)` raises).
   */
  function DevFromTopic(base: string, cmd: string, topic: string): (r: Option<string>)
    ensures r.Some? ==>
              |r.value| >= 1 && |base| + 1 + |r.value| <= |topic|
              && r.value == topic[|base| + 1..|base| + 1 + |r.value|]
  {
    if |topic| < |base| + 1 then None else Longest(base, cmd, topic, |topic| - |base| - 1)
  }

  /**
   * The match is the longest capture: a non-empty, newline-free `s` with
   * `topic` starting `<base>/<s>/resp/<cmd>`, and there is none exactly
   * when the match fails.
   */
  lemma DevFromTopicSpec(base: string, cmd: string, topic: string)
    ensures var r := DevFromTopic(base, cmd, topic);
            (r.Some? ==> Captures(base, cmd, topic, r.value))
            && (r.Some? ==> forall s :: Captures(base, cmd, topic, s) ==> |s| <= |r.value|)
            && (r.None? <==> forall s :: !Captures(base, cmd, topic, s))
  {
    if |topic| < |base| + 1 {
      ShortTopicHasNoCapture(base, cmd, topic);
    } else {
      var n := |topic| - |base| - 1;
      LongestSpec(base, cmd, topic, n);
      CapturesFit(base, cmd, topic);
    }
  }

  /**
   * A reply topic gives back the device it was built for, for every
   * non-empty id without a newline, even one that itself contains
   * `/resp/<cmd>`: the greedy match takes the last occurrence.
   */
  lemma RespTopicRoundTrip(base: string, dev: string, cmd: string)
    requires |dev| >= 1 && NoNewline(dev)
    ensures DevFromTopic(base, cmd, RespTopic(base, dev, cmd)) == Some(dev)
  {
    var topic := RespTopic(base, dev, cmd);
    assert StartsWith(topic, base + "/" + dev + "/resp/" + cmd);
    assert Captures(base, cmd, topic, dev);
    DevFromTopicSpec(base, cmd, topic);
    var v := DevFromTopic(base, cmd, topic).value;
    NoLongerCapture(base, dev, cmd, v);
  }

  /** On a reply topic no capture is longer than the device id, so one as long is the id. */
  lemma NoLongerCapture(base: string, dev: string, cmd: string, v: string)
    requires |dev| >= 1 && NoNewline(dev)
    requires Captures(base, cmd, RespTopic(base, dev, cmd), v)
    requires |v| >= |dev|
    ensures v == dev
  {
    var topic := RespTopic(base, dev, cmd);
    assert |base + "/" + v + "/resp/" + cmd| <= |topic|;
    CaptureIsSlice(base, cmd, topic, v);
    CaptureIsSlice(base, cmd, topic, dev);
  }

  /** Every capture lies after a literal `<base>/` at the start of the topic. */
  lemma CaptureAfterBase(base: string, cmd: string, topic: string, s: string)
    requires Captures(base, cmd, topic, s)
    ensures StartsWith(topic, base + "/")
  {
    var p := base + "/" + s + "/resp/" + cmd;
    assert p[..|base| + 1] == base + "/";
    assert topic[..|base| + 1] == topic[..|p|][..|base| + 1];
  }

  /** A topic that does not begin with `<base>/` does not match. */
  lemma ForeignTopicRejected(base: string, cmd: string, topic: string)
    requires !StartsWith(topic, base + "/")
    ensures DevFromTopic(base, cmd, topic) == None
  {
    forall s ensures !Captures(base, cmd, topic, s) {
      if Captures(base, cmd, topic, s) {
        CaptureAfterBase(base, cmd, topic, s);
      }
    }
    DevFromTopicSpec(base, cmd, topic);
  }

  /**
   * Every reply topic the runner subscribes to for an explicit list is
   * parsed back to the device it was subscribed for.
   */
  lemma SubscribedTopicsParse(base: string, cmd: string, list: seq<string>)
    requires forall i :: 0 <= i < |list| ==> |list[i]| >= 1 && NoNewline(list[i])
    ensures |SubscribeTopics(base, cmd, Explicit(list))| == |list|
    ensures forall i :: 0 <= i < |list| ==>
              DevFromTopic(base, cmd, SubscribeTopics(base, cmd, Explicit(list))[i]) == Some(list[i])
  {
    forall i | 0 <= i < |list|
      ensures DevFromTopic(base, cmd, SubscribeTopics(base, cmd, Explicit(list))[i]) == Some(list[i])
    {
      RespTopicRoundTrip(base, list[i], cmd);
    }
  }

  /** `r` is the part of `path` after its last `sep` (all of it when there is none). */
  predicate IsLastSegment(r: string, path: string, sep: char) {
    |r| <= |path| && r == path[|path| - |r|..] && sep !in r
    && (|r| < |path| ==> path[|path| - |r| - 1] == sep)
  }

  /** `path.split(sep)[-1]`. */
  function LastSegment(path: string, sep: char): (r: string)
    ensures IsLastSegment(r, path, sep)
  {
    if |path| == 0 then ""
    else if path[|path| - 1] == sep then ""
    else
      var init := path[..|path| - 1];
      var r := LastSegment(init, sep);
      assert init[|init| - |r|..] + [path[|path| - 1]] == path[|path| - |r| - 1..];
      r + [path[|path| - 1]]
  }

  /** There is only one such segment, so any function meeting the contract is `split(sep)[-1]`. */
  lemma LastSegmentUnique(a: string, b: string, path: string, sep: char)
    requires IsLastSegment(a, path, sep) && IsLastSegment(b, path, sep)
    ensures a == b
  {
    if |a| < |b| {
      assert false;
    } else if |b| < |a| {
      assert false;
    }
  }

  /**
   * The image name sent with a program command: the last `\` segment when
   * `os.name` is 'nt', the last `/` segment on 'posix', '' otherwise.
   */
  function ImageName(osName: string, flashfile: string): (r: string)
    ensures osName == "nt" ==> IsLastSegment(r, flashfile, '\\')
    ensures osName == "posix" ==> IsLastSegment(r, flashfile, '/')
    ensures osName != "nt" && osName != "posix" ==> r == ""
  {
    if osName == "nt" then LastSegment(flashfile, '\\')
    else if osName == "posix" then LastSegment(flashfile, '/')
    else ""
  }
}
