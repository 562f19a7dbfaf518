# opentb command runner, modelled in Dafny

This project models the command-dispatch and response-aggregation core of
`opentb`, a tool that sends discover, echo, program and changesoftware
commands over MQTT to OpenTestbed boxes and motes. The runner publishes one
command per target (or one wildcard command for `all`). It then waits on a
queue for the expected number of responses. The folded responses become a
report. The model covers:

- **Addressing** (`addressing.dfy`): the `cmd`, `resp` and subscription
  topics; recovering the device id from a reply topic with the greedy,
  start-anchored match of `<base>/(.+)/resp/<cmd>`; and the image-name split.
  `Devices = AllStr | Explicit(list)` keeps the source's two forms of "all":
  the string `'all'` (the command-line default) and the list `['all']`
  (from `--d all`).
- **Messages** (`messages.dfy`): commands, request payloads and response
  payloads as datatypes in place of JSON.
- **Firmware image check** (`image_check.dfy`): `_check_image` as a method,
  with its line loop as the method `ScanLines`.
  - A path containing `.bin` whose size is below `512*1024 - 2048` bytes is
    approved by size alone.
  - Otherwise the verdict is stated outright. It raises if some line at or
    after the `:020000040027D3` record has the address field `FFD4` and an
    unparsable byte count.
  - Failing that, it is true iff some such line has a byte count above 4
    and the bytes `FFFFFFF6` at columns 9 to 17.
  - The record type field (columns 7 to 9) is not checked, so any type of
    record whose address field is `FFD4` qualifies.
- **Program and changesoftware tallies** (`tally.dfy`): the `self.response`
  counters and topic lists as classes whose `ParseResponse` is proved
  against a step function. `Finish` is proved against a report function.
  Lemmas cover the exception no-op, the counter invariants, the unblock rule
  and the OK/FAIL/MUTE report.
- **Discover and echo** (`discover.dfy`, `echo.dfy`): the discovered-mote
  list and the echo responses, folded per reply.
- **Runner** (`runner.dfy`): the expected response count (76 motes or 19
  boxes for `'all'`, else the list length), the publishes, and the wait loop
  over an oracle of queue-get outcomes. The image check runs before any
  program publish.

Behaviours of the code worth knowing, all of which the model keeps:

- Each queue get's timeout is the full 60 s until one get finds the queue
  empty, and 0 s after that. A get returns as soon as an item is queued.
- With `['all']`, discover unblocks when the number of discovered *motes*
  equals 19, the box count.
- `--d all` gives the list `['all']`, which the runner treats as one device
  named `all`. It publishes once to `<base>/all/cmd/<cmd>`, subscribes to
  `<base>/all/resp/<cmd>` and waits for one response. The parsers treat the
  same list as the wildcard.
- For the string `'all'`, the program report iterates the characters
  `a`, `l`, `l` and compares against `len('all') == 3`. `DeviceList` models
  this.
- A `.bin` image of `512*1024 - 2048` bytes or more falls through to the
  line scan.
- The program report writes MUTE lines only when the number of OK and FAIL
  lines differs from `len(devices)`. It then writes one for each requested
  device that did not respond.
- Echo with `['all']` reads `self.discovered`, which echo never sets. The
  model has it raise after appending the response (`Raised`).

## Model

| member | source | states |
|---|---|---|
| `Addressing.DevFromTopicSpec` | opentb/opentb.py:174-176 | the recovered id is the longest non-empty, newline-free `s` with the topic starting `<base>/<s>/resp/<cmd>`; None exactly when no such `s` exists |
| `Addressing.RespTopicRoundTrip` | opentb/opentb.py:174-179 | for every non-empty id without a newline, the reply topic built for it parses back to it, even if the id contains `/resp/<cmd>` |
| `Addressing.ForeignTopicRejected` | opentb/opentb.py:174-176 | a topic not starting with `<base>/` gives no match (the source's `.group(1)` raises) |
| `Addressing.SubscribedTopicsParse` | opentb/opentb.py:181-192 | one subscription per listed device, each parsing back to that device |
| `Addressing.CmdTopic` | opentb/opentb.py:194-195 | the topic `_publish` uses starts `<base>/<dev>/` and is never the reply topic of the same device |
| `Addressing.RespTopic` | opentb/opentb.py:178-179 | for a non-empty, newline-free id, the reply pattern captures that id on the topic |
| `Addressing.SubscribeTopics` | opentb/opentb.py:181-192 | the one wildcard topic `<base>/+/resp/<cmd>` for `'all'`; otherwise one reply topic per listed device, in order (`SubscribedTopicsParse` proves each parses back) |
| `Addressing.DevFromTopic` | opentb/opentb.py:174-176 | a recovered id is non-empty and is exactly the text right after `<base>/` (`DevFromTopicSpec` states which text) |
| `Addressing.LongestSpec` | opentb/opentb.py:174-176 | the greedy search over candidate lengths returns a capture, and no capture it covers is longer |
| `Addressing.LastSegment` | opentb/opentb.py:261-264 | the result is a separator-free suffix of the path preceded by a separator or the start |
| `Addressing.LastSegmentUnique` | opentb/opentb.py:261-264 | that contract determines `split(sep)[-1]` uniquely |
| `Addressing.ImageName` | opentb/opentb.py:258-264 | last `\` segment on `nt`, last `/` segment on `posix`, `''` on any other OS |
| `Messages.CmdName` | opentb/opentb.py:214 | the topic name is `echo` exactly for echo, and likewise `program`, `discovermotes` and `changesoftware` (lines 254, 380 and 427), so no two commands share one |
| `Messages.GenPayload` | opentb/opentb.py:220-224 | every request carries token 123 and is of its command's kind; echo carries the fixed test string, program (lines 322-327) the image name and encoded image, changesoftware (lines 458-463) its version and URL (discover at 386-387 only the token) |
| `ImageCheck.ParseHex2` | opentb/opentb.py:317 | `int(s, 16)` on the two-character byte count: two hex digits give their value, the result lies in -15..255, and two non-digits raise |
| `ImageCheck.SeparatorIsNoSpace` | opentb/opentb.py:317 | a byte count of U+001C then `5` raises, while one of a space then `5` is 5 |
| `ImageCheck.CheckImage` | opentb/opentb.py:275-320 | `.bin` in the path and size below 512*1024-2048 gives the truthy class object without reading lines; otherwise raises iff an FFD4 line at or after the extended address record has an unparsable byte count, else true iff such a line has count > 4 and FFFFFFF6 |
| `ImageCheck.ScanLines` | opentb/opentb.py:301-320 | the line loop ends in the verdict `HexVerdict` states without the loop: raise on an unparsable byte count at an FFD4 line after the extended address record, else true iff such a line is the enabled backdoor record |
| `ImageCheck.LineStep` | opentb/opentb.py:308-318 | one iteration either raises, and then the whole file does, or leaves both sticky flags describing one more line |
| `ImageCheck.MatchSurvivesAppend` | opentb/opentb.py:308-318 | both sticky flags stay set when lines are appended |
| `ImageCheck.ApprovalSurvivesAppend` | opentb/opentb.py:279-320 | appending lines never turns an approved image into a rejected one (only a raise is possible) |
| `ImageCheck.EnabledBackdoorAccepted` | opentb/opentb.py:308-318 | `:020000040027D3` then an FFD4 record with FFFFFFF6 is safe |
| `ImageCheck.OtherBackdoorBytesRejected` | opentb/opentb.py:316-318 | the same record with FFFFFFF7 is not |
| `Tally.TallyStep` | opentb/opentb.py:329-351 | exception payloads change nothing and queue nothing; others add one to msg_count and their topic to exactly one list; a payload without `success` is counted and raises; consistency is preserved; unblock iff not `['all']` or msg_count reaches the fleet size |
| `Tally.FoldKeepsConsistent` | opentb/opentb.py:339-345 | over any well-formed response sequence, `msg_count == |success|+|failed|` and `success_count == |success|` persist, and msg_count grows by the number of non-exception responses |
| `Tally.ExceptionRedeliveryIsNoOp` | opentb/opentb.py:333-335 | any number of exception payloads leave the tally unchanged |
| `Tally.CmdProgram.constructor` | opentb/opentb.py:265-271 | the tally starts at zero counts and empty lists |
| `Tally.CmdProgram.ParseResponse` | opentb/opentb.py:329-351 | the new state and the queued unblock are those of `TallyStep` with 76 motes |
| `Tally.ParseTopics` | opentb/opentb.py:361-369 | topics are matched in order; when all match, the k-th device is the k-th topic's id |
| `Tally.ParseStopsAtMismatch` | opentb/opentb.py:361-369 | the report stops at the first topic that does not match |
| `Tally.ScanTopics` | opentb/opentb.py:361-369 | the report loop over one topic list yields the parsed devices and one tagged line each |
| `Tally.AppendMutes` | opentb/opentb.py:370-373 | the MUTE loop appends a line for each requested device not among the responders, in request order |
| `Tally.CmdProgram.Finish` | opentb/opentb.py:353-374 | the report is OK lines in arrival order, FAIL lines when msg_count > success_count, then MUTE lines when the responder count differs from `len(devices)` |
| `Tally.MuteLinesExactly` | opentb/opentb.py:370-373 | a MUTE line exists for a device iff it is requested and did not respond |
| `Tally.ConsistentOutcomes` | opentb/opentb.py:365-369 | under the counter invariants the FAIL guard only skips an empty failure list |
| `Tally.ProgramMuteExactly` | opentb/opentb.py:365-373 | in a complete report a device is MUTE iff requested, absent from the OK/FAIL lines, and the responder count differs from `len(devices)` |
| `Tally.NoMuteWhenEveryDeviceAnswered` | opentb/opentb.py:370-373 | if every requested device responded exactly once there are no MUTE lines |
| `Tally.MuteLinesCount` | opentb/opentb.py:370-373 | for distinct requested devices, the MUTE lines number the requested devices not responding |
| `Tally.ReportAccountsForEveryDevice` | opentb/opentb.py:353-373 | with distinct devices and distinct responders among them, OK + FAIL + MUTE lines number `len(devices)` |
| `Tally.OneMuteDevice` | opentb/opentb.py:329-373 | program to devA and devB with only devA succeeding gives success_count 1, msg_count 1 and the report `devA OK`, `devB MUTE` |
| `Tally.CmdChangeSoftware.constructor` | opentb/opentb.py:435-441 | the changesoftware tally starts at zero counts and empty lists |
| `Tally.CmdChangeSoftware.ParseResponse` | opentb/opentb.py:465-487 | the same tally step with the 19-box fleet size |
| `Tally.CmdChangeSoftware.Finish` | opentb/opentb.py:489-506 | OK then FAIL lines, no MUTE lines |
| `Discover.MoteEntriesAt` | opentb/opentb.py:403-414 | one entry per listed mote in order, with the replying box, its port, `eui64` None iff absent and status 1 iff it bootloaded |
| `Discover.DiscoverStep` | opentb/opentb.py:397-421 | a reply appends exactly its contribution (nothing for a failed box); an unmatched topic, an exception payload, a payload without `success`, or a success without `returnVal.motes` raises before appending; with `['all']` unblock iff 19 motes are discovered |
| `Discover.FoldIsContributions` | opentb/opentb.py:397-421 | after any replies the list is the concatenation of each reply's contribution in arrival order, so a failed box adds nothing whatever the others reply |
| `Discover.CmdDiscover.constructor` | opentb/opentb.py:378-384 | the discovered list starts empty |
| `Discover.CmdDiscover.ParseResponse` | opentb/opentb.py:397-421 | the append loop leaves the list and the unblock as `DiscoverStep` says |
| `Discover.FormatMote` | opentb/opentb.py:393-394 | a report line starts with the box, the EUI64 (`None` when absent) and the port, space-separated, followed by exactly one character, the bootload status digit |
| `Discover.CmdDiscover.Finish` | opentb/opentb.py:389-395 | the count and one `box eui64 port status` line per discovered mote, in order |
| `Echo.EchoStep` | opentb/opentb.py:233-247 | a successful reply appends `<box>: <text>`; others append nothing; unblock iff not `['all']` and the reply parsed; with `['all']` it raises |
| `Echo.FoldEchoIsLines` | opentb/opentb.py:233-247 | after any replies the responses are each reply's `<box>: <text>` line in arrival order; a failed or malformed reply adds nothing |
| `Echo.TwoBoxesEcho` | opentb/opentb.py:233-247 | echo to otbox02 and otbox10 both answering pong gives exactly those two lines |
| `Echo.CmdEcho.constructor` | opentb/opentb.py:213-218 | the response list starts empty |
| `Echo.CmdEcho.ParseResponse` | opentb/opentb.py:233-247 | the new responses and the outcome are those of `EchoStep` |
| `Echo.CmdEcho.Finish` | opentb/opentb.py:226-231 | the count and the responses in arrival order |
| `Runner.Dispatch` | opentb/opentb.py:132-156 | for `'all'` one publish to `<base>/all/cmd/<cmd>` and 76 or 19 gets, else one publish per device and `len(devices)` gets; each get's timeout is 60 s until one finds the queue empty and 0 from then on; `timedout` is set iff some get was empty |
| `Runner.EmptyBeforeMonotone` | opentb/opentb.py:145-156 | once a get has timed out, every later get counts as after a timeout |
| `Runner.RunProgram` | opentb/opentb.py:252-273 | an image the check does not approve aborts before any publish; otherwise the requests are built from the `CmdProgram` fields, so each carries the image's base name and the encoded image |

## Left out

- MQTT client: creation, `connect`, `loop_start`/`loop_stop`, the busy-wait on `_connected` and the callback threads. These are network and concurrency. Arrivals are seen only through the queue-get oracle.
- How unblock items reach the queue in time: the `ParseResponse` results say when an unblock is queued, but the interleaving of arrivals with `Dispatch`'s gets is not modelled.
- Base64 encoding of the image, file reading, `os.path.getsize` and decoding errors of a binary file read as text are library calls. The image is an opaque string, and size and lines are inputs.
- JSON parsing: payloads are the `Payload` datatype. A payload with both `exception` and `success` keys is modelled as `Exception`, which is how program and changesoftware read it. Discover and echo would read its `success` field.
- `Discover.DiscoverStep`: mote objects are assumed to carry `serialport` and `bootload_success`. A mote without them would raise partway through the append loop.
- `ImageCheck.ParseHex2`: non-ASCII decimal digits, which Python's `int` also accepts, are treated as unparsable.
- The reply-topic pattern treats the base topic and command name literally. They contain no regular-expression metacharacters.
- `CmdChangeSoftware._check_url` makes an HTTP request.
- `Tally.CmdChangeSoftware.constructor`: the object does not store `version` and `url`. The request takes them from the `ChangeSoftware` command value that `Runner.Dispatch` is given.
- Log formatting: banner lines, the "N of M reported" and "N motes responded" headers, indentation, and debug and error messages. Reports are sequences of lines with the device and its outcome.
- The clock: timeouts are recorded as values in seconds, and no waiting is modelled.
- CLI: argument parsing, `main`, and the duplicate check, which compares a list with itself.
- `opentb/logger.py`, `setup.py` and `opentb/tests/test_opentb.py` are not part of this model.
