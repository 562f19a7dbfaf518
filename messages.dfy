/**
 * Messages: the commands, the JSON request payloads a runner publishes and
 * the JSON response payloads devices send back, as datatypes.
 */
module Messages {
  import opened Wrappers
  import opened Addressing

  const Token: int := 123
  const EchoTestString: string := "Echo Test String"

  /** The four command classes, with what each needs for its request payload. */
  datatype Command =
    | Discover
    | Echo
    | Program(imageName: string, image: string)
    | ChangeSoftware(version: Option<string>, url: Option<string>)

  /** The request payloads (`_gen_payload`); the base64 image is an opaque string. */
  datatype Request =
    | DiscoverRequest(token: int)
    | EchoRequest(token: int, payload: string)
    | ProgramRequest(token: int, description: string, hex: string)
    | ChangeSoftwareRequest(token: int, version: Option<string>, url: Option<string>)

  /** A mote as listed in a discover reply; `eui64` is None when the key is absent. */
  datatype MoteInfo = MoteInfo(serialport: string, eui64: Option<string>, bootloadSuccess: bool)

  /** The `returnVal` of a reply, by the shape the parsers read from it. */
  datatype ReturnVal =
    | NoReturnVal
    | EchoReturn(payload: string)
    | MotesReturn(motes: seq<MoteInfo>)

  /**
   * A response payload: one with an `exception` key, one with a `success`
   * key (and no `exception` key), or one with neither.
   */
  datatype Payload =
    | Exception
    | Reply(success: bool, returnVal: ReturnVal)
    | NoSuccessKey

  datatype Message = Message(topic: string, payload: Payload)

  /**
   * What one call of a `_parse_response` ends in: it returns, after putting
   * an 'unblock' on the runner's queue or not, or it raises.
   */
  datatype StepResult = Handled(unblock: bool) | Raised

  function BaseTopic(c: Command): (base: string)
    ensures base == MoteBaseTopic <==> c.Program?
  {
    if c.Program? then MoteBaseTopic else BoxBaseTopic
  }

  /**
   * The command name in the topics (discover goes out as 'discovermotes'):
   * each command has its own, so a reply to one command never matches the
   * reply pattern of another with the same base topic.
   */
  function CmdName(c: Command): (r: string)
    ensures r == "discovermotes" <==> c.Discover?
    ensures r == "echo" <==> c.Echo?
    ensures r == "program" <==> c.Program?
    ensures r == "changesoftware" <==> c.ChangeSoftware?
  {
    match c
    case Discover => "discovermotes"
    case Echo => "echo"
    case Program(_, _) => "program"
    case ChangeSoftware(_, _) => "changesoftware"
  }

  /**
   * `_gen_payload`: every request carries the token 123 and is of its
   * command's kind; echo sends the fixed test string, program the image
   * name and the encoded image, changesoftware its version and URL.
   */
  function GenPayload(c: Command): (r: Request)
    ensures r.token == Token
    ensures r.DiscoverRequest? <==> c.Discover?
    ensures r.EchoRequest? <==> c.Echo?
    ensures r.ProgramRequest? <==> c.Program?
    ensures r.ChangeSoftwareRequest? <==> c.ChangeSoftware?
    ensures c.Echo? ==> r.payload == EchoTestString
    ensures c.Program? ==> r.description == c.imageName && r.hex == c.image
    ensures c.ChangeSoftware? ==> r.version == c.version && r.url == c.url
  {
    match c
    case Discover => DiscoverRequest(Token)
    case Echo => EchoRequest(Token, EchoTestString)
    case Program(name, image) => ProgramRequest(Token, name, image)
    case ChangeSoftware(version, url) => ChangeSoftwareRequest(Token, version, url)
  }
}
