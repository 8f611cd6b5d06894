/**
 * The ACP agent server over a byte stream (`AcpStdioAgentServer`, src/acp/stdio-server.ts,
 * and the `initialize` answer of src/acp/initialize.ts).
 *
 * `Serve` is the whole response stream as a function of the lines. An `initialize`
 * request whose params are absent or null makes the source dereference `undefined`:
 * the exception leaves `push` or `end`, and the lines still to be handled are lost.
 */
module StdioServer {
  import opened Wrappers
  import opened Framing
  import opened JsonRpc

  const PARSE_ERROR := -32700.0
  const METHOD_NOT_FOUND := -32601.0
  const LATEST_PROTOCOL_VERSION := Numeric(1.0)
  const SUPPORTED_PROTOCOL_VERSIONS := {Numeric(1.0)}

  /** The outside world: text of one line, JSON syntax, error texts, the agent's identity. */
  datatype Config = Config(
    decode: seq<byte> -> string,
    parseJson: string -> Option<Json>,
    stringify: Json -> string,
    describe: (ProtocolError, string) -> string,
    agentInfo: Json)

  // ---- One line ----------------------------------------------------------------------

  datatype Reaction = Silent | Reply(response: Message) | Throws

  function Parse(cfg: Config, line: string): Result<Message, ProtocolError> {
    match cfg.parseJson(line)
    case None => Err(NotJson)
    case Some(j) => Classify(j)
  }

  function NegotiateVersion(requested: Option<Json>): Json {
    if requested.Some? && requested.value in SUPPORTED_PROTOCOL_VERSIONS then requested.value
    else LATEST_PROTOCOL_VERSION
  }

  function InitializeResult(agentInfo: Json, params: Json): Json {
    var requested := if params.Obj? then Field(params.fields, "protocolVersion") else None;
    Obj(map[
      "protocolVersion" := NegotiateVersion(requested),
      "agentCapabilities" := Obj(map[
        "loadSession" := Bool(false),
        "promptCapabilities" := Obj(map["image" := Bool(false), "audio" := Bool(false), "embeddedContext" := Bool(false)]),
        "mcpCapabilities" := Obj(map["http" := Bool(false), "sse" := Bool(false)])]),
      "authMethods" := Arr([]),
      "agentInfo" := agentInfo])
  }

  function React(cfg: Config, line: string): Reaction {
    if line == "" then Silent
    else
      match Parse(cfg, line)
      case Err(e) => Reply(Failure(None, PARSE_ERROR, cfg.describe(e, line), None))
      case Ok(Success(_, _)) => Silent
      case Ok(Failure(_, _, _, _)) => Silent
      case Ok(Notification(_, _)) => Silent
      case Ok(Request(id, name, params)) =>
        if name == "initialize" then
          if params == None || params == Some(Null) then Throws
          else Reply(Success(Some(id), InitializeResult(cfg.agentInfo, params.value)))
        else Reply(Failure(Some(id), METHOD_NOT_FOUND, "methode ACP non geree : " + name, None))
  }

  function Frame(cfg: Config, response: Message): string {
    EncodeFrame(cfg.stringify(ToJson(response)))
  }

  // ---- The response stream -----------------------------------------------------------

  /** Frames written for the lines, and whether an exception ended the handling. */
  function Serve(cfg: Config, lines: seq<string>): (seq<string>, bool) {
    if lines == [] then ([], false)
    else
      match React(cfg, lines[0])
      case Silent => Serve(cfg, lines[1..])
      case Throws => ([], true)
      case Reply(m) =>
        var (frames, threw) := Serve(cfg, lines[1..]);
        ([Frame(cfg, m)] + frames, threw)
  }

  /** The lines a stream delivers: its complete lines, then a trailing one if bytes are left. */
  function StreamLines(cfg: Config, bytes: seq<byte>): seq<string> {
    DecodeAll(cfg.decode, Lines(bytes)) + if Tail(bytes) == [] then [] else [cfg.decode(Tail(bytes))]
  }

  lemma {:induction false} ServeConcat(cfg: Config, a: seq<string>, b: seq<string>)
    ensures Serve(cfg, a + b)
         == if Serve(cfg, a).1 then Serve(cfg, a)
            else (Serve(cfg, a).0 + Serve(cfg, b).0, Serve(cfg, b).1)
  {
    if a == [] {
      assert a + b == b;
      assert [] + Serve(cfg, b).0 == Serve(cfg, b).0;
    } else {
      assert (a + b)[1..] == a[1..] + b;
      ServeConcat(cfg, a[1..], b);
      if React(cfg, a[0]).Reply? && !Serve(cfg, a[1..]).1 {
        var f := [Frame(cfg, React(cfg, a[0]).response)];
        assert f + (Serve(cfg, a[1..]).0 + Serve(cfg, b).0) == (f + Serve(cfg, a[1..]).0) + Serve(cfg, b).0;
      }
    }
  }

  lemma {:induction false} ServeOne(cfg: Config, line: string)
    ensures Serve(cfg, [line])
         == match React(cfg, line)
            case Silent => ([], false)
            case Throws => ([], true)
            case Reply(m) => ([Frame(cfg, m)], false)
  {
    assert [line][1..] == [] && Serve(cfg, []) == ([], false);
    if React(cfg, line).Reply? {
      var frame := Frame(cfg, React(cfg, line).response);
      assert [frame] + [] == [frame];
    }
  }

  lemma {:induction false} ServeSnoc(cfg: Config, lines: seq<string>, k: nat, sent: seq<string>)
    requires k < |lines| && !Serve(cfg, lines[..k]).1
    ensures Serve(cfg, lines[..k + 1]).1 == Serve(cfg, [lines[k]]).1
    ensures sent + Serve(cfg, lines[..k + 1]).0 == sent + Serve(cfg, lines[..k]).0 + Serve(cfg, [lines[k]]).0
  {
    assert lines[..k + 1] == lines[..k] + [lines[k]];
    ServeConcat(cfg, lines[..k], [lines[k]]);
  }

  /** Once an exception is thrown, later lines change nothing. */
  lemma {:induction false} ServePrefix(cfg: Config, a: seq<string>, lines: seq<string>)
    requires a <= lines && Serve(cfg, a).1
    ensures Serve(cfg, lines) == Serve(cfg, a)
  {
    assert lines == a + lines[|a|..];
    ServeConcat(cfg, a, lines[|a|..]);
  }

  ghost predicate MissingInitializeParams(cfg: Config, line: string) {
    && line != ""
    && Parse(cfg, line).Ok? && Parse(cfg, line).value.Request?
    && Parse(cfg, line).value.method_ == "initialize"
    && (Parse(cfg, line).value.params == None || Parse(cfg, line).value.params == Some(Null))
  }

  /** The loop survives hostile input except for one family of lines. */
  lemma {:induction false} ServeThrowsExactly(cfg: Config, lines: seq<string>)
    ensures Serve(cfg, lines).1 <==> exists line :: line in lines && MissingInitializeParams(cfg, line)
  {
    if lines != [] {
      ServeThrowsExactly(cfg, lines[1..]);
      assert lines == [lines[0]] + lines[1..];
      assert lines[0] in lines;
    }
  }

  /** The lines that a client gets an answer to: requests, and malformed non-empty lines. */
  predicate Asks(cfg: Config, line: string) {
    line != "" && (Parse(cfg, line).Err? || Parse(cfg, line).value.Request?)
  }

  function Asking(cfg: Config, lines: seq<string>): seq<string> {
    if lines == [] then []
    else if Asks(cfg, lines[0]) then [lines[0]] + Asking(cfg, lines[1..])
    else Asking(cfg, lines[1..])
  }

  /** The response a client reads back from a frame. */
  function ReadFrame(cfg: Config, frame: string): Result<Message, ProtocolError> {
    if frame == "" then Err(NotJson) else Parse(cfg, frame[..|frame| - 1])
  }

  /** The text written for this response parses back to it. */
  predicate ReadsBack(cfg: Config, m: Message) {
    cfg.parseJson(cfg.stringify(ToJson(m))) == Some(ToJson(m))
  }

  /** JSON text is faithful on every response the server can write. */
  ghost predicate FaithfulJson(cfg: Config) {
    forall line: string | React(cfg, line).Reply? :: ReadsBack(cfg, React(cfg, line).response)
  }

  /**
   * What the answer to a line must be: a parse error without id for a malformed one; for a
   * request a response with its id, which for `initialize` is a result whose version is
   * supported and is the requested one if that is supported, and otherwise an error.
   */
  ghost predicate IsAnswer(cfg: Config, m: Message, line: string) {
    match Parse(cfg, line)
    case Err(_) => m.Failure? && m.responseId == None && m.code == PARSE_ERROR
    case Ok(Request(id, name, params)) =>
      if name != "initialize" then
        && m.Failure? && m.responseId == Some(id) && m.code == METHOD_NOT_FOUND
        && m.message == "methode ACP non geree : " + name
      else
        && m.Success? && m.responseId == Some(id) && m.result.Obj? && IsHonest(cfg, m.result.fields)
        && var version := Field(m.result.fields, "protocolVersion");
           && version.Some? && version.value in SUPPORTED_PROTOCOL_VERSIONS
           && (forall v | v in SUPPORTED_PROTOCOL_VERSIONS && Requests(params, v) :: version == Some(v))
    case Ok(_) => false
  }

  /** The agent says who it is, offers no way to authenticate, and promises no capability. */
  predicate IsHonest(cfg: Config, fields: map<string, Json>) {
    && Field(fields, "agentInfo") == Some(cfg.agentInfo) && Field(fields, "authMethods") == Some(Arr([]))
    && "agentCapabilities" in fields && PromisesNothing(fields["agentCapabilities"])
  }

  /** No flag is set anywhere in the value. */
  predicate PromisesNothing(j: Json) {
    match j
    case Bool(b) => !b
    case Arr(items) => forall i | 0 <= i < |items| :: PromisesNothing(items[i])
    case Obj(fields) => forall key | key in fields :: PromisesNothing(fields[key])
    case _ => true
  }

  lemma InitializeIsHonest(cfg: Config, params: Json)
    ensures var result := InitializeResult(cfg.agentInfo, params);
      result.Obj? && IsHonest(cfg, result.fields)
  {
    var prompts := Obj(map["image" := Bool(false), "audio" := Bool(false), "embeddedContext" := Bool(false)]);
    var servers := Obj(map["http" := Bool(false), "sse" := Bool(false)]);
    assert PromisesNothing(prompts) && PromisesNothing(servers);
    assert PromisesNothing(Obj(map[
      "loadSession" := Bool(false), "promptCapabilities" := prompts, "mcpCapabilities" := servers]));
  }

  predicate Requests(params: Option<Json>, version: Json) {
    params.Some? && params.value.Obj? && Field(params.value.fields, "protocolVersion") == Some(version)
  }

  ghost predicate Answers(cfg: Config, frame: string, line: string) {
    && frame != "" && frame[|frame| - 1] == '\n'
    && ReadFrame(cfg, frame).Ok? && IsAnswer(cfg, ReadFrame(cfg, frame).value, line)
  }

  lemma {:induction false} FrameReadsBack(cfg: Config, m: Message)
    requires ReadsBack(cfg, m) && WellFormed(m)
    ensures ReadFrame(cfg, Frame(cfg, m)) == Ok(m)
    ensures var frame := Frame(cfg, m); frame != "" && frame[|frame| - 1] == '\n'
  {
    var text := cfg.stringify(ToJson(m));
    assert (text + "\n")[..|text + "\n"| - 1] == text;
    RoundTrip(m);
  }

  /** Sections 4.1 and 5 of JSON-RPC 2.0: one response per request, in line order, and no other. */
  lemma {:induction false} OneResponsePerRequest(cfg: Config, lines: seq<string>)
    requires FaithfulJson(cfg) && !Serve(cfg, lines).1
    ensures var frames, asking := Serve(cfg, lines).0, Asking(cfg, lines);
      && |frames| == |asking|
      && forall k | 0 <= k < |asking| :: Answers(cfg, frames[k], asking[k])
  {
    FramesAreReactions(cfg, lines);
    var asking := Asking(cfg, lines);
    forall k | 0 <= k < |asking|
      ensures Answers(cfg, Serve(cfg, lines).0[k], asking[k])
    {
      ReactionAnswers(cfg, asking[k]);
    }
  }

  lemma ReactionAnswers(cfg: Config, line: string)
    requires FaithfulJson(cfg)
    ensures React(cfg, line) == Silent <==> !Asks(cfg, line)
    ensures React(cfg, line).Reply? ==> Answers(cfg, Frame(cfg, React(cfg, line).response), line)
  {
    match React(cfg, line)
    case Reply(m) =>
      FrameReadsBack(cfg, m);
      if m.Success? {
        InitializeIsHonest(cfg, Parse(cfg, line).value.params.value);
      }
    case _ =>
  }

  /** The text of the answer to a line. */
  function AnswerText(cfg: Config, line: string): string
    requires React(cfg, line).Reply?
  {
    cfg.stringify(ToJson(React(cfg, line).response))
  }

  /**
   * `encode` puts the answers on the wire as section 3 of RFC 3629 promises: a text without raw
   * newline has no newline byte, decodes to itself, and its frame ends in the newline byte.
   */
  ghost predicate FaithfulWire(cfg: Config, encode: string -> seq<byte>) {
    forall line: string | React(cfg, line).Reply? :: WireKeeps(cfg, encode, AnswerText(cfg, line))
  }

  predicate WireKeeps(cfg: Config, encode: string -> seq<byte>, text: string) {
    NEWLINE !in encode(text) && cfg.decode(encode(text)) == text && encode(EncodeFrame(text)) == encode(text) + [NEWLINE]
  }

  function Wire(encode: string -> seq<byte>, frames: seq<string>): seq<byte> {
    if frames == [] then [] else Wire(encode, frames[..|frames| - 1]) + encode(frames[|frames| - 1])
  }

  function AnswerLines(cfg: Config, encode: string -> seq<byte>, asking: seq<string>): (r: seq<seq<byte>>)
    requires forall k | 0 <= k < |asking| :: React(cfg, asking[k]).Reply?
    ensures |r| == |asking| && forall k | 0 <= k < |r| :: r[k] == encode(AnswerText(cfg, asking[k]))
  {
    seq(|asking|, k requires 0 <= k < |asking| => encode(AnswerText(cfg, asking[k])))
  }

  lemma {:induction false} WireIsFramed(cfg: Config, encode: string -> seq<byte>, asking: seq<string>, frames: seq<string>)
    requires FaithfulWire(cfg, encode) && |frames| == |asking|
    requires forall k | 0 <= k < |asking| ::
      React(cfg, asking[k]).Reply? && frames[k] == Frame(cfg, React(cfg, asking[k]).response)
    ensures Wire(encode, frames) == Frames(AnswerLines(cfg, encode, asking))
  {
    if frames != [] {
      var m := |frames| - 1;
      WireIsFramed(cfg, encode, asking[..m], frames[..m]);
      var lines := AnswerLines(cfg, encode, asking);
      assert lines[..m] == AnswerLines(cfg, encode, asking[..m]);
      assert frames[m] == EncodeFrame(AnswerText(cfg, asking[m]));
    }
  }

  lemma {:induction false} FramesAreReactions(cfg: Config, lines: seq<string>)
    requires !Serve(cfg, lines).1
    ensures var frames, asking := Serve(cfg, lines).0, Asking(cfg, lines);
      && |frames| == |asking|
      && forall k | 0 <= k < |asking| ::
           React(cfg, asking[k]).Reply? && frames[k] == Frame(cfg, React(cfg, asking[k]).response)
  {
    if lines != [] {
      FramesAreReactions(cfg, lines[1..]);
      assert React(cfg, lines[0]) == Silent <==> !Asks(cfg, lines[0]);
      var rest := Serve(cfg, lines[1..]).0;
      match React(cfg, lines[0])
      case Silent =>
        assert Serve(cfg, lines) == Serve(cfg, lines[1..]);
      case Reply(m) =>
        assert Serve(cfg, lines).0 == [Frame(cfg, m)] + rest;
        assert Asking(cfg, lines) == [lines[0]] + Asking(cfg, lines[1..]);
    }
  }

  /**
   * End to end: a client that decodes the server's output bytes, however they are cut into
   * chunks, reads exactly the answers to the lines that asked for one, in order, with no bytes
   * left over.
   */
  lemma {:induction false} AnswersComeBack(cfg: Config, encode: string -> seq<byte>, lines: seq<string>,
                                           chunks: seq<seq<byte>>)
    requires FaithfulJson(cfg) && FaithfulWire(cfg, encode) && !Serve(cfg, lines).1
    requires Concat(chunks) == Wire(encode, Serve(cfg, lines).0)
    ensures var asking, received := Asking(cfg, lines), DecodeAll(cfg.decode, Received(chunks).0);
      && |received| == |asking| && Received(chunks).1 == []
      && forall k | 0 <= k < |asking| ::
           Parse(cfg, received[k]).Ok? && IsAnswer(cfg, Parse(cfg, received[k]).value, asking[k])
  {
    var asking := Asking(cfg, lines);
    FramesAreReactions(cfg, lines);
    WireIsFramed(cfg, encode, asking, Serve(cfg, lines).0);
    var sent := AnswerLines(cfg, encode, asking);
    FramedMessagesComeBack(sent, chunks);
    forall k | 0 <= k < |asking|
      ensures var text := cfg.decode(sent[k]);
        Parse(cfg, text).Ok? && IsAnswer(cfg, Parse(cfg, text).value, asking[k])
    {
      ReactionAnswers(cfg, asking[k]);
      var text := AnswerText(cfg, asking[k]);
      assert cfg.decode(sent[k]) == text;
      assert (text + "\n")[..|text + "\n"| - 1] == text;
    }
  }

  /** A server that knows one request, and the two texts it answers with. */
  function OneRequestServer(request: Json, failure: Json, answer: Json): Config {
    Config(
      (bytes: seq<byte>) => if bytes == [97] then "a" else "f",
      (s: string) =>
        if s == "q" then Some(request) else if s == "a" then Some(answer) else if s == "f" then Some(failure) else None,
      (j: Json) => if j == answer then "a" else "f",
      (e, s) => "",
      Null)
  }

  function Ascii(s: string): seq<byte> {
    seq(|s|, i requires 0 <= i < |s| => if s[i] == 'a' then 97 else if s[i] == '\n' then 10 else 102)
  }

  lemma AsciiFrames()
    ensures Ascii("a") == [97] && Ascii("f") == [102]
    ensures Ascii(EncodeFrame("a")) == [97] + [NEWLINE] && Ascii(EncodeFrame("f")) == [102] + [NEWLINE]
  {
  }

  predicate HasText(cfg: Config, m: Message, text: string, bytes: seq<byte>) {
    && cfg.parseJson(text) == Some(ToJson(m)) && cfg.stringify(ToJson(m)) == text
    && Ascii(text) == bytes && cfg.decode(bytes) == text
  }

  lemma TextIsFaithful(cfg: Config, m: Message, text: string, bytes: seq<byte>)
    requires HasText(cfg, m, text, bytes) && (text == "a" || text == "f")
    ensures ReadsBack(cfg, m) && WireKeeps(cfg, Ascii, cfg.stringify(ToJson(m)))
  {
    AsciiFrames();
  }

  lemma DifferentJson(success: Message, failure: Message)
    requires success.Success? && failure.Failure?
    ensures ToJson(success) != ToJson(failure)
  {
    RoundTrip(success);
    RoundTrip(failure);
  }

  lemma SilentOnResponses(cfg: Config, line: string, m: Message)
    requires line != "" && cfg.parseJson(line) == Some(ToJson(m)) && (m.Success? || m.Failure?)
    ensures React(cfg, line) == Silent
  {
    RoundTrip(m);
  }

  lemma KnownRequest(cfg: Config, request: Message, params: Json, answer: Message)
    requires cfg.parseJson("q") == Some(ToJson(request))
    requires request == Request(NumId(1.0), "initialize", Some(params)) && params.Obj?
    requires answer == Success(Some(NumId(1.0)), InitializeResult(cfg.agentInfo, params))
    ensures React(cfg, "q") == Reply(answer)
  {
    RoundTrip(request);
  }

  /** Every answer of that server is one of its two texts. */
  lemma OneRequestAnswers(cfg: Config, request: Message, failure: Message, answer: Message, line: string)
    requires cfg == OneRequestServer(ToJson(request), ToJson(failure), ToJson(answer))
    requires React(cfg, "q") == Reply(answer) && answer.Success? && failure == Failure(None, PARSE_ERROR, "", None)
    ensures React(cfg, line).Reply? ==> React(cfg, line).response == answer || React(cfg, line).response == failure
  {
    if line == "a" {
      SilentOnResponses(cfg, line, answer);
    } else if line == "f" {
      SilentOnResponses(cfg, line, failure);
    } else if line != "" && line != "q" {
      assert Parse(cfg, line) == Err(NotJson);
    }
  }

  lemma OneRequestIsFaithful(cfg: Config, request: Message, failure: Message, answer: Message)
    requires cfg == OneRequestServer(ToJson(request), ToJson(failure), ToJson(answer))
    requires React(cfg, "q") == Reply(answer) && answer.Success? && failure == Failure(None, PARSE_ERROR, "", None)
    ensures FaithfulJson(cfg) && FaithfulWire(cfg, Ascii)
  {
    DifferentJson(answer, failure);
    AsciiFrames();
    TextIsFaithful(cfg, answer, "a", [97]);
    TextIsFaithful(cfg, failure, "f", [102]);
    forall line: string | React(cfg, line).Reply?
      ensures ReadsBack(cfg, React(cfg, line).response) && WireKeeps(cfg, Ascii, AnswerText(cfg, line))
    {
      OneRequestAnswers(cfg, request, failure, answer, line);
    }
  }

  /** The two hypotheses on text and wire can be met by a server that answers requests. */
  lemma HypothesesAreMet() returns (cfg: Config, m: Message)
    ensures FaithfulJson(cfg) && FaithfulWire(cfg, Ascii)
    ensures React(cfg, "q") == Reply(m) && m.Success?
  {
    var request, failure := Request(NumId(1.0), "initialize", Some(Obj(map[]))), Failure(None, PARSE_ERROR, "", None);
    m := Success(Some(NumId(1.0)), InitializeResult(Null, Obj(map[])));
    cfg := OneRequestServer(ToJson(request), ToJson(failure), ToJson(m));
    KnownRequest(cfg, request, Obj(map[]), m);
    OneRequestIsFaithful(cfg, request, failure, m);
  }

  /** Frames written before an exception are the frames of the lines before the bad one. */
  lemma {:induction false} FramesBeforeThrow(cfg: Config, before: seq<string>, bad: string, after: seq<string>)
    requires !Serve(cfg, before).1 && MissingInitializeParams(cfg, bad)
    ensures Serve(cfg, before + [bad] + after) == (Serve(cfg, before).0, true)
  {
    ServeConcat(cfg, before + [bad], after);
    ServeConcat(cfg, before, [bad]);
    assert Serve(cfg, before).0 + [] == Serve(cfg, before).0;
  }

  // ---- The server ----------------------------------------------------------------------

  class Server {
    const cfg: Config
    const decoder: FrameDecoder
    /** The frames handed to the `write` sink. */
    var sent: seq<string>

    ghost predicate Valid()
      reads this, decoder
    {
      decoder.Valid() && decoder.decode == cfg.decode
    }

    constructor (cfg: Config)
      ensures Valid() && sent == [] && this.cfg == cfg && fresh(decoder) && decoder.pending == []
    {
      this.cfg := cfg;
      decoder := new FrameDecoder(cfg.decode);
      sent := [];
    }

    method HandleLine(line: string) returns (threw: bool)
      modifies this
      ensures (sent, threw) == (old(sent) + Serve(cfg, [line]).0, Serve(cfg, [line]).1)
    {
      ServeOne(cfg, line);
      assert sent + [] == sent;
      if line == "" {
        return false;
      }
      match Parse(cfg, line)
      case Err(e) =>
        Respond(Failure(None, PARSE_ERROR, cfg.describe(e, line), None));
        return false;
      case Ok(message) =>
        if message.Success? || message.Failure? {
          return false;
        }
        if message.Notification? {
          return false;
        }
        if message.method_ == "initialize" {
          if message.params == None || message.params == Some(Null) {
            return true;
          }
          Respond(Success(Some(message.id), InitializeResult(cfg.agentInfo, message.params.value)));
          return false;
        }
        Respond(Failure(Some(message.id), METHOD_NOT_FOUND, "methode ACP non geree : " + message.method_, None));
        return false;
    }

    method Respond(response: Message)
      modifies this
      ensures sent == old(sent) + [Frame(cfg, response)]
    {
      sent := sent + [Frame(cfg, response)];
    }

    /** Handles the lines the chunk completes, in order; an exception loses the rest of them. */
    method Push(chunk: array<byte>) returns (threw: bool)
      requires Valid()
      modifies this, decoder
      ensures Valid()
      ensures decoder.PendingBytes() == Waiting(old(decoder.PendingBytes()), chunk[..])
      ensures var lines := DecodeAll(cfg.decode, Completed(old(decoder.PendingBytes()), chunk[..]));
        (sent, threw) == (old(sent) + Serve(cfg, lines).0, Serve(cfg, lines).1)
    {
      var lines := decoder.Push(chunk);
      threw := HandleLines(lines);
    }

    /** The loop over the lines of one chunk. */
    method HandleLines(lines: seq<string>) returns (threw: bool)
      modifies this
      ensures (sent, threw) == (old(sent) + Serve(cfg, lines).0, Serve(cfg, lines).1)
    {
      for k := 0 to |lines|
        invariant sent == old(sent) + Serve(cfg, lines[..k]).0 && !Serve(cfg, lines[..k]).1
      {
        ServeSnoc(cfg, lines, k, old(sent));
        threw := HandleLine(lines[k]);
        if threw {
          ServePrefix(cfg, lines[..k + 1], lines);
          return;
        }
      }
      assert lines[..|lines|] == lines;
      return false;
    }

    /** The end of the input: a last line without newline is handled like any other. */
    method End() returns (threw: bool)
      requires Valid()
      modifies this, decoder
      ensures Valid() && decoder.pending == []
      ensures var tail := old(decoder.PendingBytes());
        var lines := if tail == [] then [] else [cfg.decode(tail)];
        (sent, threw) == (old(sent) + Serve(cfg, lines).0, Serve(cfg, lines).1)
    {
      assert sent + [] == sent;
      var trailing := decoder.Flush();
      match trailing
      case None => return false;
      case Some(line) => threw := HandleLine(line);
    }
  }

  /**
   * A server fed a whole stream, up to the first exception if there is one. What it wrote
   * is a function of the bytes: the chunking does not appear in the result.
   */
  method RunStream(cfg: Config, chunks: seq<array<byte>>, ghost cs: seq<seq<byte>>) returns (sent: seq<string>, threw: bool)
    requires |cs| == |chunks| && forall j | 0 <= j < |chunks| :: chunks[j][..] == cs[j]
    ensures (sent, threw) == Serve(cfg, StreamLines(cfg, Concat(cs)))
  {
    var server := new Server(cfg);
    ghost var done: seq<seq<byte>> := [];
    for k := 0 to |chunks|
      invariant server.Valid() && fresh(server) && fresh(server.decoder) && server.cfg == cfg
      invariant forall j | 0 <= j < |chunks| :: chunks[j][..] == cs[j]
      invariant done == cs[..k] && Served(server, done)
    {
      threw := PushNext(server, chunks[k], done, cs);
      if threw {
        return server.sent, true;
      }
      done := done + [cs[k]];
    }
    assert done == cs;
    threw := EndStream(server, cs);
    sent := server.sent;
  }

  /** The server has answered the lines of the chunks, and holds their last bytes. */
  ghost predicate Served(server: Server, done: seq<seq<byte>>)
    reads server, server.decoder, server.decoder.pending
  {
    && server.decoder.PendingBytes() == Received(done).1
    && (server.sent, false) == Serve(server.cfg, ReceivedLines(server.cfg, done))
  }

  method EndStream(server: Server, ghost cs: seq<seq<byte>>) returns (threw: bool)
    requires server.Valid() && Served(server, cs)
    modifies server, server.decoder
    ensures (server.sent, threw) == Serve(server.cfg, StreamLines(server.cfg, Concat(cs)))
  {
    StreamEnd(server.cfg, cs);
    threw := server.End();
  }

  method PushNext(server: Server, chunk: array<byte>, ghost done: seq<seq<byte>>, ghost cs: seq<seq<byte>>)
    returns (threw: bool)
    requires server.Valid() && Served(server, done) && done + [chunk[..]] <= cs
    modifies server, server.decoder
    ensures server.Valid()
    ensures !threw ==> Served(server, done + [old(chunk[..])])
    ensures threw ==> (server.sent, true) == Serve(server.cfg, StreamLines(server.cfg, Concat(cs)))
  {
    ghost var k, now := |done|, done + [chunk[..]];
    assert cs[..k] == done && cs[..k + 1] == now;
    StreamStep(server.cfg, cs, k);
    threw := server.Push(chunk);
    if threw {
      PrefixThrows(server.cfg, cs, k + 1);
    }
  }

  /** One more chunk, seen from the response stream. */
  lemma {:induction false} StreamStep(cfg: Config, cs: seq<seq<byte>>, k: nat)
    requires k < |cs|
    ensures var done := Serve(cfg, ReceivedLines(cfg, cs[..k]));
      var more := Serve(cfg, DecodeAll(cfg.decode, Completed(Received(cs[..k]).1, cs[k])));
      && Received(cs[..k + 1]).1 == Waiting(Received(cs[..k]).1, cs[k])
      && (!done.1 ==> Serve(cfg, ReceivedLines(cfg, cs[..k + 1])) == (done.0 + more.0, more.1))
  {
    ReceivedOneMore(cfg.decode, cs, k);
    ServeConcat(cfg, ReceivedLines(cfg, cs[..k]), DecodeAll(cfg.decode, Completed(Received(cs[..k]).1, cs[k])));
  }

  /** The decoded lines completed by the chunks. */
  function ReceivedLines(cfg: Config, cs: seq<seq<byte>>): seq<string> {
    DecodeAll(cfg.decode, Received(cs).0)
  }

  lemma {:induction false} StreamEnd(cfg: Config, cs: seq<seq<byte>>)
    requires !Serve(cfg, ReceivedLines(cfg, cs)).1
    ensures var done, tail := Serve(cfg, ReceivedLines(cfg, cs)), Received(cs).1;
      var last := Serve(cfg, if tail == [] then [] else [cfg.decode(tail)]);
      Serve(cfg, StreamLines(cfg, Concat(cs))) == (done.0 + last.0, last.1)
  {
    ChunkingDoesNotMatter(cs);
    var tail := Received(cs).1;
    ServeConcat(cfg, ReceivedLines(cfg, cs), if tail == [] then [] else [cfg.decode(tail)]);
  }

  lemma {:induction false} LaterLines(cs: seq<seq<byte>>, k: nat)
    requires k <= |cs|
    ensures Received(cs[..k]).0 <= Received(cs).0
  {
    if k < |cs| {
      assert cs[..|cs| - 1][..k] == cs[..k];
      LaterLines(cs[..|cs| - 1], k);
    } else {
      assert cs[..k] == cs;
    }
  }

  /** An exception among the lines received so far already decides the whole stream. */
  lemma {:induction false} PrefixThrows(cfg: Config, cs: seq<seq<byte>>, k: nat)
    requires k <= |cs| && Serve(cfg, ReceivedLines(cfg, cs[..k])).1
    ensures Serve(cfg, StreamLines(cfg, Concat(cs))) == Serve(cfg, ReceivedLines(cfg, cs[..k]))
  {
    ChunkingDoesNotMatter(cs);
    LaterLines(cs, k);
    var a, b := Received(cs[..k]).0, Received(cs).0;
    assert a <= b ==> DecodeAll(cfg.decode, a) <= DecodeAll(cfg.decode, b);
    ServePrefix(cfg, ReceivedLines(cfg, cs[..k]), StreamLines(cfg, Concat(cs)));
  }

  // ---- A caller that carries on after an exception ---------------------------------------

  function FlattenLines(groups: seq<seq<string>>): seq<string> {
    if groups == [] then [] else groups[0] + FlattenLines(groups[1..])
  }

  /** Frames written when the lines arrive in groups, one per push, and exceptions are swallowed. */
  function ServeGroups(cfg: Config, groups: seq<seq<string>>): seq<string> {
    if groups == [] then [] else Serve(cfg, groups[0]).0 + ServeGroups(cfg, groups[1..])
  }

  /** Nothing that would be answered comes after a line that throws. */
  ghost predicate NoReplyAfterThrow(cfg: Config, lines: seq<string>) {
    forall i, j | 0 <= i < j < |lines| && React(cfg, lines[i]) == Throws :: !React(cfg, lines[j]).Reply?
  }

  lemma {:induction false} ThrowsSomewhere(cfg: Config, lines: seq<string>)
    ensures Serve(cfg, lines).1 <==> exists i :: 0 <= i < |lines| && React(cfg, lines[i]) == Throws
  {
    if lines != [] {
      ThrowsSomewhere(cfg, lines[1..]);
      if Serve(cfg, lines[1..]).1 {
        var i :| 0 <= i < |lines[1..]| && React(cfg, lines[1..][i]) == Throws;
        assert lines[i + 1] == lines[1..][i];
      }
      forall i | 0 <= i < |lines| && React(cfg, lines[i]) == Throws
        ensures Serve(cfg, lines).1
      {
        assert i > 0 ==> lines[1..][i - 1] == lines[i];
      }
    }
  }

  lemma {:induction false} NoReplyNoFrames(cfg: Config, lines: seq<string>)
    requires forall i | 0 <= i < |lines| :: !React(cfg, lines[i]).Reply?
    ensures Serve(cfg, lines).0 == []
  {
    if lines != [] {
      NoReplyNoFrames(cfg, lines[1..]);
    }
  }

  lemma {:induction false} NoReplyNoGroupFrames(cfg: Config, groups: seq<seq<string>>)
    requires forall i | 0 <= i < |FlattenLines(groups)| :: !React(cfg, FlattenLines(groups)[i]).Reply?
    ensures ServeGroups(cfg, groups) == []
  {
    if groups != [] {
      var first, rest := groups[0], FlattenLines(groups[1..]);
      assert FlattenLines(groups) == first + rest;
      forall i | 0 <= i < |first|
        ensures !React(cfg, first[i]).Reply?
      {
        assert (first + rest)[i] == first[i];
      }
      forall i | 0 <= i < |rest|
        ensures !React(cfg, rest[i]).Reply?
      {
        assert (first + rest)[|first| + i] == rest[i];
      }
      NoReplyNoFrames(cfg, first);
      NoReplyNoGroupFrames(cfg, groups[1..]);
    }
  }

  lemma {:induction false} NoReplyAfterSplit(cfg: Config, a: seq<string>, b: seq<string>)
    requires NoReplyAfterThrow(cfg, a + b)
    ensures NoReplyAfterThrow(cfg, b)
    ensures Serve(cfg, a).1 ==> forall j | 0 <= j < |b| :: !React(cfg, b[j]).Reply?
  {
    assert forall j | 0 <= j < |b| :: (a + b)[|a| + j] == b[j];
    ThrowsSomewhere(cfg, a);
    if Serve(cfg, a).1 {
      var i :| 0 <= i < |a| && React(cfg, a[i]) == Throws;
      assert (a + b)[i] == a[i];
    }
  }

  lemma {:induction false} GroupingHidden(cfg: Config, groups: seq<seq<string>>)
    requires NoReplyAfterThrow(cfg, FlattenLines(groups))
    ensures ServeGroups(cfg, groups) == Serve(cfg, FlattenLines(groups)).0
  {
    if groups != [] {
      var first, rest := groups[0], FlattenLines(groups[1..]);
      ServeConcat(cfg, first, rest);
      NoReplyAfterSplit(cfg, first, rest);
      if Serve(cfg, first).1 {
        NoReplyNoGroupFrames(cfg, groups[1..]);
        assert Serve(cfg, first).0 + [] == Serve(cfg, first).0;
      } else {
        GroupingHidden(cfg, groups[1..]);
      }
    }
  }

  /** The lines cut after the last throwing one before j, and the place of line j behind the cut. */
  lemma {:induction false} LastThrow(cfg: Config, lines: seq<string>, i: nat, j: nat)
    returns (a: seq<string>, b: seq<string>, at: nat)
    requires i < j < |lines| && React(cfg, lines[i]) == Throws
    ensures a + b == lines && a != [] && React(cfg, a[|a| - 1]) == Throws
    ensures at < |b| && b[at] == lines[j] && forall k | 0 <= k < at :: React(cfg, b[k]) != Throws
    decreases j - i
  {
    if k :| i < k < j && React(cfg, lines[k]) == Throws {
      a, b, at := LastThrow(cfg, lines, k, j);
    } else {
      a, b, at := lines[..i + 1], lines[i + 1..], j - i - 1;
    }
  }

  lemma {:induction false} ReplyIsWritten(cfg: Config, lines: seq<string>, j: nat)
    requires j < |lines| && React(cfg, lines[j]).Reply?
    requires forall k | 0 <= k < j :: React(cfg, lines[k]) != Throws
    ensures Serve(cfg, lines).0 != []
  {
    if j > 0 {
      ReplyIsWritten(cfg, lines[1..], j - 1);
    }
  }

  lemma {:induction false} TwoGroups(cfg: Config, a: seq<string>, b: seq<string>)
    ensures FlattenLines([a, b]) == a + b && ServeGroups(cfg, [a, b]) == Serve(cfg, a).0 + Serve(cfg, b).0
  {
    assert [a, b][1..] == [b] && [b][1..] == [];
    assert FlattenLines([b]) == b + [] == b;
    assert ServeGroups(cfg, [b]) == Serve(cfg, b).0 + [] == Serve(cfg, b).0;
  }

  /** An answer in a second push is written even when the first push ended in a throw. */
  lemma {:induction false} SecondPushAnswers(cfg: Config, a: seq<string>, b: seq<string>, j: nat)
    requires a != [] && React(cfg, a[|a| - 1]) == Throws
    requires j < |b| && React(cfg, b[j]).Reply? && forall k | 0 <= k < j :: React(cfg, b[k]) != Throws
    ensures ServeGroups(cfg, [a, b]) != Serve(cfg, a + b).0
  {
    TwoGroups(cfg, a, b);
    ThrowsSomewhere(cfg, a);
    ServePrefix(cfg, a, a + b);
    ReplyIsWritten(cfg, b, j);
    assert |ServeGroups(cfg, [a, b])| == |Serve(cfg, a).0| + |Serve(cfg, b).0|;
  }

  /** Cutting after the last throwing line brings an answer back that one push would lose. */
  lemma GroupingShows(cfg: Config, lines: seq<string>, i: nat, j: nat) returns (groups: seq<seq<string>>)
    requires i < j < |lines| && React(cfg, lines[i]) == Throws && React(cfg, lines[j]).Reply?
    ensures FlattenLines(groups) == lines && ServeGroups(cfg, groups) != Serve(cfg, lines).0
  {
    var a, b, at := LastThrow(cfg, lines, i, j);
    groups := [a, b];
    SecondPushAnswers(cfg, a, b, at);
    TwoGroups(cfg, a, b);
  }

  /** How lines are grouped into pushes never shows, exactly when no line after a throwing one is answered. */
  lemma {:induction false} GroupingIsInvisibleExactly(cfg: Config, lines: seq<string>)
    ensures (forall groups: seq<seq<string>> | FlattenLines(groups) == lines ::
              ServeGroups(cfg, groups) == Serve(cfg, lines).0)
      <==> NoReplyAfterThrow(cfg, lines)
  {
    if NoReplyAfterThrow(cfg, lines) {
      forall groups: seq<seq<string>> | FlattenLines(groups) == lines
        ensures ServeGroups(cfg, groups) == Serve(cfg, lines).0
      {
        GroupingHidden(cfg, groups);
      }
    } else {
      var i, j :| 0 <= i < j < |lines| && React(cfg, lines[i]) == Throws && React(cfg, lines[j]).Reply?;
      var groups := GroupingShows(cfg, lines, i, j);
    }
  }
}
