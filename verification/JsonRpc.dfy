/**
 * The JSON-RPC 2.0 envelope of ACP (`parseAcpMessage` and `serializeAcpMessage`,
 * src/acp/jsonrpc.ts), over JSON trees: the text syntax of JSON is not modelled.
 */
module JsonRpc {
  import opened Wrappers

  datatype Json =
    | Null
    | Bool(b: bool)
    | Numeric(n: real)
    | Str(s: string)
    | Arr(items: seq<Json>)
    | Obj(fields: map<string, Json>)

  datatype Id = StrId(s: string) | NumId(n: real)

  datatype Message =
    | Request(id: Id, method_: string, params: Option<Json>)
    | Notification(method_: string, params: Option<Json>)
    | Success(responseId: Option<Id>, result: Json)
    | Failure(responseId: Option<Id>, code: real, message: string, data: Option<Json>)

  datatype ProtocolError =
    | NotJson
    | NotAnObject
    | BadVersion
    | BadMethod
    | BadRequestId
    | ResultAndError
    | BadResponseId
    | BadErrorObject
    | Unrecognised

  function Field(f: map<string, Json>, key: string): Option<Json> {
    if key in f then Some(f[key]) else None
  }

  function IdOf(j: Json): Option<Id> {
    match j
    case Str(s) => Some(StrId(s))
    case Numeric(n) => Some(NumId(n))
    case _ => None
  }

  /** Classification of a parsed line by the keys it carries, in the source's order of checks. */
  function Classify(j: Json): Result<Message, ProtocolError> {
    if !j.Obj? then Err(NotAnObject)
    else
      var f := j.fields;
      if Field(f, "jsonrpc") != Some(Str("2.0")) then Err(BadVersion)
      else if "method" in f then ClassifyCall(f)
      else if "result" in f || "error" in f then ClassifyResponse(f)
      else Err(Unrecognised)
  }

  function ClassifyCall(f: map<string, Json>): Result<Message, ProtocolError>
    requires "method" in f
  {
    var m := f["method"];
    if !m.Str? || |m.s| == 0 then Err(BadMethod)
    else if "id" in f then
      match IdOf(f["id"])
      case None => Err(BadRequestId)
      case Some(id) => Ok(Request(id, m.s, Field(f, "params")))
    else Ok(Notification(m.s, Field(f, "params")))
  }

  function ClassifyResponse(f: map<string, Json>): Result<Message, ProtocolError>
    requires "result" in f || "error" in f
  {
    if "result" in f && "error" in f then Err(ResultAndError)
    else if "id" !in f || (f["id"] != Null && IdOf(f["id"]) == None) then Err(BadResponseId)
    else if "error" in f then
      var err := f["error"];
      if !err.Obj? then Err(BadErrorObject)
      else
        match (Field(err.fields, "code"), Field(err.fields, "message"))
        case (Some(Numeric(code)), Some(Str(text))) =>
          Ok(Failure(IdOf(f["id"]), code, text, Field(err.fields, "data")))
        case _ => Err(BadErrorObject)
    else Ok(Success(IdOf(f["id"]), f["result"]))
  }

  // ---- Serialisation -----------------------------------------------------------------

  function IdJson(id: Id): Json {
    match id case StrId(s) => Str(s) case NumId(n) => Numeric(n)
  }

  function ResponseIdJson(id: Option<Id>): Json {
    match id case None => Null case Some(i) => IdJson(i)
  }

  /** An optional member: absent when the value is undefined. */
  function Optional(key: string, value: Option<Json>): map<string, Json> {
    match value case None => map[] case Some(v) => map[key := v]
  }

  function ToFields(m: Message): map<string, Json> {
    map["jsonrpc" := Str("2.0")] +
    match m
    case Request(id, name, params) => map["id" := IdJson(id), "method" := Str(name)] + Optional("params", params)
    case Notification(name, params) => map["method" := Str(name)] + Optional("params", params)
    case Success(id, result) => map["id" := ResponseIdJson(id), "result" := result]
    case Failure(id, code, text, data) =>
      map["id" := ResponseIdJson(id),
          "error" := Obj(map["code" := Numeric(code), "message" := Str(text)] + Optional("data", data))]
  }

  function ToJson(m: Message): Json {
    Obj(ToFields(m))
  }

  // ---- What is accepted, and as what ----------------------------------------------------

  /** Which error a value that is not a message is rejected with. */
  lemma RejectedExactly(j: Json)
    ensures Classify(j) == Err(NotAnObject) <==> !j.Obj?
    ensures j.Obj? ==>
      var f := j.fields;
      var versioned := "jsonrpc" in f && f["jsonrpc"] == Str("2.0");
      var call, answers := "method" in f, "result" in f || "error" in f;
      && (Classify(j) == Err(BadVersion) <==> !versioned)
      && (Classify(j) == Err(Unrecognised) <==> versioned && !call && !answers)
      && (Classify(j) == Err(BadMethod) <==> versioned && call && (!f["method"].Str? || f["method"].s == ""))
      && (Classify(j) == Err(BadRequestId) <==>
        versioned && call && f["method"].Str? && f["method"].s != "" && "id" in f && !f["id"].Str? && !f["id"].Numeric?)
      && (Classify(j) == Err(ResultAndError) <==> versioned && !call && "result" in f && "error" in f)
      && (Classify(j) == Err(BadResponseId) <==>
        versioned && !call && answers && !("result" in f && "error" in f)
        && ("id" !in f || !(f["id"].Str? || f["id"].Numeric? || f["id"].Null?)))
  {
  }

  /** The members a message is serialised with. */
  lemma MembersOfMessage(m: Message)
    ensures var f := ToFields(m);
      match m
      case Request(id, name, params) =>
        f.Keys == {"jsonrpc", "id", "method"} + if params.Some? then {"params"} else {}
      case Notification(name, params) =>
        f.Keys == {"jsonrpc", "method"} + if params.Some? then {"params"} else {}
      case Success(id, result) => f.Keys == {"jsonrpc", "id", "result"}
      case Failure(id, code, message, data) =>
        && f.Keys == {"jsonrpc", "id", "error"}
        && f["error"].Obj?
        && f["error"].fields.Keys == {"code", "message"} + if data.Some? then {"data"} else {}
  {
  }

  predicate WellFormed(m: Message) {
    (m.Request? || m.Notification?) ==> m.method_ != ""
  }

  function Restrict(f: map<string, Json>, keys: set<string>): map<string, Json> {
    map k | k in f && k in keys :: f[k]
  }

  /**
   * `f` carries the envelope of `m`: on the members that JSON-RPC defines for that kind of
   * message it is the serialised message itself, and it lacks the members that would make
   * it another kind. Members of other names are free.
   */
  ghost predicate Carries(f: map<string, Json>, m: Message) {
    match m
    case Request(_, _, _) => Restrict(f, {"jsonrpc", "id", "method", "params"}) == ToFields(m)
    case Notification(_, _) => Restrict(f, {"jsonrpc", "id", "method", "params"}) == ToFields(m)
    case Success(_, _) => Restrict(f, {"jsonrpc", "id", "method", "result", "error"}) == ToFields(m)
    case Failure(id, code, text, data) =>
      && Restrict(f, {"jsonrpc", "id", "method", "result"})
         == map["jsonrpc" := Str("2.0"), "id" := ResponseIdJson(id)]
      && "error" in f && f["error"].Obj?
      && Restrict(f["error"].fields, {"code", "message", "data"})
         == map["code" := Numeric(code), "message" := Str(text)] + Optional("data", data)
  }

  lemma RestrictedField(f: map<string, Json>, keys: set<string>, g: map<string, Json>, key: string)
    requires Restrict(f, keys) == g && key in keys
    ensures key in f <==> key in g
    ensures Field(f, key) == Field(g, key)
  {
    assert key in f <==> key in Restrict(f, keys);
  }

  lemma CallIsCarried(f: map<string, Json>)
    requires Field(f, "jsonrpc") == Some(Str("2.0")) && "method" in f
    ensures ClassifyCall(f).Ok? ==> WellFormed(ClassifyCall(f).value) && Carries(f, ClassifyCall(f).value)
  {
    if ClassifyCall(f).Ok? {
      var m := ClassifyCall(f).value;
      assert Restrict(f, {"jsonrpc", "id", "method", "params"}) == ToFields(m);
    }
  }

  lemma ResponseIsCarried(f: map<string, Json>)
    requires Field(f, "jsonrpc") == Some(Str("2.0")) && "method" !in f && ("result" in f || "error" in f)
    ensures ClassifyResponse(f).Ok? ==> WellFormed(ClassifyResponse(f).value) && Carries(f, ClassifyResponse(f).value)
  {
    if ClassifyResponse(f).Ok? {
      var m := ClassifyResponse(f).value;
      if m.Success? {
        assert Restrict(f, {"jsonrpc", "id", "method", "result", "error"}) == ToFields(m);
      } else {
        assert Restrict(f, {"jsonrpc", "id", "method", "result"})
            == map["jsonrpc" := Str("2.0"), "id" := ResponseIdJson(m.responseId)];
        assert Restrict(f["error"].fields, {"code", "message", "data"})
            == map["code" := Numeric(m.code), "message" := Str(m.message)] + Optional("data", m.data);
      }
    }
  }

  lemma CarriedCall(f: map<string, Json>, m: Message)
    requires (m.Request? || m.Notification?) && WellFormed(m) && Carries(f, m)
    ensures Classify(Obj(f)) == Ok(m)
  {
    var keys := {"jsonrpc", "id", "method", "params"};
    RestrictedField(f, keys, ToFields(m), "jsonrpc");
    RestrictedField(f, keys, ToFields(m), "id");
    RestrictedField(f, keys, ToFields(m), "method");
    RestrictedField(f, keys, ToFields(m), "params");
  }

  lemma CarriedSuccess(f: map<string, Json>, m: Message)
    requires m.Success? && Carries(f, m)
    ensures Classify(Obj(f)) == Ok(m)
  {
    var keys := {"jsonrpc", "id", "method", "result", "error"};
    RestrictedField(f, keys, ToFields(m), "jsonrpc");
    RestrictedField(f, keys, ToFields(m), "id");
    RestrictedField(f, keys, ToFields(m), "method");
    RestrictedField(f, keys, ToFields(m), "result");
    RestrictedField(f, keys, ToFields(m), "error");
  }

  lemma CarriedFailure(f: map<string, Json>, m: Message)
    requires m.Failure? && Carries(f, m)
    ensures Classify(Obj(f)) == Ok(m)
  {
    var keys, errorKeys := {"jsonrpc", "id", "method", "result"}, {"code", "message", "data"};
    var outer := map["jsonrpc" := Str("2.0"), "id" := ResponseIdJson(m.responseId)];
    var inner := map["code" := Numeric(m.code), "message" := Str(m.message)] + Optional("data", m.data);
    RestrictedField(f, keys, outer, "jsonrpc");
    RestrictedField(f, keys, outer, "id");
    RestrictedField(f, keys, outer, "method");
    RestrictedField(f, keys, outer, "result");
    RestrictedField(f["error"].fields, errorKeys, inner, "code");
    RestrictedField(f["error"].fields, errorKeys, inner, "message");
    RestrictedField(f["error"].fields, errorKeys, inner, "data");
  }

  lemma CarriedIsClassified(f: map<string, Json>, m: Message)
    requires WellFormed(m) && Carries(f, m)
    ensures Classify(Obj(f)) == Ok(m)
  {
    match m
    case Request(_, _, _) => CarriedCall(f, m);
    case Notification(_, _) => CarriedCall(f, m);
    case Success(_, _) => CarriedSuccess(f, m);
    case Failure(_, _, _, _) => CarriedFailure(f, m);
  }

  /** A line is accepted as `m` exactly when `m` is well formed and the line carries its envelope. */
  lemma ClassifyExactly(j: Json, m: Message)
    ensures Classify(j) == Ok(m) <==> j.Obj? && WellFormed(m) && Carries(j.fields, m)
  {
    if j.Obj? {
      var f := j.fields;
      if WellFormed(m) && Carries(f, m) {
        CarriedIsClassified(f, m);
      }
      if Classify(j) == Ok(m) {
        if "method" in f {
          CallIsCarried(f);
        } else {
          ResponseIsCarried(f);
        }
      }
    }
  }

  lemma {:induction false} CallRoundTrip(m: Message)
    requires WellFormed(m) && (m.Request? || m.Notification?)
    ensures Classify(ToJson(m)) == Ok(m)
  {
  }

  lemma {:induction false} ResponseRoundTrip(m: Message)
    requires m.Success? || m.Failure?
    ensures Classify(ToJson(m)) == Ok(m)
  {
  }

  /** Parsing a serialised well-formed message returns it. */
  lemma {:induction false} RoundTrip(m: Message)
    requires WellFormed(m)
    ensures Classify(ToJson(m)) == Ok(m)
  {
    if m.Request? || m.Notification? {
      CallRoundTrip(m);
    } else {
      ResponseRoundTrip(m);
    }
  }
}
