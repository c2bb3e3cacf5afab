/** JSON-RPC 2.0 frames over one JSON object per line.  JSON text itself is not
    modelled: a line is the value `json.loads` finds in it, or the way it fails. */
module Protocol {
  import opened Outcomes

  datatype Json = Null | Bool(b: bool) | Num(n: int) | Str(s: string) | Arr(items: seq<Json>)
      | Obj(members: map<string, Json>)

  type Members = map<string, Json>

  datatype RpcId = IntId(n: int) | StrId(s: string)

  datatype Frame =
    | Request(id: RpcId, name: string, params: Members)
    | Notification(name: string, params: Members)
    | Response(replyTo: Option<RpcId>, result: Option<Members>, error: Option<Members>)

  const PARSE_ERROR := -32700
  const INVALID_REQUEST := -32600
  const METHOD_NOT_FOUND := -32601
  const INVALID_PARAMS := -32602
  const INTERNAL_ERROR := -32603

  const VERSION := Str("2.0")

  /** A response carries exactly one of result and error. */
  predicate Valid(f: Frame) { f.Response? ==> (f.result.Some? <==> f.error.None?) }

  // ---------------------------------------------------------------------------
  // Encoding: members that are `None` are left out

  function IdJson(id: RpcId): Json {
    match id
    case IntId(n) => Num(n)
    case StrId(s) => Str(s)
  }

  function Member(name: string, v: Option<Json>): Members {
    if v.Some? then map[name := v.value] else map[]
  }

  function ObjOf(m: Option<Members>): Option<Json> {
    if m.Some? then Some(Obj(m.value)) else None
  }

  function Encode(f: Frame): Json {
    Obj(map["jsonrpc" := VERSION] +
        match f
        case Request(id, m, params) => map["id" := IdJson(id), "method" := Str(m), "params" := Obj(params)]
        case Notification(m, params) => map["method" := Str(m), "params" := Obj(params)]
        case Response(id, result, error) =>
          Member("id", if id.Some? then Some(IdJson(id.value)) else None) +
          Member("result", ObjOf(result)) + Member("error", ObjOf(error)))
  }

  // ---------------------------------------------------------------------------
  // Decoding

  function Get(raw: Members, name: string): Option<Json> {
    if name in raw then Some(raw[name]) else None
  }

  function ParseId(v: Json): Option<RpcId> {
    match v
    case Num(n) => Some(IntId(n))
    case Str(s) => Some(StrId(s))
    case _ => None
  }

  /** No member beyond the declared ones, and the version, if given, is 2.0. */
  predicate Allowed(raw: Members, fields: set<string>) {
    raw.Keys <= fields + {"jsonrpc"} && Get(raw, "jsonrpc") in {None, Some(VERSION)}
  }

  /** `params` may be left out, but not be anything other than an object. */
  function ParseParams(raw: Members): Option<Members> {
    match Get(raw, "params")
    case None => Some(map[])
    case Some(Obj(m)) => Some(m)
    case _ => None
  }

  /** An optional object member; `null` is absence. */
  function ParseOptional(raw: Members, name: string): Result<Option<Members>, int> {
    match Get(raw, name)
    case None => Ok(None)
    case Some(Null) => Ok(None)
    case Some(Obj(m)) => Ok(Some(m))
    case _ => Err(INVALID_REQUEST)
  }

  function DecodeRequest(raw: Members): Result<Frame, int> {
    match (Get(raw, "id"), Get(raw, "method"), ParseParams(raw))
    case (Some(id), Some(Str(m)), Some(params)) =>
      if Allowed(raw, {"id", "method", "params"}) && ParseId(id).Some? then Ok(Request(ParseId(id).value, m, params))
      else Err(INVALID_REQUEST)
    case _ => Err(INVALID_REQUEST)
  }

  function DecodeNotification(raw: Members): Result<Frame, int> {
    match (Get(raw, "method"), ParseParams(raw))
    case (Some(Str(m)), Some(params)) =>
      if Allowed(raw, {"method", "params"}) then Ok(Notification(m, params)) else Err(INVALID_REQUEST)
    case _ => Err(INVALID_REQUEST)
  }

  function DecodeResponse(raw: Members): Result<Frame, int> {
    match (Get(raw, "id"), ParseOptional(raw, "result"), ParseOptional(raw, "error"))
    case (Some(id), Ok(result), Ok(error)) =>
      if !Allowed(raw, {"id", "result", "error"}) || (id != Null && ParseId(id).None?) ||
          (result.None? <==> error.None?) then
        Err(INVALID_REQUEST)
      else Ok(Response(ParseId(id), result, error))
    case _ => Err(INVALID_REQUEST)
  }

  function Decode(v: Json): Result<Frame, int> {
    if !v.Obj? then Err(INVALID_REQUEST)
    else if "method" in v.members then
      if "id" in v.members then DecodeRequest(v.members) else DecodeNotification(v.members)
    else DecodeResponse(v.members)
  }

  lemma RequestRoundTrip(id: RpcId, name: string, params: Members)
    ensures Decode(Encode(Request(id, name, params))) == Ok(Request(id, name, params))
  {
    assert Encode(Request(id, name, params)).members.Keys == {"jsonrpc", "id", "method", "params"};
  }

  lemma NotificationRoundTrip(name: string, params: Members)
    ensures Decode(Encode(Notification(name, params))) == Ok(Notification(name, params))
  {
    assert Encode(Notification(name, params)).members.Keys == {"jsonrpc", "method", "params"};
  }

  lemma ResponseRoundTrip(id: Option<RpcId>, result: Option<Members>, error: Option<Members>)
    requires result.Some? <==> error.None?
    ensures Decode(Encode(Response(id, result, error))) ==
            if id.Some? then Ok(Response(id, result, error)) else Err(INVALID_REQUEST)
  {
    var raw := Encode(Response(id, result, error)).members;
    assert raw.Keys <= {"jsonrpc", "id", "result", "error"} && "method" !in raw;
    assert "id" in raw <==> id.Some?;
  }

  /** Decoding what was encoded gives the frame back, except for a response to
      nobody: its `id: null` is left out of the line, and the reader refuses it. */
  lemma RoundTrip(f: Frame)
    requires Valid(f)
    ensures Decode(Encode(f)) == Ok(f) <==> !(f.Response? && f.replyTo.None?)
    ensures f.Response? && f.replyTo.None? ==> Decode(Encode(f)) == Err(INVALID_REQUEST)
  {
    match f
    case Request(id, m, params) => RequestRoundTrip(id, m, params);
    case Notification(m, params) => NotificationRoundTrip(m, params);
    case Response(id, result, error) => ResponseRoundTrip(id, result, error);
  }

  /** No member beyond those named, and the version, if given, is 2.0. */
  predicate Wellformed(raw: Members, fields: set<string>) {
    raw.Keys <= fields + {"jsonrpc"} && ("jsonrpc" in raw ==> raw["jsonrpc"] == Str("2.0"))
  }

  /** The member says `m`: left out or `null`, nothing. */
  predicate SaysObject(raw: Members, name: string, m: Option<Members>) {
    match m
    case None => name in raw ==> raw[name] == Null
    case Some(o) => name in raw && raw[name] == Obj(o)
  }

  /** The frame an object stands for. */
  predicate StandsFor(raw: Members, f: Frame) {
    match f
    case Request(id, name, params) =>
      && Wellformed(raw, {"id", "method", "params"})
      && "id" in raw && raw["id"] == IdJson(id) && "method" in raw && raw["method"] == Str(name)
      && (if "params" in raw then raw["params"] == Obj(params) else params == map[])
    case Notification(name, params) =>
      && Wellformed(raw, {"method", "params"})
      && "method" in raw && raw["method"] == Str(name)
      && (if "params" in raw then raw["params"] == Obj(params) else params == map[])
    case Response(replyTo, result, error) =>
      && Wellformed(raw, {"id", "result", "error"})
      && "id" in raw && raw["id"] == (if replyTo.Some? then IdJson(replyTo.value) else Null)
      && SaysObject(raw, "result", result) && SaysObject(raw, "error", error)
      && (result.None? <==> error.Some?)
  }

  lemma ParsesExactly(v: Json, id: RpcId)
    ensures ParseId(v) == Some(id) <==> v == IdJson(id)
  {
  }

  /** What decodes, and into which frame: exactly the objects that stand for one.  All
      else is refused with one code. */
  lemma DecodedExactly(v: Json, f: Frame)
    ensures Decode(v) == Ok(f) <==> v.Obj? && StandsFor(v.members, f)
    ensures Decode(v).Err? ==> Decode(v) == Err(-32600)
  {
    if v.Obj? {
      match f
      case Request(id, _, _) =>
        if "id" in v.members { ParsesExactly(v.members["id"], id); }
      case Notification(_, _) =>
      case Response(replyTo, _, _) =>
        if "id" in v.members && replyTo.Some? { ParsesExactly(v.members["id"], replyTo.value); }
    }
  }

  /** What is written is marked with the version. */
  lemma EncodedVersion(f: Frame)
    ensures Encode(f).Obj? && "jsonrpc" in Encode(f).members && Encode(f).members["jsonrpc"] == Str("2.0")
  {
  }

  /** Whatever decodes is a valid frame. */
  lemma DecodedIsValid(v: Json)
    ensures Decode(v).Ok? ==> Valid(Decode(v).value)
  {
  }

  function ErrorResponse(id: Option<RpcId>, code: int, message: string): Frame {
    Response(id, None, Some(map["code" := Num(code), "message" := Str(message)]))
  }

  function ResultResponse(id: RpcId, result: Members): Frame {
    Response(Some(id), Some(result), None)
  }

  // ---------------------------------------------------------------------------
  // Lines

  /** `Unreadable` is a line that makes `json.loads` raise something other than its
      own decode error, such as bytes that are not UTF-8. */
  datatype Line = Unreadable | BadJson | Text(value: Json)

  function DecodeLine(l: Line): Result<Frame, int>
    requires !l.Unreadable?
  {
    match l
    case BadJson => Err(PARSE_ERROR)
    case Text(v) => Decode(v)
  }

  /** A line that is JSON is what its value decodes to, and one that is not is refused. */
  lemma LineDecoded(v: Json)
    ensures DecodeLine(Text(v)) == Decode(v) && DecodeLine(BadJson) == Err(-32700)
  {
  }

  /** Whom a line owes a reply: a request its sender, a line that is no frame nobody
      in particular, and anything else no one. */
  function Owed(l: Line): seq<Option<RpcId>> {
    if l.Unreadable? then [None]
    else
      match DecodeLine(l)
      case Err(_) => [None]
      case Ok(Request(id, _, _)) => [Some(id)]
      case Ok(_) => []
  }

  /** The replies owed to all lines, in line order. */
  function OwedAll(lines: seq<Line>): seq<Option<RpcId>> {
    if lines == [] then [] else Owed(lines[0]) + OwedAll(lines[1..])
  }

  /** A line that owes its one response, as opposed to a notification or a response. */
  predicate OwesOne(l: Line) {
    l.Unreadable? || DecodeLine(l).Err? || DecodeLine(l).value.Request?
  }

  /** Whom the frames written reply to. */
  function Addressees(frames: seq<Frame>): seq<Option<RpcId>> {
    if frames == [] then []
    else (if frames[0].Response? then [frames[0].replyTo] else []) + Addressees(frames[1..])
  }

  lemma {:induction false} AddresseesAppend(frames: seq<Frame>, more: seq<Frame>)
    ensures Addressees(frames + more) == Addressees(frames) + Addressees(more)
  {
    if frames == [] {
      assert frames + more == more;
    } else {
      AddresseesAppend(frames[1..], more);
      assert (frames + more)[1..] == frames[1..] + more;
    }
  }

  lemma {:induction false} OwedAppend(lines: seq<Line>, more: seq<Line>)
    ensures OwedAll(lines + more) == OwedAll(lines) + OwedAll(more)
  {
    if lines == [] {
      assert lines + more == more;
    } else {
      OwedAppend(lines[1..], more);
      assert (lines + more)[1..] == lines[1..] + more;
    }
  }

  /** Stopping at a line that is owed something leaves it owed. */
  lemma OwedBeyond(lines: seq<Line>, k: nat)
    requires k < |lines| && OwesOne(lines[k])
    ensures |OwedAll(lines[..k])| < |OwedAll(lines)|
  {
    OwedAppend(lines[..k], lines[k..]);
    assert lines[..k] + lines[k..] == lines && lines[k..][0] == lines[k];
  }
}
