/** The request path of `lambda_user_form_handler.py`: CORS responses, body parsing,
    payload validation, item construction and the status decision of `lambda_handler`.

    Everything the handler takes from outside the event is one `Runtime` value: the two
    environment variables, the values `uuid.uuid4()` and the clock produce, and the
    library calls (base64 and UTF-8 decoding, `json.loads`, `parse_qs`, Python's `repr`
    for floats and containers, and DynamoDB's `put_item`), each as a function. */
module FormHandler {
  import opened Results
  import opened PyValues
  import opened EmailCheck

  /** The stored DynamoDB item: attribute name to text. */
  type Item = map<string, string>

  /** The parts of the API Gateway event the handler reads. */
  datatype Event = Event(
    headers: Option<map<string, string>>,  // event["headers"]; None when absent or null
    body: Option<string>,                   // event["body"]; None when absent or null
    isBase64Encoded: bool,                  // truthiness of event["isBase64Encoded"]
    httpMethod: Option<string>,             // event["httpMethod"] (REST API, payload v1)
    contextMethod: Option<string>)          // event["requestContext"]["http"]["method"] (HTTP API, payload v2)

  datatype Runtime = Runtime(
    allowedOrigins: Option<string>,          // os.getenv("ALLOWED_ORIGINS")
    tableName: Option<string>,               // os.getenv("TABLE_NAME")
    userId: string,                          // str(uuid.uuid4())
    nowIso: string,                          // datetime.now(timezone.utc).isoformat()
    b64Decode: string -> Result<string>,     // base64.b64decode(raw).decode("utf-8")
    jsonLoads: string -> Option<Value>,      // json.loads; None on JSONDecodeError
    parseQs: string -> map<string, seq<string>>,
    repr: Value -> string,                   // str() of floats, lists and dicts
    putItem: (string, Item) -> Option<string>) // _put_item; Some(str(error)) on ClientError

  /** The dict `_response` returns, with the body before `json.dumps`. */
  datatype Response = Response(statusCode: int, headers: map<string, string>, body: map<string, string>)

  datatype SourceType = Form | Json {
    function Name(): string {
      match this
      case Form => "form"
      case Json => "json"
    }
  }

  /** What `_parse_body` returns: the payload dict and where it came from. */
  datatype Parsed = Parsed(payload: map<string, Value>, source: SourceType)

  /** What one invocation does: the response, and the item handed to `put_item` if any. */
  datatype Handled = Handled(response: Response, putAttempt: Option<Item>)

  const FormContentType := "application/x-www-form-urlencoded"
  const DefaultContentType := "application/json"
  const RequiredFields: seq<string> := ["name", "email"]

  const MsgInvalidJson := "Invalid JSON in request body"
  const MsgNotObject := "Request JSON must be an object"
  const MsgInvalidEmail := "Invalid email format"
  const MsgMissingField := "Missing required field: "
  const MsgNoTable := "Server misconfiguration: TABLE_NAME is not set"

  /** `_get_cors_headers`: the same four headers on every response. */
  function CorsHeaders(allowedOrigins: Option<string>): map<string, string> {
    map[
      "Access-Control-Allow-Origin" := allowedOrigins.GetOr("*"),
      "Access-Control-Allow-Methods" := "OPTIONS,POST",
      "Access-Control-Allow-Headers" := "Content-Type,Authorization",
      "Access-Control-Max-Age" := "86400"
    ]
  }

  /** `_response`. */
  function Respond(rt: Runtime, status: int, body: map<string, string>): Response {
    Response(status, CorsHeaders(rt.allowedOrigins), body)
  }

  predicate OccursAt(hay: string, needle: string, i: int) {
    0 <= i && i + |needle| <= |hay| && hay[i..i + |needle|] == needle
  }

  /** Python's `needle in hay` on strings. */
  predicate Contains(hay: string, needle: string) {
    exists i :: 0 <= i <= |hay| - |needle| && OccursAt(hay, needle, i)
  }

  /** A header value or `None`; an empty value is falsy and falls through `or`. */
  function HeaderValue(headers: map<string, string>, name: string): Option<string> {
    if name in headers && headers[name] != "" then Some(headers[name]) else None
  }

  /** The content type `_parse_body` dispatches on: the lower-case header, then the
      capitalised one, then JSON. */
  function ContentType(headers: Option<map<string, string>>): string {
    var h := headers.GetOr(map[]);
    match HeaderValue(h, "content-type")
    case Some(ct) => ct
    case None =>
      match HeaderValue(h, "Content-Type")
      case Some(ct) => ct
      case None => DefaultContentType
  }

  /** The body text: `event.get("body") or ""`, base64-decoded when the event says so. */
  function RawBody(e: Event, rt: Runtime): Result<string> {
    var raw := e.body.GetOr("");
    if e.isBase64Encoded then rt.b64Decode(raw) else Ok(raw)
  }

  /** The form branch: each field keeps the first of its values. */
  function FormPayload(fields: map<string, seq<string>>): map<string, Value> {
    map k | k in fields :: if |fields[k]| > 0 then Str(fields[k][0]) else List([])
  }

  /** `_parse_body`; `Err` is the `ValueError` it raises. */
  function ParseBody(e: Event, rt: Runtime): Result<Parsed> {
    var contentType := ContentType(e.headers);
    match RawBody(e, rt)
    case Err(msg) => Err(msg)
    case Ok(raw) =>
      if Contains(contentType, FormContentType) then
        Ok(Parsed(FormPayload(rt.parseQs(raw)), Form))
      else
        var decoded := if raw != "" then rt.jsonLoads(raw) else Some(Dict(map[]));
        match decoded
        case None => Err(MsgInvalidJson)
        case Some(v) =>
          if v.Dict? then Ok(Parsed(v.entries, Json)) else Err(MsgNotObject)
  }

  /** The loop over the required fields: the index of the first field whose value is
      falsy, or `|fields|` when all are truthy. */
  function FirstFalsy(payload: map<string, Value>, fields: seq<string>): (k: nat)
    ensures k <= |fields|
    ensures forall j :: 0 <= j < k ==> Truthy(Get(payload, fields[j]))
    ensures k < |fields| ==> !Truthy(Get(payload, fields[k]))
  {
    if fields == [] then 0
    else if !Truthy(Get(payload, fields[0])) then 0
    else 1 + FirstFalsy(payload, fields[1..])
  }

  /** `_validate_payload`: `(is_valid, error_msg)`. */
  function ValidatePayload(payload: map<string, Value>, repr: Value -> string): (bool, string) {
    var k := FirstFalsy(payload, RequiredFields);
    if k < |RequiredFields| then (false, MsgMissingField + RequiredFields[k])
    else if !IsValidEmail(PyStr(Get(payload, "email"), repr)) then (false, MsgInvalidEmail)
    else (true, "")
  }

  /** `str(payload.get(key)) if payload.get(key) is not None else None`. */
  function OptionalText(payload: map<string, Value>, key: string, repr: Value -> string): Option<string> {
    if Get(payload, key) == Null then None else Some(PyStr(Get(payload, key), repr))
  }

  /** The dict comprehension that removes `None` values. */
  function DropNone(m: map<string, Option<string>>): (r: Item)
    ensures forall k :: k in r <==> k in m && m[k].Some?
    ensures forall k :: k in r ==> Some(r[k]) == m[k]
  {
    map k | k in m && m[k].Some? :: m[k].value
  }

  /** The item `lambda_handler` stores: the dict it writes, then the same dict with the
      `None` values removed. */
  function BuildItem(p: Parsed, userId: string, nowIso: string, repr: Value -> string): Item {
    DropNone(ItemDraft(p, userId, nowIso, repr))
  }

  /** The dict literal for the item, before `None` values are removed. */
  function ItemDraft(p: Parsed, userId: string, nowIso: string, repr: Value -> string): map<string, Option<string>> {
    map[
      "userId" := Some(userId),
      "name" := Some(PyStr(Get(p.payload, "name"), repr)),
      "email" := Some(PyStr(Get(p.payload, "email"), repr)),
      "message" := OptionalText(p.payload, "message", repr),
      "phone" := OptionalText(p.payload, "phone", repr),
      "sourceType" := Some(p.source.Name()),
      "createdAt" := Some(nowIso),
      "updatedAt" := Some(nowIso)
    ]
  }

  /** The method the preflight check compares with "OPTIONS":
      `event.get("httpMethod") or event["requestContext"]["http"].get("method")`. */
  function Method(e: Event): Option<string> {
    if e.httpMethod.Some? && e.httpMethod.value != "" then e.httpMethod else e.contextMethod
  }

  /** `if not table_name`: unset or empty. */
  predicate TableConfigured(rt: Runtime) {
    rt.tableName.Some? && rt.tableName.value != ""
  }

  /** `lambda_handler`, without the catch-all `Exception` branch. */
  function Handle(e: Event, rt: Runtime): Handled {
    if Method(e) == Some("OPTIONS") then
      Handled(Respond(rt, 204, map[]), None)
    else if !TableConfigured(rt) then
      Handled(Respond(rt, 500, map["message" := MsgNoTable]), None)
    else
      match ParseBody(e, rt)
      case Err(msg) => Handled(Respond(rt, 400, map["message" := msg]), None)
      case Ok(parsed) =>
        var (isValid, errorMsg) := ValidatePayload(parsed.payload, rt.repr);
        if !isValid then
          Handled(Respond(rt, 400, map["message" := errorMsg]), None)
        else
          var item := BuildItem(parsed, rt.userId, rt.nowIso, rt.repr);
          match rt.putItem(rt.tableName.value, item)
          case Some(detail) =>
            Handled(Respond(rt, 500, map["message" := "DynamoDB error", "detail" := detail]), Some(item))
          case None =>
            Handled(Respond(rt, 201, map["message" := "Submitted", "userId" := rt.userId]), Some(item))
  }
}
