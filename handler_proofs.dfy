/** What `lambda_user_form_handler.py` promises, proved about the model in `FormHandler`. */
module FormHandlerProofs {
  import opened Results
  import opened PyValues
  import opened EmailCheck
  import opened FormHandler

  // ---------------------------------------------------------------------------
  // _validate_payload

  /** The required fields are checked in order, name first; the email format is checked
      only once both are present and truthy; a passing payload yields exactly `(True, "")`. */
  lemma {:induction false} ValidatePayloadOutcomes(p: map<string, Value>, repr: Value -> string)
    ensures !Truthy(Get(p, "name")) ==>
      ValidatePayload(p, repr) == (false, "Missing required field: name")
    ensures Truthy(Get(p, "name")) && !Truthy(Get(p, "email")) ==>
      ValidatePayload(p, repr) == (false, "Missing required field: email")
    ensures Truthy(Get(p, "name")) && Truthy(Get(p, "email")) && !IsValidEmail(PyStr(Get(p, "email"), repr)) ==>
      ValidatePayload(p, repr) == (false, "Invalid email format")
    ensures Truthy(Get(p, "name")) && Truthy(Get(p, "email")) && IsValidEmail(PyStr(Get(p, "email"), repr)) ==>
      ValidatePayload(p, repr) == (true, "")
  {
    var k := FirstFalsy(p, RequiredFields);
    assert RequiredFields[0] == "name" && RequiredFields[1] == "email";
    if !Truthy(Get(p, "name")) {
      assert k == 0;
      assert MsgMissingField + "name" == "Missing required field: name";
    } else if !Truthy(Get(p, "email")) {
      assert k == 1;
      assert MsgMissingField + "email" == "Missing required field: email";
    } else {
      assert k == 2;
    }
  }

  /** A payload is accepted exactly when name and email are truthy and `str(email)`
      passes the email check, and the message is empty exactly when it is accepted. */
  lemma ValidatePayloadAccepts(p: map<string, Value>, repr: Value -> string)
    ensures ValidatePayload(p, repr).0 <==>
      Truthy(Get(p, "name")) && Truthy(Get(p, "email")) && IsValidEmail(PyStr(Get(p, "email"), repr))
    ensures ValidatePayload(p, repr).0 <==> ValidatePayload(p, repr).1 == ""
  {
    ValidatePayloadOutcomes(p, repr);
  }

  /** Only `name` and `email` decide validation; any other field is ignored. */
  lemma ValidationIgnoresOtherFields(p: map<string, Value>, q: map<string, Value>, repr: Value -> string)
    requires Get(p, "name") == Get(q, "name")
    requires Get(p, "email") == Get(q, "email")
    ensures ValidatePayload(p, repr) == ValidatePayload(q, repr)
  {
    ValidatePayloadOutcomes(p, repr);
    ValidatePayloadOutcomes(q, repr);
  }

  /** A non-zero number or `True` in the email field is rendered by `str` without an '@',
      so it is reported as a bad format rather than as missing. */
  lemma ScalarEmailRejected(p: map<string, Value>, repr: Value -> string)
    requires Truthy(Get(p, "name"))
    requires Get(p, "email").Int? || Get(p, "email").Bool?
    requires Truthy(Get(p, "email"))
    ensures ValidatePayload(p, repr) == (false, "Invalid email format")
  {
    var email := Get(p, "email");
    if email.Int? {
      IntToStrCharacters(email.i);
      NoAtRejected(IntToStr(email.i));
    } else {
      NoAtRejected(PyStr(email, repr));
    }
    ValidatePayloadOutcomes(p, repr);
  }

  /** Only `str(email)` is checked: a list holding an address, whose Python rendering is
      `['a@b.c']`, passes validation. */
  lemma ListEmailCheckedThroughStr(p: map<string, Value>, repr: Value -> string)
    requires Truthy(Get(p, "name"))
    requires Get(p, "email") == List([Str("a@b.c")])
    requires repr(List([Str("a@b.c")])) == "['a@b.c']"
    ensures ValidatePayload(p, repr) == (true, "")
  {
    var s := "['a@b.c']";
    assert SplitsAt(s, 3, 5);
    TrailingNewlineAccepted(s);
    ValidatePayloadOutcomes(p, repr);
  }

  // ---------------------------------------------------------------------------
  // _parse_body

  /** The lower-case `content-type` header wins over `Content-Type`; an empty or missing
      header falls through, and with neither the content type is JSON. */
  lemma ContentTypeLookup(headers: Option<map<string, string>>)
    ensures headers == None ==> ContentType(headers) == DefaultContentType
    ensures headers.Some? && "content-type" in headers.value && headers.value["content-type"] != "" ==>
      ContentType(headers) == headers.value["content-type"]
    ensures headers.Some? && HeaderValue(headers.value, "content-type") == None
            && "Content-Type" in headers.value && headers.value["Content-Type"] != "" ==>
      ContentType(headers) == headers.value["Content-Type"]
    ensures headers.Some? && HeaderValue(headers.value, "content-type") == None
            && HeaderValue(headers.value, "Content-Type") == None ==>
      ContentType(headers) == DefaultContentType
  {
  }

  /** The default content type selects the JSON branch; a form content type with
      parameters still selects the form branch. */
  lemma DefaultContentTypeIsJson()
    ensures !Contains(DefaultContentType, FormContentType)
    ensures Contains("application/x-www-form-urlencoded; charset=UTF-8", FormContentType)
  {
    assert OccursAt("application/x-www-form-urlencoded; charset=UTF-8", FormContentType, 0);
  }

  /** A body that fails base64 or UTF-8 decoding raises before the content type matters. */
  lemma ParseBodyDecodeError(e: Event, rt: Runtime)
    requires RawBody(e, rt).Err?
    ensures ParseBody(e, rt) == Err(RawBody(e, rt).msg)
  {
  }

  /** Form bodies: source "form", the keys `parse_qs` found, each with its first value. */
  lemma ParseBodyForm(e: Event, rt: Runtime)
    requires RawBody(e, rt).Ok?
    requires Contains(ContentType(e.headers), FormContentType)
    ensures ParseBody(e, rt).Ok?
    ensures ParseBody(e, rt).value.source == Form
    ensures ParseBody(e, rt).value.payload.Keys == rt.parseQs(RawBody(e, rt).value).Keys
    ensures var fields := rt.parseQs(RawBody(e, rt).value);
      forall k :: k in fields && |fields[k]| > 0 ==> ParseBody(e, rt).value.payload[k] == Str(fields[k][0])
  {
  }

  /** JSON bodies: an empty body is `{}` without calling the decoder; otherwise the
      result is the decoded object, and anything but an object is an error. */
  lemma ParseBodyJson(e: Event, rt: Runtime)
    requires RawBody(e, rt).Ok?
    requires !Contains(ContentType(e.headers), FormContentType)
    ensures var raw := RawBody(e, rt).value;
      && (raw == "" ==> ParseBody(e, rt) == Ok(Parsed(map[], Json)))
      && (raw != "" && rt.jsonLoads(raw) == None ==> ParseBody(e, rt) == Err(MsgInvalidJson))
      && (raw != "" && rt.jsonLoads(raw).Some? && !rt.jsonLoads(raw).value.Dict? ==>
            ParseBody(e, rt) == Err(MsgNotObject))
      && (raw != "" && rt.jsonLoads(raw).Some? && rt.jsonLoads(raw).value.Dict? ==>
            ParseBody(e, rt) == Ok(Parsed(rt.jsonLoads(raw).value.entries, Json)))
  {
  }

  /** Every failure of `_parse_body` is the decoding error or one of its two messages. */
  lemma ParseBodyErrors(e: Event, rt: Runtime)
    requires ParseBody(e, rt).Err?
    ensures || RawBody(e, rt) == Err(ParseBody(e, rt).msg)
            || ParseBody(e, rt).msg == MsgInvalidJson
            || ParseBody(e, rt).msg == MsgNotObject
  {
  }

  // ---------------------------------------------------------------------------
  // The stored item

  /** The draft item: eight attributes, the optional ones `None` exactly when the payload
      has `None` for them. */
  lemma ItemDraftFields(p: Parsed, userId: string, nowIso: string, repr: Value -> string)
    ensures var d := ItemDraft(p, userId, nowIso, repr);
      && d.Keys == {"userId", "name", "email", "message", "phone", "sourceType", "createdAt", "updatedAt"}
      && d["userId"] == Some(userId)
      && d["name"] == Some(PyStr(Get(p.payload, "name"), repr))
      && d["email"] == Some(PyStr(Get(p.payload, "email"), repr))
      && d["message"] == (if Get(p.payload, "message") == Null then None else Some(PyStr(Get(p.payload, "message"), repr)))
      && d["phone"] == (if Get(p.payload, "phone") == Null then None else Some(PyStr(Get(p.payload, "phone"), repr)))
      && d["sourceType"] == Some(p.source.Name())
      && d["createdAt"] == Some(nowIso) == d["updatedAt"]
  {
  }

  /** The item always has the six fixed attributes, with one timestamp for both
      `createdAt` and `updatedAt`; `message` and `phone`, when present, are the text of
      the payload's values. */
  lemma ItemAttributes(p: Parsed, userId: string, nowIso: string, repr: Value -> string)
    ensures var item := BuildItem(p, userId, nowIso, repr);
      && "userId" in item && item["userId"] == userId
      && "name" in item && item["name"] == PyStr(Get(p.payload, "name"), repr)
      && "email" in item && item["email"] == PyStr(Get(p.payload, "email"), repr)
      && "sourceType" in item && item["sourceType"] == p.source.Name()
      && "createdAt" in item && "updatedAt" in item
      && item["createdAt"] == nowIso == item["updatedAt"]
      && ("message" in item ==> item["message"] == PyStr(Get(p.payload, "message"), repr))
      && ("phone" in item ==> item["phone"] == PyStr(Get(p.payload, "phone"), repr))
  {
    ItemDraftFields(p, userId, nowIso, repr);
  }

  /** No other attribute is stored, and `message` and `phone` are stored exactly when
      the payload holds a value other than `None` for them. */
  lemma ItemKeys(p: Parsed, userId: string, nowIso: string, repr: Value -> string)
    ensures BuildItem(p, userId, nowIso, repr).Keys ==
      {"userId", "name", "email", "sourceType", "createdAt", "updatedAt"}
      + (if Get(p.payload, "message") != Null then {"message"} else {})
      + (if Get(p.payload, "phone") != Null then {"phone"} else {})
  {
    ItemDraftFields(p, userId, nowIso, repr);
  }

  // ---------------------------------------------------------------------------
  // lambda_handler

  /** Every response carries the same CORS headers. */
  lemma CorsOnEveryResponse(e: Event, rt: Runtime)
    ensures var h := Handle(e, rt).response.headers;
      && h == CorsHeaders(rt.allowedOrigins)
      && h.Keys == {"Access-Control-Allow-Origin", "Access-Control-Allow-Methods",
                    "Access-Control-Allow-Headers", "Access-Control-Max-Age"}
      && h["Access-Control-Allow-Origin"] == (if rt.allowedOrigins.Some? then rt.allowedOrigins.value else "*")
      && h["Access-Control-Allow-Methods"] == "OPTIONS,POST"
      && h["Access-Control-Allow-Headers"] == "Content-Type,Authorization"
      && h["Access-Control-Max-Age"] == "86400"
  {
  }

  /** A preflight request is answered with 204 and an empty body before the table or
      the body is looked at, and nothing is stored. */
  lemma PreflightFirst(e: Event, rt: Runtime)
    requires Method(e) == Some("OPTIONS")
    ensures Handle(e, rt) == Handled(Response(204, CorsHeaders(rt.allowedOrigins), map[]), None)
  {
  }

  /** Without a table name the handler answers 500 and stores nothing. */
  lemma MissingTableIs500(e: Event, rt: Runtime)
    requires Method(e) != Some("OPTIONS")
    requires !TableConfigured(rt)
    ensures Handle(e, rt) == Handled(Response(500, CorsHeaders(rt.allowedOrigins), map["message" := MsgNoTable]), None)
  {
  }

  /** The request reaches `_parse_body`: not a preflight, and a table is configured. */
  predicate ReachesParse(e: Event, rt: Runtime) {
    Method(e) != Some("OPTIONS") && TableConfigured(rt)
  }

  /** The request is parsed and its payload passes `_validate_payload`. */
  predicate Accepted(e: Event, rt: Runtime) {
    ReachesParse(e, rt) && ParseBody(e, rt).Ok? && ValidatePayload(ParseBody(e, rt).value.payload, rt.repr).0
  }

  /** The item an accepted request stores. */
  function AcceptedItem(e: Event, rt: Runtime): Item
    requires Accepted(e, rt)
  {
    BuildItem(ParseBody(e, rt).value, rt.userId, rt.nowIso, rt.repr)
  }

  /** The status decision of `lambda_handler`: 204 for a preflight and only then; 400
      for a parse or validation failure; 201 when the payload is accepted and stored;
      500 otherwise. */
  lemma StatusDecision(e: Event, rt: Runtime)
    ensures var status := Handle(e, rt).response.statusCode;
      && status in {204, 500, 400, 201}
      && (status == 204 <==> Method(e) == Some("OPTIONS"))
      && (status == 400 <==>
            ReachesParse(e, rt) && (ParseBody(e, rt).Err? || !ValidatePayload(ParseBody(e, rt).value.payload, rt.repr).0))
      && (status == 201 <==>
            Accepted(e, rt) && rt.putItem(rt.tableName.value, AcceptedItem(e, rt)) == None)
  {
  }

  /** `put_item` is called exactly for accepted requests, with the item built from
      their payload. */
  lemma PutOnlyWhenAccepted(e: Event, rt: Runtime)
    ensures Handle(e, rt).putAttempt.Some? <==> Accepted(e, rt)
    ensures Accepted(e, rt) ==> Handle(e, rt).putAttempt == Some(AcceptedItem(e, rt))
  {
  }

  /** The body of each rejection carries the message of the failure; a creation carries
      the generated id. */
  lemma ResponseBodies(e: Event, rt: Runtime)
    ensures var h := Handle(e, rt);
      && (ReachesParse(e, rt) && ParseBody(e, rt).Err? ==>
            h.response.body == map["message" := ParseBody(e, rt).msg])
      && (ReachesParse(e, rt) && ParseBody(e, rt).Ok? && !Accepted(e, rt) ==>
            h.response.body == map["message" := ValidatePayload(ParseBody(e, rt).value.payload, rt.repr).1])
      && (h.response.statusCode == 201 ==> h.response.body == map["message" := "Submitted", "userId" := rt.userId])
  {
  }

  /** The item built from an accepted payload carries an email that passes the check. */
  lemma AcceptedItemHasValidEmail(parsed: Parsed, rt: Runtime)
    requires ValidatePayload(parsed.payload, rt.repr).0
    ensures var item := BuildItem(parsed, rt.userId, rt.nowIso, rt.repr);
      "email" in item && IsValidEmail(item["email"])
  {
    ValidatePayloadAccepts(parsed.payload, rt.repr);
    ItemAttributes(parsed, rt.userId, rt.nowIso, rt.repr);
  }

  /** The path to 201: past the preflight and table checks, parsed, validated, stored. */
  lemma CreatedPath(e: Event, rt: Runtime)
    requires Handle(e, rt).response.statusCode == 201
    ensures Method(e) != Some("OPTIONS") && TableConfigured(rt)
    ensures ParseBody(e, rt).Ok? && ValidatePayload(ParseBody(e, rt).value.payload, rt.repr).0
    ensures Handle(e, rt).putAttempt == Some(BuildItem(ParseBody(e, rt).value, rt.userId, rt.nowIso, rt.repr))
    ensures Handle(e, rt).response.body == map["message" := "Submitted", "userId" := rt.userId]
  {
    assert Method(e) != Some("OPTIONS") && TableConfigured(rt);
    assert ParseBody(e, rt).Ok?;
  }

  /** A created response means the stored item's email passes the email check. */
  lemma CreatedItemHasValidEmail(e: Event, rt: Runtime)
    requires Handle(e, rt).response.statusCode == 201
    ensures var h := Handle(e, rt);
      && h.putAttempt.Some?
      && "email" in h.putAttempt.value
      && IsValidEmail(h.putAttempt.value["email"])
  {
    CreatedPath(e, rt);
    AcceptedItemHasValidEmail(ParseBody(e, rt).value, rt);
  }

  /** A created response returns the id the item was stored under, and the item has
      a name, equal creation and update times and the source of its payload. */
  lemma CreatedItemFields(e: Event, rt: Runtime)
    requires Handle(e, rt).response.statusCode == 201
    ensures var h := Handle(e, rt);
      && h.putAttempt.Some?
      && var item := h.putAttempt.value;
      && "name" in item
      && "userId" in item && "userId" in h.response.body
      && item["userId"] == rt.userId == h.response.body["userId"]
      && "createdAt" in item && "updatedAt" in item
      && item["createdAt"] == item["updatedAt"] == rt.nowIso
      && "sourceType" in item && item["sourceType"] in {"form", "json"}
  {
    CreatedPath(e, rt);
    ItemAttributes(ParseBody(e, rt).value, rt.userId, rt.nowIso, rt.repr);
  }
}
