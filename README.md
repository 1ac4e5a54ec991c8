# Lambda user form handler, modelled in Dafny

This project models `lambda_user_form_handler.py`, the AWS Lambda function that
receives a user's contact form (name, email, optional message and phone) through API
Gateway, validates it and stores it in a DynamoDB table. The model covers the whole
request path. It answers CORS preflight requests. It checks the `TABLE_NAME`
configuration. It decodes the body as a URL-encoded form or as a JSON object. It checks
the required fields and the email format. It builds the stored item. It picks the
status code (204, 500, 400 or 201) and the response body.

The handler is written as pure functions, so the model is pure too: datatypes,
functions and lemmas.

- `results.dfy` (`Results`): `Option` and `Result`. `Err` carries the text of a
  `ValueError`.
- `py_values.dfy` (`PyValues`): the Python values a payload may hold. It also gives
  Python truthiness (`if not payload.get(field)`), `dict.get` and Python's `str()`. For
  `None`, booleans, integers and strings, `str()` is written out exactly. For floats,
  lists and dicts it goes through Python's `repr`, which the model takes as a parameter.
- `email.dfy` (`EmailCheck`): `_is_valid_email`. `IsValidEmail` decides it by
  splitting at the first `@`. `EmailPattern` is the reference: the language of
  `^[^@\s]+@[^@\s]+\.[^@\s]+$` under `re.match`. It includes the rule that `$` also
  matches just before one final newline. `\s` is the set of characters for which
  Python's `str.isspace()` holds.
- `handler.dfy` (`FormHandler`): the event, the runtime, `_get_cors_headers`,
  `_response`, `_parse_body`, `_validate_payload`, the item construction and
  `lambda_handler` as `Handle`.
- `handler_proofs.dfy` (`FormHandlerProofs`): what the handler promises, as lemmas.

Everything the handler takes from outside the event is one `Runtime` value:
- the `ALLOWED_ORIGINS` and `TABLE_NAME` environment variables;
- the values of `uuid.uuid4()` and `datetime.now(timezone.utc).isoformat()`;
- the library calls, each as a function: base64 plus UTF-8 decoding, `json.loads`,
  `parse_qs`, `repr`, and `put_item`.

Every lemma holds for every choice of these.

`heartcare/urls.py` is Django routing configuration with no logic. The snake game it
routes to at `heartcare/urls.py:7` is a template (`game/index.html`) that is not part
of this model.

## Model

| member | source | states |
|---|---|---|
| `EmailCheck.IsValidEmailMatchesPattern` | lambda_user_form_handler.py:31-34 | The email check accepts a string exactly when `re.match` with the pattern succeeds. That means the whole string reads as `[^@\s]+@[^@\s]+\.[^@\s]+`, or does so after one final newline is removed. |
| `EmailCheck.ValidEmailShape` | lambda_user_form_handler.py:31-34 | An accepted address has, after one final newline is removed, no whitespace and exactly one `@`. The part before the `@` is non-empty. After it comes a `.` that is neither the first nor the last character of the domain. |
| `EmailCheck.DropFinalNewline` | lambda_user_form_handler.py:33-34 | The text that `$` is matched against is the input, or the input without one final newline. |
| `EmailCheck.TrailingNewlineAccepted` | lambda_user_form_handler.py:33-34 | A full match is accepted, and so is the same text with one `\n` appended. |
| `EmailCheck.TwoNewlinesRejected` | lambda_user_form_handler.py:33-34 | No string followed by two newlines is accepted. |
| `EmailCheck.NoAtRejected` | lambda_user_form_handler.py:33-34 | A string without `@` is rejected. |
| `EmailCheck.AcceptedExample` | lambda_user_form_handler.py:33-34 | `jo@x.io` is accepted, with or without a final newline. |
| `EmailCheck.LeadingDotDomainExample` | lambda_user_form_handler.py:33-34 | `a@.b.c` is accepted: the domain only needs some `.` with text on both sides. |
| `EmailCheck.NoInnerDotExample` | lambda_user_form_handler.py:33-34 | `jo@x` and `jo@.io` are rejected. |
| `EmailCheck.EmptyLocalExample` | lambda_user_form_handler.py:33-34 | `@x.io` is rejected. |
| `EmailCheck.SecondAtExample` | lambda_user_form_handler.py:33-34 | `j@o@x.io` is rejected. |
| `EmailCheck.SpaceExample` | lambda_user_form_handler.py:33-34 | `j o@x.io` is rejected. |
| `PyValues.DigitsRoundTrip` | lambda_user_form_handler.py:68 | The decimal text `str()` gives for a non-negative integer reads back as the same integer. |
| `PyValues.IntToStrRoundTrip` | lambda_user_form_handler.py:68 | The text `str()` gives for any integer, sign included, reads back as the same integer. |
| `PyValues.IntToStrCharacters` | lambda_user_form_handler.py:68 | `str()` of an integer is non-empty, holds only digits and a leading minus sign, and starts with `-` exactly for negatives. |
| `FormHandler.FirstFalsy` | lambda_user_form_handler.py:63-66 | The loop over the required fields stops at the first field whose value is missing or falsy. Every earlier field is truthy. When all are truthy it reaches the end. |
| `FormHandlerProofs.ValidatePayloadOutcomes` | lambda_user_form_handler.py:62-71 | A falsy `name` gives "Missing required field: name", even when `email` is missing too. A falsy `email` then gives "Missing required field: email". Two truthy fields with a bad `str(email)` give "Invalid email format". Otherwise the result is exactly `(True, "")`. |
| `FormHandlerProofs.ValidatePayloadAccepts` | lambda_user_form_handler.py:62-71 | A payload is valid exactly when `name` and `email` are truthy and `str(email)` passes the email check. The message is empty exactly when the payload is valid. |
| `FormHandlerProofs.ValidationIgnoresOtherFields` | lambda_user_form_handler.py:62-71 | Two payloads that agree on `name` and `email` get the same verdict, whatever else they contain. |
| `FormHandlerProofs.ScalarEmailRejected` | lambda_user_form_handler.py:64-69 | A truthy integer or `True` in the email field is reported as "Invalid email format", not as missing. |
| `FormHandlerProofs.ListEmailCheckedThroughStr` | lambda_user_form_handler.py:68-71 | Only `str(email)` is checked. A list holding an address, rendered `['a@b.c']`, passes validation. |
| `FormHandlerProofs.ContentTypeLookup` | lambda_user_form_handler.py:38 | A non-empty `content-type` header wins over `Content-Type`. An empty or missing header falls through. Without either, or without headers, the content type is `application/json`. |
| `FormHandlerProofs.DefaultContentTypeIsJson` | lambda_user_form_handler.py:38-50 | The default content type takes the JSON branch. A form content type with a charset parameter still takes the form branch. |
| `FormHandlerProofs.ParseBodyDecodeError` | lambda_user_form_handler.py:41-44 | A base64 or UTF-8 decoding failure is raised as the parse error, whatever the content type. |
| `FormHandlerProofs.ParseBodyForm` | lambda_user_form_handler.py:46-48 | A content type containing `application/x-www-form-urlencoded` gives source `form`. The keys are those of `parse_qs`, and each key maps to the first of its values. |
| `FormHandlerProofs.ParseBodyJson` | lambda_user_form_handler.py:50-59 | On the JSON branch, an empty body gives `({}, "json")` without calling the decoder. A decode failure gives "Invalid JSON in request body". A decoded non-object gives "Request JSON must be an object". A decoded object is the payload, with source `json`. |
| `FormHandlerProofs.ParseBodyErrors` | lambda_user_form_handler.py:37-59 | Every parse failure is the decoding error or one of the two JSON messages. |
| `FormHandlerProofs.ItemDraftFields` | lambda_user_form_handler.py:101-110 | The dict literal has eight attributes. `message` and `phone` are `None` exactly when the payload's value is `None` or absent. |
| `FormHandlerProofs.ItemAttributes` | lambda_user_form_handler.py:101-113 | The stored item always has `userId`, `name`, `email`, `sourceType`, `createdAt` and `updatedAt`. `createdAt` equals `updatedAt`, and `name`, `email`, `message` and `phone` are `str()` of the payload's values. |
| `FormHandlerProofs.ItemKeys` | lambda_user_form_handler.py:101-113 | The item has exactly the six fixed attributes, plus `message` and `phone` each exactly when the payload holds a value other than `None` for it. |
| `FormHandler.DropNone` | lambda_user_form_handler.py:112-113 | The comprehension keeps exactly the attributes whose value is not `None`, with their values. |
| `FormHandlerProofs.CorsOnEveryResponse` | lambda_user_form_handler.py:13-28 | Every response carries the same four CORS headers. Allow-Origin is `ALLOWED_ORIGINS` or `*` when unset. Allow-Methods is `OPTIONS,POST`, Allow-Headers is `Content-Type,Authorization` and Max-Age is `86400`. |
| `FormHandlerProofs.PreflightFirst` | lambda_user_form_handler.py:84-86 | An `OPTIONS` request gets 204 with an empty body before the table or the body is looked at, and nothing is stored. |
| `FormHandlerProofs.MissingTableIs500` | lambda_user_form_handler.py:88-90 | Any other request with `TABLE_NAME` unset or empty gets 500 with the misconfiguration message, and nothing is stored. |
| `FormHandlerProofs.StatusDecision` | lambda_user_form_handler.py:83-122 | The status is always 204, 500, 400 or 201. 204 means a preflight. 400 means a parse or validation failure. 201 means an accepted payload that `put_item` stored. |
| `FormHandlerProofs.PutOnlyWhenAccepted` | lambda_user_form_handler.py:92-115 | `put_item` is called exactly for accepted requests, with the item built from their payload. |
| `FormHandlerProofs.ResponseBodies` | lambda_user_form_handler.py:94-120 | A rejection's body is `{"message": <the error>}`. A 201 body is `{"message": "Submitted", "userId": <the generated id>}`. |
| `FormHandlerProofs.AcceptedItemHasValidEmail` | lambda_user_form_handler.py:94-113 | The item built from a valid payload has an `email` that passes the email check. |
| `FormHandlerProofs.CreatedPath` | lambda_user_form_handler.py:85-117 | A 201 response means the request passed every check and the item was handed to `put_item`. |
| `FormHandlerProofs.CreatedItemHasValidEmail` | lambda_user_form_handler.py:92-117 | After a 201 response, the stored item's email passes the email check. |
| `FormHandlerProofs.CreatedItemFields` | lambda_user_form_handler.py:98-117 | After a 201 response, the item's `userId` is the one returned in the body. The item has a `name`, equal `createdAt` and `updatedAt`, and `sourceType` `form` or `json`. |

## Left out

- `_put_item` (lambda_user_form_handler.py:74-80) is the `putItem` function of the
  runtime. It returns the `ClientError` text or nothing. DynamoDB itself, and the
  condition that `userId` must not exist yet, are not modelled.
- The catch-all `except Exception` branch (lambda_user_form_handler.py:123-124) is not
  modelled. It only catches failures of the library and network calls, which are
  parameters here.
- `json.loads`, `parse_qs`, base64 and UTF-8 decoding, and Python's `repr` of floats,
  lists and dicts are library code. They are functions in the runtime, and every lemma
  holds for all of them.
- `json.dumps` is not modelled. A response's body is the dict before serialisation.
- `uuid.uuid4()`, the clock and `os.getenv` are nondeterministic or environment I/O.
  Their values are fields of the runtime.
- `ParseBody`: `json.loads` can raise a `ValueError` other than `JSONDecodeError`, for
  example on an integer over 4300 digits. The source then answers 400 with that
  exception's text. The model folds it into "Invalid JSON in request body".
- `Method`: an event with no, or an empty, `httpMethod` whose `requestContext` or
  `http` is `null` makes line 85 raise `AttributeError` outside the `try`. The model
  reads such an event as having no method.
- Event fields of unexpected types are not modelled: header values, `body` or
  `httpMethod` that are not strings. `isBase64Encoded` is modelled by its truthiness.
- `Value.Float` holds a real number, so it cannot be NaN or an infinity, which
  `json.loads` accepts by default. Floats are only seen through truthiness and the
  `repr` parameter, so any non-zero real with a suitable `repr` stands for them.
- Python strings may hold lone surrogate code points. Dafny's `char` cannot, so such
  strings are outside the model.
- `heartcare/urls.py`: declarative routing with no logic. The game template it serves
  is not part of this model.
