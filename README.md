# RCS Business Messaging webhook receivers, modelled in Dafny

The repository has two Flask webhooks for Google RCS Business Messaging. Each
takes one HTTP request and produces one outcome: an HTTP status, a reply body,
and at most one event handler run. This project models the decision logic of
both as total functions and proves how each reaches its outcome.

- `app.py` (module `App`, file `app.dfy`). `verify_signature` checks an optional
  `X-Goog-Signature`. That header is the padded base64 of HMAC-SHA512 over the
  raw body. With no `GOOGLE_WEBHOOK_SECRET`, every request passes (validation
  mode). Past the check, `webhook` answers:
  - 401 when the signature fails;
  - 400 when there is no JSON or the JSON is falsy, and 400 `Invalid JSON`
    for malformed JSON, which is the code's own `JSONDecodeError` branch as
    modelled (see "## Left out" for what Flask does instead);
  - the handshake echo `{'secret': …}` for a dict that carries
    `clientToken` and `secret` but no event key;
  - otherwise it runs the handler that `detect_event_type` chose and answers
    200 `success`;
  - an unclassified dict is acknowledged with 200 `success` and no handler.
    An unclassified list or string gets 500: it fails on `data.keys()`
    (app.py:145), which the warning it logs evaluates, or on `data.get`
    (app.py:125) when it also names `clientToken` and `secret`;
  - any exception after the signature check gives 500.

  The handlers (`handle_message`, `handle_user_status`, `handle_receipt`,
  `handle_suggestion_response`) are modelled by what they read from the
  payload and by the defaults they use.
- `server_flask.py` (module `ServerFlask`, file `server_flask.dfy`). A truthy
  payload containing `clientToken` is answered at once. On a truthy number or
  boolean, `in` raises and Flask answers 500. Every other request then goes
  through three checks, in this order, and the first failure is final:
  - `RBM_WEBHOOK_SECRET` must be set and non-empty, or the reply is 500;
  - the header must be present and non-empty, or the reply is 403;
  - `is_valid_signature` must accept it: lowercase hex of HMAC-SHA256, with no
    permissive mode. A valid signature gives 200 and an invalid one 403. A
    body that is not UTF-8, or a header with a non-ASCII character, raises
    instead, and Flask answers 500.

Supporting modules:
- `Json` holds the JSON value.
- `Python` holds Python's truth values, `in`, `dict.get`, and raised
  exceptions as an `Outcome`.
- `Utf8`, `Base64` and `Hex` are concrete encoders, each with a decoder and
  round-trip lemmas. Base64 follows section 4 of RFC 4648.
- `Digest` holds the keyed hash as a function parameter and
  `hmac.compare_digest`.
- `Policies` states where the two receivers deliberately disagree.

Python exceptions are modelled as values:
- as `Outcome.Raises`, when `dict.get` runs on a value that is not a dict,
  when `in` runs on `None`, a boolean or a number, and when `compare_digest`
  gets a non-ASCII `str`;
- as `None` from `Utf8.Decode`, for `bytes.decode('utf-8')` on malformed
  input;
- as a 500 reply written directly into `App.Route`, for `data.keys()` on a
  value that is not a dict.

What happens next depends on the file:
- `app.py` catches everything after the signature check and answers 500.
  Inside `verify_signature`, the exception is caught and the result is false.
- `server_flask.py` catches nothing, so Flask answers with its own 500 page
  (`ErrorPage`).

The secrets, the header, the raw body and the parsed JSON are parameters.
HMAC-SHA512 and HMAC-SHA256 (RFC 2104 over FIPS 180-4 hashes) are parameters
of type `Digest.Mac`, so every property holds for every keyed hash.
`Digest.HasLength` supplies the 64- or 32-byte digest length where a property
needs it.

Facts about the code that the model keeps:
- `handle_message` reads text only from `message.textEvent.text`.
  `App.FlatTextMessage` shows a message whose text sits at `message.text`
  being read as unrecognised content.
- In `app.py` the handshake echo is not the first check. It comes after the
  signature check and applies only to unclassified payloads.
- `app.py` echoes `secret` without comparing it to anything, and
  `server_flask.py` acknowledges any `clientToken` without reading its value.
- In `app.py`, truthy JSON that is not a dict is not refused with 400. It is
  classified by element or substring membership and always ends in 500:
  - a number or boolean makes `in` raise;
  - a classified list or string makes the handler's `data.get` raise;
  - an unclassified one fails on `data.keys()` (app.py:145), or on
    `data.get` (app.py:125) when it also names `clientToken` and `secret`.

## Model

| member | source | states |
|---|---|---|
| `Python.In` | app.py:165-174 | `key in v` raises exactly on `None`, booleans and numbers. On a dict it is key membership, on a list it is an element equal to the string, and on a string it is an occurrence at some index |
| `Python.IsSubstringAt` | app.py:165-174 | the left-to-right search of `in` on strings finds the key exactly when it occurs at some index |
| `Python.Get` | app.py:188-194 | `v.get(k, d)` raises exactly when `v` is not a dict |
| `Digest.CompareDigest` | app.py:49 | `compare_digest` on two strings returns true only for equal strings and false only for different ones, and raises exactly when either holds a non-ASCII character |
| `Utf8.DecodeEncode` | server_flask.py:60-61 | strict UTF-8 decoding gives back every encoded string |
| `Utf8.EncodeDecode` | server_flask.py:134 | re-encoding a body that decoded as UTF-8 gives back the exact bytes received |
| `Base64.EncodeShape` | app.py:46 | `b64encode` output has 4·⌈n/3⌉ characters, each in the RFC 4648 alphabet or `=`, so it is ASCII and one line |
| `Base64.DecodeEncode` | app.py:46 | strict decoding inverts the base64 encoding of every byte string |
| `Hex.HexDigestShape` | server_flask.py:64-68 | `hexdigest()` has two lowercase hex digits per byte |
| `Hex.DecodeHexDigest` | server_flask.py:68 | decoding inverts `hexdigest()` |
| `Hex.HexDigestDecode` | server_flask.py:68 | every decodable hex string is the digest form of its bytes (the lowercase form is unique) |
| `App.VerifySignature` | app.py:23-60 | empty secret: accepted for every body and header, an absent header included; secret set and header absent or empty: rejected; otherwise accepted exactly when the header equals base64(HMAC-SHA512(utf8(secret), body)); it never raises |
| `App.SignatureRoundTrip` | app.py:39-49 | with a secret set, the correctly computed signature is accepted and every other string is rejected |
| `App.SignatureLength` | app.py:39-49 | with a 64-byte digest, a header that is not 88 characters long is rejected |
| `App.DetectEventType` | app.py:161-174 | raises exactly on `None`, booleans and numbers. Otherwise it returns the first of message, userStatus, receipt, suggestionResponse that `in` finds, else unknown. On a dict it never raises, so `{}` is unknown |
| `App.HandleMessage` | app.py:180-232 | completes exactly when every `.get` lands on a dict. Sender: nested `senderInformation.senderPhoneNumber` if truthy, else top-level `senderPhoneNumber`, else `Desconocido`. `messageId` defaults to `ID_No_Disponible`, `sendTime` to `Timestamp_No_Disponible`. Content precedence is textEvent > richCardEvent > standaloneCardEvent > unrecognised, and a missing text is `Mensaje sin texto` |
| `App.HandleUserStatus` | app.py:240-250 | completes exactly on a dict whose `userStatus` (if any) is a dict; sender defaults to `Unknown`; typing exactly when `isTyping` is present and truthy |
| `App.HandleReceipt` | app.py:253-265 | completes exactly on a dict whose `receipt` (if any) is a dict; message id and type default to `Unknown`, timestamp to empty |
| `App.HandleSuggestionResponse` | app.py:268-280 | completes exactly on a dict whose `suggestionResponse` (if any) is a dict; sender defaults to `Unknown`, postback data and text to empty |
| `App.Handle` | app.py:136-143 | a handler that completes reports the event type it was called for |
| `App.Webhook` | app.py:80-158 | 401 `Invalid signature` exactly when verification fails, with no handler run. 400 exactly when verified and the JSON is absent, malformed or falsy: `Invalid JSON` for malformed (the code's `JSONDecodeError` branch), else `No data received`, with no handler run. A handler runs only for a verified truthy payload, and completes only on a dict. The status is always 200, 400, 401 or 500, and 200 only for a dict payload |
| `App.HandshakeEcho` | app.py:121-130 | the echo `200 {'secret': data['secret']}` is sent exactly for a verified dict payload with `clientToken` and `secret` and no event key |
| `App.DispatchMatchesClassification` | app.py:136-150 | the handler reached is the one for the payload's classification and never one for unknown. It is reached only after verification and outside the handshake. A handler that completes gives 200 `success`, one that raises gives 500 |
| `App.ObjectPayloadDispatch` | app.py:136-158 | verified non-handshake dict payload: unknown gives 200 `success` with no handler. Otherwise the matching handler runs, and the reply is 200 exactly when it completes and 500 otherwise. So such a payload gets 500 only from a faulting handler |
| `App.NonDictPayload` | app.py:114-158 | a verified truthy payload that is not a dict gets 500 `Internal server error` and completes no handler |
| `App.UnclassifiedListOrString` | app.py:144-158 | a verified list or string with no event name found gets 500 with no handler reached: the `data.keys()` in the warning raises, or, for one naming `clientToken` and `secret`, `data.get` does |
| `App.FlatTextMessage` | app.py:180-223 | a message with its text at `message.text`, with no secret set, is acknowledged with 200, and its content is unrecognised |
| `ServerFlask.IsValidSignature` | server_flask.py:38-74 | false whenever the secret or the signature is empty (no permissive mode). Otherwise true exactly when the signature equals hex(HMAC-SHA256(utf8(secret), utf8(body))), and it raises exactly on a non-ASCII signature |
| `ServerFlask.SignatureRoundTrip` | server_flask.py:60-74 | the computed digest is accepted; the digest with its letters upper-cased is rejected |
| `ServerFlask.WebhookReceiver` | server_flask.py:81-153 | every reply is one of the six the view can give: handshake, missing secret, missing signature, processed, invalid signature, uncaught error |
| `ServerFlask.HandshakeFirst` | server_flask.py:88-101 | the handshake reply is sent exactly when the payload is truthy and contains `clientToken`. For a dict with that key this holds whatever the secret, header and body are. Otherwise the only early reply is the 500 of `in` on a truthy number or boolean |
| `ServerFlask.PayloadOnlyDecidesHandshake` | server_flask.py:88-137 | two payloads that both skip the handshake (absent, falsy, or lacking `clientToken`) get identical replies |
| `ServerFlask.CheckOrder` | server_flask.py:109-153 | past the handshake: no secret gives 500, then no header gives 403 `Firma no proporcionada`. With both, the reply is 200 exactly when the body is UTF-8 and the header equals hex(HMAC-SHA256(utf8(secret), raw body)). It is 403 `Firma inválida` exactly when the body is UTF-8 and the header is ASCII but different, and 500 otherwise |
| `ServerFlask.SignedRequestRoundTrip` | server_flask.py:131-153 | a correctly signed UTF-8 request is processed (200), and the same signature upper-cased is refused with 403 |
| `Policies.HandshakeOrder` | app.py:98-130 | with a secret set and no header, a handshake payload gets 401 from `app.py` but the handshake reply from `server_flask.py` |
| `Policies.ClassifiedHandshake` | app.py:114-130 | a verified payload with `message`, `clientToken` and `secret` is dispatched and not echoed by `app.py`, but answered as a handshake by `server_flask.py` |
| `Policies.MissingSecret` | server_flask.py:114-121 | with no secret, `app.py` never answers 401, while `server_flask.py` answers 500 to every request that skips the handshake |

Helpers without a row, whose behaviour the rows of their callers and lemmas state: `App.Route` (app.py:114-150), `App.IsHandshake` (app.py:122), `App.Echo` (app.py:125-130), `ServerFlask.Authenticate` (server_flask.py:109-153), `App.MessageContent` (app.py:201-223), `App.MessageShapeOk` (app.py:187-223), `App.ExpectedSignature` (app.py:39-46), `ServerFlask.ExpectedSignature` (server_flask.py:60-68), `Utf8.Encode` (server_flask.py:60-61), `Utf8.Decode` (server_flask.py:134), `Python.Truthy` (app.py:106, server_flask.py:96), `Base64.Encode` (app.py:46) and `Hex.HexDigest` (server_flask.py:68).

## Left out

- `streamlit_app.py` (the UI, OAuth credential loading, the outbound send API) and `database_manager.py` (DuckDB storage): they are UI, network and database I/O with no decision logic of their own.
- The `home` and `health` routes and `app.run`: timestamps and process start-up only.
- Logging, `print` output and `json.dumps` of card contents. Each handler is modelled by the values it reads, not by what it prints.
- HMAC, SHA-512 and SHA-256 internals: they are parameters. The constant-time behaviour of `compare_digest` cannot be stated in this model.
- Flask and Werkzeug plumbing, which become parameters: `request.get_data`, header lookup, `os.getenv` and `os.environ.get`.
- `request.get_json`'s own behaviour: for `app.py` it is the abstract result `JsonParse`; for `server_flask.py` it is `None` or a value, as that file's comments describe it. Under Flask, `get_json` raises `BadRequest` on a malformed JSON body, so `app.py` would answer 500 (app.py:156-158) and never reach its 400 `Invalid JSON` branch, and `server_flask.py` would get Flask's 400 before the handshake test. The model keeps the code's own branches instead. Content-type checks are not modelled either.
- JSON `NaN` and `Infinity`, and strings holding lone surrogates: a Dafny `char` is a Unicode scalar value. For the same reason the `UnicodeEncodeError` that encoding a surrogate-escaped secret would raise is not modelled.
- Dict key order and duplicate JSON keys: the parsed payload is a map.
- `App.Webhook`: its own contract covers the 401 and 400 outcomes and where handlers can run. The handshake echo and the 200/500 outcomes are stated by `App.HandshakeEcho`, `App.DispatchMatchesClassification`, `App.ObjectPayloadDispatch`, `App.NonDictPayload` and `App.UnclassifiedListOrString`.
