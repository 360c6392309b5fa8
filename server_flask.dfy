/** The webhook of `server_flask.py`: the `clientToken` handshake first, then
    a mandatory HMAC-SHA256 signature in lowercase hex. There is no permissive
    mode: without `RBM_WEBHOOK_SECRET` every other request gets 500. The
    environment variable is the parameter `rbmWebhookSecret`. Nothing here
    catches exceptions, so one that escapes becomes Flask's own 500 page. */
module ServerFlask {
  import opened Json
  import opened Python
  import Utf8
  import Hex
  import Digest

  // ---------------------------------------------------------------------------
  // Signature verification
  // ---------------------------------------------------------------------------

  /** `hexdigest()` of the HMAC-SHA256 of the request body, keyed with the
      secret, both taken as UTF-8 bytes. */
  function ExpectedSignature(hmacSha256: Digest.Mac, requestBody: string, secret: string): string
  {
    Hex.HexDigest(hmacSha256(Utf8.Encode(secret), Utf8.Encode(requestBody)))
  }

  /** `is_valid_signature`. An empty secret or signature is never valid;
      otherwise the signature is valid exactly when it equals the lowercase
      hex digest. Unlike its docstring's promise of a boolean, it raises (the
      `TypeError` of `compare_digest`) when the signature holds a non-ASCII
      character. */
  function IsValidSignature(hmacSha256: Digest.Mac, requestBody: string, secret: string,
                            signatureToVerify: string): (r: Outcome<bool>)
    ensures secret == "" || signatureToVerify == "" ==> r == Returns(false)
    ensures r == Returns(true) <==>
      secret != "" && signatureToVerify != ""
      && signatureToVerify == ExpectedSignature(hmacSha256, requestBody, secret)
    ensures r.Raises? <==> secret != "" && signatureToVerify != "" && !IsAscii(signatureToVerify)
  {
    if secret == "" || signatureToVerify == "" then Returns(false)
    else
      Hex.HexDigestShape(hmacSha256(Utf8.Encode(secret), Utf8.Encode(requestBody)));
      Digest.CompareDigest(ExpectedSignature(hmacSha256, requestBody, secret), signatureToVerify)
  }

  /** With both present, the computed digest is accepted, and a signature that
      differs from it only in the case of its letters is rejected. */
  lemma SignatureRoundTrip(hmacSha256: Digest.Mac, requestBody: string, secret: string)
    requires secret != "" && Digest.HasLength(hmacSha256, 32)
    ensures IsValidSignature(hmacSha256, requestBody, secret, ExpectedSignature(hmacSha256, requestBody, secret))
         == Returns(true)
    ensures var expected := ExpectedSignature(hmacSha256, requestBody, secret);
      (exists i :: 0 <= i < |expected| && 'a' <= expected[i] <= 'f') ==>
        IsValidSignature(hmacSha256, requestBody, secret, Hex.Upper(expected)) == Returns(false)
  {
    var digest := hmacSha256(Utf8.Encode(secret), Utf8.Encode(requestBody));
    Hex.HexDigestShape(digest);
    var expected := Hex.HexDigest(digest);
    if i :| 0 <= i < |expected| && 'a' <= expected[i] <= 'f' {
      Hex.UpperChangesDigest(digest, i);
    }
  }

  // ---------------------------------------------------------------------------
  // The request decision chain
  // ---------------------------------------------------------------------------

  /** A reply body: JSON from `jsonify`, or the error page Flask renders for
      an exception the view lets escape. */
  datatype Body = Json(value: Value) | ErrorPage

  datatype Reply = Reply(status: int, body: Body)

  /** The raw body, the `X-Goog-Signature` header, and `request.get_json()`
      (`None` when the body is not JSON). */
  datatype Request = Request(body: seq<byte>, signature: Option<string>, json: Option<Value>)

  const HandshakeReply := Reply(200, Json(Single("status", "Webhook recibido para verificaci\U{f3}n")))
  const MissingSecretReply := Reply(500, Json(Single("error", "Configuraci\U{f3}n del servidor incompleta")))
  const MissingSignatureReply := Reply(403, Json(Single("error", "Firma no proporcionada")))
  const ProcessedReply := Reply(200, Json(Single("status", "Mensaje recibido y procesado")))
  const InvalidSignatureReply := Reply(403, Json(Single("error", "Firma inv\U{e1}lida. Petici\U{f3}n no autorizada")))
  const UncaughtErrorReply := Reply(500, ErrorPage)

  /** Steps 1 to 5 of `webhook_receiver`, for a request that is not a handshake. */
  function Authenticate(rbmWebhookSecret: Option<string>, hmacSha256: Digest.Mac, request: Request): Reply
  {
    if rbmWebhookSecret.None? || rbmWebhookSecret.value == "" then MissingSecretReply
    else if request.signature.None? || request.signature.value == "" then MissingSignatureReply
    else
      match Utf8.Decode(request.body)
      case None => UncaughtErrorReply
      case Some(requestBody) =>
        match IsValidSignature(hmacSha256, requestBody, rbmWebhookSecret.value, request.signature.value)
        case Raises => UncaughtErrorReply
        case Returns(true) => ProcessedReply
        case Returns(false) => InvalidSignatureReply
  }

  /** `webhook_receiver`: `if data and 'clientToken' in data` answers the
      handshake before anything else is looked at. On a truthy number or
      boolean that `in` raises, and Flask answers 500. Every other request
      goes through the secret, the header and the signature, in that order. */
  function WebhookReceiver(rbmWebhookSecret: Option<string>, hmacSha256: Digest.Mac, request: Request): (r: Reply)
    ensures r in {HandshakeReply, MissingSecretReply, MissingSignatureReply, ProcessedReply,
                  InvalidSignatureReply, UncaughtErrorReply}
  {
    if request.json.Some? && Truthy(request.json.value) then
      match In("clientToken", request.json.value)
      case Raises => UncaughtErrorReply
      case Returns(true) => HandshakeReply
      case Returns(false) => Authenticate(rbmWebhookSecret, hmacSha256, request)
    else Authenticate(rbmWebhookSecret, hmacSha256, request)
  }

  // ---------------------------------------------------------------------------
  // Properties of the decision chain
  // ---------------------------------------------------------------------------

  /** The payloads `webhook_receiver` does not treat as a handshake: none,
      a falsy one, or one that `in` finds without `clientToken`. */
  predicate SkipsHandshake(json: Option<Value>) {
    json.None? || !Truthy(json.value) || In("clientToken", json.value) == Returns(false)
  }

  /** The signature the receiver accepts, stated on the raw request bytes. */
  function SignatureOverBody(hmacSha256: Digest.Mac, secret: string, body: seq<byte>): string
  {
    Hex.HexDigest(hmacSha256(Utf8.Encode(secret), body))
  }

  /** The handshake reply is sent exactly when the payload is truthy and
      contains `clientToken`; for a dict carrying that key it is sent whatever
      the secret, the signature header and the raw body are. A payload that
      does not skip the handshake test either passes it or, being a truthy
      number or boolean, makes `in` raise before any check. */
  lemma HandshakeFirst(rbmWebhookSecret: Option<string>, hmacSha256: Digest.Mac, request: Request)
    ensures WebhookReceiver(rbmWebhookSecret, hmacSha256, request) == HandshakeReply <==>
      request.json.Some? && Truthy(request.json.value) && In("clientToken", request.json.value) == Returns(true)
    ensures request.json.Some? && request.json.value.Object? && "clientToken" in request.json.value.fields ==>
      WebhookReceiver(rbmWebhookSecret, hmacSha256, request) == HandshakeReply
    ensures !SkipsHandshake(request.json) ==>
      var r := WebhookReceiver(rbmWebhookSecret, hmacSha256, request);
      r == HandshakeReply || (r == UncaughtErrorReply && (request.json.value.Bool? || request.json.value.Number?))
  {
  }

  /** The payload matters only to the handshake test: any two payloads that
      skip it, a missing or falsy one included, get the same reply. */
  lemma PayloadOnlyDecidesHandshake(rbmWebhookSecret: Option<string>, hmacSha256: Digest.Mac,
                                    body: seq<byte>, signature: Option<string>, json1: Option<Value>, json2: Option<Value>)
    requires SkipsHandshake(json1) && SkipsHandshake(json2)
    ensures WebhookReceiver(rbmWebhookSecret, hmacSha256, Request(body, signature, json1))
         == WebhookReceiver(rbmWebhookSecret, hmacSha256, Request(body, signature, json2))
  {
  }

  /** Past the handshake the checks run in a fixed order, each failure final:
      no secret gives 500, no header 403, and then the signature decides.
      The digest is compared over the exact bytes received, since decoding the
      body as UTF-8 and encoding it again gives those bytes back; a body that
      is not UTF-8, or a header with a non-ASCII character, raises instead. */
  lemma CheckOrder(rbmWebhookSecret: Option<string>, hmacSha256: Digest.Mac, request: Request)
    requires SkipsHandshake(request.json)
    ensures var r := WebhookReceiver(rbmWebhookSecret, hmacSha256, request);
      && (rbmWebhookSecret.None? || rbmWebhookSecret == Some("") ==> r == MissingSecretReply)
      && ((rbmWebhookSecret.Some? && rbmWebhookSecret.value != "" &&
           (request.signature.None? || request.signature == Some(""))) ==> r == MissingSignatureReply)
    ensures var r := WebhookReceiver(rbmWebhookSecret, hmacSha256, request);
      rbmWebhookSecret.Some? && rbmWebhookSecret.value != "" &&
      request.signature.Some? && request.signature.value != "" ==>
        var expected := SignatureOverBody(hmacSha256, rbmWebhookSecret.value, request.body);
        var signature := request.signature.value;
        && (r == ProcessedReply <==> Utf8.Decode(request.body).Some? && signature == expected)
        && (r == InvalidSignatureReply <==>
              Utf8.Decode(request.body).Some? && IsAscii(signature) && signature != expected)
        && (r == UncaughtErrorReply <==> Utf8.Decode(request.body).None? || !IsAscii(signature))
  {
    if Utf8.Decode(request.body).Some? {
      Utf8.EncodeDecode(request.body);
    }
  }

  /** With the secret configured, a well-formed body and no handshake, the
      correctly computed digest is processed, and the same digest with its
      letters upper-cased is refused as an invalid signature. */
  lemma SignedRequestRoundTrip(secret: string, hmacSha256: Digest.Mac, body: string, json: Option<Value>)
    requires secret != "" && Digest.HasLength(hmacSha256, 32) && SkipsHandshake(json)
    ensures var expected := SignatureOverBody(hmacSha256, secret, Utf8.Encode(body));
      WebhookReceiver(Some(secret), hmacSha256, Request(Utf8.Encode(body), Some(expected), json)) == ProcessedReply
    ensures var expected := SignatureOverBody(hmacSha256, secret, Utf8.Encode(body));
      (exists i :: 0 <= i < |expected| && 'a' <= expected[i] <= 'f') ==>
        WebhookReceiver(Some(secret), hmacSha256, Request(Utf8.Encode(body), Some(Hex.Upper(expected)), json))
          == InvalidSignatureReply
  {
    Utf8.DecodeEncode(body);
    var expected := SignatureOverBody(hmacSha256, secret, Utf8.Encode(body));
    CheckOrder(Some(secret), hmacSha256, Request(Utf8.Encode(body), Some(expected), json));
    if i :| 0 <= i < |expected| && 'a' <= expected[i] <= 'f' {
      var digest := hmacSha256(Utf8.Encode(secret), Utf8.Encode(body));
      Hex.HexDigestShape(digest);
      Hex.UpperChangesDigest(digest, i);
      CheckOrder(Some(secret), hmacSha256, Request(Utf8.Encode(body), Some(Hex.Upper(expected)), json));
    }
  }
}
