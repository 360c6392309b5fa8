/** The webhook of `app.py`: an optional HMAC-SHA512 signature check, then
    classification of the JSON payload by its top-level keys, the endpoint
    verification handshake, and dispatch to one handler per event type.
    The module-level `SECRET_KEY` is the parameter `secretKey`; the empty
    string stands for an unset `GOOGLE_WEBHOOK_SECRET`. */
module App {
  import opened Json
  import opened Python
  import Utf8
  import Base64
  import Digest

  // ---------------------------------------------------------------------------
  // Signature verification
  // ---------------------------------------------------------------------------

  /** The header value `verify_signature` accepts: the padded base64 of the
      HMAC-SHA512 of the raw body, keyed with the UTF-8 bytes of the secret. */
  function ExpectedSignature(hmacSha512: Digest.Mac, secretKey: string, requestData: seq<byte>): string
  {
    Base64.Encode(hmacSha512(Utf8.Encode(secretKey), requestData))
  }

  /** `verify_signature`. With no secret configured every request passes
      (validation mode); otherwise an absent or empty header fails, and a
      present one passes exactly when it equals the expected signature. The
      `TypeError` that `compare_digest` raises on a non-ASCII header is caught
      and yields false, so the function never raises. */
  function VerifySignature(secretKey: string, hmacSha512: Digest.Mac, requestData: seq<byte>,
                           signatureHeader: Option<string>): (ok: bool)
    ensures secretKey == "" ==> ok
    ensures secretKey != "" && (signatureHeader == None || signatureHeader == Some("")) ==> !ok
    ensures secretKey != "" && signatureHeader.Some? && signatureHeader.value != "" ==>
      (ok <==> signatureHeader.value == ExpectedSignature(hmacSha512, secretKey, requestData))
  {
    if secretKey == "" then true
    else if signatureHeader.None? || signatureHeader.value == "" then false
    else
      var expected := ExpectedSignature(hmacSha512, secretKey, requestData);
      Base64.EncodeShape(hmacSha512(Utf8.Encode(secretKey), requestData));
      match Digest.CompareDigest(expected, signatureHeader.value)
      case Returns(isValid) => isValid
      case Raises => false
  }

  /** With a secret configured, the correctly computed signature is accepted
      and every other header value is rejected. */
  lemma SignatureRoundTrip(secretKey: string, hmacSha512: Digest.Mac, requestData: seq<byte>, header: string)
    requires secretKey != "" && Digest.HasLength(hmacSha512, 64)
    ensures VerifySignature(secretKey, hmacSha512, requestData, Some(ExpectedSignature(hmacSha512, secretKey, requestData)))
    ensures header != ExpectedSignature(hmacSha512, secretKey, requestData) ==>
      !VerifySignature(secretKey, hmacSha512, requestData, Some(header))
  {
    Base64.EncodeShape(hmacSha512(Utf8.Encode(secretKey), requestData));
  }

  /** A 64-byte digest has an 88-character encoding, so with a secret set any
      header of another length is rejected. */
  lemma SignatureLength(secretKey: string, hmacSha512: Digest.Mac, requestData: seq<byte>, header: string)
    requires secretKey != "" && Digest.HasLength(hmacSha512, 64) && |header| != 88
    ensures !VerifySignature(secretKey, hmacSha512, requestData, Some(header))
  {
    Base64.EncodeShape(hmacSha512(Utf8.Encode(secretKey), requestData));
  }

  // ---------------------------------------------------------------------------
  // Classification
  // ---------------------------------------------------------------------------

  /** The five answers of `detect_event_type`. */
  datatype EventType = Message | UserStatus | Receipt | SuggestionResponse | Unknown

  /** `detect_event_type`: the first of `message`, `userStatus`, `receipt`,
      `suggestionResponse` that is `in` the payload. On a dict that is key
      membership; Python's `in` also accepts a list or a string and raises on
      a number or a boolean. */
  function DetectEventType(data: Value): (r: Outcome<EventType>)
    ensures r.Raises? <==> data.Null? || data.Bool? || data.Number?
    ensures r.Returns? ==>
      && (r.value == Message <==> Contains(data, "message"))
      && (r.value == UserStatus <==> !Contains(data, "message") && Contains(data, "userStatus"))
      && (r.value == Receipt <==>
            !Contains(data, "message") && !Contains(data, "userStatus") && Contains(data, "receipt"))
      && (r.value == SuggestionResponse <==>
            && !Contains(data, "message") && !Contains(data, "userStatus") && !Contains(data, "receipt")
            && Contains(data, "suggestionResponse"))
    ensures data.Object? ==> r.Returns? && var f := data.fields;
      && (r.value == Message <==> "message" in f)
      && (r.value == UserStatus <==> "message" !in f && "userStatus" in f)
      && (r.value == Receipt <==> "message" !in f && "userStatus" !in f && "receipt" in f)
      && (r.value == SuggestionResponse <==>
            "message" !in f && "userStatus" !in f && "receipt" !in f && "suggestionResponse" in f)
      && (r.value == Unknown <==>
            "message" !in f && "userStatus" !in f && "receipt" !in f && "suggestionResponse" !in f)
  {
    var isMessage :- In("message", data);
    if isMessage then Returns(Message)
    else
      var isUserStatus :- In("userStatus", data);
      if isUserStatus then Returns(UserStatus)
      else
        var isReceipt :- In("receipt", data);
        if isReceipt then Returns(Receipt)
        else
          var isSuggestion :- In("suggestionResponse", data);
          if isSuggestion then Returns(SuggestionResponse) else Returns(Unknown)
  }

  // ---------------------------------------------------------------------------
  // Handlers: what each one reads from the payload, with its defaults
  // ---------------------------------------------------------------------------

  /** The kind of content `handle_message` recognises in `message`. */
  datatype Content =
    | Text(text: Value)
    | RichCard(card: Value)
    | StandaloneCard(card: Value)
    | Unrecognised

  datatype MessageInfo = MessageInfo(sender: Value, messageId: Value, sendTime: Value, content: Content)
  datatype UserStatusInfo = UserStatusInfo(sender: Value, isTyping: bool)
  datatype ReceiptInfo = ReceiptInfo(messageId: Value, receiptType: Value, sendTime: Value)
  datatype SuggestionInfo = SuggestionInfo(sender: Value, text: Value, postbackData: Value)

  const EmptyDict := Object(map[])

  /** The content branch of `handle_message`, on the dict under `message`. */
  function MessageContent(messageContent: Value): Outcome<Content>
  {
    var hasText :- In("textEvent", messageContent);
    if hasText then
      var textData :- Get(messageContent, "textEvent", EmptyDict);
      var text :- Get(textData, "text", Str("Mensaje sin texto"));
      Returns(Text(text))
    else
      var hasRichCard :- In("richCardEvent", messageContent);
      if hasRichCard then
        var card :- Get(messageContent, "richCardEvent", EmptyDict);
        Returns(RichCard(card))
      else
        var hasStandalone :- In("standaloneCardEvent", messageContent);
        if hasStandalone then
          var card :- Get(messageContent, "standaloneCardEvent", EmptyDict);
          Returns(StandaloneCard(card))
        else Returns(Unrecognised)
  }

  /** The payload shapes on which `handle_message` completes: every `.get` it
      makes is made on a dict. */
  predicate MessageShapeOk(data: Value) {
    && data.Object?
    && ("senderInformation" in data.fields ==> data.fields["senderInformation"].Object?)
    && ("message" in data.fields ==> data.fields["message"].Object?)
    && var mc := FieldsOf(Lookup(data.fields, "message", EmptyDict));
       ("textEvent" in mc ==> mc["textEvent"].Object?)
  }

  /** `handle_message`. The sender is a truthy
      `senderInformation.senderPhoneNumber`, else the top-level
      `senderPhoneNumber`, else `Desconocido`; the content kind is the first of
      `textEvent`, `richCardEvent`, `standaloneCardEvent` present in `message`,
      and a text without `text` reads `Mensaje sin texto`. A `.get` on a value
      that is not a dict raises. */
  function HandleMessage(data: Value): (r: Outcome<MessageInfo>)
    ensures r.Returns? <==> MessageShapeOk(data)
    ensures r.Returns? ==>
      var f := data.fields;
      var nested := Lookup(FieldsOf(Lookup(f, "senderInformation", EmptyDict)), "senderPhoneNumber", Null);
      var mc := FieldsOf(Lookup(f, "message", EmptyDict));
      && r.value.sender == (if Truthy(nested) then nested else Lookup(f, "senderPhoneNumber", Str("Desconocido")))
      && r.value.messageId == Lookup(mc, "messageId", Str("ID_No_Disponible"))
      && r.value.sendTime == Lookup(f, "sendTime", Str("Timestamp_No_Disponible"))
      && (r.value.content.Text? <==> "textEvent" in mc)
      && (r.value.content.RichCard? <==> "textEvent" !in mc && "richCardEvent" in mc)
      && (r.value.content.StandaloneCard? <==>
            "textEvent" !in mc && "richCardEvent" !in mc && "standaloneCardEvent" in mc)
      && (r.value.content.Text? ==>
            r.value.content.text == Lookup(mc["textEvent"].fields, "text", Str("Mensaje sin texto")))
      && (r.value.content.RichCard? ==> r.value.content.card == mc["richCardEvent"])
      && (r.value.content.StandaloneCard? ==> r.value.content.card == mc["standaloneCardEvent"])
  {
    var senderInfo :- Get(data, "senderInformation", EmptyDict);
    var nested :- Get(senderInfo, "senderPhoneNumber", Null);
    var sender :- if Truthy(nested) then Returns(nested) else Get(data, "senderPhoneNumber", Str("Desconocido"));
    var messageContent :- Get(data, "message", EmptyDict);
    var messageId :- Get(messageContent, "messageId", Str("ID_No_Disponible"));
    var timestamp :- Get(data, "sendTime", Str("Timestamp_No_Disponible"));
    var content :- MessageContent(messageContent);
    Returns(MessageInfo(sender, messageId, timestamp, content))
  }

  /** `handle_user_status`: the sender defaults to `Unknown`, and the user is
      typing exactly when `userStatus.isTyping` is truthy (absent means not). */
  function HandleUserStatus(data: Value): (r: Outcome<UserStatusInfo>)
    ensures r.Returns? <==>
      data.Object? && ("userStatus" in data.fields ==> data.fields["userStatus"].Object?)
    ensures r.Returns? ==>
      && r.value.sender == Lookup(data.fields, "senderPhoneNumber", Str("Unknown"))
      && (r.value.isTyping <==>
            "userStatus" in data.fields && "isTyping" in data.fields["userStatus"].fields
            && Truthy(data.fields["userStatus"].fields["isTyping"]))
  {
    var userStatus :- Get(data, "userStatus", EmptyDict);
    var senderId :- Get(data, "senderPhoneNumber", Str("Unknown"));
    var isTyping :- Get(userStatus, "isTyping", Bool(false));
    Returns(UserStatusInfo(senderId, Truthy(isTyping)))
  }

  /** `handle_receipt`: message id and receipt type default to `Unknown`,
      the timestamp to the empty string. */
  function HandleReceipt(data: Value): (r: Outcome<ReceiptInfo>)
    ensures r.Returns? <==>
      data.Object? && ("receipt" in data.fields ==> data.fields["receipt"].Object?)
    ensures r.Returns? ==>
      var receipt := FieldsOf(Lookup(data.fields, "receipt", EmptyDict));
      && r.value.messageId == Lookup(receipt, "messageId", Str("Unknown"))
      && r.value.receiptType == Lookup(receipt, "receiptType", Str("Unknown"))
      && r.value.sendTime == Lookup(data.fields, "sendTime", Str(""))
  {
    var receipt :- Get(data, "receipt", EmptyDict);
    var messageId :- Get(receipt, "messageId", Str("Unknown"));
    var receiptType :- Get(receipt, "receiptType", Str("Unknown"));
    var timestamp :- Get(data, "sendTime", Str(""));
    Returns(ReceiptInfo(messageId, receiptType, timestamp))
  }

  /** `handle_suggestion_response`: the sender defaults to `Unknown`, the
      postback data and the text to the empty string. */
  function HandleSuggestionResponse(data: Value): (r: Outcome<SuggestionInfo>)
    ensures r.Returns? <==>
      data.Object? && ("suggestionResponse" in data.fields ==> data.fields["suggestionResponse"].Object?)
    ensures r.Returns? ==>
      var response := FieldsOf(Lookup(data.fields, "suggestionResponse", EmptyDict));
      && r.value.sender == Lookup(data.fields, "senderPhoneNumber", Str("Unknown"))
      && r.value.postbackData == Lookup(response, "postbackData", Str(""))
      && r.value.text == Lookup(response, "text", Str(""))
  {
    var suggestionResponse :- Get(data, "suggestionResponse", EmptyDict);
    var senderId :- Get(data, "senderPhoneNumber", Str("Unknown"));
    var postbackData :- Get(suggestionResponse, "postbackData", Str(""));
    var text :- Get(suggestionResponse, "text", Str(""));
    Returns(SuggestionInfo(senderId, text, postbackData))
  }

  // ---------------------------------------------------------------------------
  // The request decision chain
  // ---------------------------------------------------------------------------

  /** A handler that ran to completion, with what it read. */
  datatype Handled =
    | MessageHandled(message: MessageInfo)
    | UserStatusHandled(userStatus: UserStatusInfo)
    | ReceiptHandled(receipt: ReceiptInfo)
    | SuggestionHandled(suggestion: SuggestionInfo)
  {
    function Event(): EventType {
      match this
      case MessageHandled(_) => Message
      case UserStatusHandled(_) => UserStatus
      case ReceiptHandled(_) => Receipt
      case SuggestionHandled(_) => SuggestionResponse
    }
  }

  /** Which handler a request reached: none, one that completed, or one that
      raised part-way (its exception is caught by `webhook`). */
  datatype Dispatch = NotDispatched | Completed(handled: Handled) | Faulted(event: EventType)

  /** What `request.get_json()` produced: a value, `None` (no JSON body), or
      an abstract parse failure, answered as `webhook`'s `json.JSONDecodeError`
      branch answers it. */
  datatype JsonParse = Parsed(value: Value) | Absent | Malformed

  datatype Request = Request(body: seq<byte>, signature: Option<string>, json: JsonParse)

  /** The HTTP status, the JSON reply body, and the handler reached. */
  datatype Reply = Reply(status: int, body: Value, handler: Dispatch)

  const SuccessBody := Single("status", "success")
  const InternalErrorBody := Single("error", "Internal server error")

  /** The handler `webhook` calls for a classified event. */
  function Handle(event: EventType, data: Value): (r: Outcome<Handled>)
    requires event != Unknown
    ensures r.Returns? ==> r.value.Event() == event
  {
    match event
    case Message =>
      var m :- HandleMessage(data); Returns(MessageHandled(m))
    case UserStatus =>
      var s :- HandleUserStatus(data); Returns(UserStatusHandled(s))
    case Receipt =>
      var s :- HandleReceipt(data); Returns(ReceiptHandled(s))
    case SuggestionResponse =>
      var s :- HandleSuggestionResponse(data); Returns(SuggestionHandled(s))
  }

  /** The handshake test of `webhook`: `event_type == 'unknown' and
      'clientToken' in data and 'secret' in data`, left to right. */
  function IsHandshake(event: EventType, data: Value): Outcome<bool>
  {
    if event != Unknown then Returns(false)
    else
      var hasToken :- In("clientToken", data);
      if hasToken then In("secret", data) else Returns(false)
  }

  /** The handshake reply: `data.get('secret')`, after which
      `data.get('clientToken')` is also read. */
  function Echo(data: Value): Outcome<Value>
  {
    var secret :- Get(data, "secret", Null);
    var _ :- Get(data, "clientToken", Null);
    Returns(secret)
  }

  /** Everything `webhook` does after a truthy payload has been parsed. */
  function Route(data: Value): Reply
  {
    match DetectEventType(data)
    case Raises => Reply(500, InternalErrorBody, NotDispatched)
    case Returns(event) =>
      match IsHandshake(event, data)
      case Raises => Reply(500, InternalErrorBody, NotDispatched)
      case Returns(true) =>
        (match Echo(data)
         case Raises => Reply(500, InternalErrorBody, NotDispatched)
         case Returns(secret) => Reply(200, Object(map["secret" := secret]), NotDispatched))
      case Returns(false) =>
        if event == Unknown then
          // the warning for an unknown event lists `data.keys()`, which only a dict has
          if data.Object? then Reply(200, SuccessBody, NotDispatched)
          else Reply(500, InternalErrorBody, NotDispatched)
        else
          match Handle(event, data)
          case Raises => Reply(500, InternalErrorBody, Faulted(event))
          case Returns(handled) => Reply(200, SuccessBody, Completed(handled))
  }

  /** `webhook`: signature first (401), then the parsed body (400), then
      classification, the handshake echo and dispatch; any exception after
      the signature check is caught and answered with 500. */
  function Webhook(secretKey: string, hmacSha512: Digest.Mac, request: Request): (r: Reply)
    ensures r.status in {200, 400, 401, 500} && r.body.Object?
    ensures r.status == 401 <==> !VerifySignature(secretKey, hmacSha512, request.body, request.signature)
    ensures r.status == 401 ==> r == Reply(401, Single("error", "Invalid signature"), NotDispatched)
    ensures r.status == 400 <==>
      && VerifySignature(secretKey, hmacSha512, request.body, request.signature)
      && (request.json.Parsed? ==> !Truthy(request.json.value))
    ensures r.status == 400 ==>
      && r.handler == NotDispatched
      && r.body == Single("error", if request.json.Malformed? then "Invalid JSON" else "No data received")
    ensures r.handler != NotDispatched ==>
      && VerifySignature(secretKey, hmacSha512, request.body, request.signature)
      && request.json.Parsed? && Truthy(request.json.value)
    ensures r.handler.Completed? ==> request.json.value.Object?
    ensures r.status == 200 ==> request.json.Parsed? && request.json.value.Object?
  {
    if !VerifySignature(secretKey, hmacSha512, request.body, request.signature) then
      Reply(401, Single("error", "Invalid signature"), NotDispatched)
    else
      match request.json
      case Malformed => Reply(400, Single("error", "Invalid JSON"), NotDispatched)
      case Absent => Reply(400, Single("error", "No data received"), NotDispatched)
      case Parsed(data) =>
        if !Truthy(data) then Reply(400, Single("error", "No data received"), NotDispatched)
        else Route(data)
  }

  // ---------------------------------------------------------------------------
  // Properties of the decision chain
  // ---------------------------------------------------------------------------

  /** A payload carrying one of the four event keys. */
  predicate HasEventKey(fields: map<string, Value>) {
    "message" in fields || "userStatus" in fields || "receipt" in fields || "suggestionResponse" in fields
  }

  /** The payloads `webhook` answers with the handshake echo: dicts that carry
      `clientToken` and `secret` and no event key. */
  predicate IsHandshakePayload(data: Value) {
    data.Object? && !HasEventKey(data.fields) && "clientToken" in data.fields && "secret" in data.fields
  }

  /** The echo `{'secret': data['secret']}` is sent exactly for a verified
      request whose payload is a handshake payload. A payload that also
      carries an event key is classified, not echoed, and a list or string
      that merely contains both names makes `data.get` raise. */
  lemma HandshakeEcho(secretKey: string, hmacSha512: Digest.Mac, request: Request)
    ensures var r := Webhook(secretKey, hmacSha512, request);
      ("secret" in r.body.fields <==>
        && VerifySignature(secretKey, hmacSha512, request.body, request.signature)
        && request.json.Parsed? && IsHandshakePayload(request.json.value))
    ensures var r := Webhook(secretKey, hmacSha512, request);
      "secret" in r.body.fields ==>
        r == Reply(200, Object(map["secret" := request.json.value.fields["secret"]]), NotDispatched)
  {
  }

  /** The handler reached is always the one for the payload's classification,
      and it is reached only past the signature check and the handshake: a
      completed handler gives 200 `success`, a faulting one 500. */
  lemma DispatchMatchesClassification(secretKey: string, hmacSha512: Digest.Mac, request: Request)
    ensures var r := Webhook(secretKey, hmacSha512, request);
      r.handler != NotDispatched ==>
        && VerifySignature(secretKey, hmacSha512, request.body, request.signature)
        && request.json.Parsed? && !IsHandshakePayload(request.json.value)
        && var event := DetectEventType(request.json.value);
           && event.Returns? && event.value != Unknown
           && (r.handler.Completed? ==> r.handler.handled.Event() == event.value && r.status == 200 && r.body == SuccessBody)
           && (r.handler.Faulted? ==> r.handler.event == event.value && r.status == 500 && r.body == InternalErrorBody)
  {
  }

  /** For a verified, non-empty dict payload that is not a handshake: an
      unclassified payload is acknowledged with no handler, and a classified
      one runs its handler, which completes exactly when its `.get` calls all
      land on dicts. Such a payload gets 500 only from a faulting handler. */
  lemma ObjectPayloadDispatch(secretKey: string, hmacSha512: Digest.Mac, request: Request)
    requires VerifySignature(secretKey, hmacSha512, request.body, request.signature)
    requires request.json.Parsed? && request.json.value.Object? && |request.json.value.fields| > 0
    requires !IsHandshakePayload(request.json.value)
    ensures var r := Webhook(secretKey, hmacSha512, request);
      var data := request.json.value;
      var event := DetectEventType(data).value;
      && (event == Unknown ==> r == Reply(200, SuccessBody, NotDispatched))
      && (event != Unknown ==>
            && (r.handler.Completed? <==> Handle(event, data).Returns?)
            && (r.handler.Completed? ==> r == Reply(200, SuccessBody, Completed(Handle(event, data).value)))
            && (!r.handler.Completed? ==> r == Reply(500, InternalErrorBody, Faulted(event))))
  {
  }

  /** A verified, truthy payload that is not a dict never gets 200: a number
      or boolean makes `in` raise, a list or string makes every handler's
      `data.get` raise, and an unclassified one fails on `data.keys()`. */
  lemma NonDictPayload(secretKey: string, hmacSha512: Digest.Mac, request: Request)
    requires VerifySignature(secretKey, hmacSha512, request.body, request.signature)
    requires request.json.Parsed? && Truthy(request.json.value) && !request.json.value.Object?
    ensures var r := Webhook(secretKey, hmacSha512, request);
      r.status == 500 && r.body == InternalErrorBody && !r.handler.Completed?
  {
  }

  /** A verified list or string in which no event name is found is answered
      with 500 and reaches no handler, whether or not it names `clientToken`
      and `secret`. */
  lemma UnclassifiedListOrString(secretKey: string, hmacSha512: Digest.Mac, request: Request)
    requires VerifySignature(secretKey, hmacSha512, request.body, request.signature)
    requires request.json.Parsed? && (request.json.value.Array? || request.json.value.Str?)
    requires Truthy(request.json.value) && DetectEventType(request.json.value) == Returns(Unknown)
    ensures Webhook(secretKey, hmacSha512, request) == Reply(500, InternalErrorBody, NotDispatched)
  {
  }

  /** A message whose text sits directly at `message.text`, sent with no
      secret configured: it is acknowledged and `handle_message` runs, but only
      `message.textEvent.text` is read as text, so the content is unrecognised. */
  lemma FlatTextMessage(hmacSha512: Digest.Mac, body: seq<byte>)
    ensures var data := Object(map[
        "message" := Object(map["messageId" := Str("m1"), "text" := Str("hola")]),
        "senderPhoneNumber" := Str("+1555"),
        "sendTime" := Str("t1")]);
      Webhook("", hmacSha512, Request(body, None, Parsed(data)))
        == Reply(200, SuccessBody, Completed(MessageHandled(MessageInfo(Str("+1555"), Str("m1"), Str("t1"), Unrecognised))))
  {
  }
}
