/** Where the two receivers deliberately disagree: when the endpoint
    handshake is answered, and what a missing secret means. */
module Policies {
  import opened Json
  import opened Python
  import Digest
  import App
  import ServerFlask

  /** With a secret configured and no signature header, a handshake payload is
      refused by `app.py`, which checks the signature first, and answered by
      `server_flask.py`, which looks at `clientToken` before anything else. */
  lemma HandshakeOrder(secret: string, hmacSha512: Digest.Mac, hmacSha256: Digest.Mac,
                       body: seq<byte>, fields: map<string, Value>)
    requires secret != "" && "clientToken" in fields && "secret" in fields
    ensures App.Webhook(secret, hmacSha512, App.Request(body, None, App.Parsed(Object(fields)))).status == 401
    ensures ServerFlask.WebhookReceiver(Some(secret), hmacSha256, ServerFlask.Request(body, None, Some(Object(fields))))
         == ServerFlask.HandshakeReply
  {
  }

  /** A payload that carries an event key as well as `clientToken` and
      `secret` is dispatched by `app.py` (once verified) and never echoed,
      while `server_flask.py` treats it as a handshake. */
  lemma ClassifiedHandshake(secret: string, hmacSha512: Digest.Mac, hmacSha256: Digest.Mac,
                            request: App.Request, fields: map<string, Value>)
    requires request.json == App.Parsed(Object(fields)) && "message" in fields
    requires "clientToken" in fields && "secret" in fields
    requires App.VerifySignature(secret, hmacSha512, request.body, request.signature)
    ensures var r := App.Webhook(secret, hmacSha512, request);
      r.handler != App.NotDispatched && "secret" !in r.body.fields
    ensures ServerFlask.WebhookReceiver(Some(secret), hmacSha256, ServerFlask.Request(request.body, request.signature, Some(Object(fields))))
         == ServerFlask.HandshakeReply
  {
  }

  /** Without a secret, `app.py` lets every request through its signature
      check, while `server_flask.py` answers every non-handshake request 500. */
  lemma MissingSecret(hmacSha512: Digest.Mac, hmacSha256: Digest.Mac, body: seq<byte>,
                      signature: Option<string>, json: Option<Value>)
    requires ServerFlask.SkipsHandshake(json)
    ensures App.Webhook("", hmacSha512, App.Request(body, signature, if json.Some? then App.Parsed(json.value) else App.Absent)).status != 401
    ensures ServerFlask.WebhookReceiver(None, hmacSha256, ServerFlask.Request(body, signature, json)) == ServerFlask.MissingSecretReply
    ensures ServerFlask.WebhookReceiver(Some(""), hmacSha256, ServerFlask.Request(body, signature, json)) == ServerFlask.MissingSecretReply
  {
  }
}
