# Twilio message driver: a verified model

This project models the Twilio SMS/MMS message driver for the BotMan chatbot
framework (`TwilioMessageDriver`). It covers three jobs:

- Inbound: it decides whether a webhook request belongs to the driver, turns
  the webhook's `Body`/`From`/`To` parameters into one incoming message, and
  caches that message for the rest of the request.
- Serializing: it turns one of four kinds of outgoing reply into a payload
  map. The kinds are a plain string, a question with buttons, a raw Twiml
  response, and a generic message with an optional attachment.
- Dispatching: it picks one of three replies for a payload. With no webhook
  request to answer, the reply is an SMS through the provider's API. When the
  payload carries `twiml`, that markup is returned as it is. Otherwise the
  driver builds a markup message whose body is the text and then one line per
  button.

Modules:

- `BotMan`: the framework's records as plain values.
- `Payloads`: payload values and PHP's reading rules. A missing key reads as
  null, `isset` is false for null, and `ToText` is the string cast.
- `Serializer`: `ServicePayload`, the payload as a function of the reply.
- `Dispatcher`: `Dispatch`, the branch a payload leads to, and `MarkupBody`,
  the body fold.
- `TwilioMessage`: the driver class. It has the webhook parameters, the
  request flag and the message cache. Its methods follow `buildServicePayload` and
  `sendPayload` step by step and are proved equal to the functions above.
- `Replies`: lemmas about what a recipient receives for each kind of reply.

Values the parent driver supplies are inputs: the webhook parameters, whether
there is a request URI, and whether the signature is valid.

## Model

| member | source | states |
|---|---|---|
| `Serializer.ServicePayload` | src/TwilioMessageDriver.php:73-99 | The payload's keys are exactly the caller's keys plus `buttons`, `text` and `recipient`, plus `twiml` for a raw response and `media` for a non-location attachment. `recipient` is the inbound sender. `text` and `buttons` are set for each message kind, and a missing question button list becomes `[]`. A generic message's null text is stored as null. `twiml` and `media` keep the caller's value unless the kind overwrites them. Every other caller key is unchanged. |
| `TwilioMessage.TwilioMessageDriver.BuildServicePayload` | src/TwilioMessageDriver.php:73-99 | Assigning the keys one at a time, in `buildServicePayload`'s order, gives exactly `ServicePayload`. |
| `Dispatcher.Dispatch` | src/TwilioMessageDriver.php:105-134 | The branch order: with no request URI, an SMS of the payload's `recipient` and `text`, whatever else the payload holds. Otherwise a set `twiml` is returned verbatim. Otherwise the result is markup whose body is the text followed by each button's line, with media present exactly when `media` is set. |
| `TwilioMessage.TwilioMessageDriver.SendPayload` | src/TwilioMessageDriver.php:105-134 | The method, whose loop appends one button line at a time, returns exactly `Dispatch` for the driver's request flag. |
| `Dispatcher.MarkupBodyIsTextThenLines` | src/TwilioMessageDriver.php:120-124 | The body the loop builds equals the text followed by `"\n" + label` for each button in order. With no buttons the body is exactly the text. |
| `Dispatcher.MarkupBodyLines` | src/TwilioMessageDriver.php:120-125 | If neither the text nor any label contains a newline, splitting the body at newlines gives back the text and then each button label, in order. |
| `TwilioMessage.TwilioMessageDriver.GetMessages` | src/TwilioMessageDriver.php:48-57 | An empty cache is filled with exactly one message built from the event and returned. A non-empty cache is returned unchanged. The cache is never empty after a call, so repeated calls return the same messages. |
| `TwilioMessage.MessageFromEvent` | src/TwilioMessageDriver.php:51 | The message's text, sender and recipient are the event's `Body`, `From` and `To`. Each is null when the webhook did not send it. |
| `TwilioMessage.TwilioMessageDriver.MatchesRequest` | src/TwilioMessageDriver.php:26-29 | Without a `MessageSid` parameter the request never matches. With one, it matches exactly when the signature is valid. |
| `TwilioMessage.TwilioMessageDriver.ConversationAnswer` | src/TwilioMessageDriver.php:35-41 | The answer's text and value are the message's text, it is marked as an interactive reply, and it refers back to the message. |
| `TwilioMessage.TwilioMessageDriver.HasMatchingEvent` | src/TwilioMessageDriver.php:62-65 | The driver reports no matching structured event. |
| `Replies.OfflineReplyIsSms` | src/TwilioMessageDriver.php:95-96 | With no request URI, every serialized reply is sent as an SMS to the inbound sender, carrying the reply's text. |
| `Replies.TwimlReplyIsVerbatim` | src/TwilioMessageDriver.php:83-84 | When the driver answers a webhook request, a serialized raw Twiml reply is sent back as its own markup, whatever the caller's parameters hold. |
| `Replies.PlainReplyRoundTrip` | src/TwilioMessageDriver.php:91-93 | When the driver answers a webhook request, a plain string whose caller parameters set no `twiml` or `media` comes out as a markup message whose body is exactly that string, with no media. |
| `Replies.QuestionReplyBody` | src/TwilioMessageDriver.php:80-82 | When the driver answers a webhook request and the caller sets no `twiml`, a question comes out as its text followed by one line per button. A question with no buttons, or with a null button list, comes out as just its text. |
| `Replies.OutgoingReplyMedia` | src/TwilioMessageDriver.php:85-90 | When the driver answers a webhook request and the caller sets no `twiml`, a generic message comes out as its text, or as the empty string when its text is null. With a URL attachment, that URL is the media. With a location or no attachment, only media set by the caller is attached. |

## Left out

- `sendSms` is a network call plus a cache write, and it reads the account
  id, token and sender number from configuration. The model represents it
  only by the `SendSms(recipient, text)` reply it leads to.
- The dispatcher's HTTP output (`Response::create(...)->send()`) and its
  debug log line are not modelled. Neither is the fixed placeholder body that
  the SMS branch returns, since it carries no meaning.
- Twiml document generation and its XML serialization belong to an external
  library. The model keeps only the body and media handed to it. A raw Twiml
  response is known only by the text it serializes to.
- Signature checking, the webhook parameter bag and the request URI belong
  to the parent `TwilioDriver`, which is not part of this model. They appear
  as the `signatureValid` input and the `event` and `hasRequestUri`
  constants, fixed for the life of a request.
- The BotMan classes `Answer`, `IncomingMessage`, `Question`,
  `OutgoingMessage`, `Button` and attachments are records holding only the
  fields used here.
- `Payloads.ButtonsOf`: a `buttons` value that is neither a list nor null
  counts as no buttons. In PHP, casting such a value to an array and reading
  `text` from each element would fail or read object properties, and that is
  not modelled.
- `Payloads.ToText`: converting an array to a string gives "Array", as in
  PHP. The warning PHP raises for this is not modelled.
- `Dispatcher.Dispatch`: when there are no buttons, `sendPayload` passes the
  raw `text` value to the markup library unconverted. The model converts it
  with `ToText` up front, so a null text becomes the empty string. How the
  markup library itself treats a null or non-string body is not modelled.
  In the SMS branch the raw `text` value, null included, is what is sent.
- `Serializer.ServicePayload`: a plain reply is modelled as a string only.
  Other values reaching the fallback branch, such as the incoming message
  that `buildServicePayload`'s doc comment allows, are not modelled. A
  question's text is modelled as a non-null string. A generic outgoing
  message's text may be null.
