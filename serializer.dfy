/**
 * The reply serializer: how an outgoing message and the inbound message it
 * answers become the payload map (TwilioMessageDriver::buildServicePayload).
 */
module Serializer {
  import opened Wrappers
  import opened BotMan
  import opened Payloads

  /** True when the message is a generic outgoing message whose attachment is
      present and is not a location: the only case that sets `media`. */
  predicate CarriesMedia(message: OutgoingMessage)
  {
    message.Outgoing? && message.attachment.Some? && !message.attachment.value.Location?
  }

  /** The text a reply carries: empty for a raw markup response, null for a
      generic message without text. */
  function ReplyText(message: OutgoingMessage): Value
  {
    match message
    case Plain(s) => Str(s)
    case Question(t, _) => Str(t)
    case Twiml(_) => Str("")
    case Outgoing(t, _) => OptionalString(t)
  }

  /** The entries a message's kind contributes beside `text` and `recipient`. */
  function KindEntries(message: OutgoingMessage): map<string, Value>
  {
    match message
    case Question(_, buttons) => map["buttons" := ButtonList(buttons.GetOr([]))]
    case Twiml(d) => map["buttons" := ButtonList([]), "twiml" := TwimlDoc(d)]
    case Outgoing(_, attachment) =>
      if CarriesMedia(message)
      then map["buttons" := ButtonList([]), "media" := Str(attachment.value.url)]
      else map["buttons" := ButtonList([])]
    case Plain(_) => map["buttons" := ButtonList([])]
  }

  /** The keys the serializer writes whatever the caller supplied. */
  const RESERVED: set<string> := {"buttons", "text", "recipient", "twiml", "media"}

  /**
   * The payload for `message` in reply to `matching`: the caller's parameters,
   * overwritten by the entries of the message's kind and then by `text` and
   * `recipient` (the last writer wins).
   */
  function ServicePayload(message: OutgoingMessage, matching: IncomingMessage, additional: Payload): (p: Payload)
    // exactly these keys, and no others
    ensures p.Keys == additional.Keys + {"buttons", "text", "recipient"}
                      + (if message.Twiml? then {"twiml"} else {})
                      + (if CarriesMedia(message) then {"media"} else {})
    // the reply goes back to whoever sent the inbound message
    ensures p["recipient"] == OptionalString(matching.sender)
    // text and buttons by kind
    ensures message.Plain? ==> p["text"] == Str(message.s) && p["buttons"] == ButtonList([])
    ensures message.Question? ==> p["text"] == Str(message.text)
                                  && p["buttons"] == ButtonList(if message.buttons.Some? then message.buttons.value else [])
    ensures message.Twiml? ==> p["text"] == Str("") && p["buttons"] == ButtonList([])
                               && p["twiml"] == TwimlDoc(message.doc)
    ensures message.Outgoing? ==> p["text"] == OptionalString(message.content) && p["buttons"] == ButtonList([])
    ensures CarriesMedia(message) ==> p["media"] == Str(message.attachment.value.url)
    // `twiml` and `media` survive from the caller unless the kind overwrites them
    ensures !message.Twiml? && "twiml" in additional ==> p["twiml"] == additional["twiml"]
    ensures !CarriesMedia(message) && "media" in additional ==> p["media"] == additional["media"]
    // every other caller key is kept unchanged
    ensures forall k :: k in additional && k !in RESERVED ==> p[k] == additional[k]
  {
    additional + KindEntries(message)
    + map["text" := ReplyText(message), "recipient" := OptionalString(matching.sender)]
  }
}
