/**
 * The Twilio message driver: the per-request adapter object. The inbound
 * webhook parameters and whether there is a webhook request to answer belong
 * to its parent driver and are fixed for the object's lifetime; the only
 * field it updates itself is its cache of normalised messages.
 */
module TwilioMessage {
  import opened Wrappers
  import opened BotMan
  import opened Payloads
  import opened Serializer
  import opened Dispatcher

  const DRIVER_NAME := "TwilioMessage"

  /** An inbound parameter: null when the webhook did not send it. */
  function Param(event: map<string, string>, key: string): Option<string>
  {
    if key in event then Some(event[key]) else None
  }

  /** The one message a webhook event carries, from its Body, From and To. */
  function MessageFromEvent(event: map<string, string>): (m: IncomingMessage)
    ensures m.text == (if "Body" in event then Some(event["Body"]) else None)
    ensures m.sender == (if "From" in event then Some(event["From"]) else None)
    ensures m.recipient == (if "To" in event then Some(event["To"]) else None)
  {
    IncomingMessage(Param(event, "Body"), Param(event, "From"), Param(event, "To"))
  }

  class TwilioMessageDriver {
    /** The inbound webhook parameters. */
    const event: map<string, string>
    /** Whether the driver runs inside a webhook request it can answer. */
    const hasRequestUri: bool
    /** The memoised normalised messages; empty until first asked for. */
    var messages: seq<IncomingMessage>

    /** The cache is empty or holds exactly the event's message. */
    ghost predicate Valid()
      reads this
    {
      messages == [] || messages == [MessageFromEvent(event)]
    }

    constructor (event: map<string, string>, hasRequestUri: bool)
      ensures this.event == event && this.hasRequestUri == hasRequestUri
      ensures messages == [] && Valid()
    {
      this.event := event;
      this.hasRequestUri := hasRequestUri;
      messages := [];
    }

    /** The request is for this driver exactly when it carries a message id
        and its signature is valid; `signatureValid` is the parent driver's
        verdict on the request signature. */
    predicate MatchesRequest(signatureValid: bool)
      ensures "MessageSid" !in event ==> !MatchesRequest(signatureValid)
      ensures "MessageSid" in event ==> (MatchesRequest(signatureValid) <==> signatureValid)
    {
      "MessageSid" in event && signatureValid
    }

    /** An answer to a previously asked question: its text and value are the
        message's text, and it is marked as an interactive reply. */
    function ConversationAnswer(message: IncomingMessage): (a: Answer)
      ensures a.interactiveReply
      ensures a.text == message.text && a.value == message.text
      ensures a.message == message
    {
      Answer(message.text, message.text, true, message)
    }

    /** This channel has no structured events besides plain messages. */
    function HasMatchingEvent(): (found: bool)
      ensures !found
    {
      false
    }

    /** The event's messages, building and caching them on the first call;
        later calls return the cache as it is. */
    method GetMessages() returns (ms: seq<IncomingMessage>)
      modifies this`messages
      ensures old(messages) == [] ==> messages == [MessageFromEvent(event)]
      ensures old(messages) != [] ==> messages == old(messages)
      ensures ms == messages && ms != []
      ensures old(Valid()) ==> Valid() && ms == [MessageFromEvent(event)]
    {
      if messages == [] {
        var message := IncomingMessage(Param(event, "Body"), Param(event, "From"), Param(event, "To"));
        messages := [message];
      }
      ms := messages;
    }

    /** The payload for `message` in reply to `matching`, assembled key by key
        over the caller's parameters. */
    method BuildServicePayload(message: OutgoingMessage, matching: IncomingMessage, additional: Payload)
      returns (parameters: Payload)
      ensures parameters == ServicePayload(message, matching, additional)
    {
      parameters := additional;
      var text := Str("");
      parameters := parameters["buttons" := ButtonList([])];
      match message {
        case Question(t, buttons) =>
          text := Str(t);
          parameters := parameters["buttons" := ButtonList(buttons.GetOr([]))];
        case Twiml(d) =>
          parameters := parameters["twiml" := TwimlDoc(d)];
        case Outgoing(t, attachment) =>
          text := OptionalString(t);
          if attachment.Some? && !attachment.value.Location? {
            parameters := parameters["media" := Str(attachment.value.url)];
          }
        case Plain(s) =>
          text := Str(s);
      }
      assert parameters == additional + KindEntries(message);
      assert text == ReplyText(message);
      parameters := parameters["text" := text];
      parameters := parameters["recipient" := OptionalString(matching.sender)];
      assert parameters == additional + KindEntries(message)
        + map["text" := ReplyText(message), "recipient" := OptionalString(matching.sender)];
    }

    /** Sends a payload: the reply it leads to, with the markup body built
        button by button. */
    method SendPayload(payload: Payload) returns (r: Reply)
      ensures r == Dispatch(hasRequestUri, payload)
    {
      if !hasRequestUri {
        return SendSms(Lookup(payload, "recipient"), Lookup(payload, "text"));
      }
      if IsSet(payload, "twiml") {
        return Verbatim(ToText(payload["twiml"]));
      }
      var text := ToText(Lookup(payload, "text"));
      var buttons := ButtonsOf(Lookup(payload, "buttons"));
      var body := text;
      for i := 0 to |buttons|
        invariant body == MarkupBody(text, buttons[..i])
      {
        assert buttons[..i + 1][..i] == buttons[..i];
        body := body + "\n" + buttons[i].text;
      }
      assert buttons[..|buttons|] == buttons;
      var media := None;
      if IsSet(payload, "media") {
        media := Some(payload["media"]);
      }
      r := Markup(body, media);
    }
  }
}
