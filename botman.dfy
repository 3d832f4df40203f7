/**
 * The chatbot framework's message records, reduced to the fields and getters
 * the Twilio message driver uses. They are plain values here: none of the
 * framework's own behaviour is modelled.
 */
module BotMan {
  import opened Wrappers

  /** A normalised inbound message: text, sender and recipient, each of which
      the framework stores as given (a missing webhook field arrives as null). */
  datatype IncomingMessage = IncomingMessage(
    text: Option<string>,
    sender: Option<string>,
    recipient: Option<string>)

  /** A conversation answer built from an inbound message. */
  datatype Answer = Answer(
    text: Option<string>,
    value: Option<string>,
    interactiveReply: bool,
    message: IncomingMessage)

  /** A question button as the framework hands it out (its array form). */
  datatype Button = Button(text: string, value: string)

  /** An outgoing attachment: a geographic location, or anything with a URL
      (image, video, audio, file). */
  datatype Attachment = Location | UrlAttachment(url: string)

  /** A provider-native markup response object, known here only by the text
      it serializes to. */
  datatype TwimlResponse = TwimlResponse(markup: string)

  /** The four kinds of reply the driver serializes. A question always has a
      text; a generic outgoing message may have none (an attachment-only
      message), and then its text is null. */
  datatype OutgoingMessage =
    | Plain(s: string)
    | Question(text: string, buttons: Option<seq<Button>>)
    | Twiml(doc: TwimlResponse)
    | Outgoing(content: Option<string>, attachment: Option<Attachment>)
}
