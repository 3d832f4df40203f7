/**
 * What the recipient ends up with: each kind of reply serialized and then
 * dispatched.
 */
module Replies {
  import opened Wrappers
  import opened BotMan
  import opened Payloads
  import opened Serializer
  import opened Dispatcher

  /** Without a webhook request to answer, every reply becomes an SMS to the
      inbound sender carrying the reply's text, whatever the caller supplied. */
  lemma OfflineReplyIsSms(message: OutgoingMessage, matching: IncomingMessage, additional: Payload)
    ensures Dispatch(false, ServicePayload(message, matching, additional))
            == SendSms(OptionalString(matching.sender), ReplyText(message))
  {
  }

  /** A raw markup reply is returned verbatim, whatever else the payload holds. */
  lemma TwimlReplyIsVerbatim(doc: TwimlResponse, matching: IncomingMessage, additional: Payload)
    ensures Dispatch(true, ServicePayload(Twiml(doc), matching, additional)) == Verbatim(doc.markup)
  {
  }

  /** A plain string goes out as a markup message whose body is exactly that
      string, with no buttons and no media, unless the caller supplied its own
      `twiml` or `media`. */
  lemma PlainReplyRoundTrip(s: string, matching: IncomingMessage, additional: Payload)
    requires !IsSet(additional, "twiml") && !IsSet(additional, "media")
    ensures Dispatch(true, ServicePayload(Plain(s), matching, additional)) == Markup(s, None)
  {
  }

  /** A question goes out as its text followed by one line per button, in
      button order; a question without buttons is just its text. */
  lemma QuestionReplyBody(text: string, buttons: Option<seq<Button>>, matching: IncomingMessage, additional: Payload)
    requires !IsSet(additional, "twiml")
    ensures var r := Dispatch(true, ServicePayload(Question(text, buttons), matching, additional));
            r.Markup? && r.body == text + Lines(buttons.GetOr([]))
            && (buttons.GetOr([]) == [] ==> r.body == text)
  {
  }

  /** A generic message with a URL attachment goes out as its text (empty when
      it has none) with that URL as media; with a location or no attachment it carries only the
      media, if any, the caller supplied. */
  lemma OutgoingReplyMedia(text: Option<string>, attachment: Option<Attachment>, matching: IncomingMessage, additional: Payload)
    requires !IsSet(additional, "twiml")
    ensures var r := Dispatch(true, ServicePayload(Outgoing(text, attachment), matching, additional));
            r.Markup? && r.body == text.GetOr("")
            && (attachment.Some? && attachment.value.UrlAttachment? ==> r.media == Some(Str(attachment.value.url)))
            && (attachment.None? || attachment.value.Location? ==>
                  r.media == (if IsSet(additional, "media") then Some(additional["media"]) else None))
  {
  }
}
