/**
 * The reply dispatcher (TwilioMessageDriver::sendPayload) without its side
 * effects: which of the three replies a payload leads to, and the body of the
 * markup message it builds.
 */
module Dispatcher {
  import opened Wrappers
  import opened BotMan
  import opened Payloads

  /** What sending a payload does: an SMS through the provider's API, the
      caller's own markup returned verbatim, or a generated markup message
      with an optional media element. */
  datatype Reply =
    | SendSms(recipient: Value, text: Value)
    | Verbatim(body: string)
    | Markup(body: string, media: Option<Value>)

  /** The markup message body as `sendPayload` builds it: the text, then a new
      line and the button's label appended for each button in turn. */
  function MarkupBody(text: string, buttons: seq<Button>): string
    decreases |buttons|
  {
    if buttons == [] then text
    else MarkupBody(text, buttons[..|buttons| - 1]) + "\n" + buttons[|buttons| - 1].text
  }

  /** One line per button, each introduced by a new line, in button order. */
  function Lines(buttons: seq<Button>): string
    decreases |buttons|
  {
    if buttons == [] then "" else "\n" + buttons[0].text + Lines(buttons[1..])
  }

  lemma {:induction false} LinesSnoc(buttons: seq<Button>, b: Button)
    ensures Lines(buttons + [b]) == Lines(buttons) + "\n" + b.text
    decreases |buttons|
  {
    if buttons != [] {
      assert (buttons + [b])[1..] == buttons[1..] + [b];
      LinesSnoc(buttons[1..], b);
    }
  }

  /** The body is the text followed by the buttons' lines; with no buttons it
      is exactly the text. */
  lemma {:induction false} MarkupBodyIsTextThenLines(text: string, buttons: seq<Button>)
    ensures MarkupBody(text, buttons) == text + Lines(buttons)
    decreases |buttons|
  {
    if buttons != [] {
      var n := |buttons| - 1;
      assert buttons == buttons[..n] + [buttons[n]];
      MarkupBodyIsTextThenLines(text, buttons[..n]);
      LinesSnoc(buttons[..n], buttons[n]);
    }
  }

  /** The lines of a string, split at every new line (a string with k new
      lines has k + 1 lines). */
  function SplitLines(s: string): (lines: seq<string>)
    ensures |lines| >= 1
    decreases |s|
  {
    if s == [] then [""]
    else
      var rest := SplitLines(s[1..]);
      if s[0] == '\n' then [""] + rest else [[s[0]] + rest[0]] + rest[1..]
  }

  predicate SingleLine(s: string)
  {
    forall i :: 0 <= i < |s| ==> s[i] != '\n'
  }

  /** The buttons' labels, in button order. */
  function Labels(buttons: seq<Button>): seq<string>
    decreases |buttons|
  {
    if buttons == [] then [] else [buttons[0].text] + Labels(buttons[1..])
  }

  lemma {:induction false} SplitAfterSingleLine(t: string, u: string)
    requires SingleLine(t)
    ensures SplitLines(t + u) == [t + SplitLines(u)[0]] + SplitLines(u)[1..]
    decreases |t|
  {
    if t != [] {
      var su := SplitLines(u);
      assert (t + u)[0] == t[0] != '\n';
      assert (t + u)[1..] == t[1..] + u;
      SplitAfterSingleLine(t[1..], u);
      var rest := SplitLines(t[1..] + u);
      assert rest[0] == t[1..] + su[0] && rest[1..] == su[1..];
      assert [t[0]] + (t[1..] + su[0]) == t + su[0];
    } else {
      var su := SplitLines(u);
      assert t + u == u && t + su[0] == su[0];
      assert su == [su[0]] + su[1..];
    }
  }

  lemma {:induction false} SplitLinesOfLines(buttons: seq<Button>)
    requires forall i :: 0 <= i < |buttons| ==> SingleLine(buttons[i].text)
    ensures SplitLines(Lines(buttons)) == [""] + Labels(buttons)
    decreases |buttons|
  {
    if buttons != [] {
      var b := buttons[0];
      var rest := Lines(buttons[1..]);
      SplitLinesOfLines(buttons[1..]);
      assert ("\n" + b.text + rest)[1..] == b.text + rest;
      SplitAfterSingleLine(b.text, rest);
      assert b.text + "" == b.text;
      assert Labels(buttons) == [b.text] + Labels(buttons[1..]);
    }
  }

  /** When neither the text nor any label spans several lines, the recipient
      reads the text on the first line of the body and each button's label on
      a line of its own after it, in button order. */
  lemma MarkupBodyLines(text: string, buttons: seq<Button>)
    requires SingleLine(text)
    requires forall i :: 0 <= i < |buttons| ==> SingleLine(buttons[i].text)
    ensures SplitLines(MarkupBody(text, buttons)) == [text] + Labels(buttons)
  {
    MarkupBodyIsTextThenLines(text, buttons);
    SplitLinesOfLines(buttons);
    SplitAfterSingleLine(text, Lines(buttons));
    assert text + "" == text;
  }

  /**
   * The decision sendPayload makes, in its order: with no webhook request to
   * answer, an SMS to the payload's recipient with its text; else a set
   * `twiml` verbatim; else a markup message built from `text`, `buttons` and
   * `media`.
   */
  function Dispatch(hasRequestUri: bool, p: Payload): (r: Reply)
    ensures !hasRequestUri ==> r == SendSms(Lookup(p, "recipient"), Lookup(p, "text"))
    ensures hasRequestUri && IsSet(p, "twiml") ==> r == Verbatim(ToText(p["twiml"]))
    ensures hasRequestUri && !IsSet(p, "twiml") ==>
              r.Markup?
              && r.body == ToText(Lookup(p, "text")) + Lines(ButtonsOf(Lookup(p, "buttons")))
              && (r.media.Some? <==> IsSet(p, "media"))
              && (r.media.Some? ==> r.media.value == p["media"])
  {
    if !hasRequestUri then
      SendSms(Lookup(p, "recipient"), Lookup(p, "text"))
    else if IsSet(p, "twiml") then
      Verbatim(ToText(p["twiml"]))
    else
      var text := ToText(Lookup(p, "text"));
      var buttons := ButtonsOf(Lookup(p, "buttons"));
      MarkupBodyIsTextThenLines(text, buttons);
      Markup(MarkupBody(text, buttons), if IsSet(p, "media") then Some(p["media"]) else None)
  }
}
