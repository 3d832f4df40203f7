/**
 * The payload the serializer hands to the dispatcher: a PHP associative array
 * from string keys to values, with PHP's reading conventions made explicit.
 */
module Payloads {
  import opened Wrappers
  import opened BotMan

  /** The values that can sit under a payload key. */
  datatype Value =
    | Null
    | Str(s: string)
    | ButtonList(buttons: seq<Button>)
    | TwimlDoc(doc: TwimlResponse)

  type Payload = map<string, Value>

  /** Reading a key: a missing key reads as null. */
  function Lookup(p: Payload, key: string): (v: Value)
    ensures v != Null <==> IsSet(p, key)
  {
    if key in p then p[key] else Null
  }

  /** PHP's `isset`: the key is present and does not hold null. */
  predicate IsSet(p: Payload, key: string)
  {
    key in p && p[key] != Null
  }

  /** PHP's string conversion of a value: null is the empty string, a markup
      object is its serialization, and an array converts to "Array". */
  function ToText(v: Value): string
  {
    match v
    case Null => ""
    case Str(s) => s
    case ButtonList(_) => "Array"
    case TwimlDoc(d) => d.markup
  }

  /** The buttons a value holds once cast to an array: a list of buttons is
      itself, and null is the empty array. */
  function ButtonsOf(v: Value): seq<Button>
  {
    if v.ButtonList? then v.buttons else []
  }

  /** A nullable string as a payload value. */
  function OptionalString(o: Option<string>): (v: Value)
    ensures v.Null? || v.Str?
    ensures ToText(v) == o.GetOr("")
  {
    match o
    case Some(s) => Str(s)
    case None => Null
  }
}
