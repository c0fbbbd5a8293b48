/** Tagged values carried by the gateway's request and reply messages, and
    the coercions the message layer applies when a handler asks for a value
    of a given kind. */
module Values {

  datatype Option<T> = None | Some(value: T)

  /** One field of a message: an integer, a double, a string or a vocab tag
      (a short word sent as a 32-bit code of its first four characters). */
  datatype Value = Int(i: int) | Double(d: real) | Str(s: string) | Vocab(tag: string)

  /** Truncation toward zero, as the conversion of a double to an int does. */
  function Trunc(r: real): (n: int)
    ensures 0.0 <= r ==> n as real <= r < n as real + 1.0
    ensures r < 0.0 ==> n as real - 1.0 < r <= n as real
  {
    if r >= 0.0 then r.Floor else -((-r).Floor)
  }

  /** The 32-bit code of a vocab tag: its first four characters, the first
      in the lowest byte, missing characters read as 0. */
  function VocabCode(tag: string): (code: int)
    ensures |tag| == 0 ==> code == 0
    ensures 4 < |tag| ==> code == VocabCode(tag[..4])
  {
    if |tag| == 0 then 0
    else if 4 < |tag| then VocabCode(tag[..4])
    else tag[0] as int + 256 * VocabCode(tag[1..])
  }

  /** A field read as an integer: doubles are truncated, a vocab reads as
      its code, a string as 0. */
  function AsInt(x: Value): int
  {
    match x
    case Int(i) => i
    case Double(d) => Trunc(d)
    case Vocab(tag) => VocabCode(tag)
    case Str(_) => 0
  }

  /** A field read as a double: integers are widened, a vocab reads as its
      code, a string as 0. */
  function AsDouble(x: Value): real
  {
    match x
    case Int(i) => i as real
    case Double(d) => d
    case Vocab(tag) => VocabCode(tag) as real
    case Str(_) => 0.0
  }

  /** A field read as a string: a string is its text, a vocab the tag it
      encodes (at most four characters), a number the empty string. */
  function AsString(x: Value): (s: string)
    ensures x.Str? ==> s == x.s
    ensures x.Vocab? ==> |s| <= 4 && s <= x.tag
    ensures x.Vocab? && |x.tag| <= 4 ==> s == x.tag
    ensures x.Vocab? && 4 < |x.tag| ==> s == x.tag[..4]
    ensures x.Int? || x.Double? ==> s == ""
  {
    match x
    case Str(s) => s
    case Vocab(tag) => if |tag| <= 4 then tag else tag[..4]
    case _ => ""
  }
}
