/** Values shared by the document and its sub-records: optional values (Ruby's `nil`),
    results of operations that may raise, the tagged output tree that the XML builder
    would be driven with, and emission timestamps. */
module Base {
  import opened Text

  datatype Option<+T> = None | Some(value: T)

  /** The outcome of an operation that returns a value or raises `error`. */
  datatype Result<+T, +E> = Ok(value: T) | Err(error: E)

  /** One element of the emitted document: either an element holding only text, or an
      element with attributes and ordered children. */
  datatype Node =
    | Leaf(tag: string, text: string)
    | Element(tag: string, attributes: map<string, string>, children: seq<Node>)

  /** The tags of a sequence of nodes, in order. */
  function Tags(ns: seq<Node>): (tags: seq<string>)
    ensures |tags| == |ns| && forall i :: 0 <= i < |ns| ==> tags[i] == ns[i].tag
  {
    seq(|ns|, i requires 0 <= i < |ns| => ns[i].tag)
  }

  /** A timestamp as Ruby's `Time#xmlschema` renders it (`2023-05-10T09:00:00-06:00`):
      such a rendering starts with the year, never with white space. */
  type Stamp = s: string | |s| >= 1 && !IsSpace(s[0]) witness "0"

  type Month = m: int | 1 <= m <= 12 witness 1

  type Day = d: int | 1 <= d <= 31 witness 1

  /** A Ruby `Time`: the calendar fields the key reads and its already formatted timestamp. */
  datatype Time = Time(year: int, month: Month, day: Day, xmlschema: Stamp)

  /** ActiveModel's `presence` rule on an optional string: not nil and not blank. */
  predicate Present(o: Option<string>) {
    o.Some? && !Blank(o.value)
  }

  /** String interpolation of an optional string: `"#{nil}"` is the empty string. */
  function Interpolate(o: Option<string>): string {
    match o
    case Some(v) => v
    case None => ""
  }
}
