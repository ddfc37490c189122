/** The values a message carries: the raw payload as delivered, and the JSON
    document that decoding it yields. */
module Payload {
  import opened Strings

  /** A decoded JSON value. Numbers are reals (Python gives `int` or `float`);
      an object keeps its entries in the order decoding produced them, which is
      the order `dict.items()` walks. */
  datatype Json =
    | Null
    | Bool(b: bool)
    | Num(n: real)
    | Str(s: string)
    | Arr(items: seq<Json>)
    | Obj(entries: seq<(string, Json)>)

  /** A payload as it arrives: bytes that decode as UTF-8 (kept as their text),
      or bytes that do not. `bytes.decode()` raises on the latter, but
      `json.loads` first detects the encoding from a byte-order mark or the
      pattern of zero bytes, and so still reads UTF-16 and UTF-32 payloads:
      `wide` is the text it obtains that way, if any. */
  datatype Raw = Text(text: string) | Undecodable(wide: Option<string>)
}
