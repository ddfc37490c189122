/** The topic normaliser: `_normalize_shelly_msg` moves the measurement name of
    a Shelly topic into the payload, and `_parse_message` flattens the topic
    and decodes the payload. JSON decoding itself (`json.loads`) is a
    parameter `decode`; the one document the code serialises and decodes again
    is built directly, since decoding what `json.dumps` wrote gives the
    document back. */
module Normalize {
  import opened Strings
  import opened Payload

  /** The exceptions that escape `_parse_message` and the message callback. */
  datatype Fault = UnicodeDecodeError | AttributeError

  /** A step that completes with a value or raises an uncaught exception. */
  datatype Outcome<+T> = Done(value: T) | Raised(fault: Fault)

  /** A payload between the Shelly step and decoding: the bytes as they
      arrived, or the text `json.dumps` wrote for a document. */
  datatype Wire = Bytes(raw: Raw) | DumpedText(doc: Json)

  /** The payload `_parse_message` hands back: a decoded mapping, or the text
      `json.dumps` wrote for a wrapped non-mapping value. */
  datatype Body = Dict(fields: seq<(string, Json)>) | Serialized(doc: Json)

  /** The result of `_parse_message`: `(None, None)`, or a topic and a body. */
  datatype Parsed = Unparsed | Parsed(topic: string, body: Body)

  /** The marker the source looks for, anywhere in the topic. */
  const ShellyMarker: string := "shellies"

  /** The first two parts of a topic joined with '/' are a prefix of it. */
  lemma HeadOfJoin(parts: seq<string>, sep: char)
    requires |parts| >= 2
    ensures parts[0] + [sep] + parts[1] <= Join(parts, sep)
  {
    var rest := parts[1..];
    assert Join(parts, sep) == parts[0] + [sep] + Join(rest, sep);
    if |rest| == 1 {
      assert Join(rest, sep) == parts[1];
    } else {
      assert Join(rest, sep) == parts[1] + [sep] + Join(rest[1..], sep);
    }
  }

  /** `_normalize_shelly_msg`: a topic of two or more '/'-parts becomes its
      first two parts, and the payload becomes `{last part: payload text}`.
      A one-part topic raises `IndexError` before anything changes, which the
      source catches, so topic and payload come back as they were. Decoding
      the payload bytes happens outside that handler: undecodable bytes raise. */
  function NormalizeShelly(topic: string, payload: Raw): (r: Outcome<(string, Wire)>)
    ensures |Split(topic, '/')| < 2 ==> r == Done((topic, Bytes(payload)))
    ensures |Split(topic, '/')| >= 2 ==> (r.Raised? <==> payload.Undecodable?)
    ensures r.Raised? ==> r.fault == UnicodeDecodeError
    ensures r.Done? && |Split(topic, '/')| >= 2 ==>
              var parts := Split(topic, '/');
              && Split(r.value.0, '/') == parts[..2]
              && r.value.0 <= topic
              && r.value.1 == DumpedText(Obj([(Last(parts), Str(payload.text))]))
  {
    var parts := Split(topic, '/');
    if |parts| < 2 then Done((topic, Bytes(payload)))
    else
      match payload
      case Undecodable(_) => Raised(UnicodeDecodeError)
      case Text(text) =>
        SplitTwo(parts[0], parts[1], '/');
        HeadOfJoin(parts, '/');
        Done((parts[0] + "/" + parts[1], DumpedText(Obj([(Last(parts), Str(text))]))))
  }

  /** `json.loads` at line 143: the document a payload decodes to, if any.
      Text written by `json.dumps` decodes to the document it was written
      from. Bytes are read as UTF-8, or as the UTF-16 or UTF-32 text the
      encoding detection finds; bytes that are neither raise
      `UnicodeDecodeError`, which the source catches like a JSON error. */
  function Decoded(wire: Wire, decode: string -> Option<Json>): Option<Json>
  {
    match wire
    case DumpedText(doc) => Some(doc)
    case Bytes(Text(text)) => decode(text)
    case Bytes(Undecodable(None)) => None
    case Bytes(Undecodable(Some(text))) => decode(text)
  }

  /** `_parse_message`. A topic containing "shellies" anywhere goes through
      `NormalizeShelly`; every '/' of the topic then becomes '_'; a payload that
      does not decode gives `(None, None)`; a decoded mapping is returned as it
      is; any other decoded value is wrapped as `{key: value}` and serialised,
      where the key is the last '/'-part of the already underscored topic. */
  function ParseMessage(topic: string, payload: Raw, decode: string -> Option<Json>): (r: Outcome<Parsed>)
    ensures r.Raised? <==>
              Contains(topic, ShellyMarker) && |Split(topic, '/')| >= 2 && payload.Undecodable?
    ensures !Contains(topic, ShellyMarker) && r.Done? && r.value.Parsed? ==>
              r.value.topic == ReplaceChar(topic, '/', '_')
    ensures r.Done? && r.value.Parsed? ==> '/' !in r.value.topic
    ensures r.Done? && r.value.Parsed? && r.value.body.Serialized? ==>
              var doc := r.value.body.doc;
              doc.Obj? && |doc.entries| == 1 && doc.entries[0].0 == r.value.topic && !doc.entries[0].1.Obj?
  {
    var staged := if Contains(topic, ShellyMarker) then NormalizeShelly(topic, payload)
                  else Done((topic, Bytes(payload)));
    match staged
    case Raised(fault) => Raised(fault)
    case Done((shellyTopic, wire)) =>
      var flat := ReplaceChar(shellyTopic, '/', '_');
      assert '/' !in flat;
      match Decoded(wire, decode)
      case None => Done(Unparsed)
      case Some(Obj(fields)) => Done(Parsed(flat, Dict(fields)))
      case Some(value) =>
        SplitNoSep(flat, '/');
        Done(Parsed(flat, Serialized(Obj([(Last(Split(flat, '/')), value)]))))
  }

  /** A payload that does not decode is dropped, whatever the topic, unless it
      is the undecodable payload of a Shelly topic with two or more parts. */
  lemma DecodeFailureDrops(topic: string, payload: Raw, decode: string -> Option<Json>)
    requires Decoded(Bytes(payload), decode).None?
    requires !(Contains(topic, ShellyMarker) && |Split(topic, '/')| >= 2)
    ensures ParseMessage(topic, payload, decode) == Done(Unparsed)
  {
  }

  /** A Shelly topic of a single part passes through unchanged, and its
      payload is decoded as if the topic had no marker. */
  lemma ShellySinglePart(topic: string, payload: Raw, decode: string -> Option<Json>)
    requires '/' !in topic
    ensures ParseMessage(topic, payload, decode) ==
              match Decoded(Bytes(payload), decode)
              case None => Done(Unparsed)
              case Some(Obj(fields)) => Done(Parsed(topic, Dict(fields)))
              case Some(value) => Done(Parsed(topic, Serialized(Obj([(topic, value)]))))
  {
    SplitNoSep(topic, '/');
    assert ReplaceChar(topic, '/', '_') == topic;
  }

  /** The Shelly path: a topic containing the marker with two or more parts
      and a text payload becomes the first two parts joined with '_', with the
      mapping {last part: payload text}. */
  lemma {:induction false} ShellyPath(topic: string, text: string, decode: string -> Option<Json>)
    requires Contains(topic, ShellyMarker) && |Split(topic, '/')| >= 2
    ensures var parts := Split(topic, '/');
            (ParseMessage(topic, Text(text), decode)
               == Done(Parsed(parts[0] + "_" + parts[1], Dict([(Last(parts), Str(text))]))))
  {
    var parts := Split(topic, '/');
    var joined := parts[0] + "/" + parts[1];
    assert ReplaceChar(joined, '/', '_') == parts[0] + "_" + parts[1] by {
      assert '/' !in parts[0] && '/' !in parts[1];
      assert forall i :: 0 <= i < |parts[0]| ==> joined[i] == parts[0][i];
      assert forall i :: |parts[0]| < i < |joined| ==> joined[i] == parts[1][i - |parts[0]| - 1];
    }
  }

  /** Every other topic: '/' becomes '_', and the payload is decoded as it arrived. */
  lemma {:induction false} PlainPath(topic: string, payload: Raw, decode: string -> Option<Json>)
    requires !Contains(topic, ShellyMarker)
    ensures var flat := ReplaceChar(topic, '/', '_');
            ParseMessage(topic, payload, decode) ==
              match Decoded(Bytes(payload), decode)
              case None => Done(Unparsed)
              case Some(Obj(fields)) => Done(Parsed(flat, Dict(fields)))
              case Some(value) => Done(Parsed(flat, Serialized(Obj([(flat, value)]))))
  {
    var flat := ReplaceChar(topic, '/', '_');
    assert '/' !in flat;
    SplitNoSep(flat, '/');
  }

  /** Bytes that are not UTF-8 but that `json.loads` reads as UTF-16 or
      UTF-32 text holding a mapping are extracted on a topic without the
      marker; on a Shelly topic of two or more parts the same bytes raise. */
  lemma {:induction false} WidePayload(topic: string, wide: string, decode: string -> Option<Json>, fields: seq<(string, Json)>)
    requires decode(wide) == Some(Obj(fields))
    ensures !Contains(topic, ShellyMarker) ==>
              ParseMessage(topic, Undecodable(Some(wide)), decode)
                == Done(Parsed(ReplaceChar(topic, '/', '_'), Dict(fields)))
    ensures Contains(topic, ShellyMarker) && |Split(topic, '/')| >= 2 ==>
              ParseMessage(topic, Undecodable(Some(wide)), decode) == Raised(UnicodeDecodeError)
  {
    if !Contains(topic, ShellyMarker) {
      PlainPath(topic, Undecodable(Some(wide)), decode);
    }
  }

  lemma {:induction false} KitchenTopic()
    ensures Contains("shellies/kitchen/temperature", ShellyMarker)
    ensures Split("shellies/kitchen/temperature", '/') == ["shellies", "kitchen", "temperature"]
  {
    KitchenMarker("shellies/kitchen/temperature");
    KitchenSplit("shellies/kitchen/temperature", ["shellies", "kitchen", "temperature"]);
  }

  lemma KitchenSplit(topic: string, parts: seq<string>)
    requires topic == "shellies/kitchen/temperature" && parts == ["shellies", "kitchen", "temperature"]
    ensures Split(topic, '/') == parts
  {
    KitchenJoin(parts);
    PartsWithoutSlash(parts);
    SplitUnique(topic, '/', parts);
  }

  lemma PartsWithoutSlash(parts: seq<string>)
    requires parts == ["shellies", "kitchen", "temperature"] || parts == ["myshellies", "a", "b"]
    ensures forall i :: 0 <= i < |parts| ==> '/' !in parts[i]
  {
  }

  lemma KitchenMarker(topic: string)
    requires topic == "shellies/kitchen/temperature"
    ensures Contains(topic, ShellyMarker)
  {
    assert ShellyMarker <= topic;
  }

  lemma KitchenJoin(parts: seq<string>)
    requires parts == ["shellies", "kitchen", "temperature"]
    ensures Join(parts, '/') == "shellies/kitchen/temperature"
  {
    assert Join(parts[2..], '/') == "temperature";
    assert Join(parts[1..], '/') == "kitchen/temperature";
  }

  /** A Shelly reading: "shellies/kitchen/temperature" with payload 20.5 is
      parsed as the mapping {"temperature": "20.5"} under the topic
      "shellies_kitchen", whatever the JSON decoder does. */
  lemma {:induction false} ShellyExample(topic: string, decode: string -> Option<Json>)
    requires topic == "shellies/kitchen/temperature"
    ensures ParseMessage(topic, Text("20.5"), decode)
         == Done(Parsed("shellies_kitchen", Dict([("temperature", Str("20.5"))])))
  {
    KitchenTopic();
    var parts := Split(topic, '/');
    KitchenJoined(parts[0], parts[1]);
    ShellyPath(topic, "20.5", decode);
  }

  lemma KitchenJoined(a: string, b: string)
    requires a == "shellies" && b == "kitchen"
    ensures a + "_" + b == "shellies_kitchen"
  {
  }

  lemma {:induction false} InsidePartTopic()
    ensures Contains("myshellies/a/b", ShellyMarker)
    ensures Split("myshellies/a/b", '/') == ["myshellies", "a", "b"]
  {
    InsideMarker("myshellies/a/b");
    InsideSplit("myshellies/a/b", ["myshellies", "a", "b"]);
  }

  lemma InsideMarker(topic: string)
    requires topic == "myshellies/a/b"
    ensures Contains(topic, ShellyMarker)
  {
    assert topic[2..10] == ShellyMarker;
    ContainsAt(topic, ShellyMarker, 2);
  }

  lemma InsideSplit(topic: string, parts: seq<string>)
    requires topic == "myshellies/a/b" && parts == ["myshellies", "a", "b"]
    ensures Split(topic, '/') == parts
  {
    assert Join(parts, '/') == topic by {
      assert Join(parts[2..], '/') == "b";
      assert Join(parts[1..], '/') == "a/b";
    }
    PartsWithoutSlash(parts);
    SplitUnique(topic, '/', parts);
  }

  /** The marker counts anywhere in the topic, not only as a whole part. */
  lemma {:induction false} MarkerInsidePart(topic: string, decode: string -> Option<Json>)
    requires topic == "myshellies/a/b"
    ensures ParseMessage(topic, Text("1"), decode)
         == Done(Parsed("myshellies_a", Dict([("b", Str("1"))])))
  {
    InsidePartTopic();
    var parts := Split(topic, '/');
    InsideJoined(parts[0], parts[1]);
    ShellyPath(topic, "1", decode);
  }

  lemma InsideJoined(a: string, b: string)
    requires a == "myshellies" && b == "a"
    ensures a + "_" + b == "myshellies_a"
  {
  }

  /** A decoded value that is not a mapping, such as 42 on "devices/sensor1",
      comes back as serialised text keyed by the whole underscored topic. */
  lemma {:induction false} ScalarWrapped(topic: string, decode: string -> Option<Json>)
    requires topic == "devices/sensor1" && decode("42") == Some(Num(42.0))
    ensures ParseMessage(topic, Text("42"), decode)
         == Done(Parsed("devices_sensor1", Serialized(Obj([("devices_sensor1", Num(42.0))]))))
  {
    NoMarkerInDevices();
    DevicesFlat(topic);
    PlainPath(topic, Text("42"), decode);
  }

  lemma DevicesFlat(topic: string)
    requires topic == "devices/sensor1"
    ensures ReplaceChar(topic, '/', '_') == "devices_sensor1"
  {
  }

  lemma NoMarkerInDevices()
    ensures !Contains("devices/sensor1", ShellyMarker)
  {
    if Contains("devices/sensor1", ShellyMarker) {
      ContainsChars("devices/sensor1", ShellyMarker, 'h');
      assert false;
    }
  }
}
