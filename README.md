# Zigbee MQTT exporter: message-to-metric normalisation in Dafny

The exporter subscribes to an MQTT broker. It turns every message it receives
into Prometheus gauges, plus one counter of messages per topic. This project
models the part of `files/app/zigbeemqttexporter.py` that does that work:

- **Scalar coercer** (`_parse_metric`), module `Coerce`. A JSON leaf becomes a
  number or fails.
  - Numbers pass through unchanged.
  - Booleans count as the Python ints 1 and 0.
  - Text is upper-cased, then looked up in `STATE_VALUES`, then parsed by a
    model of Python's `float()`.
- **Metric name resolver** (lines 70-71), module `Naming`. The name is
  `PREFIX + path + key`. Dots are deleted, spaces become `_`, and
  `re.sub(r"\((.*?)\)", "", …)` removes every lazily matched parenthesised
  group. That group cannot span a line break.
- **Topic normaliser** (`_normalize_shelly_msg`, `_parse_message`), module
  `Normalize`.
  - A topic that contains `shellies` anywhere and has two or more
    `/`-parts is cut to its first two parts, and the payload becomes
    `{last part: payload text}`. A one-part topic such as `shellies` keeps
    its topic and payload: indexing its second part raises `IndexError`,
    which is caught.
  - Every `/` of the topic then becomes `_`.
  - The payload is decoded. A mapping comes back as it is. Any other value
    comes back as the *text* `json.dumps({topic: value})`.
- **Recursive metric extractor** (`_parse_metrics`) and the **ingestion
  callback** (`expose_metrics`), module `Exporter`.
  - The Prometheus registry is the class `Exporter.Registry`. It has two
    fields that its methods update in place:
    - `gauges`: gauge name, then topic label, then value.
    - `counter`: the value of `message_total` per topic.
  - The functions `Updates`/`Writes` (the writes of one walk, in order) and
    `Step` (the state after one message) specify what the methods do.
    The lemmas about them state what the exporter promises:
    - Entries are independent of one another.
    - Only the written series change.
    - Redelivering a message leaves the gauges as one delivery does.
    - The registry stays consistent: sanitised names, every label a counted
      topic.
- **Scenarios**, module `Scenarios`. Whole messages under the default
  configuration.

The model follows the code, including where its behaviour differs from what
a reader might expect:

- **Scalar payloads abort.** A payload that decodes to something other than a
  mapping is wrapped, then *serialised* (line 158). The call `data.items()` at
  line 56 then raises `AttributeError` before any gauge or counter changes
  (`Scenarios.ScalarAborts`). One might expect such a value to be
  extracted under the last topic segment.
- **Shelly topics are underscored.** A Shelly topic is underscored after it
  is cut, so the counter and label value is `shellies_kitchen`, not
  `shellies/kitchen` (`Scenarios.ShellyReading`).
- **The wrapping key is the whole topic.** It is the whole underscored topic,
  because the topic is split on `/` after every `/` was replaced (line 153).
- **Some errors escape the callback.** Undecodable bytes on a Shelly topic of
  two or more parts raise `UnicodeDecodeError` at line 121, outside every
  handler. `Registry.ExposeMetrics` returns that exception, together with the
  `AttributeError` above.
- **The ignore list defaults to the empty topic.** `"".split(",")` is
  `[""]`, so the list holds the empty topic and is never empty
  (`Exporter.IgnoredByDefault`).
- **Names can be empty and can collide.**
  - A name is not checked for emptiness.
  - Different field paths can name the same gauge. `{"a": {"b": 5}}` and
    `{"a_b": 5}` both write `mqtt_a_b` (`Scenarios.NestedAndFlatCollide`),
    and the last write wins.
- **The counter skips some decoded messages.** It is not incremented for an
  empty mapping or an empty topic (line 173), nor after an abort.

JSON decoding (`json.loads`) is a parameter, `decode: string -> Option<Json>`.
The one document the code serialises and decodes again, the Shelly body, is
built directly. Numbers are `real`. `Registry.ParseMetrics` and
`Registry.VisitEntry` take the coercion as a parameter, so the walk is proved
for any coercer; `Registry.ExposeMetrics` passes `_parse_metric` with the
configured state words (`Exporter.Coercion`).

## Model

| member | source | states |
|---|---|---|
| Strings.Upper | files/app/zigbeemqttexporter.py:97 | `str.upper()` on ASCII letters; stated by `Coerce.StateWords` (case variants of a word have one upper-case form) and `Coerce.UpperKeepsDigits` |
| Strings.ReplaceChar | files/app/zigbeemqttexporter.py:70 | one-character `str.replace`; its effect on names is stated by `Naming.SanitizeClean` and `Naming.SanitizeDotsAndSpaces`, on topics by `Normalize.ParseMessage` (no '/' is left) |
| Strings.DropChar | files/app/zigbeemqttexporter.py:70 | `replace(".", "")` leaves no dot, and keeps every other character and only those; a text without a dot is unchanged |
| Strings.DropCharAppend | files/app/zigbeemqttexporter.py:70 | deleting a character distributes over concatenation, so the remaining characters keep their order and count |
| Strings.Split | files/app/zigbeemqttexporter.py:117 | `str.split("/")` gives at least one part, no part holds the separator, and joining the parts with it gives the text back |
| Strings.SplitUnique | files/app/zigbeemqttexporter.py:117 | any separator-free parts that join to the text are exactly its split, so the split is determined by that contract |
| Strings.Contains | files/app/zigbeemqttexporter.py:137 | `sub in s`; stated by `Strings.ContainsAt` and `Strings.ContainsOccurs`, which together say it holds exactly when `sub` occurs at some position |
| Strings.ContainsAt | files/app/zigbeemqttexporter.py:137 | `"shellies" in topic` holds as soon as the marker occurs at any position |
| Strings.ContainsOccurs | files/app/zigbeemqttexporter.py:137 | conversely, `"shellies" in topic` holds only when the marker occurs at some position |
| Coerce.ParseMetric | files/app/zigbeemqttexporter.py:83-107 | numbers pass unchanged; booleans give 1/0; text is a number exactly when its upper-cased form is a state word (giving that word's value) or parses as a float (giving the parsed value); null, arrays and mappings fail; a failure carries the offending value |
| Coerce.ParseFloat | files/app/zigbeemqttexporter.py:104 | `float()` on text; stated by `Coerce.ParseFloatLexical`, `Coerce.ParseFloatRejects`, `Coerce.ParseFloatNumeral` and `Coerce.ParseFloatPoint` |
| Coerce.StateWords | files/app/zigbeemqttexporter.py:96-101 | every case variant of "on"/"true" coerces to 1 and of "off"/"false" to 0 |
| Coerce.NonNumericText | files/app/zigbeemqttexporter.py:103-107 | text that is no state word and holds a character that is neither whitespace nor part of a float literal fails, carrying the text |
| Coerce.NotNumericExamples | files/app/zigbeemqttexporter.py:104-107 | "notanumber", every mapping, every array and null fail to coerce |
| Coerce.ParseFloatLexical | files/app/zigbeemqttexporter.py:104 | every text `float()` accepts consists of whitespace and literal characters only |
| Coerce.ParseFloatRejects | files/app/zigbeemqttexporter.py:104 | a text holding any other character is rejected by `float()` |
| Coerce.ParseFloatNumeral | files/app/zigbeemqttexporter.py:104 | a decimal numeral, with or without a sign in front, parses to its value (negated after '-') |
| Coerce.ParseFloatPoint | files/app/zigbeemqttexporter.py:104 | digits, a point and digits parse to the value of that decimal numeral |
| Coerce.NumericText | files/app/zigbeemqttexporter.py:96-104 | a numeral sent as text coerces to its value, since no state word starts with a digit |
| Naming.CloseAt | files/app/zigbeemqttexporter.py:71 | the lazy `.*?\)` ends at the first ')' from the given position, and fails exactly when a line break or the end comes first |
| Naming.StripGroups | files/app/zigbeemqttexporter.py:71 | `re.sub(r"\((.*?)\)", "", s)`; stated by `Naming.StripGroupsChars`, `Naming.StripGroupsClean`, `Naming.StripGroupsIdentity`, `Naming.StripGroupsIdempotent`, `Naming.GroupRemoved`, `Naming.UnclosedKept` and `Naming.SanitizeLazyMatch` |
| Naming.GroupRemoved | files/app/zigbeemqttexporter.py:71 | a group closed before any line break is removed whole, and the text before it and after it is kept |
| Naming.UnclosedKept | files/app/zigbeemqttexporter.py:71 | a '(' that no ')' closes before a line break is kept, and so is the text before it; the scan goes on after it |
| Naming.StripGroupsChars | files/app/zigbeemqttexporter.py:71 | removing groups only deletes characters: the result is a subsequence of the text |
| Naming.StripGroupsClean | files/app/zigbeemqttexporter.py:71 | after `re.sub` no position starts another match |
| Naming.StripGroupsIdentity | files/app/zigbeemqttexporter.py:71 | a text with no match comes back unchanged |
| Naming.StripGroupsIdempotent | files/app/zigbeemqttexporter.py:71 | applying `re.sub` twice is applying it once |
| Naming.Sanitize | files/app/zigbeemqttexporter.py:70-71 | the two `replace` calls, then the group removal; stated by `Naming.SanitizeClean`, `Naming.SanitizeIdempotent`, `Naming.SanitizePlain` and `Naming.SanitizePlainPrefix`, and for the group removal by `Naming.GroupRemoved` and `Naming.UnclosedKept` |
| Naming.MetricName | files/app/zigbeemqttexporter.py:70-71 | the gauge name of a leaf: `PREFIX + prefix + key`, sanitised; stated by `Exporter.WritesSingle`, `Exporter.WritesClean` and `Exporter.WritesPrefixed` |
| Naming.SanitizeClean | files/app/zigbeemqttexporter.py:70-71 | a sanitised name holds no dot, no space and no group |
| Naming.SanitizeIdempotent | files/app/zigbeemqttexporter.py:70-71 | sanitising a sanitised name changes nothing |
| Naming.SanitizePlain | files/app/zigbeemqttexporter.py:70-71 | a name without dot, space and '(' is used verbatim |
| Naming.SanitizePlainPrefix | files/app/zigbeemqttexporter.py:70-71 | a prefix without dot, space and '(' survives in front of whatever the rest sanitises to |
| Naming.SanitizeDropsNote | files/app/zigbeemqttexporter.py:70-71 | "temp (avg)" becomes "temp_": the space is underscored, then the group is removed |
| Naming.SanitizeDotsAndSpaces | files/app/zigbeemqttexporter.py:70 | "a.b c" becomes "ab_c" |
| Naming.SanitizeLazyMatch | files/app/zigbeemqttexporter.py:71 | "x(a(b)c)" becomes "xc)": the lazy match stops at the first ')' |
| Normalize.HeadOfJoin | files/app/zigbeemqttexporter.py:119 | the first two parts joined with '/' are a prefix of the topic |
| Normalize.NormalizeShelly | files/app/zigbeemqttexporter.py:110-127 | a one-part topic passes through with its payload; otherwise the topic becomes a prefix of itself that splits into the first two parts, and the payload the document {last part: payload text}; the step raises exactly when the bytes do not decode |
| Normalize.ParseMessage | files/app/zigbeemqttexporter.py:130-160 | it raises exactly for undecodable bytes on a Shelly topic of two or more parts; the returned topic holds no '/' and is the underscored topic when there is no marker; a serialised body is a one-entry document keyed by that topic holding a non-mapping |
| Normalize.Decoded | files/app/zigbeemqttexporter.py:143 | `json.loads` of the payload: UTF-8 text, or UTF-16/UTF-32 text found by encoding detection, goes to the decoder, and bytes that are neither give nothing; stated by `Normalize.PlainPath`, `Normalize.WidePayload` and `Normalize.DecodeFailureDrops` |
| Normalize.WidePayload | files/app/zigbeemqttexporter.py:117-143 | bytes that are not UTF-8 but that `json.loads` reads as UTF-16/UTF-32 mapping text are extracted on an unmarked topic, and raise on a Shelly topic of two or more parts |
| Normalize.DecodeFailureDrops | files/app/zigbeemqttexporter.py:142-149 | on a topic that is not a Shelly topic of two or more parts, a payload that does not decode gives `(None, None)` |
| Normalize.ShellySinglePart | files/app/zigbeemqttexporter.py:117-125 | a marker topic of one part is handled as if it had no marker |
| Normalize.ShellyPath | files/app/zigbeemqttexporter.py:137-143 | a marker topic of two or more parts gives `part0_part1` and the mapping {last part: payload text} |
| Normalize.PlainPath | files/app/zigbeemqttexporter.py:140-160 | any other topic is underscored; a decoded mapping is returned, a non-mapping is wrapped and serialised, a failure gives `(None, None)` |
| Normalize.ShellyExample | files/app/zigbeemqttexporter.py:110-127 | "shellies/kitchen/temperature" with 20.5 gives {"temperature": "20.5"} under "shellies_kitchen" |
| Normalize.MarkerInsidePart | files/app/zigbeemqttexporter.py:137 | the marker counts inside a part: "myshellies/a/b" takes the Shelly path |
| Normalize.ScalarWrapped | files/app/zigbeemqttexporter.py:152-158 | 42 on "devices/sensor1" comes back as the serialised {"devices_sensor1": 42} |
| Exporter.IgnoredByDefault | files/app/zigbeemqttexporter.py:18 | with the variable unset the ignore list is `[""]` |
| Exporter.IgnoredTopics | files/app/zigbeemqttexporter.py:18 | the comma split of the ignore variable; stated by `Exporter.IgnoredByDefault` |
| Exporter.SetGauge | files/app/zigbeemqttexporter.py:72-79 | create the gauge if needed, then set one series; stated by `Exporter.SetGaugeEffect` and met by `Exporter.Registry.SetSeries` |
| Exporter.SetGaugeEffect | files/app/zigbeemqttexporter.py:72-79 | setting a series creates its gauge if needed and changes no other gauge or series |
| Exporter.LastWrite | files/app/zigbeemqttexporter.py:79 | the value found for a name is the value of a write to it after which no write names it; no value means no write names it |
| Exporter.ApplyAllEffect | files/app/zigbeemqttexporter.py:56-79 | after a walk exactly the written gauges are added, a written series holds its last value, every other series is unchanged |
| Exporter.ApplyAllAppend | files/app/zigbeemqttexporter.py:56 | writing two runs in turn is writing their concatenation |
| Exporter.ApplyAllIdempotent | files/app/zigbeemqttexporter.py:79 | repeating the same writes under the same topic changes nothing more (`set` replaces, never accumulates) |
| Exporter.Updates | files/app/zigbeemqttexporter.py:51-80 | the numbers the walk over the first `n` entries finds, in order, with their paths; stated by `Exporter.UpdatesPaths`, `Exporter.UpdatesSplit` and `Exporter.WritesSingle`, and met by `Exporter.Registry.ParseMetrics` |
| Exporter.Writes | files/app/zigbeemqttexporter.py:51-80 | the gauge writes of `_parse_metrics` on a mapping, in order; stated by `Exporter.WritesSplit`, `Exporter.WritesSingle`, `Exporter.WritesClean`, `Exporter.WritesPrefixed` and `Exporter.ApplyAllEffect` |
| Exporter.UpdatesPaths | files/app/zigbeemqttexporter.py:60 | every path extends the prefix the walk started from |
| Exporter.UpdatesSplit | files/app/zigbeemqttexporter.py:56-67 | the numbers for `e1 + e2` are those for `e1` followed by those for `e2` |
| Exporter.WritesSplit | files/app/zigbeemqttexporter.py:56-67 | entries are walked independently: a skipped field does not affect its siblings |
| Exporter.WritesSingle | files/app/zigbeemqttexporter.py:56-79 | one entry: a mapping contributes its own writes under `prefix + key + "_"`; a leaf one write to `MetricName` when it coerces, none when it does not |
| Exporter.NamedAt | files/app/zigbeemqttexporter.py:70-71 | naming keeps the writes in order and renames each to the sanitised `PREFIX + path` |
| Exporter.WritesClean | files/app/zigbeemqttexporter.py:70-71 | every gauge name written is sanitised |
| Exporter.WritesPrefixed | files/app/zigbeemqttexporter.py:70 | with a plain configured prefix every name starts with `PREFIX + prefix` |
| Exporter.LeafEntry | files/app/zigbeemqttexporter.py:63-79 | a numeric leaf sets exactly the series `MetricName{topic}` |
| Exporter.SkipEntry | files/app/zigbeemqttexporter.py:63-67 | a leaf that does not coerce sets nothing |
| Exporter.Classify | files/app/zigbeemqttexporter.py:171-176 | what the callback does with the result of `_parse_message`; stated by `Exporter.IngestCases` and met by `Exporter.Registry.Dispatch` |
| Exporter.Ingest | files/app/zigbeemqttexporter.py:167-176 | the ignore list, then `_parse_message` and `Classify`; stated by `Exporter.IngestCases` and `Exporter.IgnoredLeavesState` |
| Exporter.Apply | files/app/zigbeemqttexporter.py:176-179 | the registry change of one ingestion; stated by `Exporter.ApplyTwice` and `Exporter.ApplyConsistent`, and met by `Exporter.Registry.Dispatch` |
| Exporter.Step | files/app/zigbeemqttexporter.py:163-179 | the registry after one message; stated by `Exporter.StepExtracts`, `Exporter.StepCounts`, `Exporter.StepGauges`, `Exporter.StepRedelivery` and `Exporter.StepConsistent`, and met by `Exporter.Registry.ExposeMetrics` |
| Exporter.IngestCases | files/app/zigbeemqttexporter.py:163-176 | ignored exactly when the topic is listed; otherwise aborted exactly when parsing raises or yields a non-empty topic with serialised text, extracted exactly when it yields a non-empty mapping under a non-empty topic (carrying that topic and mapping, the topic free of '/'), and dropped exactly for `(None, None)`, an empty topic or an empty mapping |
| Exporter.StepExtracts | files/app/zigbeemqttexporter.py:167-179 | a message that is not ignored and that parses to a non-empty mapping under a non-empty topic has that mapping walked under that topic, and the topic's counter goes up by one |
| Exporter.StepCounts | files/app/zigbeemqttexporter.py:173-179 | the topic's counter goes up by one exactly when the message is extracted, no other counter moves, and any other message leaves the state as it was |
| Exporter.IgnoredLeavesState | files/app/zigbeemqttexporter.py:167-169 | a message on a listed topic changes nothing, whatever it carries |
| Exporter.StepGauges | files/app/zigbeemqttexporter.py:176-179 | after an extracted message the written gauges exist, a written series under the message's topic holds the last value, every other series is unchanged |
| Exporter.StepRedelivery | files/app/zigbeemqttexporter.py:176-179 | delivering a message twice leaves the gauges as once; only its counter moves on |
| Exporter.ApplyTwice | files/app/zigbeemqttexporter.py:176-179 | applying the same ingestion twice keeps the gauges and repeats the counter change |
| Exporter.WritesConsistent | files/app/zigbeemqttexporter.py:70-79 | clean names written under a topic without '/' that is then counted keep the registry consistent |
| Exporter.ApplyAllClean | files/app/zigbeemqttexporter.py:72-79 | writes to clean names keep every gauge clean and non-empty |
| Exporter.ApplyAllLabels | files/app/zigbeemqttexporter.py:79 | writes under a topic add no other label |
| Exporter.EmptyConsistent | files/app/zigbeemqttexporter.py:39-42 | the empty registry is consistent |
| Exporter.ApplyConsistent | files/app/zigbeemqttexporter.py:176-179 | applying an ingestion whose topic holds no '/' keeps the registry consistent |
| Exporter.StepConsistent | files/app/zigbeemqttexporter.py:163-179 | every message keeps the registry consistent: sanitised non-empty gauges, labels that are counted topics |
| Exporter.Registry.constructor | files/app/zigbeemqttexporter.py:39-42 | the registry starts with no gauge and no counted message |
| Exporter.Registry.ParseMetrics | files/app/zigbeemqttexporter.py:51-80 | the loop leaves the gauges as the walk's writes, applied in order under the topic, and the counter unchanged |
| Exporter.Registry.VisitEntry | files/app/zigbeemqttexporter.py:56-79 | one entry: the gauges after it are those its writes give; the counter is unchanged |
| Exporter.Registry.SetSeries | files/app/zigbeemqttexporter.py:72-79 | creates the gauge if absent, then sets its series |
| Exporter.Registry.ExposeMetrics | files/app/zigbeemqttexporter.py:163-179 | the registry moves to `Step` of its old state; the escaping exception is returned exactly for an aborted message |
| Exporter.Registry.Dispatch | files/app/zigbeemqttexporter.py:171-179 | acting on the parse result: only an extracted mapping sets gauges and then counts its topic once |
| Exporter.Registry.Record | files/app/zigbeemqttexporter.py:176-179 | an extracted message: the walk's writes are applied under its topic, then that topic's counter goes up by one |
| Scenarios.ReadingCoerces | files/app/zigbeemqttexporter.py:96-104 | the text "20.5" coerces to 20.5 |
| Scenarios.KitchenIngest | files/app/zigbeemqttexporter.py:167-174 | the Shelly reading is extracted as {"temperature": "20.5"} under "shellies_kitchen" |
| Scenarios.ReadingWrites | files/app/zigbeemqttexporter.py:56-79 | that mapping writes 20.5 to `mqtt_temperature` |
| Scenarios.ShellyReading | files/app/zigbeemqttexporter.py:163-179 | on an empty registry the reading creates `mqtt_temperature{topic="shellies_kitchen"} = 20.5` and counts one message under "shellies_kitchen" |
| Scenarios.ScalarAborts | files/app/zigbeemqttexporter.py:152-176 | 42 on "devices/sensor1" aborts with `AttributeError` and changes nothing |
| Scenarios.NestedWrites | files/app/zigbeemqttexporter.py:56-71 | {"a": {"b": 5}} writes exactly 5 to `mqtt_a_b` |
| Scenarios.NestedExtract | files/app/zigbeemqttexporter.py:56-79 | on an empty registry it creates the one gauge `mqtt_a_b` with the topic's series at 5 |
| Scenarios.NestedAndFlatCollide | files/app/zigbeemqttexporter.py:60-71 | the paths a→b and a_b write the same gauge |
| Scenarios.MalformedLeavesState | files/app/zigbeemqttexporter.py:142-146 | on a topic without the Shelly marker, a payload that is not JSON changes neither gauges nor counter |

## Left out

- The MQTT client is left out: subscription, connection, the event loop and
  `main` (lines 45-48, 182-216). So are the signal handlers, the HTTP server
  and logging.
- Environment variables are read once at start-up. The values they give
  (`PREFIX`, `IGNORED_TOPICS`) are fields of the value `Config`. Its third
  field, the state words, holds the literal table `STATE_VALUES` of lines
  31-36 (`Coerce.DefaultStates`).
- `TOPIC_LABEL` and `MQTT_TOPIC` only name the label and the subscription.
  Series are keyed by the label value alone.
- `json.loads` is the parameter `decode`, so JSON syntax is not modelled.
  Bytes that are valid UTF-8 reach it as their UTF-8 text, even where
  `json.loads` would detect UTF-16 or UTF-32 from the pattern of zero bytes
  and read them differently; which text the detection yields for bytes that
  are not UTF-8 is carried by the payload (`Raw.Undecodable`), not computed.
  Duplicate keys in an object are not modelled either: entries are kept in
  order and the walk sees them all.
- `RecursionError` on deeply nested payloads is not modelled. `decode`
  returns `Option<Json>` and `Exporter.Updates` recurses without a depth
  bound, so neither can express it. In the source it can escape
  `json.loads` at line 143, because lines 144-149 catch only decoding
  errors, and then the callback stops before any write. It can also escape
  the recursive call of `_parse_metrics` at line 60 part-way through a walk:
  the earlier writes stay and the counter is not incremented.
- `json.dumps` followed by `json.loads` is taken to give the Shelly document
  back unchanged (`Normalize.Decoded`).
- Coerce.ParseFloat: only the decimal literal form is modelled:
  - whitespace, a sign, digits with at most one point, and an optional
    exponent.
  - Python also accepts `INF`, `INFINITY` and `NAN` (which the upper-casing
    produces from "inf" or "nan"), underscores between digits, and non-ASCII
    digits and whitespace. The model rejects all of these.
  - Values are exact reals, not rounded to binary floating point.
- Coerce.ParseMetric: it inherits the `ParseFloat` restrictions above.
  - A JSON integer is an unbounded Python `int`, which `Gauge.set` converts
    to a float. The model keeps it exact. So the `OverflowError` that
    `float()` raises at line 79 for an integer beyond the float range is not
    modelled. In the source that error escapes the callback after the gauge
    and its series were created: the earlier writes of the walk stay, and
    the counter is not incremented.
  - `json.loads` also accepts `NaN`, `Infinity` and `-Infinity`. `Num(real)`
    cannot represent these values, so such payloads are outside the model.
  - The `bytes` branch (lines 93-94) is unreachable from decoded JSON and is
    not modelled.
- Strings.Upper: upper-casing is ASCII only. Python's `str.upper` also maps
  non-ASCII letters, for example "ß" to "SS".
- The checks `prometheus_client` makes when a gauge is created are left out:
  - name validation;
  - duplicate registration, for example a field that sanitises to
    `mqtt_message_total`, the counter's own name;
  - any `ValueError` that escapes the walk part-way.

  The registry accepts every name.
- Line 72 tests `prom_metrics.get(name)` for truthiness. A gauge object is
  always truthy, so the model tests membership.
- What paho does with an exception that escapes the callback is left out.
  `Registry.ExposeMetrics` returns the exception and nothing more.
- Concurrency is left out: messages are delivered one at a time.
