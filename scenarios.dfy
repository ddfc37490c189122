/** Whole messages through the exporter with the default configuration:
    what the registry holds after them. */
module Scenarios {
  import opened Strings
  import opened Payload
  import opened Coerce
  import opened Naming
  import opened Normalize
  import opened Exporter

  lemma TwentyAndAHalf(whole: string, frac: string)
    requires whole == "20" && frac == "5"
    ensures AllDigits(whole) && AllDigits(frac) && Decimal(whole, frac) == 20.5
  {
    assert DigitsValue(whole[..1]) == 2;
    assert DigitsValue(whole) == 20;
    assert DigitsValue(frac) == 5;
    assert Pow10(1) == 10;
  }

  lemma UpperOfReading(s: string)
    requires s == "20.5"
    ensures Upper(s) == s && s !in DefaultStates
  {
    assert forall i :: 0 <= i < |s| ==> Upper(s)[i] == s[i];
    assert DefaultStates.Keys == {"ON", "OFF", "TRUE", "FALSE"};
    assert forall w :: w in DefaultStates.Keys ==> w[0] != '2';
  }

  /** The text "20.5" a Shelly sensor publishes coerces to 20.5. */
  lemma {:induction false} ReadingCoerces(s: string)
    requires s == "20.5"
    ensures ParseMetric(DefaultStates, Str(s)) == Number(20.5)
  {
    UpperOfReading(s);
    var whole, frac := "20", "5";
    TwentyAndAHalf(whole, frac);
    assert s == whole + ['.'] + frac;
    ParseFloatPoint(whole, frac);
  }

  /** The gauge names of these scenarios hold no dot, space or group, so they are kept verbatim. */
  lemma NameKept(name: string)
    requires name == "mqtt_temperature" || name == "mqtt_a_b"
    ensures Sanitize(name) == name
  {
    SanitizePlain(name);
  }

  lemma TemperatureName(key: string)
    requires key == "temperature"
    ensures MetricName(DefaultConfig.prefix, "", key) == "mqtt_temperature"
  {
    assert DefaultConfig.prefix + "" + key == "mqtt_temperature";
    NameKept(DefaultConfig.prefix + "" + key);
  }

  lemma KitchenNotIgnored(topic: string)
    requires topic == "shellies/kitchen/temperature"
    ensures topic !in DefaultConfig.ignored
  {
    assert |topic| > 0;
  }

  /** The Shelly reading is extracted as {"temperature": "20.5"} under "shellies_kitchen". */
  lemma KitchenIngest(topic: string, decode: string -> Option<Json>)
    requires topic == "shellies/kitchen/temperature"
    ensures Ingest(DefaultConfig, decode, topic, Text("20.5"))
         == Extracted("shellies_kitchen", [("temperature", Str("20.5"))])
  {
    KitchenNotIgnored(topic);
    ShellyExample(topic, decode);
  }

  /** {"temperature": "20.5"} writes 20.5 to the gauge `mqtt_temperature`. */
  lemma ReadingWrites(fields: seq<(string, Json)>)
    requires fields == [("temperature", Str("20.5"))]
    ensures Writes(DefaultConfig, fields, "") == [("mqtt_temperature", 20.5)]
  {
    ReadingCoerces("20.5");
    WritesSingle(DefaultConfig, "temperature", Str("20.5"), "");
    TemperatureName("temperature");
  }

  /** One write on an empty registry creates one gauge with one series. */
  lemma SingleWrite(name: string, topic: string, v: real)
    ensures ApplyAll(map[], topic, [(name, v)]) == map[name := map[topic := v]]
  {
    assert [(name, v)][..0] == [];
  }

  /** A Shelly reading on an empty registry: "shellies/kitchen/temperature"
      carrying 20.5 creates the gauge `mqtt_temperature` with the series
      `{topic="shellies_kitchen"}` set to 20.5, and counts one message under
      "shellies_kitchen". */
  lemma {:induction false} ShellyReading(topic: string, decode: string -> Option<Json>)
    requires topic == "shellies/kitchen/temperature"
    ensures Step(DefaultConfig, decode, State(map[], map[]), topic, Text("20.5"))
         == State(map["mqtt_temperature" := map["shellies_kitchen" := 20.5]], map["shellies_kitchen" := 1])
  {
    var fields := [("temperature", Str("20.5"))];
    KitchenIngest(topic, decode);
    FirstMessage(DefaultConfig, "shellies_kitchen", fields);
    ReadingWrites(fields);
    SingleWrite("mqtt_temperature", "shellies_kitchen", 20.5);
  }

  /** The first extracted message on an empty registry counts once under its topic. */
  lemma FirstMessage(cfg: Config, t: string, fields: seq<(string, Json)>)
    ensures Apply(cfg, State(map[], map[]), Extracted(t, fields))
         == State(ApplyAll(map[], t, Writes(cfg, fields, "")), map[t := 1])
  {
  }

  lemma DevicesNotIgnored(topic: string)
    requires topic == "devices/sensor1"
    ensures topic !in DefaultConfig.ignored
  {
    assert |topic| > 0;
  }

  /** A bare number on "devices/sensor1" aborts the callback with
      `AttributeError`: no gauge is set and the message is not counted. */
  lemma {:induction false} ScalarAborts(topic: string, decode: string -> Option<Json>, s: State)
    requires topic == "devices/sensor1" && decode("42") == Some(Num(42.0))
    ensures Ingest(DefaultConfig, decode, topic, Text("42")) == Aborted(AttributeError)
    ensures Step(DefaultConfig, decode, s, topic, Text("42")) == s
  {
    DevicesNotIgnored(topic);
    ScalarWrapped(topic, decode);
  }

  lemma NestedName(p: string, key: string)
    requires p == "a_" && key == "b"
    ensures MetricName(DefaultConfig.prefix, p, key) == "mqtt_a_b"
  {
    assert DefaultConfig.prefix + p + key == "mqtt_a_b";
    NameKept(DefaultConfig.prefix + p + key);
  }

  /** A nested mapping {"a": {"b": 5}} writes the gauge `mqtt_a_b`. */
  lemma {:induction false} NestedWrites(inner: seq<(string, Json)>)
    requires inner == [("b", Num(5.0))]
    ensures Writes(DefaultConfig, [("a", Obj(inner))], "") == [("mqtt_a_b", 5.0)]
  {
    WritesSingle(DefaultConfig, "a", Obj(inner), "");
    assert "" + "a" + "_" == "a_";
    WritesSingle(DefaultConfig, "b", Num(5.0), "a_");
    NestedName("a_", "b");
  }

  /** Walking {"a": {"b": 5}} under any topic on an empty registry creates
      the one gauge `mqtt_a_b`, whose series for that topic holds 5. */
  lemma NestedExtract(inner: seq<(string, Json)>, topic: string)
    requires inner == [("b", Num(5.0))]
    ensures ApplyAll(map[], topic, Writes(DefaultConfig, [("a", Obj(inner))], ""))
         == map["mqtt_a_b" := map[topic := 5.0]]
  {
    NestedWrites(inner);
    SingleWrite("mqtt_a_b", topic, 5.0);
  }

  lemma FlatName(key: string)
    requires key == "a_b"
    ensures MetricName(DefaultConfig.prefix, "", key) == "mqtt_a_b"
  {
    assert DefaultConfig.prefix + "" + key == "mqtt_a_b";
    NameKept(DefaultConfig.prefix + "" + key);
  }

  /** The paths a → b and a_b name the same gauge: {"a": {"b": 5}} and
      {"a_b": 5} write the same series. */
  lemma {:induction false} NestedAndFlatCollide(inner: seq<(string, Json)>, key: string)
    requires inner == [("b", Num(5.0))] && key == "a_b"
    ensures Writes(DefaultConfig, [("a", Obj(inner))], "") == Writes(DefaultConfig, [(key, Num(5.0))], "")
  {
    NestedWrites(inner);
    WritesSingle(DefaultConfig, key, Num(5.0), "");
    FlatName(key);
  }

  /** A payload that is not JSON on a topic without the Shelly marker changes
      nothing: no gauge is set and no message is counted. */
  lemma MalformedLeavesState(cfg: Config, decode: string -> Option<Json>, s: State, topic: string, text: string)
    requires decode(text).None? && !Contains(topic, ShellyMarker)
    ensures Step(cfg, decode, s, topic, Text(text)) == s
  {
    if topic !in cfg.ignored {
      DecodeFailureDrops(topic, Text(text), decode);
    }
  }
}
