/** The exporter: the message callback `expose_metrics` and the walk
    `_parse_metrics` over a decoded payload, which sets one gauge series per
    numeric leaf (labelled with the flattened topic) and then counts the
    message under its topic. The Prometheus registry is the class `Registry`;
    what it holds after a message is specified by the function `Step`. */
module Exporter {
  import opened Strings
  import opened Payload
  import opened Coerce
  import opened Naming
  import opened Normalize

  /** The settings read from the environment at start-up: the metric name
      prefix, the state-word table and the topics to ignore. */
  datatype Config = Config(prefix: string, states: map<string, real>, ignored: seq<string>)

  /** `os.getenv("MQTT_IGNORED_TOPICS", "").split(",")`. */
  function IgnoredTopics(setting: string): seq<string>
  {
    Split(setting, ',')
  }

  /** With the setting unset, the list of ignored topics holds only the empty topic. */
  lemma IgnoredByDefault()
    ensures IgnoredTopics("") == [""]
  {
  }

  /** The configuration when no variable is set. */
  const DefaultConfig: Config := Config("mqtt_", DefaultStates, IgnoredTopics(""))

  /** The gauges created so far: gauge name, then topic label, then value. */
  type Gauges = map<string, map<string, real>>

  /** The value of the series `name{topic}`, if it has been set. */
  function Cell(g: Gauges, name: string, topic: string): Option<real>
  {
    if name in g && topic in g[name] then Some(g[name][topic]) else None
  }

  /** Lines 72-79: create gauge `name` if it does not exist, then set its
      series for `topic` to `v`. No other gauge and no other series changes. */
  function SetGauge(g: Gauges, name: string, topic: string, v: real): Gauges
  {
    g[name := (if name in g then g[name] else map[])[topic := v]]
  }

  /** `SetGauge` creates `name` if needed, sets `name{topic}` to `v`, and
      changes no other gauge and no other series. */
  lemma SetGaugeEffect(g: Gauges, name: string, topic: string, v: real)
    ensures var r := SetGauge(g, name, topic, v);
            && (forall n :: n in r <==> n in g || n == name)
            && Cell(r, name, topic) == Some(v)
            && (forall n, t :: n != name || t != topic ==> Cell(r, n, t) == Cell(g, n, t))
  {
  }

  /** The value the last write to `name` in `us` carries, if any write does. */
  function LastWrite(us: seq<(string, real)>, name: string): (r: Option<real>)
    ensures r.Some? ==> exists i :: 0 <= i < |us| && us[i] == (name, r.value) &&
                          forall j :: i < j < |us| ==> us[j].0 != name
    ensures r.None? ==> forall i :: 0 <= i < |us| ==> us[i].0 != name
    decreases |us|
  {
    if us == [] then None
    else if Last(us).0 == name then Some(Last(us).1)
    else LastWrite(us[..|us| - 1], name)
  }

  /** The gauges after the writes `us`, in order, all labelled with `topic`. */
  function ApplyAll(g: Gauges, topic: string, us: seq<(string, real)>): Gauges
    decreases |us|
  {
    if us == [] then g
    else SetGauge(ApplyAll(g, topic, us[..|us| - 1]), Last(us).0, topic, Last(us).1)
  }

  /** What a sequence of writes does to the registry: the gauges written are
      created, every other gauge stays; the series for `topic` of a written
      gauge holds the last value written to it; every other series is as before. */
  lemma {:induction false} ApplyAllEffect(g: Gauges, topic: string, us: seq<(string, real)>)
    ensures forall n :: n in ApplyAll(g, topic, us) <==> n in g || LastWrite(us, n).Some?
    ensures forall n, t :: Cell(ApplyAll(g, topic, us), n, t) ==
              if t == topic && LastWrite(us, n).Some? then LastWrite(us, n) else Cell(g, n, t)
    decreases |us|
  {
    if us != [] {
      ApplyAllEffect(g, topic, us[..|us| - 1]);
      SetGaugeEffect(ApplyAll(g, topic, us[..|us| - 1]), Last(us).0, topic, Last(us).1);
    }
  }

  /** Writing `us` and then `vs` is writing `us + vs`. */
  lemma {:induction false} ApplyAllAppend(g: Gauges, topic: string, us: seq<(string, real)>, vs: seq<(string, real)>)
    ensures ApplyAll(g, topic, us + vs) == ApplyAll(ApplyAll(g, topic, us), topic, vs)
    decreases |vs|
  {
    if vs == [] {
      assert us + vs == us;
    } else {
      var ws := us + vs;
      assert ws[..|ws| - 1] == us + vs[..|vs| - 1];
      assert Last(ws) == Last(vs);
      ApplyAllAppend(g, topic, us, vs[..|vs| - 1]);
    }
  }

  /** Two registries with the same gauges and the same series are equal. */
  lemma GaugesEqual(a: Gauges, b: Gauges)
    requires forall n :: n in a <==> n in b
    requires forall n, t :: Cell(a, n, t) == Cell(b, n, t)
    ensures a == b
  {
    forall n | n in a ensures a[n] == b[n] {
      assert forall t :: t in a[n] <==> Cell(a, n, t).Some?;
      assert forall t :: t in a[n] ==> a[n][t] == Cell(b, n, t).value;
    }
  }

  /** Repeating the same writes under the same topic changes nothing more. */
  lemma ApplyAllIdempotent(g: Gauges, topic: string, us: seq<(string, real)>)
    ensures ApplyAll(ApplyAll(g, topic, us), topic, us) == ApplyAll(g, topic, us)
  {
    var once := ApplyAll(g, topic, us);
    ApplyAllEffect(g, topic, us);
    ApplyAllEffect(once, topic, us);
    GaugesEqual(ApplyAll(once, topic, us), once);
  }

  /** `_parse_metrics(data, topic, prefix)`, lines 51-80, restricted to the
      first `n` entries of `data`: the numbers it sets, in order, each with its
      path `prefix + key` (the gauge name before the global prefix and the
      sanitiser are applied). A nested mapping is walked with the prefix
      `prefix + key + "_"`; any other value is coerced with `coerce`, and a
      value that is not numeric is skipped. The walk is the same whatever the
      coercer; `Writes` instantiates it with `_parse_metric`. */
  function Updates(coerce: Json -> Coerced, data: Json, prefix: string, n: nat): seq<(string, real)>
    requires data.Obj? && n <= |data.entries|
    decreases data, 1, n
  {
    if n == 0 then []
    else
      var (key, value) := data.entries[n - 1];
      Updates(coerce, data, prefix, n - 1) + EntryWrites(coerce, prefix, key, value)
  }

  /** Lines 63-79 for one leaf: one number when it coerces, none otherwise. */
  function LeafWrites(prefix: string, key: string, coerced: Coerced): seq<(string, real)>
  {
    match coerced
    case Number(x) => [(prefix + key, x)]
    case NotNumeric(_) => []
  }

  /** The numbers set for the entry `key: value`. */
  function EntryWrites(coerce: Json -> Coerced, prefix: string, key: string, value: Json): seq<(string, real)>
    decreases value, 2
  {
    if value.Obj? then Updates(coerce, value, prefix + key + "_", |value.entries|)
    else LeafWrites(prefix, key, coerce(value))
  }

  /** The numbers for one more entry follow those for the entries before it. */
  lemma UpdatesNext(coerce: Json -> Coerced, data: Json, prefix: string, i: nat)
    requires data.Obj? && i < |data.entries|
    ensures Updates(coerce, data, prefix, i + 1) ==
              Updates(coerce, data, prefix, i) + EntryWrites(coerce, prefix, data.entries[i].0, data.entries[i].1)
  {
  }

  /** `UpdatesNext` for an entry given by its key and value, from `i` entries to `next`. */
  lemma UpdatesStep(coerce: Json -> Coerced, data: Json, prefix: string, i: nat, next: nat, key: string, value: Json)
    requires data.Obj? && next == i + 1 && next <= |data.entries| && data.entries[i] == (key, value)
    ensures Updates(coerce, data, prefix, next) == Updates(coerce, data, prefix, i) + EntryWrites(coerce, prefix, key, value)
  {
    UpdatesNext(coerce, data, prefix, i);
  }

  /** Every path extends the prefix the walk started with. */
  lemma {:induction false} UpdatesPaths(coerce: Json -> Coerced, data: Json, prefix: string, n: nat)
    requires data.Obj? && n <= |data.entries|
    ensures forall i :: 0 <= i < |Updates(coerce, data, prefix, n)| ==> prefix <= Updates(coerce, data, prefix, n)[i].0
    decreases data, n
  {
    if n > 0 {
      UpdatesPaths(coerce, data, prefix, n - 1);
      var (key, value) := data.entries[n - 1];
      var ew := EntryWrites(coerce, prefix, key, value);
      assert Updates(coerce, data, prefix, n) == Updates(coerce, data, prefix, n - 1) + ew;
      if value.Obj? {
        var inner := prefix + key + "_";
        UpdatesPaths(coerce, value, inner, |value.entries|);
        assert prefix <= inner;
        assert ew == Updates(coerce, value, inner, |value.entries|);
      } else {
        assert ew == LeafWrites(prefix, key, coerce(value));
      }
    }
  }

  /** The numbers for the first `n` entries depend on those entries only. */
  lemma {:induction false} UpdatesSameEntries(coerce: Json -> Coerced, a: Json, b: Json, prefix: string, n: nat)
    requires a.Obj? && b.Obj? && n <= |a.entries| && n <= |b.entries|
    requires a.entries[..n] == b.entries[..n]
    ensures Updates(coerce, a, prefix, n) == Updates(coerce, b, prefix, n)
  {
    if n > 0 {
      assert a.entries[..n - 1] == a.entries[..n][..n - 1];
      assert b.entries[..n - 1] == b.entries[..n][..n - 1];
      assert a.entries[n - 1] == a.entries[..n][n - 1];
      assert b.entries[n - 1] == b.entries[..n][n - 1];
      UpdatesSameEntries(coerce, a, b, prefix, n - 1);
    }
  }

  /** The numbers for entries `k .. n` of `a` follow those for the first `k`
      when those `j` entries are the first `j` entries of `b`. */
  lemma {:induction false} UpdatesShift(coerce: Json -> Coerced, a: Json, b: Json, k: nat, prefix: string, j: nat, n: nat)
    requires a.Obj? && b.Obj? && j <= |b.entries| && n == k + j && n <= |a.entries|
    requires a.entries[k..n] == b.entries[..j]
    ensures Updates(coerce, a, prefix, n) == Updates(coerce, a, prefix, k) + Updates(coerce, b, prefix, j)
  {
    if j == 0 {
      assert Updates(coerce, a, prefix, k) + [] == Updates(coerce, a, prefix, k);
    } else {
      var m, jp := n - 1, j - 1;
      assert a.entries[m] == b.entries[jp] by {
        assert a.entries[k..n][jp] == b.entries[..j][jp];
      }
      SliceOfSlice(a.entries, k, m, n, jp);
      PrefixOfPrefix(b.entries, jp, j);
      var (key, value) := b.entries[jp];
      UpdatesShift(coerce, a, b, k, prefix, jp, m);
      UpdatesStep(coerce, a, prefix, m, n, key, value);
      UpdatesStep(coerce, b, prefix, jp, j, key, value);
      RegroupLast(Updates(coerce, a, prefix, n), Updates(coerce, a, prefix, m),
                  Updates(coerce, a, prefix, k), Updates(coerce, b, prefix, jp),
                  EntryWrites(coerce, prefix, key, value), Updates(coerce, b, prefix, j));
    }
  }

  lemma SliceOfSlice<T>(s: seq<T>, k: nat, m: nat, n: nat, len: nat)
    requires k <= m <= n <= |s| && len == m - k
    ensures s[k..n][..len] == s[k..m]
  {
  }

  lemma PrefixOfPrefix<T>(s: seq<T>, m: nat, n: nat)
    requires m <= n <= |s|
    ensures s[..n][..m] == s[..m]
  {
  }

  /** If `whole` is `init + last`, `init` is `front + mid` and `tail` is
      `mid + last`, then `whole` is `front + tail`. */
  lemma RegroupLast<T>(whole: seq<T>, init: seq<T>, front: seq<T>, mid: seq<T>, last: seq<T>, tail: seq<T>)
    requires whole == init + last && init == front + mid && tail == mid + last
    ensures whole == front + tail
  {
    assert (front + mid) + last == front + (mid + last);
  }

  /** `_parse_metric` under the configured state words, as a value. */
  function Coercion(states: map<string, real>): Json -> Coerced
  {
    v => ParseMetric(states, v)
  }

  /** Lines 70-71 applied to every path: the gauge name is the sanitised
      `PREFIX + path`. */
  function Named(globalPrefix: string, us: seq<(string, real)>): seq<(string, real)>
    decreases |us|
  {
    if us == [] then []
    else Named(globalPrefix, us[..|us| - 1]) + [(Sanitize(globalPrefix + us[|us| - 1].0), us[|us| - 1].1)]
  }

  /** Naming keeps the writes in order and renames each one in place. */
  lemma {:induction false} NamedAt(globalPrefix: string, us: seq<(string, real)>)
    ensures |Named(globalPrefix, us)| == |us|
    ensures forall i :: 0 <= i < |us| ==> Named(globalPrefix, us)[i] == (Sanitize(globalPrefix + us[i].0), us[i].1)
    decreases |us|
  {
    if us != [] {
      var init := us[..|us| - 1];
      NamedAt(globalPrefix, init);
      assert forall i :: 0 <= i < |init| ==> us[i] == init[i];
    }
  }

  lemma {:induction false} NamedAppend(globalPrefix: string, us: seq<(string, real)>, vs: seq<(string, real)>)
    ensures Named(globalPrefix, us + vs) == Named(globalPrefix, us) + Named(globalPrefix, vs)
    decreases |vs|
  {
    if vs == [] {
      assert us + vs == us;
    } else {
      var init := vs[..|vs| - 1];
      assert (us + vs)[..|us + vs| - 1] == us + init;
      NamedAppend(globalPrefix, us, init);
    }
  }

  /** All the gauge writes `_parse_metrics` makes for a mapping, in order. */
  function Writes(cfg: Config, fields: seq<(string, Json)>, prefix: string): seq<(string, real)>
  {
    Named(cfg.prefix, Updates(Coercion(cfg.states), Obj(fields), prefix, |fields|))
  }

  /** A gauge name the sanitiser can produce: no dot, no space, no group. */
  predicate CleanName(name: string)
  {
    '.' !in name && ' ' !in name && NoGroup(name)
  }

  /** Every name `Named` gives is a sanitised one. */
  lemma NamedClean(globalPrefix: string, us: seq<(string, real)>)
    ensures forall i :: 0 <= i < |Named(globalPrefix, us)| ==> CleanName(Named(globalPrefix, us)[i].0)
  {
    NamedAt(globalPrefix, us);
    forall i | 0 <= i < |us| ensures CleanName(Named(globalPrefix, us)[i].0) {
      SanitizeClean(globalPrefix + us[i].0);
    }
  }

  /** Paths that all start with `prefix` give names that all start with
      `globalPrefix + prefix`, when that holds no dot, no space and no '('. */
  lemma NamedPrefixed(globalPrefix: string, prefix: string, us: seq<(string, real)>)
    requires '.' !in globalPrefix + prefix && ' ' !in globalPrefix + prefix && '(' !in globalPrefix + prefix
    requires forall i :: 0 <= i < |us| ==> prefix <= us[i].0
    ensures forall i :: 0 <= i < |Named(globalPrefix, us)| ==> globalPrefix + prefix <= Named(globalPrefix, us)[i].0
  {
    NamedAt(globalPrefix, us);
    var p := globalPrefix + prefix;
    forall i | 0 <= i < |us| ensures p <= Named(globalPrefix, us)[i].0 {
      var rest := us[i].0[|prefix|..];
      assert globalPrefix + us[i].0 == p + rest;
      SanitizePlainPrefix(p, rest);
    }
  }

  /** Every gauge written has a sanitised name. */
  lemma WritesClean(cfg: Config, fields: seq<(string, Json)>, prefix: string)
    ensures forall i :: 0 <= i < |Writes(cfg, fields, prefix)| ==> CleanName(Writes(cfg, fields, prefix)[i].0)
  {
    NamedClean(cfg.prefix, Updates(Coercion(cfg.states), Obj(fields), prefix, |fields|));
  }

  /** With a configured prefix that holds no dot, no space and no '(', every
      gauge name starts with `PREFIX + prefix`, where `prefix` is the path the
      walk started from. */
  lemma WritesPrefixed(cfg: Config, fields: seq<(string, Json)>, prefix: string)
    requires '.' !in cfg.prefix + prefix && ' ' !in cfg.prefix + prefix && '(' !in cfg.prefix + prefix
    ensures forall i :: 0 <= i < |Writes(cfg, fields, prefix)| ==> cfg.prefix + prefix <= Writes(cfg, fields, prefix)[i].0
  {
    var us := Updates(Coercion(cfg.states), Obj(fields), prefix, |fields|);
    UpdatesPaths(Coercion(cfg.states), Obj(fields), prefix, |fields|);
    NamedPrefixed(cfg.prefix, prefix, us);
  }

  /** Entries are walked independently of one another: the writes for a
      mapping are the writes for its first entries followed by the writes for
      the rest, so an entry that is skipped does not affect its siblings. */
  lemma WritesSplit(cfg: Config, e1: seq<(string, Json)>, e2: seq<(string, Json)>, prefix: string)
    ensures Writes(cfg, e1 + e2, prefix) == Writes(cfg, e1, prefix) + Writes(cfg, e2, prefix)
  {
    var coerce := Coercion(cfg.states);
    UpdatesSplit(coerce, e1, e2, prefix);
    NamedAppend(cfg.prefix, Updates(coerce, Obj(e1), prefix, |e1|), Updates(coerce, Obj(e2), prefix, |e2|));
  }

  /** The numbers for `e1 + e2` are those for `e1` followed by those for `e2`. */
  lemma UpdatesSplit(coerce: Json -> Coerced, e1: seq<(string, Json)>, e2: seq<(string, Json)>, prefix: string)
    ensures Updates(coerce, Obj(e1 + e2), prefix, |e1 + e2|)
         == Updates(coerce, Obj(e1), prefix, |e1|) + Updates(coerce, Obj(e2), prefix, |e2|)
  {
    var whole := Obj(e1 + e2);
    AppendParts(e1, e2);
    UpdatesSameEntries(coerce, whole, Obj(e1), prefix, |e1|);
    UpdatesShift(coerce, whole, Obj(e2), |e1|, prefix, |e2|, |e1 + e2|);
  }

  lemma AppendParts<T>(e1: seq<T>, e2: seq<T>)
    ensures (e1 + e2)[..|e1|] == e1[..|e1|]
    ensures (e1 + e2)[|e1|..|e1 + e2|] == e2[..|e2|]
  {
  }

  /** A single entry: a nested mapping contributes the writes of its own
      entries under `prefix + key + "_"`; a leaf contributes one write, to the
      gauge `MetricName`, when it coerces to a number and none when it does not. */
  lemma WritesSingle(cfg: Config, key: string, value: Json, prefix: string)
    ensures value.Obj? ==> Writes(cfg, [(key, value)], prefix) == Writes(cfg, value.entries, prefix + key + "_")
    ensures !value.Obj? && ParseMetric(cfg.states, value).Number? ==>
              Writes(cfg, [(key, value)], prefix) == [(MetricName(cfg.prefix, prefix, key), ParseMetric(cfg.states, value).value)]
    ensures !value.Obj? && ParseMetric(cfg.states, value).NotNumeric? ==> Writes(cfg, [(key, value)], prefix) == []
  {
    var coerce := Coercion(cfg.states);
    var one := Obj([(key, value)]);
    var ew := EntryWrites(coerce, prefix, key, value);
    UpdatesNext(coerce, one, prefix, 0);
    assert Updates(coerce, one, prefix, 1) == ew by {
      assert Updates(coerce, one, prefix, 0) == [];
      assert [] + ew == ew;
    }
    if value.Obj? {
      assert value == Obj(value.entries);
    } else if ParseMetric(cfg.states, value).Number? {
      var leaf := [(prefix + key, ParseMetric(cfg.states, value).value)];
      assert ew == leaf;
      assert leaf[..0] == [];
      assert cfg.prefix + prefix + key == cfg.prefix + (prefix + key);
      assert Named(cfg.prefix, leaf) == [] + [(MetricName(cfg.prefix, prefix, key), leaf[0].1)];
    } else {
      assert ew == [];
    }
  }

  /** A numeric leaf sets one series of the gauge `MetricName`. */
  lemma LeafEntry(g: Gauges, topic: string, coerce: Json -> Coerced, globalPrefix: string, prefix: string, key: string, value: Json, v: real)
    requires !value.Obj? && coerce(value) == Number(v)
    ensures SetGauge(g, MetricName(globalPrefix, prefix, key), topic, v)
         == ApplyAll(g, topic, Named(globalPrefix, EntryWrites(coerce, prefix, key, value)))
  {
    assert EntryWrites(coerce, prefix, key, value) == LeafWrites(prefix, key, coerce(value));
    LeafNamed(globalPrefix, prefix, key, v);
    OneWrite(g, topic, MetricName(globalPrefix, prefix, key), v);
  }

  lemma LeafNamed(globalPrefix: string, prefix: string, key: string, v: real)
    ensures Named(globalPrefix, [(prefix + key, v)]) == [(MetricName(globalPrefix, prefix, key), v)]
  {
    var leaf := [(prefix + key, v)];
    assert globalPrefix + prefix + key == globalPrefix + (prefix + key);
    assert leaf[..0] == [];
  }

  lemma OneWrite(g: Gauges, topic: string, name: string, v: real)
    ensures ApplyAll(g, topic, [(name, v)]) == SetGauge(g, name, topic, v)
  {
    assert [(name, v)][..0] == [];
  }

  /** A leaf that is not numeric sets nothing. */
  lemma SkipEntry(g: Gauges, topic: string, coerce: Json -> Coerced, globalPrefix: string, prefix: string, key: string, value: Json)
    requires !value.Obj? && coerce(value).NotNumeric?
    ensures ApplyAll(g, topic, Named(globalPrefix, EntryWrites(coerce, prefix, key, value))) == g
  {
    assert EntryWrites(coerce, prefix, key, value) == [];
  }

  /** The loop of `_parse_metrics` after entry `i`: the writes so far followed
      by those of entry `i` are the writes for the first `i + 1` entries. */
  lemma EntryAdvance(g: Gauges, topic: string, coerce: Json -> Coerced, globalPrefix: string, data: Json, prefix: string, i: nat, next: nat)
    requires data.Obj? && next == i + 1 && next <= |data.entries|
    ensures ApplyAll(ApplyAll(g, topic, Named(globalPrefix, Updates(coerce, data, prefix, i))), topic,
                     Named(globalPrefix, EntryWrites(coerce, prefix, data.entries[i].0, data.entries[i].1)))
         == ApplyAll(g, topic, Named(globalPrefix, Updates(coerce, data, prefix, next)))
  {
    var (key, value) := data.entries[i];
    UpdatesStep(coerce, data, prefix, i, next, key, value);
    NestedStep(g, topic, globalPrefix, Updates(coerce, data, prefix, i), EntryWrites(coerce, prefix, key, value));
  }

  /** Walking a nested mapping after the writes `done` is writing `done` and its writes. */
  lemma NestedStep(g: Gauges, topic: string, globalPrefix: string, done: seq<(string, real)>, nested: seq<(string, real)>)
    ensures ApplyAll(ApplyAll(g, topic, Named(globalPrefix, done)), topic, Named(globalPrefix, nested))
         == ApplyAll(g, topic, Named(globalPrefix, done + nested))
  {
    NamedAppend(globalPrefix, done, nested);
    ApplyAllAppend(g, topic, Named(globalPrefix, done), Named(globalPrefix, nested));
  }

  /** What one message amounts to before `_parse_metrics` runs. */
  datatype Ingestion =
    | Ignored                    // the topic is in the ignore list (lines 167-169)
    | Dropped                    // `(None, None)`, an empty topic or an empty mapping (lines 173-174)
    | Aborted(fault: Fault)      // an exception escapes the callback
    | Extracted(topic: string, fields: seq<(string, Json)>)

  /** Lines 170-176 once `_parse_message` has returned: its exception
      escapes, an empty topic or mapping drops the message, and the call
      `data.items()` fails with `AttributeError` on a serialised (text) body
      before any gauge is touched. */
  function Classify(parsed: Outcome<Parsed>): Ingestion
  {
    match parsed
    case Raised(f) => Aborted(f)
    case Done(Unparsed) => Dropped
    case Done(Parsed(t, body)) =>
      if t == [] then Dropped
      else (
        match body
        case Serialized(_) => Aborted(AttributeError)
        case Dict(fields) => if fields == [] then Dropped else Extracted(t, fields))
  }

  /** Lines 167-176: the ignore list, then `_parse_message` and `Classify`. */
  function Ingest(cfg: Config, decode: string -> Option<Json>, topic: string, payload: Raw): Ingestion
  {
    if topic in cfg.ignored then Ignored else Classify(ParseMessage(topic, payload, decode))
  }

  /** The exception that escapes the callback for an ingestion, if any. */
  function Escaped(ing: Ingestion): Option<Fault>
  {
    match ing
    case Aborted(f) => Some(f)
    case _ => None
  }

  /** A message is ignored exactly when its topic is listed. Otherwise it is
      aborted exactly when `_parse_message` raises or returns a non-empty
      topic with a serialised body; it is extracted exactly when
      `_parse_message` returns a non-empty topic with a non-empty mapping, and
      then it carries that topic and that mapping; it is dropped exactly for
      `(None, None)`, an empty topic or an empty mapping. */
  lemma IngestCases(cfg: Config, decode: string -> Option<Json>, topic: string, payload: Raw)
    ensures var r := Ingest(cfg, decode, topic, payload);
            && (r.Ignored? <==> topic in cfg.ignored)
            && (r.Aborted? <==>
                  topic !in cfg.ignored &&
                  match ParseMessage(topic, payload, decode)
                  case Raised(_) => true
                  case Done(p) => p.Parsed? && p.topic != [] && p.body.Serialized?)
            && (r.Extracted? <==>
                  topic !in cfg.ignored &&
                  match ParseMessage(topic, payload, decode)
                  case Done(Parsed(t, Dict(f))) => t != [] && f != []
                  case _ => false)
            && (r.Extracted? ==> ParseMessage(topic, payload, decode) == Done(Parsed(r.topic, Dict(r.fields))))
            && (r.Dropped? <==>
                  topic !in cfg.ignored &&
                  match ParseMessage(topic, payload, decode)
                  case Done(Unparsed) => true
                  case Done(Parsed(t, body)) => t == [] || body == Dict([])
                  case Raised(_) => false)
            && (r.Extracted? ==> r.topic != [] && r.fields != [] && '/' !in r.topic)
  {
  }

  /** The exporter's state: the gauges and the message counter per topic label. */
  datatype State = State(gauges: Gauges, counter: map<string, nat>)

  /** The value of `message_total{topic}`; a series never incremented reads 0. */
  function Count(counter: map<string, nat>, topic: string): nat
  {
    if topic in counter then counter[topic] else 0
  }

  /** Lines 176-179: an extracted message has its writes applied under its
      topic and its topic's counter incremented; anything else changes nothing. */
  function Apply(cfg: Config, s: State, ing: Ingestion): State
  {
    match ing
    case Extracted(t, fields) =>
      State(ApplyAll(s.gauges, t, Writes(cfg, fields, "")), s.counter[t := Count(s.counter, t) + 1])
    case _ => s
  }

  /** `expose_metrics`, lines 163-179: the state after one message. */
  function Step(cfg: Config, decode: string -> Option<Json>, s: State, topic: string, payload: Raw): State
  {
    Apply(cfg, s, Ingest(cfg, decode, topic, payload))
  }

  /** Lines 167-179 for a message that is not ignored and that
      `_parse_message` turns into a non-empty mapping under a non-empty topic:
      the mapping is walked under that topic and the topic is counted once. */
  lemma StepExtracts(cfg: Config, decode: string -> Option<Json>, s: State, topic: string, payload: Raw,
                     t: string, fields: seq<(string, Json)>)
    requires topic !in cfg.ignored && t != [] && fields != []
    requires ParseMessage(topic, payload, decode) == Done(Parsed(t, Dict(fields)))
    ensures Step(cfg, decode, s, topic, payload)
         == State(ApplyAll(s.gauges, t, Writes(cfg, fields, "")), s.counter[t := Count(s.counter, t) + 1])
  {
    ClassifyMapping(t, fields);
    ApplyExtracted(cfg, s, t, fields);
  }

  lemma ApplyExtracted(cfg: Config, s: State, t: string, fields: seq<(string, Json)>)
    ensures Apply(cfg, s, Extracted(t, fields))
         == State(ApplyAll(s.gauges, t, Writes(cfg, fields, "")), s.counter[t := Count(s.counter, t) + 1])
  {
  }

  lemma ClassifyMapping(t: string, fields: seq<(string, Json)>)
    requires t != [] && fields != []
    ensures Classify(Done(Parsed(t, Dict(fields)))) == Extracted(t, fields)
  {
  }

  /** The counter of the message's topic goes up by one exactly when the
      message is extracted, every other counter stays, and a message that is
      not extracted leaves the whole state as it was. */
  lemma StepCounts(cfg: Config, decode: string -> Option<Json>, s: State, topic: string, payload: Raw)
    ensures var r := Step(cfg, decode, s, topic, payload);
            var ing := Ingest(cfg, decode, topic, payload);
            && (forall t :: Count(r.counter, t) == Count(s.counter, t) + (if ing.Extracted? && ing.topic == t then 1 else 0))
            && (!ing.Extracted? ==> r == s)
  {
  }

  /** A message on an ignored topic changes nothing, whatever it carries. */
  lemma IgnoredLeavesState(cfg: Config, decode: string -> Option<Json>, s: State, topic: string, payload: Raw)
    requires topic in cfg.ignored
    ensures Ingest(cfg, decode, topic, payload) == Ignored
    ensures Step(cfg, decode, s, topic, payload) == s
  {
  }

  /** The gauges after one extracted message: written gauges are created,
      their series for the message's topic hold the last value written, and
      every other series is untouched. */
  lemma StepGauges(cfg: Config, decode: string -> Option<Json>, s: State, topic: string, payload: Raw)
    requires Ingest(cfg, decode, topic, payload).Extracted?
    ensures var ing := Ingest(cfg, decode, topic, payload);
            var us := Writes(cfg, ing.fields, "");
            var g := Step(cfg, decode, s, topic, payload).gauges;
            && (forall n :: n in g <==> n in s.gauges || LastWrite(us, n).Some?)
            && (forall n, t :: Cell(g, n, t) ==
                  if t == ing.topic && LastWrite(us, n).Some? then LastWrite(us, n) else Cell(s.gauges, n, t))
  {
    var ing := Ingest(cfg, decode, topic, payload);
    ApplyAllEffect(s.gauges, ing.topic, Writes(cfg, ing.fields, ""));
  }

  /** A message delivered twice leaves the gauges as one delivery does; only
      its counter moves on. */
  lemma StepRedelivery(cfg: Config, decode: string -> Option<Json>, s: State, topic: string, payload: Raw)
    ensures var once := Step(cfg, decode, s, topic, payload);
            var twice := Step(cfg, decode, once, topic, payload);
            && twice.gauges == once.gauges
            && forall t :: Count(twice.counter, t) == Count(once.counter, t) + Count(once.counter, t) - Count(s.counter, t)
  {
    ApplyTwice(cfg, s, Ingest(cfg, decode, topic, payload));
  }

  /** Applying the same ingestion twice: the gauges are those after once, and the counter moves on by the same amount again. */
  lemma ApplyTwice(cfg: Config, s: State, ing: Ingestion)
    ensures var once := Apply(cfg, s, ing);
            var twice := Apply(cfg, once, ing);
            && twice.gauges == once.gauges
            && forall t :: Count(twice.counter, t) == Count(once.counter, t) + Count(once.counter, t) - Count(s.counter, t)
  {
    if ing.Extracted? {
      ApplyAllIdempotent(s.gauges, ing.topic, Writes(cfg, ing.fields, ""));
    }
  }

  /** What the registry always satisfies: every gauge name is sanitised and
      has at least one series; every series label is a topic that has been
      counted; every counted topic holds no '/' and has been counted at least once. */
  predicate Consistent(s: State)
  {
    && (forall n :: n in s.gauges ==> CleanName(n) && s.gauges[n] != map[])
    && (forall n, t :: n in s.gauges && t in s.gauges[n] ==> t in s.counter)
    && (forall t :: t in s.counter ==> '/' !in t && s.counter[t] >= 1)
  }

  /** Writing clean names under a topic without '/' and counting that topic keeps the registry consistent. */
  lemma WritesConsistent(s: State, t: string, us: seq<(string, real)>)
    requires Consistent(s) && '/' !in t
    requires forall i :: 0 <= i < |us| ==> CleanName(us[i].0)
    ensures Consistent(State(ApplyAll(s.gauges, t, us), s.counter[t := Count(s.counter, t) + 1]))
  {
    var c := s.counter[t := Count(s.counter, t) + 1];
    ApplyAllClean(s.gauges, t, us);
    ApplyAllLabels(s.gauges, t, us, c);
  }

  /** Writes to clean names keep every gauge clean and non-empty. */
  lemma {:induction false} ApplyAllClean(g: Gauges, topic: string, us: seq<(string, real)>)
    requires forall n :: n in g ==> CleanName(n) && g[n] != map[]
    requires forall i :: 0 <= i < |us| ==> CleanName(us[i].0)
    ensures forall n :: n in ApplyAll(g, topic, us) ==> CleanName(n) && ApplyAll(g, topic, us)[n] != map[]
    decreases |us|
  {
    if us != [] {
      var init := us[..|us| - 1];
      assert forall i :: 0 <= i < |init| ==> init[i] == us[i];
      ApplyAllClean(g, topic, init);
      var before := ApplyAll(g, topic, init);
      var (name, v) := Last(us);
      assert CleanName(name) by { assert us[|us| - 1] == Last(us); }
      assert topic in SetGauge(before, name, topic, v)[name];
    }
  }

  /** Writes under `topic` add no label but `topic` to any gauge. */
  lemma {:induction false} ApplyAllLabels(g: Gauges, topic: string, us: seq<(string, real)>, labels: map<string, nat>)
    requires topic in labels
    requires forall n, t :: n in g && t in g[n] ==> t in labels
    ensures forall n, t :: n in ApplyAll(g, topic, us) && t in ApplyAll(g, topic, us)[n] ==> t in labels
    decreases |us|
  {
    if us != [] {
      ApplyAllLabels(g, topic, us[..|us| - 1], labels);
    }
  }

  /** The registry starts consistent. */
  lemma EmptyConsistent()
    ensures Consistent(State(map[], map[]))
  {
  }

  /** Applying any ingestion whose topic holds no '/' keeps the registry consistent. */
  lemma ApplyConsistent(cfg: Config, s: State, ing: Ingestion)
    requires Consistent(s)
    requires ing.Extracted? ==> '/' !in ing.topic
    ensures Consistent(Apply(cfg, s, ing))
  {
    if ing.Extracted? {
      var us := Writes(cfg, ing.fields, "");
      WritesClean(cfg, ing.fields, "");
      WritesConsistent(s, ing.topic, us);
      assert Apply(cfg, s, ing) == State(ApplyAll(s.gauges, ing.topic, us), s.counter[ing.topic := Count(s.counter, ing.topic) + 1]);
    }
  }

  /** Every message keeps the registry consistent. */
  lemma StepConsistent(cfg: Config, decode: string -> Option<Json>, s: State, topic: string, payload: Raw)
    requires Consistent(s)
    ensures Consistent(Step(cfg, decode, s, topic, payload))
  {
    IngestCases(cfg, decode, topic, payload);
    ApplyConsistent(cfg, s, Ingest(cfg, decode, topic, payload));
  }

  /** The Prometheus registry: the gauges created so far and the message
      counter, both updated in place as messages arrive. */
  class Registry {
    var gauges: Gauges
    var counter: map<string, nat>

    /** A registry with no gauge and no counted message. */
    constructor ()
      ensures gauges == map[] && counter == map[]
    {
      gauges := map[];
      counter := map[];
    }

    /** The registry's content as a value. */
    function Snapshot(): State
      reads this
    {
      State(gauges, counter)
    }

    /** `_parse_metrics(data, topic, prefix)`: walk the entries of `data` in
        order and set one gauge series per numeric leaf. The counter is not
        touched. `globalPrefix` is PREFIX and `coerce` is `_parse_metric`;
        both are parameters so that the walk is proved for any coercion. */
    method ParseMetrics(globalPrefix: string, coerce: Json -> Coerced, data: Json, topic: string, prefix: string)
      requires data.Obj?
      modifies this
      ensures gauges == ApplyAll(old(gauges), topic, Named(globalPrefix, Updates(coerce, data, prefix, |data.entries|)))
      ensures counter == old(counter)
      decreases data, 1
    {
      var i := 0;
      while i < |data.entries|
        invariant i <= |data.entries|
        invariant gauges == ApplyAll(old(gauges), topic, Named(globalPrefix, Updates(coerce, data, prefix, i)))
        invariant counter == old(counter)
      {
        var (metric, value) := data.entries[i];
        VisitEntry(globalPrefix, coerce, metric, value, topic, prefix);
        EntryAdvance(old(gauges), topic, coerce, globalPrefix, data, prefix, i, i + 1);
        i := i + 1;
      }
    }

    /** Lines 56-79 for the entry `key: value`: a nested mapping is walked with
        the prefix `prefix + key + "_"`; any other value is coerced, sets the
        series of gauge `MetricName` when it is numeric, and is skipped when not. */
    method VisitEntry(globalPrefix: string, coerce: Json -> Coerced, key: string, value: Json, topic: string, prefix: string)
      modifies this
      ensures gauges == ApplyAll(old(gauges), topic, Named(globalPrefix, EntryWrites(coerce, prefix, key, value)))
      ensures counter == old(counter)
      decreases value, 2
    {
      if value.Obj? {
        ParseMetrics(globalPrefix, coerce, value, topic, prefix + key + "_");
      } else {
        var coerced := coerce(value);
        if coerced.Number? {
          LeafEntry(gauges, topic, coerce, globalPrefix, prefix, key, value, coerced.value);
          SetSeries(MetricName(globalPrefix, prefix, key), topic, coerced.value);
        } else {
          SkipEntry(gauges, topic, coerce, globalPrefix, prefix, key, value);
        }
      }
    }

    /** Lines 72-79: create gauge `name` if it does not exist yet, then set its
        series for `topic`. */
    method SetSeries(name: string, topic: string, v: real)
      modifies this
      ensures gauges == SetGauge(old(gauges), name, topic, v)
      ensures counter == old(counter)
    {
      if name !in gauges {
        gauges := gauges[name := map[]];
      }
      gauges := gauges[name := gauges[name][topic := v]];
    }

    /** `expose_metrics`: the registry moves to the state `Step` gives; the
        exception that escapes the callback, if any, is returned. */
    method ExposeMetrics(cfg: Config, decode: string -> Option<Json>, topic: string, payload: Raw)
      returns (raised: Option<Fault>)
      modifies this
      ensures Snapshot() == Step(cfg, decode, old(Snapshot()), topic, payload)
      ensures raised == Escaped(Ingest(cfg, decode, topic, payload))
    {
      if topic in cfg.ignored {
        return None;
      }
      var parsed := ParseMessage(topic, payload, decode);
      raised := Dispatch(cfg, parsed);
    }

    /** Lines 170-179: act on what `_parse_message` returned. Only an
        extracted mapping touches the registry: its gauges are set by
        `_parse_metrics` and then its topic is counted. */
    method Dispatch(cfg: Config, parsed: Outcome<Parsed>) returns (raised: Option<Fault>)
      modifies this
      ensures Snapshot() == Apply(cfg, old(Snapshot()), Classify(parsed))
      ensures raised == Escaped(Classify(parsed))
    {
      match parsed
      case Raised(f) =>
        return Some(f);
      case Done(Unparsed) =>
        return None;
      case Done(Parsed(t, body)) =>
        if t == [] {
          return None;
        }
        match body
        case Serialized(_) =>
          return Some(AttributeError);
        case Dict(fields) =>
          if fields == [] {
            return None;
          }
          Record(cfg, t, fields);
          return None;
    }

    /** Lines 176-179 for an extracted message: `_parse_metrics` sets its
        gauges, then the counter of its topic goes up by one. */
    method Record(cfg: Config, t: string, fields: seq<(string, Json)>)
      modifies this
      ensures Snapshot() == Apply(cfg, old(Snapshot()), Extracted(t, fields))
    {
      ParseMetrics(cfg.prefix, Coercion(cfg.states), Obj(fields), t, "");
      counter := counter[t := Count(counter, t) + 1];
    }
  }
}
