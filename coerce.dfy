/** The scalar coercer: `_parse_metric` turns one leaf of a payload into a
    number, or reports that it cannot. Text goes through the state-word table
    first and through a model of Python's `float()` after that. */
module Coerce {
  import opened Strings
  import opened Payload

  /** The outcome of coercing one leaf: a number, or the `ValueError` the
      source raises, carrying the value that could not be converted. */
  datatype Coerced = Number(value: real) | NotNumeric(offending: Json)

  /** `STATE_VALUES`: switch states reported as words. */
  const DefaultStates: map<string, real> := map["ON" := 1.0, "OFF" := 0.0, "TRUE" := 1.0, "FALSE" := 0.0]

  predicate IsDigit(c: char) { '0' <= c <= '9' }

  predicate AllDigits(s: string) { forall i :: 0 <= i < |s| ==> IsDigit(s[i]) }

  /** The value of a run of decimal digits (0 for the empty run). */
  function DigitsValue(s: string): nat
    requires AllDigits(s)
  {
    if s == [] then 0 else 10 * DigitsValue(s[..|s| - 1]) + (s[|s| - 1] as int - '0' as int)
  }

  function Pow10(n: nat): (r: nat)
    ensures r >= 1
  {
    if n == 0 then 1 else 10 * Pow10(n - 1)
  }

  /** The characters `float()` strips around a numeral: space, tab, line
      feed, vertical tab, form feed and carriage return. Other ASCII control
      characters are kept and make the parse fail, even those `str.isspace`
      accepts (U+001C to U+001F). */
  predicate IsSpace(c: char)
  {
    c == ' ' || 9 <= c as int <= 13
  }

  predicate IsPoint(c: char) { c == '.' }

  predicate IsExponentMark(c: char) { c == 'e' || c == 'E' }

  /** The characters that may appear in a decimal floating-point literal. */
  predicate IsLiteralChar(c: char)
  {
    IsDigit(c) || c == '+' || c == '-' || c == '.' || IsExponentMark(c)
  }

  /** `s` without its leading whitespace: a suffix of `s` preceded only by whitespace. */
  function TrimLeft(s: string): (r: string)
    ensures |r| <= |s| && r == s[|s| - |r|..]
    ensures forall i :: 0 <= i < |s| - |r| ==> IsSpace(s[i])
    ensures r != [] ==> !IsSpace(r[0])
  {
    if s != [] && IsSpace(s[0]) then TrimLeft(s[1..]) else s
  }

  /** `s` without its trailing whitespace: a prefix of `s` followed only by whitespace. */
  function TrimRight(s: string): (r: string)
    ensures |r| <= |s| && r == s[..|r|]
    ensures forall i :: |r| <= i < |s| ==> IsSpace(s[i])
    ensures r != [] ==> !IsSpace(r[|r| - 1])
  {
    if s != [] && IsSpace(s[|s| - 1]) then TrimRight(s[..|s| - 1]) else s
  }

  /** `s.strip()`, restricted to ASCII whitespace. */
  function Trim(s: string): string
  {
    TrimRight(TrimLeft(s))
  }

  /** The value of the decimal numeral `whole.frac`. */
  function Decimal(whole: string, frac: string): real
    requires AllDigits(whole) && AllDigits(frac)
  {
    DigitsValue(whole) as real + DigitsValue(frac) as real / Pow10(|frac|) as real
  }

  /** An unsigned mantissa: digits with at most one decimal point and at least one digit. */
  function ParseUnsigned(m: string): Option<real>
  {
    match FindFirst(m, IsPoint)
    case None =>
      if m != [] && AllDigits(m) then Some(DigitsValue(m) as real) else None
    case Some(p) =>
      var whole, frac := m[..p], m[p + 1..];
      if |whole| + |frac| > 0 && AllDigits(whole) && AllDigits(frac) then
        Some(Decimal(whole, frac))
      else None
  }

  /** An exponent after `e` or `E`: an optional sign and at least one digit. */
  function ParseExponent(e: string): Option<int>
  {
    var signed := e != [] && (e[0] == '+' || e[0] == '-');
    var digits := if signed then e[1..] else e;
    if digits != [] && AllDigits(digits) then
      var v: int := DigitsValue(digits);
      Some(if signed && e[0] == '-' then -v else v)
    else None
  }

  /** `m` times ten to the power `x`. */
  function Scale(m: real, x: int): real
  {
    if x >= 0 then m * Pow10(x) as real else m / Pow10(-x) as real
  }

  /** An unsigned literal: a mantissa, then optionally `e` or `E` and an exponent. */
  function ParseMagnitude(body: string): Option<real>
  {
    match FindFirst(body, IsExponentMark)
    case None => ParseUnsigned(body)
    case Some(e) =>
      match ParseUnsigned(body[..e])
      case None => None
      case Some(m) =>
        match ParseExponent(body[e + 1..])
        case None => None
        case Some(x) => Some(Scale(m, x))
  }

  /** Python's `float(s)` on decimal literals: surrounding whitespace, an
      optional sign, a mantissa and an optional exponent. */
  function ParseFloat(s: string): Option<real>
  {
    var t := Trim(s);
    if t != [] && (t[0] == '+' || t[0] == '-') then
      match ParseMagnitude(t[1..])
      case None => None
      case Some(v) => Some(if t[0] == '-' then -v else v)
    else ParseMagnitude(t)
  }

  /** Every character of `s` may appear in a literal. */
  predicate Lexical(s: string)
  {
    forall i :: 0 <= i < |s| ==> IsLiteralChar(s[i])
  }

  /** A literal character between two lexical strings makes a lexical string. */
  lemma AroundLexical(s: string, e: nat, front: string, back: string)
    requires e < |s| && front == s[..e] && back == s[e + 1..]
    requires IsLiteralChar(s[e]) && Lexical(front) && Lexical(back)
    ensures Lexical(s)
  {
    forall i | 0 <= i < |s| ensures IsLiteralChar(s[i]) {
      if i < e { assert s[i] == front[i]; }
      else if i > e { assert s[i] == back[i - e - 1]; }
    }
  }

  lemma UnsignedLexical(m: string)
    requires ParseUnsigned(m).Some?
    ensures Lexical(m)
  {
    match FindFirst(m, IsPoint)
    case None =>
    case Some(p) =>
      AroundLexical(m, p, m[..p], m[p + 1..]);
  }

  lemma ExponentLexical(x: string)
    requires ParseExponent(x).Some?
    ensures Lexical(x)
  {
    if x != [] && (x[0] == '+' || x[0] == '-') {
      AroundLexical(x, 0, [], x[1..]);
    }
  }

  lemma MagnitudeLexical(body: string)
    requires ParseMagnitude(body).Some?
    ensures Lexical(body)
  {
    match FindFirst(body, IsExponentMark)
    case None => UnsignedLexical(body);
    case Some(e) =>
      UnsignedLexical(body[..e]);
      ExponentLexical(body[e + 1..]);
      AroundLexical(body, e, body[..e], body[e + 1..]);
  }

  /** When the stripped text is lexical, every character of the text is whitespace or literal. */
  lemma TrimLexical(s: string)
    requires Lexical(Trim(s))
    ensures forall i :: 0 <= i < |s| ==> IsSpace(s[i]) || IsLiteralChar(s[i])
  {
    var l := TrimLeft(s);
    var t := TrimRight(l);
    forall i | 0 <= i < |s| && !IsSpace(s[i]) ensures IsLiteralChar(s[i]) {
      var k := i - (|s| - |l|);
      assert 0 <= k < |l| && s[i] == l[k];
      assert k < |t| && l[k] == t[k];
    }
  }

  /** Every string `ParseFloat` accepts is made only of whitespace and literal characters. */
  lemma ParseFloatLexical(s: string)
    requires ParseFloat(s).Some?
    ensures forall i :: 0 <= i < |s| ==> IsSpace(s[i]) || IsLiteralChar(s[i])
  {
    SignedLexical(Trim(s));
    TrimLexical(s);
  }

  /** An optional sign followed by an accepted magnitude is lexical. */
  lemma SignedLexical(t: string)
    requires t != [] && (t[0] == '+' || t[0] == '-') ==> ParseMagnitude(t[1..]).Some?
    requires !(t != [] && (t[0] == '+' || t[0] == '-')) ==> ParseMagnitude(t).Some?
    ensures Lexical(t)
  {
    if t != [] && (t[0] == '+' || t[0] == '-') {
      MagnitudeLexical(t[1..]);
      AroundLexical(t, 0, [], t[1..]);
    } else {
      MagnitudeLexical(t);
    }
  }

  /** Text holding a character that is neither whitespace nor part of a literal is not a float. */
  lemma ParseFloatRejects(s: string, i: nat)
    requires i < |s| && !IsSpace(s[i]) && !IsLiteralChar(s[i])
    ensures ParseFloat(s) == None
  {
    if ParseFloat(s).Some? {
      ParseFloatLexical(s);
      assert false;
    }
  }

  /** `_parse_metric`: numbers pass through (a JSON boolean is a Python `int`,
      so it gives 1 or 0); text is upper-cased and looked up among the state
      words, then parsed as a float; anything else is not numeric. */
  function ParseMetric(states: map<string, real>, data: Json): (r: Coerced)
    ensures r.NotNumeric? ==> r.offending == data
    ensures data.Num? ==> r == Number(data.n)
    ensures data.Bool? ==> r == Number(if data.b then 1.0 else 0.0)
    ensures data.Null? || data.Arr? || data.Obj? ==> r.NotNumeric?
    ensures data.Str? && Upper(data.s) in states ==> r == Number(states[Upper(data.s)])
    ensures data.Str? && Upper(data.s) !in states ==>
              (r.Number? <==> ParseFloat(Upper(data.s)).Some?)
    ensures data.Str? && Upper(data.s) !in states && ParseFloat(Upper(data.s)).Some? ==>
              r == Number(ParseFloat(Upper(data.s)).value)
  {
    match data
    case Num(n) => Number(n)
    case Bool(b) => Number(if b then 1.0 else 0.0)
    case Str(s) =>
      var u := Upper(s);
      if u in states then Number(states[u])
      else (
        match ParseFloat(u)
        case Some(v) => Number(v)
        case None => NotNumeric(data))
    case _ => NotNumeric(data)
  }

  /** `s` spells the lower-case word `w` in any mix of cases. */
  predicate CaseVariant(s: string, w: string)
  {
    |s| == |w| && forall i :: 0 <= i < |s| ==> UpperChar(s[i]) == UpperChar(w[i])
  }

  lemma UpperOfVariant(s: string, w: string)
    requires CaseVariant(s, w)
    ensures Upper(s) == Upper(w)
  {
    assert forall i :: 0 <= i < |s| ==> Upper(s)[i] == Upper(w)[i];
  }

  /** Every case variant of "on" or "true" coerces to 1 and of "off" or "false" to 0. */
  lemma StateWords(s: string)
    ensures CaseVariant(s, "on") || CaseVariant(s, "true") ==> ParseMetric(DefaultStates, Str(s)) == Number(1.0)
    ensures CaseVariant(s, "off") || CaseVariant(s, "false") ==> ParseMetric(DefaultStates, Str(s)) == Number(0.0)
  {
    assert Upper("on") == "ON";
    assert Upper("true") == "TRUE";
    assert Upper("off") == "OFF";
    assert Upper("false") == "FALSE";
    if CaseVariant(s, "on") { UpperOfVariant(s, "on"); }
    if CaseVariant(s, "true") { UpperOfVariant(s, "true"); }
    if CaseVariant(s, "off") { UpperOfVariant(s, "off"); }
    if CaseVariant(s, "false") { UpperOfVariant(s, "false"); }
  }

  /** Text that is not a state word and holds a character that cannot be part
      of a float literal is reported as not numeric, carrying the text. */
  lemma {:induction false} NonNumericText(states: map<string, real>, s: string, i: nat)
    requires i < |s| && Upper(s) !in states
    requires !IsSpace(UpperChar(s[i])) && !IsLiteralChar(UpperChar(s[i]))
    ensures ParseMetric(states, Str(s)) == NotNumeric(Str(s))
  {
    ParseFloatRejects(Upper(s), i);
  }

  /** Examples of values that fail to coerce: a word that is no number, and
      every container or null. */
  lemma {:induction false} NotNumericExamples(entries: seq<(string, Json)>, items: seq<Json>)
    ensures ParseMetric(DefaultStates, Str("notanumber")) == NotNumeric(Str("notanumber"))
    ensures ParseMetric(DefaultStates, Obj(entries)) == NotNumeric(Obj(entries))
    ensures ParseMetric(DefaultStates, Arr(items)) == NotNumeric(Arr(items))
    ensures ParseMetric(DefaultStates, Null) == NotNumeric(Null)
  {
    var s := "notanumber";
    assert forall w :: w in DefaultStates ==> |w| <= 5;
    assert |Upper(s)| == 10;
    NonNumericText(DefaultStates, s, 0);
  }

  lemma {:induction false} TrimmedAlready(s: string)
    requires s != [] && !IsSpace(s[0]) && !IsSpace(s[|s| - 1])
    ensures Trim(s) == s
  {
    assert TrimLeft(s) == s;
    assert TrimRight(s) == s;
  }

  lemma {:induction false} MagnitudeWithoutExponent(body: string)
    requires forall i :: 0 <= i < |body| ==> !IsExponentMark(body[i])
    ensures ParseMagnitude(body) == ParseUnsigned(body)
  {
    assert FindFirst(body, IsExponentMark).None?;
  }

  lemma {:induction false} UnsignedNumeral(d: string)
    requires d != [] && AllDigits(d)
    ensures ParseUnsigned(d) == Some(DigitsValue(d) as real)
  {
    assert FindFirst(d, IsPoint).None?;
  }

  /** A literal with no surrounding space, no sign and no exponent is parsed as a mantissa. */
  lemma {:induction false} ParseFloatPlain(s: string)
    requires s != [] && IsDigit(s[0]) && IsDigit(s[|s| - 1])
    requires forall i :: 0 <= i < |s| ==> !IsExponentMark(s[i])
    ensures ParseFloat(s) == ParseUnsigned(s)
  {
    TrimmedAlready(s);
    MagnitudeWithoutExponent(s);
  }

  /** A decimal numeral parses to its value, and so does the numeral with a sign in front. */
  lemma {:induction false} ParseFloatNumeral(d: string)
    requires d != [] && AllDigits(d)
    ensures ParseFloat(d) == Some(DigitsValue(d) as real)
    ensures ParseFloat(['+'] + d) == Some(DigitsValue(d) as real)
    ensures ParseFloat(['-'] + d) == Some(-(DigitsValue(d) as real))
  {
    ParseFloatPlain(d);
    UnsignedNumeral(d);
    MagnitudeWithoutExponent(d);
    SignedNumeral(d, '+');
    SignedNumeral(d, '-');
  }

  lemma {:induction false} SignedNumeral(d: string, sign: char)
    requires d != [] && AllDigits(d) && (sign == '+' || sign == '-')
    requires ParseMagnitude(d) == Some(DigitsValue(d) as real)
    ensures ParseFloat([sign] + d) == Some(if sign == '-' then -(DigitsValue(d) as real) else DigitsValue(d) as real)
  {
    var t := [sign] + d;
    assert t[|t| - 1] == d[|d| - 1];
    TrimmedAlready(t);
    assert t[1..] == d;
  }

  /** Parsing digits, a point and digits gives the value of that decimal numeral. */
  lemma {:induction false} ParseFloatPoint(whole: string, frac: string)
    requires whole != [] && frac != [] && AllDigits(whole) && AllDigits(frac)
    ensures ParseFloat(whole + ['.'] + frac) == Some(Decimal(whole, frac))
  {
    var s := whole + ['.'] + frac;
    PointNumeralShape(whole, frac, s);
    ParseFloatPlain(s);
    FindFirstAt(s, IsPoint, |whole|);
    UnsignedPoint(s, |whole|);
  }

  lemma {:induction false} PointNumeralShape(whole: string, frac: string, s: string)
    requires whole != [] && frac != [] && AllDigits(whole) && AllDigits(frac)
    requires s == whole + ['.'] + frac
    ensures IsDigit(s[0]) && IsDigit(s[|s| - 1]) && IsPoint(s[|whole|])
    ensures forall i :: 0 <= i < |s| ==> !IsExponentMark(s[i])
    ensures forall i :: 0 <= i < |whole| ==> !IsPoint(s[i])
    ensures s[..|whole|] == whole && s[|whole| + 1..] == frac
  {
    assert forall i :: 0 <= i < |whole| ==> s[i] == whole[i];
    assert forall i :: |whole| < i < |s| ==> s[i] == frac[i - |whole| - 1];
  }

  lemma {:induction false} UnsignedPoint(m: string, p: nat)
    requires FindFirst(m, IsPoint) == Some(p)
    requires p > 0 && AllDigits(m[..p]) && AllDigits(m[p + 1..])
    ensures ParseUnsigned(m) == Some(Decimal(m[..p], m[p + 1..]))
  {
  }

  lemma {:induction false} UpperKeepsDigits(d: string)
    requires AllDigits(d)
    ensures Upper(d) == d
  {
    assert forall i :: 0 <= i < |d| ==> Upper(d)[i] == d[i];
  }

  lemma {:induction false} DigitsAreNoStateWord(d: string)
    requires d != [] && IsDigit(d[0])
    ensures d !in DefaultStates
  {
    assert DefaultStates.Keys == {"ON", "OFF", "TRUE", "FALSE"};
    assert forall w :: w in DefaultStates.Keys ==> !IsDigit(w[0]);
  }

  /** A numeral sent as text coerces to its value: digits are never state words. */
  lemma {:induction false} NumericText(d: string)
    requires d != [] && AllDigits(d)
    ensures ParseMetric(DefaultStates, Str(d)) == Number(DigitsValue(d) as real)
  {
    UpperKeepsDigits(d);
    DigitsAreNoStateWord(d);
    ParseFloatNumeral(d);
  }
}
