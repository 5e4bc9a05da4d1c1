/**
 The canonical JSON text that idempotency hashes are taken of: objects are printed with their keys in
 code-unit order, everything else as JSON.stringify prints it. Strings are sequences of UTF-16 code
 units; a number is represented by the token it prints as.
 */
module CanonicalJson {
  import opened Options

  type CodeUnit = u: int | 0 <= u < 0x10000

  type Text = seq<CodeUnit>

  datatype Named<T> = Named(name: Text, value: T)

  datatype Json =
    | Null
    | Boolean(b: bool)
    | Number(token: Text)
    | String(s: Text)
    | Array(items: seq<Json>)
    | Object(fields: seq<Named<Json>>)

  // ----- code units

  const QUOTE: CodeUnit := 34
  const COMMA: CodeUnit := 44
  const COLON: CodeUnit := 58
  const OPEN_BRACKET: CodeUnit := 91
  const BACKSLASH: CodeUnit := 92
  const CLOSE_BRACKET: CodeUnit := 93
  const LETTER_U: CodeUnit := 117
  const OPEN_BRACE: CodeUnit := 123
  const CLOSE_BRACE: CodeUnit := 125
  const NULL_TEXT: Text := [110, 117, 108, 108]
  const TRUE_TEXT: Text := [116, 114, 117, 101]
  const FALSE_TEXT: Text := [102, 97, 108, 115, 101]

  /** A digit, sign, point or exponent mark. */
  predicate IsNumeric(u: CodeUnit) {
    48 <= u <= 57 || u == 43 || u == 45 || u == 46 || u == 69 || u == 101
  }

  /** The number of digits that a text starts with. */
  function Digits(t: Text): (n: nat)
    ensures n <= |t|
  {
    if t == [] || !(48 <= t[0] <= 57) then 0 else 1 + Digits(t[1..])
  }

  /** The number grammar of section 6 of RFC 8259: sign and integer part, fraction, exponent. */
  predicate IsNumberText(t: Text) {
    var u := if t != [] && t[0] == 45 then t[1..] else t;
    var n := Digits(u);
    n > 0 && (u[0] == 48 ==> n == 1) && IsFraction(u[n..])
  }

  predicate IsFraction(t: Text) {
    if t != [] && t[0] == 46 then Digits(t[1..]) > 0 && IsExponent(t[1 + Digits(t[1..])..]) else IsExponent(t)
  }

  predicate IsExponent(t: Text) {
    || t == []
    || (&& (t[0] == 69 || t[0] == 101)
        && var u := if |t| > 1 && (t[1] == 43 || t[1] == 45) then t[2..] else t[1..];
           u != [] && Digits(u) == |u|)
  }

  predicate IsToken(t: Text) {
    t != [] && (forall i | 0 <= i < |t| :: IsNumeric(t[i])) && IsNumberText(t)
  }

  predicate IsHigh(u: CodeUnit) { 0xD800 <= u <= 0xDBFF }

  predicate IsLow(u: CodeUnit) { 0xDC00 <= u <= 0xDFFF }

  function HexDigit(d: int): CodeUnit
    requires 0 <= d < 16
  {
    if d < 10 then 48 + d else 87 + d
  }

  function HexValue(u: CodeUnit): Option<int> {
    if 48 <= u <= 57 then Some(u - 48)
    else if 97 <= u <= 102 then Some(u - 87)
    else if 65 <= u <= 70 then Some(u - 55)
    else None
  }

  function UnicodeEscape(u: CodeUnit): Text {
    [BACKSLASH, LETTER_U, HexDigit(u / 4096), HexDigit(u / 256 % 16), HexDigit(u / 16 % 16), HexDigit(u % 16)]
  }

  // ----- strings

  /** The two-character escapes of section 7 of RFC 8259 that JSON.stringify uses. */
  function ShortEscape(u: CodeUnit): Option<CodeUnit> {
    if u == 34 then Some(34)
    else if u == 92 then Some(92)
    else if u == 8 then Some(98)
    else if u == 9 then Some(116)
    else if u == 10 then Some(110)
    else if u == 12 then Some(102)
    else if u == 13 then Some(114)
    else None
  }

  function EscapeUnit(u: CodeUnit): Text {
    if ShortEscape(u).Some? then [BACKSLASH, ShortEscape(u).value]
    else if u < 32 || IsHigh(u) || IsLow(u) then UnicodeEscape(u)
    else [u]
  }

  /** Surrogate pairs are printed as they are; a lone surrogate is escaped. */
  function EscapeAll(s: Text): Text {
    if s == [] then []
    else if IsHigh(s[0]) && |s| > 1 && IsLow(s[1]) then [s[0], s[1]] + EscapeAll(s[2..])
    else EscapeUnit(s[0]) + EscapeAll(s[1..])
  }

  function QuoteText(s: Text): Text {
    [QUOTE] + EscapeAll(s) + [QUOTE]
  }

  // ----- the printer

  /** Code-unit order, the order of JavaScript's default sort (section 3.2.3 of RFC 8785). */
  predicate Less(a: Text, b: Text) {
    b != [] && (a == [] || a[0] < b[0] || (a[0] == b[0] && Less(a[1..], b[1..])))
  }

  function Insert<T>(x: Named<T>, s: seq<Named<T>>): seq<Named<T>> {
    if s == [] || Less(x.name, s[0].name) then [x] + s else [s[0]] + Insert(x, s[1..])
  }

  function Sort<T>(s: seq<Named<T>>): seq<Named<T>> {
    if s == [] then [] else Insert(s[0], Sort(s[1..]))
  }

  function JoinMembers(members: seq<Named<Text>>): Text {
    if members == [] then []
    else
      var first := QuoteText(members[0].name) + [COLON] + members[0].value;
      if |members| == 1 then first else first + [COMMA] + JoinMembers(members[1..])
  }

  function JoinItems(texts: seq<Text>): Text {
    if texts == [] then []
    else if |texts| == 1 then texts[0]
    else texts[0] + [COMMA] + JoinItems(texts[1..])
  }

  function Stringify(v: Json): Text
    decreases v, 1
  {
    match v
    case Null => NULL_TEXT
    case Boolean(b) => if b then TRUE_TEXT else FALSE_TEXT
    case Number(token) => token
    case String(s) => QuoteText(s)
    case Array(items) => [OPEN_BRACKET] + JoinItems(StringifyItems(items)) + [CLOSE_BRACKET]
    case Object(fields) => [OPEN_BRACE] + JoinMembers(Sort(StringifyFields(fields))) + [CLOSE_BRACE]
  }

  function StringifyItems(items: seq<Json>): (r: seq<Text>)
    ensures |r| == |items|
    decreases items, 0
  {
    if items == [] then [] else [Stringify(items[0])] + StringifyItems(items[1..])
  }

  function StringifyFields(fields: seq<Named<Json>>): (r: seq<Named<Text>>)
    ensures |r| == |fields|
    decreases fields, 0
  {
    if fields == [] then []
    else [Named(fields[0].name, Stringify(fields[0].value))] + StringifyFields(fields[1..])
  }

  // ----- JSON values: distinct keys, finite numbers

  predicate DistinctNames<T>(fields: seq<Named<T>>) {
    forall i, j | 0 <= i < j < |fields| :: fields[i].name != fields[j].name
  }

  predicate IsJson(v: Json) {
    match v
    case Number(token) => IsToken(token)
    case Array(items) => forall i | 0 <= i < |items| :: IsJson(items[i])
    case Object(fields) => DistinctNames(fields) && forall i | 0 <= i < |fields| :: IsJson(fields[i].value)
    case _ => true
  }

  predicate HasName<T(==)>(fields: seq<Named<T>>, name: Text) {
    exists i | 0 <= i < |fields| :: fields[i].name == name
  }

  /** Equality up to the order of object keys, at every depth. */
  predicate Same(a: Json, b: Json)
    decreases a
  {
    match (a, b)
    case (Array(xs), Array(ys)) => |xs| == |ys| && forall i | 0 <= i < |xs| :: Same(xs[i], ys[i])
    case (Object(fs), Object(gs)) =>
      && (forall i | 0 <= i < |fs| :: HasSame(fs[i], gs))
      && (forall j | 0 <= j < |gs| :: HasName(fs, gs[j].name))
    case _ => a == b
  }

  predicate HasSame(f: Named<Json>, gs: seq<Named<Json>>)
    decreases f
  {
    exists j | 0 <= j < |gs| :: f.name == gs[j].name && Same(f.value, gs[j].value)
  }

  // ----- the parser that undoes the printer: JSON texts without white space

  /** Reads a string body up to its closing quote. */
  function Unescape(text: Text): (r: Option<(Text, Text)>)
    ensures r.Some? ==> |r.value.1| < |text|
  {
    if text == [] || text[0] < 32 then None
    else if text[0] == QUOTE then Some(([], text[1..]))
    else
      var (unit, used) := if text[0] == BACKSLASH then ReadEscape(text) else (Some(text[0]), 1);
      if unit.None? || used > |text| then None
      else
        match Unescape(text[used..])
        case None => None
        case Some((s, rest)) => Some(([unit.value] + s, rest))
  }

  /** The unit an escape stands for and the number of units it takes. */
  function ReadEscape(text: Text): (r: (Option<CodeUnit>, nat))
    requires text != []
    ensures r.1 > 0
  {
    if |text| < 2 then (None, 1)
    else if text[1] == LETTER_U then
      if |text| < 6 then (None, 1)
      else
        var a, b, c, d := HexValue(text[2]), HexValue(text[3]), HexValue(text[4]), HexValue(text[5]);
        if a.None? || b.None? || c.None? || d.None? then (None, 1)
        else (Some(a.value * 4096 + b.value * 256 + c.value * 16 + d.value), 6)
    else if text[1] == 34 then (Some(34), 2)
    else if text[1] == 92 then (Some(92), 2)
    else if text[1] == 47 then (Some(47), 2)
    else if text[1] == 98 then (Some(8), 2)
    else if text[1] == 116 then (Some(9), 2)
    else if text[1] == 110 then (Some(10), 2)
    else if text[1] == 102 then (Some(12), 2)
    else if text[1] == 114 then (Some(13), 2)
    else (None, 1)
  }

  /** Splits off the longest numeric prefix. */
  function Span(text: Text): (r: (Text, Text))
    ensures r.0 + r.1 == text
  {
    if text == [] || !IsNumeric(text[0]) then ([], text)
    else var (token, rest) := Span(text[1..]); ([text[0]] + token, rest)
  }

  predicate StartsWith(text: Text, prefix: Text) {
    |prefix| <= |text| && text[..|prefix|] == prefix
  }

  predicate Next(text: Text, u: CodeUnit) {
    text != [] && text[0] == u
  }

  function Parse(text: Text): (r: Option<(Json, Text)>)
    ensures r.Some? ==> |r.value.1| < |text|
    decreases |text|, 0
  {
    if text == [] then None
    else if StartsWith(text, NULL_TEXT) then Some((Null, text[4..]))
    else if StartsWith(text, TRUE_TEXT) then Some((Boolean(true), text[4..]))
    else if StartsWith(text, FALSE_TEXT) then Some((Boolean(false), text[5..]))
    else if text[0] == QUOTE then
      match Unescape(text[1..])
      case None => None
      case Some((s, rest)) => Some((String(s), rest))
    else if text[0] == OPEN_BRACKET then
      if Next(text[1..], CLOSE_BRACKET) then Some((Array([]), text[2..]))
      else
        match ParseItems(text[1..])
        case None => None
        case Some((items, rest)) => Some((Array(items), rest))
    else if text[0] == OPEN_BRACE then
      if Next(text[1..], CLOSE_BRACE) then Some((Object([]), text[2..]))
      else
        match ParseFields(text[1..])
        case None => None
        case Some((fields, rest)) => Some((Object(fields), rest))
    else if IsNumeric(text[0]) then
      var (token, rest) := Span(text);
      if IsToken(token) then Some((Number(token), rest)) else None
    else None
  }

  function ParseItems(text: Text): (r: Option<(seq<Json>, Text)>)
    ensures r.Some? ==> |r.value.1| < |text|
    decreases |text|, 1
  {
    match Parse(text)
    case None => None
    case Some((item, rest)) =>
      if Next(rest, CLOSE_BRACKET) then Some(([item], rest[1..]))
      else if !Next(rest, COMMA) then None
      else
        match ParseItems(rest[1..])
        case None => None
        case Some((items, end)) => Some(([item] + items, end))
  }

  function ParseFields(text: Text): (r: Option<(seq<Named<Json>>, Text)>)
    ensures r.Some? ==> |r.value.1| < |text|
    decreases |text|, 1
  {
    if !Next(text, QUOTE) then None
    else
      match Unescape(text[1..])
      case None => None
      case Some((name, afterName)) =>
        if !Next(afterName, COLON) then None
        else
          match Parse(afterName[1..])
          case None => None
          case Some((value, rest)) =>
            if Next(rest, CLOSE_BRACE) then Some(([Named(name, value)], rest[1..]))
            else if !Next(rest, COMMA) then None
            else
              match ParseFields(rest[1..])
              case None => None
              case Some((fields, end)) => Some(([Named(name, value)] + fields, end))
  }
}
