/** The canonical text determines a JSON value up to the order of object keys, and nothing more. */
module CanonicalJsonTheorems {
  import opened Options
  import opened CanonicalJson

  // ----- strings: unescaping undoes escaping

  lemma HexReads(d: int)
    requires 0 <= d < 16
    ensures HexValue(HexDigit(d)) == Some(d)
  {
  }

  lemma UnicodeEscapeReads(u: CodeUnit, tail: Text)
    ensures ReadEscape(UnicodeEscape(u) + tail) == (Some(u), 6)
  {
    HexReads(u / 4096);
    HexReads(u / 256 % 16);
    HexReads(u / 16 % 16);
    HexReads(u % 16);
    HexDigitsSum(u);
  }

  lemma HexDigitsSum(u: CodeUnit)
    ensures u / 4096 * 4096 + u / 256 % 16 * 256 + u / 16 % 16 * 16 + u % 16 == u
  {
    var a := u / 16;
    var b := a / 16;
    assert u / 256 == b && u / 4096 == b / 16;
  }

  lemma UnescapeUnit(u: CodeUnit, tail: Text)
    requires u >= 32 && u != QUOTE && u != BACKSLASH
    ensures Unescape([u] + tail) == match Unescape(tail) case None => None case Some((s, rest)) => Some(([u] + s, rest))
  {
    assert ([u] + tail)[1..] == tail;
  }

  lemma UnescapeStep(u: CodeUnit, tail: Text)
    ensures Unescape(EscapeUnit(u) + tail)
            == match Unescape(tail) case None => None case Some((s, rest)) => Some(([u] + s, rest))
  {
    var e := EscapeUnit(u);
    var text := e + tail;
    assert text[|e|..] == tail;
    if ShortEscape(u).Some? {
      assert ReadEscape(text) == (Some(u), 2);
    } else if u < 32 || IsHigh(u) || IsLow(u) {
      UnicodeEscapeReads(u, tail);
    } else {
      UnescapeUnit(u, tail);
    }
  }

  lemma UnescapeEnds(rest: Text)
    ensures Unescape([QUOTE] + rest) == Some(([], rest))
  {
    assert ([QUOTE] + rest)[1..] == rest;
  }

  lemma {:induction false} UnescapeUndoesEscape(s: Text, rest: Text)
    ensures Unescape(EscapeAll(s) + ([QUOTE] + rest)) == Some((s, rest))
    decreases |s|
  {
    hide Unescape, EscapeUnit;
    var end := [QUOTE] + rest;
    if s == [] {
      assert EscapeAll(s) + end == end;
      UnescapeEnds(rest);
    } else if IsHigh(s[0]) && |s| > 1 && IsLow(s[1]) {
      UnescapeUndoesEscape(s[2..], rest);
      var tail := EscapeAll(s[2..]) + end;
      assert EscapeAll(s) + end == [s[0]] + ([s[1]] + tail);
      UnescapeUnit(s[1], tail);
      UnescapeUnit(s[0], [s[1]] + tail);
      assert [s[0]] + ([s[1]] + s[2..]) == s;
    } else {
      UnescapeUndoesEscape(s[1..], rest);
      var tail := EscapeAll(s[1..]) + end;
      assert EscapeAll(s) + end == EscapeUnit(s[0]) + tail;
      UnescapeStep(s[0], tail);
      assert [s[0]] + s[1..] == s;
    }
  }

  lemma UnescapeUndoesQuote(s: Text, rest: Text)
    ensures Next(QuoteText(s) + rest, QUOTE) && Unescape((QuoteText(s) + rest)[1..]) == Some((s, rest))
  {
    UnescapeUndoesEscape(s, rest);
    assert (QuoteText(s) + rest)[1..] == EscapeAll(s) + ([QUOTE] + rest);
  }

  // ----- numbers: the longest numeric prefix is the token

  predicate EndsNumber(rest: Text) { rest == [] || !IsNumeric(rest[0]) }

  lemma {:induction false} SpanFindsToken(token: Text, rest: Text)
    requires (forall i | 0 <= i < |token| :: IsNumeric(token[i])) && EndsNumber(rest)
    ensures Span(token + rest) == (token, rest)
    decreases |token|
  {
    if token == [] {
      assert token + rest == rest;
    } else {
      SpanFindsToken(token[1..], rest);
      assert (token + rest)[1..] == token[1..] + rest;
      assert [token[0]] + token[1..] == token;
    }
  }

  // ----- printing without sorting, and sorting at every depth

  function Plain(v: Json): Text
    decreases v, 1
  {
    match v
    case Array(items) => [OPEN_BRACKET] + JoinItems(PlainItems(items)) + [CLOSE_BRACKET]
    case Object(fields) => [OPEN_BRACE] + JoinMembers(PlainFields(fields)) + [CLOSE_BRACE]
    case _ => Stringify(v)
  }

  function PlainItems(items: seq<Json>): (r: seq<Text>)
    ensures |r| == |items|
    decreases items, 0
  {
    if items == [] then [] else [Plain(items[0])] + PlainItems(items[1..])
  }

  function PlainFields(fields: seq<Named<Json>>): (r: seq<Named<Text>>)
    ensures |r| == |fields|
    decreases fields, 0
  {
    if fields == [] then []
    else [Named(fields[0].name, Plain(fields[0].value))] + PlainFields(fields[1..])
  }

  function Canon(v: Json): Json
    decreases v, 1
  {
    match v
    case Array(items) => Array(CanonItems(items))
    case Object(fields) => Object(Sort(CanonFields(fields)))
    case _ => v
  }

  function CanonItems(items: seq<Json>): (r: seq<Json>)
    ensures |r| == |items| && forall i | 0 <= i < |r| :: r[i] == Canon(items[i])
    decreases items, 0
  {
    if items == [] then [] else [Canon(items[0])] + CanonItems(items[1..])
  }

  function CanonFields(fields: seq<Named<Json>>): (r: seq<Named<Json>>)
    ensures |r| == |fields| && forall i | 0 <= i < |r| :: r[i] == Named(fields[i].name, Canon(fields[i].value))
    decreases fields, 0
  {
    if fields == [] then []
    else [Named(fields[0].name, Canon(fields[0].value))] + CanonFields(fields[1..])
  }

  lemma {:induction false} InsertPrints(x: Named<Json>, s: seq<Named<Json>>)
    ensures PlainFields(Insert(x, s)) == Insert(Named(x.name, Plain(x.value)), PlainFields(s))
    decreases |s|
  {
    if s != [] && !Less(x.name, s[0].name) {
      InsertPrints(x, s[1..]);
      assert Insert(x, s)[1..] == Insert(x, s[1..]);
      assert PlainFields(s)[1..] == PlainFields(s[1..]);
    } else {
      assert ([x] + s)[1..] == s;
    }
  }

  lemma {:induction false} SortPrints(s: seq<Named<Json>>)
    ensures PlainFields(Sort(s)) == Sort(PlainFields(s))
    decreases |s|
  {
    if s != [] {
      SortPrints(s[1..]);
      InsertPrints(s[0], Sort(s[1..]));
      assert PlainFields(s)[1..] == PlainFields(s[1..]);
    }
  }

  /** Sorting while printing is printing what was sorted. */
  lemma {:induction false} StringifyPrintsCanon(v: Json)
    ensures Stringify(v) == Plain(Canon(v))
    decreases v, 1
  {
    match v
    case Array(items) => ItemsPrintCanon(items);
    case Object(fields) =>
      FieldsPrintCanon(fields);
      SortPrints(CanonFields(fields));
    case _ =>
  }

  lemma {:induction false} ItemsPrintCanon(items: seq<Json>)
    ensures StringifyItems(items) == PlainItems(CanonItems(items))
    decreases items, 0
  {
    if items != [] {
      StringifyPrintsCanon(items[0]);
      ItemsPrintCanon(items[1..]);
      assert CanonItems(items)[1..] == CanonItems(items[1..]);
    }
  }

  lemma {:induction false} FieldsPrintCanon(fields: seq<Named<Json>>)
    ensures StringifyFields(fields) == PlainFields(CanonFields(fields))
    decreases fields, 0
  {
    if fields != [] {
      StringifyPrintsCanon(fields[0].value);
      FieldsPrintCanon(fields[1..]);
      assert CanonFields(fields)[1..] == CanonFields(fields[1..]);
    }
  }

  // ----- parsing undoes printing

  /** Tokens are well formed; the parser needs nothing else. */
  predicate Printable(v: Json) {
    match v
    case Number(token) => IsToken(token)
    case Array(items) => forall i | 0 <= i < |items| :: Printable(items[i])
    case Object(fields) => forall i | 0 <= i < |fields| :: Printable(fields[i].value)
    case _ => true
  }

  /** The first unit of a printed value tells its kind. */
  lemma PlainStarts(v: Json)
    requires Printable(v)
    ensures Plain(v) != []
    ensures var u := Plain(v)[0]; u != CLOSE_BRACKET && u != CLOSE_BRACE && u != COMMA && u != COLON
  {
    if v.Number? { assert IsNumeric(v.token[0]); }
  }

  lemma ParseScalar(v: Json, rest: Text)
    requires Printable(v) && !v.Array? && !v.Object?
    requires EndsNumber(rest)
    ensures Parse(Plain(v) + rest) == Some((v, rest))
  {
    var text := Plain(v) + rest;
    assert text[|Plain(v)|..] == rest && text[..|Plain(v)|] == Plain(v);
    match v
    case Null =>
    case Boolean(b) =>
      if !b { assert text[..4] != NULL_TEXT && text[..4] != TRUE_TEXT by { assert text[0] == 102; } }
      else { assert text[..4] != NULL_TEXT by { assert text[0] == 116; } }
    case String(s) =>
      UnescapeUndoesQuote(s, rest);
      NotAWord(text);
    case Number(token) =>
      SpanFindsToken(token, rest);
      assert IsNumeric(text[0]);
      NotAWord(text);
  }

  /** Only the three literal names start with a lower-case n, t or f. */
  lemma NotAWord(text: Text)
    requires text != [] && text[0] !in {110, 116, 102}
    ensures !StartsWith(text, NULL_TEXT) && !StartsWith(text, TRUE_TEXT) && !StartsWith(text, FALSE_TEXT)
  {
    assert NULL_TEXT[0] == 110 && TRUE_TEXT[0] == 116 && FALSE_TEXT[0] == 102;
    StartsAlike(text, NULL_TEXT);
    StartsAlike(text, TRUE_TEXT);
    StartsAlike(text, FALSE_TEXT);
  }

  lemma StartsAlike(text: Text, prefix: Text)
    requires prefix != []
    ensures StartsWith(text, prefix) ==> text != [] && text[0] == prefix[0]
  {
    if StartsWith(text, prefix) { assert text[..|prefix|][0] == text[0]; }
  }

  lemma {:induction false} ParseUndoesPlain(v: Json, rest: Text)
    requires Printable(v) && EndsNumber(rest)
    ensures Parse(Plain(v) + rest) == Some((v, rest))
    decreases v, 1
  {
    match v
    case Array(items) =>
      if items != [] {
        ParseUndoesItems(items, rest);
        PlainStarts(items[0]);
      }
      ParseArray(items, rest);
    case Object(fields) =>
      if fields != [] { ParseUndoesFields(fields, rest); }
      ParseObject(fields, rest);
    case _ => ParseScalar(v, rest);
  }

  lemma ParseArray(items: seq<Json>, rest: Text)
    requires items != [] ==> ParseItems(JoinItems(PlainItems(items)) + ([CLOSE_BRACKET] + rest)) == Some((items, rest))
    requires items != [] ==> Plain(items[0]) != [] && Plain(items[0])[0] != CLOSE_BRACKET
    ensures Parse(Plain(Array(items)) + rest) == Some((Array(items), rest))
  {
    hide ParseItems;
    var text := Plain(Array(items)) + rest;
    NotAWord(text);
    assert text[1..] == JoinItems(PlainItems(items)) + ([CLOSE_BRACKET] + rest);
    if items == [] {
      assert text[2..] == rest;
    } else {
      assert text[1] == Plain(items[0])[0];
    }
  }

  lemma ParseObject(fields: seq<Named<Json>>, rest: Text)
    requires fields != [] ==>
             ParseFields(JoinMembers(PlainFields(fields)) + ([CLOSE_BRACE] + rest)) == Some((fields, rest))
    requires fields != [] ==> Next(JoinMembers(PlainFields(fields)), QUOTE)
    ensures Parse(Plain(Object(fields)) + rest) == Some((Object(fields), rest))
  {
    hide ParseFields;
    var text := Plain(Object(fields)) + rest;
    NotAWord(text);
    assert text[1..] == JoinMembers(PlainFields(fields)) + ([CLOSE_BRACE] + rest);
    if fields == [] {
      assert text[2..] == rest;
    } else {
      assert text[1] == QUOTE;
    }
  }

  lemma {:induction false} ParseUndoesItems(items: seq<Json>, rest: Text)
    requires items != [] && forall i | 0 <= i < |items| :: Printable(items[i])
    ensures ParseItems(JoinItems(PlainItems(items)) + ([CLOSE_BRACKET] + rest)) == Some((items, rest))
    decreases items, 0
  {
    var end := [CLOSE_BRACKET] + rest;
    var text := JoinItems(PlainItems(items)) + end;
    if |items| == 1 {
      ParseUndoesPlain(items[0], end);
      assert items == [items[0]];
    } else {
      var tail := JoinItems(PlainItems(items[1..])) + end;
      assert PlainItems(items)[1..] == PlainItems(items[1..]);
      assert text == Plain(items[0]) + ([COMMA] + tail);
      ParseUndoesPlain(items[0], [COMMA] + tail);
      ParseUndoesItems(items[1..], rest);
      assert ([COMMA] + tail)[1..] == tail;
      assert [items[0]] + items[1..] == items;
    }
  }

  /** One member read, and what follows it. */
  lemma ParseOneField(text: Text, name: Text, afterName: Text, value: Json, after: Text)
    requires Next(text, QUOTE) && Unescape(text[1..]) == Some((name, afterName))
    requires Next(afterName, COLON) && Parse(afterName[1..]) == Some((value, after))
    requires after != [] && |after[1..]| < |text|
    ensures Next(after, CLOSE_BRACE) ==> ParseFields(text) == Some(([Named(name, value)], after[1..]))
    ensures forall fs, end | Next(after, COMMA) && ParseFields(after[1..]) == Some((fs, end)) ::
              ParseFields(text) == Some(([Named(name, value)] + fs, end))
  {
    hide Parse, Unescape;
  }

  /** What stands after the first member. */
  function Following(fields: seq<Named<Json>>, end: Text): Text
    requires fields != []
  {
    if |fields| == 1 then end else [COMMA] + (JoinMembers(PlainFields(fields[1..])) + end)
  }

  lemma Regroup(quoted: Text, value: Text, tail: Text, end: Text)
    ensures (quoted + [COLON] + value) + end == quoted + ([COLON] + (value + end))
    ensures (quoted + [COLON] + value + [COMMA] + tail) + end == quoted + ([COLON] + (value + ([COMMA] + (tail + end))))
  {
  }

  lemma FirstMember(fields: seq<Named<Json>>, end: Text)
    requires fields != []
    ensures var first := QuoteText(fields[0].name) + [COLON] + Plain(fields[0].value);
            JoinMembers(PlainFields(fields)) ==
            if |fields| == 1 then first else first + [COMMA] + JoinMembers(PlainFields(fields[1..]))
  {
    hide QuoteText, Plain;
    assert PlainFields(fields)[1..] == PlainFields(fields[1..]);
  }

  lemma JoinedFields(fields: seq<Named<Json>>, end: Text)
    requires fields != []
    ensures JoinMembers(PlainFields(fields)) + end ==
            QuoteText(fields[0].name) + ([COLON] + (Plain(fields[0].value) + Following(fields, end)))
    ensures Next(JoinMembers(PlainFields(fields)), QUOTE)
  {
    FirstMember(fields, end);
    assert Next(QuoteText(fields[0].name), QUOTE);
    hide QuoteText, Plain, PlainFields, JoinMembers;
    Regroup(QuoteText(fields[0].name), Plain(fields[0].value),
            if |fields| == 1 then [] else JoinMembers(PlainFields(fields[1..])), end);
  }

  lemma {:induction false} ParseUndoesFields(fields: seq<Named<Json>>, rest: Text)
    requires fields != [] && forall i | 0 <= i < |fields| :: Printable(fields[i].value)
    ensures ParseFields(JoinMembers(PlainFields(fields)) + ([CLOSE_BRACE] + rest)) == Some((fields, rest))
    ensures Next(JoinMembers(PlainFields(fields)), QUOTE)
    decreases fields, 0
  {
    hide Parse, Unescape, ParseFields, Plain, PlainFields, JoinMembers, QuoteText;
    var end := [CLOSE_BRACE] + rest;
    var name, value := fields[0].name, fields[0].value;
    var after := Following(fields, end);
    JoinedFields(fields, end);
    UnescapeUndoesQuote(name, [COLON] + (Plain(value) + after));
    ParseUndoesPlain(value, after);
    ParseOneField(JoinMembers(PlainFields(fields)) + end, name, [COLON] + (Plain(value) + after), value, after);
    if |fields| == 1 {
      assert fields == [Named(name, value)];
    } else {
      ParseUndoesFields(fields[1..], rest);
      assert [Named(name, value)] + fields[1..] == fields;
    }
  }

  // ----- the order of keys

  lemma {:induction false} LessTrichotomy(a: Text, b: Text)
    ensures !(Less(a, b) && Less(b, a))
    ensures a == b || Less(a, b) || Less(b, a)
    ensures a == b ==> !Less(a, b)
    decreases |a|
  {
    if a != [] && b != [] && a[0] == b[0] {
      LessTrichotomy(a[1..], b[1..]);
      if a[1..] == b[1..] { assert a == [a[0]] + a[1..] == b; }
    }
  }

  lemma {:induction false} LessTransitive(a: Text, b: Text, c: Text)
    requires Less(a, b) && Less(b, c)
    ensures Less(a, c)
    decreases |a|
  {
    if a != [] && a[0] == b[0] && b[0] == c[0] { LessTransitive(a[1..], b[1..], c[1..]); }
  }

  predicate Ascending<T>(s: seq<Named<T>>) {
    forall i, j | 0 <= i < j < |s| :: Less(s[i].name, s[j].name)
  }

  predicate Within<T(==)>(s: seq<Named<T>>, t: seq<Named<T>>) {
    forall i | 0 <= i < |s| :: s[i] in t
  }

  lemma {:induction false} InsertKeepsElements<T>(x: Named<T>, s: seq<Named<T>>)
    ensures |Insert(x, s)| == |s| + 1
    ensures x in Insert(x, s) && Within(s, Insert(x, s)) && Within(Insert(x, s), [x] + s)
    decreases |s|
  {
    var r := Insert(x, s);
    if s != [] && !Less(x.name, s[0].name) {
      InsertKeepsElements(x, s[1..]);
      var tail := Insert(x, s[1..]);
      assert r[1..] == tail;
      forall i | 0 <= i < |s| ensures s[i] in r {
        if i > 0 { assert s[1..][i - 1] in tail; } else { assert r[0] == s[0]; }
      }
      forall i | 0 <= i < |r| ensures r[i] in [x] + s {
        if i > 0 { assert tail[i - 1] in [x] + s[1..]; } else { assert ([x] + s)[1] == r[0]; }
      }
    } else {
      assert r == [x] + s;
      forall i | 0 <= i < |s| ensures s[i] in r { assert r[i + 1] == s[i]; }
      assert r[0] == x;
    }
  }

  lemma {:induction false} SortKeepsElements<T>(s: seq<Named<T>>)
    ensures |Sort(s)| == |s|
    ensures Within(Sort(s), s) && Within(s, Sort(s))
    decreases |s|
  {
    if s != [] {
      var rest := Sort(s[1..]);
      SortKeepsElements(s[1..]);
      InsertKeepsElements(s[0], rest);
      forall i | 0 <= i < |s| ensures s[i] in Sort(s) {
        if i > 0 { assert s[1..][i - 1] in rest; }
      }
      forall i | 0 <= i < |Sort(s)| ensures Sort(s)[i] in s {
        assert Sort(s)[i] in [s[0]] + rest;
      }
    }
  }

  lemma {:induction false} InsertKeepsOrder<T>(x: Named<T>, s: seq<Named<T>>)
    requires Ascending(s) && forall i | 0 <= i < |s| :: s[i].name != x.name
    ensures Ascending(Insert(x, s))
    decreases |s|
  {
    if s == [] {
    } else if Less(x.name, s[0].name) {
      forall j | 0 < j < |s| ensures Less(x.name, s[j].name) { LessTransitive(x.name, s[0].name, s[j].name); }
    } else {
      LessTrichotomy(x.name, s[0].name);
      InsertKeepsOrder(x, s[1..]);
      InsertKeepsElements(x, s[1..]);
      var tail := Insert(x, s[1..]);
      forall j | 0 <= j < |tail| ensures Less(s[0].name, tail[j].name) { assert tail[j] in [x] + s[1..]; }
    }
  }

  lemma {:induction false} SortAscends<T>(s: seq<Named<T>>)
    requires DistinctNames(s)
    ensures Ascending(Sort(s))
    decreases |s|
  {
    if s != [] {
      SortAscends(s[1..]);
      SortKeepsElements(s[1..]);
      var rest := Sort(s[1..]);
      forall i | 0 <= i < |rest| ensures rest[i].name != s[0].name { assert rest[i] in s[1..]; }
      InsertKeepsOrder(s[0], rest);
    }
  }

  /** A set of named values has one ascending sequence. */
  lemma {:induction false} AscendingIsUnique<T>(s: seq<Named<T>>, t: seq<Named<T>>)
    requires Ascending(s) && Ascending(t)
    requires Within(s, t) && Within(t, s)
    ensures s == t
    decreases |s|
  {
    if s != [] { FirstWithin(s, t); }
    if t != [] { FirstWithin(t, s); }
    if s != [] && t != [] {
      assert s[0] in t && t[0] in s;
      LessTrichotomy(s[0].name, t[0].name);
      assert s[0] == t[0];
      TailWithin(s, t);
      TailWithin(t, s);
      AscendingIsUnique(s[1..], t[1..]);
      assert s == [s[0]] + s[1..];
    }
  }

  lemma FirstWithin<T>(s: seq<Named<T>>, t: seq<Named<T>>)
    requires Within(s, t) && s != []
    ensures t != []
  {
    assert s[0] in t;
  }

  lemma TailWithin<T>(s: seq<Named<T>>, t: seq<Named<T>>)
    requires Ascending(s) && |s| > 0 && |t| > 0 && s[0] == t[0] && Within(s, t)
    ensures Within(s[1..], t[1..])
  {
    forall i | 0 <= i < |s| - 1 ensures s[1..][i] in t[1..] {
      assert s[i + 1] in t;
      LessTrichotomy(s[0].name, s[i + 1].name);
      var k :| 0 <= k < |t| && t[k] == s[i + 1];
      assert t[1..][k - 1] == s[i + 1];
    }
  }

  // ----- same value up to key order means same canonical form

  lemma {:induction false} CanonPrintable(v: Json)
    requires IsJson(v)
    ensures Printable(Canon(v))
    decreases v
  {
    match v
    case Array(items) =>
      forall i | 0 <= i < |items| ensures Printable(CanonItems(items)[i]) { CanonPrintable(items[i]); }
    case Object(fields) =>
      var sorted := Sort(CanonFields(fields));
      SortKeepsElements(CanonFields(fields));
      forall i | 0 <= i < |sorted| ensures Printable(sorted[i].value) {
        assert sorted[i] in CanonFields(fields);
        var j :| 0 <= j < |fields| && CanonFields(fields)[j] == sorted[i];
        CanonPrintable(fields[j].value);
      }
    case _ =>
  }

  lemma {:induction false} SameMeansSameCanon(a: Json, b: Json)
    requires IsJson(a) && IsJson(b)
    ensures Same(a, b) <==> Canon(a) == Canon(b)
    decreases a
  {
    match (a, b)
    case (Array(xs), Array(ys)) =>
      if |xs| == |ys| {
        forall i | 0 <= i < |xs| ensures Same(xs[i], ys[i]) <==> CanonItems(xs)[i] == CanonItems(ys)[i] {
          SameMeansSameCanon(xs[i], ys[i]);
        }
        if Same(a, b) { assert CanonItems(xs) == CanonItems(ys); }
      }
    case (Object(fs), Object(gs)) =>
      forall i, j | 0 <= i < |fs| && 0 <= j < |gs| ensures Agrees(fs[i].value, gs[j].value) {
        SameMeansSameCanon(fs[i].value, gs[j].value);
      }
      SameMeansMatched(fs, gs);
      MatchedMeansSameSort(CanonFields(fs), CanonFields(gs));
    case _ =>
  }

  ghost predicate Agrees(x: Json, y: Json) {
    Same(x, y) <==> Canon(x) == Canon(y)
  }

  /** Every field of the first is a field of the second, and every name of the second occurs in the first. */
  predicate Matched<T(==)>(s: seq<Named<T>>, t: seq<Named<T>>) {
    Within(s, t) && forall j | 0 <= j < |t| :: HasName(s, t[j].name)
  }

  lemma SameObjects(fs: seq<Named<Json>>, gs: seq<Named<Json>>)
    ensures Same(Object(fs), Object(gs)) <==>
      (forall i | 0 <= i < |fs| :: HasSame(fs[i], gs)) && (forall j | 0 <= j < |gs| :: HasName(fs, gs[j].name))
  {
    hide HasSame, HasName;
  }

  lemma SameMeansMatched(fs: seq<Named<Json>>, gs: seq<Named<Json>>)
    requires forall i, j | 0 <= i < |fs| && 0 <= j < |gs| :: Agrees(fs[i].value, gs[j].value)
    ensures Same(Object(fs), Object(gs)) <==> Matched(CanonFields(fs), CanonFields(gs))
  {
    hide Same, Canon, Agrees, HasSame, HasName;
    SameObjects(fs, gs);
    var cf, cg := CanonFields(fs), CanonFields(gs);
    forall i | 0 <= i < |fs| ensures HasSame(fs[i], gs) <==> cf[i] in cg { HasSameMeansIn(fs, gs, i); }
    forall j | 0 <= j < |gs| ensures HasName(fs, gs[j].name) <==> HasName(cf, cg[j].name) {
      HasNameMeansHasName(fs, gs[j].name);
    }
  }

  lemma HasSameMeansIn(fs: seq<Named<Json>>, gs: seq<Named<Json>>, i: nat)
    requires i < |fs| && forall j | 0 <= j < |gs| :: Agrees(fs[i].value, gs[j].value)
    ensures HasSame(fs[i], gs) <==> CanonFields(fs)[i] in CanonFields(gs)
  {
    hide Same, Canon;
    var cf, cg := CanonFields(fs), CanonFields(gs);
    if HasSame(fs[i], gs) {
      var j :| 0 <= j < |gs| && fs[i].name == gs[j].name && Same(fs[i].value, gs[j].value);
      assert Agrees(fs[i].value, gs[j].value);
      assert cg[j] == cf[i];
    }
    if cf[i] in cg {
      var j :| 0 <= j < |cg| && cg[j] == cf[i];
      assert Agrees(fs[i].value, gs[j].value);
    }
  }

  lemma HasNameMeansHasName(fs: seq<Named<Json>>, name: Text)
    ensures HasName(fs, name) <==> HasName(CanonFields(fs), name)
  {
    hide Canon;
    var cf := CanonFields(fs);
    if HasName(fs, name) {
      var i :| 0 <= i < |fs| && fs[i].name == name;
      assert cf[i].name == name;
    }
    if HasName(cf, name) {
      var i :| 0 <= i < |cf| && cf[i].name == name;
      assert fs[i].name == name;
    }
  }

  lemma MatchedMeansSameSort<T>(s: seq<Named<T>>, t: seq<Named<T>>)
    requires DistinctNames(s) && DistinctNames(t)
    ensures Matched(s, t) <==> Sort(s) == Sort(t)
  {
    SortKeepsElements(s);
    SortKeepsElements(t);
    if Matched(s, t) {
      SortAscends(s);
      SortAscends(t);
      forall j | 0 <= j < |t| ensures t[j] in s {
        assert HasName(s, t[j].name);
        var i :| 0 <= i < |s| && s[i].name == t[j].name;
        assert s[i] in t;
      }
      WithinTransitively(Sort(s), s, t);
      WithinTransitively(Sort(s), t, Sort(t));
      WithinTransitively(Sort(t), t, s);
      WithinTransitively(Sort(t), s, Sort(s));
      AscendingIsUnique(Sort(s), Sort(t));
    }
    if Sort(s) == Sort(t) {
      WithinTransitively(s, Sort(s), t);
      WithinTransitively(t, Sort(t), s);
      forall j | 0 <= j < |t| ensures HasName(s, t[j].name) { assert t[j] in s; }
    }
  }

  lemma WithinTransitively<T>(a: seq<Named<T>>, b: seq<Named<T>>, c: seq<Named<T>>)
    requires Within(a, b) && Within(b, c)
    ensures Within(a, c)
  {
  }

  // ----- the theorem

  /** Two JSON values print to one canonical text exactly when they are equal up to key order. */
  lemma CanonicalTextIdentifies(a: Json, b: Json)
    requires IsJson(a) && IsJson(b)
    ensures Stringify(a) == Stringify(b) <==> Same(a, b)
  {
    StringifyPrintsCanon(a);
    StringifyPrintsCanon(b);
    SameMeansSameCanon(a, b);
    CanonPrintable(a);
    CanonPrintable(b);
    ParseUndoesPlain(Canon(a), []);
    ParseUndoesPlain(Canon(b), []);
    assert Plain(Canon(a)) + [] == Plain(Canon(a)) && Plain(Canon(b)) + [] == Plain(Canon(b));
  }

  lemma {:induction false} CanonIsJson(v: Json)
    requires IsJson(v)
    ensures IsJson(Canon(v))
    decreases v
  {
    match v
    case Array(items) =>
      forall i | 0 <= i < |items| ensures IsJson(CanonItems(items)[i]) { CanonIsJson(items[i]); }
    case Object(fields) =>
      var sorted := Sort(CanonFields(fields));
      SortKeepsElements(CanonFields(fields));
      SortAscends(CanonFields(fields));
      forall i, j | 0 <= i < j < |sorted| ensures sorted[i].name != sorted[j].name {
        LessTrichotomy(sorted[i].name, sorted[j].name);
      }
      forall i | 0 <= i < |sorted| ensures IsJson(sorted[i].value) {
        assert sorted[i] in CanonFields(fields);
        var j :| 0 <= j < |fields| && CanonFields(fields)[j] == sorted[i];
        CanonIsJson(fields[j].value);
      }
    case _ =>
  }

  lemma {:induction false} SortOfAscending<T>(s: seq<Named<T>>)
    requires Ascending(s)
    ensures Sort(s) == s
    decreases |s|
  {
    if |s| > 1 { SortOfAscending(s[1..]); }
  }

  lemma {:induction false} CanonIsStable(v: Json)
    requires IsJson(v)
    ensures Canon(Canon(v)) == Canon(v)
    decreases v
  {
    match v
    case Array(items) =>
      forall i | 0 <= i < |items| ensures Canon(CanonItems(items)[i]) == CanonItems(items)[i] {
        CanonIsStable(items[i]);
      }
      StableItems(CanonItems(items));
    case Object(fields) =>
      forall i | 0 <= i < |fields| ensures Canon(Canon(fields[i].value)) == Canon(fields[i].value) {
        CanonIsStable(fields[i].value);
      }
      StableFields(fields);
    case _ =>
  }

  lemma StableItems(items: seq<Json>)
    requires forall i | 0 <= i < |items| :: Canon(items[i]) == items[i]
    ensures CanonItems(items) == items
  {
    hide Canon;
  }

  /** Sorted fields with canonical values are their own canonical form. */
  lemma StableFields(fields: seq<Named<Json>>)
    requires DistinctNames(fields)
    requires forall i | 0 <= i < |fields| :: Canon(Canon(fields[i].value)) == Canon(fields[i].value)
    ensures Canon(Object(Sort(CanonFields(fields)))) == Object(Sort(CanonFields(fields)))
  {
    hide Canon, Sort;
    var sorted := Sort(CanonFields(fields));
    SortKeepsElements(CanonFields(fields));
    SortAscends(CanonFields(fields));
    forall i | 0 <= i < |sorted| ensures Canon(sorted[i].value) == sorted[i].value {
      assert sorted[i] in CanonFields(fields);
      var j :| 0 <= j < |fields| && CanonFields(fields)[j] == sorted[i];
    }
    hide Less;
    SelfCanonicalFields(sorted);
    SortOfAscending(sorted);
    CanonOfObject(sorted);
  }

  lemma SelfCanonicalFields(fields: seq<Named<Json>>)
    requires forall i | 0 <= i < |fields| :: Canon(fields[i].value) == fields[i].value
    ensures CanonFields(fields) == fields
  {
    hide Canon;
  }

  lemma CanonOfObject(fields: seq<Named<Json>>)
    ensures Canon(Object(fields)) == Object(Sort(CanonFields(fields)))
  {
    hide Sort;
  }

  /** Parsing the canonical text gives the value back, with its keys in order. */
  lemma ParseUndoesStringify(v: Json)
    requires IsJson(v)
    ensures Parse(Stringify(v)) == Some((Canon(v), [])) && Same(v, Canon(v))
  {
    StringifyPrintsCanon(v);
    CanonPrintable(v);
    ParseUndoesPlain(Canon(v), []);
    assert Plain(Canon(v)) + [] == Plain(Canon(v));
    CanonIsStable(v);
    CanonIsJson(v);
    SameMeansSameCanon(v, Canon(v));
  }

  // ----- the printed characters

  /** The words and an array, in the code units of JSON. */
  lemma TextOfAnArray()
    ensures Stringify(Null) == [110, 117, 108, 108] && Stringify(Boolean(true)) == [116, 114, 117, 101]
    ensures Stringify(Boolean(false)) == [102, 97, 108, 115, 101]
    ensures Stringify(Array([Null, Null])) == [91] + [110, 117, 108, 108] + [44] + [110, 117, 108, 108] + [93]
  {
    var items := [Null, Null];
    assert items[1..] == [Null] && [Null][1..] == [];
    assert StringifyItems([Null]) == [NULL_TEXT];
    assert StringifyItems(items) == [NULL_TEXT, NULL_TEXT];
    assert [NULL_TEXT, NULL_TEXT][1..] == [NULL_TEXT];
    assert JoinItems([NULL_TEXT, NULL_TEXT]) == NULL_TEXT + [COMMA] + NULL_TEXT;
  }

  lemma TextOfAKey(unit: CodeUnit)
    requires unit == 97 || unit == 98
    ensures QuoteText([unit]) == [34] + [unit] + [34]
  {
    assert [unit][1..] == [];
    assert EscapeAll([unit]) == [unit] + [];
  }

  /** An object of two fields, given in either order: the keys come in order, quoted, with the punctuation of JSON. */
  lemma TextOfAnObject(first: Json, second: Json)
    ensures Stringify(Object([Named([98], second), Named([97], first)])) ==
            [123] + (([34] + [97] + [34]) + [58] + Stringify(first) + [44]
                     + (([34] + [98] + [34]) + [58] + Stringify(second))) + [125]
  {
    hide Stringify;
    var a, b := Named([97], Stringify(first)), Named([98], Stringify(second));
    var fields := [Named([98], second), Named([97], first)];
    assert fields[1..] == [Named([97], first)] && [Named([97], first)][1..] == [];
    assert StringifyFields(fields[1..]) == [a];
    assert StringifyFields(fields) == [b] + [a];
    SortOfTwo(a, b);
    TextOfAKey(97);
    TextOfAKey(98);
    hide QuoteText, Sort;
    assert [a, b][1..] == [b] && [b][1..] == [];
    assert [b] + [a] == [b, a];
    StringifyOfObject(fields);
  }

  lemma SortOfTwo(a: Named<Text>, b: Named<Text>)
    requires a.name == [97] && b.name == [98]
    ensures Sort([b, a]) == [a, b]
  {
    assert [b, a][1..] == [a] && [a][1..] == [];
    assert Sort([a]) == [a];
    assert !Less(b.name, a.name);
    assert Insert(b, [a]) == [a] + Insert(b, []);
  }

  lemma StringifyOfObject(fields: seq<Named<Json>>)
    ensures Stringify(Object(fields)) == [123] + JoinMembers(Sort(StringifyFields(fields))) + [125]
  {
    hide Sort;
  }
}
