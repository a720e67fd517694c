/** The page's side of a batch: a reader of JSON text, and that it gets back the values that were broadcast. */
module JsonReading {
  import opened Options
  import opened JsonFraming

  // ---- characters and strings (section 7 of RFC 8259) ----

  function HexValue(c: char): Option<nat> {
    if '0' <= c <= '9' then Some(c as int - '0' as int)
    else if 'a' <= c <= 'f' then Some(c as int - 'a' as int + 10)
    else if 'A' <= c <= 'F' then Some(c as int - 'A' as int + 10)
    else None
  }

  // The code unit of an escape \uXXXX.
  function ReadUnit(s: string): (r: Option<nat>)
    ensures r.Some? ==> |s| >= 6 && r.value < 0x1_0000
  {
    if |s| < 6 || s[0] != '\\' || s[1] != 'u' then None
    else
      var a, b, c, d := HexValue(s[2]), HexValue(s[3]), HexValue(s[4]), HexValue(s[5]);
      if a.None? || b.None? || c.None? || d.None? then None
      else Some(a.value * 0x1000 + b.value * 0x100 + c.value * 0x10 + d.value)
  }

  // One character, which takes two code units outside the basic plane.
  function ReadUnicode(s: string): (r: Option<(char, string)>)
    ensures r.Some? ==> |r.value.1| < |s|
  {
    var unit := ReadUnit(s);
    if unit.None? then None
    else if unit.value < 0xd800 || unit.value >= 0xe000 then Some((unit.value as char, s[6..]))
    else if unit.value >= 0xdc00 then None
    else
      var low := ReadUnit(s[6..]);
      if low.None? || low.value < 0xdc00 || low.value >= 0xe000 then None
      else Some(((0x1_0000 + (unit.value - 0xd800) * 0x400 + (low.value - 0xdc00)) as char, s[12..]))
  }

  // One character of a string, escaped or not; none at the closing quote.
  function ReadChar(s: string): (r: Option<(char, string)>)
    ensures r.Some? ==> |r.value.1| < |s|
  {
    if s == [] || s[0] == '"' then None
    else if s[0] != '\\' then Some((s[0], s[1..]))
    else if |s| < 2 then None
    else
      match s[1]
      case '"' => Some(('"', s[2..]))
      case '\\' => Some(('\\', s[2..]))
      case '/' => Some(('/', s[2..]))
      case 'b' => Some((0x08 as char, s[2..]))
      case 'f' => Some((0x0c as char, s[2..]))
      case 'n' => Some(('\n', s[2..]))
      case 'r' => Some(('\r', s[2..]))
      case 't' => Some(('\t', s[2..]))
      case _ => ReadUnicode(s)
  }

  // What follows an opening quote, up to and with the closing one.
  function ReadText(s: string): (r: Option<(string, string)>)
    ensures r.Some? ==> |r.value.1| < |s|
    decreases |s|
  {
    if s == [] then None
    else if s[0] == '"' then Some(([], s[1..]))
    else
      var head := ReadChar(s);
      if head.None? then None
      else
        var tail := ReadText(head.value.1);
        if tail.None? then None else Some(([head.value.0] + tail.value.0, tail.value.1))
  }

  // ---- values ----

  function TokenLength(s: string): (n: nat)
    ensures n <= |s| && forall i :: 0 <= i < n ==> TokenChar(s[i])
  {
    if s == [] || !TokenChar(s[0]) then 0 else 1 + TokenLength(s[1..])
  }

  function SkipSpace(s: string): (r: string)
    ensures |r| <= |s|
  {
    if s != [] && s[0] in {' ', '\t', '\n', '\r'} then SkipSpace(s[1..]) else s
  }

  function ReadWord(s: string, word: string, v: Json): Option<(Json, string)> {
    if word <= s then Some((v, s[|word|..])) else None
  }

  function ReadValue(s: string): (r: Option<(Json, string)>)
    ensures r.Some? ==> |r.value.1| < |s|
    decreases |s|, 0
  {
    if s == [] then None
    else if s[0] == '"' then
      var text := ReadText(s[1..]);
      if text.None? then None else Some((Text(text.value.0), text.value.1))
    else if s[0] == '[' then
      if |s| > 1 && s[1] == ']' then Some((Array([]), s[2..]))
      else
        var items := ReadItems(s[1..]);
        if items.None? then None else Some((Array(items.value.0), items.value.1))
    else if s[0] == '{' then
      if |s| > 1 && s[1] == '}' then Some((Object([]), s[2..]))
      else
        var fields := ReadFields(s[1..]);
        if fields.None? then None else Some((Object(fields.value.0), fields.value.1))
    else if s[0] == 'n' then ReadWord(s, "null", Null)
    else if s[0] == 't' then ReadWord(s, "true", Bool(true))
    else if s[0] == 'f' then ReadWord(s, "false", Bool(false))
    else if TokenStart(s[0]) then
      assert TokenChar(s[0]);
      var n := TokenLength(s);
      Some((Number(s[..n]), s[n..]))
    else None
  }

  // The rest of an array behind its bracket or behind a comma.
  function ReadItems(s: string): (r: Option<(seq<Json>, string)>)
    ensures r.Some? ==> |r.value.1| < |s|
    decreases |s|, 1
  {
    var head := ReadValue(s);
    if head.None? || head.value.1 == [] then None
    else
      var rest := head.value.1;
      if rest[0] == ']' then Some(([head.value.0], rest[1..]))
      else if rest[0] != ',' then None
      else
        var tail := ReadItems(SkipSpace(rest[1..]));
        if tail.None? then None else Some(([head.value.0] + tail.value.0, tail.value.1))
  }

  function ReadField(s: string): (r: Option<(Field, string)>)
    ensures r.Some? ==> |r.value.1| < |s|
    decreases |s|, 0
  {
    if s == [] || s[0] != '"' then None
    else
      var name := ReadText(s[1..]);
      if name.None? || name.value.1 == [] || name.value.1[0] != ':' then None
      else
        var value := ReadValue(SkipSpace(name.value.1[1..]));
        if value.None? then None else Some((Field(name.value.0, value.value.0), value.value.1))
  }

  function ReadFields(s: string): (r: Option<(seq<Field>, string)>)
    ensures r.Some? ==> |r.value.1| < |s|
    decreases |s|, 1
  {
    var head := ReadField(s);
    if head.None? || head.value.1 == [] then None
    else
      var rest := head.value.1;
      if rest[0] == '}' then Some(([head.value.0], rest[1..]))
      else if rest[0] != ',' then None
      else
        var tail := ReadFields(SkipSpace(rest[1..]));
        if tail.None? then None else Some(([head.value.0] + tail.value.0, tail.value.1))
  }

  // A whole text.
  function Read(s: string): Option<Json> {
    var v := ReadValue(s);
    if v.None? || v.value.1 != [] then None else Some(v.value.0)
  }

  // ---- strings come back ----

  lemma HexComesBack(d: nat)
    requires d < 16
    ensures HexValue(HexDigit(d)) == Some(d)
  { }

  lemma UnitComesBack(n: nat, rest: string)
    requires n < 0x1_0000
    ensures ReadUnit(UnicodeEscape(n) + rest) == Some(n)
  {
    HexComesBack(n / 0x1000);
    HexComesBack(n / 0x100 % 16);
    HexComesBack(n / 16 % 16);
    HexComesBack(n % 16);
    var s := UnicodeEscape(n) + rest;
    assert s[0] == '\\' && s[1] == 'u' && s[2] == HexDigit(n / 0x1000) && s[3] == HexDigit(n / 0x100 % 16)
        && s[4] == HexDigit(n / 16 % 16) && s[5] == HexDigit(n % 16);
    HexSum(n);
  }

  lemma HexSum(n: nat)
    requires n < 0x1_0000
    ensures n / 0x1000 * 0x1000 + n / 0x100 % 16 * 0x100 + n / 16 % 16 * 0x10 + n % 16 == n
  {
    assert n / 16 == n / 0x100 * 16 + n / 16 % 16;
    assert n / 0x100 == n / 0x1000 * 16 + n / 0x100 % 16;
  }

  lemma BasicComesBack(c: char, rest: string)
    requires c as int < 0x1_0000
    ensures ReadUnicode(UnicodeEscape(c as int) + rest) == Some((c, rest))
  {
    UnitComesBack(c as int, rest);
    assert (UnicodeEscape(c as int) + rest)[6..] == rest;
  }

  lemma PairComesBack(c: char, rest: string)
    requires c as int >= 0x1_0000
    ensures ReadUnicode(EscapeChar(c) + rest) == Some((c, rest))
  {
    var n := c as int - 0x1_0000;
    var high, low := 0xd800 + n / 0x400, 0xdc00 + n % 0x400;
    var s := EscapeChar(c) + rest;
    assert s == UnicodeEscape(high) + (UnicodeEscape(low) + rest);
    UnitComesBack(high, UnicodeEscape(low) + rest);
    assert s[6..] == UnicodeEscape(low) + rest;
    UnitComesBack(low, rest);
    assert s[12..] == rest;
  }

  lemma CharComesBack(c: char, rest: string)
    ensures EscapeChar(c) != [] && EscapeChar(c)[0] != '"'
    ensures ReadChar(EscapeChar(c) + rest) == Some((c, rest))
  {
    var s := EscapeChar(c) + rest;
    if |EscapeChar(c)| == 1 {
      assert s[0] == c && s[1..] == rest;
    } else if |EscapeChar(c)| == 2 {
      assert s[0] == '\\' && s[1] == EscapeChar(c)[1] && s[2..] == rest;
    } else {
      assert s[0] == '\\' && s[1] == 'u';
      if c as int < 0x1_0000 { BasicComesBack(c, rest); } else { PairComesBack(c, rest); }
    }
  }

  lemma {:induction false} TextComesBack(text: string, rest: string)
    ensures ReadText(EscapeText(text) + "\"" + rest) == Some((text, rest))
    decreases |text|
  {
    var s := EscapeText(text) + "\"" + rest;
    if text == [] {
      assert s[0] == '"' && s[1..] == rest;
    } else {
      var tail := EscapeText(text[1..]) + "\"" + rest;
      assert s == EscapeChar(text[0]) + tail;
      CharComesBack(text[0], tail);
      assert s[0] == EscapeChar(text[0])[0];
      TextComesBack(text[1..], rest);
      assert [text[0]] + text[1..] == text;
    }
  }

  lemma BetweenQuotes(a: string, b: string)
    ensures var s := "\"" + a + "\"" + b; s[0] == '"' && s[1..] == a + "\"" + b
  {
    assert "\"" + a + "\"" + b == "\"" + (a + "\"" + b);
  }

  lemma QuotedComesBack(text: string, rest: string)
    ensures var s := Quoted(text) + rest; s != [] && s[0] == '"' && ReadText(s[1..]) == Some((text, rest))
  {
    TextComesBack(text, rest);
    BetweenQuotes(EscapeText(text), rest);
  }

  // ---- values come back ----

  // A text behind which a number token ends.
  predicate EndsToken(rest: string) { rest == [] || !TokenChar(rest[0]) }

  lemma {:induction false} TokenComesBack(token: string, rest: string)
    requires EndsToken(rest) && forall i :: 0 <= i < |token| ==> TokenChar(token[i])
    ensures TokenLength(token + rest) == |token|
    decreases |token|
  {
    if token == [] {
      assert token + rest == rest;
    } else {
      assert (token + rest)[0] == token[0] && (token + rest)[1..] == token[1..] + rest;
      TokenComesBack(token[1..], rest);
    }
  }

  // How a written value can begin.
  lemma DumpsBegins(v: Json)
    ensures Dumps(v) != [] && Dumps(v)[0] !in {']', '}', ' ', '\t', '\n', '\r'}
  { }

  lemma WordComesBack(word: string, v: Json, rest: string)
    ensures ReadWord(word + rest, word, v) == Some((v, rest))
  {
    assert (word + rest)[|word|..] == rest;
  }

  lemma NumberComesBack(token: Token, rest: string)
    requires EndsToken(rest)
    ensures ReadValue(token + rest) == Some((Number(token), rest))
  {
    var s := token + rest;
    TokenComesBack(token, rest);
    assert s[0] == token[0] && s[..|token|] == token && s[|token|..] == rest;
  }

  lemma NoSpace(v: Json, rest: string)
    ensures SkipSpace(Dumps(v) + rest) == Dumps(v) + rest
    ensures SkipSpace(" " + Dumps(v) + rest) == Dumps(v) + rest
  {
    DumpsBegins(v);
    var s := " " + Dumps(v) + rest;
    assert s[0] == ' ' && s[1..] == Dumps(v) + rest;
    assert (Dumps(v) + rest)[0] == Dumps(v)[0];
  }

  /** Whatever follows, as long as it does not run on a number, reading a written value gives the value and leaves
      what follows. */
  lemma {:induction false} ValueComesBack(v: Json, rest: string)
    requires EndsToken(rest)
    ensures ReadValue(Dumps(v) + rest) == Some((v, rest))
    decreases v, 0
  {
    match v
    case Null => WordComesBack("null", v, rest);
    case Bool(b) => WordComesBack(if b then "true" else "false", v, rest);
    case Number(token) => NumberComesBack(token, rest);
    case Text(s) => QuotedComesBack(s, rest);
    case Array(items) => ArrayComesBack(items, rest);
    case Object(fields) => ObjectComesBack(fields, rest);
  }

  lemma ArrayRead(items: seq<Json>, rest: string)
    requires items != [] ==> ReadItems(DumpItems(items) + "]" + rest) == Some((items, rest))
    ensures ReadValue(Dumps(Array(items)) + rest) == Some((Array(items), rest))
  {
    BracketsRead("[", DumpItems(items), "]", rest);
    if items != [] { ItemsBegin(items); }
  }

  lemma {:induction false} ArrayComesBack(items: seq<Json>, rest: string)
    ensures ReadValue(Dumps(Array(items)) + rest) == Some((Array(items), rest))
    decreases items, 2
  {
    if items != [] { ItemsComeBack(items, rest); }
    ArrayRead(items, rest);
  }

  lemma ItemsBegin(items: seq<Json>)
    requires items != []
    ensures DumpItems(items) != [] && DumpItems(items)[0] == Dumps(items[0])[0] != ']'
  {
    DumpsBegins(items[0]);
  }

  lemma ItemsEnd(s: string, v: Json, rest: string)
    requires ReadValue(s) == Some((v, "]" + rest))
    ensures ReadItems(s) == Some(([v], rest))
  {
    assert ("]" + rest)[1..] == rest;
  }

  lemma ItemsGoOn(s: string, v: Json, after: string, vs: seq<Json>, rest: string)
    requires ReadValue(s) == Some((v, "," + after)) && ReadItems(SkipSpace(after)) == Some((vs, rest))
    ensures ReadItems(s) == Some(([v] + vs, rest))
  {
    assert ("," + after)[1..] == after;
  }

  lemma ItemsOne(items: seq<Json>, rest: string)
    requires |items| == 1
    requires ReadValue(Dumps(items[0]) + ("]" + rest)) == Some((items[0], "]" + rest))
    ensures ReadItems(DumpItems(items) + "]" + rest) == Some((items, rest))
  {
    Assoc(Dumps(items[0]), "]", rest);
    ItemsEnd(Dumps(items[0]) + ("]" + rest), items[0], rest);
    assert items == [items[0]];
  }

  lemma ItemsMore(items: seq<Json>, rest: string, later: string)
    requires |items| > 1 && later == DumpItems(items[1..]) + "]" + rest
    requires ReadValue(Dumps(items[0]) + ("," + (" " + later))) == Some((items[0], "," + (" " + later)))
    requires ReadItems(later) == Some((items[1..], rest))
    ensures ReadItems(DumpItems(items) + "]" + rest) == Some((items, rest))
  {
    Regroup(Dumps(items[0]), DumpItems(items[1..]), "]", rest);
    Assoc(DumpItems(items[1..]), "]", rest);
    SpaceBeforeItems(items[1..], "]" + rest);
    ItemsGoOn(Dumps(items[0]) + ("," + (" " + later)), items[0], " " + later, items[1..], rest);
    assert items == [items[0]] + items[1..];
  }

  lemma {:induction false} ItemsComeBack(items: seq<Json>, rest: string)
    requires items != []
    ensures ReadItems(DumpItems(items) + "]" + rest) == Some((items, rest))
    decreases items, 1
  {
    if |items| == 1 {
      ValueComesBack(items[0], "]" + rest);
      ItemsOne(items, rest);
    } else {
      var later := DumpItems(items[1..]) + "]" + rest;
      ValueComesBack(items[0], "," + (" " + later));
      ItemsComeBack(items[1..], rest);
      ItemsMore(items, rest, later);
    }
  }

  lemma Assoc(a: string, b: string, c: string)
    ensures a + b + c == a + (b + c)
  { }

  // A head, a comma with its space, and a tail with what closes it and follows it.
  lemma Regroup(head: string, tail: string, close: string, rest: string)
    ensures head + ", " + tail + close + rest == head + ("," + (" " + (tail + close + rest)))
  {
    var later := tail + close + rest;
    Assoc(head + ", ", tail, close);
    Assoc(head + ", ", tail + close, rest);
    Assoc(head, ", ", later);
    Assoc(",", " ", later);
    assert ", " == "," + " ";
  }

  lemma SpaceBeforeItems(items: seq<Json>, rest: string)
    requires items != []
    ensures SkipSpace(" " + (DumpItems(items) + rest)) == DumpItems(items) + rest
  {
    var later := if |items| == 1 then rest else ", " + DumpItems(items[1..]) + rest;
    assert DumpItems(items) + rest == Dumps(items[0]) + later;
    NoSpace(items[0], later);
    assert " " + (DumpItems(items) + rest) == " " + Dumps(items[0]) + later;
  }

  lemma FieldRead(f: Field, rest: string)
    requires ReadValue(Dumps(f.value) + rest) == Some((f.value, rest))
    ensures ReadField(DumpField(f) + rest) == Some((f, rest))
  {
    var after := ": " + Dumps(f.value) + rest;
    Assoc(Quoted(f.name) + ": ", Dumps(f.value), rest);
    Assoc(Quoted(f.name), ": ", Dumps(f.value) + rest);
    Assoc(": ", Dumps(f.value), rest);
    QuotedComesBack(f.name, after);
    NoSpace(f.value, rest);
    AfterColon(Dumps(f.value), rest);
  }

  lemma AfterColon(value: string, rest: string)
    ensures var after := ": " + value + rest; after != [] && after[0] == ':' && after[1..] == " " + value + rest
  { }

  lemma {:induction false} FieldComesBack(f: Field, rest: string)
    requires EndsToken(rest)
    ensures ReadField(DumpField(f) + rest) == Some((f, rest))
    decreases f, 1
  {
    ValueComesBack(f.value, rest);
    FieldRead(f, rest);
  }

  lemma BracketsRead(open: string, body: string, close: string, rest: string)
    requires |open| == |close| == 1
    ensures var s := open + body + close + rest;
      s != [] && s[0] == open[0] && s[1..] == body + close + rest
      && (body == [] ==> s[1] == close[0] && s[2..] == rest) && (body != [] ==> s[1] == body[0])
  { }

  lemma ObjectRead(fields: seq<Field>, rest: string)
    requires fields != [] ==> ReadFields(DumpFields(fields) + "}" + rest) == Some((fields, rest))
    ensures ReadValue(Dumps(Object(fields)) + rest) == Some((Object(fields), rest))
  {
    BracketsRead("{", DumpFields(fields), "}", rest);
    if fields != [] { FieldsBegin(fields); }
  }

  lemma {:induction false} ObjectComesBack(fields: seq<Field>, rest: string)
    ensures ReadValue(Dumps(Object(fields)) + rest) == Some((Object(fields), rest))
    decreases fields, 2
  {
    if fields != [] { FieldsComeBack(fields, rest); }
    ObjectRead(fields, rest);
  }

  lemma FieldsEnd(s: string, f: Field, rest: string)
    requires ReadField(s) == Some((f, "}" + rest))
    ensures ReadFields(s) == Some(([f], rest))
  {
    assert ("}" + rest)[1..] == rest;
  }

  lemma FieldsGoOn(s: string, f: Field, after: string, fs: seq<Field>, rest: string)
    requires ReadField(s) == Some((f, "," + after)) && ReadFields(SkipSpace(after)) == Some((fs, rest))
    ensures ReadFields(s) == Some(([f] + fs, rest))
  {
    assert ("," + after)[1..] == after;
  }

  lemma FieldsOne(fields: seq<Field>, rest: string)
    requires |fields| == 1
    requires ReadField(DumpField(fields[0]) + ("}" + rest)) == Some((fields[0], "}" + rest))
    ensures ReadFields(DumpFields(fields) + "}" + rest) == Some((fields, rest))
  {
    Assoc(DumpField(fields[0]), "}", rest);
    FieldsEnd(DumpField(fields[0]) + ("}" + rest), fields[0], rest);
    assert fields == [fields[0]];
  }

  lemma FieldsMore(fields: seq<Field>, rest: string, later: string)
    requires |fields| > 1 && later == DumpFields(fields[1..]) + "}" + rest
    requires ReadField(DumpField(fields[0]) + ("," + (" " + later))) == Some((fields[0], "," + (" " + later)))
    requires ReadFields(later) == Some((fields[1..], rest))
    ensures ReadFields(DumpFields(fields) + "}" + rest) == Some((fields, rest))
  {
    Regroup(DumpField(fields[0]), DumpFields(fields[1..]), "}", rest);
    Assoc(DumpFields(fields[1..]), "}", rest);
    SpaceBeforeFields(fields[1..], later, "}" + rest);
    FieldsGoOn(DumpField(fields[0]) + ("," + (" " + later)), fields[0], " " + later, fields[1..], rest);
    assert fields == [fields[0]] + fields[1..];
  }

  lemma {:induction false} FieldsComeBack(fields: seq<Field>, rest: string)
    requires fields != []
    ensures ReadFields(DumpFields(fields) + "}" + rest) == Some((fields, rest))
    decreases fields, 1
  {
    if |fields| == 1 {
      FieldComesBack(fields[0], "}" + rest);
      FieldsOne(fields, rest);
    } else {
      var later := DumpFields(fields[1..]) + "}" + rest;
      FieldComesBack(fields[0], "," + (" " + later));
      FieldsComeBack(fields[1..], rest);
      FieldsMore(fields, rest, later);
    }
  }

  lemma FieldsBegin(fields: seq<Field>)
    requires fields != []
    ensures DumpFields(fields) != [] && DumpFields(fields)[0] == '"'
  {
    assert DumpField(fields[0])[0] == '"';
  }

  lemma SpaceBeforeFields(fields: seq<Field>, s: string, rest: string)
    requires fields != [] && s == DumpFields(fields) + rest
    ensures SkipSpace(" " + s) == s
  {
    FieldsBegin(fields);
    assert s[0] == '"';
    assert (" " + s)[1..] == s;
    assert SkipSpace(s) == s;
  }

  /** Reading what json.dumps writes gives the value back, for every value. */
  lemma DumpsComesBack(v: Json)
    ensures Read(Dumps(v)) == Some(v)
  {
    ValueComesBack(v, []);
    assert Dumps(v) + [] == Dumps(v);
  }

  /** So no two values are written alike. */
  lemma DumpsIsInjective(v: Json, w: Json)
    requires Dumps(v) == Dumps(w)
    ensures v == w
  {
    DumpsComesBack(v);
    DumpsComesBack(w);
  }

  // ---- a batch comes back ----

  lemma {:induction false} JoinedComesBack(vs: seq<Json>)
    requires vs != []
    ensures ReadItems(Joined(DumpAll(vs)) + "]") == Some((vs, []))
    decreases |vs|
  {
    var docs := DumpAll(vs);
    var s := Joined(docs) + "]";
    if |vs| == 1 {
      assert s == Dumps(vs[0]) + "]";
      ValueComesBack(vs[0], "]");
      assert "]" + [] == "]";
      ItemsEnd(s, vs[0], []);
      assert vs == [vs[0]];
    } else {
      var later := Joined(DumpAll(vs[1..])) + "]";
      assert docs[1..] == DumpAll(vs[1..]);
      assert s == Dumps(vs[0]) + ("," + later);
      ValueComesBack(vs[0], "," + later);
      JoinedBegins(vs[1..]);
      assert SkipSpace(later) == later;
      JoinedComesBack(vs[1..]);
      ItemsGoOn(s, vs[0], later, vs[1..], []);
      assert vs == [vs[0]] + vs[1..];
    }
  }

  lemma JoinedBegins(vs: seq<Json>)
    requires vs != []
    ensures var s := Joined(DumpAll(vs)) + "]"; s[0] == Dumps(vs[0])[0] && s[0] !in {']', '}', ' ', '\t', '\n', '\r'}
  {
    DumpsBegins(vs[0]);
    assert DumpAll(vs)[0] == Dumps(vs[0]);
  }

  /** The page reads a batch as the array of exactly the values that were broadcast, in order. */
  lemma BatchComesBack(vs: seq<Json>)
    ensures Read(Batch(DumpAll(vs))) == Some(Array(vs))
  {
    var s := Batch(DumpAll(vs));
    if vs == [] {
      assert s == "[]" && s[2..] == [];
    } else {
      JoinedComesBack(vs);
      JoinedBegins(vs);
      assert s[0] == '[' && s[1..] == Joined(DumpAll(vs)) + "]";
      assert s[1] == (Joined(DumpAll(vs)) + "]")[0];
    }
  }
}
