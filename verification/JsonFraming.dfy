/** The text of one flushed batch: complete JSON documents joined by commas inside square brackets, and the
    reader's side, a splitter that only tracks nesting depth and strings. */
module JsonFraming {
  import opened Options

  // ---- documents as json.dumps writes them (ASCII only, ", " and ": " as separators) ----

  // Characters without structural meaning in section 2 of RFC 8259.
  predicate Plain(c: char) { c !in {'"', '[', ']', '{', '}', ','} }

  // Characters of the tokens json.dumps writes for numbers, NaN and the infinities included, and those that start one.
  predicate TokenChar(c: char) {
    '0' <= c <= '9' || c in {'+', '-', '.', 'e', 'E', 'N', 'a', 'I', 'n', 'f', 'i', 't', 'y'}
  }

  predicate TokenStart(c: char) { '0' <= c <= '9' || c in {'-', 'N', 'I'} }

  type Token = s: string | s != [] && TokenStart(s[0]) && forall i :: 0 <= i < |s| ==> TokenChar(s[i]) witness "0"

  datatype Json =
    | Null | Bool(b: bool) | Number(token: Token) | Text(s: string)
    | Array(items: seq<Json>) | Object(fields: seq<Field>)
  datatype Field = Field(name: string, value: Json)

  function HexDigit(d: nat): char
    requires d < 16
  {
    if d < 10 then ('0' as int + d) as char else ('a' as int + d - 10) as char
  }

  function UnicodeEscape(n: nat): string
    requires n < 0x1_0000
  {
    ['\\', 'u', HexDigit(n / 0x1000), HexDigit(n / 0x100 % 16), HexDigit(n / 16 % 16), HexDigit(n % 16)]
  }

  function EscapeChar(c: char): string {
    if c == '\\' then "\\\\" else if c == '"' then "\\\""
    else if c == '\n' then "\\n" else if c == '\r' then "\\r" else if c == '\t' then "\\t"
    else if c as int == 0x08 then "\\b" else if c as int == 0x0c then "\\f"
    else if ' ' <= c <= '~' then [c]
    else if c as int < 0x1_0000 then UnicodeEscape(c as int)
    else
      var n := c as int - 0x1_0000;
      UnicodeEscape(0xd800 + n / 0x400) + UnicodeEscape(0xdc00 + n % 0x400)
  }

  function EscapeText(s: string): string {
    if s == [] then [] else EscapeChar(s[0]) + EscapeText(s[1..])
  }

  function Quoted(s: string): string { "\"" + EscapeText(s) + "\"" }

  function Dumps(v: Json): string
    decreases v
  {
    match v
    case Null => "null"
    case Bool(b) => if b then "true" else "false"
    case Number(token) => token
    case Text(s) => Quoted(s)
    case Array(items) => "[" + DumpItems(items) + "]"
    case Object(fields) => "{" + DumpFields(fields) + "}"
  }

  function DumpItems(items: seq<Json>): string
    decreases items
  {
    if items == [] then []
    else if |items| == 1 then Dumps(items[0])
    else Dumps(items[0]) + ", " + DumpItems(items[1..])
  }

  function DumpField(f: Field): string
    decreases f
  {
    Quoted(f.name) + ": " + Dumps(f.value)
  }

  function DumpFields(fields: seq<Field>): string
    decreases fields
  {
    if fields == [] then []
    else if |fields| == 1 then DumpField(fields[0])
    else DumpField(fields[0]) + ", " + DumpFields(fields[1..])
  }

  // ---- the batch ----

  function Joined(docs: seq<string>): string {
    if docs == [] then [] else if |docs| == 1 then docs[0] else docs[0] + "," + Joined(docs[1..])
  }

  function Batch(docs: seq<string>): string { "[" + Joined(docs) + "]" }

  // ---- the splitter ----

  datatype Scan = Scan(depth: int, inString: bool, escaped: bool)

  const TOP := Scan(0, false, false)

  function Step(st: Scan, c: char): Scan {
    if st.inString then
      if st.escaped then st.(escaped := false)
      else if c == '\\' then st.(escaped := true)
      else if c == '"' then st.(inString := false)
      else st
    else if c == '"' then st.(inString := true)
    else if c == '[' || c == '{' then st.(depth := st.depth + 1)
    else if c == ']' || c == '}' then st.(depth := st.depth - 1)
    else st
  }

  // Cuts `text` at its commas outside every string and bracket; `piece` is what the current cut has so far.
  function Split(text: string, st: Scan, piece: string): seq<string> {
    if text == [] then [piece]
    else if st == TOP && text[0] == ',' then [piece] + Split(text[1..], TOP, [])
    else Split(text[1..], Step(st, text[0]), piece + [text[0]])
  }

  function Unbatch(text: string): Option<seq<string>> {
    if |text| >= 2 && text[0] == '[' && text[|text| - 1] == ']' then Some(Split(text[1..|text| - 1], TOP, []))
    else None
  }

  function Walk(st: Scan, text: string): Scan
    decreases |text|
  {
    if text == [] then st else Walk(Step(st, text[0]), text[1..])
  }

  predicate NoCut(st: Scan, text: string)
    decreases |text|
  {
    text == [] || (!(st == TOP && text[0] == ',') && NoCut(Step(st, text[0]), text[1..]))
  }

  // One whole document: brackets and quotes balance and no comma lies outside them.
  predicate Complete(doc: string) { NoCut(TOP, doc) && Walk(TOP, doc) == TOP }

  // ---- composition ----

  lemma {:induction false} WalkConcat(st: Scan, a: string, b: string)
    ensures Walk(st, a + b) == Walk(Walk(st, a), b)
    ensures NoCut(st, a + b) <==> NoCut(st, a) && NoCut(Walk(st, a), b)
    decreases |a|
  {
    if a == [] {
      assert a + b == b;
    } else {
      assert (a + b)[0] == a[0] && (a + b)[1..] == a[1..] + b;
      WalkConcat(Step(st, a[0]), a[1..], b);
    }
  }

  lemma {:induction false} SplitSkipsDocument(doc: string, rest: string, st: Scan, piece: string)
    requires NoCut(st, doc) && Walk(st, doc) == TOP
    requires rest == [] || rest[0] == ','
    ensures Split(doc + rest, st, piece) == [piece + doc] + if rest == [] then [] else Split(rest[1..], TOP, [])
    decreases |doc|
  {
    if doc == [] {
      assert doc + rest == rest && piece + doc == piece;
    } else {
      assert (doc + rest)[0] == doc[0] && (doc + rest)[1..] == doc[1..] + rest;
      SplitSkipsDocument(doc[1..], rest, Step(st, doc[0]), piece + [doc[0]]);
      assert piece + [doc[0]] + doc[1..] == piece + doc;
    }
  }

  lemma {:induction false} SplitJoined(docs: seq<string>)
    requires docs != [] && forall i :: 0 <= i < |docs| ==> Complete(docs[i])
    ensures Split(Joined(docs), TOP, []) == docs
    decreases |docs|
  {
    var rest := if |docs| == 1 then [] else "," + Joined(docs[1..]);
    assert Joined(docs) == docs[0] + rest;
    SplitSkipsDocument(docs[0], rest, TOP, []);
    assert [] + docs[0] == docs[0];
    if |docs| > 1 {
      assert rest[1..] == Joined(docs[1..]);
      SplitJoined(docs[1..]);
    }
  }

  /** Whatever complete documents a non-empty drain returns, the reader of the batch gets exactly these
      documents back, in order. */
  lemma BatchRoundTrip(docs: seq<string>)
    requires docs != [] && forall i :: 0 <= i < |docs| ==> Complete(docs[i])
    ensures Unbatch(Batch(docs)) == Some(docs)
  {
    var text := Batch(docs);
    assert text[1..|text| - 1] == Joined(docs);
    SplitJoined(docs);
  }

  // ---- every document json.dumps writes is complete ----

  // Inside or outside a string, `text` leaves the scanner where it found it and offers no cut.
  predicate Neutral(st: Scan, text: string) { NoCut(st, text) && Walk(st, text) == st }

  lemma NeutralConcat(st: Scan, a: string, b: string)
    requires Neutral(st, a) && Neutral(st, b)
    ensures Neutral(st, a + b)
  {
    WalkConcat(st, a, b);
  }

  predicate QuietInString(c: char) { c != '"' && c != '\\' }

  lemma {:induction false} QuietIsNeutral(st: Scan, text: string)
    requires st.inString && !st.escaped && forall i :: 0 <= i < |text| ==> QuietInString(text[i])
    ensures Neutral(st, text)
    decreases |text|
  {
    if text != [] {
      assert QuietInString(text[0]);
      QuietIsNeutral(st, text[1..]);
    }
  }

  // A backslash and the character it escapes, followed by quiet characters.
  lemma EscapeIsNeutral(st: Scan, text: string)
    requires st.inString && !st.escaped && |text| >= 2 && text[0] == '\\'
    requires forall i :: 2 <= i < |text| ==> QuietInString(text[i])
    ensures Neutral(st, text)
  {
    QuietIsNeutral(st, text[2..]);
    var st1 := Step(st, text[0]);
    assert Step(st1, text[1..][0]) == st;
    assert text[1..][1..] == text[2..];
  }

  lemma EscapeCharIsNeutral(st: Scan, c: char)
    requires st.inString && !st.escaped
    ensures Neutral(st, EscapeChar(c))
  {
    var text := EscapeChar(c);
    if |text| == 1 {
      QuietIsNeutral(st, text);
    } else if c as int >= 0x1_0000 {
      EscapeIsNeutral(st, text[..6]);
      EscapeIsNeutral(st, text[6..]);
      NeutralConcat(st, text[..6], text[6..]);
      assert text[..6] + text[6..] == text;
    } else {
      EscapeIsNeutral(st, text);
    }
  }

  lemma {:induction false} EscapeTextIsNeutral(st: Scan, s: string)
    requires st.inString && !st.escaped
    ensures Neutral(st, EscapeText(s))
    decreases |s|
  {
    if s != [] {
      EscapeCharIsNeutral(st, s[0]);
      EscapeTextIsNeutral(st, s[1..]);
      NeutralConcat(st, EscapeChar(s[0]), EscapeText(s[1..]));
    }
  }

  // An opening character, a body that is neutral behind it, and the character that closes it again.
  lemma WrappedIsNeutral(st: Scan, open: char, body: string, close: char)
    requires open != ',' && Neutral(Step(st, open), body)
    requires Step(st, open) != TOP && Step(Step(st, open), close) == st
    ensures Neutral(st, [open] + body + [close])
  {
    var inner := Step(st, open);
    WalkConcat(inner, body, [close]);
    assert Walk(inner, [close]) == Step(inner, close) by { assert [close][1..] == []; }
    assert NoCut(inner, [close]) by { assert [close][1..] == []; }
    var text := [open] + body + [close];
    assert text[0] == open && text[1..] == body + [close];
  }

  lemma QuotedIsNeutral(depth: nat, s: string)
    ensures Neutral(Scan(depth, false, false), Quoted(s))
  {
    EscapeTextIsNeutral(Scan(depth, true, false), s);
    WrappedIsNeutral(Scan(depth, false, false), '"', EscapeText(s), '"');
  }

  lemma {:induction false} PlainIsNeutral(st: Scan, text: string)
    requires !st.inString && !st.escaped && forall i :: 0 <= i < |text| ==> Plain(text[i])
    ensures Neutral(st, text)
    decreases |text|
  {
    if text != [] {
      assert Plain(text[0]);
      PlainIsNeutral(st, text[1..]);
    }
  }

  lemma SeparatorIsNeutral(depth: nat)
    requires depth > 0
    ensures Neutral(Scan(depth, false, false), ", ")
  {
    var st := Scan(depth, false, false);
    assert ", "[1..] == " " && " "[1..] == [];
    assert NoCut(st, " ") && Walk(st, " ") == st;
  }

  lemma {:induction false} DumpsIsNeutral(v: Json, depth: nat)
    ensures Neutral(Scan(depth, false, false), Dumps(v))
    decreases v
  {
    var st := Scan(depth, false, false);
    match v
    case Null => PlainIsNeutral(st, "null");
    case Bool(b) => PlainIsNeutral(st, if b then "true" else "false");
    case Number(token) => PlainIsNeutral(st, token);
    case Text(s) => QuotedIsNeutral(depth, s);
    case Array(items) =>
      ItemsAreNeutral(items, depth + 1);
      WrappedIsNeutral(st, '[', DumpItems(items), ']');
    case Object(fields) =>
      FieldsAreNeutral(fields, depth + 1);
      WrappedIsNeutral(st, '{', DumpFields(fields), '}');
  }

  lemma {:induction false} ItemsAreNeutral(items: seq<Json>, depth: nat)
    requires depth > 0
    ensures Neutral(Scan(depth, false, false), DumpItems(items))
    decreases items
  {
    if items != [] {
      var st := Scan(depth, false, false);
      DumpsIsNeutral(items[0], depth);
      if |items| > 1 {
        ItemsAreNeutral(items[1..], depth);
        SeparatorIsNeutral(depth);
        NeutralConcat(st, Dumps(items[0]), ", ");
        NeutralConcat(st, Dumps(items[0]) + ", ", DumpItems(items[1..]));
      }
    }
  }

  lemma {:induction false} FieldIsNeutral(f: Field, depth: nat)
    ensures Neutral(Scan(depth, false, false), DumpField(f))
    decreases f
  {
    var st := Scan(depth, false, false);
    QuotedIsNeutral(depth, f.name);
    PlainIsNeutral(st, ": ");
    DumpsIsNeutral(f.value, depth);
    NeutralConcat(st, Quoted(f.name), ": ");
    NeutralConcat(st, Quoted(f.name) + ": ", Dumps(f.value));
  }

  lemma {:induction false} FieldsAreNeutral(fields: seq<Field>, depth: nat)
    requires depth > 0
    ensures Neutral(Scan(depth, false, false), DumpFields(fields))
    decreases fields
  {
    if fields != [] {
      var st := Scan(depth, false, false);
      FieldIsNeutral(fields[0], depth);
      if |fields| > 1 {
        FieldsAreNeutral(fields[1..], depth);
        SeparatorIsNeutral(depth);
        NeutralConcat(st, DumpField(fields[0]), ", ");
        NeutralConcat(st, DumpField(fields[0]) + ", ", DumpFields(fields[1..]));
      }
    }
  }

  /** The premise of the round trip holds for whatever is broadcast: every JSON value, however nested and
      whatever its strings contain, is written as one complete document. */
  lemma DumpsIsComplete(v: Json)
    ensures Complete(Dumps(v))
  {
    DumpsIsNeutral(v, 0);
  }

  // The characters that json.dumps writes by default.
  predicate Ascii(s: string) { forall i :: 0 <= i < |s| ==> ' ' <= s[i] <= '~' }

  lemma {:induction false} TextIsAscii(s: string)
    ensures Ascii(EscapeText(s))
    decreases |s|
  {
    if s != [] {
      assert Ascii(EscapeChar(s[0]));
      TextIsAscii(s[1..]);
    }
  }

  lemma {:induction false} DumpsIsAscii(v: Json)
    ensures Ascii(Dumps(v))
    decreases v, 0
  {
    match v
    case Null =>
    case Bool(b) =>
    case Number(token) =>
    case Text(s) => TextIsAscii(s);
    case Array(items) => ItemsAreAscii(items);
    case Object(fields) => FieldsAreAscii(fields);
  }

  lemma {:induction false} ItemsAreAscii(items: seq<Json>)
    ensures Ascii(DumpItems(items))
    decreases items, 1
  {
    if items != [] {
      DumpsIsAscii(items[0]);
      ItemsAreAscii(items[1..]);
    }
  }

  lemma {:induction false} FieldsAreAscii(fields: seq<Field>)
    ensures Ascii(DumpFields(fields))
    decreases fields, 1
  {
    if fields != [] {
      TextIsAscii(fields[0].name);
      DumpsIsAscii(fields[0].value);
      FieldsAreAscii(fields[1..]);
    }
  }

  lemma {:induction false} JoinedIsAscii(docs: seq<string>)
    requires forall i :: 0 <= i < |docs| ==> Ascii(docs[i])
    ensures Ascii(Joined(docs))
    decreases |docs|
  {
    if |docs| > 1 { JoinedIsAscii(docs[1..]); }
  }

  /** What makes the batch safe inside a script: whatever is broadcast, it holds printable ASCII characters only, no raw
      line break and nothing beyond. */
  lemma BatchIsAscii(vs: seq<Json>)
    ensures Ascii(Batch(DumpAll(vs)))
  {
    forall i | 0 <= i < |vs| ensures Ascii(DumpAll(vs)[i]) { DumpsIsAscii(vs[i]); }
    JoinedIsAscii(DumpAll(vs));
  }

  /** The default separators, and the batch's own. */
  lemma SeparatorsOf(v: Json, w: Json, name: string)
    ensures Dumps(Array([v, w])) == "[" + (Dumps(v) + ", " + Dumps(w)) + "]"
    ensures var key := Dumps(Text(name)) + ": ";
      Dumps(Object([Field(name, v), Field(name, w)])) == "{" + (key + Dumps(v) + ", " + (key + Dumps(w))) + "}"
    ensures Batch(DumpAll([v, w])) == "[" + (Dumps(v) + "," + Dumps(w)) + "]"
  {
    assert [v, w][1..] == [w];
    assert DumpItems([w]) == Dumps(w);
    assert DumpItems([v, w]) == Dumps(v) + ", " + DumpItems([w]);
    var f, g := Field(name, v), Field(name, w);
    assert [f, g][1..] == [g];
    assert DumpFields([g]) == DumpField(g);
    assert DumpFields([f, g]) == DumpField(f) + ", " + DumpFields([g]);
    var docs := DumpAll([v, w]);
    assert docs == [Dumps(v), Dumps(w)] && docs[1..] == [Dumps(w)];
    assert Joined(docs) == Dumps(v) + "," + Joined([Dumps(w)]);
  }

  /** The short escapes. */
  lemma ShortEscapes()
    ensures Dumps(Text("\\")) == "\"" + "\\\\" + "\"" && Dumps(Text("\"")) == "\"" + "\\\"" + "\""
    ensures Dumps(Text("\n")) == "\"" + "\\n" + "\"" && Dumps(Text("\r")) == "\"" + "\\r" + "\""
    ensures Dumps(Text("\t")) == "\"" + "\\t" + "\"" && Dumps(Text([0x08 as char])) == "\"" + "\\b" + "\""
    ensures Dumps(Text([0x0c as char])) == "\"" + "\\f" + "\""
  {
    OneCharText('\\');
    OneCharText('"');
    OneCharText('\n');
    OneCharText('\r');
    OneCharText('\t');
    OneCharText(0x08 as char);
    OneCharText(0x0c as char);
  }

  /** Printable ASCII stays as it is, but for the quote and the backslash. */
  lemma PrintableStays(c: char)
    requires 0x20 <= c as int <= 0x7e && c != '"' && c != '\\'
    ensures Dumps(Text([c])) == "\"" + [c] + "\""
  {
    OneCharText(c);
  }

  /** Any other character of the basic plane is its code in four lower-case hexadecimal digits. */
  lemma NumberedEscapes()
    ensures Dumps(Text([0x1f as char])) == "\"" + "\\u001f" + "\""
    ensures Dumps(Text([0x7f as char])) == "\"" + "\\u007f" + "\""
    ensures Dumps(Text([0xabcd as char])) == "\"" + "\\uabcd" + "\""
  {
    OneCharText(0x1f as char);
    OneCharText(0x7f as char);
    OneCharText(0xabcd as char);
  }

  /** A character outside it is two such codes. */
  lemma PairedEscape()
    ensures Dumps(Text([0x1_f600 as char])) == "\"" + ("\\ud83d" + "\\ude00") + "\""
  {
    OneCharText(0x1_f600 as char);
  }

  lemma OneCharText(c: char)
    ensures Dumps(Text([c])) == "\"" + EscapeChar(c) + "\""
  {
    assert [c][1..] == [];
    assert EscapeText([c]) == EscapeChar(c) + EscapeText([]);
    assert EscapeChar(c) + [] == EscapeChar(c);
  }

  function DumpAll(vs: seq<Json>): (docs: seq<string>)
    ensures |docs| == |vs| && forall i :: 0 <= i < |vs| ==> docs[i] == Dumps(vs[i])
  {
    seq(|vs|, i requires 0 <= i < |vs| => Dumps(vs[i]))
  }

  lemma BatchIsComplete(vs: seq<Json>)
    ensures Complete(Batch(DumpAll(vs)))
  {
    var docs := DumpAll(vs);
    forall i | 0 <= i < |docs| ensures Neutral(Scan(1, false, false), docs[i]) { DumpsIsNeutral(vs[i], 1); }
    JoinedIsNeutral(docs);
    WrappedIsNeutral(TOP, '[', Joined(docs), ']');
  }

  /** Flushing any non-empty list of values and splitting the batch gives the same list of documents, and the
      batch is itself one complete document. */
  lemma FlushedValuesComeBack(vs: seq<Json>)
    requires vs != []
    ensures Unbatch(Batch(DumpAll(vs))) == Some(DumpAll(vs))
    ensures Complete(Batch(DumpAll(vs)))
  {
    forall i | 0 <= i < |vs| ensures Complete(Dumps(vs[i])) { DumpsIsComplete(vs[i]); }
    BatchRoundTrip(DumpAll(vs));
    BatchIsComplete(vs);
  }

  lemma {:induction false} JoinedIsNeutral(docs: seq<string>)
    requires forall i :: 0 <= i < |docs| ==> Neutral(Scan(1, false, false), docs[i])
    ensures Neutral(Scan(1, false, false), Joined(docs))
    decreases |docs|
  {
    if |docs| > 1 {
      var st := Scan(1, false, false);
      JoinedIsNeutral(docs[1..]);
      assert Neutral(st, ",") by { assert ","[1..] == []; assert NoCut(st, []); }
      NeutralConcat(st, docs[0], ",");
      NeutralConcat(st, docs[0] + ",", Joined(docs[1..]));
    }
  }
}
