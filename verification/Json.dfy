/** JSON text as `serde_json` writes it, and a reader for JSON text in general (RFC 8259). */
module Json {
  import opened Common

  /** A number is kept as the characters it is written with. */
  datatype Json =
    | Null
    | Bool(b: bool)
    | Number(token: string)
    | Str(text: string)
    | Array(items: seq<Json>)
    | Object(fields: seq<Field>)

  datatype Field = Field(name: string, value: Json)

  // ---------- writing ----------

  function HexDigit(n: nat): char
    requires n < 16
  {
    "0123456789abcdef"[n]
  }

  function EscapeChar(c: char): string {
    if c == '"' then "\\\""
    else if c == '\\' then "\\\\"
    else if c == '\U{08}' then "\\b"
    else if c == '\t' then "\\t"
    else if c == '\n' then "\\n"
    else if c == '\U{0C}' then "\\f"
    else if c == '\r' then "\\r"
    else if c < ' ' then "\\u00" + [HexDigit(c as int / 16), HexDigit(c as int % 16)]
    else [c]
  }

  function Escape(text: string): string {
    if text == "" then "" else EscapeChar(text[0]) + Escape(text[1..])
  }

  function Quote(text: string): string {
    "\"" + Escape(text) + "\""
  }

  function Print(j: Json): string
    decreases j
  {
    match j
    case Null => "null"
    case Bool(b) => if b then "true" else "false"
    case Number(token) => token
    case Str(text) => Quote(text)
    case Array(items) => "[" + PrintItems(items) + "]"
    case Object(fields) => "{" + PrintFields(fields) + "}"
  }

  function PrintItems(items: seq<Json>): string
    decreases items
  {
    if items == [] then ""
    else Print(items[0]) + (if |items| == 1 then "" else "," + PrintItems(items[1..]))
  }

  function PrintField(f: Field): string
    decreases f
  {
    Quote(f.name) + ":" + Print(f.value)
  }

  function PrintFields(fields: seq<Field>): string
    decreases fields
  {
    if fields == [] then ""
    else PrintField(fields[0]) + (if |fields| == 1 then "" else "," + PrintFields(fields[1..]))
  }

  // ---------- reading ----------

  predicate IsSpace(c: char) {
    c == ' ' || c == '\t' || c == '\n' || c == '\r'
  }

  function SkipSpace(s: string): (r: string)
    ensures |r| <= |s|
  {
    if s != "" && IsSpace(s[0]) then SkipSpace(s[1..]) else s
  }

  function HexValue(c: char): Option<nat> {
    if '0' <= c <= '9' then Some(c as int - '0' as int)
    else if 'a' <= c <= 'f' then Some(c as int - 'a' as int + 10)
    else if 'A' <= c <= 'F' then Some(c as int - 'A' as int + 10)
    else None
  }

  function Hex4(s: string): (r: Option<nat>)
    ensures r.Some? ==> r.value < 0x10000 && |s| >= 4
  {
    if |s| < 4 then None
    else match (HexValue(s[0]), HexValue(s[1]), HexValue(s[2]), HexValue(s[3]))
      case (Some(a), Some(b), Some(c), Some(d)) =>
        if a < 16 && b < 16 && c < 16 && d < 16 then Some(((a * 16 + b) * 16 + c) * 16 + d) else None
      case _ => None
  }

  datatype Parsed<T> = Failure | Parsed(value: T, rest: string)

  /** The four digits of a `\u` escape, and the second half of a surrogate pair. */
  function ParseUnicode(s: string): (r: Parsed<char>)
    ensures r.Parsed? ==> |r.rest| < |s|
  {
    match Hex4(s)
    case None => Failure
    case Some(n) =>
      if n < 0xD800 || 0xE000 <= n then Parsed(n as char, s[4..])
      else if 0xDC00 <= n || |s| < 6 || s[4] != '\\' || s[5] != 'u' then Failure
      else match Hex4(s[6..])
        case None => Failure
        case Some(m) =>
          if 0xDC00 <= m < 0xE000 then
            Parsed((0x10000 + (n - 0xD800) * 0x400 + (m - 0xDC00)) as char, s[10..])
          else Failure
  }

  /** What follows a backslash. */
  function ParseEscape(s: string): (r: Parsed<char>)
    ensures r.Parsed? ==> |r.rest| < |s|
  {
    if s == "" then Failure
    else match s[0]
      case '"' => Parsed('"', s[1..])
      case '\\' => Parsed('\\', s[1..])
      case '/' => Parsed('/', s[1..])
      case 'b' => Parsed('\U{08}', s[1..])
      case 'f' => Parsed('\U{0C}', s[1..])
      case 'n' => Parsed('\n', s[1..])
      case 'r' => Parsed('\r', s[1..])
      case 't' => Parsed('\t', s[1..])
      case 'u' => ParseUnicode(s[1..])
      case _ => Failure
  }

  function Prepend(c: char, r: Parsed<string>): Parsed<string> {
    match r
    case Failure => Failure
    case Parsed(t, rest) => Parsed([c] + t, rest)
  }

  /** A string after its opening quote. */
  function ParseString(s: string): (r: Parsed<string>)
    ensures r.Parsed? ==> |r.rest| < |s|
    decreases |s|
  {
    if s == "" then Failure
    else if s[0] == '"' then Parsed("", s[1..])
    else if s[0] == '\\' then
      match ParseEscape(s[1..])
      case Failure => Failure
      case Parsed(c, rest) => Prepend(c, ParseString(rest))
    else if s[0] < ' ' then Failure
    else Prepend(s[0], ParseString(s[1..]))
  }

  predicate IsNumberChar(c: char) {
    '0' <= c <= '9' || c == '-' || c == '+' || c == '.' || c == 'e' || c == 'E'
  }

  function NumberLength(s: string): (n: nat)
    ensures n <= |s|
  {
    if s != "" && IsNumberChar(s[0]) then 1 + NumberLength(s[1..]) else 0
  }

  function Literal(s: string, word: string, value: Json): Parsed<Json> {
    if word <= s then Parsed(value, s[|word|..]) else Failure
  }

  function ParseValue(text: string): (r: Parsed<Json>)
    ensures r.Parsed? ==> |r.rest| < |text|
    decreases |text|, 0
  {
    var s := SkipSpace(text);
    if s == "" then Failure
    else if s[0] == '"' then
      match ParseString(s[1..])
      case Failure => Failure
      case Parsed(t, rest) => Parsed(Str(t), rest)
    else if s[0] == '[' then
      var inner := SkipSpace(s[1..]);
      if inner != "" && inner[0] == ']' then Parsed(Array([]), inner[1..])
      else match ParseItems(s[1..])
        case Failure => Failure
        case Parsed(items, rest) => Parsed(Array(items), rest)
    else if s[0] == '{' then
      var inner := SkipSpace(s[1..]);
      if inner != "" && inner[0] == '}' then Parsed(Object([]), inner[1..])
      else match ParseFields(s[1..])
        case Failure => Failure
        case Parsed(fields, rest) => Parsed(Object(fields), rest)
    else if s[0] == '-' || '0' <= s[0] <= '9' then
      Parsed(Number(s[..NumberLength(s)]), s[NumberLength(s)..])
    else if s[0] == 't' then Literal(s, "true", Bool(true))
    else if s[0] == 'f' then Literal(s, "false", Bool(false))
    else Literal(s, "null", Null)
  }

  /** One or more values, up to the closing bracket. */
  function ParseItems(s: string): (r: Parsed<seq<Json>>)
    ensures r.Parsed? ==> |r.rest| < |s|
    decreases |s|, 1
  {
    match ParseValue(s)
    case Failure => Failure
    case Parsed(v, after) =>
      var rest := SkipSpace(after);
      if rest == "" then Failure
      else if rest[0] == ']' then Parsed([v], rest[1..])
      else if rest[0] != ',' then Failure
      else match ParseItems(rest[1..])
        case Failure => Failure
        case Parsed(vs, end) => Parsed([v] + vs, end)
  }

  function ParseField(text: string): (r: Parsed<Field>)
    ensures r.Parsed? ==> |r.rest| < |text|
    decreases |text|, 1
  {
    var s := SkipSpace(text);
    if s == "" || s[0] != '"' then Failure
    else match ParseString(s[1..])
      case Failure => Failure
      case Parsed(name, after) =>
        var rest := SkipSpace(after);
        if rest == "" || rest[0] != ':' then Failure
        else match ParseValue(rest[1..])
          case Failure => Failure
          case Parsed(v, end) => Parsed(Field(name, v), end)
  }

  /** One or more fields, up to the closing brace. */
  function ParseFields(s: string): (r: Parsed<seq<Field>>)
    ensures r.Parsed? ==> |r.rest| < |s|
    decreases |s|, 2
  {
    match ParseField(s)
    case Failure => Failure
    case Parsed(f, after) =>
      var rest := SkipSpace(after);
      if rest == "" then Failure
      else if rest[0] == '}' then Parsed([f], rest[1..])
      else if rest[0] != ',' then Failure
      else match ParseFields(rest[1..])
        case Failure => Failure
        case Parsed(fs, end) => Parsed([f] + fs, end)
  }

  /** A whole text: one value and nothing but white space after it. */
  function Parse(text: string): Option<Json> {
    match ParseValue(text)
    case Failure => None
    case Parsed(j, rest) => if SkipSpace(rest) == "" then Some(j) else None
  }

  // ---------- round trip ----------

  predicate IsNumberToken(token: string) {
    token != "" && (token[0] == '-' || '0' <= token[0] <= '9') &&
    forall i :: 0 <= i < |token| ==> IsNumberChar(token[i])
  }

  /** Every number in the value is written with number characters. */
  predicate WellFormed(j: Json)
    decreases j
  {
    match j
    case Number(token) => IsNumberToken(token)
    case Array(items) => forall i :: 0 <= i < |items| ==> WellFormed(items[i])
    case Object(fields) => forall i :: 0 <= i < |fields| ==> WellFormed(fields[i].value)
    case _ => true
  }

  /** `rest` cannot be mistaken for the continuation of a number. */
  predicate EndsNumber(rest: string) {
    rest == "" || !IsNumberChar(rest[0])
  }

  lemma ControlParses(c: char, rest: string)
    requires |EscapeChar(c)| == 6
    ensures ParseEscape(EscapeChar(c)[1..] + rest) == Parsed(c, rest)
  {
    var n := c as int;
    var t := ['0', '0', HexDigit(n / 16), HexDigit(n % 16)] + rest;
    assert EscapeChar(c)[1..] + rest == ['u'] + t;
    assert (['u'] + t)[1..] == t && t[4..] == rest;
    HexDigits(n / 16);
    HexDigits(n % 16);
    assert Hex4(t) == Some(n);
  }

  lemma ShorthandParses(c: char, rest: string)
    requires |EscapeChar(c)| == 2
    ensures ParseEscape(EscapeChar(c)[1..] + rest) == Parsed(c, rest)
  {
    assert EscapeChar(c)[1..] + rest == [EscapeChar(c)[1]] + rest;
    assert ([EscapeChar(c)[1]] + rest)[1..] == rest;
  }

  lemma EscapeLengths(c: char)
    ensures |EscapeChar(c)| == 1 || |EscapeChar(c)| == 2 || |EscapeChar(c)| == 6
    ensures |EscapeChar(c)| == 1 ==> EscapeChar(c) == [c] && c != '"' && c != '\\' && c >= ' '
    ensures |EscapeChar(c)| > 1 ==> EscapeChar(c)[0] == '\\'
  {
  }

  lemma EscapeCharParses(c: char, rest: string)
    ensures ParseString(EscapeChar(c) + rest) == Prepend(c, ParseString(rest))
  {
    var e := EscapeChar(c);
    EscapeLengths(c);
    assert (e + rest)[0] == e[0] && (e + rest)[1..] == e[1..] + rest;
    if |e| == 1 {
      assert e[1..] + rest == rest;
    } else if |e| == 2 {
      ShorthandParses(c, rest);
    } else {
      ControlParses(c, rest);
    }
  }

  lemma HexDigits(n: nat)
    requires n < 16
    ensures HexValue(HexDigit(n)) == Some(n)
  {
  }

  lemma ThreeBehind(a: string, b: string, c: string, d: string)
    ensures (a + b) + c + d == a + (b + c + d)
  {
  }

  lemma {:induction false} QuotedParses(text: string, rest: string)
    ensures ParseString(Escape(text) + "\"" + rest) == Parsed(text, rest)
  {
    if text == "" {
      assert (Escape(text) + "\"" + rest)[1..] == rest;
    } else {
      var tail := Escape(text[1..]) + "\"" + rest;
      QuotedParses(text[1..], rest);
      ThreeBehind(EscapeChar(text[0]), Escape(text[1..]), "\"", rest);
      EscapeCharParses(text[0], tail);
      assert [text[0]] + text[1..] == text;
    }
  }

  lemma {:induction false} NumberParses(token: string, rest: string)
    requires forall i :: 0 <= i < |token| ==> IsNumberChar(token[i])
    requires EndsNumber(rest)
    ensures NumberLength(token + rest) == |token|
  {
    if token == "" {
      assert token + rest == rest;
    } else {
      NumberParses(token[1..], rest);
      assert (token + rest)[1..] == token[1..] + rest;
    }
  }

  // One step of each reader, given what the reader below it answers.

  lemma ReadString(s: string, text: string, rest: string)
    requires s != "" && s[0] == '"' && ParseString(s[1..]) == Parsed(text, rest)
    ensures ParseValue(s) == Parsed(Str(text), rest)
  {
  }

  lemma ReadNumber(s: string, n: nat)
    requires s != "" && (s[0] == '-' || '0' <= s[0] <= '9') && NumberLength(s) == n
    ensures ParseValue(s) == Parsed(Number(s[..n]), s[n..])
  {
  }

  lemma ReadArray(s: string, items: seq<Json>, rest: string)
    requires |s| > 1 && s[0] == '[' && !IsSpace(s[1]) && s[1] != ']' && ParseItems(s[1..]) == Parsed(items, rest)
    ensures ParseValue(s) == Parsed(Array(items), rest)
  {
  }

  lemma ReadObject(s: string, fields: seq<Field>, rest: string)
    requires |s| > 1 && s[0] == '{' && s[1] == '"' && ParseFields(s[1..]) == Parsed(fields, rest)
    ensures ParseValue(s) == Parsed(Object(fields), rest)
  {
    assert SkipSpace(s) == s && SkipSpace(s[1..]) == s[1..];
  }

  lemma ReadLastItem(s: string, v: Json, after: string)
    requires ParseValue(s) == Parsed(v, after) && after != "" && after[0] == ']'
    ensures ParseItems(s) == Parsed([v], after[1..])
  {
  }

  lemma ReadItem(s: string, v: Json, after: string, vs: seq<Json>, end: string)
    requires ParseValue(s) == Parsed(v, after) && after != "" && after[0] == ','
    requires ParseItems(after[1..]) == Parsed(vs, end)
    ensures ParseItems(s) == Parsed([v] + vs, end)
  {
  }

  lemma ReadField(s: string, name: string, after: string, v: Json, end: string)
    requires s != "" && s[0] == '"' && ParseString(s[1..]) == Parsed(name, after)
    requires after != "" && after[0] == ':' && ParseValue(after[1..]) == Parsed(v, end)
    ensures ParseField(s) == Parsed(Field(name, v), end)
  {
  }

  lemma ReadLastField(s: string, f: Field, after: string)
    requires ParseField(s) == Parsed(f, after) && after != "" && after[0] == '}'
    ensures ParseFields(s) == Parsed([f], after[1..])
  {
  }

  lemma ReadMoreFields(s: string, f: Field, after: string, fs: seq<Field>, end: string)
    requires ParseField(s) == Parsed(f, after) && after != "" && after[0] == ','
    requires ParseFields(after[1..]) == Parsed(fs, end)
    ensures ParseFields(s) == Parsed([f] + fs, end)
  {
  }

  /** What a printed value can begin with. */
  lemma PrintStarts(j: Json)
    requires WellFormed(j)
    ensures Print(j) != "" && !IsSpace(Print(j)[0]) && Print(j)[0] != ']'
  {
  }

  lemma StrParses(text: string, rest: string)
    ensures ParseValue(Quote(text) + rest) == Parsed(Str(text), rest)
  {
    QuotedParses(text, rest);
    BracketedText('"', Escape(text), "\"", rest);
    ReadString(Quote(text) + rest, text, rest);
  }

  lemma ConstantParses(j: Json, rest: string)
    requires j.Null? || j.Bool?
    ensures ParseValue(Print(j) + rest) == Parsed(j, rest)
  {
    var s, n := Print(j) + rest, |Print(j)|;
    assert Print(j) <= s && s[n..] == rest;
  }

  /** Reading back a printed value, whatever follows it. */
  lemma {:induction false} PrintedParses(j: Json, rest: string)
    requires WellFormed(j) && EndsNumber(rest)
    ensures ParseValue(Print(j) + rest) == Parsed(j, rest)
    decreases j
  {
    var s := Print(j) + rest;
    match j
    case Number(token) =>
      NumberParses(token, rest);
      ReadNumber(s, |token|);
      assert s[..|token|] == token && s[|token|..] == rest;
    case Str(text) =>
      StrParses(text, rest);
    case Array(items) =>
      ArrayParses(items, rest);
    case Object(fields) =>
      ObjectParses(fields, rest);
    case _ =>
      ConstantParses(j, rest);
  }

  /** An opening bracket in front of `body`, a closing one and the rest. */
  lemma BracketedText(open: char, body: string, close: string, rest: string)
    ensures
      var s := [open] + body + close + rest;
      s != "" && s[0] == open && s[1..] == body + close + rest
  {
  }

  lemma EmptyListParses(rest: string)
    ensures ParseValue("[" + "" + "]" + rest) == Parsed(Array([]), rest)
    ensures ParseValue("{" + "" + "}" + rest) == Parsed(Object([]), rest)
  {
    BracketedText('[', "", "]", rest);
    BracketedText('{', "", "}", rest);
    assert ("" + "]" + rest)[1..] == rest && ("" + "}" + rest)[1..] == rest;
  }

  lemma {:induction false} ArrayParses(items: seq<Json>, rest: string)
    requires forall i :: 0 <= i < |items| ==> WellFormed(items[i])
    ensures ParseValue(Print(Array(items)) + rest) == Parsed(Array(items), rest)
    decreases items, 1
  {
    if items == [] {
      EmptyListParses(rest);
    } else {
      ItemsParse(items, rest);
      ItemsStart(items, rest);
      BracketedText('[', PrintItems(items), "]", rest);
      ReadArray("[" + PrintItems(items) + "]" + rest, items, rest);
    }
  }

  lemma ItemsStart(items: seq<Json>, rest: string)
    requires items != [] && WellFormed(items[0])
    ensures
      var s := PrintItems(items) + "]" + rest;
      s != "" && !IsSpace(s[0]) && s[0] != ']'
  {
    PrintStarts(items[0]);
    assert PrintItems(items)[0] == Print(items[0])[0];
  }

  /** The items, the closing bracket and what follows, with the first item split off. */
  lemma ItemsText(items: seq<Json>, rest: string)
    requires items != []
    ensures PrintItems(items) + "]" + rest ==
            Print(items[0]) + if |items| == 1 then "]" + rest else "," + (PrintItems(items[1..]) + "]" + rest)
  {
    if |items| == 1 {
      assert Print(items[0]) + "" == Print(items[0]);
    } else {
      Reassociate(Print(items[0]), PrintItems(items[1..]), "]", rest);
    }
  }

  lemma Reassociate(a: string, b: string, close: string, rest: string)
    ensures (a + ("," + b)) + close + rest == a + ("," + (b + close + rest))
  {
  }

  lemma {:induction false} ItemsParse(items: seq<Json>, rest: string)
    requires items != [] && forall i :: 0 <= i < |items| ==> WellFormed(items[i])
    ensures ParseItems(PrintItems(items) + "]" + rest) == Parsed(items, rest)
    decreases items, 0
  {
    ItemsText(items, rest);
    if |items| == 1 {
      PrintedParses(items[0], "]" + rest);
      LastItem(items[0], rest);
      assert [items[0]] == items;
    } else {
      var tail := PrintItems(items[1..]) + "]" + rest;
      ItemsParse(items[1..], rest);
      PrintedParses(items[0], "," + tail);
      ItemThenMore(items[0], items[1..], tail, rest);
      assert [items[0]] + items[1..] == items;
    }
  }

  lemma LastItem(v: Json, rest: string)
    requires ParseValue(Print(v) + ("]" + rest)) == Parsed(v, "]" + rest)
    ensures ParseItems(Print(v) + ("]" + rest)) == Parsed([v], rest)
  {
    assert ("]" + rest)[1..] == rest;
    ReadLastItem(Print(v) + ("]" + rest), v, "]" + rest);
  }

  lemma ItemThenMore(v: Json, vs: seq<Json>, tail: string, rest: string)
    requires ParseValue(Print(v) + ("," + tail)) == Parsed(v, "," + tail) && ParseItems(tail) == Parsed(vs, rest)
    ensures ParseItems(Print(v) + ("," + tail)) == Parsed([v] + vs, rest)
  {
    assert ("," + tail)[1..] == tail;
    ReadItem(Print(v) + ("," + tail), v, "," + tail, vs, rest);
  }

  lemma FieldText(f: Field, rest: string)
    ensures
      var s := PrintField(f) + rest;
      && s != "" && s[0] == '"'
      && s[1..] == Escape(f.name) + "\"" + (":" + (Print(f.value) + rest))
  {
  }

  lemma {:induction false} FieldParses(f: Field, rest: string)
    requires WellFormed(f.value) && EndsNumber(rest)
    ensures ParseField(PrintField(f) + rest) == Parsed(f, rest)
    decreases f, 0
  {
    var value := Print(f.value) + rest;
    var after := ":" + value;
    FieldText(f, rest);
    QuotedParses(f.name, after);
    PrintedParses(f.value, rest);
    assert after[1..] == value;
    ReadField(PrintField(f) + rest, f.name, after, f.value, rest);
  }

  lemma {:induction false} ObjectParses(fields: seq<Field>, rest: string)
    requires forall i :: 0 <= i < |fields| ==> WellFormed(fields[i].value)
    ensures ParseValue(Print(Object(fields)) + rest) == Parsed(Object(fields), rest)
    decreases fields, 1
  {
    if fields == [] {
      EmptyListParses(rest);
    } else {
      FieldsParse(fields, rest);
      FieldsStart(fields, rest);
      BracketedText('{', PrintFields(fields), "}", rest);
      ReadObject("{" + PrintFields(fields) + "}" + rest, fields, rest);
    }
  }

  lemma FieldsStart(fields: seq<Field>, rest: string)
    requires fields != []
    ensures
      var s := PrintFields(fields) + "}" + rest;
      s != "" && s[0] == '"'
  {
    assert PrintField(fields[0])[0] == '"';
    assert PrintFields(fields)[0] == '"';
  }

  lemma FieldsText(fields: seq<Field>, rest: string)
    requires fields != []
    ensures PrintFields(fields) + "}" + rest ==
            PrintField(fields[0]) + if |fields| == 1 then "}" + rest else "," + (PrintFields(fields[1..]) + "}" + rest)
  {
    if |fields| == 1 {
      assert PrintField(fields[0]) + "" == PrintField(fields[0]);
    } else {
      Reassociate(PrintField(fields[0]), PrintFields(fields[1..]), "}", rest);
    }
  }

  lemma {:induction false} FieldsParse(fields: seq<Field>, rest: string)
    requires fields != [] && forall i :: 0 <= i < |fields| ==> WellFormed(fields[i].value)
    ensures ParseFields(PrintFields(fields) + "}" + rest) == Parsed(fields, rest)
    decreases fields, 0
  {
    FieldsText(fields, rest);
    if |fields| == 1 {
      LastField(fields[0], rest);
      assert [fields[0]] == fields;
    } else {
      FieldsParse(fields[1..], rest);
      FieldThenMore(fields[0], fields[1..], PrintFields(fields[1..]) + "}" + rest, rest);
      assert [fields[0]] + fields[1..] == fields;
    }
  }

  lemma {:induction false} LastField(f: Field, rest: string)
    requires WellFormed(f.value)
    ensures ParseFields(PrintField(f) + ("}" + rest)) == Parsed([f], rest)
    decreases f, 1
  {
    FieldParses(f, "}" + rest);
    assert ("}" + rest)[1..] == rest;
    ReadLastField(PrintField(f) + ("}" + rest), f, "}" + rest);
  }

  lemma {:induction false} FieldThenMore(f: Field, fs: seq<Field>, tail: string, rest: string)
    requires WellFormed(f.value) && ParseFields(tail) == Parsed(fs, rest)
    ensures ParseFields(PrintField(f) + ("," + tail)) == Parsed([f] + fs, rest)
    decreases f, 1
  {
    FieldParses(f, "," + tail);
    assert ("," + tail)[1..] == tail;
    ReadMoreFields(PrintField(f) + ("," + tail), f, "," + tail, fs, rest);
  }

  /** Parsing undoes printing. */
  lemma ParsePrint(j: Json)
    requires WellFormed(j)
    ensures Parse(Print(j)) == Some(j)
  {
    PrintedParses(j, "");
    assert Print(j) + "" == Print(j);
  }

  // ---------- one line ----------

  predicate OneLine(s: string) {
    forall i :: 0 <= i < |s| ==> s[i] >= ' '
  }

  lemma EscapeCharIsOneLine(c: char)
    ensures OneLine(EscapeChar(c))
  {
  }

  lemma {:induction false} EscapedIsOneLine(text: string)
    ensures OneLine(Escape(text))
  {
    if text != "" {
      EscapeCharIsOneLine(text[0]);
      EscapedIsOneLine(text[1..]);
    }
  }

  /** Printed JSON has no control character, in particular no newline. */
  lemma {:induction false} PrintedIsOneLine(j: Json)
    requires WellFormed(j)
    ensures OneLine(Print(j))
    decreases j
  {
    match j
    case Str(text) => EscapedIsOneLine(text);
    case Array(items) => ItemsAreOneLine(items);
    case Object(fields) => FieldsAreOneLine(fields);
    case _ =>
  }

  lemma {:induction false} ItemsAreOneLine(items: seq<Json>)
    requires forall i :: 0 <= i < |items| ==> WellFormed(items[i])
    ensures OneLine(PrintItems(items))
    decreases items
  {
    if items != [] {
      PrintedIsOneLine(items[0]);
      ItemsAreOneLine(items[1..]);
    }
  }

  lemma {:induction false} FieldsAreOneLine(fields: seq<Field>)
    requires forall i :: 0 <= i < |fields| ==> WellFormed(fields[i].value)
    ensures OneLine(PrintFields(fields))
    decreases fields
  {
    if fields != [] {
      EscapedIsOneLine(fields[0].name);
      PrintedIsOneLine(fields[0].value);
      FieldsAreOneLine(fields[1..]);
    }
  }
}
