/** JSON values, the text `JSON.stringify` prints for them, and a reader of that text. */
module Json {
  import opened Options

  /** A number is identified with the text `JSON.stringify` prints for it. */
  datatype Json =
    | Null
    | Bool(b: bool)
    | Number(lexeme: string)
    | String(text: string)
    | Array(items: seq<Json>)
    | Object(entries: seq<Entry>)

  datatype Entry = Entry(key: string, value: Json)

  // ---------------------------------------------------------------- well-formed values

  predicate IsNumberChar(c: char) {
    '0' <= c <= '9' || c == '-' || c == '+' || c == '.' || c == 'e' || c == 'E'
  }

  predicate IsLexeme(s: string) {
    s != "" && forall i | 0 <= i < |s| :: IsNumberChar(s[i])
  }

  predicate DistinctKeys(es: seq<Entry>) {
    forall i, j | 0 <= i < j < |es| :: es[i].key != es[j].key
  }

  /** What a JavaScript value without `undefined` looks like: object keys are distinct. */
  predicate WellFormed(v: Json) {
    match v
    case Number(l) => IsLexeme(l)
    case Array(items) => forall i | 0 <= i < |items| :: WellFormed(items[i])
    case Object(es) => DistinctKeys(es) && forall i | 0 <= i < |es| :: WellFormed(es[i].value)
    case _ => true
  }

  // ---------------------------------------------------------------- JSON.stringify

  const HEX := "0123456789abcdef"

  function EscapeChar(c: char): string {
    if c == '"' then "\\\""
    else if c == '\\' then "\\\\"
    else if c as int == 8 then "\\b"
    else if c as int == 9 then "\\t"
    else if c as int == 10 then "\\n"
    else if c as int == 12 then "\\f"
    else if c as int == 13 then "\\r"
    else if c as int < 32 then "\\u00" + [HEX[c as int / 16], HEX[c as int % 16]]
    else [c]
  }

  function Escape(s: string): string {
    if s == "" then "" else EscapeChar(s[0]) + Escape(s[1..])
  }

  function Quote(s: string): string {
    "\"" + Escape(s) + "\""
  }

  /** `JSON.stringify(v)`: entries in the order the object holds them. */
  function Stringify(v: Json): string
    decreases v, 1
  {
    match v
    case Null => "null"
    case Bool(b) => if b then "true" else "false"
    case Number(l) => l
    case String(t) => Quote(t)
    case Array(items) => "[" + StringifyItems(items) + "]"
    case Object(es) => "{" + StringifyEntries(es) + "}"
  }

  function StringifyItems(items: seq<Json>): string
    decreases items, 0
  {
    if items == [] then ""
    else if |items| == 1 then Stringify(items[0])
    else Stringify(items[0]) + "," + StringifyItems(items[1..])
  }

  function StringifyEntry(e: Entry): string
    decreases e, 2
  {
    Quote(e.key) + ":" + Stringify(e.value)
  }

  function StringifyEntries(es: seq<Entry>): string
    decreases es, 0
  {
    if es == [] then ""
    else if |es| == 1 then StringifyEntry(es[0])
    else StringifyEntry(es[0]) + "," + StringifyEntries(es[1..])
  }

  // ---------------------------------------------------------------- JSON.parse (no white space)

  datatype Parsed<+T> = Failed | Parsed(value: T, rest: string)

  function HexValue(c: char): (n: int)
    ensures -1 <= n < 16
  {
    if '0' <= c <= '9' then c as int - '0' as int
    else if 'a' <= c <= 'f' then c as int - 'a' as int + 10
    else if 'A' <= c <= 'F' then c as int - 'A' as int + 10
    else -1
  }

  function ParseHex4(s: string): (r: Parsed<char>)
    ensures r.Parsed? ==> |r.rest| < |s|
  {
    if |s| < 4 || HexValue(s[0]) < 0 || HexValue(s[1]) < 0 || HexValue(s[2]) < 0 || HexValue(s[3]) < 0 then Failed
    else
      var n := 4096 * HexValue(s[0]) + 256 * HexValue(s[1]) + 16 * HexValue(s[2]) + HexValue(s[3]);
      if 0xD800 <= n < 0xE000 then Failed else Parsed(n as char, s[4..])
  }

  /** One character of a string literal, literal or escaped. */
  function ParseChar(s: string): (r: Parsed<char>)
    requires s != ""
    ensures r.Parsed? ==> |r.rest| < |s|
  {
    if s[0] != '\\' then (if (s[0] as int) < 32 then Failed else Parsed(s[0], s[1..]))
    else if |s| < 2 then Failed
    else match s[1]
      case '"' => Parsed('"', s[2..])
      case '\\' => Parsed('\\', s[2..])
      case '/' => Parsed('/', s[2..])
      case 'b' => Parsed(8 as char, s[2..])
      case 't' => Parsed(9 as char, s[2..])
      case 'n' => Parsed(10 as char, s[2..])
      case 'f' => Parsed(12 as char, s[2..])
      case 'r' => Parsed(13 as char, s[2..])
      case 'u' => ParseHex4(s[2..])
      case _ => Failed
  }

  /** The rest of a string literal, after its opening quote. */
  function ParseText(s: string): (r: Parsed<string>)
    ensures r.Parsed? ==> |r.rest| < |s|
    decreases |s|
  {
    if s == "" then Failed
    else if s[0] == '"' then Parsed("", s[1..])
    else match ParseChar(s)
      case Failed => Failed
      case Parsed(c, rest) =>
        match ParseText(rest)
        case Failed => Failed
        case Parsed(t, rest') => Parsed([c] + t, rest')
  }

  function NumberLength(s: string): (n: nat)
    ensures n <= |s|
  {
    if s == "" || !IsNumberChar(s[0]) then 0 else 1 + NumberLength(s[1..])
  }

  function ParseValue(s: string): (r: Parsed<Json>)
    ensures r.Parsed? ==> |r.rest| < |s|
    decreases |s|, 2
  {
    if s == "" then Failed
    else match s[0]
      case 'n' => if "null" <= s then Parsed(Null, s[4..]) else Failed
      case 't' => if "true" <= s then Parsed(Bool(true), s[4..]) else Failed
      case 'f' => if "false" <= s then Parsed(Bool(false), s[5..]) else Failed
      case '"' =>
        (match ParseText(s[1..])
         case Failed => Failed
         case Parsed(t, rest) => Parsed(String(t), rest))
      case '[' =>
        if |s| > 1 && s[1] == ']' then Parsed(Array([]), s[2..])
        else (match ParseItems(s[1..])
              case Failed => Failed
              case Parsed(items, rest) => Parsed(Array(items), rest))
      case '{' =>
        if |s| > 1 && s[1] == '}' then Parsed(Object([]), s[2..])
        else (match ParseEntries(s[1..])
              case Failed => Failed
              case Parsed(es, rest) => Parsed(Object(es), rest))
      case _ =>
        var n := NumberLength(s);
        if n == 0 then Failed else Parsed(Number(s[..n]), s[n..])
  }

  /** One or more items, up to and including the closing bracket. */
  function ParseItems(s: string): (r: Parsed<seq<Json>>)
    ensures r.Parsed? ==> |r.rest| < |s|
    decreases |s|, 3
  {
    match ParseValue(s)
    case Failed => Failed
    case Parsed(v, rest) =>
      if rest == "" then Failed
      else if rest[0] == ']' then Parsed([v], rest[1..])
      else if rest[0] != ',' then Failed
      else match ParseItems(rest[1..])
        case Failed => Failed
        case Parsed(items, rest') => Parsed([v] + items, rest')
  }

  /** A key and the colon after it. */
  function ParseKey(s: string): (r: Parsed<string>)
    ensures r.Parsed? ==> |r.rest| < |s|
  {
    if s == "" || s[0] != '"' then Failed
    else match ParseText(s[1..])
      case Failed => Failed
      case Parsed(k, rest) => if rest == "" || rest[0] != ':' then Failed else Parsed(k, rest[1..])
  }

  function ParseEntry(s: string): (r: Parsed<Entry>)
    ensures r.Parsed? ==> |r.rest| < |s|
    decreases |s|, 2
  {
    match ParseKey(s)
    case Failed => Failed
    case Parsed(k, rest) =>
      match ParseValue(rest)
      case Failed => Failed
      case Parsed(v, rest') => Parsed(Entry(k, v), rest')
  }

  /** One or more entries, up to and including the closing brace. */
  function ParseEntries(s: string): (r: Parsed<seq<Entry>>)
    ensures r.Parsed? ==> |r.rest| < |s|
    decreases |s|, 3
  {
    match ParseEntry(s)
    case Failed => Failed
    case Parsed(e, rest) =>
      if rest == "" then Failed
      else if rest[0] == '}' then Parsed([e], rest[1..])
      else if rest[0] != ',' then Failed
      else match ParseEntries(rest[1..])
        case Failed => Failed
        case Parsed(es, rest') => Parsed([e] + es, rest')
  }

  /** `JSON.parse(s)`: the whole text is one value. */
  function Parse(s: string): Option<Json> {
    match ParseValue(s)
    case Failed => None
    case Parsed(v, rest) => if rest == "" then Some(v) else None
  }

  // ---------------------------------------------------------------- reading back what was printed

  /** Text that may follow a value: it does not continue a number. */
  predicate Delimited(rest: string) {
    rest == "" || !IsNumberChar(rest[0])
  }

  /** Only quotes, backslashes and control characters are escaped; the former by a backslash, five of the latter by a
      letter. */
  lemma EscapeMeans(c: char)
    ensures EscapeChar(c) == [c] <==> c != '"' && c != '\\' && c as int >= 32
    ensures c == '"' || c == '\\' ==> EscapeChar(c) == ['\\', c]
    ensures c as int in {8, 9, 10, 12, 13} ==>
              EscapeChar(c) == ['\\', if c as int == 8 then 'b' else if c as int == 9 then 't'
                                       else if c as int == 10 then 'n' else if c as int == 12 then 'f' else 'r']
  {
  }

  /** The other control characters are escaped by four lower-case hexadecimal digits of their code. */
  lemma ControlEscapeMeans(c: char)
    requires c as int < 32 && c as int !in {8, 9, 10, 12, 13}
    ensures |EscapeChar(c)| == 6 && EscapeChar(c)[..4] == "\\u00"
    ensures var high, low := EscapeChar(c)[4], EscapeChar(c)[5];
      && HexValue(high) * 16 + HexValue(low) == c as int
      && ('0' <= high <= '9' || 'a' <= high <= 'f') && ('0' <= low <= '9' || 'a' <= low <= 'f')
  {
    var high, low := c as int / 16, c as int % 16;
    assert EscapeChar(c) == "\\u00" + [HEX[high], HEX[low]];
    HexDigit(high);
    HexDigit(low);
  }

  lemma HexDigit(d: nat)
    requires d < 16
    ensures HexValue(HEX[d]) == d && ('0' <= HEX[d] <= '9' || 'a' <= HEX[d] <= 'f')
  {
  }

  lemma ParseCharEscape(c: char, rest: string)
    ensures EscapeChar(c) != "" && EscapeChar(c)[0] != '"'
    ensures ParseChar(EscapeChar(c) + rest) == Parsed(c, rest)
  {
    var e := EscapeChar(c);
    var s := e + rest;
    assert s[|e|..] == rest;
    if c as int < 32 && |e| == 6 {
      assert s[2..][4..] == rest;
      assert s[2] == '0' && s[3] == '0' && s[4] == HEX[c as int / 16] && s[5] == HEX[c as int % 16];
    }
  }

  lemma {:induction false} ParseTextEscape(t: string, rest: string)
    ensures ParseText(Escape(t) + "\"" + rest) == Parsed(t, rest)
  {
    var s := Escape(t) + "\"" + rest;
    if t == "" {
      assert s[1..] == rest;
    } else {
      var tail := Escape(t[1..]) + "\"" + rest;
      assert s == EscapeChar(t[0]) + tail;
      ParseCharEscape(t[0], tail);
      ParseTextEscape(t[1..], rest);
      assert t == [t[0]] + t[1..];
    }
  }

  lemma {:induction false} NumberLengthLexeme(l: string, rest: string)
    requires forall i | 0 <= i < |l| :: IsNumberChar(l[i])
    requires Delimited(rest)
    ensures NumberLength(l + rest) == |l|
  {
    if l == "" {
      assert l + rest == rest;
    } else {
      assert (l + rest)[1..] == l[1..] + rest;
      NumberLengthLexeme(l[1..], rest);
    }
  }

  /** A printed value starts with a character that closes no bracket. */
  lemma StringifyStart(v: Json)
    requires WellFormed(v)
    ensures Stringify(v) != "" && Stringify(v)[0] != ']' && Stringify(v)[0] != '}'
  {
  }

  lemma ParseScalar(v: Json, rest: string)
    requires WellFormed(v) && !v.Array? && !v.Object? && Delimited(rest)
    ensures ParseValue(Stringify(v) + rest) == Parsed(v, rest)
  {
    var s := Stringify(v) + rest;
    match v
    case Null => assert s[4..] == rest;
    case Bool(b) => assert s[|Stringify(v)|..] == rest;
    case Number(l) =>
      NumberLengthLexeme(l, rest);
      assert s[..|l|] == l && s[|l|..] == rest;
      assert IsNumberChar(s[0]);
    case String(t) =>
      assert s[1..] == Escape(t) + "\"" + rest;
      ParseTextEscape(t, rest);
  }

  /** Unique readability: the reader returns exactly the printed value and the text after it. */
  lemma {:induction false} ParseStringify(v: Json, rest: string)
    requires WellFormed(v) && Delimited(rest)
    ensures ParseValue(Stringify(v) + rest) == Parsed(v, rest)
    decreases v, 1
  {
    if v.Array? {
      ParseStringifyArray(v, rest);
    } else if v.Object? {
      ParseStringifyObject(v, rest);
    } else {
      ParseScalar(v, rest);
    }
  }

  lemma {:induction false} ParseStringifyArray(v: Json, rest: string)
    requires v.Array? && WellFormed(v)
    ensures ParseValue(Stringify(v) + rest) == Parsed(v, rest)
    decreases v, 0
  {
    var s, inner := Stringify(v) + rest, StringifyItems(v.items) + "]" + rest;
    assert s == "[" + inner;
    assert s[1..] == inner;
    if v.items == [] {
      assert s[2..] == rest;
    } else {
      ParseStringifyItems(v.items, rest);
      StringifyStart(v.items[0]);
      assert s[1] == Stringify(v.items[0])[0];
    }
  }

  lemma {:induction false} ParseStringifyObject(v: Json, rest: string)
    requires v.Object? && WellFormed(v)
    ensures ParseValue(Stringify(v) + rest) == Parsed(v, rest)
    decreases v, 0
  {
    var s, inner := Stringify(v) + rest, StringifyEntries(v.entries) + "}" + rest;
    assert s == "{" + inner;
    assert s[1..] == inner;
    if v.entries == [] {
      assert s[2..] == rest;
    } else {
      ParseStringifyEntries(v.entries, rest);
      assert inner[0] == StringifyEntry(v.entries[0])[0] == '"';
    }
  }

  lemma {:induction false} ParseStringifyItems(items: seq<Json>, rest: string)
    requires items != [] && forall i | 0 <= i < |items| :: WellFormed(items[i])
    ensures ParseItems(StringifyItems(items) + "]" + rest) == Parsed(items, rest)
    decreases items, 0
  {
    var s := StringifyItems(items) + "]" + rest;
    if |items| == 1 {
      assert s == Stringify(items[0]) + ("]" + rest);
      ParseStringify(items[0], "]" + rest);
      assert ("]" + rest)[1..] == rest;
      assert items == [items[0]];
    } else {
      var tail := StringifyItems(items[1..]) + "]" + rest;
      assert s == Stringify(items[0]) + ("," + tail);
      ParseStringify(items[0], "," + tail);
      assert ("," + tail)[1..] == tail;
      ParseStringifyItems(items[1..], rest);
      assert items == [items[0]] + items[1..];
    }
  }

  lemma ParseKeyQuote(k: string, rest: string)
    ensures ParseKey(Quote(k) + ":" + rest) == Parsed(k, rest)
  {
    var s, tail := Quote(k) + ":" + rest, ":" + rest;
    assert s[1..] == Escape(k) + "\"" + tail;
    ParseTextEscape(k, tail);
    assert tail[1..] == rest;
  }

  lemma {:induction false} ParseStringifyEntry(e: Entry, rest: string)
    requires WellFormed(e.value) && Delimited(rest)
    ensures ParseEntry(StringifyEntry(e) + rest) == Parsed(e, rest)
    decreases e, 2
  {
    var printed := Stringify(e.value) + rest;
    ParseStringify(e.value, rest);
    ParseKeyQuote(e.key, printed);
    assert StringifyEntry(e) + rest == Quote(e.key) + ":" + printed;
  }

  lemma ParseEntriesLast(last: Entry, printed: string, rest: string)
    requires ParseEntry(printed + ("}" + rest)) == Parsed(last, "}" + rest)
    ensures ParseEntries(printed + "}" + rest) == Parsed([last], rest)
  {
    assert printed + ("}" + rest) == printed + "}" + rest;
    assert ("}" + rest)[1..] == rest;
  }

  lemma ParseEntriesStep(first: Entry, more: seq<Entry>, printed: string, tail: string, rest: string)
    requires ParseEntry(printed + ("," + tail)) == Parsed(first, "," + tail)
    requires ParseEntries(tail) == Parsed(more, rest)
    ensures ParseEntries(printed + "," + tail) == Parsed([first] + more, rest)
  {
    assert printed + ("," + tail) == printed + "," + tail;
    assert ("," + tail)[1..] == tail;
  }

  lemma JoinRight(first: string, more: string, rest: string)
    ensures first + "," + more + "}" + rest == first + "," + (more + "}" + rest)
  {
  }

  lemma {:induction false} ParseStringifyEntries(es: seq<Entry>, rest: string)
    requires es != [] && forall i | 0 <= i < |es| :: WellFormed(es[i].value)
    ensures ParseEntries(StringifyEntries(es) + "}" + rest) == Parsed(es, rest)
    decreases es, 0
  {
    var first := es[0];
    if |es| == 1 {
      ParseStringifyEntry(first, "}" + rest);
      ParseEntriesLast(first, StringifyEntry(first), rest);
      assert es == [first];
    } else {
      var tail := StringifyEntries(es[1..]) + "}" + rest;
      JoinRight(StringifyEntry(first), StringifyEntries(es[1..]), rest);
      ParseStringifyEntry(first, "," + tail);
      ParseStringifyEntries(es[1..], rest);
      ParseEntriesStep(first, es[1..], StringifyEntry(first), tail, rest);
      assert es == [first] + es[1..];
    }
  }

  lemma ParseRoundTrip(v: Json)
    requires WellFormed(v)
    ensures Parse(Stringify(v)) == Some(v)
  {
    ParseStringify(v, "");
    assert Stringify(v) + "" == Stringify(v);
  }
}
