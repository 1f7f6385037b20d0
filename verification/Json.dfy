/**
 JSON values and the canonical text the seal is computed over: keys sorted, no
 spaces, strings escaped as `serde_json` escapes them.
 */
module Json {
  import opened Text

  /** Characters a JSON number can be written with (section 6 of RFC 8259). */
  predicate NumberChar(c: char) { '0' <= c <= '9' || c in {'-', '+', '.', 'e', 'E'} }

  /** The text a number prints as stands for the number. */
  type NumberText = s: string | s != "" && forall i :: 0 <= i < |s| ==> NumberChar(s[i]) witness "0"

  datatype Field = Field(key: string, value: Json)

  /** Object fields are in insertion order. */
  datatype Json =
    | Null | Bool(b: bool) | Number(text: NumberText) | Str(s: string) | Arr(items: seq<Json>)
    | Obj(fields: seq<Field>)

  // ------------------------------------------------------------------- strings

  lemma Assoc(a: string, b: string, c: string)
    ensures (a + b) + c == a + (b + c)
  {
  }

  function HexDigit(n: int): char
    requires 0 <= n < 16
  {
    if n < 10 then (0x30 + n) as char else (0x57 + n) as char
  }

  /** The letter of a two-character escape. */
  function ShortEscape(n: int): int {
    if n == 0x22 || n == 0x5C then n
    else if n == 8 then 0x62
    else if n == 9 then 0x74
    else if n == 10 then 0x6E
    else if n == 12 then 0x66
    else if n == 13 then 0x72
    else 0
  }

  /** One character of a string literal: itself, `\x` or `\u00xx`. */
  function Escape(c: char): (r: string)
    ensures r != "" && r[0] != '"'
  {
    var n := c as int;
    if ShortEscape(n) != 0 then ['\\', ShortEscape(n) as char]
    else if n < 0x20 then ['\\', 'u', '0', '0', HexDigit(n / 16), HexDigit(n % 16)]
    else [c]
  }

  /** What `serde_json` escapes and how: nothing it need not, in the short form if there is one, else in lower case. */
  lemma EscapeMeans(c: char)
    ensures var n := c as int;
            && (|Escape(c)| == 1 <==> n >= 0x20 && c != '"' && c != '\\')
            && (|Escape(c)| == 2 <==> c == '"' || c == '\\' || n == 8 || n == 9 || n == 10 || n == 12 || n == 13)
            && (|Escape(c)| > 1 ==> forall x :: x in Escape(c) ==> !('A' <= x <= 'Z'))
  {
  }

  function EscapeAll(s: string): string { if s == "" then "" else Escape(s[0]) + EscapeAll(s[1..]) }

  function Quote(s: string): string { ['"'] + (EscapeAll(s) + ['"']) }

  // ------------------------------------------------------------ reading strings

  /** What was read off the front of a text, and the text after it. */
  datatype Read<+T> = Read(value: T, rest: string)

  /** A hexadecimal digit of either case. */
  function HexValue(c: char): (r: Option<int>)
    ensures r.Some? ==> 0 <= r.value < 16
  {
    if '0' <= c <= '9' then Some(c as int - 0x30)
    else if 'a' <= c <= 'f' then Some(c as int - 0x57)
    else if 'A' <= c <= 'F' then Some(c as int - 0x37)
    else None
  }

  /** The UTF-16 code unit after `\u`. */
  function ReadUnit(s: string): (r: Option<int>)
    ensures r.Some? ==> |s| >= 4 && 0 <= r.value < 0x1_0000
  {
    if |s| < 4 then None
    else
      match (HexValue(s[0]), HexValue(s[1]), HexValue(s[2]), HexValue(s[3]))
      case (Some(a), Some(b), Some(c), Some(d)) => Some(0x1000 * a + 0x100 * b + 0x10 * c + d)
      case _ => None
  }

  /** A character written as one unit, or as a surrogate pair of two. */
  function ReadUnits(s: string): (r: Option<Read<char>>)
    ensures r.Some? ==> |r.value.rest| < |s|
  {
    match ReadUnit(s)
    case None => None
    case Some(high) =>
      if high < 0xD800 || 0xE000 <= high then Some(Read(high as char, s[4..]))
      else if high < 0xDC00 && "\\u" <= s[4..] then
        match ReadUnit(s[6..])
        case Some(low) =>
          if 0xDC00 <= low < 0xE000
          then Some(Read((0x1_0000 + 0x400 * (high - 0xD800) + (low - 0xDC00)) as char, s[10..])) else None
        case None => None
      else None
  }

  /** One character of a string (section 7 of RFC 8259): unescaped, or after a reverse solidus. */
  function ReadChar(s: string): (r: Option<Read<char>>)
    ensures r.Some? ==> |r.value.rest| < |s|
  {
    if s == "" || s[0] == '"' || (s[0] as int) < 0x20 then None
    else if s[0] != '\\' then Some(Read(s[0], s[1..]))
    else if |s| == 1 then None
    else
      match s[1]
      case '"' => Some(Read('"', s[2..]))
      case '\\' => Some(Read('\\', s[2..]))
      case '/' => Some(Read('/', s[2..]))
      case 'b' => Some(Read(8 as char, s[2..]))
      case 'f' => Some(Read(12 as char, s[2..]))
      case 'n' => Some(Read('\n', s[2..]))
      case 'r' => Some(Read('\r', s[2..]))
      case 't' => Some(Read('\t', s[2..]))
      case 'u' => ReadUnits(s[2..])
      case _ => None
  }

  /** The rest of a string, up to its closing quotation mark. */
  function ReadChars(s: string): (r: Option<Read<string>>)
    ensures r.Some? ==> |r.value.rest| < |s|
    decreases |s|
  {
    if s == "" then None
    else if s[0] == '"' then Some(Read("", s[1..]))
    else
      match ReadChar(s)
      case None => None
      case Some(Read(c, rest)) =>
        match ReadChars(rest)
        case None => None
        case Some(Read(more, end)) => Some(Read([c] + more, end))
  }

  function ReadString(s: string): (r: Option<Read<string>>)
    ensures r.Some? ==> |r.value.rest| < |s|
  {
    if s != "" && s[0] == '"' then ReadChars(s[1..]) else None
  }

  /** An escape is read as the character it stands for. */
  lemma ReadEscape(c: char, u: string)
    ensures ReadChar(Escape(c) + u) == Some(Read(c, u))
  {
    var n, x := c as int, Escape(c) + u;
    assert x[|Escape(c)|..] == u;
    if ShortEscape(n) == 0 && n < 0x20 {
      var y := x[2..];
      assert y[0] == '0' && y[1] == '0' && y[2] == HexDigit(n / 16) && y[3] == HexDigit(n % 16) && y[4..] == u;
      assert HexValue(HexDigit(n / 16)) == Some(n / 16) && HexValue(HexDigit(n % 16)) == Some(n % 16);
    }
  }

  lemma EscapePrefixFree(c: char, d: char, u: string, v: string)
    requires Escape(c) + u == Escape(d) + v
    ensures c == d && u == v
  {
    ReadEscape(c, u);
    ReadEscape(d, v);
  }

  lemma ReadCharsStep(x: string, c: char, rest: string, more: string, u: string)
    requires x != "" && x[0] != '"' && ReadChar(x) == Some(Read(c, rest)) && ReadChars(rest) == Some(Read(more, u))
    ensures ReadChars(x) == Some(Read([c] + more, u))
  {
  }

  lemma {:induction false} ReadEscapeAll(a: string, u: string)
    ensures ReadChars(EscapeAll(a) + (['"'] + u)) == Some(Read(a, u))
  {
    var x := EscapeAll(a) + (['"'] + u);
    if a == "" {
      assert x == ['"'] + u && x[1..] == u;
    } else {
      var rest := EscapeAll(a[1..]) + (['"'] + u);
      Assoc(Escape(a[0]), EscapeAll(a[1..]), ['"'] + u);
      assert x == Escape(a[0]) + rest && x[0] == Escape(a[0])[0];
      ReadEscape(a[0], rest);
      ReadEscapeAll(a[1..], u);
      ReadCharsStep(x, a[0], rest, a[1..], u);
      assert a == [a[0]] + a[1..];
    }
  }

  /** A quoted string is read back, whatever follows it. */
  lemma ReadQuote(a: string, u: string)
    ensures ReadString(Quote(a) + u) == Some(Read(a, u))
  {
    QuoteSplit(a, u);
    assert (Quote(a) + u)[1..] == EscapeAll(a) + (['"'] + u);
    ReadEscapeAll(a, u);
  }

  lemma QuoteInjective(a: string, b: string, u: string, v: string)
    requires Quote(a) + u == Quote(b) + v
    ensures a == b && u == v
  {
    ReadQuote(a, u);
    ReadQuote(b, v);
  }

  lemma QuoteSplit(a: string, u: string)
    ensures Quote(a) + u == ['"'] + (EscapeAll(a) + (['"'] + u))
  {
    Assoc(['"'], EscapeAll(a) + ['"'], u);
    Assoc(EscapeAll(a), ['"'], u);
  }

  // ------------------------------------------------------------------- printing

  /** The text of a value, objects in the order of their fields. */
  function Print(v: Json): string
    decreases v, 0
  {
    match v
    case Null => "null"
    case Bool(b) => if b then "true" else "false"
    case Number(text) => text
    case Str(s) => Quote(s)
    case Arr(items) => "[" + PrintItems(items, true)
    case Obj(fields) => "{" + PrintFields(fields, true)
  }

  /** The rest of an array; `first` says that no item was printed yet. */
  function PrintItems(items: seq<Json>, first: bool): string
    decreases items, 1
  {
    if items == [] then "]"
    else Comma(first) + Print(items[0]) + PrintItems(items[1..], false)
  }

  function PrintFields(fields: seq<Field>, first: bool): string
    decreases fields, 1
  {
    if fields == [] then "}"
    else Comma(first) + PrintField(fields[0]) + PrintFields(fields[1..], false)
  }

  function PrintField(f: Field): string
    decreases f, 1
  {
    Quote(f.key) + ":" + Print(f.value)
  }

  function Comma(first: bool): string { if first then "" else "," }

  /** What may follow a value: nothing, or a character no number goes on with. */
  predicate Stop(s: string) { s == "" || !NumberChar(s[0]) }

  // ------------------------------------------------------------- reading values

  /** How many number characters the text begins with. */
  function NumberLength(s: string): (n: nat)
    ensures n <= |s| && forall i :: 0 <= i < n ==> NumberChar(s[i])
    ensures Stop(s[n..])
  {
    if Stop(s) then 0 else 1 + NumberLength(s[1..])
  }

  /** A value off the front of a compact JSON text (sections 3 to 7 of RFC 8259). */
  function ReadValue(s: string): (r: Option<Read<Json>>)
    ensures r.Some? ==> |r.value.rest| < |s|
    decreases |s|, 0
  {
    if s == "" then None
    else if NumberChar(s[0]) then Some(Read(Number(s[..NumberLength(s)]), s[NumberLength(s)..]))
    else
      match s[0]
      case 'n' => if "null" <= s then Some(Read(Null, s[4..])) else None
      case 't' => if "true" <= s then Some(Read(Bool(true), s[4..])) else None
      case 'f' => if "false" <= s then Some(Read(Bool(false), s[5..])) else None
      case '"' => (match ReadString(s) case None => None case Some(Read(text, rest)) => Some(Read(Str(text), rest)))
      case '[' =>
        if "]" <= s[1..] then Some(Read(Arr([]), s[2..]))
        else (match ReadItems(s[1..]) case None => None case Some(Read(items, rest)) => Some(Read(Arr(items), rest)))
      case '{' =>
        if "}" <= s[1..] then Some(Read(Obj([]), s[2..]))
        else (match ReadFields(s[1..]) case None => None case Some(Read(fields, rest)) => Some(Read(Obj(fields), rest)))
      case _ => None
  }

  /** One item or more, with commas between them, and the closing bracket. */
  function ReadItems(s: string): (r: Option<Read<seq<Json>>>)
    ensures r.Some? ==> |r.value.rest| < |s|
    decreases |s|, 1
  {
    match ReadValue(s)
    case None => None
    case Some(Read(v, rest)) =>
      if "]" <= rest then Some(Read([v], rest[1..]))
      else if "," <= rest then
        match ReadItems(rest[1..]) case None => None case Some(Read(more, end)) => Some(Read([v] + more, end))
      else None
  }

  function ReadFields(s: string): (r: Option<Read<seq<Field>>>)
    ensures r.Some? ==> |r.value.rest| < |s|
    decreases |s|, 2
  {
    match ReadField(s)
    case None => None
    case Some(Read(f, rest)) =>
      if "}" <= rest then Some(Read([f], rest[1..]))
      else if "," <= rest then
        match ReadFields(rest[1..]) case None => None case Some(Read(more, end)) => Some(Read([f] + more, end))
      else None
  }

  function ReadField(s: string): (r: Option<Read<Field>>)
    ensures r.Some? ==> |r.value.rest| < |s|
    decreases |s|, 1
  {
    match ReadString(s)
    case None => None
    case Some(Read(key, rest)) =>
      if ":" <= rest then
        match ReadValue(rest[1..]) case None => None case Some(Read(v, end)) => Some(Read(Field(key, v), end))
      else None
  }

  lemma Prefixed(h: string, x: string)
    ensures h <= h + x && (h + x)[|h|..] == x && (h != "" ==> (h + x)[0] == h[0])
  {
  }

  lemma {:induction false} ReadNumber(text: string, u: string)
    requires text != "" && (forall i :: 0 <= i < |text| ==> NumberChar(text[i])) && Stop(u)
    ensures NumberLength(text + u) == |text|
  {
    assert (text + u)[1..] == text[1..] + u && NumberChar((text + u)[0]);
    if |text| > 1 { ReadNumber(text[1..], u); } else { assert text[1..] + u == u; }
  }

  lemma ReadPrintNumber(text: NumberText, u: string)
    requires Stop(u)
    ensures ReadValue(text + u) == Some(Read(Number(text), u))
  {
    ReadNumber(text, u);
    Prefixed(text, u);
    assert (text + u)[..|text|] == text;
  }

  lemma ReadPrintStr(s: string, u: string)
    ensures ReadValue(Quote(s) + u) == Some(Read(Str(s), u))
  {
    QuoteSplit(s, u);
    ReadQuote(s, u);
  }

  /** A printed value is read back, and with it the end of its text. */
  lemma {:induction false} ReadPrint(v: Json, u: string)
    requires Stop(u)
    ensures ReadValue(Print(v) + u) == Some(Read(v, u))
    decreases v, 0
  {
    match v
    case Null => Prefixed("null", u);
    case Bool(b) => Prefixed(Print(v), u);
    case Number(text) => ReadPrintNumber(text, u);
    case Str(s) => ReadPrintStr(s, u);
    case Arr(items) => ReadPrintArr(items, u);
    case Obj(fields) => ReadPrintObj(fields, u);
  }

  /** No value begins with a closing bracket or brace. */
  lemma FirstChar(v: Json, u: string)
    ensures var x := Print(v) + u; x != "" && x[0] != ']' && x[0] != '}'
  {
    var p := Print(v);
    match v
    case Null => assert p[0] == 'n';
    case Bool(b) => assert p[0] == if b then 't' else 'f';
    case Number(text) => assert NumberChar(p[0]);
    case Str(s) => assert p[0] == '"';
    case Arr(_) => assert p[0] == '[';
    case Obj(_) => assert p[0] == '{';
    assert (p + u)[0] == p[0];
  }

  lemma {:induction false} ReadPrintArr(items: seq<Json>, u: string)
    requires Stop(u)
    ensures ReadValue("[" + PrintItems(items, true) + u) == Some(Read(Arr(items), u))
    decreases items, 3
  {
    var body := PrintItems(items, true) + u;
    Assoc("[", PrintItems(items, true), u);
    Prefixed("[", body);
    if items == [] {
      Prefixed("]", u);
      assert ("[" + body)[2..] == body[1..] == u;
    } else {
      ItemsSplit(items, u);
      FirstChar(items[0], PrintItems(items[1..], false) + u);
      assert !("]" <= body);
      ReadPrintItems(items, u);
    }
  }

  lemma ItemsSplit(items: seq<Json>, u: string)
    requires items != []
    ensures PrintItems(items, true) + u == Print(items[0]) + (PrintItems(items[1..], false) + u)
  {
    assert Comma(true) + Print(items[0]) == Print(items[0]);
    Assoc(Print(items[0]), PrintItems(items[1..], false), u);
  }

  /** What comes after one of them: the end, or a comma and the others. */
  lemma ItemsMore(items: seq<Json>, u: string)
    ensures var x := PrintItems(items, false) + u;
            Stop(x) && x == if items == [] then "]" + u else "," + (PrintItems(items, true) + u)
  {
    if items != [] {
      assert Comma(true) + Print(items[0]) == Print(items[0]);
      Assoc(",", Print(items[0]), PrintItems(items[1..], false));
      Assoc(",", PrintItems(items, true), u);
    }
  }

  lemma ReadItemsStep(s: string, v: Json, tail: string, rest: seq<Json>, x: string, u: string)
    requires ReadValue(s) == Some(Read(v, tail)) && tail == if rest == [] then "]" + u else "," + x
    requires rest != [] ==> ReadItems(x) == Some(Read(rest, u))
    ensures ReadItems(s) == Some(Read([v] + rest, u))
  {
    if rest == [] {
      Prefixed("]", u);
      assert [v] + rest == [v];
    } else {
      Prefixed(",", x);
    }
  }

  lemma {:induction false} ReadPrintItems(items: seq<Json>, u: string)
    requires items != [] && Stop(u)
    ensures ReadItems(PrintItems(items, true) + u) == Some(Read(items, u))
    decreases items, 1
  {
    var rest := items[1..];
    ItemsSplit(items, u);
    ItemsMore(rest, u);
    ReadPrint(items[0], PrintItems(rest, false) + u);
    if rest != [] { ReadPrintItems(rest, u); }
    assert items == [items[0]] + rest;
    ReadItemsStep(PrintItems(items, true) + u, items[0], PrintItems(rest, false) + u, rest, PrintItems(rest, true) + u, u);
  }

  lemma {:induction false} ReadPrintObj(fields: seq<Field>, u: string)
    requires Stop(u)
    ensures ReadValue("{" + PrintFields(fields, true) + u) == Some(Read(Obj(fields), u))
    decreases fields, 3
  {
    var body := PrintFields(fields, true) + u;
    Assoc("{", PrintFields(fields, true), u);
    Prefixed("{", body);
    if fields == [] {
      Prefixed("}", u);
      assert ("{" + body)[2..] == body[1..] == u;
    } else {
      FieldsSplit(fields, u);
      FieldSplit(fields[0], PrintFields(fields[1..], false) + u);
      assert !("}" <= body);
      ReadPrintFields(fields, u);
    }
  }

  lemma FieldSplit(f: Field, u: string)
    ensures PrintField(f) + u == Quote(f.key) + (":" + (Print(f.value) + u))
    ensures PrintField(f) + u != "" && (PrintField(f) + u)[0] == '"'
  {
    Assoc(Quote(f.key), ":", Print(f.value));
    Assoc(Quote(f.key), ":" + Print(f.value), u);
    Assoc(":", Print(f.value), u);
  }

  lemma FieldsSplit(fields: seq<Field>, u: string)
    requires fields != []
    ensures PrintFields(fields, true) + u == PrintField(fields[0]) + (PrintFields(fields[1..], false) + u)
  {
    assert Comma(true) + PrintField(fields[0]) == PrintField(fields[0]);
    Assoc(PrintField(fields[0]), PrintFields(fields[1..], false), u);
  }

  /** What comes after one of them: the end, or a comma and the others. */
  lemma FieldsMore(fields: seq<Field>, u: string)
    ensures var x := PrintFields(fields, false) + u;
            Stop(x) && x == if fields == [] then "}" + u else "," + (PrintFields(fields, true) + u)
  {
    if fields != [] {
      assert Comma(true) + PrintField(fields[0]) == PrintField(fields[0]);
      Assoc(",", PrintField(fields[0]), PrintFields(fields[1..], false));
      Assoc(",", PrintFields(fields, true), u);
    }
  }

  lemma ReadFieldsStep(s: string, f: Field, tail: string, rest: seq<Field>, x: string, u: string)
    requires ReadField(s) == Some(Read(f, tail)) && tail == if rest == [] then "}" + u else "," + x
    requires rest != [] ==> ReadFields(x) == Some(Read(rest, u))
    ensures ReadFields(s) == Some(Read([f] + rest, u))
  {
    if rest == [] {
      Prefixed("}", u);
      assert [f] + rest == [f];
    } else {
      Prefixed(",", x);
    }
  }

  lemma {:induction false} ReadPrintFields(fields: seq<Field>, u: string)
    requires fields != [] && Stop(u)
    ensures ReadFields(PrintFields(fields, true) + u) == Some(Read(fields, u))
    decreases fields, 2
  {
    var rest := fields[1..];
    FieldsSplit(fields, u);
    FieldsMore(rest, u);
    ReadPrintField(fields[0], PrintFields(rest, false) + u);
    if rest != [] { ReadPrintFields(rest, u); }
    assert fields == [fields[0]] + rest;
    ReadFieldsStep(PrintFields(fields, true) + u, fields[0], PrintFields(rest, false) + u, rest, PrintFields(rest, true) + u, u);
  }

  lemma {:induction false} ReadPrintField(f: Field, u: string)
    requires Stop(u)
    ensures ReadField(PrintField(f) + u) == Some(Read(f, u))
    decreases f, 1
  {
    FieldSplit(f, u);
    ReadQuote(f.key, ":" + (Print(f.value) + u));
    Prefixed(":", Print(f.value) + u);
    ReadPrint(f.value, u);
  }

  /** So printed values are uniquely decodable from the left. */
  lemma PrintInjective(a: Json, b: Json, u: string, v: string)
    requires Print(a) + u == Print(b) + v && Stop(u) && Stop(v)
    ensures a == b && u == v
  {
    ReadPrint(a, u);
    ReadPrint(b, v);
  }
}
