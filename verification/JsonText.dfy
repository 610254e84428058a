/** JSON values, the compact printer, and a reader for the printer's grammar (section 7 of
    RFC 8259 for strings). Text is a sequence of UTF-16 code units. */
module JsonText {
  import opened Options

  newtype CodeUnit = x: int | 0 <= x < 0x10000

  type Text = seq<CodeUnit>

  /** A number stands for the token it prints as. */
  datatype Json =
    | Null
    | Boolean(value: bool)
    | Number(token: Text)
    | String(text: Text)
    | Array(items: seq<Json>)
    | Object(fields: seq<Field>)

  datatype Field = Field(key: Text, value: Json)

  const QUOTE: CodeUnit := 34
  const COMMA: CodeUnit := 44
  const COLON: CodeUnit := 58
  const BACKSLASH: CodeUnit := 92
  const OPEN_ARRAY: CodeUnit := 91
  const CLOSE_ARRAY: CodeUnit := 93
  const OPEN_OBJECT: CodeUnit := 123
  const CLOSE_OBJECT: CodeUnit := 125
  const NULL: Text := [110, 117, 108, 108]
  const TRUE: Text := [116, 114, 117, 101]
  const FALSE: Text := [102, 97, 108, 115, 101]

  /** The units a number token is made of: digits, sign, point and exponent mark. */
  predicate NumberUnit(u: CodeUnit) {
    48 <= u <= 57 || u == 43 || u == 45 || u == 46 || u == 69 || u == 101
  }

  predicate NumberToken(t: Text) {
    t != [] && forall i :: 0 <= i < |t| ==> NumberUnit(t[i])
  }

  /** Every number in the value is a number token. */
  predicate Printable(v: Json) {
    match v
    case Number(token) => NumberToken(token)
    case Array(items) => forall i :: 0 <= i < |items| ==> Printable(items[i])
    case Object(fields) => forall i :: 0 <= i < |fields| ==> Printable(fields[i].value)
    case _ => true
  }

  // ---------- Strings ----------

  predicate High(u: CodeUnit) { 0xD800 <= u < 0xDC00 }

  predicate Low(u: CodeUnit) { 0xDC00 <= u < 0xE000 }

  predicate PairAhead(s: Text) {
    |s| >= 2 && High(s[0]) && Low(s[1])
  }

  function Hex(d: CodeUnit): CodeUnit
    requires d < 16
  {
    if d < 10 then 48 + d else 87 + d
  }

  function Escape(u: CodeUnit): Text {
    if u == QUOTE || u == BACKSLASH then [BACKSLASH, u]
    else if u == 8 then [BACKSLASH, 98]
    else if u == 9 then [BACKSLASH, 116]
    else if u == 10 then [BACKSLASH, 110]
    else if u == 12 then [BACKSLASH, 102]
    else if u == 13 then [BACKSLASH, 114]
    else if u < 32 || High(u) || Low(u) then
      [BACKSLASH, 117, Hex(u / 4096), Hex(u / 256 % 16), Hex(u / 16 % 16), Hex(u % 16)]
    else [u]
  }

  /** A surrogate pair is printed as it is; a lone surrogate is escaped. */
  function Escapes(s: Text): Text {
    if s == [] then []
    else if PairAhead(s) then s[..2] + Escapes(s[2..])
    else Escape(s[0]) + Escapes(s[1..])
  }

  function Quote(s: Text): Text {
    [QUOTE] + Escapes(s) + [QUOTE]
  }

  function HexValue(u: CodeUnit): Option<CodeUnit> {
    if 48 <= u <= 57 then Some(u - 48) else if 97 <= u <= 102 then Some(u - 87) else None
  }

  function ReadHex(t: Text): Option<CodeUnit>
    requires |t| >= 4
  {
    var a, b, c, d := HexValue(t[0]), HexValue(t[1]), HexValue(t[2]), HexValue(t[3]);
    if a.Some? && b.Some? && c.Some? && d.Some?
    then Some(a.value * 4096 + b.value * 256 + c.value * 16 + d.value)
    else None
  }

  /** The next unit of a string and how many units of text it takes; nothing at a quote. */
  function ReadUnit(t: Text): Option<(CodeUnit, nat)>
    ensures ReadUnit(t).Some? ==> 1 <= ReadUnit(t).value.1 <= |t|
  {
    if t == [] || t[0] == QUOTE then None
    else if t[0] != BACKSLASH then Some((t[0], 1))
    else if |t| < 2 then None
    else if t[1] == QUOTE || t[1] == BACKSLASH || t[1] == 47 then Some((t[1], 2))
    else if t[1] == 98 then Some((8, 2))
    else if t[1] == 116 then Some((9, 2))
    else if t[1] == 110 then Some((10, 2))
    else if t[1] == 102 then Some((12, 2))
    else if t[1] == 114 then Some((13, 2))
    else if t[1] == 117 && |t| >= 6 && ReadHex(t[2..]).Some? then Some((ReadHex(t[2..]).value, 6))
    else None
  }

  /** The string up to its closing quote, and what follows the quote. */
  function ReadString(t: Text): Option<(Text, Text)>
    ensures ReadString(t).Some? ==> |ReadString(t).value.1| < |t|
    decreases |t|
  {
    if t != [] && t[0] == QUOTE then Some(([], t[1..]))
    else
      var u := ReadUnit(t);
      if u.None? then None
      else
        var rest := ReadString(t[u.value.1..]);
        if rest.None? then None else Some(([u.value.0] + rest.value.0, rest.value.1))
  }

  lemma HexDigits(u: CodeUnit)
    ensures u == u / 4096 * 4096 + u / 256 % 16 * 256 + u / 16 % 16 * 16 + u % 16
  {
    assert u == u / 16 * 16 + u % 16;
    assert u / 16 == u / 256 * 16 + u / 16 % 16;
    assert u / 256 == u / 4096 * 16 + u / 256 % 16;
  }

  lemma ReadHexDigits(a: CodeUnit, b: CodeUnit, c: CodeUnit, d: CodeUnit, rest: Text)
    requires a < 16 && b < 16 && c < 16 && d < 16
    ensures ReadHex([Hex(a), Hex(b), Hex(c), Hex(d)] + rest) == Some(a * 4096 + b * 256 + c * 16 + d)
  {
  }

  lemma ReadEscape(u: CodeUnit, rest: Text)
    ensures ReadUnit(Escape(u) + rest) == Some((u, |Escape(u)|))
  {
    hide ReadHex;
    var t := Escape(u) + rest;
    if |Escape(u)| == 6 {
      var a, b, c, d := u / 4096, u / 256 % 16, u / 16 % 16, u % 16;
      HexDigits(u);
      ReadHexDigits(a, b, c, d, rest);
      assert t[2..] == [Hex(a), Hex(b), Hex(c), Hex(d)] + rest;
    }
  }

  lemma ReadOn(t: Text, u: CodeUnit, n: nat, s: Text, rest: Text)
    requires ReadUnit(t) == Some((u, n)) && ReadString(t[n..]) == Some((s, rest))
    ensures ReadString(t) == Some(([u] + s, rest))
  {
  }

  lemma ReadEscaped(u: CodeUnit, tail: Text, s: Text, rest: Text)
    requires ReadString(tail) == Some((s, rest))
    ensures ReadString(Escape(u) + tail) == Some(([u] + s, rest))
  {
    var t := Escape(u) + tail;
    ReadEscape(u, tail);
    assert t[|Escape(u)|..] == tail;
    ReadOn(t, u, |Escape(u)|, s, rest);
  }

  lemma ReadRaw(u: CodeUnit, tail: Text, s: Text, rest: Text)
    requires u != QUOTE && u != BACKSLASH && ReadString(tail) == Some((s, rest))
    ensures ReadString([u] + tail) == Some(([u] + s, rest))
  {
    ReadOn([u] + tail, u, 1, s, rest);
  }

  lemma ReadPair(s: Text, tail: Text, rest: Text)
    requires PairAhead(s) && ReadString(tail) == Some((s[2..], rest))
    ensures ReadString(s[..2] + tail) == Some((s, rest))
  {
    ReadRaw(s[1], tail, s[2..], rest);
    ReadRaw(s[0], [s[1]] + tail, [s[1]] + s[2..], rest);
    assert s[..2] + tail == [s[0]] + ([s[1]] + tail);
    assert s == [s[0]] + ([s[1]] + s[2..]);
  }

  lemma ReadSingle(head: Text, u: CodeUnit, tail: Text, close: Text, s: Text, rest: Text)
    requires ReadString(head + (tail + close)) == Some(([u] + s, rest))
    ensures ReadString((head + tail) + close) == Some(([u] + s, rest))
  {
    assert (head + tail) + close == head + (tail + close);
  }

  lemma ReadUnpaired(s: Text, close: Text, rest: Text)
    requires s != [] && !PairAhead(s) && ReadString(Escapes(s[1..]) + close) == Some((s[1..], rest))
    ensures ReadString(Escapes(s) + close) == Some((s, rest))
  {
    hide ReadString, Escape;
    ReadEscaped(s[0], Escapes(s[1..]) + close, s[1..], rest);
    ReadSingle(Escape(s[0]), s[0], Escapes(s[1..]), close, s[1..], rest);
    assert s == [s[0]] + s[1..];
  }

  lemma ReadPaired(s: Text, close: Text, rest: Text)
    requires PairAhead(s) && ReadString(Escapes(s[2..]) + close) == Some((s[2..], rest))
    ensures ReadString(Escapes(s) + close) == Some((s, rest))
  {
    hide ReadString;
    ReadPair(s, Escapes(s[2..]) + close, rest);
    assert Escapes(s) + close == s[..2] + (Escapes(s[2..]) + close);
  }

  lemma {:induction false} ReadEscapes(s: Text, rest: Text)
    ensures ReadString(Escapes(s) + ([QUOTE] + rest)) == Some((s, rest))
  {
    var close := [QUOTE] + rest;
    if s == [] {
      assert Escapes(s) + close == close && close[1..] == rest;
    } else if PairAhead(s) {
      ReadEscapes(s[2..], rest);
      ReadPaired(s, close, rest);
    } else {
      ReadEscapes(s[1..], rest);
      ReadUnpaired(s, close, rest);
    }
  }

  lemma ReadQuoted(s: Text, rest: Text)
    ensures var t := Quote(s) + rest;
            t != [] && t[0] == QUOTE && ReadString(t[1..]) == Some((s, rest))
  {
    assert (Quote(s) + rest)[1..] == Escapes(s) + ([QUOTE] + rest);
    ReadEscapes(s, rest);
  }

  // ---------- Values ----------

  function Print(v: Json): Text
    decreases v
  {
    match v
    case Null => NULL
    case Boolean(b) => if b then TRUE else FALSE
    case Number(token) => token
    case String(s) => Quote(s)
    case Array(items) => [OPEN_ARRAY] + PrintItems(items, true)
    case Object(fields) => [OPEN_OBJECT] + PrintFields(fields, true)
  }

  /** The rest of an array, after its opening bracket or after an item. */
  function PrintItems(items: seq<Json>, first: bool): Text
    decreases items
  {
    if items == [] then [CLOSE_ARRAY]
    else (if first then [] else [COMMA]) + Print(items[0]) + PrintItems(items[1..], false)
  }

  function PrintField(f: Field): Text
    decreases f
  {
    Quote(f.key) + [COLON] + Print(f.value)
  }

  function PrintFields(fields: seq<Field>, first: bool): Text
    decreases fields
  {
    if fields == [] then [CLOSE_OBJECT]
    else (if first then [] else [COMMA]) + PrintField(fields[0]) + PrintFields(fields[1..], false)
  }

  /** The longest run of number units. */
  function ReadToken(t: Text): (Text, Text)
    ensures ReadToken(t).0 + ReadToken(t).1 == t
  {
    if t == [] || !NumberUnit(t[0]) then ([], t)
    else
      var (token, rest) := ReadToken(t[1..]);
      ([t[0]] + token, rest)
  }

  function ReadValue(t: Text): Option<(Json, Text)>
    ensures ReadValue(t).Some? ==> |ReadValue(t).value.1| < |t|
    decreases |t|, 0
  {
    if t == [] then None
    else if NULL <= t then Some((Null, t[4..]))
    else if TRUE <= t then Some((Boolean(true), t[4..]))
    else if FALSE <= t then Some((Boolean(false), t[5..]))
    else if t[0] == QUOTE then
      var s := ReadString(t[1..]);
      if s.None? then None else Some((String(s.value.0), s.value.1))
    else if t[0] == OPEN_ARRAY then
      var items := ReadItems(t[1..], true);
      if items.None? then None else Some((Array(items.value.0), items.value.1))
    else if t[0] == OPEN_OBJECT then
      var fields := ReadFields(t[1..], true);
      if fields.None? then None else Some((Object(fields.value.0), fields.value.1))
    else
      var (token, rest) := ReadToken(t);
      if token == [] then None else Some((Number(token), rest))
  }

  function ReadItems(t: Text, first: bool): Option<(seq<Json>, Text)>
    ensures ReadItems(t, first).Some? ==> |ReadItems(t, first).value.1| < |t|
    decreases |t|, 1
  {
    if t == [] then None
    else if t[0] == CLOSE_ARRAY then Some(([], t[1..]))
    else if !first && t[0] != COMMA then None
    else
      var v := ReadValue(if first then t else t[1..]);
      if v.None? then None
      else
        var rest := ReadItems(v.value.1, false);
        if rest.None? then None else Some(([v.value.0] + rest.value.0, rest.value.1))
  }

  function ReadField(t: Text): Option<(Field, Text)>
    ensures ReadField(t).Some? ==> |ReadField(t).value.1| < |t|
    decreases |t|, 1
  {
    if t == [] || t[0] != QUOTE then None
    else
      var key := ReadString(t[1..]);
      if key.None? || key.value.1 == [] || key.value.1[0] != COLON then None
      else
        var v := ReadValue(key.value.1[1..]);
        if v.None? then None else Some((Field(key.value.0, v.value.0), v.value.1))
  }

  function ReadFields(t: Text, first: bool): Option<(seq<Field>, Text)>
    ensures ReadFields(t, first).Some? ==> |ReadFields(t, first).value.1| < |t|
    decreases |t|, 2
  {
    if t == [] then None
    else if t[0] == CLOSE_OBJECT then Some(([], t[1..]))
    else if !first && t[0] != COMMA then None
    else
      var f := ReadField(if first then t else t[1..]);
      if f.None? then None
      else
        var rest := ReadFields(f.value.1, false);
        if rest.None? then None else Some(([f.value.0] + rest.value.0, rest.value.1))
  }

  // ---------- Reading what was printed ----------

  /** What follows cannot prolong a number. */
  predicate Delimited(rest: Text) {
    rest == [] || !NumberUnit(rest[0])
  }

  lemma {:induction false} ReadTokenPrinted(token: Text, rest: Text)
    requires forall i :: 0 <= i < |token| ==> NumberUnit(token[i])
    requires Delimited(rest)
    ensures ReadToken(token + rest) == (token, rest)
  {
    if token == [] {
      assert token + rest == rest;
    } else {
      ReadTokenPrinted(token[1..], rest);
      assert (token + rest)[1..] == token[1..] + rest;
      assert token == [token[0]] + token[1..];
    }
  }

  /** A printed value begins with a unit no closing bracket, comma or colon is. */
  lemma PrintBegins(v: Json)
    requires Printable(v)
    ensures Print(v) != []
    ensures Print(v)[0] != CLOSE_ARRAY && Print(v)[0] != CLOSE_OBJECT && Print(v)[0] != COMMA
  {
  }

  lemma ReadLiteral(v: Json, rest: Text)
    requires v.Null? || v.Boolean?
    ensures ReadValue(Print(v) + rest) == Some((v, rest))
  {
    var t := Print(v) + rest;
    assert t[..|Print(v)|] == Print(v) && t[|Print(v)|..] == rest;
    assert t[0] == Print(v)[0];
  }

  lemma ReadNumber(token: Text, rest: Text)
    requires NumberToken(token) && Delimited(rest)
    ensures ReadValue(token + rest) == Some((Number(token), rest))
  {
    assert (token + rest)[0] == token[0] && NumberUnit(token[0]);
    ReadTokenPrinted(token, rest);
  }

  /** Reading a printed value gives the value back, and leaves what follows. */
  lemma {:induction false} ReadPrinted(v: Json, rest: Text)
    requires Printable(v) && Delimited(rest)
    ensures ReadValue(Print(v) + rest) == Some((v, rest))
    decreases v
  {
    hide PrintItems, PrintFields, ReadItems, ReadFields;
    var t := Print(v) + rest;
    match v {
      case Null => ReadLiteral(v, rest);
      case Boolean(_) => ReadLiteral(v, rest);
      case Number(token) => ReadNumber(token, rest);
      case String(s) => ReadQuoted(s, rest);
      case Array(items) =>
        assert t[0] == OPEN_ARRAY && t[1..] == PrintItems(items, true) + rest;
        ReadPrintedItems(items, true, rest);
      case Object(fields) =>
        assert t[0] == OPEN_OBJECT && t[1..] == PrintFields(fields, true) + rest;
        ReadPrintedFields(fields, true, rest);
    }
  }

  lemma ReadItemsOn(t: Text, first: bool, v: Json, tail: Text, items: seq<Json>, rest: Text)
    requires t != [] && t[0] != CLOSE_ARRAY && (first || t[0] == COMMA)
    requires ReadValue(if first then t else t[1..]) == Some((v, tail))
    requires ReadItems(tail, false) == Some((items, rest))
    ensures ReadItems(t, first) == Some(([v] + items, rest))
  {
  }

  /** The text from an item on, with and without the comma before it. */
  lemma Unseparated(item: Text, more: Text, rest: Text, first: bool)
    requires item != []
    ensures var t := (if first then [] else [COMMA]) + item + more + rest;
            && t != [] && t[0] == (if first then item[0] else COMMA)
            && (if first then t else t[1..]) == item + (more + rest)
  {
    assert [] + item + more + rest == item + (more + rest);
    assert ([COMMA] + item + more + rest)[1..] == item + (more + rest);
  }

  lemma {:induction false} ReadPrintedItems(items: seq<Json>, first: bool, rest: Text)
    requires forall i :: 0 <= i < |items| ==> Printable(items[i])
    ensures ReadItems(PrintItems(items, first) + rest, first) == Some((items, rest))
    decreases items
  {
    if items == [] {
      assert (PrintItems(items, first) + rest)[1..] == rest;
    } else {
      hide ReadItems, ReadValue, Print;
      var more := PrintItems(items[1..], false);
      var t := (if first then [] else [COMMA]) + Print(items[0]) + more + rest;
      assert t == PrintItems(items, first) + rest;
      hide PrintItems;
      PrintBegins(items[0]);
      ReadPrinted(items[0], more + rest);
      ReadPrintedItems(items[1..], false, rest);
      Unseparated(Print(items[0]), more, rest, first);
      ReadItemsOn(t, first, items[0], more + rest, items[1..], rest);
      assert items == [items[0]] + items[1..];
    }
  }

  lemma {:induction false} ReadPrintedField(f: Field, rest: Text)
    requires Printable(f.value) && Delimited(rest)
    ensures ReadField(PrintField(f) + rest) == Some((f, rest))
    decreases f
  {
    hide ReadValue, ReadString, Print;
    var t := PrintField(f) + rest;
    var tail := [COLON] + Print(f.value) + rest;
    assert t == Quote(f.key) + tail;
    ReadQuoted(f.key, tail);
    assert tail[1..] == Print(f.value) + rest;
    ReadPrinted(f.value, rest);
  }

  lemma PrintFieldBegins(f: Field)
    ensures PrintField(f) != [] && PrintField(f)[0] == QUOTE
  {
  }

  lemma ReadFieldsOn(t: Text, first: bool, f: Field, tail: Text, fields: seq<Field>, rest: Text)
    requires t != [] && (if first then t[0] == QUOTE else t[0] == COMMA)
    requires ReadField(if first then t else t[1..]) == Some((f, tail))
    requires ReadFields(tail, false) == Some((fields, rest))
    ensures ReadFields(t, first) == Some(([f] + fields, rest))
  {
  }

  lemma {:induction false} ReadPrintedFields(fields: seq<Field>, first: bool, rest: Text)
    requires forall i :: 0 <= i < |fields| ==> Printable(fields[i].value)
    ensures ReadFields(PrintFields(fields, first) + rest, first) == Some((fields, rest))
    decreases fields
  {
    if fields == [] {
      assert (PrintFields(fields, first) + rest)[1..] == rest;
    } else {
      hide ReadFields, ReadField, PrintField;
      var more := PrintFields(fields[1..], false);
      var t := (if first then [] else [COMMA]) + PrintField(fields[0]) + more + rest;
      assert t == PrintFields(fields, first) + rest;
      hide PrintFields;
      PrintFieldBegins(fields[0]);
      ReadPrintedField(fields[0], more + rest);
      ReadPrintedFields(fields[1..], false, rest);
      Unseparated(PrintField(fields[0]), more, rest, first);
      ReadFieldsOn(t, first, fields[0], more + rest, fields[1..], rest);
      assert fields == [fields[0]] + fields[1..];
    }
  }

  /** The printer is injective. */
  lemma PrintInjective(a: Json, b: Json)
    requires Printable(a) && Printable(b) && Print(a) == Print(b)
    ensures a == b
  {
    ReadPrinted(a, []);
    ReadPrinted(b, []);
  }
}
