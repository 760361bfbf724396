/**
 JSON text as the platform's `JSON.stringify` writes it and `JSON.parse` reads it
 (sections 2 to 7 of RFC 8259). Strings are sequences of Unicode scalar values.
 */
module Json {
  import opened Wrappers
  import opened Decimals

  /** `Real` keeps the text of a number literal with a fraction or an exponent. */
  datatype Value =
    | Null
    | Bool(b: bool)
    | Num(n: int)
    | Real(text: string)
    | Str(s: string)
    | Arr(items: seq<Value>)
    | Obj(fields: seq<Field>)

  datatype Field = Field(name: string, value: Value)

  // --- Printing ------------------------------------------------------------

  function HexDigit(d: nat): char
    requires d < 16
  {
    if d < 10 then (48 + d) as char else (87 + d) as char
  }

  function EscapeChar(c: char): string {
    if c == '"' then "\\\""
    else if c == '\\' then "\\\\"
    else if c == '\U{08}' then "\\b"
    else if c == '\U{0C}' then "\\f"
    else if c == '\n' then "\\n"
    else if c == '\r' then "\\r"
    else if c == '\t' then "\\t"
    else if c < ' ' then "\\u00" + [HexDigit(c as nat / 16), HexDigit(c as nat % 16)]
    else [c]
  }

  function Escape(s: string): string {
    if s == [] then [] else EscapeChar(s[0]) + Escape(s[1..])
  }

  function Quote(s: string): string {
    "\"" + Escape(s) + "\""
  }

  function Print(v: Value): string
    decreases v
  {
    match v
    case Null => "null"
    case Bool(b) => if b then "true" else "false"
    case Num(n) => Decimal(n)
    case Real(text) => text
    case Str(s) => Quote(s)
    case Arr(items) => "[" + PrintItems(items) + "]"
    case Obj(fields) => "{" + PrintFields(fields) + "}"
  }

  function PrintItems(items: seq<Value>): string
    decreases items
  {
    if items == [] then ""
    else if |items| == 1 then Print(items[0])
    else Print(items[0]) + "," + PrintItems(items[1..])
  }

  function PrintField(f: Field): string
    decreases f
  {
    Quote(f.name) + ":" + Print(f.value)
  }

  function PrintFields(fields: seq<Field>): string
    decreases fields
  {
    if fields == [] then ""
    else if |fields| == 1 then PrintField(fields[0])
    else PrintField(fields[0]) + "," + PrintFields(fields[1..])
  }

  // --- Parsing -------------------------------------------------------------

  predicate IsBlank(c: char) {
    c == ' ' || c == '\t' || c == '\n' || c == '\r'
  }

  function SkipBlanks(t: string): (r: string)
    ensures |r| <= |t|
    ensures r != [] ==> !IsBlank(r[0])
  {
    if t != [] && IsBlank(t[0]) then SkipBlanks(t[1..]) else t
  }

  predicate IsDigit(c: char) {
    '0' <= c <= '9'
  }

  /** The longest run of digits at the head, and what follows it. */
  function TakeDigits(t: string): (r: (string, string))
    ensures r.0 + r.1 == t && forall i | 0 <= i < |r.0| :: IsDigit(r.0[i])
    ensures r.1 != [] ==> !IsDigit(r.1[0])
  {
    if t != [] && IsDigit(t[0]) then
      var (digits, rest) := TakeDigits(t[1..]);
      ([t[0]] + digits, rest)
    else ([], t)
  }

  /** The text after an optional fraction and exponent; None when one is malformed. */
  function SkipFraction(t: string): (r: Option<string>)
    ensures r.Some? ==> |r.value| <= |t|
  {
    var afterFraction :=
      if t != [] && t[0] == '.' then
        var (digits, rest) := TakeDigits(t[1..]);
        if digits == [] then None else Some(rest)
      else Some(t);
    if afterFraction.None? then None else
      var u := afterFraction.value;
      if u != [] && (u[0] == 'e' || u[0] == 'E') then
        var signed := if |u| > 1 && (u[1] == '+' || u[1] == '-') then u[2..] else u[1..];
        var (digits, rest) := TakeDigits(signed);
        if digits == [] then None else Some(rest)
      else Some(u)
  }

  function ParseNumber(t: string): (r: Option<(Value, string)>)
    ensures r.Some? ==> |r.value.1| < |t|
  {
    var negative := t != [] && t[0] == '-';
    var (digits, rest) := TakeDigits(if negative then t[1..] else t);
    if digits == [] || (|digits| > 1 && digits[0] == '0') then None else
      var tail := SkipFraction(rest);
      if tail.None? then None
      else if tail.value == rest then
        Some((Num(if negative then -NumberOf(digits) else NumberOf(digits)), rest))
      else Some((Real(t[..|t| - |tail.value|]), tail.value))
  }

  function HexValue(c: char): (r: Option<nat>)
    ensures r.Some? ==> r.value < 16
  {
    if '0' <= c <= '9' then Some(c as nat - 48)
    else if 'a' <= c <= 'f' then Some(c as nat - 87)
    else if 'A' <= c <= 'F' then Some(c as nat - 55)
    else None
  }

  /** The code unit of the four hexadecimal digits at the head. */
  function CodeUnit(t: string): (r: Option<nat>)
    ensures r.Some? ==> |t| >= 4 && r.value < 0x10000
  {
    if |t| < 4 then None else
      var a, b, c, d := HexValue(t[0]), HexValue(t[1]), HexValue(t[2]), HexValue(t[3]);
      if a.None? || b.None? || c.None? || d.None? then None
      else Some(4096 * a.value + 256 * b.value + 16 * c.value + d.value)
  }

  /** An escape after its backslash: the character and the text after it. */
  function ParseEscape(t: string): (r: Option<(char, string)>)
    ensures r.Some? ==> |r.value.1| < |t|
  {
    if t == [] then None
    else if t[0] == '"' || t[0] == '\\' || t[0] == '/' then Some((t[0], t[1..]))
    else if t[0] == 'b' then Some(('\U{08}', t[1..]))
    else if t[0] == 'f' then Some(('\U{0C}', t[1..]))
    else if t[0] == 'n' then Some(('\n', t[1..]))
    else if t[0] == 'r' then Some(('\r', t[1..]))
    else if t[0] == 't' then Some(('\t', t[1..]))
    else if t[0] == 'u' then
      var unit := CodeUnit(t[1..]);
      if unit.None? then None
      else if unit.value < 0xD800 || 0xE000 <= unit.value then Some((unit.value as char, t[5..]))
      else
        var low := if |t| > 7 && t[5] == '\\' && t[6] == 'u' then CodeUnit(t[7..]) else None;
        if unit.value < 0xDC00 && low.Some? && 0xDC00 <= low.value < 0xE000 then
          Some(((0x10000 + (unit.value - 0xD800) * 0x400 + (low.value - 0xDC00)) as char, t[11..]))
        else Some(('\U{FFFD}', t[5..]))
    else None
  }

  /** A string after its opening quote. */
  function ParseString(t: string): (r: Option<(string, string)>)
    ensures r.Some? ==> |r.value.1| < |t|
    decreases |t|
  {
    if t == [] || t[0] < ' ' then None
    else if t[0] == '"' then Some(([], t[1..]))
    else
      var head := if t[0] == '\\' then ParseEscape(t[1..]) else Some((t[0], t[1..]));
      if head.None? then None else
        var tail := ParseString(head.value.1);
        if tail.None? then None else Some(([head.value.0] + tail.value.0, tail.value.1))
  }

  function ParseValue(t0: string): (r: Option<(Value, string)>)
    ensures r.Some? ==> |r.value.1| < |t0|
    decreases |t0|, 0
  {
    var t := SkipBlanks(t0);
    if t == [] then None
    else if t[0] == '"' then
      var s := ParseString(t[1..]);
      if s.None? then None else Some((Str(s.value.0), s.value.1))
    else if t[0] == '[' then
      var u := SkipBlanks(t[1..]);
      if u != [] && u[0] == ']' then Some((Arr([]), u[1..])) else
        var items := ParseItems(t[1..]);
        if items.None? then None else Some((Arr(items.value.0), items.value.1))
    else if t[0] == '{' then
      var u := SkipBlanks(t[1..]);
      if u != [] && u[0] == '}' then Some((Obj([]), u[1..])) else
        var fields := ParseFields(t[1..]);
        if fields.None? then None else Some((Obj(fields.value.0), fields.value.1))
    else if "null" <= t then Some((Null, t[4..]))
    else if "true" <= t then Some((Bool(true), t[4..]))
    else if "false" <= t then Some((Bool(false), t[5..]))
    else ParseNumber(t)
  }

  /** Items after the opening bracket, at least one. */
  function ParseItems(t: string): (r: Option<(seq<Value>, string)>)
    ensures r.Some? ==> |r.value.1| < |t|
    decreases |t|, 1
  {
    var head := ParseValue(t);
    if head.None? then None else
      var u := SkipBlanks(head.value.1);
      if u != [] && u[0] == ']' then Some(([head.value.0], u[1..]))
      else if u != [] && u[0] == ',' then
        var tail := ParseItems(u[1..]);
        if tail.None? then None else Some(([head.value.0] + tail.value.0, tail.value.1))
      else None
  }

  /** A member of an object: its name, a colon, its value. */
  function ParseField(t: string): (r: Option<(Field, string)>)
    ensures r.Some? ==> |r.value.1| < |t|
    decreases |t|, 1
  {
    var u := SkipBlanks(t);
    if u == [] || u[0] != '"' then None else
      var name := ParseString(u[1..]);
      if name.None? then None else
        var w := SkipBlanks(name.value.1);
        if w == [] || w[0] != ':' then None else
          var value := ParseValue(w[1..]);
          if value.None? then None else Some((Field(name.value.0, value.value.0), value.value.1))
  }

  /** Members after the opening brace, at least one. */
  function ParseFields(t: string): (r: Option<(seq<Field>, string)>)
    ensures r.Some? ==> |r.value.1| < |t|
    decreases |t|, 2
  {
    var head := ParseField(t);
    if head.None? then None else
      var u := SkipBlanks(head.value.1);
      if u != [] && u[0] == '}' then Some(([head.value.0], u[1..]))
      else if u != [] && u[0] == ',' then
        var tail := ParseFields(u[1..]);
        if tail.None? then None else Some(([head.value.0] + tail.value.0, tail.value.1))
      else None
  }

  function Parse(t: string): Option<Value> {
    var r := ParseValue(t);
    if r.Some? && SkipBlanks(r.value.1) == [] then Some(r.value.0) else None
  }

  // --- Round trip ----------------------------------------------------------

  /** No number literal kept as text, which printing alone cannot vouch for. */
  predicate Plain(v: Value)
    decreases v
  {
    match v
    case Real(_) => false
    case Arr(items) => forall i | 0 <= i < |items| :: Plain(items[i])
    case Obj(fields) => forall i | 0 <= i < |fields| :: Plain(fields[i].value)
    case _ => true
  }

  /** What can follow a value: nothing, or a separator. */
  predicate Stops(rest: string) {
    rest == [] || rest[0] == ',' || rest[0] == ']' || rest[0] == '}'
  }

  lemma EscapeRead(c: char, rest: string)
    ensures var t := EscapeChar(c) + rest;
            && t[0] >= ' ' && t[0] != '"'
            && (if t[0] == '\\' then ParseEscape(t[1..]) else Some((t[0], t[1..]))) == Some((c, rest))
  {
    var t := EscapeChar(c) + rest;
    if EscapeChar(c) == [c] {
      assert t[1..] == rest;
    } else if |EscapeChar(c)| == 2 {
      assert t[1..][1..] == rest;
    } else {
      assert t[1..][5..] == rest;
      assert CodeUnit(t[1..][1..]) == Some(c as nat);
    }
  }

  lemma {:induction false} StringRead(s: string, rest: string)
    ensures ParseString(Escape(s) + "\"" + rest) == Some((s, rest))
  {
    var t := Escape(s) + "\"" + rest;
    if s == [] {
      assert t[1..] == rest;
    } else {
      var tail := Escape(s[1..]) + "\"" + rest;
      assert t == EscapeChar(s[0]) + tail;
      EscapeRead(s[0], tail);
      StringRead(s[1..], rest);
      assert [s[0]] + s[1..] == s;
    }
  }

  lemma QuoteRead(s: string, rest: string)
    ensures ParseString((Quote(s) + rest)[1..]) == Some((s, rest))
  {
    assert (Quote(s) + rest)[1..] == Escape(s) + "\"" + rest;
    StringRead(s, rest);
  }

  lemma {:induction false} DigitsTaken(digits: string, rest: string)
    requires forall i | 0 <= i < |digits| :: IsDigit(digits[i])
    requires rest != [] ==> !IsDigit(rest[0])
    ensures TakeDigits(digits + rest) == (digits, rest)
  {
    if digits == [] {
      assert digits + rest == rest;
    } else {
      assert (digits + rest)[1..] == digits[1..] + rest;
      DigitsTaken(digits[1..], rest);
      assert [digits[0]] + digits[1..] == digits;
    }
  }

  lemma {:induction false} NoLeadingZero(n: nat)
    ensures Digits(n)[0] == '0' ==> n == 0
  {
    if n >= 10 {
      NoLeadingZero(n / 10);
    }
  }

  lemma DigitsRead(m: nat, rest: string)
    requires Stops(rest)
    ensures Digits(m) != [] && IsDigit(Digits(m)[0]) && !(|Digits(m)| > 1 && Digits(m)[0] == '0')
    ensures NumberOf(Digits(m)) == m && TakeDigits(Digits(m) + rest) == (Digits(m), rest)
  {
    hide NumberOf, TakeDigits;
    DigitsTaken(Digits(m), rest);
    NoLeadingZero(m);
    NumberOfDigits(m);
    assert |Digits(m)| > 1 ==> m >= 10;
  }

  lemma NoFraction(rest: string)
    requires Stops(rest)
    ensures SkipFraction(rest) == Some(rest)
  {
  }

  /** A number whose digits are taken from a text is read as what they stand for, with the sign before them. */
  lemma TakenIsNumber(t: string, digits: string, rest: string)
    requires TakeDigits(if t != [] && t[0] == '-' then t[1..] else t) == (digits, rest)
    requires digits != [] && !(|digits| > 1 && digits[0] == '0') && SkipFraction(rest) == Some(rest)
    ensures ParseNumber(t) == Some((Num(if t[0] == '-' then -NumberOf(digits) else NumberOf(digits)), rest))
  {
    hide NumberOf, TakeDigits, SkipFraction;
  }

  /** The sign of a printed number, and the digits after it. */
  lemma DecimalParts(n: int, rest: string)
    ensures var t := Decimal(n) + rest;
            && t != [] && (t[0] == '-' <==> n < 0) && (t[0] == '-' || IsDigit(t[0]))
            && (if n < 0 then t[1..] else t) == Digits(if n < 0 then -n else n) + rest
  {
    hide Digits;
  }

  lemma NumberParsed(n: int, rest: string)
    requires Stops(rest)
    ensures ParseNumber(Decimal(n) + rest) == Some((Num(n), rest))
  {
    hide NumberOf, TakeDigits, Digits, SkipFraction, Decimal, ParseNumber;
    var m: nat := if n < 0 then -n else n;
    NoFraction(rest);
    DigitsRead(m, rest);
    DecimalParts(n, rest);
    TakenIsNumber(Decimal(n) + rest, Digits(m), rest);
  }

  lemma NoWord(t: string)
    requires t != [] && (t[0] == '-' || IsDigit(t[0]))
    ensures SkipBlanks(t) == t && !("null" <= t) && !("true" <= t) && !("false" <= t)
  {
    assert "null"[0] != t[0] && "true"[0] != t[0] && "false"[0] != t[0];
  }

  lemma NumberRead(n: int, rest: string)
    requires Stops(rest)
    ensures ParseValue(Decimal(n) + rest) == Some((Num(n), rest))
  {
    hide ParseNumber, ParseString, ParseItems, ParseFields, Decimal, SkipBlanks;
    NumberParsed(n, rest);
    DecimalParts(n, rest);
    NoWord(Decimal(n) + rest);
  }

  /** Printed values start with a character that is neither blank nor a closing bracket. */
  lemma PrintStarts(v: Value)
    requires Plain(v)
    ensures Print(v) != [] && !IsBlank(Print(v)[0]) && Print(v)[0] != ']' && Print(v)[0] != '}'
  {
  }

  lemma SkipNothing(t: string)
    requires t != [] ==> !IsBlank(t[0])
    ensures SkipBlanks(t) == t
  {
  }

  lemma {:induction false} ValueRead(v: Value, rest: string)
    requires Plain(v) && Stops(rest)
    ensures ParseValue(Print(v) + rest) == Some((v, rest))
    decreases v, 1
  {
    var t := Print(v) + rest;
    PrintStarts(v);
    SkipNothing(t);
    match v
    case Null => assert t[4..] == rest && "null" <= t;
    case Bool(b) =>
      if b { assert t[4..] == rest && "true" <= t; } else { assert t[5..] == rest && "false" <= t; }
    case Num(n) => NumberRead(n, rest);
    case Str(s) => QuoteRead(s, rest);
    case Arr(items) => ArrayRead(items, rest);
    case Obj(fields) => ObjectRead(fields, rest);
  }

  lemma {:induction false} ArrayRead(items: seq<Value>, rest: string)
    requires forall i | 0 <= i < |items| :: Plain(items[i])
    ensures ParseValue("[" + PrintItems(items) + "]" + rest) == Some((Arr(items), rest))
    decreases items, 2
  {
    var t := "[" + PrintItems(items) + "]" + rest;
    assert t[1..] == PrintItems(items) + "]" + rest;
    if items == [] {
      assert t[1..] == "]" + rest;
    } else {
      PrintStarts(items[0]);
      ItemsRead(items, rest);
      assert t[1..][0] == Print(items[0])[0];
    }
  }

  lemma LastItem(t: string, v: Value, rest: string)
    requires ParseValue(t) == Some((v, "]" + rest))
    ensures ParseItems(t) == Some(([v], rest))
  {
    SkipNothing("]" + rest);
    assert ("]" + rest)[1..] == rest;
  }

  lemma NextItem(t: string, v: Value, tail: string, vs: seq<Value>, rest: string)
    requires ParseValue(t) == Some((v, "," + tail)) && ParseItems(tail) == Some((vs, rest))
    ensures ParseItems(t) == Some(([v] + vs, rest))
  {
    SkipNothing("," + tail);
    assert ("," + tail)[1..] == tail;
  }

  lemma {:induction false} ItemsRead(items: seq<Value>, rest: string)
    requires items != [] && forall i | 0 <= i < |items| :: Plain(items[i])
    ensures ParseItems(PrintItems(items) + "]" + rest) == Some((items, rest))
    decreases items, 1
  {
    hide ParseItems, ParseValue, Print;
    var t := PrintItems(items) + "]" + rest;
    if |items| == 1 {
      assert t == Print(items[0]) + ("]" + rest);
      ValueRead(items[0], "]" + rest);
      LastItem(t, items[0], rest);
      assert [items[0]] == items;
    } else {
      var tail := PrintItems(items[1..]) + "]" + rest;
      assert t == Print(items[0]) + ("," + tail);
      ValueRead(items[0], "," + tail);
      ItemsRead(items[1..], rest);
      NextItem(t, items[0], tail, items[1..], rest);
      assert [items[0]] + items[1..] == items;
    }
  }

  lemma NamedValue(t: string, name: string, tail: string, v: Value, rest: string)
    requires t != [] && t[0] == '"' && ParseString(t[1..]) == Some((name, ":" + tail))
    requires ParseValue(tail) == Some((v, rest))
    ensures ParseField(t) == Some((Field(name, v), rest))
  {
    SkipNothing(t);
    SkipNothing(":" + tail);
    assert (":" + tail)[1..] == tail;
  }

  lemma {:induction false} FieldRead(f: Field, rest: string)
    requires Plain(f.value) && Stops(rest)
    ensures ParseField(PrintField(f) + rest) == Some((f, rest))
    decreases f, 2
  {
    hide ParseField, ParseValue, ParseString, Print;
    var tail := Print(f.value) + rest;
    assert PrintField(f) + rest == Quote(f.name) + (":" + tail);
    QuoteRead(f.name, ":" + tail);
    ValueRead(f.value, rest);
    NamedValue(PrintField(f) + rest, f.name, tail, f.value, rest);
  }

  lemma LastField(t: string, f: Field, rest: string)
    requires ParseField(t) == Some((f, "}" + rest))
    ensures ParseFields(t) == Some(([f], rest))
  {
    SkipNothing("}" + rest);
    assert ("}" + rest)[1..] == rest;
  }

  lemma NextField(t: string, f: Field, tail: string, fs: seq<Field>, rest: string)
    requires ParseField(t) == Some((f, "," + tail)) && ParseFields(tail) == Some((fs, rest))
    ensures ParseFields(t) == Some(([f] + fs, rest))
  {
    SkipNothing("," + tail);
    assert ("," + tail)[1..] == tail;
  }

  lemma {:induction false} ObjectRead(fields: seq<Field>, rest: string)
    requires forall i | 0 <= i < |fields| :: Plain(fields[i].value)
    ensures ParseValue("{" + PrintFields(fields) + "}" + rest) == Some((Obj(fields), rest))
    decreases fields, 2
  {
    var t := "{" + PrintFields(fields) + "}" + rest;
    assert t[1..] == PrintFields(fields) + "}" + rest;
    if fields == [] {
      assert t[1..] == "}" + rest;
    } else {
      FieldsRead(fields, rest);
      assert t[1..][0] == '"';
    }
  }

  lemma {:induction false} FieldsRead(fields: seq<Field>, rest: string)
    requires fields != [] && forall i | 0 <= i < |fields| :: Plain(fields[i].value)
    ensures ParseFields(PrintFields(fields) + "}" + rest) == Some((fields, rest))
    decreases fields, 1
  {
    hide ParseFields, ParseField, ParseValue, PrintField;
    var t := PrintFields(fields) + "}" + rest;
    if |fields| == 1 {
      assert t == PrintField(fields[0]) + ("}" + rest);
      FieldRead(fields[0], "}" + rest);
      LastField(t, fields[0], rest);
      assert [fields[0]] == fields;
    } else {
      var tail := PrintFields(fields[1..]) + "}" + rest;
      assert t == PrintField(fields[0]) + ("," + tail);
      FieldRead(fields[0], "," + tail);
      FieldsRead(fields[1..], rest);
      NextField(t, fields[0], tail, fields[1..], rest);
      assert [fields[0]] + fields[1..] == fields;
    }
  }

  /** Parsing inverts printing. */
  lemma ParseInvertsPrint(v: Value)
    requires Plain(v)
    ensures Parse(Print(v)) == Some(v)
  {
    ValueRead(v, []);
    assert Print(v) + [] == Print(v);
  }

  /** Hence the printed text identifies the value. */
  lemma PrintInjective(v: Value, w: Value)
    requires Plain(v) && Plain(w)
    ensures Print(v) == Print(w) <==> v == w
  {
    ParseInvertsPrint(v);
    ParseInvertsPrint(w);
  }
}
