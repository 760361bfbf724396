/**
 Bare entry tokens, without a slug (routePayloads.ts, `decodeEntryRoutePayload`).

 The base64url alphabet contains the dash, at which the decoder cuts. This module
 tells, for every source and URL, exactly which bare tokens have a dash and that
 these decode to nothing.
 */
module BareTokens {
  import opened Wrappers
  import opened Json
  import opened Utf8
  import opened Base64
  import opened RoutePayloads
  import opened TokenBits
  import opened NamelessText

  // --- Bytes of a text -----------------------------------------------------

  predicate Printable(s: string) {
    forall i | 0 <= i < |s| :: s[i] >= ' '
  }

  /** No control characters, no byte that starts nothing, and a continuation after each byte that needs one. */
  ghost predicate TextBytes(bs: seq<Byte>) {
    && (forall i | 0 <= i < |bs| :: 0x20 <= bs[i] < 0xF5)
    && (forall i | 0 <= i < |bs| && bs[i] >= 0xC0 :: i + 1 < |bs| && 0x80 <= bs[i + 1] < 0xC0)
  }

  lemma CharBytes(c: char)
    requires c >= ' '
    ensures TextBytes(EncodeChar(c))
  {
    var n: nat := c as nat;
    assert n < 0x110000;
  }

  lemma ConcatBytes(a: seq<Byte>, b: seq<Byte>)
    requires TextBytes(a) && TextBytes(b)
    ensures TextBytes(a + b)
  {
    var t := a + b;
    forall i | 0 <= i < |t| && t[i] >= 0xC0 ensures i + 1 < |t| && 0x80 <= t[i + 1] < 0xC0 {
      if i < |a| {
        assert t[i] == a[i] && t[i + 1] == a[i + 1];
      } else {
        assert t[i] == b[i - |a|] && t[i + 1] == b[i - |a| + 1];
      }
    }
  }

  lemma {:induction false} EncodedBytes(text: string)
    requires Printable(text)
    ensures TextBytes(Encode(text))
  {
    hide EncodeChar, TextBytes;
    if text == [] {
      NoBytes();
    } else {
      CharBytes(text[0]);
      EncodedBytes(text[1..]);
      ConcatBytes(EncodeChar(text[0]), Encode(text[1..]));
    }
  }

  lemma NoBytes()
    ensures TextBytes([])
  {
  }

  // --- Shifted bytes name nothing ------------------------------------------

  lemma FourPair(a: nat, b: nat, c: nat)
    requires a < 256 && b < 0xF5 && c < 256 && (b >= 0xC0 ==> 0x80 <= c < 0xC0)
    ensures !IsPair(a % 16 * 16 + b / 16, b % 16 * 16 + c / 16)
  {
  }

  lemma TwoPair(a: nat, b: nat, c: nat)
    requires a < 256 && b < 0xF5 && c < 256 && (b == 0 || b >= 0x20) && (b >= 0xC0 ==> 0x80 <= c < 0xC0)
    ensures !IsPair(a % 64 * 4 + b / 64, b % 64 * 4 + c / 64)
  {
  }

  lemma ByteAfter(bs: seq<Byte>, k: nat)
    requires TextBytes(bs)
    ensures var b, c := At(Binary(bs), k), At(Binary(bs), k + 1);
            b < 0xF5 && (b == 0 || b >= 0x20) && (b >= 0xC0 ==> 0x80 <= c < 0xC0)
  {
  }

  lemma FourPairFree(bs: seq<Byte>, r: string)
    requires TextBytes(bs) && ShiftedByFour(Binary(bs), r)
    ensures BytesPairFree(BytesOf(r))
  {
    hide TextBytes, At, IsPair;
    forall i | 0 <= i < |r| - 1 ensures !IsPair(r[i] as nat, r[i + 1] as nat) {
      ByteAfter(bs, i + 1);
      FourPair(At(Binary(bs), i), At(Binary(bs), i + 1), At(Binary(bs), i + 2));
    }
  }

  lemma TwoPairFree(bs: seq<Byte>, r: string)
    requires TextBytes(bs) && ShiftedByTwo(Binary(bs), r)
    ensures BytesPairFree(BytesOf(r))
  {
    hide TextBytes, At, IsPair;
    forall i | 0 <= i < |r| - 1 ensures !IsPair(r[i] as nat, r[i + 1] as nat) {
      ByteAfter(bs, i + 1);
      TwoPair(At(Binary(bs), i), At(Binary(bs), i + 1), At(Binary(bs), i + 2));
    }
  }

  lemma PairFreeHoldsNoEntry(r: string)
    requires IsBinary(r) && BytesPairFree(BytesOf(r))
    ensures ReadEntry(Parse(DecodeText(BytesOf(r)))) == None
  {
    hide ReadEntry, Parse, DecodeText, PairFree, BytesPairFree;
    DecodedTextPairFree(BytesOf(r));
    NamelessIsNoEntry(DecodeText(BytesOf(r)));
  }

  lemma BytesFrom(bs: seq<Byte>, k: nat)
    requires TextBytes(bs) && k <= |bs|
    ensures TextBytes(bs[k..]) && Binary(bs)[k..] == Binary(bs[k..]) && BytesOf(Binary(bs[k..])) == bs[k..]
  {
  }

  // --- Characters that end in 62 -------------------------------------------

  /** The last byte of such a character may end in the six bits of the dash. */
  predicate IsMark(c: char) {
    c == '>' || c == '~' || c as nat >= 0x80
  }

  predicate NoMarks(s: string) {
    forall i | 0 <= i < |s| :: !IsMark(s[i])
  }

  // --- No rest of an entry is an object ------------------------------------

  function DropSpaces(s: string): (r: string)
    ensures r != [] ==> r[0] != ' '
    decreases |s|
  {
    if s != [] && s[0] == ' ' then DropSpaces(s[1..]) else s
  }

  lemma {:induction false} BlanksOfEscaped(s: string, rest: string)
    ensures SkipBlanks(Escape(s) + "\"" + rest) == Escape(DropSpaces(s)) + "\"" + rest
  {
    var t := Escape(s) + "\"" + rest;
    if s != [] {
      var tail := Escape(s[1..]) + "\"" + rest;
      assert t == EscapeChar(s[0]) + tail;
      if s[0] == ' ' {
        assert t[1..] == tail;
        BlanksOfEscaped(s[1..], rest);
      }
    }
  }

  /** After the closing quote of a string, `rest` does not go on like the member name of an object. */
  predicate NotAMember(rest: string) {
    var name := ParseString(rest);
    name.Some? ==> var after := SkipBlanks(name.value.1); after == [] || after[0] != ':'
  }

  lemma QuoteNeverBlank(s: string, rest: string)
    ensures SkipBlanks(Escape(s) + "\"" + rest) != []
  {
    BlanksOfEscaped(s, rest);
  }

  lemma OnlyBracesMakeObjects(t: string)
    ensures ParseValue(t).Some? && ParseValue(t).value.0.Obj? ==> SkipBlanks(t) != [] && SkipBlanks(t)[0] == '{'
  {
  }

  lemma NoFields(s: string, rest: string)
    requires NotAMember(rest)
    ensures ParseFields(Escape(s) + "\"" + rest) == None
  {
    var t := Escape(s) + "\"" + rest;
    BlanksOfEscaped(s, rest);
    var r := DropSpaces(s);
    if r == [] {
      assert SkipBlanks(t) == "\"" + rest && ("\"" + rest)[1..] == rest;
    } else {
      assert SkipBlanks(t)[0] == EscapeChar(r[0])[0] != '"';
    }
    assert ParseField(t) == None;
  }

  lemma BraceValue(z: string)
    ensures ParseValue("{" + z) ==
              var u := SkipBlanks(z);
              if u != [] && u[0] == '}' then Some((Obj([]), u[1..]))
              else if ParseFields(z).None? then None
              else Some((Obj(ParseFields(z).value.0), ParseFields(z).value.1))
  {
    SkipNothing("{" + z);
    assert ("{" + z)[1..] == z;
  }

  lemma BraceFails(z: string)
    requires ParseFields(z) == None
    requires var u := SkipBlanks(z); u != [] && u[0] == '}' ==> SkipBlanks(u[1..]) != []
    ensures Parse("{" + z) == None
  {
    BraceValue(z);
  }

  lemma ClosingBraceIsNotLast(s: string, rest: string)
    ensures var u := SkipBlanks(Escape(s) + "\"" + rest); u != [] && u[0] == '}' ==> SkipBlanks(u[1..]) != []
  {
    BlanksOfEscaped(s, rest);
    var q := DropSpaces(s);
    if q != [] && q[0] == '}' {
      QuoteNeverBlank(q[1..], rest);
      assert (Escape(q) + "\"" + rest)[1..] == Escape(q[1..]) + "\"" + rest;
    } else if q != [] {
      assert EscapeChar(q[0])[0] != '}';
    }
  }

  lemma NoBraceNoObject(t: string)
    requires SkipBlanks(t) == [] || SkipBlanks(t)[0] != '{'
    ensures Parse(t).None? || !Parse(t).value.Obj?
  {
    OnlyBracesMakeObjects(t);
  }

  /** What the first character of a string tells about the text after its blanks. */
  lemma HeadAfterSpaces(s: string, rest: string)
    ensures var r, u := DropSpaces(s), SkipBlanks(Escape(s) + "\"" + rest);
            && u != []
            && (r == [] || r[0] != '{' ==> u[0] != '{')
            && (r != [] && r[0] == '{' ==> u == "{" + (Escape(r[1..]) + "\"" + rest))
  {
    BlanksOfEscaped(s, rest);
    var r := DropSpaces(s);
    if r != [] {
      assert EscapeChar(r[0])[0] == '{' ==> r[0] == '{';
    }
  }

  /** The rest of a string of an entry, from any position, is never read as an object. */
  lemma StringRestIsNoObject(s: string, rest: string)
    requires NotAMember(rest)
    ensures var v := Parse(Escape(s) + "\"" + rest); v.None? || !v.value.Obj?
  {
    var r := DropSpaces(s);
    HeadAfterSpaces(s, rest);
    if r != [] && r[0] == '{' {
      NoFields(r[1..], rest);
      ClosingBraceIsNotLast(r[1..], rest);
      BraceFails(Escape(r[1..]) + "\"" + rest);
      SkipTwice(Escape(s) + "\"" + rest);
    } else {
      NoBraceNoObject(Escape(s) + "\"" + rest);
    }
  }

  lemma ValueSkips(t: string)
    ensures ParseValue(SkipBlanks(t)) == ParseValue(t)
  {
    hide ParseString, ParseItems, ParseFields, ParseNumber;
    SkipNothing(SkipBlanks(t));
  }

  lemma SkipTwice(t: string)
    ensures Parse(SkipBlanks(t)) == Parse(t)
  {
    hide ParseValue;
    ValueSkips(t);
  }

  // --- The text of an entry ------------------------------------------------

  /** A member with a string value, up to the value. */
  function Opening(name: string): string {
    "\"" + name + "\":\""
  }

  const BEFORE_SOURCE := "{\"source\":\""
  const BEFORE_URL := "\",\"entryUrl\":\""
  const AFTER_URL := "\"}"

  /** What follows the source string, from its closing quote on. */
  function SourceEnd(url: string): string {
    BEFORE_URL + (Escape(url) + AFTER_URL)
  }

  /** The JSON text of an entry. */
  function EntryText(e: Entry): string {
    BEFORE_SOURCE + (Escape(e.source) + SourceEnd(e.entryUrl))
  }

  lemma PrintTwo(f: Field, g: Field)
    ensures Print(Obj([f, g])) == "{" + (PrintField(f) + "," + PrintField(g)) + "}"
  {
    assert [f, g][1..] == [g];
    assert PrintFields([g]) == PrintField(g);
  }

  lemma PrintStringField(name: string, s: string)
    requires Escape(name) == name
    ensures PrintField(Field(name, Str(s))) == Opening(name) + Escape(s) + "\""
  {
  }

  lemma JoinFields(x: string, y: string)
    ensures "{" + ((Opening("source") + x + "\"") + "," + (Opening("entryUrl") + y + "\"")) + "}"
         == BEFORE_SOURCE + (x + (BEFORE_URL + (y + AFTER_URL)))
  {
    assert BEFORE_SOURCE == "{" + Opening("source");
    assert BEFORE_URL == "\"" + "," + Opening("entryUrl");
    assert AFTER_URL == "\"" + "}";
  }

  lemma EntryTextIsPrinted(e: Entry)
    ensures Print(EntryValue(e)) == EntryText(e)
  {
    EscapePlain("source");
    EscapePlain("entryUrl");
    PrintStringField("source", e.source);
    PrintStringField("entryUrl", e.entryUrl);
    PrintTwo(Field("source", Str(e.source)), Field("entryUrl", Str(e.entryUrl)));
    JoinFields(Escape(e.source), Escape(e.entryUrl));
  }

  lemma {:induction false} EscapePlain(s: string)
    requires forall i | 0 <= i < |s| :: 'A' <= s[i] <= 'z' && s[i] != '\\'
    ensures Escape(s) == s
  {
    if s != [] {
      EscapePlain(s[1..]);
    }
  }

  /** In an escaped string, a mark stands for itself. */
  lemma {:induction false} MarkInEscaped(s: string, p: nat) returns (i: nat)
    requires p < |Escape(s)| && IsMark(Escape(s)[p])
    ensures i <= |s| && Escape(s)[p + 1..] == Escape(s[i..])
  {
    var head := EscapeChar(s[0]);
    if p < |head| {
      assert head == [s[0]];
      i := 1;
    } else {
      i := MarkInEscaped(s[1..], p - |head|);
      assert s[1..][i..] == s[i + 1..];
      assert Escape(s)[p + 1..] == Escape(s[1..])[p - |head| + 1..];
      i := i + 1;
    }
  }

  /** What follows the closing quote of the source. */
  function AfterSource(url: string): string {
    ",\"entryUrl\":\"" + (Escape(url) + AFTER_URL)
  }

  /** Read from inside the source, the comma is a whole string, and the letters after it are no colon. */
  lemma CommaIsNoName(tail: string)
    requires tail != [] && tail[0] == 'e'
    ensures NotAMember(",\"" + tail)
  {
    var t := ",\"" + tail;
    assert t[1..] == "\"" + tail && t[1..][1..] == tail;
    assert ParseString(t[1..]) == Some(([], tail));
    assert ParseString(t) == Some(([','] + [], tail));
  }

  lemma BraceIsNoName()
    ensures NotAMember("}")
  {
    assert ParseString("}"[1..]) == None;
  }

  lemma MiddleIsNotAMember(url: string)
    ensures NotAMember(AfterSource(url))
    ensures SourceEnd(url) == "\"" + AfterSource(url)
  {
    hide Escape, NotAMember;
    var tail := "entryUrl\":\"" + (Escape(url) + AFTER_URL);
    assert ",\"" + "entryUrl\":\"" == ",\"entryUrl\":\"";
    assert AfterSource(url) == ",\"" + tail;
    CommaIsNoName(tail);
    assert BEFORE_URL == "\"" + ",\"entryUrl\":\"";
  }

  /** A mark lies past a text without marks. */
  lemma PastPlain(a: string, b: string, p: nat)
    requires NoMarks(a) && p < |a + b| && IsMark((a + b)[p])
    ensures |a| <= p && IsMark(b[p - |a|]) && (a + b)[p + 1..] == b[p - |a| + 1..]
  {
    assert forall i | 0 <= i < |a| :: (a + b)[i] == a[i];
  }

  lemma PastEscaped(s: string, rest: string, p: nat)
    requires |Escape(s)| <= p < |Escape(s) + rest| && IsMark((Escape(s) + rest)[p])
    ensures IsMark(rest[p - |Escape(s)|])
    ensures (Escape(s) + rest)[p + 1..] == rest[p - |Escape(s)| + 1..]
  {
  }

  lemma InEscaped(s: string, rest: string, p: nat) returns (i: nat)
    requires p < |Escape(s)| && IsMark((Escape(s) + rest)[p])
    ensures i <= |s| && (Escape(s) + rest)[p + 1..] == Escape(s[i..]) + rest
  {
    hide Escape, IsMark;
    i := MarkInEscaped(s, p);
    assert (Escape(s) + rest)[p + 1..] == Escape(s)[p + 1..] + rest;
  }

  lemma BeforePlain(a: string, b: string, p: nat)
    requires NoMarks(b) && p < |a + b| && IsMark((a + b)[p])
    ensures p < |a|
  {
    assert forall i | |a| <= i < |a + b| :: (a + b)[i] == b[i - |a|];
  }

  lemma UrlRestIsNoEntry(rest: string)
    ensures ReadEntry(Parse(Escape(rest) + AFTER_URL)) == None
  {
    hide Escape, Parse;
    BraceIsNoName();
    StringRestIsNoObject(rest, "}");
    assert AFTER_URL == "\"" + "}";
    assert Escape(rest) + AFTER_URL == Escape(rest) + "\"" + "}";
  }

  lemma UrlMark(url: string, p: nat)
    requires p < |SourceEnd(url)| && IsMark(SourceEnd(url)[p])
    ensures ReadEntry(Parse(SourceEnd(url)[p + 1..])) == None
  {
    hide ReadEntry, Parse, Escape;
    PastPlain(BEFORE_URL, Escape(url) + AFTER_URL, p);
    var q := p - |BEFORE_URL|;
    BeforePlain(Escape(url), AFTER_URL, q);
    var i := InEscaped(url, AFTER_URL, q);
    UrlRestIsNoEntry(url[i..]);
  }

  lemma SourceMark(e: Entry, p: nat)
    requires p < |Escape(e.source) + SourceEnd(e.entryUrl)| && IsMark((Escape(e.source) + SourceEnd(e.entryUrl))[p])
    ensures ReadEntry(Parse((Escape(e.source) + SourceEnd(e.entryUrl))[p + 1..])) == None
  {
    if p < |Escape(e.source)| {
      var i := InEscaped(e.source, SourceEnd(e.entryUrl), p);
      MiddleIsNotAMember(e.entryUrl);
      assert Escape(e.source[i..]) + SourceEnd(e.entryUrl) == Escape(e.source[i..]) + "\"" + AfterSource(e.entryUrl);
      StringRestIsNoObject(e.source[i..], AfterSource(e.entryUrl));
    } else {
      PastEscaped(e.source, SourceEnd(e.entryUrl), p);
      UrlMark(e.entryUrl, p - |Escape(e.source)|);
    }
  }

  lemma MarkedRestIsNoEntry(e: Entry, p: nat)
    requires p < |EntryText(e)| && IsMark(EntryText(e)[p])
    ensures ReadEntry(Parse(EntryText(e)[p + 1..])) == None
  {
    PastPlain(BEFORE_SOURCE, Escape(e.source) + SourceEnd(e.entryUrl), p);
    SourceMark(e, p - |BEFORE_SOURCE|);
  }

  lemma PrintableConcat(s: string, t: string)
    requires Printable(s) && Printable(t)
    ensures Printable(s + t)
  {
  }

  lemma {:induction false} EscapePrintable(s: string)
    ensures Printable(Escape(s))
  {
    if s != [] {
      EscapePrintable(s[1..]);
      assert Printable(EscapeChar(s[0]));
    }
  }

  lemma EntryTextPrintable(e: Entry)
    ensures Printable(EntryText(e))
  {
    EscapePrintable(e.source);
    EscapePrintable(e.entryUrl);
    PrintableConcat(Escape(e.entryUrl), AFTER_URL);
    PrintableConcat(BEFORE_URL, Escape(e.entryUrl) + AFTER_URL);
    PrintableConcat(Escape(e.source), SourceEnd(e.entryUrl));
    PrintableConcat(BEFORE_SOURCE, Escape(e.source) + SourceEnd(e.entryUrl));
  }

  // --- What follows a dash that ends a group -------------------------------

  /** Bytes from position `m` on: from the middle of a character, or the bytes of the text after some character. */
  ghost predicate FollowsChar(text: string, m: nat, p: nat) {
    && p < |text| && 0 < m <= |Encode(text)| && Encode(text)[m..] == Encode(text[p + 1..])
    && EncodeChar(text[p])[|EncodeChar(text[p])| - 1] == Encode(text)[m - 1]
  }

  ghost predicate StartsMidChar(bs: seq<Byte>) {
    bs != [] && 0x80 <= bs[0] < 0xC0
  }

  lemma MidChar(c: char, m: nat)
    requires 0 < m < |EncodeChar(c)|
    ensures 0x80 <= EncodeChar(c)[m] < 0xC0
  {
  }

  lemma {:induction false} BytePosition(text: string, m: nat) returns (p: nat)
    requires 0 < m <= |Encode(text)|
    ensures StartsMidChar(Encode(text)[m..]) || FollowsChar(text, m, p)
  {
    hide EncodeChar;
    var head, rest := EncodeChar(text[0]), Encode(text[1..]);
    p := 0;
    if m < |head| {
      MidChar(text[0], m);
    } else if m == |head| {
      assert Encode(text)[m..] == rest;
    } else {
      var q := BytePosition(text[1..], m - |head|);
      assert Encode(text)[m..] == rest[m - |head|..];
      p := q + 1;
      if FollowsChar(text[1..], m - |head|, q) {
        assert text[1..][q + 1..] == text[p + 1..];
      }
    }
  }

  lemma MidCharIsNoEntry(bs: seq<Byte>)
    requires StartsMidChar(bs)
    ensures ReadEntry(Parse(DecodeText(bs))) == None
  {
    hide ParseString, ParseItems, ParseFields, ParseNumber;
    assert DecodeText(bs)[0] == REPLACEMENT;
    SkipNothing(DecodeText(bs));
    NoBraceNoObject(DecodeText(bs));
  }

  lemma LastByteMark(c: char)
    requires EncodeChar(c)[|EncodeChar(c)| - 1] % 64 == 62
    ensures c >= ' ' ==> IsMark(c)
  {
  }

  lemma AfterMark(e: Entry, p: nat)
    requires p < |EntryText(e)| && IsMark(EntryText(e)[p])
    ensures ReadEntry(Parse(DecodeText(Encode(EntryText(e)[p + 1..])))) == None
  {
    hide EntryText, ReadEntry, Parse;
    var rest := EntryText(e)[p + 1..];
    DecodeInvertsEncode(rest);
    MarkedRestIsNoEntry(e, p);
    if rest != [] && rest[0] == BYTE_ORDER_MARK {
      MarkedRestIsNoEntry(e, p + 1);
      assert rest[1..] == EntryText(e)[p + 2..];
    }
  }

  /** Whole bytes after a byte that ends in the bits of the dash are no entry. */
  lemma WholeBytesAreNoEntry(e: Entry, m: nat)
    requires var bs := Encode(EntryText(e)); 0 < m <= |bs| && bs[m - 1] % 64 == 62
    ensures ReadEntry(Parse(DecodeText(Encode(EntryText(e))[m..]))) == None
  {
    hide EntryText, ReadEntry, Parse, DecodeText, Encode, EncodeChar;
    var text := EntryText(e);
    var p := BytePosition(text, m);
    if StartsMidChar(Encode(text)[m..]) {
      MidCharIsNoEntry(Encode(text)[m..]);
    } else {
      LastByteMark(text[p]);
      EntryTextPrintable(e);
      AfterMark(e, p);
    }
  }

  // --- Dashes --------------------------------------------------------------

  /** The byte at position `i` completes the six bits of a dash: its own last six, or bits shared with the byte before. */
  predicate CompletesDash(bs: seq<Byte>, i: nat)
    requires i < |bs|
  {
    || (i % 3 == 1 && bs[i - 1] % 4 == 3 && bs[i] / 16 == 14)
    || (i % 3 == 2 && bs[i - 1] % 16 == 15 && bs[i] / 64 == 2)
    || (i % 3 == 2 && bs[i] % 64 == 62)
  }

  predicate CarriesDash(bs: seq<Byte>) {
    exists i | 0 <= i < |bs| :: CompletesDash(bs, i)
  }

  lemma DashBits(a: nat, b: nat)
    requires a < 256 && b < 256
    ensures a / 4 == 62 <==> 0xF8 <= a < 0xFC
    ensures a % 4 * 16 + b / 16 == 62 <==> a % 4 == 3 && b / 16 == 14
    ensures a % 16 * 4 + b / 64 == 62 <==> a % 16 == 15 && b / 64 == 2
  {
  }

  lemma Remainders(q: nat, r: nat)
    requires r < 4
    ensures (3 * q) % 3 == 0 && (3 * q + 1) % 3 == 1 && (3 * q + 2) % 3 == 2
    ensures (4 * q + r) / 4 == q && (4 * q + r) % 4 == r
  {
  }

  lemma AtByte(bs: seq<Byte>, k: nat)
    ensures At(Binary(bs), k) == if k < |bs| then bs[k] else 0
  {
  }

  /** Which byte completes the letter at position `j`, if it is a dash. */
  lemma DashByte(bs: seq<Byte>, j: nat)
    requires TextBytes(bs) && j < |UrlLetters(Binary(bs))| && UrlLetters(Binary(bs))[j] == '-'
    ensures j % 4 != 0
    ensures var i := j / 4 * 3 + (if j % 4 == 1 then 1 else 2); i < |bs| && CompletesDash(bs, i)
    ensures j % 4 == 3 ==> bs[j / 4 * 3 + 2] % 64 == 62
  {
    hide UrlLetters, At;
    var s, g := Binary(bs), j / 4 * 3;
    DashIff(s, j);
    Remainders(j / 4, j % 4);
    AtByte(bs, g);
    AtByte(bs, g + 1);
    AtByte(bs, g + 2);
    DashBits(At(s, g), At(s, g + 1));
    DashBits(At(s, g + 1), At(s, g + 2));
  }

  lemma DashLetter(bs: seq<Byte>, i: nat) returns (j: nat)
    requires i < |bs| && CompletesDash(bs, i)
    ensures j < |UrlLetters(Binary(bs))| && UrlLetters(Binary(bs))[j] == '-'
  {
    hide UrlLetters, At;
    var s, q := Binary(bs), i / 3;
    var r := if i % 3 == 1 then 1 else if bs[i] % 64 == 62 then 3 else 2;
    j := 4 * q + r;
    Remainders(q, r);
    assert i == 3 * q + i % 3;
    AtByte(bs, 3 * q);
    AtByte(bs, 3 * q + 1);
    AtByte(bs, 3 * q + 2);
    DashBits(At(s, 3 * q), At(s, 3 * q + 1));
    DashBits(At(s, 3 * q + 1), At(s, 3 * q + 2));
    DashIff(s, j);
  }

  lemma TokenLetters(text: string)
    ensures EncodeText(text) == UrlLetters(Binary(Encode(text)))
  {
    TokenIsUrlLetters(Binary(Encode(text)));
  }

  /** A token has a dash exactly when a byte of its text completes one. */
  lemma DashFreeIff(text: string)
    requires Printable(text)
    ensures DashFree(EncodeText(text)) <==> !CarriesDash(Encode(text))
  {
    hide Encode, EncodeText, UrlLetters, TextBytes, CompletesDash;
    var bs := Encode(text);
    TokenLetters(text);
    EncodedBytes(text);
    if !DashFree(EncodeText(text)) {
      var j :| 0 <= j < |EncodeText(text)| && EncodeText(text)[j] == '-';
      DashByte(bs, j);
    }
    if CarriesDash(bs) {
      var i: nat :| i < |bs| && CompletesDash(bs, i);
      var j := DashLetter(bs, i);
    }
  }

  /** Cut at a dash, the rest of a token decodes to no entry. */
  lemma DashRestIsNoEntry(e: Entry, j: nat)
    requires j < |EncodeText(EntryText(e))| && EncodeText(EntryText(e))[j] == '-'
    ensures ReadEntry(DecodeRoutePayload(EncodeText(EntryText(e))[j + 1..])) == None
  {
    hide EntryText, Encode, EncodeText, Letters, FromLetters, UrlLetters, TextBytes, CompletesDash;
    hide DecodeToken, DecodeText, Parse, ReadEntry, ShiftedByFour, ShiftedByTwo, BytesPairFree;
    var bs := Encode(EntryText(e));
    TokenLetters(EntryText(e));
    EntryTextPrintable(e);
    EncodedBytes(EntryText(e));
    DashByte(bs, j);
    RestDecodes(Binary(bs), j + 1);
    NoPayload();
    RestLettersAreNoEntry(e, j);
  }

  lemma NoPayload()
    ensures ReadEntry(None) == None
  {
  }

  lemma RestLettersAreNoEntry(e: Entry, j: nat)
    requires var s := Binary(Encode(EntryText(e)));
             j < |UrlLetters(s)| && UrlLetters(s)[j] == '-' && AllLetters(Letters(s)[j + 1..])
    ensures var s := Binary(Encode(EntryText(e)));
            ReadEntry(Parse(DecodeText(BytesOf(FromLetters(Letters(s)[j + 1..]))))) == None
  {
    hide EntryText, Encode, Letters, FromLetters, TextBytes, CompletesDash;
    hide DecodeText, Parse, ReadEntry, ShiftedByFour, ShiftedByTwo, BytesPairFree;
    var bs := Encode(EntryText(e));
    var s, g := Binary(bs), j / 4 * 3;
    var r := FromLetters(Letters(s)[j + 1..]);
    EntryTextPrintable(e);
    EncodedBytes(EntryText(e));
    DashByte(bs, j);
    if j % 4 == 1 {
      RestAfterSecond(s, j);
      BytesFrom(bs, g + 1);
      FourPairFree(bs[g + 1..], r);
      PairFreeHoldsNoEntry(r);
    } else if j % 4 == 2 {
      RestAfterThird(s, j);
      BytesFrom(bs, g + 2);
      TwoPairFree(bs[g + 2..], r);
      PairFreeHoldsNoEntry(r);
    } else {
      RestAfterFourth(s, j);
      BytesFrom(bs, g + 3);
      WholeBytesAreNoEntry(e, g + 3);
    }
  }

  /**
   Every bare token: without a dash it decodes to its entry, and with one to
   nothing. It has one exactly when some byte of the JSON text completes the six
   bits of the dash.
   */
  lemma BareTokenDecodesIff(e: Entry)
    ensures DecodeEntryRoutePayload(EncodeEntryRoutePayload(e)) ==
              if CarriesDash(Encode(Print(EntryValue(e)))) then None else NormalizedEntry(e)
  {
    hide ReadEntry, Print, Encode, NormalizedEntry, EntryText, EncodeText, DecodeRoutePayload, FirstDash, CarriesDash;
    var token := EncodeText(EntryText(e));
    EntryTextIsPrinted(e);
    EntryTextPrintable(e);
    DashFreeIff(EntryText(e));
    EntryReadsBack(e);
    var dash := FirstDash(token);
    if dash < |token| {
      DashRestIsNoEntry(e, dash);
    }
  }
}
