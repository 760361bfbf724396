/**
 Texts that cannot name a member "source": to write `ou`, JSON needs these two
 letters side by side, or one of them beside the backslash of the other, or the
 `u` of an escape after its backslash. Bytes without these pairs decode to texts
 without them.
 */
module NamelessText {
  import opened Wrappers
  import opened Utf8
  import opened Json
  import opened RoutePayloads

  predicate IsPair(a: nat, b: nat) {
    (a == 0x6F && b == 0x75) || (a == 0x6F && b == 0x5C) || (a == 0x5C && b == 0x75)
  }

  ghost predicate PairFree(t: string) {
    forall i | 0 <= i < |t| - 1 :: !IsPair(t[i] as nat, t[i + 1] as nat)
  }

  ghost predicate BytesPairFree(bs: seq<Byte>) {
    forall i | 0 <= i < |bs| - 1 :: !IsPair(bs[i], bs[i + 1])
  }

  lemma TailPairFree(t: string, k: nat)
    requires PairFree(t) && k <= |t|
    ensures PairFree(t[k..])
  {
  }

  lemma BytesTailPairFree(bs: seq<Byte>)
    requires BytesPairFree(bs) && bs != []
    ensures BytesPairFree(bs[1..])
  {
  }

  // --- Decoding ------------------------------------------------------------

  predicate StartsAscii(t: string) {
    t != [] && t[0] as nat < 0x80
  }

  /** The first character, if it is ASCII, is the first byte. */
  ghost predicate SameStart(bs: seq<Byte>, t: string) {
    StartsAscii(t) ==> bs != [] && bs[0] == t[0] as nat
  }

  lemma ConsPairFree(c: char, bs: seq<Byte>, t: string)
    requires PairFree(t) && SameStart(bs, t)
    requires c as nat >= 0x80 || (bs != [] ==> !IsPair(c as nat, bs[0]))
    ensures PairFree([c] + t)
  {
    var u := [c] + t;
    forall i | 0 <= i < |u| - 1 ensures !IsPair(u[i] as nat, u[i + 1] as nat) {
      if i > 0 {
        assert u[i] == t[i - 1] && u[i + 1] == t[i];
      }
    }
  }

  lemma {:induction false} DecodedPairFree(bs: seq<Byte>)
    requires BytesPairFree(bs)
    ensures PairFree(Decode(bs)) && SameStart(bs, Decode(bs))
    decreases |bs|, 0
  {
    hide PairFree, BytesPairFree;
    if bs == [] {
      EmptyPairFree();
    } else {
      var b := bs[0];
      BytesTailPairFree(bs);
      if b < 0x80 || b < 0xC2 || 0xF5 <= b {
        DecodedPairFree(bs[1..]);
        HeadPair(bs);
        ConsPairFree(if b < 0x80 then b as char else REPLACEMENT, bs[1..], Decode(bs[1..]));
      } else if b < 0xE0 {
        ContinuedPairFree(bs[1..], 1, b - 0xC0, 0x80, 0xBF);
      } else if b < 0xF0 {
        ContinuedPairFree(bs[1..], 2, b - 0xE0, if b == 0xE0 then 0xA0 else 0x80, if b == 0xED then 0x9F else 0xBF);
      } else {
        ContinuedPairFree(bs[1..], 3, b - 0xF0, if b == 0xF0 then 0x90 else 0x80, if b == 0xF4 then 0x8F else 0xBF);
      }
    }
  }

  lemma EmptyPairFree()
    ensures PairFree([]) && PairFree([REPLACEMENT])
  {
  }

  lemma HeadPair(bs: seq<Byte>)
    requires BytesPairFree(bs) && bs != []
    ensures bs[1..] != [] ==> !IsPair(bs[0], bs[1..][0])
  {
  }

  /** The bits read so far rule out a code point below 128. */
  predicate TooLarge(needed: nat, point: nat, low: nat) {
    && (needed == 1 ==> point >= 2)
    && (needed == 2 ==> point >= 1 || low >= 0xA0)
    && (needed == 3 ==> point >= 1 || low >= 0x90)
    && needed <= 3
  }

  lemma {:induction false} ContinuedPairFree(bs: seq<Byte>, needed: nat, point: nat, low: nat, high: nat)
    requires BytesPairFree(bs) && 1 <= needed && 0x80 <= low && TooLarge(needed, point, low)
    ensures var t := Continue(bs, needed, point, low, high); PairFree(t) && !StartsAscii(t)
    decreases |bs|, 1
  {
    hide PairFree, BytesPairFree;
    EmptyPairFree();
    if bs != [] {
      BytesTailPairFree(bs);
      if !(low <= bs[0] <= high) {
        DecodedPairFree(bs);
        ConsPairFree(REPLACEMENT, bs, Decode(bs));
      } else {
        var next := point * 64 + (bs[0] - 0x80);
        if needed == 1 {
          DecodedPairFree(bs[1..]);
          ConsPairFree(Scalar(next), bs[1..], Decode(bs[1..]));
        } else {
          ContinuedPairFree(bs[1..], needed - 1, next, 0x80, 0xBF);
        }
      }
    }
  }

  lemma DecodedTextPairFree(bs: seq<Byte>)
    requires BytesPairFree(bs)
    ensures PairFree(DecodeText(bs))
  {
    DecodedPairFree(bs);
    if Decode(bs) != [] {
      TailPairFree(Decode(bs), 1);
    }
  }

  // --- Parsing -------------------------------------------------------------

  lemma {:induction false} BlanksKeep(t: string)
    requires PairFree(t)
    ensures PairFree(SkipBlanks(t))
  {
    hide PairFree;
    if t != [] && IsBlank(t[0]) {
      TailPairFree(t, 1);
      BlanksKeep(t[1..]);
    }
  }

  lemma SuffixKeeps(t: string, a: string, b: string)
    requires PairFree(t) && t == a + b
    ensures PairFree(b)
  {
    TailPairFree(t, |a|);
    assert t[|a|..] == b;
  }

  lemma FractionKeeps(t: string)
    requires PairFree(t) && SkipFraction(t).Some?
    ensures PairFree(SkipFraction(t).value)
  {
    hide PairFree, TakeDigits;
    var u := t;
    if t != [] && t[0] == '.' {
      TailPairFree(t, 1);
      u := TakeDigits(t[1..]).1;
      SuffixKeeps(t[1..], TakeDigits(t[1..]).0, u);
    }
    if u != [] && (u[0] == 'e' || u[0] == 'E') {
      var signed := if |u| > 1 && (u[1] == '+' || u[1] == '-') then u[2..] else u[1..];
      TailPairFree(u, 1);
      if |u| > 1 {
        TailPairFree(u, 2);
      }
      SuffixKeeps(signed, TakeDigits(signed).0, TakeDigits(signed).1);
    }
  }

  lemma NumberKeeps(t: string)
    requires PairFree(t) && ParseNumber(t).Some?
    ensures PairFree(ParseNumber(t).value.1) && !ParseNumber(t).value.0.Obj?
  {
    hide PairFree, TakeDigits, SkipFraction;
    var u := if t != [] && t[0] == '-' then t[1..] else t;
    if t != [] {
      TailPairFree(t, 1);
    }
    SuffixKeeps(u, TakeDigits(u).0, TakeDigits(u).1);
    FractionKeeps(TakeDigits(u).1);
  }

  lemma EscapeKeeps(t: string)
    requires PairFree(t) && ParseEscape(t).Some?
    ensures PairFree(ParseEscape(t).value.1)
  {
    hide PairFree, CodeUnit;
    TailPairFree(t, 1);
    if |t| >= 5 {
      TailPairFree(t, 5);
    }
    if |t| >= 11 {
      TailPairFree(t, 11);
    }
  }

  /** One character of a string with what it is written as taken off. */
  function NextChar(t: string): (r: Option<(char, string)>)
    requires t != []
  {
    if t[0] == '\\' then ParseEscape(t[1..]) else Some((t[0], t[1..]))
  }

  lemma NextCharKeeps(t: string)
    requires PairFree(t) && t != [] && NextChar(t).Some?
    ensures PairFree(NextChar(t).value.1)
  {
    hide PairFree, ParseEscape;
    TailPairFree(t, 1);
    if t[0] == '\\' {
      EscapeKeeps(t[1..]);
    }
  }

  lemma {:induction false} StringKeeps(t: string)
    requires PairFree(t) && ParseString(t).Some?
    ensures PairFree(ParseString(t).value.1)
    decreases |t|
  {
    hide PairFree, ParseEscape;
    TailPairFree(t, 1);
    if t[0] != '"' {
      NextCharKeeps(t);
      StringKeeps(NextChar(t).value.1);
    }
  }

  lemma FirstPair(t: string)
    requires PairFree(t)
    ensures |t| >= 2 ==> !IsPair(t[0] as nat, t[1] as nat)
  {
  }

  /** Only the escape of its own code point is read as an `o`, and a `u` likewise. */
  lemma EscapedLetter(t: string)
    requires ParseEscape(t).Some? && (ParseEscape(t).value.0 == 'o' || ParseEscape(t).value.0 == 'u')
    ensures t != [] && t[0] == 'u'
  {
    hide CodeUnit;
  }

  lemma NoO(t: string)
    requires PairFree(t) && t != [] && NextChar(t).Some? && NextChar(t).value.0 == 'o'
    ensures t[0] == 'o' && NextChar(t).value.1 == t[1..]
  {
    hide ParseEscape, PairFree;
    FirstPair(t);
    if t[0] == '\\' {
      EscapedLetter(t[1..]);
    }
  }

  lemma UStarts(t: string)
    requires t != [] && NextChar(t).Some? && NextChar(t).value.0 == 'u'
    ensures t[0] == 'u' || t[0] == '\\'
  {
  }

  lemma NameRead(t: string)
    requires ParseString(t).Some? && ParseString(t).value.0 != []
    ensures t != [] && NextChar(t).Some? && ParseString(NextChar(t).value.1).Some?
    ensures ParseString(t).value.0 == [NextChar(t).value.0] + ParseString(NextChar(t).value.1).value.0
  {
    hide ParseEscape;
  }

  /** No string of such a text starts with `ou`. */
  lemma NoOu(t: string)
    requires PairFree(t) && ParseString(t).Some?
    ensures var name := ParseString(t).value.0; !(|name| >= 2 && name[0] == 'o' && name[1] == 'u')
  {
    hide ParseString, NextChar, PairFree;
    var name := ParseString(t).value.0;
    if |name| >= 2 && name[0] == 'o' {
      NameRead(t);
      NoO(t);
      NameRead(t[1..]);
      FirstPair(t);
      if name[1] == 'u' {
        UStarts(t[1..]);
      }
    }
  }

  /** Hence none is `source`. */
  lemma NotSource(t: string)
    requires PairFree(t) && ParseString(t).Some?
    ensures ParseString(t).value.0 != "source"
  {
    hide ParseString, NextChar, PairFree;
    if ParseString(t).value.0 != [] {
      NameRead(t);
      NextCharKeeps(t);
      NoOu(NextChar(t).value.1);
      var name, tail := ParseString(t).value.0, ParseString(NextChar(t).value.1).value.0;
      assert |name| >= 3 ==> name[1] == tail[0] && name[2] == tail[1];
      assert "source"[1] == 'o' && "source"[2] == 'u';
    }
  }

  ghost predicate Nameless(fields: seq<Field>) {
    forall i | 0 <= i < |fields| :: fields[i].name != "source"
  }

  /** What an object says at its top level. */
  ghost predicate NamelessValue(v: Value) {
    v.Obj? ==> Nameless(v.fields)
  }

  lemma CharRest(t: string)
    requires PairFree(t) && t != []
    ensures PairFree(t[1..]) && PairFree(SkipBlanks(t[1..]))
    ensures SkipBlanks(t[1..]) != [] ==> PairFree(SkipBlanks(t[1..])[1..])
  {
    hide PairFree;
    TailPairFree(t, 1);
    BlanksKeep(t[1..]);
    if SkipBlanks(t[1..]) != [] {
      TailPairFree(SkipBlanks(t[1..]), 1);
    }
  }

  lemma WordRest(t: string)
    requires PairFree(t)
    ensures |t| >= 4 ==> PairFree(t[4..])
    ensures |t| >= 5 ==> PairFree(t[5..])
  {
  }

  lemma {:induction false} ValueKeeps(t0: string)
    requires PairFree(t0) && ParseValue(t0).Some?
    ensures PairFree(ParseValue(t0).value.1) && NamelessValue(ParseValue(t0).value.0)
    decreases |t0|, 0
  {
    hide PairFree, ParseString, ParseItems, ParseFields, ParseNumber;
    var t := SkipBlanks(t0);
    BlanksKeep(t0);
    CharRest(t);
    WordRest(t);
    if t[0] == '"' {
      StringKeeps(t[1..]);
    } else if t[0] == '[' {
      if ParseItems(t[1..]).Some? {
        ItemsKeep(t[1..]);
      }
    } else if t[0] == '{' {
      if ParseFields(t[1..]).Some? {
        FieldsKeep(t[1..]);
      }
    } else if !("null" <= t) && !("true" <= t) && !("false" <= t) {
      NumberKeeps(t);
    }
  }

  lemma {:induction false} ItemsKeep(t: string)
    requires PairFree(t) && ParseItems(t).Some?
    ensures PairFree(ParseItems(t).value.1)
    decreases |t|, 1
  {
    hide PairFree, ParseValue;
    ValueKeeps(t);
    var u := SkipBlanks(ParseValue(t).value.1);
    BlanksKeep(ParseValue(t).value.1);
    TailPairFree(u, 1);
    if u[0] == ',' {
      ItemsKeep(u[1..]);
    }
  }

  lemma {:induction false} FieldKeeps(t: string)
    requires PairFree(t) && ParseField(t).Some?
    ensures PairFree(ParseField(t).value.1) && ParseField(t).value.0.name != "source"
    decreases |t|, 1
  {
    hide PairFree, ParseValue, ParseString;
    var u := SkipBlanks(t);
    BlanksKeep(t);
    TailPairFree(u, 1);
    StringKeeps(u[1..]);
    NotSource(u[1..]);
    var w := SkipBlanks(ParseString(u[1..]).value.1);
    BlanksKeep(ParseString(u[1..]).value.1);
    TailPairFree(w, 1);
    ValueKeeps(w[1..]);
  }

  lemma {:induction false} FieldsKeep(t: string)
    requires PairFree(t) && ParseFields(t).Some?
    ensures PairFree(ParseFields(t).value.1) && Nameless(ParseFields(t).value.0)
    decreases |t|, 2
  {
    hide PairFree, ParseField;
    FieldKeeps(t);
    var u := SkipBlanks(ParseField(t).value.1);
    BlanksKeep(ParseField(t).value.1);
    TailPairFree(u, 1);
    if u[0] == ',' {
      FieldsKeep(u[1..]);
    }
  }

  lemma {:induction false} NoSource(fields: seq<Field>)
    requires Nameless(fields)
    ensures Lookup(fields, "source") == None
  {
    if fields != [] {
      NoSource(fields[..|fields| - 1]);
    }
  }

  /** Such a text holds no entry. */
  lemma NamelessIsNoEntry(t: string)
    requires PairFree(t)
    ensures ReadEntry(Parse(t)) == None
  {
    hide PairFree, ParseValue, Lookup;
    if ParseValue(t).Some? {
      ValueKeeps(t);
      if ParseValue(t).value.0.Obj? {
        NoSource(ParseValue(t).value.0.fields);
      }
    }
  }
}
