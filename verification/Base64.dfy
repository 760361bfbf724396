/**
 Base64 (section 4 of RFC 4648) with the platform's `btoa` and forgiving `atob`,
 and the unpadded URL alphabet (section 5) of the route tokens. A binary string
 has one character per byte.
 */
module Base64 {
  import opened Wrappers

  predicate IsBinary(s: string) {
    forall i | 0 <= i < |s| :: s[i] as nat < 256
  }

  // --- Alphabet ------------------------------------------------------------

  function Letter(n: nat): (c: char)
    requires n < 64
  {
    if n < 26 then (65 + n) as char
    else if n < 52 then (71 + n) as char
    else if n < 62 then (n - 4) as char
    else if n == 62 then '+' else '/'
  }

  function Sextet(c: char): (r: Option<nat>)
    ensures r.Some? ==> r.value < 64
  {
    if 'A' <= c <= 'Z' then Some(c as nat - 65)
    else if 'a' <= c <= 'z' then Some(c as nat - 71)
    else if '0' <= c <= '9' then Some(c as nat + 4)
    else if c == '+' then Some(62)
    else if c == '/' then Some(63)
    else None
  }

  lemma SextetOfLetter(n: nat)
    requires n < 64
    ensures Sextet(Letter(n)) == Some(n) && Letter(n) != '=' && Letter(n) != '-' && Letter(n) != '_'
  {
  }

  // --- btoa and atob -------------------------------------------------------

  /** The letters of `btoa` without its padding. */
  function Letters(s: string): (r: string)
    requires IsBinary(s)
    ensures |r| == (4 * |s| + 2) / 3
  {
    if s == [] then []
    else
      var a := s[0] as nat;
      if |s| == 1 then [Letter(a / 4), Letter(a % 4 * 16)]
      else
        var b := s[1] as nat;
        if |s| == 2 then [Letter(a / 4), Letter(a % 4 * 16 + b / 16), Letter(b % 16 * 4)]
        else
          var c := s[2] as nat;
          [Letter(a / 4), Letter(a % 4 * 16 + b / 16), Letter(b % 16 * 4 + c / 64), Letter(c % 64)] + Letters(s[3..])
  }

  function Pads(n: nat): string {
    if n == 0 then "" else "=" + Pads(n - 1)
  }

  function PadCount(length: nat): (n: nat)
    ensures n < 3
  {
    (3 - length % 3) % 3
  }

  function Btoa(s: string): string
    requires IsBinary(s)
  {
    Letters(s) + Pads(PadCount(|s|))
  }

  predicate AllLetters(t: string) {
    forall i | 0 <= i < |t| :: Sextet(t[i]).Some?
  }

  /** Decodes letters; a rest of two or three letters gives one or two bytes. */
  function FromLetters(t: string): (r: string)
    requires AllLetters(t)
    ensures IsBinary(r)
  {
    if |t| < 2 then []
    else
      var a, b := Sextet(t[0]).value, Sextet(t[1]).value;
      if |t| == 2 then [(a * 4 + b / 16) as char]
      else
        var c := Sextet(t[2]).value;
        if |t| == 3 then [(a * 4 + b / 16) as char, (b % 16 * 16 + c / 4) as char]
        else
          var d := Sextet(t[3]).value;
          [(a * 4 + b / 16) as char, (b % 16 * 16 + c / 4) as char, (c % 4 * 64 + d) as char] + FromLetters(t[4..])
  }

  /** Forgiving decoding drops one or two pads at the end of whole groups. */
  function Unpadded(t: string): string {
    if |t| % 4 == 0 && |t| > 0 && t[|t| - 1] == '=' then
      if t[|t| - 2] == '=' then t[..|t| - 2] else t[..|t| - 1]
    else t
  }

  function Atob(t: string): (r: Option<string>)
    ensures r.Some? ==> IsBinary(r.value)
  {
    var u := Unpadded(t);
    if |u| % 4 == 1 || !AllLetters(u) then None else Some(FromLetters(u))
  }

  lemma Regroup(a: nat, b: nat, c: nat)
    requires a < 256 && b < 256 && c < 256
    ensures a / 4 < 64 && a % 4 * 16 + b / 16 < 64 && b % 16 * 4 + c / 64 < 64
    ensures (a / 4) * 4 + (a % 4 * 16 + b / 16) / 16 == a
    ensures (a % 4 * 16 + b / 16) % 16 * 16 + (b % 16 * 4 + c / 64) / 4 == b
    ensures (b % 16 * 4 + c / 64) % 4 * 64 + c % 64 == c
  {
  }

  /** Two letters decode to one byte, and four to three bytes before the rest. */
  lemma FromTwo(x: nat, y: nat)
    requires x < 64 && y < 64
    ensures var t := [Letter(x), Letter(y)]; AllLetters(t) && FromLetters(t) == [(x * 4 + y / 16) as char]
  {
    SextetOfLetter(x);
    SextetOfLetter(y);
  }

  lemma FromThree(x: nat, y: nat, z: nat)
    requires x < 64 && y < 64 && z < 64
    ensures var t := [Letter(x), Letter(y), Letter(z)];
            AllLetters(t) && FromLetters(t) == [(x * 4 + y / 16) as char, (y % 16 * 16 + z / 4) as char]
  {
    SextetOfLetter(x);
    SextetOfLetter(y);
    SextetOfLetter(z);
  }

  lemma FromFour(x: nat, y: nat, z: nat, w: nat, rest: string)
    requires x < 64 && y < 64 && z < 64 && w < 64 && AllLetters(rest)
    ensures var t := [Letter(x), Letter(y), Letter(z), Letter(w)] + rest;
            && AllLetters(t)
            && FromLetters(t) == [(x * 4 + y / 16) as char, (y % 16 * 16 + z / 4) as char, (z % 4 * 64 + w) as char] + FromLetters(rest)
  {
    SextetOfLetter(x);
    SextetOfLetter(y);
    SextetOfLetter(z);
    SextetOfLetter(w);
    hide Letter, Sextet;
    var t := [Letter(x), Letter(y), Letter(z), Letter(w)] + rest;
    assert t[4..] == rest;
    assert forall i | 4 <= i < |t| :: t[i] == rest[i - 4];
  }

  lemma FromNone()
    ensures AllLetters([]) && FromLetters([]) == []
  {
  }

  lemma FromOne(x: nat)
    requires x < 64
    ensures AllLetters([Letter(x)]) && FromLetters([Letter(x)]) == []
  {
    SextetOfLetter(x);
  }

  lemma GroupDecodes(a: nat, b: nat, c: nat, rest: string)
    requires a < 256 && b < 256 && c < 256 && AllLetters(rest)
    ensures var t := [Letter(a / 4), Letter(a % 4 * 16 + b / 16), Letter(b % 16 * 4 + c / 64), Letter(c % 64)] + rest;
            AllLetters(t) && FromLetters(t) == [a as char, b as char, c as char] + FromLetters(rest)
  {
    hide Letter, FromLetters, AllLetters;
    Regroup(a, b, c);
    FromFour(a / 4, a % 4 * 16 + b / 16, b % 16 * 4 + c / 64, c % 64, rest);
  }

  lemma OneByteDecodes(a: nat)
    requires a < 256
    ensures var t := [Letter(a / 4), Letter(a % 4 * 16)]; AllLetters(t) && FromLetters(t) == [a as char]
  {
    hide Letter, FromLetters, AllLetters;
    Regroup(a, 0, 0);
    FromTwo(a / 4, a % 4 * 16);
  }

  lemma TwoBytesDecode(a: nat, b: nat)
    requires a < 256 && b < 256
    ensures var t := [Letter(a / 4), Letter(a % 4 * 16 + b / 16), Letter(b % 16 * 4)];
            AllLetters(t) && FromLetters(t) == [a as char, b as char]
  {
    hide Letter, FromLetters, AllLetters;
    Regroup(a, b, 0);
    FromThree(a / 4, a % 4 * 16 + b / 16, b % 16 * 4);
  }

  lemma LettersCons(s: string)
    requires IsBinary(s) && |s| >= 3
    ensures var a, b, c := s[0] as nat, s[1] as nat, s[2] as nat;
            Letters(s) == [Letter(a / 4), Letter(a % 4 * 16 + b / 16), Letter(b % 16 * 4 + c / 64), Letter(c % 64)] + Letters(s[3..])
  {
    hide Letter;
  }

  lemma ShortLettersDecode(s: string)
    requires IsBinary(s) && |s| < 3
    ensures AllLetters(Letters(s)) && FromLetters(Letters(s)) == s
  {
    hide Letter, FromLetters, AllLetters;
    if |s| == 0 {
      FromNone();
    } else if |s| == 1 {
      OneByteDecodes(s[0] as nat);
      assert s == [s[0]];
    } else {
      TwoBytesDecode(s[0] as nat, s[1] as nat);
      assert s == [s[0], s[1]];
    }
  }

  lemma {:induction false} LettersDecode(s: string)
    requires IsBinary(s)
    ensures AllLetters(Letters(s)) && FromLetters(Letters(s)) == s
  {
    hide Letters, Letter, FromLetters, AllLetters;
    if |s| < 3 {
      ShortLettersDecode(s);
    } else {
      LettersDecode(s[3..]);
      LettersCons(s);
      GroupDecodes(s[0] as nat, s[1] as nat, s[2] as nat, Letters(s[3..]));
      assert s == [s[0], s[1], s[2]] + s[3..];
    }
  }

  lemma {:induction false} PadsAre(n: nat)
    ensures |Pads(n)| == n && forall i | 0 <= i < n :: Pads(n)[i] == '='
  {
    if n > 0 {
      PadsAre(n - 1);
    }
  }

  lemma PadsDropped(letters: string, pads: nat)
    requires pads <= 2 && (|letters| + pads) % 4 == 0 && (letters != [] ==> letters[|letters| - 1] != '=')
    requires |letters| % 4 != 1 && (letters == [] ==> pads == 0)
    ensures Unpadded(letters + Pads(pads)) == letters
  {
    var t := letters + Pads(pads);
    PadsAre(pads);
    hide Pads;
    assert t[..|letters|] == letters;
  }

  lemma AtobDropsPads(letters: string, pads: nat)
    requires AllLetters(letters) && pads <= 2 && (|letters| + pads) % 4 == 0 && (pads > 0 ==> |letters| > 0)
    ensures Atob(letters + Pads(pads)) == Some(FromLetters(letters))
  {
    hide FromLetters, Pads, Unpadded;
    assert letters != [] ==> Sextet(letters[|letters| - 1]).Some?;
    PadsDropped(letters, pads);
  }

  lemma PaddingLength(n: nat)
    ensures ((4 * n + 2) / 3 + PadCount(n)) % 4 == 0
  {
    var q, r := n / 3, n % 3;
    assert n == 3 * q + r;
    assert (4 * n + 2) / 3 == 4 * q + (4 * r + 2) / 3;
  }

  lemma AtobInvertsBtoa(s: string)
    requires IsBinary(s)
    ensures Atob(Btoa(s)) == Some(s)
  {
    hide FromLetters, Pads, AllLetters, Atob;
    LettersDecode(s);
    PaddingLength(|s|);
    AtobDropsPads(Letters(s), PadCount(|s|));
  }

  // --- The URL alphabet ----------------------------------------------------

  function Replace(s: string, from: char, to: char): (r: string)
    ensures |r| == |s| && forall i | 0 <= i < |s| :: r[i] == if s[i] == from then to else s[i]
  {
    seq(|s|, i requires 0 <= i < |s| => if s[i] == from then to else s[i])
  }

  function StripPadding(s: string): string {
    if s != [] && s[|s| - 1] == '=' then StripPadding(s[..|s| - 1]) else s
  }

  /** `padEnd` to the next multiple of four. */
  function Pad(s: string): string {
    s + Pads((4 - |s| % 4) % 4)
  }

  function ToUrl(base64: string): string {
    StripPadding(Replace(Replace(base64, '+', '-'), '/', '_'))
  }

  function FromUrl(token: string): string {
    Pad(Replace(Replace(token, '-', '+'), '_', '/'))
  }

  predicate IsTokenChar(c: char) {
    'A' <= c <= 'Z' || 'a' <= c <= 'z' || '0' <= c <= '9' || c == '_' || c == '-'
  }

  lemma {:induction false} StripPads(s: string, n: nat)
    requires s == [] || s[|s| - 1] != '='
    ensures StripPadding(s + Pads(n)) == s
    decreases n
  {
    PadsAre(n);
    if n == 0 {
      assert s + Pads(0) == s;
    } else {
      var t := s + Pads(n);
      PadsAre(n - 1);
      assert t[..|t| - 1] == s + Pads(n - 1);
      StripPads(s, n - 1);
    }
  }

  /** The letters of a binary string in the URL alphabet. */
  function UrlLetters(s: string): (r: string)
    requires IsBinary(s)
    ensures |r| == (4 * |s| + 2) / 3
  {
    Replace(Replace(Letters(s), '+', '-'), '/', '_')
  }

  lemma TokenIsUrlLetters(s: string)
    requires IsBinary(s)
    ensures ToUrl(Btoa(s)) == UrlLetters(s)
    ensures forall i | 0 <= i < |UrlLetters(s)| :: IsTokenChar(UrlLetters(s)[i])
  {
    var pads := PadCount(|s|);
    LettersDecode(s);
    PadsAre(pads);
    assert Replace(Replace(Btoa(s), '+', '-'), '/', '_') == UrlLetters(s) + Pads(pads);
    StripPads(UrlLetters(s), pads);
  }

  lemma AlphabetsInvert(letters: string)
    requires AllLetters(letters)
    ensures Replace(Replace(Replace(Replace(letters, '+', '-'), '/', '_'), '-', '+'), '_', '/') == letters
  {
    forall i | 0 <= i < |letters| ensures letters[i] != '-' && letters[i] != '_' {
      assert Sextet(letters[i]).Some?;
    }
  }

  lemma PadCompletes(letters: string, pads: nat)
    requires pads < 4 && (|letters| + pads) % 4 == 0
    ensures Pad(letters) == letters + Pads(pads)
  {
    assert (4 - |letters| % 4) % 4 == pads;
  }

  lemma FromUrlOfLetters(letters: string, pads: nat)
    requires AllLetters(letters) && pads < 4 && (|letters| + pads) % 4 == 0
    ensures FromUrl(Replace(Replace(letters, '+', '-'), '/', '_')) == letters + Pads(pads)
  {
    AlphabetsInvert(letters);
    PadCompletes(letters, pads);
  }

  lemma FromUrlInvertsToUrl(s: string)
    requires IsBinary(s)
    ensures FromUrl(ToUrl(Btoa(s))) == Btoa(s)
  {
    hide Letters, FromLetters, Pads, FromUrl, ToUrl, PadCount, IsTokenChar, AllLetters;
    TokenIsUrlLetters(s);
    LettersDecode(s);
    PaddingLength(|s|);
    FromUrlOfLetters(Letters(s), PadCount(|s|));
  }

  /** Stripping the padding and switching alphabets loses nothing. */
  lemma TokenDecodes(s: string)
    requires IsBinary(s)
    ensures Atob(FromUrl(ToUrl(Btoa(s)))) == Some(s)
  {
    FromUrlInvertsToUrl(s);
    AtobInvertsBtoa(s);
  }
}
