/**
 The bits of a route token (routePayloads.ts): which letters are dashes, and what
 the letters after one of them decode to. After the second or third letter of a
 group the bytes come out shifted by four or two bits.
 */
module TokenBits {
  import opened Wrappers
  import opened TextUtils
  import opened Base64
  import opened Utf8
  import opened RoutePayloads

  /** The byte at a position, with zeros past the end. */
  function At(s: string, k: nat): (n: nat)
    requires IsBinary(s)
    ensures n < 256
  {
    if k < |s| then s[k] as nat else 0
  }

  /** The six bits behind the letter at position `j`. */
  function SextetAt(s: string, j: nat): (n: nat)
    requires IsBinary(s)
    ensures n < 64
  {
    var g := j / 4 * 3;
    if j % 4 == 0 then At(s, g) / 4
    else if j % 4 == 1 then At(s, g) % 4 * 16 + At(s, g + 1) / 16
    else if j % 4 == 2 then At(s, g + 1) % 16 * 4 + At(s, g + 2) / 64
    else At(s, g + 2) % 64
  }

  lemma SextetAfterGroup(s: string, j: nat)
    requires IsBinary(s) && |s| >= 3 && j >= 4
    ensures SextetAt(s, j) == SextetAt(s[3..], j - 4)
  {
    assert (j - 4) / 4 == j / 4 - 1 && (j - 4) % 4 == j % 4;
    assert forall k: nat :: At(s[3..], k) == At(s, k + 3);
  }

  lemma {:induction false} LetterIs(s: string, j: nat)
    requires IsBinary(s) && j < |Letters(s)|
    ensures Letters(s)[j] == Letter(SextetAt(s, j))
  {
    hide Letter;
    if |s| >= 3 && j >= 4 {
      LetterIs(s[3..], j - 4);
      SextetAfterGroup(s, j);
      assert Letters(s)[j] == Letters(s[3..])[j - 4];
    } else if j == 0 {
    } else if j == 1 {
    } else if j == 2 {
    } else {
    }
  }

  lemma PlusLetter(n: nat)
    requires n < 64
    ensures Letter(n) == '+' <==> n == 62
  {
  }

  lemma DashIff(s: string, j: nat)
    requires IsBinary(s) && j < |UrlLetters(s)|
    ensures UrlLetters(s)[j] == '-' <==> SextetAt(s, j) == 62
  {
    LetterIs(s, j);
    PlusLetter(SextetAt(s, j));
    LettersDecode(s);
    assert Sextet(Letters(s)[j]).Some?;
  }

  // --- Cuts ----------------------------------------------------------------

  lemma CutTwice<T>(s: seq<T>, i: nat, j: nat)
    requires i + j <= |s|
    ensures s[i..][j..] == s[i + j..]
  {
  }

  lemma FirstGroupCut(s: string)
    requires IsBinary(s) && |s| >= 3
    ensures |Letters(s)| >= 4 && Letters(s)[4..] == Letters(s[3..])
  {
  }

  /** Cutting after whole groups of letters cuts after whole groups of bytes. */
  lemma {:induction false} GroupsCut(s: string, k: nat)
    requires IsBinary(s) && 3 * k <= |s|
    ensures 4 * k <= |Letters(s)| && Letters(s)[4 * k..] == Letters(s[3 * k..])
  {
    hide Letters;
    if k == 0 {
      assert s[0..] == s && Letters(s)[0..] == Letters(s);
    } else {
      var i, j := 3 * k - 3, 4 * k - 4;
      GroupsCut(s, k - 1);
      FirstGroupCut(s[i..]);
      CutTwice(s, i, 3);
      CutTwice(Letters(s), j, 4);
    }
  }

  /** What letters decode to once they lost their padding, unless they are one too many. */
  lemma PaddedDecodes(letters: string)
    requires AllLetters(letters)
    ensures var r := Atob(Pad(letters)); r.None? || r == Some(FromLetters(letters))
  {
    var pads := (4 - |letters| % 4) % 4;
    PadsAre(pads);
    if |letters| % 4 == 1 {
      var u := Unpadded(Pad(letters));
      assert u == letters + "=";
      assert Sextet(u[|letters|]).None?;
    } else {
      AtobDropsPads(letters, pads);
    }
  }

  lemma UrlRestOfLetters(letters: string, k: nat)
    requires AllLetters(letters) && k <= |letters|
    ensures AllLetters(letters[k..])
    ensures FromUrl(Replace(Replace(letters, '+', '-'), '/', '_')[k..]) == Pad(letters[k..])
  {
    AlphabetsInvert(letters);
    var url := Replace(Replace(letters, '+', '-'), '/', '_');
    assert Replace(Replace(url[k..], '-', '+'), '_', '/') == letters[k..];
  }

  /** The end of a token, read as a token, gives nothing or what its letters decode to. */
  lemma RestDecodes(s: string, k: nat)
    requires IsBinary(s) && k <= |UrlLetters(s)|
    ensures AllLetters(Letters(s)[k..])
    ensures var r := DecodeToken(UrlLetters(s)[k..]);
            r.None? || r == Some(DecodeText(BytesOf(FromLetters(Letters(s)[k..]))))
  {
    hide Letters, FromLetters, Pad, FromUrl, Atob, DecodeText;
    LettersDecode(s);
    UrlRestOfLetters(Letters(s), k);
    PaddedDecodes(Letters(s)[k..]);
    TokenIsUrlLetters(s);
    var rest := UrlLetters(s)[k..];
    if rest != [] {
      TokenTrims(rest);
    } else {
      TrimFixed(rest);
    }
  }

  // --- Shifted bytes -------------------------------------------------------

  /** The bytes of `s` from the low four bits of its first byte on. */
  ghost predicate ShiftedByFour(s: string, r: string) {
    && IsBinary(s) && IsBinary(r)
    && forall k | 0 <= k < |r| :: r[k] as nat == At(s, k) % 16 * 16 + At(s, k + 1) / 16
  }

  /** The bytes of `s` from the low six bits of its first byte on. */
  ghost predicate ShiftedByTwo(s: string, r: string) {
    && IsBinary(s) && IsBinary(r)
    && forall k | 0 <= k < |r| :: r[k] as nat == At(s, k) % 64 * 4 + At(s, k + 1) / 64
  }

  lemma FourBits(b: nat, c: nat, d: nat, e: nat)
    requires b < 256 && c < 256 && d < 256 && e < 256
    ensures (b % 16 * 4 + c / 64) * 4 + c % 64 / 16 == b % 16 * 16 + c / 16
    ensures c % 64 % 16 * 16 + d / 4 / 4 == c % 16 * 16 + d / 16
    ensures d / 4 % 4 * 64 + (d % 4 * 16 + e / 16) == d % 16 * 16 + e / 16
  {
  }

  lemma TwoBits(c: nat, d: nat, e: nat, f: nat)
    requires c < 256 && d < 256 && e < 256 && f < 256
    ensures c % 64 * 4 + d / 4 / 16 == c % 64 * 4 + d / 64
    ensures d / 4 % 16 * 16 + (d % 4 * 16 + e / 16) / 4 == d % 64 * 4 + e / 64
    ensures (d % 4 * 16 + e / 16) % 4 * 64 + (e % 16 * 4 + f / 64) == e % 64 * 4 + f / 64
  {
  }

  /** Three bytes in front of a shifted rest. */
  lemma FourBitsInFront(s: string, three: string, r: string)
    requires IsBinary(s) && |s| >= 3 && |three| == 3 && IsBinary(three) && ShiftedByFour(s[3..], r)
    requires forall k | 0 <= k < 3 :: three[k] as nat == At(s, k) % 16 * 16 + At(s, k + 1) / 16
    ensures ShiftedByFour(s, three + r)
  {
    assert forall k: nat :: At(s[3..], k) == At(s, k + 3);
    hide At;
    forall k | 3 <= k < |three + r| ensures (three + r)[k] as nat == At(s, k) % 16 * 16 + At(s, k + 1) / 16 {
      assert (three + r)[k] == r[k - 3] && At(s[3..], k - 3) == At(s, k) && At(s[3..], k - 2) == At(s, k + 1);
    }
  }

  lemma TwoBitsInFront(s: string, three: string, r: string)
    requires IsBinary(s) && |s| >= 3 && |three| == 3 && IsBinary(three) && ShiftedByTwo(s[3..], r)
    requires forall k | 0 <= k < 3 :: three[k] as nat == At(s, k) % 64 * 4 + At(s, k + 1) / 64
    ensures ShiftedByTwo(s, three + r)
  {
    assert forall k: nat :: At(s[3..], k) == At(s, k + 3);
    hide At;
    forall k | 3 <= k < |three + r| ensures (three + r)[k] as nat == At(s, k) % 64 * 4 + At(s, k + 1) / 64 {
      assert (three + r)[k] == r[k - 3] && At(s[3..], k - 3) == At(s, k) && At(s[3..], k - 2) == At(s, k + 1);
    }
  }

  /** The first letters of a text, with zeros for bytes that are not there. */
  lemma LettersStart(s: string)
    requires IsBinary(s)
    ensures |s| >= 1 ==> |Letters(s)| >= 2 && Letters(s)[0] == Letter(At(s, 0) / 4)
                         && Letters(s)[1] == Letter(At(s, 0) % 4 * 16 + At(s, 1) / 16)
    ensures |s| >= 2 ==> |Letters(s)| >= 3 && Letters(s)[2] == Letter(At(s, 1) % 16 * 4 + At(s, 2) / 64)
  {
    if |s| >= 1 {
      LetterIs(s, 0);
      LetterIs(s, 1);
    }
    if |s| >= 2 {
      LetterIs(s, 2);
    }
    hide Letters, Letter, At;
  }

  lemma LettersAfter(s: string)
    requires IsBinary(s) && |s| >= 3
    ensures |Letters(s)| >= 4 && Letters(s)[3..] == [Letter(At(s, 2) % 64)] + Letters(s[3..])
  {
    LetterIs(s, 3);
    FirstGroupCut(s);
    hide Letters, Letter, At;
  }

  lemma AtTail(s: string, i: nat)
    requires IsBinary(s) && i <= |s|
    ensures forall k: nat :: At(s[i..], k) == At(s, k + i)
  {
  }

  /** What two letters and those of further bytes decode to: the bytes from the middle of the first on. */
  lemma {:induction false} ByFour(s: string)
    requires IsBinary(s) && |s| >= 2
    ensures var t := [Letter(At(s, 0) % 16 * 4 + At(s, 1) / 64), Letter(At(s, 1) % 64)] + Letters(s[2..]);
            AllLetters(t) && ShiftedByFour(s, FromLetters(t))
  {
    hide Letters, Letter, FromLetters, At, AllLetters, ShiftedByFour;
    if |s| == 2 {
      ByFourOfTwo(s);
    } else {
      var rest := s[2..];
      var more := Letters(rest)[2..];
      LettersStart(rest);
      if |s| == 3 {
        assert more == [];
        FromNone();
        NothingShifted(s[3..]);
      } else if |s| == 4 {
        assert more == [Letter(At(rest, 1) % 16 * 4 + At(rest, 2) / 64)];
        FromOne(At(rest, 1) % 16 * 4 + At(rest, 2) / 64);
        NothingShifted(s[3..]);
      } else {
        ByFour(s[3..]);
        LettersAfter(rest);
        AtTail(s, 2);
        AtTail(s, 3);
        assert s[3..][2..] == rest[3..];
        assert more == [Letter(At(rest, 1) % 16 * 4 + At(rest, 2) / 64), Letter(At(rest, 2) % 64)] + Letters(rest[3..]);
      }
      ByFourStep(s, more);
    }
  }

  lemma NothingShifted(s: string)
    requires IsBinary(s)
    ensures ShiftedByFour(s, []) && ShiftedByTwo(s, [])
  {
  }

  lemma ByFourOfTwo(s: string)
    requires IsBinary(s) && |s| == 2
    ensures var t := [Letter(At(s, 0) % 16 * 4 + At(s, 1) / 64), Letter(At(s, 1) % 64)] + Letters(s[2..]);
            AllLetters(t) && ShiftedByFour(s, FromLetters(t))
  {
    hide Letters, Letter, FromLetters, At, AllLetters;
    var x, y := At(s, 0) % 16 * 4 + At(s, 1) / 64, At(s, 1) % 64;
    FourBits(At(s, 0), At(s, 1), 0, 0);
    FromTwo(x, y);
    assert [Letter(x), Letter(y)] + Letters(s[2..]) == [Letter(x), Letter(y)];
  }

  /** Two letters, the first two of the further bytes, and the shifted rest. */
  lemma ByFourStep(s: string, more: string)
    requires IsBinary(s) && |s| >= 3 && more == Letters(s[2..])[2..]
    requires AllLetters(more) && ShiftedByFour(s[3..], FromLetters(more))
    ensures var t := [Letter(At(s, 0) % 16 * 4 + At(s, 1) / 64), Letter(At(s, 1) % 64)] + Letters(s[2..]);
            AllLetters(t) && ShiftedByFour(s, FromLetters(t))
  {
    hide Letters, Letter, FromLetters, At, AllLetters, ShiftedByFour;
    var x, y := At(s, 0) % 16 * 4 + At(s, 1) / 64, At(s, 1) % 64;
    var z, w := At(s, 2) / 4, At(s, 2) % 4 * 16 + At(s, 3) / 16;
    var t := [Letter(x), Letter(y)] + Letters(s[2..]);
    AtTail(s, 2);
    LettersStart(s[2..]);
    assert t == [Letter(x), Letter(y), Letter(z), Letter(w)] + more;
    FourBits(At(s, 0), At(s, 1), At(s, 2), At(s, 3));
    FromFour(x, y, z, w, more);
    FourBitsInFront(s, FromLetters(t)[..3], FromLetters(more));
  }

  /** What one letter and those of further bytes decode to: the bytes from the third bit of the first on. */
  lemma {:induction false} ByTwo(s: string)
    requires IsBinary(s) && |s| >= 1
    ensures var t := [Letter(At(s, 0) % 64)] + Letters(s[1..]); AllLetters(t) && ShiftedByTwo(s, FromLetters(t))
  {
    hide Letters, Letter, FromLetters, At, AllLetters, ShiftedByTwo;
    if |s| <= 2 {
      ByTwoOfFew(s);
    } else {
      var rest := s[1..];
      var more := Letters(rest)[3..];
      LettersStart(rest);
      if |s| == 3 {
        assert more == [];
        FromNone();
        NothingShifted(s[3..]);
      } else {
        ByTwo(s[3..]);
        LettersAfter(rest);
        AtTail(s, 1);
        AtTail(s, 3);
        assert s[3..][1..] == rest[3..];
      }
      ByTwoStep(s, more);
    }
  }

  lemma ByTwoOfFew(s: string)
    requires IsBinary(s) && 1 <= |s| <= 2
    ensures var t := [Letter(At(s, 0) % 64)] + Letters(s[1..]); AllLetters(t) && ShiftedByTwo(s, FromLetters(t))
  {
    hide Letters, Letter, FromLetters, At, AllLetters;
    var x := At(s, 0) % 64;
    var t := [Letter(x)] + Letters(s[1..]);
    if |s| == 1 {
      assert t == [Letter(x)];
      FromOne(x);
    } else {
      var y, z := At(s, 1) / 4, At(s, 1) % 4 * 16 + At(s, 2) / 16;
      AtTail(s, 1);
      LettersStart(s[1..]);
      TwoBits(At(s, 0), At(s, 1), At(s, 2), 0);
      assert t == [Letter(x), Letter(y), Letter(z)];
      FromThree(x, y, z);
    }
  }

  lemma ByTwoStep(s: string, more: string)
    requires IsBinary(s) && |s| >= 3 && |Letters(s[1..])| >= 3 && more == Letters(s[1..])[3..]
    requires AllLetters(more) && ShiftedByTwo(s[3..], FromLetters(more))
    ensures var t := [Letter(At(s, 0) % 64)] + Letters(s[1..]); AllLetters(t) && ShiftedByTwo(s, FromLetters(t))
  {
    hide Letters, Letter, FromLetters, At, AllLetters, ShiftedByTwo;
    var x, y, z, w := At(s, 0) % 64, At(s, 1) / 4, At(s, 1) % 4 * 16 + At(s, 2) / 16, At(s, 2) % 16 * 4 + At(s, 3) / 64;
    var t := [Letter(x)] + Letters(s[1..]);
    AtTail(s, 1);
    LettersStart(s[1..]);
    assert t == [Letter(x), Letter(y), Letter(z), Letter(w)] + more;
    TwoBits(At(s, 0), At(s, 1), At(s, 2), At(s, 3));
    FromFour(x, y, z, w, more);
    TwoBitsInFront(s, FromLetters(t)[..3], FromLetters(more));
  }

  // --- The rest of a token after a dash ------------------------------------

  /** From the start of the group with the letter `j`, the bytes of a token. */
  lemma GroupOf(s: string, j: nat)
    requires IsBinary(s) && j < |Letters(s)|
    ensures var g := j / 4 * 3; g < |s| && (j % 4 >= 2 ==> g + 1 < |s|) && (j % 4 == 3 ==> g + 2 < |s|)
  {
    assert j == j / 4 * 4 + j % 4;
  }

  lemma LettersFrom(s: string, j: nat)
    requires IsBinary(s) && j < |Letters(s)|
    ensures var g := j / 4 * 3; g < |s| && Letters(s)[j + 1..] == Letters(s[g..])[j % 4 + 1..]
  {
    hide Letters;
    GroupOf(s, j);
    GroupsCut(s, j / 4);
    CutTwice(Letters(s), j / 4 * 4, j % 4 + 1);
  }

  /** After the fourth letter of a group the rest of the token holds whole bytes. */
  lemma RestAfterFourth(s: string, j: nat)
    requires IsBinary(s) && j < |Letters(s)| && j % 4 == 3
    ensures AllLetters(Letters(s)[j + 1..])
    ensures var m := (j / 4 + 1) * 3; m <= |s| && FromLetters(Letters(s)[j + 1..]) == s[m..]
  {
    hide Letters, FromLetters;
    GroupOf(s, j);
    GroupsCut(s, j / 4 + 1);
    LettersDecode(s[(j / 4 + 1) * 3..]);
  }

  lemma LettersOfTwo(t: string)
    requires IsBinary(t) && |t| == 2
    ensures |Letters(t)| == 3 && AllLetters(Letters(t)[2..]) && FromLetters(Letters(t)[2..]) == []
  {
    hide Letters, Letter, At, FromLetters;
    LettersStart(t);
    FromOne(At(t, 1) % 16 * 4 + At(t, 2) / 64);
    assert Letters(t)[2..] == [Letter(At(t, 1) % 16 * 4 + At(t, 2) / 64)];
  }

  /** After its second letter the bytes come out shifted by four bits. */
  lemma RestAfterSecond(s: string, j: nat)
    requires IsBinary(s) && j < |Letters(s)| && j % 4 == 1 && j / 4 * 3 + 1 < |s|
    ensures AllLetters(Letters(s)[j + 1..])
    ensures ShiftedByFour(s[j / 4 * 3 + 1..], FromLetters(Letters(s)[j + 1..]))
  {
    hide Letters, FromLetters, Letter, At;
    LettersFrom(s, j);
    var t := s[j / 4 * 3..];
    if |t| == 2 {
      LettersOfTwo(t);
    } else {
      LettersStart(t);
      LettersAfter(t);
      AtTail(t, 1);
      assert t[1..][2..] == t[3..];
      assert Letters(t)[2..] == [Letter(At(t, 1) % 16 * 4 + At(t, 2) / 64), Letter(At(t, 2) % 64)] + Letters(t[3..]);
      ByFour(t[1..]);
    }
    CutTwice(s, j / 4 * 3, 1);
  }

  /** After its third letter they come out shifted by two. */
  lemma RestAfterThird(s: string, j: nat)
    requires IsBinary(s) && j < |Letters(s)| && j % 4 == 2 && j / 4 * 3 + 2 < |s|
    ensures AllLetters(Letters(s)[j + 1..])
    ensures ShiftedByTwo(s[j / 4 * 3 + 2..], FromLetters(Letters(s)[j + 1..]))
  {
    hide Letters, FromLetters, Letter, At;
    LettersFrom(s, j);
    var t := s[j / 4 * 3..];
    LettersAfter(t);
    AtTail(t, 2);
    assert t[2..][1..] == t[3..];
    ByTwo(t[2..]);
    CutTwice(s, j / 4 * 3, 2);
  }
}
