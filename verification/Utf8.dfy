/**
 UTF-8 (section 3 of RFC 3629): the platform's TextEncoder, and its TextDecoder,
 which replaces malformed input and drops one leading byte order mark.
 */
module Utf8 {

  type Byte = n: nat | n < 256

  const REPLACEMENT := '\U{FFFD}'
  const BYTE_ORDER_MARK := '\U{FEFF}'

  function EncodeChar(c: char): (r: seq<Byte>)
    ensures 1 <= |r| <= 4
  {
    var n := c as nat;
    if n < 0x80 then [n]
    else if n < 0x800 then [0xC0 + n / 64, 0x80 + n % 64]
    else if n < 0x10000 then [0xE0 + n / 4096, 0x80 + n / 64 % 64, 0x80 + n % 64]
    else [0xF0 + n / 262144, 0x80 + n / 4096 % 64, 0x80 + n / 64 % 64, 0x80 + n % 64]
  }

  function Encode(s: string): seq<Byte> {
    if s == [] then [] else EncodeChar(s[0]) + Encode(s[1..])
  }

  function Scalar(n: nat): char {
    if n < 0xD800 || 0xE000 <= n < 0x110000 then n as char else REPLACEMENT
  }

  function Decode(bs: seq<Byte>): string
    decreases |bs|, 0
  {
    if bs == [] then [] else
      var b := bs[0];
      if b < 0x80 then [b as char] + Decode(bs[1..])
      else if 0xC2 <= b < 0xE0 then Continue(bs[1..], 1, b - 0xC0, 0x80, 0xBF)
      else if 0xE0 <= b < 0xF0 then
        Continue(bs[1..], 2, b - 0xE0, if b == 0xE0 then 0xA0 else 0x80, if b == 0xED then 0x9F else 0xBF)
      else if 0xF0 <= b < 0xF5 then
        Continue(bs[1..], 3, b - 0xF0, if b == 0xF0 then 0x90 else 0x80, if b == 0xF4 then 0x8F else 0xBF)
      else [REPLACEMENT] + Decode(bs[1..])
  }

  /** Inside a sequence: `needed` more bytes, the next one between `low` and `high`. */
  function Continue(bs: seq<Byte>, needed: nat, point: nat, low: nat, high: nat): string
    requires 1 <= needed && 0x80 <= low
    decreases |bs|, 1
  {
    if bs == [] then [REPLACEMENT]
    else if !(low <= bs[0] <= high) then [REPLACEMENT] + Decode(bs)
    else
      var next := point * 64 + (bs[0] - 0x80);
      if needed == 1 then [Scalar(next)] + Decode(bs[1..])
      else Continue(bs[1..], needed - 1, next, 0x80, 0xBF)
  }

  function DecodeText(bs: seq<Byte>): string {
    var s := Decode(bs);
    if s != [] && s[0] == BYTE_ORDER_MARK then s[1..] else s
  }

  /** The last bytes of a sequence, read from the middle. */
  lemma LastByte(n: nat, rest: seq<Byte>)
    requires n < 0xD800 || 0xE000 <= n < 0x110000
    ensures Continue([0x80 + n % 64] + rest, 1, n / 64, 0x80, 0xBF) == [n as char] + Decode(rest)
  {
    assert ([0x80 + n % 64] + rest)[1..] == rest;
    assert n / 64 * 64 + n % 64 == n;
  }

  lemma LastTwoBytes(n: nat, low: nat, high: nat, rest: seq<Byte>)
    requires n < 0xD800 || 0xE000 <= n < 0x110000
    requires 0x80 <= low <= 0x80 + n / 64 % 64 <= high
    ensures Continue([0x80 + n / 64 % 64, 0x80 + n % 64] + rest, 2, n / 4096, low, high) == [n as char] + Decode(rest)
  {
    var t := [0x80 + n / 64 % 64, 0x80 + n % 64] + rest;
    assert t[1..] == [0x80 + n % 64] + rest;
    assert n / 4096 * 64 + n / 64 % 64 == n / 64;
    LastByte(n, rest);
  }

  lemma LastThreeBytes(n: nat, low: nat, high: nat, rest: seq<Byte>)
    requires 0x10000 <= n < 0x110000
    requires 0x80 <= low <= 0x80 + n / 4096 % 64 <= high
    ensures Continue([0x80 + n / 4096 % 64, 0x80 + n / 64 % 64, 0x80 + n % 64] + rest, 3, n / 262144, low, high)
            == [n as char] + Decode(rest)
  {
    var t := [0x80 + n / 4096 % 64, 0x80 + n / 64 % 64, 0x80 + n % 64] + rest;
    assert t[1..] == [0x80 + n / 64 % 64, 0x80 + n % 64] + rest;
    assert n / 262144 * 64 + n / 4096 % 64 == n / 4096;
    LastTwoBytes(n, 0x80, 0xBF, rest);
  }

  lemma ThreeByteChar(c: char, rest: seq<Byte>)
    requires 0x800 <= c as nat < 0x10000
    ensures Decode(EncodeChar(c) + rest) == [c] + Decode(rest)
  {
    var n: nat := c as nat;
    var t := EncodeChar(c) + rest;
    assert t[1..] == [0x80 + n / 64 % 64, 0x80 + n % 64] + rest;
    LastTwoBytes(n, if t[0] == 0xE0 then 0xA0 else 0x80, if t[0] == 0xED then 0x9F else 0xBF, rest);
  }

  lemma FourByteChar(c: char, rest: seq<Byte>)
    requires 0x10000 <= c as nat
    ensures Decode(EncodeChar(c) + rest) == [c] + Decode(rest)
  {
    var n: nat := c as nat;
    var t := EncodeChar(c) + rest;
    assert t[1..] == [0x80 + n / 4096 % 64, 0x80 + n / 64 % 64, 0x80 + n % 64] + rest;
    LastThreeBytes(n, if t[0] == 0xF0 then 0x90 else 0x80, if t[0] == 0xF4 then 0x8F else 0xBF, rest);
  }

  lemma CharDecoded(c: char, rest: seq<Byte>)
    ensures Decode(EncodeChar(c) + rest) == [c] + Decode(rest)
  {
    var n: nat := c as nat;
    var t := EncodeChar(c) + rest;
    if n < 0x80 {
      assert t[1..] == rest;
    } else if n < 0x800 {
      assert t[1..][1..] == rest && t[1..][0] == t[1];
    } else if n < 0x10000 {
      ThreeByteChar(c, rest);
    } else {
      FourByteChar(c, rest);
    }
  }

  lemma {:induction false} DecodeInvertsEncode(s: string)
    ensures Decode(Encode(s)) == s
  {
    if s != [] {
      CharDecoded(s[0], Encode(s[1..]));
      DecodeInvertsEncode(s[1..]);
    }
  }
}
