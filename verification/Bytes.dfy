/** Bytes, C strings and the character classes shared by every parser of the proxy. */
module Bytes {

  type byte = x: int | 0 <= x < 256

  /** A 16-bit unsigned value, as `uint16_t` and `in_port_t`. */
  type u16 = x: int | 0 <= x < 0x1_0000

  datatype Option<+T> = None | Some(value: T)

  const TAB: byte := 9
  const LF: byte := 10
  const CR: byte := 13
  const SP: byte := 32
  const HASH: byte := 35
  const DOT: byte := 46
  const SLASH: byte := 47
  const ZERO: byte := 48
  const COLON: byte := 58
  const QUESTION: byte := 63
  const LBRACKET: byte := 91

  predicate IsDigit(c: byte) { 48 <= c <= 57 }

  predicate IsAlpha(c: byte) { 97 <= c <= 122 || 65 <= c <= 90 }

  predicate IsToken(c: byte) {
    || c == 33 || (35 <= c <= 39) || c == 42 || c == 43 || c == 45 || c == DOT
    || (94 <= c <= 96) || c == 124 || c == 126 || IsDigit(c) || IsAlpha(c)
  }

  predicate EndOfAuthority(c: byte) { c == SLASH || c == HASH || c == QUESTION }

  predicate IsReasonPhrase(c: byte) { c == SP || c == TAB || IsAlpha(c) || IsDigit(c) }

  predicate IsSpace(c: byte) { c == SP || c == TAB }

  predicate IsVchar(c: byte) { 0x21 <= c <= 0x7E }

  /** `n` zero bytes, the image `memset`/`calloc` leave. */
  function Zeros(n: nat): (z: seq<byte>)
    ensures |z| == n && forall k :: 0 <= k < n ==> z[k] == 0
  {
    seq(n, _ => 0)
  }

  /** The bytes before the first NUL (all of them when there is none). */
  function CStr(s: seq<byte>): (r: seq<byte>)
    ensures r <= s
    ensures 0 !in r
    ensures |r| < |s| ==> s[|r|] == 0
  {
    if s == [] || s[0] == 0 then [] else [s[0]] + CStr(s[1..])
  }

  /** A string stored in a longer zeroed array is read back whole. */
  lemma {:induction false} CStrPadded(s: seq<byte>, z: seq<byte>)
    requires 0 !in s
    requires z != [] ==> z[0] == 0
    ensures CStr(s + z) == s
  {
    if s == [] {
      assert s + z == z;
    } else {
      assert (s + z)[1..] == s[1..] + z;
      CStrPadded(s[1..], z);
    }
  }

  /** `htons`/`ntohs` on a little-endian host. */
  function Swap16(x: u16): (y: u16)
    ensures y / 256 == x % 256 && y % 256 == x / 256
  {
    (x % 256) * 256 + x / 256
  }

  lemma Swap16Involution(x: u16)
    ensures Swap16(Swap16(x)) == x
  {
    var y := Swap16(x);
    assert y % 256 == x / 256 && y / 256 == x % 256;
  }

  /** Decimal text of a number, as `%d` and `%u` print it. */
  function Decimal(n: nat): (r: seq<byte>)
    ensures |r| >= 1
    ensures forall k :: 0 <= k < |r| ==> IsDigit(r[k])
    ensures n < 10 ==> |r| == 1
    ensures n < 100 ==> |r| <= 2
    ensures n < 1000 ==> |r| <= 3
    ensures n < 10000 ==> |r| <= 4
    ensures n < 100000 ==> |r| <= 5
  {
    if n < 10 then [48 + n] else Decimal(n / 10) + [48 + n % 10]
  }
}
