/** Base64 with line breaks (section 5.2 of RFC 1341). */
module Base64 {
  import opened Bytes

  const PAD: byte := 61
  const LINE := 72
  const UNKNOWN: byte := 0x80

  // ---- the alphabet ------------------------------------------------------------------------------

  function Symbol(v: nat): (c: byte)
    requires v < 64
    ensures c != PAD
  {
    if v < 26 then 65 + v else if v < 52 then 71 + v else if v < 62 then v - 4 else if v == 62 then 43 else 47
  }

  /** The value of a byte of the alphabet; padding counts as zero. */
  function Value(c: byte): (v: Option<nat>)
    ensures v.Some? ==> v.value < 64
  {
    if 65 <= c <= 90 then Some(c - 65) else if 97 <= c <= 122 then Some(c - 71) else if 48 <= c <= 57 then Some(c + 4)
    else if c == 43 then Some(62) else if c == 47 then Some(63) else if c == PAD then Some(0) else None
  }

  lemma SymbolValue(v: nat)
    requires v < 64
    ensures Value(Symbol(v)) == Some(v)
  {
  }

  lemma ValueSymbol(c: byte)
    requires c != PAD && Value(c).Some?
    ensures Symbol(Value(c).value) == c
  {
  }

  // ---- encoding ----------------------------------------------------------------------------------

  /** Three bytes as four symbols. */
  function Quad(a: byte, b: byte, c: byte): (q: seq<byte>)
    ensures |q| == 4
  {
    [Symbol(a / 4), Symbol(a % 4 * 16 + b / 16), Symbol(b % 16 * 4 + c / 64), Symbol(c % 64)]
  }

  /** One or two bytes as symbols and padding. */
  function Last(s: seq<byte>): (q: seq<byte>)
    requires 1 <= |s| <= 2
    ensures |q| == 4
  {
    if |s| == 1 then [Symbol(s[0] / 4), Symbol(s[0] % 4 * 16), PAD, PAD]
    else [Symbol(s[0] / 4), Symbol(s[0] % 4 * 16 + s[1] / 16), Symbol(s[1] % 16 * 4), PAD]
  }

  /** `line` symbols have been written on the current line. */
  function EncodeFrom(s: seq<byte>, line: nat): seq<byte> {
    if |s| >= 3 then
      if line + 4 >= LINE then Quad(s[0], s[1], s[2]) + [LF] + EncodeFrom(s[3..], 0)
      else Quad(s[0], s[1], s[2]) + EncodeFrom(s[3..], line + 4)
    else if s != [] then Last(s) + [LF]
    else if line > 0 then [LF]
    else []
  }

  function Encode(s: seq<byte>): seq<byte> { EncodeFrom(s, 0) }

  // ---- decoding ----------------------------------------------------------------------------------

  /** The bytes of the alphabet and the padding, in order. */
  function Symbols(s: seq<byte>): (t: seq<byte>)
    ensures |t| <= |s| && forall k :: 0 <= k < |t| ==> Value(t[k]).Some?
  {
    if s == [] then []
    else if Value(s[|s| - 1]).Some? then Symbols(s[..|s| - 1]) + [s[|s| - 1]]
    else Symbols(s[..|s| - 1])
  }

  function Triple(a: nat, b: nat, c: nat, d: nat): (t: seq<byte>)
    requires a < 64 && b < 64 && c < 64 && d < 64
    ensures |t| == 3
  {
    [a * 4 + b / 16, b % 16 * 16 + c / 4, c % 4 * 64 + d]
  }

  function Pads(t: seq<byte>): (n: nat)
    ensures n <= |t|
  {
    if t == [] then 0 else Pads(t[..|t| - 1]) + (if t[|t| - 1] == PAD then 1 else 0)
  }

  function Bytes3(t: seq<byte>): (r: seq<byte>)
    requires |t| == 4 && forall k :: 0 <= k < |t| ==> Value(t[k]).Some?
    ensures |r| == 3
  {
    Triple(Value(t[0]).value, Value(t[1]).value, Value(t[2]).value, Value(t[3]).value)
  }

  /** Block after block, up to the first one with padding. */
  function DecodeBlocks(t: seq<byte>): (r: Option<seq<byte>>)
    requires forall k :: 0 <= k < |t| ==> Value(t[k]).Some?
    ensures r.Some? ==> 4 * |r.value| <= 3 * |t|
  {
    if |t| < 4 then Some([])
    else
      var pads := Pads(t[..4]);
      var block := Bytes3(t[..4]);
      if pads == 0 then
        match DecodeBlocks(t[4..])
        case None => None
        case Some(rest) => Some(block + rest)
      else if pads <= 2 then Some(block[..3 - pads])
      else None
  }

  /** The result is never longer than what is allocated for it. */
  function Decode(s: seq<byte>): (r: Option<seq<byte>>)
    ensures r.Some? ==> |r.value| <= |Symbols(s)| / 4 * 3
  {
    var t := Symbols(s);
    if |t| == 0 || |t| % 4 != 0 then None else DecodeBlocks(t)
  }

  // ---- bytes outside the alphabet ------------------------------------------------------------------

  lemma {:induction false} SymbolsConcat(a: seq<byte>, b: seq<byte>)
    ensures Symbols(a + b) == Symbols(a) + Symbols(b)
    decreases |b|
  {
    if b == [] {
      assert a + b == a;
    } else {
      var s := a + b;
      assert s[..|s| - 1] == a + b[..|b| - 1] && s[|s| - 1] == b[|b| - 1];
      SymbolsConcat(a, b[..|b| - 1]);
    }
  }

  lemma {:induction false} NoSymbols(s: seq<byte>)
    requires forall k :: 0 <= k < |s| ==> Value(s[k]).None?
    ensures Symbols(s) == []
    decreases |s|
  {
    if s != [] {
      NoSymbols(s[..|s| - 1]);
    }
  }

  /** Bytes outside the alphabet can be put in or taken out anywhere without changing the result. */
  lemma JunkIgnored(a: seq<byte>, junk: seq<byte>, b: seq<byte>)
    requires forall k :: 0 <= k < |junk| ==> Value(junk[k]).None?
    ensures Decode(a + junk + b) == Decode(a + b)
  {
    SymbolsConcat(a + junk, b);
    SymbolsConcat(a, junk);
    SymbolsConcat(a, b);
    NoSymbols(junk);
    assert Symbols(a) + [] == Symbols(a);
  }

  // ---- round trip ------------------------------------------------------------------------------------

  /** The symbols alone, without line breaks. */
  function Plain(s: seq<byte>): seq<byte> {
    if |s| >= 3 then Quad(s[0], s[1], s[2]) + Plain(s[3..]) else if s != [] then Last(s) else []
  }

  lemma QuadSymbols(a: byte, b: byte, c: byte)
    ensures var q := Quad(a, b, c);
            && (forall k :: 0 <= k < 4 ==> Value(q[k]).Some? && q[k] != PAD) && Bytes3(q) == [a, b, c]
  {
    SymbolValue(a / 4);
    SymbolValue(a % 4 * 16 + b / 16);
    SymbolValue(b % 16 * 4 + c / 64);
    SymbolValue(c % 64);
    Rejoin(a, b, c);
  }

  lemma Rejoin(a: byte, b: byte, c: byte)
    ensures Triple(a / 4, a % 4 * 16 + b / 16, b % 16 * 4 + c / 64, c % 64) == [a, b, c]
  {
    assert (a % 4 * 16 + b / 16) / 16 == a % 4 && (a % 4 * 16 + b / 16) % 16 == b / 16;
    assert (b % 16 * 4 + c / 64) / 4 == b % 16 && (b % 16 * 4 + c / 64) % 4 == c / 64;
  }

  lemma LastSymbols(s: seq<byte>)
    requires 1 <= |s| <= 2
    ensures var q := Last(s);
            && (forall k :: 0 <= k < 4 ==> Value(q[k]).Some?) && Pads(q) == 3 - |s| && Bytes3(q)[..|s|] == s
  {
    var b := if |s| == 2 then s[1] else 0;
    QuadSymbols(s[0], b, 0);
    var q := Last(s);
    PadsOfFour(q);
    assert Value(PAD) == Some(0) && Value(Symbol(0)) == Some(0);
    assert Bytes3(q)[0] == s[0];
    assert |s| == 2 ==> Bytes3(q)[1] == s[1];
  }

  lemma PadsOfFour(q: seq<byte>)
    requires |q| == 4
    ensures Pads(q) == (if q[0] == PAD then 1 else 0) + (if q[1] == PAD then 1 else 0)
                       + (if q[2] == PAD then 1 else 0) + (if q[3] == PAD then 1 else 0)
  {
    assert q[..3][..2] == q[..2] && q[..2][..1] == q[..1] && q[..1][..0] == [];
    assert Pads(q[..1]) == if q[0] == PAD then 1 else 0;
    assert Pads(q[..2]) == Pads(q[..1]) + if q[1] == PAD then 1 else 0;
    assert Pads(q[..3]) == Pads(q[..2]) + if q[2] == PAD then 1 else 0;
  }

  lemma {:induction false} AllSymbols(t: seq<byte>)
    requires forall k :: 0 <= k < |t| ==> Value(t[k]).Some?
    ensures Symbols(t) == t
    decreases |t|
  {
    if t != [] {
      AllSymbols(t[..|t| - 1]);
    }
  }

  lemma BreakIsJunk()
    ensures Symbols([LF]) == [] && Symbols([]) == []
  {
    NoSymbols([LF]);
  }

  /** The line breaks are the only bytes of the encoding the decoder skips. */
  lemma {:induction false} EncodeSymbols(s: seq<byte>, line: nat)
    ensures Symbols(EncodeFrom(s, line)) == Plain(s)
    decreases |s|
  {
    hide Quad, Last, Symbols, Value;
    BreakIsJunk();
    if |s| >= 3 {
      var q := Quad(s[0], s[1], s[2]);
      QuadSymbols(s[0], s[1], s[2]);
      AllSymbols(q);
      if line + 4 >= LINE {
        EncodeSymbols(s[3..], 0);
        SymbolsConcat(q + [LF], EncodeFrom(s[3..], 0));
        SymbolsConcat(q, [LF]);
        assert q + [] == q;
      } else {
        EncodeSymbols(s[3..], line + 4);
        SymbolsConcat(q, EncodeFrom(s[3..], line + 4));
      }
    } else if s != [] {
      LastSymbols(s);
      AllSymbols(Last(s));
      SymbolsConcat(Last(s), [LF]);
      assert Last(s) + [] == Last(s);
    }
  }

  lemma {:induction false} DecodePlain(s: seq<byte>)
    ensures |Plain(s)| % 4 == 0 && (Plain(s) == [] <==> s == [])
    ensures forall k :: 0 <= k < |Plain(s)| ==> Value(Plain(s)[k]).Some?
    ensures DecodeBlocks(Plain(s)) == Some(s)
    decreases |s|
  {
    hide Quad, Last, Value, Triple, Pads, Bytes3;
    if |s| >= 3 {
      var q := Quad(s[0], s[1], s[2]);
      QuadSymbols(s[0], s[1], s[2]);
      PadsOfFour(q);
      DecodePlain(s[3..]);
      var t := Plain(s);
      assert t[..4] == q && t[4..] == Plain(s[3..]);
      assert s == [s[0], s[1], s[2]] + s[3..];
    } else if s != [] {
      LastSymbols(s);
      assert Last(s)[..4] == Last(s);
    }
  }

  /** Decoding an encoding gives the bytes back, except that there is no encoding of nothing. */
  lemma RoundTrip(s: seq<byte>)
    ensures Decode(Encode(s)) == Some(s) <==> s != []
  {
    EncodeSymbols(s, 0);
    DecodePlain(s);
  }

  // ---- the other way round -----------------------------------------------------------------------------

  lemma QuadOfTriple(t: seq<byte>)
    requires |t| == 4 && forall k :: 0 <= k < 4 ==> Value(t[k]).Some? && t[k] != PAD
    ensures var b := Bytes3(t); Quad(b[0], b[1], b[2]) == t
  {
    ValueSymbol(t[0]);
    ValueSymbol(t[1]);
    ValueSymbol(t[2]);
    ValueSymbol(t[3]);
    Resplit(Value(t[0]).value, Value(t[1]).value, Value(t[2]).value, Value(t[3]).value);
  }

  lemma Resplit(a: nat, b: nat, c: nat, d: nat)
    requires a < 64 && b < 64 && c < 64 && d < 64
    ensures var t := Triple(a, b, c, d);
            t[0] / 4 == a && t[0] % 4 * 16 + t[1] / 16 == b && t[1] % 16 * 4 + t[2] / 64 == c && t[2] % 64 == d
  {
    assert (a * 4 + b / 16) / 4 == a && (a * 4 + b / 16) % 4 == b / 16;
    assert (b % 16 * 16 + c / 4) / 16 == b % 16 && (b % 16 * 16 + c / 4) % 16 == c / 4;
    assert (c % 4 * 64 + d) / 64 == c % 4 && (c % 4 * 64 + d) % 64 == d;
  }

  lemma {:induction false} PlainOfDecode(t: seq<byte>)
    requires |t| % 4 == 0 && forall k :: 0 <= k < |t| ==> Value(t[k]).Some? && t[k] != PAD
    ensures DecodeBlocks(t).Some? && Plain(DecodeBlocks(t).value) == t
    decreases |t|
  {
    hide Value, Quad, Bytes3, Pads;
    if |t| >= 4 {
      var q, rest := t[..4], t[4..];
      assert forall k :: 0 <= k < 4 ==> q[k] == t[k];
      QuadOfTriple(q);
      PadsOfFour(q);
      PlainOfDecode(rest);
      var b, x := Bytes3(q), DecodeBlocks(rest).value;
      assert (b + x)[3..] == x && (b + x)[0] == b[0] && (b + x)[1] == b[1] && (b + x)[2] == b[2];
      assert q + rest == t;
    }
  }

  /** Text without padding is the encoding of what it decodes to, line breaks and other bytes aside. */
  lemma EncodeOfDecode(s: seq<byte>)
    requires Symbols(s) != [] && |Symbols(s)| % 4 == 0 && PAD !in Symbols(s)
    ensures Decode(s).Some? && Symbols(Encode(Decode(s).value)) == Symbols(s)
  {
    hide Symbols, DecodeBlocks, Plain;
    PlainOfDecode(Symbols(s));
    EncodeSymbols(Decode(s).value, 0);
  }

  // ---- sizes -------------------------------------------------------------------------------------------

  /** `size_t` */
  const SIZE_MOD := 0x1_0000_0000_0000_0000

  /** The allocation the encoder computes, in 64-bit arithmetic. */
  function Olen(len: nat): nat {
    var blocks := (len * 4 % SIZE_MOD / 3 + 4) % SIZE_MOD;
    ((blocks + blocks / 72) % SIZE_MOD + 1) % SIZE_MOD
  }

  /** Only the product with four can wrap. */
  lemma OlenOf(len: nat, product: nat)
    requires product == len * 4 % SIZE_MOD
    ensures var blocks := product / 3 + 4; Olen(len) == blocks + blocks / 72 + 1
  {
    hide Olen;
    var blocks := product / 3 + 4;
    var sum := blocks + blocks / 72;
    assert 3 * blocks <= SIZE_MOD + 12;
    assert 72 * sum <= 73 * blocks;
    OlenIs(len, product, blocks, sum);
  }

  lemma OlenIs(len: nat, product: nat, blocks: nat, sum: nat)
    requires product == len * 4 % SIZE_MOD && blocks == product / 3 + 4 < SIZE_MOD && sum == blocks + blocks / 72 < SIZE_MOD - 1
    ensures Olen(len) == sum + 1
  {
    Small(blocks);
    Small(sum);
    Small(sum + 1);
  }

  lemma Small(x: nat)
    requires x < SIZE_MOD
    ensures x % SIZE_MOD == x
  {
  }

  lemma Product(len: nat) returns (wraps: nat, product: nat)
    requires len < SIZE_MOD
    ensures product == len * 4 % SIZE_MOD < SIZE_MOD && len * 4 == wraps * SIZE_MOD + product
  {
    wraps, product := len * 4 / SIZE_MOD, len * 4 % SIZE_MOD;
  }

  /** The overflow test refuses exactly the lengths whose product with four does not fit. */
  lemma OverflowTest(len: nat)
    requires len < SIZE_MOD
    ensures Olen(len) < len <==> len * 4 >= SIZE_MOD
  {
    hide Olen;
    var wraps, product := Product(len);
    OlenOf(len, product);
    var blocks := product / 3 + 4;
    var olen := Olen(len);
    assert 3 * blocks <= product + 12 && 72 * olen <= 73 * blocks + 72;
    assert 3 * blocks >= product + 9;
  }

  /** Groups of three bytes begun, and lines begun. */
  function Groups(n: nat): nat { (n + 2) / 3 }

  function Lines(symbols: nat): nat { (symbols + 71) / 72 }

  lemma GroupsStep(n: nat)
    ensures Groups(n + 3) == Groups(n) + 1 && Groups(0) == 0 && Groups(1) == 1 && Groups(2) == 1
  {
  }

  lemma LinesStep(symbols: nat)
    ensures Lines(symbols + 72) == Lines(symbols) + 1 && Lines(0) == 0 && (1 <= symbols <= 72 ==> Lines(symbols) == 1)
  {
  }

  /** How long the encoding is: four symbols for every three bytes begun, and one break per line begun. */
  lemma {:induction false} EncodeLength(s: seq<byte>, line: nat)
    requires line < LINE && line % 4 == 0
    ensures |EncodeFrom(s, line)| == Groups(|s|) * 4 + Lines(line + Groups(|s|) * 4)
    decreases |s|
  {
    hide Groups, Lines, Quad, Last;
    GroupsStep(|s|);
    LinesStep(line);
    if |s| >= 3 {
      GroupsStep(|s| - 3);
      if line + 4 >= LINE {
        EncodeLength(s[3..], 0);
        LinesStep(Groups(|s| - 3) * 4);
      } else {
        EncodeLength(s[3..], line + 4);
      }
    } else if s != [] {
      LinesStep(line + 4);
    }
  }

  lemma GroupsBound(n: nat)
    ensures Groups(n) * 4 <= n * 4 / 3 + 3
  {
  }

  lemma LinesBound(symbols: nat, blocks: nat)
    requires symbols + 1 <= blocks
    ensures symbols + Lines(symbols) <= blocks + blocks / 72
  {
  }

  /** The allocation holds every symbol, every line break and the final NUL. */
  lemma OlenCovers(s: seq<byte>)
    requires |s| * 4 < SIZE_MOD
    ensures |Encode(s)| + 1 <= Olen(|s|)
  {
    hide Olen, Groups, Lines;
    EncodeLength(s, 0);
    GroupsBound(|s|);
    LinesBound(Groups(|s|) * 4, |s| * 4 / 3 + 4);
    Small(|s| * 4);
    OlenOf(|s|, |s| * 4);
  }

  // ---- the two routines ----------------------------------------------------------------------------------

  /** Stores `q` at `pos`. */
  method Put(out: array<byte>, pos: nat, q: seq<byte>) returns (next: nat)
    requires pos + |q| <= out.Length
    modifies out
    ensures next == pos + |q| && out[..next] == old(out[..pos]) + q
  {
    for k := 0 to |q|
      invariant out[..pos] == old(out[..pos])
      invariant out[pos..pos + k] == q[..k]
    {
      out[pos + k] := q[k];
    }
    next := pos + |q|;
    assert out[..next] == out[..pos] + out[pos..next];
  }

  /** What the loop has still to write. */
  ghost predicate Writing(out: seq<byte>, rest: seq<byte>, line: nat, all: seq<byte>) { out + EncodeFrom(rest, line) == all }

  lemma WriteQuad(out: seq<byte>, s: seq<byte>, line: nat, all: seq<byte>)
    requires |s| >= 3 && Writing(out, s, line, all)
    ensures |out| + 4 + (if line + 4 >= LINE then 1 else 0) <= |all|
    ensures var q := Quad(s[0], s[1], s[2]);
            if line + 4 >= LINE then Writing(out + q + [LF], s[3..], 0, all) else Writing(out + q, s[3..], line + 4, all)
  {
    hide Quad, Last;
  }

  lemma WriteLast(out: seq<byte>, s: seq<byte>, line: nat, all: seq<byte>)
    requires |s| < 3 && Writing(out, s, line, all)
    ensures s == [] && line == 0 ==> out == all
    ensures s == [] && line > 0 ==> out + [LF] == all
    ensures s != [] ==> out + Last(s) + [LF] == all
  {
    hide Quad, Last;
    assert out + [] == out;
  }

  lemma WriteFirst(s: seq<byte>)
    ensures Writing([], s, 0, Encode(s))
  {
  }

  /** `base64_encode`: null when the size overflows or memory runs out, else the encoding and its NUL. */
  method EncodeBuffer(src: seq<byte>, memory: bool) returns (out: array?<byte>, length: nat)
    requires |src| < SIZE_MOD
    ensures out == null <==> 4 * |src| >= SIZE_MOD || !memory
    ensures out != null ==> fresh(out) && length < out.Length && out[..length] == Encode(src) && out[length] == 0
  {
    hide Olen, Quad, Last, Encode, EncodeFrom, Writing;
    OverflowTest(|src|);
    var olen := Olen(|src|);
    if olen < |src| || !memory {
      return null, 0;
    }
    OlenCovers(src);
    WriteFirst(src);
    var buffer := new byte[olen](_ => 0);
    var i: nat, pos: nat, line: nat := 0, 0, 0;
    assert src[0..] == src && buffer[..0] == [];
    while |src| - i >= 3
      invariant i <= |src| && line < LINE && pos <= olen
      invariant Writing(buffer[..pos], src[i..], line, Encode(src))
    {
      WriteQuad(buffer[..pos], src[i..], line, Encode(src));
      assert src[i..][3..] == src[i + 3..];
      pos := Put(buffer, pos, Quad(src[i], src[i + 1], src[i + 2]));
      i, line := i + 3, line + 4;
      if line >= LINE {
        pos := Put(buffer, pos, [LF]);
        line := 0;
      }
    }
    WriteLast(buffer[..pos], src[i..], line, Encode(src));
    if i < |src| {
      pos := Put(buffer, pos, Last(src[i..]));
      line := line + 4;
    }
    if line > 0 {
      pos := Put(buffer, pos, [LF]);
    }
    buffer[pos] := 0;
    return buffer, pos;
  }

  /** The decoding table: the value of each byte, or a mark for those without one. */
  ghost predicate IsTable(d: seq<byte>) {
    |d| == 256 && forall c: byte :: d[c] == match Value(c) case Some(v) => v case None => UNKNOWN
  }

  method BuildTable() returns (dtable: array<byte>)
    ensures fresh(dtable) && IsTable(dtable[..])
  {
    dtable := new byte[256](_ => UNKNOWN);
    for i := 0 to 64
      invariant forall v :: 0 <= v < i ==> dtable[Symbol(v)] == v
      invariant forall c: byte :: (Value(c).None? || c == PAD || Value(c).value >= i) ==> dtable[c] == UNKNOWN
    {
      SymbolValue(i);
      dtable[Symbol(i)] := i;
    }
    dtable[PAD] := 0;
    forall c: byte | Value(c).Some? && c != PAD ensures dtable[c] == Value(c).value {
      ValueSymbol(c);
    }
  }

  /** The values of a run of symbols. */
  ghost predicate Values(block: seq<byte>, cur: seq<byte>) {
    |block| == |cur| && forall k :: 0 <= k < |cur| ==> Value(cur[k]) == Some(block[k])
  }

  function Prefixed(p: seq<byte>, r: Option<seq<byte>>): Option<seq<byte>> {
    match r
    case None => None
    case Some(x) => Some(p + x)
  }

  /** `done` bytes are out, `cur` is the block being filled and `rest` is still to be read. */
  ghost predicate Reading(out: seq<byte>, cur: seq<byte>, rest: seq<byte>, all: seq<byte>) {
    && (forall k :: 0 <= k < |cur| ==> Value(cur[k]).Some?)
    && 4 * |out| + 3 * (|cur| + |Symbols(rest)|) == 3 * |Symbols(all)|
    && DecodeBlocks(Symbols(all)) == Prefixed(out, DecodeBlocks(cur + Symbols(rest)))
  }

  lemma ReadFirst(s: seq<byte>)
    ensures Reading([], [], s, s)
  {
    hide DecodeBlocks;
    assert [] + Symbols(s) == Symbols(s);
    var r := DecodeBlocks(Symbols(s));
    assert r.Some? ==> [] + r.value == r.value;
  }

  lemma SkipByte(out: seq<byte>, cur: seq<byte>, rest: seq<byte>, all: seq<byte>)
    requires rest != [] && Reading(out, cur, rest, all)
    ensures Value(rest[0]).None? ==> Reading(out, cur, rest[1..], all)
    ensures Value(rest[0]).Some? ==> Reading(out, cur + [rest[0]], rest[1..], all)
  {
    hide DecodeBlocks, Value;
    assert rest == [rest[0]] + rest[1..];
    SymbolsConcat([rest[0]], rest[1..]);
    OneSymbol(rest[0]);
    assert [] + Symbols(rest[1..]) == Symbols(rest[1..]);
    assert cur + ([rest[0]] + Symbols(rest[1..])) == cur + [rest[0]] + Symbols(rest[1..]);
  }

  lemma OneSymbol(c: byte)
    ensures Symbols([c]) == if Value(c).Some? then [c] else []
  {
    hide Value;
    assert [c][..0] == [];
  }

  /** A full block goes out; with padding it is the last one. */
  lemma BlockOut(out: seq<byte>, cur: seq<byte>, rest: seq<byte>, all: seq<byte>)
    requires |cur| == 4 && Reading(out, cur, rest, all)
    ensures |out| + 3 <= 3 * |Symbols(all)| / 4 && forall k :: 0 <= k < 4 ==> Value(cur[k]).Some?
    ensures Pads(cur) == 0 ==> Reading(out + Bytes3(cur), [], rest, all)
    ensures 1 <= Pads(cur) <= 2 ==> DecodeBlocks(Symbols(all)) == Some(out + Bytes3(cur)[..3 - Pads(cur)])
    ensures Pads(cur) > 2 ==> DecodeBlocks(Symbols(all)).None?
  {
    hide Pads, Bytes3, Value, Symbols;
    var t := cur + Symbols(rest);
    assert t[..4] == cur && t[4..] == Symbols(rest);
    assert [] + Symbols(rest) == Symbols(rest);
    var r := DecodeBlocks(Symbols(rest));
    assert r.Some? ==> out + (Bytes3(cur) + r.value) == out + Bytes3(cur) + r.value;
  }

  lemma ReadAll(out: seq<byte>, cur: seq<byte>, all: seq<byte>)
    requires Reading(out, cur, [], all) && |cur| < 4
    ensures DecodeBlocks(Symbols(all)) == Some(out)
  {
    hide Value;
    assert cur + Symbols([]) == cur;
    assert out + [] == out;
  }

  lemma PadsSnoc(t: seq<byte>, c: byte)
    ensures Pads(t + [c]) == Pads(t) + if c == PAD then 1 else 0
  {
    assert (t + [c])[..|t|] == t;
  }

  lemma SymbolsSnoc(s: seq<byte>, i: nat)
    requires i < |s|
    ensures |Symbols(s[..i + 1])| == |Symbols(s[..i])| + if Value(s[i]).Some? then 1 else 0
  {
    hide Value;
    assert s[..i + 1][..i] == s[..i];
  }

  /** The three bytes of a full block, by shifting and masking its values. */
  lemma BlockBytes(block: seq<byte>, cur: seq<byte>)
    requires |cur| == 4 && Values(block, cur)
    ensures |block| == 4 && block[0] < 64 && block[1] < 64 && block[2] < 64 && block[3] < 64
    ensures forall k :: 0 <= k < 4 ==> Value(cur[k]).Some?
    ensures Bytes3(cur) == Triple(block[0], block[1], block[2], block[3])
  {
  }

  method CountSymbols(src: seq<byte>, dtable: array<byte>) returns (count: nat)
    requires IsTable(dtable[..])
    ensures count == |Symbols(src)|
  {
    hide Symbols;
    count := 0;
    BreakIsJunk();
    assert src[..0] == [];
    for i := 0 to |src|
      invariant count == |Symbols(src[..i])|
    {
      SymbolsSnoc(src, i);
      TableAt(dtable[..], src[i]);
      if dtable[src[i]] != UNKNOWN {
        count := count + 1;
      }
    }
    assert src[..|src|] == src;
  }

  method StoreBlock(buffer: array<byte>, pos: nat, block: array<byte>, ghost cur: seq<byte>) returns (next: nat)
    requires buffer != block && pos + 3 <= buffer.Length && |cur| == 4 && Values(block[..], cur)
    requires forall k :: 0 <= k < 4 ==> Value(cur[k]).Some?
    modifies buffer
    ensures next == pos + 3 && buffer[..next] == old(buffer[..pos]) + Bytes3(cur)
  {
    hide Value, Triple, Bytes3, Values;
    BlockBytes(block[..], cur);
    next := Put(buffer, pos, Triple(block[0], block[1], block[2], block[3]));
  }

  /** `base64_decode`: null when the text is not a decodable one or memory runs out, else the bytes. */
  method DecodeBuffer(src: seq<byte>, memory: bool) returns (out: array?<byte>, length: nat)
    ensures out == null <==> Decode(src).None? || !memory
    ensures out != null ==> fresh(out) && length <= out.Length && Decode(src) == Some(out[..length])
  {
    hide Symbols, DecodeBlocks, Bytes3, Triple, Pads, Reading, Value, IsTable, Values;
    var dtable := BuildTable();
    var total := CountSymbols(src, dtable);
    if total == 0 || total % 4 != 0 || !memory {
      return null, 0;
    }
    var buffer := new byte[total / 4 * 3](_ => 0);
    var block := new byte[4](_ => 0);
    var pos: nat, count: nat, pad: nat := 0, 0, 0;
    ghost var cur: seq<byte>, sofar: seq<byte> := [], [];
    ReadFirst(src);
    NoPads();
    assert src[0..] == src;
    assert Values(block[..0], []) by { NoValues(block[..0]); }
    for i := 0 to |src|
      invariant IsTable(dtable[..]) && pos <= buffer.Length && count == |cur| < 4 && pad == Pads(cur)
      invariant Values(block[..count], cur) && buffer[..pos] == sofar
      invariant Reading(sofar, cur, src[i..], src)
    {
      SkipByte(sofar, cur, src[i..], src);
      assert src[i..][1..] == src[i + 1..] && src[i..][0] == src[i];
      TableAt(dtable[..], src[i]);
      var tmp := dtable[src[i]];
      if tmp == UNKNOWN {
        continue;
      }
      PadsSnoc(cur, src[i]);
      if src[i] == PAD {
        pad := pad + 1;
      }
      ValuesSnoc(block[..], count, cur, src[i], tmp);
      block[count] := tmp;
      cur, count := cur + [src[i]], count + 1;
      if count == 4 {
        assert block[..] == block[..count];
        BlockOut(sofar, cur, src[i + 1..], src);
        pos := StoreBlock(buffer, pos, block, cur);
        count := 0;
        if pad > 2 {
          return null, 0;
        } else if pad > 0 {
          assert buffer[..pos - pad] == sofar + Bytes3(cur)[..3 - pad];
          return buffer, pos - pad;
        }
        sofar, cur := buffer[..pos], [];
        NoValues(block[..0]);
      }
    }
    assert src[|src|..] == [];
    ReadAll(sofar, cur, src);
    return buffer, pos;
  }

  lemma TableAt(d: seq<byte>, c: byte)
    requires IsTable(d)
    ensures |d| == 256 && (d[c] == UNKNOWN <==> Value(c).None?) && (Value(c).Some? ==> Value(c).value == d[c])
  {
  }

  lemma NoValues(block: seq<byte>)
    requires block == []
    ensures Values(block, [])
  {
  }

  lemma ValuesSnoc(block: seq<byte>, count: nat, cur: seq<byte>, c: byte, v: byte)
    requires count < |block| && Values(block[..count], cur) && Value(c) == Some(v)
    ensures Values(block[count := v][..count + 1], cur + [c])
  {
    hide Value;
  }

  lemma NoPads()
    ensures Pads([]) == 0
  {
  }
}
