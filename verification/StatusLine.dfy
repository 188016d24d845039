/** The incremental status-line parser (section 3.1.2 of RFC 7230). */
module StatusLine {
  import opened Bytes

  const STATUS_VERSION_LENGTH := 8
  const STATUS_CODE_LENGTH := 3
  const MAX_REASON_PHRASE := 50

  datatype State = Version | Major | Minor | Code | Reason | End | Done | Failed

  datatype Parser = Parser(state: State, i: nat, n: nat, major: byte, minor: byte, code: nat, reason: seq<byte>) {
    /** The counter ranges each state relies on; they keep every array access in bounds. */
    ghost predicate Valid() {
      && |reason| == MAX_REASON_PHRASE
      && (state == Version ==> i < |HTTP_SLASH| && n == STATUS_VERSION_LENGTH)
      && (state == Major || state == Minor ==> i <= n == 2 && (i == 1 ==> (if state == Major then major else minor) < 10))
      && (state == Code ==> i <= n + 1 && n == STATUS_CODE_LENGTH && (i > 0 ==> code < Pow10(i)))
      && (state == Reason ==> i <= n == MAX_REASON_PHRASE)
    }
  }

  /** "HTTP/" */
  const HTTP_SLASH: seq<byte> := [72, 84, 84, 80, 47]

  function Pow10(i: nat): nat { if i == 0 then 1 else 10 * Pow10(i - 1) }

  function Init(): (p: Parser)
    ensures p.Valid()
  {
    Parser(Version, 0, STATUS_VERSION_LENGTH, 0, 0, 0, Zeros(MAX_REASON_PHRASE))
  }

  function Feed(p: Parser, c: byte): (q: Parser)
    requires p.Valid()
    ensures q.Valid()
  {
    match p.state
    case Version =>
      if p.i >= p.n || HTTP_SLASH[p.i] != c then p.(state := Failed)
      else if c == SLASH then p.(i := 0, n := 2, state := Major)
      else p.(i := p.i + 1)
    case Major =>
      if p.i >= p.n then p.(state := Failed)
      else if c == DOT then p.(i := 0, n := 2, state := Minor)
      else if !IsDigit(c) then p.(state := Failed)
      else p.(i := p.i + 1, major := if p.i == 0 then c - ZERO else (p.major * 10 + (c - ZERO)) % 256)
    case Minor =>
      if p.i >= p.n then p.(state := Failed)
      else if c == SP then p.(i := 0, n := STATUS_CODE_LENGTH, state := Code)
      else if !IsDigit(c) then p.(state := Failed)
      else p.(i := p.i + 1, minor := if p.i == 0 then c - ZERO else (p.minor * 10 + (c - ZERO)) % 256)
    case Code =>
      if p.i > p.n then p.(state := Failed)
      else if p.i == STATUS_CODE_LENGTH && c == SP then p.(i := 0, n := MAX_REASON_PHRASE, state := Reason)
      else if !IsDigit(c) then p.(state := Failed)
      else p.(i := p.i + 1, code := if p.i == 0 then c - ZERO else p.code * 10 + (c - ZERO))
    case Reason =>
      if p.i >= p.n then p.(state := Failed)
      else if c == CR then p.(i := 0, state := End)
      else if !IsReasonPhrase(c) then p.(state := Failed)
      else p.(reason := p.reason[p.i := c], i := p.i + 1)
    case End => p.(state := if c != LF then Failed else Done)
    case Done => p
    case Failed => p
  }

  function FeedAll(p: Parser, s: seq<byte>): (q: Parser)
    requires p.Valid()
    ensures q.Valid()
    decreases |s|
  {
    if s == [] then p else FeedAll(Feed(p, s[0]), s[1..])
  }

  lemma {:induction false} FeedAllConcat(p: Parser, a: seq<byte>, b: seq<byte>)
    requires p.Valid()
    ensures FeedAll(p, a + b) == FeedAll(FeedAll(p, a), b)
    decreases |a|
  {
    if a == [] {
      assert a + b == b;
    } else {
      assert (a + b)[1..] == a[1..] + b;
      FeedAllConcat(Feed(p, a[0]), a[1..], b);
    }
  }

  /** A status line whose fields the parser can hold. */
  datatype Line = Line(major: nat, minor: nat, code: nat, reason: seq<byte>) {
    predicate Printable() {
      && major < 10 && minor < 10 && code < 1000 && |reason| < MAX_REASON_PHRASE
      && forall k :: 0 <= k < |reason| ==> IsReasonPhrase(reason[k])
    }
  }

  function Print(l: Line): (s: seq<byte>)
    requires l.Printable()
  {
    HTTP_SLASH + [ZERO + l.major, DOT, ZERO + l.minor, SP,
                  ZERO + l.code / 100, ZERO + l.code / 10 % 10, ZERO + l.code % 10, SP] + l.reason + [CR, LF]
  }

  /** The reason phrase is stored byte by byte from the current position on. */
  lemma {:induction false} FeedReason(p: Parser, r: seq<byte>)
    requires p.Valid() && p.state == Reason && p.i + |r| < MAX_REASON_PHRASE
    requires forall k :: 0 <= k < |r| ==> IsReasonPhrase(r[k])
    ensures FeedAll(p, r) == p.(i := p.i + |r|, reason := p.reason[..p.i] + r + p.reason[p.i + |r|..])
    decreases |r|
  {
    if r == [] {
      assert p.reason == p.reason[..p.i] + r + p.reason[p.i..];
    } else {
      var q := Feed(p, r[0]);
      FeedReason(q, r[1..]);
      assert q.reason[..q.i] + r[1..] + q.reason[q.i + |r| - 1..] == p.reason[..p.i] + r + p.reason[p.i + |r|..];
    }
  }

  lemma {:induction false} FeedName(p: Parser)
    requires p.Valid() && p.state == Version
    ensures FeedAll(p, HTTP_SLASH[p.i..]) == p.(state := Major, i := 0, n := 2)
    decreases |HTTP_SLASH| - p.i
  {
    hide Feed;
    var c, rest := HTTP_SLASH[p.i], HTTP_SLASH[p.i + 1..];
    StepName(p);
    assert HTTP_SLASH[p.i..] == [c] + rest;
    FeedAllConcat(p, [c], rest);
    Feed2(p, c, c);
    if p.i < 4 {
      FeedName(Feed(p, c));
    } else {
      assert rest == [];
    }
  }

  lemma StepName(p: Parser)
    requires p.Valid() && p.state == Version
    ensures Feed(p, HTTP_SLASH[p.i]) == if p.i < 4 then p.(i := p.i + 1) else p.(state := Major, i := 0, n := 2)
  {
  }

  /** digit "." digit SP, then three digits SP */
  lemma FeedNumbers(p: Parser, l: Line)
    requires p.Valid() && p.state == Major && p.i == 0 && l.Printable()
    ensures FeedAll(p, [ZERO + l.major, DOT, ZERO + l.minor, SP])
         == p.(state := Code, i := 0, n := STATUS_CODE_LENGTH, major := l.major, minor := l.minor)
  {
    hide FeedAll;
    Feed4(p, ZERO + l.major, DOT, ZERO + l.minor, SP);
  }

  lemma FeedCode(p: Parser, code: nat)
    requires p.Valid() && p.state == Code && p.i == 0 && code < 1000
    ensures FeedAll(p, [ZERO + code / 100, ZERO + code / 10 % 10, ZERO + code % 10, SP])
         == p.(state := Reason, i := 0, n := MAX_REASON_PHRASE, code := code)
  {
    hide FeedAll;
    Feed4(p, ZERO + code / 100, ZERO + code / 10 % 10, ZERO + code % 10, SP);
    var p1 := Feed(p, ZERO + code / 100);
    var p2 := Feed(p1, ZERO + code / 10 % 10);
    assert p1 == p.(i := 1, code := code / 100);
    assert code / 10 == code / 100 * 10 + code / 10 % 10;
    assert p2 == p.(i := 2, code := code / 10);
  }

  lemma Feed2(p: Parser, a: byte, b: byte)
    requires p.Valid()
    ensures FeedAll(p, [a]) == Feed(p, a)
    ensures FeedAll(p, [a, b]) == Feed(Feed(p, a), b)
  {
    assert [a][1..] == [];
    assert [a, b][1..] == [b] && [b][1..] == [];
    assert FeedAll(Feed(p, a), [b]) == FeedAll(Feed(Feed(p, a), b), []);
  }

  lemma Feed4(p: Parser, a: byte, b: byte, c: byte, d: byte)
    requires p.Valid()
    ensures FeedAll(p, [a, b, c, d]) == Feed(Feed(Feed(Feed(p, a), b), c), d)
  {
    hide Feed, FeedAll;
    assert [a, b, c, d] == [a, b] + [c, d];
    FeedAllConcat(p, [a, b], [c, d]);
    Feed2(p, a, b);
    Feed2(Feed(Feed(p, a), b), c, d);
  }

  /** Every printable status line parses to its own fields and finishes exactly at its LF. */
  lemma RoundTrip(l: Line)
    requires l.Printable()
    ensures var q := FeedAll(Init(), Print(l));
            && q.state == Done && q.major == l.major && q.minor == l.minor && q.code == l.code
            && q.reason == l.reason + Zeros(MAX_REASON_PHRASE - |l.reason|)
    ensures FeedAll(Init(), Print(l)[..|Print(l)| - 1]).state == End
  {
    hide Feed, FeedAll;
    var digits := [ZERO + l.major, DOT, ZERO + l.minor, SP];
    var code := [ZERO + l.code / 100, ZERO + l.code / 10 % 10, ZERO + l.code % 10, SP];
    var v := HTTP_SLASH + digits;
    var p := Init();
    assert HTTP_SLASH[0..] == HTTP_SLASH;
    FeedName(p);
    FeedAllConcat(p, HTTP_SLASH, digits);
    FeedNumbers(FeedAll(p, HTTP_SLASH), l);
    FeedAllConcat(p, v, code);
    FeedCode(FeedAll(p, v), l.code);
    FeedAllConcat(p, v + code, l.reason);
    FeedReason(FeedAll(p, v + code), l.reason);
    var p3 := FeedAll(p, v + code + l.reason);
    FeedAllConcat(p, v + code + l.reason, [CR]);
    FeedAllConcat(p, v + code + l.reason, [CR, LF]);
    Feed2(p3, CR, LF);
    StepEnd(p3);
    PrintText(l, v, code);
    assert p3.reason == l.reason + Zeros(MAX_REASON_PHRASE - |l.reason|);
  }

  lemma StepEnd(p: Parser)
    requires p.Valid() && p.state == Reason && p.i < MAX_REASON_PHRASE
    ensures Feed(p, CR) == p.(i := 0, state := End) && Feed(Feed(p, CR), LF) == p.(i := 0, state := Done)
  {
  }

  lemma PrintText(l: Line, v: seq<byte>, code: seq<byte>)
    requires l.Printable() && v == HTTP_SLASH + [ZERO + l.major, DOT, ZERO + l.minor, SP]
    requires code == [ZERO + l.code / 100, ZERO + l.code / 10 % 10, ZERO + l.code % 10, SP]
    ensures Print(l) == v + code + l.reason + [CR, LF]
    ensures Print(l)[..|Print(l)| - 1] == v + code + l.reason + [CR]
  {
    assert Print(l) == v + code + l.reason + [CR, LF];
  }

  class StatusLineParser {
    var state: State
    var i: nat
    var n: nat
    var major: byte
    var minor: byte
    var code: nat
    const reason: array<byte>

    ghost function View(): Parser
      reads this, reason
    {
      Parser(state, i, n, major, minor, code, reason[..])
    }

    constructor ()
      ensures View() == Init() && fresh(reason)
    {
      state, i, n := Version, 0, STATUS_VERSION_LENGTH;
      major, minor, code := 0, 0, 0;
      reason := new byte[MAX_REASON_PHRASE](_ => 0);
      new;
      assert reason[..] == Zeros(MAX_REASON_PHRASE);
    }

    method Reinit()
      requires View().Valid()
      modifies this, reason
      ensures View() == Init()
    {
      state, i, n := Version, 0, STATUS_VERSION_LENGTH;
      major, minor, code := 0, 0, 0;
      forall k | 0 <= k < reason.Length { reason[k] := 0; }
      assert reason[..] == Zeros(MAX_REASON_PHRASE);
    }

    method FeedByte(c: byte) returns (s: State)
      requires View().Valid()
      modifies this, reason
      ensures View() == Feed(old(View()), c) && s == state
    {
      match state {
        case Version =>
          if i >= n || HTTP_SLASH[i] != c { state := Failed; }
          else {
            i := i + 1;
            if c == SLASH { i, n, state := 0, 2, Major; }
          }
        case Major =>
          if i >= n { state := Failed; }
          else if c == DOT { i, n, state := 0, 2, Minor; }
          else if !IsDigit(c) { state := Failed; }
          else {
            var num := c - ZERO;
            major := if i == 0 then num else (major * 10 + num) % 256;
            i := i + 1;
          }
        case Minor =>
          if i >= n { state := Failed; }
          else if c == SP { i, n, state := 0, STATUS_CODE_LENGTH, Code; }
          else if !IsDigit(c) { state := Failed; }
          else {
            var num := c - ZERO;
            minor := if i == 0 then num else (minor * 10 + num) % 256;
            i := i + 1;
          }
        case Code =>
          if i > n { state := Failed; }
          else if i == STATUS_CODE_LENGTH && c == SP { i, n, state := 0, MAX_REASON_PHRASE, Reason; }
          else if !IsDigit(c) { state := Failed; }
          else {
            var num := c - ZERO;
            code := if i == 0 then num else code * 10 + num;
            i := i + 1;
          }
        case Reason =>
          if i >= n { state := Failed; }
          else if c == CR { i, state := 0, End; }
          else if !IsReasonPhrase(c) { state := Failed; }
          else {
            reason[i] := c;
            i := i + 1;
          }
        case End =>
          state := if c != LF then Failed else Done;
        case Done =>
        case Failed =>
      }
      s := state;
    }
  }
}
