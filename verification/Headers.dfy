/** The incremental header-section parser (section 3.2 of RFC 7230). */
module Headers {
  import opened Bytes

  const MAX_HEADER_FIELD_NAME_LENGTH := 128
  const MAX_HEADER_FIELD_VALUE_LENGTH := 1024

  datatype State = FieldName | FieldValue | FieldValueEnd | MayBeEnd | End | Done | Failed

  /** `i` is compared with `n` but never advanced, so neither length limit ever bites. */
  datatype Parser = Parser(state: State, count: nat, i: nat, n: nat)

  function Init(): Parser {
    Parser(FieldName, 0, 0, MAX_HEADER_FIELD_NAME_LENGTH)
  }

  function Feed(p: Parser, c: byte): Parser {
    match p.state
    case FieldName =>
      if p.i >= p.n then p.(state := Failed)
      else if c == COLON then
        Parser(FieldValue, (p.count + 1) % 0x1_0000_0000, 0, MAX_HEADER_FIELD_VALUE_LENGTH)
      else if !IsToken(c) then p.(state := Failed)
      else p
    case FieldValue =>
      if p.i >= p.n then p.(state := Failed)
      else if c == CR then p.(state := FieldValueEnd)
      else if IsVchar(c) || IsSpace(c) then p
      else p.(state := Failed)
    case FieldValueEnd => p.(state := if c != LF then Failed else MayBeEnd)
    case MayBeEnd =>
      if c == CR then p.(state := End)
      else if !IsToken(c) then p.(state := Failed)
      else p.(i := 0, n := MAX_HEADER_FIELD_NAME_LENGTH, state := FieldName)
    case End => p.(state := if c != LF then Failed else Done)
    case Done => p
    case Failed => p
  }

  function FeedAll(p: Parser, s: seq<byte>): Parser
    decreases |s|
  {
    if s == [] then p else FeedAll(Feed(p, s[0]), s[1..])
  }

  lemma {:induction false} FeedAllConcat(p: Parser, a: seq<byte>, b: seq<byte>)
    ensures FeedAll(p, a + b) == FeedAll(FeedAll(p, a), b)
    decreases |a|
  {
    if a == [] {
      assert a + b == b;
    } else {
      assert (a + b)[1..] == a[1..] + b;
      FeedAllConcat(Feed(p, a[0]), a[1..], b);
    }
  }

  lemma FeedAllSnoc(p: Parser, s: seq<byte>)
    requires s != []
    ensures FeedAll(p, s) == Feed(FeedAll(p, s[..|s| - 1]), s[|s| - 1])
  {
    var a, c := s[..|s| - 1], s[|s| - 1];
    assert s == a + [c];
    FeedAllConcat(p, a, [c]);
    assert [c][1..] == [];
    assert FeedAll(FeedAll(p, a), [c]) == FeedAll(Feed(FeedAll(p, a), c), []);
  }

  // ---- the blank line -------------------------------------------------------

  /** CR LF CR LF ends at position `k` of `s`. */
  predicate BlankLineAt(s: seq<byte>, k: nat) {
    4 <= k <= |s| && s[k - 4] == CR && s[k - 3] == LF && s[k - 2] == CR && s[k - 1] == LF
  }

  /** While no blank line has been read, the state says how much of one has. */
  ghost predicate StateMatchesTail(state: State, s: seq<byte>) {
    var n := |s|;
    && (state == FieldValueEnd || state == End <==> n >= 1 && s[n - 1] == CR)
    && (state == MayBeEnd <==> n >= 2 && s[n - 2] == CR && s[n - 1] == LF)
    && (state == End <==> n >= 3 && s[n - 3] == CR && s[n - 2] == LF && s[n - 1] == CR)
  }

  lemma TailStep(p: Parser, s: seq<byte>)
    requires s != [] && p.state != Failed && p.state != Done && StateMatchesTail(p.state, s[..|s| - 1])
    ensures var q := Feed(p, s[|s| - 1]).state;
            && (q != Failed && q != Done ==> StateMatchesTail(q, s) && !BlankLineAt(s, |s|))
            && (q == Done ==> BlankLineAt(s, |s|))
  {
  }

  lemma {:induction false} TailOfState(s: seq<byte>)
    requires FeedAll(Init(), s).state != Failed && FeedAll(Init(), s).state != Done
    ensures StateMatchesTail(FeedAll(Init(), s).state, s)
    ensures forall k :: 0 <= k <= |s| ==> !BlankLineAt(s, k)
    decreases |s|
  {
    if s != [] {
      var a := s[..|s| - 1];
      FeedAllSnoc(Init(), s);
      TailOfState(a);
      TailStep(FeedAll(Init(), a), s);
      NoEarlierBlankLine(s, a);
    }
  }

  lemma NoEarlierBlankLine(s: seq<byte>, a: seq<byte>)
    requires s != [] && a == s[..|s| - 1] && forall k :: 0 <= k <= |a| ==> !BlankLineAt(a, k)
    ensures forall k :: 0 <= k < |s| ==> !BlankLineAt(s, k)
  {
    forall k | 0 <= k < |s| ensures !BlankLineAt(s, k) {
      assert !BlankLineAt(a, k);
    }
  }

  /** The header section ends at the first blank line and nowhere else: on input the parser does not
      reject, it is done exactly when a blank line has been read, and it turns done on that line's LF. */
  lemma DoneAtBlankLine(s: seq<byte>)
    requires FeedAll(Init(), s).state != Failed
    ensures FeedAll(Init(), s).state == Done <==> exists k :: 0 <= k <= |s| && BlankLineAt(s, k)
    ensures s != [] && FeedAll(Init(), s).state == Done && FeedAll(Init(), s[..|s| - 1]).state != Done
            ==> BlankLineAt(s, |s|) && forall k :: 0 <= k < |s| ==> !BlankLineAt(s, k)
  {
    if FeedAll(Init(), s).state == Done {
      var k := DoneHasBlankLine(s);
    } else {
      TailOfState(s);
    }
    if s != [] && FeedAll(Init(), s).state == Done && FeedAll(Init(), s[..|s| - 1]).state != Done {
      FeedAllSnoc(Init(), s);
      TailOfState(s[..|s| - 1]);
      TailStep(FeedAll(Init(), s[..|s| - 1]), s);
      NoEarlierBlankLine(s, s[..|s| - 1]);
    }
  }

  lemma {:induction false} DoneHasBlankLine(s: seq<byte>) returns (k: nat)
    requires FeedAll(Init(), s).state == Done
    ensures k <= |s| && BlankLineAt(s, k)
    decreases |s|
  {
    var a := s[..|s| - 1];
    FeedAllSnoc(Init(), s);
    var p := FeedAll(Init(), a);
    if p.state == Done {
      k := DoneHasBlankLine(a);
    } else {
      k := |s|;
      TailOfState(a);
      TailStep(p, s);
    }
  }

  // ---- printing -------------------------------------------------------------

  datatype Field = Field(name: seq<byte>, value: seq<byte>) {
    predicate Printable() {
      && name != [] && (forall k :: 0 <= k < |name| ==> IsToken(name[k]))
      && forall k :: 0 <= k < |value| ==> IsVchar(value[k]) || IsSpace(value[k])
    }
  }

  function PrintField(f: Field): seq<byte> { f.name + [COLON] + f.value + [CR, LF] }

  function PrintFields(fs: seq<Field>): seq<byte> {
    if fs == [] then [] else PrintField(fs[0]) + PrintFields(fs[1..])
  }

  /** *( header-field CRLF ) CRLF */
  function Print(fs: seq<Field>): seq<byte> { PrintFields(fs) + [CR, LF] }

  /** A place where a field name may start. */
  predicate AtFieldStart(p: Parser) {
    p.state == MayBeEnd || (p.state == FieldName && p.i < p.n)
  }

  lemma {:induction false} FeedName(p: Parser, name: seq<byte>)
    requires p.state == FieldName && p.i < p.n && forall k :: 0 <= k < |name| ==> IsToken(name[k])
    ensures FeedAll(p, name) == p
    decreases |name|
  {
    if name != [] {
      assert IsToken(name[0]) && name[0] != COLON;
      FeedName(p, name[1..]);
    }
  }

  lemma {:induction false} FeedValue(p: Parser, value: seq<byte>)
    requires p.state == FieldValue && p.i < p.n
    requires forall k :: 0 <= k < |value| ==> IsVchar(value[k]) || IsSpace(value[k])
    ensures FeedAll(p, value) == p
    decreases |value|
  {
    if value != [] {
      FeedValue(p, value[1..]);
    }
  }

  lemma FeedField(p: Parser, f: Field)
    requires AtFieldStart(p) && f.Printable()
    ensures FeedAll(p, PrintField(f)).state == MayBeEnd
    ensures FeedAll(p, PrintField(f)).count == (p.count + 1) % 0x1_0000_0000
  {
    var p1 := Feed(p, f.name[0]);
    assert IsToken(f.name[0]) && f.name[0] != COLON && f.name[0] != CR;
    FeedName(p1, f.name[1..]);
    assert FeedAll(p, f.name) == p1;
    FeedAllConcat(p, f.name, [COLON]);
    var p2 := FeedAll(p, f.name + [COLON]);
    FeedAllSnoc(p1, [COLON]);
    assert p2 == Feed(p1, COLON);
    FeedValue(p2, f.value);
    FeedAllConcat(p, f.name + [COLON], f.value);
    FeedAllConcat(p, f.name + [COLON] + f.value, [CR, LF]);
    FeedAllSnoc(p2, [CR, LF]);
    assert [CR, LF][..1] == [CR];
    FeedAllSnoc(p2, [CR]);
  }

  lemma {:induction false} FeedFields(p: Parser, fs: seq<Field>)
    requires fs != [] && AtFieldStart(p) && forall k :: 0 <= k < |fs| ==> fs[k].Printable()
    ensures FeedAll(p, PrintFields(fs)).state == MayBeEnd
    ensures FeedAll(p, PrintFields(fs)).count == (p.count + |fs|) % 0x1_0000_0000
    decreases |fs|
  {
    FeedField(p, fs[0]);
    var p1 := FeedAll(p, PrintField(fs[0]));
    FeedAllConcat(p, PrintField(fs[0]), PrintFields(fs[1..]));
    if |fs| == 1 {
      assert fs[1..] == [];
    } else {
      FeedFields(p1, fs[1..]);
    }
  }

  /** A printed header section is accepted exactly when it has a field; it is then counted and ends at its own
      blank line. The empty section is rejected at its first byte. */
  lemma RoundTrip(fs: seq<Field>)
    requires forall k :: 0 <= k < |fs| ==> fs[k].Printable()
    ensures FeedAll(Init(), Print(fs)).state == (if fs != [] then Done else Failed)
    ensures fs != [] ==> FeedAll(Init(), Print(fs)).count == |fs| % 0x1_0000_0000
    ensures fs != [] ==> FeedAll(Init(), Print(fs)[..|Print(fs)| - 1]).state == End
    ensures fs == [] ==> FeedAll(Init(), Print(fs)[..1]).state == Failed
  {
    if fs == [] {
      EmptySection();
      return;
    }
    FeedFields(Init(), fs);
    var p := FeedAll(Init(), PrintFields(fs));
    FeedAllConcat(Init(), PrintFields(fs), [CR]);
    FeedAllSnoc(p, [CR]);
    FeedAllSnoc(Init(), Print(fs));
    assert Print(fs)[..|Print(fs)| - 1] == PrintFields(fs) + [CR];
  }

  lemma EmptySection()
    ensures Print([]) == [CR, LF] && FeedAll(Init(), [CR, LF][..1]).state == Failed && FeedAll(Init(), [CR, LF]).state == Failed
  {
    assert Print([]) == [CR, LF] && [CR, LF][..1] == [CR] && [CR, LF][1..] == [LF] && [CR][1..] == [] && [LF][1..] == [];
    var p := Feed(Init(), CR);
    assert FeedAll(p, []) == p;
    assert FeedAll(p, [LF]) == FeedAll(Feed(p, LF), []);
  }

  class HeadersParser {
    var state: State
    var count: nat
    var i: nat
    var n: nat

    ghost function View(): Parser
      reads this
    {
      Parser(state, count, i, n)
    }

    constructor ()
      ensures View() == Init()
    {
      state, count, i, n := FieldName, 0, 0, MAX_HEADER_FIELD_NAME_LENGTH;
    }

    method Reinit()
      modifies this
      ensures View() == Init()
    {
      state, count, i, n := FieldName, 0, 0, MAX_HEADER_FIELD_NAME_LENGTH;
    }

    method FeedByte(c: byte) returns (s: State)
      modifies this
      ensures View() == Feed(old(View()), c) && s == state
    {
      match state {
        case FieldName =>
          if i >= n {
            state := Failed;
          } else if c == COLON {
            count := (count + 1) % 0x1_0000_0000;
            i, n, state := 0, MAX_HEADER_FIELD_VALUE_LENGTH, FieldValue;
          } else if !IsToken(c) {
            state := Failed;
          }
        case FieldValue =>
          if i >= n {
            state := Failed;
          } else if c == CR {
            state := FieldValueEnd;
          } else if !IsVchar(c) && !IsSpace(c) {
            state := Failed;
          }
        case FieldValueEnd =>
          state := if c != LF then Failed else MayBeEnd;
        case MayBeEnd =>
          if c == CR {
            state := End;
          } else if !IsToken(c) {
            state := Failed;
          } else {
            i, n, state := 0, MAX_HEADER_FIELD_NAME_LENGTH, FieldName;
          }
        case End =>
          state := if c != LF then Failed else Done;
        case Done =>
        case Failed =>
      }
      s := state;
    }
  }
}
