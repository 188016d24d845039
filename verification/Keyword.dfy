/** Case-insensitive keyword matching by a generated transition table. */
module Keyword {
  import opened Bytes

  const MAX_STATES := 64
  const ANY := 0x200

  datatype Event = MayEq | Equal | NotEqual

  datatype Transition = Transition(condition: nat, dest: nat, event: Event)

  function Lower(c: byte): byte { if 65 <= c <= 90 then c + 32 else c }

  function Upper(c: byte): byte { if 97 <= c <= 122 then c - 32 else c }

  /** A keyword the table has room for: ASCII, no NUL, two states left over. */
  predicate IsKeyword(s: seq<byte>) { 1 <= |s| <= MAX_STATES - 2 && forall k :: 0 <= k < |s| ==> 1 <= s[k] < 128 }

  predicate SameLetter(a: byte, b: byte) { Lower(a) == Lower(b) }

  predicate SameText(a: seq<byte>, b: seq<byte>) { |a| == |b| && forall k :: 0 <= k < |a| ==> SameLetter(a[k], b[k]) }

  // ---- the table -----------------------------------------------------------------------------------

  function Fallback(s: seq<byte>): Transition { Transition(ANY, |s| + 1, NotEqual) }

  function Row(s: seq<byte>, i: nat): seq<Transition> {
    if i < |s| then
      var e := if i + 1 == |s| then Equal else MayEq;
      [Transition(Lower(s[i]), i + 1, e), Transition(Upper(s[i]), i + 1, e), Fallback(s)]
    else if i <= |s| + 1 then [Fallback(s)]
    else []
  }

  predicate Matches(t: Transition, c: byte) { if t.condition <= 0xFF then c == t.condition else t.condition == ANY }

  /** The first transition of a row that matches. */
  function First(row: seq<Transition>, c: byte): Option<Transition> {
    if row == [] then None else if Matches(row[0], c) then Some(row[0]) else First(row[1..], c)
  }

  method BuildTable(s: seq<byte>) returns (states: array<seq<Transition>>)
    requires IsKeyword(s)
    ensures fresh(states) && states.Length == MAX_STATES
    ensures forall i :: 0 <= i < MAX_STATES ==> states[i] == Row(s, i)
  {
    states := new seq<Transition>[MAX_STATES](_ => []);
    var n := |s|;
    for i := 0 to n
      invariant forall k :: 0 <= k < i ==> states[k] == Row(s, k)
      invariant forall k :: i <= k < MAX_STATES ==> states[k] == []
    {
      var dest := if i + 1 == n then n else i + 1;
      var e := if i + 1 == n then Equal else MayEq;
      states[i] := [Transition(Lower(s[i]), dest, e), Transition(Upper(s[i]), dest, e), Transition(ANY, n + 1, NotEqual)];
    }
    states[n] := [Transition(ANY, n + 1, NotEqual)];
    states[n + 1] := [Transition(ANY, n + 1, NotEqual)];
  }

  class StringParser {
    const states: array<seq<Transition>>
    ghost const keyword: seq<byte>
    var state: nat
    var event: Event

    ghost predicate Valid()
      reads this, states
    {
      && IsKeyword(keyword) && states.Length == MAX_STATES && state <= |keyword| + 1
      && forall i :: 0 <= i < MAX_STATES ==> states[i] == Row(keyword, i)
    }

    constructor (s: seq<byte>)
      requires IsKeyword(s)
      ensures Valid() && keyword == s && state == 0 && fresh(states)
    {
      var table := BuildTable(s);
      states, keyword, state, event := table, s, 0, MayEq;
    }

    method Reset()
      requires Valid()
      modifies `state
      ensures Valid() && state == 0
    {
      state := 0;
    }

    /** `parser_feed`: the transitions of the current state are tried in order. */
    method Feed(c: byte) returns (e: Event)
      requires Valid()
      modifies `state, `event
      ensures Valid() && (state, e) == Step(keyword, old(state), c) && event == e
    {
      var row := states[state];
      RowStep(keyword, state, c);
      var i := 0;
      while i < |row|
        invariant 0 <= i <= |row| && state == old(state)
        invariant First(row, c) == First(row[i..], c)
        decreases |row| - i
      {
        if Matches(row[i], c) {
          event, state := row[i].event, row[i].dest;
          break;
        }
        assert row[i..][1..] == row[i + 1..];
        i := i + 1;
      }
      e := event;
    }
  }

  // ---- what the table decides ------------------------------------------------------------------------

  /** Matched bytes so far (one past the end once equal, two once different) and what the next byte says. */
  function Step(s: seq<byte>, state: nat, c: byte): (r: (nat, Event)) {
    if state < |s| && SameLetter(s[state], c) then (state + 1, if state + 1 == |s| then Equal else MayEq)
    else (|s| + 1, NotEqual)
  }

  /** The generated row does what the comparison says, for every byte. */
  lemma RowStep(s: seq<byte>, state: nat, c: byte)
    requires IsKeyword(s) && state <= |s| + 1
    ensures var t := First(Row(s, state), c);
            t.Some? && (t.value.dest, t.value.event) == Step(s, state, c)
  {
    var row := Row(s, state);
    var last := [Fallback(s)];
    FirstCons(Fallback(s), [], c);
    assert last == [Fallback(s)] + [];
    if state < |s| {
      assert 1 <= s[state] < 128;
      FirstCons(row[1], last, c);
      FirstCons(row[0], [row[1]] + last, c);
      assert row == [row[0]] + ([row[1]] + last);
    }
  }

  lemma FirstCons(t: Transition, rest: seq<Transition>, c: byte)
    ensures First([t] + rest, c) == if Matches(t, c) then Some(t) else First(rest, c)
  {
    assert ([t] + rest)[1..] == rest;
  }

  /** State and last event after a non-empty input. */
  function Run(s: seq<byte>, input: seq<byte>): (r: (nat, Event))
    requires input != []
  {
    if |input| == 1 then Step(s, 0, input[0])
    else Step(s, Run(s, input[..|input| - 1]).0, input[|input| - 1])
  }

  /** EQ exactly on the keyword in any case, MAYEQ exactly on its proper prefixes, NEQ on everything else. */
  lemma {:induction false} Verdict(s: seq<byte>, input: seq<byte>)
    requires IsKeyword(s) && input != []
    ensures Run(s, input).1 == Equal <==> SameText(input, s)
    ensures Run(s, input).1 == MayEq <==> |input| < |s| && SameText(input, s[..|input|])
    ensures Run(s, input).0 == if |input| <= |s| && SameText(input, s[..|input|]) then |input| else |s| + 1
    decreases |input|
  {
    assert s[..|s|] == s;
    if |input| > 1 {
      var t, c := input[..|input| - 1], input[|input| - 1];
      Verdict(s, t);
      if |input| <= |s| {
        PrefixSnoc(s, t, c);
        assert t + [c] == input;
      }
    }
  }

  lemma PrefixSnoc(s: seq<byte>, t: seq<byte>, c: byte)
    requires |t| < |s|
    ensures SameText(t + [c], s[..|t| + 1]) <==> SameText(t, s[..|t|]) && SameLetter(s[|t|], c)
  {
    var u := t + [c];
    if SameText(u, s[..|t| + 1]) {
      forall k | 0 <= k < |t| ensures SameLetter(t[k], s[..|t|][k]) {
        assert u[k] == t[k] && s[..|t| + 1][k] == s[k];
      }
      assert SameLetter(u[|t|], s[..|t| + 1][|t|]);
    }
    if SameText(t, s[..|t|]) {
      forall k | 0 <= k < |t| ensures SameLetter(u[k], s[..|t| + 1][k]) {
        assert SameLetter(t[k], s[..|t|][k]);
      }
    }
  }

  // ---- searching with a reset on every mismatch ---------------------------------------------------------

  /** State after `input` when the automaton goes back to the start at every mismatch, and the last event. */
  function Search(s: seq<byte>, input: seq<byte>): (r: (nat, Event))
    decreases |input|
  {
    if input == [] then (0, NotEqual)
    else
      var (st, e) := Step(s, Search(s, input[..|input| - 1]).0, input[|input| - 1]);
      (if e == NotEqual then 0 else st, e)
  }

  /** The input ends with the first `st` bytes of the keyword. */
  ghost predicate EndsWith(input: seq<byte>, s: seq<byte>, st: nat) {
    st <= |s| && st <= |input| && SameText(input[|input| - st..], s[..st])
  }

  lemma EndsLonger(t: seq<byte>, c: byte, s: seq<byte>, st: nat)
    requires EndsWith(t, s, st) && st < |s| && SameLetter(s[st], c)
    ensures EndsWith(t + [c], s, st + 1)
  {
    hide SameLetter, SameText;
    PrefixSnoc(s, t[|t| - st..], c);
    assert (t + [c])[|t| + 1 - (st + 1)..] == t[|t| - st..] + [c];
  }

  lemma EndsEmpty(t: seq<byte>, s: seq<byte>)
    ensures EndsWith(t, s, 0)
  {
  }

  /** The state counts how many of the last bytes match, so EQ means the input ends with the keyword. */
  lemma {:induction false} SearchFindsSuffix(s: seq<byte>, input: seq<byte>)
    requires IsKeyword(s)
    ensures var (st, e) := Search(s, input); EndsWith(input, s, st) && (e == Equal ==> st == |s|)
    decreases |input|
  {
    hide EndsWith, SameLetter;
    EndsEmpty(input, s);
    if input != [] {
      var t, c := input[..|input| - 1], input[|input| - 1];
      assert input == t + [c];
      SearchFindsSuffix(s, t);
      var st := Search(s, t).0;
      if st < |s| && SameLetter(s[st], c) {
        EndsLonger(t, c, s, st);
      }
    }
  }
}
