/** How a DNS-over-HTTPS response is cut out of the bytes read from the resolver: status line, headers, message. */
module Framing {
  import opened Bytes
  import StatusLine
  import Headers
  import Dns
  import DnsPrint

  datatype Frame = Frame(status: StatusLine.Parser, headers: Headers.Parser, dns: Dns.Parser) {
    /** The DNS parser has seen nothing until the two before it are done. */
    ghost predicate Valid() {
      && status.Valid() && dns.Valid()
      && (status.state != StatusLine.Done || headers.state != Headers.Done ==> dns == Dns.Init())
    }
  }

  function Init(): (f: Frame)
    ensures f.Valid()
  {
    Frame(StatusLine.Init(), Headers.Init(), Dns.Init())
  }

  /** What the last byte decided. */
  datatype Verdict = Continue | BadGateway | NoMemory | NoRecords | Complete

  function Judge(f: Frame): Verdict {
    if f.status.state != StatusLine.Done then
      if f.status.state == StatusLine.Failed then BadGateway else Continue
    else if f.headers.state != Headers.Done then
      if f.headers.state == Headers.Failed then BadGateway else Continue
    else
      match f.dns.state
      case Done => Complete
      case NoAnswers => NoRecords
      case AllocFailed => NoMemory
      case Failed => BadGateway
      case _ => Continue
  }

  predicate Stopped(f: Frame) { Judge(f) != Continue }

  /** One pass of the loop body: the byte goes to the first parser that is not done. */
  function Step(f: Frame, c: byte, alloc: bool): (g: Frame)
    requires f.Valid()
    ensures g.Valid()
  {
    if f.status.state != StatusLine.Done then f.(status := StatusLine.Feed(f.status, c))
    else if f.headers.state != Headers.Done then f.(headers := Headers.Feed(f.headers, c))
    else if f.dns.state != Dns.Done then
      Dns.FeedKeepsValid(f.dns, c, alloc);
      f.(dns := Dns.Feed(f.dns, c, alloc))
    else f
  }

  /** The loop on the bytes of one read: it stops at the first verdict, or when they run out. */
  function Drain(f: Frame, s: seq<byte>, alloc: bool): (r: (Frame, nat))
    requires f.Valid()
    ensures r.0.Valid() && r.1 <= |s|
    ensures Stopped(r.0) || r.1 == |s|
    decreases |s|
  {
    if s == [] || Stopped(f) then (f, 0)
    else
      var (g, k) := Drain(Step(f, s[0], alloc), s[1..], alloc);
      (g, k + 1)
  }

  lemma FeedKeepsArray(p: Dns.Parser, c: byte, alloc: bool)
    requires p.Valid() && p.answers.Some?
    ensures Dns.Feed(p, c, alloc).answers.Some?
  {
    hide Dns.Parser.Contents, Dns.Parser.Counters, Dns.FinishIpv4, Decimal, Dns.PutName;
  }

  /** An answer array is allocated at most once and never dropped while the response is read. */
  lemma {:induction false} DrainKeepsArray(f: Frame, s: seq<byte>, alloc: bool)
    requires f.Valid() && f.dns.answers.Some?
    ensures Drain(f, s, alloc).0.dns.answers.Some?
    decreases |s|
  {
    hide Frame.Valid, Dns.Feed, StatusLine.Feed, Headers.Feed, Stopped;
    if s != [] && !Stopped(f) {
      if f.status.state == StatusLine.Done && f.headers.state == Headers.Done {
        assert f.dns.Valid() by { DnsValid(f); }
        FeedKeepsArray(f.dns, s[0], alloc);
      }
      DrainKeepsArray(Step(f, s[0], alloc), s[1..], alloc);
    }
  }

  lemma DnsValid(f: Frame)
    requires f.Valid()
    ensures f.dns.Valid()
  {
  }

  /** The same parsers fed every byte, verdict or not. */
  function StepAll(f: Frame, s: seq<byte>, alloc: bool): (g: Frame)
    requires f.Valid()
    ensures g.Valid()
    decreases |s|
  {
    if s == [] then f else StepAll(Step(f, s[0], alloc), s[1..], alloc)
  }

  lemma StoppedAbsorbs(f: Frame, c: byte, alloc: bool)
    requires f.Valid() && Stopped(f)
    ensures Step(f, c, alloc) == f
  {
    hide Frame.Valid, Dns.Feed, Headers.Feed, StatusLine.Feed;
    if f.status.state == StatusLine.Failed {
      StatusLineFailedAbsorbs(f, c);
    } else if f.headers.state == Headers.Failed {
      HeadersFailedAbsorbs(f, c);
    } else if f.dns.state != Dns.Done {
      DnsTerminalAbsorbs(f, c, alloc);
    }
  }

  lemma StatusLineFailedAbsorbs(f: Frame, c: byte)
    requires f.Valid() && f.status.state == StatusLine.Failed
    ensures StatusLine.Feed(f.status, c) == f.status
  {
  }

  lemma HeadersFailedAbsorbs(f: Frame, c: byte)
    requires f.headers.state == Headers.Failed
    ensures Headers.Feed(f.headers, c) == f.headers
  {
  }

  lemma DnsTerminalAbsorbs(f: Frame, c: byte, alloc: bool)
    requires f.Valid() && f.dns.Terminal()
    ensures Dns.Feed(f.dns, c, alloc) == f.dns
  {
    hide Dns.FeedHeader, Dns.FeedQuestion, Dns.FeedName, Dns.FeedFixed, Dns.FeedRdata, Dns.Parser.Valid, StatusLine.Parser.Valid, Dns.Init;
  }

  lemma {:induction false} StoppedForever(f: Frame, s: seq<byte>, alloc: bool)
    requires f.Valid() && Stopped(f)
    ensures StepAll(f, s, alloc) == f
    decreases |s|
  {
    hide Step, Stopped, Frame.Valid;
    if s != [] {
      StoppedAbsorbs(f, s[0], alloc);
      StoppedForever(f, s[1..], alloc);
    }
  }

  /** Stopping early loses nothing: the bytes not taken could not have changed the outcome. */
  lemma {:induction false} DrainIsStepAll(f: Frame, s: seq<byte>, alloc: bool)
    requires f.Valid()
    ensures Drain(f, s, alloc).0 == StepAll(f, s, alloc)
    decreases |s|
  {
    hide Step, Stopped, Frame.Valid;
    if Stopped(f) {
      StoppedForever(f, s, alloc);
    } else if s != [] {
      DrainIsStepAll(Step(f, s[0], alloc), s[1..], alloc);
    }
  }

  lemma MemoryFeed(p: Dns.Parser, c: byte, alloc: bool)
    requires p.Valid()
    ensures Dns.Feed(p, c, alloc) == Dns.Feed(p, c, true) || Dns.Feed(p, c, alloc).state == Dns.AllocFailed
  {
    hide Dns.Parser.Contents, Dns.Parser.Counters, Dns.FeedQuestion, Dns.FeedName, Dns.FeedFixed, Dns.FeedRdata, Dns.Blanks;
  }

  /** Memory matters only to a response that runs out of it. */
  lemma MemoryStep(f: Frame, c: byte, alloc: bool)
    requires f.Valid()
    ensures Step(f, c, alloc) == Step(f, c, true) || Judge(Step(f, c, alloc)) == NoMemory
  {
    hide Frame.Valid, StatusLine.Feed, Headers.Feed, Dns.Feed;
    if f.status.state == StatusLine.Done && f.headers.state == Headers.Done {
      DnsValid(f);
      MemoryFeed(f.dns, c, alloc);
    }
  }

  lemma {:induction false} MemoryIrrelevant(f: Frame, s: seq<byte>, alloc: bool)
    requires f.Valid()
    ensures StepAll(f, s, alloc) == StepAll(f, s, true) || Judge(StepAll(f, s, alloc)) == NoMemory
    decreases |s|
  {
    hide Step, Judge, Frame.Valid;
    if s != [] {
      MemoryStep(f, s[0], alloc);
      var g := Step(f, s[0], alloc);
      if g == Step(f, s[0], true) {
        MemoryIrrelevant(g, s[1..], alloc);
      } else {
        StoppedForever(g, s[1..], alloc);
      }
    }
  }

  lemma StepKeepsArray(f: Frame, c: byte, alloc: bool)
    requires f.Valid() && f.dns.answers.Some?
    ensures Step(f, c, alloc).dns.answers.Some?
  {
    hide Frame.Valid, Dns.Feed, StatusLine.Feed, Headers.Feed;
    if f.status.state == StatusLine.Done && f.headers.state == Headers.Done {
      DnsValid(f);
      FeedKeepsArray(f.dns, c, alloc);
    }
  }

  lemma {:induction false} AllKeepsArray(f: Frame, s: seq<byte>, alloc: bool)
    requires f.Valid() && f.dns.answers.Some?
    ensures StepAll(f, s, alloc).dns.answers.Some?
    decreases |s|
  {
    hide Frame.Valid, Step;
    if s != [] {
      StepKeepsArray(f, s[0], alloc);
      AllKeepsArray(Step(f, s[0], alloc), s[1..], alloc);
    }
  }

  lemma NoMemoryStep(f: Frame, c: byte)
    requires f.Valid() && f.dns.answers.None?
    ensures Step(f, c, false).dns.answers.None?
    ensures Judge(Step(f, c, false)) == NoMemory && Judge(f) != NoMemory ==> Step(f, c, true).dns.answers.Some?
  {
    hide Dns.Parser.Contents, Dns.Parser.Counters, StatusLine.Feed, Headers.Feed, StatusLine.Parser.Valid, Dns.FeedQuestion, Dns.FeedName, Dns.FeedFixed,
      Dns.FeedRdata, Dns.Blanks;
  }

  lemma NoMemoryHasNoArray(f: Frame)
    requires f.Valid() && Judge(f) == NoMemory
    ensures f.dns.answers.None?
  {
    hide Dns.Parser.Contents, Dns.Parser.Counters, StatusLine.Parser.Valid;
  }

  /** Without memory a response runs out of it exactly when reading on would have allocated the answers; all other
      responses read as if there were memory. */
  lemma {:induction false} MemoryExactly(f: Frame, s: seq<byte>)
    requires f.Valid() && Judge(f) != NoMemory
    ensures var needs := f.dns.answers.None? && StepAll(f, s, true).dns.answers.Some?;
            && (needs ==> Judge(StepAll(f, s, false)) == NoMemory)
            && (!needs ==> StepAll(f, s, false) == StepAll(f, s, true))
    decreases |s|
  {
    hide Step, Judge, Frame.Valid;
    MemoryIrrelevant(f, s, false);
    if f.dns.answers.Some? {
      AllKeepsArray(f, s, false);
      if Judge(StepAll(f, s, false)) == NoMemory {
        NoMemoryHasNoArray(StepAll(f, s, false));
      }
    } else if s != [] {
      NoMemoryStep(f, s[0]);
      MemoryStep(f, s[0], false);
      var g, h := Step(f, s[0], false), Step(f, s[0], true);
      if Judge(g) == NoMemory {
        StoppedForever(g, s[1..], false);
        AllKeepsArray(h, s[1..], true);
      } else {
        MemoryExactly(g, s[1..]);
      }
    }
  }

  lemma {:induction false} StepAllConcat(f: Frame, a: seq<byte>, b: seq<byte>, alloc: bool)
    requires f.Valid()
    ensures StepAll(f, a + b, alloc) == StepAll(StepAll(f, a, alloc), b, alloc)
    decreases |a|
  {
    hide Step, Frame.Valid;
    if a == [] {
      assert a + b == b;
    } else {
      assert (a + b)[1..] == a[1..] + b && (a + b)[0] == a[0];
      StepAllConcat(Step(f, a[0], alloc), a[1..], b, alloc);
    }
  }

  // ---- any division into reads -----------------------------------------------------------

  function Flatten(chunks: seq<seq<byte>>): seq<byte> {
    if chunks == [] then [] else chunks[0] + Flatten(chunks[1..])
  }

  /** Successive reads, until one of them ends with a verdict. */
  function DrainReads(f: Frame, chunks: seq<seq<byte>>, alloc: bool): (g: Frame)
    requires f.Valid()
    ensures g.Valid()
    decreases |chunks|
  {
    if chunks == [] || Stopped(f) then f
    else DrainReads(Drain(f, chunks[0], alloc).0, chunks[1..], alloc)
  }

  /** However the response is split into reads, the outcome is that of one unsplit read. */
  lemma {:induction false} ChunkIndependent(f: Frame, chunks: seq<seq<byte>>, alloc: bool)
    requires f.Valid()
    ensures DrainReads(f, chunks, alloc) == Drain(f, Flatten(chunks), alloc).0
    decreases |chunks|
  {
    hide Step, StepAll, Drain, Stopped, Frame.Valid;
    DrainIsStepAll(f, Flatten(chunks), alloc);
    if Stopped(f) {
      StoppedForever(f, Flatten(chunks), alloc);
    } else if chunks == [] {
      NothingToDrain(f, alloc);
    } else {
      var g := Drain(f, chunks[0], alloc).0;
      DrainIsStepAll(f, chunks[0], alloc);
      StepAllConcat(f, chunks[0], Flatten(chunks[1..]), alloc);
      ChunkIndependent(g, chunks[1..], alloc);
      DrainIsStepAll(g, Flatten(chunks[1..]), alloc);
    }
  }

  lemma NothingToDrain(f: Frame, alloc: bool)
    requires f.Valid()
    ensures StepAll(f, [], alloc) == f
  {
  }

  // ---- consecutive segments ----------------------------------------------------------------

  /** The status line is `s[..a]`, the header section `s[a..b]`, the message `s[b..]`: each of the first two
      ends with the byte that makes its parser done, or with the input. */
  ghost predicate Segmented(s: seq<byte>, a: nat, b: nat, alloc: bool) {
    && a <= b <= |s|
    && (var f := StepAll(Init(), s, alloc);
        && f.status == StatusLine.FeedAll(StatusLine.Init(), s[..a])
        && f.headers == Headers.FeedAll(Headers.Init(), s[a..b])
        && f.dns == Dns.FeedAll(Dns.Init(), s[b..], alloc)
        && (a < |s| ==> f.status.state == StatusLine.Done)
        && (b < |s| ==> f.headers.state == Headers.Done))
    && (a > 0 ==> StatusLine.FeedAll(StatusLine.Init(), s[..a - 1]).state != StatusLine.Done)
    && (b > a ==> Headers.FeedAll(Headers.Init(), s[a..b - 1]).state != Headers.Done)
  }

  /** The three parsers consume consecutive segments of the response, each up to where the previous one
      was done. */
  lemma {:induction false} Segments(s: seq<byte>, alloc: bool) returns (a: nat, b: nat)
    ensures Segmented(s, a, b, alloc)
    decreases |s|
  {
    hide Step, StepAll, Segmented, Frame.Valid, StatusLine.Feed, Headers.Feed, Dns.Feed, StatusLine.FeedAll, Headers.FeedAll, Dns.FeedAll;
    if s == [] {
      a, b := 0, 0;
      SegmentsEmpty(alloc);
    } else {
      var t, c := s[..|s| - 1], s[|s| - 1];
      a, b := Segments(t, alloc);
      assert s == t + [c];
      StepAllConcat(Init(), t, [c], alloc);
      StepAllOne(StepAll(Init(), t, alloc), c, alloc);
      var f := StepAll(Init(), t, alloc);
      if f.status.state != StatusLine.Done {
        a, b := ExtendStatus(s, t, c, a, b, alloc);
      } else if f.headers.state != Headers.Done {
        b := ExtendHeaders(s, t, c, a, b, alloc);
      } else {
        ExtendMessage(s, t, c, a, b, alloc);
      }
    }
  }

  lemma SegmentsEmpty(alloc: bool)
    ensures Segmented([], 0, 0, alloc)
  {
  }

  lemma StepAllOne(f: Frame, c: byte, alloc: bool)
    requires f.Valid()
    ensures StepAll(f, [c], alloc) == Step(f, c, alloc)
  {
    hide Step;
    assert [c][1..] == [];
    NothingToDrain(Step(f, c, alloc), alloc);
  }

  lemma ExtendStatus(s: seq<byte>, t: seq<byte>, c: byte, a: nat, b: nat, alloc: bool) returns (a': nat, b': nat)
    requires s == t + [c] && Segmented(t, a, b, alloc)
    requires StepAll(Init(), s, alloc) == Step(StepAll(Init(), t, alloc), c, alloc)
    requires StepAll(Init(), t, alloc).status.state != StatusLine.Done
    ensures Segmented(s, a', b', alloc)
  {
    hide StepAll, Dns.Parser.Valid, StatusLine.Parser.Valid, StatusLine.Feed, Headers.Feed, Dns.Feed, Headers.FeedAll, Dns.FeedAll;
    a', b' := |s|, |s|;
    assert a == |t| && b == |t|;
    assert s[..a' - 1] == t;
    assert t[..a] == t && s[..a'] == t + [c] && t[a..b] == [] && s[a'..b'] == [] && s[b'..] == [] && t[b..] == [];
    StatusLine.FeedAllConcat(StatusLine.Init(), t, [c]);
    StatusLine.Feed2(StatusLine.FeedAll(StatusLine.Init(), t), c, c);
  }

  lemma ExtendHeaders(s: seq<byte>, t: seq<byte>, c: byte, a: nat, b: nat, alloc: bool) returns (b': nat)
    requires s == t + [c] && Segmented(t, a, b, alloc)
    requires StepAll(Init(), s, alloc) == Step(StepAll(Init(), t, alloc), c, alloc)
    requires StepAll(Init(), t, alloc).status.state == StatusLine.Done
    requires StepAll(Init(), t, alloc).headers.state != Headers.Done
    ensures Segmented(s, a, b', alloc)
  {
    hide StepAll, Dns.Parser.Valid, StatusLine.Parser.Valid, StatusLine.Feed, Headers.Feed, Dns.Feed, StatusLine.FeedAll, Headers.FeedAll, Dns.FeedAll;
    b' := |s|;
    assert b == |t|;
    Slices(s, t, c, a);
    assert s[a..b' - 1] == t[a..b] && s[..a] == t[..a];
    assert a > 0 ==> s[..a - 1] == t[..a - 1];
    Headers.FeedAllSnoc(Headers.Init(), s[a..b']);
  }

  lemma Slices(s: seq<byte>, t: seq<byte>, c: byte, a: nat)
    requires s == t + [c] && a <= |t|
    ensures t[..a] == s[..a] && s[a..|s|] == t[a..|t|] + [c] && s[|s|..] == [] && t[|t|..] == []
    ensures |s[a..|s|]| == |t| - a + 1 && s[a..|s|][..|t| - a] == t[a..|t|] && s[a..|s|][|t| - a] == c
  {
  }

  lemma ExtendMessage(s: seq<byte>, t: seq<byte>, c: byte, a: nat, b: nat, alloc: bool)
    requires s == t + [c] && Segmented(t, a, b, alloc)
    requires StepAll(Init(), s, alloc) == Step(StepAll(Init(), t, alloc), c, alloc)
    requires StepAll(Init(), t, alloc).status.state == StatusLine.Done
    requires StepAll(Init(), t, alloc).headers.state == Headers.Done
    ensures Segmented(s, a, b, alloc)
  {
    hide StepAll, Dns.Parser.Valid, StatusLine.Parser.Valid, StatusLine.Feed, Headers.Feed, Dns.Feed, StatusLine.FeedAll, Headers.FeedAll, Dns.FeedAll;
    assert t[..a] == s[..a] && t[a..b] == s[a..b];
    assert a > 0 ==> s[..a - 1] == t[..a - 1];
    assert b > a ==> s[a..b - 1] == t[a..b - 1];
    assert s[b..] == t[b..] + [c] && s[b..][..|s[b..]| - 1] == t[b..];
    Dns.FeedAllSnoc(Dns.Init(), s[b..], alloc);
    var p := Dns.FeedAll(Dns.Init(), t[b..], alloc);
    if p.state == Dns.Done {
      Dns.TerminalAbsorbs(p, [c], alloc);
      Dns.FeedAllOne(p, c, alloc);
    }
  }

  /** The verdict on a response is that of the segment it stops in: a malformed status line, header section or
      record is a bad gateway, a zero ANCOUNT no records, and the last byte of the last answer makes it complete. */
  lemma VerdictOfSegments(s: seq<byte>, a: nat, b: nat, alloc: bool)
    requires Segmented(s, a, b, alloc)
    ensures var v := Judge(StepAll(Init(), s, alloc));
            var p, h, d := StatusLine.FeedAll(StatusLine.Init(), s[..a]), Headers.FeedAll(Headers.Init(), s[a..b]), Dns.FeedAll(Dns.Init(), s[b..], alloc);
            && (v == BadGateway <==> p.state == StatusLine.Failed || h.state == Headers.Failed || d.state == Dns.Failed)
            && (v == NoRecords <==> |s| - b >= 8 && s[b + 6] == 0 && s[b + 7] == 0)
            && (v == NoMemory <==> |s| - b >= 8 && !(s[b + 6] == 0 && s[b + 7] == 0) && !alloc)
            && (v == Complete <==> d.state == Dns.Done)
  {
    hide StepAll, StatusLine.FeedAll, Headers.FeedAll, Dns.FeedAll, StatusLine.Parser.Valid, Dns.Parser.Valid;
    var f := StepAll(Init(), s, alloc);
    Dns.CountDecides(s[b..], alloc);
    var d := f.dns;
    if b == |s| {
      NothingParsed(s[b..], alloc);
    }
    if a == |s| {
      NoSection(s[a..b]);
    }
    if f.status.state != StatusLine.Done || f.headers.state != Headers.Done {
      assert a == |s| || b == |s|;
    }
  }

  lemma NothingParsed(s: seq<byte>, alloc: bool)
    requires s == []
    ensures Dns.FeedAll(Dns.Init(), s, alloc) == Dns.Init()
  {
  }

  lemma NoSection(s: seq<byte>)
    requires s == []
    ensures Headers.FeedAll(Headers.Init(), s) == Headers.Init()
  {
  }

  /** The message the DNS parser sees starts right after the first blank line of the header section: a blank
      line ends where it starts, and no earlier one does. */
  lemma MessageFollowsBlankLine(s: seq<byte>, alloc: bool) returns (a: nat, b: nat)
    ensures Segmented(s, a, b, alloc)
    ensures b < |s| ==> Headers.BlankLineAt(s[a..b], b - a)
                        && forall k :: 0 <= k < b - a ==> !Headers.BlankLineAt(s[a..b], k)
  {
    hide Segmented, Headers.BlankLineAt;
    a, b := Segments(s, alloc);
    if b < |s| {
      HeadersEnd(s, a, b, alloc);
      FirstBlankLine(s[a..b]);
    }
  }

  lemma HeadersEnd(s: seq<byte>, a: nat, b: nat, alloc: bool)
    requires Segmented(s, a, b, alloc)
    ensures a <= b <= |s|
    ensures b < |s| ==> Headers.FeedAll(Headers.Init(), s[a..b]).state == Headers.Done
    ensures a < b ==> Headers.FeedAll(Headers.Init(), s[a..b][..b - a - 1]).state != Headers.Done
  {
    hide StepAll, Headers.FeedAll, StatusLine.FeedAll, Dns.FeedAll, Frame.Valid, Dns.Parser.Valid, StatusLine.Parser.Valid;
    assert a < b ==> s[a..b][..b - a - 1] == s[a..b - 1];
  }

  lemma FirstBlankLine(h: seq<byte>)
    requires Headers.FeedAll(Headers.Init(), h).state == Headers.Done
    requires h != [] ==> Headers.FeedAll(Headers.Init(), h[..|h| - 1]).state != Headers.Done
    ensures Headers.BlankLineAt(h, |h|) && forall k :: 0 <= k < |h| ==> !Headers.BlankLineAt(h, k)
  {
    hide Headers.FeedAll, Headers.BlankLineAt;
    NoHeadersYet(h);
    Headers.DoneAtBlankLine(h);
  }

  lemma NoHeadersYet(s: seq<byte>)
    requires Headers.FeedAll(Headers.Init(), s).state == Headers.Done
    ensures s != []
  {
  }

  // ---- a whole printed response ---------------------------------------------------------------

  lemma {:induction false} StatusPhase(f: Frame, s: seq<byte>, alloc: bool)
    requires f.Valid() && (s != [] ==> StatusLine.FeedAll(f.status, s[..|s| - 1]).state != StatusLine.Done)
    ensures StepAll(f, s, alloc) == f.(status := StatusLine.FeedAll(f.status, s))
    decreases |s|
  {
    hide StatusLine.Feed, Headers.Feed, Dns.Feed;
    if s != [] {
      if f.status.state == StatusLine.Done {
        DoneStatusAbsorbs(f.status, s[..|s| - 1]);
      }
      assert s[..|s| - 1] == if |s| == 1 then [] else [s[0]] + s[1..][..|s[1..]| - 1];
      StatusPhase(Step(f, s[0], alloc), s[1..], alloc);
    }
  }

  lemma {:induction false} DoneStatusAbsorbs(p: StatusLine.Parser, s: seq<byte>)
    requires p.Valid() && p.state == StatusLine.Done
    ensures StatusLine.FeedAll(p, s) == p
    decreases |s|
  {
    if s != [] {
      DoneStatusAbsorbs(p, s[1..]);
    }
  }

  lemma {:induction false} HeadersPhase(f: Frame, s: seq<byte>, alloc: bool)
    requires f.Valid() && f.status.state == StatusLine.Done
    requires s != [] ==> Headers.FeedAll(f.headers, s[..|s| - 1]).state != Headers.Done
    ensures StepAll(f, s, alloc) == f.(headers := Headers.FeedAll(f.headers, s))
    decreases |s|
  {
    hide StatusLine.Feed, Headers.Feed, Dns.Feed;
    if s != [] {
      if f.headers.state == Headers.Done {
        DoneHeadersAbsorb(f.headers, s[..|s| - 1]);
      }
      assert s[..|s| - 1] == if |s| == 1 then [] else [s[0]] + s[1..][..|s[1..]| - 1];
      HeadersPhase(Step(f, s[0], alloc), s[1..], alloc);
    }
  }

  lemma {:induction false} DoneHeadersAbsorb(p: Headers.Parser, s: seq<byte>)
    requires p.state == Headers.Done
    ensures Headers.FeedAll(p, s) == p
    decreases |s|
  {
    if s != [] {
      DoneHeadersAbsorb(p, s[1..]);
    }
  }

  lemma {:induction false} MessagePhase(f: Frame, s: seq<byte>, alloc: bool)
    requires f.Valid() && f.status.state == StatusLine.Done && f.headers.state == Headers.Done
    ensures StepAll(f, s, alloc) == f.(dns := Dns.FeedAll(f.dns, s, alloc))
    decreases |s|
  {
    hide StatusLine.Feed, Headers.Feed, Dns.Feed, Dns.Parser.Valid;
    if s != [] {
      if f.dns.state == Dns.Done {
        Dns.TerminalAbsorbs(f.dns, s, alloc);
        Dns.TerminalAbsorbs(f.dns, s[1..], alloc);
      }
      MessagePhase(Step(f, s[0], alloc), s[1..], alloc);
    }
  }

  /** Status line, headers, then the given bytes of a message. */
  lemma MessageSeen(l: StatusLine.Line, fs: seq<Headers.Field>, msg: seq<byte>)
    requires l.Printable() && fs != [] && (forall k :: 0 <= k < |fs| ==> fs[k].Printable())
    ensures var s := StatusLine.Print(l) + Headers.Print(fs) + msg;
            var f := StepAll(Init(), s, true);
            && Drain(Init(), s, true).0 == f
            && f.status.state == StatusLine.Done && f.headers.state == Headers.Done && f.status.code == l.code
            && f.dns == Dns.FeedAll(Dns.Init(), msg, true)
  {
    hide Step, StepAll, Drain, StatusLine.FeedAll, Headers.FeedAll, Dns.FeedAll, StatusLine.Print, Headers.Print,
      Dns.Parser.Valid, StatusLine.Parser.Valid;
    var s1, s2 := StatusLine.Print(l), Headers.Print(fs);
    DrainIsStepAll(Init(), s1 + s2 + msg, true);
    StatusLine.RoundTrip(l);
    Headers.RoundTrip(fs);
    StatusPhase(Init(), s1, true);
    StepAllConcat(Init(), s1, s2, true);
    HeadersPhase(StepAll(Init(), s1, true), s2, true);
    StepAllConcat(Init(), s1 + s2, msg, true);
    MessagePhase(StepAll(Init(), s1 + s2, true), msg, true);
  }

  /** A printed HTTP response around a printed DNS message, in any number of reads and whatever follows it,
      is complete with exactly the printed answers. */
  lemma ResponseRoundTrip(l: StatusLine.Line, fs: seq<Headers.Field>, m: DnsPrint.Message, extra: seq<byte>, chunks: seq<seq<byte>>)
    requires l.Printable() && fs != [] && (forall k :: 0 <= k < |fs| ==> fs[k].Printable()) && DnsPrint.MessageOk(m)
    requires Flatten(chunks) == StatusLine.Print(l) + Headers.Print(fs) + DnsPrint.Print(m) + extra
    ensures var f := DrainReads(Init(), chunks, true);
            && Judge(f) == Complete && f.status.code == l.code
            && f.dns == Dns.FeedAll(Dns.Init(), DnsPrint.Print(m), true)
            && f.dns.answers.Some? && |f.dns.answers.value| == |m.answers|
            && forall k :: 0 <= k < |m.answers| ==> f.dns.answers.value[k] == DnsPrint.AnswerOf(m.answers[k])
  {
    hide Step, StepAll, Drain, DrainReads, Dns.FeedAll, StatusLine.Print, Headers.Print, DnsPrint.Print, DnsPrint.MessageOk, DnsPrint.AnswerOf,
      Dns.Parser.Valid, StatusLine.Parser.Valid;
    var s := StatusLine.Print(l) + Headers.Print(fs) + DnsPrint.Print(m);
    ChunkIndependent(Init(), chunks, true);
    DrainIsStepAll(Init(), Flatten(chunks), true);
    MessageSeen(l, fs, DnsPrint.Print(m));
    DnsPrint.ParseOfPrint(m);
    StepAllConcat(Init(), s, extra, true);
    StoppedForever(StepAll(Init(), s, true), extra, true);
  }
}
