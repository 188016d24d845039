/** Runs: how a new connection gets to each stage of its setup. */
module Reach {
  import opened Bytes
  import opened Buffers
  import RequestLine
  import RequestPrint
  import Rewrite
  import Inet
  import StatusLine
  import Headers
  import Dns
  import DnsPrint
  import Framing
  import opened Failover
  import opened Machine
  import opened Invariant
  import opened SetupProof
  import opened StepProof
  import opened Runs
  import opened Resolution
  import Transitions

  /** Every foreign call succeeds. */
  const CALM: Env := Env([Registered], true, true)

  /** A request for a host that is a name. */
  predicate AsksName(r: RequestPrint.Request) { r.Printable() && RequestPrint.HostOf(r).Domain? }

  /** The parser after the printed line, and the request built from it. */
  function LineParser(r: RequestPrint.Request): (q: RequestLine.Parser)
    requires r.Printable()
    ensures q.InBounds()
  {
    RequestLine.FeedAll(RequestLine.Init(), RequestPrint.Print(r))
  }

  function Asked(r: RequestPrint.Request): Request
    requires r.Printable()
  {
    BuildRequest(LineParser(r))
  }

  /** The run goes one event further. */
  lemma Extend(cfg: Config, es: seq<Event>, cs: seq<Conn>, e: Event) returns (fs: seq<Event>, ds: seq<Conn>)
    requires Run(cfg, es, cs) && Fits(cfg) && Enabled(cs[|es|], e)
    ensures fs == es + [e] && cs[|es|].Sound() && ds == cs + [Next(cfg, cs[|es|], e)] && Run(cfg, fs, ds)
  {
    hide Inv, Next, Conn.Sound, Fresh, Enabled, Finished;
    var c := cs[|es|];
    RunKeeps(cfg, es, cs, |es|);
    EnabledRuns(c, e);
    InvSound(c);
    fs, ds := es + [e], cs + [Next(cfg, c, e)];
    forall i | 0 <= i < |fs| ensures Enabled(ds[i], fs[i]) && ds[i + 1] == Fire(cfg, ds[i], fs[i]) {
      if i < |es| {
        assert Enabled(cs[i], es[i]) && cs[i + 1] == Fire(cfg, cs[i], es[i]);
      }
    }
  }

  lemma PrintShort(r: RequestPrint.Request)
    requires r.Printable()
    ensures 1 <= |RequestPrint.Print(r)| <= CAPACITY
  {
  }

  /** A host that is not a dotted address is resolved, and it is the printed one. */
  lemma AskedByName(r: RequestPrint.Request)
    requires r.Printable()
    ensures Asked(r).isDomain <==> AsksName(r)
    ensures AsksName(r) <==> Inet.Pton4(CStr(r.host)).None?
    ensures AsksName(r) ==> Asked(r).domain == CStr(r.host)
  {
    hide RequestLine.FeedAll, RequestPrint.Print, RequestPrint.PortField, RequestPrint.OriginFormOf, RequestPrint.Padded, Rewrite.IsConnect,
      Rewrite.RequestText, Inet.Pton4, CStr;
    RequestPrint.RoundTrip(r);
    RequestPrint.CStrPad(r.host, RequestLine.MAX_FQDN_LENGTH + 1);
  }

  lemma PrintedLine(r: RequestPrint.Request)
    requires r.Printable()
    ensures LineParser(r).state == RequestLine.Done
  {
    hide RequestLine.FeedAll, RequestPrint.Print, RequestPrint.Holds;
    RequestPrint.RoundTrip(r);
  }

  /** The request line arrives in one read: a socket is opened to the origin or the resolver. */
  lemma LineArrives(cfg: Config, r: RequestPrint.Request)
    requires r.Printable() && Fits(cfg)
    ensures var e := ClientReadable(Data(RequestPrint.Print(r)), CALM);
            && Enabled(Fresh(), e) && Fresh().Sound()
            && (var n := Next(cfg, Fresh(), e); n.life == Running && n.phase == TryConnectionIp && n.request == Asked(r) && n.doh.None?)
  {
    hide RequestLine.FeedAll, RequestPrint.Print, RequestLine.Init, RequestLine.Parser.InBounds, Inv, Next, Conn.Sound, BuildRequest;
    var s := RequestPrint.Print(r);
    PrintShort(r);
    FreshInv();
    InvSound(Fresh());
    assert [] + s == s;
    PrintedLine(r);
    Transitions.ParsingExactly(cfg, Fresh(), s, CALM);
  }

  lemma StartRun(cfg: Config)
    ensures Run(cfg, [], [Fresh()])
  {
  }

  /** Some run has its first socket. */
  lemma ReachTry(cfg: Config, r: RequestPrint.Request) returns (es: seq<Event>, cs: seq<Conn>)
    requires r.Printable() && Fits(cfg)
    ensures Run(cfg, es, cs) && |es| == 1
    ensures var c := cs[1]; c.life == Running && Inv(c) && c.phase == TryConnectionIp && c.request == Asked(r) && c.doh.None?
  {
    hide Inv, Run, Next, Conn.Sound, Fresh, Enabled, Finished, RequestPrint.Print, Asked;
    StartRun(cfg);
    LineArrives(cfg, r);
    es, cs := Extend(cfg, [], [Fresh()], ClientReadable(Data(RequestPrint.Print(r)), CALM));
    RunKeeps(cfg, es, cs, 1);
  }

  lemma WritableNow(c: Conn, sent: int, env: Env)
    requires Inv(c) && (c.phase == TryConnectionIp || c.phase == SendDohRequest || c.phase == SendRequestLine)
    requires c.phase == TryConnectionIp ==> sent == 0
    requires c.phase != TryConnectionIp ==> sent == |c.originBuffer.pending|
    ensures Enabled(c, OriginWritable(sent, true, env)) && c.Sound() && (c.phase != TryConnectionIp ==> sent > 0)
  {
    hide Streams, Names, AwaitShape;
  }

  /** The connect has succeeded. */
  lemma Connects(cfg: Config, es: seq<Event>, cs: seq<Conn>) returns (fs: seq<Event>, ds: seq<Conn>)
    requires Run(cfg, es, cs) && Fits(cfg) && Inv(cs[|es|]) && cs[|es|].phase == TryConnectionIp
    ensures Run(cfg, fs, ds) && |fs| == |es| + 1 && Inv(ds[|fs|])
    ensures Enabled(cs[|es|], OriginWritable(0, true, CALM)) && cs[|es|].Sound()
    ensures ds[|fs|] == Next(cfg, cs[|es|], OriginWritable(0, true, CALM))
  {
    hide Inv, Next, Fire, Conn.Sound, Fresh, Enabled, Finished;
    var e := OriginWritable(0, true, CALM);
    WritableNow(cs[|es|], 0, CALM);
    Transitions.ConnectedExactly(cfg, cs[|es|], e);
    fs, ds := Extend(cfg, es, cs, e);
    RunKeeps(cfg, fs, ds, |fs|);
  }

  /** All that is pending goes out. */
  lemma SendsAll(cfg: Config, es: seq<Event>, cs: seq<Conn>) returns (fs: seq<Event>, ds: seq<Conn>)
    requires Run(cfg, es, cs) && Fits(cfg) && Inv(cs[|es|]) && (cs[|es|].phase == SendDohRequest || cs[|es|].phase == SendRequestLine)
    ensures Run(cfg, fs, ds) && |fs| == |es| + 1 && Inv(ds[|fs|])
    ensures var e := OriginWritable(|cs[|es|].originBuffer.pending|, true, CALM);
            e.sent > 0 && Enabled(cs[|es|], e) && cs[|es|].Sound() && ds[|fs|] == Next(cfg, cs[|es|], e)
  {
    hide Inv, Next, Fire, Conn.Sound, Fresh, Enabled, Finished;
    var c := cs[|es|];
    var e := OriginWritable(|c.originBuffer.pending|, true, CALM);
    WritableNow(c, e.sent, CALM);
    Transitions.SentExactly(cfg, c, e);
    fs, ds := Extend(cfg, es, cs, e);
    RunKeeps(cfg, fs, ds, |fs|);
  }

  /** Some run waits for the answer to its first query. */
  lemma ReachAwait(cfg: Config, r: RequestPrint.Request) returns (es: seq<Event>, cs: seq<Conn>)
    requires AsksName(r) && Fits(cfg)
    ensures Run(cfg, es, cs)
    ensures var c := cs[|es|];
            && c.life == Running && Inv(c) && c.phase == AwaitDohResponse && c.wire.originIn == [] && c.request == Asked(r)
            && c.doh.Some? && c.doh.value.family == Ipv4Try
  {
    hide Inv, Fire, Next, Conn.Sound, Fresh, Enabled, Finished, Asked, Transitions.LineOf, DohText;
    AskedByName(r);
    es, cs := ReachTry(cfg, r);
    var c1 := cs[|es|];
    es, cs := Connects(cfg, es, cs);
    Transitions.ConnectedExactly(cfg, c1, OriginWritable(0, true, CALM));
    var c2 := cs[|es|];
    es, cs := SendsAll(cfg, es, cs);
    var e := OriginWritable(|c2.originBuffer.pending|, true, CALM);
    Transitions.SentExactly(cfg, c2, e);
    AwaitBegins(cfg, c2, e);
    AwaitCases(cs[|es|]);
  }

  /** The verdict on the bytes of a response so far. */
  function VerdictOn(bytes: seq<byte>): Framing.Verdict { Framing.Judge(Framing.StepAll(Framing.Init(), bytes, true)) }

  /** Bytes that keep the verdict open, or complete the message, while the resolver stays connected. */
  lemma BytesParsed(cfg: Config, c: Conn, bytes: seq<byte>)
    requires Inv(c) && c.phase == AwaitDohResponse && c.doh.Some? && VerdictOn(c.wire.originIn) == Framing.Continue
    requires 1 <= |bytes| <= CAPACITY
    requires var v := VerdictOn(c.wire.originIn + bytes); v == Framing.Continue || v == Framing.Complete
    ensures var e := OriginReadable(Data(bytes), CALM);
            && Enabled(c, e) && c.Sound()
            && (var n := Next(cfg, c, e);
                n.life == Running && n.phase == AwaitDohResponse && n.wire.originIn == c.wire.originIn + bytes
                && n.doh.Some? && n.doh.value == c.doh.value.(frame := n.doh.value.frame) && n.request == c.request)
  {
    hide Inv, Next, Conn.Sound, Framing.StepAll, Framing.Init, Framing.Judge, Enabled;
    var e := OriginReadable(Data(bytes), CALM);
    InvSound(c);
    ReadableNow(c, e);
    BytesStep(cfg, c, bytes);
    AwaitStays(cfg, c, e);
  }

  lemma ReadableNow(c: Conn, e: Event)
    requires Inv(c) && c.phase == AwaitDohResponse && e.OriginReadable? && (e.got.Data? ==> 1 <= |e.got.bytes| <= CAPACITY)
    ensures Enabled(c, e)
  {
    hide Streams, Names, Conn.Sound, AwaitShape;
  }

  lemma BytesStep(cfg: Config, c: Conn, bytes: seq<byte>)
    requires Inv(c) && c.phase == AwaitDohResponse && c.doh.Some? && VerdictOn(c.wire.originIn) == Framing.Continue
    requires Enabled(c, OriginReadable(Data(bytes), CALM)) && c.Sound()
    requires var v := VerdictOn(c.wire.originIn + bytes); v == Framing.Continue || v == Framing.Complete
    ensures var n := Next(cfg, c, OriginReadable(Data(bytes), CALM));
            n.life == Running && n.phase == AwaitDohResponse && n.doh.Some? && n.doh.value == c.doh.value.(frame := n.doh.value.frame)
  {
    hide Shape, Streams, Names, Conn.Sound, ClientSide, Jump, Framing.Drain, Framing.StepAll, Framing.Init, Framing.Judge, Parsed, AwaitRead,
      Framing.Frame.Valid, Buf.Push, Buf.Advance, AwaitShape;
    SidesHold(c);
    ClientRuns(c);
    AwaitFacts(c);
    InvReadFrom(c);
    var f := c.doh.value.frame;
    AwaitReadParsed(c, bytes, CALM);
    ParsedFrame(c, bytes);
    Framing.DrainIsStepAll(f, bytes, true);
    Framing.StepAllConcat(Framing.Init(), c.wire.originIn, bytes, true);
    var p := Parsed(c, c.doh.value, bytes, CALM);
    NoJump(cfg, p, CALM);
    NoJump(cfg, p.(originBuffer := EMPTY), CALM);
  }

  lemma ParsedFrame(c: Conn, bytes: seq<byte>)
    requires c.doh.Some? && c.doh.value.frame.Valid()
    ensures var p := Parsed(c, c.doh.value, bytes, CALM);
            && p.doh == Some(c.doh.value.(frame := Framing.Drain(c.doh.value.frame, bytes, true).0))
            && p.life == c.life && p.phase == c.phase && p.originStatus == c.originStatus && p.originRegistered == c.originRegistered
  {
    hide Framing.Drain, Framing.Frame.Valid, Buf.Advance;
  }

  // ---- an answer in any number of reads --------------------------------------------------------------------

  /** Every read brings at least a byte and fits the buffer. */
  predicate Reads(chunks: seq<seq<byte>>) { forall j :: 0 <= j < |chunks| ==> 1 <= |chunks[j]| <= CAPACITY }

  lemma {:induction false} FlattenSnoc(chunks: seq<seq<byte>>, c: seq<byte>)
    ensures Framing.Flatten(chunks + [c]) == Framing.Flatten(chunks) + c
    decreases |chunks|
  {
    var all := chunks + [c];
    if chunks == [] {
      assert all[1..] == [];
    } else {
      assert all[1..] == chunks[1..] + [c];
      FlattenSnoc(chunks[1..], c);
    }
  }

  /** A verdict is final, so one that is still open was open all along. */
  lemma OpenBefore(a: seq<byte>, b: seq<byte>)
    ensures VerdictOn(a) != Framing.Continue ==> VerdictOn(a + b) == VerdictOn(a)
  {
    hide Framing.StepAll, Framing.Judge, Framing.Init, Framing.Frame.Valid;
    Framing.StepAllConcat(Framing.Init(), a, b, true);
    if VerdictOn(a) != Framing.Continue {
      Framing.StoppedForever(Framing.StepAll(Framing.Init(), a, true), b, true);
    }
  }

  /** No part of the bytes decides anything. */
  ghost predicate OpenUntil(s: seq<byte>) { forall j :: 0 <= j < |s| ==> VerdictOn(s[..j]) == Framing.Continue }

  lemma OpenPrefix(s: seq<byte>, a: seq<byte>, b: seq<byte>)
    requires OpenUntil(s) && s == a + b && b != []
    ensures OpenUntil(a) && VerdictOn(a) == Framing.Continue
  {
    hide VerdictOn;
    assert s[..|a|] == a;
    forall j | 0 <= j < |a| ensures VerdictOn(a[..j]) == Framing.Continue {
      assert s[..j] == a[..j];
    }
  }

  /** Some run has read the given answer, in the given reads, and waits for more. */
  lemma {:induction false} ReachHeard(cfg: Config, r: RequestPrint.Request, chunks: seq<seq<byte>>) returns (es: seq<Event>, cs: seq<Conn>)
    requires AsksName(r) && Fits(cfg) && Reads(chunks) && OpenUntil(Framing.Flatten(chunks))
    requires var v := VerdictOn(Framing.Flatten(chunks)); v == Framing.Continue || v == Framing.Complete
    ensures Run(cfg, es, cs)
    ensures var c := cs[|es|];
            && c.life == Running && Inv(c) && c.phase == AwaitDohResponse && c.wire.originIn == Framing.Flatten(chunks)
            && c.doh.Some? && c.doh.value.family == Ipv4Try && c.request == Asked(r)
    decreases |chunks|
  {
    hide Inv, Next, Fire, Conn.Sound, Fresh, Enabled, Finished, AsksName, VerdictOn, OpenUntil, Asked;
    if chunks == [] {
      es, cs := ReachAwait(cfg, r);
    } else {
      var init, last := chunks[..|chunks| - 1], chunks[|chunks| - 1];
      assert chunks == init + [last];
      FlattenSnoc(init, last);
      OpenPrefix(Framing.Flatten(chunks), Framing.Flatten(init), last);
      es, cs := ReachHeard(cfg, r, init);
      es, cs := HearMore(cfg, es, cs, last);
    }
  }

  lemma HearMore(cfg: Config, es: seq<Event>, cs: seq<Conn>, bytes: seq<byte>) returns (fs: seq<Event>, ds: seq<Conn>)
    requires Run(cfg, es, cs) && Fits(cfg) && 1 <= |bytes| <= CAPACITY
    requires var c := cs[|es|]; Inv(c) && c.phase == AwaitDohResponse && c.doh.Some? && VerdictOn(c.wire.originIn) == Framing.Continue
    requires var v := VerdictOn(cs[|es|].wire.originIn + bytes); v == Framing.Continue || v == Framing.Complete
    ensures Run(cfg, fs, ds)
    ensures var c, n := cs[|es|], ds[|fs|];
            && n.life == Running && Inv(n) && n.phase == AwaitDohResponse && n.wire.originIn == c.wire.originIn + bytes
            && n.doh.Some? && n.doh.value.family == c.doh.value.family && n.request == c.request
  {
    hide Inv, Next, Fire, Conn.Sound, Fresh, Enabled, Finished, VerdictOn;
    BytesParsed(cfg, cs[|es|], bytes);
    fs, ds := Extend(cfg, es, cs, OriginReadable(Data(bytes), CALM));
    RunKeeps(cfg, fs, ds, |fs|);
  }

  /** The next event from the resolver on such a run. */
  lemma NextFromResolver(cfg: Config, es: seq<Event>, cs: seq<Conn>, got: Received) returns (fs: seq<Event>, ds: seq<Conn>)
    requires Run(cfg, es, cs) && Fits(cfg) && Inv(cs[|es|]) && cs[|es|].phase == AwaitDohResponse
    requires got.Data? ==> |got.bytes| == 1
    ensures Run(cfg, fs, ds)
    ensures ds[|fs|].life == Hung <==> Hangs(cs[|es|], OriginReadable(got, CALM))
    ensures ds[|fs|].life == Crashed <==> CutInCount(cs[|es|], OriginReadable(got, CALM))
  {
    hide Inv, Next, Fire, Conn.Sound, Fresh, Enabled, Finished, Hangs, CutInCount;
    var e := OriginReadable(got, CALM);
    ReadableNow(cs[|es|], e);
    StepOk(cfg, cs[|es|], e);
    fs, ds := Extend(cfg, es, cs, e);
  }

  predicate PrintableHead(l: StatusLine.Line, fs: seq<Headers.Field>) {
    l.Printable() && fs != [] && forall k :: 0 <= k < |fs| ==> fs[k].Printable()
  }

  /** A printed response is complete on its last byte and open before. */
  lemma PrintedVerdicts(p: Printed, a: seq<byte>, b: seq<byte>)
    requires p.Ok() && p.extra == [] && a + b == p.Text()
    ensures VerdictOn(p.Text()) == Framing.Complete
    ensures b != [] ==> VerdictOn(a) == Framing.Continue
  {
    hide Printed.Ok, Printed.Text, VerdictOn;
    var short, last := AllButLast(p);
    assert p.Text() + [] == p.Text();
    if b != [] {
      assert p.Text()[..|p.Text()| - 1] == short;
      assert a + b[..|b| - 1] == short;
      OpenBefore(a, b[..|b| - 1]);
      OpenBefore(a, b);
    }
  }

  /** Without its last byte the verdict is not yet that it is complete. */
  lemma AllButLast(p: Printed) returns (short: seq<byte>, last: byte)
    requires p.Ok() && p.extra == []
    ensures p.Text() == short + [last] && VerdictOn(p.Text()) == Framing.Complete && VerdictOn(short) != Framing.Complete
  {
    hide Framing.StepAll, Framing.Drain, Dns.FeedAll, StatusLine.Print, Headers.Print, Framing.Init, DnsPrint.Print, DnsPrint.MessageOk,
      DnsPrint.AnswerOf, DnsPrint.Expand;
    var head, msg := StatusLine.Print(p.line) + Headers.Print(p.fields), DnsPrint.Print(p.message);
    MessagePrinted(p.message);
    Framing.MessageSeen(p.line, p.fields, msg);
    DnsPrint.ParseOfPrint(p.message);
    Framing.MessageSeen(p.line, p.fields, msg[..|msg| - 1]);
    short, last := head + msg[..|msg| - 1], msg[|msg| - 1];
    assert p.Text() == head + msg;
    assert head + msg == short + [last];
  }

  lemma MessagePrinted(m: DnsPrint.Message)
    requires DnsPrint.MessageOk(m)
    ensures DnsPrint.Print(m) != []
  {
    assert |DnsPrint.PrintHeader(m)| >= 2;
  }

  /** Some run has read a printed response, in the given reads. */
  lemma ReachPrinted(cfg: Config, r: RequestPrint.Request, p: Printed, chunks: seq<seq<byte>>) returns (es: seq<Event>, cs: seq<Conn>)
    requires AsksName(r) && Fits(cfg) && p.Ok() && p.extra == [] && Reads(chunks) && Framing.Flatten(chunks) == p.Text()
    ensures Run(cfg, es, cs)
    ensures var c := cs[|es|];
            && c.life == Running && Inv(c) && c.phase == AwaitDohResponse && c.wire.originIn == p.Text()
            && c.doh.Some? && c.doh.value.family == Ipv4Try && c.request == Asked(r)
  {
    hide Inv, Next, Fire, Conn.Sound, Fresh, Enabled, Finished, AsksName, Asked, VerdictOn, Printed.Ok, Printed.Text, Reads, Framing.Flatten;
    PrintedVerdicts(p, p.Text(), []);
    var s := p.Text();
    assert OpenUntil(s) by {
      forall j | 0 <= j < |s| ensures VerdictOn(s[..j]) == Framing.Continue {
        assert s == s[..j] + s[j..];
        PrintedVerdicts(p, s[..j], s[j..]);
      }
    }
    es, cs := ReachHeard(cfg, r, chunks);
  }
}
