/** Resolver behaviour that stops the proxy, reached from a fresh connection. */
module Faults {
  import opened Bytes
  import RequestPrint
  import StatusLine
  import Headers
  import Dns
  import DnsPrint
  import Framing
  import opened Machine
  import opened Invariant
  import opened SetupProof
  import opened ResolveProof
  import opened StepProof
  import opened Runs
  import opened Resolution
  import opened Reach

  /** The resolver's answer up to the first byte of ANCOUNT. */
  const CUT: seq<byte> := [0, 0, 128, 0, 0, 1, 1]

  lemma CutParsed()
    ensures var p := Dns.FeedAll(Dns.Init(), CUT, true);
            p.state == Dns.HeaderAn && p.i == 1 && p.an == 256 && p.flags.rcode == 0
  {
    hide Dns.Feed, Dns.FeedAll, Dns.Parser.Valid;
    var p0 := Dns.Init();
    HeaderPair(p0, 0, 0);
    var p2 := Dns.FeedAll(p0, [0, 0], true);
    HeaderPair(p2, 128, 0);
    var p4 := Dns.FeedAll(p2, [128, 0], true);
    HeaderPair(p4, 0, 1);
    var p6 := Dns.FeedAll(p4, [0, 1], true);
    Dns.FeedAllOne(p6, 1, true);
    CountByte(p6, 1);
    assert CUT == [0, 0] + ([128, 0] + ([0, 1] + [1]));
    Dns.FeedAllConcat(p0, [0, 0], [128, 0] + ([0, 1] + [1]), true);
    Dns.FeedAllConcat(p2, [128, 0], [0, 1] + [1], true);
    Dns.FeedAllConcat(p4, [0, 1], [1], true);
  }

  lemma HeaderPair(p: Dns.Parser, a: byte, b: byte)
    requires p.Valid() && p.i == 0 && (p.state == Dns.HeaderId || p.state == Dns.HeaderFlags || p.state == Dns.HeaderQd)
    ensures var q := Dns.FeedAll(p, [a, b], true);
            && q.i == 0 && q.flags.rcode == (if p.state == Dns.HeaderFlags then b % 16 else p.flags.rcode)
            && q.state == (if p.state == Dns.HeaderId then Dns.HeaderFlags else if p.state == Dns.HeaderFlags then Dns.HeaderQd else Dns.HeaderAn)
  {
    hide Dns.FeedAll;
    Dns.FeedAllTwo(p, a, b, true);
  }

  lemma CountByte(p: Dns.Parser, c: byte)
    requires p.Valid() && p.i == 0 && p.state == Dns.HeaderAn
    ensures var q := Dns.Feed(p, c, true); q.state == Dns.HeaderAn && q.i == 1 && q.an == 256 * c && q.flags == p.flags
  {
  }

  // ---- the faults ------------------------------------------------------------------------------------------

  lemma CutIsOpen(l: StatusLine.Line, fs: seq<Headers.Field>)
    requires PrintableHead(l, fs)
    ensures VerdictOn(StatusLine.Print(l) + Headers.Print(fs) + CUT) == Framing.Continue
  {
    hide Framing.StepAll, Framing.Drain, Dns.FeedAll, StatusLine.Print, Headers.Print, Framing.Init, CUT;
    Framing.MessageSeen(l, fs, CUT);
    CutParsed();
  }

  /** Whatever the request for a name, the resolver's HTTP head and the reads it arrives in: a resolver that closes
      after the first byte of a large ANCOUNT makes the proxy follow a null pointer. */
  lemma CutResponseCrashes(cfg: Config, r: RequestPrint.Request, l: StatusLine.Line, fs: seq<Headers.Field>, chunks: seq<seq<byte>>)
      returns (es: seq<Event>, cs: seq<Conn>)
    requires AsksName(r) && Fits(cfg) && PrintableHead(l, fs) && Reads(chunks)
    requires Framing.Flatten(chunks) == StatusLine.Print(l) + Headers.Print(fs) + CUT
    ensures Run(cfg, es, cs) && cs[|es|].life == Crashed
  {
    hide Inv, Next, Fire, Conn.Sound, Fresh, Finished, Framing.Drain, Framing.StepAll, Dns.FeedAll, StatusLine.Print, Headers.Print, Framing.Init,
      AsksName, CUT, VerdictOn, Reads, PrintableHead, ReadFrom, Framing.Flatten;
    var s := Framing.Flatten(chunks);
    CutIsOpen(l, fs);
    assert OpenUntil(s) by {
      forall j | 0 <= j < |s| ensures VerdictOn(s[..j]) == Framing.Continue {
        assert s == s[..j] + s[j..];
        OpenBefore(s[..j], s[j..]);
      }
    }
    es, cs := ReachHeard(cfg, r, chunks);
    CutIsCut(cs[|es|], l, fs);
    es, cs := NextFromResolver(cfg, es, cs, Eof);
  }

  lemma CutIsCut(c: Conn, l: StatusLine.Line, fs: seq<Headers.Field>)
    requires Inv(c) && c.phase == AwaitDohResponse && c.doh.Some? && PrintableHead(l, fs)
    requires c.wire.originIn == StatusLine.Print(l) + Headers.Print(fs) + CUT
    ensures CutInCount(c, OriginReadable(Eof, CALM))
  {
    hide Inv, Framing.StepAll, Framing.Drain, Dns.FeedAll, StatusLine.Print, Headers.Print, Framing.Init, CUT;
    InvReadFrom(c);
    Framing.MessageSeen(l, fs, CUT);
    CutParsed();
  }

  /** One more byte after a complete message makes the waiting loop spin. */
  lemma ExtraByteHangs(cfg: Config, r: RequestPrint.Request, p: Printed, chunks: seq<seq<byte>>, late: byte) returns (es: seq<Event>, cs: seq<Conn>)
    requires AsksName(r) && Fits(cfg) && p.Ok() && p.extra == [] && Reads(chunks) && Framing.Flatten(chunks) == p.Text()
    ensures Run(cfg, es, cs) && cs[|es|].life == Hung
  {
    hide Inv, Next, Fire, Conn.Sound, Fresh, Finished, Framing.StepAll, Framing.Init, AsksName, Printed.Ok, Printed.Text, Reads, Framing.Flatten,
      Framing.Judge;
    es, cs := ReachPrinted(cfg, r, p, chunks);
    InvReadFrom(cs[|es|]);
    PrintedVerdicts(p, p.Text(), []);
    es, cs := NextFromResolver(cfg, es, cs, Data([late]));
  }

  /** A response without errors of 256 answers or more, none of the first 256 an A record: when the resolver
      closes, the walk over the answers never ends. */
  lemma ManyAnswersHang(cfg: Config, r: RequestPrint.Request, p: Printed, chunks: seq<seq<byte>>) returns (es: seq<Event>, cs: seq<Conn>)
    requires AsksName(r) && Fits(cfg) && p.Ok() && p.extra == [] && Reads(chunks) && Framing.Flatten(chunks) == p.Text()
    requires p.message.flags.rcode == 0 && |p.message.answers| >= 256 && forall k :: 0 <= k < 256 ==> !p.message.answers[k].data.A?
    ensures Run(cfg, es, cs) && cs[|es|].life == Hung
  {
    hide Inv, Next, Fire, Conn.Sound, Fresh, Finished, Framing.StepAll, Framing.Init, AsksName, Printed.Ok, Printed.Text, Reads, Framing.Flatten,
      Framing.Judge, Spinning;
    es, cs := ReachPrinted(cfg, r, p, chunks);
    NothingWanted(cs[|es|], p);
    es, cs := NextFromResolver(cfg, es, cs, Eof);
  }

  lemma NothingWanted(c: Conn, p: Printed)
    requires Inv(c) && c.phase == AwaitDohResponse && c.doh.Some? && c.doh.value.family == Ipv4Try && p.Ok() && c.wire.originIn == p.Text()
    requires p.message.flags.rcode == 0 && |p.message.answers| >= 256 && forall k :: 0 <= k < 256 ==> !p.message.answers[k].data.A?
    ensures Spinning(c.doh.value, CALM.sockets)
  {
    hide Inv, Sourced, ReadFrom, Printed.Text, DnsPrint.AnswerOf, DnsPrint.RecordOk;
    InvReadFrom(c);
    var r := ResponseOf(c, c.doh.value);
    ReadIsSourced(c, c.doh.value);
    PrintedIsRead(r, p);
    assert r.answers != [];
    forall k | 0 <= k < 256 ensures r.answers[k].kind != Dns.IPV4_TYPE {
      DnsPrint.AnswerOfFields(p.message.answers[k]);
    }
  }
}
