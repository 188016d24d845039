/** What the proxy does get done: the queries it sends, when it asks again, and that it connects. */
module Progress {
  import opened Bytes
  import opened Buffers
  import RequestLine
  import RequestPrint
  import Rewrite
  import StatusLine
  import Headers
  import Dns
  import DnsPrint
  import DohQuery
  import Framing
  import opened Failover
  import opened Machine
  import opened Invariant
  import opened SetupProof
  import opened ResolveProof
  import opened StepProof
  import opened Runs
  import opened Resolution
  import opened Transitions
  import opened Reach
  import Ground
  import Replies
  import Theorems
  import Connection

  // ---- the queries on the wire -----------------------------------------------------------------------

  /** The query is on its way, or out in full. */
  ghost predicate QueryOut(cfg: Config, c: Conn) {
    && (c.phase == SendDohRequest ==> c.wire.originOut + c.originBuffer.pending == DohText(cfg, c))
    && (c.phase == AwaitDohResponse ==> c.wire.originOut == DohText(cfg, c))
  }

  lemma TextSame(cfg: Config, c: Conn, n: Conn)
    requires n.request == c.request && QueryType(n) == QueryType(c)
    ensures DohText(cfg, n) == DohText(cfg, c)
  {
    hide DohQuery.Request;
  }

  lemma QueryStep(cfg: Config, c: Conn, e: Event)
    requires Inv(c) && Enabled(c, e) && Fits(cfg) && c.Sound() && QueryOut(cfg, c) && Next(cfg, c, e).life == Running
    ensures QueryOut(cfg, Next(cfg, c, e))
  {
    hide Inv, Next, Conn.Sound, DohText, Enabled, LineOf;
    var n := Next(cfg, c, e);
    InvPhases(c);
    if n.phase == SendDohRequest {
      if c.phase == SendDohRequest {
        SendingOn(cfg, c, e);
      } else {
        QueryBegins(cfg, c, e);
      }
    } else if n.phase == AwaitDohResponse {
      if c.phase == AwaitDohResponse {
        AwaitStays(cfg, c, e);
        TextSame(cfg, c, n);
      } else {
        AwaitBegins(cfg, c, e);
        SendingOn(cfg, c, e);
      }
    }
  }

  lemma SendingOn(cfg: Config, c: Conn, e: Event)
    requires Inv(c) && c.phase == SendDohRequest && Enabled(c, e) && c.Sound() && QueryOut(cfg, c) && Next(cfg, c, e).life == Running && Fits(cfg)
    ensures QueryOut(cfg, Next(cfg, c, e))
  {
    hide Inv, Next, Conn.Sound, DohText;
    OnlyOriginWrites(c, e);
    if e.sent <= 0 {
      FailureEnds(cfg, c, e);
    } else {
      SentExactly(cfg, c, e);
      var n := Next(cfg, c, e);
      TextSame(cfg, c, n);
      var p := c.originBuffer.pending;
      if e.sent < |p| {
        assert c.wire.originOut + p[..e.sent] + p[e.sent..] == c.wire.originOut + p;
      } else {
        assert p[..e.sent] == p;
      }
    }
  }

  /** Only a connected resolver is sent a query. */
  lemma QueryBegins(cfg: Config, c: Conn, e: Event)
    requires Inv(c) && c.phase != SendDohRequest && Enabled(c, e) && c.Sound() && Fits(cfg)
    requires Next(cfg, c, e).life == Running && Next(cfg, c, e).phase == SendDohRequest
    ensures QueryOut(cfg, Next(cfg, c, e))
  {
    hide Inv, Next, Conn.Sound, DohText, LineOf;
    InvPhases(c);
    if c.phase == TryConnectionIp {
      OnlyOriginWrites(c, e);
      if e.connected {
        ConnectedExactly(cfg, c, e);
        var n := Next(cfg, c, e);
        TextSame(cfg, c, n);
        assert [] + n.originBuffer.pending == n.originBuffer.pending;
      } else {
        RefusedNoQuery(cfg, c, e);
        assert false;
      }
    } else {
      NoQuery(cfg, c, e);
      assert false;
    }
  }

  lemma RefusedNoQuery(cfg: Config, c: Conn, e: Event)
    requires Inv(c) && c.phase == TryConnectionIp && Enabled(c, e) && c.Sound() && e.OriginWritable? && !e.connected
    ensures Next(cfg, c, e).phase != SendDohRequest
  {
    hide Inv, Conn.Sound, Jump, TryNextDns;
    OnlyOriginWrites(c, e);
    var st := TryWrite(c, false, e.env);
    if c.doh.Some? {
      Connection.TryNextNext(c, c.doh.value, e.env.sockets);
    }
    JumpPhase(cfg, st, e.env);
  }

  lemma NoQuery(cfg: Config, c: Conn, e: Event)
    requires Inv(c) && c.phase != SendDohRequest && c.phase != TryConnectionIp && Enabled(c, e) && c.Sound() && Fits(cfg)
    ensures Next(cfg, c, e).life == Running ==> Next(cfg, c, e).phase != SendDohRequest
  {
    hide Inv, Next, Conn.Sound, RequestLine.FeedAll, BuildRequest;
    InvPhases(c);
    if c.phase == ParsingRequestLine {
      if Failing(c, e) {
        FailureEnds(cfg, c, e);
      } else {
        ParsingFacts(c);
        ParsingExactly(cfg, c, e.got.bytes, e.env);
      }
    } else if c.phase == SendRequestLine {
      OnlyOriginWrites(c, e);
      if e.sent <= 0 {
        FailureEnds(cfg, c, e);
      } else {
        SentExactly(cfg, c, e);
      }
    } else if c.phase == AwaitDohResponse {
      AwaitNoQuery(cfg, c, e);
    } else if c.phase == Error {
      OnlyErrorWrites(c, e);
      if e.sent <= 0 {
        FailureEnds(cfg, c, e);
      } else {
        ErrorEnds(cfg, c, e);
      }
    } else {
      Theorems.SilentStep(cfg, c, e);
    }
  }

  lemma AwaitNoQuery(cfg: Config, c: Conn, e: Event)
    requires Inv(c) && c.phase == AwaitDohResponse && Enabled(c, e) && c.Sound()
    ensures Next(cfg, c, e).life == Running ==> Next(cfg, c, e).phase != SendDohRequest
  {
    hide Inv, Conn.Sound, Jump, AwaitRead, End, Buf.Push, Framing.Judge, Framing.Frame.Valid;
    OnlyOriginWrites(c, e);
    AwaitCases(c);
    EndLife(c);
    if !e.got.ReadFailed? {
      var m := if e.got.Eof? then c.(originStatus := ClosingStatus, wire := c.wire.(originEof := true))
               else c.(originBuffer := c.originBuffer.Push(e.got.bytes), wire := c.wire.(originIn := c.wire.originIn + e.got.bytes));
      Connection.AwaitNext(m, e.env);
      JumpPhase(cfg, AwaitRead(m, e.env), e.env);
    }
  }

  lemma {:induction false} RunQueries(cfg: Config, es: seq<Event>, cs: seq<Conn>, k: nat)
    requires Run(cfg, es, cs) && Fits(cfg) && k < |cs| && cs[k].life == Running
    ensures QueryOut(cfg, cs[k])
    decreases k
  {
    hide Inv, Next, Conn.Sound, Fresh, Enabled, Finished, QueryOut;
    if k == 0 {
      FreshQueries(cfg);
    } else {
      assert Enabled(cs[k - 1], es[k - 1]) && cs[k - 1 + 1] == Fire(cfg, cs[k - 1], es[k - 1]);
      EnabledRuns(cs[k - 1], es[k - 1]);
      RunKeeps(cfg, es, cs, k - 1);
      InvSound(cs[k - 1]);
      RunQueries(cfg, es, cs, k - 1);
      QueryStep(cfg, cs[k - 1], es[k - 1]);
    }
  }

  lemma FreshQueries(cfg: Config)
    ensures QueryOut(cfg, Fresh())
  {
    hide RequestLine.Init;
  }

  /** The POST that carries a question about a domain. */
  function Post(cfg: Config, d: seq<byte>, kind: byte): seq<byte>
    requires d != [] && |d| <= DohQuery.MAX_DOMAIN
  {
    DohQuery.Ascii("POST ") + cfg.dohPath + DohQuery.Ascii(" HTTP/1.0\r\n")
    + Headers.Print(DohQuery.Fields(cfg.dohHost, DohQuery.ContentLength(d, 0))) + DohQuery.Question(d, kind)
  }

  lemma PostIs(cfg: Config, d: seq<byte>, kind: byte)
    requires d != [] && |d| <= DohQuery.MAX_DOMAIN
    ensures DohQuery.Request(cfg.dohPath, cfg.dohHost, d, 0, kind) == Post(cfg, d, kind)
  {
    hide DohQuery.Request, DohQuery.Body, Headers.Print, DohQuery.Ascii, DohQuery.Question;
    DohQuery.RequestPrinted(cfg.dohPath, cfg.dohHost, d, 0, kind);
    DohQuery.BodyPrinted(d, 0, kind);
  }

  /** The host of the client's request line, when it is a name. */
  function HostName(c: Conn): seq<byte>
    requires c.log.lineLength <= |c.wire.clientIn|
  {
    var q := LineOf(c);
    if q.host.Domain? then CStr(q.host.bytes) else []
  }

  /** On every run: in SEND_DOH_REQUEST what has been sent and what is pending is, and in AWAIT_DOH_RESPONSE what has
      been sent is, the POST of one question about the host of the client's request line, of type A for the first
      query and of type AAAA for the second. */
  lemma QueryOnWire(cfg: Config, es: seq<Event>, cs: seq<Conn>, k: nat)
    requires Run(cfg, es, cs) && Fits(cfg) && k < |cs| && cs[k].life == Running
    requires cs[k].phase == SendDohRequest || cs[k].phase == AwaitDohResponse
    ensures cs[k].log.lineLength <= |cs[k].wire.clientIn| && |HostName(cs[k])| <= DohQuery.MAX_DOMAIN
    ensures cs[k].log.queries == [Ipv4Try] || cs[k].log.queries == BOTH
    ensures var c, d := cs[k], HostName(cs[k]);
            d != [] ==>
              c.wire.originOut + (if c.phase == SendDohRequest then c.originBuffer.pending else [])
              == Post(cfg, d, if c.log.queries == [Ipv4Try] then 1 else 28)
  {
    hide Run, Inv, DohText, Finished, Post, ClientSide, LineOf, DohQuery.Request;
    RunKeeps(cfg, es, cs, k);
    RunQueries(cfg, es, cs, k);
    var c := cs[k];
    QueryFacts(c);
    ClientRuns(c);
    RequestIs(c);
    assert c.wire.originOut + [] == c.wire.originOut;
    if HostName(c) != [] {
      TextIs(cfg, c);
      PostIs(cfg, HostName(c), WantedKind(QueryType(c)));
    }
  }

  lemma TextIs(cfg: Config, c: Conn)
    requires |c.request.domain| <= DohQuery.MAX_DOMAIN
    ensures DohText(cfg, c) == DohQuery.Request(cfg.dohPath, cfg.dohHost, c.request.domain, 0, WantedKind(QueryType(c)))
  {
    hide DohQuery.Request;
  }

  lemma QueryFacts(c: Conn)
    requires Inv(c) && (c.phase == SendDohRequest || c.phase == AwaitDohResponse)
    ensures ClientSide(c) && c.request.isDomain
    ensures c.log.queries == (if QueryType(c) == Ipv4Try then [Ipv4Try] else BOTH)
  {
    hide Shape, Streams, ClientSide, AwaitShape, AllOf, Small, Sourced, Dns.AllOk, AttemptsOk, Ledger, Tried;
    SidesHold(c);
    AwaitingDomain(c);
  }

  lemma AwaitingDomain(c: Conn)
    requires Shape(c) && Resolving(c.phase)
    ensures c.phase == SendDohRequest || c.phase == AwaitDohResponse ==> c.request.isDomain
  {
    hide AwaitShape, Conn.Sound;
  }

  // ---- asking again ------------------------------------------------------------------------------------------

  /** The connection is about to ask for AAAA records. */
  ghost predicate AskingAgain(c: Conn) {
    c.life == Running && c.phase == TryConnectionIp && c.doh.Some? && !c.doh.value.active && c.doh.value.family == Ipv6Try
  }

  /** Once the resolver is connected to again, the AAAA query is in the buffer. */
  lemma AaaaIsSent(cfg: Config, es: seq<Event>, cs: seq<Conn>, k: nat)
    requires Run(cfg, es, cs) && Fits(cfg) && k < |es| && AskingAgain(cs[k]) && es[k].OriginWritable? && es[k].connected
    ensures var n := cs[k + 1]; n.life == Running && n.phase == SendDohRequest && n.log.queries == BOTH
    ensures cs[k + 1].log.lineLength <= |cs[k + 1].wire.clientIn| && |HostName(cs[k + 1])| <= DohQuery.MAX_DOMAIN
    ensures HostName(cs[k + 1]) != [] ==>
              cs[k + 1].wire.originOut == [] && cs[k + 1].originBuffer.pending == Post(cfg, HostName(cs[k + 1]), 28)
  {
    hide Inv, Next, Conn.Sound, Fresh, Finished, DohText, LineOf, Post, Replies.OkReply;
    assert Enabled(cs[k], es[k]) && cs[k + 1] == Fire(cfg, cs[k], es[k]);
    RunKeeps(cfg, es, cs, k);
    InvSound(cs[k]);
    RefusedFacts(cs[k]);
    ConnectedExactly(cfg, cs[k], es[k]);
    QueryOnWire(cfg, es, cs, k + 1);
    assert [] + cs[k + 1].originBuffer.pending == cs[k + 1].originBuffer.pending;
  }

  /** A refused connection, or the end of a response, that leaves no A record with a socket (or the response reports
      an error), with a socket to be had for the resolver: AAAA records are asked for. */
  lemma AaaaIsAsked(cfg: Config, es: seq<Event>, cs: seq<Conn>, k: nat)
    requires Run(cfg, es, cs) && Fits(cfg) && k < |es| && cs[k].doh.Some? && cs[k].doh.value.active
    requires || (cs[k].phase == TryConnectionIp && es[k].OriginWritable? && !es[k].connected)
             || (cs[k].phase == AwaitDohResponse && es[k].OriginReadable? && es[k].got.Eof?)
    requires var d := cs[k].doh.value;
             d.currentTry <= |Records(d)| <= 255 && !Missing(d) && AsksAgain(d, es[k].env.sockets)
    ensures AskingAgain(cs[k + 1])
  {
    hide Inv, Next, Conn.Sound, Fresh, Finished, AsksAgain, Missing, AttemptsAt, Wanted;
    assert Enabled(cs[k], es[k]) && cs[k + 1] == Fire(cfg, cs[k], es[k]);
    EnabledRuns(cs[k], es[k]);
    RunKeeps(cfg, es, cs, k);
    InvSound(cs[k]);
    if cs[k].phase == TryConnectionIp {
      RefusedExactly(cfg, cs[k], es[k]);
    } else {
      ClosedExactly(cfg, cs[k], es[k]);
    }
  }

  /** A printed head and a message whose ANCOUNT is zero: no records, however it is split and whatever memory there is. */
  lemma EmptyVerdict(l: StatusLine.Line, fs: seq<Headers.Field>, msg: seq<byte>, chunks: seq<seq<byte>>, alloc: bool)
    requires PrintableHead(l, fs) && |msg| >= 8 && msg[6] == 0 && msg[7] == 0
    requires Framing.Flatten(chunks) == StatusLine.Print(l) + Headers.Print(fs) + msg
    ensures VerdictOn(Framing.Flatten(chunks)) == Framing.NoRecords
    ensures Framing.Judge(Framing.DrainReads(Framing.Init(), chunks, alloc)) == Framing.NoRecords
  {
    hide Framing.StepAll, Framing.Drain, Framing.DrainReads, Framing.Init, Dns.FeedAll, StatusLine.Print, Headers.Print, Framing.Flatten;
    var s := Framing.Flatten(chunks);
    Framing.MessageSeen(l, fs, msg);
    Dns.CountDecides(msg, true);
    Framing.ChunkIndependent(Framing.Init(), chunks, alloc);
    Framing.DrainIsStepAll(Framing.Init(), s, alloc);
    if !alloc {
      var f := Framing.StepAll(Framing.Init(), s, true);
      assert f.dns.answers.None? by { EmptyHasNoArray(f); }
      InitOpen();
      Framing.MemoryExactly(Framing.Init(), s);
    }
  }

  lemma EmptyHasNoArray(f: Framing.Frame)
    requires f.Valid() && f.dns.state == Dns.NoAnswers
    ensures f.dns.answers.None?
  {
    hide Dns.Parser.Contents, Dns.Parser.Counters;
  }

  lemma InitOpen()
    ensures Framing.Judge(Framing.Init()) == Framing.Continue
  {
  }

  /** The A query is answered, in any reads, with no records: AAAA records are asked for. */
  lemma EmptyAnswerAsksAgain(cfg: Config, es: seq<Event>, cs: seq<Conn>, i: nat, k: nat, l: StatusLine.Line, fs: seq<Headers.Field>, msg: seq<byte>)
    requires Run(cfg, es, cs) && Fits(cfg) && Listening(cs, i, k) && k < |es| && cs[k].log.queries == [Ipv4Try]
    requires PrintableHead(l, fs) && |msg| >= 8 && msg[6] == 0 && msg[7] == 0
    requires es[k].OriginReadable? && es[k].got.Data? && Opens(es[k].env.sockets, 0) && cs[k].doh.Some?
    requires Ground.HeardOrigin(es, i, k + 1) == StatusLine.Print(l) + Headers.Print(fs) + msg
    requires VerdictOn(Ground.HeardOrigin(es, i, k)) == Framing.Continue
    ensures AskingAgain(cs[k + 1])
  {
    hide Inv, Next, Conn.Sound, Fresh, Finished, VerdictOn, Listening, StatusLine.Print, Headers.Print, Framing.StepAll, Framing.Init, PrintableHead;
    assert Enabled(cs[k], es[k]) && cs[k + 1] == Fire(cfg, cs[k], es[k]);
    ListeningBounds(cs, i, k);
    RunKeeps(cfg, es, cs, k);
    InvSound(cs[k]);
    HeardFrom(cfg, es, cs, i, k);
    InvReadFrom(cs[k]);
    var s := Ground.HeardOrigin(es, i, k + 1);
    assert s == cs[k].wire.originIn + es[k].got.bytes;
    assert Framing.Flatten([s]) == s by { OneRead(s); }
    EmptyVerdict(l, fs, msg, [s], true);
    QueryFacts(cs[k]);
    EmptyRead(cfg, cs[k], es[k].got.bytes, es[k].env);
  }

  lemma OneRead(s: seq<byte>)
    ensures Framing.Flatten([s]) == s
  {
    assert [s][1..] == [];
    assert Framing.Flatten([s]) == s + Framing.Flatten([]);
  }

  lemma EmptyRead(cfg: Config, c: Conn, bytes: seq<byte>, env: Env)
    requires Inv(c) && c.phase == AwaitDohResponse && Enabled(c, OriginReadable(Data(bytes), env)) && c.Sound() && c.doh.Some?
    requires VerdictOn(c.wire.originIn) == Framing.Continue && VerdictOn(c.wire.originIn + bytes) == Framing.NoRecords
    requires QueryType(c) == Ipv4Try && Opens(env.sockets, 0)
    ensures AskingAgain(Next(cfg, c, OriginReadable(Data(bytes), env)))
  {
    hide Inv, Next, Conn.Sound, Framing.StepAll, Framing.Init;
    InvReadFrom(c);
    ReadExactly(cfg, c, bytes, env);
    var f := Framing.StepAll(Framing.Init(), c.wire.originIn + bytes, true);
    EmptyHasNoArray(f);
  }

  // ---- connecting ----------------------------------------------------------------------------------------------

  /** The relay has started for this request: the origin has been sent the rewritten line, or the client is about to
      be told that its tunnel is there. */
  ghost predicate Started(c: Conn, r: RequestPrint.Request)
    requires r.Printable()
  {
    && c.life == Running && c.phase == Connected && c.error == 0
    && (if r.verb == RequestLine.CONNECT then c.wire.originOut == [] && c.originBuffer.pending == Replies.OkReply()
        else c.wire.originOut == Rewrite.RequestText(LineParser(r)) && c.originBuffer.pending == [])
  }

  lemma ConnectAsked(r: RequestPrint.Request)
    requires r.Printable()
    ensures Rewrite.IsConnect(LineParser(r)) <==> r.verb == RequestLine.CONNECT
  {
    hide RequestLine.FeedAll, RequestPrint.Print, RequestPrint.HostOf, RequestPrint.PortField, RequestPrint.OriginFormOf;
    RequestPrint.RoundTrip(r);
    RequestPrint.TokensAreAString(r.verb);
    RequestPrint.CStrPad(r.verb, RequestLine.MAX_METHOD_LENGTH + 1);
  }

  /** From a socket to the origin itself, its connect and the writes that follow start the relay. */
  lemma OriginConnects(cfg: Config, es: seq<Event>, cs: seq<Conn>, r: RequestPrint.Request) returns (fs: seq<Event>, ds: seq<Conn>)
    requires Run(cfg, es, cs) && Fits(cfg) && r.Printable()
    requires var c := cs[|es|]; Inv(c) && c.phase == TryConnectionIp && !ToResolver(c) && c.request == Asked(r)
    ensures Run(cfg, fs, ds) && Started(ds[|fs|], r)
  {
    hide Inv, Fire, Next, Conn.Sound, Fresh, Enabled, Finished, LineOf, DohText, Replies.OkReply, LineParser, Rewrite.RequestText, Rewrite.IsConnect;
    var c := cs[|es|];
    ConnectAsked(r);
    AskedFields(r);
    TryRequest(c);
    fs, ds := Connects(cfg, es, cs);
    ConnectedExactly(cfg, c, OriginWritable(0, true, CALM));
    if r.verb != RequestLine.CONNECT {
      var m := ds[|fs|];
      fs, ds := SendsAll(cfg, fs, ds);
      SentExactly(cfg, m, OriginWritable(|m.originBuffer.pending|, true, CALM));
      assert [] + m.originBuffer.pending[..|m.originBuffer.pending|] == m.originBuffer.pending;
      ConnectedError(ds[|fs|]);
    }
  }

  lemma ConnectedError(c: Conn)
    requires Inv(c)
    ensures Relaying(c.phase) ==> c.error == 0
  {
    hide Streams, Names, Conn.Sound;
  }

  lemma AskedFields(r: RequestPrint.Request)
    requires r.Printable()
    ensures Asked(r).connect == Rewrite.IsConnect(LineParser(r)) && Asked(r).line == Rewrite.RequestText(LineParser(r))
  {
    hide LineParser, Rewrite.IsConnect, Rewrite.RequestText;
  }

  lemma TryRequest(c: Conn)
    requires Inv(c) && c.phase == TryConnectionIp
    ensures c.log.lineLength <= |c.wire.clientIn|
    ensures c.request.connect == Rewrite.IsConnect(LineOf(c)) && c.request.line == Rewrite.RequestText(LineOf(c))
  {
    hide Shape, Streams, Names, ClientSide, LineOf, Rewrite.IsConnect, Rewrite.RequestText, AwaitShape;
    SidesHold(c);
    RequestIs(c);
  }

  /** For every printable request to an IPv4 address there is a run from a new connection to the relay. */
  lemma AddressIsReached(cfg: Config, r: RequestPrint.Request) returns (es: seq<Event>, cs: seq<Conn>)
    requires r.Printable() && !AsksName(r) && Fits(cfg)
    ensures Run(cfg, es, cs) && Started(cs[|es|], r)
  {
    hide Inv, Fire, Next, Conn.Sound, Fresh, Enabled, Finished, AsksName, Asked, Started;
    AskedByName(r);
    es, cs := ReachTry(cfg, r);
    es, cs := OriginConnects(cfg, es, cs, r);
  }

  lemma AnswerHasA(c: Conn, p: Printed, k: nat)
    requires Inv(c) && c.phase == AwaitDohResponse && c.doh.Some? && c.doh.value.family == Ipv4Try && c.doh.value.active
    requires p.Ok() && c.wire.originIn == p.Text() && p.message.flags.rcode == 0 && |p.message.answers| <= 255
    requires k < |p.message.answers| && p.message.answers[k].data.A?
    ensures var d := c.doh.value;
            && d.currentTry == 0 && |Records(d)| == |p.message.answers| && !Missing(d) && Dns.AllOk(Records(d))
            && Remaining(d) != [] && Finds(d, CALM.sockets, 0)
  {
    hide Inv, Sourced, ReadFrom, Printed.Text, DnsPrint.AnswerOf, DnsPrint.RecordOk, Wanted;
    ClosedFacts(c);
    InvReadFrom(c);
    var d := c.doh.value;
    var r := ResponseOf(c, d);
    ReadIsSourced(c, d);
    PrintedIsRead(r, p);
    DnsPrint.AnswerOfFields(p.message.answers[k]);
    SomeWanted(Records(d), 0, k, Dns.IPV4_TYPE);
  }

  lemma {:induction false} SomeWanted(answers: seq<Dns.Answer>, lo: nat, k: nat, wanted: nat)
    requires lo <= k < |answers| && answers[k].kind == wanted
    ensures Wanted(answers, lo, |answers|, wanted) != []
    decreases k - lo
  {
    if lo < k {
      SomeWanted(answers, lo + 1, k, wanted);
    }
  }

  /** For every printable request to a name, and every printed response with an A record to its first query, in any
      reads, there is a run from a new connection to the relay. */
  lemma NameIsReached(cfg: Config, r: RequestPrint.Request, p: Printed, chunks: seq<seq<byte>>, k: nat) returns (es: seq<Event>, cs: seq<Conn>)
    requires AsksName(r) && Fits(cfg) && p.Ok() && p.extra == [] && Reads(chunks) && Framing.Flatten(chunks) == p.Text()
    requires p.message.flags.rcode == 0 && |p.message.answers| <= 255 && k < |p.message.answers| && p.message.answers[k].data.A?
    ensures Run(cfg, es, cs) && Started(cs[|es|], r)
  {
    hide Inv, Fire, Next, Conn.Sound, Fresh, Finished, RequestPrint.HostOf, Asked, Started, Printed.Ok, Printed.Text, Reads, Framing.Flatten, Enabled,
      Remaining, AttemptsAt, Missing, Finds, AsksAgain;
    es, cs := ReachPrinted(cfg, r, p, chunks);
    var c := cs[|es|];
    ActiveWaiting(c);
    AnswerHasA(c, p, k);
    var e := OriginReadable(Eof, CALM);
    ReadableNow(c, e);
    InvSound(c);
    ClosedExactly(cfg, c, e);
    FoundFirst(c, c.doh.value, CALM.sockets, Next(cfg, c, e));
    ClosedKeepsRequest(cfg, c, CALM);
    es, cs := Extend(cfg, es, cs, e);
    RunKeeps(cfg, es, cs, |es|);
    es, cs := OriginConnects(cfg, es, cs, r);
  }

  lemma FoundFirst(c: Conn, d: Doh, sockets: seq<Socket>, n: Conn)
    requires d.currentTry <= |Records(d)| <= 255 && Dns.AllOk(Records(d)) && Decided(c, d, sockets, n, n.phase)
    requires Remaining(d) != [] && Finds(d, sockets, 0) && d.active
    ensures n.life == Running && n.phase == TryConnectionIp && n.doh.Some? && n.doh.value.active
  {
    hide Remaining, Finds, AsksAgain, AttemptsAt;
  }

  lemma ActiveWaiting(c: Conn)
    requires Inv(c) && c.phase == AwaitDohResponse && c.doh.Some?
    ensures c.doh.value.active
  {
    hide Streams, Names, Conn.Sound, Framing.Frame.Valid, Framing.Judge;
  }

  lemma ClosedKeepsRequest(cfg: Config, c: Conn, env: Env)
    requires Inv(c) && c.phase == AwaitDohResponse && c.doh.Some? && Enabled(c, OriginReadable(Eof, env)) && c.Sound()
    ensures Next(cfg, c, OriginReadable(Eof, env)).request == c.request
  {
    hide Inv, Conn.Sound, Jump, TryNextDns, Framing.Frame.Valid, Framing.Judge, ResponseOf;
    OnlyOriginWrites(c, OriginReadable(Eof, env));
    AwaitCases(c);
    InvSound(c);
    var d := c.doh.value;
    var m := c.(originStatus := ClosingStatus, wire := c.wire.(originEof := true));
    var c1 := m.(wire := m.wire.(originShut := m.wire.originShut + 1), log := m.log.(responses := m.log.responses + [ResponseOf(m, d)]));
    var st := TryNextDns(c1, d, env.sockets);
    assert AwaitRead(m, env) == st;
    NextKeepsRequest(c1, d, env.sockets);
    Connection.TryNextNext(c1, d, env.sockets);
    JumpKeeps(cfg, st, env);
  }

  lemma NextKeepsRequest(c: Conn, d: Doh, sockets: seq<Socket>)
    ensures TryNextDns(c, d, sockets).c.request == c.request
  {
    hide NextAddress, AttemptsAt;
  }

  /** On every run, while the request line is read, the state and the error code are those of all the client has sent:
      501 for a bad method, 505 for a bad version, 400 for anything else that is not a request line. */
  lemma LineAnswered(cfg: Config, es: seq<Event>, cs: seq<Conn>, k: nat)
    requires Run(cfg, es, cs) && Fits(cfg) && k < |es| && cs[k].phase == ParsingRequestLine && es[k].ClientReadable? && es[k].got.Data?
    ensures var q := RequestLine.FeedAll(RequestLine.Init(), Ground.Heard(es, 0, k + 1));
            (cs[k + 1].phase, cs[k + 1].error) == LineVerdict(q, Opens(es[k].env.sockets, 0))
  {
    hide Inv, Next, Conn.Sound, Fresh, Finished, RequestLine.FeedAll, RequestLine.Init, BuildRequest, LineVerdict, Ground.Told;
    assert Enabled(cs[k], es[k]) && cs[k + 1] == Fire(cfg, cs[k], es[k]);
    RunKeeps(cfg, es, cs, k);
    InvSound(cs[k]);
    Ground.ClientStreams(cfg, es, cs, k);
    ParsingExactly(cfg, cs[k], es[k].got.bytes, es[k].env);
  }
}
