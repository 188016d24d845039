/** Name resolution from the bytes the resolver sends to the addresses the proxy tries. */
module Resolution {
  import opened Bytes
  import opened Buffers
  import RequestLine
  import StatusLine
  import Headers
  import Dns
  import DnsPrint
  import Framing
  import opened Failover
  import opened Machine
  import opened Invariant
  import opened SetupProof
  import opened ResolveProof
  import opened StepProof
  import opened Runs
  import Ground
  import Theorems
  import Connection

  // ---- one event ---------------------------------------------------------------------------------

  /** A response is logged only by a read from the resolver, with the bytes read up to and including it. */
  lemma EventResponses(cfg: Config, c: Conn, e: Event)
    requires Inv(c) && c.Sound() && Enabled(c, e)
    ensures var l, m := c.log.responses, Next(cfg, c, e).log.responses;
            || m == l
            || (c.phase == AwaitDohResponse && e.OriginReadable? && |m| == |l| + 1 && l <= m
                && m[|l|].bytes == c.wire.originIn + Ground.FromOrigin(e))
  {
    hide Inv, Conn.Sound, StmRead, StmWrite, End, Buf.Push, Buf.Advance;
    Theorems.EndWire(c);
    if c.phase == AwaitDohResponse {
      OnlyOriginWrites(c, e);
    }
    match e {
      case ClientReadable(got, env) => ClientReadResponses(cfg, c, got, env);
      case ClientWritable(sent) =>
        if sent > 0 {
          Ground.StmWriteSame(cfg, c.(originBuffer := c.originBuffer.Advance(sent), wire := c.wire.(clientOut := c.wire.clientOut + c.originBuffer.pending[..sent])),
                              false, Env([], true, true));
        }
      case OriginReadable(got, env) => OriginReadResponses(cfg, c, got, env);
      case OriginWritable(sent, connected, env) => Ground.OriginWriteGrounded(cfg, c, sent, connected, env);
    }
  }

  lemma ClientReadResponses(cfg: Config, c: Conn, got: Received, env: Env)
    requires c.Sound() && c.phase != AwaitDohResponse
    ensures ClientRead(cfg, c, got, env).log.responses == c.log.responses
  {
    hide Conn.Sound, StmRead, End, Buf.Push;
    Theorems.EndWire(c);
    Theorems.EndWire(c.(wire := c.wire.(clientEof := true)));
    var m := if got.Data? then c.(clientBuffer := c.clientBuffer.Push(got.bytes), wire := c.wire.(clientIn := c.wire.clientIn + got.bytes))
             else c.(clientStatus := ClosingStatus, wire := c.wire.(clientEof := true));
    Ground.SoundSame(c, m);
    Ground.StmReadSame(cfg, m, true, env);
  }

  lemma OriginReadResponses(cfg: Config, c: Conn, got: Received, env: Env)
    requires c.Sound()
    ensures var l, m := c.log.responses, OriginRead(cfg, c, got, env).log.responses;
            || m == l
            || (c.phase == AwaitDohResponse && |m| == |l| + 1 && l <= m
                && m[|l|].bytes == c.wire.originIn + (if got.Data? then got.bytes else []))
  {
    hide Conn.Sound, StmRead, End, Buf.Push;
    Theorems.EndWire(c);
    assert c.wire.originIn + [] == c.wire.originIn;
    var m := if got.Data? then c.(originBuffer := c.originBuffer.Push(got.bytes), wire := c.wire.(originIn := c.wire.originIn + got.bytes))
             else c.(originStatus := ClosingStatus, wire := c.wire.(originEof := true));
    Ground.SoundSame(c, m);
    Ground.StmReadSame(cfg, m, false, env);
  }

  // ---- entering and staying in AWAIT_DOH_RESPONSE --------------------------------------------------

  lemma ArrivePhase(cfg: Config, c: Conn, env: Env)
    ensures Arrive(cfg, c, env).phase == c.phase
  {
    hide End, DohText, StatusText, ConnectedInterests, ClosingInterests, EmptyInterests, InitDoh;
    Connection.InterestsPhase(c);
    EndPhase(c);
    InitPhase(c, env);
  }

  lemma EndPhase(c: Conn)
    ensures End(c).phase == c.phase
  {
  }

  lemma InitPhase(c: Conn, env: Env)
    ensures InitDoh(c, env).phase == c.phase
  {
  }

  lemma JumpPhase(cfg: Config, st: Step, env: Env)
    ensures Jump(cfg, st, env).phase == if st.c.life != Running then st.c.phase else st.next
  {
    hide Arrive;
    ArrivePhase(cfg, st.c.(phase := st.next), env);
  }

  /** The query sent and the request it is for are untouched. */
  predicate SameQuery(c: Conn, n: Conn) {
    && n.wire.originOut == c.wire.originOut && n.request == c.request && n.log.queries == c.log.queries && QueryType(n) == QueryType(c)
    && n.log.responses == c.log.responses && n.log.attempts == c.log.attempts
  }

  /** From the bytes of one read: the resolver is still waited for only with its answer open or complete. */
  lemma StaysOnData(cfg: Config, c: Conn, bytes: seq<byte>, env: Env)
    requires Inv(c) && c.phase == AwaitDohResponse && c.doh.Some? && bytes != []
    requires Framing.Judge(c.doh.value.frame) == Framing.Continue
    ensures var m := c.(originBuffer := c.originBuffer.Push(bytes), wire := c.wire.(originIn := c.wire.originIn + bytes));
            var n := Jump(cfg, AwaitRead(m, env), env);
            n.life == Running && n.phase == AwaitDohResponse ==>
              n.doh.Some? && n.wire.originIn == c.wire.originIn + bytes && SameQuery(c, n)
  {
    hide Shape, Streams, Names, ClientSide, Jump, Framing.Frame.Valid, Framing.Judge, AwaitRead, Parsed, Buf.Push, SwitchToIpv6, AwaitShape;
    SidesHold(c);
    ClientRuns(c);
    assert c.error == 0 && c.doh.value.frame.Valid() by { AwaitFacts(c); }
    AwaitReadParsed(c, bytes, env);
    var p := Parsed(c, c.doh.value, bytes, env);
    ParsedRest(c, bytes, env);
    assert p.wire.originIn == c.wire.originIn + bytes by { ParsedIn(c, bytes, env); }
    var d, v := p.doh.value, Framing.Judge(p.doh.value.frame);
    var st := Resolved(p, d, v, env);
    Connection.ResolvedNext(p, d, v, env);
    JumpPhase(cfg, st, env);
    if v == Framing.Continue || v == Framing.Complete {
      NoJump(cfg, st.c, env);
    } else {
      LeavesAwait(p, d, v, env);
    }
  }

  lemma AwaitFacts(c: Conn)
    requires OriginSide(c) && c.phase == AwaitDohResponse && c.doh.Some?
    ensures c.error == 0 && c.doh.value.frame.Valid() && c.originBuffer == EMPTY && c.originStatus == ActiveStatus
  {
    hide Framing.Frame.Valid, Framing.Judge, ReadFrom;
  }

  lemma ParsedIn(c: Conn, bytes: seq<byte>, env: Env)
    requires c.doh.Some? && c.doh.value.frame.Valid()
    ensures Parsed(c, c.doh.value, bytes, env).wire.originIn == c.wire.originIn + bytes
  {
    hide Framing.Frame.Valid, Framing.Drain, Buf.Advance;
  }

  lemma LeavesAwait(p: Conn, d: Doh, v: Framing.Verdict, env: Env)
    requires p.phase == AwaitDohResponse && v != Framing.Continue && v != Framing.Complete && p.life == Running
    ensures var st := Resolved(p, d, v, env); st.c.life == Running && st.next != AwaitDohResponse
  {
  }

  /** Waiting on means that bytes came and were added to those already read. */
  lemma AwaitStays(cfg: Config, c: Conn, e: Event)
    requires Inv(c) && c.phase == AwaitDohResponse && Enabled(c, e) && c.Sound()
    ensures var n := Next(cfg, c, e);
            n.life == Running && n.phase == AwaitDohResponse ==>
              c.doh.Some? && n.doh.Some? && n.wire.originIn == c.wire.originIn + Ground.FromOrigin(e) && SameQuery(c, n)
  {
    hide Inv, Conn.Sound, Jump, AwaitRead, End, Framing.Judge, Buf.Push;
    OnlyOriginWrites(c, e);
    InvSound(c);
    AwaitCases(c);
    if e.got.ReadFailed? {
      EndLife(c);
    } else {
      var m := if e.got.Eof? then c.(originStatus := ClosingStatus, wire := c.wire.(originEof := true))
               else c.(originBuffer := c.originBuffer.Push(e.got.bytes), wire := c.wire.(originIn := c.wire.originIn + e.got.bytes));
      if c.doh.None? {
        NoDoh(m, e.env);
        JumpPhase(cfg, Step(m, Error), e.env);
      } else if e.got.Eof? {
        EofLeaves(cfg, m, e.env);
      } else if Framing.Judge(c.doh.value.frame) == Framing.Continue {
        StaysOnData(cfg, c, e.got.bytes, e.env);
      } else {
        assert m.originBuffer.CanRead() by { PushedCanRead(c.originBuffer, e.got.bytes); }
        NotConsumed(m, e.env);
        JumpLife(cfg, AwaitRead(m, e.env), e.env);
      }
    }
  }

  lemma PushedCanRead(b: Buf, bytes: seq<byte>)
    requires bytes != []
    ensures b.Push(bytes).CanRead()
  {
  }

  lemma JumpLife(cfg: Config, st: Step, env: Env)
    requires st.c.life != Running
    ensures Jump(cfg, st, env).life == st.c.life
  {
  }

  lemma AwaitCases(c: Conn)
    requires Inv(c) && c.phase == AwaitDohResponse
    ensures c.doh.None? ==> c.error == INTERNAL_SERVER_ERROR
    ensures c.doh.Some? ==> c.error == 0 && c.doh.value.frame.Valid() && c.originBuffer == EMPTY && c.originRegistered
    ensures c.doh.Some? ==> Framing.Judge(c.doh.value.frame) == Framing.Continue || Framing.Judge(c.doh.value.frame) == Framing.Complete
  {
    hide Streams, Names, Conn.Sound, Framing.Frame.Valid, Framing.Judge;
  }

  /** A resolver that closes is no longer waited for: its answer is logged and used. */
  lemma EofLeaves(cfg: Config, m: Conn, env: Env)
    requires m.life == Running && m.phase == AwaitDohResponse && m.originStatus == ClosingStatus && m.error == 0
    requires m.doh.Some? && m.doh.value.frame.Valid() && m.originBuffer == EMPTY && m.originRegistered
    ensures var n := Jump(cfg, AwaitRead(m, env), env);
            && (n.life == Running ==> n.phase != AwaitDohResponse)
            && n.log.responses == m.log.responses + [ResponseOf(m, m.doh.value)]
  {
    hide Framing.Frame.Valid, TryNextDns, Jump, ResponseOf;
    var d := m.doh.value;
    var c1 := m.(wire := m.wire.(originShut := m.wire.originShut + 1), log := m.log.(responses := m.log.responses + [ResponseOf(m, d)]));
    var st := TryNextDns(c1, d, env.sockets);
    assert AwaitRead(m, env) == st;
    LeavesPhase(c1, d, env.sockets);
    Ground.TryNextSame(c1, d, env.sockets);
    Ground.JumpSame(cfg, st, env);
    JumpPhase(cfg, st, env);
    if st.c.life != Running {
      JumpLife(cfg, st, env);
    }
  }

  lemma LeavesPhase(c: Conn, d: Doh, sockets: seq<Socket>)
    requires c.life == Running && c.phase == AwaitDohResponse
    ensures var st := TryNextDns(c, d, sockets); st.c.life != Running || st.next != AwaitDohResponse
  {
    hide NextAddress, AttemptsAt;
  }

  /** Waiting begins when a query has gone out, with nothing read. */
  lemma AwaitBegins(cfg: Config, c: Conn, e: Event)
    requires Inv(c) && c.phase != AwaitDohResponse && Enabled(c, e) && c.Sound() && Fits(cfg)
    ensures var n := Next(cfg, c, e);
            n.life == Running && n.phase == AwaitDohResponse ==> c.phase == SendDohRequest && n.wire.originIn == []
  {
    hide Inv, Conn.Sound, Next;
    InvPhases(c);
    if c.phase == ParsingRequestLine {
      ParsingElsewhere(cfg, c, e);
    } else if c.phase == TryConnectionIp {
      OnlyOriginWrites(c, e);
      TryElsewhere(cfg, c, e);
    } else if c.phase == SendDohRequest || c.phase == SendRequestLine {
      SendElsewhere(cfg, c, e);
    } else if c.phase == Error {
      OnlyErrorWrites(c, e);
      ErrorElsewhere(cfg, c, e);
    } else {
      Theorems.SilentStep(cfg, c, e);
    }
  }

  lemma ParsingElsewhere(cfg: Config, c: Conn, e: Event)
    requires Inv(c) && c.phase == ParsingRequestLine && Enabled(c, e) && c.Sound()
    ensures Next(cfg, c, e).phase != AwaitDohResponse
  {
    hide Inv, Conn.Sound, Jump, ParsingRead, End, Buf.Push, Begin;
    ParsingFacts(c);
    if e.got.Data? {
      var m := c.(clientBuffer := c.clientBuffer.Push(e.got.bytes), wire := c.wire.(clientIn := c.wire.clientIn + e.got.bytes));
      Ground.SoundSame(c, m);
      Ground.BeginSound(m);
      BeginPhase(m);
      var b := Begin(m);
      Connection.ParsingNext(b, e.env);
      JumpPhase(cfg, ParsingRead(b, e.env), e.env);
    } else {
      EndPhase(c);
      EndPhase(c.(wire := c.wire.(clientEof := true)));
    }
  }

  lemma TryElsewhere(cfg: Config, c: Conn, e: Event)
    requires Inv(c) && c.phase == TryConnectionIp && Enabled(c, e) && c.Sound() && e.OriginWritable? && c.started
    ensures Next(cfg, c, e).phase != AwaitDohResponse
  {
    hide Inv, Conn.Sound, Jump, TryNextDns, OK_LINE;
    var st := TryWrite(c, e.connected, e.env);
    if c.doh.Some? {
      Connection.TryNextNext(c, c.doh.value, e.env.sockets);
    }
    JumpPhase(cfg, st, e.env);
  }

  lemma SendElsewhere(cfg: Config, c: Conn, e: Event)
    requires Inv(c) && (c.phase == SendDohRequest || c.phase == SendRequestLine) && Enabled(c, e) && c.Sound()
    ensures var n := Next(cfg, c, e);
            n.life == Running && n.phase == AwaitDohResponse ==> c.phase == SendDohRequest && n.wire.originIn == []
  {
    hide Shape, Streams, Names, Conn.Sound, ClientSide, Arrive, End, Buf.Advance, AwaitShape;
    OnlyOriginWrites(c, e);
    SidesHold(c);
    EndLife(c);
    if e.sent > 0 {
      var m := SentOut(c, e.sent);
      ArrivePhase(cfg, m.(phase := Connected), e.env);
      AwaitArrivesIn(cfg, m.(phase := AwaitDohResponse), e.env);
    }
  }

  lemma AwaitArrivesIn(cfg: Config, c: Conn, env: Env)
    requires c.phase == AwaitDohResponse
    ensures Arrive(cfg, c, env).wire == c.wire
  {
  }

  lemma ErrorElsewhere(cfg: Config, c: Conn, e: Event)
    requires c.phase == Error && Enabled(c, e) && c.Sound() && e.ClientWritable?
    ensures Next(cfg, c, e).phase != AwaitDohResponse
  {
    hide Conn.Sound, Jump, End, Buf.Advance;
    EndPhase(c);
    if e.sent > 0 {
      var m := c.(originBuffer := c.originBuffer.Advance(e.sent), wire := c.wire.(clientOut := c.wire.clientOut + c.originBuffer.pending[..e.sent]));
      var b := Begin(m);
      JumpPhase(cfg, Step(b, if b.originBuffer.CanRead() then b.phase else Done), Env([], true, true));
    }
  }

  // ---- every run ---------------------------------------------------------------------------------------

  /** From event `i` to event `k` the answer to one query is waited for. */
  ghost predicate Listening(cs: seq<Conn>, i: nat, k: nat) {
    && 0 < i <= k < |cs| && cs[i - 1].phase == SendDohRequest
    && forall j :: i <= j <= k ==> cs[j].life == Running && cs[j].phase == AwaitDohResponse
  }

  /** What has been read from the resolver is what the events since its query went out brought. */
  lemma {:induction false} BytesHeard(cfg: Config, es: seq<Event>, cs: seq<Conn>, k: nat) returns (i: nat)
    requires Run(cfg, es, cs) && Fits(cfg) && k < |cs| && cs[k].life == Running && cs[k].phase == AwaitDohResponse
    ensures Listening(cs, i, k) && cs[k].wire.originIn == Ground.HeardOrigin(es, i, k)
    decreases k
  {
    hide Inv, Next, Conn.Sound, Fresh, Enabled, Finished, Ground.FromOrigin;
    if k == 0 {
      FreshPhase();
      assert false;
    }
    assert Enabled(cs[k - 1], es[k - 1]) && cs[k - 1 + 1] == Fire(cfg, cs[k - 1], es[k - 1]);
    EnabledRuns(cs[k - 1], es[k - 1]);
    RunKeeps(cfg, es, cs, k - 1);
    InvSound(cs[k - 1]);
    if cs[k - 1].phase == AwaitDohResponse {
      i := BytesHeard(cfg, es, cs, k - 1);
      AwaitStays(cfg, cs[k - 1], es[k - 1]);
    } else {
      i := k;
      AwaitBegins(cfg, cs[k - 1], es[k - 1]);
    }
  }

  lemma FreshPhase()
    ensures Fresh().phase == ParsingRequestLine && Fresh().log.responses == []
  {
    hide RequestLine.Init;
  }

  /** Every response a run has used was read from exactly the bytes its events brought after the query. */
  lemma {:induction false} ResponsesHeard(cfg: Config, es: seq<Event>, cs: seq<Conn>, k: nat, j: nat) returns (i: nat, m: nat)
    requires Run(cfg, es, cs) && Fits(cfg) && k < |cs| && j < |cs[k].log.responses|
    ensures m < k && Listening(cs, i, m) && es[m].OriginReadable?
    ensures cs[k].log.responses[j].bytes == Ground.HeardOrigin(es, i, m + 1)
    decreases k
  {
    hide Inv, Next, Conn.Sound, Fresh, Enabled, Finished, Ground.FromOrigin, Listening;
    if k == 0 {
      FreshPhase();
      assert false;
    }
    assert Enabled(cs[k - 1], es[k - 1]) && cs[k - 1 + 1] == Fire(cfg, cs[k - 1], es[k - 1]);
    EnabledRuns(cs[k - 1], es[k - 1]);
    RunKeeps(cfg, es, cs, k - 1);
    InvSound(cs[k - 1]);
    EventResponses(cfg, cs[k - 1], es[k - 1]);
    if j < |cs[k - 1].log.responses| {
      i, m := ResponsesHeard(cfg, es, cs, k - 1, j);
    } else {
      i := BytesHeard(cfg, es, cs, k - 1);
      m := k - 1;
      assert i <= m by { ListeningBounds(cs, i, m); }
    }
  }

  lemma ListeningBounds(cs: seq<Conn>, i: nat, k: nat)
    requires Listening(cs, i, k)
    ensures 0 < i <= k < |cs| && cs[k].life == Running && cs[k].phase == AwaitDohResponse
  {
  }

  /** The resolver closes: whatever has been read since the query is logged as the response. */
  lemma CloseIsLogged(cfg: Config, es: seq<Event>, cs: seq<Conn>, i: nat, k: nat)
    requires Run(cfg, es, cs) && Fits(cfg) && Listening(cs, i, k) && k < |es|
    requires es[k].OriginReadable? && es[k].got.Eof? && Ground.HeardOrigin(es, i, k) != []
    ensures var l, m := cs[k].log.responses, cs[k + 1].log.responses;
            |m| == |l| + 1 && l <= m && m[|l|].bytes == Ground.HeardOrigin(es, i, k) && Sourced(m[|l|])
  {
    hide Inv, Conn.Sound, Fresh, Finished, Sourced, ReadFrom, Jump, AwaitRead;
    assert Enabled(cs[k], es[k]) && cs[k + 1] == Fire(cfg, cs[k], es[k]);
    ListeningBounds(cs, i, k);
    RunKeeps(cfg, es, cs, k);
    var c := cs[k];
    InvSound(c);
    OnlyOriginWrites(c, es[k]);
    AwaitCases(c);
    HeardFrom(cfg, es, cs, i, k);
    var m := c.(originStatus := ClosingStatus, wire := c.wire.(originEof := true));
    EofLeaves(cfg, m, es[k].env);
    InvReadFrom(c);
    ReadIsSourced(m, c.doh.value);
  }

  lemma InvReadFrom(c: Conn)
    requires Inv(c) && c.phase == AwaitDohResponse && c.doh.Some?
    ensures ReadFrom(c.doh.value.frame, c.wire.originIn)
  {
    hide Shape, Names, ReadFrom, Shutdowns, Upstream, LineParsed;
  }

  /** Since the query, as `BytesHeard`, and with something read there is a resolution to read it into. */
  lemma {:induction false} HeardFrom(cfg: Config, es: seq<Event>, cs: seq<Conn>, i: nat, k: nat)
    requires Run(cfg, es, cs) && Fits(cfg) && Listening(cs, i, k)
    ensures cs[k].wire.originIn == Ground.HeardOrigin(es, i, k)
    ensures i < k ==> cs[k].doh.Some?
    decreases k
  {
    hide Inv, Next, Conn.Sound, Fresh, Enabled, Finished, Ground.FromOrigin;
    assert Enabled(cs[k - 1], es[k - 1]) && cs[k - 1 + 1] == Fire(cfg, cs[k - 1], es[k - 1]);
    EnabledRuns(cs[k - 1], es[k - 1]);
    RunKeeps(cfg, es, cs, k - 1);
    InvSound(cs[k - 1]);
    if i < k {
      HeardFrom(cfg, es, cs, i, k - 1);
      AwaitStays(cfg, cs[k - 1], es[k - 1]);
    } else {
      AwaitBegins(cfg, cs[k - 1], es[k - 1]);
    }
  }

  // ---- printed responses ---------------------------------------------------------------------------------

  /** An HTTP response as it is printed, and whatever comes with its last read. */
  datatype Printed = Printed(line: StatusLine.Line, fields: seq<Headers.Field>, message: DnsPrint.Message, extra: seq<byte>) {
    predicate Ok() {
      && line.Printable() && fields != [] && (forall k :: 0 <= k < |fields| ==> fields[k].Printable())
      && DnsPrint.MessageOk(message)
    }

    function Text(): seq<byte>
      requires Ok()
    {
      StatusLine.Print(line) + Headers.Print(fields) + DnsPrint.Print(message) + extra
    }
  }

  /** The attempts the first `n` records offer, in their order. */
  function Offers(rs: seq<DnsPrint.Record>, f: Family, port: u16, n: nat): seq<Attempt>
    requires n <= |rs|
  {
    if n == 0 then []
    else
      Offers(rs, f, port, n - 1)
      + match rs[n - 1].data
        case A(ip) => if f == Ipv4Try then [Attempt(f, ip, port)] else []
        case Aaaa(ip) => if f == Ipv6Try then [Attempt(f, ip, port)] else []
        case Cname(_) => []
  }

  /** All the addresses of a family in a message: none when it reports an error. */
  function AllOffers(m: DnsPrint.Message, f: Family, port: u16): seq<Attempt> {
    if m.flags.rcode != 0 then [] else Offers(m.answers, f, port, |m.answers|)
  }

  ghost predicate Entries(answers: seq<Dns.Answer>, rs: seq<DnsPrint.Record>)
    requires forall k :: 0 <= k < |rs| ==> DnsPrint.RecordOk(rs[k])
  {
    |answers| == |rs| && forall k :: 0 <= k < |rs| ==> answers[k] == DnsPrint.AnswerOf(rs[k])
  }

  lemma PrintedIsRead(r: Response, p: Printed)
    requires p.Ok() && r.bytes == p.Text() && Sourced(r)
    ensures r.rcode == p.message.flags.rcode && Entries(r.answers, p.message.answers)
  {
    hide Framing.StepAll, Framing.Drain, Dns.FeedAll, StatusLine.Print, Headers.Print, DnsPrint.Print, DnsPrint.AnswerOf, DnsPrint.Expand;
    Framing.MessageSeen(p.line, p.fields, DnsPrint.Print(p.message));
    DnsPrint.ParseOfPrint(p.message);
    var s := StatusLine.Print(p.line) + Headers.Print(p.fields) + DnsPrint.Print(p.message);
    Framing.StepAllConcat(Framing.Init(), s, p.extra, true);
    Framing.StoppedForever(Framing.StepAll(Framing.Init(), s, true), p.extra, true);
  }

  lemma OneOffer(answers: seq<Dns.Answer>, rs: seq<DnsPrint.Record>, f: Family, port: u16, n: nat)
    requires (forall k :: 0 <= k < |rs| ==> DnsPrint.RecordOk(rs[k])) && Entries(answers, rs) && n < |rs| && Dns.AllOk(answers)
    ensures Offers(rs, f, port, n + 1) == Offers(rs, f, port, n)
              + (if answers[n].kind == WantedKind(f) then [Attempt(f, AddressOf(answers[n], f), port)] else [])
  {
    hide DnsPrint.AnswerOf;
    DnsPrint.AnswerOfFields(rs[n]);
  }

  lemma {:induction false} TriedIsOffered(r: Response, rs: seq<DnsPrint.Record>, port: u16, n: nat)
    requires (forall k :: 0 <= k < |rs| ==> DnsPrint.RecordOk(rs[k])) && Entries(r.answers, rs) && n <= |rs| && Dns.AllOk(r.answers)
    ensures Tried(r, n, port) == Offers(rs, r.family, port, n)
    decreases n
  {
    hide Entries, Offers, Tried, Wanted, AttemptsAt;
    assert |r.answers| == |rs| by { EntriesLength(r.answers, rs); }
    if n == 0 {
      TriedNothing(r, port);
      NoOffers(rs, r.family, port);
    } else {
      TriedIsOffered(r, rs, port, n - 1);
      TriedMore(r, n - 1, n, port);
      SkipOne(r.answers, n - 1, n, WantedKind(r.family));
      NoneWanted(r.answers, n, WantedKind(r.family));
      OneOffer(r.answers, rs, r.family, port, n - 1);
      OneAttempt(r.answers, n - 1, r.family, port);
    }
  }

  lemma EntriesLength(answers: seq<Dns.Answer>, rs: seq<DnsPrint.Record>)
    requires (forall k :: 0 <= k < |rs| ==> DnsPrint.RecordOk(rs[k])) && Entries(answers, rs)
    ensures |answers| == |rs|
  {
  }

  lemma NoOffers(rs: seq<DnsPrint.Record>, f: Family, port: u16)
    ensures Offers(rs, f, port, 0) == []
  {
  }

  lemma OneAttempt(answers: seq<Dns.Answer>, n: nat, f: Family, port: u16)
    requires n < |answers| && Dns.AllOk(answers)
    ensures Wanted(answers, n, n + 1, WantedKind(f)) == if answers[n].kind == WantedKind(f) then [n] else []
    ensures AttemptsAt(answers, Wanted(answers, n, n + 1, WantedKind(f)), f, port)
         == if answers[n].kind == WantedKind(f) then [Attempt(f, AddressOf(answers[n], f), port)] else []
  {
    SkipOne(answers, n, n + 1, WantedKind(f));
    NoneWanted(answers, n + 1, WantedKind(f));
  }

  lemma AllOfIsOffered(r: Response, p: Printed, port: u16)
    requires p.Ok() && r.bytes == p.Text() && Sourced(r) && Dns.AllOk(r.answers)
    ensures AllOf(r, port) == AllOffers(p.message, r.family, port) && |r.answers| == |p.message.answers|
  {
    hide Sourced, Entries, Offers, Tried, Printed.Text, DnsPrint.RecordOk;
    PrintedIsRead(r, p);
    EntriesLength(r.answers, p.message.answers);
    TriedIsOffered(r, p.message.answers, port, |p.message.answers|);
  }

  /** The responses of a run so far are the printed ones, none with more than 255 answers. */
  ghost predicate Answered(l: Log, ps: seq<Printed>) {
    && |ps| == |l.responses|
    && forall j :: 0 <= j < |ps| ==> ps[j].Ok() && l.responses[j].bytes == ps[j].Text() && |ps[j].message.answers| <= 255
  }

  /** Whatever the resolver prints, in whatever reads it arrives: the addresses tried on any run are a prefix of
      the A addresses printed in the first response followed by the AAAA addresses printed in the second, each
      in printed order, and no AAAA address is tried before every A address has been. */
  lemma PrintedFailover(cfg: Config, es: seq<Event>, cs: seq<Conn>, k: nat, ps: seq<Printed>)
    requires Run(cfg, es, cs) && Fits(cfg) && k < |cs| && (cs[k].life == Running || cs[k].life == Ended)
    requires Answered(cs[k].log, ps)
    ensures |ps| <= 2
    ensures var port := cs[k].parser.port;
            var a := if |ps| >= 1 then AllOffers(ps[0].message, Ipv4Try, port) else [];
            var b := if |ps| == 2 then AllOffers(ps[1].message, Ipv6Try, port) else [];
            cs[k].log.attempts <= a + b && (|ps| == 2 ==> a <= cs[k].log.attempts)
  {
    hide Run, Sourced, AllOffers, AllOf, Dns.AllOk, Printed.Ok, Printed.Text;
    Theorems.FailoverOrder(cfg, es, cs, k);
    PrintedAttempts(cs[k].log, cs[k].parser.port, ps);
  }

  lemma PrintedAttempts(l: Log, port: u16, ps: seq<Printed>)
    requires AttemptsOk(l, port) && Answered(l, ps)
    ensures |ps| <= 2
    ensures var a := if |ps| >= 1 then AllOffers(ps[0].message, Ipv4Try, port) else [];
            var b := if |ps| == 2 then AllOffers(ps[1].message, Ipv6Try, port) else [];
            l.attempts <= a + b && (|ps| == 2 ==> a <= l.attempts)
  {
    hide Sourced, AllOffers, AllOf, Dns.AllOk, Printed.Ok, Printed.Text;
    if |ps| >= 1 {
      AllOfIsOffered(l.responses[0], ps[0], port);
      var a := AllOffers(ps[0].message, Ipv4Try, port);
      assert a + [] == a;
    }
    if |ps| == 2 {
      AllOfIsOffered(l.responses[1], ps[1], port);
    }
    assert Small(l);
  }
}
