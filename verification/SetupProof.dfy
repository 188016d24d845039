/** Entering and leaving the states before the relay: what each arrival establishes. */
module SetupProof {
  import opened Bytes
  import opened Buffers
  import RequestLine
  import Rewrite
  import Dns
  import DohQuery
  import Framing
  import opened Machine
  import opened Invariant
  import opened RelayProof

  /** The configured path and host leave room for a query in the origin buffer. */
  predicate Fits(cfg: Config) { |cfg.dohPath| + |cfg.dohHost| <= 7000 }

  // ---- the end -------------------------------------------------------------------------------

  /** Freeing a connection frees the answer array if there is one. */
  lemma EndLedger(c: Conn)
    requires Ledger(c)
    ensures var n := End(c);
            && n.life == Ended && n.log.allocs == n.log.frees && n.phase == c.phase && n.error == c.error
            && n.log.responses == c.log.responses && n.log.attempts == c.log.attempts && n.log.queries == c.log.queries
            && n.parser == c.parser && n.wire == c.wire
  {
  }

  lemma AttemptsOkSame(l: Log, m: Log, port: u16)
    requires AttemptsOk(l, port) && m.responses == l.responses && m.attempts == l.attempts
    ensures AttemptsOk(m, port)
  {
    hide AllOf, Dns.AllOk, Sourced;
  }

  lemma EndFinished(c: Conn)
    requires Ledger(c) && AttemptsOk(c.log, c.parser.port) && c.log.queries <= BOTH
    requires c.phase == Done ==> c.error != 0 && Reported(c)
    ensures Finished(End(c))
  {
    hide End, AttemptsOk, Delivered, StatusText;
    EndLedger(c);
    AttemptsOkSame(c.log, End(c).log, c.parser.port);
  }

  // ---- the error state -------------------------------------------------------------------------

  lemma ErrorTextFits(code: nat)
    requires ErrorCode(code)
    ensures 0 < |StatusText(code, ReasonPhrase(code))| <= CAPACITY
  {
  }

  /** Arriving in the error state, from wherever: the message is in the buffer and the client is written to. */
  lemma ErrorArrives(cfg: Config, c: Conn, env: Env)
    requires c.life == Running && c.started && c.phase != Error && c.parser.InBounds() && c.clientBuffer.Ok()
    requires ErrorCode(c.error) && (!c.originRegistered ==> c.originInterest == NOOP)
    requires c.originRegistered ==> c.originStatus != InactiveStatus
    requires Ledger(c) && AttemptsOk(c.log, c.parser.port) && c.log.queries <= BOTH && c.wire.clientOut == []
    ensures Inv(Jump(cfg, Step(c, Error), env)) && Jump(cfg, Step(c, Error), env).life == Running
  {
    hide AttemptsOk, ParsingShape, ResolvingShape, ConnectedShape, ClosingShape, EmptyShape, StatusText, LineParsed, Upstream;
    ErrorTextFits(c.error);
    assert [] + StatusText(c.error, ReasonPhrase(c.error)) == StatusText(c.error, ReasonPhrase(c.error));
  }

  /** What the error state keeps, whatever is written. */
  lemma ErrorWrites(c: Conn, sent: nat)
    requires Inv(c) && c.phase == Error && sent <= |c.originBuffer.pending|
    ensures var m := c.(originBuffer := c.originBuffer.Advance(sent), wire := c.wire.(clientOut := c.wire.clientOut + c.originBuffer.pending[..sent]));
            && Ledger(m) && AttemptsOk(m.log, m.parser.port) && m.log.queries <= BOTH && m.error != 0
            && (if m.originBuffer.CanRead() then Inv(m) else Reported(m))
  {
    hide AttemptsOk, Ledger, ParsingShape, ResolvingShape, ConnectedShape, ClosingShape, EmptyShape, LineParsed, Upstream,
      Unresolved, WalkingA, Switched, WalkingAaaa, AwaitingA, AwaitingAaaa, RequestLine.FeedAll, RequestLine.Parser.InBounds, Buf.Advance, StatusText, ReasonPhrase;
    AdvanceKeepsBytes(c.originBuffer, sent);
    var out := c.wire.clientOut + c.originBuffer.pending[..sent];
    assert out + c.originBuffer.Advance(sent).pending == c.wire.clientOut + c.originBuffer.pending;
    assert out + [] == out;
    LedgerSame(c, c.(originBuffer := c.originBuffer.Advance(sent), wire := c.wire.(clientOut := c.wire.clientOut + c.originBuffer.pending[..sent])));
  }

  lemma LedgerSame(c: Conn, n: Conn)
    requires Ledger(c) && n.doh == c.doh && n.log.allocs == c.log.allocs && n.log.frees == c.log.frees
    ensures Ledger(n)
  {
  }

  /** One write in the error state. */
  lemma ErrorStep(cfg: Config, c: Conn, sent: int)
    requires Inv(c) && c.phase == Error && Enabled(c, ClientWritable(sent))
    ensures var n := ClientWrite(cfg, c, sent); (n.life == Running ==> Inv(n)) && (n.life != Running ==> Finished(n))
  {
    hide Inv, AttemptsOk, Ledger, End, Delivered, Buf.Advance, StatusText, ReasonPhrase, Reported;
    assert c.started && Ledger(c) && AttemptsOk(c.log, c.parser.port) && c.log.queries <= BOTH by { InvErrorFacts(c); }
    if sent <= 0 {
      EndFinished(c);
    } else {
      ErrorWrites(c, sent);
      var m := c.(originBuffer := c.originBuffer.Advance(sent), wire := c.wire.(clientOut := c.wire.clientOut + c.originBuffer.pending[..sent]));
      if !m.originBuffer.CanRead() {
        LedgerSame(m, m.(phase := Done));
        ReportedSame(m, m.(phase := Done));
        EndFinished(m.(phase := Done));
      }
    }
  }

  lemma ReportedSame(c: Conn, n: Conn)
    requires Reported(c) && n.error == c.error && n.wire == c.wire
    ensures Reported(n)
  {
  }

  lemma InvErrorFacts(c: Conn)
    requires Inv(c)
    ensures Ledger(c) && AttemptsOk(c.log, c.parser.port) && c.log.queries <= BOTH && (c.phase == Error ==> c.started)
  {
    hide AttemptsOk, Ledger, Streams, ParsingShape, ResolvingShape, ConnectedShape, ClosingShape, EmptyShape, ErrorShape,
      Unresolved, WalkingA, Switched, WalkingAaaa, AwaitingA, AwaitingAaaa;
  }

  // ---- waiting for the origin ------------------------------------------------------------------

  /** What stays true of the client's side until the relay starts. */
  ghost predicate ClientSide(c: Conn) {
    && c.life == Running && c.started && c.parser.InBounds() && c.clientBuffer.Ok() && c.clientStatus == ActiveStatus
    && |c.request.domain| <= DohQuery.MAX_DOMAIN && 1 <= |c.request.line| < Rewrite.REQUEST_LINE_SIZE
    && LineParsed(c) && DroppedOk(c) && c.clientBuffer.pending == Owed(c)
    && c.wire.clientOut == [] && !c.wire.clientEof && c.wire.clientShut == 0
  }

  /** The same for the origin's side, state by state. */
  ghost predicate OriginSide(c: Conn) {
    && c.clientInterest == NOOP && c.originRegistered && c.originStatus == ActiveStatus && c.originBuffer.Ok()
    && c.originInterest == (if c.phase == AwaitDohResponse then READ else WRITE) && c.wire.originShut == 0
    && (c.doh.Some? ==> c.request.isDomain)
    && (c.phase != AwaitDohResponse ==> c.error == 0)
    && (c.phase == TryConnectionIp ==>
          c.originBuffer == EMPTY && c.wire.originIn == [] && c.wire.originOut == [] && !c.wire.originEof)
    && (c.phase == SendDohRequest ==>
          c.originBuffer.pending != [] && c.request.isDomain && (c.doh.Some? ==> !c.doh.value.active) && c.wire.originIn == [])
    && (c.phase == AwaitDohResponse ==> c.originBuffer == EMPTY && AwaitShape(c) && c.request.isDomain
                                        && (c.doh.Some? ==> ReadFrom(c.doh.value.frame, c.wire.originIn)))
    && (c.phase == SendRequestLine ==>
          && c.originBuffer.pending != [] && !c.request.connect && c.wire.originIn == [] && !c.wire.originEof
          && c.wire.originOut + c.originBuffer.pending == c.request.line)
  }

  lemma SidesHold(c: Conn)
    requires Shape(c) && Streams(c) && Resolving(c.phase)
    ensures ClientSide(c) && OriginSide(c)
  {
    hide ReadFrom, LineParsed, DroppedOk, AwaitShape, Owed, RequestLine.Parser.InBounds, ParsingShape, ConnectedShape, ClosingShape, EmptyShape, ErrorShape;
  }

  lemma SidesSuffice(c: Conn)
    requires ClientSide(c) && OriginSide(c) && Resolving(c.phase)
    ensures Shape(c) && Streams(c)
  {
    hide ReadFrom, LineParsed, DroppedOk, Owed, RequestLine.Parser.InBounds, ParsingShape, ConnectedShape, ClosingShape, EmptyShape, ErrorShape, Framing.Judge, Framing.Frame.Valid;
  }

  /** `n` differs from `c` in nothing the client's side mentions. */
  predicate SameClient(c: Conn, n: Conn) {
    && n.life == c.life && n.started == c.started && n.parser == c.parser && n.request == c.request
    && n.clientBuffer == c.clientBuffer && n.clientStatus == c.clientStatus
    && n.log.lineLength == c.log.lineLength && n.log.dropped == c.log.dropped
    && n.wire.clientIn == c.wire.clientIn && n.wire.clientOut == c.wire.clientOut
    && n.wire.clientEof == c.wire.clientEof && n.wire.clientShut == c.wire.clientShut
  }

  lemma ClientSideKept(c: Conn, n: Conn)
    requires ClientSide(c) && SameClient(c, n)
    ensures ClientSide(n)
  {
    hide RequestLine.FeedAll, BuildRequest, RequestLine.Parser.InBounds;
  }

  /** A socket just opened. */
  ghost predicate OriginFresh(c: Conn) {
    && c.originRegistered && c.originStatus == ActiveStatus && c.originInterest == WRITE
    && c.wire.originIn == [] && c.wire.originOut == [] && !c.wire.originEof && c.wire.originShut == 0
  }

  /** TRY_CONNECTION_IP, whether it is entered or re-entered. */
  lemma TryArrives(cfg: Config, c: Conn, env: Env)
    requires ClientSide(c) && OriginFresh(c) && c.originBuffer == EMPTY && c.error == 0 && (c.doh.Some? ==> c.request.isDomain)
    requires c.phase == TryConnectionIp ==> c.clientInterest == NOOP
    ensures var n := Jump(cfg, Step(c, TryConnectionIp), env);
            && n.phase == TryConnectionIp && n.life == Running && Shape(n) && Streams(n)
            && n.doh == c.doh && n.log == c.log && n.parser == c.parser
  {
    hide ClientSide, Shape, Streams;
    var n := Jump(cfg, Step(c, TryConnectionIp), env);
    assert c.life == Running by { ClientRuns(c); }
    ClientSideKept(c, n);
    SidesSuffice(n);
  }

  lemma ClientRuns(c: Conn)
    requires ClientSide(c)
    ensures c.life == Running && c.started && c.parser.InBounds() && |c.request.domain| <= DohQuery.MAX_DOMAIN
    ensures 1 <= |c.request.line| < Rewrite.REQUEST_LINE_SIZE && c.clientBuffer.Ok() && c.clientStatus == ActiveStatus
    ensures c.wire.clientOut == []
  {
    hide LineParsed, DroppedOk, Owed;
  }

  lemma SendDohArrives(cfg: Config, c: Conn, env: Env)
    requires Shape(c) && Streams(c) && c.phase == TryConnectionIp && Fits(cfg)
    requires c.request.isDomain && (c.doh.Some? ==> !c.doh.value.active)
    ensures var n := Jump(cfg, Step(c, SendDohRequest), env);
            && n.phase == SendDohRequest && n.life == Running && Shape(n) && Streams(n) && n.doh == c.doh && n.parser == c.parser
            && n.log == c.log.(queries := c.log.queries + [QueryType(c)])
  {
    hide ClientSide, Shape, Streams, DohQuery.Request, AwaitShape;
    SidesHold(c);
    ClientRuns(c);
    DohQuery.RequestLength(cfg.dohPath, cfg.dohHost, c.request.domain, 0, WantedKind(QueryType(c)));
    var n := Jump(cfg, Step(c, SendDohRequest), env);
    ClientSideKept(c, n);
    SidesSuffice(n);
  }

  lemma AwaitArrives(cfg: Config, c: Conn, env: Env)
    requires ClientSide(c) && c.phase == SendDohRequest && c.originBuffer == EMPTY && c.error == 0
    requires c.originRegistered && c.originStatus == ActiveStatus && c.wire.originShut == 0 && c.request.isDomain && c.wire.originIn == []
    ensures var n := Jump(cfg, Step(c, AwaitDohResponse), env);
            && n.phase == AwaitDohResponse && n.life == Running && Shape(n) && Streams(n) && n.parser == c.parser && n.log == c.log
            && n.doh == InitDoh(c, env).doh
  {
    hide ClientSide, Shape, Streams;
    ClientRuns(c);
    Framing.NothingToDrain(Framing.Init(), true);
    var n := Jump(cfg, Step(c, AwaitDohResponse), env);
    ClientSideKept(c, n);
    SidesSuffice(n);
  }

  lemma SendLineArrives(cfg: Config, c: Conn, env: Env)
    requires Shape(c) && Streams(c) && c.phase == TryConnectionIp && !c.request.connect
    ensures var n := Jump(cfg, Step(c, SendRequestLine), env);
            && n.phase == SendRequestLine && n.life == Running && Shape(n) && Streams(n)
            && n.doh == c.doh && n.log == c.log && n.parser == c.parser
  {
    hide ClientSide, Shape, Streams, AwaitShape;
    SidesHold(c);
    ClientRuns(c);
    var n := Jump(cfg, Step(c, SendRequestLine), env);
    ClientSideKept(c, n);
    assert [] + c.request.line == c.request.line;
    SidesSuffice(n);
  }

  /** The relay starts: the origin has been sent nothing (CONNECT, the client is owed the 200 line), or
      exactly the rewritten request line. */
  lemma ConnectedArrives(cfg: Config, c: Conn, env: Env)
    requires ClientSide(c) && c.originRegistered && c.originStatus == ActiveStatus && c.error == 0 && c.originBuffer.Ok()
    requires c.phase == TryConnectionIp || c.phase == SendRequestLine
    requires c.wire.originOut == (if c.request.connect then [] else c.request.line) && c.wire.originIn == []
    requires c.originBuffer.pending == (if c.request.connect then OK_LINE else []) && !c.wire.originEof && c.wire.originShut == 0
    ensures var n := Jump(cfg, Step(c, Connected), env);
            && n.phase == Connected && n.life == Running && Shape(n) && Streams(n)
            && n.doh == c.doh && n.log == c.log && n.parser == c.parser
  {
    hide RequestLine.FeedAll, BuildRequest, RequestLine.Parser.InBounds, Owed, AfterLine, LineParsed, DroppedOk, ParsingShape, ResolvingShape, ClosingShape, EmptyShape, ErrorShape;
    var n := Jump(cfg, Step(c, Connected), env);
    ClientSideKept(c, n);
    assert [] + c.originBuffer.pending == c.originBuffer.pending;
    assert OK_LINE + [] == OK_LINE;
  }
}
