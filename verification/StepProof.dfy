/** Every event before the relay keeps the invariant. */
module StepProof {
  import opened Bytes
  import opened Buffers
  import RequestLine
  import RequestPrint
  import Rewrite
  import Dns
  import DohQuery
  import Framing
  import opened Failover
  import opened Machine
  import opened Invariant
  import RelayProof
  import opened SetupProof
  import opened ResolveProof

  /** A step is good when it goes on under the invariant, ends with everything accounted for, or leaves the
      model by a fault or through a bracketed host. */
  ghost predicate Good(n: Conn) {
    (n.life == Running ==> Inv(n)) && (n.life == Ended ==> Finished(n))
  }

  // ---- names -------------------------------------------------------------------------------------

  ghost predicate Settled(c: Conn) { c.phase == SendRequestLine || Relaying(c.phase) || c.phase == Error }

  lemma NamesSettled(c: Conn)
    requires Books(c) && Settled(c)
    ensures Names(c)
  {
    hide Ledger, AttemptsOk, Unresolved, AwaitingA, AwaitingAaaa, Switched, WalkingA, WalkingAaaa;
  }

  lemma NamesBooks(c: Conn)
    requires Names(c)
    ensures Books(c)
  {
    hide Ledger, AttemptsOk, Unresolved, AwaitingA, AwaitingAaaa, Switched, WalkingA, WalkingAaaa;
  }

  lemma BooksSame(c: Conn, n: Conn)
    requires Books(c) && n.doh == c.doh && n.log == c.log && n.parser == c.parser
    ensures Books(n)
  {
    hide AttemptsOk;
  }

  lemma NamesTry(c: Conn, n: Conn)
    requires Looking(c) && n.doh == c.doh && n.log == c.log && n.parser == c.parser && n.phase == TryConnectionIp
    ensures Names(n)
  {
    hide Ledger, AttemptsOk, Unresolved, AwaitingA, AwaitingAaaa, Switched, WalkingA, WalkingAaaa;
    LedgerSame(c, n);
    WalkingSame(c, n);
    if Switched(c) {
      SwitchedSame(c, n);
    }
  }

  lemma OutcomeJump(cfg: Config, c: Conn, st: Step, env: Env)
    requires ClientSide(c) && c.originBuffer == EMPTY && c.error == 0 && c.clientInterest == NOOP && c.request.isDomain
    requires (c.phase == TryConnectionIp || c.phase == AwaitDohResponse) && Outcome(c, st)
    ensures Good(Jump(cfg, st, env)) && Jump(cfg, st, env).life != Ended
    ensures Jump(cfg, st, env).life == st.c.life
  {
    hide ClientSide, Looking, Books, Shape, Streams, Names, Finished;
    if st.c.life == Hung || st.c.life == Crashed {
    } else {
      ClientRuns(c);
      if st.next == Error {
        assert Ledger(st.c) && AttemptsOk(st.c.log, st.c.parser.port) && st.c.log.queries <= BOTH by { BooksAre(st.c); }
        ErrorArrives(cfg, st.c, env);
      } else {
        ClientSideKept(c, st.c);
        TryArrives(cfg, st.c, env);
        NamesTry(st.c, Jump(cfg, st, env));
      }
    }
  }

  lemma BooksAre(c: Conn)
    requires Books(c)
    ensures Ledger(c) && AttemptsOk(c.log, c.parser.port) && c.log.queries <= BOTH
  {
    hide AttemptsOk, Ledger;
  }

  lemma FailJump(cfg: Config, c: Conn, env: Env)
    requires c.life == Running && c.started && c.phase != Error && c.parser.InBounds() && c.clientBuffer.Ok()
    requires ErrorCode(c.error) && (!c.originRegistered ==> c.originInterest == NOOP)
    requires c.originRegistered ==> c.originStatus != InactiveStatus
    requires Books(c) && c.wire.clientOut == []
    ensures Good(Jump(cfg, Step(c, Error), env)) && Jump(cfg, Step(c, Error), env).life == Running
  {
    hide Books, Inv, Finished, Jump, AttemptsOk, Ledger;
    BooksAre(c);
    ErrorArrives(cfg, c, env);
  }

  lemma EndGood(c: Conn)
    requires Books(c) && c.phase != Done
    ensures Good(End(c)) && End(c).life == Ended
  {
    hide AttemptsOk, Ledger, Finished, Inv;
    EndLife(c);
    EndFinished(c);
  }

  lemma EndLife(c: Conn)
    ensures End(c).life == Ended
  {
  }

  // ---- TRY_CONNECTION_IP -----------------------------------------------------------------------------

  lemma NamesTryCases(c: Conn)
    requires Names(c) && c.phase == TryConnectionIp
    ensures Books(c)
    ensures || (Unresolved(c) && c.log.queries == []) || WalkingA(c)
            || (Switched(c) && c.log.queries == [Ipv4Try]) || WalkingAaaa(c)
    ensures c.doh.Some? && !c.doh.value.active ==> Switched(c) && c.log.queries == [Ipv4Try]
    ensures c.doh.None? ==> Unresolved(c) && c.log.queries == []
    ensures c.doh.Some? && c.doh.value.active ==> WalkingA(c) || WalkingAaaa(c)
  {
    hide Ledger, AttemptsOk, Small, Tried, AllOf, Dns.AllOk, Framing.Frame.Valid;
  }

  /** The query goes out: the first one for A, the second one for AAAA. */
  lemma NamesSendDoh(c: Conn, n: Conn)
    requires Names(c) && c.phase == TryConnectionIp && (c.doh.Some? ==> !c.doh.value.active)
    requires n.phase == SendDohRequest && n.doh == c.doh && n.parser == c.parser
    requires n.log == c.log.(queries := c.log.queries + [QueryType(c)])
    ensures Names(n)
  {
    hide Ledger, AttemptsOk, WalkingA, WalkingAaaa, AwaitingA, AwaitingAaaa, AllOf, Dns.AllOk, Names, Tried;
    NamesTryCases(c);
    BooksAre(c);
    LedgerSame(c, n);
    AttemptsOkSame(c.log, n.log, c.parser.port);
    NamesSending(n);
  }

  lemma NamesSending(n: Conn)
    requires Ledger(n) && AttemptsOk(n.log, n.parser.port) && n.phase == SendDohRequest
    requires (Unresolved(n) && n.log.queries == [Ipv4Try]) || (Switched(n) && n.log.queries == BOTH)
    ensures Names(n)
  {
    hide Ledger, AttemptsOk, Unresolved, AwaitingA, AwaitingAaaa, Switched, WalkingA, WalkingAaaa;
  }

  lemma OkLineFits()
    ensures 0 < |OK_LINE| <= CAPACITY
  {
  }

  lemma TryConnected(cfg: Config, c: Conn, env: Env)
    requires Inv(c) && c.phase == TryConnectionIp && Fits(cfg)
    ensures Good(Jump(cfg, TryWrite(c, true, env), env)) && Jump(cfg, TryWrite(c, true, env), env).life == Running
  {
    hide Shape, Streams, Names, ClientSide, Finished, Books, Jump, AwaitShape, StatusText;
    SidesHold(c);
    NamesBooks(c);
    var n := Jump(cfg, TryWrite(c, true, env), env);
    if c.request.isDomain && (c.doh.None? || !c.doh.value.active) {
      SendDohArrives(cfg, c, env);
      NamesSendDoh(c, n);
    } else if c.request.connect {
      var m := c.(originBuffer := EMPTY.Push(OK_LINE));
      OkLineFits();
      assert [] + OK_LINE == OK_LINE;
      ClientSideKept(c, m);
      ConnectedArrives(cfg, m, env);
      BooksSame(c, n);
      NamesSettled(n);
    } else {
      SendLineArrives(cfg, c, env);
      BooksSame(c, n);
      NamesSettled(n);
    }
  }

  lemma TryNextOutcome(c: Conn, d: Doh, sockets: seq<Socket>)
    requires Names(c) && c.phase == TryConnectionIp && c.life == Running && c.originRegistered && c.doh == Some(d)
    ensures var st := TryNextDns(c, d, sockets);
            Outcome(c, st) && st.c.life != Crashed && (st.c.life == Hung <==> Spinning(d, sockets))
  {
    hide Names, Books, TryNextDns, Outcome, NeverEnds, AttemptsOk, Ledger, Sourced;
    NamesTryCases(c);
    if !d.active {
      SwitchedOutcome(c, d, sockets);
      assert d.frame.dns.answers.None?;
    } else {
      BooksAre(c);
      AttemptsResponses(c.log, c.parser.port);
      WalkingIsLoaded(c);
      assert d.frame.dns.answers.Some?;
      NextDnsOutcome(c, d, sockets);
    }
  }

  lemma AttemptsResponses(l: Log, port: u16)
    requires AttemptsOk(l, port)
    ensures ResponsesOk(l) && AllSourced(l)
  {
    hide AllOf, Dns.AllOk, Sourced;
  }

  lemma TryRefused(cfg: Config, c: Conn, env: Env)
    requires Inv(c) && c.phase == TryConnectionIp
    ensures var n := Jump(cfg, TryWrite(c, false, env), env);
            && Good(n) && n.life != Ended && n.life != Crashed
            && (n.life == Hung <==> c.doh.Some? && Spinning(c.doh.value, env.sockets))
  {
    hide Shape, Streams, Names, ClientSide, Good, Books, Jump, AwaitShape, TryNextDns, Switched, WalkingA, WalkingAaaa, Unresolved, Outcome, Spinning;
    SidesHold(c);
    ClientRuns(c);
    NamesTryCases(c);
    if c.doh.Some? {
      TryNextOutcome(c, c.doh.value, env.sockets);
      OutcomeJump(cfg, c, TryNextDns(c, c.doh.value, env.sockets), env);
    } else {
      var m := Fail(c, INTERNAL_SERVER_ERROR).c;
      BooksSame(c, m);
      FailJump(cfg, m, env);
    }
  }

  lemma TryStep(cfg: Config, c: Conn, e: Event)
    requires Inv(c) && c.phase == TryConnectionIp && Enabled(c, e) && Fits(cfg) && e.OriginWritable?
    ensures Good(Next(cfg, c, e)) && Next(cfg, c, e).life != Crashed
    ensures Next(cfg, c, e).life == Hung <==> !e.connected && c.doh.Some? && Spinning(c.doh.value, e.env.sockets)
  {
    hide Inv, Good, Conn.Sound, Jump, TryWrite, Spinning;
    OnlyOriginWrites(c, e);
    if e.connected {
      TryConnected(cfg, c, e.env);
    } else {
      TryRefused(cfg, c, e.env);
    }
  }

  /** While the origin is looked for, the client is not listened to. */
  lemma OnlyOriginWrites(c: Conn, e: Event)
    requires Inv(c) && Resolving(c.phase) && Enabled(c, e)
    ensures c.phase != AwaitDohResponse ==> e.OriginWritable?
    ensures c.phase == AwaitDohResponse ==> e.OriginReadable?
    ensures c.started && c.Sound()
  {
    hide Streams, Names, Conn.Sound, AwaitShape;
  }

  // ---- sending to the resolver and to the origin -------------------------------------------------------

  /** Bytes of the origin buffer have gone out. */
  function SentOut(c: Conn, sent: nat): Conn
    requires sent <= |c.originBuffer.pending|
  {
    c.(originBuffer := c.originBuffer.Advance(sent), wire := c.wire.(originOut := c.wire.originOut + c.originBuffer.pending[..sent]))
  }

  lemma SentOutSides(c: Conn, sent: nat)
    requires Shape(c) && Streams(c) && (c.phase == SendDohRequest || c.phase == SendRequestLine)
    requires 0 < sent <= |c.originBuffer.pending|
    ensures var m := SentOut(c, sent);
            && ClientSide(m) && OriginSide(c) && m.originBuffer.Ok()
            && (m.originBuffer.CanRead() ==> Shape(m) && Streams(m))
            && (!m.originBuffer.CanRead() ==> m.originBuffer == EMPTY)
            && (c.phase == SendRequestLine ==> m.wire.originOut + m.originBuffer.pending == c.request.line)
  {
    hide ClientSide, Shape, Streams, AwaitShape, Buf.Advance;
    var m := SentOut(c, sent);
    SidesHold(c);
    ClientSideKept(c, m);
    RelayProof.AdvanceKeepsBytes(c.originBuffer, sent);
    assert c.wire.originOut + c.originBuffer.pending[..sent] + m.originBuffer.pending == c.wire.originOut + c.originBuffer.pending;
    if m.originBuffer.CanRead() {
      SidesSuffice(m);
    }
  }

  lemma NamesSendDohCases(c: Conn)
    requires Names(c) && c.phase == SendDohRequest
    ensures Books(c)
    ensures (Unresolved(c) && c.log.queries == [Ipv4Try]) || (Switched(c) && c.log.queries == BOTH)
  {
    hide Ledger, AttemptsOk, AwaitingA, AwaitingAaaa, Switched, WalkingA, WalkingAaaa, Unresolved;
  }

  lemma NamesSame(c: Conn, n: Conn)
    requires Names(c) && n.doh == c.doh && n.log == c.log && n.parser == c.parser && n.phase == c.phase
    ensures Names(n)
  {
    hide AttemptsOk, AllOf, Dns.AllOk, Tried, Framing.Frame.Valid;
  }

  /** The whole query is out: the parsers are reset and the answer is waited for. */
  lemma NamesAwait(c: Conn, n: Conn, env: Env)
    requires Names(c) && c.phase == SendDohRequest && n.phase == AwaitDohResponse
    requires n.doh == InitDoh(c, env).doh && n.log == c.log && n.parser == c.parser
    ensures Names(n)
  {
    hide AttemptsOk, AllOf, Dns.AllOk, Tried, Names, WalkingA, WalkingAaaa, Small;
    NamesSendDohCases(c);
    assert Framing.Init().dns.answers.None?;
    NamesWaiting(n);
  }

  lemma NamesWaiting(n: Conn)
    requires Ledger(n) && AttemptsOk(n.log, n.parser.port) && n.phase == AwaitDohResponse && n.log.queries <= BOTH
    requires (Unresolved(n) && n.log.queries == [Ipv4Try]) || AwaitingA(n) || AwaitingAaaa(n)
    ensures Names(n)
  {
    hide Ledger, AttemptsOk, Unresolved, AwaitingA, AwaitingAaaa, Switched, WalkingA, WalkingAaaa;
  }

  lemma SendStep(cfg: Config, c: Conn, e: Event)
    requires Inv(c) && (c.phase == SendDohRequest || c.phase == SendRequestLine) && Enabled(c, e)
    ensures Good(Next(cfg, c, e)) && Next(cfg, c, e).life != Hung && Next(cfg, c, e).life != Crashed
  {
    hide Shape, Streams, Names, Conn.Sound, ClientSide, Finished, Books, Jump, AwaitShape, Buf.Advance, InitDoh, End;
    OnlyOriginWrites(c, e);
    NamesBooks(c);
    if e.sent <= 0 {
      EndGood(c);
    } else {
      var m := SentOut(c, e.sent);
      SentOutSides(c, e.sent);
      var n := Next(cfg, c, e);
      if m.originBuffer.CanRead() {
        assert n == Jump(cfg, Step(m, m.phase), e.env) == m by { NoJump(cfg, m, e.env); }
        NamesSame(c, m);
        ClientRuns(m);
      } else if c.phase == SendDohRequest {
        AwaitArrives(cfg, m, e.env);
        assert InitDoh(m, e.env).doh == InitDoh(c, e.env).doh by { InitDohSame(c, m, e.env); }
        NamesAwait(c, n, e.env);
      } else {
        assert m.wire.originOut + [] == m.wire.originOut;
        ConnectedArrives(cfg, m, e.env);
        BooksSame(c, n);
        NamesSettled(n);
      }
    }
  }

  lemma NoJump(cfg: Config, c: Conn, env: Env)
    ensures Jump(cfg, Step(c, c.phase), env) == c
  {
  }

  lemma InitDohSame(c: Conn, n: Conn, env: Env)
    requires n.doh == c.doh
    ensures InitDoh(n, env).doh == InitDoh(c, env).doh
  {
  }

  // ---- AWAIT_DOH_RESPONSE ---------------------------------------------------------------------------

  /** Logging the answer makes it the one in use, with nothing of it tried yet. */
  lemma LoadedNow(c: Conn, d: Doh, n: Conn)
    requires (AwaitingA(c) || AwaitingAaaa(c)) && AttemptsOk(c.log, c.parser.port)
    requires d.active && d.currentTry == 0 && d.frame.Valid() && d.family == c.doh.value.family
    requires n.doh == Some(d) && n.parser == c.parser && ReadFrom(d.frame, n.wire.originIn)
    requires n.log.responses == c.log.responses + [ResponseOf(n, d)] && n.log.attempts == c.log.attempts && n.log.queries == c.log.queries
    ensures Loaded(n)
  {
    hide AllOf, Dns.AllOk, Tried, Framing.Frame.Valid, Sourced, ReadFrom;
    var r := ResponseOf(n, d);
    ReadIsSourced(n, d);
    AnswersCounted(d);
    assert Dns.AllOk(r.answers) by {
      if d.frame.dns.answers.None? {
        assert r.answers == [];
        NoAnswersOk();
      }
    }
    TriedNothing(r, c.parser.port);
    if Small(n.log) {
      assert Small(c.log) by { SmallPrefix(c.log, n.log, r); }
      assert c.log.attempts + [] == c.log.attempts;
    }
  }

  lemma ReadIsSourced(c: Conn, d: Doh)
    requires ReadFrom(d.frame, c.wire.originIn)
    ensures Sourced(ResponseOf(c, d))
  {
    hide Framing.StepAll, Framing.Init;
  }

  lemma NoAnswersOk()
    ensures Dns.AllOk([])
  {
  }

  lemma SmallPrefix(l: Log, m: Log, r: Response)
    requires m.responses == l.responses + [r] && Small(m)
    ensures Small(l)
  {
    forall k | 0 <= k < |l.responses| ensures |l.responses[k].answers| <= 255 {
      assert m.responses[k] == l.responses[k];
    }
  }

  lemma NamesAwaitCases(c: Conn)
    requires Names(c) && c.phase == AwaitDohResponse
    ensures Books(c) && (c.doh.Some? ==> AwaitingA(c) || AwaitingAaaa(c))
  {
    hide Ledger, AttemptsOk, Switched, WalkingA, WalkingAaaa;
  }

  /** The resolver has closed: whatever was parsed is used. */
  lemma AwaitEof(cfg: Config, c: Conn, env: Env)
    requires Inv(c) && c.phase == AwaitDohResponse && c.doh.Some?
    ensures var m := c.(originStatus := ClosingStatus, wire := c.wire.(originEof := true));
            var n := Jump(cfg, AwaitRead(m, env), env);
            && Good(n) && n.life != Ended && (n.life == Hung <==> Spinning(c.doh.value, env.sockets))
            && (n.life == Crashed <==> Missing(c.doh.value))
  {
    hide Shape, Streams, Names, ClientSide, Good, Books, Jump, TryNextDns, Loaded, AwaitingA, AwaitingAaaa, Outcome, Framing.Frame.Valid, Framing.Judge, AttemptsOk, Ledger, Spinning, Missing;
    SidesHold(c);
    ClientRuns(c);
    NamesAwaitCases(c);
    BooksAre(c);
    var d := c.doh.value;
    var m := c.(originStatus := ClosingStatus, wire := c.wire.(originEof := true));
    var c1 := m.(wire := m.wire.(originShut := m.wire.originShut + 1), log := m.log.(responses := m.log.responses + [ResponseOf(m, d)]));
    LoadedNow(c, d, c1);
    LedgerSame(c, c1);
    ClientSideKept(c, c1);
    NextDnsOutcome(c1, d, env.sockets);
    assert AwaitRead(m, env) == TryNextDns(c1, d, env.sockets);
    OutcomeJump(cfg, c1, TryNextDns(c1, d, env.sockets), env);
  }

  /** Bytes of the answer: the parsers move on, and an array they allocate is counted. */
  function Parsed(c: Conn, d: Doh, bytes: seq<byte>, env: Env): Conn
    requires d.frame.Valid()
  {
    var (f, k) := Framing.Drain(d.frame, bytes, env.answersAlloc);
    var gotArray := d.frame.dns.answers.None? && f.dns.answers.Some?;
    c.(doh := Some(d.(frame := f)), originBuffer := Buf(0, bytes).Advance(k),
       log := if gotArray then c.log.(allocs := c.log.allocs + 1) else c.log,
       wire := c.wire.(originIn := c.wire.originIn + bytes))
  }

  lemma ParsedBooks(c: Conn, bytes: seq<byte>, env: Env)
    requires Books(c) && c.doh.Some? && c.doh.value.active && c.doh.value.frame.Valid()
    ensures Books(Parsed(c, c.doh.value, bytes, env))
  {
    hide AttemptsOk, Framing.Drain, Framing.Frame.Valid, Buf.Advance;
    var n := Parsed(c, c.doh.value, bytes, env);
    if c.doh.value.frame.dns.answers.Some? {
      Framing.DrainKeepsArray(c.doh.value.frame, bytes, env.answersAlloc);
    }
    AttemptsOkSame(c.log, n.log, c.parser.port);
  }

  lemma AwaitReadParsed(c: Conn, bytes: seq<byte>, env: Env)
    requires c.doh.Some? && c.doh.value.frame.Valid() && c.error == 0 && c.originBuffer == EMPTY && bytes != []
    requires Framing.Judge(c.doh.value.frame) == Framing.Continue
    ensures var m := c.(originBuffer := c.originBuffer.Push(bytes), wire := c.wire.(originIn := c.wire.originIn + bytes));
            var n := Parsed(c, c.doh.value, bytes, env);
            AwaitRead(m, env) == Resolved(n, n.doh.value, Framing.Judge(n.doh.value.frame), env)
  {
    hide Framing.Frame.Valid, Framing.Drain, Resolved, Buf.Advance, Framing.Judge;
    assert c.originBuffer.Push(bytes) == Buf(0, bytes) by { assert [] + bytes == bytes; }
  }

  /** The answer is not over, or is complete with the resolver still connected: it stays being waited for. */
  lemma StillWaiting(c: Conn, n: Conn)
    requires Inv(c) && c.phase == AwaitDohResponse && c.doh.Some? && n.doh.Some? && Books(n)
    requires n == c.(doh := n.doh, log := c.log.(allocs := n.log.allocs), wire := c.wire.(originIn := n.wire.originIn))
    requires n.doh.value == c.doh.value.(frame := n.doh.value.frame) && n.doh.value.frame.Valid()
    requires Framing.Judge(n.doh.value.frame) == Framing.Continue || Framing.Judge(n.doh.value.frame) == Framing.Complete
    requires ReadFrom(n.doh.value.frame, n.wire.originIn)
    ensures Inv(n)
  {
    hide ReadFrom, Shape, Streams, Names, ClientSide, AllOf, Dns.AllOk, Framing.Frame.Valid, Framing.Judge, AttemptsOk, Ledger;
    SidesHold(c);
    ClientSideKept(c, n);
    SidesSuffice(n);
    NamesAwaitCases(c);
    NamesWaiting(n);
  }

  lemma NoRecordsOutcome(c: Conn, d: Doh, env: Env)
    requires c.life == Running && c.originRegistered && (AwaitingA(c) || AwaitingAaaa(c)) && Books(c) && c.doh == Some(d)
    requires d.currentTry == 0 && d.frame.Valid() && d.frame.dns.state == Dns.NoAnswers
    requires ReadFrom(d.frame, c.wire.originIn)
    ensures var c1 := c.(log := c.log.(responses := c.log.responses + [ResponseOf(c, d)]));
            Books(c1) && (d.family == Ipv4Try ==>
              var u := UnregisterOrigin(c1.(originBuffer := EMPTY));
              Outcome(u, SwitchToIpv6(u, d, env.sockets)) && SwitchToIpv6(u, d, env.sockets).c.life == Running)
  {
    hide Loaded, AwaitingA, AwaitingAaaa, Outcome, Small, Framing.Frame.Valid, AttemptsOk, Ledger, SwitchToIpv6, ReadFrom;
    assert d.active by { AwaitingActive(c); }
    assert d.frame.dns.an == 0 by { NothingAllocated(d); }
    var c1 := c.(log := c.log.(responses := c.log.responses + [ResponseOf(c, d)]));
    LoadedNow(c, d, c1);
    LedgerSame(c, c1);
    LoadedAttempts(c1);
    if d.family == Ipv4Try {
      var u := UnregisterOrigin(c1.(originBuffer := EMPTY));
      LoadedSame(c1, u);
      assert u.(doh := Some(d)) == u;
      SwitchOutcome(u, d, env.sockets);
    }
  }

  lemma AwaitingActive(c: Conn)
    requires AwaitingA(c) || AwaitingAaaa(c)
    ensures c.doh.Some? && c.doh.value.active
  {
    hide AllOf;
  }

  lemma NothingAllocated(d: Doh)
    requires d.frame.Valid() && d.frame.dns.state == Dns.NoAnswers
    ensures d.frame.dns.an == 0 && d.frame.dns.answers.None?
  {
  }

  lemma ParsedWaiting(c: Conn, bytes: seq<byte>, env: Env)
    requires (AwaitingA(c) || AwaitingAaaa(c)) && c.doh.value.frame.Valid()
    ensures var n := Parsed(c, c.doh.value, bytes, env); AwaitingA(n) || AwaitingAaaa(n)
  {
    hide AllOf, Dns.AllOk, Framing.Frame.Valid, Framing.Drain, Buf.Advance;
  }

  lemma ParsedRest(c: Conn, bytes: seq<byte>, env: Env)
    requires c.doh.Some? && c.doh.value.frame.Valid()
    ensures var n := Parsed(c, c.doh.value, bytes, env);
            && n == c.(doh := n.doh, originBuffer := n.originBuffer, log := c.log.(allocs := n.log.allocs), wire := c.wire.(originIn := n.wire.originIn))
            && n.doh.Some? && n.doh.value == c.doh.value.(frame := n.doh.value.frame) && n.doh.value.frame.Valid()
            && (Framing.Judge(n.doh.value.frame) == Framing.Continue ==> n.originBuffer == EMPTY)
  {
    hide Framing.Frame.Valid, Framing.Drain;
  }

  /** However the response is split, and whether or not memory was there when it was not needed. */
  lemma ParsedReadFrom(c: Conn, bytes: seq<byte>, env: Env)
    requires c.doh.Some? && c.doh.value.frame.Valid() && ReadFrom(c.doh.value.frame, c.wire.originIn)
    ensures var n := Parsed(c, c.doh.value, bytes, env);
            n.doh.Some? && (Framing.Judge(n.doh.value.frame) != Framing.NoMemory ==> ReadFrom(n.doh.value.frame, n.wire.originIn))
  {
    hide Framing.Frame.Valid, Framing.Drain, Framing.StepAll, Framing.Init, Framing.Judge, Buf.Advance;
    var f := c.doh.value.frame;
    Framing.DrainIsStepAll(f, bytes, env.answersAlloc);
    Framing.MemoryIrrelevant(f, bytes, env.answersAlloc);
    Framing.StepAllConcat(Framing.Init(), c.wire.originIn, bytes, true);
  }

  lemma AwaitData(cfg: Config, c: Conn, bytes: seq<byte>, env: Env)
    requires Inv(c) && c.phase == AwaitDohResponse && c.doh.Some? && bytes != []
    requires Framing.Judge(c.doh.value.frame) == Framing.Continue
    ensures var m := c.(originBuffer := c.originBuffer.Push(bytes), wire := c.wire.(originIn := c.wire.originIn + bytes));
            var n := Jump(cfg, AwaitRead(m, env), env);
            Good(n) && n.life == Running
  {
    hide Shape, Streams, Names, ClientSide, Good, Books, Jump, AwaitingA, AwaitingAaaa, Outcome, Framing.Frame.Valid,
      Framing.Judge, AwaitRead, Parsed, SwitchToIpv6, Buf.Push, ReadFrom;
    SidesHold(c);
    ClientRuns(c);
    NamesAwaitCases(c);
    AwaitReadParsed(c, bytes, env);
    var p := Parsed(c, c.doh.value, bytes, env);
    ParsedRest(c, bytes, env);
    ParsedBooks(c, bytes, env);
    ParsedWaiting(c, bytes, env);
    ParsedReadFrom(c, bytes, env);
    ClientSideKept(c, p);
    AwaitVerdict(cfg, c, p, env);
  }

  /** What the verdict on the bytes just parsed leads to. */
  lemma AwaitVerdict(cfg: Config, c: Conn, p: Conn, env: Env)
    requires Inv(c) && c.phase == AwaitDohResponse && c.doh.Some? && Books(p) && ClientSide(p) && p.doh.Some?
    requires p == c.(doh := p.doh, originBuffer := p.originBuffer, log := c.log.(allocs := p.log.allocs), wire := c.wire.(originIn := p.wire.originIn))
    requires p.doh.value == c.doh.value.(frame := p.doh.value.frame) && p.doh.value.frame.Valid()
    requires Framing.Judge(p.doh.value.frame) == Framing.Continue ==> p.originBuffer == EMPTY
    requires AwaitingA(p) || AwaitingAaaa(p)
    requires Framing.Judge(p.doh.value.frame) != Framing.NoMemory ==> ReadFrom(p.doh.value.frame, p.wire.originIn)
    ensures var n := Jump(cfg, Resolved(p, p.doh.value, Framing.Judge(p.doh.value.frame), env), env); Good(n) && n.life == Running
  {
    hide Shape, Streams, Names, ClientSide, Finished, Books, Jump, AwaitingA, AwaitingAaaa, Outcome, Framing.Frame.Valid,
      Framing.Judge, SwitchToIpv6, ReadFrom, ResponseOf;
    SidesHold(c);
    ClientRuns(p);
    var d := p.doh.value;
    match Framing.Judge(d.frame) {
      case BadGateway =>
        BooksSame(p, Fail(p, BAD_GATEWAY).c);
        FailJump(cfg, Fail(p, BAD_GATEWAY).c, env);
      case NoMemory =>
        BooksSame(p, Fail(p, INTERNAL_SERVER_ERROR).c);
        FailJump(cfg, Fail(p, INTERNAL_SERVER_ERROR).c, env);
      case NoRecords =>
        assert d.frame.dns.state == Dns.NoAnswers by { NoRecordsState(d.frame); }
        NoRecordsOutcome(p, d, env);
        var c1 := p.(log := p.log.(responses := p.log.responses + [ResponseOf(p, d)]));
        if d.family == Ipv4Try {
          var u := UnregisterOrigin(c1.(originBuffer := EMPTY));
          ClientSideKept(p, u);
          OutcomeJump(cfg, u, SwitchToIpv6(u, d, env.sockets), env);
        } else {
          BooksSame(c1, Fail(c1, INTERNAL_SERVER_ERROR).c);
          FailJump(cfg, Fail(c1, INTERNAL_SERVER_ERROR).c, env);
        }
      case Complete =>
        var n := p.(originBuffer := EMPTY);
        BooksSame(p, n);
        StillWaiting(c, n);
        NoJump(cfg, n, env);
      case Continue =>
        StillWaiting(c, p);
        NoJump(cfg, p, env);
    }
  }

  lemma NoRecordsState(f: Framing.Frame)
    requires Framing.Judge(f) == Framing.NoRecords
    ensures f.dns.state == Dns.NoAnswers
  {
  }

  /** The resolution's own exits: bytes that come after the message is complete are never consumed, and a
      response cut after a non-zero first count byte is looked up in an array that is not there. */
  lemma AwaitStep(cfg: Config, c: Conn, e: Event)
    requires Inv(c) && c.phase == AwaitDohResponse && Enabled(c, e) && e.OriginReadable?
    ensures Good(Next(cfg, c, e))
    ensures Next(cfg, c, e).life == Hung <==>
              c.doh.Some? && ((e.got.Data? && Framing.Judge(c.doh.value.frame) == Framing.Complete)
                              || (e.got.Eof? && Spinning(c.doh.value, e.env.sockets)))
    ensures Next(cfg, c, e).life == Crashed <==> c.doh.Some? && e.got.Eof? && Missing(c.doh.value)
  {
    hide Shape, Streams, Names, Conn.Sound, ClientSide, Good, Books, Jump, AwaitRead, Framing.Judge, Framing.Frame.Valid, Spinning, Missing, End;
    OnlyOriginWrites(c, e);
    NamesBooks(c);
    SidesHold(c);
    ClientRuns(c);
    if e.got.ReadFailed? {
      EndGood(c);
    } else if c.doh.None? {
      var m := if e.got.Eof? then c.(originStatus := ClosingStatus, wire := c.wire.(originEof := true))
               else c.(originBuffer := c.originBuffer.Push(e.got.bytes), wire := c.wire.(originIn := c.wire.originIn + e.got.bytes));
      assert AwaitRead(m, e.env) == Step(m, Error) by { NoDoh(m, e.env); }
      BooksSame(c, m);
      FailJump(cfg, m, e.env);
    } else if e.got.Eof? {
      AwaitEof(cfg, c, e.env);
    } else if Framing.Judge(c.doh.value.frame) == Framing.Complete {
      var m := c.(originBuffer := c.originBuffer.Push(e.got.bytes), wire := c.wire.(originIn := c.wire.originIn + e.got.bytes));
      assert AwaitRead(m, e.env) == Step(m.(life := Hung), m.phase) by { NotConsumed(m, e.env); }
      NoJump(cfg, m.(life := Hung), e.env);
      assert Good(m.(life := Hung)) by { HungIsGood(m.(life := Hung)); }
    } else {
      AwaitData(cfg, c, e.got.bytes, e.env);
    }
  }

  lemma HungIsGood(c: Conn)
    requires c.life != Running && c.life != Ended
    ensures Good(c)
  {
  }

  lemma NoDoh(c: Conn, env: Env)
    requires c.error == INTERNAL_SERVER_ERROR && c.doh.None?
    ensures AwaitRead(c, env) == Step(c, Error)
  {
  }

  lemma NotConsumed(c: Conn, env: Env)
    requires c.error == 0 && c.doh.Some? && c.doh.value.frame.Valid() && c.originBuffer.CanRead()
    requires Framing.Judge(c.doh.value.frame) == Framing.Complete
    ensures AwaitRead(c, env) == Step(c.(life := Hung), c.phase)
  {
    hide Framing.Frame.Valid, Framing.Drain, Framing.Judge;
  }

  // ---- PARSING_REQUEST_LINE --------------------------------------------------------------------------

  /** The parser after one more read, and what the read leaves in the buffer. */
  function LineRead(c: Conn, bytes: seq<byte>): Conn
    requires c.parser.InBounds()
  {
    var (q, k) := RequestLine.Consume(c.parser, bytes);
    c.(started := true, parser := q, clientBuffer := Buf(0, bytes).Advance(k),
       wire := c.wire.(clientIn := c.wire.clientIn + bytes), log := c.log.(lineLength := c.log.lineLength + k))
  }

  /** The parser stopped at the last byte it took, not before. */
  ghost predicate LastByteEnds(m: Conn) {
    && 0 < m.log.lineLength <= |m.wire.clientIn|
    && !RequestLine.FeedAll(RequestLine.Init(), m.wire.clientIn[..m.log.lineLength - 1]).Terminal()
  }

  lemma LineReadParser(c: Conn, bytes: seq<byte>)
    requires c.log.lineLength == |c.wire.clientIn| && c.parser == RequestLine.FeedAll(RequestLine.Init(), c.wire.clientIn)
    requires !c.parser.Terminal()
    ensures var m := LineRead(c, bytes);
            && m.log.lineLength <= |m.wire.clientIn| && (m.parser.Terminal() ==> LastByteEnds(m))
            && m.parser == RequestLine.FeedAll(RequestLine.Init(), m.wire.clientIn[..m.log.lineLength])
            && AfterLine(m) == m.clientBuffer.pending
            && (m.parser.Terminal() || (m.log.lineLength == |m.wire.clientIn| && m.clientBuffer == EMPTY))
  {
    hide RequestLine.Feed, RequestLine.FeedAll, RequestLine.Consume, RequestLine.Parser.InBounds, RequestLine.Parser.Terminal;
    var (q, k) := RequestLine.Consume(c.parser, bytes);
    var m := LineRead(c, bytes);
    RequestLine.ConsumeStopsFirst(c.parser, bytes, 0);
    RequestPrint.FeedAllConcat(RequestLine.Init(), c.wire.clientIn, bytes[..k]);
    assert m.wire.clientIn[..m.log.lineLength] == c.wire.clientIn + bytes[..k];
    assert m.wire.clientIn[m.log.lineLength..] == bytes[k..];
    if m.parser.Terminal() {
      assert bytes[..0] == [];
      FeedNothing(c.parser);
      RequestLine.ConsumeStopsFirst(c.parser, bytes, k - 1);
      RequestPrint.FeedAllConcat(RequestLine.Init(), c.wire.clientIn, bytes[..k - 1]);
      assert m.wire.clientIn[..m.log.lineLength - 1] == c.wire.clientIn + bytes[..k - 1];
    }
  }

  lemma FeedNothing(p: RequestLine.Parser)
    requires p.InBounds()
    ensures RequestLine.FeedAll(p, []) == p
  {
  }

  lemma ParsingReadIs(c: Conn, bytes: seq<byte>, env: Env)
    requires c.parser.InBounds() && c.clientBuffer == EMPTY && (!c.started ==> c.parser == RequestLine.Init())
    ensures var b := Begin(c.(clientBuffer := c.clientBuffer.Push(bytes), wire := c.wire.(clientIn := c.wire.clientIn + bytes)));
            var m := LineRead(c, bytes);
            && b.parser.InBounds()
            && ParsingRead(b, env) ==
               (match m.parser.state
                case BadMethod => Fail(m, NOT_IMPLEMENTED)
                case BadVersion => Fail(m, HTTP_VERSION_NOT_SUPPORTED)
                case Failed => Fail(m, BAD_REQUEST)
                case Bracketed => Step(m.(life := Unmodelled), c.phase)
                case Done => LineComplete(m, env)
                case _ => Step(m, c.phase))
  {
    hide RequestLine.Consume, RequestLine.Parser.InBounds, LineComplete, RequestLine.Init, Buf.Advance;
    assert c.clientBuffer.Push(bytes) == Buf(0, bytes) by { assert [] + bytes == bytes; }
  }

  lemma RequestBuilt(c: Conn)
    requires c.log.lineLength <= |c.wire.clientIn| && c.parser.state == RequestLine.Done
    requires c.parser == RequestLine.FeedAll(RequestLine.Init(), c.wire.clientIn[..c.log.lineLength])
    ensures var r := BuildRequest(c.parser);
            |r.domain| <= DohQuery.MAX_DOMAIN && 1 <= |r.line| < Rewrite.REQUEST_LINE_SIZE
  {
    hide RequestLine.Feed, RequestLine.FeedAll, RequestLine.Parser.InBounds, Rewrite.ServerWide;
    Rewrite.RewriteFits(c.wire.clientIn[..c.log.lineLength]);
  }

  /** The line is complete: the rest of the read stays buffered, or is dropped for CONNECT. */
  lemma LineCompleteOk(cfg: Config, c: Conn, m: Conn, env: Env)
    requires Inv(c) && c.phase == ParsingRequestLine && m.parser.InBounds() && m.parser.state == RequestLine.Done
    requires m == c.(started := true, parser := m.parser, clientBuffer := m.clientBuffer, wire := c.wire.(clientIn := m.wire.clientIn),
                     log := c.log.(lineLength := m.log.lineLength))
    requires m.clientBuffer.Ok() && LastByteEnds(m) && AfterLine(m) == m.clientBuffer.pending
    requires m.parser == RequestLine.FeedAll(RequestLine.Init(), m.wire.clientIn[..m.log.lineLength])
    ensures Good(Jump(cfg, LineComplete(m, env), env)) && Jump(cfg, LineComplete(m, env), env).life == Running
  {
    hide RequestLine.FeedAll, RequestLine.Parser.InBounds, Jump, BuildRequest, Shape, Finished, Streams, Books, Names, ClientSide, Buf.Ok;
    ParsingFacts(c);
    FreshBooks(m);
    var st := LineComplete(m, env);
    if st.next == Error {
      FreshBooks(st.c);
      FailJump(cfg, st.c, env);
    } else {
      RequestBuilt(m);
      NewLineSide(m, st.c);
      TryArrives(cfg, st.c, env);
      FreshNames(Jump(cfg, st, env));
    }
  }

  lemma FreshBooks(c: Conn)
    requires c.doh.None? && c.log.responses == [] && c.log.attempts == [] && c.log.queries == [] && c.log.allocs == c.log.frees
    ensures Books(c)
  {
  }

  lemma FreshNames(c: Conn)
    requires c.doh.None? && c.log.responses == [] && c.log.attempts == [] && c.log.queries == [] && c.log.allocs == c.log.frees
    requires c.phase == TryConnectionIp || c.phase == ParsingRequestLine
    ensures Names(c)
  {
  }

  lemma ParsingFacts(c: Conn)
    requires Inv(c) && c.phase == ParsingRequestLine
    ensures ParsingShape(c) && c.life == Running && c.parser.InBounds()
    ensures c.doh.None? && c.log.responses == [] && c.log.attempts == [] && c.log.queries == [] && c.log.allocs == c.log.frees
    ensures c.log.lineLength == |c.wire.clientIn| && c.log.dropped == []
    ensures c.parser == RequestLine.FeedAll(RequestLine.Init(), c.wire.clientIn) && !c.parser.Terminal()
    ensures c.wire.clientOut == [] && !c.wire.clientEof && c.wire.clientShut == 0 && c.wire.originShut == 0
  {
    hide AttemptsOk, RequestLine.FeedAll, RequestLine.Parser.InBounds;
  }

  lemma NewLineSide(m: Conn, n: Conn)
    requires m.life == Running && m.started && m.parser.InBounds() && m.clientBuffer.Ok() && m.clientStatus == ActiveStatus
    requires m.wire.clientOut == [] && !m.wire.clientEof && m.wire.clientShut == 0 && m.log.dropped == []
    requires LastByteEnds(m) && AfterLine(m) == m.clientBuffer.pending && m.parser.state == RequestLine.Done
    requires m.parser == RequestLine.FeedAll(RequestLine.Init(), m.wire.clientIn[..m.log.lineLength])
    requires |BuildRequest(m.parser).domain| <= DohQuery.MAX_DOMAIN && 1 <= |BuildRequest(m.parser).line| < Rewrite.REQUEST_LINE_SIZE
    requires n.life == m.life && n.started && n.parser == m.parser && n.clientStatus == m.clientStatus
    requires n.wire.clientIn == m.wire.clientIn && n.wire.clientOut == [] && !n.wire.clientEof && n.wire.clientShut == 0
    requires n.request == BuildRequest(m.parser) && n.log.lineLength == m.log.lineLength
    requires if n.request.connect then n.clientBuffer == EMPTY && n.log.dropped == m.clientBuffer.pending
             else n.clientBuffer == m.clientBuffer && n.log.dropped == []
    ensures ClientSide(n)
  {
    hide RequestLine.FeedAll, RequestLine.Parser.InBounds, BuildRequest;
    assert AfterLine(n) == AfterLine(m);
  }

  lemma StillParsing(c: Conn, m: Conn)
    requires Inv(c) && c.phase == ParsingRequestLine && m.parser.InBounds() && !m.parser.Terminal()
    requires m == c.(started := true, parser := m.parser, clientBuffer := EMPTY, wire := c.wire.(clientIn := m.wire.clientIn),
                     log := c.log.(lineLength := m.log.lineLength))
    requires m.log.lineLength == |m.wire.clientIn|
    requires m.parser == RequestLine.FeedAll(RequestLine.Init(), m.wire.clientIn)
    ensures Inv(m)
  {
    hide RequestLine.FeedAll, RequestLine.Parser.InBounds, RequestLine.Parser.Terminal, ResolvingShape, ConnectedShape, ClosingShape, EmptyShape, ErrorShape, LineParsed, Upstream, Names;
    ParsingFacts(c);
    FreshNames(m);
  }

  lemma ParsingStep(cfg: Config, c: Conn, e: Event)
    requires Inv(c) && c.phase == ParsingRequestLine && Enabled(c, e)
    ensures Good(Next(cfg, c, e)) && Next(cfg, c, e).life != Hung && Next(cfg, c, e).life != Crashed
  {
    hide RequestLine.FeedAll, RequestLine.Parser.InBounds, RequestLine.Consume, Inv, Finished, Books, Jump, LineComplete, LineRead, ParsingRead, Begin, End;
    ParsingFacts(c);
    FreshBooks(c);
    if !e.got.Data? {
      var m := if e.got.Eof? then c.(wire := c.wire.(clientEof := true)) else c;
      FreshBooks(m);
      EndGood(m);
    } else {
      ParsingData(cfg, c, e.got.bytes, e.env);
      BeginPhase(c.(clientBuffer := c.clientBuffer.Push(e.got.bytes), wire := c.wire.(clientIn := c.wire.clientIn + e.got.bytes)));
    }
  }

  lemma BeginPhase(c: Conn)
    ensures Begin(c).phase == c.phase
  {
  }

  lemma ParsingData(cfg: Config, c: Conn, bytes: seq<byte>, env: Env)
    requires Inv(c) && c.phase == ParsingRequestLine && 1 <= |bytes| <= c.clientBuffer.Free()
    ensures var b := Begin(c.(clientBuffer := c.clientBuffer.Push(bytes), wire := c.wire.(clientIn := c.wire.clientIn + bytes)));
            var n := Jump(cfg, ParsingRead(b, env), env);
            Good(n) && n.life != Hung && n.life != Crashed && n.life != Ended
  {
    hide RequestLine.FeedAll, RequestLine.Parser.InBounds, RequestLine.Consume, Inv, Finished, Books, Jump, LineComplete, LineRead, ParsingRead, Begin;
    ParsingFacts(c);
    ParsingReadIs(c, bytes, env);
    LineReadParser(c, bytes);
    var m := LineRead(c, bytes);
    LineReadRest(c, bytes);
    FreshBooks(m);
    if m.parser.state == RequestLine.Done {
      LineCompleteOk(cfg, c, m, env);
    } else if m.parser.state == RequestLine.Bracketed {
      NoJump(cfg, m.(life := Unmodelled), env);
    } else if m.parser.Terminal() {
      var code := if m.parser.state == RequestLine.BadMethod then NOT_IMPLEMENTED
                  else if m.parser.state == RequestLine.BadVersion then HTTP_VERSION_NOT_SUPPORTED else BAD_REQUEST;
      BooksSame(m, Fail(m, code).c);
      FailJump(cfg, Fail(m, code).c, env);
    } else {
      NoJump(cfg, m, env);
      assert m.wire.clientIn[..m.log.lineLength] == m.wire.clientIn;
      StillParsing(c, m);
    }
  }

  lemma LineReadRest(c: Conn, bytes: seq<byte>)
    requires c.parser.InBounds() && |bytes| <= CAPACITY
    ensures var m := LineRead(c, bytes);
            && m.parser.InBounds() && m.clientBuffer.Ok()
            && m == c.(started := true, parser := m.parser, clientBuffer := m.clientBuffer, wire := c.wire.(clientIn := m.wire.clientIn),
                       log := c.log.(lineLength := m.log.lineLength))
  {
    hide RequestLine.Parser.InBounds, RequestLine.Consume;
  }
}
