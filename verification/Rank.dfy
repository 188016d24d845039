/** Resolution terminates: every new connection attempt lowers a lexicographic measure. */
module Rank {
  import opened Bytes
  import opened Buffers
  import Dns
  import Framing
  import opened Failover
  import opened Machine
  import opened Invariant
  import opened SetupProof
  import opened ResolveProof
  import opened StepProof
  import opened Runs
  import RelayProof
  import Resolution
  import Connection

  /** Queries whose answers are still to come, then answers still to be looked at. */
  datatype Measure = Measure(queriesLeft: nat, answersLeft: nat)

  predicate Below(a: Measure, b: Measure) {
    a.queriesLeft < b.queriesLeft || (a.queriesLeft == b.queriesLeft && a.answersLeft < b.answersLeft)
  }

  function Remaining(d: Doh): nat {
    if d.frame.dns.answers.Some? && d.currentTry <= |d.frame.dns.answers.value| then |d.frame.dns.answers.value| - d.currentTry else 0
  }

  function RankOf(c: Conn): Measure {
    if c.doh.None? || c.log.responses == [] then Measure(2, 0)
    else if c.doh.value.family == Ipv4Try then Measure(1, 1 + Remaining(c.doh.value))
    else if |c.log.responses| == 1 then Measure(1, 0)
    else Measure(0, Remaining(c.doh.value))
  }

  lemma TryFamilyRank(c: Conn, d: Doh, sockets: seq<Socket>)
    requires Loaded(c) && c.doh == Some(d) && Small(c.log) && d.frame.dns.flags.rcode == 0
    ensures var st := TryFamily(c, d, sockets);
            st.c.life == Running && st.next == TryConnectionIp && c.life == Running ==> Below(RankOf(st.c), RankOf(c))
  {
    hide Sourced, Tried, AllOf, Dns.AllOk, Framing.Frame.Valid, NextAddress, LogTried, Wanted;
    if d.frame.dns.answers.Some? {
      var answers := d.frame.dns.answers.value;
      var w := NextAddress(answers, d.currentTry, WantedKind(d.family), sockets, 256);
      AnswersCounted(d);
      LogTriedRest(c, answers, w.tried, d.family);
      WalkInOrder(answers, d.currentTry, WantedKind(d.family), sockets, 256);
    }
  }

  lemma NextDnsRank(c: Conn, d: Doh, sockets: seq<Socket>)
    requires Loaded(c) && c.doh == Some(d) && Small(c.log) && c.originRegistered && c.life == Running && Ledger(c)
    ensures var st := TryNextDns(c, d, sockets);
            st.c.life == Running && st.next == TryConnectionIp ==> Below(RankOf(st.c), RankOf(c))
  {
    hide Loaded, TryFamily, Ledger, Small;
    var u := UnregisterOrigin(c);
    LoadedSame(c, u);
    if d.frame.dns.flags.rcode == 0 {
      TryFamilyRank(u, d, sockets);
    }
    assert c.log.responses != [] by { LoadedHas(c); }
  }

  lemma LoadedHas(c: Conn)
    requires Loaded(c)
    ensures |c.log.responses| == 1 ==> c.doh.value.family == Ipv4Try
    ensures |c.log.responses| == 1 || (|c.log.responses| == 2 && c.doh.value.family == Ipv6Try)
  {
    hide Sourced, Tried, AllOf, Dns.AllOk, Framing.Frame.Valid;
  }

  /** Entering or re-entering TRY_CONNECTION_IP changes nothing the measure looks at. */
  lemma JumpTryKeeps(cfg: Config, st: Step, env: Env)
    requires st.next == TryConnectionIp && st.c.life == Running
    ensures var n := Jump(cfg, st, env); n.doh == st.c.doh && n.log == st.c.log && n.phase == TryConnectionIp
  {
  }

  lemma JumpError(cfg: Config, st: Step, env: Env)
    requires st.next == Error && st.c.life == Running && st.c.phase != Error
    ensures Jump(cfg, st, env).phase == Error
  {
    hide StatusText;
  }

  lemma RefusedStepRank(c: Conn, d: Doh, sockets: seq<Socket>)
    requires Names(c) && c.phase == TryConnectionIp && Small(c.log) && c.life == Running && c.originRegistered && c.doh == Some(d)
    ensures var st := TryNextDns(c, d, sockets);
            && (st.c.life == Running ==> st.c.phase == c.phase && (st.next == Error || st.next == TryConnectionIp))
            && (st.c.life == Running && st.next == TryConnectionIp ==> Below(RankOf(st.c), RankOf(c)))
  {
    hide Names, Books, TryNextDns, Outcome, Small, Below, WalkingA, WalkingAaaa, Switched, Unresolved, AttemptsOk, Ledger, ResponsesOk, AllSourced, Spinning, RankOf;
    NamesTryCases(c);
    TryNextOutcome(c, d, sockets);
    RefusedNext(c, TryNextDns(c, d, sockets));
    if d.active {
      BooksAre(c);
      AttemptsResponses(c.log, c.parser.port);
      WalkingIsLoaded(c);
      NextDnsRank(c, d, sockets);
    } else {
      SwitchedFails(c, d, sockets);
    }
  }

  lemma RefusedRank(cfg: Config, c: Conn, env: Env)
    requires Names(c) && c.phase == TryConnectionIp && Small(c.log) && c.life == Running && c.originRegistered
    requires c.doh.Some? ==> c.request.isDomain
    ensures var n := Jump(cfg, TryWrite(c, false, env), env);
            n.life == Running && Resolving(n.phase) ==> n.phase == TryConnectionIp && Below(RankOf(n), RankOf(c))
  {
    hide Names, Jump, TryNextDns, Small, Below, RankOf;
    if c.doh.Some? {
      var st := TryNextDns(c, c.doh.value, env.sockets);
      RefusedStepRank(c, c.doh.value, env.sockets);
      if st.c.life != Running {
        NotRunning(cfg, st, env);
      } else if st.next == TryConnectionIp {
        JumpTryKeeps(cfg, st, env);
        RankSame(st.c, Jump(cfg, st, env));
      } else {
        JumpError(cfg, st, env);
      }
    } else {
      JumpError(cfg, Fail(c, INTERNAL_SERVER_ERROR), env);
    }
  }

  // ---- the other transitions ------------------------------------------------------------------------

  lemma RankSame(c: Conn, n: Conn)
    requires n.log.responses == c.log.responses && n.doh == c.doh
    ensures RankOf(n) == RankOf(c)
  {
  }

  lemma ConnectedRank(cfg: Config, c: Conn, env: Env)
    requires Inv(c) && c.phase == TryConnectionIp && Fits(cfg)
    ensures var n := Jump(cfg, TryWrite(c, true, env), env);
            Resolving(n.phase) ==> n.phase != TryConnectionIp && RankOf(n) == RankOf(c)
  {
    hide Shape, Streams, Names, ClientSide, Jump, AwaitShape, OK_LINE, RankOf;
    SidesHold(c);
    ClientRuns(c);
    var n := Jump(cfg, TryWrite(c, true, env), env);
    if c.request.isDomain && (c.doh.None? || !c.doh.value.active) {
      SendDohArrives(cfg, c, env);
      RankSame(c, n);
    } else if c.request.connect {
      JumpConnected(cfg, c.(originBuffer := EMPTY.Push(OK_LINE)), env);
    } else {
      SendLineArrives(cfg, c, env);
      RankSame(c, n);
    }
  }

  lemma JumpConnected(cfg: Config, c: Conn, env: Env)
    requires c.life == Running && c.phase != Connected
    ensures Jump(cfg, Step(c, Connected), env).phase == Connected
  {
  }

  /** Starting to wait for an answer: nothing of it has been looked at. */
  lemma SendRank(cfg: Config, c: Conn, e: Event)
    requires Inv(c) && (c.phase == SendDohRequest || c.phase == SendRequestLine) && Enabled(c, e) && c.Sound()
    ensures var n := Next(cfg, c, e);
            n.life == Running && Resolving(n.phase) ==> n.phase != TryConnectionIp && RankOf(n) == RankOf(c)
  {
    hide Shape, Streams, Names, Conn.Sound, ClientSide, Books, Jump, AwaitShape, Buf.Advance, InitDoh, End, RankOf, Unresolved, Switched;
    OnlyOriginWrites(c, e);
    if e.sent <= 0 {
      EndLife(c);
    } else {
      var m := SentOut(c, e.sent);
      SentOutSides(c, e.sent);
      ClientRuns(m);
      if m.originBuffer.CanRead() {
        NoJump(cfg, m, e.env);
        RankSame(c, m);
      } else if c.phase == SendDohRequest {
        AwaitArrives(cfg, m, e.env);
        NamesSendDohCases(c);
        SendDohDoh(c);
        AskedRank(m, Next(cfg, c, e), e.env);
        RankSame(c, m);
      } else {
        JumpConnected(cfg, m, e.env);
      }
    }
  }

  lemma SendDohDoh(c: Conn)
    requires Unresolved(c) || Switched(c)
    ensures (c.doh.None? && c.log.responses == [])
            || (c.doh.Some? && c.doh.value.family == Ipv6Try && |c.log.responses| == 1)
  {
    hide AllOf, Small;
  }

  lemma AskedRank(c: Conn, n: Conn, env: Env)
    requires n.doh == InitDoh(c, env).doh && n.log == c.log
    requires (c.doh.None? && c.log.responses == [])
             || (c.doh.Some? && c.doh.value.family == Ipv6Try && |c.log.responses| == 1)
    ensures RankOf(n) == RankOf(c)
  {
  }

  lemma NotRunning(cfg: Config, st: Step, env: Env)
    requires st.c.life != Running
    ensures Jump(cfg, st, env).life != Running
  {
  }

  lemma SwitchedFails(c: Conn, d: Doh, sockets: seq<Socket>)
    requires Switched(c) && c.doh == Some(d)
    ensures TryNextDns(c, d, sockets).next == Error
  {
    hide AllOf, Small;
  }

  lemma RefusedNext(c: Conn, st: Step)
    requires Outcome(c, st) && c.life == Running
    ensures st.c.life == Running ==> (st.next == TryConnectionIp || st.next == Error) && st.c.phase == c.phase
    ensures st.c.life != Running ==> st.c.life == Hung || st.c.life == Crashed
  {
    hide Refused, Looking, OriginFresh;
  }

  // ---- waiting for the answer -------------------------------------------------------------------------

  lemma AwaitEofRank(cfg: Config, c: Conn, env: Env)
    requires Inv(c) && c.phase == AwaitDohResponse && c.doh.Some?
    ensures var m := c.(originStatus := ClosingStatus, wire := c.wire.(originEof := true));
            var n := Jump(cfg, AwaitRead(m, env), env);
            n.life == Running && Resolving(n.phase) && Small(n.log) ==> n.phase == TryConnectionIp && Below(RankOf(n), RankOf(c))
  {
    hide Shape, Streams, Names, ClientSide, Books, Jump, TryNextDns, Loaded, AwaitingA, AwaitingAaaa, Small, Framing.Frame.Valid, Framing.Judge,
      AttemptsOk, Ledger, RankOf, Outcome, ReadFrom, Below, Spinning, Missing;
    SidesHold(c);
    ClientRuns(c);
    NamesAwaitCases(c);
    BooksAre(c);
    var d := c.doh.value;
    var m := c.(originStatus := ClosingStatus, wire := c.wire.(originEof := true));
    var c1 := m.(wire := m.wire.(originShut := m.wire.originShut + 1), log := m.log.(responses := m.log.responses + [ResponseOf(m, d)]));
    LoadedNow(c, d, c1);
    LedgerSame(c, c1);
    var st := TryNextDns(c1, d, env.sockets);
    assert AwaitRead(m, env) == st;
    NextDnsOutcome(c1, d, env.sockets);
    RefusedNext(c1, st);
    NextDnsResponses(c1, d, env.sockets);
    if st.c.life != Running {
      NotRunning(cfg, st, env);
    } else if st.next == TryConnectionIp {
      JumpTryKeeps(cfg, st, env);
      AnsweredRank(c, Jump(cfg, st, env), ResponseOf(m, d));
    } else {
      JumpError(cfg, st, env);
    }
  }

  /** A logged response uses up one query. */
  lemma AnsweredRank(c: Conn, n: Conn, r: Response)
    requires (AwaitingA(c) || AwaitingAaaa(c)) && n.doh.Some? && n.log.responses == c.log.responses + [r]
    requires c.doh.value.family == Ipv6Try ==> n.doh.value.family == Ipv6Try
    ensures Below(RankOf(n), RankOf(c))
  {
    hide AllOf, Small;
  }

  /** The responses stay and a family is never given up for the one before. */
  predicate Onward(c: Conn, d: Doh, n: Conn) {
    && n.log.responses == c.log.responses && n.doh.Some?
    && (d.family == Ipv6Try ==> n.doh.value.family == Ipv6Try)
  }

  lemma OutResponses(c: Conn, d: Doh, sockets: seq<Socket>)
    ensures Onward(c, d, OutOfAnswers(c, d, sockets).c)
  {
  }

  lemma FamilyResponses(c: Conn, d: Doh, sockets: seq<Socket>)
    requires c.doh == Some(d)
    ensures Onward(c, d, TryFamily(c, d, sockets).c)
  {
    hide NextAddress, LogTried, OutOfAnswers;
    if d.frame.dns.answers.None? {
      OutResponses(c, d, sockets);
    } else {
      var answers := d.frame.dns.answers.value;
      var w := NextAddress(answers, d.currentTry, WantedKind(d.family), sockets, 256);
      LogTriedRest(c, answers, w.tried, d.family);
      if w.Exhausted? {
        OutResponses(LogTried(c, answers, w.tried, d.family), d.(currentTry := w.next),
                     if |w.tried| <= |sockets| then sockets[|w.tried|..] else []);
      }
    }
  }

  lemma NextDnsResponses(c: Conn, d: Doh, sockets: seq<Socket>)
    requires c.doh == Some(d)
    ensures Onward(c, d, TryNextDns(c, d, sockets).c)
  {
    hide TryFamily;
    FamilyResponses(UnregisterOrigin(c), d, sockets);
  }

  lemma AwaitDataRank(cfg: Config, c: Conn, bytes: seq<byte>, env: Env)
    requires Inv(c) && c.phase == AwaitDohResponse && c.doh.Some? && bytes != []
    requires Framing.Judge(c.doh.value.frame) == Framing.Continue
    ensures var m := c.(originBuffer := c.originBuffer.Push(bytes), wire := c.wire.(originIn := c.wire.originIn + bytes));
            var n := Jump(cfg, AwaitRead(m, env), env);
            && (n.phase == TryConnectionIp ==> Below(RankOf(n), RankOf(c)))
            && (Resolving(n.phase) && n.phase != TryConnectionIp ==> RankOf(n) == RankOf(c))
  {
    hide Shape, Streams, Names, ClientSide, Books, Jump, AwaitingA, AwaitingAaaa, Framing.Frame.Valid, Framing.Judge, AwaitRead, Parsed,
      Buf.Push, Resolved, RankOf, AwaitShape;
    SidesHold(c);
    ClientRuns(c);
    NamesAwaitCases(c);
    assert c.error == 0 && c.doh.value.frame.Valid() by { AwaitFacts(c); }
    AwaitReadParsed(c, bytes, env);
    var p := Parsed(c, c.doh.value, bytes, env);
    ParsedRest(c, bytes, env);
    ParsedWaiting(c, bytes, env);
    VerdictRank(cfg, p, env);
    WaitingRank(c, p);
  }

  lemma AwaitFacts(c: Conn)
    requires OriginSide(c) && c.phase == AwaitDohResponse && c.doh.Some?
    ensures c.error == 0 && c.doh.value.frame.Valid()
  {
    hide Framing.Frame.Valid, Framing.Judge;
  }

  lemma WaitingRank(c: Conn, p: Conn)
    requires (AwaitingA(c) || AwaitingAaaa(c)) && p.doh.Some? && p.doh.value.family == c.doh.value.family
    requires p.log.responses == c.log.responses
    ensures RankOf(p) == RankOf(c)
  {
    hide AllOf, Small;
  }

  lemma VerdictRank(cfg: Config, p: Conn, env: Env)
    requires p.phase == AwaitDohResponse && p.doh.Some? && (AwaitingA(p) || AwaitingAaaa(p)) && p.life == Running
    requires p.originStatus == ActiveStatus
    ensures var n := Jump(cfg, Resolved(p, p.doh.value, Framing.Judge(p.doh.value.frame), env), env);
            && (n.phase == TryConnectionIp ==> Below(RankOf(n), RankOf(p)))
            && (Resolving(n.phase) && n.phase != TryConnectionIp ==> RankOf(n) == RankOf(p))
  {
    hide AwaitingA, AwaitingAaaa, Framing.Judge, Jump, RankOf, Below;
    var d := p.doh.value;
    var st := Resolved(p, d, Framing.Judge(d.frame), env);
    if st.next == Error {
      JumpError(cfg, st, env);
    } else if st.next == TryConnectionIp {
      JumpTryKeeps(cfg, st, env);
      AnsweredRank(p, Jump(cfg, st, env), ResponseOf(p, d));
    } else {
      NoJump(cfg, st.c, env);
      RankSame(p, st.c);
    }
  }

  // ---- all together -----------------------------------------------------------------------------------

  /** As long as no response has more than 255 answers, each step into TRY_CONNECTION_IP but the first lowers the
      measure and no other step of the resolution changes it. */
  lemma AttemptsLowerRank(cfg: Config, c: Conn, e: Event)
    requires Inv(c) && Resolving(c.phase) && Enabled(c, e) && Fits(cfg)
    ensures c.Sound()
    ensures var n := Next(cfg, c, e);
            n.life == Running && Resolving(n.phase) && Small(c.log) && Small(n.log) ==>
              if n.phase == TryConnectionIp then Below(RankOf(n), RankOf(c)) else RankOf(n) == RankOf(c)
  {
    hide Inv, Conn.Sound, RankOf, Below, Small, Jump, TryWrite, AwaitRead;
    InvSound(c);
    OnlyOriginWrites(c, e);
    TryFacts(c);
    if c.phase == TryConnectionIp {
      if Small(c.log) && !e.connected {
        RefusedRank(cfg, c, e.env);
      } else if e.connected {
        ConnectedRank(cfg, c, e.env);
      }
    } else if c.phase == AwaitDohResponse {
      AwaitRank(cfg, c, e);
    } else {
      SendRank(cfg, c, e);
    }
  }

  lemma TryFacts(c: Conn)
    requires Inv(c) && Resolving(c.phase)
    ensures Names(c) && c.originRegistered && (c.doh.Some? ==> c.request.isDomain)
    ensures c.phase == AwaitDohResponse && c.doh.None? ==> c.error == INTERNAL_SERVER_ERROR
  {
    hide Streams, Names, Conn.Sound, Framing.Frame.Valid, Framing.Judge;
  }

  lemma AwaitRank(cfg: Config, c: Conn, e: Event)
    requires Inv(c) && c.phase == AwaitDohResponse && Enabled(c, e) && e.OriginReadable? && c.Sound() && c.started
    ensures var n := Next(cfg, c, e);
            n.life == Running && Resolving(n.phase) && Small(n.log) ==>
              if n.phase == TryConnectionIp then Below(RankOf(n), RankOf(c)) else RankOf(n) == RankOf(c)
  {
    hide Inv, Conn.Sound, RankOf, Below, Small, Jump, AwaitRead, End, Framing.Judge;
    TryFacts(c);
    if e.got.ReadFailed? {
      EndLife(c);
    } else {
      var m := if e.got.Eof? then c.(originStatus := ClosingStatus, wire := c.wire.(originEof := true))
               else c.(originBuffer := c.originBuffer.Push(e.got.bytes), wire := c.wire.(originIn := c.wire.originIn + e.got.bytes));
      if c.doh.None? {
        NoDoh(m, e.env);
        InvSound(c);
        JumpError(cfg, Step(m, Error), e.env);
      } else if e.got.Eof? {
        AwaitEofRank(cfg, c, e.env);
      } else if Framing.Judge(c.doh.value.frame) == Framing.Continue {
        AwaitDataRank(cfg, c, e.got.bytes, e.env);
      } else {
        assert Framing.Judge(c.doh.value.frame) == Framing.Complete && c.error == 0 && c.doh.value.frame.Valid() by { AwaitJudged(c); }
        NotConsumed(m, e.env);
        NotRunning(cfg, AwaitRead(m, e.env), e.env);
      }
    }
  }

  lemma AwaitJudged(c: Conn)
    requires Inv(c) && c.phase == AwaitDohResponse && c.doh.Some?
    ensures c.error == 0 && c.doh.value.frame.Valid()
    ensures Framing.Judge(c.doh.value.frame) == Framing.Continue || Framing.Judge(c.doh.value.frame) == Framing.Complete
  {
    hide Streams, Names, Conn.Sound, Framing.Frame.Valid, Framing.Judge;
  }

  // ---- how many attempts a run can make ------------------------------------------------------------------

  /** Sockets opened to the resolver or, for an address, to the origin itself. */
  function Direct(c: Conn): nat {
    if c.phase == ParsingRequestLine then 0 else if c.doh.None? || c.doh.value.family == Ipv4Try then 1 else 2
  }

  predicate Grows(c: Conn, n: Conn) { |n.log.attempts| >= |c.log.attempts| && Direct(n) >= Direct(c) }

  predicate Gains(c: Conn, n: Conn) { Grows(c, n) && |n.log.attempts| + Direct(n) > |c.log.attempts| + Direct(c) }

  lemma LogTriedLength(c: Conn, r: Response, k: nat, w: Walk)
    requires Dns.AllOk(r.answers) && k <= |r.answers| && InOrder(r.answers, k, WantedKind(r.family), w)
    ensures |LogTried(c, r.answers, w.tried, r.family).log.attempts| == |c.log.attempts| + |w.tried|
  {
    hide AttemptsAt;
  }

  /** What a handler of the resolution may leave: an attempt more, or at least none fewer. */
  predicate Tallied(c: Conn, st: Step) {
    st.c.life == Running ==> st.c.phase == c.phase && Grows(c, st.c) && (st.next == TryConnectionIp ==> Gains(c, st.c))
  }

  lemma SwitchTally(c: Conn, d: Doh, sockets: seq<Socket>)
    requires c.doh.Some? && c.doh.value.family == Ipv4Try && c.phase != ParsingRequestLine
    ensures Tallied(c, SwitchToIpv6(c, d, sockets))
  {
  }

  lemma OutTally(c: Conn, d: Doh, sockets: seq<Socket>)
    requires c.doh.Some? && c.doh.value.family == d.family && c.phase != ParsingRequestLine
    ensures Tallied(c, OutOfAnswers(c, d, sockets))
  {
    hide SwitchToIpv6;
    if d.family == Ipv4Try {
      SwitchTally(c, d, sockets);
    }
  }

  lemma TallyFrom(c: Conn, m: Conn, st: Step)
    requires m.phase == c.phase && Grows(c, m) && Tallied(m, st)
    ensures Tallied(c, st)
  {
  }

  lemma FamilyTally(c: Conn, d: Doh, sockets: seq<Socket>)
    requires Loaded(c) && c.doh == Some(d) && Small(c.log) && d.frame.dns.flags.rcode == 0 && c.phase != ParsingRequestLine
    ensures Tallied(c, TryFamily(c, d, sockets))
  {
    hide Sourced, Tried, AllOf, Dns.AllOk, Framing.Frame.Valid, NextAddress, LogTried, Wanted, OutOfAnswers;
    if d.frame.dns.answers.None? {
      OutTally(c, d, sockets);
    } else {
      var answers := d.frame.dns.answers.value;
      var w := NextAddress(answers, d.currentTry, WantedKind(d.family), sockets, 256);
      var c1 := LogTried(c, answers, w.tried, d.family);
      AnswersCounted(d);
      LogTriedRest(c, answers, w.tried, d.family);
      WalkInOrder(answers, d.currentTry, WantedKind(d.family), sockets, 256);
      LogTriedLength(c, Last(c.log), d.currentTry, w);
      if w.Exhausted? {
        var rest := if |w.tried| <= |sockets| then sockets[|w.tried|..] else [];
        OutTally(c1, d.(currentTry := w.next), rest);
        TallyFrom(c, c1, OutOfAnswers(c1, d.(currentTry := w.next), rest));
      }
    }
  }

  lemma NextDnsTally(c: Conn, d: Doh, sockets: seq<Socket>)
    requires Loaded(c) && Ledger(c) && c.doh == Some(d) && Small(c.log) && c.phase != ParsingRequestLine
    ensures Tallied(c, TryNextDns(c, d, sockets))
  {
    hide Loaded, TryFamily, SwitchToIpv6, Small, Ledger;
    var u := UnregisterOrigin(c);
    LoadedSame(c, u);
    if d.frame.dns.flags.rcode == 0 {
      FamilyTally(u, d, sockets);
      TallyFrom(c, u, TryFamily(u, d, sockets));
    } else if d.family == Ipv4Try {
      SwitchTally(u, d, sockets);
      TallyFrom(c, u, SwitchToIpv6(u, d, sockets));
    }
  }

  /** A jump adds no attempt and keeps the resolution where it is. */
  lemma JumpTally(cfg: Config, c: Conn, st: Step, env: Env)
    requires Tallied(c, st) && (st.next == TryConnectionIp || st.next == Error || st.next == c.phase) && Resolving(c.phase)
    requires c.phase == TryConnectionIp ==> st.next != c.phase || st.c.life != Running || Gains(c, st.c)
    ensures var n := Jump(cfg, st, env);
            n.life == Running ==> Grows(c, n) && (n.phase == TryConnectionIp ==> Gains(c, n))
  {
    hide StatusText;
  }

  lemma RefusedTally(cfg: Config, c: Conn, env: Env)
    requires Names(c) && c.phase == TryConnectionIp && Small(c.log) && c.life == Running && c.originRegistered
    requires c.doh.Some? ==> c.request.isDomain
    ensures var n := Jump(cfg, TryWrite(c, false, env), env);
            n.life == Running ==> Grows(c, n) && (n.phase == TryConnectionIp ==> Gains(c, n))
  {
    hide Names, Jump, TryNextDns, Small, Tallied, Gains, Grows;
    if c.doh.Some? {
      var st := TryNextDns(c, c.doh.value, env.sockets);
      RefusedStepTally(c, c.doh.value, env.sockets);
      JumpTally(cfg, c, st, env);
    } else {
      FailTally(c, INTERNAL_SERVER_ERROR);
      JumpTally(cfg, c, Fail(c, INTERNAL_SERVER_ERROR), env);
    }
  }

  lemma FailTally(c: Conn, code: u16)
    ensures Tallied(c, Fail(c, code))
  {
  }

  lemma RefusedStepTally(c: Conn, d: Doh, sockets: seq<Socket>)
    requires Names(c) && c.phase == TryConnectionIp && Small(c.log) && c.life == Running && c.originRegistered && c.doh == Some(d)
    ensures var st := TryNextDns(c, d, sockets);
            && Tallied(c, st) && (st.next == TryConnectionIp || st.next == Error || st.next == c.phase)
            && (st.next != c.phase || st.c.life != Running || Gains(c, st.c))
  {
    hide Names, Books, TryNextDns, Outcome, Small, WalkingA, WalkingAaaa, Unresolved, AttemptsOk, Ledger, ResponsesOk, AllSourced, NeverEnds;
    NamesTryCases(c);
    Connection.TryNextNext(c, d, sockets);
    if d.active {
      BooksAre(c);
      AttemptsResponses(c.log, c.parser.port);
      WalkingIsLoaded(c);
      NextDnsTally(c, d, sockets);
    } else {
      SwitchedFails(c, d, sockets);
      SwitchedTally(c, d, sockets);
    }
  }

  lemma SwitchedTally(c: Conn, d: Doh, sockets: seq<Socket>)
    requires Switched(c) && c.doh == Some(d) && c.phase == TryConnectionIp
    ensures Tallied(c, TryNextDns(c, d, sockets))
  {
    hide AllOf, Small, Sourced;
  }

  lemma ConnectedTally(cfg: Config, c: Conn, env: Env)
    requires Inv(c) && c.phase == TryConnectionIp && Fits(cfg)
    ensures var n := Jump(cfg, TryWrite(c, true, env), env); Grows(c, n) && n.phase != TryConnectionIp
  {
    hide Shape, Streams, Names, ClientSide, Jump, AwaitShape, OK_LINE;
    SidesHold(c);
    ClientRuns(c);
    var st := TryWrite(c, true, env);
    Resolution.JumpPhase(cfg, st, env);
    if c.request.isDomain && (c.doh.None? || !c.doh.value.active) {
      SendDohArrives(cfg, c, env);
    } else if c.request.connect {
      ConnectedKeeps(cfg, c.(originBuffer := EMPTY.Push(OK_LINE)), env);
    } else {
      SendLineArrives(cfg, c, env);
    }
  }

  lemma ConnectedKeeps(cfg: Config, c: Conn, env: Env)
    requires c.life == Running
    ensures var n := Jump(cfg, Step(c, Connected), env); n.log == c.log && n.doh == c.doh
  {
  }

  lemma SendTally(cfg: Config, c: Conn, e: Event)
    requires Inv(c) && (c.phase == SendDohRequest || c.phase == SendRequestLine) && Enabled(c, e) && c.Sound()
    ensures var n := Next(cfg, c, e); n.life == Running ==> Grows(c, n) && n.phase != TryConnectionIp
  {
    hide Shape, Streams, Names, Conn.Sound, ClientSide, Jump, AwaitShape, Buf.Advance, End;
    OnlyOriginWrites(c, e);
    if e.sent <= 0 {
      EndLife(c);
    } else {
      var m := SentOut(c, e.sent);
      SentOutSides(c, e.sent);
      ClientRuns(m);
      if m.originBuffer.CanRead() {
        NoJump(cfg, m, e.env);
      } else if c.phase == SendDohRequest {
        AwaitArrives(cfg, m, e.env);
      } else {
        JumpConnected(cfg, m, e.env);
        ConnectedKeeps(cfg, m, e.env);
      }
    }
  }

  lemma AwaitEofTally(cfg: Config, c: Conn, env: Env)
    requires Inv(c) && c.phase == AwaitDohResponse && c.doh.Some?
    ensures var m := c.(originStatus := ClosingStatus, wire := c.wire.(originEof := true));
            var n := Jump(cfg, AwaitRead(m, env), env);
            n.life == Running && Small(n.log) ==> Grows(c, n) && (n.phase == TryConnectionIp ==> Gains(c, n))
  {
    hide Shape, Streams, Names, ClientSide, Books, Jump, TryNextDns, Loaded, AwaitingA, AwaitingAaaa, Small, Framing.Frame.Valid, Framing.Judge,
      AttemptsOk, Ledger, ReadFrom, Tallied;
    SidesHold(c);
    ClientRuns(c);
    NamesAwaitCases(c);
    BooksAre(c);
    var d := c.doh.value;
    var m := c.(originStatus := ClosingStatus, wire := c.wire.(originEof := true));
    var c1 := m.(wire := m.wire.(originShut := m.wire.originShut + 1), log := m.log.(responses := m.log.responses + [ResponseOf(m, d)]));
    LoadedNow(c, d, c1);
    LedgerSame(c, c1);
    var st := TryNextDns(c1, d, env.sockets);
    assert AwaitRead(m, env) == st;
    Connection.TryNextNext(c1, d, env.sockets);
    Resolution.EofLeaves(cfg, m, env);
    var n := Jump(cfg, st, env);
    if Small(n.log) {
      SmallSame(n.log, c1.log);
      NextDnsTally(c1, d, env.sockets);
      JumpTally(cfg, c1, st, env);
    }
  }

  lemma SmallSame(l: Log, m: Log)
    requires Small(l) && m.responses == l.responses
    ensures Small(m)
  {
  }

  lemma VerdictTally(cfg: Config, p: Conn, env: Env)
    requires p.phase == AwaitDohResponse && p.doh.Some? && p.life == Running && p.originStatus == ActiveStatus
    ensures var n := Jump(cfg, Resolved(p, p.doh.value, Framing.Judge(p.doh.value.frame), env), env);
            n.life == Running ==> Grows(p, n) && (n.phase == TryConnectionIp ==> Gains(p, n))
  {
    hide Framing.Judge, Jump, SwitchToIpv6;
    var d, v := p.doh.value, Framing.Judge(p.doh.value.frame);
    var st := Resolved(p, d, v, env);
    Connection.ResolvedNext(p, d, v, env);
    if v == Framing.NoRecords && d.family == Ipv4Try {
      var c1 := p.(log := p.log.(responses := p.log.responses + [ResponseOf(p, d)]));
      var u := UnregisterOrigin(c1.(originBuffer := EMPTY));
      SwitchTally(u, d, env.sockets);
      TallyFrom(p, u, st);
    }
    JumpTally(cfg, p, st, env);
  }

  lemma AwaitDataTally(cfg: Config, c: Conn, bytes: seq<byte>, env: Env)
    requires Inv(c) && c.phase == AwaitDohResponse && c.doh.Some? && bytes != []
    requires Framing.Judge(c.doh.value.frame) == Framing.Continue
    ensures var m := c.(originBuffer := c.originBuffer.Push(bytes), wire := c.wire.(originIn := c.wire.originIn + bytes));
            var n := Jump(cfg, AwaitRead(m, env), env);
            n.life == Running ==> Grows(c, n) && (n.phase == TryConnectionIp ==> Gains(c, n))
  {
    hide Shape, Streams, Names, ClientSide, Jump, Framing.Frame.Valid, Framing.Judge, AwaitRead, Parsed, Buf.Push, Resolved, AwaitShape, ReadFrom;
    SidesHold(c);
    ClientRuns(c);
    Resolution.AwaitFacts(c);
    AwaitReadParsed(c, bytes, env);
    ParsedRest(c, bytes, env);
    VerdictTally(cfg, Parsed(c, c.doh.value, bytes, env), env);
  }

  lemma AwaitTally(cfg: Config, c: Conn, e: Event)
    requires Inv(c) && c.phase == AwaitDohResponse && Enabled(c, e) && e.OriginReadable? && c.Sound() && c.started
    ensures var n := Next(cfg, c, e);
            n.life == Running && Small(n.log) ==> Grows(c, n) && (n.phase == TryConnectionIp ==> Gains(c, n))
  {
    hide Inv, Conn.Sound, Grows, Gains, Small, Jump, AwaitRead, End, Framing.Judge;
    Resolution.AwaitCases(c);
    InvSound(c);
    if e.got.ReadFailed? {
      EndLife(c);
    } else {
      var m := if e.got.Eof? then c.(originStatus := ClosingStatus, wire := c.wire.(originEof := true))
               else c.(originBuffer := c.originBuffer.Push(e.got.bytes), wire := c.wire.(originIn := c.wire.originIn + e.got.bytes));
      if c.doh.None? {
        NoDoh(m, e.env);
        ErrorTally(cfg, c, m, e.env);
      } else if e.got.Eof? {
        AwaitEofTally(cfg, c, e.env);
      } else if Framing.Judge(c.doh.value.frame) == Framing.Continue {
        AwaitDataTally(cfg, c, e.got.bytes, e.env);
      } else {
        NotConsumed(m, e.env);
        NotRunning(cfg, AwaitRead(m, e.env), e.env);
      }
    }
  }

  lemma ErrorTally(cfg: Config, c: Conn, m: Conn, env: Env)
    requires m.life == Running && m.phase == c.phase != Error && m.doh == c.doh && m.log == c.log
    ensures var n := Jump(cfg, Step(m, Error), env); Grows(c, n) && n.phase == Error
  {
    hide StatusText;
  }

  /** Every step into TRY_CONNECTION_IP adds an attempt at an address or opens one of at most two direct sockets. */
  lemma StepTally(cfg: Config, c: Conn, e: Event)
    requires Inv(c) && Enabled(c, e) && Fits(cfg) && c.Sound()
    ensures var n := Next(cfg, c, e);
            n.life == Running && Small(c.log) && Small(n.log) ==> Grows(c, n) && (n.phase == TryConnectionIp ==> Gains(c, n))
  {
    hide Inv, Conn.Sound, Small, Next, Grows, Gains;
    InvPhases(c);
    if c.phase == ParsingRequestLine {
      ParsingTally(cfg, c, e);
    } else if c.phase == TryConnectionIp {
      TryTally(cfg, c, e);
    } else if c.phase == SendDohRequest || c.phase == SendRequestLine {
      SendTally(cfg, c, e);
    } else if c.phase == AwaitDohResponse {
      OnlyOriginWrites(c, e);
      AwaitTally(cfg, c, e);
    } else if c.phase == Error {
      OnlyErrorWrites(c, e);
      ErrorStepTally(cfg, c, e);
    } else {
      RelayTally(cfg, c, e);
    }
  }

  lemma ParsingTally(cfg: Config, c: Conn, e: Event)
    requires Inv(c) && c.phase == ParsingRequestLine && Enabled(c, e) && c.Sound()
    ensures Grows(c, Next(cfg, c, e)) && (Next(cfg, c, e).phase == TryConnectionIp ==> Gains(c, Next(cfg, c, e)))
  {
    hide Inv, Next, Conn.Sound;
    ParsingFacts(c);
  }

  lemma TryTally(cfg: Config, c: Conn, e: Event)
    requires Inv(c) && c.phase == TryConnectionIp && Enabled(c, e) && Fits(cfg) && c.Sound()
    ensures var n := Next(cfg, c, e);
            n.life == Running && Small(c.log) ==> Grows(c, n) && (n.phase == TryConnectionIp ==> Gains(c, n))
  {
    hide Inv, Conn.Sound, Grows, Gains, Small, Jump, TryWrite;
    InvSound(c);
    OnlyOriginWrites(c, e);
    TryFacts(c);
    if e.connected {
      ConnectedTally(cfg, c, e.env);
    } else if Small(c.log) {
      RefusedTally(cfg, c, e.env);
    }
  }

  lemma ErrorStepTally(cfg: Config, c: Conn, e: Event)
    requires Inv(c) && c.phase == Error && Enabled(c, e) && c.Sound() && e.ClientWritable?
    ensures var n := Next(cfg, c, e); n.life == Running ==> Grows(c, n) && n.phase == Error
  {
    hide Inv, Conn.Sound, End, Buf.Advance, Grows;
    assert c.started by { InvErrorFacts(c); }
    EndLife(c);
    if e.sent > 0 {
      var m := c.(originBuffer := c.originBuffer.Advance(e.sent), wire := c.wire.(clientOut := c.wire.clientOut + c.originBuffer.pending[..e.sent]));
      EndLife(m.(phase := Done));
      GrowsSame(c, m);
    }
  }

  lemma GrowsSame(c: Conn, n: Conn)
    requires n.phase == c.phase && n.log == c.log && n.doh == c.doh
    ensures Grows(c, n)
  {
  }

  lemma RelayTally(cfg: Config, c: Conn, e: Event)
    requires Inv(c) && Relaying(c.phase) && Enabled(c, e) && c.Sound()
    ensures var n := Next(cfg, c, e); n.life == Running ==> Grows(c, n) && n.phase != TryConnectionIp
  {
    hide Shape, Streams, Names, Conn.Sound, Next, End, Delivered;
    if RelayProof.Through(e) {
      RelayProof.RelayStep(cfg, c, e);
    } else {
      NotThrough(cfg, c, e);
      EndLife(c);
    }
  }

  /** The steps up to `k` that opened a socket to try. */
  function Tries(cs: seq<Conn>, k: nat): nat
    requires k < |cs|
  {
    if k == 0 then 0
    else Tries(cs, k - 1) + if cs[k].life == Running && cs[k].phase == TryConnectionIp then 1 else 0
  }

  lemma {:induction false} TriesTallied(cfg: Config, es: seq<Event>, cs: seq<Conn>, k: nat)
    requires Run(cfg, es, cs) && Fits(cfg) && k < |cs| && cs[k].life == Running && Small(cs[k].log)
    ensures Tries(cs, k) <= |cs[k].log.attempts| + Direct(cs[k])
    decreases k
  {
    hide Inv, Next, Conn.Sound, Fresh, Enabled, Finished, Small, Direct;
    if k > 0 {
      assert Enabled(cs[k - 1], es[k - 1]) && cs[k - 1 + 1] == Fire(cfg, cs[k - 1], es[k - 1]);
      EnabledRuns(cs[k - 1], es[k - 1]);
      RunKeeps(cfg, es, cs, k - 1);
      InvSound(cs[k - 1]);
      Resolution.EventResponses(cfg, cs[k - 1], es[k - 1]);
      assert Small(cs[k - 1].log) by { SmallEarlier(cs[k - 1].log, cs[k].log); }
      TriesTallied(cfg, es, cs, k - 1);
      StepTally(cfg, cs[k - 1], es[k - 1]);
    }
  }

  lemma SmallEarlier(l: Log, m: Log)
    requires Small(m) && l.responses <= m.responses
    ensures Small(l)
  {
    forall j | 0 <= j < |l.responses| ensures |l.responses[j].answers| <= 255 {
      assert m.responses[j] == l.responses[j];
    }
  }

  /** Answers of all the responses so far. */
  function Answers(rs: seq<Response>): nat { if rs == [] then 0 else Answers(rs[..|rs| - 1]) + |rs[|rs| - 1].answers| }

  lemma AnswersEarlier(l: seq<Response>, m: seq<Response>)
    requires m == l || (|m| == |l| + 1 && l <= m)
    ensures Answers(l) <= Answers(m)
  {
    if m != l {
      assert m[..|m| - 1] == l;
    }
  }

  /** On every run whose responses have at most 255 answers each, the number of sockets tried is at most two more
      than the number of answers received. */
  lemma FinitelyManyTries(cfg: Config, es: seq<Event>, cs: seq<Conn>, k: nat)
    requires Run(cfg, es, cs) && Fits(cfg) && k < |cs| && Small(cs[k].log)
    ensures Tries(cs, k) <= 2 + Answers(cs[k].log.responses)
  {
    hide Inv, Next, Conn.Sound, Fresh, Enabled, Finished, Small, Answers;
    if cs[k].life == Running {
      TriesWhileRunning(cfg, es, cs, k);
    } else if k > 0 {
      assert Enabled(cs[k - 1], es[k - 1]) && cs[k - 1 + 1] == Fire(cfg, cs[k - 1], es[k - 1]);
      EnabledRuns(cs[k - 1], es[k - 1]);
      RunKeeps(cfg, es, cs, k - 1);
      InvSound(cs[k - 1]);
      Resolution.EventResponses(cfg, cs[k - 1], es[k - 1]);
      SmallEarlier(cs[k - 1].log, cs[k].log);
      AnswersEarlier(cs[k - 1].log.responses, cs[k].log.responses);
      TriesWhileRunning(cfg, es, cs, k - 1);
    }
  }

  lemma TriesWhileRunning(cfg: Config, es: seq<Event>, cs: seq<Conn>, k: nat)
    requires Run(cfg, es, cs) && Fits(cfg) && k < |cs| && cs[k].life == Running && Small(cs[k].log)
    ensures Tries(cs, k) <= 2 + Answers(cs[k].log.responses)
  {
    hide Run, Inv, Finished, Tries, Answers, AttemptsOk;
    RunKeeps(cfg, es, cs, k);
    TriesTallied(cfg, es, cs, k);
    NamesHold(cs[k]);
    NamesBooks(cs[k]);
    BooksAre(cs[k]);
    AttemptsBounded(cs[k].log, cs[k].parser.port);
  }

  lemma NamesHold(c: Conn)
    requires Inv(c)
    ensures Names(c)
  {
    hide Shape, Streams, Names;
  }

  lemma AttemptsBounded(l: Log, port: u16)
    requires AttemptsOk(l, port) && Small(l)
    ensures |l.attempts| <= Answers(l.responses)
  {
    hide Sourced, AllOf, Dns.AllOk;
    if |l.responses| >= 1 {
      AllOfBounded(l.responses[0], port);
    }
    if |l.responses| == 2 {
      AllOfBounded(l.responses[1], port);
      assert l.responses[..1] == [l.responses[0]];
    }
    assert |l.responses| >= 1 ==> l.responses[..1][..0] == [];
  }

  lemma AllOfBounded(r: Response, port: u16)
    requires Dns.AllOk(r.answers)
    ensures |AllOf(r, port)| <= |r.answers|
  {
    WantedCount(r.answers, 0, |r.answers|, WantedKind(r.family));
  }

  lemma {:induction false} WantedCount(answers: seq<Dns.Answer>, lo: nat, hi: nat, wanted: nat)
    requires lo <= hi <= |answers|
    ensures |Wanted(answers, lo, hi, wanted)| <= hi - lo
    decreases hi - lo
  {
    if lo < hi {
      WantedCount(answers, lo + 1, hi, wanted);
    }
  }
}
