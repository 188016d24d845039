/** Where each event leads, exactly: the setup of a connection, step by step. */
module Transitions {
  import opened Bytes
  import opened Buffers
  import RequestLine
  import RequestPrint
  import Rewrite
  import Dns
  import DohQuery
  import Framing
  import opened Failover
  import opened Machine
  import opened Invariant
  import opened SetupProof
  import opened ResolveProof
  import opened StepProof
  import opened Runs
  import opened Resolution
  import RelayProof
  import Theorems
  import Connection
  import Replies

  /** The socket asked for after `t` others can be had and registered. */
  predicate Opens(sockets: seq<Socket>, t: nat) { t < |sockets| && sockets[t] == Registered }

  /** Entering TRY_CONNECTION_IP or ERROR, or staying, touches neither the resolution nor the request. */
  lemma JumpKeeps(cfg: Config, st: Step, env: Env)
    requires st.next == TryConnectionIp || st.next == Error || st.next == st.c.phase
    ensures var n := Jump(cfg, st, env);
            && n.life == st.c.life && n.error == st.c.error && n.doh == st.c.doh && n.log == st.c.log && n.request == st.c.request
            && n.parser == st.c.parser && n.wire == st.c.wire && n.clientBuffer == st.c.clientBuffer
            && n.phase == if st.c.life != Running then st.c.phase else st.next
  {
    hide StatusText;
  }

  // ---- the request line ---------------------------------------------------------------------------

  /** What the bytes read so far are answered with. */
  function LineVerdict(q: RequestLine.Parser, opens: bool): (r: (Phase, nat)) {
    if q.state == RequestLine.BadMethod then (Error, 501)
    else if q.state == RequestLine.BadVersion then (Error, 505)
    else if q.state == RequestLine.Failed then (Error, 400)
    else if q.state == RequestLine.Done then if opens then (TryConnectionIp, 0) else (Error, 500)
    else (ParsingRequestLine, 0)
  }

  /** The parser after one more read is the one all the bytes make. */
  lemma LineReadIsWhole(c: Conn, bytes: seq<byte>)
    requires c.log.lineLength == |c.wire.clientIn| && c.parser == RequestLine.FeedAll(RequestLine.Init(), c.wire.clientIn) && !c.parser.Terminal()
    ensures LineRead(c, bytes).parser == RequestLine.FeedAll(RequestLine.Init(), c.wire.clientIn + bytes)
  {
    hide RequestLine.FeedAll, RequestLine.Parser.InBounds, LineRead;
    LineReadParser(c, bytes);
    LineReadIn(c, bytes);
    var m := LineRead(c, bytes);
    var s, k := m.wire.clientIn, m.log.lineLength;
    assert s == s[..k] + s[k..];
    RequestPrint.FeedAllConcat(RequestLine.Init(), s[..k], s[k..]);
    if m.parser.Terminal() {
      RequestPrint.TerminalAbsorbs(m.parser, s[k..]);
    } else {
      assert s[..k] == s;
    }
  }

  lemma LineReadIn(c: Conn, bytes: seq<byte>)
    requires c.parser.InBounds()
    ensures var m := LineRead(c, bytes); m.wire.clientIn == c.wire.clientIn + bytes && m.phase == c.phase && m.life == c.life && m.error == c.error
  {
    hide RequestLine.Consume, RequestLine.Parser.InBounds, Buf.Advance;
  }

  lemma LineCompleteIs(m: Conn, env: Env)
    requires m.parser.InBounds() && m.life == Running
    ensures var st := LineComplete(m, env);
            && st.c.life == Running && st.c.phase == m.phase && st.c.wire.clientIn == m.wire.clientIn
            && (if Opens(env.sockets, 0) then st.next == TryConnectionIp && st.c.error == m.error && st.c.request == BuildRequest(m.parser)
                else st.next == Error && st.c.error == 500)
  {
    hide RequestLine.Parser.InBounds, BuildRequest;
  }

  /** Each read of the request line is answered by what all the bytes so far spell: 501 for a bad method, 505
      for a bad version, 400 for anything else the parser rejects, 500 when no socket can be had for an accepted
      line, and TRY_CONNECTION_IP with the request built from it otherwise. */
  lemma ParsingExactly(cfg: Config, c: Conn, bytes: seq<byte>, env: Env)
    requires Inv(c) && c.phase == ParsingRequestLine && Enabled(c, ClientReadable(Data(bytes), env)) && c.Sound()
    ensures var q := RequestLine.FeedAll(RequestLine.Init(), c.wire.clientIn + bytes);
            var n := Next(cfg, c, ClientReadable(Data(bytes), env));
            && (n.phase, n.error) == LineVerdict(q, Opens(env.sockets, 0))
            && (n.life == Unmodelled <==> q.state == RequestLine.Bracketed) && (n.life == Unmodelled || n.life == Running)
            && (n.phase == TryConnectionIp ==>
                  && n.request == BuildRequest(q) && n.parser.port == q.port && n.doh.None?
                  && Theorems.IsRequestLine(n.wire.clientIn, n.log.lineLength) && n.wire.clientIn == c.wire.clientIn + bytes
                  && n.clientBuffer.pending == if n.request.connect then [] else n.wire.clientIn[n.log.lineLength..])
  {
    hide RequestLine.FeedAll, RequestLine.Parser.InBounds, Inv, Jump, ParsingRead, Begin, Conn.Sound, Theorems.IsRequestLine, BuildRequest, RequestLine.Init,
      Buf.Push;
    InvSound(c);
    ParsingFacts(c);
    var push := c.(clientBuffer := c.clientBuffer.Push(bytes), wire := c.wire.(clientIn := c.wire.clientIn + bytes));
    BeginPhase(push);
    ParsingReadLeads(c, bytes, env);
    JumpKeeps(cfg, ParsingRead(Begin(push), env), env);
  }

  lemma ParsingReadLeads(c: Conn, bytes: seq<byte>, env: Env)
    requires Inv(c) && c.phase == ParsingRequestLine && |bytes| <= CAPACITY
    ensures c.parser.InBounds()
    ensures var q := RequestLine.FeedAll(RequestLine.Init(), c.wire.clientIn + bytes);
            var b := Begin(c.(clientBuffer := c.clientBuffer.Push(bytes), wire := c.wire.(clientIn := c.wire.clientIn + bytes)));
            && b.parser.InBounds()
            && (var st := ParsingRead(b, env);
                && st.c.phase == c.phase && (st.next, st.c.error) == LineVerdict(q, Opens(env.sockets, 0))
                && st.c.life == (if q.state == RequestLine.Bracketed then Unmodelled else Running)
                && (st.next == TryConnectionIp ==>
                      && st.c.request == BuildRequest(q) && st.c.parser.port == q.port && st.c.doh.None?
                      && Theorems.IsRequestLine(st.c.wire.clientIn, st.c.log.lineLength) && st.c.wire.clientIn == c.wire.clientIn + bytes
                      && st.c.clientBuffer.pending == if st.c.request.connect then [] else st.c.wire.clientIn[st.c.log.lineLength..]))
  {
    hide RequestLine.FeedAll, RequestLine.Parser.InBounds, RequestLine.Consume, Inv, LineComplete, LineRead, ParsingRead, Begin, Theorems.IsRequestLine,
      BuildRequest, RequestLine.Init;
    ParsingFacts(c);
    ParsingReadIs(c, bytes, env);
    LineReadIsWhole(c, bytes);
    LineReadIn(c, bytes);
    LineReadRest(c, bytes);
    var m := LineRead(c, bytes);
    if m.parser.state == RequestLine.Done {
      LineCompleteIs(m, env);
      LineCompletePort(m, env);
      LineEnds(c, bytes);
    }
  }

  lemma LineCompletePort(m: Conn, env: Env)
    requires m.parser.InBounds()
    ensures var n := LineComplete(m, env).c;
            && n.parser == m.parser && n.doh == m.doh && n.log.lineLength == m.log.lineLength
            && (LineComplete(m, env).next == TryConnectionIp ==> n.clientBuffer == if n.request.connect then EMPTY else m.clientBuffer)
  {
    hide RequestLine.Parser.InBounds, BuildRequest;
  }

  /** The line ends with the byte that completes it, and the rest of the read is what is left. */
  lemma LineEnds(c: Conn, bytes: seq<byte>)
    requires c.log.lineLength == |c.wire.clientIn| && c.parser == RequestLine.FeedAll(RequestLine.Init(), c.wire.clientIn) && !c.parser.Terminal()
    requires LineRead(c, bytes).parser.state == RequestLine.Done
    ensures var m := LineRead(c, bytes);
            Theorems.IsRequestLine(m.wire.clientIn, m.log.lineLength) && m.clientBuffer.pending == m.wire.clientIn[m.log.lineLength..]
  {
    hide RequestLine.FeedAll, LineRead;
    LineReadParser(c, bytes);
  }

  // ---- a finished connect ----------------------------------------------------------------------------

  /** The request line the client sent, parsed. */
  function LineOf(c: Conn): RequestLine.Parser
    requires c.log.lineLength <= |c.wire.clientIn|
  {
    RequestLine.FeedAll(RequestLine.Init(), c.wire.clientIn[..c.log.lineLength])
  }

  /** The socket just connected is the resolver's. */
  predicate ToResolver(c: Conn) { c.request.isDomain && (c.doh.None? || !c.doh.value.active) }

  /** A connected resolver is sent a query, A the first time and AAAA the second; a connected origin is sent the
      rewritten request line, or the relay starts at once with the 200 line for the client. */
  lemma ConnectedExactly(cfg: Config, c: Conn, e: Event)
    requires Inv(c) && c.phase == TryConnectionIp && Enabled(c, e) && Fits(cfg) && c.Sound() && e.OriginWritable? && e.connected
    ensures c.log.lineLength <= |c.wire.clientIn|
    ensures var n := Next(cfg, c, e);
            && n.life == Running && n.error == 0 && n.wire.originOut == [] && n.wire.clientOut == [] && n.request == c.request && n.doh == c.doh
            && (if ToResolver(c) then
                  n.phase == SendDohRequest && n.log.queries == (if c.doh.None? then [Ipv4Try] else BOTH) && n.originBuffer.pending == DohText(cfg, c)
                else if Rewrite.IsConnect(LineOf(c)) then
                  n.phase == Connected && n.originBuffer.pending == Replies.OkReply()
                else
                  n.phase == SendRequestLine && n.originBuffer.pending == Rewrite.RequestText(LineOf(c)))
  {
    hide Shape, Streams, Names, ClientSide, Jump, AwaitShape, Conn.Sound, TryWrite, DohText, Rewrite.IsConnect, Rewrite.RequestText, Replies.OkReply,
      RequestLine.FeedAll;
    SidesHold(c);
    OnlyOriginWrites(c, e);
    ClientRuns(c);
    RequestIs(c);
    NamesTryCases(c);
    TryArrival(cfg, c, e.env);
    if c.doh.Some? && !c.doh.value.active {
      SwitchedQuery(c);
    }
  }

  lemma SwitchedQuery(c: Conn)
    requires Switched(c) && c.log.queries == [Ipv4Try]
    ensures QueryType(c) == Ipv6Try && c.log.queries + [QueryType(c)] == BOTH
  {
    hide AllOf, Small;
  }

  lemma RequestIs(c: Conn)
    requires ClientSide(c)
    ensures c.log.lineLength <= |c.wire.clientIn| && LineOf(c) == c.parser && c.parser.InBounds()
    ensures c.request.connect == Rewrite.IsConnect(LineOf(c)) && c.request.line == Rewrite.RequestText(LineOf(c))
    ensures c.request.isDomain == c.parser.host.Domain? && (c.request.isDomain ==> c.request.domain == CStr(c.parser.host.bytes))
  {
    hide RequestLine.FeedAll, RequestLine.Parser.InBounds, Rewrite.IsConnect, Rewrite.RequestText, Owed, DroppedOk;
  }

  lemma TryArrival(cfg: Config, c: Conn, env: Env)
    requires OriginSide(c) && c.phase == TryConnectionIp && c.life == Running && c.wire.clientOut == []
    ensures var n := Jump(cfg, TryWrite(c, true, env), env);
            && n.life == Running && n.error == 0 && n.wire == c.wire && n.wire.originOut == [] && n.request == c.request && n.doh == c.doh
            && (if ToResolver(c) then
                  n.phase == SendDohRequest && n.log.queries == c.log.queries + [QueryType(c)] && n.originBuffer.pending == DohText(cfg, c)
                else if c.request.connect then n.phase == Connected && n.originBuffer.pending == Replies.OkReply()
                else n.phase == SendRequestLine && n.originBuffer.pending == c.request.line)
  {
    hide DohText, Replies.OkReply, StatusText, AwaitShape;
    Replies.OkLineIs();
    DohTextSame(cfg, c, c.(phase := SendDohRequest));
    assert [] + DohText(cfg, c) == DohText(cfg, c) && [] + c.request.line == c.request.line && [] + OK_LINE == OK_LINE;
  }

  lemma DohTextSame(cfg: Config, c: Conn, n: Conn)
    requires n.request == c.request && n.doh == c.doh
    ensures DohText(cfg, n) == DohText(cfg, c)
  {
    hide DohQuery.Request;
  }

  // ---- the next address ---------------------------------------------------------------------------------

  function Records(d: Doh): seq<Dns.Answer> { if d.frame.dns.answers.Some? then d.frame.dns.answers.value else [] }

  /** The records of the family not looked at yet. */
  function Remaining(d: Doh): seq<nat>
    requires d.currentTry <= |Records(d)|
  {
    Wanted(Records(d), d.currentTry, |Records(d)|, WantedKind(d.family))
  }

  /** Record number `j` of those is the first for which a socket can be had, and it can be registered. */
  predicate Finds(d: Doh, sockets: seq<Socket>, j: nat)
    requires d.currentTry <= |Records(d)|
  {
    d.frame.dns.flags.rcode == 0 && j < |Remaining(d)| && FirstOpen(sockets, j) && sockets[j] == Registered
  }

  /** The response reports an error or none of its A records gets a socket, and the resolver can be asked again. */
  predicate AsksAgain(d: Doh, sockets: seq<Socket>)
    requires d.currentTry <= |Records(d)|
  {
    && d.family == Ipv4Try
    && (if d.frame.dns.flags.rcode == 0 then AllFail(sockets, |Remaining(d)|) && Opens(sockets, |Remaining(d)|) else Opens(sockets, 0))
  }

  /** Whichever of the three it is, the connection is where it should be. */
  ghost predicate Decided(c: Conn, d: Doh, sockets: seq<Socket>, n: Conn, next: Phase)
    requires d.currentTry <= |Records(d)| <= 255 && Dns.AllOk(Records(d))
  {
    && n.life == Running
    && (AsksAgain(d, sockets) ==>
          && next == TryConnectionIp && n.error == c.error && n.doh.Some? && !n.doh.value.active && n.doh.value.family == Ipv6Try
          && n.log.attempts == c.log.attempts
               + AttemptsAt(Records(d), if d.frame.dns.flags.rcode == 0 then Remaining(d) else [], d.family, c.parser.port))
    && (forall j :: 0 <= j < |Remaining(d)| && Finds(d, sockets, j) ==>
          && next == TryConnectionIp && n.error == c.error && n.doh == Some(d.(currentTry := Remaining(d)[j] + 1))
          && n.log.attempts == c.log.attempts + AttemptsAt(Records(d), Remaining(d)[..j + 1], d.family, c.parser.port))
    && (!AsksAgain(d, sockets) && (forall j :: 0 <= j < |Remaining(d)| ==> !Finds(d, sockets, j)) ==> next == Error && n.error == 500)
  }

  lemma LogTriedIs(c: Conn, answers: seq<Dns.Answer>, tried: seq<nat>, f: Family)
    requires Dns.AllOk(answers) && forall j :: 0 <= j < |tried| ==> tried[j] < |answers|
    ensures LogTried(c, answers, tried, f) == c.(log := c.log.(attempts := c.log.attempts + AttemptsAt(answers, tried, f, c.parser.port)))
  {
    hide AttemptsAt;
  }

  lemma SwitchIs(c: Conn, d: Doh, sockets: seq<Socket>)
    ensures var st := SwitchToIpv6(c, d, sockets);
            && st.c.life == c.life && st.c.log.attempts == c.log.attempts && st.c.phase == c.phase
            && (if Opens(sockets, 0) then
                  st.next == TryConnectionIp && st.c.error == c.error && st.c.doh.Some? && !st.c.doh.value.active && st.c.doh.value.family == Ipv6Try
                else st.next == Error && st.c.error == 500)
  {
  }

  lemma OutIs(c: Conn, d: Doh, sockets: seq<Socket>)
    ensures var st := OutOfAnswers(c, d, sockets);
            && st.c.life == c.life && st.c.log.attempts == c.log.attempts && st.c.phase == c.phase
            && (if d.family == Ipv4Try && Opens(sockets, 0) then
                  st.next == TryConnectionIp && st.c.error == c.error && st.c.doh.Some? && !st.c.doh.value.active && st.c.doh.value.family == Ipv6Try
                else st.next == Error && st.c.error == 500)
  {
    hide SwitchToIpv6;
    SwitchIs(c, d, sockets);
  }

  lemma AttemptsAtNone(answers: seq<Dns.Answer>, f: Family, port: u16)
    ensures AttemptsAt(answers, [], f, port) == []
  {
  }

  lemma NothingAhead(d: Doh)
    requires d.frame.dns.answers.None? && d.currentTry == 0
    ensures Remaining(d) == []
  {
  }

  /** The walk is over: the resolver is asked for AAAA records, or there is nothing more to try. */
  lemma ExhaustedDecided(c: Conn, d: Doh, sockets: seq<Socket>)
    requires c.life == Running && d.frame.dns.flags.rcode == 0 && d.currentTry <= |Records(d)| <= 255 && Dns.AllOk(Records(d))
    requires AllFail(sockets, |Remaining(d)|)
    ensures var ws := Remaining(d);
            var c1 := c.(log := c.log.(attempts := c.log.attempts + AttemptsAt(Records(d), ws, d.family, c.parser.port)));
            var rest := if |ws| <= |sockets| then sockets[|ws|..] else [];
            forall k: byte :: var st := OutOfAnswers(c1, d.(currentTry := k), rest); Decided(c, d, sockets, st.c, st.next)
  {
    hide OutOfAnswers, AttemptsAt, Wanted;
    var ws := Remaining(d);
    var c1 := c.(log := c.log.(attempts := c.log.attempts + AttemptsAt(Records(d), ws, d.family, c.parser.port)));
    var rest := if |ws| <= |sockets| then sockets[|ws|..] else [];
    assert Opens(rest, 0) <==> Opens(sockets, |ws|);
    forall k: byte ensures var st := OutOfAnswers(c1, d.(currentTry := k), rest); Decided(c, d, sockets, st.c, st.next) {
      OutIs(c1, d.(currentTry := k), rest);
      NoneFound(d, sockets);
    }
  }

  lemma NoneFound(d: Doh, sockets: seq<Socket>)
    requires d.currentTry <= |Records(d)| && AllFail(sockets, |Remaining(d)|)
    ensures forall j :: 0 <= j < |Remaining(d)| ==> !Finds(d, sockets, j)
  {
    hide Remaining;
    forall j | 0 <= j < |Remaining(d)| ensures !Finds(d, sockets, j) {
      assert j < |sockets| ==> sockets[j] == NoSocket;
    }
  }

  /** Record `j` gets its socket. */
  lemma PickedDecided(c: Conn, d: Doh, sockets: seq<Socket>, j: nat)
    requires c.life == Running && d.frame.dns.flags.rcode == 0 && d.currentTry <= |Records(d)| <= 255 && Dns.AllOk(Records(d))
    requires j < |Remaining(d)| && FirstOpen(sockets, j)
    ensures j < |sockets|
    ensures var ws := Remaining(d);
            var c2 := c.(log := c.log.(attempts := c.log.attempts + AttemptsAt(Records(d), ws[..j + 1], d.family, c.parser.port)),
                         doh := Some(d.(currentTry := ws[j] + 1)));
            && (sockets[j] == NotRegistered ==> Decided(c, d, sockets, c2.(originStatus := ActiveStatus, error := 500), Error))
            && (sockets[j] == Registered ==> Decided(c, d, sockets, NewOrigin(c2), TryConnectionIp))
  {
    hide AttemptsAt, Remaining, Finds, AsksAgain, FirstOpen, AllFail;
    assert !AsksAgain(d, sockets) by { NotAskedAgain(d, sockets, j); }
    OpenBounds(sockets, j);
    forall i | 0 <= i < |Remaining(d)| && Finds(d, sockets, i) ensures i == j && sockets[j] == Registered {
      FoundIsFirst(d, sockets, i, j);
    }
    if sockets[j] == Registered {
      assert Finds(d, sockets, j) by { FoundHere(d, sockets, j); }
    }
  }

  lemma NotAskedAgain(d: Doh, sockets: seq<Socket>, j: nat)
    requires d.frame.dns.flags.rcode == 0 && d.currentTry <= |Records(d)| && j < |Remaining(d)| && FirstOpen(sockets, j)
    ensures !AsksAgain(d, sockets)
  {
    hide Remaining;
    assert sockets[j] != NoSocket;
  }

  lemma FoundIsFirst(d: Doh, sockets: seq<Socket>, i: nat, j: nat)
    requires d.currentTry <= |Records(d)| && Finds(d, sockets, i) && FirstOpen(sockets, j)
    ensures i == j < |sockets| && sockets[j] == Registered
  {
    hide Remaining;
    OnlyFirst(sockets, i, j);
  }

  lemma FoundHere(d: Doh, sockets: seq<Socket>, j: nat)
    requires d.frame.dns.flags.rcode == 0 && d.currentTry <= |Records(d)| && j < |Remaining(d)| && FirstOpen(sockets, j)
    ensures Finds(d, sockets, j) <==> sockets[j] == Registered
  {
    hide Remaining;
  }

  lemma OnlyFirst(sockets: seq<Socket>, i: nat, j: nat)
    requires FirstOpen(sockets, i) && FirstOpen(sockets, j)
    ensures i == j
  {
  }

  lemma FamilyDecided(c: Conn, d: Doh, sockets: seq<Socket>)
    requires c.life == Running && c.doh == Some(d) && d.frame.dns.flags.rcode == 0 && !Missing(d)
    requires d.currentTry <= |Records(d)| <= 255 && Dns.AllOk(Records(d)) && (d.frame.dns.answers.None? ==> d.currentTry == 0)
    ensures var st := TryFamily(c, d, sockets); Decided(c, d, sockets, st.c, st.next)
  {
    hide AttemptsAt, Wanted, OutOfAnswers, Decided, NextAddress, LogTried, NewOrigin;
    var ws := Remaining(d);
    if d.frame.dns.answers.None? {
      NothingAhead(d);
      ExhaustedDecided(c, d, sockets);
      AttemptsAtNone(Records(d), d.family, c.parser.port);
      assert c.log.attempts + [] == c.log.attempts;
      var c1 := c.(log := c.log.(attempts := c.log.attempts + AttemptsAt(Records(d), ws, d.family, c.parser.port)));
      assert c1 == c && sockets[0..] == sockets && d.(currentTry := d.currentTry) == d;
    } else {
      var answers := Records(d);
      var w := NextAddress(answers, d.currentTry, WantedKind(d.family), sockets, 256);
      WalkExactly(answers, d.currentTry, WantedKind(d.family), sockets, 256);
      var j := FirstOrNone(sockets, |ws|);
      if AllFail(sockets, |ws|) {
        LogTriedIs(c, answers, ws, d.family);
        ExhaustedDecided(c, d, sockets);
      } else {
        assert forall i :: 0 <= i < |ws[..j + 1]| ==> ws[..j + 1][i] == ws[i];
        LogTriedIs(c, answers, ws[..j + 1], d.family);
        PickedDecided(c, d, sockets, j);
      }
    }
  }

  /** An error code in the response: straight to AAAA, or to an error. */
  lemma RcodeDecided(c: Conn, d: Doh, sockets: seq<Socket>)
    requires c.life == Running && d.frame.dns.flags.rcode != 0 && d.currentTry <= |Records(d)| <= 255 && Dns.AllOk(Records(d))
    ensures d.family == Ipv4Try ==> var st := SwitchToIpv6(c, d, sockets); Decided(c, d, sockets, st.c, st.next)
    ensures d.family != Ipv4Try ==> Decided(c, d, sockets, c.(error := 500), Error)
  {
    hide AttemptsAt, Wanted, SwitchToIpv6;
    SwitchIs(c, d, sockets);
    AttemptsAtNone(Records(d), d.family, c.parser.port);
    assert c.log.attempts + [] == c.log.attempts;
  }

  lemma NextDnsDecided(c: Conn, d: Doh, sockets: seq<Socket>)
    requires c.life == Running && c.originRegistered && c.doh == Some(d) && !Missing(d)
    requires d.currentTry <= |Records(d)| <= 255 && Dns.AllOk(Records(d)) && (d.frame.dns.answers.None? ==> d.currentTry == 0)
    ensures var st := TryNextDns(c, d, sockets); Decided(c, d, sockets, st.c, st.next)
  {
    hide TryFamily, SwitchToIpv6, Decided;
    var u := UnregisterOrigin(c);
    if d.frame.dns.flags.rcode == 0 {
      FamilyDecided(u, d, sockets);
      DecidedAfter(c, u, d, sockets, TryFamily(u, d, sockets));
    } else {
      RcodeDecided(u, d, sockets);
      DecidedAfter(c, u, d, sockets, TryNextDns(c, d, sockets));
    }
  }

  /** A jump from the resolution's handlers keeps the decision. */
  lemma JumpDecided(cfg: Config, c: Conn, d: Doh, sockets: seq<Socket>, st: Step, env: Env)
    requires d.currentTry <= |Records(d)| <= 255 && Dns.AllOk(Records(d)) && Decided(c, d, sockets, st.c, st.next)
    requires st.next == TryConnectionIp || st.next == Error || st.next == st.c.phase
    ensures var n := Jump(cfg, st, env); Decided(c, d, sockets, n, n.phase)
  {
    hide Jump, AttemptsAt, Wanted;
    JumpKeeps(cfg, st, env);
  }

  /** The entries a response in use has, and where the walk over them stands. */
  lemma InUse(c: Conn)
    requires Loaded(c)
    ensures var d := c.doh.value;
            && Dns.AllOk(Records(d)) && (|Records(d)| <= 255 ==> d.currentTry <= |Records(d)|)
            && (d.frame.dns.answers.None? && |Records(d)| <= 255 ==> d.currentTry == 0)
            && (d.frame.dns.answers.Some? ==> !Missing(d)) && Records(d) == Last(c.log).answers
  {
    hide Tried, AllOf, Sourced, Framing.Frame.Valid, Base;
    AnswersCounted(c.doh.value);
    NoRecordsOk();
  }

  lemma NoRecordsOk()
    ensures Dns.AllOk([])
  {
  }

  /** A refused connection. With a resolution in use and at most 255 answers: on to the first record that gets a
      socket; else, from A, the resolver is asked again; else an error. Without one, always an error. */
  lemma RefusedExactly(cfg: Config, c: Conn, e: Event)
    requires Inv(c) && c.phase == TryConnectionIp && Enabled(c, e) && c.Sound() && e.OriginWritable? && !e.connected
    ensures c.doh.Some? && c.doh.value.active && |Records(c.doh.value)| <= 255 ==>
              c.doh.value.currentTry <= |Records(c.doh.value)| && Dns.AllOk(Records(c.doh.value))
    ensures var n := Next(cfg, c, e);
            && (c.doh.None? || !c.doh.value.active ==> n.life == Running && n.phase == Error && n.error == 500)
            && (c.doh.Some? && c.doh.value.active && |Records(c.doh.value)| <= 255 ==> Decided(c, c.doh.value, e.env.sockets, n, n.phase))
  {
    hide Inv, Conn.Sound, Jump, TryNextDns, Decided, Missing;
    InvSound(c);
    OnlyOriginWrites(c, e);
    RefusedFacts(c);
    if c.doh.None? {
      JumpKeeps(cfg, Fail(c, INTERNAL_SERVER_ERROR), e.env);
    } else {
      var d := c.doh.value;
      var st := TryNextDns(c, d, e.env.sockets);
      Connection.TryNextNext(c, d, e.env.sockets);
      if !d.active {
        SwitchedGivesUp(c, d, e.env.sockets);
        JumpKeeps(cfg, st, e.env);
      } else {
        InUse(c);
        if |Records(d)| <= 255 {
          NextDnsDecided(c, d, e.env.sockets);
          JumpDecided(cfg, c, d, e.env.sockets, st, e.env);
        }
      }
    }
  }

  lemma RefusedFacts(c: Conn)
    requires Inv(c) && c.phase == TryConnectionIp
    ensures c.originRegistered && (c.doh.Some? ==> c.request.isDomain)
    ensures c.doh.Some? && !c.doh.value.active ==> Switched(c)
    ensures c.doh.Some? && c.doh.value.active ==> Loaded(c) && c.doh.value.frame.dns.answers.Some?
  {
    hide Shape, Streams, Names, ClientSide, Books, AwaitShape, AttemptsOk, Ledger, ResponsesOk, AllSourced, Loaded, Framing.Frame.Valid, Tried, AllOf;
    SidesHold(c);
    NamesTryCases(c);
    if c.doh.Some? && c.doh.value.active {
      BooksAre(c);
      AttemptsResponses(c.log, c.parser.port);
      WalkingIsLoaded(c);
    }
  }

  lemma SwitchedGivesUp(c: Conn, d: Doh, sockets: seq<Socket>)
    requires Switched(c) && c.doh == Some(d) && c.life == Running
    ensures var st := TryNextDns(c, d, sockets); st.next == Error && st.c.error == 500 && st.c.life == Running && st.c.phase == c.phase
  {
    hide AllOf, Small, Sourced;
  }

  /** The resolver has closed: the same decision, on the response just read. */
  lemma ClosedExactly(cfg: Config, c: Conn, e: Event)
    requires Inv(c) && c.phase == AwaitDohResponse && Enabled(c, e) && c.Sound() && e.OriginReadable? && e.got.Eof?
    ensures c.doh.Some? ==> c.doh.value.currentTry == 0 && Dns.AllOk(Records(c.doh.value))
    ensures var n := Next(cfg, c, e);
            && (c.doh.None? ==> n.life == Running && n.phase == Error && n.error == 500)
            && (c.doh.Some? && !Missing(c.doh.value) && |Records(c.doh.value)| <= 255 ==>
                  Decided(c, c.doh.value, e.env.sockets, n, n.phase))
  {
    hide Inv, Conn.Sound, Jump, AwaitRead, TryNextDns, Decided, Missing, Framing.Judge;
    InvSound(c);
    OnlyOriginWrites(c, e);
    AwaitCases(c);
    var m := c.(originStatus := ClosingStatus, wire := c.wire.(originEof := true));
    if c.doh.None? {
      NoDoh(m, e.env);
      JumpKeeps(cfg, Step(m, Error), e.env);
    } else {
      var d := c.doh.value;
      ClosedFacts(c);
      if !Missing(d) && |Records(d)| <= 255 {
        ClosedDecided(cfg, c, m, d, e.env);
      }
    }
  }

  lemma ClosedFacts(c: Conn)
    requires Inv(c) && c.phase == AwaitDohResponse && c.doh.Some?
    ensures c.doh.value.currentTry == 0 && Dns.AllOk(Records(c.doh.value))
  {
    hide Streams, Names, Conn.Sound, Framing.Frame.Valid, Framing.Judge, Dns.AllOk;
    assert AwaitShape(c);
    AnswersCounted(c.doh.value);
    NoRecordsOk();
  }

  lemma ClosedDecided(cfg: Config, c: Conn, m: Conn, d: Doh, env: Env)
    requires m == c.(originStatus := ClosingStatus, wire := c.wire.(originEof := true)) && c.life == Running && c.phase == AwaitDohResponse
    requires c.doh == Some(d) && c.error == 0 && d.frame.Valid() && c.originBuffer == EMPTY && c.originRegistered && !Missing(d)
    requires d.currentTry == 0 && |Records(d)| <= 255 && Dns.AllOk(Records(d))
    ensures var n := Jump(cfg, AwaitRead(m, env), env); Decided(c, d, env.sockets, n, n.phase)
  {
    hide Framing.Frame.Valid, TryNextDns, Jump, Decided, Missing, ResponseOf;
    var c1 := m.(wire := m.wire.(originShut := m.wire.originShut + 1), log := m.log.(responses := m.log.responses + [ResponseOf(m, d)]));
    var st := TryNextDns(c1, d, env.sockets);
    assert AwaitRead(m, env) == st;
    NextDnsDecided(c1, d, env.sockets);
    Connection.TryNextNext(c1, d, env.sockets);
    DecidedAfter(c, c1, d, env.sockets, st);
    JumpDecided(cfg, c, d, env.sockets, st, env);
  }

  lemma DecidedAfter(c: Conn, u: Conn, d: Doh, sockets: seq<Socket>, st: Step)
    requires d.currentTry <= |Records(d)| <= 255 && Dns.AllOk(Records(d))
    requires u.error == c.error && u.log.attempts == c.log.attempts && u.parser == c.parser && Decided(u, d, sockets, st.c, st.next)
    ensures Decided(c, d, sockets, st.c, st.next)
  {
    hide AttemptsAt, Wanted;
  }

  /** Read as conditions: an error exactly when the resolver is not asked again and no record gets a registered
      socket, and TRY_CONNECTION_IP otherwise. */
  lemma DecidedIff(c: Conn, d: Doh, sockets: seq<Socket>, n: Conn)
    requires d.currentTry <= |Records(d)| <= 255 && Dns.AllOk(Records(d)) && Decided(c, d, sockets, n, n.phase)
    ensures n.phase == Error <==> !AsksAgain(d, sockets) && forall j :: 0 <= j < |Remaining(d)| ==> !Finds(d, sockets, j)
    ensures n.phase == TryConnectionIp <==> AsksAgain(d, sockets) || exists j :: 0 <= j < |Remaining(d)| && Finds(d, sockets, j)
  {
    hide AttemptsAt, Wanted, Finds, AsksAgain;
  }

  // ---- bytes from the resolver -----------------------------------------------------------------------------

  /** What a read leads to, by the verdict on everything read so far. */
  function ReadVerdict(v: Framing.Verdict, f: Family, opens: bool): (r: (Phase, nat)) {
    match v
    case BadGateway => (Error, 502)
    case NoMemory => (Error, 500)
    case NoRecords => if f == Ipv4Try && opens then (TryConnectionIp, 0) else (Error, 500)
    case Complete => (AwaitDohResponse, 0)
    case Continue => (AwaitDohResponse, 0)
  }

  lemma ResolvedIs(p: Conn, d: Doh, v: Framing.Verdict, env: Env)
    requires p.life == Running && p.phase == AwaitDohResponse && p.error == 0 && p.originStatus == ActiveStatus && p.doh == Some(d)
    ensures var st := Resolved(p, d, v, env);
            && st.c.life == Running && st.c.phase == p.phase && (st.next, st.c.error) == ReadVerdict(v, d.family, Opens(env.sockets, 0))
            && (st.next == TryConnectionIp ==> st.c.doh.Some? && !st.c.doh.value.active && st.c.doh.value.family == Ipv6Try)
            && (st.next == AwaitDohResponse ==> st.c.doh == p.doh)
  {
    hide SwitchToIpv6;
    var c1 := p.(log := p.log.(responses := p.log.responses + [ResponseOf(p, d)]));
    SwitchIs(UnregisterOrigin(c1.(originBuffer := EMPTY)), d, env.sockets);
  }

  /** The bytes bring the response to where its answers are allocated. */
  ghost predicate NeedsMemory(c: Conn, bytes: seq<byte>) {
    && c.doh.Some? && c.doh.value.frame.dns.answers.None?
    && Framing.StepAll(Framing.Init(), c.wire.originIn + bytes, true).dns.answers.Some?
  }

  /** Bytes from the resolver while its answer is open. What everything it has sent so far amounts to decides:
      502 for a malformed answer, 500 without memory, AAAA (or 500) for an empty one, and waiting on otherwise. */
  lemma ReadExactly(cfg: Config, c: Conn, bytes: seq<byte>, env: Env)
    requires Inv(c) && c.phase == AwaitDohResponse && Enabled(c, OriginReadable(Data(bytes), env)) && c.Sound()
    requires c.doh.Some? ==> Framing.Judge(c.doh.value.frame) == Framing.Continue
    ensures var v := Framing.Judge(Framing.StepAll(Framing.Init(), c.wire.originIn + bytes, true));
            var n := Next(cfg, c, OriginReadable(Data(bytes), env));
            && n.life == Running
            && (c.doh.None? ==> n.phase == Error && n.error == 500)
            && (c.doh.Some? ==>
                  && (n.phase, n.error) == (if NeedsMemory(c, bytes) && !env.answersAlloc then (Error, 500)
                                            else ReadVerdict(v, c.doh.value.family, Opens(env.sockets, 0)))
                  && (n.phase == TryConnectionIp ==> n.doh.Some? && !n.doh.value.active && n.doh.value.family == Ipv6Try))
  {
    hide Inv, Conn.Sound, Jump, AwaitRead, Framing.Judge, Framing.StepAll, Framing.Init, Parsed, Buf.Push, Resolved, Framing.Frame.Valid, Framing.Drain,
      NeedsMemory;
    var e := OriginReadable(Data(bytes), env);
    InvSound(c);
    OnlyOriginWrites(c, e);
    AwaitCases(c);
    var m := c.(originBuffer := c.originBuffer.Push(bytes), wire := c.wire.(originIn := c.wire.originIn + bytes));
    if c.doh.None? {
      NoDoh(m, env);
      JumpKeeps(cfg, Step(m, Error), env);
    } else {
      InvReadFrom(c);
      AwaitOrigin(c);
      AwaitReadParsed(c, bytes, env);
      var p := Parsed(c, c.doh.value, bytes, env);
      ParsedRest(c, bytes, env);
      ParsedWhole(c, bytes, env);
      ResolvedIs(p, p.doh.value, Framing.Judge(p.doh.value.frame), env);
      JumpKeeps(cfg, Resolved(p, p.doh.value, Framing.Judge(p.doh.value.frame), env), env);
    }
  }

  lemma AwaitOrigin(c: Conn)
    requires Inv(c) && c.phase == AwaitDohResponse
    ensures c.originStatus == ActiveStatus
  {
    hide Streams, Names, Conn.Sound, AwaitShape;
  }

  lemma ParsedWhole(c: Conn, bytes: seq<byte>, env: Env)
    requires c.doh.Some? && c.doh.value.frame.Valid() && ReadFrom(c.doh.value.frame, c.wire.originIn)
    requires Framing.Judge(c.doh.value.frame) == Framing.Continue
    ensures var n := Parsed(c, c.doh.value, bytes, env);
            && n.doh.Some?
            && (if NeedsMemory(c, bytes) && !env.answersAlloc then Framing.Judge(n.doh.value.frame) == Framing.NoMemory
                else n.doh.value.frame == Framing.StepAll(Framing.Init(), c.wire.originIn + bytes, true))
  {
    hide Framing.Frame.Valid, Framing.Drain, Framing.StepAll, Framing.Init, Framing.Judge, Buf.Advance;
    Framing.DrainIsStepAll(c.doh.value.frame, bytes, env.answersAlloc);
    Framing.StepAllConcat(Framing.Init(), c.wire.originIn, bytes, true);
    Framing.MemoryExactly(c.doh.value.frame, bytes);
  }

  // ---- sending ---------------------------------------------------------------------------------------------

  /** A write of the query or of the request line: on when all of it is out, and not before. */
  lemma SentExactly(cfg: Config, c: Conn, e: Event)
    requires Inv(c) && (c.phase == SendDohRequest || c.phase == SendRequestLine) && Enabled(c, e) && c.Sound() && e.OriginWritable? && e.sent > 0
    ensures var n := Next(cfg, c, e);
            && n.life == Running && n.wire.originOut == c.wire.originOut + c.originBuffer.pending[..e.sent] && n.log.queries == c.log.queries
            && n.request == c.request && QueryType(n) == QueryType(c)
            && n.phase == (if e.sent < |c.originBuffer.pending| then c.phase else if c.phase == SendDohRequest then AwaitDohResponse else Connected)
            && (n.phase == c.phase ==> n.originBuffer.pending == c.originBuffer.pending[e.sent..])
            && (n.phase == AwaitDohResponse ==> n.error == if c.doh.None? && !e.env.dohAlloc then 500 else 0)
            && (n.phase == Connected ==> n.originBuffer.pending == [] && n.clientBuffer == c.clientBuffer)
  {
    hide Inv, Conn.Sound, Arrive;
    OnlyOriginWrites(c, e);
    SendFacts(c);
    InvSound(c);
    var m := SentOut(c, e.sent);
    SentArrival(cfg, m, e.env);
  }

  lemma SendFacts(c: Conn)
    requires Inv(c) && (c.phase == SendDohRequest || c.phase == SendRequestLine)
    ensures c.error == 0 && c.started
  {
    hide Streams, Names, Conn.Sound;
  }

  lemma SentArrival(cfg: Config, m: Conn, env: Env)
    ensures var n := Arrive(cfg, m.(phase := AwaitDohResponse), env);
            n.wire == m.wire && n.life == m.life && n.log == m.log && n.phase == AwaitDohResponse && n.request == m.request && QueryType(n) == QueryType(m)
            && n.error == if m.doh.None? && !env.dohAlloc then 500 else m.error
    ensures var n := Arrive(cfg, m.(phase := Connected), env);
            n.wire == m.wire && n.life == m.life && n.log == m.log && n.phase == Connected && n.originBuffer == m.originBuffer && n.clientBuffer == m.clientBuffer
            && n.request == m.request && n.doh == m.doh
  {
    hide Framing.Init;
  }

  // ---- the end ---------------------------------------------------------------------------------------------

  /** The event reports a failure, or the client closes before it is connected to anything. */
  predicate Failing(c: Conn, e: Event) {
    match e
    case ClientReadable(got, _) => got.ReadFailed? || (got.Eof? && BeforeConnected(c.phase))
    case ClientWritable(sent) => sent <= 0
    case OriginReadable(got, _) => got.ReadFailed?
    case OriginWritable(sent, _, _) => sent <= 0 && c.phase != TryConnectionIp
  }

  lemma FailureEnds(cfg: Config, c: Conn, e: Event)
    requires Failing(c, e) && Enabled(c, e) && c.Sound()
    ensures Next(cfg, c, e).life == Ended && Next(cfg, c, e).phase == c.phase
  {
    hide Conn.Sound, End;
    Theorems.EndWire(c);
    EndPhase(c);
    Theorems.EndWire(c.(wire := c.wire.(clientEof := true)));
    EndPhase(c.(wire := c.wire.(clientEof := true)));
  }

  lemma ErrorEnds(cfg: Config, c: Conn, e: Event)
    requires Inv(c) && c.phase == Error && Enabled(c, e) && c.Sound() && e.ClientWritable? && e.sent > 0
    ensures Next(cfg, c, e).life == (if e.sent < |c.originBuffer.pending| then Running else Ended)
    ensures Next(cfg, c, e).phase == (if e.sent < |c.originBuffer.pending| then Error else Done)
  {
    hide Inv, Conn.Sound, End;
    InvErrorFacts(c);
    InvSound(c);
    var m := c.(originBuffer := c.originBuffer.Advance(e.sent), wire := c.wire.(clientOut := c.wire.clientOut + c.originBuffer.pending[..e.sent]));
    Theorems.EndWire(m.(phase := Done));
    EndPhase(m.(phase := Done));
  }

  /** A connection ends exactly when an event fails, the client gives up before it is connected, or DONE is
      reached: through the relay with both streams delivered, or with the whole error message sent. */
  lemma EndsExactly(cfg: Config, c: Conn, e: Event)
    requires Inv(c) && Enabled(c, e) && Fits(cfg) && c.Sound()
    ensures var n := Next(cfg, c, e);
            && (n.life == Ended <==> Failing(c, e) || n.phase == Done)
            && (n.phase == Done ==> if n.error == 0 then Delivered(n) else Reported(n))
  {
    hide Inv, Conn.Sound, Next, Delivered, Reported, Failing, AttemptsOk;
    InvPhases(c);
    StepOk(cfg, c, e);
    var n := Next(cfg, c, e);
    if n.life == Running {
      InvPhases(n);
    }
    if Failing(c, e) {
      FailureEnds(cfg, c, e);
    } else {
      GoesOn(cfg, c, e);
    }
  }

  /** An event that does not fail ends nothing before DONE. */
  lemma GoesOn(cfg: Config, c: Conn, e: Event)
    requires Inv(c) && Enabled(c, e) && Fits(cfg) && c.Sound() && !Failing(c, e)
    ensures var n := Next(cfg, c, e); n.life == Ended <==> n.phase == Done
  {
    hide Inv, Conn.Sound, Next;
    InvPhases(c);
    if c.phase == ParsingRequestLine {
      ParsingGoesOn(cfg, c, e);
    } else if c.phase == TryConnectionIp {
      TryGoesOn(cfg, c, e);
    } else if c.phase == SendDohRequest || c.phase == SendRequestLine {
      OnlyOriginWrites(c, e);
      SentExactly(cfg, c, e);
    } else if c.phase == AwaitDohResponse {
      AwaitGoesOn(cfg, c, e);
    } else if c.phase == Error {
      OnlyErrorWrites(c, e);
      ErrorEnds(cfg, c, e);
    } else {
      RelayGoesOn(cfg, c, e);
    }
  }

  lemma ParsingGoesOn(cfg: Config, c: Conn, e: Event)
    requires Inv(c) && c.phase == ParsingRequestLine && Enabled(c, e) && c.Sound() && !Failing(c, e)
    ensures var n := Next(cfg, c, e); n.life != Ended && n.phase != Done
  {
    hide Inv, Conn.Sound, Next, RequestLine.FeedAll, BuildRequest, RequestLine.Init;
    ParsingFacts(c);
    ParsingExactly(cfg, c, e.got.bytes, e.env);
  }

  lemma TryGoesOn(cfg: Config, c: Conn, e: Event)
    requires Inv(c) && c.phase == TryConnectionIp && Enabled(c, e) && c.Sound() && Fits(cfg)
    ensures var n := Next(cfg, c, e); n.life != Ended && n.phase != Done
  {
    hide Inv, Conn.Sound, Jump, TryWrite, Good, Spinning;
    InvSound(c);
    OnlyOriginWrites(c, e);
    if e.connected {
      TryConnected(cfg, c, e.env);
    } else {
      TryRefused(cfg, c, e.env);
    }
    var st := TryWrite(c, e.connected, e.env);
    TryWriteNext(c, e.connected, e.env);
    JumpPhase(cfg, st, e.env);
  }

  lemma TryWriteNext(c: Conn, connected: bool, env: Env)
    requires c.phase == TryConnectionIp
    ensures var st := TryWrite(c, connected, env); st.next != Done && st.c.phase != Done
  {
    hide TryNextDns, OK_LINE;
    if c.doh.Some? {
      Connection.TryNextNext(c, c.doh.value, env.sockets);
    }
  }

  lemma AwaitGoesOn(cfg: Config, c: Conn, e: Event)
    requires Inv(c) && c.phase == AwaitDohResponse && Enabled(c, e) && c.Sound() && !Failing(c, e)
    ensures var n := Next(cfg, c, e); n.life != Ended && n.phase != Done
  {
    hide Inv, Conn.Sound, Jump, AwaitRead, Framing.Judge, Buf.Push, Framing.Frame.Valid, Spinning, Missing, Good;
    InvSound(c);
    OnlyOriginWrites(c, e);
    AwaitCases(c);
    var m := if e.got.Eof? then c.(originStatus := ClosingStatus, wire := c.wire.(originEof := true))
             else c.(originBuffer := c.originBuffer.Push(e.got.bytes), wire := c.wire.(originIn := c.wire.originIn + e.got.bytes));
    Connection.AwaitNext(m, e.env);
    JumpPhase(cfg, AwaitRead(m, e.env), e.env);
    if c.doh.None? {
      NoDoh(m, e.env);
      JumpKeeps(cfg, Step(m, Error), e.env);
    } else if e.got.Eof? {
      AwaitEof(cfg, c, e.env);
    } else if Framing.Judge(c.doh.value.frame) == Framing.Continue {
      AwaitData(cfg, c, e.got.bytes, e.env);
    } else {
      assert m.originBuffer.CanRead() by { PushedCanRead(c.originBuffer, e.got.bytes); }
      NotConsumed(m, e.env);
      JumpLife(cfg, AwaitRead(m, e.env), e.env);
    }
  }

  lemma RelayGoesOn(cfg: Config, c: Conn, e: Event)
    requires Inv(c) && Relaying(c.phase) && Enabled(c, e) && c.Sound() && !Failing(c, e)
    ensures var n := Next(cfg, c, e); n.life == Ended <==> n.phase == Done
  {
    hide Shape, Streams, Names, Conn.Sound, Next, Delivered, End;
    RelayProof.RelayStep(cfg, c, e);
  }
}
