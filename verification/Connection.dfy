/** The connection as the object its event handlers update. Each handler is proved to do what the state machine
    says: `View` is the machine's state, and every method relates the new view to the old one. */
module Connection {
  import opened Bytes
  import opened Buffers
  import RequestLine
  import Dns
  import DohQuery
  import Framing
  import opened Failover
  import opened Machine
  import opened Invariant
  import opened SetupProof
  import StepProof
  import Runs

  class ProxyConnection {
    var life: Life
    var phase: Phase
    var started: bool
    var error: u16
    var clientStatus: Status
    var originStatus: Status
    var clientInterest: Interest
    var originInterest: Interest
    var originRegistered: bool
    const clientBuffer: Buffer
    const originBuffer: Buffer
    var parser: RequestLine.Parser
    var request: Request
    var doh: Option<Doh>
    const cfg: Config
    ghost var wire: Wire
    ghost var log: Log

    ghost predicate Valid()
      reads this, clientBuffer, originBuffer
    {
      && clientBuffer != originBuffer && clientBuffer.data != originBuffer.data
      && clientBuffer.Valid() && originBuffer.Valid()
    }

    ghost function View(): Conn
      requires Valid()
      reads this, clientBuffer, clientBuffer.data, originBuffer, originBuffer.data
    {
      Conn(life, phase, started, error, clientStatus, originStatus, clientInterest, originInterest, originRegistered,
           clientBuffer.View(), originBuffer.View(), parser, request, doh, wire, log)
    }

    /** A client has been accepted. */
    constructor (config: Config)
      ensures Valid() && View() == Fresh() && cfg == config
      ensures fresh(clientBuffer) && fresh(originBuffer) && fresh(clientBuffer.data) && fresh(originBuffer.data)
    {
      life, phase, started, error := Running, ParsingRequestLine, false, 0;
      clientStatus, originStatus, clientInterest, originInterest, originRegistered := ActiveStatus, InactiveStatus, READ, NOOP, false;
      clientBuffer := new Buffer();
      originBuffer := new Buffer();
      parser, request, doh := RequestLine.Init(), Request(false, false, [], []), None;
      cfg := config;
      wire := Wire([], [], [], [], false, false, 0, 0);
      log := Log(0, [], [], [], [], 0, 0);
    }

    // ---- registration, closing ---------------------------------------------------------------------

    method SetOriginInterest(i: Interest)
      requires Valid()
      modifies `originInterest
      ensures Valid() && View() == SetOrigin(old(View()), i)
    {
      if originRegistered {
        originInterest := i;
      }
    }

    method UnregisterOriginSocket()
      requires Valid()
      modifies `originRegistered, `originInterest
      ensures Valid() && View() == UnregisterOrigin(old(View()))
    {
      originRegistered, originInterest := false, NOOP;
    }

    /** `doh_response_parser_destroy` */
    method DestroyAnswers(d: Doh)
      requires Valid()
      modifies `doh, `log
      ensures Valid() && View() == FreeAnswers(old(View()), d)
    {
      if d.frame.dns.answers.Some? {
        log := log.(frees := log.frees + 1);
      }
      doh := Some(d.(frame := d.frame.(dns := Dns.Destroy(d.frame.dns))));
    }

    /** `done_on_arrival` and `free_connection_data` */
    method Close()
      requires Valid()
      modifies `life, `clientInterest, `originRegistered, `originInterest, `doh, `log
      ensures Valid() && View() == End(old(View()))
    {
      hide FreeAnswers;
      if originStatus != InactiveStatus {
        UnregisterOriginSocket();
      }
      life, clientInterest := Ended, NOOP;
      if doh.Some? && doh.value.active {
        DestroyAnswers(doh.value);
      }
    }

    // ---- relay -----------------------------------------------------------------------------------------

    /** `set_connection_interests` */
    method SetConnectionInterests()
      requires Valid()
      modifies `clientInterest, `originInterest
      ensures Valid() && View() == ConnectedInterests(old(View()))
    {
      clientInterest := Interest(clientBuffer.CanWrite(), originBuffer.CanRead());
      SetOriginInterest(Interest(originBuffer.CanWrite(), clientBuffer.CanRead()));
    }

    /** `shutdown(client_fd, SHUT_WR)`: the origin has closed and its bytes are gone. */
    method ShutClientSide()
      requires Valid()
      modifies `originStatus, `wire
      ensures Valid() && View() == ShutClient(old(View()))
    {
      originStatus := ClosedStatus;
      wire := wire.(clientShut := wire.clientShut + 1);
    }

    method ShutOriginSide()
      requires Valid()
      modifies `clientStatus, `wire
      ensures Valid() && View() == ShutOrigin(old(View()))
    {
      clientStatus := ClosedStatus;
      wire := wire.(originShut := wire.originShut + 1);
    }

    /** `selector_set_interest` on both descriptors. */
    method SetInterests(ci: Interest, oi: Interest)
      requires Valid()
      modifies `clientInterest, `originInterest
      ensures Valid() && View() == SetOrigin(old(View()).(clientInterest := ci), oi)
    {
      clientInterest := ci;
      SetOriginInterest(oi);
    }

    /** `set_closing_connection_interests` */
    method SetClosingInterests()
      requires Valid()
      modifies `clientInterest, `originInterest, `clientStatus, `originStatus, `wire
      ensures Valid() && View() == ClosingInterests(old(View()))
    {
      hide SetOrigin, ShutClient, ShutOrigin;
      ghost var c := View();
      var ci, oi := NOOP, NOOP;
      if IsClosing(originStatus) {
        if clientBuffer.CanRead() { oi := oi.(write := true); }
        if clientBuffer.CanWrite() { ci := ci.(read := true); }
        if originBuffer.CanRead() {
          ci := ci.(write := true);
        } else if originStatus == ClosingStatus {
          ShutClientSide();
        }
      }
      ShutClientFrame(c);
      if IsClosing(clientStatus) {
        if originBuffer.CanRead() { ci := ci.(write := true); }
        if originBuffer.CanWrite() { oi := oi.(read := true); }
        if clientBuffer.CanRead() {
          oi := oi.(write := true);
        } else if clientStatus == ClosingStatus {
          ShutOriginSide();
        }
      }
      SetInterests(ci, oi);
    }

    lemma ShutClientFrame(c: Conn)
      ensures var n := ShutClient(c); n.clientBuffer == c.clientBuffer && n.originBuffer == c.originBuffer && n.clientStatus == c.clientStatus
    {
    }

    lemma ShutOriginFrame(c: Conn)
      ensures var n := ShutOrigin(c); n.clientBuffer == c.clientBuffer && n.originBuffer == c.originBuffer && n.originStatus == c.originStatus
    {
    }

    /** `set_empty_buffers_interests` */
    method SetEmptyBuffersInterests()
      requires Valid()
      modifies `clientInterest, `originInterest, `clientStatus, `originStatus, `wire
      ensures Valid() && View() == EmptyInterests(old(View()))
    {
      hide SetOrigin, ShutClient, ShutOrigin;
      ghost var c := View();
      var ci, oi := NOOP, NOOP;
      if clientBuffer.CanRead() {
        oi := oi.(write := true);
      } else if clientStatus == ClosingStatus {
        ShutOriginSide();
      }
      ShutOriginFrame(c);
      if originBuffer.CanRead() {
        ci := ci.(write := true);
      } else if originStatus == ClosingStatus {
        ShutClientSide();
      }
      SetInterests(ci, oi);
    }

    /** `connected_on_read_ready` */
    method ConnectedOnReadReady() returns (next: Phase)
      requires Valid()
      modifies `clientInterest, `originInterest
      ensures Valid() && Step(View(), next) == ConnectedRead(old(View()))
    {
      hide ConnectedInterests;
      if clientStatus == ClosingStatus || originStatus == ClosingStatus {
        return Closing;
      }
      SetConnectionInterests();
      next := phase;
    }

    /** `closing_on_read_ready` */
    method ClosingOnReadReady(onClient: bool) returns (next: Phase)
      requires Valid()
      modifies `clientInterest, `originInterest, `clientStatus, `originStatus, `wire
      ensures Valid() && Step(View(), next) == ClosingRead(old(View()), onClient)
    {
      hide ClosingInterests;
      if (if onClient then clientStatus else originStatus) == ClosingStatus {
        if clientBuffer.CanRead() || originBuffer.CanRead() {
          return EmptyBuffers;
        }
        if onClient {
          wire := wire.(originShut := wire.originShut + 1);
        } else {
          wire := wire.(clientShut := wire.clientShut + 1);
        }
        return Done;
      }
      SetClosingInterests();
      next := phase;
    }

    /** `empty_buffers_on_write_ready` */
    method EmptyBuffersOnWriteReady() returns (next: Phase)
      requires Valid()
      modifies `clientInterest, `originInterest, `clientStatus, `originStatus, `wire
      ensures Valid() && Step(View(), next) == EmptyWrite(old(View()))
    {
      hide EmptyInterests;
      SetEmptyBuffersInterests();
      next := if clientStatus == ClosedStatus && originStatus == ClosedStatus then Done else phase;
    }

    // ---- name resolution ---------------------------------------------------------------------------------

    /** A new socket has been put in the selector. */
    method AdoptOrigin()
      requires Valid()
      modifies `originStatus, `originRegistered, `originInterest, `wire
      ensures Valid() && View() == NewOrigin(old(View()))
    {
      originStatus, originRegistered, originInterest := ActiveStatus, true, WRITE;
      wire := wire.(originIn := [], originOut := [], originEof := false, originShut := 0);
    }

    method FailWith(code: u16) returns (next: Phase)
      requires Valid()
      modifies `error
      ensures Valid() && Step(View(), next) == Fail(old(View()), code)
    {
      error := code;
      next := Error;
    }

    /** `establish_origin_connection` and `register_origin_socket` */
    method EstablishOrigin(sockets: seq<Socket>) returns (next: Phase)
      requires Valid()
      modifies `error, `originStatus, `originRegistered, `originInterest, `wire
      ensures Valid() && Step(View(), next) == OpenOrigin(old(View()), sockets)
    {
      hide NewOrigin;
      if sockets == [] || sockets[0] == NoSocket {
        next := FailWith(INTERNAL_SERVER_ERROR);
      } else if sockets[0] == NotRegistered {
        originStatus := ActiveStatus;
        next := FailWith(INTERNAL_SERVER_ERROR);
      } else {
        AdoptOrigin();
        next := TryConnectionIp;
      }
    }

    /** `handle_origin_doh_connection` for the second query */
    method AskAgain(d: Doh, sockets: seq<Socket>) returns (next: Phase)
      requires Valid()
      modifies `error, `originStatus, `originRegistered, `originInterest, `doh, `wire, `log
      ensures Valid() && Step(View(), next) == SwitchToIpv6(old(View()), d, sockets)
    {
      hide OpenOrigin, FreeAnswers;
      DestroyAnswers(d.(active := false, family := Ipv6Try));
      next := EstablishOrigin(sockets);
    }

    method NoAnswersLeft(d: Doh, sockets: seq<Socket>) returns (next: Phase)
      requires Valid()
      modifies `error, `originStatus, `originRegistered, `originInterest, `doh, `wire, `log
      ensures Valid() && Step(View(), next) == OutOfAnswers(old(View()), d, sockets)
    {
      hide SwitchToIpv6;
      if d.family == Ipv4Try {
        next := AskAgain(d, sockets);
      } else {
        doh := Some(d);
        next := FailWith(INTERNAL_SERVER_ERROR);
      }
    }

    ghost method LogAttempts(answers: seq<Dns.Answer>, tried: seq<nat>, f: Family)
      requires Valid()
      modifies `log
      ensures Valid() && View() == LogTried(old(View()), answers, tried, f)
    {
      hide AttemptsAt;
      log := LogTried(View(), answers, tried, f).log;
    }

    /** `try_next_ipv4_connection` and `try_next_ipv6_connection` */
    method TryNextOfFamily(d: Doh, sockets: seq<Socket>) returns (next: Phase)
      requires Valid()
      modifies `life, `error, `originStatus, `originRegistered, `originInterest, `doh, `wire, `log
      ensures Valid() && Step(View(), next) == TryFamily(old(View()), d, sockets)
    {
      hide OutOfAnswers, LogTried, NextAddress, NewOrigin;
      if d.frame.dns.answers.None? {
        if d.currentTry < d.frame.dns.an {
          life := Crashed;
          next := phase;
        } else {
          next := NoAnswersLeft(d, sockets);
        }
        return;
      }
      var answers := d.frame.dns.answers.value;
      var w := WalkAnswers(answers, d.currentTry, WantedKind(d.family), sockets);
      LogAttempts(answers, w.tried, d.family);
      LogKeepsPhase(old(View()), answers, w.tried, d.family);
      if w.Spins? {
        life := Hung;
        next := phase;
      } else if w.Exhausted? {
        next := NoAnswersLeft(d.(currentTry := w.next), if |w.tried| <= |sockets| then sockets[|w.tried|..] else []);
      } else {
        doh := Some(d.(currentTry := w.next));
        if w.socket == NotRegistered {
          originStatus := ActiveStatus;
          next := FailWith(INTERNAL_SERVER_ERROR);
        } else {
          AdoptOrigin();
          next := TryConnectionIp;
        }
      }
    }

    lemma LogKeepsPhase(c: Conn, answers: seq<Dns.Answer>, tried: seq<nat>, f: Family)
      ensures LogTried(c, answers, tried, f).phase == c.phase
    {
      hide AttemptsAt;
    }

    /** `try_next_dns_connection` */
    method TryNextDnsConnection(d: Doh, sockets: seq<Socket>) returns (next: Phase)
      requires Valid()
      modifies `life, `error, `originStatus, `originRegistered, `originInterest, `doh, `wire, `log
      ensures Valid() && Step(View(), next) == TryNextDns(old(View()), d, sockets)
    {
      hide TryFamily, SwitchToIpv6, UnregisterOrigin;
      if !originRegistered {
        next := FailWith(INTERNAL_SERVER_ERROR);
        return;
      }
      UnregisterOriginSocket();
      if d.frame.dns.flags.rcode == 0 {
        next := TryNextOfFamily(d, sockets);
      } else if d.family == Ipv4Try {
        next := AskAgain(d, sockets);
      } else {
        next := FailWith(INTERNAL_SERVER_ERROR);
      }
    }

    /** `try_connection_ip_on_write_ready` */
    method TryConnectionOnWriteReady(connected: bool, env: Env) returns (next: Phase)
      requires Valid()
      modifies `life, `error, `originStatus, `originRegistered, `originInterest, `doh, `wire, `log, originBuffer, originBuffer.data
      ensures Valid() && Step(View(), next) == TryWrite(old(View()), connected, env)
    {
      hide TryNextDns, StatusText;
      if connected {
        if request.isDomain && (doh.None? || !doh.value.active) {
          next := SendDohRequest;
        } else if request.connect {
          OkLineFits();
          originBuffer.Reset();
          originBuffer.Append(OK_LINE);
          next := Connected;
        } else {
          next := SendRequestLine;
        }
      } else if request.isDomain && doh.Some? {
        next := TryNextDnsConnection(doh.value, env.sockets);
      } else {
        next := FailWith(INTERNAL_SERVER_ERROR);
      }
    }

    // ---- the request line ----------------------------------------------------------------------------------

    method ConsumeLine()
      requires Valid() && parser.InBounds() && clientBuffer.View().Ok()
      modifies `parser, `log, clientBuffer, clientBuffer.data
      ensures Valid()
      ensures var (q, k) := RequestLine.Consume(old(parser), old(clientBuffer.View()).pending);
              && parser == q && clientBuffer.View() == old(clientBuffer.View()).Advance(k)
              && log == old(log).(lineLength := old(log).lineLength + k)
    {
      hide RequestLine.Parser.InBounds, RequestLine.Consume, Buf.Advance, Buf.Ok, Buffer.View;
      ghost var taken;
      parser, taken := ParseLine(clientBuffer, parser);
      log := log.(lineLength := log.lineLength + taken);
    }

    /** `handle_origin_ip_connection` or `handle_origin_doh_connection`, then `build_connection_request`. */
    method CompleteLine(env: Env) returns (next: Phase)
      requires Valid() && parser.InBounds()
      modifies `error, `originStatus, `originRegistered, `originInterest, `request, `wire, `log, clientBuffer
      ensures Valid() && Step(View(), next) == LineComplete(old(View()), env)
    {
      hide RequestLine.Parser.InBounds, BuildRequest, NewOrigin;
      next := EstablishOrigin(env.sockets);
      OpenFrame(old(View()), env.sockets);
      if next == Error {
        return;
      }
      request := BuildRequest(parser);
      if request.connect {
        log := log.(dropped := clientBuffer.View().pending);
        clientBuffer.Reset();
      }
    }

    lemma OpenFrame(c: Conn, sockets: seq<Socket>)
      ensures var n := OpenOrigin(c, sockets).c; n.parser == c.parser && n.clientBuffer == c.clientBuffer && n.log == c.log
    {
    }

    /** `parsing_host_on_read_ready` */
    method ParsingOnReadReady(env: Env) returns (next: Phase)
      requires Valid() && parser.InBounds() && clientBuffer.View().Ok()
      modifies `life, `parser, `error, `originStatus, `originRegistered, `originInterest, `request, `wire, `log
      modifies clientBuffer, clientBuffer.data
      ensures Valid() && Step(View(), next) == ParsingRead(old(View()), env)
    {
      hide RequestLine.Parser.InBounds, RequestLine.Consume, LineComplete, Buf.Advance;
      ConsumeLine();
      if parser.state == RequestLine.BadMethod {
        next := FailWith(NOT_IMPLEMENTED);
      } else if parser.state == RequestLine.BadVersion {
        next := FailWith(HTTP_VERSION_NOT_SUPPORTED);
      } else if parser.state == RequestLine.Failed {
        next := FailWith(BAD_REQUEST);
      } else if parser.state == RequestLine.Bracketed {
        life := Unmodelled;
        next := phase;
      } else if parser.state == RequestLine.Done {
        next := CompleteLine(env);
      } else {
        next := phase;
      }
    }

    // ---- the resolver's answer --------------------------------------------------------------------------------

    /** What follows the loop: a resolver that has closed is done with. */
    method UseResponse(d: Doh, env: Env) returns (next: Phase)
      requires Valid()
      modifies `life, `error, `originStatus, `originRegistered, `originInterest, `doh, `wire, `log
      ensures Valid() && Step(View(), next) == AfterResponse(old(View()), d, env)
    {
      hide TryNextDns;
      if originStatus == ClosingStatus {
        wire := wire.(originShut := wire.originShut + 1);
        log := log.(responses := log.responses + [ResponseOf(View(), d)]);
        next := TryNextDnsConnection(d, env.sockets);
      } else {
        next := phase;
      }
    }

    /** The verdict of the last byte fed. */
    method ActOnVerdict(d: Doh, v: Framing.Verdict, env: Env) returns (next: Phase)
      requires Valid()
      modifies `life, `error, `originStatus, `originRegistered, `originInterest, `doh, `wire, `log, originBuffer
      ensures Valid() && Step(View(), next) == Resolved(old(View()), d, v, env)
    {
      hide SwitchToIpv6, AfterResponse;
      match v {
        case BadGateway => next := FailWith(BAD_GATEWAY);
        case NoMemory => next := FailWith(INTERNAL_SERVER_ERROR);
        case NoRecords =>
          log := log.(responses := log.responses + [ResponseOf(View(), d)]);
          if d.family == Ipv6Try {
            next := FailWith(INTERNAL_SERVER_ERROR);
          } else {
            originBuffer.Reset();
            UnregisterOriginSocket();
            next := AskAgain(d, env.sockets);
          }
        case Complete =>
          originBuffer.Reset();
          next := UseResponse(d, env);
        case Continue => next := UseResponse(d, env);
      }
    }

    /** `await_doh_response_on_read_ready` */
    method AwaitOnReadReady(env: Env) returns (next: Phase)
      requires Valid() && (doh.Some? ==> doh.value.frame.Valid()) && originBuffer.View().Ok()
      modifies `life, `error, `originStatus, `originRegistered, `originInterest, `doh, `wire, `log, originBuffer, originBuffer.data
      ensures Valid() && Step(View(), next) == AwaitRead(old(View()), env)
    {
      hide Framing.Drain, Framing.Judge, Framing.Frame.Valid, Resolved, AfterResponse, Buf.Advance, Buf.Ok, Buffer.View, Buffer.CanRead;
      if error == INTERNAL_SERVER_ERROR {
        return Error;
      }
      if doh.None? {
        life := Crashed;
        return phase;
      }
      var d := doh.value;
      if !originBuffer.CanRead() {
        next := UseResponse(d, env);
      } else if Framing.Stopped(d.frame) {
        life := Hung;
        next := phase;
      } else {
        next := ReadAnswer(d, env);
      }
    }

    /** The bytes of one read go through the parsers and the verdict is acted on. */
    method ReadAnswer(d: Doh, env: Env) returns (next: Phase)
      requires Valid() && d.frame.Valid() && originBuffer.View().Ok()
      modifies `life, `error, `originStatus, `originRegistered, `originInterest, `doh, `wire, `log, originBuffer, originBuffer.data
      ensures Valid()
      ensures var (f, k) := Framing.Drain(d.frame, old(originBuffer.View()).pending, env.answersAlloc);
              var d1 := d.(frame := f);
              var c1 := old(View()).(doh := Some(d1), originBuffer := old(originBuffer.View()).Advance(k),
                                     log := if d.frame.dns.answers.None? && f.dns.answers.Some?
                                            then old(log).(allocs := old(log).allocs + 1) else old(log));
              Step(View(), next) == Resolved(c1, d1, Framing.Judge(f), env)
    {
      hide Framing.Drain, Framing.Judge, Framing.Frame.Valid, Resolved, Buf.Advance, Buf.Ok, Buffer.View;
      var f := ParseResponse(originBuffer, d.frame, env.answersAlloc);
      if d.frame.dns.answers.None? && f.dns.answers.Some? {
        log := log.(allocs := log.allocs + 1);
      }
      doh := Some(d.(frame := f));
      next := ActOnVerdict(d.(frame := f), Framing.Judge(f), env);
    }

    // ---- entering a state ---------------------------------------------------------------------------------

    /** `build_doh_request` */
    method BuildDohRequest() returns (query: seq<byte>)
      requires Valid()
      ensures query == DohText(cfg, View())
    {
      hide DohQuery.Request;
      query := [];
      if |request.domain| <= DohQuery.MAX_DOMAIN {
        var kind := if doh.None? || doh.value.family == Ipv4Try then Dns.IPV4_TYPE else Dns.IPV6_TYPE;
        query := DohQuery.Request(cfg.dohPath, cfg.dohHost, request.domain, 0, kind);
      }
    }

    /** `send_doh_request_on_arrival`: the query goes into the origin buffer. */
    method SendDohOnArrival()
      requires Valid() && Room(cfg, View(), SendDohRequest)
      modifies `clientInterest, `originInterest, `log, originBuffer, originBuffer.data
      ensures Valid()
      ensures var c := old(View());
              View() == SetOrigin(c.(originBuffer := c.originBuffer.Push(DohText(cfg, c)),
                                     log := c.log.(queries := c.log.queries + [QueryType(c)]), clientInterest := NOOP), WRITE)
    {
      hide DohText, Buffer.View, Buf.Push;
      var query := BuildDohRequest();
      log := log.(queries := log.queries + [QueryType(View())]);
      originBuffer.Append(query);
      SetInterests(NOOP, WRITE);
    }

    /** `write_request_line` */
    method SendLineOnArrival()
      requires Valid() && Room(cfg, View(), SendRequestLine)
      modifies `clientInterest, `originInterest, originBuffer, originBuffer.data
      ensures Valid()
      ensures var c := old(View());
              View() == SetOrigin(c.(originBuffer := c.originBuffer.Push(c.request.line), clientInterest := NOOP), WRITE)
    {
      hide Buffer.View, Buf.Push;
      originBuffer.Append(request.line);
      SetInterests(NOOP, WRITE);
    }

    /** `error_on_arrival` */
    method ErrorOnArrival()
      requires Valid()
      modifies `clientInterest, `originInterest, originBuffer, originBuffer.data
      ensures Valid()
      ensures var c := old(View());
              View() == SetOrigin(c.(originBuffer := EMPTY.Push(StatusText(c.error, ReasonPhrase(c.error))), clientInterest := WRITE), NOOP)
    {
      hide StatusText, ReasonPhrase, Buffer.View, Buf.Push;
      ErrorTextShort(error);
      originBuffer.Reset();
      originBuffer.Append(StatusText(error, ReasonPhrase(error)));
      SetInterests(WRITE, NOOP);
    }

    /** `init_doh_state` */
    method InitDohState(env: Env)
      requires Valid()
      modifies `error, `doh
      ensures Valid() && View() == InitDoh(old(View()), env)
    {
      hide Framing.Init;
      if doh.None? && !env.dohAlloc {
        error := INTERNAL_SERVER_ERROR;
      } else {
        doh := Some(Doh(true, 0, if doh.None? then Ipv4Try else doh.value.family, Framing.Init()));
      }
    }

    /** The arrival handler of the current state. */
    method OnArrival(env: Env)
      requires Valid() && Room(cfg, View(), phase)
      modifies this, originBuffer, originBuffer.data
      ensures Valid() && View() == Arrive(cfg, old(View()), env)
    {
      hide Buffer.View, Buf.Push, StatusText, DohText, InitDoh, ConnectedInterests, ClosingInterests, EmptyInterests, End, SetOrigin, Room, RequestLine.Init;
      match phase {
        case ParsingRequestLine => parser := RequestLine.Init();
        case TryConnectionIp => SetInterests(NOOP, WRITE);
        case SendDohRequest => SendDohOnArrival();
        case AwaitDohResponse =>
          InitDohState(env);
          SetInterests(NOOP, READ);
        case SendRequestLine => SendLineOnArrival();
        case Connected => SetConnectionInterests();
        case Closing => SetClosingInterests();
        case EmptyBuffers => SetEmptyBuffersInterests();
        case Done => Close();
        case Error => ErrorOnArrival();
      }
    }

    /** `jump` */
    method JumpTo(next: Phase, env: Env)
      requires Valid() && (next != phase ==> Room(cfg, View(), next))
      modifies this, originBuffer, originBuffer.data
      ensures Valid() && View() == Jump(cfg, Step(old(View()), next), env)
    {
      hide Arrive, Buffer.View, Room;
      if life != Running || next == phase {
        return;
      }
      RoomPhase(cfg, View(), next);
      phase := next;
      OnArrival(env);
    }

    // ---- stm.c ---------------------------------------------------------------------------------------------

    /** `handle_first` */
    method HandleFirst()
      requires Valid()
      modifies `started, `parser
      ensures Valid() && View() == Begin(old(View()))
    {
      hide RequestLine.Init;
      if !started {
        started := true;
        parser := RequestLine.Init();
      }
    }

    /** `stm_handler_read` */
    method StmHandlerRead(onClient: bool, env: Env)
      requires Valid() && View().Sound() && clientBuffer.View().Ok() && originBuffer.View().Ok()
      modifies this, clientBuffer, clientBuffer.data, originBuffer, originBuffer.data
      ensures Valid() && View() == StmRead(cfg, old(View()), onClient, env)
    {
      hide Buffer.View, Buf.Ok, Conn.Sound, Begin, ParsingRead, AwaitRead, ConnectedRead, ClosingRead, Jump, Room;
      ghost var c := View();
      HandleFirst();
      BeginFacts(c);
      ghost var b := View();
      var next := phase;
      if phase == ParsingRequestLine {
        ParsingNext(b, env);
        next := ParsingOnReadReady(env);
      } else if phase == AwaitDohResponse {
        AwaitNext(b, env);
        next := AwaitOnReadReady(env);
      } else if phase == Connected {
        RelayNext(b, onClient);
        next := ConnectedOnReadReady();
      } else if phase == Closing {
        RelayNext(b, onClient);
        next := ClosingOnReadReady(onClient);
      } else {
        life := Crashed;
        return;
      }
      NoTextNeeded(cfg, View(), next);
      JumpTo(next, env);
    }

    /** `stm_handler_write` */
    method StmHandlerWrite(connected: bool, env: Env)
      requires Valid() && Ready(cfg, View())
      modifies this, clientBuffer, clientBuffer.data, originBuffer, originBuffer.data
      ensures Valid() && View() == StmWrite(cfg, old(View()), connected, env)
    {
      hide Buffer.View, Begin, TryWrite, ConnectedInterests, ClosingInterests, EmptyWrite, Jump, Room, Ready, Buffer.CanRead;
      ghost var c := View();
      HandleFirst();
      BeginWrite(cfg, c);
      var next := phase;
      if phase == TryConnectionIp {
        ReadyRoom(cfg, View(), connected, env);
        next := TryConnectionOnWriteReady(connected, env);
      } else if phase == SendDohRequest {
        next := if originBuffer.CanRead() then phase else AwaitDohResponse;
      } else if phase == SendRequestLine {
        next := if originBuffer.CanRead() then phase else Connected;
      } else if phase == Connected {
        SetConnectionInterests();
        InterestsPhase(Begin(c));
      } else if phase == Closing {
        SetClosingInterests();
        InterestsPhase(Begin(c));
      } else if phase == EmptyBuffers {
        EmptyNext(View());
        next := EmptyBuffersOnWriteReady();
      } else if phase == Error {
        next := if originBuffer.CanRead() then phase else Done;
      } else {
        life := Crashed;
        return;
      }
      NoTextNeeded(cfg, View(), next);
      JumpTo(next, env);
    }

    // ---- connections_manager.c -----------------------------------------------------------------------------

    /** `proxy_client_read` */
    method ProxyClientRead(got: Received, env: Env)
      requires Valid() && View().Sound() && clientBuffer.View().Ok() && originBuffer.View().Ok()
      requires got.Data? ==> 1 <= |got.bytes| <= clientBuffer.View().Free()
      modifies this, clientBuffer, clientBuffer.data, originBuffer, originBuffer.data
      ensures Valid() && View() == ClientRead(cfg, old(View()), got, env)
    {
      hide Buffer.View, Buf.Ok, Conn.Sound, End, StmRead, BeforeConnected, Buf.Push, Buf.Free;
      ghost var c := View();
      match got {
        case ReadFailed => Close();
        case Eof =>
          wire := wire.(clientEof := true);
          if BeforeConnected(phase) {
            Close();
          } else {
            clientStatus := ClosingStatus;
            SoundSame(c, View());
            StmHandlerRead(true, env);
          }
        case Data(bytes) =>
          PushOk(c.clientBuffer, bytes);
          clientBuffer.Append(bytes);
          wire := wire.(clientIn := wire.clientIn + bytes);
          SoundSame(c, View());
          StmHandlerRead(true, env);
      }
    }

    /** `proxy_origin_read` */
    method ProxyOriginRead(got: Received, env: Env)
      requires Valid() && View().Sound() && clientBuffer.View().Ok() && originBuffer.View().Ok()
      requires got.Data? ==> 1 <= |got.bytes| <= originBuffer.View().Free()
      modifies this, clientBuffer, clientBuffer.data, originBuffer, originBuffer.data
      ensures Valid() && View() == OriginRead(cfg, old(View()), got, env)
    {
      hide Buffer.View, Buf.Ok, Conn.Sound, End, StmRead, Buf.Push, Buf.Free;
      ghost var c := View();
      match got {
        case ReadFailed => Close();
        case Eof =>
          wire := wire.(originEof := true);
          originStatus := ClosingStatus;
          SoundSame(c, View());
          StmHandlerRead(false, env);
        case Data(bytes) =>
          PushOk(c.originBuffer, bytes);
          originBuffer.Append(bytes);
          wire := wire.(originIn := wire.originIn + bytes);
          SoundSame(c, View());
          StmHandlerRead(false, env);
      }
    }

    /** `proxy_client_write` */
    method ProxyClientWrite(sent: int)
      requires Valid() && sent <= |originBuffer.View().pending| && phase != TryConnectionIp
      modifies this, clientBuffer, clientBuffer.data, originBuffer, originBuffer.data
      ensures Valid() && View() == ClientWrite(cfg, old(View()), sent)
    {
      hide End, StmWrite, Buf.Advance, Room;
      if sent <= 0 {
        Close();
        return;
      }
      wire := wire.(clientOut := wire.clientOut + originBuffer.View().pending[..sent]);
      originBuffer.ReadAdvance(sent);
      StmHandlerWrite(false, Env([], true, true));
    }

    /** `proxy_origin_write` */
    method ProxyOriginWrite(sent: int, connected: bool, env: Env)
      requires Valid() && sent <= |Outgoing(View()).pending| && Ready(cfg, View())
      modifies this, clientBuffer, clientBuffer.data, originBuffer, originBuffer.data
      ensures Valid() && View() == OriginWrite(cfg, old(View()), sent, connected, env)
    {
      hide End, StmWrite, Buf.Advance, Room;
      if phase == TryConnectionIp {
        StmHandlerWrite(connected, env);
      } else if sent <= 0 {
        Close();
      } else if phase == SendRequestLine || phase == SendDohRequest {
        wire := wire.(originOut := wire.originOut + originBuffer.View().pending[..sent]);
        originBuffer.ReadAdvance(sent);
        StmHandlerWrite(connected, env);
      } else {
        wire := wire.(originOut := wire.originOut + clientBuffer.View().pending[..sent]);
        clientBuffer.ReadAdvance(sent);
        StmHandlerWrite(connected, env);
      }
    }

    /** Any event the selector delivers: the object takes the machine's step, and what holds on every run of the
        machine holds of the object. */
    method Handle(e: Event)
      requires Valid() && Inv(View()) && Enabled(View(), e) && Fits(cfg)
      modifies this, clientBuffer, clientBuffer.data, originBuffer, originBuffer.data
      ensures Valid() && old(View()).Sound() && View() == Next(cfg, old(View()), e)
      ensures StepProof.Good(View())
    {
      hide Buffer.View, Inv, Conn.Sound, ClientRead, ClientWrite, OriginRead, OriginWrite, Buf.Ok, Ready, StepProof.Good;
      Runs.InvSound(View());
      InvReady(cfg, View(), e);
      Runs.StepOk(cfg, View(), e);
      match e {
        case ClientReadable(got, env) => ProxyClientRead(got, env);
        case ClientWritable(sent) => ProxyClientWrite(sent);
        case OriginReadable(got, env) => ProxyOriginRead(got, env);
        case OriginWritable(sent, connected, env) => ProxyOriginWrite(sent, connected, env);
      }
    }
  }

  /** The loop of `parsing_host_on_read_ready`: bytes go to the parser until it stops or they run out. */
  method ParseLine(b: Buffer, p0: RequestLine.Parser) returns (p: RequestLine.Parser, ghost taken: nat)
    requires b.Valid() && b.View().Ok() && p0.InBounds()
    modifies b, b.data
    ensures b.Valid() && taken <= |old(b.View()).pending| && b.View() == old(b.View()).Advance(taken)
    ensures (p, taken) == RequestLine.Consume(p0, old(b.View()).pending)
  {
    hide RequestLine.Feed, RequestLine.Parser.InBounds, RequestLine.Parser.Terminal, RequestLine.Consume, Buf.Advance, Buf.Ok, Consumed,
      Buffer.View, Buffer.CanRead;
    ghost var b0 := b.View();
    p, taken := p0, 0;
    AdvanceNothing(b0);
    ConsumeSome(p0, b0.pending, 0, p);
    while b.CanRead() && !p.Terminal()
      invariant b.Valid() && p.InBounds() && taken <= |b0.pending|
      invariant b.View() == b0.Advance(taken)
      invariant Consumed(p0, b0.pending, taken, p)
      decreases |b0.pending| - taken
    {
      AdvanceOneMore(b0, taken);
      var c := b.ReadByte();
      ConsumeNext(p0, b0.pending, taken, p);
      p := RequestLine.Feed(p, c);
      taken := taken + 1;
    }
    AdvanceOneMore(b0, taken);
    ConsumeEnd(p0, b0.pending, taken, p);
  }

  /** The loop of `await_doh_response_on_read_ready`: each byte goes to the first parser that is not done. */
  method ParseResponse(b: Buffer, f0: Framing.Frame, alloc: bool) returns (f: Framing.Frame)
    requires b.Valid() && b.View().Ok() && f0.Valid()
    modifies b, b.data
    ensures b.Valid()
    ensures var (g, k) := Framing.Drain(f0, old(b.View()).pending, alloc); f == g && b.View() == old(b.View()).Advance(k)
  {
    hide Framing.Step, Framing.Stopped, Framing.Drain, Framing.Frame.Valid, Buf.Advance, Buf.Ok, DrainedTo, Buffer.View, Buffer.CanRead;
    f := f0;
    ghost var b0 := b.View();
    ghost var taken: nat := 0;
    AdvanceNothing(b0);
    DrainNone(f0, b0.pending, alloc);
    while b.CanRead() && !Framing.Stopped(f)
      invariant b.Valid() && f.Valid() && taken <= |b0.pending|
      invariant b.View() == b0.Advance(taken)
      invariant DrainedTo(f0, b0.pending, taken, f, alloc)
      decreases |b0.pending| - taken
    {
      AdvanceOneMore(b0, taken);
      var c := b.ReadByte();
      DrainNext(f0, b0.pending, taken, f, alloc);
      f := Framing.Step(f, c, alloc);
      taken := taken + 1;
    }
    AdvanceOneMore(b0, taken);
    DrainEnd(f0, b0.pending, taken, f, alloc);
  }

  lemma SoundSame(c: Conn, n: Conn)
    requires c.Sound() && n.parser == c.parser && n.doh == c.doh && n.phase == c.phase
    ensures n.Sound()
  {
  }

  lemma PushOk(b: Buf, bytes: seq<byte>)
    requires b.Ok() && |bytes| <= b.Free() && bytes != []
    ensures b.Push(bytes).Ok()
  {
  }

  /** The invariant gives every handler what it needs of its caller. */
  lemma InvReady(cfg: Config, c: Conn, e: Event)
    requires Inv(c) && Fits(cfg) && Enabled(c, e)
    ensures c.clientBuffer.Ok() && c.originBuffer.Ok() && Ready(cfg, c)
    ensures e.ClientWritable? ==> c.phase != TryConnectionIp
  {
    hide Streams, Names, Conn.Sound, AwaitShape, DohQuery.Request;
    if c.phase == TryConnectionIp {
      DohQuery.RequestLength(cfg.dohPath, cfg.dohHost, c.request.domain, 0, WantedKind(QueryType(c)));
    }
  }

  lemma BeginFacts(c: Conn)
    requires c.Sound()
    ensures var b := Begin(c);
            && b.parser.InBounds() && (b.phase == AwaitDohResponse && b.doh.Some? ==> b.doh.value.frame.Valid())
            && b.clientBuffer == c.clientBuffer && b.originBuffer == c.originBuffer && b.phase == c.phase && b.doh == c.doh
  {
  }

  lemma BeginWrite(cfg: Config, c: Conn)
    requires Ready(cfg, c)
    ensures Ready(cfg, Begin(c))
  {
    hide DohQuery.Request, RequestLine.Init;
  }

  /** TRY_CONNECTION_IP leaves room for whatever is sent next. */
  ghost predicate Ready(cfg: Config, c: Conn) {
    c.phase == TryConnectionIp ==> Room(cfg, c, SendDohRequest) && Room(cfg, c, SendRequestLine)
  }

  lemma ReadyRoom(cfg: Config, c: Conn, connected: bool, env: Env)
    requires Ready(cfg, c) && c.phase == TryConnectionIp
    ensures var st := TryWrite(c, connected, env); st.next != st.c.phase ==> Room(cfg, st.c, st.next)
    ensures TryWrite(c, connected, env).c.phase == c.phase
  {
    hide TryNextDns, DohText, StatusText;
    if c.doh.Some? {
      TryNextNext(c, c.doh.value, env.sockets);
    }
  }

  lemma NoTextNeeded(cfg: Config, c: Conn, next: Phase)
    ensures next != SendDohRequest && next != SendRequestLine ==> Room(cfg, c, next)
  {
    hide DohText;
  }

  /** Where the handlers can lead. */
  lemma TryNextNext(c: Conn, d: Doh, sockets: seq<Socket>)
    ensures var st := TryNextDns(c, d, sockets);
            st.c.phase == c.phase && (st.next == c.phase || st.next == Error || st.next == TryConnectionIp)
  {
    hide NextAddress, AttemptsAt;
  }

  lemma AfterNext(c: Conn, d: Doh, env: Env)
    ensures var st := AfterResponse(c, d, env);
            st.c.phase == c.phase && (st.next == c.phase || st.next == Error || st.next == TryConnectionIp)
  {
    hide TryNextDns;
    var r := ResponseOf(c, d);
    TryNextNext(c.(wire := c.wire.(originShut := c.wire.originShut + 1), log := c.log.(responses := c.log.responses + [r])), d, env.sockets);
  }

  lemma ResolvedNext(c: Conn, d: Doh, v: Framing.Verdict, env: Env)
    ensures var st := Resolved(c, d, v, env);
            st.c.phase == c.phase && (st.next == c.phase || st.next == Error || st.next == TryConnectionIp)
  {
    hide AfterResponse;
    AfterNext(c, d, env);
    AfterNext(c.(originBuffer := EMPTY), d, env);
  }

  lemma AwaitNext(c: Conn, env: Env)
    requires c.doh.Some? ==> c.doh.value.frame.Valid()
    ensures var st := AwaitRead(c, env);
            st.c.phase == c.phase && (st.next == c.phase || st.next == Error || st.next == TryConnectionIp)
  {
    hide Framing.Drain, Framing.Judge, Framing.Frame.Valid, Resolved, AfterResponse, Buf.Advance;
    if c.doh.Some? {
      AfterNext(c, c.doh.value, env);
      if c.originBuffer.CanRead() {
        var d := c.doh.value;
        var (f, k) := Framing.Drain(d.frame, c.originBuffer.pending, env.answersAlloc);
        var gotArray := d.frame.dns.answers.None? && f.dns.answers.Some?;
        ResolvedNext(c.(doh := Some(d.(frame := f)), originBuffer := c.originBuffer.Advance(k),
                        log := if gotArray then c.log.(allocs := c.log.allocs + 1) else c.log), d.(frame := f), Framing.Judge(f), env);
      }
    }
  }

  lemma ParsingNext(c: Conn, env: Env)
    requires c.parser.InBounds()
    ensures var st := ParsingRead(c, env);
            st.c.phase == c.phase && (st.next == c.phase || st.next == Error || st.next == TryConnectionIp)
  {
    hide RequestLine.Consume, RequestLine.Parser.InBounds, BuildRequest, Buf.Advance;
  }

  lemma RelayNext(c: Conn, onClient: bool)
    ensures var st := ConnectedRead(c); st.c.phase == c.phase && (st.next == c.phase || st.next == Closing)
    ensures var st := ClosingRead(c, onClient); st.c.phase == c.phase && (st.next == c.phase || st.next == Done || st.next == EmptyBuffers)
  {
    hide ConnectedInterests, ClosingInterests;
    InterestsPhase(c);
  }

  lemma EmptyNext(c: Conn)
    ensures var st := EmptyWrite(c); st.c.phase == c.phase && (st.next == c.phase || st.next == Done)
  {
    hide EmptyInterests;
    InterestsPhase(c);
  }

  lemma InterestsPhase(c: Conn)
    ensures ConnectedInterests(c).phase == c.phase && ClosingInterests(c).phase == c.phase && EmptyInterests(c).phase == c.phase
  {
  }

  /** What entering a state puts in the origin buffer fits there. */
  ghost predicate Room(cfg: Config, c: Conn, next: Phase) {
    && (next == SendDohRequest ==> |DohText(cfg, c)| <= c.originBuffer.Free())
    && (next == SendRequestLine ==> |c.request.line| <= c.originBuffer.Free())
  }

  lemma RoomPhase(cfg: Config, c: Conn, next: Phase)
    requires Room(cfg, c, next)
    ensures Room(cfg, c.(phase := next), next)
  {
    hide DohQuery.Request;
  }

  lemma ErrorTextShort(code: u16)
    ensures |StatusText(code, ReasonPhrase(code))| <= CAPACITY
  {
  }

  /** `taken` bytes have gone through the three parsers, which are now `g`. */
  ghost predicate DrainedTo(f: Framing.Frame, s: seq<byte>, taken: nat, g: Framing.Frame, alloc: bool) {
    && f.Valid() && g.Valid() && taken <= |s|
    && Framing.Drain(f, s, alloc) == (Framing.Drain(g, s[taken..], alloc).0, taken + Framing.Drain(g, s[taken..], alloc).1)
  }

  lemma DrainNone(f: Framing.Frame, s: seq<byte>, alloc: bool)
    requires f.Valid()
    ensures DrainedTo(f, s, 0, f, alloc)
  {
    hide Framing.Drain, Framing.Frame.Valid;
    assert s[0..] == s;
  }

  lemma DrainNext(f: Framing.Frame, s: seq<byte>, taken: nat, g: Framing.Frame, alloc: bool)
    requires DrainedTo(f, s, taken, g, alloc) && taken < |s| && !Framing.Stopped(g)
    ensures DrainedTo(f, s, taken + 1, Framing.Step(g, s[taken], alloc), alloc)
  {
    hide Framing.Step, Framing.Stopped, Framing.Frame.Valid;
    assert s[taken..][1..] == s[taken + 1..];
  }

  lemma DrainEnd(f: Framing.Frame, s: seq<byte>, taken: nat, g: Framing.Frame, alloc: bool)
    requires DrainedTo(f, s, taken, g, alloc) && (taken == |s| || Framing.Stopped(g))
    ensures Framing.Drain(f, s, alloc) == (g, taken)
  {
    hide Framing.Step, Framing.Stopped, Framing.Frame.Valid;
  }

  /** `taken` bytes have gone to the parser, which is now `q`. */
  ghost predicate Consumed(p: RequestLine.Parser, s: seq<byte>, taken: nat, q: RequestLine.Parser) {
    && p.InBounds() && q.InBounds() && taken <= |s|
    && RequestLine.Consume(p, s) == (RequestLine.Consume(q, s[taken..]).0, taken + RequestLine.Consume(q, s[taken..]).1)
  }

  lemma ConsumeSome(p: RequestLine.Parser, s: seq<byte>, taken: nat, q: RequestLine.Parser)
    requires p.InBounds() && q == p && taken == 0
    ensures Consumed(p, s, taken, q)
  {
    hide RequestLine.Feed, RequestLine.Parser.InBounds, RequestLine.Parser.Terminal;
    assert s[0..] == s;
  }

  lemma ConsumeNext(p: RequestLine.Parser, s: seq<byte>, taken: nat, q: RequestLine.Parser)
    requires Consumed(p, s, taken, q) && taken < |s| && !q.Terminal()
    ensures Consumed(p, s, taken + 1, RequestLine.Feed(q, s[taken]))
  {
    hide RequestLine.Feed, RequestLine.Parser.InBounds, RequestLine.Parser.Terminal;
    assert s[taken..][1..] == s[taken + 1..];
  }

  lemma ConsumeEnd(p: RequestLine.Parser, s: seq<byte>, taken: nat, q: RequestLine.Parser)
    requires Consumed(p, s, taken, q) && (taken == |s| || q.Terminal())
    ensures RequestLine.Consume(p, s) == (q, taken)
  {
    hide RequestLine.Feed, RequestLine.Parser.InBounds, RequestLine.Parser.Terminal;
  }

  lemma OkLineFits()
    ensures |OK_LINE| <= CAPACITY
  {
  }

  lemma AdvanceNothing(b: Buf)
    requires b.Ok()
    ensures b.Advance(0) == b
  {
  }

  /** One more byte taken out of a buffer that has been read from. */
  lemma AdvanceOneMore(b: Buf, taken: nat)
    requires b.Ok() && taken <= |b.pending|
    ensures b.Advance(taken).pending == b.pending[taken..] && b.Advance(taken).Ok()
    ensures taken < |b.pending| ==> b.Advance(taken).Advance(1) == b.Advance(taken + 1) && b.Advance(taken).pending[0] == b.pending[taken]
  {
    if taken < |b.pending| {
      AdvanceTwice(b, taken, 1);
    }
  }
}
