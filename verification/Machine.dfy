/** One proxied connection as a state machine over selector events. */
module Machine {
  import opened Bytes
  import opened Buffers
  import RequestLine
  import Rewrite
  import Dns
  import DohQuery
  import Framing
  import opened Failover

  // ---- data -------------------------------------------------------------------------------

  datatype Phase =
    | ParsingRequestLine | TryConnectionIp | SendDohRequest | AwaitDohResponse | SendRequestLine
    | Connected | Closing | EmptyBuffers | Done | Error

  datatype Status = InactiveStatus | ActiveStatus | ClosingStatus | ClosedStatus

  /** `Ended`: unregistered and freed. `Hung`: a loop that never returns. `Crashed`: a NULL dereference or
      `abort`. `Unmodelled`: a bracketed IPv6 host. */
  datatype Life = Running | Ended | Hung | Crashed | Unmodelled

  datatype Interest = Interest(read: bool, write: bool)

  const NOOP := Interest(false, false)
  const READ := Interest(true, false)
  const WRITE := Interest(false, true)

  datatype Family = Ipv4Try | Ipv6Try

  datatype Doh = Doh(active: bool, currentTry: byte, family: Family, frame: Framing.Frame)

  datatype Request = Request(connect: bool, isDomain: bool, line: seq<byte>, domain: seq<byte>)

  /** An address handed to `connect` on behalf of a domain name. */
  datatype Attempt = Attempt(family: Family, ip: seq<byte>, port: u16)

  /** A resolver's answer as the failover loop finds it, and the bytes it was read from. */
  datatype Response = Response(family: Family, rcode: nat, answers: seq<Dns.Answer>, bytes: seq<byte>)

  /** What has happened on the wire so far. The origin fields are about the current origin socket. */
  datatype Wire = Wire(clientIn: seq<byte>, clientOut: seq<byte>, originIn: seq<byte>, originOut: seq<byte>,
                       clientEof: bool, originEof: bool, clientShut: nat, originShut: nat)

  /** What has happened inside: request bytes parsed and dropped, DNS traffic, answer arrays. */
  datatype Log = Log(lineLength: nat, dropped: seq<byte>, queries: seq<Family>, responses: seq<Response>,
                     attempts: seq<Attempt>, allocs: nat, frees: nat)

  datatype Conn = Conn(life: Life, phase: Phase, started: bool, error: u16,
                       clientStatus: Status, originStatus: Status,
                       clientInterest: Interest, originInterest: Interest, originRegistered: bool,
                       clientBuffer: Buf, originBuffer: Buf,
                       parser: RequestLine.Parser, request: Request, doh: Option<Doh>,
                       wire: Wire, log: Log) {
    /** The representation the parsers need. */
    ghost predicate Sound() {
      parser.InBounds() && (phase == AwaitDohResponse && doh.Some? ==> doh.value.frame.Valid())
    }
  }

  datatype Config = Config(dohPath: seq<byte>, dohHost: seq<byte>)

  // ---- events -----------------------------------------------------------------------------

  datatype Received = Data(bytes: seq<byte>) | Eof | ReadFailed

  /** Outcomes of the foreign calls an event may make. */
  datatype Env = Env(sockets: seq<Socket>, dohAlloc: bool, answersAlloc: bool)

  datatype Event =
    | ClientReadable(got: Received, env: Env)
    | ClientWritable(sent: int)
    | OriginReadable(got: Received, env: Env)
    | OriginWritable(sent: int, connected: bool, env: Env)

  /** The selector delivers an event only when the current interest allows it; a read returns at most the free
      space and a write takes at most what is pending. */
  predicate Enabled(c: Conn, e: Event) {
    && c.life == Running
    && match e
       case ClientReadable(got, _) => c.clientInterest.read && (got.Data? ==> 1 <= |got.bytes| <= c.clientBuffer.Free())
       case ClientWritable(sent) => c.clientInterest.write && sent <= |c.originBuffer.pending|
       case OriginReadable(got, _) =>
         c.originRegistered && c.originInterest.read && (got.Data? ==> 1 <= |got.bytes| <= c.originBuffer.Free())
       case OriginWritable(sent, _, _) =>
         c.originRegistered && c.originInterest.write && sent <= |Outgoing(c).pending|
  }

  /** The buffer a write to the origin takes its bytes from. */
  function Outgoing(c: Conn): Buf {
    if c.phase == SendRequestLine || c.phase == SendDohRequest then c.originBuffer else c.clientBuffer
  }

  function Fresh(): Conn {
    Conn(Running, ParsingRequestLine, false, 0, ActiveStatus, InactiveStatus, READ, NOOP, false, EMPTY, EMPTY,
         RequestLine.Init(), Request(false, false, [], []), None,
         Wire([], [], [], [], false, false, 0, 0), Log(0, [], [], [], [], 0, 0))
  }

  // ---- closing and errors -------------------------------------------------------------------

  const BAD_REQUEST := 400
  const INTERNAL_SERVER_ERROR := 500
  const NOT_IMPLEMENTED := 501
  const BAD_GATEWAY := 502
  const HTTP_VERSION_NOT_SUPPORTED := 505

  function ReasonPhrase(code: nat): string {
    if code == 400 then "BAD REQUEST" else if code == 401 then "UNAUTHORIZED" else if code == 403 then "FORBIDDEN"
    else if code == 404 then "NOT_FOUND" else if code == 405 then "METHOD_NOT_ALLOWED"
    else if code == 407 then "PROXY AUTHENTICATION REQUIRED" else if code == 414 then "URI TOO LONG"
    else if code == 501 then "NOT IMPLEMENTED" else if code == 502 then "BAD GATEWAY"
    else if code == 505 then "HTTP VERSION NOT SUPPORTED" else "INTERNAL SERVER ERROR"
  }

  /** "HTTP/1.0 code reason CRLF CRLF" */
  function StatusText(code: nat, reason: string): (s: seq<byte>)
    ensures s != []
  {
    DohQuery.Ascii("HTTP/1.0 ") + Decimal(code) + [SP] + DohQuery.Ascii(reason) + [CR, LF, CR, LF]
  }

  /** `selector_set_interest` on the origin: no effect when it is not registered. */
  function SetOrigin(c: Conn, i: Interest): Conn { if c.originRegistered then c.(originInterest := i) else c }

  function UnregisterOrigin(c: Conn): Conn { c.(originRegistered := false, originInterest := NOOP) }

  /** `doh_response_parser_destroy` */
  function FreeAnswers(c: Conn, d: Doh): Conn {
    c.(doh := Some(d.(frame := d.frame.(dns := Dns.Destroy(d.frame.dns)))),
       log := if d.frame.dns.answers.Some? then c.log.(frees := c.log.frees + 1) else c.log)
  }

  /** Both descriptors leave the selector and `free_connection_data` runs. */
  function End(c: Conn): Conn {
    var u := (if c.originStatus != InactiveStatus then UnregisterOrigin(c) else c).(life := Ended, clientInterest := NOOP);
    if u.doh.Some? && u.doh.value.active then FreeAnswers(u, u.doh.value) else u
  }

  // ---- relay interests -----------------------------------------------------------------------

  function ConnectedInterests(c: Conn): Conn {
    SetOrigin(c.(clientInterest := Interest(c.clientBuffer.CanWrite(), c.originBuffer.CanRead())),
              Interest(c.originBuffer.CanWrite(), c.clientBuffer.CanRead()))
  }

  function IsClosing(s: Status): bool { s == ClosingStatus || s == ClosedStatus }

  function ShutClient(c: Conn): Conn {
    c.(originStatus := ClosedStatus, wire := c.wire.(clientShut := c.wire.clientShut + 1))
  }

  function ShutOrigin(c: Conn): Conn {
    c.(clientStatus := ClosedStatus, wire := c.wire.(originShut := c.wire.originShut + 1))
  }

  function ClosingInterests(c: Conn): Conn {
    var o := IsClosing(c.originStatus);
    var k := IsClosing(c.clientStatus);
    var ci := Interest(o && c.clientBuffer.CanWrite(), (o || k) && c.originBuffer.CanRead());
    var oi := Interest(k && c.originBuffer.CanWrite(), (o || k) && c.clientBuffer.CanRead());
    var c1 := if c.originStatus == ClosingStatus && !c.originBuffer.CanRead() then ShutClient(c) else c;
    var c2 := if c1.clientStatus == ClosingStatus && !c1.clientBuffer.CanRead() then ShutOrigin(c1) else c1;
    SetOrigin(c2.(clientInterest := ci), oi)
  }

  function EmptyInterests(c: Conn): Conn {
    var c1 := if c.clientStatus == ClosingStatus && !c.clientBuffer.CanRead() then ShutOrigin(c) else c;
    var c2 := if c1.originStatus == ClosingStatus && !c1.originBuffer.CanRead() then ShutClient(c1) else c1;
    SetOrigin(c2.(clientInterest := Interest(false, c.originBuffer.CanRead())), Interest(false, c.clientBuffer.CanRead()))
  }

  // ---- name resolution -----------------------------------------------------------------------

  /** A handler's result: the connection and the state to go to. */
  datatype Step = Step(c: Conn, next: Phase)

  function Fail(c: Conn, code: u16): Step { Step(c.(error := code), Error) }

  /** A fresh origin socket, registered for writing. */
  function NewOrigin(c: Conn): Conn {
    c.(originStatus := ActiveStatus, originRegistered := true, originInterest := WRITE,
       wire := c.wire.(originIn := [], originOut := [], originEof := false, originShut := 0))
  }

  /** `establish_origin_connection` followed by `register_origin_socket`. */
  function OpenOrigin(c: Conn, sockets: seq<Socket>): Step {
    if sockets == [] || sockets[0] == NoSocket then Fail(c, INTERNAL_SERVER_ERROR)
    else if sockets[0] == NotRegistered then Fail(c.(originStatus := ActiveStatus), INTERNAL_SERVER_ERROR)
    else Step(NewOrigin(c), TryConnectionIp)
  }

  /** The switch from A to AAAA: the answers are freed and the resolver is asked again. */
  function SwitchToIpv6(c: Conn, d: Doh, sockets: seq<Socket>): Step {
    OpenOrigin(FreeAnswers(c, d.(active := false, family := Ipv6Try)), sockets)
  }

  function WantedKind(f: Family): nat { if f == Ipv4Try then Dns.IPV4_TYPE else Dns.IPV6_TYPE }

  function AddressOf(a: Dns.Answer, f: Family): seq<byte>
    requires |a.ip| == 16
  {
    if f == Ipv4Try then a.ip[..4] else a.ip
  }

  /** The attempts made at the answers with the given indices. */
  function AttemptsAt(answers: seq<Dns.Answer>, tried: seq<nat>, f: Family, port: u16): (r: seq<Attempt>)
    requires forall j :: 0 <= j < |tried| ==> tried[j] < |answers| && |answers[tried[j]].ip| == 16
    ensures |r| == |tried|
  {
    seq(|tried|, j requires 0 <= j < |tried| => Attempt(f, AddressOf(answers[tried[j]], f), port))
  }

  /** Guards the log against indices the walk never produces. */
  function LogTried(c: Conn, answers: seq<Dns.Answer>, tried: seq<nat>, f: Family): Conn {
    if forall j :: 0 <= j < |tried| ==> tried[j] < |answers| && |answers[tried[j]].ip| == 16 then
      c.(log := c.log.(attempts := c.log.attempts + AttemptsAt(answers, tried, f, c.parser.port)))
    else c
  }

  /** `try_next_ipv4_connection` and `try_next_ipv6_connection`. */
  function TryFamily(c: Conn, d: Doh, sockets: seq<Socket>): Step {
    if d.frame.dns.answers.None? then
      if d.currentTry < d.frame.dns.an then Step(c.(life := Crashed), c.phase)
      else OutOfAnswers(c, d, sockets)
    else
      var answers := d.frame.dns.answers.value;
      var w := NextAddress(answers, d.currentTry, WantedKind(d.family), sockets, 256);
      var c1 := LogTried(c, answers, w.tried, d.family);
      match w
      case Spins(_) => Step(c1.(life := Hung), c.phase)
      case Exhausted(k, _) =>
        OutOfAnswers(c1, d.(currentTry := k), if |w.tried| <= |sockets| then sockets[|w.tried|..] else [])
      case Picked(k, socket, _) =>
        var c2 := c1.(doh := Some(d.(currentTry := k)));
        if socket == NotRegistered then Fail(c2.(originStatus := ActiveStatus), INTERNAL_SERVER_ERROR)
        else Step(NewOrigin(c2), TryConnectionIp)
  }

  function OutOfAnswers(c: Conn, d: Doh, sockets: seq<Socket>): Step {
    if d.family == Ipv4Try then SwitchToIpv6(c, d, sockets)
    else Fail(c.(doh := Some(d)), INTERNAL_SERVER_ERROR)
  }

  /** `try_next_dns_connection` */
  function TryNextDns(c: Conn, d: Doh, sockets: seq<Socket>): Step {
    if !c.originRegistered then Fail(c, INTERNAL_SERVER_ERROR)
    else
      var u := UnregisterOrigin(c);
      if d.frame.dns.flags.rcode == 0 then TryFamily(u, d, sockets)
      else if d.family == Ipv4Try then SwitchToIpv6(u, d, sockets)
      else Fail(u, INTERNAL_SERVER_ERROR)
  }

  // ---- handlers ------------------------------------------------------------------------------

  function BuildRequest(q: RequestLine.Parser): Request
    requires q.InBounds()
  {
    Request(Rewrite.IsConnect(q), q.host.Domain?, Rewrite.RequestText(q),
            if q.host.Domain? then CStr(q.host.bytes) else [])
  }

  /** The request line is complete: open the origin or the resolver, then keep what the origin will be sent. */
  function LineComplete(c: Conn, env: Env): Step
    requires c.parser.InBounds()
  {
    var s := OpenOrigin(c, env.sockets);
    if s.next == Error then s
    else
      var r := BuildRequest(c.parser);
      var c1 := s.c.(request := r);
      if r.connect then
        s.(c := c1.(clientBuffer := EMPTY, log := c1.log.(dropped := c1.clientBuffer.pending)))
      else s.(c := c1)
  }

  function ParsingRead(c: Conn, env: Env): Step
    requires c.parser.InBounds()
  {
    var (q, k) := RequestLine.Consume(c.parser, c.clientBuffer.pending);
    var c1 := c.(parser := q, clientBuffer := c.clientBuffer.Advance(k), log := c.log.(lineLength := c.log.lineLength + k));
    match q.state
    case BadMethod => Fail(c1, NOT_IMPLEMENTED)
    case BadVersion => Fail(c1, HTTP_VERSION_NOT_SUPPORTED)
    case Failed => Fail(c1, BAD_REQUEST)
    case Bracketed => Step(c1.(life := Unmodelled), c.phase)
    case Done => LineComplete(c1, env)
    case _ => Step(c1, c.phase)
  }

  /** The answer as it stands. */
  function ResponseOf(c: Conn, d: Doh): Response {
    Response(d.family, d.frame.dns.flags.rcode, if d.frame.dns.answers.Some? then d.frame.dns.answers.value else [], c.wire.originIn)
  }

  /** After the loop: a resolver that has closed is done with, one that has not is waited for. */
  function AfterResponse(c: Conn, d: Doh, env: Env): Step {
    if c.originStatus == ClosingStatus then
      var c1 := c.(wire := c.wire.(originShut := c.wire.originShut + 1), log := c.log.(responses := c.log.responses + [ResponseOf(c, d)]));
      TryNextDns(c1, d, env.sockets)
    else Step(c, c.phase)
  }

  function Resolved(c: Conn, d: Doh, v: Framing.Verdict, env: Env): Step {
    match v
    case BadGateway => Fail(c, BAD_GATEWAY)
    case NoMemory => Fail(c, INTERNAL_SERVER_ERROR)
    case NoRecords =>
      var c1 := c.(log := c.log.(responses := c.log.responses + [ResponseOf(c, d)]));
      if d.family == Ipv6Try then Fail(c1, INTERNAL_SERVER_ERROR)
      else SwitchToIpv6(UnregisterOrigin(c1.(originBuffer := EMPTY)), d, env.sockets)
    case Complete => AfterResponse(c.(originBuffer := EMPTY), d, env)
    case Continue => AfterResponse(c, d, env)
  }

  function AwaitRead(c: Conn, env: Env): Step
    requires c.doh.Some? ==> c.doh.value.frame.Valid()
  {
    if c.error == INTERNAL_SERVER_ERROR then Step(c, Error)
    else if c.doh.None? then Step(c.(life := Crashed), c.phase)
    else
      var d := c.doh.value;
      if !c.originBuffer.CanRead() then AfterResponse(c, d, env)
      else if Framing.Stopped(d.frame) then Step(c.(life := Hung), c.phase)
      else
        var (f, k) := Framing.Drain(d.frame, c.originBuffer.pending, env.answersAlloc);
        var d1 := d.(frame := f);
        var gotArray := d.frame.dns.answers.None? && f.dns.answers.Some?;
        var c1 := c.(doh := Some(d1), originBuffer := c.originBuffer.Advance(k),
                     log := if gotArray then c.log.(allocs := c.log.allocs + 1) else c.log);
        Resolved(c1, d1, Framing.Judge(f), env)
  }

  function ConnectedRead(c: Conn): Step {
    if c.clientStatus == ClosingStatus || c.originStatus == ClosingStatus then Step(c, Closing)
    else Step(ConnectedInterests(c), c.phase)
  }

  /** `onClient`: the event came from the client's descriptor. */
  function ClosingRead(c: Conn, onClient: bool): Step {
    var status := if onClient then c.clientStatus else c.originStatus;
    if status == ClosingStatus then
      if !c.clientBuffer.CanRead() && !c.originBuffer.CanRead() then
        Step(if onClient then c.(wire := c.wire.(originShut := c.wire.originShut + 1))
             else c.(wire := c.wire.(clientShut := c.wire.clientShut + 1)), Done)
      else Step(c, EmptyBuffers)
    else Step(ClosingInterests(c), c.phase)
  }

  const OK_LINE: seq<byte> := StatusText(200, "OK")

  function TryWrite(c: Conn, connected: bool, env: Env): Step {
    if connected then
      if c.request.isDomain && (c.doh.None? || !c.doh.value.active) then Step(c, SendDohRequest)
      else if c.request.connect then Step(c.(originBuffer := EMPTY.Push(OK_LINE)), Connected)
      else Step(c, SendRequestLine)
    else if c.request.isDomain && c.doh.Some? then TryNextDns(c, c.doh.value, env.sockets)
    else Fail(c, INTERNAL_SERVER_ERROR)
  }

  function EmptyWrite(c: Conn): Step {
    var c1 := EmptyInterests(c);
    Step(c1, if c1.clientStatus == ClosedStatus && c1.originStatus == ClosedStatus then Done else c.phase)
  }

  // ---- arrival -------------------------------------------------------------------------------

  function QueryType(c: Conn): Family { if c.doh.None? then Ipv4Try else c.doh.value.family }

  function DohText(cfg: Config, c: Conn): seq<byte> {
    if |c.request.domain| <= DohQuery.MAX_DOMAIN then
      DohQuery.Request(cfg.dohPath, cfg.dohHost, c.request.domain, 0, WantedKind(QueryType(c)))
    else []
  }

  /** `init_doh_state`: parsers back to their start; a first allocation may fail. */
  function InitDoh(c: Conn, env: Env): Conn {
    if c.doh.None? && !env.dohAlloc then c.(error := INTERNAL_SERVER_ERROR)
    else c.(doh := Some(Doh(true, 0, QueryType(c), Framing.Init())))
  }

  function Arrive(cfg: Config, c: Conn, env: Env): Conn {
    match c.phase
    case ParsingRequestLine => c.(parser := RequestLine.Init())
    case TryConnectionIp => SetOrigin(c.(clientInterest := NOOP), WRITE)
    case SendDohRequest =>
      var c1 := c.(originBuffer := c.originBuffer.Push(DohText(cfg, c)), log := c.log.(queries := c.log.queries + [QueryType(c)]));
      SetOrigin(c1.(clientInterest := NOOP), WRITE)
    case AwaitDohResponse => SetOrigin(InitDoh(c, env).(clientInterest := NOOP), READ)
    case SendRequestLine =>
      SetOrigin(c.(originBuffer := c.originBuffer.Push(c.request.line), clientInterest := NOOP), WRITE)
    case Connected => ConnectedInterests(c)
    case Closing => ClosingInterests(c)
    case EmptyBuffers => EmptyInterests(c)
    case Done => End(c)
    case Error =>
      SetOrigin(c.(originBuffer := EMPTY.Push(StatusText(c.error, ReasonPhrase(c.error))), clientInterest := WRITE), NOOP)
  }

  function Jump(cfg: Config, s: Step, env: Env): Conn {
    if s.c.life != Running || s.next == s.c.phase then s.c else Arrive(cfg, s.c.(phase := s.next), env)
  }

  /** `handle_first` */
  function Begin(c: Conn): Conn {
    if c.started then c else c.(started := true, parser := RequestLine.Init())
  }

  /** The states whose table entry has a read handler, and a write handler. */
  predicate HasRead(p: Phase) { p == ParsingRequestLine || p == AwaitDohResponse || p == Connected || p == Closing }

  predicate HasWrite(p: Phase) {
    || p == TryConnectionIp || p == SendDohRequest || p == SendRequestLine || p == Connected || p == Closing
    || p == EmptyBuffers || p == Error
  }

  function StmRead(cfg: Config, c: Conn, onClient: bool, env: Env): Conn
    requires c.Sound()
  {
    var b := Begin(c);
    if b.phase == ParsingRequestLine then Jump(cfg, ParsingRead(b, env), env)
    else if b.phase == AwaitDohResponse then Jump(cfg, AwaitRead(b, env), env)
    else if b.phase == Connected then Jump(cfg, ConnectedRead(b), env)
    else if b.phase == Closing then Jump(cfg, ClosingRead(b, onClient), env)
    else b.(life := Crashed)
  }

  function StmWrite(cfg: Config, c: Conn, connected: bool, env: Env): Conn {
    var b := Begin(c);
    if b.phase == TryConnectionIp then Jump(cfg, TryWrite(b, connected, env), env)
    else if b.phase == SendDohRequest then
      Jump(cfg, Step(b, if b.originBuffer.CanRead() then b.phase else AwaitDohResponse), env)
    else if b.phase == SendRequestLine then
      Jump(cfg, Step(b, if b.originBuffer.CanRead() then b.phase else Connected), env)
    else if b.phase == Connected then Jump(cfg, Step(ConnectedInterests(b), b.phase), env)
    else if b.phase == Closing then Jump(cfg, Step(ClosingInterests(b), b.phase), env)
    else if b.phase == EmptyBuffers then Jump(cfg, EmptyWrite(b), env)
    else if b.phase == Error then Jump(cfg, Step(b, if b.originBuffer.CanRead() then b.phase else Done), env)
    else b.(life := Crashed)
  }

  // ---- events --------------------------------------------------------------------------------

  /** `stm_state(...) < CONNECTED` */
  predicate BeforeConnected(p: Phase) {
    || p == ParsingRequestLine || p == TryConnectionIp || p == SendDohRequest || p == AwaitDohResponse
    || p == SendRequestLine
  }

  /** `proxy_client_read` */
  function ClientRead(cfg: Config, c: Conn, got: Received, env: Env): Conn
    requires c.Sound()
  {
    match got
    case ReadFailed => End(c)
    case Eof =>
      if BeforeConnected(c.phase) then
        End(c.(wire := c.wire.(clientEof := true)))
      else StmRead(cfg, c.(clientStatus := ClosingStatus, wire := c.wire.(clientEof := true)), true, env)
    case Data(bytes) =>
      StmRead(cfg, c.(clientBuffer := c.clientBuffer.Push(bytes), wire := c.wire.(clientIn := c.wire.clientIn + bytes)), true, env)
  }

  /** `proxy_client_write` */
  function ClientWrite(cfg: Config, c: Conn, sent: int): Conn
    requires sent <= |c.originBuffer.pending|
  {
    if sent <= 0 then End(c)
    else
      StmWrite(cfg, c.(originBuffer := c.originBuffer.Advance(sent),
                       wire := c.wire.(clientOut := c.wire.clientOut + c.originBuffer.pending[..sent])), false, Env([], true, true))
  }

  /** `proxy_origin_read` */
  function OriginRead(cfg: Config, c: Conn, got: Received, env: Env): Conn
    requires c.Sound()
  {
    match got
    case ReadFailed => End(c)
    case Eof => StmRead(cfg, c.(originStatus := ClosingStatus, wire := c.wire.(originEof := true)), false, env)
    case Data(bytes) =>
      StmRead(cfg, c.(originBuffer := c.originBuffer.Push(bytes), wire := c.wire.(originIn := c.wire.originIn + bytes)), false, env)
  }

  /** `proxy_origin_write`: in TRY_CONNECTION_IP nothing is sent, readiness means the connect has finished. */
  function OriginWrite(cfg: Config, c: Conn, sent: int, connected: bool, env: Env): Conn
    requires sent <= |Outgoing(c).pending|
  {
    if c.phase == TryConnectionIp then StmWrite(cfg, c, connected, env)
    else if sent <= 0 then End(c)
    else if c.phase == SendRequestLine || c.phase == SendDohRequest then
      StmWrite(cfg, c.(originBuffer := c.originBuffer.Advance(sent),
                       wire := c.wire.(originOut := c.wire.originOut + c.originBuffer.pending[..sent])), connected, env)
    else
      StmWrite(cfg, c.(clientBuffer := c.clientBuffer.Advance(sent),
                       wire := c.wire.(originOut := c.wire.originOut + c.clientBuffer.pending[..sent])), connected, env)
  }

  function Next(cfg: Config, c: Conn, e: Event): Conn
    requires c.Sound() && Enabled(c, e)
  {
    match e
    case ClientReadable(got, env) => ClientRead(cfg, c, got, env)
    case ClientWritable(sent) => ClientWrite(cfg, c, sent)
    case OriginReadable(got, env) => OriginRead(cfg, c, got, env)
    case OriginWritable(sent, connected, env) => OriginWrite(cfg, c, sent, connected, env)
  }
}
