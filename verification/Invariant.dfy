/** What holds in every reachable state of a connection. */
module Invariant {
  import opened Bytes
  import opened Buffers
  import RequestLine
  import Rewrite
  import Dns
  import DohQuery
  import Framing
  import opened Failover
  import opened Machine

  // ---- states, interests, buffers ------------------------------------------------------------

  predicate Relaying(p: Phase) { p == Connected || p == Closing || p == EmptyBuffers }

  predicate Resolving(p: Phase) {
    p == TryConnectionIp || p == SendDohRequest || p == AwaitDohResponse || p == SendRequestLine
  }

  /** A side that has closed stays `ClosingStatus` while its bytes are pending and is `ClosedStatus` after. */
  predicate Drained(s: Status, b: Buf) { IsClosing(s) && (s == ClosedStatus <==> b.pending == []) }

  ghost predicate ParsingShape(c: Conn) {
    && c.clientInterest == READ && !c.originRegistered && c.originInterest == NOOP
    && c.clientBuffer == EMPTY && c.originBuffer == EMPTY && c.error == 0
    && c.clientStatus == ActiveStatus && c.originStatus == InactiveStatus && c.doh.None?
    && (!c.started ==> c.parser == RequestLine.Init())
  }

  ghost predicate ResolvingShape(c: Conn) {
    && c.started && c.clientInterest == NOOP && c.originRegistered
    && c.clientStatus == ActiveStatus && c.originStatus == ActiveStatus
    && c.originInterest == (if c.phase == AwaitDohResponse then READ else WRITE)
    && (c.phase == TryConnectionIp || c.phase == AwaitDohResponse ==> c.originBuffer == EMPTY)
    && (c.phase == SendDohRequest || c.phase == SendRequestLine ==> c.originBuffer.pending != [])
    && (c.phase == SendDohRequest || c.phase == AwaitDohResponse ==> c.request.isDomain)
    && (c.phase == SendDohRequest ==> c.doh.Some? ==> !c.doh.value.active)
    && (c.phase == SendRequestLine ==> !c.request.connect)
    && (c.doh.Some? ==> c.request.isDomain)
    && |c.request.domain| <= DohQuery.MAX_DOMAIN && 1 <= |c.request.line| < Rewrite.REQUEST_LINE_SIZE
    && (c.phase != AwaitDohResponse ==> c.error == 0)
    && (c.phase == AwaitDohResponse ==> AwaitShape(c))
  }

  ghost predicate AwaitShape(c: Conn) {
    match c.doh
    case None => c.error == INTERNAL_SERVER_ERROR
    case Some(d) =>
      && c.error == 0 && d.active && d.frame.Valid() && d.currentTry == 0
      && (Framing.Judge(d.frame) == Framing.Continue || Framing.Judge(d.frame) == Framing.Complete)
  }

  ghost predicate ConnectedShape(c: Conn) {
    && c.clientStatus == ActiveStatus && c.originStatus == ActiveStatus
    && c.clientInterest == Interest(c.clientBuffer.CanWrite(), c.originBuffer.CanRead())
    && c.originInterest == Interest(c.originBuffer.CanWrite(), c.clientBuffer.CanRead())
  }

  /** Exactly one side has closed; the other one is still read. */
  ghost predicate ClosingShape(c: Conn) {
    && (|| (c.clientStatus == ActiveStatus && Drained(c.originStatus, c.originBuffer))
        || (c.originStatus == ActiveStatus && Drained(c.clientStatus, c.clientBuffer)))
    && c.clientInterest == Interest(c.clientStatus == ActiveStatus && c.clientBuffer.CanWrite(), c.originBuffer.CanRead())
    && c.originInterest == Interest(c.originStatus == ActiveStatus && c.originBuffer.CanWrite(), c.clientBuffer.CanRead())
  }

  /** Both sides have closed and something is still pending. */
  ghost predicate EmptyShape(c: Conn) {
    && Drained(c.clientStatus, c.clientBuffer) && Drained(c.originStatus, c.originBuffer)
    && (c.clientBuffer.CanRead() || c.originBuffer.CanRead())
    && c.clientInterest == Interest(false, c.originBuffer.CanRead())
    && c.originInterest == Interest(false, c.clientBuffer.CanRead())
  }

  /** The codes the handlers set. */
  predicate ErrorCode(code: nat) {
    || code == BAD_REQUEST || code == INTERNAL_SERVER_ERROR || code == NOT_IMPLEMENTED || code == BAD_GATEWAY
    || code == HTTP_VERSION_NOT_SUPPORTED
  }

  ghost predicate ErrorShape(c: Conn) {
    && ErrorCode(c.error) && c.originBuffer.pending != []
    && c.clientInterest == WRITE && (c.originRegistered ==> c.originInterest == NOOP)
  }

  ghost predicate Shape(c: Conn) {
    && c.life == Running && c.Sound() && c.clientBuffer.Ok() && c.originBuffer.Ok()
    && (c.phase != ParsingRequestLine ==> c.started)
    && (!c.originRegistered ==> c.originInterest == NOOP)
    && (c.originRegistered ==> c.originStatus != InactiveStatus)
    && c.phase != Done
    && (c.phase == ParsingRequestLine ==> ParsingShape(c))
    && (Resolving(c.phase) ==> ResolvingShape(c))
    && (Relaying(c.phase) ==> c.originRegistered && c.error == 0)
    && (c.phase == Connected ==> ConnectedShape(c))
    && (c.phase == Closing ==> ClosingShape(c))
    && (c.phase == EmptyBuffers ==> EmptyShape(c))
    && (c.phase == Error ==> ErrorShape(c))
  }

  // ---- byte streams --------------------------------------------------------------------------

  /** The request line the client sent and the bytes after it. */
  function AfterLine(c: Conn): seq<byte> {
    if c.log.lineLength <= |c.wire.clientIn| then c.wire.clientIn[c.log.lineLength..] else []
  }

  /** The line ends with the byte that completes it. */
  ghost predicate LineParsed(c: Conn) {
    && 0 < c.log.lineLength <= |c.wire.clientIn|
    && c.parser == RequestLine.FeedAll(RequestLine.Init(), c.wire.clientIn[..c.log.lineLength])
    && c.parser.state == RequestLine.Done
    && !RequestLine.FeedAll(RequestLine.Init(), c.wire.clientIn[..c.log.lineLength - 1]).Terminal()
    && c.request == BuildRequest(c.parser)
  }

  /** The bytes after the request line the origin is owed: all of them, unless CONNECT dropped the rest of the
      read that completed the line. */
  function Owed(c: Conn): seq<byte> {
    if |c.log.dropped| <= |AfterLine(c)| then AfterLine(c)[|c.log.dropped|..] else []
  }

  ghost predicate DroppedOk(c: Conn) {
    c.log.dropped <= AfterLine(c) && (!c.request.connect ==> c.log.dropped == [])
  }

  /** Client to origin, while the origin is being looked for: what was read after the line is still buffered. */
  ghost predicate Upstream(c: Conn) {
    && DroppedOk(c)
    && (c.phase == TryConnectionIp || c.phase == SendDohRequest || c.phase == AwaitDohResponse ==>
          c.clientBuffer.pending == Owed(c))
    && (c.phase == SendRequestLine ==>
          c.clientBuffer.pending == Owed(c) && c.wire.originOut + c.originBuffer.pending == c.request.line)
    && (Relaying(c.phase) ==>
          c.wire.originOut + c.clientBuffer.pending == (if c.request.connect then [] else c.request.line) + Owed(c))
  }

  /** The three parsers are what the bytes the resolver has sent make of them. */
  ghost predicate ReadFrom(f: Framing.Frame, bytes: seq<byte>) { f == Framing.StepAll(Framing.Init(), bytes, true) }

  /** Origin to client. */
  ghost predicate Downstream(c: Conn) {
    && (c.phase == ParsingRequestLine || Resolving(c.phase) ==> c.wire.clientOut == [])
    && (c.phase == TryConnectionIp || c.phase == SendDohRequest || c.phase == SendRequestLine ==> c.wire.originIn == [])
    && (c.phase == AwaitDohResponse && c.doh.Some? ==> ReadFrom(c.doh.value.frame, c.wire.originIn))
    && (c.phase == TryConnectionIp ==> c.wire.originOut == [])
    && (c.phase == Error ==> c.wire.clientOut + c.originBuffer.pending == StatusText(c.error, ReasonPhrase(c.error)))
    && (Relaying(c.phase) ==>
          c.wire.clientOut + c.originBuffer.pending == (if c.request.connect then OK_LINE else []) + c.wire.originIn)
  }

  ghost predicate Shutdowns(c: Conn) {
    && (c.phase == ParsingRequestLine || Resolving(c.phase) ==>
          !c.wire.clientEof && c.wire.clientShut == 0 && c.wire.originShut == 0)
    && (c.phase == TryConnectionIp || c.phase == SendRequestLine ==> !c.wire.originEof)
    && (Relaying(c.phase) ==>
          && c.wire.clientEof == IsClosing(c.clientStatus) && c.wire.originEof == IsClosing(c.originStatus)
          && c.wire.originShut == (if c.clientStatus == ClosedStatus then 1 else 0)
          && c.wire.clientShut == (if c.originStatus == ClosedStatus then 1 else 0))
  }

  ghost predicate Streams(c: Conn) {
    && (c.phase == ParsingRequestLine ==>
          && c.log.lineLength == |c.wire.clientIn| && c.log.dropped == []
          && c.parser == RequestLine.FeedAll(RequestLine.Init(), c.wire.clientIn) && !c.parser.Terminal())
    && (Resolving(c.phase) || Relaying(c.phase) ==> LineParsed(c) && Upstream(c))
    && Downstream(c) && Shutdowns(c)
  }

  // ---- name resolution -----------------------------------------------------------------------

  /** Every answer array allocated is either freed or still held, and an inactive resolution holds none. */
  ghost predicate Ledger(c: Conn) {
    && c.log.allocs == c.log.frees + (if c.doh.Some? && c.doh.value.frame.dns.answers.Some? then 1 else 0)
    && (c.doh.Some? && !c.doh.value.active ==> c.doh.value.frame.dns.answers.None?)
  }

  /** The attempts at the records of the family among the first `k` answers, in order. */
  ghost function Tried(r: Response, k: nat, port: u16): seq<Attempt>
    requires Dns.AllOk(r.answers) && k <= |r.answers|
  {
    AttemptsAt(r.answers, Wanted(r.answers, 0, k, WantedKind(r.family)), r.family, port)
  }

  /** All the attempts a response can lead to: none when it reports an error. */
  ghost function AllOf(r: Response, port: u16): seq<Attempt>
    requires Dns.AllOk(r.answers)
  {
    if r.rcode != 0 then [] else Tried(r, |r.answers|, port)
  }

  ghost predicate Small(l: Log) {
    forall k :: 0 <= k < |l.responses| ==> |l.responses[k].answers| <= 255
  }

  /** At most one response per family, A before AAAA. */
  ghost predicate ResponsesOk(l: Log) {
    && |l.responses| <= 2
    && (|l.responses| >= 1 ==> l.responses[0].family == Ipv4Try && Dns.AllOk(l.responses[0].answers))
    && (|l.responses| == 2 ==> l.responses[1].family == Ipv6Try && Dns.AllOk(l.responses[1].answers))
  }

  /** A response says what the bytes it was read from say. */
  ghost predicate Sourced(r: Response) {
    var dns := Framing.StepAll(Framing.Init(), r.bytes, true).dns;
    r.rcode == dns.flags.rcode && r.answers == if dns.answers.Some? then dns.answers.value else []
  }

  ghost predicate AllSourced(l: Log) { forall k :: 0 <= k < |l.responses| ==> Sourced(l.responses[k]) }

  /** The attempts are a prefix of the first response's A records in order, then of the second one's AAAA
      records, and the second part starts only when the first is complete. */
  ghost predicate AttemptsOk(l: Log, port: u16) {
    && ResponsesOk(l) && AllSourced(l)
    && (Small(l) ==>
          && (|l.responses| == 0 ==> l.attempts == [])
          && (|l.responses| == 1 ==> l.attempts <= AllOf(l.responses[0], port))
          && (|l.responses| == 2 ==>
                && AllOf(l.responses[0], port) <= l.attempts
                && l.attempts <= AllOf(l.responses[0], port) + AllOf(l.responses[1], port)))
  }

  const BOTH: seq<Family> := [Ipv4Try, Ipv6Try]

  /** No query has been answered yet. */
  ghost predicate Unresolved(c: Conn) {
    c.doh.None? && c.log.responses == [] && c.log.attempts == []
  }

  /** The A query is out. */
  ghost predicate AwaitingA(c: Conn) {
    && c.doh.Some? && c.doh.value.active && c.doh.value.family == Ipv4Try
    && c.log.responses == [] && c.log.attempts == [] && c.log.queries == [Ipv4Try]
  }

  /** The answers of the last response are being walked. */
  ghost predicate Walking(c: Conn, d: Doh, r: Response) {
    && d.active && d.frame.Valid() && d.frame.dns.answers == Some(r.answers) && d.family == r.family && r.rcode == 0
    && d.frame.dns.flags.rcode == 0 && Dns.AllOk(r.answers) && (|r.answers| <= 255 ==> d.currentTry <= |r.answers|)
  }

  ghost predicate WalkingA(c: Conn) {
    && c.doh.Some? && |c.log.responses| == 1 && c.log.responses[0].family == Ipv4Try && c.log.queries == [Ipv4Try]
    && Walking(c, c.doh.value, c.log.responses[0])
    && (Small(c.log) ==> c.log.attempts == Tried(c.log.responses[0], c.doh.value.currentTry, c.parser.port))
  }

  /** The first response is used up. */
  ghost predicate FirstDone(c: Conn) {
    && |c.log.responses| >= 1 && c.log.responses[0].family == Ipv4Try && Dns.AllOk(c.log.responses[0].answers)
    && c.doh.Some? && c.doh.value.family == Ipv6Try
  }

  /** Switched to AAAA and not yet asked again: nothing is allocated and the old counters cannot be used. */
  ghost predicate Switched(c: Conn) {
    && FirstDone(c) && |c.log.responses| == 1 && !c.doh.value.active
    && c.doh.value.frame.dns.answers.None?
    && (c.doh.value.frame.dns.flags.rcode != 0 || c.doh.value.currentTry >= c.doh.value.frame.dns.an)
    && (Small(c.log) ==> c.log.attempts == AllOf(c.log.responses[0], c.parser.port))
  }

  ghost predicate AwaitingAaaa(c: Conn) {
    && FirstDone(c) && |c.log.responses| == 1 && c.doh.value.active && c.log.queries == BOTH
    && (Small(c.log) ==> c.log.attempts == AllOf(c.log.responses[0], c.parser.port))
  }

  ghost predicate WalkingAaaa(c: Conn) {
    && FirstDone(c) && |c.log.responses| == 2 && c.log.responses[1].family == Ipv6Try && c.log.queries == BOTH
    && Walking(c, c.doh.value, c.log.responses[1])
    && (Small(c.log) ==>
          c.log.attempts == AllOf(c.log.responses[0], c.parser.port)
                            + Tried(c.log.responses[1], c.doh.value.currentTry, c.parser.port))
  }

  ghost predicate Names(c: Conn) {
    && Ledger(c)
    && (c.phase == ParsingRequestLine ==> Unresolved(c) && c.log.queries == [])
    && (c.phase == TryConnectionIp ==>
          || (Unresolved(c) && c.log.queries == []) || WalkingA(c)
          || (Switched(c) && c.log.queries == [Ipv4Try]) || WalkingAaaa(c))
    && (c.phase == SendDohRequest ==>
          || (Unresolved(c) && c.log.queries == [Ipv4Try]) || (Switched(c) && c.log.queries == BOTH))
    && (c.phase == AwaitDohResponse ==>
          (Unresolved(c) && c.log.queries == [Ipv4Try]) || AwaitingA(c) || AwaitingAaaa(c))
    && AttemptsOk(c.log, c.parser.port) && c.log.queries <= BOTH
  }

  ghost predicate Inv(c: Conn) { Shape(c) && Streams(c) && Names(c) }

  /** What is left when the connection has been freed. */
  ghost predicate Finished(c: Conn) {
    && c.life == Ended && c.log.allocs == c.log.frees
    && AttemptsOk(c.log, c.parser.port) && c.log.queries <= BOTH
    && (c.phase == Done && c.error == 0 ==> Delivered(c))
    && (c.phase == Done && c.error != 0 ==> Reported(c))
  }

  /** The client has been sent the whole error message. */
  ghost predicate Reported(c: Conn) {
    ErrorCode(c.error) && c.wire.clientOut == StatusText(c.error, ReasonPhrase(c.error))
  }

  /** Both streams complete: each side closed, everything it sent was passed on, each socket shut down once. */
  ghost predicate Delivered(c: Conn) {
    && LineParsed(c) && DroppedOk(c)
    && c.clientBuffer.pending == [] && c.originBuffer.pending == []
    && c.wire.clientEof && c.wire.originEof && c.wire.clientShut == 1 && c.wire.originShut == 1
    && c.wire.clientOut == (if c.request.connect then OK_LINE else []) + c.wire.originIn
    && c.wire.originOut == (if c.request.connect then [] else c.request.line) + Owed(c)
  }
}
