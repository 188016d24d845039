/** The relay phase: every event keeps the invariant. */
module RelayProof {
  import opened Bytes
  import opened Buffers
  import RequestLine
  import Dns
  import opened Machine
  import opened Invariant

  // ---- the byte streams ----------------------------------------------------------------------

  /** Nothing lost, duplicated or reordered in either direction. */
  ghost predicate Lossless(c: Conn) {
    && LineParsed(c) && DroppedOk(c)
    && c.wire.originOut + c.clientBuffer.pending == (if c.request.connect then [] else c.request.line) + Owed(c)
    && c.wire.clientOut + c.originBuffer.pending == (if c.request.connect then OK_LINE else []) + c.wire.originIn
  }

  /** `n` differs from `c` in nothing the streams mention. */
  predicate SameStreams(c: Conn, n: Conn) {
    && n.parser == c.parser && n.request == c.request && n.log.lineLength == c.log.lineLength && n.log.dropped == c.log.dropped
    && n.clientBuffer == c.clientBuffer && n.originBuffer == c.originBuffer
    && n.wire.clientIn == c.wire.clientIn && n.wire.clientOut == c.wire.clientOut
    && n.wire.originIn == c.wire.originIn && n.wire.originOut == c.wire.originOut
  }

  lemma SameStreamsLossless(c: Conn, n: Conn)
    requires SameStreams(c, n) && Lossless(c)
    ensures Lossless(n)
  {
    hide RequestLine.FeedAll, BuildRequest;
  }

  /** More bytes from the client leave its request line where it is and are owed to the origin. */
  lemma ClientReadLine(c: Conn, n: Conn, bytes: seq<byte>)
    requires LineParsed(c) && DroppedOk(c) && n == c.(clientBuffer := n.clientBuffer, wire := c.wire.(clientIn := c.wire.clientIn + bytes))
    ensures LineParsed(n) && DroppedOk(n) && Owed(n) == Owed(c) + bytes
  {
    hide RequestLine.FeedAll, BuildRequest, RequestLine.Parser.Terminal;
    assert n.wire.clientIn[..c.log.lineLength] == c.wire.clientIn[..c.log.lineLength];
    assert n.wire.clientIn[..c.log.lineLength - 1] == c.wire.clientIn[..c.log.lineLength - 1];
    assert AfterLine(n) == AfterLine(c) + bytes;
  }

  lemma LosslessClientRead(c: Conn, bytes: seq<byte>)
    requires Lossless(c)
    ensures Lossless(c.(clientBuffer := c.clientBuffer.Push(bytes), wire := c.wire.(clientIn := c.wire.clientIn + bytes)))
  {
    hide LineParsed, DroppedOk, Owed;
    var n := c.(clientBuffer := c.clientBuffer.Push(bytes), wire := c.wire.(clientIn := c.wire.clientIn + bytes));
    ClientReadLine(c, n, bytes);
    Associate(c.wire.originOut, c.clientBuffer.pending, bytes);
    Associate(if c.request.connect then [] else c.request.line, Owed(c), bytes);
  }

  lemma Associate(a: seq<byte>, b: seq<byte>, d: seq<byte>)
    ensures a + (b + d) == a + b + d
  {
  }

  lemma LosslessOriginRead(c: Conn, bytes: seq<byte>)
    requires Lossless(c)
    ensures Lossless(c.(originBuffer := c.originBuffer.Push(bytes), wire := c.wire.(originIn := c.wire.originIn + bytes)))
  {
    hide RequestLine.FeedAll, BuildRequest;
    Associate(c.wire.clientOut, c.originBuffer.pending, bytes);
    Associate(if c.request.connect then OK_LINE else [], c.wire.originIn, bytes);
  }

  lemma AdvanceKeepsBytes(b: Buf, k: nat)
    requires k <= |b.pending|
    ensures b.pending[..k] + b.Advance(k).pending == b.pending
    ensures b.Ok() ==> b.Advance(k).Ok()
  {
  }

  lemma LosslessClientWrite(c: Conn, k: nat)
    requires Lossless(c) && k <= |c.originBuffer.pending|
    ensures Lossless(c.(originBuffer := c.originBuffer.Advance(k),
                        wire := c.wire.(clientOut := c.wire.clientOut + c.originBuffer.pending[..k])))
  {
    hide RequestLine.FeedAll, BuildRequest;
    AdvanceKeepsBytes(c.originBuffer, k);
    assert c.wire.clientOut + c.originBuffer.pending[..k] + c.originBuffer.Advance(k).pending
        == c.wire.clientOut + c.originBuffer.pending;
  }

  lemma LosslessOriginWrite(c: Conn, k: nat)
    requires Lossless(c) && k <= |c.clientBuffer.pending|
    ensures Lossless(c.(clientBuffer := c.clientBuffer.Advance(k),
                        wire := c.wire.(originOut := c.wire.originOut + c.clientBuffer.pending[..k])))
  {
    hide RequestLine.FeedAll, BuildRequest;
    AdvanceKeepsBytes(c.clientBuffer, k);
    assert c.wire.originOut + c.clientBuffer.pending[..k] + c.clientBuffer.Advance(k).pending
        == c.wire.originOut + c.clientBuffer.pending;
  }

  /** The connection once the bytes have moved or the end of a stream has been noted. */
  function Moved(c: Conn, e: Event): Conn
    requires Enabled(c, e) && Relaying(c.phase)
    requires match e
             case ClientReadable(got, _) => !got.ReadFailed?
             case ClientWritable(sent) => sent > 0
             case OriginReadable(got, _) => !got.ReadFailed?
             case OriginWritable(sent, _, _) => sent > 0
  {
    match e
    case ClientReadable(got, _) =>
      if got.Eof? then c.(clientStatus := ClosingStatus, wire := c.wire.(clientEof := true))
      else c.(clientBuffer := c.clientBuffer.Push(got.bytes), wire := c.wire.(clientIn := c.wire.clientIn + got.bytes))
    case ClientWritable(sent) =>
      c.(originBuffer := c.originBuffer.Advance(sent), wire := c.wire.(clientOut := c.wire.clientOut + c.originBuffer.pending[..sent]))
    case OriginReadable(got, _) =>
      if got.Eof? then c.(originStatus := ClosingStatus, wire := c.wire.(originEof := true))
      else c.(originBuffer := c.originBuffer.Push(got.bytes), wire := c.wire.(originIn := c.wire.originIn + got.bytes))
    case OriginWritable(sent, _, _) =>
      c.(clientBuffer := c.clientBuffer.Advance(sent), wire := c.wire.(originOut := c.wire.originOut + c.clientBuffer.pending[..sent]))
  }

  /** The event goes through rather than closing the connection. */
  predicate Through(e: Event) {
    match e
    case ClientReadable(got, _) => !got.ReadFailed?
    case ClientWritable(sent) => sent > 0
    case OriginReadable(got, _) => !got.ReadFailed?
    case OriginWritable(sent, _, _) => sent > 0
  }

  lemma MovedLossless(c: Conn, e: Event)
    requires Enabled(c, e) && Relaying(c.phase) && Through(e) && Lossless(c)
    ensures Lossless(Moved(c, e))
  {
    hide Lossless, Buf.Push, Buf.Advance;
    match e {
      case ClientReadable(got, _) =>
        if got.Data? {
          LosslessClientRead(c, got.bytes);
        } else {
          SameStreamsLossless(c, Moved(c, e));
        }
      case ClientWritable(sent) => LosslessClientWrite(c, sent);
      case OriginReadable(got, _) =>
        if got.Data? {
          LosslessOriginRead(c, got.bytes);
        } else {
          SameStreamsLossless(c, Moved(c, e));
        }
      case OriginWritable(sent, _, _) => LosslessOriginWrite(c, sent);
    }
  }

  lemma MovedBuffers(c: Conn, e: Event)
    requires Enabled(c, e) && Relaying(c.phase) && Through(e) && c.clientBuffer.Ok() && c.originBuffer.Ok()
    ensures Moved(c, e).clientBuffer.Ok() && Moved(c, e).originBuffer.Ok()
  {
    match e {
      case ClientWritable(sent) => AdvanceKeepsBytes(c.originBuffer, sent);
      case OriginWritable(sent, _, _) => AdvanceKeepsBytes(c.clientBuffer, sent);
      case _ =>
    }
  }

  // ---- one step ------------------------------------------------------------------------------

  predicate IsRead(e: Event) { e.ClientReadable? || e.OriginReadable? }

  /** What the state handlers do with the moved connection. */
  function Reacted(m: Conn, e: Event): Conn
    requires Relaying(m.phase)
  {
    if m.phase == Connected then
      if IsRead(e) && (m.clientStatus == ClosingStatus || m.originStatus == ClosingStatus) then
        ClosingInterests(m.(phase := Closing))
      else ConnectedInterests(m)
    else if m.phase == Closing then
      if IsRead(e) && (if e.ClientReadable? then m.clientStatus else m.originStatus) == ClosingStatus then
        if !m.clientBuffer.CanRead() && !m.originBuffer.CanRead() then
          End((if e.ClientReadable? then m.(wire := m.wire.(originShut := m.wire.originShut + 1))
               else m.(wire := m.wire.(clientShut := m.wire.clientShut + 1))).(phase := Done))
        else EmptyInterests(m.(phase := EmptyBuffers))
      else ClosingInterests(m)
    else
      var n := EmptyInterests(m);
      if n.clientStatus == ClosedStatus && n.originStatus == ClosedStatus then End(n.(phase := Done)) else n
  }

  lemma InterestsKeepPhase(c: Conn)
    ensures ConnectedInterests(c).phase == c.phase && ConnectedInterests(c).life == c.life
    ensures ClosingInterests(c).phase == c.phase && ClosingInterests(c).life == c.life
    ensures EmptyInterests(c).phase == c.phase && EmptyInterests(c).life == c.life
  {
  }

  lemma ConnectedStep(cfg: Config, c: Conn, e: Event)
    requires c.Sound() && c.started && c.life == Running && c.phase == Connected && Enabled(c, e) && Through(e)
    ensures Next(cfg, c, e) == Reacted(Moved(c, e), e)
  {
    hide Conn.Sound, ClosingInterests, ConnectedInterests, Buf.Push, Buf.Advance;
    InterestsKeepPhase(Moved(c, e));
  }

  lemma ClosingStep(cfg: Config, c: Conn, e: Event)
    requires c.Sound() && c.started && c.life == Running && c.phase == Closing && Enabled(c, e) && Through(e)
    ensures Next(cfg, c, e) == Reacted(Moved(c, e), e)
  {
    hide Conn.Sound, ClosingInterests, EmptyInterests, End, Buf.Push, Buf.Advance;
    InterestsKeepPhase(Moved(c, e));
  }

  lemma EmptyStep(cfg: Config, c: Conn, e: Event)
    requires c.Sound() && c.started && c.life == Running && c.phase == EmptyBuffers && Enabled(c, e) && Through(e)
    requires !IsRead(e)
    ensures Next(cfg, c, e) == Reacted(Moved(c, e), e)
  {
    hide Conn.Sound, EmptyInterests, End, Buf.Push, Buf.Advance;
    InterestsKeepPhase(Moved(c, e));
  }

  /** In the relay phase a step is the move followed by the reaction. */
  lemma StepIsReaction(cfg: Config, c: Conn, e: Event)
    requires Shape(c) && Relaying(c.phase) && Enabled(c, e) && Through(e)
    ensures Next(cfg, c, e) == Reacted(Moved(c, e), e)
  {
    hide Conn.Sound, ParsingShape, ResolvingShape, ErrorShape, Next, Reacted, Moved;
    if c.phase == Connected {
      ConnectedStep(cfg, c, e);
    } else if c.phase == Closing {
      ClosingStep(cfg, c, e);
    } else {
      EmptyStep(cfg, c, e);
    }
  }

  // ---- interests, statuses and shutdowns -------------------------------------------------------

  /** The ends of stream and the shutdowns agree with the two statuses. */
  ghost predicate Agree(c: Conn) {
    && c.wire.clientEof == IsClosing(c.clientStatus) && c.wire.originEof == IsClosing(c.originStatus)
    && c.wire.originShut == (if c.clientStatus == ClosedStatus then 1 else 0)
    && c.wire.clientShut == (if c.originStatus == ClosedStatus then 1 else 0)
  }

  /** A closing side that may still have to be shut down. */
  predicate Ending(s: Status, b: Buf) { IsClosing(s) && (s == ClosedStatus ==> b.pending == []) }

  lemma ConnectedReaction(m: Conn)
    requires m.originRegistered && m.clientStatus == ActiveStatus && m.originStatus == ActiveStatus && Agree(m)
    ensures var n := ConnectedInterests(m);
            ConnectedShape(n) && Agree(n) && SameStreams(m, n) && n == m.(clientInterest := n.clientInterest, originInterest := n.originInterest)
  {
  }

  /** Each side's write end is shut down here exactly when the other side has closed and its bytes are gone. */
  lemma ClosingReaction(m: Conn)
    requires m.originRegistered && Agree(m)
    requires || (m.clientStatus == ActiveStatus && Ending(m.originStatus, m.originBuffer))
             || (m.originStatus == ActiveStatus && Ending(m.clientStatus, m.clientBuffer))
    ensures var n := ClosingInterests(m);
            && ClosingShape(n) && Agree(n) && SameStreams(m, n)
            && n == m.(clientInterest := n.clientInterest, originInterest := n.originInterest,
                       clientStatus := n.clientStatus, originStatus := n.originStatus, wire := n.wire)
  {
  }

  lemma EmptyReaction(m: Conn)
    requires m.originRegistered && Agree(m)
    requires Ending(m.originStatus, m.originBuffer) && Ending(m.clientStatus, m.clientBuffer)
    ensures var n := EmptyInterests(m);
            && Drained(n.clientStatus, n.clientBuffer) && Drained(n.originStatus, n.originBuffer)
            && n.clientInterest == Interest(false, n.originBuffer.CanRead())
            && n.originInterest == Interest(false, n.clientBuffer.CanRead())
            && Agree(n) && SameStreams(m, n)
            && n == m.(clientInterest := n.clientInterest, originInterest := n.originInterest,
                       clientStatus := n.clientStatus, originStatus := n.originStatus, wire := n.wire)
  {
  }

  /** The relay goes on. */
  ghost predicate GoesOn(m: Conn, n: Conn) {
    && n.life == Running && Relaying(n.phase) && Agree(n)
    && (n.phase == Connected ==> ConnectedShape(n)) && (n.phase == Closing ==> ClosingShape(n))
    && (n.phase == EmptyBuffers ==> EmptyShape(n))
    && n == m.(phase := n.phase, clientInterest := n.clientInterest, originInterest := n.originInterest,
               clientStatus := n.clientStatus, originStatus := n.originStatus, wire := n.wire)
  }

  /** The relay is over: both ends seen, both buffers empty, both sockets shut down once. */
  ghost predicate Over(m: Conn, n: Conn) {
    && n.clientBuffer.pending == [] && n.originBuffer.pending == []
    && n.wire.clientEof && n.wire.originEof && n.wire.clientShut == 1 && n.wire.originShut == 1
    && exists last: Conn :: last == m.(phase := Done, clientInterest := last.clientInterest, originInterest := last.originInterest,
                                       clientStatus := last.clientStatus, originStatus := last.originStatus, wire := last.wire)
                            && last.originStatus != InactiveStatus && n == End(last)
  }

  ghost predicate StepOk(m: Conn, n: Conn) { SameStreams(m, n) && (GoesOn(m, n) || Over(m, n)) }

  lemma ConnectedOk(c: Conn, e: Event)
    requires c.life == Running && c.phase == Connected && c.originRegistered && ConnectedShape(c) && Agree(c)
    requires Enabled(c, e) && Through(e)
    ensures StepOk(Moved(c, e), Reacted(Moved(c, e), e))
  {
    hide Over, ConnectedInterests, ClosingInterests, Buf.Push, Buf.Advance, Buf.CanRead, Buf.CanWrite;
    var m := Moved(c, e);
    if m.clientStatus == ClosingStatus || m.originStatus == ClosingStatus {
      ClosingReaction(m.(phase := Closing));
    } else {
      ConnectedReaction(m);
    }
  }

  lemma EndOver(m: Conn, last: Conn)
    requires last == m.(phase := Done, clientInterest := last.clientInterest, originInterest := last.originInterest,
                        clientStatus := last.clientStatus, originStatus := last.originStatus, wire := last.wire)
    requires last.originStatus != InactiveStatus && SameStreams(m, last)
    requires last.clientBuffer.pending == [] && last.originBuffer.pending == []
    requires last.wire.clientEof && last.wire.originEof && last.wire.clientShut == 1 && last.wire.originShut == 1
    ensures StepOk(m, End(last))
  {
  }

  lemma ClosingOk(c: Conn, e: Event)
    requires c.life == Running && c.phase == Closing && c.originRegistered && ClosingShape(c) && Agree(c)
    requires Enabled(c, e) && Through(e)
    ensures StepOk(Moved(c, e), Reacted(Moved(c, e), e))
  {
    hide Over, ClosingInterests, EmptyInterests, End;
    var m := Moved(c, e);
    if IsRead(e) && (if e.ClientReadable? then m.clientStatus else m.originStatus) == ClosingStatus {
      if !m.clientBuffer.CanRead() && !m.originBuffer.CanRead() {
        EndOver(m, (if e.ClientReadable? then m.(wire := m.wire.(originShut := m.wire.originShut + 1))
                    else m.(wire := m.wire.(clientShut := m.wire.clientShut + 1))).(phase := Done));
      } else {
        EmptyReaction(m.(phase := EmptyBuffers));
      }
    } else {
      ClosingReaction(m);
    }
  }

  lemma EmptyOk(c: Conn, e: Event)
    requires c.life == Running && c.phase == EmptyBuffers && c.originRegistered && EmptyShape(c) && Agree(c)
    requires Enabled(c, e) && Through(e)
    ensures StepOk(Moved(c, e), Reacted(Moved(c, e), e))
  {
    hide Over, EmptyInterests, End;
    var m := Moved(c, e);
    EmptyReaction(m);
    var n := EmptyInterests(m);
    if n.clientStatus == ClosedStatus && n.originStatus == ClosedStatus {
      EndOver(m, n.(phase := Done));
    }
  }

  /** Every event of the relay phase that goes through keeps the invariant, or delivers everything. */
  lemma RelayStep(cfg: Config, c: Conn, e: Event)
    requires Shape(c) && Streams(c) && Relaying(c.phase) && Enabled(c, e) && Through(e)
    ensures var n := Next(cfg, c, e);
            && (n.life == Running ==> Relaying(n.phase) && Shape(n) && Streams(n) && n.doh == c.doh && n.log == c.log && n.parser == c.parser)
            && (n.life != Running ==> n.life == Ended && n.phase == Done && n.error == 0 && Delivered(n)
                                      && n.log == End(c).log && n.parser == c.parser)
  {
    hide Next, Reacted, Moved, Lossless, SameStreams, GoesOn, Over, Conn.Sound, LineParsed, End;
    var m := Moved(c, e);
    MovedRest(c, e);
    var n := Reacted(m, e);
    StepIsReaction(cfg, c, e);
    StreamsLossless(c);
    MovedLossless(c, e);
    MovedBuffers(c, e);
    if c.phase == Connected {
      ConnectedOk(c, e);
    } else if c.phase == Closing {
      ClosingOk(c, e);
    } else {
      EmptyOk(c, e);
    }
    SameStreamsLossless(m, n);
    if GoesOn(m, n) {
      GoesOnInv(c, m, n);
    } else {
      OverDelivered(m, n);
      EndLog(c, m);
    }
  }

  lemma EndLog(c: Conn, m: Conn)
    requires m.doh == c.doh && m.log == c.log
    ensures End(m).log == End(c).log
  {
    hide End;
    EndLogIs(c);
    EndLogIs(m);
  }

  lemma EndLogIs(c: Conn)
    ensures End(c).log == if c.doh.Some? && c.doh.value.active && c.doh.value.frame.dns.answers.Some?
                          then c.log.(frees := c.log.frees + 1) else c.log
  {
    hide Dns.Destroy;
  }

  lemma StreamsLossless(c: Conn)
    requires Streams(c) && Relaying(c.phase)
    ensures Lossless(c) && Agree(c)
  {
    hide LineParsed, DroppedOk;
  }

  lemma MovedRest(c: Conn, e: Event)
    requires Enabled(c, e) && Relaying(c.phase) && Through(e)
    ensures var m := Moved(c, e);
            m == c.(clientBuffer := m.clientBuffer, originBuffer := m.originBuffer, clientStatus := m.clientStatus,
                    originStatus := m.originStatus, wire := m.wire)
  {
    hide Buf.Push, Buf.Advance;
  }

  lemma GoesOnInv(c: Conn, m: Conn, n: Conn)
    requires Shape(c) && Relaying(c.phase) && m.clientBuffer.Ok() && m.originBuffer.Ok() && Lossless(n) && GoesOn(m, n)
    requires m == c.(clientBuffer := m.clientBuffer, originBuffer := m.originBuffer, clientStatus := m.clientStatus,
                     originStatus := m.originStatus, wire := m.wire)
    ensures n.life == Running && Relaying(n.phase)
    ensures Shape(n) && Streams(n) && n.doh == c.doh && n.log == c.log && n.parser == c.parser
  {
    hide LineParsed, DroppedOk, ParsingShape, ResolvingShape, ErrorShape;
  }

  lemma OverDelivered(m: Conn, n: Conn)
    requires Over(m, n) && Lossless(n) && m.error == 0
    ensures n.life == Ended && n.phase == Done && n.error == 0 && Delivered(n)
    ensures n.log == End(m).log && n.parser == m.parser
  {
    hide LineParsed, DroppedOk;
    assert n.wire.originOut + [] == n.wire.originOut && n.wire.clientOut + [] == n.wire.clientOut;
  }
}
