/** The guarantees of the proxy, on every run of every connection. */
module Theorems {
  import opened Bytes
  import opened Buffers
  import RequestLine
  import Rewrite
  import opened Machine
  import opened Invariant
  import opened SetupProof
  import opened StepProof
  import opened Runs
  import RelayProof
  import Replies

  // ---- lossless relay ----------------------------------------------------------------------------

  /** The first `n` bytes are a request line: the parser accepts at byte `n` and not before. */
  ghost predicate IsRequestLine(s: seq<byte>, n: nat) {
    && 0 < n <= |s|
    && RequestLine.FeedAll(RequestLine.Init(), s[..n]).state == RequestLine.Done
    && !RequestLine.FeedAll(RequestLine.Init(), s[..n - 1]).Terminal()
  }

  /** What the origin is to be sent for the client bytes `s`, whose request line has `n` bytes. */
  function Forwarded(s: seq<byte>, n: nat): seq<byte>
    requires n <= |s|
  {
    Rewrite.RequestText(RequestLine.FeedAll(RequestLine.Init(), s[..n])) + s[n..]
  }

  predicate AsksConnect(s: seq<byte>, n: nat)
    requires n <= |s|
  {
    Rewrite.IsConnect(RequestLine.FeedAll(RequestLine.Init(), s[..n]))
  }

  lemma RequestIsRewritten(c: Conn)
    requires LineParsed(c) && DroppedOk(c)
    ensures IsRequestLine(c.wire.clientIn, c.log.lineLength)
    ensures c.request.connect <==> AsksConnect(c.wire.clientIn, c.log.lineLength)
    ensures !c.request.connect ==> c.request.line + Owed(c) == Forwarded(c.wire.clientIn, c.log.lineLength)
  {
    hide RequestLine.FeedAll, RequestLine.Parser.InBounds, Rewrite.RequestText, Rewrite.IsConnect;
    if !c.request.connect {
      assert AfterLine(c)[0..] == AfterLine(c);
    }
  }

  /** In every state of the relay: the client has been sent, or still has buffered for it, the 200 line if it
      asked for a tunnel and then exactly what the origin sent; and the origin, unless it is a tunnel, the
      rewritten request line and then exactly what the client sent after its own. */
  lemma LosslessRelay(cfg: Config, es: seq<Event>, cs: seq<Conn>, k: nat)
    requires Run(cfg, es, cs) && Fits(cfg) && k < |cs| && cs[k].life == Running && Relaying(cs[k].phase)
    ensures var c := cs[k];
            var n := c.log.lineLength;
            && IsRequestLine(c.wire.clientIn, n)
            && c.wire.clientOut + c.originBuffer.pending
               == (if AsksConnect(c.wire.clientIn, n) then Replies.OkReply() else []) + c.wire.originIn
            && (!AsksConnect(c.wire.clientIn, n) ==>
                  c.wire.originOut + c.clientBuffer.pending == Forwarded(c.wire.clientIn, n))
  {
    hide Run, LineParsed, DroppedOk, Owed, AsksConnect, Forwarded, Shape, Names, Finished, Shutdowns, IsRequestLine, Replies.OkReply;
    Replies.OkLineIs();
    RunKeeps(cfg, es, cs, k);
    RequestIsRewritten(cs[k]);
  }

  /** A run that ends through the relay has delivered both streams in full and shut each side down once. */
  lemma DeliveredInFull(cfg: Config, es: seq<Event>, cs: seq<Conn>, k: nat)
    requires Run(cfg, es, cs) && Fits(cfg) && k < |cs| && cs[k].life == Ended && cs[k].phase == Done && cs[k].error == 0
    ensures var w := cs[k].wire;
            var n := cs[k].log.lineLength;
            && w.clientEof && w.originEof && w.clientShut == 1 && w.originShut == 1
            && IsRequestLine(w.clientIn, n)
            && w.clientOut == (if AsksConnect(w.clientIn, n) then Replies.OkReply() else []) + w.originIn
            && (!AsksConnect(w.clientIn, n) ==> w.originOut == Forwarded(w.clientIn, n))
  {
    hide Run, LineParsed, DroppedOk, Owed, AsksConnect, Forwarded, Inv, IsRequestLine, AttemptsOk, Replies.OkReply;
    Replies.OkLineIs();
    RunKeeps(cfg, es, cs, k);
    RequestIsRewritten(cs[k]);
  }

  /** In the error state what the client has been sent and what is buffered for it is the whole reply for the
      code; a run that ends there without a failure has sent all of it. */
  lemma ErrorsReported(cfg: Config, es: seq<Event>, cs: seq<Conn>, k: nat)
    requires Run(cfg, es, cs) && Fits(cfg) && k < |cs|
    ensures cs[k].life == Running && cs[k].phase == Error ==>
              ErrorCode(cs[k].error) && cs[k].wire.clientOut + cs[k].originBuffer.pending == Replies.ErrorReply(cs[k].error)
    ensures cs[k].life == Ended && cs[k].phase == Done && cs[k].error != 0 ==>
              ErrorCode(cs[k].error) && cs[k].wire.clientOut == Replies.ErrorReply(cs[k].error)
  {
    hide Run, Names, AttemptsOk, Delivered, LineParsed, Upstream, Shutdowns, ParsingShape, ResolvingShape, ConnectedShape, ClosingShape, EmptyShape,
      Conn.Sound, StatusText, ReasonPhrase, Replies.ErrorReply;
    RunKeeps(cfg, es, cs, k);
    if ErrorCode(cs[k].error) {
      Replies.ErrorTextIs(cs[k].error);
    }
  }

  // ---- half-close ----------------------------------------------------------------------------------

  /** In the relay a socket is shut down for writing at most once, and only when the opposite peer has closed
      and everything it sent has been passed on. */
  lemma ShutOnlyWhenDrained(cfg: Config, es: seq<Event>, cs: seq<Conn>, k: nat)
    requires Run(cfg, es, cs) && Fits(cfg) && k < |cs| && cs[k].life == Running && Relaying(cs[k].phase)
    ensures var c := cs[k];
            && c.wire.clientShut <= 1 && c.wire.originShut <= 1
            && (c.wire.clientShut == 1 ==> c.wire.originEof && c.originBuffer.pending == [] && !c.originInterest.read)
            && (c.wire.originShut == 1 ==> c.wire.clientEof && c.clientBuffer.pending == [] && !c.clientInterest.read)
            && (c.phase == Connected ==> c.wire.clientShut == 0 && c.wire.originShut == 0)
  {
    hide Run, Names, Finished, Conn.Sound, ParsingShape, ResolvingShape, ErrorShape, Upstream, Downstream, LineParsed;
    RunKeeps(cfg, es, cs, k);
  }

  /** A closed direction stays silent over one step. */
  lemma SilentStep(cfg: Config, c: Conn, e: Event)
    requires Inv(c) && Relaying(c.phase) && Enabled(c, e) && c.Sound()
    ensures var n := Next(cfg, c, e);
            && (n.life == Running ==> Relaying(n.phase))
            && (c.wire.clientShut >= 1 ==> n.wire.clientShut == c.wire.clientShut && n.wire.clientOut == c.wire.clientOut)
            && (c.wire.originShut >= 1 ==> n.wire.originShut == c.wire.originShut && n.wire.originOut == c.wire.originOut)
  {
    hide Conn.Sound, Next, End, RelayProof.Reacted, Streams, Names;
    if RelayProof.Through(e) {
      RelayProof.StepIsReaction(cfg, c, e);
      SilentReaction(c, e);
    } else {
      NotThrough(cfg, c, e);
      EndWire(c);
    }
  }

  lemma EndWire(c: Conn)
    ensures End(c).wire == c.wire && End(c).life == Ended && End(c).log.responses == c.log.responses
  {
  }

  /** `n` has sent no more than `m`, and shut down no side of it that had been. */
  predicate Silent(m: Conn, n: Conn) {
    && n.wire.clientOut == m.wire.clientOut && n.wire.originOut == m.wire.originOut
    && (m.originStatus == ClosedStatus ==> n.wire.clientShut == m.wire.clientShut)
    && (m.clientStatus == ClosedStatus ==> n.wire.originShut == m.wire.originShut)
  }

  lemma SilentReaction(c: Conn, e: Event)
    requires Inv(c) && Relaying(c.phase) && Enabled(c, e) && RelayProof.Through(e)
    ensures var n := RelayProof.Reacted(RelayProof.Moved(c, e), e);
            && (n.life == Running ==> Relaying(n.phase))
            && (c.wire.clientShut >= 1 ==> n.wire.clientShut == c.wire.clientShut && n.wire.clientOut == c.wire.clientOut)
            && (c.wire.originShut >= 1 ==> n.wire.originShut == c.wire.originShut && n.wire.originOut == c.wire.originOut)
  {
    hide Inv, RelayProof.Moved, RelayProof.Reacted;
    SilentMove(c, e);
    SilentHandler(RelayProof.Moved(c, e), e);
  }

  lemma SilentMove(c: Conn, e: Event)
    requires Inv(c) && Relaying(c.phase) && Enabled(c, e) && RelayProof.Through(e)
    ensures var m := RelayProof.Moved(c, e);
            && Relaying(m.phase)
            && (c.wire.clientShut >= 1 ==> m.originStatus == ClosedStatus && m.wire.clientShut == c.wire.clientShut && m.wire.clientOut == c.wire.clientOut)
            && (c.wire.originShut >= 1 ==> m.clientStatus == ClosedStatus && m.wire.originShut == c.wire.originShut && m.wire.originOut == c.wire.originOut)
  {
    hide Conn.Sound, Names, LineParsed, Upstream, Downstream, ParsingShape, ResolvingShape, ErrorShape, Buf.Push, Buf.Advance;
  }

  lemma SilentHandler(m: Conn, e: Event)
    requires Relaying(m.phase)
    ensures var n := RelayProof.Reacted(m, e); Silent(m, n) && (n.life == Running ==> Relaying(n.phase))
  {
    hide End, ConnectedInterests, ClosingInterests, EmptyInterests;
    ConnectedWire(m);
    ClosingWire(m);
    ClosingWire(m.(phase := Closing));
    EmptyWire(m);
    EmptyWire(m.(phase := EmptyBuffers));
    EndWire(EmptyInterests(m).(phase := Done));
    EndWire(m.(wire := m.wire.(originShut := m.wire.originShut + 1), phase := Done));
    EndWire(m.(wire := m.wire.(clientShut := m.wire.clientShut + 1), phase := Done));
  }

  lemma ConnectedWire(m: Conn)
    ensures var n := ConnectedInterests(m); n.wire == m.wire && n.phase == m.phase && n.log == m.log
  {
  }

  lemma ClosingWire(m: Conn)
    ensures var n := ClosingInterests(m); Silent(m, n) && n.phase == m.phase
  {
  }

  lemma EmptyWire(m: Conn)
    ensures var n := EmptyInterests(m); Silent(m, n) && n.phase == m.phase
  {
  }

  /** Once shut down, a side is never written to again and never shut down again, to the end of the run. */
  lemma {:induction false} SilentAfterShutdown(cfg: Config, es: seq<Event>, cs: seq<Conn>, i: nat, j: nat)
    requires Run(cfg, es, cs) && Fits(cfg) && i <= j < |cs| && cs[i].life == Running && Relaying(cs[i].phase)
    ensures cs[j].life == Running ==> Relaying(cs[j].phase)
    ensures cs[i].wire.clientShut >= 1 ==>
              cs[j].wire.clientShut == cs[i].wire.clientShut && cs[j].wire.clientOut == cs[i].wire.clientOut
    ensures cs[i].wire.originShut >= 1 ==>
              cs[j].wire.originShut == cs[i].wire.originShut && cs[j].wire.originOut == cs[i].wire.originOut
    decreases j
  {
    hide Inv, Next, Conn.Sound, Fresh, Enabled, Finished;
    if i < j {
      SilentAfterShutdown(cfg, es, cs, i, j - 1);
      assert Enabled(cs[j - 1], es[j - 1]) && cs[j - 1 + 1] == Fire(cfg, cs[j - 1], es[j - 1]);
      EnabledRuns(cs[j - 1], es[j - 1]);
      RunKeeps(cfg, es, cs, j - 1);
      InvSound(cs[j - 1]);
      SilentStep(cfg, cs[j - 1], es[j - 1]);
    }
  }

  // ---- interests ------------------------------------------------------------------------------------

  ghost predicate SoundInterests(c: Conn) {
    && (c.clientInterest.read ==> c.clientBuffer.Free() > 0)
    && (c.originRegistered && c.originInterest.read ==> c.originBuffer.Free() > 0)
    && (c.clientInterest.write ==> c.originBuffer.pending != [])
    && (c.originRegistered && c.originInterest.write && c.phase != TryConnectionIp ==> Outgoing(c).pending != [])
  }

  /** A descriptor is read only when there is room and written only when there are bytes, and no event the
      selector can deliver meets a state without a handler for it. */
  lemma InterestSoundness(cfg: Config, es: seq<Event>, cs: seq<Conn>, k: nat, e: Event)
    requires Run(cfg, es, cs) && Fits(cfg) && k < |cs| && cs[k].life == Running
    ensures SoundInterests(cs[k])
    ensures Enabled(cs[k], e) ==> if RelayProof.IsRead(e) then HasRead(cs[k].phase) else HasWrite(cs[k].phase)
  {
    hide Run, Streams, Names, Finished, Conn.Sound, AwaitShape;
    RunKeeps(cfg, es, cs, k);
  }

  // ---- progress ---------------------------------------------------------------------------------------

  /** An event that can happen in any state that still runs. */
  function Possible(c: Conn): Event {
    var env := Env([], true, true);
    if c.clientInterest.read then ClientReadable(Eof, env)
    else if c.clientInterest.write then ClientWritable(|c.originBuffer.pending|)
    else if c.originInterest.read then OriginReadable(Eof, env)
    else OriginWritable(|Outgoing(c).pending|, true, env)
  }

  /** No running connection is ever deaf to both descriptors, and in CLOSING exactly one side has closed. */
  lemma NeverStuck(cfg: Config, es: seq<Event>, cs: seq<Conn>, k: nat)
    requires Run(cfg, es, cs) && Fits(cfg) && k < |cs| && cs[k].life == Running
    ensures Enabled(cs[k], Possible(cs[k]))
    ensures cs[k].phase == Closing ==> (IsClosing(cs[k].clientStatus) <==> !IsClosing(cs[k].originStatus))
    ensures cs[k].phase == EmptyBuffers ==> Pending(cs[k]) > 0
  {
    hide Run, Streams, Names, Finished, Conn.Sound, AwaitShape;
    RunKeeps(cfg, es, cs, k);
    Buffers.NeverStuck(cs[k].clientBuffer);
    Buffers.NeverStuck(cs[k].originBuffer);
  }

  function Pending(c: Conn): nat { |c.clientBuffer.pending| + |c.originBuffer.pending| }

  /** Every write in EMPTY_BUFFERS makes the buffers smaller; the last one ends the connection. */
  lemma DrainStep(cfg: Config, c: Conn, e: Event)
    requires Inv(c) && c.phase == EmptyBuffers && Enabled(c, e) && RelayProof.Through(e) && c.Sound()
    ensures var n := Next(cfg, c, e);
            || (n.life == Running && Inv(n) && n.phase == EmptyBuffers && 0 < Pending(n) < Pending(c))
            || (n.life == Ended && Delivered(n))
  {
    hide Conn.Sound, Next, End, Streams, Names, LineParsed, Delivered, RelayProof.Reacted;
    RelayGood(cfg, c, e);
    RelayProof.RelayStep(cfg, c, e);
    RelayProof.StepIsReaction(cfg, c, e);
    DrainReaction(c, e);
    if Next(cfg, c, e).life == Running {
      EmptyPending(Next(cfg, c, e));
    }
  }

  lemma EmptyPending(c: Conn)
    requires Inv(c) && c.phase == EmptyBuffers
    ensures Pending(c) > 0
  {
    hide Streams, Names, Conn.Sound;
  }

  lemma DrainReaction(c: Conn, e: Event)
    requires Inv(c) && c.phase == EmptyBuffers && Enabled(c, e) && RelayProof.Through(e)
    ensures var n := RelayProof.Reacted(RelayProof.Moved(c, e), e);
            n.life == Running ==> n.phase == EmptyBuffers && Pending(n) < Pending(c)
  {
    hide Conn.Sound, End, Streams, Names, LineParsed, EmptyInterests;
    var m := RelayProof.Moved(c, e);
    EmptyInterestsBuffers(m);
    EndWire(EmptyInterests(m).(phase := Done));
  }

  lemma EmptyInterestsBuffers(m: Conn)
    ensures var n := EmptyInterests(m); n.clientBuffer == m.clientBuffer && n.originBuffer == m.originBuffer && n.phase == m.phase
  {
  }

  /** From EMPTY_BUFFERS, at most as many successful writes as there are buffered bytes can follow, and after
      that many the connection has ended with everything delivered. */
  lemma {:induction false} DrainTerminates(cfg: Config, es: seq<Event>, cs: seq<Conn>, i: nat, j: nat)
    requires Run(cfg, es, cs) && Fits(cfg) && i <= j < |cs| && cs[i].life == Running && cs[i].phase == EmptyBuffers
    requires forall k :: i <= k < j ==> RelayProof.Through(es[k])
    ensures (cs[j].life == Ended && Delivered(cs[j]))
            || (cs[j].life == Running && cs[j].phase == EmptyBuffers && 0 < Pending(cs[j]) <= Pending(cs[i]) - (j - i))
    ensures j - i >= Pending(cs[i]) ==> cs[j].life == Ended && Delivered(cs[j])
    decreases j
  {
    hide Inv, Next, Conn.Sound, Fresh, Enabled, Finished, Delivered, RelayProof.Through, Pending;
    RunKeeps(cfg, es, cs, i);
    EmptyPending(cs[i]);
    if i < j {
      DrainTerminates(cfg, es, cs, i, j - 1);
      assert Enabled(cs[j - 1], es[j - 1]) && cs[j - 1 + 1] == Fire(cfg, cs[j - 1], es[j - 1]);
      EnabledRuns(cs[j - 1], es[j - 1]);
      RunKeeps(cfg, es, cs, j - 1);
      InvSound(cs[j - 1]);
      DrainStep(cfg, cs[j - 1], es[j - 1]);
    }
  }

  // ---- name resolution -----------------------------------------------------------------------------

  /** On every run at most two queries are sent, A then AAAA, and, when no response has more than 255
      answers, the addresses tried are a prefix of the first response's A records in their order followed,
      only when those are used up, by the second one's AAAA records in theirs. */
  lemma FailoverOrder(cfg: Config, es: seq<Event>, cs: seq<Conn>, k: nat)
    requires Run(cfg, es, cs) && Fits(cfg) && k < |cs| && (cs[k].life == Running || cs[k].life == Ended)
    ensures cs[k].log.queries <= BOTH && AttemptsOk(cs[k].log, cs[k].parser.port)
  {
    hide Run, Shape, Streams, Delivered, AttemptsOk;
    RunKeeps(cfg, es, cs, k);
    if cs[k].life == Running {
      NamesBooks(cs[k]);
    }
  }

  /** Each answer array is freed exactly once: at most one is held at a time and none after the end. */
  lemma AnswersFreedOnce(cfg: Config, es: seq<Event>, cs: seq<Conn>, k: nat)
    requires Run(cfg, es, cs) && Fits(cfg) && k < |cs|
    ensures cs[k].life == Running ==> Ledger(cs[k])
    ensures cs[k].life == Ended ==> cs[k].log.allocs == cs[k].log.frees
  {
    hide Run, Shape, Streams, Delivered, AttemptsOk, Ledger;
    RunKeeps(cfg, es, cs, k);
    if cs[k].life == Running {
      NamesBooks(cs[k]);
      BooksAre(cs[k]);
    }
  }

  /** A run hangs exactly on bytes after a complete message or on an endless walk over 256 answers or more, and
      crashes exactly when the resolver closes inside ANCOUNT. */
  lemma ExitsExactly(cfg: Config, es: seq<Event>, cs: seq<Conn>, k: nat)
    requires Run(cfg, es, cs) && Fits(cfg) && k < |es|
    ensures Enabled(cs[k], es[k])
    ensures cs[k + 1].life == Hung <==> Hangs(cs[k], es[k])
    ensures cs[k + 1].life == Crashed <==> CutInCount(cs[k], es[k])
  {
    hide Inv, Next, Conn.Sound, Fresh, Enabled, Finished, Hangs, CutInCount;
    assert Enabled(cs[k], es[k]) && cs[k + 1] == Fire(cfg, cs[k], es[k]);
    EnabledRuns(cs[k], es[k]);
    RunKeeps(cfg, es, cs, k);
    InvSound(cs[k]);
    StepOk(cfg, cs[k], es[k]);
  }
}
