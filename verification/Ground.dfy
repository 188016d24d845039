/** The bytes a connection records are exactly those its events carried. */
module Ground {
  import opened Bytes
  import opened Buffers
  import RequestLine
  import Framing
  import opened Failover
  import opened Machine
  import opened Invariant
  import opened SetupProof
  import opened Runs
  import RelayProof
  import Theorems

  /** What an event brings from each peer. */
  function FromClient(e: Event): seq<byte> {
    if e.ClientReadable? && e.got.Data? then e.got.bytes else []
  }

  function FromOrigin(e: Event): seq<byte> {
    if e.OriginReadable? && e.got.Data? then e.got.bytes else []
  }

  /** What an event takes out of a buffer and sends. */
  function ToClient(c: Conn, e: Event): seq<byte> {
    if e.ClientWritable? && 0 < e.sent <= |c.originBuffer.pending| then c.originBuffer.pending[..e.sent] else []
  }

  function ToOrigin(c: Conn, e: Event): seq<byte> {
    if e.OriginWritable? && c.phase != TryConnectionIp && 0 < e.sent <= |Outgoing(c).pending| then Outgoing(c).pending[..e.sent] else []
  }

  /** The client's streams are untouched. */
  predicate SameClientBytes(c: Conn, n: Conn) { n.wire.clientIn == c.wire.clientIn && n.wire.clientOut == c.wire.clientOut }

  /** And no response is logged. */
  predicate Same(c: Conn, n: Conn) { SameClientBytes(c, n) && n.log.responses == c.log.responses }

  /** At most the response just read is logged, with the bytes it was read from. */
  predicate Logged(c: Conn, n: Conn) {
    && SameClientBytes(c, n)
    && (|| n.log.responses == c.log.responses
        || (|n.log.responses| == |c.log.responses| + 1 && c.log.responses <= n.log.responses
            && n.log.responses[|c.log.responses|].bytes == c.wire.originIn))
  }

  // ---- the handlers ------------------------------------------------------------------------------

  lemma ArriveSame(cfg: Config, c: Conn, env: Env)
    ensures Same(c, Arrive(cfg, c, env))
  {
    hide End, DohText, StatusText, ConnectedInterests, ClosingInterests, EmptyInterests, InitDoh, RequestLine.Init;
    Theorems.EndWire(c);
    Theorems.ConnectedWire(c);
    ClosingSame(c);
    EmptySame(c);
    InitSame(c, env);
  }

  lemma ClosingSame(c: Conn)
    ensures Same(c, ClosingInterests(c))
  {
  }

  lemma EmptySame(c: Conn)
    ensures Same(c, EmptyInterests(c))
  {
  }

  lemma InitSame(c: Conn, env: Env)
    ensures Same(c, InitDoh(c, env))
  {
  }

  lemma JumpSame(cfg: Config, st: Step, env: Env)
    ensures Same(st.c, Jump(cfg, st, env))
  {
    hide Arrive;
    ArriveSame(cfg, st.c.(phase := st.next), env);
  }

  lemma TryFamilySame(c: Conn, d: Doh, sockets: seq<Socket>)
    ensures Same(c, TryFamily(c, d, sockets).c)
  {
    hide NextAddress, AttemptsAt;
  }

  lemma TryNextSame(c: Conn, d: Doh, sockets: seq<Socket>)
    ensures Same(c, TryNextDns(c, d, sockets).c)
  {
    hide TryFamily;
    TryFamilySame(UnregisterOrigin(c), d, sockets);
  }

  lemma AwaitSame(c: Conn, env: Env)
    requires c.doh.Some? ==> c.doh.value.frame.Valid()
    ensures Logged(c, AwaitRead(c, env).c)
  {
    hide Framing.Drain, Framing.Judge, Framing.Frame.Valid, Resolved, AfterResponse, Buf.Advance;
    if c.doh.Some? {
      AfterSame(c, c.doh.value, env);
      if c.originBuffer.CanRead() {
        var d := c.doh.value;
        var (f, k) := Framing.Drain(d.frame, c.originBuffer.pending, env.answersAlloc);
        var gotArray := d.frame.dns.answers.None? && f.dns.answers.Some?;
        ResolvedSame(c.(doh := Some(d.(frame := f)), originBuffer := c.originBuffer.Advance(k),
                        log := if gotArray then c.log.(allocs := c.log.allocs + 1) else c.log), d.(frame := f), Framing.Judge(f), env);
      }
    }
  }

  lemma AfterSame(c: Conn, d: Doh, env: Env)
    ensures Logged(c, AfterResponse(c, d, env).c)
  {
    hide TryNextDns;
    var r := ResponseOf(c, d);
    TryNextSame(c.(wire := c.wire.(originShut := c.wire.originShut + 1), log := c.log.(responses := c.log.responses + [r])), d, env.sockets);
  }

  lemma ResolvedSame(c: Conn, d: Doh, v: Framing.Verdict, env: Env)
    ensures Logged(c, Resolved(c, d, v, env).c)
  {
    hide AfterResponse;
    AfterSame(c, d, env);
    AfterSame(c.(originBuffer := EMPTY), d, env);
  }

  lemma ParsingSame(c: Conn, env: Env)
    requires c.parser.InBounds()
    ensures Same(c, ParsingRead(c, env).c)
  {
    hide RequestLine.Consume, RequestLine.Parser.InBounds, BuildRequest, Buf.Advance;
  }

  lemma StmReadSame(cfg: Config, c: Conn, onClient: bool, env: Env)
    requires c.Sound()
    ensures Logged(c, StmRead(cfg, c, onClient, env)) && (c.phase != AwaitDohResponse ==> Same(c, StmRead(cfg, c, onClient, env)))
  {
    hide Conn.Sound, Jump, ParsingRead, AwaitRead, ConnectedInterests, ClosingInterests;
    var b := Begin(c);
    BeginSound(c);
    if b.phase == ParsingRequestLine {
      ParsingSame(b, env);
      JumpSame(cfg, ParsingRead(b, env), env);
    } else if b.phase == AwaitDohResponse {
      AwaitSame(b, env);
      JumpSame(cfg, AwaitRead(b, env), env);
    } else if b.phase == Connected {
      Theorems.ConnectedWire(b);
      JumpSame(cfg, ConnectedRead(b), env);
    } else if b.phase == Closing {
      ClosingSame(b);
      JumpSame(cfg, ClosingRead(b, onClient), env);
    }
  }

  lemma BeginSound(c: Conn)
    requires c.Sound()
    ensures var b := Begin(c); b.Sound() && b.parser.InBounds() && (b.phase == AwaitDohResponse && b.doh.Some? ==> b.doh.value.frame.Valid())
  {
  }

  lemma StmWriteSame(cfg: Config, c: Conn, connected: bool, env: Env)
    ensures Same(c, StmWrite(cfg, c, connected, env))
  {
    hide Jump, TryWrite, EmptyWrite, ConnectedInterests, ClosingInterests;
    var b := Begin(c);
    TryWriteSame(b, connected, env);
    EmptyWriteSame(b);
    Theorems.ConnectedWire(b);
    ClosingSame(b);
    JumpSame(cfg, TryWrite(b, connected, env), env);
    JumpSame(cfg, EmptyWrite(b), env);
    JumpSame(cfg, Step(ConnectedInterests(b), b.phase), env);
    JumpSame(cfg, Step(ClosingInterests(b), b.phase), env);
    JumpSame(cfg, Step(b, if b.originBuffer.CanRead() then b.phase else AwaitDohResponse), env);
    JumpSame(cfg, Step(b, if b.originBuffer.CanRead() then b.phase else Connected), env);
    JumpSame(cfg, Step(b, if b.originBuffer.CanRead() then b.phase else Done), env);
  }

  lemma TryWriteSame(c: Conn, connected: bool, env: Env)
    ensures Same(c, TryWrite(c, connected, env).c)
  {
    hide TryNextDns, OK_LINE;
    if c.doh.Some? {
      TryNextSame(c, c.doh.value, env.sockets);
    }
  }

  lemma EmptyWriteSame(c: Conn)
    ensures Same(c, EmptyWrite(c).c)
  {
    hide EmptyInterests;
    EmptySame(c);
  }

  // ---- one event, every run ------------------------------------------------------------------------

  lemma EventGrounded(cfg: Config, c: Conn, e: Event)
    requires c.Sound() && Enabled(c, e)
    ensures var n := Next(cfg, c, e);
            n.wire.clientIn == c.wire.clientIn + FromClient(e) && n.wire.clientOut == c.wire.clientOut + ToClient(c, e)
  {
    hide Conn.Sound, StmRead, StmWrite, End, Buf.Push, Buf.Advance;
    Theorems.EndWire(c);
    assert c.wire.clientIn + [] == c.wire.clientIn && c.wire.clientOut + [] == c.wire.clientOut;
    match e {
      case ClientReadable(got, env) => ClientReadGrounded(cfg, c, got, env);
      case ClientWritable(sent) =>
        if sent > 0 {
          StmWriteSame(cfg, c.(originBuffer := c.originBuffer.Advance(sent), wire := c.wire.(clientOut := c.wire.clientOut + c.originBuffer.pending[..sent])),
                       false, Env([], true, true));
        }
      case OriginReadable(got, env) => OriginReadGrounded(cfg, c, got, env);
      case OriginWritable(sent, connected, env) => OriginWriteGrounded(cfg, c, sent, connected, env);
    }
  }

  lemma SoundSame(c: Conn, n: Conn)
    requires c.Sound() && n.parser == c.parser && n.doh == c.doh && n.phase == c.phase
    ensures n.Sound()
  {
  }

  lemma ClientReadGrounded(cfg: Config, c: Conn, got: Received, env: Env)
    requires c.Sound()
    ensures var n := ClientRead(cfg, c, got, env);
            && n.wire.clientIn == c.wire.clientIn + (if got.Data? then got.bytes else []) && n.wire.clientOut == c.wire.clientOut
  {
    hide Conn.Sound, StmRead, End, Buf.Push;
    Theorems.EndWire(c);
    Theorems.EndWire(c.(wire := c.wire.(clientEof := true)));
    var m := if got.Data? then c.(clientBuffer := c.clientBuffer.Push(got.bytes), wire := c.wire.(clientIn := c.wire.clientIn + got.bytes))
             else c.(clientStatus := ClosingStatus, wire := c.wire.(clientEof := true));
    SoundSame(c, m);
    StmReadSame(cfg, m, true, env);
    assert c.wire.clientIn + [] == c.wire.clientIn;
  }

  lemma OriginReadGrounded(cfg: Config, c: Conn, got: Received, env: Env)
    requires c.Sound()
    ensures SameClientBytes(c, OriginRead(cfg, c, got, env))
  {
    hide Conn.Sound, StmRead, End, Buf.Push;
    Theorems.EndWire(c);
    var m := if got.Data? then c.(originBuffer := c.originBuffer.Push(got.bytes), wire := c.wire.(originIn := c.wire.originIn + got.bytes))
             else c.(originStatus := ClosingStatus, wire := c.wire.(originEof := true));
    SoundSame(c, m);
    StmReadSame(cfg, m, false, env);
  }

  lemma OriginWriteGrounded(cfg: Config, c: Conn, sent: int, connected: bool, env: Env)
    requires sent <= |Outgoing(c).pending|
    ensures Same(c, OriginWrite(cfg, c, sent, connected, env))
  {
    hide StmWrite, End, Buf.Advance;
    Theorems.EndWire(c);
    StmWriteSame(cfg, c, connected, env);
    if sent > 0 {
      if c.phase == SendRequestLine || c.phase == SendDohRequest {
        StmWriteSame(cfg, c.(originBuffer := c.originBuffer.Advance(sent),
                             wire := c.wire.(originOut := c.wire.originOut + c.originBuffer.pending[..sent])), connected, env);
      } else {
        StmWriteSame(cfg, c.(clientBuffer := c.clientBuffer.Advance(sent),
                             wire := c.wire.(originOut := c.wire.originOut + c.clientBuffer.pending[..sent])), connected, env);
      }
    }
  }

  /** In the relay the origin's streams are recorded just as faithfully. */
  lemma RelayGrounded(cfg: Config, c: Conn, e: Event)
    requires Inv(c) && Relaying(c.phase) && Enabled(c, e) && c.Sound()
    ensures var n := Next(cfg, c, e);
            n.wire.originIn == c.wire.originIn + FromOrigin(e) && n.wire.originOut == c.wire.originOut + ToOrigin(c, e)
  {
    hide Conn.Sound, Next, End, RelayProof.Reacted, Streams, Names, Shape, Buf.Push, Buf.Advance;
    assert c.wire.originIn + [] == c.wire.originIn && c.wire.originOut + [] == c.wire.originOut;
    if RelayProof.Through(e) {
      RelayProof.StepIsReaction(cfg, c, e);
      ReactedOrigin(RelayProof.Moved(c, e), e);
    } else {
      NotThrough(cfg, c, e);
      Theorems.EndWire(c);
    }
  }

  lemma ReactedOrigin(m: Conn, e: Event)
    requires Relaying(m.phase)
    ensures var n := RelayProof.Reacted(m, e); n.wire.originIn == m.wire.originIn && n.wire.originOut == m.wire.originOut
  {
    hide End, ConnectedInterests, ClosingInterests, EmptyInterests;
    Theorems.ConnectedWire(m);
    OriginSame(m);
    OriginSame(m.(phase := Closing));
    OriginSame(m.(phase := EmptyBuffers));
    Theorems.EndWire(EmptyInterests(m).(phase := Done));
    Theorems.EndWire(m.(wire := m.wire.(originShut := m.wire.originShut + 1), phase := Done));
    Theorems.EndWire(m.(wire := m.wire.(clientShut := m.wire.clientShut + 1), phase := Done));
  }

  lemma OriginSame(m: Conn)
    ensures ClosingInterests(m).wire.originIn == m.wire.originIn && ClosingInterests(m).wire.originOut == m.wire.originOut
    ensures EmptyInterests(m).wire.originIn == m.wire.originIn && EmptyInterests(m).wire.originOut == m.wire.originOut
  {
  }

  /** All that the events `lo` to `hi` brought from the client, and all they sent to it. */
  function Heard(es: seq<Event>, lo: nat, hi: nat): seq<byte>
    requires lo <= hi <= |es|
    decreases hi - lo
  {
    if lo == hi then [] else Heard(es, lo, hi - 1) + FromClient(es[hi - 1])
  }

  function Told(es: seq<Event>, cs: seq<Conn>, lo: nat, hi: nat): seq<byte>
    requires lo <= hi <= |es| <= |cs|
    decreases hi - lo
  {
    if lo == hi then [] else Told(es, cs, lo, hi - 1) + ToClient(cs[hi - 1], es[hi - 1])
  }

  /** The same for the origin. */
  function HeardOrigin(es: seq<Event>, lo: nat, hi: nat): seq<byte>
    requires lo <= hi <= |es|
    decreases hi - lo
  {
    if lo == hi then [] else HeardOrigin(es, lo, hi - 1) + FromOrigin(es[hi - 1])
  }

  function ToldOrigin(es: seq<Event>, cs: seq<Conn>, lo: nat, hi: nat): seq<byte>
    requires lo <= hi <= |es| <= |cs|
    decreases hi - lo
  {
    if lo == hi then [] else ToldOrigin(es, cs, lo, hi - 1) + ToOrigin(cs[hi - 1], es[hi - 1])
  }

  /** On every run the client's two streams are what the events carried. */
  lemma {:induction false} ClientStreams(cfg: Config, es: seq<Event>, cs: seq<Conn>, k: nat)
    requires Run(cfg, es, cs) && Fits(cfg) && k < |cs|
    ensures cs[k].wire.clientIn == Heard(es, 0, k) && cs[k].wire.clientOut == Told(es, cs, 0, k)
    decreases k
  {
    hide Inv, Next, Conn.Sound, Enabled, Finished, ToClient, FromClient;
    if k > 0 {
      ClientStreams(cfg, es, cs, k - 1);
      assert Enabled(cs[k - 1], es[k - 1]) && cs[k - 1 + 1] == Fire(cfg, cs[k - 1], es[k - 1]);
      EnabledRuns(cs[k - 1], es[k - 1]);
      RunKeeps(cfg, es, cs, k - 1);
      InvSound(cs[k - 1]);
      EventGrounded(cfg, cs[k - 1], es[k - 1]);
    }
  }

  /** From the moment the relay has started the origin's two streams are too. */
  lemma {:induction false} OriginStreams(cfg: Config, es: seq<Event>, cs: seq<Conn>, i: nat, k: nat)
    requires Run(cfg, es, cs) && Fits(cfg) && i <= k < |cs| && cs[i].life == Running && Relaying(cs[i].phase)
    ensures cs[k].wire.originIn == cs[i].wire.originIn + HeardOrigin(es, i, k)
    ensures cs[k].wire.originOut == cs[i].wire.originOut + ToldOrigin(es, cs, i, k)
    decreases k
  {
    hide Inv, Next, Conn.Sound, Enabled, Finished, ToOrigin, FromOrigin, Fresh;
    if k > i {
      OriginStreams(cfg, es, cs, i, k - 1);
      assert Enabled(cs[k - 1], es[k - 1]) && cs[k - 1 + 1] == Fire(cfg, cs[k - 1], es[k - 1]);
      EnabledRuns(cs[k - 1], es[k - 1]);
      RunKeeps(cfg, es, cs, k - 1);
      InvSound(cs[k - 1]);
      Theorems.SilentAfterShutdown(cfg, es, cs, i, k - 1);
      RelayGrounded(cfg, cs[k - 1], es[k - 1]);
    } else {
      assert cs[i].wire.originIn + [] == cs[i].wire.originIn && cs[i].wire.originOut + [] == cs[i].wire.originOut;
    }
  }
}
