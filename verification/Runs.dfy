/** What holds on every run of a connection. */
module Runs {
  import opened Buffers
  import RequestLine
  import Dns
  import Framing
  import opened Machine
  import opened Invariant
  import opened SetupProof
  import opened ResolveProof
  import opened StepProof
  import RelayProof

  /** One event; a parser outside its arrays would be a crash. */
  ghost function Fire(cfg: Config, c: Conn, e: Event): Conn
    requires Enabled(c, e)
  {
    if c.Sound() then Next(cfg, c, e) else c.(life := Crashed)
  }

  /** `cs` are the states a new connection goes through on the events `es`. */
  ghost predicate Run(cfg: Config, es: seq<Event>, cs: seq<Conn>) {
    && |cs| == |es| + 1 && cs[0] == Fresh()
    && forall i :: 0 <= i < |es| ==> Enabled(cs[i], es[i]) && cs[i + 1] == Fire(cfg, cs[i], es[i])
  }

  // ---- one step -------------------------------------------------------------------------------

  /** The two ways a resolver can make the proxy loop for ever: bytes that arrive after the DNS message is
      complete are never consumed, and an 8-bit index never passes the end of 256 answers. */
  ghost predicate Hangs(c: Conn, e: Event) {
    && c.doh.Some?
    && ((c.phase == AwaitDohResponse && e.OriginReadable? && e.got.Data? && Framing.Judge(c.doh.value.frame) == Framing.Complete)
        || (c.phase == AwaitDohResponse && e.OriginReadable? && e.got.Eof? && Spinning(c.doh.value, e.env.sockets))
        || (c.phase == TryConnectionIp && e.OriginWritable? && !e.connected && Spinning(c.doh.value, e.env.sockets)))
  }

  /** The resolver closes between the two bytes of ANCOUNT, the first of which was not zero. */
  ghost predicate CutInCount(c: Conn, e: Event) {
    && c.phase == AwaitDohResponse && e.OriginReadable? && e.got.Eof? && c.doh.Some?
    && c.doh.value.frame.dns.state == Dns.HeaderAn && c.doh.value.frame.dns.i == 1 && c.doh.value.frame.dns.an != 0
    && c.doh.value.frame.dns.flags.rcode == 0
  }

  lemma InvSound(c: Conn)
    requires Inv(c)
    ensures c.Sound() && c.life == Running
  {
    hide Streams, Names, Conn.Sound;
  }

  lemma MissingIsCut(c: Conn)
    requires Inv(c) && c.phase == AwaitDohResponse && c.doh.Some?
    ensures Missing(c.doh.value) <==>
            c.doh.value.frame.dns.state == Dns.HeaderAn && c.doh.value.frame.dns.i == 1 && c.doh.value.frame.dns.an != 0
            && c.doh.value.frame.dns.flags.rcode == 0
  {
    hide Streams, Names, Conn.Sound, Framing.Frame.Valid, Framing.Judge, Missing;
    assert AwaitShape(c);
    MissingInFrame(c.doh.value);
  }

  lemma MissingInFrame(d: Doh)
    requires d.frame.Valid() && d.currentTry == 0
    requires Framing.Judge(d.frame) == Framing.Continue || Framing.Judge(d.frame) == Framing.Complete
    ensures Missing(d) <==>
            d.frame.dns.state == Dns.HeaderAn && d.frame.dns.i == 1 && d.frame.dns.an != 0 && d.frame.dns.flags.rcode == 0
  {
    hide Dns.Parser.Contents;
  }

  /** Any event in any state that satisfies the invariant: it goes on, or ends with everything accounted for;
      it hangs or crashes exactly when the resolver misbehaves in the ways named. */
  lemma StepOk(cfg: Config, c: Conn, e: Event)
    requires Inv(c) && Enabled(c, e) && Fits(cfg)
    ensures c.Sound() && Good(Next(cfg, c, e))
    ensures Next(cfg, c, e).life == Hung <==> Hangs(c, e)
    ensures Next(cfg, c, e).life == Crashed <==> CutInCount(c, e)
  {
    hide Inv, Next, Conn.Sound, Spinning, Missing, Framing.Judge;
    InvSound(c);
    InvPhases(c);
    if c.phase == ParsingRequestLine {
      ParsingStep(cfg, c, e);
    } else if c.phase == TryConnectionIp {
      OnlyOriginWrites(c, e);
      TryStep(cfg, c, e);
    } else if c.phase == SendDohRequest || c.phase == SendRequestLine {
      SendStep(cfg, c, e);
    } else if c.phase == AwaitDohResponse {
      OnlyOriginWrites(c, e);
      AwaitStep(cfg, c, e);
      if c.doh.Some? {
        MissingIsCut(c);
      }
    } else if c.phase == Error {
      OnlyErrorWrites(c, e);
      ErrorStepIs(cfg, c, e.sent);
    } else {
      RelayGood(cfg, c, e);
    }
  }

  lemma InvPhases(c: Conn)
    requires Inv(c)
    ensures c.phase != Done
  {
    hide Streams, Names, Conn.Sound;
  }

  lemma OnlyErrorWrites(c: Conn, e: Event)
    requires Inv(c) && c.phase == Error && Enabled(c, e)
    ensures e.ClientWritable?
  {
    hide Streams, Names, Conn.Sound;
  }

  lemma ErrorStepIs(cfg: Config, c: Conn, sent: int)
    requires Inv(c) && c.phase == Error && Enabled(c, ClientWritable(sent))
    ensures c.Sound()
    ensures var n := Next(cfg, c, ClientWritable(sent)); Good(n) && (n.life == Running || n.life == Ended)
  {
    hide Inv, ClientWrite, Conn.Sound, Delivered, AttemptsOk;
    InvSound(c);
    ErrorStep(cfg, c, sent);
  }

  lemma RelayGood(cfg: Config, c: Conn, e: Event)
    requires Inv(c) && Relaying(c.phase) && Enabled(c, e)
    ensures c.Sound()
    ensures var n := Next(cfg, c, e); Good(n) && (n.life == Running || n.life == Ended)
  {
    hide Shape, Streams, Names, Conn.Sound, Books, Delivered, AttemptsOk, End;
    InvSound(c);
    NamesBooks(c);
    if RelayProof.Through(e) {
      assert c.Sound();
      RelayThrough(cfg, c, e);
    } else {
      assert Next(cfg, c, e) == End(c) by { NotThrough(cfg, c, e); }
      EndGood(c);
    }
  }

  lemma NotThrough(cfg: Config, c: Conn, e: Event)
    requires c.Sound() && Enabled(c, e) && !RelayProof.Through(e) && Relaying(c.phase)
    ensures Next(cfg, c, e) == End(c)
  {
    hide Conn.Sound, End;
  }

  lemma RelayThrough(cfg: Config, c: Conn, e: Event)
    requires c.Sound() && Shape(c) && Streams(c) && Books(c) && Relaying(c.phase) && Enabled(c, e) && RelayProof.Through(e)
    ensures var n := Next(cfg, c, e); Good(n) && (n.life == Running || n.life == Ended)
  {
    hide Shape, Streams, Names, Conn.Sound, Books, Delivered, AttemptsOk, End, Next;
    RelayProof.RelayStep(cfg, c, e);
    var n := Next(cfg, c, e);
    BooksAre(c);
    if n.life == Running {
      BooksSame(c, n);
      NamesSettled(n);
    } else {
      EndLedger(c);
      AttemptsOkSame(c.log, n.log, c.parser.port);
    }
  }

  // ---- every run --------------------------------------------------------------------------------

  lemma FreshInv()
    ensures Inv(Fresh())
  {
    hide RequestLine.Init;
    FreshNames(Fresh());
    FeedNothing(RequestLine.Init());
    assert !RequestLine.Init().Terminal() by { FreshParser(); }
  }

  lemma FreshParser()
    ensures !RequestLine.Init().Terminal()
  {
  }

  /** The invariant holds in every state of every run, for as long as the connection runs. */
  lemma {:induction false} RunKeeps(cfg: Config, es: seq<Event>, cs: seq<Conn>, k: nat)
    requires Run(cfg, es, cs) && Fits(cfg) && k < |cs|
    ensures Good(cs[k])
    decreases k
  {
    hide Inv, Finished, Next, Conn.Sound, Fresh, Enabled;
    if k == 0 {
      FreshInv();
      assert Fresh().life == Running by { InvSound(Fresh()); }
    } else {
      RunKeeps(cfg, es, cs, k - 1);
      assert Enabled(cs[k - 1], es[k - 1]) && cs[k - 1 + 1] == Fire(cfg, cs[k - 1], es[k - 1]);
      EnabledRuns(cs[k - 1], es[k - 1]);
      StepOk(cfg, cs[k - 1], es[k - 1]);
    }
  }

  lemma EnabledRuns(c: Conn, e: Event)
    requires Enabled(c, e)
    ensures c.life == Running
  {
  }
}
