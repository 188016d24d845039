/** Name resolution: the failover between addresses and from A to AAAA keeps its ledger and its order. */
module ResolveProof {
  import opened Bytes
  import opened Buffers
  import Dns
  import Framing
  import opened Failover
  import opened Machine
  import opened Invariant
  import opened SetupProof

  // ---- attempts --------------------------------------------------------------------------------

  lemma TriedMore(r: Response, k: nat, next: nat, port: u16)
    requires Dns.AllOk(r.answers) && k <= next <= |r.answers|
    ensures Tried(r, next, port)
         == Tried(r, k, port) + AttemptsAt(r.answers, Wanted(r.answers, k, next, WantedKind(r.family)), r.family, port)
  {
    hide Wanted;
    WantedSplit(r.answers, 0, k, next, WantedKind(r.family));
  }

  /** What was tried so far is a prefix of all there is to try. */
  lemma TriedPrefix(r: Response, k: nat, port: u16)
    requires Dns.AllOk(r.answers) && k <= |r.answers|
    ensures Tried(r, k, port) <= Tried(r, |r.answers|, port)
  {
    hide Wanted, AttemptsAt, Tried;
    TriedMore(r, k, |r.answers|, port);
  }

  lemma TriedNothing(r: Response, port: u16)
    requires Dns.AllOk(r.answers)
    ensures Tried(r, 0, port) == []
  {
    NoneWanted(r.answers, 0, WantedKind(r.family));
  }

  /** The log grows by exactly the attempts of an orderly walk. */
  lemma LogTriedExact(c: Conn, r: Response, k: nat, w: Walk, base: seq<Attempt>)
    requires Dns.AllOk(r.answers) && k <= |r.answers| && InOrder(r.answers, k, WantedKind(r.family), w)
    requires c.log.attempts == base + Tried(r, k, c.parser.port)
    ensures LogTried(c, r.answers, w.tried, r.family).log.attempts == base + Tried(r, w.next, c.parser.port)
  {
    hide Wanted, Tried;
    TriedMore(r, k, w.next, c.parser.port);
    var more := AttemptsAt(r.answers, w.tried, r.family, c.parser.port);
    assert base + Tried(r, k, c.parser.port) + more == base + (Tried(r, k, c.parser.port) + more);
  }

  lemma LogTriedRest(c: Conn, answers: seq<Dns.Answer>, tried: seq<nat>, f: Family)
    ensures var n := LogTried(c, answers, tried, f); n == c.(log := c.log.(attempts := n.log.attempts))
  {
    hide AttemptsAt;
  }

  /** However many answers there are, giving up means having passed the last one. */
  lemma {:induction false} ExhaustedPast(answers: seq<Dns.Answer>, k: byte, wanted: nat, sockets: seq<Socket>, room: nat)
    ensures var w := NextAddress(answers, k, wanted, sockets, room); w.Exhausted? ==> w.next >= |answers|
    decreases |sockets|, room
  {
    if k < |answers| && room > 0 {
      if answers[k].kind != wanted {
        ExhaustedPast(answers, Dns.Inc8(k), wanted, sockets, room - 1);
      } else if sockets == [] {
        if |answers| <= 255 {
          ExhaustedPast(answers, Dns.Inc8(k), wanted, sockets, room - 1);
        }
      } else if sockets[0] == NoSocket {
        ExhaustedPast(answers, Dns.Inc8(k), wanted, sockets[1..], 256);
      }
    }
  }

  // ---- a response being used ---------------------------------------------------------------------

  /** The attempts owed to the responses before the last one. */
  ghost function Base(l: Log, port: u16): seq<Attempt>
    requires ResponsesOk(l)
  {
    if |l.responses| == 2 then AllOf(l.responses[0], port) else []
  }

  ghost function Last(l: Log): Response
    requires |l.responses| >= 1
  {
    l.responses[|l.responses| - 1]
  }

  /** The parser holds the last response logged, and the walk over it stands at `currentTry`. */
  ghost predicate Holds(d: Doh, r: Response) {
    && d.active && d.frame.Valid() && d.family == r.family && r.rcode == d.frame.dns.flags.rcode
    && r.answers == (if d.frame.dns.answers.Some? then d.frame.dns.answers.value else [])
    && (|r.answers| <= 255 ==> d.currentTry <= |r.answers|) && (r.rcode != 0 ==> d.currentTry == 0)
  }

  ghost predicate Loaded(c: Conn) {
    && c.doh.Some? && ResponsesOk(c.log) && AllSourced(c.log) && |c.log.responses| >= 1
    && c.log.queries == (if |c.log.responses| == 1 then [Ipv4Try] else BOTH)
    && Holds(c.doh.value, Last(c.log))
    && (Small(c.log) ==>
          c.log.attempts == Base(c.log, c.parser.port) + Tried(Last(c.log), c.doh.value.currentTry, c.parser.port))
  }

  lemma WalkingIsLoaded(c: Conn)
    requires (WalkingA(c) || WalkingAaaa(c)) && ResponsesOk(c.log) && AllSourced(c.log)
    ensures Loaded(c)
  {
    hide Sourced, Tried, AllOf, Dns.AllOk, Framing.Frame.Valid;
    if WalkingA(c) && Small(c.log) {
      assert [] + c.log.attempts == c.log.attempts;
    }
  }

  lemma LoadedIsWalking(c: Conn)
    requires Loaded(c) && c.doh.value.frame.dns.answers.Some? && c.doh.value.frame.dns.flags.rcode == 0
    ensures if |c.log.responses| == 1 then WalkingA(c) else WalkingAaaa(c)
  {
    hide Sourced, Tried, AllOf, Dns.AllOk, Framing.Frame.Valid;
    if |c.log.responses| == 1 && Small(c.log) {
      assert [] + Tried(Last(c.log), c.doh.value.currentTry, c.parser.port) == Tried(Last(c.log), c.doh.value.currentTry, c.parser.port);
    }
  }

  /** Every attempt of a response in use is one it offers, in order. */
  lemma LoadedAttempts(c: Conn)
    requires Loaded(c)
    ensures AttemptsOk(c.log, c.parser.port)
  {
    hide Sourced, Tried, Dns.AllOk, Framing.Frame.Valid;
    if Small(c.log) {
      var r := Last(c.log);
      if r.rcode != 0 {
        TriedNothing(r, c.parser.port);
      } else {
        TriedPrefix(r, c.doh.value.currentTry, c.parser.port);
      }
      PrefixConcat(Base(c.log, c.parser.port), Tried(r, c.doh.value.currentTry, c.parser.port), AllOf(r, c.parser.port));
    }
  }

  lemma PrefixConcat(base: seq<Attempt>, a: seq<Attempt>, b: seq<Attempt>)
    requires a <= b
    ensures base + a <= base + b && base <= base + a && [] + a == a
  {
  }

  /** A response used to its end has had all its addresses tried. */
  lemma UsedUp(c: Conn)
    requires Loaded(c) && Small(c.log)
    requires c.doh.value.frame.dns.flags.rcode != 0 || c.doh.value.currentTry >= |Last(c.log).answers|
    ensures c.log.attempts == Base(c.log, c.parser.port) + AllOf(Last(c.log), c.parser.port)
  {
    hide Sourced, Tried, Dns.AllOk, Framing.Frame.Valid;
    if Last(c.log).rcode != 0 {
      TriedNothing(Last(c.log), c.parser.port);
    }
  }

  // ---- the next address ----------------------------------------------------------------------------

  /** A socket is being tried for an address of the last response, or for the second query. */
  ghost predicate Looking(c: Conn) {
    && (WalkingA(c) || (Switched(c) && c.log.queries == [Ipv4Try]) || WalkingAaaa(c))
    && Ledger(c) && AttemptsOk(c.log, c.parser.port) && c.log.queries <= BOTH
  }

  ghost predicate Books(c: Conn) {
    Ledger(c) && AttemptsOk(c.log, c.parser.port) && c.log.queries <= BOTH
  }

  /** Where looking for the next address may lead. */
  ghost predicate Outcome(c: Conn, st: Step) {
    && st.c.phase == c.phase
    && (|| st.c.life == Hung || st.c.life == Crashed
        || (SameClient(c, st.c) && st.next == Error && Refused(st.c))
        || (SameClient(c, st.c) && st.next == TryConnectionIp && OriginFresh(st.c) && Looking(st.c) && Quiet(c, st.c)))
  }

  ghost predicate Refused(c: Conn) {
    c.error == INTERNAL_SERVER_ERROR && !c.originRegistered && c.originInterest == NOOP && Books(c)
  }

  predicate Quiet(c: Conn, n: Conn) {
    n.originBuffer == c.originBuffer && n.error == c.error && n.clientInterest == c.clientInterest
  }

  predicate Unregistered(c: Conn) { !c.originRegistered && c.originInterest == NOOP }

  lemma SwitchOutcome(c: Conn, d: Doh, sockets: seq<Socket>)
    requires c.life == Running && Unregistered(c) && d.family == Ipv4Try
    requires Loaded(c.(doh := Some(d))) && Ledger(c.(doh := Some(d)))
    requires d.frame.dns.flags.rcode != 0 || d.currentTry >= d.frame.dns.an
    ensures Outcome(c, SwitchToIpv6(c, d, sockets))
    ensures SwitchToIpv6(c, d, sockets).c.life == Running
  {
    hide Sourced, Tried, AllOf, Dns.AllOk, Framing.Frame.Valid, Loaded, AttemptsOk, WalkingA, WalkingAaaa, Small, Switched;
    var c1 := c.(doh := Some(d));
    var m := FreeAnswers(c, d.(active := false, family := Ipv6Try));
    LoadedAttempts(c1);
    AttemptsOkSame(c1.log, m.log, c.parser.port);
    SwitchedNow(c1, d, m);
    SwitchedSame(m, NewOrigin(m));
  }

  lemma SwitchedNow(c: Conn, d: Doh, m: Conn)
    requires Loaded(c) && c.doh == Some(d) && d.family == Ipv4Try
    requires d.frame.dns.flags.rcode != 0 || d.currentTry >= d.frame.dns.an
    requires m.doh == Some(d.(active := false, family := Ipv6Try, frame := d.frame.(dns := Dns.Destroy(d.frame.dns))))
    requires m.log == c.log.(frees := m.log.frees) && m.parser == c.parser
    ensures Switched(m) && m.log.queries == [Ipv4Try]
  {
    hide Sourced, Tried, Dns.AllOk, AllOf;
    if Small(c.log) {
      AnswersCounted(d);
      UsedUp(c);
      assert [] + AllOf(Last(c.log), c.parser.port) == AllOf(Last(c.log), c.parser.port);
    }
  }

  lemma AnswersCounted(d: Doh)
    requires d.frame.Valid()
    ensures d.frame.dns.answers.Some? ==> |d.frame.dns.answers.value| == d.frame.dns.an
    ensures d.frame.dns.answers.Some? ==> Dns.AllOk(d.frame.dns.answers.value)
  {
  }

  lemma SwitchedSame(c: Conn, n: Conn)
    requires Switched(c) && n.doh == c.doh && n.log == c.log && n.parser == c.parser
    ensures Switched(n)
  {
    hide AllOf, Dns.AllOk;
  }

  lemma WalkingSame(c: Conn, n: Conn)
    requires n.doh == c.doh && n.log == c.log && n.parser == c.parser
    ensures WalkingA(c) ==> WalkingA(n)
    ensures WalkingAaaa(c) ==> WalkingAaaa(n)
  {
    hide AllOf, Dns.AllOk, Tried;
  }

  /** Running out of answers: on to AAAA, or an error. */
  lemma OutOutcome(c: Conn, d: Doh, sockets: seq<Socket>)
    requires c.life == Running && Unregistered(c)
    requires Loaded(c.(doh := Some(d))) && Ledger(c.(doh := Some(d)))
    requires d.frame.dns.flags.rcode != 0 || d.currentTry >= d.frame.dns.an
    ensures Outcome(c, OutOfAnswers(c, d, sockets))
    ensures OutOfAnswers(c, d, sockets).c.life == Running
  {
    hide Loaded, AttemptsOk, WalkingA, WalkingAaaa, Switched;
    if d.family == Ipv4Try {
      SwitchOutcome(c, d, sockets);
    } else {
      LoadedAttempts(c.(doh := Some(d)));
      assert c.log.queries <= BOTH by { LoadedQueries(c.(doh := Some(d))); }
    }
  }

  lemma LoadedQueries(c: Conn)
    requires Loaded(c)
    ensures c.log.queries <= BOTH && c.doh.value.frame.Valid() && c.doh.value.active
  {
  }

  /** One walk over the answers: the cursor moves to where the walk stopped. */
  lemma WalkLoaded(c: Conn, d: Doh, sockets: seq<Socket>)
    requires Loaded(c) && c.doh == Some(d) && d.frame.dns.answers.Some? && d.frame.dns.flags.rcode == 0
    ensures var answers := d.frame.dns.answers.value;
            var w := NextAddress(answers, d.currentTry, WantedKind(d.family), sockets, 256);
            !w.Spins? ==>
              Loaded(LogTried(c, answers, w.tried, d.family).(doh := Some(d.(currentTry := w.next))))
              && (w.Exhausted? ==> w.next >= d.frame.dns.an)
    ensures Small(c.log) ==> !NextAddress(d.frame.dns.answers.value, d.currentTry, WantedKind(d.family), sockets, 256).Spins?
  {
    hide Sourced, Tried, AllOf, Dns.AllOk, Framing.Frame.Valid, NextAddress, LogTried, Wanted;
    var answers := d.frame.dns.answers.value;
    var w := NextAddress(answers, d.currentTry, WantedKind(d.family), sockets, 256);
    var c1 := LogTried(c, answers, w.tried, d.family);
    AnswersCounted(d);
    LogTriedRest(c, answers, w.tried, d.family);
    ExhaustedPast(answers, d.currentTry, WantedKind(d.family), sockets, 256);
    if |answers| <= 255 {
      WalkInOrder(answers, d.currentTry, WantedKind(d.family), sockets, 256);
      if Small(c.log) {
        LogTriedExact(c, Last(c.log), d.currentTry, w, Base(c.log, c.parser.port));
      }
    }
  }

  lemma PickedOutcome(c: Conn, socket: Socket)
    requires c.life == Running && Unregistered(c) && Loaded(c) && Ledger(c)
    requires c.doh.value.frame.dns.answers.Some? && c.doh.value.frame.dns.flags.rcode == 0
    ensures socket == NotRegistered ==> Outcome(c, Fail(c.(originStatus := ActiveStatus), INTERNAL_SERVER_ERROR))
    ensures socket != NotRegistered ==> Outcome(c, Step(NewOrigin(c), TryConnectionIp))
  {
    hide Loaded, AttemptsOk, WalkingA, WalkingAaaa, Switched, Framing.Frame.Valid;
    LoadedAttempts(c);
    LoadedQueries(c);
    LoadedIsWalking(c);
    WalkingSame(c, NewOrigin(c));
  }

  lemma OutcomeFrom(c: Conn, m: Conn, st: Step)
    requires SameClient(c, m) && m.phase == c.phase && Quiet(c, m) && Outcome(m, st)
    ensures Outcome(c, st)
  {
    hide Looking, Refused, OriginFresh;
  }

  /** Answers were announced but there is no array to look them up in. */
  predicate Missing(d: Doh) {
    d.frame.dns.flags.rcode == 0 && d.frame.dns.answers.None? && d.currentTry < d.frame.dns.an
  }

  /** The walk over the answers never ends. */
  predicate Spinning(d: Doh, sockets: seq<Socket>) {
    && d.frame.dns.flags.rcode == 0 && d.frame.dns.answers.Some?
    && NeverEnds(d.frame.dns.answers.value, WantedKind(d.family), sockets)
  }

  lemma TryFamilyOutcome(c: Conn, d: Doh, sockets: seq<Socket>)
    requires c.life == Running && Unregistered(c) && Loaded(c) && Ledger(c) && c.doh == Some(d) && d.frame.dns.flags.rcode == 0
    ensures Outcome(c, TryFamily(c, d, sockets))
    ensures TryFamily(c, d, sockets).c.life == Hung <==> Spinning(d, sockets)
    ensures TryFamily(c, d, sockets).c.life == Crashed <==> Missing(d)
  {
    hide Loaded, AttemptsOk, WalkingA, WalkingAaaa, Switched, Framing.Frame.Valid, OutOfAnswers, NextAddress, LogTried, Looking, Refused, OriginFresh, NeverEnds;
    assert c.(doh := Some(d)) == c;
    if d.frame.dns.answers.None? {
      if d.currentTry >= d.frame.dns.an {
        OutOutcome(c, d, sockets);
      }
    } else {
      var answers := d.frame.dns.answers.value;
      var w := NextAddress(answers, d.currentTry, WantedKind(d.family), sockets, 256);
      var c1 := LogTried(c, answers, w.tried, d.family);
      LogTriedRest(c, answers, w.tried, d.family);
      WalkLoaded(c, d, sockets);
      SpinsExactly(answers, d.currentTry, WantedKind(d.family), sockets);
      match w {
        case Spins(_) =>
        case Exhausted(k, _) =>
          var rest := if |w.tried| <= |sockets| then sockets[|w.tried|..] else [];
          OutOutcome(c1, d.(currentTry := k), rest);
          OutcomeFrom(c, c1, OutOfAnswers(c1, d.(currentTry := k), rest));
        case Picked(k, socket, _) =>
          var c2 := c1.(doh := Some(d.(currentTry := k)));
          PickedOutcome(c2, socket);
          OutcomeFrom(c, c2, TryFamily(c, d, sockets));
      }
    }
  }

  lemma LoadedSame(c: Conn, n: Conn)
    requires Loaded(c) && Ledger(c) && n.doh == c.doh && n.log == c.log && n.parser == c.parser
    ensures Loaded(n) && Ledger(n)
  {
    hide Sourced, Tried, AllOf, Framing.Frame.Valid;
  }

  lemma NextDnsOutcome(c: Conn, d: Doh, sockets: seq<Socket>)
    requires c.life == Running && c.originRegistered && Loaded(c) && Ledger(c) && c.doh == Some(d)
    ensures Outcome(c, TryNextDns(c, d, sockets))
    ensures TryNextDns(c, d, sockets).c.life == Hung <==> Spinning(d, sockets)
    ensures TryNextDns(c, d, sockets).c.life == Crashed <==> Missing(d)
  {
    hide Loaded, AttemptsOk, Switched, Framing.Frame.Valid, Looking, OriginFresh, TryFamily, SwitchToIpv6, Ledger, NeverEnds;
    var u := UnregisterOrigin(c);
    LoadedSame(c, u);
    assert u.(doh := Some(d)) == u;
    if d.frame.dns.flags.rcode == 0 {
      TryFamilyOutcome(u, d, sockets);
    } else if d.family == Ipv4Try {
      SwitchOutcome(u, d, sockets);
    } else {
      LoadedAttempts(u);
      LoadedQueries(u);
      LedgerSame(u, Fail(u, INTERNAL_SERVER_ERROR).c);
      assert Outcome(u, Fail(u, INTERNAL_SERVER_ERROR));
    }
    OutcomeFrom(c, u, TryNextDns(c, d, sockets));
  }

  /** The resolver could not be reached for the second query: nothing is dereferenced, an error is reported. */
  lemma SwitchedOutcome(c: Conn, d: Doh, sockets: seq<Socket>)
    requires c.life == Running && c.originRegistered && Switched(c) && Books(c) && c.doh == Some(d)
    ensures Outcome(c, TryNextDns(c, d, sockets)) && TryNextDns(c, d, sockets).c.life == Running
  {
    hide AttemptsOk, AllOf, Dns.AllOk, Small;
  }
}
