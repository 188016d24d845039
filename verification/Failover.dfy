/** Walking the answers of a DNS response: which address is tried next, and with what result. */
module Failover {
  import opened Bytes
  import Dns

  /** What `socket`/`connect` and `selector_register` do for one address. */
  datatype Socket = NoSocket | NotRegistered | Registered

  /** `next` is `current_try` afterwards and `tried` the indices a socket was asked for, in order. */
  datatype Walk =
    | Picked(next: byte, socket: Socket, tried: seq<nat>)
    | Exhausted(next: byte, tried: seq<nat>)
    | Spins(tried: seq<nat>)

  function Note(k: nat, w: Walk): Walk {
    match w
    case Picked(n, s, t) => Picked(n, s, [k] + t)
    case Exhausted(n, t) => Exhausted(n, [k] + t)
    case Spins(t) => Spins([k] + t)
  }

  /** The loop of `try_next_ipv4_connection` and `try_next_ipv6_connection`, which differ in the record type
      they want. `sockets` lists the coming results of connecting, failures after the last one. The index is
      eight bits wide, so with more than 255 answers the guard never fails; `room` counts the steps since a
      socket was asked for and shows when the index has come round with nothing to try. */
  function NextAddress(answers: seq<Dns.Answer>, k: byte, wanted: nat, sockets: seq<Socket>, room: nat): (w: Walk)
    decreases |sockets|, room
  {
    if k >= |answers| then Exhausted(k, [])
    else if room == 0 then Spins([])
    else if answers[k].kind != wanted then NextAddress(answers, Dns.Inc8(k), wanted, sockets, room - 1)
    else if sockets == [] then
      if |answers| > 255 then Spins([k])
      else Note(k, NextAddress(answers, Dns.Inc8(k), wanted, sockets, room - 1))
    else if sockets[0] == NoSocket then Note(k, NextAddress(answers, Dns.Inc8(k), wanted, sockets[1..], 256))
    else Picked(Dns.Inc8(k), sockets[0], [k])
  }

  /** The indices from `lo` up to `hi` that hold a wanted record. */
  function Wanted(answers: seq<Dns.Answer>, lo: nat, hi: nat, wanted: nat): (r: seq<nat>)
    requires lo <= hi <= |answers|
    ensures forall j :: 0 <= j < |r| ==> lo <= r[j] < hi && answers[r[j]].kind == wanted
    ensures forall i, j :: 0 <= i < j < |r| ==> r[i] < r[j]
    decreases hi - lo
  {
    if lo == hi then []
    else (if answers[lo].kind == wanted then [lo] else []) + Wanted(answers, lo + 1, hi, wanted)
  }

  lemma {:induction false} WantedSplit(answers: seq<Dns.Answer>, lo: nat, mid: nat, hi: nat, wanted: nat)
    requires lo <= mid <= hi <= |answers|
    ensures Wanted(answers, lo, hi, wanted) == Wanted(answers, lo, mid, wanted) + Wanted(answers, mid, hi, wanted)
    decreases mid - lo
  {
    if lo < mid {
      WantedSplit(answers, lo + 1, mid, hi, wanted);
    }
  }

  /** The walk ended, tried exactly the wanted records it passed, each once and in order, and gave up only
      after the last one. */
  ghost predicate InOrder(answers: seq<Dns.Answer>, k: nat, wanted: nat, w: Walk) {
    && !w.Spins? && k <= w.next <= |answers|
    && w.tried == Wanted(answers, k, w.next, wanted)
    && (w.Exhausted? ==> w.next == |answers|)
    && (w.Picked? ==> k < w.next && w.socket != NoSocket && w.tried != [] && w.tried[|w.tried| - 1] == w.next - 1)
  }

  lemma InOrderFrom(answers: seq<Dns.Answer>, k: nat, wanted: nat, w: Walk)
    requires k < |answers| && InOrder(answers, k + 1, wanted, w)
    ensures InOrder(answers, k, wanted, if answers[k].kind == wanted then Note(k, w) else w)
  {
    hide Wanted;
    SkipOne(answers, k, w.next, wanted);
  }

  /** With at most 255 answers the walk is always orderly, whatever the sockets do. */
  lemma {:induction false} WalkInOrder(answers: seq<Dns.Answer>, k: byte, wanted: nat, sockets: seq<Socket>, room: nat)
    requires |answers| <= 255 && k <= |answers| <= k + room
    ensures InOrder(answers, k, wanted, NextAddress(answers, k, wanted, sockets, room))
    decreases |sockets|, room
  {
    hide InOrder, Wanted, Note;
    if k == |answers| {
      NothingLeft(answers, k, wanted);
    } else if answers[k].kind == wanted && sockets != [] && sockets[0] != NoSocket {
      FirstPicked(answers, k, wanted, sockets[0]);
    } else if answers[k].kind == wanted && sockets != [] {
      WalkInOrder(answers, k + 1, wanted, sockets[1..], 256);
      InOrderFrom(answers, k, wanted, NextAddress(answers, k + 1, wanted, sockets[1..], 256));
    } else {
      WalkInOrder(answers, k + 1, wanted, sockets, room - 1);
      InOrderFrom(answers, k, wanted, NextAddress(answers, k + 1, wanted, sockets, room - 1));
    }
  }

  lemma NothingLeft(answers: seq<Dns.Answer>, k: byte, wanted: nat)
    requires k == |answers|
    ensures InOrder(answers, k, wanted, Exhausted(k, []))
  {
    NoneWanted(answers, k, wanted);
  }

  lemma FirstPicked(answers: seq<Dns.Answer>, k: byte, wanted: nat, socket: Socket)
    requires k < |answers| <= 255 && answers[k].kind == wanted && socket != NoSocket
    ensures InOrder(answers, k, wanted, Picked(k + 1, socket, [k]))
  {
    SkipOne(answers, k, k + 1, wanted);
    NoneWanted(answers, k + 1, wanted);
  }

  lemma SkipOne(answers: seq<Dns.Answer>, k: nat, hi: nat, wanted: nat)
    requires k < hi <= |answers|
    ensures Wanted(answers, k, hi, wanted)
         == (if answers[k].kind == wanted then [k] else []) + Wanted(answers, k + 1, hi, wanted)
  {
  }

  lemma NoneWanted(answers: seq<Dns.Answer>, k: nat, wanted: nat)
    requires k <= |answers|
    ensures Wanted(answers, k, k, wanted) == []
  {
  }

  // ---- which address it is ------------------------------------------------------------------

  /** None of the first `n` sockets can be had. */
  predicate AllFail(sockets: seq<Socket>, n: nat) { forall j :: 0 <= j < n && j < |sockets| ==> sockets[j] == NoSocket }

  /** Socket `j` is the first that can. */
  predicate FirstOpen(sockets: seq<Socket>, j: nat) { j < |sockets| && sockets[j] != NoSocket && AllFail(sockets, j) }

  /** The `j`-th wanted record gets the `j`-th socket: the walk stops at the first that can be had and gives up,
      having asked for all of them, exactly when there is none. */
  ghost predicate FirstServed(answers: seq<Dns.Answer>, k: nat, wanted: nat, sockets: seq<Socket>, w: Walk)
    requires k <= |answers|
  {
    var ws := Wanted(answers, k, |answers|, wanted);
    && (AllFail(sockets, |ws|) ==> w.Exhausted? && w.next == |answers| && w.tried == ws)
    && (forall j :: 0 <= j < |ws| && FirstOpen(sockets, j) ==>
          w.Picked? && w.next == ws[j] + 1 && w.socket == sockets[j] && w.tried == ws[..j + 1])
  }

  function Rest(sockets: seq<Socket>): seq<Socket> { if sockets == [] then [] else sockets[1..] }

  lemma FailLater(sockets: seq<Socket>, n: nat)
    requires AllFail(sockets, n + 1)
    ensures AllFail(Rest(sockets), n)
  {
    forall j | 0 <= j < n && j < |Rest(sockets)| ensures Rest(sockets)[j] == NoSocket {
      assert Rest(sockets)[j] == sockets[j + 1];
    }
  }

  lemma OpenLater(sockets: seq<Socket>, j: nat)
    requires FirstOpen(sockets, j) && sockets[0] == NoSocket
    ensures j > 0 && FirstOpen(Rest(sockets), j - 1) && Rest(sockets)[j - 1] == sockets[j]
  {
    forall i | 0 <= i < j - 1 ensures Rest(sockets)[i] == NoSocket {
      assert Rest(sockets)[i] == sockets[i + 1];
    }
  }

  lemma OpenFirst(sockets: seq<Socket>, j: nat)
    requires FirstOpen(sockets, j) && sockets[0] != NoSocket
    ensures j == 0
  {
  }

  lemma ServeLater(answers: seq<Dns.Answer>, k: nat, wanted: nat, sockets: seq<Socket>, w: Walk)
    requires k < |answers| && answers[k].kind == wanted && FirstServed(answers, k + 1, wanted, Rest(sockets), w)
    requires sockets != [] ==> sockets[0] == NoSocket
    ensures FirstServed(answers, k, wanted, sockets, Note(k, w))
  {
    hide Wanted, AllFail, FirstOpen, Rest;
    SkipOne(answers, k, |answers|, wanted);
    var ws, vs := Wanted(answers, k, |answers|, wanted), Wanted(answers, k + 1, |answers|, wanted);
    assert ws == [k] + vs;
    if AllFail(sockets, |ws|) {
      FailLater(sockets, |vs|);
    }
    forall j | 0 <= j < |ws| && FirstOpen(sockets, j)
      ensures j < |sockets| && Note(k, w).Picked? && Note(k, w).next == ws[j] + 1 && Note(k, w).socket == sockets[j] && Note(k, w).tried == ws[..j + 1]
    {
      OpenBounds(sockets, j);
      OpenLater(sockets, j);
      assert ws[j] == vs[j - 1] && ws[..j + 1] == [k] + vs[..j];
    }
  }

  lemma OpenBounds(sockets: seq<Socket>, j: nat)
    requires FirstOpen(sockets, j)
    ensures j < |sockets| && sockets[j] != NoSocket
  {
  }

  lemma ServeNow(answers: seq<Dns.Answer>, k: byte, wanted: nat, sockets: seq<Socket>)
    requires k < |answers| <= 255 && answers[k].kind == wanted && sockets != [] && sockets[0] != NoSocket
    ensures FirstServed(answers, k, wanted, sockets, Picked(k + 1, sockets[0], [k]))
  {
    hide Wanted;
    SkipOne(answers, k, |answers|, wanted);
    var ws := Wanted(answers, k, |answers|, wanted);
    assert ws[0] == k && ws[..1] == [k];
    forall j | 0 <= j < |ws| && FirstOpen(sockets, j) ensures j == 0 {
      OpenFirst(sockets, j);
    }
  }

  /** With at most 255 answers the walk serves the first record that can be served. */
  lemma {:induction false} WalkExactly(answers: seq<Dns.Answer>, k: byte, wanted: nat, sockets: seq<Socket>, room: nat)
    requires |answers| <= 255 && k <= |answers| <= k + room
    ensures FirstServed(answers, k, wanted, sockets, NextAddress(answers, k, wanted, sockets, room))
    decreases |sockets|, room
  {
    hide FirstServed, Wanted, Note;
    assert sockets == [] ==> Rest(sockets) == sockets;
    if k == |answers| {
      ServeNone(answers, k, wanted, sockets);
    } else if answers[k].kind != wanted {
      WalkExactly(answers, k + 1, wanted, sockets, room - 1);
      ServeSame(answers, k, wanted, sockets, NextAddress(answers, k + 1, wanted, sockets, room - 1));
    } else if sockets == [] {
      WalkExactly(answers, k + 1, wanted, sockets, room - 1);
      ServeLater(answers, k, wanted, sockets, NextAddress(answers, k + 1, wanted, sockets, room - 1));
    } else if sockets[0] == NoSocket {
      WalkExactly(answers, k + 1, wanted, sockets[1..], 256);
      ServeLater(answers, k, wanted, sockets, NextAddress(answers, k + 1, wanted, sockets[1..], 256));
    } else {
      ServeNow(answers, k, wanted, sockets);
    }
  }

  lemma ServeNone(answers: seq<Dns.Answer>, k: byte, wanted: nat, sockets: seq<Socket>)
    requires k == |answers|
    ensures FirstServed(answers, k, wanted, sockets, Exhausted(k, []))
  {
    NoneWanted(answers, k, wanted);
  }

  lemma ServeSame(answers: seq<Dns.Answer>, k: nat, wanted: nat, sockets: seq<Socket>, w: Walk)
    requires k < |answers| && answers[k].kind != wanted && FirstServed(answers, k + 1, wanted, sockets, w)
    ensures FirstServed(answers, k, wanted, sockets, w)
  {
    SkipOne(answers, k, |answers|, wanted);
  }

  /** Either none of the first `n` sockets can be had or one of them is the first. */
  lemma {:induction false} FirstOrNone(sockets: seq<Socket>, n: nat) returns (j: nat)
    ensures AllFail(sockets, n) || (j < n && FirstOpen(sockets, j))
    decreases n
  {
    j := 0;
    if n > 0 {
      j := FirstOrNone(sockets, n - 1);
      if AllFail(sockets, n - 1) {
        j := n - 1;
      }
    }
  }

  /** With 256 answers or more the guard holds for ever: the walk never gives up. */
  lemma {:induction false} WrapNeverExhausts(answers: seq<Dns.Answer>, k: byte, wanted: nat, sockets: seq<Socket>, room: nat)
    requires |answers| >= 256
    ensures !NextAddress(answers, k, wanted, sockets, room).Exhausted?
    decreases |sockets|, room
  {
    if room > 0 {
      if answers[k].kind != wanted {
        WrapNeverExhausts(answers, Dns.Inc8(k), wanted, sockets, room - 1);
      } else if sockets != [] && sockets[0] == NoSocket {
        WrapNeverExhausts(answers, Dns.Inc8(k), wanted, sockets[1..], 256);
      }
    }
  }

  /** When no socket can be had, 256 answers or more make the loop spin. */
  lemma {:induction false} WrapSpins(answers: seq<Dns.Answer>, k: byte, wanted: nat, room: nat)
    requires |answers| >= 256
    ensures NextAddress(answers, k, wanted, [], room).Spins?
    decreases room
  {
    if room > 0 && answers[k].kind != wanted {
      WrapSpins(answers, Dns.Inc8(k), wanted, room - 1);
    }
  }

  /** A record the eight-bit index can get to. */
  predicate HasKind(answers: seq<Dns.Answer>, wanted: nat) { exists i :: 0 <= i < |answers| && i < 256 && answers[i].kind == wanted }

  /** More answers than the index can count, and none that can be tried or no socket to be had. */
  predicate NeverEnds(answers: seq<Dns.Answer>, wanted: nat, sockets: seq<Socket>) {
    |answers| >= 256 && (!HasKind(answers, wanted) || forall j :: 0 <= j < |sockets| ==> sockets[j] == NoSocket)
  }

  /** Steps from one value of the index to the next time it is `w`. */
  function Ahead(k: byte, w: byte): nat { if k <= w then w - k else 256 - k + w }

  lemma {:induction false} NothingToTry(answers: seq<Dns.Answer>, k: byte, wanted: nat, sockets: seq<Socket>, room: nat)
    requires |answers| >= 256 && !HasKind(answers, wanted)
    ensures NextAddress(answers, k, wanted, sockets, room).Spins?
    decreases room
  {
    if room > 0 {
      NothingToTry(answers, Dns.Inc8(k), wanted, sockets, room - 1);
    }
  }

  lemma {:induction false} SomethingToTry(answers: seq<Dns.Answer>, k: byte, wanted: nat, sockets: seq<Socket>, room: nat, w: byte)
    requires |answers| >= 256 && answers[w].kind == wanted && Ahead(k, w) < room
    ensures NextAddress(answers, k, wanted, sockets, room).Spins? <==> forall j :: 0 <= j < |sockets| ==> sockets[j] == NoSocket
    decreases |sockets|, room
  {
    if answers[k].kind != wanted {
      SomethingToTry(answers, Dns.Inc8(k), wanted, sockets, room - 1, w);
    } else if sockets != [] && sockets[0] == NoSocket {
      SomethingToTry(answers, Dns.Inc8(k), wanted, sockets[1..], 256, w);
      assert forall j :: 0 < j < |sockets| ==> sockets[j] == sockets[1..][j - 1];
    }
  }

  /** Wherever it starts, the walk never ends exactly when there are 256 answers or more and either none of the
      first 256 is of the wanted type or every socket fails. */
  lemma SpinsExactly(answers: seq<Dns.Answer>, k: byte, wanted: nat, sockets: seq<Socket>)
    ensures NextAddress(answers, k, wanted, sockets, 256).Spins? <==> NeverEnds(answers, wanted, sockets)
  {
    hide NextAddress;
    if |answers| <= 255 {
      if k <= |answers| {
        WalkInOrder(answers, k, wanted, sockets, 256);
      } else {
        BeyondTheEnd(answers, k, wanted, sockets);
      }
    } else if HasKind(answers, wanted) {
      var w :| 0 <= w < |answers| && w < 256 && answers[w].kind == wanted;
      SomethingToTry(answers, k, wanted, sockets, 256, w);
    } else {
      NothingToTry(answers, k, wanted, sockets, 256);
    }
  }

  lemma BeyondTheEnd(answers: seq<Dns.Answer>, k: byte, wanted: nat, sockets: seq<Socket>)
    requires k > |answers|
    ensures NextAddress(answers, k, wanted, sockets, 256) == Exhausted(k, [])
  {
  }

  /** The walk ends whatever the network does if, and only if, the response has at most 255 answers. */
  lemma TerminatesIffEightBits(answers: seq<Dns.Answer>, wanted: nat)
    ensures (forall sockets :: !NextAddress(answers, 0, wanted, sockets, 256).Spins?) <==> |answers| <= 255
  {
    if |answers| <= 255 {
      forall sockets ensures !NextAddress(answers, 0, wanted, sockets, 256).Spins? {
        WalkInOrder(answers, 0, wanted, sockets, 256);
      }
    } else {
      WrapSpins(answers, 0, wanted, 256);
    }
  }

  /** The loop itself. */
  method WalkAnswers(answers: seq<Dns.Answer>, start: byte, wanted: nat, sockets: seq<Socket>) returns (w: Walk)
    ensures w == NextAddress(answers, start, wanted, sockets, 256)
  {
    var k: byte := start;
    var used, room := 0, 256;
    var tried: seq<nat> := [];
    while k < |answers| && room > 0
      invariant 0 <= used <= |sockets|
      invariant NextAddress(answers, start, wanted, sockets, 256)
             == After(tried, NextAddress(answers, k, wanted, sockets[used..], room))
      decreases |sockets| - used, room
    {
      var current := answers[k];
      AfterNote(tried, k, NextAddress(answers, Dns.Inc8(k), wanted, sockets[used..], room - 1));
      if current.kind != wanted {
        k, room := Dns.Inc8(k), room - 1;
        continue;
      }
      tried := tried + [k];
      if used == |sockets| {
        if |answers| > 255 {
          return Spins(tried);
        }
        k, room := Dns.Inc8(k), room - 1;
      } else {
        var socket := sockets[used];
        assert sockets[used..][1..] == sockets[used + 1..];
        AfterNote(tried[..|tried| - 1], k, NextAddress(answers, Dns.Inc8(k), wanted, sockets[used + 1..], 256));
        assert tried[..|tried| - 1] + [k] == tried;
        used, room := used + 1, 256;
        k := Dns.Inc8(k);
        if socket != NoSocket {
          return Picked(k, socket, tried);
        }
      }
    }
    assert tried + [] == tried;
    w := if k >= |answers| then Exhausted(k, tried) else Spins(tried);
  }

  /** A walk that continues one with `tried` already asked for. */
  function After(tried: seq<nat>, w: Walk): Walk {
    match w
    case Picked(n, s, t) => Picked(n, s, tried + t)
    case Exhausted(n, t) => Exhausted(n, tried + t)
    case Spins(t) => Spins(tried + t)
  }

  lemma AfterNote(tried: seq<nat>, k: nat, w: Walk)
    ensures After(tried, Note(k, w)) == After(tried + [k], w)
  {
    assert forall t: seq<nat> :: tried + ([k] + t) == tried + [k] + t;
  }
}
