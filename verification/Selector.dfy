/** The selector's descriptor table and the sets `select` is given. */
module Selector {

  /** `FD_SETSIZE` */
  const ITEMS_MAX_SIZE := 1024
  /** What the proxy passes to `selector_new`. */
  const MAX_CONNECTIONS := 1024

  /** `Overrun`: an entry outside the table is looked at, and nothing is known of what follows. */
  datatype Outcome = Success | NoMemory | MaxFd | BadArguments | FdInUse | Overrun

  datatype Interest = Interest(read: bool, write: bool)

  /** `fd` is -1 in an unused entry. */
  datatype Item = Item(fd: int, interest: Interest)

  const UNUSED := Item(-1, Interest(false, false))

  // ---- capacity --------------------------------------------------------------------------------------

  function Pow2(n: nat): (p: nat)
    ensures p >= 1
  {
    if n == 0 then 1 else 2 * Pow2(n - 1)
  }

  /** The number of binary digits of `n`. */
  function Bits(n: nat): nat { if n == 0 then 0 else 1 + Bits(n / 2) }

  lemma {:induction false} BitsBound(n: nat)
    ensures n < Pow2(Bits(n)) && (n > 0 ==> Pow2(Bits(n)) <= 2 * n)
    decreases n
  {
    if n > 0 {
      BitsBound(n / 2);
    }
  }

  /** One more than the power of two above `n`, cut off at what `select` can serve. */
  function Capacity(n: nat): nat {
    var p := Pow2(Bits(n));
    (if p > ITEMS_MAX_SIZE then ITEMS_MAX_SIZE else p) + 1
  }

  /** It is more than was asked for exactly when the request can be served at all. */
  lemma CapacityCovers(n: nat)
    ensures Capacity(n) > n <==> n <= ITEMS_MAX_SIZE
    ensures Capacity(n) <= ITEMS_MAX_SIZE + 1
  {
    BitsBound(n);
  }

  /** Registering looks at entry `fd` of a table that has grown only for descriptors beyond its size: the access
      is inside the table except for the descriptor equal to the size. */
  lemma RegisterInBounds(size: nat, fd: int)
    requires ValidFd(fd)
    ensures fd < (if fd > size then Capacity(fd) else size) <==> fd != size
  {
    hide Capacity;
    CapacityCovers(fd);
  }

  /** A table made for 1024 elements has room for every descriptor from the start. */
  lemma FullTable(fd: int)
    requires ValidFd(fd)
    ensures fd < Capacity(MAX_CONNECTIONS) == ITEMS_MAX_SIZE + 1
  {
    hide Pow2;
    BitsBound(MAX_CONNECTIONS);
  }

  /** `next_capacity` */
  method NextCapacity(n: nat) returns (r: nat)
    ensures r == Capacity(n)
  {
    var bits, rest := 0, n;
    while rest != 0
      invariant bits + Bits(rest) == Bits(n)
    {
      rest := rest / 2;
      bits := bits + 1;
    }
    BitsBound(n);
    var p := Pow2(bits);
    assert p >= n;
    r := (if p > ITEMS_MAX_SIZE then ITEMS_MAX_SIZE else p) + 1;
  }

  // ---- the table ---------------------------------------------------------------------------------------

  predicate ValidFd(fd: int) { 0 <= fd < ITEMS_MAX_SIZE }

  predicate Used(item: Item) { item.fd != -1 }

  /** The registered descriptors and their interests. */
  ghost function Registered(fds: seq<Item>): map<int, Interest> {
    map i | 0 <= i < |fds| && Used(fds[i]) :: fds[i].interest
  }

  /** Entry `i` is unused or about descriptor `i`. */
  ghost predicate SelfIndexed(fds: seq<Item>) { forall i :: 0 <= i < |fds| ==> fds[i].fd == -1 || fds[i].fd == i }

  /** The largest registered descriptor, 0 when there is none. */
  ghost predicate IsMax(m: map<int, Interest>, max: int) {
    (forall fd :: fd in m ==> fd <= max) && (max in m || (max == 0 && m == map[]))
  }

  class FdSelector {
    var fds: array<Item>
    var maxFd: int
    var masterR: set<int>
    var masterW: set<int>

    /** The two sets and the maximum are an index over the table. */
    ghost predicate Valid()
      reads this, fds
    {
      && 0 < fds.Length <= ITEMS_MAX_SIZE + 1 && SelfIndexed(fds[..]) && 0 <= maxFd < fds.Length
      && masterR == ReadSet(Registered(fds[..])) && masterW == WriteSet(Registered(fds[..]))
      && IsMax(Registered(fds[..]), maxFd)
    }

    ghost function View(): map<int, Interest>
      reads this, fds
    {
      Registered(fds[..])
    }

    /** `ensure_capacity`: on success there are more than `n` entries; the old ones are kept and the new ones
        unused. An unallocated table is one of length 0. */
    method EnsureCapacity(n: nat, memory: bool) returns (status: Outcome)
      modifies `fds
      ensures status == if n < old(fds.Length) then Success else if n > ITEMS_MAX_SIZE then MaxFd
                        else if memory then Success else NoMemory
      ensures fds == old(fds) || (fresh(fds) && fds.Length <= ITEMS_MAX_SIZE + 1)
      ensures status == Success ==> n < fds.Length && old(fds.Length) <= fds.Length
      ensures old(fds.Length) <= n && status == Success && n == ITEMS_MAX_SIZE ==> fds.Length == ITEMS_MAX_SIZE + 1
      ensures status != Success ==> fds == old(fds)
      ensures status == Success ==>
                forall i :: 0 <= i < fds.Length ==> fds[i] == if i < old(fds.Length) then old(fds[..])[i] else UNUSED
    {
      hide Capacity;
      CapacityCovers(n);
      FullTable(0);
      if n < fds.Length {
        status := Success;
      } else if n > ITEMS_MAX_SIZE {
        status := MaxFd;
      } else {
        var newSize := NextCapacity(n);
        if memory {
          var was := fds[..];
          fds := new Item[newSize](i => if 0 <= i < |was| then was[i] else UNUSED);
          status := Success;
        } else {
          status := NoMemory;
        }
      }
    }

    /** `selector_new` for as many elements as `select` can serve: the table has its final size. */
    static method NewSelector(memory: bool) returns (s: FdSelector?)
      ensures s == null <==> !memory
      ensures s != null ==> fresh(s) && fresh(s.fds) && s.Valid() && s.View() == map[] && s.fds.Length == ITEMS_MAX_SIZE + 1
    {
      s := new FdSelector();
      var status := s.EnsureCapacity(MAX_CONNECTIONS, memory);
      if status != Success {
        s := null;
      } else {
        NothingRegistered(s.fds[..]);
      }
    }

    constructor ()
      ensures fresh(fds) && fds.Length == 0 && maxFd == 0 && masterR == {} && masterW == {}
    {
      fds := new Item[0];
      maxFd, masterR, masterW := 0, {}, {};
    }

    /** `selector_register`. The descriptor equal to the size of the table, and only that one, is looked for
        outside it; a full-size table never meets it. */
    method Register(fd: int, hasHandler: bool, interest: Interest, memory: bool) returns (status: Outcome)
      requires Valid()
      modifies this, fds
      ensures Valid() && (fds == old(fds) || fresh(fds)) && fds.Length >= old(fds.Length)
      ensures !ValidFd(fd) || !hasHandler <==> status == BadArguments
      ensures status == Overrun <==> ValidFd(fd) && hasHandler && fd == old(fds.Length)
      ensures old(fds.Length) == ITEMS_MAX_SIZE + 1 ==> fds.Length == old(fds.Length) && status != Overrun
      ensures ValidFd(fd) && hasHandler && fd < old(fds.Length) ==> status == if fd in old(View()) then FdInUse else Success
      ensures View() == if status == Success then old(View())[fd := interest] else old(View())
    {
      if !ValidFd(fd) || !hasHandler {
        return BadArguments;
      }
      if fd > fds.Length {
        ghost var was := fds[..];
        status := EnsureCapacity(fd, memory);
        if status != Success {
          return;
        }
        GrownTable(was, fds[..]);
      }
      if fd == fds.Length {
        return Overrun;
      }
      if Used(fds[fd]) {
        return FdInUse;
      }
      EntryChanged(fds[..], fd, Item(fd, interest));
      fds[fd] := Item(fd, interest);
      if fd > maxFd {
        maxFd := fd;
      }
      UpdateFdset(fd);
      status := Success;
    }

    /** `items_update_fdset_for_fd` */
    method UpdateFdset(fd: int)
      requires 0 <= fd < fds.Length
      modifies `masterR, `masterW
      ensures masterR == old(masterR) - {fd} + (if Used(fds[fd]) && fds[fd].interest.read then {fd} else {})
      ensures masterW == old(masterW) - {fd} + (if Used(fds[fd]) && fds[fd].interest.write then {fd} else {})
    {
      masterR, masterW := masterR - {fd}, masterW - {fd};
      if Used(fds[fd]) {
        if fds[fd].interest.read {
          masterR := masterR + {fd};
        }
        if fds[fd].interest.write {
          masterW := masterW + {fd};
        }
      }
    }

    /** `items_max_fd`: only the entries up to the old maximum are looked at. */
    method ItemsMaxFd() returns (max: int)
      requires SelfIndexed(fds[..]) && 0 <= maxFd < fds.Length
      requires forall i :: maxFd < i < fds.Length ==> !Used(fds[i])
      ensures IsMax(Registered(fds[..]), max) && 0 <= max <= maxFd
    {
      max := 0;
      var i := 0;
      ghost var found := false;
      while i <= maxFd
        invariant 0 <= i <= maxFd + 1 && 0 <= max <= maxFd
        invariant forall k :: 0 <= k < i && Used(fds[k]) ==> k <= max && found
        invariant found ==> Used(fds[max])
        invariant !found ==> max == 0
      {
        if Used(fds[i]) {
          found := true;
          if fds[i].fd > max {
            max := fds[i].fd;
          }
        }
        i := i + 1;
      }
    }

    /** `selector_unregister_fd` */
    method Unregister(fd: int) returns (status: Outcome)
      requires Valid()
      modifies `maxFd, `masterR, `masterW, fds
      ensures Valid()
      ensures status == if ValidFd(fd) && fd >= fds.Length then Overrun
                        else if fd in old(View()) && ValidFd(fd) then Success else BadArguments
      ensures fds.Length == ITEMS_MAX_SIZE + 1 ==> status != Overrun
      ensures View() == if status == Success then old(View()) - {fd} else old(View())
    {
      if ValidFd(fd) && fd >= fds.Length {
        return Overrun;
      }
      if !ValidFd(fd) || !Used(fds[fd]) {
        return BadArguments;
      }
      EntryChanged(fds[..], fd, UNUSED);
      BeyondMax(fds[..], maxFd);
      fds[fd] := fds[fd].(interest := Interest(false, false));
      UpdateFdset(fd);
      fds[fd] := UNUSED;
      maxFd := ItemsMaxFd();
      status := Success;
    }

    /** `selector_set_interest` */
    method SetInterest(fd: int, interest: Interest) returns (status: Outcome)
      requires Valid()
      modifies `masterR, `masterW, fds
      ensures Valid()
      ensures status == if ValidFd(fd) && fd >= fds.Length then Overrun
                        else if fd in old(View()) && ValidFd(fd) then Success else BadArguments
      ensures fds.Length == ITEMS_MAX_SIZE + 1 ==> status != Overrun
      ensures View() == if status == Success then old(View())[fd := interest] else old(View())
    {
      if ValidFd(fd) && fd >= fds.Length {
        return Overrun;
      }
      if !ValidFd(fd) || !Used(fds[fd]) {
        return BadArguments;
      }
      EntryChanged(fds[..], fd, Item(fd, interest));
      MaxSame(fds[..], fd, interest, maxFd);
      fds[fd] := fds[fd].(interest := interest);
      UpdateFdset(fd);
      status := Success;
    }
  }

  // ---- what one entry changes ----------------------------------------------------------------------------

  ghost function ReadSet(m: map<int, Interest>): set<int> { set fd | fd in m && m[fd].read }

  ghost function WriteSet(m: map<int, Interest>): set<int> { set fd | fd in m && m[fd].write }

  lemma NothingRegistered(fds: seq<Item>)
    requires forall i :: 0 <= i < |fds| ==> fds[i] == UNUSED
    ensures Registered(fds) == map[] && SelfIndexed(fds) && IsMax(map[], 0)
    ensures ReadSet(map[]) == {} && WriteSet(map[]) == {}
  {
  }

  lemma BeyondMax(fds: seq<Item>, max: int)
    requires IsMax(Registered(fds), max) && 0 <= max
    ensures forall i :: max < i < |fds| ==> !Used(fds[i])
  {
    forall i | max < i < |fds| ensures !Used(fds[i]) {
      assert i !in Registered(fds);
    }
  }

  lemma MaxSame(fds: seq<Item>, fd: int, interest: Interest, max: int)
    requires 0 <= fd < |fds| && Used(fds[fd]) && IsMax(Registered(fds), max)
    ensures IsMax(Registered(fds)[fd := interest], max)
  {
    assert fd in Registered(fds);
  }

  lemma GrownTable(was: seq<Item>, fds: seq<Item>)
    requires SelfIndexed(was) && |was| <= |fds|
    requires forall i :: 0 <= i < |fds| ==> fds[i] == if i < |was| then was[i] else UNUSED
    ensures SelfIndexed(fds) && Registered(fds) == Registered(was)
  {
  }

  /** One entry rewritten: the map, the two sets and the self-indexing follow. */
  lemma EntryChanged(fds: seq<Item>, fd: int, item: Item)
    requires SelfIndexed(fds) && 0 <= fd < |fds| && (item.fd == fd || item.fd == -1)
    ensures var n := fds[fd := item];
            var m := Registered(fds);
            && SelfIndexed(n)
            && Registered(n) == (if Used(item) then m[fd := item.interest] else m - {fd})
            && ReadSet(Registered(n)) == ReadSet(m) - {fd} + (if Used(item) && item.interest.read then {fd} else {})
            && WriteSet(Registered(n)) == WriteSet(m) - {fd} + (if Used(item) && item.interest.write then {fd} else {})
  {
  }
}
