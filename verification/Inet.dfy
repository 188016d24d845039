/** `inet_pton(AF_INET, ...)`: strict dotted-decimal text to a four-byte address. */
module Inet {
  import opened Bytes

  /** Each octet in decimal followed by a dot. */
  function Dots(octets: seq<byte>): seq<byte> {
    if octets == [] then []
    else Dots(octets[..|octets| - 1]) + Decimal(octets[|octets| - 1]) + [DOT]
  }

  /** The text "a.b.c.d". */
  function Dotted(a: seq<byte>): seq<byte>
    requires |a| == 4
  {
    Dots(a[..3]) + Decimal(a[3])
  }

  /** One left-to-right scan: finished octets and the octet being read, if it has a digit yet. */
  function Scan(s: seq<byte>, octets: seq<byte>, cur: Option<byte>): (r: Option<seq<byte>>)
    ensures r.Some? ==> |r.value| == 4
    decreases |s|
  {
    if s == [] then
      if |octets| == 3 && cur.Some? then Some(octets + [cur.value]) else None
    else if IsDigit(s[0]) then
      match cur
      case None => Scan(s[1..], octets, Some(s[0] - ZERO))
      case Some(v) =>
        var next := v * 10 + (s[0] - ZERO);
        if v == 0 || next > 255 then None else Scan(s[1..], octets, Some(next))
    else if s[0] == DOT && cur.Some? && |octets| < 3 then
      Scan(s[1..], octets + [cur.value], None)
    else None
  }

  function Pton4(s: seq<byte>): (r: Option<seq<byte>>)
    ensures r.Some? ==> |r.value| == 4
  {
    Scan(s, [], None)
  }

  /** The text already scanned. */
  function Seen(octets: seq<byte>, cur: Option<byte>): seq<byte> {
    Dots(octets) + if cur.Some? then Decimal(cur.value) else []
  }

  lemma {:induction false} ScanSound(s: seq<byte>, octets: seq<byte>, cur: Option<byte>)
    requires |octets| <= 3
    ensures match Scan(s, octets, cur)
            case Some(a) => |a| == 4 && Seen(octets, cur) + s == Dotted(a)
            case None => true
    decreases |s|
  {
    if s == [] {
      if |octets| == 3 && cur.Some? {
        var a := octets + [cur.value];
        assert a[..3] == octets;
        assert Seen(octets, cur) + s == Seen(octets, cur);
      }
    } else if IsDigit(s[0]) {
      match cur {
        case None =>
          var d: byte := s[0] - ZERO;
          ScanSound(s[1..], octets, Some(d));
          assert Decimal(d) == [s[0]];
          assert Seen(octets, None) + s == Seen(octets, Some(d)) + s[1..];
        case Some(v) =>
          var next := v * 10 + (s[0] - ZERO);
          if v != 0 && next <= 255 {
            ScanSound(s[1..], octets, Some(next));
            assert next / 10 == v && next % 10 == s[0] - ZERO;
            assert Decimal(next) == Decimal(v) + [s[0]];
            assert Seen(octets, cur) + s == Seen(octets, Some(next)) + s[1..];
          }
      }
    } else if s[0] == DOT && cur.Some? && |octets| < 3 {
      var more := octets + [cur.value];
      assert more[..|more| - 1] == octets;
      ScanSound(s[1..], more, None);
      assert Seen(octets, cur) + s == Seen(more, None) + s[1..];
    }
  }

  lemma {:induction false} ScanDecimal(v: nat, t: seq<byte>, octets: seq<byte>)
    requires v < 256
    ensures Scan(Decimal(v) + t, octets, None) == Scan(t, octets, Some(v))
    decreases v
  {
    if v < 10 {
      assert (Decimal(v) + t)[1..] == t;
    } else {
      var d: byte := 48 + v % 10;
      ScanDecimal(v / 10, [d] + t, octets);
      assert Decimal(v) + t == Decimal(v / 10) + ([d] + t);
      assert ([d] + t)[1..] == t;
    }
  }

  lemma ScanOctet(v: byte, t: seq<byte>, octets: seq<byte>)
    requires |octets| < 3
    ensures Scan(Decimal(v) + [DOT] + t, octets, None) == Scan(t, octets + [v], None)
  {
    ScanDecimal(v, [DOT] + t, octets);
    assert Decimal(v) + [DOT] + t == Decimal(v) + ([DOT] + t);
    assert ([DOT] + t)[1..] == t;
  }

  lemma {:induction false} ScanDots(octets: seq<byte>, t: seq<byte>)
    requires |octets| <= 3
    ensures Scan(Dots(octets) + t, [], None) == Scan(t, octets, None)
    decreases |octets|
  {
    if octets == [] {
      assert Dots(octets) + t == t;
    } else {
      var pre, v := octets[..|octets| - 1], octets[|octets| - 1];
      assert Dots(octets) + t == Dots(pre) + (Decimal(v) + [DOT] + t);
      ScanDots(pre, Decimal(v) + [DOT] + t);
      ScanOctet(v, t, pre);
      assert pre + [v] == octets;
    }
  }

  lemma ScanComplete(a: seq<byte>)
    requires |a| == 4
    ensures Pton4(Dotted(a)) == Some(a)
  {
    ScanDots(a[..3], Decimal(a[3]));
    ScanDecimal(a[3], [], a[..3]);
    assert Decimal(a[3]) + [] == Decimal(a[3]);
    assert a[..3] + [a[3]] == a;
  }

  /** The scan accepts exactly the canonical dotted-decimal texts, and yields the address they spell. */
  lemma Pton4Exact(s: seq<byte>, a: seq<byte>)
    ensures Pton4(s) == Some(a) <==> |a| == 4 && s == Dotted(a)
  {
    ScanSound(s, [], None);
    assert Seen([], None) + s == s;
    if |a| == 4 {
      ScanComplete(a);
    }
  }

  lemma {:induction false} DotsLength(octets: seq<byte>)
    ensures 2 * |octets| <= |Dots(octets)| <= 4 * |octets|
    decreases |octets|
  {
    if octets != [] {
      DotsLength(octets[..|octets| - 1]);
    }
  }

  /** The longest dotted text is 15 characters. */
  lemma DottedLength(a: seq<byte>)
    requires |a| == 4
    ensures 7 <= |Dotted(a)| <= 15
  {
    DotsLength(a[..3]);
  }
}
