/** The request sent to the origin, rebuilt from the parsed request line. */
module Rewrite {
  import opened Bytes
  import opened RequestLine
  import RequestPrint
  import Inet

  const REQUEST_LINE_SIZE := MAX_METHOD_LENGTH + SCHEME_LENGTH + MAX_FQDN_LENGTH + MAX_PORT_LENGTH + MAX_ORIGIN_FORM + VERSION_LENGTH + 16
  const TARGET_SIZE := SCHEME_LENGTH + MAX_FQDN_LENGTH + MAX_PORT_LENGTH + MAX_ORIGIN_FORM + 16

  /** " HTTP/1.0\r\n" */
  const HTTP_10: seq<byte> := [SP, 72, 84, 84, 80, 47, 49, 46, 48, CR, LF]
  const STAR: byte := 42

  /** OPTIONS on a target with no path asks about the server itself. */
  predicate ServerWide(q: Parser)
    requires q.InBounds()
  {
    CStr(q.verb) == OPTIONS && q.originForm[0] == 0
  }

  function RequestText(q: Parser): seq<byte>
    requires q.InBounds()
  {
    CStr(q.verb) + [SP] + (if ServerWide(q) then [STAR] else CStr(q.originForm)) + HTTP_10
  }

  predicate IsConnect(q: Parser)
    requires q.InBounds()
  {
    !ServerWide(q) && CStr(q.verb) == CONNECT
  }

  function HostText(h: HostField): seq<byte>
    requires h.Ipv4? ==> |h.addr| == 4
  {
    match h
    case Domain(bytes) => CStr(bytes)
    case Ipv4(addr, _) => Inet.Dotted(addr)
  }

  function TargetText(q: Parser): seq<byte>
    requires q.InBounds()
  {
    (if q.form == Absolute then SCHEME else []) + HostText(q.host) + [COLON] + Decimal(Swap16(q.port))
    + (if IsConnect(q) then [] else CStr(q.originForm))
  }

  lemma CStrHasNoNul(s: seq<byte>, k: nat)
    requires k < |CStr(s)|
    ensures s[k] == CStr(s)[k] != 0
  {
    assert CStr(s)[k] in CStr(s);
  }

  lemma CStrBound(s: seq<byte>, k: nat)
    requires ZeroFrom(s, k) && k < |s|
    ensures |CStr(s)| <= k
  {
    if |CStr(s)| > k {
      CStrHasNoNul(s, k);
    }
  }

  /** Every accepted request has terminated fields, so the rewritten line, the target string and the
      copied method fit their arrays with their final NUL. */
  lemma RewriteFits(s: seq<byte>)
    requires FeedAll(Init(), s).state == Done
    ensures var q := FeedAll(Init(), s);
            && |CStr(q.verb)| + 1 <= MAX_METHOD_LENGTH
            && (q.host.Domain? ==> |CStr(q.host.bytes)| <= 254)
            && |RequestText(q)| + 1 <= REQUEST_LINE_SIZE
            && |TargetText(q)| + 1 <= TARGET_SIZE
  {
    hide Feed, Decimal;
    FeedAllValid(Init(), s);
    var q := FeedAll(Init(), s);
    CStrBound(q.verb, MAX_METHOD_LENGTH - 1);
    CStrBound(q.originForm, MAX_ORIGIN_FORM - 1);
    match q.host {
      case Domain(bytes) => CStrBound(bytes, MAX_FQDN_LENGTH - 1);
      case Ipv4(addr, _) => Inet.DottedLength(addr);
    }
  }

  /** The rewritten line of a printed request: same method, the path or its stand-in, version 1.0. */
  lemma RewriteOfPrint(r: RequestPrint.Request)
    requires r.Printable() && (r.path.Some? ==> 0 !in r.path.value)
    ensures RequestText(FeedAll(Init(), RequestPrint.Print(r)))
         == r.verb + [SP] + (if r.verb == OPTIONS && r.path.None? then [STAR] else RequestPrint.OriginFormOf(r)) + HTTP_10
    ensures IsConnect(FeedAll(Init(), RequestPrint.Print(r))) <==> r.verb == CONNECT
  {
    hide Feed, FeedAll, RequestPrint.Print;
    RequestPrint.RoundTrip(r);
    var q := FeedAll(Init(), RequestPrint.Print(r));
    RequestPrint.TokensAreAString(r.verb);
    RequestPrint.CStrPad(r.verb, MAX_METHOD_LENGTH + 1);
    var of := RequestPrint.OriginFormOf(r);
    RequestPrint.CStrPad(of, MAX_ORIGIN_FORM);
    CStrPadded(of, []);
    assert of + [] == of;
    assert of == [] ==> q.originForm[0] == 0;
    assert of != [] ==> q.originForm[0] == of[0];
  }

  /** The target string of a printed request: the scheme unless it is CONNECT, the host, the number of the port, and
      the path unless it is CONNECT. */
  lemma TargetOfPrint(r: RequestPrint.Request)
    requires r.Printable() && (r.path.Some? ==> 0 !in r.path.value) && (r.digits.Some? ==> r.digits.value != [])
    ensures TargetText(FeedAll(Init(), RequestPrint.Print(r)))
         == (if r.verb == CONNECT then [] else SCHEME) + CStr(r.host) + [COLON]
            + Decimal(if r.digits.Some? then RequestPrint.Value(r.digits.value) else 80)
            + (if r.verb == CONNECT then [] else RequestPrint.OriginFormOf(r))
  {
    hide Feed, FeedAll, RequestPrint.Print, Decimal, Swap16, CStr, RequestPrint.Padded, IsConnect;
    RequestPrint.RoundTrip(r);
    var q := FeedAll(Init(), RequestPrint.Print(r));
    RewriteOfPrint(r);
    PathOfPrint(r);
    HostOfPrint(r);
    PortOfPrint(r);
    RequestPrint.CStrPad(RequestPrint.OriginFormOf(r), MAX_ORIGIN_FORM);
    if r.digits.Some? {
      RequestPrint.ValueBound(r.digits.value);
    }
    assert Swap16(q.port) == if r.digits.Some? then RequestPrint.Value(r.digits.value) else 80;
  }

  lemma PathOfPrint(r: RequestPrint.Request)
    requires r.Printable() && (r.path.Some? ==> 0 !in r.path.value)
    ensures CStr(RequestPrint.OriginFormOf(r)) == RequestPrint.OriginFormOf(r)
  {
    var of := RequestPrint.OriginFormOf(r);
    CStrPadded(of, []);
    assert of + [] == of;
  }

  lemma HostOfPrint(r: RequestPrint.Request)
    requires r.Printable()
    ensures RequestPrint.HostOf(r).Ipv4? ==> |RequestPrint.HostOf(r).addr| == 4
    ensures HostText(RequestPrint.HostOf(r)) == CStr(r.host)
  {
    hide CStr, RequestPrint.Padded;
    RequestPrint.CStrPad(r.host, MAX_FQDN_LENGTH + 1);
    match Inet.Pton4(CStr(r.host)) {
      case None =>
      case Some(a) => Inet.Pton4Exact(CStr(r.host), a);
    }
  }

  lemma PortOfPrint(r: RequestPrint.Request)
    requires r.Printable() && (r.digits.Some? ==> r.digits.value != [])
    ensures Swap16(RequestPrint.PortField(r)) == if r.digits.Some? then RequestPrint.Value(r.digits.value) else 80
  {
    hide Swap16;
    if r.digits.Some? {
      RequestPrint.ValueBound(r.digits.value);
      Swap16Involution(RequestPrint.Value(r.digits.value));
    } else {
      Swap16Involution(80);
    }
  }
}
