/** Request lines as text: what a printed line parses to, and how the parsed line is rewritten. */
module RequestPrint {
  import opened Bytes
  import opened RequestLine
  import Inet

  // ---- folding the parser over a string --------------------------------------

  lemma {:induction false} FeedAllConcat(p: Parser, a: seq<byte>, b: seq<byte>)
    requires p.InBounds()
    ensures FeedAll(p, a + b) == FeedAll(FeedAll(p, a), b)
    decreases |a|
  {
    if a == [] {
      assert a + b == b;
    } else {
      assert (a + b)[1..] == a[1..] + b;
      FeedAllConcat(Feed(p, a[0]), a[1..], b);
    }
  }

  lemma FeedAllOne(p: Parser, c: byte)
    requires p.InBounds()
    ensures FeedAll(p, [c]) == Feed(p, c)
  {
    assert [c][1..] == [];
    assert FeedAll(Feed(p, c), []) == Feed(p, c);
  }

  lemma FeedAllThen(p: Parser, a: seq<byte>, c: byte)
    requires p.InBounds()
    ensures FeedAll(p, a + [c]) == Feed(FeedAll(p, a), c)
  {
    FeedAllConcat(p, a, [c]);
    FeedAllOne(FeedAll(p, a), c);
  }

  /** Terminal states absorb whatever follows. */
  lemma {:induction false} TerminalAbsorbs(p: Parser, s: seq<byte>)
    requires p.InBounds() && p.Terminal()
    ensures FeedAll(p, s) == p
    decreases |s|
  {
    if s != [] {
      assert Feed(p, s[0]) == p;
      TerminalAbsorbs(p, s[1..]);
    }
  }

  // ---- arrays holding a string ------------------------------------------------

  /** A C array of `n` bytes holding `s` and zeros. */
  function Padded(s: seq<byte>, n: nat): (a: seq<byte>)
    requires |s| <= n
    ensures |a| == n && s <= a && ZeroFrom(a, |s|)
  {
    s + Zeros(n - |s|)
  }

  lemma PaddedPut(s: seq<byte>, n: nat, c: byte)
    requires |s| < n
    ensures Padded(s, n)[|s| := c] == Padded(s + [c], n)
    ensures Padded(s, n)[|s| := 0] == Padded(s, n)
  {
  }

  lemma {:induction false} CStrPad(s: seq<byte>, n: nat)
    requires |s| <= n
    ensures CStr(Padded(s, n)) == CStr(s)
    decreases |s|
  {
    if s == [] {
    } else if s[0] != 0 {
      assert Padded(s, n)[1..] == Padded(s[1..], n - 1);
      CStrPad(s[1..], n - 1);
    }
  }

  // ---- the printed form -------------------------------------------------------

  datatype Request = Request(verb: seq<byte>, host: seq<byte>, digits: Option<seq<byte>>,
                             path: Option<seq<byte>>, major: nat, minor: nat) {
    /** Apart from the number of digits of the port. */
    predicate Spelled() {
      && |verb| <= 23 && (forall k :: 0 <= k < |verb| ==> IsToken(verb[k]))
      && 1 <= |host| <= 254 && host[0] != LBRACKET
      && (forall k :: 0 <= k < |host| ==> HostByte(host[k]))
      && (digits.Some? ==> forall k :: 0 <= k < |digits.value| ==> IsDigit(digits.value[k]))
      && (path.Some? ==> 1 <= |path.value| <= 1023 && EndOfAuthority(path.value[0]) && SP !in path.value)
      && major < 10 && minor < 10
    }

    predicate Printable() { Spelled() && (digits.Some? ==> |digits.value| <= 4) }
  }

  predicate HostByte(c: byte) { c != COLON && c != SP && !EndOfAuthority(c) }

  function PrintTarget(r: Request): seq<byte> {
    (if r.verb == CONNECT then [] else SCHEME) + r.host
    + (if r.digits.Some? then [COLON] + r.digits.value else [])
    + (if r.path.Some? then r.path.value else [])
  }

  function PrintVersion(major: nat, minor: nat): (v: seq<byte>)
    requires major < 10 && minor < 10
    ensures |v| == 10
  {
    HTTP_SLASH + [ZERO + major, DOT, ZERO + minor, CR, LF]
  }

  function Print(r: Request): seq<byte>
    requires r.Spelled()
  {
    r.verb + [SP] + PrintTarget(r) + [SP] + PrintVersion(r.major, r.minor)
  }

  function Value(ds: seq<byte>): nat
    requires forall k :: 0 <= k < |ds| ==> IsDigit(ds[k])
  {
    if ds == [] then 0
    else
      assert IsDigit(ds[|ds| - 1]);
      10 * Value(ds[..|ds| - 1]) + (ds[|ds| - 1] - ZERO)
  }

  lemma {:induction false} ValueBound(ds: seq<byte>)
    requires forall k :: 0 <= k < |ds| ==> IsDigit(ds[k])
    ensures |ds| <= 4 ==> Value(ds) < Pow10(|ds|) <= 10000
    decreases |ds|
  {
    if ds != [] {
      ValueBound(ds[..|ds| - 1]);
    }
  }

  /** The port field: 80 when there is no colon, the decimal value after one; a colon with no digits
      swaps the default a second time. */
  function PortField(r: Request): u16
    requires r.Printable()
  {
    match r.digits
    case None => DEFAULT_PORT
    case Some(ds) => ValueBound(ds); Swap16(if ds == [] then DEFAULT_PORT else Value(ds))
  }

  function HostOf(r: Request): HostField
    requires r.Printable()
  {
    match Inet.Pton4(CStr(r.host))
    case None => Domain(Padded(r.host, MAX_FQDN_LENGTH + 1))
    case Some(a) => Ipv4(a, PortField(r))
  }

  function OriginFormOf(r: Request): seq<byte> {
    match r.path
    case Some(path) => path
    case None => if r.verb == OPTIONS then [] else [SLASH]
  }

  /** What the request structure must hold after the line has been read. */
  ghost predicate Holds(q: Parser, r: Request)
    requires r.Printable()
  {
    && q.verb == Padded(r.verb, MAX_METHOD_LENGTH + 1)
    && q.form == (if r.verb == CONNECT then Authority else Absolute)
    && q.host == HostOf(r)
    && q.port == PortField(r)
    && q.originForm == Padded(OriginFormOf(r), MAX_ORIGIN_FORM)
  }

  // ---- segment by segment -----------------------------------------------------

  /** `tr[k]` is the parser after the first `k` bytes of `s`. */
  ghost predicate IsRun(tr: seq<Parser>, s: seq<byte>) {
    && |tr| == |s| + 1 && tr[0] == Init()
    && forall k :: 0 <= k < |s| ==> StepAt(tr, s, k)
  }

  ghost predicate StepAt(tr: seq<Parser>, s: seq<byte>, k: nat)
    requires k < |s| && |tr| == |s| + 1
  {
    tr[k].InBounds() && tr[k + 1] == Feed(tr[k], s[k])
  }

  lemma RunOf(s: seq<byte>) returns (tr: seq<Parser>)
    ensures IsRun(tr, s)
    ensures forall k :: 0 <= k <= |s| ==> tr[k] == FeedAll(Init(), s[..k])
  {
    tr := seq(|s| + 1, k requires 0 <= k <= |s| => FeedAll(Init(), s[..k]));
    forall k | 0 <= k < |s| ensures StepAt(tr, s, k) {
      assert s[..k + 1] == s[..k] + [s[k]];
      FeedAllThen(Init(), s[..k], s[k]);
    }
  }

  /** `t` sits in `s` at offset `o`. */
  ghost predicate Sub(s: seq<byte>, o: nat, t: seq<byte>) {
    o + |t| <= |s| && forall j :: 0 <= j < |t| ==> s[o + j] == t[j]
  }

  lemma {:induction false} VerbSegment(tr: seq<Parser>, s: seq<byte>, m: seq<byte>, j: nat)
    requires IsRun(tr, s) && Sub(s, 0, m) && j <= |m| <= 23
    requires forall k :: 0 <= k < |m| ==> IsToken(m[k])
    ensures tr[j] == Init().(verb := Padded(m[..j], MAX_METHOD_LENGTH + 1), i := j)
  {
    if j > 0 {
      VerbSegment(tr, s, m, j - 1);
      PaddedPut(m[..j - 1], MAX_METHOD_LENGTH + 1, m[j - 1]);
      assert m[..j] == m[..j - 1] + [m[j - 1]];
      assert StepAt(tr, s, j - 1);
      assert IsToken(m[j - 1]) && s[0 + (j - 1)] == m[j - 1];
    }
  }

  lemma StepHost(p: Parser, pre: seq<byte>, c: byte)
    requires p.InBounds() && p.state == Host && p.i == |pre| < 254 && HostByte(c)
    requires p.host == Domain(Padded(pre, MAX_FQDN_LENGTH + 1))
    requires pre == [] ==> c != LBRACKET
    ensures Feed(p, c) == p.(host := Domain(Padded(pre + [c], MAX_FQDN_LENGTH + 1)), i := |pre| + 1)
  {
    PaddedPut(pre, MAX_FQDN_LENGTH + 1, c);
  }

  lemma {:induction false} HostSegment(tr: seq<Parser>, s: seq<byte>, o: nat, p: Parser, h: seq<byte>, j: nat)
    requires IsRun(tr, s) && Sub(s, o, h) && j <= |h| <= 254 && h != [] && h[0] != LBRACKET
    requires forall k :: 0 <= k < |h| ==> HostByte(h[k])
    requires tr[o] == p && p.state == Host && p.i == 0 && p.host == Domain(Padded([], MAX_FQDN_LENGTH + 1))
    ensures tr[o + j] == p.(host := Domain(Padded(h[..j], MAX_FQDN_LENGTH + 1)), i := j)
  {
    hide Feed, Padded, Zeros;
    if j > 0 {
      HostSegment(tr, s, o, p, h, j - 1);
      assert s[o + (j - 1)] == h[j - 1] && HostByte(h[j - 1]);
      assert StepAt(tr, s, o + j - 1);
      StepHost(tr[o + j - 1], h[..j - 1], h[j - 1]);
      assert h[..j] == h[..j - 1] + [h[j - 1]];
    }
  }

  lemma StepPath(p: Parser, pre: seq<byte>, c: byte)
    requires p.InBounds() && p.state == OriginForm && p.i == |pre| < 1023 && c != SP
    requires p.originForm == Padded(pre, MAX_ORIGIN_FORM)
    ensures Feed(p, c) == p.(originForm := Padded(pre + [c], MAX_ORIGIN_FORM), i := |pre| + 1)
  {
    PaddedPut(pre, MAX_ORIGIN_FORM, c);
  }

  /** The path from its second byte on; the first one ended the authority. */
  lemma {:induction false} PathSegment(tr: seq<Parser>, s: seq<byte>, o: nat, p: Parser, t: seq<byte>, j: nat)
    requires IsRun(tr, s) && Sub(s, o, t) && 1 <= j <= |t| <= 1023 && SP !in t
    requires tr[o + 1] == p && p.state == OriginForm && p.i == 1 && p.originForm == Padded(t[..1], MAX_ORIGIN_FORM)
    ensures tr[o + j] == p.(originForm := Padded(t[..j], MAX_ORIGIN_FORM), i := j)
  {
    hide Feed, Padded, Zeros;
    if j > 1 {
      PathSegment(tr, s, o, p, t, j - 1);
      assert s[o + (j - 1)] == t[j - 1] && t[j - 1] in t;
      assert StepAt(tr, s, o + j - 1);
      StepPath(tr[o + j - 1], t[..j - 1], t[j - 1]);
      assert t[..j] == t[..j - 1] + [t[j - 1]];
    }
  }

  lemma StepDigit(p: Parser, ds: seq<byte>, j: nat)
    requires p.InBounds() && p.state == Port && p.i == j < |ds| <= 4
    requires forall k :: 0 <= k < |ds| ==> IsDigit(ds[k])
    requires j > 0 ==> p.port == Value(ds[..j])
    ensures Value(ds[..j + 1]) < 10000
    ensures Feed(p, ds[j]) == p.(i := j + 1, port := Value(ds[..j + 1]))
  {
    assert ds[..j + 1][..j] == ds[..j];
    ValueBound(ds[..j + 1]);
    ValueBound(ds[..j]);
  }

  lemma {:induction false} DigitsSegment(tr: seq<Parser>, s: seq<byte>, o: nat, p: Parser, ds: seq<byte>, j: nat)
    requires IsRun(tr, s) && Sub(s, o, ds) && j <= |ds| <= 4
    requires forall k :: 0 <= k < |ds| ==> IsDigit(ds[k])
    requires tr[o] == p && p.state == Port && p.i == 0
    ensures Value(ds[..j]) < 10000
    ensures tr[o + j] == p.(i := j, port := if j == 0 then p.port else Value(ds[..j]))
  {
    hide Feed;
    if j > 0 {
      DigitsSegment(tr, s, o, p, ds, j - 1);
      assert s[o + (j - 1)] == ds[j - 1];
      assert StepAt(tr, s, o + j - 1);
      StepDigit(tr[o + j - 1], ds, j - 1);
    }
  }

  lemma {:induction false} SchemeSegment(tr: seq<Parser>, s: seq<byte>, o: nat, p: Parser, j: nat)
    requires IsRun(tr, s) && Sub(s, o, SCHEME) && j <= SCHEME_LENGTH
    requires tr[o] == p && p.state == Scheme && p.i == 0
    ensures tr[o + j] == if j < SCHEME_LENGTH then p.(i := j) else p.(state := Host, i := 0, n := MAX_FQDN_LENGTH)
  {
    if j > 0 {
      SchemeSegment(tr, s, o, p, j - 1);
      assert StepAt(tr, s, o + j - 1) && s[o + (j - 1)] == SCHEME[j - 1];
    }
  }

  lemma {:induction false} HttpSegment(tr: seq<Parser>, s: seq<byte>, o: nat, p: Parser, j: nat)
    requires IsRun(tr, s) && Sub(s, o, HTTP_SLASH) && j <= 5
    requires tr[o] == p && p.state == Version && p.i == 0
    ensures tr[o + j] == if j < 5 then p.(i := j) else p.(state := Major, i := 0, n := 2)
  {
    if j > 0 {
      HttpSegment(tr, s, o, p, j - 1);
      assert StepAt(tr, s, o + j - 1) && s[o + (j - 1)] == HTTP_SLASH[j - 1];
    }
  }

  /** "HTTP/" digit "." digit CR LF, with the state just before the LF. */
  lemma VersionSegment(tr: seq<Parser>, s: seq<byte>, o: nat, p: Parser, major: nat, minor: nat)
    requires IsRun(tr, s) && o + 10 <= |s| && Sub(s, o, HTTP_SLASH) && major < 10 && minor < 10
    requires s[o + 5] == ZERO + major && s[o + 6] == DOT && s[o + 7] == ZERO + minor && s[o + 8] == CR && s[o + 9] == LF
    requires tr[o] == p && p.state == Version && p.i == 0
    ensures tr[o + 10] == p.(state := Done, n := 2, major := major, minor := minor)
    ensures tr[o + 9].state == End
  {
    HttpSegment(tr, s, o, p, 5);
    var q := tr[o + 5];
    assert StepAt(tr, s, o + 5);
    assert tr[o + 6] == q.(i := 1, major := major);
    assert StepAt(tr, s, o + 6);
    assert tr[o + 7] == q.(state := Minor, i := 0, major := major);
    assert StepAt(tr, s, o + 7);
    assert tr[o + 8] == q.(state := Minor, i := 1, major := major, minor := minor);
    assert StepAt(tr, s, o + 8);
    assert tr[o + 9] == q.(state := End, i := 0, major := major, minor := minor);
    assert StepAt(tr, s, o + 9);
  }

  /** The parser at the start of the host, the method already stored. */
  function AtHost(r: Request): Parser
    requires r.Printable()
  {
    Init().(state := Host, i := 0, n := MAX_FQDN_LENGTH, verb := Padded(r.verb, MAX_METHOD_LENGTH + 1),
            form := if r.verb == CONNECT then Authority else Absolute)
  }

  lemma AtHostFields(r: Request)
    requires r.Printable()
    ensures var p := AtHost(r);
            && p.state == Host && p.verb == Padded(r.verb, MAX_METHOD_LENGTH + 1)
            && p.form == (if r.verb == CONNECT then Authority else Absolute)
            && p.originForm == Padded([], MAX_ORIGIN_FORM)
            && p.i == 0 && p.host == Domain(Padded([], MAX_FQDN_LENGTH + 1))
  {
    assert Padded([], MAX_ORIGIN_FORM) == Zeros(MAX_ORIGIN_FORM);
    assert Padded([], MAX_FQDN_LENGTH + 1) == Zeros(MAX_FQDN_LENGTH + 1);
  }

  lemma TokensAreAString(s: seq<byte>)
    requires forall k :: 0 <= k < |s| ==> IsToken(s[k])
    ensures CStr(s) == s
  {
    forall k | 0 <= k < |s| ensures s[k] != 0 { assert IsToken(s[k]); }
    CStrPadded(s, []);
    assert s + [] == s;
  }

  lemma StepMethodEnd(r: Request, p: Parser)
    requires r.Printable() && p.InBounds() && p.state == Method && p.i == |r.verb|
    requires p.verb == Padded(r.verb, MAX_METHOD_LENGTH + 1)
    ensures Feed(p, SP) == if r.verb == CONNECT then p.(state := Host, i := 0, n := MAX_FQDN_LENGTH, form := Authority)
                           else p.(state := Scheme, i := 0, n := SCHEME_LENGTH, form := Absolute)
  {
    PaddedPut(r.verb, MAX_METHOD_LENGTH + 1, SP);
    CStrPad(r.verb, MAX_METHOD_LENGTH + 1);
    TokensAreAString(r.verb);
    assert Feed(p, SP) == FeedMethod(p, SP);
  }

  // ---- offsets of the segments in a printed line ----------------------------------

  function SchemeOf(r: Request): seq<byte> { if r.verb == CONNECT then [] else SCHEME }
  function PortOf(r: Request): seq<byte> { if r.digits.Some? then [COLON] + r.digits.value else [] }
  function PathOf(r: Request): seq<byte> { if r.path.Some? then r.path.value else [] }

  function HostAt(r: Request): nat { |r.verb| + 1 + |SchemeOf(r)| }
  function AuthorityEnd(r: Request): nat { HostAt(r) + |r.host| + |PortOf(r)| }
  function VersionAt(r: Request): nat { AuthorityEnd(r) + |PathOf(r)| + 1 }

  /** `s` is the printed line, position by position. */
  ghost predicate Layout(r: Request, s: seq<byte>)
    requires r.Printable()
  {
    && |s| == VersionAt(r) + 10
    && Sub(s, 0, r.verb) && s[|r.verb|] == SP && Sub(s, |r.verb| + 1, SchemeOf(r))
    && Sub(s, HostAt(r), r.host)
    && (r.digits.Some? ==> s[HostAt(r) + |r.host|] == COLON && Sub(s, HostAt(r) + |r.host| + 1, r.digits.value))
    && Sub(s, AuthorityEnd(r), PathOf(r)) && s[VersionAt(r) - 1] == SP
    && (var o := VersionAt(r);
        Sub(s, o, HTTP_SLASH) && s[o + 5] == ZERO + r.major && s[o + 6] == DOT && s[o + 7] == ZERO + r.minor
        && s[o + 8] == CR && s[o + 9] == LF)
  }

  lemma Offsets(m: seq<byte>, scheme: seq<byte>, h: seq<byte>, port: seq<byte>, path: seq<byte>, v: seq<byte>, s: seq<byte>)
    requires s == m + [SP] + scheme + h + port + path + [SP] + v
    ensures var o := |m| + 1 + |scheme|;
            && |s| == o + |h| + |port| + |path| + 1 + |v|
            && Sub(s, 0, m) && s[|m|] == SP && Sub(s, |m| + 1, scheme)
            && Sub(s, o, h) && Sub(s, o + |h|, port) && Sub(s, o + |h| + |port|, path)
            && s[o + |h| + |port| + |path|] == SP && Sub(s, o + |h| + |port| + |path| + 1, v)
  {
  }

  lemma SubVersion(s: seq<byte>, o: nat, major: nat, minor: nat)
    requires major < 10 && minor < 10 && Sub(s, o, PrintVersion(major, minor))
    ensures o + 10 <= |s| && Sub(s, o, HTTP_SLASH)
    ensures s[o + 5] == ZERO + major && s[o + 6] == DOT && s[o + 7] == ZERO + minor && s[o + 8] == CR && s[o + 9] == LF
  {
    var v := PrintVersion(major, minor);
    assert s[o + 5] == v[5] && s[o + 6] == v[6] && s[o + 7] == v[7] && s[o + 8] == v[8] && s[o + 9] == v[9];
    forall j | 0 <= j < 5 ensures s[o + j] == HTTP_SLASH[j] { assert s[o + j] == v[j]; }
  }

  lemma SubPort(s: seq<byte>, o: nat, ds: seq<byte>)
    requires Sub(s, o, [COLON] + ds)
    ensures s[o] == COLON && Sub(s, o + 1, ds)
  {
    var port := [COLON] + ds;
    assert s[o + 0] == port[0];
    forall j | 0 <= j < |ds| ensures s[o + 1 + j] == ds[j] { assert s[o + (1 + j)] == port[1 + j]; }
  }

  lemma PrintText(r: Request)
    requires r.Spelled()
    ensures Print(r) == r.verb + [SP] + SchemeOf(r) + r.host + PortOf(r) + PathOf(r) + [SP] + PrintVersion(r.major, r.minor)
  {
    var v, t := PrintVersion(r.major, r.minor), PrintTarget(r);
    assert t == SchemeOf(r) + r.host + PortOf(r) + PathOf(r);
    assert r.verb + [SP] + t == r.verb + [SP] + SchemeOf(r) + r.host + PortOf(r) + PathOf(r);
  }

  lemma PrintLayout(r: Request)
    requires r.Printable()
    ensures Layout(r, Print(r))
  {
    hide Print, PrintVersion, Sub;
    var s, v := Print(r), PrintVersion(r.major, r.minor);
    PrintText(r);
    Offsets(r.verb, SchemeOf(r), r.host, PortOf(r), PathOf(r), v, s);
    SubVersion(s, VersionAt(r), r.major, r.minor);
    PortLayout(r, s);
  }

  lemma PortLayout(r: Request, s: seq<byte>)
    requires r.Spelled() && Sub(s, HostAt(r) + |r.host|, PortOf(r))
    ensures r.digits.Some? ==>
              HostAt(r) + |r.host| < |s| && s[HostAt(r) + |r.host|] == COLON && Sub(s, HostAt(r) + |r.host| + 1, r.digits.value)
  {
    if r.digits.Some? {
      SubPort(s, HostAt(r) + |r.host|, r.digits.value);
    }
  }

  // ---- the round trip ---------------------------------------------------------------

  lemma ReachHost(r: Request, tr: seq<Parser>, s: seq<byte>)
    requires r.Printable() && IsRun(tr, s) && HostAt(r) < |s|
    requires Sub(s, 0, r.verb) && s[|r.verb|] == SP && Sub(s, |r.verb| + 1, SchemeOf(r))
    ensures tr[HostAt(r)] == AtHost(r)
  {
    VerbSegment(tr, s, r.verb, |r.verb|);
    assert r.verb[..|r.verb|] == r.verb;
    assert StepAt(tr, s, |r.verb|);
    StepMethodEnd(r, tr[|r.verb|]);
    if r.verb != CONNECT {
      SchemeSegment(tr, s, |r.verb| + 1, tr[|r.verb| + 1], SCHEME_LENGTH);
    }
  }

  /** After the host and the optional port: the next byte ends the authority. */
  ghost predicate AtAuthorityEnd(p: Parser, r: Request)
    requires r.Printable()
  {
    && p.verb == Padded(r.verb, MAX_METHOD_LENGTH + 1)
    && p.form == (if r.verb == CONNECT then Authority else Absolute)
    && p.originForm == Padded([], MAX_ORIGIN_FORM)
    && match r.digits
       case None => p.state == Host && 1 <= p.i <= 254 && p.host == Domain(Padded(r.host, MAX_FQDN_LENGTH + 1))
       case Some(ds) => p.state == Port && p.i <= 4 && AssignPort(p).host == HostOf(r) && AssignPort(p).port == PortField(r)
  }

  lemma ReachHostEnd(r: Request, tr: seq<Parser>, s: seq<byte>)
    requires r.Printable() && IsRun(tr, s) && Sub(s, HostAt(r), r.host) && tr[HostAt(r)] == AtHost(r)
    ensures tr[HostAt(r) + |r.host|] == AtHost(r).(host := Domain(Padded(r.host, MAX_FQDN_LENGTH + 1)), i := |r.host|)
  {
    hide Feed, Padded, Zeros, AtHost;
    AtHostFields(r);
    HostSegment(tr, s, HostAt(r), AtHost(r), r.host, |r.host|);
    assert r.host[..|r.host|] == r.host;
  }

  lemma ReachPortEnd(r: Request, tr: seq<Parser>, s: seq<byte>, o: nat, ds: seq<byte>)
    requires r.Printable() && r.digits == Some(ds) && IsRun(tr, s)
    requires o < |s| && s[o] == COLON && Sub(s, o + 1, ds)
    requires tr[o] == AtHost(r).(host := Domain(Padded(r.host, MAX_FQDN_LENGTH + 1)), i := |r.host|)
    ensures AtAuthorityEnd(tr[o + 1 + |ds|], r)
  {
    hide Feed, StepAt, Padded, Zeros, HostOf, PortField, OriginFormOf, AssignPort, AtHost, Inet.Pton4, CStr, Sub, IsRun, Value;
    AtHostFields(r);
    ColonAt(r, tr, s, o);
    assert |tr| == |s| + 1 by { RunLength(tr, s); }
    assert o + 1 + |ds| <= |s| by { SubFits(s, o + 1, ds); }
    DigitsSegment(tr, s, o + 1, tr[o + 1], ds, |ds|);
    assert ds[..|ds|] == ds;
    PortFieldHolds(r, ds, tr[o + 1], tr[o + 1 + |ds|]);
  }

  lemma RunLength(tr: seq<Parser>, s: seq<byte>)
    requires IsRun(tr, s)
    ensures |tr| == |s| + 1
  {
  }

  lemma SubFits(s: seq<byte>, o: nat, t: seq<byte>)
    requires Sub(s, o, t)
    ensures o + |t| <= |s|
  {
  }

  lemma PortFieldHolds(r: Request, ds: seq<byte>, p: Parser, q: Parser)
    requires r.Printable() && r.digits == Some(ds)
    requires p.state == Port && p.i == 0 && p.port == DEFAULT_PORT
    requires p.host == match Inet.Pton4(CStr(r.host))
                       case None => Domain(Padded(r.host, MAX_FQDN_LENGTH + 1))
                       case Some(a) => Ipv4(a, DEFAULT_PORT)
    requires Value(ds) < 10000
    requires q == p.(i := |ds|, port := if |ds| == 0 then p.port else Value(ds))
    ensures AssignPort(q).host == HostOf(r) && AssignPort(q).port == PortField(r)
  {
  }

  lemma ReachAuthorityEnd(r: Request, tr: seq<Parser>, s: seq<byte>)
    requires r.Printable() && Layout(r, s) && IsRun(tr, s)
    ensures AtAuthorityEnd(tr[AuthorityEnd(r)], r)
  {
    hide Feed, Sub, IsRun, AtHost, AtAuthorityEnd, Padded, SchemeOf, PathOf;
    RunLength(tr, s);
    ReachHost(r, tr, s);
    ReachHostEnd(r, tr, s);
    match r.digits {
      case None => BareHostEnd(r);
      case Some(ds) => ReachPortEnd(r, tr, s, HostAt(r) + |r.host|, ds);
    }
  }

  lemma BareHostEnd(r: Request)
    requires r.Printable() && r.digits.None?
    ensures AtAuthorityEnd(AtHost(r).(host := Domain(Padded(r.host, MAX_FQDN_LENGTH + 1)), i := |r.host|), r)
  {
    hide AtHost, Padded;
    AtHostFields(r);
  }

  lemma ColonAt(r: Request, tr: seq<Parser>, s: seq<byte>, o: nat)
    requires r.Printable() && IsRun(tr, s) && o < |s| && s[o] == COLON && tr[o].state == Host && 1 <= tr[o].i <= 254
    requires tr[o].host == Domain(Padded(r.host, MAX_FQDN_LENGTH + 1))
    ensures tr[o + 1].InBounds()
    ensures var p, q := tr[o + 1], tr[o];
            && p.state == Port && p.i == 0 && p.port == DEFAULT_PORT
            && p.verb == q.verb && p.form == q.form && p.originForm == q.originForm
            && p.host == match Inet.Pton4(CStr(r.host))
                         case None => Domain(Padded(r.host, MAX_FQDN_LENGTH + 1))
                         case Some(a) => Ipv4(a, DEFAULT_PORT)
  {
    assert StepAt(tr, s, o);
    CStrPad(r.host, MAX_FQDN_LENGTH + 1);
  }

  /** The byte that ends the authority, when the authority is a bare host and when it has a port. */
  lemma HostEndAt(r: Request, tr: seq<Parser>, s: seq<byte>, o: nat)
    requires r.Printable() && r.digits.None? && IsRun(tr, s) && o < |s| && AtAuthorityEnd(tr[o], r)
    requires s[o] == if r.path.Some? then r.path.value[0] else SP
    ensures AfterAuthority(tr[o + 1], r)
  {
    hide Padded, Zeros, CStr, Inet.Pton4, FeedMethod, FeedPort, FeedVersion;
    assert StepAt(tr, s, o);
    CStrPad(r.host, MAX_FQDN_LENGTH + 1);
    PlaceholderPath(tr[o], r, s[o]);
  }

  lemma PortEndAt(r: Request, tr: seq<Parser>, s: seq<byte>, o: nat)
    requires r.Printable() && r.digits.Some? && IsRun(tr, s) && o < |s| && AtAuthorityEnd(tr[o], r)
    requires s[o] == if r.path.Some? then r.path.value[0] else SP
    ensures AfterAuthority(tr[o + 1], r)
  {
    hide Padded, Zeros, CStr, Inet.Pton4, FeedMethod, FeedHost, FeedVersion;
    assert StepAt(tr, s, o);
    PlaceholderPath(tr[o], r, s[o]);
  }

  ghost predicate AfterAuthority(q: Parser, r: Request)
    requires r.Printable()
  {
    && q.verb == Padded(r.verb, MAX_METHOD_LENGTH + 1)
    && q.form == (if r.verb == CONNECT then Authority else Absolute)
    && q.host == HostOf(r) && q.port == PortField(r)
    && match r.path
       case Some(path) => q.state == OriginForm && q.i == 1 && q.originForm == Padded([path[0]], MAX_ORIGIN_FORM)
       case None => q.state == Version && q.i == 0 && q.originForm == Padded(OriginFormOf(r), MAX_ORIGIN_FORM)
  }

  lemma PlaceholderPath(p: Parser, r: Request, c: byte)
    requires r.Printable() && |p.originForm| == MAX_ORIGIN_FORM
    requires p.originForm == Padded([], MAX_ORIGIN_FORM) && p.verb == Padded(r.verb, MAX_METHOD_LENGTH + 1)
    ensures CStr(p.verb) == r.verb
    ensures ToOriginForm(p, c).originForm == Padded([c], MAX_ORIGIN_FORM)
    ensures r.path.None? ==> ToVersion(p).originForm == Padded(OriginFormOf(r), MAX_ORIGIN_FORM)
  {
    CStrPad(r.verb, MAX_METHOD_LENGTH + 1);
    TokensAreAString(r.verb);
    PaddedPut([], MAX_ORIGIN_FORM, c);
    PaddedPut([], MAX_ORIGIN_FORM, SLASH);
    assert [] + [c] == [c] && [] + [SLASH] == [SLASH];
  }

  lemma PathEndAt(tr: seq<Parser>, s: seq<byte>, o: nat)
    requires IsRun(tr, s) && o < |s| && s[o] == SP && tr[o].state == OriginForm && tr[o].i <= 1023
    ensures tr[o + 1] == tr[o].(i := 0, n := VERSION_LENGTH, state := Version)
  {
    assert StepAt(tr, s, o);
  }

  lemma ReachVersion(r: Request, tr: seq<Parser>, s: seq<byte>, o: nat)
    requires r.Printable() && IsRun(tr, s) && Sub(s, o, PathOf(r)) && o + |PathOf(r)| < |s| && s[o + |PathOf(r)|] == SP
    requires AfterAuthority(tr[o + 1], r)
    ensures var q := tr[o + |PathOf(r)| + 1]; q.state == Version && q.i == 0 && Holds(q, r)
  {
    hide Feed, Inet.Pton4, CStr, Padded, Zeros, HostOf, PortField;
    match r.path {
      case None =>
      case Some(path) =>
        assert path[..1] == [path[0]] && path[..|path|] == path;
        PathSegment(tr, s, o, tr[o + 1], path, |path|);
        PathEndAt(tr, s, o + |path|);
    }
  }

  lemma ReachPath(r: Request, tr: seq<Parser>, s: seq<byte>)
    requires r.Printable() && Layout(r, s) && IsRun(tr, s)
    ensures AfterAuthority(tr[AuthorityEnd(r) + 1], r)
  {
    hide Feed, Padded, Zeros, HostOf, PortField, AtAuthorityEnd;
    ReachAuthorityEnd(r, tr, s);
    var o := AuthorityEnd(r);
    assert r.path.Some? ==> s[o + 0] == r.path.value[0];
    if r.digits.None? {
      HostEndAt(r, tr, s, o);
    } else {
      PortEndAt(r, tr, s, o);
    }
  }

  lemma ReachEnd(r: Request, tr: seq<Parser>, s: seq<byte>)
    requires r.Printable() && Layout(r, s) && IsRun(tr, s)
    ensures tr[|s|].state == Done && Holds(tr[|s|], r) && tr[|s|].major == r.major && tr[|s|].minor == r.minor
    ensures tr[|s| - 1].state == End
  {
    hide Feed, Sub, StepAt, Padded, Zeros, HostOf, PortField, OriginFormOf;
    ReachPath(r, tr, s);
    ReachVersion(r, tr, s, AuthorityEnd(r));
    VersionSegment(tr, s, VersionAt(r), tr[VersionAt(r)], r.major, r.minor);
  }

  /** Every printable request line parses to its own fields and finishes exactly at its LF. */
  lemma RoundTrip(r: Request)
    requires r.Printable()
    ensures var q := FeedAll(Init(), Print(r));
            q.state == Done && Holds(q, r) && q.major == r.major && q.minor == r.minor
    ensures FeedAll(Init(), Print(r)[..|Print(r)| - 1]).state == End
  {
    hide Feed, FeedAll, Print, Layout, Holds, IsRun;
    var s := Print(r);
    var tr := RunOf(s);
    PrintLayout(r);
    ReachEnd(r, tr, s);
    assert s[..|s|] == s;
  }

  // ---- the port -----------------------------------------------------------------------

  /** The fifth digit is still stored, and whatever follows it is fatal. */
  lemma FifthDigit(tr: seq<Parser>, s: seq<byte>, o: nat, ds: seq<byte>)
    requires IsRun(tr, s) && Sub(s, o, ds) && |ds| >= 5 && o + 5 < |s| && tr[o].state == Port && tr[o].i == 0
    requires forall k :: 0 <= k < |ds| ==> IsDigit(ds[k])
    ensures tr[o + 6].state == Failed
  {
    hide Value, NextPort, FeedMethod, FeedHost, FeedVersion;
    var four := ds[..4];
    assert Sub(s, o, four);
    DigitsSegment(tr, s, o, tr[o], four, 4);
    assert StepAt(tr, s, o + 4) && StepAt(tr, s, o + 5);
    assert s[o + 4] == ds[4] && IsDigit(ds[4]) && !EndOfAuthority(ds[4]);
  }

  lemma FailsFrom(s: seq<byte>, k: nat)
    requires k <= |s| && FeedAll(Init(), s[..k]).state == Failed
    ensures FeedAll(Init(), s).state == Failed
  {
    hide Feed, FeedAll;
    assert s == s[..k] + s[k..];
    FeedAllConcat(Init(), s[..k], s[k..]);
    TerminalAbsorbs(FeedAll(Init(), s[..k]), s[k..]);
  }

  /** The same line without its port, which is printable. */
  function Portless(r: Request): (p: Request)
    requires r.Spelled()
    ensures p.Printable() && HostAt(p) == HostAt(r) && SchemeOf(p) == SchemeOf(r)
  {
    r.(digits := None)
  }

  lemma UpToPort(r: Request, ds: seq<byte>, s: seq<byte>)
    requires r.Spelled() && r.digits == Some(ds) && s == Print(r)
    ensures var o := HostAt(r) + |r.host|;
            && o + 1 + |ds| < |s| && Sub(s, 0, r.verb) && s[|r.verb|] == SP && Sub(s, |r.verb| + 1, SchemeOf(r))
            && Sub(s, HostAt(r), r.host) && s[o] == COLON && Sub(s, o + 1, ds)
  {
    hide Print, Sub, PrintVersion;
    PrintText(r);
    Offsets(r.verb, SchemeOf(r), r.host, PortOf(r), PathOf(r), PrintVersion(r.major, r.minor), s);
    PortLayout(r, s);
  }

  lemma ReachPort(r: Request, tr: seq<Parser>, s: seq<byte>, o: nat)
    requires r.Printable() && IsRun(tr, s) && o == HostAt(r) + |r.host| < |s| && s[o] == COLON
    requires Sub(s, 0, r.verb) && s[|r.verb|] == SP && Sub(s, |r.verb| + 1, SchemeOf(r)) && Sub(s, HostAt(r), r.host)
    ensures tr[o + 1].state == Port && tr[o + 1].i == 0
  {
    hide Feed, Sub, StepAt, Padded, Zeros, AtHost, Inet.Pton4, CStr;
    ReachHost(r, tr, s);
    AtHostFields(r);
    ReachHostEnd(r, tr, s);
    ColonAt(r, tr, s, o);
  }

  lemma LongPortFails(r: Request, ds: seq<byte>)
    requires r.Spelled() && r.digits == Some(ds) && |ds| >= 5
    ensures FeedAll(Init(), Print(r)).state == Failed
  {
    hide Feed, FeedAll, Print, Sub, IsRun, Portless, SchemeOf;
    var s := Print(r);
    var tr := RunOf(s);
    var o := HostAt(r) + |r.host|;
    UpToPort(r, ds, s);
    assert Portless(r).verb == r.verb && Portless(r).host == r.host by { PortlessFields(r); }
    ReachPort(Portless(r), tr, s, o);
    FifthDigit(tr, s, o + 1, ds);
    FailsFrom(s, o + 7);
  }

  lemma PortlessFields(r: Request)
    requires r.Spelled()
    ensures Portless(r).verb == r.verb && Portless(r).host == r.host
  {
  }

  /** A line with a port is accepted exactly when the port has at most four digits, and its number is the one
      stored exactly when it has at least one: with none, the bytes of 80 are swapped twice. */
  lemma PortExactly(r: Request)
    requires r.Spelled() && r.digits.Some?
    ensures var q, ds := FeedAll(Init(), Print(r)), r.digits.value;
            && (q.state == Done <==> |ds| <= 4) && (q.state == Failed <==> |ds| > 4)
            && (q.state == Done && Swap16(q.port) == Value(ds) <==> 1 <= |ds| <= 4)
            && (|ds| == 0 ==> q.port == 80 && Swap16(q.port) == 20480)
  {
    hide Feed, FeedAll, Print, Swap16, Holds;
    var ds := r.digits.value;
    if |ds| >= 5 {
      LongPortFails(r, ds);
    } else {
      RoundTrip(r);
      StoredPort(r, FeedAll(Init(), Print(r)), ds);
    }
  }

  lemma StoredPort(r: Request, q: Parser, ds: seq<byte>)
    requires r.Printable() && r.digits == Some(ds) && Holds(q, r)
    ensures Swap16(q.port) == (if ds == [] then DEFAULT_PORT else Value(ds))
    ensures DEFAULT_PORT == 20480 && (ds == [] ==> q.port == 80 && Value(ds) == 0)
  {
    hide Padded, HostOf, OriginFormOf;
    ValueBound(ds);
    Swap16Involution(if ds == [] then DEFAULT_PORT else Value(ds));
    Swap16Involution(80);
  }

  /** The last `i` bytes of any input that leaves the parser in the port. */
  ghost predicate PortDigits(s: seq<byte>, p: Parser) {
    && p.state == Port && p.i <= |s|
    && (forall k :: |s| - p.i <= k < |s| ==> IsDigit(s[k]))
    && (1 <= p.i <= 4 ==> p.port == Value(s[|s| - p.i..]))
  }

  lemma PortStep(p: Parser, c: byte)
    requires p.InBounds() && p.state == Port && Feed(p, c).state == Port
    ensures IsDigit(c) && p.i <= 4
    ensures Feed(p, c) == p.(i := p.i + 1, port := NextPort(p.i, p.port, c - ZERO))
    ensures p.i < 4 ==> NextPort(p.i, p.port, c - ZERO) == if p.i == 0 then c - ZERO else p.port * 10 + (c - ZERO)
  {
    hide FeedMethod, FeedHost, FeedVersion, NextPort;
  }

  lemma MorePortDigits(s: seq<byte>, p: Parser, c: byte)
    requires PortDigits(s, p) && p.InBounds() && Feed(p, c).state == Port
    ensures PortDigits(s + [c], Feed(p, c))
  {
    hide Feed, NextPort, Parser.InBounds, Value;
    PortStep(p, c);
    var t, ds := s + [c], s[|s| - p.i..];
    assert t[|t| - 1 - p.i..] == ds + [c];
    if p.i < 4 {
      ValueSnoc(ds, c);
    }
  }

  lemma ValueSnoc(ds: seq<byte>, c: byte)
    requires (forall k :: 0 <= k < |ds| ==> IsDigit(ds[k])) && IsDigit(c)
    ensures Value(ds + [c]) == 10 * Value(ds) + (c - ZERO)
    ensures ds == [] ==> Value(ds) == 0
  {
    assert (ds + [c])[..|ds|] == ds;
  }

  /** Whatever the input: while at most four digits of a port have been read the accumulator is exactly their
      number, and the parser leaves the port for anything but an error only then. */
  lemma {:induction false} PortNeverWraps(s: seq<byte>, c: byte)
    requires FeedAll(Init(), s).state == Port
    ensures PortDigits(s, FeedAll(Init(), s))
    ensures var q := Feed(FeedAll(Init(), s), c); q.state != Port && q.state != Failed ==> FeedAll(Init(), s).i <= 4
    decreases |s|
  {
    hide Feed, FeedAll, PortDigits, Parser.InBounds;
    NotAtStart(s);
    var a, d := s[..|s| - 1], s[|s| - 1];
    assert s == a + [d];
    FeedAllThen(Init(), a, d);
    var p := FeedAll(Init(), a);
    if p.state == Port {
      PortNeverWraps(a, c);
      MorePortDigits(a, p, d);
    } else {
      PortStarts(s, p, d);
    }
    PortLeft(FeedAll(Init(), s), c);
  }

  lemma NotAtStart(s: seq<byte>)
    requires FeedAll(Init(), s).state == Port
    ensures s != []
  {
  }

  lemma PortStarts(s: seq<byte>, p: Parser, d: byte)
    requires p.InBounds() && p.state != Port && Feed(p, d).state == Port
    ensures PortDigits(s, Feed(p, d))
  {
  }

  lemma PortLeft(p: Parser, c: byte)
    requires p.InBounds() && p.state == Port
    ensures Feed(p, c).state != Port && Feed(p, c).state != Failed ==> p.i <= 4
  {
  }

  // ---- long versions ------------------------------------------------------------------

  /** A printable line up to its version. */
  function FrontOf(r: Request): seq<byte>
    requires r.Printable()
  {
    r.verb + [SP] + PrintTarget(r) + [SP]
  }

  lemma ReachFront(r: Request)
    requires r.Printable()
    ensures var p := FeedAll(Init(), FrontOf(r)); p.state == Version && p.i == 0
  {
    hide Feed, FeedAll, Layout, IsRun, Holds, Print, FrontOf, Sub, AfterAuthority;
    var s := Print(r);
    var tr := RunOf(s);
    RunLength(tr, s);
    PrintLayout(r);
    ReachPath(r, tr, s);
    FrontLayout(r, s);
    ReachVersion(r, tr, s, AuthorityEnd(r));
    assert s[..VersionAt(r)] == FrontOf(r) by { FrontPrefix(r); }
  }

  lemma FrontLayout(r: Request, s: seq<byte>)
    requires r.Printable() && Layout(r, s)
    ensures var o := AuthorityEnd(r); Sub(s, o, PathOf(r)) && o + |PathOf(r)| < |s| && s[o + |PathOf(r)|] == SP && VersionAt(r) <= |s|
  {
    hide Sub;
    assert Sub(s, AuthorityEnd(r), PathOf(r));
  }

  lemma FrontPrefix(r: Request)
    requires r.Printable()
    ensures Print(r)[..VersionAt(r)] == FrontOf(r) && |FrontOf(r)| == VersionAt(r)
  {
    hide PrintVersion;
    var v := PrintVersion(r.major, r.minor);
    assert Print(r) == FrontOf(r) + v;
    assert |PrintTarget(r)| == |SchemeOf(r)| + |r.host| + |PortOf(r)| + |PathOf(r)|;
  }

  /** A version number of two digits, major or minor, makes it a bad version whatever follows. */
  lemma LongVersionFails(r: Request, major: Option<byte>, d: byte, e: byte, c: byte, rest: seq<byte>)
    requires r.Printable() && IsDigit(d) && IsDigit(e) && (major.Some? ==> IsDigit(major.value))
    ensures FeedAll(Init(), FrontOf(r) + HTTP_SLASH + (if major.Some? then [major.value, DOT] else []) + [d, e, c] + rest).state == BadVersion
  {
    hide Feed, FeedAll, FrontOf, IsRun, Sub, StepAt;
    var front, m := FrontOf(r), if major.Some? then [major.value, DOT] else [];
    var s := front + HTTP_SLASH + m + [d, e, c] + rest;
    var tr := RunOf(s);
    RunLength(tr, s);
    var o := |front|;
    ReachFront(r);
    LongLayout(front, m, d, e, c, rest);
    HttpSegment(tr, s, o, tr[o], 5);
    var k := o + 5 + |m|;
    if major.Some? {
      RunSteps(tr, s, o + 5);
      RunSteps(tr, s, o + 6);
      assert m[0] == major.value && m[1] == DOT && s[o + 5 + 0] == m[0] && s[o + 5 + 1] == m[1];
      DigitStep(tr[o + 5], major.value);
      DotStep(tr[o + 6]);
    }
    RunSteps(tr, s, k);
    RunSteps(tr, s, k + 1);
    RunSteps(tr, s, k + 2);
    DigitStep(tr[k], d);
    DigitStep(tr[k + 1], e);
    LongStep(tr[k + 2], c);
    StaysBad(s, k + 3);
  }

  lemma RunSteps(tr: seq<Parser>, s: seq<byte>, k: nat)
    requires IsRun(tr, s) && k < |s|
    ensures k + 1 < |tr| && tr[k].InBounds() && tr[k + 1] == Feed(tr[k], s[k])
  {
    hide Feed, Parser.InBounds;
    assert StepAt(tr, s, k);
  }

  lemma LongLayout(front: seq<byte>, m: seq<byte>, d: byte, e: byte, c: byte, rest: seq<byte>)
    ensures var s, o := front + HTTP_SLASH + m + [d, e, c] + rest, |front|;
            var k := o + 5 + |m|;
            && k + 2 < |s| && s[..o] == front && Sub(s, o, HTTP_SLASH) && s[k] == d && s[k + 1] == e && s[k + 2] == c
            && (forall j :: 0 <= j < |m| ==> s[o + 5 + j] == m[j])
  {
  }

  lemma StaysBad(s: seq<byte>, k: nat)
    requires k <= |s| && FeedAll(Init(), s[..k]).state == BadVersion
    ensures FeedAll(Init(), s).state == BadVersion
  {
    hide Feed, FeedAll;
    assert s == s[..k] + s[k..];
    FeedAllConcat(Init(), s[..k], s[k..]);
    TerminalAbsorbs(FeedAll(Init(), s[..k]), s[k..]);
  }

  lemma DigitStep(p: Parser, d: byte)
    requires p.InBounds() && (p.state == Major || p.state == Minor) && p.i < 2 && IsDigit(d)
    ensures Feed(p, d).state == p.state && Feed(p, d).i == p.i + 1
  {
    hide NextVersion;
  }

  lemma DotStep(p: Parser)
    requires p.InBounds() && p.state == Major && p.i < 2
    ensures Feed(p, DOT).state == Minor && Feed(p, DOT).i == 0
  {
    hide NextVersion;
  }

  lemma LongStep(p: Parser, c: byte)
    requires p.InBounds() && (p.state == Major || p.state == Minor) && p.i == 2
    ensures Feed(p, c).state == BadVersion
  {
    hide NextVersion;
  }
}
