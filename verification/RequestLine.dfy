/** The incremental request-line parser (sections 3.1.1, 5.3.2 and 5.3.3 of RFC 7230). */
module RequestLine {
  import opened Bytes
  import Inet

  const MAX_METHOD_LENGTH := 24
  const MAX_FQDN_LENGTH := 255
  const SCHEME_LENGTH := 7
  const MAX_PORT_LENGTH := 5
  const VERSION_LENGTH := 8
  const MAX_ORIGIN_FORM := 1024

  /** "CONNECT", "OPTIONS", "http://" and "HTTP/" */
  const CONNECT: seq<byte> := [67, 79, 78, 78, 69, 67, 84]
  const OPTIONS: seq<byte> := [79, 80, 84, 73, 79, 78, 83]
  const SCHEME: seq<byte> := [104, 116, 116, 112, 58, 47, 47]
  const HTTP_SLASH: seq<byte> := [72, 84, 84, 80, 47]

  /** `Bracketed` stands for everything after a '[' that opens the host: IPv6 literals are not modelled. */
  datatype State =
    | Method | Scheme | Host | Port | OriginForm | Version | Major | Minor | End
    | Done | Failed | BadVersion | BadMethod | Bracketed

  datatype Form = Absolute | Authority

  /** The host union together with its tag. */
  datatype HostField = Domain(bytes: seq<byte>) | Ipv4(addr: seq<byte>, sinPort: u16)

  datatype Parser = Parser(state: State, i: nat, n: nat, major: byte, minor: byte, verb: seq<byte>,
                           form: Form, host: HostField, port: u16, originForm: seq<byte>) {
    /** Array sizes and the range of the counter in each state. */
    ghost predicate InBounds() {
      && |verb| == MAX_METHOD_LENGTH + 1 && |originForm| == MAX_ORIGIN_FORM
      && (host.Domain? ==> |host.bytes| == MAX_FQDN_LENGTH + 1)
      && (host.Ipv4? ==> |host.addr| == 4)
      && (state == Method ==> i <= n == MAX_METHOD_LENGTH)
      && (state == Scheme ==> i < n == SCHEME_LENGTH)
      && (state == Host ==> i <= n == MAX_FQDN_LENGTH)
      && (state == Port ==> i <= n == MAX_PORT_LENGTH && (0 < i < 5 ==> port < Pow10(i)))
      && (state == OriginForm ==> 1 <= i <= n == MAX_ORIGIN_FORM)
      && (state == Version ==> i < |HTTP_SLASH| && n == VERSION_LENGTH)
      && (state == Major || state == Minor ==> i <= n == 2)
      && (state == Method || state == Scheme || state == Host ==> host.Domain?)
    }

    /** Everything past the written part of each string array is still zero. */
    ghost predicate VerbTerminated() {
      ZeroFrom(verb, if state == Method || state == BadMethod then i else MAX_METHOD_LENGTH - 1)
    }

    ghost predicate HostTerminated() {
      host.Domain? && state != Failed && state != Bracketed ==>
        ZeroFrom(host.bytes, if state == Method || state == BadMethod || state == Scheme then 0
                             else if state == Host then i else MAX_FQDN_LENGTH - 1)
    }

    ghost predicate OriginFormTerminated() {
      state != Failed ==>
        ZeroFrom(originForm, if state == Method || state == BadMethod || state == Scheme || state == Host || state == Port then 0
                             else if state == OriginForm then i else MAX_ORIGIN_FORM - 1)
    }

    ghost predicate Valid() {
      InBounds() && VerbTerminated() && HostTerminated() && OriginFormTerminated()
    }

    predicate Terminal() {
      state == Done || state == Failed || state == BadVersion || state == BadMethod || state == Bracketed
    }
  }

  ghost predicate ZeroFrom(s: seq<byte>, k: nat) {
    forall m :: k <= m < |s| ==> s[m] == 0
  }

  /** 10 to the power `i`, for the digit counts a port can reach. */
  function Pow10(i: nat): nat {
    if i == 0 then 1 else if i == 1 then 10 else if i == 2 then 100 else if i == 3 then 1000 else 10000
  }

  const DEFAULT_PORT: u16 := Swap16(80)

  function Init(): (p: Parser)
    ensures p.Valid()
  {
    Parser(Method, 0, MAX_METHOD_LENGTH, 0, 0, Zeros(MAX_METHOD_LENGTH + 1), Absolute,
           Domain(Zeros(MAX_FQDN_LENGTH + 1)), 0, Zeros(MAX_ORIGIN_FORM))
  }

  /** `parse_ipv4`: either way the port becomes the default one. */
  function ParseIpv4(p: Parser): Parser
    requires p.host.Domain?
  {
    match Inet.Pton4(CStr(p.host.bytes))
    case None => p.(port := DEFAULT_PORT)
    case Some(a) => p.(port := DEFAULT_PORT, host := Ipv4(a, DEFAULT_PORT))
  }

  /** The port in network order, copied into the socket address when there is one. */
  function AssignPort(p: Parser): Parser {
    var port := Swap16(p.port);
    p.(port := port, host := if p.host.Ipv4? then p.host.(sinPort := port) else p.host)
  }

  function ToOriginForm(p: Parser, c: byte): Parser
    requires |p.originForm| == MAX_ORIGIN_FORM
  {
    p.(state := OriginForm, i := 1, n := MAX_ORIGIN_FORM, originForm := p.originForm[0 := c])
  }

  /** The target had no path: "/" stands in for it, except for OPTIONS. */
  function ToVersion(p: Parser): Parser
    requires |p.originForm| == MAX_ORIGIN_FORM
  {
    p.(state := Version, i := 0, n := VERSION_LENGTH,
       originForm := if CStr(p.verb) != OPTIONS then p.originForm[0 := SLASH] else p.originForm)
  }

  /** One byte; the next state's array accesses are again in bounds. */
  function Feed(p: Parser, c: byte): (q: Parser)
    requires p.InBounds()
    ensures q.InBounds()
  {
    match p.state
    case Method => FeedMethod(p, c)
    case Scheme =>
      if p.i >= p.n || SCHEME[p.i] != c then p.(state := Failed)
      else if p.i == p.n - 1 then p.(i := 0, n := MAX_FQDN_LENGTH, state := Host)
      else p.(i := p.i + 1)
    case Host => FeedHost(p, c)
    case Port => FeedPort(p, c)
    case OriginForm =>
      if p.i >= p.n then p.(state := Failed)
      else if c == SP then p.(i := 0, n := VERSION_LENGTH, state := Version)
      else p.(originForm := p.originForm[p.i := c], i := p.i + 1)
    case Version | Major | Minor | End => FeedVersion(p, c)
    case _ => p
  }

  function FeedVersion(p: Parser, c: byte): (q: Parser)
    requires p.InBounds() && (p.state == Version || p.state == Major || p.state == Minor || p.state == End)
    ensures q.InBounds()
  {
    match p.state
    case Version =>
      if p.i >= p.n || HTTP_SLASH[p.i] != c then p.(state := Failed)
      else if c == SLASH then p.(i := 0, n := 2, state := Major)
      else p.(i := p.i + 1)
    case Major =>
      if p.i >= p.n then p.(state := BadVersion)
      else if c == DOT then p.(i := 0, n := 2, state := Minor)
      else if !IsDigit(c) then p.(state := Failed)
      else p.(i := p.i + 1, major := NextVersion(p.i, p.major, c - ZERO))
    case Minor =>
      if p.i >= p.n then p.(state := BadVersion)
      else if c == CR then p.(i := 0, state := End)
      else if !IsDigit(c) then p.(state := Failed)
      else p.(i := p.i + 1, minor := NextVersion(p.i, p.minor, c - ZERO))
    case End => p.(state := if c != LF then Failed else Done)
    case _ => p
  }

  function FeedMethod(p: Parser, c: byte): (q: Parser)
    requires p.InBounds() && p.state == Method
    ensures q.InBounds()
  {
    if p.i < p.n && IsToken(c) then p.(verb := p.verb[p.i := c], i := p.i + 1)
    else if p.i < p.n && c == SP then
      var m := p.(verb := p.verb[p.i := 0], i := 0);
      if CStr(m.verb) != CONNECT then m.(form := Absolute, n := SCHEME_LENGTH, state := Scheme)
      else m.(form := Authority, n := MAX_FQDN_LENGTH, state := Host)
    else p.(state := BadMethod)
  }

  function FeedHost(p: Parser, c: byte): (q: Parser)
    requires p.InBounds() && p.state == Host
    ensures q.InBounds()
  {
    if p.i >= p.n then p.(state := Failed)
    else if p.i == 0 && c == LBRACKET then p.(state := Bracketed)
    else if c == COLON then ParseIpv4(p).(i := 0, n := MAX_PORT_LENGTH, state := Port)
    else if EndOfAuthority(c) then ToOriginForm(ParseIpv4(p), c)
    else if c == SP then ToVersion(ParseIpv4(p))
    else p.(host := Domain(p.host.bytes[p.i := c]), i := p.i + 1)
  }

  /** One more digit of an 8-bit version number. */
  function NextVersion(i: nat, v: byte, d: nat): byte
    requires d < 10
  {
    if i == 0 then d else (v * 10 + d) % 256
  }

  /** One more digit of the 16-bit port; up to four digits it does not wrap. */
  function NextPort(i: nat, port: u16, d: nat): (r: u16)
    requires d < 10
    ensures i < 4 && (i > 0 ==> port < Pow10(i)) ==> r < Pow10(i + 1) && r == if i == 0 then d else port * 10 + d
  {
    if i == 0 then d else (port * 10 + d) % 0x1_0000
  }

  /** The length test comes before the terminator test, so a fifth digit is always fatal. */
  function FeedPort(p: Parser, c: byte): (q: Parser)
    requires p.InBounds() && p.state == Port
    ensures q.InBounds()
  {
    if p.i >= p.n then p.(state := Failed)
    else if EndOfAuthority(c) then ToOriginForm(AssignPort(p), c)
    else if c == SP then ToVersion(AssignPort(p))
    else if !IsDigit(c) then p.(state := Failed)
    else p.(i := p.i + 1, port := NextPort(p.i, p.port, c - ZERO))
  }

  lemma FeedKeepsVerb(p: Parser, c: byte)
    requires p.InBounds() && p.VerbTerminated()
    ensures Feed(p, c).VerbTerminated()
  {
  }

  lemma FeedKeepsHost(p: Parser, c: byte)
    requires p.InBounds() && p.HostTerminated()
    ensures Feed(p, c).HostTerminated()
  {
  }

  lemma FeedKeepsOriginForm(p: Parser, c: byte)
    requires p.InBounds() && p.OriginFormTerminated()
    ensures Feed(p, c).OriginFormTerminated()
  {
  }

  lemma FeedValid(p: Parser, c: byte)
    requires p.Valid()
    ensures Feed(p, c).Valid()
  {
    FeedKeepsVerb(p, c);
    FeedKeepsHost(p, c);
    FeedKeepsOriginForm(p, c);
  }

  function FeedAll(p: Parser, s: seq<byte>): (q: Parser)
    requires p.InBounds()
    ensures q.InBounds()
    decreases |s|
  {
    if s == [] then p else FeedAll(Feed(p, s[0]), s[1..])
  }

  /** Whatever the bytes, the string fields stay terminated. */
  lemma {:induction false} FeedAllValid(p: Parser, s: seq<byte>)
    requires p.Valid()
    ensures FeedAll(p, s).Valid()
    decreases |s|
  {
    if s != [] {
      FeedValid(p, s[0]);
      FeedAllValid(Feed(p, s[0]), s[1..]);
    }
  }

  // ---- draining the client buffer --------------------------------------------------

  /** Bytes are fed until the parser stops or they run out: the parser then, and how many were taken. */
  function Consume(p: Parser, s: seq<byte>): (r: (Parser, nat))
    requires p.InBounds()
    ensures r.0.InBounds() && r.1 <= |s|
    ensures r.0.Terminal() || r.1 == |s|
    decreases |s|
  {
    if s == [] || p.Terminal() then (p, 0)
    else
      var (q, k) := Consume(Feed(p, s[0]), s[1..]);
      (q, k + 1)
  }

  /** Exactly the bytes up to the first terminal state are taken, and nothing else touches the parser. */
  lemma {:induction false} ConsumeStopsFirst(p: Parser, s: seq<byte>, j: nat)
    requires p.InBounds()
    ensures var (q, k) := Consume(p, s);
            && q == FeedAll(p, s[..k])
            && (j < k ==> !FeedAll(p, s[..j]).Terminal())
    decreases |s|
  {
    hide Feed, Parser.InBounds, Parser.Terminal;
    if s == [] || p.Terminal() {
      assert s[..0] == [];
    } else {
      var (q, k) := Consume(Feed(p, s[0]), s[1..]);
      assert s[..k + 1][1..] == s[1..][..k];
      ConsumeStopsFirst(Feed(p, s[0]), s[1..], if j == 0 then 0 else j - 1);
      if 0 < j < k + 1 {
        assert s[..j][1..] == s[1..][..j - 1];
      } else if j == 0 {
        assert s[..0] == [];
      }
    }
  }

  /** Splitting the input into two reads changes neither the outcome nor the byte it stops at. */
  lemma {:induction false} ConsumeChunks(p: Parser, a: seq<byte>, b: seq<byte>)
    requires p.InBounds()
    ensures var (q, k) := Consume(p, a);
            Consume(p, a + b) == if q.Terminal() then (q, k) else (Consume(q, b).0, |a| + Consume(q, b).1)
    decreases |a|
  {
    hide Feed, Parser.InBounds, Parser.Terminal;
    if a == [] {
      assert a + b == b;
    } else if !p.Terminal() {
      var p1 := Feed(p, a[0]);
      assert (a + b)[1..] == a[1..] + b && (a + b)[0] == a[0];
      ConsumeChunks(p1, a[1..], b);
      assert Consume(p, a) == (Consume(p1, a[1..]).0, Consume(p1, a[1..]).1 + 1);
    }
  }

  method Clear(a: array<byte>)
    modifies a
    ensures a[..] == Zeros(a.Length)
  {
    forall k | 0 <= k < a.Length { a[k] := 0; }
  }

  class RequestParser {
    var state: State
    var i: nat
    var n: nat
    var major: byte
    var minor: byte
    var form: Form
    var isIpv4: bool
    var addr: seq<byte>
    var sinPort: u16
    var port: u16
    const verb: array<byte>
    const domain: array<byte>
    const originForm: array<byte>

    ghost predicate Valid()
      reads this, verb, domain, originForm
    {
      && verb != domain && verb != originForm && domain != originForm
      && domain.Length == MAX_FQDN_LENGTH + 1 && |addr| == 4
      && View().InBounds()
    }

    /** The array part of the object's footprint. */
    ghost function Arrays(): set<object>
    {
      {verb, domain, originForm}
    }

    ghost function View(): Parser
      reads this, verb, domain, originForm
    {
      Parser(state, i, n, major, minor, verb[..], form,
             if isIpv4 then Ipv4(addr, sinPort) else Domain(domain[..]), port, originForm[..])
    }

    constructor ()
      ensures Valid() && View() == Init() && fresh(Arrays())
    {
      state, i, n, major, minor, form := Method, 0, MAX_METHOD_LENGTH, 0, 0, Absolute;
      isIpv4, addr, sinPort, port := false, Zeros(4), 0, 0;
      verb := new byte[MAX_METHOD_LENGTH + 1](_ => 0);
      domain := new byte[MAX_FQDN_LENGTH + 1](_ => 0);
      originForm := new byte[MAX_ORIGIN_FORM](_ => 0);
      new;
      assert verb[..] == Zeros(MAX_METHOD_LENGTH + 1);
      assert domain[..] == Zeros(MAX_FQDN_LENGTH + 1);
      assert originForm[..] == Zeros(MAX_ORIGIN_FORM);
    }

    /** `request_parser_init`: counters and the whole request structure back to zero. */
    method Reinit()
      requires Valid()
      modifies this, verb, domain, originForm
      ensures Valid() && View() == Init()
    {
      hide Zeros;
      Clear(verb);
      Clear(domain);
      Clear(originForm);
      state, i, n, major, minor, form := Method, 0, MAX_METHOD_LENGTH, 0, 0, Absolute;
      isIpv4, addr, sinPort, port := false, [0, 0, 0, 0], 0, 0;
      assert verb[..] == Zeros(MAX_METHOD_LENGTH + 1);
      assert domain[..] == Zeros(MAX_FQDN_LENGTH + 1);
    }

    method FeedByte(c: byte) returns (s: State)
      requires Valid()
      modifies this, verb, domain, originForm
      ensures Valid() && View() == Feed(old(View()), c) && s == state
    {
      match state {
        case Method => FeedMethodByte(c);
        case Scheme =>
          if i >= n || SCHEME[i] != c { state := Failed; }
          else if i == n - 1 { i, n, state := 0, MAX_FQDN_LENGTH, Host; }
          else { i := i + 1; }
        case Host => FeedHostByte(c);
        case Port => FeedPortByte(c);
        case OriginForm =>
          if i >= n { state := Failed; }
          else if c == SP { i, n, state := 0, VERSION_LENGTH, Version; }
          else { originForm[i] := c; i := i + 1; }
        case Version | Major | Minor | End => FeedVersionByte(c);
        case _ =>
      }
      s := state;
    }

    method FeedMethodByte(c: byte)
      requires Valid() && state == Method
      modifies `state, `i, `n, `form, verb
      ensures Valid() && View() == FeedMethod(old(View()), c)
    {
      if i < n && IsToken(c) {
        verb[i] := c;
        i := i + 1;
      } else if i < n && c == SP {
        verb[i] := 0;
        i := 0;
        if CStr(verb[..]) != CONNECT {
          form, n, state := Absolute, SCHEME_LENGTH, Scheme;
        } else {
          form, n, state := Authority, MAX_FQDN_LENGTH, Host;
        }
      } else {
        state := BadMethod;
      }
    }

    method FeedHostByte(c: byte)
      requires Valid() && state == Host
      modifies this, domain, originForm
      ensures Valid() && View() == FeedHost(old(View()), c)
    {
      if i >= n {
        state := Failed;
      } else if i == 0 && c == LBRACKET {
        state := Bracketed;
      } else if c == COLON {
        ResolveIpv4();
        i, n, state := 0, MAX_PORT_LENGTH, Port;
      } else if EndOfAuthority(c) {
        ResolveIpv4();
        originForm[0] := c;
        i, n, state := 1, MAX_ORIGIN_FORM, OriginForm;
      } else if c == SP {
        ResolveIpv4();
        EndTarget();
      } else {
        domain[i] := c;
        i := i + 1;
      }
    }

    method ResolveIpv4()
      requires Valid() && !isIpv4
      modifies `port, `isIpv4, `addr, `sinPort
      ensures View() == ParseIpv4(old(View())) && |addr| == 4
    {
      port := DEFAULT_PORT;
      match Inet.Pton4(CStr(domain[..])) {
        case None =>
        case Some(a) => isIpv4, addr, sinPort := true, a, DEFAULT_PORT;
      }
    }

    method EndTarget()
      requires originForm != verb && originForm != domain && originForm.Length == MAX_ORIGIN_FORM
      modifies `state, `i, `n, originForm
      ensures View() == ToVersion(old(View()))
    {
      if CStr(verb[..]) != OPTIONS {
        originForm[0] := SLASH;
      }
      i, n, state := 0, VERSION_LENGTH, Version;
    }

    method StorePort()
      modifies `port, `sinPort
      ensures View() == AssignPort(old(View()))
    {
      port := Swap16(port);
      if isIpv4 {
        sinPort := port;
      }
    }

    method FeedPortByte(c: byte)
      requires Valid() && state == Port
      modifies `state, `i, `n, `port, `sinPort, originForm
      ensures Valid() && View() == FeedPort(old(View()), c)
    {
      hide NextPort, CStr;
      if i >= n {
        state := Failed;
      } else if EndOfAuthority(c) {
        StorePort();
        originForm[0] := c;
        i, n, state := 1, MAX_ORIGIN_FORM, OriginForm;
      } else if c == SP {
        StorePort();
        EndTarget();
      } else if !IsDigit(c) {
        state := Failed;
      } else {
        AddDigit(c - ZERO);
      }
    }

    method AddDigit(num: byte)
      requires Valid() && state == Port && i < n && num < 10
      modifies `i, `port
      ensures Valid() && View() == FeedPort(old(View()), ZERO + num)
    {
      hide NextPort;
      port := NextPort(i, port, num);
      i := i + 1;
    }

    method FeedVersionByte(c: byte)
      requires Valid() && (state == Version || state == Major || state == Minor || state == End)
      modifies `state, `i, `n, `major, `minor
      ensures Valid() && View() == FeedVersion(old(View()), c)
    {
      if state == Version {
        if i >= n || HTTP_SLASH[i] != c {
          state := Failed;
        } else {
          i := i + 1;
          if c == SLASH { i, n, state := 0, 2, Major; }
        }
      } else if state == Major {
        FeedMajorByte(c);
      } else if state == Minor {
        FeedMinorByte(c);
      } else {
        state := if c != LF then Failed else Done;
      }
    }

    method FeedMajorByte(c: byte)
      requires Valid() && state == Major
      modifies `state, `i, `n, `major
      ensures Valid() && View() == FeedVersion(old(View()), c)
    {
      hide NextVersion;
      if i >= n {
        state := BadVersion;
      } else if c == DOT {
        i, n, state := 0, 2, Minor;
      } else if !IsDigit(c) {
        state := Failed;
      } else {
        var num := c - ZERO;
        major := NextVersion(i, major, num);
        i := i + 1;
      }
    }

    method FeedMinorByte(c: byte)
      requires Valid() && state == Minor
      modifies `state, `i, `minor
      ensures Valid() && View() == FeedVersion(old(View()), c)
    {
      hide NextVersion;
      if i >= n {
        state := BadVersion;
      } else if c == CR {
        i, state := 0, End;
      } else if !IsDigit(c) {
        state := Failed;
      } else {
        var num := c - ZERO;
        minor := NextVersion(i, minor, num);
        i := i + 1;
      }
    }
  }
}
