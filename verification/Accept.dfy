/** Nothing but well-formed text is accepted: what the three HTTP parsers have read when they are done. */
module Accept {
  import opened Bytes
  import StatusLine
  import Headers
  import RequestLine
  import RequestPrint

  predicate Digits(s: seq<byte>) { forall k :: 0 <= k < |s| ==> IsDigit(s[k]) }

  lemma Snoc(a: seq<byte>, b: seq<byte>, c: byte)
    ensures a + b + [c] == a + (b + [c])
  {
  }

  // ---- status lines ----------------------------------------------------------------------------------

  datatype Status = Status(major: seq<byte>, minor: seq<byte>, code: seq<byte>, reason: seq<byte>) {
    /** Version numbers of at most one digit, a code of three, a reason of at most 49 bytes. */
    predicate Ok() {
      && |major| <= 1 && Digits(major) && |minor| <= 1 && Digits(minor) && |code| == 3 && Digits(code)
      && |reason| < StatusLine.MAX_REASON_PHRASE && forall k :: 0 <= k < |reason| ==> IsReasonPhrase(reason[k])
    }
    function UpToMinor(): seq<byte> { StatusLine.HTTP_SLASH + major + [DOT] }
    function UpToCode(): seq<byte> { UpToMinor() + minor + [SP] }
    function UpToReason(): seq<byte> { UpToCode() + code + [SP] }
    function Text(): seq<byte> { UpToReason() + reason + [CR, LF] }
  }

  /** What has been read, state by state. */
  ghost predicate StatusRead(s: seq<byte>, p: StatusLine.Parser, x: Status) {
    match p.state
    case Version => p.i < 5 && s == StatusLine.HTTP_SLASH[..p.i]
    case Major => Digits(x.major) && |x.major| == p.i && s == StatusLine.HTTP_SLASH + x.major
    case Minor => |x.major| <= 1 && Digits(x.major) && Digits(x.minor) && |x.minor| == p.i && s == x.UpToMinor() + x.minor
    case Code =>
      && |x.major| <= 1 && Digits(x.major) && |x.minor| <= 1 && Digits(x.minor) && Digits(x.code) && |x.code| == p.i && s == x.UpToCode() + x.code
    case Reason =>
      && |x.major| <= 1 && Digits(x.major) && |x.minor| <= 1 && Digits(x.minor) && |x.code| == 3 && Digits(x.code)
      && (forall k :: 0 <= k < |x.reason| ==> IsReasonPhrase(x.reason[k])) && |x.reason| == p.i && s == x.UpToReason() + x.reason
    case End => x.Ok() && s == x.UpToReason() + x.reason + [CR]
    case Done => x.Ok() && x.Text() <= s
    case Failed => true
  }

  lemma StatusVersion(s: seq<byte>, p: StatusLine.Parser, x: Status, c: byte)
    requires p.Valid() && StatusRead(s, p, x) && p.state == StatusLine.Version
    ensures StatusRead(s + [c], StatusLine.Feed(p, c), Status([], [], [], []))
  {
    assert StatusLine.HTTP_SLASH[p.i] == c ==> StatusLine.HTTP_SLASH[..p.i] + [c] == StatusLine.HTTP_SLASH[..p.i + 1];
    assert StatusLine.HTTP_SLASH[..5] == StatusLine.HTTP_SLASH && StatusLine.HTTP_SLASH + [] == StatusLine.HTTP_SLASH;
  }

  lemma StatusMajor(s: seq<byte>, p: StatusLine.Parser, x: Status, c: byte) returns (y: Status)
    requires p.Valid() && StatusRead(s, p, x) && p.state == StatusLine.Major
    ensures StatusRead(s + [c], StatusLine.Feed(p, c), y)
  {
    if c == DOT {
      y := x.(minor := []);
      assert y.UpToMinor() + [] == y.UpToMinor();
    } else {
      y := x.(major := x.major + [c]);
      Snoc(StatusLine.HTTP_SLASH, x.major, c);
    }
  }

  lemma StatusMinor(s: seq<byte>, p: StatusLine.Parser, x: Status, c: byte) returns (y: Status)
    requires p.Valid() && StatusRead(s, p, x) && p.state == StatusLine.Minor
    ensures StatusRead(s + [c], StatusLine.Feed(p, c), y)
  {
    hide Status.UpToMinor;
    if c == SP {
      y := x.(code := []);
      SameMinor(x, y);
      assert y.UpToCode() + [] == y.UpToCode();
    } else {
      y := x.(minor := x.minor + [c]);
      SameMinor(x, y);
      Snoc(x.UpToMinor(), x.minor, c);
    }
  }

  lemma SameMinor(x: Status, y: Status)
    requires y.major == x.major
    ensures y.UpToMinor() == x.UpToMinor()
    ensures y.minor == x.minor ==> y.UpToCode() == x.UpToCode() && (y.code == x.code ==> y.UpToReason() == x.UpToReason())
  {
  }

  lemma StatusCode(s: seq<byte>, p: StatusLine.Parser, x: Status, c: byte) returns (y: Status)
    requires p.Valid() && StatusRead(s, p, x) && p.state == StatusLine.Code
    ensures StatusRead(s + [c], StatusLine.Feed(p, c), y)
  {
    hide Status.UpToCode, Status.UpToMinor, StatusLine.Pow10;
    if p.i == 3 && c == SP {
      y := x.(reason := []);
      SameMinor(x, y);
      assert y.UpToReason() + [] == y.UpToReason();
    } else {
      y := x.(code := x.code + [c]);
      SameMinor(x, y);
      Snoc(x.UpToCode(), x.code, c);
    }
  }

  lemma StatusReason(s: seq<byte>, p: StatusLine.Parser, x: Status, c: byte) returns (y: Status)
    requires p.Valid() && StatusRead(s, p, x) && p.state == StatusLine.Reason
    ensures StatusRead(s + [c], StatusLine.Feed(p, c), y)
  {
    hide Status.UpToReason, Status.UpToCode, Status.UpToMinor, StatusLine.Pow10;
    y := x;
    if c != CR {
      y := x.(reason := x.reason + [c]);
      SameMinor(x, y);
      Snoc(x.UpToReason(), x.reason, c);
    }
  }

  lemma StatusEnd(s: seq<byte>, p: StatusLine.Parser, x: Status, c: byte)
    requires p.Valid() && StatusRead(s, p, x) && (p.state == StatusLine.End || p.state == StatusLine.Done || p.state == StatusLine.Failed)
    ensures StatusRead(s + [c], StatusLine.Feed(p, c), x)
  {
    hide Status.UpToReason, Status.Ok;
    if p.state == StatusLine.End && c == LF {
      assert s + [c] == x.Text();
    }
  }

  lemma StatusStep(s: seq<byte>, p: StatusLine.Parser, x: Status, c: byte) returns (y: Status)
    requires p.Valid() && StatusRead(s, p, x)
    ensures StatusRead(s + [c], StatusLine.Feed(p, c), y)
  {
    hide StatusRead, StatusLine.Feed, StatusLine.Parser.Valid;
    y := Status([], [], [], []);
    match p.state {
      case Version => StatusVersion(s, p, x, c);
      case Major => y := StatusMajor(s, p, x, c);
      case Minor => y := StatusMinor(s, p, x, c);
      case Code => y := StatusCode(s, p, x, c);
      case Reason => y := StatusReason(s, p, x, c);
      case End | Done | Failed => y := x; StatusEnd(s, p, x, c);
    }
  }

  lemma {:induction false} StatusTrace(s: seq<byte>) returns (x: Status)
    ensures StatusRead(s, StatusLine.FeedAll(StatusLine.Init(), s), x)
    decreases |s|
  {
    hide StatusLine.Feed, StatusRead;
    if s == [] {
      x := Status([], [], [], []);
      StatusStart(x);
    } else {
      var t, c := s[..|s| - 1], s[|s| - 1];
      assert s == t + [c];
      x := StatusTrace(t);
      StatusLine.FeedAllConcat(StatusLine.Init(), t, [c]);
      StatusOne(StatusLine.FeedAll(StatusLine.Init(), t), c);
      x := StatusStep(t, StatusLine.FeedAll(StatusLine.Init(), t), x, c);
    }
  }

  lemma StatusStart(x: Status)
    ensures StatusRead([], StatusLine.FeedAll(StatusLine.Init(), []), x)
  {
    assert StatusLine.HTTP_SLASH[..0] == [];
  }

  lemma StatusOne(p: StatusLine.Parser, c: byte)
    requires p.Valid()
    ensures StatusLine.FeedAll(p, [c]) == StatusLine.Feed(p, c)
  {
    assert [c][1..] == [];
    assert StatusLine.FeedAll(StatusLine.Feed(p, c), []) == StatusLine.Feed(p, c);
  }

  /** Only input that starts with a well-formed status line is accepted. */
  lemma OnlyStatusLines(s: seq<byte>) returns (x: Status)
    requires StatusLine.FeedAll(StatusLine.Init(), s).state == StatusLine.Done
    ensures x.Ok() && x.Text() <= s
  {
    hide StatusLine.FeedAll;
    x := StatusTrace(s);
  }

  // ---- header sections ---------------------------------------------------------------------------------

  predicate Tokens(s: seq<byte>) { forall k :: 0 <= k < |s| ==> IsToken(s[k]) }

  predicate Visible(s: seq<byte>) { forall k :: 0 <= k < |s| ==> IsVchar(s[k]) || IsSpace(s[k]) }

  /** Token names, all but the first non-empty, and visible values. */
  predicate FieldsOk(fs: seq<Headers.Field>) {
    forall k :: 0 <= k < |fs| ==> Tokens(fs[k].name) && (k > 0 ==> fs[k].name != []) && Visible(fs[k].value)
  }

  lemma {:induction false} PrintFieldsSnoc(fs: seq<Headers.Field>, f: Headers.Field)
    ensures Headers.PrintFields(fs + [f]) == Headers.PrintFields(fs) + Headers.PrintField(f)
    decreases |fs|
  {
    hide Headers.PrintField;
    var all := fs + [f];
    if fs == [] {
      assert all[1..] == [] && all[0] == f;
      assert Headers.PrintFields([]) == [];
      assert Headers.PrintField(f) + [] == [] + Headers.PrintField(f);
    } else {
      assert all[1..] == fs[1..] + [f] && all[0] == fs[0];
      PrintFieldsSnoc(fs[1..], f);
    }
  }

  datatype Section = Section(fields: seq<Headers.Field>, name: seq<byte>, value: seq<byte>)

  ghost predicate SectionRead(s: seq<byte>, p: Headers.Parser, x: Section) {
    var done := Headers.PrintFields(x.fields);
    var named := Tokens(x.name) && (x.fields != [] ==> x.name != []);
    FieldsOk(x.fields)
    && match p.state
       case FieldName => named && s == done + x.name
       case FieldValue => named && Visible(x.value) && s == done + x.name + [COLON] + x.value
       case FieldValueEnd => named && Visible(x.value) && s == done + x.name + [COLON] + x.value + [CR]
       case MayBeEnd => x.fields != [] && s == done
       case End => x.fields != [] && s == done + [CR]
       case Done => x.fields != [] && Headers.Print(x.fields) <= s
       case Failed => true
  }

  lemma SectionStep(s: seq<byte>, p: Headers.Parser, x: Section, c: byte) returns (y: Section)
    requires SectionRead(s, p, x)
    ensures SectionRead(s + [c], Headers.Feed(p, c), y)
  {
    hide Headers.PrintFields;
    y := x;
    var done := Headers.PrintFields(x.fields);
    match p.state {
      case FieldName =>
        if c == COLON {
          y := x.(value := []);
          assert done + x.name + [COLON] + [] == done + x.name + [COLON];
        } else {
          y := x.(name := x.name + [c]);
          Snoc(done, x.name, c);
        }
      case FieldValue =>
        if c != CR {
          y := x.(value := x.value + [c]);
          Snoc(done + x.name + [COLON], x.value, c);
        }
      case FieldValueEnd =>
        var f := Headers.Field(x.name, x.value);
        y := Section(x.fields + [f], [], []);
        PrintFieldsSnoc(x.fields, f);
        assert c == LF ==> s + [c] == done + Headers.PrintField(f);
      case MayBeEnd =>
        y := x.(name := [c]);
      case End => assert c == LF ==> s + [c] == Headers.Print(x.fields);
      case Done => assert Headers.Print(x.fields) <= s + [c];
      case Failed =>
    }
  }

  lemma {:induction false} SectionTrace(s: seq<byte>) returns (x: Section)
    ensures SectionRead(s, Headers.FeedAll(Headers.Init(), s), x)
    decreases |s|
  {
    hide Headers.Feed, SectionRead;
    if s == [] {
      x := Section([], [], []);
      SectionStart();
    } else {
      x := SectionTrace(s[..|s| - 1]);
      Headers.FeedAllSnoc(Headers.Init(), s);
      x := SectionStep(s[..|s| - 1], Headers.FeedAll(Headers.Init(), s[..|s| - 1]), x, s[|s| - 1]);
      assert s == s[..|s| - 1] + [s[|s| - 1]];
    }
  }

  lemma SectionStart()
    ensures SectionRead([], Headers.FeedAll(Headers.Init(), []), Section([], [], []))
  {
    assert Headers.PrintFields([]) == [];
  }

  /** Only input that starts with a well-formed, non-empty header section is accepted. */
  lemma OnlySections(s: seq<byte>) returns (fs: seq<Headers.Field>)
    requires Headers.FeedAll(Headers.Init(), s).state == Headers.Done
    ensures fs != [] && FieldsOk(fs) && Headers.Print(fs) <= s
  {
    hide Headers.FeedAll;
    var x := SectionTrace(s);
    fs := x.fields;
  }

  // ---- request lines -----------------------------------------------------------------------------------

  datatype Pieces = Pieces(verb: seq<byte>, host: seq<byte>, digits: Option<seq<byte>>, path: seq<byte>, major: seq<byte>, minor: seq<byte>) {
    predicate VerbOk() { |verb| <= 23 && Tokens(verb) }

    predicate HostOk() { HostSoFar() && |host| <= 254 }

    predicate HostSoFar() {
      VerbOk() && (host != [] ==> host[0] != LBRACKET) && forall k :: 0 <= k < |host| ==> RequestPrint.HostByte(host[k])
    }

    predicate PortOk() { HostOk() && (digits.Some? ==> |digits.value| <= 4 && Digits(digits.value)) }

    predicate PathOk() { PortOk() && (path != [] ==> EndOfAuthority(path[0]) && |path| <= 1023 && SP !in path) }

    predicate Ok() { PathOk() && |major| <= 1 && Digits(major) && |minor| <= 1 && Digits(minor) }

    /** One of the version numbers has two digits, and something follows. */
    predicate LongVersion(s: seq<byte>) {
      && PathOk() && Digits(major) && Digits(minor)
      && (|| (|major| == 2 && Target() + RequestLine.HTTP_SLASH + major < s)
          || (|major| <= 1 && |minor| == 2 && UpToMinor() + minor < s))
    }

    function Front(): seq<byte> { verb + [SP] + if verb == RequestLine.CONNECT then [] else RequestLine.SCHEME }
    function Named(): seq<byte> { Front() + host }
    function Authority(): seq<byte> { Named() + if digits.Some? then [COLON] + digits.value else [] }
    function Target(): seq<byte> { Authority() + path + [SP] }
    function UpToMinor(): seq<byte> { Target() + RequestLine.HTTP_SLASH + major + [DOT] }
    function Text(): seq<byte> { UpToMinor() + minor + [CR, LF] }
  }

  ghost predicate LineRead(s: seq<byte>, p: RequestLine.Parser, x: Pieces) {
    match p.state
    case Method => Tokens(x.verb) && |x.verb| == p.i <= 24 && s == x.verb && p.verb == RequestPrint.Padded(x.verb, RequestLine.MAX_METHOD_LENGTH + 1)
    case Scheme => x.VerbOk() && x.verb != RequestLine.CONNECT && p.i < 7 && s == x.verb + [SP] + RequestLine.SCHEME[..p.i]
    case Host => x.HostSoFar() && |x.host| == p.i && s == x.Named()
    case Port => x.HostOk() && x.digits.Some? && Digits(x.digits.value) && |x.digits.value| == p.i <= 5 && s == x.Authority()
    case OriginForm => x.PortOk() && |x.path| == p.i >= 1 && EndOfAuthority(x.path[0]) && SP !in x.path && s == x.Authority() + x.path
    case Version => x.PathOk() && p.i < 5 && s == x.Target() + RequestLine.HTTP_SLASH[..p.i]
    case Major => x.PathOk() && Digits(x.major) && |x.major| == p.i && s == x.Target() + RequestLine.HTTP_SLASH + x.major
    case Minor => x.PathOk() && |x.major| <= 1 && Digits(x.major) && Digits(x.minor) && |x.minor| == p.i && s == x.UpToMinor() + x.minor
    case End => x.Ok() && s == x.UpToMinor() + x.minor + [CR]
    case Done => x.Ok() && x.Text() <= s
    case BadVersion => x.LongVersion(s)
    case _ => true
  }

  const NOTHING := Pieces([], [], None, [], [], [])

  lemma MethodFeed(p: RequestLine.Parser, verb: seq<byte>, c: byte)
    requires p.InBounds() && p.state == RequestLine.Method && Tokens(verb) && |verb| == p.i <= 24
    requires p.verb == RequestPrint.Padded(verb, RequestLine.MAX_METHOD_LENGTH + 1)
    ensures var q := RequestLine.Feed(p, c);
            if p.i < 24 && IsToken(c) then
              q.state == RequestLine.Method && q.i == p.i + 1 && q.verb == RequestPrint.Padded(verb + [c], RequestLine.MAX_METHOD_LENGTH + 1)
            else if p.i < 24 && c == SP then
              q.i == 0 && q.state == (if verb == RequestLine.CONNECT then RequestLine.Host else RequestLine.Scheme)
            else q.state == RequestLine.BadMethod
  {
    hide RequestPrint.Padded, CStr;
    if p.i < 24 {
      RequestPrint.PaddedPut(verb, RequestLine.MAX_METHOD_LENGTH + 1, c);
      RequestPrint.CStrPad(verb, RequestLine.MAX_METHOD_LENGTH + 1);
      RequestPrint.TokensAreAString(verb);
    }
  }

  lemma MethodStep(s: seq<byte>, p: RequestLine.Parser, x: Pieces, c: byte) returns (y: Pieces)
    requires p.InBounds() && LineRead(s, p, x) && p.state == RequestLine.Method
    ensures LineRead(s + [c], RequestLine.Feed(p, c), y)
  {
    hide RequestPrint.Padded, RequestLine.Feed, RequestLine.Parser.InBounds, Pieces.Authority, Pieces.Target;
    MethodFeed(p, x.verb, c);
    if IsToken(c) {
      y := NOTHING.(verb := x.verb + [c]);
    } else {
      y := NOTHING.(verb := x.verb);
      assert RequestLine.SCHEME[..0] == [];
      assert x.verb + [SP] + [] == x.verb + [SP] && y.Front() + [] == y.Front();
    }
  }

  lemma SchemeStep(s: seq<byte>, p: RequestLine.Parser, x: Pieces, c: byte)
    requires p.InBounds() && LineRead(s, p, x) && p.state == RequestLine.Scheme
    ensures LineRead(s + [c], RequestLine.Feed(p, c), NOTHING.(verb := x.verb))
  {
    var y := NOTHING.(verb := x.verb);
    assert RequestLine.SCHEME[p.i] == c ==> RequestLine.SCHEME[..p.i] + [c] == RequestLine.SCHEME[..p.i + 1];
    Snoc(x.verb + [SP], RequestLine.SCHEME[..p.i], c);
    assert RequestLine.SCHEME[..7] == RequestLine.SCHEME && y.Front() + [] == y.Front();
  }

  lemma HostStep(s: seq<byte>, p: RequestLine.Parser, x: Pieces, c: byte) returns (y: Pieces)
    requires p.InBounds() && LineRead(s, p, x) && p.state == RequestLine.Host
    ensures LineRead(s + [c], RequestLine.Feed(p, c), y)
  {
    hide Pieces.Front, RequestLine.ParseIpv4;
    HostFeed(p, c);
    if c == COLON {
      y := x.(digits := Some([]));
      SameFront(x, y);
      assert [COLON] + [] == [COLON];
    } else if EndOfAuthority(c) {
      y := x.(digits := None, path := [c]);
      SameFront(x, y);
      assert x.Named() + [] == x.Named();
    } else if c == SP {
      y := x.(digits := None, path := []);
      SameFront(x, y);
      assert RequestLine.HTTP_SLASH[..0] == [];
      assert x.Named() + [] == x.Named() && x.Named() + [] + [] == x.Named() && y.Target() + [] == y.Target();
    } else {
      y := x.(host := x.host + [c]);
      SameFront(x, y);
      Snoc(x.Front(), x.host, c);
    }
  }

  lemma SameFront(x: Pieces, y: Pieces)
    requires y.verb == x.verb
    ensures y.Front() == x.Front() && (y.host == x.host ==> y.Named() == x.Named() && (y.digits == x.digits ==> y.Authority() == x.Authority()))
  {
  }

  lemma HostFeed(p: RequestLine.Parser, c: byte)
    requires p.InBounds() && p.state == RequestLine.Host
    ensures var q := RequestLine.Feed(p, c);
            if p.i >= 255 then q.state == RequestLine.Failed
            else if p.i == 0 && c == LBRACKET then q.state == RequestLine.Bracketed
            else if c == COLON then q.state == RequestLine.Port && q.i == 0
            else if EndOfAuthority(c) then q.state == RequestLine.OriginForm && q.i == 1
            else if c == SP then q.state == RequestLine.Version && q.i == 0
            else q.state == RequestLine.Host && q.i == p.i + 1
  {
  }

  lemma PortFeed(p: RequestLine.Parser, c: byte)
    requires p.InBounds() && p.state == RequestLine.Port
    ensures var q := RequestLine.Feed(p, c);
            if p.i >= 5 then q.state == RequestLine.Failed
            else if EndOfAuthority(c) then q.state == RequestLine.OriginForm && q.i == 1
            else if c == SP then q.state == RequestLine.Version && q.i == 0
            else if !IsDigit(c) then q.state == RequestLine.Failed
            else q.state == RequestLine.Port && q.i == p.i + 1
  {
    hide RequestLine.NextPort;
  }

  lemma PortStep(s: seq<byte>, p: RequestLine.Parser, x: Pieces, c: byte) returns (y: Pieces)
    requires p.InBounds() && LineRead(s, p, x) && p.state == RequestLine.Port
    ensures LineRead(s + [c], RequestLine.Feed(p, c), y)
  {
    hide Pieces.Named, Pieces.Front, RequestLine.Feed;
    PortFeed(p, c);
    if EndOfAuthority(c) {
      y := x.(path := [c]);
      SameFront(x, y);
    } else if c == SP {
      y := x.(path := []);
      SameFront(x, y);
      assert RequestLine.HTTP_SLASH[..0] == [];
      assert x.Authority() + [] == x.Authority() && y.Target() + [] == y.Target();
    } else {
      y := x.(digits := Some(x.digits.value + [c]));
      SameFront(x, y);
      assert x.Named() + ([COLON] + x.digits.value) + [c] == x.Named() + ([COLON] + (x.digits.value + [c]));
    }
  }

  lemma PathStep(s: seq<byte>, p: RequestLine.Parser, x: Pieces, c: byte) returns (y: Pieces)
    requires p.InBounds() && LineRead(s, p, x) && p.state == RequestLine.OriginForm
    ensures LineRead(s + [c], RequestLine.Feed(p, c), y)
  {
    hide Pieces.Authority, Pieces.Named, Pieces.Front;
    y := x;
    if c == SP {
      assert RequestLine.HTTP_SLASH[..0] == [] && x.Target() + [] == x.Target();
    } else {
      y := x.(path := x.path + [c]);
      SameFront(x, y);
      Snoc(x.Authority(), x.path, c);
    }
  }

  lemma VersionStep(s: seq<byte>, p: RequestLine.Parser, x: Pieces, c: byte) returns (y: Pieces)
    requires p.InBounds() && LineRead(s, p, x) && p.state == RequestLine.Version
    ensures LineRead(s + [c], RequestLine.Feed(p, c), y)
  {
    hide Pieces.Authority, Pieces.Named, Pieces.Front;
    y := x.(major := []);
    SameFront(x, y);
    assert RequestLine.HTTP_SLASH[p.i] == c ==> RequestLine.HTTP_SLASH[..p.i] + [c] == RequestLine.HTTP_SLASH[..p.i + 1];
    Snoc(x.Target(), RequestLine.HTTP_SLASH[..p.i], c);
    assert RequestLine.HTTP_SLASH[..5] == RequestLine.HTTP_SLASH;
    assert x.Target() + RequestLine.HTTP_SLASH + [] == x.Target() + RequestLine.HTTP_SLASH;
  }

  lemma MajorStep(s: seq<byte>, p: RequestLine.Parser, x: Pieces, c: byte) returns (y: Pieces)
    requires p.InBounds() && LineRead(s, p, x) && p.state == RequestLine.Major
    ensures LineRead(s + [c], RequestLine.Feed(p, c), y)
  {
    hide Pieces.Authority, Pieces.Named, Pieces.Front, RequestLine.NextVersion;
    if p.i >= 2 {
      y := x.(minor := []);
      SameFront(x, y);
      assert y.Target() + RequestLine.HTTP_SLASH + y.major < s + [c];
    } else if c == DOT {
      y := x.(minor := []);
      SameFront(x, y);
      assert y.UpToMinor() + [] == y.UpToMinor();
    } else {
      y := x.(major := x.major + [c]);
      SameFront(x, y);
      Snoc(x.Target() + RequestLine.HTTP_SLASH, x.major, c);
    }
  }

  lemma MinorStep(s: seq<byte>, p: RequestLine.Parser, x: Pieces, c: byte) returns (y: Pieces)
    requires p.InBounds() && LineRead(s, p, x) && p.state == RequestLine.Minor
    ensures LineRead(s + [c], RequestLine.Feed(p, c), y)
  {
    hide Pieces.Authority, Pieces.Named, Pieces.Front, RequestLine.NextVersion;
    y := x;
    if p.i >= 2 {
      assert x.UpToMinor() + x.minor < s + [c];
    } else if c != CR {
      y := x.(minor := x.minor + [c]);
      SameFront(x, y);
      Snoc(x.UpToMinor(), x.minor, c);
    }
  }

  lemma EndStep(s: seq<byte>, p: RequestLine.Parser, x: Pieces, c: byte)
    requires p.InBounds() && LineRead(s, p, x) && (p.state == RequestLine.End || p.Terminal())
    ensures LineRead(s + [c], RequestLine.Feed(p, c), x)
  {
    hide Pieces.UpToMinor, Pieces.Ok;
    if p.state == RequestLine.End && c == LF {
      assert s + [c] == x.Text();
    }
  }

  lemma LineStep(s: seq<byte>, p: RequestLine.Parser, x: Pieces, c: byte) returns (y: Pieces)
    requires p.InBounds() && LineRead(s, p, x)
    ensures LineRead(s + [c], RequestLine.Feed(p, c), y)
  {
    hide LineRead, RequestLine.Feed, RequestLine.Parser.InBounds;
    y := x;
    match p.state {
      case Method => y := MethodStep(s, p, x, c);
      case Scheme => y := NOTHING.(verb := x.verb); SchemeStep(s, p, x, c);
      case Host => y := HostStep(s, p, x, c);
      case Port => y := PortStep(s, p, x, c);
      case OriginForm => y := PathStep(s, p, x, c);
      case Version => y := VersionStep(s, p, x, c);
      case Major => y := MajorStep(s, p, x, c);
      case Minor => y := MinorStep(s, p, x, c);
      case End | Done | Failed | BadVersion | BadMethod | Bracketed => EndStep(s, p, x, c);
    }
  }

  lemma {:induction false} LineTrace(s: seq<byte>) returns (x: Pieces)
    ensures LineRead(s, RequestLine.FeedAll(RequestLine.Init(), s), x)
    decreases |s|
  {
    hide RequestLine.Feed, LineRead, RequestLine.Parser.InBounds;
    if s == [] {
      x := NOTHING;
      LineStart();
    } else {
      var t, c := s[..|s| - 1], s[|s| - 1];
      assert s == t + [c];
      x := LineTrace(t);
      RequestPrint.FeedAllThen(RequestLine.Init(), t, c);
      x := LineStep(t, RequestLine.FeedAll(RequestLine.Init(), t), x, c);
    }
  }

  lemma LineStart()
    ensures LineRead([], RequestLine.FeedAll(RequestLine.Init(), []), NOTHING)
  {
  }

  /** Only input with a version number of two digits is answered 505. */
  lemma OnlyLongVersions(s: seq<byte>) returns (x: Pieces)
    requires RequestLine.FeedAll(RequestLine.Init(), s).state == RequestLine.BadVersion
    ensures x.LongVersion(s)
  {
    hide RequestLine.FeedAll;
    x := LineTrace(s);
  }

  /** Only input that starts with a well-formed request line is accepted: a method of at most 23 token bytes, the
      scheme unless it is CONNECT, a host of at most 254 bytes, a port of at most four digits, a path of at most 1023
      bytes, and version numbers of at most one digit. */
  lemma OnlyRequestLines(s: seq<byte>) returns (x: Pieces)
    requires RequestLine.FeedAll(RequestLine.Init(), s).state == RequestLine.Done
    ensures x.Ok() && x.Text() <= s
  {
    hide RequestLine.FeedAll;
    x := LineTrace(s);
  }

  // ---- bad methods ------------------------------------------------------------------------------------

  /** Byte `k` is where the method goes wrong: too long, or neither a token byte nor the space after it. */
  predicate BadAt(s: seq<byte>, k: nat) { k < |s| && k <= 24 && Tokens(s[..k]) && (k == 24 || (!IsToken(s[k]) && s[k] != SP)) }

  lemma {:induction false} MethodTrace(s: seq<byte>)
    requires Tokens(s) && |s| <= 24
    ensures var p := RequestLine.FeedAll(RequestLine.Init(), s);
            p.state == RequestLine.Method && p.i == |s| && p.verb == RequestPrint.Padded(s, RequestLine.MAX_METHOD_LENGTH + 1)
    decreases |s|
  {
    hide RequestLine.Feed, RequestLine.Parser.InBounds, RequestPrint.Padded;
    if s == [] {
      MethodStart();
    } else {
      var t, c := s[..|s| - 1], s[|s| - 1];
      MethodTrace(t);
      assert s == t + [c];
      RequestPrint.FeedAllThen(RequestLine.Init(), t, c);
      MethodFeed(RequestLine.FeedAll(RequestLine.Init(), t), t, c);
    }
  }

  lemma MethodStart()
    ensures var p := RequestLine.FeedAll(RequestLine.Init(), []);
            p.state == RequestLine.Method && p.i == 0 && p.verb == RequestPrint.Padded([], RequestLine.MAX_METHOD_LENGTH + 1)
  {
    assert Zeros(RequestLine.MAX_METHOD_LENGTH + 1) == [] + Zeros(RequestLine.MAX_METHOD_LENGTH + 1);
  }

  predicate PastMethod(p: RequestLine.Parser) { p.state != RequestLine.Method && p.state != RequestLine.BadMethod }

  lemma {:induction false} PastMethodForever(p: RequestLine.Parser, s: seq<byte>)
    requires p.InBounds() && PastMethod(p)
    ensures PastMethod(RequestLine.FeedAll(p, s))
    decreases |s|
  {
    if s != [] {
      PastMethodForever(RequestLine.Feed(p, s[0]), s[1..]);
    }
  }

  /** The length of the method: as many token bytes as there are, up to 24. */
  function MethodLength(s: seq<byte>, k: nat): (n: nat)
    requires k <= |s| && k <= 24 && Tokens(s[..k])
    ensures k <= n <= |s| && n <= 24 && Tokens(s[..n]) && (n < |s| && n < 24 ==> !IsToken(s[n]))
    decreases 24 - k
  {
    if k < |s| && k < 24 && IsToken(s[k]) then
      assert s[..k + 1] == s[..k] + [s[k]];
      MethodLength(s, k + 1)
    else k
  }

  /** A line is answered 501 exactly when its method goes wrong at some byte. */
  lemma BadMethodExactly(s: seq<byte>)
    ensures RequestLine.FeedAll(RequestLine.Init(), s).state == RequestLine.BadMethod <==> exists k :: 0 <= k < |s| && BadAt(s, k)
  {
    hide RequestLine.Feed, RequestLine.FeedAll, RequestLine.Parser.InBounds, RequestPrint.Padded;
    var n := MethodLength(s, 0);
    MethodTrace(s[..n]);
    if n == |s| {
      assert s[..n] == s;
      NoneBad(s, n);
    } else {
      var p := RequestLine.FeedAll(RequestLine.Init(), s[..n]);
      assert s == s[..n + 1] + s[n + 1..] && s[..n + 1] == s[..n] + [s[n]];
      RequestPrint.FeedAllThen(RequestLine.Init(), s[..n], s[n]);
      MethodFeed(p, s[..n], s[n]);
      var q := RequestLine.Feed(p, s[n]);
      RequestPrint.FeedAllConcat(RequestLine.Init(), s[..n + 1], s[n + 1..]);
      if n < 24 && s[n] == SP {
        PastMethodForever(q, s[n + 1..]);
        NoneBad(s, n);
      } else {
        RequestPrint.TerminalAbsorbs(q, s[n + 1..]);
        assert BadAt(s, n);
      }
    }
  }

  lemma NoneBad(s: seq<byte>, n: nat)
    requires n <= |s| && n <= 24 && Tokens(s[..n]) && (n == |s| || (n < 24 && s[n] == SP))
    ensures forall k :: 0 <= k < |s| ==> !BadAt(s, k)
  {
    forall k | 0 <= k < |s| ensures !BadAt(s, k) {
      if k < n {
        assert s[..n][k] == s[k];
      } else if k > n {
        assert s[..k][n] == s[n];
      }
    }
  }
}
