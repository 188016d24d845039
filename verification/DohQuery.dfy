/** The DNS-over-HTTPS request: the in-place QNAME encoder and the POST around it (section 4.1 of RFC 8484). */
module DohQuery {
  import opened Bytes
  import Dns
  import Headers
  import opened DnsPrint

  const MAX_QUERY_LENGTH := 300
  /** The longest host name the request parser stores. */
  const MAX_DOMAIN := 254

  // ---- what the encoder must produce -----------------------------------------------------

  /** The pieces between dots; a trailing dot leaves an empty last piece. */
  function Split(d: seq<byte>): (r: seq<seq<byte>>)
    ensures |r| >= 1
    ensures forall k :: 0 <= k < |r| ==> |r[k]| <= |d|
  {
    if d == [] then [[]]
    else
      var t := Split(d[1..]);
      if d[0] == DOT then [[]] + t else [[d[0]] + t[0]] + t[1..]
  }

  /** `domain[i - 1]` after the scan; for the empty string that is the byte before the array. */
  function LastByte(d: seq<byte>, before: byte): byte {
    if d == [] then before else d[|d| - 1]
  }

  /** Length-prefixed pieces, closed by a zero unless the name already ended in a dot. */
  function QName(d: seq<byte>, before: byte): seq<byte>
    requires |d| <= MAX_DOMAIN
  {
    PrintLabels(Split(d)) + if LastByte(d, before) != DOT then [0] else []
  }

  // ---- the encoder -----------------------------------------------------------------------

  /** Appending to the last piece. */
  function Grow(t: seq<seq<byte>>, c: byte): seq<seq<byte>>
    requires t != []
  {
    if c == DOT then t + [[]] else t[..|t| - 1] + [t[|t| - 1] + [c]]
  }

  /** Prepending to the first piece. */
  function Prepend(c: byte, t: seq<seq<byte>>): (r: seq<seq<byte>>)
    requires t != []
    ensures r != []
  {
    if c == DOT then [[]] + t else [[c] + t[0]] + t[1..]
  }

  lemma GrowPrepend(b: byte, t: seq<seq<byte>>, c: byte)
    requires t != []
    ensures Grow(Prepend(b, t), c) == Prepend(b, Grow(t, c))
  {
    var x, y := Grow(Prepend(b, t), c), Prepend(b, Grow(t, c));
    assert |x| == |y|;
    if b != DOT && c != DOT && |t| == 1 {
      assert [b] + (t[0] + [c]) == [b] + t[0] + [c];
    }
    forall k | 0 <= k < |x| ensures x[k] == y[k] {
    }
  }

  lemma {:induction false} SplitSnoc(d: seq<byte>, c: byte)
    ensures Split(d + [c]) == Grow(Split(d), c)
    decreases |d|
  {
    hide Grow, Prepend;
    if d == [] {
      SplitOne(c);
      assert d + [c] == [c];
    } else {
      assert (d + [c])[1..] == d[1..] + [c] && (d + [c])[0] == d[0];
      SplitSnoc(d[1..], c);
      SplitStep(d);
      SplitStep(d + [c]);
      GrowPrepend(d[0], Split(d[1..]), c);
    }
  }

  lemma SplitStep(d: seq<byte>)
    requires d != []
    ensures Split(d) == Prepend(d[0], Split(d[1..]))
  {
  }

  lemma SplitOne(c: byte)
    ensures Split([c]) == Grow(Split([]), c)
  {
    assert [c][1..] == [];
    var e: seq<seq<byte>> := [[]];
    assert Split([]) == e && e[1..] == [] && e[..0] == [];
    assert [c] + [] == [] + [c];
  }

  lemma {:induction false} PrintLabelsSnoc(ls: seq<seq<byte>>, l: seq<byte>)
    requires (forall k :: 0 <= k < |ls| ==> |ls[k]| <= 255) && |l| <= 255
    ensures PrintLabels(ls + [l]) == PrintLabels(ls) + PrintLabel(l)
    decreases |ls|
  {
    if ls == [] {
      assert ls + [l] == [l] && [l][1..] == [];
    } else {
      assert (ls + [l])[1..] == ls[1..] + [l];
      PrintLabelsSnoc(ls[1..], l);
    }
  }

  /** The bytes before the pending label. */
  function Closed(d: seq<byte>): seq<byte>
    requires |d| <= MAX_DOMAIN
  {
    var t := Split(d);
    PrintLabels(t[..|t| - 1])
  }

  function Pending(d: seq<byte>): seq<byte> { Split(d)[|Split(d)| - 1] }

  lemma ScanStep(d: seq<byte>, c: byte)
    requires |d| + 1 <= MAX_DOMAIN
    ensures c == DOT ==> Closed(d + [c]) == Closed(d) + PrintLabel(Pending(d)) && Pending(d + [c]) == []
    ensures c != DOT ==> Closed(d + [c]) == Closed(d) && Pending(d + [c]) == Pending(d) + [c]
  {
    SplitSnoc(d, c);
    var t := Split(d);
    if c == DOT {
      assert (t + [[]])[..|t|] == t;
      assert t == t[..|t| - 1] + [t[|t| - 1]];
      PrintLabelsSnoc(t[..|t| - 1], t[|t| - 1]);
    }
  }

  lemma {:induction false} ScanLength(d: seq<byte>)
    requires |d| <= MAX_DOMAIN
    ensures |Closed(d)| + |Pending(d)| == |d|
    decreases |d|
  {
    if d != [] {
      var a := d[..|d| - 1];
      assert d == a + [d[|d| - 1]];
      ScanStep(a, d[|d| - 1]);
      ScanLength(a);
    }
  }

  lemma QNameFromScan(d: seq<byte>, before: byte)
    requires |d| <= MAX_DOMAIN
    ensures QName(d, before) == Closed(d) + PrintLabel(Pending(d)) + if LastByte(d, before) != DOT then [0] else []
  {
    var t := Split(d);
    assert t == t[..|t| - 1] + [t[|t| - 1]];
    PrintLabelsSnoc(t[..|t| - 1], t[|t| - 1]);
  }

  lemma ScanEmpty()
    ensures Closed([]) == [] && Pending([]) == []
  {
    assert Split([]) == [[]];
  }

  /** The back-patch: the pending label's length goes into its slot. */
  lemma PatchSlot(was: seq<byte>, slot: nat, j: nat, count: byte)
    requires slot < j <= |was|
    ensures was[slot := count][..j] == was[..slot] + [count] + was[slot + 1..j]
  {
  }

  lemma AppendByte(was: seq<byte>, from: nat, j: nat, c: byte)
    requires from <= j < |was|
    ensures was[j := c][from..j + 1] == was[from..j] + [c]
    ensures forall k :: 0 <= k <= j ==> was[j := c][..k] == was[..k]
  {
  }

  /** What the array holds after scanning `d`: the closed labels, a free slot, the pending label. */
  ghost predicate Scanned(q: seq<byte>, d: seq<byte>, slot: nat, count: nat, j: nat) {
    && |d| <= MAX_DOMAIN && |q| == MAX_QUERY_LENGTH
    && slot == |Closed(d)| && count == |Pending(d)| && j == slot + 1 + count == |d| + 1
    && q[..slot] == Closed(d) && q[slot + 1..j] == Pending(d)
  }

  lemma ScannedLabelByte(q: seq<byte>, d: seq<byte>, slot: nat, count: nat, j: nat, c: byte)
    requires Scanned(q, d, slot, count, j) && |d| < MAX_DOMAIN && c != DOT
    ensures Scanned(q[j := c], d + [c], slot, count + 1, j + 1)
  {
    hide Closed, Pending;
    ScanStep(d, c);
    AppendByte(q, slot + 1, j, c);
  }

  lemma ScannedDot(q: seq<byte>, d: seq<byte>, slot: nat, count: byte, j: nat)
    requires Scanned(q, d, slot, count, j) && |d| < MAX_DOMAIN
    ensures Scanned(q[slot := count], d + [DOT], j, 0, j + 1)
  {
    hide Closed, Pending;
    ScanStep(d, DOT);
    PatchSlot(q, slot, j, count);
  }

  lemma ScannedEnd(q: seq<byte>, d: seq<byte>, slot: nat, count: byte, j: nat, before: byte)
    requires Scanned(q, d, slot, count, j)
    ensures LastByte(d, before) == DOT ==> q[slot := count][..j] == QName(d, before)
    ensures LastByte(d, before) != DOT ==> q[j := 0][slot := count][..j + 1] == QName(d, before)
  {
    hide Closed, Pending, QName;
    QNameFromScan(d, before);
    PatchSlot(q, slot, j, count);
    assert q[j := 0][slot := count][..j + 1] == q[slot := count][..j] + [0];
  }

  /** One pass over the name, writing label bytes and back-patching each label's length when it ends. */
  method BuildQuery(domain: seq<byte>, before: byte) returns (query: array<byte>, j: nat)
    requires |domain| <= MAX_DOMAIN
    ensures fresh(query) && query.Length == MAX_QUERY_LENGTH && j <= |domain| + 2
    ensures query[..j] == QName(domain, before)
  {
    hide Closed, Pending, QName, PrintLabels;
    query := new byte[MAX_QUERY_LENGTH](_ => 0);
    var slot := 0;
    var count: byte := 0;
    j := 1;
    var i := 0;
    ScanEmpty();
    assert domain[..0] == [] && query[..0] == [] && query[1..1] == [];
    while i < |domain|
      invariant 0 <= i <= |domain|
      invariant Scanned(query[..], domain[..i], slot, count, j)
    {
      ghost var q, d := query[..], domain[..i];
      assert domain[..i + 1] == d + [domain[i]];
      if domain[i] != DOT {
        ScannedLabelByte(q, d, slot, count, j, domain[i]);
        count := count + 1;
        query[j] := domain[i];
        j := j + 1;
      } else {
        ScannedDot(q, d, slot, count, j);
        query[slot] := count;
        count := 0;
        slot := j;
        j := j + 1;
      }
      i := i + 1;
    }
    assert domain[..|domain|] == domain;
    ScannedEnd(query[..], domain, slot, count, j, before);
    if LastByte(domain, before) != DOT {
      query[j] := 0;
      j := j + 1;
    }
    query[slot] := count;
    query[j] := 0;
  }

  // ---- the round trip through the response parser -----------------------------------------

  /** The labels of a name, the empty piece after a trailing dot not counted. */
  function Labels(d: seq<byte>): seq<seq<byte>>
    requires d != []
  {
    if d[|d| - 1] == DOT then Split(d)[..|Split(d)| - 1] else Split(d)
  }

  predicate NoEmptyLabel(ls: seq<seq<byte>>) { forall k :: 0 <= k < |ls| ==> ls[k] != [] }

  lemma TrailingDot(d: seq<byte>)
    requires d != [] && d[|d| - 1] == DOT
    ensures |Split(d)| >= 2 && Split(d)[|Split(d)| - 1] == []
  {
    assert d == d[..|d| - 1] + [DOT];
    SplitSnoc(d[..|d| - 1], DOT);
  }

  /** With or without the trailing dot, the encoding is the labels and one zero. */
  lemma QNameIsLabels(d: seq<byte>, before: byte)
    requires d != [] && |d| <= MAX_DOMAIN
    ensures forall k :: 0 <= k < |Labels(d)| ==> |Labels(d)[k]| <= 255
    ensures QName(d, before) == PrintLabels(Labels(d)) + [0]
  {
    if d[|d| - 1] == DOT {
      TrailingDot(d);
      var t := Split(d);
      assert t == t[..|t| - 1] + [[]];
      PrintLabelsSnoc(t[..|t| - 1], []);
      assert PrintLabel([]) == [0];
      assert QName(d, before) == PrintLabels(t);
    }
  }

  /** The dotted form the parser stores. */
  function WithDot(d: seq<byte>): seq<byte> { if d != [] && d[|d| - 1] == DOT then d else d + [DOT] }

  lemma {:induction false} ExpandSplit(d: seq<byte>)
    ensures Expand(Split(d)) == d + [DOT]
    decreases |d|
  {
    if d == [] {
      var e: seq<seq<byte>> := [[]];
      assert e[1..] == [];
      assert Expand([[]]) == [] + [DOT] + Expand([]);
    } else {
      ExpandSplit(d[1..]);
      var t := Split(d[1..]);
      if d[0] == DOT {
        assert ([[]] + t)[1..] == t;
        assert Expand([[]] + t) == [] + [DOT] + Expand(t);
      } else {
        var s := [[d[0]] + t[0]] + t[1..];
        assert s[1..] == t[1..];
        assert Expand(s) == [d[0]] + t[0] + [DOT] + Expand(t[1..]);
        assert Expand(s) == [d[0]] + Expand(t);
      }
    }
  }

  lemma {:induction false} ExpandSnoc(ls: seq<seq<byte>>, l: seq<byte>)
    ensures Expand(ls + [l]) == Expand(ls) + l + [DOT]
    decreases |ls|
  {
    if ls == [] {
      assert ls + [l] == [l] && [l][1..] == [];
    } else {
      assert (ls + [l])[1..] == ls[1..] + [l];
      ExpandSnoc(ls[1..], l);
    }
  }

  lemma ExpandLabels(d: seq<byte>)
    requires d != []
    ensures Expand(Labels(d)) == WithDot(d)
  {
    ExpandSplit(d);
    if d[|d| - 1] == DOT {
      TrailingDot(d);
      var t := Split(d);
      assert t == t[..|t| - 1] + [[]];
      ExpandSnoc(t[..|t| - 1], []);
      var e := Expand(Labels(d));
      assert e + [] + [DOT] == d + [DOT];
      assert (e + [] + [DOT])[..|e|] == e && (d + [DOT])[..|d|] == d;
    }
  }

  /** Beyond the first byte of QTYPE there is no way back to it. */
  predicate PastQuestionName(p: Dns.Parser) {
    && !p.BeforeCount() && p.state != Dns.HeaderNs && p.state != Dns.HeaderAr
    && p.state != Dns.QLength && p.state != Dns.QLabel && !(p.state == Dns.QType && p.i == 0)
  }

  lemma PastStaysPast(p: Dns.Parser, c: byte)
    requires p.Valid() && PastQuestionName(p)
    ensures PastQuestionName(Dns.Feed(p, c, true))
  {
    hide Dns.FeedHeader, Dns.FeedQuestion, Dns.FeedName, Dns.FeedFixed, Dns.FeedRdata, Dns.Parser.Valid;
    if p.BeforeAnswers() {
      QuestionStaysPast(p, c);
    } else if p.InAnswers() {
      AnswersStayPast(p, c);
    }
  }

  lemma QuestionStaysPast(p: Dns.Parser, c: byte)
    requires p.Valid() && PastQuestionName(p) && p.BeforeAnswers()
    ensures PastQuestionName(Dns.FeedQuestion(p, c))
  {
    hide Dns.Parser.Contents, Dns.LabelByte;
  }

  lemma AnswersStayPast(p: Dns.Parser, c: byte)
    requires p.Valid() && p.InAnswers()
    ensures p.InName() ==> PastQuestionName(Dns.FeedName(p, c))
    ensures p.InFixed() ==> PastQuestionName(Dns.FeedFixed(p, c))
    ensures p.InRdata() ==> PastQuestionName(Dns.FeedRdata(p, c))
  {
    hide Dns.Parser.Contents, Dns.SetCur, Dns.PutName, Dns.FinishIpv4, Decimal;
    Dns.CurOk(p);
  }

  lemma {:induction false} PastForever(p: Dns.Parser, s: seq<byte>)
    requires p.Valid() && PastQuestionName(p)
    ensures PastQuestionName(Dns.FeedAll(p, s, true))
    decreases |s|
  {
    hide Dns.Feed, PastQuestionName;
    if s != [] {
      PastStaysPast(p, s[0]);
      Dns.FeedKeepsValid(p, s[0], true);
      PastForever(Dns.Feed(p, s[0], true), s[1..]);
    }
  }

  lemma StepQType(p: Dns.Parser, c: byte)
    requires p.Valid() && p.state == Dns.QType && p.i == 0
    ensures PastQuestionName(Dns.Feed(p, c, true))
  {
  }

  /** An empty label reads as the end of the name, and the rest of the name as what follows it. */
  lemma {:induction false} EmptyLabelEndsEarly(p: Dns.Parser, ls: seq<seq<byte>>)
    requires p.Valid() && p.state == Dns.QLength && p.qnameSize + |Expand(ls)| <= 255
    requires (forall k :: 0 <= k < |ls| ==> |ls[k]| <= 255) && !NoEmptyLabel(ls)
    ensures PastQuestionName(Dns.FeedAll(p, PrintLabels(ls) + [0], true))
    decreases |ls|
  {
    hide Dns.Feed, Dns.FeedAll, PastQuestionName;
    var rest := PrintLabels(ls[1..]) + [0];
    assert PrintLabels(ls) + [0] == PrintLabel(ls[0]) + rest;
    Dns.FeedAllConcat(p, PrintLabel(ls[0]), rest, true);
    if ls[0] == [] {
      assert PrintLabel(ls[0]) == [0];
      Dns.FeedAllOne(p, 0, true);
      StepQLength(p, 0);
      var q := Dns.Feed(p, 0, true);
      StepQType(q, rest[0]);
      assert rest == [rest[0]] + rest[1..];
      Dns.FeedAllConcat(q, [rest[0]], rest[1..], true);
      Dns.FeedAllOne(q, rest[0], true);
      PastForever(Dns.Feed(q, rest[0], true), rest[1..]);
    } else {
      QOneLabel(p, ls[0]);
      EmptyLabelEndsEarly(Dns.FeedAll(p, PrintLabel(ls[0]), true), ls[1..]);
    }
  }

  /** For every non-empty name the parser stores, feeding the encoding to the question states stores the
      name with exactly one trailing dot and stops in front of QTYPE if, and only if, no label is empty. */
  lemma QNameRoundTrip(p: Dns.Parser, d: seq<byte>, before: byte)
    requires p.Valid() && p.state == Dns.QLength && p.qnameSize == 0
    requires d != [] && |d| <= MAX_DOMAIN
    ensures var q := Dns.FeedAll(p, QName(d, before), true);
            && (q.state == Dns.QType && q.i == 0 <==> NoEmptyLabel(Labels(d)))
            && (NoEmptyLabel(Labels(d)) ==> |q.qname| == 256 && q.qname[..q.qnameSize] == WithDot(d))
  {
    hide Dns.Feed, Dns.FeedAll, Put;
    QNameIsLabels(d, before);
    ExpandLabels(d);
    if NoEmptyLabel(Labels(d)) {
      QNameParsed(p, Labels(d));
      PutPrefix(p.qname, WithDot(d));
    } else {
      EmptyLabelEndsEarly(p, Labels(d));
    }
  }

  lemma PutPrefix(a: seq<byte>, t: seq<byte>)
    requires |t| <= |a|
    ensures Put(a, 0, t)[..|t|] == t
  {
  }

  // ---- the request -----------------------------------------------------------------------------

  /** The bytes of a literal. */
  function Ascii(s: string): (b: seq<byte>)
    ensures |b| == |s|
  {
    seq(|s|, k requires 0 <= k < |s| => if s[k] as int < 256 then s[k] as int else 63)
  }

  /** Recursion desired, one question. */
  const DNS_HEADER: seq<byte> := [0, 0, 1, 0, 0, 1, 0, 0, 0, 0, 0, 0]

  function Body(d: seq<byte>, before: byte, queryType: byte): seq<byte>
    requires |d| <= MAX_DOMAIN
  {
    DNS_HEADER + QName(d, before) + [0, queryType] + [0, 1]
  }

  /** `content_length` is eight bits wide. */
  function ContentLength(d: seq<byte>, before: byte): byte
    requires |d| <= MAX_DOMAIN
  {
    (|DNS_HEADER| + |QName(d, before)| + 4) % 256
  }

  function Head(path: seq<byte>, host: seq<byte>, length: byte): seq<byte> {
    Ascii("POST ") + path + Ascii(" HTTP/1.0\r\n")
    + (Ascii("Host: ") + host + Ascii("\r\n"))
    + Ascii("accept: application/dns-message\r\n")
    + Ascii("content-type: application/dns-message\r\n")
    + (Ascii("content-length: ") + Decimal(length) + Ascii("\r\n")) + Ascii("\r\n")
  }

  function Request(path: seq<byte>, host: seq<byte>, d: seq<byte>, before: byte, queryType: byte): seq<byte>
    requires |d| <= MAX_DOMAIN
  {
    Head(path, host, ContentLength(d, before)) + Body(d, before, queryType)
  }

  lemma LabelsShort(d: seq<byte>)
    requires d != [] && |d| <= MAX_DOMAIN
    ensures forall k :: 0 <= k < |Labels(d)| ==> |Labels(d)[k]| <= 255
  {
    hide QName, PrintLabels, Labels;
    QNameIsLabels(d, 0);
  }

  /** A question about a domain as a message: identifier 0, recursion desired, one question and nothing else. */
  function Question(d: seq<byte>, queryType: byte): seq<byte>
    requires d != [] && |d| <= MAX_DOMAIN
  {
    LabelsShort(d);
    U16(0) + PrintFlags(Dns.Flags(0, 0, 0, 0, 1, 0, 0, 0)) + U16(1) + U16(0) + U16(0) + U16(0)
    + PrintLabels(Labels(d)) + [0] + U16(queryType) + U16(1)
  }

  /** The body of the request is that message. */
  lemma BodyPrinted(d: seq<byte>, before: byte, queryType: byte)
    requires d != [] && |d| <= MAX_DOMAIN
    ensures Body(d, before, queryType) == Question(d, queryType)
  {
    hide QName, PrintLabels, Labels, U16, PrintFlags;
    LabelsShort(d);
    QNameIsLabels(d, before);
    HeaderText();
    TypeText(queryType);
    var h, q, t := DNS_HEADER, PrintLabels(Labels(d)), [0, queryType];
    assert h + (q + [0]) + t + [0, 1] == h + q + [0] + t + [0, 1];
  }

  lemma HeaderText()
    ensures DNS_HEADER == U16(0) + PrintFlags(Dns.Flags(0, 0, 0, 0, 1, 0, 0, 0)) + U16(1) + U16(0) + U16(0) + U16(0)
  {
    hide U16, PrintFlags;
    TypeText(0);
    FlagsText();
  }

  lemma FlagsText()
    ensures PrintFlags(Dns.Flags(0, 0, 0, 0, 1, 0, 0, 0)) == [1, 0]
  {
    hide U16;
  }

  lemma TypeText(t: byte)
    ensures U16(t) == [0, t] && U16(1) == [0, 1]
  {
  }

  /** The header fields of the request. */
  function Fields(host: seq<byte>, length: byte): seq<Headers.Field> {
    [Headers.Field(Ascii("Host"), [SP] + host),
     Headers.Field(Ascii("accept"), Ascii(" application/dns-message")),
     Headers.Field(Ascii("content-type"), Ascii(" application/dns-message")),
     Headers.Field(Ascii("content-length"), [SP] + Decimal(length))]
  }

  /** The request as an HTTP message: a POST of the path in version 1.0, its header section, and the query. */
  lemma RequestPrinted(path: seq<byte>, host: seq<byte>, d: seq<byte>, before: byte, queryType: byte)
    requires |d| <= MAX_DOMAIN
    ensures Request(path, host, d, before, queryType)
         == Ascii("POST ") + path + Ascii(" HTTP/1.0\r\n") + Headers.Print(Fields(host, ContentLength(d, before))) + Body(d, before, queryType)
  {
    hide Body, ContentLength, Decimal;
    HeadPrinted(path, host, ContentLength(d, before));
  }

  lemma HeadPrinted(path: seq<byte>, host: seq<byte>, length: byte)
    ensures Head(path, host, length) == Ascii("POST ") + path + Ascii(" HTTP/1.0\r\n") + Headers.Print(Fields(host, length))
  {
    hide Decimal, Ascii, Headers.Print, Headers.PrintField, Fields;
    var fs := Fields(host, length);
    FieldTexts(host, length);
    var a, b, e, f := Headers.PrintField(fs[0]), Headers.PrintField(fs[1]), Headers.PrintField(fs[2]), Headers.PrintField(fs[3]);
    FourFields(fs);
    var p := Ascii("POST ") + path + Ascii(" HTTP/1.0\r\n");
    assert p + a + b + e + f + [CR, LF] == p + (a + b + e + f + [CR, LF]);
  }

  lemma {:induction false} AsciiConcat(s: string, t: string)
    ensures Ascii(s + t) == Ascii(s) + Ascii(t)
  {
  }

  lemma FieldTexts(host: seq<byte>, length: byte)
    ensures |Fields(host, length)| == 4
    ensures var fs := Fields(host, length);
            && Headers.PrintField(fs[0]) == Ascii("Host: ") + host + Ascii("\r\n")
            && Headers.PrintField(fs[1]) == Ascii("accept: application/dns-message\r\n")
            && Headers.PrintField(fs[2]) == Ascii("content-type: application/dns-message\r\n")
            && Headers.PrintField(fs[3]) == Ascii("content-length: ") + Decimal(length) + Ascii("\r\n")
            && Ascii("\r\n") == [CR, LF]
  {
    hide Decimal, Ascii;
    Marks();
    AsciiConcat("Host", ": ");
    AsciiConcat("content-length", ": ");
    FieldText("accept", " application/dns-message");
    FieldText("content-type", " application/dns-message");
    ShortLiterals();
    AcceptLiteral();
    TypeLiteral();
    SpacedValue(Ascii("Host"), host);
    SpacedValue(Ascii("content-length"), Decimal(length));
  }

  lemma ShortLiterals()
    ensures "Host" + ": " == "Host: " && "content-length" + ": " == "content-length: "
  {
  }

  lemma AcceptLiteral()
    ensures "accept" + ":" + " application/dns-message" + "\r\n" == "accept: application/dns-message\r\n"
  {
    assert " application/dns-message" + "\r\n" == " application/dns-message\r\n";
    assert "accept" + ":" == "accept:";
  }

  lemma TypeLiteral()
    ensures "content-type" + ":" + " application/dns-message" + "\r\n" == "content-type: application/dns-message\r\n"
  {
    assert " application/dns-message" + "\r\n" == " application/dns-message\r\n";
    assert "content-type" + ":" == "content-type:";
  }

  lemma SpacedValue(name: seq<byte>, value: seq<byte>)
    ensures Headers.PrintField(Headers.Field(name, [SP] + value)) == name + [COLON, SP] + value + [CR, LF]
  {
    assert [COLON] + ([SP] + value) == [COLON, SP] + value;
  }

  lemma Marks()
    ensures Ascii(":") == [COLON] && Ascii(": ") == [COLON, SP] && Ascii("\r\n") == [CR, LF]
  {
  }

  lemma FieldText(name: string, value: string)
    ensures Headers.PrintField(Headers.Field(Ascii(name), Ascii(value))) == Ascii(name + ":" + value + "\r\n")
  {
    hide Ascii;
    Marks();
    AsciiConcat(name, ":");
    AsciiConcat(name + ":", value);
    AsciiConcat(name + ":" + value, "\r\n");
  }

  lemma FourFields(fs: seq<Headers.Field>)
    requires |fs| == 4
    ensures Headers.Print(fs) == Headers.PrintField(fs[0]) + Headers.PrintField(fs[1]) + Headers.PrintField(fs[2]) + Headers.PrintField(fs[3]) + [CR, LF]
  {
    hide Headers.PrintField;
    var t1, t2, t3 := fs[1..], fs[2..], fs[3..];
    assert t1[0] == fs[1] && t1[1..] == t2 && t2[0] == fs[2] && t2[1..] == t3 && t3[0] == fs[3] && t3[1..] == [];
    assert Headers.PrintFields(t3) == Headers.PrintField(fs[3]) + [];
    assert Headers.PrintFields(t2) == Headers.PrintField(fs[2]) + Headers.PrintFields(t3);
    assert Headers.PrintFields(t1) == Headers.PrintField(fs[1]) + Headers.PrintFields(t2);
  }

  lemma QNameLength(d: seq<byte>, before: byte)
    requires |d| <= MAX_DOMAIN
    ensures |QName(d, before)| == |d| + if LastByte(d, before) != DOT then 2 else 1
  {
    QNameFromScan(d, before);
    ScanLength(d);
  }

  /** The declared length is the body's length exactly up to 237 bytes of name (238 with a trailing dot). */
  lemma DeclaredLength(d: seq<byte>, before: byte, queryType: byte)
    requires |d| <= MAX_DOMAIN
    ensures ContentLength(d, before) == |Body(d, before, queryType)| <==>
            |d| <= if LastByte(d, before) != DOT then 237 else 238
  {
    QNameLength(d, before);
  }

  /** The whole request fits the origin buffer whenever path and host leave it room. */
  lemma RequestLength(path: seq<byte>, host: seq<byte>, d: seq<byte>, before: byte, queryType: byte)
    requires |d| <= MAX_DOMAIN
    ensures 0 < |Request(path, host, d, before, queryType)| <= |path| + |host| + 500
  {
    QNameLength(d, before);
  }
}
