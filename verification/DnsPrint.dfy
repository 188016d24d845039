/** DNS responses as bytes (section 4.1 of RFC 1035) and what the parser makes of them. */
module DnsPrint {
  import opened Bytes
  import opened Dns
  import Inet

  // ---- messages ------------------------------------------------------------------------

  datatype Tail = Root | Pointer(offset: nat)

  /** Labels ended by the root, by a pointer, or (with no labels) a bare pointer. */
  datatype Name = Name(labels: seq<seq<byte>>, tail: Tail)

  datatype Rdata = A(ip4: seq<byte>) | Aaaa(ip6: seq<byte>) | Cname(name: Name)

  datatype Record = Record(name: Name, rrClass: u16, ttl: nat, rdLength: u16, data: Rdata)

  datatype Message = Message(id: u16, flags: Flags, qd: u16, ns: u16, ar: u16,
                             question: seq<seq<byte>>, qtype: u16, qclass: u16, answers: seq<Record>)

  predicate LabelOk(l: seq<byte>) { 1 <= |l| <= 191 }

  predicate NameOk(n: Name) {
    && (forall k :: 0 <= k < |n.labels| ==> LabelOk(n.labels[k]))
    && (n.tail.Pointer? ==> n.tail.offset < 0x4000)
  }

  predicate RecordOk(r: Record) {
    && NameOk(r.name) && |Expand(r.name.labels)| <= 255
    && r.ttl < 0x1_0000_0000
    && match r.data
       case A(ip) => |ip| == 4
       case Aaaa(ip) => |ip| == 16
       case Cname(name) => NameOk(name)
  }

  predicate FlagsOk(f: Flags) {
    f.qr < 2 && f.opcode < 16 && f.aa < 2 && f.tc < 2 && f.rd < 2 && f.ra < 2 && f.z < 8 && f.rcode < 16
  }

  predicate QuestionOk(labels: seq<seq<byte>>) {
    && (forall k :: 0 <= k < |labels| ==> 1 <= |labels[k]| <= 255)
    && |Expand(labels)| <= 255
  }

  predicate MessageOk(m: Message) {
    && FlagsOk(m.flags) && QuestionOk(m.question)
    && 1 <= |m.answers| < 0x1_0000 && forall k :: 0 <= k < |m.answers| ==> RecordOk(m.answers[k])
  }

  /** The name as the parser stores it: every label followed by a dot. */
  function Expand(labels: seq<seq<byte>>): seq<byte> {
    if labels == [] then [] else labels[0] + [DOT] + Expand(labels[1..])
  }

  // ---- printing ------------------------------------------------------------------------

  function U16(x: u16): seq<byte> { [x / 256, x % 256] }

  function U32(x: nat): seq<byte>
    requires x < 0x1_0000_0000
  {
    [x / 0x100_0000, x / 0x1_0000 % 256, x / 0x100 % 256, x % 256]
  }

  function PrintFlags(f: Flags): (s: seq<byte>)
    requires FlagsOk(f)
    ensures |s| == 2
  {
    [f.qr * 128 + f.opcode * 8 + f.aa * 4 + f.tc * 2 + f.rd, f.ra * 128 + f.z * 16 + f.rcode]
  }

  function PrintLabel(l: seq<byte>): seq<byte>
    requires |l| <= 255
  {
    [|l|] + l
  }

  function PrintLabels(labels: seq<seq<byte>>): seq<byte>
    requires forall k :: 0 <= k < |labels| ==> |labels[k]| <= 255
  {
    if labels == [] then [] else PrintLabel(labels[0]) + PrintLabels(labels[1..])
  }

  function PrintTail(t: Tail): seq<byte>
    requires t.Pointer? ==> t.offset < 0x4000
  {
    match t
    case Root => [0]
    case Pointer(off) => [192 + off / 256, off % 256]
  }

  function PrintName(n: Name): seq<byte>
    requires NameOk(n)
  {
    PrintLabels(n.labels) + PrintTail(n.tail)
  }

  function Kind(d: Rdata): u16 {
    match d
    case A(_) => IPV4_TYPE
    case Aaaa(_) => IPV6_TYPE
    case Cname(_) => CNAME_TYPE
  }

  function PrintFixed(r: Record): seq<byte>
    requires RecordOk(r)
  {
    U16(Kind(r.data)) + U16(r.rrClass) + U32(r.ttl) + U16(r.rdLength)
  }

  function PrintRdata(d: Rdata): seq<byte>
    requires d.Cname? ==> NameOk(d.name)
  {
    match d
    case A(ip) => ip
    case Aaaa(ip) => ip
    case Cname(name) => PrintName(name)
  }

  function PrintRecord(r: Record): seq<byte>
    requires RecordOk(r)
  {
    PrintName(r.name) + PrintFixed(r) + PrintRdata(r.data)
  }

  function PrintRecords(rs: seq<Record>): seq<byte>
    requires forall k :: 0 <= k < |rs| ==> RecordOk(rs[k])
  {
    if rs == [] then [] else PrintRecord(rs[0]) + PrintRecords(rs[1..])
  }

  function PrintHeader(m: Message): seq<byte>
    requires MessageOk(m)
  {
    U16(m.id) + PrintFlags(m.flags) + U16(m.qd) + U16(|m.answers|) + U16(m.ns) + U16(m.ar)
  }

  function PrintQuestion(m: Message): seq<byte>
    requires MessageOk(m)
  {
    PrintLabels(m.question) + [0] + U16(m.qtype) + U16(m.qclass)
  }

  function Print(m: Message): seq<byte>
    requires MessageOk(m)
  {
    PrintHeader(m) + PrintQuestion(m) + PrintRecords(m.answers)
  }

  // ---- header ----------------------------------------------------------------------------

  lemma U16Value(x: u16)
    ensures AddLow(High(x / 256), x % 256) == x
  {
  }

  lemma IdParsed(p: Parser, x: u16)
    requires p.Valid() && p.state == HeaderId && p.i == 0
    ensures FeedAll(p, U16(x), true) == p.(n := 2, id := x, state := HeaderFlags)
  {
    hide FeedAll, FeedQuestion, FeedName, FeedFixed, FeedRdata, FeedCount, Parser.Valid;
    FeedAllTwo(p, x / 256, x % 256, true);
    U16Value(x);
  }

  lemma HighBits(qr: nat, opcode: nat, aa: nat, tc: nat, rd: nat)
    requires qr < 2 && opcode < 16 && aa < 2 && tc < 2 && rd < 2
    ensures var c := qr * 128 + opcode * 8 + aa * 4 + tc * 2 + rd;
            c / 128 == qr && c / 8 % 16 == opcode && c / 4 % 2 == aa && c / 2 % 2 == tc && c % 2 == rd
  {
    var c := qr * 128 + opcode * 8 + aa * 4 + tc * 2 + rd;
    assert c / 8 == qr * 16 + opcode;
    assert c / 4 == qr * 32 + opcode * 2 + aa;
    assert c / 2 == qr * 64 + opcode * 4 + aa * 2 + tc;
  }

  lemma LowBits(ra: nat, z: nat, rcode: nat)
    requires ra < 2 && z < 8 && rcode < 16
    ensures var d := ra * 128 + z * 16 + rcode; d / 128 == ra && d / 16 % 8 == z && d % 16 == rcode
  {
    assert (ra * 128 + z * 16 + rcode) / 16 == ra * 8 + z;
  }

  lemma FlagBits(g: Flags, f: Flags)
    requires FlagsOk(f)
    ensures FlagsLow(FlagsHigh(g, PrintFlags(f)[0]), PrintFlags(f)[1]) == f
  {
    hide FlagsHigh, FlagsLow;
    HighBits(f.qr, f.opcode, f.aa, f.tc, f.rd);
    LowBits(f.ra, f.z, f.rcode);
    FlagsFrom(g, f, PrintFlags(f)[0], PrintFlags(f)[1]);
  }

  lemma FlagsFrom(g: Flags, f: Flags, c: byte, d: byte)
    requires c / 128 == f.qr && c / 8 % 16 == f.opcode && c / 4 % 2 == f.aa && c / 2 % 2 == f.tc && c % 2 == f.rd
    requires d / 128 == f.ra && d / 16 % 8 == f.z && d % 16 == f.rcode
    ensures FlagsLow(FlagsHigh(g, c), d) == f
  {
  }

  lemma FlagsParsed(p: Parser, f: Flags)
    requires p.Valid() && p.state == HeaderFlags && p.i == 0 && FlagsOk(f)
    ensures FeedAll(p, PrintFlags(f), true) == p.(n := 2, flags := f, state := HeaderQd)
  {
    hide FeedAll, FeedQuestion, FeedName, FeedFixed, FeedRdata, FeedCount, Parser.Valid, FlagsHigh, FlagsLow, PrintFlags;
    FlagBits(p.flags, f);
    FlagsTwoBytes(f);
    FeedAllTwo(p, PrintFlags(f)[0], PrintFlags(f)[1], true);
  }

  lemma FlagsTwoBytes(f: Flags)
    requires FlagsOk(f)
    ensures |PrintFlags(f)| == 2 && PrintFlags(f) == [PrintFlags(f)[0], PrintFlags(f)[1]]
  {
  }

  lemma QdParsed(p: Parser, x: u16)
    requires p.Valid() && p.state == HeaderQd && p.i == 0
    ensures FeedAll(p, U16(x), true) == p.(n := 2, qd := x, state := HeaderAn)
  {
    hide FeedAll, FeedQuestion, FeedName, FeedFixed, FeedRdata, FeedCount, Parser.Valid;
    FeedAllTwo(p, x / 256, x % 256, true);
    U16Value(x);
  }

  lemma AnParsed(p: Parser, x: u16)
    requires p.Valid() && p.state == HeaderAn && p.i == 0 && x > 0
    ensures FeedAll(p, U16(x), true) == p.(n := 2, an := x, answers := Some(Blanks(x)), state := HeaderNs)
  {
    hide FeedAll, FeedQuestion, FeedName, FeedFixed, FeedRdata, Blanks, Parser.Valid;
    FeedAllTwo(p, x / 256, x % 256, true);
    U16Value(x);
  }

  lemma NsParsed(p: Parser, x: u16)
    requires p.Valid() && p.state == HeaderNs && p.i == 0
    ensures FeedAll(p, U16(x), true) == p.(n := 2, ns := x, state := HeaderAr)
  {
    hide FeedAll, FeedHeader, FeedName, FeedFixed, FeedRdata, Parser.Valid;
    FeedAllTwo(p, x / 256, x % 256, true);
    U16Value(x);
  }

  lemma ArParsed(p: Parser, x: u16)
    requires p.Valid() && p.state == HeaderAr && p.i == 0
    ensures FeedAll(p, U16(x), true) == p.(i := 1, ar := x, state := QLength)
  {
    hide FeedAll, FeedHeader, FeedName, FeedFixed, FeedRdata, Parser.Valid;
    FeedAllTwo(p, x / 256, x % 256, true);
    U16Value(x);
  }

  function AfterHeader(m: Message): Parser
    requires MessageOk(m)
  {
    Init().(state := QLength, i := 1, n := 2, id := m.id, flags := m.flags, qd := m.qd, an := |m.answers|,
            ns := m.ns, ar := m.ar, answers := Some(Blanks(|m.answers|)))
  }

  lemma HeaderParsed(m: Message)
    requires MessageOk(m)
    ensures AfterHeader(m).Valid()
    ensures FeedAll(Init(), PrintHeader(m), true) == AfterHeader(m)
  {
    hide Feed, FeedAll, Parser.Valid, Blanks, Zeros;
    var p := Init();
    var h1, h2 := U16(m.id), U16(m.id) + PrintFlags(m.flags);
    var h3 := h2 + U16(m.qd);
    var h4 := h3 + U16(|m.answers|);
    var h5 := h4 + U16(m.ns);
    IdParsed(p, m.id);
    FeedAllConcat(p, h1, PrintFlags(m.flags), true);
    FlagsParsed(FeedAll(p, h1, true), m.flags);
    FeedAllConcat(p, h2, U16(m.qd), true);
    QdParsed(FeedAll(p, h2, true), m.qd);
    FeedAllConcat(p, h3, U16(|m.answers|), true);
    AnParsed(FeedAll(p, h3, true), |m.answers|);
    FeedAllConcat(p, h4, U16(m.ns), true);
    NsParsed(FeedAll(p, h4, true), m.ns);
    FeedAllConcat(p, h5, U16(m.ar), true);
    ArParsed(FeedAll(p, h5, true), m.ar);
  }

  // ---- writing text into an array ----------------------------------------------------------

  /** `t` written over `a` from position `k`. */
  function Put(a: seq<byte>, k: nat, t: seq<byte>): (r: seq<byte>)
    requires k + |t| <= |a|
    ensures |r| == |a|
  {
    a[..k] + t + a[k + |t|..]
  }

  lemma PutCons(a: seq<byte>, k: nat, c: byte, t: seq<byte>)
    requires k + 1 + |t| <= |a|
    ensures Put(a[k := c], k + 1, t) == Put(a, k, [c] + t)
  {
  }

  lemma PutPut(a: seq<byte>, k: nat, s: seq<byte>, t: seq<byte>)
    requires k + |s| + |t| <= |a|
    ensures Put(Put(a, k, s), k + |s|, t) == Put(a, k, s + t)
  {
  }

  // ---- the question --------------------------------------------------------------------------

  lemma StepQLabel(p: Parser, c: byte)
    requires p.Valid() && p.state == QLabel && p.qnameSize < 254
    ensures p.i + 1 < p.n ==>
              Feed(p, c, true) == p.(i := p.i + 1, qname := p.qname[p.qnameSize := c], qnameSize := p.qnameSize + 1)
    ensures p.i + 1 == p.n ==>
              Feed(p, c, true) == p.(i := p.i + 1, qname := p.qname[p.qnameSize := c][p.qnameSize + 1 := DOT],
                                     qnameSize := p.qnameSize + 2, state := QLength)
  {
    hide FeedHeader, FeedName, FeedFixed, FeedRdata;
  }

  lemma {:induction false} QLabelParsed(p: Parser, l: seq<byte>)
    requires p.Valid() && p.state == QLabel && l != [] && p.n == p.i + |l| && p.qnameSize + |l| + 1 <= 255
    ensures FeedAll(p, l, true)
         == p.(i := p.n, qname := Put(p.qname, p.qnameSize, l + [DOT]), qnameSize := p.qnameSize + |l| + 1, state := QLength)
    decreases |l|
  {
    hide Feed, Put, Parser.Valid;
    QLabelRoom(p);
    FeedKeepsValid(p, l[0], true);
    StepQLabel(p, l[0]);
    var q := Feed(p, l[0], true);
    assert [l[0]] + l[1..] == l;
    if |l| == 1 {
      assert l[1..] == [];
      PutTwo(p.qname, p.qnameSize, l[0], DOT);
      assert l + [DOT] == [l[0], DOT];
    } else {
      QLabelParsed(q, l[1..]);
      PutCons(p.qname, p.qnameSize, l[0], l[1..] + [DOT]);
      assert [l[0]] + (l[1..] + [DOT]) == l + [DOT];
    }
  }

  lemma QLabelRoom(p: Parser)
    requires p.Valid()
    ensures |p.qname| == 256
  {
  }

  lemma PutTwo(a: seq<byte>, k: nat, c: byte, d: byte)
    requires k + 2 <= |a|
    ensures a[k := c][k + 1 := d] == Put(a, k, [c, d])
  {
  }

  lemma StepQLength(p: Parser, c: byte)
    requires p.Valid() && p.state == QLength
    ensures Feed(p, c, true) == if c == 0 then p.(i := 0, n := 2, state := QType) else p.(i := 0, n := c, state := QLabel)
  {
    hide FeedHeader, FeedName, FeedFixed, FeedRdata;
  }

  /** The labels and the closing zero, stored with a dot after each label. */
  lemma {:induction false} QNameParsed(p: Parser, labels: seq<seq<byte>>)
    requires p.Valid() && p.state == QLength && p.qnameSize + |Expand(labels)| <= 255
    requires forall k :: 0 <= k < |labels| ==> 1 <= |labels[k]| <= 255
    ensures |p.qname| == 256
    ensures FeedAll(p, PrintLabels(labels) + [0], true)
         == p.(i := 0, n := 2, qname := Put(p.qname, p.qnameSize, Expand(labels)),
               qnameSize := p.qnameSize + |Expand(labels)|, state := QType)
    decreases |labels|
  {
    hide Feed, FeedAll, Parser.Valid, Put;
    QLabelRoom(p);
    if labels == [] {
      assert PrintLabels(labels) + [0] == [0];
      FeedAllOne(p, 0, true);
      StepQLength(p, 0);
      PutNothing(p.qname, p.qnameSize);
    } else {
      var l, rest := labels[0], PrintLabels(labels[1..]) + [0];
      assert PrintLabels(labels) + [0] == PrintLabel(l) + rest;
      QOneLabel(p, l);
      var q := FeedAll(p, PrintLabel(l), true);
      FeedAllConcat(p, PrintLabel(l), rest, true);
      QNameParsed(q, labels[1..]);
      PutPut(p.qname, p.qnameSize, l + [DOT], Expand(labels[1..]));
    }
  }

  lemma PutNothing(a: seq<byte>, k: nat)
    requires k <= |a|
    ensures Put(a, k, []) == a
  {
  }

  lemma QOneLabel(p: Parser, l: seq<byte>)
    requires p.Valid() && p.state == QLength && 1 <= |l| <= 255 && p.qnameSize + |l| + 1 <= 255
    ensures |p.qname| == 256
    ensures FeedAll(p, PrintLabel(l), true)
         == p.(i := |l|, n := |l|, qname := Put(p.qname, p.qnameSize, l + [DOT]), qnameSize := p.qnameSize + |l| + 1)
  {
    hide Feed, FeedAll, Parser.Valid, Put;
    QLabelRoom(p);
    FeedAllConcat(p, [|l|], l, true);
    FeedAllOne(p, |l|, true);
    StepQLength(p, |l|);
    QLabelParsed(Feed(p, |l|, true), l);
  }

  lemma QTypeParsed(p: Parser, x: u16)
    requires p.Valid() && p.state == QType && p.i == 0
    ensures FeedAll(p, U16(x), true) == p.(n := 2, qtype := x, state := QClass)
  {
    hide FeedAll, FeedHeader, FeedName, FeedFixed, FeedRdata, Parser.Valid;
    FeedAllTwo(p, x / 256, x % 256, true);
    U16Value(x);
  }

  lemma QClassParsed(p: Parser, x: u16)
    requires p.Valid() && p.state == QClass && p.i == 0
    ensures FeedAll(p, U16(x), true) == p.(qclass := x, state := NameLength)
  {
    hide FeedAll, FeedHeader, FeedName, FeedFixed, FeedRdata, Parser.Valid;
    FeedAllTwo(p, x / 256, x % 256, true);
    U16Value(x);
  }

  function AfterQuestion(m: Message): Parser
    requires MessageOk(m)
  {
    AfterHeader(m).(state := NameLength, i := 0, n := 2, qname := Put(Zeros(256), 0, Expand(m.question)),
                    qnameSize := |Expand(m.question)|, qtype := m.qtype, qclass := m.qclass)
  }

  lemma QuestionParsed(m: Message)
    requires MessageOk(m)
    ensures AfterQuestion(m).Valid()
    ensures FeedAll(Init(), PrintHeader(m) + PrintQuestion(m), true) == AfterQuestion(m)
  {
    hide Feed, FeedAll, Parser.Valid, Put, Blanks;
    HeaderParsed(m);
    var p, q1 := AfterHeader(m), PrintLabels(m.question) + [0];
    var q2 := q1 + U16(m.qtype);
    FeedAllConcat(Init(), PrintHeader(m), PrintQuestion(m), true);
    QNameParsed(p, m.question);
    FeedAllConcat(p, q1, U16(m.qtype), true);
    QTypeParsed(FeedAll(p, q1, true), m.qtype);
    FeedAllConcat(p, q2, U16(m.qclass), true);
    QClassParsed(FeedAll(p, q2, true), m.qclass);
  }

  // ---- owner names ---------------------------------------------------------------------------

  lemma CurSetCur(p: Parser, a: Answer, b: Answer)
    requires p.answers.Some? && p.index < |p.answers.value|
    ensures Cur(SetCur(p, a)) == a && SetCur(SetCur(p, a), b) == SetCur(p, b)
    ensures SetCur(p, Cur(p)) == p
  {
    SetCurSame(p);
    assert p.answers.value[p.index := a][p.index := b] == p.answers.value[p.index := b];
  }

  function PutText(a: Answer, t: seq<byte>): Answer
    requires |a.name| == 256 && a.nameLength + |t| <= 255
  {
    a.(name := Put(a.name, a.nameLength, t), nameLength := a.nameLength + |t|)
  }

  lemma StepNameLabel(p: Parser, c: byte)
    requires p.Valid() && p.state == NameLabel && p.answers.Some? && p.index < |p.answers.value| && Cur(p).Ok()
    requires Cur(p).nameLength < 254
    ensures p.i + 1 < p.n ==> Feed(p, c, true) == SetCur(p, PutText(Cur(p), [c])).(i := p.i + 1)
    ensures p.i + 1 == p.n ==> Feed(p, c, true) == SetCur(p, PutText(Cur(p), [c, DOT])).(i := p.i + 1, state := NameLength)
  {
    hide FeedHeader, FeedQuestion, FeedFixed, FeedRdata, SetCur, Cur, Parser.Contents, PutName, PutText, FeedNameLength, FeedNamePointer;
    PutNameText(Cur(p), c);
  }

  lemma PutNameText(a: Answer, c: byte)
    requires a.Ok() && a.nameLength < 254
    ensures PutName(a, c).Ok()
    ensures PutName(a, c) == PutText(a, [c])
    ensures PutName(PutName(a, c), DOT) == PutText(a, [c, DOT])
  {
    PutTwo(a.name, a.nameLength, c, DOT);
    assert Put(a.name, a.nameLength, [c]) == a.name[a.nameLength := c];
  }

  lemma PutTextTwice(a: Answer, s: seq<byte>, t: seq<byte>)
    requires |a.name| == 256 && a.nameLength + |s| + |t| <= 255
    ensures PutText(PutText(a, s), t) == PutText(a, s + t)
  {
    PutPut(a.name, a.nameLength, s, t);
  }

  lemma {:induction false} NameLabelParsed(p: Parser, l: seq<byte>)
    requires p.Valid() && p.state == NameLabel && p.answers.Some? && p.index < |p.answers.value| && Cur(p).Ok()
    requires l != [] && p.n == p.i + |l| && Cur(p).nameLength + |l| + 1 <= 255
    ensures FeedAll(p, l, true) == SetCur(p, PutText(Cur(p), l + [DOT])).(i := p.n, state := NameLength)
    decreases |l|
  {
    hide Feed, Put, Parser.Valid, SetCur, Cur;
    FeedKeepsValid(p, l[0], true);
    StepNameLabel(p, l[0]);
    var q := Feed(p, l[0], true);
    assert [l[0]] + l[1..] == l;
    if |l| == 1 {
      assert l[1..] == [] && l + [DOT] == [l[0], DOT];
    } else {
      var a := PutText(Cur(p), [l[0]]);
      var b := PutText(a, l[1..] + [DOT]);
      StepNameFrame(p, a, q);
      NameLabelParsed(q, l[1..]);
      PutTextTwice(Cur(p), [l[0]], l[1..] + [DOT]);
      assert [l[0]] + (l[1..] + [DOT]) == l + [DOT];
      SetAgain(p, a, b, q, p.n, NameLength);
    }
  }

  /** What a rewrite of the current entry leaves alone. */
  lemma StepNameFrame(p: Parser, a: Answer, q: Parser)
    requires p.answers.Some? && p.index < |p.answers.value|
    requires q == SetCur(p, a).(state := q.state, i := q.i, n := q.n)
    ensures q.answers.Some? && q.index == p.index < |q.answers.value| && Cur(q) == a
  {
    CurSetCur(p, a, a);
  }

  lemma SetAgain(p: Parser, a: Answer, b: Answer, q: Parser, i: nat, st: State)
    requires p.answers.Some? && p.index < |p.answers.value|
    requires q == SetCur(p, a).(state := q.state, i := q.i, n := q.n)
    ensures q.answers.Some? && q.index < |q.answers.value|
    ensures SetCur(q, b).(i := i, state := st) == SetCur(p, b).(i := i, n := q.n, state := st)
  {
    CurSetCur(p, a, b);
  }

  lemma StepNameLength(p: Parser, c: byte)
    requires p.Valid() && p.state == NameLength
    ensures p.answers.Some? && p.index < |p.answers.value|
    ensures c == 0 ==> Feed(p, c, true) == p.(i := 0, n := 2, state := AnswerType)
    ensures 0 < c < 192 ==> Feed(p, c, true) == p.(i := 0, n := c, state := NameLabel)
    ensures c >= 192 ==>
              Feed(p, c, true) == SetCur(p, Cur(p).(offset := (c - 192) * 256)).(i := 1, n := 2, state := NamePointer)
  {
    hide FeedHeader, FeedQuestion, FeedFixed, FeedRdata, Parser.Contents, SetCur, Cur, FeedNamePointer, FeedNameLabel;
    assert c >= 192 ==> c / 64 == 3 && c % 64 == c - 192;
    assert c < 192 ==> c / 64 < 3;
  }

  lemma NameOneLabel(p: Parser, l: seq<byte>)
    requires p.Valid() && p.state == NameLength && p.answers.Some? && p.index < |p.answers.value| && Cur(p).Ok()
    requires LabelOk(l) && Cur(p).nameLength + |l| + 1 <= 255
    ensures FeedAll(p, PrintLabel(l), true) == SetCur(p, PutText(Cur(p), l + [DOT])).(i := |l|, n := |l|)
  {
    hide Feed, FeedAll, Parser.Valid, Put, SetCur;
    FeedAllConcat(p, [|l|], l, true);
    FeedAllOne(p, |l|, true);
    StepNameLength(p, |l|);
    var q := p.(i := 0, n := |l|, state := NameLabel);
    NameLabelParsed(q, l);
    SetCurFields(p, PutText(Cur(p), l + [DOT]), NameLabel, 0, |l|);
  }

  lemma SetCurFields(p: Parser, a: Answer, st: State, i: nat, n: nat)
    requires p.answers.Some? && p.index < |p.answers.value|
    ensures SetCur(p.(state := st, i := i, n := n), a) == SetCur(p, a).(state := st, i := i, n := n)
  {
  }

  /** The entry after its owner name has been read. */
  function NameRead(a: Answer, name: Name): Answer
    requires a.Ok() && a.nameLength + |Expand(name.labels)| <= 255
  {
    var b := PutText(a, Expand(name.labels));
    match name.tail
    case Root => b
    case Pointer(off) => StorePointer(b).(offset := off)
  }

  lemma TailParsed(p: Parser, t: Tail)
    requires p.Valid() && p.state == NameLength && p.answers.Some? && p.index < |p.answers.value| && Cur(p).Ok()
    requires t.Pointer? ==> t.offset < 0x4000
    ensures FeedAll(p, PrintTail(t), true)
         == (if t.Root? then p else SetCur(p, StorePointer(Cur(p)).(offset := t.offset))).(i := 0, n := 2, state := AnswerType)
  {
    hide Feed, FeedAll, Parser.Valid, SetCur, Cur;
    match t {
      case Root =>
        FeedAllOne(p, 0, true);
        StepNameLength(p, 0);
      case Pointer(off) =>
        FeedAllTwo(p, 192 + off / 256, off % 256, true);
        StepNameLength(p, 192 + off / 256);
        var q := Feed(p, 192 + off / 256, true);
        SetCurThen(p, Cur(p).(offset := off / 256 * 256), q, StorePointer(Cur(p)).(offset := off));
        StepPointer(q, off % 256);
    }
  }

  lemma StepPointer(q: Parser, c: byte)
    requires q.Valid() && q.state == NamePointer && q.answers.Some? && q.index < |q.answers.value| && Cur(q).Ok()
    ensures Feed(q, c, true)
         == SetCur(q, StorePointer(Cur(q)).(offset := Cur(q).offset + c)).(i := 0, n := 2, state := AnswerType)
  {
    hide FeedHeader, FeedQuestion, FeedFixed, FeedRdata, Parser.Contents, SetCur, Cur, FeedNameLength, FeedNameLabel;
  }

  lemma {:induction false} NameParsed(p: Parser, name: Name)
    requires p.Valid() && p.state == NameLength && p.answers.Some? && p.index < |p.answers.value| && Cur(p).Ok()
    requires NameOk(name) && Cur(p).nameLength + |Expand(name.labels)| <= 255
    ensures FeedAll(p, PrintName(name), true)
         == SetCur(p, NameRead(Cur(p), name)).(i := 0, n := 2, state := AnswerType)
    decreases |name.labels|
  {
    hide Feed, FeedAll, Parser.Valid, Put, SetCur, Cur;
    var a := Cur(p);
    if name.labels == [] {
      assert PrintName(name) == PrintTail(name.tail);
      TailParsed(p, name.tail);
      PutNothing(a.name, a.nameLength);
      CurSetCur(p, a, a);
    } else {
      var l, rest := name.labels[0], Name(name.labels[1..], name.tail);
      assert LabelOk(l);
      assert PrintName(name) == PrintLabel(l) + PrintName(rest);
      NameOneLabel(p, l);
      var b := PutText(a, l + [DOT]);
      var q := FeedAll(p, PrintLabel(l), true);
      StepNameFrame(p, b, q);
      FeedAllConcat(p, PrintLabel(l), PrintName(rest), true);
      NameParsed(q, rest);
      PutTextTwice(a, l + [DOT], Expand(rest.labels));
      assert NameRead(b, rest) == NameRead(a, name);
      CurSetCur(p, b, NameRead(a, name));
      SetCurFields(SetCur(p, b), NameRead(a, name), q.state, q.i, q.n);
    }
  }

  // ---- the fixed fields ------------------------------------------------------------------------

  lemma StepType(p: Parser, c: byte)
    requires p.Valid() && p.state == AnswerType && p.answers.Some? && p.index < |p.answers.value|
    ensures p.i == 0 ==> Feed(p, c, true) == SetCur(p, Cur(p).(kind := c * 256)).(i := 1)
    ensures p.i == 1 ==> Feed(p, c, true) == SetCur(p, Cur(p).(kind := Cur(p).kind + c)).(i := 0, n := 2, state := AnswerClass)
  {
    hide FeedHeader, FeedQuestion, FeedName, FeedRdata, FeedClass, FeedTtl, FeedRdLength, SetCur, Cur, Parser.Contents;
  }

  lemma StepClass(p: Parser, c: byte)
    requires p.Valid() && p.state == AnswerClass && p.answers.Some? && p.index < |p.answers.value|
    ensures p.i == 0 ==> Feed(p, c, true) == SetCur(p, Cur(p).(rrClass := c * 256)).(i := 1)
    ensures p.i == 1 ==> Feed(p, c, true) == SetCur(p, Cur(p).(rrClass := Cur(p).rrClass + c)).(i := 0, n := 4, state := AnswerTtl)
  {
    hide FeedHeader, FeedQuestion, FeedName, FeedRdata, FeedType, FeedTtl, FeedRdLength, SetCur, Cur, Parser.Contents;
  }

  lemma TypeParsed(p: Parser, x: u16)
    requires p.Valid() && p.state == AnswerType && p.i == 0 && p.answers.Some? && p.index < |p.answers.value|
    ensures FeedAll(p, U16(x), true) == SetCur(p, Cur(p).(kind := x)).(n := 2, state := AnswerClass)
  {
    hide Feed, FeedAll, SetCur, Cur, Parser.Valid;
    FeedAllTwo(p, x / 256, x % 256, true);
    StepType(p, x / 256);
    SetCurThen(p, Cur(p).(kind := x / 256 * 256), Feed(p, x / 256, true), Cur(p).(kind := x));
    StepType(Feed(p, x / 256, true), x % 256);
  }

  lemma ClassParsed(p: Parser, x: u16)
    requires p.Valid() && p.state == AnswerClass && p.i == 0 && p.answers.Some? && p.index < |p.answers.value|
    ensures FeedAll(p, U16(x), true) == SetCur(p, Cur(p).(rrClass := x)).(n := 4, state := AnswerTtl)
  {
    hide Feed, FeedAll, SetCur, Cur, Parser.Valid;
    FeedAllTwo(p, x / 256, x % 256, true);
    StepClass(p, x / 256);
    SetCurThen(p, Cur(p).(rrClass := x / 256 * 256), Feed(p, x / 256, true), Cur(p).(rrClass := x));
    StepClass(Feed(p, x / 256, true), x % 256);
  }

  lemma StepTtl(p: Parser, c: byte)
    requires p.Valid() && p.state == AnswerTtl && p.answers.Some? && p.index < |p.answers.value|
    ensures p.i == 0 ==> Feed(p, c, true) == SetCur(p, Cur(p).(ttl := c * 0x100_0000)).(i := 1)
    ensures p.i == 1 ==> Feed(p, c, true) == SetCur(p, Cur(p).(ttl := Cur(p).ttl + c * 0x1_0000)).(i := 2)
    ensures p.i == 2 ==> Feed(p, c, true) == SetCur(p, Cur(p).(ttl := Cur(p).ttl + c * 0x100)).(i := 3)
    ensures p.i == 3 ==> Feed(p, c, true) == SetCur(p, Cur(p).(ttl := Cur(p).ttl + c)).(i := 0, n := 2, state := AnswerRdLength)
  {
    hide FeedHeader, FeedQuestion, FeedName, FeedRdata, FeedType, FeedClass, FeedRdLength, SetCur, Cur, Parser.Contents;
  }

  lemma U32Value(x: nat)
    requires x < 0x1_0000_0000
    ensures x == x / 0x100_0000 * 0x100_0000 + x / 0x1_0000 % 256 * 0x1_0000 + x / 0x100 % 256 * 0x100 + x % 256
    ensures x / 0x100_0000 < 256
  {
    assert x / 0x100 == x / 0x1_0000 * 256 + x / 0x100 % 256;
    assert x / 0x1_0000 == x / 0x100_0000 * 256 + x / 0x1_0000 % 256;
  }

  lemma TtlBytes(p: Parser, b0: byte, b1: byte, b2: byte, b3: byte, t0: nat, t1: nat, t2: nat)
    requires p.Valid() && p.state == AnswerTtl && p.i == 0 && p.answers.Some? && p.index < |p.answers.value|
    requires t0 == b0 * 0x100_0000 && t1 == t0 + b1 * 0x1_0000 && t2 == t1 + b2 * 0x100
    ensures FeedAll(p, [b0, b1] + [b2, b3], true) == SetCur(p, Cur(p).(ttl := t2 + b3)).(n := 2, state := AnswerRdLength)
  {
    hide Feed, FeedAll, Parser.Valid, Cur, SetCur;
    var a := Cur(p);
    FeedAllConcat(p, [b0, b1], [b2, b3], true);
    FeedAllTwo(p, b0, b1, true);
    StepTtl(p, b0);
    var p1 := Feed(p, b0, true);
    SetCurThen(p, a.(ttl := t0), p1, a.(ttl := t1));
    StepTtl(p1, b1);
    var p2 := Feed(p1, b1, true);
    SetCurThen(p, a.(ttl := t1), p2, a.(ttl := t2));
    FeedAllTwo(p2, b2, b3, true);
    StepTtl(p2, b2);
    var p3 := Feed(p2, b2, true);
    SetCurThen(p, a.(ttl := t2), p3, a.(ttl := t2 + b3));
    StepTtl(p3, b3);
  }

  lemma TtlParsed(p: Parser, x: nat)
    requires p.Valid() && p.state == AnswerTtl && p.i == 0 && p.answers.Some? && p.index < |p.answers.value|
    requires x < 0x1_0000_0000
    ensures FeedAll(p, U32(x), true) == SetCur(p, Cur(p).(ttl := x)).(n := 2, state := AnswerRdLength)
  {
    hide Feed, FeedAll, Parser.Valid, Cur, SetCur;
    var b0, b1, b2, b3 := x / 0x100_0000, x / 0x1_0000 % 256, x / 0x100 % 256, x % 256;
    U32Value(x);
    assert U32(x) == [b0, b1] + [b2, b3];
    var t0 := b0 * 0x100_0000;
    var t1 := t0 + b1 * 0x1_0000;
    TtlBytes(p, b0, b1, b2, b3, t0, t1, t1 + b2 * 0x100);
  }

  /** Two rewrites of the current entry in a row are the second one. */
  lemma SetCurThen(p: Parser, a: Answer, q: Parser, b: Answer)
    requires p.answers.Some? && p.index < |p.answers.value|
    requires q == SetCur(p, a).(state := q.state, i := q.i, n := q.n)
    ensures q.answers.Some? && q.index < |q.answers.value| && Cur(q) == a
    ensures SetCur(q, b) == SetCur(p, b).(state := q.state, i := q.i, n := q.n)
  {
    CurSetCur(p, a, b);
  }

  function RdataState(k: nat): State {
    if k == IPV4_TYPE then Ipv4Rdata else if k == IPV6_TYPE then Ipv6Rdata else CnameLength
  }

  function RdataLimit(k: nat): nat {
    if k == IPV4_TYPE then 4 else if k == IPV6_TYPE then 16 else 255
  }

  lemma StepRdLength(p: Parser, c: byte)
    requires p.Valid() && p.state == AnswerRdLength && p.answers.Some? && p.index < |p.answers.value|
    requires Cur(p).kind == IPV4_TYPE || Cur(p).kind == IPV6_TYPE || Cur(p).kind == CNAME_TYPE
    ensures p.i == 0 ==> Feed(p, c, true) == SetCur(p, Cur(p).(rdLength := c * 256)).(i := 1)
    ensures p.i == 1 ==> Feed(p, c, true) == SetCur(p, Cur(p).(rdLength := Cur(p).rdLength + c))
                                             .(i := 0, n := RdataLimit(Cur(p).kind), state := RdataState(Cur(p).kind))
  {
    hide FeedHeader, FeedQuestion, FeedName, FeedRdata, FeedType, FeedClass, FeedTtl, SetCur, Cur, Parser.Contents;
  }

  lemma RdLengthParsed(p: Parser, x: u16)
    requires p.Valid() && p.state == AnswerRdLength && p.i == 0 && p.answers.Some? && p.index < |p.answers.value|
    requires Cur(p).kind == IPV4_TYPE || Cur(p).kind == IPV6_TYPE || Cur(p).kind == CNAME_TYPE
    ensures FeedAll(p, U16(x), true)
         == SetCur(p, Cur(p).(rdLength := x)).(n := RdataLimit(Cur(p).kind), state := RdataState(Cur(p).kind))
  {
    hide Feed, FeedAll, SetCur, Cur, Parser.Valid, RdataLimit, RdataState;
    FeedAllTwo(p, x / 256, x % 256, true);
    StepRdLength(p, x / 256);
    SetCurThen(p, Cur(p).(rdLength := x / 256 * 256), Feed(p, x / 256, true), Cur(p).(rdLength := x));
    StepRdLength(Feed(p, x / 256, true), x % 256);
  }

  function FixedRead(a: Answer, r: Record): Answer {
    a.(kind := Kind(r.data), rrClass := r.rrClass, ttl := r.ttl, rdLength := r.rdLength)
  }

  lemma FixedParsed(p: Parser, r: Record)
    requires p.Valid() && p.state == AnswerType && p.i == 0 && p.answers.Some? && p.index < |p.answers.value| && RecordOk(r)
    ensures FeedAll(p, PrintFixed(r), true)
         == SetCur(p, FixedRead(Cur(p), r)).(i := 0, n := RdataLimit(Kind(r.data)), state := RdataState(Kind(r.data)))
  {
    hide Feed, FeedAll, Parser.Valid, Cur, SetCur, U16, U32;
    var a, k := Cur(p), Kind(r.data);
    var a1 := a.(kind := k);
    var a2 := a1.(rrClass := r.rrClass);
    var a3 := a2.(ttl := r.ttl);
    var f1 := U16(k);
    var f2 := f1 + U16(r.rrClass);
    var f3 := f2 + U32(r.ttl);
    TypeParsed(p, k);
    SetCurThen(p, a1, FeedAll(p, f1, true), a2);
    FeedAllConcat(p, f1, U16(r.rrClass), true);
    ClassParsed(FeedAll(p, f1, true), r.rrClass);
    SetCurThen(p, a2, FeedAll(p, f2, true), a3);
    FeedAllConcat(p, f2, U32(r.ttl), true);
    TtlParsed(FeedAll(p, f2, true), r.ttl);
    SetCurThen(p, a3, FeedAll(p, f3, true), FixedRead(a, r));
    FeedAllConcat(p, f3, U16(r.rdLength), true);
    RdLengthParsed(FeedAll(p, f3, true), r.rdLength);
  }

  // ---- record data ---------------------------------------------------------------------------------

  /** The parser once the record holding `a` is complete, up to the scratch counters. */
  ghost predicate RecordDone(p: Parser, a: Answer, q: Parser)
    requires p.answers.Some? && p.index < |p.answers.value|
  {
    q == NextAnswer(SetCur(p, a)).(i := q.i, n := q.n)
  }

  lemma StepIpv4(p: Parser, c: byte)
    requires p.Valid() && p.state == Ipv4Rdata && p.answers.Some? && p.index < |p.answers.value| && Cur(p).Ok()
    ensures var text := Cur(p).text + Decimal(c) + [DOT];
            Feed(p, c, true) == if p.i + 1 == 4 then NextAnswer(SetCur(p, FinishIpv4(Cur(p), text)).(i := p.i + 1))
                                else SetCur(p, Cur(p).(text := text)).(i := p.i + 1)
  {
    hide FeedHeader, FeedQuestion, FeedName, FeedFixed, FeedIpv6, FeedCname, SetCur, Cur, Parser.Contents, NextAnswer, FinishIpv4, Decimal;
  }

  /** The first `j` octets leave their dotted text behind. */
  lemma {:induction false} Ipv4Prefix(p: Parser, ip: seq<byte>, j: nat)
    requires p.Valid() && p.state == Ipv4Rdata && p.i == 0 && p.answers.Some? && p.index < |p.answers.value| && Cur(p).Ok()
    requires Cur(p).text == [] && |ip| == 4 && j <= 3
    ensures FeedAll(p, ip[..j], true) == SetCur(p, Cur(p).(text := Inet.Dots(ip[..j]))).(i := j)
    decreases j
  {
    hide Feed, FeedAll, Parser.Valid, SetCur, Cur, Decimal;
    if j == 0 {
      EmptyFeed(p);
      assert ip[..0] == [];
      CurSetCur(p, Cur(p), Cur(p));
    } else {
      Ipv4Prefix(p, ip, j - 1);
      var q := FeedAll(p, ip[..j - 1], true);
      assert ip[..j][..j - 1] == ip[..j - 1];
      FeedAllSnoc(p, ip[..j], true);
      SetCurThen(p, Cur(p).(text := Inet.Dots(ip[..j - 1])), q, Cur(p).(text := Inet.Dots(ip[..j])));
      StepIpv4(q, ip[j - 1]);
    }
  }

  lemma EmptyFeed(p: Parser)
    requires p.Valid()
    ensures FeedAll(p, [], true) == p
  {
  }

  /** An A record: the dotted detour gives back the four octets. */
  lemma Ipv4Parsed(p: Parser, ip: seq<byte>)
    requires p.Valid() && p.state == Ipv4Rdata && p.i == 0 && p.answers.Some? && p.index < |p.answers.value| && Cur(p).Ok()
    requires Cur(p).text == [] && |ip| == 4
    ensures RecordDone(p, Cur(p).(text := Inet.Dotted(ip), ip := ip + Cur(p).ip[4..]), FeedAll(p, ip, true))
    ensures FeedAll(p, ip[..3], true).state != Done
  {
    hide Feed, FeedAll, Parser.Valid, SetCur, Cur, Decimal, Inet.Pton4, Inet.Dots;
    var a := Cur(p);
    Ipv4Prefix(p, ip, 3);
    var q := FeedAll(p, ip[..3], true);
    FeedAllSnoc(p, ip, true);
    var text := Inet.Dots(ip[..3]) + Decimal(ip[3]) + [DOT];
    assert text[..|text| - 1] == Inet.Dotted(ip);
    Inet.Pton4Exact(Inet.Dotted(ip), ip);
    var done := a.(text := Inet.Dotted(ip), ip := ip + a.ip[4..]);
    SetCurThen(p, a.(text := Inet.Dots(ip[..3])), q, done);
    StepIpv4(q, ip[3]);
  }

  lemma StepIpv6(p: Parser, c: byte)
    requires p.Valid() && p.state == Ipv6Rdata && p.answers.Some? && p.index < |p.answers.value| && Cur(p).Ok()
    ensures var q := SetCur(p, Cur(p).(ip := Cur(p).ip[p.i := c])).(i := p.i + 1);
            Feed(p, c, true) == if p.i + 1 == 16 then NextAnswer(q) else q
  {
    hide FeedHeader, FeedQuestion, FeedName, FeedFixed, FeedIpv4, FeedCname, SetCur, Cur, Parser.Contents, NextAnswer;
  }

  lemma {:induction false} Ipv6Prefix(p: Parser, ip: seq<byte>, j: nat)
    requires p.Valid() && p.state == Ipv6Rdata && p.i == 0 && p.answers.Some? && p.index < |p.answers.value| && Cur(p).Ok()
    requires |ip| == 16 && j <= 15
    ensures FeedAll(p, ip[..j], true) == SetCur(p, Cur(p).(ip := ip[..j] + Cur(p).ip[j..])).(i := j)
    decreases j
  {
    hide Feed, FeedAll, Parser.Valid, SetCur, Cur;
    var a := Cur(p);
    if j == 0 {
      EmptyFeed(p);
      assert ip[..0] == [] && ip[..0] + a.ip[0..] == a.ip;
      CurSetCur(p, a, a);
    } else {
      Ipv6Prefix(p, ip, j - 1);
      var q := FeedAll(p, ip[..j - 1], true);
      assert ip[..j][..j - 1] == ip[..j - 1];
      FeedAllSnoc(p, ip[..j], true);
      Overwrite(ip, a.ip, j);
      SetCurThen(p, a.(ip := ip[..j - 1] + a.ip[j - 1..]), q, a.(ip := ip[..j] + a.ip[j..]));
      StepIpv6(q, ip[j - 1]);
    }
  }

  lemma Overwrite(ip: seq<byte>, old': seq<byte>, j: nat)
    requires 1 <= j <= 16 && |ip| == 16 && |old'| == 16
    ensures (ip[..j - 1] + old'[j - 1..])[j - 1 := ip[j - 1]] == ip[..j] + old'[j..]
  {
  }

  lemma Ipv6Parsed(p: Parser, ip: seq<byte>)
    requires p.Valid() && p.state == Ipv6Rdata && p.i == 0 && p.answers.Some? && p.index < |p.answers.value| && Cur(p).Ok()
    requires |ip| == 16
    ensures RecordDone(p, Cur(p).(ip := ip), FeedAll(p, ip, true))
    ensures FeedAll(p, ip[..15], true).state != Done
  {
    hide Feed, FeedAll, Parser.Valid, SetCur, Cur;
    var a := Cur(p);
    Ipv6Prefix(p, ip, 15);
    var q := FeedAll(p, ip[..15], true);
    FeedAllSnoc(p, ip, true);
    Overwrite(ip, a.ip, 16);
    assert ip[..16] + a.ip[16..] == ip;
    SetCurThen(p, a.(ip := ip[..15] + a.ip[15..]), q, a.(ip := ip));
    StepIpv6(q, ip[15]);
  }

  lemma StepCname(p: Parser, c: byte)
    requires p.Valid() && p.state == CnameLength
    ensures c == 0 ==> Feed(p, c, true) == NextAnswer(p)
    ensures 0 < c < 192 ==> Feed(p, c, true) == p.(i := 0, n := c, state := CnameLabel)
    ensures c >= 192 ==> Feed(p, c, true) == p.(i := 1, n := 2, state := CnamePointer)
  {
    hide FeedHeader, FeedQuestion, FeedName, FeedFixed, FeedIpv4, FeedIpv6, Parser.Contents, NextAnswer;
    assert c >= 192 ==> c / 64 == 3;
    assert c < 192 ==> c / 64 < 3;
  }

  lemma StepCnameRest(p: Parser, c: byte)
    requires p.Valid()
    ensures p.state == CnameLabel ==>
              Feed(p, c, true) == p.(i := p.i + 1, state := if p.i + 1 == p.n then CnameLength else CnameLabel)
    ensures p.state == CnamePointer ==> Feed(p, c, true) == NextAnswer(p.(i := 0))
  {
    hide FeedHeader, FeedQuestion, FeedName, FeedFixed, FeedIpv4, FeedIpv6, Parser.Contents, NextAnswer;
  }

  lemma {:induction false} CnameLabelParsed(p: Parser, l: seq<byte>)
    requires p.Valid() && p.state == CnameLabel && l != [] && p.n == p.i + |l|
    ensures FeedAll(p, l, true) == p.(i := p.n, state := CnameLength)
    decreases |l|
  {
    hide Feed, Parser.Valid;
    FeedKeepsValid(p, l[0], true);
    StepCnameRest(p, l[0]);
    if |l| == 1 {
      assert l[1..] == [];
    } else {
      CnameLabelParsed(Feed(p, l[0], true), l[1..]);
    }
  }

  /** A CNAME target is skipped whole, label by label. */
  lemma {:induction false} CnameParsed(p: Parser, name: Name)
    requires p.Valid() && p.state == CnameLength && p.answers.Some? && p.index < |p.answers.value| && NameOk(name)
    ensures RecordDone(p, Cur(p), FeedAll(p, PrintName(name), true))
    ensures PrintName(name) != [] && FeedAll(p, PrintName(name)[..|PrintName(name)| - 1], true).state != Done
    decreases |name.labels|
  {
    hide Feed, FeedAll, Parser.Valid;
    SetCurSame(p);
    if name.labels == [] {
      assert PrintName(name) == PrintTail(name.tail);
      CnameTailParsed(p, name.tail);
    } else {
      var l, rest := name.labels[0], Name(name.labels[1..], name.tail);
      assert LabelOk(l);
      assert PrintName(name) == PrintLabel(l) + PrintName(rest);
      CnameOneLabel(p, l);
      var q := p.(i := |l|, n := |l|);
      FeedAllConcat(p, PrintLabel(l), PrintName(rest), true);
      CnameParsed(q, rest);
      SetCurSame(q);
      var s := PrintName(rest);
      assert PrintName(name)[..|PrintName(name)| - 1] == PrintLabel(l) + s[..|s| - 1];
      FeedAllConcat(p, PrintLabel(l), s[..|s| - 1], true);
    }
  }

  lemma CnameOneLabel(p: Parser, l: seq<byte>)
    requires p.Valid() && p.state == CnameLength && LabelOk(l)
    ensures FeedAll(p, PrintLabel(l), true) == p.(i := |l|, n := |l|)
  {
    hide Feed, FeedAll, Parser.Valid;
    FeedAllConcat(p, [|l|], l, true);
    FeedAllOne(p, |l|, true);
    StepCname(p, |l|);
    CnameLabelParsed(Feed(p, |l|, true), l);
  }

  lemma CnameTailParsed(p: Parser, t: Tail)
    requires p.Valid() && p.state == CnameLength && (t.Pointer? ==> t.offset < 0x4000)
    ensures var q := FeedAll(p, PrintTail(t), true); q == NextAnswer(p).(i := q.i, n := q.n)
    ensures FeedAll(p, PrintTail(t)[..|PrintTail(t)| - 1], true).state != Done
  {
    hide Feed, FeedAll, Parser.Valid;
    match t {
      case Root =>
        FeedAllOne(p, 0, true);
        StepCname(p, 0);
        assert PrintTail(t)[..0] == [];
        EmptyFeed(p);
      case Pointer(off) =>
        FeedAllTwo(p, 192 + off / 256, off % 256, true);
        StepCname(p, 192 + off / 256);
        StepCnameRest(Feed(p, 192 + off / 256, true), off % 256);
        assert PrintTail(t)[..1] == [192 + off / 256];
        FeedAllOne(p, 192 + off / 256, true);
    }
  }

  // ---- a whole record ------------------------------------------------------------------------------

  function RdataRead(a: Answer, d: Rdata): Answer
    requires a.Ok() && (d.A? ==> |d.ip4| == 4)
  {
    match d
    case A(ip) => a.(text := Inet.Dotted(ip), ip := ip + a.ip[4..])
    case Aaaa(ip) => a.(ip := ip)
    case Cname(_) => a
  }

  /** The array entry a printed record turns into. */
  function AnswerOf(r: Record): Answer
    requires RecordOk(r)
  {
    RdataRead(FixedRead(NameRead(Blank(), r.name), r), r.data)
  }

  lemma RdataParsed(p: Parser, d: Rdata)
    requires p.Valid() && p.i == 0 && p.answers.Some? && p.index < |p.answers.value| && Cur(p).Ok() && Cur(p).text == []
    requires p.state == RdataState(Kind(d))
    requires match d case A(ip) => |ip| == 4 case Aaaa(ip) => |ip| == 16 case Cname(name) => NameOk(name)
    ensures RecordDone(p, RdataRead(Cur(p), d), FeedAll(p, PrintRdata(d), true))
    ensures PrintRdata(d) != [] && FeedAll(p, PrintRdata(d)[..|PrintRdata(d)| - 1], true).state != Done
  {
    hide Feed, FeedAll, Parser.Valid, SetCur, Cur, RecordDone;
    match d {
      case A(ip) => Ipv4Parsed(p, ip);
      case Aaaa(ip) => Ipv6Parsed(p, ip);
      case Cname(name) => CnameParsed(p, name);
    }
  }

  lemma RecordParsed(p: Parser, r: Record)
    requires p.Valid() && p.state == NameLength && p.answers.Some? && p.index < |p.answers.value| && Cur(p) == Blank()
    requires RecordOk(r)
    ensures RecordDone(p, AnswerOf(r), FeedAll(p, PrintRecord(r), true))
    ensures PrintRecord(r) != [] && FeedAll(p, PrintRecord(r)[..|PrintRecord(r)| - 1], true).state != Done
  {
    hide Feed, FeedAll, Parser.Valid, SetCur, Cur, Blank, PrintFixed, PrintName, PrintRdata, Put, Expand;
    var a := Cur(p);
    var a1 := NameRead(a, r.name);
    var a2 := FixedRead(a1, r);
    var n, f, d := PrintName(r.name), PrintFixed(r), PrintRdata(r.data);
    NameParsed(p, r.name);
    FeedAllConcat(p, n, f, true);
    SetCurThen(p, a1, FeedAll(p, n, true), a2);
    FixedParsed(FeedAll(p, n, true), r);
    var q := FeedAll(p, n + f, true);
    SetCurThen(p, a2, q, AnswerOf(r));
    RdataParsed(q, r.data);
    FeedAllConcat(p, n + f, d, true);
    assert PrintRecord(r)[..|PrintRecord(r)| - 1] == n + f + d[..|d| - 1];
    FeedAllConcat(p, n + f, d[..|d| - 1], true);
  }

  // ---- a whole message -----------------------------------------------------------------------------

  /** The parser with `done` read into the first entries and the rest of the array blank. */
  ghost predicate Progress(p: Parser, done: seq<Record>, n: nat)
    requires forall k :: 0 <= k < |done| ==> RecordOk(done[k])
  {
    && p.answers.Some? && |p.answers.value| == n == p.an && p.index == |done| <= n
    && (forall k :: 0 <= k < |done| ==> p.answers.value[k] == AnswerOf(done[k]))
    && BlankFrom(p.answers.value, |done|)
    && p.state == (if |done| == n then Done else NameLength)
  }

  /** The header and the question, which the records do not touch. */
  ghost predicate SameHead(p: Parser, q: Parser) {
    q == p.(state := q.state, i := q.i, n := q.n, answers := q.answers, index := q.index)
  }

  lemma OneMore(p: Parser, done: seq<Record>, r: Record, q: Parser, n: nat)
    requires (forall k :: 0 <= k < |done| ==> RecordOk(done[k])) && RecordOk(r)
    requires Progress(p, done, n) && |done| < n && RecordDone(p, AnswerOf(r), q)
    ensures Progress(q, done + [r], n) && SameHead(p, q)
  {
    hide AnswerOf;
  }

  lemma {:induction false} RecordsParsed(p: Parser, done: seq<Record>, rest: seq<Record>)
    requires p.Valid() && rest != []
    requires (forall k :: 0 <= k < |done| ==> RecordOk(done[k])) && (forall k :: 0 <= k < |rest| ==> RecordOk(rest[k]))
    requires Progress(p, done, |done| + |rest|)
    ensures Progress(FeedAll(p, PrintRecords(rest), true), done + rest, |done| + |rest|)
    ensures SameHead(p, FeedAll(p, PrintRecords(rest), true))
    ensures PrintRecords(rest) != []
    ensures FeedAll(p, PrintRecords(rest)[..|PrintRecords(rest)| - 1], true).state != Done
    decreases |rest|
  {
    hide Feed, FeedAll, Parser.Valid, RecordDone, PrintRecord, AnswerOf, Progress, SameHead;
    var r, tail := rest[0], rest[1..];
    ProgressBlank(p, done, |done| + |rest|);
    RecordParsed(p, r);
    var q := FeedAll(p, PrintRecord(r), true);
    OneMore(p, done, r, q, |done| + |rest|);
    var s := PrintRecords(tail);
    FeedAllConcat(p, PrintRecord(r), s, true);
    assert done + [r] + tail == done + rest;
    if tail == [] {
      assert PrintRecords(rest) == PrintRecord(r) && done + [r] == done + rest;
    } else {
      RecordsParsed(q, done + [r], tail);
      SameHeadTransitive(p, q, FeedAll(q, s, true));
      assert PrintRecords(rest)[..|PrintRecords(rest)| - 1] == PrintRecord(r) + s[..|s| - 1];
      FeedAllConcat(p, PrintRecord(r), s[..|s| - 1], true);
    }
  }

  lemma ProgressBlank(p: Parser, done: seq<Record>, n: nat)
    requires (forall k :: 0 <= k < |done| ==> RecordOk(done[k])) && Progress(p, done, n) && |done| < n
    ensures p.state == NameLength && p.answers.Some? && p.index < |p.answers.value| && Cur(p) == Blank()
  {
    hide AnswerOf, Blank;
  }

  lemma SameHeadTransitive(p: Parser, q: Parser, r: Parser)
    requires SameHead(p, q) && SameHead(q, r)
    ensures SameHead(p, r)
  {
  }

  /** Every printed response with a question and at least one A, AAAA or CNAME answer is read back whole:
      the parser is done on the last byte of the last answer and not before, with every header and
      question field and every array entry equal to what was printed. */
  lemma ParseOfPrint(m: Message)
    requires MessageOk(m)
    ensures var q := FeedAll(Init(), Print(m), true);
            && q.state == Done
            && q.id == m.id && q.flags == m.flags && q.qd == m.qd && q.an == |m.answers| && q.ns == m.ns && q.ar == m.ar
            && q.qname[..q.qnameSize] == Expand(m.question) && q.qtype == m.qtype && q.qclass == m.qclass
            && q.answers.Some? && |q.answers.value| == |m.answers|
            && forall k :: 0 <= k < |m.answers| ==> q.answers.value[k] == AnswerOf(m.answers[k])
    ensures forall j :: 0 <= j < |Print(m)| ==> FeedAll(Init(), Print(m)[..j], true).state != Done
  {
    hide Feed, FeedAll, Parser.Valid, AnswerOf, PrintHeader, PrintQuestion, PrintRecords, Put;
    QuestionParsed(m);
    var head, s := PrintHeader(m) + PrintQuestion(m), PrintRecords(m.answers);
    var p := AfterQuestion(m);
    StartProgress(m);
    RecordsParsed(p, [], m.answers);
    assert [] + m.answers == m.answers;
    FeedAllConcat(Init(), head, s, true);
    assert Print(m)[..|Print(m)| - 1] == head + s[..|s| - 1];
    FeedAllConcat(Init(), head, s[..|s| - 1], true);
    forall j | 0 <= j < |Print(m)| ensures FeedAll(Init(), Print(m)[..j], true).state != Done {
      NotDoneBefore(Print(m)[..|Print(m)| - 1], j);
      assert Print(m)[..j] == Print(m)[..|Print(m)| - 1][..j];
    }
    QnameStored(m);
  }

  lemma StartProgress(m: Message)
    requires MessageOk(m)
    ensures Progress(AfterQuestion(m), [], |m.answers|)
  {
    hide AnswerOf, Blank, Put, Expand;
  }

  lemma QnameStored(m: Message)
    requires MessageOk(m)
    ensures AfterQuestion(m).qname[..AfterQuestion(m).qnameSize] == Expand(m.question)
  {
    hide Blanks, Expand;
    assert AfterQuestion(m).qname == Put(Zeros(256), 0, Expand(m.question));
  }

  /** Done is absorbing: not done after `s` means not done after any prefix. */
  lemma NotDoneBefore(s: seq<byte>, j: nat)
    requires j <= |s| && FeedAll(Init(), s, true).state != Done
    ensures FeedAll(Init(), s[..j], true).state != Done
  {
    hide Feed, FeedAll, Parser.Valid;
    assert s == s[..j] + s[j..];
    FeedAllConcat(Init(), s[..j], s[j..], true);
    var p := FeedAll(Init(), s[..j], true);
    if p.state == Done {
      TerminalAbsorbs(p, s[j..], true);
    }
  }

  /** The address and the printed name agree where they overlap. */
  predicate Coincides(t: seq<byte>) { forall k :: 0 <= k < |t| && k < 8 ==> t[k] == QNAME_ADDRESS[k] }

  /** What the entry of a printed record says: type, class, TTL, 14-bit offset and address always; the owner
      name exactly when no pointer follows its labels, unless the pointer happens to spell its first bytes. */
  lemma AnswerOfFields(r: Record)
    requires RecordOk(r)
    ensures var a := AnswerOf(r);
            var t := Expand(r.name.labels);
            && a.kind == Kind(r.data) && a.rrClass == r.rrClass && a.ttl == r.ttl && a.rdLength == r.rdLength
            && a.offset == (if r.name.tail.Pointer? then r.name.tail.offset else 0)
            && a.nameLength == |t|
            && (a.name[..a.nameLength] == t <==> r.name.tail.Root? || r.name.labels == [] || Coincides(t))
            && (r.name.tail.Pointer? ==> a.name[..8] == QNAME_ADDRESS)
            && (forall k :: 8 <= k < |t| ==> a.name[k] == t[k])
            && (r.data.A? ==> a.ip[..4] == r.data.ip4) && (r.data.Aaaa? ==> a.ip == r.data.ip6)
  {
    hide FixedRead, RdataRead;
    var b := NameRead(Blank(), r.name);
    var t := Expand(r.name.labels);
    FixedFields(b, r);
    RdataFields(FixedRead(b, r), r.data);
    NameFields(r.name);
  }

  lemma FixedFields(b: Answer, r: Record)
    requires b.Ok() && RecordOk(r)
    ensures var a := FixedRead(b, r);
            && a.Ok() && a.kind == Kind(r.data) && a.rrClass == r.rrClass && a.ttl == r.ttl && a.rdLength == r.rdLength
            && a.offset == b.offset && a.name == b.name && a.nameLength == b.nameLength
  {
  }

  lemma RdataFields(b: Answer, d: Rdata)
    requires b.Ok() && (d.A? ==> |d.ip4| == 4)
    ensures var a := RdataRead(b, d);
            && a == b.(text := a.text, ip := a.ip)
            && (d.A? ==> a.ip[..4] == d.ip4) && (d.Aaaa? ==> a.ip == d.ip6)
  {
    hide Inet.Dotted;
  }

  lemma NameFields(n: Name)
    requires |Expand(n.labels)| <= 255
    ensures var a := NameRead(Blank(), n);
            var t := Expand(n.labels);
            && a.offset == (if n.tail.Pointer? then n.tail.offset else 0) && a.nameLength == |t|
            && (a.name[..a.nameLength] == t <==> n.tail.Root? || n.labels == [] || Coincides(t))
            && (n.tail.Pointer? ==> a.name[..8] == QNAME_ADDRESS)
            && (forall k :: 8 <= k < |t| ==> a.name[k] == t[k])
  {
    hide Expand;
    var a, t := NameRead(Blank(), n), Expand(n.labels);
    var stored := Put(Zeros(256), 0, t);
    assert stored[..|t|] == t && |stored| == 256;
    assert n.labels == [] ==> t == [] by { ExpandNothing(n.labels); }
    if n.tail.Pointer? {
      assert a.name == QNAME_ADDRESS + stored[8..];
      forall k | 0 <= k < |t| ensures a.name[k] == if k < 8 then QNAME_ADDRESS[k] else t[k] {
        assert stored[..|t|][k] == t[k];
      }
      if a.name[..|t|] == t {
        forall k | 0 <= k < |t| && k < 8 ensures t[k] == QNAME_ADDRESS[k] {
          assert a.name[..|t|][k] == t[k];
        }
      }
      if Coincides(t) {
        assert a.name[..|t|] == t;
      }
    }
  }

  lemma ExpandNothing(labels: seq<seq<byte>>)
    ensures labels == [] ==> Expand(labels) == []
  {
  }

  /** Wherever the question name lies there is a record, labels then a pointer, whose name is not kept. */
  lemma PointerLosesName() returns (r: Record)
    ensures RecordOk(r) && r.name.labels != [] && r.name.tail.Pointer?
    ensures AnswerOf(r).name[..AnswerOf(r).nameLength] != Expand(r.name.labels)
  {
    hide AnswerOf;
    var l: seq<byte> := [if QNAME_ADDRESS[0] == 97 then 98 else 97];
    r := Record(Name([l], Pointer(12)), 1, 0, 4, A([10, 0, 0, 1]));
    assert Expand([l]) == l + [DOT] by { assert [l][1..] == []; }
    assert Expand([l])[0] != QNAME_ADDRESS[0];
    AnswerOfFields(r);
  }
}
