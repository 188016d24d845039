/** The incremental DNS response parser (sections 4.1.1 to 4.1.4 of RFC 1035). */
module Dns {
  import opened Bytes
  import Inet

  const IPV4_TYPE := 1
  const CNAME_TYPE := 5
  const IPV6_TYPE := 28

  datatype State =
    | HeaderId | HeaderFlags | HeaderQd | HeaderAn | HeaderNs | HeaderAr
    | QLength | QLabel | QType | QClass
    | NameLength | NameLabel | NamePointer | AnswerType | AnswerClass | AnswerTtl | AnswerRdLength
    | Ipv4Rdata | Ipv6Rdata | CnameLabel | CnameLength | CnamePointer
    | Done | NoAnswers | AllocFailed | Failed

  datatype Flags = Flags(qr: nat, opcode: nat, aa: nat, tc: nat, rd: nat, ra: nat, z: nat, rcode: nat)

  /** Names live in 255-byte arrays indexed by an 8-bit length: index 255 falls on the byte after the
      array (alignment padding for an answer, the not yet read QTYPE for the question), so they are
      modelled as 256 bytes written round and round. `text` is the dotted-decimal scratch string of an
      A record and `ip` the address union. */
  datatype Answer = Answer(name: seq<byte>, nameLength: byte, offset: nat, kind: nat, rrClass: nat,
                           ttl: nat, rdLength: nat, text: seq<byte>, ip: seq<byte>) {
    ghost predicate Ok() { |name| == 256 && |ip| == 16 }
  }

  type Address = a: seq<byte> | |a| == 8 witness [0, 0, 0, 0, 0, 0, 0, 0]

  /** The bytes of the pointer to the question name of the connection's response: any eight bytes. */
  const QNAME_ADDRESS: Address

  function Blank(): (a: Answer)
    ensures a.Ok() && a.text == [] && a.nameLength == 0
  {
    Answer(Zeros(256), 0, 0, 0, 0, 0, 0, [], Zeros(16))
  }

  ghost predicate AllOk(a: seq<Answer>) { forall k :: 0 <= k < |a| ==> a[k].Ok() }

  ghost predicate BlankFrom(a: seq<Answer>, m: nat) { forall k :: m <= k < |a| ==> a[k] == Blank() }

  /** The zeroed array `calloc` returns. */
  function Blanks(n: nat): (a: seq<Answer>)
    ensures |a| == n && AllOk(a) && BlankFrom(a, 0)
  {
    seq(n, _ => Blank())
  }

  datatype Parser = Parser(state: State, i: nat, n: nat, id: u16, flags: Flags, qd: u16, an: u16, ns: u16, ar: u16,
                           qname: seq<byte>, qnameSize: byte, qtype: u16, qclass: u16,
                           answers: Option<seq<Answer>>, index: nat) {
    /** Nothing allocated yet. */
    predicate BeforeCount() {
      state == HeaderId || state == HeaderFlags || state == HeaderQd || state == HeaderAn
    }

    /** The count is known, the answers are not being read yet. */
    predicate BeforeAnswers() {
      || state == HeaderNs || state == HeaderAr
      || state == QLength || state == QLabel || state == QType || state == QClass
    }

    predicate InName() { state == NameLength || state == NameLabel || state == NamePointer }

    predicate InFixed() {
      state == AnswerType || state == AnswerClass || state == AnswerTtl || state == AnswerRdLength
    }

    predicate InRdata() {
      || state == Ipv4Rdata || state == Ipv6Rdata
      || state == CnameLabel || state == CnameLength || state == CnamePointer
    }

    predicate InAnswers() { InName() || InFixed() || InRdata() }

    predicate Terminal() { state == Done || state == NoAnswers || state == AllocFailed || state == Failed }

    /** Each state's counter range. */
    ghost predicate Counters() {
      && (BeforeCount() || state == HeaderNs || state == HeaderAr || state == QType || state == QClass ==> i <= 1)
      && (state == AnswerType || state == AnswerClass || state == AnswerRdLength ==> i <= 1)
      && (state == AnswerTtl ==> i <= 3)
      && (state == QLabel || state == NameLabel || state == CnameLabel ==> i < n <= 255)
      && (state == NamePointer || state == CnamePointer ==> i == 1)
      && (state == Ipv4Rdata ==> i < n == 4)
      && (state == Ipv6Rdata ==> i < n == 16)
    }

    /** The answer array is there exactly from the count on, has the announced length, and the entry
        being filled exists; the entries after it are untouched. */
    ghost predicate Array() {
      && (BeforeCount() ==> answers.None? && index == 0 && ((state == HeaderAn && i == 1) || an == 0))
      && (state == NoAnswers ==> answers.None? && an == 0 && index == 0)
      && (state == AllocFailed ==> answers.None? && index == 0)
      && (answers.Some? ==> |answers.value| == an > 0)
      && (BeforeAnswers() ==> answers.Some? && index == 0)
      && (InAnswers() || state == Failed ==> answers.Some? && index < an)
      && (state == Done ==> answers.Some? && index == an)
    }

    ghost predicate Contents() {
      && |qname| == 256
      && (answers.Some? ==> AllOk(answers.value))
      && (BeforeAnswers() && answers.Some? ==> BlankFrom(answers.value, 0))
      && (InAnswers() && answers.Some? ==> BlankFrom(answers.value, index + 1))
      && (InAnswers() && answers.Some? && index < |answers.value| ==>
            |answers.value[index].text| <= if state == Ipv4Rdata then 4 * i else 0)
    }

    ghost predicate Valid() { Counters() && Array() && Contents() }
  }

  function Init(): (p: Parser)
    ensures p.Valid()
  {
    Parser(HeaderId, 0, 2, 0, Flags(0, 0, 0, 0, 0, 0, 0, 0), 0, 0, 0, 0, Zeros(256), 0, 0, 0, None, 0)
  }

  /** `doh_response_parser_destroy` */
  function Destroy(p: Parser): Parser { p.(answers := None) }

  function FlagsHigh(f: Flags, c: byte): Flags {
    f.(qr := c / 128, opcode := c / 8 % 16, aa := c / 4 % 2, tc := c / 2 % 2, rd := c % 2)
  }

  function FlagsLow(f: Flags, c: byte): Flags { f.(ra := c / 128, z := c / 16 % 8, rcode := c % 16) }

  function High(c: byte): u16 { c * 256 }

  /** 16-bit addition. */
  function AddLow(x: u16, c: byte): u16 { if x + c < 0x1_0000 then x + c else x + c - 0x1_0000 }

  /** 8-bit increment. */
  function Inc8(x: byte): byte { if x == 255 then 0 else x + 1 }

  /** One byte. `alloc` tells whether the answer array can be allocated. */
  function Feed(p: Parser, c: byte, alloc: bool): (q: Parser)
    requires p.Valid()
  {
    if p.BeforeCount() then FeedHeader(p, c, alloc)
    else if p.BeforeAnswers() then FeedQuestion(p, c)
    else if p.InName() then FeedName(p, c)
    else if p.InFixed() then FeedFixed(p, c)
    else if p.InRdata() then FeedRdata(p, c)
    else p
  }

  function FeedHeader(p: Parser, c: byte, alloc: bool): (q: Parser)
    requires p.Valid() && p.BeforeCount()
  {
    if p.state == HeaderId then
      if p.i == 0 then p.(i := 1, id := High(c))
      else if p.i == 1 then p.(i := 0, n := 2, id := AddLow(p.id, c), state := HeaderFlags)
      else p.(state := Failed)
    else if p.state == HeaderFlags then
      if p.i == 0 then
        p.(i := 1, flags := FlagsHigh(p.flags, c))
      else if p.i == 1 then
        p.(i := 0, n := 2, flags := FlagsLow(p.flags, c), state := HeaderQd)
      else p.(state := Failed)
    else if p.state == HeaderQd then
      if p.i == 0 then p.(i := 1, qd := High(c))
      else if p.i == 1 then p.(i := 0, n := 2, qd := AddLow(p.qd, c), state := HeaderAn)
      else p.(state := Failed)
    else
      FeedCount(p, c, alloc)
  }

  /** ANCOUNT decides: nothing to read, no memory, or an array of that many blank answers. */
  function FeedCount(p: Parser, c: byte, alloc: bool): (q: Parser)
    requires p.Valid() && p.state == HeaderAn
  {
    if p.i == 0 then p.(i := 1, an := High(c))
    else if p.i == 1 then
      var an := AddLow(p.an, c);
      if an == 0 then p.(i := 0, n := 2, an := an, state := NoAnswers)
      else if !alloc then p.(i := 0, n := 2, an := an, state := AllocFailed)
      else p.(i := 0, n := 2, an := an, answers := Some(Blanks(an)), state := HeaderNs)
    else p.(state := Failed)
  }

  /** A byte of a question label; the last one is followed by a dot. */
  function LabelByte(p: Parser, c: byte): (q: Parser)
    requires |p.qname| == 256
  {
    var q := p.(i := p.i + 1, qname := p.qname[p.qnameSize := c], qnameSize := Inc8(p.qnameSize));
    if q.i == q.n then
      q.(qname := q.qname[q.qnameSize := DOT], qnameSize := Inc8(q.qnameSize), state := QLength)
    else q
  }

  function FeedQuestion(p: Parser, c: byte): (q: Parser)
    requires p.Valid() && p.BeforeAnswers()
  {
    if p.state == HeaderNs then
      if p.i == 0 then p.(i := 1, ns := High(c))
      else if p.i == 1 then p.(i := 0, n := 2, ns := AddLow(p.ns, c), state := HeaderAr)
      else p.(state := Failed)
    else if p.state == HeaderAr then
      if p.i == 0 then p.(i := 1, ar := High(c))
      else if p.i == 1 then p.(ar := AddLow(p.ar, c), state := QLength)
      else p.(state := Failed)
    else if p.state == QLength then
      if c == 0 then p.(i := 0, n := 2, state := QType) else p.(i := 0, n := c, state := QLabel)
    else if p.state == QLabel then
      if p.i >= p.n then p.(state := Failed) else LabelByte(p, c)
    else if p.state == QType then
      if p.i == 0 then p.(i := 1, qtype := High(c))
      else if p.i == 1 then p.(i := 0, n := 2, qtype := AddLow(p.qtype, c), state := QClass)
      else p.(state := Failed)
    else
      if p.i == 0 then p.(i := 1, qclass := High(c))
      else if p.i == 1 then p.(i := 0, qclass := AddLow(p.qclass, c), state := NameLength)
      else p.(state := Failed)
  }

  /** The answer being filled. */
  function Cur(p: Parser): Answer
    requires p.answers.Some? && p.index < |p.answers.value|
  {
    p.answers.value[p.index]
  }

  function SetCur(p: Parser, a: Answer): (q: Parser)
    requires p.answers.Some? && p.index < |p.answers.value|
    ensures q == p.(answers := q.answers)
    ensures q.answers.Some? && |q.answers.value| == |p.answers.value| && Cur(q) == a
  {
    p.(answers := Some(p.answers.value[p.index := a]))
  }

  /** A record is complete: done after the last announced one, else on to the next name. */
  function NextAnswer(p: Parser): Parser {
    p.(index := p.index + 1, state := if p.index + 1 == p.an then Done else NameLength)
  }

  function PutName(a: Answer, c: byte): Answer
    requires a.Ok()
  {
    a.(name := a.name[a.nameLength := c], nameLength := Inc8(a.nameLength))
  }

  function FeedName(p: Parser, c: byte): (q: Parser)
    requires p.Valid() && p.InName()
  {
    if p.state == NameLength then FeedNameLength(p, c)
    else if p.state == NameLabel then FeedNameLabel(p, c)
    else FeedNamePointer(p, c)
  }

  /** Zero ends the name, two high bits make a 14-bit pointer, anything else is a label length. */
  function FeedNameLength(p: Parser, c: byte): (q: Parser)
    requires p.answers.Some? && p.index < |p.answers.value|
  {
    if c == 0 then p.(i := 0, n := 2, state := AnswerType)
    else if c / 64 == 3 then
      SetCur(p, Cur(p).(offset := c % 64 * 256)).(i := 1, n := 2, state := NamePointer)
    else p.(i := 0, n := c, state := NameLabel)
  }

  function FeedNameLabel(p: Parser, c: byte): (q: Parser)
    requires p.answers.Some? && p.index < |p.answers.value| && Cur(p).Ok()
  {
    if p.i >= p.n then p.(state := Failed)
    else if p.i + 1 == p.n then
      SetCur(p, PutName(PutName(Cur(p), c), DOT)).(i := p.i + 1, state := NameLength)
    else SetCur(p, PutName(Cur(p), c)).(i := p.i + 1)
  }

  /** A name that ends in a pointer stores the address of the question name, in a union with the labels. */
  function StorePointer(a: Answer): (b: Answer)
    requires a.Ok()
    ensures b.Ok()
  {
    a.(name := QNAME_ADDRESS + a.name[8..])
  }

  function FeedNamePointer(p: Parser, c: byte): (q: Parser)
    requires p.answers.Some? && p.index < |p.answers.value| && Cur(p).Ok()
  {
    if p.i == 1 then
      SetCur(p, StorePointer(Cur(p)).(offset := Cur(p).offset + c)).(i := 0, n := 2, state := AnswerType)
    else p.(state := Failed)
  }

  function FeedFixed(p: Parser, c: byte): (q: Parser)
    requires p.Valid() && p.InFixed()
  {
    if p.state == AnswerType then FeedType(p, Cur(p), c)
    else if p.state == AnswerClass then FeedClass(p, Cur(p), c)
    else if p.state == AnswerTtl then FeedTtl(p, Cur(p), c)
    else FeedRdLength(p, Cur(p), c)
  }

  function FeedType(p: Parser, a: Answer, c: byte): (q: Parser)
    requires p.answers.Some? && p.index < |p.answers.value|
  {
    if p.i == 0 then SetCur(p, a.(kind := c * 256)).(i := 1)
    else if p.i == 1 then SetCur(p, a.(kind := a.kind + c)).(i := 0, n := 2, state := AnswerClass)
    else p.(state := Failed)
  }

  function FeedClass(p: Parser, a: Answer, c: byte): (q: Parser)
    requires p.answers.Some? && p.index < |p.answers.value|
  {
    if p.i == 0 then SetCur(p, a.(rrClass := c * 256)).(i := 1)
    else if p.i == 1 then SetCur(p, a.(rrClass := a.rrClass + c)).(i := 0, n := 4, state := AnswerTtl)
    else p.(state := Failed)
  }

  function FeedTtl(p: Parser, a: Answer, c: byte): (q: Parser)
    requires p.answers.Some? && p.index < |p.answers.value|
  {
    if p.i == 0 then SetCur(p, a.(ttl := c * 0x100_0000)).(i := 1)
    else if p.i == 1 then SetCur(p, a.(ttl := a.ttl + c * 0x1_0000)).(i := 2)
    else if p.i == 2 then SetCur(p, a.(ttl := a.ttl + c * 0x100)).(i := 3)
    else if p.i == 3 then SetCur(p, a.(ttl := a.ttl + c)).(i := 0, n := 2, state := AnswerRdLength)
    else p.(state := Failed)
  }

  /** RDLENGTH is stored but the record type alone decides how the data is read. */
  function FeedRdLength(p: Parser, a: Answer, c: byte): (q: Parser)
    requires p.answers.Some? && p.index < |p.answers.value|
  {
    if p.i == 0 then SetCur(p, a.(rdLength := c * 256)).(i := 1)
    else if p.i == 1 then
      var q := SetCur(p, a.(rdLength := a.rdLength + c)).(i := 0);
      if a.kind == IPV4_TYPE then q.(n := 4, state := Ipv4Rdata)
      else if a.kind == IPV6_TYPE then q.(n := 16, state := Ipv6Rdata)
      else if a.kind == CNAME_TYPE then q.(n := 255, state := CnameLength)
      else q.(state := Failed)
    else p.(state := Failed)
  }

  /** An A address goes through its dotted-decimal text and back. */
  function FinishIpv4(a: Answer, text: seq<byte>): Answer
    requires a.Ok() && |text| > 0
  {
    var dotted := text[..|text| - 1];
    match Inet.Pton4(dotted)
    case None => a.(text := dotted)
    case Some(ip) => a.(text := dotted, ip := ip + a.ip[4..])
  }

  function FeedRdata(p: Parser, c: byte): (q: Parser)
    requires p.Valid() && p.InRdata()
  {
    if p.state == Ipv4Rdata then FeedIpv4(p, c)
    else if p.state == Ipv6Rdata then FeedIpv6(p, c)
    else FeedCname(p, c)
  }

  function FeedIpv4(p: Parser, c: byte): (q: Parser)
    requires p.answers.Some? && p.index < |p.answers.value| && Cur(p).Ok()
  {
    if p.i >= p.n then p.(state := Failed)
    else
      var text := Cur(p).text + Decimal(c) + [DOT];
      if p.i + 1 == p.n then NextAnswer(SetCur(p, FinishIpv4(Cur(p), text)).(i := p.i + 1))
      else SetCur(p, Cur(p).(text := text)).(i := p.i + 1)
  }

  function FeedIpv6(p: Parser, c: byte): (q: Parser)
    requires p.answers.Some? && p.index < |p.answers.value| && Cur(p).Ok() && p.n <= 16
  {
    if p.i >= p.n then p.(state := Failed)
    else
      var q := SetCur(p, Cur(p).(ip := Cur(p).ip[p.i := c])).(i := p.i + 1);
      if p.i + 1 == p.n then NextAnswer(q) else q
  }

  /** The target of a CNAME is skipped, not stored. */
  function FeedCname(p: Parser, c: byte): (q: Parser) {
    if p.state == CnameLength then
      if c == 0 then NextAnswer(p)
      else if c / 64 == 3 then p.(i := 1, n := 2, state := CnamePointer)
      else p.(i := 0, n := c, state := CnameLabel)
    else if p.state == CnameLabel then
      if p.i >= p.n then p.(state := Failed)
      else p.(i := p.i + 1, state := if p.i + 1 == p.n then CnameLength else CnameLabel)
    else
      if p.i == 1 then NextAnswer(p.(i := 0)) else p.(state := Failed)
  }

  // ---- the invariant over arbitrary bytes -------------------------------------------

  lemma CountKeepsValid(p: Parser, c: byte, alloc: bool)
    requires p.Valid() && p.state == HeaderAn
    ensures FeedCount(p, c, alloc).Valid() && FeedCount(p, c, alloc).state != Failed
  {
    hide Blanks, Blank, AllOk, BlankFrom;
  }

  lemma HeaderKeepsValid(p: Parser, c: byte, alloc: bool)
    requires p.Valid() && p.BeforeCount()
    ensures FeedHeader(p, c, alloc).Valid() && FeedHeader(p, c, alloc).state != Failed
  {
    hide FeedCount, Blank, AllOk, BlankFrom;
    if p.state == HeaderAn {
      CountKeepsValid(p, c, alloc);
    }
  }

  lemma QuestionFrame(p: Parser, c: byte)
    requires p.Valid() && p.BeforeAnswers()
    ensures var q := FeedQuestion(p, c);
            && q.answers == p.answers && q.index == p.index && q.an == p.an && |q.qname| == 256
            && q.Counters() && (q.BeforeAnswers() || q.state == NameLength)
  {
    hide Parser.Contents;
    assert |p.qname| == 256 by { QnameSize(p); }
  }

  lemma QnameSize(p: Parser)
    requires p.Contents()
    ensures |p.qname| == 256
  {
  }

  lemma QuestionKeepsValid(p: Parser, c: byte)
    requires p.Valid() && p.BeforeAnswers()
    ensures FeedQuestion(p, c).Valid() && FeedQuestion(p, c).state != Failed
  {
    hide FeedQuestion;
    QuestionFrame(p, c);
  }

  lemma SetCurContents(p: Parser, a: Answer, q: Parser)
    requires p.Contents() && p.InAnswers() && p.answers.Some? && p.index < |p.answers.value| && a.Ok()
    requires q == SetCur(p, a).(state := q.state, i := q.i, n := q.n)
    requires q.InAnswers() || q.state == Failed
    requires |a.text| <= if q.state == Ipv4Rdata then 4 * q.i else 0
    ensures q.Contents()
  {
  }

  /** A step inside a record rewrites the current entry only. */
  lemma StaysInRecord(p: Parser, a: Answer, q: Parser)
    requires p.Valid() && p.InAnswers() && a.Ok()
    requires q == SetCur(p, a).(state := q.state, i := q.i, n := q.n)
    requires q.Counters() && (q.InAnswers() || q.state == Failed)
    requires |a.text| <= if q.state == Ipv4Rdata then 4 * q.i else 0
    ensures q.Valid()
  {
    hide Parser.Contents, Parser.Counters, SetCur;
    SetCurContents(p, a, q);
  }

  lemma NextContents(p: Parser, a: Answer, q: Parser)
    requires p.Contents() && p.Array() && p.InAnswers() && a.Ok()
    requires q == NextAnswer(SetCur(p, a).(i := q.i))
    ensures q.Contents()
  {
    hide Parser.InName, Parser.InFixed, Parser.InRdata;
  }

  lemma EndsRecord(p: Parser, a: Answer, q: Parser)
    requires p.Valid() && p.InAnswers() && a.Ok()
    requires q == NextAnswer(SetCur(p, a).(i := q.i))
    ensures q.Valid()
  {
    hide Parser.Contents;
    NextContents(p, a, q);
  }

  lemma CurOk(p: Parser)
    requires p.Contents() && p.Array() && p.InAnswers()
    ensures Cur(p).Ok() && |Cur(p).text| <= (if p.state == Ipv4Rdata then 4 * p.i else 0)
  {
    hide Parser.InName, Parser.InFixed, Parser.InRdata;
  }

  lemma SetCurSame(p: Parser)
    requires p.answers.Some? && p.index < |p.answers.value|
    ensures SetCur(p, Cur(p)) == p
  {
    assert p.answers.value[p.index := p.answers.value[p.index]] == p.answers.value;
  }

  lemma NameKeepsValid(p: Parser, c: byte)
    requires p.Valid() && p.InName()
    ensures FeedName(p, c).Valid() && FeedName(p, c).state != Failed
  {
    hide Parser.Contents;
    CurOk(p);
    SetCurSame(p);
    var q := FeedName(p, c);
    StaysInRecord(p, Cur(q), q);
  }

  lemma FixedKeepsValid(p: Parser, c: byte)
    requires p.Valid() && p.InFixed()
    ensures FeedFixed(p, c).Valid()
    ensures FeedFixed(p, c).state == Failed <==>
            p.state == AnswerRdLength && p.i == 1
            && Cur(p).kind != IPV4_TYPE && Cur(p).kind != IPV6_TYPE && Cur(p).kind != CNAME_TYPE
  {
    hide Parser.Contents;
    CurOk(p);
    SetCurSame(p);
    var q := FeedFixed(p, c);
    StaysInRecord(p, Cur(q), q);
  }

  lemma Ipv4KeepsValid(p: Parser, c: byte)
    requires p.Valid() && p.state == Ipv4Rdata
    ensures FeedRdata(p, c).Valid() && FeedRdata(p, c).state != Failed
  {
    hide Parser.Contents, Inet.Pton4, Decimal, FeedCname, FeedIpv6;
    CurOk(p);
    SetCurSame(p);
    var q := FeedRdata(p, c);
    var text := Cur(p).text + Decimal(c) + [DOT];
    if p.i + 1 == p.n {
      EndsRecord(p, FinishIpv4(Cur(p), text), q);
    } else {
      StaysInRecord(p, Cur(q), q);
    }
  }

  lemma RdataKeepsValid(p: Parser, c: byte)
    requires p.Valid() && p.InRdata()
    ensures FeedRdata(p, c).Valid() && FeedRdata(p, c).state != Failed
  {
    hide Parser.Contents;
    CurOk(p);
    SetCurSame(p);
    var q := FeedRdata(p, c);
    if p.state == Ipv4Rdata {
      Ipv4KeepsValid(p, c);
    } else if q.index == p.index {
      StaysInRecord(p, Cur(q), q);
    } else if p.state == Ipv6Rdata {
      EndsRecord(p, Cur(p).(ip := Cur(p).ip[p.i := c]), q);
    } else {
      EndsRecord(p, Cur(p), q);
    }
  }

  lemma FeedKeepsValid(p: Parser, c: byte, alloc: bool)
    requires p.Valid()
    ensures Feed(p, c, alloc).Valid()
  {
    hide Parser.Valid, FeedHeader, FeedQuestion, FeedName, FeedFixed, FeedRdata;
    if p.BeforeCount() {
      HeaderKeepsValid(p, c, alloc);
    } else if p.BeforeAnswers() {
      QuestionKeepsValid(p, c);
    } else if p.InName() {
      NameKeepsValid(p, c);
    } else if p.InFixed() {
      FixedKeepsValid(p, c);
    } else if p.InRdata() {
      RdataKeepsValid(p, c);
    }
  }

  function FeedAll(p: Parser, s: seq<byte>, alloc: bool): (q: Parser)
    requires p.Valid()
    ensures q.Valid()
    decreases |s|
  {
    if s == [] then p
    else
      FeedKeepsValid(p, s[0], alloc);
      FeedAll(Feed(p, s[0], alloc), s[1..], alloc)
  }

  /** Whatever the bytes, every index the parser uses is inside the arrays it allocated, and it fails
      on an unsupported record type only: none of the defensive branches is ever taken. */
  lemma {:induction false} FailsOnlyOnType(s: seq<byte>, alloc: bool) returns (k: nat)
    requires FeedAll(Init(), s, alloc).state == Failed
    ensures k < |s| && UnsupportedAt(s, k, alloc)
    decreases |s|
  {
    hide Feed, Parser.Valid, UnsupportedAt;
    if s == [] {
      assert false;
    }
    var a := s[..|s| - 1];
    FeedAllSnoc(Init(), s, alloc);
    var p := FeedAll(Init(), a, alloc);
    if p.state == Failed {
      k := FailsOnlyOnType(a, alloc);
      UnsupportedPrefix(s, a, k, alloc);
    } else {
      k := |s| - 1;
      UnsupportedLast(s, alloc);
    }
  }

  /** And it fails on every such record. */
  lemma UnsupportedFails(s: seq<byte>, k: nat, alloc: bool)
    requires k < |s| && UnsupportedAt(s, k, alloc)
    ensures FeedAll(Init(), s, alloc).state == Failed
  {
    hide Feed, FeedAll, Parser.Valid;
    var a := s[..k + 1];
    assert a[..|a| - 1] == s[..k] && s == a + s[k + 1..];
    FeedAllSnoc(Init(), a, alloc);
    UnsupportedStep(FeedAll(Init(), s[..k], alloc), s[k], alloc);
    FeedAllConcat(Init(), a, s[k + 1..], alloc);
    TerminalAbsorbs(FeedAll(Init(), a, alloc), s[k + 1..], alloc);
  }

  lemma UnsupportedStep(p: Parser, c: byte, alloc: bool)
    requires p.Valid() && p.state == AnswerRdLength && p.i == 1
    requires Cur(p).kind != IPV4_TYPE && Cur(p).kind != IPV6_TYPE && Cur(p).kind != CNAME_TYPE
    ensures Feed(p, c, alloc).state == Failed
  {
    hide FeedFixed, Parser.Contents;
    FixedKeepsValid(p, c);
  }

  lemma UnsupportedPrefix(s: seq<byte>, a: seq<byte>, k: nat, alloc: bool)
    requires a <= s && k < |a| && UnsupportedAt(a, k, alloc)
    ensures UnsupportedAt(s, k, alloc)
  {
    hide Feed, Parser.Valid;
    assert s[..k] == a[..k];
  }

  lemma UnsupportedLast(s: seq<byte>, alloc: bool)
    requires s != [] && FeedAll(Init(), s[..|s| - 1], alloc).state != Failed
    requires Feed(FeedAll(Init(), s[..|s| - 1], alloc), s[|s| - 1], alloc).state == Failed
    ensures UnsupportedAt(s, |s| - 1, alloc)
  {
    hide Feed, FeedAll;
    LastByteFails(FeedAll(Init(), s[..|s| - 1], alloc), s[|s| - 1], alloc);
  }

  lemma LastByteFails(p: Parser, c: byte, alloc: bool)
    requires p.Valid() && p.state != Failed && Feed(p, c, alloc).state == Failed
    ensures p.state == AnswerRdLength && p.i == 1 && p.answers.Some? && p.index < |p.answers.value|
    ensures Cur(p).kind != IPV4_TYPE && Cur(p).kind != IPV6_TYPE && Cur(p).kind != CNAME_TYPE
  {
    hide FeedHeader, FeedQuestion, FeedName, FeedFixed, FeedRdata, Parser.Contents;
    if p.BeforeCount() {
      HeaderKeepsValid(p, c, alloc);
    } else if p.BeforeAnswers() {
      QuestionKeepsValid(p, c);
    } else if p.InName() {
      NameKeepsValid(p, c);
    } else if p.InFixed() {
      FixedKeepsValid(p, c);
    } else if p.InRdata() {
      RdataKeepsValid(p, c);
    }
  }

  /** Byte `k` completes the RDLENGTH of a record that is neither A, AAAA nor CNAME. */
  ghost predicate UnsupportedAt(s: seq<byte>, k: nat, alloc: bool)
    requires k < |s|
  {
    var p := FeedAll(Init(), s[..k], alloc);
    && p.state == AnswerRdLength && p.i == 1
    && Cur(p).kind != IPV4_TYPE && Cur(p).kind != IPV6_TYPE && Cur(p).kind != CNAME_TYPE
  }

  lemma {:induction false} FeedAllConcat(p: Parser, a: seq<byte>, b: seq<byte>, alloc: bool)
    requires p.Valid()
    ensures FeedAll(p, a + b, alloc) == FeedAll(FeedAll(p, a, alloc), b, alloc)
    decreases |a|
  {
    hide Feed, Parser.Valid;
    if a == [] {
      assert a + b == b;
    } else {
      assert (a + b)[1..] == a[1..] + b && (a + b)[0] == a[0];
      FeedKeepsValid(p, a[0], alloc);
      FeedAllConcat(Feed(p, a[0], alloc), a[1..], b, alloc);
    }
  }

  lemma FeedAllOne(p: Parser, c: byte, alloc: bool)
    requires p.Valid()
    ensures Feed(p, c, alloc).Valid()
    ensures FeedAll(p, [c], alloc) == Feed(p, c, alloc)
  {
    hide Feed, Parser.Valid;
    FeedKeepsValid(p, c, alloc);
    assert [c][1..] == [];
    assert FeedAll(Feed(p, c, alloc), [], alloc) == Feed(p, c, alloc);
  }

  lemma FeedAllSnoc(p: Parser, s: seq<byte>, alloc: bool)
    requires p.Valid() && s != []
    ensures FeedAll(p, s, alloc) == Feed(FeedAll(p, s[..|s| - 1], alloc), s[|s| - 1], alloc)
  {
    hide Feed, FeedAll, Parser.Valid;
    assert s == s[..|s| - 1] + [s[|s| - 1]];
    FeedAllConcat(p, s[..|s| - 1], [s[|s| - 1]], alloc);
    FeedAllOne(FeedAll(p, s[..|s| - 1], alloc), s[|s| - 1], alloc);
  }

  lemma FeedAllTwo(p: Parser, a: byte, b: byte, alloc: bool)
    requires p.Valid()
    ensures Feed(p, a, alloc).Valid()
    ensures FeedAll(p, [a, b], alloc) == Feed(Feed(p, a, alloc), b, alloc)
  {
    hide Feed, FeedAll, Parser.Valid;
    assert [a, b] == [a] + [b];
    FeedAllConcat(p, [a], [b], alloc);
    FeedAllOne(p, a, alloc);
    FeedAllOne(Feed(p, a, alloc), b, alloc);
  }

  /** Terminal states absorb whatever follows. */
  lemma {:induction false} TerminalAbsorbs(p: Parser, s: seq<byte>, alloc: bool)
    requires p.Valid() && p.Terminal()
    ensures FeedAll(p, s, alloc) == p
    decreases |s|
  {
    hide FeedHeader, FeedQuestion, FeedName, FeedFixed, FeedRdata, Parser.Valid;
    if s != [] {
      assert Feed(p, s[0], alloc) == p;
      TerminalAbsorbs(p, s[1..], alloc);
    }
  }

  // ---- what ANCOUNT decides -----------------------------------------------------------------

  /** Where the parser stands after fewer than eight bytes. */
  ghost predicate InHeader(p: Parser, s: seq<byte>) {
    && |s| < 8 && p.i == (if |s| == 1 || |s| == 3 || |s| == 5 || |s| == 7 then 1 else 0)
    && p.state == (if |s| < 2 then HeaderId else if |s| < 4 then HeaderFlags else if |s| < 6 then HeaderQd else HeaderAn)
    && (|s| == 7 ==> p.an == High(s[6]))
  }

  lemma HeaderByte(p: Parser, s: seq<byte>, c: byte, alloc: bool)
    requires p.Valid() && InHeader(p, s) && |s| < 7
    ensures InHeader(Feed(p, c, alloc), s + [c])
  {
    hide Parser.Contents, FlagsHigh, FlagsLow, AddLow;
  }

  lemma {:induction false} HeaderBytes(s: seq<byte>, alloc: bool)
    requires |s| < 8
    ensures InHeader(FeedAll(Init(), s, alloc), s)
    decreases |s|
  {
    hide Feed, Parser.Valid, InHeader;
    if s == [] {
      StartOfHeader(alloc);
    } else {
      var t := s[..|s| - 1];
      HeaderBytes(t, alloc);
      FeedAllSnoc(Init(), s, alloc);
      HeaderByte(FeedAll(Init(), t, alloc), t, s[|s| - 1], alloc);
      assert t + [s[|s| - 1]] == s;
    }
  }

  lemma StartOfHeader(alloc: bool)
    ensures InHeader(FeedAll(Init(), [], alloc), [])
  {
  }

  /** The eighth byte. */
  lemma CountByte(p: Parser, a: byte, b: byte, alloc: bool)
    requires p.Valid() && p.state == HeaderAn && p.i == 1 && p.an == High(a)
    ensures Feed(p, b, alloc).state == if a == 0 && b == 0 then NoAnswers else if !alloc then AllocFailed else HeaderNs
  {
    hide Parser.Contents, Blanks;
  }

  lemma PastCount(p: Parser, c: byte, alloc: bool)
    requires p.Valid() && !p.BeforeCount()
    ensures var q := Feed(p, c, alloc); !q.BeforeCount() && (q.state == NoAnswers <==> p.state == NoAnswers)
                                        && (q.state == AllocFailed <==> p.state == AllocFailed)
  {
    hide FeedHeader, FeedQuestion, FeedName, FeedFixed, FeedRdata, Parser.Contents;
    if p.BeforeAnswers() {
      QuestionFrame(p, c);
    } else if p.InAnswers() {
      AnswersGoOn(p, c);
    }
  }

  lemma AnswersGoOn(p: Parser, c: byte)
    requires p.Valid() && p.InAnswers()
    ensures p.InName() ==> FeedName(p, c).InAnswers()
    ensures p.InFixed() ==> FeedFixed(p, c).InAnswers() || FeedFixed(p, c).state == Failed
    ensures p.InRdata() ==> FeedRdata(p, c).InAnswers() || FeedRdata(p, c).state == Done
  {
    hide Parser.Contents, SetCur, PutName, FinishIpv4, Decimal, StorePointer;
    CurOk(p);
  }

  /** Whatever the input: there are no answers exactly when eight bytes have been read and the last two of them
      are zero, and memory has failed exactly when they are not both zero and there was none. */
  lemma {:induction false} CountDecides(s: seq<byte>, alloc: bool)
    ensures var p := FeedAll(Init(), s, alloc);
            && (p.BeforeCount() <==> |s| < 8)
            && (p.state == NoAnswers <==> |s| >= 8 && s[6] == 0 && s[7] == 0)
            && (p.state == AllocFailed <==> |s| >= 8 && !(s[6] == 0 && s[7] == 0) && !alloc)
    decreases |s|
  {
    hide Feed, Parser.Valid;
    if |s| < 8 {
      HeaderBytes(s, alloc);
    } else {
      var t, c := s[..|s| - 1], s[|s| - 1];
      FeedAllSnoc(Init(), s, alloc);
      if |s| == 8 {
        HeaderBytes(t, alloc);
        CountByte(FeedAll(Init(), t, alloc), s[6], c, alloc);
      } else {
        CountDecides(t, alloc);
        PastCount(FeedAll(Init(), t, alloc), c, alloc);
      }
    }
  }
}
