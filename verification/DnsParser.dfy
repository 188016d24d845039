/** The DNS response parser as the object that is fed byte by byte. */
module DnsParser {
  import opened Bytes
  import opened Dns

  class ResponseParser {
    var state: State
    var i: nat
    var n: nat
    var id: u16
    var flags: Flags
    var qd: u16
    var an: u16
    var ns: u16
    var ar: u16
    const qname: array<byte>
    var qnameSize: byte
    var qtype: u16
    var qclass: u16
    var answers: array?<Answer>
    var index: nat

    ghost function View(): Parser
      reads this, qname, answers
    {
      Parser(state, i, n, id, flags, qd, an, ns, ar, qname[..], qnameSize, qtype, qclass,
             if answers == null then None else Some(answers[..]), index)
    }

    ghost predicate Valid()
      reads this, qname, answers
    {
      View().Valid()
    }

    /** `doh_response_parser_init` */
    constructor ()
      ensures Valid() && View() == Init() && fresh(qname)
    {
      state, i, n, id, qd, an, ns, ar := HeaderId, 0, 2, 0, 0, 0, 0, 0;
      flags := Flags(0, 0, 0, 0, 0, 0, 0, 0);
      qname := new byte[256](_ => 0);
      qnameSize, qtype, qclass, answers, index := 0, 0, 0, null, 0;
      new;
      assert qname[..] == Zeros(256);
    }

    /** `doh_response_parser_destroy` */
    method Free()
      modifies `answers
      ensures View() == Destroy(old(View()))
    {
      answers := null;
    }

    /** `doh_response_parser_feed` */
    method FeedByte(c: byte, alloc: bool)
      requires Valid()
      modifies this, qname, answers
      ensures Valid() && View() == Feed(old(View()), c, alloc)
      ensures answers == old(answers) || fresh(answers)
    {
      hide Parser.Valid, FeedHeader, FeedQuestion, FeedName, FeedFixed, FeedRdata;
      ghost var p := View();
      FeedKeepsValid(p, c, alloc);
      if state == HeaderId || state == HeaderFlags || state == HeaderQd || state == HeaderAn {
        FeedHeaderByte(c, alloc);
      } else if state == HeaderNs || state == HeaderAr || state == QLength || state == QLabel || state == QType || state == QClass {
        FeedQuestionByte(c);
      } else if state == NameLength || state == NameLabel || state == NamePointer {
        FeedNameByte(c);
      } else if state == AnswerType || state == AnswerClass || state == AnswerTtl || state == AnswerRdLength {
        FeedFixedByte(c);
      } else if state == Ipv4Rdata || state == Ipv6Rdata || state == CnameLabel || state == CnameLength || state == CnamePointer {
        FeedRdataByte(c);
      }
    }

    method FeedHeaderByte(c: byte, alloc: bool)
      requires Valid() && View().BeforeCount()
      modifies `state, `i, `n, `id, `flags, `qd, `an, `answers
      ensures View() == FeedHeader(old(View()), c, alloc)
      ensures answers == old(answers) || fresh(answers)
    {
      hide Blanks, FlagsHigh, FlagsLow, High, AddLow;
      if state == HeaderId {
        if i == 0 { i, id := 1, High(c); }
        else { i, n, id, state := 0, 2, AddLow(id, c), HeaderFlags; }
      } else if state == HeaderFlags {
        if i == 0 { i, flags := 1, FlagsHigh(flags, c); }
        else { i, n, flags, state := 0, 2, FlagsLow(flags, c), HeaderQd; }
      } else if state == HeaderQd {
        if i == 0 { i, qd := 1, High(c); }
        else { i, n, qd, state := 0, 2, AddLow(qd, c), HeaderAn; }
      } else {
        FeedCountByte(c, alloc);
      }
    }

    /** ANCOUNT: the answer array is allocated, zeroed. */
    method FeedCountByte(c: byte, alloc: bool)
      requires Valid() && state == HeaderAn
      modifies `state, `i, `n, `an, `answers
      ensures View() == FeedCount(old(View()), c, alloc)
      ensures answers == old(answers) || fresh(answers)
    {
      hide High, AddLow, Blank;
      if i == 0 {
        i, an := 1, High(c);
      } else {
        an := AddLow(an, c);
        i, n := 0, 2;
        if an == 0 {
          state := NoAnswers;
        } else if !alloc {
          state := AllocFailed;
        } else {
          var zeroed := new Answer[an](_ => Blank());
          answers := zeroed;
          state := HeaderNs;
          assert answers[..] == Blanks(an);
        }
      }
    }

    method FeedQuestionByte(c: byte)
      requires Valid() && View().BeforeAnswers()
      modifies `state, `i, `n, `ns, `ar, `qnameSize, `qtype, `qclass, qname
      ensures View() == FeedQuestion(old(View()), c)
    {
      hide High, AddLow, LabelByte, Parser.Array, AllOk, BlankFrom;
      if state == HeaderNs {
        if i == 0 { i, ns := 1, High(c); }
        else { i, n, ns, state := 0, 2, AddLow(ns, c), HeaderAr; }
      } else if state == HeaderAr {
        if i == 0 { i, ar := 1, High(c); }
        else { ar, state := AddLow(ar, c), QLength; }
      } else if state == QLength {
        if c == 0 { i, n, state := 0, 2, QType; }
        else { i, n, state := 0, c, QLabel; }
      } else if state == QLabel {
        FeedQLabelByte(c);
      } else if state == QType {
        if i == 0 { i, qtype := 1, High(c); }
        else { i, n, qtype, state := 0, 2, AddLow(qtype, c), QClass; }
      } else {
        if i == 0 { i, qclass := 1, High(c); }
        else { i, qclass, state := 0, AddLow(qclass, c), NameLength; }
      }
    }

    method FeedQLabelByte(c: byte)
      requires qname.Length == 256 && i < n
      modifies `state, `i, `qnameSize, qname
      ensures View() == LabelByte(old(View()), c)
    {
      hide Inc8;
      qname[qnameSize] := c;
      i, qnameSize := i + 1, Inc8(qnameSize);
      if i == n {
        qname[qnameSize] := DOT;
        qnameSize, state := Inc8(qnameSize), QLength;
      }
    }

    /** The entry being filled, rewritten. */
    method SetCurrent(a: Answer)
      requires answers != null && index < answers.Length
      modifies answers
      ensures View() == SetCur(old(View()), a)
    {
      answers[index] := a;
    }

    method FeedNameByte(c: byte)
      requires Valid() && View().InName()
      modifies `state, `i, `n, answers
      ensures View() == FeedName(old(View()), c)
    {
      hide Parser.Contents, SetCur, FeedNameLabel, StorePointer;
      CurOk(View());
      var a := answers[index];
      if state == NameLength {
        if c == 0 {
          i, n, state := 0, 2, AnswerType;
        } else if c / 64 == 3 {
          SetCurrent(a.(offset := c % 64 * 256));
          i, n, state := 1, 2, NamePointer;
        } else {
          i, n, state := 0, c, NameLabel;
        }
      } else if state == NameLabel {
        FeedNameLabelByte(c);
      } else {
        SetCurrent(StorePointer(a).(offset := a.offset + c));
        i, n, state := 0, 2, AnswerType;
      }
    }

    method FeedNameLabelByte(c: byte)
      requires answers != null && index < answers.Length && i < n && answers[index].Ok()
      modifies `state, `i, answers
      ensures View() == FeedNameLabel(old(View()), c)
    {
      hide SetCur;
      var a := answers[index];
      if i + 1 == n {
        SetCurrent(PutName(PutName(a, c), DOT));
        state := NameLength;
      } else {
        SetCurrent(PutName(a, c));
      }
      i := i + 1;
    }

    method FeedFixedByte(c: byte)
      requires Valid() && View().InFixed()
      modifies `state, `i, `n, answers
      ensures View() == FeedFixed(old(View()), c)
    {
      hide Parser.Contents, SetCur, FeedType, FeedClass, FeedTtl, FeedRdLength;
      if state == AnswerType {
        FeedTypeByte(c);
      } else if state == AnswerClass {
        FeedClassByte(c);
      } else if state == AnswerTtl {
        FeedTtlByte(c);
      } else {
        FeedRdLengthByte(c);
      }
    }

    method FeedTypeByte(c: byte)
      requires answers != null && index < answers.Length && i <= 1
      modifies `state, `i, `n, answers
      ensures View() == FeedType(old(View()), old(answers[index]), c)
    {
      hide SetCur;
      var a := answers[index];
      if i == 0 {
        SetCurrent(a.(kind := c * 256));
        i := 1;
      } else {
        SetCurrent(a.(kind := a.kind + c));
        i, n, state := 0, 2, AnswerClass;
      }
    }

    method FeedClassByte(c: byte)
      requires answers != null && index < answers.Length && i <= 1
      modifies `state, `i, `n, answers
      ensures View() == FeedClass(old(View()), old(answers[index]), c)
    {
      hide SetCur;
      var a := answers[index];
      if i == 0 {
        SetCurrent(a.(rrClass := c * 256));
        i := 1;
      } else {
        SetCurrent(a.(rrClass := a.rrClass + c));
        i, n, state := 0, 4, AnswerTtl;
      }
    }

    method FeedTtlByte(c: byte)
      requires answers != null && index < answers.Length && i <= 3
      modifies `state, `i, `n, answers
      ensures View() == FeedTtl(old(View()), old(answers[index]), c)
    {
      hide SetCur;
      var a := answers[index];
      if i == 0 {
        SetCurrent(a.(ttl := c * 0x100_0000));
        i := 1;
      } else if i == 1 {
        SetCurrent(a.(ttl := a.ttl + c * 0x1_0000));
        i := 2;
      } else if i == 2 {
        SetCurrent(a.(ttl := a.ttl + c * 0x100));
        i := 3;
      } else {
        SetCurrent(a.(ttl := a.ttl + c));
        i, n, state := 0, 2, AnswerRdLength;
      }
    }

    /** The record type decides how the data is read; an unsupported one is the only failure. */
    method FeedRdLengthByte(c: byte)
      requires answers != null && index < answers.Length && i <= 1
      modifies `state, `i, `n, answers
      ensures View() == FeedRdLength(old(View()), old(answers[index]), c)
    {
      hide SetCur;
      var a := answers[index];
      if i == 0 {
        SetCurrent(a.(rdLength := c * 256));
        i := 1;
      } else {
        SetCurrent(a.(rdLength := a.rdLength + c));
        i := 0;
        if a.kind == IPV4_TYPE { n, state := 4, Ipv4Rdata; }
        else if a.kind == IPV6_TYPE { n, state := 16, Ipv6Rdata; }
        else if a.kind == CNAME_TYPE { n, state := 255, CnameLength; }
        else { state := Failed; }
      }
    }

    method FeedRdataByte(c: byte)
      requires Valid() && View().InRdata()
      modifies `state, `i, `n, `index, answers
      ensures View() == FeedRdata(old(View()), c)
    {
      hide Parser.Contents, SetCur, FeedIpv4;
      CurOk(View());
      if state == Ipv4Rdata {
        FeedIpv4Byte(c);
      } else if state == Ipv6Rdata {
        var a := answers[index];
        SetCurrent(a.(ip := a.ip[i := c]));
        i := i + 1;
        if i == n { EndAnswer(); }
      } else if state == CnameLength {
        if c == 0 { EndAnswer(); }
        else if c / 64 == 3 { i, n, state := 1, 2, CnamePointer; }
        else { i, n, state := 0, c, CnameLabel; }
      } else if state == CnameLabel {
        i := i + 1;
        if i == n { state := CnameLength; }
      } else {
        i := 0;
        EndAnswer();
      }
    }

    method FeedIpv4Byte(c: byte)
      requires answers != null && index < answers.Length && i < n && answers[index].Ok()
      modifies `state, `i, `index, answers
      ensures View() == FeedIpv4(old(View()), c)
    {
      hide SetCur, FinishIpv4, Decimal;
      var a := answers[index];
      var text := a.text + Decimal(c) + [DOT];
      SetCurrent(if i + 1 == n then FinishIpv4(a, text) else a.(text := text));
      i := i + 1;
      if i == n {
        EndAnswer();
      }
    }

    method EndAnswer()
      modifies `state, `index
      ensures View() == NextAnswer(old(View()))
    {
      index := index + 1;
      state := if index == an then Done else NameLength;
    }
  }
}
