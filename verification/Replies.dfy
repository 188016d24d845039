/** The replies the proxy itself sends, in the grammar of status lines. */
module Replies {
  import opened Bytes
  import StatusLine
  import DohQuery
  import opened Machine
  import opened Invariant

  /** A status line of version 1.0 and an empty header section. */
  function Reply(code: nat, reason: string): seq<byte>
    requires StatusLine.Line(1, 0, code, DohQuery.Ascii(reason)).Printable()
  {
    StatusLine.Print(StatusLine.Line(1, 0, code, DohQuery.Ascii(reason))) + [CR, LF]
  }

  lemma DecimalOfThree(code: nat)
    requires 100 <= code < 1000
    ensures Decimal(code) == [ZERO + code / 100, ZERO + code / 10 % 10, ZERO + code % 10]
  {
    assert code / 10 / 10 == code / 100 < 10;
    assert Decimal(code / 100) == [ZERO + code / 100];
    assert Decimal(code / 10) == Decimal(code / 10 / 10) + [ZERO + code / 10 % 10];
    assert Decimal(code) == Decimal(code / 10) + [ZERO + code % 10];
  }

  lemma VersionText()
    ensures DohQuery.Ascii("HTTP/1.0 ") == StatusLine.HTTP_SLASH + [ZERO + 1, DOT, ZERO, SP]
  {
  }

  /** What `sprintf` writes is a printed status line and an empty header section. */
  lemma StatusTextPrinted(code: nat, reason: string)
    requires 100 <= code && StatusLine.Line(1, 0, code, DohQuery.Ascii(reason)).Printable()
    ensures StatusText(code, reason) == Reply(code, reason)
  {
    hide Decimal, DohQuery.Ascii;
    DecimalOfThree(code);
    VersionText();
  }

  /** The reply to CONNECT once the origin is there. */
  function OkReply(): seq<byte> { OkPrintable(); Reply(200, "OK") }

  lemma OkPrintable()
    ensures StatusLine.Line(1, 0, 200, DohQuery.Ascii("OK")).Printable()
  {
  }

  lemma OkLineIs()
    ensures OK_LINE == OkReply()
  {
    hide StatusText, DohQuery.Ascii;
    OkPrintable();
    StatusTextPrinted(200, "OK");
  }

  /** The reason given with each error code. */
  function Reason(code: nat): string
    requires ErrorCode(code)
  {
    if code == 400 then "BAD REQUEST" else if code == 500 then "INTERNAL SERVER ERROR" else if code == 501 then "NOT IMPLEMENTED"
    else if code == 502 then "BAD GATEWAY" else "HTTP VERSION NOT SUPPORTED"
  }

  lemma ReasonPrintable(code: nat)
    requires ErrorCode(code)
    ensures StatusLine.Line(1, 0, code, DohQuery.Ascii(Reason(code))).Printable()
  {
  }

  function ErrorReply(code: nat): seq<byte>
    requires ErrorCode(code)
  {
    ReasonPrintable(code);
    Reply(code, Reason(code))
  }

  lemma ErrorTextIs(code: nat)
    requires ErrorCode(code)
    ensures StatusText(code, ReasonPhrase(code)) == ErrorReply(code)
  {
    hide StatusText, DohQuery.Ascii;
    ReasonPrintable(code);
    StatusTextPrinted(code, Reason(code));
  }

  /** A client that reads an error reply with the proxy's own parser finds the code in it. */
  lemma ErrorReplyCode(code: nat)
    requires ErrorCode(code)
    ensures |ErrorReply(code)| >= 2
    ensures var p := StatusLine.FeedAll(StatusLine.Init(), ErrorReply(code)[..|ErrorReply(code)| - 2]);
            p.state == StatusLine.Done && p.code == code && p.major == 1 && p.minor == 0
  {
    hide StatusLine.FeedAll, StatusLine.Print, DohQuery.Ascii;
    ReasonPrintable(code);
    var l := StatusLine.Line(1, 0, code, DohQuery.Ascii(Reason(code)));
    StatusLine.RoundTrip(l);
    var s := StatusLine.Print(l);
    assert (s + [CR, LF])[..|s|] == s;
  }
}
