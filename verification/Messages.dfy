/**
 * castd/wfdsink/rtsp.py: every message the sink writes, as the text the negotiator builds
 * and as the bytes that go on the wire, and the proof that an RTSP reader on the other side
 * cuts those bytes back into the same messages.
 */
module Messages {
  import opened Prelude
  import opened Text
  import opened Framing

  // ----- UTF-8, as str.encode() -----

  function Utf8(c: char): (r: string)
    ensures if c < '\U{80}' then r == [c] else |r| >= 2
  {
    var n := c as int;
    if n < 0x80 then [c]
    else if n < 0x800 then [Byte(0xC0 + n / 0x40), Byte(0x80 + n % 0x40)]
    else if n < 0x1_0000 then
      [Byte(0xE0 + n / 0x1000), Byte(0x80 + n / 0x40 % 0x40), Byte(0x80 + n % 0x40)]
    else
      [Byte(0xF0 + n / 0x4_0000), Byte(0x80 + n / 0x1000 % 0x40), Byte(0x80 + n / 0x40 % 0x40), Byte(0x80 + n % 0x40)]
  }

  /** The payload of byte k, less its marker bits. */
  function Payload(s: string, k: nat, marker: int): int
    requires k < |s|
  {
    s[k] as int - marker
  }

  /** The number a UTF-8 sequence encodes. */
  function Utf8Value(s: string): int {
    if |s| == 1 then Payload(s, 0, 0)
    else if |s| == 2 then Payload(s, 0, 0xC0) * 0x40 + Payload(s, 1, 0x80)
    else if |s| == 3 then Payload(s, 0, 0xE0) * 0x1000 + Payload(s, 1, 0x80) * 0x40 + Payload(s, 2, 0x80)
    else if |s| == 4 then
      Payload(s, 0, 0xF0) * 0x4_0000 + Payload(s, 1, 0x80) * 0x1000 + Payload(s, 2, 0x80) * 0x40 + Payload(s, 3, 0x80)
    else -1
  }

  lemma SixBitDigits(n: nat)
    ensures n == n / 0x40 * 0x40 + n % 0x40
    ensures n == n / 0x1000 * 0x1000 + n / 0x40 % 0x40 * 0x40 + n % 0x40
    ensures n == n / 0x4_0000 * 0x4_0000 + n / 0x1000 % 0x40 * 0x1000 + n / 0x40 % 0x40 * 0x40 + n % 0x40
  {
    assert n / 0x1000 == n / 0x40 / 0x40;
    assert n / 0x4_0000 == n / 0x1000 / 0x40;
  }

  /** A character's bytes decode to it. */
  lemma Utf8Decodes(c: char)
    ensures Utf8Value(Utf8(c)) == c as int
  {
    SixBitDigits(c as int);
  }

  function Byte(n: nat): char
    requires n < 0x100
  {
    n as char
  }

  function Encode(s: string): (r: string)
  {
    if s == "" then "" else Utf8(s[0]) + Encode(s[1..])
  }

  lemma {:induction false} EncodeAscii(s: string)
    requires IsAscii(s)
    ensures Encode(s) == s
  {
    if s != "" {
      EncodeAscii(s[1..]);
    }
  }

  lemma {:induction false} EncodeAppend(a: string, b: string)
    ensures Encode(a + b) == Encode(a) + Encode(b)
  {
    if a == "" {
      assert a + b == b;
    } else {
      assert (a + b)[1..] == a[1..] + b;
      EncodeAppend(a[1..], b);
    }
  }

  /** A text takes one byte per character exactly when it is ASCII. */
  lemma {:induction false} EncodeLength(s: string)
    ensures |Encode(s)| >= |s|
    ensures |Encode(s)| == |s| <==> IsAscii(s)
  {
    if s != "" {
      EncodeLength(s[1..]);
      assert IsAscii(s) <==> s[0] < '\U{80}' && IsAscii(s[1..]) by {
        assert forall k | 0 <= k < |s| - 1 :: s[1..][k] == s[k + 1];
        if s[0] < '\U{80}' && IsAscii(s[1..]) {
          forall k | 0 <= k < |s| ensures s[k] < '\U{80}' {
            if k > 0 {
              assert s[1..][k - 1] == s[k];
            }
          }
        }
      }
    }
  }

  // ----- header blocks -----

  /** Header lines, each ended by CRLF. */
  function Lines(lines: seq<string>): string
  {
    if lines == [] then "" else lines[0] + CRLF + Lines(lines[1..])
  }

  /** A whole header block, blank line included. */
  function Head(lines: seq<string>): string { Lines(lines) + CRLF }

  /** A line that cannot disturb framing: ASCII, no line break, and no '-' (so no Content-Length). */
  predicate Plain(line: string) {
    && line != ""
    && forall k | 0 <= k < |line| :: line[k] < '\U{80}' && line[k] != '\r' && line[k] != '\n' && line[k] != '-'
  }

  predicate AllPlain(lines: seq<string>) { forall k | 0 <= k < |lines| :: Plain(lines[k]) }

  predicate Breakless(line: string) {
    line != "" && forall k | 0 <= k < |line| :: line[k] != '\r' && line[k] != '\n'
  }

  lemma FindShift(pre: string, t: string, pat: string)
    requires Find(t, pat).Some?
    requires forall j | 0 <= j < |pre| :: !MatchAt(pre + t, j, pat)
    ensures Find(pre + t, pat) == Some(|pre| + Find(t, pat).value)
  {
    var p := Find(t, pat).value;
    var s := pre + t;
    FindSpec(t, pat);
    assert s[|pre| + p..|pre| + p + |pat|] == t[p..p + |pat|];
    forall j | |pre| <= j < |pre| + p ensures !MatchAt(s, j, pat) {
      assert !MatchAt(t, j - |pre|, pat);
      if j + |pat| <= |s| {
        assert s[j..j + |pat|] == t[j - |pre|..j - |pre| + |pat|];
      }
    }
    FindIs(s, pat, |pre| + p);
  }

  lemma NoBlankWithin(line: string, t: string)
    requires Breakless(line) && t != "" && t[0] != '\r'
    ensures forall j | 0 <= j < |line| + 2 :: !MatchAt(line + CRLF + t, j, BLANK)
  {
    var s := line + CRLF + t;
    assert forall j | 0 <= j < |line| :: s[j] == line[j];
    assert s[|line| + 1] == '\n' && s[|line| + 2] == t[0];
    forall j | 0 <= j < |line| + 2 ensures !MatchAt(s, j, BLANK) {
      if j + 4 <= |s| {
        assert s[j..j + 4][0] == s[j] && s[j..j + 4][2] == s[j + 2];
      }
    }
  }

  /** The first blank line of a header block is its end. */
  lemma {:induction false} BlankEndsHead(lines: seq<string>, rest: string)
    requires lines != [] && forall k | 0 <= k < |lines| :: Breakless(lines[k])
    ensures |Head(lines)| >= 4
    ensures Find(Head(lines) + rest, BLANK) == Some(|Head(lines)| - 4)
  {
    hide Find;
    var l, more := lines[0], lines[1..];
    if more == [] {
      assert Lines(more) == "";
      var s := l + BLANK + rest;
      forall j | 0 <= j < |l| ensures !MatchAt(s, j, BLANK) {
        assert s[j] == l[j];
        if j + 4 <= |s| {
          assert s[j..j + 4][0] == s[j];
        }
      }
      assert s[|l|..|l| + 4] == BLANK;
      FindIs(s, BLANK, |l|);
      assert Head(lines) == l + CRLF + "" + CRLF;
      assert Head(lines) + rest == s;
    } else {
      BlankEndsHead(more, rest);
      var t := Head(more) + rest;
      assert t[0] == more[0][0];
      NoBlankWithin(l, t);
      FindShift(l + CRLF, t, BLANK);
      assert Head(lines) + rest == l + CRLF + t;
    }
  }

  /** A '-' in the key: a header block without one declares no length. */
  lemma NoDashNoLength(s: string)
    requires forall k | 0 <= k < |s| :: s[k] != '-'
    ensures BodyLength(s) == Some(0)
  {
    forall j: nat ensures !FieldAt(s, j, CONTENT_LENGTH) {
      assert KeyAt(s, j, CONTENT_LENGTH) ==> Lower(s[j + 7]) == Lower(CONTENT_LENGTH.key[7]);
    }
    FieldNone(s, CONTENT_LENGTH);
  }

  lemma {:induction false} PlainLines(lines: seq<string>)
    requires AllPlain(lines)
    ensures var s := Lines(lines); IsAscii(s) && forall k | 0 <= k < |s| :: s[k] != '-'
  {
    if lines != [] {
      PlainLines(lines[1..]);
    }
  }

  /** A message whose header block declares no body is exactly the first frame of its bytes and anything after. */
  lemma BodilessFrames(lines: seq<string>, rest: string)
    requires lines != [] && forall k | 0 <= k < |lines| :: Breakless(lines[k])
    requires IsAscii(Head(lines)) && BodyLength(Head(lines)) == Some(0)
    ensures Encode(Head(lines)) == Head(lines)
    ensures FirstFrame(Head(lines) + rest) == Complete(|Head(lines)|)
  {
    hide Find, BodyLength;
    EncodeAscii(Head(lines));
    BlankEndsHead(lines, rest);
    assert (Head(lines) + rest)[..|Head(lines)|] == Head(lines);
  }

  /** So is one built from plain lines. */
  lemma PlainHeadFrames(lines: seq<string>, rest: string)
    requires lines != [] && AllPlain(lines)
    ensures Encode(Head(lines)) == Head(lines)
    ensures FirstFrame(Head(lines) + rest) == Complete(|Head(lines)|)
  {
    hide Find, BodyLength;
    PlainLines(lines);
    forall k | 0 <= k < |lines| ensures Breakless(lines[k]) {
      assert Plain(lines[k]);
    }
    NoDashNoLength(Head(lines));
    BodilessFrames(lines, rest);
  }

  /**
   * Text between two slashes cannot be part of a longer key: with none inside it, and none of the
   * key's n-th character around it, no key lies across it.
   */
  lemma KeyStaysApart(a: string, mid: string, b: string, c: string, j: nat, p: FieldPattern, n: nat)
    requires n < |p.key| && j + n < |a| + |mid| + |b|
    requires a != "" && a[|a| - 1] == '/' && b != "" && b[0] == '/'
    requires forall k | 0 <= k < |p.key| :: p.key[k] != '/'
    requires forall k | 0 <= k < |a| :: Lower(a[k]) != Lower(p.key[n])
    requires forall k | 0 <= k < |b| :: Lower(b[k]) != Lower(p.key[n])
    requires forall i | 0 <= i < |mid| :: !KeyAt(mid, i, p)
    ensures !KeyAt(a + mid + b + c, j, p)
  {
    var s := a + mid + b + c;
    var x, before, after := j + n, |a| - 1, |a| + |mid|;
    assert forall k | 0 <= k < |a| :: s[k] == a[k];
    assert forall k | after <= k < after + |b| :: s[k] == b[k - after];
    if |a| <= j && j + |p.key| <= after {
      KeyShift(s, mid, |a|, j - |a|, p);
    } else {
      assert KeyAt(s, j, p) ==> Lower(s[x]) == Lower(p.key[n]);
      if j <= before < x {
        NoSlashInKey(s, j, before, p);
      }
      if x < after < j + |p.key| {
        NoSlashInKey(s, j, after, p);
      }
    }
  }

  lemma NoSlashInKey(s: string, j: nat, x: nat, p: FieldPattern)
    requires j <= x < j + |p.key| && x < |s| && s[x] == '/'
    requires forall k | 0 <= k < |p.key| :: p.key[k] != '/'
    ensures !KeyAt(s, j, p)
  {
    assert KeyAt(s, j, p) ==> Lower(s[j + (x - j)]) == Lower(p.key[x - j]);
  }

  /** A key found in a part of a text is found in that part alone. */
  lemma KeyShift(s: string, part: string, at: nat, i: nat, p: FieldPattern)
    requires at + |part| <= |s| && s[at..at + |part|] == part && i + |p.key| <= |part|
    ensures KeyAt(s, at + i, p) ==> KeyAt(part, i, p)
  {
  }

  // ----- the sink's messages -----

  /** Everything the negotiator can emit, M1 to M7 and the acknowledgements. */
  datatype SinkMessage =
    | OptionsReply(cseq: string)                     // M1
    | OptionsRequest(n: nat)                         // M2
    | CapabilityReply(cseq: string, body: string)    // M3
    | Ack(cseq: string)                              // M4, M5, M16
    | SetupRequest(ip: string, n: nat, rtpPort: nat) // M6
    | PlayRequest(ip: string, n: nat, session: string) // M7

  const OK_LINE := "RTSP/1.0 200 OK"

  function CseqLine(digits: string): string { "CSeq: " + digits }

  function StreamUrl(ip: string): string { "rtsp://" + ip + "/wfd1.0/streamid=0" }

  function CapabilityHead(cseq: string, length: nat): string {
    Lines([OK_LINE, CseqLine(cseq)]) + ContentType() + CONTENT_LENGTH.key + " " + Decimal(length) + BLANK
  }

  function ContentType(): string { "Content-Type: text/parameters" + CRLF }

  function PlainText(m: SinkMessage): (lines: seq<string>)
    requires !m.CapabilityReply?
    ensures lines != []
  {
    match m
    case OptionsReply(c) =>
      [OK_LINE, CseqLine(c), "Public: org.wfa.wfd1.0" + ", SET_PARAMETER, GET_PARAMETER"]
    case OptionsRequest(n) =>
      ["OPTIONS * RTSP/1.0", CseqLine(Decimal(n)), "Require: org.wfa.wfd1.0"]
    case Ack(c) =>
      [OK_LINE, CseqLine(c)]
    case SetupRequest(ip, n, port) =>
      ["SETUP " + StreamUrl(ip) + " RTSP/1.0", CseqLine(Decimal(n)),
       "Transport: RTP/AVP/UDP;unicast;client_port=" + Decimal(port)]
    case PlayRequest(ip, n, id) =>
      ["PLAY " + StreamUrl(ip) + " RTSP/1.0", CseqLine(Decimal(n)), "Session: " + id]
  }

  /** The text handed to str.encode(). */
  function Print(m: SinkMessage): string {
    if m.CapabilityReply? then CapabilityHead(m.cseq, |m.body|) + m.body
    else Head(PlainText(m))
  }

  /** Any address: ASCII, on one line, and not itself spelling out a length header. */
  predicate IsHost(ip: string) {
    && (forall k | 0 <= k < |ip| :: ip[k] < '\U{80}' && ip[k] != '\r' && ip[k] != '\n')
    && forall j | 0 <= j < |ip| :: !AnyCaseAt(ip, j, "content-length:")
  }

  /** What the negotiator puts in the variable parts (see Session.TranscriptShaped). */
  predicate Shaped(m: SinkMessage) {
    match m
    case OptionsReply(c) => AllBody(c, Digits)
    case OptionsRequest(n) => true
    case CapabilityReply(c, body) => AllBody(c, Digits)
    case Ack(c) => AllBody(c, Digits)
    case SetupRequest(ip, n, port) => IsHost(ip)
    case PlayRequest(ip, n, id) => IsHost(ip) && AllBody(id, IdChars)
  }

  /** The only way for a shaped message to go wrong is a length line that miscounts its body. */
  predicate Emittable(m: SinkMessage) {
    Shaped(m) && (m.CapabilityReply? ==> CountedRight(m.body))
  }

  /** The length line counts characters, so it is right only for a body of one-byte characters. */
  predicate CountedRight(body: string) {
    IsAscii(body) && |Decimal(|body|)| <= MAX_INT_DIGITS
  }

  lemma PlainAppend(a: string, b: string)
    requires Plain(a) && (b == "" || Plain(b))
    ensures Plain(a + b)
  {
  }

  lemma PlainBody(s: string, b: Body)
    requires AllBody(s, b)
    ensures Plain(s)
  {
    forall k | 0 <= k < |s| ensures s[k] < '\U{80}' && s[k] != '\r' && s[k] != '\n' && s[k] != '-' {
      assert InBody(s[k], b);
    }
  }

  lemma FixedRequestText()
    ensures Plain("rtsp://") && Plain("/wfd1.0/streamid=0") && Plain(" RTSP/1.0")
    ensures Plain("SETUP ") && Plain("PLAY ") && Plain("Session: ") && Plain("CSeq: ")
  {
  }

  lemma FixedTransportText()
    ensures Plain("Transport: RTP/AVP/UDP;unicast;client_port=")
  {
  }

  lemma FixedOptionsText()
    ensures Plain(OK_LINE) && Plain("Public: org.wfa.wfd1.0") && Plain(", SET_PARAMETER, GET_PARAMETER")
    ensures Plain("OPTIONS * RTSP/1.0") && Plain("Require: org.wfa.wfd1.0")
  {
  }

  lemma CseqPlain(digits: string)
    requires AllBody(digits, Digits)
    ensures Plain(CseqLine(digits))
  {
    FixedRequestText();
    hide Plain;
    PlainBody(digits, Digits);
    PlainAppend("CSeq: ", digits);
  }

  lemma FixedUrlText()
    ensures var tail := "/wfd1.0/streamid=0" + " RTSP/1.0" + CRLF;
            IsAscii(tail) && forall k | 0 <= k < |tail| :: tail[k] != '-'
  {
  }

  /** A request to any address declares no length. */
  lemma RequestDeclaresNothing(verb: string, ip: string, more: seq<string>)
    requires Plain(verb) && IsHost(ip) && AllPlain(more)
    ensures var s := verb + StreamUrl(ip) + " RTSP/1.0" + CRLF + Lines(more) + CRLF;
            IsAscii(s) && BodyLength(s) == Some(0)
  {
    FixedUrlText();
    FixedRequestText();
    PlainLines(more);
    RequestText(verb, ip, Lines(more));
    hide Lines, KeyAt, AnyCaseAt, SkipSpaces, StreamUrl;
    forall j | 0 <= j < |ip| ensures !KeyAt(ip, j, CONTENT_LENGTH) {
      LengthKey(ip, j);
    }
    var a, b := verb + "rtsp://", "/wfd1.0/streamid=0" + " RTSP/1.0" + CRLF + Lines(more) + CRLF;
    var s := verb + StreamUrl(ip) + " RTSP/1.0" + CRLF + Lines(more) + CRLF;
    forall j: nat ensures !FieldAt(s, j, CONTENT_LENGTH) {
      if j + 7 < |s| {
        KeyStaysApart(a, ip, b, "", j, CONTENT_LENGTH, 7);
      } else {
        KeyEndsInside(s, j, CONTENT_LENGTH);
      }
    }
    FieldNone(s, CONTENT_LENGTH);
  }

  lemma RequestText(verb: string, ip: string, more: string)
    ensures verb + StreamUrl(ip) + " RTSP/1.0" + CRLF + more + CRLF ==
              (verb + "rtsp://") + ip + ("/wfd1.0/streamid=0" + " RTSP/1.0" + CRLF + more + CRLF) + ""
  {
  }

  lemma KeyEndsInside(s: string, j: nat, p: FieldPattern)
    ensures KeyAt(s, j, p) ==> j + |p.key| <= |s|
  {
  }

  lemma RequestLineBreakless(verb: string, ip: string)
    requires Plain(verb) && IsHost(ip)
    ensures Breakless(verb + StreamUrl(ip) + " RTSP/1.0")
  {
    FixedRequestText();
  }

  /** SETUP and PLAY are framed whole, whatever address they name. */
  lemma RequestFrames(verb: string, ip: string, more: seq<string>, rest: string)
    requires Plain(verb) && IsHost(ip) && AllPlain(more)
    ensures var lines := [verb + StreamUrl(ip) + " RTSP/1.0"] + more;
            Encode(Head(lines)) == Head(lines) && FirstFrame(Head(lines) + rest) == Complete(|Head(lines)|)
  {
    hide FirstFrame, BodyLength, StreamUrl, IsHost, IsAscii;
    var first := verb + StreamUrl(ip) + " RTSP/1.0";
    var lines := [first] + more;
    assert lines[1..] == more;
    RequestLineBreakless(verb, ip);
    forall k | 0 <= k < |lines| ensures Breakless(lines[k]) {
      if k > 0 {
        assert Plain(more[k - 1]);
      }
    }
    RequestDeclaresNothing(verb, ip, more);
    assert Head(lines) == first + CRLF + Lines(more) + CRLF;
    BodilessFrames(lines, rest);
  }

  /** Every message without a body is framed whole. */
  lemma PlainTextFrames(m: SinkMessage, rest: string)
    requires !m.CapabilityReply? && Shaped(m)
    ensures var s := Head(PlainText(m)); Encode(s) == s && FirstFrame(s + rest) == Complete(|s|)
  {
    hide Plain, FirstFrame, Encode, Lines, IsHost;
    FixedOptionsText();
    FixedRequestText();
    FixedTransportText();
    match m {
      case OptionsReply(c) =>
        CseqPlain(c);
        PlainAppend("Public: org.wfa.wfd1.0", ", SET_PARAMETER, GET_PARAMETER");
        PlainHeadFrames(PlainText(m), rest);
      case OptionsRequest(n) =>
        CseqPlain(Decimal(n));
        PlainHeadFrames(PlainText(m), rest);
      case Ack(c) =>
        CseqPlain(c);
        PlainHeadFrames(PlainText(m), rest);
      case SetupRequest(ip, n, port) =>
        CseqPlain(Decimal(n));
        PlainBody(Decimal(port), Digits);
        PlainAppend("Transport: RTP/AVP/UDP;unicast;client_port=", Decimal(port));
        RequestFrames("SETUP ", ip, PlainText(m)[1..], rest);
        assert PlainText(m) == [PlainText(m)[0]] + PlainText(m)[1..];
      case PlayRequest(ip, n, id) =>
        CseqPlain(Decimal(n));
        PlainBody(id, IdChars);
        PlainAppend("Session: ", id);
        RequestFrames("PLAY ", ip, PlainText(m)[1..], rest);
        assert PlainText(m) == [PlainText(m)[0]] + PlainText(m)[1..];
    }
  }

  // ----- the one message with a body -----

  /** No Content-Length key starts in `a` or `b`, whose only '-' is followed by a 'T'. */
  lemma NoKeyBefore(a: string, b: string, c: string)
    requires forall k | 0 <= k < |a| :: a[k] != '-'
    requires |b| > 8 && b[8] == 'T' && forall k | 0 <= k < |b| :: b[k] == '-' <==> k == 7
    requires |c| > 7 && forall k | 0 <= k < 7 :: c[k] != '-'
    ensures forall j | 0 <= j < |a| + |b| :: !KeyAt(a + b + c, j, CONTENT_LENGTH)
  {
    var s := a + b + c;
    assert forall k | 0 <= k < |a| :: s[k] == a[k];
    assert forall k | |a| <= k < |a| + |b| :: s[k] == b[k - |a|];
    assert forall k | |a| + |b| <= k < |s| :: s[k] == c[k - |a| - |b|];
    forall j | 0 <= j < |a| + |b| ensures !KeyAt(s, j, CONTENT_LENGTH) {
      assert KeyAt(s, j, CONTENT_LENGTH) ==> Lower(s[j + 7]) == Lower(CONTENT_LENGTH.key[7]);
      assert KeyAt(s, j, CONTENT_LENGTH) ==> Lower(s[j + 8]) == Lower(CONTENT_LENGTH.key[8]);
    }
  }

  lemma CapabilityKeyIsFirst(cseq: string, length: nat)
    requires AllBody(cseq, Digits)
    ensures var pre := Lines([OK_LINE, CseqLine(cseq)]) + ContentType();
            forall j | 0 <= j < |pre| :: !KeyAt(CapabilityHead(cseq, length), j, CONTENT_LENGTH)
  {
    var a, b := Lines([OK_LINE, CseqLine(cseq)]), ContentType();
    var c := CONTENT_LENGTH.key + " " + Decimal(length) + BLANK;
    FixedOptionsText();
    CseqPlain(cseq);
    PlainLines([OK_LINE, CseqLine(cseq)]);
    NoKeyBefore(a, b, c);
    hide KeyAt, ContentType, Lines, CseqLine;
    assert a + b + c == CapabilityHead(cseq, length);
  }

  /** The length line of M3 is what a reader finds: the decimal it printed, read back. */
  lemma CapabilityLength(cseq: string, length: nat)
    requires AllBody(cseq, Digits)
    ensures Field(CapabilityHead(cseq, length), CONTENT_LENGTH) == Some(Decimal(length))
  {
    hide KeyAt, Field, ContentType, Lines, CseqLine;
    CapabilityKeyIsFirst(cseq, length);
    var pre := Lines([OK_LINE, CseqLine(cseq)]) + ContentType();
    assert CapabilityHead(cseq, length) == pre + CONTENT_LENGTH.key + " " + Decimal(length) + BLANK;
    OwnKey(CONTENT_LENGTH);
    FirstFieldIs(pre, CONTENT_LENGTH.key, " ", Decimal(length), BLANK, CONTENT_LENGTH);
  }

  function CapabilityLines(cseq: string, length: nat): seq<string> {
    [OK_LINE, CseqLine(cseq), "Content-Type: text/parameters", CONTENT_LENGTH.key + " " + Decimal(length)]
  }

  lemma CapabilityHeadLines(cseq: string, length: nat)
    ensures CapabilityHead(cseq, length) == Head(CapabilityLines(cseq, length))
  {
    var a, b := OK_LINE, CseqLine(cseq);
    var c, d := "Content-Type: text/parameters", CONTENT_LENGTH.key + " " + Decimal(length);
    calc {
      Lines([a, b, c, d]);
      { assert [a, b, c, d][1..] == [b, c, d]; }
      a + CRLF + Lines([b, c, d]);
      { assert [b, c, d][1..] == [c, d]; }
      a + CRLF + (b + CRLF + Lines([c, d]));
      { assert [c, d][1..] == [d]; }
      a + CRLF + (b + CRLF + (c + CRLF + Lines([d])));
      { assert [d][1..] == []; assert Lines([d]) == d + CRLF + ""; }
      a + CRLF + (b + CRLF + (c + CRLF + (d + CRLF)));
    }
    calc {
      Lines([a, b]);
      { assert [a, b][1..] == [b]; assert [b][1..] == []; assert Lines([b]) == b + CRLF + ""; }
      a + CRLF + (b + CRLF);
    }
    assert BLANK == CRLF + CRLF;
  }

  lemma LengthLineBreakless(length: nat)
    ensures Breakless(CONTENT_LENGTH.key + " " + Decimal(length))
    ensures Breakless("Content-Type: text/parameters")
    ensures IsAscii(CONTENT_LENGTH.key + " " + Decimal(length) + BLANK) && IsAscii(ContentType())
  {
    PlainBody(Decimal(length), Digits);
  }

  lemma CapabilityHeadScan(cseq: string, length: nat, rest: string)
    requires AllBody(cseq, Digits)
    ensures |CapabilityHead(cseq, length)| >= 4
    ensures Find(CapabilityHead(cseq, length) + rest, BLANK) == Some(|CapabilityHead(cseq, length)| - 4)
    ensures Encode(CapabilityHead(cseq, length)) == CapabilityHead(cseq, length)
  {
    hide Find, Lines;
    FixedOptionsText();
    CseqPlain(cseq);
    LengthLineBreakless(length);
    CapabilityHeadLines(cseq, length);
    BlankEndsHead(CapabilityLines(cseq, length), rest);
    PlainLines([OK_LINE, CseqLine(cseq)]);
    var tail := CONTENT_LENGTH.key + " " + Decimal(length) + BLANK;
    assert CapabilityHead(cseq, length) == Lines([OK_LINE, CseqLine(cseq)]) + ContentType() + tail;
    EncodeAscii(CapabilityHead(cseq, length));
  }

  lemma DecimalBodyLength(header: string, n: nat)
    requires Field(header, CONTENT_LENGTH) == Some(Decimal(n))
    ensures BodyLength(header) == if |Decimal(n)| <= MAX_INT_DIGITS then Some(n) else None
  {
    ParseDecimal(n);
  }

  /**
   * The M3 reply is cut out whole from its bytes and whatever follows, exactly when its body
   * is ASCII (and short enough for its length to be printed in 4300 digits): the length line
   * counts characters while the wire carries UTF-8 bytes.
   */
  lemma CapabilityFrames(cseq: string, body: string, rest: string)
    requires AllBody(cseq, Digits)
    ensures var bytes := Encode(Print(CapabilityReply(cseq, body)));
            FirstFrame(bytes + rest) == Complete(|bytes|) <==> CountedRight(body)
  {
    hide Find, Field, Encode, CapabilityHead, BodyLength;
    var head := CapabilityHead(cseq, |body|);
    var bytes := Encode(Print(CapabilityReply(cseq, body)));
    EncodeAppend(head, body);
    EncodeLength(body);
    var s := bytes + rest;
    CapabilityHeadScan(cseq, |body|, Encode(body) + rest);
    assert s == head + (Encode(body) + rest);
    assert s[..|head|] == head;
    CapabilityLength(cseq, |body|);
    DecimalBodyLength(head, |body|);
  }

  /** A shaped message reaches the peer's reader as one message exactly when its length is counted right. */
  lemma SinkMessageFrames(m: SinkMessage, rest: string)
    requires Shaped(m)
    ensures var bytes := Encode(Print(m));
            && (FirstFrame(bytes + rest) == Complete(|bytes|) <==> Emittable(m))
            && (Emittable(m) ==> bytes == Print(m))
  {
    hide FirstFrame, PlainText, CapabilityHead, Lines, IsHost;
    if m.CapabilityReply? {
      CapabilityFrames(m.cseq, m.body, rest);
      CapabilityHeadScan(m.cseq, |m.body|, "");
      EncodeAppend(CapabilityHead(m.cseq, |m.body|), m.body);
      if CountedRight(m.body) {
        EncodeAscii(m.body);
      }
    } else {
      PlainTextFrames(m, rest);
    }
  }

  // ----- the text of every message, line by line -----

  lemma TwoLines(a: string, b: string)
    ensures Head([a, b]) == a + "\r\n" + b + "\r\n" + "\r\n"
  {
    assert [a, b][1..] == [b] && [b][1..] == [];
    assert Lines([b]) == b + CRLF + "";
    assert Lines([a, b]) == a + CRLF + (b + CRLF);
  }

  lemma ThreeLines(a: string, b: string, c: string)
    ensures Head([a, b, c]) == a + "\r\n" + b + "\r\n" + c + "\r\n" + "\r\n"
  {
    TwoLines(b, c);
    assert [a, b, c][1..] == [b, c];
    assert Lines([a, b, c]) == a + CRLF + Lines([b, c]);
    assert a + CRLF + (Lines([b, c]) + CRLF) == a + CRLF + Lines([b, c]) + CRLF;
  }

  lemma FourLines(a: string, b: string, c: string, d: string)
    ensures Head([a, b, c, d]) == a + "\r\n" + b + "\r\n" + c + "\r\n" + d + "\r\n" + "\r\n"
  {
    ThreeLines(b, c, d);
    assert [a, b, c, d][1..] == [b, c, d];
    assert Lines([a, b, c, d]) == a + CRLF + Lines([b, c, d]);
    assert a + CRLF + (Lines([b, c, d]) + CRLF) == a + CRLF + Lines([b, c, d]) + CRLF;
  }

  lemma OptionsReplyText(cseq: string)
    ensures Print(OptionsReply(cseq)) ==
              "RTSP/1.0 200 OK" + "\r\n" + ("CSeq: " + cseq) + "\r\n"
              + ("Public: org.wfa.wfd1.0" + ", SET_PARAMETER, GET_PARAMETER") + "\r\n" + "\r\n"
  {
    hide Head;
    ThreeLines("RTSP/1.0 200 OK", "CSeq: " + cseq, "Public: org.wfa.wfd1.0" + ", SET_PARAMETER, GET_PARAMETER");
  }

  lemma OptionsRequestText(n: nat)
    ensures Print(OptionsRequest(n)) ==
              "OPTIONS * RTSP/1.0" + "\r\n" + ("CSeq: " + Decimal(n)) + "\r\n"
              + "Require: org.wfa.wfd1.0" + "\r\n" + "\r\n"
  {
    hide Head;
    ThreeLines("OPTIONS * RTSP/1.0", "CSeq: " + Decimal(n), "Require: org.wfa.wfd1.0");
  }

  lemma CapabilityReplyText(cseq: string, body: string)
    ensures Print(CapabilityReply(cseq, body)) ==
              "RTSP/1.0 200 OK" + "\r\n" + ("CSeq: " + cseq) + "\r\n" + "Content-Type: text/parameters" + "\r\n"
              + ("Content-Length:" + " " + Decimal(|body|)) + "\r\n" + "\r\n" + body
  {
    hide Head, CapabilityHead;
    CapabilityHeadLines(cseq, |body|);
    FourLines("RTSP/1.0 200 OK", "CSeq: " + cseq, "Content-Type: text/parameters",
              "Content-Length:" + " " + Decimal(|body|));
  }

  lemma AckText(cseq: string)
    ensures Print(Ack(cseq)) == "RTSP/1.0 200 OK" + "\r\n" + ("CSeq: " + cseq) + "\r\n" + "\r\n"
  {
    hide Head;
    TwoLines("RTSP/1.0 200 OK", "CSeq: " + cseq);
  }

  lemma SetupRequestText(ip: string, n: nat, rtpPort: nat)
    ensures Print(SetupRequest(ip, n, rtpPort)) ==
              ("SETUP " + ("rtsp://" + ip + "/wfd1.0/streamid=0") + " RTSP/1.0") + "\r\n"
              + ("CSeq: " + Decimal(n)) + "\r\n"
              + ("Transport: RTP/AVP/UDP;unicast;client_port=" + Decimal(rtpPort)) + "\r\n" + "\r\n"
  {
    hide Head;
    ThreeLines("SETUP " + ("rtsp://" + ip + "/wfd1.0/streamid=0") + " RTSP/1.0", "CSeq: " + Decimal(n),
               "Transport: RTP/AVP/UDP;unicast;client_port=" + Decimal(rtpPort));
  }

  lemma PlayRequestText(ip: string, n: nat, session: string)
    ensures Print(PlayRequest(ip, n, session)) ==
              ("PLAY " + ("rtsp://" + ip + "/wfd1.0/streamid=0") + " RTSP/1.0") + "\r\n"
              + ("CSeq: " + Decimal(n)) + "\r\n" + ("Session: " + session) + "\r\n" + "\r\n"
  {
    hide Head;
    ThreeLines("PLAY " + ("rtsp://" + ip + "/wfd1.0/streamid=0") + " RTSP/1.0", "CSeq: " + Decimal(n),
               "Session: " + session);
  }

  /** The payloads of a list of messages, as bytes. */
  function Wire(ms: seq<SinkMessage>): (r: seq<string>)
    ensures |r| == |ms|
  {
    if ms == [] then [] else [Encode(Print(ms[0]))] + Wire(ms[1..])
  }

  predicate AllEmittable(ms: seq<SinkMessage>) { forall k | 0 <= k < |ms| :: Emittable(ms[k]) }

  predicate AllShaped(ms: seq<SinkMessage>) { forall k | 0 <= k < |ms| :: Shaped(ms[k]) }

  /** The frames of a stream that begins with `first`. */
  lemma FramesBegin(first: string, more: string)
    requires first != ""
    ensures if FirstFrame(first + more) == Complete(|first|)
            then Frames(first + more) == ([first] + Frames(more).0, Frames(more).1)
            else Frames(first + more).0 == [] || Frames(first + more).0[0] != first
  {
    hide FirstFrame;
    assert (first + more)[..|first|] == first && (first + more)[|first|..] == more;
  }

  /**
   * Messages printed back to back are framed into exactly those messages, with nothing over, if
   * and only if every length line among them counts its body right.
   */
  lemma {:induction false} PrintFrameRoundTrip(ms: seq<SinkMessage>)
    requires AllShaped(ms)
    ensures Frames(Concat(Wire(ms))) == (Wire(ms), "") <==> AllEmittable(ms)
  {
    hide FirstFrame, Frames, Encode, Emittable, Shaped;
    if ms == [] {
      EmptyFrames();
    } else {
      var first, more := Encode(Print(ms[0])), Concat(Wire(ms[1..]));
      assert Shaped(ms[0]);
      SinkMessageFrames(ms[0], more);
      PrintedNotEmpty(ms[0]);
      FramesBegin(first, more);
      PrintFrameRoundTrip(ms[1..]);
      assert Wire(ms)[1..] == Wire(ms[1..]) && Wire(ms)[0] == first;
      assert Concat(Wire(ms)) == first + more;
      EmittableCons(ms);
    }
  }

  lemma EmptyFrames()
    ensures Frames("") == ([], "")
  {
    EmptyFrame();
  }

  lemma PrintedNotEmpty(m: SinkMessage)
    ensures Encode(Print(m)) != ""
  {
    hide PlainText, Lines, Encode;
    EncodeLength(Print(m));
    assert |Print(m)| >= 2;
  }

  lemma EmittableCons(ms: seq<SinkMessage>)
    requires ms != []
    ensures AllEmittable(ms) <==> Emittable(ms[0]) && AllEmittable(ms[1..])
  {
    hide Emittable;
    assert forall k | 0 < k < |ms| :: ms[k] == ms[1..][k - 1];
  }

  /** A peer that reads with RtspReader gets the sink's messages one by one, however TCP cuts them. */
  lemma PrintReadRoundTrip(ms: seq<SinkMessage>, rd: ReaderState, k: nat)
    requires AllEmittable(ms) && rd.Stream() == Concat(Wire(ms)) && Faultless(rd.inbound) && k < |ms|
    ensures Reads(rd, |ms|).0[k] == Message(Wire(ms)[k])
  {
    hide FirstFrame, Frames, Reads, Concat;
    assert forall k | 0 <= k < |ms| :: Emittable(ms[k]);
    PrintFrameRoundTrip(ms);
    SegmentationIndependence(rd, rd, |ms|);
    ReferenceIsFrames(rd.Stream(), |ms|, k);
  }
}
