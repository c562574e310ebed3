/**
 * castd/wfdsink/rtsp.py: WfdNegotiator, the sink side of the Wi-Fi Display M1-M7 handshake.
 * Messages are ASCII text (the reader's decode() is then the identity).
 */
module Rtsp {
  import opened Prelude
  import opened Text
  import opened Framing
  import opened Messages

  const CSEQ := FieldPattern("CSeq:", true, true, true, Digits)
  const SERVER_PORT := FieldPattern("server_port=", false, false, false, Digits)
  const SESSION := FieldPattern("Session:", false, true, true, IdChars)

  /** A handler's result, or the exception it raises. */
  datatype Verdict<+T> =
    | Accepted(value: T)
    | Refused     // NegotiationError
    | BadNumber   // ValueError from int()

  datatype SessionParams = SessionParams(
    sinkRtpPort: nat,
    serverPort: Option<nat>, sessionId: Option<string>,  // from M6
    uibcPort: Option<string>, useHidc: bool)             // from M4

  /** The parameters before anything is negotiated. */
  function NewParams(sinkRtpPort: nat): SessionParams { SessionParams(sinkRtpPort, None, None, None, false) }

  datatype Capabilities = Capabilities(
    lpcm: bool, allow1080p60: bool, enableUibc: bool,
    deviceName: string, sinkModel: string, sinkVersion: string,
    edid: seq<bv8>)  // [] for none

  datatype HandshakeState =
    | WAIT_M1 | WAIT_M3 | WAIT_M4 | WAIT_M5 | WAIT_M6_RESPONSE | WAIT_M7_RESPONSE | STREAMING | TORN_DOWN

  /** _extract_cseq; None stands for the NegotiationError. */
  function Cseq(message: string): (r: Option<string>)
    ensures r.Some? ==> AllBody(r.value, Digits)
  {
    Field(message, CSEQ)
  }

  // ----- M3: the capability body -----

  function VideoLine(allow1080p60: bool): string {
    "wfd_video_formats: " + (if allow1080p60 then "40 00 02 10 0001FFFF" else "38 00 02 10 00019CFF")
    + " 00000000 00000000 00 0000" + " 0000 00 none none"
  }

  function UibcLine(enabled: bool): string {
    "wfd_uibc_capability: " + "input_category_list=GENERIC, HIDC;" + "generic_cap_list=Keyboard, Mouse;"
    + "hidc_cap_list=Keyboard/USB, Mouse/USB;" + (if enabled then "port=7336" else "port=none")
  }

  function FixedLines(cap: Capabilities, rtpPort: nat): seq<string> {
    ["wfd_client_rtp_ports: RTP/AVP/UDP;unicast " + Decimal(rtpPort) + " 0 mode=play",
     "wfd_audio_codecs: " + (if cap.lpcm then "LPCM 00000002 00" else "AAC 00000001 00"),
     VideoLine(cap.allow1080p60),
     "wfd_3d_video_formats: none",
     "wfd_coupled_sink: none",
     "wfd_connector_type: 05",
     UibcLine(cap.enableUibc),
     "wfd_standby_resume_capability: none",
     "wfd_content_protection: none"]
  }

  function HexDigit(d: nat, ten: char): (c: char)
    requires d < 16 && (ten == 'a' || ten == 'A')
    ensures c < '\U{80}'
  {
    if d < 10 then '0' + d as char else ten + (d - 10) as char
  }

  /** Upper-case hexadecimal, at least `width` digits. */
  function UpperHex(n: nat, width: nat): (r: string)
    ensures IsAscii(r)
    decreases n + width
  {
    if n < 16 && width <= 1 then [HexDigit(n, 'A')]
    else UpperHex(n / 16, if width > 0 then width - 1 else 0) + [HexDigit(n % 16, 'A')]
  }

  function HexBytes(bytes: seq<bv8>): (r: string)
    ensures IsAscii(r)
  {
    if bytes == [] then ""
    else
      var b := bytes[0] as nat;
      [HexDigit(b / 16, 'a'), HexDigit(b % 16, 'a')] + HexBytes(bytes[1..])
  }

  function HexValue(c: char): int {
    if '0' <= c <= '9' then c as int - '0' as int
    else if 'a' <= c <= 'f' then c as int - 'a' as int + 10
    else if 'A' <= c <= 'F' then c as int - 'A' as int + 10
    else -1
  }

  function HexNumber(s: string): int { if s == "" then 0 else 16 * HexNumber(s[..|s| - 1]) + HexValue(s[|s| - 1]) }

  /** The number reads back, and is as wide as asked. */
  lemma {:induction false} UpperHexReads(n: nat, width: nat)
    ensures HexNumber(UpperHex(n, width)) == n && |UpperHex(n, width)| >= width
    decreases n + width
  {
    var s := UpperHex(n, width);
    if n < 16 && width <= 1 {
      assert s[..0] == "";
    } else {
      var w := if width > 0 then width - 1 else 0;
      UpperHexReads(n / 16, w);
      assert s[..|s| - 1] == UpperHex(n / 16, w);
    }
  }

  /** Every byte reads back from its two digits. */
  lemma {:induction false} HexBytesRead(bytes: seq<bv8>, k: nat)
    requires k < |bytes|
    ensures |HexBytes(bytes)| == 2 * |bytes|
    ensures 16 * HexValue(HexBytes(bytes)[2 * k]) + HexValue(HexBytes(bytes)[2 * k + 1]) == bytes[k] as int
  {
    HexBytesLength(bytes);
    if k > 0 {
      HexBytesRead(bytes[1..], k - 1);
    }
  }

  lemma {:induction false} HexBytesLength(bytes: seq<bv8>)
    ensures |HexBytes(bytes)| == 2 * |bytes|
  {
    if bytes != [] {
      HexBytesLength(bytes[1..]);
    }
  }

  function EdidLine(edid: seq<bv8>): string {
    "wfd_display_edid: " + UpperHex(|edid| / 256 + 1, 4) + " " + HexBytes(edid)
  }

  function LineIf(asked: bool, line: string): seq<string> { if asked then [line] else [] }

  function RequestedLines(cap: Capabilities, request: string): seq<string> {
    LineIf(Contains(request, "wfd_display_edid") && cap.edid != [], EdidLine(cap.edid))
    + LineIf(Contains(request, "intel_friendly_name"), "intel_friendly_name: " + cap.deviceName)
    + LineIf(Contains(request, "intel_sink_manufacturer_name"), "intel_sink_manufacturer_name: " + cap.deviceName)
    + LineIf(Contains(request, "intel_sink_model_name"), "intel_sink_model_name: " + cap.sinkModel)
    + LineIf(Contains(request, "intel_sink_version"), "intel_sink_version: " + cap.sinkVersion)
    + LineIf(Contains(request, "intel_sink_device_URL"), "intel_sink_device_URL: none")
    + LineIf(Contains(request, "wfd_idr_request_capability"), "wfd_idr_request_capability: 1")
  }

  function CapabilityBody(cap: Capabilities, rtpPort: nat, request: string): string {
    Lines(FixedLines(cap, rtpPort) + RequestedLines(cap, request))
  }

  /** The names that M3 asks for are ASCII. */
  predicate AsciiAsked(cap: Capabilities, request: string) {
    && (Contains(request, "intel_friendly_name") || Contains(request, "intel_sink_manufacturer_name")
        ==> IsAscii(cap.deviceName))
    && (Contains(request, "intel_sink_model_name") ==> IsAscii(cap.sinkModel))
    && (Contains(request, "intel_sink_version") ==> IsAscii(cap.sinkVersion))
  }

  lemma {:induction false} LinesAppend(a: seq<string>, b: seq<string>)
    ensures Lines(a + b) == Lines(a) + Lines(b)
  {
    if a == [] {
      assert a + b == b;
    } else {
      assert (a + b)[1..] == a[1..] + b;
      LinesAppend(a[1..], b);
    }
  }

  lemma LinesOfThree(a: string, b: string, c: string)
    ensures Lines([a, b, c]) == a + "\r\n" + b + "\r\n" + c + "\r\n"
  {
    assert [a, b, c][1..] == [b, c] && [b, c][1..] == [c] && [c][1..] == [];
    assert Lines([c]) == c + CRLF + "";
    assert Lines([b, c]) == b + CRLF + (c + CRLF);
    assert a + CRLF + (b + CRLF + (c + CRLF)) == a + CRLF + b + CRLF + c + CRLF;
  }

  /** The capability body, word for word; then a line for each thing that M3 asks for and the sink has. */
  lemma CapabilityBodyText(cap: Capabilities, rtpPort: nat, request: string)
    ensures CapabilityBody(cap, rtpPort, request) ==
              (("wfd_client_rtp_ports: RTP/AVP/UDP;unicast " + Decimal(rtpPort) + " 0 mode=play") + "\r\n"
               + ("wfd_audio_codecs: " + (if cap.lpcm then "LPCM 00000002 00" else "AAC 00000001 00")) + "\r\n"
               + ("wfd_video_formats: " + (if cap.allow1080p60 then "40 00 02 10 0001FFFF" else "38 00 02 10 00019CFF")
                  + " 00000000 00000000 00 0000" + " 0000 00 none none") + "\r\n")
              + ("wfd_3d_video_formats: none" + "\r\n" + "wfd_coupled_sink: none" + "\r\n"
                 + "wfd_connector_type: 05" + "\r\n")
              + (("wfd_uibc_capability: " + "input_category_list=GENERIC, HIDC;" + "generic_cap_list=Keyboard, Mouse;"
                  + "hidc_cap_list=Keyboard/USB, Mouse/USB;" + (if cap.enableUibc then "port=7336" else "port=none"))
                 + "\r\n" + "wfd_standby_resume_capability: none" + "\r\n" + "wfd_content_protection: none" + "\r\n")
              + Lines(LineIf(Contains(request, "wfd_display_edid") && cap.edid != [],
                             "wfd_display_edid: " + UpperHex(|cap.edid| / 256 + 1, 4) + " " + HexBytes(cap.edid))
                      + LineIf(Contains(request, "intel_friendly_name"), "intel_friendly_name: " + cap.deviceName)
                      + LineIf(Contains(request, "intel_sink_manufacturer_name"),
                               "intel_sink_manufacturer_name: " + cap.deviceName)
                      + LineIf(Contains(request, "intel_sink_model_name"), "intel_sink_model_name: " + cap.sinkModel)
                      + LineIf(Contains(request, "intel_sink_version"), "intel_sink_version: " + cap.sinkVersion)
                      + LineIf(Contains(request, "intel_sink_device_URL"), "intel_sink_device_URL: none")
                      + LineIf(Contains(request, "wfd_idr_request_capability"), "wfd_idr_request_capability: 1"))
  {
    hide Lines, Contains, LineIf, UpperHex, HexBytes;
    var f := FixedLines(cap, rtpPort);
    assert f == [f[0], f[1], f[2]] + [f[3], f[4], f[5]] + [f[6], f[7], f[8]];
    LinesAppend(f, RequestedLines(cap, request));
    LinesAppend([f[0], f[1], f[2]] + [f[3], f[4], f[5]], [f[6], f[7], f[8]]);
    LinesAppend([f[0], f[1], f[2]], [f[3], f[4], f[5]]);
    LinesOfThree(f[0], f[1], f[2]);
    LinesOfThree(f[3], f[4], f[5]);
    LinesOfThree(f[6], f[7], f[8]);
  }

  predicate AllAscii(lines: seq<string>) { forall k | 0 <= k < |lines| :: IsAscii(lines[k]) }

  lemma {:induction false} AsciiLines(lines: seq<string>)
    ensures IsAscii(Lines(lines)) <==> AllAscii(lines)
  {
    hide IsAscii;
    EndAscii();
    if lines != [] {
      AsciiLines(lines[1..]);
      AsciiAppend(lines[0], CRLF);
      AsciiAppend(lines[0] + CRLF, Lines(lines[1..]));
      assert lines == [lines[0]] + lines[1..];
      AllAsciiAppend([lines[0]], lines[1..]);
      assert AllAscii([lines[0]]) <==> IsAscii([lines[0]][0]);
    }
  }

  lemma EndAscii()
    ensures IsAscii("") && IsAscii(CRLF)
  {
  }

  lemma AsciiAppend(a: string, b: string)
    ensures IsAscii(a + b) <==> IsAscii(a) && IsAscii(b)
  {
    assert forall k | 0 <= k < |a| :: (a + b)[k] == a[k];
    assert forall k | 0 <= k < |b| :: b[k] == (a + b)[|a| + k];
  }

  lemma AllAsciiAppend(a: seq<string>, b: seq<string>)
    ensures AllAscii(a + b) <==> AllAscii(a) && AllAscii(b)
  {
    hide IsAscii;
    assert forall k | 0 <= k < |a| :: (a + b)[k] == a[k];
    assert forall k | 0 <= k < |b| :: b[k] == (a + b)[|a| + k];
  }

  lemma UibcTextAscii()
    ensures IsAscii("wfd_uibc_capability: ") && IsAscii("input_category_list=GENERIC, HIDC;")
    ensures IsAscii("port=7336") && IsAscii("port=none")
  {
  }

  lemma UibcListsAscii()
    ensures IsAscii("generic_cap_list=Keyboard, Mouse;") && IsAscii("hidc_cap_list=Keyboard/USB, Mouse/USB;")
  {
  }

  lemma UibcLineAscii(enabled: bool)
    ensures IsAscii(UibcLine(enabled))
  {
    hide IsAscii;
    UibcTextAscii();
    UibcListsAscii();
    AsciiAppend("wfd_uibc_capability: ", "input_category_list=GENERIC, HIDC;");
    AsciiAppend("wfd_uibc_capability: " + "input_category_list=GENERIC, HIDC;", "generic_cap_list=Keyboard, Mouse;");
    AsciiAppend("wfd_uibc_capability: " + "input_category_list=GENERIC, HIDC;" + "generic_cap_list=Keyboard, Mouse;",
                "hidc_cap_list=Keyboard/USB, Mouse/USB;");
    AsciiAppend("wfd_uibc_capability: " + "input_category_list=GENERIC, HIDC;" + "generic_cap_list=Keyboard, Mouse;"
                + "hidc_cap_list=Keyboard/USB, Mouse/USB;", if enabled then "port=7336" else "port=none");
  }

  lemma VideoTextAscii()
    ensures IsAscii("wfd_video_formats: ")
    ensures IsAscii("40 00 02 10 0001FFFF") && IsAscii("38 00 02 10 00019CFF")
    ensures IsAscii(" 00000000 00000000 00 0000") && IsAscii(" 0000 00 none none")
  {
  }

  lemma VideoLineAscii(allow1080p60: bool)
    ensures IsAscii(VideoLine(allow1080p60))
  {
    hide IsAscii;
    VideoTextAscii();
    var mode := if allow1080p60 then "40 00 02 10 0001FFFF" else "38 00 02 10 00019CFF";
    AsciiAppend("wfd_video_formats: ", mode);
    AsciiAppend("wfd_video_formats: " + mode, " 00000000 00000000 00 0000");
    AsciiAppend("wfd_video_formats: " + mode + " 00000000 00000000 00 0000", " 0000 00 none none");
  }

  lemma DecimalAscii(n: nat)
    ensures IsAscii(Decimal(n))
  {
    PlainBody(Decimal(n), Digits);
  }

  lemma PortLineAscii(rtpPort: nat)
    ensures IsAscii("wfd_client_rtp_ports: RTP/AVP/UDP;unicast " + Decimal(rtpPort) + " 0 mode=play")
  {
    DecimalAscii(rtpPort);
    assert IsAscii("wfd_client_rtp_ports: RTP/AVP/UDP;unicast ");
    assert IsAscii(" 0 mode=play");
  }

  lemma SmallLinesAscii()
    ensures IsAscii("wfd_audio_codecs: ") && IsAscii("LPCM 00000002 00") && IsAscii("AAC 00000001 00")
    ensures IsAscii("wfd_3d_video_formats: none") && IsAscii("wfd_coupled_sink: none")
    ensures IsAscii("wfd_connector_type: 05")
  {
  }

  lemma SupportLinesAscii()
    ensures IsAscii("wfd_standby_resume_capability: none") && IsAscii("wfd_content_protection: none")
    ensures IsAscii("wfd_idr_request_capability: 1")
  {
  }

  lemma VendorLinesAscii()
    ensures IsAscii("intel_friendly_name: ") && IsAscii("intel_sink_manufacturer_name: ")
    ensures IsAscii("intel_sink_model_name: ") && IsAscii("intel_sink_version: ")
    ensures IsAscii("intel_sink_device_URL: none") && IsAscii("wfd_display_edid: ") && IsAscii(" ")
  {
  }

  lemma FixedLinesAscii(cap: Capabilities, rtpPort: nat)
    ensures AllAscii(FixedLines(cap, rtpPort))
  {
    UibcLineAscii(cap.enableUibc);
    VideoLineAscii(cap.allow1080p60);
    PortLineAscii(rtpPort);
    SmallLinesAscii();
    SupportLinesAscii();
    hide IsAscii, UibcLine, VideoLine;
    AsciiAppend("wfd_audio_codecs: ", if cap.lpcm then "LPCM 00000002 00" else "AAC 00000001 00");
  }

  lemma LineIfAscii(asked: bool, line: string)
    ensures AllAscii(LineIf(asked, line)) <==> asked ==> IsAscii(line)
  {
    hide IsAscii;
    if asked {
      assert LineIf(asked, line)[0] == line;
    }
  }

  lemma EdidLineAscii(edid: seq<bv8>)
    ensures IsAscii(EdidLine(edid))
  {
    VendorLinesAscii();
    hide IsAscii;
    var length, data := UpperHex(|edid| / 256 + 1, 4), HexBytes(edid);
    AsciiAppend("wfd_display_edid: ", length);
    AsciiAppend("wfd_display_edid: " + length, " ");
    AsciiAppend("wfd_display_edid: " + length + " ", data);
  }

  /** A line that carries a name is ASCII exactly when the name is. */
  lemma NameLinesAscii(cap: Capabilities)
    ensures IsAscii("intel_friendly_name: " + cap.deviceName) <==> IsAscii(cap.deviceName)
    ensures IsAscii("intel_sink_manufacturer_name: " + cap.deviceName) <==> IsAscii(cap.deviceName)
    ensures IsAscii("intel_sink_model_name: " + cap.sinkModel) <==> IsAscii(cap.sinkModel)
    ensures IsAscii("intel_sink_version: " + cap.sinkVersion) <==> IsAscii(cap.sinkVersion)
  {
    VendorLinesAscii();
    hide IsAscii;
    AsciiAppend("intel_friendly_name: ", cap.deviceName);
    AsciiAppend("intel_sink_manufacturer_name: ", cap.deviceName);
    AsciiAppend("intel_sink_model_name: ", cap.sinkModel);
    AsciiAppend("intel_sink_version: ", cap.sinkVersion);
  }

  lemma RequestedLinesAscii(cap: Capabilities, request: string)
    ensures AllAscii(RequestedLines(cap, request)) <==> AsciiAsked(cap, request)
  {
    SupportLinesAscii();
    VendorLinesAscii();
    EdidLineAscii(cap.edid);
    NameLinesAscii(cap);
    hide IsAscii, Contains, EdidLine, LineIf, AllAscii;
    var edid := LineIf(Contains(request, "wfd_display_edid") && cap.edid != [], EdidLine(cap.edid));
    var friendly := LineIf(Contains(request, "intel_friendly_name"), "intel_friendly_name: " + cap.deviceName);
    var maker := LineIf(Contains(request, "intel_sink_manufacturer_name"),
                        "intel_sink_manufacturer_name: " + cap.deviceName);
    var model := LineIf(Contains(request, "intel_sink_model_name"), "intel_sink_model_name: " + cap.sinkModel);
    var version := LineIf(Contains(request, "intel_sink_version"), "intel_sink_version: " + cap.sinkVersion);
    var url := LineIf(Contains(request, "intel_sink_device_URL"), "intel_sink_device_URL: none");
    var idr := LineIf(Contains(request, "wfd_idr_request_capability"), "wfd_idr_request_capability: 1");
    LineIfAscii(Contains(request, "wfd_display_edid") && cap.edid != [], EdidLine(cap.edid));
    LineIfAscii(Contains(request, "intel_friendly_name"), "intel_friendly_name: " + cap.deviceName);
    LineIfAscii(Contains(request, "intel_sink_manufacturer_name"), "intel_sink_manufacturer_name: " + cap.deviceName);
    LineIfAscii(Contains(request, "intel_sink_model_name"), "intel_sink_model_name: " + cap.sinkModel);
    LineIfAscii(Contains(request, "intel_sink_version"), "intel_sink_version: " + cap.sinkVersion);
    LineIfAscii(Contains(request, "intel_sink_device_URL"), "intel_sink_device_URL: none");
    LineIfAscii(Contains(request, "wfd_idr_request_capability"), "wfd_idr_request_capability: 1");
    AllAsciiAppend(edid, friendly);
    AllAsciiAppend(edid + friendly, maker);
    AllAsciiAppend(edid + friendly + maker, model);
    AllAsciiAppend(edid + friendly + maker + model, version);
    AllAsciiAppend(edid + friendly + maker + model + version, url);
    AllAsciiAppend(edid + friendly + maker + model + version + url, idr);
  }

  /** The capability body is ASCII exactly when every name that M3 asks for is. */
  lemma CapabilityBodyAscii(cap: Capabilities, rtpPort: nat, request: string)
    ensures IsAscii(CapabilityBody(cap, rtpPort, request)) <==> AsciiAsked(cap, request)
  {
    hide IsAscii, FixedLines, RequestedLines, AsciiAsked, AllAscii;
    FixedLinesAscii(cap, rtpPort);
    RequestedLinesAscii(cap, request);
    AllAsciiAppend(FixedLines(cap, rtpPort), RequestedLines(cap, request));
    AsciiLines(FixedLines(cap, rtpPort) + RequestedLines(cap, request));
  }

  /** M3 will be answered with a length line that is right. */
  predicate Countable(cap: Capabilities, rtpPort: nat, request: string) {
    AsciiAsked(cap, request) && |Decimal(|CapabilityBody(cap, rtpPort, request)|)| <= MAX_INT_DIGITS
  }

  /**
   * The answer to an M3 is cut out whole from its bytes and whatever follows exactly when every
   * name that M3 asks for is ASCII (and the body's length can be printed in 4300 digits).
   */
  lemma CapabilityReplyFrames(cap: Capabilities, rtpPort: nat, request: string, rest: string)
    requires Cseq(request).Some?
    ensures var reply := CapabilityReply(Cseq(request).value, CapabilityBody(cap, rtpPort, request));
            var bytes := Encode(Print(reply));
            FirstFrame(bytes + rest) == Complete(|bytes|) <==> Countable(cap, rtpPort, request)
  {
    hide FirstFrame, CapabilityBody, AsciiAsked, IsAscii, Encode, CapabilityHead, AllBody;
    CapabilityBodyAscii(cap, rtpPort, request);
    CapabilityFrames(Cseq(request).value, CapabilityBody(cap, rtpPort, request), rest);
  }

  // ----- M4: the UIBC port -----

  predicate EndsUibcPort(c: char) { c == ';' || c == '\r' || c == '\n' }

  /** Where a shortest run of non-space characters from `e` on is ended properly, if it is. */
  function UibcEnd(s: string, e: nat): (r: Option<nat>)
    requires e <= |s|
    ensures r.Some? ==> e <= r.value <= |s|
    decreases |s| - e
  {
    if e == |s| || EndsUibcPort(s[e]) then Some(e)
    else if IsTextSpace(s[e]) then None
    else UibcEnd(s, e + 1)
  }

  /** port=(\S+?)(?:;|\r|\n|$), matched at position i. */
  function UibcPortAt(s: string, i: nat): (r: Option<string>)
  {
    var v := i + 5;
    if !MatchAt(s, i, "port=") || v >= |s| || IsTextSpace(s[v]) then None
    else match UibcEnd(s, v + 1) case None => None case Some(e) => Some(s[v..e])
  }

  function UibcPortFrom(s: string, i: nat): (r: Option<string>)
    decreases |s| - i
  {
    if i >= |s| then None
    else if UibcPortAt(s, i).Some? then UibcPortAt(s, i)
    else UibcPortFrom(s, i + 1)
  }

  /** The port one entry of M4 chooses. */
  function UibcChoice(entry: string): (r: Option<string>)
  {
    if !Contains(entry, "wfd_uibc_capability:") then None
    else match UibcPortFrom(entry, 0)
         case None => None
         case Some(port) => if port == "none" then None else Some(port)
  }

  function UibcOf(p: SessionParams, entries: seq<string>): (r: SessionParams)
    ensures r.sinkRtpPort == p.sinkRtpPort && r.serverPort == p.serverPort && r.sessionId == p.sessionId
  {
    if entries == [] then p
    else
      var before, choice := UibcOf(p, entries[..|entries| - 1]), UibcChoice(entries[|entries| - 1]);
      if choice.None? then before else before.(uibcPort := choice, useHidc := true)
  }

  /** The last entry of M4 that chooses a port decides; if none does, nothing is stored. */
  lemma {:induction false} LastUibcChoiceWins(p: SessionParams, entries: seq<string>, i: int)
    requires -1 <= i < |entries| && forall k | i < k < |entries| :: UibcChoice(entries[k]).None?
    requires i >= 0 ==> UibcChoice(entries[i]).Some?
    ensures var r := UibcOf(p, entries);
            if i < 0 then r == p else r == p.(uibcPort := UibcChoice(entries[i]), useHidc := true)
    decreases |entries|
  {
    hide UibcChoice;
    if entries != [] {
      var init := entries[..|entries| - 1];
      if i < |entries| - 1 {
        LastUibcChoiceWins(p, init, i);
      } else {
        UibcKeepsRest(p, init);
      }
    }
  }

  /** An entry that does not speak of UIBC, or writes no port, chooses none. */
  lemma UibcNothing(entry: string)
    requires !Contains(entry, "wfd_uibc_capability:") || forall i :: !MatchAt(entry, i, "port=")
    ensures UibcChoice(entry).None?
  {
    hide Contains, MatchAt;
    if forall i :: !MatchAt(entry, i, "port=") {
      NoPort(entry, 0);
    }
  }

  lemma {:induction false} NoPort(s: string, i: nat)
    requires forall j :: !MatchAt(s, j, "port=")
    ensures UibcPortFrom(s, i).None?
    decreases |s| - i
  {
    hide MatchAt;
    if i < |s| {
      NoPort(s, i + 1);
    }
  }

  lemma {:induction false} UibcKeepsRest(p: SessionParams, entries: seq<string>)
    ensures UibcOf(p, entries).(uibcPort := None, useHidc := true) == p.(uibcPort := None, useHidc := true)
  {
    hide UibcChoice;
    if entries != [] {
      UibcKeepsRest(p, entries[..|entries| - 1]);
    }
  }

  lemma {:induction false} UibcEndIs(s: string, e: nat, end: nat)
    requires e <= end <= |s| && (end == |s| || EndsUibcPort(s[end]))
    requires forall k | e <= k < end :: !EndsUibcPort(s[k]) && !IsTextSpace(s[k])
    ensures UibcEnd(s, e) == Some(end)
    decreases end - e
  {
    if e < end {
      UibcEndIs(s, e + 1, end);
    }
  }

  lemma {:induction false} UibcPortFromIs(s: string, from: nat, i: nat)
    requires from <= i < |s| && UibcPortAt(s, i).Some?
    requires forall j | from <= j < i :: UibcPortAt(s, j).None?
    ensures UibcPortFrom(s, from) == UibcPortAt(s, i)
    decreases i - from
  {
    hide UibcPortAt;
    if from < i {
      UibcPortFromIs(s, from + 1, i);
    }
  }

  /** An entry that writes one port, ended by ';', a line end or the end of the text, chooses that port. */
  lemma UibcPortReads(pre: string, port: string, post: string)
    requires port != "" && forall k | 0 <= k < |port| :: !EndsUibcPort(port[k]) && !IsTextSpace(port[k])
    requires post == "" || EndsUibcPort(post[0])
    requires forall j | 0 <= j < |pre| :: !MatchAt(pre + "port=" + port + post, j, "port=")
    requires Contains(pre + "port=" + port + post, "wfd_uibc_capability:")
    ensures UibcChoice(pre + "port=" + port + post) == if port == "none" then None else Some(port)
  {
    hide Contains;
    var s := pre + "port=" + port + post;
    var v := |pre| + 5;
    assert forall k | v <= k < v + |port| :: s[k] == port[k - v];
    assert s[|pre|..v] == "port=" && s[v..v + |port|] == port;
    assert post != "" ==> s[v + |port|] == post[0];
    UibcEndIs(s, v + 1, v + |port|);
    UibcPortFromIs(s, 0, |pre|);
  }

  // ----- M6 and M7 -----

  /** The port and session id of the SETUP response. */
  function ParseM6(response: string): (r: Verdict<(nat, string)>)
    ensures r.Accepted? ==> AllBody(r.value.1, IdChars)
  {
    match Field(response, SERVER_PORT)
    case None => Refused
    case Some(port) =>
      match Field(response, SESSION)
      case None => Refused
      case Some(id) => if |port| > MAX_INT_DIGITS then BadNumber else Accepted((ParseNat(port), id))
  }

  /** White space of a str pattern, character by character. */
  predicate IsGap(s: string) {
    forall k | 0 <= k < |s| :: s[k] == ' ' || '\t' <= s[k] <= '\r' || '\U{1C}' <= s[k] <= '\U{1F}'
  }

  predicate IsIdText(c: char) {
    '0' <= c <= '9' || 'a' <= c <= 'z' || 'A' <= c <= 'Z' || c == '_' || c == '.'
  }

  /**
   * A response that writes server_port= and Session: once each, in either order and with any text
   * around them (a client_port=, say), yields both: a port of any digit count int() takes (the
   * first of a range, since the text after it may start with '-'), and the whole id.
   */
  lemma M6Recovers(response: string, port: nat, preP: string, postP: string,
                   id: string, preS: string, gap: string, postS: string)
    requires response == preP + "server_port=" + Decimal(port) + postP
    requires response == preS + "Session:" + gap + id + postS
    requires postP == "" || !('0' <= postP[0] <= '9')
    requires id != "" && (forall k | 0 <= k < |id| :: IsIdText(id[k])) && (postS == "" || !IsIdText(postS[0]))
    requires IsGap(gap)
    requires forall j | 0 <= j < |preP| :: !MatchAt(response, j, "server_port=")
    requires forall j | 0 <= j < |preS| :: !MatchAt(response, j, "Session:")
    requires |Decimal(port)| <= 4300
    ensures ParseM6(response) == Accepted((port, id))
  {
    PortReads(response, port, preP, postP);
    SessionReads(response, id, preS, gap, postS);
    hide Field, MatchAt;
    ParseDecimal(port);
  }

  lemma PortReads(response: string, port: nat, pre: string, post: string)
    requires response == pre + "server_port=" + Decimal(port) + post
    requires post == "" || !('0' <= post[0] <= '9')
    requires forall j | 0 <= j < |pre| :: !MatchAt(response, j, "server_port=")
    ensures Field(response, SERVER_PORT) == Some(Decimal(port))
  {
    assert response == pre + "server_port=" + "" + Decimal(port) + post;
    OwnKey(SERVER_PORT);
    hide KeyAt, Field, MatchAt;
    forall j | 0 <= j < |pre| ensures !KeyAt(response, j, SERVER_PORT) {
      PlainKey(response, j, SERVER_PORT);
    }
    FirstFieldIs(pre, "server_port=", "", Decimal(port), post, SERVER_PORT);
  }

  lemma SessionReads(response: string, id: string, pre: string, gap: string, post: string)
    requires response == pre + "Session:" + gap + id + post && IsGap(gap)
    requires id != "" && (forall k | 0 <= k < |id| :: IsIdText(id[k])) && (post == "" || !IsIdText(post[0]))
    requires forall j | 0 <= j < |pre| :: !MatchAt(response, j, "Session:")
    ensures Field(response, SESSION) == Some(id)
  {
    assert AllBody(id, IdChars) && InBody(id[0], IdChars);
    OwnKey(SESSION);
    hide KeyAt, Field, MatchAt;
    forall j | 0 <= j < |pre| ensures !KeyAt(response, j, SESSION) {
      PlainKey(response, j, SESSION);
    }
    FirstFieldIs(pre, "Session:", gap, id, post, SESSION);
  }

  /** A response that lacks either is refused. */
  lemma M6Refuses(response: string)
    requires !Contains(response, "server_port=") || !Contains(response, "Session:")
    ensures ParseM6(response) == Refused
  {
    hide KeyAt, SkipSpaces, MatchAt, Contains;
    ContainsIff(response, "server_port=");
    ContainsIff(response, "Session:");
    forall j: nat ensures FieldAt(response, j, SERVER_PORT) ==> MatchAt(response, j, "server_port=") {
      PlainKey(response, j, SERVER_PORT);
    }
    forall j: nat ensures FieldAt(response, j, SESSION) ==> MatchAt(response, j, "Session:") {
      PlainKey(response, j, SESSION);
    }
    FieldNone(response, SERVER_PORT);
    FieldNone(response, SESSION);
  }

  /** The CSeq of a message: the digits after the first CSeq: in any case of letters, white space between. */
  lemma CseqReads(pre: string, key: string, gap: string, digits: string, post: string)
    requires |key| == |"cseq:"| && AnyCaseAt(key, 0, "cseq:") && IsGap(gap)
    requires digits != "" && forall k | 0 <= k < |digits| :: '0' <= digits[k] <= '9'
    requires post == "" || !('0' <= post[0] <= '9')
    requires forall j | 0 <= j < |pre| :: !AnyCaseAt(pre + key + gap + digits + post, j, "cseq:")
    ensures Cseq(pre + key + gap + digits + post) == Some(digits)
  {
    var s := pre + key + gap + digits + post;
    FoldedKey(key, 0, CSEQ, "cseq:");
    forall j | 0 <= j < |pre| ensures !KeyAt(s, j, CSEQ) {
      FoldedKey(s, j, CSEQ, "cseq:");
    }
    assert AllBody(digits, Digits);
    hide KeyAt, AnyCaseAt, Field;
    FirstFieldIs(pre, key, gap, digits, post, CSEQ);
  }

  /** And there is none if that is written nowhere. */
  lemma CseqMissing(message: string)
    requires forall j: nat :: !AnyCaseAt(message, j, "cseq:")
    ensures Cseq(message) == None
  {
    forall j: nat ensures !FieldAt(message, j, CSEQ) {
      FoldedKey(message, j, CSEQ, "cseq:");
    }
    FieldNone(message, CSEQ);
  }

  const PLAY_START := "PLAY " + "rtsp://"

  function PlayRest(n: nat): string {
    "/wfd1.0/streamid=0" + " RTSP/1.0" + "\r\n" + ("CSeq: " + Decimal(n)) + "\r\n"
  }

  /** PLAY carries the session id: a search for the header in the printed request finds it. */
  lemma PlayCarriesSession(ip: string, n: nat, id: string)
    requires forall j | 0 <= j < |ip| :: !MatchAt(ip, j, "Session:")
    requires AllBody(id, IdChars)
    ensures Field(Print(PlayRequest(ip, n, id)), FieldPattern("Session:", false, true, true, IdChars)) == Some(id)
  {
    forall j | 0 <= j < |ip| ensures !KeyAt(ip, j, SESSION) {
      PlainKey(ip, j, SESSION);
    }
    PlayText(ip, n, id);
    assert InBody(id[0], IdChars);
    SessionKeyIsFirst(ip, n, " " + id + BLANK);
    hide KeyAt, Field, PlainText, PlayRest, AllBody;
    var pre := PLAY_START + ip + PlayRest(n);
    assert pre + SESSION.key + (" " + id + BLANK) == pre + SESSION.key + " " + id + BLANK;
    OwnKey(SESSION);
    FirstFieldIs(pre, SESSION.key, " ", id, BLANK, SESSION);
  }

  lemma PlayRestText(n: nat)
    ensures var b := PlayRest(n); b != "" && b[0] == '/' && forall k | 0 <= k < |b| :: Lower(b[k]) != 'o'
  {
    assert forall k | 0 <= k < |Decimal(n)| :: InBody(Decimal(n)[k], Digits);
  }

  lemma SessionKeyIsFirst(ip: string, n: nat, post: string)
    requires forall j | 0 <= j < |ip| :: !KeyAt(ip, j, SESSION)
    ensures var pre := PLAY_START + ip + PlayRest(n);
            forall j | 0 <= j < |pre| :: !KeyAt(pre + SESSION.key + post, j, SESSION)
  {
    PlayRestText(n);
    hide PlayRest;
    var b := PlayRest(n);
    var pre := PLAY_START + ip + b;
    var s := pre + SESSION.key + post;
    assert s == PLAY_START + ip + b + (SESSION.key + post);
    assert forall k | 0 <= k < 5 :: SESSION.key[k] != 'o';
    forall j | 0 <= j < |pre| ensures !KeyAt(s, j, SESSION) {
      if j + 5 < |pre| {
        KeyStaysApart(PLAY_START, ip, b, SESSION.key + post, j, SESSION, 5);
      } else {
        assert s[j + 5] == SESSION.key[j + 5 - |pre|];
        assert s[j + 5] != SESSION.key[5];
      }
    }
  }

  lemma PlayTail(head: string, key: string, space: string, id: string, e: string)
    ensures head + (key + space + id) + e + e == head + key + space + id + (e + e)
  {
  }

  lemma PlayHead(verb: string, scheme: string, ip: string, path: string, version: string, e: string, number: string)
    ensures (verb + (scheme + ip + path) + version) + e + number + e ==
              (verb + scheme) + ip + (path + version + e + number + e)
  {
  }

  lemma PlayText(ip: string, n: nat, id: string)
    ensures Print(PlayRequest(ip, n, id)) == PLAY_START + ip + PlayRest(n) + SESSION.key + " " + id + BLANK
  {
    hide Print;
    PlayRequestText(ip, n, id);
    assert "Session: " == "Session:" + " " && BLANK == "\r\n" + "\r\n";
    PlayHead("PLAY ", "rtsp://", ip, "/wfd1.0/streamid=0", " RTSP/1.0", "\r\n", "CSeq: " + Decimal(n));
    PlayTail(PLAY_START + ip + PlayRest(n), "Session:", " ", id, "\r\n");
  }

  // ----- what a reader finds in the printed messages -----

  function FirstLine(m: SinkMessage): string {
    match m
    case OptionsRequest(_) => "OPTIONS * RTSP/1.0"
    case SetupRequest(ip, _, _) => "SETUP " + ("rtsp://" + ip + "/wfd1.0/streamid=0") + " RTSP/1.0"
    case PlayRequest(ip, _, _) => "PLAY " + ("rtsp://" + ip + "/wfd1.0/streamid=0") + " RTSP/1.0"
    case _ => "RTSP/1.0 200 OK"
  }

  /** The number a message is meant to carry: the peer's, echoed, or the sink's own. */
  function CseqOf(m: SinkMessage): string {
    match m
    case OptionsReply(c) => c
    case CapabilityReply(c, _) => c
    case Ack(c) => c
    case OptionsRequest(n) => Decimal(n)
    case SetupRequest(_, n, _) => Decimal(n)
    case PlayRequest(_, n, _) => Decimal(n)
  }

  /** What follows the line with the number. */
  function AfterNumber(m: SinkMessage): string {
    match m
    case OptionsReply(_) => ("Public: org.wfa.wfd1.0" + ", SET_PARAMETER, GET_PARAMETER") + "\r\n" + "\r\n"
    case OptionsRequest(_) => "Require: org.wfa.wfd1.0" + "\r\n" + "\r\n"
    case CapabilityReply(_, body) =>
      "Content-Type: text/parameters" + "\r\n" + ("Content-Length:" + " " + Decimal(|body|)) + "\r\n" + "\r\n" + body
    case Ack(_) => "\r\n"
    case SetupRequest(_, _, port) => ("Transport: RTP/AVP/UDP;unicast;client_port=" + Decimal(port)) + "\r\n" + "\r\n"
    case PlayRequest(_, _, id) => ("Session: " + id) + "\r\n" + "\r\n"
  }

  lemma Tail(head: string, c: string, e: string)
    ensures head + c + e + e == head + (c + e + e)
  {
  }

  lemma LongTail(head: string, c: string, d: string, e: string, body: string)
    ensures head + c + e + d + e + e + body == head + (c + e + d + e + e + body)
  {
  }

  lemma NumberLine(first: string, digits: string, rest: string)
    ensures first + "\r\n" + ("CSeq: " + digits) + "\r\n" + rest ==
              (first + "\r\n") + "CSeq:" + " " + digits + ("\r\n" + rest)
  {
    assert "CSeq: " == "CSeq:" + " ";
  }

  /** Every printed message has its number on its second line. */
  lemma PrintedNumber(m: SinkMessage)
    ensures Print(m) == (FirstLine(m) + "\r\n") + "CSeq:" + " " + CseqOf(m) + ("\r\n" + AfterNumber(m))
  {
    hide Print;
    NumberLine(FirstLine(m), CseqOf(m), AfterNumber(m));
    PrintedLines(m);
  }

  lemma PrintedLines(m: SinkMessage)
    ensures Print(m) == FirstLine(m) + "\r\n" + ("CSeq: " + CseqOf(m)) + "\r\n" + AfterNumber(m)
  {
    hide Print;
    var head := FirstLine(m) + "\r\n" + ("CSeq: " + CseqOf(m)) + "\r\n";
    match m {
      case OptionsReply(c) =>
        OptionsReplyText(c);
        Tail(head, "Public: org.wfa.wfd1.0" + ", SET_PARAMETER, GET_PARAMETER", "\r\n");
      case OptionsRequest(n) =>
        OptionsRequestText(n);
        Tail(head, "Require: org.wfa.wfd1.0", "\r\n");
      case CapabilityReply(c, body) =>
        CapabilityReplyText(c, body);
        LongTail(head, "Content-Type: text/parameters", "Content-Length:" + " " + Decimal(|body|), "\r\n", body);
      case Ack(c) =>
        AckText(c);
      case SetupRequest(ip, n, port) =>
        SetupRequestText(ip, n, port);
        Tail(head, "Transport: RTP/AVP/UDP;unicast;client_port=" + Decimal(port), "\r\n");
      case PlayRequest(ip, n, id) =>
        PlayRequestText(ip, n, id);
        Tail(head, "Session: " + id, "\r\n");
    }
  }

  /** The address, if a message names one. */
  function Address(m: SinkMessage): string {
    match m
    case SetupRequest(ip, _, _) => ip
    case PlayRequest(ip, _, _) => ip
    case _ => ""
  }

  lemma CseqKey(s: string, j: int)
    ensures KeyAt(s, j, CSEQ) <==> AnyCaseAt(s, j, "cseq:")
  {
    FoldedKey(s, j, CSEQ, "cseq:");
  }

  predicate NoQ(s: string) { forall k | 0 <= k < |s| :: s[k] != 'q' && s[k] != 'Q' }

  lemma PlainLinesHaveNoQ()
    ensures NoQ("RTSP/1.0 200 OK" + "\r\n") && NoQ("OPTIONS * RTSP/1.0" + "\r\n")
    ensures NoQ("SETUP " + "rtsp://") && NoQ("PLAY " + "rtsp://") && NoQ("/wfd1.0/streamid=0" + " RTSP/1.0" + "\r\n")
  {
  }

  /** Text without the letter cannot hold, or run into, the key. */
  lemma NoCseqBefore(pre: string, post: string, j: nat)
    requires NoQ(pre) && j < |pre|
    ensures !AnyCaseAt(pre + "CSeq:" + post, j, "cseq:")
  {
    var s := pre + "CSeq:" + post;
    assert "cseq:"[3] == 'q';
    assert s[j + 3] == if j + 3 < |pre| then pre[j + 3] else "CSeq:"[j + 3 - |pre|];
    assert s[j + 3] != 'q' && s[j + 3] != 'Q';
  }

  lemma NoCseqAcross(a: string, ip: string, b: string, post: string, j: nat)
    requires NoQ(a) && NoQ(b) && a != "" && a[|a| - 1] == '/' && b != "" && b[0] == '/'
    requires forall i | 0 <= i < |ip| :: !AnyCaseAt(ip, i, "cseq:")
    requires j < |a + ip + b|
    ensures !AnyCaseAt(a + ip + b + "CSeq:" + post, j, "cseq:")
  {
    var s := a + ip + b + "CSeq:" + post;
    if j + 3 < |a + ip + b| {
      forall i | 0 <= i < |ip| ensures !KeyAt(ip, i, CSEQ) {
        CseqKey(ip, i);
      }
      assert s == a + ip + b + ("CSeq:" + post);
      KeyStaysApart(a, ip, b, "CSeq:" + post, j, CSEQ, 3);
      CseqKey(s, j);
    } else {
      assert "cseq:"[3] == 'q';
      assert s[j + 3] == "CSeq:"[j + 3 - |a + ip + b|];
      assert s[j + 3] != 'q' && s[j + 3] != 'Q';
    }
  }

  lemma RequestLineParts(verb: string, scheme: string, ip: string, path: string, version: string, end: string)
    ensures verb + (scheme + ip + path) + version + end == (verb + scheme) + ip + (path + version + end)
  {
  }

  lemma FirstLineHasNoCseq(m: SinkMessage, post: string)
    requires forall i | 0 <= i < |Address(m)| :: !AnyCaseAt(Address(m), i, "cseq:")
    ensures var pre := FirstLine(m) + "\r\n";
            forall j | 0 <= j < |pre| :: !AnyCaseAt(pre + "CSeq:" + post, j, "cseq:")
  {
    PlainLinesHaveNoQ();
    hide AnyCaseAt, NoQ;
    var pre := FirstLine(m) + "\r\n";
    if m.SetupRequest? || m.PlayRequest? {
      var verb := if m.SetupRequest? then "SETUP " else "PLAY ";
      var a, b := verb + "rtsp://", "/wfd1.0/streamid=0" + " RTSP/1.0" + "\r\n";
      assert Address(m) == m.ip;
      RequestLineParts(verb, "rtsp://", m.ip, "/wfd1.0/streamid=0", " RTSP/1.0", "\r\n");
      forall j | 0 <= j < |pre| ensures !AnyCaseAt(pre + "CSeq:" + post, j, "cseq:") {
        NoCseqAcross(a, m.ip, b, post, j);
      }
    } else {
      forall j | 0 <= j < |pre| ensures !AnyCaseAt(pre + "CSeq:" + post, j, "cseq:") {
        NoCseqBefore(pre, post, j);
      }
    }
  }

  /** A reader's CSeq search in any printed message finds the number it is meant to carry. */
  lemma PrintedCseq(m: SinkMessage)
    requires Shaped(m) && forall i | 0 <= i < |Address(m)| :: !AnyCaseAt(Address(m), i, "cseq:")
    ensures Cseq(Print(m)) == Some(CseqOf(m))
  {
    hide Print, AnyCaseAt, FirstLine, AfterNumber, IsHost;
    PrintedNumber(m);
    var pre, post := FirstLine(m) + "\r\n", "\r\n" + AfterNumber(m);
    var d := CseqOf(m);
    assert AllBody(d, Digits);
    assert forall k | 0 <= k < |d| :: InBody(d[k], Digits);
    assert pre + "CSeq:" + (" " + d + post) == pre + "CSeq:" + " " + d + post;
    FirstLineHasNoCseq(m, " " + d + post);
    CseqKey("CSeq:", 0);
    hide Cseq, AllBody;
    OwnCseqKey();
    CseqReads(pre, "CSeq:", " ", d, post);
  }

  lemma OwnCseqKey()
    ensures AnyCaseAt("CSeq:", 0, "cseq:") && IsGap(" ") && |"CSeq:"| == |"cseq:"|
  {
  }

  const CLIENT_PORT := FieldPattern("client_port=", false, false, false, Digits)

  /** The printed SETUP between the address and the port. */
  function SetupMiddle(n: nat): string {
    "/wfd1.0/streamid=0" + " RTSP/1.0" + "\r\n" + ("CSeq: " + Decimal(n)) + "\r\n" + "Transport: RTP/AVP/UDP;unicast;"
  }

  lemma SetupAround(n: nat)
    ensures var b := SetupMiddle(n); b != "" && b[0] == '/' && forall k | 0 <= k < |b| :: Lower(b[k]) != '_'
  {
    assert forall k | 0 <= k < |Decimal(n)| :: InBody(Decimal(n)[k], Digits);
  }

  lemma SetupParts(head: string, number: string, e: string, t: string, key: string, port: string)
    ensures head + e + number + e + (t + key + port) + e + e == (head + e + number + e + t) + key + "" + port + (e + e)
  {
  }

  lemma MiddleParts(a: string, ip: string, path: string, version: string, e: string, number: string, t: string)
    ensures a + ip + (path + version + e) + number + e + t == a + ip + (path + version + e + number + e + t)
  {
  }

  lemma SetupShape(verb: string, scheme: string, ip: string, path: string, version: string,
                   e: string, number: string, t: string, key: string, port: string)
    ensures (verb + (scheme + ip + path) + version) + e + number + e + (t + key + port) + e + e ==
              (verb + scheme) + ip + (path + version + e + number + e + t) + key + "" + port + (e + e)
  {
    SetupParts(verb + (scheme + ip + path) + version, number, e, t, key, port);
    RequestLineParts(verb, scheme, ip, path, version, e);
    MiddleParts(verb + scheme, ip, path, version, e, number, t);
  }

  lemma SetupText(ip: string, n: nat, port: nat)
    ensures Print(SetupRequest(ip, n, port)) ==
              ("SETUP " + "rtsp://") + ip + SetupMiddle(n) + "client_port=" + "" + Decimal(port) + ("\r\n" + "\r\n")
  {
    hide Print;
    SetupRequestText(ip, n, port);
    assert "Transport: RTP/AVP/UDP;unicast;" + "client_port=" == "Transport: RTP/AVP/UDP;unicast;client_port=";
    SetupShape("SETUP ", "rtsp://", ip, "/wfd1.0/streamid=0", " RTSP/1.0", "\r\n", "CSeq: " + Decimal(n),
               "Transport: RTP/AVP/UDP;unicast;", "client_port=", Decimal(port));
  }

  /** SETUP asks for the stream on the sink's RTP port: a search for client_port= finds it. */
  lemma SetupCarriesPort(ip: string, n: nat, port: nat)
    requires forall j | 0 <= j < |ip| :: !MatchAt(ip, j, "client_port=")
    ensures Field(Print(SetupRequest(ip, n, port)), FieldPattern("client_port=", false, false, false, Digits))
              == Some(Decimal(port))
  {
    SetupText(ip, n, port);
    SetupAround(n);
    var b := SetupMiddle(n);
    hide Print, Field, KeyAt, MatchAt, SetupMiddle;
    ClientPortIsFirst(ip, b, Decimal(port) + ("\r\n" + "\r\n"));
    OwnKey(CLIENT_PORT);
    var pre := "SETUP " + "rtsp://" + ip + b;
    assert pre + "client_port=" + (Decimal(port) + ("\r\n" + "\r\n")) ==
             pre + "client_port=" + "" + Decimal(port) + ("\r\n" + "\r\n");
    FirstFieldIs(pre, "client_port=", "", Decimal(port), "\r\n" + "\r\n", CLIENT_PORT);
  }

  lemma ClientPortIsFirst(ip: string, b: string, post: string)
    requires b != "" && b[0] == '/' && forall k | 0 <= k < |b| :: Lower(b[k]) != '_'
    requires forall j | 0 <= j < |ip| :: !MatchAt(ip, j, "client_port=")
    ensures var pre := "SETUP " + "rtsp://" + ip + b;
            forall j | 0 <= j < |pre| :: !KeyAt(pre + "client_port=" + post, j, CLIENT_PORT)
  {
    hide MatchAt;
    var pre := "SETUP " + "rtsp://" + ip + b;
    var s := pre + "client_port=" + post;
    assert s == "SETUP " + "rtsp://" + ip + b + ("client_port=" + post);
    forall j | 0 <= j < |ip| ensures !KeyAt(ip, j, CLIENT_PORT) {
      PlainKey(ip, j, CLIENT_PORT);
    }
    assert forall k | 0 <= k < 6 :: "client_port="[k] != '_';
    forall j | 0 <= j < |pre| ensures !KeyAt(s, j, CLIENT_PORT) {
      if j + 6 < |pre| {
        KeyStaysApart("SETUP " + "rtsp://", ip, b, "client_port=" + post, j, CLIENT_PORT, 6);
      } else {
        assert s[j + 6] == "client_port="[j + 6 - |pre|];
        assert s[j + 6] != CLIENT_PORT.key[6];
      }
    }
  }

  // ----- steady state -----

  predicate IsTeardown(message: string) {
    message == "" || Contains(message, "wfd_trigger_method: TEARDOWN")
  }

  /** The source has closed the connection, or its message triggers a teardown. */
  ghost predicate EndsSession(message: string) {
    message == "" || exists i :: MatchAt(message, i, "wfd_trigger_method: TEARDOWN")
  }

  lemma TeardownIs(message: string)
    ensures IsTeardown(message) <==> EndsSession(message)
  {
    ContainsIff(message, "wfd_trigger_method: TEARDOWN");
  }

  /** The entry names one of the two methods that want an acknowledgement. */
  ghost predicate AsksAck(entry: string) {
    (exists i :: MatchAt(entry, i, "GET_PARAMETER")) || exists i :: MatchAt(entry, i, "SET_PARAMETER")
  }

  lemma RequestIs(entry: string)
    ensures IsRequest(entry) <==> AsksAck(entry)
  {
    ContainsIff(entry, "GET_PARAMETER");
    ContainsIff(entry, "SET_PARAMETER");
  }

  /** An entry that asks for an acknowledgement. */
  predicate IsRequest(entry: string) {
    Contains(entry, "GET_PARAMETER") || Contains(entry, "SET_PARAMETER")
  }

  /** The acknowledgements of a list of entries; None when one lacks its CSeq. */
  function AcksOf(entries: seq<string>): (r: Option<seq<SinkMessage>>)
  {
    if entries == [] then Some([])
    else
      var last := entries[|entries| - 1];
      match AcksOf(entries[..|entries| - 1])
      case None => None
      case Some(acks) =>
        if !IsRequest(last) then Some(acks)
        else match Cseq(last) case None => None case Some(c) => Some(acks + [Ack(c)])
  }

  function Acks(message: string): Option<seq<SinkMessage>> { AcksOf(Split(message, BLANK)) }

  ghost function Requests(entries: seq<string>): (r: seq<string>)
  {
    if entries == [] then []
    else Requests(entries[..|entries| - 1]) +
         if AsksAck(entries[|entries| - 1]) then [entries[|entries| - 1]] else []
  }

  predicate AllNumbered(reqs: seq<string>) { forall k | 0 <= k < |reqs| :: Cseq(reqs[k]).Some? }

  lemma NumberedSnoc(reqs: seq<string>, last: string)
    ensures AllNumbered(reqs + [last]) <==> AllNumbered(reqs) && Cseq(last).Some?
  {
    hide Cseq;
    var all := reqs + [last];
    assert all[|reqs|] == last;
    assert forall k | 0 <= k < |reqs| :: all[k] == reqs[k];
    if AllNumbered(all) {
      forall k | 0 <= k < |reqs| ensures Cseq(reqs[k]).Some? {
        assert Cseq(all[k]).Some?;
      }
    }
  }

  /** One 200 OK per request entry, in order, each echoing that entry's CSeq; or none at all. */
  lemma {:induction false} AcksAnswerRequests(entries: seq<string>)
    ensures var reqs := Requests(entries);
            && (AcksOf(entries).Some? <==> AllNumbered(reqs))
            && (AcksOf(entries).Some? ==>
                  && |AcksOf(entries).value| == |reqs|
                  && forall k | 0 <= k < |reqs| :: AcksOf(entries).value[k] == Ack(Cseq(reqs[k]).value))
  {
    hide IsRequest, AsksAck, Cseq;
    if entries != [] {
      var init, last := entries[..|entries| - 1], entries[|entries| - 1];
      RequestIs(last);
      AcksAnswerRequests(init);
      NumberedSnoc(Requests(init), last);
      if !IsRequest(last) {
        assert Requests(entries) == Requests(init);
      }
    }
  }

  // ----- the class -----

  class WfdNegotiator {
    const capabilities: Capabilities
    var session: SessionParams
    var state: HandshakeState
    var ownCseq: nat

    constructor (capabilities: Capabilities, sinkRtpPort: nat)
      ensures this.capabilities == capabilities
      ensures Fresh() && session.sinkRtpPort == sinkRtpPort
    {
      this.capabilities := capabilities;
      session := NewParams(sinkRtpPort);
      state := WAIT_M1;
      ownCseq := 0;
    }

    /** Nothing has been negotiated yet. */
    predicate Fresh()
      reads this
    {
      state == WAIT_M1 && ownCseq == 0 && session == NewParams(session.sinkRtpPort)
    }

    method NextCseq() returns (n: nat)
      modifies this`ownCseq
      ensures n == ownCseq == old(ownCseq) + 1
    {
      ownCseq := ownCseq + 1;
      n := ownCseq;
    }

    method HandleM1Options(request: string) returns (r: Verdict<string>)
      modifies this`state
      ensures r == if old(state) == WAIT_M1 && Cseq(request).Some?
                   then Accepted(Print(OptionsReply(Cseq(request).value))) else Refused
      ensures state == if r.Accepted? then WAIT_M3 else old(state)
    {
      if state != WAIT_M1 {
        return Refused;
      }
      var cseq := Cseq(request);
      if cseq.None? {
        return Refused;
      }
      state := WAIT_M3;
      return Accepted(Print(OptionsReply(cseq.value)));
    }

    method BuildM2OptionsRequest() returns (text: string)
      modifies this`ownCseq
      ensures ownCseq == old(ownCseq) + 1
      ensures text == Print(OptionsRequest(ownCseq))
    {
      var cseq := NextCseq();
      text := Print(OptionsRequest(cseq));
    }

    method HandleM3GetParameter(request: string) returns (r: Verdict<string>)
      modifies this`state
      ensures r == if old(state) == WAIT_M3 && Cseq(request).Some?
                   then Accepted(Print(CapabilityReply(Cseq(request).value,
                                                       CapabilityBody(capabilities, session.sinkRtpPort, request))))
                   else Refused
      ensures state == if r.Accepted? then WAIT_M4 else old(state)
    {
      if state != WAIT_M3 {
        return Refused;
      }
      var cseq := Cseq(request);
      if cseq.None? {
        return Refused;
      }
      var body := CapabilityBody(capabilities, session.sinkRtpPort, request);
      state := WAIT_M4;
      return Accepted(Print(CapabilityReply(cseq.value, body)));
    }

    method HandleM4SetParameter(request: string) returns (r: Verdict<string>)
      modifies this`state, this`session
      ensures r == if old(state) == WAIT_M4 && Cseq(request).Some?
                   then Accepted(Print(Ack(Cseq(request).value))) else Refused
      ensures state == if r.Accepted? then WAIT_M5 else old(state)
      ensures session == if r.Accepted? then UibcOf(old(session), Split(request, BLANK)) else old(session)
    {
      if state != WAIT_M4 {
        return Refused;
      }
      var cseq := Cseq(request);
      if cseq.None? {
        return Refused;
      }
      ParseUibcPort(request);
      state := WAIT_M5;
      return Accepted(Print(Ack(cseq.value)));
    }

    method ParseUibcPort(request: string)
      modifies this`session
      ensures session == UibcOf(old(session), Split(request, BLANK))
    {
      hide Split, Contains, UibcPortFrom;
      ghost var before := session;
      var entries := Split(request, BLANK);
      for i := 0 to |entries|
        invariant session == UibcOf(before, entries[..i])
      {
        assert entries[..i + 1][..i] == entries[..i];
        if Contains(entries[i], "wfd_uibc_capability:") {
          var port := UibcPortFrom(entries[i], 0);
          if port.Some? && port.value != "none" {
            session := session.(uibcPort := port, useHidc := true);
          }
        }
      }
      assert entries[..|entries|] == entries;
    }

    method HandleM5Generic(request: string) returns (r: Verdict<string>)
      modifies this`state
      ensures r == if old(state) == WAIT_M5 && Cseq(request).Some?
                   then Accepted(Print(Ack(Cseq(request).value))) else Refused
      ensures state == if r.Accepted? then WAIT_M6_RESPONSE else old(state)
    {
      if state != WAIT_M5 {
        return Refused;
      }
      var cseq := Cseq(request);
      if cseq.None? {
        return Refused;
      }
      state := WAIT_M6_RESPONSE;
      return Accepted(Print(Ack(cseq.value)));
    }

    method BuildM6SetupRequest(ip: string) returns (text: string)
      modifies this`ownCseq
      ensures ownCseq == old(ownCseq) + 1
      ensures text == Print(SetupRequest(ip, ownCseq, session.sinkRtpPort))
    {
      var cseq := NextCseq();
      text := Print(SetupRequest(ip, cseq, session.sinkRtpPort));
    }

    method ParseM6Response(response: string) returns (r: Verdict<SessionParams>)
      modifies this`state, this`session
      ensures r == if old(state) != WAIT_M6_RESPONSE then Refused
                   else match ParseM6(response)
                        case Accepted((port, id)) =>
                          Accepted(old(session).(serverPort := Some(port), sessionId := Some(id)))
                        case Refused => Refused
                        case BadNumber => BadNumber
      ensures if r.Accepted? then session == r.value && state == WAIT_M7_RESPONSE
              else session == old(session) && state == old(state)
    {
      if state != WAIT_M6_RESPONSE {
        return Refused;
      }
      var port := Field(response, SERVER_PORT);
      if port.None? {
        return Refused;
      }
      var id := Field(response, SESSION);
      if id.None? {
        return Refused;
      }
      if |port.value| > MAX_INT_DIGITS {
        return BadNumber;
      }
      session := session.(serverPort := Some(ParseNat(port.value)), sessionId := Some(id.value));
      state := WAIT_M7_RESPONSE;
      return Accepted(session);
    }

    method BuildM7PlayRequest(ip: string) returns (r: Verdict<string>)
      modifies this`ownCseq
      ensures if session.sessionId.None? then r == Refused && ownCseq == old(ownCseq)
              else ownCseq == old(ownCseq) + 1
                   && r == Accepted(Print(PlayRequest(ip, ownCseq, session.sessionId.value)))
    {
      if session.sessionId.None? {
        return Refused;
      }
      var cseq := NextCseq();
      return Accepted(Print(PlayRequest(ip, cseq, session.sessionId.value)));
    }

    method ConfirmStreaming(response: string) returns (r: Verdict<()>)
      modifies this`state
      ensures r == if old(state) == WAIT_M7_RESPONSE && Contains(response, "200 OK") then Accepted(()) else Refused
      ensures state == if r.Accepted? then STREAMING else old(state)
    {
      if state != WAIT_M7_RESPONSE {
        return Refused;
      }
      if !Contains(response, "200 OK") {
        return Refused;
      }
      state := STREAMING;
      return Accepted(());
    }

    method BuildSteadyStateAck(message: string) returns (r: Verdict<seq<SinkMessage>>)
      ensures r == if state == STREAMING && Acks(message).Some? then Accepted(Acks(message).value) else Refused
    {
      if state != STREAMING {
        return Refused;
      }
      hide Split, IsRequest, Cseq;
      var acks: seq<SinkMessage> := [];
      var entries := Split(message, BLANK);
      for i := 0 to |entries|
        invariant AcksOf(entries[..i]) == Some(acks)
      {
        assert entries[..i + 1][..i] == entries[..i];
        if IsRequest(entries[i]) {
          var cseq := Cseq(entries[i]);
          if cseq.None? {
            RefusedAcks(entries, i + 1);
            return Refused;
          }
          acks := acks + [Ack(cseq.value)];
        }
      }
      assert entries[..|entries|] == entries;
      return Accepted(acks);
    }

    method MarkTornDown()
      modifies this`state
      ensures state == TORN_DOWN
    {
      state := TORN_DOWN;
    }
  }

  lemma {:induction false} RefusedAcks(entries: seq<string>, i: nat)
    requires i <= |entries| && AcksOf(entries[..i]).None?
    ensures AcksOf(entries).None?
    decreases |entries| - i
  {
    if i == |entries| {
      assert entries[..i] == entries;
    } else {
      assert entries[..i + 1][..i] == entries[..i];
      RefusedAcks(entries, i + 1);
    }
  }
}
