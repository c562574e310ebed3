/**
 * castd/wfdsink/session.py, RtspReader: cutting the inbound TCP byte stream into RTSP
 * messages. `FirstFrame` and `Reference` describe the stream as a whole, with no notion of
 * segments; `Next` and `RtspReader.NextMessage` work on the buffer and one recv at a time.
 */
module Framing {
  import opened Prelude
  import opened Text

  const CRLF := "\r\n"
  const BLANK := "\r\n\r\n"

  const CONTENT_LENGTH := FieldPattern("Content-Length:", true, true, false, Digits)

  // ----- the socket, seen from the sink -----

  type Chunk = s: string | s != "" witness "x"

  /** What one recv call meets. An exhausted script is the peer's orderly close. */
  datatype RecvEvent = Data(bytes: Chunk) | RecvTimeout | RecvError

  /** What one next_message call gives its caller; the last three are exceptions. */
  datatype Outcome =
    | Message(text: string)
    | TimedOut        // TimeoutError from recv
    | ConnectionLost  // any other OSError from recv
    | BadLength       // ValueError from int()

  /** A connected socket, its future fixed by what the peer and the network will do. */
  class Sock {
    var inbound: seq<RecvEvent>    // what successive recv calls will meet
    var sendFaults: seq<bool>      // whether successive sendall calls raise OSError
    var timeoutFaults: seq<bool>   // whether successive settimeout calls raise OSError
    var sent: seq<string>          // the payloads whose sendall returned
    var closed: bool

    /** "" at end of stream. */
    method Recv() returns (r: Outcome)
      modifies this`inbound
      ensures old(inbound) == [] ==> r == Message("") && inbound == []
      ensures old(inbound) != [] ==>
                && inbound == old(inbound)[1..]
                && r == (match old(inbound)[0]
                         case Data(d) => Message(d)
                         case RecvTimeout => TimedOut
                         case RecvError => ConnectionLost)
    {
      if inbound == [] {
        return Message("");
      }
      match inbound[0] {
        case Data(d) => r := Message(d);
        case RecvTimeout => r := TimedOut;
        case RecvError => r := ConnectionLost;
      }
      inbound := inbound[1..];
    }

    method SendAll(payload: string) returns (ok: bool)
      modifies this`sent, this`sendFaults
      ensures ok <==> !(old(sendFaults) != [] && old(sendFaults)[0])
      ensures sent == if ok then old(sent) + [payload] else old(sent)
      ensures sendFaults == if old(sendFaults) == [] then [] else old(sendFaults)[1..]
    {
      ok := true;
      if sendFaults != [] {
        ok := !sendFaults[0];
        sendFaults := sendFaults[1..];
      }
      if ok {
        sent := sent + [payload];
      }
    }

    method SetTimeout() returns (ok: bool)
      modifies this`timeoutFaults
      ensures ok <==> !(old(timeoutFaults) != [] && old(timeoutFaults)[0])
      ensures timeoutFaults == if old(timeoutFaults) == [] then [] else old(timeoutFaults)[1..]
    {
      ok := true;
      if timeoutFaults != [] {
        ok := !timeoutFaults[0];
        timeoutFaults := timeoutFaults[1..];
      }
    }

    method Close()
      modifies this`closed
      ensures closed
    {
      closed := true;
    }
  }

  /** Every byte the script still delivers. */
  function Future(inbound: seq<RecvEvent>): (r: string)
  {
    if inbound == [] then ""
    else (if inbound[0].Data? then inbound[0].bytes else "") + Future(inbound[1..])
  }

  predicate Faultless(inbound: seq<RecvEvent>) {
    forall k | 0 <= k < |inbound| :: inbound[k].Data?
  }

  // ----- one message of a byte string -----

  datatype Frame = Complete(total: nat) | Incomplete | Overlong

  /** The declared body length of a header block; None when int() refuses the digits. */
  function BodyLength(header: string): (r: Option<nat>)
  {
    match Field(header, CONTENT_LENGTH)
    case None => Some(0)
    case Some(d) => if |d| > MAX_INT_DIGITS then None else Some(ParseNat(d))
  }

  /**
   * The declared length of a header block: the digits after the first Content-Length: in any case
   * of letters, white space between.
   */
  lemma LengthReads(pre: string, key: string, gap: string, digits: string, post: string)
    requires |key| == |"content-length:"| && AnyCaseAt(key, 0, "content-length:")
    requires forall k | 0 <= k < |gap| :: gap[k] == ' ' || '\t' <= gap[k] <= '\r'
    requires digits != "" && forall k | 0 <= k < |digits| :: '0' <= digits[k] <= '9'
    requires post == "" || !('0' <= post[0] <= '9')
    requires forall j | 0 <= j < |pre| :: !AnyCaseAt(pre + key + gap + digits + post, j, "content-length:")
    ensures AllBody(digits, Digits)
    ensures BodyLength(pre + key + gap + digits + post) == if |digits| > 4300 then None else Some(ParseNat(digits))
  {
    hide KeyAt, AnyCaseAt, Field;
    var s := pre + key + gap + digits + post;
    LengthKey(key, 0);
    forall j | 0 <= j < |pre| ensures !KeyAt(s, j, CONTENT_LENGTH) {
      LengthKey(s, j);
    }
    FirstFieldIs(pre, key, gap, digits, post, CONTENT_LENGTH);
  }

  lemma LengthKey(s: string, j: int)
    ensures KeyAt(s, j, CONTENT_LENGTH) <==> AnyCaseAt(s, j, "content-length:")
  {
    FoldedKey(s, j, CONTENT_LENGTH, "content-length:");
  }

  /** A header block that writes it nowhere declares no body. */
  lemma LengthMissing(header: string)
    requires forall j: nat :: !AnyCaseAt(header, j, "content-length:")
    ensures BodyLength(header) == Some(0)
  {
    hide KeyAt, AnyCaseAt;
    forall j: nat ensures !FieldAt(header, j, CONTENT_LENGTH) {
      LengthKey(header, j);
    }
    FieldNone(header, CONTENT_LENGTH);
  }

  /** The first message of `s`: headers up to the blank line, then the declared body. */
  function FirstFrame(s: string): (r: Frame)
    ensures r.Complete? ==> 4 <= r.total <= |s|
  {
    match Find(s, BLANK)
    case None => Incomplete
    case Some(h) =>
      match BodyLength(s[..h + 4])
      case None => Overlong
      case Some(n) => if h + 4 + n <= |s| then Complete(h + 4 + n) else Incomplete
  }

  /** A verdict on a message is final: bytes that arrive later cannot change it. */
  lemma FirstFrameExtend(s: string, more: string)
    requires !FirstFrame(s).Incomplete?
    ensures FirstFrame(s + more) == FirstFrame(s)
  {
    hide Find, BodyLength;
    var h := Find(s, BLANK).value;
    FindExtend(s, more, BLANK);
    assert (s + more)[..h + 4] == s[..h + 4];
  }

  lemma EmptyFrame()
    ensures FirstFrame("").Incomplete?
  {
  }

  // ----- the reference: a whole stream, framed in one go -----

  /** The messages of a finished stream and the bytes no message completes. */
  function Frames(stream: string): (r: (seq<string>, string))
    decreases |stream|
  {
    match FirstFrame(stream)
    case Complete(t) =>
      var (rest, tail) := Frames(stream[t..]);
      ([stream[..t]] + rest, tail)
    case _ => ([], stream)
  }

  /** Framing partitions the stream. */
  lemma {:induction false} FramesPartition(stream: string)
    ensures var (msgs, tail) := Frames(stream); Concat(msgs) + tail == stream
    decreases |stream|
  {
    hide FirstFrame;
    match FirstFrame(stream) {
      case Complete(t) =>
        var (rest, tail) := Frames(stream[t..]);
        FramesPartition(stream[t..]);
        assert ([stream[..t]] + rest)[1..] == rest;
        assert stream == stream[..t] + stream[t..];
      case _ =>
    }
  }

  /** What one read of a finished stream must give. */
  function ReadOf(stream: string): Outcome {
    match FirstFrame(stream)
    case Complete(t) => Message(stream[..t])
    case Incomplete => Message(stream)
    case Overlong => BadLength
  }

  /** What it must leave: a residue is handed over whole, refused digits are never passed. */
  function RestOf(stream: string): (r: string)
    ensures |r| <= |stream|
  {
    match FirstFrame(stream)
    case Complete(t) => stream[t..]
    case Incomplete => ""
    case Overlong => stream
  }

  /** What the first `n` reads of a finished stream must give, read off the stream itself. */
  function Reference(stream: string, n: nat): (r: seq<Outcome>)
    ensures |r| == n
    decreases n
  {
    if n == 0 then [] else [ReadOf(stream)] + Reference(RestOf(stream), n - 1)
  }

  lemma ReferenceStep(stream: string, n: nat, k: nat)
    requires k < n
    ensures Reference(stream, n)[k] == if k == 0 then ReadOf(stream) else Reference(RestOf(stream), n - 1)[k - 1]
  {
    hide ReadOf, RestOf;
  }

  lemma FramesOfRest(stream: string)
    requires FirstFrame(stream).Complete?
    ensures ReadOf(stream).Message?
    ensures Frames(stream).0 == [ReadOf(stream).text] + Frames(RestOf(stream)).0
    ensures Frames(stream).1 == Frames(RestOf(stream)).1
  {
    hide FirstFrame;
  }

  lemma FramesOfTail(tail: string)
    requires !FirstFrame(tail).Complete?
    ensures Frames(tail) == ([], tail)
  {
    hide FirstFrame;
  }

  /** Past the last whole message: the residue once and then nothing, or the refusal for ever. */
  lemma {:induction false} ReferenceOfTail(tail: string, n: nat, k: nat)
    requires k < n && !FirstFrame(tail).Complete?
    ensures Reference(tail, n)[k] ==
              if FirstFrame(tail).Overlong? then BadLength else Message(if k == 0 then tail else "")
    decreases n
  {
    EmptyFrame();
    hide FirstFrame, Reference;
    ReferenceStep(tail, n, k);
    if k > 0 {
      ReferenceOfTail(RestOf(tail), n - 1, k - 1);
    }
  }

  /** The k-th read: a message of the stream, then the unfinished residue, then "" for ever. */
  lemma {:induction false} ReferenceIsFrames(stream: string, n: nat, k: nat)
    requires k < n
    ensures var (msgs, tail) := Frames(stream);
            Reference(stream, n)[k] ==
              if k < |msgs| then Message(msgs[k])
              else if FirstFrame(tail).Overlong? then BadLength
              else Message(if k == |msgs| then tail else "")
    decreases n
  {
    hide FirstFrame, Frames, Reference, ReadOf, RestOf;
    if FirstFrame(stream).Complete? {
      FramesOfRest(stream);
      ReferenceStep(stream, n, k);
      if k > 0 {
        ReferenceIsFrames(RestOf(stream), n - 1, k - 1);
      }
    } else {
      FramesOfTail(stream);
      ReferenceOfTail(stream, n, k);
    }
  }

  // ----- the incremental reader -----

  /** The reader's buffer and the socket's remaining script. */
  datatype ReaderState = ReaderState(buf: string, inbound: seq<RecvEvent>) {
    /** Everything the reader has not returned yet. */
    function Stream(): string { buf + Future(inbound) }
  }

  /** One next_message call: cut from the buffer when it can, otherwise recv and try again. */
  function Next(rd: ReaderState): (r: (Outcome, ReaderState))
    decreases |rd.inbound|
  {
    match FirstFrame(rd.buf)
    case Complete(t) => (Message(rd.buf[..t]), rd.(buf := rd.buf[t..]))
    case Overlong => (BadLength, rd)
    case Incomplete =>
      if rd.inbound == [] then (Message(rd.buf), rd.(buf := ""))
      else
        match rd.inbound[0]
        case Data(d) => Next(ReaderState(rd.buf + d, rd.inbound[1..]))
        case RecvTimeout => (TimedOut, rd.(inbound := rd.inbound[1..]))
        case RecvError => (ConnectionLost, rd.(inbound := rd.inbound[1..]))
  }

  predicate IsFault(o: Outcome) { o.TimedOut? || o.ConnectionLost? }

  /** What one read must do to the stream, however that stream is cut into chunks. */
  ghost predicate ReadsStream(before: ReaderState, o: Outcome, after: ReaderState) {
    if IsFault(o) then
      after.Stream() == before.Stream() && !Faultless(before.inbound) && |after.inbound| < |before.inbound|
    else
      o == ReadOf(before.Stream()) && after.Stream() == RestOf(before.Stream())
  }

  lemma FutureCons(inbound: seq<RecvEvent>)
    requires inbound != []
    ensures Future(inbound) == (if inbound[0].Data? then inbound[0].bytes else "") + Future(inbound[1..])
  {
  }

  /** A read served from the buffer alone. */
  lemma BufferedRead(rd: ReaderState)
    requires !FirstFrame(rd.buf).Incomplete?
    ensures ReadsStream(rd, Next(rd).0, Next(rd).1)
  {
    hide FirstFrame, Future;
    var more := Future(rd.inbound);
    FirstFrameExtend(rd.buf, more);
    if FirstFrame(rd.buf).Complete? {
      var t := FirstFrame(rd.buf).total;
      assert (rd.buf + more)[..t] == rd.buf[..t];
      assert (rd.buf + more)[t..] == rd.buf[t..] + more;
    }
  }

  lemma {:induction false} NextReadsStream(rd: ReaderState)
    ensures ReadsStream(rd, Next(rd).0, Next(rd).1)
    decreases |rd.inbound|
  {
    hide FirstFrame;
    if !FirstFrame(rd.buf).Incomplete? {
      BufferedRead(rd);
    } else if rd.inbound == [] {
      assert rd.Stream() == rd.buf + "" == rd.buf;
      assert rd.(buf := "").Stream() == "" + "" == "";
    } else {
      hide Future;
      FutureCons(rd.inbound);
      if rd.inbound[0].Data? {
        var rd' := ReaderState(rd.buf + rd.inbound[0].bytes, rd.inbound[1..]);
        assert rd'.Stream() == rd.Stream();
        NextReadsStream(rd');
      } else {
        assert !Faultless(rd.inbound);
        assert rd.(inbound := rd.inbound[1..]).Stream() == rd.Stream() by {
          assert "" + Future(rd.inbound[1..]) == Future(rd.inbound[1..]);
        }
      }
    }
  }

  /** The bytes that recv delivered between two states of a script. */
  ghost predicate Delivers(before: seq<RecvEvent>, after: seq<RecvEvent>, bytes: string) {
    && |after| <= |before|
    && after == before[|before| - |after|..]
    && bytes == Future(before[..|before| - |after|])
  }

  lemma {:induction false} FutureAppend(a: seq<RecvEvent>, b: seq<RecvEvent>)
    ensures Future(a + b) == Future(a) + Future(b)
  {
    if a == [] {
      assert a + b == b;
    } else {
      assert (a + b)[1..] == a[1..] + b;
      FutureAppend(a[1..], b);
    }
  }

  lemma DeliversTrans(x: seq<RecvEvent>, y: seq<RecvEvent>, z: seq<RecvEvent>, xy: string, yz: string)
    requires Delivers(x, y, xy) && Delivers(y, z, yz)
    ensures Delivers(x, z, xy + yz)
  {
    var i, j := |x| - |y|, |x| - |z|;
    assert x[..j] == x[..i] + y[..j - i];
    FutureAppend(x[..i], y[..j - i]);
  }

  /** Byte conservation: what is returned and what stays buffered is what was there and what came in. */
  lemma {:induction false} NextConservesBytes(rd: ReaderState) returns (came: string)
    ensures var (o, after) := Next(rd);
            && Delivers(rd.inbound, after.inbound, came)
            && (if o.Message? then o.text else "") + after.buf == rd.buf + came
    decreases |rd.inbound|
  {
    hide FirstFrame;
    var (o, after) := Next(rd);
    came := "";
    if FirstFrame(rd.buf).Incomplete? && rd.inbound != [] {
      var first, later := rd.inbound[0], rd.inbound[1..];
      var now := if first.Data? then first.bytes else "";
      assert rd.inbound[..1] == [first] && [first][1..] == [];
      assert Future([first]) == now + Future([]);
      assert Delivers(rd.inbound, later, now);
      var more := "";
      if first.Data? {
        more := NextConservesBytes(ReaderState(rd.buf + first.bytes, later));
      } else {
        assert later[..0] == [];
      }
      came := now + more;
      DeliversTrans(rd.inbound, later, after.inbound, now, more);
    } else {
      assert rd.inbound[..0] == [];
    }
  }

  // ----- reads up to the first fault -----

  /** The bytes recv delivers before it first fails. */
  function Until(inbound: seq<RecvEvent>): (r: string)
  {
    if inbound == [] || !inbound[0].Data? then "" else inbound[0].bytes + Until(inbound[1..])
  }

  /** Everything to be read before recv first fails. */
  function Deliverable(rd: ReaderState): string { rd.buf + Until(rd.inbound) }

  /** What one read makes of the deliverable bytes: their first frame, or else the fault or the close. */
  ghost predicate ReadsDeliverable(before: ReaderState, o: Outcome, after: ReaderState) {
    if FirstFrame(Deliverable(before)).Incomplete? && !Faultless(before.inbound) then IsFault(o)
    else
      && o == ReadOf(Deliverable(before)) && Deliverable(after) == RestOf(Deliverable(before))
      && (Faultless(after.inbound) <==> Faultless(before.inbound))
  }

  lemma FaultlessCons(inbound: seq<RecvEvent>)
    requires inbound != []
    ensures Faultless(inbound) <==> inbound[0].Data? && Faultless(inbound[1..])
  {
    if inbound[0].Data? && Faultless(inbound[1..]) {
      forall k | 0 <= k < |inbound| ensures inbound[k].Data? {
        assert k > 0 ==> inbound[k] == inbound[1..][k - 1];
      }
    }
  }

  lemma {:induction false} NextReadsDeliverable(rd: ReaderState)
    ensures ReadsDeliverable(rd, Next(rd).0, Next(rd).1)
    decreases |rd.inbound|
  {
    hide FirstFrame;
    if !FirstFrame(rd.buf).Incomplete? {
      hide Until;
      var more := Until(rd.inbound);
      FirstFrameExtend(rd.buf, more);
      if FirstFrame(rd.buf).Complete? {
        var t := FirstFrame(rd.buf).total;
        assert (rd.buf + more)[..t] == rd.buf[..t];
        assert (rd.buf + more)[t..] == rd.buf[t..] + more;
      }
    } else if rd.inbound == [] {
      assert rd.buf + "" == rd.buf;
    } else {
      FaultlessCons(rd.inbound);
      if rd.inbound[0].Data? {
        var rd' := ReaderState(rd.buf + rd.inbound[0].bytes, rd.inbound[1..]);
        assert Deliverable(rd') == Deliverable(rd);
        NextReadsDeliverable(rd');
      } else {
        assert Deliverable(rd) == rd.buf;
      }
    }
  }

  // ----- many reads -----

  /** The results of `n` successive reads and the state after them. */
  function Reads(rd: ReaderState, n: nat): (r: (seq<Outcome>, ReaderState))
    ensures |r.0| == n
    decreases n
  {
    if n == 0 then ([], rd)
    else
      var (o, rd') := Next(rd);
      var (os, last) := Reads(rd', n - 1);
      ([o] + os, last)
  }

  /** The reads that did not raise a socket error. */
  function Delivered(os: seq<Outcome>): (r: seq<Outcome>)
  {
    if os == [] then []
    else if IsFault(os[0]) then Delivered(os[1..])
    else [os[0]] + Delivered(os[1..])
  }

  /**
   * Segmentation and time-outs are invisible: leaving out the reads that raised, successive
   * reads give what the one-shot framer reads off the stream.
   */
  lemma {:induction false} ReadsFollowReference(rd: ReaderState, n: nat)
    ensures var os := Delivered(Reads(rd, n).0); os == Reference(rd.Stream(), |os|)
    decreases n
  {
    hide Next, ReadOf, RestOf, Future;
    if n > 0 {
      var (o, rd') := Next(rd);
      NextReadsStream(rd);
      ReadsFollowReference(rd', n - 1);
      var rest := Reads(rd', n - 1).0;
      assert Reads(rd, n).0 == [o] + rest && ([o] + rest)[1..] == rest;
      if !IsFault(o) {
        assert Delivered([o] + rest) == [o] + Delivered(rest);
      }
    }
  }

  lemma {:induction false} FaultlessReadsAll(rd: ReaderState, n: nat)
    requires Faultless(rd.inbound)
    ensures Delivered(Reads(rd, n).0) == Reads(rd, n).0
    decreases n
  {
    hide Next, FirstFrame;
    if n > 0 {
      var (o, rd') := Next(rd);
      NextReadsStream(rd);
      var came := NextConservesBytes(rd);
      FaultlessReadsAll(rd', n - 1);
      assert Reads(rd, n).0[1..] == Reads(rd', n - 1).0;
    }
  }

  /** Two ways of cutting the same bytes into chunks give the same reads, one by one. */
  lemma SegmentationIndependence(a: ReaderState, b: ReaderState, n: nat)
    requires Faultless(a.inbound) && Faultless(b.inbound) && a.Stream() == b.Stream()
    ensures Reads(a, n).0 == Reads(b, n).0 == Reference(a.Stream(), n)
  {
    FaultlessReadsAll(a, n);
    FaultlessReadsAll(b, n);
    ReadsFollowReference(a, n);
    ReadsFollowReference(b, n);
  }

  function Texts(os: seq<Outcome>): (r: seq<string>)
  {
    if os == [] then []
    else (if os[0].Message? then [os[0].text] else []) + Texts(os[1..])
  }

  /** Byte conservation over any number of reads, including those that raise. */
  lemma {:induction false} ReadsConserveBytes(rd: ReaderState, n: nat) returns (came: string)
    ensures var (os, last) := Reads(rd, n);
            && Delivers(rd.inbound, last.inbound, came)
            && Concat(Texts(os)) + last.buf == rd.buf + came
    decreases n
  {
    hide Next;
    if n == 0 {
      came := "";
      assert rd.inbound[..0] == [];
    } else {
      var (o, rd') := Next(rd);
      var (os, last) := Reads(rd', n - 1);
      var now := NextConservesBytes(rd);
      var later := ReadsConserveBytes(rd', n - 1);
      came := now + later;
      assert ([o] + os)[1..] == os;
      var own := if o.Message? then [o.text] else [];
      assert Texts([o] + os) == own + Texts(os);
      ConcatAppend(own, Texts(os));
      if o.Message? {
        ConcatSingle(o.text);
      }
      DeliversTrans(rd.inbound, rd'.inbound, last.inbound, now, later);
      Chain(Concat(own), Concat(Texts(os)), rd.buf, now, rd'.buf, later, last.buf);
    }
  }

  lemma Chain(a: string, b: string, buf: string, now: string, mid: string, later: string, last: string)
    requires a + mid == buf + now && b + last == mid + later
    ensures a + b + last == buf + (now + later)
  {
    calc {
      a + b + last;
      a + (b + last);
      a + (mid + later);
      (a + mid) + later;
      buf + now + later;
    }
  }

  // ----- the class -----

  class RtspReader {
    const sock: Sock
    var buf: string

    constructor (sock: Sock)
      ensures this.sock == sock && buf == ""
    {
      this.sock := sock;
      buf := "";
    }

    function State(): ReaderState
      reads this, sock
    {
      ReaderState(buf, sock.inbound)
    }

    /** The next message, "" once the peer has closed and nothing is left. */
    method NextMessage() returns (r: Outcome)
      modifies this`buf, sock`inbound
      ensures (r, State()) == Next(old(State()))
      ensures ReadsStream(old(State()), r, State())
    {
      hide Find, Field, Future, ReadOf, RestOf, ReadsStream;
      ghost var before := State();
      NextReadsStream(before);
      while true
        invariant Next(State()) == Next(before)
        decreases |sock.inbound|
      {
        var headEnd := Find(buf, BLANK);
        if headEnd.Some? {
          var header := buf[..headEnd.value + 4];
          var m := Field(header, CONTENT_LENGTH);
          if m.Some? && |m.value| > MAX_INT_DIGITS {
            return BadLength;
          }
          var total := headEnd.value + 4 + (if m.Some? then ParseNat(m.value) else 0);
          if |buf| >= total {
            r := Message(buf[..total]);
            buf := buf[total..];
            return;
          }
        }
        var data := sock.Recv();
        if !data.Message? {
          return data;
        }
        if data.text == "" {
          r := Message(buf);
          buf := "";
          return;
        }
        buf := buf + data.text;
      }
    }
  }
}
