/**
 * castd/wfdsink/session.py: `negotiate` and `run_steady_state`, which drive a negotiator
 * over a socket. The reference is a table of what each of the seven handshake messages
 * must look like and what it is answered with; the straight-line drivers refine it.
 */
module Session {
  import opened Prelude
  import opened Text
  import opened Framing
  import opened Messages
  import opened Rtsp

  // ----- the channel -----

  /** The reader, the coming faults of sendall, and the payloads sent so far. */
  datatype Channel = Channel(rd: ReaderState, faults: seq<bool>, sent: seq<string>)

  function Send(ch: Channel, payload: string): (r: (bool, Channel))
  {
    var fails := ch.faults != [] && ch.faults[0];
    (!fails, ch.(faults := if ch.faults == [] then [] else ch.faults[1..],
                 sent := if fails then ch.sent else ch.sent + [payload]))
  }

  /** Send messages until one fails. */
  function SendEach(ch: Channel, ms: seq<SinkMessage>): (r: (bool, Channel))
    decreases |ms|
  {
    if ms == [] then (true, ch)
    else
      var (ok, ch') := Send(ch, Encode(Print(ms[0])));
      if ok then SendEach(ch', ms[1..]) else (false, ch')
  }

  /** What was sent is a prefix of what was to be sent, and all of it if nothing failed. */
  ghost predicate SentPart(before: seq<string>, after: seq<string>, all: seq<string>, complete: bool) {
    && before <= after
    && after[|before|..] <= all
    && (complete ==> after == before + all)
  }

  lemma SentCons(before: seq<string>, first: string, after: seq<string>, rest: seq<string>, complete: bool)
    requires SentPart(before + [first], after, rest, complete)
    ensures SentPart(before, after, [first] + rest, complete)
  {
    var n := |before|;
    assert after[n..] == [first] + after[n + 1..] by {
      assert after[n] == (before + [first])[n];
    }
    if complete {
      assert before + [first] + rest == before + ([first] + rest);
    }
  }

  lemma {:induction false} SendEachSends(ch: Channel, ms: seq<SinkMessage>)
    ensures var (ok, ch') := SendEach(ch, ms);
            SentPart(ch.sent, ch'.sent, Wire(ms), ok) && ch'.rd == ch.rd
    decreases |ms|
  {
    hide Encode, Print, SentPart;
    var payload := if ms == [] then "" else Encode(Print(ms[0]));
    var (ok, ch') := Send(ch, payload);
    if ms == [] {
      NothingSent(ch.sent, [], true);
    } else if !ok {
      NothingSent(ch.sent, Wire(ms), ok);
    } else {
      SendEachSends(ch', ms[1..]);
      var (all, last) := SendEach(ch', ms[1..]);
      SentCons(ch.sent, payload, last.sent, Wire(ms[1..]), all);
    }
  }

  lemma NothingSent(before: seq<string>, all: seq<string>, complete: bool)
    requires complete ==> all == []
    ensures SentPart(before, before, all, complete)
  {
    assert before[|before|..] == [];
  }

  // ----- the handshake, as a table -----

  datatype Terms = Terms(capabilities: Capabilities, rtpPort: nat, ip: string)

  datatype HandshakeEnd =
    | Negotiated       // the session is returned
    | NotNegotiated    // NegotiationError
    | TransportFailed  // OSError
    | BadInteger       // ValueError

  /** May message i (M1, M2's answer, M3, M4, M5, M6's answer, M7's answer) be `m`? */
  function Check(i: nat, m: string): (r: Verdict<()>)
    requires i < 7
  {
    if i == 1 then Accepted(())
    else if i == 5 then
      match ParseM6(m)
      case Accepted(_) => Accepted(())
      case Refused => Refused
      case BadNumber => BadNumber
    else if i == 6 then if Contains(m, "200 OK") then Accepted(()) else Refused
    else if Cseq(m).Some? then Accepted(()) else Refused
  }

  /** What an acceptable message i is answered with. */
  function Answers(t: Terms, i: nat, m: string): (r: seq<SinkMessage>)
    requires i < 7 && Check(i, m).Accepted?
  {
    if i == 0 then [OptionsReply(Cseq(m).value), OptionsRequest(1)]
    else if i == 2 then [CapabilityReply(Cseq(m).value, CapabilityBody(t.capabilities, t.rtpPort, m))]
    else if i == 3 then [Ack(Cseq(m).value)]
    else if i == 4 then [Ack(Cseq(m).value), SetupRequest(t.ip, 2, t.rtpPort)]
    else if i == 5 then [PlayRequest(t.ip, 3, ParseM6(m).value.1)]
    else []
  }

  datatype Handshake = Handshake(end: HandshakeEnd, ch: Channel, accepted: seq<string>)

  /** The handshake from message i on. */
  function Exchange(t: Terms, i: nat, ch: Channel): (r: Handshake)
    requires i <= 7
    decreases 7 - i
  {
    if i == 7 then Handshake(Negotiated, ch, [])
    else
      var (o, rd) := Next(ch.rd);
      var ch1 := ch.(rd := rd);
      match o
      case TimedOut => Handshake(TransportFailed, ch1, [])
      case ConnectionLost => Handshake(TransportFailed, ch1, [])
      case BadLength => Handshake(BadInteger, ch1, [])
      case Message(m) =>
        match Check(i, m)
        case Refused => Handshake(NotNegotiated, ch1, [])
        case BadNumber => Handshake(BadInteger, ch1, [])
        case Accepted(_) =>
          var (ok, ch2) := SendEach(ch1, Answers(t, i, m));
          if !ok then Handshake(TransportFailed, ch2, [m])
          else
            var rest := Exchange(t, i + 1, ch2);
            rest.(accepted := [m] + rest.accepted)
  }

  predicate AllAccepted(i: nat, ms: seq<string>) {
    i + |ms| <= 7 && forall k | 0 <= k < |ms| :: Check(i + k, ms[k]).Accepted?
  }

  /** Everything the accepted messages are answered with, in order. */
  function Transcript(t: Terms, i: nat, ms: seq<string>): (r: seq<SinkMessage>)
    requires AllAccepted(i, ms)
    decreases |ms|
  {
    if ms == [] then []
    else
      assert forall k | 0 <= k < |ms| - 1 :: ms[1..][k] == ms[k + 1] && Check(i + (k + 1), ms[k + 1]).Accepted?;
      Answers(t, i, ms[0]) + Transcript(t, i + 1, ms[1..])
  }

  // ----- reads against the reference -----

  /** The bytes left after the first `n` reads of a stream. */
  function After(stream: string, n: nat): string
    decreases n
  {
    if n == 0 then stream else After(RestOf(stream), n - 1)
  }

  function AsMessages(ms: seq<string>): (r: seq<Outcome>)
    ensures |r| == |ms|
  {
    if ms == [] then [] else [Message(ms[0])] + AsMessages(ms[1..])
  }

  /** `ms` are the first messages of the stream, and `after` is what follows them. */
  ghost predicate Heard(stream: string, ms: seq<string>, after: string) {
    Reference(stream, |ms|) == AsMessages(ms) && after == After(stream, |ms|)
  }

  /** One more message heard at the front. */
  lemma HeardCons(rd: ReaderState, m: string, ms: seq<string>, after: string)
    requires Next(rd).0 == Message(m) && Heard(Next(rd).1.Stream(), ms, after)
    ensures Heard(rd.Stream(), [m] + ms, after)
  {
    NextReadsStream(rd);
    hide FirstFrame, Next;
    assert ([m] + ms)[1..] == ms;
  }

  lemma {:induction false} WireAppend(a: seq<SinkMessage>, b: seq<SinkMessage>)
    ensures Wire(a + b) == Wire(a) + Wire(b)
  {
    hide Encode, Print;
    if a == [] {
      assert a + b == b;
    } else {
      assert (a + b)[1..] == a[1..] + b;
      WireAppend(a[1..], b);
    }
  }

  lemma SentTrans(a: seq<string>, b: seq<string>, c: seq<string>, ab: seq<string>, bc: seq<string>, complete: bool)
    requires SentPart(a, b, ab, true) && SentPart(b, c, bc, complete)
    ensures SentPart(a, c, ab + bc, complete)
  {
    assert c[|a|..] == ab + c[|b|..];
    if complete {
      assert a + ab + bc == a + (ab + bc);
    }
  }

  /** What a handshake from message i on reads and sends. */
  ghost predicate Transcribed(t: Terms, i: nat, ch: Channel, r: Handshake) {
    && AllAccepted(i, r.accepted)
    && Reference(ch.rd.Stream(), |r.accepted|) == AsMessages(r.accepted)
    && SentPart(ch.sent, r.ch.sent, Wire(Transcript(t, i, r.accepted)), r.end.Negotiated?)
    && (r.end.Negotiated? ==> |r.accepted| == 7 - i && Heard(ch.rd.Stream(), r.accepted, r.ch.rd.Stream()))
  }

  /** A handshake that stops while sending the answers to one message. */
  lemma StopsSending(t: Terms, i: nat, ch: Channel, m: string)
    requires i < 7 && Next(ch.rd).0 == Message(m) && Check(i, m).Accepted?
    requires !SendEach(ch.(rd := Next(ch.rd).1), Answers(t, i, m)).0
    ensures Transcribed(t, i, ch, Exchange(t, i, ch))
  {
    hide Next, Check, SentPart, SendEach, Wire, ReadOf, RestOf, Answers;
    var rd := Next(ch.rd).1;
    SendEachSends(ch.(rd := rd), Answers(t, i, m));
    assert Heard(rd.Stream(), [], After(rd.Stream(), 0));
    HeardCons(ch.rd, m, [], rd.Stream());
    assert [m] + [] == [m] && [m][1..] == [];
    assert Transcript(t, i, [m]) == Answers(t, i, m) + [] == Answers(t, i, m);
  }

  /** A handshake that goes on after message m, on channel ch2. */
  lemma GoesOn(t: Terms, i: nat, ch: Channel, m: string, ch2: Channel, rest: Handshake)
    requires i < 7 && Next(ch.rd).0 == Message(m) && Check(i, m).Accepted?
    requires SendEach(ch.(rd := Next(ch.rd).1), Answers(t, i, m)) == (true, ch2)
    requires Transcribed(t, i + 1, ch2, rest)
    ensures Transcribed(t, i, ch, rest.(accepted := [m] + rest.accepted))
  {
    hide Next, Check, SentPart, SendEach, Wire, ReadOf, RestOf, Answers, AllAccepted;
    var rd := Next(ch.rd).1;
    var all := [m] + rest.accepted;
    assert all[1..] == rest.accepted;
    SendEachSends(ch.(rd := rd), Answers(t, i, m));
    AcceptedCons(i, m, rest.accepted);
    HeardCons(ch.rd, m, rest.accepted, After(ch2.rd.Stream(), |rest.accepted|));
    WireAppend(Answers(t, i, m), Transcript(t, i + 1, rest.accepted));
    SentTrans(ch.sent, ch2.sent, rest.ch.sent, Wire(Answers(t, i, m)),
              Wire(Transcript(t, i + 1, rest.accepted)), rest.end.Negotiated?);
  }

  /**
   * The transcript of every handshake, against any peer: the messages accepted are the first
   * ones of the reference framing, what was sent is a prefix of what they are answered with,
   * and a negotiated end has accepted all seven, sent everything, and left the rest unread.
   */
  lemma {:induction false} ExchangeTranscript(t: Terms, i: nat, ch: Channel)
    requires i <= 7
    ensures Transcribed(t, i, ch, Exchange(t, i, ch))
    decreases 7 - i
  {
    var r := Exchange(t, i, ch);
    if i == 7 || !Next(ch.rd).0.Message? || !Check(i, Next(ch.rd).0.text).Accepted? {
      hide Next, Check, SentPart;
      NothingSent(ch.sent, [], r.end.Negotiated?);
    } else {
      hide Next, Check, SendEach, Transcribed;
      var m := Next(ch.rd).0.text;
      var (ok, ch2) := SendEach(ch.(rd := Next(ch.rd).1), Answers(t, i, m));
      if !ok {
        StopsSending(t, i, ch, m);
      } else {
        ExchangeTranscript(t, i + 1, ch2);
        GoesOn(t, i, ch, m, ch2, Exchange(t, i + 1, ch2));
      }
    }
  }

  lemma AcceptedCons(i: nat, m: string, ms: seq<string>)
    requires i < 7 && Check(i, m).Accepted? && AllAccepted(i + 1, ms)
    ensures AllAccepted(i, [m] + ms)
  {
    hide Check;
    var all := [m] + ms;
    forall k | 0 <= k < |all| ensures Check(i + k, all[k]).Accepted? {
      if k > 0 {
        assert Check(i + 1 + (k - 1), ms[k - 1]).Accepted?;
      }
    }
  }

  // ----- what a negotiated handshake consumed and sent -----

  /** The seven messages of a full transcript: own CSeqs 1, 2, 3, and PLAY carries M6's session. */
  function SevenMessages(t: Terms, ms: seq<string>): (r: seq<SinkMessage>)
    requires |ms| == 7 && AllAccepted(0, ms)
    ensures |r| == 7
  {
    assert Check(0 + 0, ms[0]).Accepted? && Check(0 + 2, ms[2]).Accepted? && Check(0 + 3, ms[3]).Accepted?;
    assert Check(0 + 4, ms[4]).Accepted? && Check(0 + 5, ms[5]).Accepted?;
    [OptionsReply(Cseq(ms[0]).value), OptionsRequest(1),
     CapabilityReply(Cseq(ms[2]).value, CapabilityBody(t.capabilities, t.rtpPort, ms[2])),
     Ack(Cseq(ms[3]).value),
     Ack(Cseq(ms[4]).value), SetupRequest(t.ip, 2, t.rtpPort),
     PlayRequest(t.ip, 3, ParseM6(ms[5]).value.1)]
  }

  lemma FullTranscript(t: Terms, ms: seq<string>)
    requires |ms| == 7 && AllAccepted(0, ms)
    ensures Transcript(t, 0, ms) == SevenMessages(t, ms)
  {
    hide Cseq, ParseM6, CapabilityBody, Contains, Check, AllAccepted, Transcript;
    TranscriptStep(t, 6, ms);
    assert ms[7..] == [];
    TranscriptEnd(t);
    assert Transcript(t, 6, ms[6..]) == [];
    TranscriptStep(t, 5, ms);
    TranscriptStep(t, 4, ms);
    assert Transcript(t, 4, ms[4..]) == SevenMessages(t, ms)[4..];
    TranscriptStep(t, 3, ms);
    TranscriptStep(t, 2, ms);
    assert Transcript(t, 2, ms[2..]) == SevenMessages(t, ms)[2..];
    TranscriptStep(t, 1, ms);
    TranscriptStep(t, 0, ms);
    assert ms[0..] == ms;
  }

  lemma TranscriptEnd(t: Terms)
    ensures Transcript(t, 7, []) == []
  {
  }

  /** A negotiated handshake consumed exactly seven messages of the stream and sent seven in order. */
  lemma NegotiatedTranscript(t: Terms, ch: Channel)
    requires Exchange(t, 0, ch).end.Negotiated?
    ensures var r := Exchange(t, 0, ch); var ms := r.accepted;
            && |ms| == 7 && AllAccepted(0, ms)
            && Heard(ch.rd.Stream(), ms, r.ch.rd.Stream())
            && r.ch.sent == ch.sent + Wire(SevenMessages(t, ms))
  {
    hide Check, Wire, Exchange, Heard, AllAccepted, SevenMessages;
    ExchangeTranscript(t, 0, ch);
    FullTranscript(t, Exchange(t, 0, ch).accepted);
  }

  lemma TranscriptStep(t: Terms, i: nat, ms: seq<string>)
    requires i < |ms| && AllAccepted(0, ms)
    ensures AllAccepted(i, ms[i..]) && AllAccepted(i + 1, ms[i + 1..])
    ensures Check(i, ms[i]).Accepted?
    ensures Transcript(t, i, ms[i..]) == Answers(t, i, ms[i]) + Transcript(t, i + 1, ms[i + 1..])
  {
    hide Check;
    assert forall k | 0 <= k < |ms| :: Check(0 + k, ms[k]).Accepted?;
    assert Check(0 + i, ms[i]).Accepted?;
    forall k | 0 <= k < |ms| - i ensures Check(i + k, ms[i..][k]).Accepted? {
      assert Check(0 + (i + k), ms[i + k]).Accepted?;
    }
    var rest := ms[i + 1..];
    forall k | 0 <= k < |rest| ensures Check((i + 1) + k, rest[k]).Accepted? {
      assert Check(0 + (i + 1 + k), ms[i + 1 + k]).Accepted?;
    }
    assert ms[i..][1..] == ms[i + 1..];
  }

  lemma {:induction false} ReferenceAt(stream: string, n: nat, k: nat)
    requires k < n
    ensures Reference(stream, n)[k] == ReadOf(After(stream, k))
    decreases k
  {
    hide ReadOf, RestOf;
    if k > 0 {
      ReferenceAt(RestOf(stream), n - 1, k - 1);
    }
  }

  lemma {:induction false} AfterStep(stream: string, k: nat)
    ensures After(stream, k + 1) == RestOf(After(stream, k))
    decreases k
  {
    hide RestOf;
    if k > 0 {
      AfterStep(RestOf(stream), k - 1);
    }
  }

  lemma {:induction false} AsMessagesAt(ms: seq<string>, k: nat)
    requires k < |ms|
    ensures AsMessages(ms)[k] == Message(ms[k])
  {
    if k > 0 {
      AsMessagesAt(ms[1..], k - 1);
    }
  }

  lemma HeardAt(stream: string, ms: seq<string>, k: nat)
    requires Heard(stream, ms, After(stream, |ms|)) && k < |ms|
    ensures Message(ms[k]) == ReadOf(After(stream, k))
  {
    hide ReadOf, RestOf;
    ReferenceAt(stream, |ms|, k);
    AsMessagesAt(ms, k);
  }

  lemma EmptyIsRefused()
    ensures Cseq("").None? && ParseM6("") == Refused && !Contains("", "200 OK")
    ensures ReadOf("") == Message("") && RestOf("") == ""
  {
    EmptyFrame();
  }

  /** From message i on, the stream itself holds what the table accepts. */
  predicate Acceptable(i: nat, stream: string)
    requires i <= 7
    decreases 7 - i
  {
    i == 7 || (var o := ReadOf(stream);
               o.Message? && Check(i, o.text).Accepted? && Acceptable(i + 1, RestOf(stream)))
  }

  predicate NoneFails(faults: seq<bool>) { forall k | 0 <= k < |faults| :: !faults[k] }

  lemma {:induction false} SendEachSucceeds(ch: Channel, ms: seq<SinkMessage>)
    requires NoneFails(ch.faults)
    ensures var (ok, ch') := SendEach(ch, ms); ok && NoneFails(ch'.faults)
    decreases |ms|
  {
    hide Encode, Print;
    if ms != [] {
      SendEachSucceeds(Send(ch, Encode(Print(ms[0]))).1, ms[1..]);
    }
  }

  lemma NextStaysFaultless(rd: ReaderState)
    requires Faultless(rd.inbound)
    ensures !IsFault(Next(rd).0) && Faultless(Next(rd).1.inbound)
  {
    hide Next, ReadOf, RestOf, Future;
    NextReadsStream(rd);
    var came := NextConservesBytes(rd);
  }

  /**
   * Over a transport that does not fail, the handshake succeeds if and only if the first seven
   * messages of the stream are acceptable, whatever the chunks they come in.
   */
  lemma {:induction false} NegotiatedIff(t: Terms, i: nat, ch: Channel)
    requires i <= 7 && Faultless(ch.rd.inbound) && NoneFails(ch.faults)
    ensures Exchange(t, i, ch).end.Negotiated? <==> Acceptable(i, ch.rd.Stream())
    decreases 7 - i
  {
    hide Next, Check, SendEach, ReadOf, RestOf, Future, Answers, NoneFails, Faultless;
    if i < 7 {
      var (o, rd) := Next(ch.rd);
      NextReadsStream(ch.rd);
      NextStaysFaultless(ch.rd);
      if o.Message? && Check(i, o.text).Accepted? {
        var ch1 := ch.(rd := rd);
        SendEachSucceeds(ch1, Answers(t, i, o.text));
        SendEachSends(ch1, Answers(t, i, o.text));
        NegotiatedIff(t, i + 1, SendEach(ch1, Answers(t, i, o.text)).1);
      }
    }
  }

  // ----- the same over a transport that may fail -----

  /**
   * What a transport carries: the bytes before recv first fails, whether it does, and how many
   * payloads are sent before a sendall first fails (None if none ever does).
   */
  datatype Transport = Transport(bytes: string, cut: bool, sends: Option<nat>)

  function GoodSends(faults: seq<bool>): Option<nat> {
    if faults == [] then None
    else if faults[0] then Some(0)
    else match GoodSends(faults[1..]) case None => None case Some(n) => Some(n + 1)
  }

  function Carried(ch: Channel): Transport {
    Transport(Deliverable(ch.rd), !Faultless(ch.rd.inbound), GoodSends(ch.faults))
  }

  /** How many payloads answer message i. */
  function AnswerCount(i: nat): nat { if i == 0 || i == 4 then 2 else if i == 1 || i >= 6 then 0 else 1 }

  predicate CanSend(x: Transport, n: nat) { x.sends.None? || n <= x.sends.value }

  /** What it carries once a message has been read and n payloads sent. */
  function Onward(x: Transport, n: nat): Transport
    requires CanSend(x, n)
  {
    Transport(RestOf(x.bytes), x.cut, if x.sends.None? then None else Some(x.sends.value - n))
  }

  /** The transport fails before the next message is complete. */
  predicate FailsFirst(x: Transport) { x.cut && FirstFrame(x.bytes).Incomplete? }

  /** Messages i to n - 1 arrive, are acceptable, and can be answered. */
  predicate Passes(i: nat, n: nat, x: Transport)
    requires i <= n <= 7
    decreases n - i
  {
    i == n ||
    (&& !FailsFirst(x) && ReadOf(x.bytes).Message? && Check(i, ReadOf(x.bytes).text).Accepted?
     && CanSend(x, AnswerCount(i)) && Passes(i + 1, n, Onward(x, AnswerCount(i))))
  }

  /** From message i on, a number int() refuses arrives before anything else ends the handshake. */
  predicate ChokesOn(i: nat, x: Transport)
    requires i <= 7
    decreases 7 - i
  {
    i < 7 && !FailsFirst(x) &&
    var o := ReadOf(x.bytes);
    o.BadLength? ||
    (o.Message? && match Check(i, o.text)
                   case BadNumber => true
                   case Refused => false
                   case Accepted(_) => CanSend(x, AnswerCount(i)) && ChokesOn(i + 1, Onward(x, AnswerCount(i))))
  }

  lemma AnswersCounted(t: Terms, i: nat, m: string)
    requires i < 7 && Check(i, m).Accepted?
    ensures |Answers(t, i, m)| == AnswerCount(i)
  {
    hide Cseq, ParseM6, CapabilityBody, Contains;
  }

  /** A list of payloads goes out exactly when enough sends succeed. */
  lemma {:induction false} SendEachCounted(ch: Channel, ms: seq<SinkMessage>)
    ensures var (ok, ch') := SendEach(ch, ms); var before, after := GoodSends(ch.faults), GoodSends(ch'.faults);
            && ch'.rd == ch.rd
            && (ok <==> before.None? || |ms| <= before.value)
            && (ok ==> |ch'.sent| == |ch.sent| + |ms|
                       && after == if before.None? then None else Some(before.value - |ms|))
            && (!ok ==> |ch'.sent| < |ch.sent| + |ms|)
    decreases |ms|
  {
    hide Encode, Print;
    if ms != [] {
      SendEachCounted(Send(ch, Encode(Print(ms[0]))).1, ms[1..]);
    }
  }

  /** One row of the table, in terms of what the transport carries. */
  lemma RowCarried(t: Terms, i: nat, ch: Channel)
    requires i < 7
    ensures var x := Carried(ch); var (o, rd) := Next(ch.rd); var ch1 := ch.(rd := rd);
            && (FailsFirst(x) ==> IsFault(o))
            && (!FailsFirst(x) ==> o == ReadOf(x.bytes))
            && (!FailsFirst(x) && o.Message? && Check(i, o.text).Accepted? ==>
                  var (ok, ch2) := SendEach(ch1, Answers(t, i, o.text));
                  && (ok <==> CanSend(x, AnswerCount(i)))
                  && (ok ==> Carried(ch2) == Onward(x, AnswerCount(i)) && |ch2.sent| == |ch.sent| + AnswerCount(i))
                  && (!ok ==> |ch2.sent| < |ch.sent| + AnswerCount(i)))
  {
    hide Next, FirstFrame, Check, Answers, SendEach, Faultless, Until;
    NextReadsDeliverable(ch.rd);
    hide ReadOf, RestOf;
    var (o, rd) := Next(ch.rd);
    if o.Message? && Check(i, o.text).Accepted? {
      AnswersCounted(t, i, o.text);
      SendEachCounted(ch.(rd := rd), Answers(t, i, o.text));
    }
  }

  /**
   * How the handshake ends, exactly, over every transport: it succeeds if and only if all seven
   * messages arrive, are acceptable and can be answered before anything fails; and it raises
   * ValueError if and only if a number int() refuses comes before anything else ends it.
   */
  lemma {:induction false} ExchangeIff(t: Terms, i: nat, ch: Channel)
    requires i <= 7
    ensures Exchange(t, i, ch).end.Negotiated? <==> Passes(i, 7, Carried(ch))
    ensures Exchange(t, i, ch).end.BadInteger? <==> ChokesOn(i, Carried(ch))
    decreases 7 - i
  {
    hide Next, Check, SendEach, ReadOf, Answers, Carried, FailsFirst, CanSend, Onward;
    if i < 7 {
      RowCarried(t, i, ch);
      var (o, rd) := Next(ch.rd);
      if o.Message? && Check(i, o.text).Accepted? && SendEach(ch.(rd := rd), Answers(t, i, o.text)).0 {
        ExchangeIff(t, i + 1, SendEach(ch.(rd := rd), Answers(t, i, o.text)).1);
      }
    }
  }

  /** How many payloads answer messages i to n - 1. */
  function AnswersUpTo(i: nat, n: nat): nat
    requires i <= n
    decreases n - i
  {
    if i == n then 0 else AnswerCount(i) + AnswersUpTo(i + 1, n)
  }

  /** The answers to messages i to n - 1 all go out exactly when the handshake passes message n - 1. */
  lemma {:induction false} AnsweredIff(t: Terms, i: nat, n: nat, ch: Channel)
    requires i < n <= 7 && AnswerCount(n - 1) > 0
    ensures |Exchange(t, i, ch).ch.sent| >= |ch.sent| + AnswersUpTo(i, n) <==> Passes(i, n, Carried(ch))
    decreases n - i
  {
    hide Next, Check, SendEach, ReadOf, Answers, Carried, FailsFirst, CanSend, Onward;
    RowCarried(t, i, ch);
    AnswersDue(i, n);
    var (o, rd) := Next(ch.rd);
    if o.Message? && Check(i, o.text).Accepted? && SendEach(ch.(rd := rd), Answers(t, i, o.text)).0 {
      var ch2 := SendEach(ch.(rd := rd), Answers(t, i, o.text)).1;
      if i + 1 < n {
        AnsweredIff(t, i + 1, n, ch2);
      } else {
        SentOnlyGrows(t, n, ch2);
      }
    }
  }

  lemma {:induction false} AnswersDue(i: nat, n: nat)
    requires i < n && AnswerCount(n - 1) > 0
    ensures AnswersUpTo(i, n) > 0
    decreases n - i
  {
    if i + 1 < n {
      AnswersDue(i + 1, n);
    }
  }

  lemma SentOnlyGrows(t: Terms, i: nat, ch: Channel)
    requires i <= 7
    ensures |Exchange(t, i, ch).ch.sent| >= |ch.sent|
  {
    hide Exchange;
    ExchangeTranscript(t, i, ch);
  }

  // ----- the same condition, on the frames of the stream -----

  predicate AllAcceptable(i: nat, os: seq<Outcome>) {
    i + |os| <= 7 && forall k | 0 <= k < |os| :: os[k].Message? && Check(i + k, os[k].text).Accepted?
  }

  lemma AllAcceptableCons(i: nat, o: Outcome, os: seq<Outcome>)
    requires i + 1 + |os| <= 7
    ensures AllAcceptable(i, [o] + os) <==> o.Message? && Check(i, o.text).Accepted? && AllAcceptable(i + 1, os)
  {
    hide Check;
    var all := [o] + os;
    if AllAcceptable(i, all) {
      assert all[0].Message? && Check(i + 0, all[0].text).Accepted?;
      forall k | 0 <= k < |os| ensures os[k].Message? && Check((i + 1) + k, os[k].text).Accepted? {
        assert all[k + 1].Message? && Check(i + (k + 1), all[k + 1].text).Accepted?;
      }
    }
    if o.Message? && Check(i, o.text).Accepted? && AllAcceptable(i + 1, os) {
      forall k | 0 <= k < |all| ensures all[k].Message? && Check(i + k, all[k].text).Accepted? {
        if k > 0 {
          assert os[k - 1].Message? && Check((i + 1) + (k - 1), os[k - 1].text).Accepted?;
        }
      }
    }
  }

  lemma {:induction false} AcceptableReads(i: nat, stream: string)
    requires i <= 7
    ensures Acceptable(i, stream) <==> AllAcceptable(i, Reference(stream, 7 - i))
    decreases 7 - i
  {
    hide ReadOf, RestOf, Check, AllAcceptable;
    if i < 7 {
      AcceptableReads(i + 1, RestOf(stream));
      AllAcceptableCons(i, ReadOf(stream), Reference(RestOf(stream), 6 - i));
    } else {
      NoneAcceptable();
    }
  }

  lemma NoneAcceptable()
    ensures AllAcceptable(7, [])
  {
  }

  /** Six acceptable frames, and then M7's answer: a seventh frame, or else the residue. */
  predicate FramesAcceptable(stream: string) {
    var (msgs, tail) := Frames(stream);
    && |msgs| >= 6 && (forall k | 0 <= k < 6 :: Check(k, msgs[k]).Accepted?)
    && if |msgs| >= 7 then Check(6, msgs[6]).Accepted?
       else !FirstFrame(tail).Overlong? && Check(6, tail).Accepted?
  }

  /** The k-th of the first seven reads, acceptable or not. */
  predicate ReadAcceptable(stream: string, k: nat)
    requires k < 7
  {
    var o := Reference(stream, 7)[k];
    o.Message? && Check(k, o.text).Accepted?
  }

  lemma AllReadsAcceptable(stream: string)
    ensures Acceptable(0, stream) <==> forall k | 0 <= k < 7 :: ReadAcceptable(stream, k)
  {
    AcceptableReads(0, stream);
    hide Check, Reference, Acceptable;
    var os := Reference(stream, 7);
    if AllAcceptable(0, os) {
      forall k | 0 <= k < 7 ensures ReadAcceptable(stream, k) {
        assert os[k].Message? && Check(0 + k, os[k].text).Accepted?;
      }
    }
    if forall k | 0 <= k < 7 :: ReadAcceptable(stream, k) {
      forall k | 0 <= k < |os| ensures os[k].Message? && Check(0 + k, os[k].text).Accepted? {
        assert ReadAcceptable(stream, k);
      }
    }
  }

  /**
   * What a handshake needs of a stream, frame by frame: M1 to M6's answer must be complete
   * frames, M7's answer may be the residue the peer's close cut short.
   */
  lemma AcceptableFrames(stream: string)
    ensures Acceptable(0, stream) <==> FramesAcceptable(stream)
  {
    hide Acceptable, FirstFrame, Frames, Reference, Cseq, ParseM6, Contains;
    AllReadsAcceptable(stream);
    EmptyIsRefused();
    var msgs := Frames(stream).0;
    forall k | 0 <= k < 7
      ensures Reference(stream, 7)[k] ==
                if k < |msgs| then Message(msgs[k])
                else if FirstFrame(Frames(stream).1).Overlong? then BadLength
                else Message(if k == |msgs| then Frames(stream).1 else "")
    {
      ReferenceIsFrames(stream, 7, k);
    }
    if Acceptable(0, stream) {
      assert ReadAcceptable(stream, 2) && ReadAcceptable(stream, 6);
      var afterTail := if 0 < |msgs| < 6 then |msgs| + 1 else 0;
      assert ReadAcceptable(stream, afterTail);
      forall k | 0 <= k < 6 ensures Check(k, msgs[k]).Accepted? {
        assert ReadAcceptable(stream, k);
      }
    }
    if FramesAcceptable(stream) {
      forall k | 0 <= k < 7 ensures ReadAcceptable(stream, k) {
        assert k < 6 ==> Check(k, msgs[k]).Accepted?;
      }
    }
  }

  /**
   * What a negotiated handshake took from the stream, against any peer: the first six messages
   * are the stream's first six frames; the seventh is the seventh frame if and only if the stream
   * has one, and otherwise the unterminated residue.
   */
  lemma NegotiatedFrames(t: Terms, ch: Channel)
    requires Exchange(t, 0, ch).end.Negotiated?
    ensures var (msgs, tail) := Frames(ch.rd.Stream()); var ms := Exchange(t, 0, ch).accepted;
            && |ms| == 7 && |msgs| >= 6 && ms[..6] == msgs[..6]
            && ms[6] == (if |msgs| >= 7 then msgs[6] else tail)
  {
    hide FirstFrame, Frames, Reference, Exchange, Check, Wire, ReadOf, RestOf, AllAccepted;
    NegotiatedTranscript(t, ch);
    var stream, ms := ch.rd.Stream(), Exchange(t, 0, ch).accepted;
    var msgs := Frames(stream).0;
    forall k | 0 <= k < 7
      ensures ReadAcceptable(stream, k)
      ensures Message(ms[k]) == (if k < |msgs| then Message(msgs[k])
                                 else if FirstFrame(Frames(stream).1).Overlong? then BadLength
                                 else Message(if k == |msgs| then Frames(stream).1 else ""))
    {
      AsMessagesAt(ms, k);
      ReferenceIsFrames(stream, 7, k);
      AcceptedAt(ms, k);
    }
    AllReadsAcceptable(stream);
    AcceptableFrames(stream);
    assert FramesAcceptable(stream);
  }

  lemma AcceptedAt(ms: seq<string>, k: nat)
    requires AllAccepted(0, ms) && k < |ms|
    ensures Check(k, ms[k]).Accepted?
  {
    assert Check(0 + k, ms[k]).Accepted?;
  }

  /** A frame with a CSeq and nothing else, and an answer to M6. */
  const NUMBERED := ["CSeq: 1"]
  const SETUP_ANSWER := ["server_port=1", "Session: 1"]

  lemma NumberedIsAccepted()
    ensures Cseq(Head(NUMBERED)) == Some("1")
  {
    assert AllBody("1", Digits);
    assert Lines(NUMBERED) == "CSeq: 1" + CRLF + Lines([]);
    assert Head(NUMBERED) == "" + CSEQ.key + " " + "1" + BLANK;
    FirstFieldIs("", CSEQ.key, " ", "1", BLANK, CSEQ);
  }

  lemma SetupAnswerText()
    ensures Head(SETUP_ANSWER) == "server_port=1" + CRLF + "Session: 1" + BLANK
  {
    assert SETUP_ANSWER[1..] == ["Session: 1"] && ["Session: 1"][1..] == [];
    assert Lines(["Session: 1"]) == "Session: 1" + CRLF + "";
    assert BLANK == CRLF + CRLF;
  }

  lemma SetupAnswerIsAccepted()
    ensures ParseM6(Head(SETUP_ANSWER)).Accepted?
  {
    SetupAnswerText();
    hide Field, Head, Lines;
    var s, pre, post := Head(SETUP_ANSWER), "server_port=1" + CRLF, CRLF + "Session: 1" + BLANK;
    assert AllBody("1", Digits) && AllBody("1", IdChars);
    assert s == "" + SERVER_PORT.key + "" + "1" + post;
    FirstFieldIs("", SERVER_PORT.key, "", "1", post, SERVER_PORT);
    forall j | 0 <= j < |pre| ensures !KeyAt(s, j, SESSION) {
      assert s[j] == pre[j] && pre[j] != SESSION.key[0];
    }
    assert s == pre + SESSION.key + " " + "1" + BLANK;
    FirstFieldIs(pre, SESSION.key, " ", "1", BLANK, SESSION);
  }

  function Streamed(frames: seq<string>, residue: string): string {
    if frames == [] then residue else frames[0] + Streamed(frames[1..], residue)
  }

  ghost predicate WholeWhatever(frame: string) {
    frame != "" && forall rest: string :: FirstFrame(frame + rest) == Complete(|frame|)
  }

  lemma {:induction false} StreamedFrames(frames: seq<string>, residue: string)
    requires forall k | 0 <= k < |frames| :: WholeWhatever(frames[k])
    requires FirstFrame(residue).Incomplete?
    ensures Frames(Streamed(frames, residue)) == (frames, residue)
  {
    hide FirstFrame;
    if frames != [] {
      assert WholeWhatever(frames[0]);
      FramesBegin(frames[0], Streamed(frames[1..], residue));
      StreamedFrames(frames[1..], residue);
      assert [frames[0]] + frames[1..] == frames;
    }
  }

  /** Five numbered messages, an answer to M6, and the start of an answer to M7 that never ends. */
  const CUT_SHORT :=
    Streamed([Head(NUMBERED), Head(NUMBERED), Head(NUMBERED), Head(NUMBERED), Head(NUMBERED), Head(SETUP_ANSWER)],
             "200 OK")

  lemma PlainFrameWhole(lines: seq<string>)
    requires lines != [] && AllPlain(lines)
    ensures WholeWhatever(Head(lines))
  {
    forall rest: string ensures FirstFrame(Head(lines) + rest) == Complete(|Head(lines)|) {
      PlainHeadFrames(lines, rest);
    }
  }

  lemma NoBlankInOk()
    ensures FirstFrame("200 OK").Incomplete?
  {
    forall j | 0 <= j <= 2 ensures !MatchAt("200 OK", j, BLANK) {
      assert "200 OK"[j..j + 4][0] == "200 OK"[j];
    }
    FindSpec("200 OK", BLANK);
  }

  lemma CutShortFrames()
    ensures var (msgs, tail) := Frames(CUT_SHORT);
            && |msgs| == 6 && tail == "200 OK" && FirstFrame(tail).Incomplete?
            && (forall k | 0 <= k < 5 :: msgs[k] == Head(NUMBERED)) && msgs[5] == Head(SETUP_ANSWER)
  {
    PlainFrameWhole(NUMBERED);
    PlainFrameWhole(SETUP_ANSWER);
    NoBlankInOk();
    hide WholeWhatever, FirstFrame, Head;
    StreamedFrames([Head(NUMBERED), Head(NUMBERED), Head(NUMBERED), Head(NUMBERED), Head(NUMBERED), Head(SETUP_ANSWER)],
                   "200 OK");
  }

  lemma CutShortIsAcceptable()
    ensures Acceptable(0, CUT_SHORT)
  {
    hide FirstFrame, Frames, Head, Cseq, ParseM6, Acceptable, Streamed;
    CutShortFrames();
    NumberedIsAccepted();
    SetupAnswerIsAccepted();
    OkContainsOk();
    var msgs := Frames(CUT_SHORT).0;
    forall k | 0 <= k < 6 ensures Check(k, msgs[k]).Accepted? {
      assert k < 5 ==> msgs[k] == Head(NUMBERED);
    }
    AcceptableFrames(CUT_SHORT);
  }

  lemma OkContainsOk()
    ensures Contains("200 OK", "200 OK")
  {
    assert MatchAt("200 OK", 0, "200 OK");
    FindSpec("200 OK", "200 OK");
  }

  /** On an acceptable stream of six frames, the handshake succeeds on the residue. */
  lemma ResidueSucceeds(t: Terms, ch: Channel)
    requires Faultless(ch.rd.inbound) && NoneFails(ch.faults)
    requires Acceptable(0, ch.rd.Stream()) && |Frames(ch.rd.Stream()).0| == 6
    ensures var r := Exchange(t, 0, ch);
            r.end.Negotiated? && |r.accepted| == 7 && r.accepted[6] == Frames(ch.rd.Stream()).1
  {
    hide Exchange, Frames, Acceptable, Faultless, NoneFails, Future;
    NegotiatedIff(t, 0, ch);
    NegotiatedFrames(t, ch);
  }

  /** So a handshake can succeed on an answer to M7 that is no complete message. */
  lemma ResidueHandshake(t: Terms, ch: Channel)
    requires ch.rd.Stream() == CUT_SHORT && Faultless(ch.rd.inbound) && NoneFails(ch.faults)
    ensures var r := Exchange(t, 0, ch);
            r.end.Negotiated? && |r.accepted| == 7 && r.accepted[6] == "200 OK" && FirstFrame("200 OK").Incomplete?
  {
    hide Exchange, FirstFrame, Frames, Head, Acceptable, Faultless, Streamed, NoneFails, Future;
    CutShortFrames();
    CutShortIsAcceptable();
    ResidueSucceeds(t, ch);
  }

  // ----- ValueError -----

  /** From message i on, the stream comes to a number int() refuses before anything else ends the handshake. */
  predicate Chokes(i: nat, stream: string)
    requires i <= 7
    decreases 7 - i
  {
    i < 7 && var o := ReadOf(stream);
             o.BadLength? || (o.Message? && match Check(i, o.text)
                                            case BadNumber => true
                                            case Refused => false
                                            case Accepted(_) => Chokes(i + 1, RestOf(stream)))
  }

  /**
   * A handshake raises ValueError only on such a stream, whatever else happens; and on a
   * transport that does not fail, on every such stream.
   */
  lemma {:induction false} BadIntegerIff(t: Terms, i: nat, ch: Channel)
    requires i <= 7
    ensures Exchange(t, i, ch).end.BadInteger? ==> Chokes(i, ch.rd.Stream())
    ensures Faultless(ch.rd.inbound) && NoneFails(ch.faults) ==>
              (Exchange(t, i, ch).end.BadInteger? <==> Chokes(i, ch.rd.Stream()))
    decreases 7 - i
  {
    hide Next, Check, SendEach, ReadOf, RestOf, Future, Answers, NoneFails, Faultless;
    if i < 7 {
      var (o, rd) := Next(ch.rd);
      NextReadsStream(ch.rd);
      if Faultless(ch.rd.inbound) {
        NextStaysFaultless(ch.rd);
      }
      if o.Message? && Check(i, o.text).Accepted? {
        var ch1 := ch.(rd := rd);
        if NoneFails(ch.faults) {
          SendEachSucceeds(ch1, Answers(t, i, o.text));
        }
        SendEachSends(ch1, Answers(t, i, o.text));
        BadIntegerIff(t, i + 1, SendEach(ch1, Answers(t, i, o.text)).1);
      }
    }
  }

  // ----- steady state -----

  datatype SteadyEnd =
    | SourceLeft     // teardown trigger or orderly close: returns
    | Silent         // TimeoutError from recv: returns
    | SocketDied     // OSError from recv: returns
    | AckRefused     // NegotiationError
    | AckUnsent      // OSError from sendall
    | LengthRefused  // ValueError
    | TimeoutUnset   // OSError from settimeout, before the loop

  datatype Steady = Steady(end: SteadyEnd, ch: Channel, heard: seq<string>)

  /** The pump, one message at a time; `heard` lists every message it read. */
  function Pump(live: bool, ch: Channel): (r: Steady)
    decreases |ch.rd.Stream()|
  {
    var (o, rd) := Next(ch.rd);
    NextReadsStream(ch.rd);
    var ch1 := ch.(rd := rd);
    match o
    case TimedOut => Steady(Silent, ch1, [])
    case ConnectionLost => Steady(SocketDied, ch1, [])
    case BadLength => Steady(LengthRefused, ch1, [])
    case Message(m) =>
      if m == "" then Steady(SourceLeft, ch1, [m])
      else if !live || Acks(m).None? then Steady(AckRefused, ch1, [m])
      else
        var (ok, ch2) := SendEach(ch1, Acks(m).value);
        SendEachSends(ch1, Acks(m).value);
        if !ok then Steady(AckUnsent, ch2, [m])
        else if IsTeardown(m) then Steady(SourceLeft, ch2, [m])
        else
          var rest := Pump(live, ch2);
          rest.(heard := [m] + rest.heard)
  }

  /** The acknowledgements owed for a list of messages. */
  function Owed(ms: seq<string>): (r: seq<SinkMessage>)
  {
    if ms == [] then [] else OwnAcks(ms[0]) + Owed(ms[1..])
  }

  /** Those owed for one message. */
  function OwnAcks(m: string): seq<SinkMessage> {
    if m != "" && Acks(m).Some? then Acks(m).value else []
  }

  /** Messages the pump reads on from: not the end of the session, and answerable. */
  ghost predicate KeepsGoing(m: string) { !EndsSession(m) && Acks(m).Some? }

  /** What the pump reads and sends from a channel on. */
  ghost predicate Acknowledged(ch: Channel, r: Steady) {
    && Reference(ch.rd.Stream(), |r.heard|) == AsMessages(r.heard)
    && (forall k | 0 <= k < |r.heard| - 1 :: KeepsGoing(r.heard[k]))
    && (r.end.SourceLeft? ==> r.heard != [] && EndsSession(r.heard[|r.heard| - 1]))
    && SentPart(ch.sent, r.ch.sent, Wire(Owed(r.heard)), !r.end.AckUnsent?)
  }

  /** The pump ends on message m. */
  lemma PumpStops(ch: Channel, m: string, r: Steady)
    requires Next(ch.rd).0 == Message(m) && r.heard == [m]
    requires SentPart(ch.sent, r.ch.sent, Wire(OwnAcks(m)), !r.end.AckUnsent?)
    requires r.end.SourceLeft? ==> EndsSession(m)
    ensures Acknowledged(ch, r)
  {
    hide Next, SentPart, Wire, ReadOf, RestOf, Acks, IsTeardown, EndsSession;
    var rd := Next(ch.rd).1;
    assert Heard(rd.Stream(), [], After(rd.Stream(), 0));
    HeardCons(ch.rd, m, [], rd.Stream());
    assert [m] + [] == [m] && [m][1..] == [];
    assert Owed([m]) == OwnAcks(m) + [] == OwnAcks(m);
  }

  /** The pump goes on after message m, on channel ch2. */
  lemma PumpGoesOn(ch: Channel, m: string, ch2: Channel, rest: Steady)
    requires Next(ch.rd).0 == Message(m) && KeepsGoing(m) && m != ""
    requires SendEach(ch.(rd := Next(ch.rd).1), OwnAcks(m)) == (true, ch2)
    requires Acknowledged(ch2, rest)
    ensures Acknowledged(ch, rest.(heard := [m] + rest.heard))
  {
    hide Next, SentPart, SendEach, Wire, ReadOf, RestOf, Acks, IsTeardown, EndsSession;
    var rd := Next(ch.rd).1;
    var all := [m] + rest.heard;
    assert all[1..] == rest.heard;
    SendEachSends(ch.(rd := rd), OwnAcks(m));
    HeardCons(ch.rd, m, rest.heard, After(ch2.rd.Stream(), |rest.heard|));
    WireAppend(OwnAcks(m), Owed(rest.heard));
    SentTrans(ch.sent, ch2.sent, rest.ch.sent, Wire(OwnAcks(m)), Wire(Owed(rest.heard)), !rest.end.AckUnsent?);
  }

  /**
   * Every steady state, against any peer: the messages read are the first ones of the reference
   * framing; all but the last keep the session going, so nothing is read after a teardown; and
   * the acknowledgements sent are those owed, in order, cut short only by a failing sendall.
   */
  lemma {:induction false} PumpAcknowledges(ch: Channel)
    ensures Acknowledged(ch, Pump(true, ch))
    decreases |ch.rd.Stream()|
  {
    var (o, rd) := Next(ch.rd);
    NextReadsStream(ch.rd);
    if !o.Message? {
      hide Next, SentPart;
      NothingSent(ch.sent, [], true);
    } else {
      var m := o.text;
      TeardownIs("");
      TeardownIs(m);
      assert IsTeardown("");
      hide Next, SendEach, SentPart, IsTeardown, EndsSession, Acks, Acknowledged, ReadOf, RestOf, Wire, Future;
      var ch1 := ch.(rd := rd);
      if m == "" || Acks(m).None? {
        NothingSent(ch.sent, [], true);
        WireOfNothing();
        PumpStops(ch, m, Pump(true, ch));
      } else {
        var (ok, ch2) := SendEach(ch1, OwnAcks(m));
        SendEachSends(ch1, OwnAcks(m));
        if ok && !IsTeardown(m) {
          PumpShrinks(ch, m);
          PumpAcknowledges(ch2);
          PumpGoesOn(ch, m, ch2, Pump(true, ch2));
        } else {
          PumpStops(ch, m, Pump(true, ch));
        }
      }
    }
  }

  /**
   * A message that triggers a teardown, wherever the words stand in it, is acknowledged and then
   * ends the session: nothing more is read.
   */
  lemma TeardownEnds(ch: Channel, pre: string, post: string)
    requires Next(ch.rd).0 == Message(pre + "wfd_trigger_method: TEARDOWN" + post)
    requires var m := pre + "wfd_trigger_method: TEARDOWN" + post;
             Acks(m).Some? && SendEach(ch.(rd := Next(ch.rd).1), Acks(m).value).0
    ensures var r := Pump(true, ch);
            && r.end.SourceLeft? && r.heard == [pre + "wfd_trigger_method: TEARDOWN" + post]
            && r.ch == SendEach(ch.(rd := Next(ch.rd).1), Acks(r.heard[0]).value).1
  {
    ContainsAt(pre, "wfd_trigger_method: TEARDOWN", post);
    hide Next, Acks, SendEach, Contains, FirstFrame;
  }

  lemma WireOfNothing()
    ensures Wire([]) == []
  {
  }

  /** A message read leaves less to read. */
  lemma PumpShrinks(ch: Channel, m: string)
    requires Next(ch.rd).0 == Message(m) && m != ""
    ensures |Next(ch.rd).1.Stream()| < |ch.rd.Stream()|
  {
    NextReadsStream(ch.rd);
    hide Next, FirstFrame;
  }

  // ----- how the steady state ends, over every transport -----

  datatype Farewell = Left | Faulted | TooLong | NotNumbered | NotSent

  /**
   * How it must end, in terms of what the transport carries: with the first message that ends the
   * session, or asks for an acknowledgement without a number, or cannot be acknowledged.
   */
  ghost function EndOn(x: Transport): Farewell
    decreases |x.bytes|
  {
    if FailsFirst(x) then Faulted
    else match ReadOf(x.bytes)
         case Message(m) =>
           var reqs := Requests(Split(m, "\r\n\r\n"));
           if m == "" then Left
           else if !AllNumbered(reqs) then NotNumbered
           else if !CanSend(x, |reqs|) then NotSent
           else if EndsSession(m) then Left
           else EndOn(Onward(x, |reqs|))
         case _ => TooLong
  }

  function VerdictOf(end: SteadyEnd): Farewell {
    match end
    case SourceLeft => Left
    case Silent => Faulted
    case SocketDied => Faulted
    case TimeoutUnset => Faulted
    case LengthRefused => TooLong
    case AckRefused => NotNumbered
    case AckUnsent => NotSent
  }

  /** One message of the pump, in terms of what the transport carries. */
  lemma PumpCarried(ch: Channel)
    ensures var x := Carried(ch); var (o, rd) := Next(ch.rd); var ch1 := ch.(rd := rd);
            && (FailsFirst(x) <==> IsFault(o))
            && (!FailsFirst(x) ==> o == ReadOf(x.bytes))
            && (!FailsFirst(x) && o.Message? && Acks(o.text).Some? ==>
                  var acks := Acks(o.text).value; var (ok, ch2) := SendEach(ch1, acks);
                  && (ok <==> CanSend(x, |acks|))
                  && (ok ==> Carried(ch2) == Onward(x, |acks|)))
  {
    hide Next, FirstFrame, Acks, SendEach, Faultless, Until;
    NextReadsDeliverable(ch.rd);
    assert !IsFault(ReadOf(Carried(ch).bytes));
    hide ReadOf, RestOf;
    var (o, rd) := Next(ch.rd);
    if o.Message? && Acks(o.text).Some? {
      SendEachCounted(ch.(rd := rd), Acks(o.text).value);
    }
  }

  /** Exactly so it ends, over every transport. */
  lemma {:induction false} PumpIff(ch: Channel)
    ensures VerdictOf(Pump(true, ch).end) == EndOn(Carried(ch)) && !Pump(true, ch).end.TimeoutUnset?
    decreases |ch.rd.Stream()|
  {
    hide Next, SendEach, ReadOf, Carried, FailsFirst, CanSend, Onward, Acks, IsTeardown, EndsSession, Requests;
    hide AllNumbered, Split;
    PumpRow(true, ch);
    PumpCarried(ch);
    var (o, rd) := Next(ch.rd);
    if o.Message? {
      TeardownIs(o.text);
      AcksCounted(o.text);
      if o.text != "" && Acks(o.text).Some? && !IsTeardown(o.text) {
        var (ok, ch2) := SendEach(ch.(rd := rd), Acks(o.text).value);
        if ok {
          PumpIff(ch2);
        }
      }
    }
  }

  lemma AcksCounted(m: string)
    ensures var reqs := Requests(Split(m, "\r\n\r\n"));
            (Acks(m).Some? <==> AllNumbered(reqs)) && (Acks(m).Some? ==> |Acks(m).value| == |reqs|)
  {
    hide Split, AllNumbered;
    AcksAnswerRequests(Split(m, "\r\n\r\n"));
  }

  // ----- both phases -----

  lemma {:induction false} ReferenceSplit(stream: string, a: nat, b: nat)
    ensures Reference(stream, a + b) == Reference(stream, a) + Reference(After(stream, a), b)
    decreases a
  {
    hide ReadOf, RestOf;
    if a > 0 {
      ReferenceSplit(RestOf(stream), a - 1, b);
    }
  }

  lemma {:induction false} AsMessagesAppend(a: seq<string>, b: seq<string>)
    ensures AsMessages(a + b) == AsMessages(a) + AsMessages(b)
  {
    if a == [] {
      assert a + b == b;
    } else {
      assert (a + b)[1..] == a[1..] + b;
      AsMessagesAppend(a[1..], b);
    }
  }

  /**
   * Pumping on after the handshake, with the same reader, loses nothing: the messages of both
   * phases together are the first ones of the reference framing, the pump starting at the eighth.
   */
  lemma SessionReadsInOrder(t: Terms, ch: Channel)
    requires Exchange(t, 0, ch).end.Negotiated?
    ensures var h := Exchange(t, 0, ch); var p := Pump(true, h.ch); var all := h.accepted + p.heard;
            |h.accepted| == 7 && Reference(ch.rd.Stream(), |all|) == AsMessages(all)
    ensures var h := Exchange(t, 0, ch); var p := Pump(true, h.ch);
            AllAccepted(0, h.accepted) &&
            SentPart(ch.sent, p.ch.sent, Wire(SevenMessages(t, h.accepted) + Owed(p.heard)), !p.end.AckUnsent?)
  {
    hide Exchange, Pump, FirstFrame, SevenMessages, Owed, AllAccepted, Wire, SentPart;
    NegotiatedTranscript(t, ch);
    var h := Exchange(t, 0, ch);
    var p := Pump(true, h.ch);
    PumpAcknowledges(h.ch);
    ReferenceSplit(ch.rd.Stream(), 7, |p.heard|);
    AsMessagesAppend(h.accepted, p.heard);
    WireAppend(SevenMessages(t, h.accepted), Owed(p.heard));
    AllSent(ch.sent, Wire(SevenMessages(t, h.accepted)));
    SentTrans(ch.sent, h.ch.sent, p.ch.sent, Wire(SevenMessages(t, h.accepted)),
              Wire(Owed(p.heard)), !p.end.AckUnsent?);
  }

  lemma AllSent(before: seq<string>, all: seq<string>)
    ensures SentPart(before, before + all, all, true)
  {
  }

  lemma {:induction false} OwedEmittable(ms: seq<string>)
    ensures AllEmittable(Owed(ms))
  {
    if ms != [] {
      OwedEmittable(ms[1..]);
      AcksEmittable(Split(ms[0], BLANK));
    }
  }

  lemma {:induction false} AcksEmittable(entries: seq<string>)
    ensures AcksOf(entries).Some? ==> AllEmittable(AcksOf(entries).value)
  {
    hide IsRequest;
    if entries != [] {
      AcksEmittable(entries[..|entries| - 1]);
    }
  }

  /** Every answer but M3's is emittable, and M3's is a reply with the body it asks for. */
  lemma AnswersShaped(t: Terms, i: nat, m: string)
    requires i < 7 && Check(i, m).Accepted? && IsHost(t.ip)
    ensures AllShaped(Answers(t, i, m))
    ensures i != 2 ==> AllEmittable(Answers(t, i, m))
  {
    hide CountedRight, CapabilityBody, AllBody, Contains, IsHost;
  }

  lemma ShapedAppend(a: seq<SinkMessage>, b: seq<SinkMessage>)
    requires AllShaped(a) && AllShaped(b)
    ensures AllShaped(a + b)
  {
    hide Shaped;
  }

  lemma {:induction false} TranscriptShaped(t: Terms, i: nat, ms: seq<string>)
    requires AllAccepted(i, ms) && IsHost(t.ip)
    ensures AllShaped(Transcript(t, i, ms))
    ensures i > 2 ==> AllEmittable(Transcript(t, i, ms))
    decreases |ms|
  {
    hide Check, Shaped, Emittable, Answers, IsHost;
    if ms != [] {
      assert Check(i + 0, ms[0]).Accepted?;
      assert forall k | 0 <= k < |ms| - 1 :: ms[1..][k] == ms[k + 1] && Check(i + (k + 1), ms[k + 1]).Accepted?;
      AnswersShaped(t, i, ms[0]);
      TranscriptShaped(t, i + 1, ms[1..]);
      ShapedAppend(Answers(t, i, ms[0]), Transcript(t, i + 1, ms[1..]));
      if i > 2 {
        EmittableAppend(Answers(t, i, ms[0]), Transcript(t, i + 1, ms[1..]));
      }
    }
  }

  /** A transcript begins with M1's two messages, then M3's reply. */
  lemma TranscriptHead(t: Terms, ms: seq<string>)
    requires AllAccepted(0, ms)
    ensures |ms| <= 2 ==> |Transcript(t, 0, ms)| <= 2
    ensures |ms| > 2 ==> AllAccepted(3, ms[3..]) && Check(0, ms[0]).Accepted? && Check(2, ms[2]).Accepted?
                         && Transcript(t, 0, ms) ==
                              Answers(t, 0, ms[0]) + Answers(t, 2, ms[2]) + Transcript(t, 3, ms[3..])
  {
    hide Check, AllAccepted, Transcript, CapabilityBody;
    assert ms[0..] == ms;
    if |ms| > 0 {
      TranscriptStep(t, 0, ms);
    }
    if |ms| > 1 {
      TranscriptStep(t, 1, ms);
    }
    if |ms| > 2 {
      TranscriptStep(t, 2, ms);
    }
    if |ms| <= 2 {
      TranscriptOfNone(t, |ms|);
      assert ms[|ms|..] == [];
    }
  }

  lemma TranscriptOfNone(t: Terms, i: nat)
    requires i <= 7
    ensures AllAccepted(i, []) && Transcript(t, i, []) == []
  {
  }

  lemma EmittableAppend(a: seq<SinkMessage>, b: seq<SinkMessage>)
    requires AllEmittable(a) && AllEmittable(b)
    ensures AllEmittable(a + b)
  {
    hide Emittable;
  }

  lemma {:induction false} WireTake(ms: seq<SinkMessage>, n: nat)
    requires n <= |ms|
    ensures Wire(ms[..n]) == Wire(ms)[..n]
  {
    hide Encode, Print;
    if n > 0 {
      WireTake(ms[1..], n - 1);
      assert ms[..n][1..] == ms[1..][..n - 1];
    }
  }

  /** The first n messages of a session are emittable unless they include a miscounted M3 reply. */
  lemma OutputEmittable(t: Terms, ms: seq<string>, more: seq<SinkMessage>, n: nat)
    requires AllAccepted(0, ms) && IsHost(t.ip) && AllEmittable(more) && (|ms| <= 2 ==> more == [])
    requires n <= |Transcript(t, 0, ms) + more|
    ensures AllShaped((Transcript(t, 0, ms) + more)[..n])
    ensures AllEmittable((Transcript(t, 0, ms) + more)[..n]) <==>
              n < 3 || (|ms| > 2 && Countable(t.capabilities, t.rtpPort, ms[2]))
  {
    hide Check, Shaped, Emittable, AllAccepted, Transcript, IsHost, CapabilityBody, Countable;
    var out := Transcript(t, 0, ms) + more;
    TranscriptShaped(t, 0, ms);
    EmittableShaped(more);
    ShapedAppend(Transcript(t, 0, ms), more);
    TranscriptHead(t, ms);
    if |ms| > 0 {
      FirstAnswersEmittable(t, ms);
    } else {
      TranscriptOfNone(t, 0);
    }
    assert |ms| <= 2 ==> out == Transcript(t, 0, ms);
    assert forall k | 0 <= k < n :: out[..n][k] == out[k];
    if |ms| > 2 {
      var late := Transcript(t, 3, ms[3..]) + more;
      TranscriptShaped(t, 3, ms[3..]);
      EmittableAppend(Transcript(t, 3, ms[3..]), more);
      ReplyEmittable(t, ms[2]);
      var reply := Answers(t, 2, ms[2])[0];
      assert out == Answers(t, 0, ms[0]) + [reply] + late;
      assert Answers(t, 0, ms[0]) == [out[0], out[1]];
      forall k | 0 <= k < n && k != 2 ensures Emittable(out[..n][k]) {
        assert k >= 3 ==> out[k] == late[k - 3];
        assert k < 2 ==> out[k] == Answers(t, 0, ms[0])[k];
      }
      assert n >= 3 ==> out[..n][2] == reply;
      assert AllEmittable(out[..n]) && n >= 3 ==> Emittable(out[..n][2]);
    }
  }

  lemma EmittableShaped(ms: seq<SinkMessage>)
    requires AllEmittable(ms)
    ensures AllShaped(ms)
  {
    hide Shaped;
    assert forall k | 0 <= k < |ms| :: Emittable(ms[k]);
  }

  lemma FirstAnswersEmittable(t: Terms, ms: seq<string>)
    requires ms != [] && AllAccepted(0, ms) && IsHost(t.ip)
    ensures Check(0, ms[0]).Accepted? && AllEmittable(Answers(t, 0, ms[0]))
    ensures |ms| <= 2 ==> Transcript(t, 0, ms) == Answers(t, 0, ms[0])
  {
    hide Check, Emittable, IsHost, AllAccepted, Transcript;
    assert ms[0..] == ms;
    TranscriptStep(t, 0, ms);
    AnswersShaped(t, 0, ms[0]);
    if |ms| == 1 {
      assert ms[1..] == [];
      TranscriptOfNone(t, 1);
    } else if |ms| == 2 {
      TranscriptStep(t, 1, ms);
      assert ms[2..] == [];
      TranscriptOfNone(t, 2);
    }
  }

  /** M3's reply is emittable exactly when what M3 asks for can be counted. */
  lemma ReplyEmittable(t: Terms, m: string)
    requires Check(2, m).Accepted?
    ensures |Answers(t, 2, m)| == 1
    ensures Emittable(Answers(t, 2, m)[0]) <==> Countable(t.capabilities, t.rtpPort, m)
  {
    hide CapabilityBody, IsAscii, AsciiAsked, AllBody;
    CapabilityBodyAscii(t.capabilities, t.rtpPort, m);
  }

  /** M3 as the stream gives it, "" if it does not. */
  function ThirdMessage(stream: string): string {
    match ReadOf(After(stream, 2))
    case Message(m) => m
    case _ => ""
  }

  /**
   * The payloads sent since `ch` are what a reader makes of their bytes, if and only if M3's reply
   * is not among them or M3 asked for nothing that is miscounted.
   */
  ghost predicate ReframesUnlessMiscounted(t: Terms, ch: Channel, sent: seq<string>) {
    && ch.sent <= sent
    && var payloads := sent[|ch.sent|..];
       Frames(Concat(payloads)) == (payloads, "") <==>
         |payloads| < 3 || Countable(t.capabilities, t.rtpPort, ThirdMessage(ch.rd.Stream()))
  }

  lemma OutputOf(t: Terms, ch: Channel, ms: seq<string>, more: seq<SinkMessage>, sent: seq<string>, complete: bool)
    requires AllAccepted(0, ms) && IsHost(t.ip) && AllEmittable(more) && (|ms| <= 2 ==> more == [])
    requires Reference(ch.rd.Stream(), |ms|) == AsMessages(ms)
    requires SentPart(ch.sent, sent, Wire(Transcript(t, 0, ms) + more), complete)
    ensures ReframesUnlessMiscounted(t, ch, sent)
  {
    hide Frames, AllAccepted, Transcript, Wire, IsHost, Emittable, Shaped, Countable, ReadOf, RestOf;
    var out, payloads := Transcript(t, 0, ms) + more, sent[|ch.sent|..];
    var n := |payloads|;
    assert payloads == Wire(out)[..n];
    OutputEmittable(t, ms, more, n);
    WireTake(out, n);
    PrintFrameRoundTrip(out[..n]);
    if |ms| > 2 {
      HeardAt(ch.rd.Stream(), ms, 2);
    } else {
      TranscriptHead(t, ms);
    }
  }

  /**
   * All that a handshake sends, however it ends, comes out of the source's reader message by
   * message, in the order sent, exactly when M3's length is right or was never sent.
   */
  lemma HandshakeOutputReframes(t: Terms, ch: Channel)
    requires IsHost(t.ip)
    ensures ReframesUnlessMiscounted(t, ch, Exchange(t, 0, ch).ch.sent)
  {
    hide Exchange, ReframesUnlessMiscounted, AllAccepted, Transcript, Wire, IsHost, SentPart;
    ExchangeTranscript(t, 0, ch);
    var r := Exchange(t, 0, ch);
    assert Transcript(t, 0, r.accepted) + [] == Transcript(t, 0, r.accepted);
    OutputOf(t, ch, r.accepted, [], r.ch.sent, r.end.Negotiated?);
  }

  lemma NothingSentReframes(t: Terms, ch: Channel)
    ensures ReframesUnlessMiscounted(t, ch, ch.sent)
  {
    assert ch.sent[|ch.sent|..] == [];
    EmptyFrames();
  }

  /** So does all that a whole session sends, whatever it hears and wherever it ends. */
  lemma PumpOutputReframes(t: Terms, ch: Channel)
    requires IsHost(t.ip) && Exchange(t, 0, ch).end.Negotiated?
    ensures ReframesUnlessMiscounted(t, ch, Pump(true, Exchange(t, 0, ch).ch).ch.sent)
  {
    hide Exchange, Pump, ReframesUnlessMiscounted, AllAccepted, Transcript, Wire, IsHost, SentPart;
    hide SevenMessages, Owed, Emittable;
    ExchangeTranscript(t, 0, ch);
    SessionReadsInOrder(t, ch);
    var h := Exchange(t, 0, ch);
    var p := Pump(true, h.ch);
    FullTranscript(t, h.accepted);
    OwedEmittable(p.heard);
    OutputOf(t, ch, h.accepted, Owed(p.heard), p.ch.sent, !p.end.AckUnsent?);
  }

  /** M3's reply goes out exactly when the first three messages arrive, are acceptable and can be answered. */
  lemma HandshakeReplies(t: Terms, ch: Channel)
    ensures |Exchange(t, 0, ch).ch.sent| >= |ch.sent| + 3 <==> Passes(0, 3, Carried(ch))
  {
    hide Exchange, Passes, Carried;
    assert AnswersUpTo(2, 3) == 1 && AnswersUpTo(1, 3) == 1 && AnswersUpTo(0, 3) == 3;
    AnsweredIff(t, 0, 3, ch);
  }

  /** And a session that goes on to the steady state has sent it. */
  lemma PumpReplied(t: Terms, ch: Channel)
    requires Exchange(t, 0, ch).end.Negotiated?
    ensures |Pump(true, Exchange(t, 0, ch).ch).ch.sent| >= |ch.sent| + 3 && Passes(0, 3, Carried(ch))
  {
    hide Exchange, Pump, Passes, Carried, SevenMessages, AllAccepted, Heard, Owed;
    NegotiatedTranscript(t, ch);
    HandshakeReplies(t, ch);
    PumpAcknowledges(Exchange(t, 0, ch).ch);
  }

  // ----- numbers int() refuses -----

  /** A run of digits longer than int() converts. */
  predicate HasLongRun(s: string) {
    exists i, j :: 0 <= i <= j <= |s| && j - i > 4300 && AllBody(s[i..j], Digits)
  }

  lemma LongFieldIsLongRun(s: string, p: FieldPattern)
    requires Field(s, p).Some? && |Field(s, p).value| > MAX_INT_DIGITS && p.body == Digits
    ensures HasLongRun(s)
  {
    var i := SearchFrom(s, p, 0).value;
    var v := SkipSpaces(s, i + |p.key|, p);
    var e := RunEnd(s, v, p.body);
    assert s[v..e] == Field(s, p).value;
  }

  lemma SliceOfSlice(s: string, a: nat, b: nat, i: nat, j: nat)
    requires a <= b <= |s| && i <= j <= b - a
    ensures s[a..b][i..j] == s[a + i..a + j]
  {
    assert forall k | 0 <= k < j - i :: s[a..b][i..j][k] == s[a + i..a + j][k];
  }

  lemma LongRunWithin(s: string, a: nat, b: nat)
    requires a <= b <= |s| && HasLongRun(s[a..b])
    ensures HasLongRun(s)
  {
    var part := s[a..b];
    var i, j :| 0 <= i <= j <= |part| && j - i > 4300 && AllBody(part[i..j], Digits);
    SliceOfSlice(s, a, b, i, j);
  }

  lemma OverlongHasLongRun(s: string)
    requires FirstFrame(s).Overlong?
    ensures HasLongRun(s)
  {
    var h := Find(s, BLANK).value;
    LongFieldIsLongRun(s[..h + 4], CONTENT_LENGTH);
    assert s[0..h + 4] == s[..h + 4];
    LongRunWithin(s, 0, h + 4);
  }

  lemma BadM6HasLongRun(m: string)
    requires ParseM6(m) == BadNumber
    ensures HasLongRun(m)
  {
    LongFieldIsLongRun(m, SERVER_PORT);
  }

  /** A handshake raises ValueError only on a stream that holds a run of more than 4300 digits. */
  lemma {:induction false} BadIntegerNeedsLongRun(t: Terms, i: nat, ch: Channel)
    requires i <= 7 && Exchange(t, i, ch).end.BadInteger?
    ensures HasLongRun(ch.rd.Stream())
    decreases 7 - i
  {
    hide Next, FirstFrame, SendEach, HasLongRun, ParseM6, Cseq, Contains, Answers;
    var (o, rd) := Next(ch.rd);
    NextReadsStream(ch.rd);
    var s := ch.rd.Stream();
    if o.BadLength? {
      OverlongHasLongRun(s);
    } else {
      var m := o.text;
      var n := if FirstFrame(s).Complete? then FirstFrame(s).total else |s|;
      assert m == s[0..n] && rd.Stream() == s[n..|s|];
      if Check(i, m).BadNumber? {
        BadM6HasLongRun(m);
        LongRunWithin(s, 0, n);
      } else {
        var ch1 := ch.(rd := rd);
        SendEachSends(ch1, Answers(t, i, m));
        BadIntegerNeedsLongRun(t, i + 1, SendEach(ch1, Answers(t, i, m)).1);
        LongRunWithin(s, n, |s|);
      }
    }
  }

  lemma LongLengthOverlong(digits: string)
    requires AllBody(digits, Digits) && |digits| > 4300
    ensures FirstFrame(CONTENT_LENGTH.key + digits + BLANK).Overlong?
  {
    hide Find, SkipSpaces, RunEnd;
    var line := CONTENT_LENGTH.key + digits;
    var s := line + BLANK;
    PlainBody(digits, Digits);
    assert Breakless(line);
    assert Lines([line]) == line + CRLF + Lines([]);
    assert BLANK == CRLF + CRLF;
    assert Head([line]) == s && s + "" == s;
    BlankEndsHead([line], "");
    assert "" + CONTENT_LENGTH.key + "" + digits + BLANK == s;
    assert InBody(digits[0], Digits);
    FirstFieldIs("", CONTENT_LENGTH.key, "", digits, BLANK, CONTENT_LENGTH);
    assert s[..|s|] == s;
  }

  /** A first message that declares its length in too many digits does raise ValueError. */
  lemma LongLengthRaises(t: Terms, ch: Channel, digits: string)
    requires AllBody(digits, Digits) && |digits| > 4300
    requires ch.rd.Stream() == CONTENT_LENGTH.key + digits + BLANK && Faultless(ch.rd.inbound)
    ensures Exchange(t, 0, ch).end.BadInteger?
  {
    hide FirstFrame, Next, AllBody;
    LongLengthOverlong(digits);
    NextReadsStream(ch.rd);
  }

  // ----- the drivers -----

  function Chan(sock: Sock, reader: RtspReader): Channel
    reads sock, reader, reader.sock
  {
    Channel(reader.State(), sock.sendFaults, sock.sent)
  }

  function TermsOf(n: WfdNegotiator, ip: string): Terms
    reads n
  {
    Terms(n.capabilities, n.session.sinkRtpPort, ip)
  }

  /** One row of the table, as an equation. */
  lemma ExchangeRow(t: Terms, i: nat, ch: Channel)
    requires i < 7
    ensures var (o, rd) := Next(ch.rd); var ch1 := ch.(rd := rd); var r := Exchange(t, i, ch);
            match o
            case TimedOut => r == Handshake(TransportFailed, ch1, [])
            case ConnectionLost => r == Handshake(TransportFailed, ch1, [])
            case BadLength => r == Handshake(BadInteger, ch1, [])
            case Message(m) =>
              match Check(i, m)
              case Refused => r == Handshake(NotNegotiated, ch1, [])
              case BadNumber => r == Handshake(BadInteger, ch1, [])
              case Accepted(_) =>
                var (ok, ch2) := SendEach(ch1, Answers(t, i, m));
                && (!ok ==> r.end == TransportFailed && r.ch == ch2)
                && (ok ==> r.end == Exchange(t, i + 1, ch2).end && r.ch == Exchange(t, i + 1, ch2).ch
                           && r.accepted == [m] + Exchange(t, i + 1, ch2).accepted)
  {
  }

  lemma SendOne(ch: Channel, a: SinkMessage)
    ensures SendEach(ch, [a]) == Send(ch, Encode(Print(a)))
  {
    assert [a][1..] == [];
  }

  lemma SendTwo(ch: Channel, a: SinkMessage, b: SinkMessage)
    ensures var (ok, ch') := Send(ch, Encode(Print(a)));
            SendEach(ch, [a, b]) == if ok then Send(ch', Encode(Print(b))) else (false, ch')
  {
    assert [a, b][1..] == [b];
    SendOne(Send(ch, Encode(Print(a))).1, b);
  }

  /** The end an unsuccessful read or verdict gives the handshake. */
  function ReadEnd(o: Outcome): HandshakeEnd
    requires !o.Message?
  {
    if o.BadLength? then BadInteger else TransportFailed
  }

  function VerdictEnd<T>(v: Verdict<T>): HandshakeEnd
    requires !v.Accepted?
  {
    if v.BadNumber? then BadInteger else NotNegotiated
  }

  /** One step of the driver agrees with row i of the table: it ends there, or goes on to row i + 1. */
  ghost predicate Advances(t: Terms, i: nat, before: Channel, end: Option<HandshakeEnd>, after: Channel)
    requires i < 7
  {
    var r := Exchange(t, i, before);
    match end
    case Some(e) => r.end == e && r.ch == after
    case None => r.end == Exchange(t, i + 1, after).end && r.ch == Exchange(t, i + 1, after).ch
  }

  /** A step that goes on leaves the negotiator ready for the next; one that ends has not reached STREAMING. */
  predicate Leaves(negotiator: WfdNegotiator, end: Option<HandshakeEnd>, state: HandshakeState, cseq: nat)
    reads negotiator
  {
    if end.None? then negotiator.state == state && negotiator.ownCseq == cseq
    else negotiator.state != STREAMING && !end.value.Negotiated?
  }

  /** M1 is answered, and M2 asked. */
  method StepM1(sock: Sock, reader: RtspReader, negotiator: WfdNegotiator, ip: string)
    returns (end: Option<HandshakeEnd>)
    requires reader.sock == sock && negotiator.state == WAIT_M1 && negotiator.ownCseq == 0
    modifies sock`inbound, sock`sent, sock`sendFaults, reader`buf, negotiator
    ensures Advances(old(TermsOf(negotiator, ip)), 0, old(Chan(sock, reader)), end, Chan(sock, reader))
    ensures Leaves(negotiator, end, WAIT_M3, 1)
    ensures TermsOf(negotiator, ip) == old(TermsOf(negotiator, ip))
  {
    hide Next, Cseq, Print, Encode, CapabilityBody, Contains, SendEach;
    hide Field, ReadsStream, Exchange, ParseNat, Acks, Split, UibcOf;
    ExchangeRow(TermsOf(negotiator, ip), 0, Chan(sock, reader));
    var request := reader.NextMessage();
    if !request.Message? {
      return Some(ReadEnd(request));
    }
    var response := negotiator.HandleM1Options(request.text);
    if !response.Accepted? {
      return Some(VerdictEnd(response));
    }
    SendTwo(Chan(sock, reader), OptionsReply(Cseq(request.text).value), OptionsRequest(1));
    var ok := sock.SendAll(Encode(response.value));
    if !ok {
      return Some(TransportFailed);
    }
    var m2 := negotiator.BuildM2OptionsRequest();
    ok := sock.SendAll(Encode(m2));
    if !ok {
      return Some(TransportFailed);
    }
    return None;
  }

  /** M2's answer, which may be anything. */
  method StepM2(sock: Sock, reader: RtspReader, negotiator: WfdNegotiator, ip: string)
    returns (end: Option<HandshakeEnd>)
    requires reader.sock == sock && negotiator.state == WAIT_M3 && negotiator.ownCseq == 1
    modifies sock`inbound, sock`sent, sock`sendFaults, reader`buf, negotiator
    ensures Advances(old(TermsOf(negotiator, ip)), 1, old(Chan(sock, reader)), end, Chan(sock, reader))
    ensures Leaves(negotiator, end, WAIT_M3, 1)
    ensures TermsOf(negotiator, ip) == old(TermsOf(negotiator, ip))
  {
    hide Next, Cseq, Print, Encode, CapabilityBody, Contains, SendEach;
    hide Field, ReadsStream, Exchange, ParseNat, Acks, Split, UibcOf;
    ExchangeRow(TermsOf(negotiator, ip), 1, Chan(sock, reader));
    var response := reader.NextMessage();
    if !response.Message? {
      return Some(ReadEnd(response));
    }
    NoAnswer(Chan(sock, reader));
    return None;
  }

  /** M3 is answered with the capabilities. */
  method StepM3(sock: Sock, reader: RtspReader, negotiator: WfdNegotiator, ip: string)
    returns (end: Option<HandshakeEnd>)
    requires reader.sock == sock && negotiator.state == WAIT_M3 && negotiator.ownCseq == 1
    modifies sock`inbound, sock`sent, sock`sendFaults, reader`buf, negotiator
    ensures Advances(old(TermsOf(negotiator, ip)), 2, old(Chan(sock, reader)), end, Chan(sock, reader))
    ensures Leaves(negotiator, end, WAIT_M4, 1)
    ensures TermsOf(negotiator, ip) == old(TermsOf(negotiator, ip))
  {
    hide Next, Cseq, Print, Encode, CapabilityBody, Contains, SendEach;
    hide Field, ReadsStream, Exchange, ParseNat, Acks, Split, UibcOf;
    ExchangeRow(TermsOf(negotiator, ip), 2, Chan(sock, reader));
    var request := reader.NextMessage();
    if !request.Message? {
      return Some(ReadEnd(request));
    }
    var response := negotiator.HandleM3GetParameter(request.text);
    if !response.Accepted? {
      return Some(VerdictEnd(response));
    }
    SendOne(Chan(sock, reader),
            CapabilityReply(Cseq(request.text).value,
                            CapabilityBody(negotiator.capabilities, negotiator.session.sinkRtpPort, request.text)));
    var ok := sock.SendAll(Encode(response.value));
    if !ok {
      return Some(TransportFailed);
    }
    return None;
  }

  /** M4 is acknowledged. */
  method StepM4(sock: Sock, reader: RtspReader, negotiator: WfdNegotiator, ip: string)
    returns (end: Option<HandshakeEnd>)
    requires reader.sock == sock && negotiator.state == WAIT_M4 && negotiator.ownCseq == 1
    modifies sock`inbound, sock`sent, sock`sendFaults, reader`buf, negotiator
    ensures Advances(old(TermsOf(negotiator, ip)), 3, old(Chan(sock, reader)), end, Chan(sock, reader))
    ensures Leaves(negotiator, end, WAIT_M5, 1)
    ensures TermsOf(negotiator, ip) == old(TermsOf(negotiator, ip))
  {
    hide Next, Cseq, Print, Encode, CapabilityBody, Contains, SendEach;
    hide Field, ReadsStream, Exchange, ParseNat, Acks, Split, UibcOf;
    ExchangeRow(TermsOf(negotiator, ip), 3, Chan(sock, reader));
    var request := reader.NextMessage();
    if !request.Message? {
      return Some(ReadEnd(request));
    }
    var response := negotiator.HandleM4SetParameter(request.text);
    if !response.Accepted? {
      return Some(VerdictEnd(response));
    }
    SendOne(Chan(sock, reader), Ack(Cseq(request.text).value));
    var ok := sock.SendAll(Encode(response.value));
    if !ok {
      return Some(TransportFailed);
    }
    return None;
  }

  /** M5 is acknowledged, and M6 asked. */
  method StepM5(sock: Sock, reader: RtspReader, negotiator: WfdNegotiator, ip: string)
    returns (end: Option<HandshakeEnd>)
    requires reader.sock == sock && negotiator.state == WAIT_M5 && negotiator.ownCseq == 1
    modifies sock`inbound, sock`sent, sock`sendFaults, reader`buf, negotiator
    ensures Advances(old(TermsOf(negotiator, ip)), 4, old(Chan(sock, reader)), end, Chan(sock, reader))
    ensures Leaves(negotiator, end, WAIT_M6_RESPONSE, 2)
    ensures TermsOf(negotiator, ip) == old(TermsOf(negotiator, ip))
  {
    hide Next, Cseq, Print, Encode, CapabilityBody, Contains, SendEach;
    hide Field, ReadsStream, Exchange, ParseNat, Acks, Split, UibcOf;
    ExchangeRow(TermsOf(negotiator, ip), 4, Chan(sock, reader));
    var request := reader.NextMessage();
    if !request.Message? {
      return Some(ReadEnd(request));
    }
    var response := negotiator.HandleM5Generic(request.text);
    if !response.Accepted? {
      return Some(VerdictEnd(response));
    }
    SendTwo(Chan(sock, reader), Ack(Cseq(request.text).value), SetupRequest(ip, 2, negotiator.session.sinkRtpPort));
    var ok := sock.SendAll(Encode(response.value));
    if !ok {
      return Some(TransportFailed);
    }
    var m6 := negotiator.BuildM6SetupRequest(ip);
    ok := sock.SendAll(Encode(m6));
    if !ok {
      return Some(TransportFailed);
    }
    return None;
  }

  /** M6's answer is parsed, and M7 asked. */
  method StepM6(sock: Sock, reader: RtspReader, negotiator: WfdNegotiator, ip: string)
    returns (end: Option<HandshakeEnd>)
    requires reader.sock == sock && negotiator.state == WAIT_M6_RESPONSE && negotiator.ownCseq == 2
    modifies sock`inbound, sock`sent, sock`sendFaults, reader`buf, negotiator
    ensures Advances(old(TermsOf(negotiator, ip)), 5, old(Chan(sock, reader)), end, Chan(sock, reader))
    ensures Leaves(negotiator, end, WAIT_M7_RESPONSE, 3)
    ensures TermsOf(negotiator, ip) == old(TermsOf(negotiator, ip))
    ensures end.None? ==> negotiator.session.serverPort.Some? && negotiator.session.sessionId.Some?
  {
    hide Next, Cseq, Print, Encode, CapabilityBody, Contains, SendEach;
    hide Field, ReadsStream, Exchange, ParseNat, Acks, Split, UibcOf;
    ExchangeRow(TermsOf(negotiator, ip), 5, Chan(sock, reader));
    var response := reader.NextMessage();
    if !response.Message? {
      return Some(ReadEnd(response));
    }
    var session := negotiator.ParseM6Response(response.text);
    if !session.Accepted? {
      return Some(VerdictEnd(session));
    }
    SendOne(Chan(sock, reader), PlayRequest(ip, 3, ParseM6(response.text).value.1));
    var request := negotiator.BuildM7PlayRequest(ip);
    var ok := sock.SendAll(Encode(request.value));
    if !ok {
      return Some(TransportFailed);
    }
    return None;
  }

  /** M7's answer confirms streaming. */
  method StepM7(sock: Sock, reader: RtspReader, negotiator: WfdNegotiator, ip: string)
    returns (end: Option<HandshakeEnd>)
    requires reader.sock == sock && negotiator.state == WAIT_M7_RESPONSE && negotiator.ownCseq == 3
    modifies sock`inbound, sock`sent, sock`sendFaults, reader`buf, negotiator
    ensures Advances(old(TermsOf(negotiator, ip)), 6, old(Chan(sock, reader)), end, Chan(sock, reader))
    ensures Leaves(negotiator, end, STREAMING, 3)
    ensures TermsOf(negotiator, ip) == old(TermsOf(negotiator, ip))
    ensures negotiator.session == old(negotiator.session)
  {
    hide Next, Cseq, Print, Encode, CapabilityBody, Contains, SendEach;
    hide Field, ReadsStream, Exchange, ParseNat, Acks, Split, UibcOf;
    ExchangeRow(TermsOf(negotiator, ip), 6, Chan(sock, reader));
    var response := reader.NextMessage();
    if !response.Message? {
      return Some(ReadEnd(response));
    }
    var confirmed := negotiator.ConfirmStreaming(response.text);
    if !confirmed.Accepted? {
      return Some(VerdictEnd(confirmed));
    }
    NoAnswer(Chan(sock, reader));
    return None;
  }

  /**
   * The M1-M7 handshake over `sock`, with a fresh negotiator: it ends as the table says, with
   * the channel as the table says, and the negotiator is STREAMING only on success.
   */
  method Negotiate(sock: Sock, reader: RtspReader, negotiator: WfdNegotiator, ip: string) returns (end: HandshakeEnd)
    requires reader.sock == sock && negotiator.Fresh()
    modifies sock`inbound, sock`sent, sock`sendFaults, reader`buf, negotiator
    ensures var r := Exchange(old(TermsOf(negotiator, ip)), 0, old(Chan(sock, reader)));
            end == r.end && Chan(sock, reader) == r.ch
    ensures end.Negotiated? <==> negotiator.state == STREAMING
    ensures end.Negotiated? ==> negotiator.session.serverPort.Some? && negotiator.session.sessionId.Some?
  {
    hide Exchange;
    var e1 := StepM1(sock, reader, negotiator, ip);
    if e1.Some? {
      return e1.value;
    }
    var e2 := StepM2(sock, reader, negotiator, ip);
    if e2.Some? {
      return e2.value;
    }
    var e3 := StepM3(sock, reader, negotiator, ip);
    if e3.Some? {
      return e3.value;
    }
    var e4 := StepM4(sock, reader, negotiator, ip);
    if e4.Some? {
      return e4.value;
    }
    var e5 := StepM5(sock, reader, negotiator, ip);
    if e5.Some? {
      return e5.value;
    }
    var e6 := StepM6(sock, reader, negotiator, ip);
    if e6.Some? {
      return e6.value;
    }
    var e7 := StepM7(sock, reader, negotiator, ip);
    if e7.Some? {
      return e7.value;
    }
    ExchangeDone(TermsOf(negotiator, ip), Chan(sock, reader));
    return Negotiated;
  }

  lemma NoAnswer(ch: Channel)
    ensures SendEach(ch, []) == (true, ch)
  {
  }

  lemma ExchangeDone(t: Terms, ch: Channel)
    ensures Exchange(t, 7, ch) == Handshake(Negotiated, ch, [])
  {
  }

  /**
   * The steady-state pump. It ends as `Pump` says; the negotiator is TORN_DOWN on every exit
   * except the one where settimeout itself raises, before the guarded block is entered.
   */
  method RunSteadyState(sock: Sock, negotiator: WfdNegotiator, reader: RtspReader) returns (end: SteadyEnd)
    requires reader.sock == sock
    modifies sock`inbound, sock`sent, sock`sendFaults, sock`timeoutFaults, reader`buf, negotiator`state
    ensures var unset := old(sock.timeoutFaults) != [] && old(sock.timeoutFaults)[0];
            && (unset <==> end == TimeoutUnset)
            && (unset ==> Chan(sock, reader) == old(Chan(sock, reader)) && negotiator.state == old(negotiator.state))
            && (!unset ==>
                  var r := Pump(old(negotiator.state) == STREAMING, old(Chan(sock, reader)));
                  end == r.end && Chan(sock, reader) == r.ch && negotiator.state == TORN_DOWN)
  {
    hide Next, Encode, Print, SendEach, Acks, Contains, ReadsStream, Future;
    var ok := sock.SetTimeout();
    if !ok {
      return TimeoutUnset;
    }
    ghost var live := negotiator.state == STREAMING;
    ghost var whole := Pump(live, Chan(sock, reader));
    while true
      invariant live == (negotiator.state == STREAMING)
      invariant Pump(live, Chan(sock, reader)).end == whole.end && Pump(live, Chan(sock, reader)).ch == whole.ch
      decreases |reader.State().Stream()|
    {
      ghost var before := Chan(sock, reader);
      PumpRow(live, before);
      var message := reader.NextMessage();
      if !message.Message? {
        end := match message case TimedOut => Silent case ConnectionLost => SocketDied case _ => LengthRefused;
        break;
      }
      if message.text == "" {
        end := SourceLeft;
        break;
      }
      var acks := negotiator.BuildSteadyStateAck(message.text);
      if !acks.Accepted? {
        end := AckRefused;
        break;
      }
      ok := SendAcks(sock, reader, acks.value);
      if !ok {
        end := AckUnsent;
        break;
      }
      if IsTeardown(message.text) {
        end := SourceLeft;
        break;
      }
    }
    negotiator.MarkTornDown();
  }

  lemma PumpRow(live: bool, ch: Channel)
    ensures var (o, rd) := Next(ch.rd); var ch1 := ch.(rd := rd); var r := Pump(live, ch);
            match o
            case TimedOut => r == Steady(Silent, ch1, [])
            case ConnectionLost => r == Steady(SocketDied, ch1, [])
            case BadLength => r == Steady(LengthRefused, ch1, [])
            case Message(m) =>
              if m == "" then r == Steady(SourceLeft, ch1, [m])
              else if !live || Acks(m).None? then r == Steady(AckRefused, ch1, [m])
              else
                var (ok, ch2) := SendEach(ch1, Acks(m).value);
                && |ch2.rd.Stream()| < |ch.rd.Stream()|
                && (!ok ==> r == Steady(AckUnsent, ch2, [m]))
                && (ok && IsTeardown(m) ==> r == Steady(SourceLeft, ch2, [m]))
                && (ok && !IsTeardown(m) ==> r.end == Pump(live, ch2).end && r.ch == Pump(live, ch2).ch)
  {
    NextReadsStream(ch.rd);
    var (o, rd) := Next(ch.rd);
    if o.Message? && o.text != "" && Acks(o.text).Some? {
      SendEachSends(ch.(rd := rd), Acks(o.text).value);
    }
    hide Next, SendEach, Acks, FirstFrame, IsTeardown, SentPart;
  }

  /** Send the acknowledgements of one message, stopping at the first failure. */
  method SendAcks(sock: Sock, reader: RtspReader, acks: seq<SinkMessage>) returns (ok: bool)
    requires reader.sock == sock
    modifies sock`sent, sock`sendFaults
    ensures (ok, Chan(sock, reader)) == SendEach(old(Chan(sock, reader)), acks)
  {
    hide Encode, Print;
    ghost var whole := SendEach(Chan(sock, reader), acks);
    ok := true;
    for i := 0 to |acks|
      invariant SendEach(Chan(sock, reader), acks[i..]) == whole
    {
      assert acks[i..][1..] == acks[i + 1..];
      ok := sock.SendAll(Encode(Print(acks[i])));
      if !ok {
        return;
      }
    }
    ok := true;
  }
}
