# castd: a verified model

castd is a meeting-room cast receiver: a Miracast (Wi-Fi Display) sink and an AirPlay receiver
that share one display. This project models its protocol and state-keeping code in Dafny and
proves what that code promises, over every peer, every run and every input.

| file | models |
|---|---|
| `Framing.dfy` | `RtspReader`: cutting a TCP byte stream into RTSP messages |
| `Messages.dfy` | every message the sink writes, as text and as bytes |
| `Rtsp.dfy` | `WfdNegotiator`: the sink side of the WFD M1-M7 handshake, and the keep-alive acknowledgements |
| `Session.dfy` | `negotiate` and `run_steady_state`, which drive the negotiator over a socket |
| `Arbiter.dfy` | `CastArbiter`: who owns the display |
| `UxPlay.dfy` | `UxPlayClientTracker`: AirPlay sessions inferred from a log |
| `WfdIe.dfy` | the information element blob that advertises the sink |
| `Daemon.dfy` | `CastDaemon`: actions, UxPlay's life cycle, one source's whole session, the watchdog tick |
| `Interleaving.dfy` | the daemon's threads as a transition system |
| `Watchdog.dfy` | `StreamWatchdog` and runs of watchdog ticks |
| `QrCode.dfy`, `Framebuffer.dfy`, `Config.dfy` | the join code's payload, RGB565 painting, the room configuration |
| `Prelude.dfy`, `Text.dfy` | shared: strings, leftmost searches in place of regular expressions, decimal numbers |

## How it is stated

A class keeps the fields its Python counterpart keeps, and its methods are proved against a
specification function of the old state: `RtspReader.NextMessage` against `Next`, `Negotiate`
against the table `Exchange`, `RunSteadyState` against `Pump`, `CastDaemon.RunSourceSession`
against `AfterSession` and `SessionExit`. The main results are lemmas about those functions.

A socket's future is a script: what each `recv` will meet (a non-empty chunk, a time-out, an
error, and an orderly close when the script runs out), and which `sendall` and `settimeout`
calls raise. Every lemma is for all scripts. An exception is a value of the result datatype, so
"returning or raising" is a statement about all its cases.

A stream is framed twice: by `Reference`, which knows only the bytes, and by `Next`, which knows
only a buffer and the next chunk. Everything about sessions is stated in terms of the first.

Words and numbers of the protocol are written out in the statements, not only in the definitions:
what a printed message says, what a reader's search finds in it, which words end a session.

`Interleaving` takes an event with its action list as one step, a watchdog tick as one step, and
recovery's last state check with the restart it guards as one step. It assumes that one session's
threads run at a time; that a session begins from IDLE, after a tick was seen outside MIRACAST, or
from the MIRACAST that a `ValueError` left; and that no render process dies by itself once started.
A session's steps cover all its ends: the handshake may fail, raise the `ValueError` nothing
catches, or succeed with a pipeline that does not start. The lemmas at the end of the module show
what happens without one of the assumptions.

The results about runs of the daemon take an event with its action list as one step, and so the
death of uxplay's process with its pump's noticing it. Crash recovery is two steps, as in the code
(castd/main.py:223-225): the check that decides on a relaunch, and the relaunch itself, after a
sleep and without another check; anything may happen in between. A run is `Undisturbed` if every
relaunch finds the process still dead; what fails in the others is said by the lemmas below.
These results assume that `UxPlayProcess.stop()` drains the pump of the process it stops, and that
no exit of an earlier process is pending: `Daemon.Occurs` takes the drained lines and the end of the
output with the stop. The code does not join the pump's thread (castd/airplay/uxplay.py:148-177).
`LatePump` says exactly which late reports break them. They also assume that uxplay's executable can
be started (`canSpawn`); `SpawnFailure` says which events that matters to. Each publication of the
blob may be accepted or refused.

## What the code does not do

The model follows the code. In these places the code falls short of what it sets out to do, and
the lemma named says exactly when.

- `int()` raises `ValueError` on more than 4300 digits (CPython's default limit since 3.11; the
  repository runs on 3.12), and `handle_miracast_connected` catches only `NegotiationError` and
  `OSError`. Such a number in Content-Length or in M6's `server_port` ends the session's thread
  with the arbiter still in MIRACAST and UxPlay stopped. A session ends settled if and only if no
  such number is what ends its handshake: `ChokesOn` says so of the bytes that arrive before the
  transport first fails and of the number of payloads that can be sent, for every failure point
  (`SessionFromIdle`). If nothing fails, `Chokes` says it of the peer's stream alone. It takes a run
  of that many digits (`NoLongRunNoStuckSession`), and a first message declaring its length in one
  is enough (`LongLengthSticks`).
- Crash recovery sleeps two seconds between its check and its relaunch. Whatever happens meanwhile,
  bar another death, the relaunch succeeds and leaves the daemon sound if and only if no source
  connected (`RelaunchAfterSleep`); over whole runs, nothing raises and the daemon stays sound
  throughout if and only if every relaunch finds the process still dead (`RunKeepsSound`). A source
  that connects in the sleep is enough (`RelaunchInSession`): uxplay then runs in MIRACAST with no
  exit expected, and the session's end raises half-way, leaving the arbiter idle, the blob as it was
  during the session, and no idle screen (`RelaunchNeedsDead`).
- M3's Content-Length counts characters while the wire carries UTF-8. The reply is framed right if
  and only if every name that M3 asks for is ASCII (`CapabilityReplyFrames`), and a session's whole
  output is read back right if and only if that is so, or the handshake does not pass its first
  three messages and the reply is not sent (`SessionOutputReframes`). Both suppose a body whose length prints in 4300 digits.
- `run_steady_state` calls `settimeout` before its `try`: the negotiator is TORN_DOWN on every
  exit but the one where that call raises (`RunSteadyState`).
- M7's answer need not be a complete message. A handshake takes the first six frames of the stream
  and then the seventh, if and only if there is a seventh, and otherwise the residue that the
  peer's close cut short (`NegotiatedFrames`); `AcceptableFrames` says which streams are accepted,
  frame by frame, and `ResidueHandshake` gives a stream that is accepted on a residue.
- A rejected MIRACAST_CONNECTED does not stop `handle_miracast_connected`: a source that connects
  during AirPlay leaves the Miracast pipeline running while AirPlay owns the display, if and only if
  its handshake passes all seven messages and the pipeline starts (`SessionDuringAirplay`,
  `AirplaySessionRenders`).
- `_render_pipeline_expected` survives a session: it is still up exactly when it was up when the
  session ended, no tick has been seen since, and recovery was not just about to drop it
  (`FlagAfterSession`; `StaleFlagReachable` is a schedule). Carried into a new session, it makes the
  first tick at any point of the handshake trip (`StaleFlagTripsHandshake`).
- Recovery's last check and its `render.start` are two calls. Whatever happens between them leaves
  render running with no session if and only if it includes the session's end
  (`SplitRestartResurrects`).
- `stop()` does not join UxPlay's pump. A late edge parts ownership from the tracker if and only if
  the arbiter heeds it, a late exit report if and only if AirPlay has the display, and a late
  relaunch always fails (`LatePump`).
- WATCHDOG_TIMEOUT, which main.py never raises, would part display ownership from the tracker, in
  AIRPLAY and only there (`OccursKeepsSound`).
- A refused publication of the blob is logged and swallowed. Pauses and resumptions take turns, so
  the blob says whether the sink is idle if and only if an even number of publications have been
  refused since the last one accepted (`RunPublishesAvailability`).
- A stride shorter than a row leaves the rows unpadded, so the length is not stride times height
  (`ShortStride`).

## Model

| member | source | states |
|---|---|---|
| Framing.FirstFrameExtend | castd/wfdsink/session.py:55-73 | once the buffer settles a message's length, later bytes cannot change it |
| Framing.LengthReads | castd/wfdsink/session.py:31 | the declared body length is the digits after the first Content-Length:, in any case of letters, white space between; more than 4300 are refused |
| Framing.LengthMissing | castd/wfdsink/session.py:62-63 | a header block that writes no Content-Length: declares no body |
| Framing.FramesPartition | castd/wfdsink/session.py:55-73 | the whole-stream framer's messages and residue, end to end, are the stream |
| Framing.ReferenceIsFrames | castd/wfdsink/session.py:55-73 | successive reads of a finished stream give its messages in order, then the unfinished residue once, then "" for ever (or the ValueError for ever, if the residue declares a refused length) |
| Framing.NextReadsStream | castd/wfdsink/session.py:55-73 | one read returns what the whole remaining stream says and leaves the rest, however the stream is cut; a read that raises loses nothing |
| Framing.NextConservesBytes | castd/wfdsink/session.py:55-73 | what one read returns plus what stays buffered is what was buffered plus what recv delivered, also when it raises |
| Framing.ReadsConserveBytes | castd/wfdsink/session.py:51-73 | the same over any number of reads: messages returned plus buffer equal the bytes received |
| Framing.NextReadsDeliverable | castd/wfdsink/session.py:55-73 | one read takes the first frame of the bytes that arrive before recv first fails; without one, it raises if recv fails and otherwise returns the residue |
| Framing.ReadsFollowReference | castd/wfdsink/session.py:55-73 | leaving out the reads that raised, the results are the reference framing's: a timed-out read can be resumed |
| Framing.FaultlessReadsAll | castd/wfdsink/session.py:55-73 | without socket errors no read raises one |
| Framing.SegmentationIndependence | castd/wfdsink/session.py:55-73 | any two ways of cutting the same bytes into non-empty chunks give the same reads, one by one, and they are the reference's |
| Framing.RtspReader.NextMessage | castd/wfdsink/session.py:55-73 | the buffer loop terminates and computes `Next`, so it reads the stream as the reference does |
| Text.FindSpec | castd/wfdsink/session.py:59 | the blank-line search finds the first occurrence, and fails exactly when there is none |
| Text.FieldNone | castd/wfdsink/rtsp.py:52-56 | a field search fails exactly when its pattern matches nowhere |
| Text.FieldValueIs | castd/wfdsink/rtsp.py:39-41 | a value written after the key and white space, and not continued, is captured whole |
| Text.ParseDecimal | castd/wfdsink/session.py:62-63 | a length printed in decimal reads back as the same number |
| Text.SplitJoin | castd/wfdsink/rtsp.py:271 | the entries a steady-state message is split into rebuild it |
| Text.SplitIsClean | castd/wfdsink/rtsp.py:271 | no entry still holds a blank line |
| Messages.Utf8Decodes | castd/wfdsink/session.py:104 | a character's bytes decode to it |
| Messages.EncodeLength | castd/wfdsink/rtsp.py:126 | a text takes one byte per character exactly when it is ASCII |
| Messages.OptionsReplyText | castd/wfdsink/rtsp.py:105-111 | the M1 reply, word for word |
| Messages.OptionsRequestText | castd/wfdsink/rtsp.py:113-115 | M2, word for word |
| Messages.CapabilityReplyText | castd/wfdsink/rtsp.py:118-127 | the M3 reply, word for word around its body |
| Messages.AckText | castd/wfdsink/rtsp.py:202 | an acknowledgement, word for word |
| Messages.SetupRequestText | castd/wfdsink/rtsp.py:222-228 | M6, word for word |
| Messages.PlayRequestText | castd/wfdsink/rtsp.py:246-253 | M7, word for word |
| Messages.CapabilityLength | castd/wfdsink/rtsp.py:123-127 | a reader of M3's header finds the length it declares, past Content-Type |
| Messages.CapabilityFrames | castd/wfdsink/rtsp.py:123-127 | for any body at all, the M3 reply's bytes are cut out whole, whatever follows, if and only if the body is ASCII (and its length prints in 4300 digits) |
| Messages.SinkMessageFrames | castd/wfdsink/rtsp.py:105-278 | every message the negotiator can build, for any one-line ASCII address that does not itself spell a length header, is exactly the first frame of its bytes and anything after them, if and only if it is not an M3 reply that miscounts its body |
| Messages.PrintFrameRoundTrip | castd/wfdsink/rtsp.py:105-278 | any such messages printed back to back are framed into exactly those messages, with nothing over, if and only if none of them miscounts |
| Messages.PrintReadRoundTrip | castd/wfdsink/session.py:55-73 | a peer that reads with RtspReader gets them one by one, however TCP cuts them |
| Rtsp.CapabilityBodyText | castd/wfdsink/rtsp.py:129-186 | the capability body, word for word, with a line for each thing that M3 asks for and the sink has |
| Rtsp.UpperHexReads | castd/wfdsink/rtsp.py:171-173 | the EDID's length field reads back and is at least four digits wide |
| Rtsp.HexBytesRead | castd/wfdsink/rtsp.py:171-173 | every EDID byte reads back from its two digits |
| Rtsp.CapabilityBodyAscii | castd/wfdsink/rtsp.py:129-186 | the capability body is ASCII if and only if every name that M3 asks for is |
| Rtsp.CapabilityReplyFrames | castd/wfdsink/rtsp.py:118-186 | the answer to an M3 is cut out whole, whatever follows, if and only if every name that M3 asks for is ASCII (and the length prints in 4300 digits) |
| Rtsp.LastUibcChoiceWins | castd/wfdsink/rtsp.py:204-211 | the last entry of M4 that chooses a UIBC port decides it; if none does, nothing is stored |
| Rtsp.UibcPortReads | castd/wfdsink/rtsp.py:208-211 | an entry that writes one port, ended by ';', a line end or the end of the text, chooses exactly that port, or none if it is "none" |
| Rtsp.UibcNothing | castd/wfdsink/rtsp.py:204-211 | an entry that does not speak of UIBC, or writes no port, chooses none |
| Rtsp.M6Recovers | castd/wfdsink/rtsp.py:230-243 | a response that writes server_port= and Session: once each, in either order, with any text around (a client_port=, say), yields the port (any digit count int() takes, first of a range) and the whole id |
| Rtsp.M6Refuses | castd/wfdsink/rtsp.py:230-238 | a response that lacks either is refused |
| Rtsp.CseqReads | castd/wfdsink/rtsp.py:39 | a message's CSeq is the digits after the first CSeq:, in any case of letters, white space between |
| Rtsp.CseqMissing | castd/wfdsink/rtsp.py:52-56 | there is none if that is written nowhere |
| Rtsp.PrintedCseq | castd/wfdsink/rtsp.py:105-278 | a CSeq search in any printed message finds the number it is meant to carry: the peer's, echoed, or the sink's own |
| Rtsp.SetupCarriesPort | castd/wfdsink/rtsp.py:222-228 | a search for client_port= in the printed SETUP finds the sink's RTP port |
| Rtsp.PlayCarriesSession | castd/wfdsink/rtsp.py:246-253 | a search for Session: in the printed PLAY finds the id it was built with |
| Rtsp.TeardownIs | castd/wfdsink/rtsp.py:263-264 | the session ends with "" and with exactly the messages in which the words "wfd_trigger_method: TEARDOWN" stand somewhere |
| Rtsp.RequestIs | castd/wfdsink/rtsp.py:271-273 | an entry wants an acknowledgement exactly when GET_PARAMETER or SET_PARAMETER stands somewhere in it |
| Rtsp.AcksAnswerRequests | castd/wfdsink/rtsp.py:266-278 | one 200 OK per such entry, in order, echoing that entry's CSeq; refused exactly when one lacks its CSeq |
| Rtsp.WfdNegotiator.NextCseq | castd/wfdsink/rtsp.py:100-102 | own CSeqs count up by one |
| Rtsp.WfdNegotiator.HandleM1Options | castd/wfdsink/rtsp.py:105-110 | accepted exactly in WAIT_M1 with a CSeq, echoed; otherwise nothing changes |
| Rtsp.WfdNegotiator.BuildM2OptionsRequest | castd/wfdsink/rtsp.py:113-115 | M2 with the next own CSeq |
| Rtsp.WfdNegotiator.HandleM3GetParameter | castd/wfdsink/rtsp.py:118-127 | accepted exactly in WAIT_M3 with a CSeq, answered with the body M3 asks for |
| Rtsp.WfdNegotiator.HandleM4SetParameter | castd/wfdsink/rtsp.py:189-202 | accepted exactly in WAIT_M4 with a CSeq, storing the UIBC choice of its entries; otherwise nothing changes |
| Rtsp.WfdNegotiator.ParseUibcPort | castd/wfdsink/rtsp.py:204-211 | the loop over blank-line entries stores what `LastUibcChoiceWins` says |
| Rtsp.WfdNegotiator.HandleM5Generic | castd/wfdsink/rtsp.py:214-219 | accepted exactly in WAIT_M5 with a CSeq |
| Rtsp.WfdNegotiator.BuildM6SetupRequest | castd/wfdsink/rtsp.py:222-228 | M6 with the next own CSeq and the sink's RTP port |
| Rtsp.WfdNegotiator.ParseM6Response | castd/wfdsink/rtsp.py:230-243 | stores port and session id together, or raises and changes nothing |
| Rtsp.WfdNegotiator.BuildM7PlayRequest | castd/wfdsink/rtsp.py:246-253 | PLAY carries the stored session id; without one it raises and no CSeq is spent |
| Rtsp.WfdNegotiator.ConfirmStreaming | castd/wfdsink/rtsp.py:255-260 | STREAMING only from WAIT_M7_RESPONSE and only on a 200 OK |
| Rtsp.WfdNegotiator.BuildSteadyStateAck | castd/wfdsink/rtsp.py:266-278 | the loop computes the acknowledgements of `AcksAnswerRequests`, and raises outside STREAMING |
| Rtsp.WfdNegotiator.MarkTornDown | castd/wfdsink/rtsp.py:280-281 | TORN_DOWN from any state |
| Session.SendEachSends | castd/wfdsink/session.py:175-177 | what a list of sends puts on the wire is a prefix of the list, all of it if none failed, and reading is unaffected |
| Session.ExchangeTranscript | castd/wfdsink/session.py:76-140 | against any peer: the messages accepted are the first of the reference framing, what was sent is a prefix of their answers, and a negotiated end accepted and answered all |
| Session.FullTranscript | castd/wfdsink/rtsp.py:105-260 | the answers to seven accepted messages are these seven: M1 reply, M2 with CSeq 1, M3 reply, M4 and M5 acks, M6 with CSeq 2, PLAY with CSeq 3 and M6's session |
| Session.NegotiatedTranscript | castd/wfdsink/session.py:76-140 | a negotiated handshake consumed exactly the first seven messages, sent exactly those seven, and left the rest of the stream unread |
| Session.NegotiatedIff | castd/wfdsink/session.py:76-140 | over a transport that does not fail, the handshake succeeds if and only if the stream's first seven messages are acceptable, however they are cut |
| Session.AcceptableFrames | castd/wfdsink/session.py:76-140 | those streams, frame by frame: M1 to M6's answer must be complete frames, M7's answer a seventh frame or else the residue |
| Session.NegotiatedFrames | castd/wfdsink/session.py:76-140 | against any peer a negotiated handshake took the stream's first six frames, and then the seventh if and only if there is one, else the residue |
| Session.ResidueHandshake | castd/wfdsink/session.py:68-72 | a concrete stream whose handshake succeeds on an unterminated answer to M7 |
| Session.BadIntegerIff | castd/wfdsink/session.py:62-63 | a handshake raises ValueError only on a stream that chokes it, and, if the transport does not fail, on every one |
| Session.ExchangeIff | castd/wfdsink/session.py:76-140 | over every transport: the handshake succeeds if and only if all seven messages arrive, are acceptable and can be answered before anything fails, and raises ValueError if and only if a refused number comes before anything else ends it |
| Session.AnsweredIff | castd/wfdsink/session.py:76-140 | the answers to the first messages all go out exactly when those arrive, are acceptable and can be answered |
| Session.PumpAcknowledges | castd/wfdsink/session.py:143-182 | the pump reads the first messages of the reference framing, none after one that triggers a teardown or is refused, and sends the acks owed in order, cut short only by a failing send |
| Session.TeardownEnds | castd/wfdsink/session.py:175-180 | a message with the words "wfd_trigger_method: TEARDOWN" anywhere in it is acknowledged and then ends the session: nothing more is read |
| Session.PumpIff | castd/wfdsink/session.py:143-182 | how the steady state ends, exactly, over every transport: with the first message that is "" or triggers a teardown, or asks for an acknowledgement without a number, or cannot be acknowledged, or declares a refused length, or else with the fault |
| Session.SessionReadsInOrder | castd/wfdsink/session.py:143-182 | handshake and pump on one reader read one run of messages, the pump starting at the eighth; everything sent is the seven and then the acks owed |
| Session.BadIntegerNeedsLongRun | castd/wfdsink/session.py:62-63 | a handshake raises ValueError only on a stream with a run of more than 4300 digits |
| Session.LongLengthRaises | castd/wfdsink/session.py:62-63 | a first message that declares its length in so many digits does raise it |
| Session.StepM1 | castd/wfdsink/session.py:76-140 | M1 and M2's request: agrees with row 0 of the handshake table |
| Session.StepM2 | castd/wfdsink/session.py:76-140 | M2's answer, any message: agrees with row 1 |
| Session.StepM3 | castd/wfdsink/session.py:76-140 | M3: agrees with row 2 |
| Session.StepM4 | castd/wfdsink/session.py:76-140 | M4: agrees with row 3 |
| Session.StepM5 | castd/wfdsink/session.py:76-140 | M5 and M6's request: agrees with row 4 |
| Session.StepM6 | castd/wfdsink/session.py:76-140 | M6's answer and M7's request: agrees with row 5 |
| Session.StepM7 | castd/wfdsink/session.py:76-140 | M7's answer: agrees with row 6, and the negotiator is STREAMING |
| Session.Negotiate | castd/wfdsink/session.py:76-140 | ends, reads and sends exactly as the table says; STREAMING exactly on success, with port and session id stored |
| Session.RunSteadyState | castd/wfdsink/session.py:143-182 | ends, reads and sends exactly as `Pump` says, terminates on every finite stream, and leaves the negotiator TORN_DOWN unless settimeout itself raised |
| Session.SendAcks | castd/wfdsink/session.py:175-177 | sends the acks in order up to the first failure |
| Arbiter.CastArbiter.Handle | castd/fsm/state_machine.py:63-72 | takes the table's transition, or stays and logs a rejection |
| Arbiter.FirstConnectWins | castd/fsm/state_machine.py:75-128 | a connection is accepted only from IDLE; the display is given up exactly by its owner's disconnection or a timeout; everything else is rejected and logged |
| Arbiter.TimeoutForces | castd/fsm/state_machine.py:75-128 | a timeout forces the owner's teardown and then does what its disconnection does |
| Arbiter.HandoverThroughIdle | castd/fsm/state_machine.py:75-128 | over every event sequence the display passes between MIRACAST and AIRPLAY only through IDLE |
| Arbiter.AirplayAdvertisingAlternates | castd/fsm/state_machine.py:75-128 | over every event sequence AirPlay is paused and resumed strictly in turn |
| Arbiter.DiscoveryAlternates | castd/fsm/state_machine.py:75-128 | over every event sequence Miracast discovery is paused and resumed strictly in turn |
| WfdIe.WalkSubelement | castd/p2p/wfd_ie.py:66-67 | a subelement's id, length and payload read back, whatever follows |
| WfdIe.DeviceInfo | castd/p2p/wfd_ie.py:41-67 | refused exactly when port or throughput does not fit two bytes |
| WfdIe.BlobReadsBack | castd/p2p/wfd_ie.py:84-100 | every blob walks as exactly two subelements, ids 0 and 6, the second seven zeros, and reads back as a primary sink (01) with the port, the throughput and availability 01 or 00, and no other bit |
| WfdIe.PublishedBytes | castd/p2p/wfd_ie.py:41-100 | the blob the daemon publishes, byte for byte |
| WfdIe.PublishedAvailability | castd/p2p/dbus_go.py:260-283 | the blob published for a pause or a resume says unavailable or available |
| UxPlay.UxPlayClientTracker.Feed | castd/airplay/uxplay.py:51-65 | one line changes the open count and reports an edge as its meaning says |
| UxPlay.ClassifyIff | castd/airplay/uxplay.py:38-40 | what a line means, by the words in it, in any case of letters and with any text around them |
| UxPlay.OpenIsMaxSuffixSum | castd/airplay/uxplay.py:43-65 | after any log the open count is the largest suffix sum of accepts minus closes since the last server stop |
| UxPlay.EdgesAlternate | castd/airplay/uxplay.py:43-65 | after any log the edges alternate from connected, and the last is connected exactly while the count is positive |
| Daemon.FireFrom | castd/main.py:506-530 | an event and its actions from a consistent state raise nothing and keep it consistent; what they do to UxPlay, render, blob and screen |
| Daemon.SpawnFailure | castd/main.py:506-530 | if uxplay's process cannot be started, exactly the events that end a Miracast session raise |
| Daemon.OccursKeepsSound | castd/main.py:197-225 | everything that can happen bar a relaunch, drained log lines and the death of uxplay included, raises nothing and keeps the daemon sound; ownership stays with the tracker exactly unless a WATCHDOG_TIMEOUT comes during AIRPLAY |
| Daemon.RelaunchNeedsDead | castd/main.py:223-225 | a recovery's relaunch succeeds and keeps the daemon sound exactly when the process is still dead; otherwise it raises, or starts uxplay in a session whose end then raises half-way, and what that leaves |
| Daemon.RelaunchAfterSleep | castd/main.py:213-225 | whatever happens during the sleep, bar another death, the relaunch succeeds and leaves the daemon sound if and only if no source connected meanwhile |
| Daemon.RelaunchInSession | castd/main.py:213-225 | a death at IDLE, a source in the sleep, the relaunch: uxplay runs in MIRACAST with no exit expected, and the session's end raises |
| Daemon.RunKeepsSound | castd/main.py:506-530 | over every run, with recovery's sleep: nothing raises and the daemon is sound throughout (uxplay runs exactly outside MIRACAST, save that it may be dead at IDLE with its relaunch pending) if and only if every relaunch finds the process still dead |
| Daemon.NobodyDisturbs | castd/main.py:213-225 | a run in which no source connects while a recovery sleeps is such a run |
| Daemon.RunTracksOwnership | castd/airplay/uxplay.py:136-177 | over every run whose relaunches all find the process still dead, the arbiter is in AIRPLAY iff the live process's tracker has an open connection; in MIRACAST there is no process, an exit is expected, and an exit noticed then is not recovered from |
| Daemon.LatePump | castd/airplay/uxplay.py:148-177 | which late reports break these results: exactly an edge the arbiter heeds, an exit during AIRPLAY, and any relaunch that comes when all is well |
| Daemon.RunPublishesAvailability | castd/p2p/dbus_go.py:272-283 | over every run whose relaunches all find the process still dead, the last blob accepted, read from its bytes, says available iff the arbiter is idle, if and only if an even number of publications (none, say) have been refused since |
| Daemon.SessionFromIdle | castd/main.py:266-290 | for every stream, segmentation and failure point: a session ends settled (IDLE, render stopped, UxPlay running, the sink published as available save for refused publications) if and only if no refused number is what ends its handshake, and starts render once if the handshake passes all seven messages and the pipeline starts, otherwise never; if nothing fails, both depend on the stream alone |
| Daemon.SessionEnds | castd/main.py:407-457 | the same by how the handshake ends: settled unless by ValueError, which leaves MIRACAST with UxPlay stopped; and the availability published if none of it is refused |
| Daemon.SessionOutputReframes | castd/main.py:266-290 | all that a session sends, whatever the peer and wherever it fails, is read back message by message if and only if M3 asked for nothing that is miscounted, or the handshake never began or did not pass its first three messages |
| Daemon.SessionRaisesIff | castd/main.py:266-290 | exactly when a session's thread ends with an exception: a refused number ends the handshake; or, once streaming, settimeout fails or the steady state comes to a refused number, a request without a CSeq, or an acknowledgement that cannot be sent |
| Daemon.DaemonOffers | castd/main.py:417-426 | the daemon offers every source port 1028, AAC sound and modes up to 1080p30, word for word |
| Daemon.DaemonAsks | castd/wfdsink/rtsp.py:222-253 | it asks every source for the stream on port 1028 with CSeq 2, then to play with CSeq 3 and the source's own session |
| Daemon.NoLongRunNoStuckSession | castd/main.py:407-457 | a source that never sends more than 4300 digits in a row cannot leave the daemon stuck |
| Daemon.LongLengthSticks | castd/main.py:407-457 | one that declares its first message's length in more leaves it in MIRACAST with UxPlay stopped |
| Daemon.SessionDuringAirplay | castd/main.py:414-438 | for every failure point: a session during AirPlay changes nothing but render, and that exactly when its handshake passes all seven messages; if the pipeline starts, it is left running |
| Daemon.RenderProcess.Start | castd/render/gstreamer.py:211-247 | raises exactly when a pipeline is running or the process does not start |
| Daemon.RenderProcess.Stop | castd/render/gstreamer.py:278-290 | no pipeline runs afterwards |
| Daemon.UxPlayProcess.Start | castd/airplay/uxplay.py:136-146 | raises exactly when the process is alive or the new one does not start; otherwise a fresh process, with no exit expected |
| Daemon.UxPlayProcess.Stop | castd/airplay/uxplay.py:167-177 | no process afterwards, and an exit is expected if there was one |
| Daemon.CastDaemon.ApplyActions | castd/main.py:506-530 | the loop carries out the actions in order, up to the first that raises, and what it then leaves |
| Daemon.CastDaemon.SetSessionAvailable | castd/p2p/dbus_go.py:272-283 | publishes the blob, or swallows the refusal and keeps the old one |
| Daemon.CastDaemon.OnAirplayConnected | castd/main.py:197-205 | fires AIRPLAY_CONNECTED and its actions |
| Daemon.CastDaemon.OnAirplayDisconnected | castd/main.py:207-211 | fires AIRPLAY_DISCONNECTED and its actions |
| Daemon.CastDaemon.OnUxPlayExited | castd/main.py:213-223 | out of AIRPLAY first; then a relaunch is due unless a process is alive |
| Daemon.CastDaemon.RelaunchUxPlay | castd/main.py:224-225 | after the sleep, relaunches without another check, raising if a process is alive |
| Daemon.CastDaemon.StartPipeline | castd/main.py:437-442 | render stopped and started and the flag armed, or render stopped if the process does not start |
| Daemon.CastDaemon.HandleMiracastConnected | castd/main.py:407-457 | the three ways it leaves: streaming with render started and the flag armed, failed (the pipeline not starting included) with the arbiter driven back, or an uncaught ValueError with it left in MIRACAST; and what the handshake read and sent |
| Daemon.CastDaemon.HandleMiracastDisconnected | castd/main.py:501-504 | fires MIRACAST_DISCONNECTED and its actions |
| Daemon.CastDaemon.PumpControlChannel | castd/main.py:281-290 | whether the pump returned or raised, the socket is closed and the arbiter driven back; it raises exactly when the pump does |
| Daemon.CastDaemon.RunSourceSession | castd/main.py:266-279 | for every script: the world afterwards, how the thread ends, all it read and sent, and no active control socket |
| Daemon.CastDaemon.TripStreamWatchdog | castd/main.py:345-352 | the active control socket, if any, is closed |
| Daemon.CastDaemon.StreamWatchTick | castd/main.py:319-343 | one tick's samples, trip and flag; the control socket is closed on a trip and untouched otherwise |
| Interleaving.HandleIsFire | castd/main.py:506-530 | an event step of the transition system is the daemon's event with all its actions, on the state the threads share |
| Interleaving.TickIsWatched | castd/main.py:319-343 | a tick step trips and clears the flag exactly as the watchdog's tick does |
| Interleaving.ScheduleIsSession | castd/main.py:266-290 | without interference the session thread's steps leave what the whole session leaves, for each of its ends: streamed, not started, failed, ValueError |
| Interleaving.StepKeepsSafe | castd/main.py:319-343 | every step of every thread keeps the invariant, and only the session's start and a live recovery's restart ever start render |
| Interleaving.InterleavingSafety | castd/main.py:459-499 | over every interleaving, ValueError ends included: MIRACAST plus the flag means render runs, so no tick trips on a handshake or a re-roll gap; render stays stopped outside sessions; at most three re-rolls |
| Interleaving.BootIsSafe | castd/main.py:459-499 | the same for every schedule from boot |
| Interleaving.ReRollIff | castd/main.py:476-496 | with anything the other threads do between its six steps, recovery re-rolls the pipeline, raises the flag and waits again (up to three times) if and only if no frame came, the session was on and the flag up at its check, render running at its next, the session still on at the restart, and the pipeline started; otherwise it is over |
| Interleaving.ReRolls | castd/main.py:476-496 | undisturbed in a live session, its six steps re-roll the pipeline |
| Interleaving.FlagAfterSession | castd/main.py:323-326 | after a session the flag is up exactly when it was up at its end, no tick has been seen since, and recovery was not just about to drop it |
| Interleaving.StaleFlagTripsHandshake | castd/main.py:323-326 | carried into a new session, the flag makes the first tick at any point of its handshake trip, and only then does it |
| Interleaving.StaleFlagReachable | castd/main.py:438-450 | a session that ends before a tick looks leaves it up |
| Interleaving.SplitRestartResurrects | castd/main.py:492-495 | whatever happens between the last check and the restart leaves render running without a session if and only if it includes the session's end; with the check at the restart, never |
| Interleaving.AirplaySessionRenders | castd/main.py:414-438 | a session begun during AirPlay runs its pipeline there, and leaves it running when it ends |
| Watchdog.StreamWatchdog.Observe | castd/stream_watchdog.py:37-47 | true exactly when the time since the latest progress sample since the reset exceeds the window |
| Watchdog.StreamWatchdog.Reset | castd/stream_watchdog.py:33-35 | forgets every sample |
| Watchdog.LastProgress | castd/stream_watchdog.py:37-47 | the latest sample that is the first or an increase of at least the minimum |
| Watchdog.TripLatency | castd/stream_watchdog.py:27-47 | a flat stream first trips strictly after the window and at most one sample gap past it |
| Watchdog.FlatStreamTrips | castd/stream_watchdog.py:37-47 | it does trip, if samples go on past the window |
| Watchdog.HeldFrom | castd/main.py:319-343 | the samples held come one each from the observing ticks since the last reset, missing none, all in MIRACAST |
| Watchdog.StallTripJustified | castd/main.py:319-343 | every stall trip has an earlier sampled tick more than 10 s before it, with every tick between in MIRACAST and untripped and no consecutive increase of 5000 bytes |
| Watchdog.StallTripsIff | castd/main.py:319-343 | on a clock that never runs backwards, a tick trips on a stall if and only if some earlier tick justifies it |
| Watchdog.FlatlineTripsInTime | castd/main.py:319-343 | a stream that goes flat after a tick trips at the first sampled tick more than 10 s later, at no tick before, and at most one sample gap past the 10 s |
| Watchdog.StallTripsApart | castd/main.py:319-343 | two stall trips are more than the window apart |
| QrCode.ReplaceExtends | castd/airplay/qrcode_wifi.py:21-27 | one more replacement extends the one-pass escape, if its character is new and not the backslash |
| QrCode.Escape | castd/airplay/qrcode_wifi.py:21-27 | the five sequential replacements are one pass over the five special characters, for every string |
| QrCode.BackslashMustComeFirst | castd/airplay/qrcode_wifi.py:21-27 | for every order of distinct characters, the sequential replacements are one pass if and only if the backslash comes first or is not replaced |
| QrCode.BuildWifiQrPayload | castd/airplay/qrcode_wifi.py:30-47 | the payload, or the refusal of an empty ssid or a passphrase outside 8 to 63 characters |
| QrCode.EscapedFieldReads | castd/airplay/qrcode_wifi.py:21-27 | an escaped value reads back as one field, whatever it holds and whatever follows |
| QrCode.PayloadRoundTrip | castd/airplay/qrcode_wifi.py:30-47 | a left-to-right unescaping reader recovers ssid, passphrase and hidden flag from every payload |
| QrCode.PayloadInjective | castd/airplay/qrcode_wifi.py:30-47 | no two networks share a payload |
| Framebuffer.Rgb565Fields | castd/render/framebuffer.py:77 | a pixel's value holds the top 5, 6 and 5 bits of its components and fits two bytes |
| Framebuffer.Pack565 | castd/render/framebuffer.py:75-81 | every pixel in order, low byte first |
| Framebuffer.PadRows | castd/render/framebuffer.py:85-89 | every row followed by zeros up to the stride |
| Framebuffer.PixelShows | castd/render/framebuffer.py:77-80 | the two bytes of a pixel, low byte first, write a number whose fields are the leading 5, 6 and 5 bits of red, green and blue |
| Framebuffer.Layout565 | castd/render/framebuffer.py:71-89 | for every geometry whose stride holds a row: stride times height bytes, those two bytes of pixel (row, col) at row * stride + 2 * col, zeros after |
| Framebuffer.PaintFramebuffer | castd/render/framebuffer.py:66-89 | that layout at 16 bpp, padded rows at 32 bpp, ValueError exactly at any other depth |
| Framebuffer.ShortStride | castd/render/framebuffer.py:85 | unpadded data has stride times height bytes exactly when the stride is a row, or there are no rows |
| Config.ParseRoomConfig | castd/config.py:70-118 | the loop computes `Parse`: the configuration or the first error, with the line number of a bad line |
| Config.ReadLinesMeans | castd/config.py:70-88 | reading a file collects what its settings mean, later ones overriding, whatever its comments, blank lines, spacing and line ends, last line ended or not |
| Config.FirstUnreadable | castd/config.py:76-83 | the first line that is neither a note nor a setting is reported, with its own number |
| Config.RefusedForLine | castd/config.py:70-83 | a file is refused for a line exactly when that line is the first such one, and the error names it and its number |
| Config.ParseMeans | castd/config.py:70-118 | so parsing it checks those values and nothing else |
| Config.ConfigRoundTrip | castd/config.py:70-118 | a file that settles on a valid configuration's values parses to it: any order, comments, blank lines, spacing, unknown keys and overridden duplicates |
| Config.ParsedIsValid | castd/config.py:70-118 | whatever the parser returns is a valid configuration |
| Config.ValidIffWeighted | castd/config.py:25-50 | a pin is valid exactly when its eight digits, weighted 3 and 1 in turn, add up to a multiple of ten |
| Config.SuggestedDigitIsValid | castd/config.py:94-104 | the check digit an error suggests is the one that makes the pin valid |
| Config.MistypedDigitDetected | castd/config.py:25-50 | changing any one digit of a valid pin makes it invalid |
| Config.SwappedDigitsDetected | castd/config.py:25-50 | swapping two neighbours of a valid pin leaves it valid exactly when they are equal or differ by five |

## Left out

- Decoding: one `char` is one byte and `decode(errors="replace")` is the identity, so the text side is ASCII; Unicode digits, word characters, white space and line boundaries are not modelled.
- Session.StepM1: `negotiate` is straight-line code; the model cuts it into one method per message so that each can be checked against one row of the table.
- Rtsp.WfdNegotiator.HandleM4SetParameter: does not model the log lines about the chosen formats.
- Daemon.SessionOutputReframes: what a `sendall` that raises may have put on the wire is not modelled; a payload is sent whole or not at all.
- Daemon.CastDaemon.PumpControlChannel: a `sock.close` that raises is swallowed by the code and so has no counterpart; a closed socket's later `recv` errors are part of the script.
- Daemon.CastDaemon.RunSourceSession: the log lines `uxplay.stop()` drains are in `Daemon.Occurs`, not in the class; nothing else runs between the class's steps, which is what `Interleaving` is for.
- Daemon.CastDaemon.HandleMiracastConnected: the recovery thread it spawns is modelled in `Interleaving` only.
- Daemon.CastDaemon.OnUxPlayExited: one method of the code, cut at its sleep into this and `RelaunchUxPlay`, because anything may happen in between.
- Daemon.OccursKeepsSound: the death of uxplay's process and its pump's noticing it are one step.
- Daemon.RenderProcess.Start: a pipeline that dies by itself is only seen by `Watchdog.TickOn`.
- Interleaving.InterleavingSafety: under the granularity and the assumptions listed above; two sessions at once are not modelled.
- Watchdog.StreamWatchdog.Observe: times are real numbers, without floating-point rounding.
- Framebuffer.PaintFramebuffer: image decoding, resizing and the library's own 32 bpp packing; their bytes are inputs.
- Config.ConfigRoundTrip: the file reading around the parser, the frequency and the device name derived from a configuration are left out.
- castd/p2p/dbus_go.py: only the last blob accepted is kept, and whether each publication is refused; the D-Bus calls themselves are not part of this model.
- castd/render/gstreamer.py: pipeline strings and the first-frame marker; whether a frame came is chosen by the environment.
- castd/wfdsink/session.py `open_control_connection` and `listen_for_sources`, and castd/main.py `start`: dialling, listening and wiring.
- castd/p2p/group_network.py, castd/health.py, castd/sdnotify.py, logging, the associated-BSSID and MICE subelements: simple code that would only add easy members.
