/**
 * castd/main.py: the threads that share the daemon's state, interleaved. The session thread,
 * the cold-start recovery thread it spawns, the stream-watch thread and UxPlay's pump each
 * take one step at a time, in any order. An event with its action list is one step, a
 * watchdog tick is one step, and recovery's last check with the restart it guards is one step.
 */
module Interleaving {
  import opened Prelude
  import opened Arbiter
  import opened Session
  import Daemon
  import Watchdog

  const RENDER_COLD_START_RETRIES := 3

  /** Where the session thread is. */
  datatype SessionPc =
    | NoSession
    | Handshaking  // the arbiter is in MIRACAST, negotiate() is running
    | Agreed       // negotiated: render.stop() is next
    | Cleared      // render.start() is next
    | Started      // arming the flag is next
    | Pumping      // run_steady_state, with the recovery thread spawned

  /** Where the recovery thread is, in re-roll attempt 1, 2 or 3. */
  datatype RecoveryPc =
    | NoRecovery
    | Waiting(attempt: nat)      // wait_for_first_frame
    | Checking(attempt: nat)     // is this still the session?
    | Probing(attempt: nat)      // is render still running?
    | Disarming(attempt: nat)    // drop the flag
    | Stopping(attempt: nat)     // render.stop()
    | Restarting(attempt: nat)   // last check, render.start(), raise the flag

  datatype Shared = Shared(
    fsm: State,
    expected: bool,   // _render_pipeline_expected
    running: bool,    // render.is_running
    session: SessionPc,
    recovery: RecoveryPc,
    rerolls: nat,     // pipelines the recovery thread of this session restarted
    idleTick: bool)   // a tick was seen outside MIRACAST since the last session

  datatype Step =
    // session thread; Escape is the ValueError nothing catches, NoStart a pipeline that does not start
    | Begin | Agree | Fail | Escape | Clear | Start | NoStart | Arm | End
    | Recover(frame: bool, spawns: bool)  // recovery thread: did a frame come, does a pipeline start
    | WatchTick                           // stream-watch thread
    | Airplay(e: Event)                   // UxPlay's pump

  const Boot := Shared(IDLE, false, false, NoSession, NoRecovery, 0, true)

  /** An event and its actions: all of them that touch the shared state is render.stop(). */
  function Handle(m: Shared, e: Event): Shared {
    var d := Decide(m.fsm, e);
    m.(fsm := d.nextState, running := m.running && STOP_RENDER_PIPELINE !in d.actions)
  }

  /** The session thread's first step, from any state. */
  function BeginSession(m: Shared): Shared {
    Handle(m, MIRACAST_CONNECTED).(session := Handshaking, rerolls := 0, idleTick := false)
  }

  /** render.start() in the recovery thread; it raises if a pipeline is running, or the new one does not start. */
  function Restart(m: Shared, attempt: nat, spawns: bool): Shared {
    if m.running || !spawns then m.(recovery := NoRecovery)
    else m.(running := true, expected := true, rerolls := m.rerolls + 1,
            recovery := if attempt < RENDER_COLD_START_RETRIES then Waiting(attempt + 1) else NoRecovery)
  }

  function RecoveryStep(m: Shared, frame: bool, spawns: bool): Shared {
    match m.recovery
    case NoRecovery => m
    case Waiting(a) => m.(recovery := if frame then NoRecovery else Checking(a))
    case Checking(a) => m.(recovery := if m.fsm != MIRACAST || !m.expected then NoRecovery else Probing(a))
    case Probing(a) => m.(recovery := if !m.running then NoRecovery else Disarming(a))
    case Disarming(a) => m.(expected := false, recovery := Stopping(a))
    case Stopping(a) => m.(running := false, recovery := Restarting(a))
    case Restarting(a) => if m.fsm != MIRACAST then m.(recovery := NoRecovery) else Restart(m, a, spawns)
  }

  /** A tick that finds the render process dead where it should be running. */
  predicate Trips(m: Shared) { m.fsm == MIRACAST && m.expected && !m.running }

  function TickStep(m: Shared): Shared {
    if m.fsm != MIRACAST then m.(expected := false, idleTick := true)
    else if Trips(m) then m.(expected := false)
    else m
  }

  /**
   * No session's threads are running, and one may begin: from IDLE, after a tick was seen outside
   * MIRACAST, or from the MIRACAST that an escaped ValueError left.
   */
  predicate Ready(m: Shared) {
    m.session.NoSession? && m.recovery.NoRecovery? && (m.fsm == MIRACAST || (m.fsm == IDLE && m.idleTick))
  }

  /** The next state, if the step can be taken. */
  function Next(m: Shared, s: Step): Option<Shared> {
    match s
    case Begin => if Ready(m) then Some(BeginSession(m)) else None
    case Agree => if m.session.Handshaking? then Some(m.(session := Agreed)) else None
    case Fail => if m.session.Handshaking? then Some(Over(m)) else None
    case Escape => if m.session.Handshaking? then Some(m.(session := NoSession)) else None
    case Clear => if m.session.Agreed? then Some(m.(running := false, session := Cleared)) else None
    case Start => if m.session.Cleared? then Some(m.(running := true, session := Started)) else None
    case NoStart => if m.session.Cleared? then Some(Over(m)) else None
    case Arm =>
      if m.session.Started? then Some(m.(expected := true, session := Pumping, recovery := Waiting(1))) else None
    case End => if m.session.Pumping? then Some(Over(m)) else None
    case Recover(frame, spawns) =>
      if !m.recovery.NoRecovery? then Some(RecoveryStep(m, frame, spawns)) else None
    case WatchTick => Some(TickStep(m))
    case Airplay(e) => if e == AIRPLAY_CONNECTED || e == AIRPLAY_DISCONNECTED then Some(Handle(m, e)) else None
  }

  /** The session thread drives the arbiter back and is over. */
  function Over(m: Shared): Shared { Handle(m, MIRACAST_DISCONNECTED).(session := NoSession) }

  /** A schedule, if every step of it can be taken in turn. */
  function Exec(m: Shared, schedule: seq<Step>): (r: Option<Shared>)
    decreases |schedule|
  {
    if schedule == [] then Some(m)
    else match Next(m, schedule[0])
         case None => None
         case Some(m') => Exec(m', schedule[1..])
  }

  // ----- the steps are the daemon's -----

  /** The part of a daemon's world that the threads share. */
  predicate Shows(m: Shared, w: Daemon.World) { m.fsm == w.fsm && m.running == w.render }

  /** An event step is the daemon's event with all its actions. */
  lemma HandleIsFire(m: Shared, w: Daemon.World, e: Event)
    requires Daemon.Consistent(w) && Shows(m, w)
    ensures Daemon.Fire(w, e).Some? && Shows(Handle(m, e), Daemon.Fire(w, e).value)
  {
    hide Daemon.Fire;
    Daemon.FireFrom(w, e);
  }

  /** A tick step is the watchdog's tick, whatever samples it holds: the same trip and the same flag. */
  lemma TickIsWatched(m: Shared, h: seq<Watchdog.Sample>, rx: Option<int>, now: real)
    ensures var t := Watchdog.Tick(m.fsm == MIRACAST, m.expected, m.running, rx, now);
            var trip := Watchdog.TickOn(h, t).1;
            && (trip == Watchdog.RenderDied <==> Trips(m))
            && TickStep(m).expected == (m.expected && t.miracast && trip != Watchdog.RenderDied)
  {
    hide Watchdog.Stalled;
  }

  /** All the steps of a session whose handshake succeeds. */
  lemma StartSteps(m: Shared)
    requires Ready(m)
    ensures var live := BeginSession(m).(running := true, expected := true, session := Pumping, recovery := Waiting(1));
            Exec(m, [Begin, Agree, Clear, Start, Arm, End]) == Some(Over(live))
  {
    hide Exec, Handle;
    var m1 := BeginSession(m);
    assert [Begin] + [Agree, Clear, Start, Arm, End] == [Begin, Agree, Clear, Start, Arm, End];
    assert [Agree] + [Clear, Start, Arm, End] == [Agree, Clear, Start, Arm, End];
    assert [Clear] + [Start, Arm, End] == [Clear, Start, Arm, End];
    assert [Start] + [Arm, End] == [Start, Arm, End];
    assert [Arm] + [End] == [Arm, End] && [End] + [] == [End];
    ExecStep(m, Begin, [Agree, Clear, Start, Arm, End]);
    ExecStep(m1, Agree, [Clear, Start, Arm, End]);
    var m2 := m1.(session := Agreed);
    ExecStep(m2, Clear, [Start, Arm, End]);
    var m3 := m2.(running := false, session := Cleared);
    ExecStep(m3, Start, [Arm, End]);
    var m4 := m3.(running := true, session := Started);
    ExecStep(m4, Arm, [End]);
    var m5 := m4.(expected := true, session := Pumping, recovery := Waiting(1));
    ExecStep(m5, End, []);
    ExecNothing(Over(m5));
  }

  /** And of one whose pipeline then does not start. */
  lemma NoStartSteps(m: Shared)
    requires Ready(m)
    ensures Exec(m, [Begin, Agree, Clear, NoStart]) ==
              Some(Over(BeginSession(m).(running := false, session := Cleared)))
  {
    hide Exec, Handle;
    var m1 := BeginSession(m);
    assert [Begin] + [Agree, Clear, NoStart] == [Begin, Agree, Clear, NoStart];
    assert [Agree] + [Clear, NoStart] == [Agree, Clear, NoStart];
    assert [Clear] + [NoStart] == [Clear, NoStart] && [NoStart] + [] == [NoStart];
    ExecStep(m, Begin, [Agree, Clear, NoStart]);
    ExecStep(m1, Agree, [Clear, NoStart]);
    ExecStep(m1.(session := Agreed), Clear, [NoStart]);
    var m3 := m1.(running := false, session := Cleared);
    ExecStep(m3, NoStart, []);
    ExecNothing(Over(m3));
  }

  /** The steps of a session whose handshake fails, one way or the other. */
  lemma FailSteps(m: Shared)
    requires Ready(m)
    ensures Exec(m, [Begin, Fail]) == Some(Over(BeginSession(m)))
    ensures Exec(m, [Begin, Escape]) == Some(BeginSession(m).(session := NoSession))
  {
    hide Exec, Handle;
    var m1 := BeginSession(m);
    assert [Begin] + [Fail] == [Begin, Fail] && [Fail] + [] == [Fail];
    assert [Begin] + [Escape] == [Begin, Escape] && [Escape] + [] == [Escape];
    ExecStep(m, Begin, [Fail]);
    ExecStep(m, Begin, [Escape]);
    ExecStep(m1, Fail, []);
    ExecStep(m1, Escape, []);
    ExecNothing(Over(m1));
    ExecNothing(m1.(session := NoSession));
  }

  lemma ExecNothing(m: Shared)
    ensures Exec(m, []) == Some(m)
  {
  }

  /** The steps of a session that runs without interference, by how it ends. */
  function Schedule(end: HandshakeEnd, spawns: bool): seq<Step> {
    match end
    case Negotiated => if spawns then [Begin, Agree, Clear, Start, Arm, End] else [Begin, Agree, Clear, NoStart]
    case BadInteger => [Begin, Escape]
    case _ => [Begin, Fail]
  }

  /** They leave what the whole session leaves, however it ends. */
  lemma ScheduleIsSession(m: Shared, w: Daemon.World, end: HandshakeEnd, spawns: bool)
    requires Daemon.Open(w) && Shows(m, w) && Ready(m)
    ensures SameEnd(Exec(m, Schedule(end, spawns)), Daemon.AfterSession(w, end, spawns))
  {
    hide Daemon.Fire, Daemon.Consistent, Daemon.Recovering, Exec;
    Daemon.SessionBegins(w);
    var w1, m1 := Daemon.Fire(w, MIRACAST_CONNECTED).value, BeginSession(m);
    assert Shows(m1, w1);
    FailSteps(m);
    StartSteps(m);
    NoStartSteps(m);
    Daemon.RenderIsFree(w1);
    var again := Daemon.Rendering(w1, spawns);
    assert Daemon.Consistent(w1.(render := again.render, starts := again.starts));
    HandleIsFire(m1, w1, MIRACAST_DISCONNECTED);
    HandleIsFire(if spawns then m1.(running := true, expected := true, session := Pumping, recovery := Waiting(1))
                 else m1.(running := false, session := Cleared), again, MIRACAST_DISCONNECTED);
  }

  predicate SameEnd(m: Option<Shared>, w: Option<Daemon.World>) {
    m.Some? && w.Some? && Shows(m.value, w.value)
  }

  // ----- safety -----

  predicate Safe(m: Shared) {
    // A session's lifetime is in MIRACAST, and outside it render is stopped.
    && (!m.session.NoSession? ==> m.fsm == MIRACAST)
    && (m.session.NoSession? ==> !m.running)
    // MIRACAST without a session is what an escaped ValueError left.
    && (m.session.NoSession? && m.fsm == MIRACAST ==> !m.expected && m.recovery.NoRecovery?)
    && (m.session.Handshaking? || m.session.Agreed? || m.session.Cleared? ==> !m.running)
    // MIRACAST plus the armed flag means render is running.
    && !Trips(m)
    // The flag is down through the handshake and through a re-roll's gap.
    && (!m.session.NoSession? && !m.session.Pumping? ==> !m.expected && m.recovery.NoRecovery? && m.rerolls == 0)
    && (m.session.Started? ==> m.running)
    && (m.recovery.Stopping? || m.recovery.Restarting? ==> !m.expected)
    && (m.recovery.Restarting? ==> !m.running)
    // A tick outside MIRACAST leaves the flag down until the next session.
    && (m.session.NoSession? && m.idleTick ==> !m.expected)
    && (!m.session.NoSession? ==> !m.idleTick)
    // At most three re-rolls.
    && m.rerolls <= RENDER_COLD_START_RETRIES
    && (!m.recovery.NoRecovery? ==>
          1 <= m.recovery.attempt <= RENDER_COLD_START_RETRIES && m.rerolls == m.recovery.attempt - 1)
  }

  lemma StepKeepsSafe(m: Shared, s: Step)
    requires Safe(m) && Next(m, s).Some?
    ensures Safe(Next(m, s).value)
    ensures !m.running && Next(m, s).value.running ==>
              s == Start || (s.Recover? && m.recovery.Restarting? && m.session.Pumping?)
  {
    hide Safe, RecoveryStep, TickStep, Handle;
    match s {
      case Recover(frame, spawns) => RecoveryKeepsSafe(m, frame, spawns);
      case WatchTick => TickKeepsSafe(m);
      case Airplay(e) => AirplayKeepsSafe(m, e);
      case _ => SessionKeepsSafe(m, s);
    }
  }

  lemma SessionKeepsSafe(m: Shared, s: Step)
    requires Safe(m) && Next(m, s).Some? && !s.Recover? && !s.WatchTick? && !s.Airplay?
    ensures Safe(Next(m, s).value)
    ensures !m.running && Next(m, s).value.running ==> s == Start
  {
  }

  lemma RecoveryKeepsSafe(m: Shared, frame: bool, spawns: bool)
    requires Safe(m) && !m.recovery.NoRecovery?
    ensures var next := RecoveryStep(m, frame, spawns);
            Safe(next) && (!m.running && next.running ==> m.recovery.Restarting? && m.session.Pumping?)
  {
  }

  lemma TickKeepsSafe(m: Shared)
    requires Safe(m)
    ensures Safe(TickStep(m)) && TickStep(m).running == m.running
  {
  }

  lemma AirplayKeepsSafe(m: Shared, e: Event)
    requires Safe(m) && (e == AIRPLAY_CONNECTED || e == AIRPLAY_DISCONNECTED)
    ensures Safe(Handle(m, e)) && (Handle(m, e).running ==> m.running)
  {
  }

  /**
   * Every interleaving: no tick ever trips on a live session, render is stopped and stays stopped
   * outside sessions, and a session re-rolls at most three times.
   */
  lemma {:induction false} InterleavingSafety(m: Shared, schedule: seq<Step>)
    requires Safe(m) && Exec(m, schedule).Some?
    ensures Safe(Exec(m, schedule).value)
    decreases |schedule|
  {
    hide Safe;
    if schedule != [] {
      StepKeepsSafe(m, schedule[0]);
      InterleavingSafety(Next(m, schedule[0]).value, schedule[1..]);
    }
  }

  lemma BootIsSafe(schedule: seq<Step>)
    requires Exec(Boot, schedule).Some?
    ensures var m := Exec(Boot, schedule).value;
            !Trips(m) && m.rerolls <= 3 && (m.session.NoSession? ==> !m.running)
  {
    InterleavingSafety(Boot, schedule);
  }

  // ----- recovery does recover -----

  /** What the other threads do between recovery's steps, while its session lasts or winds down. */
  predicate Others(e: seq<Step>) { forall k | 0 <= k < |e| :: !e[k].Recover? && !e[k].Begin? }

  lemma {:induction false} ExecAppend(m: Shared, a: seq<Step>, b: seq<Step>)
    ensures Exec(m, a + b) == match Exec(m, a) case None => None case Some(m') => Exec(m', b)
    decreases |a|
  {
    hide Next;
    if a == [] {
      assert a + b == b;
    } else {
      assert (a + b)[1..] == a[1..] + b;
      if Next(m, a[0]).Some? {
        ExecAppend(Next(m, a[0]).value, a[1..], b);
      }
    }
  }

  /** The other threads leave recovery where it is. */
  lemma {:induction false} OthersKeep(m: Shared, e: seq<Step>)
    requires Safe(m) && (m.session.Pumping? || m.session.NoSession?) && Others(e) && Exec(m, e).Some?
    ensures var m' := Exec(m, e).value;
            && Safe(m') && (m'.session.Pumping? || m'.session.NoSession?)
            && m'.recovery == m.recovery && m'.rerolls == m.rerolls
    decreases |e|
  {
    hide Safe;
    if e != [] {
      StepKeepsSafe(m, e[0]);
      OthersKeep(Next(m, e[0]).value, e[1..]);
    }
  }

  /** A session that recovery can belong to. */
  predicate Live(m: Shared) { Safe(m) && (m.session.Pumping? || m.session.NoSession?) }

  /** One step of recovery, and whatever the others do next. */
  lemma Turn(m: Shared, frame: bool, spawns: bool, e: seq<Step>)
    requires Live(m) && Others(e)
    ensures var after := Exec(m, [Recover(frame, spawns)] + e); var step := RecoveryStep(m, frame, spawns);
            && (m.recovery.NoRecovery? ==> after.None?)
            && (after.Some? ==>
                  Live(after.value) && after.value.recovery == step.recovery && after.value.rerolls == step.rerolls)
  {
    var r := Recover(frame, spawns);
    assert ([r] + e)[1..] == e;
    if !m.recovery.NoRecovery? {
      StepKeepsSafe(m, r);
      ExecStep(m, r, e);
      if Exec(Next(m, r).value, e).Some? {
        hide Safe;
        OthersKeep(Next(m, r).value, e);
      }
    }
  }

  /** The last step: the restart, if it is still wanted and succeeds. */
  lemma LastTurn(m: Shared, frame: bool, spawns: bool)
    requires Live(m)
    ensures var after := Exec(m, [Recover(frame, spawns)]); var step := RecoveryStep(m, frame, spawns);
            && (m.recovery.NoRecovery? ==> after.None?)
            && (!m.recovery.NoRecovery? ==> after == Some(step))
            && (m.recovery.Restarting? ==> !m.running)
  {
    var r := Recover(frame, spawns);
    assert [r] + [] == [r] && [r][1..] == [];
    if !m.recovery.NoRecovery? {
      ExecStep(m, r, []);
      ExecNothing(Next(m, r).value);
    }
  }

  /** One more pipeline runs, the flag is up, and the next wait begins, if there is one. */
  predicate Restarted(rerolls: nat, attempt: nat, after: Option<Shared>) {
    && after.Some? && after.value.rerolls == rerolls + 1 && after.value.running && after.value.expected
    && after.value.recovery == if attempt < 3 then Waiting(attempt + 1) else NoRecovery
  }

  predicate Rerolled(before: Shared, after: Option<Shared>) {
    before.recovery.Waiting? && Restarted(before.rerolls, before.recovery.attempt, after)
  }

  /** Nothing was re-rolled, and recovery is over. */
  predicate GaveUp(rerolls: nat, after: Option<Shared>) {
    after.Some? ==> after.value.rerolls == rerolls && after.value.recovery.NoRecovery?
  }

  /** From the check that render runs: stop, the last check, and the restart. */
  lemma RestartIff(m: Shared, attempt: nat, frame: bool, spawns: bool, e3: seq<Step>, e4: seq<Step>, e5: seq<Step>)
    requires Live(m) && (m.recovery == Probing(attempt) || m.recovery.NoRecovery?)
    requires Others(e3) && Others(e4) && Others(e5)
    ensures var r := [Recover(frame, spawns)];
            var q := (r + e3) + (r + e4) + (r + e5);
            var end := Exec(m, q + r);
            && (Restarted(m.rerolls, attempt, end) <==>
                  m.recovery.Probing? && m.running && Exec(m, q).Some? && Exec(m, q).value.fsm == MIRACAST && spawns)
            && (Restarted(m.rerolls, attempt, end) || GaveUp(m.rerolls, end))
  {
    var r := [Recover(frame, spawns)];
    var q3 := r + e3;
    var q4 := q3 + (r + e4);
    var q5 := q4 + (r + e5);
    ExecAppend(m, q3, r + e4);
    ExecAppend(m, q4, r + e5);
    ExecAppend(m, q5, r);
    hide Safe, Exec, Live, Others;
    Turn(m, frame, spawns, e3);
    if Exec(m, q3).Some? {
      Turn(Exec(m, q3).value, frame, spawns, e4);
      if Exec(m, q4).Some? {
        Turn(Exec(m, q4).value, frame, spawns, e5);
        if Exec(m, q5).Some? {
          LastTurn(Exec(m, q5).value, frame, spawns);
        }
      }
    }
  }

  /**
   * Recovery's six steps, with anything the other threads do in between: the pipeline is re-rolled
   * if and only if no frame came; the session was on and the flag up when it looked; render was
   * running when it looked again; the session was still on at the restart; and the pipeline
   * started. Otherwise recovery is over, or does not get through its six steps.
   */
  lemma ReRollIff(m: Shared, frame: bool, spawns: bool,
                  e1: seq<Step>, e2: seq<Step>, e3: seq<Step>, e4: seq<Step>, e5: seq<Step>)
    requires Safe(m) && m.recovery.Waiting?
    requires Others(e1) && Others(e2) && Others(e3) && Others(e4) && Others(e5)
    ensures var r := [Recover(frame, spawns)];
            var p1 := r + e1;
            var p2 := p1 + (r + e2);
            var p5 := p2 + ((r + e3) + (r + e4) + (r + e5));
            var end := Exec(m, p5 + r);
            && (Rerolled(m, end) <==>
                  && !frame
                  && Exec(m, p1).Some? && Exec(m, p1).value.fsm == MIRACAST && Exec(m, p1).value.expected
                  && Exec(m, p2).Some? && Exec(m, p2).value.running
                  && Exec(m, p5).Some? && Exec(m, p5).value.fsm == MIRACAST
                  && spawns)
            && (Rerolled(m, end) || GaveUp(m.rerolls, end))
  {
    var r := [Recover(frame, spawns)];
    var p1 := r + e1;
    var p2 := p1 + (r + e2);
    var q := (r + e3) + (r + e4) + (r + e5);
    assert Live(m);
    assert p2 + q + r == p2 + (q + r);
    ExecAppend(m, p1, r + e2);
    ExecAppend(m, p2, q);
    ExecAppend(m, p2, q + r);
    hide Safe, Exec, Live, Others, Restarted;
    Turn(m, frame, spawns, e1);
    if Exec(m, p1).Some? {
      Turn(Exec(m, p1).value, frame, spawns, e2);
      if Exec(m, p2).Some? {
        RestartIff(Exec(m, p2).value, m.recovery.attempt, frame, spawns, e3, e4, e5);
      } else {
        NothingRestarted(m.rerolls, m.recovery.attempt);
      }
    } else {
      NothingRestarted(m.rerolls, m.recovery.attempt);
    }
  }

  lemma NothingRestarted(rerolls: nat, attempt: nat)
    ensures !Restarted(rerolls, attempt, None) && GaveUp(rerolls, None)
  {
  }

  lemma ExecRecover(m: Shared, rest: seq<Step>)
    requires !m.recovery.NoRecovery?
    ensures Exec(m, [Recover(false, true)] + rest) == Exec(RecoveryStep(m, false, true), rest)
  {
    ExecStep(m, Recover(false, true), rest);
  }

  /** The states of an undisturbed re-roll. */
  lemma SixStates(m: Shared, a: nat)
    requires m.recovery == Waiting(a) && m.fsm == MIRACAST && m.expected && m.running
    ensures var down := m.(expected := false);
            && RecoveryStep(m, false, true) == m.(recovery := Checking(a))
            && RecoveryStep(m.(recovery := Checking(a)), false, true) == m.(recovery := Probing(a))
            && RecoveryStep(m.(recovery := Probing(a)), false, true) == m.(recovery := Disarming(a))
            && RecoveryStep(m.(recovery := Disarming(a)), false, true) == down.(recovery := Stopping(a))
            && RecoveryStep(down.(recovery := Stopping(a)), false, true) ==
                 down.(running := false, recovery := Restarting(a))
            && var last := down.(running := false, recovery := Restarting(a));
               Restarted(m.rerolls, a, Some(RecoveryStep(last, false, true)))
  {
  }

  /** Undisturbed, in a live session that is waiting for its first frame: six steps re-roll the pipeline. */
  lemma ReRolls(m: Shared)
    requires Safe(m) && m.session.Pumping? && m.recovery.Waiting? && m.expected && m.running
    ensures var r := Recover(false, true); Rerolled(m, Exec(m, [r, r, r, r, r, r]))
  {
    var r, a := Recover(false, true), m.recovery.attempt;
    assert [r] + [r, r, r, r, r] == [r, r, r, r, r, r] && [r] + [r, r, r, r] == [r, r, r, r, r];
    assert [r] + [r, r, r] == [r, r, r, r] && [r] + [r, r] == [r, r, r] && [r] + [r] == [r, r] && [r] + [] == [r];
    assert m.fsm == MIRACAST;
    SixStates(m, a);
    hide Exec, Safe, RecoveryStep, Restarted;
    var down := m.(expected := false);
    ExecRecover(m, [r, r, r, r, r]);
    ExecRecover(m.(recovery := Checking(a)), [r, r, r, r]);
    ExecRecover(m.(recovery := Probing(a)), [r, r, r]);
    ExecRecover(m.(recovery := Disarming(a)), [r, r]);
    ExecRecover(down.(recovery := Stopping(a)), [r]);
    var last := down.(running := false, recovery := Restarting(a));
    ExecRecover(last, []);
    ExecNothing(RecoveryStep(last, false, true));
  }

  // ----- why the hypotheses are needed -----

  /** A handshake that the flag was carried into, or what has become of it without a tick. */
  predicate Carries(m: Shared, expected: bool) {
    && !m.idleTick
    && (|| (m.fsm == MIRACAST && !m.running && m.recovery.NoRecovery? && m.expected == expected
            && (m.session.NoSession? || InHandshake(m)))
        || (m.fsm == MIRACAST && (m.session.Started? || m.session.Pumping?))
        || (m.fsm != MIRACAST && m.session.NoSession?))
  }

  /** The pipeline has not been started. */
  predicate InHandshake(m: Shared) { m.session.Handshaking? || m.session.Agreed? || m.session.Cleared? }

  lemma {:induction false} CarriesOn(m: Shared, expected: bool, steps: seq<Step>)
    requires Carries(m, expected) && Exec(m, steps).Some? && WatchTick !in steps
    ensures Carries(Exec(m, steps).value, expected)
    decreases |steps|
  {
    if steps != [] {
      CarriesStep(m, expected, steps[0]);
      CarriesOn(Next(m, steps[0]).value, expected, steps[1..]);
    }
  }

  lemma CarriesStep(m: Shared, expected: bool, s: Step)
    requires Carries(m, expected) && Next(m, s).Some? && s != WatchTick
    ensures Carries(Next(m, s).value, expected)
  {
  }

  /**
   * Were a session to begin without a tick in between, the first tick it sees, at whatever point of
   * the handshake, would trip exactly when the flag was left up.
   */
  lemma StaleFlagTripsHandshake(m: Shared, steps: seq<Step>)
    requires Safe(m) && m.session.NoSession? && m.recovery.NoRecovery? && m.fsm == IDLE
    requires Exec(BeginSession(m), steps).Some? && WatchTick !in steps
    requires InHandshake(Exec(BeginSession(m), steps).value)
    ensures Trips(Exec(BeginSession(m), steps).value) <==> m.expected
  {
    CarriesOn(BeginSession(m), m.expected, steps);
  }

  /**
   * When the flag is still up after a session: it was up when the session ended, no tick has been
   * seen since, and the session's recovery thread was not just about to drop it.
   */
  lemma {:induction false} FlagAfterSession(m: Shared, steps: seq<Step>)
    requires Safe(m) && m.session.NoSession? && m.fsm != MIRACAST
    requires Exec(m, steps).Some? && Begin !in steps
    ensures Exec(m, steps).value.expected <==>
              m.expected && WatchTick !in steps
              && !(m.recovery.Disarming? && exists k :: 0 <= k < |steps| && steps[k].Recover?)
    decreases |steps|
  {
    hide Safe;
    if steps != [] {
      var next := Next(m, steps[0]).value;
      StepKeepsSafe(m, steps[0]);
      AfterSessionStep(m, steps[0]);
      FlagAfterSession(next, steps[1..]);
      assert forall k | 0 < k < |steps| :: steps[k] == steps[1..][k - 1];
      assert m.recovery.Disarming? && !steps[0].Recover? ==>
        ((exists k :: 0 <= k < |steps| && steps[k].Recover?) <==>
         (exists k :: 0 <= k < |steps[1..]| && steps[1..][k].Recover?));
    }
  }

  lemma AfterSessionStep(m: Shared, s: Step)
    requires Safe(m) && m.session.NoSession? && m.fsm != MIRACAST && Next(m, s).Some? && s != Begin
    ensures var next := Next(m, s).value;
            && next.session.NoSession? && next.fsm != MIRACAST
            && next.expected == (m.expected && s != WatchTick && !(m.recovery.Disarming? && s.Recover?))
            && next.recovery.Disarming? == (m.recovery.Disarming? && !s.Recover?)
  {
  }

  /** A session that ends before any tick looks leaves the flag up. */
  lemma StaleFlagReachable()
    ensures var m := Exec(Boot, [Begin, Agree, Clear, Start, Arm, Recover(true, true), End]);
            m.Some? && m.value.expected && m.value.fsm == IDLE && m.value.recovery.NoRecovery?
  {
    var m1 := Next(Boot, Begin).value;
    var m5 := Next(Next(Next(Next(m1, Agree).value, Clear).value, Start).value, Arm).value;
    var m7 := Next(Next(m5, Recover(true, true)).value, End).value;
    assert Exec(m7, []) == Some(m7);
    ExecStep(Next(m5, Recover(true, true)).value, End, []);
    ExecStep(m5, Recover(true, true), [End]);
    ExecStep(Next(Next(Next(m1, Agree).value, Clear).value, Start).value, Arm, [Recover(true, true), End]);
    ExecStep(Next(Next(m1, Agree).value, Clear).value, Start, [Arm, Recover(true, true), End]);
    ExecStep(Next(m1, Agree).value, Clear, [Start, Arm, Recover(true, true), End]);
    ExecStep(m1, Agree, [Clear, Start, Arm, Recover(true, true), End]);
    ExecStep(Boot, Begin, [Agree, Clear, Start, Arm, Recover(true, true), End]);
  }

  lemma ExecStep(m: Shared, s: Step, rest: seq<Step>)
    requires Next(m, s).Some?
    ensures Exec(m, [s] + rest) == Exec(Next(m, s).value, rest)
  {
    assert ([s] + rest)[1..] == rest;
  }

  /**
   * Were recovery's last check and its restart two steps, whatever happened between them would
   * leave render running without a session if and only if it included the session's end. With
   * the check made again at the restart, nothing that happens does.
   */
  lemma SplitRestartResurrects(m: Shared, between: seq<Step>, frame: bool)
    requires Safe(m) && m.session.Pumping? && m.recovery.Restarting?
    requires Exec(m, between).Some? && forall k | 0 <= k < |between| :: !between[k].Recover?
    ensures var m' := Exec(m, between).value;
            && (var late := Restart(m', m.recovery.attempt, true);
                late.running && late.session.NoSession? <==> End in between)
            && (var checked := RecoveryStep(m', frame, true); !(checked.running && checked.session.NoSession?))
  {
    hide Safe;
    InterleavingSafety(m, between);
    GapOfRestart(m, between);
    RestartIsChecked(Exec(m, between).value, frame);
  }

  lemma RestartIsChecked(m: Shared, frame: bool)
    requires Safe(m) && m.recovery.Restarting?
    ensures !m.running && !(RecoveryStep(m, frame, true).running && m.session.NoSession?)
  {
  }

  lemma {:induction false} GapOfRestart(m: Shared, between: seq<Step>)
    requires Safe(m) && (m.session.Pumping? || m.session.NoSession?) && m.recovery.Restarting?
    requires Exec(m, between).Some? && forall k | 0 <= k < |between| :: !between[k].Recover?
    ensures var m' := Exec(m, between).value;
            m'.recovery == m.recovery && (m'.session.NoSession? <==> m.session.NoSession? || End in between)
    decreases |between|
  {
    hide Safe;
    if between != [] {
      StepKeepsSafe(m, between[0]);
      GapOfRestart(Next(m, between[0]).value, between[1..]);
    }
  }

  /** A session that begins during AirPlay runs its pipeline while AirPlay owns the display, and leaves it running. */
  lemma AirplaySessionRenders(m: Shared)
    requires m.fsm == AIRPLAY
    ensures var during := Exec(BeginSession(m), [Agree, Clear, Start]);
            during.Some? && during.value.running && during.value.fsm == AIRPLAY
    ensures var after := Exec(BeginSession(m), [Agree, Clear, Start, Arm, End]);
            after.Some? && after.value.running && after.value.fsm == AIRPLAY && after.value.session.NoSession?
  {
    hide Exec;
    var m1 := BeginSession(m);
    var m2 := m1.(session := Agreed);
    var m3 := m2.(running := false, session := Cleared);
    var m4 := m3.(running := true, session := Started);
    var m5 := m4.(expected := true, session := Pumping, recovery := Waiting(1));
    assert [Agree] + [Clear, Start] == [Agree, Clear, Start] && [Clear] + [Start] == [Clear, Start];
    assert [Start] + [] == [Start];
    ExecStep(m1, Agree, [Clear, Start]);
    ExecStep(m2, Clear, [Start]);
    ExecStep(m3, Start, []);
    ExecNothing(m4);
    assert [Agree] + [Clear, Start, Arm, End] == [Agree, Clear, Start, Arm, End];
    assert [Clear] + [Start, Arm, End] == [Clear, Start, Arm, End];
    assert [Start] + [Arm, End] == [Start, Arm, End];
    assert [Arm] + [End] == [Arm, End] && [End] + [] == [End];
    ExecStep(m1, Agree, [Clear, Start, Arm, End]);
    ExecStep(m2, Clear, [Start, Arm, End]);
    ExecStep(m3, Start, [Arm, End]);
    ExecStep(m4, Arm, [End]);
    ExecStep(m5, End, []);
    ExecNothing(Over(m5));
  }
}
