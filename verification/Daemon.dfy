/**
 * castd/main.py, CastDaemon: the arbiter's action interpreter, the UxPlay callbacks and one
 * source's session, with the processes reduced to what the daemon can observe of them.
 * `World` is the daemon's state as one value; the class keeps it in fields.
 */
module Daemon {
  import opened Prelude
  import opened Text
  import opened Framing
  import opened Messages
  import opened Rtsp
  import opened Session
  import opened Arbiter
  import opened UxPlay
  import opened WfdIe
  import opened Watchdog

  /** UxPlayProcess._proc; a live process carries its pump's open-connection count. */
  datatype Proc = NoProc | Live(open: nat) | Dead

  datatype World = World(
    fsm: State,
    proc: Proc,
    expectExit: bool,
    canSpawn: bool,     // whether starting uxplay's process succeeds
    render: bool,       // RenderProcess.is_running
    starts: nat,        // how often render.start() succeeded
    ie: seq<byte>,      // the last WFD blob that was published
    refusals: seq<bool>, // whether D-Bus will refuse each publication to come
    misses: nat,        // publications refused since the last one that was accepted
    paints: nat)        // how often the idle screen was painted

  // ----- actions -----

  /** uxplay.stop() */
  function StopUxPlay(w: World): World {
    if w.proc.NoProc? then w else w.(proc := NoProc, expectExit := true)
  }

  /** uxplay.start(); None is the RuntimeError "already running", or the OSError of a process that does not start. */
  function StartUxPlay(w: World): Option<World> {
    if w.proc.Live? || !w.canSpawn then None else Some(w.(proc := Live(0), expectExit := false))
  }

  /** p2p.set_session_available(); a refusal is logged and swallowed. */
  function Publish(w: World, available: bool): World {
    var later := if w.refusals == [] then [] else w.refusals[1..];
    if w.refusals != [] && w.refusals[0] then w.(refusals := later, misses := w.misses + 1)
    else w.(ie := Published(available), refusals := later, misses := 0)
  }

  function Act(w: World, a: Action): Option<World> {
    match a
    case STOP_RENDER_PIPELINE => Some(w.(render := false))
    case SHOW_IDLE_SCREEN => Some(w.(paints := w.paints + 1))
    case PAUSE_AIRPLAY_ADVERTISING => Some(StopUxPlay(w))
    case RESUME_AIRPLAY_ADVERTISING => StartUxPlay(w)
    case PAUSE_MIRACAST_DISCOVERY => Some(Publish(w, false))
    case RESUME_MIRACAST_DISCOVERY => Some(Publish(w, true))
    case _ => Some(w)
  }

  /** _apply_actions, in order, up to the first exception. */
  function ActAll(w: World, actions: seq<Action>): (r: Option<World>)
    decreases |actions|
  {
    if actions == [] then Some(w)
    else match Act(w, actions[0])
         case None => None
         case Some(w') => ActAll(w', actions[1..])
  }

  /** An event and its action list, as one step. */
  function Fire(w: World, e: Event): Option<World> {
    var d := Decide(w.fsm, e);
    ActAll(w.(fsm := d.nextState), d.actions)
  }

  /** The world an action list leaves, also when an action raises; only uxplay.start() can. */
  function ActUntil(w: World, actions: seq<Action>): (r: World)
    decreases |actions|
  {
    if actions == [] then w
    else match Act(w, actions[0])
         case None => if w.proc.Live? then w else w.(expectExit := false)
         case Some(w') => ActUntil(w', actions[1..])
  }

  function FireUntil(w: World, e: Event): World {
    var d := Decide(w.fsm, e);
    ActUntil(w.(fsm := d.nextState), d.actions)
  }

  // ----- everything that can happen to the daemon -----

  /** Crash recovery checks whether uxplay runs, sleeps, and relaunches it without checking again. */
  datatype Status = Status(world: World, asleep: nat) // recoveries that sleep before their relaunch

  datatype Happening =
    | SourceConnected(drain: seq<string>) // the log lines stop() still drains, if it stops uxplay
    | SourceDisconnected
    | TimeoutEvent                        // WATCHDOG_TIMEOUT, which main.py never raises
    | UxPlayLine(line: string)
    | UxPlayExit                          // the process dies on its own, and its pump notices
    | Relaunch                            // a recovery's sleep is over

  function EdgeEvent(e: Edge): Event { if e.Connected? then AIRPLAY_CONNECTED else AIRPLAY_DISCONNECTED }

  function FireEdge(w: World, e: Option<Edge>): Option<World> {
    if e.None? then Some(w) else Fire(w, EdgeEvent(e.value))
  }

  /** The pump of a stopped process reads its last lines. */
  function Drain(w: World, open: nat, lines: seq<string>): (r: Option<World>)
    decreases |lines|
  {
    if lines == [] then Some(w)
    else
      var (open', edge) := Track(open, Classify(lines[0]));
      match FireEdge(w, edge)
      case None => None
      case Some(w') => Drain(w', open', lines[1..])
  }

  /** _on_uxplay_exited up to its sleep: out of AIRPLAY, and is a relaunch due? */
  function Recover(w: World): Option<(World, bool)> {
    var back := if w.fsm == AIRPLAY then Fire(w, AIRPLAY_DISCONNECTED) else Some(w);
    match back
    case None => None
    case Some(w') => Some((w', !w'.proc.Live?))
  }

  /** The pump reaches the end of the output; only an exit nobody asked for is recovered from. */
  function PumpEnds(w: World): Option<(World, bool)> { if w.expectExit then Some((w, false)) else Recover(w) }

  function Awake(w: Option<World>, asleep: nat): Option<Status> {
    match w case None => None case Some(w') => Some(Status(w', asleep))
  }

  function Asleep(r: Option<(World, bool)>, asleep: nat): Option<Status> {
    match r case None => None case Some((w, due)) => Some(Status(w, if due then asleep + 1 else asleep))
  }

  function Occurs(st: Status, h: Happening): Option<Status> {
    var Status(w, asleep) := st;
    match h
    case SourceConnected(drain) =>
      (match Fire(w, MIRACAST_CONNECTED)
       case None => None
       case Some(w') =>
         if w.proc.Live? && w'.proc.NoProc? then
           match Drain(w', w.proc.open, drain)
           case None => None
           case Some(w'') => Asleep(PumpEnds(w''), asleep)
         else Some(Status(w', asleep)))
    case SourceDisconnected => Awake(Fire(w, MIRACAST_DISCONNECTED), asleep)
    case TimeoutEvent => Awake(Fire(w, WATCHDOG_TIMEOUT), asleep)
    case UxPlayLine(line) =>
      if !w.proc.Live? then Some(st)
      else
        var (open, edge) := Track(w.proc.open, Classify(line));
        Awake(FireEdge(w.(proc := Live(open)), edge), asleep)
    case UxPlayExit => if w.proc.Live? then Asleep(PumpEnds(w.(proc := Dead)), asleep) else Some(st)
    case Relaunch => if asleep == 0 then Some(st) else Awake(StartUxPlay(w), asleep - 1)
  }

  /** None if an exception escapes anywhere. */
  function Run(st: Status, hs: seq<Happening>): (r: Option<Status>)
    decreases |hs|
  {
    if hs == [] then Some(st)
    else match Occurs(st, hs[0])
         case None => None
         case Some(st') => Run(st', hs[1..])
  }

  // ----- what every run keeps -----

  /**
   * The published blob says whether the sink is idle, unless an odd number of publications have
   * been refused since the last one accepted: pauses and resumptions take turns.
   */
  predicate BlobTells(w: World) { w.ie == Published((w.fsm == IDLE) == (w.misses % 2 == 0)) }

  /** UxPlay runs exactly outside Miracast sessions. */
  predicate Consistent(w: World) {
    && (if w.fsm == MIRACAST then w.proc.NoProc? && w.expectExit else w.proc.Live? && !w.expectExit)
    && w.canSpawn && BlobTells(w)
  }

  /** UxPlay has died at IDLE, or in AIRPLAY, and its relaunch sleeps. */
  predicate Recovering(w: World) {
    w.fsm == IDLE && w.proc.Dead? && !w.expectExit && w.canSpawn && BlobTells(w)
  }

  predicate Sound(st: Status) { Consistent(st.world) || (Recovering(st.world) && st.asleep > 0) }

  /** The arbiter gives AirPlay the display exactly while the live process has an open connection. */
  predicate OwnershipTracked(w: World) {
    w.fsm == AIRPLAY <==> w.proc.Live? && w.proc.open > 0
  }

  /** What one event does to a consistent world: no exception, and the whole new world. */
  predicate FiresWell(w: World, e: Event, r: Option<World>) {
    var next := Decide(w.fsm, e).nextState;
    && r.Some? && Consistent(r.value) && r.value.fsm == next
    && (next == w.fsm ==> r.value == w)
    && (next != MIRACAST && w.fsm != MIRACAST ==> r.value.proc == w.proc)
    && (next != MIRACAST && w.fsm == MIRACAST ==> r.value.proc == Live(0))
    && (w.refusals == [] ==> r.value.refusals == [] && (next != w.fsm ==> r.value.misses == 0))
    && r.value.render == (w.render && (next == w.fsm || next == MIRACAST)) && r.value.starts == w.starts
    && r.value.paints == w.paints + (if w.fsm != IDLE && next == IDLE then 1 else 0)
  }

  /** A publication changes nothing but the blob's bookkeeping, and takes turns with the one before. */
  lemma PublishTells(w: World, available: bool)
    ensures var r := Publish(w, available);
            && r == w.(ie := r.ie, refusals := r.refusals, misses := r.misses)
            && (w.ie == Published((!available) == (w.misses % 2 == 0)) ==>
                  r.ie == Published(available == (r.misses % 2 == 0)))
            && (w.refusals == [] ==> r.refusals == [] && r.misses == 0)
  {
    hide Published;
  }

  lemma FireFromIdle(w: World, e: Event)
    requires Consistent(w) && w.fsm == IDLE
    ensures FiresWell(w, e, Fire(w, e))
  {
    hide Published, Publish;
    PublishTells(StopUxPlay(w.(fsm := MIRACAST)), false);
    PublishTells(w.(fsm := AIRPLAY), false);
    ActAllShort(w.(fsm := Decide(w.fsm, e).nextState), Decide(w.fsm, e).actions);
  }

  /** The whole world after an event in MIRACAST. */
  lemma FireInMiracast(w: World, e: Event)
    requires w.fsm == MIRACAST && !w.proc.Live? && w.canSpawn
    ensures var ended := Publish(w.(fsm := IDLE, render := false, proc := Live(0), expectExit := false), true);
            Fire(w, e) == Some(if Decide(w.fsm, e).nextState == MIRACAST then w else ended.(paints := ended.paints + 1))
  {
    hide Publish;
    ActAllShort(w.(fsm := Decide(w.fsm, e).nextState), Decide(w.fsm, e).actions);
  }

  lemma FireFromMiracast(w: World, e: Event)
    requires Consistent(w) && w.fsm == MIRACAST
    ensures FiresWell(w, e, Fire(w, e))
  {
    hide Published, Publish, Fire;
    PublishTells(w.(fsm := IDLE, render := false, proc := Live(0), expectExit := false), true);
    FireInMiracast(w, e);
  }

  lemma FireFromAirplay(w: World, e: Event)
    requires Consistent(w) && w.fsm == AIRPLAY
    ensures FiresWell(w, e, Fire(w, e))
  {
    hide Published, Publish;
    PublishTells(w.(fsm := IDLE, render := false), true);
    ActAllShort(w.(fsm := Decide(w.fsm, e).nextState), Decide(w.fsm, e).actions);
  }

  lemma FireFrom(w: World, e: Event)
    requires Consistent(w)
    ensures FiresWell(w, e, Fire(w, e))
  {
    hide FiresWell, Fire;
    match w.fsm {
      case IDLE => FireFromIdle(w, e);
      case MIRACAST => FireFromMiracast(w, e);
      case AIRPLAY => FireFromAirplay(w, e);
    }
  }

  lemma FireSucceeds(w: World, e: Event)
    requires Consistent(w)
    ensures Fire(w, e).Some? && Consistent(Fire(w, e).value)
  {
    hide Fire;
    FireFrom(w, e);
  }

  lemma ConnectSucceeds(w: World)
    requires Consistent(w) || Recovering(w)
    ensures Fire(w, MIRACAST_CONNECTED).Some? && Consistent(Fire(w, MIRACAST_CONNECTED).value)
  {
    hide Fire;
    if Recovering(w) {
      FireRecovering(w, MIRACAST_CONNECTED);
    } else {
      FireFrom(w, MIRACAST_CONNECTED);
    }
  }

  lemma FailedSucceeds(w: World, e: Event)
    requires Consistent(w)
    ensures Fire(w, e).Some? && Fire(Rendering(w, false), e).Some?
  {
    hide Fire;
    RenderIsFree(w);
    assert Consistent(w.(render := false, starts := w.starts));
    FireSucceeds(w, e);
    FireSucceeds(Rendering(w, false), e);
  }

  /** Whether render runs has no bearing on consistency. */
  lemma RenderIsFree(w: World)
    requires Consistent(w)
    ensures forall render, starts :: Consistent(w.(render := render, starts := starts))
  {
  }

  /** ActAll, spelt out on at most five actions. */
  lemma ActAllShort(w: World, actions: seq<Action>)
    requires |actions| <= 5
    ensures ActAll(w, actions) ==
              Then(Then(Then(Then(Then(Some(w), actions, 0), actions, 1), actions, 2), actions, 3), actions, 4)
  {
    hide Act;
    ActFrom(w, actions, 0);
    assert actions[0..] == actions;
  }

  function Then(w: Option<World>, actions: seq<Action>, k: nat): Option<World> {
    if w.None? then None else if k < |actions| then Act(w.value, actions[k]) else w
  }

  lemma ActFrom(w: World, actions: seq<Action>, k: nat)
    requires k <= |actions| <= 5
    ensures ActAll(w, actions[k..]) ==
              var w1 := Then(Some(w), actions, k);
              var w2 := Then(w1, actions, k + 1);
              var w3 := Then(w2, actions, k + 2);
              var w4 := Then(w3, actions, k + 3);
              Then(w4, actions, k + 4)
    decreases |actions| - k
  {
    hide Act;
    if k < |actions| {
      assert actions[k..][1..] == actions[k + 1..];
      if Act(w, actions[k]).Some? {
        ActFrom(Act(w, actions[k]).value, actions, k + 1);
      }
    }
  }

  /** In a Miracast session the stopped process's last lines change nothing. */
  lemma {:induction false} DrainIsIdle(w: World, open: nat, lines: seq<string>)
    requires Consistent(w) && w.fsm == MIRACAST
    ensures Drain(w, open, lines) == Some(w)
    decreases |lines|
  {
    hide Fire, Classify, Consistent;
    if lines != [] {
      var (open', edge) := Track(open, Classify(lines[0]));
      FireFrom(w, AIRPLAY_CONNECTED);
      FireFrom(w, AIRPLAY_DISCONNECTED);
      DrainIsIdle(w, open', lines[1..]);
    }
  }

  /** While UxPlay is dead, only a source's connection changes anything. */
  lemma FireRecovering(w: World, e: Event)
    requires Recovering(w) && e != AIRPLAY_CONNECTED
    ensures var r := Fire(w, e);
            if e == MIRACAST_CONNECTED then r.Some? && Consistent(r.value) && r.value.fsm == MIRACAST else r == Some(w)
  {
    hide Published;
    ActAllShort(w.(fsm := Decide(w.fsm, e).nextState), Decide(w.fsm, e).actions);
  }

  lemma DisconnectDead(w: World)
    requires Consistent(w) && w.fsm == AIRPLAY
    ensures var r := Fire(w.(proc := Dead), AIRPLAY_DISCONNECTED); r.Some? && Recovering(r.value)
  {
    hide Published;
    var w' := w.(proc := Dead, fsm := IDLE);
    ActAllShort(w', Decide(AIRPLAY, AIRPLAY_DISCONNECTED).actions);
  }

  /** Whatever happens, bar a relaunch, nothing raises and the daemon stays sound. */
  lemma OccursKeepsSound(st: Status, h: Happening)
    requires Sound(st) && !h.Relaunch?
    ensures Occurs(st, h).Some? && Sound(Occurs(st, h).value)
    ensures OwnershipTracked(st.world) ==>
              (OwnershipTracked(Occurs(st, h).value.world) <==> !(h.TimeoutEvent? && st.world.fsm == AIRPLAY))
  {
    hide Fire, Classify, Published, BlobTells;
    var w := st.world;
    if Recovering(w) {
      FireRecovering(w, MIRACAST_CONNECTED);
      FireRecovering(w, MIRACAST_DISCONNECTED);
      FireRecovering(w, WATCHDOG_TIMEOUT);
    } else {
      ConsistentOccurs(st, h);
    }
  }

  /** From a consistent world, one more recovery sleeps exactly when the process has just died. */
  lemma ConsistentOccurs(st: Status, h: Happening)
    requires Consistent(st.world) && !h.Relaunch?
    ensures var r := Occurs(st, h);
            && r.Some?
            && if h.UxPlayExit? && st.world.proc.Live?
               then r.value.asleep == st.asleep + 1 && Recovering(r.value.world)
               else r.value.asleep == st.asleep && Consistent(r.value.world)
    ensures OwnershipTracked(st.world) ==>
              (OwnershipTracked(Occurs(st, h).value.world) <==> !(h.TimeoutEvent? && st.world.fsm == AIRPLAY))
  {
    hide Fire, Classify, Published;
    var w := st.world;
    FireFrom(w, MIRACAST_CONNECTED);
    FireFrom(w, MIRACAST_DISCONNECTED);
    FireFrom(w, WATCHDOG_TIMEOUT);
    match h {
      case SourceConnected(drain) =>
        var w' := Fire(w, MIRACAST_CONNECTED).value;
        if w.proc.Live? && w'.proc.NoProc? {
          DrainIsIdle(w', w.proc.open, drain);
        }
      case UxPlayLine(line) =>
        if w.proc.Live? {
          var (open, edge) := Track(w.proc.open, Classify(line));
          FireFrom(w.(proc := Live(open)), AIRPLAY_CONNECTED);
          FireFrom(w.(proc := Live(open)), AIRPLAY_DISCONNECTED);
        }
      case UxPlayExit =>
        if w.fsm == AIRPLAY {
          DisconnectDead(w);
        }
      case _ =>
    }
  }

  /**
   * A relaunch succeeds and keeps the daemon sound exactly when the process is still dead.
   * Otherwise it raises, if uxplay runs again; or it launches uxplay in the middle of a session,
   * whose end then raises in the middle of its actions: idle, but offered as busy and without the
   * idle screen.
   */
  lemma RelaunchNeedsDead(st: Status)
    requires Sound(st) && st.asleep > 0
    ensures var r := Occurs(st, Relaunch);
            && (r.Some? && Sound(r.value) <==> st.world.proc.Dead?)
            && (st.world.proc.Live? ==> r.None?)
            && (st.world.fsm == MIRACAST ==>
                  && r == Some(Status(st.world.(proc := Live(0), expectExit := false), st.asleep - 1))
                  && Occurs(r.value, SourceDisconnected).None?
                  && FireUntil(r.value.world, MIRACAST_DISCONNECTED) == r.value.world.(fsm := IDLE, render := false))
            && (r.Some? && OwnershipTracked(st.world) ==> OwnershipTracked(r.value.world))
  {
    hide Published;
    if st.world.fsm == MIRACAST {
      StartRaises(st.world.(proc := Live(0), expectExit := false));
    }
  }

  /** A session's end raises when it finds uxplay running, or cannot start it. */
  lemma StartRaises(w: World)
    requires w.fsm == MIRACAST && (w.proc.Live? || !w.canSpawn)
    ensures Fire(w, MIRACAST_DISCONNECTED).None?
    ensures FireUntil(w, MIRACAST_DISCONNECTED) ==
              w.(fsm := IDLE, render := false, expectExit := w.expectExit && w.proc.Live?)
  {
    var actions := Decide(MIRACAST, MIRACAST_DISCONNECTED).actions;
    assert actions[1..][0] == RESUME_AIRPLAY_ADVERTISING;
  }

  /** An executable that cannot be started matters to exactly the events that end a Miracast session. */
  lemma SpawnFailure(w: World, e: Event)
    requires !w.canSpawn && Consistent(w.(canSpawn := true))
    ensures Fire(w, e).None? <==> w.fsm == MIRACAST && Decide(w.fsm, e).nextState != MIRACAST
  {
    hide Published, Publish, BlobTells;
    ActAllShort(w.(fsm := Decide(w.fsm, e).nextState), Decide(w.fsm, e).actions);
  }

  /**
   * What breaks when stop() does not drain the pump, or an exit or a relaunch is still pending: an
   * edge that an old process's pump reports later parts ownership from the tracker exactly when the
   * arbiter heeds it; an exit it reports after a restart, exactly when AirPlay has the display; and
   * a relaunch that comes when all is well always fails, one way or the other.
   */
  lemma LatePump(w: World, edge: Edge)
    requires Consistent(w) && OwnershipTracked(w)
    ensures var r := Fire(w, EdgeEvent(edge));
            && r.Some? && Consistent(r.value)
            && (OwnershipTracked(r.value) <==>
                  !(w.fsm == IDLE && edge.Connected?) && !(w.fsm == AIRPLAY && edge.Disconnected?))
    ensures var r := PumpEnds(w);
            r.Some? && Consistent(r.value.0) && !r.value.1 && (OwnershipTracked(r.value.0) <==> w.fsm != AIRPLAY)
    ensures var r := Occurs(Status(w, 1), Relaunch);
            if w.fsm == MIRACAST then r.Some? && !Sound(r.value) else r.None?
  {
    hide Fire, Published, BlobTells;
    FireFrom(w, AIRPLAY_CONNECTED);
    FireFrom(w, AIRPLAY_DISCONNECTED);
  }

  /** Every relaunch of the run finds the process still dead. */
  predicate Undisturbed(st: Status, hs: seq<Happening>)
    decreases |hs|
  {
    hs == [] ||
    (&& (hs[0].Relaunch? && st.asleep > 0 ==> st.world.proc.Dead?)
     && (Occurs(st, hs[0]).Some? ==> Undisturbed(Occurs(st, hs[0]).value, hs[1..])))
  }

  /** Nothing raises in the run, and the daemon is sound at every moment of it. */
  predicate RunsSoundly(st: Status, hs: seq<Happening>)
    decreases |hs|
  {
    hs == [] ||
    (Occurs(st, hs[0]).Some? && var next := Occurs(st, hs[0]).value; Sound(next) && RunsSoundly(next, hs[1..]))
  }

  /** A run raises nothing and stays sound throughout if and only if every relaunch finds the process still dead. */
  lemma {:induction false} RunKeepsSound(st: Status, hs: seq<Happening>)
    requires Sound(st)
    ensures RunsSoundly(st, hs) <==> Undisturbed(st, hs)
    ensures Undisturbed(st, hs) ==> Run(st, hs).Some? && Sound(Run(st, hs).value)
    decreases |hs|
  {
    hide Occurs, Sound;
    if hs != [] {
      if !hs[0].Relaunch? {
        OccursKeepsSound(st, hs[0]);
      } else if st.asleep > 0 {
        RelaunchNeedsDead(st);
      } else {
        NothingToRelaunch(st);
      }
      if Occurs(st, hs[0]).Some? && Sound(Occurs(st, hs[0]).value) {
        RunKeepsSound(Occurs(st, hs[0]).value, hs[1..]);
      }
    }
  }

  lemma NothingToRelaunch(st: Status)
    requires st.asleep == 0
    ensures Occurs(st, Relaunch) == Some(st)
  {
  }

  /** No source connects while a recovery sleeps. */
  predicate NobodyDuringSleep(st: Status, hs: seq<Happening>)
    decreases |hs|
  {
    hs == [] ||
    (&& (hs[0].SourceConnected? ==> st.asleep == 0)
     && (Occurs(st, hs[0]).Some? ==> NobodyDuringSleep(Occurs(st, hs[0]).value, hs[1..])))
  }

  /** At most one recovery sleeps, and then uxplay is dead. */
  predicate OneRecovery(st: Status) {
    if st.asleep == 0 then Consistent(st.world) else st.asleep == 1 && Recovering(st.world)
  }

  lemma OccursOneRecovery(st: Status, h: Happening)
    requires OneRecovery(st) && (h.SourceConnected? ==> st.asleep == 0)
    ensures Occurs(st, h).Some? && OneRecovery(Occurs(st, h).value)
    ensures st.asleep > 0 ==> st.world.proc.Dead?
  {
    hide Fire, Classify, Published;
    if st.asleep > 0 {
      FireRecovering(st.world, MIRACAST_DISCONNECTED);
      FireRecovering(st.world, WATCHDOG_TIMEOUT);
    } else if !h.Relaunch? {
      hide Occurs;
      ConsistentOccurs(st, h);
    }
  }

  /** A run in which nobody connects while a recovery sleeps is undisturbed, whatever else happens. */
  lemma {:induction false} NobodyDisturbs(st: Status, hs: seq<Happening>)
    requires OneRecovery(st) && NobodyDuringSleep(st, hs)
    ensures Undisturbed(st, hs)
    decreases |hs|
  {
    hide Occurs, OneRecovery;
    if hs != [] {
      OccursOneRecovery(st, hs[0]);
      NobodyDisturbs(Occurs(st, hs[0]).value, hs[1..]);
    }
  }

  /** What happens while a recovery sleeps, if neither another relaunch nor another death does. */
  predicate OneSleep(hs: seq<Happening>) {
    forall k | 0 <= k < |hs| :: !hs[k].Relaunch? && !hs[k].UxPlayExit?
  }

  predicate SomebodyConnects(hs: seq<Happening>) { exists k | 0 <= k < |hs| :: hs[k].SourceConnected? }

  lemma ConnectsCons(hs: seq<Happening>)
    requires hs != []
    ensures SomebodyConnects(hs) <==> hs[0].SourceConnected? || SomebodyConnects(hs[1..])
  {
    if k :| 0 <= k < |hs| && hs[k].SourceConnected? {
      assert k > 0 ==> hs[1..][k - 1].SourceConnected?;
    }
    if k :| 0 <= k < |hs[1..]| && hs[1..][k].SourceConnected? {
      assert hs[k + 1].SourceConnected?;
    }
  }

  /** After a source has connected, the process is not dead again until it dies again. */
  lemma {:induction false} StaysUp(st: Status, hs: seq<Happening>)
    requires Consistent(st.world) && OneSleep(hs)
    ensures Run(st, hs).Some? && Run(st, hs).value.asleep == st.asleep && Consistent(Run(st, hs).value.world)
    decreases |hs|
  {
    hide Occurs, Consistent;
    if hs != [] {
      ConsistentOccurs(st, hs[0]);
      StaysUp(Occurs(st, hs[0]).value, hs[1..]);
    }
  }

  lemma {:induction false} SleepEnds(st: Status, hs: seq<Happening>)
    requires Recovering(st.world) && st.asleep > 0 && OneSleep(hs)
    ensures var r := Run(st, hs);
            && r.Some? && r.value.asleep == st.asleep && Sound(r.value)
            && (Recovering(r.value.world) <==> !SomebodyConnects(hs))
    decreases |hs|
  {
    hide Fire, Consistent, Recovering;
    if hs != [] {
      var w := st.world;
      ConnectsCons(hs);
      FireRecovering(w, MIRACAST_CONNECTED);
      FireRecovering(w, MIRACAST_DISCONNECTED);
      FireRecovering(w, WATCHDOG_TIMEOUT);
      RecoveringIsDead(w);
      if hs[0].SourceConnected? {
        StaysUp(Occurs(st, hs[0]).value, hs[1..]);
        NotBoth(Run(st, hs).value.world);
      } else {
        SleepEnds(st, hs[1..]);
      }
    }
  }

  lemma RecoveringIsDead(w: World)
    ensures Recovering(w) ==> w.proc.Dead?
  {
  }

  lemma NotBoth(w: World)
    requires Consistent(w)
    ensures !Recovering(w)
  {
  }

  /**
   * Crash recovery, with its sleep: whatever happens between the death and the relaunch, bar
   * another death, the relaunch succeeds and leaves the daemon sound if and only if no source
   * connected meanwhile.
   */
  lemma RelaunchAfterSleep(st: Status, hs: seq<Happening>)
    requires Recovering(st.world) && st.asleep > 0 && OneSleep(hs)
    ensures var asleep := Run(st, hs);
            && asleep.Some?
            && var r := Occurs(asleep.value, Relaunch);
               r.Some? && Sound(r.value) <==> !SomebodyConnects(hs)
  {
    hide Occurs, Run, Consistent, Recovering;
    SleepEnds(st, hs);
    var r := Run(st, hs).value;
    RelaunchNeedsDead(r);
    DeadIsRecovering(r);
  }

  lemma DeadIsRecovering(st: Status)
    requires Sound(st)
    ensures st.world.proc.Dead? <==> Recovering(st.world)
  {
  }

  /** A death at IDLE, a source that connects during the sleep, and the relaunch: uxplay runs in MIRACAST. */
  lemma RelaunchInSession(w: World, drain: seq<string>)
    requires Consistent(w) && w.fsm == IDLE
    ensures var r := Run(Status(w, 0), [UxPlayExit, SourceConnected(drain), Relaunch]);
            && r.Some? && r.value.world.fsm == MIRACAST && r.value.world.proc == Live(0) && !r.value.world.expectExit
            && Occurs(r.value, SourceDisconnected).None?
  {
    hide Fire, Published, Occurs;
    var hs := [UxPlayExit, SourceConnected(drain), Relaunch];
    var st := Status(w, 0);
    DeathAtIdle(w);
    var st1 := Occurs(st, UxPlayExit).value;
    FireRecovering(st1.world, MIRACAST_CONNECTED);
    ConnectWhileDead(st1, drain);
    var st2 := Occurs(st1, SourceConnected(drain)).value;
    RelaunchNeedsDead(st2);
    var st3 := Occurs(st2, Relaunch).value;
    assert hs[1..][1..] == [Relaunch] && hs[1..][0] == SourceConnected(drain) && [Relaunch][1..] == [];
    assert Run(st3, []) == Some(st3);
    assert Run(st2, [Relaunch]) == Some(st3);
    assert Run(st1, hs[1..]) == Some(st3);
  }

  lemma DeathAtIdle(w: World)
    requires Consistent(w) && w.fsm == IDLE
    ensures var r := Occurs(Status(w, 0), UxPlayExit); r.Some? && r.value.asleep == 1 && Recovering(r.value.world)
  {
    hide Published;
  }

  lemma ConnectWhileDead(st: Status, drain: seq<string>)
    requires Recovering(st.world)
    ensures Occurs(st, SourceConnected(drain)) == Awake(Fire(st.world, MIRACAST_CONNECTED), st.asleep)
  {
    hide Fire;
  }

  /**
   * Display ownership follows the tracker on every undisturbed run of the events main.py raises; in
   * a Miracast session there is no uxplay process and an exit is expected, so an exit noticed then
   * is not recovered from.
   */
  lemma {:induction false} RunTracksOwnership(st: Status, hs: seq<Happening>)
    requires Sound(st) && OwnershipTracked(st.world) && forall k | 0 <= k < |hs| :: !hs[k].TimeoutEvent?
    requires Undisturbed(st, hs)
    ensures var r := Run(st, hs);
            && r.Some? && OwnershipTracked(r.value.world)
            && (var w := r.value.world; w.fsm == MIRACAST ==> w.proc.NoProc? && PumpEnds(w) == Some((w, false)))
    decreases |hs|
  {
    hide Occurs, OwnershipTracked;
    if hs != [] {
      if !hs[0].Relaunch? {
        OccursKeepsSound(st, hs[0]);
      } else if st.asleep > 0 {
        RelaunchNeedsDead(st);
      } else {
        NothingToRelaunch(st);
      }
      RunTracksOwnership(Occurs(st, hs[0]).value, hs[1..]);
    }
  }

  /**
   * The blob last published, read back from its bytes, says available exactly when the arbiter is
   * idle, if and only if an even number of publications (none, say) have been refused since.
   */
  lemma RunPublishesAvailability(st: Status, hs: seq<Happening>)
    requires Sound(st) && Undisturbed(st, hs)
    ensures Run(st, hs).Some? &&
            var w := Run(st, hs).value.world;
            Availability(w.ie) == Some(if w.fsm == IDLE then 1 else 0) <==> w.misses % 2 == 0
  {
    hide Run, Undisturbed, Availability, Published;
    RunKeepsSound(st, hs);
    PublishedAvailability(true);
    PublishedAvailability(false);
  }

  // ----- the class -----

  class RenderProcess {
    var running: bool
    var starts: nat

    constructor ()
      ensures !running && starts == 0
    {
      running := false;
      starts := 0;
    }

    /** false is the RuntimeError "already running", or the OSError of a process that does not start. */
    method Start(spawns: bool) returns (ok: bool)
      modifies this
      ensures ok <==> !old(running) && spawns
      ensures running == (old(running) || spawns) && starts == old(starts) + if ok then 1 else 0
    {
      if running || !spawns {
        return false;
      }
      running := true;
      starts := starts + 1;
      return true;
    }

    method Stop()
      modifies this`running
      ensures !running
    {
      running := false;
    }
  }

  class UxPlayProcess {
    const canSpawn: bool // whether starting the process succeeds
    var proc: Proc
    var expectExit: bool

    constructor (canSpawn: bool)
      ensures proc == NoProc && !expectExit && this.canSpawn == canSpawn
    {
      this.canSpawn := canSpawn;
      proc := NoProc;
      expectExit := false;
    }

    /** false is the RuntimeError "already running", or the OSError of a process that does not start. */
    method Start() returns (ok: bool)
      modifies this
      ensures ok <==> !old(proc).Live? && canSpawn
      ensures proc == if ok then Live(0) else old(proc)
      ensures expectExit == (old(expectExit) && old(proc).Live?)
    {
      if proc.Live? {
        return false;
      }
      expectExit := false;
      if !canSpawn {
        return false;
      }
      proc := Live(0);
      return true;
    }

    method Stop()
      modifies this
      ensures proc == NoProc && expectExit == (old(expectExit) || !old(proc).NoProc?)
    {
      if proc.NoProc? {
        return;
      }
      expectExit := true;
      proc := NoProc;
    }
  }

  // ----- one source's session, as a function of where it starts and how the handshake ends -----

  predicate FirstFails(faults: seq<bool>) { faults != [] && faults[0] }

  /** The handshake's end: settimeout may raise before it starts. */
  function ConnectEnd(t: Terms, ch: Channel, timeoutFaults: seq<bool>): HandshakeEnd {
    if FirstFails(timeoutFaults) then TransportFailed else Exchange(t, 0, ch).end
  }

  function NextFaults(faults: seq<bool>): seq<bool> { if faults == [] then [] else faults[1..] }

  /** The channel the handshake leaves. */
  function ConnectChannel(t: Terms, ch: Channel, timeoutFaults: seq<bool>): Channel {
    if FirstFails(timeoutFaults) then ch else Exchange(t, 0, ch).ch
  }

  /** The end of the steady state of a streaming session, and the channel it leaves. */
  function PumpEnd(live: bool, ch: Channel, timeoutFaults: seq<bool>): SteadyEnd {
    if FirstFails(timeoutFaults) then TimeoutUnset else Pump(live, ch).end
  }

  function PumpChannel(live: bool, ch: Channel, timeoutFaults: seq<bool>): Channel {
    if FirstFails(timeoutFaults) then ch else Pump(live, ch).ch
  }

  /** Does run_steady_state return, or raise? */
  function PumpExit(end: SteadyEnd): SessionEnd {
    if end.SourceLeft? || end.Silent? || end.SocketDied? then Returned else Raised
  }

  /** How the session's thread ends, and everything it read and sent. */
  function SessionExit(t: Terms, ch: Channel, timeoutFaults: seq<bool>, spawns: bool): (SessionEnd, Channel) {
    var end, ch1 := ConnectEnd(t, ch, timeoutFaults), ConnectChannel(t, ch, timeoutFaults);
    match end
    case Negotiated =>
      var later := NextFaults(timeoutFaults);
      if spawns then (PumpExit(PumpEnd(true, ch1, later)), PumpChannel(true, ch1, later)) else (Returned, ch1)
    case BadInteger => (Raised, ch1)
    case _ => (Returned, ch1)
  }

  /** render.stop() and render.start(), whose process may fail to start. */
  function Rendering(w: World, spawns: bool): World {
    if spawns then w.(render := true, starts := w.starts + 1) else w.(render := false)
  }

  /** The world once the session's thread is over. */
  function AfterSession(w: World, end: HandshakeEnd, spawns: bool): (r: Option<World>)
  {
    match Fire(w, MIRACAST_CONNECTED)
    case None => None
    case Some(w1) =>
      match end
      case Negotiated => Fire(Rendering(w1, spawns), MIRACAST_DISCONNECTED)
      case BadInteger => Some(w1)
      case _ => Fire(w1, MIRACAST_DISCONNECTED)
  }

  /** Ready for the next source: idle, no Miracast pipeline, UxPlay running afresh, the sink offered as available. */
  predicate Settled(w: World) {
    && w.fsm == IDLE && !w.render && w.proc == Live(0)
    && (Availability(w.ie) == Some(1) <==> w.misses % 2 == 0)
  }

  /** A world in which AirPlay has not got the display; UxPlay may have died. */
  predicate Open(w: World) { (Consistent(w) && w.fsm != AIRPLAY) || Recovering(w) }

  /** What one end of the handshake leaves of a world where AirPlay has not got the display. */
  lemma SessionEnds(w: World, end: HandshakeEnd, spawns: bool)
    requires Open(w)
    ensures var r := AfterSession(w, end, spawns);
            && r.Some? && Consistent(r.value)
            && (Settled(r.value) <==> !end.BadInteger?)
            && (end.BadInteger? ==> r.value.fsm == MIRACAST && r.value.proc.NoProc?)
            && (w.refusals == [] && w.misses % 2 == 0 ==>
                  Availability(r.value.ie) == Some(if end.BadInteger? then 0 else 1))
            && r.value.starts == w.starts + (if end.Negotiated? && spawns then 1 else 0)
  {
    hide Fire, Availability, Published;
    PublishedAvailability(true);
    PublishedAvailability(false);
    SessionBegins(w);
    var w1 := Fire(w, MIRACAST_CONNECTED).value;
    FireFrom(w1, MIRACAST_DISCONNECTED);
    FireFrom(Rendering(w1, spawns), MIRACAST_DISCONNECTED);
  }

  lemma SessionBegins(w: World)
    requires Open(w)
    ensures var r := Fire(w, MIRACAST_CONNECTED);
            && r.Some? && Consistent(r.value) && r.value.fsm == MIRACAST
            && r.value.render == w.render && r.value.starts == w.starts
            && (w.refusals == [] ==> r.value.refusals == [] && (w.misses % 2 == 0 ==> r.value.misses % 2 == 0))
  {
    hide Published;
    ActAllShort(w.(fsm := MIRACAST), Decide(w.fsm, MIRACAST_CONNECTED).actions);
  }

  /** No read, send, settimeout or process start of the session fails. */
  predicate NothingFails(ch: Channel, timeoutFaults: seq<bool>, spawns: bool) {
    Faultless(ch.rd.inbound) && NoneFails(ch.faults) && !FirstFails(timeoutFaults) && spawns
  }

  /**
   * A whole session from IDLE (UxPlay dead or alive), or from the MIRACAST that an earlier
   * ValueError left, exactly, for every peer, segmentation and failure point: it ends settled
   * unless a number int() refuses is what ends its handshake, and starts render once if the
   * handshake passes all seven messages, and the pipeline starts, and otherwise never. A stream
   * that does not choke cannot prevent its settling; and if nothing fails, only the stream matters.
   */
  lemma SessionFromIdle(w: World, t: Terms, ch: Channel, timeoutFaults: seq<bool>, spawns: bool)
    requires Open(w)
    ensures var r := AfterSession(w, ConnectEnd(t, ch, timeoutFaults), spawns);
            var begins, x, stream := !FirstFails(timeoutFaults), Carried(ch), ch.rd.Stream();
            && r.Some? && Consistent(r.value)
            && (Settled(r.value) <==> !(begins && ChokesOn(0, x)))
            && r.value.starts == w.starts + (if begins && spawns && Passes(0, 7, x) then 1 else 0)
            && (!Chokes(0, stream) ==> Settled(r.value))
            && (NothingFails(ch, timeoutFaults, spawns) ==>
                  && (Settled(r.value) <==> !Chokes(0, stream))
                  && r.value.starts == w.starts + (if Acceptable(0, stream) then 1 else 0))
  {
    hide Exchange, AfterSession, Settled, Open, Chokes, ChokesOn, Passes, Carried, Acceptable;
    hide Faultless, NoneFails, Consistent;
    SessionEnds(w, ConnectEnd(t, ch, timeoutFaults), spawns);
    ExchangeIff(t, 0, ch);
    BadIntegerIff(t, 0, ch);
    if NothingFails(ch, timeoutFaults, spawns) {
      NegotiatedIff(t, 0, ch);
    }
  }

  /** No source can leave the daemon stuck without sending a run of more than 4300 digits. */
  lemma NoLongRunNoStuckSession(w: World, t: Terms, ch: Channel, timeoutFaults: seq<bool>, spawns: bool)
    requires Open(w) && !HasLongRun(ch.rd.Stream())
    ensures var r := AfterSession(w, ConnectEnd(t, ch, timeoutFaults), spawns); r.Some? && Settled(r.value)
  {
    hide Exchange, HasLongRun, AfterSession, Settled, Consistent;
    if ConnectEnd(t, ch, timeoutFaults).BadInteger? {
      BadIntegerNeedsLongRun(t, 0, ch);
    }
    SessionEnds(w, ConnectEnd(t, ch, timeoutFaults), spawns);
  }

  /** One that declares its first message's length in so many digits does leave it stuck in MIRACAST. */
  lemma LongLengthSticks(w: World, t: Terms, ch: Channel, digits: string)
    requires Open(w)
    requires AllBody(digits, Digits) && |digits| > 4300
    requires ch.rd.Stream() == CONTENT_LENGTH.key + digits + BLANK && Faultless(ch.rd.inbound)
    ensures var r := AfterSession(w, ConnectEnd(t, ch, []), true);
            r.Some? && r.value.fsm == MIRACAST && r.value.proc.NoProc?
  {
    hide Exchange, AfterSession, AllBody, Consistent;
    LongLengthRaises(t, ch, digits);
    SessionEnds(w, BadInteger, true);
  }

  /**
   * A source that connects during AirPlay is rejected by the arbiter but served all the same. It
   * changes nothing but render, and that exactly when the handshake passes all seven messages: if
   * the pipeline starts, it is left running.
   */
  lemma SessionDuringAirplay(w: World, t: Terms, ch: Channel, timeoutFaults: seq<bool>, spawns: bool)
    requires Consistent(w) && w.fsm == AIRPLAY
    ensures var r := AfterSession(w, ConnectEnd(t, ch, timeoutFaults), spawns);
            && r == Some(if !FirstFails(timeoutFaults) && Passes(0, 7, Carried(ch)) then Rendering(w, spawns) else w)
            && (NothingFails(ch, timeoutFaults, spawns) ==>
                  r == Some(if Acceptable(0, ch.rd.Stream()) then w.(render := true, starts := w.starts + 1) else w))
  {
    hide Fire, Exchange, Acceptable, Passes, Carried, Faultless, NoneFails;
    FireFrom(w, MIRACAST_CONNECTED);
    FireFrom(w, MIRACAST_DISCONNECTED);
    FireFrom(Rendering(w, spawns), MIRACAST_DISCONNECTED);
    ExchangeIff(t, 0, ch);
    if NothingFails(ch, timeoutFaults, spawns) {
      NegotiatedIff(t, 0, ch);
    }
  }

  /**
   * All that a session sends, whatever the peer and wherever it fails, comes out of the peer's
   * reader message by message, if and only if M3's reply is not sent, because the handshake does
   * not pass its first three messages, or M3 asks for nothing that is miscounted.
   */
  lemma SessionOutputReframes(t: Terms, ch: Channel, timeoutFaults: seq<bool>, spawns: bool)
    requires IsHost(t.ip)
    ensures var sent := SessionExit(t, ch, timeoutFaults, spawns).1.sent;
            && ch.sent <= sent
            && var payloads := sent[|ch.sent|..];
               Frames(Concat(payloads)) == (payloads, "") <==>
                 || FirstFails(timeoutFaults) || !Passes(0, 3, Carried(ch))
                 || Countable(t.capabilities, t.rtpPort, ThirdMessage(ch.rd.Stream()))
  {
    hide Exchange, Pump, IsHost, Passes, Carried, Frames, Countable, ThirdMessage;
    HandshakeOutputReframes(t, ch);
    HandshakeReplies(t, ch);
    if Exchange(t, 0, ch).end.Negotiated? {
      PumpOutputReframes(t, ch);
      PumpReplied(t, ch);
    }
    NothingSentReframes(t, ch);
  }

  /**
   * A session's thread ends with an exception exactly when a number int() refuses ends its
   * handshake; or when the stream has started and settimeout fails, or the steady state comes to
   * such a number, to a request without a number, or to an acknowledgement that cannot be sent.
   */
  lemma SessionRaisesIff(t: Terms, ch: Channel, timeoutFaults: seq<bool>, spawns: bool)
    ensures SessionExit(t, ch, timeoutFaults, spawns).0 == Raised <==>
              && !FirstFails(timeoutFaults)
              && (|| ChokesOn(0, Carried(ch))
                  || (Passes(0, 7, Carried(ch)) && spawns
                      && (|| (|timeoutFaults| > 1 && timeoutFaults[1])
                          || EndOn(Carried(Exchange(t, 0, ch).ch)) in {TooLong, NotNumbered, NotSent})))
  {
    hide Exchange, Pump, ChokesOn, Passes, Carried, EndOn;
    ExchangeIff(t, 0, ch);
    if Exchange(t, 0, ch).end.Negotiated? {
      PumpIff(Exchange(t, 0, ch).ch);
    }
  }

  const WFD_RTP_PORT := 1028

  function DaemonCapabilities(deviceName: string): Capabilities {
    Capabilities(false, false, false, deviceName, "castd", "1.0", [])
  }

  lemma RtpPortInDecimal()
    ensures Decimal(WFD_RTP_PORT) == "1028" && Decimal(2) == "2" && Decimal(3) == "3"
  {
    assert Decimal(1) == "1" && Decimal(10) == Decimal(1) + "0" && Decimal(102) == Decimal(10) + "2";
  }

  /**
   * What the daemon tells every source it may send, word for word: video to port 1028, AAC sound,
   * modes up to 1080p30.
   */
  lemma DaemonOffers(deviceName: string, request: string)
    ensures ("wfd_client_rtp_ports: RTP/AVP/UDP;unicast " + "1028" + " 0 mode=play") + "\r\n"
            + ("wfd_audio_codecs: " + "AAC 00000001 00") + "\r\n"
            + ("wfd_video_formats: " + "38 00 02 10 00019CFF" + " 00000000 00000000 00 0000" + " 0000 00 none none")
            + "\r\n" <= CapabilityBody(DaemonCapabilities(deviceName), WFD_RTP_PORT, request)
  {
    hide CapabilityBody, Lines, LineIf, Contains, EdidLine;
    RtpPortInDecimal();
    CapabilityBodyText(DaemonCapabilities(deviceName), WFD_RTP_PORT, request);
  }

  /** And what it asks: SETUP for that port with CSeq 2, then PLAY with CSeq 3 and the source's session. */
  lemma DaemonAsks(deviceName: string, ip: string, ms: seq<string>)
    requires |ms| == 7 && AllAccepted(0, ms) && IsHost(ip)
    requires forall j | 0 <= j < |ip| :: !MatchAt(ip, j, "client_port=") && !AnyCaseAt(ip, j, "cseq:")
    requires forall j | 0 <= j < |ip| :: !MatchAt(ip, j, "Session:")
    ensures var out := SevenMessages(Terms(DaemonCapabilities(deviceName), WFD_RTP_PORT, ip), ms);
            && Cseq(Print(out[5])) == Some("2") && Cseq(Print(out[6])) == Some("3")
            && Field(Print(out[5]), FieldPattern("client_port=", false, false, false, Digits)) == Some("1028")
            && ParseM6(ms[5]).Accepted?
            && Field(Print(out[6]), FieldPattern("Session:", false, true, true, IdChars))
                 == Some(ParseM6(ms[5]).value.1)
  {
    hide Print, Field, Cseq, CapabilityBody, MatchAt, AnyCaseAt, KeyAt, Contains, IsHost;
    RtpPortInDecimal();
    assert Check(0 + 5, ms[5]).Accepted?;
    var id := ParseM6(ms[5]).value.1;
    PrintedCseq(SetupRequest(ip, 2, WFD_RTP_PORT));
    PrintedCseq(PlayRequest(ip, 3, id));
    SetupCarriesPort(ip, 2, WFD_RTP_PORT);
    PlayCarriesSession(ip, 3, id);
  }

  /** How handle_miracast_connected leaves: a negotiator, None, or an exception it does not catch. */
  datatype Connection = Streaming(negotiator: WfdNegotiator) | Failed | Escaped

  /** How a session's thread ends. */
  datatype SessionEnd = Returned | Raised

  class CastDaemon {
    const deviceName: string
    const arbiter: CastArbiter
    const render: RenderProcess
    const uxplay: UxPlayProcess
    var ie: seq<byte>
    var refusals: seq<bool>
    ghost var misses: nat
    var paints: nat
    var renderExpected: bool
    var activeControlSock: Option<Sock>

    /** The daemon once start() has brought everything up. */
    constructor (deviceName: string, refusals: seq<bool>)
      ensures this.deviceName == deviceName
      ensures Now() == World(IDLE, Live(0), false, true, false, 0, Published(true), refusals, 0, 1)
      ensures !renderExpected && activeControlSock == None
      ensures fresh(arbiter) && fresh(render) && fresh(uxplay)
    {
      this.deviceName := deviceName;
      arbiter := new CastArbiter();
      render := new RenderProcess();
      var ux := new UxPlayProcess(true);
      uxplay := ux;
      ie := Published(true);
      this.refusals := refusals;
      misses := 0;
      paints := 1;
      renderExpected := false;
      activeControlSock := None;
      var started := ux.Start();
    }

    ghost function Now(): World
      reads this, arbiter, render, uxplay
    {
      World(arbiter.state, uxplay.proc, uxplay.expectExit, uxplay.canSpawn, render.running, render.starts,
            ie, refusals, misses, paints)
    }

    /** A refused publication is swallowed. */
    method SetSessionAvailable(available: bool)
      modifies this`ie, this`refusals, this`misses
      ensures Now() == Publish(old(Now()), available)
    {
      hide Published;
      var refused := refusals != [] && refusals[0];
      if refusals != [] {
        refusals := refusals[1..];
      }
      if refused {
        misses := misses + 1;
      } else {
        ie := Published(available);
        misses := 0;
      }
    }

    /** false when an action raised; the actions after it are not executed. */
    method ApplyActions(actions: seq<Action>) returns (ok: bool)
      modifies this`ie, this`refusals, this`misses, this`paints, render, uxplay
      ensures ok <==> ActAll(old(Now()), actions).Some?
      ensures ok ==> Now() == ActAll(old(Now()), actions).value
      ensures Now() == ActUntil(old(Now()), actions)
    {
      hide Published, Publish;
      ghost var whole, until := ActAll(Now(), actions), ActUntil(Now(), actions);
      for i := 0 to |actions|
        invariant ActAll(Now(), actions[i..]) == whole && ActUntil(Now(), actions[i..]) == until
      {
        assert actions[i..][1..] == actions[i + 1..];
        match actions[i] {
          case STOP_RENDER_PIPELINE => render.Stop();
          case SHOW_IDLE_SCREEN => paints := paints + 1;
          case PAUSE_AIRPLAY_ADVERTISING => uxplay.Stop();
          case RESUME_AIRPLAY_ADVERTISING =>
            ok := uxplay.Start();
            if !ok {
              return;
            }
          case PAUSE_MIRACAST_DISCOVERY => SetSessionAvailable(false);
          case RESUME_MIRACAST_DISCOVERY => SetSessionAvailable(true);
          case _ =>
        }
      }
      return true;
    }

    /** arbiter.handle and its actions, as every handler runs them. */
    method FireEvent(e: Event) returns (ok: bool)
      modifies this`ie, this`refusals, this`misses, this`paints, arbiter, render, uxplay
      ensures ok <==> Fire(old(Now()), e).Some?
      ensures ok ==> Now() == Fire(old(Now()), e).value
      ensures Now() == FireUntil(old(Now()), e)
    {
      var transition := arbiter.Handle(e);
      ok := ApplyActions(transition.actions);
    }

    method OnAirplayConnected() returns (ok: bool)
      modifies this`ie, this`refusals, this`misses, this`paints, arbiter, render, uxplay
      ensures ok <==> Fire(old(Now()), AIRPLAY_CONNECTED).Some?
      ensures ok ==> Now() == Fire(old(Now()), AIRPLAY_CONNECTED).value
    {
      ok := FireEvent(AIRPLAY_CONNECTED);
    }

    method OnAirplayDisconnected() returns (ok: bool)
      modifies this`ie, this`refusals, this`misses, this`paints, arbiter, render, uxplay
      ensures ok <==> Fire(old(Now()), AIRPLAY_DISCONNECTED).Some?
      ensures ok ==> Now() == Fire(old(Now()), AIRPLAY_DISCONNECTED).value
    {
      ok := FireEvent(AIRPLAY_DISCONNECTED);
    }

    /** Called by the pump of a process that nobody asked to stop, up to the sleep: is a relaunch due? */
    method OnUxPlayExited() returns (ok: bool, due: bool)
      modifies this`ie, this`refusals, this`misses, this`paints, arbiter, render, uxplay
      ensures ok <==> Recover(old(Now())).Some?
      ensures ok ==> (Now(), due) == Recover(old(Now())).value
    {
      hide Fire;
      ok := true;
      due := false;
      if arbiter.state == AIRPLAY {
        ok := OnAirplayDisconnected();
        if !ok {
          return;
        }
      }
      due := !uxplay.proc.Live?;
    }

    /** And after it, without another look. */
    method RelaunchUxPlay() returns (ok: bool)
      modifies uxplay
      ensures ok <==> StartUxPlay(old(Now())).Some?
      ensures ok ==> Now() == StartUxPlay(old(Now())).value
    {
      ok := uxplay.Start();
    }

    method HandleMiracastDisconnected() returns (ok: bool)
      modifies this`ie, this`refusals, this`misses, this`paints, arbiter, render, uxplay
      ensures ok <==> Fire(old(Now()), MIRACAST_DISCONNECTED).Some?
      ensures ok ==> Now() == Fire(old(Now()), MIRACAST_DISCONNECTED).value
      ensures Now() == FireUntil(old(Now()), MIRACAST_DISCONNECTED)
    {
      ok := FireEvent(MIRACAST_DISCONNECTED);
    }

    /**
     * The handshake and, on success, the start of the pipeline. On a failure it knows, it drives
     * the arbiter back itself; a ValueError passes through with the arbiter as it is.
     */
    method HandleMiracastConnected(ip: string, sock: Sock, reader: RtspReader, spawns: bool)
      returns (c: Connection)
      requires reader.sock == sock && (Consistent(Now()) || Recovering(Now()))
      modifies this`ie, this`refusals, this`misses, this`paints, this`renderExpected
      modifies arbiter, render, uxplay, sock, reader
      ensures var w := old(Now()); var t := Terms(DaemonCapabilities(deviceName), WFD_RTP_PORT, ip);
              var end := ConnectEnd(t, old(Chan(sock, reader)), old(sock.timeoutFaults));
              && Fire(w, MIRACAST_CONNECTED).Some?
              && var w1 := Fire(w, MIRACAST_CONNECTED).value;
                 match c
                 case Streaming(n) =>
                   end.Negotiated? && spawns && Now() == Rendering(w1, true) && renderExpected && n.state == STREAMING
                 case Escaped => end.BadInteger? && Now() == w1
                 case Failed =>
                   && !end.BadInteger? && (end.Negotiated? ==> !spawns)
                   && Fire(if end.Negotiated? then Rendering(w1, false) else w1, MIRACAST_DISCONNECTED) == Some(Now())
      ensures var t := Terms(DaemonCapabilities(deviceName), WFD_RTP_PORT, ip);
              Chan(sock, reader) == ConnectChannel(t, old(Chan(sock, reader)), old(sock.timeoutFaults))
      ensures sock.timeoutFaults == NextFaults(old(sock.timeoutFaults))
      ensures !c.Streaming? ==> renderExpected == old(renderExpected)
      ensures c.Streaming? ==> fresh(c.negotiator)
      ensures sock.closed == old(sock.closed)
    {
      hide Exchange, Fire, Published, DaemonCapabilities, Consistent, Recovering, FireUntil, Rendering;
      ConnectSucceeds(Now());
      ghost var t := Terms(DaemonCapabilities(deviceName), WFD_RTP_PORT, ip);
      var fired := FireEvent(MIRACAST_CONNECTED);
      ghost var w1 := Now();
      var negotiator := new WfdNegotiator(DaemonCapabilities(deviceName), WFD_RTP_PORT);
      var ok := sock.SetTimeout();
      var end := TransportFailed;
      if ok {
        end := Negotiate(sock, reader, negotiator, ip);
      }
      if end.BadInteger? {
        return Escaped;
      }
      if end.Negotiated? {
        var started := StartPipeline(spawns);
        if started {
          return Streaming(negotiator);
        }
      }
      FailedSucceeds(w1, MIRACAST_DISCONNECTED);
      var back := HandleMiracastDisconnected();
      return Failed;
    }

    /** render.stop(), render.start(), and the flag; false if the process does not start. */
    method StartPipeline(spawns: bool) returns (ok: bool)
      modifies this`renderExpected, render
      ensures ok == spawns && Now() == Rendering(old(Now()), spawns)
      ensures renderExpected == (old(renderExpected) || ok)
    {
      render.Stop();
      ok := render.Start(spawns);
      if ok {
        renderExpected := true;
      }
    }

    /** The steady state, then the teardown, whether the pump returned or raised. */
    method PumpControlChannel(sock: Sock, negotiator: WfdNegotiator, reader: RtspReader) returns (end: SessionEnd)
      requires reader.sock == sock && Consistent(Now())
      modifies this`ie, this`refusals, this`misses, this`paints, arbiter, render, uxplay, sock, reader, negotiator`state
      ensures Fire(old(Now()), MIRACAST_DISCONNECTED) == Some(Now()) && sock.closed
      ensures var live, faults := old(negotiator.state) == STREAMING, old(sock.timeoutFaults);
              var ch := old(Chan(sock, reader));
              end == PumpExit(PumpEnd(live, ch, faults)) && Chan(sock, reader) == PumpChannel(live, ch, faults)
      ensures negotiator.state == TORN_DOWN || FirstFails(old(sock.timeoutFaults))
    {
      hide Fire, Pump;
      FireFrom(Now(), MIRACAST_DISCONNECTED);
      var steady := RunSteadyState(sock, negotiator, reader);
      sock.Close();
      var back := HandleMiracastDisconnected();
      end := PumpExit(steady);
    }

    /** One source's whole session, from the first byte to the last exception. */
    method RunSourceSession(ip: string, sock: Sock, spawns: bool) returns (end: SessionEnd)
      requires Consistent(Now()) || Recovering(Now())
      modifies this, arbiter, render, uxplay, sock
      ensures var t := Terms(DaemonCapabilities(deviceName), WFD_RTP_PORT, ip);
              var ch := Channel(ReaderState("", old(sock.inbound)), old(sock.sendFaults), old(sock.sent));
              && AfterSession(old(Now()), ConnectEnd(t, ch, old(sock.timeoutFaults)), spawns) == Some(Now())
              && var (exit, last) := SessionExit(t, ch, old(sock.timeoutFaults), spawns);
                 end == exit && sock.sent == last.sent && sock.inbound == last.rd.inbound
      ensures activeControlSock == None
    {
      hide Exchange, Fire, Consistent, Recovering;
      var reader := new RtspReader(sock);
      activeControlSock := Some(sock);
      ConnectSucceeds(Now());
      ghost var w1 := Fire(Now(), MIRACAST_CONNECTED).value;
      RenderIsFree(w1);
      var c := HandleMiracastConnected(ip, sock, reader, spawns);
      end := if c.Escaped? then Raised else Returned;
      if c.Streaming? {
        end := PumpControlChannel(sock, c.negotiator, reader);
      }
      activeControlSock := None;
    }

    method TripStreamWatchdog()
      modifies if activeControlSock.Some? then {activeControlSock.value} else {}
      ensures activeControlSock.Some? ==> activeControlSock.value.closed
    {
      if activeControlSock.Some? {
        activeControlSock.value.Close();
      }
    }

    /** One sampling pass; `rx` is None when the counter cannot be read. */
    method StreamWatchTick(watchdog: StreamWatchdog, rx: Option<int>, now: real) returns (trip: Trip)
      requires watchdog.Valid()
      requires watchdog.stallWindow == STALL_WINDOW_S && watchdog.minBytes == MIN_BYTES_PER_SAMPLE
      modifies this`renderExpected, watchdog, if activeControlSock.Some? then {activeControlSock.value} else {}
      ensures watchdog.Valid()
      ensures var t := Tick(arbiter.state == MIRACAST, old(renderExpected), render.running, rx, now);
              && (watchdog.samples, trip) == TickOn(old(watchdog.samples), t)
              && renderExpected == (old(renderExpected) && t.miracast && trip != RenderDied)
      ensures trip != NoTrip && activeControlSock.Some? ==> activeControlSock.value.closed
      ensures trip == NoTrip && activeControlSock.Some? ==> unchanged(activeControlSock.value)
    {
      hide Stalled;
      if arbiter.state != MIRACAST {
        watchdog.Reset();
        renderExpected := false;
        return NoTrip;
      }
      if !renderExpected {
        return NoTrip;
      }
      if !render.running {
        TripStreamWatchdog();
        watchdog.Reset();
        renderExpected := false;
        return RenderDied;
      }
      if rx.None? {
        return NoTrip;
      }
      var stalled := watchdog.Observe(rx.value, now);
      if stalled {
        TripStreamWatchdog();
        watchdog.Reset();
        return StreamStalled;
      }
      return NoTrip;
    }
  }
}
