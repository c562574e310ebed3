/** castd/fsm/state_machine.py: first-connect-wins arbitration between Miracast and AirPlay. */
module Arbiter {
  import opened Prelude

  datatype State = IDLE | MIRACAST | AIRPLAY

  datatype Event =
    | MIRACAST_CONNECTED | MIRACAST_DISCONNECTED
    | AIRPLAY_CONNECTED | AIRPLAY_DISCONNECTED
    | WATCHDOG_TIMEOUT

  datatype Action =
    | SHOW_IDLE_SCREEN | STOP_RENDER_PIPELINE
    | PAUSE_AIRPLAY_ADVERTISING | RESUME_AIRPLAY_ADVERTISING
    | PAUSE_MIRACAST_DISCOVERY | RESUME_MIRACAST_DISCOVERY
    | FORCE_TEARDOWN_MIRACAST | FORCE_TEARDOWN_AIRPLAY
    | LOG_REJECTED_CONNECTION

  datatype Transition = Transition(nextState: State, actions: seq<Action>)

  /** _TABLE. */
  function Table(s: State, e: Event): Option<Transition> {
    match (s, e)
    case (IDLE, MIRACAST_CONNECTED) =>
      Some(Transition(MIRACAST, [PAUSE_AIRPLAY_ADVERTISING, PAUSE_MIRACAST_DISCOVERY]))
    case (IDLE, AIRPLAY_CONNECTED) =>
      Some(Transition(AIRPLAY, [PAUSE_MIRACAST_DISCOVERY, STOP_RENDER_PIPELINE]))
    case (MIRACAST, MIRACAST_DISCONNECTED) =>
      Some(Transition(IDLE, [STOP_RENDER_PIPELINE, RESUME_AIRPLAY_ADVERTISING,
                             RESUME_MIRACAST_DISCOVERY, SHOW_IDLE_SCREEN]))
    case (MIRACAST, WATCHDOG_TIMEOUT) =>
      Some(Transition(IDLE, [FORCE_TEARDOWN_MIRACAST, STOP_RENDER_PIPELINE, RESUME_AIRPLAY_ADVERTISING,
                             RESUME_MIRACAST_DISCOVERY, SHOW_IDLE_SCREEN]))
    case (AIRPLAY, AIRPLAY_DISCONNECTED) =>
      Some(Transition(IDLE, [STOP_RENDER_PIPELINE, RESUME_MIRACAST_DISCOVERY, SHOW_IDLE_SCREEN]))
    case (AIRPLAY, WATCHDOG_TIMEOUT) =>
      Some(Transition(IDLE, [FORCE_TEARDOWN_AIRPLAY, STOP_RENDER_PIPELINE,
                             RESUME_MIRACAST_DISCOVERY, SHOW_IDLE_SCREEN]))
    case _ => None
  }

  function Decide(s: State, e: Event): Transition {
    match Table(s, e)
    case Some(t) => t
    case None => Transition(s, [LOG_REJECTED_CONNECTION])
  }

  /** The event by which the owner of the display gives it up. */
  function OwnEnd(s: State): Event
    requires s != IDLE
  {
    if s == MIRACAST then MIRACAST_DISCONNECTED else AIRPLAY_DISCONNECTED
  }

  /** First connect wins: what is accepted, and who owns the display then. */
  lemma FirstConnectWins(s: State, e: Event)
    ensures var d := Decide(s, e);
            d.nextState ==
              if s == IDLE && e == MIRACAST_CONNECTED then MIRACAST
              else if s == IDLE && e == AIRPLAY_CONNECTED then AIRPLAY
              else if s != IDLE && (e == OwnEnd(s) || e == WATCHDOG_TIMEOUT) then IDLE
              else s
    ensures Decide(s, e).nextState == s <==> Decide(s, e).actions == [LOG_REJECTED_CONNECTION]
  {
  }

  /** A timeout forces the owner's teardown, and then does what its disconnection does. */
  lemma TimeoutForces(s: State)
    requires s != IDLE
    ensures Decide(s, WATCHDOG_TIMEOUT).actions ==
              [if s == MIRACAST then FORCE_TEARDOWN_MIRACAST else FORCE_TEARDOWN_AIRPLAY] + Decide(s, OwnEnd(s)).actions
  {
  }

  class CastArbiter {
    var state: State

    constructor ()
      ensures state == IDLE
    {
      state := IDLE;
    }

    method Handle(event: Event) returns (t: Transition)
      modifies this
      ensures t == Decide(old(state), event) && state == t.nextState
    {
      var found := Table(state, event);
      if found.None? {
        t := Transition(state, [LOG_REJECTED_CONNECTION]);
      } else {
        t := found.value;
      }
      state := t.nextState;
    }
  }

  // ----- whole runs -----

  /** The states of a run, the first one included. */
  function States(s: State, events: seq<Event>): (r: seq<State>)
    ensures |r| == |events| + 1 && r[0] == s
    decreases |events|
  {
    if events == [] then [s] else [s] + States(Decide(s, events[0]).nextState, events[1..])
  }

  /** All the actions of a run, in order. */
  function Actions(s: State, events: seq<Event>): (r: seq<Action>)
    decreases |events|
  {
    if events == [] then []
    else Decide(s, events[0]).actions + Actions(Decide(s, events[0]).nextState, events[1..])
  }

  /** The display never changes hands without an idle moment in between. */
  lemma {:induction false} HandoverThroughIdle(s: State, events: seq<Event>, i: nat, j: nat) returns (k: nat)
    requires i < j <= |events|
    requires var r := States(s, events); r[i] != IDLE && r[j] != IDLE && r[i] != r[j]
    ensures i < k < j && States(s, events)[k] == IDLE
    decreases j
  {
    var s' := Decide(s, events[0]).nextState;
    if i > 0 {
      k := HandoverThroughIdle(s', events[1..], i - 1, j - 1);
      k := k + 1;
    } else if s' == IDLE {
      k := 1;
    } else {
      assert s' == s;
      k := HandoverThroughIdle(s', events[1..], 0, j - 1);
      k := k + 1;
    }
  }

  /** The occurrences of two actions, in order. */
  function Only(log: seq<Action>, a: Action, b: Action): (r: seq<Action>)
  {
    if log == [] then []
    else (if log[0] == a || log[0] == b then [log[0]] else []) + Only(log[1..], a, b)
  }

  /** a, b, a, b, ... */
  predicate Alternates(log: seq<Action>, a: Action, b: Action) {
    forall k | 0 <= k < |log| :: log[k] == if k % 2 == 0 then a else b
  }

  lemma {:induction false} OnlyAppend(x: seq<Action>, y: seq<Action>, a: Action, b: Action)
    ensures Only(x + y, a, b) == Only(x, a, b) + Only(y, a, b)
  {
    if x == [] {
      assert x + y == y;
    } else {
      assert (x + y)[1..] == x[1..] + y && (x + y)[0] == x[0];
      OnlyAppend(x[1..], y, a, b);
      var own := if x[0] == a || x[0] == b then [x[0]] else [];
      assert own + (Only(x[1..], a, b) + Only(y, a, b)) == own + Only(x[1..], a, b) + Only(y, a, b);
    }
  }

  lemma AlternatesCons(log: seq<Action>, a: Action, b: Action)
    requires a != b && Alternates(log, b, a)
    ensures Alternates([a] + log, a, b)
  {
  }

  /** The log of a run is the first decision's actions and then the rest's. */
  lemma OnlyOfRun(s: State, events: seq<Event>, a: Action, b: Action)
    requires events != []
    ensures var d := Decide(s, events[0]);
            Only(Actions(s, events), a, b) == Only(d.actions, a, b) + Only(Actions(d.nextState, events[1..]), a, b)
  {
    hide Only, Decide;
    var d := Decide(s, events[0]);
    OnlyAppend(d.actions, Actions(d.nextState, events[1..]), a, b);
  }

  /** Miracast's session pauses AirPlay when it starts and resumes it when it ends, strictly in turn. */
  lemma {:induction false} AirplayAdvertisingAlternates(s: State, events: seq<Event>)
    ensures var log := Only(Actions(s, events), PAUSE_AIRPLAY_ADVERTISING, RESUME_AIRPLAY_ADVERTISING);
            if s == MIRACAST then Alternates(log, RESUME_AIRPLAY_ADVERTISING, PAUSE_AIRPLAY_ADVERTISING)
            else Alternates(log, PAUSE_AIRPLAY_ADVERTISING, RESUME_AIRPLAY_ADVERTISING)
    decreases |events|
  {
    if events != [] {
      hide Only, Actions, Decide;
      var p, q := PAUSE_AIRPLAY_ADVERTISING, RESUME_AIRPLAY_ADVERTISING;
      var next := Decide(s, events[0]).nextState;
      var rest := Only(Actions(next, events[1..]), p, q);
      AirplayAdvertisingAlternates(next, events[1..]);
      OnlyOfRun(s, events, p, q);
      OnlyOfDecision(s, events[0]);
      if s == MIRACAST && next != MIRACAST {
        AlternatesCons(rest, q, p);
      } else if s != MIRACAST && next == MIRACAST {
        AlternatesCons(rest, p, q);
      } else {
        assert [] + rest == rest;
      }
    }
  }

  /** Any session hides the sink from other sources when it starts and shows it again when it ends. */
  lemma {:induction false} DiscoveryAlternates(s: State, events: seq<Event>)
    ensures var log := Only(Actions(s, events), PAUSE_MIRACAST_DISCOVERY, RESUME_MIRACAST_DISCOVERY);
            if s == IDLE then Alternates(log, PAUSE_MIRACAST_DISCOVERY, RESUME_MIRACAST_DISCOVERY)
            else Alternates(log, RESUME_MIRACAST_DISCOVERY, PAUSE_MIRACAST_DISCOVERY)
    decreases |events|
  {
    if events != [] {
      hide Only, Actions, Decide;
      var p, q := PAUSE_MIRACAST_DISCOVERY, RESUME_MIRACAST_DISCOVERY;
      var next := Decide(s, events[0]).nextState;
      var rest := Only(Actions(next, events[1..]), p, q);
      DiscoveryAlternates(next, events[1..]);
      OnlyOfRun(s, events, p, q);
      OnlyOfDecision(s, events[0]);
      if s == IDLE && next != IDLE {
        AlternatesCons(rest, p, q);
      } else if s != IDLE && next == IDLE {
        AlternatesCons(rest, q, p);
      } else {
        assert [] + rest == rest;
      }
    }
  }

  lemma OnlyFrom(log: seq<Action>, k: nat, a: Action, b: Action)
    requires k <= |log|
    ensures Only(log[k..], a, b) ==
              if k == |log| then []
              else (if log[k] == a || log[k] == b then [log[k]] else []) + Only(log[k + 1..], a, b)
  {
    if k < |log| {
      assert log[k..][1..] == log[k + 1..];
    }
  }

  /** Only, spelt out on a short list. */
  lemma OnlyShort(log: seq<Action>, a: Action, b: Action, hit: nat)
    requires hit <= |log| <= 5
    requires forall k | 0 <= k < |log| :: log[k] == a || log[k] == b <==> k == hit
    ensures Only(log, a, b) == if hit == |log| then [] else [log[hit]]
  {
    hide Only;
    assert log[0..] == log;
    OnlyFrom(log, |log|, a, b);
    for i := |log| downto 0
      invariant Only(log[i..], a, b) == if hit < i || hit == |log| then [] else [log[hit]]
    {
      OnlyFrom(log, i, a, b);
    }
  }

  /** What one decision contributes to each pair of actions. */
  lemma OnlyOfDecision(s: State, e: Event)
    ensures var d := Decide(s, e);
            Only(d.actions, PAUSE_AIRPLAY_ADVERTISING, RESUME_AIRPLAY_ADVERTISING) ==
              if s != MIRACAST && d.nextState == MIRACAST then [PAUSE_AIRPLAY_ADVERTISING]
              else if s == MIRACAST && d.nextState != MIRACAST then [RESUME_AIRPLAY_ADVERTISING]
              else []
    ensures var d := Decide(s, e);
            Only(d.actions, PAUSE_MIRACAST_DISCOVERY, RESUME_MIRACAST_DISCOVERY) ==
              if s == IDLE && d.nextState != IDLE then [PAUSE_MIRACAST_DISCOVERY]
              else if s != IDLE && d.nextState == IDLE then [RESUME_MIRACAST_DISCOVERY]
              else []
  {
    hide Only;
    var log := Decide(s, e).actions;
    var advertising :=
      if s == IDLE && e == MIRACAST_CONNECTED then 0
      else if s == MIRACAST && e == MIRACAST_DISCONNECTED then 1
      else if s == MIRACAST && e == WATCHDOG_TIMEOUT then 2
      else |log|;
    var discovery :=
      if s == IDLE && e == MIRACAST_CONNECTED then 1
      else if s == IDLE && e == AIRPLAY_CONNECTED then 0
      else if s == AIRPLAY && e == AIRPLAY_DISCONNECTED then 1
      else if s == AIRPLAY && e == WATCHDOG_TIMEOUT then 2
      else if s == MIRACAST && e == MIRACAST_DISCONNECTED then 2
      else if s == MIRACAST && e == WATCHDOG_TIMEOUT then 3
      else |log|;
    OnlyShort(log, PAUSE_AIRPLAY_ADVERTISING, RESUME_AIRPLAY_ADVERTISING, advertising);
    OnlyShort(log, PAUSE_MIRACAST_DISCOVERY, RESUME_MIRACAST_DISCOVERY, discovery);
  }
}
