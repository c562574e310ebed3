/**
 * castd/stream_watchdog.py: stall detection on the group interface's rx counter, and the
 * runs of castd/main.py's _stream_watch_tick that feed it. Times are real numbers.
 */
module Watchdog {
  import opened Prelude

  datatype Sample = Sample(rx: int, time: real)

  const STALL_WINDOW_S := 10.0
  const MIN_BYTES_PER_SAMPLE := 5000

  // ----- what a history of samples says -----

  /** Sample i shows progress: the first one does, later ones by a large enough increase. */
  predicate IsProgress(h: seq<Sample>, i: nat, minBytes: int)
    requires i < |h|
  {
    i == 0 || h[i].rx - h[i - 1].rx >= minBytes
  }

  /** The latest sample that shows progress. */
  function LastProgress(h: seq<Sample>, minBytes: int): (p: nat)
    requires h != []
    ensures p < |h| && IsProgress(h, p, minBytes)
    ensures forall i | p < i < |h| :: !IsProgress(h, i, minBytes)
  {
    var last := |h| - 1;
    if IsProgress(h, last, minBytes) then last
    else
      var p := LastProgress(h[..last], minBytes);
      assert forall i | 0 <= i < last :: IsProgress(h, i, minBytes) == IsProgress(h[..last], i, minBytes);
      p
  }

  /** The latest sample comes more than the window after the latest progress. */
  predicate Stalled(h: seq<Sample>, minBytes: int, window: real)
    requires h != []
  {
    h[|h| - 1].time - h[LastProgress(h, minBytes)].time > window
  }

  /** What the two fields hold after a history. */
  function LastRx(h: seq<Sample>): Option<int> { if h == [] then None else Some(h[|h| - 1].rx) }

  function ProgressTime(h: seq<Sample>, minBytes: int): Option<real> {
    if h == [] then None else Some(h[LastProgress(h, minBytes)].time)
  }

  class StreamWatchdog {
    const stallWindow: real
    const minBytes: int
    var lastRx: Option<int>
    var lastProgress: Option<real>
    ghost var samples: seq<Sample> // every sample since the last reset

    ghost predicate Valid()
      reads this
    {
      lastRx == LastRx(samples) && lastProgress == ProgressTime(samples, minBytes)
    }

    constructor (stallWindow: real := STALL_WINDOW_S, minBytes: int := MIN_BYTES_PER_SAMPLE)
      ensures Valid() && samples == []
      ensures this.stallWindow == stallWindow && this.minBytes == minBytes
    {
      this.stallWindow := stallWindow;
      this.minBytes := minBytes;
      lastRx := None;
      lastProgress := None;
      samples := [];
    }

    method Reset()
      modifies this
      ensures Valid() && samples == []
    {
      lastRx := None;
      lastProgress := None;
      samples := [];
    }

    /** Exact: true when, and only when, the samples since the reset are stalled. */
    method Observe(rx: int, now: real) returns (trip: bool)
      requires Valid()
      modifies this
      ensures Valid() && samples == old(samples) + [Sample(rx, now)]
      ensures trip <==> |samples| > 1 && Stalled(samples, minBytes, stallWindow)
    {
      ghost var before := samples;
      samples := samples + [Sample(rx, now)];
      assert samples[..|samples| - 1] == before;
      if lastRx.None? {
        lastRx := Some(rx);
        lastProgress := Some(now);
        return false;
      }
      if rx - lastRx.value >= minBytes {
        lastProgress := Some(now);
      }
      lastRx := Some(rx);
      return now - lastProgress.value > stallWindow;
    }
  }

  // ----- latency -----

  predicate Monotone(h: seq<Sample>) { forall i, j | 0 <= i < j < |h| :: h[i].time <= h[j].time }

  predicate GapsAtMost(h: seq<Sample>, d: real) { forall i | 0 < i < |h| :: h[i].time - h[i - 1].time <= d }

  /** Sample k is the first, counting from the start of the history, at which the watchdog trips. */
  predicate FirstTrip(h: seq<Sample>, k: nat, minBytes: int, window: real) {
    && 0 < k < |h| && TripsAt(h, k, minBytes, window)
    && forall i | 0 < i < k :: !TripsAt(h, i, minBytes, window)
  }

  predicate TripsAt(h: seq<Sample>, k: nat, minBytes: int, window: real)
    requires k < |h|
  {
    Stalled(h[..k + 1], minBytes, window)
  }

  lemma LastProgressIs(h: seq<Sample>, p: nat, minBytes: int)
    requires p < |h| && IsProgress(h, p, minBytes)
    requires forall i | p < i < |h| :: !IsProgress(h, i, minBytes)
    ensures LastProgress(h, minBytes) == p
  {
  }

  lemma ProgressOfPrefix(h: seq<Sample>, p: nat, k: nat, minBytes: int)
    requires p <= k < |h| && IsProgress(h, p, minBytes)
    requires forall i | p < i < |h| :: !IsProgress(h, i, minBytes)
    ensures LastProgress(h[..k + 1], minBytes) == p
  {
    var q := h[..k + 1];
    forall i | p < i < |q| ensures !IsProgress(q, i, minBytes) {
      assert !IsProgress(h, i, minBytes);
    }
    LastProgressIs(q, p, minBytes);
  }

  /**
   * A stream that goes flat after sample p trips strictly after the window, and no later than one
   * sample gap past it.
   */
  lemma TripLatency(h: seq<Sample>, p: nat, k: nat, d: real, minBytes: int, window: real)
    requires Monotone(h) && GapsAtMost(h, d) && window >= 0.0
    requires p < |h| && IsProgress(h, p, minBytes)
    requires forall i | p < i < |h| :: !IsProgress(h, i, minBytes)
    requires p < k && FirstTrip(h, k, minBytes, window)
    ensures h[p].time + window < h[k].time <= h[p].time + window + d
  {
    ProgressOfPrefix(h, p, k, minBytes);
    assert h[..k + 1][k] == h[k] && h[..k + 1][p] == h[p];
    if k - 1 > p {
      ProgressOfPrefix(h, p, k - 1, minBytes);
      assert h[..k][k - 1] == h[k - 1] && h[..k][p] == h[p];
      assert !TripsAt(h, k - 1, minBytes, window);
    }
    assert h[k].time - h[k - 1].time <= d;
  }

  /** It does trip, if samples go on past the window. */
  lemma FlatStreamTrips(h: seq<Sample>, p: nat, minBytes: int, window: real)
    requires p < |h| - 1 && IsProgress(h, p, minBytes)
    requires forall i | p < i < |h| :: !IsProgress(h, i, minBytes)
    requires h[|h| - 1].time > h[p].time + window
    ensures Stalled(h, minBytes, window)
  {
    LastProgressIs(h, p, minBytes);
  }

  // ----- runs of ticks -----

  /** What one tick finds: the arbiter, the armed flag, the render process, and the rx sample if readable. */
  datatype Tick = Tick(miracast: bool, expected: bool, running: bool, rx: Option<int>, now: real)

  datatype Trip = NoTrip | RenderDied | StreamStalled

  predicate Observes(t: Tick) { t.miracast && t.expected && t.running && t.rx.Some? }

  /** The samples the watchdog holds after a tick, and the trip it caused. */
  function TickOn(h: seq<Sample>, t: Tick): (r: (seq<Sample>, Trip))
  {
    if !t.miracast then ([], NoTrip)
    else if !t.expected then (h, NoTrip)
    else if !t.running then ([], RenderDied)
    else if t.rx.None? then (h, NoTrip)
    else
      var h' := h + [Sample(t.rx.value, t.now)];
      if |h'| > 1 && Stalled(h', MIN_BYTES_PER_SAMPLE, STALL_WINDOW_S) then ([], StreamStalled) else (h', NoTrip)
  }

  /** The samples held after a run of ticks. */
  function Held(ts: seq<Tick>): (h: seq<Sample>)
  {
    if ts == [] then [] else TickOn(Held(ts[..|ts| - 1]), ts[|ts| - 1]).0
  }

  /** The trip caused by tick k of a run. */
  function TripAt(ts: seq<Tick>, k: nat): Trip
    requires k < |ts|
  {
    TickOn(Held(ts[..k]), ts[k]).1
  }

  /** No tick from `from` on was seen outside MIRACAST or tripped. */
  ghost predicate Quiet(ts: seq<Tick>, from: nat)
  {
    forall i | from <= i < |ts| :: ts[i].miracast && TripAt(ts, i).NoTrip?
  }

  /** `at` lists observing ticks, in order, and `h` their samples. */
  ghost predicate Sampled(ts: seq<Tick>, start: nat, at: seq<nat>, h: seq<Sample>) {
    && |at| == |h|
    && (forall m | 0 <= m < |at| :: start <= at[m] < |ts| && Observes(ts[at[m]])
                                    && h[m] == Sample(ts[at[m]].rx.value, ts[at[m]].now))
    && (forall m, n | 0 <= m < n < |at| :: at[m] < at[n])
  }

  /** `at` misses no observing tick from `start` on. */
  ghost predicate Covers(ts: seq<Tick>, start: nat, at: seq<nat>) {
    forall i | start <= i < |ts| && Observes(ts[i]) :: i in at
  }

  /** Nothing is held from before `start`: the run began there, or the tick before it reset the samples. */
  predicate Fresh(ts: seq<Tick>, start: nat) {
    start == 0 || (start <= |ts| && !(ts[start - 1].miracast && TripAt(ts, start - 1).NoTrip?))
  }

  /** The samples held come from the observing ticks since `start`, one each, in order. */
  ghost predicate HeldSince(ts: seq<Tick>, start: nat, at: seq<nat>) {
    start <= |ts| && Fresh(ts, start) && Quiet(ts, start) && Sampled(ts, start, at, Held(ts)) && Covers(ts, start, at)
  }

  lemma FreshSnoc(ts: seq<Tick>, n: nat, start: nat)
    requires |ts| == n + 1 && start <= n && Fresh(ts[..n], start)
    ensures Fresh(ts, start)
  {
    if start > 0 {
      TripAtPrefix(ts, n, start - 1);
    }
  }

  lemma QuietSnoc(ts: seq<Tick>, n: nat, from: nat)
    requires |ts| == n + 1 && Quiet(ts[..n], from) && ts[n].miracast && TripAt(ts, n).NoTrip?
    ensures Quiet(ts, from)
  {
    forall i | from <= i < |ts| ensures ts[i].miracast && TripAt(ts, i).NoTrip? {
      if i < n {
        assert ts[..n][..i] == ts[..i];
        assert ts[..n][i].miracast && TripAt(ts[..n], i).NoTrip?;
      }
    }
  }

  lemma SampledSnoc(ts: seq<Tick>, n: nat, start: nat, at: seq<nat>, h: seq<Sample>)
    requires |ts| == n + 1 && start <= n && Sampled(ts[..n], start, at, h)
    ensures Sampled(ts, start, at, h)
    ensures Observes(ts[n]) ==> Sampled(ts, start, at + [n], h + [Sample(ts[n].rx.value, ts[n].now)])
  {
    forall m | 0 <= m < |at| ensures start <= at[m] < n && ts[at[m]] == ts[..n][at[m]] {
      assert Observes(ts[..n][at[m]]);
    }
  }

  lemma CoversSnoc(ts: seq<Tick>, n: nat, start: nat, at: seq<nat>)
    requires |ts| == n + 1 && Covers(ts[..n], start, at)
    ensures Covers(ts, start, if Observes(ts[n]) then at + [n] else at)
  {
    var at' := if Observes(ts[n]) then at + [n] else at;
    forall i | start <= i < |ts| && Observes(ts[i]) ensures i in at' {
      if i < n {
        assert Observes(ts[..n][i]);
      } else {
        assert at'[|at|] == n;
      }
    }
  }

  /** What one more tick does to the samples held. */
  lemma HeldSnoc(ts: seq<Tick>, n: nat)
    requires |ts| == n + 1
    ensures var before := Held(ts[..n]);
            Held(ts) == if ts[n].miracast && TripAt(ts, n).NoTrip?
                        then before + (if Observes(ts[n]) then [Sample(ts[n].rx.value, ts[n].now)] else [])
                        else []
  {
    hide Stalled;
    assert Held(ts[..n]) + [] == Held(ts[..n]);
  }

  /** Where the samples held after a run come from. */
  lemma {:induction false} HeldFrom(ts: seq<Tick>) returns (start: nat, at: seq<nat>)
    ensures HeldSince(ts, start, at)
  {
    if ts == [] {
      NothingHeld(ts);
      return 0, [];
    }
    hide Stalled, Sampled, Covers, Quiet, Fresh, Held, TickOn;
    var n := |ts| - 1;
    HeldSnoc(ts, n);
    assert Held(ts[..n]) + [] == Held(ts[..n]);
    start, at := HeldFrom(ts[..n]);
    if ts[n].miracast && TripAt(ts, n).NoTrip? {
      FreshSnoc(ts, n, start);
      QuietSnoc(ts, n, start);
      SampledSnoc(ts, n, start, at, Held(ts[..n]));
      CoversSnoc(ts, n, start, at);
      if Observes(ts[n]) {
        at := at + [n];
      }
    } else {
      start, at := n + 1, [];
      NothingHeld(ts);
      FreshEnd(ts);
    }
  }

  lemma FreshEnd(ts: seq<Tick>)
    requires ts != [] && !(ts[|ts| - 1].miracast && TripAt(ts, |ts| - 1).NoTrip?)
    ensures Fresh(ts, |ts|)
  {
  }

  lemma NothingHeld(ts: seq<Tick>)
    ensures Quiet(ts, |ts|) && Sampled(ts, |ts|, [], []) && Covers(ts, |ts|, [])
  {
  }

  /** Two observing ticks with none in between. */
  predicate Consecutive(ts: seq<Tick>, a: nat, b: nat) {
    && a < b < |ts| && Observes(ts[a]) && Observes(ts[b])
    && forall i | a < i < b :: !Observes(ts[i])
  }

  /**
   * Tick j justifies a stall trip at tick k: both were sampled, more than the window apart; every
   * tick from j up to k was seen in MIRACAST and none of them tripped; and from j on, no two
   * consecutive samples up to k differ by the minimum.
   */
  ghost predicate Justifies(ts: seq<Tick>, j: nat, k: nat) {
    && j < k < |ts| && Observes(ts[j]) && Observes(ts[k])
    && ts[k].now - ts[j].now > 10.0
    && (forall i | j <= i < k :: ts[i].miracast && TripAt(ts, i).NoTrip?)
    && (forall a, b | j <= a < b <= k && Consecutive(ts, a, b) ::
          ts[b].rx.value - ts[a].rx.value < 5000)
  }

  /** Consecutive samples are neighbours in the list of observing ticks. */
  lemma NeighboursInList(ts: seq<Tick>, start: nat, at: seq<nat>, h: seq<Sample>, a: nat, b: nat) returns (m: nat)
    requires Sampled(ts, start, at, h) && Covers(ts, start, at) && start <= a && Consecutive(ts, a, b)
    ensures m + 1 < |at| && at[m] == a && at[m + 1] == b
  {
    assert a in at && b in at;
    m :| 0 <= m < |at| && at[m] == a;
    var n :| 0 <= n < |at| && at[n] == b;
    assert m < n;
    assert a < at[m + 1] <= b && Observes(ts[at[m + 1]]);
  }

  /** After the latest progress of the samples, consecutive samples stay below the minimum. */
  lemma SmallIncreases(ts: seq<Tick>, start: nat, at: seq<nat>, h: seq<Sample>, a: nat, b: nat)
    requires Sampled(ts, start, at, h) && Covers(ts, start, at) && h != []
    requires at[LastProgress(h, MIN_BYTES_PER_SAMPLE)] <= a && Consecutive(ts, a, b)
    ensures ts[b].rx.value - ts[a].rx.value < MIN_BYTES_PER_SAMPLE
  {
    var p := LastProgress(h, MIN_BYTES_PER_SAMPLE);
    var m := NeighboursInList(ts, start, at, h, a, b);
    assert forall q | 0 <= q <= p :: at[q] <= at[p];
    assert p < m + 1;
    assert !IsProgress(h, m + 1, MIN_BYTES_PER_SAMPLE);
  }

  lemma ConsecutivePrefix(ts: seq<Tick>, n: nat, a: nat, b: nat)
    requires b < n <= |ts| && Consecutive(ts, a, b)
    ensures Consecutive(ts[..n], a, b)
  {
  }

  /** The samples a stall trip was decided on. */
  lemma StallSamples(ts: seq<Tick>, k: nat) returns (start: nat, at: seq<nat>, h: seq<Sample>)
    requires k < |ts| && TripAt(ts, k).StreamStalled?
    ensures start <= k && Quiet(ts[..k], start)
    ensures Sampled(ts[..k + 1], start, at, h) && Covers(ts[..k + 1], start, at)
    ensures h != [] && Stalled(h, MIN_BYTES_PER_SAMPLE, STALL_WINDOW_S) && at[|at| - 1] == k
  {
    hide Sampled, Covers, Quiet, Stalled, Held;
    var run := ts[..k + 1];
    start, at := HeldFrom(ts[..k]);
    assert run[..k] == ts[..k];
    SampledSnoc(run, k, start, at, Held(ts[..k]));
    CoversSnoc(run, k, start, at);
    h := Held(ts[..k]) + [Sample(ts[k].rx.value, ts[k].now)];
    at := at + [k];
  }

  /** Every stall trip, on every run of ticks, is justified by an earlier tick. */
  lemma StallTripJustified(ts: seq<Tick>, k: nat) returns (j: nat)
    requires k < |ts| && TripAt(ts, k).StreamStalled?
    ensures Justifies(ts, j, k)
  {
    var start, at, h := StallSamples(ts, k);
    assert Sampled(ts[..k + 1], start, at, h);
    var p := LastProgress(h, MIN_BYTES_PER_SAMPLE);
    j := at[p];
    hide Stalled, Held, Covers, Consecutive, Sampled;
    StallEnds(ts[..k + 1], start, at, h, p, k);
    forall i | j <= i < k ensures ts[i].miracast && TripAt(ts, i).NoTrip? {
      TripAtPrefix(ts, k, i);
      assert ts[..k][i].miracast && TripAt(ts[..k], i).NoTrip?;
    }
    forall a, b | j <= a < b <= k && Consecutive(ts, a, b)
      ensures ts[b].rx.value - ts[a].rx.value < MIN_BYTES_PER_SAMPLE
    {
      ConsecutivePrefix(ts, k + 1, a, b);
      SmallIncreases(ts[..k + 1], start, at, h, a, b);
    }
  }

  lemma TripAtPrefix(ts: seq<Tick>, n: nat, i: nat)
    requires i < n <= |ts|
    ensures TripAt(ts[..n], i) == TripAt(ts, i)
  {
    assert ts[..n][..i] == ts[..i];
  }

  /** The two ends of a stall: the latest progress and the tick that trips. */
  lemma StallEnds(run: seq<Tick>, start: nat, at: seq<nat>, h: seq<Sample>, p: nat, k: nat)
    requires Sampled(run, start, at, h) && |run| == k + 1 && h != [] && at[|at| - 1] == k
    requires p == LastProgress(h, MIN_BYTES_PER_SAMPLE) && Stalled(h, MIN_BYTES_PER_SAMPLE, STALL_WINDOW_S)
    ensures start <= at[p] < k && Observes(run[at[p]]) && Observes(run[k])
    ensures run[k].now - run[at[p]].now > STALL_WINDOW_S
  {
    assert h[p].time == run[at[p]].now;
    assert h[|h| - 1].time == run[k].now;
    assert p < |h| - 1;
  }

  predicate ClockMonotone(ts: seq<Tick>) { forall a, b | 0 <= a < b < |ts| :: ts[a].now <= ts[b].now }

  /** The samples that tick k decides on, if it observes. */
  lemma DecidedOn(ts: seq<Tick>, k: nat) returns (start: nat, at: seq<nat>, h: seq<Sample>)
    requires k < |ts| && Observes(ts[k])
    ensures start <= k && Fresh(ts[..k], start) && Sampled(ts[..k + 1], start, at, h) && Covers(ts[..k + 1], start, at)
    ensures h == Held(ts[..k]) + [Sample(ts[k].rx.value, ts[k].now)] && at[|at| - 1] == k
  {
    hide Sampled, Covers, Quiet, Stalled, Held, Fresh;
    var run := ts[..k + 1];
    start, at := HeldFrom(ts[..k]);
    assert run[..k] == ts[..k];
    SampledSnoc(run, k, start, at, Held(ts[..k]));
    CoversSnoc(run, k, start, at);
    SampledLength(ts[..k], start, at, Held(ts[..k]));
    h := Held(ts[..k]) + [Sample(ts[k].rx.value, ts[k].now)];
    at := at + [k];
  }

  lemma SampledLength(ts: seq<Tick>, start: nat, at: seq<nat>, h: seq<Sample>)
    requires Sampled(ts, start, at, h)
    ensures |at| == |h|
  {
  }

  /** A tick that justifies a stall is still among the samples, and they have stalled. */
  lemma JustifiedStalls(ts: seq<Tick>, j: nat, k: nat, start: nat, at: seq<nat>, h: seq<Sample>)
    requires ClockMonotone(ts) && Justifies(ts, j, k)
    requires start <= k && Fresh(ts[..k], start) && Sampled(ts[..k + 1], start, at, h) && Covers(ts[..k + 1], start, at)
    requires h != [] && at[|at| - 1] == k
    ensures |h| > 1 && Stalled(h, 5000, 10.0)
  {
    FreshBefore(ts, j, k, start);
    var m := Listed(ts[..k + 1], start, at, h, j);
    hide Covers, Fresh, Consecutive, TripAt;
    forall q | m < q < |h| ensures !IsProgress(h, q, 5000) {
      StepIsSmall(ts, j, k, start, at, h, m, q);
    }
    var p := LastProgress(h, 5000);
    assert p <= m;
    assert h[p].time == ts[at[p]].now && h[m].time == ts[j].now && h[|h| - 1].time == ts[k].now;
    assert p < m ==> at[p] < at[m];
  }

  lemma Listed(run: seq<Tick>, start: nat, at: seq<nat>, h: seq<Sample>, j: nat) returns (m: nat)
    requires Sampled(run, start, at, h) && Covers(run, start, at) && start <= j < |run| && Observes(run[j])
    ensures m < |at| && at[m] == j
  {
    assert j in at;
    m :| 0 <= m < |at| && at[m] == j;
  }

  lemma FreshBefore(ts: seq<Tick>, j: nat, k: nat, start: nat)
    requires Justifies(ts, j, k) && start <= k && Fresh(ts[..k], start)
    ensures start <= j
  {
    if start > j {
      TripAtPrefix(ts, k, start - 1);
    }
  }

  /** Neighbouring samples are consecutive observing ticks. */
  lemma ListedConsecutive(ts: seq<Tick>, k: nat, start: nat, at: seq<nat>, h: seq<Sample>, q: nat)
    requires k < |ts| && Sampled(ts[..k + 1], start, at, h) && Covers(ts[..k + 1], start, at) && 0 < q < |h|
    ensures at[q] <= k && Consecutive(ts, at[q - 1], at[q])
    ensures h[q - 1].rx == ts[at[q - 1]].rx.value && h[q].rx == ts[at[q]].rx.value
  {
    var run := ts[..k + 1];
    var a, b := at[q - 1], at[q];
    forall n | 0 <= n < |at| ensures at[n] <= a || at[n] >= b {
      assert n < q - 1 ==> at[n] < at[q - 1];
      assert n > q ==> at[n] > at[q];
    }
    assert Observes(run[a]) && Observes(run[b]);
    forall i | a < i < b ensures !Observes(ts[i]) {
      assert Observes(run[i]) ==> i in at;
    }
  }

  lemma StepIsSmall(ts: seq<Tick>, j: nat, k: nat, start: nat, at: seq<nat>, h: seq<Sample>, m: nat, q: nat)
    requires Justifies(ts, j, k)
    requires Sampled(ts[..k + 1], start, at, h) && Covers(ts[..k + 1], start, at)
    requires m < q < |h| && at[m] == j
    ensures !IsProgress(h, q, 5000)
  {
    ListedConsecutive(ts, k, start, at, h, q);
    assert j <= at[q - 1] by { assert m < q - 1 ==> at[m] < at[q - 1]; }
    hide Sampled, Covers, Consecutive;
  }

  /**
   * Exact: on a clock that never runs backwards, a tick trips on a stall if and only if some
   * earlier tick justifies it.
   */
  lemma StallTripsIff(ts: seq<Tick>, k: nat)
    requires k < |ts| && ClockMonotone(ts)
    ensures TripAt(ts, k).StreamStalled? <==> exists j :: Justifies(ts, j, k)
  {
    if TripAt(ts, k).StreamStalled? {
      var j := StallTripJustified(ts, k);
    }
    if j :| Justifies(ts, j, k) {
      var start, at, h := DecidedOn(ts, k);
      JustifiedStalls(ts, j, k, start, at, h);
      hide Stalled, Held;
      assert MIN_BYTES_PER_SAMPLE == 5000 && STALL_WINDOW_S == 10.0;
    }
  }

  /** Tick p shows progress: it is sampled, and either nothing is held from before or the counter has moved enough. */
  predicate ShowsProgress(ts: seq<Tick>, p: nat) {
    && p < |ts| && Observes(ts[p])
    && forall a | 0 <= a < p && Consecutive(ts, a, p) ::
         ts[p].rx.value - ts[a].rx.value >= 5000 || exists i :: a <= i < p && !(ts[i].miracast && TripAt(ts, i).NoTrip?)
  }

  /** Nothing after tick p, up to tick k, shows that the stream is alive or ends the session. */
  predicate FlatAfter(ts: seq<Tick>, p: nat, k: nat) {
    && p < k < |ts|
    && (forall i | p <= i < k :: ts[i].miracast && (ts[i].expected ==> ts[i].running))
    && (forall a, b | p <= a < b <= k && Consecutive(ts, a, b) :: ts[b].rx.value - ts[a].rx.value < 5000)
  }

  /** The last observing tick before p, if there is one. */
  lemma PreviousObserving(ts: seq<Tick>, j: nat, p: nat) returns (a: nat)
    requires j < p < |ts| && Observes(ts[j]) && Observes(ts[p])
    ensures j <= a < p && Consecutive(ts, a, p)
    decreases p - j
  {
    if i :| j < i < p && Observes(ts[i]) {
      a := PreviousObserving(ts, i, p);
    } else {
      a := j;
    }
  }

  /** No tick from p on trips while fewer than ten seconds have passed. */
  lemma NoTripWithin(ts: seq<Tick>, p: nat, k: nat, i: nat)
    requires ClockMonotone(ts) && ShowsProgress(ts, p) && FlatAfter(ts, p, k)
    requires p <= i < k && (Observes(ts[i]) ==> ts[i].now <= ts[p].now + 10.0)
    ensures TripAt(ts, i).NoTrip?
  {
    if TripAt(ts, i).StreamStalled? {
      var j := StallTripJustified(ts, i);
      assert Observes(ts[i]);
      if j < p {
        var a := PreviousObserving(ts, j, p);
      }
    }
  }

  /**
   * A stream that goes flat after tick p trips at the first sampled tick more than ten seconds
   * later: no tick before it trips, and if samples come at most d seconds apart, it comes no more
   * than d seconds after the ten.
   */
  lemma FlatlineTripsInTime(ts: seq<Tick>, p: nat, k: nat, d: real)
    requires ClockMonotone(ts) && ShowsProgress(ts, p) && FlatAfter(ts, p, k)
    requires Observes(ts[k]) && ts[k].now > ts[p].now + 10.0
    requires forall i | p < i < k && Observes(ts[i]) :: ts[i].now <= ts[p].now + 10.0
    requires forall a, b | p <= a < b <= k && Consecutive(ts, a, b) :: ts[b].now - ts[a].now <= d
    ensures TripAt(ts, k).StreamStalled?
    ensures forall i | p <= i < k :: TripAt(ts, i).NoTrip?
    ensures ts[p].now + 10.0 < ts[k].now <= ts[p].now + 10.0 + d
  {
    forall i | p <= i < k ensures TripAt(ts, i).NoTrip? {
      NoTripWithin(ts, p, k, i);
    }
    assert Justifies(ts, p, k);
    StallTripsIff(ts, k);
    var a := PreviousObserving(ts, p, k);
  }

  /** On a clock that never runs backwards, two stall trips are more than the window apart. */
  lemma StallTripsApart(ts: seq<Tick>, k: nat, l: nat)
    requires k < l < |ts| && TripAt(ts, k).StreamStalled? && TripAt(ts, l).StreamStalled?
    requires forall a, b | 0 <= a < b < |ts| :: ts[a].now <= ts[b].now
    ensures ts[l].now - ts[k].now > STALL_WINDOW_S
  {
    var j := StallTripJustified(ts, l);
  }
}
