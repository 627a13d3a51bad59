/** The AMF's retransmission timer: a loop that waits for a tick or for `Stop`, and the UE's fields that hold one. */
module Timers {

  /** A call that the loop makes. */
  datatype Call = Expired(times: int) | Cancelled

  /** What can happen next: the loop takes a tick, the loop takes the stop message, or a user calls `Stop`. */
  datatype Step = Tick | TakeDone | Stop

  /** A timer: `sent` says that `done` holds a message, `closed` that it was closed; `panicked` that a send found it so. */
  datatype State = State(expireTimes: int, running: bool, sent: bool, closed: bool, panicked: bool, calls: seq<Call>)

  const NEW: State := State(0, true, false, false, false, [])

  /** One step of a timer with `max` retries; a step that cannot happen changes nothing. */
  function Next(t: State, max: int, s: Step): State {
    match s
    case Tick =>
      if !t.running then t
      else if t.expireTimes + 1 > max then
        t.(expireTimes := t.expireTimes + 1, running := false, calls := t.calls + [Cancelled])
      else t.(expireTimes := t.expireTimes + 1, calls := t.calls + [Expired(t.expireTimes + 1)])
    case TakeDone =>
      if t.running && (t.sent || t.closed) then t.(running := false, sent := false) else t
    case Stop =>
      if t.closed then t.(panicked := true) else t.(sent := true, closed := true)
  }

  function Run(max: int, steps: seq<Step>): State {
    if steps == [] then NEW else Next(Run(max, steps[..|steps| - 1]), max, steps[|steps| - 1])
  }

  /** `1, 2, ..., k`. */
  function Expiries(k: nat): seq<Call> { seq(k, n => Expired(n + 1)) }

  /** The retries a timer makes before it cancels. */
  function Limit(max: int): nat { if max < 0 then 0 else max }

  function Stops(steps: seq<Step>): nat {
    if steps == [] then 0 else Stops(steps[..|steps| - 1]) + (if steps[|steps| - 1] == Stop then 1 else 0)
  }

  /** The calls are the first `k` expiries, or all of them and the cancellation. */
  ghost predicate Ordered(t: State, max: int, k: nat) {
    k <= Limit(max) &&
    (|| (t.calls == Expiries(k) && t.expireTimes == k)
     || (k == Limit(max) && t.calls == Expiries(k) + [Cancelled] && !t.running))
  }

  lemma {:induction false} StepOrdered(t: State, max: int, s: Step, k: nat)
    requires Ordered(t, max, k)
    ensures exists k': nat :: Ordered(Next(t, max, s), max, k')
  {
    var n := Next(t, max, s);
    if t.running && s == Tick && k < Limit(max) {
      assert Expiries(k) + [Expired(k + 1)] == Expiries(k + 1);
      assert Ordered(n, max, k + 1);
    } else {
      assert Ordered(n, max, k);
    }
  }

  /** In every interleaving of ticks and stops, the expiries are 1, 2, ..., k with k at most the limit; cancelling comes
      once, last, and after exactly the limit. */
  lemma {:induction false} CallsInOrder(max: int, steps: seq<Step>)
    ensures exists k: nat :: Ordered(Run(max, steps), max, k)
    decreases |steps|
  {
    hide Ordered;
    if steps == [] {
      NewOrdered(max);
      assert Run(max, steps) == NEW;
    } else {
      CallsInOrder(max, steps[..|steps| - 1]);
      var t := Run(max, steps[..|steps| - 1]);
      var k: nat :| Ordered(t, max, k);
      StepOrdered(t, max, steps[|steps| - 1], k);
      assert Run(max, steps) == Next(t, max, steps[|steps| - 1]);
    }
  }

  lemma {:induction false} NewOrdered(max: int)
    ensures Ordered(NEW, max, 0)
  {
    assert Expiries(0) == [];
  }

  /** Once the loop has exited nothing is called any more. */
  lemma {:induction false} QuietAfterExit(max: int, steps: seq<Step>, more: seq<Step>)
    requires !Run(max, steps).running
    ensures !Run(max, steps + more).running && Run(max, steps + more).calls == Run(max, steps).calls
    decreases |more|
  {
    if more == [] {
      assert steps + more == steps;
    } else {
      var before := more[..|more| - 1];
      assert steps + more == (steps + before) + [more[|more| - 1]];
      assert (steps + more)[..|steps + more| - 1] == steps + before;
      QuietAfterExit(max, steps, before);
    }
  }

  /** `Stop` panics exactly when it is called twice. */
  lemma {:induction false} StopOnce(max: int, steps: seq<Step>)
    ensures Run(max, steps).panicked <==> Stops(steps) >= 2
    ensures Run(max, steps).closed <==> Stops(steps) >= 1
    decreases |steps|
  {
    if steps != [] {
      StopOnce(max, steps[..|steps| - 1]);
    }
  }

  lemma {:induction false} RunLast(max: int, steps: seq<Step>, s: Step)
    ensures Run(max, steps + [s]) == Next(Run(max, steps), max, s)
    ensures Stops(steps + [s]) == Stops(steps) + (if s == Stop then 1 else 0)
  {
    assert (steps + [s])[..|steps|] == steps;
  }

  /** The steps that follow a state, from the first one on. */
  function Onward(t: State, max: int, steps: seq<Step>): State
    decreases |steps|
  {
    if steps == [] then t else Onward(Next(t, max, steps[0]), max, steps[1..])
  }

  lemma {:induction false} RunSplit(max: int, steps: seq<Step>, more: seq<Step>)
    ensures Run(max, steps + more) == Onward(Run(max, steps), max, more)
    decreases |more|
  {
    if more == [] {
      assert steps + more == steps;
    } else {
      RunLast(max, steps, more[0]);
      RunSplit(max, steps + [more[0]], more[1..]);
      assert steps + [more[0]] + more[1..] == steps + more;
    }
  }

  /** A tick is taken before the stop message. */
  predicate TickFirst(steps: seq<Step>) {
    steps != [] && (steps[0] == Tick || (steps[0] == Stop && TickFirst(steps[1..])))
  }

  lemma {:induction false} ExitedStays(t: State, max: int, steps: seq<Step>)
    requires !t.running
    ensures Onward(t, max, steps).calls == t.calls
    decreases |steps|
  {
    if steps != [] {
      ExitedStays(Next(t, max, steps[0]), max, steps[1..]);
    }
  }

  lemma {:induction false} CallsGrow(t: State, max: int, steps: seq<Step>)
    ensures |Onward(t, max, steps).calls| >= |t.calls|
    decreases |steps|
  {
    if steps != [] {
      CallsGrow(Next(t, max, steps[0]), max, steps[1..]);
    }
  }

  lemma {:induction false} ClosedCalls(t: State, max: int, steps: seq<Step>)
    requires t.closed
    ensures Onward(t, max, steps).calls != t.calls <==> t.running && TickFirst(steps)
    decreases |steps|
  {
    if !t.running {
      ExitedStays(t, max, steps);
    } else if steps != [] {
      var n := Next(t, max, steps[0]);
      match steps[0]
      case Tick => CallsGrow(n, max, steps[1..]);
      case TakeDone => ExitedStays(n, max, steps[1..]);
      case Stop => ClosedCalls(n, max, steps[1..]);
    }
  }

  /** `Stop` does not rule out further calls by itself: one follows exactly when the loop is running and takes a tick
      before it takes the message. */
  lemma {:induction false} CallsAfterStop(max: int, steps: seq<Step>, more: seq<Step>)
    ensures Run(max, steps + [Stop] + more).calls != Run(max, steps).calls <==> Run(max, steps).running && TickFirst(more)
  {
    RunLast(max, steps, Stop);
    RunSplit(max, steps + [Stop], more);
    ClosedCalls(Run(max, steps + [Stop]), max, more);
  }

  // ---- What a timer has called, exactly ----

  /** The loop has taken the stop message: a `TakeDone` came after a `Stop`. */
  predicate Heard(steps: seq<Step>) {
    steps != [] &&
    (Heard(steps[..|steps| - 1]) || (steps[|steps| - 1] == TakeDone && Stop in steps[..|steps| - 1]))
  }

  /** The ticks before that. */
  function Ticks(steps: seq<Step>): nat {
    if steps == [] then 0
    else
      var before := steps[..|steps| - 1];
      Ticks(before) + (if steps[|steps| - 1] == Tick && !Heard(before) then 1 else 0)
  }

  /** After n ticks: n expiries, or all of them and the cancellation. */
  function CallsOf(limit: nat, n: nat): seq<Call> {
    if n <= limit then Expiries(n) else Expiries(limit) + [Cancelled]
  }

  /** In every interleaving the calls are those of the ticks that came before the loop took a stop message, and the loop
      still runs exactly if it has taken none and not cancelled. */
  lemma {:induction false} CallsExactly(max: int, steps: seq<Step>)
    ensures Run(max, steps).calls == CallsOf(Limit(max), Ticks(steps))
    ensures Run(max, steps).running <==> !Heard(steps) && Ticks(steps) <= Limit(max)
    ensures Run(max, steps).running ==> Run(max, steps).expireTimes == Ticks(steps)
    decreases |steps|
  {
    if steps == [] {
      assert Expiries(0) == [];
    } else {
      var before := steps[..|steps| - 1];
      CallsExactly(max, before);
      SentOrClosed(max, before);
      var n := Ticks(before);
      if steps[|steps| - 1] == Tick && !Heard(before) && n < Limit(max) {
        assert Expiries(n) + [Expired(n + 1)] == Expiries(n + 1);
      }
    }
  }

  lemma {:induction false} SentOrClosed(max: int, steps: seq<Step>)
    ensures Run(max, steps).closed <==> Stop in steps
    ensures Run(max, steps).sent ==> Run(max, steps).closed
    decreases |steps|
  {
    if steps != [] {
      var before := steps[..|steps| - 1];
      SentOrClosed(max, before);
      assert steps == before + [steps[|steps| - 1]];
    }
  }

  /** A timer that nobody stops calls at every tick, up to the limit and the cancellation. */
  lemma {:induction false} CallsUnstopped(max: int, n: nat)
    ensures Run(max, seq(n, k => Tick)).calls == CallsOf(Limit(max), n)
  {
    CallsExactly(max, seq(n, k => Tick));
    OnlyTicks(n);
  }

  lemma {:induction false} OnlyTicks(n: nat)
    ensures Ticks(seq(n, k => Tick)) == n && !Heard(seq(n, k => Tick))
  {
    if n > 0 {
      OnlyTicks(n - 1);
      assert seq(n, k => Tick)[..n - 1] == seq(n - 1, k => Tick);
    }
  }

  /** The timer object, which the loop and its users update. */
  class Timer {
    const maxRetryTimes: int
    var expireTimes: int
    var running: bool
    var sent: bool
    var closed: bool
    var panicked: bool
    ghost var calls: seq<Call>
    /** What has happened to it. */
    ghost var steps: seq<Step>

    ghost function Snap(): State
      reads this
    {
      State(expireTimes, running, sent, closed, panicked, calls)
    }

    /** The timer is where its steps have led it. */
    ghost predicate Valid()
      reads this
    {
      Snap() == Run(maxRetryTimes, steps)
    }

    constructor (maxRetryTimes: int)
      ensures this.maxRetryTimes == maxRetryTimes && Valid() && steps == []
    {
      this.maxRetryTimes := maxRetryTimes;
      expireTimes, running, sent, closed, panicked, calls, steps := 0, true, false, false, false, [], [];
    }

    /** One round of the loop: `tick` says which of the channels the select took. */
    method Round(tick: bool)
      requires Valid() && running && (tick || sent || closed)
      modifies this
      ensures Valid() && steps == old(steps) + [if tick then Tick else TakeDone]
      ensures closed == old(closed) && panicked == old(panicked)
    {
      Select(tick);
      steps := steps + [if tick then Tick else TakeDone];
      RunLast(maxRetryTimes, old(steps), if tick then Tick else TakeDone);
    }

    /** The body of the loop. */
    method Select(tick: bool)
      requires running && (tick || sent || closed)
      modifies this`expireTimes, this`running, this`sent, this`calls
      ensures Snap() == Next(old(Snap()), maxRetryTimes, if tick then Tick else TakeDone)
    {
      if tick {
        expireTimes := expireTimes + 1;
        if expireTimes > maxRetryTimes {
          calls := calls + [Cancelled];
          running := false;
        } else {
          calls := calls + [Expired(expireTimes)];
        }
      } else {
        sent, running := false, false;
      }
    }

    method Stop()
      requires Valid()
      modifies this
      ensures Valid() && steps == old(steps) + [Step.Stop] && closed && (panicked <==> old(panicked) || old(closed))
    {
      if closed {
        panicked := true;
      } else {
        sent, closed := true, true;
      }
      steps := steps + [Step.Stop];
      RunLast(maxRetryTimes, old(steps), Step.Stop);
    }
  }

  /** The timers of a UE, by name (T3513, T3522, ...). */
  class AmfUe {
    var timers: map<int, Timer>
    /** Every timer this UE ever started; each has a loop of its own. */
    var started: set<Timer>

    /** A timer that a field holds was never stopped, no two fields hold the same one, and none has panicked. */
    ghost predicate Valid()
      reads this, started
    {
      && (forall n :: n in timers ==> timers[n] in started && !timers[n].closed)
      && (forall n, m :: n in timers && m in timers && timers[n] == timers[m] ==> n == m)
      && (forall t :: t in started ==> t.Valid() && !t.panicked)
    }

    constructor ()
      ensures Valid() && timers == map[] && started == {}
    {
      timers, started := map[], {};
    }

    /** Starting a procedure overwrites the field; the old timer, if any, goes on by itself. */
    method Start(n: int, maxRetryTimes: int)
      requires Valid()
      modifies this
      ensures Valid() && n in timers && fresh(timers[n]) && timers == old(timers)[n := timers[n]]
      ensures started == old(started) + {timers[n]}
      ensures timers[n].maxRetryTimes == maxRetryTimes && timers[n].steps == []
    {
      var t := new Timer(maxRetryTimes);
      timers := timers[n := t];
      started := started + {t};
    }

    /** `StopT35xx`: stops the timer of the field, if there is one, and clears the field. */
    method StopTimer(n: int)
      requires Valid()
      modifies this, if n in timers then {timers[n]} else {}
      ensures Valid() && timers == old(timers) - {n} && started == old(started)
      ensures old(n in timers) ==> old(timers[n]).closed && old(timers[n]).steps == old(timers[n].steps) + [Step.Stop]
    {
      if n in timers {
        timers[n].Stop();
        timers := timers - {n};
      }
    }

    /** A cancel function that clears its field. */
    method Clear(n: int)
      requires Valid()
      modifies this
      ensures Valid() && timers == old(timers) - {n} && started == old(started)
    {
      timers := timers - {n};
    }

    /** A round of a timer's loop leaves the UE as it is. */
    method Round(t: Timer, tick: bool)
      requires Valid() && t in started && t.running && (tick || t.sent || t.closed)
      modifies t
      ensures Valid() && timers == old(timers) && started == old(started)
      ensures t.steps == old(t.steps) + [if tick then Tick else TakeDone]
    {
      t.Round(tick);
    }
  }

  // ---- Runs of a UE's timers ----

  datatype Act =
    | StartTimer(name: int, maxRetryTimes: int)
    | StopField(name: int)
    | ClearField(name: int)
    | LoopRound(timer: Timer, tick: bool)

  method Take(ue: AmfUe, act: Act)
    requires ue.Valid()
    modifies ue, ue.started
    ensures ue.Valid() && old(ue.started) <= ue.started && fresh(ue.started - old(ue.started))
  {
    match act
    case StartTimer(n, max) => ue.Start(n, max);
    case StopField(n) => ue.StopTimer(n);
    case ClearField(n) => ue.Clear(n);
    case LoopRound(t, tick) =>
      if t in ue.started && t.running && (tick || t.sent || t.closed) {
        ue.Round(t, tick);
      }
  }

  /** Whatever is started, stopped, cleared or ticks, in whatever order, no timer is ever stopped twice, and the calls of
      every one are those of its ticks. */
  method RunAll(ue: AmfUe, acts: seq<Act>)
    requires ue.Valid()
    modifies ue, ue.started
    ensures ue.Valid()
    ensures forall t :: t in ue.started ==> Stops(t.steps) <= 1 && t.calls == CallsOf(Limit(t.maxRetryTimes), Ticks(t.steps))
  {
    for i := 0 to |acts|
      invariant ue.Valid() && old(ue.started) <= ue.started && fresh(ue.started - old(ue.started))
    {
      Take(ue, acts[i]);
    }
    forall t | t in ue.started
      ensures Stops(t.steps) <= 1 && t.calls == CallsOf(Limit(t.maxRetryTimes), Ticks(t.steps))
    {
      StopOnce(t.maxRetryTimes, t.steps);
      CallsExactly(t.maxRetryTimes, t.steps);
    }
  }
}
