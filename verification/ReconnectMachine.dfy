/**
  The event stream that heals itself (apps/web/lib/resilient-event-source.ts).

  A stream is one EventSource, with the readyState of section 9.2 of the HTML Living Standard; a
  closed stream fires no further events. The steps are what the browser does to a stream, a timer
  or the watchdog firing, the `online` event, and the caller's close. The status callback may
  itself call close: the one place where that matters is while a new stream is being opened.
*/
module ReconnectMachine {
  import opened Common

  datatype Ready = Connecting | Open | Closed

  const STALL_MS := 60_000
  const BACKOFF_MS: seq<int> := [1_000, 2_000, 5_000, 10_000, 30_000]

  /** `streams` and `timers` belong to the browser; `asked` lists the backoff delays since the last reset. */
  datatype State = State(
    streams: seq<Ready>,
    source: Option<nat>,
    closed: bool,
    retries: nat,
    lastEventAt: int,
    retryTimer: Option<nat>,
    timers: map<nat, int>,
    nextTimer: nat,
    asked: seq<int>)

  datatype Step =
    | Opened(i: nat, now: int)
    | Message(i: nat, now: int)
    | Dropped(i: nat)
    | Failed(i: nat)
    | TimerFires(id: nat, now: int, statusCloses: bool)
    | Watchdog(now: int, visible: bool)
    | Online
    | Close

  function Backoff(retries: nat): int {
    BACKOFF_MS[if retries < |BACKOFF_MS| - 1 then retries else |BACKOFF_MS| - 1]
  }

  function CloseStream(s: State): State
    requires s.source.Some? ==> s.source.value < |s.streams|
  {
    if s.source.Some? then s.(streams := s.streams[s.source.value := Closed]) else s
  }

  function OpenStream(s: State, now: int): State {
    s.(streams := s.streams + [Connecting], source := Some(|s.streams|), lastEventAt := now)
  }

  function Reopen(s: State, delay: int): State {
    if s.closed || s.retryTimer.Some? then s
    else s.(retryTimer := Some(s.nextTimer), timers := s.timers[s.nextTimer := delay], nextTimer := s.nextTimer + 1)
  }

  /** The caller's close: the timer's handle is kept, only the timer itself is cancelled. */
  function Shut(s: State): State
    requires s.source.Some? ==> s.source.value < |s.streams|
  {
    var t := CloseStream(s.(closed := true));
    if s.retryTimer.Some? then t.(timers := t.timers - {s.retryTimer.value}) else t
  }

  function Initial(now: int): State {
    OpenStream(State([], None, false, 0, now, None, map[], 0, []), now)
  }

  predicate Enabled(s: State, step: Step) {
    match step
    case Opened(i, _) => i < |s.streams| && s.streams[i] == Connecting
    case Message(i, _) => i < |s.streams| && s.streams[i] == Open
    case Dropped(i) => i < |s.streams| && s.streams[i] != Closed
    case Failed(i) => i < |s.streams| && s.streams[i] != Closed
    case TimerFires(id, _, _) => id in s.timers
    case Watchdog(_, _) => !s.closed
    case Online => !s.closed
    case Close => true
  }

  function Next(s: State, step: Step): State
    requires Enabled(s, step) && (s.source.Some? ==> s.source.value < |s.streams|)
  {
    match step
    case Opened(i, now) => s.(streams := s.streams[i := Open], lastEventAt := now, retries := 0, asked := [])
    case Message(_, now) => s.(lastEventAt := now)
    case Dropped(i) => s.(streams := s.streams[i := Connecting])
    case Failed(i) =>
      var t := s.(streams := s.streams[i := Closed], retries := s.retries + 1, asked := s.asked + [Backoff(s.retries)]);
      Reopen(t, Backoff(s.retries))
    case TimerFires(id, now, statusCloses) =>
      var t := CloseStream(s.(retryTimer := None, timers := s.timers - {id}));
      if t.closed then t
      else OpenStream(if statusCloses then Shut(t) else t, now)
    case Watchdog(now, visible) =>
      if visible && now - s.lastEventAt > STALL_MS then Reopen(s.(lastEventAt := now), 0) else s
    case Online => Reopen(s.(retries := 0, asked := []), 0)
    case Close => Shut(s)
  }

  // ---------------------------------------------------------------------------------------
  // Invariants
  // ---------------------------------------------------------------------------------------

  predicate OneStream(s: State) {
    s.source == Some(|s.streams| - 1) && |s.streams| > 0 &&
    forall i | 0 <= i < |s.streams| - 1 :: s.streams[i] == Closed
  }

  predicate OneTimer(s: State) {
    if s.closed then s.timers == map[]
    else match s.retryTimer
         case None => s.timers == map[]
         case Some(id) => s.timers.Keys == {id} && id < s.nextTimer
  }

  /** The source is still alive, or a retry is on its way. */
  predicate NotStuck(s: State)
    requires OneStream(s)
  {
    s.closed || s.streams[|s.streams| - 1] != Closed || s.retryTimer.Some?
  }

  predicate BackoffIsExact(s: State) {
    s.retries == |s.asked| && forall k | 0 <= k < |s.asked| :: s.asked[k] == Backoff(k)
  }

  predicate Inv(s: State) {
    OneStream(s) && OneTimer(s) && NotStuck(s) && BackoffIsExact(s)
  }

  lemma ReopenKeepsInv(s: State, delay: int)
    requires OneStream(s) && OneTimer(s) && BackoffIsExact(s)
    ensures Inv(Reopen(s, delay))
    ensures !s.closed ==> Reopen(s, delay).retryTimer.Some?
  {
  }

  lemma StepKeepsInv(s: State, step: Step)
    requires Inv(s) && Enabled(s, step)
    ensures Inv(Next(s, step))
  {
    match step
    case Failed(i) =>
      ReopenKeepsInv(s.(streams := s.streams[i := Closed], retries := s.retries + 1, asked := s.asked + [Backoff(s.retries)]),
                     Backoff(s.retries));
    case Watchdog(now, _) => ReopenKeepsInv(s.(lastEventAt := now), 0);
    case Online => ReopenKeepsInv(s.(retries := 0, asked := []), 0);
    case TimerFires(_, _, _) =>
    case Opened(_, _) =>
    case Message(_, _) =>
    case Dropped(_) =>
    case Close =>
  }

  /** The delay before the retry that the n-th failure in a row asks for. */
  function Wait(failures: nat): int {
    if failures <= 1 then 1_000
    else if failures == 2 then 2_000
    else if failures == 3 then 5_000
    else if failures == 4 then 10_000
    else 30_000
  }

  // ---------------------------------------------------------------------------------------
  // The closure's variables
  // ---------------------------------------------------------------------------------------

  class ResilientEventSource {
    var streams: seq<Ready>
    var source: Option<nat>
    var closed: bool
    var retries: nat
    var lastEventAt: int
    var retryTimer: Option<nat>
    var timers: map<nat, int>
    var nextTimer: nat
    ghost var asked: seq<int>

    ghost function Now(): State
      reads this
    {
      State(streams, source, closed, retries, lastEventAt, retryTimer, timers, nextTimer, asked)
    }

    constructor (now: int)
      ensures Now() == Initial(now) && Inv(Now()) && !closed
    {
      streams, source, closed, retries, lastEventAt := [Connecting], Some(0), false, 0, now;
      retryTimer, timers, nextTimer, asked := None, map[], 0, [];
    }

    method OpenNow(now: int, statusCloses: bool)
      requires source.Some? ==> source.value < |streams|
      modifies this
      ensures Now() == if old(closed) then old(Now())
                       else OpenStream(if statusCloses then Shut(old(Now())) else old(Now()), now)
    {
      if closed {
        return;
      }
      if statusCloses {
        CloseByCaller();
      }
      streams := streams + [Connecting];
      source := Some(|streams| - 1);
      lastEventAt := now;
    }

    method ReopenAfter(delay: int)
      modifies this
      ensures Now() == Reopen(old(Now()), delay)
    {
      if closed || retryTimer.Some? {
        return;
      }
      timers := timers[nextTimer := delay];
      retryTimer := Some(nextTimer);
      nextTimer := nextTimer + 1;
    }

    /** The function the caller was given; also callable from the status callback. */
    method CloseByCaller()
      requires source.Some? ==> source.value < |streams|
      modifies this
      ensures Now() == Next(old(Now()), Close)
      ensures old(Inv(Now())) ==> Inv(Now())
    {
      if Inv(Now()) {
        StepKeepsInv(Now(), Close);
      }
      closed := true;
      if source.Some? {
        streams := streams[source.value := Closed];
      }
      if retryTimer.Some? {
        timers := timers - {retryTimer.value};
      }
    }

    method OnOpen(i: nat, now: int)
      requires Inv(Now()) && Enabled(Now(), Opened(i, now))
      modifies this
      ensures Now() == Next(old(Now()), Opened(i, now)) && Inv(Now())
    {
      StepKeepsInv(Now(), Opened(i, now));
      streams := streams[i := Open];
      lastEventAt := now;
      retries := 0;
      asked := [];
    }

    /** Any named event or heartbeat. */
    method OnMessage(i: nat, now: int)
      requires Inv(Now()) && Enabled(Now(), Message(i, now))
      modifies this
      ensures Now() == Next(old(Now()), Message(i, now)) && Inv(Now())
    {
      StepKeepsInv(Now(), Message(i, now));
      lastEventAt := now;
    }

    /** An error the browser retries by itself: the stream is connecting again. */
    method OnDrop(i: nat)
      requires Inv(Now()) && Enabled(Now(), Dropped(i))
      modifies this
      ensures Now() == Next(old(Now()), Dropped(i)) && Inv(Now())
    {
      StepKeepsInv(Now(), Dropped(i));
      streams := streams[i := Connecting];
    }

    /** The browser gives up on a stream: it is closed, and the error handler asks for another. */
    method OnFailure(i: nat)
      requires Inv(Now()) && Enabled(Now(), Failed(i))
      modifies this
      ensures Now() == Next(old(Now()), Failed(i)) && Inv(Now())
      ensures !closed && old(retryTimer).None? ==> retryTimer.Some? && timers == map[retryTimer.value := Wait(retries)]
    {
      StepKeepsInv(Now(), Failed(i));
      streams := streams[i := Closed];
      var delay := Backoff(retries);
      retries := retries + 1;
      asked := asked + [delay];
      ReopenAfter(delay);
    }

    method OnTimer(id: nat, now: int, statusCloses: bool)
      requires Inv(Now()) && Enabled(Now(), TimerFires(id, now, statusCloses))
      modifies this
      ensures Now() == Next(old(Now()), TimerFires(id, now, statusCloses)) && Inv(Now())
    {
      StepKeepsInv(Now(), TimerFires(id, now, statusCloses));
      timers := timers - {id};
      retryTimer := None;
      if source.Some? {
        streams := streams[source.value := Closed];
      }
      OpenNow(now, statusCloses);
    }

    method OnWatchdog(now: int, visible: bool)
      requires Inv(Now()) && Enabled(Now(), Watchdog(now, visible))
      modifies this
      ensures Now() == Next(old(Now()), Watchdog(now, visible)) && Inv(Now())
    {
      StepKeepsInv(Now(), Watchdog(now, visible));
      if visible && now - lastEventAt > STALL_MS {
        lastEventAt := now;
        ReopenAfter(0);
      }
    }

    method OnOnline()
      requires Inv(Now()) && Enabled(Now(), Online)
      modifies this
      ensures Now() == Next(old(Now()), Online) && Inv(Now())
    {
      StepKeepsInv(Now(), Online);
      retries := 0;
      asked := [];
      ReopenAfter(0);
    }
  }

  // ---------------------------------------------------------------------------------------
  // Every run
  // ---------------------------------------------------------------------------------------

  predicate CanRun(s: State, steps: seq<Step>)
    decreases |steps|
  {
    steps == [] ||
    (Enabled(s, steps[0]) && (s.source.Some? ==> s.source.value < |s.streams|) && CanRun(Next(s, steps[0]), steps[1..]))
  }

  function Run(s: State, steps: seq<Step>): State
    requires CanRun(s, steps)
    decreases |steps|
  {
    if steps == [] then s else Run(Next(s, steps[0]), steps[1..])
  }

  lemma {:induction false} RunKeepsInv(s: State, steps: seq<Step>)
    requires Inv(s) && CanRun(s, steps)
    ensures Inv(Run(s, steps))
    decreases |steps|
  {
    if steps != [] {
      StepKeepsInv(s, steps[0]);
      RunKeepsInv(Next(s, steps[0]), steps[1..]);
    }
  }

  /**
    In every reachable state at most one stream is alive and at most one retry is pending; and until
    the caller closes it, a dead stream always has a retry on its way.
  */
  lemma OneStreamOneTimerNeverStuck(now: int, steps: seq<Step>)
    requires CanRun(Initial(now), steps)
    ensures var s := Run(Initial(now), steps);
            (forall i, j | 0 <= i < j < |s.streams| :: s.streams[i] == Closed || s.streams[j] == Closed) &&
            |s.timers| <= 1 &&
            (!s.closed ==> (exists i :: 0 <= i < |s.streams| && s.streams[i] != Closed) || |s.timers| == 1)
  {
    RunKeepsInv(Initial(now), steps);
    var s := Run(Initial(now), steps);
    assert |s.timers| == |s.timers.Keys|;
    if !s.closed && s.retryTimer.None? {
      assert s.streams[|s.streams| - 1] != Closed;
    }
  }

  /** The delays asked for since the last good connection or `online` never shrink and stay in the table. */
  lemma BackoffNeverShrinks(now: int, steps: seq<Step>)
    requires CanRun(Initial(now), steps)
    ensures var asked := Run(Initial(now), steps).asked;
            (forall k | 0 <= k < |asked| :: asked[k] in BACKOFF_MS) &&
            (forall k, m | 0 <= k < m < |asked| :: asked[k] <= asked[m])
  {
    RunKeepsInv(Initial(now), steps);
    assert forall a, b | 0 <= a < b < |BACKOFF_MS| :: BACKOFF_MS[a] <= BACKOFF_MS[b];
  }

  // ---------------------------------------------------------------------------------------
  // How long a retry waits
  // ---------------------------------------------------------------------------------------

  predicate Resets(step: Step) {
    step.Opened? || step.Online?
  }

  /** How many streams have failed since the last good connection or `online`. */
  function FailuresSince(steps: seq<Step>): nat {
    if steps == [] || Resets(steps[|steps| - 1]) then 0
    else FailuresSince(steps[..|steps| - 1]) + if steps[|steps| - 1].Failed? then 1 else 0
  }

  lemma {:induction false} RunSplits(s: State, steps: seq<Step>, n: nat)
    requires CanRun(s, steps) && n <= |steps|
    ensures CanRun(s, steps[..n]) && CanRun(Run(s, steps[..n]), steps[n..])
    ensures Run(Run(s, steps[..n]), steps[n..]) == Run(s, steps)
    decreases |steps|
  {
    if n == 0 {
      assert steps[..0] == [] && steps[0..] == steps;
    } else {
      RunSplits(Next(s, steps[0]), steps[1..], n - 1);
      assert steps[..n][1..] == steps[1..][..n - 1] && steps[1..][n - 1..] == steps[n..];
    }
  }

  lemma LastStep(s: State, steps: seq<Step>)
    requires CanRun(s, steps) && steps != []
    ensures var n := |steps| - 1;
            CanRun(s, steps[..n]) && var t := Run(s, steps[..n]);
            Enabled(t, steps[n]) && (t.source.Some? ==> t.source.value < |t.streams|) && Run(s, steps) == Next(t, steps[n])
  {
    var n := |steps| - 1;
    RunSplits(s, steps, n);
    assert steps[n..] == [steps[n]] && steps[n..][1..] == [];
  }

  lemma {:induction false} RetriesCountFailures(now: int, steps: seq<Step>)
    requires CanRun(Initial(now), steps)
    ensures Run(Initial(now), steps).retries == FailuresSince(steps)
  {
    if steps != [] {
      var n := |steps| - 1;
      LastStep(Initial(now), steps);
      RetriesCountFailures(now, steps[..n]);
      RunKeepsInv(Initial(now), steps[..n]);
    }
  }

  /** A stream that fails while no retry is pending has one pending after it, by the table and the failures so far. */
  lemma FailureWaits(now: int, steps: seq<Step>, i: nat)
    requires CanRun(Initial(now), steps) && Enabled(Run(Initial(now), steps), Failed(i))
    requires !Run(Initial(now), steps).closed && Run(Initial(now), steps).retryTimer.None?
    ensures var s := Run(Initial(now), steps);
            Inv(s) && var t := Next(s, Failed(i));
            t.retryTimer.Some? && t.timers == map[t.retryTimer.value := Wait(FailuresSince(steps) + 1)] &&
            t.asked == s.asked + [Wait(FailuresSince(steps) + 1)]
  {
    RunKeepsInv(Initial(now), steps);
    RetriesCountFailures(now, steps);
  }

  lemma {:induction false} FailuresGrow(steps: seq<Step>, p: nat, q: nat)
    requires p <= q <= |steps| && forall k | p <= k < q :: !Resets(steps[k])
    ensures FailuresSince(steps[..p]) <= FailuresSince(steps[..q])
    decreases q
  {
    if p < q {
      FailuresGrow(steps, p, q - 1);
      assert steps[..q][..q - 1] == steps[..q - 1];
    }
  }

  /** At the n-th step a stream fails and a retry is set for it. */
  predicate SetsRetry(now: int, steps: seq<Step>, n: nat)
    requires CanRun(Initial(now), steps)
  {
    n < |steps| && steps[n].Failed? && CanRun(Initial(now), steps[..n]) &&
    !Run(Initial(now), steps[..n]).closed && Run(Initial(now), steps[..n]).retryTimer.None?
  }

  /** The delay of the one pending retry after n steps. */
  function PendingDelay(now: int, steps: seq<Step>, n: nat): Option<int>
    requires CanRun(Initial(now), steps)
  {
    if n <= |steps| && CanRun(Initial(now), steps[..n]) then
      var s := Run(Initial(now), steps[..n]);
      if s.retryTimer.Some? && s.retryTimer.value in s.timers then Some(s.timers[s.retryTimer.value]) else None
    else None
  }

  lemma SetsAt(now: int, steps: seq<Step>, n: nat)
    requires CanRun(Initial(now), steps) && SetsRetry(now, steps, n)
    ensures n < |steps|
  {
  }

  lemma RetrySet(now: int, steps: seq<Step>, n: nat)
    requires CanRun(Initial(now), steps) && SetsRetry(now, steps, n)
    ensures PendingDelay(now, steps, n + 1) == Some(Wait(FailuresSince(steps[..n]) + 1))
  {
    hide Run, CanRun, Next, Inv, FailuresSince, Wait, Reopen;
    RunSplits(Initial(now), steps, n + 1);
    LastStep(Initial(now), steps[..n + 1]);
    assert steps[..n + 1][..n] == steps[..n];
    FailureWaits(now, steps[..n], steps[n].i);
  }

  /** Over every run, the delays that failures really set never shrink until a good connection or `online`. */
  lemma RetriesNeverSpeedUp(now: int, steps: seq<Step>, p: nat, q: nat)
    requires CanRun(Initial(now), steps) && p <= q && SetsRetry(now, steps, p) && SetsRetry(now, steps, q)
    requires forall k | p <= k < q :: !Resets(steps[k])
    ensures PendingDelay(now, steps, p + 1).Some? && PendingDelay(now, steps, q + 1).Some?
    ensures PendingDelay(now, steps, p + 1).value <= PendingDelay(now, steps, q + 1).value
  {
    hide PendingDelay, SetsRetry, Run, CanRun;
    RetrySet(now, steps, p);
    RetrySet(now, steps, q);
    SetsAt(now, steps, q);
    FailuresGrow(steps, p, q);
  }

  // ---------------------------------------------------------------------------------------
  // What the other steps do
  // ---------------------------------------------------------------------------------------

  /** A visible stream silent for more than a minute is restarted at once; otherwise the watchdog does nothing. */
  lemma WatchdogRestarts(s: State, now: int, visible: bool)
    requires Inv(s) && !s.closed
    ensures var t := Next(s, Watchdog(now, visible));
            if visible && now > s.lastEventAt + 60_000
            then t.lastEventAt == now && t.retryTimer.Some? && t.streams == s.streams &&
                 (if s.retryTimer.None? then t.timers == map[t.retryTimer.value := 0] else t.timers == s.timers)
            else t == s
  {
  }

  /**
    A good connection starts the table anew; it and any message count as a sign of life. A dropped
    stream is connecting again by itself, and nothing else changes.
  */
  lemma SignsOfLife(s: State, i: nat, now: int)
    requires Inv(s)
    ensures Enabled(s, Opened(i, now)) ==>
              var t := Next(s, Opened(i, now));
              t.retries == 0 && t.asked == [] && t.lastEventAt == now && t.streams == s.streams[i := Open] && t.timers == s.timers
    ensures Enabled(s, Message(i, now)) ==> Next(s, Message(i, now)) == s.(lastEventAt := now)
    ensures Enabled(s, Dropped(i)) ==> Next(s, Dropped(i)) == s.(streams := s.streams[i := Connecting])
  {
  }

  /** A retry whose time has come opens exactly one new stream, as the source, and is no longer pending. */
  lemma RetryOpens(s: State, id: nat, now: int, statusCloses: bool)
    requires Inv(s) && Enabled(s, TimerFires(id, now, statusCloses))
    ensures var t := Next(s, TimerFires(id, now, statusCloses));
            !s.closed && |t.streams| == |s.streams| + 1 && t.source == Some(|s.streams|) && t.streams[|s.streams|] == Connecting &&
            t.lastEventAt == now && t.retryTimer.None? && t.timers == map[] && t.retries == s.retries && t.closed == statusCloses
  {
  }

  // ---------------------------------------------------------------------------------------
  // Closing
  // ---------------------------------------------------------------------------------------

  predicate Leaks(s: State) {
    s.closed && exists i :: 0 <= i < |s.streams| && s.streams[i] != Closed
  }

  /** The one way to leave a stream open after closing: closing from the status callback of a reopening. */
  lemma LeakIff(s: State, step: Step)
    requires Inv(s) && Enabled(s, step) && !Leaks(s)
    ensures Leaks(Next(s, step)) <==> step.TimerFires? && step.statusCloses
  {
    var t := Next(s, step);
    StepKeepsInv(s, step);
    if step.TimerFires? && step.statusCloses {
      assert t.streams[|t.streams| - 1] == Connecting;
    }
  }

  /** And it can be reached: the first stream fails, and the callback closes while the next is opened. */
  lemma LeakHappens(now: int, later: int)
    ensures CanRun(Initial(now), [Failed(0), TimerFires(0, later, true)])
    ensures Leaks(Run(Initial(now), [Failed(0), TimerFires(0, later, true)]))
  {
    var s1 := Next(Initial(now), Failed(0));
    var s2 := Next(s1, TimerFires(0, later, true));
    assert CanRun(s2, []) && Run(s2, []) == s2;
    assert [TimerFires(0, later, true)][1..] == [];
    assert CanRun(s1, [TimerFires(0, later, true)]) && Run(s1, [TimerFires(0, later, true)]) == s2;
    assert [Failed(0), TimerFires(0, later, true)][1..] == [TimerFires(0, later, true)];
    assert s2.streams[1] == Connecting;
  }

  /** The stream then stays open until the browser gives up on it or the caller closes once more: nothing else ends it. */
  lemma LeakEndsIff(s: State, step: Step)
    requires Inv(s) && Leaks(s) && Enabled(s, step)
    ensures !Leaks(Next(s, step)) <==> step.Close? || step.Failed?
  {
    var t := Next(s, step);
    StepKeepsInv(s, step);
    assert s.streams[|s.streams| - 1] != Closed;
    if !step.Close? && !step.Failed? {
      assert t.closed && t.streams[|t.streams| - 1] != Closed;
    }
  }

  /** Closed from anywhere else, nothing is left: no live stream, no pending retry, and none ever again. */
  lemma {:induction false} CloseIsFinal(s: State, steps: seq<Step>)
    requires Inv(s) && !Leaks(s) && CanRun(s, steps)
    requires forall k | 0 <= k < |steps| && steps[k].TimerFires? :: !steps[k].statusCloses
    ensures var t := Run(s, steps); !Leaks(t) && (t.closed ==> t.timers == map[]) && (s.closed ==> t.closed)
    decreases |steps|
  {
    if steps != [] {
      StepKeepsInv(s, steps[0]);
      LeakIff(s, steps[0]);
      CloseIsFinal(Next(s, steps[0]), steps[1..]);
    }
  }

  /** Coming back online reconnects at once exactly when no retry with a delay was already pending. */
  lemma OnlineAtOnceIff(s: State)
    requires Inv(s) && !s.closed
    ensures var t := Next(s, Online);
            t.retryTimer.Some? && t.retryTimer.value in t.timers &&
            (t.timers[t.retryTimer.value] == 0 <==> s.retryTimer.None? || s.timers[s.retryTimer.value] == 0)
  {
    if s.retryTimer.Some? {
      assert s.retryTimer.value in s.timers.Keys;
    }
  }

  /** A stream that has failed keeps its backoff delay through an `online` event. */
  lemma OnlineWaitsOutTheBackoff(now: int)
    ensures CanRun(Initial(now), [Failed(0), Online])
    ensures var t := Run(Initial(now), [Failed(0), Online]); t.retryTimer == Some(0) && t.timers == map[0 := 1_000]
  {
    var s1 := Next(Initial(now), Failed(0));
    var s2 := Next(s1, Online);
    assert CanRun(s2, []) && Run(s2, []) == s2;
    assert [Online][1..] == [];
    assert CanRun(s1, [Online]) && Run(s1, [Online]) == s2;
    assert [Failed(0), Online][1..] == [Online];
  }
}
