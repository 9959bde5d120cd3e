/**
  The negotiation queues of a call (apps/web/lib/call-engine.ts) and of a live stream
  (apps/web/lib/live-engine.ts): jobs chained to one promise, each started, finished or failed at
  any time its turn allows, with hanging up possible at any point. Only the call's queue checks
  whether the engine was closed before it starts a job.
*/
module NegotiationQueue {
  import opened Sequences
  import opened SerialChain

  datatype Engine = CallSide | LiveHost

  datatype TrackKind = Audio | Video | Screen

  type Track = nat

  datatype Job = Publish(kind: TrackKind, track: Track) | Unpublish(kind: TrackKind) | Pull

  /** How a job ends: well, with its own request refused, or failing at any other point. */
  datatype Outcome = Done | RequestRefused | Broken

  /** `lost` lists the tracks that the engine let go of without stopping them. */
  datatype State = State(
    engine: Engine,
    closed: bool,
    ended: nat,
    jobs: seq<Job>,
    chain: seq<Status>,
    started: seq<nat>,
    local: map<TrackKind, Track>,
    capturing: set<Track>,
    lost: set<Track>)

  datatype Step =
    | Enqueue(job: Job)
    | Turn(i: nat)
    | Finish(i: nat, outcome: Outcome)
    | End

  function Initial(engine: Engine): State {
    State(engine, false, 0, [], [], [], map[], {}, {})
  }

  /** The browser hands out a new track each time it is asked for one. */
  predicate IsNew(jobs: seq<Job>, track: Track) {
    forall i | 0 <= i < |jobs| && jobs[i].Publish? :: jobs[i].track != track
  }

  predicate Enabled(s: State, step: Step) {
    match step
    case Enqueue(job) => job.Publish? ==> IsNew(s.jobs, job.track)
    case Turn(i) => Due(s.chain, i)
    case Finish(i, _) => i < |s.chain| && s.chain[i] == Running
    case End => true
  }

  function StopLocal(s: State, kind: TrackKind): State {
    if kind in s.local then s.(local := s.local - {kind}, capturing := s.capturing - {s.local[kind]}) else s
  }

  /** What a job does before its first wait: only taking a track down happens at once. */
  function Begin(s: State, job: Job): State {
    match job
    case Unpublish(kind) => StopLocal(s, kind)
    case Publish(_, _) => s
    case Pull => s
  }

  function Settle(s: State, job: Job, outcome: Outcome): State {
    match job
    case Publish(kind, track) =>
      if outcome.Done? then
        s.(local := s.local[kind := track], lost := s.lost + (if kind in s.local then {s.local[kind]} else {}))
      else if outcome.RequestRefused? && s.engine.CallSide? then s.(capturing := s.capturing - {track})
      else s.(lost := s.lost + {track})
    case Unpublish(_) => s
    case Pull => s
  }

  /** A closed call drops the job, and with it the track it was to publish. */
  function Skip(s: State, job: Job): State {
    if job.Publish? then s.(lost := s.lost + {job.track}) else s
  }

  function Ended(s: State): State {
    if s.engine.CallSide? && s.closed then s
    else s.(closed := true, ended := s.ended + 1, local := map[], capturing := s.capturing - s.local.Values)
  }

  function Next(s: State, step: Step): (t: State)
    requires Enabled(s, step) && |s.jobs| == |s.chain|
    ensures |t.jobs| == |t.chain| && t.engine == s.engine
  {
    match step
    case Enqueue(job) =>
      var t := s.(jobs := s.jobs + [job], chain := s.chain + [Waiting]);
      if job.Publish? then t.(capturing := t.capturing + {job.track}) else t
    case Turn(i) =>
      if s.engine.CallSide? && s.closed then Skip(s.(chain := s.chain[i := Skipped]), s.jobs[i])
      else Begin(s.(chain := s.chain[i := Running], started := s.started + [i]), s.jobs[i])
    case Finish(i, outcome) =>
      Settle(s.(chain := s.chain[i := if outcome.Done? then Fulfilled else Rejected]), s.jobs[i], outcome)
    case End => Ended(s)
  }

  // ---------------------------------------------------------------------------------------
  // Invariants
  // ---------------------------------------------------------------------------------------

  /** The jobs started so far, in the order they were queued, are exactly those that ran or run. */
  predicate StartsAreExact(s: State) {
    StrictlyRising(s.started) &&
    (forall k | 0 <= k < |s.started| :: s.started[k] < |s.chain| && s.chain[s.started[k]] != Waiting && s.chain[s.started[k]] != Skipped) &&
    (forall i | 0 <= i < |s.chain| && s.chain[i] != Waiting && s.chain[i] != Skipped :: i in s.started)
  }

  predicate Inv(s: State) {
    |s.jobs| == |s.chain| && Orderly(s.chain) && StartsAreExact(s) &&
    (s.closed <==> s.ended > 0) &&
    (s.engine.CallSide? ==> s.ended <= 1)
  }

  lemma StartKeepsExact(s: State, i: nat)
    requires Orderly(s.chain) && StartsAreExact(s) && Due(s.chain, i)
    ensures StartsAreExact(s.(chain := s.chain[i := Running], started := s.started + [i]))
  {
    DueIsNext(s.chain, i);
    var t := s.(chain := s.chain[i := Running], started := s.started + [i]);
    forall k | 0 <= k < |s.started| ensures s.started[k] < i {
      assert s.chain[s.started[k]] != Waiting;
    }
    forall j | 0 <= j < |t.chain| && t.chain[j] != Waiting && t.chain[j] != Skipped ensures j in t.started {
      assert j == i || j in s.started;
      assert t.started[|s.started|] == i;
    }
  }

  lemma TurnKeepsInv(s: State, i: nat)
    requires Inv(s) && Enabled(s, Turn(i))
    ensures Inv(Next(s, Turn(i)))
  {
    TurnOrderly(s.chain, i, Running);
    TurnOrderly(s.chain, i, Skipped);
    if !(s.engine.CallSide? && s.closed) {
      StartKeepsExact(s, i);
    }
  }

  lemma FinishKeepsInv(s: State, i: nat, outcome: Outcome)
    requires Inv(s) && Enabled(s, Finish(i, outcome))
    ensures Inv(Next(s, Finish(i, outcome)))
  {
    var status := if outcome.Done? then Fulfilled else Rejected;
    SettleOrderly(s.chain, i, status);
    assert StartsAreExact(s.(chain := s.chain[i := status]));
  }

  lemma EnqueueKeepsInv(s: State, job: Job)
    requires Inv(s) && Enabled(s, Enqueue(job))
    ensures Inv(Next(s, Enqueue(job)))
  {
    AppendOrderly(s.chain);
  }

  lemma StepKeepsInv(s: State, step: Step)
    requires Inv(s) && Enabled(s, step)
    ensures Inv(Next(s, step))
  {
    match step
    case Enqueue(job) => EnqueueKeepsInv(s, job);
    case Turn(i) => TurnKeepsInv(s, i);
    case Finish(i, outcome) => FinishKeepsInv(s, i, outcome);
    case End =>
      assert Next(s, End).chain == s.chain && Next(s, End).started == s.started;
  }

  // ---------------------------------------------------------------------------------------
  // The engine's fields
  // ---------------------------------------------------------------------------------------

  class NegotiationEngine {
    const engine: Engine
    var closed: bool
    var ended: nat
    var jobs: seq<Job>
    var chain: seq<Status>
    ghost var started: seq<nat>
    var local: map<TrackKind, Track>
    var capturing: set<Track>
    ghost var lost: set<Track>

    ghost function Now(): State
      reads this
    {
      State(engine, closed, ended, jobs, chain, started, local, capturing, lost)
    }

    constructor (engine: Engine)
      ensures Now() == Initial(engine) && Inv(Now())
    {
      this.engine := engine;
      closed, ended, jobs, chain, started, local, capturing, lost := false, 0, [], [], [], map[], {}, {};
    }

    method Queue(job: Job)
      requires Inv(Now()) && Enabled(Now(), Enqueue(job))
      modifies this
      ensures Now() == Next(old(Now()), Enqueue(job)) && Inv(Now())
    {
      StepKeepsInv(Now(), Enqueue(job));
      jobs, chain := jobs + [job], chain + [Waiting];
      if job.Publish? {
        capturing := capturing + {job.track};
      }
    }

    method TakeTurn(i: nat)
      requires Inv(Now()) && Due(chain, i)
      modifies this
      ensures Now() == Next(old(Now()), Turn(i)) && Inv(Now())
      ensures if engine.CallSide? && closed then chain[i] == Skipped && local == old(local) && capturing == old(capturing)
              else chain[i] == Running &&
                   match jobs[i]
                   case Unpublish(kind) =>
                     local == old(local) - {kind} &&
                     capturing == old(capturing) - (if kind in old(local) then {old(local)[kind]} else {})
                   case _ => local == old(local) && capturing == old(capturing)
    {
      StepKeepsInv(Now(), Turn(i));
      if engine.CallSide? && closed {
        chain := chain[i := Skipped];
        lost := if jobs[i].Publish? then lost + {jobs[i].track} else lost;
        return;
      }
      chain, started := chain[i := Running], started + [i];
      if jobs[i].Unpublish? && jobs[i].kind in local {
        capturing := capturing - {local[jobs[i].kind]};
        local := local - {jobs[i].kind};
      }
    }

    method FinishJob(i: nat, outcome: Outcome)
      requires Inv(Now()) && i < |chain| && chain[i] == Running
      modifies this
      ensures Now() == Next(old(Now()), Finish(i, outcome)) && Inv(Now())
    {
      StepKeepsInv(Now(), Finish(i, outcome));
      chain := chain[i := if outcome.Done? then Fulfilled else Rejected];
      if jobs[i].Publish? {
        if outcome.Done? {
          lost := lost + (if jobs[i].kind in local then {local[jobs[i].kind]} else {});
          local := local[jobs[i].kind := jobs[i].track];
        } else if outcome.RequestRefused? && engine.CallSide? {
          capturing := capturing - {jobs[i].track};
        } else {
          lost := lost + {jobs[i].track};
        }
      }
    }

    /** Local teardown: a call tears down once, a live stream every time it is asked to. */
    method EndLocally()
      requires Inv(Now())
      modifies this
      ensures Now() == Next(old(Now()), End) && Inv(Now())
    {
      StepKeepsInv(Now(), End);
      if engine.CallSide? && closed {
        return;
      }
      closed := true;
      capturing := capturing - local.Values;
      local := map[];
      ended := ended + 1;
    }
  }

  // ---------------------------------------------------------------------------------------
  // Every run
  // ---------------------------------------------------------------------------------------

  predicate CanRun(s: State, steps: seq<Step>)
    requires |s.jobs| == |s.chain|
    decreases |steps|
  {
    steps == [] || (Enabled(s, steps[0]) && CanRun(Next(s, steps[0]), steps[1..]))
  }

  function Run(s: State, steps: seq<Step>): (t: State)
    requires |s.jobs| == |s.chain| && CanRun(s, steps)
    ensures |t.jobs| == |t.chain| && t.engine == s.engine
    decreases |steps|
  {
    if steps == [] then s else Run(Next(s, steps[0]), steps[1..])
  }

  lemma {:induction false} RunKeepsInv(s: State, steps: seq<Step>)
    requires Inv(s) && CanRun(s, steps)
    ensures Inv(Run(s, steps))
    decreases |steps|
  {
    if steps != [] {
      StepKeepsInv(s, steps[0]);
      RunKeepsInv(Next(s, steps[0]), steps[1..]);
    }
  }

  /** Over every run: jobs start in the order they were queued, one at a time, each at most once. */
  lemma NegotiationsNeverRace(engine: Engine, steps: seq<Step>)
    requires CanRun(Initial(engine), steps)
    ensures var s := Run(Initial(engine), steps);
            StrictlyRising(s.started) &&
            forall i, j | 0 <= i < j < |s.chain| :: !(s.chain[i] == Running && s.chain[j] == Running)
  {
    RunKeepsInv(Initial(engine), steps);
  }

  /** However the jobs ahead ended, a waiting job is due as soon as none of them is running. */
  lemma FailuresDoNotBlock(s: State, i: nat)
    requires Inv(s) && i < |s.chain| && s.chain[i] == Waiting
    requires forall k | 0 <= k < |s.chain| :: s.chain[k] != Running
    ensures exists k :: 0 <= k <= i && Enabled(s, Turn(k))
  {
    NeverStuck(s.chain[..i + 1], i);
    var k :| 0 <= k < i + 1 && (s.chain[..i + 1][k] == Running || Due(s.chain[..i + 1], k));
    assert Enabled(s, Turn(k));
  }

  /** A call that has ended starts no further job and reports its end no further time. */
  lemma {:induction false} EndedCallStaysEnded(s: State, steps: seq<Step>)
    requires Inv(s) && s.engine.CallSide? && s.closed && CanRun(s, steps)
    ensures var t := Run(s, steps); t.closed && t.started == s.started && t.ended == s.ended == 1
    decreases |steps|
  {
    if steps != [] {
      StepKeepsInv(s, steps[0]);
      EndedCallStaysEnded(Next(s, steps[0]), steps[1..]);
    }
  }

  function Ends(steps: seq<Step>): nat {
    if steps == [] then 0 else (if steps[0].End? then 1 else 0) + Ends(steps[1..])
  }

  /** A call reports its end once however often it is ended; a live stream reports it every time. */
  lemma {:induction false} EndsReported(s: State, steps: seq<Step>)
    requires Inv(s) && CanRun(s, steps)
    ensures Run(s, steps).ended ==
            if s.engine.LiveHost? then s.ended + Ends(steps) else if Ends(steps) > 0 then 1 else s.ended
    decreases |steps|
  {
    if steps != [] {
      StepKeepsInv(s, steps[0]);
      EndsReported(Next(s, steps[0]), steps[1..]);
    }
  }

  /** A live stream has no such guard: it can report its end twice, and start a job after it. */
  lemma LiveStreamEndsAgain()
    ensures CanRun(Initial(LiveHost), [Enqueue(Pull), End, Turn(0), End])
    ensures var t := Run(Initial(LiveHost), [Enqueue(Pull), End, Turn(0), End]); t.ended == 2 && t.started == [0]
  {
    var s1 := Next(Initial(LiveHost), Enqueue(Pull));
    var s2 := Next(s1, End);
    var s3 := Next(s2, Turn(0));
    var s4 := Next(s3, End);
    assert CanRun(s4, []) && Run(s4, []) == s4;
    assert [End][0] == End && [End][1..] == [];
    assert CanRun(s3, [End]) && Run(s3, [End]) == s4;
    assert [Turn(0), End][1..] == [End];
    assert CanRun(s2, [Turn(0), End]) && Run(s2, [Turn(0), End]) == s4;
    assert [End, Turn(0), End][1..] == [Turn(0), End];
    assert CanRun(s1, [End, Turn(0), End]) && Run(s1, [End, Turn(0), End]) == s4;
    assert [Enqueue(Pull), End, Turn(0), End][1..] == [End, Turn(0), End];
  }

  // ---------------------------------------------------------------------------------------
  // What a step does to the tracks
  // ---------------------------------------------------------------------------------------

  /** Taking a kind down stops its track at once, and touches no other. */
  lemma TakeDownIsImmediate(s: State, i: nat, kind: TrackKind)
    requires Inv(s) && Enabled(s, Turn(i)) && s.jobs[i] == Unpublish(kind) && !(s.engine.CallSide? && s.closed)
    ensures var t := Next(s, Turn(i));
            t.chain[i] == Running && kind !in t.local && (kind in s.local ==> s.local[kind] !in t.capturing) &&
            (forall other | other != kind :: (other in t.local <==> other in s.local) && (other in s.local ==> t.local[other] == s.local[other])) &&
            (forall track | !(kind in s.local && s.local[kind] == track) :: track in t.capturing <==> track in s.capturing)
  {
  }

  /** No other turn touches a track. */
  lemma TurnKeepsTracks(s: State, i: nat)
    requires Inv(s) && Enabled(s, Turn(i)) && (!s.jobs[i].Unpublish? || (s.engine.CallSide? && s.closed))
    ensures var t := Next(s, Turn(i));
            t.local == s.local && t.capturing == s.capturing &&
            t.chain[i] == if s.engine.CallSide? && s.closed then Skipped else Running
  {
  }

  /** A track is published when its job ends well, stopped when a call is refused it, and otherwise left as it is. */
  lemma PublishingEnds(s: State, i: nat, outcome: Outcome)
    requires Inv(s) && Enabled(s, Finish(i, outcome))
    ensures var t := Next(s, Finish(i, outcome));
            t.chain[i] == (if outcome.Done? then Fulfilled else Rejected) &&
            match s.jobs[i]
            case Publish(kind, track) =>
              (outcome.Done? ==> kind in t.local && t.local[kind] == track) &&
              (forall k | k != kind || !outcome.Done? :: (k in t.local <==> k in s.local) && (k in s.local ==> t.local[k] == s.local[k])) &&
              (forall other | other != track :: other in t.capturing <==> other in s.capturing) &&
              (track in t.capturing <==> track in s.capturing && !(outcome.RequestRefused? && s.engine.CallSide?))
            case _ => t.local == s.local && t.capturing == s.capturing
  {
  }

  /** Asking to publish starts the capture, and hanging up stops exactly what is published. */
  lemma CaptureStartsAndEnds(s: State, job: Job)
    requires Inv(s) && Enabled(s, Enqueue(job))
    ensures var t := Next(s, Enqueue(job));
            t.jobs == s.jobs + [job] && t.chain == s.chain + [Waiting] && t.local == s.local &&
            forall track :: track in t.capturing <==> track in s.capturing || (job.Publish? && job.track == track)
    ensures var t := Next(s, End);
            if s.engine.CallSide? && s.closed then t == s
            else t.closed && t.local == map[] && t.ended == s.ended + 1 && t.jobs == s.jobs && t.chain == s.chain &&
                 forall track :: track in t.capturing <==> track in s.capturing && forall kind | kind in s.local :: s.local[kind] != track
  {
    var t := Next(s, End);
    assert forall track :: track in s.local.Values <==> exists kind :: kind in s.local && s.local[kind] == track;
  }

  /** A camera turned on and off again is off. */
  lemma CameraOff()
    ensures var steps := [Enqueue(Publish(Video, 1)), Turn(0), Finish(0, Done), Enqueue(Unpublish(Video)), Turn(1)];
            CanRun(Initial(CallSide), steps) &&
            Run(Initial(CallSide), steps).local == map[] && Run(Initial(CallSide), steps).capturing == {}
  {
    var s1 := Next(Initial(CallSide), Enqueue(Publish(Video, 1)));
    var s2 := Next(s1, Turn(0));
    var s3 := Next(s2, Finish(0, Done));
    var s4 := Next(s3, Enqueue(Unpublish(Video)));
    var s5 := Next(s4, Turn(1));
    var last, off := [Turn(1)], [Enqueue(Unpublish(Video)), Turn(1)];
    assert last[1..] == [] && CanRun(s5, []) && Run(s5, []) == s5;
    assert off[1..] == last && CanRun(s4, last) && Run(s4, last) == s5;
    assert ([Finish(0, Done)] + off)[1..] == off && CanRun(s3, off) && Run(s3, off) == s5;
    assert ([Turn(0), Finish(0, Done)] + off)[1..] == [Finish(0, Done)] + off;
    assert CanRun(s2, [Finish(0, Done)] + off) && Run(s2, [Finish(0, Done)] + off) == s5;
    assert CanRun(s1, [Turn(0), Finish(0, Done)] + off) && Run(s1, [Turn(0), Finish(0, Done)] + off) == s5;
    var steps := [Enqueue(Publish(Video, 1)), Turn(0), Finish(0, Done), Enqueue(Unpublish(Video)), Turn(1)];
    assert steps[1..] == [Turn(0), Finish(0, Done)] + off;
  }

  // ---------------------------------------------------------------------------------------
  // Hanging up and the microphone
  // ---------------------------------------------------------------------------------------

  /** The job is to publish a track and has neither run to its end nor been dropped. */
  predicate Pending(s: State, i: nat) {
    i < |s.jobs| == |s.chain| && s.jobs[i].Publish? && (s.chain[i] == Waiting || s.chain[i] == Running)
  }

  predicate TracksAreNew(jobs: seq<Job>) {
    forall i, j | 0 <= i < j < |jobs| && jobs[i].Publish? && jobs[j].Publish? :: jobs[i].track != jobs[j].track
  }

  predicate PublishedBy(s: State, i: nat, kind: TrackKind, track: Track) {
    i < |s.jobs| && s.jobs[i] == Publish(kind, track) && !Pending(s, i)
  }

  /** Where a track can be: with a job that is pending, in the published tracks, or lost; never in two places. */
  ghost predicate LocalIsTrue(s: State) {
    forall kind | kind in s.local ::
      s.local[kind] in s.capturing && s.local[kind] !in s.lost && exists i: nat :: PublishedBy(s, i, kind, s.local[kind])
  }

  ghost predicate LostIsTrue(s: State) {
    forall track | track in s.lost :: track in s.capturing && exists i: nat, kind :: PublishedBy(s, i, kind, track)
  }

  ghost predicate CapturingIsTrue(s: State) {
    (forall i: nat | Pending(s, i) :: s.jobs[i].track in s.capturing) &&
    (forall track | track in s.capturing ::
       track in s.lost || track in s.local.Values || exists i: nat :: Pending(s, i) && s.jobs[i].track == track)
  }

  ghost predicate Accounted(s: State) {
    Inv(s) && TracksAreNew(s.jobs) && LocalIsTrue(s) && LostIsTrue(s) && CapturingIsTrue(s)
  }

  lemma OneJobPerTrack(jobs: seq<Job>, i: nat, j: nat)
    requires TracksAreNew(jobs) && i < |jobs| && j < |jobs|
    requires jobs[i].Publish? && jobs[j].Publish? && jobs[i].track == jobs[j].track
    ensures i == j
  {
  }

  /** A step that moves no track between places keeps the account. */
  lemma SameTracks(s: State, t: State)
    requires Accounted(s) && Inv(t) && TracksAreNew(t.jobs) && |s.jobs| <= |t.jobs| && t.jobs[..|s.jobs|] == s.jobs
    requires t.local == s.local && t.lost == s.lost
    requires forall i: nat | i < |s.jobs| :: Pending(t, i) <==> Pending(s, i)
    requires t.capturing == s.capturing + set i: nat | |s.jobs| <= i < |t.jobs| && t.jobs[i].Publish? :: t.jobs[i].track
    requires forall i: nat | |s.jobs| <= i < |t.jobs| && t.jobs[i].Publish? :: Pending(t, i)
    ensures Accounted(t)
  {
    assert forall i: nat | i < |s.jobs| :: t.jobs[i] == s.jobs[i];
    forall i: nat, kind, track | PublishedBy(s, i, kind, track) ensures PublishedBy(t, i, kind, track) {
    }
    forall track | track in t.capturing && track !in t.lost && track !in t.local.Values
      ensures exists i: nat :: Pending(t, i) && t.jobs[i].track == track
    {
      if track in s.capturing {
        var i: nat :| Pending(s, i) && s.jobs[i].track == track;
        assert Pending(t, i) && t.jobs[i].track == track;
      } else {
        var i: nat :| |s.jobs| <= i < |t.jobs| && t.jobs[i].Publish? && t.jobs[i].track == track;
        assert Pending(t, i);
      }
    }
    forall i: nat | Pending(t, i) ensures t.jobs[i].track in t.capturing {
      if i < |s.jobs| {
        assert Pending(s, i);
      }
    }
  }

  lemma PendingIsNowhereElse(s: State, i: nat)
    requires Accounted(s) && Pending(s, i)
    ensures s.jobs[i].track in s.capturing && s.jobs[i].track !in s.lost && s.jobs[i].track !in s.local.Values
  {
    var track := s.jobs[i].track;
    forall j: nat, kind ensures !PublishedBy(s, j, kind, track) {
      if PublishedBy(s, j, kind, track) {
        OneJobPerTrack(s.jobs, i, j);
      }
    }
  }

  lemma LocalTracksDiffer(s: State, a: TrackKind, b: TrackKind)
    requires Accounted(s) && a in s.local && b in s.local && a != b
    ensures s.local[a] != s.local[b]
  {
    var i: nat :| PublishedBy(s, i, a, s.local[a]);
    var j: nat :| PublishedBy(s, j, b, s.local[b]);
  }

  /** The tracks published for some kinds are stopped. */
  predicate Stopped(s: State, t: State, kinds: set<TrackKind>) {
    t.jobs == s.jobs && t.lost == s.lost && t.local == s.local - kinds &&
    t.capturing == s.capturing - set kind | kind in s.local && kind in kinds :: s.local[kind]
  }

  lemma NotStopped(s: State, t: State, kinds: set<TrackKind>, other: Track)
    requires Stopped(s, t, kinds) && other in t.capturing && other !in t.local.Values
    ensures other in s.capturing && other !in s.local.Values
  {
    forall kind | kind in s.local ensures s.local[kind] != other {
      assert kind !in kinds ==> t.local[kind] in t.local.Values;
    }
  }

  lemma StoppedPlaces(s: State, t: State, kinds: set<TrackKind>)
    requires Accounted(s) && Stopped(s, t, kinds)
    requires forall i: nat :: Pending(t, i) <==> Pending(s, i)
    ensures LocalIsTrue(t) && LostIsTrue(t)
  {
    forall i: nat, kind, track | PublishedBy(s, i, kind, track) ensures PublishedBy(t, i, kind, track) {
    }
    hide Inv, TracksAreNew, PublishedBy, CapturingIsTrue, Pending;
    forall kind | kind in t.local
      ensures t.local[kind] in t.capturing && t.local[kind] !in t.lost && exists i: nat :: PublishedBy(t, i, kind, t.local[kind])
    {
      forall other | other in s.local && other in kinds ensures s.local[other] != s.local[kind] {
        LocalTracksDiffer(s, other, kind);
      }
      var i: nat :| PublishedBy(s, i, kind, s.local[kind]);
      assert PublishedBy(t, i, kind, s.local[kind]);
    }
  }

  lemma StoppedTracks(s: State, t: State, kinds: set<TrackKind>)
    requires Accounted(s) && Inv(t) && Stopped(s, t, kinds)
    requires forall i: nat :: Pending(t, i) <==> Pending(s, i)
    ensures Accounted(t)
  {
    StoppedPlaces(s, t, kinds);
    forall i: nat | Pending(s, i) ensures s.jobs[i].track !in s.local.Values {
      PendingIsNowhereElse(s, i);
    }
    hide Inv, TracksAreNew, PublishedBy, LocalIsTrue, LostIsTrue;
    forall other | other in t.capturing && other !in t.lost && other !in t.local.Values
      ensures exists i: nat :: Pending(t, i) && t.jobs[i].track == other
    {
      NotStopped(s, t, kinds, other);
      var i: nat :| Pending(s, i) && s.jobs[i].track == other;
      assert Pending(t, i);
    }
  }

  /** A track that was pending is lost, stopped, or published in the place of another. */
  predicate Moved(s: State, t: State, kind: TrackKind, track: Track) {
    || (t.local == s.local && t.lost == s.lost + {track} && t.capturing == s.capturing)
    || (t.local == s.local && t.lost == s.lost && t.capturing == s.capturing - {track})
    || (t.local == s.local[kind := track] && t.capturing == s.capturing &&
        t.lost == s.lost + (if kind in s.local then {s.local[kind]} else {}))
  }

  lemma StillPending(s: State, t: State, kind: TrackKind, track: Track, other: Track)
    requires Moved(s, t, kind, track)
    requires other in t.capturing && other !in t.lost && other !in t.local.Values
    ensures other in s.capturing && other !in s.lost && other !in s.local.Values && other != track
  {
    if t.local != s.local {
      assert t.local[kind] in t.local.Values;
      forall k | k in s.local ensures s.local[k] != other {
        assert k != kind ==> t.local[k] in t.local.Values;
      }
    }
  }

  lemma SettledPlaces(s: State, t: State, i: nat)
    requires Accounted(s) && t.jobs == s.jobs && Pending(s, i) && !Pending(t, i)
    requires forall j: nat | j != i :: Pending(t, j) <==> Pending(s, j)
    requires Moved(s, t, s.jobs[i].kind, s.jobs[i].track)
    ensures LocalIsTrue(t) && LostIsTrue(t)
  {
    var Publish(kind, track) := s.jobs[i];
    PendingIsNowhereElse(s, i);
    assert PublishedBy(t, i, kind, track);
    forall j: nat, k, other | PublishedBy(s, j, k, other) ensures PublishedBy(t, j, k, other) {
    }
    hide Inv, CapturingIsTrue, TracksAreNew, PublishedBy;
    forall k | k in t.local
      ensures t.local[k] in t.capturing && t.local[k] !in t.lost && exists j: nat :: PublishedBy(t, j, k, t.local[k])
    {
      if k in s.local && t.local[k] == s.local[k] {
        assert s.local[k] in s.local.Values;
        if k != kind && kind in s.local {
          LocalTracksDiffer(s, k, kind);
        }
        var j: nat :| PublishedBy(s, j, k, s.local[k]);
        assert PublishedBy(t, j, k, s.local[k]);
      } else {
        assert k == kind && t.local[k] == track;
      }
    }
  }

  lemma SettledTrack(s: State, t: State, i: nat)
    requires Accounted(s) && Inv(t) && t.jobs == s.jobs && Pending(s, i) && !Pending(t, i)
    requires forall j: nat | j != i :: Pending(t, j) <==> Pending(s, j)
    requires Moved(s, t, s.jobs[i].kind, s.jobs[i].track)
    ensures Accounted(t)
  {
    SettledPlaces(s, t, i);
    hide Inv, LocalIsTrue, LostIsTrue, TracksAreNew, PublishedBy;
    var Publish(kind, track) := s.jobs[i];
    forall j: nat | Pending(t, j) ensures t.jobs[j].track in t.capturing {
      assert Pending(s, j) && j != i;
      if t.jobs[j].track == track {
        OneJobPerTrack(s.jobs, i, j);
      }
      assert s.jobs[j].track in s.capturing;
    }
    forall other | other in t.capturing && other !in t.lost && other !in t.local.Values
      ensures exists j: nat :: Pending(t, j) && t.jobs[j].track == other
    {
      StillPending(s, t, kind, track, other);
      var j: nat :| Pending(s, j) && s.jobs[j].track == other;
      assert Pending(t, j);
    }
  }

  lemma EnqueueKeepsAccount(s: State, job: Job)
    requires Accounted(s) && Enabled(s, Enqueue(job))
    ensures Accounted(Next(s, Enqueue(job)))
  {
    hide LocalIsTrue, LostIsTrue, CapturingIsTrue;
    var t := Next(s, Enqueue(job));
    StepKeepsInv(s, Enqueue(job));
    var n := |s.jobs|;
    assert |s.chain| == n && t.jobs[n] == job;
    assert (set i: nat | n <= i < |t.jobs| && t.jobs[i].Publish? :: t.jobs[i].track) == if job.Publish? then {job.track} else {};
    SameTracks(s, t);
  }

  lemma TurnKeepsAccount(s: State, i: nat)
    requires Accounted(s) && Enabled(s, Turn(i))
    ensures Accounted(Next(s, Turn(i)))
  {
    hide LocalIsTrue, LostIsTrue, CapturingIsTrue, TracksAreNew, StartsAreExact, Orderly;
    var t := Next(s, Turn(i));
    StepKeepsInv(s, Turn(i));
    if s.engine.CallSide? && s.closed && s.jobs[i].Publish? {
      SettledTrack(s, t, i);
    } else {
      StoppedTracks(s, t, if t.local == s.local then {} else {s.jobs[i].kind});
    }
  }

  lemma FinishKeepsAccount(s: State, i: nat, outcome: Outcome)
    requires Accounted(s) && Enabled(s, Finish(i, outcome))
    ensures Accounted(Next(s, Finish(i, outcome)))
  {
    hide LocalIsTrue, LostIsTrue, CapturingIsTrue, TracksAreNew, StartsAreExact, Orderly;
    var t := Next(s, Finish(i, outcome));
    StepKeepsInv(s, Finish(i, outcome));
    if s.jobs[i].Publish? {
      SettledTrack(s, t, i);
    } else {
      StoppedTracks(s, t, {});
    }
  }

  lemma EndKeepsAccount(s: State)
    requires Accounted(s)
    ensures Accounted(Next(s, End))
  {
    hide LocalIsTrue, LostIsTrue, CapturingIsTrue, TracksAreNew, StartsAreExact, Orderly;
    var t := Next(s, End);
    StepKeepsInv(s, End);
    if t != s {
      assert s.local.Values == set kind | kind in s.local && kind in s.local.Keys :: s.local[kind];
      StoppedTracks(s, t, s.local.Keys);
    }
  }

  /** The step lets go of a track without stopping it: one that replaces another, or whose publishing breaks or comes too late. */
  predicate Loses(s: State, step: Step)
    requires Enabled(s, step) && |s.jobs| == |s.chain|
  {
    match step
    case Enqueue(_) => false
    case Turn(i) => s.jobs[i].Publish? && s.engine.CallSide? && s.closed
    case Finish(i, outcome) =>
      s.jobs[i].Publish? &&
      (outcome.Broken? || (outcome.RequestRefused? && s.engine.LiveHost?) || (outcome.Done? && s.jobs[i].kind in s.local))
    case End => false
  }

  predicate LosesSome(s: State, steps: seq<Step>)
    requires |s.jobs| == |s.chain| && CanRun(s, steps)
    decreases |steps|
  {
    steps != [] && (Loses(s, steps[0]) || LosesSome(Next(s, steps[0]), steps[1..]))
  }

  lemma LostByStep(s: State, step: Step)
    requires Enabled(s, step) && |s.jobs| == |s.chain|
    ensures s.lost <= Next(s, step).lost
    ensures Loses(s, step) ==> Next(s, step).lost != {}
    ensures !Loses(s, step) ==> Next(s, step).lost == s.lost
  {
    if Loses(s, step) {
      var job := s.jobs[step.i];
      assert job.track in Next(s, step).lost || (job.kind in s.local && s.local[job.kind] in Next(s, step).lost);
    }
  }

  lemma StepKeepsAccount(s: State, step: Step)
    requires Accounted(s) && Enabled(s, step)
    ensures Accounted(Next(s, step))
  {
    hide Accounted, Enabled, Next;
    match step
    case Enqueue(job) => EnqueueKeepsAccount(s, job);
    case Turn(i) => TurnKeepsAccount(s, i);
    case Finish(i, outcome) => FinishKeepsAccount(s, i, outcome);
    case End => EndKeepsAccount(s);
  }

  lemma {:induction false} RunLoses(s: State, steps: seq<Step>)
    requires Accounted(s) && CanRun(s, steps)
    ensures Accounted(Run(s, steps)) && s.lost <= Run(s, steps).lost
    ensures Run(s, steps).lost == {} <==> s.lost == {} && !LosesSome(s, steps)
    decreases |steps|
  {
    if steps != [] {
      hide Inv, LocalIsTrue, LostIsTrue, CapturingIsTrue, TracksAreNew, Next, Enabled, Loses;
      LostByStep(s, steps[0]);
      StepKeepsAccount(s, steps[0]);
      RunLoses(Next(s, steps[0]), steps[1..]);
    }
  }

  lemma LeftCapturing(t: State)
    requires Accounted(t) && t.local == map[]
    ensures t.capturing == {} <==> t.lost == {} && forall i: nat :: !Pending(t, i)
  {
    hide Inv, LocalIsTrue, TracksAreNew;
    assert t.local.Values == {};
    if t.lost != {} {
      var track :| track in t.lost;
      assert track in t.capturing;
    }
  }

  lemma EndedTracks(s: State)
    requires Accounted(s) && !(s.engine.CallSide? && s.closed)
    ensures Next(s, End).capturing == {} <==> s.lost == {} && forall i: nat :: !Pending(s, i)
  {
    var t := Next(s, End);
    EndKeepsAccount(s);
    assert t.lost == s.lost && t.local == map[] && forall i: nat :: Pending(t, i) <==> Pending(s, i);
    LeftCapturing(t);
  }

  /**
    After any run that has not closed a call, ending leaves no track capturing exactly when no
    publishing is queued or under way and no step of the run has let go of a track.
  */
  lemma EndSilencesIff(engine: Engine, steps: seq<Step>)
    requires CanRun(Initial(engine), steps)
    ensures var s := Run(Initial(engine), steps);
            !(engine.CallSide? && s.closed) ==>
            (Next(s, End).capturing == {} <==> (forall i: nat :: !Pending(s, i)) && !LosesSome(Initial(engine), steps))
  {
    hide Next, LosesSome;
    RunLoses(Initial(engine), steps);
    hide Accounted;
    var s := Run(Initial(engine), steps);
    if !(engine.CallSide? && s.closed) {
      EndedTracks(s);
    }
  }

  lemma NothingPending(s: State)
    requires Accounted(s) && forall i: nat :: !Pending(s, i)
    ensures s.capturing == {} <==> s.local == map[] && s.lost == {}
  {
    hide Inv, TracksAreNew, PublishedBy, Pending;
    if s.capturing == {} {
      assert forall kind :: kind !in s.local;
      assert forall track :: track !in s.lost;
    } else if s.local == map[] {
      assert s.local.Values == {};
      var track :| track in s.capturing;
      assert track in s.lost;
    }
  }

  /**
    Once nothing is waiting to be published, whether before hanging up or long after, the engine is
    silent exactly when it holds no published track and no step of the run has let go of one.
  */
  lemma SettledSilenceIff(engine: Engine, steps: seq<Step>)
    requires CanRun(Initial(engine), steps)
    ensures var s := Run(Initial(engine), steps);
            (forall i: nat :: !Pending(s, i)) ==>
            (s.capturing == {} <==> s.local == map[] && !LosesSome(Initial(engine), steps))
  {
    hide Next, LosesSome;
    RunLoses(Initial(engine), steps);
    var s := Run(Initial(engine), steps);
    hide Inv, TracksAreNew, Pending;
    if forall i: nat :: !Pending(s, i) {
      NothingPending(s);
    }
  }

  /** A call hung up while its camera is still being published goes on capturing, unless the request is refused. */
  lemma HangUpMissesPublishing(track: Track, outcome: Outcome)
    requires !outcome.RequestRefused?
    ensures CanRun(Initial(CallSide), [Enqueue(Publish(Video, track)), Turn(0), End, Finish(0, outcome)])
    ensures var t := Run(Initial(CallSide), [Enqueue(Publish(Video, track)), Turn(0), End, Finish(0, outcome)]);
            t.closed && t.capturing == {track}
  {
    var s1 := Next(Initial(CallSide), Enqueue(Publish(Video, track)));
    var s2 := Next(s1, Turn(0));
    var s3 := Next(s2, End);
    var s4 := Next(s3, Finish(0, outcome));
    var done := [Finish(0, outcome)];
    assert CanRun(s4, []) && Run(s4, []) == s4;
    assert done[1..] == [];
    assert CanRun(s3, done) && Run(s3, done) == s4;
    assert ([End] + done)[1..] == done;
    assert CanRun(s2, [End] + done) && Run(s2, [End] + done) == s4;
    assert ([Turn(0), End] + done)[1..] == [End] + done;
    assert CanRun(s1, [Turn(0), End] + done) && Run(s1, [Turn(0), End] + done) == s4;
    var all := [Enqueue(Publish(Video, track)), Turn(0), End, Finish(0, outcome)];
    assert all[1..] == [Turn(0), End] + done;
  }
}
