/**
  Creating embedded wallets once per page (apps/web/lib/embedded-wallet-creation.ts).

  Each attempt is a promise chained to the one before. The steps are the calls themselves, the
  start and the outcome of an attempt's `create`, and the two microtasks that follow an outcome:
  remembering a success, and taking the attempt out of the in-flight map. Any interleaving that
  respects what each microtask waits for is allowed.
*/
module WalletCreation {
  import opened Common
  import opened SerialChain

  datatype Kind = Ethereum | Solana

  datatype Attempt = Attempt(kind: Kind, after: Option<nat>, status: Status, remembered: bool, cleared: bool)

  /** What a caller was given: a resolved promise, or one that follows an attempt. */
  datatype Answer = AlreadyCreated(kind: Kind) | Follows(kind: Kind, attempt: nat)

  datatype State = State(
    inFlight: map<Kind, nat>,
    created: set<Kind>,
    queue: Option<nat>,
    attempts: seq<Attempt>,
    answers: seq<Answer>)

  datatype Step =
    | Call(kind: Kind)
    | Start(i: nat)
    | Finish(i: nat, ok: bool)
    | Remember(i: nat)
    | Clear(i: nat)

  const INITIAL := State(map[], {}, None, [], [])

  function Statuses(attempts: seq<Attempt>): (statuses: seq<Status>)
    ensures |statuses| == |attempts|
  {
    seq(|attempts|, i requires 0 <= i < |attempts| => attempts[i].status)
  }

  predicate Enabled(s: State, step: Step) {
    match step
    case Call(_) => true
    case Start(i) =>
      i < |s.attempts| && s.attempts[i].status == Waiting &&
      (s.attempts[i].after.Some? ==>
         s.attempts[i].after.value < |s.attempts| && Settled(s.attempts[s.attempts[i].after.value].status))
    case Finish(i, _) => i < |s.attempts| && s.attempts[i].status == Running
    case Remember(i) => i < |s.attempts| && s.attempts[i].status == Fulfilled && !s.attempts[i].remembered
    case Clear(i) =>
      i < |s.attempts| && !s.attempts[i].cleared &&
      (s.attempts[i].status == Rejected || (s.attempts[i].status == Fulfilled && s.attempts[i].remembered))
  }

  function Next(s: State, step: Step): State
    requires Enabled(s, step)
  {
    match step
    case Call(kind) =>
      if kind in s.created then s.(answers := s.answers + [AlreadyCreated(kind)])
      else if kind in s.inFlight then s.(answers := s.answers + [Follows(kind, s.inFlight[kind])])
      else
        var run := |s.attempts|;
        State(s.inFlight[kind := run], s.created, Some(run),
              s.attempts + [Attempt(kind, s.queue, Waiting, false, false)], s.answers + [Follows(kind, run)])
    case Start(i) => s.(attempts := s.attempts[i := s.attempts[i].(status := Running)])
    case Finish(i, ok) => s.(attempts := s.attempts[i := s.attempts[i].(status := if ok then Fulfilled else Rejected)])
    case Remember(i) =>
      s.(created := s.created + {s.attempts[i].kind}, attempts := s.attempts[i := s.attempts[i].(remembered := true)])
    case Clear(i) =>
      s.(inFlight := s.inFlight - {s.attempts[i].kind}, attempts := s.attempts[i := s.attempts[i].(cleared := true)])
  }

  // ---------------------------------------------------------------------------------------
  // Invariants
  // ---------------------------------------------------------------------------------------

  /** Each attempt is chained to the one before it, and the queue to the last. */
  predicate Chained(s: State) {
    s.queue == (if |s.attempts| == 0 then None else Some(|s.attempts| - 1)) &&
    (forall i | 0 <= i < |s.attempts| :: s.attempts[i].after == if i == 0 then None else Some(i - 1)) &&
    Orderly(Statuses(s.attempts))
  }

  /** The in-flight map holds exactly the attempts not yet cleared. */
  predicate InFlightIsExact(s: State) {
    (forall k | k in s.inFlight ::
       s.inFlight[k] < |s.attempts| && s.attempts[s.inFlight[k]].kind == k && !s.attempts[s.inFlight[k]].cleared) &&
    (forall i | 0 <= i < |s.attempts| && !s.attempts[i].cleared ::
       s.attempts[i].kind in s.inFlight && s.inFlight[s.attempts[i].kind] == i)
  }

  predicate MarksAreTrue(s: State) {
    forall i | 0 <= i < |s.attempts| ::
      var a := s.attempts[i];
      (a.remembered ==> a.status == Fulfilled && a.kind in s.created) &&
      (a.cleared ==> a.status == Rejected || (a.status == Fulfilled && a.remembered)) &&
      a.status != Skipped
  }

  ghost predicate CreatedIsTrue(s: State) {
    forall k | k in s.created :: exists i :: 0 <= i < |s.attempts| && s.attempts[i].kind == k && s.attempts[i].status == Fulfilled
  }

  /** Only a failed and finished attempt is ever followed by another of its kind. */
  predicate RetriesFollowFailures(s: State) {
    forall i, j | 0 <= i < j < |s.attempts| && s.attempts[i].kind == s.attempts[j].kind ::
      s.attempts[i].status == Rejected && s.attempts[i].cleared
  }

  ghost predicate AnswersAreTrue(s: State) {
    forall c | 0 <= c < |s.answers| ::
      match s.answers[c]
      case AlreadyCreated(k) => k in s.created
      case Follows(k, i) => i < |s.attempts| && s.attempts[i].kind == k
  }

  ghost predicate Inv(s: State) {
    Chained(s) && InFlightIsExact(s) && MarksAreTrue(s) && CreatedIsTrue(s) && RetriesFollowFailures(s) && AnswersAreTrue(s)
  }

  predicate MakesAttempt(s: State, kind: Kind) {
    kind !in s.created && kind !in s.inFlight
  }

  lemma NewAttemptChained(s: State, kind: Kind)
    requires Chained(s) && MakesAttempt(s, kind)
    ensures Chained(Next(s, Call(kind)))
  {
    AppendOrderly(Statuses(s.attempts));
    assert Statuses(Next(s, Call(kind)).attempts) == Statuses(s.attempts) + [Waiting];
  }

  lemma NewAttemptInFlight(s: State, kind: Kind)
    requires InFlightIsExact(s) && MakesAttempt(s, kind)
    ensures InFlightIsExact(Next(s, Call(kind)))
  {
  }

  lemma NewAttemptMarks(s: State, kind: Kind)
    requires MarksAreTrue(s) && AnswersAreTrue(s) && MakesAttempt(s, kind)
    ensures MarksAreTrue(Next(s, Call(kind))) && AnswersAreTrue(Next(s, Call(kind)))
  {
  }

  lemma NewAttemptCreated(s: State, kind: Kind)
    requires CreatedIsTrue(s) && MakesAttempt(s, kind)
    ensures CreatedIsTrue(Next(s, Call(kind)))
  {
    var t := Next(s, Call(kind));
    forall k | k in t.created
      ensures exists i :: 0 <= i < |t.attempts| && t.attempts[i].kind == k && t.attempts[i].status == Fulfilled
    {
      var i :| 0 <= i < |s.attempts| && s.attempts[i].kind == k && s.attempts[i].status == Fulfilled;
      assert t.attempts[i] == s.attempts[i];
    }
  }

  /** What keeps a kind from being made twice: anything but a cleared failure shows in one of the two maps. */
  lemma NewAttemptRetries(s: State, kind: Kind)
    requires InFlightIsExact(s) && MarksAreTrue(s) && RetriesFollowFailures(s) && MakesAttempt(s, kind)
    ensures RetriesFollowFailures(Next(s, Call(kind)))
  {
    forall i | 0 <= i < |s.attempts| && s.attempts[i].kind == kind
      ensures s.attempts[i].status == Rejected && s.attempts[i].cleared
    {
    }
  }

  lemma SameAttempts(s: State, t: State)
    requires MarksAreTrue(s) && RetriesFollowFailures(s) && t.attempts == s.attempts && t.created == s.created
    ensures MarksAreTrue(t) && RetriesFollowFailures(t)
  {
  }

  lemma JoinKeepsInv(s: State, kind: Kind)
    requires Inv(s) && !MakesAttempt(s, kind)
    ensures Inv(Next(s, Call(kind)))
  {
    hide MarksAreTrue, RetriesFollowFailures;
    var t := Next(s, Call(kind));
    assert t.attempts == s.attempts && t.created == s.created && t.inFlight == s.inFlight && t.queue == s.queue;
    SameAttempts(s, t);
  }

  lemma CallKeepsInv(s: State, kind: Kind)
    requires Inv(s)
    ensures Inv(Next(s, Call(kind)))
  {
    if MakesAttempt(s, kind) {
      hide Chained, InFlightIsExact, MarksAreTrue, CreatedIsTrue, RetriesFollowFailures, AnswersAreTrue, Next;
      NewAttemptChained(s, kind);
      NewAttemptInFlight(s, kind);
      NewAttemptMarks(s, kind);
      NewAttemptCreated(s, kind);
      NewAttemptRetries(s, kind);
    } else {
      JoinKeepsInv(s, kind);
    }
  }

  lemma StatusesUpdate(attempts: seq<Attempt>, i: nat, a: Attempt)
    requires i < |attempts|
    ensures Statuses(attempts[i := a]) == Statuses(attempts)[i := a.status]
  {
  }

  lemma StepKeepsChain(s: State, step: Step)
    requires Inv(s) && Enabled(s, step) && !step.Call?
    ensures Chained(Next(s, step))
  {
    var t := Next(s, step);
    StatusesUpdate(s.attempts, step.i, t.attempts[step.i]);
    var chain := Statuses(s.attempts);
    match step
    case Start(i) =>
      assert Due(chain, i);
      TurnOrderly(chain, i, Running);
    case Finish(i, ok) => SettleOrderly(chain, i, if ok then Fulfilled else Rejected);
    case Remember(i) => assert chain[i := chain[i]] == chain;
    case Clear(i) => assert chain[i := chain[i]] == chain;
  }

  lemma StepKeepsInFlight(s: State, step: Step)
    requires InFlightIsExact(s) && Enabled(s, step) && !step.Call?
    ensures InFlightIsExact(Next(s, step))
  {
  }

  lemma StepKeepsMarks(s: State, step: Step)
    requires MarksAreTrue(s) && RetriesFollowFailures(s) && Enabled(s, step) && !step.Call?
    ensures MarksAreTrue(Next(s, step)) && RetriesFollowFailures(Next(s, step))
  {
  }

  lemma StepKeepsCreated(s: State, step: Step)
    requires CreatedIsTrue(s) && Enabled(s, step) && !step.Call?
    ensures CreatedIsTrue(Next(s, step))
  {
    var t := Next(s, step);
    forall k | k in t.created
      ensures exists i :: 0 <= i < |t.attempts| && t.attempts[i].kind == k && t.attempts[i].status == Fulfilled
    {
      if k in s.created {
        var i :| 0 <= i < |s.attempts| && s.attempts[i].kind == k && s.attempts[i].status == Fulfilled;
        assert t.attempts[i].kind == k && t.attempts[i].status == Fulfilled;
      } else {
        assert t.attempts[step.i].kind == k && t.attempts[step.i].status == Fulfilled;
      }
    }
  }

  lemma StepKeepsAnswers(s: State, step: Step)
    requires AnswersAreTrue(s) && Enabled(s, step) && !step.Call?
    ensures AnswersAreTrue(Next(s, step))
  {
    var t := Next(s, step);
    assert t.answers == s.answers && s.created <= t.created && |t.attempts| == |s.attempts|;
    assert forall i | 0 <= i < |s.attempts| :: t.attempts[i].kind == s.attempts[i].kind;
  }

  lemma StepKeepsInv(s: State, step: Step)
    requires Inv(s) && Enabled(s, step) && !step.Call?
    ensures Inv(Next(s, step))
  {
    StepKeepsChain(s, step);
    hide Chained, InFlightIsExact, MarksAreTrue, CreatedIsTrue, RetriesFollowFailures, AnswersAreTrue, Next, Enabled;
    StepKeepsInFlight(s, step);
    StepKeepsMarks(s, step);
    StepKeepsCreated(s, step);
    StepKeepsAnswers(s, step);
  }

  // ---------------------------------------------------------------------------------------
  // The page's variables
  // ---------------------------------------------------------------------------------------

  class EmbeddedWallets {
    var inFlight: map<Kind, nat>
    var created: set<Kind>
    var queue: Option<nat>
    var attempts: seq<Attempt>
    ghost var answers: seq<Answer>

    ghost function Now(): State
      reads this
    {
      State(inFlight, created, queue, attempts, answers)
    }

    constructor ()
      ensures Now() == INITIAL && Inv(Now())
    {
      inFlight, created, queue, attempts, answers := map[], {}, None, [], [];
    }

    method CreateEmbeddedWalletOnce(kind: Kind) returns (answer: Answer)
      requires Inv(Now())
      modifies this
      ensures Now() == Next(old(Now()), Call(kind)) && Inv(Now())
      ensures answers == old(answers) + [answer]
    {
      CallKeepsInv(Now(), kind);
      if kind in created {
        answer := AlreadyCreated(kind);
      } else if kind in inFlight {
        answer := Follows(kind, inFlight[kind]);
      } else {
        var run := |attempts|;
        attempts := attempts + [Attempt(kind, queue, Waiting, false, false)];
        queue := Some(run);
        inFlight := inFlight[kind := run];
        answer := Follows(kind, run);
      }
      answers := answers + [answer];
    }

    /** The attempt's turn: the promise it was chained to has settled, and `create` is called. */
    method StartCreate(i: nat)
      requires Inv(Now()) && Enabled(Now(), Start(i))
      modifies this`attempts
      ensures Now() == Next(old(Now()), Start(i)) && Inv(Now())
    {
      StepKeepsInv(Now(), Start(i));
      attempts := attempts[i := attempts[i].(status := Running)];
    }

    method FinishCreate(i: nat, ok: bool)
      requires Inv(Now()) && Enabled(Now(), Finish(i, ok))
      modifies this`attempts
      ensures Now() == Next(old(Now()), Finish(i, ok)) && Inv(Now())
    {
      StepKeepsInv(Now(), Finish(i, ok));
      attempts := attempts[i := attempts[i].(status := if ok then Fulfilled else Rejected)];
    }

    method RememberSuccess(i: nat)
      requires Inv(Now()) && Enabled(Now(), Remember(i))
      modifies this`created, this`attempts
      ensures Now() == Next(old(Now()), Remember(i)) && Inv(Now())
    {
      StepKeepsInv(Now(), Remember(i));
      created := created + {attempts[i].kind};
      attempts := attempts[i := attempts[i].(remembered := true)];
    }

    method ClearInFlight(i: nat)
      requires Inv(Now()) && Enabled(Now(), Clear(i))
      modifies this`inFlight, this`attempts
      ensures Now() == Next(old(Now()), Clear(i)) && Inv(Now())
    {
      StepKeepsInv(Now(), Clear(i));
      inFlight := inFlight - {attempts[i].kind};
      attempts := attempts[i := attempts[i].(cleared := true)];
    }
  }

  // ---------------------------------------------------------------------------------------
  // Every run
  // ---------------------------------------------------------------------------------------

  predicate CanRun(s: State, steps: seq<Step>)
    decreases |steps|
  {
    steps == [] || (Enabled(s, steps[0]) && CanRun(Next(s, steps[0]), steps[1..]))
  }

  function Run(s: State, steps: seq<Step>): State
    requires CanRun(s, steps)
    decreases |steps|
  {
    if steps == [] then s else Run(Next(s, steps[0]), steps[1..])
  }

  lemma {:induction false} RunKeepsInv(s: State, steps: seq<Step>)
    requires Inv(s) && CanRun(s, steps)
    ensures Inv(Run(s, steps))
    decreases |steps|
  {
    if steps != [] {
      if steps[0].Call? {
        CallKeepsInv(s, steps[0].kind);
      } else {
        StepKeepsInv(s, steps[0]);
      }
      RunKeepsInv(Next(s, steps[0]), steps[1..]);
    }
  }

  /**
    In every interleaving: never two creations at once, never two attempts of a kind in flight, an
    attempt after another of its kind only when that one failed, and so at most one success a kind.
  */
  lemma OncePerPage(steps: seq<Step>)
    requires CanRun(INITIAL, steps)
    ensures var attempts := Run(INITIAL, steps).attempts;
            forall i, j | 0 <= i < j < |attempts| ::
              !(attempts[i].status == Running && attempts[j].status == Running) &&
              (attempts[i].kind == attempts[j].kind ==>
                 attempts[i].cleared && attempts[i].status == Rejected)
  {
    RunKeepsInv(INITIAL, steps);
    var attempts := Run(INITIAL, steps).attempts;
    forall i, j | 0 <= i < j < |attempts|
      ensures !(attempts[i].status == Running && attempts[j].status == Running)
    {
      assert Statuses(attempts)[i] == attempts[i].status && Statuses(attempts)[j] == attempts[j].status;
    }
  }

  lemma {:induction false} SuccessStays(s: State, steps: seq<Step>, i: nat)
    requires CanRun(s, steps) && i < |s.attempts| && s.attempts[i].status == Fulfilled
    ensures i < |Run(s, steps).attempts| && Run(s, steps).attempts[i].status == Fulfilled &&
            Run(s, steps).attempts[i].kind == s.attempts[i].kind
    decreases |steps|
  {
    if steps != [] {
      SuccessStays(Next(s, steps[0]), steps[1..], i);
    }
  }

  /** Once a kind has succeeded no further attempt of it is ever made, whatever else happens. */
  lemma NeverCreatedAgain(before: seq<Step>, after: seq<Step>, i: nat)
    requires CanRun(INITIAL, before) && CanRun(Run(INITIAL, before), after)
    requires i < |Run(INITIAL, before).attempts| && Run(INITIAL, before).attempts[i].status == Fulfilled
    ensures var s, t := Run(INITIAL, before), Run(Run(INITIAL, before), after);
            forall j | 0 <= j < |t.attempts| && t.attempts[j].kind == s.attempts[i].kind :: j <= i
  {
    RunKeepsInv(INITIAL, before);
    RunKeepsInv(Run(INITIAL, before), after);
    SuccessStays(Run(INITIAL, before), after, i);
  }

  /** What each step of an attempt changes: its status twice, then the created kinds, then the in-flight map. */
  lemma AttemptStepByStep(s: State, i: nat, ok: bool)
    requires Inv(s)
    ensures Enabled(s, Start(i)) ==> Next(s, Start(i)) == s.(attempts := s.attempts[i := s.attempts[i].(status := Running)])
    ensures Enabled(s, Finish(i, ok)) ==>
              var t := Next(s, Finish(i, ok));
              |t.attempts| == |s.attempts| && t.attempts[i].status == (if ok then Fulfilled else Rejected) &&
              t.attempts[i].kind == s.attempts[i].kind && t.created == s.created && t.inFlight == s.inFlight && t.answers == s.answers
    ensures Enabled(s, Remember(i)) ==>
              var t := Next(s, Remember(i));
              t.created == s.created + {s.attempts[i].kind} && t.inFlight == s.inFlight && t.attempts[i].remembered
    ensures Enabled(s, Clear(i)) ==>
              var t := Next(s, Clear(i));
              t.inFlight.Keys == s.inFlight.Keys - {s.attempts[i].kind} && t.created == s.created && t.attempts[i].cleared
  {
  }

  /**
    What a call is answered: that its kind has been created, and then some attempt of it has succeeded,
    or to follow the last attempt of its kind, which has not been cleared.
  */
  lemma AnswerIsCurrent(s: State, kind: Kind)
    requires Inv(s)
    ensures var t := Next(s, Call(kind));
            |t.answers| == |s.answers| + 1 &&
            match t.answers[|s.answers|]
            case AlreadyCreated(k) =>
              k == kind && t.attempts == s.attempts &&
              exists i :: 0 <= i < |t.attempts| && t.attempts[i].kind == kind && t.attempts[i].status == Fulfilled
            case Follows(k, i) =>
              k == kind && i < |t.attempts| && t.attempts[i].kind == kind && !t.attempts[i].cleared &&
              forall j | i < j < |t.attempts| :: t.attempts[j].kind != kind
  {
    CallKeepsInv(s, kind);
  }

  /** A succeeded kind is in `created` or still in flight, which is what keeps it from being made again. */
  lemma SuccessIsKnown(s: State, i: nat)
    requires Inv(s) && i < |s.attempts| && s.attempts[i].status == Fulfilled
    ensures s.attempts[i].kind in s.created || (s.attempts[i].kind in s.inFlight && s.inFlight[s.attempts[i].kind] == i)
  {
  }

  /** A call makes a new attempt exactly when every earlier attempt of the kind has failed and cleared. */
  lemma RetryIff(s: State, kind: Kind)
    requires Inv(s)
    ensures |Next(s, Call(kind)).attempts| == |s.attempts| + 1 <==>
            forall i | 0 <= i < |s.attempts| && s.attempts[i].kind == kind :: s.attempts[i].status == Rejected && s.attempts[i].cleared
  {
    if forall i | 0 <= i < |s.attempts| && s.attempts[i].kind == kind :: s.attempts[i].status == Rejected && s.attempts[i].cleared {
      assert kind !in s.created && kind !in s.inFlight;
    }
  }

  /**
    A retry made as soon as the caller hears of the failure does not retry: the attempt is still in
    flight, and the call is given the old failure again.
  */
  lemma EarlyRetryJoinsTheFailure(kind: Kind)
    ensures CanRun(INITIAL, [Call(kind), Start(0), Finish(0, false), Call(kind)])
    ensures var s := Run(INITIAL, [Call(kind), Start(0), Finish(0, false), Call(kind)]);
            |s.attempts| == 1 && s.attempts[0].status == Rejected && s.answers == [Follows(kind, 0), Follows(kind, 0)]
  {
    var s1 := Next(INITIAL, Call(kind));
    var s2 := Next(s1, Start(0));
    var s3 := Next(s2, Finish(0, false));
    var s4 := Next(s3, Call(kind));
    assert CanRun(s4, []) && Run(s4, []) == s4;
    assert [Call(kind)][1..] == [];
    assert CanRun(s3, [Call(kind)]) && Run(s3, [Call(kind)]) == s4;
    assert [Finish(0, false), Call(kind)][1..] == [Call(kind)];
    assert CanRun(s2, [Finish(0, false), Call(kind)]) && Run(s2, [Finish(0, false), Call(kind)]) == s4;
    assert [Start(0), Finish(0, false), Call(kind)][1..] == [Finish(0, false), Call(kind)];
    assert CanRun(s1, [Start(0), Finish(0, false), Call(kind)]) && Run(s1, [Start(0), Finish(0, false), Call(kind)]) == s4;
    assert [Call(kind), Start(0), Finish(0, false), Call(kind)][1..] == [Start(0), Finish(0, false), Call(kind)];
  }

  /** While an attempt is in flight, a creation is under way or some step of the page's own can be taken. */
  lemma NeverStalls(s: State, i: nat)
    requires Inv(s) && i < |s.attempts| && !s.attempts[i].cleared
    ensures (exists j :: 0 <= j < |s.attempts| && s.attempts[j].status == Running) ||
            (exists j: nat :: Enabled(s, Start(j)) || Enabled(s, Remember(j)) || Enabled(s, Clear(j)))
  {
    var chain := Statuses(s.attempts);
    match s.attempts[i].status
    case Waiting =>
      NeverStuck(chain, i);
      var j :| 0 <= j < |chain| && (chain[j] == Running || Due(chain, j));
      assert s.attempts[j].status == Running || Enabled(s, Start(j));
    case Running =>
    case Rejected => assert Enabled(s, Clear(i));
    case Fulfilled => assert Enabled(s, if s.attempts[i].remembered then Clear(i) else Remember(i));
  }
}
