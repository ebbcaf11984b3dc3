/**
 The push refresh of the address book backend, as an interleaved step system.

 Push threads call `schedule_refresh`: an atomic swap of `refresh_queued`, then, for the
 thread that found it clear, one custom operation on the serial operation queue. The
 operation (`refresh_after_main_loop`) clears the flag, waits until the main loop has
 dispatched what is ready, and refreshes. The refresh takes the cache lock and then the
 lock of a book view. A finish callback of an earlier operation, on the main loop, takes
 the same two locks in the other order.

 A state is everything the threads share, and a step is one atomic action of one thread.
 */
module PushRefresh {

  datatype Operation = Refresh | Client

  /** What the thread of the serial operation queue is doing. */
  datatype Running =
    | NoOperation
    | ClientRuns
    | Started                              // the refresh operation, before it clears the flag
    | Cleared                              // before it posts the wait source
    | Waiting                              // in the wait for the main loop
    | Returned(drained: bool)              // the wait returned `drained`
    | Begun(drained: bool)                 // the refresh reads the server; it holds no lock yet
    | HoldsCache(drained: bool)
    | HoldsCacheAndView(drained: bool)

  /** What the main loop is dispatching. A finish callback takes the view lock first. */
  datatype MainLoop = Free | CallbackRuns | CallbackHoldsView | CallbackHoldsBoth

  datatype State = State(
    queued: bool,                          // `refresh_queued`
    swapped: set<nat>,                     // pushes between a winning swap and the enqueue
    queue: seq<Operation>,                 // the serial operation queue, next first
    running: Running,
    callbacks: nat,                        // finish callbacks ready at default priority
    stale: nat,                            // wait sources whose waiter timed out
    marker: bool,                          // the wait source of the running operation is queued
    signalled: bool,                       // that wait source has run
    mainLoop: MainLoop,
    uncovered: set<nat>,                   // pushes with no refresh begun since their swap
    enqueues: nat,
    starts: nat
  )

  const INITIAL := State(false, {}, [], NoOperation, 0, 0, false, false, Free, {}, 0, 0)

  datatype Step =
    | Push(id: nat)
    | ClientRequest
    | Schedule(id: nat)
    | Start
    | FinishClient
    | ClearFlag
    | PostMarker
    | WaitReturns
    | Begin
    | TakeCache
    | TakeView
    | FinishRefresh
    | DispatchCallback
    | CallbackTakesView
    | CallbackTakesCache
    | CallbackEnds
    | DispatchIdle
    | Stutter

  predicate CacheFreeForCallback(s: State) {
    !s.running.HoldsCache? && !s.running.HoldsCacheAndView?
  }

  /** Whether the thread that `step` belongs to can take it in `s`. A lock that another
      thread holds disables the step. The main loop dispatches a wait source, which has
      idle priority, only when no callback is ready. */
  predicate Enabled(s: State, step: Step) {
    match step
    case Push(id) => id !in s.swapped && id !in s.uncovered
    case ClientRequest => true
    case Schedule(id) => id in s.swapped
    case Start => s.running.NoOperation? && s.queue != []
    case FinishClient => s.running.ClientRuns?
    case ClearFlag => s.running.Started?
    case PostMarker => s.running.Cleared?
    case WaitReturns => s.running.Waiting?
    case Begin => s.running.Returned?
    case TakeCache => s.running.Begun? && !s.mainLoop.CallbackHoldsBoth?
    case TakeView => s.running.HoldsCache? && !s.mainLoop.CallbackHoldsView? && !s.mainLoop.CallbackHoldsBoth?
    case FinishRefresh => s.running.HoldsCacheAndView?
    case DispatchCallback => s.mainLoop.Free? && s.callbacks > 0
    case CallbackTakesView => s.mainLoop.CallbackRuns? && !s.running.HoldsCacheAndView?
    case CallbackTakesCache => s.mainLoop.CallbackHoldsView? && CacheFreeForCallback(s)
    case CallbackEnds => s.mainLoop.CallbackHoldsBoth?
    case DispatchIdle => s.mainLoop.Free? && s.callbacks == 0 && (s.stale > 0 || s.marker)
    case Stutter => true
  }

  /** The state after `step`. A wait that returns before its source ran has timed out: it
      returns false and leaves its source behind. */
  function After(s: State, step: Step): (t: State)
    requires Enabled(s, step)
  {
    match step
    case Push(id) =>
      if s.queued then s.(uncovered := s.uncovered + {id})
      else s.(queued := true, swapped := s.swapped + {id}, uncovered := s.uncovered + {id})
    case ClientRequest => s.(queue := s.queue + [Client])
    case Schedule(id) => s.(swapped := s.swapped - {id}, queue := s.queue + [Refresh], enqueues := s.enqueues + 1)
    case Start =>
      if s.queue[0].Refresh? then s.(queue := s.queue[1..], running := Started, starts := s.starts + 1)
      else s.(queue := s.queue[1..], running := ClientRuns)
    case FinishClient => s.(running := NoOperation, callbacks := s.callbacks + 1)
    case ClearFlag => s.(running := Cleared, queued := false)
    case PostMarker => s.(running := Waiting, marker := true, signalled := false)
    case WaitReturns =>
      if s.signalled then s.(running := Returned(true))
      else s.(running := Returned(false), marker := false, stale := s.stale + 1)
    case Begin => s.(running := Begun(s.running.drained), uncovered := {})
    case TakeCache => s.(running := HoldsCache(s.running.drained))
    case TakeView => s.(running := HoldsCacheAndView(s.running.drained))
    case FinishRefresh => s.(running := NoOperation)
    case DispatchCallback => s.(callbacks := s.callbacks - 1, mainLoop := CallbackRuns)
    case CallbackTakesView => s.(mainLoop := CallbackHoldsView)
    case CallbackTakesCache => s.(mainLoop := CallbackHoldsBoth)
    case CallbackEnds => s.(mainLoop := Free)
    case DispatchIdle =>
      if s.stale > 0 then s.(stale := s.stale - 1)
      else s.(marker := false, signalled := true)
    case Stutter => s
  }

  // ---------------------------------------------------------------------------
  // Runs

  /** Whether `steps` can be taken one after the other from the initial state. */
  predicate Legal(steps: seq<Step>)
    decreases |steps|, 0
  {
    steps == [] ||
    (Legal(steps[..|steps| - 1]) && Enabled(Run(steps[..|steps| - 1]), steps[|steps| - 1]))
  }

  function Run(steps: seq<Step>): (s: State)
    requires Legal(steps)
    decreases |steps|, 1
  {
    if steps == [] then INITIAL else After(Run(steps[..|steps| - 1]), steps[|steps| - 1])
  }

  lemma {:induction false} LegalPrefix(steps: seq<Step>, n: nat)
    requires n <= |steps| && Legal(steps)
    ensures Legal(steps[..n])
    decreases |steps|
  {
    if n < |steps| {
      LegalPrefix(steps[..|steps| - 1], n);
      assert steps[..|steps| - 1][..n] == steps[..n];
    } else {
      assert steps[..n] == steps;
    }
  }

  // ---------------------------------------------------------------------------
  // The invariant

  function Refreshes(queue: seq<Operation>): (n: nat) {
    if queue == [] then 0 else Refreshes(queue[1..]) + (if queue[0].Refresh? then 1 else 0)
  }

  lemma {:induction false} RefreshesAppend(queue: seq<Operation>, op: Operation)
    ensures Refreshes(queue + [op]) == Refreshes(queue) + (if op.Refresh? then 1 else 0)
  {
    if queue == [] {
      assert queue + [op] == [op];
    } else {
      assert (queue + [op])[1..] == queue[1..] + [op];
      RefreshesAppend(queue[1..], op);
    }
  }

  lemma {:induction false} RefreshesMember(queue: seq<Operation>)
    ensures Refresh in queue <==> Refreshes(queue) > 0
  {
    if queue != [] {
      RefreshesMember(queue[1..]);
    }
  }

  /** The running operation is a refresh that has not begun to read the server. */
  predicate NotBegun(running: Running) {
    running.Started? || running.Cleared? || running.Waiting? || running.Returned?
  }

  /** Someone still owes a refresh that will begin later than now. */
  predicate RefreshPending(s: State) {
    s.swapped != {} || Refresh in s.queue || NotBegun(s.running)
  }

  /** The holders of the flag: a thread between swap and enqueue, a queued operation, and a
      started operation that has not cleared it. */
  function Holders(s: State): (n: nat) {
    |s.swapped| + Refreshes(s.queue) + (if s.running.Started? then 1 else 0)
  }

  predicate Quiet(s: State) {
    s.callbacks == 0 && s.mainLoop.Free?
  }

  predicate Drained(running: Running) {
    match running
    case Returned(d) => d
    case Begun(d) => d
    case HoldsCache(d) => d
    case HoldsCacheAndView(d) => d
    case _ => false
  }

  predicate TimedOut(running: Running) {
    match running
    case Returned(d) => !d
    case Begun(d) => !d
    case HoldsCache(d) => !d
    case HoldsCacheAndView(d) => !d
    case _ => false
  }

  /** The flag and the refreshes that it stands for. */
  predicate InvFlag(s: State) {
    && Holders(s) == (if s.queued then 1 else 0)
    && s.enqueues == s.starts + Refreshes(s.queue)
    && (s.uncovered != {} ==> RefreshPending(s))
  }

  /** The wait for the main loop and the two locks. */
  predicate InvLocks(s: State) {
    && (s.marker ==> s.running.Waiting?)
    && (s.running.Waiting? ==> s.marker == !s.signalled)
    && (s.running.Waiting? && s.signalled ==> Quiet(s))
    && (Drained(s.running) ==> Quiet(s))
    && (s.running.HoldsCache? ==> !s.mainLoop.CallbackHoldsBoth?)
    && (s.running.HoldsCacheAndView? ==> s.mainLoop.Free? || s.mainLoop.CallbackRuns?)
  }

  predicate Inv(s: State) {
    InvFlag(s) && InvLocks(s)
  }

  lemma {:induction false} InvFlagPush(s: State, id: nat)
    requires InvFlag(s) && Enabled(s, Push(id))
    ensures InvFlag(After(s, Push(id)))
  {
    RefreshesMember(s.queue);
    if !s.queued {
      assert s.swapped == {};
      assert After(s, Push(id)).swapped == {id};
    }
  }

  lemma {:induction false} InvFlagSchedule(s: State, id: nat)
    requires InvFlag(s) && Enabled(s, Schedule(id))
    ensures InvFlag(After(s, Schedule(id)))
  {
    RefreshesAppend(s.queue, Refresh);
    assert |s.swapped - {id}| == |s.swapped| - 1;
    assert (s.queue + [Refresh])[|s.queue|] == Refresh;
  }

  lemma {:induction false} InvFlagStart(s: State)
    requires InvFlag(s) && Enabled(s, Start)
    ensures InvFlag(After(s, Start))
  {
  }

  lemma {:induction false} InvFlagStep(s: State, step: Step)
    requires InvFlag(s) && Enabled(s, step)
    ensures InvFlag(After(s, step))
  {
    match step {
      case Push(id) => InvFlagPush(s, id);
      case Schedule(id) => InvFlagSchedule(s, id);
      case Start => InvFlagStart(s);
      case ClientRequest =>
        RefreshesAppend(s.queue, Client);
        assert Refresh in s.queue ==> Refresh in s.queue + [Client];
      case _ =>
    }
  }

  lemma {:induction false} InvLocksStep(s: State, step: Step)
    requires InvLocks(s) && Enabled(s, step)
    ensures InvLocks(After(s, step))
  {
  }

  lemma {:induction false} InvStep(s: State, step: Step)
    requires Inv(s) && Enabled(s, step)
    ensures Inv(After(s, step))
  {
    InvFlagStep(s, step);
    InvLocksStep(s, step);
  }

  lemma {:induction false} InvRun(steps: seq<Step>)
    requires Legal(steps)
    ensures Inv(Run(steps))
    decreases |steps|
  {
    if steps != [] {
      InvRun(steps[..|steps| - 1]);
      InvStep(Run(steps[..|steps| - 1]), steps[|steps| - 1]);
    }
  }

  // ---------------------------------------------------------------------------
  // Safety over every run

  /** The push at position `i` has no refresh that began after it. */
  predicate Uncovered(steps: seq<Step>, i: nat) {
    i < |steps| && steps[i].Push? && (forall j :: i < j < |steps| ==> !steps[j].Begin?)
  }

  lemma {:induction false} UncoveredStaysMarked(steps: seq<Step>, i: nat)
    requires Legal(steps) && Uncovered(steps, i)
    ensures steps[i].id in Run(steps).uncovered
    decreases |steps|
  {
    var before, last := steps[..|steps| - 1], steps[|steps| - 1];
    if i < |steps| - 1 {
      UncoveredStaysMarked(before, i);
      assert !last.Begin?;
    }
    MarkedStep(Run(before), last, steps[i].id);
  }

  lemma {:induction false} MarkedStep(s: State, step: Step, id: nat)
    requires Enabled(s, step) && !step.Begin? && (id in s.uncovered || step == Push(id))
    ensures id in After(s, step).uncovered
  {
  }

  /** No push is lost: in every run, while no refresh has begun after a push, a thread is
      about to enqueue one, or one is queued, or one is started and has not begun. */
  lemma {:induction false} NoLostPush(steps: seq<Step>, i: nat)
    requires Legal(steps) && Uncovered(steps, i)
    ensures RefreshPending(Run(steps))
  {
    UncoveredStaysMarked(steps, i);
    InvRun(steps);
  }

  /** The flag is set exactly while one holder exists, never two, and no more than one
      operation waits unstarted. */
  predicate OneHolder(s: State) {
    && Holders(s) <= 1
    && (s.queued <==> Holders(s) == 1)
    && s.starts <= s.enqueues <= s.starts + 1
  }

  lemma {:induction false} InvOneHolder(s: State)
    requires Inv(s)
    ensures OneHolder(s)
  {
  }

  /** Refreshes coalesce in every run. */
  lemma {:induction false} Coalesced(steps: seq<Step>)
    requires Legal(steps)
    ensures OneHolder(Run(steps))
  {
    InvRun(steps);
    InvOneHolder(Run(steps));
  }

  /** Each of the two threads holds the lock that the other one needs. */
  predicate Deadlocked(s: State) {
    s.running.HoldsCache? && s.mainLoop.CallbackHoldsView?
  }

  /** A refresh whose wait returned true never meets a finish callback: no callback is ready
      or running, so no deadlock is possible and the refresh can take its next step. */
  lemma {:induction false} DrainedRefreshIsFree(steps: seq<Step>)
    requires Legal(steps) && Drained(Run(steps).running)
    ensures Quiet(Run(steps)) && !Deadlocked(Run(steps))
    ensures Run(steps).running.Begun? ==> Enabled(Run(steps), TakeCache)
    ensures Run(steps).running.HoldsCache? ==> Enabled(Run(steps), TakeView)
    ensures Run(steps).running.HoldsCacheAndView? ==> Enabled(Run(steps), FinishRefresh)
  {
    InvRun(steps);
  }

  /** Some wait of the run returned before its source ran. */
  ghost predicate SomeWaitTimedOut(steps: seq<Step>) {
    exists i :: 0 <= i < |steps| && steps[i].WaitReturns? && Legal(steps[..i]) && !Run(steps[..i]).signalled
  }

  /** Only a wait that returns without its signal makes the operation a timed-out one. */
  lemma {:induction false} TimedOutStep(s: State, step: Step)
    requires Enabled(s, step) && TimedOut(After(s, step).running)
    ensures TimedOut(s.running) || (step.WaitReturns? && !s.signalled)
  {
  }

  lemma {:induction false} TimedOutHasTimeout(steps: seq<Step>)
    requires Legal(steps) && TimedOut(Run(steps).running)
    ensures SomeWaitTimedOut(steps)
    decreases |steps|
  {
    var last := |steps| - 1;
    var before := steps[..last];
    var s := Run(before);
    TimedOutStep(s, steps[last]);
    if TimedOut(s.running) {
      TimedOutHasTimeout(before);
      var i :| 0 <= i < |before| && before[i].WaitReturns? && Legal(before[..i]) && !Run(before[..i]).signalled;
      assert before[..i] == steps[..i] && before[i] == steps[i];
    }
  }

  /** A run deadlocks only through the timeout branch of the wait. */
  lemma {:induction false} DeadlockNeedsTimeout(steps: seq<Step>)
    requires Legal(steps) && Deadlocked(Run(steps))
    ensures SomeWaitTimedOut(steps)
  {
    InvRun(steps);
    TimedOutHasTimeout(steps);
  }

  lemma {:induction false} Extend(steps: seq<Step>, step: Step) returns (longer: seq<Step>)
    requires Legal(steps) && Enabled(Run(steps), step)
    ensures Legal(longer) && Run(longer) == After(Run(steps), step)
  {
    longer := steps + [step];
    assert longer[..|longer| - 1] == steps;
  }

  /** The timeout branch keeps the hazard: a run through it reaches the deadlock. */
  lemma {:induction false} TimeoutCanDeadlock() returns (steps: seq<Step>)
    ensures Legal(steps) && Deadlocked(Run(steps))
  {
    steps := [];
    steps := Extend(steps, ClientRequest);
    steps := Extend(steps, Start);
    steps := Extend(steps, FinishClient);
    steps := Extend(steps, Push(0));
    steps := Extend(steps, Schedule(0));
    steps := Extend(steps, Start);
    steps := Extend(steps, ClearFlag);
    steps := Extend(steps, PostMarker);
    steps := Extend(steps, WaitReturns);
    steps := Extend(steps, Begin);
    steps := Extend(steps, DispatchCallback);
    steps := Extend(steps, CallbackTakesView);
    steps := Extend(steps, TakeCache);
  }

  /** A deadlock is forever: no step of any thread ends it. */
  lemma {:induction false} DeadlockIsForever(steps: seq<Step>, n: nat)
    requires n <= |steps| && Legal(steps)
    requires (LegalPrefix(steps, n); Deadlocked(Run(steps[..n])))
    ensures Deadlocked(Run(steps))
    decreases |steps|
  {
    if n < |steps| {
      var before := steps[..|steps| - 1];
      assert before[..n] == steps[..n];
      DeadlockIsForever(before, n);
    } else {
      assert steps[..n] == steps;
    }
  }

  // ---------------------------------------------------------------------------
  // Every push is followed by a refresh

  /** The steps of the operation thread and of the main loop. */
  predicate IsWork(step: Step) {
    !step.Push? && !step.ClientRequest? && !step.Schedule? && !step.Stutter?
  }

  ghost predicate WorkEnabled(s: State) {
    exists step :: IsWork(step) && Enabled(s, step) && (step.WaitReturns? ==> s.signalled)
  }

  /** An infinite run: from the initial state, each step is possible and leads to the next state. */
  ghost predicate Behaviour(states: nat -> State, steps: nat -> Step) {
    && states(0) == INITIAL
    && forall i: nat :: Enabled(states(i), steps(i)) && states(i + 1) == After(states(i), steps(i))
  }

  ghost predicate SchedulesFrom(states: nat -> State, steps: nat -> Step, i: nat) {
    exists j :: i <= j && (steps(j).Schedule? || states(j).swapped == {})
  }

  ghost predicate WorksFrom(states: nat -> State, steps: nat -> Step, i: nat) {
    exists j :: i <= j && (IsWork(steps(j)) || !WorkEnabled(states(j)))
  }

  /** The scheduler is fair to the push thread that must enqueue, and as long as the operation
      thread or the main loop can step, one of them does. No wait for the main loop times out. */
  ghost predicate Fair(states: nat -> State, steps: nat -> Step) {
    && (forall i: nat :: SchedulesFrom(states, steps, i))
    && (forall i: nat :: WorksFrom(states, steps, i))
    && (forall i: nat :: steps(i).WaitReturns? ==> states(i).signalled)
  }

  /** A refresh that is queued or started, and so no longer depends on a push thread. */
  predicate Queued(s: State) {
    Refresh in s.queue || NotBegun(s.running)
  }

  function QueueWork(queue: seq<Operation>): (n: nat) {
    if queue == [] then 0 else if queue[0].Refresh? then 9 else 6 + QueueWork(queue[1..])
  }

  function RunningWork(running: Running): (n: nat) {
    match running
    case NoOperation => 0
    case ClientRuns => 5
    case Started => 8
    case Cleared => 7
    case Waiting => 5
    case Returned(_) => 4
    case Begun(_) => 3
    case HoldsCache(_) => 2
    case HoldsCacheAndView(_) => 1
  }

  function MainLoopWork(s: State): (n: nat) {
    4 * s.callbacks + s.stale + (if s.marker then 1 else 0) +
    match s.mainLoop
    case Free => 0
    case CallbackRuns => 3
    case CallbackHoldsView => 2
    case CallbackHoldsBoth => 1
  }

  /** The steps of work left before the next refresh begins. */
  function Work(s: State): (n: nat) {
    RunningWork(s.running) + MainLoopWork(s) + (if NotBegun(s.running) then 0 else QueueWork(s.queue))
  }

  lemma {:induction false} QueueWorkAppend(queue: seq<Operation>, op: Operation)
    requires Refresh in queue
    ensures QueueWork(queue + [op]) == QueueWork(queue)
  {
    assert (queue + [op])[0] == queue[0];
    if !queue[0].Refresh? {
      assert (queue + [op])[1..] == queue[1..] + [op];
      QueueWorkAppend(queue[1..], op);
    }
  }

  predicate TouchesQueue(step: Step) {
    step.ClientRequest? || step.Schedule? || step.Start?
  }

  lemma {:induction false} WorkStepQueue(s: State, step: Step)
    requires Inv(s) && Enabled(s, step) && Queued(s) && TouchesQueue(step)
    ensures Queued(After(s, step)) && Work(After(s, step)) <= Work(s)
    ensures IsWork(step) ==> Work(After(s, step)) < Work(s)
  {
    if Refresh in s.queue {
      match step {
        case ClientRequest => QueueWorkAppend(s.queue, Client);
        case Schedule(id) => QueueWorkAppend(s.queue, Refresh);
        case Start => assert s.queue == [s.queue[0]] + s.queue[1..];
      }
    }
  }

  /** A step that is not the beginning of a refresh keeps the refresh pending and does not add
      work ahead of it; a step of the operation thread or the main loop removes some. */
  lemma {:induction false} WorkStep(s: State, step: Step)
    requires Inv(s) && Enabled(s, step) && Queued(s) && !step.Begin?
    ensures Queued(After(s, step)) && Work(After(s, step)) <= Work(s)
    ensures IsWork(step) && (step.WaitReturns? ==> s.signalled) ==> Work(After(s, step)) < Work(s)
  {
    if TouchesQueue(step) {
      WorkStepQueue(s, step);
    }
  }

  /** With no timed-out wait, the operation thread or the main loop can step while a refresh
      is pending: the two lock orders never block each other. */
  lemma {:induction false} NeverStuck(s: State)
    requires Inv(s) && Queued(s) && !TimedOut(s.running)
    ensures WorkEnabled(s)
  {
    var step :=
      match s.running
      case NoOperation => Start
      case ClientRuns => FinishClient
      case Started => ClearFlag
      case Cleared => PostMarker
      case Waiting =>
        if s.signalled then WaitReturns
        else (match s.mainLoop
              case Free => if s.callbacks > 0 then DispatchCallback else DispatchIdle
              case CallbackRuns => CallbackTakesView
              case CallbackHoldsView => CallbackTakesCache
              case CallbackHoldsBoth => CallbackEnds)
      case Returned(_) => Begin
      case Begun(_) => TakeCache
      case HoldsCache(_) => TakeView
      case HoldsCacheAndView(_) => FinishRefresh;
    assert IsWork(step) && Enabled(s, step);
  }

  lemma {:induction false} InvAlways(states: nat -> State, steps: nat -> Step, i: nat)
    requires Behaviour(states, steps) && Fair(states, steps)
    ensures Inv(states(i)) && !TimedOut(states(i).running)
  {
    if i > 0 {
      var j: nat := i - 1;
      InvAlways(states, steps, j);
      NextInv(states(j), steps(j), states(j + 1));
    }
  }

  lemma {:induction false} NextInv(s: State, step: Step, next: State)
    requires Enabled(s, step) && next == After(s, step)
    requires Inv(s) && !TimedOut(s.running) && (step.WaitReturns? ==> s.signalled)
    ensures Inv(next) && !TimedOut(next.running)
  {
    InvStep(s, step);
    if TimedOut(next.running) {
      TimedOutStep(s, step);
    }
  }

  ghost predicate BeginsWithin(steps: nat -> Step, i: nat, j: nat) {
    exists k :: i <= k < j && steps(k).Begin?
  }

  /** From `i` to `j`, either a refresh begins or the pending one stays and comes no further away. */
  lemma {:induction false} QueuedUntil(states: nat -> State, steps: nat -> Step, i: nat, j: nat)
    requires Behaviour(states, steps) && Fair(states, steps) && i <= j && Queued(states(i))
    ensures BeginsWithin(steps, i, j) || (Queued(states(j)) && Work(states(j)) <= Work(states(i)))
    decreases j - i
  {
    if i < j {
      QueuedUntil(states, steps, i, j - 1);
      if !BeginsWithin(steps, i, j - 1) && !steps(j - 1).Begin? {
        InvAlways(states, steps, j - 1);
        WorkStep(states(j - 1), steps(j - 1));
        assert states((j - 1) + 1) == After(states(j - 1), steps(j - 1));
      }
    }
  }

  lemma {:induction false} QueuedRefreshBegins(states: nat -> State, steps: nat -> Step, i: nat)
    requires Behaviour(states, steps) && Fair(states, steps) && Queued(states(i))
    ensures exists j :: i <= j && steps(j).Begin?
    decreases Work(states(i))
  {
    assert WorksFrom(states, steps, i);
    var j :| i <= j && (IsWork(steps(j)) || !WorkEnabled(states(j)));
    QueuedUntil(states, steps, i, j);
    if !BeginsWithin(steps, i, j) && !steps(j).Begin? {
      InvAlways(states, steps, j);
      NeverStuck(states(j));
      WorkStep(states(j), steps(j));
      assert states(j + 1) == After(states(j), steps(j));
      QueuedRefreshBegins(states, steps, j + 1);
    }
  }

  /** A push that won the swap keeps its place until it enqueues. */
  lemma {:induction false} SwappedUntil(states: nat -> State, steps: nat -> Step, i: nat, j: nat)
    requires Behaviour(states, steps) && i <= j && states(i).swapped != {}
    ensures states(j).swapped != {} || exists k :: i <= k < j && steps(k).Schedule?
    decreases j - i
  {
    if i < j {
      SwappedUntil(states, steps, i, j - 1);
      assert states((j - 1) + 1) == After(states(j - 1), steps(j - 1));
    }
  }

  /** In every fair infinite run without a timed-out wait, every push is followed by a refresh
      that begins after it. */
  lemma {:induction false} EveryPushIsFollowedByARefresh(states: nat -> State, steps: nat -> Step, i: nat)
    requires Behaviour(states, steps) && Fair(states, steps) && steps(i).Push?
    ensures exists j :: i < j && steps(j).Begin?
  {
    InvAlways(states, steps, i + 1);
    var s := states(i + 1);
    assert s == After(states(i), steps(i));
    assert steps(i).id in s.uncovered;
    if Queued(s) {
      QueuedRefreshBegins(states, steps, i + 1);
    } else {
      assert SchedulesFrom(states, steps, i + 1);
      var j :| i + 1 <= j && (steps(j).Schedule? || states(j).swapped == {});
      SwappedUntil(states, steps, i + 1, j);
      var k :| i + 1 <= k && steps(k).Schedule?;
      var t := states(k + 1);
      assert t == After(states(k), steps(k));
      assert t.queue[|t.queue| - 1] == Refresh;
      QueuedRefreshBegins(states, steps, k + 1);
    }
  }
}
