/** What a client's calls do to its timer, at once and for the rest of the run. */
module TimerClients {
  import opened Deadline
  import opened Optional
  import opened TimerProtocol
  import opened TimerOwnership
  import opened TimerLiveness
  import opened Words
  import TimerArming
  import TimerLedger
  import TE = TimerExpiry

  /** d is a timer of client k that runs out ms after now. */
  predicate TimerFor(d: Delegate, k: Client, now: Time, ms: Word, wake: bool) {
    d.client == k && d.wake == wake && Nanos(d.due) == Nanos(now) + ms * 1000000
  }

  lemma FreeId(ds: set<Delegate>) returns (id: nat)
    ensures forall d | d in ds :: d.id < id
  {
    id := 0;
    var rest := ds;
    while rest != {}
      invariant rest <= ds && forall d | d in ds - rest :: d.id < id
      decreases rest
    {
      var d :| d in rest;
      rest := rest - {d};
      if d.id >= id { id := d.id + 1; }
    }
  }

  /** A LocTimer that exists can be started at any time, for any timeout and either kind of timer. */
  lemma StartAlwaysPossible(s: State, k: Client, ms: Word, wake: bool) returns (id: nat)
    requires k in s.clients
    ensures Enabled(s, Start(k, id, ms, wake))
  {
    id := FreeId(s.created);
  }

  /** Starting a client without a running timer creates one, with the deadline to the nanosecond, and posts it. */
  lemma StartStarts(s: State, k: Client, id: nat, ms: Word, wake: bool)
    requires Enabled(s, Start(k, id, ms, wake)) && s.clients[k].None?
    ensures var s' := Apply(s, Start(k, id, ms, wake));
      && k in s'.clients && s'.clients[k].Some?
      && var d := s'.clients[k].value;
      && TimerFor(d, k, s.now, ms, wake) && d !in s.created
      && s'.created == s.created + {d} && s'.clients == s.clients[k := Some(d)]
      && s'.live == s.live[d := Fields(Some(k), true)] && s'.msgs == s.msgs + [Push(d)]
      && s'.fired == s.fired && s'.stopped == s.stopped
  {
    DeadlineFits(s.now, ms);
    AfterExact(s.now, ms);
    hide After;
  }

  /** Starting a client whose timer is running changes nothing. */
  lemma StartRefused(s: State, k: Client, id: nat, ms: Word, wake: bool)
    requires Enabled(s, Start(k, id, ms, wake)) && s.clients[k].Some?
    ensures Apply(s, Start(k, id, ms, wake)) == s
  {
    hide After;
  }

  /** Stopping leaves the client without a timer, and counts as stopped exactly the timer that it had. */
  lemma StopStops(s: State, k: Client)
    requires Safe(s) && k in s.clients
    ensures var s' := Apply(s, Stop(k));
      && s'.clients == s.clients[k := None] && s'.created == s.created && s'.fired == s.fired
      && match s.clients[k]
         case None => s'.stopped == s.stopped && s'.msgs == s.msgs
         case Some(d) =>
           && s'.stopped == s.stopped + multiset{d} && s'.msgs == s.msgs + [Remove(d)]
           && s'.live == s.live[d := Fields(None, false)]
  {
    hide HeapOk, Places, PushFirst;
    if s.clients[k].Some? { assert Owned(s, s.clients[k].value); }
  }

  /** Destroying stops the client's timer and leaves no LocTimer. */
  lemma DestroyDestroys(s: State, k: Client)
    requires Safe(s) && Enabled(s, Destroy(k))
    ensures var s' := Apply(s, Destroy(k));
      && s'.clients == s.clients - {k} && s'.stopped == Apply(s, Stop(k)).stopped
      && s'.msgs == Apply(s, Stop(k)).msgs && s'.live == Apply(s, Stop(k)).live
  {
    hide Safe, Drop;
  }

  /** A new LocTimer has no timer running and its lock to itself. */
  lemma NewClientIsIdle(s: State, k: Client)
    requires Safe(s) && Enabled(s, NewClient(k))
    ensures var s' := Apply(s, NewClient(k));
      && k !in s.clients && s'.clients == s.clients[k := None] && s'.locks == s.locks[k := 1]
  {
    hide HeapOk, AllOwned;
  }

  // ---------- for the rest of the run ----------

  /** A step that is not a stop or the destruction of client k. */
  predicate Spares(step: Step, k: Client) {
    step != Stop(k) && step != Destroy(k)
  }

  ghost predicate AllSpare(steps: seq<Step>, k: Client) {
    forall i | 0 <= i < |steps| :: Spares(steps[i], k)
  }

  lemma StopCounts(s: State, k: Client, d: Delegate)
    requires WellFormed(s) && k in s.clients
    ensures DoStop(s, k).stopped[d] == s.stopped[d] + if s.clients[k] == Some(d) then 1 else 0
    ensures DoDestroy(s, k).stopped[d] == DoStop(s, k).stopped[d]
    ensures s.clients[k] == Some(d) ==> d.client == k
  {
    hide HeapOk, Drop;
  }

  /** What has been stopped stays so, and only its own client's calls stop a timer. */
  lemma StoppedStep(s: State, step: Step, d: Delegate)
    requires Safe(s) && Enabled(s, step)
    ensures Apply(s, step).stopped[d] >= s.stopped[d]
    ensures Spares(step, d.client) ==> Apply(s, step).stopped[d] == s.stopped[d]
  {
    hide WellFormed, AllOwned, DoReceive, DoTask, DoPoll, DoStop, DoDestroy, Ready, After;
    match step {
      case Stop(k) => StopCounts(s, k, d);
      case Destroy(k) => StopCounts(s, k, d);
      case PollStep => PollLeaves(s);
      case Receive => ReceiveLeaves(s);
      case TaskStep => TaskLeaves(s);
      case _ =>
    }
  }

  lemma {:induction false} StoppedRun(s: State, steps: seq<Step>, d: Delegate)
    requires Safe(s) && Run(s, steps).Some?
    ensures Run(s, steps).value.stopped[d] >= s.stopped[d]
    ensures AllSpare(steps, d.client) ==> Run(s, steps).value.stopped[d] == s.stopped[d]
    decreases |steps|
  {
    if steps != [] {
      hide Safe, Enabled, Apply;
      StoppedStep(s, steps[0], d);
      SafeKept(s, steps[0]);
      StoppedRun(Apply(s, steps[0]), steps[1..], d);
    }
  }

  lemma CreatedStep(s: State, step: Step, d: Delegate)
    requires Enabled(s, step) && d in s.created && (step.PollStep? ==> s.poll.todo != [])
    ensures d in Apply(s, step).created
  {
    hide DoReceive, DoTask, DoPoll, Ready, After;
    match step {
      case PollStep => PollLeaves(s);
      case Receive => ReceiveLeaves(s);
      case TaskStep => TaskLeaves(s);
      case _ =>
    }
  }

  lemma {:induction false} CreatedRun(s: State, steps: seq<Step>, d: Delegate)
    requires Run(s, steps).Some? && d in s.created
    ensures d in Run(s, steps).value.created
    decreases |steps|
  {
    if steps != [] {
      CreatedStep(s, steps[0], d);
      CreatedRun(Apply(s, steps[0]), steps[1..], d);
    }
  }

  /**
   * The promise of stop: once it has returned true, the timer that was running is never called back, whatever
   * the rest of the run.
   */
  lemma StoppedStaysSilent(s: State, k: Client, steps: seq<Step>)
    requires Reachable(s) && k in s.clients && s.clients[k].Some?
    requires Run(Apply(s, Stop(k)), steps).Some?
    ensures var d := s.clients[k].value; var s' := Run(Apply(s, Stop(k)), steps).value;
      d !in s'.fired && !TimerLedger.InCallback(s', d)
  {
    var d := s.clients[k].value;
    OwnershipHolds(s);
    StopStops(s, k);
    var s1 := TE.Reaches(s, Stop(k));
    OwnershipHolds(s1);
    hide Safe, Apply, Reachable;
    StoppedRun(s1, steps, d);
    RunReaches(s1, steps);
    var s' := Run(s1, steps).value;
    TimerLedger.LedgerHolds(s');
    assert TimerLedger.Accounted(s', d);
  }

  /**
   * The promise of start: for as long as its client neither stops nor is destroyed, the new timer is running, is
   * being called back or has been called back; and it has been once its timeout is over and the service is at rest.
   */
  lemma StartedTimerFires(s: State, k: Client, id: nat, ms: Word, wake: bool, steps: seq<Step>)
    requires Reachable(s) && Enabled(s, Start(k, id, ms, wake)) && s.clients[k].None?
    requires Run(Apply(s, Start(k, id, ms, wake)), steps).Some? && AllSpare(steps, k)
    ensures k in Apply(s, Start(k, id, ms, wake)).clients && Apply(s, Start(k, id, ms, wake)).clients[k].Some?
    ensures var s1 := Apply(s, Start(k, id, ms, wake));
      var d, s' := s1.clients[k].value, Run(s1, steps).value;
      && TimerFor(d, k, s.now, ms, wake)
      && (IsTimerOf(s', d) || TimerLedger.InCallback(s', d) || d in s'.fired)
      && (Quiet(s') && Nanos(s'.now) >= Nanos(s.now) + ms * 1000000 ==> d in s'.fired)
  {
    StartStarts(s, k, id, ms, wake);
    var s1 := TE.Reaches(s, Start(k, id, ms, wake));
    var d := s1.clients[k].value;
    hide Reachable, Apply, Enabled;
    NotStoppedYet(s, s1, d);
    RunFires(s1, steps, d);
  }

  /** A timer that has just been created has not been stopped. */
  lemma NotStoppedYet(s: State, s1: State, d: Delegate)
    requires Reachable(s) && d !in s.created && s1.stopped == s.stopped
    ensures d !in s1.stopped
  {
    hide Reachable;
    TimerLedger.LedgerHolds(s);
    assert TimerLedger.Accounted(s, d);
  }

  lemma RunFires(s: State, steps: seq<Step>, d: Delegate)
    requires Reachable(s) && d in s.created && d !in s.stopped
    requires Run(s, steps).Some? && AllSpare(steps, d.client)
    ensures var s' := Run(s, steps).value;
      && (IsTimerOf(s', d) || TimerLedger.InCallback(s', d) || d in s'.fired)
      && (Quiet(s') && Nanos(s'.now) >= Nanos(d.due) ==> d in s'.fired)
  {
    hide Reachable;
    OwnershipHolds(s);
    hide Safe, Quiet;
    StoppedRun(s, steps, d);
    CreatedRun(s, steps, d);
    RunReaches(s, steps);
    var s' := Run(s, steps).value;
    TimerLedger.LedgerHolds(s');
    assert TimerLedger.Accounted(s', d);
    if Quiet(s') {
      OwnershipHolds(s');
      QuietIsIdle(s');
      EarlierIsNanos(s'.now, d.due);
      if IsTimerOf(s', d) { TimerArming.NoTimerForgotten(s', d); }
    }
  }

  /** From the time a running timer is due, steps of the service alone lead to its callback. */
  lemma CallbackIsReached(s: State, d: Delegate, now: Clock) returns (steps: seq<Step>)
    requires Reachable(s) && IsTimerOf(s, d) && Enabled(s, Tick(now)) && Nanos(now) >= Nanos(d.due)
    ensures var s1 := Apply(s, Tick(now));
      s1.now == now && ServiceRun(steps) && Run(s1, steps).Some? && d in Run(s1, steps).value.fired
  {
    var s1 := TE.Reaches(s, Tick(now));
    hide Reachable;
    OwnershipHolds(s1);
    steps := RestIsReached(s1);
    EarlierIsNanos(now, d.due);
    DueTimersFire(s1, steps, d);
  }
}
