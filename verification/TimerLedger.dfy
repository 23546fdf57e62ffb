/** What happens to a timer over its life, counted over whole runs, and how long its lock lives. */
module TimerLedger {
  import opened Deadline
  import opened Optional
  import opened Sequences
  import opened TimerProtocol
  import opened TimerOwnership
  import HT = HeapTree

  /** d was stopped by its expiry, and its callback is about to be called. */
  predicate InCallback(s: State, d: Delegate) {
    s.task.Calling? && s.task.d == d
  }

  /**
   * A started timer is exactly one of: still running, stopped by its client, fired, or about to
   * call back; and it is alive until it is deleted, once.
   */
  ghost predicate Accounted(s: State, d: Delegate) {
    && s.fired[d] + s.stopped[d] + One(IsTimerOf(s, d)) + One(InCallback(s, d)) == One(d in s.created)
    && s.deleted[d] + One(d in s.live) == One(d in s.created)
  }

  ghost predicate AllAccounted(s: State) {
    forall d :: Accounted(s, d)
  }

  lemma SameAccounted(s: State, s': State, d: Delegate)
    requires Accounted(s, d) && s'.clients == s.clients && s'.live == s.live && s'.created == s.created
    requires s'.fired == s.fired && s'.stopped == s.stopped && s'.deleted == s.deleted
    requires InCallback(s', d) == InCallback(s, d)
    ensures Accounted(s', d)
  {
  }

  lemma DeleteAccounted(s: State, s': State, d0: Delegate, d: Delegate)
    requires Accounted(s, d) && d0 in s.live && s'.clients == s.clients && s'.created == s.created
    requires s'.fired == s.fired && s'.stopped == s.stopped
    requires s'.live == s.live - {d0} && s'.deleted == s.deleted + multiset{d0}
    requires InCallback(s', d) == InCallback(s, d)
    ensures Accounted(s', d)
  {
  }

  lemma PopAccounted(s: State, w: bool, at: Time, d: Delegate)
    requires Accounted(s, d) && s.At(w).heap.Node? && !s.task.Calling?
    ensures Accounted(PopTop(s, w, at), d)
  {
    hide HT.Pop, Accounted;
    SameAccounted(s, PopTop(s, w, at), d);
  }

  lemma ReceiveAccounted(s: State, d: Delegate)
    requires Safe(s) && AllAccounted(s) && s.msgs != [] && s.task == Idle
    ensures Accounted(DoReceive(s), d)
  {
    hide HT.Push, HT.Remove, Safe, Accounted, UpdateSoonestTime, Drop, PopTop;
    assert Accounted(s, d);
    match s.msgs[0] {
      case Push(d0) =>
        var c := s.At(d0.wake);
        ArmsOrIdles(c.(heap := HT.Push(RankDelegates, c.heap, d0)), d0.wake, Top(c));
        SameAccounted(s, DoReceive(s), d);
      case Remove(d0) =>
        var c := s.At(d0.wake);
        ArmsOrIdles(c.(heap := HT.Remove(RankDelegates, c.heap, d0).1), d0.wake, None);
        RemovedIsAlone(s);
        DeleteAccounted(s, DoReceive(s), d0, d);
      case Expire(w) =>
        var heap := s.At(w).heap;
        var s1 := s.(msgs := s.msgs[1..], before := heap, batch := []);
        SameAccounted(s, s1, d);
        if heap.Node? { PopAccounted(s1, w, s.now, d); }
    }
  }

  lemma StartAccounted(s: State, k: Client, d0: Delegate, d: Delegate)
    requires Safe(s) && AllAccounted(s) && k in s.clients && d0.client == k && d0 !in s.created
    ensures Accounted(DoStart(s, k, d0), d)
  {
    hide HeapOk, PushFirst, Places;
    assert Accounted(s, d);
    if s.clients[k].None? && d == d0 { assert Owned(s, d); }
  }

  lemma StopAccounted(s: State, k: Client, d: Delegate)
    requires Safe(s) && Accounted(s, d) && k in s.clients
    ensures Accounted(DoStop(s, k), d)
  {
    hide HeapOk, PushFirst, Places;
    if s.clients[k].Some? { assert Owned(s, s.clients[k].value); }
  }

  lemma DestroyAccounted(s: State, k: Client, d: Delegate)
    requires Safe(s) && Accounted(s, d) && k in s.clients
    ensures Accounted(DoDestroy(s, k), d)
  {
    hide Safe, Drop;
    StopAccounted(s, k, d);
  }

  lemma ExpireStopAccounted(s: State, k: Client, d: Delegate)
    requires Safe(s) && Accounted(s, d) && k in s.clients && s.task.Stopping?
    ensures Accounted(ExpireStop(s, s.task.wake, s.task.at, k), d)
  {
    hide HeapOk, PushFirst, Places;
    if s.clients[k].Some? { assert Owned(s, s.clients[k].value); }
  }

  lemma TaskAccounted(s: State, d: Delegate)
    requires Safe(s) && AllAccounted(s) && s.task != Idle
    ensures Accounted(DoTask(s), d)
  {
    hide ExpireStop, AllOwned, WellFormed, Ranks, UpdateSoonestTime, PopTop;
    assert Accounted(s, d);
    match s.task {
      case Stopping(_, _, _, k) =>
        HeldIsAlive(s);
        ExpireStopAccounted(s, k, d);
      case Next(w, at) =>
        ArmsOrIdles(s.At(w), w, None);
        if s.At(w).heap.Node? { PopAccounted(s, w, at, d); }
      case _ =>
    }
  }

  lemma NewClientAccounted(s: State, k: Client, d: Delegate)
    requires Safe(s) && Accounted(s, d) && k !in s.used
    ensures Accounted(Apply(s, NewClient(k)), d)
  {
    hide HeapOk, AllOwned, TaskOk;
  }

  lemma PollAccounted(s: State, d: Delegate)
    requires Accounted(s, d) && s.poll.Handling? && s.poll.todo != []
    ensures Accounted(DoPoll(s), d)
  {
    hide Accounted;
    SameAccounted(s, DoPoll(s), d);
  }

  lemma AccountedKept(s: State, step: Step, d: Delegate)
    requires Safe(s) && AllAccounted(s) && Enabled(s, step)
    ensures Accounted(Apply(s, step), d)
  {
    hide Safe, DoStart, DoStop, DoDestroy, DoPoll, DoReceive, DoTask, Ready, After;
    assert Accounted(s, d);
    match step {
      case Start(k, id, ms, wake) => StartAccounted(s, k, NewDelegate(s, k, id, ms, wake), d);
      case Stop(k) => StopAccounted(s, k, d);
      case Destroy(k) => DestroyAccounted(s, k, d);
      case NewClient(k) => NewClientAccounted(s, k, d);
      case Receive => ReceiveAccounted(s, d);
      case TaskStep => TaskAccounted(s, d);
      case PollStep => PollAccounted(s, d);
      case _ =>
    }
  }

  lemma {:induction false} RunAccounted(s: State, steps: seq<Step>)
    requires Safe(s) && AllAccounted(s) && Run(s, steps).Some?
    ensures AllAccounted(Run(s, steps).value)
    decreases |steps|
  {
    if steps != [] {
      SafeKept(s, steps[0]);
      forall d ensures Accounted(Apply(s, steps[0]), d) { AccountedKept(s, steps[0], d); }
      RunAccounted(Apply(s, steps[0]), steps[1..]);
    }
  }

  lemma LedgerHolds(s: State)
    requires Reachable(s)
    ensures AllAccounted(s)
  {
    var steps :| Run(INIT, steps) == Some(s);
    forall d ensures Owned(INIT, d) && Accounted(INIT, d) {}
    RunAccounted(INIT, steps);
  }

  /** The timers that are running: the values of all mTimer fields. */
  ghost function RunningTimers(s: State): set<Delegate> {
    set d | d in s.created && IsTimerOf(s, d)
  }

  /** Successful starts = callbacks + successful client stops + running timers (+ a callback under way). */
  lemma Conservation(s: State)
    requires Reachable(s)
    ensures |s.created| == |s.fired| + |s.stopped| + |RunningTimers(s)| + One(s.task.Calling?)
    ensures forall d :: s.fired[d] + s.stopped[d] <= 1
  {
    LedgerHolds(s);
    var calling := if s.task.Calling? then multiset{s.task.d} else multiset{};
    forall d ensures multiset(s.created)[d] == (s.fired + s.stopped + multiset(RunningTimers(s)) + calling)[d]
      && s.fired[d] + s.stopped[d] <= 1
    {
      assert Accounted(s, d);
    }
    assert multiset(s.created) == s.fired + s.stopped + multiset(RunningTimers(s)) + calling;
    assert |multiset(s.created)| == |s.created|;
    assert |multiset(RunningTimers(s))| == |RunningTimers(s)|;
    assert |calling| == One(s.task.Calling?);
  }

  /** A deleted delegate was deleted once, and nothing that could still use it holds it. */
  lemma DeletedOnce(s: State, d: Delegate)
    requires Reachable(s) && d in s.deleted
    ensures s.deleted[d] == 1 && d !in s.live
    ensures Push(d) !in s.msgs && Remove(d) !in s.msgs
    ensures d !in HT.Elements(s.At(d.wake).heap) && d !in InHand(s.task)
    ensures d.client in s.clients ==> s.clients[d.client] != Some(d)
  {
    LedgerHolds(s);
    OwnershipHolds(s);
    assert Accounted(s, d) && Owned(s, d);
    assert Push(d) !in multiset(s.msgs) && Remove(d) !in multiset(s.msgs);
  }
}
