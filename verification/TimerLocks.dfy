/** The LocSharedLock of a timer: its count is exact, so it is freed at the last drop and not before. */
module TimerLocks {
  import opened Deadline
  import opened Optional
  import opened TimerProtocol
  import opened TimerOwnership
  import HT = HeapTree

  /** The delegates that share k's lock. */
  ghost function Sharers(s: State, k: Client): set<Delegate> {
    set d | d in s.live && d.client == k
  }

  ghost function References(s: State, k: Client): nat {
    (if k in s.clients then 1 else 0) + |Sharers(s, k)|
  }

  /** The lock exists exactly while somebody refers to it, and counts those who do. */
  ghost predicate LockOk(s: State, k: Client) {
    && (k in s.locks <==> References(s, k) > 0)
    && (k in s.locks ==> s.locks[k] == References(s, k))
  }

  ghost predicate LocksOk(s: State) {
    && (forall d | d in s.created :: d.client in s.used)
    && (forall k :: LockOk(s, k))
  }

  /** A new delegate takes a share of the lock. */
  lemma ShareLockOk(s: State, s': State, d0: Delegate, k: Client)
    requires LockOk(s, k) && d0 !in s.live && d0.client in s.clients && s'.clients.Keys == s.clients.Keys
    requires s'.live.Keys == s.live.Keys + {d0}
    requires s'.locks == s.locks[d0.client := (if d0.client in s.locks then s.locks[d0.client] else 0) + 1]
    ensures LockOk(s', k)
  {
    if k == d0.client {
      assert Sharers(s', k) == Sharers(s, k) + {d0};
    } else {
      assert Sharers(s', k) == Sharers(s, k);
    }
  }

  lemma StartLockOk(s: State, k0: Client, d0: Delegate, k: Client)
    requires Safe(s) && LocksOk(s) && k0 in s.clients && d0.client == k0 && d0 !in s.created
    ensures LockOk(DoStart(s, k0, d0), k)
  {
    hide HeapOk, AllOwned, LockOk;
    assert LockOk(s, k);
    if s.clients[k0].None? { ShareLockOk(s, DoStart(s, k0, d0), d0, k); }
  }

  lemma ReleaseLockOk(s: State, k0: Client, k: Client)
    requires Safe(s) && LocksOk(s) && k0 in s.clients
    ensures LockOk(Release(s, k0), k) && LockOk(DoStop(s, k0), k) && LockOk(DoDestroy(s, k0), k)
    ensures forall w, at :: LockOk(ExpireStop(s, w, at, k0), k)
  {
    hide HeapOk, PushFirst, Places, Removals;
    assert LockOk(s, k) && LockOk(s, k0);
    if s.clients[k0].Some? { assert Owned(s, s.clients[k0].value); }
    assert Release(s, k0).live.Keys == s.live.Keys;
    assert Sharers(Release(s, k0), k) == Sharers(s, k);
    assert Sharers(DoStop(s, k0), k) == Sharers(s, k);
    assert Sharers(DoDestroy(s, k0), k) == Sharers(s, k);
    forall w, at ensures LockOk(ExpireStop(s, w, at, k0), k) {
      assert Sharers(ExpireStop(s, w, at, k0), k) == Sharers(s, k);
    }
  }

  lemma SameLockOk(s: State, s': State, k: Client)
    requires LockOk(s, k) && s'.live == s.live && s'.clients == s.clients && s'.locks == s.locks
    ensures LockOk(s', k)
  {
    assert Sharers(s', k) == Sharers(s, k);
  }

  /** A deleted delegate gives up its share of the lock. */
  lemma DropLockOk(s: State, s': State, d0: Delegate, k: Client)
    requires LockOk(s, k) && d0 in s.live && s'.clients == s.clients
    requires s'.live == s.live - {d0} && s'.locks == Drop(s.locks, d0.client)
    ensures LockOk(s', k)
  {
    if d0.client == k {
      assert d0 in Sharers(s, k);
      assert Sharers(s', k) == Sharers(s, k) - {d0};
    } else {
      assert Sharers(s', k) == Sharers(s, k);
    }
  }

  lemma ReceiveLockOk(s: State, k: Client)
    requires Safe(s) && LocksOk(s) && s.msgs != [] && s.task == Idle
    ensures LockOk(DoReceive(s), k)
  {
    hide HT.Push, HT.Remove, Safe, LockOk, UpdateSoonestTime, Drop, PopTop;
    assert LockOk(s, k);
    match s.msgs[0] {
      case Push(_) => SameLockOk(s, DoReceive(s), k);
      case Remove(d) =>
        RemovedIsAlone(s);
        DropLockOk(s, DoReceive(s), d, k);
      case Expire(w) =>
        var heap := s.At(w).heap;
        var s1 := s.(msgs := s.msgs[1..], before := heap, batch := []);
        SameLockOk(s, s1, k);
        if heap.Node? { PopLockOk(s1, w, s.now, k); }
    }
  }

  lemma NewClientLockOk(s: State, k0: Client, k: Client)
    requires Safe(s) && LocksOk(s) && k0 !in s.used
    ensures LockOk(Apply(s, NewClient(k0)), k)
  {
    hide HeapOk, AllOwned;
    assert LockOk(s, k) && LockOk(s, k0);
    assert Sharers(Apply(s, NewClient(k0)), k) == Sharers(s, k);
    assert Sharers(s, k0) == {};
  }

  lemma PopLockOk(s: State, w: bool, at: Time, k: Client)
    requires LockOk(s, k) && s.At(w).heap.Node?
    ensures LockOk(PopTop(s, w, at), k)
  {
    hide LockOk, HT.Pop;
    SameLockOk(s, PopTop(s, w, at), k);
  }

  lemma TaskLockOk(s: State, k: Client)
    requires Safe(s) && LocksOk(s) && s.task != Idle
    ensures LockOk(DoTask(s), k)
  {
    hide WellFormed, AllOwned, LockOk, ExpireStop, UpdateSoonestTime, PopTop, Ranks;
    assert LockOk(s, k);
    match s.task {
      case Stopping(_, _, _, k0) =>
        HeldIsAlive(s);
        ReleaseLockOk(s, k0, k);
      case Next(w, at) =>
        if s.At(w).heap.Node? { PopLockOk(s, w, at, k); }
        SameLockOk(s, s.(task := DoTask(s).task), k);
      case _ => SameLockOk(s, DoTask(s), k);
    }
  }

  lemma LockKept(s: State, step: Step, k: Client)
    requires Safe(s) && LocksOk(s) && Enabled(s, step)
    ensures LockOk(Apply(s, step), k)
  {
    hide WellFormed, AllOwned, LockOk, DoStart, DoStop, DoDestroy, DoReceive, DoTask, Ready, After;
    assert LockOk(s, k);
    match step {
      case NewClient(k0) => NewClientLockOk(s, k0, k);
      case Start(k0, id, ms, wake) => StartLockOk(s, k0, NewDelegate(s, k0, id, ms, wake), k);
      case Stop(k0) => ReleaseLockOk(s, k0, k);
      case Destroy(k0) => ReleaseLockOk(s, k0, k);
      case Receive => ReceiveLockOk(s, k);
      case TaskStep => TaskLockOk(s, k);
      case _ => SameLockOk(s, Apply(s, step), k);
    }
  }

  lemma StopCreatesNothing(s: State, k: Client)
    requires k in s.clients
    ensures DoStop(s, k).created == s.created && DoStop(s, k).used == s.used
    ensures DoDestroy(s, k).created == s.created && DoDestroy(s, k).used == s.used
  {
    hide Drop;
  }

  lemma CreatedByUsed(s: State, step: Step)
    requires WellFormed(s) && Enabled(s, step)
    requires forall d | d in s.created :: d.client in s.used
    ensures forall d | d in Apply(s, step).created :: d.client in Apply(s, step).used
  {
    hide HeapOk, After, Ready, DoReceive, DoTask, DoStop, DoDestroy, DoPoll;
    match step {
      case Stop(k) => StopCreatesNothing(s, k);
      case Destroy(k) => StopCreatesNothing(s, k);
      case PollStep => PollLeaves(s);
      case Receive => ReceiveLeaves(s);
      case TaskStep => TaskLeaves(s);
      case _ =>
    }
  }

  lemma {:induction false} RunLocks(s: State, steps: seq<Step>)
    requires Safe(s) && LocksOk(s) && Run(s, steps).Some?
    ensures LocksOk(Run(s, steps).value)
    decreases |steps|
  {
    if steps != [] {
      SafeKept(s, steps[0]);
      CreatedByUsed(s, steps[0]);
      forall k ensures LockOk(Apply(s, steps[0]), k) { LockKept(s, steps[0], k); }
      RunLocks(Apply(s, steps[0]), steps[1..]);
    }
  }

  /** In every reachable state each lock counts its LocTimer, if alive, and its undeleted delegates. */
  lemma LockCountsReferences(s: State, k: Client)
    requires Reachable(s)
    ensures k in s.locks <==> k in s.clients || exists d :: d in s.live && d.client == k
    ensures k in s.locks ==> s.locks[k] == References(s, k)
  {
    var steps :| Run(INIT, steps) == Some(s);
    forall d ensures Owned(INIT, d) {}
    forall k ensures LockOk(INIT, k) { assert Sharers(INIT, k) == {}; }
    RunLocks(INIT, steps);
    assert LockOk(s, k);
    if k in s.locks && k !in s.clients {
      var d :| d in Sharers(s, k);
    }
    if d :| d in s.live && d.client == k { assert d in Sharers(s, k); }
  }
}
