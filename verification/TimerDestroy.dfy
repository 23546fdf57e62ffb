/** Destroying LocTimer objects at any time: when the message thread comes to use one that is gone. */
module TimerDestroy {
  import opened Deadline
  import opened Optional
  import opened TimerProtocol
  import opened TimerOwnership
  import opened TimerLocks
  import TimerCallback
  import TE = TimerExpiry
  import HT = HeapTree

  /** The steps of the service, with LocTimers destroyed whenever their owners please. */
  predicate FreelyEnabled(s: State, step: Step) {
    match step
    case Destroy(k) => k in s.clients
    case _ => Enabled(s, step)
  }

  function FreelyApply(s: State, step: Step): State
    requires FreelyEnabled(s, step)
  {
    match step
    case Destroy(k) => DoDestroy(s, k)
    case _ => Apply(s, step)
  }

  function FreeRun(steps: seq<Step>): Option<State> {
    if steps == [] then Some(INIT)
    else
      var n := |steps| - 1;
      var s := FreeRun(steps[..n]);
      if s.Some? && FreelyEnabled(s.value, steps[n]) then Some(FreelyApply(s.value, steps[n])) else None
  }

  /** The i-th step is the message thread's, which holds a LocTimer that does not exist any more. */
  predicate UsesDestroyed(steps: seq<Step>, i: nat)
    requires i < |steps|
  {
    var s := FreeRun(steps[..i]);
    s.Some? && steps[i] == TaskStep && Held(s.value.task).Some? && Held(s.value.task).value !in s.value.clients
  }

  /** The j-th step destroys a LocTimer that the message thread has read and not used for the last time. */
  predicate DestroysHeld(steps: seq<Step>, j: nat)
    requires j < |steps|
  {
    var s := FreeRun(steps[..j]);
    s.Some? && steps[j].Destroy? && Held(s.value.task) == Some(steps[j].k)
  }

  lemma {:induction false} PrefixRuns(steps: seq<Step>, i: nat)
    requires FreeRun(steps).Some? && i <= |steps|
    ensures FreeRun(steps[..i]).Some?
    ensures i < |steps| ==>
      var s := FreeRun(steps[..i]).value;
      FreelyEnabled(s, steps[i]) && FreeRun(steps[..i + 1]) == Some(FreelyApply(s, steps[i]))
    decreases |steps|
  {
    hide FreelyEnabled, FreelyApply;
    var n := |steps| - 1;
    if i == |steps| {
      assert steps[..i] == steps;
    } else if i == n {
      assert steps[..i + 1] == steps;
    } else {
      PrefixRuns(steps[..n], i);
      assert steps[..n][..i] == steps[..i] && steps[..n][..i + 1] == steps[..i + 1];
    }
  }

  /** As long as no held LocTimer is destroyed, the run is one of the service. */
  lemma {:induction false} StaysReachable(steps: seq<Step>, i: nat)
    requires FreeRun(steps).Some? && i <= |steps|
    requires forall j | 0 <= j < i :: !DestroysHeld(steps, j)
    ensures FreeRun(steps[..i]).Some? && Reachable(FreeRun(steps[..i]).value)
  {
    if i == 0 {
      TE.InitReachable();
    } else {
      StaysReachable(steps, i - 1);
      PrefixRuns(steps, i - 1);
      assert !DestroysHeld(steps, i - 1);
      hide Reachable, FreeRun;
      var s := FreeRun(steps[..i - 1]).value;
      assert Enabled(s, steps[i - 1]);
      var _ := TE.Reaches(s, steps[i - 1]);
    }
  }

  /** The message thread holds k, which is gone for good. */
  predicate Dangling(s: State, k: Client) {
    Held(s.task) == Some(k) && k !in s.clients && k in s.used
  }

  lemma DanglingKept(s: State, step: Step, k: Client)
    requires FreelyEnabled(s, step) && Dangling(s, k) && step != TaskStep
    ensures Dangling(FreelyApply(s, step), k)
  {
    hide Drop, Ready, After;
  }

  lemma DestroyDangles(s: State, k: Client)
    requires Safe(s) && k in s.clients && Held(s.task) == Some(k)
    ensures Dangling(FreelyApply(s, Destroy(k)), k)
  {
    hide HeapOk, AllOwned, Drop;
  }

  /** From the destruction of a held LocTimer to the next step of the message thread. */
  lemma {:induction false} DanglesOn(steps: seq<Step>, j: nat, i: nat)
    requires FreeRun(steps).Some? && j < i <= |steps| && DestroysHeld(steps, j)
    requires forall l | 0 <= l < j :: !DestroysHeld(steps, l)
    requires forall l | j < l < i :: steps[l] != TaskStep
    ensures FreeRun(steps[..i]).Some? && Dangling(FreeRun(steps[..i]).value, steps[j].k)
  {
    hide FreeRun, Dangling, FreelyApply, Safe;
    PrefixRuns(steps, i - 1);
    if i == j + 1 {
      StaysReachable(steps, j);
      var s := FreeRun(steps[..j]).value;
      OwnershipHolds(s);
      DestroyDangles(s, steps[j].k);
    } else {
      DanglesOn(steps, j, i - 1);
      DanglingKept(FreeRun(steps[..i - 1]).value, steps[i - 1], steps[j].k);
    }
  }

  lemma FirstHeld(steps: seq<Step>, i: nat) returns (j: nat)
    requires i < |steps| && DestroysHeld(steps, i)
    ensures j <= i && DestroysHeld(steps, j) && forall l | 0 <= l < j :: !DestroysHeld(steps, l)
  {
    hide DestroysHeld;
    j := 0;
    while !DestroysHeld(steps, j)
      invariant j <= i && forall l | 0 <= l < j :: !DestroysHeld(steps, l)
      decreases i - j
    {
      j := j + 1;
    }
  }

  lemma NextTaskStep(steps: seq<Step>, j: nat, i: nat) returns (next: nat)
    requires j < i < |steps| && steps[i] == TaskStep
    ensures j < next <= i && steps[next] == TaskStep && forall l | j < l < next :: steps[l] != TaskStep
  {
    next := j + 1;
    while steps[next] != TaskStep
      invariant j < next <= i && forall l | j < l < next :: steps[l] != TaskStep
      decreases i - next
    {
      next := next + 1;
    }
  }

  /**
   * With LocTimers destroyed at any time, the message thread comes to use a destroyed one in exactly those runs
   * in which one is destroyed between the message thread's read of it and its last use of it.
   */
  lemma DestroyGuardExact(steps: seq<Step>)
    requires FreeRun(steps).Some?
    ensures (exists i | 0 <= i < |steps| :: UsesDestroyed(steps, i)) <==>
            (exists j, i | 0 <= j < i < |steps| :: DestroysHeld(steps, j) && steps[i] == TaskStep)
  {
    if i :| 0 <= i < |steps| && UsesDestroyed(steps, i) {
      if forall j | 0 <= j < i :: !DestroysHeld(steps, j) {
        StaysReachable(steps, i);
        OwnershipHolds(FreeRun(steps[..i]).value);
        HeldIsAlive(FreeRun(steps[..i]).value);
        assert false;
      }
    }
    if j, i :| 0 <= j < i < |steps| && DestroysHeld(steps, j) && steps[i] == TaskStep {
      var first := FirstHeld(steps, j);
      var next := NextTaskStep(steps, first, i);
      DanglesOn(steps, first, next);
      assert UsesDestroyed(steps, next);
    }
  }

  // ---------- what the owner of a LocTimer can tell ----------

  ghost predicate CalledIsLive(s: State) {
    s.task.Calling? ==> s.task.d in s.live
  }

  lemma ReceiveCallsNobody(s: State)
    requires s.msgs != [] && s.task == Idle
    ensures !DoReceive(s).task.Calling?
  {
    hide HT.Pop, HT.Push, HT.Remove, Drop;
    match s.msgs[0] {
      case Push(d) =>
      case Remove(d) =>
      case Expire(_) =>
    }
  }

  lemma TaskCalledIsLive(s: State)
    requires Safe(s) && s.task != Idle && CalledIsLive(s)
    ensures CalledIsLive(DoTask(s))
  {
    hide WellFormed, AllOwned, UpdateSoonestTime, HT.Pop, Ranks;
    match s.task {
      case Stopping(_, _, _, k) => TimerIsLive(s, k);
      case Next(w, _) => ArmsOrIdles(s.At(w), w, None);
      case _ =>
    }
  }

  lemma CalledIsLiveKept(s: State, step: Step)
    requires Safe(s) && CalledIsLive(s) && Enabled(s, step)
    ensures CalledIsLive(Apply(s, step))
  {
    hide Safe, Ready, After, Drop, DoReceive, DoTask;
    match step {
      case Receive => ReceiveCallsNobody(s);
      case TaskStep => TaskCalledIsLive(s);
      case _ =>
    }
  }

  lemma TimerIsLive(s: State, k: Client)
    requires Safe(s)
    ensures k in s.clients && s.clients[k].Some? ==> s.clients[k].value in s.live
  {
    hide HeapOk, PushFirst, Places, Removals;
    if k in s.clients && s.clients[k].Some? { assert Owned(s, s.clients[k].value); }
  }

  lemma {:induction false} RunCalledIsLive(s: State, steps: seq<Step>)
    requires Safe(s) && CalledIsLive(s) && Run(s, steps).Some?
    ensures CalledIsLive(Run(s, steps).value)
    decreases |steps|
  {
    if steps != [] {
      SafeKept(s, steps[0]);
      CalledIsLiveKept(s, steps[0]);
      RunCalledIsLive(Apply(s, steps[0]), steps[1..]);
    }
  }

  /** While the message thread holds a LocTimer, the LocTimer's lock is shared with a delegate. */
  lemma HeldIsShared(s: State, k: Client)
    requires Reachable(s) && Held(s.task) == Some(k)
    ensures k in s.clients && k in s.locks && s.locks[k] >= 2
    ensures exists d :: d in s.live && d.client == k
  {
    var steps :| Run(INIT, steps) == Some(s);
    forall d ensures Owned(INIT, d) {}
    RunCalledIsLive(INIT, steps);
    OwnershipHolds(s);
    HeldIsAlive(s);
    LockCountsReferences(s, k);
    if s.task.Stopping? { assert Owned(s, s.task.d); }
    assert s.task.d in Sharers(s, k);
    assert |Sharers(s, k)| >= |{s.task.d}|;
  }

  /** If the j-th step destroys a LocTimer, nobody shares its lock then. */
  predicate DestroysUnshared(steps: seq<Step>, j: nat)
    requires j < |steps|
  {
    steps[j].Destroy? ==>
      var s := FreeRun(steps[..j]);
      s.Some? && steps[j].k in s.value.locks && s.value.locks[steps[j].k] == 1
  }

  /** So a LocTimer that is destroyed only when nobody shares its lock is never used afterwards. */
  lemma UnsharedDestroyIsSafe(steps: seq<Step>)
    requires FreeRun(steps).Some? && forall j | 0 <= j < |steps| :: DestroysUnshared(steps, j)
    ensures forall i | 0 <= i < |steps| :: !UsesDestroyed(steps, i)
  {
    NoneHeld(steps, |steps|);
    DestroyGuardExact(steps);
  }

  lemma {:induction false} NoneHeld(steps: seq<Step>, n: nat)
    requires FreeRun(steps).Some? && n <= |steps| && forall j | 0 <= j < |steps| :: DestroysUnshared(steps, j)
    ensures forall j | 0 <= j < n :: !DestroysHeld(steps, j)
  {
    hide FreeRun, Reachable;
    if n > 0 {
      NoneHeld(steps, n - 1);
      StaysReachable(steps, n - 1);
      var s := FreeRun(steps[..n - 1]).value;
      assert DestroysUnshared(steps, n - 1);
      if steps[n - 1].Destroy? && Held(s.task) == Some(steps[n - 1].k) {
        HeldIsShared(s, steps[n - 1].k);
        assert false;
      }
    }
  }

  lemma FreelyOn(before: seq<Step>, s: State, step: Step)
    requires FreeRun(before) == Some(s) && Enabled(s, step)
    ensures FreeRun(before + [step]) == Some(Apply(s, step))
  {
    hide Ready, After;
    assert (before + [step])[..|before|] == before;
  }

  lemma {:induction false} FreelyToo(before: seq<Step>, s: State, steps: seq<Step>)
    requires FreeRun(before) == Some(s) && Run(s, steps).Some?
    ensures FreeRun(before + steps) == Run(s, steps)
    decreases |steps|
  {
    hide FreeRun, Enabled, Apply;
    if steps == [] {
      assert before + steps == before;
    } else {
      FreelyOn(before, s, steps[0]);
      FreelyToo(before + [steps[0]], Apply(s, steps[0]), steps[1..]);
      assert before + [steps[0]] + steps[1..] == before + steps;
    }
  }

  /** A run in which a LocTimer is destroyed while the message thread holds it, and is used then. */
  lemma DestroyedInUse() returns (steps: seq<Step>)
    ensures FreeRun(steps).Some? && steps != [] && UsesDestroyed(steps, |steps| - 1)
  {
    hide FreelyEnabled, FreelyApply;
    TimerCallback.ReadReachable();
    var run :| Run(INIT, run) == Some(TimerCallback.READ);
    FreelyToo([], INIT, run);
    assert [] + run == run;
    DestroyedAfter(run);
    steps := run + [Destroy(0)] + [TaskStep];
    assert steps[..|steps| - 1] == run + [Destroy(0)];
  }

  lemma DestroyedAfter(run: seq<Step>)
    requires FreeRun(run) == Some(TimerCallback.READ)
    ensures FreeRun(run + [Destroy(0)] + [TaskStep]).Some?
    ensures var s := FreeRun(run + [Destroy(0)]); s.Some? && Held(s.value.task) == Some(0) && 0 !in s.value.clients
  {
    assert (run + [Destroy(0)])[..|run|] == run;
    assert (run + [Destroy(0)] + [TaskStep])[..|run| + 1] == run + [Destroy(0)];
  }
}
