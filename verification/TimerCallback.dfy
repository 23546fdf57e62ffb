/** Which timer an expiry calls back, and exactly when that callback comes before the timer's deadline. */
module TimerCallback {
  import opened Deadline
  import opened Optional
  import opened TimerProtocol
  import opened TimerOwnership
  import opened TimerLedger
  import opened TimerExpiry
  import opened Words
  import HT = HeapTree

  lemma EarlierThrough(a: Timespec, b: Timespec, c: Timespec)
    ensures !Earlier(b, a) && !Earlier(c, b) ==> !Earlier(c, a)
    ensures Earlier(b, c) && !Earlier(b, a) ==> Earlier(a, c)
  {
  }

  /** d was started since the message thread read the client of the timer in hand, on a clock not behind at. */
  predicate StartedSince(s: State, d: Delegate, at: Time) {
    d in s.created && d !in s.seen && !Earlier(d.due, at)
  }

  /** The timer in hand was popped last, and one that its client has, or that is called back, instead is newer. */
  ghost predicate HandOk(s: State) {
    && s.seen <= s.created
    && (Looping(s.task) ==> !Earlier(s.now, s.task.at))
    && (s.task.Popped? || s.task.Stopping? ==> s.batch != [] && s.batch[|s.batch| - 1] == s.task.d)
    && (s.task.Calling? ==>
          && s.batch != []
          && var popped := s.batch[|s.batch| - 1];
                || s.task.d == popped
                || (StartedSince(s, s.task.d, s.task.at) && s.task.d.client == popped.client && popped in s.stopped))
    && (s.task.Stopping? ==>
          && (IsTimerOf(s, s.task.d) || s.task.d in s.stopped)
          && forall d | IsTimerOf(s, d) && d.client == s.task.k && d != s.task.d :: StartedSince(s, d, s.task.at))
  }

  lemma StartHandOk(s: State, k: Client, ms: Word, d0: Delegate)
    requires HandOk(s) && k in s.clients && d0 !in s.created && d0.client == k
    requires d0.due == After(s.now, ms)
    ensures HandOk(DoStart(s, k, d0))
  {
    AfterExact(s.now, ms);
    EarlierIsNanos(d0.due, s.now);
    if Looping(s.task) { EarlierThrough(s.task.at, s.now, d0.due); }
    hide After, Nanos;
  }

  lemma ReleaseHandOk(s: State, k: Client)
    requires HandOk(s) && k in s.clients
    ensures HandOk(DoStop(s, k))
  {
    hide StartedSince;
    SameSince(s, DoStop(s, k));
  }

  lemma DestroyHandOk(s: State, k: Client)
    requires HandOk(s) && k in s.clients
    ensures HandOk(DoDestroy(s, k))
  {
    hide StartedSince, Drop;
    ReleaseHandOk(s, k);
    var s1, s2 := DoStop(s, k), DoDestroy(s, k);
    hide DoStop;
    SameSince(s1, s2);
    assert s2 == s1.(clients := s1.clients - {k}, locks := s2.locks);
  }

  lemma StopHandOk(s: State)
    requires WellFormed(s) && HandOk(s) && s.task.Stopping? && s.task.k in s.clients
    ensures HandOk(ExpireStop(s, s.task.wake, s.task.at, s.task.k))
  {
    hide HeapOk, StartedSince;
    SameSince(s, ExpireStop(s, s.task.wake, s.task.at, s.task.k));
  }

  lemma SameSince(s: State, s': State)
    requires s'.created == s.created && s'.seen == s.seen
    ensures forall d, at :: StartedSince(s', d, at) == StartedSince(s, d, at)
  {
  }

  lemma RestHandOk(s: State)
    requires s.seen <= s.created && (s.task == Idle || s.task.Arming?)
    ensures HandOk(s)
  {
  }

  lemma ReceiveHandOk(s: State)
    requires HandOk(s) && s.msgs != [] && s.task == Idle
    ensures HandOk(DoReceive(s))
  {
    hide HT.Pop, HT.Push, HT.Remove, Drop, UpdateSoonestTime, StartedSince;
    var s' := DoReceive(s);
    match s.msgs[0] {
      case Push(d) =>
        ArmsOrIdles(s'.At(d.wake), d.wake, Top(s.At(d.wake)));
        RestHandOk(s');
      case Remove(d) =>
        ArmsOrIdles(s'.At(d.wake), d.wake, None);
        RestHandOk(s');
      case Expire(_) =>
    }
  }

  /** The message thread reads the client of the popped timer. */
  lemma ReadHandOk(s: State)
    requires Safe(s) && HandOk(s) && s.task.Popped?
    ensures HandOk(DoTask(s))
  {
    hide WellFormed, Places, Removals, PushFirst;
    assert Owned(s, s.task.d);
  }

  lemma NextHandOk(s: State)
    requires HandOk(s) && s.task.Next?
    ensures HandOk(DoTask(s))
  {
    hide HT.Pop, Ranks, UpdateSoonestTime;
    ArmsOrIdles(s.At(s.task.wake), s.task.wake, None);
  }

  lemma TaskHandOk(s: State)
    requires Safe(s) && HandOk(s) && s.task != Idle
    ensures HandOk(DoTask(s))
  {
    hide ExpireStop, WellFormed, AllOwned;
    match s.task {
      case Popped(_, _, _) => ReadHandOk(s);
      case Stopping(_, _, _, k) => if k in s.clients { StopHandOk(s); }
      case Next(_, _) => NextHandOk(s);
      case _ =>
    }
  }

  lemma NewClientHandOk(s: State, k: Client)
    requires WellFormed(s) && HandOk(s) && k !in s.used
    ensures HandOk(Apply(s, NewClient(k)))
  {
    hide HeapOk, StartedSince;
    var s' := Apply(s, NewClient(k));
    SameSince(s, s');
    assert k !in s.clients;
    assert forall d :: IsTimerOf(s', d) <==> IsTimerOf(s, d);
  }

  lemma SafeIsWellFormed(s: State)
    requires Safe(s)
    ensures WellFormed(s)
  {
    hide WellFormed, AllOwned;
  }

  lemma TickHandOk(s: State, now: Clock)
    requires HandOk(s) && !Earlier(now, s.now)
    ensures HandOk(s.(now := now))
  {
    if Looping(s.task) { EarlierThrough(s.task.at, s.now, now); }
    hide Earlier;
  }

  lemma SameHandOk(s: State, s': State)
    requires HandOk(s) && s'.now == s.now && s'.clients == s.clients && s'.task == s.task && s'.batch == s.batch
    requires s'.created == s.created && s'.seen == s.seen && s'.stopped == s.stopped
    ensures HandOk(s')
  {
    SameSince(s, s');
    hide StartedSince;
  }

  lemma HandKept(s: State, step: Step)
    requires Safe(s) && HandOk(s) && Enabled(s, step)
    ensures HandOk(Apply(s, step))
  {
    hide Safe, HandOk, DoStart, DoStop, DoDestroy, DoReceive, DoTask, Ready, After;
    match step {
      case NewClient(k) =>
        SafeIsWellFormed(s);
        NewClientHandOk(s, k);
      case Tick(now) => TickHandOk(s, now);
      case Start(k, id, ms, wake) => StartHandOk(s, k, ms, NewDelegate(s, k, id, ms, wake));
      case Stop(k) => ReleaseHandOk(s, k);
      case Destroy(k) => DestroyHandOk(s, k);
      case Receive => ReceiveHandOk(s);
      case TaskStep => TaskHandOk(s);
      case PollWake(_) => SameHandOk(s, Apply(s, step));
      case PollStep => SameHandOk(s, Apply(s, step));
    }
  }

  lemma {:induction false} RunHand(s: State, steps: seq<Step>)
    requires Safe(s) && HandOk(s) && Run(s, steps).Some?
    ensures HandOk(Run(s, steps).value)
    decreases |steps|
  {
    if steps != [] {
      SafeKept(s, steps[0]);
      HandKept(s, steps[0]);
      RunHand(Apply(s, steps[0]), steps[1..]);
    }
  }

  lemma HandHolds(s: State)
    requires Reachable(s)
    ensures HandOk(s)
  {
    var steps :| Run(INIT, steps) == Some(s);
    forall d ensures Owned(INIT, d) {}
    RunHand(INIT, steps);
  }

  lemma TrackHolds(s: State)
    requires Reachable(s)
    ensures OnTrack(s)
  {
    var steps :| Run(INIT, steps) == Some(s);
    forall d ensures Owned(INIT, d) {}
    RunOnTrack(INIT, steps);
  }

  /** Of what an expire message pops, the timer d that it has popped last is not due yet exactly if none was. */
  lemma LastPoppedEarly(before: Heap, at: Time, now: Time, batch: seq<Delegate>, todo: seq<Delegate>)
    requires HT.Valid(RankDelegates, before) && before.Node? && !Earlier(now, at)
    requires batch != [] && PopExpired(before, at).0 == batch + todo
    ensures Earlier(now, batch[|batch| - 1].due) <==> NoneDue(before, now)
  {
    hide HT.Valid, HT.Elements, HT.Pop, PopDue;
    var popped, d := batch + todo, batch[|batch| - 1];
    PopExpiredExact(before, at);
    assert d == popped[|batch| - 1] && d in popped;
    assert d in multiset(popped);
    assert d in HT.Elements(before);
    assert |batch| > 1 ==> d == popped[1..][|batch| - 2];
    if Earlier(now, d.due) {
      EarlierThrough(at, now, d.due);
      assert d == before.data;
      TopIsSoonest(before);
      forall e | e in HT.Elements(before) ensures !Due(e, now) {
        NotLater(now, d.due, e.due);
      }
    }
  }

  lemma NotLater(a: Timespec, b: Timespec, c: Timespec)
    requires Earlier(a, b) && !Earlier(c, b)
    ensures Earlier(a, c)
  {
  }

  /**
   * The timer that is called back is the one that the expire message popped last, exactly if its client did not
   * stop that one.  Then the callback comes before the deadline exactly if none of the timers that the message
   * found is due yet.  Otherwise it is one that the client has started since the message thread read the client;
   * when that one is due plays no part (see RestartedCallback).
   */
  lemma CalledBackExact(s: State)
    requires Reachable(s) && s.task.Calling?
    ensures s.batch != []
    ensures var d, popped := s.task.d, s.batch[|s.batch| - 1];
      && (d == popped <==> popped !in s.stopped)
      && (d == popped ==> (Earlier(s.now, d.due) <==> NoneDue(s.before, s.now)))
      && (d != popped ==> StartedSince(s, d, s.task.at) && d.client == popped.client)
  {
    HandHolds(s);
    TrackHolds(s);
    LedgerHolds(s);
    assert Accounted(s, s.task.d);
    LastPoppedEarly(s.before, s.task.at, s.now, s.batch, PopDue(s.At(s.task.wake).heap, s.task.at).0);
  }

  /**
   * The stop that the message thread makes for a popped timer stops that timer, and the timer is then called
   * back, exactly if its client has not stopped it since; otherwise it stops and calls back the timer that the
   * client has started since, and none if the client has started none.
   */
  lemma ExpiryStopsItsTimer(s: State)
    requires Reachable(s) && s.task.Stopping?
    ensures var d, k := s.task.d, s.task.k;
      && d in s.live && k in s.clients && s.batch != [] && d == s.batch[|s.batch| - 1]
      && (s.clients[k] == Some(d) <==> s.live[d].client.Some?)
      && (s.clients[k] == Some(d) <==> s.live[d].client == Some(k))
      && DoTask(s).task == (if s.clients[k].Some? then Calling(s.task.wake, s.task.at, s.clients[k].value)
                            else Next(s.task.wake, s.task.at))
      && (s.clients[k].Some? && s.clients[k] != Some(d) ==> StartedSince(s, s.clients[k].value, s.task.at))
      && (s.clients[k] != Some(d) ==> d in s.stopped)
  {
    HandHolds(s);
    OwnershipHolds(s);
    assert Owned(s, s.task.d);
  }

  const POSTED_DUE := ARMED.(sw := Container(Singleton(D0), None, false), msgs := [Expire(false)])
  const READ := POSTED_DUE.(sw := Container(HT.Leaf, None, false), msgs := [],
                            task := Stopping(false, Timespec(0, 0), D0, 0),
                            seen := {D0}, before := Singleton(D0), batch := [D0])

  lemma PostedDueReachable()
    ensures Reachable(POSTED_DUE)
  {
    ArmedReachable();
    hide Reachable;
    var s := Reaches(ARMED, PollWake([false]));
    s := Reaches(s, PollStep);
    s := Reaches(s, PollStep);
    s := Reaches(s, PollStep);
    assert s == POSTED_DUE;
  }

  lemma ReadReachable()
    ensures Reachable(READ)
  {
    PostedDueReachable();
    hide Reachable;
    var s := Reaches(POSTED_DUE, Receive);
    s := Reaches(s, TaskStep);
    assert s == READ;
  }

  /**
   * The other way to an early callback: a due timer is popped and its client read, the client stops it and
   * starts another, and the stop of the message thread hits that one.  It is called back with its whole timeout,
   * whatever that is, still to run.
   */
  lemma RestartedCallback(ms: Word) returns (s: State)
    ensures Reachable(s) && s.task.Calling? && s.task.d.due == After(s.now, ms)
    ensures s.batch == [D0] && AllDue(s.batch, s.task.at) && s.task.d != D0 && !NoneDue(s.before, s.task.at)
  {
    ReadReachable();
    hide Reachable, After;
    s := Reaches(READ, Stop(0));
    s := Reaches(s, Start(0, 1, ms, false));
    s := Reaches(s, TaskStep);
    assert D0 in HT.Elements(Singleton(D0));
  }
}
