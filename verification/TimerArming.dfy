/** The kernel timer agrees with the top of the heap whenever nothing is under way to make it so. */
module TimerArming {
  import opened Deadline
  import opened Optional
  import opened Ranking
  import opened TimerProtocol
  import opened TimerOwnership
  import HT = HeapTree

  /** An expire message for the container is posted, about to be posted, or being processed. */
  predicate ExpireUnderWay(s: State, w: bool) {
    || Expire(w) in s.msgs
    || (s.poll.Handling? && w in s.poll.todo)
    || ((s.task.Popped? || s.task.Stopping? || s.task.Calling? || s.task.Next?) && s.task.wake == w)
  }

  /** The message thread is in updateSoonestTime, about to arm the container for that time. */
  predicate AboutToArm(s: State, w: bool, due: Time) {
    s.task.Arming? && s.task.wake == w && s.task.due == Some(due) && (s.task.pollSet ==> s.At(w).polled)
  }

  predicate ArmedFor(c: Container, due: Time) {
    c.armed == Some(due) && c.polled
  }

  predicate Attended(s: State, w: bool) {
    var c := s.At(w);
    && (c.heap.Node? ==>
          || ExpireUnderWay(s, w)
          || AboutToArm(s, w, c.heap.data.due)
          || ArmedFor(c, c.heap.data.due))
    && (s.task.Arming? && s.task.wake == w ==> c.heap.Node? && s.task.due == Some(c.heap.data.due))
  }

  /** Pushing changes the top only to a timer that outranks the old one, so updateSoonestTime sees it. */
  lemma PushTop(heap: HT.Tree<Delegate>, d: Delegate)
    ensures var r := HT.Push(RankDelegates, heap, d);
      && r.Node?
      && (heap.Leaf? ==> r.data == d)
      && (heap.Node? ==> r.data == if OutRanks(RankDelegates, d, heap.data) then d else heap.data)
  {
  }

  lemma ReceivePushAttended(s: State, w: bool)
    requires s.msgs != [] && s.task == Idle && s.msgs[0].Push? && Attended(s, w)
    ensures Attended(DoReceive(s), w)
  {
    hide HT.Push, Ranks;
    var d := s.msgs[0].d;
    PushTop(s.At(d.wake).heap, d);
    assert s.msgs == [Push(d)] + s.msgs[1..];
  }

  lemma ReceiveRemoveAttended(s: State, w: bool)
    requires s.msgs != [] && s.task == Idle && s.msgs[0].Remove? && Attended(s, w)
    requires HeapOk(s.At(s.msgs[0].d.wake).heap, s.msgs[0].d.wake)
    ensures Attended(DoReceive(s), w)
  {
    hide HT.Remove, HT.Elements, Ranks, HeapOk, Drop;
    var d := s.msgs[0].d;
    RemoveHeapOk(s.At(d.wake).heap, d, d.wake);
    assert s.msgs == [Remove(d)] + s.msgs[1..];
  }

  lemma ReceiveExpireAttended(s: State, w: bool)
    requires s.msgs != [] && s.task == Idle && s.msgs[0].Expire? && Attended(s, w)
    ensures Attended(DoReceive(s), w)
  {
    hide HT.Pop;
    assert s.msgs == [s.msgs[0]] + s.msgs[1..];
  }

  lemma PollUnderWay(s: State, w: bool)
    requires s.poll.Handling? && s.poll.todo != []
    requires w == s.poll.todo[0] || ExpireUnderWay(s, w)
    ensures ExpireUnderWay(DoPoll(s), w)
  {
    match s.poll.stage {
      case Post => assert s.poll.todo == [s.poll.todo[0]] + s.poll.todo[1..];
      case _ =>
    }
  }

  lemma PollAttended(s: State, w: bool)
    requires s.poll.Handling? && s.poll.todo != [] && Attended(s, w)
    ensures Attended(DoPoll(s), w)
  {
    hide ExpireUnderWay;
    if w == s.poll.todo[0] || ExpireUnderWay(s, w) { PollUnderWay(s, w); }
  }

  lemma NextAttended(s: State, w: bool)
    requires s.task.Next? && Attended(s, w)
    ensures Attended(DoTask(s), w)
  {
    hide HT.Pop, Ranks, OutRanks;
  }

  lemma ArmingAttended(s: State, w: bool)
    requires s.task.Arming? && Attended(s, w)
    ensures Attended(DoTask(s), w)
  {
  }

  lemma TaskAttended(s: State, w: bool)
    requires s.task != Idle && Attended(s, w)
    ensures Attended(DoTask(s), w)
  {
    hide ExpireStop, UpdateSoonestTime, PopTop, Ranks;
    match s.task {
      case Stopping(_, at, _, k) => if k in s.clients { StopAttended(s, at, k, w); }
      case Next(_, _) => NextAttended(s, w);
      case Arming(_, _, _) => ArmingAttended(s, w);
      case _ =>
    }
  }

  lemma StopAttended(s: State, at: Time, k: Client, w: bool)
    requires s.task.Stopping? && k in s.clients && Attended(s, w)
    ensures Attended(ExpireStop(s, s.task.wake, at, k), w)
  {
    assert s.msgs <= Release(s, k).msgs;
    assert Expire(w) in s.msgs ==> Expire(w) in Release(s, k).msgs;
  }

  lemma HeapsOk(s: State)
    requires Safe(s)
    ensures HeapOk(s.At(true).heap, true) && HeapOk(s.At(false).heap, false)
  {
    hide HeapOk;
  }

  lemma SameAttended(s: State, s': State, w: bool)
    requires Attended(s, w)
    requires s'.At(w) == s.At(w) && s'.task == s.task && s.msgs <= s'.msgs
    requires s'.poll == s.poll || s.poll == Waiting
    ensures Attended(s', w)
  {
    assert Expire(w) in s.msgs ==> Expire(w) in s'.msgs;
  }

  lemma AttendedKept(s: State, step: Step, w: bool)
    requires Safe(s) && Enabled(s, step) && Attended(s, w)
    ensures Attended(Apply(s, step), w)
  {
    hide DoPoll, DoReceive, DoTask, Ready, After, Safe, Drop, Attended;
    match step {
      case PollStep => PollAttended(s, w);
      case Receive =>
        match s.msgs[0] {
          case Push(_) => ReceivePushAttended(s, w);
          case Remove(d) =>
            assert HeapOk(s.At(d.wake).heap, d.wake) by { HeapsOk(s); }
            ReceiveRemoveAttended(s, w);
          case Expire(_) => ReceiveExpireAttended(s, w);
        }
      case TaskStep => TaskAttended(s, w);
      case _ => SameAttended(s, Apply(s, step), w);
    }
  }

  lemma {:induction false} RunAttended(s: State, steps: seq<Step>, w: bool)
    requires Safe(s) && Attended(s, w) && Run(s, steps).Some?
    ensures Attended(Run(s, steps).value, w)
    decreases |steps|
  {
    if steps != [] {
      SafeKept(s, steps[0]);
      AttendedKept(s, steps[0], w);
      RunAttended(Apply(s, steps[0]), steps[1..], w);
    }
  }

  /**
   * In every reachable state, if a container's heap is not empty, no expire message for it is under
   * way and the message thread is between messages, its timerfd is polled and set to the deadline
   * of the top.
   */
  lemma ArmedAtTop(s: State, w: bool)
    requires Reachable(s) && s.At(w).heap.Node? && !ExpireUnderWay(s, w) && s.task == Idle
    ensures s.At(w).polled && s.At(w).armed == Some(s.At(w).heap.data.due)
  {
    var steps :| Run(INIT, steps) == Some(s);
    forall d ensures Owned(INIT, d) {}
    RunAttended(INIT, steps, w);
  }

  /**
   * No timer is forgotten: when neither the message thread nor the poll thread has anything to do,
   * every running timer is due in the future.
   */
  lemma NoTimerForgotten(s: State, d: Delegate)
    requires Reachable(s) && IsTimerOf(s, d)
    requires s.msgs == [] && s.task == Idle && s.poll == Waiting
    requires forall todo :: !Enabled(s, PollWake(todo))
    ensures Earlier(s.now, d.due)
  {
    hide Safe, Attended, ExpireUnderWay;
    RunningIsInHeap(s, d);
    OwnershipHolds(s);
    HeapsOk(s);
    TopIsSoonest(s.At(d.wake).heap);
    var c := s.At(d.wake);
    NothingUnderWay(s, d.wake);
    ArmedAtTop(s, d.wake);
    assert !Enabled(s, PollWake([d.wake]));
  }

  lemma NothingUnderWay(s: State, w: bool)
    requires s.msgs == [] && s.task == Idle && s.poll == Waiting
    ensures !ExpireUnderWay(s, w)
  {
  }

  lemma RunningIsInHeap(s: State, d: Delegate)
    requires Reachable(s) && IsTimerOf(s, d) && s.msgs == [] && s.task == Idle
    ensures d in HT.Elements(s.At(d.wake).heap) && s.At(d.wake).heap.Node?
  {
    OwnershipHolds(s);
    assert Owned(s, d);
  }
}
