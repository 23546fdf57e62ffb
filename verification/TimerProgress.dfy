/** How long the message thread can be busy with one message, whatever the other threads do meanwhile. */
module TimerProgress {
  import opened Deadline
  import opened Optional
  import opened TimerProtocol
  import opened TimerOwnership
  import HT = HeapTree

  /** A bound on the steps that the message thread still takes for its message: four for each timer in the heap. */
  function Ahead(s: State): nat {
    match s.task
    case Idle => 0
    case Arming(_, _, pollSet) => if pollSet then 1 else 2
    case Next(w, _) => 4 * HT.Count(s.At(w).heap) + 3
    case Calling(w, _, _) => 4 * HT.Count(s.At(w).heap) + 4
    case Stopping(w, _, _, _) => 4 * HT.Count(s.At(w).heap) + 5
    case Popped(w, _, _) => 4 * HT.Count(s.At(w).heap) + 6
  }

  lemma NextAdvances(s: State)
    requires s.task.Next?
    ensures Ahead(DoTask(s)) < Ahead(s)
  {
    hide UpdateSoonestTime, Ranks;
    ArmsOrIdles(s.At(s.task.wake), s.task.wake, None);
  }

  lemma StopAdvances(s: State)
    requires s.task.Stopping? && s.task.k in s.clients
    ensures Ahead(DoTask(s)) < Ahead(s)
  {
  }

  lemma TaskAdvances(s: State)
    requires Safe(s) && s.task != Idle
    ensures Ahead(DoTask(s)) < Ahead(s)
  {
    hide AllOwned, HeapOk;
    match s.task {
      case Next(_, _) => NextAdvances(s);
      case Stopping(_, _, _, _) => StopAdvances(s);
      case _ =>
    }
  }

  /** What the message thread is at, the heaps it works on, and what it has popped for its message. */
  predicate SameWork(s: State, s': State) {
    && s'.task == s.task && s'.sw.heap == s.sw.heap && s'.hw.heap == s.hw.heap
    && s'.before == s.before && s'.batch == s.batch
  }

  lemma StopSameWork(s: State, k: Client)
    requires k in s.clients
    ensures SameWork(s, DoStop(s, k)) && SameWork(s, DoDestroy(s, k))
  {
    hide Drop;
  }

  lemma PollSameWork(s: State)
    requires s.poll.Handling? && s.poll.todo != []
    ensures SameWork(s, DoPoll(s))
  {
  }

  lemma OthersSameWork(s: State, step: Step)
    requires Enabled(s, step) && step != TaskStep && step != Receive
    ensures SameWork(s, Apply(s, step))
  {
    hide Ready, After, DoStop, DoDestroy, DoPoll, DoReceive, DoTask;
    match step {
      case Stop(k) => StopSameWork(s, k);
      case Destroy(k) => StopSameWork(s, k);
      case PollStep => PollSameWork(s);
      case _ =>
    }
  }

  /** While a message is being processed, no other thread's step prolongs it. */
  lemma OthersWait(s: State, step: Step)
    requires Enabled(s, step) && step != TaskStep && s.task != Idle
    ensures Ahead(Apply(s, step)) == Ahead(s) && Apply(s, step).task == s.task
  {
    OthersSameWork(s, step);
    hide Apply, Ready, HT.Count;
  }

  function TaskSteps(steps: seq<Step>): nat {
    if steps == [] then 0 else (if steps[0] == TaskStep then 1 else 0) + TaskSteps(steps[1..])
  }

  lemma IdleTakesNone(s: State, step: Step)
    requires Enabled(s, step) && s.task == Idle && step != Receive
    ensures step != TaskStep && Apply(s, step).task == Idle
  {
    OthersSameWork(s, step);
  }

  lemma {:induction false} StepsAreBounded(s: State, steps: seq<Step>)
    requires Safe(s) && Run(s, steps).Some? && Receive !in steps
    ensures TaskSteps(steps) <= Ahead(s)
    decreases |steps|
  {
    if steps != [] {
      var s' := Apply(s, steps[0]);
      SafeKept(s, steps[0]);
      StepsAreBounded(s', steps[1..]);
      hide Safe, Enabled, Apply, DoTask;
      if s.task == Idle {
        IdleTakesNone(s, steps[0]);
      } else if steps[0] == TaskStep {
        TaskAdvances(s);
      } else {
        OthersWait(s, steps[0]);
      }
    }
  }

  function KindOf(msg: Msg): bool {
    match msg
    case Push(d) => d.wake
    case Remove(d) => d.wake
    case Expire(wake) => wake
  }

  lemma ReceiveStarts(s: State)
    requires s.msgs != [] && s.task == Idle
    ensures Ahead(DoReceive(s)) <= 4 * HT.Count(s.At(KindOf(s.msgs[0])).heap) + 2
  {
    hide HT.Push, HT.Remove, HT.Count, UpdateSoonestTime, Drop, PopTop;
    match s.msgs[0] {
      case Push(d) =>
        var c := s.At(d.wake);
        ArmsOrIdles(c.(heap := HT.Push(RankDelegates, c.heap, d)), d.wake, Top(c));
      case Remove(d) =>
        var c := s.At(d.wake);
        ArmsOrIdles(c.(heap := HT.Remove(RankDelegates, c.heap, d).1), d.wake, None);
      case Expire(w) =>
        var heap := s.At(w).heap;
        if heap.Node? { PopStarts(s.(msgs := s.msgs[1..], before := heap, batch := []), w); }
    }
  }

  lemma PopStarts(s: State, w: bool)
    requires s.At(w).heap.Node?
    ensures Ahead(PopTop(s, w, s.now)) <= 4 * HT.Count(s.At(w).heap) + 2
  {
  }

  /**
   * Every message ends: from its receipt on, until the next is received, the message thread takes at most four
   * steps for each timer then in the heap and two more, in any interleaving.
   */
  lemma MessageEnds(s: State, steps: seq<Step>)
    requires Reachable(s) && Enabled(s, Receive)
    requires Run(DoReceive(s), steps).Some? && Receive !in steps
    ensures TaskSteps(steps) <= 4 * HT.Count(s.At(KindOf(s.msgs[0])).heap) + 2
  {
    OwnershipHolds(s);
    SafeKept(s, Receive);
    StepsAreBounded(DoReceive(s), steps);
    ReceiveStarts(s);
  }
}
