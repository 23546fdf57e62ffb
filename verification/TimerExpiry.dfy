/** Which timers an expire message pops, in which order, whatever the other threads do meanwhile. */
module TimerExpiry {
  import opened Deadline
  import opened Optional
  import opened TimerProtocol
  import opened TimerOwnership
  import opened TimerProgress
  import HT = HeapTree

  type Heap = HT.Tree<Delegate>

  /** popIfOutRanks until it yields nothing. */
  function PopDue(heap: Heap, now: Time): (seq<Delegate>, Heap)
    decreases HT.Count(heap)
  {
    if heap.Leaf? || Ranks(now, heap.data.due) > 0 then ([], heap)
    else
      var (rest, heap') := PopDue(HT.Pop(RankDelegates, heap).0, now);
      ([heap.data] + rest, heap')
  }

  /** The loop of MsgTimerExpire: the first timer is popped whether it is due or not. */
  function PopExpired(heap: Heap, now: Time): (seq<Delegate>, Heap) {
    if heap.Leaf? then ([], heap)
    else
      var (rest, heap') := PopDue(HT.Pop(RankDelegates, heap).0, now);
      ([heap.data] + rest, heap')
  }

  predicate Due(d: Delegate, now: Time) {
    !Earlier(now, d.due)
  }

  ghost predicate InOrder(ds: seq<Delegate>) {
    forall i, j | 0 <= i < j < |ds| :: !Earlier(ds[j].due, ds[i].due)
  }

  lemma {:induction false} PopDueTakes(heap: Heap, now: Time)
    ensures var (popped, rest) := PopDue(heap, now);
      multiset(popped) + HT.Elements(rest) == HT.Elements(heap)
    decreases HT.Count(heap)
  {
    hide HT.Elements, HT.Pop, Ranks;
    if heap.Node? && !(Ranks(now, heap.data.due) > 0) {
      HT.PopSplits(RankDelegates, heap);
      PopDueTakes(HT.Pop(RankDelegates, heap).0, now);
    }
  }

  lemma PopOk(heap: Heap)
    requires HT.Valid(RankDelegates, heap) && heap.Node?
    ensures HT.Valid(RankDelegates, HT.Pop(RankDelegates, heap).0)
    ensures HT.Elements(heap) == HT.Elements(HT.Pop(RankDelegates, heap).0) + multiset{heap.data}
  {
    RankIsPreorder();
    HT.PopKeeps(RankDelegates, heap);
  }

  ghost predicate NoneDue(heap: Heap, now: Time) {
    forall d | d in HT.Elements(heap) :: !Due(d, now)
  }

  lemma NoneDueBelow(heap: Heap, now: Time)
    requires HT.Valid(RankDelegates, heap) && (heap.Node? ==> !Due(heap.data, now))
    ensures NoneDue(heap, now)
  {
    if heap.Node? { TopIsSoonest(heap); }
  }

  /** What is left when nothing due is left. */
  lemma {:induction false} PopDueLeaves(heap: Heap, now: Time)
    requires HT.Valid(RankDelegates, heap)
    ensures HT.Valid(RankDelegates, PopDue(heap, now).1) && NoneDue(PopDue(heap, now).1, now)
    decreases HT.Count(heap)
  {
    hide HT.Elements, HT.Valid, HT.Pop, Ranks, NoneDue;
    if heap.Node? { RanksIsEarlier(now, heap.data.due); }
    if heap.Node? && Due(heap.data, now) {
      PopOk(heap);
      PopDueLeaves(HT.Pop(RankDelegates, heap).0, now);
    } else {
      NoneDueBelow(heap, now);
    }
  }

  lemma InOrderBehind(d: Delegate, ds: seq<Delegate>)
    requires InOrder(ds) && forall e | e in ds :: !Earlier(e.due, d.due)
    ensures InOrder([d] + ds)
  {
    forall i, j | 0 <= i < j < |[d] + ds| ensures !Earlier(([d] + ds)[j].due, ([d] + ds)[i].due) {
      assert ds[j - 1] in ds;
    }
  }

  ghost predicate AllDue(ds: seq<Delegate>, now: Time) {
    forall i | 0 <= i < |ds| :: Due(ds[i], now)
  }

  lemma {:induction false} PopDueInOrder(heap: Heap, now: Time)
    requires HT.Valid(RankDelegates, heap)
    ensures InOrder(PopDue(heap, now).0) && AllDue(PopDue(heap, now).0, now)
    decreases HT.Count(heap)
  {
    hide HT.Elements, HT.Valid, HT.Pop, Ranks;
    if heap.Node? { RanksIsEarlier(now, heap.data.due); }
    if heap.Node? && Due(heap.data, now) {
      var heap' := HT.Pop(RankDelegates, heap).0;
      var rest := PopDue(heap', now).0;
      assert PopDue(heap, now).0 == [heap.data] + rest;
      PopOk(heap);
      PopDueInOrder(heap', now);
      TopIsSoonest(heap);
      PopDueTakes(heap', now);
      forall d | d in rest ensures !Earlier(d.due, heap.data.due) {
        assert d in multiset(rest);
        assert d in HT.Elements(heap');
      }
      InOrderBehind(heap.data, rest);
    } else {
      assert PopDue(heap, now).0 == [];
    }
  }

  /**
   * Popped timers come in deadline order, nothing is lost, every timer left is not yet due, and
   * every popped one is due -- except a sole first one, popped early exactly when none was due.
   */
  lemma PopExpiredExact(heap: Heap, now: Time)
    requires HT.Valid(RankDelegates, heap) && heap.Node?
    ensures var (popped, rest) := PopExpired(heap, now);
      && HT.Valid(RankDelegates, rest)
      && multiset(popped) + HT.Elements(rest) == HT.Elements(heap)
      && popped != [] && InOrder(popped)
      && AllDue(popped[1..], now)
      && NoneDue(rest, now)
      && (!Due(popped[0], now) <==> NoneDue(heap, now))
      && (!Due(popped[0], now) ==> |popped| == 1)
  {
    hide HT.Elements, HT.Valid, HT.Pop, PopDue;
    TopIsSoonest(heap);
    PopOk(heap);
    var heap' := HT.Pop(RankDelegates, heap).0;
    PopDueInOrder(heap', now);
    PopDueLeaves(heap', now);
    PopDueTakes(heap', now);
    var popped' := PopDue(heap', now).0;
    assert PopExpired(heap, now).0 == [heap.data] + popped' && ([heap.data] + popped')[1..] == popped';
    forall d | d in popped' ensures !Earlier(d.due, heap.data.due) {
      assert d in multiset(popped');
      assert d in HT.Elements(heap');
    }
    InOrderBehind(heap.data, popped');
    if popped' != [] {
      assert popped'[0] in popped' && Due(popped'[0], now);
    }
    assert heap.data in HT.Elements(heap);
  }

  // ---------- the loop of the message thread, interleaved with everything else ----------

  predicate Looping(task: TaskPc) {
    task.Popped? || task.Stopping? || task.Calling? || task.Next?
  }

  /** What the loop has popped and what it is still to pop add up to the result of an uninterrupted loop. */
  ghost predicate OnTrack(s: State) {
    Looping(s.task) ==>
      var (todo, rest) := PopDue(s.At(s.task.wake).heap, s.task.at);
      && s.before.Node? && HT.Valid(RankDelegates, s.before)
      && PopExpired(s.before, s.task.at) == (s.batch + todo, rest)
  }

  lemma ReceiveOnTrack(s: State)
    requires Safe(s) && s.msgs != [] && s.task == Idle
    ensures OnTrack(DoReceive(s))
  {
    hide HT.Pop, HT.Push, HT.Remove, HT.Valid, PopDue, AllOwned, Ranks;
    var s' := DoReceive(s);
    if s.msgs[0].Expire? && s.At(s.msgs[0].wake).heap.Node? {
      var w := s.msgs[0].wake;
      assert s'.batch == [s.At(w).heap.data];
      assert s'.At(w).heap == HT.Pop(RankDelegates, s.At(w).heap).0;
      assert HeapOk(s.At(w).heap, w);
    }
  }

  lemma PopDueNext(heap: Heap, now: Time)
    requires heap.Node? && !(Ranks(now, heap.data.due) > 0)
    ensures var (rest, heap') := PopDue(HT.Pop(RankDelegates, heap).0, now);
      PopDue(heap, now) == ([heap.data] + rest, heap')
  {
  }

  lemma StopOnTrack(s: State, w: bool, at: Time, k: Client)
    requires OnTrack(s) && s.task.Stopping? && s.task.wake == w && s.task.at == at && k in s.clients
    ensures OnTrack(ExpireStop(s, w, at, k))
  {
    hide PopDue, PopExpired, HT.Valid;
  }

  lemma TaskOnTrack(s: State)
    requires OnTrack(s)
    ensures OnTrack(DoTask(s))
  {
    hide HT.Pop, HT.Valid, Ranks, PopDue, PopExpired, ExpireStop;
    match s.task {
      case Stopping(w, at, _, k) => if k in s.clients { StopOnTrack(s, w, at, k); }
      case Next(w, at) =>
        var heap := s.At(w).heap;
        if heap.Node? && !(Ranks(at, heap.data.due) > 0) {
          PopDueNext(heap, at);
          var rest := PopDue(HT.Pop(RankDelegates, heap).0, at).0;
          assert s.batch + ([heap.data] + rest) == (s.batch + [heap.data]) + rest;
        }
      case _ =>
    }
  }

  lemma SameOnTrack(s: State, s': State)
    requires OnTrack(s) && SameWork(s, s')
    ensures OnTrack(s')
  {
  }

  lemma OnTrackKept(s: State, step: Step)
    requires Safe(s) && Enabled(s, step) && OnTrack(s)
    ensures OnTrack(Apply(s, step))
  {
    hide OnTrack, Safe, Ready, After, DoTask, SameWork, DoStart, DoStop, DoDestroy, DoPoll;
    match step {
      case Receive => ReceiveOnTrack(s);
      case TaskStep => TaskOnTrack(s);
      case _ =>
        OthersSameWork(s, step);
        SameOnTrack(s, Apply(s, step));
    }
  }

  lemma {:induction false} RunOnTrack(s: State, steps: seq<Step>)
    requires Safe(s) && OnTrack(s) && Run(s, steps).Some?
    ensures OnTrack(Run(s, steps).value)
    decreases |steps|
  {
    if steps != [] {
      SafeKept(s, steps[0]);
      OnTrackKept(s, steps[0]);
      RunOnTrack(Apply(s, steps[0]), steps[1..]);
    }
  }

  /**
   * When the loop of an expire message ends, it has popped what an uninterrupted loop over the heap
   * it found would have popped, whatever steps other threads took in between.
   */
  lemma ExpireMessagePops(s: State)
    requires Reachable(s) && s.task.Next? && !DoTask(s).task.Popped?
    ensures HT.Valid(RankDelegates, s.before) && s.before.Node?
    ensures (s.batch, s.At(s.task.wake).heap) == PopExpired(s.before, s.task.at)
  {
    var steps :| Run(INIT, steps) == Some(s);
    forall d ensures Owned(INIT, d) {}
    RunOnTrack(INIT, steps);
    assert s.batch + [] == s.batch;
  }

  // ---------- a timer can fire early ----------

  lemma {:induction false} RunExtends(s: State, steps: seq<Step>, step: Step)
    requires Run(s, steps).Some? && Enabled(Run(s, steps).value, step)
    ensures Run(s, steps + [step]) == Some(Apply(Run(s, steps).value, step))
    decreases |steps|
  {
    if steps == [] {
      assert [step][1..] == [];
    } else {
      assert (steps + [step])[1..] == steps[1..] + [step];
      RunExtends(Apply(s, steps[0]), steps[1..], step);
    }
  }

  lemma Reaches(s: State, step: Step) returns (s': State)
    requires Reachable(s) && Enabled(s, step)
    ensures s' == Apply(s, step) && Reachable(s')
  {
    var steps :| Run(INIT, steps) == Some(s);
    RunExtends(INIT, steps, step);
    s' := Apply(s, step);
  }

  const D0 := Delegate(0, 0, Timespec(0, 0), false)    // due at once
  const D1 := Delegate(1, 0, Timespec(10, 0), false)   // due in ten seconds

  function Singleton(d: Delegate): Heap {
    HT.Node(1, HT.Leaf, d, HT.Leaf)
  }

  const STARTED := INIT.(clients := map[0 := Some(D0)], live := map[D0 := Fields(Some(0), true)],
                         locks := map[0 := 2], msgs := [Push(D0)], used := {0}, created := {D0})
  const ARMED := STARTED.(msgs := [], sw := Container(Singleton(D0), Some(D0.due), true))
  const RESTARTED := ARMED.(clients := map[0 := Some(D1)],
                            live := map[D0 := Fields(None, false), D1 := Fields(Some(0), true)],
                            locks := map[0 := 3], msgs := [Remove(D0), Push(D1)],
                            created := {D0, D1}, stopped := multiset{D0},
                            poll := Handling([false], Disarm))
  const POSTED := RESTARTED.(sw := Container(Singleton(D0), None, false),
                             msgs := [Remove(D0), Push(D1), Expire(false)], poll := Waiting)
  const EMPTIED := POSTED.(sw := Container(HT.Leaf, None, false), msgs := [Push(D1), Expire(false)],
                           live := map[D1 := Fields(Some(0), true)], locks := map[0 := 2],
                           deleted := multiset{D0})
  const REARMED := EMPTIED.(sw := Container(Singleton(D1), Some(D1.due), true), msgs := [Expire(false)])

  lemma InitReachable()
    ensures Reachable(INIT)
  {
    assert Run(INIT, []) == Some(INIT);
  }

  lemma DeadlineExamples()
    ensures After(Timespec(0, 0), 0) == Timespec(0, 0)
    ensures After(Timespec(0, 0), 10000) == Timespec(10, 0)
  {
  }

  lemma StartedReachable()
    ensures Reachable(STARTED)
  {
    InitReachable();
    DeadlineExamples();
    hide Reachable, After;
    var s := Reaches(INIT, NewClient(0));
    s := Reaches(s, Start(0, 0, 0, false));
    assert s == STARTED;
  }

  lemma ArmedReachable()
    ensures Reachable(ARMED)
  {
    StartedReachable();
    hide Reachable;
    var s := Reaches(STARTED, Receive);
    s := Reaches(s, TaskStep);
    s := Reaches(s, TaskStep);
    assert s == ARMED;
  }

  lemma RestartedReachable()
    ensures Reachable(RESTARTED)
  {
    ArmedReachable();
    DeadlineExamples();
    hide Reachable, After;
    var s := Reaches(ARMED, PollWake([false]));
    s := Reaches(s, Stop(0));
    s := Reaches(s, Start(0, 1, 10000, false));
    assert s.live == RESTARTED.live;
    assert s == RESTARTED;
  }

  lemma PostedReachable()
    ensures Reachable(POSTED)
  {
    RestartedReachable();
    hide Reachable;
    var s := Reaches(RESTARTED, PollStep);
    s := Reaches(s, PollStep);
    s := Reaches(s, PollStep);
    assert s == POSTED;
  }

  lemma EmptiedReachable()
    ensures Reachable(EMPTIED)
  {
    PostedReachable();
    hide Reachable;
    var s := Reaches(POSTED, Receive);
    assert s.live == EMPTIED.live;
    assert s == EMPTIED;
  }

  lemma RearmedReachable()
    ensures Reachable(REARMED)
  {
    EmptiedReachable();
    hide Reachable;
    var s := Reaches(EMPTIED, Receive);
    s := Reaches(s, TaskStep);
    s := Reaches(s, TaskStep);
    assert s == REARMED;
  }

  /**
   * A timer due at once is stopped while the poll thread handles its expiry, and its client starts
   * one due in ten seconds; the expire message then pops and fires the new one at once.
   */
  lemma EarlyCallback() returns (s: State)
    ensures Reachable(s) && s.task.Calling? && Earlier(s.now, s.task.d.due)
  {
    RearmedReachable();
    hide Reachable;
    s := Reaches(REARMED, Receive);
    s := Reaches(s, TaskStep);
    s := Reaches(s, TaskStep);
  }
}
