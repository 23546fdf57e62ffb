/** Who holds a timer delegate, and that each is deleted exactly once, after everything that holds it. */
module TimerOwnership {
  import opened Deadline
  import opened Optional
  import opened Ranking
  import opened TimerProtocol
  import HT = HeapTree

  /** The popped delegate that the message thread still works on. */
  function InHand(task: TaskPc): multiset<Delegate> {
    match task
    case Popped(_, _, d) => multiset{d}
    case Stopping(_, _, d, _) => multiset{d}
    case _ => multiset{}
  }

  /** How often d is pending to be pushed, in its heap, or popped and being expired. */
  function Places(s: State, d: Delegate): nat {
    multiset(s.msgs)[Push(d)] + HT.Elements(s.At(d.wake).heap)[d] + InHand(s.task)[d]
  }

  function Removals(s: State, d: Delegate): nat {
    multiset(s.msgs)[Remove(d)]
  }

  ghost predicate PushFirst(msgs: seq<Msg>, d: Delegate) {
    forall i, j | 0 <= i < |msgs| && 0 <= j < |msgs| && msgs[i] == Push(d) && msgs[j] == Remove(d) :: i < j
  }

  predicate IsTimerOf(s: State, d: Delegate) {
    d.client in s.clients && s.clients[d.client] == Some(d)
  }

  /**
   * A delegate that has a client is that client's mTimer, sits in exactly one place and has no
   * removal pending.  One without a client has exactly one removal pending, behind its push if that
   * is pending too.  A deleted one is nowhere.
   */
  ghost predicate Owned(s: State, d: Delegate) {
    if d !in s.live then
      !IsTimerOf(s, d) && Places(s, d) == 0 && Removals(s, d) == 0
    else if s.live[d].client.Some? then
      s.live[d] == Fields(Some(d.client), true) && IsTimerOf(s, d) && Places(s, d) == 1 && Removals(s, d) == 0
    else
      && s.live[d] == Fields(None, false) && !IsTimerOf(s, d)
      && Places(s, d) <= 1 && Removals(s, d) == 1 && PushFirst(s.msgs, d)
  }

  ghost predicate HeapOk(heap: HT.Tree<Delegate>, wake: bool) {
    HT.Valid(RankDelegates, heap) && OfWake(heap, wake)
  }

  ghost predicate OfWake(heap: HT.Tree<Delegate>, wake: bool) {
    forall d | d in HT.Elements(heap) :: d.wake == wake
  }

  ghost predicate TaskOk(s: State) {
    match s.task
    case Popped(w, _, d) => d.wake == w
    case Stopping(w, _, d, k) => d.wake == w && k == d.client
    case Arming(_, due, _) => due.Some?
    case _ => true
  }

  ghost predicate WellFormed(s: State) {
    && HeapOk(s.hw.heap, true) && HeapOk(s.sw.heap, false)
    && TaskOk(s)
    && (forall k | k in s.clients && s.clients[k].Some? :: s.clients[k].value.client == k)
    && s.live.Keys <= s.created && s.clients.Keys <= s.used
    && (s.poll.Handling? ==> s.poll.todo != [])
    && (Held(s.task).Some? ==> Held(s.task).value in s.clients)
  }

  ghost predicate AllOwned(s: State) {
    forall d :: Owned(s, d)
  }

  lemma RankIsPreorder()
    ensures TotalPreorder(RankDelegates)
  {
    forall a, b ensures OutRanks(RankDelegates, a, b) ==> !OutRanks(RankDelegates, b, a) {
      RanksIsEarlier(a.due, b.due);
      RanksIsEarlier(b.due, a.due);
    }
    forall a, b, c | Chain(RankDelegates, a, b, c) ensures !OutRanks(RankDelegates, a, c) {
      RanksIsEarlier(a.due, b.due);
      RanksIsEarlier(b.due, c.due);
      RanksIsEarlier(a.due, c.due);
    }
  }

  ghost predicate NoneEarlier(heap: HT.Tree<Delegate>, due: Time) {
    forall d | d in HT.Elements(heap) :: !Earlier(d.due, due)
  }

  lemma TopIsSoonest(heap: HT.Tree<Delegate>)
    requires HT.Valid(RankDelegates, heap) && heap.Node?
    ensures NoneEarlier(heap, heap.data.due)
  {
    RankIsPreorder();
    forall d | d in HT.Elements(heap) ensures !Earlier(d.due, heap.data.due) {
      HT.TopRanksHighest(RankDelegates, heap, d);
      RanksIsEarlier(d.due, heap.data.due);
    }
  }

  // ---------- what the message thread does to a heap of timers ----------

  lemma PushHeapOk(heap: HT.Tree<Delegate>, d: Delegate)
    requires HeapOk(heap, d.wake)
    ensures HeapOk(HT.Push(RankDelegates, heap, d), d.wake) && HT.Push(RankDelegates, heap, d).Node?
    ensures HT.Elements(HT.Push(RankDelegates, heap, d)) == HT.Elements(heap) + multiset{d}
  {
    RankIsPreorder();
    HT.PushKeeps(RankDelegates, heap, d);
  }

  lemma RemoveHeapOk(heap: HT.Tree<Delegate>, d: Delegate, wake: bool)
    requires HeapOk(heap, wake)
    ensures var (found, heap') := HT.Remove(RankDelegates, heap, d);
      && HeapOk(heap', wake)
      && found == (d in HT.Elements(heap))
      && (heap.Leaf? ==> !found) && (heap.Node? && d == heap.data ==> found)
      && (!found ==> heap' == heap)
      && HT.Elements(heap) == HT.Elements(heap') + (if found then multiset{d} else multiset{})
      && (heap.Node? && d != heap.data ==> heap'.Node? && heap'.data == heap.data)
  {
    RankIsPreorder();
    HT.RemoveExact(RankDelegates, heap, d);
  }

  lemma PopHeapOk(heap: HT.Tree<Delegate>, wake: bool)
    requires HeapOk(heap, wake) && heap.Node?
    ensures HeapOk(HT.Pop(RankDelegates, heap).0, wake)
    ensures HT.Elements(heap) == HT.Elements(HT.Pop(RankDelegates, heap).0) + multiset{heap.data}
    ensures heap.data.wake == wake
  {
    RankIsPreorder();
    HT.PopKeeps(RankDelegates, heap);
    assert heap.data in HT.Elements(heap);
  }

  // ---------- every step keeps the state well-formed ----------

  lemma WellFormedKept(s: State, step: Step)
    requires WellFormed(s) && AllOwned(s) && Enabled(s, step)
    ensures WellFormed(Apply(s, step))
  {
    hide HeapOk, HT.Elements, Ranks, DoStart, DoStop, DoDestroy, DoPoll, DoReceive, DoTask;
    match step {
      case Start(k, id, ms, wake) => StartWellFormed(s, k, NewDelegate(s, k, id, ms, wake));
      case Stop(k) => DestroyWellFormed(s, k);
      case Destroy(k) => DestroyWellFormed(s, k);
      case PollStep => PollWellFormed(s);
      case Receive => ReceiveWellFormed(s);
      case TaskStep => TaskWellFormed(s);
      case _ =>
    }
  }

  lemma StartWellFormed(s: State, k: Client, d: Delegate)
    requires WellFormed(s) && k in s.clients && d.client == k
    ensures WellFormed(DoStart(s, k, d))
  {
    hide HeapOk;
  }

  lemma DestroyWellFormed(s: State, k: Client)
    requires WellFormed(s) && AllOwned(s) && k in s.clients
    ensures WellFormed(DoStop(s, k))
    ensures Held(s.task) != Some(k) ==> WellFormed(DoDestroy(s, k))
  {
    hide HeapOk, Places, Drop;
    ReleaseWellFormed(s, k);
  }

  lemma PollWellFormed(s: State)
    requires WellFormed(s) && s.poll.Handling?
    ensures WellFormed(DoPoll(s))
  {
    hide HeapOk, HT.Elements, Ranks;
  }

  lemma ReleaseWellFormed(s: State, k: Client)
    requires WellFormed(s) && AllOwned(s) && k in s.clients
    ensures WellFormed(Release(s, k))
  {
    hide HeapOk, HT.Elements, Ranks;
    assert s.clients[k].Some? ==> Owned(s, s.clients[k].value);
  }

  lemma PopTopWellFormed(s: State, w: bool, at: Time)
    requires WellFormed(s) && s.At(w).heap.Node?
    ensures WellFormed(PopTop(s, w, at))
  {
    hide HeapOk, HT.Elements, HT.Pop;
    PopHeapOk(s.At(w).heap, w);
  }

  lemma ReceiveWellFormed(s: State)
    requires WellFormed(s) && s.msgs != [] && s.task == Idle
    ensures WellFormed(DoReceive(s))
  {
    match s.msgs[0] {
      case Push(d) => PushWellFormed(s);
      case Remove(d) => RemoveWellFormed(s);
      case Expire(w) => hide WellFormed, BeginExpire; BeginWellFormed(s.(msgs := s.msgs[1..]), w);
    }
  }

  lemma ArmsForTop(c: Container, wake: bool, priorTop: Option<Delegate>)
    requires c.heap.Leaf? ==> priorTop.None?
    ensures var task := UpdateSoonestTime(c, wake, priorTop);
      task == Idle || (c.heap.Node? && task == Arming(wake, Some(c.heap.data.due), false))
  {
  }

  lemma ArmsOrIdles(c: Container, wake: bool, priorTop: Option<Delegate>)
    ensures var task := UpdateSoonestTime(c, wake, priorTop);
      task == Idle || (task.Arming? && task.wake == wake && !task.pollSet)
  {
  }

  lemma PushWellFormed(s: State)
    requires WellFormed(s) && s.msgs != [] && s.msgs[0].Push? && s.task == Idle
    ensures WellFormed(DoReceive(s))
  {
    hide HeapOk, HT.Push, HT.Elements, UpdateSoonestTime;
    var d := s.msgs[0].d;
    PushHeapOk(s.At(d.wake).heap, d);
    ArmsForTop(DoReceive(s).At(d.wake), d.wake, Top(s.At(d.wake)));
  }

  lemma RemoveWellFormed(s: State)
    requires WellFormed(s) && s.msgs != [] && s.msgs[0].Remove? && s.task == Idle
    ensures WellFormed(DoReceive(s))
  {
    hide HeapOk, HT.Remove, HT.Elements, UpdateSoonestTime, Drop;
    var d := s.msgs[0].d;
    RemoveHeapOk(s.At(d.wake).heap, d, d.wake);
    ArmsForTop(DoReceive(s).At(d.wake), d.wake, None);
  }

  lemma BeginWellFormed(s: State, w: bool)
    requires WellFormed(s)
    ensures WellFormed(BeginExpire(s, w))
  {
    hide HeapOk, PopTop;
    if s.At(w).heap.Node? { PopTopWellFormed(s.(before := s.At(w).heap, batch := []), w, s.now); }
  }

  lemma ClientOf(s: State, d: Delegate)
    requires AllOwned(s)
    ensures d in s.live && s.live[d].client.Some? ==> s.live[d].client.value == d.client && d.client in s.clients
  {
    hide Places, Removals, PushFirst;
    assert Owned(s, d);
  }

  lemma TaskWellFormed(s: State)
    requires WellFormed(s) && AllOwned(s)
    ensures WellFormed(DoTask(s))
  {
    hide HeapOk, PopTop, Ranks, AllOwned, ExpireStop, UpdateSoonestTime;
    match s.task {
      case Popped(w, at, d) => ClientOf(s, d);
      case Stopping(w, at, d, k) => StopWellFormed(s, w, at, k);
      case Next(w, at) => NextWellFormed(s);
      case _ =>
    }
  }

  lemma NextWellFormed(s: State)
    requires WellFormed(s) && s.task.Next?
    ensures WellFormed(DoTask(s))
  {
    hide HeapOk, PopTop, Ranks, UpdateSoonestTime;
    var w := s.task.wake;
    if s.At(w).heap.Node? { PopTopWellFormed(s, w, s.task.at); }
    ArmsForTop(s.At(w), w, None);
  }

  lemma StopWellFormed(s: State, w: bool, at: Time, k: Client)
    requires WellFormed(s) && AllOwned(s) && k in s.clients
    ensures WellFormed(ExpireStop(s, w, at, k))
  {
    hide HeapOk, Places;
    ReleaseWellFormed(s, k);
  }

  // ---------- every step keeps the ownership of every delegate ----------

  lemma Enqueued(q: seq<Msg>, m: Msg, x: Msg)
    ensures multiset(q + [m])[x] == multiset(q)[x] + if x == m then 1 else 0
  {
  }

  lemma Dequeued(q: seq<Msg>, x: Msg)
    requires q != []
    ensures multiset(q)[x] == multiset(q[1..])[x] + if x == q[0] then 1 else 0
  {
    assert q == [q[0]] + q[1..];
  }

  lemma StartOwned(s: State, k: Client, d0: Delegate, d: Delegate)
    requires WellFormed(s) && AllOwned(s) && k in s.clients && d0.client == k && d0 !in s.created
    ensures Owned(DoStart(s, k, d0), d)
  {
    hide HeapOk, HT.Elements;
    assert Owned(s, d) && Owned(s, d0);
    Enqueued(s.msgs, Push(d0), Push(d));
    Enqueued(s.msgs, Push(d0), Remove(d));
    if s.clients[k].None? && d in s.live { assert PushFirst(s.msgs, d) ==> PushFirst(s.msgs + [Push(d0)], d); }
  }

  lemma ReleaseOwned(s: State, k: Client, d: Delegate)
    requires WellFormed(s) && AllOwned(s) && k in s.clients
    ensures Owned(Release(s, k), d)
  {
    hide HeapOk, HT.Elements, PushFirst;
    assert Owned(s, d);
    if s.clients[k].Some? {
      var d0 := s.clients[k].value;
      assert Owned(s, d0);
      Enqueued(s.msgs, Remove(d0), Push(d));
      Enqueued(s.msgs, Remove(d0), Remove(d));
      if d in s.live { RemovePushFirst(s.msgs, d0, d); }
    }
  }

  /** A removal posted last is behind every push. */
  lemma RemovePushFirst(q: seq<Msg>, d0: Delegate, d: Delegate)
    ensures PushFirst(q, d) ==> PushFirst(q + [Remove(d0)], d)
    ensures Remove(d) !in multiset(q) ==> PushFirst(q + [Remove(d0)], d)
  {
  }

  lemma NothingInHand(c: Container, wake: bool, priorTop: Option<Delegate>)
    ensures InHand(UpdateSoonestTime(c, wake, priorTop)) == multiset{} == InHand(Idle)
  {
  }

  lemma PushFirstBehind(q: seq<Msg>, d: Delegate)
    requires q != [] && PushFirst(q, d)
    ensures PushFirst(q[1..], d)
  {
  }

  lemma ReceivePushOwned(s: State, d: Delegate)
    requires s.msgs != [] && s.task == Idle && s.msgs[0].Push?
    requires AllOwned(s) && HeapOk(s.At(s.msgs[0].d.wake).heap, s.msgs[0].d.wake)
    ensures Owned(DoReceive(s), d)
  {
    hide HT.Elements, HT.Push, HeapOk, UpdateSoonestTime;
    var d0 := s.msgs[0].d;
    assert Owned(s, d);
    NothingInHand(DoReceive(s).At(d0.wake), d0.wake, Top(s.At(d0.wake)));
    Dequeued(s.msgs, Push(d));
    Dequeued(s.msgs, Remove(d));
    PushHeapOk(s.At(d0.wake).heap, d0);
  }

  lemma NoPushBehind(q: seq<Msg>, d: Delegate)
    requires q != [] && q[0] == Remove(d) && PushFirst(q, d)
    ensures multiset(q)[Push(d)] == 0
  {
    assert forall i | 0 <= i < |q| :: q[i] != Push(d);
  }

  lemma ReceiveRemoveOwned(s: State, d: Delegate)
    requires s.msgs != [] && s.task == Idle && s.msgs[0].Remove?
    requires AllOwned(s) && HeapOk(s.At(s.msgs[0].d.wake).heap, s.msgs[0].d.wake)
    ensures Owned(DoReceive(s), d)
  {
    hide HT.Elements, HT.Remove, HeapOk, UpdateSoonestTime, Drop, PushFirst, InHand;
    var d0 := s.msgs[0].d;
    assert Owned(s, d) && Owned(s, d0);
    RemoveHeapOk(s.At(d0.wake).heap, d0, d0.wake);
    NothingInHand(DoReceive(s).At(d0.wake), d0.wake, None);
    Dequeued(s.msgs, Push(d));
    Dequeued(s.msgs, Remove(d));
    if d == d0 {
      NoPushBehind(s.msgs, d);
    } else if PushFirst(s.msgs, d) {
      PushFirstBehind(s.msgs, d);
    }
  }

  /** Receiving an expire message, before anything is popped. */
  lemma ExpireDequeued(s: State, before: HT.Tree<Delegate>, d: Delegate)
    requires s.msgs != [] && s.msgs[0].Expire? && Owned(s, d)
    ensures Owned(s.(msgs := s.msgs[1..], before := before, batch := []), d)
  {
    hide HT.Elements, InHand, PushFirst;
    if PushFirst(s.msgs, d) { PushFirstBehind(s.msgs, d); }
    Dequeued(s.msgs, Push(d));
    Dequeued(s.msgs, Remove(d));
  }

  lemma PopTopOwned(s: State, w: bool, at: Time, d: Delegate)
    requires Owned(s, d) && HeapOk(s.At(w).heap, w) && s.At(w).heap.Node? && InHand(s.task) == multiset{}
    ensures Owned(PopTop(s, w, at), d)
  {
    hide HT.Elements, HT.Pop, HeapOk, PushFirst;
    PopHeapOk(s.At(w).heap, w);
  }

  lemma ReceiveExpireOwned(s: State, d: Delegate)
    requires s.msgs != [] && s.task == Idle && s.msgs[0].Expire?
    requires AllOwned(s) && HeapOk(s.At(s.msgs[0].wake).heap, s.msgs[0].wake)
    ensures Owned(DoReceive(s), d)
  {
    var w := s.msgs[0].wake;
    var heap := s.At(w).heap;
    var s1 := s.(msgs := s.msgs[1..], before := heap, batch := []);
    assert Owned(s, d);
    ExpireDequeued(s, heap, d);
    hide HeapOk, Owned;
    if heap.Node? { PopTopOwned(s1, w, s.now, d); }
  }

  /** Ownership depends on nothing but these fields, and not on expire messages. */
  lemma SameOwned(s: State, s': State, d: Delegate, w: bool)
    requires Owned(s, d)
    requires s'.live == s.live && s'.clients == s.clients && InHand(s'.task) == InHand(s.task)
    requires s'.sw.heap == s.sw.heap && s'.hw.heap == s.hw.heap
    requires s'.msgs == s.msgs || s'.msgs == s.msgs + [Expire(w)]
    ensures Owned(s', d)
  {
    hide HT.Elements, InHand;
    if s'.msgs != s.msgs {
      Enqueued(s.msgs, Expire(w), Push(d));
      Enqueued(s.msgs, Expire(w), Remove(d));
      assert PushFirst(s.msgs, d) ==> PushFirst(s'.msgs, d);
    }
  }

  lemma StopOwned(s: State, w: bool, at: Time, k: Client, d: Delegate)
    requires WellFormed(s) && AllOwned(s) && s.task.Stopping? && s.task.k == k && k in s.clients
    ensures Owned(ExpireStop(s, w, at, k), d)
  {
    hide HT.Elements, HeapOk;
    ReleaseOwned(s, k, d);
  }

  lemma PoppedOwned(s: State, d: Delegate)
    requires AllOwned(s) && s.task.Popped?
    ensures Owned(DoTask(s), d)
  {
    hide HT.Elements, PushFirst;
    assert Owned(s, d);
  }

  lemma NextOwned(s: State, d: Delegate)
    requires WellFormed(s) && AllOwned(s) && s.task.Next?
    ensures Owned(DoTask(s), d)
  {
    hide HT.Elements, HeapOk, PopTop, UpdateSoonestTime, Ranks, PushFirst;
    var w := s.task.wake;
    assert Owned(s, d);
    if s.At(w).heap.Node? && !(Ranks(s.task.at, s.At(w).heap.data.due) > 0) {
      PopTopOwned(s, w, s.task.at, d);
    } else {
      NothingInHand(s.At(w), w, None);
      SameOwned(s, DoTask(s), d, false);
    }
  }

  lemma TaskOwned(s: State, d: Delegate)
    requires WellFormed(s) && AllOwned(s) && s.task != Idle
    ensures Owned(DoTask(s), d)
  {
    hide Owned, HeapOk, HT.Elements;
    assert Owned(s, d);
    match s.task {
      case Popped(w, at, _) => PoppedOwned(s, d);
      case Stopping(w, at, _, k) => StopOwned(s, w, at, k, d);
      case Next(w, at) => NextOwned(s, d);
      case Calling(_, _, _) => SameOwned(s, DoTask(s), d, false);
      case Arming(_, _, _) => SameOwned(s, DoTask(s), d, false);
    }
  }

  lemma DestroyOwned(s: State, k: Client, d: Delegate)
    requires WellFormed(s) && AllOwned(s) && k in s.clients
    ensures Owned(DoStop(s, k), d) && Owned(DoDestroy(s, k), d)
  {
    hide HT.Elements, PushFirst, Drop, HeapOk, InHand;
    ReleaseOwned(s, k, d);
  }

  lemma PollOwned(s: State, d: Delegate)
    requires AllOwned(s) && s.poll.Handling? && s.poll.todo != []
    ensures Owned(DoPoll(s), d)
  {
    hide Owned, InHand;
    assert Owned(s, d);
    match s.poll.stage {
      case Disarm => SameOwned(s, DoPoll(s), d, s.poll.todo[0]);
      case Unpoll => SameOwned(s, DoPoll(s), d, s.poll.todo[0]);
      case Post => SameOwned(s, DoPoll(s), d, s.poll.todo[0]);
    }
  }

  lemma NewClientOwned(s: State, k: Client, d: Delegate)
    requires WellFormed(s) && AllOwned(s) && Enabled(s, NewClient(k))
    ensures Owned(Apply(s, NewClient(k)), d)
  {
    hide HeapOk, HT.Elements, PushFirst;
    assert Owned(s, d);
  }

  lemma OwnedKept(s: State, step: Step, d: Delegate)
    requires WellFormed(s) && AllOwned(s) && Enabled(s, step)
    ensures Owned(Apply(s, step), d)
  {
    hide HeapOk, HT.Elements, DoStart, DoStop, DoDestroy, DoPoll, DoReceive, DoTask, Owned, Ready, After;
    assert Owned(s, d);
    match step {
      case Start(k, id, ms, wake) => StartOwned(s, k, NewDelegate(s, k, id, ms, wake), d);
      case Stop(k) => DestroyOwned(s, k, d);
      case Destroy(k) => DestroyOwned(s, k, d);
      case NewClient(k) => NewClientOwned(s, k, d);
      case PollStep => PollOwned(s, d);
      case Receive =>
        match s.msgs[0] {
          case Push(d0) => ReceivePushOwned(s, d);
          case Remove(d0) => ReceiveRemoveOwned(s, d);
          case Expire(w) => ReceiveExpireOwned(s, d);
        }
      case TaskStep => TaskOwned(s, d);
      case _ => SameOwned(s, Apply(s, step), d, false);
    }
  }

  // ---------- what the message thread leaves alone ----------

  /** The clock and the history of what clients do. */
  predicate SameForClients(s: State, s': State) {
    s'.now == s.now && s'.created == s.created && s'.used == s.used && s'.stopped == s.stopped
  }

  lemma PollLeaves(s: State)
    requires s.poll.Handling? && s.poll.todo != []
    ensures SameForClients(s, DoPoll(s))
  {
  }

  lemma StopLeaves(s: State, w: bool, at: Time, k: Client)
    requires k in s.clients
    ensures SameForClients(s, ExpireStop(s, w, at, k))
  {
  }

  lemma PopLeaves(s: State, w: bool, at: Time)
    requires s.At(w).heap.Node?
    ensures SameForClients(s, PopTop(s, w, at))
  {
    hide HT.Pop;
  }

  lemma ReceiveLeaves(s: State)
    requires s.msgs != []
    ensures SameForClients(s, DoReceive(s))
  {
    hide HT.Push, HT.Remove, UpdateSoonestTime, Drop, PopTop;
    match s.msgs[0] {
      case Push(_) =>
      case Remove(_) =>
      case Expire(w) =>
        var heap := s.At(w).heap;
        if heap.Node? { PopLeaves(s.(msgs := s.msgs[1..], before := heap, batch := []), w, s.now); }
    }
  }

  lemma TaskLeaves(s: State)
    ensures SameForClients(s, DoTask(s))
  {
    hide HT.Pop, Ranks, UpdateSoonestTime, ExpireStop, PopTop;
    match s.task {
      case Stopping(w, at, _, k) => if k in s.clients { StopLeaves(s, w, at, k); }
      case Next(w, at) => if s.At(w).heap.Node? { PopLeaves(s, w, at); }
      case _ =>
    }
  }

  // ---------- over whole runs ----------

  ghost predicate Safe(s: State) {
    WellFormed(s) && AllOwned(s)
  }

  lemma SafeKept(s: State, step: Step)
    requires Safe(s) && Enabled(s, step)
    ensures Safe(Apply(s, step))
  {
    WellFormedKept(s, step);
    forall d ensures Owned(Apply(s, step), d) { OwnedKept(s, step, d); }
  }

  lemma {:induction false} RunSafe(s: State, steps: seq<Step>)
    requires Safe(s) && Run(s, steps).Some?
    ensures Safe(Run(s, steps).value)
    decreases |steps|
  {
    if steps != [] {
      SafeKept(s, steps[0]);
      RunSafe(Apply(s, steps[0]), steps[1..]);
    }
  }

  lemma RemovedIsAlone(s: State)
    requires Safe(s) && s.msgs != [] && s.msgs[0].Remove?
    ensures s.msgs[0].d in s.live && !IsTimerOf(s, s.msgs[0].d)
  {
    hide HT.Elements, HeapOk, WellFormed, PushFirst;
    var d0 := s.msgs[0].d;
    assert Owned(s, d0);
    Dequeued(s.msgs, Remove(d0));
  }

  lemma HeldIsAlive(s: State)
    requires WellFormed(s) && Held(s.task).Some?
    ensures Held(s.task).value in s.clients
  {
  }

  /** In every interleaving, every delegate is where its owner says it is. */
  lemma OwnershipHolds(s: State)
    requires Reachable(s)
    ensures Safe(s)
  {
    var steps :| Run(INIT, steps) == Some(s);
    forall d ensures Owned(INIT, d) {}
    RunSafe(INIT, steps);
  }
}
