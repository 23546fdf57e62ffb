/**
 * The timer service in the source's own form: containers over pointer heaps whose fields the methods
 * update.  Each method runs without interruption and is proved to take exactly a run of the steps
 * of TimerProtocol, where all interleavings are considered.
 */
module LocTimer {
  import opened Deadline
  import opened Optional
  import opened Ranking
  import opened LocHeap
  import opened TimerProtocol
  import opened Words
  import HT = HeapTree
  import MT = MsgTask
  import TC = TimerClients
  import TO = TimerOwnership
  import TP = TimerPoll

  class LocTimerContainer {
    const heap: LocHeap<Delegate>
    var armed: Option<Time>
    var polled: bool

    ghost function Repr(): set<object>
      reads this, heap, heap.tree
    {
      {this, heap} + heap.Nodes()
    }

    ghost predicate Valid()
      reads this, heap, heap.tree, heap.Nodes()
    {
      heap.Valid() && heap.ranks == RankDelegates
    }

    ghost function Model(): Container
      reads this, heap, heap.tree
    {
      Container(heap.Shape(), armed, polled)
    }

    constructor ()
      ensures Valid() && Model() == Container(HT.Leaf, None, false) && fresh(Repr())
    {
      heap := new LocHeap(RankDelegates);
      armed, polled := None, false;
    }

    /** Both kernel calls of updateSoonestTime, if it makes them. */
    method UpdateSoonestTime(ghost wake: bool, priorTop: Option<Delegate>)
      requires Valid()
      modifies this`armed, this`polled
      ensures Valid() && Model() == Armed(old(Model()), TimerProtocol.UpdateSoonestTime(old(Model()), wake, priorTop))
    {
      var curTop := heap.Peek();
      if curTop != priorTop {
        if curTop.None? {
          polled := false;
          armed := None;
        } else if priorTop.None? || OutRanks(RankDelegates, curTop.value, priorTop.value) {
          polled := true;
          armed := Some(curTop.value.due);
        }
      }
    }

    /** MsgTimerPush::proc */
    method ProcPush(d: Delegate)
      requires Valid()
      modifies Repr()
      ensures Valid() && fresh(Repr() - old(Repr()))
      ensures Model() == Pushed(old(Model()), d)
      ensures armed == (if Outdone(old(Model()), d) then Some(d.due) else old(armed))
      ensures polled == (Outdone(old(Model()), d) || old(polled))
    {
      PushedExact(Model(), d);
      hide Outdone, OutRanks, HT.Push;
      var priorTop := heap.Peek();
      heap.Push(d);
      UpdateSoonestTime(d.wake, priorTop);
    }

    /** MsgTimerRemove::proc, up to the deletion of the timer */
    method ProcRemove(d: Delegate)
      requires Valid()
      modifies Repr()
      ensures Valid() && Repr() <= old(Repr())
      ensures Model() == Removed(old(Model()), d)
      ensures var rearms := Top(old(Model())) == Some(d) && Top(Model()).Some?;
        && armed == (if rearms then Some(Top(Model()).value.due) else old(armed))
        && polled == (rearms || old(polled))
    {
      var priorTop := heap.Peek();
      var removed := heap.Remove(d);
      if priorTop == removed {
        UpdateSoonestTime(d.wake, None);
      }
    }

    method Pop() returns (popped: Option<Delegate>)
      requires Valid()
      modifies heap, heap.Nodes()
      ensures Valid() && Repr() <= old(Repr())
      ensures var c := old(Model());
        popped == Top(c) && Model() == if c.heap.Leaf? then c else c.(heap := HT.Pop(RankDelegates, c.heap).0)
    {
      popped := heap.Pop();
    }

    method PopIfOutRanks(now: Time) returns (popped: Option<Delegate>)
      requires Valid()
      modifies heap, heap.Nodes()
      ensures Valid() && Repr() <= old(Repr())
      ensures var c := old(Model());
        if c.heap.Node? && !(Ranks(now, c.heap.data.due) > 0)
        then popped == Some(c.heap.data) && Model() == c.(heap := HT.Pop(RankDelegates, c.heap).0)
        else popped == None && Model() == c
    {
      popped := None;
      var top := heap.Peek();
      if top.Some? && !(Ranks(now, top.value.due) > 0) {
        popped := Pop();
      }
    }
  }

  /** d is due before everything in the container. */
  predicate Outdone(c: Container, d: Delegate) {
    c.heap.Leaf? || Earlier(d.due, c.heap.data.due)
  }

  /** A pushed timer changes what the kernel was told exactly if it becomes the top. */
  lemma PushedExact(c: Container, d: Delegate)
    ensures var c' := Pushed(c, d);
      if Outdone(c, d) then Top(c') == Some(d) && c'.armed == Some(d.due) && c'.polled
      else Top(c') == Top(c) && c'.armed == c.armed && c'.polled == c.polled
  {
    hide Ranks;
    if c.heap.Node? { RanksIsEarlier(d.due, c.heap.data.due); }
  }

  /** The container once the message thread has told the kernel what it was about to. */
  function Armed(c: Container, task: TaskPc): Container {
    if task.Arming? then c.(armed := task.due, polled := task.due.Some?) else c
  }

  /** The container after a push message. */
  function Pushed(c: Container, d: Delegate): Container {
    var c' := c.(heap := HT.Push(RankDelegates, c.heap, d));
    Armed(c', UpdateSoonestTime(c', d.wake, Top(c)))
  }

  /** The container after a remove message. */
  function Removed(c: Container, d: Delegate): Container {
    var (found, rest) := HT.Remove(RankDelegates, c.heap, d);
    var c' := c.(heap := rest);
    if Top(c) == (if found then Some(d) else None) then Armed(c', UpdateSoonestTime(c', d.wake, None)) else c'
  }

  /** The state once updateSoonestTime has made its kernel calls, if it makes any. */
  function Settled(s: State): State {
    if s.task.Arming? then DoTask(DoTask(s)) else s
  }

  lemma ArmingSettles(s: State, w: bool)
    requires s.task == Idle || (s.task.Arming? && s.task.wake == w && !s.task.pollSet)
    ensures Settled(s) == s.(task := Idle).With(w, Armed(s.At(w), s.task))
  {
  }

  lemma PushSettles(s: State)
    requires s.msgs != [] && s.msgs[0].Push? && s.task == Idle
    ensures var d := s.msgs[0].d;
      Settled(DoReceive(s)) == s.(msgs := s.msgs[1..]).With(d.wake, Pushed(s.At(d.wake), d))
  {
  }

  lemma RemoveSettles(s: State)
    requires s.msgs != [] && s.msgs[0].Remove? && s.task == Idle
    ensures var d := s.msgs[0].d;
      Settled(DoReceive(s)) == s.(msgs := s.msgs[1..], live := s.live - {d}, locks := Drop(s.locks, d.client),
                                  deleted := s.deleted + multiset{d}).With(d.wake, Removed(s.At(d.wake), d))
  {
    hide HT.Remove, Drop, UpdateSoonestTime, Settled;
    var d := s.msgs[0].d;
    var c := s.At(d.wake);
    TO.ArmsOrIdles(c.(heap := HT.Remove(RankDelegates, c.heap, d).1), d.wake, None);
    ArmingSettles(DoReceive(s), d.wake);
  }

  function RunTask(s: State, n: nat): State
    decreases n
  {
    if n == 0 then s else RunTask(DoTask(s), n - 1)
  }

  /** Some number of steps of the message thread lead from s to s'. */
  ghost predicate TaskRuns(s: State, s': State) {
    exists n :: RunTask(s, n) == s'
  }

  lemma {:induction false} RunTaskAdds(s: State, m: nat, n: nat)
    ensures RunTask(RunTask(s, m), n) == RunTask(s, m + n)
    decreases m
  {
    if m > 0 { RunTaskAdds(DoTask(s), m - 1, n); }
  }

  lemma TaskRunsOn(s: State, s': State, n: nat)
    requires TaskRuns(s, s')
    ensures TaskRuns(s, RunTask(s', n))
  {
    var m :| RunTask(s, m) == s';
    RunTaskAdds(s, m, n);
  }

  /** LocTimerDelegate::expire on d: the client it reads, if any, is stopped and called back. */
  function Expired(s: State, d: Delegate): State {
    var client := if d in s.live then s.live[d].client else None;
    var s1 := s.(seen := s.created);
    if client.None? || client.value !in s.clients then s1
    else Release(s1, client.value).(fired := s.fired + Running(s, client.value))
  }

  lemma ExpiredKeepsHeaps(s: State, d: Delegate)
    ensures Expired(s, d).sw == s.sw && Expired(s, d).hw == s.hw
  {
  }

  /** Every client that a delegate points to exists. */
  ghost predicate ClientsExist(live: map<Delegate, Fields>, clients: map<Client, Option<Delegate>>) {
    forall d | d in live && live[d].client.Some? :: live[d].client.value in clients
  }

  lemma ExpiredKeepsClients(s: State, d: Delegate)
    requires ClientsExist(s.live, s.clients)
    ensures ClientsExist(Expired(s, d).live, Expired(s, d).clients)
  {
  }

  lemma TaskStepRuns(s: State, s': State)
    requires TaskRuns(s, s')
    ensures TaskRuns(s, DoTask(s'))
  {
    assert RunTask(s', 1) == RunTask(DoTask(s'), 0);
    TaskRunsOn(s, s', 1);
  }

  lemma ExpireRuns(s0: State, s: State, w: bool, at: Time, d: Delegate)
    requires TaskRuns(s0, s.(task := Popped(w, at, d))) && ClientsExist(s.live, s.clients)
    ensures TaskRuns(s0, Expired(s, d).(task := Next(w, at)))
  {
    hide UpdateSoonestTime, PopTop, TaskRuns, RunTask;
    var s1 := s.(task := Popped(w, at, d));
    TaskStepRuns(s0, s1);
    var client := if d in s.live then s.live[d].client else None;
    if client.Some? {
      TaskStepRuns(s0, DoTask(s1));
      if s.clients[client.value].Some? {
        TaskStepRuns(s0, DoTask(DoTask(s1)));
      } else {
        assert s.fired + multiset{} == s.fired;
      }
    }
  }

  lemma PopRuns(s0: State, s: State, w: bool, at: Time)
    requires TaskRuns(s0, s.(task := Next(w, at)))
    requires var heap := s.At(w).heap; heap.Node? && !(Ranks(at, heap.data.due) > 0)
    ensures TaskRuns(s0, PopTop(s, w, at))
  {
    hide TaskRuns, Ranks, HT.Pop;
    TaskStepRuns(s0, s.(task := Next(w, at)));
  }

  predicate TopNotDue(heap: HT.Tree<Delegate>, now: Time) {
    heap.Node? ==> Ranks(now, heap.data.due) > 0
  }

  lemma EndRuns(s0: State, s: State, w: bool, at: Time)
    requires TaskRuns(s0, s.(task := Next(w, at))) && s.task == Idle
    requires TopNotDue(s.At(w).heap, at)
    ensures TaskRuns(s0, s.With(w, Armed(s.At(w), UpdateSoonestTime(s.At(w), w, None))))
  {
    hide TaskRuns, Ranks;
    var s1 := s.(task := Next(w, at));
    TaskStepRuns(s0, s1);
    if s.At(w).heap.Node? {
      TaskStepRuns(s0, DoTask(s1));
      TaskStepRuns(s0, DoTask(DoTask(s1)));
    }
  }

  method FutureTime(now: Timespec, ms: nat) returns (futureTime: Timespec)
    requires Normal(now)
    ensures futureTime == After(now, ms) && Normal(futureTime)
  {
    AfterExact(now, ms);
    var sec := now.sec + ms / 1000;
    var nsec := now.nsec + (ms % 1000) * 1000000;
    if nsec >= NS_PER_SEC {
      sec := sec + nsec / NS_PER_SEC;
      nsec := nsec % NS_PER_SEC;
    }
    futureTime := Timespec(sec, nsec);
  }

  /** The LocTimer objects, their delegates and locks, the message queue and the two containers. */
  class TimerService {
    var now: Clock
    var clients: map<Client, Option<Delegate>>
    var live: map<Delegate, Fields>
    var locks: map<Client, nat>
    const msgTask: MT.MsgTask<Msg>
    const sw: LocTimerContainer
    const hw: LocTimerContainer

    ghost var msgs: seq<Msg>      // those pending in msgTask
    ghost var used: set<Client>
    ghost var created: set<Delegate>
    ghost var fired: multiset<Delegate>
    ghost var stopped: multiset<Delegate>
    ghost var deleted: multiset<Delegate>
    ghost var seen: set<Delegate>
    ghost var before: HT.Tree<Delegate>
    ghost var batch: seq<Delegate>

    ghost predicate Valid()
      reads this, sw, sw.heap, sw.heap.tree, sw.heap.Nodes(), hw, hw.heap, hw.heap.tree, hw.heap.Nodes()
      reads msgTask, msgTask.repr
    {
      && sw.Valid() && hw.Valid() && sw.Repr() !! hw.Repr() && this !in sw.Repr() + hw.Repr()
      && msgTask.Valid() && msgs == msgTask.pending
      && msgTask.repr !! sw.Repr() + hw.Repr() && this !in msgTask.repr
    }

    /** The state between two messages, with the poll thread waiting. */
    ghost function Model(): State
      reads this, sw, sw.heap, sw.heap.tree, hw, hw.heap, hw.heap.tree
    {
      State(now, clients, live, locks, msgs, sw.Model(), hw.Model(), Waiting, Idle,
            used, created, fired, stopped, deleted, seen, before, batch)
    }

    constructor ()
      ensures Valid() && Model() == INIT
    {
      now, clients, live, locks, msgs := Timespec(0, 0), map[], map[], map[], [];
      msgTask := new MT.MsgTask();
      sw := new LocTimerContainer();
      hw := new LocTimerContainer();
      used, created, fired, stopped, deleted := {}, {}, multiset{}, multiset{}, multiset{};
      seen, before, batch := {}, HT.Leaf, [];
    }

    method SetTimer(k: Client, timer: Option<Delegate>)
      requires Valid()
      modifies this`clients
      ensures Valid() && Model() == old(Model()).(clients := old(clients)[k := timer])
    {
      hide LocTimerContainer.Valid, MT.MsgTask.Valid;
      clients := clients[k := timer];
    }

    /** LocSharedLock::share */
    method Share(k: Client)
      requires Valid()
      modifies this`locks
      ensures Valid()
      ensures Model() == old(Model()).(locks := old(locks)[k := (if k in old(locks) then old(locks)[k] else 0) + 1])
    {
      hide LocTimerContainer.Valid, MT.MsgTask.Valid;
      locks := locks[k := (if k in locks then locks[k] else 0) + 1];
    }

    /** MsgTask::sendMsg */
    method SendMsg(msg: Msg)
      requires Valid()
      modifies this`msgs, msgTask.repr
      ensures fresh(msgTask.repr - old(msgTask.repr))
      ensures sw.Repr() == old(sw.Repr()) && hw.Repr() == old(hw.Repr())
      ensures Valid() && Model() == old(Model()).(msgs := old(msgs) + [msg])
    {
      hide MT.MsgTask.Valid, LocHeap.Shape;
      msgTask.SendMsg(msg);
      msgs := msgs + [msg];
    }

    method SetFields(timer: Delegate, fields: Fields)
      requires Valid()
      modifies this`live
      ensures Valid() && Model() == old(Model()).(live := old(live)[timer := fields])
    {
      hide LocTimerContainer.Valid, MT.MsgTask.Valid;
      live := live[timer := fields];
    }

    /** LocTimerDelegate::LocTimerDelegate: shares the client's lock and posts the push. */
    method NewTimer(timer: Delegate)
      requires Valid()
      modifies this`live, this`locks, this`msgs, msgTask.repr, this`created
      ensures fresh(msgTask.repr - old(msgTask.repr))
      ensures sw.Repr() == old(sw.Repr()) && hw.Repr() == old(hw.Repr())
      ensures Valid()
      ensures var s := old(Model()); var k := timer.client;
        Model() == s.(live := s.live[timer := Fields(Some(k), true)],
                      locks := s.locks[k := (if k in s.locks then s.locks[k] else 0) + 1],
                      msgs := s.msgs + [Push(timer)], created := s.created + {timer})
    {
      var k := timer.client;
      hide Valid;
      Share(k);
      SetFields(timer, Fields(Some(k), true));
      RecordCreated(timer);
      SendMsg(Push(timer));
    }

    ghost method RecordCreated(timer: Delegate)
      requires Valid()
      modifies this`created
      ensures Valid() && Model() == old(Model()).(created := old(created) + {timer})
    {
      hide LocTimerContainer.Valid, MT.MsgTask.Valid;
      created := created + {timer};
    }

    /** LocTimer::start; id is the address the allocator picks for the delegate. */
    method Start(k: Client, id: nat, ms: Word, wake: bool) returns (success: bool)
      requires Valid() && Enabled(Model(), TimerProtocol.Step.Start(k, id, ms, wake))
      modifies this`clients, this`live, this`locks, this`msgs, msgTask.repr, this`created
      ensures fresh(msgTask.repr - old(msgTask.repr))
      ensures sw.Repr() == old(sw.Repr()) && hw.Repr() == old(hw.Repr())
      ensures Valid() && Model() == Apply(old(Model()), TimerProtocol.Step.Start(k, id, ms, wake))
      ensures success <==> old(clients)[k].None?
      ensures !success ==> Model() == old(Model())
      ensures success ==>
        && k in clients && clients[k].Some?
        && var timer := clients[k].value;
        && TC.TimerFor(timer, k, now, ms, wake) && timer !in old(created)
        && created == old(created) + {timer} && msgTask.pending == old(msgTask.pending) + [Push(timer)]
    {
      hide LocTimerContainer.Valid, MT.MsgTask.Valid, After, Enabled, Apply;
      StartIs(Model(), k, id, ms, wake);
      success := false;
      if clients[k].None? {
        TC.StartStarts(Model(), k, id, ms, wake);
        var futureTime := FutureTime(now, ms);
        Begin(Delegate(id, k, futureTime, wake));
        success := true;
      }
    }

    /** What LocTimer::start does for a client without a running timer. */
    method Begin(timer: Delegate)
      requires Valid() && timer.client in clients && clients[timer.client].None?
      modifies this`clients, this`live, this`locks, this`msgs, msgTask.repr, this`created
      ensures fresh(msgTask.repr - old(msgTask.repr))
      ensures sw.Repr() == old(sw.Repr()) && hw.Repr() == old(hw.Repr())
      ensures Valid() && Model() == DoStart(old(Model()), timer.client, timer)
    {
      hide LocTimerContainer.Valid, MT.MsgTask.Valid, LocTimerContainer.Model;
      NewTimer(timer);
      SetTimer(timer.client, Some(timer));
    }

    /** LocTimerDelegate::destroyLocked */
    method DestroyLocked(timer: Delegate)
      requires Valid()
      modifies this`live, this`msgs, msgTask.repr
      ensures fresh(msgTask.repr - old(msgTask.repr))
      ensures sw.Repr() == old(sw.Repr()) && hw.Repr() == old(hw.Repr())
      ensures Valid()
      ensures var s := old(Model()); var attached := timer in s.live && s.live[timer].attached;
        Model() == s.(live := s.live[timer := Fields(None, false)],
                      msgs := if attached then s.msgs + [Remove(timer)] else s.msgs)
    {
      var attached := timer in live && live[timer].attached;
      hide Valid;
      SetFields(timer, Fields(None, false));
      if attached {
        SendMsg(Remove(timer));
      }
    }

    /** LocTimer::stop, without the record of who called it. */
    method Release(k: Client) returns (success: bool)
      requires Valid() && k in clients
      modifies this`clients, this`live, this`msgs, msgTask.repr
      ensures fresh(msgTask.repr - old(msgTask.repr))
      ensures sw.Repr() == old(sw.Repr()) && hw.Repr() == old(hw.Repr())
      ensures Valid() && Model() == TimerProtocol.Release(old(Model()), k)
      ensures success <==> old(clients)[k].Some?
    {
      hide Valid, LocTimerContainer.Model;
      success := false;
      if clients[k].Some? {
        var timer := clients[k].value;
        SetTimer(k, None);
        DestroyLocked(timer);
        success := true;
      }
    }

    method Stop(k: Client) returns (success: bool)
      requires Valid() && k in clients
      modifies this`clients, this`live, this`msgs, msgTask.repr, this`stopped
      ensures fresh(msgTask.repr - old(msgTask.repr))
      ensures sw.Repr() == old(sw.Repr()) && hw.Repr() == old(hw.Repr())
      ensures Valid() && Model() == Apply(old(Model()), TimerProtocol.Step.Stop(k))
      ensures success <==> old(clients)[k].Some?
      ensures clients == old(clients)[k := None]
      ensures stopped == old(stopped) + if success then multiset{old(clients)[k].value} else multiset{}
    {
      hide Valid, LocTimerContainer.Model;
      ghost var running := Running(Model(), k);
      success := Release(k);
      RecordStopped(running);
    }

    ghost method RecordStopped(timers: multiset<Delegate>)
      requires Valid()
      modifies this`stopped
      ensures Valid() && Model() == old(Model()).(stopped := old(stopped) + timers)
    {
      hide LocTimerContainer.Valid, MT.MsgTask.Valid;
      stopped := stopped + timers;
    }

    /** LocTimer::~LocTimer */
    method Destroy(k: Client)
      requires Valid() && k in clients
      modifies this`clients, this`live, this`msgs, msgTask.repr, this`stopped, this`locks
      ensures fresh(msgTask.repr - old(msgTask.repr))
      ensures sw.Repr() == old(sw.Repr()) && hw.Repr() == old(hw.Repr())
      ensures Valid() && Model() == Apply(old(Model()), TimerProtocol.Step.Destroy(k))
      ensures clients == old(clients) - {k}
    {
      hide Valid, LocTimerContainer.Model, Ready, After, TimerProtocol.Release, Running;
      var _ := Stop(k);
      Forget(k);
    }

    /** The LocTimer is gone, and with it its share of the lock. */
    method Forget(k: Client)
      requires Valid()
      modifies this`clients, this`locks
      ensures Valid() && Model() == old(Model()).(clients := old(clients) - {k}, locks := Drop(old(locks), k))
    {
      hide LocTimerContainer.Valid, MT.MsgTask.Valid, Drop;
      clients := clients - {k};
      locks := Drop(locks, k);
    }

    /** LocTimerDelegate::expire */
    method ExpireTimer(timer: Delegate)
      requires Valid() && ClientsExist(live, clients)
      modifies this`clients, this`live, this`msgs, msgTask.repr, this`fired, this`seen
      ensures fresh(msgTask.repr - old(msgTask.repr))
      ensures sw.Repr() == old(sw.Repr()) && hw.Repr() == old(hw.Repr())
      ensures Valid() && Model() == Expired(old(Model()), timer)
      ensures ClientsExist(live, clients)
    {
      hide Valid;
      ExpiredKeepsClients(Model(), timer);
      RecordSeen();
      var client := if timer in live then live[timer].client else None;
      if client.Some? { CallBack(client.value); }
    }

    /** Stops the client and, if its timer was running, calls it back. */
    method CallBack(k: Client)
      requires Valid() && k in clients
      modifies this`clients, this`live, this`msgs, msgTask.repr, this`fired
      ensures fresh(msgTask.repr - old(msgTask.repr))
      ensures sw.Repr() == old(sw.Repr()) && hw.Repr() == old(hw.Repr())
      ensures var s := old(Model());
        Valid() && Model() == TimerProtocol.Release(s, k).(fired := s.fired + Running(s, k))
    {
      hide Valid, LocTimerContainer.Model;
      ghost var running := Running(Model(), k);
      var _ := Release(k);
      RecordFired(running);
    }

    ghost method RecordSeen()
      requires Valid()
      modifies this`seen
      ensures Valid() && Model() == old(Model()).(seen := created)
    {
      hide LocTimerContainer.Valid, MT.MsgTask.Valid;
      seen := created;
    }

    ghost method RecordFired(timers: multiset<Delegate>)
      requires Valid()
      modifies this`fired
      ensures Valid() && Model() == old(Model()).(fired := old(fired) + timers)
    {
      hide LocTimerContainer.Valid, MT.MsgTask.Valid;
      fired := fired + timers;
    }

    /** The kernel calls of LocTimerContainer::expire: disarm, then stop polling. */
    method Silence(wake: bool)
      requires Valid()
      modifies sw`armed, sw`polled, hw`armed, hw`polled
      ensures var s := old(Model());
        Valid() && Model() == s.With(wake, s.At(wake).(armed := None, polled := false))
    {
      hide LocHeap.Valid, MT.MsgTask.Valid;
      var c := if wake then hw else sw;
      c.armed := None;
      c.polled := false;
    }

    /** LocTimerContainer::expire, called by the poll thread for a container whose fd is ready. */
    method PollExpire(wake: bool)
      requires Valid() && Enabled(Model(), PollWake([wake]))
      modifies this`msgs, msgTask.repr, sw`armed, sw`polled, hw`armed, hw`polled
      ensures fresh(msgTask.repr - old(msgTask.repr))
      ensures sw.Repr() == old(sw.Repr()) && hw.Repr() == old(hw.Repr())
      ensures Valid() && Run(old(Model()), [PollWake([wake]), PollStep, PollStep, PollStep]) == Some(Model())
      ensures var c := if wake then hw else sw; c.armed == None && !c.polled
      ensures msgs == old(msgs) + [Expire(wake)]
    {
      hide Valid, Enabled;
      OnePolled(Model(), wake);
      Silence(wake);
      SendMsg(Expire(wake));
    }

    ghost method Record(before: HT.Tree<Delegate>, batch: seq<Delegate>)
      requires Valid()
      modifies this`before, this`batch
      ensures Valid() && Model() == old(Model()).(before := before, batch := batch)
    {
      hide LocTimerContainer.Valid, MT.MsgTask.Valid;
      this.before := before;
      RecordBatch(batch);
    }

    ghost method RecordBatch(batch: seq<Delegate>)
      requires Valid()
      modifies this`batch
      ensures Valid() && Model() == old(Model()).(batch := batch)
    {
      hide LocTimerContainer.Valid, MT.MsgTask.Valid;
      this.batch := batch;
    }

    method PopFrom(wake: bool) returns (timer: Option<Delegate>)
      requires Valid()
      modifies sw.Repr(), hw.Repr()
      ensures msgTask.repr == old(msgTask.repr)
      ensures Valid() && sw.Repr() <= old(sw.Repr()) && hw.Repr() <= old(hw.Repr())
      ensures var s := old(Model());
        var c := s.At(wake);
        && timer == Top(c)
        && Model() == s.With(wake, if c.heap.Leaf? then c else c.(heap := HT.Pop(RankDelegates, c.heap).0))
    {
      hide HT.Pop;
      var c := if wake then hw else sw;
      timer := c.Pop();
    }

    /** The first pop of an expire message, which does not look at the time. */
    method PopFirst(wake: bool) returns (timer: Option<Delegate>)
      requires Valid()
      modifies this`before, this`batch, sw.Repr(), hw.Repr()
      ensures msgTask.repr == old(msgTask.repr)
      ensures Valid() && sw.Repr() <= old(sw.Repr()) && hw.Repr() <= old(hw.Repr())
      ensures timer == Top(old(Model()).At(wake))
      ensures Model() == BeginExpire(old(Model()), wake).(task := Idle)
    {
      hide HT.Pop, Valid;
      ghost var heap := Model().At(wake).heap;
      timer := PopFrom(wake);
      Record(heap, if timer.Some? then [timer.value] else []);
    }

    /** popIfOutRanks with the time of the expire message. */
    method PopDueFrom(wake: bool) returns (timer: Option<Delegate>)
      requires Valid()
      modifies sw.Repr(), hw.Repr()
      ensures msgTask.repr == old(msgTask.repr)
      ensures Valid() && sw.Repr() <= old(sw.Repr()) && hw.Repr() <= old(hw.Repr())
      ensures var s := old(Model());
        var c := s.At(wake);
        if c.heap.Node? && !(Ranks(now, c.heap.data.due) > 0)
        then timer == Some(c.heap.data) && Model() == s.With(wake, c.(heap := HT.Pop(RankDelegates, c.heap).0))
        else timer == None && Model() == s
    {
      hide HT.Pop, Ranks;
      var c := if wake then hw else sw;
      timer := c.PopIfOutRanks(now);
    }

    method PopNext(wake: bool) returns (timer: Option<Delegate>)
      requires Valid()
      modifies this`batch, sw.Repr(), hw.Repr()
      ensures msgTask.repr == old(msgTask.repr)
      ensures Valid() && sw.Repr() <= old(sw.Repr()) && hw.Repr() <= old(hw.Repr())
      ensures var s := old(Model());
        var heap := s.At(wake).heap;
        if heap.Node? && !(Ranks(now, heap.data.due) > 0)
        then timer == Some(heap.data) && Model() == PopTop(s, wake, now).(task := Idle)
        else timer == None && Model() == s
    {
      hide HT.Pop, Ranks, Valid;
      timer := PopDueFrom(wake);
      if timer.Some? {
        RecordBatch(batch + [timer.value]);
      }
    }

    /** Where the loop of an expire message, begun in s0, stands when timer is what the latest pop gave. */
    ghost predicate InLoop(s0: State, wake: bool, timer: Option<Delegate>)
      reads this, sw, sw.heap, sw.heap.tree, hw, hw.heap, hw.heap.tree
    {
      && ClientsExist(live, clients)
      && match timer
         case Some(d) => TaskRuns(s0, Model().(task := Popped(wake, now, d)))
         case None => TaskRuns(s0, Model().(task := Next(wake, now))) && TopNotDue(Model().At(wake).heap, now)
    }

    /** One round of the loop: expire the popped timer and pop the next one that is due. */
    method ExpireAndPop(ghost s0: State, wake: bool, timer: Delegate) returns (next: Option<Delegate>)
      requires Valid() && InLoop(s0, wake, Some(timer))
      modifies this`clients, this`live, this`msgs, msgTask.repr, this`fired, this`seen, this`batch, sw.Repr(), hw.Repr()
      ensures fresh(msgTask.repr - old(msgTask.repr))
      ensures Valid() && InLoop(s0, wake, next)
      ensures sw.Repr() <= old(sw.Repr()) && hw.Repr() <= old(hw.Repr())
      ensures HT.Count(Model().At(wake).heap) <= old(HT.Count(Model().At(wake).heap)) - if next.Some? then 1 else 0
    {
      hide TaskRuns, Expired, Ranks, HT.Pop, LocTimerContainer.Valid, MT.MsgTask.Valid;
      ExpireRuns(s0, Model(), wake, now, timer);
      ExpiredKeepsHeaps(Model(), timer);
      ExpireTimer(timer);
      ghost var s1 := Model();
      next := PopNext(wake);
      if next.Some? { PopRuns(s0, s1, wake, now); }
    }

    /** The loop of an expire message from its second timer on. */
    method ExpireLoop(ghost s0: State, wake: bool, first: Delegate)
      requires Valid() && InLoop(s0, wake, Some(first))
      modifies this`clients, this`live, this`msgs, msgTask.repr, this`fired, this`seen, this`batch, sw.Repr(), hw.Repr()
      ensures fresh(msgTask.repr - old(msgTask.repr))
      ensures Valid() && InLoop(s0, wake, None)
      ensures sw.Repr() <= old(sw.Repr()) && hw.Repr() <= old(hw.Repr())
    {
      hide LocTimerContainer.Valid, MT.MsgTask.Valid, LocTimerContainer.Model, InLoop, HT.Count;
      var timer := Some(first);
      while timer.Some?
        invariant Valid() && InLoop(s0, wake, timer)
        invariant sw.Repr() <= old(sw.Repr()) && hw.Repr() <= old(hw.Repr())
        invariant fresh(msgTask.repr - old(msgTask.repr))
        decreases HT.Count(Model().At(wake).heap), timer.Some?
      {
        timer := ExpireAndPop(s0, wake, timer.value);
      }
    }

    method UpdateKernel(wake: bool)
      requires Valid()
      modifies sw`armed, sw`polled, hw`armed, hw`polled
      ensures var s := old(Model());
        Valid() && Model() == s.With(wake, Armed(s.At(wake), UpdateSoonestTime(s.At(wake), wake, None)))
    {
      hide LocHeap.Valid, MT.MsgTask.Valid;
      var c := if wake then hw else sw;
      c.UpdateSoonestTime(wake, None);
    }

    /** MsgTimerExpire::proc */
    method ProcExpire()
      requires Valid() && msgs != [] && msgs[0].Expire? && ClientsExist(live, clients)
      modifies this, msgTask.repr, sw.Repr(), hw.Repr()
      ensures Valid() && TaskRuns(DoReceive(old(Model())), Model())
    {
      ghost var s0 := BeginExpire(Model().(msgs := msgs[1..]), msgs[0].wake);
      assert DoReceive(Model()) == s0;
      assert TaskRuns(s0, s0) by { assert RunTask(s0, 0) == s0; }
      hide TaskRuns, DoReceive, UpdateSoonestTime, LocTimerContainer.Model, Valid;
      var msg := Receive();
      var wake := msg.wake;
      var timer := PopFirst(wake);
      if timer.Some? {
        assert InLoop(s0, wake, timer);
        ExpireLoop(s0, wake, timer.value);
        EndRuns(s0, Model(), wake, now);
        UpdateKernel(wake);
      }
    }

    /** MsgTask::run, up to the handling of the message */
    method Receive() returns (msg: Msg)
      requires Valid() && msgs != []
      modifies this`msgs, msgTask.repr
      ensures fresh(msgTask.repr - old(msgTask.repr))
      ensures sw.Repr() == old(sw.Repr()) && hw.Repr() == old(hw.Repr())
      ensures Valid() && msg == old(msgs)[0]
      ensures Model() == old(Model()).(msgs := old(msgs)[1..])
    {
      hide MT.MsgTask.Valid, LocHeap.Shape;
      msg := msgTask.Take();
      msgs := msgs[1..];
    }

    /** The part of a push message that concerns the timer's container. */
    method Attach(d: Delegate)
      requires Valid()
      modifies sw.Repr(), hw.Repr()
      ensures msgTask.repr == old(msgTask.repr)
      ensures Valid() && fresh(sw.Repr() + hw.Repr() - old(sw.Repr() + hw.Repr()))
      ensures var s := old(Model()); Model() == s.With(d.wake, Pushed(s.At(d.wake), d))
    {
      hide Pushed;
      var c := if d.wake then hw else sw;
      c.ProcPush(d);
    }

    /** MsgTimerPush::proc */
    method ProcPush()
      requires Valid() && msgs != [] && msgs[0].Push?
      modifies this`msgs, msgTask.repr, sw.Repr(), hw.Repr()
      ensures fresh(msgTask.repr - old(msgTask.repr))
      ensures Valid() && Model() == Settled(DoReceive(old(Model())))
    {
      PushSettles(Model());
      hide Pushed, Settled, DoReceive, Valid;
      var msg := Receive();
      Attach(msg.d);
    }

    /** LocTimerDelegate::~LocTimerDelegate */
    method Delete(d: Delegate)
      requires Valid()
      modifies this`live, this`locks, this`deleted
      ensures Valid()
      ensures Model() == old(Model()).(live := old(live) - {d}, locks := Drop(old(locks), d.client),
                                       deleted := old(deleted) + multiset{d})
    {
      hide Drop, LocTimerContainer.Valid, MT.MsgTask.Valid;
      live := live - {d};
      locks := Drop(locks, d.client);
      deleted := deleted + multiset{d};
    }

    /** The part of a remove message that concerns the timer's container. */
    method Detach(d: Delegate)
      requires Valid()
      modifies sw.Repr(), hw.Repr()
      ensures msgTask.repr == old(msgTask.repr)
      ensures Valid()
      ensures var s := old(Model()); Model() == s.With(d.wake, Removed(s.At(d.wake), d))
    {
      hide Removed;
      var c := if d.wake then hw else sw;
      c.ProcRemove(d);
    }

    /** MsgTimerRemove::proc */
    method ProcRemove()
      requires Valid() && msgs != [] && msgs[0].Remove?
      modifies this`msgs, msgTask.repr, this`live, this`locks, this`deleted, sw.Repr(), hw.Repr()
      ensures fresh(msgTask.repr - old(msgTask.repr))
      ensures Valid() && Model() == Settled(DoReceive(old(Model())))
    {
      RemoveSettles(Model());
      hide Removed, Settled, DoReceive, Drop, Valid;
      var msg := Receive();
      Detach(msg.d);
      Delete(msg.d);
    }
  }

  lemma StartIs(s: State, k: Client, id: nat, ms: Word, wake: bool)
    requires Enabled(s, Step.Start(k, id, ms, wake))
    ensures k in s.clients && After(s.now, ms).sec < INT_LIMIT && Normal(After(s.now, ms)) && After(s.now, ms).sec >= 0
    ensures Apply(s, Step.Start(k, id, ms, wake)) == DoStart(s, k, Delegate(id, k, After(s.now, ms), wake))
  {
    DeadlineFits(s.now, ms);
  }

  lemma OnePolled(s: State, wake: bool)
    requires Enabled(s, PollWake([wake]))
    ensures s.poll == Waiting
    ensures Run(s, [PollWake([wake]), PollStep, PollStep, PollStep]) ==
            Some(s.With(wake, s.At(wake).(armed := None, polled := false)).(msgs := s.msgs + [Expire(wake)]))
  {
    var s1 := Apply(s, PollWake([wake]));
    TP.OneIsHandled(s1, 3);
    assert TP.PollSteps(3) == [PollStep, PollStep, PollStep];
    assert [PollWake([wake]), PollStep, PollStep, PollStep][1..] == TP.PollSteps(3);
    assert TP.Handled(s1).poll == s.poll;
  }
}
