/**
 * The timer service as a state machine: one step per locked client call, per action of the poll
 * thread on the kernel, and per action of the message thread.  LocTimer objects are named by
 * numbers that are never reused; a Delegate is the address of a LocTimerDelegate together with the
 * fields its constructor sets once and for all.
 */
module TimerProtocol {
  import opened Deadline
  import opened Optional
  import opened Ranking
  import opened Words
  import HT = HeapTree

  type Client = nat

  datatype Delegate = Delegate(id: nat, client: Client, due: Time, wake: bool)

  /** The fields of a delegate that destroyLocked resets: mClient, and whether mContainer is set. */
  datatype Fields = Fields(client: Option<Client>, attached: bool)

  datatype Msg = Push(d: Delegate) | Remove(d: Delegate) | Expire(wake: bool)

  /** A heap of timers, what its timerfd was last set to, and whether the fd is in the epoll set. */
  datatype Container = Container(heap: HT.Tree<Delegate>, armed: Option<Time>, polled: bool)

  /** The poll thread: in epoll_wait, or handling the containers it was woken for. */
  datatype PollPc = Waiting | Handling(todo: seq<bool>, stage: PollStage)
  datatype PollStage = Disarm | Unpoll | Post

  /** The message thread: between messages, in the loop of MsgTimerExpire, or setting the kernel timer. */
  datatype TaskPc =
    | Idle
    | Popped(wake: bool, at: Time, d: Delegate)               // popped d, mClient not read yet
    | Stopping(wake: bool, at: Time, d: Delegate, k: Client)  // read mClient, stop() not called yet
    | Calling(wake: bool, at: Time, d: Delegate)              // stopped d, timeOutCallback() not called yet
    | Next(wake: bool, at: Time)                              // about to look at the top again
    | Arming(wake: bool, due: Option<Time>, pollSet: bool)    // in updateSoonestTime

  datatype State = State(
    now: Clock,
    clients: map<Client, Option<Delegate>>,  // the LocTimer objects and their mTimer
    live: map<Delegate, Fields>,             // the delegates not deleted yet
    locks: map<Client, nat>,                 // each LocTimer's LocSharedLock: its reference count
    msgs: seq<Msg>,
    sw: Container,
    hw: Container,
    poll: PollPc,
    task: TaskPc,
    // history
    used: set<Client>,
    created: set<Delegate>,
    fired: multiset<Delegate>,
    stopped: multiset<Delegate>,
    deleted: multiset<Delegate>,
    seen: set<Delegate>,        // the delegates created when the message thread last read a delegate's mClient
    before: HT.Tree<Delegate>,  // the heap when the latest expire message was received
    batch: seq<Delegate>        // what that message has popped, in order
  ) {
    function At(wake: bool): Container {
      if wake then hw else sw
    }

    function With(wake: bool, c: Container): State {
      if wake then this.(hw := c) else this.(sw := c)
    }
  }

  const INIT := State(Timespec(0, 0), map[], map[], map[], [],
                      Container(HT.Leaf, None, false), Container(HT.Leaf, None, false),
                      Waiting, Idle, {}, {}, multiset{}, multiset{}, multiset{}, {}, HT.Leaf, [])

  function RankDelegates(a: Delegate, b: Delegate): int {
    Ranks(a.due, b.due)
  }

  function Top(c: Container): Option<Delegate> {
    if c.heap.Leaf? then None else Some(c.heap.data)
  }

  // ---------- the steps ----------

  datatype Step =
    | Tick(now: Clock)
    | NewClient(k: Client)
    | Start(k: Client, id: nat, ms: Word, wake: bool)
    | Stop(k: Client)
    | Destroy(k: Client)
    | PollWake(todo: seq<bool>)
    | PollStep
    | Receive
    | TaskStep

  /** The LocTimer object that the message thread is going to use, if any. */
  function Held(task: TaskPc): Option<Client> {
    match task
    case Stopping(_, _, _, k) => Some(k)
    case Calling(_, _, d) => Some(d.client)
    case _ => None
  }

  /** The delegate that a Start step creates. */
  function NewDelegate(s: State, k: Client, id: nat, ms: Word, wake: bool): Delegate {
    DeadlineFits(s.now, ms);
    Delegate(id, k, After(s.now, ms), wake)
  }

  /** timerfd readiness as epoll sees it. */
  predicate Ready(s: State, wake: bool) {
    var c := s.At(wake);
    c.polled && c.armed.Some? && !Earlier(s.now, c.armed.value)
  }

  predicate Enabled(s: State, step: Step) {
    match step
    case Tick(now) => !Earlier(now, s.now)
    case NewClient(k) => k !in s.used
    case Start(k, id, ms, wake) => k in s.clients && NewDelegate(s, k, id, ms, wake) !in s.created
    case Stop(k) => k in s.clients
    case Destroy(k) => k in s.clients && Held(s.task) != Some(k)
    case PollWake(todo) =>
      && s.poll == Waiting && 0 < |todo| <= 2   // epoll_wait reports at most two events
      && (forall i | 0 <= i < |todo| :: Ready(s, todo[i]))
      && (forall i, j | 0 <= i < j < |todo| :: todo[i] != todo[j])
    case PollStep => s.poll.Handling? && s.poll.todo != []
    case Receive => s.task == Idle && s.msgs != []
    case TaskStep => s.task != Idle
  }

  function Apply(s: State, step: Step): State
    requires Enabled(s, step)
  {
    match step
    case Tick(now) => s.(now := now)
    case NewClient(k) => s.(clients := s.clients[k := None], locks := s.locks[k := 1], used := s.used + {k})
    case Start(k, id, ms, wake) => DoStart(s, k, NewDelegate(s, k, id, ms, wake))
    case Stop(k) => DoStop(s, k)
    case Destroy(k) => DoDestroy(s, k)
    case PollWake(todo) => s.(poll := Handling(todo, Disarm))
    case PollStep => DoPoll(s)
    case Receive => DoReceive(s)
    case TaskStep => DoTask(s)
  }

  /** LocTimer::start, with the clock read and the delegate made from it. */
  function DoStart(s: State, k: Client, d: Delegate): State
    requires k in s.clients
  {
    if s.clients[k].Some? then s
    else s.(clients := s.clients[k := Some(d)],
            live := s.live[d := Fields(Some(k), true)],
            locks := s.locks[k := (if k in s.locks then s.locks[k] else 0) + 1],
            msgs := s.msgs + [Push(d)],
            created := s.created + {d})
  }

  /** LocTimer::stop without the caller: what it does to the delegate in mTimer, if there is one. */
  function Release(s: State, k: Client): State
    requires k in s.clients
  {
    if s.clients[k].None? then s
    else
      var d := s.clients[k].value;
      var attached := d in s.live && s.live[d].attached;
      s.(clients := s.clients[k := None],
         live := s.live[d := Fields(None, false)],
         msgs := if attached then s.msgs + [Remove(d)] else s.msgs)
  }

  function Running(s: State, k: Client): multiset<Delegate> {
    if k in s.clients && s.clients[k].Some? then multiset{s.clients[k].value} else multiset{}
  }

  function DoStop(s: State, k: Client): State
    requires k in s.clients
  {
    Release(s, k).(stopped := s.stopped + Running(s, k))
  }

  function DoDestroy(s: State, k: Client): State
    requires k in s.clients
  {
    var s1 := DoStop(s, k);
    s1.(clients := s1.clients - {k}, locks := Drop(s1.locks, k))
  }

  /** LocSharedLock::drop: the last reference deletes the lock. */
  function Drop(locks: map<Client, nat>, k: Client): map<Client, nat> {
    if k !in locks || locks[k] == 0 then locks
    else if locks[k] == 1 then locks - {k}
    else locks[k := locks[k] - 1]
  }

  /** LocTimerContainer::expire in the poll thread, one kernel or queue operation at a time. */
  function DoPoll(s: State): State
    requires s.poll.Handling? && s.poll.todo != []
  {
    var w := s.poll.todo[0];
    var c := s.At(w);
    match s.poll.stage
    case Disarm => s.With(w, c.(armed := None)).(poll := s.poll.(stage := Unpoll))
    case Unpoll => s.With(w, c.(polled := false)).(poll := s.poll.(stage := Post))
    case Post =>
      s.(msgs := s.msgs + [Expire(w)],
         poll := if |s.poll.todo| == 1 then Waiting else Handling(s.poll.todo[1..], Disarm))
  }

  /** LocTimerContainer::updateSoonestTime: what, if anything, is to be told to the kernel. */
  function UpdateSoonestTime(c: Container, wake: bool, priorTop: Option<Delegate>): TaskPc {
    var curTop := Top(c);
    if curTop == priorTop then Idle
    else if curTop.None? then Arming(wake, None, false)
    else if priorTop.None? || OutRanks(RankDelegates, curTop.value, priorTop.value)
    then Arming(wake, Some(curTop.value.due), false)
    else Idle
  }

  /** The next message, up to its first kernel call or first popped timer. */
  function DoReceive(s: State): State
    requires s.msgs != []
  {
    var s1 := s.(msgs := s.msgs[1..]);
    match s.msgs[0]
    case Push(d) =>
      var c := s.At(d.wake);
      var c' := c.(heap := HT.Push(RankDelegates, c.heap, d));
      s1.With(d.wake, c').(task := UpdateSoonestTime(c', d.wake, Top(c)))
    case Remove(d) =>
      var c := s.At(d.wake);
      var (found, heap) := HT.Remove(RankDelegates, c.heap, d);
      var c' := c.(heap := heap);
      var removed := if found then Some(d) else None;
      s1.With(d.wake, c').(
        task := if Top(c) == removed then UpdateSoonestTime(c', d.wake, None) else Idle,
        live := s.live - {d},
        locks := Drop(s.locks, d.client),
        deleted := s.deleted + multiset{d})
    case Expire(w) => BeginExpire(s1, w)
  }

  function BeginExpire(s: State, w: bool): State {
    var s1 := s.(before := s.At(w).heap, batch := []);
    if s.At(w).heap.Leaf? then s1 else PopTop(s1, w, s.now)
  }

  function PopTop(s: State, w: bool, at: Time): State
    requires s.At(w).heap.Node?
  {
    var c := s.At(w);
    s.With(w, c.(heap := HT.Pop(RankDelegates, c.heap).0)).(
      task := Popped(w, at, c.heap.data),
      batch := s.batch + [c.heap.data])
  }

  /** LocTimer::stop called by LocTimerDelegate::expire: on success the callback is to follow. */
  function ExpireStop(s: State, w: bool, at: Time, k: Client): State
    requires k in s.clients
  {
    Release(s, k).(task := if s.clients[k].Some? then Calling(w, at, s.clients[k].value) else Next(w, at))
  }

  /** The message thread inside MsgTimerExpire or updateSoonestTime. */
  function DoTask(s: State): State {
    match s.task
    case Idle => s
    case Popped(w, at, d) =>
      var client := if d in s.live then s.live[d].client else None;
      s.(task := if client.Some? then Stopping(w, at, d, client.value) else Next(w, at), seen := s.created)
    case Stopping(w, at, d, k) =>
      if k in s.clients then ExpireStop(s, w, at, k) else s
    case Calling(w, at, d) =>
      s.(task := Next(w, at), fired := s.fired + multiset{d})
    case Next(w, at) =>
      var c := s.At(w);
      if c.heap.Node? && !(Ranks(at, c.heap.data.due) > 0) then PopTop(s, w, at)
      else s.(task := UpdateSoonestTime(c, w, None))
    case Arming(w, due, pollSet) =>
      var c := s.At(w);
      if pollSet then s.With(w, c.(armed := due)).(task := Idle)
      else s.With(w, c.(polled := due.Some?)).(task := Arming(w, due, true))
  }

  // ---------- runs ----------

  /** The state a list of steps leads to, if every step is enabled when its turn comes. */
  function Run(s: State, steps: seq<Step>): Option<State>
    decreases |steps|
  {
    if steps == [] then Some(s)
    else if Enabled(s, steps[0]) then Run(Apply(s, steps[0]), steps[1..])
    else None
  }

  ghost predicate Reachable(s: State) {
    exists steps :: Run(INIT, steps) == Some(s)
  }
}
