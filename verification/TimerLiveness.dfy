/** Every due timer is called back: the service's own steps come to an end, and then nothing due is left. */
module TimerLiveness {
  import opened Deadline
  import opened Optional
  import opened Sequences
  import opened TimerProtocol
  import opened TimerOwnership
  import opened TimerProgress
  import TimerArming
  import TimerLedger
  import TE = TimerExpiry
  import HT = HeapTree

  /** The steps of the poll thread and of the message thread. */
  predicate ByService(step: Step) {
    step.PollWake? || step.PollStep? || step.Receive? || step.TaskStep?
  }

  ghost predicate ServiceRun(steps: seq<Step>) {
    forall i | 0 <= i < |steps| :: ByService(steps[i])
  }

  /** Neither thread of the service can take a step. */
  ghost predicate Quiet(s: State) {
    forall step | ByService(step) :: !Enabled(s, step)
  }

  lemma ServiceLeaves(s: State, step: Step)
    requires Enabled(s, step) && ByService(step)
    ensures SameForClients(s, Apply(s, step))
  {
    hide DoReceive, DoTask, DoPoll, Ready;
    match step {
      case Receive => ReceiveLeaves(s);
      case TaskStep => TaskLeaves(s);
      case PollWake(_) =>
      case PollStep => PollLeaves(s);
    }
  }

  lemma {:induction false} RunLeaves(s: State, steps: seq<Step>)
    requires Run(s, steps).Some? && ServiceRun(steps)
    ensures SameForClients(s, Run(s, steps).value)
    decreases |steps|
  {
    if steps != [] {
      ServiceLeaves(s, steps[0]);
      RunLeaves(Apply(s, steps[0]), steps[1..]);
    }
  }

  // ---------- a bound on the service's own steps ----------

  /** The LocTimers with a running timer. */
  function Running(s: State): set<Client> {
    set k | k in s.clients && s.clients[k].Some?
  }

  /** The push and remove messages; the others are expire messages. */
  function Changes(msgs: seq<Msg>): nat {
    if msgs == [] then 0 else One(!msgs[0].Expire?) + Changes(msgs[1..])
  }

  function Pushes(msgs: seq<Msg>): nat {
    if msgs == [] then 0 else One(msgs[0].Push?) + Pushes(msgs[1..])
  }

  lemma {:induction false} CountAppended(msgs: seq<Msg>, msg: Msg)
    ensures Changes(msgs + [msg]) == Changes(msgs) + One(!msg.Expire?)
    ensures Pushes(msgs + [msg]) == Pushes(msgs) + One(msg.Push?)
  {
    if msgs != [] {
      assert (msgs + [msg])[1..] == msgs[1..] + [msg];
      CountAppended(msgs[1..], msg);
    }
  }

  predicate Past(s: State, due: Option<Time>) {
    due.Some? && !Earlier(s.now, due.value)
  }

  /** The poll thread is going to disarm the container. */
  predicate Marked(poll: PollPc, w: bool) {
    poll.Handling? && poll.todo != [] && ((poll.stage.Disarm? && poll.todo[0] == w) || w in poll.todo[1..])
  }

  /** A container that the poll thread may still be woken for. */
  predicate Waking(s: State, w: bool) {
    Past(s, s.At(w).armed) && !Marked(s.poll, w)
  }

  /** The message thread may be about to arm a container for a time that is past. */
  predicate MayArmPast(s: State) {
    match s.task
    case Idle => false
    case Arming(_, due, _) => Past(s, due)
    case Popped(_, at, _) => Earlier(at, s.now)
    case Stopping(_, at, _, _) => Earlier(at, s.now)
    case Calling(_, at, _) => Earlier(at, s.now)
    case Next(_, at) => Earlier(at, s.now)
  }

  /** How often the poll thread can still be woken: once for each push, removal or timer running, and a few more. */
  function Wakings(s: State): nat {
    |Running(s)| + Changes(s.msgs) + One(MayArmPast(s)) + One(Waking(s, false)) + One(Waking(s, true))
  }

  function Timers(s: State): nat {
    HT.Count(s.sw.heap) + HT.Count(s.hw.heap) + Pushes(s.msgs)
  }

  /** What one message can cost the message thread. */
  function Cost(s: State): nat {
    4 * Timers(s) + 4
  }

  /** The messages sent and the removals that running timers will send. */
  function Load(s: State): nat {
    |s.msgs| + |Running(s)|
  }

  function Items(poll: PollPc): nat {
    if poll.Waiting? then 0 else |poll.todo|
  }

  function Stage(poll: PollPc): nat {
    if poll.Waiting? || poll.stage.Disarm? then 0 else if poll.stage.Unpoll? then 1 else 2
  }

  function Weigh(cost: nat, wakings: nat, load: nat, items: nat, stage: nat, ahead: nat): int {
    wakings * (cost + 4) + load * cost + items * (cost + 3) - stage + ahead
  }

  function Bound(s: State): int {
    Weigh(Cost(s), Wakings(s), Load(s), Items(s.poll), Stage(s.poll), Ahead(s))
  }

  lemma Grow(a: nat, b: nat, c: nat, d: nat)
    requires a <= b && c <= d
    ensures a * c <= b * d
  {
    assert a * c <= b * c by { assert (b - a) * c >= 0; }
    assert b * c <= b * d by { assert b * (d - c) >= 0; }
  }

  /** All weights at most what they were. */
  lemma WeighLess(c: nat, r: nat, q: nat, n: nat, st: nat, a: nat, c': nat, r': nat, q': nat, st': nat, a': nat)
    requires c' <= c && r' <= r && q' <= q
    ensures Weigh(c', r', q', n, st', a') <= Weigh(c, r, q, n, st, a) + (st - st') + (a' - a)
  {
    Grow(r', r, c' + 4, c + 4);
    Grow(q', q, c', c);
    Grow(n, n, c' + 3, c + 3);
  }

  lemma WeighPollWake(c: nat, r: nat, q: nat, n: nat, a: nat)
    requires n <= r
    ensures Weigh(c, r - n, q, n, 0, a) == Weigh(c, r, q, 0, 0, a) - n
  {
    assert (r - n) * (c + 4) == r * (c + 4) - n * (c + 4);
    assert n * (c + 4) == n * (c + 3) + n;
  }

  lemma WeighPost(c: nat, r: nat, q: nat, n: nat, a: nat)
    requires n > 0
    ensures Weigh(c, r, q + 1, n - 1, 0, a) == Weigh(c, r, q, n, 2, a) - 1
  {
    assert (q + 1) * c == q * c + c;
    assert (n - 1) * (c + 3) == n * (c + 3) - (c + 3);
  }

  lemma WeighReceive(c: nat, r: nat, q: nat, n: nat, st: nat, c': nat, r': nat, a': nat)
    requires q > 0 && c' <= c && r' <= r && a' < c
    ensures Weigh(c', r', q - 1, n, st, a') < Weigh(c, r, q, n, st, 0)
  {
    WeighLess(c, r, q - 1, n, st, 0, c', r', q - 1, st, a');
    assert (q - 1) * c == q * c - c;
  }

  lemma WeighNat(c: nat, r: nat, q: nat, n: nat, st: nat, a: nat)
    requires st <= 2 && (st > 0 ==> n > 0)
    ensures Weigh(c, r, q, n, st, a) >= 0
  {
    Grow(0, r, 0, c + 4);
    Grow(0, q, 0, c);
    if n > 0 { Grow(1, n, c + 3, c + 3); }
  }

  // ---------- each step of the service lowers the bound ----------

  lemma WakeMarks(s: State, todo: seq<bool>, w: bool)
    requires Enabled(s, PollWake(todo))
    ensures w in todo ==> Waking(s, w)
    ensures Waking(Apply(s, PollWake(todo)), w) <==> Waking(s, w) && w !in todo
  {
    assert todo == [todo[0]] + todo[1..];
  }

  lemma EachOnce(todo: seq<bool>)
    requires 0 < |todo| <= 2 && forall i, j | 0 <= i < j < |todo| :: todo[i] != todo[j]
    ensures |todo| == One(false in todo) + One(true in todo)
  {
    assert |todo| > 1 ==> todo[0] != todo[1];
    assert todo[0] in todo && (|todo| > 1 ==> todo[1] in todo);
    if |todo| == 1 { assert todo == [todo[0]] && !todo[0] !in todo; }
  }

  lemma WakeTakes(s: State, todo: seq<bool>)
    requires Enabled(s, PollWake(todo))
    ensures var s' := Apply(s, PollWake(todo));
      |todo| <= Wakings(s) && Wakings(s') == Wakings(s) - |todo| && todo != []
  {
    WakeMarks(s, todo, false);
    WakeMarks(s, todo, true);
    EachOnce(todo);
    assert Running(Apply(s, PollWake(todo))) == Running(s);
    hide Running, Changes, Waking, Ready;
  }

  lemma WakeAdvances(s: State, todo: seq<bool>)
    requires Enabled(s, PollWake(todo))
    ensures Bound(Apply(s, PollWake(todo))) < Bound(s)
  {
    WakeTakes(s, todo);
    assert Running(Apply(s, PollWake(todo))) == Running(s);
    hide Wakings, Ready, Weigh, Running;
    WeighPollWake(Cost(s), Wakings(s), Load(s), |todo|, Ahead(s));
  }

  lemma PollKeepsWaking(s: State, w: bool)
    requires s.poll.Handling? && s.poll.todo != []
    ensures Waking(DoPoll(s), w) <==> Waking(s, w)
  {
    assert s.poll.todo == [s.poll.todo[0]] + s.poll.todo[1..];
    match s.poll.stage {
      case Disarm =>
      case Unpoll =>
      case Post => if |s.poll.todo| > 1 { assert s.poll.todo[1..] == [s.poll.todo[1]] + s.poll.todo[1..][1..]; }
    }
  }

  lemma SameArming(s: State, s': State)
    requires s'.task == s.task && s'.now == s.now
    ensures MayArmPast(s') == MayArmPast(s)
  {
  }

  lemma SameTask(s: State, s': State)
    requires s'.task == s.task && s'.sw.heap == s.sw.heap && s'.hw.heap == s.hw.heap
    ensures Ahead(s') == Ahead(s)
  {
  }

  lemma PollStepKeeps(s: State)
    requires s.poll.Handling? && s.poll.todo != []
    ensures var s' := DoPoll(s);
      Wakings(s') == Wakings(s) && Timers(s') == Timers(s) && Ahead(s') == Ahead(s)
  {
    hide HT.Count, Changes, Pushes, Running, Waking, MayArmPast, Marked;
    PollKeepsWaking(s, false);
    PollKeepsWaking(s, true);
    CountAppended(s.msgs, Expire(s.poll.todo[0]));
    SameRunning(s, DoPoll(s));
    SameArming(s, DoPoll(s));
    SameTask(s, DoPoll(s));
  }

  lemma PollAdvances(s: State)
    requires s.poll.Handling? && s.poll.todo != []
    ensures Bound(DoPoll(s)) < Bound(s)
  {
    PollStepKeeps(s);
    assert Running(DoPoll(s)) == Running(s);
    hide Wakings, Timers, Ahead, Running, Weigh;
    if s.poll.stage.Post? {
      WeighPost(Cost(s), Wakings(s), Load(s), |s.poll.todo|, Ahead(s));
    } else {
      WeighLess(Cost(s), Wakings(s), Load(s), |s.poll.todo|, Stage(s.poll), Ahead(s),
                Cost(s), Wakings(s), Load(s), Stage(s.poll) + 1, Ahead(s));
    }
  }

  // the message thread

  lemma DequeuedCounts(s: State)
    requires s.msgs != []
    ensures Changes(s.msgs) == One(!s.msgs[0].Expire?) + Changes(s.msgs[1..])
    ensures Pushes(s.msgs) == One(s.msgs[0].Push?) + Pushes(s.msgs[1..])
  {
  }

  /** Nothing but the heaps, the queue and the task matters here, and the containers stay as armed as they were. */
  predicate SameForPoll(s: State, s': State) {
    && s'.now == s.now && s'.poll == s.poll && s'.sw.armed == s.sw.armed && s'.hw.armed == s.hw.armed
  }

  lemma SameWaking(s: State, s': State)
    requires SameForPoll(s, s')
    ensures Waking(s', false) == Waking(s, false) && Waking(s', true) == Waking(s, true)
  {
  }

  lemma HeapIsSized(s: State, w: bool)
    requires Safe(s)
    ensures HT.SizesTrue(s.At(w).heap)
  {
    hide AllOwned;
  }

  lemma ReceivePushLowers(s: State)
    requires Safe(s) && s.msgs != [] && s.task == Idle && s.msgs[0].Push?
    ensures var s' := DoReceive(s);
      && SameForPoll(s, s') && s'.clients == s.clients && s'.msgs == s.msgs[1..]
      && Timers(s') <= Timers(s) && Wakings(s') <= Wakings(s)
  {
    hide Safe, UpdateSoonestTime, HT.Push, HT.Count, HT.SizesTrue, Changes, Pushes, Running, Waking, MayArmPast;
    var d := s.msgs[0].d;
    HeapIsSized(s, d.wake);
    HT.PushSizes(RankDelegates, s.At(d.wake).heap, d);
    DequeuedCounts(s);
    IdleArmsNothing(s);
    SameWaking(s, DoReceive(s));
    SameRunning(s, DoReceive(s));
  }

  lemma IdleArmsNothing(s: State)
    requires s.task == Idle
    ensures !MayArmPast(s)
  {
  }

  lemma ReceiveRemoveLowers(s: State)
    requires Safe(s) && s.msgs != [] && s.task == Idle && s.msgs[0].Remove?
    ensures var s' := DoReceive(s);
      && SameForPoll(s, s') && s'.clients == s.clients && s'.msgs == s.msgs[1..]
      && Timers(s') <= Timers(s) && Wakings(s') <= Wakings(s)
  {
    hide Safe, UpdateSoonestTime, HT.Remove, HT.Count, HT.SizesTrue, Drop, Changes, Pushes, Running, Waking, MayArmPast;
    var d := s.msgs[0].d;
    HeapIsSized(s, d.wake);
    HT.RemoveSizes(RankDelegates, s.At(d.wake).heap, d);
    DequeuedCounts(s);
    IdleArmsNothing(s);
    SameWaking(s, DoReceive(s));
    SameRunning(s, DoReceive(s));
  }

  lemma ReceiveExpireLowers(s: State)
    requires s.msgs != [] && s.task == Idle && s.msgs[0].Expire?
    ensures var s' := DoReceive(s);
      && SameForPoll(s, s') && s'.clients == s.clients && s'.msgs == s.msgs[1..]
      && Timers(s') <= Timers(s) && Wakings(s') <= Wakings(s)
  {
    hide HT.Pop, HT.Count;
    DequeuedCounts(s);
    SameWaking(s, DoReceive(s));
    assert Running(DoReceive(s)) == Running(s);
    hide Changes, Pushes, Running, Waking;
  }

  lemma ReceiveAdvances(s: State)
    requires Safe(s) && Enabled(s, Receive)
    ensures Bound(DoReceive(s)) < Bound(s)
  {
    hide Safe, DoReceive, Timers, Wakings, Ahead, Weigh, Running;
    ReceiveStarts(s);
    CountsInTimers(s, KindOf(s.msgs[0]));
    match s.msgs[0] {
      case Push(_) => ReceivePushLowers(s);
      case Remove(_) => ReceiveRemoveLowers(s);
      case Expire(_) => ReceiveExpireLowers(s);
    }
    var s' := DoReceive(s);
    SameRunning(s, s');
    IdleIsDone(s);
    WeighReceive(Cost(s), Wakings(s), Load(s), Items(s.poll), Stage(s.poll), Cost(s'), Wakings(s'), Ahead(s'));
  }

  lemma CountsInTimers(s: State, w: bool)
    ensures HT.Count(s.At(w).heap) <= Timers(s)
  {
  }

  lemma IdleIsDone(s: State)
    requires s.task == Idle
    ensures Ahead(s) == 0
  {
  }

  lemma SameRunning(s: State, s': State)
    requires s'.clients == s.clients
    ensures Running(s') == Running(s)
  {
  }

  lemma ReadLowers(s: State)
    requires s.task.Popped? || s.task.Calling?
    ensures var s' := DoTask(s);
      Timers(s') == Timers(s) && Wakings(s') == Wakings(s) && Load(s') == Load(s) && s'.poll == s.poll
  {
    hide HT.Count;
    SameWaking(s, DoTask(s));
    SameRunning(s, DoTask(s));
    hide Changes, Pushes, Running, Waking;
  }

  lemma StopLowers(s: State)
    requires s.task.Stopping? && s.task.k in s.clients
    ensures var s' := DoTask(s);
      Timers(s') == Timers(s) && Wakings(s') <= Wakings(s) && Load(s') <= Load(s) && s'.poll == s.poll
  {
    var k := s.task.k;
    var s' := DoTask(s);
    SameWaking(s, s');
    if s.clients[k].Some? {
      CountAppended(s.msgs, Remove(s.clients[k].value));
      assert Running(s') == Running(s) - {k};
    } else {
      assert Running(s') == Running(s);
    }
    hide HT.Count, Changes, Pushes, Running, Waking;
  }

  lemma NotPastThen(now: Time, at: Time, due: Time)
    requires !Earlier(at, now) && Ranks(at, due) > 0
    ensures Earlier(now, due)
  {
    RanksIsEarlier(at, due);
  }

  lemma NextLowers(s: State)
    requires s.task.Next?
    ensures var s' := DoTask(s);
      Timers(s') <= Timers(s) && Wakings(s') <= Wakings(s) && Load(s') == Load(s) && s'.poll == s.poll
  {
    hide HT.Pop, Ranks, HT.Count;
    var w, at := s.task.wake, s.task.at;
    var heap := s.At(w).heap;
    if heap.Node? && Ranks(at, heap.data.due) > 0 && !Earlier(at, s.now) { NotPastThen(s.now, at, heap.data.due); }
    SameWaking(s, DoTask(s));
    SameRunning(s, DoTask(s));
    hide Changes, Pushes, Running, Waking, Earlier;
  }

  lemma ArmLowers(s: State)
    requires s.task.Arming?
    ensures var s' := DoTask(s);
      Timers(s') == Timers(s) && Wakings(s') <= Wakings(s) && Load(s') == Load(s) && s'.poll == s.poll
  {
    hide HT.Count;
    SameRunning(s, DoTask(s));
    hide Changes, Pushes, Running, Marked;
  }

  lemma TaskLowers(s: State)
    requires Safe(s) && s.task != Idle
    ensures var s' := DoTask(s);
      Timers(s') <= Timers(s) && Wakings(s') <= Wakings(s) && Load(s') <= Load(s) && s'.poll == s.poll
  {
    if s.task.Stopping? { SafeIsHeld(s); }
    hide Safe, DoTask, Timers, Wakings, Load;
    match s.task {
      case Popped(_, _, _) => ReadLowers(s);
      case Calling(_, _, _) => ReadLowers(s);
      case Stopping(_, _, _, _) => StopLowers(s);
      case Next(_, _) => NextLowers(s);
      case Arming(_, _, _) => ArmLowers(s);
    }
  }

  lemma SafeIsHeld(s: State)
    requires Safe(s) && Held(s.task).Some?
    ensures Held(s.task).value in s.clients
  {
    HeldIsAlive(s);
  }

  lemma TaskLowersBound(s: State)
    requires Safe(s) && s.task != Idle
    ensures Bound(DoTask(s)) < Bound(s)
  {
    hide Safe, DoTask, Timers, Wakings, Load, Ahead, Weigh;
    TaskLowers(s);
    TaskAdvances(s);
    var s' := DoTask(s);
    WeighLess(Cost(s), Wakings(s), Load(s), Items(s.poll), Stage(s.poll), Ahead(s),
              Cost(s'), Wakings(s'), Load(s'), Stage(s.poll), Ahead(s'));
  }

  lemma ServiceAdvances(s: State, step: Step)
    requires Safe(s) && Enabled(s, step) && ByService(step)
    ensures Bound(Apply(s, step)) < Bound(s)
  {
    hide Safe, Bound, DoReceive, DoTask, DoPoll, Ready;
    match step {
      case PollWake(todo) => WakeAdvances(s, todo);
      case PollStep => PollAdvances(s);
      case Receive => ReceiveAdvances(s);
      case TaskStep => TaskLowersBound(s);
    }
  }

  lemma BoundNat(s: State)
    requires Safe(s)
    ensures Bound(s) >= 0
  {
    hide AllOwned, HeapOk, Weigh;
    WeighNat(Cost(s), Wakings(s), Load(s), Items(s.poll), Stage(s.poll), Ahead(s));
  }

  /** Left to itself the service comes to rest: of its own steps no more than the bound can be taken in a row. */
  lemma {:induction false} ServiceComesToRest(s: State, steps: seq<Step>)
    requires Safe(s) && Run(s, steps).Some? && ServiceRun(steps)
    ensures |steps| <= Bound(s)
    decreases |steps|
  {
    hide Safe, Bound;
    if steps == [] {
      BoundNat(s);
    } else {
      SafeKept(s, steps[0]);
      ServiceAdvances(s, steps[0]);
      ServiceComesToRest(Apply(s, steps[0]), steps[1..]);
    }
  }

  /** And it gets there: some of its own steps lead to where none can be taken. */
  lemma {:induction false} RestIsReached(s: State) returns (steps: seq<Step>)
    requires Safe(s)
    ensures Run(s, steps).Some? && ServiceRun(steps) && Quiet(Run(s, steps).value)
    decreases Bound(s)
  {
    BoundNat(s);
    hide Safe, Bound, Apply, Enabled;
    steps := [];
    if !Quiet(s) {
      var step :| ByService(step) && Enabled(s, step);
      SafeKept(s, step);
      ServiceAdvances(s, step);
      BoundNat(Apply(s, step));
      var rest := RestIsReached(Apply(s, step));
      steps := [step] + rest;
      assert steps[1..] == rest;
    }
  }

  // ---------- every due timer is called back ----------

  lemma {:induction false} RunReaches(s: State, steps: seq<Step>)
    requires Reachable(s) && Run(s, steps).Some?
    ensures Reachable(Run(s, steps).value)
    decreases |steps|
  {
    if steps != [] {
      var _ := TE.Reaches(s, steps[0]);
      RunReaches(Apply(s, steps[0]), steps[1..]);
    }
  }

  lemma QuietIsIdle(s: State)
    requires Safe(s) && Quiet(s)
    ensures s.msgs == [] && s.task == Idle && s.poll == Waiting && forall todo :: !Enabled(s, PollWake(todo))
  {
    hide AllOwned, HeapOk, Ready;
    assert !Enabled(s, TaskStep) && !Enabled(s, Receive) && !Enabled(s, PollStep);
  }

  /**
   * Every timer that is due is called back if the clients leave it alone: wherever the service's own steps lead,
   * they end after at most Bound(s) of them, and when none can be taken any more the timer has been called back.
   */
  lemma DueTimersFire(s: State, steps: seq<Step>, d: Delegate)
    requires Reachable(s) && IsTimerOf(s, d) && !Earlier(s.now, d.due)
    requires Run(s, steps).Some? && ServiceRun(steps)
    ensures |steps| <= Bound(s)
    ensures Quiet(Run(s, steps).value) ==> d in Run(s, steps).value.fired
  {
    OwnershipHolds(s);
    ServiceComesToRest(s, steps);
    var s' := Run(s, steps).value;
    if Quiet(s') {
      RunReaches(s, steps);
      RunLeaves(s, steps);
      LeftAloneFires(s, s', d);
    }
  }

  lemma LeftAloneFires(s: State, s': State, d: Delegate)
    requires Reachable(s) && Reachable(s') && SameForClients(s, s') && Quiet(s')
    requires IsTimerOf(s, d) && !Earlier(s.now, d.due)
    ensures d in s'.fired
  {
    hide Reachable;
    OwnershipHolds(s');
    QuietIsIdle(s');
    hide Safe, Enabled, Quiet;
    TimerLedger.LedgerHolds(s);
    TimerLedger.LedgerHolds(s');
    assert TimerLedger.Accounted(s, d) && TimerLedger.Accounted(s', d);
    if IsTimerOf(s', d) { TimerArming.NoTimerForgotten(s', d); }
  }
}
