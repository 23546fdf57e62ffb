/**
 * The life of a thread started through a LocThread: the delegate the two threads share, from create to the
 * last destroy. Each step is one access of a thread to the delegate, or one mutex section.
 */
module LocThread {
  import opened Optional
  import opened Sequences

  /** LocThreadDelegate::destroy: test the count, count down under the mutex, delete. */
  datatype Destroying = Test | CountDown | Delete

  datatype Parent =
    | Before
    | Checking                       // in create, after the constructor
    | Holding                        // start returned true
    | Nulling | Testing | Joining    // in stop
    | Releasing(at: Destroying)
    | Left                           // the LocThread no longer points to the delegate

  datatype Child =
    | Absent
    | Reading                        // threadMain, before it reads mRunnable
    | Prerun | Prerunning
    | Loop | Running
    | Postrun | Postrunning
    | Clearing | Deleting
    | Dropping(at: Destroying)
    | Ended

  datatype State = State(
    parent: Parent,
    child: Child,
    // the delegate
    runnable: bool,        // mRunnable is not NULL
    joinable: bool,
    refs: nat,
    // history
    asked: bool,           // start was asked for a joinable thread
    stopped: bool,         // the parent went through stop
    started: Option<bool>, // what start returned
    freed: nat,            // deletions of the delegate
    deleted: nat,          // deletions of the runnable
    late: nat              // callbacks begun after stop had cleared mRunnable
  )

  const INIT := State(Before, Absent, false, false, 0, false, false, None, 0, 0, 0)

  datatype Step =
    | Start(joinable: bool, created: bool)   // created: the thread could be created
    | Check                                  // isRunning in create
    | Stop | Bye                             // LocThread::stop, LocThread::~LocThread
    | Null | TestJoinable | Join | ParentDestroys
    | Read | Enter(runs: bool) | Callback(again: bool) | Clear | DeleteRunnable | ChildDestroys

  /** The steps of the parent thread; the others are the spawned thread's. */
  predicate ByParent(step: Step) {
    step.Start? || step.Check? || step.Stop? || step.Bye? || step.Null? || step.TestJoinable? || step.Join?
    || step.ParentDestroys?
  }

  predicate Enabled(s: State, step: Step) {
    match step
    case Start(_, _) => s.parent.Before?
    case Check => s.parent.Checking?
    case Stop => s.parent.Holding?
    case Bye => s.parent.Holding?
    case Null => s.parent.Nulling?
    case TestJoinable => s.parent.Testing?
    case Join => s.parent.Joining? && s.child.Ended?
    case ParentDestroys => s.parent.Releasing?
    case Read => s.child.Reading?
    case Enter(runs) => runs == s.runnable && (s.child.Prerun? || s.child.Loop? || s.child.Postrun?)
    case Callback(again) => s.child.Prerunning? || s.child.Running? || s.child.Postrunning?
    case Clear => s.child.Clearing?
    case DeleteRunnable => s.child.Deleting?
    case ChildDestroys => s.child.Dropping?
  }

  /** What one step of destroy makes of the count and of the deletions, and where destroy then is. */
  function Destroy(s: State, at: Destroying): (State, Option<Destroying>) {
    match at
    case Test => (s, if s.refs > 0 then Some(CountDown) else None)
    case CountDown => (s.(refs := if s.refs > 0 then s.refs - 1 else 0), if s.refs == 1 then Some(Delete) else None)
    case Delete => (s.(freed := s.freed + 1), None)
  }

  function Apply(s: State, step: Step): State
    requires Enabled(s, step)
  {
    match step
    case Start(joinable, created) =>
      // a thread that could not be created leaves one reference, to be dropped by create
      s.(parent := Checking, asked := joinable,
         child := if created then Reading else Absent,
         runnable := created, joinable := joinable && created, refs := if created then 2 else 1)
    case Check =>
      if s.runnable then s.(parent := Holding, started := Some(true))
      else s.(parent := Releasing(Test), started := Some(false))
    case Stop => s.(parent := Nulling)
    case Bye => s.(parent := if s.joinable then Nulling else Releasing(Test))
    case Null => s.(parent := Testing, runnable := false, stopped := true)
    case TestJoinable =>
      if s.joinable then s.(parent := Joining, joinable := false) else s.(parent := Releasing(Test))
    case Join => s.(parent := Releasing(Test))
    case ParentDestroys =>
      var (t, next) := Destroy(s, s.parent.at);
      t.(parent := if next.Some? then Releasing(next.value) else Left)
    case Read => s.(child := if s.runnable then Prerun else Dropping(Test))
    case Enter(runs) =>
      s.(child := match s.child
                  case Prerun => if runs then Prerunning else Loop
                  case Loop => if runs then Running else Postrun
                  case _ => if runs then Postrunning else Clearing)
    case Callback(again) =>
      s.(child := match s.child
                  case Prerunning => Loop
                  case Running => if again then Loop else Postrun
                  case _ => Clearing,
         late := s.late + if s.stopped then 1 else 0)
    case Clear => s.(child := Deleting, runnable := false)
    case DeleteRunnable => s.(child := Dropping(Test), deleted := s.deleted + 1)
    case ChildDestroys =>
      var (t, next) := Destroy(s, s.child.at);
      t.(child := if next.Some? then Dropping(next.value) else Ended)
  }

  /** The state that a run of steps leads to, if each of them could be taken. */
  function RunFrom(start: State, steps: seq<Step>): Option<State> {
    if steps == [] then Some(start)
    else
      var n := |steps| - 1;
      var s := RunFrom(start, steps[..n]);
      if s.Some? && Enabled(s.value, steps[n]) then Some(Apply(s.value, steps[n])) else None
  }

  function Run(steps: seq<Step>): Option<State> {
    RunFrom(INIT, steps)
  }

  /** The thread holds a reference: it has not counted down yet. */
  predicate ParentHolds(s: State) {
    !s.parent.Before? && !s.parent.Left? && s.parent != Releasing(Delete)
  }

  predicate ChildHolds(s: State) {
    !s.child.Absent? && !s.child.Ended? && s.child != Dropping(Delete)
  }

  /** The child has read a runnable and has not cleared mRunnable yet. */
  predicate Serving(c: Child) {
    c.Prerun? || c.Prerunning? || c.Loop? || c.Running? || c.Postrun? || c.Postrunning? || c.Clearing?
  }

  predicate InCallback(c: Child) {
    c.Prerunning? || c.Running? || c.Postrunning?
  }

  predicate InStop(p: Parent) {
    p.Nulling? || p.Testing? || p.Joining?
  }

  /** Each reference belongs to a thread that has not counted down, and the last one to do so deletes. */
  predicate Counted(s: State) {
    && s.refs == One(ParentHolds(s)) + One(ChildHolds(s))
    && s.freed + One(s.parent == Releasing(Delete)) + One(s.child == Dropping(Delete))
       == One(!s.parent.Before? && s.refs == 0)
    && (s.parent.Before? ==> s.child.Absent?)
  }

  /** Who may have cleared mRunnable, and who deletes the runnable. */
  predicate Cleared(s: State) {
    && (s.deleted > 0 ==> s.deleted == 1 && (s.child.Dropping? || s.child.Ended?))
    && ((s.child.Dropping? || s.child.Ended?) && s.deleted == 0 ==> s.stopped)
    && (s.runnable ==> s.child.Reading? || Serving(s.child))
    && (!s.parent.Before? && !s.runnable && !s.stopped ==>
          s.child.Absent? || s.child.Deleting? || s.child.Dropping? || s.child.Ended?)
    && (s.stopped ==> !s.runnable)
    && (s.late > 0 ==> s.late == 1 && s.stopped && !InCallback(s.child))
  }

  /** Where the parent can be, given what start returned and what it was asked for. */
  predicate Placed(s: State) {
    && (s.parent.Before? ==> s == INIT)
    && (s.started.None? <==> s.parent.Before? || s.parent.Checking?)
    && (s.parent.Holding? || InStop(s.parent) || s.stopped ==> s.started == Some(true))
    && (s.stopped ==> s.parent.Testing? || s.parent.Joining? || s.parent.Releasing? || s.parent.Left?)
    && (s.joinable ==> s.asked && !s.child.Absent?)
    && (s.started == Some(true) ==> !s.child.Absent?)
    && (s.parent.Joining? ==> s.asked && s.stopped)
    && (s.parent.Testing? ==> s.stopped)
    && (s.parent.Checking? && !s.child.Absent? ==> s.joinable == s.asked)
    && (s.started == Some(true) && s.asked ==>
          if s.parent.Releasing? || s.parent.Left? then s.stopped && s.child.Ended?
          else s.joinable == !s.parent.Joining?)
  }

  predicate Inv(s: State) {
    Counted(s) && Cleared(s) && Placed(s)
  }

  lemma DestroyCounted(s: State, step: Step)
    requires Counted(s) && Enabled(s, step) && (step.ParentDestroys? || step.ChildDestroys?)
    ensures Counted(Apply(s, step))
  {
    if step.ParentDestroys? {
      match s.parent.at { case Test => case CountDown => case Delete => }
    } else {
      match s.child.at { case Test => case CountDown => case Delete => }
    }
  }

  lemma CountedKept(s: State, step: Step)
    requires Inv(s) && Enabled(s, step)
    ensures Counted(Apply(s, step))
  {
    hide Cleared, Placed, Destroy;
    if step.ParentDestroys? || step.ChildDestroys? {
      DestroyCounted(s, step);
    }
  }

  lemma ClearedKept(s: State, step: Step)
    requires Inv(s) && Enabled(s, step)
    ensures Cleared(Apply(s, step))
  {
    hide Counted;
  }

  lemma PlacedKept(s: State, step: Step)
    requires Inv(s) && Enabled(s, step)
    ensures Placed(Apply(s, step))
  {
    hide Counted;
  }

  lemma InitCounted(s: State)
    requires s == INIT
    ensures Counted(s)
  {
  }

  lemma InitCleared(s: State)
    requires s == INIT
    ensures Cleared(s)
  {
  }

  lemma InitPlaced(s: State)
    requires s == INIT
    ensures Placed(s)
  {
  }

  lemma {:induction false} RunKeeps(steps: seq<Step>)
    requires Run(steps).Some?
    ensures Inv(Run(steps).value)
  {
    hide Counted, Cleared, Placed, Apply, Enabled;
    if steps == [] {
      InitCounted(INIT);
      InitCleared(INIT);
      InitPlaced(INIT);
    } else {
      var n := |steps| - 1;
      RunKeeps(steps[..n]);
      var s := Run(steps[..n]).value;
      CountedKept(s, steps[n]);
      ClearedKept(s, steps[n]);
      PlacedKept(s, steps[n]);
    }
  }

  // ---------- the main results ----------

  /** Nobody is in the middle of anything: the parent has let go, and the thread has ended or never was. */
  predicate Over(s: State) {
    s.parent.Left? && (s.child.Absent? || s.child.Ended?)
  }

  /** The delegate is deleted at most once, and it has been once both threads are done with it. */
  lemma DelegateFreedOnce(steps: seq<Step>)
    requires Run(steps).Some?
    ensures var s := Run(steps).value; s.freed <= 1 && (Over(s) ==> s.freed == 1)
  {
    RunKeeps(steps);
  }

  /** No thread takes any step on a delegate that has been deleted. */
  lemma NothingTouchesFreed(steps: seq<Step>, step: Step)
    requires Run(steps).Some? && Enabled(Run(steps).value, step)
    ensures Run(steps).value.freed == 0
  {
    RunKeeps(steps);
  }

  /**
   * When stop on a joinable thread returns, the thread has ended and the delegate is gone. Of any thread only
   * one more callback can begin once stop has cleared mRunnable.
   */
  lemma StopWaitsForJoinable(steps: seq<Step>)
    requires Run(steps).Some?
    ensures var s := Run(steps).value;
      && (s.asked && s.started == Some(true) && s.parent.Left? ==> s.child.Ended? && s.freed == 1)
      && s.late <= 1
      && (s.late == 1 ==> !InCallback(s.child) && !s.runnable)
  {
    RunKeeps(steps);
    DelegateFreedOnce(steps);
    hide Counted, RunFrom;
  }

  // ---------- what the order of the steps decides ----------

  /** The run has a first step before any second one. */
  predicate Precedes(steps: seq<Step>, first: Step, second: Step) {
    exists i | 0 <= i < |steps| :: steps[i] == first && second !in steps[..i]
  }

  lemma PrecedesAppend(steps: seq<Step>, step: Step, first: Step, second: Step)
    ensures Precedes(steps + [step], first, second) <==>
            Precedes(steps, first, second) || (step == first && second !in steps)
  {
    var all := steps + [step];
    if Precedes(all, first, second) {
      var i :| 0 <= i < |all| && all[i] == first && second !in all[..i];
      assert all[..i] == steps[..i];
      assert i == |steps| ==> steps[..i] == steps;
    }
    if Precedes(steps, first, second) {
      var i :| 0 <= i < |steps| && steps[i] == first && second !in steps[..i];
      assert all[i] == first && all[..i] == steps[..i];
    }
    if step == first && second !in steps {
      assert all[|steps|] == first && all[..|steps|] == steps;
    }
  }

  /** The thread has cleared mRunnable itself. */
  predicate PastClear(s: State) {
    s.child.Deleting? || s.deleted > 0
  }

  ghost predicate Ordered(steps: seq<Step>, s: State) {
    && (Read in steps <==> !s.child.Absent? && !s.child.Reading?)
    && (Null in steps <==> s.stopped)
    && (Clear in steps <==> PastClear(s))
    && (Check in steps <==> s.started.Some?)
    && (Precedes(steps, Null, Read) <==>
          s.stopped && (s.child.Reading? || ((s.child.Dropping? || s.child.Ended?) && s.deleted == 0)))
    && (Precedes(steps, Clear, Check) <==>
          PastClear(s) && (s.started.None? || (s.started == Some(false) && !s.child.Absent?)))
    && (s.started == Some(false) && !s.child.Absent? ==> PastClear(s))
  }

  lemma OrderedStep(steps: seq<Step>, s: State, step: Step)
    requires Inv(s) && Enabled(s, step) && Ordered(steps, s)
    ensures Ordered(steps + [step], Apply(s, step))
  {
    hide Precedes, Counted;
    PrecedesAppend(steps, step, Null, Read);
    PrecedesAppend(steps, step, Clear, Check);
  }

  lemma {:induction false} RunOrdered(steps: seq<Step>)
    requires Run(steps).Some?
    ensures Ordered(steps, Run(steps).value)
  {
    hide Ordered, Inv, Apply, Enabled;
    if steps == [] {
      NothingOrdered();
    } else {
      var n := |steps| - 1;
      RunOrdered(steps[..n]);
      RunKeeps(steps[..n]);
      OrderedStep(steps[..n], Run(steps[..n]).value, steps[n]);
      assert steps == steps[..n] + [steps[n]];
    }
  }

  lemma NothingOrdered()
    ensures Ordered([], INIT)
  {
  }

  /**
   * The runnable is deleted at most once, and a thread that has ended deleted it unless stop cleared
   * mRunnable before the thread read it; then nobody does.
   */
  lemma RunnableDeletedExact(steps: seq<Step>)
    requires Run(steps).Some?
    ensures var s := Run(steps).value;
      && s.deleted <= 1
      && (s.child.Ended? ==> (s.deleted == 0 <==> Precedes(steps, Null, Read)))
  {
    RunKeeps(steps);
    RunOrdered(steps);
  }

  /**
   * For a thread that was created, start returns false exactly when the thread was through with its runnable
   * before create looked at mRunnable; and then the thread, not the caller of start, deletes the runnable.
   */
  lemma StartReportsExact(steps: seq<Step>)
    requires Run(steps).Some? && Run(steps).value.started.Some? && !Run(steps).value.child.Absent?
    ensures var s := Run(steps).value;
      && (s.started == Some(false) <==> Precedes(steps, Clear, Check))
      && (s.started == Some(false) && s.child.Ended? ==> s.deleted == 1)
  {
    RunKeeps(steps);
    RunOrdered(steps);
  }

  /** What the steps say of the parent having stopped the thread, or being about to. */
  predicate StopsAsTold(steps: seq<Step>, s: State) {
    s.stopped || InStop(s.parent) <==> Stop in steps || (s.asked && Bye in steps)
  }

  lemma StopsStep(steps: seq<Step>, s: State, step: Step)
    requires Inv(s) && Enabled(s, step) && StopsAsTold(steps, s)
    requires s.parent.Before? ==> Stop !in steps && Bye !in steps
    ensures StopsAsTold(steps + [step], Apply(s, step))
  {
    hide Counted, Cleared;
  }

  lemma NotBefore(s: State, step: Step)
    requires Inv(s) && Enabled(s, step)
    ensures Apply(s, step).parent.Before? ==> s.parent.Before? && step != Stop && step != Bye
  {
    hide Counted, Cleared;
  }

  lemma {:induction false} RunStops(steps: seq<Step>)
    requires Run(steps).Some?
    ensures StopsAsTold(steps, Run(steps).value)
    ensures Run(steps).value.parent.Before? ==> Stop !in steps && Bye !in steps
  {
    hide Inv, Apply, Enabled;
    if steps != [] {
      var n := |steps| - 1;
      var s := Run(steps[..n]).value;
      RunStops(steps[..n]);
      RunKeeps(steps[..n]);
      StopsStep(steps[..n], s, steps[n]);
      NotBefore(s, steps[n]);
      assert steps == steps[..n] + [steps[n]];
    }
  }

  /**
   * The parent stops the thread exactly in a run in which stop was called, or the LocThread of a joinable thread was
   * deleted: letting go of a detached thread leaves it to itself.
   */
  lemma StoppedExact(steps: seq<Step>)
    requires Run(steps).Some?
    ensures var s := Run(steps).value;
      s.stopped || InStop(s.parent) <==> Stop in steps || (s.asked && Bye in steps)
  {
    RunStops(steps);
  }

  /** The callbacks begun after the parent had cleared mRunnable. */
  function LateCalls(steps: seq<Step>): nat {
    if steps == [] then 0
    else
      var n := |steps| - 1;
      LateCalls(steps[..n]) + if steps[n].Callback? && Null in steps[..n] then 1 else 0
  }

  lemma LateStep(s: State, step: Step)
    requires Enabled(s, step)
    ensures Apply(s, step).late == s.late + if step.Callback? && s.stopped then 1 else 0
  {
  }

  lemma {:induction false} RunLate(steps: seq<Step>)
    requires Run(steps).Some?
    ensures Run(steps).value.late == LateCalls(steps)
  {
    hide Apply, Enabled, Ordered;
    if steps != [] {
      var n := |steps| - 1;
      RunLate(steps[..n]);
      NullIsStopped(steps[..n]);
      LateStep(Run(steps[..n]).value, steps[n]);
    }
  }

  lemma NullIsStopped(steps: seq<Step>)
    requires Run(steps).Some?
    ensures Null in steps <==> Run(steps).value.stopped
  {
    RunOrdered(steps);
  }

  /** Once the parent has cleared mRunnable at most one more callback begins: the one that had been decided on. */
  lemma OneLateCall(steps: seq<Step>)
    requires Run(steps).Some?
    ensures LateCalls(steps) <= 1
  {
    hide LateCalls, RunFrom;
    RunLate(steps);
    RunKeeps(steps);
  }

  // ---------- what is called back, and in which order ----------

  datatype Call = PreRun | RunOnce(again: bool) | PostRun

  function CallOf(c: Child, again: bool): Call {
    if c.Prerunning? then PreRun else if c.Running? then RunOnce(again) else PostRun
  }

  /** The callbacks of a run, in order, with what run() returned. */
  function Calls(steps: seq<Step>): seq<Call> {
    if steps == [] then []
    else
      var n := |steps| - 1;
      var s := Run(steps[..n]);
      Calls(steps[..n])
      + if s.Some? && steps[n].Callback? then [CallOf(s.value.child, steps[n].again)] else []
  }

  /** prerun once and first, then run until it returns false, then postrun once, or as much of this as was reached. */
  ghost predicate Orderly(calls: seq<Call>) {
    forall i | 0 <= i < |calls| :: MayFollow(Last(calls[..i]), calls[i])
  }

  function Last(calls: seq<Call>): Option<Call> {
    if calls == [] then None else Some(calls[|calls| - 1])
  }

  predicate MayFollow(last: Option<Call>, call: Call) {
    match call
    case PreRun => last == None
    case RunOnce(_) => CanRun(last)
    case PostRun => last == Some(RunOnce(false))
  }

  predicate CanRun(last: Option<Call>) {
    last == Some(PreRun) || last == Some(RunOnce(true))
  }

  /** Where the thread is tells which callback was the latest. */
  predicate CallsFit(last: Option<Call>, s: State) {
    match s.child
    case Absent => last == None
    case Reading => last == None
    case Prerun => last == None
    case Prerunning => last == None
    case Loop => CanRun(last) || (last == None && s.stopped)
    case Running => CanRun(last)
    case Postrun => last == Some(RunOnce(false)) || s.stopped
    case Postrunning => last == Some(RunOnce(false))
    case _ => last == Some(PostRun) || s.stopped
  }

  lemma CallsStep(last: Option<Call>, s: State, step: Step)
    requires Inv(s) && Enabled(s, step) && CallsFit(last, s)
    ensures CallsFit(if step.Callback? then Some(CallOf(s.child, step.again)) else last, Apply(s, step))
  {
    hide Counted;
  }

  lemma CallFollows(calls: seq<Call>, s: State, again: bool)
    requires Orderly(calls) && CallsFit(Last(calls), s) && InCallback(s.child)
    ensures Orderly(calls + [CallOf(s.child, again)])
  {
    var all := calls + [CallOf(s.child, again)];
    forall i | 0 <= i < |all| ensures MayFollow(Last(all[..i]), all[i]) {
      assert all[..i] == if i < |calls| then calls[..i] else calls;
    }
  }

  lemma NoCallsYet()
    ensures CallsFit(None, INIT)
  {
  }

  lemma {:induction false} RunCalls(steps: seq<Step>)
    requires Run(steps).Some?
    ensures Orderly(Calls(steps)) && CallsFit(Last(Calls(steps)), Run(steps).value)
  {
    hide Inv, Apply, CallsFit, Orderly;
    if steps == [] {
      NoCallsYet();
      NothingIsOrderly();
    } else {
      var n := |steps| - 1;
      var s := Run(steps[..n]).value;
      RunCalls(steps[..n]);
      RunKeeps(steps[..n]);
      CallsStep(Last(Calls(steps[..n])), s, steps[n]);
      if steps[n].Callback? {
        CallbackIsIn(s, steps[n]);
        CallFollows(Calls(steps[..n]), s, steps[n].again);
      } else {
        assert Calls(steps) == Calls(steps[..n]);
      }
    }
  }

  lemma CallbackIsIn(s: State, step: Step)
    requires Enabled(s, step) && step.Callback?
    ensures InCallback(s.child)
  {
  }

  lemma NothingIsOrderly()
    ensures Orderly([])
  {
  }

  /**
   * The thread calls prerun once and first, run until it returns false, and postrun once and last, cut short only by
   * a stop of the parent.
   */
  lemma CallsInOrder(steps: seq<Step>)
    requires Run(steps).Some?
    ensures var s := Run(steps).value;
      Orderly(Calls(steps)) && (s.child.Ended? && !s.stopped ==> Last(Calls(steps)) == Some(PostRun))
  {
    hide Calls, RunFrom, Orderly;
    RunCalls(steps);
  }

  /** In the i-th step run() returns false. */
  predicate SaysStop(steps: seq<Step>, i: nat)
    requires i < |steps|
  {
    var s := Run(steps[..i]);
    s.Some? && s.value.child.Running? && steps[i] == Callback(false)
  }

  predicate LeftLoop(c: Child) {
    c.Postrun? || c.Postrunning? || c.Clearing? || c.Deleting? || c.Dropping? || c.Ended?
  }

  lemma LeavesLoop(s: State, step: Step)
    requires Inv(s) && Enabled(s, step) && s.started.None? && !LeftLoop(s.child)
    ensures LeftLoop(Apply(s, step).child) ==> s.child.Running? && step == Callback(false)
  {
    hide Counted;
  }

  /** Until create has looked at mRunnable, only an answer of run() gets the thread out of its loop. */
  lemma {:induction false} OutOfLoop(steps: seq<Step>)
    requires Run(steps).Some? && Run(steps).value.started.None? && LeftLoop(Run(steps).value.child)
    ensures exists i | 0 <= i < |steps| :: SaysStop(steps, i)
  {
    hide Inv, Apply, Enabled;
    var n := |steps| - 1;
    var s := Run(steps[..n]).value;
    RunKeeps(steps[..n]);
    StillNone(s, steps[n]);
    if LeftLoop(s.child) {
      OutOfLoop(steps[..n]);
      var i :| 0 <= i < n && SaysStop(steps[..n], i);
      SaysStopToo(steps, n, i);
    } else {
      LeavesLoop(s, steps[n]);
      assert SaysStop(steps, n);
    }
  }

  lemma StillNone(s: State, step: Step)
    requires Enabled(s, step) && Apply(s, step).started.None?
    ensures s.started.None?
  {
  }

  /** The report is made by Check, of a thread that has left its loop or of none. */
  lemma ReportedBy(s: State, step: Step)
    requires Inv(s) && Enabled(s, step) && s.started != Some(false) && Apply(s, step).started == Some(false)
    ensures step == Check && s.started.None?
    ensures !Apply(s, step).child.Absent? ==> LeftLoop(s.child)
  {
    hide Counted;
  }

  lemma AbsentStays(s: State, step: Step)
    requires Inv(s) && Enabled(s, step) && s.started == Some(false)
    ensures s.child.Absent? ==> Apply(s, step).child.Absent?
  {
    hide Counted, Cleared;
  }

  /**
   * As long as run() has not returned false, start reports a created thread truly: a false report has an answer
   * of run() before the look at mRunnable.
   */
  lemma {:induction false} FalseReportExplained(steps: seq<Step>)
    requires Run(steps).Some? && Run(steps).value.started == Some(false) && !Run(steps).value.child.Absent?
    ensures exists i, j | 0 <= i < j < |steps| :: SaysStop(steps, i) && steps[j] == Check
  {
    hide Inv, Apply, Enabled, LeftLoop, SaysStop;
    var n := |steps| - 1;
    var s := Run(steps[..n]).value;
    RunKeeps(steps[..n]);
    if s.started == Some(false) {
      AbsentStays(s, steps[n]);
      FalseReportExplained(steps[..n]);
      var i, j :| 0 <= i < j < n && SaysStop(steps[..n], i) && steps[..n][j] == Check;
      SaysStopToo(steps, n, i);
      assert steps[j] == Check;
    } else {
      ReportedBy(s, steps[n]);
      OutOfLoop(steps[..n]);
      var i :| 0 <= i < n && SaysStop(steps[..n], i);
      SaysStopToo(steps, n, i);
    }
  }

  lemma SaysStopToo(steps: seq<Step>, n: nat, i: nat)
    requires i < n <= |steps| && SaysStop(steps[..n], i)
    ensures SaysStop(steps, i)
  {
    assert steps[..n][..i] == steps[..i];
  }

  lemma Extend(start: State, steps: seq<Step>, s: State, step: Step)
    requires RunFrom(start, steps) == Some(s) && Enabled(s, step)
    ensures RunFrom(start, steps + [step]) == Some(Apply(s, step))
  {
    assert (steps + [step])[..|steps|] == steps;
  }

  /** The i-th step of a run. */
  lemma Follow(steps: seq<Step>, i: nat, s: State) returns (t: State)
    requires i < |steps| && Run(steps[..i]) == Some(s) && Enabled(s, steps[i])
    ensures t == Apply(s, steps[i]) && Run(steps[..i + 1]) == Some(t)
  {
    Extend(INIT, steps[..i], s, steps[i]);
    assert steps[..i] + [steps[i]] == steps[..i + 1];
    t := Apply(s, steps[i]);
  }

  /** A detached thread that is stopped before it runs: it will end with its runnable undeleted. */
  lemma StopOvertakesThread() returns (steps: seq<Step>)
    ensures Run(steps).Some?
    ensures var s := Run(steps).value;
      s.child == Dropping(Test) && s.deleted == 0 && s.started == Some(true) && Precedes(steps, Null, Read)
  {
    steps := [Start(false, true), Check, Stop, Null, Read];
    assert Run(steps[..0]) == Some(INIT);
    hide RunFrom;
    var s := Follow(steps, 0, INIT);
    s := Follow(steps, 1, s);
    s := Follow(steps, 2, s);
    s := Follow(steps, 3, s);
    s := Follow(steps, 4, s);
    assert steps[..5] == steps && steps[3] == Null && steps[..3] == [Start(false, true), Check, Stop];
  }

  const QUICK: seq<Step> := [Start(true, true), Read, Enter(true), Callback(false), Enter(true), Callback(false),
                             Enter(true), Callback(false), Clear, Check]
  const RUNNING := INIT.(parent := Checking, child := Running, asked := true,
                         runnable := true, joinable := true, refs := 2)

  lemma QuickRuns()
    ensures Run(QUICK[..5]) == Some(RUNNING)
  {
    assert Run(QUICK[..0]) == Some(INIT);
    hide RunFrom;
    var s := Follow(QUICK, 0, INIT);
    s := Follow(QUICK, 1, s);
    s := Follow(QUICK, 2, s);
    s := Follow(QUICK, 3, s);
    s := Follow(QUICK, 4, s);
  }

  /** A thread that is through with its runnable before create looks at it: start returns false. */
  lemma ThreadOvertakesCreate()
    ensures var run := Run(QUICK);
      run.Some? && run.value.child == Deleting && run.value.started == Some(false) && Precedes(QUICK, Clear, Check)
  {
    QuickRuns();
    hide RunFrom;
    var s := Follow(QUICK, 5, RUNNING);
    s := Follow(QUICK, 6, s);
    s := Follow(QUICK, 7, s);
    s := Follow(QUICK, 8, s);
    s := Follow(QUICK, 9, s);
    assert QUICK[..10] == QUICK && QUICK[8] == Clear && Check !in QUICK[..8];
  }

  // ---------- the methods of the delegate, each run without the other thread in between ----------

  /** Steps of one thread alone lead from s to s'. */
  ghost predicate Goes(s: State, s': State, parent: bool) {
    exists steps :: RunFrom(s, steps) == Some(s') && forall i | 0 <= i < |steps| :: ByParent(steps[i]) == parent
  }

  lemma GoesNowhere(s: State, parent: bool)
    ensures Goes(s, s, parent)
  {
    var none: seq<Step> := [];
    assert RunFrom(s, none) == Some(s);
  }

  lemma GoesOn(s: State, s': State, step: Step)
    requires Goes(s, s', ByParent(step)) && Enabled(s', step)
    ensures Goes(s, Apply(s', step), ByParent(step))
  {
    var steps :| RunFrom(s, steps) == Some(s') && forall i | 0 <= i < |steps| :: ByParent(steps[i]) == ByParent(step);
    Extend(s, steps, s', step);
    assert forall i | 0 <= i < |steps + [step]| :: ByParent((steps + [step])[i]) == ByParent(step);
  }

  lemma CountsDown(s: State, s': State, byParent: bool)
    requires Goes(s, s', byParent) && s'.refs > 0
    requires if byParent then s'.parent == Releasing(CountDown) else s'.child == Dropping(CountDown)
    ensures Goes(s, s'.(refs := s'.refs - 1,
                        parent := if !byParent then s'.parent else if s'.refs == 1 then Releasing(Delete) else Left,
                        child := if byParent then s'.child else if s'.refs == 1 then Dropping(Delete) else Ended),
                 byParent)
  {
    hide Goes;
    GoesOn(s, s', if byParent then ParentDestroys else ChildDestroys);
  }

  /** The calls of run() that these answers make, the last of them answered with false. */
  function RunsUntilFalse(answers: seq<bool>): seq<Call> {
    if answers == [] || !answers[0] then [RunOnce(false)] else [RunOnce(true)] + RunsUntilFalse(answers[1..])
  }

  /** Where the loop stands that has made these calls, the first i of them answered with true. */
  ghost predicate Made(calls: seq<Call>, answers: seq<bool>, i: nat, again: bool)
    requires i <= |answers|
  {
    RunsUntilFalse(answers) == calls + if again then RunsUntilFalse(answers[i..]) else []
  }

  lemma NoneMade(answers: seq<bool>)
    ensures Made([], answers, 0, true)
  {
    assert answers[0..] == answers;
  }

  lemma OneMoreMade(calls: seq<Call>, answers: seq<bool>, i: nat)
    requires i <= |answers| && Made(calls, answers, i, true)
    ensures var again := i < |answers| && answers[i];
      Made(calls + [RunOnce(again)], answers, if again then i + 1 else i, again)
  {
    if i < |answers| && answers[i] {
      assert answers[i..][1..] == answers[i + 1..];
      var rest := RunsUntilFalse(answers[i + 1..]);
      assert calls + ([RunOnce(true)] + rest) == calls + [RunOnce(true)] + rest;
    }
  }

  lemma AllMade(calls: seq<Call>, answers: seq<bool>, i: nat)
    requires i <= |answers| && Made(calls, answers, i, false)
    ensures calls == RunsUntilFalse(answers)
  {
  }

  class LocThreadDelegate {
    var runnable: bool
    var joinable: bool
    var refs: nat

    ghost var parent: Parent
    ghost var child: Child
    ghost var asked: bool
    ghost var stopped: bool
    ghost var started: Option<bool>
    ghost var freed: nat
    ghost var deleted: nat
    ghost var late: nat

    ghost function Model(): State
      reads this
    {
      State(parent, child, runnable, joinable, refs, asked, stopped, started, freed, deleted, late)
    }

    /** Tells whether the thread could be created; it may run from then on. */
    constructor (joinable: bool, created: bool)
      ensures Model() == Apply(INIT, Start(joinable, created))
    {
      runnable, this.joinable, refs := true, joinable, 2;
      parent, child := Checking, if created then Reading else Absent;
      asked, stopped, started, freed, deleted, late := joinable, false, None, 0, 0, 0;
      if !created {
        runnable, this.joinable, refs := false, false, 1;
      }
    }

    /** The delegate's part of create: false if the delegate is not to be used. */
    method Confirm() returns (running: bool)
      requires parent.Checking?
      modifies this
      ensures Goes(old(Model()), Model(), true)
      ensures running == old(runnable) && (if running then parent.Holding? else parent.Left?)
    {
      ghost var s := Model();
      GoesNowhere(s, true);
      GoesOn(s, s, Check);
      running := runnable;
      started := Some(running);
      parent := if running then Holding else Releasing(Test);
      if !running {
        Destroy(s, true);
      }
    }

    /** The rest of a run that began in s. */
    method Destroy(ghost s: State, ghost byParent: bool)
      requires if byParent then parent == Releasing(Test) else child == Dropping(Test)
      requires Goes(s, Model(), byParent)
      modifies `refs, `parent, `child, `freed
      ensures Goes(s, Model(), byParent)
      ensures if byParent then parent.Left? && child == old(child) else child.Ended? && parent == old(parent)
      ensures refs == if old(refs) > 0 then old(refs) - 1 else 0
      ensures freed == old(freed) + if old(refs) == 1 then 1 else 0
    {
      hide Goes;
      GoesOn(s, Model(), if byParent then ParentDestroys else ChildDestroys);
      if refs > 0 {
        Proceed(byParent, Some(Destroying.CountDown));
        CountDown(s, byParent);
      } else {
        Proceed(byParent, None);
      }
    }

    method CountDown(ghost s: State, ghost byParent: bool)
      requires if byParent then parent == Releasing(Destroying.CountDown) else child == Dropping(Destroying.CountDown)
      requires refs > 0 && Goes(s, Model(), byParent)
      modifies `refs, `parent, `child, `freed
      ensures Goes(s, Model(), byParent)
      ensures if byParent then parent.Left? && child == old(child) else child.Ended? && parent == old(parent)
      ensures refs == old(refs) - 1 && freed == old(freed) + if old(refs) == 1 then 1 else 0
    {
      hide Goes;
      var callDelete := refs == 1;
      CountsDown(s, Model(), byParent);
      refs := refs - 1;
      if callDelete {
        Proceed(byParent, Some(Destroying.Delete));
        Delete(s, byParent);
      } else {
        Proceed(byParent, None);
      }
    }

    method Delete(ghost s: State, ghost byParent: bool)
      requires if byParent then parent == Releasing(Destroying.Delete) else child == Dropping(Destroying.Delete)
      requires Goes(s, Model(), byParent)
      modifies `parent, `child, `freed
      ensures Goes(s, Model(), byParent)
      ensures if byParent then parent.Left? && child == old(child) else child.Ended? && parent == old(parent)
      ensures freed == old(freed) + 1
    {
      hide Goes;
      GoesOn(s, Model(), if byParent then ParentDestroys else ChildDestroys);
      freed := freed + 1;
      Proceed(byParent, None);
    }

    /** Where destroy is next in the thread that calls it. */
    ghost method Proceed(byParent: bool, next: Option<Destroying>)
      modifies `parent, `child
      ensures parent == if !byParent then old(parent) else if next.Some? then Releasing(next.value) else Left
      ensures child == if byParent then old(child) else if next.Some? then Dropping(next.value) else Ended
    {
      if byParent {
        parent := if next.Some? then Releasing(next.value) else Left;
      } else {
        child := if next.Some? then Dropping(next.value) else Ended;
      }
    }

    /** stop, and what calls it; the join of a joinable thread returns only when that has ended. */
    method Stop(ghost s: State)
      requires parent.Nulling? && (joinable ==> child.Ended?) && Goes(s, Model(), true)
      modifies this
      ensures Goes(s, Model(), true) && parent.Left? && !runnable && stopped && child == old(child)
    {
      hide Goes;
      GoesOn(s, Model(), Null);
      if runnable {
        runnable := false;
      }
      parent, stopped := Testing, true;
      GoesOn(s, Model(), TestJoinable);
      if joinable {
        joinable, parent := false, Joining;
        GoesOn(s, Model(), Join);
      }
      parent := Releasing(Test);
      Destroy(s, true);
    }

    method Bye()
      requires parent.Holding? && (joinable ==> child.Ended?)
      modifies this
      ensures Goes(old(Model()), Model(), true) && parent.Left? && child == old(child)
      ensures if old(joinable) then !runnable && stopped else runnable == old(runnable) && stopped == old(stopped)
    {
      ghost var s := Model();
      GoesNowhere(s, true);
      GoesOn(s, s, Step.Bye);
      if joinable {
        parent := Nulling;
        Stop(s);
      } else {
        parent := Releasing(Test);
        Destroy(s, true);
      }
    }

    /** Calls back, if the thread is still meant to run; again is what the callback returns. */
    ghost method CallBack(s: State, again: bool) returns (calls: seq<Call>)
      requires (child.Prerun? || child.Loop? || child.Postrun?) && Goes(s, Model(), false)
      modifies `child, `late
      ensures Goes(s, Model(), false)
      ensures child == match old(child)
                       case Prerun => Loop
                       case Loop => if runnable && again then Loop else Postrun
                       case _ => Clearing
      ensures calls == if !runnable then []
                       else [match old(child)
                             case Prerun => PreRun
                             case Loop => RunOnce(again)
                             case _ => PostRun]
    {
      hide Goes;
      GoesOn(s, Model(), Enter(runnable));
      child := Apply(Model(), Enter(runnable)).child;
      calls := [];
      if runnable {
        var t := Apply(Model(), Callback(again));
        GoesOn(s, Model(), Callback(again));
        calls := [CallOf(child, again)];
        child, late := t.child, t.late;
      }
    }

    /** The loop of threadMain: answers is what run() returns on each call, false once they are used up. */
    method RunLoop(ghost s: State, answers: seq<bool>) returns (ghost calls: seq<Call>)
      requires child.Loop? && Goes(s, Model(), false)
      modifies `child, `late
      ensures child.Postrun? && Goes(s, Model(), false)
      ensures calls == if runnable then RunsUntilFalse(answers) else []
    {
      hide Goes, RunsUntilFalse, Made;
      var i := 0;
      var again := true;
      calls := [];
      NoneMade(answers);
      while runnable && again
        invariant Goes(s, Model(), false) && i <= |answers|
        invariant child == if again then Loop else Postrun
        invariant if runnable then Made(calls, answers, i, again) else again && calls == []
        decreases |answers| - i, again
      {
        OneMoreMade(calls, answers, i);
        again := i < |answers| && answers[i];
        ghost var call := CallBack(s, again);
        calls := calls + call;
        i := if again then i + 1 else i;
      }
      if !again { AllMade(calls, answers, i); }
      if again {
        ghost var none := CallBack(s, false);   // only leaves the loop
      }
    }

    /** The end of threadMain for a thread that has run its runnable. */
    method Retire(ghost s: State)
      requires child.Clearing? && Goes(s, Model(), false)
      modifies `runnable, `child, `deleted
      ensures Goes(s, Model(), false) && child == Dropping(Test) && !runnable && deleted == old(deleted) + 1
    {
      hide Goes;
      GoesOn(s, Model(), Clear);
      runnable := false;
      child := Deleting;
      GoesOn(s, Model(), DeleteRunnable);
      deleted := deleted + 1;
      child := Dropping(Test);
    }

    method ThreadMain(answers: seq<bool>) returns (ghost calls: seq<Call>)
      requires child.Reading?
      modifies this
      ensures Goes(old(Model()), Model(), false) && child.Ended? && parent == old(parent)
      ensures deleted == old(deleted) + if old(runnable) then 1 else 0
      ensures calls == if old(runnable) then [PreRun] + RunsUntilFalse(answers) + [PostRun] else []
    {
      hide Goes, RunsUntilFalse;
      ghost var s := Model();
      GoesNowhere(s, false);
      GoesOn(s, s, Read);
      var given := runnable;
      child := if given then Prerun else Dropping(Test);
      calls := [];
      if given {
        calls := CallBack(s, false);   // prerun
        ghost var runs := RunLoop(s, answers);
        ghost var last := CallBack(s, false);   // postrun
        calls := calls + runs + last;
        Retire(s);
      }
      Destroy(s, false);
    }
  }
}
