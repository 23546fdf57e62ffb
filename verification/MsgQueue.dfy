/** The message queue: a list under a mutex, with a condition variable that receivers wait on. */
module MsgQueue {
  import opened Optional
  import opened LinkedList

  /** What the mutex protects: the messages, oldest first, and whether the queue has been unblocked. */
  datatype Core = Core(list: seq<Data>, unblocked: bool)

  /** What a receiver does between taking the mutex and giving it up. */
  datatype RcvResult = Wait | Got(data: Data) | Unavailable

  function SndCore(c: Core, m: Data): (Core, Status) {
    if m == NULL then (c, INVALID_PARAMETER)
    else if c.unblocked then (c, UNAVAILABLE_RESOURCE)
    else (c.(list := c.list + [m]), SUCCESS)
  }

  /** A receiver that enters checks for an unblocked queue first; one that was woken tests the loop again. */
  function RcvCore(c: Core, resumed: bool): (Core, RcvResult) {
    if c.unblocked && !resumed then (c, Unavailable)
    else if c.list == [] && !c.unblocked then (c, Wait)
    else if c.list == [] then (c, Unavailable)
    else (c.(list := c.list[1..]), Got(c.list[0]))
  }

  function UnblockCore(c: Core): (Core, Status) {
    if c.unblocked then (c, UNAVAILABLE_RESOURCE) else (c.(unblocked := true), SUCCESS)
  }

  /** The queue over the pointer list; each method is one stretch under the mutex. */
  class MsgQ {
    const msgList: LinkedList
    var unblocked: bool

    ghost predicate Valid()
      reads this, msgList, msgList.elems
    {
      msgList.Valid() && forall i | 0 <= i < |msgList.elems| :: msgList.elems[i].item.data != NULL
    }

    ghost function Model(): Core
      reads this, msgList
    {
      Core(Payloads(msgList.Contents()), unblocked)
    }

    constructor ()
      ensures Valid() && Model() == Core([], false) && fresh(msgList)
    {
      msgList := new LinkedList();
      unblocked := false;
    }

    /** signalled says whether the condition variable is signalled. */
    method Snd(m: Data, owned: bool) returns (status: Status, signalled: bool)
      requires Valid()
      modifies msgList, msgList.elems
      ensures fresh(set e | e in msgList.elems && e !in old(msgList.elems))
      ensures Valid() && (Model(), status) == SndCore(old(Model()), m)
      ensures status == SUCCESS <==> m != NULL && !old(unblocked)
      ensures Model().list == if status == SUCCESS then old(Model().list) + [m] else old(Model().list)
      ensures signalled <==> status == SUCCESS
    {
      if m == NULL { return INVALID_PARAMETER, false; }
      if unblocked { return UNAVAILABLE_RESOURCE, false; }
      ghost var list := Model().list;
      status := msgList.Add(m, owned);
      assert Model().list == list + [m];
      signalled := true;
    }

    /** msg_q_rcv up to its first wait, or from one wakeup to the next wait. */
    method Rcv(resumed: bool) returns (result: RcvResult)
      requires Valid()
      modifies msgList, msgList.elems
      ensures forall i | 0 <= i < |msgList.elems| :: msgList.elems[i] in old(msgList.elems)
      ensures Valid() && (Model(), result) == RcvCore(old(Model()), resumed)
      ensures result.Unavailable? <==> unblocked && (!resumed || old(Model().list) == [])
      ensures result.Wait? <==> !unblocked && old(Model().list) == []
    {
      if unblocked && !resumed { return Unavailable; }
      var empty := msgList.Empty();
      if empty && !unblocked { return Wait; }
      if msgList.elems != [] { OldestTaken(msgList.elems); }
      var status, data := msgList.Remove();
      result := if status == SUCCESS then Got(data) else Unavailable;
    }

    method Flush() returns (status: Status, freed: seq<Data>)
      requires Valid()
      modifies msgList
      ensures Valid() && Model() == old(Model()).(list := []) && status == SUCCESS
      ensures freed == Freed(old(msgList.Contents()))
    {
      status, freed := msgList.Flush();
    }

    method Unblock() returns (status: Status)
      requires Valid()
      modifies this
      ensures Valid() && (Model(), status) == UnblockCore(old(Model()))
      ensures unblocked && Model().list == old(Model().list) && (status == SUCCESS <==> !old(unblocked))
    {
      if unblocked { return UNAVAILABLE_RESOURCE; }
      unblocked := true;
      status := SUCCESS;
    }
  }

  lemma OldestTaken(elems: seq<ListElement>)
    requires elems != []
    ensures Payloads(Items(elems[1..])) == Payloads(Items(elems))[1..]
    ensures Payloads(Items(elems))[0] == elems[0].item.data
  {
  }

  function Payloads(items: seq<Item>): (r: seq<Data>)
    ensures |r| == |items| && forall i | 0 <= i < |r| :: r[i] == items[i].data
  {
    seq(|items|, i requires 0 <= i < |items| => items[i].data)
  }

  // ---------- senders and receivers, interleaved ----------

  type Thread = nat

  datatype State = State(
    core: Core,
    sleeping: set<Thread>,     // asleep on the condition variable
    woken: set<Thread>,        // woken, but not running under the mutex again yet
    // history
    accepted: seq<Data>,       // every message that was accepted, in order
    taken: nat,                // how many of them have left the queue
    received: seq<nat>,        // those received, as indices into accepted, in order of receipt
    flushed: set<nat>,         // those flushed
    closedAt: Option<nat>      // how many had been accepted when the queue was unblocked
  )

  const INIT := State(Core([], false), {}, {}, [], 0, [], {}, None)

  datatype Step =
    | Snd(m: Data, wakes: set<Thread>)
    | RcvEnter(r: Thread)
    | RcvResume(r: Thread)
    | WakeSpuriously(r: Thread)
    | Flush
    | Unblock

  predicate Enabled(s: State, step: Step) {
    match step
    case Snd(m, wakes) =>
      // a signal wakes at least one thread, if any is waiting
      if SndCore(s.core, m).1 == SUCCESS then wakes <= s.sleeping && (s.sleeping != {} ==> wakes != {}) else wakes == {}
    case RcvEnter(r) => r !in s.sleeping && r !in s.woken
    case RcvResume(r) => r in s.woken
    case WakeSpuriously(r) => r in s.sleeping
    case Flush => true
    case Unblock => true
  }

  function Apply(s: State, step: Step): State
    requires Enabled(s, step)
  {
    match step
    case Snd(m, wakes) =>
      var (core, status) := SndCore(s.core, m);
      if status == SUCCESS
      then s.(core := core, accepted := s.accepted + [m], sleeping := s.sleeping - wakes, woken := s.woken + wakes)
      else s
    case RcvEnter(r) => Receive(s, r, false)
    case RcvResume(r) => Receive(s.(woken := s.woken - {r}), r, true)
    case WakeSpuriously(r) => s.(sleeping := s.sleeping - {r}, woken := s.woken + {r})
    case Flush =>
      s.(core := s.core.(list := []), taken := |s.accepted|,
         flushed := s.flushed + Range(s.taken, |s.accepted|))
    case Unblock =>
      var (core, status) := UnblockCore(s.core);
      if status == SUCCESS
      then s.(core := core, sleeping := {}, woken := s.woken + s.sleeping, closedAt := Some(|s.accepted|))
      else s
  }

  function Range(lo: nat, hi: nat): (r: set<nat>)
    ensures forall i :: i in r <==> lo <= i < hi
  {
    if lo < hi then Range(lo, hi - 1) + {hi - 1} else {}
  }

  function Receive(s: State, r: Thread, resumed: bool): State {
    var (core, result) := RcvCore(s.core, resumed);
    match result
    case Wait => s.(sleeping := s.sleeping + {r})
    case Got(_) => s.(core := core, taken := s.taken + 1, received := s.received + [s.taken])
    case Unavailable => s
  }

  function Run(s: State, steps: seq<Step>): Option<State>
    decreases |steps|
  {
    if steps == [] then Some(s)
    else if Enabled(s, steps[0]) then Run(Apply(s, steps[0]), steps[1..])
    else None
  }

  /** Whoever sleeps has been outnumbered: there are at least as many threads on their way as messages. */
  ghost predicate NoLostWakeup(s: State) {
    && (s.sleeping != {} ==> |s.core.list| <= |s.woken| && !s.core.unblocked)
    && s.sleeping !! s.woken
  }

  /** Each accepted message is still queued, or was received or flushed, but not both. */
  ghost predicate Accounted(s: State) {
    && s.taken <= |s.accepted| && s.core.list == s.accepted[s.taken..]
    && (forall i, j | 0 <= i < j < |s.received| :: s.received[i] < s.received[j])
    && (forall i | 0 <= i < |s.received| :: s.received[i] < s.taken && s.received[i] !in s.flushed)
    && (forall i | 0 <= i < s.taken :: i in s.received || i in s.flushed)
    && (forall i | i in s.flushed :: i < s.taken)
    && (s.core.unblocked <==> s.closedAt.Some?)
    && (s.closedAt.Some? ==> s.closedAt.value == |s.accepted|)
  }

  ghost predicate Inv(s: State) {
    NoLostWakeup(s) && Accounted(s)
  }

  lemma WakeupKept(s: State, step: Step)
    requires Inv(s) && Enabled(s, step)
    ensures NoLostWakeup(Apply(s, step))
  {
    match step {
      case Snd(m, wakes) =>
        if wakes != {} {
          var w :| w in wakes;
          assert |s.woken + wakes| == |s.woken| + |wakes|;
          assert |wakes| >= |{w}|;
        }
      case WakeSpuriously(r) => assert |s.woken + {r}| == |s.woken| + 1;
      case RcvResume(r) => assert |s.woken - {r}| == |s.woken| - 1;
      case _ =>
    }
  }

  lemma AccountedKept(s: State, step: Step)
    requires Inv(s) && Enabled(s, step)
    ensures Accounted(Apply(s, step))
  {
  }

  lemma {:induction false} RunKeeps(s: State, steps: seq<Step>)
    requires Inv(s) && Run(s, steps).Some?
    ensures Inv(Run(s, steps).value)
    decreases |steps|
  {
    if steps != [] {
      WakeupKept(s, steps[0]);
      AccountedKept(s, steps[0]);
      RunKeeps(Apply(s, steps[0]), steps[1..]);
    }
  }

  /**
   * No wakeup is lost: while some receiver sleeps, there are no more messages than receivers on
   * their way to take them, and the queue has not been unblocked.
   */
  lemma NoReceiverForgotten(steps: seq<Step>)
    requires Run(INIT, steps).Some?
    ensures var s := Run(INIT, steps).value;
      && (s.sleeping != {} ==> |s.core.list| <= |s.woken| && !s.core.unblocked)
      && (s.sleeping != {} && s.woken == {} ==> s.core.list == [])
  {
    RunKeeps(INIT, steps);
  }

  /** The message at each index of accepted: in order of acceptance, received, flushed or queued. */
  lemma MessagesConserved(steps: seq<Step>)
    requires Run(INIT, steps).Some?
    ensures var s := Run(INIT, steps).value;
      && s.taken <= |s.accepted| && s.core.list == s.accepted[s.taken..]
      && (forall i | 0 <= i < s.taken :: i in s.received <==> i !in s.flushed)
      && (forall i, j | 0 <= i < j < |s.received| :: s.received[i] < s.received[j])
      && (forall i | i in s.received || i in s.flushed :: i < s.taken)
      && (s.core.unblocked ==> s.closedAt == Some(|s.accepted|))
  {
    RunKeeps(INIT, steps);
  }

  /** What a step that receives hands out is the oldest accepted message that has not left the queue. */
  lemma ReceivesOldest(steps: seq<Step>, resumed: bool)
    requires Run(INIT, steps).Some?
    ensures var s := Run(INIT, steps).value;
      match RcvCore(s.core, resumed).1
      case Got(data) => s.taken < |s.accepted| && data == s.accepted[s.taken]
      case Wait => s.taken == |s.accepted| && !s.core.unblocked
      case Unavailable => s.core.unblocked
  {
    RunKeeps(INIT, steps);
  }

  /** A send is refused exactly for a null message or after unblock, and then changes nothing. */
  lemma SendRefusedExact(c: Core, m: Data)
    ensures SndCore(c, m).1 != SUCCESS <==> m == NULL || c.unblocked
    ensures SndCore(c, m).0 == if m == NULL || c.unblocked then c else Core(c.list + [m], false)
  {
  }

  /** A receiver that enters is refused exactly after unblock; one that was asleep only if no message is left either. */
  lemma ReceiveRefusedExact(c: Core)
    ensures RcvCore(c, false).1.Unavailable? <==> c.unblocked
    ensures RcvCore(c, true).1.Unavailable? <==> c.unblocked && c.list == []
    ensures forall resumed :: RcvCore(c, resumed).1.Wait? <==> !c.unblocked && c.list == []
  {
  }

  /** A receiver goes to sleep exactly on an empty queue that has not been unblocked. */
  lemma SleepsExact(steps: seq<Step>, r: Thread, resumed: bool)
    requires Run(INIT, steps).Some?
    requires Enabled(Run(INIT, steps).value, if resumed then RcvResume(r) else RcvEnter(r))
    ensures var s := Run(INIT, steps).value;
      var s' := Apply(s, if resumed then RcvResume(r) else RcvEnter(r));
      && (r in s'.sleeping <==> s.core.list == [] && !s.core.unblocked)
      && r !in s'.woken
  {
    RunKeeps(INIT, steps);
  }

  /** Unblocking closes the queue for good: no message is lost or accepted by it, and every sleeper is on its way. */
  lemma UnblockFrees(steps: seq<Step>)
    requires Run(INIT, steps).Some?
    ensures var s := Run(INIT, steps).value; var s' := Apply(s, Unblock);
      && s'.core == Core(s.core.list, true) && s'.closedAt == Some(|s.accepted|)
      && s'.sleeping == {} && s'.woken == s.woken + s.sleeping
      && s'.accepted == s.accepted && s'.received == s.received
  {
    RunKeeps(INIT, steps);
  }

  /** After an unblock nothing is accepted any more, nobody goes to sleep, and every send is refused. */
  lemma {:induction false} StaysUnblocked(s: State, steps: seq<Step>)
    requires Inv(s) && s.core.unblocked && Run(s, steps).Some?
    ensures var s' := Run(s, steps).value;
      s'.core.unblocked && s'.accepted == s.accepted && s'.sleeping == {} && s'.closedAt == s.closedAt
    decreases |steps|
  {
    if steps != [] {
      WakeupKept(s, steps[0]);
      AccountedKept(s, steps[0]);
      StaysUnblocked(Apply(s, steps[0]), steps[1..]);
    }
  }
}
