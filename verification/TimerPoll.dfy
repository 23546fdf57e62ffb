/** What the poll thread makes of a wakeup. */
module TimerPoll {
  import opened Optional
  import opened Sequences
  import opened TimerProtocol

  function PollSteps(n: nat): seq<Step> {
    if n == 0 then [] else [PollStep] + PollSteps(n - 1)
  }

  /** The expire messages for the containers, in order. */
  function Expires(todo: seq<bool>): (r: seq<Msg>)
    ensures |r| == |todo| && forall i | 0 <= i < |r| :: r[i] == Expire(todo[i])
  {
    seq(|todo|, i requires 0 <= i < |todo| => Expire(todo[i]))
  }

  lemma NextPollStep(s: State, n: nat)
    requires n > 0 && Enabled(s, PollStep)
    ensures Run(s, PollSteps(n)) == Run(Apply(s, PollStep), PollSteps(n - 1))
  {
    assert PollSteps(n)[1..] == PollSteps(n - 1);
  }

  /** Handling one container: it is disarmed, then no longer polled, then its expire message is posted. */
  function Handled(s: State): State
    requires s.poll.Handling? && s.poll.todo != []
  {
    var w := s.poll.todo[0];
    s.With(w, s.At(w).(armed := None, polled := false)).(
      msgs := s.msgs + [Expire(w)],
      poll := if |s.poll.todo| == 1 then Waiting else Handling(s.poll.todo[1..], Disarm))
  }

  lemma OneIsHandled(s: State, n: nat)
    requires s.poll.Handling? && s.poll.todo != [] && s.poll.stage == Disarm && n >= 3
    ensures Run(s, PollSteps(n)) == Run(Handled(s), PollSteps(n - 3))
  {
    var s1 := Apply(s, PollStep);
    var s2 := Apply(s1, PollStep);
    assert Apply(s2, PollStep) == Handled(s);
    hide PollSteps, Apply;
    NextPollStep(s, n);
    NextPollStep(s1, n - 1);
    NextPollStep(s2, n - 2);
  }

  /** Neither armed nor polled, with the heap as it was. */
  predicate Silenced(c: Container, was: Container) {
    c.armed == None && !c.polled && c.heap == was.heap
  }

  /** From s to s' the poll thread has handled these containers and no others. */
  ghost predicate AllHandled(s: State, s': State, todo: seq<bool>) {
    && s'.poll == Waiting && s'.msgs == s.msgs + Expires(todo) && s'.task == s.task && s'.clients == s.clients
    && (forall w :: if w in todo then Silenced(s'.At(w), s.At(w)) else s'.At(w) == s.At(w))
  }

  lemma LastIsHandled(s: State)
    requires s.poll.Handling? && |s.poll.todo| == 1
    ensures AllHandled(s, Handled(s), s.poll.todo)
  {
  }

  lemma OneMoreHandled(s: State, s': State)
    requires s.poll.Handling? && |s.poll.todo| > 1 && Distinct(s.poll.todo)
    requires AllHandled(Handled(s), s', s.poll.todo[1..])
    ensures AllHandled(s, s', s.poll.todo)
  {
    var todo := s.poll.todo;
    assert todo == [todo[0]] + todo[1..];
    assert s.msgs + [Expire(todo[0])] + Expires(todo[1..]) == s.msgs + Expires(todo);
  }

  lemma {:induction false} TodoIsHandled(s: State)
    requires s.poll.Handling? && s.poll.todo != [] && s.poll.stage == Disarm && Distinct(s.poll.todo)
    ensures var run := Run(s, PollSteps(3 * |s.poll.todo|));
      run.Some? && AllHandled(s, run.value, s.poll.todo)
    decreases |s.poll.todo|
  {
    OneIsHandled(s, 3 * |s.poll.todo|);
    hide AllHandled;
    if |s.poll.todo| == 1 {
      LastIsHandled(s);
    } else {
      TodoIsHandled(Handled(s));
      OneMoreHandled(s, Run(s, PollSteps(3 * |s.poll.todo|)).value);
    }
  }

  /**
   * A wakeup is handled for each container that it reports: the poll thread ends up waiting again, each of those
   * containers is disarmed and no longer polled, and its expire message has been posted; another is left as it was.
   */
  lemma WakeupIsHandled(s: State, todo: seq<bool>)
    requires Enabled(s, PollWake(todo))
    ensures var run := Run(s, [PollWake(todo)] + PollSteps(3 * |todo|));
      run.Some? && AllHandled(s, run.value, todo)
  {
    var steps := [PollWake(todo)] + PollSteps(3 * |todo|);
    assert steps[1..] == PollSteps(3 * |todo|);
    TodoIsHandled(Apply(s, PollWake(todo)));
  }
}
