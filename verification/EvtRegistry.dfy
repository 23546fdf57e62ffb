/** The listeners of IPACM: who is registered for which event, and whom an event is delivered to. */
module EvtRegistry {
  import opened Words

  type Event = nat

  datatype Entry<Listener> = Entry(event: Event, obj: Listener)

  /** The entries of every other listener, in order. */
  function Without<Listener(==)>(entries: seq<Entry<Listener>>, obj: Listener): seq<Entry<Listener>> {
    if entries == [] then []
    else
      var n := |entries| - 1;
      Without(entries[..n], obj) + if entries[n].obj == obj then [] else [entries[n]]
  }

  /** The listeners called for an event, in the order of the calls. */
  function Calls<Listener>(entries: seq<Entry<Listener>>, event: Event): seq<Listener> {
    if entries == [] then []
    else
      var n := |entries| - 1;
      Calls(entries[..n], event) + if entries[n].event == event then [entries[n].obj] else []
  }

  class CmdEvt<Listener> {
    const event: Event
    const obj: Listener
    var next: CmdEvt?<Listener>

    constructor (event: Event, obj: Listener)
      ensures this.event == event && this.obj == obj && next == null
    {
      this.event, this.obj := event, obj;
      next := null;
    }
  }

  function At<Listener>(nodes: seq<CmdEvt<Listener>>, i: int): CmdEvt?<Listener> {
    if 0 <= i < |nodes| then nodes[i] else null
  }

  function Entries<Listener>(nodes: seq<CmdEvt<Listener>>): (r: seq<Entry<Listener>>)
    ensures |r| == |nodes| && forall i | 0 <= i < |r| :: r[i] == Entry(nodes[i].event, nodes[i].obj)
  {
    seq(|nodes|, i requires 0 <= i < |nodes| => Entry(nodes[i].event, nodes[i].obj))
  }

  /** The nodes of the listener, or those of every other listener, in order. */
  ghost function Nodes<Listener>(nodes: seq<CmdEvt<Listener>>, obj: Listener, mine: bool): seq<CmdEvt<Listener>> {
    if nodes == [] then []
    else
      var n := |nodes| - 1;
      Nodes(nodes[..n], obj, mine) + if (nodes[n].obj == obj) == mine then [nodes[n]] else []
  }

  lemma NodesNext<Listener>(nodes: seq<CmdEvt<Listener>>, n: nat, obj: Listener, mine: bool)
    requires n < |nodes|
    ensures Nodes(nodes[..n + 1], obj, mine) ==
            Nodes(nodes[..n], obj, mine) + if (nodes[n].obj == obj) == mine then [nodes[n]] else []
  {
    assert nodes[..n + 1][..n] == nodes[..n];
  }

  lemma NoCalls<Listener>(nodes: seq<CmdEvt<Listener>>, event: Event)
    ensures Calls(Entries(nodes[..0]), event) == []
  {
  }

  /** The list when deregistr has come to the n-th of the nodes: those kept so far, and the rest. */
  ghost function Remaining<Listener>(nodes: seq<CmdEvt<Listener>>, n: nat, obj: Listener): seq<CmdEvt<Listener>>
    requires n <= |nodes|
  {
    Nodes(nodes[..n], obj, false) + nodes[n..]
  }

  lemma RemainingNext<Listener>(nodes: seq<CmdEvt<Listener>>, n: nat, obj: Listener)
    requires n < |nodes|
    ensures var r, k := Remaining(nodes, n, obj), |Nodes(nodes[..n], obj, false)|;
      && k < |r| && r[k] == nodes[n]
      && Remaining(nodes, n + 1, obj) == (if nodes[n].obj == obj then r[..k] + r[k + 1..] else r)
      && |Nodes(nodes[..n + 1], obj, false)| == (if nodes[n].obj == obj then k else k + 1)
  {
    NodesNext(nodes, n, obj, false);
  }

  lemma RemainingEnds<Listener>(nodes: seq<CmdEvt<Listener>>, obj: Listener)
    ensures Remaining(nodes, 0, obj) == nodes && Nodes(nodes[..0], obj, false) == [] == Nodes(nodes[..0], obj, true)
    ensures Remaining(nodes, |nodes|, obj) == Nodes(nodes, obj, false) && nodes[..|nodes|] == nodes
  {
    assert nodes[..|nodes|] == nodes;
  }

  lemma CallsNext<Listener>(nodes: seq<CmdEvt<Listener>>, n: nat, event: Event)
    requires n < |nodes|
    ensures Calls(Entries(nodes[..n + 1]), event) ==
            Calls(Entries(nodes[..n]), event) + if nodes[n].event == event then [nodes[n].obj] else []
  {
    assert Entries(nodes[..n + 1])[..n] == Entries(nodes[..n]);
  }

  lemma {:induction false} NodesOfOthers<Listener>(nodes: seq<CmdEvt<Listener>>, obj: Listener)
    ensures Entries(Nodes(nodes, obj, false)) == Without(Entries(nodes), obj)
  {
    if nodes != [] {
      var n := |nodes| - 1;
      NodesOfOthers(nodes[..n], obj);
      assert Entries(nodes)[..n] == Entries(nodes[..n]);
    }
  }

  function Wrapped(n: nat): Word {
    n % WORD_RANGE
  }

  /** From was to now the event's counter has grown by n, in 32 bits, and no other counter has changed. */
  ghost predicate Counted(was: seq<Word>, now: seq<Word>, event: Event, n: nat) {
    && event < |was| == |now|
    && (var count: nat := was[event]; now[event] == (count + n) % WORD_RANGE)
    && forall i | 0 <= i < |was| && i != event :: now[i] == was[i]
  }

  lemma NotCounted(counters: seq<Word>, event: Event)
    requires event < |counters|
    ensures Counted(counters, counters, event, 0)
  {
  }

  class Registry<Listener(==)> {
    var head: CmdEvt?<Listener>
    const stats: array<Word>
    ghost var nodes: seq<CmdEvt<Listener>>
    ghost var repr: set<CmdEvt<Listener>>

    ghost predicate Valid()
      reads this, repr
    {
      && (forall i | 0 <= i < |nodes| :: nodes[i] in repr)
      && head == At(nodes, 0)
      && (forall i | 0 <= i < |nodes| :: nodes[i].next == At(nodes, i + 1))
      && (forall i, j | 0 <= i < j < |nodes| :: nodes[i] != nodes[j])
    }

    ghost function Registered(): seq<Entry<Listener>>
      reads this
    {
      Entries(nodes)
    }

    lemma LinksOf(k: nat)
      requires Valid()
      ensures head == At(nodes, 0) && (k < |nodes| ==> nodes[k].next == At(nodes, k + 1))
    {
    }

    constructor (events: nat)
      ensures Valid() && Registered() == [] && repr == {} && fresh(stats)
      ensures stats[..] == seq(events, i => 0)
    {
      head, nodes, repr := null, [], {};
      stats := new Word[events](i => 0);
    }

    method Registr(event: Event, obj: Listener)
      requires Valid()
      modifies this, repr
      ensures Valid() && fresh(repr - old(repr)) && Registered() == old(Registered()) + [Entry(event, obj)]
    {
      var nw := new CmdEvt(event, obj);
      if head == null {
        head := nw;
      } else {
        var tmp := head;
        ghost var k := 0;
        while tmp.next != null
          invariant 0 <= k < |nodes| && tmp == nodes[k]
          decreases |nodes| - k
        {
          tmp := tmp.next;
          k := k + 1;
        }
        tmp.next := nw;
      }
      nodes, repr := nodes + [nw], repr + {nw};
    }

    /** Takes tmp, the node at k, out of the list; prev is only looked at when tmp is not the head. */
    method Unlink(tmp: CmdEvt<Listener>, prev: CmdEvt?<Listener>, ghost k: nat)
      requires Valid() && k < |nodes| && tmp == nodes[k] && (k > 0 ==> prev == nodes[k - 1])
      modifies this, repr
      ensures Valid() && nodes == old(nodes)[..k] + old(nodes)[k + 1..]
      ensures tmp.next == old(tmp.next) && repr == old(repr)
    {
      if tmp == head {
        head := head.next;
      } else if tmp.next == null {
        prev.next := null;
      } else {
        prev.next := tmp.next;
      }
      nodes := nodes[..k] + nodes[k + 1..];
    }

    /** Unlinks and frees every entry of the listener. */
    method Deregistr(param: Listener) returns (ghost freed: seq<CmdEvt<Listener>>)
      requires Valid()
      modifies this, repr
      ensures Valid() && Registered() == Without(old(Registered()), param)
      ensures repr == old(repr)
      ensures nodes == Nodes(old(nodes), param, false) && freed == Nodes(old(nodes), param, true)
    {
      hide Valid, Nodes, Remaining, Without, Entries;
      ghost var was := nodes;
      ghost var n: nat, k: nat := 0, 0;      // how far tmp is in the old list and in the new one
      var tmp, prev := head, head;
      freed := [];
      RemainingEnds(was, param);
      LinksOf(0);
      while tmp != null
        invariant n <= |was| && nodes == Remaining(was, n, param) && k == |Nodes(was[..n], param, false)|
        invariant Valid() && tmp == At(nodes, k) && (k > 0 ==> prev == At(nodes, k - 1))
        invariant |nodes| - k == |was| - n
        invariant freed == Nodes(was[..n], param, true)
        invariant repr == old(repr)
        decreases |was| - n
      {
        RemainingNext(was, n, param);
        NodesNext(was, n, param, true);
        LinksOf(k);
        if tmp.obj == param {
          Unlink(tmp, prev, k);
          freed := freed + [tmp];
        } else {
          prev := tmp;
          k := k + 1;
        }
        tmp := tmp.next;
        n := n + 1;
      }
      NodesOfOthers(was, param);
    }

    /** One more call, the n-th since the counters were was. */
    method CountCall(event: Event, ghost was: seq<Word>, ghost n: nat)
      requires event < stats.Length && Counted(was, stats[..], event, n)
      modifies stats
      ensures Counted(was, stats[..], event, n + 1)
    {
      var count: nat := stats[event];
      stats[event] := Wrapped(count + 1);
    }

    /** Delivers an event: calls lists the listeners called. */
    method ProcessEvt(event: Event) returns (calls: seq<Listener>)
      requires Valid() && event < stats.Length
      modifies stats
      ensures calls == Calls(Registered(), event)
      ensures Counted(old(stats[..]), stats[..], event, |calls|)
    {
      NotCounted(stats[..], event);
      NoCalls(nodes, event);
      hide Valid, Calls, Entries, Counted;
      var tmp := head;
      ghost var n: nat := 0;
      calls := [];
      LinksOf(0);
      while tmp != null
        invariant Valid() && n <= |nodes| && tmp == At(nodes, n)
        invariant calls == Calls(Entries(nodes[..n]), event)
        invariant Counted(old(stats[..]), stats[..], event, |calls|)
        decreases |nodes| - n
      {
        CallsNext(nodes, n, event);
        LinksOf(n);
        if event == tmp.event {
          CountCall(event, old(stats[..]), |calls|);
          calls := calls + [tmp.obj];
        }
        tmp := tmp.next;
        n := n + 1;
      }
      assert nodes[..n] == nodes;
    }
  }

  // ---------- over whole runs ----------

  datatype Op<Listener> = Registr(event: Event, obj: Listener) | Deregistr(obj: Listener)

  /** The registry after a run of operations on the empty one. */
  function After<Listener(==)>(ops: seq<Op<Listener>>): seq<Entry<Listener>> {
    if ops == [] then []
    else
      var n := |ops| - 1;
      match ops[n]
      case Registr(event, obj) => After(ops[..n]) + [Entry(event, obj)]
      case Deregistr(obj) => Without(After(ops[..n]), obj)
  }

  /** The registrations for an event that no later operation of the run takes back. */
  function Standing<Listener(==)>(ops: seq<Op<Listener>>, event: Event): seq<Listener> {
    if ops == [] then []
    else
      (if ops[0].Registr? && ops[0].event == event && Deregistr(ops[0].obj) !in ops[1..] then [ops[0].obj] else [])
      + Standing(ops[1..], event)
  }

  function Others<Listener(==)>(objs: seq<Listener>, obj: Listener): seq<Listener> {
    if objs == [] then [] else (if objs[0] == obj then [] else [objs[0]]) + Others(objs[1..], obj)
  }

  lemma {:induction false} OthersAppend<Listener>(a: seq<Listener>, b: seq<Listener>, obj: Listener)
    ensures Others(a + b, obj) == Others(a, obj) + Others(b, obj)
  {
    if a == [] {
      assert a + b == b;
    } else {
      assert (a + b)[1..] == a[1..] + b;
      OthersAppend(a[1..], b, obj);
    }
  }

  /** Taking a listener out of the registry takes exactly its calls out of every delivery. */
  lemma {:induction false} CallsWithout<Listener>(entries: seq<Entry<Listener>>, obj: Listener, event: Event)
    ensures Calls(Without(entries, obj), event) == Others(Calls(entries, event), obj)
  {
    if entries != [] {
      var n := |entries| - 1;
      CallsWithout(entries[..n], obj, event);
      var last := if entries[n].event == event then [entries[n].obj] else [];
      OthersAppend(Calls(entries[..n], event), last, obj);
      assert Others(last, obj) == if entries[n].obj == obj then [] else last;
      var w := Without(entries[..n], obj);
      if entries[n].obj == obj {
        assert Without(entries, obj) == w;
      } else {
        assert (w + [entries[n]])[..|w|] == w;
      }
    }
  }

  lemma {:induction false} StandingAppend<Listener>(ops: seq<Op<Listener>>, op: Op<Listener>, event: Event)
    ensures Standing(ops + [op], event) ==
            match op
            case Registr(e, obj) => Standing(ops, event) + if e == event then [obj] else []
            case Deregistr(obj) => Others(Standing(ops, event), obj)
  {
    if ops != [] {
      assert (ops + [op])[1..] == ops[1..] + [op];
      StandingAppend(ops[1..], op, event);
      if op.Deregistr? {
        var first := if ops[0].Registr? && ops[0].event == event && Deregistr(ops[0].obj) !in ops[1..]
          then [ops[0].obj] else [];
        OthersAppend(first, Standing(ops[1..], event), op.obj);
      }
    }
  }

  /**
   * After any run of registrations and deregistrations an event is delivered, in registration order, to
   * exactly the registrations for it that were not taken back since.
   */
  lemma {:induction false} DeliveredToStanding<Listener>(ops: seq<Op<Listener>>, event: Event)
    ensures Calls(After(ops), event) == Standing(ops, event)
  {
    if ops != [] {
      var n := |ops| - 1;
      assert ops == ops[..n] + [ops[n]];
      DeliveredToStanding(ops[..n], event);
      StandingAppend(ops[..n], ops[n], event);
      match ops[n] {
        case Registr(e, obj) =>
          var was := After(ops[..n]);
          assert (was + [Entry(e, obj)])[..|was|] == was;
        case Deregistr(obj) =>
          CallsWithout(After(ops[..n]), obj, event);
      }
    }
  }
}
