/** The command queues of IPACM and the thread that serves the internal one before the external one. */
module IpacmQueue {
  import opened Optional

  type Event = nat

  class Message {
    const event: Event
    var next: Message?

    constructor (event: Event)
      ensures this.event == event && next == null
    {
      this.event := event;
      next := null;
    }
  }

  function At(nodes: seq<Message>, i: int): Message? {
    if 0 <= i < |nodes| then nodes[i] else null
  }

  function Events(nodes: seq<Message>): (r: seq<Event>)
    ensures |r| == |nodes| && forall i | 0 <= i < |r| :: r[i] == nodes[i].event
  {
    seq(|nodes|, i requires 0 <= i < |nodes| => nodes[i].event)
  }

  class MessageQueue {
    var head: Message?
    var tail: Message?               // left as it was when the queue runs empty
    ghost var nodes: seq<Message>

    ghost predicate Valid()
      reads this, nodes
    {
      && head == At(nodes, 0)
      && (nodes != [] ==> tail == nodes[|nodes| - 1])
      && (forall i | 0 <= i < |nodes| :: nodes[i].next == At(nodes, i + 1))
      && (forall i, j | 0 <= i < j < |nodes| :: nodes[i] != nodes[j])
    }

    constructor ()
      ensures Valid() && nodes == []
    {
      head, tail, nodes := null, null, [];
    }

    method Enqueue(item: Message)
      requires Valid() && item !in nodes && item.next == null
      modifies this, nodes
      ensures Valid() && nodes == old(nodes) + [item]
    {
      if head == null {
        tail := item;
        head := item;
      } else {
        // tail is not null: it is the last node
        tail.next := item;
        tail := item;
      }
      nodes := nodes + [item];
    }

    method Dequeue() returns (item: Message?)
      requires Valid()
      modifies this
      ensures Valid() && tail == old(tail)
      ensures item == At(old(nodes), 0)
      ensures nodes == if old(nodes) == [] then [] else old(nodes)[1..]
    {
      if head == null { return null; }
      item := head;
      head := head.next;
      nodes := nodes[1..];
    }
  }

  // ---------- posting and serving, interleaved ----------

  /** Events numbered below this one are external. */
  const EXTERNAL_EVENT_MAX: nat := 38

  predicate External(e: Event) {
    e < EXTERNAL_EVENT_MAX
  }

  /** The event numbers by name, in the order of the enumeration. */
  datatype EventId =
    IPA_CFG_CHANGE_EVENT | IPA_PRIVATE_SUBNET_CHANGE_EVENT | IPA_FIREWALL_CHANGE_EVENT | IPA_LINK_UP_EVENT |
    IPA_LINK_DOWN_EVENT | IPA_USB_LINK_UP_EVENT | IPA_BRIDGE_LINK_UP_EVENT | IPA_WAN_EMBMS_LINK_UP_EVENT |
    IPA_ADDR_ADD_EVENT | IPA_ADDR_DEL_EVENT | IPA_ROUTE_ADD_EVENT | IPA_ROUTE_DEL_EVENT |
    IPA_WAN_UPSTREAM_ROUTE_ADD_EVENT | IPA_WAN_UPSTREAM_ROUTE_DEL_EVENT | IPA_WLAN_AP_LINK_UP_EVENT |
    IPA_WLAN_STA_LINK_UP_EVENT | IPA_WLAN_LINK_DOWN_EVENT | IPA_WLAN_CLIENT_ADD_EVENT |
    IPA_WLAN_CLIENT_ADD_EVENT_EX | IPA_WLAN_CLIENT_DEL_EVENT | IPA_WLAN_CLIENT_POWER_SAVE_EVENT |
    IPA_WLAN_CLIENT_RECOVER_EVENT | IPA_NEW_NEIGH_EVENT | IPA_DEL_NEIGH_EVENT |
    IPA_NEIGH_CLIENT_IP_ADDR_ADD_EVENT | IPA_NEIGH_CLIENT_IP_ADDR_DEL_EVENT | IPA_SW_ROUTING_ENABLE |
    IPA_SW_ROUTING_DISABLE | IPA_PROCESS_CT_MESSAGE | IPA_PROCESS_CT_MESSAGE_V6 |
    IPA_LAN_TO_LAN_NEW_CONNECTION | IPA_LAN_TO_LAN_DEL_CONNECTION | IPA_WLAN_SWITCH_TO_SCC |
    IPA_WLAN_SWITCH_TO_MCC | IPA_CRADLE_WAN_MODE_SWITCH | IPA_WAN_XLAT_CONNECT_EVENT |
    IPA_TETHERING_STATS_UPDATE_EVENT | IPA_NETWORK_STATS_UPDATE_EVENT | IPA_EXTERNAL_EVENT_MAX |
    IPA_HANDLE_WAN_UP | IPA_HANDLE_WAN_DOWN | IPA_HANDLE_WAN_UP_V6 | IPA_HANDLE_WAN_DOWN_V6 |
    IPA_HANDLE_WAN_UP_TETHER | IPA_HANDLE_WAN_DOWN_TETHER | IPA_HANDLE_WAN_UP_V6_TETHER |
    IPA_HANDLE_WAN_DOWN_V6_TETHER | IPA_HANDLE_WLAN_UP | IPA_HANDLE_LAN_UP | IPA_ETH_BRIDGE_IFACE_UP |
    IPA_ETH_BRIDGE_IFACE_DOWN | IPA_ETH_BRIDGE_CLIENT_ADD | IPA_ETH_BRIDGE_CLIENT_DEL |
    IPA_ETH_BRIDGE_WLAN_SCC_MCC_SWITCH | IPA_LAN_DELETE_SELF | IPA_DOWNSTREAM_ADD | IPA_DOWNSTREAM_DEL |
    IPA_ADD_VLAN_IFACE | IPA_DEL_VLAN_IFACE | IPA_ADD_L2TP_VLAN_MAPPING | IPA_DEL_L2TP_VLAN_MAPPING |
    IPA_HANDLE_VLAN_CLIENT_INFO | IPA_HANDLE_VLAN_IFACE_INFO | IPACM_EVENT_MAX

  const FIRST_EVENTS: seq<EventId> := [
    IPA_CFG_CHANGE_EVENT, IPA_PRIVATE_SUBNET_CHANGE_EVENT, IPA_FIREWALL_CHANGE_EVENT, IPA_LINK_UP_EVENT,
    IPA_LINK_DOWN_EVENT, IPA_USB_LINK_UP_EVENT, IPA_BRIDGE_LINK_UP_EVENT, IPA_WAN_EMBMS_LINK_UP_EVENT,
    IPA_ADDR_ADD_EVENT, IPA_ADDR_DEL_EVENT, IPA_ROUTE_ADD_EVENT, IPA_ROUTE_DEL_EVENT,
    IPA_WAN_UPSTREAM_ROUTE_ADD_EVENT, IPA_WAN_UPSTREAM_ROUTE_DEL_EVENT, IPA_WLAN_AP_LINK_UP_EVENT,
    IPA_WLAN_STA_LINK_UP_EVENT, IPA_WLAN_LINK_DOWN_EVENT, IPA_WLAN_CLIENT_ADD_EVENT,
    IPA_WLAN_CLIENT_ADD_EVENT_EX, IPA_WLAN_CLIENT_DEL_EVENT, IPA_WLAN_CLIENT_POWER_SAVE_EVENT,
    IPA_WLAN_CLIENT_RECOVER_EVENT, IPA_NEW_NEIGH_EVENT, IPA_DEL_NEIGH_EVENT,
    IPA_NEIGH_CLIENT_IP_ADDR_ADD_EVENT, IPA_NEIGH_CLIENT_IP_ADDR_DEL_EVENT, IPA_SW_ROUTING_ENABLE,
    IPA_SW_ROUTING_DISABLE, IPA_PROCESS_CT_MESSAGE, IPA_PROCESS_CT_MESSAGE_V6, IPA_LAN_TO_LAN_NEW_CONNECTION,
    IPA_LAN_TO_LAN_DEL_CONNECTION, IPA_WLAN_SWITCH_TO_SCC, IPA_WLAN_SWITCH_TO_MCC,
    IPA_CRADLE_WAN_MODE_SWITCH, IPA_WAN_XLAT_CONNECT_EVENT, IPA_TETHERING_STATS_UPDATE_EVENT,
    IPA_NETWORK_STATS_UPDATE_EVENT
  ]

  const ENUMERATION: seq<EventId> := FIRST_EVENTS + [
    IPA_EXTERNAL_EVENT_MAX, IPA_HANDLE_WAN_UP, IPA_HANDLE_WAN_DOWN, IPA_HANDLE_WAN_UP_V6,
    IPA_HANDLE_WAN_DOWN_V6, IPA_HANDLE_WAN_UP_TETHER, IPA_HANDLE_WAN_DOWN_TETHER,
    IPA_HANDLE_WAN_UP_V6_TETHER, IPA_HANDLE_WAN_DOWN_V6_TETHER, IPA_HANDLE_WLAN_UP, IPA_HANDLE_LAN_UP,
    IPA_ETH_BRIDGE_IFACE_UP, IPA_ETH_BRIDGE_IFACE_DOWN, IPA_ETH_BRIDGE_CLIENT_ADD, IPA_ETH_BRIDGE_CLIENT_DEL,
    IPA_ETH_BRIDGE_WLAN_SCC_MCC_SWITCH, IPA_LAN_DELETE_SELF, IPA_DOWNSTREAM_ADD, IPA_DOWNSTREAM_DEL,
    IPA_ADD_VLAN_IFACE, IPA_DEL_VLAN_IFACE, IPA_ADD_L2TP_VLAN_MAPPING, IPA_DEL_L2TP_VLAN_MAPPING,
    IPA_HANDLE_VLAN_CLIENT_INFO, IPA_HANDLE_VLAN_IFACE_INFO, IPACM_EVENT_MAX
  ]

  /** Up to the number of the last event, the external ones are those enumerated before the marker of that name. */
  lemma ExternalExact(e: Event)
    requires e < |ENUMERATION|
    ensures External(e) <==> IPA_EXTERNAL_EVENT_MAX !in ENUMERATION[..e + 1]
  {
    assert |FIRST_EVENTS| == EXTERNAL_EVENT_MAX && IPA_EXTERNAL_EVENT_MAX !in FIRST_EVENTS;
    if External(e) {
      assert ENUMERATION[..e + 1] == FIRST_EVENTS[..e + 1];
    } else {
      assert ENUMERATION[..e + 1][EXTERNAL_EVENT_MAX] == IPA_EXTERNAL_EVENT_MAX;
    }
  }

  datatype Consumer = Running | Sleeping | Woken | Processing(event: Event)

  datatype State = State(
    internal: seq<Event>,
    external: seq<Event>,
    consumer: Consumer,
    // history
    posted: seq<Event>,
    served: seq<Event>    // in the order in which they were taken
  )

  const INIT := State([], [], Running, [], [])

  datatype Step = Post(e: Event) | Serve | Resume | WakeSpuriously | Finish

  predicate Enabled(s: State, step: Step) {
    match step
    case Post(_) => true
    case Serve => s.consumer == Running
    case Resume => s.consumer == Woken
    case WakeSpuriously => s.consumer == Sleeping
    case Finish => s.consumer.Processing?
  }

  /** PostEvt enqueues and signals under the mutex; the consumer's lock, test and wait are one step as well. */
  function Apply(s: State, step: Step): State
    requires Enabled(s, step)
  {
    match step
    case Post(e) =>
      s.(internal := if External(e) then s.internal else s.internal + [e],
         external := if External(e) then s.external + [e] else s.external,
         consumer := if s.consumer == Sleeping then Woken else s.consumer,
         posted := s.posted + [e])
    case Serve =>
      if s.internal != [] then
        s.(internal := s.internal[1..], consumer := Processing(s.internal[0]), served := s.served + [s.internal[0]])
      else if s.external != [] then
        s.(external := s.external[1..], consumer := Processing(s.external[0]), served := s.served + [s.external[0]])
      else s.(consumer := Sleeping)
    case Resume => s.(consumer := Running)
    case WakeSpuriously => s.(consumer := Woken)
    case Finish => s.(consumer := Running)
  }

  function Run(s: State, steps: seq<Step>): Option<State>
    decreases |steps|
  {
    if steps == [] then Some(s)
    else if Enabled(s, steps[0]) then Run(Apply(s, steps[0]), steps[1..])
    else None
  }

  /** The two queues with the mutex and the condition variable that guard both. */
  class Dispatcher {
    const internal: MessageQueue
    const external: MessageQueue
    ghost var consumer: Consumer
    ghost var posted: seq<Event>
    ghost var served: seq<Event>

    ghost function Repr(): set<object>
      reads this, internal, external
    {
      {this, internal, external} + (set m | m in internal.nodes) + (set m | m in external.nodes)
    }

    ghost predicate Valid()
      reads Repr()
    {
      && internal != external && internal.Valid() && external.Valid()
      && forall i, j | 0 <= i < |internal.nodes| && 0 <= j < |external.nodes| :: internal.nodes[i] != external.nodes[j]
    }

    ghost function Model(): State
      reads this, internal, external
    {
      State(Events(internal.nodes), Events(external.nodes), consumer, posted, served)
    }

    constructor ()
      ensures Valid() && Model() == INIT && fresh(Repr())
    {
      internal := new MessageQueue();
      external := new MessageQueue();
      consumer, posted, served := Running, [], [];
    }

    /** IPACM_EvtDispatcher::PostEvt */
    method PostEvt(event: Event)
      requires Valid()
      modifies Repr()
      ensures Valid() && fresh(Repr() - old(Repr()))
      ensures Model() == Apply(old(Model()), Post(event))
      ensures Model().external == old(Model().external) + if event < EXTERNAL_EVENT_MAX then [event] else []
      ensures Model().internal == old(Model().internal) + if event < EXTERNAL_EVENT_MAX then [] else [event]
    {
      hide MessageQueue.Valid;
      var queue := if External(event) then external else internal;
      var item := new Message(event);
      queue.Enqueue(item);
      assert Events(queue.nodes) == Events(old(queue.nodes)) + [event];
      posted := posted + [event];
      if consumer == Sleeping { consumer := Woken; }
    }

    /** The consumer from taking the mutex to giving it up, either to process an event or to wait for one. */
    method ServeNext() returns (event: Option<Event>)
      requires Valid() && consumer == Running
      modifies this, internal, external
      ensures Valid() && Repr() <= old(Repr())
      ensures Model() == Apply(old(Model()), Serve)
      ensures match event
              case Some(e) => consumer == Processing(e)
              case None => consumer == Sleeping
    {
      hide MessageQueue.Valid;
      var item := internal.Dequeue();
      if item == null {
        item := external.Dequeue();
      }
      if item == null {
        consumer := Sleeping;
        event := None;
      } else {
        consumer := Processing(item.event);
        served := served + [item.event];
        event := Some(item.event);
      }
    }
  }

  /** The events of one kind, in order. */
  function OfKind(es: seq<Event>, external: bool): seq<Event> {
    if es == [] then []
    else
      var n := |es| - 1;
      OfKind(es[..n], external) + if External(es[n]) == external then [es[n]] else []
  }

  lemma OfKindAppend(es: seq<Event>, e: Event, external: bool)
    ensures OfKind(es + [e], external) == OfKind(es, external) + if External(e) == external then [e] else []
  {
    assert (es + [e])[..|es|] == es;
  }

  ghost predicate Inv(s: State) {
    && (s.consumer == Sleeping ==> s.internal == [] && s.external == [])
    && OfKind(s.posted, false) == OfKind(s.served, false) + s.internal
    && OfKind(s.posted, true) == OfKind(s.served, true) + s.external
    && (forall i | 0 <= i < |s.internal| :: !External(s.internal[i]))
    && (forall i | 0 <= i < |s.external| :: External(s.external[i]))
    && (s.consumer.Processing? ==> s.served != [] && s.consumer.event == s.served[|s.served| - 1])
  }

  lemma InvKept(s: State, step: Step)
    requires Inv(s) && Enabled(s, step)
    ensures Inv(Apply(s, step))
  {
    hide OfKind;
    match step {
      case Post(e) =>
        OfKindAppend(s.posted, e, true);
        OfKindAppend(s.posted, e, false);
      case Serve =>
        var e := if s.internal != [] then s.internal[0] else if s.external != [] then s.external[0] else 0;
        OfKindAppend(s.served, e, true);
        OfKindAppend(s.served, e, false);
      case _ =>
    }
  }

  lemma {:induction false} RunKeeps(s: State, steps: seq<Step>)
    requires Inv(s) && Run(s, steps).Some?
    ensures Inv(Run(s, steps).value)
    decreases |steps|
  {
    if steps != [] {
      InvKept(s, steps[0]);
      RunKeeps(Apply(s, steps[0]), steps[1..]);
    }
  }

  /**
   * Over any run each kind of event is served in posting order, nothing is lost or repeated, and the
   * consumer sleeps only while both queues are empty.
   */
  lemma ServedInOrder(steps: seq<Step>)
    requires Run(INIT, steps).Some?
    ensures var s := Run(INIT, steps).value;
      && OfKind(s.posted, false) == OfKind(s.served, false) + s.internal
      && OfKind(s.posted, true) == OfKind(s.served, true) + s.external
      && (s.consumer == Sleeping ==> s.internal == [] && s.external == [])
      && (s.consumer.Processing? ==> s.served != [] && s.consumer.event == s.served[|s.served| - 1])
  {
    RunKeeps(INIT, steps);
  }

  /** An external event is served only when no internal one is waiting. */
  lemma InternalFirst(steps: seq<Step>)
    requires Run(INIT, steps).Some? && Run(INIT, steps).value.consumer == Running
    ensures var s := Run(INIT, steps).value;
      var s' := Apply(s, Serve);
      s'.consumer.Processing? ==> (External(s'.consumer.event) <==> s.internal == [])
  {
    RunKeeps(INIT, steps);
  }
}
