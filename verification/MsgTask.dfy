/** The queue between the threads that send messages and the one that processes them, over MsgQ. */
module MsgTask {
  import opened Optional
  import opened LinkedList
  import opened MsgQueue
  import opened Sequences

  /** The objects at the addresses. */
  function ObjectsAt<Msg>(addrs: seq<Data>, objects: map<Data, Msg>): (r: seq<Msg>)
    requires forall i | 0 <= i < |addrs| :: addrs[i] in objects
    ensures |r| == |addrs| && forall i | 0 <= i < |r| :: r[i] == objects[addrs[i]]
  {
    seq(|addrs|, i requires 0 <= i < |addrs| => objects[addrs[i]])
  }

  /** The list has the addresses of the pending messages. */
  ghost predicate Holds<Msg>(list: seq<Data>, objects: map<Data, Msg>, pending: seq<Msg>) {
    && (forall i | 0 <= i < |list| :: list[i] in objects)
    && Distinct(list)
    && pending == ObjectsAt(list, objects)
  }

  lemma HoldsOneMore<Msg>(list: seq<Data>, objects: map<Data, Msg>, pending: seq<Msg>, addr: Data, msg: Msg)
    requires Holds(list, objects, pending) && addr !in objects
    ensures Holds(list + [addr], objects[addr := msg], pending + [msg])
  {
  }

  lemma HoldsOneLess<Msg>(list: seq<Data>, objects: map<Data, Msg>, pending: seq<Msg>)
    requires Holds(list, objects, pending)
    ensures list == [] <==> pending == []
    ensures list != [] ==> list[0] in objects && objects[list[0]] == pending[0] && list[0] !in list[1..]
    ensures list != [] ==> Holds(list[1..], objects, pending[1..])
  {
  }

  lemma HoldsElsewhere<Msg>(list: seq<Data>, objects: map<Data, Msg>, pending: seq<Msg>, addr: Data)
    requires Holds(list, objects, pending) && addr !in list
    ensures Holds(list, objects - {addr}, pending)
  {
  }

  lemma FreeAddress(taken: set<Data>)
    ensures exists addr: Data :: addr != NULL && addr !in taken
  {
    var top: Data := 0;
    var rest := taken;
    while rest != {}
      invariant rest <= taken && forall a | a in taken && a !in rest :: a <= top
      decreases rest
    {
      var a :| a in rest;
      rest := rest - {a};
      if a > top { top := a; }
    }
    assert top + 1 != NULL && top + 1 !in taken;
  }

  class MsgTask<Msg> {
    const queue: MsgQ
    var objects: map<Data, Msg>      // the message objects that have not been deleted, by address

    ghost var pending: seq<Msg>      // the messages sent and not received yet, oldest first
    ghost var repr: set<object>

    ghost predicate Valid()
      reads this, repr
    {
      && this in repr && queue in repr && queue.msgList in repr && (forall e | e in queue.msgList.elems :: e in repr)
      && queue.Valid() && !queue.unblocked
      && Holds(queue.Model().list, objects, pending)
    }

    constructor ()
      ensures Valid() && pending == [] && fresh(repr)
    {
      queue := new MsgQ();
      objects, pending := map[], [];
      new;
      repr := {this, queue, queue.msgList};
      assert queue.Model().list == [];
    }

    /** An address for a new message. */
    method Allocate() returns (addr: Data)
      ensures addr != NULL && addr !in objects
    {
      FreeAddress(objects.Keys);
      addr :| addr != NULL && addr !in objects;
    }

    /** MsgTask::sendMsg of a new message object. */
    method SendMsg(msg: Msg)
      requires Valid()
      modifies repr
      ensures Valid() && fresh(repr - old(repr))
      ensures pending == old(pending) + [msg]
    {
      hide Holds;
      var addr := Allocate();
      HoldsOneMore(queue.Model().list, objects, pending, addr, msg);
      ghost var list := queue.Model().list;
      var _, _ := queue.Snd(addr, true);
      assert queue.Model().list == list + [addr];
      objects := objects[addr := msg];
      pending := pending + [msg];
      repr := repr + set e | e in queue.msgList.elems;
    }

    /** MsgTask::run up to the handling of the message; None if there is none and the thread has to wait. */
    method Receive() returns (msg: Option<Msg>, addr: Data)
      requires Valid()
      modifies repr
      ensures Valid() && repr == old(repr)
      ensures msg == if old(pending) == [] then None else Some(old(pending)[0])
      ensures pending == if old(pending) == [] then [] else old(pending)[1..]
      ensures msg.Some? ==> addr in objects && objects[addr] == msg.value && addr !in queue.Model().list
    {
      hide Holds, MsgQ.Valid, Payloads;
      HoldsOneLess(queue.Model().list, objects, pending);
      ghost var list := queue.Model().list;
      var result := queue.Rcv(false);
      msg, addr := None, NULL;
      if result.Got? {
        addr := result.data;
        msg := Some(objects[addr]);
        assert queue.Model().list == list[1..] && list[0] == addr;
        pending := pending[1..];
      }
    }

    /** The deletion of a message that has been handled leaves those still pending alone. */
    method Delete(addr: Data)
      requires Valid() && addr in objects && addr !in queue.Model().list
      modifies this`objects
      ensures Valid() && objects == old(objects) - {addr}
    {
      hide Holds;
      HoldsElsewhere(queue.Model().list, objects, pending, addr);
      objects := objects - {addr};
    }

    /** One round of MsgTask::run for a handler that only reads its message. */
    method Take() returns (msg: Msg)
      requires Valid() && pending != []
      modifies repr
      ensures Valid() && repr == old(repr)
      ensures msg == old(pending)[0] && pending == old(pending)[1..]
    {
      var received, addr := Receive();
      Delete(addr);
      msg := received.value;
    }
  }
}
