/** The doubly linked list under the message queue: added to at its head, taken from at its tail. */
module LinkedList {
  import opened Optional
  import opened Sequences

  datatype Status = SUCCESS | INVALID_PARAMETER | UNAVAILABLE_RESOURCE

  type Data = nat          // a pointer to a client's object
  const NULL: Data := 0

  /** An element's payload: the client's pointer, and whether the client gave a function to free it. */
  datatype Item = Item(data: Data, owned: bool)

  class ListElement {
    const item: Item
    var next: ListElement?
    var prev: ListElement?

    constructor (item: Item)
      ensures this.item == item && next == null && prev == null
    {
      this.item := item;
      next, prev := null, null;
    }
  }

  function At(elems: seq<ListElement>, i: int): ListElement? {
    if 0 <= i < |elems| then elems[i] else null
  }

  ghost predicate LinkedAt(elems: seq<ListElement>, i: nat)
    requires i < |elems|
    reads elems[i]
  {
    elems[i].prev == At(elems, i + 1) && elems[i].next == At(elems, i - 1)
  }

  function Without<T>(s: seq<T>, k: nat): seq<T>
    requires k < |s|
  {
    s[..k] + s[k + 1..]
  }

  function Items(elems: seq<ListElement>): (r: seq<Item>)
    ensures |r| == |elems| && forall i | 0 <= i < |r| :: r[i] == elems[i].item
  {
    seq(|elems|, i requires 0 <= i < |elems| => elems[i].item)
  }

  /** The data handed to free functions when the items are dropped from the youngest to the oldest. */
  function Freed(items: seq<Item>): seq<Data> {
    if items == [] then []
    else
      var last := items[|items| - 1];
      (if last.owned then [last.data] else []) + Freed(items[..|items| - 1])
  }

  /** Where the list has this payload as one that it owns. */
  function OwnedAt(items: seq<Item>, d: Data): set<int> {
    set i | 0 <= i < |items| && items[i] == Item(d, true)
  }

  lemma OwnedStep(items: seq<Item>, d: Data)
    requires items != []
    ensures var n := |items| - 1;
      |OwnedAt(items, d)| == |OwnedAt(items[..n], d)| + if items[n] == Item(d, true) then 1 else 0
  {
    var n := |items| - 1;
    assert OwnedAt(items, d) == OwnedAt(items[..n], d) + if items[n] == Item(d, true) then {n} else {};
  }

  /** Every owned payload is freed as often as it is in the list, and no other payload is. */
  lemma {:induction false} FreedExact(items: seq<Item>, d: Data)
    ensures multiset(Freed(items))[d] == |OwnedAt(items, d)|
  {
    hide OwnedAt;
    if items == [] {
      NothingOwned(d);
    } else {
      OwnedStep(items, d);
      FreedExact(items[..|items| - 1], d);
    }
  }

  lemma NothingOwned(d: Data)
    ensures OwnedAt([], d) == {}
  {
  }

  /** What is younger is freed first. */
  lemma {:induction false} YoungerFreedFirst(older: seq<Item>, younger: seq<Item>)
    ensures Freed(older + younger) == Freed(younger) + Freed(older)
  {
    if younger == [] {
      assert older + younger == older;
    } else {
      var n := |younger| - 1;
      assert (older + younger)[..|older| + n] == older + younger[..n];
      YoungerFreedFirst(older, younger[..n]);
    }
  }

  lemma FreedStep(items: seq<Item>, n: nat, freed: seq<Data>)
    requires 0 < n <= |items|
    ensures freed + Freed(items[..n]) ==
            (if items[n - 1].owned then freed + [items[n - 1].data] else freed) + Freed(items[..n - 1])
  {
    assert items[..n][..n - 1] == items[..n - 1];
  }

  lemma FreedNone(items: seq<Item>)
    ensures Freed(items[..0]) == []
  {
  }

  /** The youngest item that satisfies equal, as an index from the oldest. */
  function YoungestMatch(items: seq<Item>, equal: Data -> bool): (r: Option<nat>)
    ensures r.Some? ==> r.value < |items|
  {
    if items == [] then None
    else if equal(items[|items| - 1].data) then Some(|items| - 1)
    else YoungestMatch(items[..|items| - 1], equal)
  }

  lemma {:induction false} YoungestMatchExact(items: seq<Item>, equal: Data -> bool)
    ensures match YoungestMatch(items, equal)
      case None => forall i | 0 <= i < |items| :: !equal(items[i].data)
      case Some(k) => equal(items[k].data) && forall i | k < i < |items| :: !equal(items[i].data)
  {
    if items != [] && !equal(items[|items| - 1].data) {
      YoungestMatchExact(items[..|items| - 1], equal);
    }
  }

  lemma WithoutAt(elems: seq<ListElement>, k: nat, i: int)
    requires k < |elems|
    ensures At(Without(elems, k), i) == At(elems, if i < k then i else i + 1)
  {
  }

  lemma WithoutDistinct(elems: seq<ListElement>, k: nat)
    requires k < |elems| && Distinct(elems)
    ensures Distinct(Without(elems, k)) && elems[k] !in Without(elems, k)
  {
  }

  class LinkedList {
    var head: ListElement?
    var tail: ListElement?
    ghost var elems: seq<ListElement>   // from the tail, the oldest, to the head

    ghost predicate Valid()
      reads this, elems
    {
      && tail == At(elems, 0) && head == At(elems, |elems| - 1)
      && (forall i | 0 <= i < |elems| :: LinkedAt(elems, i))
      && Distinct(elems)
    }

    /** The items, oldest first. */
    ghost function Contents(): seq<Item>
      reads this
    {
      Items(elems)
    }

    constructor ()
      ensures Valid() && elems == []
    {
      head, tail, elems := null, null, [];
    }

    method Add(data: Data, owned: bool) returns (status: Status)
      requires Valid()
      modifies this, elems
      ensures Valid() && fresh(set e | e in elems && e !in old(elems))
      ensures data == NULL ==> status == INVALID_PARAMETER && elems == old(elems)
      ensures data != NULL ==> status == SUCCESS && Contents() == old(Contents()) + [Item(data, owned)]
    {
      if data == NULL { return INVALID_PARAMETER; }
      var elem := new ListElement(Item(data, owned));
      var tmp := head;
      head := elem;
      elem.next := tmp;
      if tmp != null {
        assert LinkedAt(elems, |elems| - 1);
        tmp.prev := head;
      } else {
        tail := head;
      }
      ghost var elems0 := elems;
      elems := elems + [elem];
      forall i | 0 <= i < |elems| ensures LinkedAt(elems, i) {
        assert i < |elems0| ==> old(LinkedAt(elems0, i));
      }
      status := SUCCESS;
    }

    method Remove() returns (status: Status, data: Data)
      requires Valid()
      modifies this, elems
      ensures Valid()
      ensures old(elems) == [] ==> status == UNAVAILABLE_RESOURCE && elems == []
      ensures old(elems) != [] ==>
        status == SUCCESS && elems == old(elems)[1..] && data == old(Contents())[0].data
    {
      data := NULL;
      if tail == null { return UNAVAILABLE_RESOURCE, NULL; }
      assert LinkedAt(elems, 0);
      var tmp := tail;
      tail := tmp.prev;
      if tail != null {
        assert LinkedAt(elems, 1);
        tail.next := null;
      } else {
        head := tail;
      }
      ghost var elems0 := elems;
      elems := elems[1..];
      forall i | 0 <= i < |elems| ensures LinkedAt(elems, i) {
        assert old(LinkedAt(elems0, i + 1));
      }
      return SUCCESS, tmp.item.data;
    }

    method Empty() returns (empty: bool)
      requires Valid()
      ensures empty <==> Contents() == []
    {
      empty := head == null;
    }

    /** Frees the elements from the head on; freed lists the data handed to free functions. */
    method Flush() returns (status: Status, freed: seq<Data>)
      requires Valid()
      modifies this
      ensures Valid() && status == SUCCESS && Contents() == []
      ensures freed == Freed(old(Contents()))
    {
      hide Freed;
      freed := [];
      ghost var items := Contents();
      ghost var n: nat := |items|;
      assert items[..n] == items;
      while head != null
        invariant n <= |elems| == |items| && elems == old(elems) && head == At(elems, n - 1)
        invariant forall i | 0 <= i < |elems| :: LinkedAt(elems, i)
        invariant Freed(items) == freed + Freed(items[..n])
        decreases n
      {
        assert LinkedAt(elems, n - 1);
        FreedStep(items, n, freed);
        var tmp := head.next;
        if head.item.owned {
          freed := freed + [head.item.data];
        }
        head := tmp;
        n := n - 1;
      }
      FreedNone(items);
      tail := null;
      elems := [];
      status := SUCCESS;
    }

    /** Unlinks the k-th element, which tmp points to. */
    method Unlink(tmp: ListElement, ghost k: nat)
      requires Valid() && k < |elems| && tmp == elems[k]
      modifies this, elems
      ensures Valid() && elems == Without(old(elems), k)
    {
      assert LinkedAt(elems, k);
      assert k > 0 ==> LinkedAt(elems, k - 1);
      assert k + 1 < |elems| ==> LinkedAt(elems, k + 1);
      ghost var elems0 := elems;
      if tmp.prev == null {
        head := tmp.next;
      } else {
        tmp.prev.next := tmp.next;
      }
      if tmp.next == null {
        tail := tmp.prev;
      } else {
        tmp.next.prev := tmp.prev;
      }
      elems := Without(elems, k);
      WithoutDistinct(elems0, k);
      WithoutAt(elems0, k, 0);
      WithoutAt(elems0, k, |elems| - 1);
      hide Without, At, Distinct;
      forall i | 0 <= i < |elems| ensures LinkedAt(elems, i) {
        ghost var j := if i < k then i else i + 1;
        assert old(LinkedAt(elems0, j)) && elems[i] == elems0[j];
        WithoutAt(elems0, k, i + 1);
        WithoutAt(elems0, k, i - 1);
      }
      tmp.prev, tmp.next := null, null;
    }

    /**
     * Looks for the youngest item that satisfies equal and, if so told, removes it.  The item is
     * freed when it is removed without being copied out.  written is what is stored through the
     * caller's pointer, if anything.
     */
    method Search(equal: Data -> bool, copyOut: bool, removeIfFound: bool)
        returns (status: Status, written: Option<Data>, freed: seq<Data>)
      requires Valid()
      modifies this, elems
      ensures Valid()
      ensures var items := old(Contents());
        var k := YoungestMatch(items, equal);
        && (items == [] <==> status == UNAVAILABLE_RESOURCE) && (items != [] <==> status == SUCCESS)
        && (written.Some? <==> copyOut && items != [])
        && (k.None? ==> elems == old(elems) && (written.Some? ==> written == Some(NULL)) && freed == [])
        && (k.Some? ==>
              && elems == (if removeIfFound then Without(old(elems), k.value) else old(elems))
              && (copyOut ==> written == Some(items[k.value].data))
              && freed == (if removeIfFound && !copyOut && items[k.value].owned then [items[k.value].data] else []))
    {
      status, written, freed := UNAVAILABLE_RESOURCE, None, [];
      if tail == null { return; }
      status := SUCCESS;
      var tmp := head;
      if copyOut { written := Some(NULL); }
      ghost var items := Contents();
      ghost var n: nat := |items|;
      assert items[..n] == items;
      while tmp != null
        invariant n <= |elems| == |items| && tmp == At(elems, n - 1)
        invariant unchanged(this) && unchanged(elems)
        invariant YoungestMatch(items, equal) == YoungestMatch(items[..n], equal)
        decreases n
      {
        assert LinkedAt(elems, n - 1);
        assert items[..n][..n - 1] == items[..n - 1];
        if equal(tmp.item.data) {
          if copyOut { written := Some(tmp.item.data); }
          if removeIfFound {
            Unlink(tmp, n - 1);
            if !copyOut && tmp.item.owned { freed := [tmp.item.data]; }
          }
          return;
        }
        tmp := tmp.next;
        n := n - 1;
      }
    }
  }
}
