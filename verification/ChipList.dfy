/** The sorted, duplicate-free list of chips that dtbtool builds from the DTB files it finds. */
module ChipList {
  import opened Optional
  import opened Sequences
  import opened Words

  /** What the index table says of a chip. */
  datatype Info = Info(chipset: Word, platform: Word, subtype: Word, revNum: Word,
                       pmic: (Word, Word, Word, Word), model: seq<Byte>)

  /** The order of the list: by chipset, platform, subtype and revision. */
  predicate Before(a: Info, b: Info) {
    || a.chipset < b.chipset
    || (a.chipset == b.chipset
        && (|| a.platform < b.platform
            || (a.platform == b.platform
                && (|| a.subtype < b.subtype
                    || (a.subtype == b.subtype && a.revNum < b.revNum)))))
  }

  predicate Duplicate(a: Info, b: Info) {
    && a.chipset == b.chipset && a.platform == b.platform && a.subtype == b.subtype && a.revNum == b.revNum
    && a.pmic == b.pmic
  }

  /** The four numbers that the list is sorted by, the chipset first. */
  function Key(a: Info): nat {
    ((a.chipset * WORD_RANGE + a.platform) * WORD_RANGE + a.subtype) * WORD_RANGE + a.revNum
  }

  lemma BeforeExact(a: Info, b: Info)
    ensures Before(a, b) <==> Key(a) < Key(b)
  {
  }

  /** Duplicates differ in nothing but the model. */
  lemma DuplicateExact(a: Info, b: Info)
    ensures Duplicate(a, b) <==> a.(model := b.model) == b
  {
  }

  ghost predicate Sorted(s: seq<Info>) {
    forall i, j | 0 <= i < j < |s| :: !Before(s[j], s[i])
  }

  ghost predicate NoDuplicates(s: seq<Info>) {
    forall i, j | 0 <= i < j < |s| :: !Duplicate(s[i], s[j])
  }

  /** Where the scan of chip_add puts x, or None if it meets a duplicate first. */
  function Place(s: seq<Info>, x: Info): (r: Option<nat>)
    ensures r.Some? ==> r.value <= |s|
  {
    if s == [] || Before(x, s[0]) then Some(0)
    else if Duplicate(x, s[0]) then None
    else
      var rest := Place(s[1..], x);
      if rest.None? then None else Some(rest.value + 1)
  }

  function Insert(s: seq<Info>, i: nat, x: Info): seq<Info>
    requires i <= |s|
  {
    s[..i] + [x] + s[i..]
  }

  /** The place found is behind everything that x is not before, and no duplicate is there. */
  lemma {:induction false} PlaceSplits(s: seq<Info>, x: Info)
    ensures match Place(s, x)
      case None => exists i | 0 <= i < |s| :: Duplicate(x, s[i])
      case Some(k) =>
        && (forall i | 0 <= i < k :: !Before(x, s[i]) && !Duplicate(x, s[i]))
        && (k < |s| ==> Before(x, s[k]))
  {
    if s != [] && !Before(x, s[0]) && !Duplicate(x, s[0]) {
      PlaceSplits(s[1..], x);
      match Place(s[1..], x) {
        case None =>
          var i :| 0 <= i < |s[1..]| && Duplicate(x, s[1..][i]);
          assert Duplicate(x, s[i + 1]);
        case Some(k) =>
          assert forall i | 0 < i < k + 1 :: s[i] == s[1..][i - 1];
      }
    }
  }

  /** On a sorted, duplicate-free list, adding fails exactly on duplicates, and keeps the list so. */
  lemma AddExact(s: seq<Info>, x: Info)
    requires Sorted(s) && NoDuplicates(s)
    ensures Place(s, x).None? <==> exists i | 0 <= i < |s| :: Duplicate(x, s[i])
    ensures Place(s, x).Some? ==>
      Sorted(Insert(s, Place(s, x).value, x)) && NoDuplicates(Insert(s, Place(s, x).value, x))
  {
    PlaceSplits(s, x);
    if Place(s, x).Some? {
      var k := Place(s, x).value;
      forall i | k <= i < |s| ensures Before(x, s[i]) {
        assert i > k ==> !Before(s[i], s[k]);
      }
    }
  }

  class Chip {
    const info: Info
    var dtbSize: nat
    var dtbFile: Option<nat>    // which input file, once the chip is registered as a master
    var prev: Chip?
    var next: Chip?
    var master: Chip?
    var wroteDtb: bool
    var masterOffset: nat

    constructor (info: Info)
      ensures this.info == info && dtbSize == 0 && dtbFile == None && master == null
      ensures !wroteDtb && masterOffset == 0 && prev == null && next == null
    {
      this.info := info;
      dtbSize, dtbFile := 0, None;
      prev, next, master := null, null, null;
      wroteDtb, masterOffset := false, 0;
    }
  }

  function Infos(nodes: seq<Chip>): (r: seq<Info>)
    ensures |r| == |nodes| && forall i | 0 <= i < |r| :: r[i] == nodes[i].info
  {
    seq(|nodes|, i requires 0 <= i < |nodes| => nodes[i].info)
  }

  /** The link from the i-th node forward or backward, null beyond the ends. */
  function NodeAt(nodes: seq<Chip>, i: int): Chip? {
    if 0 <= i < |nodes| then nodes[i] else null
  }

  ghost predicate LinkedAt(nodes: seq<Chip>, i: nat)
    requires i < |nodes|
    reads nodes[i]
  {
    nodes[i].next == NodeAt(nodes, i + 1) && nodes[i].prev == NodeAt(nodes, i - 1)
  }

  ghost predicate Linked(head: Chip?, nodes: seq<Chip>)
    reads nodes
  {
    && head == NodeAt(nodes, 0)
    && (forall i | 0 <= i < |nodes| :: LinkedAt(nodes, i))
    && Distinct(nodes)
  }

  function Spliced(nodes: seq<Chip>, i: nat, c: Chip): seq<Chip>
    requires i <= |nodes|
  {
    nodes[..i] + [c] + nodes[i..]
  }

  /** The list once the scan has put c where it belongs, if it is no duplicate. */
  function Placed(nodes: seq<Chip>, c: Chip): seq<Chip> {
    var k := Place(Infos(nodes), c.info);
    if k.Some? then Spliced(nodes, k.value, c) else nodes
  }

  lemma SplicedAt(nodes: seq<Chip>, i: nat, c: Chip, j: int)
    requires i <= |nodes|
    ensures NodeAt(Spliced(nodes, i, c), j) ==
            if j < i then NodeAt(nodes, j) else if j == i then c else NodeAt(nodes, j - 1)
  {
  }

  lemma SplicedMembers(nodes: seq<Chip>, i: nat, c: Chip)
    requires i <= |nodes|
    ensures |Spliced(nodes, i, c)| == |nodes| + 1
    ensures c in Spliced(nodes, i, c)
    ensures forall j | 0 <= j < |nodes| :: nodes[j] in Spliced(nodes, i, c)
    ensures forall j | 0 <= j < |Spliced(nodes, i, c)| :: Spliced(nodes, i, c)[j] in nodes + [c]
  {
    var s := Spliced(nodes, i, c);
    assert s[i] == c;
    assert forall j | 0 <= j < |nodes| :: nodes[j] == s[if j < i then j else j + 1];
  }

  lemma PlacedMembers(nodes: seq<Chip>, c: Chip)
    ensures var added := Place(Infos(nodes), c.info).Some?;
      && |Placed(nodes, c)| == |nodes| + (if added then 1 else 0)
      && if added then c in Placed(nodes, c) else Placed(nodes, c) == nodes
    ensures forall j | 0 <= j < |nodes| :: nodes[j] in Placed(nodes, c)
    ensures forall j | 0 <= j < |Placed(nodes, c)| :: Placed(nodes, c)[j] in nodes + [c]
  {
    var k := Place(Infos(nodes), c.info);
    if k.Some? { SplicedMembers(nodes, k.value, c); }
  }

  lemma SplicedDistinct(nodes: seq<Chip>, i: nat, c: Chip)
    requires i <= |nodes| && c !in nodes && Distinct(nodes)
    ensures Distinct(Spliced(nodes, i, c))
  {
  }

  /** Neither pass of the output has come to m yet. */
  ghost predicate Untouched(m: Chip)
    reads m
  {
    m.masterOffset == 0 && !m.wroteDtb
  }

  /** An input file, by its place in the directory, and its size. */
  datatype Source = Source(file: nat, size: nat)

  /** What a chip holds besides its links in the list. */
  datatype Record = Record(dtbSize: nat, dtbFile: Option<nat>, master: Chip?, wroteDtb: bool, masterOffset: nat)

  function RecordOf(n: Chip): Record
    reads n
  {
    Record(n.dtbSize, n.dtbFile, n.master, n.wroteDtb, n.masterOffset)
  }

  /** A master with whole pages for that file, to which neither pass of the output has come yet. */
  ghost predicate MasterOf(m: Record, source: Source, pageSize: nat)
    requires pageSize > 0
  {
    && m.dtbFile == Some(source.file) && source.size < m.dtbSize <= source.size + pageSize
    && Aligned(m.dtbSize, pageSize) && m.masterOffset == 0 && !m.wroteDtb
  }

  ghost predicate ComesFrom(group: seq<Chip>, source: Source, from: map<Chip, Source>) {
    forall g | g in group :: g in from && from[g] == source
  }

  class ChipTable {
    var chipList: Chip?
    ghost var nodes: seq<Chip>

    ghost predicate Valid()
      reads this, nodes
    {
      Linked(chipList, nodes)
    }

    constructor ()
      ensures Valid() && nodes == []
    {
      chipList := null;
      nodes := [];
    }

    method ChipAdd(c: Chip) returns (success: bool)
      requires Valid() && c !in nodes
      modifies this, c, nodes
      ensures Valid()
      ensures success <==> Place(Infos(old(nodes)), c.info).Some?
      ensures nodes == Placed(old(nodes), c)
      ensures SameButLinks(c) && forall n | n in nodes :: SameButLinks(n)
    {
      success := true;
      ghost var i := 0;
      var x := chipList;
      if chipList == null {
        chipList := c;
        c.next, c.prev := null, null;
        nodes := [c];
        return;
      }
      while true
        invariant 0 <= i < |nodes| && x == nodes[i]
        invariant unchanged(this) && unchanged(c) && unchanged(nodes)
        invariant Place(Infos(nodes), c.info) == Shift(Place(Infos(nodes)[i..], c.info), i)
        decreases |nodes| - i
      {
        hide Spliced, Distinct, Before, Duplicate;
        assert LinkedAt(nodes, i);
        if Before(c.info, x.info) {
          LinkBefore(c, x, i);
          return;
        }
        if Duplicate(c.info, x.info) {
          return false;
        }
        if x.next == null {
          assert Infos(nodes)[i..][1..] == [];
          LinkLast(c, x);
          return;
        }
        assert Infos(nodes)[i..][1..] == Infos(nodes)[i + 1..];
        x := x.next;
        i := i + 1;
      }
    }

    /** Gives a listed chip its input file, and a size that leaves room for padding. */
    method SetFile(chip: Chip, file: nat, fileSize: nat, pageSize: nat)
      requires Valid() && chip in nodes && pageSize > 0 && fileSize > 0 && Untouched(chip)
      modifies chip`dtbSize, chip`dtbFile
      ensures Valid() && MasterOf(RecordOf(chip), Source(file, fileSize), pageSize) && chip.master == old(chip.master)
    {
      chip.dtbSize := fileSize + (pageSize - fileSize % pageSize);
      chip.dtbFile := Some(file);
      PaddedIsAligned(fileSize, pageSize);
      assert forall i | 0 <= i < |nodes| :: old(LinkedAt(nodes, i)) ==> LinkedAt(nodes, i);
    }

    ghost predicate MasterListed(g: Chip, pageSize: nat, from: map<Chip, Source>)
      requires pageSize > 0
      reads this, g, g.master
    {
      var m := RecordOf(g).master;
      m != null && m in nodes && g in from && MasterOf(RecordOf(m), from[g], pageSize)
    }

    /** Every listed chip's master is listed, with the chip's input file and a size of whole pages. */
    ghost predicate Complete(pageSize: nat, from: map<Chip, Source>)
      requires pageSize > 0
      reads this, nodes, set n | n in nodes :: n.master
    {
      forall n | n in nodes :: MasterListed(n, pageSize, from)
    }

    /** Adds one chip of a group whose master is listed; the others remain to be added. */
    method AddMember(rest: seq<Chip>, j: nat, pageSize: nat, ghost from: map<Chip, Source>) returns (added: bool)
      requires Valid() && pageSize > 0 && Complete(pageSize, from) && j < |rest| && Distinct(rest)
      requires forall l | j <= l < |rest| :: rest[l] !in nodes && MasterListed(rest[l], pageSize, from)
      modifies this, nodes, rest[j]
      ensures Valid() && Complete(pageSize, from)
      ensures forall l | j < l < |rest| :: rest[l] !in nodes && MasterListed(rest[l], pageSize, from)
      ensures forall l | 0 <= l < |nodes| :: nodes[l] in old(nodes) + [rest[j]]
      ensures |nodes| == |old(nodes)| + if added then 1 else 0
      ensures nodes == Placed(old(nodes), rest[j]) && added == Place(Infos(old(nodes)), rest[j].info).Some?
    {
      hide Linked, Place, Placed, MasterOf, RecordOf, Infos;
      var g := rest[j];
      PlacedMembers(nodes, g);
      added := ChipAdd(g);
      forall n | n in nodes ensures MasterListed(n, pageSize, from) {
        assert n in old(nodes) + [g];
        assert old(MasterListed(n, pageSize, from));
      }
      forall l | j < l < |rest| ensures rest[l] !in nodes && MasterListed(rest[l], pageSize, from) {
        assert rest[l] !in old(nodes) + [g];
        assert old(MasterListed(rest[l], pageSize, from));
      }
    }

    /** Adds the first chip of a group, the master of all, with the file of the group. */
    method AddMaster(group: seq<Chip>, file: nat, fileSize: nat, pageSize: nat, ghost from: map<Chip, Source>)
        returns (added: bool)
      requires Valid() && pageSize > 0 && fileSize > 0 && Complete(pageSize, from)
      requires group != [] && Distinct(group) && Untouched(group[0])
      requires forall g | g in group :: g !in nodes && g.master == group[0]
      requires ComesFrom(group, Source(file, fileSize), from)
      modifies this, nodes, group[0]
      ensures Valid() && Complete(pageSize, from)
      ensures added ==> forall l | 1 <= l < |group| :: group[l] !in nodes && MasterListed(group[l], pageSize, from)
      ensures forall l | 0 <= l < |nodes| :: nodes[l] in old(nodes) || nodes[l] == group[0]
      ensures |nodes| == |old(nodes)| + if added then 1 else 0
      ensures nodes == Placed(old(nodes), group[0]) && added == Place(Infos(old(nodes)), group[0].info).Some?
    {
      hide Linked, Place, Placed, Aligned, Infos;
      var chip := group[0];
      PlacedMembers(nodes, chip);
      added := ChipAdd(chip);
      if added {
        SetFile(chip, file, fileSize, pageSize);
        forall l | 1 <= l < |group| ensures group[l] !in nodes && MasterListed(group[l], pageSize, from) {
          assert group[l] !in old(nodes) + [chip];
        }
      }
      forall n | n in nodes ensures MasterListed(n, pageSize, from) {
        assert n in old(nodes) + [chip];
        if n != chip { assert n in old(nodes) && n.master in old(nodes); }
      }
    }

    /** Adds the chips of a group behind its master. */
    method AddMembers(group: seq<Chip>, pageSize: nat, ghost from: map<Chip, Source>) returns (count: nat)
      requires Valid() && pageSize > 0 && Complete(pageSize, from) && group != [] && Distinct(group)
      requires forall l | 1 <= l < |group| :: group[l] !in nodes && MasterListed(group[l], pageSize, from)
      modifies this, nodes, group
      ensures Valid() && Complete(pageSize, from)
      ensures |nodes| == |old(nodes)| + count
      ensures forall l | 0 <= l < |nodes| :: nodes[l] in old(nodes) || nodes[l] in group
      ensures Infos(nodes) == AddAll(Infos(old(nodes)), Infos(group[1..]))
    {
      hide Linked, Place, AddAll, Complete, Spliced, Infos, MasterListed;
      count := 0;
      for j := 1 to |group|
        invariant Valid() && Complete(pageSize, from)
        invariant forall l | j <= l < |group| :: group[l] !in nodes && MasterListed(group[l], pageSize, from)
        invariant forall l | 0 <= l < |nodes| :: nodes[l] in old(nodes) || nodes[l] in group
        invariant |nodes| == |old(nodes)| + count
        invariant AddAll(Infos(nodes), Infos(group[j..])) == AddAll(Infos(old(nodes)), Infos(group[1..]))
      {
        AddAllStep(nodes, group[j..]);
        assert group[j..][1..] == group[j + 1..];
        var added := AddMember(group, j, pageSize, from);
        if added { count := count + 1; }
      }
      assert group[|group|..] == [];
      NothingToAdd(nodes);
    }

    /** The part of find_dtb that enters the chips of one DTB file. */
    method Register(group: seq<Chip>, file: nat, fileSize: nat, pageSize: nat, ghost from: map<Chip, Source>)
        returns (count: nat)
      requires Valid() && pageSize > 0 && Complete(pageSize, from)
      requires group != [] && Distinct(group) && Untouched(group[0])
      requires forall g | g in group :: g !in nodes && g.master == group[0]
      requires ComesFrom(group, Source(file, fileSize), from)
      modifies this, nodes, group
      ensures Valid() && Complete(pageSize, from)
      ensures |nodes| == |old(nodes)| + count
      ensures forall l | 0 <= l < |nodes| :: nodes[l] in old(nodes) || nodes[l] in group
      ensures Infos(nodes) == AfterFile(Infos(old(nodes)), Infos(group), fileSize)
    {
      hide Valid, Place, AddAll, Complete, Spliced, MasterListed, Infos, AfterFile, Distinct, Untouched;
      count := 0;
      FileStep(nodes, group, fileSize);
      if fileSize == 0 { return; }
      var added := AddMaster(group, file, fileSize, pageSize, from);
      if added {
        count := AddMembers(group, pageSize, from);
        count := count + 1;
      }
    }

    /** The files from the i-th on are still to be registered. */
    ghost predicate Waiting(groups: seq<seq<Chip>>, i: nat, chips: set<Chip>)
      reads this, chips
    {
      && (forall l | 0 <= l < |nodes| :: nodes[l] in chips)
      && forall j | i <= j < |groups| :: Within(groups[j], chips) && Fresh(groups[j]) && Apart(groups[j], nodes)
    }

    /** Registers the i-th of several DTB files. */
    method NextFile(groups: seq<seq<Chip>>, i: nat, fileSize: nat, pageSize: nat,
                    ghost chips: set<Chip>, ghost from: map<Chip, Source>)
        returns (count: nat)
      requires Valid() && pageSize > 0 && Complete(pageSize, from) && i < |groups| && Waiting(groups, i, chips)
      requires forall j | i < j < |groups| :: Apart(groups[j], groups[i])
      requires ComesFrom(groups[i], Source(i, fileSize), from)
      modifies this, chips
      ensures Valid() && Complete(pageSize, from) && Waiting(groups, i + 1, chips)
      ensures |nodes| == |old(nodes)| + count
      ensures groups[i] != [] && Infos(nodes) == AfterFile(Infos(old(nodes)), Infos(groups[i]), fileSize)
    {
      ghost var was := nodes;
      assert Within(groups[i], chips) && Fresh(groups[i]) && Apart(groups[i], nodes);
      hide Valid, Complete, Infos, AfterFile, Untouched, Distinct;
      count := Register(groups[i], i, fileSize, pageSize, from);
      forall l | 0 <= l < |nodes| ensures nodes[l] in chips {
      }
      forall j | i < j < |groups| ensures Within(groups[j], chips) && Fresh(groups[j]) && Apart(groups[j], nodes) {
        StaysApart(groups[j], was, groups[i], nodes);
        assert old(Fresh(groups[j]) && Apart(groups[j], was));
        forall g | g in groups[j] ensures unchanged(g) {
          assert g !in was && g !in groups[i];
        }
        assert groups[j][0] in groups[j];
      }
    }

    /** find_dtb over a whole directory; chips are all chips of its files, and from says which file each comes from. */
    method FindDtb(groups: seq<seq<Chip>>, sizes: seq<nat>, pageSize: nat,
                   ghost chips: set<Chip>, ghost from: map<Chip, Source>)
        returns (count: nat)
      requires Valid() && nodes == [] && pageSize > 0 && |sizes| == |groups|
      requires forall i | 0 <= i < |groups| :: groups[i] != [] && Within(groups[i], chips) && Fresh(groups[i])
      requires forall i, j | 0 <= i < j < |groups| :: Apart(groups[j], groups[i])
      requires forall i | 0 <= i < |groups| :: ComesFrom(groups[i], Source(i, sizes[i]), from)
      modifies this, chips
      ensures Valid() && Complete(pageSize, from)
      ensures count == |nodes|
      ensures Infos(nodes) == AfterFiles(FoundIn(groups, sizes))
    {
      count := 0;
      assert Complete(pageSize, from) && Waiting(groups, 0, chips);
      hide Valid, Complete, Waiting, Infos, AfterFile, Fresh, Apart, Within;
      for i := 0 to |groups|
        invariant Valid() && Complete(pageSize, from) && Waiting(groups, i, chips) && count == |nodes|
        invariant Infos(nodes) == AfterFiles(FoundIn(groups[..i], sizes[..i]))
      {
        FoundNext(groups, sizes, i);
        var added := NextFile(groups, i, sizes[i], pageSize, chips, from);
        count := count + added;
      }
      assert groups[..|groups|] == groups && sizes[..|sizes|] == sizes;
    }

    method LinkLast(c: Chip, x: Chip)
      requires Valid() && c !in nodes && nodes != [] && x == nodes[|nodes| - 1]
      modifies this, c, nodes
      ensures Valid() && nodes == Spliced(old(nodes), |old(nodes)|, c)
      ensures forall n | n in nodes :: SameButLinks(n)
    {
      ghost var nodes0 := nodes;
      assert LinkedAt(nodes, |nodes| - 1);
      c.prev, c.next := x, null;
      x.next := c;
      nodes := Spliced(nodes, |nodes|, c);
      hide Spliced, NodeAt, Distinct;
      SplicedDistinct(nodes0, |nodes0|, c);
      SplicedAt(nodes0, |nodes0|, c, 0);
      forall j | 0 <= j < |nodes| ensures LinkedAt(nodes, j) {
        SplicedAt(nodes0, |nodes0|, c, j);
        SplicedAt(nodes0, |nodes0|, c, j + 1);
        SplicedAt(nodes0, |nodes0|, c, j - 1);
        assert j < |nodes0| ==> old(LinkedAt(nodes0, j));
      }
    }

    /** Links c in front of x, the i-th node, which may be the head. */
    method LinkBefore(c: Chip, x: Chip, ghost i: nat)
      requires Valid() && c !in nodes && i < |nodes| && x == nodes[i]
      modifies this, c, nodes
      ensures Valid() && nodes == Spliced(old(nodes), i, c)
      ensures forall n | n in nodes :: SameButLinks(n)
    {
      assert LinkedAt(nodes, i);
      ghost var nodes0 := nodes;
      if x.prev == null {
        c.next, c.prev := x, null;
        x.prev := c;
        chipList := c;
      } else {
        assert i > 0 && LinkedAt(nodes, i - 1);
        c.next, c.prev := x, x.prev;
        x.prev.next := c;
        x.prev := c;
      }
      nodes := Spliced(nodes, i, c);
      hide Spliced, NodeAt, Distinct;
      SplicedDistinct(nodes0, i, c);
      SplicedAt(nodes0, i, c, 0);
      forall j | 0 <= j < |nodes| ensures LinkedAt(nodes, j) {
        SplicedAt(nodes0, i, c, j);
        SplicedAt(nodes0, i, c, j + 1);
        SplicedAt(nodes0, i, c, j - 1);
        assert j < i ==> old(LinkedAt(nodes0, j));
        assert j > i ==> old(LinkedAt(nodes0, j - 1));
      }
    }
  }

  /** Adds each of xs in turn, leaving out those that are duplicates when their turn comes. */
  function AddAll(s: seq<Info>, xs: seq<Info>): seq<Info>
    decreases |xs|
  {
    if xs == [] then s
    else
      var k := Place(s, xs[0]);
      AddAll(if k.Some? then Insert(s, k.value, xs[0]) else s, xs[1..])
  }

  /** The list after a DTB file with these chips: if the first is a duplicate, or the file empty, none is added. */
  function AfterFile(s: seq<Info>, group: seq<Info>, fileSize: nat): seq<Info>
    requires group != []
  {
    if fileSize == 0 || Place(s, group[0]).None? then s else AddAll(s, group)
  }

  lemma {:induction false} AddAllKeeps(s: seq<Info>, xs: seq<Info>)
    requires Sorted(s) && NoDuplicates(s)
    ensures Sorted(AddAll(s, xs)) && NoDuplicates(AddAll(s, xs))
    ensures forall x | Covered(x, s) :: Covered(x, AddAll(s, xs))
    ensures forall x | x in xs :: Covered(x, AddAll(s, xs))
    decreases |xs|
  {
    if xs != [] {
      AddExact(s, xs[0]);
      var k := Place(s, xs[0]);
      var s' := if k.Some? then Insert(s, k.value, xs[0]) else s;
      AddAllKeeps(s', xs[1..]);
      assert k.Some? ==> s'[k.value] == xs[0];
      assert Covered(xs[0], s');
      forall x | Covered(x, s) ensures Covered(x, s') {
        var i :| 0 <= i < |s| && Duplicate(x, s[i]);
        assert s[i] == s'[if k.None? || i < k.value then i else i + 1];
      }
    }
  }

  /** The list has an entry for x. */
  ghost predicate Covered(x: Info, s: seq<Info>) {
    exists i | 0 <= i < |s| :: Duplicate(x, s[i])
  }

  /**
   * Entering a DTB file keeps the list sorted and free of duplicates; afterwards there is an entry
   * for each of its chips, unless the file is empty or its first chip has an entry already.
   */
  lemma AfterFileExact(s: seq<Info>, group: seq<Info>, fileSize: nat)
    requires Sorted(s) && NoDuplicates(s) && group != []
    ensures var r := AfterFile(s, group, fileSize);
      && Sorted(r) && NoDuplicates(r)
      && (forall x | Covered(x, s) :: Covered(x, r))
      && (r == s <==> fileSize == 0 || Covered(group[0], s))
      && (fileSize > 0 && !Covered(group[0], s) ==> forall x | x in group :: Covered(x, r))
  {
    AddExact(s, group[0]);
    AddAllKeeps(s, group);
    if fileSize > 0 && !Covered(group[0], s) {
      assert Covered(group[0], AfterFile(s, group, fileSize));
    }
  }

  lemma {:induction false} AddAllOnly(s: seq<Info>, xs: seq<Info>, y: Info)
    requires y in AddAll(s, xs)
    ensures y in s || y in xs
    decreases |xs|
  {
    if xs != [] {
      var k := Place(s, xs[0]);
      AddAllOnly(if k.Some? then Insert(s, k.value, xs[0]) else s, xs[1..], y);
    }
  }

  /** The chips found in one DTB file, the first of them the master, and the size of the file. */
  datatype Found = Found(group: seq<Info>, fileSize: nat)

  /** The chips of one DTB file as getChipInfo returns them: the first is the master of all. */
  ghost predicate Fresh(group: seq<Chip>)
    reads group
  {
    && group != [] && Distinct(group)
    && (forall g | g in group :: g.master == group[0])
    && Untouched(group[0])
  }

  ghost predicate Within(group: seq<Chip>, chips: set<Chip>) {
    forall g | g in group :: g in chips
  }

  ghost predicate Apart(a: seq<Chip>, b: seq<Chip>) {
    forall x | x in a :: x !in b
  }

  lemma StaysApart(a: seq<Chip>, was: seq<Chip>, group: seq<Chip>, nodes: seq<Chip>)
    requires Apart(a, was) && Apart(a, group) && forall n | n in nodes :: n in was || n in group
    ensures Apart(a, nodes)
  {
  }

  ghost function FoundIn(groups: seq<seq<Chip>>, sizes: seq<nat>): (r: seq<Found>)
    requires |sizes| == |groups| && forall i | 0 <= i < |groups| :: groups[i] != []
    ensures |r| == |groups|
    ensures forall i | 0 <= i < |r| :: r[i] == Found(Infos(groups[i]), sizes[i]) && r[i].group != []
  {
    seq(|groups|, i requires 0 <= i < |groups| => Found(Infos(groups[i]), sizes[i]))
  }

  lemma FoundNext(groups: seq<seq<Chip>>, sizes: seq<nat>, i: nat)
    requires i < |groups| == |sizes| && forall j | 0 <= j < |groups| :: groups[j] != []
    ensures AfterFiles(FoundIn(groups[..i + 1], sizes[..i + 1])) ==
            AfterFile(AfterFiles(FoundIn(groups[..i], sizes[..i])), Infos(groups[i]), sizes[i])
  {
    var found := FoundIn(groups[..i + 1], sizes[..i + 1]);
    assert found[..i] == FoundIn(groups[..i], sizes[..i]);
    assert found[i] == Found(Infos(groups[i]), sizes[i]);
  }

  /** The list after a whole directory. */
  function AfterFiles(found: seq<Found>): seq<Info>
    requires forall f | f in found :: f.group != []
  {
    if found == [] then []
    else
      var n := |found| - 1;
      AfterFile(AfterFiles(found[..n]), found[n].group, found[n].fileSize)
  }

  /** A chip of a DTB file that is not empty. */
  ghost predicate Offered(found: seq<Found>, x: Info) {
    exists i | 0 <= i < |found| :: found[i].fileSize > 0 && x in found[i].group
  }

  /**
   * Whatever the directory holds, the list is sorted and free of duplicates, lists nothing but chips of
   * files that are not empty, and has an entry for the first chip of each of those files.
   */
  lemma {:induction false} ListExact(found: seq<Found>)
    requires forall f | f in found :: f.group != []
    ensures Sorted(AfterFiles(found)) && NoDuplicates(AfterFiles(found))
    ensures forall y | y in AfterFiles(found) :: Offered(found, y)
    ensures forall i | 0 <= i < |found| && found[i].fileSize > 0 :: Covered(found[i].group[0], AfterFiles(found))
  {
    if found != [] {
      hide Place, AddAll, Sorted, NoDuplicates, Covered, AfterFile, Offered;
      var n := |found| - 1;
      var last := found[n];
      var before := AfterFiles(found[..n]);
      ListExact(found[..n]);
      AfterFileExact(before, last.group, last.fileSize);
      forall y | y in AfterFiles(found) ensures Offered(found, y) {
        if y in before { StillOffered(found, y); } else { NewlyOffered(found, before, y); }
      }
      forall i | 0 <= i < |found| && found[i].fileSize > 0
        ensures Covered(found[i].group[0], AfterFiles(found))
      {
        if i < n {
          assert found[..n][i] == found[i];
        }
      }
    }
  }

  lemma StillOffered(found: seq<Found>, y: Info)
    requires found != [] && Offered(found[..|found| - 1], y)
    ensures Offered(found, y)
  {
    var n := |found| - 1;
    var i :| 0 <= i < n && found[..n][i].fileSize > 0 && y in found[..n][i].group;
    assert found[i].fileSize > 0 && y in found[i].group;
  }

  lemma NewlyOffered(found: seq<Found>, before: seq<Info>, y: Info)
    requires found != [] && found[|found| - 1].group != [] && y !in before
    requires y in AfterFile(before, found[|found| - 1].group, found[|found| - 1].fileSize)
    ensures Offered(found, y)
  {
    var last := found[|found| - 1];
    AddAllOnly(before, last.group, y);
    assert last.fileSize > 0 && y in last.group;
  }

  ghost predicate Aligned(size: nat, pageSize: nat) {
    exists pages: nat :: size == pages * pageSize
  }

  lemma PaddedIsAligned(size: nat, pageSize: nat)
    requires pageSize > 0
    ensures Aligned(size + (pageSize - size % pageSize), pageSize)
  {
    assert size + (pageSize - size % pageSize) == (size / pageSize + 1) * pageSize;
  }

  lemma FileStep(nodes: seq<Chip>, group: seq<Chip>, fileSize: nat)
    requires group != []
    ensures var k := Place(Infos(nodes), group[0].info);
      AfterFile(Infos(nodes), Infos(group), fileSize) ==
      if fileSize == 0 || k.None? then Infos(nodes)
      else AddAll(Infos(Spliced(nodes, k.value, group[0])), Infos(group[1..]))
  {
    AddAllStep(nodes, group);
  }

  lemma NothingToAdd(nodes: seq<Chip>)
    ensures AddAll(Infos(nodes), Infos([])) == Infos(nodes)
  {
  }

  lemma AddAllStep(nodes: seq<Chip>, group: seq<Chip>)
    requires group != []
    ensures var k := Place(Infos(nodes), group[0].info);
      AddAll(Infos(nodes), Infos(group)) ==
      AddAll(Infos(if k.Some? then Spliced(nodes, k.value, group[0]) else nodes), Infos(group[1..]))
  {
    var k := Place(Infos(nodes), group[0].info);
    assert Infos(group)[1..] == Infos(group[1..]);
    if k.Some? {
      assert Infos(Spliced(nodes, k.value, group[0])) == Insert(Infos(nodes), k.value, group[0].info);
    }
  }

  function Shift(place: Option<nat>, i: nat): Option<nat> {
    if place.None? then None else Some(place.value + i)
  }

  twostate predicate SameButLinks(n: Chip)
    reads n
  {
    RecordOf(n) == old(RecordOf(n))
  }
}
