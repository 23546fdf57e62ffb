/** The two passes of dtbtool over the chip list: index table, then blobs. */
module MasterDtb {
  import opened Optional
  import opened ChipList
  import opened MasterImage
  import opened Sequences
  import opened Words

  /** What stays fixed while the passes run: the chips and, in list order, their masters with sizes and file names. */
  datatype Plan = Plan(chips: set<Chip>, ms: seq<Chip>, size: map<Chip, nat>, name: map<Chip, nat>)

  ghost predicate Known(p: Plan) {
    forall m | m in p.ms :: m in p.size && m in p.name && m in p.chips
  }

  /** The list, its masters, their sizes and files are those of the plan. */
  ghost predicate Listed(table: ChipTable, p: Plan)
    requires Known(p)
    reads table, p.chips
  {
    && |p.ms| == |table.nodes|
    && (forall i | 0 <= i < |table.nodes| :: table.nodes[i] in p.chips && table.nodes[i].master == p.ms[i])
    && (forall i | 0 <= i < |p.ms| :: p.ms[i].dtbSize == p.size[p.ms[i]] && p.ms[i].dtbFile == Some(p.name[p.ms[i]]))
    && table.chipList == NodeAt(table.nodes, 0)
    && (forall i | 0 <= i < |table.nodes| :: table.nodes[i].next == NodeAt(table.nodes, i + 1))
  }

  /** The first master not seen before extends the list of masters seen. */
  lemma FirstsPrefix<M>(ms: seq<M>, i: nat)
    requires i <= |ms|
    ensures |Firsts(ms[..i])| <= |Firsts(ms)| && Firsts(ms)[..|Firsts(ms[..i])|] == Firsts(ms[..i])
    decreases |ms|
  {
    if i < |ms| {
      FirstsPrefix(ms[..|ms| - 1], i);
      assert ms[..|ms| - 1][..i] == ms[..i];
    } else {
      assert ms[..i] == ms;
    }
  }

  lemma FirstsStep<M>(ms: seq<M>, i: nat)
    requires i < |ms|
    ensures Firsts(ms[..i + 1]) == if ms[i] in Firsts(ms[..i]) then Firsts(ms[..i]) else Firsts(ms[..i]) + [ms[i]]
  {
    assert ms[..i + 1][..i] == ms[..i];
  }

  /** A master that appears first at i is placed behind the masters that appeared before. */
  lemma NewOffset<M>(ms: seq<M>, i: nat, base: nat, size: map<M, nat>)
    requires i < |ms| && ms[i] !in Firsts(ms[..i]) && forall m | m in ms :: m in size
    ensures ms[i] in Firsts(ms)
    ensures (forall m | m in Firsts(ms) :: m in size) && (forall m | m in Firsts(ms[..i]) :: m in size)
    ensures OffsetIn(Firsts(ms), ms[i], base, size) == base + Total(Firsts(ms[..i]), size)
  {
    FirstsIn(ms);
    FirstsIn(ms[..i]);
    FirstsStep(ms, i);
    FirstsPrefix(ms, i);
    FirstsPrefix(ms, i + 1);
    var k := |Firsts(ms[..i])|;
    assert Firsts(ms[..i + 1])[k] == ms[i];
    OffsetAt(Firsts(ms), k, base, size);
  }

  lemma {:induction false} OffsetAtLeast<M>(ms: seq<M>, m: M, base: nat, size: map<M, nat>)
    requires m in ms && forall x | x in ms :: x in size
    ensures OffsetIn(ms, m, base, size) >= base
  {
    var n := |ms| - 1;
    if !(ms[n] == m && m !in ms[..n]) {
      assert ms == ms[..n] + [ms[n]];
      OffsetAtLeast(ms[..n], m, base, size);
    }
  }

  lemma {:induction false} TotalOfPrefix<M>(ms: seq<M>, k: nat, size: map<M, nat>)
    requires k <= |ms| && forall m | m in ms :: m in size
    ensures Total(ms[..k], size) <= Total(ms, size)
  {
    if k < |ms| {
      TotalOfPrefix(ms[..|ms| - 1], k, size);
      assert ms[..|ms| - 1][..k] == ms[..k];
    } else {
      assert ms[..k] == ms;
    }
  }

  /** The bytes expected before the i-th entry: the front, and the regions placed so far. */
  ghost function Expected(ms: seq<Chip>, i: nat, base: nat, size: map<Chip, nat>): nat
    requires i <= |ms| && forall m | m in ms :: m in size
  {
    FirstsIn(ms[..i]);
    base + Total(Firsts(ms[..i]), size)
  }

  /** The offset of the i-th chip's master. */
  ghost function OffsetOf(ms: seq<Chip>, i: nat, base: nat, size: map<Chip, nat>): nat
    requires i < |ms| && forall m | m in ms :: m in size
  {
    FirstsIn(ms);
    OffsetIn(Firsts(ms), ms[i], base, size)
  }

  /** How far the index pass has come: offsets are set for the masters seen, and for no others. */
  ghost predicate OffsetsSet(ms: seq<Chip>, i: nat, base: nat, size: map<Chip, nat>)
    requires i <= |ms| && forall m | m in ms :: m in size
    reads ms
  {
    forall j | 0 <= j < |ms| ::
      ms[j].masterOffset == if ms[j] in Firsts(ms[..i]) then OffsetOf(ms, j, base, size) else 0
  }

  /** What the i-th step of the index pass finds and does, in terms of the masters seen. */
  lemma IndexStep(ms: seq<Chip>, i: nat, base: nat, size: map<Chip, nat>)
    requires i < |ms| && base > 0 && forall m | m in ms :: m in size
    requires Expected(ms, |ms|, base, size) < 0x1_0000_0000
    ensures OffsetOf(ms, i, base, size) > 0
    ensures Expected(ms, i, base, size) < 0x1_0000_0000
    ensures ms[i] !in Firsts(ms[..i]) ==> OffsetOf(ms, i, base, size) == Expected(ms, i, base, size)
    ensures Expected(ms, i + 1, base, size) ==
            Expected(ms, i, base, size) + if ms[i] in Firsts(ms[..i]) then 0 else size[ms[i]]
    ensures forall j | 0 <= j < |ms| :: ms[j] in Firsts(ms[..i + 1]) <==> ms[j] in Firsts(ms[..i]) || ms[j] == ms[i]
  {
    FirstsIn(ms);
    FirstsIn(ms[..i]);
    FirstsStep(ms, i);
    FirstsPrefix(ms, i);
    OffsetAtLeast(Firsts(ms), ms[i], base, size);
    TotalOfPrefix(Firsts(ms), |Firsts(ms[..i])|, size);
    assert ms[..|ms|] == ms;
    if ms[i] !in Firsts(ms[..i]) { NewOffset(ms, i, base, size); }
  }

  /** The choice of offset for the i-th entry. */
  method AssignOffset(m: Chip, expected: nat,
                      ghost ms: seq<Chip>, ghost i: nat, ghost base: nat, ghost size: map<Chip, nat>)
      returns (offset: nat, next: nat)
    requires forall x | x in ms :: x in size
    requires i < |ms| && m == ms[i] && base > 0 && m.dtbSize == size[m]
    requires Expected(ms, |ms|, base, size) < 0x1_0000_0000 && expected == Expected(ms, i, base, size)
    requires OffsetsSet(ms, i, base, size)
    modifies m`masterOffset
    ensures offset == OffsetOf(ms, i, base, size) && next == Expected(ms, i + 1, base, size)
    ensures OffsetsSet(ms, i + 1, base, size)
  {
    hide OffsetOf, Expected, Firsts;
    IndexStep(ms, i, base, size);
    SameOffset(ms, i, base, size);
    assert expected % 0x1_0000_0000 == expected;
    offset, next := m.masterOffset, expected;
    if m.masterOffset == 0 {
      offset := expected;
      m.masterOffset := expected % 0x1_0000_0000;
      next := expected + m.dtbSize;
    }
  }

  /** The same within the list, whose links and marks it leaves alone. */
  method PlaceMaster(table: ChipTable, chip: Chip, expected: nat, ghost p: Plan, ghost i: nat, ghost base: nat)
      returns (offset: nat, next: nat)
    requires Known(p) && Listed(table, p) && MarksSet(p.ms, 0) && i < |p.ms| && chip == table.nodes[i] && base > 0
    requires Expected(p.ms, |p.ms|, base, p.size) < 0x1_0000_0000 && expected == Expected(p.ms, i, base, p.size)
    requires OffsetsSet(p.ms, i, base, p.size)
    modifies p.chips
    ensures offset == OffsetOf(p.ms, i, base, p.size) && next == Expected(p.ms, i + 1, base, p.size)
    ensures OffsetsSet(p.ms, i + 1, base, p.size) && Listed(table, p) && MarksSet(p.ms, 0)
  {
    hide OffsetsSet, OffsetOf, Expected, Firsts, NodeAt;
    offset, next := AssignOffset(chip.master, expected, p.ms, i, base, p.size);
  }

  lemma SameOffset(ms: seq<Chip>, i: nat, base: nat, size: map<Chip, nat>)
    requires i < |ms| && forall m | m in ms :: m in size
    ensures forall j | 0 <= j < |ms| && ms[j] == ms[i] :: OffsetOf(ms, j, base, size) == OffsetOf(ms, i, base, size)
  {
  }

  /** The state of the index pass before the i-th entry. */
  ghost predicate IndexAt(table: ChipTable, f: Format, p: Plan, i: nat, out: seq<Byte>, expected: nat)
    requires f.pageSize > 0 && Known(p)
    reads table, p.chips
  {
    && Listed(table, p) && i <= |p.ms|
    && MarksSet(p.ms, 0)
    && OffsetsSet(p.ms, i, Base(f, |p.ms|), p.size)
    && out == Table(Infos(table.nodes), p.ms, i, f, p.size)
    && expected == Expected(p.ms, i, Base(f, |p.ms|), p.size)
    && Expected(p.ms, |p.ms|, Base(f, |p.ms|), p.size) < 0x1_0000_0000
  }

  /** One round of the index pass. */
  method WriteEntry(table: ChipTable, chip: Chip, f: Format, out: seq<Byte>, expected: nat, ghost p: Plan, ghost i: nat)
      returns (next: Chip?, out': seq<Byte>, expected': nat)
    requires f.pageSize > 0 && Known(p) && IndexAt(table, f, p, i, out, expected)
    requires i < |p.ms| && chip == NodeAt(table.nodes, i)
    modifies p.chips
    ensures IndexAt(table, f, p, i + 1, out', expected')
    ensures next == NodeAt(table.nodes, i + 1)
  {
    TableStep(table.nodes, p.ms, i, f, p.size);
    hide OffsetsSet, OffsetOf, Expected, Base, Entry, Table, Infos, MarksSet;
    var offset;
    offset, expected' := PlaceMaster(table, chip, expected, p, i, Base(f, |p.ms|));
    out' := out + Entry(chip.info, f, offset, chip.master.dtbSize);
    next := chip.next;
  }

  /** The index pass over the chip list. */
  method WriteIndex(table: ChipTable, f: Format, base: nat, ghost p: Plan) returns (out: seq<Byte>, expected: nat)
    requires f.pageSize > 0 && Known(p) && IndexAt(table, f, p, 0, [], base)
    modifies p.chips
    ensures IndexAt(table, f, p, |p.ms|, out, expected)
  {
    out, expected := [], base;
    var chip := table.chipList;
    ghost var i := 0;
    assert |p.ms| == |table.nodes|;
    hide IndexAt, Known;
    while chip != null
      invariant i <= |p.ms| == |table.nodes| && chip == NodeAt(table.nodes, i)
      invariant IndexAt(table, f, p, i, out, expected)
      decreases |p.ms| - i
    {
      chip, out, expected := WriteEntry(table, chip, f, out, expected, p, i);
      i := i + 1;
    }
  }

  lemma TableStart(nodes: seq<Chip>, ms: seq<Chip>, f: Format, size: map<Chip, nat>)
    requires |nodes| == |ms| && f.pageSize > 0 && forall m | m in ms :: m in size
    ensures Table(Infos(nodes), ms, 0, f, size) == [] && Base(f, |ms|) > 0
    ensures Expected(ms, 0, Base(f, |ms|), size) == Base(f, |ms|)
  {
  }

  lemma TableStep(nodes: seq<Chip>, ms: seq<Chip>, i: nat, f: Format, size: map<Chip, nat>)
    requires i < |nodes| == |ms| && f.pageSize > 0 && forall m | m in ms :: m in size
    ensures Base(f, |ms|) > 0
    ensures Table(Infos(nodes), ms, i + 1, f, size) ==
            Table(Infos(nodes), ms, i, f, size)
            + Entry(nodes[i].info, f, OffsetOf(ms, i, Base(f, |ms|), size), size[ms[i]])
  {
  }

  // ---------- the blob pass ----------

  /** The file of m can be opened and still has the size it had when m was registered. */
  predicate Readable(m: Chip, pageSize: nat, size: map<Chip, nat>, name: map<Chip, nat>, files: map<nat, File>)
    requires pageSize > 0 && m in size && m in name
  {
    name[m] in files && |Padded(files[name[m]], pageSize)| == size[m]
  }

  ghost function Contents(ms: seq<Chip>, name: map<Chip, nat>, files: map<nat, File>): map<Chip, File> {
    map m | m in ms && m in name && name[m] in files :: files[name[m]]
  }

  /** How far the blob pass has come: exactly the masters seen are marked as written. */
  ghost predicate MarksSet(ms: seq<Chip>, i: nat)
    requires i <= |ms|
    reads ms
  {
    forall j | 0 <= j < |ms| :: ms[j].wroteDtb <==> ms[j] in Firsts(ms[..i])
  }

  ghost predicate FirstsReadable(ms: seq<Chip>, i: nat, name: map<Chip, nat>, files: map<nat, File>)
    requires i <= |ms|
  {
    forall m | m in Firsts(ms[..i]) :: m in Contents(ms, name, files)
  }

  /** What the blob pass has written before the i-th chip, every file so far having been readable. */
  ghost predicate Written(ms: seq<Chip>, i: nat, pageSize: nat, size: map<Chip, nat>, name: map<Chip, nat>,
                          files: map<nat, File>, out: seq<Byte>)
    requires pageSize > 0 && i <= |ms| && forall m | m in ms :: m in size && m in name
  {
    && (forall j | 0 <= j < i :: Readable(ms[j], pageSize, size, name, files))
    && FirstsReadable(ms, i, name, files)
    && out == Blobs(Firsts(ms[..i]), Contents(ms, name, files), pageSize)
  }

  lemma WrittenStep(ms: seq<Chip>, i: nat, pageSize: nat, size: map<Chip, nat>, name: map<Chip, nat>,
                    files: map<nat, File>, out: seq<Byte>)
    requires pageSize > 0 && i < |ms| && forall m | m in ms :: m in size && m in name
    requires Written(ms, i, pageSize, size, name, files, out)
    ensures ms[i] in Firsts(ms[..i]) ==>
      Readable(ms[i], pageSize, size, name, files) && Written(ms, i + 1, pageSize, size, name, files, out)
    ensures ms[i] !in Firsts(ms[..i]) && Readable(ms[i], pageSize, size, name, files) ==>
      Written(ms, i + 1, pageSize, size, name, files, out + Padded(files[name[ms[i]]], pageSize))
  {
    hide Firsts, Blobs, Padded, Contents, Readable;
    FirstsStep(ms, i);
    var firsts := Firsts(ms[..i]);
    if ms[i] in firsts {
      var j := SeenAt(ms, i);
      assert Readable(ms[j], pageSize, size, name, files);
    } else if Readable(ms[i], pageSize, size, name, files) {
      ReadableContents(ms, i, pageSize, size, name, files);
      BlobsSnoc(firsts, ms[i], Contents(ms, name, files), pageSize);
    }
  }

  lemma SeenAt(ms: seq<Chip>, i: nat) returns (j: nat)
    requires i < |ms| && ms[i] in Firsts(ms[..i])
    ensures j < i && ms[j] == ms[i]
  {
    FirstsIn(ms[..i]);
    hide Firsts;
    var k :| 0 <= k < |Firsts(ms[..i])| && Firsts(ms[..i])[k] == ms[i];
    assert ms[i] in ms[..i];
    j :| 0 <= j < i && ms[..i][j] == ms[i];
  }

  lemma ReadableContents(ms: seq<Chip>, i: nat, pageSize: nat, size: map<Chip, nat>, name: map<Chip, nat>,
                         files: map<nat, File>)
    requires pageSize > 0 && i < |ms| && ms[i] in size && ms[i] in name && Readable(ms[i], pageSize, size, name, files)
    ensures name[ms[i]] in files
    ensures ms[i] in Contents(ms, name, files) && Contents(ms, name, files)[ms[i]] == files[name[ms[i]]]
  {
  }

  lemma BlobsSnoc<M>(ms: seq<M>, m: M, file: map<M, File>, pageSize: nat)
    requires pageSize > 0 && m in file && forall x | x in ms :: x in file
    ensures Blobs(ms + [m], file, pageSize) == Blobs(ms, file, pageSize) + Padded(file[m], pageSize)
  {
    assert (ms + [m])[..|ms|] == ms;
  }

  /** The state of the blob pass before the i-th chip. */
  ghost predicate BlobsAt(table: ChipTable, pageSize: nat, p: Plan, files: map<nat, File>, i: nat, out: seq<Byte>)
    requires pageSize > 0 && Known(p)
    reads table, p.chips
  {
    Listed(table, p) && i <= |p.ms| && MarksSet(p.ms, i) && Written(p.ms, i, pageSize, p.size, p.name, files, out)
  }

  /** Marks the i-th chip's master as written. */
  method SetMark(m: Chip, ghost ms: seq<Chip>, ghost i: nat)
    requires i < |ms| && m == ms[i] && MarksSet(ms, i)
    modifies m`wroteDtb
    ensures MarksSet(ms, i + 1)
  {
    FirstsStep(ms, i);
    hide Firsts;
    m.wroteDtb := true;
  }

  /** The same within the list, whose links and sizes it leaves alone. */
  method Mark(table: ChipTable, m: Chip, ghost p: Plan, ghost i: nat)
    requires Known(p) && Listed(table, p) && i < |p.ms| && m == p.ms[i] && MarksSet(p.ms, i)
    modifies m`wroteDtb
    ensures Listed(table, p) && MarksSet(p.ms, i + 1)
  {
    hide NodeAt, MarksSet;
    SetMark(m, p.ms, i);
  }

  /** One round of the blob pass; ok is false if the file of the chip's master cannot be written. */
  method WriteBlob(table: ChipTable, chip: Chip, pageSize: nat, files: map<nat, File>, out: seq<Byte>,
                   ghost p: Plan, ghost i: nat)
      returns (ok: bool, next: Chip?, out': seq<Byte>)
    requires pageSize > 0 && Known(p) && BlobsAt(table, pageSize, p, files, i, out)
    requires i < |p.ms| && chip == NodeAt(table.nodes, i)
    modifies p.chips
    ensures next == NodeAt(table.nodes, i + 1)
    ensures ok <==> Readable(p.ms[i], pageSize, p.size, p.name, files)
    ensures ok ==> BlobsAt(table, pageSize, p, files, i + 1, out')
  {
    WrittenStep(p.ms, i, pageSize, p.size, p.name, files, out);
    FirstsStep(p.ms, i);
    hide Firsts, Padded, Written;
    next := chip.next;
    out' := out;
    ok := true;
    if chip.master.wroteDtb {
      return;
    }
    var filename := chip.master.dtbFile.value;
    var dtbSize := chip.master.dtbSize;
    Mark(table, chip.master, p, i);
    if filename !in files || |Padded(files[filename], pageSize)| != dtbSize {
      ok := false;
      return;
    }
    out' := out + Padded(files[filename], pageSize);
  }

  /** The blob pass over the chip list: it stops at the first file that cannot be written. */
  method WriteBlobs(table: ChipTable, pageSize: nat, files: map<nat, File>, ghost p: Plan)
      returns (ok: bool, out: seq<Byte>)
    requires pageSize > 0 && Known(p) && BlobsAt(table, pageSize, p, files, 0, [])
    modifies p.chips
    ensures ok <==> forall j | 0 <= j < |p.ms| :: Readable(p.ms[j], pageSize, p.size, p.name, files)
    ensures ok ==> BlobsAt(table, pageSize, p, files, |p.ms|, out)
  {
    ok, out := true, [];
    var chip := table.chipList;
    ghost var i := 0;
    assert |p.ms| == |table.nodes|;
    while chip != null
      invariant i <= |p.ms| == |table.nodes| && chip == NodeAt(table.nodes, i)
      invariant BlobsAt(table, pageSize, p, files, i, out)
      decreases |p.ms| - i
    {
      ok, chip, out := WriteBlob(table, chip, pageSize, files, out, p, i);
      if !ok { return; }
      i := i + 1;
    }
  }

  // ---------- the whole file ----------

  ghost predicate AllReadable(p: Plan, pageSize: nat, files: map<nat, File>)
    requires Known(p) && pageSize > 0
  {
    forall j | 0 <= j < |p.ms| :: Readable(p.ms[j], pageSize, p.size, p.name, files)
  }

  /** A list that find_dtb has built is ready for the two passes. */
  ghost predicate Ready(table: ChipTable, f: Format, p: Plan)
    requires f.pageSize > 0
    reads table, p.chips
  {
    && Known(p) && Listed(table, p) && MarksSet(p.ms, 0) && OffsetsSet(p.ms, 0, Base(f, |p.ms|), p.size)
  }

  /** A master as registration leaves it. */
  ghost predicate HasFile(m: Chip)
    reads m
  {
    m.dtbFile.Some? && Untouched(m)
  }

  lemma MasterHasFile(table: ChipTable, g: Chip, pageSize: nat, from: map<Chip, Source>)
    requires pageSize > 0 && table.Complete(pageSize, from) && g in table.nodes
    ensures g.master != null && g.master in table.nodes && HasFile(g.master)
  {
    assert table.MasterListed(g, pageSize, from);
  }

  lemma MastersOf(table: ChipTable, pageSize: nat, from: map<Chip, Source>) returns (ms: seq<Chip>)
    requires pageSize > 0 && table.Complete(pageSize, from)
    ensures |ms| == |table.nodes|
    ensures forall i | 0 <= i < |ms| ::
        ms[i] == table.nodes[i].master && ms[i] in table.nodes && HasFile(ms[i])
  {
    hide HasFile;
    ms := [];
    while |ms| < |table.nodes|
      invariant |ms| <= |table.nodes|
      invariant forall i | 0 <= i < |ms| ::
        ms[i] == table.nodes[i].master && ms[i] in table.nodes && HasFile(ms[i])
    {
      MasterHasFile(table, table.nodes[|ms|], pageSize, from);
      ms := ms + [table.nodes[|ms|].master];
    }
  }

  lemma NothingSet(ms: seq<Chip>, base: nat, size: map<Chip, nat>)
    requires (forall m | m in ms :: m in size) && forall i | 0 <= i < |ms| :: Untouched(ms[i])
    ensures MarksSet(ms, 0) && OffsetsSet(ms, 0, base, size)
  {
    hide OffsetOf;
    assert Firsts(ms[..0]) == [];
  }

  lemma ListLinks(table: ChipTable)
    requires table.Valid()
    ensures table.chipList == NodeAt(table.nodes, 0)
    ensures forall i | 0 <= i < |table.nodes| :: table.nodes[i].next == NodeAt(table.nodes, i + 1)
  {
    hide NodeAt, Distinct;
    forall i | 0 <= i < |table.nodes| ensures table.nodes[i].next == NodeAt(table.nodes, i + 1) {
      assert LinkedAt(table.nodes, i);
    }
  }

  lemma PlanIsListed(table: ChipTable, p: Plan)
    requires table.Valid()
    requires |p.ms| == |table.nodes| && p.chips == set n | n in table.nodes
    requires forall i | 0 <= i < |p.ms| ::
      p.ms[i] == table.nodes[i].master && p.ms[i] in table.nodes && HasFile(p.ms[i])
    requires p.size == map n | n in p.chips :: n.dtbSize
    requires p.name == map n | n in p.chips && n.dtbFile.Some? :: n.dtbFile.value
    ensures Known(p) && Listed(table, p)
  {
    hide Aligned, NodeAt, Linked, ChipTable.Valid;
    forall m | m in p.ms ensures m in p.size && m in p.name && m in p.chips {
      var i :| 0 <= i < |p.ms| && p.ms[i] == m;
    }
    ListLinks(table);
  }

  lemma CompleteIsReady(table: ChipTable, f: Format, from: map<Chip, Source>) returns (p: Plan)
    requires f.pageSize > 0 && table.Valid() && table.Complete(f.pageSize, from)
    ensures p.chips == (set n | n in table.nodes) && Ready(table, f, p)
  {
    hide Firsts, Aligned, NodeAt, Distinct, MarksSet, OffsetsSet, ChipTable.Complete, ChipTable.Valid, Base;
    var nodes := table.nodes;
    var ms := MastersOf(table, f.pageSize, from);
    var chips: set<Chip> := set n | n in nodes;
    var size := map n | n in chips :: n.dtbSize;
    var name := map n | n in chips && n.dtbFile.Some? :: n.dtbFile.value;
    p := Plan(chips, ms, size, name);
    PlanIsListed(table, p);
    NothingSet(ms, Base(f, |ms|), size);
  }

  /** The i-th entry tells of the i-th chip of the list, and of where the bytes of its master's input file are. */
  ghost predicate EntryTells(out: seq<Byte>, f: Format, table: ChipTable, p: Plan, files: map<nat, File>, i: nat)
    requires f.pageSize > 0 && i < |table.nodes|
    reads table, p.chips, table.nodes
  {
    var chip := table.nodes[i];
    && chip.master != null && chip.master in p.chips && chip.master.dtbFile.Some?
    && chip.master.dtbFile.value in files
    && ChipReads(out, EntryPos(f, i), chip.info, f)
    && FileReads(out, EntryPos(f, i), f, files[chip.master.dtbFile.value])
  }

  /** The output has the header and the end of a table of all listed chips, and tells of each of them. */
  ghost predicate Tells(out: seq<Byte>, f: Format, table: ChipTable, p: Plan, files: map<nat, File>)
    requires f.pageSize > 0
    reads table, p.chips, table.nodes
  {
    && HeaderReads(out, f, |table.nodes|)
    && TableEnds(out, f, |table.nodes|)
    && forall i | 0 <= i < |table.nodes| :: EntryTells(out, f, table, p, files, i)
  }

  lemma OutputTells(out: seq<Byte>, f: Format, table: ChipTable, p: Plan, files: map<nat, File>)
    requires f.pageSize > 0 && f.version != 0 && Known(p) && Listed(table, p) && |out| < WORD_RANGE
    requires forall i | 0 <= i < |p.ms| :: GoodInfo(Infos(table.nodes)[i])
    requires forall m | m in p.ms :: m in Contents(p.ms, p.name, files)
    requires SizesMatch(p.ms, f, p.size, Contents(p.ms, p.name, files))
    requires out == Image(Infos(table.nodes), p.ms, f, p.size, Contents(p.ms, p.name, files))
    ensures Tells(out, f, table, p, files)
  {
    hide Image, Padded, ChipReads, FileReads, HeaderReads, TableEnds;
    ImageReadsBack(Infos(table.nodes), p.ms, f, p.size, Contents(p.ms, p.name, files));
    forall i | 0 <= i < |table.nodes| ensures EntryTells(out, f, table, p, files, i) {
      assert p.ms[i] in p.ms;
    }
  }

  /** main, from the header to the final comparison of sizes; count is what find_dtb returned. */
  method Generate(table: ChipTable, f: Format, count: nat, files: map<nat, File>, ghost p: Plan)
      returns (ok: bool, out: seq<Byte>)
    requires f.pageSize > 0 && Ready(table, f, p) && count == |p.ms|
    requires forall i | 0 <= i < count :: GoodInfo(Infos(table.nodes)[i])
    requires Expected(p.ms, count, Base(f, count), p.size) < 0x1_0000_0000
    modifies p.chips
    ensures count == 0 ==> ok && out == []
    ensures count > 0 ==> (ok <==> f.version != 0 && AllReadable(p, f.pageSize, files))
    ensures count > 0 && ok ==>
      (forall m | m in p.ms :: m in Contents(p.ms, p.name, files))
      && SizesMatch(p.ms, f, p.size, Contents(p.ms, p.name, files))
      && out == Image(Infos(table.nodes), p.ms, f, p.size, Contents(p.ms, p.name, files))
    ensures count > 0 && ok ==> Tells(out, f, table, p, files)
  {
    ok, out := true, [];
    if count == 0 { return; }
    StartIndex(table, f, p);
    var base := Base(f, count);
    var index, expected := WriteIndex(table, f, base, p);
    out := Header(f, count) + index + Bytes4(0) + Zeros(Padding(f, count));
    StartBlobs(table, f, p, files);
    var blobs;
    ok, blobs := WriteBlobs(table, f.pageSize, files, p);
    if !ok { return; }
    out := out + blobs;
    FinalSize(table, f, p, files, blobs, expected);
    ok := expected == |out|;
    if ok { OutputTells(out, f, table, p, files); }
  }

  lemma StartIndex(table: ChipTable, f: Format, p: Plan)
    requires f.pageSize > 0 && Ready(table, f, p)
    requires Expected(p.ms, |p.ms|, Base(f, |p.ms|), p.size) < 0x1_0000_0000
    ensures IndexAt(table, f, p, 0, [], Base(f, |p.ms|))
  {
    TableStart(table.nodes, p.ms, f, p.size);
  }

  lemma StartBlobs(table: ChipTable, f: Format, p: Plan, files: map<nat, File>)
    requires f.pageSize > 0 && Known(p) && Listed(table, p) && MarksSet(p.ms, 0)
    ensures BlobsAt(table, f.pageSize, p, files, 0, [])
  {
  }

  lemma FinalSize(table: ChipTable, f: Format, p: Plan, files: map<nat, File>, blobs: seq<Byte>, expected: nat)
    requires f.pageSize > 0 && Known(p) && BlobsAt(table, f.pageSize, p, files, |p.ms|, blobs) && |p.ms| > 0
    requires expected == Expected(p.ms, |p.ms|, Base(f, |p.ms|), p.size)
    requires forall i | 0 <= i < |p.ms| :: GoodInfo(Infos(table.nodes)[i])
    ensures forall m | m in p.ms :: m in Contents(p.ms, p.name, files)
    ensures SizesMatch(p.ms, f, p.size, Contents(p.ms, p.name, files))
    ensures Image(Infos(table.nodes), p.ms, f, p.size, Contents(p.ms, p.name, files))
            == Front(Infos(table.nodes), p.ms, f, p.size) + blobs
    ensures expected == |Front(Infos(table.nodes), p.ms, f, p.size)| + |blobs| <==> f.version != 0
  {
    var file := Contents(p.ms, p.name, files);
    assert p.ms[..|p.ms|] == p.ms;
    assert forall j | 0 <= j < |p.ms| :: Readable(p.ms[j], f.pageSize, p.size, p.name, files);
    ImageSize(Infos(table.nodes), p.ms, f, p.size, file);
  }
}
