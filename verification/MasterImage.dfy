/**
 * The bytes of the master DTB file, and what a loader finds in them: module MasterDtb proves that
 * the two passes of dtbtool write exactly these bytes.
 */
module MasterImage {
  import opened ChipList
  import opened Sequences
  import opened Words

  type File = seq<Byte>

  /** motorola is the vendor's format number, zero for the plain format. */
  datatype Format = Format(version: nat, motorola: nat, pageSize: nat)

  // ---------- little-endian words ----------

  function Bytes4(x: nat): (r: seq<Byte>)
    ensures |r| == 4
  {
    var x1 := x / 0x100;
    var x2 := x1 / 0x100;
    var x3 := x2 / 0x100;
    [x % 0x100, x1 % 0x100, x2 % 0x100, x3 % 0x100]
  }

  function Word4(b: seq<Byte>): nat
    requires |b| == 4
  {
    (b[0] as nat) + 0x100 * (b[1] as nat) + 0x1_0000 * (b[2] as nat) + 0x100_0000 * (b[3] as nat)
  }

  /** Least significant byte first. */
  lemma WordRoundTrip(x: nat)
    ensures Word4(Bytes4(x)) == x % WORD_RANGE
    ensures var b := Bytes4(x);
      x % WORD_RANGE == (b[0] as nat) + 0x100 * (b[1] as nat) + 0x1_0000 * (b[2] as nat) + 0x100_0000 * (b[3] as nat)
  {
    var x3 := x / 0x100 / 0x100 / 0x100;
    assert x == Word4(Bytes4(x)) + WORD_RANGE * (x3 / 0x100);
  }

  function Zeros(n: nat): (r: seq<Byte>)
    ensures |r| == n
  {
    seq(n, _ => 0)
  }

  // ---------- the index table ----------

  /** The entry size that the offsets are computed with. */
  function EntrySize(f: Format): nat {
    (if f.version == 1 then 20 else if f.version == 2 then 24 else 40) + (if f.motorola != 0 then 32 else 0)
  }

  function EntryKey(info: Info, f: Format): seq<Byte> {
    Bytes4(info.chipset) + Bytes4(info.platform)
    + (if f.version >= 2 then Bytes4(info.subtype) else [])
    + Bytes4(info.revNum)
    + (if f.version >= 3
       then Bytes4(info.pmic.0) + Bytes4(info.pmic.1) + Bytes4(info.pmic.2) + Bytes4(info.pmic.3) else [])
  }

  function Entry(info: Info, f: Format, offset: nat, size: nat): seq<Byte> {
    EntryKey(info, f) + Bytes4(offset) + Bytes4(size) + (if f.motorola != 0 then info.model else [])
  }

  predicate GoodInfo(info: Info) {
    |info.model| == 32
  }

  /** Entries have the size they are given room for, except in the version that no input yields. */
  lemma EntryFits(info: Info, f: Format, offset: nat, size: nat)
    requires GoodInfo(info)
    ensures |Entry(info, f, offset, size)| == EntrySize(f) <==> f.version != 0
    ensures |Entry(info, f, offset, size)| <= EntrySize(f)
  {
  }

  /** The masters in order of first appearance. */
  function Firsts<M(==)>(ms: seq<M>): seq<M> {
    if ms == [] then []
    else
      var n := |ms| - 1;
      var r := Firsts(ms[..n]);
      if ms[n] in r then r else r + [ms[n]]
  }

  function Total<M>(ms: seq<M>, size: map<M, nat>): nat
    requires forall m | m in ms :: m in size
  {
    if ms == [] then 0 else Total(ms[..|ms| - 1], size) + size[ms[|ms| - 1]]
  }

  /** Where m's region starts when the regions of ms follow one another from base. */
  function OffsetIn<M(==)>(ms: seq<M>, m: M, base: nat, size: map<M, nat>): nat
    requires m in ms && forall x | x in ms :: x in size
  {
    var n := |ms| - 1;
    if ms[n] == m && m !in ms[..n] then base + Total(ms[..n], size) else OffsetIn(ms[..n], m, base, size)
  }

  /** Offset of the first DTB: header, entries and end marker, rounded up to the next page. */
  function Base(f: Format, count: nat): nat
    requires f.pageSize > 0
  {
    var table := 12 + EntryStart(f, count) + 4;
    table + (f.pageSize - table % f.pageSize)
  }

  function Header(f: Format, count: nat): (r: seq<Byte>)
    ensures |r| == 12
  {
    [0x51, 0x43, 0x44, 0x54]   // QCDT
    + Bytes4(f.motorola * 0x100 + f.version)
    + Bytes4(count)
  }

  /** The entry of the i-th chip: its master's region is placed by first appearance. */
  function EntryOf<M(==)>(infos: seq<Info>, ms: seq<M>, i: nat, f: Format, size: map<M, nat>): seq<Byte>
    requires i < |infos| == |ms| && f.pageSize > 0
    requires forall m | m in ms :: m in size
  {
    FirstsIn(ms);
    Entry(infos[i], f, OffsetIn(Firsts(ms), ms[i], Base(f, |ms|), size), size[ms[i]])
  }

  /** The entries of the first n chips. */
  function Table<M(==)>(infos: seq<Info>, ms: seq<M>, n: nat, f: Format, size: map<M, nat>): seq<Byte>
    requires n <= |infos| == |ms| && f.pageSize > 0
    requires forall m | m in ms :: m in size
  {
    if n == 0 then [] else Table(infos, ms, n - 1, f, size) + EntryOf(infos, ms, n - 1, f, size)
  }

  /** Where the i-th entry starts in the table. */
  function EntryStart(f: Format, i: nat): nat {
    if i == 0 then 0 else EntryStart(f, i - 1) + EntrySize(f)
  }

  /** The blobs of the given masters, one behind the other. */
  function Blobs<M(==)>(ms: seq<M>, file: map<M, File>, pageSize: nat): seq<Byte>
    requires pageSize > 0 && forall m | m in ms :: m in file
  {
    if ms == [] then []
    else Blobs(ms[..|ms| - 1], file, pageSize) + Padded(file[ms[|ms| - 1]], pageSize)
  }

  function Padded(file: File, pageSize: nat): seq<Byte>
    requires pageSize > 0
  {
    file + Zeros(pageSize - |file| % pageSize)
  }

  /** Header, table and end marker, padded to a page boundary. */
  function Front<M(==)>(infos: seq<Info>, ms: seq<M>, f: Format, size: map<M, nat>): seq<Byte>
    requires |infos| == |ms| && f.pageSize > 0
    requires forall m | m in ms :: m in size
  {
    Header(f, |ms|) + Table(infos, ms, |ms|, f, size) + Bytes4(0) + Zeros(Padding(f, |ms|))
  }

  /** The whole file. */
  function Image<M(==)>(infos: seq<Info>, ms: seq<M>, f: Format, size: map<M, nat>, file: map<M, File>): seq<Byte>
    requires |infos| == |ms| && f.pageSize > 0
    requires forall m | m in ms :: m in size && m in file
  {
    FirstsIn(ms);
    Front(infos, ms, f, size) + Blobs(Firsts(ms), file, f.pageSize)
  }

  function Padding(f: Format, count: nat): nat
    requires f.pageSize > 0
  {
    f.pageSize - (12 + EntryStart(f, count) + 4) % f.pageSize
  }

  lemma {:induction false} FirstsIn<M>(ms: seq<M>)
    ensures forall i | 0 <= i < |Firsts(ms)| :: Firsts(ms)[i] in ms
    ensures forall i | 0 <= i < |ms| :: ms[i] in Firsts(ms)
    ensures forall i, j | 0 <= i < j < |Firsts(ms)| :: Firsts(ms)[i] != Firsts(ms)[j]
  {
    if ms != [] {
      FirstsIn(ms[..|ms| - 1]);
      assert ms == ms[..|ms| - 1] + [ms[|ms| - 1]];
    }
  }

  // ---------- the bytes are where the table says ----------

  /** Every master's size is that of its padded file. */
  ghost predicate SizesMatch<M>(ms: seq<M>, f: Format, size: map<M, nat>, file: map<M, File>)
    requires f.pageSize > 0
  {
    forall m | m in ms :: m in size && m in file && size[m] == |Padded(file[m], f.pageSize)|
  }

  lemma EntryStartIsProduct(f: Format, i: nat)
    ensures EntryStart(f, i) == i * EntrySize(f)
  {
  }

  lemma {:induction false} TableLength<M>(infos: seq<Info>, ms: seq<M>, n: nat, f: Format, size: map<M, nat>)
    requires n <= |infos| == |ms| && f.pageSize > 0 && forall m | m in ms :: m in size
    requires forall i | 0 <= i < n :: GoodInfo(infos[i])
    ensures |Table(infos, ms, n, f, size)| == EntryStart(f, n) <==> n == 0 || f.version != 0
    ensures |Table(infos, ms, n, f, size)| <= EntryStart(f, n)
  {
    if n > 0 {
      TableLength(infos, ms, n - 1, f, size);
      FirstsIn(ms);
      EntryFits(infos[n - 1], f, OffsetIn(Firsts(ms), ms[n - 1], Base(f, |ms|), size), size[ms[n - 1]]);
    }
  }

  /** The bytes x stand in s from position pos on. */
  predicate At<T(==)>(s: seq<T>, pos: nat, x: seq<T>) {
    pos + |x| <= |s| && s[pos..pos + |x|] == x
  }

  lemma AtFront<T>(a: seq<T>, b: seq<T>, pos: nat, x: seq<T>)
    requires At(a, pos, x)
    ensures At(a + b, pos, x)
  {
  }

  lemma AtBack<T>(a: seq<T>, b: seq<T>, pos: nat, x: seq<T>)
    requires At(b, pos, x)
    ensures At(a + b, |a| + pos, x)
  {
    assert (a + b)[|a| + pos..|a| + pos + |x|] == b[pos..pos + |x|];
  }

  lemma AtWithin<T>(s: seq<T>, pos: nat, x: seq<T>, at: nat, y: seq<T>)
    requires At(s, pos, x) && At(x, at, y)
    ensures At(s, pos + at, y)
  {
    forall i | 0 <= i < |y| ensures s[pos + at..pos + at + |y|][i] == y[i] {
      assert s[pos + at + i] == s[pos..pos + |x|][at + i];
      assert x[at + i] == x[at..at + |y|][i];
    }
  }

  lemma AtEnd<T>(a: seq<T>, b: seq<T>)
    ensures At(a + b, |a|, b)
  {
  }

  lemma {:induction false} TableSlice<M>(infos: seq<Info>, ms: seq<M>, n: nat, f: Format, size: map<M, nat>, i: nat)
    requires i < n <= |infos| == |ms| && f.pageSize > 0 && f.version != 0 && forall m | m in ms :: m in size
    requires forall j | 0 <= j < n :: GoodInfo(infos[j])
    ensures At(Table(infos, ms, n, f, size), EntryStart(f, i), EntryOf(infos, ms, i, f, size))
    ensures EntryStart(f, i) == i * EntrySize(f)
  {
    EntryStartIsProduct(f, i);
    var front := Table(infos, ms, n - 1, f, size);
    var last := EntryOf(infos, ms, n - 1, f, size);
    TableLength(infos, ms, n - 1, f, size);
    assert Table(infos, ms, n, f, size) == front + last;
    hide Table, EntryOf, EntryStart, At;
    if i < n - 1 {
      TableSlice(infos, ms, n - 1, f, size, i);
      AtFront(front, last, EntryStart(f, i), EntryOf(infos, ms, i, f, size));
    } else {
      AtEnd(front, last);
    }
  }

  lemma {:induction false} BlobsLength<M>(ms: seq<M>, f: Format, size: map<M, nat>, file: map<M, File>)
    requires f.pageSize > 0 && SizesMatch(ms, f, size, file)
    ensures |Blobs(ms, file, f.pageSize)| == Total(ms, size)
  {
    if ms != [] { BlobsLength(ms[..|ms| - 1], f, size, file); }
  }

  /** The k-th blob starts where the sizes before it add up to. */
  lemma {:induction false} BlobSlice<M>(ms: seq<M>, k: nat, f: Format, size: map<M, nat>, file: map<M, File>)
    requires f.pageSize > 0 && SizesMatch(ms, f, size, file) && k < |ms|
    ensures At(Blobs(ms, file, f.pageSize), Total(ms[..k], size), Padded(file[ms[k]], f.pageSize))
  {
    var n := |ms| - 1;
    var front, last := Blobs(ms[..n], file, f.pageSize), Padded(file[ms[n]], f.pageSize);
    BlobsLength(ms[..n], f, size, file);
    if k < n {
      BlobSlice(ms[..n], k, f, size, file);
      assert ms[..n][..k] == ms[..k];
      AtFront(front, last, Total(ms[..k], size), Padded(file[ms[k]], f.pageSize));
    } else {
      AtEnd(front, last);
    }
  }

  lemma {:induction false} OffsetAt<M>(ms: seq<M>, k: nat, base: nat, size: map<M, nat>)
    requires Distinct(ms) && k < |ms| && forall m | m in ms :: m in size
    ensures OffsetIn(ms, ms[k], base, size) == base + Total(ms[..k], size)
  {
    var n := |ms| - 1;
    if k < n {
      OffsetAt(ms[..n], k, base, size);
      assert ms[..n][..k] == ms[..k];
    }
  }

  /** Where the offset stands in an entry; the size follows it. */
  function KeySize(f: Format): nat {
    if f.version <= 1 then 12 else if f.version == 2 then 16 else 32
  }

  lemma EntryFields(info: Info, f: Format, offset: nat, size: nat)
    requires GoodInfo(info) && f.version != 0
    ensures At(Entry(info, f, offset, size), KeySize(f), Bytes4(offset))
    ensures At(Entry(info, f, offset, size), KeySize(f) + 4, Bytes4(size))
  {
    hide Bytes4;
    assert |EntryKey(info, f)| == KeySize(f);
  }

  /** The bytes written are as many as expected, except in the version that no input yields. */
  lemma ImageSize<M>(infos: seq<Info>, ms: seq<M>, f: Format, size: map<M, nat>, file: map<M, File>)
    requires |infos| == |ms| > 0 && f.pageSize > 0 && SizesMatch(ms, f, size, file)
    requires forall i | 0 <= i < |infos| :: GoodInfo(infos[i])
    ensures forall m | m in Firsts(ms) :: m in size
    ensures |Image(infos, ms, f, size, file)| == Base(f, |ms|) + Total(Firsts(ms), size) <==> f.version != 0
  {
    FirstsIn(ms);
    hide Bytes4;
    TableLength(infos, ms, |ms|, f, size);
    BlobsLength(Firsts(ms), f, size, file);
  }

  lemma AtBounds<T>(s: seq<T>, pos: nat, x: seq<T>)
    requires At(s, pos, x)
    ensures pos + |x| <= |s| && s[pos..pos + |x|] == x
  {
  }

  lemma ReadsWord(image: seq<Byte>, at: nat, x: nat)
    requires At(image, at, Bytes4(x)) && x < 0x1_0000_0000
    ensures at + 4 <= |image| && Word4(image[at..at + 4]) == x
  {
    WordRoundTrip(x);
  }

  lemma BlobInImage<M>(infos: seq<Info>, ms: seq<M>, f: Format, size: map<M, nat>, file: map<M, File>, k: nat)
    requires |infos| == |ms| && k < |Firsts(ms)| && f.pageSize > 0 && f.version != 0 && SizesMatch(ms, f, size, file)
    requires forall j | 0 <= j < |infos| :: GoodInfo(infos[j])
    ensures Firsts(ms)[k] in ms && forall m | m in Firsts(ms) :: m in size
    ensures At(Image(infos, ms, f, size, file), Base(f, |ms|) + Total(Firsts(ms)[..k], size),
               Padded(file[Firsts(ms)[k]], f.pageSize))
  {
    hide At, Padded, Total, Blobs, Firsts, Base, Front;
    FirstsIn(ms);
    BlobSlice(Firsts(ms), k, f, size, file);
    FrontLength(infos, ms, f, size);
    AtBack(Front(infos, ms, f, size), Blobs(Firsts(ms), file, f.pageSize), Total(Firsts(ms)[..k], size),
           Padded(file[Firsts(ms)[k]], f.pageSize));
  }

  lemma FrontLength<M>(infos: seq<Info>, ms: seq<M>, f: Format, size: map<M, nat>)
    requires |infos| == |ms| && f.pageSize > 0 && f.version != 0 && forall m | m in ms :: m in size
    requires forall j | 0 <= j < |infos| :: GoodInfo(infos[j])
    ensures |Front(infos, ms, f, size)| == Base(f, |ms|)
  {
    TableLength(infos, ms, |ms|, f, size);
  }

  /** The offset and size of the i-th chip's master stand in the i-th entry. */
  lemma EntryInImage<M>(infos: seq<Info>, ms: seq<M>, f: Format, size: map<M, nat>, file: map<M, File>, i: nat)
    requires i < |infos| == |ms| && f.pageSize > 0 && f.version != 0 && SizesMatch(ms, f, size, file)
    requires forall j | 0 <= j < |infos| :: GoodInfo(infos[j])
    ensures ms[i] in Firsts(ms) && forall m | m in Firsts(ms) :: m in size
    ensures var image := Image(infos, ms, f, size, file);
      var at := 12 + EntryStart(f, i) + KeySize(f);
      && At(image, at, Bytes4(OffsetIn(Firsts(ms), ms[i], Base(f, |ms|), size)))
      && At(image, at + 4, Bytes4(size[ms[i]]))
  {
    hide Image, Front, Table, Entry, EntryStart, Base, Bytes4, Firsts, OffsetIn, KeySize, At;
    FirstsIn(ms);
    var offset := OffsetIn(Firsts(ms), ms[i], Base(f, |ms|), size);
    var image, entry := Image(infos, ms, f, size, file), EntryOf(infos, ms, i, f, size);
    TableSlice(infos, ms, |ms|, f, size, i);
    TableInImage(infos, ms, f, size, file, EntryStart(f, i), entry);
    EntryFields(infos[i], f, offset, size[ms[i]]);
    AtWithin(image, 12 + EntryStart(f, i), entry, KeySize(f), Bytes4(offset));
    AtWithin(image, 12 + EntryStart(f, i), entry, KeySize(f) + 4, Bytes4(size[ms[i]]));
  }

  lemma TableInImage<M>(infos: seq<Info>, ms: seq<M>, f: Format, size: map<M, nat>, file: map<M, File>,
                        pos: nat, x: seq<Byte>)
    requires |infos| == |ms| && f.pageSize > 0 && forall m | m in ms :: m in size && m in file
    requires At(Table(infos, ms, |ms|, f, size), pos, x)
    ensures At(Image(infos, ms, f, size, file), 12 + pos, x)
  {
    hide Table, At, Bytes4, Zeros, Padding, Blobs, Firsts;
    FirstsIn(ms);
    var table := Table(infos, ms, |ms|, f, size);
    AtBack(Header(f, |ms|), table, pos, x);
    AtFront(Header(f, |ms|) + table, Bytes4(0), 12 + pos, x);
    AtFront(Header(f, |ms|) + table + Bytes4(0), Zeros(Padding(f, |ms|)), 12 + pos, x);
    AtFront(Front(infos, ms, f, size), Blobs(Firsts(ms), file, f.pageSize), 12 + pos, x);
  }

  // ---------- the regions tile the file ----------

  lemma AlignedSum(a: nat, b: nat, pageSize: nat)
    requires Aligned(a, pageSize) && Aligned(b, pageSize)
    ensures Aligned(a + b, pageSize)
  {
    var p: nat :| a == p * pageSize;
    var q: nat :| b == q * pageSize;
    assert a + b == (p + q) * pageSize;
  }

  lemma {:induction false} TotalAligned<M>(ms: seq<M>, f: Format, size: map<M, nat>, file: map<M, File>)
    requires f.pageSize > 0 && SizesMatch(ms, f, size, file)
    ensures Aligned(Total(ms, size), f.pageSize)
  {
    if ms == [] {
      assert 0 == 0 * f.pageSize;
    } else {
      var n := |ms| - 1;
      TotalAligned(ms[..n], f, size, file);
      PaddedIsAligned(|file[ms[n]]|, f.pageSize);
      AlignedSum(Total(ms[..n], size), size[ms[n]], f.pageSize);
    }
  }

  lemma StartsFollow<M>(ms: seq<M>, k: nat, base: nat, size: map<M, nat>)
    requires Distinct(ms) && k < |ms| && forall m | m in ms :: m in size
    ensures var start := OffsetIn(ms, ms[k], base, size);
      && start == base + Total(ms[..k], size)
      && (k == 0 ==> start == base)
      && start + size[ms[k]] == if k + 1 < |ms| then OffsetIn(ms, ms[k + 1], base, size) else base + Total(ms, size)
  {
    hide OffsetIn;
    OffsetAt(ms, k, base, size);
    if k + 1 < |ms| { OffsetAt(ms, k + 1, base, size); } else { assert ms[..k + 1] == ms; }
    assert ms[..k + 1][..k] == ms[..k];
  }

  /**
   * The regions of the masters, in order of first appearance, start on page boundaries, follow one
   * another without gap or overlap from the end of the padded table, and end with the file.
   */
  lemma RegionsTile<M>(infos: seq<Info>, ms: seq<M>, f: Format, size: map<M, nat>, file: map<M, File>, k: nat)
    requires |infos| == |ms| && k < |Firsts(ms)| && f.pageSize > 0 && f.version != 0 && SizesMatch(ms, f, size, file)
    requires forall i | 0 <= i < |infos| :: GoodInfo(infos[i])
    ensures forall m | m in Firsts(ms) :: m in size
    ensures var firsts, base := Firsts(ms), Base(f, |ms|);
      var start := OffsetIn(firsts, firsts[k], base, size);
      && Aligned(start, f.pageSize)
      && (k == 0 ==> EntryPos(f, |ms|) + 4 < start <= EntryPos(f, |ms|) + 4 + f.pageSize)
      && start + size[firsts[k]] == if k + 1 < |firsts| then OffsetIn(firsts, firsts[k + 1], base, size)
                                    else |Image(infos, ms, f, size, file)|
  {
    FirstsIn(ms);
    hide Image, Padded, Firsts, Aligned, OffsetIn, Total;
    var firsts, base := Firsts(ms), Base(f, |ms|);
    StartsFollow(firsts, k, base, size);
    ImageSize(infos, ms, f, size, file);
    TotalAligned(firsts[..k], f, size, file);
    EntryStartIsProduct(f, |ms|);
    PaddedIsAligned(12 + EntryStart(f, |ms|) + 4, f.pageSize);
    AlignedSum(base, Total(firsts[..k], size), f.pageSize);
  }

  // ---------- the whole file, byte by byte, as a loader reads it ----------

  predicate WordAt(image: seq<Byte>, at: nat, x: nat) {
    at + 4 <= |image| && Word4(image[at..at + 4]) == x
  }

  predicate AllZero(image: seq<Byte>, from: nat, to: nat) {
    to <= |image| && forall j | from <= j < to :: image[j] == 0
  }

  /** The magic QCDT, the version word and the number of chips. */
  predicate HeaderReads(image: seq<Byte>, f: Format, count: nat) {
    && |image| >= 12
    && image[0] == 0x51 && image[1] == 0x43 && image[2] == 0x44 && image[3] == 0x54
    && WordAt(image, 4, (f.motorola * 0x100 + f.version) % WORD_RANGE)
    && WordAt(image, 8, count % WORD_RANGE)
  }

  function EntryBytes(f: Format): nat {
    (if f.version == 1 then 20 else if f.version == 2 then 24 else 40) + if f.motorola != 0 then 32 else 0
  }

  /** Where the i-th entry stands in the file. */
  function EntryPos(f: Format, i: nat): nat {
    12 + i * EntryBytes(f)
  }

  /** What the entry at this position says of its chip. */
  predicate ChipReads(image: seq<Byte>, at: nat, info: Info, f: Format) {
    && WordAt(image, at, info.chipset)
    && WordAt(image, at + 4, info.platform)
    && (f.version == 1 ==> WordAt(image, at + 8, info.revNum))
    && (f.version >= 2 ==> WordAt(image, at + 8, info.subtype) && WordAt(image, at + 12, info.revNum))
    && (f.version >= 3 ==>
          && WordAt(image, at + 16, info.pmic.0) && WordAt(image, at + 20, info.pmic.1)
          && WordAt(image, at + 24, info.pmic.2) && WordAt(image, at + 28, info.pmic.3))
    && (f.motorola != 0 ==>
          var model := at + if f.version == 1 then 20 else if f.version == 2 then 24 else 40;
          model + 32 <= |image| && image[model..model + 32] == info.model)
  }

  /**
   * The offset and the size in the entry at this position delimit the bytes of the file, followed by zeros up to a
   * page boundary, and by a whole page of them if the file ends on one.
   */
  ghost predicate FileReads(image: seq<Byte>, at: nat, f: Format, file: File) {
    var fields := at + if f.version == 1 then 12 else if f.version == 2 then 16 else 32;
    && fields + 8 <= |image|
    && var offset, length := Word4(image[fields..fields + 4]), Word4(image[fields + 4..fields + 8]);
    && offset + length <= |image|
    && |file| < length <= |file| + f.pageSize
    && Aligned(offset, f.pageSize) && Aligned(length, f.pageSize)
    && image[offset..offset + |file|] == file
    && AllZero(image, offset + |file|, offset + length)
  }

  /** Behind the last entry there is a zero word, and zeros up to the next page boundary. */
  predicate TableEnds(image: seq<Byte>, f: Format, count: nat)
    requires f.pageSize > 0
  {
    var end := EntryPos(f, count) + 4;
    AllZero(image, end - 4, end + (f.pageSize - end % f.pageSize))
  }

  /** The file says of each chip what is known of it, and has the chip's DTB where it says. */
  ghost predicate ReadsBack<M>(image: seq<Byte>, f: Format, infos: seq<Info>, ms: seq<M>, file: map<M, File>)
    requires |infos| == |ms| && f.pageSize > 0 && forall m | m in ms :: m in file
  {
    && HeaderReads(image, f, |infos|)
    && TableEnds(image, f, |infos|)
    && forall i | 0 <= i < |infos| ::
      ChipReads(image, EntryPos(f, i), infos[i], f) && FileReads(image, EntryPos(f, i), f, file[ms[i]])
  }

  lemma StartsWithHeader<M>(infos: seq<Info>, ms: seq<M>, f: Format, size: map<M, nat>, file: map<M, File>)
    requires |infos| == |ms| && f.pageSize > 0 && forall m | m in ms :: m in size && m in file
    ensures HeaderReads(Image(infos, ms, f, size, file), f, |infos|)
  {
    hide Table, Bytes4, Word4, Blobs, Firsts, Padding;
    FirstsIn(ms);
    var image, version := Image(infos, ms, f, size, file), f.motorola * 0x100 + f.version;
    assert image[..12] == Header(f, |ms|);
    assert image[4..8] == Header(f, |ms|)[4..8] == Bytes4(version);
    assert image[8..12] == Header(f, |ms|)[8..12] == Bytes4(|ms|);
    WordRoundTrip(version);
    WordRoundTrip(|ms|);
  }

  lemma EndsWithZeros<M>(infos: seq<Info>, ms: seq<M>, f: Format, size: map<M, nat>, file: map<M, File>)
    requires |infos| == |ms| && f.pageSize > 0 && f.version != 0 && forall m | m in ms :: m in size && m in file
    requires forall j | 0 <= j < |infos| :: GoodInfo(infos[j])
    ensures TableEnds(Image(infos, ms, f, size, file), f, |infos|)
  {
    hide Table, Blobs, Firsts, Header;
    FirstsIn(ms);
    TableLength(infos, ms, |ms|, f, size);
    EntryStartIsProduct(f, |ms|);
    var front := Header(f, |ms|) + Table(infos, ms, |ms|, f, size);
    var image := Image(infos, ms, f, size, file);
    assert image == front + (Bytes4(0) + Zeros(Padding(f, |ms|))) + Blobs(Firsts(ms), file, f.pageSize);
  }

  lemma FieldReads(image: seq<Byte>, pos: nat, entry: seq<Byte>, at: nat, x: nat)
    requires At(image, pos, entry) && At(entry, at, Bytes4(x)) && x < WORD_RANGE
    ensures WordAt(image, pos + at, x)
  {
    AtWithin(image, pos, entry, at, Bytes4(x));
    ReadsWord(image, pos + at, x);
  }

  /** Where the words of an entry stand in it. */
  lemma EntryWords(info: Info, f: Format, offset: nat, size: nat)
    requires GoodInfo(info) && f.version != 0
    ensures var e := Entry(info, f, offset, size);
      && At(e, 0, Bytes4(info.chipset)) && At(e, 4, Bytes4(info.platform))
      && (f.version == 1 ==> At(e, 8, Bytes4(info.revNum)))
      && (f.version >= 2 ==> At(e, 8, Bytes4(info.subtype)) && At(e, 12, Bytes4(info.revNum)))
      && (f.motorola != 0 ==> At(e, EntryBytes(f) - 32, info.model))
  {
    hide Bytes4;
    var rest := Bytes4(offset) + Bytes4(size) + (if f.motorola != 0 then info.model else []);
    assert Entry(info, f, offset, size) == EntryKey(info, f) + rest;
  }

  lemma PmicWords(info: Info, f: Format, offset: nat, size: nat)
    requires GoodInfo(info) && f.version >= 3
    ensures var e := Entry(info, f, offset, size);
      && At(e, 16, Bytes4(info.pmic.0)) && At(e, 20, Bytes4(info.pmic.1))
      && At(e, 24, Bytes4(info.pmic.2)) && At(e, 28, Bytes4(info.pmic.3))
  {
    hide Bytes4;
    var rest := Bytes4(offset) + Bytes4(size) + (if f.motorola != 0 then info.model else []);
    assert Entry(info, f, offset, size) == EntryKey(info, f) + rest;
  }

  lemma EntryReadsChip(image: seq<Byte>, pos: nat, info: Info, f: Format, offset: nat, size: nat)
    requires GoodInfo(info) && f.version != 0 && At(image, pos, Entry(info, f, offset, size))
    ensures ChipReads(image, pos, info, f)
  {
    var e := Entry(info, f, offset, size);
    EntryWords(info, f, offset, size);
    if f.version >= 3 { PmicWords(info, f, offset, size); }
    hide Entry, At, Bytes4, WordAt;
    FieldReads(image, pos, e, 0, info.chipset);
    FieldReads(image, pos, e, 4, info.platform);
    FieldReads(image, pos, e, 8, if f.version == 1 then info.revNum else info.subtype);
    if f.version >= 2 { FieldReads(image, pos, e, 12, info.revNum); }
    if f.version >= 3 {
      FieldReads(image, pos, e, 16, info.pmic.0);
      FieldReads(image, pos, e, 20, info.pmic.1);
      FieldReads(image, pos, e, 24, info.pmic.2);
      FieldReads(image, pos, e, 28, info.pmic.3);
    }
    if f.motorola != 0 {
      AtWithin(image, pos, e, EntryBytes(f) - 32, info.model);
      AtBounds(image, pos + EntryBytes(f) - 32, info.model);
    }
  }

  lemma ChipInImage<M>(infos: seq<Info>, ms: seq<M>, f: Format, size: map<M, nat>, file: map<M, File>, i: nat)
    requires i < |infos| == |ms| && f.pageSize > 0 && f.version != 0 && forall m | m in ms :: m in size && m in file
    requires forall j | 0 <= j < |infos| :: GoodInfo(infos[j])
    ensures ChipReads(Image(infos, ms, f, size, file), EntryPos(f, i), infos[i], f)
  {
    hide Image, Table, Entry, EntryStart, Base, Firsts, OffsetIn, At, ChipReads, Padded;
    FirstsIn(ms);
    EntryStartIsProduct(f, i);
    TableSlice(infos, ms, |ms|, f, size, i);
    TableInImage(infos, ms, f, size, file, EntryStart(f, i), EntryOf(infos, ms, i, f, size));
    EntryReadsChip(Image(infos, ms, f, size, file), 12 + EntryStart(f, i), infos[i], f,
                   OffsetIn(Firsts(ms), ms[i], Base(f, |ms|), size), size[ms[i]]);
  }

  /** What a padded file looks like in place. */
  lemma PaddedReads(image: seq<Byte>, at: nat, file: File, pageSize: nat)
    requires pageSize > 0 && At(image, at, Padded(file, pageSize))
    ensures var length := |Padded(file, pageSize)|;
      && |file| < length <= |file| + pageSize && Aligned(length, pageSize)
      && at + length <= |image| && image[at..at + |file|] == file
      && AllZero(image, at + |file|, at + length)
  {
    PaddedIsAligned(|file|, pageSize);
    var padded := Padded(file, pageSize);
    var region := image[at..at + |padded|];
    assert region == padded && region[..|file|] == file && region[..|file|] == image[at..at + |file|];
    forall j | at + |file| <= j < at + |padded| ensures image[j] == 0 {
      assert image[j] == region[j - at];
    }
  }

  lemma LoaderFindsRegion<M>(infos: seq<Info>, ms: seq<M>, f: Format, size: map<M, nat>, file: map<M, File>,
                             i: nat, k: nat)
    requires i < |infos| == |ms| && f.pageSize > 0 && f.version != 0 && SizesMatch(ms, f, size, file)
    requires forall j | 0 <= j < |infos| :: GoodInfo(infos[j])
    requires |Image(infos, ms, f, size, file)| < WORD_RANGE
    requires k < |Firsts(ms)| && Firsts(ms)[k] == ms[i]
    ensures FileReads(Image(infos, ms, f, size, file), EntryPos(f, i), f, file[ms[i]])
  {
    hide Image, Base, EntryStart, Padded, Bytes4, Word4, Firsts, OffsetIn, Total, At, AllZero, Aligned;
    FirstsIn(ms);
    EntryStartIsProduct(f, i);
    EntryInImage(infos, ms, f, size, file, i);
    BlobInImage(infos, ms, f, size, file, k);
    OffsetAt(Firsts(ms), k, Base(f, |ms|), size);
    RegionsTile(infos, ms, f, size, file, k);
    var image, at := Image(infos, ms, f, size, file), 12 + EntryStart(f, i) + KeySize(f);
    var offset := OffsetIn(Firsts(ms), ms[i], Base(f, |ms|), size);
    PaddedReads(image, offset, file[ms[i]], f.pageSize);
    ReadsWord(image, at, offset);
    ReadsWord(image, at + 4, size[ms[i]]);
  }

  /**
   * A loader that takes offset and size from the i-th entry of the table finds there, on a page boundary, the bytes
   * of the file of the i-th chip's master, and behind them zeros up to the next page boundary.
   */
  lemma LoaderFindsFile<M>(infos: seq<Info>, ms: seq<M>, f: Format, size: map<M, nat>, file: map<M, File>, i: nat)
    requires i < |infos| == |ms| && f.pageSize > 0 && f.version != 0 && SizesMatch(ms, f, size, file)
    requires forall j | 0 <= j < |infos| :: GoodInfo(infos[j])
    requires |Image(infos, ms, f, size, file)| < WORD_RANGE
    ensures FileReads(Image(infos, ms, f, size, file), EntryPos(f, i), f, file[ms[i]])
  {
    FirstsIn(ms);
    var k :| 0 <= k < |Firsts(ms)| && Firsts(ms)[k] == ms[i];
    hide FileReads, Image, Firsts;
    LoaderFindsRegion(infos, ms, f, size, file, i, k);
  }

  /** Everything that goes into the file can be read back from fixed places and from where the entries point. */
  lemma ImageReadsBack<M>(infos: seq<Info>, ms: seq<M>, f: Format, size: map<M, nat>, file: map<M, File>)
    requires |infos| == |ms| && f.pageSize > 0 && f.version != 0 && SizesMatch(ms, f, size, file)
    requires forall j | 0 <= j < |infos| :: GoodInfo(infos[j])
    requires |Image(infos, ms, f, size, file)| < WORD_RANGE
    ensures ReadsBack(Image(infos, ms, f, size, file), f, infos, ms, file)
  {
    StartsWithHeader(infos, ms, f, size, file);
    EndsWithZeros(infos, ms, f, size, file);
    hide FileReads, ChipReads, HeaderReads, TableEnds, Image, Padded;
    var image := Image(infos, ms, f, size, file);
    forall i | 0 <= i < |infos|
      ensures ChipReads(image, EntryPos(f, i), infos[i], f)
      ensures FileReads(image, EntryPos(f, i), f, file[ms[i]])
    {
      ChipInImage(infos, ms, f, size, file, i);
      LoaderFindsFile(infos, ms, f, size, file, i);
    }
  }
}
