/** Tables of fixed-size entries behind a block index: the fragment table, the export table and the table of
    extended attributes. */
module IndexedTables {
  import opened Bytes
  import opened Codecs
  import opened Images
  import opened MetaTables

  // ---------------------------------------------------------------- reading through the index

  /** Reads `count` bytes, from byte `p` of the table's stream on, through the index at `index`: slot p/8192
      gives the block, p mod 8192 the place inside. */
  function ReadRange(reader: Codec, file: bytes, index: nat, p: nat, count: nat): Option<bytes> {
    var slot := index + 8 * (p / 8192);
    if |file| < slot + 8 then None
    else
      var at := Un64(file[slot..slot + 8]);
      if |file| < at then None else ReadFrom(reader, file[at..], p % 8192, count)
  }

  /** What a table with an index leaves in the image: its blocks at `start`, and the index at `index`. */
  ghost predicate Written(writer: Option<Codec>, file: bytes, start: nat, closed: seq<bytes>, index: nat) {
    && start + |TableBytes(writer, closed)| < U64 && |TableBytes(writer, closed)| < U32
    && Lies(file, start, TableBytes(writer, closed)) && Lies(file, index, IndexBytes(start, Pack(writer, closed)))
  }

  /** What is written behind a table, or before all of it, does not matter. */
  lemma WrittenKept(writer: Option<Codec>, a: bytes, b: bytes, from: nat, start: nat, closed: seq<bytes>, index: nat)
    requires Written(writer, a, start, closed, index) && Keeps(a, b, from) && from <= start && from <= index
    ensures Written(writer, b, start, closed, index)
  {
    hide TableBytes, IndexBytes, Pack, Lies, Keeps;
    LiesKept(a, b, from, start, TableBytes(writer, closed));
    LiesKept(a, b, from, index, IndexBytes(start, Pack(writer, closed)));
  }

  lemma {:induction false} IndexSlot(start: nat, blocks: seq<MetaBlock>, k: nat)
    requires k < |blocks|
    ensures IndexBytes(start, blocks)[8 * k..8 * k + 8] == Le64(start + blocks[k].offset)
  {
    if k < |blocks| - 1 {
      IndexSlot(start, Front(blocks), k);
    }
  }

  /** All blocks of a written table but the last are full. */
  ghost predicate Even(closed: seq<bytes>) {
    AllBlocks(closed) && forall k :: 0 <= k < |closed| - 1 ==> |closed[k]| == METADATA_SIZE
  }

  lemma WrittenIsEven(chunks: seq<bytes>)
    ensures Even(Close(AppendAll(chunks)).closed) && Flatten(Close(AppendAll(chunks)).closed) == Flatten(chunks)
  {
    hide AppendAll;
    var c := AppendAll(chunks);
    CloseKeeps(c);
    assert Flatten(Close(c).closed) + [] == Flatten(Close(c).closed);
  }

  /** The blocks of a written table hold what was appended: 8192 bytes each, but for the last. */
  lemma WrittenBlocks(chunks: seq<bytes>)
    ensures Flatten(BlocksOf(chunks)) == Flatten(chunks)
    ensures forall k :: 0 <= k < |BlocksOf(chunks)| ==>
              0 < |BlocksOf(chunks)[k]| <= 8192 && (k < |BlocksOf(chunks)| - 1 ==> |BlocksOf(chunks)[k]| == 8192)
  {
    hide AppendAll, Close, Flatten;
    WrittenIsEven(chunks);
  }

  lemma {:induction false} EvenSizes(closed: seq<bytes>, k: nat)
    requires Even(closed) && k < |closed|
    ensures |Flatten(closed[..k])| == METADATA_SIZE * k
    ensures METADATA_SIZE * k < |Flatten(closed)| && (k == |closed| - 1 ==> |Flatten(closed)| <= METADATA_SIZE * k + METADATA_SIZE)
  {
    hide Flatten;
    assert closed == closed[..k] + closed[k..];
    FlattenAppend(closed[..k], closed[k..]);
    FlattenCons(closed[k..]);
    if k > 0 {
      EvenSizes(closed, k - 1);
      assert closed[..k] == closed[..k - 1] + [closed[k - 1]];
      FlattenSnoc(closed[..k - 1], closed[k - 1]);
    } else {
      FlattenNil();
    }
    if k == |closed| - 1 {
      assert closed[k..][1..] == [];
      FlattenNil();
    }
  }

  lemma FlattenCons(ss: seq<bytes>)
    requires ss != []
    ensures Flatten(ss) == ss[0] + Flatten(ss[1..])
  {
  }

  lemma FlattenNil()
    ensures Flatten<byte>([]) == []
  {
  }

  /** The number of blocks is the number of bytes, divided and rounded up: so many slots has the index. */
  lemma CountOfBlocks(closed: seq<bytes>)
    requires Even(closed)
    ensures |closed| == (|Flatten(closed)| + METADATA_SIZE - 1) / METADATA_SIZE
  {
    hide Flatten;
    if closed == [] {
      FlattenNil();
    } else {
      EvenSizes(closed, |closed| - 1);
      RoundUp(|Flatten(closed)|, |closed| - 1);
    }
  }

  lemma RoundUp(n: nat, k: nat)
    requires METADATA_SIZE * k < n <= METADATA_SIZE * k + METADATA_SIZE
    ensures (n + METADATA_SIZE - 1) / METADATA_SIZE == k + 1
  {
  }

  lemma SlotOf(p: nat, k: nat)
    ensures METADATA_SIZE * (p / METADATA_SIZE) + p % METADATA_SIZE == p
    ensures p < METADATA_SIZE * k ==> p / METADATA_SIZE < k
  {
  }

  /** The block with byte `p` of the stream: where it lies and what reading on from it gives. */
  lemma ReadsRange(writer: Option<Codec>, reader: Codec, closed: seq<bytes>, p: nat, count: nat, tail: bytes)
    requires Uses(writer, reader) && Even(closed) && p < |Flatten(closed)| && p + count <= |Flatten(closed)|
    ensures p / METADATA_SIZE < |closed|
    ensures var at := |TableBytes(writer, closed[..p / METADATA_SIZE])|;
            && at <= |TableBytes(writer, closed) + tail|
            && ReadFrom(reader, (TableBytes(writer, closed) + tail)[at..], p % METADATA_SIZE, count) == Some(Flatten(closed)[p..p + count])
  {
    hide Flatten, TableBytes, ReadFrom, Uses;
    var k := p / METADATA_SIZE;
    SlotOf(p, |closed|);
    var last := |closed| - 1;
    if closed == [] { FlattenNil(); }
    EvenSizes(closed, last);
    SlotWithin(p, last);
    EvenSizes(closed, k);
    assert closed == closed[..k] + closed[k..];
    FlattenAppend(closed[..k], closed[k..]);
    TableAppend(writer, closed[..k], closed[k..]);
    DropFront(TableBytes(writer, closed[..k]), TableBytes(writer, closed[k..]), tail);
    OffsetInBlock(closed, k, p);
    ReadsFront(writer, reader, closed[k..], p % METADATA_SIZE, count, tail);
    SliceOfConcat(Flatten(closed[..k]), Flatten(closed[k..]), p % METADATA_SIZE, count);
  }

  lemma SlotWithin(p: nat, last: nat)
    requires p < METADATA_SIZE * last + METADATA_SIZE
    ensures p / METADATA_SIZE <= last
  {
  }

  lemma OffsetInBlock(closed: seq<bytes>, k: nat, p: nat)
    requires Even(closed) && k < |closed| && k == p / METADATA_SIZE && p < |Flatten(closed)|
    ensures p % METADATA_SIZE <= |closed[k..][0]|
  {
    hide Flatten;
    SlotOf(p, 0);
    if k == |closed| - 1 {
      EvenSizes(closed, k);
      assert closed == closed[..k] + closed[k..];
      FlattenAppend(closed[..k], closed[k..]);
      FlattenCons(closed[k..]);
      assert closed[k..][1..] == [];
      FlattenNil();
    }
  }

  // ---------------------------------------------------------------- the table in the image

  lemma WrittenAt(writer: Option<Codec>, file: bytes, start: nat, closed: seq<bytes>, index: nat) returns (tail: bytes)
    requires Written(writer, file, start, closed, index) && closed != []
    ensures start <= |file| && file[start..] == TableBytes(writer, closed) + tail
    ensures index + 8 * |closed| <= |file| && file[index..index + 8 * |closed|] == IndexBytes(start, Pack(writer, closed))
  {
    hide TableBytes, IndexBytes, Pack;
    TableNotEmpty(writer, closed);
    tail := file[start + |TableBytes(writer, closed)|..];
  }

  lemma TableNotEmpty(writer: Option<Codec>, closed: seq<bytes>)
    requires closed != []
    ensures TableBytes(writer, closed) != []
  {
  }

  lemma SliceOfSlice(s: bytes, from: nat, length: nat, at: nat, count: nat)
    requires from + length <= |s| && at + count <= length
    ensures s[from..from + length][at..at + count] == s[from + at..from + at + count]
  {
    var a, b := s[from..from + length][at..at + count], s[from + at..from + at + count];
    assert |a| == |b| && forall i :: 0 <= i < count ==> a[i] == b[i];
  }

  lemma SlotReads(writer: Option<Codec>, file: bytes, start: nat, closed: seq<bytes>, index: nat, k: nat)
    requires Written(writer, file, start, closed, index) && k < |closed|
    ensures var slot := index + 8 * k;
            slot + 8 <= |file| && Un64(file[slot..slot + 8]) == start + |TableBytes(writer, closed[..k])|
    ensures start + |TableBytes(writer, closed[..k])| <= |file|
  {
    hide TableBytes, IndexBytes, Pack, Un64, Le64, Written;
    var tail := WrittenAt(writer, file, start, closed, index);
    var slots := file[index..index + 8 * |closed|];
    SliceOfSlice(file, index, 8 * |closed|, 8 * k, 8);
    IndexSlot(start, Pack(writer, closed), k);
    PackElement(writer, closed, k);
    assert closed == closed[..k] + closed[k..];
    TableAppend(writer, closed[..k], closed[k..]);
    WrittenSizes(writer, file, start, closed, index);
    SmallStays(|TableBytes(writer, closed[..k])|);
    Le64Back(start + |TableBytes(writer, closed[..k])|);
  }

  lemma WrittenSizes(writer: Option<Codec>, file: bytes, start: nat, closed: seq<bytes>, index: nat)
    requires Written(writer, file, start, closed, index)
    ensures start + |TableBytes(writer, closed)| < U64 && |TableBytes(writer, closed)| < U32
  {
  }

  lemma Le64Back(v: nat)
    requires v < U64
    ensures Un64(Le64(v)) == v
  {
    Le64Reads(v);
  }

  /** Any range of the table's stream is read back through the index. */
  lemma RangeReadsBack(writer: Option<Codec>, reader: Codec, file: bytes, start: nat, closed: seq<bytes>, index: nat, p: nat, count: nat)
    requires Uses(writer, reader) && Even(closed) && Written(writer, file, start, closed, index)
    requires p < |Flatten(closed)| && p + count <= |Flatten(closed)|
    ensures ReadRange(reader, file, index, p, count) == Some(Flatten(closed)[p..p + count])
  {
    hide TableBytes, Flatten, Written, Un64, ReadFrom, Uses, Even;
    if closed == [] { FlattenNil(); }
    var tail := WrittenAt(writer, file, start, closed, index);
    ReadsRange(writer, reader, closed, p, count, tail);
    var k := p / METADATA_SIZE;
    SlotReads(writer, file, start, closed, index, k);
    var at := |TableBytes(writer, closed[..k])|;
    assert file[start + at..] == file[start..][at..];
  }

  /** Entry `i` of a table of entries of `size` bytes. */
  function ReadEntry(reader: Codec, file: bytes, index: nat, size: nat, i: nat): Option<bytes> {
    ReadRange(reader, file, index, i * size, size)
  }

  lemma {:induction false} EntryInStream(entries: seq<bytes>, size: nat, i: nat)
    requires (forall k :: 0 <= k < |entries| ==> |entries[k]| == size) && i < |entries|
    ensures |Flatten(entries)| == |entries| * size && i * size + size <= |Flatten(entries)|
    ensures Flatten(entries)[i * size..i * size + size] == entries[i]
    decreases i
  {
    EntriesLength(entries, size);
    TimesNext(i, size, |entries|);
    if i > 0 {
      EntryInStream(entries[1..], size, i - 1);
      TimesNext(i - 1, size, |entries|);
    }
  }

  lemma TimesNext(i: nat, size: nat, n: nat)
    ensures (i + 1) * size == i * size + size
    ensures i < n ==> i * size + size <= n * size
  {
    if i < n { assert (n - i - 1) * size >= 0; }
  }

  lemma {:induction false} EntriesLength(entries: seq<bytes>, size: nat)
    requires forall k :: 0 <= k < |entries| ==> |entries[k]| == size
    ensures |Flatten(entries)| == |entries| * size
  {
    if entries != [] {
      EntriesLength(entries[1..], size);
    }
  }

  /** Every entry of an indexed table is found; and the index has exactly the slots it needs. */
  lemma EntriesReadBack(writer: Option<Codec>, reader: Codec, file: bytes, start: nat, chunks: seq<bytes>, index: nat, entries: seq<bytes>, size: nat, i: nat)
    requires Uses(writer, reader) && (forall k :: 0 <= k < |entries| ==> |entries[k]| == size) && 0 < size && i < |entries|
    requires Flatten(chunks) == Flatten(entries) && Written(writer, file, start, BlocksOf(chunks), index)
    ensures |BlocksOf(chunks)| == (|entries| * size + METADATA_SIZE - 1) / METADATA_SIZE
    ensures ReadEntry(reader, file, index, size, i) == Some(entries[i])
  {
    hide TableBytes, Flatten, Written, Uses, AppendAll, Close, ReadRange, Even;
    WrittenIsEven(chunks);
    EntriesLength(entries, size);
    CountOfBlocks(BlocksOf(chunks));
    EntryInStream(entries, size, i);
    RangeReadsBack(writer, reader, file, start, BlocksOf(chunks), index, i * size, size);
  }

  lemma WrittenBy(writer: Option<Codec>, file: bytes, start: nat, closed: seq<bytes>)
    requires |file| <= start
    requires start + |TableBytes(writer, closed)| < U64 && |TableBytes(writer, closed)| < U32
    ensures Written(writer, Pwrite(file, start, TableBytes(writer, closed) + IndexBytes(start, Pack(writer, closed))), start, closed,
                    start + |TableBytes(writer, closed)|)
  {
    hide TableBytes, IndexBytes, Pack, Pwrite, Lies, Keeps;
    var table, slots := TableBytes(writer, closed), IndexBytes(start, Pack(writer, closed));
    PwriteBehind(file, start, table + slots);
    LiesParts(Pwrite(file, start, table + slots), start, table, slots);
  }

  /** Makes a table of one chunk, and writes it with its index. */
  method WriteTable(compressor: Option<Codec>, data: bytes, image: Image) returns (index: nat)
    requires image.Valid() && |TableBytes(compressor, BlocksOf([data]))| < U32
    modifies image
    ensures image.Valid() && old(image.size) <= index <= image.size && Keeps(old(image.file), image.file, 0)
    ensures old(image.size) + |TableBytes(compressor, BlocksOf([data]))| < U64 ==>
              Written(compressor, image.file, old(image.size), BlocksOf([data]), index)
    ensures image.size == index + 8 * |BlocksOf([data])| && index == old(image.size) + |TableBytes(compressor, BlocksOf([data]))|
    ensures CoversOnce(image.log, old(image.log), old(image.size), image.size)
  {
    hide TableBytes, IndexBytes, AppendAll, Pack, Written, CoversOnce, Close, Pwrite, PositionOf, Keeps;
    var tab := new MetaTable(compressor);
    var _ := tab.Append(data);
    assert [] + [data] == [data];
    var start := tab.WriteWithIndex(image);
    PwriteBehind(old(image.file), start, TableBytes(compressor, BlocksOf([data])) + IndexBytes(start, Pack(compressor, BlocksOf([data]))));
    if start + |TableBytes(compressor, BlocksOf([data]))| < U64 { WrittenBy(compressor, old(image.file), start, BlocksOf([data])); }
    index := tab.offset;
  }
}
