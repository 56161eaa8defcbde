/** Metadata tables: a byte stream cut into blocks of 8192 bytes, each stored compressed when that is
    smaller, each with a two-byte header. Positions are handed out before the blocks they lie in are
    compressed. */
module MetaTables {
  import opened Bytes
  import opened Codecs
  import opened Images

  const METADATA_SIZE: nat := 8192
  /** Set in a block header when the block is stored as it is. */
  const UNCOMPRESSED_BIT: nat := 0x8000

  datatype MetaBlock = MetaBlock(offset: nat, compressed: bool, data: bytes)

  /** `block` is the start of a stored block inside the table, `offset` a place inside its raw content. */
  datatype Position = Position(block: nat, offset: nat)

  /** A table between two calls: raw contents of the blocks closed so far, and of the open block. */
  datatype Contents = Contents(closed: seq<bytes>, open: bytes)
  {
    ghost predicate Valid() {
      |open| < METADATA_SIZE && AllBlocks(closed)
    }

    /** Everything appended so far. */
    function Stream(): bytes {
      Flatten(closed) + open
    }

    /** Only full blocks have been closed: true until the table is written. */
    ghost predicate Growing() {
      forall i :: 0 <= i < |closed| ==> |closed[i]| == METADATA_SIZE
    }
  }

  ghost predicate AllBlocks(raws: seq<bytes>) {
    forall i :: 0 <= i < |raws| ==> 0 < |raws[i]| <= METADATA_SIZE
  }

  // ---------------------------------------------------------------- writing

  /** The block a raw content is stored as. */
  function Store(codec: Option<Codec>, raw: bytes, offset: nat): (b: MetaBlock)
    ensures b.offset == offset
  {
    match codec
    case None => MetaBlock(offset, false, raw)
    case Some(c) =>
      var out := c.compressMeta(raw, METADATA_SIZE);
      if out.Some? && |out.value| < |raw| then MetaBlock(offset, true, out.value)
      else MetaBlock(offset, false, raw)
  }

  function BlockBytes(b: MetaBlock): bytes {
    Le16(|b.data| + (if b.compressed then 0 else UNCOMPRESSED_BIT)) + b.data
  }

  /** A raw content as it lies in the table: header and stored data. */
  function Encoded(codec: Option<Codec>, raw: bytes): (b: bytes)
  {
    BlockBytes(Store(codec, raw, 0))
  }

  /** A whole table as it lies in the image. */
  function TableBytes(codec: Option<Codec>, raws: seq<bytes>): bytes {
    if raws == [] then [] else Encoded(codec, raws[0]) + TableBytes(codec, raws[1..])
  }

  /** The stored blocks of a list of raw contents; block offsets are 32-bit. */
  function Pack(codec: Option<Codec>, raws: seq<bytes>): (blocks: seq<MetaBlock>)
    ensures |blocks| == |raws|
  {
    if raws == [] then []
    else Pack(codec, Front(raws)) + [Store(codec, Last(raws), |TableBytes(codec, Front(raws))| % U32)]
  }

  /** Close the open block, if there is one. */
  function Close(c: Contents): Contents {
    if c.open == [] then c else Contents(c.closed + [c.open], [])
  }

  /** Append bytes, closing every block that fills up. */
  function Feed(c: Contents, data: bytes): (r: Contents)
    requires |c.open| < METADATA_SIZE
    decreases |data|
  {
    var room := METADATA_SIZE - |c.open|;
    if |data| < room then Contents(c.closed, c.open + data)
    else Feed(Contents(c.closed + [c.open + data[..room]], []), data[room..])
  }

  function PositionOf(codec: Option<Codec>, c: Contents): Position {
    Position(|TableBytes(codec, c.closed)| % U32, |c.open|)
  }

  lemma {:induction false} TableAppend(codec: Option<Codec>, a: seq<bytes>, b: seq<bytes>)
    ensures TableBytes(codec, a + b) == TableBytes(codec, a) + TableBytes(codec, b)
  {
    if a == [] {
      assert a + b == b;
    } else {
      TableAppend(codec, a[1..], b);
      assert (a + b)[0] == a[0] && (a + b)[1..] == a[1..] + b;
      ConcatAssociates(Encoded(codec, a[0]), TableBytes(codec, a[1..]), TableBytes(codec, b));
    }
  }

  lemma TableSnoc(codec: Option<Codec>, a: seq<bytes>, raw: bytes)
    ensures TableBytes(codec, a + [raw]) == TableBytes(codec, a) + Encoded(codec, raw)
  {
    TableAppend(codec, a, [raw]);
    assert [raw][1..] == [];
    assert TableBytes(codec, [raw]) == Encoded(codec, raw) + [];
  }

  lemma {:induction false} PackElement(codec: Option<Codec>, raws: seq<bytes>, i: nat)
    requires i < |raws|
    ensures Pack(codec, raws)[i] == Store(codec, raws[i], |TableBytes(codec, raws[..i])| % U32)
  {
    if i < |raws| - 1 {
      PackElement(codec, Front(raws), i);
      assert Front(raws)[..i] == raws[..i];
    } else {
      assert raws[..i] == Front(raws);
    }
  }

  lemma PackSnoc(codec: Option<Codec>, raws: seq<bytes>, raw: bytes)
    ensures Pack(codec, raws + [raw]) == Pack(codec, raws) + [Store(codec, raw, |TableBytes(codec, raws)| % U32)]
  {
    assert Front(raws + [raw]) == raws;
  }

  /** What appending does to a table: the old blocks stay, and everything is kept in order. */
  lemma {:induction false} FeedKeeps(c: Contents, data: bytes)
    requires c.Valid()
    ensures Feed(c, data).Valid()
    ensures Feed(c, data).Stream() == c.Stream() + data
    ensures c.closed <= Feed(c, data).closed
    ensures c.Growing() ==> Feed(c, data).Growing()
    ensures Feed(c, data) != c ==> data != []
    decreases |data|
  {
    var room := METADATA_SIZE - |c.open|;
    if |data| < room {
      assert Flatten(c.closed) + (c.open + data) == c.Stream() + data;
    } else {
      var next := Contents(c.closed + [c.open + data[..room]], []);
      FilledUp(c, data[..room]);
      FeedKeeps(next, data[room..]);
      hide Flatten;
      assert data == data[..room] + data[room..];
      ConcatAssociates(c.Stream(), data[..room], data[room..]);
      assert c.closed <= next.closed;
    }
  }

  lemma FilledUp(c: Contents, data: bytes)
    ensures Contents(c.closed + [c.open + data], []).Stream() == c.Stream() + data
  {
    FlattenSnoc(c.closed, c.open + data);
    ConcatAssociates(Flatten(c.closed), c.open, data);
    hide Flatten;
  }

  lemma CloseKeeps(c: Contents)
    requires c.Valid()
    ensures Close(c).Valid() && Close(c).open == []
    ensures Close(c).Stream() == c.Stream()
    ensures c.closed <= Close(c).closed
  {
    FlattenSnoc(c.closed, c.open);
  }

  // ---------------------------------------------------------------- reading

  /** The raw content of the block at the front of `table`, and the bytes it takes up there. */
  function ReadBlock(codec: Codec, table: bytes): Option<(bytes, nat)> {
    if |table| < 2 then None
    else
      var header := Un16(table[..2]);
      var size := header % 0x8000;
      if |table| < 2 + size then None
      else
        var body := table[2..2 + size];
        Some((if header >= 0x8000 then body else codec.decompress(body), 2 + size))
  }

  /** Reads `count` bytes, starting at `offset` inside the first block and going on through as many
      blocks as it takes. */
  function ReadFrom(codec: Codec, table: bytes, offset: nat, count: nat): Option<bytes>
    decreases |table|
  {
    if count == 0 then Some([])
    else
      match ReadBlock(codec, table)
      case None => None
      case Some((raw, used)) =>
        if offset > |raw| then None
        else if count <= |raw| - offset then Some(raw[offset..offset + count])
        else
          match ReadFrom(codec, table[used..], 0, count - (|raw| - offset))
          case None => None
          case Some(rest) => Some(raw[offset..] + rest)
  }

  /** Reads `count` bytes of the table at the front of `table` from a position. */
  function ReadAt(codec: Codec, table: bytes, pos: Position, count: nat): Option<bytes> {
    if |table| < pos.block then None else ReadFrom(codec, table[pos.block..], pos.offset, count)
  }

  /** The compressor setting a table is written with: this codec, or none. */
  ghost predicate Uses(writer: Option<Codec>, reader: Codec) {
    reader.Lawful() && (writer == None || writer == Some(reader))
  }

  lemma ReadsBlock(writer: Option<Codec>, reader: Codec, raw: bytes, rest: bytes)
    requires Uses(writer, reader) && 0 < |raw| <= METADATA_SIZE
    ensures ReadBlock(reader, Encoded(writer, raw) + rest) == Some((raw, |Encoded(writer, raw)|))
  {
    hide Le16, Un16, Store;
    var b := Store(writer, raw, 0);
    var header := |b.data| + (if b.compressed then 0 else UNCOMPRESSED_BIT);
    StoredReads(writer, reader, raw);
    Le16Reads(header);
    BlockParts(Le16(header), b.data, rest);
  }

  /** What is stored for a block gives it back, and its size and flag fit the header. */
  lemma StoredReads(writer: Option<Codec>, reader: Codec, raw: bytes)
    requires Uses(writer, reader) && 0 < |raw| <= METADATA_SIZE
    ensures var b := Store(writer, raw, 0);
            |b.data| <= METADATA_SIZE && (if b.compressed then reader.decompress(b.data) else b.data) == raw
  {
  }

  lemma BlockParts(header: bytes, data: bytes, rest: bytes)
    requires |header| == 2
    ensures (header + data + rest)[..2] == header && (header + data + rest)[2..2 + |data|] == data
  {
  }

  lemma ReadsOne(reader: Codec, head: bytes, raw: bytes, rest: bytes, offset: nat, count: nat)
    requires ReadBlock(reader, head + rest) == Some((raw, |head|))
    requires 0 < count && offset <= |raw|
    ensures offset + count <= |raw| ==> ReadFrom(reader, head + rest, offset, count) == Some(raw[offset..offset + count])
    ensures offset + count > |raw| && ReadFrom(reader, rest, 0, offset + count - |raw|).Some? ==>
              ReadFrom(reader, head + rest, offset, count) == Some(raw[offset..] + ReadFrom(reader, rest, 0, offset + count - |raw|).value)
  {
    assert (head + rest)[|head|..] == rest;
  }

  lemma DropFront<T>(a: seq<T>, b: seq<T>, c: seq<T>)
    ensures |a| <= |a + b + c| && (a + b + c)[|a|..] == b + c
  {
  }

  lemma {:induction false} ReadsFront(writer: Option<Codec>, reader: Codec, raws: seq<bytes>, offset: nat, count: nat, tail: bytes)
    requires Uses(writer, reader) && AllBlocks(raws)
    requires offset + count <= |Flatten(raws)|
    requires raws != [] ==> offset <= |raws[0]|
    ensures ReadFrom(reader, TableBytes(writer, raws) + tail, offset, count) == Some(Flatten(raws)[offset..offset + count])
  {
    hide ReadFrom, ReadBlock, TableBytes, Encoded, Flatten, Uses;
    if count == 0 {
      ReadNothing(reader, TableBytes(writer, raws) + tail, offset, Flatten(raws));
    } else {
      SomeBlock(raws);
      var raw, more := raws[0], raws[1..];
      var head, rest := Encoded(writer, raw), TableBytes(writer, more) + tail;
      FirstBlock(writer, raws, tail);
      ReadsBlock(writer, reader, raw, rest);
      ReadsOne(reader, head, raw, rest, offset, count);
      SliceOverEdge(raw, Flatten(more), offset, count);
      if offset + count > |raw| {
        ReadsFront(writer, reader, more, 0, offset + count - |raw|, tail);
      }
    }
  }

  lemma ReadNothing(reader: Codec, table: bytes, offset: nat, stream: bytes)
    requires offset <= |stream|
    ensures ReadFrom(reader, table, offset, 0) == Some(stream[offset..offset])
  {
    assert stream[offset..offset] == [];
  }

  lemma SomeBlock(raws: seq<bytes>)
    requires Flatten(raws) != []
    ensures raws != []
  {
  }

  lemma FirstBlock(writer: Option<Codec>, raws: seq<bytes>, tail: bytes)
    requires raws != []
    ensures TableBytes(writer, raws) + tail == Encoded(writer, raws[0]) + (TableBytes(writer, raws[1..]) + tail)
    ensures Flatten(raws) == raws[0] + Flatten(raws[1..])
  {
    hide Encoded;
    ConcatAssociates(Encoded(writer, raws[0]), TableBytes(writer, raws[1..]), tail);
  }

  lemma SliceOverEdge<T>(a: seq<T>, b: seq<T>, from: nat, count: nat)
    requires from <= |a| && from + count <= |a + b|
    ensures from + count <= |a| ==> (a + b)[from..from + count] == a[from..from + count]
    ensures from + count > |a| ==> (a + b)[from..from + count] == a[from..] + b[0..from + count - |a|]
  {
  }

  /** Reading a written table from any place inside any of its blocks returns the raw bytes from there
      on, whatever the sizes the blocks were compressed to and whatever follows the table. */
  lemma ReadsBack(writer: Option<Codec>, reader: Codec, before: seq<bytes>, raws: seq<bytes>, offset: nat, count: nat, tail: bytes)
    requires Uses(writer, reader) && AllBlocks(raws)
    requires offset + count <= |Flatten(raws)|
    requires raws != [] ==> offset <= |raws[0]|
    ensures ReadAt(reader, TableBytes(writer, before + raws) + tail, Position(|TableBytes(writer, before)|, offset), count)
         == Some(Flatten(raws)[offset..offset + count])
  {
    TableAppend(writer, before, raws);
    DropFront(TableBytes(writer, before), TableBytes(writer, raws), tail);
    ReadsFront(writer, reader, raws, offset, count, tail);
  }

  /** How block `k` of a table lies in it: two bytes with the size stored and a flag, then the block, compressed
      exactly if there is a compressor and it makes it smaller. */
  lemma BlockIsKept(writer: Option<Codec>, raws: seq<bytes>, k: nat)
    requires AllBlocks(raws) && k < |raws|
    ensures var table, at, raw := TableBytes(writer, raws), |TableBytes(writer, raws[..k])|, raws[k];
            var smaller := writer.Some? && writer.value.compressMeta(raw, 8192).Some? && |writer.value.compressMeta(raw, 8192).value| < |raw|;
            var stored := if smaller then writer.value.compressMeta(raw, 8192).value else raw;
            && at + 2 + |stored| <= |table| && Un16(table[at..at + 2]) == |stored| + (if smaller then 0 else 0x8000)
            && table[at + 2..at + 2 + |stored|] == stored
  {
    hide Le16, Un16, TableBytes, Store;
    var b := Store(writer, raws[k], 0);
    var header := |b.data| + (if b.compressed then 0 else UNCOMPRESSED_BIT);
    assert raws == raws[..k] + raws[k..];
    TableAppend(writer, raws[..k], raws[k..]);
    FirstOfTable(writer, raws[k..]);
    StoredAs(writer, raws[k]);
    Le16Reads(header);
    BlockBehind(TableBytes(writer, raws[..k]), Le16(header), b.data, TableBytes(writer, raws[k + 1..]));
  }

  lemma FirstOfTable(writer: Option<Codec>, raws: seq<bytes>)
    requires raws != []
    ensures TableBytes(writer, raws) == Encoded(writer, raws[0]) + TableBytes(writer, raws[1..])
  {
  }

  lemma StoredAs(writer: Option<Codec>, raw: bytes)
    requires 0 < |raw| <= 8192
    ensures var b := Store(writer, raw, 0);
            && (b.compressed <==> writer.Some? && writer.value.compressMeta(raw, 8192).Some? && |writer.value.compressMeta(raw, 8192).value| < |raw|)
            && b.data == (if b.compressed then writer.value.compressMeta(raw, 8192).value else raw) && |b.data| <= 8192
  {
  }

  lemma BlockBehind(before: bytes, header: bytes, data: bytes, rest: bytes)
    requires |header| == 2
    ensures var all := before + (header + data + rest); var at := |before|;
            all[at..at + 2] == header && all[at + 2..at + 2 + |data|] == data
  {
  }

  // ---------------------------------------------------------------- a run of appends

  /** The table after appending each chunk in turn. */
  function AppendAll(chunks: seq<bytes>): (c: Contents)
    ensures c.Valid() && c.Growing()
    ensures c.Stream() == Flatten(chunks)
  {
    if chunks == [] then Contents([], [])
    else
      var before := AppendAll(Front(chunks));
      assert Front(chunks) + [Last(chunks)] == chunks;
      FlattenSnoc(Front(chunks), Last(chunks));
      FeedKeeps(before, Last(chunks));
      Feed(before, Last(chunks))
  }

  /** The raw blocks of a table made by appending some chunks. */
  function BlocksOf(chunks: seq<bytes>): seq<bytes> {
    Close(AppendAll(chunks)).closed
  }

  lemma AppendAllSnoc(chunks: seq<bytes>, data: bytes)
    ensures AppendAll(chunks + [data]) == Feed(AppendAll(chunks), data)
  {
    assert Front(chunks + [data]) == chunks;
  }

  /** `late` can be reached from `early` by appending and closing: what was placed stays where it is. */
  ghost predicate Extends(late: Contents, early: Contents) {
    && early.closed <= late.closed
    && early.open <= (if |late.closed| == |early.closed| then late.open else late.closed[|early.closed|])
  }

  lemma ExtendsTransitive(c: Contents, b: Contents, a: Contents)
    requires Extends(c, b) && Extends(b, a)
    ensures Extends(c, a)
  {
  }

  lemma {:induction false} FeedExtends(c: Contents, data: bytes)
    requires |c.open| < METADATA_SIZE
    ensures Extends(Feed(c, data), c)
    decreases |data|
  {
    var room := METADATA_SIZE - |c.open|;
    if room <= |data| {
      var next := Contents(c.closed + [c.open + data[..room]], []);
      FeedExtends(next, data[room..]);
      assert next.closed[|c.closed|] == c.open + data[..room];
      ExtendsTransitive(Feed(c, data), next, c);
    }
  }

  lemma CloseExtends(c: Contents)
    ensures Extends(Close(c), c)
  {
  }

  lemma {:induction false} AppendAllExtends(chunks: seq<bytes>, k: nat)
    requires k <= |chunks|
    ensures Extends(AppendAll(chunks), AppendAll(chunks[..k]))
  {
    if k < |chunks| {
      AppendAllExtends(Front(chunks), k);
      assert Front(chunks)[..k] == chunks[..k];
      FeedExtends(AppendAll(Front(chunks)), Last(chunks));
      ExtendsTransitive(AppendAll(chunks), AppendAll(Front(chunks)), AppendAll(chunks[..k]));
    } else {
      assert chunks[..k] == chunks;
    }
  }

  lemma ExtendsStream(late: Contents, early: Contents)
    requires Extends(late, early)
    ensures Flatten(late.closed) == Flatten(early.closed) + Flatten(late.closed[|early.closed|..])
    ensures early.Stream() <= late.Stream()
  {
    var k, raws := |early.closed|, late.closed;
    assert raws == early.closed + raws[k..];
    FlattenAppend(early.closed, raws[k..]);
    assert late.Stream() == Flatten(early.closed) + (Flatten(raws[k..]) + late.open);
  }

  /** A position taken in one state of a table, read in a later state of it, after the table is written. */
  lemma PositionStaysGood(writer: Option<Codec>, reader: Codec, early: Contents, late: Contents, count: nat, tail: bytes)
    requires Uses(writer, reader) && late.Valid() && late.open == []
    requires Extends(late, early)
    requires |TableBytes(writer, late.closed)| < U32
    requires |early.Stream()| + count <= |late.Stream()|
    ensures ReadAt(reader, TableBytes(writer, late.closed) + tail, PositionOf(writer, early), count)
         == Some(late.Stream()[|early.Stream()|..|early.Stream()| + count])
  {
    hide TableBytes, ReadAt, Flatten, Uses;
    var before, raws := early.closed, late.closed[|early.closed|..];
    assert late.closed == before + raws;
    ExtendsStream(late, early);
    assert late.Stream() == Flatten(before) + Flatten(raws);
    PositionBlock(writer, before, raws);
    ReadsBack(writer, reader, before, raws, |early.open|, count, tail);
    SliceOfConcat(Flatten(before), Flatten(raws), |early.open|, count);
  }

  lemma PositionBlock(writer: Option<Codec>, before: seq<bytes>, raws: seq<bytes>)
    requires |TableBytes(writer, before + raws)| < U32
    ensures |TableBytes(writer, before)| % U32 == |TableBytes(writer, before)|
  {
    TableAppend(writer, before, raws);
  }

  lemma SliceOfConcat<T>(a: seq<T>, b: seq<T>, from: nat, count: nat)
    requires from + count <= |b|
    ensures (a + b)[|a| + from..|a| + from + count] == b[from..from + count]
  {
  }

  /** The round trip of a metadata table: append any chunks, write the table; then from the position
      issued with chunk `k` the table reads back that chunk and everything appended after it. */
  lemma AppendedReadsBack(writer: Option<Codec>, reader: Codec, chunks: seq<bytes>, k: nat, count: nat, tail: bytes)
    requires Uses(writer, reader) && k <= |chunks| && count <= |Flatten(chunks[k..])|
    requires |TableBytes(writer, BlocksOf(chunks))| < U32
    ensures ReadAt(reader, TableBytes(writer, BlocksOf(chunks)) + tail, PositionOf(writer, AppendAll(chunks[..k])), count)
         == Some(Flatten(chunks[k..])[..count])
  {
    hide Close, AppendAll, Extends, TableBytes, ReadAt, PositionOf, Flatten, Uses;
    EarlyAndLate(chunks, k);
    PositionStaysGood(writer, reader, AppendAll(chunks[..k]), Close(AppendAll(chunks)), count, tail);
    SliceOfConcat(Flatten(chunks[..k]), Flatten(chunks[k..]), 0, count);
  }

  /** The table after some of the appends, and after all of them once it is written. */
  lemma EarlyAndLate(chunks: seq<bytes>, k: nat)
    requires k <= |chunks|
    ensures var early, late := AppendAll(chunks[..k]), Close(AppendAll(chunks));
            && Extends(late, early) && late.Valid() && late.open == []
            && early.Stream() == Flatten(chunks[..k]) && late.Stream() == Flatten(chunks[..k]) + Flatten(chunks[k..])
  {
    hide Close, AppendAll, Flatten, Extends;
    var early, all := AppendAll(chunks[..k]), AppendAll(chunks);
    SplitFlatten(chunks, k);
    AppendAllExtends(chunks, k);
    CloseExtends(all);
    CloseKeeps(all);
    ExtendsTransitive(Close(all), all, early);
  }

  lemma SplitFlatten(chunks: seq<bytes>, k: nat)
    requires k <= |chunks|
    ensures Flatten(chunks) == Flatten(chunks[..k]) + Flatten(chunks[k..])
  {
    assert chunks == chunks[..k] + chunks[k..];
    FlattenAppend(chunks[..k], chunks[k..]);
  }

  // ---------------------------------------------------------------- the table being built

  lemma ClosedSnoc(codec: Option<Codec>, closed: seq<bytes>, raw: bytes, size: nat)
    requires AllBlocks(closed) && 0 < |raw| <= METADATA_SIZE
    requires size == |TableBytes(codec, closed)| % U32
    ensures AllBlocks(closed + [raw])
    ensures Pack(codec, closed + [raw]) == Pack(codec, closed) + [Store(codec, raw, size)]
    ensures (size + (|Store(codec, raw, size).data| + 2)) % U32 == |TableBytes(codec, closed + [raw])| % U32
  {
    PackSnoc(codec, closed, raw);
    TableSnoc(codec, closed, raw);
    AddWraps(|TableBytes(codec, closed)|, |Encoded(codec, raw)|);
  }

  lemma AddWraps(a: nat, b: nat)
    ensures (a % U32 + b) % U32 == (a + b) % U32
  {
  }

  lemma BlockInTable(codec: Option<Codec>, raws: seq<bytes>, n: nat)
    requires n < |raws|
    ensures TableBytes(codec, raws[..n + 1]) == TableBytes(codec, raws[..n]) + BlockBytes(Pack(codec, raws)[n])
  {
    PackElement(codec, raws, n);
    assert raws[..n + 1] == raws[..n] + [raws[n]];
    TableSnoc(codec, raws[..n], raws[n]);
  }

  lemma NothingYet(file: bytes, log: seq<Extent>, at: nat, codec: Option<Codec>)
    ensures Pwrite(file, at, []) == file && CoversOnce(log, log, at, at) && TableBytes(codec, []) == []
  {
  }

  lemma BlockSize(b: MetaBlock)
    ensures |BlockBytes(b)| == |b.data| + 2
  {
  }

  lemma SmallStays(a: nat)
    requires a < U32
    ensures a % U32 == a
  {
  }

  lemma FeedStep(c: Contents, data: bytes, count: nat)
    requires |c.open| < METADATA_SIZE && 0 < count <= |data|
    requires count == (if |data| < METADATA_SIZE - |c.open| then |data| else METADATA_SIZE - |c.open|)
    ensures var next := Contents(c.closed, c.open + data[..count]);
            Feed(if |next.open| == METADATA_SIZE then Close(next) else next, data[count..]) == Feed(c, data)
  {
    if |data| < METADATA_SIZE - |c.open| {
      assert data[..count] == data && data[count..] == [];
      assert c.open + data + [] == c.open + data;
    }
  }

  lemma SplitRest(data: bytes, from: nat, to: nat)
    requires from <= to <= |data|
    ensures data[from..][..to - from] == data[from..to] && data[from..][to - from..] == data[to..]
  {
  }

  /** Where each block of a table that lies at `start` begins, as 64-bit words. */
  function IndexBytes(start: nat, blocks: seq<MetaBlock>): (b: bytes)
    ensures |b| == 8 * |blocks|
  {
    if blocks == [] then [] else IndexBytes(start, Front(blocks)) + Le64(start + Last(blocks).offset)
  }

  class MetaTable {
    const compressor: Option<Codec>
    /** Blocks already compressed, in table order. */
    var blocks: seq<MetaBlock>
    /** The block being filled, when there is one. */
    var buffer: array?<byte>
    var fill: nat
    /** Stored size of `blocks`, a 32-bit counter. */
    var size: nat
    /** Where the table went in the image, once written. */
    var offset: int
    /** Raw contents of `blocks`. */
    ghost var closed: seq<bytes>
    /** Everything appended, call by call. */
    ghost var appended: seq<bytes>

    ghost function Repr(): set<object>
      reads this
    {
      if buffer == null then {this} else {this, buffer}
    }

    /** Consistent, the buffer possibly just filled up. */
    ghost predicate Filled()
      reads this, buffer
    {
      && (buffer == null <==> fill == 0)
      && (buffer != null ==> buffer.Length == METADATA_SIZE && fill <= METADATA_SIZE)
      && AllBlocks(closed)
      && blocks == Pack(compressor, closed)
      && size == |TableBytes(compressor, closed)| % U32
    }

    ghost predicate Valid()
      reads this, buffer
    {
      Filled() && fill < METADATA_SIZE
    }

    ghost function Open(): bytes
      reads this, buffer
      requires Filled()
    {
      if buffer == null then [] else buffer[..fill]
    }

    /** The abstract value of the table. */
    ghost function Now(): (c: Contents)
      reads this, buffer
      requires Filled()
    {
      Contents(closed, Open())
    }

    /** Not written yet: the table is what the appends so far make of it. */
    ghost predicate Growing()
      reads this, buffer
    {
      Valid() && Now() == AppendAll(appended)
    }

    constructor (compressor: Option<Codec>)
      ensures Growing() && buffer == null && appended == []
      ensures Now() == Contents([], [])
      ensures this.compressor == compressor
    {
      this.compressor := compressor;
      blocks, buffer, fill, size, offset, closed, appended := [], null, 0, 0, -1, [], [];
    }

    method Flush()
      requires Filled()
      modifies this
      ensures Valid() && buffer == null && appended == old(appended)
      ensures Now() == Close(old(Now()))
    {
      if buffer == null { return; }
      var block := Store(compressor, buffer[..fill], size);
      ClosedSnoc(compressor, closed, buffer[..fill], size);
      closed := closed + [buffer[..fill]];
      buffer, fill := null, 0;
      blocks := blocks + [block];
      size := (size + (|block.data| + 2)) % U32;
    }

    /** Copies bytes that fit into the open block, opening one if need be. */
    method CopyIn(data: bytes, from: nat, count: nat)
      requires Valid() && 0 < count <= METADATA_SIZE - fill && from + count <= |data|
      modifies Repr()
      ensures Filled() && (buffer != old(buffer) ==> fresh(buffer))
      ensures buffer != null && fill == old(fill) + count && appended == old(appended)
      ensures Now() == Contents(old(closed), old(Open()) + data[from..from + count])
    {
      if buffer == null {
        buffer := new byte[METADATA_SIZE](i => 0);
      }
      forall i | 0 <= i < count {
        buffer[fill + i] := data[from + i];
      }
      fill := fill + count;
      assert buffer[..fill] == old(Open()) + data[from..from + count];
    }

    /** One round of the append loop: as much as fits, and the block is closed when it is full. */
    method PutSome(data: bytes, from: nat) returns (to: nat)
      requires Valid() && from < |data|
      modifies Repr()
      ensures from < to <= |data|
      ensures Valid() && (buffer != null && buffer != old(buffer) ==> fresh(buffer))
      ensures Feed(Now(), data[to..]) == Feed(old(Now()), data[from..]) && appended == old(appended)
    {
      hide Feed, Pack, TableBytes, AllBlocks;
      var toCopy := METADATA_SIZE - fill;
      if toCopy > |data| - from { toCopy := |data| - from; }
      to := from + toCopy;
      FeedStep(Now(), data[from..], toCopy);
      SplitRest(data, from, to);
      CopyIn(data, from, toCopy);
      if fill == METADATA_SIZE {
        Flush();
      }
    }

    method Append(data: bytes) returns (pos: Position)
      requires Valid()
      modifies Repr()
      ensures Valid() && (buffer != null && buffer != old(buffer) ==> fresh(buffer))
      ensures pos == PositionOf(compressor, old(Now()))
      ensures Now() == Feed(old(Now()), data)
      ensures appended == old(appended) + [data]
      ensures old(Growing()) ==> Growing() && pos == PositionOf(compressor, AppendAll(old(appended)))
    {
      pos := Position(size, fill);
      var done := 0;
      assert data[0..] == data;
      ghost var goal := Feed(Now(), data);
      while done < |data|
        invariant done <= |data| && Valid()
        invariant buffer != null && buffer != old(buffer) ==> fresh(buffer)
        invariant Feed(Now(), data[done..]) == goal && appended == old(appended)
      {
        done := PutSome(data, done);
      }
      assert data[done..] == [];
      assert Now().open + [] == Now().open;
      AppendAllSnoc(appended, data);
      appended := appended + [data];
    }

    /** Writes one block: the header, then the stored data. */
    static method WriteBlock(image: Image, at: nat, b: MetaBlock)
      requires |image.file| <= at
      modifies image`file, image`log
      ensures image.file == Pwrite(old(image.file), at, BlockBytes(b)) && |image.file| <= at + |BlockBytes(b)|
      ensures CoversOnce(image.log, old(image.log), at, at + |BlockBytes(b)|)
    {
      var header := Le16(|b.data| + (if b.compressed then 0 else UNCOMPRESSED_BIT));
      image.Write(at, header);
      label second:
      image.Write(at + 2, b.data);
      PwriteAdjacent(old(image.file), at, header, b.data);
      CoversJoin(image.log, old@second(image.log), old(image.log), at, at + 2, at + 2 + |b.data|);
    }

    /** Writes the blocks one after the other, the first at `start`. */
    static method WriteBlocks(image: Image, start: nat, list: seq<MetaBlock>, ghost codec: Option<Codec>, ghost raws: seq<bytes>)
      requires list == Pack(codec, raws) && |image.file| <= start
      modifies image`file, image`log
      ensures image.file == Pwrite(old(image.file), start, TableBytes(codec, raws))
      ensures |image.file| <= start + |TableBytes(codec, raws)|
      ensures CoversOnce(image.log, old(image.log), start, start + |TableBytes(codec, raws)|)
    {
      hide TableBytes, Pack, Pwrite, CoversOnce, BlockBytes;
      var at, n := start, 0;
      ghost var done: bytes := [];
      NothingYet(image.file, image.log, start, codec);
      assert raws[..0] == [];
      while n < |list|
        invariant 0 <= n <= |list| == |raws|
        invariant done == TableBytes(codec, raws[..n])
        invariant at == start + |done|
        invariant image.file == Pwrite(old(image.file), start, done)
        invariant |image.file| <= at
        invariant CoversOnce(image.log, old(image.log), start, at)
      {
        var b := list[n];
        BlockInTable(codec, raws, n);
        BlockSize(b);
        PwriteAdjacent(old(image.file), start, done, BlockBytes(b));
        label block:
        WriteBlock(image, at, b);
        CoversJoin(image.log, old@block(image.log), old(image.log), start, at, at + |BlockBytes(b)|);
        done := done + BlockBytes(b);
        at := at + |b.data| + 2;
        n := n + 1;
      }
      assert raws[..n] == raws;
    }

    /** Closes the last block, reserves room in the image and writes the blocks there. */
    method Write(image: Image) returns (start: nat)
      requires Valid() && image.Valid()
      requires |TableBytes(compressor, Close(Now()).closed)| < U32
      modifies this, image
      ensures Valid() && buffer == null && Now() == Close(old(Now())) && appended == old(appended)
      ensures image.Valid() && offset == start == old(image.size)
      ensures image.size == start + |TableBytes(compressor, closed)|
      ensures image.file == Pwrite(old(image.file), start, TableBytes(compressor, closed))
      ensures CoversOnce(image.log, old(image.log), start, image.size)
    {
      hide TableBytes, Pack, Close, Pwrite, CoversOnce, AllBlocks;
      Flush();
      SmallStays(|TableBytes(compressor, closed)|);
      start := image.Reserve(size);
      WriteBlocks(image, start, blocks, compressor, closed);
      offset := start;
    }

    /** Writes the table and, behind it, an index with the place of every block; `offset` is that of the index. */
    method WriteWithIndex(image: Image) returns (start: nat)
      requires Valid() && image.Valid()
      requires |TableBytes(compressor, Close(Now()).closed)| < U32
      modifies this, image
      ensures Valid() && buffer == null && Now() == Close(old(Now())) && appended == old(appended)
      ensures image.Valid() && start == old(image.size) && offset == start + |TableBytes(compressor, closed)|
      ensures image.size == offset + 8 * |closed|
      ensures image.file == Pwrite(old(image.file), start, TableBytes(compressor, closed) + IndexBytes(start, Pack(compressor, closed)))
      ensures CoversOnce(image.log, old(image.log), start, image.size)
    {
      hide TableBytes, Close, Pwrite, CoversOnce, AllBlocks, IndexBytes;
      start := Write(image);
      var base := image.Reserve(8 * |blocks|);
      var index := BuildIndex(start);
      label written:
      image.Write(base, index);
      PwriteAdjacent(old(image.file), start, TableBytes(compressor, closed), index);
      CoversJoin(image.log, old@written(image.log), old(image.log), start, base, image.size);
      offset := base;
    }

    /** The place of every block of a table that lies at `start`. */
    method BuildIndex(start: nat) returns (index: bytes)
      ensures index == IndexBytes(start, blocks)
    {
      index := [];
      var n := 0;
      while n < |blocks|
        invariant n <= |blocks| && index == IndexBytes(start, blocks[..n])
      {
        assert Front(blocks[..n + 1]) == blocks[..n];
        index := index + Le64(start + blocks[n].offset);
        n := n + 1;
      }
      assert blocks[..n] == blocks;
    }
  }
}
