/** The tables of extended attributes: sets appended to a data table, a descriptor for each set, and an index
    filled by walking the list of descriptor blocks. */
module XattrTables {
  import opened Bytes
  import opened Codecs
  import opened Images
  import opened MetaTables
  import opened IndexedTables

  const DESCRIPTOR_SIZE: nat := 16
  const TABLE_HEADER_SIZE: nat := 16

  datatype Xattr = Xattr(domain: nat, suffix: bytes, value: bytes)

  /** The four appends an attribute takes. */
  function AttrChunks(x: Xattr): (c: seq<bytes>)
    ensures |c| == 4
  {
    [Le16(x.domain) + Le16(|x.suffix|), x.suffix, Le32(|x.value|), x.value]
  }

  function SetChunks(attrs: seq<Xattr>): seq<bytes> {
    if attrs == [] then [] else SetChunks(Front(attrs)) + AttrChunks(Last(attrs))
  }

  function SetSize(attrs: seq<Xattr>): nat {
    if attrs == [] then 0 else SetSize(Front(attrs)) + (8 + |Last(attrs).suffix| + |Last(attrs).value|)
  }

  /** The stored size of a set is what its chunks take up. */
  lemma {:induction false} SetSizeIs(attrs: seq<Xattr>)
    ensures |Flatten(SetChunks(attrs))| == SetSize(attrs)
  {
    hide Le16, Le32;
    if attrs == [] {
    } else {
      var x := Last(attrs);
      var a, b := Le16(x.domain) + Le16(|x.suffix|), Le32(|x.value|);
      SetSizeIs(Front(attrs));
      FlattenAppend(SetChunks(Front(attrs)), AttrChunks(x));
      FourChunks(a, x.suffix, b, x.value);
    }
  }

  lemma FourChunks(a: bytes, b: bytes, c: bytes, d: bytes)
    ensures Flatten([a, b, c, d]) == a + b + c + d
  {
    FlattenSnoc([a, b, c], d);
    FlattenSnoc([a, b], c);
    FlattenSnoc([a], b);
    FlattenOne(a);
    assert [a, b, c] + [d] == [a, b, c, d] && [a, b] + [c] == [a, b, c] && [a] + [b] == [a, b];
  }

  /** The attributes of a set, as a reader takes them from its bytes: type and length of the name, the name, length of the
      value, the value. */
  function ReadAttrs(b: bytes, count: nat): Option<seq<Xattr>>
    decreases count
  {
    if count == 0 then Some([])
    else if |b| < 4 then None
    else
      var length := Un16(b[2..4]);
      if |b| < 8 + length then None
      else
        var size := Un32(b[4 + length..8 + length]);
        if |b| < 8 + length + size then None
        else
          match ReadAttrs(b[8 + length + size..], count - 1)
          case None => None
          case Some(more) => Some([Xattr(Un16(b[0..2]), b[4..4 + length], b[8 + length..8 + length + size])] + more)
  }

  /** An attribute fits the fields there are for it. */
  ghost predicate GoodXattr(x: Xattr) {
    x.domain < U16 && |x.suffix| < U16 && |x.value| < U32
  }

  function AttrBytes(x: Xattr): bytes {
    Flatten(AttrChunks(x))
  }

  lemma AttrParts(domain: bytes, length: bytes, suffix: bytes, size: bytes, value: bytes, rest: bytes)
    requires |domain| == |length| == 2 && |size| == 4
    ensures var b := domain + length + suffix + size + value + rest; var n := |suffix|;
            && b[0..2] == domain && b[2..4] == length && b[4..4 + n] == suffix && b[4 + n..8 + n] == size
            && b[8 + n..8 + n + |value|] == value && b[8 + n + |value|..] == rest
  {
  }

  lemma AttrReads(x: Xattr, rest: bytes, count: nat)
    requires GoodXattr(x)
    ensures ReadAttrs(AttrBytes(x) + rest, count + 1) == if ReadAttrs(rest, count).Some? then Some([x] + ReadAttrs(rest, count).value) else None
  {
    hide Le16, Le32, Un16, Un32, Flatten;
    FourChunks(Le16(x.domain) + Le16(|x.suffix|), x.suffix, Le32(|x.value|), x.value);
    AttrParts(Le16(x.domain), Le16(|x.suffix|), x.suffix, Le32(|x.value|), x.value, rest);
    Le16Reads(x.domain);
    Le16Reads(|x.suffix|);
    WordReads(|x.value|);
    SmallHalves(x);
  }

  lemma SmallHalves(x: Xattr)
    requires GoodXattr(x)
    ensures x.domain % U16 == x.domain && |x.suffix| % U16 == |x.suffix|
  {
  }

  lemma {:induction false} SetBytesCons(attrs: seq<Xattr>)
    requires attrs != []
    ensures Flatten(SetChunks(attrs)) == AttrBytes(attrs[0]) + Flatten(SetChunks(attrs[1..]))
  {
    hide Flatten, AttrChunks;
    FlattenAppend(SetChunks(Front(attrs)), AttrChunks(Last(attrs)));
    if |attrs| > 1 {
      SetBytesCons(Front(attrs));
      assert Front(attrs)[1..] == Front(attrs[1..]);
      FlattenAppend(SetChunks(Front(attrs[1..])), AttrChunks(Last(attrs)));
      ConcatAssociates(AttrBytes(attrs[0]), Flatten(SetChunks(Front(attrs[1..]))), Flatten(AttrChunks(Last(attrs))));
    } else {
      assert Front(attrs) == [] && attrs[1..] == [];
      FlattenNil();
    }
  }

  /** The attributes of a set come back from its bytes. */
  lemma {:induction false} AttrsRead(attrs: seq<Xattr>)
    requires forall i :: 0 <= i < |attrs| ==> GoodXattr(attrs[i])
    ensures ReadAttrs(Flatten(SetChunks(attrs)), |attrs|) == Some(attrs)
  {
    hide Flatten, SetChunks, AttrBytes, GoodXattr;
    if attrs != [] {
      SetBytesCons(attrs);
      AttrsRead(attrs[1..]);
      AttrReads(attrs[0], Flatten(SetChunks(attrs[1..])), |attrs| - 1);
      assert [attrs[0]] + attrs[1..] == attrs;
    }
  }

  /** What is read fits its fields, whatever it was read from. */
  lemma {:induction false} ReadAttrsFit(b: bytes, count: nat)
    ensures ReadAttrs(b, count).Some? ==> forall i :: 0 <= i < |ReadAttrs(b, count).value| ==> GoodXattr(ReadAttrs(b, count).value[i])
    decreases count
  {
    hide Un16, Un32;
    if count > 0 && |b| >= 4 && |b| >= 8 + Un16(b[2..4]) {
      var length := Un16(b[2..4]);
      var size := Un32(b[4 + length..8 + length]);
      if |b| >= 8 + length + size { ReadAttrsFit(b[8 + length + size..], count - 1); }
    }
  }

  /** A set comes back from its bytes exactly if each of its attributes fits the fields there are for it. */
  lemma AttrsRoundTrip(attrs: seq<Xattr>)
    ensures ReadAttrs(Flatten(SetChunks(attrs)), |attrs|) == Some(attrs) <==> forall i :: 0 <= i < |attrs| ==> GoodXattr(attrs[i])
  {
    hide Flatten, SetChunks, GoodXattr;
    if forall i :: 0 <= i < |attrs| ==> GoodXattr(attrs[i]) {
      AttrsRead(attrs);
    } else {
      ReadAttrsFit(Flatten(SetChunks(attrs)), |attrs|);
    }
  }

  /** A position in a descriptor: the block is shifted in 32 bits. */
  function PositionWord(at: Position): nat {
    at.block * U16 % U32 + at.offset
  }

  /** The position comes back exactly if the block lies in the first 64 KiB of the data table. */
  lemma PositionWordReads(at: Position)
    requires at.block < U32 && at.offset < U16
    ensures PositionWord(at) / U16 == at.block && PositionWord(at) % U16 == at.offset <==> at.block < U16
  {
    ShiftInWord(at.block);
  }

  lemma ShiftInWord(block: nat)
    ensures block * U16 % U32 == (block % U16) * U16
  {
    var low, high := block % U16, block / U16;
    assert block * U16 == high * U32 + low * U16;
  }

  function Descriptor(at: Position, count: nat, size: nat): (d: bytes)
    ensures |d| == DESCRIPTOR_SIZE
  {
    Le64(PositionWord(at)) + Le32(count) + Le32(size)
  }

  /** At the position in its descriptor, a set is read back. */
  lemma SetReadsBack(writer: Option<Codec>, reader: Codec, prior: seq<bytes>, attrs: seq<Xattr>, more: seq<bytes>, tail: bytes)
    requires Uses(writer, reader) && |TableBytes(writer, BlocksOf(prior + SetChunks(attrs) + more))| < U32
    ensures ReadAt(reader, TableBytes(writer, BlocksOf(prior + SetChunks(attrs) + more)) + tail, PositionOf(writer, AppendAll(prior)), SetSize(attrs))
         == Some(Flatten(SetChunks(attrs)))
  {
    hide TableBytes, Close, AppendAll, ReadAt, PositionOf, Flatten, Uses, SetChunks, SetSize;
    var chunks := SetChunks(attrs);
    var all := prior + chunks + more;
    assert all[..|prior|] == prior && all[|prior|..] == chunks + more;
    FlattenAppend(chunks, more);
    SetSizeIs(attrs);
    AppendedReadsBack(writer, reader, all, |prior|, SetSize(attrs), tail);
  }

  /** What a descriptor says about a set. */
  datatype SetPlace = SetPlace(at: Position, count: nat, size: nat)

  function DecodeDescriptor(d: bytes): Option<SetPlace> {
    if |d| != 16 then None
    else Some(SetPlace(Position(Un64(d[0..8]) / 0x1_0000, Un64(d[0..8]) % 0x1_0000), Un32(d[8..12]), Un32(d[12..16])))
  }

  lemma ThreeWords(a: bytes, b: bytes, c: bytes)
    requires |a| == 8 && |b| == |c| == 4
    ensures (a + b + c)[0..8] == a && (a + b + c)[8..12] == b && (a + b + c)[12..16] == c
  {
  }

  lemma WordSmall(at: Position)
    requires at.offset < U16
    ensures PositionWord(at) < U64
  {
  }

  /** A descriptor gives the position of its set exactly if the block lies in the first 64 KiB of the data. */
  lemma DescriptorDecodes(at: Position, count: nat, size: nat)
    requires at.block < U32 && at.offset < U16 && count < U32 && size < U32
    ensures DecodeDescriptor(Descriptor(at, count, size)) == Some(SetPlace(Position(PositionWord(at) / U16, PositionWord(at) % U16), count, size))
    ensures DecodeDescriptor(Descriptor(at, count, size)) == Some(SetPlace(at, count, size)) <==> at.block < U16
  {
    hide Le32, Le64, Un32, Un64, PositionWord;
    ThreeWords(Le64(PositionWord(at)), Le32(count), Le32(size));
    WordSmall(at);
    Le64Back(PositionWord(at));
    WordReads(count);
    WordReads(size);
    PositionWordReads(at);
  }

  lemma WordReads(v: nat)
    requires v < U32
    ensures Un32(Le32(v)) == v
  {
    Le32Reads(v);
    SmallStays(v);
  }

  /** Where the chunks of a set start among all that were appended. */
  datatype StoredSet = StoredSet(from: nat, attrs: seq<Xattr>)

  /** The data of a set lie among the chunks, and its descriptor, if it is not empty, says where. */
  ghost predicate SetStored(writer: Option<Codec>, s: StoredSet, chunks: seq<bytes>, row: bytes) {
    && s.from + |SetChunks(s.attrs)| <= |chunks| && chunks[s.from..s.from + |SetChunks(s.attrs)|] == SetChunks(s.attrs)
    && (s.attrs != [] ==> row == Descriptor(PositionOf(writer, AppendAll(chunks[..s.from])), |s.attrs|, SetSize(s.attrs)))
  }

  ghost predicate SetsStored(writer: Option<Codec>, sets: seq<StoredSet>, chunks: seq<bytes>, rows: seq<bytes>) {
    |sets| == |rows| && forall i :: 0 <= i < |sets| ==> SetStored(writer, sets[i], chunks, rows[i])
  }

  /** A set more, behind the others. */
  lemma SetsMore(writer: Option<Codec>, sets: seq<StoredSet>, chunks: seq<bytes>, rows: seq<bytes>, attrs: seq<Xattr>, row: bytes)
    requires SetsStored(writer, sets, chunks, rows)
    requires attrs != [] ==> row == Descriptor(PositionOf(writer, AppendAll(chunks)), |attrs|, SetSize(attrs))
    ensures SetsStored(writer, sets + [StoredSet(|chunks|, attrs)], chunks + SetChunks(attrs), rows + [row])
  {
    hide SetStored, SetChunks;
    forall i | 0 <= i < |sets|
      ensures SetStored(writer, sets[i], chunks + SetChunks(attrs), rows[i])
    {
      SetKept(writer, sets[i], chunks, SetChunks(attrs), rows[i]);
    }
    SetAdded(writer, chunks, attrs, row);
  }

  lemma SetKept(writer: Option<Codec>, s: StoredSet, chunks: seq<bytes>, more: seq<bytes>, row: bytes)
    requires SetStored(writer, s, chunks, row)
    ensures SetStored(writer, s, chunks + more, row)
  {
    hide PositionOf, AppendAll, Descriptor, SetChunks, SetSize;
    var n := |SetChunks(s.attrs)|;
    assert (chunks + more)[s.from..s.from + n] == chunks[s.from..s.from + n] && (chunks + more)[..s.from] == chunks[..s.from];
  }

  lemma SetAdded(writer: Option<Codec>, chunks: seq<bytes>, attrs: seq<Xattr>, row: bytes)
    requires attrs != [] ==> row == Descriptor(PositionOf(writer, AppendAll(chunks)), |attrs|, SetSize(attrs))
    ensures SetStored(writer, StoredSet(|chunks|, attrs), chunks + SetChunks(attrs), row)
  {
    hide PositionOf, AppendAll, Descriptor, SetChunks, SetSize;
    MiddleOf(chunks, SetChunks(attrs));
  }

  lemma MiddleOf<T>(a: seq<T>, b: seq<T>)
    ensures (a + b)[..|a|] == a && (a + b)[|a|..|a| + |b|] == b
  {
  }

  /** Reads the attributes of a set by its number: header, index, descriptor, data. */
  function ReadSet(reader: Codec, file: bytes, header: nat, id: nat): Option<seq<Xattr>> {
    if |file| < header + 16 || |file| < Un64(file[header..header + 8]) || id >= Un32(file[header + 8..header + 12]) then None
    else
      match ReadEntry(reader, file, header + 16, 16, id)
      case None => None
      case Some(d) =>
        match DecodeDescriptor(d)
        case None => None
        case Some(s) => ReadData(ReadAt(reader, file[Un64(file[header..header + 8])..], s.at, s.size), s.count)
  }

  function ReadData(b: Option<bytes>, count: nat): Option<seq<Xattr>> {
    if b.None? then None else ReadAttrs(b.value, count)
  }

  class XattrTable {
    const data: MetaTable
    const descriptors: MetaTable
    var nids: nat
    /** The sets, by their numbers. */
    ghost var sets: seq<StoredSet>
    /** Where the header went in the image; all ones if there is no table. */
    var offset: int

    ghost predicate Valid()
      reads this, data, data.buffer, descriptors, descriptors.buffer
    {
      Apart() && data.Growing() && descriptors.Growing() && Kept()
    }

    /** Each set lies in the data, and has its descriptor. */
    ghost predicate Kept()
      reads this`nids, this`sets, data`appended, descriptors`appended
    {
      Counted() && SetsStored(data.compressor, sets, data.appended, descriptors.appended)
    }

    ghost predicate Apart()
      reads data, descriptors
    {
      data != descriptors && (data.buffer == null || data.buffer != descriptors.buffer)
    }

    /** A descriptor for each set. */
    ghost predicate Counted()
      reads this`nids, descriptors`appended
    {
      |descriptors.appended| == nids && forall k :: 0 <= k < nids ==> |descriptors.appended[k]| == DESCRIPTOR_SIZE
    }

    /** Both tables are uncompressed. */
    constructor ()
      ensures Valid() && nids == 0 && data.compressor == None && descriptors.compressor == None
    {
      var d := new MetaTable(None);
      var e := new MetaTable(None);
      data, descriptors, nids, offset, sets := d, e, 0, -1, [];
    }

    static method Append(tab: MetaTable, chunk: bytes) returns (at: Position)
      requires tab.Growing()
      modifies tab.Repr()
      ensures tab.Growing() && (tab.buffer != null && tab.buffer != old(tab.buffer) ==> fresh(tab.buffer))
      ensures tab.appended == old(tab.appended) + [chunk] && at == PositionOf(tab.compressor, AppendAll(old(tab.appended)))
    {
      hide AppendAll, PositionOf;
      at := tab.Append(chunk);
    }

    method AppendAttr(x: Xattr) returns (at: Position)
      requires data.Growing()
      modifies data.Repr()
      ensures data.Growing() && (data.buffer != null && data.buffer != old(data.buffer) ==> fresh(data.buffer))
      ensures data.appended == old(data.appended) + AttrChunks(x)
      ensures at == PositionOf(data.compressor, AppendAll(old(data.appended)))
    {
      hide AppendAll, PositionOf, Le16, Le32, MetaTable.Growing;
      at := Append(data, Le16(x.domain) + Le16(|x.suffix|));
      var _ := Append(data, x.suffix);
      var _ := Append(data, Le32(|x.value|));
      var _ := Append(data, x.value);
      assert data.appended == old(data.appended) + AttrChunks(x);
    }

    /** Stores a set; `at` is that of its first attribute, and for the empty set whatever `unset` was. */
    method AppendAttrs(attrs: seq<Xattr>, unset: Position) returns (at: Position, size: nat)
      requires data.Growing()
      modifies data.Repr()
      ensures data.Growing() && (data.buffer != null && data.buffer != old(data.buffer) ==> fresh(data.buffer))
      ensures data.appended == old(data.appended) + SetChunks(attrs) && size == SetSize(attrs)
      ensures at == if attrs == [] then unset else PositionOf(data.compressor, AppendAll(old(data.appended)))
    {
      hide AppendAll, PositionOf, AttrChunks, MetaTable.Growing;
      at, size := unset, 0;
      var n := 0;
      while n < |attrs|
        invariant n <= |attrs| && data.Growing() && (data.buffer != null && data.buffer != old(data.buffer) ==> fresh(data.buffer))
        invariant data.appended == old(data.appended) + SetChunks(attrs[..n]) && size == SetSize(attrs[..n])
        invariant at == if n == 0 then unset else PositionOf(data.compressor, AppendAll(old(data.appended)))
      {
        var here := AppendAttr(attrs[n]);
        if n == 0 { at := here; }
        assert Front(attrs[..n + 1]) == attrs[..n];
        ConcatAssociates(old(data.appended), SetChunks(attrs[..n]), AttrChunks(attrs[n]));
        size := size + (8 + |attrs[n].suffix| + |attrs[n].value|);
        n := n + 1;
      }
      assert attrs[..n] == attrs;
    }

    /** Creates a set: it gets the next number, its data and its descriptor. */
    method AddSet(attrs: seq<Xattr>, unset: Position) returns (id: nat)
      requires Valid()
      modifies this`nids, this`sets, data.Repr(), descriptors.Repr()
      ensures Valid() && id == old(nids) && nids == id + 1 && sets == old(sets) + [StoredSet(|old(data.appended)|, attrs)]
      ensures data.buffer != null && data.buffer != old(data.buffer) ==> fresh(data.buffer)
      ensures descriptors.buffer != null && descriptors.buffer != old(descriptors.buffer) ==> fresh(descriptors.buffer)
      ensures data.appended == old(data.appended) + SetChunks(attrs)
      ensures var at := if attrs == [] then unset else PositionOf(data.compressor, AppendAll(old(data.appended)));
              descriptors.appended == old(descriptors.appended) + [Descriptor(at, |attrs|, SetSize(attrs))]
    {
      hide AppendAll, PositionOf, SetChunks, SetSize, MetaTable.Growing, Descriptor, Counted, SetsStored;
      id := nids;
      ghost var chunks, rows := data.appended, descriptors.appended;
      var at, size := AppendAttrs(attrs, unset);
      AppendDescriptor(Descriptor(at, |attrs|, size));
      SetsMore(data.compressor, sets, chunks, rows, attrs, Descriptor(at, |attrs|, size));
      sets := sets + [StoredSet(|chunks|, attrs)];
    }

    method AppendDescriptor(d: bytes)
      requires descriptors.Growing() && Counted() && |d| == DESCRIPTOR_SIZE
      modifies this`nids, descriptors.Repr()
      ensures descriptors.Growing() && (descriptors.buffer != null && descriptors.buffer != old(descriptors.buffer) ==> fresh(descriptors.buffer))
      ensures descriptors.appended == old(descriptors.appended) + [d] && nids == old(nids) + 1 && Counted()
    {
      hide AppendAll, PositionOf;
      var _ := descriptors.Append(d);
      nids := nids + 1;
    }

    /** How many index slots the descriptors need, from their number alone. */
    function IndexEntries(): nat
      reads this`nids
    {
      (nids * DESCRIPTOR_SIZE + METADATA_SIZE - 1) / METADATA_SIZE
    }

    /** The list of descriptor blocks has as many blocks as the index has slots: the walk along the list never
        runs past its end. */
    lemma WalkFits()
      requires Counted()
      ensures |BlocksOf(descriptors.appended)| == IndexEntries()
    {
      hide AppendAll, Close, Flatten, Even;
      WrittenIsEven(descriptors.appended);
      CountOfBlocks(BlocksOf(descriptors.appended));
      EntriesLength(descriptors.appended, DESCRIPTOR_SIZE);
    }

    /** Fills the index, walking along the list of descriptor blocks. */
    method WalkBlocks(start: nat) returns (index: bytes)
      requires |descriptors.blocks| == IndexEntries()
      ensures index == IndexBytes(start, descriptors.blocks)
    {
      index := [];
      var n := 0;
      while n < IndexEntries()
        invariant n <= |descriptors.blocks| && index == IndexBytes(start, descriptors.blocks[..n])
      {
        assert Front(descriptors.blocks[..n + 1]) == descriptors.blocks[..n];
        index := index + Le64(start + descriptors.blocks[n].offset);
        n := n + 1;
      }
      assert descriptors.blocks[..n] == descriptors.blocks;
    }

    /** The header: where the data are, and how many sets there are. */
    function Header(start: nat): (h: bytes)
      reads this`nids
      ensures |h| == TABLE_HEADER_SIZE
    {
      Le64(start) + Le32(nids) + Le32(0)
    }

    /** Writes a table and says where it lies. */
    static method WriteOne(tab: MetaTable, image: Image) returns (start: nat)
      requires tab.Growing() && image.Valid() && |TableBytes(tab.compressor, BlocksOf(tab.appended))| < U32
      modifies tab, image
      ensures image.Valid() && start == old(image.size) && image.size == start + |TableBytes(tab.compressor, BlocksOf(tab.appended))|
      ensures image.file == Pwrite(old(image.file), start, TableBytes(tab.compressor, BlocksOf(tab.appended)))
      ensures CoversOnce(image.log, old(image.log), start, image.size)
      ensures tab.appended == old(tab.appended) && tab.offset == start && tab.blocks == Pack(tab.compressor, BlocksOf(tab.appended))
    {
      hide TableBytes, AppendAll, Close, Pwrite, CoversOnce;
      start := tab.Write(image);
    }

    /** Writes `content` behind everything reserved so far. */
    static method WriteBehind(image: Image, content: bytes) returns (at: nat)
      requires image.Valid()
      modifies image
      ensures image.Valid() && at == old(image.size) && image.size == at + |content|
      ensures image.file == Pwrite(old(image.file), at, content) && CoversOnce(image.log, old(image.log), at, image.size)
    {
      hide Pwrite, CoversOnce;
      at := image.Reserve(|content|);
      image.Write(at, content);
    }

    /** What the tables look like in a file: the data at `start`, then the descriptors, the header, the index. */
    ghost predicate LiesAt(file: bytes, start: nat)
      reads this`offset, this`nids, data`appended, descriptors`appended
    {
      var table := TableBytes(data.compressor, BlocksOf(data.appended));
      var rows := TableBytes(descriptors.compressor, BlocksOf(descriptors.appended));
      && offset == start + |table| + |rows|
      && Lies(file, start, table) && Lies(file, offset, Header(start))
      && (offset < U64 ==> Written(descriptors.compressor, file, start + |table|, BlocksOf(descriptors.appended), offset + TABLE_HEADER_SIZE))
    }

    /** The tables lie in a file where `offset` says, if there are any sets. */
    ghost predicate Placed(file: bytes)
      reads this`offset, this`nids, data`appended, descriptors`appended
    {
      if nids == 0 then offset == -1
      else
        var size := |TableBytes(data.compressor, BlocksOf(data.appended))| + |TableBytes(descriptors.compressor, BlocksOf(descriptors.appended))|;
        offset >= size && LiesAt(file, offset - size)
    }

    /** The tables begin at `start`. */
    ghost predicate StartsAt(start: nat)
      reads this`offset, data`appended, descriptors`appended
    {
      offset == start + |TableBytes(data.compressor, BlocksOf(data.appended))| + |TableBytes(descriptors.compressor, BlocksOf(descriptors.appended))|
    }

    /** The tables, if there are any, begin at `from` or behind. */
    ghost predicate BeginsBehind(from: nat)
      reads this`offset, data`appended, descriptors`appended
    {
      offset >= 0 ==> exists start: nat :: from <= start && StartsAt(start)
    }

    lemma WrittenIsPlaced(file: bytes, start: nat)
      requires nids > 0 && LiesAt(file, start)
      ensures Placed(file) && StartsAt(start)
    {
      hide TableBytes, BlocksOf, Written, Lies, Header;
    }

    /** What is written before or behind the tables does not matter. */
    lemma PlacedKept(a: bytes, b: bytes, from: nat)
      requires Placed(a) && Keeps(a, b, from)
      requires BeginsBehind(from)
      ensures Placed(b)
    {
      hide TableBytes, BlocksOf, Written, Lies, Keeps, Header;
      if nids > 0 {
        var table, rows := TableBytes(data.compressor, BlocksOf(data.appended)), TableBytes(descriptors.compressor, BlocksOf(descriptors.appended));
        var start := offset - |table| - |rows|;
        LiesKept(a, b, from, start, table);
        LiesKept(a, b, from, offset, Header(start));
        if offset < U64 { WrittenKept(descriptors.compressor, a, b, from, start + |table|, BlocksOf(descriptors.appended), offset + TABLE_HEADER_SIZE); }
      }
    }

    /** Header and index, once the tables are written. */
    method WriteHeader(image: Image, ghost start: nat)
      requires image.Valid() && Counted() && data.offset == start && descriptors.offset >= 0
      requires descriptors.blocks == Pack(descriptors.compressor, BlocksOf(descriptors.appended))
      modifies this`offset, image
      ensures image.Valid() && Keeps(old(image.file), image.file, 0) && CoversOnce(image.log, old(image.log), old(image.size), image.size)
      ensures offset == old(image.size) && image.size == offset + TABLE_HEADER_SIZE + 8 * |descriptors.blocks|
      ensures Lies(image.file, offset, Header(start))
      ensures Lies(image.file, offset + TABLE_HEADER_SIZE, IndexBytes(descriptors.offset, Pack(descriptors.compressor, BlocksOf(descriptors.appended))))
    {
      hide TableBytes, IndexBytes, BlocksOf, Pwrite, CoversOnce, Le64, Le32, Pack, Lies, Keeps, Counted;
      WalkFits();
      ghost var file, log, size := image.file, image.log, image.size;
      offset := WriteBehind(image, Header(data.offset));
      ghost var middle, log1, size1 := image.file, image.log, image.size;
      PwriteBehind(file, size, Header(start));
      var slots := WalkBlocks(descriptors.offset);
      var _ := WriteBehind(image, slots);
      PwriteBehind(middle, size1, slots);
      LiesKept(middle, image.file, 0, size, Header(start));
      KeepsMore(file, middle, image.file, 0, 0);
      CoversJoin(image.log, log1, log, size, size1, image.size);
    }

    /** Writes the tables: data, descriptors, header, index; without sets there is nothing to write. */
    method Write(image: Image)
      requires Valid() && image.Valid()
      requires |TableBytes(data.compressor, BlocksOf(data.appended))| < U32 && |TableBytes(descriptors.compressor, BlocksOf(descriptors.appended))| < U32
      modifies this`offset, data, descriptors, image
      ensures nids == 0 ==> offset == -1 && image.size == old(image.size) && image.file == old(image.file)
      ensures nids > 0 ==> LiesAt(image.file, old(image.size))
      ensures image.Valid() && old(image.size) <= image.size && Keeps(old(image.file), image.file, 0)
      ensures CoversOnce(image.log, old(image.log), old(image.size), image.size)
      ensures data.appended == old(data.appended) && descriptors.appended == old(descriptors.appended) && Kept()
    {
      hide TableBytes, IndexBytes, BlocksOf, Pwrite, CoversOnce, Pack, Lies, Keeps, Header;
      if nids == 0 {
        offset := -1;
        CoversNothing(image.log, image.size);
        KeepsItself(image.file);
        return;
      }
      ghost var file, log, start := image.file, image.log, image.size;
      var first := WriteOne(data, image);
      ghost var file1, log1, size1 := image.file, image.log, image.size;
      PwriteBehind(file, start, TableBytes(data.compressor, BlocksOf(data.appended)));
      var second := WriteOne(descriptors, image);
      ghost var file2, log2, size2 := image.file, image.log, image.size;
      PwriteBehind(file1, size1, TableBytes(descriptors.compressor, BlocksOf(descriptors.appended)));
      WriteHeader(image, start);
      KeepsMore(file1, file2, image.file, 0, 0);
      KeepsMore(file, file1, image.file, 0, 0);
      LiesKept(file1, image.file, 0, start, TableBytes(data.compressor, BlocksOf(data.appended)));
      LiesKept(file2, image.file, 0, size1, TableBytes(descriptors.compressor, BlocksOf(descriptors.appended)));
      CoversJoin(log2, log1, log, start, size1, size2);
      CoversJoin(image.log, log2, log, start, size2, image.size);
    }

    /** From the header on, out of the image, a set is read back attribute by attribute, if each fits its fields and its
        data start in the first 64 KiB of the data table: that is where the descriptor gives the right position. */
    lemma SetReadsThroughDescriptor(reader: Codec, file: bytes, start: nat, id: nat)
      requires Uses(data.compressor, reader) && Uses(descriptors.compressor, reader) && Counted() && LiesAt(file, start) && 0 <= offset < U64 && nids < U32
      requires SetsStored(data.compressor, sets, data.appended, descriptors.appended) && id < nids && sets[id].attrs != []
      requires |TableBytes(data.compressor, BlocksOf(data.appended))| < U32 && |sets[id].attrs| < U32 && SetSize(sets[id].attrs) < U32
      ensures var s, at := sets[id], PositionOf(data.compressor, AppendAll(data.appended[..sets[id].from]));
              && (DecodeDescriptor(descriptors.appended[id]) == Some(SetPlace(at, |s.attrs|, SetSize(s.attrs))) <==> at.block < U16)
              && (at.block < U16 ==> (ReadSet(reader, file, offset, id) == Some(s.attrs) <==> forall i :: 0 <= i < |s.attrs| ==> GoodXattr(s.attrs[i])))
    {
      hide TableBytes, BlocksOf, Flatten, PositionOf, AppendAll, SetChunks, SetSize, Written, Uses, ReadEntry, ReadAt, Descriptor, DecodeDescriptor,
        Un64, Un32, Le64, Le32, Lies, ReadAttrs, GoodXattr, Header;
      var s, at, chunks := sets[id], PositionOf(data.compressor, AppendAll(data.appended[..sets[id].from])), SetChunks(sets[id].attrs);
      assert SetStored(data.compressor, s, data.appended, descriptors.appended[id]);
      PositionFits(data.compressor, data.appended[..s.from]);
      DescriptorDecodes(at, |s.attrs|, SetSize(s.attrs));
      EntriesReadBack(descriptors.compressor, reader, file, start + |TableBytes(data.compressor, BlocksOf(data.appended))|, descriptors.appended,
        offset + TABLE_HEADER_SIZE, descriptors.appended, DESCRIPTOR_SIZE, id);
      HeaderReads(file, start);
      var tail := DataTail(file, start, s.from);
      assert data.appended == data.appended[..s.from] + chunks + data.appended[s.from + |chunks|..];
      SetReadsBack(data.compressor, reader, data.appended[..s.from], s.attrs, data.appended[s.from + |chunks|..], tail);
      AttrsRoundTrip(s.attrs);
    }

    lemma HeaderReads(file: bytes, start: nat)
      requires 0 <= offset && Lies(file, offset, Header(start)) && start < U64 && nids < U32
      ensures offset + 16 <= |file| && Un64(file[offset..offset + 8]) == start && Un32(file[offset + 8..offset + 12]) == nids
    {
      hide Le64, Le32, Un64, Un32;
      Le64Back(start);
      WordReads(nids);
      var h := file[offset..offset + 16];
      assert h == Le64(start) + Le32(nids) + Le32(0);
      ThreeWords(Le64(start), Le32(nids), Le32(0));
      SliceOfSlice(file, offset, 16, 0, 8);
      SliceOfSlice(file, offset, 16, 8, 4);
    }

    lemma DataTail(file: bytes, start: nat, from: nat) returns (tail: bytes)
      requires Lies(file, start, TableBytes(data.compressor, BlocksOf(data.appended))) && start <= |file|
      ensures file[start..] == TableBytes(data.compressor, BlocksOf(data.appended)) + tail
    {
      hide TableBytes, BlocksOf;
      tail := file[start + |TableBytes(data.compressor, BlocksOf(data.appended))|..];
    }
  }

  lemma PositionFits(writer: Option<Codec>, chunks: seq<bytes>)
    ensures PositionOf(writer, AppendAll(chunks)).block < U32 && PositionOf(writer, AppendAll(chunks)).offset < METADATA_SIZE
  {
    hide AppendAll, TableBytes;
  }

  /** 64 KiB of attributes stored as they are take up more than 64 KiB in the table: the set behind them
      starts at block 65552, which its descriptor cuts down to 16. */
  lemma CrossingTheBound()
    ensures var at := PositionOf(None, AppendAll([Zeros(U16)]));
            at == Position(U16 + 16, 0) && DecodeDescriptor(Descriptor(at, 1, 8)) == Some(SetPlace(Position(16, 0), 1, 8))
  {
    hide AppendAll, TableBytes, DecodeDescriptor, Descriptor, PositionWord, Flatten;
    var c := AppendAll([Zeros(U16)]);
    FlattenOne(Zeros(U16));
    EightBlocks(c);
    PlainBlocks(c.closed);
    PositionIs(c);
    DescriptorDecodes(Position(U16 + 16, 0), 1, 8);
    PositionCut();
  }

  lemma EightBlocks(c: Contents)
    requires c.Valid() && c.Growing() && |c.Stream()| == U16
    ensures |c.closed| == 8 && c.open == [] && forall i :: 0 <= i < |c.closed| ==> |c.closed[i]| == METADATA_SIZE
  {
    FullBytes(c.closed);
    hide Flatten;
  }

  lemma {:induction false} FullBytes(closed: seq<bytes>)
    requires forall i :: 0 <= i < |closed| ==> |closed[i]| == METADATA_SIZE
    ensures |Flatten(closed)| == METADATA_SIZE * |closed|
  {
    if closed != [] { FullBytes(closed[1..]); }
  }

  lemma {:induction false} PlainBlocks(closed: seq<bytes>)
    requires forall i :: 0 <= i < |closed| ==> |closed[i]| == METADATA_SIZE
    ensures |TableBytes(None, closed)| == (METADATA_SIZE + 2) * |closed|
  {
    if closed != [] { PlainBlocks(closed[1..]); }
  }

  lemma PositionIs(c: Contents)
    requires |TableBytes(None, c.closed)| == (METADATA_SIZE + 2) * 8 && c.open == []
    ensures PositionOf(None, c) == Position(U16 + 16, 0)
  {
  }

  lemma PositionCut()
    ensures PositionWord(Position(U16 + 16, 0)) / U16 == 16 && PositionWord(Position(U16 + 16, 0)) % U16 == 0
  {
  }
}
