/** The image as a whole: regions handed out one behind the other, in the end every byte of them written
    exactly once; and what a reader that has nothing but the image finds in it. */
module ImageLayouts {
  import opened Bytes
  import opened Codecs
  import opened Images
  import opened SequentialLayout
  import opened Pipeline
  import opened PipelineInvariant
  import opened PipelineTheorems
  import opened MetaTables
  import opened IndexedTables
  import opened DirectoryListings
  import opened InodeHeaders
  import opened FileLayouts
  import opened DataSources
  import opened BulkDataStore
  import opened RegularFiles
  import opened Directories
  import opened InodeGraphs
  import opened ExportTables
  import opened FragmentTables
  import opened XattrTables

  const SUPERBLOCK_SIZE: nat := 96
  const MAGIC: nat := 0x7371_7368

  /** The region of the compressor options, behind the superblock. */
  function OptionBytes(options: Option<bytes>): bytes {
    match options
    case None => []
    case Some(data) => Le16(|data| + if |data| / UNCOMPRESSED_BIT % 2 == 1 then 0 else UNCOMPRESSED_BIT) + data
  }

  /** The compressor options read as a metadata block that is stored as it is, exactly if they are shorter than 32 KiB. */
  lemma OptionsRead(reader: Codec, file: bytes, at: nat, data: bytes)
    requires Lies(file, at, OptionBytes(Some(data)))
    ensures at <= |file| && (ReadBlock(reader, file[at..]) == Some((data, 2 + |data|)) <==> |data| < 0x8000)
  {
    hide Le16, Un16;
    var word := |data| + if |data| / UNCOMPRESSED_BIT % 2 == 1 then 0 else UNCOMPRESSED_BIT;
    Le16Reads(word);
    var table := file[at..];
    assert file[at..at + 2 + |data|] == Le16(word) + data;
    assert table[..2 + |data|] == Le16(word) + data;
    assert table[..2] == Le16(word) && table[2..2 + |data|] == data;
  }

  // ---------------------------------------------------------------- the superblock

  /** The general fields of the superblock. */
  datatype General = General(inodes: nat, time: nat, blockSize: nat, fragments: nat, compression: nat, blockLog: nat, flags: nat, ids: nat)

  /** Where the tables went. */
  datatype Places = Places(inodeTable: nat, dirTable: nat, fragmentTable: nat, exportTable: int, idTable: nat, xattrTable: int)

  function Counts(g: General): (b: bytes)
    ensures |b| == 20
  {
    Le32(MAGIC) + Le32(g.inodes) + Le32(g.time) + Le32(g.blockSize) + Le32(g.fragments)
  }

  function Flags(g: General): (b: bytes)
    ensures |b| == 12
  {
    Le16(g.compression) + Le16(g.blockLog) + Le16(g.flags) + Le16(g.ids) + Le16(4) + Le16(0)
  }

  function Superblock(g: General, root: Position, used: nat, p: Places): (b: bytes)
    ensures |b| == SUPERBLOCK_SIZE
  {
    Counts(g) + Flags(g) + Le64(EncodedInode(root)) + Le64(used) + Le64(p.idTable) + Le64(p.xattrTable) + Le64(p.inodeTable) + Le64(p.dirTable)
    + Le64(p.fragmentTable) + Le64(p.exportTable)
  }

  /** What a reader takes from the superblock. */
  datatype Super = Super(general: General, used: nat, root: Position, inodeTable: nat, dirTable: nat, fragmentTable: nat, exportTable: nat, idTable: nat,
                         xattrTable: nat)

  function ReadGeneral(b: bytes): General
    requires |b| == 32
  {
    General(Un32(b[4..8]), Un32(b[8..12]), Un32(b[12..16]), Un32(b[16..20]), Un16(b[20..22]), Un16(b[22..24]), Un16(b[24..26]), Un16(b[26..28]))
  }

  /** Only version 4.0 is accepted. */
  function ReadSuper(file: bytes): Option<Super> {
    if |file| < 96 || Un32(file[0..4]) != 0x7371_7368 || Un16(file[28..30]) != 4 || Un16(file[30..32]) != 0 then None
    else Some(Super(ReadGeneral(file[0..32]), Un64(file[40..48]), DecodedInode(Un64(file[32..40])), Un64(file[64..72]), Un64(file[72..80]),
                    Un64(file[80..88]), Un64(file[88..96]), Un64(file[48..56]), Un64(file[56..64])))
  }

  /** The general fields, cut down to their widths. */
  function Cut(g: General): General {
    General(g.inodes % U32, g.time % U32, g.blockSize % U32, g.fragments % U32, g.compression % U16, g.blockLog % U16, g.flags % U16, g.ids % U16)
  }

  lemma GeneralParts(m: bytes, a: bytes, b: bytes, c: bytes, d: bytes, e: bytes, f: bytes, g: bytes, h: bytes, i: bytes, j: bytes)
    requires |m| == |a| == |b| == |c| == |d| == 4 && |e| == |f| == |g| == |h| == |i| == |j| == 2
    ensures var all := (m + a + b + c + d) + (e + f + g + h + i + j);
            && all[0..4] == m && all[4..8] == a && all[8..12] == b && all[12..16] == c && all[16..20] == d && all[20..22] == e && all[22..24] == f
            && all[24..26] == g && all[26..28] == h && all[28..30] == i && all[30..32] == j
  {
  }

  lemma GeneralReads(g: General)
    ensures var b := Counts(g) + Flags(g);
            && |b| == 32 && Un32(b[0..4]) == MAGIC && ReadGeneral(b) == Cut(g) && Un16(b[28..30]) == 4 && Un16(b[30..32]) == 0
  {
    hide Le16, Le32, Un16, Un32;
    GeneralParts(Le32(MAGIC), Le32(g.inodes), Le32(g.time), Le32(g.blockSize), Le32(g.fragments), Le16(g.compression), Le16(g.blockLog), Le16(g.flags),
      Le16(g.ids), Le16(4), Le16(0));
    WordBack(MAGIC);
    Le32Reads(g.inodes);
    Le32Reads(g.time);
    Le32Reads(g.blockSize);
    Le32Reads(g.fragments);
    Le16Reads(g.compression);
    Le16Reads(g.blockLog);
    Le16Reads(g.flags);
    Le16Reads(g.ids);
    SmallBack(4);
    SmallBack(0);
  }

  lemma SuperFields(head: bytes, w: seq<bytes>)
    requires |head| == 32 && |w| == 8 && forall i :: 0 <= i < 8 ==> |w[i]| == 8
    ensures var b := head + w[0] + w[1] + w[2] + w[3] + w[4] + w[5] + w[6] + w[7];
            && b[0..32] == head && b[32..40] == w[0] && b[40..48] == w[1] && b[48..56] == w[2] && b[56..64] == w[3]
            && b[64..72] == w[4] && b[72..80] == w[5] && b[80..88] == w[6] && b[88..96] == w[7]
            && b[0..4] == head[0..4] && b[28..30] == head[28..30] && b[30..32] == head[30..32]
  {
  }

  /** The superblock is understood as it was meant; all ones stand for a table that there is not. */
  lemma SuperReads(file: bytes, g: General, root: Position, used: nat, p: Places)
    requires |file| >= SUPERBLOCK_SIZE && file[..SUPERBLOCK_SIZE] == Superblock(g, root, used, p)
    requires root.offset < U16 && root.block < U32 && p.inodeTable < U64 && p.dirTable < U64 && p.fragmentTable < U64 && p.idTable < U64
    ensures ReadSuper(file)
         == Some(Super(Cut(g), used % U64, root, p.inodeTable, p.dirTable, p.fragmentTable, p.exportTable % U64, p.idTable, p.xattrTable % U64))
  {
    hide Le64, Un64, Un32, Un16, Counts, Flags, EncodedInode, DecodedInode, ReadGeneral, Cut;
    var head := Counts(g) + Flags(g);
    var w := [Le64(EncodedInode(root)), Le64(used), Le64(p.idTable), Le64(p.xattrTable), Le64(p.inodeTable), Le64(p.dirTable), Le64(p.fragmentTable),
              Le64(p.exportTable)];
    SuperFields(head, w);
    GeneralReads(g);
    HeadSlices(file, Superblock(g, root, used, p));
    WordFits(root);
    InodeDecodes(root);
    Le64Back(EncodedInode(root));
    Le64Back(p.idTable);
    Le64Back(p.inodeTable);
    Le64Back(p.dirTable);
    Le64Back(p.fragmentTable);
    Le64Reads(used);
    Le64Reads(p.xattrTable);
    Le64Reads(p.exportTable);
  }

  /** What the application sets that only the superblock tells: time, compressor, logarithm of the block size, and the policy
      for fragments. */
  datatype Settings = Settings(time: nat, compression: nat, blockLog: nat, policy: Policy)

  /** The flags of the superblock: bit 0 inodes, 1 data, 3 fragments not compressed; 4 no fragments, 5 always fragments; 6 duplicates
      removed, whether they are or not; 7 export table; 10 compressor options. */
  function FlagsOf(inodes: bool, data: bool, fragments: bool, policy: Policy, exportable: bool, hasOptions: bool): nat {
    (if inodes then 0 else 0x1) + (if data then 0 else 0x2) + (if fragments then 0 else 0x8) + (if policy == Never then 0x10 else 0)
    + (if policy == Always then 0x20 else 0) + 0x40 + (if exportable then 0x80 else 0) + (if hasOptions then 0x400 else 0)
  }

  /** Bit `n` of a number. */
  predicate Bit(v: nat, n: nat) {
    if n == 0 then v % 2 == 1 else Bit(v / 2, n - 1)
  }

  function Number(bits: seq<bool>): nat {
    if bits == [] then 0 else (if bits[0] then 1 else 0) + 2 * Number(bits[1..])
  }

  lemma {:induction false} BitOfNumber(bits: seq<bool>, n: nat)
    ensures Bit(Number(bits), n) <==> n < |bits| && bits[n]
    decreases n
  {
    if bits == [] {
      if n > 0 { BitOfNumber([], n - 1); }
    } else if n > 0 {
      BitOfNumber(bits[1..], n - 1);
    }
  }

  lemma NumberCons(bit: bool, rest: seq<bool>)
    ensures Number([bit] + rest) == (if bit then 1 else 0) + 2 * Number(rest)
  {
    assert ([bit] + rest)[1..] == rest;
  }

  function Weight(bit: bool): nat {
    if bit then 1 else 0
  }

  lemma FourBits(a: bool, b: bool, c: bool, d: bool, rest: seq<bool>)
    ensures Number([a, b, c, d] + rest) == Weight(a) + 2 * Weight(b) + 4 * Weight(c) + 8 * Weight(d) + 16 * Number(rest)
  {
    hide Number;
    NumberCons(d, rest);
    NumberCons(c, [d] + rest);
    NumberCons(b, [c] + ([d] + rest));
    NumberCons(a, [b] + ([c] + ([d] + rest)));
    assert [a, b, c, d] + rest == [a] + ([b] + ([c] + ([d] + rest)));
  }

  lemma FlagsAreBits(inodes: bool, data: bool, fragments: bool, policy: Policy, exportable: bool, hasOptions: bool)
    ensures FlagsOf(inodes, data, fragments, policy, exportable, hasOptions)
         == Number([!inodes, !data, false, !fragments] + ([policy == Never, policy == Always, true, exportable] + ([false, false, hasOptions, false] + [])))
  {
    hide Number;
    NoBits();
    FourBits(false, false, hasOptions, false, []);
    FourBits(policy == Never, policy == Always, true, exportable, [false, false, hasOptions, false] + []);
    FourBits(!inodes, !data, false, !fragments, [policy == Never, policy == Always, true, exportable] + ([false, false, hasOptions, false] + []));
  }

  lemma NoBits()
    ensures Number([]) == 0
  {
  }

  /** Each flag is the bit a reader looks for it at, and nothing else is set. */
  lemma FlagsRead(inodes: bool, data: bool, fragments: bool, policy: Policy, exportable: bool, hasOptions: bool, n: nat)
    ensures Bit(FlagsOf(inodes, data, fragments, policy, exportable, hasOptions), n)
       <==> || (n == 0 && !inodes) || (n == 1 && !data) || (n == 3 && !fragments) || (n == 4 && policy == Never) || (n == 5 && policy == Always) || n == 6
            || (n == 7 && exportable) || (n == 10 && hasOptions)
  {
    hide Bit, Number, FlagsOf;
    FlagsAreBits(inodes, data, fragments, policy, exportable, hasOptions);
    BitOfNumber([!inodes, !data, false, !fragments] + ([policy == Never, policy == Always, true, exportable] + ([false, false, hasOptions, false] + [])), n);
  }

  /** The general fields of an image: what there is of inodes, fragment blocks and ids is counted. */
  function GeneralOf(settings: Settings, o: Options, inodes: nat, frags: nat, ids: nat, inodeCompression: bool, exportable: bool, hasOptions: bool): (g: General)
    ensures g.blockSize == o.blockSize
  {
    General(inodes, settings.time, o.blockSize, frags, settings.compression, settings.blockLog,
            FlagsOf(inodeCompression, o.compressBlocks, o.compressFragments, settings.policy, exportable, hasOptions), ids)
  }

  /** The general fields tell what the image was made of: counts, settings, and for each setting its flag. */
  ghost predicate Tells(g: General, settings: Settings, o: Options, inodes: nat, frags: nat, ids: nat, inodeCompression: bool, exportable: bool,
                        hasOptions: bool)
  {
    && g.inodes == inodes % U32 && g.fragments == frags % U32 && g.ids == ids % U16 && g.blockSize == o.blockSize % U32
    && g.time == settings.time % U32 && g.compression == settings.compression % U16 && g.blockLog == settings.blockLog % U16
    && forall n: nat :: Bit(g.flags, n) <==>
         || (n == 0 && !inodeCompression) || (n == 1 && !o.compressBlocks) || (n == 3 && !o.compressFragments) || (n == 4 && settings.policy == Never)
         || (n == 5 && settings.policy == Always) || n == 6 || (n == 7 && exportable) || (n == 10 && hasOptions)
  }

  lemma GeneralTells(settings: Settings, o: Options, inodes: nat, frags: nat, ids: nat, inodeCompression: bool, exportable: bool, hasOptions: bool)
    ensures Tells(Cut(GeneralOf(settings, o, inodes, frags, ids, inodeCompression, exportable, hasOptions)), settings, o, inodes, frags, ids,
                  inodeCompression, exportable, hasOptions)
  {
    hide Bit, FlagsOf;
    FlagsSmall(inodeCompression, o.compressBlocks, o.compressFragments, settings.policy, exportable, hasOptions);
    forall n: nat
      ensures Bit(FlagsOf(inodeCompression, o.compressBlocks, o.compressFragments, settings.policy, exportable, hasOptions), n) <==>
                || (n == 0 && !inodeCompression) || (n == 1 && !o.compressBlocks) || (n == 3 && !o.compressFragments) || (n == 4 && settings.policy == Never)
                || (n == 5 && settings.policy == Always) || n == 6 || (n == 7 && exportable) || (n == 10 && hasOptions)
    {
      FlagsRead(inodeCompression, o.compressBlocks, o.compressFragments, settings.policy, exportable, hasOptions, n);
    }
  }

  lemma FlagsSmall(inodes: bool, data: bool, fragments: bool, policy: Policy, exportable: bool, hasOptions: bool)
    ensures FlagsOf(inodes, data, fragments, policy, exportable, hasOptions) < U16
  {
  }

  lemma HeadSlices(file: bytes, b: bytes)
    requires |b| <= |file| && file[..|b|] == b
    ensures forall i, j :: 0 <= i <= j <= |b| ==> file[i..j] == b[i..j]
  {
    forall i, j | 0 <= i <= j <= |b|
      ensures file[i..j] == b[i..j]
    {
      assert file[..|b|][i..j] == file[i..j];
    }
  }

  // ---------------------------------------------------------------- building

  /** A new image: room is reserved for the superblock and the compressor options. */
  method CreateImage(options: Option<bytes>) returns (image: Image, optionsAt: nat)
    ensures fresh(image) && image.Valid() && image.file == [] && image.log == []
    ensures optionsAt == SUPERBLOCK_SIZE && image.size == SUPERBLOCK_SIZE + |OptionBytes(options)|
  {
    image := new Image();
    var _ := image.Reserve(SUPERBLOCK_SIZE);
    optionsAt := image.size;
    if options.Some? { optionsAt := image.Reserve(|options.value| + 2); }
  }

  /** Creates a regular file: submits its contents, and gives its inode the next number. */
  method CreateRegular(bulk: BulkData, policy: Policy, d: Data, inodes: seq<Inode>, attr: Attr) returns (more: seq<Inode>)
    requires Good(d) && InRange(d) && 0 < bulk.options.blockSize < UNCOMPRESSED_BLOCK && Numbered(inodes)
    requires bulk.Ready() && Inv(bulk.Now()) && bulk.mayAdd
    modifies bulk`links, bulk`pool, bulk`jobs, bulk`chunks, bulk`lastPiece, bulk`mayAdd, bulk`threads, bulk.queues, bulk.pool
    ensures bulk.Ready() && Inv(bulk.Now()) && bulk.mayAdd && fresh(bulk.pool - old(bulk.pool)) && old(bulk.pool) <= bulk.pool
    ensures old(bulk.jobs) <= bulk.jobs && Follows(bulk.jobs[|old(bulk.jobs)|..], policy, bulk.options.blockSize, |AllOf(d)|)
    ensures JobBytes(bulk.jobs[|old(bulk.jobs)|..]) == AllOf(d)
    ensures Numbered(more) && |more| == |inodes| + 1 && more[..|inodes|] == inodes && fresh(Last(more))
    ensures Last(more).attr == attr && Last(more).encodedType == 0 && Last(more).entries == [] && Carries(bulk.Now(), Last(more).kind, AllOf(d))
  {
    hide BulkData.Ready, BulkData.Now, Inv, AllOf, SplitJobs, Good, InRange, ConsistsOf, InChunks, Carries, Follows, JobBytes;
    ghost var before := bulk.jobs;
    var file := SubmitFile(bulk, policy, d);
    more := Register(inodes, Regular(file), attr);
    NowCarries(bulk, policy, AllOf(d), |before|, file);
  }

  lemma NowCarries(bulk: BulkData, policy: Policy, content: bytes, first: nat, file: FileContents)
    requires 0 < bulk.options.blockSize < UNCOMPRESSED_BLOCK && first <= |bulk.jobs|
    requires bulk.jobs[first..] == SplitJobs(policy, bulk.options.blockSize, content)
    requires ConsistsOf(file, policy, bulk.options.blockSize, content, first)
    ensures Carries(bulk.Now(), Regular(file), content)
  {
    hide SplitJobs, ConsistsOf;
    assert Submitted(bulk.Now(), policy, content, first);
  }

  /** The file of an inode has been submitted, with this content. */
  ghost predicate Carries(s: State, kind: InodeKind, content: bytes) {
    kind.Regular? && s.options.blockSize > 0 &&
    exists policy, first: nat :: Submitted(s, policy, content, first) && ConsistsOf(kind.file, policy, s.options.blockSize, content, first)
  }

  /** It stays submitted whatever is submitted later. */
  lemma CarriesOn(s: State, s': State, kind: InodeKind, content: bytes)
    requires Carries(s, kind, content) && s'.options == s.options && s.jobs <= s'.jobs
    ensures Carries(s', kind, content)
  {
    hide SplitJobs, ConsistsOf;
    var policy, first: nat :| Submitted(s, policy, content, first) && ConsistsOf(kind.file, policy, s.options.blockSize, content, first);
    var n := |SplitJobs(policy, s.options.blockSize, content)|;
    assert s'.jobs[first..first + n] == s.jobs[first..first + n];
    assert Submitted(s', policy, content, first);
  }

  /** Writes the compressor options: their size, then the data. */
  method WriteOptions(image: Image, options: Option<bytes>, at: nat)
    modifies image`file, image`log
    ensures CoversOnce(image.log, old(image.log), at, at + |OptionBytes(options)|)
    ensures Keeps(old(image.file), image.file, at + |OptionBytes(options)|)
    ensures options.Some? ==> |image.file| >= at + 2
    ensures options.Some? && options.value != [] ==> |image.file| >= at + |OptionBytes(options)|
    ensures |image.file| <= |old(image.file)| || |image.file| <= at + |OptionBytes(options)|
    ensures Lies(image.file, at, OptionBytes(options))
  {
    hide CoversOnce, Pwrite, Le16;
    if options.None? {
      CoversNothing(image.log, at);
      return;
    }
    var data := options.value;
    var size := Le16(|data| + if |data| / UNCOMPRESSED_BIT % 2 == 1 then 0 else UNCOMPRESSED_BIT);
    ghost var file, log := image.file, image.log;
    image.Write(at, size);
    PwriteReads(file, at, size);
    ghost var middle, log1 := image.file, image.log;
    image.Write(at + 2, data);
    PwriteWithin(file, at, size, if |file| <= at + 2 then at + 2 else |file|);
    PwriteWithin(middle, at + 2, data, if |middle| <= at + 2 + |data| then at + 2 + |data| else |middle|);
    if data == [] { PwriteNothing(middle, at + 2); } else { PwriteReads(middle, at + 2, data); }
    CoversJoin(image.log, log1, log, at, at + 2, at + 2 + |data|);
  }

  lemma PwriteNothing(file: bytes, at: nat)
    ensures Pwrite(file, at, []) == file
  {
  }

  lemma PwriteWithin(file: bytes, at: nat, data: bytes, size: nat)
    requires |file| <= size && at + |data| <= size
    ensures |Pwrite(file, at, data)| <= size
  {
  }

  /** So far: everything from `start` on is written once. */
  ghost predicate Going(image: Image, start: nat)
    reads image
  {
    image.Valid() && start <= image.size && CoversOnce(image.log, [], start, image.size)
  }

  /** Finished bulk data, whatever the schedule, have been written once each, behind what was reserved before. */
  lemma BulkIsCovered(s: State, image: Image)
    requires Inv(s) && Done(s) && s.log0 == [] && s.size == image.size && s.file == image.file && s.log == image.log
    ensures Going(image, s.base)
  {
    hide Inv, Done, CoversOnce, Output;
    DoneImage(s);
    SmallFile(s);
    PwriteFits(s.file0, s.base, Output(s.options, s.jobs));
  }

  lemma PwriteFits(file: bytes, offset: nat, data: bytes)
    requires |file| <= offset
    ensures |Pwrite(file, offset, data)| <= offset + |data|
  {
  }

  lemma GoesOn(image: Image, start: nat, log: seq<Extent>, size: nat)
    requires start <= size <= image.size && image.Valid()
    requires CoversOnce(log, [], start, size) && CoversOnce(image.log, log, size, image.size)
    ensures Going(image, start)
  {
    CoversJoin(image.log, log, [], start, size, image.size);
  }

  /** A table that lies in a file together with its index, which is at `index`. */
  ghost predicate IndexedAt(writer: Option<Codec>, file: bytes, raws: seq<bytes>, index: nat) {
    |TableBytes(writer, raws)| <= index && Written(writer, file, index - |TableBytes(writer, raws)|, raws, index)
  }

  /** What the tables of an image hold; the export table, if there is one, and the id table as one chunk each. */
  datatype Parts = Parts(inodeWriter: Option<Codec>, inodes: seq<bytes>, dirWriter: Option<Codec>, listings: seq<bytes>,
                         codec: Codec, frags: seq<ImageBlock>, positions: Option<bytes>, ids: bytes)

  /** The raw blocks of a table written in one go. */
  function OneGo(data: bytes): seq<bytes> {
    BlocksOf([data])
  }

  /** The tables lie in a file at their places. */
  ghost predicate Laid(file: bytes, t: Parts, p: Places) {
    && Lies(file, p.inodeTable, TableBytes(t.inodeWriter, BlocksOf(t.inodes)))
    && Lies(file, p.dirTable, TableBytes(t.dirWriter, BlocksOf(t.listings)))
    && (t.frags != [] ==> IndexedAt(Some(t.codec), file, OneGo(Flatten(FragmentTables.Records(t.frags))), p.fragmentTable))
    && (t.positions.Some? ==> p.exportTable >= 0 && IndexedAt(None, file, OneGo(t.positions.value), p.exportTable))
    && IndexedAt(None, file, OneGo(t.ids), p.idTable)
  }

  /** None of them begins before `start`. */
  ghost predicate Behind(start: nat, t: Parts, p: Places) {
    && start <= p.inodeTable && start <= p.dirTable
    && (t.frags != [] ==> start + |TableBytes(Some(t.codec), OneGo(Flatten(FragmentTables.Records(t.frags))))| <= p.fragmentTable)
    && (t.positions.Some? ==> start + |TableBytes(None, OneGo(t.positions.value))| <= p.exportTable)
    && start + |TableBytes(None, OneGo(t.ids))| <= p.idTable
  }

  lemma IndexedKept(writer: Option<Codec>, a: bytes, b: bytes, from: nat, raws: seq<bytes>, index: nat)
    requires IndexedAt(writer, a, raws, index) && Keeps(a, b, from) && from + |TableBytes(writer, raws)| <= index
    ensures IndexedAt(writer, b, raws, index)
  {
    hide TableBytes, Written, Keeps;
    WrittenKept(writer, a, b, from, index - |TableBytes(writer, raws)|, raws, index);
  }

  /** What is written before all of them does not matter. */
  lemma LaidKept(a: bytes, b: bytes, from: nat, t: Parts, p: Places)
    requires Laid(a, t, p) && Behind(from, t, p) && Keeps(a, b, from)
    ensures Laid(b, t, p)
  {
    hide TableBytes, BlocksOf, OneGo, Flatten, IndexedAt, Lies, Keeps;
    LiesKept(a, b, from, p.inodeTable, TableBytes(t.inodeWriter, BlocksOf(t.inodes)));
    LiesKept(a, b, from, p.dirTable, TableBytes(t.dirWriter, BlocksOf(t.listings)));
    if t.frags != [] { IndexedKept(Some(t.codec), a, b, from, OneGo(Flatten(FragmentTables.Records(t.frags))), p.fragmentTable); }
    if t.positions.Some? { IndexedKept(None, a, b, from, OneGo(t.positions.value), p.exportTable); }
    IndexedKept(None, a, b, from, OneGo(t.ids), p.idTable);
  }

  /** One metadata table. */
  method WriteTableOf(image: Image, tab: MetaTable, ghost start: nat) returns (at: nat)
    requires Going(image, start) && tab.Growing() && |TableBytes(tab.compressor, BlocksOf(tab.appended))| < U32
    modifies image, tab
    ensures Going(image, start) && at == old(image.size) <= image.size && tab.appended == old(tab.appended)
    ensures Keeps(old(image.file), image.file, 0) && Lies(image.file, at, TableBytes(tab.compressor, BlocksOf(tab.appended)))
  {
    hide CoversOnce, Pwrite, TableBytes, BlocksOf, Lies, Keeps;
    ghost var file, log, size := image.file, image.log, image.size;
    at := XattrTable.WriteOne(tab, image);
    PwriteBehind(file, at, TableBytes(tab.compressor, BlocksOf(tab.appended)));
    GoesOn(image, start, log, size);
  }

  method WriteFragments(image: Image, frags: seq<ImageBlock>, codec: Codec, ghost start: nat) returns (at: nat)
    requires Going(image, start) && |TableBytes(Some(codec), OneGo(Flatten(FragmentTables.Records(frags))))| < U32
    modifies image
    ensures Going(image, start) && old(image.size) <= at <= image.size && Keeps(old(image.file), image.file, 0)
    ensures frags != [] ==> old(image.size) + |TableBytes(Some(codec), OneGo(Flatten(FragmentTables.Records(frags))))| <= at
    ensures frags != [] && image.size < U64 ==> IndexedAt(Some(codec), image.file, OneGo(Flatten(FragmentTables.Records(frags))), at)
  {
    hide CoversOnce, TableBytes, BlocksOf, Flatten, Written, Keeps;
    ghost var log, size := image.log, image.size;
    at := WriteFragmentTable(frags, codec, image);
    GoesOn(image, start, log, size);
  }

  method WriteExport(image: Image, inodes: seq<Inode>, ghost start: nat) returns (at: nat)
    requires Going(image, start) && Numbered(inodes) && |TableBytes(None, OneGo(Flatten(ExportTables.Words(inodes))))| < U32
    modifies image
    ensures Going(image, start) && old(image.size) <= at <= image.size && Keeps(old(image.file), image.file, 0)
    ensures old(image.size) + |TableBytes(None, OneGo(Flatten(ExportTables.Words(inodes))))| == at
    ensures image.size < U64 ==> IndexedAt(None, image.file, OneGo(Flatten(ExportTables.Words(inodes))), at)
  {
    hide CoversOnce, TableBytes, BlocksOf, Flatten, Written, Keeps;
    ghost var log, size := image.log, image.size;
    at := WriteExportTable(inodes, image);
    GoesOn(image, start, log, size);
  }

  method WriteIds(image: Image, ids: bytes, ghost start: nat) returns (at: nat)
    requires Going(image, start) && |TableBytes(None, OneGo(ids))| < U32
    modifies image
    ensures Going(image, start) && old(image.size) <= at <= image.size && Keeps(old(image.file), image.file, 0)
    ensures old(image.size) + |TableBytes(None, OneGo(ids))| == at
    ensures image.size < U64 ==> IndexedAt(None, image.file, OneGo(ids), at)
  {
    hide CoversOnce, TableBytes, BlocksOf, Flatten, Written, Keeps;
    ghost var log, size := image.log, image.size;
    at := WriteTable(None, ids, image);
    GoesOn(image, start, log, size);
  }

  method WriteXattrs(image: Image, xattrs: XattrTable, ghost start: nat)
    requires Going(image, start) && xattrs.Valid()
    requires |TableBytes(xattrs.data.compressor, BlocksOf(xattrs.data.appended))| < U32
    requires |TableBytes(xattrs.descriptors.compressor, BlocksOf(xattrs.descriptors.appended))| < U32
    modifies image, xattrs`offset, xattrs.data, xattrs.descriptors
    ensures Going(image, start) && old(image.size) <= image.size && Keeps(old(image.file), image.file, 0)
    ensures xattrs.Placed(image.file) && xattrs.BeginsBehind(start) && xattrs.Kept() && SmallXattrs(xattrs)
  {
    hide CoversOnce, TableBytes, BlocksOf, Written, Keeps, Lies, MetaTable.Growing, XattrTable.LiesAt, XattrTable.StartsAt;
    ghost var log, size := image.log, image.size;
    xattrs.Write(image);
    if xattrs.nids > 0 { xattrs.WrittenIsPlaced(image.file, size); }
    GoesOn(image, start, log, size);
  }

  /** What the tables of an image are to hold. */
  ghost function PartsOf(tree: Tree, codec: Codec, frags: seq<ImageBlock>, inodes: seq<Inode>, exportable: bool, ids: bytes): Parts
    reads tree.inodeTable`appended, tree.dirTable`appended, inodes
  {
    Parts(tree.inodeTable.compressor, tree.inodeTable.appended, tree.dirTable.compressor, tree.dirTable.appended, codec, frags,
          if exportable then Some(Flatten(ExportTables.Words(inodes))) else None, ids)
  }

  /** Each table is smaller than 4 GiB. */
  ghost predicate Small(t: Parts) {
    && |TableBytes(t.inodeWriter, BlocksOf(t.inodes))| < U32 && |TableBytes(t.dirWriter, BlocksOf(t.listings))| < U32
    && |TableBytes(Some(t.codec), OneGo(Flatten(FragmentTables.Records(t.frags))))| < U32
    && (t.positions.Some? ==> |TableBytes(None, OneGo(t.positions.value))| < U32) && |TableBytes(None, OneGo(t.ids))| < U32
  }

  ghost predicate SmallXattrs(xattrs: XattrTable)
    reads xattrs.data`appended, xattrs.descriptors`appended
  {
    && |TableBytes(xattrs.data.compressor, BlocksOf(xattrs.data.appended))| < U32
    && |TableBytes(xattrs.descriptors.compressor, BlocksOf(xattrs.descriptors.appended))| < U32
  }

  /** The tables of an image are different objects. */
  ghost predicate Separate(tree: Tree, xattrs: XattrTable) {
    && tree.inodeTable != tree.dirTable && tree.inodeTable != xattrs.data && tree.inodeTable != xattrs.descriptors
    && tree.dirTable != xattrs.data && tree.dirTable != xattrs.descriptors
  }

  /** Inode table and directory table. */
  method WriteMeta(image: Image, tree: Tree, ghost start: nat) returns (inodeAt: nat, dirAt: nat)
    requires Going(image, start) && tree.inodeTable != tree.dirTable && tree.inodeTable.Growing() && tree.dirTable.Growing()
    requires |TableBytes(tree.inodeTable.compressor, BlocksOf(tree.inodeTable.appended))| < U32
    requires |TableBytes(tree.dirTable.compressor, BlocksOf(tree.dirTable.appended))| < U32
    modifies image, tree.inodeTable, tree.dirTable
    ensures Going(image, start) && old(image.size) <= inodeAt <= dirAt <= image.size && Keeps(old(image.file), image.file, 0)
    ensures tree.inodeTable.appended == old(tree.inodeTable.appended) && tree.dirTable.appended == old(tree.dirTable.appended)
    ensures Lies(image.file, inodeAt, TableBytes(tree.inodeTable.compressor, BlocksOf(tree.inodeTable.appended)))
    ensures Lies(image.file, dirAt, TableBytes(tree.dirTable.compressor, BlocksOf(tree.dirTable.appended)))
  {
    hide CoversOnce, TableBytes, BlocksOf, MetaTable.Growing, Lies, Keeps;
    ghost var file := image.file;
    inodeAt := WriteTableOf(image, tree.inodeTable, start);
    ghost var middle := image.file;
    dirAt := WriteTableOf(image, tree.dirTable, start);
    LiesKept(middle, image.file, 0, inodeAt, TableBytes(tree.inodeTable.compressor, BlocksOf(tree.inodeTable.appended)));
    KeepsMore(file, middle, image.file, 0, 0);
  }

  /** Fragment table, export table if there is to be one, id table. */
  method WriteLists(image: Image, inodes: seq<Inode>, ghost t: Parts, frags: seq<ImageBlock>, codec: Codec, exportable: bool, ids: bytes, ghost start: nat)
    returns (fragmentAt: nat, exportAt: int, idAt: nat)
    requires Going(image, start) && Numbered(inodes) && Small(t) && frags == t.frags && codec == t.codec && ids == t.ids
    requires t.positions == if exportable then Some(Flatten(ExportTables.Words(inodes))) else None
    modifies image
    ensures Going(image, start) && old(image.size) <= image.size && Keeps(old(image.file), image.file, 0)
    ensures fragmentAt <= image.size && exportAt <= image.size && idAt <= image.size && (!exportable ==> exportAt == -1)
    ensures forall i, d :: start <= i && start <= d ==> Behind(start, t, Places(i, d, fragmentAt, exportAt, idAt, -1))
    ensures image.size < U64 ==> ListsLaid(image.file, t, fragmentAt, exportAt, idAt)
  {
    hide CoversOnce, TableBytes, OneGo, Flatten, IndexedAt, Keeps;
    ghost var file := image.file;
    fragmentAt := WriteFragments(image, frags, codec, start);
    ghost var file1, size1 := image.file, image.size;
    exportAt := -1;
    if exportable { exportAt := WriteExport(image, inodes, start); } else { KeepsItself(file1); }
    ghost var file2, size2 := image.file, image.size;
    idAt := WriteIds(image, ids, start);
    KeepsMore(file1, file2, image.file, 0, 0);
    KeepsMore(file, file1, image.file, 0, 0);
    if image.size < U64 {
      if frags != [] { IndexedKept(Some(codec), file1, image.file, 0, OneGo(Flatten(FragmentTables.Records(frags))), fragmentAt); }
      if exportable { IndexedKept(None, file2, image.file, 0, OneGo(t.positions.value), exportAt); }
    }
  }

  /** The tables with an index lie in a file. */
  ghost predicate ListsLaid(file: bytes, t: Parts, fragmentAt: nat, exportAt: int, idAt: nat) {
    && (t.frags != [] ==> IndexedAt(Some(t.codec), file, OneGo(Flatten(FragmentTables.Records(t.frags))), fragmentAt))
    && (t.positions.Some? ==> exportAt >= 0 && IndexedAt(None, file, OneGo(t.positions.value), exportAt))
    && IndexedAt(None, file, OneGo(t.ids), idAt)
  }

  lemma AllLaid(a: bytes, b: bytes, c: bytes, t: Parts, p: Places)
    requires Lies(a, p.inodeTable, TableBytes(t.inodeWriter, BlocksOf(t.inodes))) && Lies(a, p.dirTable, TableBytes(t.dirWriter, BlocksOf(t.listings)))
    requires Keeps(a, b, 0) && ListsLaid(b, t, p.fragmentTable, p.exportTable, p.idTable) && Keeps(b, c, 0) && Behind(0, t, p)
    ensures Laid(c, t, p)
  {
    hide TableBytes, BlocksOf, OneGo, Flatten, IndexedAt, Lies, Keeps;
    LiesKept(a, b, 0, p.inodeTable, TableBytes(t.inodeWriter, BlocksOf(t.inodes)));
    LiesKept(a, b, 0, p.dirTable, TableBytes(t.dirWriter, BlocksOf(t.listings)));
    LaidKept(b, c, 0, t, p);
  }

  lemma BehindIs(start: nat, t: Parts, p: Places)
    requires Behind(start, t, Places(p.inodeTable, p.dirTable, p.fragmentTable, p.exportTable, p.idTable, -1))
    ensures Behind(start, t, p) && Behind(0, t, p)
  {
    hide TableBytes, BlocksOf, OneGo, Flatten;
  }

  /** The tables of a finished image, one behind the other. */
  method WriteTables(image: Image, tree: Tree, inodes: seq<Inode>, ghost t: Parts, frags: seq<ImageBlock>, codec: Codec, exportable: bool, ids: bytes,
                     xattrs: XattrTable, ghost start: nat) returns (p: Places)
    requires Going(image, start) && Numbered(inodes) && t == PartsOf(tree, codec, frags, inodes, exportable, ids) && Small(t)
    requires tree.inodeTable.Growing() && tree.dirTable.Growing() && xattrs.Valid() && SmallXattrs(xattrs) && Separate(tree, xattrs)
    modifies image, tree.inodeTable, tree.dirTable, xattrs`offset, xattrs.data, xattrs.descriptors
    ensures Going(image, start) && old(image.size) <= image.size && Keeps(old(image.file), image.file, 0)
    ensures tree.inodeTable.appended == old(tree.inodeTable.appended) && tree.dirTable.appended == old(tree.dirTable.appended)
    ensures Behind(start, t, p) && (image.size < U64 ==> Laid(image.file, t, p))
    ensures p.inodeTable <= image.size && p.dirTable <= image.size && p.fragmentTable <= image.size && p.exportTable <= image.size && p.idTable <= image.size
    ensures xattrs.Placed(image.file) && p.xattrTable == xattrs.offset && xattrs.BeginsBehind(start) && xattrs.Kept() && SmallXattrs(xattrs)
    ensures !exportable ==> p.exportTable == -1
  {
    hide CoversOnce, TableBytes, BlocksOf, OneGo, Flatten, IndexedAt, MetaTable.Growing, Lies, Keeps, Laid, Behind, ListsLaid, XattrTable.Placed,
      XattrTable.BeginsBehind;
    ghost var file := image.file;
    var inodeAt, dirAt := WriteMeta(image, tree, start);
    ghost var file1 := image.file;
    var fragmentAt, exportAt, idAt := WriteLists(image, inodes, t, frags, codec, exportable, ids, start);
    ghost var file2, size2 := image.file, image.size;
    WriteXattrs(image, xattrs, start);
    p := Places(inodeAt, dirAt, fragmentAt, exportAt, idAt, xattrs.offset);
    BehindIs(start, t, p);
    KeepsMore(file1, file2, image.file, 0, 0);
    KeepsMore(file, file1, image.file, 0, 0);
    if image.size < U64 { AllLaid(file1, file2, image.file, t, p); }
  }

  // ---------------------------------------------------------------- reading an image

  /** What a file holds from a place on. */
  function From(file: bytes, at: nat): bytes {
    if at <= |file| then file[at..] else []
  }

  lemma LiesFrom(file: bytes, at: nat, data: bytes) returns (tail: bytes)
    requires Lies(file, at, data)
    ensures From(file, at) == data + tail
  {
    tail := if data == [] then From(file, at) else file[at + |data|..];
  }

  /** Follows a path from the root of an image. */
  function OpenPath(reader: Codec, file: bytes, path: seq<bytes>): Option<Position> {
    match ReadSuper(file)
    case None => None
    case Some(o) => Follow(reader, From(file, o.inodeTable), From(file, o.dirTable), o.root, path)
  }

  /** Reads what the inode at the end of a path says of itself. */
  function StatPath(reader: Codec, file: bytes, path: seq<bytes>): Option<InodeInfo> {
    match ReadSuper(file)
    case None => None
    case Some(o) =>
      match OpenPath(reader, file, path)
      case None => None
      case Some(at) => ReadInfo(reader, From(file, o.inodeTable), at)
  }

  /** Reads the file at the end of a path. */
  function ReadPath(reader: Codec, file: bytes, path: seq<bytes>): Option<bytes> {
    match ReadSuper(file)
    case None => None
    case Some(o) =>
      if o.general.blockSize == 0 then None
      else ReadFound(reader, file, o.inodeTable, o.fragmentTable, o.general.blockSize, OpenPath(reader, file, path))
  }

  function ReadFound(reader: Codec, file: bytes, inodeTable: nat, fragmentTable: nat, blockSize: nat, at: Option<Position>): Option<bytes>
    requires blockSize > 0
  {
    if at.None? then None
    else
      match ReadFileInode(reader, From(file, inodeTable), at.value, blockSize)
      case None => None
      case Some(inode) => ReadFile(reader, file, blockSize, fragmentTable, inode)
  }

  /** A superblock leads to the root and the tables. */
  predicate Leads(o: Super, blockSize: nat, root: Position, p: Places) {
    && o.general.blockSize == blockSize && o.root == root && o.inodeTable == p.inodeTable && o.dirTable == p.dirTable
    && o.fragmentTable == p.fragmentTable && o.exportTable == p.exportTable % U64 && o.idTable == p.idTable && o.xattrTable == p.xattrTable % U64
  }

  /** A file that is the image of a tree whose files were submitted as the bulk data `s`. */
  ghost predicate Finished(file: bytes, tree: Tree, root: Inode, s: State, t: Parts, p: Places)
    reads tree, tree.inodeTable`appended, tree.dirTable`appended, tree.rank.Keys
  {
    && tree.Stored() && root in tree.order && tree.chunks == s.chunks
    && t.inodeWriter == tree.inodeTable.compressor && t.inodes == tree.inodeTable.appended
    && t.dirWriter == tree.dirTable.compressor && t.listings == tree.dirTable.appended
    && t.codec == s.options.codec && t.frags == Destinations(s.frags)
    && Laid(file, t, p) && HoldsOutput(s, file) && |file| < U64
    && ReadSuper(file).Some? && Leads(ReadSuper(file).value, s.options.blockSize, root.at, p)
  }

  /** Where a reader of the image finds an inode. */
  ghost function PlaceOf(m: Option<Inode>): Option<Position>
    reads if m.Some? then {m.value} else {}
  {
    if m.Some? then Some(m.value.at) else None
  }

  lemma TablesIn(file: bytes, tree: Tree, root: Inode, s: State, t: Parts, p: Places) returns (tail: bytes, tail': bytes)
    requires Finished(file, tree, root, s, t, p)
    ensures From(file, p.inodeTable) == tree.InodeTableBytes() + tail && From(file, p.dirTable) == tree.DirTableBytes() + tail'
  {
    hide TableBytes, BlocksOf, OneGo, Flatten, IndexedAt, Lies, HoldsOutput, Tree.Stored, ReadSuper;
    tail := LiesFrom(file, p.inodeTable, TableBytes(t.inodeWriter, BlocksOf(t.inodes)));
    tail' := LiesFrom(file, p.dirTable, TableBytes(t.dirWriter, BlocksOf(t.listings)));
  }

  /** From nothing but the image, a path leads a reader exactly where it leads in the tree. */
  lemma PathInImage(file: bytes, tree: Tree, root: Inode, s: State, t: Parts, p: Places, path: seq<bytes>)
    requires Finished(file, tree, root, s, t, p) && tree.Legible(s.options.codec) && tree.Readable()
    ensures root in tree.rank && tree.Graph() && OpenPath(s.options.codec, file, path) == PlaceOf(tree.Reach(root, path))
  {
    hide Tree.Stored, Tree.Legible, Tree.Readable, Tree.InodeTableBytes, Tree.DirTableBytes, Laid, HoldsOutput, ReadSuper, Follow, Tree.Reach;
    var tail, tail' := TablesIn(file, tree, root, s, t, p);
    tree.PathReadsBack(root, s.options.codec, path, tail, tail');
    tree.InRank(root);
  }

  lemma FragmentsIn(file: bytes, tree: Tree, root: Inode, s: State, t: Parts, p: Places) returns (start: nat)
    requires Finished(file, tree, root, s, t, p)
    ensures HoldsTable(s, file, start, p.fragmentTable)
  {
    hide TableBytes, BlocksOf, Flatten, Written, Lies, HoldsOutput, Tree.Stored, ReadSuper;
    var raws := OneGo(Flatten(FragmentTables.Records(t.frags)));
    start := 0;
    if t.frags != [] { start := p.fragmentTable - |TableBytes(Some(t.codec), raws)|; }
  }

  /** From nothing but the image, whatever the schedule of the threads was, a reader gets back exactly the
      contents of the source that the file at the end of a path was created from. */
  lemma FileInImage(file: bytes, tree: Tree, root: Inode, s: State, t: Parts, p: Places, path: seq<bytes>, content: bytes)
    requires Finished(file, tree, root, s, t, p) && tree.Legible(s.options.codec) && tree.Readable()
    requires Inv(s) && Done(s) && |content| < U64 && |s.jobs| < U32 - 1
    requires root in tree.rank && tree.Graph() && tree.Reach(root, path).Some? && Carries(s, tree.Reach(root, path).value.kind, content)
    ensures ReadPath(s.options.codec, file, path) == Some(content)
  {
    hide Tree.Stored, Tree.Legible, Tree.Readable, Tree.InodeTableBytes, Tree.DirTableBytes, Laid, HoldsOutput, HoldsTable, ReadSuper, Follow, Tree.Reach,
      OpenPath, Inv, Done, Submitted, ConsistsOf, ReadFile, ReadFileInode, Tree.Graph, Streams, FileInodeBytes, Described, InChunks;
    PathInImage(file, tree, root, s, t, p, path);
    var tail, tail' := TablesIn(file, tree, root, s, t, p);
    var start := FragmentsIn(file, tree, root, s, t, p);
    var m := tree.Reach(root, path).value;
    tree.PathReadsBack(root, s.options.codec, path, tail, tail');
    tree.InodeStreams(m, s.options.codec, tail);
    var policy, first: nat :| Submitted(s, policy, content, first) && ConsistsOf(m.kind.file, policy, s.options.blockSize, content, first);
    CreatedFileReadsBack(s.options.codec, From(file, p.inodeTable), m.at, m.InodeBytes(tree.rootParent, tree.chunks), m.attr, m.number, m.nlink,
      m.kind.file, s, file, start, p.fragmentTable, policy, content, first);
  }

  /** From nothing but the image, a reader of the inode at the end of a path learns what it is in memory: attributes,
      number, links, extended attributes, parent. */
  lemma InfoInImage(file: bytes, tree: Tree, root: Inode, s: State, t: Parts, p: Places, path: seq<bytes>)
    requires Finished(file, tree, root, s, t, p) && tree.Legible(s.options.codec) && tree.Readable()
    requires root in tree.rank && tree.Graph() && tree.Reach(root, path).Some?
    requires var m := tree.Reach(root, path).value; !m.kind.Other? && m.InfoFits(tree.rootParent)
    ensures var m := tree.Reach(root, path).value;
            m.Complete(|tree.chunks|) && StatPath(s.options.codec, file, path) == Some(m.Info(tree.rootParent, tree.chunks))
  {
    hide Tree.Stored, Tree.Legible, Tree.Readable, Tree.InodeTableBytes, Tree.DirTableBytes, Laid, HoldsOutput, ReadSuper, Follow, Tree.Reach,
      OpenPath, Tree.Graph, ReadInfo, Inode.Info, Inode.InfoFits, Inode.Complete;
    PathInImage(file, tree, root, s, t, p, path);
    var tail, tail' := TablesIn(file, tree, root, s, t, p);
    tree.PathReadsBack(root, s.options.codec, path, tail, tail');
    tree.InfoReadsBack(tree.Reach(root, path).value, s.options.codec, tail);
  }

  /** Reads the extended attributes of the inode at the end of a path. */
  function PathXattrs(reader: Codec, file: bytes, path: seq<bytes>): Option<seq<Xattr>> {
    match ReadSuper(file)
    case None => None
    case Some(o) =>
      match StatPath(reader, file, path)
      case None => None
      case Some(i) => if i.xattr.None? then Some([]) else ReadSet(reader, file, o.xattrTable, i.xattr.value)
  }

  /** A set that can be read: its data start in the first 64 KiB, and its attributes fit their fields. */
  ghost predicate ReadableSet(xattrs: XattrTable, id: nat)
    reads xattrs`nids, xattrs`sets, xattrs.data`appended
  {
    && id < xattrs.nids < U32 && id < |xattrs.sets| && xattrs.sets[id].attrs != [] && xattrs.sets[id].from <= |xattrs.data.appended|
    && |xattrs.sets[id].attrs| < U32 && SetSize(xattrs.sets[id].attrs) < U32
    && PositionOf(xattrs.data.compressor, AppendAll(xattrs.data.appended[..xattrs.sets[id].from])).block < U16
    && forall i :: 0 <= i < |xattrs.sets[id].attrs| ==> GoodXattr(xattrs.sets[id].attrs[i])
  }

  /** From nothing but the image, a reader of the inode at the end of a path gets the extended attributes of the set it
      was created with. */
  lemma XattrsInImage(file: bytes, tree: Tree, root: Inode, s: State, t: Parts, p: Places, path: seq<bytes>, xattrs: XattrTable)
    requires Finished(file, tree, root, s, t, p) && tree.Legible(s.options.codec) && tree.Readable()
    requires root in tree.rank && tree.Graph() && tree.Reach(root, path).Some?
    requires var m := tree.Reach(root, path).value;
             !m.kind.Other? && m.InfoFits(tree.rootParent) && (m.attr.xattr.Some? ==> ReadableSet(xattrs, m.attr.xattr.value))
    requires xattrs.Placed(file) && p.xattrTable == xattrs.offset < U64 && xattrs.Kept() && SmallXattrs(xattrs)
    requires Uses(xattrs.data.compressor, s.options.codec) && Uses(xattrs.descriptors.compressor, s.options.codec)
    ensures var m := tree.Reach(root, path).value;
            PathXattrs(s.options.codec, file, path) == Some(if m.attr.xattr.Some? then xattrs.sets[m.attr.xattr.value].attrs else [])
  {
    hide Tree.Stored, Tree.Legible, Tree.Readable, Laid, HoldsOutput, ReadSuper, Tree.Reach, Tree.Graph, StatPath, Inode.InfoFits, ReadSet, Uses, TableBytes,
      BlocksOf, AppendAll, PositionOf, SetSize, XattrTable.LiesAt, XattrTable.Counted, SetsStored, GoodXattr, DecodeDescriptor, StartBlock;
    InfoInImage(file, tree, root, s, t, p, path);
    var m := tree.Reach(root, path).value;
    if m.attr.xattr.Some? {
      var size := |TableBytes(xattrs.data.compressor, BlocksOf(xattrs.data.appended))| + |TableBytes(xattrs.descriptors.compressor, BlocksOf(xattrs.descriptors.appended))|;
      xattrs.SetReadsThroughDescriptor(s.options.codec, file, xattrs.offset - size, m.attr.xattr.value);
    }
  }

  // ---------------------------------------------------------------- finishing an image

  lemma AllCovered(log: seq<Extent>, middle: seq<Extent>, tables: seq<Extent>, start: nat, size: nat)
    requires SUPERBLOCK_SIZE <= start <= size && CoversOnce(tables, [], start, size)
    requires CoversOnce(middle, tables, SUPERBLOCK_SIZE, start) && CoversOnce(log, middle, 0, SUPERBLOCK_SIZE)
    ensures CoversOnce(log, [], 0, size)
  {
    forall p: nat
      ensures Cover(log, p) == Cover([], p) + Inside(p, 0, size)
    {
      assert Cover(log, p) == Cover(middle, p) + Inside(p, 0, SUPERBLOCK_SIZE);
      assert Cover(middle, p) == Cover(tables, p) + Inside(p, SUPERBLOCK_SIZE, start);
      assert Cover(tables, p) == Cover([], p) + Inside(p, start, size);
    }
  }

  /** Paths, files and attributes read from an image as they are in the tree. */
  ghost predicate ReadsAs(file: bytes, tree: Tree, root: Inode, s: State)
    requires tree.Graph() && root in tree.rank
    reads tree.rank.Keys
  {
    && (forall path :: OpenPath(s.options.codec, file, path) == PlaceOf(tree.Reach(root, path)))
    && (forall path, content ::
          |content| < U64 && tree.Reach(root, path).Some? && Carries(s, tree.Reach(root, path).value.kind, content) ==>
            ReadPath(s.options.codec, file, path) == Some(content))
    && (forall path ::
          tree.Reach(root, path).Some? && Stats(tree, tree.Reach(root, path).value) ==>
            && tree.Reach(root, path).value.Complete(|tree.chunks|)
            && StatPath(s.options.codec, file, path) == Some(tree.Reach(root, path).value.Info(tree.rootParent, tree.chunks)))
  }

  /** An inode of which a reader can learn what it is: a directory or a regular file whose attributes fit. */
  ghost predicate Stats(tree: Tree, m: Inode)
    reads m
  {
    !m.kind.Other? && m.InfoFits(tree.rootParent)
  }

  lemma FinishedReads(file: bytes, tree: Tree, root: Inode, s: State, t: Parts, p: Places)
    requires Finished(file, tree, root, s, t, p) && tree.Legible(s.options.codec) && tree.Readable()
    requires Inv(s) && Done(s) && |s.jobs| < U32 - 1
    ensures root in tree.rank && tree.Graph() && ReadsAs(file, tree, root, s)
  {
    hide Finished, Tree.Legible, Tree.Readable, Inv, Done, OpenPath, ReadPath, StatPath, Tree.Reach, Tree.Graph, Carries, Inode.Info, Inode.InfoFits, Inode.Complete;
    PathInImage(file, tree, root, s, t, p, []);
    forall path
      ensures OpenPath(s.options.codec, file, path) == PlaceOf(tree.Reach(root, path))
    {
      PathInImage(file, tree, root, s, t, p, path);
    }
    forall path, content | |content| < U64 && tree.Reach(root, path).Some? && Carries(s, tree.Reach(root, path).value.kind, content)
      ensures ReadPath(s.options.codec, file, path) == Some(content)
    {
      FileInImage(file, tree, root, s, t, p, path, content);
    }
    forall path | tree.Reach(root, path).Some? && Stats(tree, tree.Reach(root, path).value)
      ensures tree.Reach(root, path).value.Complete(|tree.chunks|)
           && StatPath(s.options.codec, file, path) == Some(tree.Reach(root, path).value.Info(tree.rootParent, tree.chunks))
    {
      InfoInImage(file, tree, root, s, t, p, path);
    }
  }

  /** Compressor options, and the superblock last: what comes behind them stays. */
  method WriteFront(image: Image, options: Option<bytes>, super: bytes)
    requires |super| == SUPERBLOCK_SIZE
    modifies image`file, image`log
    ensures Keeps(old(image.file), image.file, SUPERBLOCK_SIZE + |OptionBytes(options)|)
    ensures |image.file| >= SUPERBLOCK_SIZE + |OptionBytes(options)| && image.file[..SUPERBLOCK_SIZE] == super
    ensures |image.file| <= |old(image.file)| || |image.file| <= SUPERBLOCK_SIZE + |OptionBytes(options)|
    ensures Lies(image.file, SUPERBLOCK_SIZE, OptionBytes(options))
    ensures forall size :: SUPERBLOCK_SIZE + |OptionBytes(options)| <= size && CoversOnce(old(image.log), [], SUPERBLOCK_SIZE + |OptionBytes(options)|, size)
              ==> CoversOnce(image.log, [], 0, size)
  {
    hide CoversOnce, Pwrite, OptionBytes, Lies;
    ghost var file, log, start := image.file, image.log, SUPERBLOCK_SIZE + |OptionBytes(options)|;
    WriteOptions(image, options, SUPERBLOCK_SIZE);
    ghost var file1, log1 := image.file, image.log;
    image.Write(0, super);
    PwriteReads(file1, 0, super);
    PwriteWithin(file1, 0, super, if |file1| <= |super| then |super| else |file1|);
    OptionSize(options);
    FrontKept(file, file1, image.file, start);
    KeptBehind(file1, image.file);
    LiesKept(file1, image.file, SUPERBLOCK_SIZE, SUPERBLOCK_SIZE, OptionBytes(options));
    forall size | start <= size && CoversOnce(log, [], start, size)
      ensures CoversOnce(image.log, [], 0, size)
    {
      AllCovered(image.log, log1, log, start, size);
    }
  }

  lemma OptionSize(options: Option<bytes>)
    ensures |OptionBytes(options)| == if options.Some? then 2 + |options.value| else 0
  {
  }

  lemma KeptBehind(b: bytes, c: bytes)
    requires |b| <= |c| && forall i :: SUPERBLOCK_SIZE <= i < |b| ==> c[i] == b[i]
    ensures Keeps(b, c, SUPERBLOCK_SIZE)
  {
  }

  lemma FrontKept(a: bytes, b: bytes, c: bytes, start: nat)
    requires Keeps(a, b, start) && |b| <= |c| && SUPERBLOCK_SIZE <= start
    requires forall i :: SUPERBLOCK_SIZE <= i < |b| ==> c[i] == b[i]
    ensures Keeps(a, c, start)
  {
    forall i | start <= i < |a|
      ensures c[i] == a[i]
    {
      assert b[i] == a[i];
    }
  }

  /** The output of the bulk data stays where it was. */
  lemma OutputKept(s: State, file: bytes)
    requires Inv(s) && Done(s) && Keeps(s.file, file, s.base) && s.base <= |file|
    ensures HoldsOutput(s, file)
  {
    hide Inv, Done, Output, Keeps;
    OutputLies(s);
    LiesKept(s.file, file, s.base, s.base, Output(s.options, s.jobs));
  }

  lemma RootPlace(tree: Tree, root: Inode)
    requires tree.Stored() && root in tree.order
    ensures root.at.offset < U16 && root.at.block < U32 && root in tree.rank && tree.Graph()
  {
    hide AppendAll, TableBytes, Tree.Children, Inode.InodeBytes, Tree.Listed;
    assert tree.Recorded(root);
  }

  /** All that `Finished` asks for, and what follows from it. */
  lemma NowFinished(tables: bytes, file: bytes, tree: Tree, root: Inode, s: State, t: Parts, p: Places, g: General, used: nat)
    requires tree.Stored() && root in tree.order && tree.chunks == s.chunks && Inv(s) && Done(s)
    requires t.inodeWriter == tree.inodeTable.compressor && t.inodes == tree.inodeTable.appended
    requires t.dirWriter == tree.dirTable.compressor && t.listings == tree.dirTable.appended
    requires t.codec == s.options.codec && t.frags == Destinations(s.frags) && HoldsOutput(s, file) && |file| < U64
    requires Laid(tables, t, p) && Behind(s.base, t, p) && Keeps(tables, file, s.base)
    requires g.blockSize == s.options.blockSize < U32 && |file| >= SUPERBLOCK_SIZE && file[..SUPERBLOCK_SIZE] == Superblock(g, root.at, used, p)
    requires p.inodeTable < U64 && p.dirTable < U64 && p.fragmentTable < U64 && p.idTable < U64
    ensures Finished(file, tree, root, s, t, p) && root in tree.rank && tree.Graph()
    ensures ReadSuper(file).Some? && ReadSuper(file).value.general == Cut(g) && ReadSuper(file).value.used == used % U64
    ensures tree.Legible(s.options.codec) && tree.Readable() && |s.jobs| < U32 - 1 ==> ReadsAs(file, tree, root, s)
  {
    hide Tree.Stored, Laid, Behind, Keeps, HoldsOutput, ReadSuper, Superblock, Inv, Done, ReadsAs, Tree.Legible, Tree.Readable, Tree.Graph,
      FlagsOf;
    RootPlace(tree, root);
    SuperReads(file, g, root.at, used, p);
    LaidKept(tables, file, s.base, t, p);
    if tree.Legible(s.options.codec) && tree.Readable() && |s.jobs| < U32 - 1 { FinishedReads(file, tree, root, s, t, p); }
  }

  /** Serialises the inodes below the root into two tables. */
  method SerializeAll(inodeTable: MetaTable, dirTable: MetaTable, rootParent: nat, chunks: seq<Chunk>, ghost rank: map<Inode, nat>, root: Inode)
    returns (tree: Tree)
    requires inodeTable != dirTable && (inodeTable.buffer == null || inodeTable.buffer != dirTable.buffer)
    requires inodeTable.Growing() && dirTable.Growing() && root in rank && Unserialised(rank, |chunks|)
    modifies rank.Keys, inodeTable.Repr(), dirTable.Repr()
    ensures fresh(tree) && tree.Valid() && root in tree.order && tree.chunks == chunks && tree.rank == rank
    ensures tree.inodeTable == inodeTable && tree.dirTable == dirTable
  {
    hide MetaTable.Growing, Tree.Valid, Tree.Now, Grown, OnlyBelow, Tree.Spares, Unserialised;
    tree := new Tree(inodeTable, dirTable, rootParent, chunks, rank);
    tree.Serialize(root);
    SerialisedIs(tree, root);
  }

  /** What finalizing does first: the bulk data are finished, then the inodes below the root are serialised. */
  method Settle(bulk: BulkData, t: nat, inodeTable: MetaTable, dirTable: MetaTable, rootParent: nat, ghost rank: map<Inode, nat>, root: Inode)
    returns (tree: Tree)
    requires bulk.Ready() && Inv(bulk.Now()) && bulk.threads == map[]
    requires inodeTable != dirTable && (inodeTable.buffer == null || inodeTable.buffer != dirTable.buffer)
    requires inodeTable.Growing() && dirTable.Growing() && root in rank && Unserialised(rank, |bulk.jobs|)
    modifies bulk, bulk.image, bulk.queues, bulk.pool, rank.Keys, inodeTable.Repr(), dirTable.Repr()
    ensures Inv(bulk.Now()) && Done(bulk.Now()) && Sequential(bulk.Now()) && old(bulk.jobs) <= bulk.jobs
    ensures fresh(tree) && tree.Valid() && root in tree.order && tree.chunks == bulk.chunks && tree.rank == rank
    ensures tree.inodeTable == inodeTable && tree.dirTable == dirTable
  {
    hide BulkData.Ready, BulkData.Now, Inv, Done, Sequential, MetaTable.Growing, Tree.Valid, Unserialised;
    bulk.Finish(t);
    ChunksOfJobs(bulk);
    UnserialisedMore(rank, |old(bulk.jobs)|, |bulk.chunks|);
    tree := SerializeAll(inodeTable, dirTable, rootParent, bulk.chunks, rank, root);
  }

  lemma ChunksOfJobs(bulk: BulkData)
    requires Inv(bulk.Now())
    ensures |bulk.chunks| == |bulk.jobs|
  {
    assert |bulk.Now().chunks| == |bulk.Now().jobs|;
  }

  /** Completes an image whose bulk data are finished and whose inodes have been serialised: tables, compressor
      options, and the superblock last. Every byte up to the size of the image is then written exactly once;
      and from the image alone, paths lead where they lead in the tree, and files read as they were submitted. */
  method Finalize(image: Image, options: Option<bytes>, bulk: BulkData, tree: Tree, inodes: seq<Inode>, exportable: bool, ids: bytes,
                  xattrs: XattrTable, settings: Settings, root: Inode, ghost s: State, ghost t: Parts) returns (p: Places)
    requires bulk.image == image && s == bulk.Now() && Inv(s) && Done(s) && s.log0 == [] && s.base == SUPERBLOCK_SIZE + |OptionBytes(options)|
    requires tree.Valid() && root in tree.order && tree.chunks == bulk.chunks && Numbered(inodes)
    requires t == PartsOf(tree, bulk.options.codec, Destinations(bulk.frags), inodes, exportable, ids) && Small(t)
    requires xattrs.Valid() && SmallXattrs(xattrs) && Separate(tree, xattrs) && bulk.options.blockSize < U32
    modifies image, tree.inodeTable, tree.dirTable, xattrs`offset, xattrs.data, xattrs.descriptors
    ensures image.Valid() && CoversOnce(image.log, [], 0, image.size)
    ensures var g := GeneralOf(settings, s.options, |inodes|, |s.frags|, |ids| / 4, tree.inodeTable.compressor.Some?, exportable, options.Some?);
            && |image.file| >= SUPERBLOCK_SIZE && image.file[..SUPERBLOCK_SIZE] == Superblock(g, root.at, image.size, p)
            && (image.size < U64 ==> ReadSuper(image.file).Some? && ReadSuper(image.file).value.used == image.size)
    ensures image.size < U64 ==>
              Tells(ReadSuper(image.file).value.general, settings, s.options, |inodes|, |s.frags|, |ids| / 4, tree.inodeTable.compressor.Some?, exportable,
                    options.Some?)
    ensures Lies(image.file, SUPERBLOCK_SIZE, OptionBytes(options))
    ensures xattrs.Placed(image.file) && p.xattrTable == xattrs.offset && xattrs.Kept() && SmallXattrs(xattrs)
    ensures image.size < U64 ==> Finished(image.file, tree, root, s, t, p)
    ensures root in tree.rank && tree.Graph()
    ensures image.size < U64 && tree.Legible(bulk.options.codec) && tree.Readable() && |bulk.jobs| < U32 - 1 ==> ReadsAs(image.file, tree, root, s)
  {
    hide CoversOnce, TableBytes, OneGo, Flatten, Keeps, Laid, Behind, XattrTable.Placed, XattrTable.BeginsBehind, Superblock, OptionBytes, Inv, Done,
      Tree.Stored, Tree.Graph, Tree.Legible, Tree.Readable, Finished, HoldsOutput, Small, SmallXattrs, XattrTable.Valid, ReadsAs, Tells,
      Tree.Valid, MetaTable.Growing, BlocksOf, ExportTables.Words, Destinations, ReadSuper, Cut, GeneralOf, Lies, XattrTable.Kept;
    ghost var start := SUPERBLOCK_SIZE + |OptionBytes(options)|;
    var g := GeneralOf(settings, bulk.options, |inodes|, |bulk.frags|, |ids| / 4, tree.inodeTable.compressor.Some?, exportable, options.Some?);
    GeneralTells(settings, bulk.options, |inodes|, |bulk.frags|, |ids| / 4, tree.inodeTable.compressor.Some?, exportable, options.Some?);
    BulkIsCovered(s, image);
    TablesGrow(tree);
    p := WriteTables(image, tree, inodes, t, Destinations(bulk.frags), bulk.options.codec, exportable, ids, xattrs, start);
    ghost var tables := image.file;
    WriteFront(image, options, Superblock(g, root.at, image.size, p));
    xattrs.PlacedKept(tables, image.file, start);
    RootPlace(tree, root);
    KeepsMore(s.file, tables, image.file, 0, start);
    OutputKept(s, image.file);
    if image.size < U64 { NowFinished(tables, image.file, tree, root, s, t, p, g, image.size); }
  }

  lemma SerialisedIs(tree: Tree, root: Inode)
    requires tree.Valid() && root in tree.rank && root.encodedType != 0
    ensures root in tree.order
  {
  }

  lemma TablesGrow(tree: Tree)
    requires tree.Valid()
    ensures tree.inodeTable.Growing() && tree.dirTable.Growing() && tree.Stored()
  {
  }
}
