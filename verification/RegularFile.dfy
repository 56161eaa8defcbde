/** Regular files: submitting a file piece by piece, and what its inode says about it, with the list of block
    sizes, once the bulk data are finished. */
module RegularFiles {
  import opened Bytes
  import opened Codecs
  import opened SequentialLayout
  import opened Pipeline
  import opened PipelineInvariant
  import opened MetaTables
  import opened IndexedTables
  import opened FragmentTables
  import opened FileLayouts
  import opened DataSources
  import opened DirectoryListings
  import opened InodeHeaders
  import opened BulkDataStore

  // ---------------------------------------------------------------- the inode in bytes

  /** The fields that say where the contents are: -1 stands for no fragment. */
  function FragmentFields(f: Option<FragmentRef>): (h: bytes)
    ensures |h| == 8
  {
    match f
    case None => Le32(-1) + Le32(0)
    case Some(r) => Le32(r.index) + Le32(r.offset)
  }

  function RegHeader(a: Attr, number: nat, f: FileInode): (h: bytes)
    ensures |h| == 32
  {
    Prologue(FILE_TYPE, a, number) + Le32(f.start) + FragmentFields(f.fragment) + Le32(f.size)
  }

  function LregHeader(a: Attr, number: nat, nlink: nat, sparse: nat, f: FileInode): (h: bytes)
    ensures |h| == 56
  {
    Prologue(LREG_TYPE, a, number) + Le64(f.start) + Le64(f.size) + Le64(sparse) + Le32(nlink) + FragmentFields(f.fragment) + XattrField(a)
  }

  /** Does a file need the larger type? */
  predicate NeedsLreg(a: Attr, nlink: nat, sparse: nat, f: FileInode) {
    sparse > 0 || nlink != 1 || f.size > U32 - 1 || a.xattr.Some? || (f.words != [] && f.start > U32 - 1)
  }

  function HeaderOf(a: Attr, number: nat, nlink: nat, sparse: nat, f: FileInode): bytes {
    if NeedsLreg(a, nlink, sparse, f) then LregHeader(a, number, nlink, sparse, f) else RegHeader(a, number, f)
  }

  /** The list of block sizes. */
  function WordBytes(words: seq<nat>): (b: bytes)
    ensures |b| == 4 * |words|
  {
    if words == [] then [] else Le32(words[0]) + WordBytes(words[1..])
  }

  function ReadWords(b: bytes, count: nat): Option<seq<nat>> {
    if count == 0 then Some([])
    else if |b| < 4 then None
    else
      match ReadWords(b[4..], count - 1)
      case None => None
      case Some(rest) => Some([Un32(b[..4])] + rest)
  }

  function ReadFragment(index: nat, offset: nat): Option<FragmentRef> {
    if index == U32 - 1 then None else Some(FragmentRef(index, offset))
  }

  /** What a reader makes of the inode of a regular file, and of the list behind it. */
  function ReadInode(b: bytes, blockSize: nat): Option<FileInode>
    requires blockSize > 0
  {
    if |b| < 2 then None
    else if Un16(b[..2]) == 2 then
      if |b| < 32 then None
      else ReadList(b[32..], blockSize, Un32(b[28..32]), Un32(b[16..20]), ReadFragment(Un32(b[20..24]), Un32(b[24..28])))
    else if Un16(b[..2]) == 9 then
      if |b| < 56 then None
      else ReadList(b[56..], blockSize, Un64(b[24..32]), Un64(b[16..24]), ReadFragment(Un32(b[44..48]), Un32(b[48..52])))
    else None
  }

  function ReadList(b: bytes, blockSize: nat, size: nat, start: nat, fragment: Option<FragmentRef>): Option<FileInode>
    requires blockSize > 0
  {
    match ReadWords(b, ReaderBlocks(blockSize, size, fragment.Some?))
    case None => None
    case Some(words) => Some(FileInode(size, start, words, fragment))
  }

  /** Everything fits the fields there are for it, and the list is as long as a reader expects. */
  ghost predicate FitsInode(f: FileInode, blockSize: nat)
    requires blockSize > 0
  {
    && f.size < U64 && f.start < U64 && (f.words == [] ==> f.start == 0)
    && (forall i :: 0 <= i < |f.words| ==> f.words[i] < U32)
    && (f.fragment.Some? ==> f.fragment.value.index < U32 - 1 && f.fragment.value.offset < U32)
    && |f.words| == ReaderBlocks(blockSize, f.size, f.fragment.Some?)
  }

  lemma {:induction false} WordsRead(words: seq<nat>, rest: bytes)
    requires forall i :: 0 <= i < |words| ==> words[i] < U32
    ensures ReadWords(WordBytes(words) + rest, |words|) == Some(words)
  {
    hide Le32, Un32;
    if words != [] {
      var b := WordBytes(words) + rest;
      assert b == Le32(words[0]) + (WordBytes(words[1..]) + rest);
      assert b[..4] == Le32(words[0]) && b[4..] == WordBytes(words[1..]) + rest;
      WordBack(words[0]);
      WordsRead(words[1..], rest);
      assert [words[0]] + words[1..] == words;
    }
  }

  lemma FragmentReads(f: Option<FragmentRef>)
    requires f.Some? ==> f.value.index < U32 - 1 && f.value.offset < U32
    ensures ReadFragment(Un32(FragmentFields(f)[..4]), Un32(FragmentFields(f)[4..])) == f
  {
    hide Le32, Un32;
    match f
    case None =>
      Le32Reads(-1);
    case Some(r) =>
      WordBack(r.index);
      WordBack(r.offset);
  }

  lemma RegFields(p: bytes, start: bytes, fragment: bytes, size: bytes, list: bytes)
    requires |p| == 16 && |start| == 4 && |fragment| == 8 && |size| == 4
    ensures var b := p + start + fragment + size + list;
            && b[16..20] == start && b[20..24] == fragment[..4] && b[24..28] == fragment[4..] && b[28..32] == size && b[32..] == list && b[..2] == p[..2]
  {
  }

  lemma LregFields(p: bytes, start: bytes, size: bytes, sparse: bytes, nlink: bytes, fragment: bytes, xattr: bytes, list: bytes)
    requires |p| == 16 && |start| == |size| == |sparse| == 8 && |nlink| == 4 && |fragment| == 8 && |xattr| == 4
    ensures var b := p + start + size + sparse + nlink + fragment + xattr + list;
            && b[16..24] == start && b[24..32] == size && b[44..48] == fragment[..4] && b[48..52] == fragment[4..] && b[56..] == list && b[..2] == p[..2]
  {
  }

  /** The inode of a regular file reads back, whichever type was chosen. */
  lemma InodeReadsBack(a: Attr, number: nat, nlink: nat, sparse: nat, f: FileInode, blockSize: nat, rest: bytes)
    requires blockSize > 0 && FitsInode(f, blockSize)
    ensures ReadInode(HeaderOf(a, number, nlink, sparse, f) + (WordBytes(f.words) + rest), blockSize) == Some(f)
  {
    hide Le16, Le32, Le64, Un16, Un32, Un64, Prologue, FragmentFields, ReadFragment, ReadWords, WordBytes, ReaderBlocks;
    WordsRead(f.words, rest);
    FragmentReads(f.fragment);
    var list := WordBytes(f.words) + rest;
    if NeedsLreg(a, nlink, sparse, f) {
      var p, xattr := Prologue(LREG_TYPE, a, number), XattrField(a);
      LregFields(p, Le64(f.start), Le64(f.size), Le64(sparse), Le32(nlink), FragmentFields(f.fragment), xattr, list);
      PrologueType(LREG_TYPE, a, number);
      Le64Back(f.start);
      Le64Back(f.size);
    } else {
      var p := Prologue(FILE_TYPE, a, number);
      RegFields(p, Le32(f.start), FragmentFields(f.fragment), Le32(f.size), list);
      PrologueType(FILE_TYPE, a, number);
      WordBack(f.start);
      WordBack(f.size);
    }
  }

  /** Reads the inode of a regular file at its position: the header says how long the list behind it is. */
  function ReadFileInode(reader: Codec, table: bytes, at: Position, blockSize: nat): Option<FileInode>
    requires blockSize > 0
  {
    match Peek(reader, table, at, 0, 2)
    case None => None
    case Some(t) =>
      if |t| != 2 then None
      else
        var size := if Un16(t) == 9 then 56 else 32;
        match Peek(reader, table, at, 0, size)
        case None => None
        case Some(h) =>
          if |h| != size then None
          else
            match Peek(reader, table, at, 0, size + 4 * ListLength(h, blockSize))
            case None => None
            case Some(b) => ReadInode(b, blockSize)
  }

  /** How many block sizes follow a header. */
  function ListLength(h: bytes, blockSize: nat): nat
    requires blockSize > 0
  {
    if |h| == 32 then ReaderBlocks(blockSize, Un32(h[28..32]), ReadFragment(Un32(h[20..24]), Un32(h[24..28])).Some?)
    else if |h| == 56 then ReaderBlocks(blockSize, Un64(h[24..32]), ReadFragment(Un32(h[44..48]), Un32(h[48..52])).Some?)
    else 0
  }

  lemma HeaderType(a: Attr, number: nat, nlink: nat, sparse: nat, f: FileInode)
    ensures var h := HeaderOf(a, number, nlink, sparse, f);
            && |h| == (if NeedsLreg(a, nlink, sparse, f) then 56 else 32)
            && Un16(h[..2]) == (if NeedsLreg(a, nlink, sparse, f) then LREG_TYPE else FILE_TYPE)
  {
    hide Un16, Prologue, Le32, Le64, FragmentFields, XattrField, NeedsLreg;
    if NeedsLreg(a, nlink, sparse, f) {
      PrologueType(LREG_TYPE, a, number);
      assert LregHeader(a, number, nlink, sparse, f)[..2] == Prologue(LREG_TYPE, a, number)[..2];
    } else {
      PrologueType(FILE_TYPE, a, number);
      assert RegHeader(a, number, f)[..2] == Prologue(FILE_TYPE, a, number)[..2];
    }
  }

  lemma HeaderListLength(a: Attr, number: nat, nlink: nat, sparse: nat, f: FileInode, blockSize: nat)
    requires blockSize > 0 && FitsInode(f, blockSize)
    ensures ListLength(HeaderOf(a, number, nlink, sparse, f), blockSize) == |f.words|
  {
    hide Le16, Le32, Le64, Un16, Un32, Un64, Prologue, FragmentFields, ReadFragment, ReaderBlocks, XattrField;
    FragmentReads(f.fragment);
    if NeedsLreg(a, nlink, sparse, f) {
      LregFields(Prologue(LREG_TYPE, a, number), Le64(f.start), Le64(f.size), Le64(sparse), Le32(nlink), FragmentFields(f.fragment), XattrField(a), []);
      assert LregHeader(a, number, nlink, sparse, f) + [] == LregHeader(a, number, nlink, sparse, f);
      Le64Back(f.size);
    } else {
      RegFields(Prologue(FILE_TYPE, a, number), Le32(f.start), FragmentFields(f.fragment), Le32(f.size), []);
      assert RegHeader(a, number, f) + [] == RegHeader(a, number, f);
      WordBack(f.size);
    }
  }

  /** The inode of a regular file in bytes: header, then the list of block sizes. */
  function FileInodeBytes(a: Attr, number: nat, nlink: nat, sparse: nat, f: FileInode): bytes {
    HeaderOf(a, number, nlink, sparse, f) + WordBytes(f.words)
  }

  /** At its position the inode of a regular file reads back. */
  lemma FileInodeReadsBack(reader: Codec, table: bytes, at: Position, x: bytes, a: Attr, number: nat, nlink: nat, sparse: nat, f: FileInode, blockSize: nat)
    requires Streams(reader, table, at, x) && FileInodeBytes(a, number, nlink, sparse, f) <= x
    requires blockSize > 0 && FitsInode(f, blockSize)
    ensures ReadFileInode(reader, table, at, blockSize) == Some(f)
  {
    hide Streams, Peek, Un16, HeaderOf, WordBytes, ReadInode, ListLength, FitsInode, NeedsLreg;
    var h, list := HeaderOf(a, number, nlink, sparse, f), WordBytes(f.words);
    HeaderType(a, number, nlink, sparse, f);
    HeaderListLength(a, number, nlink, sparse, f, blockSize);
    FirstBytes(x, h, list);
    PeekIs(reader, table, at, x, 0, 2);
    PeekIs(reader, table, at, x, 0, |h|);
    PeekIs(reader, table, at, x, 0, |h| + |list|);
    assert x[0..|h| + |list|] == h + list;
    InodeReadsBack(a, number, nlink, sparse, f, blockSize, []);
    assert h + (list + []) == h + list;
  }

  /** What the inode of a regular file is to say of itself. */
  function FileInfo(large: bool, a: Attr, number: nat, nlink: nat, sparse: nat): InodeInfo {
    InodeInfo(2, large, a.mode, a.uid, a.gid, a.mtime, number, nlink, a.xattr, None, sparse)
  }

  lemma LargeFileParts(p: bytes, start: bytes, size: bytes, sparse: bytes, nlink: bytes, fragment: bytes, xattr: bytes)
    requires |p| == 16 && |start| == |size| == |sparse| == 8 && |nlink| == 4 && |fragment| == 8 && |xattr| == 4
    ensures var h := p + start + size + sparse + nlink + fragment + xattr;
            && h[32..40] == sparse && h[40..44] == nlink && h[52..56] == xattr && h == p + (start + size + sparse + nlink + fragment + xattr)
  {
  }

  lemma SmallFileInfo(a: Attr, number: nat, f: FileInode)
    requires a.xattr == None
    ensures DecodeInfo(RegHeader(a, number, f)) == Some(FileInfo(false, a, number, 1, 0)) <==> GoodAttr(a, number)
  {
    hide Le16, Le32, Un16, Un32, Prologue, Basic, FragmentFields;
    var p, rest := Prologue(FILE_TYPE, a, number), Le32(f.start) + FragmentFields(f.fragment) + Le32(f.size);
    assert RegHeader(a, number, f) == p + rest;
    PrologueReads(FILE_TYPE, a, number, rest, 2, false, 1, None, None, 0);
    AttrBounds(a, number);
  }

  lemma LargeFileInfo(a: Attr, number: nat, nlink: nat, sparse: nat, f: FileInode)
    ensures DecodeInfo(LregHeader(a, number, nlink, sparse, f)) == Some(FileInfo(true, a, number, nlink, sparse))
       <==> GoodAttr(a, number) && nlink < U32 && sparse < U64
  {
    hide Le16, Le32, Le64, Un16, Un32, Un64, Prologue, Basic, FragmentFields, XattrField, ReadXattr;
    var p, xattr := Prologue(LREG_TYPE, a, number), XattrField(a);
    LargeFileParts(p, Le64(f.start), Le64(f.size), Le64(sparse), Le32(nlink), FragmentFields(f.fragment), xattr);
    PrologueReads(LREG_TYPE, a, number, Le64(f.start) + Le64(f.size) + Le64(sparse) + Le32(nlink) + FragmentFields(f.fragment) + xattr, 2, true, nlink % U32,
      ReadXattr(Un32(xattr)), None, sparse % U64);
    Le32Reads(nlink);
    Le64Reads(sparse);
    XattrReads(a);
    AttrBounds(a, number);
    FieldFits(nlink);
    LongFits(sparse);
  }

  lemma LongFits(v: nat)
    ensures v % U64 == v <==> v < U64
  {
  }

  /** At its position the inode of a regular file says of itself what it is to say, whichever type was chosen,
      exactly if all of it fits its fields. */
  lemma FileInfoReadsBack(reader: Codec, table: bytes, at: Position, x: bytes, a: Attr, number: nat, nlink: nat, sparse: nat, f: FileInode)
    requires Streams(reader, table, at, x) && FileInodeBytes(a, number, nlink, sparse, f) <= x
    ensures ReadInfo(reader, table, at) == Some(FileInfo(NeedsLreg(a, nlink, sparse, f), a, number, nlink, sparse))
       <==> GoodAttr(a, number) && nlink < U32 && sparse < U64
  {
    hide Streams, Peek, Un16, HeaderOf, WordBytes, DecodeInfo, GoodAttr;
    var h := HeaderOf(a, number, nlink, sparse, f);
    HeaderType(a, number, nlink, sparse, f);
    FirstBytes(x, h, WordBytes(f.words));
    HeaderInfo(a, number, nlink, sparse, f);
    PeekIs(reader, table, at, x, 0, 2);
    PeekIs(reader, table, at, x, 0, |h|);
  }

  lemma HeaderInfo(a: Attr, number: nat, nlink: nat, sparse: nat, f: FileInode)
    ensures DecodeInfo(HeaderOf(a, number, nlink, sparse, f)) == Some(FileInfo(NeedsLreg(a, nlink, sparse, f), a, number, nlink, sparse))
       <==> GoodAttr(a, number) && nlink < U32 && sparse < U64
  {
    hide DecodeInfo, GoodAttr, RegHeader, LregHeader;
    if NeedsLreg(a, nlink, sparse, f) { LargeFileInfo(a, number, nlink, sparse, f); } else { SmallFileInfo(a, number, f); }
  }

  // ---------------------------------------------------------------- creating and serialising

  /** The bytes a piece of a file holds when it is read. */
  function PieceBytesOf(d: Data, offset: nat, size: nat): bytes {
    Present(Clip(Content(d), offset, size))
  }

  /** The contents of a regular file: the chunks of its blocks, and of its end if that goes into a fragment. */
  datatype FileContents = FileContents(fileSize: nat, sparseSize: nat, blocks: seq<nat>, tail: Option<nat>)

  /** The chunks are those of the file `content`, submitted from chunk `first` on. */
  ghost predicate ConsistsOf(f: FileContents, policy: Policy, blockSize: nat, content: bytes, first: nat)
    requires blockSize > 0
  {
    var n, end := BlockCount(policy, blockSize, |content|), TailSize(policy, blockSize, |content|);
    && f.fileSize == |content| && f.sparseSize == 0
    && |f.blocks| == n && (forall i :: 0 <= i < n ==> f.blocks[i] == first + i)
    && f.tail == (if end > 0 then Some(first + n) else None)
  }

  /** Submits block `n` of a file. */
  method SubmitBlock(bulk: BulkData, policy: Policy, d: Data, n: nat) returns (c: nat)
    requires Good(d) && InRange(d) && bulk.options.blockSize > 0 && n < BlockCount(policy, bulk.options.blockSize, Size(d))
    requires bulk.Ready() && Inv(bulk.Now()) && bulk.mayAdd
    modifies bulk`links, bulk`pool, bulk`jobs, bulk`chunks, bulk`lastPiece, bulk`mayAdd, bulk`threads, bulk.queues, bulk.pool
    ensures bulk.Ready() && Inv(bulk.Now()) && bulk.mayAdd && fresh(bulk.pool - old(bulk.pool)) && old(bulk.pool) <= bulk.pool
    ensures c == |old(bulk.jobs)| && bulk.jobs == old(bulk.jobs) + [Job(FullBlock, BlockOf(bulk.options.blockSize, AllOf(d), n))]
  {
    hide BulkData.Ready, BulkData.Now, Inv, Content, Present, Clip, AllOf, BlockOf, BlockCount, GoodJob;
    var blockSize := bulk.options.blockSize;
    var offset := n * blockSize;
    var size := if Size(d) - offset < blockSize then Size(d) - offset else blockSize;
    BlockIs(policy, blockSize, d, n);
    c := bulk.Submit(Job(FullBlock, PieceBytesOf(d, offset, size)));
  }

  /** Submits the blocks of a file, then its end. */
  method SubmitFile(bulk: BulkData, policy: Policy, d: Data) returns (f: FileContents)
    requires Good(d) && InRange(d) && bulk.options.blockSize > 0
    requires bulk.Ready() && Inv(bulk.Now()) && bulk.mayAdd
    modifies bulk`links, bulk`pool, bulk`jobs, bulk`chunks, bulk`lastPiece, bulk`mayAdd, bulk`threads, bulk.queues, bulk.pool
    ensures bulk.Ready() && Inv(bulk.Now()) && bulk.mayAdd && fresh(bulk.pool - old(bulk.pool)) && old(bulk.pool) <= bulk.pool
    ensures bulk.jobs == old(bulk.jobs) + SplitJobs(policy, bulk.options.blockSize, AllOf(d))
    ensures Follows(bulk.jobs[|old(bulk.jobs)|..], policy, bulk.options.blockSize, |AllOf(d)|)
    ensures JobBytes(bulk.jobs[|old(bulk.jobs)|..]) == AllOf(d)
    ensures ConsistsOf(f, policy, bulk.options.blockSize, AllOf(d), |old(bulk.jobs)|)
  {
    hide BulkData.Ready, BulkData.Now, Inv, Content, Present, Clip, AllOf, SplitJobs, FullJobs, BlockOf, BlockCount, TailSize, GoodJob, Good, InRange,
      Follows, JobBytes;
    var blockSize := bulk.options.blockSize;
    var count, end := BlockCount(policy, blockSize, Size(d)), TailSize(policy, blockSize, Size(d));
    ghost var jobs := bulk.jobs;
    FullNone(blockSize, AllOf(d));
    var n: nat, blocks: seq<nat> := 0, [];
    while n < count
      invariant n <= count && |blocks| == n && forall i :: 0 <= i < n ==> blocks[i] == |jobs| + i
      invariant bulk.Ready() && Inv(bulk.Now()) && bulk.mayAdd && fresh(bulk.pool - old(bulk.pool)) && old(bulk.pool) <= bulk.pool
      invariant bulk.jobs == jobs + FullJobs(blockSize, AllOf(d), n)
    {
      var c := SubmitBlock(bulk, policy, d, n);
      FullNext(blockSize, AllOf(d), n);
      ConcatAssociates(jobs, FullJobs(blockSize, AllOf(d), n), [Job(FullBlock, BlockOf(blockSize, AllOf(d), n))]);
      blocks, n := blocks + [c], n + 1;
    }
    TailIs(policy, blockSize, d, jobs);
    var tail := None;
    if end > 0 {
      var c := bulk.Submit(Job(FragmentPiece, PieceBytesOf(d, Size(d) - end, end)));
      tail := Some(c);
    }
    f := FileContents(Size(d), 0, blocks, tail);
    SplitFollows(policy, blockSize, AllOf(d));
    SplitBytes(policy, blockSize, AllOf(d));
    assert bulk.jobs[|jobs|..] == SplitJobs(policy, blockSize, AllOf(d));
  }

  /** The chunks of a file are among those there are. */
  predicate InChunks(f: FileContents, count: nat) {
    (forall i :: 0 <= i < |f.blocks| ==> f.blocks[i] < count) && (f.tail.Some? ==> f.tail.value < count)
  }

  /** What the inode says about the contents, once the bulk data are finished. */
  function Described(f: FileContents, chunks: seq<Chunk>): FileInode
    requires InChunks(f, |chunks|)
  {
    FileInode(f.fileSize, StartBlock(f, chunks), BlockWords(chunks, f.blocks), Fragment(f, chunks))
  }

  function StartBlock(f: FileContents, chunks: seq<Chunk>): nat
    requires InChunks(f, |chunks|)
  {
    if f.blocks != [] && chunks[f.blocks[0]].dst.offset >= 0 then chunks[f.blocks[0]].dst.offset else 0
  }

  function Fragment(f: FileContents, chunks: seq<Chunk>): Option<FragmentRef>
    requires InChunks(f, |chunks|)
  {
    if f.tail.Some? && chunks[f.tail.value].block.Some? && chunks[f.tail.value].offset >= 0
    then Some(FragmentRef(chunks[f.tail.value].block.value, chunks[f.tail.value].offset)) else None
  }

  /** The smaller type if it will do, and its header. */
  method ChooseHeader(f: FileContents, attr: Attr, number: nat, nlink: nat, chunks: seq<Chunk>) returns (encodedType: nat, header: bytes)
    requires InChunks(f, |chunks|)
    ensures encodedType == (if NeedsLreg(attr, nlink, f.sparseSize, Described(f, chunks)) then LREG_TYPE else FILE_TYPE)
    ensures header == HeaderOf(attr, number, nlink, f.sparseSize, Described(f, chunks))
  {
    hide RegHeader, LregHeader, BlockWords, Fragment, StartBlock;
    var start := StartBlock(f, chunks);
    encodedType := FILE_TYPE;
    if f.sparseSize > 0 || nlink != 1 || f.fileSize > U32 - 1 { encodedType := LREG_TYPE; }
    if attr.xattr.Some? { encodedType := LREG_TYPE; }
    if f.blocks != [] && start > U32 - 1 { encodedType := LREG_TYPE; }
    header := if encodedType == FILE_TYPE then RegHeader(attr, number, FileInode(f.fileSize, start, [], Fragment(f, chunks)))
              else LregHeader(attr, number, nlink, f.sparseSize, FileInode(f.fileSize, start, [], Fragment(f, chunks)));
    HeaderIgnoresWords(attr, number, nlink, f.sparseSize, Described(f, chunks));
    BlockWordsCount(chunks, f.blocks);
  }

  /** The list of block sizes, block by block. */
  method WriteWords(blocks: seq<nat>, chunks: seq<Chunk>) returns (list: bytes)
    requires forall i :: 0 <= i < |blocks| ==> blocks[i] < |chunks|
    ensures list == WordBytes(BlockWords(chunks, blocks))
  {
    hide Le32, StoredSize;
    list := [];
    var n := 0;
    assert blocks[..0] == [];
    while n < |blocks|
      invariant n <= |blocks| && list == WordBytes(BlockWords(chunks, blocks[..n]))
    {
      var dst := chunks[blocks[n]].dst;
      assert blocks[..n + 1] == blocks[..n] + [blocks[n]];
      BlockWordsSnoc(chunks, blocks[..n], blocks[n]);
      WordBytesSnoc(BlockWords(chunks, blocks[..n]), StoredSize(dst.size, dst.compressed));
      list := list + Le32(StoredSize(dst.size, dst.compressed));
      n := n + 1;
    }
    assert blocks[..n] == blocks;
  }

  lemma FullNone(blockSize: nat, content: bytes)
    ensures FullJobs(blockSize, content, 0) == []
  {
  }

  lemma FullNext(blockSize: nat, content: bytes, n: nat)
    ensures FullJobs(blockSize, content, n + 1) == FullJobs(blockSize, content, n) + [Job(FullBlock, BlockOf(blockSize, content, n))]
  {
  }

  /** What is read for block `n` is block `n` of the file. */
  lemma BlockIs(policy: Policy, blockSize: nat, d: Data, n: nat)
    requires Good(d) && InRange(d) && blockSize > 0 && n < BlockCount(policy, blockSize, Size(d))
    ensures n * blockSize < Size(d) == |AllOf(d)|
    ensures var offset := n * blockSize;
            var size := if Size(d) - offset < blockSize then Size(d) - offset else blockSize;
            && PieceBytesOf(d, offset, size) == BlockOf(blockSize, AllOf(d), n)
            && GoodJob(blockSize, Job(FullBlock, PieceBytesOf(d, offset, size)))
  {
    hide Content, Present, Clip, AllOf, BlockCount, TailSize;
    var offset := n * blockSize;
    assert offset == Start(blockSize, n);
    ReadIsSlice(d, offset, if Size(d) - offset < blockSize && offset < Size(d) then Size(d) - offset else blockSize);
    BlockBegins(policy, blockSize, Size(d), n);
  }

  lemma BlockBegins(policy: Policy, blockSize: nat, size: nat, n: nat)
    requires blockSize > 0 && n < BlockCount(policy, blockSize, size)
    ensures Start(blockSize, n) < size
  {
    SplitSizes(policy, blockSize, size);
    var last := BlockCount(policy, blockSize, size) - 1;
    TimesMonotone(blockSize, n, last);
    hide BlockCount, TailSize;
  }

  /** What is read for the end is the end of the file; and then all has been submitted. */
  lemma TailIs(policy: Policy, blockSize: nat, d: Data, jobs: seq<Job>)
    requires Good(d) && InRange(d) && blockSize > 0
    ensures Size(d) == |AllOf(d)|
    ensures var count, end := BlockCount(policy, blockSize, Size(d)), TailSize(policy, blockSize, Size(d));
            && end <= Size(d)
            && (end == 0 ==> SplitJobs(policy, blockSize, AllOf(d)) == FullJobs(blockSize, AllOf(d), count))
            && (end > 0 ==>
                  var job := Job(FragmentPiece, PieceBytesOf(d, Size(d) - end, end));
                  && GoodJob(blockSize, job)
                  && jobs + SplitJobs(policy, blockSize, AllOf(d)) == jobs + FullJobs(blockSize, AllOf(d), count) + [job])
  {
    hide Content, Present, Clip, AllOf, BlockCount, TailSize, FullJobs;
    var end := TailSize(policy, blockSize, Size(d));
    SplitSizes(policy, blockSize, Size(d));
    ReadIsSlice(d, Size(d) - end, end);
    assert end > 0 ==> PieceBytesOf(d, Size(d) - end, end) == AllOf(d)[Size(d) - end..];
  }

  function BlockWords(chunks: seq<Chunk>, blocks: seq<nat>): (words: seq<nat>)
    requires forall i :: 0 <= i < |blocks| ==> blocks[i] < |chunks|
    ensures |words| == |blocks| && forall i :: 0 <= i < |words| ==> words[i] == StoredSize(chunks[blocks[i]].dst.size, chunks[blocks[i]].dst.compressed)
  {
    seq(|blocks|, i requires 0 <= i < |blocks| => StoredSize(chunks[blocks[i]].dst.size, chunks[blocks[i]].dst.compressed))
  }

  lemma BlockWordsCount(chunks: seq<Chunk>, blocks: seq<nat>)
    requires forall i :: 0 <= i < |blocks| ==> blocks[i] < |chunks|
    ensures BlockWords(chunks, blocks) == [] <==> blocks == []
  {
  }

  lemma BlockWordsSnoc(chunks: seq<Chunk>, blocks: seq<nat>, b: nat)
    requires b < |chunks| && forall i :: 0 <= i < |blocks| ==> blocks[i] < |chunks|
    ensures BlockWords(chunks, blocks + [b]) == BlockWords(chunks, blocks) + [StoredSize(chunks[b].dst.size, chunks[b].dst.compressed)]
  {
  }

  lemma {:induction false} WordBytesSnoc(words: seq<nat>, w: nat)
    ensures WordBytes(words + [w]) == WordBytes(words) + Le32(w)
  {
    if words == [] {
      assert [] + [w] == [w] && [w][1..] == [];
      assert WordBytes([w]) == Le32(w) + [];
    } else {
      assert (words + [w])[1..] == words[1..] + [w];
      WordBytesSnoc(words[1..], w);
    }
  }

  /** The header is the same whatever is in the list behind it, as long as it is known whether there is one. */
  lemma HeaderIgnoresWords(a: Attr, number: nat, nlink: nat, sparse: nat, f: FileInode)
    ensures RegHeader(a, number, f) == RegHeader(a, number, FileInode(f.size, f.start, [], f.fragment))
    ensures LregHeader(a, number, nlink, sparse, f) == LregHeader(a, number, nlink, sparse, FileInode(f.size, f.start, [], f.fragment))
  {
  }

  // ---------------------------------------------------------------- end to end

  /** The inode describes the file as its reader needs it. */
  lemma DescribedIs(f: FileContents, s: State, policy: Policy, content: bytes, first: nat)
    requires s.options.blockSize > 0 && ConsistsOf(f, policy, s.options.blockSize, content, first)
    requires var n, end := BlockCount(policy, s.options.blockSize, |content|), TailSize(policy, s.options.blockSize, |content|);
             first + n + (if end > 0 then 1 else 0) <= |s.chunks|
    ensures InChunks(f, |s.chunks|)
    ensures var n, end := BlockCount(policy, s.options.blockSize, |content|), TailSize(policy, s.options.blockSize, |content|);
            Described(f, s.chunks) == InodeOf(s.chunks, first, n, end > 0, |content|)
  {
    hide BlockCount, TailSize;
    var n := BlockCount(policy, s.options.blockSize, |content|);
    SameWords(s.chunks, f.blocks, first, n);
  }

  lemma {:induction false} WordAt(chunks: seq<Chunk>, first: nat, n: nat, i: nat)
    requires first + n <= |chunks| && i < n
    ensures Words(chunks, first, n)[i] == StoredSize(chunks[first + i].dst.size, chunks[first + i].dst.compressed)
    decreases n
  {
    hide StoredSize;
    if i > 0 { WordAt(chunks, first + 1, n - 1, i - 1); }
  }

  lemma SameWords(chunks: seq<Chunk>, blocks: seq<nat>, first: nat, n: nat)
    requires first + n <= |chunks| && |blocks| == n && forall i :: 0 <= i < n ==> blocks[i] == first + i
    ensures BlockWords(chunks, blocks) == Words(chunks, first, n)
  {
    hide Words, StoredSize, BlockWords;
    forall i | 0 <= i < n
      ensures BlockWords(chunks, blocks)[i] == Words(chunks, first, n)[i]
    {
      WordAt(chunks, first, n, i);
    }
  }

  /** A file was submitted from job `first` on. */
  ghost predicate Submitted(s: State, policy: Policy, content: bytes, first: nat) {
    && 0 < s.options.blockSize < UNCOMPRESSED_BLOCK
    && var jobs := SplitJobs(policy, s.options.blockSize, content);
       first + |jobs| <= |s.jobs| && s.jobs[first..first + |jobs|] == jobs
  }

  /** End to end: from the position of its inode in the inode table, the bytes of the table, the bulk data in
      the image and the fragment table a reader gets back exactly the contents of the source a file was
      created from, whatever the schedule of the threads was. */
  lemma CreatedFileReadsBack(reader: Codec, table: bytes, at: Position, x: bytes, a: Attr, number: nat, nlink: nat, f: FileContents,
                             s: State, image: bytes, start: nat, index: nat, policy: Policy, content: bytes, first: nat)
    requires Inv(s) && Done(s) && HoldsOutput(s, image) && HoldsTable(s, image, start, index)
    requires Submitted(s, policy, content, first) && ConsistsOf(f, policy, s.options.blockSize, content, first)
    requires |content| < U64 && |s.jobs| < U32 - 1 && InChunks(f, |s.chunks|)
    requires Streams(reader, table, at, x) && FileInodeBytes(a, number, nlink, f.sparseSize, Described(f, s.chunks)) <= x
    ensures var inode := ReadFileInode(reader, table, at, s.options.blockSize);
            inode.Some? && ReadFile(s.options.codec, image, s.options.blockSize, index, inode.value) == Some(content)
  {
    hide Inv, Done, HoldsOutput, HoldsTable, SplitJobs, BlockCount, TailSize, ReadFile, ReadInode, ReadFileInode, FileInodeBytes, InodeOf, Described,
      ConsistsOf, FitsInode, Streams, InChunks;
    FileReadsBack(s, image, start, index, first, policy, content);
    DescribedIs(f, s, policy, content, first);
    InodeFits(s, image, start, index, first, policy, content);
    FileInodeReadsBack(reader, table, at, x, a, number, nlink, f.sparseSize, Described(f, s.chunks), s.options.blockSize);
  }

  lemma InodeFits(s: State, image: bytes, start: nat, index: nat, first: nat, policy: Policy, content: bytes)
    requires Inv(s) && Done(s) && HoldsOutput(s, image) && HoldsTable(s, image, start, index)
    requires 0 < s.options.blockSize < UNCOMPRESSED_BLOCK
    requires var jobs := SplitJobs(policy, s.options.blockSize, content);
             first + |jobs| <= |s.jobs| && s.jobs[first..first + |jobs|] == jobs
    requires |content| < U64 && |s.jobs| < U32 - 1
    ensures var n, end := BlockCount(policy, s.options.blockSize, |content|), TailSize(policy, s.options.blockSize, |content|);
            && first + n + (if end > 0 then 1 else 0) <= |s.chunks|
            && FitsInode(InodeOf(s.chunks, first, n, end > 0, |content|), s.options.blockSize)
  {
    hide Inv, Done, HoldsOutput, HoldsTable, SplitJobs, BlockCount, TailSize, Start, Words, ReaderBlocks, FragmentsAt;
    var o, n, end := s.options, BlockCount(policy, s.options.blockSize, |content|), TailSize(policy, s.options.blockSize, |content|);
    JobsGood(s);
    SplitShape(policy, o.blockSize, content);
    FirstBlocks(s, first, SplitJobs(policy, o.blockSize, content), n);
    ReaderCountsBlocks(policy, o.blockSize, |content|);
    WordsFit(s, image, first, n);
    if n > 0 { StartFits(s, image, start, index, first); }
    if end > 0 { EndFits(s, first + n); }
  }

  /** The place of a block fits its field. */
  lemma StartFits(s: State, image: bytes, start: nat, index: nat, c: nat)
    requires Inv(s) && Done(s) && HoldsOutput(s, image) && HoldsTable(s, image, start, index) && c < |s.jobs| && s.jobs[c].kind == FullBlock
    ensures c < |s.chunks| && 0 <= s.chunks[c].dst.offset < U64
  {
    hide Inv, Done, HoldsOutput, Unpack, OffsetAt;
    FullReadsBack(s, image, c);
  }

  lemma EndFits(s: State, c: nat)
    requires Inv(s) && Done(s) && c < |s.jobs| && s.jobs[c].kind == FragmentPiece
    ensures c < |s.chunks| && s.chunks[c].block.Some? && s.chunks[c].block.value < |s.jobs| && 0 <= s.chunks[c].offset <= s.options.blockSize
  {
    hide Inv, Done, FragmentsAt;
    PieceInFragment(s, c);
    FewFragments(s, c);
  }

  lemma {:induction false} WordsFit(s: State, image: bytes, first: nat, n: nat)
    requires Inv(s) && Done(s) && HoldsOutput(s, image) && s.options.blockSize < UNCOMPRESSED_BLOCK
    requires first + n <= |s.jobs| == |s.chunks| && forall c :: first <= c < first + n ==> s.jobs[c].kind == FullBlock
    ensures forall i :: 0 <= i < n ==> Words(s.chunks, first, n)[i] < U32
    decreases n
  {
    hide Inv, Done, HoldsOutput, StoredSize, OffsetAt;
    if n > 0 {
      FullReadsBack(s, image, first);
      StoredSizeDecodes(s.chunks[first].dst.size, s.chunks[first].dst.compressed);
      WordsFit(s, image, first + 1, n - 1);
    }
  }

  /** There are no more fragment blocks than jobs, and none is larger than a block. */
  lemma FewFragments(s: State, c: nat)
    requires Inv(s) && Done(s) && c < |s.jobs| && s.jobs[c].kind == FragmentPiece
    requires c < |s.chunks| && s.chunks[c].block.Some? && s.chunks[c].block.value < |FragmentsAt(s, |s.jobs|)|
    requires s.chunks[c].offset + |s.jobs[c].data| <= |FragmentsAt(s, |s.jobs|)[s.chunks[c].block.value]|
    ensures s.chunks[c].block.value < |s.jobs| && s.chunks[c].offset <= s.options.blockSize
  {
    hide Inv, Done, Fragments;
    JobsGood(s);
    BlocksFit(s.options.blockSize, s.jobs[..|s.jobs|]);
    CountFragments(s.options.blockSize, s.jobs[..|s.jobs|]);
  }

  lemma {:induction false} CountFragments(blockSize: nat, jobs: seq<Job>)
    ensures |Fragments(blockSize, jobs)| <= |jobs|
  {
    if jobs != [] { CountFragments(blockSize, Front(jobs)); }
  }
}
