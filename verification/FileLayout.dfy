/** How a file is split into blocks and a tail, and why a reader gets it back from the image. */
module FileLayouts {
  import opened Bytes
  import opened Codecs
  import opened SequentialLayout
  import opened Pipeline
  import opened PipelineInvariant
  import opened PipelineData
  import opened PipelineTheorems
  import opened MetaTables
  import opened IndexedTables
  import opened FragmentTables

  /** When to pack the end of a file together with others. */
  datatype Policy = Never | Small | Always

  // ---------------------------------------------------------------- splitting

  function BlockCount(policy: Policy, blockSize: nat, size: nat): nat
    requires blockSize > 0
  {
    match policy
    case Never => (size + blockSize - 1) / blockSize
    case Small => if size < blockSize then 0 else (size + blockSize - 1) / blockSize
    case Always => size / blockSize
  }

  function TailSize(policy: Policy, blockSize: nat, size: nat): nat
    requires blockSize > 0
  {
    match policy
    case Never => 0
    case Small => if size < blockSize then size else 0
    case Always => size % blockSize
  }

  /** Where block `n` starts. */
  function Start(blockSize: nat, n: nat): nat {
    n * blockSize
  }

  lemma StartNext(blockSize: nat, n: nat)
    ensures Start(blockSize, 0) == 0 && Start(blockSize, n + 1) == Start(blockSize, n) + blockSize
  {
  }

  /** Block `n` of some content: a full block, or what is left. */
  function BlockOf(blockSize: nat, content: bytes, n: nat): bytes {
    var offset := Start(blockSize, n);
    if offset >= |content| then [] else if |content| - offset < blockSize then content[offset..] else content[offset..offset + blockSize]
  }

  function FullJobs(blockSize: nat, content: bytes, n: nat): (jobs: seq<Job>)
    ensures |jobs| == n && forall i :: 0 <= i < n ==> jobs[i] == Job(FullBlock, BlockOf(blockSize, content, i))
  {
    if n == 0 then [] else FullJobs(blockSize, content, n - 1) + [Job(FullBlock, BlockOf(blockSize, content, n - 1))]
  }

  /** The jobs a file is submitted as. */
  function SplitJobs(policy: Policy, blockSize: nat, content: bytes): seq<Job>
    requires blockSize > 0
  {
    var tail := TailSize(policy, blockSize, |content|);
    var full := FullJobs(blockSize, content, BlockCount(policy, blockSize, |content|));
    if tail == 0 || tail > |content| then full else full + [Job(FragmentPiece, content[|content| - tail..])]
  }

  lemma Divides(size: nat, blockSize: nat)
    requires blockSize > 0
    ensures size / blockSize * blockSize + size % blockSize == size && size % blockSize < blockSize
    ensures size % blockSize == 0 ==> (size + blockSize - 1) / blockSize == size / blockSize
    ensures size % blockSize > 0 ==> (size + blockSize - 1) / blockSize == size / blockSize + 1
  {
    var q, r := size / blockSize, size % blockSize;
    assert size == blockSize * q + r;
    if r == 0 { QuotientIs(size + blockSize - 1, blockSize, q); } else { QuotientIs(size + blockSize - 1, blockSize, q + 1); }
  }

  lemma QuotientIs(n: nat, d: nat, q: nat)
    requires d > 0 && d * q <= n < d * q + d
    ensures n / d == q
  {
    var m := n / d;
    assert n == d * m + n % d;
    if m < q { assert d * (m + 1) <= d * q by { TimesMonotone(d, m + 1, q); } }
    if m > q { assert d * (q + 1) <= d * m by { TimesMonotone(d, q + 1, m); } }
  }

  lemma TimesMonotone(d: nat, a: nat, b: nat)
    requires a <= b
    ensures d * a <= d * b
  {
  }

  /** The blocks cover the content up to the tail, none of them is empty, and the tail is shorter than a block. */
  lemma SplitSizes(policy: Policy, blockSize: nat, size: nat)
    requires blockSize > 0
    ensures var n, tail := BlockCount(policy, blockSize, size), TailSize(policy, blockSize, size);
            && tail < blockSize && tail <= size
            && (n > 0 ==> Start(blockSize, n - 1) < size - tail <= Start(blockSize, n))
            && (n == 0 ==> size == tail)
            && (tail > 0 ==> size - tail == Start(blockSize, n))
            && n == (if tail > 0 then size / blockSize else (size + blockSize - 1) / blockSize)
  {
    Divides(size, blockSize);
    var q := size / blockSize;
    StartNext(blockSize, q);
    if q > 0 { StartNext(blockSize, q - 1); }
    assert Start(blockSize, q) == q * blockSize;
    if size < blockSize { QuotientIs(size, blockSize, 0); }
    hide Start;
  }

  function JobBytes(jobs: seq<Job>): bytes {
    if jobs == [] then [] else JobBytes(Front(jobs)) + Last(jobs).data
  }

  /** The first `n` blocks of some content end here. */
  function BlocksEnd(blockSize: nat, content: bytes, n: nat): (e: nat)
    ensures e <= |content|
  {
    if Start(blockSize, n) < |content| then Start(blockSize, n) else |content|
  }

  lemma NextBlock(blockSize: nat, content: bytes, n: nat)
    requires blockSize > 0 && Start(blockSize, n) < |content|
    ensures 0 < |BlockOf(blockSize, content, n)| <= blockSize
    ensures content[..BlocksEnd(blockSize, content, n)] + BlockOf(blockSize, content, n) == content[..BlocksEnd(blockSize, content, n + 1)]
  {
    StartNext(blockSize, n);
    hide Start;
  }

  lemma {:induction false} FullJobsBytes(blockSize: nat, content: bytes, n: nat)
    requires blockSize > 0 && (n > 0 ==> Start(blockSize, n - 1) < |content|)
    ensures JobBytes(FullJobs(blockSize, content, n)) == content[..BlocksEnd(blockSize, content, n)]
    ensures forall i :: 0 <= i < n ==> 0 < |BlockOf(blockSize, content, i)| <= blockSize
  {
    hide Start, BlocksEnd, BlockOf;
    if n > 0 {
      NextBlock(blockSize, content, n - 1);
      EarlierBlock(blockSize, content, n);
      FullJobsBytes(blockSize, content, n - 1);
      assert Front(FullJobs(blockSize, content, n)) == FullJobs(blockSize, content, n - 1);
    } else {
      NoBlocks(blockSize, content);
    }
  }

  lemma EarlierBlock(blockSize: nat, content: bytes, n: nat)
    requires n > 0 && Start(blockSize, n - 1) < |content|
    ensures n > 1 ==> Start(blockSize, n - 2) < |content|
  {
    if n > 1 { StartNext(blockSize, n - 2); }
    hide Start;
  }

  lemma NoBlocks(blockSize: nat, content: bytes)
    ensures BlocksEnd(blockSize, content, 0) == 0
  {
  }

  lemma SplitBytes(policy: Policy, blockSize: nat, content: bytes)
    requires blockSize > 0
    ensures JobBytes(SplitJobs(policy, blockSize, content)) == content
  {
    hide Start, BlockOf, BlockCount, TailSize, BlocksEnd, JobBytes;
    var n, tail := BlockCount(policy, blockSize, |content|), TailSize(policy, blockSize, |content|);
    SplitEnd(policy, blockSize, content);
    FullJobsBytes(blockSize, content, n);
    JobBytesSnoc(FullJobs(blockSize, content, n), Job(FragmentPiece, content[|content| - tail..]));
    PutTogether(content, tail);
  }

  lemma SplitEnd(policy: Policy, blockSize: nat, content: bytes)
    requires blockSize > 0
    ensures var n, tail := BlockCount(policy, blockSize, |content|), TailSize(policy, blockSize, |content|);
            && tail <= |content| && BlocksEnd(blockSize, content, n) == |content| - tail
            && (n > 0 ==> Start(blockSize, n - 1) < |content|)
  {
    SplitSizes(policy, blockSize, |content|);
    NoBlocks(blockSize, content);
    hide BlockCount, TailSize, Start;
  }

  lemma PutTogether(content: bytes, tail: nat)
    requires tail <= |content|
    ensures content[..|content| - tail] + content[|content| - tail..] == content
    ensures tail == 0 ==> content[..|content| - tail] == content
  {
  }

  lemma JobBytesSnoc(jobs: seq<Job>, job: Job)
    ensures JobBytes(jobs + [job]) == JobBytes(jobs) + job.data
  {
    assert Front(jobs + [job]) == jobs;
  }

  lemma SplitGood(policy: Policy, blockSize: nat, content: bytes)
    requires blockSize > 0
    ensures GoodJobs(blockSize, SplitJobs(policy, blockSize, content))
    ensures forall i :: 0 <= i < |SplitJobs(policy, blockSize, content)| ==> SplitJobs(policy, blockSize, content)[i].kind != ClosingPiece
  {
    hide Start, BlockOf, BlockCount, TailSize, JobBytes;
    SplitSizes(policy, blockSize, |content|);
    FullJobsBytes(blockSize, content, BlockCount(policy, blockSize, |content|));
  }

  /** Under every policy, what is submitted is nonempty, at most a block long, and makes up the file in order. */
  lemma SplitIsPartition(policy: Policy, blockSize: nat, content: bytes)
    requires blockSize > 0
    ensures JobBytes(SplitJobs(policy, blockSize, content)) == content
    ensures GoodJobs(blockSize, SplitJobs(policy, blockSize, content))
  {
    SplitBytes(policy, blockSize, content);
    SplitGood(policy, blockSize, content);
  }

  /** What the policy promises about the jobs a file is submitted as. Never: no piece goes into a fragment. Small: a file
      that is shorter than a block, but not empty, goes into a fragment as a whole, any other goes into blocks. Always:
      blocks are full, and there is one piece for a fragment exactly if the size is no multiple of the block size. */
  ghost predicate Follows(jobs: seq<Job>, policy: Policy, blockSize: nat, size: nat)
    requires blockSize > 0
  {
    && (forall j :: 0 <= j < |jobs| ==> jobs[j].kind == FullBlock || (jobs[j].kind == FragmentPiece && j == |jobs| - 1))
    && (forall j :: 0 <= j < |jobs| - 1 ==> |jobs[j].data| == blockSize)
    && match policy
       case Never => forall j :: 0 <= j < |jobs| ==> jobs[j].kind == FullBlock
       case Small => if 0 < size < blockSize then |jobs| == 1 && jobs[0].kind == FragmentPiece
                     else forall j :: 0 <= j < |jobs| ==> jobs[j].kind == FullBlock
       case Always => && (forall j :: 0 <= j < |jobs| && jobs[j].kind == FullBlock ==> |jobs[j].data| == blockSize)
                      && ((exists j :: 0 <= j < |jobs| && jobs[j].kind == FragmentPiece) <==> size % blockSize != 0)
  }

  lemma BlockLength(blockSize: nat, content: bytes, n: nat)
    requires Start(blockSize, n + 1) <= |content|
    ensures |BlockOf(blockSize, content, n)| == blockSize
  {
    StartNext(blockSize, n);
    hide Start;
  }

  lemma StartMonotone(blockSize: nat, a: nat, b: nat)
    requires a <= b
    ensures Start(blockSize, a) <= Start(blockSize, b)
  {
    TimesMonotone(blockSize, a, b);
  }

  lemma SplitFollows(policy: Policy, blockSize: nat, content: bytes)
    requires blockSize > 0
    ensures Follows(SplitJobs(policy, blockSize, content), policy, blockSize, |content|)
  {
    hide Start, BlockOf, BlockCount, TailSize;
    var tail, jobs := TailSize(policy, blockSize, |content|), SplitJobs(policy, blockSize, content);
    PolicyTail(policy, blockSize, |content|);
    forall j | 0 <= j < |jobs| && jobs[j].kind == FullBlock && (j < |jobs| - 1 || policy == Always)
      ensures |jobs[j].data| == blockSize
    {
      FullLength(policy, blockSize, content, j);
    }
    if tail > 0 { assert jobs[|jobs| - 1].kind == FragmentPiece; }
  }

  /** What the policies mean for the piece that goes into a fragment. */
  lemma PolicyTail(policy: Policy, blockSize: nat, size: nat)
    requires blockSize > 0
    ensures var n, tail := BlockCount(policy, blockSize, size), TailSize(policy, blockSize, size);
            && tail <= size && (policy == Never ==> tail == 0) && (policy == Always ==> tail == size % blockSize)
            && (policy == Small ==> if 0 < size < blockSize then tail > 0 && n == 0 else tail == 0)
  {
    Divides(size, blockSize);
    SmallQuotient(size, blockSize);
  }

  /** All blocks but the last are full, and so is the last if a piece comes behind it, and always under `Always`. */
  lemma FullLength(policy: Policy, blockSize: nat, content: bytes, j: nat)
    requires blockSize > 0 && j < BlockCount(policy, blockSize, |content|)
    requires j + 1 < BlockCount(policy, blockSize, |content|) || TailSize(policy, blockSize, |content|) > 0 || policy == Always
    ensures |BlockOf(blockSize, content, j)| == blockSize
  {
    hide Start, BlockOf;
    var n := BlockCount(policy, blockSize, |content|);
    SplitSizes(policy, blockSize, |content|);
    if policy == Always { AlwaysFull(blockSize, |content|); }
    StartMonotone(blockSize, j + 1, if j + 1 < n then n - 1 else n);
    BlockLength(blockSize, content, j);
  }

  lemma AlwaysFull(blockSize: nat, size: nat)
    requires blockSize > 0
    ensures Start(blockSize, BlockCount(Always, blockSize, size)) <= size
  {
    Divides(size, blockSize);
  }

  lemma SmallQuotient(size: nat, blockSize: nat)
    requires blockSize > 0
    ensures size < blockSize ==> size / blockSize == 0 && (0 < size ==> (size + blockSize - 1) / blockSize == 1)
    ensures size == 0 ==> (size + blockSize - 1) / blockSize == 0
  {
    if size < blockSize {
      QuotientIs(size, blockSize, 0);
      if size > 0 { QuotientIs(size + blockSize - 1, blockSize, 1); } else { QuotientIs(blockSize - 1, blockSize, 0); }
    }
  }

  /** The number of blocks a reader derives from the size of a file: rounded down if the end is in a fragment, up if not. */
  function ReaderBlocks(blockSize: nat, size: nat, hasFragment: bool): nat
    requires blockSize > 0
  {
    if hasFragment then size / blockSize else (size + blockSize - 1) / blockSize
  }

  lemma ReaderCountsBlocks(policy: Policy, blockSize: nat, size: nat)
    requires blockSize > 0
    ensures ReaderBlocks(blockSize, size, TailSize(policy, blockSize, size) > 0) == BlockCount(policy, blockSize, size)
    ensures TailSize(policy, blockSize, size) > 0 ==> TailSize(policy, blockSize, size) == size - Start(blockSize, BlockCount(policy, blockSize, size))
  {
    SplitSizes(policy, blockSize, size);
  }

  // ---------------------------------------------------------------- what lies in the image

  /** The bulk data of a finished image lie in `image`, whatever was written behind them. */
  ghost predicate HoldsOutput(s: State, image: bytes) {
    var out := Output(s.options, s.jobs);
    s.base + |out| <= |image| && image[s.base..s.base + |out|] == out
  }

  /** What finished bulk data are worth in the image: their output lies where the first of them was to go. */
  lemma OutputLies(s: State)
    requires Inv(s) && Done(s)
    ensures Lies(s.file, s.base, Output(s.options, s.jobs))
  {
    hide Inv, Done, Output, Lies;
    DoneImage(s);
    SmallFile(s);
    PwriteBehind(s.file0, s.base, Output(s.options, s.jobs));
  }

  lemma SmallFile(s: State)
    requires Inv(s)
    ensures |s.file0| <= s.base
  {
  }

  /** A stored block as a reader sees it. */
  function Unpack(codec: Codec, data: bytes, compressed: bool): bytes {
    if compressed then codec.decompress(data) else data
  }

  lemma UnpacksBlock(codec: Codec, compress: bool, raw: bytes)
    requires codec.Lawful()
    ensures var b := StoreBlock(codec, compress, raw); Unpack(codec, b.data, b.compressed) == raw && |b.data| <= |raw|
  {
  }

  /** The block emitted by job `c` lies in the image at its offset. */
  lemma EmittedInImage(s: State, image: bytes, c: nat)
    requires HoldsOutput(s, image) && c < |s.jobs|
    ensures OffsetAt(s, c) + |EmittedBytesAt(s, c)| <= |image|
    ensures image[OffsetAt(s, c)..OffsetAt(s, c) + |EmittedBytesAt(s, c)|] == EmittedBytesAt(s, c)
  {
    hide Output, EmittedBytes;
    EmittedLies(s.options, s.jobs, c);
    var out, at := Output(s.options, s.jobs), |Output(s.options, s.jobs[..c])|;
    SliceOfSlice(image, s.base, |out|, at, |EmittedBytesAt(s, c)|);
  }

  /** A full block is read back from its place. */
  lemma FullReadsBack(s: State, image: bytes, c: nat)
    requires Inv(s) && Done(s) && HoldsOutput(s, image) && c < |s.jobs| && s.jobs[c].kind == FullBlock
    ensures c < |s.chunks|
    ensures var dst := s.chunks[c].dst;
            && dst.offset == OffsetAt(s, c) && dst.size <= s.options.blockSize && dst.offset + dst.size <= |image|
            && OffsetAt(s, c + 1) == dst.offset + dst.size
            && Unpack(s.options.codec, image[dst.offset..dst.offset + dst.size], dst.compressed) == s.jobs[c].data
  {
    hide Inv, Done, HoldsOutput, OffsetAt, EmittedAt, EmittedBytesAt, StoreBlock, Unpack;
    FullFacts(s, c);
    ChunkLaidOut(s, c);
    EmittedInImage(s, image, c);
    OffsetStep(s, c);
    FullIsStored(s, c);
    UnpacksBlock(s.options.codec, s.options.compressBlocks, s.jobs[c].data);
  }

  lemma OffsetStep(s: State, c: nat)
    requires c < |s.jobs|
    ensures OffsetAt(s, c + 1) == OffsetAt(s, c) + |EmittedBytesAt(s, c)|
  {
    OutputStep(s.options, s.jobs, c);
  }

  lemma FullIsStored(s: State, c: nat)
    requires c < |s.jobs| && s.jobs[c].kind == FullBlock
    ensures EmittedAt(s, c) == Some(StoreBlock(s.options.codec, s.options.compressBlocks, s.jobs[c].data))
    ensures EmittedBytesAt(s, c) == EmittedAt(s, c).value.data
  {
    hide StoreBlock;
  }

  lemma FullFacts(s: State, c: nat)
    requires Inv(s) && c < |s.jobs| && s.jobs[c].kind == FullBlock
    ensures c < |s.chunks| && s.options.codec.Lawful() && |s.jobs[c].data| <= s.options.blockSize
  {
    assert GoodJob(s.options.blockSize, s.jobs[c]);
  }

  // ---------------------------------------------------------------- when a block is compressed

  /** `raw` is stored as these bytes: compressed exactly if that is asked for and the compressor can do it in
      no more room than the bytes themselves, and then as what the compressor makes of them. */
  ghost predicate KeptAs(codec: Codec, compress: bool, raw: bytes, stored: bytes, compressed: bool) {
    && (compressed <==> compress && codec.compress(raw, |raw|).Some?)
    && stored == (if compressed then codec.compress(raw, |raw|).value else raw)
  }

  lemma StoredIsKept(codec: Codec, compress: bool, raw: bytes)
    ensures var b := StoreBlock(codec, compress, raw); KeptAs(codec, compress, raw, b.data, b.compressed)
  {
  }

  /** Where the image holds the bulk data, a full block lies compressed or as it was. */
  lemma FullIsKept(s: State, image: bytes, c: nat)
    requires Inv(s) && Done(s) && HoldsOutput(s, image) && c < |s.jobs| && s.jobs[c].kind == FullBlock
    ensures c < |s.chunks|
    ensures var dst := s.chunks[c].dst;
            && 0 <= dst.offset && dst.offset + dst.size <= |image|
            && KeptAs(s.options.codec, s.options.compressBlocks, s.jobs[c].data, image[dst.offset..dst.offset + dst.size], dst.compressed)
  {
    hide Inv, Done, HoldsOutput, OffsetAt, EmittedAt, EmittedBytesAt, StoreBlock, KeptAs;
    FullFacts(s, c);
    ChunkLaidOut(s, c);
    EmittedInImage(s, image, c);
    FullIsStored(s, c);
    StoredIsKept(s.options.codec, s.options.compressBlocks, s.jobs[c].data);
  }

  /** The same for a fragment block: what was compressed is the data of its pieces, in the order they were submitted. */
  lemma FragmentIsKept(s: State, image: bytes, k: nat)
    requires Inv(s) && Done(s) && HoldsOutput(s, image) && k < |s.frags|
    ensures var dst := s.frags[k].dst;
            && 0 <= dst.offset && dst.offset + dst.size <= |image|
            && KeptAs(s.options.codec, s.options.compressFragments, PieceData(s.jobs, s.frags[k].pieces), image[dst.offset..dst.offset + dst.size], dst.compressed)
  {
    hide Inv, Done, HoldsOutput, FragmentsAt, FlushesAt, OffsetAt, EmittedAt, EmittedBytesAt, WrittenFragments, StoreBlock, KeptAs, PieceData;
    AllWritten(s);
    FragmentsAtEnd(s);
    PiecesOf(s, k);
    var f := Flusher(s, |s.jobs|, k);
    FlushedIsFinal(s, f);
    EmittedInImage(s, image, f);
    FlushIsStored(s, f);
    StoredIsKept(s.options.codec, s.options.compressFragments, Last(FragmentsAt(s, f)));
  }

  lemma SomethingOut(s: State, c: nat)
    requires c < |s.jobs| && EmittedBytesAt(s, c) != []
    ensures Output(s.options, s.jobs) != []
  {
    hide Output, EmittedBytes;
    EmittedLies(s.options, s.jobs, c);
  }

  lemma HoldsItself(s: State)
    requires Inv(s) && Done(s) && Output(s.options, s.jobs) != []
    ensures HoldsOutput(s, s.file)
  {
    hide Inv, Done, Output;
    OutputLies(s);
  }

  /** What the pipeline has written when it is done: every full block, and every fragment block, compressed exactly if
      its kind is to be and the compressor can do it in the room, and as it was if not. */
  lemma DoneIsCompressed(s: State)
    requires Inv(s) && Done(s)
    ensures |s.chunks| == |s.jobs|
    ensures forall c :: 0 <= c < |s.jobs| && s.jobs[c].kind == FullBlock ==>
              var dst := s.chunks[c].dst;
              && 0 <= dst.offset && dst.offset + dst.size <= |s.file|
              && KeptAs(s.options.codec, s.options.compressBlocks, s.jobs[c].data, s.file[dst.offset..dst.offset + dst.size], dst.compressed)
    ensures forall k :: 0 <= k < |s.frags| ==>
              var dst := s.frags[k].dst;
              && 0 <= dst.offset && dst.offset + dst.size <= |s.file|
              && KeptAs(s.options.codec, s.options.compressFragments, PieceData(s.jobs, s.frags[k].pieces), s.file[dst.offset..dst.offset + dst.size], dst.compressed)
  {
    hide Inv, Done, HoldsOutput, KeptAs, PieceData, EmittedBytesAt, Output;
    JobsGood(s);
    forall c | 0 <= c < |s.jobs| && s.jobs[c].kind == FullBlock
      ensures var dst := s.chunks[c].dst;
              && 0 <= dst.offset && dst.offset + dst.size <= |s.file|
              && KeptAs(s.options.codec, s.options.compressBlocks, s.jobs[c].data, s.file[dst.offset..dst.offset + dst.size], dst.compressed)
    {
      FullNotEmpty(s, c);
      SomethingOut(s, c);
      HoldsItself(s);
      FullIsKept(s, s.file, c);
    }
    forall k | 0 <= k < |s.frags|
      ensures var dst := s.frags[k].dst;
              && 0 <= dst.offset && dst.offset + dst.size <= |s.file|
              && KeptAs(s.options.codec, s.options.compressFragments, PieceData(s.jobs, s.frags[k].pieces), s.file[dst.offset..dst.offset + dst.size], dst.compressed)
    {
      var f := FlushedSomething(s, k);
      SomethingOut(s, f);
      HoldsItself(s);
      FragmentIsKept(s, s.file, k);
    }
  }

  lemma FullNotEmpty(s: State, c: nat)
    requires Inv(s) && c < |s.jobs| && s.jobs[c].kind == FullBlock
    ensures EmittedBytesAt(s, c) != []
  {
    hide Inv, EmittedAt, EmittedBytesAt, StoreBlock;
    JobsGood(s);
    assert GoodJob(s.options.blockSize, s.jobs[c]);
    FullIsStored(s, c);
    StoredNotEmpty(s.options.codec, s.options.compressBlocks, s.jobs[c].data);
  }

  lemma FlushedSomething(s: State, k: nat) returns (f: nat)
    requires Inv(s) && Done(s) && k < |s.frags|
    ensures f < |s.jobs| && EmittedBytesAt(s, f) != []
  {
    hide Inv, Done, FragmentsAt, FlushesAt, OffsetAt, EmittedAt, EmittedBytesAt, WrittenFragments, StoreBlock;
    AllWritten(s);
    f := Flusher(s, |s.jobs|, k);
    FlushedIsFinal(s, f);
    FlushIsStored(s, f);
    BlockNotEmpty(s, f);
    StoredNotEmpty(s.options.codec, s.options.compressFragments, Last(FragmentsAt(s, f)));
  }

  lemma BlockNotEmpty(s: State, f: nat)
    requires Inv(s) && f < |s.jobs| && FragmentsAt(s, f) != []
    ensures Last(FragmentsAt(s, f)) != []
  {
    hide Inv, Fragments;
    JobsGood(s);
    BlocksFit(s.options.blockSize, s.jobs[..f]);
  }

  // ---------------------------------------------------------------- the blocks of a file

  /** The block-size list of a file: the sizes of its blocks, flagged if stored as they are. */
  function Words(chunks: seq<Chunk>, first: nat, n: nat): (words: seq<nat>)
    requires first + n <= |chunks|
    ensures |words| == n
    decreases n
  {
    if n == 0 then [] else [StoredSize(chunks[first].dst.size, chunks[first].dst.compressed)] + Words(chunks, first + 1, n - 1)
  }

  /** Reads blocks that lie one behind the other, by the list of their sizes. */
  function ReadBlocks(codec: Codec, image: bytes, at: nat, words: seq<nat>): Option<bytes>
    decreases |words|
  {
    if words == [] then Some([])
    else
      var size, compressed := words[0] % 0x100_0000, words[0] / 0x100_0000 % 2 == 0;
      if |image| < at + size then None
      else
        match ReadBlocks(codec, image, at + size, words[1..])
        case None => None
        case Some(rest) => Some(Unpack(codec, image[at..at + size], compressed) + rest)
  }

  lemma {:induction false} JobBytesCons(jobs: seq<Job>)
    requires jobs != []
    ensures JobBytes(jobs) == jobs[0].data + JobBytes(jobs[1..])
  {
    if |jobs| > 1 {
      JobBytesCons(Front(jobs));
      assert Front(jobs)[1..] == Front(jobs[1..]);
    } else {
      assert Front(jobs) == [] && jobs[1..] == [];
    }
  }

  lemma {:induction false} BlocksReadBack(s: State, image: bytes, first: nat, n: nat)
    requires Inv(s) && Done(s) && HoldsOutput(s, image) && s.options.blockSize < UNCOMPRESSED_BLOCK
    requires first + n <= |s.jobs| == |s.chunks| && forall c :: first <= c < first + n ==> s.jobs[c].kind == FullBlock
    ensures ReadBlocks(s.options.codec, image, OffsetAt(s, first), Words(s.chunks, first, n)) == Some(JobBytes(s.jobs[first..first + n]))
    decreases n
  {
    hide Inv, Done, HoldsOutput, OffsetAt, StoredSize, Unpack, JobBytes;
    if n == 0 {
      NoJobs(s.jobs[first..first + n]);
    } else {
      FullReadsBack(s, image, first);
      StoredSizeDecodes(s.chunks[first].dst.size, s.chunks[first].dst.compressed);
      BlocksReadBack(s, image, first + 1, n - 1);
      JobBytesCons(s.jobs[first..first + n]);
      assert s.jobs[first..first + n][1..] == s.jobs[first + 1..first + n];
    }
  }

  lemma NoJobs(jobs: seq<Job>)
    requires jobs == []
    ensures JobBytes(jobs) == []
  {
  }

  // ---------------------------------------------------------------- the end of a file

  /** Later pieces go behind earlier ones: what a fragment block held, it goes on holding at the same place. */
  lemma {:induction false} FragmentsOnlyGrow(blockSize: nat, jobs: seq<Job>, a: nat, b: nat, k: nat)
    requires a <= b <= |jobs| && k < |Fragments(blockSize, jobs[..a])|
    ensures k < |Fragments(blockSize, jobs[..b])| && Fragments(blockSize, jobs[..a])[k] <= Fragments(blockSize, jobs[..b])[k]
  {
    if a < b {
      FragmentsOnlyGrow(blockSize, jobs, a, b - 1, k);
      PrefixFront(jobs, b);
    }
  }

  /** The job that writes out a fragment block that has been written. */
  lemma {:induction false} Flusher(s: State, c: nat, k: nat) returns (f: nat)
    requires c <= |s.jobs| && k < |WrittenFragments(s.options, s.base, s.jobs[..c])| && ClosesLast(s.jobs[..c])
    ensures f < c && FlushesAt(s, f) && |FragmentsAt(s, f)| == k + 1
    ensures WrittenFragments(s.options, s.base, s.jobs[..c])[k] == StoredAt(OffsetAt(s, f), EmittedAt(s, f).value)
  {
    hide FragmentsAt, FlushesAt, OffsetAt, EmittedAt, WrittenFragments;
    if c > 0 {
      WrittenUnfolds(s, c - 1);
      ShorterCloses(s.jobs, c);
      var before := WrittenFragments(s.options, s.base, s.jobs[..c - 1]);
      if k < |before| {
        f := Flusher(s, c - 1, k);
      } else {
        f := c - 1;
        FlushCount(s, f);
      }
    } else {
      NothingWritten(s);
    }
  }

  lemma ShorterCloses(jobs: seq<Job>, c: nat)
    requires 0 < c <= |jobs| && ClosesLast(jobs[..c])
    ensures ClosesLast(jobs[..c - 1]) && (c > 1 ==> jobs[..c - 1][c - 2].kind != ClosingPiece)
  {
    forall i | 0 <= i < c - 1
      ensures jobs[i].kind != ClosingPiece
    {
      assert jobs[..c][i] == jobs[i];
    }
  }

  lemma NothingWritten(s: State)
    ensures WrittenFragments(s.options, s.base, s.jobs[..0]) == []
  {
  }

  lemma FlushCount(s: State, f: nat)
    requires f < |s.jobs| && FlushesAt(s, f) && ClosesLast(s.jobs[..f]) && (f > 0 ==> s.jobs[..f][f - 1].kind != ClosingPiece)
    ensures |FragmentsAt(s, f)| == |WrittenFragments(s.options, s.base, s.jobs[..f])| + 1
  {
    WrittenCount(s.options, s.base, s.jobs[..f]);
    hide WrittenFragments, Fragments;
  }

  /** A flushed block is final. */
  lemma FlushedIsFinal(s: State, f: nat)
    requires Inv(s) && f < |s.jobs| && FlushesAt(s, f)
    ensures FragmentsAt(s, f) != [] && |FragmentsAt(s, f)| <= |FragmentsAt(s, |s.jobs|)|
    ensures FragmentsAt(s, |s.jobs|)[|FragmentsAt(s, f)| - 1] == Last(FragmentsAt(s, f))
    ensures |Last(FragmentsAt(s, f))| <= s.options.blockSize && s.options.codec.Lawful()
  {
    hide Inv, Fragments, Flushes;
    JobsGood(s);
    FlushNotEmpty(s, f);
    BlocksFit(s.options.blockSize, s.jobs[..f]);
    if s.jobs[f].kind == FragmentPiece {
      FlushedStays(s.options.blockSize, s.jobs, f, |s.jobs|);
    } else {
      ClosingIsLast(s, f);
      FragmentsGap(s.options.blockSize, s.jobs, f, |s.jobs|);
    }
  }

  lemma FlushNotEmpty(s: State, f: nat)
    requires f < |s.jobs| && FlushesAt(s, f)
    ensures FragmentsAt(s, f) != [] && s.jobs[f].kind != FullBlock
  {
  }

  lemma JobsGood(s: State)
    requires Inv(s)
    ensures GoodJobs(s.options.blockSize, s.jobs) && s.options.codec.Lawful() && |s.chunks| == |s.jobs|
  {
  }

  lemma ClosingIsLast(s: State, f: nat)
    requires Inv(s) && f < |s.jobs| && s.jobs[f].kind == ClosingPiece
    ensures f == |s.jobs| - 1
  {
  }

  /** Fragment block `k` of a finished image, read back from its place. */
  lemma FragmentInImage(s: State, image: bytes, k: nat)
    requires Inv(s) && Done(s) && HoldsOutput(s, image) && k < |s.frags|
    ensures var dst := s.frags[k].dst;
            && k < |FragmentsAt(s, |s.jobs|)| && 0 <= dst.offset && dst.size <= s.options.blockSize && dst.offset + dst.size <= |image|
            && Unpack(s.options.codec, image[dst.offset..dst.offset + dst.size], dst.compressed) == FragmentsAt(s, |s.jobs|)[k]
  {
    hide Inv, Done, HoldsOutput, FragmentsAt, FlushesAt, OffsetAt, EmittedAt, EmittedBytesAt, WrittenFragments, StoreBlock, Unpack;
    AllWritten(s);
    var f := Flusher(s, |s.jobs|, k);
    FlushedIsFinal(s, f);
    EmittedInImage(s, image, f);
    FlushIsStored(s, f);
    UnpacksBlock(s.options.codec, s.options.compressFragments, Last(FragmentsAt(s, f)));
  }

  lemma AllWritten(s: State)
    requires Inv(s) && Done(s)
    ensures ClosesLast(s.jobs[..|s.jobs|])
    ensures var written := WrittenFragments(s.options, s.base, s.jobs[..|s.jobs|]);
            |written| == |s.frags| && forall k :: 0 <= k < |written| ==> s.frags[k].dst == written[k]
  {
    assert s.jobs[..|s.jobs|] == s.jobs;
    DoneFragments(s);
    WrittenAre(s, |s.jobs|);
  }

  lemma FlushIsStored(s: State, f: nat)
    requires f < |s.jobs| && FlushesAt(s, f) && FragmentsAt(s, f) != []
    ensures EmittedAt(s, f) == Some(StoreBlock(s.options.codec, s.options.compressFragments, Last(FragmentsAt(s, f))))
    ensures EmittedBytesAt(s, f) == EmittedAt(s, f).value.data
  {
    hide StoreBlock, Fragments;
  }

  /** A piece is found in the fragment block it was put in, at its offset. */
  lemma PieceInFragment(s: State, c: nat)
    requires Inv(s) && Done(s) && c < |s.jobs| && s.jobs[c].kind == FragmentPiece
    ensures c < |s.chunks| && s.chunks[c].block.Some? && s.chunks[c].block.value < |FragmentsAt(s, |s.jobs|)| == |s.frags|
    ensures var block := FragmentsAt(s, |s.jobs|)[s.chunks[c].block.value];
            && 0 <= s.chunks[c].offset && s.chunks[c].offset + |s.jobs[c].data| <= |block|
            && block[s.chunks[c].offset..s.chunks[c].offset + |s.jobs[c].data|] == s.jobs[c].data
  {
    hide Inv, Done, Fragments;
    JobsGood(s);
    ChunkLaidOut(s, c);
    FragmentsAtEnd(s);
    var blocks := FragmentsAt(s, c + 1);
    PieceIsLast(s, c);
    FragmentsOnlyGrow(s.options.blockSize, s.jobs, c + 1, |s.jobs|, |blocks| - 1);
  }

  lemma FragmentsAtEnd(s: State)
    requires Inv(s) && Done(s)
    ensures |s.frags| == |FragmentsAt(s, |s.jobs|)|
  {
    assert s.jobs[..|s.jobs|] == s.jobs;
    DoneFragments(s);
  }

  lemma PieceIsLast(s: State, c: nat)
    requires c < |s.jobs| && s.jobs[c].kind == FragmentPiece && FragmentsAt(s, c + 1) != []
    ensures var block := Last(FragmentsAt(s, c + 1));
            |block| >= |s.jobs[c].data| && block[|block| - |s.jobs[c].data|..] == s.jobs[c].data
  {
    FragmentsNext(s, c);
  }

  // ---------------------------------------------------------------- reading a file back

  datatype FragmentRef = FragmentRef(index: nat, offset: nat)

  /** What the inode of a regular file says about its contents. */
  datatype FileInode = FileInode(size: nat, start: nat, words: seq<nat>, fragment: Option<FragmentRef>)

  /** The inode of a file whose `n` blocks start at chunk `first`, with its end in the chunk behind them or not. */
  function InodeOf(chunks: seq<Chunk>, first: nat, n: nat, hasTail: bool, size: nat): FileInode
    requires first + n + (if hasTail then 1 else 0) <= |chunks|
  {
    FileInode(size, if n > 0 && chunks[first].dst.offset >= 0 then chunks[first].dst.offset else 0, Words(chunks, first, n),
              if hasTail && chunks[first + n].block.Some? && chunks[first + n].offset >= 0
              then Some(FragmentRef(chunks[first + n].block.value, chunks[first + n].offset)) else None)
  }

  /** The end of a file, `count` bytes of a fragment block. */
  function ReadTail(codec: Codec, image: bytes, index: nat, fragment: FragmentRef, count: nat): Option<bytes> {
    match FindFragment(codec, image, index, fragment.index)
    case None => None
    case Some(place) =>
      if |image| < place.start + place.size then None
      else
        var block := Unpack(codec, image[place.start..place.start + place.size], place.compressed);
        if |block| < fragment.offset + count then None else Some(block[fragment.offset..fragment.offset + count])
  }

  /** Reads a file by what its inode and the fragment table say, and nothing else. */
  function ReadFile(codec: Codec, image: bytes, blockSize: nat, index: nat, f: FileInode): Option<bytes>
    requires blockSize > 0
  {
    var n := ReaderBlocks(blockSize, f.size, f.fragment.Some?);
    if |f.words| != n then None
    else
      var blocks := ReadBlocks(codec, image, f.start, f.words);
      if f.fragment.None? || f.size < Start(blockSize, n) then blocks
      else
        var tail := ReadTail(codec, image, index, f.fragment.value, f.size - Start(blockSize, n));
        if blocks.None? || tail.None? then None else Some(blocks.value + tail.value)
  }

  function Destinations(frags: seq<FragmentBlock>): (d: seq<ImageBlock>)
    ensures |d| == |frags| && forall k :: 0 <= k < |d| ==> d[k] == frags[k].dst
  {
    if frags == [] then [] else Destinations(Front(frags)) + [Last(frags).dst]
  }

  /** The fragment table of a finished pipeline lies in the image. */
  ghost predicate HoldsTable(s: State, image: bytes, start: nat, index: nat) {
    |image| < U64 && (s.frags != [] ==> Written(Some(s.options.codec), image, start, BlocksOf([Flatten(Records(Destinations(s.frags)))]), index))
  }

  /** A piece is read back through the fragment table. */
  lemma TailReadsBack(s: State, image: bytes, start: nat, index: nat, c: nat)
    requires Inv(s) && Done(s) && HoldsOutput(s, image) && HoldsTable(s, image, start, index) && s.options.blockSize < UNCOMPRESSED_BLOCK
    requires c < |s.jobs| && s.jobs[c].kind == FragmentPiece
    ensures c < |s.chunks| && s.chunks[c].block.Some? && s.chunks[c].offset >= 0
    ensures ReadTail(s.options.codec, image, index, FragmentRef(s.chunks[c].block.value, s.chunks[c].offset), |s.jobs[c].data|) == Some(s.jobs[c].data)
  {
    hide Inv, Done, HoldsOutput, HoldsTable, FragmentsAt, FindFragment, Unpack;
    PieceInFragment(s, c);
    var k := s.chunks[c].block.value;
    FragmentInImage(s, image, k);
    FragmentFound(s, image, start, index, k);
  }

  /** The fragment table gives the place of block `k`. */
  lemma FragmentFound(s: State, image: bytes, start: nat, index: nat, k: nat)
    requires Inv(s) && HoldsTable(s, image, start, index) && s.options.blockSize < UNCOMPRESSED_BLOCK && k < |s.frags|
    requires var dst := s.frags[k].dst; 0 <= dst.offset && dst.size <= s.options.blockSize && dst.offset + dst.size <= |image|
    ensures var dst := s.frags[k].dst; FindFragment(s.options.codec, image, index, k) == Some(FragmentPlace(dst.offset, dst.size, dst.compressed))
  {
    hide Inv, FindFragment, Written, BlocksOf, Flatten;
    JobsGood(s);
    FragmentReadsBack(s.options.codec, image, start, index, Destinations(s.frags), k);
  }

  /** The parts of a split file among the jobs. */
  lemma SplitShape(policy: Policy, blockSize: nat, content: bytes)
    requires blockSize > 0
    ensures var n, tail, jobs := BlockCount(policy, blockSize, |content|), TailSize(policy, blockSize, |content|), SplitJobs(policy, blockSize, content);
            && tail <= |content| && |jobs| == n + (if tail > 0 then 1 else 0)
            && (forall i :: 0 <= i < n ==> jobs[i].kind == FullBlock)
            && (tail > 0 ==> jobs[n] == Job(FragmentPiece, content[|content| - tail..]) && JobBytes(jobs) == JobBytes(jobs[..n]) + jobs[n].data)
            && (tail == 0 ==> jobs[..n] == jobs)
  {
    hide Start, BlockOf, BlockCount, TailSize, JobBytes;
    SplitEnd(policy, blockSize, content);
    var n, tail, jobs := BlockCount(policy, blockSize, |content|), TailSize(policy, blockSize, |content|), SplitJobs(policy, blockSize, content);
    if tail > 0 {
      assert jobs[..n] + [jobs[n]] == jobs;
      JobBytesSnoc(jobs[..n], jobs[n]);
    }
  }

  /** End to end: whatever the schedule was, a reader that has the start of the file, the list of block sizes,
      the place in a fragment and the fragment table gets back exactly the bytes of the file. */
  lemma FileReadsBack(s: State, image: bytes, start: nat, index: nat, first: nat, policy: Policy, content: bytes)
    requires Inv(s) && Done(s) && HoldsOutput(s, image) && HoldsTable(s, image, start, index)
    requires 0 < s.options.blockSize < UNCOMPRESSED_BLOCK
    requires var jobs := SplitJobs(policy, s.options.blockSize, content);
             first + |jobs| <= |s.jobs| && s.jobs[first..first + |jobs|] == jobs
    ensures var n, tail := BlockCount(policy, s.options.blockSize, |content|), TailSize(policy, s.options.blockSize, |content|);
            && first + n + (if tail > 0 then 1 else 0) <= |s.chunks|
            && ReadFile(s.options.codec, image, s.options.blockSize, index, InodeOf(s.chunks, first, n, tail > 0, |content|)) == Some(content)
  {
    hide Inv, Done, HoldsOutput, HoldsTable, SplitJobs, BlockCount, TailSize, Start, ReadTail, ReadBlocks, Words, JobBytes, ReaderBlocks;
    var o, n, tail := s.options, BlockCount(policy, s.options.blockSize, |content|), TailSize(policy, s.options.blockSize, |content|);
    var jobs := SplitJobs(policy, o.blockSize, content);
    JobsGood(s);
    SplitShape(policy, o.blockSize, content);
    SplitBytes(policy, o.blockSize, content);
    ReaderCountsBlocks(policy, o.blockSize, |content|);
    SplitSizes(policy, o.blockSize, |content|);
    FirstBlocks(s, first, jobs, n);
    StartOfBlocks(s, image, first, n);
    if tail > 0 { TailReadsBack(s, image, start, index, first + n); }
  }

  lemma FirstBlocks(s: State, first: nat, jobs: seq<Job>, n: nat)
    requires first + |jobs| <= |s.jobs| && s.jobs[first..first + |jobs|] == jobs && n <= |jobs|
    requires forall i :: 0 <= i < n ==> jobs[i].kind == FullBlock
    ensures s.jobs[first..first + n] == jobs[..n] && forall c :: first <= c < first + n ==> s.jobs[c].kind == FullBlock
    ensures n < |jobs| ==> s.jobs[first + n] == jobs[n]
  {
    assert forall c :: first <= c < first + n ==> s.jobs[c] == jobs[c - first];
  }

  lemma StartOfBlocks(s: State, image: bytes, first: nat, n: nat)
    requires Inv(s) && Done(s) && HoldsOutput(s, image) && s.options.blockSize < UNCOMPRESSED_BLOCK
    requires first + n <= |s.jobs| == |s.chunks| && forall c :: first <= c < first + n ==> s.jobs[c].kind == FullBlock
    ensures var at := if n > 0 && s.chunks[first].dst.offset >= 0 then s.chunks[first].dst.offset else 0;
            ReadBlocks(s.options.codec, image, at, Words(s.chunks, first, n)) == Some(JobBytes(s.jobs[first..first + n]))
  {
    hide Inv, Done, HoldsOutput, JobBytes, OffsetAt, StoredSize, Unpack;
    if n > 0 {
      FullReadsBack(s, image, first);
      BlocksReadBack(s, image, first, n);
    } else {
      NoJobs(s.jobs[first..first + n]);
    }
  }
}
