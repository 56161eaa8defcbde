/** What the bulk data of an image looks like when its jobs are handled one after the other, in the order
    they were submitted. The parallel pipeline is proved to produce exactly this. */
module SequentialLayout {
  import opened Bytes
  import opened Codecs

  /** Full block of a file, piece of a file to be packed with others, and the piece that ends the image. */
  datatype Kind = FullBlock | FragmentPiece | ClosingPiece

  datatype Job = Job(kind: Kind, data: bytes)

  datatype Options = Options(codec: Codec, compressBlocks: bool, compressFragments: bool, blockSize: nat)

  /** A block as stored in the image. */
  datatype StoredBlock = StoredBlock(compressed: bool, data: bytes)

  /** Compressed if asked for and if the compressor can do it in no more room than the block itself. */
  function StoreBlock(codec: Codec, compress: bool, raw: bytes): StoredBlock {
    var out := if compress then codec.compress(raw, |raw|) else None;
    if out.Some? then StoredBlock(true, out.value) else StoredBlock(false, raw)
  }

  // ---------------------------------------------------------------- fragment packing

  /** Does a piece start a new fragment block, so that the last one has to be written out? */
  predicate Overflows(blockSize: nat, blocks: seq<bytes>, data: bytes) {
    blocks != [] && |Last(blocks)| + |data| > blockSize
  }

  function Place(blockSize: nat, blocks: seq<bytes>, job: Job): seq<bytes> {
    if job.kind != FragmentPiece then blocks
    else if blocks == [] || Overflows(blockSize, blocks, job.data) then blocks + [job.data]
    else Front(blocks) + [Last(blocks) + job.data]
  }

  /** Contents of the fragment blocks after some jobs; the last one is still open. */
  function Fragments(blockSize: nat, jobs: seq<Job>): seq<bytes> {
    if jobs == [] then [] else Place(blockSize, Fragments(blockSize, Front(jobs)), Last(jobs))
  }

  /** Does `job`, coming after `prior`, write out the last fragment block? */
  predicate Flushes(blockSize: nat, prior: seq<Job>, job: Job) {
    match job.kind
    case FullBlock => false
    case FragmentPiece => Overflows(blockSize, Fragments(blockSize, prior), job.data)
    case ClosingPiece => Fragments(blockSize, prior) != []
  }

  // ---------------------------------------------------------------- output

  /** The block that `job` sends to the image, if any. */
  function Emitted(o: Options, prior: seq<Job>, job: Job): Option<StoredBlock> {
    if job.kind == FullBlock then Some(StoreBlock(o.codec, o.compressBlocks, job.data))
    else if Flushes(o.blockSize, prior, job) then
      Some(StoreBlock(o.codec, o.compressFragments, Last(Fragments(o.blockSize, prior))))
    else None
  }

  function EmittedBytes(o: Options, prior: seq<Job>, job: Job): bytes {
    match Emitted(o, prior, job)
    case None => []
    case Some(b) => b.data
  }

  /** The bulk data area: one stored block after the other. */
  function Output(o: Options, jobs: seq<Job>): bytes {
    if jobs == [] then [] else Output(o, Front(jobs)) + EmittedBytes(o, Front(jobs), Last(jobs))
  }

  // ---------------------------------------------------------------- facts about the packing

  ghost predicate GoodJob(blockSize: nat, job: Job) {
    if job.kind == ClosingPiece then job.data == [] else 0 < |job.data| <= blockSize
  }

  ghost predicate GoodJobs(blockSize: nat, jobs: seq<Job>) {
    forall c :: 0 <= c < |jobs| ==> GoodJob(blockSize, jobs[c])
  }

  lemma {:induction false} BlocksFit(blockSize: nat, jobs: seq<Job>)
    requires GoodJobs(blockSize, jobs)
    ensures forall k :: 0 <= k < |Fragments(blockSize, jobs)| ==> 0 < |Fragments(blockSize, jobs)[k]| <= blockSize
  {
    if jobs != [] {
      BlocksFit(blockSize, Front(jobs));
    }
  }

  lemma PrefixFront<T>(s: seq<T>, n: nat)
    requires 0 < n <= |s|
    ensures Front(s[..n]) == s[..n - 1] && Last(s[..n]) == s[n - 1]
  {
  }

  /** Jobs that are not pieces leave the fragment blocks alone. */
  lemma {:induction false} FragmentsGap(blockSize: nat, jobs: seq<Job>, a: nat, b: nat)
    requires a <= b <= |jobs|
    requires forall c :: a <= c < b ==> jobs[c].kind != FragmentPiece
    ensures Fragments(blockSize, jobs[..b]) == Fragments(blockSize, jobs[..a])
  {
    if a < b {
      FragmentsGap(blockSize, jobs, a, b - 1);
      PrefixFront(jobs, b);
    }
  }

  /** Later jobs only ever touch the last fragment block. */
  lemma {:induction false} FragmentsGrow(blockSize: nat, jobs: seq<Job>, a: nat, b: nat)
    requires a <= b <= |jobs|
    ensures |Fragments(blockSize, jobs[..a])| <= |Fragments(blockSize, jobs[..b])|
    ensures forall k :: 0 <= k < |Fragments(blockSize, jobs[..a])| - 1 ==>
              Fragments(blockSize, jobs[..b])[k] == Fragments(blockSize, jobs[..a])[k]
  {
    if a < b {
      FragmentsGrow(blockSize, jobs, a, b - 1);
      PrefixFront(jobs, b);
    }
  }

  /** A block that has been flushed never changes again, and nothing flushes it twice. */
  lemma FlushedStays(blockSize: nat, jobs: seq<Job>, c: nat, b: nat)
    requires c < b <= |jobs| && jobs[c].kind == FragmentPiece && Flushes(blockSize, jobs[..c], jobs[c])
    ensures |Fragments(blockSize, jobs[..b])| > |Fragments(blockSize, jobs[..c])| > 0
    ensures forall k :: 0 <= k < |Fragments(blockSize, jobs[..c])| ==>
              Fragments(blockSize, jobs[..b])[k] == Fragments(blockSize, jobs[..c])[k]
  {
    PrefixFront(jobs, c + 1);
    FragmentsGrow(blockSize, jobs, c + 1, b);
  }

  function TotalSize(blocks: seq<bytes>): nat {
    if blocks == [] then 0 else TotalSize(Front(blocks)) + |Last(blocks)|
  }

  function PieceBytes(jobs: seq<Job>): nat {
    if jobs == [] then 0
    else PieceBytes(Front(jobs)) + (if Last(jobs).kind == FragmentPiece then |Last(jobs).data| else 0)
  }

  lemma PlaceSizes(blockSize: nat, blocks: seq<bytes>, job: Job)
    requires job.kind == FragmentPiece
    ensures var next := Place(blockSize, blocks, job);
            && TotalSize(next) == TotalSize(blocks) + |job.data|
            && (if blocks == [] || Overflows(blockSize, blocks, job.data)
                then |next| == |blocks| + 1 && Last(next) == job.data
                else |next| == |blocks| && Last(next) == Last(blocks) + job.data)
  {
    var next := Place(blockSize, blocks, job);
    assert Front(next) == if blocks == [] || Overflows(blockSize, blocks, job.data) then blocks else Front(blocks);
  }

  lemma MulNext(k: nat, n: nat)
    ensures (k + 1) * n == k * n + n
  {
  }

  /** The packing loses nothing, and wastes less than half of the room it takes up. */
  lemma {:induction false} PackingBound(blockSize: nat, jobs: seq<Job>)
    requires GoodJobs(blockSize, jobs)
    ensures TotalSize(Fragments(blockSize, jobs)) == PieceBytes(jobs)
    ensures var blocks := Fragments(blockSize, jobs);
            blocks != [] ==> |blocks| * blockSize + |Last(blocks)| < 2 * PieceBytes(jobs) + blockSize
  {
    if jobs != [] {
      var job, blocks := Last(jobs), Fragments(blockSize, Front(jobs));
      PackingBound(blockSize, Front(jobs));
      if job.kind == FragmentPiece {
        PlaceSizes(blockSize, blocks, job);
        MulNext(|blocks|, blockSize);
      }
    }
  }

  /** No block is left while the next piece would fit: where block `k` ends, the piece that starts the next
      one would have gone beyond the block size. */
  lemma {:induction false} NextDoesNotFit(blockSize: nat, jobs: seq<Job>, k: nat) returns (c: nat)
    requires k + 1 < |Fragments(blockSize, jobs)|
    ensures c < |jobs| && jobs[c].kind == FragmentPiece && Fragments(blockSize, jobs[..c]) == Fragments(blockSize, jobs)[..k + 1]
    ensures |Fragments(blockSize, jobs)[k]| + |jobs[c].data| > blockSize
    ensures jobs[c].data <= Fragments(blockSize, jobs)[k + 1]
  {
    var blocks := Fragments(blockSize, Front(jobs));
    if k + 1 < |blocks| {
      c := NextDoesNotFit(blockSize, Front(jobs), k);
      assert Front(jobs)[..c] == jobs[..c];
    } else {
      c := |jobs| - 1;
      assert jobs[..c] == Front(jobs);
    }
  }

  // ---------------------------------------------------------------- facts about the output

  lemma OutputStep(o: Options, jobs: seq<Job>, c: nat)
    requires c < |jobs|
    ensures Output(o, jobs[..c + 1]) == Output(o, jobs[..c]) + EmittedBytes(o, jobs[..c], jobs[c])
  {
    PrefixFront(jobs, c + 1);
  }

  lemma {:induction false} OutputPrefix(o: Options, jobs: seq<Job>, a: nat, b: nat)
    requires a <= b <= |jobs|
    ensures Output(o, jobs[..a]) <= Output(o, jobs[..b])
  {
    hide Output, EmittedBytes;
    if a < b {
      OutputPrefix(o, jobs, a, b - 1);
      OutputStep(o, jobs, b - 1);
    }
  }

  /** The block emitted by job `c` lies in the output, right behind everything emitted before. */
  lemma EmittedLies(o: Options, jobs: seq<Job>, c: nat)
    requires c < |jobs|
    ensures var at := |Output(o, jobs[..c])|;
            var block := EmittedBytes(o, jobs[..c], jobs[c]);
            at + |block| <= |Output(o, jobs)| && Output(o, jobs)[at..at + |block|] == block
  {
    OutputStep(o, jobs, c);
    OutputPrefix(o, jobs, c + 1, |jobs|);
    assert jobs[..|jobs|] == jobs;
  }

  lemma StoredNotEmpty(codec: Codec, compress: bool, raw: bytes)
    requires codec.Lawful() && raw != []
    ensures 0 < |StoreBlock(codec, compress, raw).data| <= |raw|
  {
  }
}
