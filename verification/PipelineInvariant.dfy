/** The inductive invariant of the pipeline. */
module PipelineInvariant {
  import opened Bytes
  import opened Images
  import opened SequentialLayout
  import opened Pipeline

  // ---------------------------------------------------------------- order

  /** Finished chunks are a prefix of the chain, assigned pieces a prefix of the pieces, and the closing
      piece, once there, is the last chunk. */
  ghost predicate Shape(s: State) {
    && |s.chunks| == |s.jobs|
    && GoodJobs(s.options.blockSize, s.jobs)
    && s.finished <= |s.jobs| && s.frontier <= |s.jobs|
    && (forall c :: 0 <= c < |s.jobs| && s.jobs[c].kind == ClosingPiece ==> !s.mayAdd && c == |s.jobs| - 1)
    && (!s.mayAdd ==> s.jobs != [] && Last(s.jobs).kind == ClosingPiece)
    && (forall c :: 0 <= c < |s.jobs| ==> (s.chunks[c].state == FINISHED <==> c < s.finished))
    && (forall c :: 0 <= c < |s.jobs| && s.jobs[c].kind != FullBlock ==> (s.chunks[c].state >= ASSIGNED <==> c < s.frontier))
  }

  // ---------------------------------------------------------------- the chain of pieces

  ghost predicate NoPieces(jobs: seq<Job>, lo: nat, hi: nat) {
    forall c :: lo <= c < hi && c < |jobs| ==> jobs[c].kind == FullBlock
  }

  /** `prev` is the last piece before position `c`. */
  ghost predicate LinkTo(jobs: seq<Job>, prev: Option<nat>, c: nat) {
    match prev
    case None => NoPieces(jobs, 0, c)
    case Some(p) => p < c && p < |jobs| && jobs[p].kind != FullBlock && NoPieces(jobs, p + 1, c)
  }

  ghost predicate Links(s: State)
    requires |s.chunks| == |s.jobs|
  {
    && LinkTo(s.jobs, s.lastPiece, |s.jobs|)
    && (forall c :: 0 <= c < |s.jobs| && s.jobs[c].kind != FullBlock ==> LinkTo(s.jobs, s.chunks[c].prevPiece, c))
    && (forall c :: 0 <= c < |s.jobs| && s.jobs[c].kind == FullBlock ==> s.chunks[c].prevPiece == None && s.chunks[c].nextPiece == None)
    && (forall c :: 0 <= c < |s.jobs| && s.chunks[c].nextPiece.Some? ==>
          s.chunks[c].nextPiece.value < |s.jobs| && s.chunks[s.chunks[c].nextPiece.value].prevPiece == Some(c))
    && (forall c :: 0 <= c < |s.jobs| && s.chunks[c].prevPiece.Some? ==>
          s.chunks[c].prevPiece.value < |s.jobs| && s.chunks[s.chunks[c].prevPiece.value].nextPiece == Some(c))
  }

  // ---------------------------------------------------------------- who holds a chunk

  ghost predicate Distinct(q: seq<nat>) {
    forall i, j :: 0 <= i < j < |q| ==> q[i] != q[j]
  }

  /** The queue a chunk has to be in, by its state: 1 for reading up to 5 for writing, 0 for none. */
  function Home(s: State, c: nat): nat {
    if c >= |s.chunks| || c >= |s.jobs| then 0
    else
      var chunk := s.chunks[c];
      if chunk.state == NONE then (if chunk.worker == None then 1 else 0)
      else if chunk.state == READ then 2
      else if chunk.state == DEDUPLICATED then (if s.jobs[c].kind == FullBlock || PreviousAssigned(s, c) then 3 else 0)
      else if chunk.state == ASSIGNED then (if chunk.worker == None then 4 else 0)
      else if chunk.state == WRITABLE then (if chunk.worker == None && c == s.finished then 5 else 0)
      else 0
  }

  function QueueOf(s: State, i: nat): seq<nat> {
    if i == 1 then s.readq else if i == 2 then s.dedupq else if i == 3 then s.assignq
    else if i == 4 then s.compressq else if i == 5 then s.writeq else []
  }

  /** A queue holds, once each, exactly the chunks at home there. */
  ghost predicate Holds(q: seq<nat>, home: nat -> nat, i: nat) {
    Distinct(q) && forall c: nat :: c in q <==> home(c) == i
  }

  ghost predicate Queues(s: State) {
    forall i :: 1 <= i <= 5 ==> Holds(QueueOf(s, i), c => Home(s, c), i)
  }

  /** Chunks held by threads and busy threads correspond one to one. */
  ghost predicate Workers(s: State)
    requires |s.chunks| == |s.jobs|
  {
    && (forall c :: 0 <= c < |s.chunks| && s.chunks[c].worker.Some? ==>
          && s.chunks[c].worker.value in s.threads && s.threads[s.chunks[c].worker.value] == Busy(c)
          && (|| (s.chunks[c].state == NONE && s.jobs[c].kind != ClosingPiece)
              || s.chunks[c].state == ASSIGNED
              || (s.chunks[c].state == WRITABLE && c == s.finished && (s.jobs[c].kind == FullBlock || s.chunks[c].flush))))
    && (forall t :: t in s.threads && s.threads[t].Busy? ==>
          s.threads[t].chunk < |s.chunks| && s.chunks[s.threads[t].chunk].worker == Some(t))
  }

  /** No wake-up is lost. */
  ghost predicate Sleepers(s: State) {
    && (forall t :: t in s.threads && s.threads[t] == Left ==> Done(s))
    && (Done(s) ==> forall t :: t in s.threads ==> s.threads[t] != Waiting)
    && (s.threads != map[] && (forall t :: t in s.threads ==> s.threads[t] == Waiting || s.threads[t] == Left) ==> Idle(s))
  }

  // ---------------------------------------------------------------- where pieces go

  function FragmentsAt(s: State, c: nat): seq<bytes>
    requires c <= |s.jobs|
  {
    Fragments(s.options.blockSize, s.jobs[..c])
  }

  function FlushesAt(s: State, c: nat): bool
    requires c < |s.jobs|
  {
    Flushes(s.options.blockSize, s.jobs[..c], s.jobs[c])
  }

  function PieceData(jobs: seq<Job>, pieces: seq<nat>): bytes {
    if pieces == [] then []
    else PieceData(jobs, Front(pieces)) + (if Last(pieces) < |jobs| then jobs[Last(pieces)].data else [])
  }

  ghost predicate Placed(s: State, c: nat)
    requires c < |s.jobs| == |s.chunks|
  {
    var chunk, kind := s.chunks[c], s.jobs[c].kind;
    && chunk.flush == (kind != FullBlock && c < s.frontier && FlushesAt(s, c))
    && (if kind == FragmentPiece && c < s.frontier then
          && FragmentsAt(s, c + 1) != []
          && chunk.block == Some(|FragmentsAt(s, c + 1)| - 1)
          && chunk.offset == |Last(FragmentsAt(s, c + 1))| - |s.jobs[c].data|
        else chunk.block == None)
  }

  /** Block `k` holds these bytes, piece by piece. */
  ghost predicate BlockFilled(s: State, k: nat, content: bytes)
    requires k < |s.frags|
  {
    s.frags[k].size == |content| && PieceData(s.jobs, s.frags[k].pieces) == content
  }

  /** The pieces of block `k` are assigned fragment pieces, in the order of submission, that know where they are. */
  ghost predicate PiecesIn(s: State, k: nat)
    requires k < |s.frags| && |s.chunks| == |s.jobs| && s.frontier <= |s.jobs|
  {
    && (forall i :: 0 <= i < |s.frags[k].pieces| ==>
          var p := s.frags[k].pieces[i];
          p < s.frontier && s.jobs[p].kind == FragmentPiece && s.chunks[p].block == Some(k))
    && (forall i, j :: 0 <= i < j < |s.frags[k].pieces| ==> s.frags[k].pieces[i] < s.frags[k].pieces[j])
  }

  /** Pieces lie where sequential packing puts them, and the fragment blocks are those of the pieces
      assigned so far. */
  ghost predicate Placement(s: State)
    requires |s.chunks| == |s.jobs| && s.frontier <= |s.jobs|
  {
    && (forall c :: 0 <= c < |s.jobs| ==> Placed(s, c))
    && |s.frags| == |FragmentsAt(s, s.frontier)|
    && (forall k :: 0 <= k < |s.frags| ==> BlockFilled(s, k, FragmentsAt(s, s.frontier)[k]) && PiecesIn(s, k))
  }

  // ---------------------------------------------------------------- what the blocks hold

  /** A block at a given stage: not compressed yet, compressed, being written at `at`, written at `at`. */
  function BlockAt(state: Phase, busy: bool, b: StoredBlock, at: nat): ImageBlock {
    if state < WRITABLE then EMPTY_BLOCK
    else if state == WRITABLE && !busy then ImageBlock(-1, |b.data|, Some(b.data), b.compressed)
    else ImageBlock(at, |b.data|, if state == WRITABLE then Some(b.data) else None, b.compressed)
  }

  function OffsetAt(s: State, c: nat): nat
    requires c <= |s.jobs|
  {
    s.base + |Output(s.options, s.jobs[..c])|
  }

  function EmittedAt(s: State, c: nat): Option<StoredBlock>
    requires c < |s.jobs|
  {
    Emitted(s.options, s.jobs[..c], s.jobs[c])
  }

  function EmittedBytesAt(s: State, c: nat): bytes
    requires c < |s.jobs|
  {
    EmittedBytes(s.options, s.jobs[..c], s.jobs[c])
  }

  /** The data of full block `c`, cached and then stored. */
  ghost predicate FullContents(s: State, c: nat)
    requires c < |s.jobs| == |s.chunks| && s.jobs[c].kind == FullBlock
  {
    var chunk := s.chunks[c];
    && (READ <= chunk.state <= ASSIGNED ==> chunk.cached == Some(s.jobs[c].data))
    && chunk.dst == BlockAt(chunk.state, chunk.worker.Some?, EmittedAt(s, c).value, OffsetAt(s, c))
  }

  /** The data of piece `c`, cached until its fragment block is compressed. */
  ghost predicate PieceContents(s: State, c: nat)
    requires c < |s.jobs| == |s.chunks| && s.jobs[c].kind == FragmentPiece
  {
    var chunk := s.chunks[c];
    && (READ <= chunk.state < ASSIGNED ==> chunk.cached == Some(s.jobs[c].data))
    && (chunk.block.Some? && chunk.block.value < |s.frags| && s.frags[chunk.block.value].dst.size == 0 ==> chunk.cached == Some(s.jobs[c].data))
  }

  /** The block written out by piece `c`. */
  ghost predicate FlushContents(s: State, c: nat)
    requires c < |s.jobs| == |s.chunks|
  {
    var k := |FragmentsAt(s, c)| - 1;
    && 0 <= k < |s.frags|
    && EmittedAt(s, c).Some?
    && s.frags[k].dst == BlockAt(s.chunks[c].state, s.chunks[c].state == WRITABLE && s.chunks[c].worker.Some?, EmittedAt(s, c).value, OffsetAt(s, c))
  }

  ghost predicate Contents(s: State)
    requires |s.chunks| == |s.jobs|
  {
    && (forall c :: 0 <= c < |s.jobs| && s.jobs[c].kind == FullBlock ==> FullContents(s, c))
    && (forall c :: 0 <= c < |s.jobs| && s.jobs[c].kind == FragmentPiece ==> PieceContents(s, c))
    && (forall c :: 0 <= c < |s.jobs| && s.chunks[c].flush ==> FlushContents(s, c))
    && ((s.mayAdd || s.frontier < |s.jobs|) && s.frags != [] ==> Last(s.frags).dst == EMPTY_BLOCK)
  }

  // ---------------------------------------------------------------- the image

  ghost predicate Writing(s: State) {
    && s.finished < |s.chunks| && s.chunks[s.finished].state == WRITABLE && s.chunks[s.finished].worker.Some?
  }

  /** The image holds the output of the finished chunks, and room for the block being written. */
  ghost predicate ImageSoFar(s: State)
    requires |s.chunks| == |s.jobs| && s.finished <= |s.jobs|
  {
    && |s.file0| <= s.base
    && s.size == OffsetAt(s, s.finished) + (if Writing(s) then |EmittedBytesAt(s, s.finished)| else 0)
    && s.file == Pwrite(s.file0, s.base, Output(s.options, s.jobs[..s.finished]))
    && CoversOnce(s.log, s.log0, s.base, OffsetAt(s, s.finished))
  }

  /** A piece goes through compression only if it has a block to write out. */
  ghost predicate FlushersOnly(s: State)
    requires |s.chunks| == |s.jobs|
  {
    forall c :: 0 <= c < |s.jobs| && s.jobs[c].kind != FullBlock && s.chunks[c].state == ASSIGNED ==> s.chunks[c].flush
  }

  ghost predicate Inv(s: State) {
    && s.options.codec.Lawful()
    && Shape(s)
    && Links(s)
    && Queues(s)
    && Workers(s)
    && Sleepers(s)
    && Placement(s)
    && Contents(s)
    && ImageSoFar(s)
    && FlushersOnly(s)
  }

  lemma InitiallyInv(options: Options, base: nat, file: bytes, log: seq<Extent>)
    requires options.codec.Lawful() && |file| <= base
    ensures Inv(Initial(options, base, file, log))
  {
    CoversNothing(log, base);
  }
}
