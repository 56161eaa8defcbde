/** The parallel bulk-data pipeline as a transition system. Any number of threads serve five work queues;
    a thread gives up the lock while it reads, compresses or writes, and every such operation is a step that
    begins it and a later step that ends it, with any steps of other threads in between. */
module Pipeline {
  import opened Bytes
  import opened Codecs
  import opened Images
  import opened SequentialLayout

  // Processing states of a chunk, in order.
  const NONE := 0
  const READ := 1
  const DEDUPLICATED := 2
  const ASSIGNED := 3
  const WRITABLE := 4
  const FINISHED := 5

  type Phase = n: nat | n <= FINISHED

  /** A block on its way into the image; `data` is held until it is written. */
  datatype ImageBlock = ImageBlock(offset: int, size: nat, data: Option<bytes>, compressed: bool)

  const EMPTY_BLOCK := ImageBlock(-1, 0, None, false)

  /** The changing part of a chunk. `worker` is the thread that took it out of a queue and is working on it
      outside the lock. */
  datatype Chunk = Chunk(
    state: Phase, worker: Option<nat>, cached: Option<bytes>, dst: ImageBlock,
    prevPiece: Option<nat>, nextPiece: Option<nat>,
    block: Option<nat>, offset: int, flush: bool)

  datatype FragmentBlock = FragmentBlock(size: nat, pieces: seq<nat>, dst: ImageBlock)

  datatype Thread = Awake | Busy(chunk: nat) | Waiting | Left

  /** `options`, `base` (first free byte of the image) and `file0` (the file before) never change;
      `frontier` records that exactly the pieces before it have been assigned. */
  datatype State = State(
    options: Options, base: nat, file0: bytes, log0: seq<Extent>,
    jobs: seq<Job>, chunks: seq<Chunk>, frags: seq<FragmentBlock>, lastPiece: Option<nat>,
    readq: seq<nat>, dedupq: seq<nat>, assignq: seq<nat>, compressq: seq<nat>, writeq: seq<nat>,
    finished: nat, mayAdd: bool, size: nat, file: bytes, log: seq<Extent>,
    threads: map<nat, Thread>, frontier: nat)

  function Initial(options: Options, base: nat, file: bytes, log: seq<Extent>): State {
    State(options, base, file, log, [], [], [], None, [], [], [], [], [], 0, true, base, file, log, map[], 0)
  }

  predicate Idle(s: State) {
    s.readq == [] && s.dedupq == [] && s.assignq == [] && s.compressq == [] && s.writeq == []
  }

  predicate Done(s: State) {
    s.finished == |s.chunks| && !s.mayAdd
  }

  // ---------------------------------------------------------------- pieces of critical sections

  function SetChunk(s: State, c: nat, chunk: Chunk): State
    requires c < |s.chunks|
  {
    s.(chunks := s.chunks[c := chunk])
  }

  function SetThread(s: State, t: nat, thread: Thread): State {
    s.(threads := s.threads[t := thread])
  }

  function Broadcast(threads: map<nat, Thread>): map<nat, Thread> {
    map t | t in threads :: if threads[t] == Waiting then Awake else threads[t]
  }

  function SignalOne(threads: map<nat, Thread>, woken: Option<nat>): map<nat, Thread> {
    if woken.Some? then threads[woken.value := Awake] else threads
  }

  /** A signal wakes one waiting thread if there is any. */
  ghost predicate MayWake(threads: map<nat, Thread>, woken: Option<nat>) {
    match woken
    case Some(t) => t in threads && threads[t] == Waiting
    case None => forall t :: t in threads ==> threads[t] != Waiting
  }

  function TryWriteout(s: State, c: nat): State
    requires c < |s.chunks|
  {
    if s.chunks[c].state != WRITABLE then s
    else if c > 0 && s.chunks[c - 1].state != FINISHED then s
    else s.(writeq := [c] + s.writeq)
  }

  function MarkFinished(s: State, c: nat): State
    requires c < |s.chunks|
  {
    var s1 := SetChunk(s, c, s.chunks[c].(state := FINISHED, worker := None));
    var s2 := if c + 1 < |s.chunks| && s.chunks[c + 1].state == WRITABLE then s1.(writeq := [c + 1] + s1.writeq) else s1;
    var s3 := s2.(finished := s.finished + 1);
    if s3.finished == |s3.chunks| then s3.(threads := Broadcast(s3.threads)) else s3
  }

  /** The piece before `c` in submission order has a fragment block already, or there is no such piece. */
  predicate PreviousAssigned(s: State, c: nat)
    requires c < |s.chunks|
  {
    match s.chunks[c].prevPiece
    case None => true
    case Some(p) => p < |s.chunks| && s.chunks[p].state >= ASSIGNED
  }

  /** The block that piece `c` writes out: the one its predecessor is in. */
  predicate HasTarget(s: State, c: nat) {
    && c < |s.chunks| && s.chunks[c].prevPiece.Some?
    && s.chunks[c].prevPiece.value < |s.chunks|
    && s.chunks[s.chunks[c].prevPiece.value].block.Some?
    && s.chunks[s.chunks[c].prevPiece.value].block.value < |s.frags|
  }

  function Target(s: State, c: nat): (k: nat)
    requires HasTarget(s, c)
    ensures k < |s.frags|
  {
    s.chunks[s.chunks[c].prevPiece.value].block.value
  }

  // ---------------------------------------------------------------- submitting

  function Enqueue(s: State, job: Job, woken: Option<nat>): State
    requires |s.jobs| == |s.chunks| && (s.lastPiece.Some? ==> s.lastPiece.value < |s.chunks|)
  {
    var c := |s.chunks|;
    var isPiece := job.kind != FullBlock;
    var prev := if isPiece then s.lastPiece else None;
    var linked := if prev.Some? then s.chunks[prev.value := s.chunks[prev.value].(nextPiece := Some(c))] else s.chunks;
    s.(jobs := s.jobs + [job],
       chunks := linked + [Chunk(NONE, None, None, EMPTY_BLOCK, prev, None, None, -1, false)],
       lastPiece := if isPiece then Some(c) else s.lastPiece,
       readq := s.readq + [c],
       mayAdd := s.mayAdd && job.kind != ClosingPiece,
       threads := SignalOne(s.threads, woken))
  }

  // ---------------------------------------------------------------- reading

  /** Popped from the read queue: the closing piece has nothing to read. */
  function Read(s: State, t: nat, c: nat): State
    requires c < |s.chunks| == |s.jobs|
  {
    if s.jobs[c].kind == ClosingPiece then
      SetChunk(s, c, s.chunks[c].(state := READ)).(dedupq := [c] + s.dedupq)
    else
      SetThread(SetChunk(s, c, s.chunks[c].(worker := Some(t))), t, Busy(c))
  }

  function EndRead(s: State, t: nat, c: nat): State
    requires c < |s.chunks| == |s.jobs|
  {
    var s1 := SetChunk(s, c, s.chunks[c].(state := READ, worker := None, cached := Some(s.jobs[c].data)));
    SetThread(s1.(dedupq := [c] + s1.dedupq), t, Awake)
  }

  // ---------------------------------------------------------------- deduplicating and assigning

  function Deduplicate(s: State, c: nat): State
    requires c < |s.chunks| == |s.jobs|
  {
    var s1 := SetChunk(s, c, s.chunks[c].(state := DEDUPLICATED));
    if s.jobs[c].kind != FullBlock && !PreviousAssigned(s, c) then s1
    else s1.(assignq := [c] + s1.assignq)
  }

  /** Puts a piece behind the others of block `k`. */
  function AddPiece(s: State, k: nat, c: nat): State
    requires k < |s.frags| && c < |s.chunks| == |s.jobs|
  {
    var b := s.frags[k];
    SetChunk(s, c, s.chunks[c].(block := Some(k), offset := b.size))
      .(frags := s.frags[k := FragmentBlock(b.size + |s.jobs[c].data|, b.pieces + [c], b.dst)])
  }

  function AssignFull(s: State, c: nat): State
    requires c < |s.chunks|
  {
    SetChunk(s, c, s.chunks[c].(state := ASSIGNED)).(compressq := [c] + s.compressq)
  }

  /** Would piece `c` overflow the block its predecessor is in? */
  predicate MustFlush(s: State, c: nat)
    requires c < |s.chunks| == |s.jobs|
    requires s.chunks[c].prevPiece.Some? ==> HasTarget(s, c)
  {
    s.chunks[c].prevPiece.Some? && s.frags[Target(s, c)].size + |s.jobs[c].data| > s.options.blockSize
  }

  /** Puts piece `c` into the block of its predecessor, or into a new one. */
  function PlacePiece(s: State, c: nat): State
    requires c < |s.chunks| == |s.jobs|
    requires s.chunks[c].prevPiece.Some? ==> HasTarget(s, c)
  {
    var flush := MustFlush(s, c);
    var s1 := SetChunk(s, c, s.chunks[c].(flush := flush));
    if s.chunks[c].prevPiece.Some? && !flush then AddPiece(s1, Target(s, c), c)
    else AddPiece(s1.(frags := s.frags + [FragmentBlock(0, [], EMPTY_BLOCK)]), |s.frags|, c)
  }

  /** Chunk `c` has its place: on to compression if it has a block to write out, else it is ready. */
  function Advance(s: State, c: nat): State
    requires c < |s.chunks|
  {
    if s.chunks[c].flush then SetChunk(s, c, s.chunks[c].(state := ASSIGNED)).(compressq := [c] + s.compressq)
    else TryWriteout(SetChunk(s, c, s.chunks[c].(state := WRITABLE)), c)
  }

  /** The next piece may be waiting for its predecessor to be assigned. */
  function PushNext(s: State, c: nat): State
    requires c < |s.chunks|
  {
    var next := s.chunks[c].nextPiece;
    if next.Some? && next.value < |s.chunks| && s.chunks[next.value].state == DEDUPLICATED
    then s.(assignq := [next.value] + s.assignq) else s
  }

  function AssignPiece(s: State, c: nat): State
    requires c < |s.chunks| == |s.jobs|
    requires s.chunks[c].prevPiece.Some? ==> HasTarget(s, c)
  {
    PushNext(Advance(PlacePiece(s, c), c), c).(frontier := c + 1)
  }

  function AssignClosing(s: State, c: nat): State
    requires c < |s.chunks|
  {
    Advance(SetChunk(s, c, s.chunks[c].(flush := s.chunks[c].prevPiece.Some?)), c).(frontier := c + 1)
  }

  // ---------------------------------------------------------------- compressing

  function BeginCompress(s: State, t: nat, c: nat): State
    requires c < |s.chunks|
  {
    SetThread(SetChunk(s, c, s.chunks[c].(worker := Some(t))), t, Busy(c))
  }

  function Compressed(codec: Codec, compress: bool, raw: bytes): ImageBlock {
    var b := StoreBlock(codec, compress, raw);
    ImageBlock(-1, |b.data|, Some(b.data), b.compressed)
  }

  function EndCompressFull(s: State, t: nat, c: nat): State
    requires c < |s.chunks| && s.chunks[c].cached.Some?
  {
    var dst := Compressed(s.options.codec, s.options.compressBlocks, s.chunks[c].cached.value);
    var s1 := SetChunk(s, c, s.chunks[c].(state := WRITABLE, worker := None, dst := dst, cached := None));
    SetThread(TryWriteout(s1, c), t, Awake)
  }

  predicate AllCached(s: State, pieces: seq<nat>) {
    forall i :: 0 <= i < |pieces| ==> pieces[i] < |s.chunks| && s.chunks[pieces[i]].cached.Some?
  }

  /** The cached data of some pieces, one after the other. */
  function Gather(s: State, pieces: seq<nat>): bytes
    requires AllCached(s, pieces)
  {
    if pieces == [] then [] else Gather(s, Front(pieces)) + s.chunks[Last(pieces)].cached.value
  }

  function Release(chunks: seq<Chunk>, pieces: seq<nat>): seq<Chunk> {
    seq(|chunks|, i requires 0 <= i < |chunks| => if i in pieces then chunks[i].(cached := None) else chunks[i])
  }

  lemma ReleaseOnlyData(chunks: seq<Chunk>, pieces: seq<nat>)
    ensures |Release(chunks, pieces)| == |chunks|
    ensures forall x :: 0 <= x < |chunks| ==> Release(chunks, pieces)[x] == chunks[x].(cached := Release(chunks, pieces)[x].cached)
    ensures forall x :: 0 <= x < |chunks| ==> Release(chunks, pieces)[x].cached == if x in pieces then None else chunks[x].cached
  {
  }

  function EndCompressPiece(s: State, t: nat, c: nat): State
    requires HasTarget(s, c) && AllCached(s, s.frags[Target(s, c)].pieces)
  {
    var k := Target(s, c);
    var b := s.frags[k];
    var dst := Compressed(s.options.codec, s.options.compressFragments, Gather(s, b.pieces));
    var s1 := s.(chunks := Release(s.chunks, b.pieces), frags := s.frags[k := b.(dst := dst)]);
    var s2 := SetChunk(s1, c, s1.chunks[c].(state := WRITABLE, worker := None));
    SetThread(TryWriteout(s2, c), t, Awake)
  }

  // ---------------------------------------------------------------- writing

  /** Room for the block is reserved under the lock, the write itself happens outside. */
  function BeginWriteFull(s: State, t: nat, c: nat): State
    requires c < |s.chunks|
  {
    var dst := s.chunks[c].dst;
    SetThread(SetChunk(s, c, s.chunks[c].(worker := Some(t), dst := dst.(offset := s.size))), t, Busy(c))
      .(size := s.size + dst.size)
  }

  function BeginWritePiece(s: State, t: nat, c: nat): State
    requires HasTarget(s, c)
  {
    var k := Target(s, c);
    var dst := s.frags[k].dst;
    SetThread(SetChunk(s, c, s.chunks[c].(worker := Some(t))), t, Busy(c))
      .(size := s.size + dst.size, frags := s.frags[k := s.frags[k].(dst := dst.(offset := s.size))])
  }

  function Put(s: State, dst: ImageBlock): State
    requires dst.offset >= 0 && dst.data.Some?
  {
    s.(file := Pwrite(s.file, dst.offset, dst.data.value), log := s.log + [Extent(dst.offset, |dst.data.value|)])
  }

  function EndWriteFull(s: State, t: nat, c: nat): State
    requires c < |s.chunks| && s.chunks[c].dst.offset >= 0 && s.chunks[c].dst.data.Some?
  {
    var s1 := Put(s, s.chunks[c].dst);
    var s2 := SetChunk(s1, c, s1.chunks[c].(dst := s1.chunks[c].dst.(data := None)));
    MarkFinished(SetThread(s2, t, Awake), c)
  }

  function EndWritePiece(s: State, t: nat, c: nat): State
    requires HasTarget(s, c) && s.frags[Target(s, c)].dst.offset >= 0 && s.frags[Target(s, c)].dst.data.Some?
  {
    var k := Target(s, c);
    var s1 := Put(s, s.frags[k].dst);
    var s2 := s1.(frags := s1.frags[k := s1.frags[k].(dst := s1.frags[k].dst.(data := None))]);
    MarkFinished(SetThread(s2, t, Awake), c)
  }

  // ---------------------------------------------------------------- steps

  datatype Step =
    | Submit(job: Job, woken: Option<nat>)   // a chunk is enqueued; a full block or a fragment piece
    | Seal(woken: Option<nat>, also: Option<nat>) // the closing piece is enqueued, nothing may follow
    | Spawn(t: nat)                          // a thread enters the processing loop
    | Work(t: nat)                           // an awake thread takes the first chunk it finds
    | End(t: nat)                            // a thread finishes reading, compressing or writing
    | Sleep(t: nat)                          // nothing to do: wait on the condition
    | Wake(t: nat)                           // a wait ends without a signal
    | Leave(t: nat)                          // all is done: the processing loop ends

  /** The chunk a thread takes next: write-out first, reading last. */
  function NextChunk(s: State): nat
    requires !Idle(s)
  {
    if s.writeq != [] then s.writeq[0]
    else if s.compressq != [] then s.compressq[0]
    else if s.assignq != [] then s.assignq[0]
    else if s.dedupq != [] then s.dedupq[0]
    else s.readq[0]
  }

  ghost predicate Enabled(s: State, step: Step) {
    match step
    case Submit(job, woken) => s.mayAdd && job.kind != ClosingPiece && GoodJob(s.options.blockSize, job) && MayWake(s.threads, woken)
    case Seal(woken, also) => s.mayAdd && MayWake(s.threads, woken) && MayWake(SignalOne(s.threads, woken), also)
    case Spawn(t) => t !in s.threads
    case Work(t) => t in s.threads && s.threads[t] == Awake && !Idle(s)
    case End(t) => t in s.threads && s.threads[t].Busy?
    case Sleep(t) => t in s.threads && s.threads[t] == Awake && Idle(s) && !Done(s)
    case Wake(t) => t in s.threads && s.threads[t] == Waiting
    case Leave(t) => t in s.threads && s.threads[t] == Awake && Idle(s) && Done(s)
  }

  /** What the code asserts or dereferences when chunk `c` is popped from the queue that has its turn. */
  predicate SafeWork(s: State, c: nat) {
    && c < |s.chunks| == |s.jobs|
    && var chunk, kind := s.chunks[c], s.jobs[c].kind;
    if s.writeq != [] then
      && chunk.state == WRITABLE
      && (kind != FullBlock && chunk.flush ==> HasTarget(s, c))
      && (kind != FullBlock && !chunk.flush ==> c == 0 || s.chunks[c - 1].state == FINISHED)
    else if s.compressq != [] then
      chunk.state == ASSIGNED && (kind != FullBlock ==> chunk.flush)
    else if s.assignq != [] then
      chunk.state == DEDUPLICATED && (kind == FragmentPiece && chunk.prevPiece.Some? ==> HasTarget(s, c))
    else if s.dedupq != [] then
      chunk.state == READ
    else
      chunk.state == NONE && (kind != ClosingPiece ==> s.jobs[c].data != [])
  }

  /** The same for the end of an operation on chunk `c`. */
  predicate SafeEnd(s: State, c: nat) {
    && c < |s.chunks| == |s.jobs|
    && var chunk, kind := s.chunks[c], s.jobs[c].kind;
    if chunk.state == NONE then true
    else if chunk.state == ASSIGNED then
      if kind == FullBlock then chunk.cached.Some? && chunk.cached.value != []
      else
        && HasTarget(s, c) && AllCached(s, s.frags[Target(s, c)].pieces)
        && |Gather(s, s.frags[Target(s, c)].pieces)| == s.frags[Target(s, c)].size > 0
    else
      && chunk.state == WRITABLE && (c == 0 || s.chunks[c - 1].state == FINISHED)
      && (kind != FullBlock ==> HasTarget(s, c))
      && var dst := if kind == FullBlock then chunk.dst else s.frags[Target(s, c)].dst;
      dst.offset >= 0 && dst.data.Some? && |dst.data.value| == dst.size
  }

  /** No assertion of the code fails and no null pointer is followed in this step. */
  predicate Safe(s: State, step: Step) {
    match step
    case Submit(_, _) => |s.jobs| == |s.chunks| && (s.lastPiece.Some? ==> s.lastPiece.value < |s.chunks|)
    case Seal(_, _) => |s.jobs| == |s.chunks| && (s.lastPiece.Some? ==> s.lastPiece.value < |s.chunks|)
    case Work(t) => !Idle(s) && SafeWork(s, NextChunk(s))
    case End(t) => t in s.threads && s.threads[t].Busy? && SafeEnd(s, s.threads[t].chunk)
    case _ => true
  }

  /** One round of the processing loop, up to the point where the thread gives up the lock. */
  function DoWork(s: State, t: nat): State
    requires !Idle(s) && SafeWork(s, NextChunk(s))
  {
    var c := NextChunk(s);
    var kind := s.jobs[c].kind;
    if s.writeq != [] then
      var s1 := s.(writeq := s.writeq[1..]);
      if kind == FullBlock then BeginWriteFull(s1, t, c)
      else if s.chunks[c].flush then BeginWritePiece(s1, t, c)
      else MarkFinished(s1, c)
    else if s.compressq != [] then
      BeginCompress(s.(compressq := s.compressq[1..]), t, c)
    else if s.assignq != [] then
      var s1 := s.(assignq := s.assignq[1..]);
      (match kind
       case FullBlock => AssignFull(s1, c)
       case FragmentPiece => AssignPiece(s1, c)
       case ClosingPiece => AssignClosing(s1, c))
    else if s.dedupq != [] then
      Deduplicate(s.(dedupq := s.dedupq[1..]), c)
    else
      Read(s.(readq := s.readq[1..]), t, c)
  }

  function DoEnd(s: State, t: nat): State
    requires t in s.threads && s.threads[t].Busy? && SafeEnd(s, s.threads[t].chunk)
  {
    var c := s.threads[t].chunk;
    var full := s.jobs[c].kind == FullBlock;
    if s.chunks[c].state == NONE then EndRead(s, t, c)
    else if s.chunks[c].state == ASSIGNED then
      if full then EndCompressFull(s, t, c) else EndCompressPiece(s, t, c)
    else
      if full then EndWriteFull(s, t, c) else EndWritePiece(s, t, c)
  }

  function Apply(s: State, step: Step): State
    requires Safe(s, step)
  {
    match step
    case Submit(job, woken) => Enqueue(s, job, woken)
    case Seal(woken, also) =>
      var s1 := Enqueue(s, Job(ClosingPiece, []), woken);
      s1.(threads := SignalOne(s1.threads, also))
    case Spawn(t) => SetThread(s, t, Awake)
    case Work(t) => DoWork(s, t)
    case End(t) => DoEnd(s, t)
    case Sleep(t) => SetThread(s, t, Waiting)
    case Wake(t) => SetThread(s, t, Awake)
    case Leave(t) => SetThread(s, t, Left)
  }

  /** A run: each step is possible where it is taken, and does not fault. */
  ghost predicate Runs(s: State, steps: seq<Step>, s': State)
    decreases |steps|
  {
    if steps == [] then s == s'
    else Enabled(s, steps[0]) && Safe(s, steps[0]) && Runs(Apply(s, steps[0]), steps[1..], s')
  }
}
