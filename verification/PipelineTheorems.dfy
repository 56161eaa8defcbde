/** What holds of every run of the pipeline: it never faults, it never gets stuck or loses a wake-up, it ends,
    and whatever the schedule the image is that of the sequential layout. */
module PipelineTheorems {
  import opened Bytes
  import opened Images
  import opened SequentialLayout
  import opened Pipeline
  import opened PipelineInvariant
  import opened PipelineControl
  import opened PipelineData
  import opened PipelineSteps

  // ---------------------------------------------------------------- forward steps

  /** How many steps a chunk still has to go: two for every state it has to change, less one while a
      thread is at it. */
  function ToGo(chunk: Chunk): (n: nat)
    ensures n <= 10
  {
    if chunk.state == FINISHED then 0 else 2 * (FINISHED - chunk.state) - (if chunk.worker.Some? then 1 else 0)
  }

  /** What was given at the start, and the jobs submitted since, are the same. */
  ghost predicate SameGivens(s: State, s': State) {
    && s'.options == s.options && s'.base == s.base && s'.file0 == s.file0 && s'.log0 == s.log0
    && s'.jobs == s.jobs && s'.mayAdd == s.mayAdd
  }

  /** A step that takes chunk `c` nearer to its end and moves no other: it finishes only what was writable, and
      what becomes writable is held by no thread; a piece goes to compression only if it has a block to write out. */
  ghost predicate Forwards(s: State, s': State, c: nat) {
    && SameGivens(s, s') && c < |s.chunks| == |s.jobs| == |s'.chunks|
    && ToGo(s'.chunks[c]) < ToGo(s.chunks[c])
    && (s'.chunks[c].state == FINISHED ==> s.chunks[c].state == WRITABLE)
    && (s'.chunks[c].state == WRITABLE && s.chunks[c].state != WRITABLE ==> s'.chunks[c].worker == None)
    && (forall x :: 0 <= x < |s.chunks| && x != c ==>
          s'.chunks[x].state == s.chunks[x].state && s'.chunks[x].worker == s.chunks[x].worker && s'.chunks[x].flush == s.chunks[x].flush)
    && (s'.jobs[c].kind != FullBlock && s'.chunks[c].state == ASSIGNED ==> s'.chunks[c].flush)
    && (forall t :: t in s.threads ==> t in s'.threads)
  }

  lemma ForwardsAssign(s: State, s1: State, c: nat)
    requires c < |s.chunks| == |s.jobs| && s.jobs[c].kind != FullBlock && s1 == s.(assignq := s1.assignq)
    requires s.jobs[c].kind == FragmentPiece && s.chunks[c].prevPiece.Some? ==> HasTarget(s, c)
    requires s.chunks[c].state == DEDUPLICATED && s.chunks[c].worker == None
    ensures Forwards(s, if s.jobs[c].kind == FragmentPiece then AssignPiece(s1, c) else AssignClosing(s1, c), c)
  {
    if s.jobs[c].kind == FragmentPiece {
      PlacePieceFrame(s1, c);
      AdvanceIs(PlacePiece(s1, c), c);
    } else {
      AdvanceIs(SetChunk(s1, c, s1.chunks[c].(flush := s1.chunks[c].prevPiece.Some?)), c);
    }
    hide PlacePiece, Advance, MustFlush;
  }

  lemma ForwardsEarly(s: State, s1: State, t: nat, c: nat)
    requires c < |s.chunks| == |s.jobs| && s1 == s.(readq := s1.readq, dedupq := s1.dedupq, assignq := s1.assignq, compressq := s1.compressq)
    requires s.chunks[c].worker == None
    ensures s.chunks[c].state == NONE ==> Forwards(s, Read(s1, t, c), c)
    ensures s.chunks[c].state == READ ==> Forwards(s, Deduplicate(s1, c), c)
    ensures s.chunks[c].state == DEDUPLICATED && s.jobs[c].kind == FullBlock ==> Forwards(s, AssignFull(s1, c), c)
    ensures s.chunks[c].state == ASSIGNED && (s.jobs[c].kind == FullBlock || s.chunks[c].flush) ==> Forwards(s, BeginCompress(s1, t, c), c)
  {
    hide PreviousAssigned;
  }

  lemma ForwardsWrite(s: State, s1: State, t: nat, c: nat)
    requires c < |s.chunks| == |s.jobs| && s1 == s.(writeq := s1.writeq)
    requires s.chunks[c].state == WRITABLE && s.chunks[c].worker == None
    ensures Forwards(s, BeginWriteFull(s1, t, c), c) && Forwards(s, MarkFinished(s1, c), c)
    ensures HasTarget(s1, c) ==> Forwards(s, BeginWritePiece(s1, t, c), c)
  {
    hide Pwrite;
  }

  lemma ForwardsEnd(s: State, t: nat, c: nat)
    requires c < |s.chunks| == |s.jobs| && s.chunks[c].worker.Some?
    ensures s.chunks[c].state == NONE ==> Forwards(s, EndRead(s, t, c), c)
    ensures s.chunks[c].state == ASSIGNED && s.chunks[c].cached.Some? ==> Forwards(s, EndCompressFull(s, t, c), c)
  {
    hide Compressed;
  }

  lemma ForwardsEndWrite(s: State, t: nat, c: nat)
    requires c < |s.chunks| == |s.jobs| && s.chunks[c].worker.Some?
    requires s.chunks[c].state == WRITABLE && s.chunks[c].dst.offset >= 0 && s.chunks[c].dst.data.Some?
    ensures Forwards(s, EndWriteFull(s, t, c), c)
  {
    hide Pwrite;
  }

  lemma ForwardsCompressPiece(s: State, t: nat, c: nat)
    requires c < |s.chunks| == |s.jobs| && s.chunks[c].worker.Some? && HasTarget(s, c)
    requires s.chunks[c].state == ASSIGNED && AllCached(s, s.frags[Target(s, c)].pieces)
    ensures Forwards(s, EndCompressPiece(s, t, c), c)
  {
    EndCompressReleases(s, t, c);
    EndCompressFields(s, t, c);
    hide EndCompressPiece, Release, AllCached, HasTarget;
  }

  lemma ForwardsWritePiece(s: State, t: nat, c: nat)
    requires c < |s.chunks| == |s.jobs| && s.chunks[c].worker.Some? && HasTarget(s, c)
    requires s.chunks[c].state == WRITABLE && s.frags[Target(s, c)].dst.offset >= 0 && s.frags[Target(s, c)].dst.data.Some?
    ensures Forwards(s, EndWritePiece(s, t, c), c)
  {
    hide Pwrite, HasTarget;
  }

  lemma WorkForwards(s: State, t: nat)
    requires Control(s) && !Idle(s) && SafeWork(s, NextChunk(s))
    ensures Forwards(s, DoWork(s, t), NextChunk(s))
  {
    var c := NextChunk(s);
    TakenNext(s);
    hide Control, Forwards, BeginWriteFull, BeginWritePiece, MarkFinished, BeginCompress, AssignFull, AssignPiece, AssignClosing, Deduplicate, Read;
    if s.writeq != [] {
      ForwardsWrite(s, s.(writeq := s.writeq[1..]), t, c);
    } else if s.compressq != [] {
      ForwardsEarly(s, s.(compressq := s.compressq[1..]), t, c);
    } else if s.assignq != [] {
      var s1 := s.(assignq := s.assignq[1..]);
      if s.jobs[c].kind == FullBlock { ForwardsEarly(s, s1, t, c); } else { ForwardsAssign(s, s1, c); }
    } else if s.dedupq != [] {
      ForwardsEarly(s, s.(dedupq := s.dedupq[1..]), t, c);
    } else {
      ForwardsEarly(s, s.(readq := s.readq[1..]), t, c);
    }
  }

  lemma EndForwards(s: State, t: nat)
    requires Control(s) && t in s.threads && s.threads[t].Busy? && SafeEnd(s, s.threads[t].chunk)
    ensures Forwards(s, DoEnd(s, t), s.threads[t].chunk)
  {
    var c := s.threads[t].chunk;
    HeldBy(s, t);
    hide Control, Forwards, EndRead, EndCompressFull, EndCompressPiece, EndWriteFull, EndWritePiece;
    if s.chunks[c].state == NONE {
      ForwardsEnd(s, t, c);
    } else if s.jobs[c].kind == FullBlock {
      if s.chunks[c].state == ASSIGNED { ForwardsEnd(s, t, c); } else { ForwardsEndWrite(s, t, c); }
    } else if s.chunks[c].state == ASSIGNED {
      ForwardsCompressPiece(s, t, c);
    } else {
      ForwardsWritePiece(s, t, c);
    }
  }

  /** Does a step take a chunk further (rather than submit one, or put a thread to sleep or wake it)? */
  predicate Forward(step: Step) {
    step.Work? || step.End?
  }

  lemma StepForwards(s: State, step: Step) returns (c: nat)
    requires Control(s) && Safe(s, step) && Forward(step)
    ensures Forwards(s, Apply(s, step), c)
  {
    hide Control, Forwards, SafeWork, SafeEnd, DoWork, DoEnd, Idle;
    if step.Work? {
      c := NextChunk(s);
      WorkForwards(s, step.t);
    } else {
      c := s.threads[step.t].chunk;
      EndForwards(s, step.t);
    }
  }

  // ---------------------------------------------------------------- the invariant

  lemma FlushersStay(s: State, s': State, c: nat)
    requires Forwards(s, s', c) && FlushersOnly(s)
    ensures FlushersOnly(s')
  {
  }

  lemma FlushersElsewhere(s: State, step: Step)
    requires |s.chunks| == |s.jobs| && FlushersOnly(s) && Safe(s, step) && !Forward(step)
    ensures |Apply(s, step).chunks| == |Apply(s, step).jobs| && FlushersOnly(Apply(s, step))
  {
  }

  lemma KeepsFlushers(s: State, step: Step)
    requires |s.chunks| == |s.jobs| && Control(s) && FlushersOnly(s) && Safe(s, step)
    requires |Apply(s, step).chunks| == |Apply(s, step).jobs|
    ensures FlushersOnly(Apply(s, step))
  {
    hide Control, Forwards, Safe, Apply, FlushersOnly;
    if Forward(step) {
      var c := StepForwards(s, step);
      FlushersStay(s, Apply(s, step), c);
    } else {
      FlushersElsewhere(s, step);
    }
  }

  /** Every step that is possible is safe, and keeps the invariant. */
  lemma KeepsInv(s: State, step: Step)
    requires Inv(s) && Enabled(s, step)
    ensures Safe(s, step) && Inv(Apply(s, step))
  {
    NoFault(s, step);
    ControlCounts(s);
    hide Shape, Links, Queues, Workers, Sleepers, Placement, Contents, ImageSoFar, FlushersOnly, Safe, Apply, Enabled;
    KeepsControl(s, step);
    KeepsData(s, step);
    ControlCounts(Apply(s, step));
    KeepsFlushers(s, step);
  }

  lemma {:induction false} RunKeepsInv(s: State, steps: seq<Step>, s': State)
    requires Inv(s) && Runs(s, steps, s')
    ensures Inv(s')
    decreases |steps|
  {
    if steps != [] {
      KeepsInv(s, steps[0]);
      hide Inv;
      RunKeepsInv(Apply(s, steps[0]), steps[1..], s');
    }
  }

  /** A state that some run leads to, from an image of which the first `base` bytes are taken. */
  ghost predicate Reachable(s: State) {
    exists options: Options, base: nat, file: bytes, log: seq<Extent>, steps: seq<Step> ::
      options.codec.Lawful() && |file| <= base && Runs(Initial(options, base, file, log), steps, s)
  }

  lemma ReachableInv(s: State)
    requires Reachable(s)
    ensures Inv(s)
  {
    var options: Options, base: nat, file: bytes, log: seq<Extent>, steps: seq<Step> :|
      options.codec.Lawful() && |file| <= base && Runs(Initial(options, base, file, log), steps, s);
    InitiallyInv(options, base, file, log);
    RunKeepsInv(Initial(options, base, file, log), steps, s);
  }

  /** No run of the pipeline faults: whatever comes next, no assertion fails and no null pointer is followed. */
  lemma NeverFaults(s: State, step: Step)
    requires Reachable(s) && Enabled(s, step)
    ensures Safe(s, step)
  {
    ReachableInv(s);
    NoFault(s, step);
  }

  // ---------------------------------------------------------------- what the invariant means

  /** Only the first unfinished chunk is ever queued for writing or being written, and not both. */
  lemma SingleWriter(s: State)
    requires Reachable(s)
    ensures s.writeq == [] || s.writeq == [s.finished]
    ensures forall t :: t in s.threads && s.threads[t].Busy? ==>
              var c := s.threads[t].chunk;
              c < |s.chunks| && (s.chunks[c].state == WRITABLE ==> c == s.finished && s.writeq == [])
  {
    hide Inv, Reachable, QueueOf, Home, Holds;
    ReachableInv(s);
    OrderOf(s);
    WriteQueueHolds(s);
    WriteQueue(s);
    forall t | t in s.threads && s.threads[t].Busy?
      ensures s.threads[t].chunk < |s.chunks|
      ensures s.chunks[s.threads[t].chunk].state == WRITABLE ==> s.threads[t].chunk == s.finished && s.writeq == []
    {
      BusyWriter(s, t);
    }
  }

  lemma WriteQueueHolds(s: State)
    requires Inv(s)
    ensures Holds(s.writeq, x => Home(s, x), 5)
  {
    hide Shape, Links, Workers, Sleepers, Placement, Contents, ImageSoFar, FlushersOnly, Home;
    QueueHolds(s, 5);
  }

  lemma BusyWriter(s: State, t: nat)
    requires Inv(s) && t in s.threads && s.threads[t].Busy?
    ensures var c := s.threads[t].chunk;
            c < |s.chunks| && s.chunks[c].worker.Some? && (s.chunks[c].state == WRITABLE ==> c == s.finished)
  {
    hide Links, Queues, Sleepers, Placement, Contents, ImageSoFar, FlushersOnly;
    HeldBy(s, t);
  }

  /** It is the turn of chunk `c` to be written, or was before. */
  ghost predicate Ripe(s: State, c: nat) {
    c < s.finished || (c == s.finished && c < |s.chunks| && s.chunks[c].state == WRITABLE)
  }

  /** How often chunk `c` enters the write queue in a run. */
  ghost function Entries(s: State, steps: seq<Step>, c: nat): nat
    decreases |steps|
  {
    if steps == [] || !Safe(s, steps[0]) then 0
    else
      var s' := Apply(s, steps[0]);
      (if c !in s.writeq && c in s'.writeq then 1 else 0) + Entries(s', steps[1..], c)
  }

  lemma InWriteQueue(s: State, c: nat)
    requires Inv(s)
    ensures c in s.writeq <==> c == s.finished && c < |s.chunks| && s.chunks[c].state == WRITABLE && s.chunks[c].worker == None
    ensures |s.chunks| == |s.jobs|
  {
    hide Shape, Links, Workers, Sleepers, Placement, Contents, ImageSoFar, FlushersOnly, Home;
    QueueHolds(s, 5);
    assert c in QueueOf(s, 5) <==> Home(s, c) == 5;
    OrderOf(s);
    HomeOfWritable(s, c);
  }

  lemma OrderOf(s: State)
    requires Inv(s)
    ensures |s.chunks| == |s.jobs| && s.finished <= |s.jobs|
  {
  }

  lemma HomeOfWritable(s: State, c: nat)
    requires |s.chunks| == |s.jobs|
    ensures Home(s, c) == 5 <==> c == s.finished && c < |s.chunks| && s.chunks[c].state == WRITABLE && s.chunks[c].worker == None
  {
    hide PreviousAssigned;
  }

  lemma RipeForwards(s: State, s': State, x: nat, c: nat)
    requires Inv(s) && Inv(s') && Forwards(s, s', x)
    ensures (c !in s.writeq && c in s'.writeq) <==> (Ripe(s', c) && !Ripe(s, c))
    ensures Ripe(s, c) ==> Ripe(s', c)
  {
    hide Inv, Links, Queues, Sleepers, Placement, Contents, ImageSoFar, FlushersOnly;
    InWriteQueue(s, c);
    InWriteQueue(s', c);
    InvParts(s);
    InvParts(s');
    FinishedGrows(s, s', x);
  }

  /** At most one chunk is finished in a step, and only the first that was not. */
  lemma FinishedGrows(s: State, s': State, x: nat)
    requires Shape(s) && Shape(s') && Forwards(s, s', x)
    ensures s.finished <= s'.finished <= s.finished + 1
    ensures s.finished < s'.finished ==> x == s.finished
  {
    assert s'.finished < |s.chunks| ==> (s.chunks[s'.finished].state == FINISHED <==> s'.finished < s.finished);
    assert s.finished < |s.chunks| ==> (s'.chunks[s.finished].state == FINISHED <==> s.finished < s'.finished);
    assert s.finished + 1 < |s.chunks| ==> (s'.chunks[s.finished + 1].state == FINISHED <==> s.finished + 1 < s'.finished);
  }

  lemma InvParts(s: State)
    requires Inv(s)
    ensures Shape(s) && Workers(s)
  {
  }

  lemma RipeElsewhere(s: State, step: Step, c: nat)
    requires Safe(s, step) && !Forward(step) && s.finished <= |s.chunks|
    ensures Apply(s, step).writeq == s.writeq && (Ripe(s, c) <==> Ripe(Apply(s, step), c))
  {
  }

  lemma RipeStep(s: State, step: Step, c: nat)
    requires Inv(s) && Enabled(s, step)
    ensures Safe(s, step) && Inv(Apply(s, step))
    ensures (c !in s.writeq && c in Apply(s, step).writeq) <==> (Ripe(Apply(s, step), c) && !Ripe(s, c))
    ensures Ripe(s, c) ==> Ripe(Apply(s, step), c)
  {
    KeepsInv(s, step);
    assert Control(s) && s.finished <= |s.chunks|;
    hide Inv, Control, Safe, Apply, Enabled, Forwards, Ripe;
    if Forward(step) {
      var x := StepForwards(s, step);
      RipeForwards(s, Apply(s, step), x, c);
    } else {
      RipeElsewhere(s, step, c);
    }
  }

  /** Over any run, a chunk enters the write queue once if its turn to be written comes, and never otherwise. */
  lemma {:induction false} EntersOnce(s: State, steps: seq<Step>, s': State, c: nat)
    requires Inv(s) && Runs(s, steps, s')
    ensures Entries(s, steps, c) + (if Ripe(s, c) then 1 else 0) == if Ripe(s', c) then 1 else 0
    decreases |steps|
  {
    hide Inv, Safe, Apply, Enabled, Ripe;
    if steps != [] {
      RipeStep(s, steps[0], c);
      EntersOnce(Apply(s, steps[0]), steps[1..], s', c);
    }
  }

  /** From the empty image on, however the threads are scheduled: no chunk enters the write queue twice, and every
      finished chunk has entered it exactly once. */
  lemma WrittenOnce(options: Options, base: nat, file: bytes, log: seq<Extent>, steps: seq<Step>, s: State, c: nat)
    requires options.codec.Lawful() && |file| <= base && Runs(Initial(options, base, file, log), steps, s)
    ensures Entries(Initial(options, base, file, log), steps, c) <= 1
    ensures c < s.finished ==> Entries(Initial(options, base, file, log), steps, c) == 1
  {
    InitiallyInv(options, base, file, log);
    EntersOnce(Initial(options, base, file, log), steps, s, c);
  }

  lemma WriteQueue(s: State)
    requires Holds(s.writeq, x => Home(s, x), 5) && |s.chunks| == |s.jobs|
    ensures s.writeq == [] || s.writeq == [s.finished]
    ensures s.writeq != [] ==> s.finished < |s.chunks| && s.chunks[s.finished].worker == None
  {
    hide PreviousAssigned;
    assert |s.writeq| > 1 ==> s.writeq[0] != s.writeq[1];
    forall i | 0 <= i < |s.writeq|
      ensures s.writeq[i] == s.finished < |s.chunks| && s.chunks[s.finished].worker == None
    {
      assert s.writeq[i] in s.writeq;
      assert Home(s, s.writeq[i]) == 5;
    }
    if s.writeq != [] { assert s.writeq[0] == s.finished; }
  }

  /** A chunk is in at most one queue, once, and in none while a thread works on it. */
  lemma OneQueue(s: State, c: nat, i: nat, j: nat)
    requires Reachable(s) && 1 <= i <= 5 && 1 <= j <= 5 && c in QueueOf(s, i)
    ensures c < |s.chunks| && s.chunks[c].worker == None && (c in QueueOf(s, j) ==> i == j)
    ensures forall a, b :: 0 <= a < b < |QueueOf(s, i)| ==> QueueOf(s, i)[a] != QueueOf(s, i)[b]
  {
    ReachableInv(s);
    AtHome(s, i, c);
    QueueHolds(s, i);
    if c in QueueOf(s, j) { AtHome(s, j, c); }
    HomeFacts(s, c);
    hide Inv;
  }

  // ---------------------------------------------------------------- progress

  /** As long as a chunk is unfinished, some queue holds work or a thread has work in hand. */
  lemma NotStuck(s: State)
    requires Reachable(s) && s.finished < |s.chunks|
    ensures !Idle(s) || exists t :: t in s.threads && s.threads[t].Busy?
  {
    ReachableInv(s);
    NotStuckInv(s);
  }

  lemma NotStuckInv(s: State)
    requires Inv(s) && s.finished < |s.chunks|
    ensures !Idle(s) || exists t :: t in s.threads && s.threads[t].Busy?
  {
    hide Shape, Links, Queues, Workers, Sleepers, Placement, Contents, ImageSoFar, FlushersOnly, Home;
    var c := s.finished;
    OrderOf(s);
    FirstUnfinished(s);
    if s.chunks[c].worker.Some? {
      HeldIsBusy(s, c);
    } else {
      QueueHolds(s, Home(s, c));
      assert c in QueueOf(s, Home(s, c));
    }
  }

  lemma HeldIsBusy(s: State, c: nat)
    requires |s.chunks| == |s.jobs| && Workers(s) && c < |s.chunks| && s.chunks[c].worker.Some?
    ensures s.chunks[c].worker.value in s.threads && s.threads[s.chunks[c].worker.value].Busy?
  {
  }

  lemma FirstUnfinished(s: State)
    requires Shape(s) && Links(s) && Workers(s) && s.finished < |s.chunks|
    ensures s.chunks[s.finished].worker.Some? || 1 <= Home(s, s.finished) <= 5
  {
    var c := s.finished;
    FirstPrevious(s);
    assert c < |s.jobs| && s.chunks[c].state != FINISHED;
    hide Shape, Links, Workers, PreviousAssigned;
  }

  lemma FirstPrevious(s: State)
    requires Shape(s) && Links(s) && s.finished < |s.chunks|
    ensures s.jobs[s.finished].kind != FullBlock ==> PreviousAssigned(s, s.finished)
  {
    if s.jobs[s.finished].kind != FullBlock {
      assert LinkTo(s.jobs, s.chunks[s.finished].prevPiece, s.finished);
    }
  }

  /** No wake-up is lost: as long as a chunk is unfinished and there are threads in the processing loop, one
      of them can take a step that brings the work forward. */
  lemma SomeoneWorks(s: State)
    requires Reachable(s) && s.finished < |s.chunks| && s.threads != map[]
    ensures exists t :: t in s.threads && (Enabled(s, Work(t)) || Enabled(s, End(t)))
  {
    ReachableInv(s);
    var t := SomeoneWorksInv(s);
  }

  lemma SomeoneWorksInv(s: State) returns (t: nat)
    requires Inv(s) && s.finished < |s.chunks| && s.threads != map[]
    ensures t in s.threads && (Enabled(s, Work(t)) || Enabled(s, End(t)))
  {
    hide Inv;
    NotStuckInv(s);
    AwakeThread(s);
    t := Worker(s);
  }

  lemma Worker(s: State) returns (t: nat)
    requires !Idle(s) || exists t :: t in s.threads && s.threads[t].Busy?
    requires !Idle(s) ==> exists t :: t in s.threads && s.threads[t] != Waiting && s.threads[t] != Left
    ensures t in s.threads && (Enabled(s, Work(t)) || Enabled(s, End(t)))
  {
    hide Idle;
    if busy :| busy in s.threads && s.threads[busy].Busy? {
      t := busy;
    } else {
      t :| t in s.threads && s.threads[t] != Waiting && s.threads[t] != Left;
    }
  }

  lemma AwakeThread(s: State)
    requires Inv(s) && s.threads != map[]
    ensures !Idle(s) ==> exists t :: t in s.threads && s.threads[t] != Waiting && s.threads[t] != Left
  {
    assert Sleepers(s);
    hide Idle, Done, Inv;
  }

  /** Once all is done no thread waits or works: each of them can leave the processing loop, or has left. */
  lemma EveryoneLeaves(s: State, t: nat)
    requires Reachable(s) && Done(s) && t in s.threads
    ensures s.threads[t] == Left || Enabled(s, Leave(t))
  {
    hide Reachable, Inv, Idle, Done;
    ReachableInv(s);
    AllIdle(s);
    NoneBusy(s);
    NoneWaiting(s);
  }

  lemma NoneBusy(s: State)
    requires Inv(s) && Done(s)
    ensures forall t :: t in s.threads ==> !s.threads[t].Busy?
  {
  }

  lemma NoneWaiting(s: State)
    requires Inv(s) && Done(s)
    ensures forall t :: t in s.threads ==> s.threads[t] != Waiting
  {
  }

  lemma AllIdle(s: State)
    requires Inv(s) && Done(s)
    ensures Idle(s)
  {
    forall i | 1 <= i <= 5
      ensures QueueOf(s, i) == []
    {
      if QueueOf(s, i) != [] {
        AtHome(s, i, QueueOf(s, i)[0]);
        hide PreviousAssigned, Links, Queues, Workers, Sleepers, Placement, Contents, ImageSoFar;
      }
    }
    assert QueueOf(s, 1) == [] && QueueOf(s, 2) == [] && QueueOf(s, 3) == [] && QueueOf(s, 4) == [] && QueueOf(s, 5) == [];
  }

  /** A thread takes the chunk that is nearest to its end: none in any queue is further. */
  lemma TakesFurthest(s: State, c: nat, i: nat)
    requires Reachable(s) && !Idle(s) && 1 <= i <= 5 && c in QueueOf(s, i)
    ensures c < |s.chunks| && NextChunk(s) < |s.chunks| && s.chunks[c].state <= s.chunks[NextChunk(s)].state
  {
    hide Inv, Reachable, Control, PreviousAssigned;
    ReachableInv(s);
    InvGivesControl(s);
    TakenNext(s);
    QueuedState(s, c, i);
  }

  lemma InvGivesControl(s: State)
    requires Inv(s)
    ensures Control(s)
  {
    hide Shape, Links, Queues, Workers, Sleepers, Placement, Contents, ImageSoFar, FlushersOnly;
  }

  lemma QueuedState(s: State, c: nat, i: nat)
    requires Control(s) && 1 <= i <= 5 && c in QueueOf(s, i)
    ensures c < |s.chunks| && s.chunks[c].state == if i == 1 then NONE else if i == 2 then READ else if i == 3 then DEDUPLICATED else if i == 4 then ASSIGNED else WRITABLE
  {
    hide Shape, Links, Queues, Workers, Sleepers, Home;
    AtHome(s, i, c);
    HomeFacts(s, c);
    HomeState(s, c);
  }

  // ---------------------------------------------------------------- termination

  function Measure(chunks: seq<Chunk>): nat {
    if chunks == [] then 0 else Measure(Front(chunks)) + ToGo(Last(chunks))
  }

  lemma {:induction false} MeasureBound(chunks: seq<Chunk>)
    ensures Measure(chunks) <= 10 * |chunks|
  {
    if chunks != [] { MeasureBound(Front(chunks)); }
  }

  lemma {:induction false} MeasureSame(a: seq<Chunk>, b: seq<Chunk>)
    requires |a| == |b| && forall x :: 0 <= x < |a| ==> ToGo(a[x]) == ToGo(b[x])
    ensures Measure(a) == Measure(b)
  {
    if a != [] { MeasureSame(Front(a), Front(b)); }
  }

  lemma {:induction false} MeasureLess(a: seq<Chunk>, b: seq<Chunk>, c: nat)
    requires |a| == |b| && c < |a| && ToGo(a[c]) < ToGo(b[c])
    requires forall x :: 0 <= x < |a| && x != c ==> ToGo(a[x]) == ToGo(b[x])
    ensures Measure(a) < Measure(b)
  {
    if c == |a| - 1 { MeasureSame(Front(a), Front(b)); } else { MeasureLess(Front(a), Front(b), c); }
  }

  lemma SealedSubmits(s: State, step: Step)
    requires !s.mayAdd && Enabled(s, step)
    ensures !step.Submit? && !step.Seal?
  {
  }

  lemma OtherStep(s: State, step: Step)
    requires Safe(s, step) && !Forward(step) && !step.Submit? && !step.Seal?
    ensures Apply(s, step).chunks == s.chunks && SameGivens(s, Apply(s, step))
  {
  }

  /** Once the image is sealed, every step that takes a chunk further strictly lowers the measure, and the
      others leave it alone. */
  lemma StepMeasure(s: State, step: Step)
    requires Inv(s) && !s.mayAdd && Enabled(s, step) && Safe(s, step)
    ensures SameGivens(s, Apply(s, step))
    ensures Measure(Apply(s, step).chunks) + (if Forward(step) then 1 else 0) <= Measure(s.chunks)
  {
    assert Control(s);
    SealedSubmits(s, step);
    hide Inv, Control, Measure, Safe, Apply, Enabled, ToGo;
    if Forward(step) {
      var c := StepForwards(s, step);
      ToGoSame(s, Apply(s, step), c);
      MeasureLess(Apply(s, step).chunks, s.chunks, c);
    } else {
      OtherStep(s, step);
    }
  }

  lemma ToGoSame(s: State, s': State, c: nat)
    requires Forwards(s, s', c)
    ensures forall x :: 0 <= x < |s.chunks| && x != c ==> ToGo(s'.chunks[x]) == ToGo(s.chunks[x])
  {
  }

  function ForwardSteps(steps: seq<Step>): nat {
    if steps == [] then 0 else (if Forward(steps[0]) then 1 else 0) + ForwardSteps(steps[1..])
  }

  /** However the threads are scheduled, a sealed image needs only so many more steps. */
  lemma {:induction false} RunsAreShort(s: State, steps: seq<Step>, s': State)
    requires Inv(s) && !s.mayAdd && Runs(s, steps, s')
    ensures SameGivens(s, s') && Inv(s')
    ensures ForwardSteps(steps) + Measure(s'.chunks) <= Measure(s.chunks)
    decreases |steps|
  {
    if steps != [] {
      KeepsInv(s, steps[0]);
      StepMeasure(s, steps[0]);
      hide Inv, Measure, Enabled, Safe, Apply;
      RunsAreShort(Apply(s, steps[0]), steps[1..], s');
    }
  }

  lemma ThreadsStay(s: State, step: Step, t: nat)
    requires Inv(s) && Safe(s, step) && Forward(step) && t in s.threads
    ensures Apply(s, step).threads != map[]
  {
    assert Control(s);
    hide Inv, Control, Safe, Apply;
    var c := StepForwards(s, step);
    assert t in Apply(s, step).threads;
  }

  /** From every sealed state, with any thread in the processing loop, the work can be brought to its end;
      the theorems above say that it is as soon as no forward step is left. */
  lemma {:induction false} CanFinish(s: State) returns (steps: seq<Step>, s': State)
    requires Inv(s) && !s.mayAdd && s.threads != map[]
    ensures Runs(s, steps, s') && Done(s')
    decreases Measure(s.chunks)
  {
    if s.finished < |s.chunks| {
      var t := SomeoneWorksInv(s);
      var step := if Enabled(s, Work(t)) then Work(t) else End(t);
      KeepsInv(s, step);
      StepMeasure(s, step);
      ThreadsStay(s, step, t);
      hide Inv, Measure, Enabled, Safe, Apply;
      var rest, last := CanFinish(Apply(s, step));
      steps, s' := [step] + rest, last;
      assert steps[1..] == rest;
    } else {
      steps, s' := [], s;
    }
  }

  // ---------------------------------------------------------------- the result

  /** The fragment blocks written out by some jobs, in the order in which they are opened. */
  function WrittenFragments(o: Options, base: nat, jobs: seq<Job>): seq<ImageBlock> {
    if jobs == [] then []
    else
      var prior, job := Front(jobs), Last(jobs);
      var before := WrittenFragments(o, base, prior);
      if Flushes(o.blockSize, prior, job) then before + [StoredAt(base + |Output(o, prior)|, Emitted(o, prior, job).value)]
      else before
  }

  function StoredAt(at: nat, b: StoredBlock): ImageBlock {
    ImageBlock(at, |b.data|, None, b.compressed)
  }

  /** Only the last job may close the image. */
  ghost predicate ClosesLast(jobs: seq<Job>) {
    forall c :: 0 <= c < |jobs| && jobs[c].kind == ClosingPiece ==> c == |jobs| - 1
  }

  /** How many fragment blocks are written out by some jobs: all but the one still open. */
  lemma {:induction false} WrittenCount(o: Options, base: nat, jobs: seq<Job>)
    requires ClosesLast(jobs)
    ensures var blocks := Fragments(o.blockSize, jobs);
            |WrittenFragments(o, base, jobs)| ==
              if blocks == [] then 0 else if Last(jobs).kind == ClosingPiece then |blocks| else |blocks| - 1
  {
    if jobs != [] {
      assert Front(jobs) != [] ==> Last(Front(jobs)) == jobs[|jobs| - 2];
      WrittenCount(o, base, Front(jobs));
    }
  }

  lemma AllAssigned(s: State, c: nat)
    requires Shape(s) && Done(s) && c < |s.jobs|
    ensures s.chunks[c].state == FINISHED && (s.jobs[c].kind != FullBlock ==> c < s.frontier)
  {
  }

  /** After a complete run, the block flushed by job `c` lies where the sequential layout puts it. */
  lemma WrittenAt(s: State, c: nat)
    requires Inv(s) && Done(s) && c < |s.jobs| && FlushesAt(s, c)
    ensures 0 < |FragmentsAt(s, c)| <= |s.frags| && EmittedAt(s, c).Some?
    ensures s.frags[|FragmentsAt(s, c)| - 1].dst == StoredAt(OffsetAt(s, c), EmittedAt(s, c).value)
  {
    hide Inv, FragmentsAt, FlushesAt, OffsetAt, EmittedAt;
    FlushIsThere(s, c);
  }

  lemma FlushIsThere(s: State, c: nat)
    requires Inv(s) && Done(s) && c < |s.jobs| && FlushesAt(s, c)
    ensures |s.chunks| == |s.jobs| && s.chunks[c].state == FINISHED && FlushContents(s, c)
  {
    hide FlushContents, FullContents, PieceContents, Output, Emitted, Fragments, Links, Queues, Workers, Sleepers;
    AllAssigned(s, c);
    assert Placed(s, c);
  }

  lemma {:induction false} WrittenAre(s: State, c: nat)
    requires Inv(s) && Done(s) && c <= |s.jobs|
    ensures var written := WrittenFragments(s.options, s.base, s.jobs[..c]);
            |written| <= |s.frags| && forall k :: 0 <= k < |written| ==> s.frags[k].dst == written[k]
  {
    hide Inv, FlushesAt, Output, Emitted, Fragments, Flushes;
    if c > 0 {
      WrittenAre(s, c - 1);
      WrittenStep(s, c - 1);
      hide WrittenFragments;
    }
  }

  lemma WrittenStep(s: State, c: nat)
    requires Inv(s) && Done(s) && c < |s.jobs|
    ensures var o, before := s.options, WrittenFragments(s.options, s.base, s.jobs[..c]);
            if FlushesAt(s, c) then
              && |before| < |s.frags|
              && WrittenFragments(o, s.base, s.jobs[..c + 1]) == before + [s.frags[|before|].dst]
            else WrittenFragments(o, s.base, s.jobs[..c + 1]) == before
  {
    WrittenUnfolds(s, c);
    hide WrittenFragments, Output, Emitted, Fragments, Flushes;
    if FlushesAt(s, c) {
      WrittenAt(s, c);
      ClosesBefore(s, c);
      WrittenCount(s.options, s.base, s.jobs[..c]);
      hide Inv;
    }
  }

  lemma WrittenUnfolds(s: State, c: nat)
    requires c < |s.jobs|
    ensures var before := WrittenFragments(s.options, s.base, s.jobs[..c]);
            WrittenFragments(s.options, s.base, s.jobs[..c + 1]) ==
              if FlushesAt(s, c) then before + [StoredAt(OffsetAt(s, c), EmittedAt(s, c).value)] else before
  {
    PrefixFront(s.jobs, c + 1);
    hide Output, Fragments;
  }

  lemma ClosesBefore(s: State, c: nat)
    requires Shape(s) && c < |s.jobs|
    ensures ClosesLast(s.jobs[..c]) && (c > 0 ==> Last(s.jobs[..c]).kind != ClosingPiece)
  {
  }

  /** What a completed run leaves behind: nothing of it depends on the schedule. */
  ghost predicate Sequential(s: State) {
    && s.file == Pwrite(s.file0, s.base, Output(s.options, s.jobs))
    && s.size == s.base + |Output(s.options, s.jobs)|
    && CoversOnce(s.log, s.log0, s.base, s.size)
    && |s.chunks| == |s.jobs|
    && |s.frags| == |Fragments(s.options.blockSize, s.jobs)|
    && WrittenFragments(s.options, s.base, s.jobs) == seq(|s.frags|, k requires 0 <= k < |s.frags| => s.frags[k].dst)
    && forall c :: 0 <= c < |s.jobs| ==> LaidOut(s, c)
  }

  /** Chunk `c` lies where the sequential layout puts it: a full block in the image, a piece in its
      fragment block. */
  ghost predicate LaidOut(s: State, c: nat)
    requires c < |s.jobs| == |s.chunks|
  {
    match s.jobs[c].kind
    case FullBlock => s.chunks[c].dst == StoredAt(OffsetAt(s, c), EmittedAt(s, c).value)
    case FragmentPiece =>
      && FragmentsAt(s, c + 1) != []
      && s.chunks[c].block == Some(|FragmentsAt(s, c + 1)| - 1)
      && s.chunks[c].offset == |Last(FragmentsAt(s, c + 1))| - |s.jobs[c].data|
    case ClosingPiece => true
  }

  lemma ChunkLaidOut(s: State, c: nat)
    requires Inv(s) && Done(s) && c < |s.jobs|
    ensures LaidOut(s, c)
  {
    AllAssigned(s, c);
    assert Placed(s, c);
    if s.jobs[c].kind == FullBlock { assert FullContents(s, c); }
    hide Inv, Fragments, FlushesAt, OffsetAt, EmittedAt;
  }

  lemma DoneFragments(s: State)
    requires Inv(s) && Done(s)
    ensures |s.frags| == |Fragments(s.options.blockSize, s.jobs)|
    ensures |WrittenFragments(s.options, s.base, s.jobs)| == |s.frags|
  {
    AllAssigned(s, |s.jobs| - 1);
    assert s.frontier == |s.jobs|;
    assert s.jobs[..s.frontier] == s.jobs;
    WrittenCount(s.options, s.base, s.jobs);
    hide Fragments, WrittenFragments, Contents, ImageSoFar, Links, Queues, Workers, Sleepers;
  }

  lemma DoneImage(s: State)
    requires Inv(s) && Done(s)
    ensures s.file == Pwrite(s.file0, s.base, Output(s.options, s.jobs)) && s.size == s.base + |Output(s.options, s.jobs)|
    ensures CoversOnce(s.log, s.log0, s.base, s.size)
  {
    assert ImageSoFar(s) && |s.jobs| == |s.chunks|;
    assert s.jobs[..s.finished] == s.jobs;
    hide Inv, CoversOnce, Output, EmittedBytesAt;
  }

  /** The content of a fragment block is the data of its pieces, which are in the order of submission. */
  lemma PiecesOf(s: State, k: nat)
    requires Inv(s) && Done(s) && k < |s.frags|
    ensures k < |FragmentsAt(s, |s.jobs|)| && PieceData(s.jobs, s.frags[k].pieces) == FragmentsAt(s, |s.jobs|)[k]
    ensures forall i :: 0 <= i < |s.frags[k].pieces| ==>
              var p := s.frags[k].pieces[i]; p < |s.jobs| == |s.chunks| && s.jobs[p].kind == FragmentPiece && s.chunks[p].block == Some(k)
    ensures forall i, j :: 0 <= i < j < |s.frags[k].pieces| ==> s.frags[k].pieces[i] < s.frags[k].pieces[j]
  {
    hide Shape, Links, Queues, Workers, Sleepers, Contents, ImageSoFar, FlushersOnly, FragmentsAt, PieceData, Placement;
    OrderOf(s);
    AllWereAssigned(s);
    OldBlocks(s, k);
  }

  lemma AllWereAssigned(s: State)
    requires Inv(s) && Done(s)
    ensures s.frontier == |s.jobs|
  {
    hide Links, Queues, Workers, Sleepers, Placement, Contents, ImageSoFar, FlushersOnly;
    AllAssigned(s, |s.jobs| - 1);
  }

  /** Schedule independence: every completed run, whatever its interleaving, leaves the image, the block
      offsets and sizes, and the places of the pieces that the sequential layout gives. */
  lemma CompletedIsSequential(s: State)
    requires Inv(s) && Done(s)
    ensures Sequential(s)
  {
    hide Inv, Done, Output, WrittenFragments, Fragments, CoversOnce, Pwrite, LaidOut;
    DoneCounts(s);
    DoneImage(s);
    DoneFragments(s);
    DoneWritten(s);
    forall c | 0 <= c < |s.jobs|
      ensures LaidOut(s, c)
    {
      ChunkLaidOut(s, c);
    }
  }

  lemma DoneCounts(s: State)
    requires Inv(s) && Done(s)
    ensures |s.chunks| == |s.jobs| == s.finished && s.jobs[..|s.jobs|] == s.jobs
  {
  }

  lemma DoneWritten(s: State)
    requires Inv(s) && Done(s)
    ensures WrittenFragments(s.options, s.base, s.jobs) == seq(|s.frags|, k requires 0 <= k < |s.frags| => s.frags[k].dst)
  {
    hide Inv, Done, WrittenFragments, Fragments;
    DoneCounts(s);
    DoneFragments(s);
    WrittenAre(s, |s.jobs|);
  }

  /** The same image, with everything in the same places. */
  ghost predicate SameResult(s: State, s': State) {
    && s.file == s'.file && s.size == s'.size
    && |s.jobs| == |s.chunks| == |s'.chunks| && |s.frags| == |s'.frags|
    && (forall k :: 0 <= k < |s.frags| ==> s.frags[k].dst == s'.frags[k].dst)
    && (forall c :: 0 <= c < |s.chunks| ==> SamePlace(s, s', c))
  }

  ghost predicate SamePlace(s: State, s': State, c: nat)
    requires c < |s.jobs| == |s.chunks| == |s'.chunks|
  {
    match s.jobs[c].kind
    case FullBlock => s.chunks[c].dst == s'.chunks[c].dst
    case FragmentPiece => s.chunks[c].block == s'.chunks[c].block && s.chunks[c].offset == s'.chunks[c].offset
    case ClosingPiece => true
  }

  lemma SequentialAgree(s: State, s': State)
    requires Sequential(s) && Sequential(s') && SameStart(s, s') && s'.jobs == s.jobs
    ensures SameResult(s, s')
  {
    hide Output, WrittenFragments, Fragments, CoversOnce, Emitted, Pwrite;
    forall k | 0 <= k < |s.frags|
      ensures s.frags[k].dst == s'.frags[k].dst
    {
      assert WrittenFragments(s.options, s.base, s.jobs)[k] == s.frags[k].dst;
    }
    forall c | 0 <= c < |s.chunks|
      ensures SamePlace(s, s', c)
    {
      assert LaidOut(s, c) && LaidOut(s', c);
    }
  }

  /** So any two completed runs with the same input agree. */
  lemma ScheduleIndependence(options: Options, base: nat, file: bytes, log: seq<Extent>, a: seq<Step>, b: seq<Step>, s: State, s': State)
    requires options.codec.Lawful() && |file| <= base
    requires Runs(Initial(options, base, file, log), a, s) && Runs(Initial(options, base, file, log), b, s')
    requires Done(s) && Done(s') && s.jobs == s'.jobs
    ensures SameResult(s, s')
  {
    hide Runs, Sequential, SameResult, Done;
    RunResult(options, base, file, log, a, s);
    RunResult(options, base, file, log, b, s');
    SequentialAgree(s, s');
  }

  /** What a run starts from stays as it was. */
  ghost predicate SameStart(s: State, s': State) {
    s'.options == s.options && s'.base == s.base && s'.file0 == s.file0 && s'.log0 == s.log0
  }

  lemma StepSameStart(s: State, step: Step)
    requires Inv(s) && Safe(s, step)
    ensures SameStart(s, Apply(s, step))
  {
    hide Inv, Control, Safe, Apply;
    if Forward(step) {
      InvGivesControl(s);
      var c := StepForwards(s, step);
    } else {
      OtherSameStart(s, step);
    }
  }

  lemma OtherSameStart(s: State, step: Step)
    requires Safe(s, step) && !Forward(step)
    ensures SameStart(s, Apply(s, step))
  {
  }

  lemma {:induction false} RunSameStart(s: State, steps: seq<Step>, s': State)
    requires Inv(s) && Runs(s, steps, s')
    ensures SameStart(s, s') && Inv(s')
    decreases |steps|
  {
    if steps != [] {
      KeepsInv(s, steps[0]);
      StepSameStart(s, steps[0]);
      hide Inv, Enabled, Safe, Apply;
      RunSameStart(Apply(s, steps[0]), steps[1..], s');
    }
  }

  lemma RunResult(options: Options, base: nat, file: bytes, log: seq<Extent>, steps: seq<Step>, s: State)
    requires options.codec.Lawful() && |file| <= base && Runs(Initial(options, base, file, log), steps, s)
    ensures s.options == options && s.base == base && s.file0 == file && s.log0 == log
    ensures Done(s) ==> Sequential(s)
  {
    InitiallyInv(options, base, file, log);
    hide Inv, Sequential, Runs;
    RunSameStart(Initial(options, base, file, log), steps, s);
    if Done(s) { CompletedIsSequential(s); }
  }
}
