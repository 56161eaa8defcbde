/** The steps that assign and submit chunks, and then every step: all of them keep the data as it should be. */
module PipelineSteps {
  import opened Bytes
  import opened SequentialLayout
  import opened Pipeline
  import opened PipelineInvariant
  import opened PipelineControl
  import opened PipelineData

  // ---------------------------------------------------------------- assigning

  /** Piece `c` is assigned: it may have gone into a fragment block, and may have a block to write out. */
  ghost predicate AssignsPiece(s: State, s': State, c: nat) {
    && SameInput(s, s') && s'.jobs == s.jobs && s'.mayAdd == s.mayAdd && c < |s.jobs| && s.jobs[c].kind != FullBlock
    && s'.frontier == c + 1 <= |s.jobs| && |s.frags| <= |s'.frags|
    && (forall k :: 0 <= k < |s.frags| ==> s'.frags[k].dst == s.frags[k].dst)
    && (forall x :: 0 <= x < |s.chunks| && x != c ==> s'.chunks[x] == s.chunks[x])
    && s'.chunks[c].state >= ASSIGNED && s'.chunks[c].cached == s.chunks[c].cached
    && (s'.chunks[c].flush ==> s'.chunks[c].state == ASSIGNED && FlushesAt(s, c) && |s.frags| == |FragmentsAt(s, c)|)
  }

  lemma AssignsFlush(s: State, s': State, c: nat)
    requires s.frags != [] ==> Last(s.frags).dst == EMPTY_BLOCK
    requires AssignsPiece(s, s', c) && s'.chunks[c].flush
    ensures FlushContents(s', c)
  {
    SameOutput(s, s', c);
    EmittedByFlush(s, c);
    hide FragmentsAt, OffsetAt, EmittedAt, FlushesAt;
  }

  lemma AssignedEarlier(s: State, s': State, c: nat, x: nat)
    requires AssignsPiece(s, s', c) && x < |s.jobs| && x != c && s.jobs[x].kind == FragmentPiece && PieceContents(s, x)
    requires s.chunks[x].block.Some? ==> s.chunks[x].state >= ASSIGNED && s.chunks[x].block.value < |s.frags|
    ensures PieceContents(s', x)
  {
    hide FragmentsAt, FlushesAt;
  }

  /** A piece with a block knows one that is there. */
  lemma BlockThere(s: State, x: nat)
    requires Shape(s) && Placement(s) && x < |s.jobs| && s.chunks[x].block.Some?
    ensures s.chunks[x].state >= ASSIGNED && s.chunks[x].block.value < |s.frags|
  {
    assert Placed(s, x);
    FragmentsGrow(s.options.blockSize, s.jobs, x + 1, s.frontier);
    hide Fragments, Flushes;
  }

  lemma ContentsAssign(s: State, s': State, c: nat)
    requires Shape(s) && Placement(s) && Contents(s) && AssignsPiece(s, s', c) && s.frontier <= c
    requires s.chunks[c].state == DEDUPLICATED
    requires (s'.mayAdd || s'.frontier < |s'.jobs|) && s'.frags != [] ==> Last(s'.frags).dst == EMPTY_BLOCK
    ensures Contents(s')
  {
    hide FullContents, FlushContents, FragmentsAt, FlushesAt, Placement;
    forall x | 0 <= x < |s'.jobs| && s'.jobs[x].kind == FullBlock ensures FullContents(s', x) {
      FullStays(s, s', x);
    }
    forall x | 0 <= x < |s'.jobs| && s'.jobs[x].kind == FragmentPiece ensures PieceContents(s', x) {
      assert PieceContents(s, x);
      if x != c {
        if s.chunks[x].block.Some? { BlockThere(s, x); }
        AssignedEarlier(s, s', c, x);
      }
    }
    forall x | 0 <= x < |s'.jobs| && s'.chunks[x].flush ensures FlushContents(s', x) {
      if x == c { AssignsFlush(s, s', c); } else { AssignedFlush(s, s', x); }
    }
  }

  lemma AssignedFlush(s: State, s': State, x: nat)
    requires SameInput(s, s') && x < |s.jobs| && FlushContents(s, x) && |s.frags| <= |s'.frags|
    requires forall k :: 0 <= k < |s.frags| ==> s'.frags[k].dst == s.frags[k].dst
    requires s'.chunks[x].state == s.chunks[x].state && s'.chunks[x].worker == s.chunks[x].worker
    ensures FlushContents(s', x)
  {
    FlushStays(s, s', x);
  }

  /** How assigning piece `c` ends: `p` is the state in which it has its place. */
  ghost predicate Advanced(p: State, s': State, c: nat) {
    && c < |p.chunks|
    && s' == p.(chunks := s'.chunks, frontier := c + 1, assignq := s'.assignq, compressq := s'.compressq, writeq := s'.writeq)
    && |s'.chunks| == |p.chunks|
    && (forall x :: 0 <= x < |p.chunks| && x != c ==> s'.chunks[x] == p.chunks[x])
    && s'.chunks[c] == p.chunks[c].(state := if p.chunks[c].flush then ASSIGNED else WRITABLE)
  }

  lemma AdvanceIs(p: State, c: nat)
    requires c < |p.chunks|
    ensures Advanced(p, PushNext(Advance(p, c), c).(frontier := c + 1), c)
    ensures Advanced(p, Advance(p, c).(frontier := c + 1), c)
  {
  }

  lemma PlacePieceImage(s: State, c: nat)
    requires c < |s.chunks| == |s.jobs| && (s.chunks[c].prevPiece.Some? ==> HasTarget(s, c))
    ensures SameImage(s, PlacePiece(s, c)) && PlacePiece(s, c).mayAdd == s.mayAdd
  {
    hide MustFlush;
  }

  lemma PlacedAdvances(s: State, p: State, s': State, c: nat)
    requires Shape(s) && PutWell(s, p, c) && SameImage(s, p) && p.mayAdd == s.mayAdd && Advanced(p, s', c) && s.jobs[c].kind == FragmentPiece
    requires |s.frags| == |FragmentsAt(s, c)| && s.frontier <= c
    requires s.frags != [] ==> Last(s.frags).dst == EMPTY_BLOCK
    ensures AssignsPiece(s, s', c) && SameImage(s, s') && (s'.frags != [] ==> Last(s'.frags).dst == EMPTY_BLOCK)
  {
    hide FragmentsAt, FlushesAt, Shape, BlockFilled;
    assert Last(p.frags).dst == EMPTY_BLOCK;
  }

  lemma StillWriting(s: State, s': State, c: nat)
    requires SameImage(s, s') && s'.jobs == s.jobs && c < |s.chunks| && s.chunks[c].worker == None && s'.chunks[c].worker == None
    requires forall x :: 0 <= x < |s.chunks| && x != c ==> s'.chunks[x] == s.chunks[x]
    ensures Writing(s') <==> Writing(s)
  {
  }

  /** All that assigning a fragment piece does, with `p` the state in which it has its place. */
  ghost predicate PutAndAdvanced(s: State, p: State, s': State, c: nat) {
    PutWell(s, p, c) && SameImage(s, p) && p.mayAdd == s.mayAdd && Advanced(p, s', c)
  }

  lemma OpenBlock(s: State, c: nat)
    requires Data(s) && s.frontier <= c < |s.jobs|
    ensures s.frags != [] ==> Last(s.frags).dst == EMPTY_BLOCK
  {
    hide Placement, ImageSoFar;
  }

  lemma AdvancedPlacement(p: State, s': State, c: nat)
    requires |p.chunks| == |p.jobs| && Advanced(p, s', c)
    ensures SamePlacement(p.(frontier := c + 1), s')
  {
  }

  lemma PlacementAdvanced(s: State, p: State, s': State, c: nat)
    requires ReadyPiece(s, c) && s.jobs[c].kind == FragmentPiece && PutAndAdvanced(s, p, s', c)
    ensures Placement(s')
  {
    assert |p.chunks| == |p.jobs| && c < |p.jobs|;
    PlacementPut(s, p, p.(frontier := c + 1), c);
    AdvancedPlacement(p, s', c);
    hide PutWell, ReadyPiece, Placement, Advanced, SamePlacement, SameImage;
    PlacementStays(p.(frontier := c + 1), s');
  }

  lemma DataAdvanced(s: State, p: State, s': State, c: nat)
    requires Data(s) && ReadyPiece(s, c) && s.jobs[c].kind == FragmentPiece && s.chunks[c].worker == None
    requires PutAndAdvanced(s, p, s', c) && |s.frags| == |FragmentsAt(s, c)|
    ensures Data(s')
  {
    PlacementAdvanced(s, p, s', c);
    OpenBlock(s, c);
    PlacedAdvances(s, p, s', c);
    assert s'.chunks[c].worker == None;
    hide PutWell, PutAndAdvanced, Placement, Contents, ImageSoFar, Shape, Links, AssignsPiece, SameImage;
    DataAssigned(s, s', c);
  }

  lemma DataAssignPiece(s: State, c: nat)
    requires Data(s) && ReadyPiece(s, c) && s.jobs[c].kind == FragmentPiece && s.chunks[c].worker == None
    requires s.chunks[c].prevPiece.Some? ==> HasTarget(s, c)
    ensures Data(AssignPiece(s, c))
  {
    var p := PlacePiece(s, c);
    MustFlushIsOverflow(s, c);
    PlacedPieceIsPutWell(s, c);
    PlacePieceImage(s, c);
    AdvanceIs(p, c);
    hide PlacePiece, PutWell, Data, ReadyPiece, FragmentsAt, FlushesAt, MustFlush, Overflows, SameImage, Advance, PushNext, Advanced;
    DataAdvanced(s, p, AssignPiece(s, c), c);
  }

  lemma ClosingAssigns(s: State, p: State, s': State, c: nat)
    requires ReadyPiece(s, c) && s.jobs[c].kind == ClosingPiece && s.chunks[c].worker == None
    requires p == SetChunk(s, c, s.chunks[c].(flush := s.chunks[c].prevPiece.Some?)) && Advanced(p, s', c)
    ensures AssignsPiece(s, s', c) && SameImage(s, s') && !s'.mayAdd && s'.frontier == |s'.jobs|
    ensures s'.chunks[c].worker == None && (forall x :: 0 <= x < |s.chunks| && x != c ==> s'.chunks[x] == s.chunks[x])
  {
    ClosingFlush(s, c);
    assert c == |s.jobs| - 1 && !s.mayAdd;
    hide Placement, Shape, Links, FragmentsAt, FlushesAt;
  }

  lemma ClosingPlacement(s: State, p: State, s': State, c: nat)
    requires ReadyPiece(s, c) && s.jobs[c].kind == ClosingPiece
    requires p == SetChunk(s, c, s.chunks[c].(flush := s.chunks[c].prevPiece.Some?)) && Advanced(p, s', c)
    ensures Placement(s')
  {
    PlacementAssignClosing(s, c);
    AdvancedPlacement(p, s', c);
    hide ReadyPiece, Placement, Advanced, SamePlacement;
    PlacementStays(p.(frontier := c + 1), s');
  }

  lemma DataAssignClosing(s: State, c: nat)
    requires Data(s) && ReadyPiece(s, c) && s.jobs[c].kind == ClosingPiece && s.chunks[c].worker == None
    ensures Data(AssignClosing(s, c))
  {
    var p := SetChunk(s, c, s.chunks[c].(flush := s.chunks[c].prevPiece.Some?));
    var s' := AssignClosing(s, c);
    AdvanceIs(p, c);
    ClosingPlacement(s, p, s', c);
    ClosingAssigns(s, p, s', c);
    hide Placement, Contents, ImageSoFar, Shape, Links, AssignClosing, Advanced, Advance, AssignsPiece, SameImage;
    DataAssigned(s, s', c);
  }

  lemma DataAssigned(s: State, s': State, c: nat)
    requires Data(s) && Shape(s) && AssignsPiece(s, s', c) && SameImage(s, s') && Placement(s') && s.frontier <= c
    requires s.chunks[c].state == DEDUPLICATED && s.chunks[c].worker == None && s'.chunks[c].worker == None
    requires forall x :: 0 <= x < |s.chunks| && x != c ==> s'.chunks[x] == s.chunks[x]
    requires (s'.mayAdd || s'.frontier < |s'.jobs|) && s'.frags != [] ==> Last(s'.frags).dst == EMPTY_BLOCK
    ensures Data(s')
  {
    hide Placement, Contents, ImageSoFar, Shape, FlushesAt, FragmentsAt;
    ContentsAssign(s, s', c);
    StillWriting(s, s', c);
    ImageStays(s, s');
  }

  lemma ClosingFlush(s: State, c: nat)
    requires ReadyPiece(s, c) && s.jobs[c].kind == ClosingPiece
    ensures s.chunks[c].prevPiece.Some? ==> FlushesAt(s, c)
    ensures |s.frags| == |FragmentsAt(s, c)|
  {
    MustFlushIsOverflow(s, c);
  }

  // ---------------------------------------------------------------- submitting

  /** A job has been added at the end; nothing of the earlier ones changes but links. */
  ghost predicate Adds(s: State, s': State, job: Job) {
    && SameInput(s, s') && s'.jobs == s.jobs + [job] && s'.frags == s.frags && s'.frontier == s.frontier
    && s'.mayAdd == (s.mayAdd && job.kind != ClosingPiece)
    && s'.chunks[|s.jobs|].state == NONE && s'.chunks[|s.jobs|].worker == None && s'.chunks[|s.jobs|].dst == EMPTY_BLOCK
    && s'.chunks[|s.jobs|].block == None && !s'.chunks[|s.jobs|].flush
    && (forall x :: 0 <= x < |s.chunks| ==> s'.chunks[x] == s.chunks[x].(nextPiece := s'.chunks[x].nextPiece))
    && SameImage(s, s')
  }

  lemma EnqueueAdds(s: State, job: Job, woken: Option<nat>)
    requires |s.jobs| == |s.chunks| && (s.lastPiece.Some? ==> s.lastPiece.value < |s.chunks|)
    ensures Adds(s, Enqueue(s, job, woken), job)
  {
  }

  lemma ContentsAdds(s: State, s': State, job: Job)
    requires |s.chunks| == |s.jobs| && s.frontier <= |s.jobs| && Contents(s) && Adds(s, s', job) && s.mayAdd
    ensures Contents(s')
  {
    hide FullContents, PieceContents, FlushContents;
    var n := |s.jobs|;
    if job.kind == FullBlock { assert FullContents(s', n) by { NewFull(s', n); } }
    if job.kind == FragmentPiece { assert PieceContents(s', n) by { NewPiece(s', n); } }
    forall x | 0 <= x < |s'.jobs| && s'.jobs[x].kind == FullBlock ensures FullContents(s', x) {
      if x < n { FullStays(s, s', x); }
    }
    forall x | 0 <= x < |s'.jobs| && s'.jobs[x].kind == FragmentPiece ensures PieceContents(s', x) {
      if x < n { QuietPiece(s, s', x); }
    }
    forall x | 0 <= x < |s'.jobs| && s'.chunks[x].flush ensures FlushContents(s', x) {
      if x < n { QuietFlush(s, s', x); }
    }
  }

  lemma NewFull(s: State, c: nat)
    requires c < |s.jobs| == |s.chunks| && s.jobs[c].kind == FullBlock && s.chunks[c].state == NONE && s.chunks[c].dst == EMPTY_BLOCK
    ensures FullContents(s, c)
  {
  }

  lemma NewPiece(s: State, c: nat)
    requires c < |s.jobs| == |s.chunks| && s.jobs[c].kind == FragmentPiece && s.chunks[c].state == NONE && s.chunks[c].block == None
    ensures PieceContents(s, c)
  {
  }

  lemma AddsWriting(s: State, s': State, job: Job)
    requires Adds(s, s', job) && s.finished <= |s.jobs|
    ensures Writing(s') <==> Writing(s)
  {
  }

  lemma DataEnqueue(s: State, job: Job, woken: Option<nat>)
    requires Data(s) && s.mayAdd && (s.lastPiece.Some? ==> s.lastPiece.value < |s.chunks|)
    ensures Data(Enqueue(s, job, woken))
  {
    hide Placement, Contents, ImageSoFar, Enqueue;
    var s' := Enqueue(s, job, woken);
    EnqueueAdds(s, job, woken);
    PlacementEnqueue(s, job, woken);
    ContentsAdds(s, s', job);
    AddsWriting(s, s', job);
    ImageStays(s, s');
  }

  /** Threads and the assign queue do not matter. */
  lemma DataElsewhere(s: State, s': State)
    requires Data(s) && s' == s.(threads := s'.threads, assignq := s'.assignq)
    ensures Data(s')
  {
    hide Placement, Contents, ImageSoFar;
    PlacementStays(s, s');
    ImageStays(s, s');
    ContentsElsewhere(s, s');
  }

  lemma ContentsElsewhere(s: State, s': State)
    requires |s.chunks| == |s.jobs| && Contents(s) && s' == s.(threads := s'.threads, assignq := s'.assignq)
    ensures Contents(s')
  {
    hide FullContents, PieceContents, FlushContents;
    forall x | 0 <= x < |s'.jobs| && s'.jobs[x].kind == FullBlock ensures FullContents(s', x) {
      FullStays(s, s', x);
    }
    forall x | 0 <= x < |s'.jobs| && s'.jobs[x].kind == FragmentPiece ensures PieceContents(s', x) {
      QuietPiece(s, s', x);
    }
    forall x | 0 <= x < |s'.jobs| && s'.chunks[x].flush ensures FlushContents(s', x) {
      QuietFlush(s, s', x);
    }
  }

  // ---------------------------------------------------------------- nothing faults

  /** What is known of the chunk a thread takes next. */
  ghost predicate Taken(s: State, c: nat) {
    && c < |s.chunks| == |s.jobs| && s.chunks[c].worker == None && s.finished <= c
    && (c > 0 ==> (s.chunks[c - 1].state == FINISHED <==> c - 1 < s.finished))
    && (if s.writeq != [] then s.writeq[0] == c && s.chunks[c].state == WRITABLE && c == s.finished
        else if s.compressq != [] then s.compressq[0] == c && s.chunks[c].state == ASSIGNED
        else if s.assignq != [] then
          s.assignq[0] == c && s.chunks[c].state == DEDUPLICATED && (s.jobs[c].kind != FullBlock ==> PreviousAssigned(s, c))
        else if s.dedupq != [] then s.dedupq[0] == c && s.chunks[c].state == READ
        else s.readq != [] && s.readq[0] == c && s.chunks[c].state == NONE)
  }

  lemma TakenNext(s: State)
    requires Control(s) && !Idle(s)
    ensures Taken(s, NextChunk(s))
  {
    var c := NextChunk(s);
    var i := if s.writeq != [] then 5 else if s.compressq != [] then 4 else if s.assignq != [] then 3 else if s.dedupq != [] then 2 else 1;
    assert c in QueueOf(s, i);
    AtHome(s, i, c);
    HomeFacts(s, c);
    HomeState(s, c);
    hide Control, PreviousAssigned, QueueOf, Home;
  }

  lemma HomeState(s: State, c: nat)
    requires c < |s.chunks| == |s.jobs| && Home(s, c) > 0
    ensures Home(s, c) == 1 ==> s.chunks[c].state == NONE
    ensures Home(s, c) == 2 ==> s.chunks[c].state == READ
    ensures Home(s, c) == 3 ==> s.chunks[c].state == DEDUPLICATED && (s.jobs[c].kind != FullBlock ==> PreviousAssigned(s, c))
    ensures Home(s, c) == 4 ==> s.chunks[c].state == ASSIGNED
    ensures Home(s, c) == 5 ==> s.chunks[c].state == WRITABLE && c == s.finished
  {
  }

  lemma NoFaultWriting(s: State, c: nat)
    requires Control(s) && Data(s) && Taken(s, c) && s.writeq != []
    ensures SafeWork(s, c)
  {
    if s.chunks[c].flush { FlusherTarget(s, c); }
    hide Control, Data, HasTarget;
  }

  lemma NoFaultAssigning(s: State, c: nat)
    requires Control(s) && Data(s) && Taken(s, c) && s.writeq == [] && s.compressq == [] && s.assignq != []
    ensures SafeWork(s, c)
    ensures s.jobs[c].kind != FullBlock && s.chunks[c].prevPiece.Some? ==> HasTarget(s, c)
  {
    if s.jobs[c].kind != FullBlock && s.chunks[c].prevPiece.Some? { TargetIsLast(s, c); }
    hide Control, Data, HasTarget;
  }

  lemma NoFaultWork(s: State)
    requires Control(s) && Data(s) && FlushersOnly(s) && !Idle(s)
    ensures SafeWork(s, NextChunk(s))
  {
    var c := NextChunk(s);
    TakenNext(s);
    if s.writeq != [] {
      NoFaultWriting(s, c);
    } else if s.compressq == [] && s.assignq != [] {
      NoFaultAssigning(s, c);
    } else {
      assert GoodJob(s.options.blockSize, s.jobs[c]);
      hide Control, Data;
    }
  }

  /** What is known of a chunk a thread is busy with. */
  ghost predicate Held(s: State, t: nat, c: nat) {
    && c < |s.chunks| == |s.jobs| && s.chunks[c].worker == Some(t) && s.finished <= c
    && (c > 0 ==> (s.chunks[c - 1].state == FINISHED <==> c - 1 < s.finished))
    && GoodJob(s.options.blockSize, s.jobs[c])
    && (|| (s.chunks[c].state == NONE && s.jobs[c].kind != ClosingPiece)
        || s.chunks[c].state == ASSIGNED
        || (s.chunks[c].state == WRITABLE && c == s.finished && (s.jobs[c].kind == FullBlock || s.chunks[c].flush)))
  }

  lemma HeldBy(s: State, t: nat)
    requires Control(s) && t in s.threads && s.threads[t].Busy?
    ensures Held(s, t, s.threads[t].chunk)
  {
  }

  lemma NoFaultCompressed(s: State, t: nat, c: nat)
    requires Control(s) && Data(s) && FlushersOnly(s) && Held(s, t, c) && s.chunks[c].state == ASSIGNED
    ensures SafeEnd(s, c)
  {
    if s.jobs[c].kind == FullBlock {
      assert FullContents(s, c);
      hide Control, Data, HasTarget;
    } else {
      BlockComplete(s, c);
      hide Control, Data, HasTarget, FragmentsAt;
      GatherIsPieceData(s, s.frags[Target(s, c)].pieces);
    }
  }

  lemma NoFaultWritten(s: State, t: nat, c: nat)
    requires Control(s) && Data(s) && Held(s, t, c) && s.chunks[c].state == WRITABLE
    ensures SafeEnd(s, c)
  {
    if s.jobs[c].kind == FullBlock {
      assert FullContents(s, c);
      hide Control, Data, HasTarget, EmittedAt;
    } else {
      BlockWaiting(s, c);
      hide Control, Data, HasTarget, FragmentsAt, EmittedAt;
    }
  }

  lemma NoFaultEnd(s: State, t: nat)
    requires Control(s) && Data(s) && FlushersOnly(s) && t in s.threads && s.threads[t].Busy?
    ensures SafeEnd(s, s.threads[t].chunk)
  {
    var c := s.threads[t].chunk;
    HeldBy(s, t);
    if s.chunks[c].state == ASSIGNED { NoFaultCompressed(s, t, c); }
    if s.chunks[c].state == WRITABLE { NoFaultWritten(s, t, c); }
    hide Control, Data, HasTarget;
  }

  /** In every state the invariant allows, and for every step possible there, no assertion of the code fails
      and no null pointer is followed. */
  lemma NoFault(s: State, step: Step)
    requires Inv(s) && Enabled(s, step)
    ensures Safe(s, step)
  {
    ControlCounts(s);
    hide Shape, Links, Queues, Workers, Sleepers, Placement, Contents, ImageSoFar, FlushersOnly, SafeWork, SafeEnd;
    if step.Work? { NoFaultWork(s); }
    if step.End? { NoFaultEnd(s, step.t); }
  }

  // ---------------------------------------------------------------- every step

  lemma ReadyAt(s: State, s1: State, c: nat)
    requires Control(s) && Data(s) && Taken(s, c) && s.writeq == [] && s.compressq == [] && s.assignq != []
    requires s.jobs[c].kind != FullBlock && s1 == s.(assignq := s.assignq[1..])
    ensures Data(s1) && ReadyPiece(s1, c)
  {
    FrontierAt(s, c);
    DataElsewhere(s, s1);
    OrderElsewhere(s, s1);
    assert PreviousAssigned(s1, c) == PreviousAssigned(s, c);
    hide Placement, Contents, ImageSoFar, NoPieces, Shape, Links, Control, PreviousAssigned;
  }

  lemma OrderElsewhere(s: State, s': State)
    requires Shape(s) && Links(s) && s' == s.(assignq := s'.assignq)
    ensures Shape(s') && Links(s')
  {
  }

  lemma WorkKeepsData(s: State, t: nat)
    requires Control(s) && Data(s) && !Idle(s) && SafeWork(s, NextChunk(s))
    ensures Data(DoWork(s, t))
  {
    hide Data, Control, Shape, Links, OneWriter, ReadyPiece, HasTarget;
    var c := NextChunk(s);
    TakenNext(s);
    ControlParts(s);
    if s.writeq != [] {
      var s1 := s.(writeq := s.writeq[1..]);
      if s.jobs[c].kind == FullBlock { DataBeginWriteFull(s, t, s1); }
      else if s.chunks[c].flush {
        TargetElsewhere(s, s1, c);
        DataBeginWritePiece(s, t, s1);
      } else { DataMarkFinished(s, s1); }
    } else if s.compressq != [] {
      DataBeginCompress(s, t);
    } else if s.assignq != [] {
      var s1 := s.(assignq := s.assignq[1..]);
      if s.jobs[c].kind == FullBlock { DataAssignFull(s); }
      else {
        ReadyAt(s, s1, c);
        if HasTarget(s, c) { TargetElsewhere(s, s1, c); }
        if s.jobs[c].kind == FragmentPiece { DataAssignPiece(s1, c); } else { DataAssignClosing(s1, c); }
      }
    } else if s.dedupq != [] {
      DataDeduplicate(s);
    } else {
      DataRead(s, t);
    }
  }

  lemma ControlParts(s: State)
    requires Control(s)
    ensures Shape(s) && Links(s) && OneWriter(s) && |s.chunks| == |s.jobs|
  {
    hide Queues, Sleepers, Links;
  }

  lemma TargetElsewhere(s: State, s1: State, c: nat)
    requires s1 == s.(assignq := s1.assignq, writeq := s1.writeq) && HasTarget(s, c)
    ensures HasTarget(s1, c)
  {
  }

  lemma EndKeepsData(s: State, t: nat)
    requires Control(s) && Data(s) && FlushersOnly(s) && t in s.threads && s.threads[t].Busy? && SafeEnd(s, s.threads[t].chunk)
    ensures Data(DoEnd(s, t))
  {
    var c := s.threads[t].chunk;
    HeldBy(s, t);
    assert OneWriter(s);
    assert Shape(s) && Links(s);
    hide Data, Shape, Links, Control, OneWriter;
    if s.chunks[c].state == NONE {
      DataEndRead(s, t, c);
    } else if s.chunks[c].state == ASSIGNED {
      if s.jobs[c].kind == FullBlock { DataEndCompressFull(s, t, c); } else { DataEndCompressPiece(s, t, c); }
    } else {
      if s.jobs[c].kind == FullBlock { DataEndWriteFull(s, t, c); } else { DataEndWritePiece(s, t, c); }
    }
  }

  lemma KeepsData(s: State, step: Step)
    requires Control(s) && Data(s) && FlushersOnly(s) && Enabled(s, step) && Safe(s, step)
    ensures Data(Apply(s, step))
  {
    hide Control, Data, SafeWork, SafeEnd, FlushersOnly, DoWork, DoEnd, Enqueue, MayWake;
    match step
    case Work(t) => WorkKeepsData(s, t);
    case End(t) => EndKeepsData(s, t);
    case Submit(job, woken) => DataEnqueue(s, job, woken);
    case Seal(woken, also) =>
      var s1 := Enqueue(s, Job(ClosingPiece, []), woken);
      DataEnqueue(s, Job(ClosingPiece, []), woken);
      DataElsewhere(s1, Apply(s, step));
    case _ => DataElsewhere(s, Apply(s, step));
  }
}
