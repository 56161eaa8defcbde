/** Every step keeps the placement of the pieces, the contents of the blocks, and the image as they should be. */
module PipelineData {
  import opened Bytes
  import opened Images
  import opened SequentialLayout
  import opened Pipeline
  import opened PipelineInvariant
  import opened PipelineControl

  // ---------------------------------------------------------------- placement

  /** Nothing that placement depends on has changed. */
  ghost predicate SamePlacement(s: State, s': State) {
    && s'.options == s.options && s'.jobs == s.jobs && s'.frontier == s.frontier
    && |s'.chunks| == |s.chunks| == |s.jobs| && |s'.frags| == |s.frags|
    && (forall x :: 0 <= x < |s.chunks| ==>
          s'.chunks[x].flush == s.chunks[x].flush && s'.chunks[x].block == s.chunks[x].block && s'.chunks[x].offset == s.chunks[x].offset)
    && (forall k :: 0 <= k < |s.frags| ==> s'.frags[k].size == s.frags[k].size && s'.frags[k].pieces == s.frags[k].pieces)
  }

  /** The placement of one chunk depends on the jobs before it and on whether it has been assigned. */
  lemma PlacedStays(s: State, s': State, x: nat)
    requires x < |s.chunks| == |s.jobs| && |s'.chunks| == |s'.jobs| && s'.options == s.options && s.jobs <= s'.jobs
    requires s'.chunks[x].flush == s.chunks[x].flush && s'.chunks[x].block == s.chunks[x].block && s'.chunks[x].offset == s.chunks[x].offset
    requires s.jobs[x].kind != FullBlock ==> (x < s.frontier <==> x < s'.frontier)
    requires Placed(s, x)
    ensures Placed(s', x)
  {
    hide Fragments, Flushes;
    assert s'.jobs[..x] == s.jobs[..x] && s'.jobs[..x + 1] == s.jobs[..x + 1];
  }

  lemma PlacementStays(s: State, s': State)
    requires |s.chunks| == |s.jobs| && s.frontier <= |s.jobs| && Placement(s) && SamePlacement(s, s')
    ensures Placement(s')
  {
    hide Fragments, Placed;
    forall c | 0 <= c < |s'.jobs|
      ensures Placed(s', c)
    {
      PlacedStays(s, s', c);
    }
    forall k | 0 <= k < |s'.frags|
      ensures BlockFilled(s', k, FragmentsAt(s', s'.frontier)[k]) && PiecesIn(s', k)
    {
      assert BlockFilled(s, k, FragmentsAt(s, s.frontier)[k]) && PiecesIn(s, k);
    }
  }

  lemma PieceDataExtends(jobs: seq<Job>, job: Job, pieces: seq<nat>)
    requires forall i :: 0 <= i < |pieces| ==> pieces[i] < |jobs|
    ensures PieceData(jobs + [job], pieces) == PieceData(jobs, pieces)
  {
  }

  lemma PlacementEnqueue(s: State, job: Job, woken: Option<nat>)
    requires |s.chunks| == |s.jobs| && s.frontier <= |s.jobs| && Placement(s)
    requires s.lastPiece.Some? ==> s.lastPiece.value < |s.chunks|
    ensures Placement(Enqueue(s, job, woken))
  {
    hide Fragments, Flushes;
    var s' := Enqueue(s, job, woken);
    assert s'.jobs[..s.frontier] == s.jobs[..s.frontier];
    forall c | 0 <= c < |s'.jobs|
      ensures Placed(s', c)
    {
      if c < |s.jobs| { PlacedStays(s, s', c); }
    }
    forall k | 0 <= k < |s'.frags|
      ensures BlockFilled(s', k, FragmentsAt(s', s'.frontier)[k]) && PiecesIn(s', k)
    {
      assert BlockFilled(s, k, FragmentsAt(s, s.frontier)[k]) && PiecesIn(s, k);
      PieceDataExtends(s.jobs, job, s.frags[k].pieces);
    }
  }

  /** The block a piece writes out is the last one there was before it. */
  lemma TargetIsLast(s: State, c: nat)
    requires Shape(s) && Links(s) && Placement(s) && c < |s.jobs| && s.jobs[c].kind != FullBlock
    requires s.chunks[c].prevPiece.Some? && PreviousAssigned(s, c)
    ensures FragmentsAt(s, c) != [] && HasTarget(s, c) && Target(s, c) == |FragmentsAt(s, c)| - 1
  {
    hide Fragments, Flushes;
    var p := s.chunks[c].prevPiece.value;
    assert LinkTo(s.jobs, s.chunks[c].prevPiece, c);
    assert s.jobs[p].kind == FragmentPiece && p < s.frontier;
    assert Placed(s, p);
    FragmentsGap(s.options.blockSize, s.jobs, p + 1, c);
    FragmentsGrow(s.options.blockSize, s.jobs, p + 1, s.frontier);
  }

  /** Without a piece before it there is no block either. */
  lemma NoBlocksBefore(s: State, c: nat)
    requires Shape(s) && Links(s) && c < |s.jobs| && s.jobs[c].kind != FullBlock && s.chunks[c].prevPiece == None
    ensures FragmentsAt(s, c) == []
  {
    assert LinkTo(s.jobs, s.chunks[c].prevPiece, c);
    FragmentsGap(s.options.blockSize, s.jobs, 0, c);
  }

  /** At an assignable piece the blocks are those of everything before it. */
  lemma BlocksAt(s: State, c: nat)
    requires s.frontier <= c < |s.jobs| && NoPieces(s.jobs, s.frontier, c)
    ensures FragmentsAt(s, c) == FragmentsAt(s, s.frontier)
  {
    FragmentsGap(s.options.blockSize, s.jobs, s.frontier, c);
  }

  lemma PieceDataSnoc(jobs: seq<Job>, pieces: seq<nat>, c: nat)
    requires c < |jobs|
    ensures PieceData(jobs, pieces + [c]) == PieceData(jobs, pieces) + jobs[c].data
  {
    assert Front(pieces + [c]) == pieces;
  }

  /** Ready to be assigned: everything before `c` has been. */
  ghost predicate ReadyPiece(s: State, c: nat) {
    && |s.chunks| == |s.jobs| && Shape(s) && Links(s) && Placement(s)
    && c < |s.jobs| && s.jobs[c].kind != FullBlock
    && s.chunks[c].state == DEDUPLICATED && PreviousAssigned(s, c)
    && s.frontier <= c && NoPieces(s.jobs, s.frontier, c)
  }

  lemma MustFlushIsOverflow(s: State, c: nat)
    requires ReadyPiece(s, c)
    ensures s.chunks[c].prevPiece.Some? <==> FragmentsAt(s, c) != []
    ensures s.chunks[c].prevPiece.Some? ==> HasTarget(s, c) && Target(s, c) == |s.frags| - 1
    ensures MustFlush(s, c) <==> Overflows(s.options.blockSize, FragmentsAt(s, c), s.jobs[c].data)
    ensures |s.frags| == |FragmentsAt(s, c)|
  {
    hide Fragments, Flushes;
    BlocksAt(s, c);
    if s.chunks[c].prevPiece.Some? { TargetIsLast(s, c); } else { NoBlocksBefore(s, c); }
  }

  /** `s'` is `s` with piece `c` put where the sequential packing puts it. */
  ghost predicate PutWell(s: State, s': State, c: nat) {
    && |s.chunks| == |s.jobs| && c < |s.jobs|
    && |s'.chunks| == |s.chunks| && s'.jobs == s.jobs && s'.options == s.options
    && (forall x :: 0 <= x < |s.chunks| && x != c ==> s'.chunks[x] == s.chunks[x])
    && var next := FragmentsAt(s, c + 1);
    && next != [] && |s'.frags| == |next|
    && s'.chunks[c] == s.chunks[c].(flush := FlushesAt(s, c), block := Some(|next| - 1), offset := |Last(next)| - |s.jobs[c].data|)
    && (forall k :: 0 <= k < |s'.frags| ==> BlockFilled(s', k, next[k]))
    && (forall k :: 0 <= k < |s'.frags| - 1 ==> k < |s.frags| && s'.frags[k] == s.frags[k])
    && (|| (Last(s'.frags).pieces == [c] && Last(s'.frags).dst == EMPTY_BLOCK && |s.frags| == |next| - 1)
        || (|s.frags| == |next| && Last(s'.frags).pieces == Last(s.frags).pieces + [c] && Last(s'.frags).dst == Last(s.frags).dst))
    && (FlushesAt(s, c) ==> |s.frags| == |next| - 1)
  }

  /** Piece `c` put behind the others of block `k`. */
  ghost predicate JoinedTo(s: State, p: State, c: nat, k: nat)
    requires c < |s.chunks| == |s.jobs| && k < |s.frags|
  {
    && p.jobs == s.jobs && p.options == s.options
    && p.frags == s.frags[k := FragmentBlock(s.frags[k].size + |s.jobs[c].data|, s.frags[k].pieces + [c], s.frags[k].dst)]
    && p.chunks == s.chunks[c := s.chunks[c].(flush := false, block := Some(k), offset := s.frags[k].size)]
  }

  /** Piece `c` put into a new block. */
  ghost predicate Opened(s: State, p: State, c: nat, flush: bool)
    requires c < |s.chunks| == |s.jobs|
  {
    && p.jobs == s.jobs && p.options == s.options
    && p.frags == s.frags + [FragmentBlock(|s.jobs[c].data|, [c], EMPTY_BLOCK)]
    && p.chunks == s.chunks[c := s.chunks[c].(flush := flush, block := Some(|s.frags|), offset := 0)]
  }

  lemma PlacePieceJoins(s: State, c: nat)
    requires c < |s.chunks| == |s.jobs| && s.chunks[c].prevPiece.Some? && HasTarget(s, c) && !MustFlush(s, c)
    ensures JoinedTo(s, PlacePiece(s, c), c, Target(s, c))
  {
    hide MustFlush;
  }

  lemma PlacePieceOpens(s: State, c: nat)
    requires c < |s.chunks| == |s.jobs| && (s.chunks[c].prevPiece.Some? ==> HasTarget(s, c) && MustFlush(s, c))
    ensures Opened(s, PlacePiece(s, c), c, s.chunks[c].prevPiece.Some?)
  {
    var added := FragmentBlock(0 + |s.jobs[c].data|, [] + [c], EMPTY_BLOCK);
    assert (s.frags + [FragmentBlock(0, [], EMPTY_BLOCK)])[|s.frags| := added] == s.frags + [added];
    assert [] + [c] == [c];
  }

  /** What the packing does with the same piece. */
  ghost predicate PacksTo(s: State, c: nat, joins: bool) {
    && |s.chunks| == |s.jobs| && c < |s.jobs| && s.jobs[c].kind == FragmentPiece
    && |s.frags| == |FragmentsAt(s, c)|
    && (forall k :: 0 <= k < |s.frags| ==> BlockFilled(s, k, FragmentsAt(s, c)[k]))
    && (joins ==> s.frags != [] && !FlushesAt(s, c) && FragmentsAt(s, c + 1) == Front(FragmentsAt(s, c)) + [Last(FragmentsAt(s, c)) + s.jobs[c].data])
    && (!joins ==> FragmentsAt(s, c + 1) == FragmentsAt(s, c) + [s.jobs[c].data])
  }

  lemma PiecePacks(s: State, c: nat)
    requires ReadyPiece(s, c) && s.jobs[c].kind == FragmentPiece
    requires s.chunks[c].prevPiece.Some? ==> HasTarget(s, c)
    ensures PacksTo(s, c, s.chunks[c].prevPiece.Some? && !MustFlush(s, c))
    ensures FlushesAt(s, c) <==> MustFlush(s, c)
    ensures s.chunks[c].prevPiece.Some? ==> Target(s, c) == |s.frags| - 1
  {
    MustFlushIsOverflow(s, c);
    FragmentsNext(s, c);
    hide Fragments, Flushes, MustFlush, HasTarget, FragmentsAt, FlushesAt;
    forall k | 0 <= k < |s.frags|
      ensures BlockFilled(s, k, FragmentsAt(s, c)[k])
    {
      FilledAt(s, c, k);
    }
  }

  lemma PutWellJoining(s: State, p: State, c: nat)
    requires PacksTo(s, c, true) && JoinedTo(s, p, c, |s.frags| - 1)
    ensures PutWell(s, p, c)
  {
    hide FragmentsAt, FlushesAt;
    var before, next := FragmentsAt(s, c), FragmentsAt(s, c + 1);
    assert BlockFilled(s, |s.frags| - 1, Last(before));
    PieceDataSnoc(s.jobs, Last(s.frags).pieces, c);
    forall i | 0 <= i < |p.frags|
      ensures BlockFilled(p, i, next[i])
    {
      assert BlockFilled(s, i, before[i]);
    }
  }

  lemma PutWellOpening(s: State, p: State, c: nat)
    requires PacksTo(s, c, false) && Opened(s, p, c, FlushesAt(s, c))
    ensures PutWell(s, p, c)
  {
    hide FragmentsAt, FlushesAt;
    var before, next := FragmentsAt(s, c), FragmentsAt(s, c + 1);
    PieceDataSnoc(s.jobs, [], c);
    assert [] + [c] == [c];
    forall i | 0 <= i < |p.frags|
      ensures BlockFilled(p, i, next[i])
    {
      if i < |s.frags| { assert BlockFilled(s, i, before[i]); }
    }
  }

  lemma PlacedPieceIsPutWell(s: State, c: nat)
    requires ReadyPiece(s, c) && s.jobs[c].kind == FragmentPiece
    requires s.chunks[c].prevPiece.Some? ==> HasTarget(s, c)
    ensures PutWell(s, PlacePiece(s, c), c)
  {
    PiecePacks(s, c);
    if s.chunks[c].prevPiece.Some? && !MustFlush(s, c) {
      PlacePieceJoins(s, c);
      hide PutWell, PacksTo, JoinedTo, PlacePiece, ReadyPiece;
      PutWellJoining(s, PlacePiece(s, c), c);
    } else {
      PlacePieceOpens(s, c);
      hide PutWell, PacksTo, Opened, PlacePiece, ReadyPiece;
      PutWellOpening(s, PlacePiece(s, c), c);
    }
  }

  lemma FilledAt(s: State, c: nat, k: nat)
    requires ReadyPiece(s, c) && k < |s.frags|
    ensures |s.frags| == |FragmentsAt(s, c)| && BlockFilled(s, k, FragmentsAt(s, c)[k])
  {
    BlocksAt(s, c);
    hide Fragments, Flushes, PiecesIn, BlockFilled;
  }

  lemma FragmentsNext(s: State, c: nat)
    requires c < |s.jobs|
    ensures FragmentsAt(s, c + 1) == Place(s.options.blockSize, FragmentsAt(s, c), s.jobs[c])
    ensures s.jobs[c].kind == FragmentPiece ==> FlushesAt(s, c) == Overflows(s.options.blockSize, FragmentsAt(s, c), s.jobs[c].data)
    ensures s.jobs[c].kind == ClosingPiece ==> FlushesAt(s, c) == (FragmentsAt(s, c) != [])
  {
    PrefixFront(s.jobs, c + 1);
  }

  lemma AllPlaced(s: State, s': State, c: nat)
    requires PutWell(s, s', c) && s.frontier <= c && NoPieces(s.jobs, s.frontier, c) && s'.frontier == c + 1
    requires s.jobs[c].kind == FragmentPiece && forall x :: 0 <= x < |s.jobs| ==> Placed(s, x)
    ensures forall x :: 0 <= x < |s'.jobs| ==> Placed(s', x)
  {
    SameFragments(s, s', c);
    SameFragments(s, s', c + 1);
    hide FragmentsAt, FlushesAt, Fragments, Flushes;
    forall x | 0 <= x < |s'.jobs|
      ensures Placed(s', x)
    {
      assert Placed(s, x);
      if x != c { PlacedStays(s, s', x); } else { PlacedNow(s', c); }
    }
  }

  lemma AllPiecesIn(s: State, s': State, c: nat)
    requires PutWell(s, s', c) && s.frontier <= c && s'.frontier == c + 1
    requires s.jobs[c].kind == FragmentPiece && forall k :: 0 <= k < |s.frags| ==> PiecesIn(s, k)
    ensures forall k :: 0 <= k < |s'.frags| ==> PiecesIn(s', k)
  {
    hide FragmentsAt, FlushesAt, BlockFilled;
    forall k | 0 <= k < |s'.frags|
      ensures PiecesIn(s', k)
    {
      if k < |s.frags| {
        assert PiecesIn(s, k);
        PiecesGrow(s, s', k, c);
      } else {
        PiecesOne(s', k, c);
      }
    }
  }

  lemma PlacementPut(s: State, p: State, s': State, c: nat)
    requires ReadyPiece(s, c) && s.jobs[c].kind == FragmentPiece && PutWell(s, p, c) && s' == p.(frontier := c + 1)
    ensures Placement(s')
  {
    assert PutWell(s, s', c) by { FilledSame(s, p, s', c); }
    AllPlaced(s, s', c);
    forall k | 0 <= k < |s.frags| ensures PiecesIn(s, k) { OldBlocks(s, k); }
    AllPiecesIn(s, s', c);
    SameFragments(s, s', c + 1);
    hide FragmentsAt, FlushesAt, Fragments, Flushes, Placed, PiecesIn, ReadyPiece;
  }

  lemma FilledSame(s: State, p: State, s': State, c: nat)
    requires PutWell(s, p, c) && s' == p.(frontier := s'.frontier)
    ensures PutWell(s, s', c)
  {
    hide FragmentsAt, FlushesAt;
    var next := FragmentsAt(s, c + 1);
    forall k | 0 <= k < |s'.frags|
      ensures BlockFilled(s', k, next[k])
    {
      assert BlockFilled(p, k, next[k]);
    }
  }

  lemma OldBlocks(s: State, k: nat)
    requires |s.chunks| == |s.jobs| && s.frontier <= |s.jobs| && Placement(s) && k < |s.frags|
    ensures PiecesIn(s, k) && |s.frags| == |FragmentsAt(s, s.frontier)| && BlockFilled(s, k, FragmentsAt(s, s.frontier)[k])
  {
    hide PiecesIn, Fragments;
  }

  lemma SameFragments(s: State, s': State, c: nat)
    requires c <= |s.jobs| && s'.jobs == s.jobs && s'.options == s.options
    ensures FragmentsAt(s', c) == FragmentsAt(s, c)
    ensures c < |s.jobs| ==> FlushesAt(s', c) == FlushesAt(s, c)
  {
  }

  lemma PlacedNow(s: State, c: nat)
    requires c < |s.jobs| == |s.chunks| && s.jobs[c].kind == FragmentPiece && c < s.frontier
    requires FragmentsAt(s, c + 1) != []
    requires s.chunks[c].flush == FlushesAt(s, c) && s.chunks[c].block == Some(|FragmentsAt(s, c + 1)| - 1)
    requires s.chunks[c].offset == |Last(FragmentsAt(s, c + 1))| - |s.jobs[c].data|
    ensures Placed(s, c)
  {
  }

  lemma PiecesGrow(s: State, s': State, k: nat, c: nat)
    requires k < |s.frags| && |s.chunks| == |s.jobs| && s.frontier <= c < |s.jobs| && PiecesIn(s, k)
    requires k < |s'.frags| && |s'.chunks| == |s'.jobs| && s'.jobs == s.jobs && s'.frontier == c + 1
    requires forall x :: 0 <= x < |s.chunks| && x != c ==> s'.chunks[x] == s.chunks[x]
    requires s'.frags[k].pieces == s.frags[k].pieces
          || (s'.frags[k].pieces == s.frags[k].pieces + [c] && s.jobs[c].kind == FragmentPiece && s'.chunks[c].block == Some(k))
    ensures PiecesIn(s', k)
  {
  }

  lemma PiecesOne(s: State, k: nat, c: nat)
    requires k < |s.frags| && |s.chunks| == |s.jobs| && c < s.frontier <= |s.jobs|
    requires s.frags[k].pieces == [c] && s.jobs[c].kind == FragmentPiece && s.chunks[c].block == Some(k)
    ensures PiecesIn(s, k)
  {
  }

  lemma PlacementAssignClosing(s: State, c: nat)
    requires ReadyPiece(s, c) && s.jobs[c].kind == ClosingPiece
    ensures Placement(SetChunk(s, c, s.chunks[c].(flush := s.chunks[c].prevPiece.Some?)).(frontier := c + 1))
  {
    hide Placed, Shape, Links, FragmentsAt, FlushesAt, BlockFilled, PiecesIn;
    var s' := SetChunk(s, c, s.chunks[c].(flush := s.chunks[c].prevPiece.Some?)).(frontier := c + 1);
    ClosingFragments(s, s', c);
    forall x | 0 <= x < |s'.jobs|
      ensures Placed(s', x)
    {
      if x == c { ClosingPlaced(s, s', c); } else { ClosingOthers(s, s', c, x); }
    }
    forall k | 0 <= k < |s'.frags|
      ensures BlockFilled(s', k, FragmentsAt(s', s'.frontier)[k]) && PiecesIn(s', k)
    {
      BlockStays(s, s', k);
    }
  }

  lemma ClosingPlaced(s: State, s': State, c: nat)
    requires ReadyPiece(s, c) && s.jobs[c].kind == ClosingPiece
    requires s' == SetChunk(s, c, s.chunks[c].(flush := s.chunks[c].prevPiece.Some?)).(frontier := c + 1)
    requires FlushesAt(s', c) == s.chunks[c].prevPiece.Some?
    ensures Placed(s', c)
  {
    hide FragmentsAt, FlushesAt, Shape, Links, PiecesIn, BlockFilled;
    assert Placed(s, c);
  }

  lemma ClosingOthers(s: State, s': State, c: nat, x: nat)
    requires ReadyPiece(s, c) && x < |s.jobs| && x != c
    requires s' == SetChunk(s, c, s.chunks[c].(flush := s.chunks[c].prevPiece.Some?)).(frontier := c + 1)
    ensures Placed(s', x)
  {
    hide FragmentsAt, FlushesAt, Shape, Links, PiecesIn, BlockFilled, Placed;
    PlacedStays(s, s', x);
  }

  lemma BlockStays(s: State, s': State, k: nat)
    requires |s.chunks| == |s.jobs| == |s'.chunks| && s'.jobs == s.jobs && s.frontier <= s'.frontier <= |s.jobs| && s'.frags == s.frags
    requires forall x :: 0 <= x < |s.chunks| ==> s'.chunks[x].block == s.chunks[x].block
    requires Placement(s) && k < |s.frags| && FragmentsAt(s', s'.frontier) == FragmentsAt(s, s.frontier)
    ensures k < |FragmentsAt(s', s'.frontier)| && BlockFilled(s', k, FragmentsAt(s', s'.frontier)[k]) && PiecesIn(s', k)
  {
    hide FragmentsAt;
    OldBlocks(s, k);
    hide Placement;
  }

  lemma ClosingFragments(s: State, s': State, c: nat)
    requires ReadyPiece(s, c) && s.jobs[c].kind == ClosingPiece && s'.jobs == s.jobs && s'.options == s.options
    ensures FragmentsAt(s', c + 1) == FragmentsAt(s, s.frontier)
    ensures FlushesAt(s', c) == s.chunks[c].prevPiece.Some?
  {
    MustFlushIsOverflow(s, c);
    FragmentsNext(s, c);
    BlocksAt(s, c);
    FragmentsGap(s.options.blockSize, s.jobs, s.frontier, c + 1);
    hide Placement, Shape, Links, MustFlush, HasTarget;
    SameFragments(s, s', c);
    SameFragments(s, s', c + 1);
  }

  // ---------------------------------------------------------------- contents: what other chunks' steps leave alone

  /** The fixed part of a state, to which jobs may be added. */
  ghost predicate SameInput(s: State, s': State) {
    && s'.options == s.options && s'.base == s.base && s.jobs <= s'.jobs
    && |s.chunks| == |s.jobs| && |s'.chunks| == |s'.jobs|
  }

  lemma SameOutput(s: State, s': State, x: nat)
    requires SameInput(s, s') && x <= |s.jobs|
    ensures OffsetAt(s', x) == OffsetAt(s, x) && FragmentsAt(s', x) == FragmentsAt(s, x)
    ensures x < |s.jobs| ==> EmittedAt(s', x) == EmittedAt(s, x) && EmittedBytesAt(s', x) == EmittedBytesAt(s, x) && FlushesAt(s', x) == FlushesAt(s, x)
  {
    assert s'.jobs[..x] == s.jobs[..x];
  }

  lemma FullStays(s: State, s': State, x: nat)
    requires SameInput(s, s') && x < |s.jobs| && s.jobs[x].kind == FullBlock && FullContents(s, x)
    requires s'.chunks[x].state == s.chunks[x].state && s'.chunks[x].worker == s.chunks[x].worker
    requires s'.chunks[x].cached == s.chunks[x].cached && s'.chunks[x].dst == s.chunks[x].dst
    ensures FullContents(s', x)
  {
    SameOutput(s, s', x);
    hide OffsetAt, EmittedAt;
  }

  lemma FlushStays(s: State, s': State, x: nat)
    requires SameInput(s, s') && x < |s.jobs| && FlushContents(s, x)
    requires s'.chunks[x].state == s.chunks[x].state && s'.chunks[x].worker == s.chunks[x].worker
    requires |s.frags| <= |s'.frags|
    requires s'.frags[|FragmentsAt(s, x)| - 1].dst == s.frags[|FragmentsAt(s, x)| - 1].dst
    ensures FlushContents(s', x)
  {
    SameOutput(s, s', x);
    hide OffsetAt, EmittedAt, FragmentsAt;
  }

  /** Different chunks write out different blocks. */
  lemma TargetsDiffer(s: State, x: nat, c: nat)
    requires Shape(s) && Placement(s) && x < |s.jobs| && c < |s.jobs| && x != c
    requires s.chunks[x].flush && s.chunks[c].flush
    ensures |FragmentsAt(s, x)| != |FragmentsAt(s, c)|
  {
    hide Fragments, Flushes;
    assert Placed(s, x) && Placed(s, c);
    if x < c { FlushedStays(s.options.blockSize, s.jobs, x, c); } else { FlushedStays(s.options.blockSize, s.jobs, c, x); }
  }

  /** A step that touches no fragment block and, of the chunks, only `c`. */
  ghost predicate QuietElsewhere(s: State, s': State, c: nat) {
    && SameInput(s, s') && s'.jobs == s.jobs && s'.frags == s.frags && s'.mayAdd == s.mayAdd && s'.frontier == s.frontier
    && c < |s.jobs|
    && (forall x :: 0 <= x < |s.chunks| && x != c ==> s'.chunks[x] == s.chunks[x])
    && s'.chunks[c].flush == s.chunks[c].flush
  }

  lemma ContentsQuiet(s: State, s': State, c: nat)
    requires |s.chunks| == |s.jobs| && Contents(s) && QuietElsewhere(s, s', c)
    requires s.jobs[c].kind == FullBlock ==> FullContents(s', c)
    requires s.jobs[c].kind == FragmentPiece ==> PieceContents(s', c)
    requires s.chunks[c].flush ==> FlushContents(s', c)
    ensures Contents(s')
  {
    hide FullContents, PieceContents, FlushContents;
    forall x | 0 <= x < |s'.jobs| && s'.jobs[x].kind == FullBlock ensures FullContents(s', x) {
      if x != c { FullStays(s, s', x); }
    }
    forall x | 0 <= x < |s'.jobs| && s'.jobs[x].kind == FragmentPiece ensures PieceContents(s', x) {
      if x != c { QuietPiece(s, s', x); }
    }
    forall x | 0 <= x < |s'.jobs| && s'.chunks[x].flush ensures FlushContents(s', x) {
      if x != c { QuietFlush(s, s', x); }
    }
  }

  lemma QuietPiece(s: State, s': State, x: nat)
    requires SameInput(s, s') && s'.frags == s.frags && x < |s.jobs| && s.jobs[x].kind == FragmentPiece && PieceContents(s, x)
    requires s'.chunks[x].state == s.chunks[x].state && s'.chunks[x].block == s.chunks[x].block && s'.chunks[x].cached == s.chunks[x].cached
    ensures PieceContents(s', x)
  {
  }

  lemma QuietFlush(s: State, s': State, x: nat)
    requires SameInput(s, s') && s'.frags == s.frags && x < |s.jobs| && FlushContents(s, x)
    requires s'.chunks[x].state == s.chunks[x].state && s'.chunks[x].worker == s.chunks[x].worker
    ensures FlushContents(s', x)
  {
    FlushStays(s, s', x);
  }

  /** A step that, of the fragment blocks, changes the destination of the one written out by `c`; pieces may
      lose their cached data once that block is compressed. */
  ghost predicate OneBlock(s: State, s': State, c: nat) {
    && SameInput(s, s') && s'.jobs == s.jobs && s'.mayAdd == s.mayAdd && s'.frontier == s.frontier
    && c < |s.jobs| && s.chunks[c].flush && |s'.frags| == |s.frags|
    && var k := |FragmentsAt(s, c)| - 1;
    && 0 <= k < |s.frags| && s'.frags[k].dst.size > 0
    && (forall i :: 0 <= i < |s.frags| && i != k ==> s'.frags[i] == s.frags[i])
    && (forall x :: 0 <= x < |s.chunks| ==> s'.chunks[x].flush == s.chunks[x].flush && s'.chunks[x].block == s.chunks[x].block && s'.chunks[x].dst == s.chunks[x].dst)
    && (forall x :: 0 <= x < |s.chunks| && x != c ==> s'.chunks[x].state == s.chunks[x].state && s'.chunks[x].worker == s.chunks[x].worker)
    && (forall x :: 0 <= x < |s.chunks| && s.chunks[x].block != Some(k) ==> s'.chunks[x].cached == s.chunks[x].cached)
  }

  lemma ContentsOneBlock(s: State, s': State, c: nat)
    requires Shape(s) && Placement(s) && Contents(s) && OneBlock(s, s', c) && FlushContents(s', c)
    requires s'.chunks[c].state >= ASSIGNED
    ensures Contents(s')
  {
    assert Placed(s, c);
    hide FullContents, PieceContents, FlushContents, FragmentsAt, FlushesAt;
    forall x | 0 <= x < |s'.jobs| && s'.jobs[x].kind == FullBlock ensures FullContents(s', x) {
      assert Placed(s, x);
      FullStays(s, s', x);
    }
    forall x | 0 <= x < |s'.jobs| && s'.jobs[x].kind == FragmentPiece ensures PieceContents(s', x) {
      assert Placed(s, x);
      OneBlockPiece(s, s', c, x);
    }
    forall x | 0 <= x < |s'.jobs| && s'.chunks[x].flush ensures FlushContents(s', x) {
      if x != c {
        TargetsDiffer(s, x, c);
        OneBlockFlush(s, s', c, x);
      }
    }
    LastUntouched(s, s', c);
  }

  lemma OneBlockPiece(s: State, s': State, c: nat, x: nat)
    requires OneBlock(s, s', c) && x < |s.jobs| && s.jobs[x].kind == FragmentPiece && PieceContents(s, x)
    requires s'.chunks[c].state >= ASSIGNED && s.chunks[c].state >= ASSIGNED
    requires s.chunks[x].block.Some? ==> s.chunks[x].state >= ASSIGNED
    ensures PieceContents(s', x)
  {
  }

  lemma OneBlockFlush(s: State, s': State, c: nat, x: nat)
    requires OneBlock(s, s', c) && x < |s.jobs| && x != c && FlushContents(s, x)
    requires |FragmentsAt(s, x)| != |FragmentsAt(s, c)|
    ensures FlushContents(s', x)
  {
    FlushStays(s, s', x);
  }

  /** The block written out by `c` is not the open one, unless the image is being closed. */
  lemma LastUntouched(s: State, s': State, c: nat)
    requires Shape(s) && Placement(s) && Contents(s) && OneBlock(s, s', c)
    ensures (s'.mayAdd || s'.frontier < |s'.jobs|) && s'.frags != [] ==> Last(s'.frags).dst == EMPTY_BLOCK
  {
    hide Fragments, Flushes, FullContents, PieceContents, FlushContents, PiecesIn, BlockFilled;
    assert Placed(s, c);
    if s.jobs[c].kind == FragmentPiece {
      FlushedStays(s.options.blockSize, s.jobs, c, s.frontier);
    }
  }

  // ---------------------------------------------------------------- the image, when it is not touched

  ghost predicate SameImage(s: State, s': State) {
    && SameInput(s, s') && s'.file0 == s.file0 && s'.log0 == s.log0
    && s'.finished == s.finished && s'.size == s.size && s'.file == s.file && s'.log == s.log
  }

  lemma ImageStays(s: State, s': State)
    requires SameImage(s, s') && s.finished <= |s.jobs| && ImageSoFar(s)
    requires Writing(s') <==> Writing(s)
    ensures ImageSoFar(s')
  {
    SameOutput(s, s', s.finished);
    assert s'.jobs[..s.finished] == s.jobs[..s.finished];
    hide OffsetAt, EmittedBytesAt;
  }

  /** Placement, contents and image together. */
  ghost predicate Data(s: State) {
    && s.options.codec.Lawful() && |s.chunks| == |s.jobs| && s.finished <= |s.jobs| && s.frontier <= |s.jobs|
    && Placement(s) && Contents(s) && ImageSoFar(s)
  }

  /** A step on chunk `c` that touches neither the image nor a fragment block. */
  lemma DataQuiet(s: State, s': State, c: nat)
    requires Data(s) && QuietElsewhere(s, s', c) && SameImage(s, s')
    requires s'.chunks[c].block == s.chunks[c].block && s'.chunks[c].offset == s.chunks[c].offset
    requires s.jobs[c].kind == FullBlock ==> FullContents(s', c)
    requires s.jobs[c].kind == FragmentPiece ==> PieceContents(s', c)
    requires s.chunks[c].flush ==> FlushContents(s', c)
    requires Writing(s') <==> Writing(s)
    ensures Data(s')
  {
    hide Placement, Contents, ImageSoFar;
    PlacementStays(s, s');
    ContentsQuiet(s, s', c);
    ImageStays(s, s');
  }

  // ---------------------------------------------------------------- the steps, one by one

  /** What a chunk outside compression and writing holds. */
  lemma EarlyContents(s: State, s': State, c: nat)
    requires Data(s) && Shape(s) && QuietElsewhere(s, s', c)
    requires s.chunks[c].state <= ASSIGNED && s'.chunks[c].state <= ASSIGNED && s'.chunks[c].dst == s.chunks[c].dst
    requires s'.chunks[c].block == s.chunks[c].block
    requires READ <= s'.chunks[c].state ==> s'.chunks[c].cached == Some(s.jobs[c].data) || s'.chunks[c].cached == s.chunks[c].cached
    requires READ <= s'.chunks[c].state ==> READ <= s.chunks[c].state || s'.chunks[c].cached == Some(s.jobs[c].data)
    requires s.jobs[c].kind != FullBlock && s'.chunks[c].state >= ASSIGNED ==> s'.chunks[c].cached == s.chunks[c].cached
    requires s.jobs[c].kind != FullBlock ==> (s'.chunks[c].state >= ASSIGNED <==> s.chunks[c].state >= ASSIGNED)
    ensures s.jobs[c].kind == FullBlock ==> FullContents(s', c)
    ensures s.jobs[c].kind == FragmentPiece ==> PieceContents(s', c)
    ensures s.chunks[c].flush ==> FlushContents(s', c)
  {
    hide Fragments, Flushes, Emitted, Output;
    assert Placed(s, c);
    SameOutput(s, s', c);
    if s.chunks[c].flush { assert FlushContents(s, c); }
    if s.jobs[c].kind == FullBlock { assert FullContents(s, c); }
    if s.jobs[c].kind == FragmentPiece { assert PieceContents(s, c); }
  }

  lemma DataRead(s: State, t: nat)
    requires Data(s) && Shape(s) && s.readq != [] && s.readq[0] < |s.chunks| && s.chunks[s.readq[0]].state == NONE
    ensures Data(Read(s.(readq := s.readq[1..]), t, s.readq[0]))
  {
    hide Placement, Contents, ImageSoFar, FullContents, PieceContents, FlushContents, Shape, Writing;
    var c := s.readq[0];
    var s' := Read(s.(readq := s.readq[1..]), t, c);
    if s.jobs[c].kind == ClosingPiece { ClosingEarly(s, c); } else { EarlyContents(s, s', c); }
    NotWritable(s, s', c);
    DataQuiet(s, s', c);
  }

  /** A chunk that is not writable yet is not the one being written. */
  lemma NotWritable(s: State, s': State, c: nat)
    requires s'.finished == s.finished && |s'.chunks| == |s.chunks| && c < |s.chunks| && s.chunks[c].state < WRITABLE && s'.chunks[c].state < WRITABLE
    requires forall x :: 0 <= x < |s.chunks| && x != c ==> s'.chunks[x] == s.chunks[x]
    ensures Writing(s') <==> Writing(s)
  {
  }

  lemma ClosingEarly(s: State, c: nat)
    requires Data(s) && Shape(s) && c < |s.chunks| && s.jobs[c].kind != FullBlock && s.chunks[c].state < ASSIGNED
    ensures !s.chunks[c].flush
  {
    assert Placed(s, c);
  }

  lemma DataEndRead(s: State, t: nat, c: nat)
    requires Data(s) && Shape(s) && c < |s.chunks| && s.chunks[c].state == NONE
    ensures Data(EndRead(s, t, c))
  {
    hide Placement, Contents, ImageSoFar, FullContents, PieceContents, FlushContents;
    var s' := EndRead(s, t, c);
    EarlyContents(s, s', c);
    DataQuiet(s, s', c);
  }

  lemma DataDeduplicate(s: State)
    requires Data(s) && Shape(s) && s.dedupq != [] && s.dedupq[0] < |s.chunks| && s.chunks[s.dedupq[0]].state == READ
    ensures Data(Deduplicate(s.(dedupq := s.dedupq[1..]), s.dedupq[0]))
  {
    hide Placement, Contents, ImageSoFar, FullContents, PieceContents, FlushContents, PreviousAssigned;
    var c := s.dedupq[0];
    var s' := Deduplicate(s.(dedupq := s.dedupq[1..]), c);
    EarlyContents(s, s', c);
    DataQuiet(s, s', c);
  }

  lemma DataAssignFull(s: State)
    requires Data(s) && Shape(s) && s.assignq != [] && s.assignq[0] < |s.chunks|
    requires s.chunks[s.assignq[0]].state == DEDUPLICATED && s.jobs[s.assignq[0]].kind == FullBlock
    ensures Data(AssignFull(s.(assignq := s.assignq[1..]), s.assignq[0]))
  {
    hide Placement, Contents, ImageSoFar, FullContents, PieceContents, FlushContents;
    var c := s.assignq[0];
    var s' := AssignFull(s.(assignq := s.assignq[1..]), c);
    EarlyContents(s, s', c);
    DataQuiet(s, s', c);
  }

  lemma DataBeginCompress(s: State, t: nat)
    requires Data(s) && Shape(s) && s.compressq != [] && s.compressq[0] < |s.chunks| && s.chunks[s.compressq[0]].state == ASSIGNED
    ensures Data(BeginCompress(s.(compressq := s.compressq[1..]), t, s.compressq[0]))
  {
    hide Placement, Contents, ImageSoFar, FullContents, PieceContents, FlushContents;
    var c := s.compressq[0];
    var s' := BeginCompress(s.(compressq := s.compressq[1..]), t, c);
    EarlyContents(s, s', c);
    DataQuiet(s, s', c);
  }

  lemma DataEndCompressFull(s: State, t: nat, c: nat)
    requires Data(s) && Shape(s) && c < |s.chunks| && s.chunks[c].state == ASSIGNED && s.jobs[c].kind == FullBlock
    requires s.chunks[c].cached.Some?
    ensures Data(EndCompressFull(s, t, c))
  {
    hide Data, FullContents, PieceContents, FlushContents, Writing, EndCompressFull, Shape;
    var s' := EndCompressFull(s, t, c);
    EndCompressFullIs(s, t, c);
    DataQuiet(s, s', c);
  }

  /** The compressed block goes into the chunk; nothing else that counts changes. */
  lemma EndCompressFullIs(s: State, t: nat, c: nat)
    requires Data(s) && Shape(s) && c < |s.chunks| && s.chunks[c].state == ASSIGNED && s.jobs[c].kind == FullBlock
    requires s.chunks[c].cached.Some?
    ensures var s' := EndCompressFull(s, t, c);
            && QuietElsewhere(s, s', c) && SameImage(s, s') && FullContents(s', c) && !s.chunks[c].flush && (Writing(s') <==> Writing(s))
            && s'.chunks[c].block == s.chunks[c].block && s'.chunks[c].offset == s.chunks[c].offset
  {
    hide OffsetAt, StoreBlock, PieceContents, FlushContents, BlockFilled, PiecesIn;
    var s' := EndCompressFull(s, t, c);
    assert Placed(s, c) && FullContents(s, c);
    SameOutput(s, s', c);
  }

  lemma {:induction false} GatherIsPieceData(s: State, pieces: seq<nat>)
    requires |s.chunks| == |s.jobs| && AllCached(s, pieces)
    requires forall i :: 0 <= i < |pieces| ==> pieces[i] < |s.jobs| && s.chunks[pieces[i]].cached == Some(s.jobs[pieces[i]].data)
    ensures Gather(s, pieces) == PieceData(s.jobs, pieces)
  {
    if pieces != [] {
      GatherIsPieceData(s, Front(pieces));
    }
  }

  /** The block that flusher `c` writes out, as long as it is not compressed: complete, and still cached. */
  lemma BlockComplete(s: State, c: nat)
    requires Data(s) && Shape(s) && Links(s) && c < |s.jobs| && s.chunks[c].flush && s.chunks[c].state == ASSIGNED
    ensures HasTarget(s, c) && Target(s, c) == |FragmentsAt(s, c)| - 1 && FragmentsAt(s, c) != []
    ensures var b := s.frags[Target(s, c)];
            && b.dst == EMPTY_BLOCK && b.size == |Last(FragmentsAt(s, c))| > 0
            && PieceData(s.jobs, b.pieces) == Last(FragmentsAt(s, c))
            && forall i :: 0 <= i < |b.pieces| ==>
                 && b.pieces[i] < |s.jobs| && s.jobs[b.pieces[i]].kind == FragmentPiece
                 && s.chunks[b.pieces[i]].block == Some(Target(s, c))
                 && s.chunks[b.pieces[i]].cached == Some(s.jobs[b.pieces[i]].data)
  {
    hide Fragments, Flushes, Output, Emitted;
    FlusherTarget(s, c);
    var k := Target(s, c);
    FlushedFinal(s, c);
    OldBlocks(s, k);
    assert FlushContents(s, c);
    BlocksFit(s.options.blockSize, s.jobs[..c]);
    var b := s.frags[k];
    forall i | 0 <= i < |b.pieces|
      ensures b.pieces[i] < |s.jobs| && s.jobs[b.pieces[i]].kind == FragmentPiece
      ensures s.chunks[b.pieces[i]].block == Some(k) && s.chunks[b.pieces[i]].cached == Some(s.jobs[b.pieces[i]].data)
    {
      assert PieceContents(s, b.pieces[i]);
    }
  }

  lemma FlusherTarget(s: State, c: nat)
    requires Data(s) && Shape(s) && Links(s) && c < |s.jobs| && s.chunks[c].flush
    ensures HasTarget(s, c) && Target(s, c) == |FragmentsAt(s, c)| - 1 && FragmentsAt(s, c) != [] && s.jobs[c].kind != FullBlock
    ensures c < s.frontier
  {
    assert Placed(s, c);
    if s.chunks[c].prevPiece == None {
      NoBlocksBefore(s, c);
    }
    hide Fragments;
    assert LinkTo(s.jobs, s.chunks[c].prevPiece, c);
    TargetIsLast(s, c);
  }

  /** Once flushed, a block is the same for ever. */
  lemma FlushedFinal(s: State, c: nat)
    requires Shape(s) && Placement(s) && c < |s.jobs| && s.chunks[c].flush && FragmentsAt(s, c) != []
    ensures |s.frags| == |FragmentsAt(s, s.frontier)| >= |FragmentsAt(s, c)|
    ensures FragmentsAt(s, s.frontier)[|FragmentsAt(s, c)| - 1] == Last(FragmentsAt(s, c))
    ensures s.jobs[c].kind == FragmentPiece ==> |FragmentsAt(s, s.frontier)| > |FragmentsAt(s, c)|
  {
    hide Fragments, Flushes;
    assert Placed(s, c);
    if s.jobs[c].kind == FragmentPiece {
      FlushedStays(s.options.blockSize, s.jobs, c, s.frontier);
    } else {
      FragmentsGap(s.options.blockSize, s.jobs, c, s.frontier);
    }
  }

  /** The fragment block after compression. */
  ghost predicate JustCompressed(s: State, s': State, c: nat, k: nat, content: bytes)
    requires k < |s.frags|
  {
    && SameInput(s, s') && s'.jobs == s.jobs && s'.mayAdd == s.mayAdd && s'.frontier == s.frontier
    && s'.frags == s.frags[k := s.frags[k].(dst := Compressed(s.options.codec, s.options.compressFragments, content))]
    && OnlyReleased(s, s', c, s.frags[k].pieces)
  }

  /** Chunk `c` is writable, and the pieces have given up their cached data. */
  ghost predicate OnlyReleased(s: State, s': State, c: nat, pieces: seq<nat>) {
    && c < |s.jobs| == |s.chunks| == |s'.chunks|
    && s'.chunks[c].state == WRITABLE && s'.chunks[c].worker == None
    && (forall x :: 0 <= x < |s.chunks| ==>
          && s'.chunks[x].flush == s.chunks[x].flush && s'.chunks[x].block == s.chunks[x].block
          && s'.chunks[x].offset == s.chunks[x].offset && s'.chunks[x].dst == s.chunks[x].dst)
    && (forall x :: 0 <= x < |s.chunks| && x != c ==> s'.chunks[x].state == s.chunks[x].state && s'.chunks[x].worker == s.chunks[x].worker)
    && (forall x :: 0 <= x < |s.chunks| && x !in pieces ==> s'.chunks[x].cached == s.chunks[x].cached)
  }

  lemma EndCompressChunks(s: State, t: nat, c: nat)
    requires |s.chunks| == |s.jobs| && HasTarget(s, c) && AllCached(s, s.frags[Target(s, c)].pieces)
    ensures var released := Release(s.chunks, s.frags[Target(s, c)].pieces);
            |released| == |s.chunks| && EndCompressPiece(s, t, c).chunks == released[c := released[c].(state := WRITABLE, worker := None)]
  {
    hide Gather, Compressed, AllCached, Release;
    ReleaseOnlyData(s.chunks, s.frags[Target(s, c)].pieces);
  }

  lemma EndCompressReleases(s: State, t: nat, c: nat)
    requires |s.chunks| == |s.jobs| && HasTarget(s, c) && AllCached(s, s.frags[Target(s, c)].pieces)
    ensures OnlyReleased(s, EndCompressPiece(s, t, c), c, s.frags[Target(s, c)].pieces)
  {
    var pieces := s.frags[Target(s, c)].pieces;
    ReleaseOnlyData(s.chunks, pieces);
    var released := Release(s.chunks, pieces);
    EndCompressChunks(s, t, c);
    hide EndCompressPiece, Release, HasTarget, Target, AllCached;
  }

  lemma EndCompressFields(s: State, t: nat, c: nat)
    requires |s.chunks| == |s.jobs| && HasTarget(s, c) && AllCached(s, s.frags[Target(s, c)].pieces)
    ensures var s', k := EndCompressPiece(s, t, c), Target(s, c);
            && SameImage(s, s') && s'.jobs == s.jobs && s'.mayAdd == s.mayAdd && s'.frontier == s.frontier
            && s'.frags == s.frags[k := s.frags[k].(dst := Compressed(s.options.codec, s.options.compressFragments, Gather(s, s.frags[k].pieces)))]
  {
    hide Gather, Compressed, AllCached, TryWriteout, Release;
    var k := Target(s, c);
    var b := s.frags[k];
    assert |Release(s.chunks, b.pieces)| == |s.chunks| by { ReleaseOnlyData(s.chunks, b.pieces); }
    var dst := Compressed(s.options.codec, s.options.compressFragments, Gather(s, b.pieces));
    var s1 := s.(chunks := Release(s.chunks, b.pieces), frags := s.frags[k := b.(dst := dst)]);
    var s2 := SetChunk(s1, c, s1.chunks[c].(state := WRITABLE, worker := None));
    TryWriteoutQueues(s2, c);
  }

  lemma EndCompressPieceIs(s: State, t: nat, c: nat)
    requires |s.chunks| == |s.jobs| && HasTarget(s, c) && AllCached(s, s.frags[Target(s, c)].pieces)
    ensures JustCompressed(s, EndCompressPiece(s, t, c), c, Target(s, c), Gather(s, s.frags[Target(s, c)].pieces))
    ensures SameImage(s, EndCompressPiece(s, t, c))
  {
    EndCompressReleases(s, t, c);
    EndCompressFields(s, t, c);
    hide EndCompressPiece, Gather, Compressed, AllCached, OnlyReleased;
  }

  lemma FlushedNotEmpty(s: State, c: nat)
    requires Shape(s) && s.options.codec.Lawful() && c < |s.jobs| && FragmentsAt(s, c) != []
    ensures Last(FragmentsAt(s, c)) != []
    ensures |StoreBlock(s.options.codec, s.options.compressFragments, Last(FragmentsAt(s, c))).data| > 0
  {
    BlocksFit(s.options.blockSize, s.jobs[..c]);
    hide Fragments;
    StoredNotEmpty(s.options.codec, s.options.compressFragments, Last(FragmentsAt(s, c)));
  }

  lemma CompressedOneBlock(s: State, s': State, c: nat, k: nat)
    requires Shape(s) && s.options.codec.Lawful() && c < |s.jobs| == |s.chunks| && s.chunks[c].flush
    requires FragmentsAt(s, c) != [] && k == |FragmentsAt(s, c)| - 1 && k < |s.frags|
    requires JustCompressed(s, s', c, k, Last(FragmentsAt(s, c)))
    requires forall i :: 0 <= i < |s.frags[k].pieces| ==> s.frags[k].pieces[i] < |s.jobs| && s.chunks[s.frags[k].pieces[i]].block == Some(k)
    ensures OneBlock(s, s', c)
  {
    FlushedNotEmpty(s, c);
    hide FragmentsAt, StoreBlock, Shape;
  }

  lemma CompressedContents(s: State, s': State, c: nat, k: nat)
    requires |s.chunks| == |s.jobs| && s.frontier <= |s.jobs| && Placement(s) && c < |s.jobs| && s.chunks[c].flush
    requires FragmentsAt(s, c) != [] && k == |FragmentsAt(s, c)| - 1 && k < |s.frags|
    requires JustCompressed(s, s', c, k, Last(FragmentsAt(s, c)))
    ensures FlushContents(s', c)
  {
    SameOutput(s, s', c);
    assert Placed(s, c);
    EmittedByFlush(s, c);
    hide FragmentsAt, OffsetAt, Placement, StoreBlock, EmittedAt, FlushesAt;
  }

  lemma EmittedByFlush(s: State, c: nat)
    requires c < |s.jobs| && s.jobs[c].kind != FullBlock && FlushesAt(s, c)
    ensures FragmentsAt(s, c) != []
    ensures EmittedAt(s, c) == Some(StoreBlock(s.options.codec, s.options.compressFragments, Last(FragmentsAt(s, c))))
  {
  }

  lemma DataEndCompressPiece(s: State, t: nat, c: nat)
    requires Data(s) && Shape(s) && Links(s) && c < |s.chunks| && s.chunks[c].flush && s.chunks[c].state == ASSIGNED
    requires HasTarget(s, c) && AllCached(s, s.frags[Target(s, c)].pieces)
    ensures Data(EndCompressPiece(s, t, c))
  {
    hide EndCompressPiece, Gather, FragmentsAt, Shape, Links, Contents, Placement, ImageSoFar, HasTarget, Target, AllCached;
    var s', k := EndCompressPiece(s, t, c), Target(s, c);
    BlockComplete(s, c);
    GatherIsPieceData(s, s.frags[k].pieces);
    EndCompressPieceIs(s, t, c);
    CompressedOneBlock(s, s', c, k);
    CompressedContents(s, s', c, k);
    DataOneBlock(s, s', c);
  }

  lemma DataOneBlock(s: State, s': State, c: nat)
    requires Data(s) && Shape(s) && OneBlock(s, s', c) && FlushContents(s', c) && SameImage(s, s')
    requires s'.chunks[c].state == WRITABLE && s'.chunks[c].worker == None && s.chunks[c].state == ASSIGNED
    requires forall k :: 0 <= k < |s.frags| ==> s'.frags[k].size == s.frags[k].size && s'.frags[k].pieces == s.frags[k].pieces
    requires forall x :: 0 <= x < |s.chunks| ==> s'.chunks[x].offset == s.chunks[x].offset
    ensures Data(s')
  {
    hide Placement, Contents, ImageSoFar, FlushContents, FragmentsAt;
    PlacementStays(s, s');
    ContentsOneBlock(s, s', c);
    ImageStays(s, s');
  }

  // ---------------------------------------------------------------- writing

  lemma EmittedFull(s: State, c: nat)
    requires c < |s.jobs| && s.jobs[c].kind == FullBlock
    ensures EmittedAt(s, c).Some? && EmittedBytesAt(s, c) == EmittedAt(s, c).value.data
  {
  }

  lemma EmittedNothing(s: State, c: nat)
    requires c < |s.jobs| == |s.chunks| && s.frontier <= |s.jobs| && s.jobs[c].kind != FullBlock && Placed(s, c) && !s.chunks[c].flush && c < s.frontier
    ensures EmittedAt(s, c) == None && EmittedBytesAt(s, c) == []
  {
    hide Flushes;
  }

  lemma EmittedSome(s: State, c: nat)
    requires c < |s.jobs| && EmittedAt(s, c).Some?
    ensures EmittedBytesAt(s, c) == EmittedAt(s, c).value.data
  {
  }

  /** A step that reserves room for the block of the first unfinished chunk. */
  ghost predicate Reserves(s: State, s': State, count: nat) {
    && SameInput(s, s') && s'.jobs == s.jobs && s'.file0 == s.file0 && s'.log0 == s.log0
    && s'.finished == s.finished < |s.jobs| && s'.file == s.file && s'.log == s.log
    && s'.size == s.size + count && !Writing(s) && Writing(s')
  }

  lemma ImageBegins(s: State, s': State)
    requires |s.chunks| == |s.jobs| && s.finished < |s.jobs| && ImageSoFar(s)
    requires Reserves(s, s', |EmittedBytesAt(s, s.finished)|)
    ensures ImageSoFar(s')
  {
    SameOutput(s, s', s.finished);
    hide OffsetAt, EmittedBytesAt;
  }

  /** The first unfinished chunk is finished, and `data` written right behind what was written before. */
  ghost predicate Advances(s: State, s': State, data: bytes) {
    && SameInput(s, s') && s'.jobs == s.jobs && s'.file0 == s.file0 && s'.log0 == s.log0
    && s.finished < |s.jobs| && s'.finished == s.finished + 1 && s'.size == s.size && !Writing(s')
    && (Writing(s) || data == [])
    && s'.file == Pwrite(s.file, OffsetAt(s, s.finished), data)
    && CoversOnce(s'.log, s.log, OffsetAt(s, s.finished), OffsetAt(s, s.finished) + |data|)
  }

  /** The place of the chunk after the first unfinished one, and the output up to there. */
  lemma OffsetAdvances(s: State, s': State)
    requires s.finished < |s.jobs| && SameInput(s, s') && s'.jobs == s.jobs
    ensures OffsetAt(s', s.finished + 1) == OffsetAt(s, s.finished + 1) == OffsetAt(s, s.finished) + |EmittedBytesAt(s, s.finished)|
    ensures Output(s.options, s.jobs[..s.finished + 1]) == Output(s.options, s.jobs[..s.finished]) + EmittedBytesAt(s, s.finished)
    ensures OffsetAt(s, s.finished) == s.base + |Output(s.options, s.jobs[..s.finished])|
  {
    hide Output, EmittedBytes;
    OutputStep(s.options, s.jobs, s.finished);
    SameOutput(s, s', s.finished + 1);
  }

  lemma ImageAdvances(s: State, s': State)
    requires |s.chunks| == |s.jobs| && s.finished < |s.jobs| && ImageSoFar(s)
    requires Advances(s, s', EmittedBytesAt(s, s.finished))
    ensures ImageSoFar(s')
  {
    hide Output, EmittedBytesAt, CoversOnce, Writing, Pwrite, OffsetAt;
    var c, data := s.finished, EmittedBytesAt(s, s.finished);
    OffsetAdvances(s, s');
    PwriteAdjacent(s.file0, s.base, Output(s.options, s.jobs[..c]), data);
    CoversJoin(s'.log, s.log, s.log0, s.base, OffsetAt(s, c), OffsetAt(s, c) + |data|);
  }

  lemma DataBeginWriteFull(s: State, t: nat, s1: State)
    requires Data(s) && Shape(s) && s.writeq != [] && s1 == s.(writeq := s.writeq[1..])
    requires var c := s.writeq[0];
             c < |s.chunks| && s.chunks[c].state == WRITABLE && s.chunks[c].worker == None && c == s.finished && s.jobs[c].kind == FullBlock
    ensures Data(BeginWriteFull(s1, t, s.writeq[0]))
  {
    var c := s.writeq[0];
    var s' := BeginWriteFull(s1, t, c);
    assert Placed(s, c) && FullContents(s, c);
    SameOutput(s, s', c);
    EmittedFull(s, c);
    hide Contents, PieceContents, FlushContents, OffsetAt, EmittedAt, EmittedBytesAt;
    assert Reserves(s, s', |EmittedBytesAt(s, c)|);
    ImageBegins(s, s');
    assert FullContents(s', c);
    hide FullContents, ImageSoFar;
    PlacementStays(s, s');
    ContentsQuiet(s, s', c);
  }

  /** The step changes of the fragment blocks only where block `k` goes, and of the chunks only `c`. */
  ghost predicate Redirected(s: State, s': State, c: nat, k: nat, dst: ImageBlock) {
    && SameInput(s, s') && s'.jobs == s.jobs && s'.mayAdd == s.mayAdd && s'.frontier == s.frontier
    && c < |s.jobs| && k < |s.frags|
    && s'.frags == s.frags[k := s.frags[k].(dst := dst)]
    && (forall x :: 0 <= x < |s.chunks| && x != c ==> s'.chunks[x] == s.chunks[x])
    && s'.chunks[c] == s.chunks[c].(state := s'.chunks[c].state, worker := s'.chunks[c].worker)
  }

  lemma RedirectedKeeps(s: State, s': State, c: nat, k: nat, dst: ImageBlock)
    requires |s.chunks| == |s.jobs| && s.frontier <= |s.jobs| && Shape(s) && Placement(s) && Contents(s)
    requires Redirected(s, s', c, k, dst) && s.chunks[c].flush && k == |FragmentsAt(s, c)| - 1 && dst.size > 0
    requires FlushContents(s', c) && s'.chunks[c].state >= ASSIGNED
    ensures Placement(s') && Contents(s')
  {
    hide Placement, Contents, FlushContents, FragmentsAt, Shape;
    PlacementStays(s, s');
    assert OneBlock(s, s', c);
    ContentsOneBlock(s, s', c);
  }

  /** Flusher `c` about to be written or being written: the block is compressed and waiting. */
  lemma BlockWaiting(s: State, c: nat)
    requires Data(s) && Shape(s) && Links(s) && c < |s.jobs| && s.chunks[c].flush && s.chunks[c].state == WRITABLE
    ensures HasTarget(s, c) && Target(s, c) == |FragmentsAt(s, c)| - 1 && EmittedAt(s, c).Some?
    ensures EmittedBytesAt(s, c) == EmittedAt(s, c).value.data != []
    ensures s.frags[Target(s, c)].dst == BlockAt(WRITABLE, s.chunks[c].worker.Some?, EmittedAt(s, c).value, OffsetAt(s, c))
  {
    hide Placement, Contents, ImageSoFar, Shape, Links, FragmentsAt, EmittedAt, EmittedBytesAt, OffsetAt, HasTarget, Target;
    FlusherTarget(s, c);
    WaitingBytes(s, c);
    FlushAt(s, c);
  }

  lemma FlushAt(s: State, c: nat)
    requires Data(s) && c < |s.jobs| && s.chunks[c].flush
    ensures FlushContents(s, c)
  {
    hide FlushContents, Placement, ImageSoFar, PieceContents, FullContents;
  }

  lemma WaitingBytes(s: State, c: nat)
    requires Data(s) && Shape(s) && c < |s.jobs| && s.chunks[c].flush && FragmentsAt(s, c) != []
    ensures EmittedAt(s, c).Some? && EmittedBytesAt(s, c) == EmittedAt(s, c).value.data != []
  {
    assert Placed(s, c);
    FlushedNotEmpty(s, c);
    EmittedByFlush(s, c);
    EmittedSome(s, c);
    hide FragmentsAt, StoreBlock, EmittedAt, EmittedBytesAt, Data, Shape, Placed;
  }

  lemma DataBeginWritePiece(s: State, t: nat, s1: State)
    requires Data(s) && Shape(s) && Links(s) && s.writeq != [] && s1 == s.(writeq := s.writeq[1..])
    requires var c := s.writeq[0];
             && c < |s.chunks| && s.chunks[c].state == WRITABLE && s.chunks[c].worker == None && c == s.finished && s.chunks[c].flush
             && HasTarget(s1, c)
    ensures Data(BeginWritePiece(s1, t, s.writeq[0]))
  {
    hide BeginWritePiece, Placement, Contents, EmittedAt, EmittedBytesAt, FragmentsAt, HasTarget, Target, Links, Shape, OffsetAt, ImageSoFar, Reserves,
      Redirected, FlushContents;
    var c := s.writeq[0];
    var s' := BeginWritePiece(s1, t, c);
    BlockWaiting(s, c);
    SizeIs(s);
    var k := Target(s, c);
    var dst := s.frags[k].dst.(offset := s.size);
    BeginWritePieceIs(s, t, c, s1);
    ImageBegins(s, s');
    RedirectedFlush(s, s', c, k, dst);
    RedirectedKeeps(s, s', c, k, dst);
  }

  lemma SizeIs(s: State)
    requires Data(s) && !Writing(s)
    ensures s.size == OffsetAt(s, s.finished)
  {
    hide Placement, Contents, OffsetAt, EmittedBytesAt;
  }

  /** A thread begins to write out the block of piece `c`: the block gets its place, and room is reserved. */
  lemma BeginWritePieceIs(s: State, t: nat, c: nat, s1: State)
    requires |s.chunks| == |s.jobs| && s.writeq != [] && s1 == s.(writeq := s.writeq[1..]) && HasTarget(s1, c) && HasTarget(s, c)
    requires c < |s.chunks| && s.chunks[c].state == WRITABLE && s.chunks[c].worker == None && c == s.finished
    ensures var s', k := BeginWritePiece(s1, t, c), Target(s, c);
            && k < |s.frags| && Redirected(s, s', c, k, s.frags[k].dst.(offset := s.size)) && Reserves(s, s', s.frags[k].dst.size)
            && s'.chunks[c].state == WRITABLE && s'.chunks[c].worker.Some? && s'.options == s.options
            && |s'.chunks| == |s'.jobs| && s'.jobs == s.jobs && s'.finished == s.finished && s'.frontier == s.frontier
  {
  }

  /** Being written, or written. */
  lemma RedirectedFlush(s: State, s': State, c: nat, k: nat, dst: ImageBlock)
    requires Redirected(s, s', c, k, dst) && k == |FragmentsAt(s, c)| - 1 && EmittedAt(s, c).Some?
    requires s'.chunks[c].state >= WRITABLE
    requires dst == BlockAt(s'.chunks[c].state, s'.chunks[c].state == WRITABLE && s'.chunks[c].worker.Some?, EmittedAt(s, c).value, OffsetAt(s, c))
    ensures FlushContents(s', c)
  {
    SameOutput(s, s', c);
    hide FragmentsAt, EmittedAt, OffsetAt;
  }

  /** What `Workers` says about the image: only the first unfinished chunk is ever written. */
  ghost predicate OneWriter(s: State) {
    forall c :: 0 <= c < |s.chunks| && s.chunks[c].worker.Some? && s.chunks[c].state == WRITABLE ==> c == s.finished
  }

  /** A step that finishes the first unfinished chunk. */
  ghost predicate FinishesFirst(s: State, s': State) {
    && SameInput(s, s') && s'.jobs == s.jobs && s'.file0 == s.file0 && s'.log0 == s.log0
    && s.finished < |s.jobs| && s'.finished == s.finished + 1 && s'.size == s.size
    && (forall x :: 0 <= x < |s.chunks| && x != s.finished ==> s'.chunks[x] == s.chunks[x])
  }

  lemma NextNotWriting(s: State, s': State)
    requires FinishesFirst(s, s') && OneWriter(s)
    ensures !Writing(s')
  {
  }

  lemma DataMarkFinished(s: State, s1: State)
    requires Data(s) && Shape(s) && OneWriter(s) && s.writeq != [] && s1 == s.(writeq := s.writeq[1..])
    requires var c := s.writeq[0];
             c < |s.chunks| && s.chunks[c].state == WRITABLE && c == s.finished && s.jobs[c].kind != FullBlock && !s.chunks[c].flush
    ensures Data(MarkFinished(s1, s.writeq[0]))
  {
    var c := s.writeq[0];
    var s' := MarkFinished(s1, c);
    MarkedChunks(s, c, s1);
    assert FinishesFirst(s, s');
    assert Placed(s, c);
    EmittedNothing(s, c);
    CoversNothing(s.log, OffsetAt(s, c));
    NextNotWriting(s, s');
    assert Advances(s, s', EmittedBytesAt(s, c));
    hide MarkFinished, Contents, FullContents, PieceContents, FlushContents, OffsetAt, EmittedBytesAt, CoversOnce, Advances, Placed;
    ImageAdvances(s, s');
    PlacementStays(s, s');
    ContentsQuiet(s, s', c);
  }

  lemma MarkedChunks(s: State, c: nat, s1: State)
    requires Data(s) && c < |s.chunks| && s.chunks[c].state == WRITABLE && s.jobs[c].kind != FullBlock && !s.chunks[c].flush
    requires s.writeq != [] && s1 == s.(writeq := s.writeq[1..])
    ensures var s' := MarkFinished(s1, c);
            && QuietElsewhere(s, s', c) && SamePlacement(s, s')
            && s'.file == s.file && s'.log == s.log && s'.size == s.size && s'.finished == s.finished + 1
            && (s.jobs[c].kind == FragmentPiece ==> PieceContents(s', c))
  {
    hide Data, Broadcast;
    MarkedPiece(s, c);
  }

  lemma MarkedPiece(s: State, c: nat)
    requires Data(s) && c < |s.chunks|
    ensures |s.jobs| == |s.chunks| && (s.jobs[c].kind == FragmentPiece ==> PieceContents(s, c))
  {
    hide Placement, ImageSoFar, FullContents, PieceContents, FlushContents;
  }

  lemma DataEndWriteFull(s: State, t: nat, c: nat)
    requires Data(s) && Shape(s) && OneWriter(s) && c < |s.chunks| && s.jobs[c].kind == FullBlock
    requires s.chunks[c].state == WRITABLE && s.chunks[c].worker.Some? && c == s.finished
    requires s.chunks[c].dst.offset >= 0 && s.chunks[c].dst.data.Some?
    ensures Data(EndWriteFull(s, t, c))
  {
    var s' := EndWriteFull(s, t, c);
    assert Placed(s, c) && FullContents(s, c);
    SameOutput(s, s', c);
    EmittedFull(s, c);
    EndWriteFullIs(s, t, c);
    NextNotWriting(s, s');
    PutCovers(s, s.chunks[c].dst);
    hide EndWriteFull, Placement, Contents, PieceContents, FlushContents, OffsetAt, EmittedAt, EmittedBytesAt, CoversOnce, Pwrite, OneWriter, Shape;
    assert FullContents(s', c);
    assert Advances(s, s', EmittedBytesAt(s, c));
    hide FullContents, Advances, ImageSoFar, Put;
    ImageAdvances(s, s');
    PlacementStays(s, s');
    ContentsQuiet(s, s', c);
  }

  lemma EndWriteFullIs(s: State, t: nat, c: nat)
    requires |s.chunks| == |s.jobs| && c == s.finished && c < |s.chunks|
    requires s.chunks[c].dst.offset >= 0 && s.chunks[c].dst.data.Some?
    ensures var s' := EndWriteFull(s, t, c);
            && QuietElsewhere(s, s', c) && SamePlacement(s, s') && FinishesFirst(s, s')
            && s'.chunks[c] == s.chunks[c].(state := FINISHED, worker := None, dst := s.chunks[c].dst.(data := None))
            && s'.file == Put(s, s.chunks[c].dst).file && s'.log == Put(s, s.chunks[c].dst).log
  {
    hide Pwrite, Broadcast;
  }

  lemma PutCovers(s: State, dst: ImageBlock)
    requires dst.offset >= 0 && dst.data.Some?
    ensures CoversOnce(Put(s, dst).log, s.log, dst.offset, dst.offset + |dst.data.value|)
  {
    var e := Extent(dst.offset, |dst.data.value|);
    assert Front(s.log + [e]) == s.log && Last(s.log + [e]) == e;
  }

  lemma EndWritePieceIs(s: State, t: nat, c: nat)
    requires |s.chunks| == |s.jobs| && c == s.finished && HasTarget(s, c)
    requires s.frags[Target(s, c)].dst.offset >= 0 && s.frags[Target(s, c)].dst.data.Some?
    ensures var s', k := EndWritePiece(s, t, c), Target(s, c);
            && Redirected(s, s', c, k, s.frags[k].dst.(data := None)) && s'.chunks[c].state == FINISHED && FinishesFirst(s, s')
            && s'.file == Put(s, s.frags[k].dst).file && s'.log == Put(s, s.frags[k].dst).log
  {
    hide Pwrite, Broadcast;
  }

  lemma DataEndWritePiece(s: State, t: nat, c: nat)
    requires Data(s) && Shape(s) && Links(s) && OneWriter(s) && c < |s.chunks| && s.chunks[c].flush
    requires s.chunks[c].state == WRITABLE && s.chunks[c].worker.Some? && c == s.finished
    requires HasTarget(s, c) && s.frags[Target(s, c)].dst.offset >= 0 && s.frags[Target(s, c)].dst.data.Some?
    ensures Data(EndWritePiece(s, t, c))
  {
    var s' := EndWritePiece(s, t, c);
    BlockWaiting(s, c);
    var k := Target(s, c);
    var dst := s.frags[k].dst.(data := None);
    PutCovers(s, s.frags[k].dst);
    EndWritePieceIs(s, t, c);
    NextNotWriting(s, s');
    assert Advances(s, s', EmittedBytesAt(s, c)) by { hide EndWritePiece, Placement, Contents, FragmentsAt, Links, Shape, CoversOnce, Pwrite; }
    hide EndWritePiece, Placement, Contents, EmittedAt, EmittedBytesAt, FragmentsAt, HasTarget, Target, Links, Shape, OffsetAt, CoversOnce, Pwrite, Advances;
    ImageAdvances(s, s');
    RedirectedFlush(s, s', c, k, dst);
    RedirectedKeeps(s, s', c, k, dst);
  }
}
