/** Every step keeps the order, the chain of pieces, the queues and the threads as they should be. */
module PipelineControl {
  import opened Bytes
  import opened SequentialLayout
  import opened Pipeline
  import opened PipelineInvariant

  ghost predicate Control(s: State) {
    Shape(s) && Links(s) && Queues(s) && Workers(s) && Sleepers(s)
  }

  // ---------------------------------------------------------------- queues

  lemma Popped(q: seq<nat>, home: nat -> nat, home': nat -> nat, i: nat)
    requires q != [] && Holds(q, home, i)
    requires forall c: nat :: home'(c) == i <==> home(c) == i && c != q[0]
    ensures Holds(q[1..], home', i)
  {
    forall c: nat
      ensures c in q[1..] <==> home'(c) == i
    {
      assert c in q <==> c == q[0] || c in q[1..];
    }
  }

  lemma Pushed(q: seq<nat>, home: nat -> nat, home': nat -> nat, i: nat, new_: nat)
    requires Holds(q, home, i) && home(new_) != i
    requires forall c: nat :: home'(c) == i <==> home(c) == i || c == new_
    ensures Holds([new_] + q, home', i)
  {
    forall c: nat
      ensures c in [new_] + q <==> home'(c) == i
    {
      assert c in [new_] + q <==> c == new_ || c in q;
    }
  }

  lemma Untouched(q: seq<nat>, home: nat -> nat, home': nat -> nat, i: nat)
    requires Holds(q, home, i)
    requires forall c: nat :: home'(c) == i <==> home(c) == i
    ensures Holds(q, home', i)
  {
  }

  /** A queue after chunk `c` has left the head of queue `from` and gone to the head of queue `to`; 0 stands
      for no queue. */
  function Moved(s: State, i: nat, c: nat, from: nat, to: nat): seq<nat> {
    var q := QueueOf(s, i);
    if i == to then [c] + q else if i == from && q != [] then q[1..] else q
  }

  /** The five queues after such a move. */
  ghost predicate AllMoved(s: State, s': State, c: nat, from: nat, to: nat) {
    && s'.readq == Moved(s, 1, c, from, to)
    && s'.dedupq == Moved(s, 2, c, from, to)
    && s'.assignq == Moved(s, 3, c, from, to)
    && s'.compressq == Moved(s, 4, c, from, to)
    && s'.writeq == Moved(s, 5, c, from, to)
  }

  /** The same with chunk `d` then pushed on queue `into`. */
  ghost predicate AllMovedTwo(s: State, s': State, c: nat, from: nat, to: nat, d: nat, into: nat) {
    && (into == 3 || into == 5)
    && s'.readq == Moved(s, 1, c, from, to)
    && s'.dedupq == Moved(s, 2, c, from, to)
    && s'.assignq == (if into == 3 then [d] + Moved(s, 3, c, from, to) else Moved(s, 3, c, from, to))
    && s'.compressq == Moved(s, 4, c, from, to)
    && s'.writeq == (if into == 5 then [d] + Moved(s, 5, c, from, to) else Moved(s, 5, c, from, to))
  }

  lemma HoldsMoved(s: State, home: nat -> nat, i: nat, c: nat, from: nat, to: nat)
    requires Queues(s) && 1 <= i <= 5 && from != to && Home(s, c) == from
    requires from > 0 ==> QueueOf(s, from) != [] && QueueOf(s, from)[0] == c
    requires home(c) == to && forall x: nat :: x != c ==> home(x) == Home(s, x)
    ensures Holds(Moved(s, i, c, from, to), home, i)
  {
    var before := (x: nat) => Home(s, x);
    assert Holds(QueueOf(s, i), x => Home(s, x), i);
    if i == to {
      Pushed(QueueOf(s, i), before, home, i, c);
    } else if i == from {
      Popped(QueueOf(s, i), before, home, i);
    } else {
      Untouched(QueueOf(s, i), before, home, i);
    }
  }

  lemma QueuesMove(s: State, s': State, c: nat, from: nat, to: nat)
    requires Queues(s) && from <= 5 && to <= 5 && Home(s, c) == from
    requires from > 0 ==> QueueOf(s, from) != [] && QueueOf(s, from)[0] == c
    requires Home(s', c) == to && forall x: nat :: x != c ==> Home(s', x) == Home(s, x)
    requires from != to && AllMoved(s, s', c, from, to)
    ensures Queues(s')
  {
    forall i | 1 <= i <= 5
      ensures Holds(QueueOf(s', i), x => Home(s', x), i)
    {
      HoldsMoved(s, x => Home(s', x), i, c, from, to);
    }
  }

  /** The same, and chunk `d`, so far in no queue, goes to the head of queue `into`. */
  lemma QueuesMoveTwo(s: State, s': State, c: nat, from: nat, to: nat, d: nat, into: nat)
    requires Queues(s) && from <= 5 && to <= 5 && 1 <= into <= 5 && Home(s, c) == from && Home(s, d) == 0 && c != d
    requires from > 0 ==> QueueOf(s, from) != [] && QueueOf(s, from)[0] == c
    requires Home(s', c) == to && Home(s', d) == into
    requires forall x: nat :: x != c && x != d ==> Home(s', x) == Home(s, x)
    requires from != to && AllMovedTwo(s, s', c, from, to, d, into)
    ensures Queues(s')
  {
    var middle := (x: nat) => if x == d then 0 else Home(s', x);
    forall i | 1 <= i <= 5
      ensures Holds(QueueOf(s', i), x => Home(s', x), i)
    {
      HoldsMoved(s, middle, i, c, from, to);
      if i == into {
        Pushed(Moved(s, i, c, from, to), middle, x => Home(s', x), i, d);
      } else {
        Untouched(Moved(s, i, c, from, to), middle, x => Home(s', x), i);
      }
    }
  }

  // ---------------------------------------------------------------- order, chain, threads

  /** `s'` differs from `s`, as far as control goes, in the state of chunk `c` only. */
  ghost predicate OnlyMoves(s: State, s': State, c: nat, state: Phase, worker: Option<nat>) {
    && s'.options == s.options && s'.jobs == s.jobs && s'.mayAdd == s.mayAdd && s'.lastPiece == s.lastPiece
    && |s'.chunks| == |s.chunks| == |s.jobs| && c < |s.chunks|
    && s'.chunks[c].state == state && s'.chunks[c].worker == worker
    && (forall x :: 0 <= x < |s.chunks| ==> s'.chunks[x].prevPiece == s.chunks[x].prevPiece && s'.chunks[x].nextPiece == s.chunks[x].nextPiece)
    && (forall x :: 0 <= x < |s.chunks| && x != c ==> s'.chunks[x].state == s.chunks[x].state && s'.chunks[x].worker == s.chunks[x].worker)
  }

  lemma LinksMove(s: State, s': State, c: nat, state: Phase, worker: Option<nat>)
    requires |s.chunks| == |s.jobs| && Links(s) && OnlyMoves(s, s', c, state, worker)
    ensures Links(s')
  {
  }

  lemma ShapeMove(s: State, s': State, c: nat, state: Phase, worker: Option<nat>)
    requires Shape(s) && OnlyMoves(s, s', c, state, worker)
    requires s'.finished == s.finished && s'.frontier == s.frontier
    requires state < FINISHED && s.chunks[c].state < FINISHED
    requires s.jobs[c].kind != FullBlock ==> (state >= ASSIGNED <==> s.chunks[c].state >= ASSIGNED)
    ensures Shape(s')
  {
  }

  /** A move that does not assign a piece and does not finish a chunk changes no other chunk's home. */
  lemma HomesStay(s: State, s': State, c: nat, state: Phase, worker: Option<nat>)
    requires Shape(s) && Links(s) && OnlyMoves(s, s', c, state, worker) && s'.finished == s.finished
    requires s.jobs[c].kind != FullBlock ==> (state >= ASSIGNED <==> s.chunks[c].state >= ASSIGNED)
    ensures forall x: nat :: x != c ==> Home(s', x) == Home(s, x)
  {
    forall x: nat | x != c
      ensures Home(s', x) == Home(s, x)
    {
      if x < |s.jobs| {
        if s.jobs[x].kind != FullBlock { PreviousStays(s, s', c, state, worker, x); }
        HomeStays(s, s', x);
      }
    }
  }

  lemma PreviousStays(s: State, s': State, c: nat, state: Phase, worker: Option<nat>, x: nat)
    requires |s.chunks| == |s.jobs| && Links(s) && OnlyMoves(s, s', c, state, worker)
    requires s.jobs[c].kind != FullBlock ==> (state >= ASSIGNED <==> s.chunks[c].state >= ASSIGNED)
    requires x < |s.jobs| && s.jobs[x].kind != FullBlock
    ensures PreviousAssigned(s', x) == PreviousAssigned(s, x)
  {
    assert LinkTo(s.jobs, s.chunks[x].prevPiece, x);
  }

  lemma HomeStays(s: State, s': State, x: nat)
    requires s'.jobs == s.jobs && x < |s.chunks| == |s.jobs| == |s'.chunks|
    requires s'.chunks[x].state == s.chunks[x].state && s'.chunks[x].worker == s.chunks[x].worker
    requires s.chunks[x].state == WRITABLE ==> (s'.finished == x <==> s.finished == x)
    requires s.jobs[x].kind != FullBlock ==> PreviousAssigned(s', x) == PreviousAssigned(s, x)
    ensures Home(s', x) == Home(s, x)
  {
  }

  /** A thread takes hold of a chunk. */
  lemma WorkersTake(s: State, s': State, c: nat, t: nat)
    requires |s.chunks| == |s.jobs| && Workers(s) && c < |s.chunks| && OnlyMoves(s, s', c, s.chunks[c].state, Some(t))
    requires t in s.threads && s.threads[t] == Awake && s.chunks[c].worker == None
    requires s'.threads == s.threads[t := Busy(c)] && s'.finished == s.finished
    requires forall x :: 0 <= x < |s.chunks| ==> s'.chunks[x].flush == s.chunks[x].flush
    requires (s.chunks[c].state == NONE && s.jobs[c].kind != ClosingPiece) || s.chunks[c].state == ASSIGNED
          || (s.chunks[c].state == WRITABLE && c == s.finished && (s.jobs[c].kind == FullBlock || s.chunks[c].flush))
    ensures Workers(s')
  {
  }

  /** A chunk nobody holds, or that thread `t` lets go of, moves on. */
  lemma WorkersMove(s: State, s': State, c: nat, state: Phase)
    requires |s.chunks| == |s.jobs| && Workers(s) && OnlyMoves(s, s', c, state, None)
    requires forall x :: 0 <= x < |s.chunks| && x != c ==> s'.chunks[x].flush == s.chunks[x].flush
    requires s'.threads.Keys == s.threads.Keys
    requires forall t :: t in s.threads ==>
               if s.threads[t] == Busy(c) then !s'.threads[t].Busy?
               else if s.threads[t].Busy? then s'.threads[t] == s.threads[t]
               else !s'.threads[t].Busy?
    requires s'.finished == s.finished || (c == s.finished && s.chunks[c].state == WRITABLE)
    ensures Workers(s')
  {
  }

  lemma SleepersStay(s: State, s': State, t: nat)
    requires Sleepers(s) && !Done(s) && t in s.threads && (s.threads[t] == Awake || s.threads[t].Busy?)
    requires t in s'.threads && (s'.threads[t] == Awake || s'.threads[t].Busy?)
    requires s'.threads.Keys == s.threads.Keys && forall u :: u in s.threads ==> (s'.threads[u] == Left ==> s.threads[u] == Left)
    requires Done(s') ==> forall u :: u in s'.threads ==> s'.threads[u] != Waiting
    ensures Sleepers(s')
  {
  }

  /** An unfinished chunk in sight means the image is not done. */
  lemma NotDone(s: State, c: nat)
    requires Shape(s) && c < |s.chunks| && s.chunks[c].state != FINISHED
    ensures !Done(s) && s.finished < |s.chunks|
  {
  }

  lemma AtHome(s: State, i: nat, c: nat)
    requires Queues(s) && 1 <= i <= 5 && c in QueueOf(s, i)
    ensures Home(s, c) == i
  {
    assert Holds(QueueOf(s, i), x => Home(s, x), i);
  }

  // ---------------------------------------------------------------- two kinds of moves

  /** Chunk `c` went from queue `from` to queue `to`, the others are where they were. */
  ghost predicate Requeued(s: State, s': State, c: nat, from: nat, to: nat) {
    && from <= 5 && to <= 5 && from != to
    && (from > 0 ==> QueueOf(s, from) != [] && QueueOf(s, from)[0] == c)
    && AllMoved(s, s', c, from, to)
  }

  ghost predicate SameCounters(s: State, s': State)
    requires |s.chunks| == |s'.chunks|
  {
    && s'.finished == s.finished && s'.frontier == s.frontier
    && (forall x :: 0 <= x < |s.chunks| ==> s'.chunks[x].flush == s.chunks[x].flush)
  }

  /** Thread `t` takes chunk `c` from the head of a queue and gives up the lock. */
  lemma ControlTake(s: State, s': State, t: nat, c: nat, from: nat)
    requires Control(s) && c < |s.chunks| && OnlyMoves(s, s', c, s.chunks[c].state, Some(t)) && SameCounters(s, s')
    requires t in s.threads && s.threads[t] == Awake && s'.threads == s.threads[t := Busy(c)]
    requires from in {1, 4, 5} && Home(s, c) == from && Requeued(s, s', c, from, 0)
    requires from == 1 ==> s.jobs[c].kind != ClosingPiece
    requires from == 5 ==> s.jobs[c].kind == FullBlock || s.chunks[c].flush
    ensures Control(s')
  {
    hide Shape, Links, Queues, Workers, Sleepers;
    NotDone(s, c);
    SleepersStay(s, s', t);
    LinksMove(s, s', c, s.chunks[c].state, Some(t));
    ShapeMove(s, s', c, s.chunks[c].state, Some(t));
    WorkersTake(s, s', c, t);
    HomesStay(s, s', c, s.chunks[c].state, Some(t));
    QueuesMove(s, s', c, from, 0);
  }

  /** Chunk `c` passes to another state that neither assigns a piece nor finishes the chunk. */
  lemma ControlMove(s: State, s': State, t: nat, c: nat, state: Phase, from: nat, to: nat)
    requires Control(s) && OnlyMoves(s, s', c, state, None) && SameCounters(s, s')
    requires state < FINISHED && s.chunks[c].state < FINISHED
    requires s.jobs[c].kind != FullBlock ==> (state >= ASSIGNED <==> s.chunks[c].state >= ASSIGNED)
    requires t in s.threads && s'.threads == s.threads[t := Awake]
    requires (s.threads[t] == Awake && s.chunks[c].worker == None) || s.threads[t] == Busy(c)
    requires Home(s, c) == from && Home(s', c) == to
    requires (from == to == 0 && AllMoved(s, s', c, 0, 0)) || Requeued(s, s', c, from, to)
    ensures Control(s')
  {
    hide Shape, Links, Queues, Sleepers;
    NotDone(s, c);
    SleepersStay(s, s', t);
    LinksMove(s, s', c, state, None);
    ShapeMove(s, s', c, state, None);
    WorkersMove(s, s', c, state);
    HomesStay(s, s', c, state, None);
    if from == to {
      QueuesStay(s, s');
    } else {
      QueuesMove(s, s', c, from, to);
    }
  }

  lemma QueuesStay(s: State, s': State)
    requires Queues(s)
    requires forall x: nat :: Home(s', x) == Home(s, x)
    requires AllMoved(s, s', 0, 0, 0)
    ensures Queues(s')
  {
    forall i | 1 <= i <= 5
      ensures Holds(QueueOf(s', i), x => Home(s', x), i)
    {
      assert Holds(QueueOf(s, i), x => Home(s, x), i);
      Untouched(QueueOf(s, i), x => Home(s, x), x => Home(s', x), i);
    }
  }

  // ---------------------------------------------------------------- the steps, one by one

  lemma KeepsRead(s: State, t: nat)
    requires Control(s) && t in s.threads && s.threads[t] == Awake
    requires s.readq != [] && Home(s, s.readq[0]) == 1 && |s.chunks| == |s.jobs|
    ensures Control(Read(s.(readq := s.readq[1..]), t, s.readq[0]))
  {
    hide Control;
    var c := s.readq[0];
    var s' := Read(s.(readq := s.readq[1..]), t, c);
    if s.jobs[c].kind == ClosingPiece {
      assert s.threads == s.threads[t := Awake];
      ControlMove(s, s', t, c, READ, 1, 2);
    } else {
      ControlTake(s, s', t, c, 1);
    }
  }

  lemma KeepsEndRead(s: State, t: nat, c: nat)
    requires Control(s) && t in s.threads && s.threads[t] == Busy(c)
    requires c < |s.chunks| == |s.jobs| && s.chunks[c].state == NONE && s.chunks[c].worker.Some?
    ensures Control(EndRead(s, t, c))
  {
    hide Control;
    ControlMove(s, EndRead(s, t, c), t, c, READ, 0, 2);
  }

  lemma KeepsDeduplicate(s: State, t: nat)
    requires Control(s) && t in s.threads && s.threads[t] == Awake
    requires s.dedupq != [] && Home(s, s.dedupq[0]) == 2 && |s.chunks| == |s.jobs|
    requires s.chunks[s.dedupq[0]].worker == None
    ensures Control(Deduplicate(s.(dedupq := s.dedupq[1..]), s.dedupq[0]))
  {
    hide Control;
    var c := s.dedupq[0];
    var s' := Deduplicate(s.(dedupq := s.dedupq[1..]), c);
    assert s.threads == s.threads[t := Awake];
    assert PreviousAssigned(s', c) == PreviousAssigned(s, c);
    ControlMove(s, s', t, c, DEDUPLICATED, 2, if s.jobs[c].kind == FullBlock || PreviousAssigned(s, c) then 3 else 0);
  }

  lemma KeepsAssignFull(s: State, t: nat)
    requires Control(s) && t in s.threads && s.threads[t] == Awake
    requires s.assignq != [] && Home(s, s.assignq[0]) == 3 && |s.chunks| == |s.jobs|
    requires s.chunks[s.assignq[0]].worker == None && s.jobs[s.assignq[0]].kind == FullBlock
    ensures Control(AssignFull(s.(assignq := s.assignq[1..]), s.assignq[0]))
  {
    hide Control;
    var c := s.assignq[0];
    assert s.threads == s.threads[t := Awake];
    ControlMove(s, AssignFull(s.(assignq := s.assignq[1..]), c), t, c, ASSIGNED, 3, 4);
  }

  lemma KeepsBeginCompress(s: State, t: nat)
    requires Control(s) && t in s.threads && s.threads[t] == Awake
    requires s.compressq != [] && Home(s, s.compressq[0]) == 4 && |s.chunks| == |s.jobs|
    ensures Control(BeginCompress(s.(compressq := s.compressq[1..]), t, s.compressq[0]))
  {
    hide Control;
    var c := s.compressq[0];
    ControlTake(s, BeginCompress(s.(compressq := s.compressq[1..]), t, c), t, c, 4);
  }

  lemma KeepsEndCompressFull(s: State, t: nat, c: nat)
    requires Control(s) && t in s.threads && s.threads[t] == Busy(c)
    requires c < |s.chunks| == |s.jobs| && s.chunks[c].state == ASSIGNED && s.chunks[c].worker.Some? && s.chunks[c].cached.Some?
    requires c > 0 ==> (s.chunks[c - 1].state == FINISHED <==> c - 1 < s.finished)
    requires s.finished <= c
    ensures Control(EndCompressFull(s, t, c))
  {
    hide Control;
    ControlMove(s, EndCompressFull(s, t, c), t, c, WRITABLE, 0, if c == s.finished then 5 else 0);
  }

  lemma TryWriteoutQueues(s: State, c: nat)
    requires c < |s.chunks|
    ensures TryWriteout(s, c) == s.(writeq := TryWriteout(s, c).writeq)
  {
  }

  lemma EndCompressPieceMoves(s: State, t: nat, c: nat)
    requires c < |s.chunks| == |s.jobs| && s.chunks[c].state == ASSIGNED
    requires HasTarget(s, c) && AllCached(s, s.frags[Target(s, c)].pieces)
    ensures var s' := EndCompressPiece(s, t, c);
            OnlyMoves(s, s', c, WRITABLE, None) && SameCounters(s, s') && s'.threads == s.threads[t := Awake]
  {
    hide Gather, AllCached, Compressed, TryWriteout;
    var k, pieces := Target(s, c), s.frags[Target(s, c)].pieces;
    ReleaseOnlyData(s.chunks, pieces);
    hide Release;
    var b := s.frags[k];
    var s1 := s.(chunks := Release(s.chunks, pieces), frags := s.frags[k := b.(dst := Compressed(s.options.codec, s.options.compressFragments, Gather(s, pieces)))]);
    TryWriteoutQueues(SetChunk(s1, c, s1.chunks[c].(state := WRITABLE, worker := None)), c);
    assert |EndCompressPiece(s, t, c).chunks| == |s.chunks|;
  }

  lemma EndCompressPieceQueues(s: State, t: nat, c: nat)
    requires c < |s.chunks| == |s.jobs| && s.chunks[c].state == ASSIGNED
    requires HasTarget(s, c) && AllCached(s, s.frags[Target(s, c)].pieces)
    requires c > 0 ==> (s.chunks[c - 1].state == FINISHED <==> c - 1 < s.finished)
    requires s.finished <= c
    ensures var s' := EndCompressPiece(s, t, c);
            AllMoved(s, s', c, 0, if c == s.finished then 5 else 0)
  {
    hide Gather, AllCached, Compressed;
    ReleaseOnlyData(s.chunks, s.frags[Target(s, c)].pieces);
    hide Release;
    assert c > 0 ==> Release(s.chunks, s.frags[Target(s, c)].pieces)[c - 1].state == s.chunks[c - 1].state;
  }

  lemma KeepsEndCompressPiece(s: State, t: nat, c: nat)
    requires Control(s) && t in s.threads && s.threads[t] == Busy(c)
    requires c < |s.chunks| == |s.jobs| && s.chunks[c].state == ASSIGNED && s.chunks[c].worker.Some?
    requires HasTarget(s, c) && AllCached(s, s.frags[Target(s, c)].pieces)
    requires c > 0 ==> (s.chunks[c - 1].state == FINISHED <==> c - 1 < s.finished)
    requires s.finished <= c
    ensures Control(EndCompressPiece(s, t, c))
  {
    hide Control, EndCompressPiece, AllCached;
    EndCompressPieceMoves(s, t, c);
    EndCompressPieceQueues(s, t, c);
    ControlMove(s, EndCompressPiece(s, t, c), t, c, WRITABLE, 0, if c == s.finished then 5 else 0);
  }

  lemma KeepsBeginWriteFull(s: State, t: nat)
    requires Control(s) && t in s.threads && s.threads[t] == Awake
    requires s.writeq != [] && Home(s, s.writeq[0]) == 5 && |s.chunks| == |s.jobs| && s.jobs[s.writeq[0]].kind == FullBlock
    ensures Control(BeginWriteFull(s.(writeq := s.writeq[1..]), t, s.writeq[0]))
  {
    hide Control;
    var c := s.writeq[0];
    ControlTake(s, BeginWriteFull(s.(writeq := s.writeq[1..]), t, c), t, c, 5);
  }

  lemma KeepsBeginWritePiece(s: State, t: nat)
    requires Control(s) && t in s.threads && s.threads[t] == Awake
    requires s.writeq != [] && Home(s, s.writeq[0]) == 5 && |s.chunks| == |s.jobs|
    requires HasTarget(s, s.writeq[0]) && s.chunks[s.writeq[0]].flush
    ensures Control(BeginWritePiece(s.(writeq := s.writeq[1..]), t, s.writeq[0]))
  {
    hide Control;
    var c := s.writeq[0];
    var s1 := s.(writeq := s.writeq[1..]);
    assert HasTarget(s1, c);
    ControlTake(s, BeginWritePiece(s1, t, c), t, c, 5);
  }

  // ---------------------------------------------------------------- a chunk is finished

  /** Everything control sees of a chunk being marked finished by thread `t`. */
  ghost predicate Finishes(s: State, s': State, t: nat, c: nat, from: nat) {
    && OnlyMoves(s, s', c, FINISHED, None)
    && s'.finished == s.finished + 1 && s'.frontier == s.frontier
    && (forall x :: 0 <= x < |s.chunks| ==> s'.chunks[x].flush == s.chunks[x].flush)
    && t in s.threads
    && s'.threads == (if s.finished + 1 == |s.chunks| then Broadcast(s.threads[t := Awake]) else s.threads[t := Awake])
    && (from == 5 ==> s.writeq != [] && s.writeq[0] == c)
    && (if c + 1 < |s.chunks| && s.chunks[c + 1].state == WRITABLE then AllMovedTwo(s, s', c, from, 0, c + 1, 5)
        else AllMoved(s, s', c, from, 0))
  }

  lemma ShapeFinish(s: State, s': State, t: nat, c: nat, from: nat)
    requires Shape(s) && Finishes(s, s', t, c, from) && c == s.finished && s.chunks[c].state == WRITABLE
    ensures Shape(s')
  {
  }

  lemma SleepersFinish(s: State, s': State, t: nat, c: nat, from: nat)
    requires Shape(s) && Sleepers(s) && Finishes(s, s', t, c, from) && c == s.finished < |s.chunks|
    requires s.threads[t] == Awake || s.threads[t] == Busy(c)
    ensures Sleepers(s')
  {
    NotDone(s, c);
    var threads := s.threads[t := Awake];
    assert threads.Keys == s.threads.Keys;
    SleepersStay(s, s', t);
  }

  lemma WorkersFinish(s: State, s': State, t: nat, c: nat, from: nat)
    requires |s.chunks| == |s.jobs| && Workers(s) && Finishes(s, s', t, c, from)
    requires c == s.finished && s.chunks[c].state == WRITABLE
    requires (s.threads[t] == Awake && s.chunks[c].worker == None) || s.threads[t] == Busy(c)
    ensures Workers(s')
  {
    WorkersMove(s, s', c, FINISHED);
  }

  lemma HomesFinish(s: State, s': State, t: nat, c: nat, from: nat)
    requires Shape(s) && Links(s) && Workers(s) && Finishes(s, s', t, c, from)
    requires c == s.finished && s.chunks[c].state == WRITABLE
    ensures Home(s', c) == 0
    ensures c + 1 < |s.chunks| && s.chunks[c + 1].state == WRITABLE ==> Home(s', c + 1) == 5 && Home(s, c + 1) == 0
    ensures forall x: nat :: x != c && !(x == c + 1 < |s.chunks| && s.chunks[c + 1].state == WRITABLE) ==> Home(s', x) == Home(s, x)
  {
    hide Home, Links, LinkTo, Workers, AllMoved, AllMovedTwo, PreviousAssigned;
    HomesFinishNear(s, s', t, c, from);
    forall x: nat | x != c && !(x == c + 1 < |s.chunks| && s.chunks[c + 1].state == WRITABLE)
      ensures Home(s', x) == Home(s, x)
    {
      if x < |s.jobs| {
        if s.jobs[x].kind != FullBlock { PreviousStays(s, s', c, FINISHED, None, x); }
        HomeStays(s, s', x);
      } else {
        HomeOutside(s, x);
        HomeOutside(s', x);
      }
    }
  }

  lemma HomeOutside(s: State, x: nat)
    requires x >= |s.jobs|
    ensures Home(s, x) == 0
  {
  }

  lemma HomesFinishNear(s: State, s': State, t: nat, c: nat, from: nat)
    requires Shape(s) && Workers(s) && Finishes(s, s', t, c, from)
    requires c == s.finished && s.chunks[c].state == WRITABLE
    ensures Home(s', c) == 0
    ensures c + 1 < |s.chunks| && s.chunks[c + 1].state == WRITABLE ==> Home(s', c + 1) == 5 && Home(s, c + 1) == 0
  {
    hide AllMoved, AllMovedTwo, PreviousAssigned, Broadcast;
  }

  lemma ControlFinish(s: State, s': State, t: nat, c: nat, from: nat)
    requires Control(s) && Finishes(s, s', t, c, from)
    requires c == s.finished && s.chunks[c].state == WRITABLE
    requires (from == 5 && s.threads[t] == Awake && s.chunks[c].worker == None)
          || (from == 0 && s.threads[t] == Busy(c) && s.chunks[c].worker.Some?)
    ensures Control(s')
  {
    hide Shape, Links, Queues, Workers, Sleepers;
    ShapeFinish(s, s', t, c, from);
    SleepersFinish(s, s', t, c, from);
    WorkersFinish(s, s', t, c, from);
    LinksMove(s, s', c, FINISHED, None);
    QueuesFinish(s, s', t, c, from);
  }

  lemma QueuesFinish(s: State, s': State, t: nat, c: nat, from: nat)
    requires Shape(s) && Links(s) && Workers(s) && Queues(s) && Finishes(s, s', t, c, from)
    requires c == s.finished && s.chunks[c].state == WRITABLE
    requires (from == 5 && s.chunks[c].worker == None) || (from == 0 && s.chunks[c].worker.Some?)
    ensures Queues(s')
  {
    hide Shape, Links, Queues, Workers;
    HomesFinish(s, s', t, c, from);
    if c + 1 < |s.chunks| && s.chunks[c + 1].state == WRITABLE {
      if from == 5 { QueuesMoveTwo(s, s', c, 5, 0, c + 1, 5); } else { QueuesPush(s, s', c + 1, 5); }
    } else {
      if from == 5 { QueuesMove(s, s', c, 5, 0); } else { QueuesStay(s, s'); }
    }
  }

  lemma QueuesPush(s: State, s': State, d: nat, into: nat)
    requires Queues(s) && 1 <= into <= 5 && Home(s, d) == 0 && Home(s', d) == into
    requires forall x: nat :: x != d ==> Home(s', x) == Home(s, x)
    requires AllMoved(s, s', d, 0, into)
    ensures Queues(s')
  {
    QueuesMove(s, s', d, 0, into);
  }

  lemma KeepsMarkFinished(s: State, t: nat)
    requires Control(s) && t in s.threads && s.threads[t] == Awake
    requires s.writeq != [] && Home(s, s.writeq[0]) == 5 && |s.chunks| == |s.jobs|
    ensures Control(MarkFinished(s.(writeq := s.writeq[1..]), s.writeq[0]))
  {
    hide Control;
    var c := s.writeq[0];
    assert s.threads[t := Awake] == s.threads;
    ControlFinish(s, MarkFinished(s.(writeq := s.writeq[1..]), c), t, c, 5);
  }

  lemma KeepsEndWriteFull(s: State, t: nat, c: nat)
    requires Control(s) && t in s.threads && s.threads[t] == Busy(c)
    requires c < |s.chunks| == |s.jobs| && s.chunks[c].state == WRITABLE && s.chunks[c].worker.Some? && c == s.finished
    requires s.chunks[c].dst.offset >= 0 && s.chunks[c].dst.data.Some?
    ensures Control(EndWriteFull(s, t, c))
  {
    hide Control;
    ControlFinish(s, EndWriteFull(s, t, c), t, c, 0);
  }

  lemma KeepsEndWritePiece(s: State, t: nat, c: nat)
    requires Control(s) && t in s.threads && s.threads[t] == Busy(c)
    requires c < |s.chunks| == |s.jobs| && s.chunks[c].state == WRITABLE && s.chunks[c].worker.Some? && c == s.finished
    requires HasTarget(s, c) && s.frags[Target(s, c)].dst.offset >= 0 && s.frags[Target(s, c)].dst.data.Some?
    ensures Control(EndWritePiece(s, t, c))
  {
    hide Control;
    ControlFinish(s, EndWritePiece(s, t, c), t, c, 0);
  }

  /** The piece after a piece points back to it. */
  lemma NextLinked(s: State, c: nat)
    requires |s.chunks| == |s.jobs| && Links(s) && c < |s.chunks|
    ensures var next := s.chunks[c].nextPiece;
            next.Some? ==> c < next.value < |s.chunks| && s.chunks[next.value].prevPiece == Some(c) && s.jobs[next.value].kind != FullBlock
  {
    if s.chunks[c].nextPiece.Some? {
      var q := s.chunks[c].nextPiece.value;
      assert s.chunks[q].prevPiece == Some(c);
      assert LinkTo(s.jobs, s.chunks[q].prevPiece, q);
    }
  }

  // ---------------------------------------------------------------- a piece is assigned

  /** Everything control sees of piece `c` being assigned. */
  ghost predicate Assigns(s: State, s': State, c: nat, state: Phase) {
    && OnlyMoves(s, s', c, state, None) && (state == ASSIGNED || state == WRITABLE)
    && s'.finished == s.finished && s'.frontier == c + 1 && s'.threads == s.threads
    && (forall x :: 0 <= x < |s.chunks| && x != c ==> s'.chunks[x].flush == s.chunks[x].flush)
    && s.assignq != [] && s.assignq[0] == c
    && (var to := if state == ASSIGNED then 4 else if c == s.finished then 5 else 0;
        var next := s.chunks[c].nextPiece;
        if next.Some? && next.value < |s.chunks| && s.chunks[next.value].state == DEDUPLICATED
        then AllMovedTwo(s, s', c, 3, to, next.value, 3)
        else AllMoved(s, s', c, 3, to))
  }

  /** The pieces before an assignable piece are assigned, those after it are not. */
  lemma FrontierAt(s: State, c: nat)
    requires Shape(s) && Links(s) && c < |s.jobs| && s.jobs[c].kind != FullBlock
    requires s.chunks[c].state < ASSIGNED && PreviousAssigned(s, c)
    ensures s.frontier <= c && NoPieces(s.jobs, s.frontier, c)
  {
    assert LinkTo(s.jobs, s.chunks[c].prevPiece, c);
  }

  lemma ShapeAssign(s: State, s': State, c: nat, state: Phase)
    requires Shape(s) && Assigns(s, s', c, state) && s.jobs[c].kind != FullBlock
    requires s.chunks[c].state < ASSIGNED && s.frontier <= c && NoPieces(s.jobs, s.frontier, c)
    ensures Shape(s')
  {
  }

  lemma HomesAssign(s: State, s': State, c: nat, state: Phase)
    requires Shape(s) && Links(s) && Assigns(s, s', c, state) && s.jobs[c].kind != FullBlock
    requires s.chunks[c].state == DEDUPLICATED
    ensures Home(s', c) == if state == ASSIGNED then 4 else if c == s.finished then 5 else 0
    ensures var next := s.chunks[c].nextPiece;
            next.Some? ==>
              && next.value != c && next.value < |s.chunks|
              && (s.chunks[next.value].state == DEDUPLICATED ==> Home(s, next.value) == 0 && Home(s', next.value) == 3)
    ensures forall x: nat :: x != c && !(s.chunks[c].nextPiece == Some(x) && s.chunks[x].state == DEDUPLICATED) ==> Home(s', x) == Home(s, x)
  {
    hide AllMoved, AllMovedTwo, LinkTo, Home, Links, PreviousAssigned;
    var next := s.chunks[c].nextPiece;
    HomesAssignNear(s, s', c, state);
    forall x: nat | x != c && !(next == Some(x) && s.chunks[x].state == DEDUPLICATED)
      ensures Home(s', x) == Home(s, x)
    {
      if x < |s.jobs| {
        HomeUnlinked(s, s', c, state, x);
      } else {
        HomeOutside(s, x);
        HomeOutside(s', x);
      }
    }
  }

  lemma HomesAssignNear(s: State, s': State, c: nat, state: Phase)
    requires Shape(s) && Links(s) && Assigns(s, s', c, state) && s.jobs[c].kind != FullBlock
    requires s.chunks[c].state == DEDUPLICATED
    ensures Home(s', c) == if state == ASSIGNED then 4 else if c == s.finished then 5 else 0
    ensures var next := s.chunks[c].nextPiece;
            next.Some? ==>
              && next.value != c && next.value < |s.chunks|
              && (s.chunks[next.value].state == DEDUPLICATED ==> Home(s, next.value) == 0 && Home(s', next.value) == 3)
  {
    hide AllMoved, AllMovedTwo, LinkTo;
    NextLinked(s, c);
  }

  lemma HomeUnlinked(s: State, s': State, c: nat, state: Phase, x: nat)
    requires Shape(s) && Links(s) && Assigns(s, s', c, state) && x < |s.jobs| && x != c
    requires s.chunks[c].nextPiece == Some(x) ==> s.chunks[x].state != DEDUPLICATED
    ensures Home(s', x) == Home(s, x)
  {
    if s.jobs[x].kind == FullBlock {
      HomeStays(s, s', x);
    } else if s.chunks[c].nextPiece == Some(x) {
      HomeOther(s, s', x);
    } else {
      assert LinkTo(s.jobs, s.chunks[x].prevPiece, x);
      assert s.chunks[x].prevPiece != Some(c);
      HomeStays(s, s', x);
    }
  }

  /** Only the home of a deduplicated piece depends on its predecessor. */
  lemma HomeOther(s: State, s': State, x: nat)
    requires s'.jobs == s.jobs && x < |s.chunks| == |s.jobs| == |s'.chunks| && s'.finished == s.finished
    requires s'.chunks[x].state == s.chunks[x].state != DEDUPLICATED && s'.chunks[x].worker == s.chunks[x].worker
    ensures Home(s', x) == Home(s, x)
  {
  }

  lemma QueuesAssign(s: State, s': State, c: nat, state: Phase)
    requires Shape(s) && Links(s) && Queues(s) && Assigns(s, s', c, state) && s.jobs[c].kind != FullBlock
    requires Home(s, c) == 3
    ensures Queues(s')
  {
    hide Shape, Links, Queues;
    HomesAssign(s, s', c, state);
    var to := if state == ASSIGNED then 4 else if c == s.finished then 5 else 0;
    var next := s.chunks[c].nextPiece;
    if next.Some? && s.chunks[next.value].state == DEDUPLICATED {
      QueuesMoveTwo(s, s', c, 3, to, next.value, 3);
    } else {
      QueuesMove(s, s', c, 3, to);
    }
  }

  lemma ControlAssign(s: State, s': State, t: nat, c: nat, state: Phase)
    requires Control(s) && Assigns(s, s', c, state) && s.jobs[c].kind != FullBlock && Home(s, c) == 3
    requires t in s.threads && s.threads[t] == Awake && s.chunks[c].worker == None
    ensures Control(s')
  {
    hide Shape, Links, Queues, Sleepers;
    NotDone(s, c);
    SleepersStay(s, s', t);
    FrontierAt(s, c);
    ShapeAssign(s, s', c, state);
    LinksMove(s, s', c, state, None);
    WorkersMove(s, s', c, state);
    QueuesAssign(s, s', c, state);
  }

  ghost predicate AssignPieceReady(s: State, c: nat, s1: State) {
    && s.assignq != [] && s.assignq[0] == c && c < |s.chunks| == |s.jobs| && s.chunks[c].worker == None
    && s1 == s.(assignq := s.assignq[1..])
    && s.chunks[c].state == DEDUPLICATED
    && (s.chunks[c].prevPiece.Some? ==> HasTarget(s1, c))
    && (c > 0 ==> (s.chunks[c - 1].state == FINISHED <==> c - 1 < s.finished))
    && s.finished <= c && s.chunks[c].nextPiece != Some(c)
  }

  /** Placing a piece touches its own placement and the fragment blocks, nothing else. */
  lemma PlacePieceFrame(s: State, c: nat)
    requires c < |s.chunks| == |s.jobs| && (s.chunks[c].prevPiece.Some? ==> HasTarget(s, c))
    ensures var s' := PlacePiece(s, c);
            && |s'.chunks| == |s.chunks|
            && s' == s.(frags := s'.frags, chunks := s.chunks[c := s'.chunks[c]])
            && s'.chunks[c] == s.chunks[c].(flush := MustFlush(s, c), block := s'.chunks[c].block, offset := s'.chunks[c].offset)
  {
    hide MustFlush;
  }

  lemma AdvanceMoves(s: State, c: nat)
    requires c < |s.chunks| == |s.jobs| && s.chunks[c].worker == None
    requires c > 0 ==> (s.chunks[c - 1].state == FINISHED <==> c - 1 < s.finished)
    requires s.finished <= c
    ensures var s' := Advance(s, c);
            var state := if s.chunks[c].flush then ASSIGNED else WRITABLE;
            && s' == s.(chunks := s.chunks[c := s.chunks[c].(state := state)], compressq := s'.compressq, writeq := s'.writeq)
            && AllMoved(s, s', c, 0, if s.chunks[c].flush then 4 else if c == s.finished then 5 else 0)
  {
  }

  lemma AssignPieceMoves(s: State, c: nat, s1: State)
    requires AssignPieceReady(s, c, s1)
    ensures var s' := AssignPiece(s1, c);
            && OnlyMoves(s, s', c, if MustFlush(s1, c) then ASSIGNED else WRITABLE, None)
            && s'.finished == s.finished && s'.frontier == c + 1 && s'.threads == s.threads
            && (forall x :: 0 <= x < |s.chunks| && x != c ==> s'.chunks[x].flush == s.chunks[x].flush)
  {
    hide PlacePiece, Advance, MustFlush, AllMoved, Moved, HasTarget;
    PlacePieceFrame(s1, c);
    AdvanceMoves(PlacePiece(s1, c), c);
    assert AssignPiece(s1, c).chunks == Advance(PlacePiece(s1, c), c).chunks;
  }

  lemma AssignPieceQueues(s: State, c: nat, s1: State)
    requires AssignPieceReady(s, c, s1)
    ensures var s' := AssignPiece(s1, c);
            var to := if MustFlush(s1, c) then 4 else if c == s.finished then 5 else 0;
            var next := s.chunks[c].nextPiece;
            if next.Some? && next.value < |s.chunks| && s.chunks[next.value].state == DEDUPLICATED
            then AllMovedTwo(s, s', c, 3, to, next.value, 3)
            else AllMoved(s, s', c, 3, to)
  {
    hide PlacePiece, Advance, MustFlush, HasTarget;
    PlacePieceFrame(s1, c);
    AdvanceMoves(PlacePiece(s1, c), c);
  }

  lemma KeepsAssignPiece(s: State, t: nat, s1: State)
    requires Control(s) && t in s.threads && s.threads[t] == Awake
    requires s.assignq != [] && Home(s, s.assignq[0]) == 3 && |s.chunks| == |s.jobs|
    requires s1 == s.(assignq := s.assignq[1..])
    requires var c := s.assignq[0];
             && s.chunks[c].worker == None && s.jobs[c].kind != FullBlock
             && (s.chunks[c].prevPiece.Some? ==> HasTarget(s1, c))
             && (c > 0 ==> (s.chunks[c - 1].state == FINISHED <==> c - 1 < s.finished))
             && s.finished <= c && s.chunks[c].nextPiece != Some(c)
    ensures Control(AssignPiece(s1, s.assignq[0]))
  {
    hide Control, AssignPiece;
    var c := s.assignq[0];
    AssignPieceMoves(s, c, s1);
    AssignPieceQueues(s, c, s1);
    ControlAssign(s, AssignPiece(s1, c), t, c, if MustFlush(s1, c) then ASSIGNED else WRITABLE);
  }

  lemma KeepsAssignClosing(s: State, t: nat, s1: State)
    requires Control(s) && t in s.threads && s.threads[t] == Awake
    requires s.assignq != [] && Home(s, s.assignq[0]) == 3 && |s.chunks| == |s.jobs|
    requires s1 == s.(assignq := s.assignq[1..])
    requires var c := s.assignq[0];
             && s.chunks[c].worker == None && s.jobs[c].kind != FullBlock && s.chunks[c].nextPiece == None
             && (c > 0 ==> (s.chunks[c - 1].state == FINISHED <==> c - 1 < s.finished))
             && s.finished <= c
    ensures Control(AssignClosing(s1, s.assignq[0]))
  {
    hide Control, AssignClosing, Assigns, Home;
    var c := s.assignq[0];
    HomeInside(s, c);
    ClosingAssigns(s, c, s1);
    ControlAssign(s, AssignClosing(s1, c), t, c, if s.chunks[c].prevPiece.Some? then ASSIGNED else WRITABLE);
  }

  lemma HomeInside(s: State, c: nat)
    requires Home(s, c) > 0
    ensures c < |s.chunks| && c < |s.jobs|
  {
  }

  lemma ClosingAssigns(s: State, c: nat, s1: State)
    requires s.assignq != [] && s.assignq[0] == c < |s.chunks| == |s.jobs| && s1 == s.(assignq := s.assignq[1..])
    requires s.chunks[c].worker == None && s.chunks[c].nextPiece == None && s.finished <= c
    requires c > 0 ==> (s.chunks[c - 1].state == FINISHED <==> c - 1 < s.finished)
    ensures Assigns(s, AssignClosing(s1, c), c, if s.chunks[c].prevPiece.Some? then ASSIGNED else WRITABLE)
  {
    hide Advance;
    AdvanceMoves(SetChunk(s1, c, s1.chunks[c].(flush := s1.chunks[c].prevPiece.Some?)), c);
  }

  // ---------------------------------------------------------------- a chunk is enqueued

  lemma ShapeEnqueue(s: State, job: Job, woken: Option<nat>)
    requires Shape(s) && Links(s) && s.mayAdd && GoodJob(s.options.blockSize, job)
    requires s.lastPiece.Some? ==> s.lastPiece.value < |s.chunks|
    ensures Shape(Enqueue(s, job, woken))
  {
  }

  lemma LastHasNoNext(s: State)
    requires Shape(s) && Links(s) && s.lastPiece.Some?
    ensures s.lastPiece.value < |s.chunks| && s.chunks[s.lastPiece.value].nextPiece == None
  {
    assert LinkTo(s.jobs, s.lastPiece, |s.jobs|);
    NextLinked(s, s.lastPiece.value);
  }

  lemma LinkToExtends(jobs: seq<Job>, job: Job, prev: Option<nat>, c: nat)
    requires c <= |jobs| && LinkTo(jobs, prev, c)
    ensures LinkTo(jobs + [job], prev, c)
    ensures c == |jobs| ==> LinkTo(jobs + [job], if job.kind != FullBlock then Some(c) else prev, c + 1)
  {
  }

  lemma LinksEnqueue(s: State, job: Job, woken: Option<nat>)
    requires |s.chunks| == |s.jobs| && Shape(s) && Links(s) && s.mayAdd
    requires s.lastPiece.Some? ==> s.lastPiece.value < |s.chunks|
    ensures Links(Enqueue(s, job, woken))
  {
    hide Shape, LinkTo, NoPieces;
    var s' := Enqueue(s, job, woken);
    LinkToExtends(s.jobs, job, s.lastPiece, |s.jobs|);
    forall c | 0 <= c < |s'.jobs| && s'.jobs[c].kind != FullBlock
      ensures LinkTo(s'.jobs, s'.chunks[c].prevPiece, c)
    {
      if c < |s.jobs| { LinkToExtends(s.jobs, job, s.chunks[c].prevPiece, c); }
    }
    if job.kind != FullBlock && s.lastPiece.Some? {
      LastHasNoNext(s);
      LastIsPiece(s);
    }
    MutualLinks(s, job, woken);
  }

  /** Previous and next still point at each other after the last piece is linked to the new one. */
  lemma MutualLinks(s: State, job: Job, woken: Option<nat>)
    requires |s.chunks| == |s.jobs| && Links(s)
    requires job.kind != FullBlock && s.lastPiece.Some? ==> s.lastPiece.value < |s.chunks| && s.chunks[s.lastPiece.value].nextPiece == None
    requires s.lastPiece.Some? ==> s.lastPiece.value < |s.chunks|
    ensures var s' := Enqueue(s, job, woken);
            && (forall c :: 0 <= c < |s'.jobs| && s'.chunks[c].nextPiece.Some? ==>
                  s'.chunks[c].nextPiece.value < |s'.jobs| && s'.chunks[s'.chunks[c].nextPiece.value].prevPiece == Some(c))
            && (forall c :: 0 <= c < |s'.jobs| && s'.chunks[c].prevPiece.Some? ==>
                  s'.chunks[c].prevPiece.value < |s'.jobs| && s'.chunks[s'.chunks[c].prevPiece.value].nextPiece == Some(c))
  {
    hide LinkTo, NoPieces;
    var s' := Enqueue(s, job, woken);
    forall c | 0 <= c < |s'.jobs| && s'.chunks[c].prevPiece.Some?
      ensures s'.chunks[c].prevPiece.value < |s'.jobs| && s'.chunks[s'.chunks[c].prevPiece.value].nextPiece == Some(c)
    {
      if c < |s.jobs| {
        assert s'.chunks[c].prevPiece == s.chunks[c].prevPiece;
      }
    }
  }

  lemma LastIsPiece(s: State)
    requires |s.chunks| == |s.jobs| && Links(s) && s.lastPiece.Some?
    ensures s.lastPiece.value < |s.chunks| && s.jobs[s.lastPiece.value].kind != FullBlock
  {
    assert LinkTo(s.jobs, s.lastPiece, |s.jobs|);
  }

  lemma PushedBack(q: seq<nat>, home: nat -> nat, home': nat -> nat, i: nat, added: nat)
    requires Holds(q, home, i) && home(added) != i
    requires forall c: nat :: home'(c) == i <==> home(c) == i || c == added
    ensures Holds(q + [added], home', i)
  {
    forall c: nat
      ensures c in q + [added] <==> home'(c) == i
    {
      assert c in q + [added] <==> c in q || c == added;
    }
  }

  lemma HomesEnqueue(s: State, job: Job, woken: Option<nat>)
    requires |s.chunks| == |s.jobs| && Links(s) && (s.lastPiece.Some? ==> s.lastPiece.value < |s.chunks|)
    ensures Home(Enqueue(s, job, woken), |s.jobs|) == 1 && Home(s, |s.jobs|) == 0
    ensures forall x: nat :: x != |s.jobs| ==> Home(Enqueue(s, job, woken), x) == Home(s, x)
  {
    hide Links;
    var s' := Enqueue(s, job, woken);
    forall x: nat | x != |s.jobs|
      ensures Home(s', x) == Home(s, x)
    {
      if x < |s.jobs| { EnqueueKeeps(s, job, woken, x); }
    }
  }

  lemma EnqueueKeeps(s: State, job: Job, woken: Option<nat>, x: nat)
    requires |s.chunks| == |s.jobs| && (s.lastPiece.Some? ==> s.lastPiece.value < |s.chunks|) && x < |s.jobs|
    ensures var s' := Enqueue(s, job, woken);
            && s'.chunks[x] == s.chunks[x].(nextPiece := s'.chunks[x].nextPiece)
            && s'.jobs[x] == s.jobs[x] && PreviousAssigned(s', x) == PreviousAssigned(s, x)
  {
  }

  lemma QueuesEnqueue(s: State, job: Job, woken: Option<nat>)
    requires |s.chunks| == |s.jobs| && Links(s) && Queues(s) && (s.lastPiece.Some? ==> s.lastPiece.value < |s.chunks|)
    ensures Queues(Enqueue(s, job, woken))
  {
    hide Links, Queues;
    var s', n := Enqueue(s, job, woken), |s.jobs|;
    HomesEnqueue(s, job, woken);
    forall i | 1 <= i <= 5
      ensures Holds(QueueOf(s', i), x => Home(s', x), i)
    {
      QueueHolds(s, i);
      if i == 1 {
        PushedBack(s.readq, x => Home(s, x), x => Home(s', x), i, n);
      } else {
        Untouched(QueueOf(s, i), x => Home(s, x), x => Home(s', x), i);
      }
    }
    QueuesFromHolds(s');
  }

  lemma QueueHolds(s: State, i: nat)
    requires Queues(s) && 1 <= i <= 5
    ensures Holds(QueueOf(s, i), x => Home(s, x), i)
  {
  }

  lemma QueuesFromHolds(s: State)
    requires forall i :: 1 <= i <= 5 ==> Holds(QueueOf(s, i), x => Home(s, x), i)
    ensures Queues(s)
  {
  }

  lemma WorkersEnqueue(s: State, job: Job, woken: Option<nat>)
    requires |s.chunks| == |s.jobs| && Workers(s) && MayWake(s.threads, woken)
    requires s.lastPiece.Some? ==> s.lastPiece.value < |s.chunks|
    ensures Workers(Enqueue(s, job, woken))
  {
  }

  lemma SleepersEnqueue(s: State, job: Job, woken: Option<nat>)
    requires |s.chunks| == |s.jobs| && Sleepers(s) && s.mayAdd && s.finished <= |s.chunks| && MayWake(s.threads, woken)
    requires s.lastPiece.Some? ==> s.lastPiece.value < |s.chunks|
    ensures Sleepers(Enqueue(s, job, woken))
  {
    var s' := Enqueue(s, job, woken);
    if s'.threads != map[] && forall t :: t in s'.threads ==> s'.threads[t] == Waiting || s'.threads[t] == Left {
      if woken.Some? { assert s'.threads[woken.value] == Awake; }
    }
  }

  lemma KeepsEnqueue(s: State, job: Job, woken: Option<nat>)
    requires Control(s) && s.mayAdd && GoodJob(s.options.blockSize, job) && MayWake(s.threads, woken)
    requires |s.chunks| == |s.jobs| && s.finished <= |s.chunks| && (s.lastPiece.Some? ==> s.lastPiece.value < |s.chunks|)
    ensures Control(Enqueue(s, job, woken))
  {
    hide Shape, Links, Queues, Workers, Sleepers, Enqueue, MayWake;
    ShapeEnqueue(s, job, woken);
    LinksEnqueue(s, job, woken);
    QueuesEnqueue(s, job, woken);
    WorkersEnqueue(s, job, woken);
    SleepersEnqueue(s, job, woken);
  }

  // ---------------------------------------------------------------- threads

  lemma OrderThreads(s: State, s': State)
    requires Shape(s) && Links(s) && s' == s.(threads := s'.threads)
    ensures Shape(s') && Links(s')
  {
  }

  lemma WorkersThreads(s: State, s': State)
    requires |s.chunks| == |s.jobs| && Workers(s) && s' == s.(threads := s'.threads)
    requires forall t :: t in s.threads && s.threads[t].Busy? ==> t in s'.threads && s'.threads[t] == s.threads[t]
    requires forall t :: t in s'.threads && s'.threads[t].Busy? ==> t in s.threads && s.threads[t] == s'.threads[t]
    ensures Workers(s')
  {
  }

  lemma HomeThreads(s: State, s': State, x: nat)
    requires s' == s.(threads := s'.threads)
    ensures Home(s', x) == Home(s, x)
  {
    if x < |s.chunks| && x < |s.jobs| {
      assert PreviousAssigned(s', x) == PreviousAssigned(s, x);
    }
  }

  /** Only threads change, and none that holds a chunk. */
  lemma ControlThreads(s: State, s': State)
    requires Control(s) && s' == s.(threads := s'.threads)
    requires forall t :: t in s.threads && s.threads[t].Busy? ==> t in s'.threads && s'.threads[t] == s.threads[t]
    requires forall t :: t in s'.threads && s'.threads[t].Busy? ==> t in s.threads && s.threads[t] == s'.threads[t]
    requires Sleepers(s')
    ensures Control(s')
  {
    assert |s.chunks| == |s.jobs|;
    hide Shape, Links, Queues, Workers, Sleepers, Home;
    OrderThreads(s, s');
    WorkersThreads(s, s');
    forall x: nat
      ensures Home(s', x) == Home(s, x)
    {
      HomeThreads(s, s', x);
    }
    QueuesStay(s, s');
  }

  lemma KeepsThreads(s: State, step: Step)
    requires Control(s) && Enabled(s, step) && (step.Spawn? || step.Sleep? || step.Wake? || step.Leave?)
    ensures Control(Apply(s, step))
  {
    hide Shape, Links, Queues, Workers;
    var s' := Apply(s, step);
    assert s'.threads[step.t] == (if step.Sleep? then Waiting else if step.Leave? then Left else Awake);
    ControlThreads(s, s');
  }

  lemma KeepsSignal(s: State, woken: Option<nat>)
    requires Control(s) && MayWake(s.threads, woken)
    ensures Control(s.(threads := SignalOne(s.threads, woken)))
  {
    hide Shape, Links, Queues, Workers;
    var s' := s.(threads := SignalOne(s.threads, woken));
    if woken.Some? { assert s'.threads[woken.value] == Awake; }
    ControlThreads(s, s');
  }

  // ---------------------------------------------------------------- every step

  lemma WorkKeepsControl(s: State, t: nat)
    requires Control(s) && Enabled(s, Work(t)) && Safe(s, Work(t))
    ensures Control(DoWork(s, t))
  {
    hide Control, Home;
    var c := NextChunk(s);
    NextFacts(s);
    if s.writeq != [] {
      if s.jobs[c].kind == FullBlock { KeepsBeginWriteFull(s, t); }
      else if s.chunks[c].flush { KeepsBeginWritePiece(s, t); }
      else { KeepsMarkFinished(s, t); }
    } else if s.compressq != [] {
      KeepsBeginCompress(s, t);
    } else if s.assignq != [] {
      match s.jobs[c].kind
      case FullBlock => KeepsAssignFull(s, t);
      case FragmentPiece => KeepsAssignPiece(s, t, s.(assignq := s.assignq[1..]));
      case ClosingPiece => KeepsAssignClosing(s, t, s.(assignq := s.assignq[1..]));
    } else if s.dedupq != [] {
      KeepsDeduplicate(s, t);
    } else {
      KeepsRead(s, t);
    }
  }

  /** The chunk that is taken next is at home in the queue it is taken from. */
  lemma NextFacts(s: State)
    requires Control(s) && !Idle(s)
    ensures var c := NextChunk(s);
            && Home(s, c) == (if s.writeq != [] then 5 else if s.compressq != [] then 4 else if s.assignq != [] then 3 else if s.dedupq != [] then 2 else 1)
            && c < |s.chunks| == |s.jobs| && s.chunks[c].worker == None && s.finished <= c
            && (c > 0 ==> (s.chunks[c - 1].state == FINISHED <==> c - 1 < s.finished))
            && s.chunks[c].nextPiece != Some(c) && (s.jobs[c].kind == ClosingPiece ==> s.chunks[c].nextPiece == None)
  {
    hide Shape, Links, Queues, Workers, Sleepers, Home;
    var c := NextChunk(s);
    var i := if s.writeq != [] then 5 else if s.compressq != [] then 4 else if s.assignq != [] then 3 else if s.dedupq != [] then 2 else 1;
    assert c in QueueOf(s, i);
    AtHome(s, i, c);
    HomeFacts(s, c);
  }

  /** What the invariant says about a chunk in a queue. */
  lemma HomeFacts(s: State, c: nat)
    requires Control(s) && Home(s, c) > 0
    ensures c < |s.chunks| == |s.jobs| && s.chunks[c].worker == None && s.finished <= c
    ensures c > 0 ==> (s.chunks[c - 1].state == FINISHED <==> c - 1 < s.finished)
    ensures s.chunks[c].nextPiece != Some(c)
    ensures s.jobs[c].kind == ClosingPiece ==> s.chunks[c].nextPiece == None
  {
    HomeIdle(s, c);
    ControlOrder(s);
    hide Control, Home;
    NextLinked(s, c);
  }

  lemma ControlOrder(s: State)
    requires Control(s)
    ensures Shape(s) && Links(s)
  {
  }

  lemma HomeIdle(s: State, c: nat)
    requires Control(s) && Home(s, c) > 0
    ensures c < |s.chunks| == |s.jobs| && s.chunks[c].worker == None && s.finished <= c
  {
    hide Links, Queues, Sleepers, PreviousAssigned;
  }

  lemma EndKeepsControl(s: State, t: nat)
    requires Control(s) && Enabled(s, End(t)) && Safe(s, End(t))
    ensures Control(DoEnd(s, t))
  {
    var c := s.threads[t].chunk;
    assert s.chunks[c].worker == Some(t) && s.finished <= c;
    assert c > 0 ==> (s.chunks[c - 1].state == FINISHED <==> c - 1 < s.finished);
    assert s.chunks[c].state == WRITABLE ==> c == s.finished;
    hide Control;
    if s.chunks[c].state == NONE {
      KeepsEndRead(s, t, c);
    } else if s.chunks[c].state == ASSIGNED {
      if s.jobs[c].kind == FullBlock { KeepsEndCompressFull(s, t, c); } else { KeepsEndCompressPiece(s, t, c); }
    } else {
      if s.jobs[c].kind == FullBlock { KeepsEndWriteFull(s, t, c); } else { KeepsEndWritePiece(s, t, c); }
    }
  }

  lemma KeepsControl(s: State, step: Step)
    requires Control(s) && Enabled(s, step) && Safe(s, step)
    ensures Control(Apply(s, step))
  {
    hide Control, Safe;
    match step
    case Work(t) => WorkKeepsControl(s, t);
    case End(t) => EndKeepsControl(s, t);
    case Submit(job, woken) =>
      ControlCounts(s);
      KeepsEnqueue(s, job, woken);
    case Seal(woken, also) =>
      ControlCounts(s);
      KeepsEnqueue(s, Job(ClosingPiece, []), woken);
      KeepsSignal(Enqueue(s, Job(ClosingPiece, []), woken), also);
    case _ => KeepsThreads(s, step);
  }

  lemma ControlCounts(s: State)
    requires Control(s)
    ensures |s.chunks| == |s.jobs| && s.finished <= |s.chunks| && (s.lastPiece.Some? ==> s.lastPiece.value < |s.chunks|)
  {
  }
}
