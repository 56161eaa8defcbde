/** The bulk data of an image as an object: chunks on five intrusive queues, taken on by threads under one
    lock. Each method is one critical section; what it does is a step of the pipeline. */
module BulkDataStore {
  import opened Bytes
  import opened Images
  import opened SequentialLayout
  import opened WorkQueues
  import opened Pipeline
  import opened PipelineInvariant
  import opened PipelineControl
  import opened PipelineData
  import opened PipelineSteps
  import opened PipelineTheorems

  // The queues, by the place of their chunks in the order of processing.
  const READQ: nat := 0
  const DEDUPQ: nat := 1
  const ASSIGNQ: nat := 2
  const COMPRESSQ: nat := 3
  const WRITEQ: nat := 4

  class BulkData {
    const options: Options
    const image: Image
    const queues: seq<WorkQueue>
    /** The link fields of the chunks. */
    var links: seq<Link>
    /** All objects the lists are made of. */
    ghost var pool: set<Link>
    var jobs: seq<Job>
    var chunks: seq<Chunk>
    var frags: seq<FragmentBlock>
    var lastPiece: Option<nat>
    var finished: nat
    var mayAdd: bool
    /** Where the threads are. */
    ghost var threads: map<nat, Thread>
    ghost var frontier: nat
    ghost const base: nat
    ghost const file0: bytes
    ghost const log0: seq<Extent>

    // ------------------------------------------------------------ lists

    ghost predicate FiveQueues() {
      |queues| == 5 && forall i, j :: 0 <= i < j < 5 ==> queues[i] != queues[j]
    }

    ghost predicate LinksNumbered()
      reads this`links, this`pool
    {
      && (forall i :: 0 <= i < |links| ==> links[i].index == i && links[i] in pool)
      && (forall l :: l in pool ==> l.index < |links|)
    }

    /** All queues are well formed over the shared link fields, and no chunk is in two of them. */
    ghost predicate Lists()
      reads this`links, this`pool, queues, pool
    {
      && FiveQueues() && LinksNumbered()
      && (forall i :: 0 <= i < 5 ==> QueueFits(queues[i]))
      && (forall i, j :: 0 <= i < j < 5 ==> Disjoint(queues[i].items, queues[j].items))
    }

    ghost predicate QueueFits(q: WorkQueue)
      reads this`pool, q, pool
    {
      (forall k :: 0 <= k < |q.items| ==> q.items[k] in pool) && q.Valid()
    }

    static ghost predicate Disjoint(a: seq<Link>, b: seq<Link>) {
      forall k, m :: 0 <= k < |a| && 0 <= m < |b| ==> a[k] != b[m]
    }

    ghost function Q(i: nat): seq<nat>
      reads queues
    {
      if i < |queues| then Indices(queues[i].items) else []
    }

    /** Chunk `c` is in no queue. */
    ghost predicate Free(c: nat)
      reads queues
    {
      forall i :: 0 <= i < |queues| ==> c !in Q(i)
    }

    lemma FreeLink(c: nat, i: nat)
      requires Lists() && c < |links| && Free(c) && i < 5
      ensures links[c] !in queues[i].items
    {
      assert c !in Q(i);
      forall k | 0 <= k < |queues[i].items|
        ensures queues[i].items[k] != links[c]
      {
        assert Q(i)[k] in Q(i);
      }
    }

    lemma FitsGive(i: nat)
      requires Lists() && i < 5
      ensures queues[i].Valid() && QueueFits(queues[i])
    {
    }

    /** The link fields of all objects in the pool. */
    ghost function LinkFields(): map<Link, (Link?, Link?)>
      reads this`pool, pool
    {
      map l | l in pool :: (l.prev, l.next)
    }

    /** These link fields make a list of these items. */
    static ghost predicate Chained(items: seq<Link>, fields: map<Link, (Link?, Link?)>) {
      && (forall i, j :: 0 <= i < j < |items| ==> items[i] != items[j])
      && (forall i :: 0 <= i < |items| ==> items[i] in fields && fields[items[i]] == (At(items, i - 1), At(items, i + 1)))
    }

    lemma FitsIsChained(q: WorkQueue)
      ensures QueueFits(q) <==> Chained(q.items, LinkFields()) && q.first == At(q.items, 0) && q.last == At(q.items, |q.items| - 1)
    {
      if Chained(q.items, LinkFields()) {
        assert forall i :: 0 <= i < |q.items| ==> LinkFields()[q.items[i]] == (q.items[i].prev, q.items[i].next);
      }
    }

    /** A list none of whose items was touched is still one. */
    static lemma StillChained(items: seq<Link>, was: map<Link, (Link?, Link?)>, now: map<Link, (Link?, Link?)>, touched: seq<Link>)
      requires Chained(items, was) && Disjoint(items, touched) && Untouched(was, now, touched)
      ensures Chained(items, now)
    {
      forall i | 0 <= i < |items|
        ensures items[i] !in touched
      {
      }
    }

    /** Only the fields of `touched` have changed. */
    static ghost predicate Untouched(was: map<Link, (Link?, Link?)>, now: map<Link, (Link?, Link?)>, touched: seq<Link>) {
      was.Keys == now.Keys && forall l :: l in was && l !in touched ==> now[l] == was[l]
    }

    /** All but queue `i` as they were, when the fields were `was` and the items `items`. */
    ghost predicate OthersFit(i: nat, items: seq<seq<Link>>, was: map<Link, (Link?, Link?)>, touched: seq<Link>)
      reads queues
    {
      |items| == 5 == |queues| && i < 5
      && forall j :: 0 <= j < 5 && j != i ==>
           && queues[j].items == items[j] && Chained(items[j], was) && Disjoint(items[j], touched) && Disjoint(items[j], queues[i].items)
           && queues[j].first == At(items[j], 0) && queues[j].last == At(items[j], |items[j]| - 1)
    }

    ghost predicate EachDisjoint(items: seq<seq<Link>>) {
      forall a, b :: 0 <= a < b < |items| ==> Disjoint(items[a], items[b])
    }

    lemma ListsStay(i: nat, items: seq<seq<Link>>, was: map<Link, (Link?, Link?)>, touched: seq<Link>)
      requires i < 5 && FiveQueues() && LinksNumbered() && OthersFit(i, items, was, touched) && EachDisjoint(items)
      requires Untouched(was, LinkFields(), touched) && QueueFits(queues[i])
      ensures Lists()
    {
      hide QueueFits, Disjoint, Chained, Untouched, At;
      forall j | 0 <= j < 5
        ensures QueueFits(queues[j])
      {
        if j != i {
          StillChained(items[j], was, LinkFields(), touched);
          FitsIsChained(queues[j]);
        }
      }
      forall a, b | 0 <= a < b < 5
        ensures Disjoint(queues[a].items, queues[b].items)
      {
        if a == i { DisjointSymmetric(queues[b].items, queues[a].items); }
      }
    }

    /** The items of all queues. */
    ghost function Items(): seq<seq<Link>>
      reads queues
    {
      seq(|queues|, i requires 0 <= i < |queues| reads queues => queues[i].items)
    }

    lemma ListsGive(i: nat)
      requires Lists() && i < 5
      ensures queues[i].Valid() && EachDisjoint(Items()) && FiveQueues() && LinksNumbered() && |Items()| == 5
      ensures forall j :: 0 <= j < 5 ==>
                && Items()[j] == queues[j].items && Chained(queues[j].items, LinkFields())
                && queues[j].first == At(queues[j].items, 0) && queues[j].last == At(queues[j].items, |queues[j].items| - 1)
      ensures forall j :: 0 <= j < 5 && j != i ==> queues[j] != queues[i] && Disjoint(queues[j].items, queues[i].items)
      ensures forall k :: 0 <= k < |queues[i].items| ==> queues[i].items[k] in pool
    {
      hide Disjoint, Chained, At, WorkQueue.Valid;
      forall j | 0 <= j < 5
        ensures Chained(queues[j].items, LinkFields()) && queues[j].first == At(queues[j].items, 0) && queues[j].last == At(queues[j].items, |queues[j].items| - 1)
      {
        FitsIsChained(queues[j]);
      }
      forall j | 0 <= j < 5 && j != i
        ensures queues[j] != queues[i] && Disjoint(queues[j].items, queues[i].items)
      {
        Apart(j, i);
      }
      FitsGive(i);
    }

    lemma Apart(i: nat, j: nat)
      requires Lists() && i < 5 && j < 5 && i != j
      ensures queues[i] != queues[j] && Disjoint(queues[i].items, queues[j].items)
    {
      DisjointSymmetric(queues[i].items, queues[j].items);
      hide Disjoint, QueueFits;
    }

    static lemma DisjointSymmetric(a: seq<Link>, b: seq<Link>)
      ensures Disjoint(a, b) == Disjoint(b, a)
    {
    }

    /** A chunk that is in no queue, and what it may join. */
    lemma Joins(i: nat, c: nat)
      requires Lists() && i < 5 && c < |links| && Free(c)
      ensures links[c] !in queues[i].items && links[c] in pool && links[c].index == c
      ensures forall j :: 0 <= j < 5 && j != i ==> Disjoint(queues[j].items, [links[c]] + queues[i].items)
    {
      FreeLink(c, i);
      forall j | 0 <= j < 5 && j != i
        ensures Disjoint(queues[j].items, [links[c]] + queues[i].items)
      {
        FreeLink(c, j);
        Apart(j, i);
      }
    }

    lemma FieldsKept(was: map<Link, (Link?, Link?)>, touched: seq<Link>)
      requires was.Keys == pool && forall l :: l in pool && l !in touched ==> was[l] == (l.prev, l.next)
      ensures Untouched(was, LinkFields(), touched)
    {
    }

    lemma FitsNow(i: nat)
      requires i < |queues| && queues[i].Valid() && forall k :: 0 <= k < |queues[i].items| ==> queues[i].items[k] in pool
      ensures QueueFits(queues[i])
    {
    }

    lemma OthersNow(i: nat, items: seq<seq<Link>>, was: map<Link, (Link?, Link?)>, touched: seq<Link>)
      requires |items| == 5 == |queues| && i < 5
      requires forall j :: 0 <= j < 5 && j != i ==>
                 && queues[j].items == items[j] && Chained(items[j], was) && Disjoint(items[j], touched)
                 && queues[j].first == At(items[j], 0) && queues[j].last == At(items[j], |items[j]| - 1)
      requires forall k :: 0 <= k < |queues[i].items| ==> queues[i].items[k] in touched
      ensures OthersFit(i, items, was, touched)
    {
      hide Chained, At;
      forall j | 0 <= j < 5 && j != i
        ensures Disjoint(items[j], queues[i].items)
      {
        Within(items[j], touched, queues[i].items);
      }
    }

    static lemma Within(x: seq<Link>, a: seq<Link>, b: seq<Link>)
      requires Disjoint(x, a) && forall k :: 0 <= k < |b| ==> b[k] in a
      ensures Disjoint(x, b)
    {
    }

    /** Puts chunk `c` at the head of queue `i`. */
    method PushFront(i: nat, c: nat)
      requires Lists() && i < 5 && c < |links| && Free(c)
      modifies queues[i], pool
      ensures Lists() && Q(i) == [c] + old(Q(i)) && forall j :: 0 <= j < 5 && j != i ==> Q(j) == old(Q(j))
    {
      hide WorkQueue.Valid, Disjoint, Lists, Chained, At, QueueFits, Untouched, EachDisjoint, Free;
      ListsGive(i);
      Joins(i, c);
      ghost var items, was, touched := Items(), LinkFields(), [links[c]] + queues[i].items;
      queues[i].PushFront(links[c]);
      FieldsKept(was, touched);
      FitsNow(i);
      OthersNow(i, items, was, touched);
      ListsStay(i, items, was, touched);
    }

    /** Puts chunk `c` at the end of queue `i`. */
    method PushBack(i: nat, c: nat)
      requires Lists() && i < 5 && c < |links| && Free(c)
      modifies queues[i], pool
      ensures Lists() && Q(i) == old(Q(i)) + [c] && forall j :: 0 <= j < 5 && j != i ==> Q(j) == old(Q(j))
    {
      hide WorkQueue.Valid, Disjoint, Lists, Chained, At, QueueFits, Untouched, EachDisjoint, Free;
      ListsGive(i);
      Joins(i, c);
      ghost var items, was, touched := Items(), LinkFields(), [links[c]] + queues[i].items;
      queues[i].PushBack(links[c]);
      FieldsKept(was, touched);
      FitsNow(i);
      OthersNow(i, items, was, touched);
      ListsStay(i, items, was, touched);
    }

    /** Takes the first chunk of queue `i`. */
    method Pop(i: nat) returns (c: Option<nat>)
      requires Lists() && i < 5
      modifies queues[i], pool
      ensures Lists() && forall j :: 0 <= j < 5 && j != i ==> Q(j) == old(Q(j))
      ensures old(Q(i)) == [] ==> c == None && Q(i) == []
      ensures old(Q(i)) != [] ==> c == Some(old(Q(i))[0]) && Q(i) == old(Q(i))[1..]
    {
      hide WorkQueue.Valid, Disjoint, Lists, Chained, At, QueueFits, Untouched, EachDisjoint;
      ListsGive(i);
      ghost var items, was, touched := Items(), LinkFields(), queues[i].items;
      var link := queues[i].Pop();
      FieldsKept(was, touched);
      FitsNow(i);
      OthersNow(i, items, was, touched);
      ListsStay(i, items, was, touched);
      c := if link == null then None else Some(link.index);
    }

    // ------------------------------------------------------------ the state

    /** What the pipeline sees of the object. */
    ghost function Now(): State
      reads this, image, queues
    {
      State(options, base, file0, log0, jobs, chunks, frags, lastPiece, Q(READQ), Q(DEDUPQ), Q(ASSIGNQ), Q(COMPRESSQ), Q(WRITEQ),
            finished, mayAdd, image.size, image.file, image.log, threads, frontier)
    }

    /** The lists are well formed, and there is a link for each chunk. */
    ghost predicate Ready()
      reads this`links, this`pool, this`chunks, queues, pool
    {
      |queues| == 5 && Lists() && |links| == |chunks|
    }

    constructor (options: Options, image: Image)
      ensures this.options == options && this.image == image && fresh(queues)
      ensures Ready() && Now() == Initial(options, image.size, image.file, image.log)
    {
      hide Lists, Ready, FiveQueues, WorkQueue.Valid;
      var a := new WorkQueue();
      var b := new WorkQueue();
      var c := new WorkQueue();
      var d := new WorkQueue();
      var e := new WorkQueue();
      this.options, this.image, queues, pool := options, image, [a, b, c, d, e], {};
      links, jobs, chunks, frags, lastPiece, finished, mayAdd := [], [], [], [], None, 0, true;
      threads, frontier, base, file0, log0 := map[], 0, image.size, image.file, image.log;
      new;
      Starts(a, b, c, d, e);
    }

    lemma Starts(a: WorkQueue, b: WorkQueue, c: WorkQueue, d: WorkQueue, e: WorkQueue)
      requires queues == [a, b, c, d, e] && a != b && a != c && a != d && a != e && b != c && b != d && b != e && c != d && c != e && d != e
      requires a.items == [] && b.items == [] && c.items == [] && d.items == [] && e.items == []
      requires a.Valid() && b.Valid() && c.Valid() && d.Valid() && e.Valid() && links == [] && pool == {} && chunks == []
      ensures Ready() && Q(READQ) == [] && Q(DEDUPQ) == [] && Q(ASSIGNQ) == [] && Q(COMPRESSQ) == [] && Q(WRITEQ) == []
    {
      hide WorkQueue.Valid;
    }

    // ------------------------------------------------------------ the stages

    method TryWriteout(c: nat)
      requires Ready() && c < |chunks| && Free(c)
      modifies queues, pool
      ensures Ready() && Now() == Pipeline.TryWriteout(old(Now()), c)
    {
      hide Lists, Free;
      if chunks[c].state != WRITABLE { return; }
      if c > 0 && chunks[c - 1].state != FINISHED { return; }
      PushFront(WRITEQ, c);
    }

    method MarkFinished(c: nat)
      requires Ready() && c < |chunks|
      requires c + 1 < |chunks| && chunks[c + 1].state == WRITABLE ==> Free(c + 1)
      modifies this`chunks, this`finished, this`threads, queues, pool
      ensures Ready() && Now() == Pipeline.MarkFinished(old(Now()), c)
    {
      hide Lists, Free, Broadcast, Indices, Q;
      chunks := chunks[c := chunks[c].(state := FINISHED, worker := None)];
      if c + 1 < |chunks| && chunks[c + 1].state == WRITABLE {
        PushFront(WRITEQ, c + 1);
      }
      CountFinished();
    }

    method CountFinished()
      modifies this`finished, this`threads
      ensures finished == old(finished) + 1
      ensures threads == if finished == |chunks| then Broadcast(old(threads)) else old(threads)
    {
      finished := finished + 1;
      if finished == |chunks| { threads := Broadcast(threads); }
    }

    /** Takes a chunk on for reading; the closing piece has nothing to read. */
    method Read(t: nat, c: nat)
      requires Ready() && c < |chunks| == |jobs| && Free(c)
      modifies this`chunks, this`threads, queues, pool
      ensures Ready() && Now() == Pipeline.Read(old(Now()), t, c)
    {
      hide Lists, Free;
      if jobs[c].kind == ClosingPiece {
        chunks := chunks[c := chunks[c].(state := READ)];
        PushFront(DEDUPQ, c);
      } else {
        chunks, threads := chunks[c := chunks[c].(worker := Some(t))], threads[t := Busy(c)];
      }
    }

    method EndRead(t: nat, c: nat)
      requires Ready() && c < |chunks| == |jobs| && Free(c)
      modifies this`chunks, this`threads, queues, pool
      ensures Ready() && Now() == Pipeline.EndRead(old(Now()), t, c)
    {
      hide Lists, Free, Q;
      chunks := chunks[c := chunks[c].(state := Pipeline.READ, worker := None, cached := Some(jobs[c].data))];
      PushFront(DEDUPQ, c);
      threads := threads[t := Awake];
    }

    method Deduplicate(c: nat)
      requires Ready() && c < |chunks| == |jobs| && Free(c) && chunks[c].prevPiece != Some(c)
      modifies this`chunks, queues, pool
      ensures Ready() && Now() == Pipeline.Deduplicate(old(Now()), c)
    {
      hide Lists, Free;
      chunks := chunks[c := chunks[c].(state := DEDUPLICATED)];
      var previous := chunks[c].prevPiece;
      if jobs[c].kind != FullBlock && previous.Some? && !(previous.value < |chunks| && chunks[previous.value].state >= ASSIGNED) {
        return;
      }
      PushFront(ASSIGNQ, c);
    }

    method AssignFull(c: nat)
      requires Ready() && c < |chunks| && Free(c)
      modifies this`chunks, queues, pool
      ensures Ready() && Now() == Pipeline.AssignFull(old(Now()), c)
    {
      hide Lists, Free;
      chunks := chunks[c := chunks[c].(state := ASSIGNED)];
      PushFront(COMPRESSQ, c);
    }

    /** The next piece of some chunk is about to be assigned, if it is waiting for that. */
    ghost predicate NextFree(c: nat)
      reads this`chunks, queues
    {
      c < |chunks| &&
      var next := chunks[c].nextPiece;
      next.Some? && next.value < |chunks| && chunks[next.value].state == DEDUPLICATED ==> next.value != c && Free(next.value)
    }

    /** Finds the block a piece goes to: that of its predecessor, or a new one. */
    method PlacePiece(c: nat)
      requires c < |chunks| == |jobs| && (chunks[c].prevPiece.Some? ==> HasTarget(Now(), c))
      requires Ready() && !chunks[c].flush && chunks[c].prevPiece != Some(c)
      modifies this`chunks, this`frags
      ensures Ready() && Now() == Pipeline.PlacePiece(old(Now()), c)
    {
      hide Lists, Indices;
      var k: Option<nat> := None;
      if chunks[c].prevPiece.Some? {
        k := chunks[chunks[c].prevPiece.value].block;
        if frags[k.value].size + |jobs[c].data| > options.blockSize {
          chunks := chunks[c := chunks[c].(flush := true)];
          k := None;
        }
      }
      if k.None? {
        frags := frags + [FragmentBlock(0, [], EMPTY_BLOCK)];
        k := Some(|frags| - 1);
      }
      var b := frags[k.value];
      chunks := chunks[c := chunks[c].(block := k, offset := b.size)];
      frags := frags[k.value := FragmentBlock(b.size + |jobs[c].data|, b.pieces + [c], b.dst)];
    }

    /** Sends a placed piece on: to compression if it has a block to write out. */
    method Advance(c: nat)
      requires Ready() && c < |chunks| && Free(c)
      modifies this`chunks, queues, pool
      ensures Ready() && Now() == Pipeline.Advance(old(Now()), c)
    {
      hide Lists, Free;
      if chunks[c].flush {
        chunks := chunks[c := chunks[c].(state := ASSIGNED)];
        PushFront(COMPRESSQ, c);
      } else {
        chunks := chunks[c := chunks[c].(state := WRITABLE)];
        TryWriteout(c);
      }
    }

    lemma FreeNow(c: nat)
      requires |queues| == 5
      ensures Free(c) <==> FreeIn(Now(), c)
    {
      assert FreeIn(Now(), c) <==> c !in Q(READQ) && c !in Q(DEDUPQ) && c !in Q(ASSIGNQ) && c !in Q(COMPRESSQ) && c !in Q(WRITEQ);
    }

    /** The next piece, if it has been waiting for this one, may be assigned now. */
    method PushNext(c: nat)
      requires Ready() && c < |chunks| && NextFree(c)
      modifies queues, pool
      ensures Ready() && Now() == Pipeline.PushNext(old(Now()), c)
    {
      hide Lists, Free;
      var next := chunks[c].nextPiece;
      if next.Some? && next.value < |chunks| && chunks[next.value].state == DEDUPLICATED {
        PushFront(ASSIGNQ, next.value);
      }
    }

    lemma NextNow(c: nat)
      requires |queues| == 5 && NextFreeIn(Now(), c)
      ensures c < |chunks| && NextFree(c)
    {
      hide FreeIn, Free;
      var next := chunks[c].nextPiece;
      if next.Some? { FreeNow(next.value); }
    }

    method AssignPiece(c: nat)
      requires Ready() && c < |chunks| == |jobs| && (chunks[c].prevPiece.Some? ==> HasTarget(Now(), c))
      requires !chunks[c].flush && chunks[c].prevPiece != Some(c) && FreeIn(Now(), c) && NextFreeIn(Now(), c)
      modifies this`chunks, this`frags, this`frontier, queues, pool
      ensures Ready() && Now() == Pipeline.AssignPiece(old(Now()), c)
    {
      hide Lists, Free, NextFree, Pipeline.PlacePiece, Pipeline.Advance, Pipeline.PushNext, FreeIn, NextFreeIn, HasTarget;
      PlaceKeeps(Now(), c);
      PlacePiece(c);
      FreeNow(c);
      AdvanceKeeps(Now(), c);
      Advance(c);
      NextNow(c);
      PushNext(c);
      frontier := c + 1;
    }

    method AssignClosing(c: nat)
      requires Ready() && c < |chunks| && Free(c) && !chunks[c].flush
      modifies this`chunks, this`frontier, queues, pool
      ensures Ready() && Now() == Pipeline.AssignClosing(old(Now()), c)
    {
      hide Lists, Free, Pipeline.Advance, Indices;
      if chunks[c].prevPiece.Some? {
        chunks := chunks[c := chunks[c].(flush := true)];
      }
      assert chunks == old(chunks)[c := old(chunks)[c].(flush := old(chunks)[c].prevPiece.Some?)];
      Advance(c);
      frontier := c + 1;
    }

    // compressing

    method BeginCompress(t: nat, c: nat)
      requires Ready() && c < |chunks|
      modifies this`chunks, this`threads
      ensures Ready() && Now() == Pipeline.BeginCompress(old(Now()), t, c)
    {
      hide Lists, Indices;
      chunks, threads := chunks[c := chunks[c].(worker := Some(t))], threads[t := Busy(c)];
    }

    method EndCompressFull(t: nat, c: nat)
      requires Ready() && c < |chunks| && Free(c) && chunks[c].cached.Some?
      modifies this`chunks, this`threads, queues, pool
      ensures Ready() && Now() == Pipeline.EndCompressFull(old(Now()), t, c)
    {
      hide Lists, Free, Indices, Pipeline.TryWriteout, Compressed;
      var dst := Compressed(options.codec, options.compressBlocks, chunks[c].cached.value);
      chunks := chunks[c := chunks[c].(state := WRITABLE, worker := None, dst := dst, cached := None)];
      TryWriteout(c);
      threads := threads[t := Awake];
    }

    /** Puts the cached data of the pieces of a block together, and gives them up. */
    method TakeData(pieces: seq<nat>) returns (buffer: bytes)
      requires AllCached(Now(), pieces)
      requires forall i, j :: 0 <= i < j < |pieces| ==> pieces[i] != pieces[j]
      modifies this`chunks
      ensures buffer == old(Gather(Now(), pieces))
      ensures chunks == Release(old(chunks), pieces)
    {
      hide Indices;
      ghost var s := Now();
      buffer := [];
      var n := 0;
      ReleaseNone(chunks);
      while n < |pieces|
        invariant n <= |pieces| && AllCached(s, pieces[..n])
        invariant buffer == Gather(s, pieces[..n]) && chunks == Release(s.chunks, pieces[..n])
      {
        var p := pieces[n];
        ReleaseNext(s, pieces, n);
        buffer := buffer + chunks[p].cached.value;
        chunks := chunks[p := chunks[p].(cached := None)];
        n := n + 1;
      }
      assert pieces[..n] == pieces;
    }

    /** Compresses a fragment block. */
    method StoreFragment(k: nat)
      requires k < |frags| && AllCached(Now(), frags[k].pieces)
      requires forall i, j :: 0 <= i < j < |frags[k].pieces| ==> frags[k].pieces[i] != frags[k].pieces[j]
      modifies this`chunks, this`frags
      ensures chunks == Release(old(chunks), old(frags[k].pieces))
      ensures frags == old(frags)[k := old(frags[k]).(dst := Compressed(options.codec, options.compressFragments, old(Gather(Now(), frags[k].pieces))))]
    {
      hide Gather, Release, Compressed, AllCached, Indices;
      var buffer := TakeData(frags[k].pieces);
      var dst := Compressed(options.codec, options.compressFragments, buffer);
      frags := frags[k := frags[k].(dst := dst)];
    }

    method EndCompressPiece(t: nat, c: nat)
      requires Ready() && c < |chunks| && Free(c)
      requires HasTarget(Now(), c) && AllCached(Now(), frags[Target(Now(), c)].pieces)
      requires var pieces := frags[Target(Now(), c)].pieces; forall i, j :: 0 <= i < j < |pieces| ==> pieces[i] != pieces[j]
      modifies this`chunks, this`frags, this`threads, queues, pool
      ensures Ready() && Now() == Pipeline.EndCompressPiece(old(Now()), t, c)
    {
      hide Lists, Free, Indices, Pipeline.TryWriteout, Compressed, Gather, Release, AllCached;
      var k := chunks[chunks[c].prevPiece.value].block.value;
      ReleaseOnlyData(chunks, frags[k].pieces);
      StoreFragment(k);
      chunks := chunks[c := chunks[c].(state := WRITABLE, worker := None)];
      TryWriteout(c);
      threads := threads[t := Awake];
    }

    // writing

    /** Reserves room for a block that is about to be written. */
    method BeginWriteFull(t: nat, c: nat)
      requires Ready() && c < |chunks|
      modifies this`chunks, this`threads, image`size
      ensures Ready() && Now() == Pipeline.BeginWriteFull(old(Now()), t, c)
    {
      hide Lists, Indices;
      var offset := image.Reserve(chunks[c].dst.size);
      chunks := chunks[c := chunks[c].(worker := Some(t), dst := chunks[c].dst.(offset := offset))];
      threads := threads[t := Busy(c)];
    }

    method BeginWritePiece(t: nat, c: nat)
      requires Ready() && HasTarget(Now(), c)
      modifies this`chunks, this`frags, this`threads, image`size
      ensures Ready() && Now() == Pipeline.BeginWritePiece(old(Now()), t, c)
    {
      hide Lists, Indices;
      var k := chunks[chunks[c].prevPiece.value].block.value;
      var offset := image.Reserve(frags[k].dst.size);
      frags := frags[k := frags[k].(dst := frags[k].dst.(offset := offset))];
      chunks, threads := chunks[c := chunks[c].(worker := Some(t))], threads[t := Busy(c)];
    }

    method EndWriteFull(t: nat, c: nat)
      requires Ready() && c < |chunks| && chunks[c].dst.offset >= 0 && chunks[c].dst.data.Some?
      requires c + 1 < |chunks| && chunks[c + 1].state == WRITABLE ==> Free(c + 1)
      modifies this`chunks, this`finished, this`threads, image`file, image`log, queues, pool
      ensures Ready() && Now() == Pipeline.EndWriteFull(old(Now()), t, c)
    {
      hide Lists, Indices, Free, Pipeline.MarkFinished, Pwrite, CoversOnce, Q;
      image.Write(chunks[c].dst.offset, chunks[c].dst.data.value);
      chunks := chunks[c := chunks[c].(dst := chunks[c].dst.(data := None))];
      threads := threads[t := Awake];
      MarkFinished(c);
    }

    method EndWritePiece(t: nat, c: nat)
      requires Ready() && HasTarget(Now(), c) && frags[Target(Now(), c)].dst.offset >= 0 && frags[Target(Now(), c)].dst.data.Some?
      requires c + 1 < |chunks| && chunks[c + 1].state == WRITABLE ==> Free(c + 1)
      modifies this`chunks, this`frags, this`finished, this`threads, image`file, image`log, queues, pool
      ensures Ready() && Now() == Pipeline.EndWritePiece(old(Now()), t, c)
    {
      hide Lists, Indices, Free, Pipeline.MarkFinished, Pwrite, CoversOnce, Q;
      var k := chunks[chunks[c].prevPiece.value].block.value;
      image.Write(frags[k].dst.offset, frags[k].dst.data.value);
      frags := frags[k := frags[k].(dst := frags[k].dst.(data := None))];
      threads := threads[t := Awake];
      MarkFinished(c);
    }

    // ------------------------------------------------------------ submitting

    lemma InLists(i: nat, c: nat)
      requires Lists() && i < 5 && c in Q(i)
      ensures c < |links|
    {
      var k :| 0 <= k < |Q(i)| && Q(i)[k] == c;
      FitsGive(i);
      assert queues[i].items[k] in pool;
    }

    /** A link for a new chunk, which is in no queue yet. */
    method AddLink()
      requires Lists()
      modifies this`links, this`pool
      ensures Lists() && |links| == old(|links|) + 1 && Free(old(|links|)) && fresh(pool - old(pool)) && old(pool) <= pool
      ensures Now() == old(Now())
    {
      hide Lists, WorkQueue.Valid, Disjoint, QueueFits, Indices;
      ListParts();
      NotListed();
      ghost var was := pool;
      var link := new Link(|links|);
      links, pool := links + [link], pool + {link};
      ListsGrown(was);
    }

    lemma ListParts()
      requires Lists()
      ensures FiveQueues() && LinksNumbered() && forall i, j :: 0 <= i < j < 5 ==> Disjoint(queues[i].items, queues[j].items)
      ensures forall i :: 0 <= i < 5 ==> queues[i].Valid() && InPool(queues[i].items, pool)
    {
      hide WorkQueue.Valid, Disjoint;
    }

    static ghost predicate InPool(items: seq<Link>, pool: set<Link>) {
      forall k :: 0 <= k < |items| ==> items[k] in pool
    }

    lemma NotListed()
      requires Lists()
      ensures Free(|links|)
    {
      hide Lists, Indices;
      forall i | 0 <= i < |queues|
        ensures |links| !in Q(i)
      {
        FiveOfThem();
        if |links| in Q(i) { InLists(i, |links|); }
      }
    }

    lemma FiveOfThem()
      requires Lists()
      ensures |queues| == 5
    {
    }

    /** More links in the pool do not disturb the lists. */
    lemma ListsGrown(was: set<Link>)
      requires FiveQueues() && LinksNumbered() && was <= pool && forall i, j :: 0 <= i < j < 5 ==> Disjoint(queues[i].items, queues[j].items)
      requires forall i :: 0 <= i < 5 ==> queues[i].Valid() && InPool(queues[i].items, was)
      ensures Lists()
    {
      hide WorkQueue.Valid, Disjoint;
    }

    /** A signal on the condition: it wakes one of the waiting threads, if there are any. */
    ghost method Signal() returns (woken: Option<nat>)
      modifies this`threads
      ensures MayWake(old(threads), woken) && threads == SignalOne(old(threads), woken)
    {
      woken := None;
      if t :| t in threads && threads[t] == Waiting {
        woken, threads := Some(t), threads[t := Awake];
      }
    }

    /** Puts a chunk behind all others and on the read queue. */
    method EnqueueChunk(job: Job) returns (c: nat, ghost woken: Option<nat>)
      requires Ready() && |jobs| == |chunks|
      modifies this`links, this`pool, this`jobs, this`chunks, this`threads, queues, pool
      ensures Ready() && c == |old(chunks)| && MayWake(old(threads), woken)
      ensures fresh(pool - old(pool)) && old(pool) <= pool
      ensures Now() == old(Now()).(jobs := old(jobs) + [job], chunks := old(chunks) + [NewChunk()], readq := old(Q(READQ)) + [c],
                                   threads := SignalOne(old(threads), woken))
    {
      hide Lists, Free, Indices, MayWake, SignalOne, NewChunk, LinksNumbered, FiveQueues, Q;
      c := |chunks|;
      AddLink();
      chunks := chunks + [NewChunk()];
      jobs := jobs + [job];
      PushBack(READQ, c);
      woken := Signal();
    }

    /** Enqueues a chunk; a piece also goes on the chain of pieces. */
    method Enqueue(job: Job) returns (c: nat, ghost woken: Option<nat>)
      requires Ready() && |jobs| == |chunks| && (lastPiece.Some? ==> lastPiece.value < |chunks|)
      modifies this`links, this`pool, this`jobs, this`chunks, this`lastPiece, this`mayAdd, this`threads, queues, pool
      ensures Ready() && c == |old(chunks)| && MayWake(old(threads), woken) && Now() == Pipeline.Enqueue(old(Now()), job, woken)
      ensures fresh(pool - old(pool)) && old(pool) <= pool
    {
      hide Lists, Free, Indices, MayWake, SignalOne, Pipeline.Enqueue, NewChunk, OnChain, Q;
      ghost var s := Now();
      c, woken := EnqueueChunk(job);
      if job.kind != FullBlock { LinkPiece(c); }
      if job.kind == ClosingPiece { mayAdd := false; }
      EnqueuedIs(s, Now(), job, woken);
    }

    /** Puts a chunk behind the last piece. */
    method LinkPiece(c: nat)
      requires Ready() && c < |chunks| && (lastPiece.Some? ==> lastPiece.value < |chunks|)
      modifies this`chunks, this`lastPiece
      ensures Ready() && Now() == old(Now()).(chunks := OnChain(old(chunks), old(lastPiece), c), lastPiece := Some(c))
    {
      hide Lists, Indices;
      chunks := chunks[c := chunks[c].(prevPiece := lastPiece)];
      if lastPiece.Some? { chunks := chunks[lastPiece.value := chunks[lastPiece.value].(nextPiece := Some(c))]; }
      lastPiece := Some(c);
    }

    /** Submits a full block or a piece of a file; this must not be done once the image is sealed. */
    method Submit(job: Job) returns (c: nat)
      requires Ready() && Inv(Now()) && mayAdd && job.kind != ClosingPiece && GoodJob(options.blockSize, job)
      modifies this`links, this`pool, this`jobs, this`chunks, this`lastPiece, this`mayAdd, this`threads, queues, pool
      ensures Ready() && Inv(Now()) && mayAdd && c == |old(jobs)| && jobs == old(jobs) + [job]
      ensures fresh(pool - old(pool)) && old(pool) <= pool
    {
      hide Lists, Inv, Indices, MayWake;
      ghost var s, woken := Now(), None;
      EnqueueFits(s);
      c, woken := Enqueue(job);
      SubmitKeeps(s, job, woken);
    }

    /** Closes the image: what is in the last fragment block is to be written out, and nothing may follow. */
    method Seal()
      requires Ready() && Inv(Now())
      modifies this`links, this`pool, this`jobs, this`chunks, this`lastPiece, this`mayAdd, this`threads, queues, pool
      ensures Ready() && Inv(Now()) && !mayAdd
      ensures jobs == if old(mayAdd) then old(jobs) + [Job(ClosingPiece, [])] else old(jobs)
      ensures fresh(pool - old(pool)) && old(pool) <= pool && (old(threads) == map[] ==> threads == map[])
    {
      hide Lists, Inv, Indices, MayWake, SignalOne;
      NoneToWake(threads);
      if mayAdd {
        ghost var s, c, woken, also := Now(), 0, None, None;
        EnqueueFits(s);
        c, woken := Enqueue(Job(ClosingPiece, []));
        also := Signal();
        SealKeeps(s, woken, also);
      }
    }

    /** A thread enters the processing loop. */
    ghost method Enter(t: nat)
      requires Ready() && Inv(Now()) && t !in threads
      modifies this`threads
      ensures Ready() && Inv(Now()) && threads == old(threads)[t := Awake]
    {
      hide Lists, Inv, Indices;
      KeepsInv(Now(), Step.Spawn(t));
      threads := threads[t := Awake];
    }

    // ------------------------------------------------------------ processing

    /** The chunk has come off the write queue. */
    method WriteStage(t: nat, c: nat, ghost s: State) returns (held: Option<nat>)
      requires Ready() && Inv(s) && !Idle(s) && s.writeq != [] && CanWork(s) && c == NextChunk(s) && Now() == WithoutNext(s)
      modifies this`chunks, this`frags, this`finished, this`threads, image`size, queues, pool
      ensures Ready() && Now() == DoWork(s, t) && held == HeldAfter(s)
    {
      hide Lists, Inv, Indices, Pipeline.BeginWriteFull, Pipeline.BeginWritePiece, Pipeline.MarkFinished, FreeIn, Free;
      if c + 1 < |chunks| { FreeNow(c + 1); }
      held := Some(c);
      if jobs[c].kind == FullBlock {
        BeginWriteFull(t, c);
      } else if chunks[c].flush {
        BeginWritePiece(t, c);
      } else {
        MarkFinished(c);
        held := None;
      }
    }

    /** The chunk has come off the read queue. */
    method ReadStage(t: nat, c: nat, ghost s: State) returns (held: Option<nat>)
      requires Ready() && Inv(s) && !Idle(s) && s.writeq == [] && s.compressq == [] && s.assignq == [] && s.dedupq == []
      requires CanWork(s) && c == NextChunk(s) && Now() == WithoutNext(s)
      modifies this`chunks, this`threads, queues, pool
      ensures Ready() && Now() == DoWork(s, t) && held == HeldAfter(s)
    {
      hide Lists, Inv, Indices, Pipeline.Read, FreeIn, Free;
      FreeNow(c);
      held := if jobs[c].kind == ClosingPiece then None else Some(c);
      Read(t, c);
    }

    /** The chunk has come off the assign queue. */
    method AssignStage(t: nat, c: nat, ghost s: State)
      requires Ready() && Inv(s) && !Idle(s) && s.writeq == [] && s.compressq == [] && s.assignq != []
      requires CanWork(s) && c == NextChunk(s) && Now() == WithoutNext(s)
      modifies this`chunks, this`frags, this`frontier, queues, pool
      ensures Ready() && Now() == DoWork(s, t)
    {
      hide Lists, Inv, Indices, Pipeline.AssignFull, Pipeline.AssignPiece, Pipeline.AssignClosing, FreeIn, NextFreeIn, Free;
      FreeNow(c);
      match jobs[c].kind
      case FullBlock => AssignFull(c);
      case FragmentPiece => AssignPiece(c);
      case ClosingPiece => AssignClosing(c);
    }

    /** One round of the processing loop: takes the first chunk of the first queue that has one, and works on
        it up to where the lock is given up; `held` is the chunk the thread is then busy with. */
    method ProcessSingle(t: nat) returns (worked: bool, held: Option<nat>)
      requires Ready() && Inv(Now()) && t in threads && threads[t] == Awake
      modifies this`chunks, this`frags, this`finished, this`frontier, this`threads, image`size, queues, pool
      ensures Ready() && Inv(Now()) && worked == !Idle(old(Now()))
      ensures !worked ==> Now() == old(Now()) && held == None
      ensures worked ==> SafeWork(old(Now()), NextChunk(old(Now()))) && Now() == DoWork(old(Now()), t) && held == HeldAfter(old(Now()))
    {
      hide Lists, Inv, Indices, DoWork, SafeWork, FreeIn, NextFreeIn, Free, Pipeline.BeginCompress, Pipeline.Deduplicate, Pipeline.Read, Q;
      ghost var s := Now();
      if !Idle(s) {
        WorkFacts(s);
        StepKeeps(s, t);
      }
      var c := Pop(WRITEQ);
      if c.Some? {
        held := WriteStage(t, c.value, s);
        return true, held;
      }
      c := Pop(COMPRESSQ);
      if c.Some? {
        CompressIs(s, t);
        BeginCompress(t, c.value);
        return true, c;
      }
      c := Pop(ASSIGNQ);
      if c.Some? {
        AssignStage(t, c.value, s);
        return true, None;
      }
      c := Pop(DEDUPQ);
      if c.Some? {
        DedupIs(s, t);
        FreeNow(c.value);
        Deduplicate(c.value);
        return true, None;
      }
      c := Pop(READQ);
      if c.Some? {
        held := ReadStage(t, c.value, s);
        return true, held;
      }
      return false, None;
    }

    /** The lock is taken again: the thread is done reading, compressing or writing. */
    method EndOperation(t: nat, c: nat)
      requires Ready() && Inv(Now()) && t in threads && threads[t] == Busy(c)
      modifies this`chunks, this`frags, this`finished, this`threads, image`file, image`log, queues, pool
      ensures Ready() && Inv(Now())
      ensures SafeEnd(old(Now()), c) && Now() == DoEnd(old(Now()), t)
    {
      hide Lists, Inv, Indices, FreeIn, Free, HasTarget, Target, Pipeline.EndRead, Pipeline.EndCompressFull, Pipeline.EndCompressPiece,
        Pipeline.EndWriteFull, Pipeline.EndWritePiece, AllCached;
      EndFacts(Now(), t);
      EndKeeps(Now(), t);
      FreeNow(c);
      if c + 1 < |chunks| { FreeNow(c + 1); }
      if chunks[c].state == NONE {
        EndRead(t, c);
      } else if chunks[c].state == ASSIGNED {
        if jobs[c].kind == FullBlock { EndCompressFull(t, c); } else { EndCompressPiece(t, c); }
      } else {
        if jobs[c].kind == FullBlock { EndWriteFull(t, c); } else { EndWritePiece(t, c); }
      }
    }

    /** The processing loop of a sealed image, with no other thread in it: it ends with all chunks finished,
        and the image as the sequential layout has it. */
    method ProcessAlone(t: nat)
      requires Ready() && Inv(Now()) && !mayAdd && threads == map[t := Awake]
      modifies this`chunks, this`frags, this`finished, this`frontier, this`threads, image, queues, pool
      ensures Ready() && Inv(Now()) && Done(Now()) && SameGivens(old(Now()), Now()) && Sequential(Now())
    {
      hide Lists, Inv, Indices, DoWork, DoEnd, SafeWork, SafeEnd, Done, SameGivens, Measure, Sequential;
      ghost var start := Now();
      SameAsItself(start);
      while true
        invariant Ready() && Inv(Now()) && !mayAdd && threads == map[t := Awake] && SameGivens(start, Now())
        decreases Measure(chunks)
      {
        ghost var s := Now();
        SealedStays(start, s);
        var worked, held := ProcessSingle(t);
        if worked {
          AfterWork(s, t);
          ghost var s1 := Now();
          if held.Some? {
            EndOperation(t, held.value);
            AfterEnd(s1, t);
          }
          GivensTransitive(start, s, s1, Now());
        } else {
          if finished == |chunks| && !mayAdd { break; }
          // otherwise the thread would wait; but with nobody else there, all is done
          AloneIsDone(s, t);
          assert false;
        }
      }
      IsDone(Now());
      CompletedIsSequential(Now());
    }

    /** Seals the image and joins in the processing, as number `t`, until all chunks are finished; here with no
        other thread at work. */
    method Finish(t: nat)
      requires Ready() && Inv(Now()) && threads == map[]
      modifies this`links, this`pool, this`jobs, this`chunks, this`lastPiece, this`mayAdd, this`threads, this`frags, this`finished, this`frontier,
        image, queues, pool
      ensures Ready() && Inv(Now()) && Done(Now()) && Sequential(Now())
      ensures jobs == if old(mayAdd) then old(jobs) + [Job(ClosingPiece, [])] else old(jobs)
      ensures fresh(pool - old(pool)) && old(pool) <= pool
    {
      hide Lists, Inv, Indices, Done, Sequential;
      Seal();
      Enter(t);
      assert threads == map[t := Awake];
      ProcessAlone(t);
    }
  }

  /** With no thread there, none is woken. */
  lemma NoneToWake(threads: map<nat, Thread>)
    ensures threads == map[] ==> forall woken :: MayWake(threads, woken) ==> SignalOne(threads, woken) == threads
  {
  }

  lemma EnqueueFits(s: State)
    requires Inv(s)
    ensures |s.jobs| == |s.chunks| && (s.lastPiece.Some? ==> s.lastPiece.value < |s.chunks|)
  {
    ControlCounts(s);
  }

  lemma SubmitKeeps(s: State, job: Job, woken: Option<nat>)
    requires Inv(s) && s.mayAdd && job.kind != ClosingPiece && GoodJob(s.options.blockSize, job) && MayWake(s.threads, woken)
    requires |s.jobs| == |s.chunks| && (s.lastPiece.Some? ==> s.lastPiece.value < |s.chunks|)
    ensures Inv(Pipeline.Enqueue(s, job, woken)) && Pipeline.Enqueue(s, job, woken).jobs == s.jobs + [job] && Pipeline.Enqueue(s, job, woken).mayAdd
  {
    hide Inv, MayWake;
    KeepsInv(s, Step.Submit(job, woken));
  }

  lemma SealKeeps(s: State, woken: Option<nat>, also: Option<nat>)
    requires Inv(s) && s.mayAdd && MayWake(s.threads, woken) && |s.jobs| == |s.chunks| && (s.lastPiece.Some? ==> s.lastPiece.value < |s.chunks|)
    requires MayWake(SignalOne(s.threads, woken), also)
    ensures var s1 := Pipeline.Enqueue(s, Job(ClosingPiece, []), woken);
            && Inv(s1.(threads := SignalOne(s1.threads, also))) && s1.jobs == s.jobs + [Job(ClosingPiece, [])] && !s1.mayAdd
            && s1.threads == SignalOne(s.threads, woken)
  {
    hide Inv, MayWake, SignalOne;
    KeepsInv(s, Step.Seal(woken, also));
  }

  function NewChunk(): Chunk {
    Chunk(NONE, None, None, EMPTY_BLOCK, None, None, None, -1, false)
  }

  /** Chunk `c` linked behind the last piece. */
  function OnChain(chunks: seq<Chunk>, lastPiece: Option<nat>, c: nat): (r: seq<Chunk>)
    requires c < |chunks| && (lastPiece.Some? ==> lastPiece.value < |chunks|)
    ensures |r| == |chunks|
  {
    var linked := chunks[c := chunks[c].(prevPiece := lastPiece)];
    if lastPiece.Some? then linked[lastPiece.value := linked[lastPiece.value].(nextPiece := Some(c))] else linked
  }

  lemma EnqueuedIs(s: State, now: State, job: Job, woken: Option<nat>)
    requires |s.jobs| == |s.chunks| && (s.lastPiece.Some? ==> s.lastPiece.value < |s.chunks|)
    requires now == s.(jobs := s.jobs + [job], chunks := now.chunks, lastPiece := if job.kind == FullBlock then s.lastPiece else Some(|s.chunks|),
                       readq := s.readq + [|s.chunks|], mayAdd := s.mayAdd && job.kind != ClosingPiece, threads := SignalOne(s.threads, woken))
    requires now.chunks == if job.kind == FullBlock then s.chunks + [NewChunk()] else OnChain(s.chunks + [NewChunk()], s.lastPiece, |s.chunks|)
    ensures now == Pipeline.Enqueue(s, job, woken)
  {
    hide SignalOne;
    assert now.chunks == Pipeline.Enqueue(s, job, woken).chunks;
  }

  lemma ReleaseNone(chunks: seq<Chunk>)
    ensures Release(chunks, []) == chunks
  {
  }

  lemma ReleaseNext(s: State, pieces: seq<nat>, n: nat)
    requires n < |pieces| && AllCached(s, pieces) && forall i, j :: 0 <= i < j < |pieces| ==> pieces[i] != pieces[j]
    ensures AllCached(s, pieces[..n]) && AllCached(s, pieces[..n + 1])
    ensures var p, now := pieces[n], Release(s.chunks, pieces[..n]);
            && p < |now| == |s.chunks| && now[p].cached == s.chunks[p].cached && now[p].cached.Some?
            && Gather(s, pieces[..n + 1]) == Gather(s, pieces[..n]) + now[p].cached.value
            && now[p := now[p].(cached := None)] == Release(s.chunks, pieces[..n + 1])
  {
    assert pieces[..n + 1] == pieces[..n] + [pieces[n]];
    assert pieces[n] !in pieces[..n];
  }

  /** Chunk `c` is in no queue of this state. */
  ghost predicate FreeIn(s: State, c: nat) {
    c !in s.readq && c !in s.dedupq && c !in s.assignq && c !in s.compressq && c !in s.writeq
  }

  /** A next piece that is waiting is in no queue. */
  ghost predicate NextFreeIn(s: State, c: nat) {
    c < |s.chunks| &&
    var next := s.chunks[c].nextPiece;
    next.Some? && next.value < |s.chunks| && s.chunks[next.value].state == DEDUPLICATED ==> next.value != c && FreeIn(s, next.value)
  }

  lemma PlaceKeeps(s: State, c: nat)
    requires c < |s.chunks| == |s.jobs| && (s.chunks[c].prevPiece.Some? ==> HasTarget(s, c))
    ensures FreeIn(s, c) ==> FreeIn(Pipeline.PlacePiece(s, c), c)
    ensures NextFreeIn(s, c) ==> NextFreeIn(Pipeline.PlacePiece(s, c), c)
  {
    PlacePieceFrame(s, c);
    hide Pipeline.PlacePiece, MustFlush, HasTarget;
  }

  lemma AdvanceKeeps(s: State, c: nat)
    requires c < |s.chunks|
    ensures NextFreeIn(s, c) ==> NextFreeIn(Pipeline.Advance(s, c), c)
  {
    var s' := Pipeline.Advance(s, c);
    AdvanceFrame(s, c);
    hide Pipeline.Advance;
  }

  lemma AdvanceFrame(s: State, c: nat)
    requires c < |s.chunks|
    ensures var s' := Pipeline.Advance(s, c);
            && |s'.chunks| == |s.chunks| && s'.chunks[c].nextPiece == s.chunks[c].nextPiece
            && (forall x :: 0 <= x < |s.chunks| && x != c ==> s'.chunks[x] == s.chunks[x])
            && s'.readq == s.readq && s'.dedupq == s.dedupq && s'.assignq == s.assignq
            && (s'.compressq == s.compressq || s'.compressq == [c] + s.compressq)
            && (s'.writeq == s.writeq || s'.writeq == [c] + s.writeq)
  {
  }

  // ---------------------------------------------------------------- what a thread finds

  lemma HomeFree(s: State, x: nat)
    requires Queues(s) && Home(s, x) == 0
    ensures FreeIn(s, x)
  {
    hide Home;
    QueueHolds(s, 1);
    QueueHolds(s, 2);
    QueueHolds(s, 3);
    QueueHolds(s, 4);
    QueueHolds(s, 5);
  }

  /** The state with chunk `c` taken out of the queue it is at the head of. */
  function WithoutNext(s: State): State
    requires !Idle(s)
  {
    if s.writeq != [] then s.(writeq := s.writeq[1..])
    else if s.compressq != [] then s.(compressq := s.compressq[1..])
    else if s.assignq != [] then s.(assignq := s.assignq[1..])
    else if s.dedupq != [] then s.(dedupq := s.dedupq[1..])
    else s.(readq := s.readq[1..])
  }

  lemma PoppedFree(s: State)
    requires Inv(s) && !Idle(s)
    ensures FreeIn(WithoutNext(s), NextChunk(s))
  {
    hide Shape, Links, Workers, Sleepers, Placement, Contents, ImageSoFar, FlushersOnly, Home;
    var c := NextChunk(s);
    forall i | 1 <= i <= 5
      ensures c in QueueOf(s, i) ==> Home(s, c) == i
      ensures Distinct(QueueOf(s, i))
    {
      QueueHolds(s, i);
      if c in QueueOf(s, i) { AtHome(s, i, c); }
    }
    assert QueueOf(s, 1) == s.readq && QueueOf(s, 2) == s.dedupq && QueueOf(s, 3) == s.assignq && QueueOf(s, 4) == s.compressq && QueueOf(s, 5) == s.writeq;
    FreeElsewhere(s, c);
  }

  lemma FreeElsewhere(s: State, c: nat)
    requires !Idle(s) && c == NextChunk(s)
    requires c in s.readq ==> Home(s, c) == 1
    requires c in s.dedupq ==> Home(s, c) == 2
    requires c in s.assignq ==> Home(s, c) == 3
    requires c in s.compressq ==> Home(s, c) == 4
    requires c in s.writeq ==> Home(s, c) == 5
    requires Distinct(s.readq) && Distinct(s.dedupq) && Distinct(s.assignq) && Distinct(s.compressq) && Distinct(s.writeq)
    ensures FreeIn(WithoutNext(s), c)
  {
    hide Home;
  }

  /** What the invariant gives a thread that takes on the next chunk. */
  ghost predicate CanWork(s: State)
    requires !Idle(s)
  {
    var c, s1 := NextChunk(s), WithoutNext(s);
    && SafeWork(s, c) && FreeIn(s1, c) && s.chunks[c].prevPiece != Some(c)
    && (c + 1 < |s.chunks| && s.chunks[c + 1].state == WRITABLE && s.writeq != [] ==> FreeIn(s1, c + 1))
    && (s.writeq == [] && s.compressq == [] && s.assignq != [] && s.jobs[c].kind != FullBlock ==> NextFreeIn(s1, c) && !s.chunks[c].flush)
  }

  lemma FreeStays(s: State, x: nat)
    requires !Idle(s) && FreeIn(s, x)
    ensures FreeIn(WithoutNext(s), x)
  {
  }

  lemma NotItsOwn(s: State, c: nat)
    requires Inv(s) && c < |s.chunks|
    ensures |s.chunks| == |s.jobs| && s.chunks[c].prevPiece != Some(c)
  {
    if s.jobs[c].kind != FullBlock { assert LinkTo(s.jobs, s.chunks[c].prevPiece, c); }
    hide Queues, Workers, Sleepers, Placement, Contents, ImageSoFar, FlushersOnly;
  }

  lemma NextWaits(s: State, c: nat)
    requires Inv(s) && c < |s.chunks| && s.jobs[c].kind != FullBlock && s.chunks[c].state < ASSIGNED
    ensures NextFreeIn(s, c) && !s.chunks[c].flush
  {
    var next := s.chunks[c].nextPiece;
    NextLinked(s, c);
    assert Placed(s, c);
    if next.Some? && s.chunks[next.value].state == DEDUPLICATED {
      assert Home(s, next.value) == 0;
      HomeFree(s, next.value);
    }
    hide Shape, Links, Queues, Workers, Sleepers, Placement, Contents, ImageSoFar, FlushersOnly, Placed;
  }

  lemma LaterWritable(s: State, c: nat)
    requires Inv(s) && c >= s.finished && c + 1 < |s.chunks| && s.chunks[c + 1].state == WRITABLE
    ensures FreeIn(s, c + 1)
  {
    hide Links, Workers, Sleepers, Placement, Contents, ImageSoFar, FlushersOnly;
    HomeFree(s, c + 1);
  }

  lemma WorkFacts(s: State)
    requires Inv(s) && !Idle(s)
    ensures CanWork(s)
  {
    hide Inv, FreeIn, NextFreeIn, SafeWork, WithoutNext, Control, Data, Taken;
    InvControl(s);
    NoFaultWork(s);
    PoppedFree(s);
    InSight(s);
    NotItsOwn(s, NextChunk(s));
    WritingFacts(s);
    AssigningFacts(s);
  }

  lemma InSight(s: State)
    requires Control(s) && !Idle(s)
    ensures NextChunk(s) < |s.chunks| == |s.jobs|
  {
    hide Control;
    TakenNext(s);
  }

  lemma WritingFacts(s: State)
    requires Inv(s) && !Idle(s)
    ensures var c := NextChunk(s);
            c + 1 < |s.chunks| && s.chunks[c + 1].state == WRITABLE && s.writeq != [] ==> FreeIn(WithoutNext(s), c + 1)
  {
    hide Inv, FreeIn, WithoutNext, Control, Data;
    var c := NextChunk(s);
    InvControl(s);
    TakenNext(s);
    if c + 1 < |s.chunks| && s.chunks[c + 1].state == WRITABLE {
      LaterWritable(s, c);
      FreeStays(s, c + 1);
    }
  }

  lemma AssigningFacts(s: State)
    requires Inv(s) && !Idle(s)
    ensures var c := NextChunk(s);
            && c < |s.chunks| == |s.jobs|
            && (s.writeq == [] && s.compressq == [] && s.assignq != [] && s.jobs[c].kind != FullBlock ==> NextFreeIn(WithoutNext(s), c) && !s.chunks[c].flush)
  {
    hide Inv, NextFreeIn, WithoutNext, Control, Data;
    var c := NextChunk(s);
    InvControl(s);
    TakenNext(s);
    if s.writeq == [] && s.compressq == [] && s.assignq != [] && s.jobs[c].kind != FullBlock {
      NextWaits(s, c);
      NextStays(s, c);
    }
  }

  lemma InvControl(s: State)
    requires Inv(s)
    ensures Control(s) && Data(s) && FlushersOnly(s)
  {
    hide Links, Queues, Workers, Sleepers, Placement, Contents, ImageSoFar, FlushersOnly;
  }

  lemma NextStays(s: State, c: nat)
    requires !Idle(s) && NextFreeIn(s, c)
    ensures NextFreeIn(WithoutNext(s), c)
  {
    var next := s.chunks[c].nextPiece;
    if next.Some? && next.value < |s.chunks| && s.chunks[next.value].state == DEDUPLICATED { FreeStays(s, next.value); }
  }

  /** What the invariant gives a thread that ends its operation. */
  ghost predicate CanEnd(s: State, c: nat) {
    && SafeEnd(s, c) && FreeIn(s, c)
    && (c + 1 < |s.chunks| && s.chunks[c + 1].state == WRITABLE && s.chunks[c].state == WRITABLE ==> FreeIn(s, c + 1))
    && (s.chunks[c].state == ASSIGNED && s.jobs[c].kind != FullBlock ==>
          && HasTarget(s, c)
          && var pieces := s.frags[Target(s, c)].pieces;
          forall i, j :: 0 <= i < j < |pieces| ==> pieces[i] != pieces[j])
  }

  lemma EndFacts(s: State, t: nat)
    requires Inv(s) && t in s.threads && s.threads[t].Busy?
    ensures CanEnd(s, s.threads[t].chunk)
  {
    hide Inv, FreeIn, SafeEnd, Control, Data, HasTarget, Target;
    var c := s.threads[t].chunk;
    InvControl(s);
    HeldBy(s, t);
    NoFaultEnd(s, t);
    BusyFree(s, t, c);
    if c + 1 < |s.chunks| && s.chunks[c + 1].state == WRITABLE { LaterWritable(s, c); }
    if s.chunks[c].state == ASSIGNED && s.jobs[c].kind != FullBlock { PiecesOnce(s, c); }
  }

  lemma BusyFree(s: State, t: nat, c: nat)
    requires Inv(s) && Held(s, t, c)
    ensures FreeIn(s, c)
  {
    hide Links, Queues, Workers, Sleepers, Placement, Contents, ImageSoFar, FlushersOnly, PreviousAssigned, FreeIn;
    assert Home(s, c) == 0;
    HomeFree(s, c);
  }

  lemma PiecesOnce(s: State, c: nat)
    requires Inv(s) && c < |s.chunks| && s.chunks[c].state == ASSIGNED && |s.jobs| == |s.chunks| && s.jobs[c].kind != FullBlock
    ensures HasTarget(s, c)
    ensures var pieces := s.frags[Target(s, c)].pieces; forall i, j :: 0 <= i < j < |pieces| ==> pieces[i] != pieces[j]
  {
    hide Links, Queues, Workers, Sleepers, Contents, ImageSoFar, HasTarget, FragmentsAt;
    InvControl(s);
    FlusherTarget(s, c);
    OldBlocks(s, Target(s, c));
  }

  lemma StepKeeps(s: State, t: nat)
    requires Inv(s) && !Idle(s) && t in s.threads && s.threads[t] == Awake
    ensures SafeWork(s, NextChunk(s)) && Inv(DoWork(s, t))
  {
    hide Inv, DoWork, SafeWork;
    KeepsInv(s, Step.Work(t));
  }

  lemma CompressIs(s: State, t: nat)
    requires !Idle(s) && s.writeq == [] && s.compressq != [] && CanWork(s)
    ensures NextChunk(s) == s.compressq[0] < |s.chunks| && DoWork(s, t) == Pipeline.BeginCompress(WithoutNext(s), t, NextChunk(s))
  {
  }

  lemma DedupIs(s: State, t: nat)
    requires !Idle(s) && s.writeq == [] && s.compressq == [] && s.assignq == [] && s.dedupq != [] && CanWork(s)
    ensures NextChunk(s) == s.dedupq[0] < |s.chunks| == |s.jobs| && DoWork(s, t) == Pipeline.Deduplicate(WithoutNext(s), NextChunk(s))
  {
  }

  /** The chunk a thread is busy with after it has taken on the next one. */
  function HeldAfter(s: State): Option<nat>
    requires !Idle(s) && NextChunk(s) < |s.chunks| == |s.jobs|
  {
    var c := NextChunk(s);
    if s.writeq != [] then if s.jobs[c].kind == FullBlock || s.chunks[c].flush then Some(c) else None
    else if s.compressq != [] then Some(c)
    else if s.assignq != [] || s.dedupq != [] then None
    else if s.jobs[c].kind == ClosingPiece then None else Some(c)
  }

  lemma EndKeeps(s: State, t: nat)
    requires Inv(s) && t in s.threads && s.threads[t].Busy?
    ensures SafeEnd(s, s.threads[t].chunk) && Inv(DoEnd(s, t))
  {
    hide Inv, DoEnd, SafeEnd;
    KeepsInv(s, Step.End(t));
  }

  lemma SameAsItself(s: State)
    ensures SameGivens(s, s)
  {
  }

  lemma SealedStays(start: State, s: State)
    requires SameGivens(start, s)
    ensures s.mayAdd == start.mayAdd
  {
  }

  lemma GivensTransitive(a: State, b: State, c: State, d: State)
    requires SameGivens(a, b) && SameGivens(b, c) && SameGivens(c, d)
    ensures SameGivens(a, d) && d.mayAdd == a.mayAdd
  {
  }

  lemma IsDone(s: State)
    requires s.finished == |s.chunks| && !s.mayAdd
    ensures Done(s)
  {
  }

  /** A thread alone in the loop has the chunk in hand that it has just taken on, or none. */
  lemma AfterWork(s: State, t: nat)
    requires Inv(s) && !s.mayAdd && !Idle(s) && s.threads == map[t := Awake] && SafeWork(s, NextChunk(s))
    ensures NextChunk(s) < |s.chunks| == |s.jobs|
    ensures var s' := DoWork(s, t);
            && Measure(s'.chunks) < Measure(s.chunks) && SameGivens(s, s')
            && s'.threads == map[t := if HeldAfter(s).Some? then Busy(HeldAfter(s).value) else Awake]
  {
    hide Inv, Measure, DoWork;
    StepMeasure(s, Step.Work(t));
    WorkThreads(s, t);
  }

  lemma WorkThreads(s: State, t: nat)
    requires !Idle(s) && s.threads == map[t := Awake] && SafeWork(s, NextChunk(s))
    ensures DoWork(s, t).threads == map[t := if HeldAfter(s).Some? then Busy(HeldAfter(s).value) else Awake]
  {
    hide Pipeline.AssignPiece, Pipeline.AssignClosing, Pipeline.MarkFinished, Broadcast;
    var c := NextChunk(s);
    assert s.threads[t := Busy(c)] == map[t := Busy(c)];
    if s.writeq != [] {
      MarkThreads(s.(writeq := s.writeq[1..]), c, t);
    } else if s.compressq == [] && s.assignq != [] && s.jobs[c].kind != FullBlock {
      AssignThreads(s.(assignq := s.assignq[1..]), c);
    }
  }

  lemma MarkThreads(s: State, c: nat, t: nat)
    requires c < |s.chunks| && s.threads == map[t := Awake]
    ensures Pipeline.MarkFinished(s, c).threads == s.threads
  {
    assert Broadcast(map[t := Awake]) == map[t := Awake];
  }

  lemma AssignThreads(s: State, c: nat)
    requires c < |s.chunks| == |s.jobs|
    ensures s.jobs[c].kind == FragmentPiece && (s.chunks[c].prevPiece.Some? ==> HasTarget(s, c)) ==> Pipeline.AssignPiece(s, c).threads == s.threads
    ensures Pipeline.AssignClosing(s, c).threads == s.threads
  {
    if s.jobs[c].kind == FragmentPiece && (s.chunks[c].prevPiece.Some? ==> HasTarget(s, c)) {
      PlacePieceFrame(s, c);
    }
    hide Pipeline.PlacePiece, MustFlush, HasTarget;
  }

  lemma AfterEnd(s: State, t: nat)
    requires Inv(s) && !s.mayAdd && s.threads.Keys == {t} && s.threads[t].Busy? && SafeEnd(s, s.threads[t].chunk)
    ensures var s' := DoEnd(s, t);
            Measure(s'.chunks) < Measure(s.chunks) && SameGivens(s, s') && s'.threads == map[t := Awake]
  {
    hide Inv, Measure, DoEnd, SafeEnd;
    StepMeasure(s, Step.End(t));
    EndThreads(s, t);
  }

  lemma EndThreads(s: State, t: nat)
    requires s.threads.Keys == {t} && s.threads[t].Busy? && SafeEnd(s, s.threads[t].chunk)
    ensures DoEnd(s, t).threads == map[t := Awake]
  {
    hide Compressed, Gather, Release, HasTarget, Pwrite, AllCached;
    assert s.threads[t := Awake] == map[t := Awake];
    assert Broadcast(map[t := Awake]) == map[t := Awake];
  }

  /** With no chunk in a queue and no other thread at work, a sealed image is finished. */
  lemma AloneIsDone(s: State, t: nat)
    requires Inv(s) && Idle(s) && !s.mayAdd && s.threads == map[t := Awake]
    ensures s.finished == |s.chunks|
  {
    hide Links, Queues, Workers, Sleepers, Placement, Contents, ImageSoFar, FlushersOnly;
    if s.finished < |s.chunks| { NotStuckInv(s); }
  }
}
