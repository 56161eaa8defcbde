/** The sorted order of a directory, the pieces its listing is written in, and the index into the listing: why
    a search that starts at an index point finds what a search of the whole listing finds. */
module DirectoryIndexes {
  import opened Bytes
  import opened Codecs
  import opened MetaTables
  import opened DirectoryListings

  /** Index points are more than this many entries apart. */
  const INDEX_GAP: nat := 128

  // ---------------------------------------------------------------- order

  ghost predicate Sorted(entries: seq<Entry>) {
    forall i, j :: 0 <= i <= j < |entries| ==> Le(entries[i].name, entries[j].name)
  }

  /** The first entry with a name. */
  function Find(entries: seq<Entry>, name: bytes): (r: Option<Entry>)
    ensures r.Some? ==> r.value in entries && r.value.name == name
    ensures r.None? ==> forall i :: 0 <= i < |entries| ==> entries[i].name != name
  {
    if entries == [] then None
    else if entries[0].name == name then Some(entries[0])
    else Find(entries[1..], name)
  }

  // ---------------------------------------------------------------- the listing, entry by entry

  /** What is written for the entries of a run: the first brings the header along. */
  function RunChunks(run: seq<Entry>, count: bytes): (chunks: seq<bytes>)
    requires run != []
    ensures |chunks| == |run|
  {
    if |run| == 1 then [count + Le32(run[0].at.block) + Le32(run[0].number) + Record(run[0], run[0].number)]
    else RunChunks(Front(run), count) + [Record(Last(run), run[0].number)]
  }

  function Chunks(runs: seq<seq<Entry>>): (chunks: seq<bytes>)
    requires forall k :: 0 <= k < |runs| ==> runs[k] != []
    ensures |chunks| == |Flatten(runs)|
  {
    if runs == [] then []
    else
      assert Front(runs) + [Last(runs)] == runs;
      FlattenSnoc(Front(runs), Last(runs));
      Chunks(Front(runs)) + RunChunks(Last(runs), Le32(|Last(runs)| - 1))
  }

  lemma {:induction false} RunChunksBytes(run: seq<Entry>, count: bytes)
    requires run != [] && |count| == 4
    ensures Flatten(RunChunks(run, count)) == count + Le32(run[0].at.block) + Le32(run[0].number) + Records(run, run[0].number)
  {
    hide Flatten, Record, Records, Le32;
    if |run| == 1 {
      assert run == [run[0]];
      RecordsOne(run[0]);
      FlattenOne(RunChunks(run, count)[0]);
    } else {
      RunChunksBytes(Front(run), count);
      FlattenSnoc(RunChunks(Front(run), count), Record(Last(run), run[0].number));
      assert Front(run) + [Last(run)] == run;
      RecordsSnoc(Front(run), Last(run), run[0].number);
      ConcatAssociates(count + Le32(run[0].at.block) + Le32(run[0].number), Records(Front(run), run[0].number), Record(Last(run), run[0].number));
    }
  }

  lemma {:induction false} RunsBytesSnoc(runs: seq<seq<Entry>>, run: seq<Entry>)
    requires run != [] && forall k :: 0 <= k < |runs| ==> runs[k] != []
    ensures RunsBytes(runs + [run]) == RunsBytes(runs) + RunBytes(run)
  {
    if runs == [] {
      assert [run][1..] == [] && [] + [run] == [run];
      assert RunsBytes([run]) == RunBytes(run) + [];
    } else {
      assert (runs + [run])[1..] == runs[1..] + [run];
      RunsBytesSnoc(runs[1..], run);
    }
  }

  /** The chunks put together are the listing. */
  lemma {:induction false} ChunksBytes(runs: seq<seq<Entry>>)
    requires forall k :: 0 <= k < |runs| ==> runs[k] != []
    ensures Flatten(Chunks(runs)) == RunsBytes(runs)
  {
    if runs != [] {
      var run := Last(runs);
      assert Front(runs) + [run] == runs;
      ChunksBytes(Front(runs));
      RunChunksBytes(run, Le32(|run| - 1));
      FlattenAppend(Chunks(Front(runs)), RunChunks(run, Le32(|run| - 1)));
      RunsBytesSnoc(Front(runs), run);
    }
  }

  // ---------------------------------------------------------------- index points

  /** The entries that start a run. */
  function Heads(runs: seq<seq<Entry>>): (heads: seq<nat>)
    ensures |heads| == |runs|
  {
    if runs == [] then [] else Heads(Front(runs)) + [|Flatten(Front(runs))|]
  }

  lemma {:induction false} HeadAt(runs: seq<seq<Entry>>, k: nat)
    requires k < |runs|
    ensures Heads(runs)[k] == |Flatten(runs[..k])|
  {
    if k < |runs| - 1 {
      HeadAt(Front(runs), k);
      assert Front(runs)[..k] == runs[..k];
    } else {
      assert runs[..k] == Front(runs);
    }
  }

  /** The heads that are far enough from the one kept before. */
  function Spaced(current: nat, heads: seq<nat>): seq<nat>
    decreases |heads|
  {
    if heads == [] then []
    else if heads[0] - current > INDEX_GAP then [heads[0]] + Spaced(heads[0], heads[1..])
    else Spaced(current, heads[1..])
  }

  /** The index points among some heads: the very first is never one. */
  function Thinned(heads: seq<nat>): seq<nat> {
    if heads == [] then [] else Spaced(heads[0], heads[1..])
  }

  function Index(runs: seq<seq<Entry>>): seq<nat> {
    Thinned(Heads(runs))
  }

  ghost predicate Ascending(current: nat, heads: seq<nat>) {
    && (forall i :: 0 <= i < |heads| ==> current <= heads[i])
    && (forall i, j :: 0 <= i <= j < |heads| ==> heads[i] <= heads[j])
  }

  /** Each point is more than 128 entries behind the one before, the first behind `current`. */
  ghost predicate Apart(current: nat, points: seq<nat>) {
    && (points != [] ==> points[0] > current + 128)
    && (forall i, j :: 0 <= i < j < |points| ==> points[j] > points[i] + 128)
  }

  lemma ApartCons(current: nat, next: nat, points: seq<nat>)
    requires Apart(next, points) && next > current + INDEX_GAP
    ensures Apart(current, [next] + points)
  {
    var all := [next] + points;
    forall i, j | 0 <= i < j < |all|
      ensures all[j] > all[i] + INDEX_GAP
    {
      assert all[j] == points[j - 1] && (i > 0 ==> all[i] == points[i - 1]);
      if i == 0 && j > 1 { assert points[j - 1] > points[0] + INDEX_GAP; }
    }
  }

  /** Every index point is a head, and two of them are more than 128 entries apart. */
  lemma {:induction false} SpacedApart(current: nat, heads: seq<nat>)
    ensures forall h :: h in Spaced(current, heads) ==> h in heads
    ensures Apart(current, Spaced(current, heads))
    decreases |heads|
  {
    if heads != [] {
      if heads[0] - current > INDEX_GAP {
        SpacedApart(heads[0], heads[1..]);
        ApartCons(current, heads[0], Spaced(heads[0], heads[1..]));
      } else {
        SpacedApart(current, heads[1..]);
      }
    }
  }

  /** The last of some index points up to entry `h`, or the start. */
  function Before(current: nat, points: seq<nat>, h: nat): nat
    decreases |points|
  {
    if points == [] then current
    else if points[0] > h then current
    else Before(points[0], points[1..], h)
  }

  /** Nothing that could be indexed is missing: a head is at most 128 entries behind the index point
      before it. */
  lemma {:induction false} SpacedDense(current: nat, heads: seq<nat>, i: nat)
    requires Ascending(current, heads) && i < |heads|
    ensures Before(current, Spaced(current, heads), heads[i]) <= heads[i] <= Before(current, Spaced(current, heads), heads[i]) + INDEX_GAP
    decreases |heads|
  {
    var next := if heads[0] - current > INDEX_GAP then heads[0] else current;
    assert Ascending(next, heads[1..]);
    if i > 0 {
      assert heads[1..][i - 1] == heads[i] >= heads[0];
      SpacedDense(next, heads[1..], i - 1);
    } else if heads[0] - current > INDEX_GAP {
      SpacedApart(heads[0], heads[1..]);
      BeforeSelf(heads[0], Spaced(heads[0], heads[1..]));
    } else {
      NoneBefore(current, heads[1..], heads[0]);
    }
  }

  lemma BeforeSelf(current: nat, points: seq<nat>)
    ensures points != [] && points[0] > current ==> Before(current, points, current) == current
    ensures points == [] ==> Before(current, points, current) == current
  {
  }

  lemma NoneBefore(current: nat, heads: seq<nat>, h: nat)
    requires current <= h <= current + INDEX_GAP
    ensures Before(current, Spaced(current, heads), h) == current
  {
    SpacedApart(current, heads);
  }

  lemma {:induction false} HeadsAscend(runs: seq<seq<Entry>>)
    ensures forall i :: 0 <= i < |Heads(runs)| ==> Heads(runs)[i] <= |Flatten(runs)|
    ensures forall i, j :: 0 <= i <= j < |Heads(runs)| ==> Heads(runs)[i] <= Heads(runs)[j]
    ensures runs != [] ==> Heads(runs)[0] == 0
  {
    if runs != [] {
      HeadsAscend(Front(runs));
      assert Front(runs) + [Last(runs)] == runs;
      FlattenSnoc(Front(runs), Last(runs));
    }
  }

  lemma IndexIs(runs: seq<seq<Entry>>)
    requires runs != []
    ensures Heads(runs)[0] == 0 && Index(runs) == Spaced(0, Heads(runs)[1..]) && Ascending(0, Heads(runs)[1..])
  {
    HeadsAscend(runs);
  }

  /** Every index point is the start of a run, and two of them are more than 128 entries apart. */
  lemma IndexApart(entries: seq<Entry>)
    ensures forall h :: h in Index(Runs(entries)) ==> h in Heads(Runs(entries)) && h > 128
    ensures Apart(0, Index(Runs(entries)))
  {
    var runs := Runs(entries);
    if runs != [] {
      IndexIs(runs);
      hide Index, Heads, Runs;
      SpacedApart(0, Heads(runs)[1..]);
      SpacedFar(0, Heads(runs)[1..]);
    }
  }

  lemma {:induction false} SpacedFar(current: nat, heads: seq<nat>)
    ensures forall h :: h in Spaced(current, heads) ==> h > current + INDEX_GAP
    decreases |heads|
  {
    if heads != [] {
      if heads[0] - current > INDEX_GAP { SpacedFar(heads[0], heads[1..]); } else { SpacedFar(current, heads[1..]); }
    }
  }

  /** No run that could be indexed is missing: each starts at most 128 entries behind an index point or the
      start of the listing. */
  lemma IndexDense(entries: seq<Entry>, h: nat)
    requires h in Heads(Runs(entries))
    ensures Before(0, Index(Runs(entries)), h) <= h <= Before(0, Index(Runs(entries)), h) + 128
  {
    var runs := Runs(entries);
    var heads := Heads(runs);
    IndexIs(runs);
    hide Index, Heads, Runs;
    var i :| 0 <= i < |heads| && heads[i] == h;
    if i > 0 { SpacedDense(0, heads[1..], i - 1); } else { NoneBefore(0, heads[1..], 0); }
  }

  // ---------------------------------------------------------------- reading from an index point

  /** The listing cut into what is written for each entry. */
  function Pieces(entries: seq<Entry>): (chunks: seq<bytes>)
    ensures |chunks| == |entries|
    ensures Flatten(chunks) == Listing(entries)
  {
    RunsGood(entries);
    ChunksBytes(Runs(entries));
    Chunks(Runs(entries))
  }

  /** Where the chunk of entry `i` starts in the listing. */
  function OffsetOf(entries: seq<Entry>, i: nat): nat
    requires i <= |entries|
  {
    |Flatten(Pieces(entries)[..i])|
  }

  lemma {:induction false} ChunksFront(runs: seq<seq<Entry>>, k: nat)
    requires forall i :: 0 <= i < |runs| ==> runs[i] != []
    requires k <= |runs|
    ensures |Flatten(runs[..k])| <= |Chunks(runs)|
    ensures Chunks(runs)[..|Flatten(runs[..k])|] == Chunks(runs[..k])
  {
    if k == |runs| {
      assert runs[..k] == runs;
    } else {
      ChunksFront(Front(runs), k);
      assert Front(runs)[..k] == runs[..k];
      var n := |Flatten(runs[..k])|;
      assert Chunks(runs)[..n] == Chunks(Front(runs))[..n];
    }
  }

  lemma {:induction false} RunsBytesAppend(a: seq<seq<Entry>>, b: seq<seq<Entry>>)
    requires forall k :: 0 <= k < |a| ==> a[k] != []
    requires forall k :: 0 <= k < |b| ==> b[k] != []
    ensures RunsBytes(a + b) == RunsBytes(a) + RunsBytes(b)
  {
    if a == [] {
      assert a + b == b;
    } else {
      assert (a + b)[0] == a[0] && (a + b)[1..] == a[1..] + b;
      RunsBytesAppend(a[1..], b);
    }
  }

  /** A head divides the runs, the entries and the bytes of a listing. */
  lemma DividesAtHead(entries: seq<Entry>, h: nat) returns (k: nat)
    requires h in Heads(Runs(entries))
    ensures k <= |Runs(entries)| && h <= |entries|
    ensures entries[h..] == Flatten(Runs(entries)[k..])
    ensures OffsetOf(entries, h) <= |Listing(entries)| && Listing(entries)[OffsetOf(entries, h)..] == RunsBytes(Runs(entries)[k..])
  {
    var runs := Runs(entries);
    RunsGood(entries);
    k :| 0 <= k < |runs| && Heads(runs)[k] == h;
    HeadAt(runs, k);
    DividesRuns(runs, k);
    hide Runs, Heads, Chunks, GoodRun, RunsBytes, Flatten;
  }

  lemma DividesRuns(runs: seq<seq<Entry>>, k: nat)
    requires forall i :: 0 <= i < |runs| ==> runs[i] != []
    requires k <= |runs|
    ensures Flatten(runs) == Flatten(runs[..k]) + Flatten(runs[k..])
    ensures |Flatten(runs[..k])| <= |Chunks(runs)|
    ensures Flatten(Chunks(runs)[..|Flatten(runs[..k])|]) == RunsBytes(runs[..k])
    ensures RunsBytes(runs) == RunsBytes(runs[..k]) + RunsBytes(runs[k..])
  {
    hide Chunks, RunsBytes, Flatten;
    ChunksFront(runs, k);
    ChunksBytes(runs[..k]);
    assert runs == runs[..k] + runs[k..];
    FlattenAppend(runs[..k], runs[k..]);
    RunsBytesAppend(runs[..k], runs[k..]);
  }

  /** From the byte offset of a head on, the listing decodes to the entries from there on. */
  lemma DecodesFromHead(entries: seq<Entry>, h: nat)
    requires AllFit(entries) && AllNamed(entries) && h in Heads(Runs(entries))
    ensures h <= |entries|
    ensures OffsetOf(entries, h) <= |Listing(entries)| && Decode(Listing(entries)[OffsetOf(entries, h)..]) == Some(entries[h..])
  {
    var k := DividesAtHead(entries, h);
    RunsGood(entries);
    FlattenHolds(Runs(entries));
    hide Decode, Runs, Heads, Chunks, GoodRun, RunsBytes, Flatten, AllFit, AllNamed;
    RunsRead(Runs(entries)[k..]);
  }

  /** A search that uses the index: on to the last index point whose name is not behind the target. */
  function StartPoint(entries: seq<Entry>, index: seq<nat>, current: nat, target: bytes): nat
    requires forall i :: 0 <= i < |index| ==> index[i] < |entries|
  {
    if index == [] || !Le(entries[index[0]].name, target) then current
    else StartPoint(entries, index[1..], index[0], target)
  }

  lemma {:induction false} StartPointIs(entries: seq<Entry>, index: seq<nat>, current: nat, target: bytes)
    requires forall i :: 0 <= i < |index| ==> index[i] < |entries|
    ensures var s := StartPoint(entries, index, current, target);
            (s == current || s in index) && (s != current ==> s < |entries| && Le(entries[s].name, target))
  {
    if index != [] && Le(entries[index[0]].name, target) {
      StartPointIs(entries, index[1..], index[0], target);
    }
  }

  lemma {:induction false} FindSkips(entries: seq<Entry>, s: nat, name: bytes)
    requires s <= |entries| && forall i :: 0 <= i < s ==> entries[i].name != name
    ensures Find(entries[s..], name) == Find(entries, name)
  {
    if s == 0 {
      assert entries[0..] == entries;
    } else {
      FindSkips(entries[1..], s - 1, name);
      assert entries[1..][s - 1..] == entries[s..];
    }
  }

  /** In a sorted directory, a search from a place whose name is not behind the target finds the same entry
      as a search from the start exactly if the target does not occur just before that place, with another
      inode; in any case it finds one if and only if there is one. */
  lemma SearchFrom(entries: seq<Entry>, s: nat, target: bytes)
    requires Sorted(entries) && s < |entries| && Le(entries[s].name, target)
    ensures Find(entries[s..], target).Some? <==> Find(entries, target).Some?
    ensures Find(entries[s..], target) == Find(entries, target) <==>
              (s > 0 && entries[s - 1].name == target ==> Find(entries, target) == Some(entries[s]))
  {
    if s > 0 && entries[s - 1].name == target {
      assert Le(entries[s - 1].name, entries[s].name);
      LeAntisymmetric(entries[s].name, target);
      assert entries[s..][0] == entries[s];
    } else {
      forall i | 0 <= i < s
        ensures entries[i].name != target
      {
        if entries[i].name == target {
          assert Le(entries[i].name, entries[s - 1].name) && Le(entries[s - 1].name, entries[s].name);
          LeTransitive(entries[s - 1].name, entries[s].name, target);
          LeAntisymmetric(entries[s - 1].name, target);
        }
      }
      FindSkips(entries, s, target);
    }
  }

  // ---------------------------------------------------------------- the index inside the directory table

  lemma IndexInRange(entries: seq<Entry>)
    ensures forall i :: 0 <= i < |Index(Runs(entries))| ==> Index(Runs(entries))[i] < |entries|
  {
    var runs := Runs(entries);
    RunsGood(entries);
    IndexApart(entries);
    forall i | 0 <= i < |Index(runs)|
      ensures Index(runs)[i] < |entries|
    {
      var h := Index(runs)[i];
      assert h in Index(runs);
      var k :| 0 <= k < |runs| && Heads(runs)[k] == h;
      hide Index, Heads, Runs, GoodRun;
      HeadAt(runs, k);
      HeadInside(runs, k);
    }
  }

  lemma HeadInside(runs: seq<seq<Entry>>, k: nat)
    requires k < |runs| && runs[k] != []
    ensures |Flatten(runs[..k])| < |Flatten(runs)|
  {
    assert runs == runs[..k] + [runs[k]] + runs[k + 1..];
    hide Flatten;
    FlattenAppend(runs[..k] + [runs[k]], runs[k + 1..]);
    FlattenSnoc(runs[..k], runs[k]);
  }

  /** The entries that are indexed. */
  function Indexed(entries: seq<Entry>): (index: seq<nat>)
    ensures forall i :: 0 <= i < |index| ==> index[i] < |entries|
  {
    IndexInRange(entries);
    Index(Runs(entries))
  }

  /** An index point as the directory inode stores it: byte offset into the listing, block of the directory
      table, and the name of the entry there. */
  datatype IndexPoint = IndexPoint(offset: nat, block: nat, name: bytes)

  /** The directory table after some chunks, then the listing up to entry `i`. */
  function TableUpTo(prior: seq<bytes>, entries: seq<Entry>, i: nat): Contents
    requires i <= |entries|
  {
    AppendAll(prior + Pieces(entries)[..i])
  }

  /** The index point written for entry `h`. */
  function PointAt(writer: Option<Codec>, prior: seq<bytes>, entries: seq<Entry>, h: nat): IndexPoint
    requires h < |entries|
  {
    IndexPoint(OffsetOf(entries, h), PositionOf(writer, TableUpTo(prior, entries, h)).block, entries[h].name)
  }

  function Points(writer: Option<Codec>, prior: seq<bytes>, entries: seq<Entry>, index: seq<nat>): (points: seq<IndexPoint>)
    requires forall i :: 0 <= i < |index| ==> index[i] < |entries|
  {
    if index == [] then [] else [PointAt(writer, prior, entries, index[0])] + Points(writer, prior, entries, index[1..])
  }

  /** Byte offset and table block that a search starts from. */
  function Walk(points: seq<IndexPoint>, offset: nat, block: nat, target: bytes): (nat, nat) {
    if points == [] || !Le(points[0].name, target) then (offset, block)
    else Walk(points[1..], points[0].offset, points[0].block, target)
  }

  /** Looking up a name as a reader does: the index gives the place to start from, then the rest of the
      listing (of `size` bytes, starting at `at`) is read from the table and scanned. */
  function IndexedLookup(reader: Codec, table: bytes, at: Position, size: nat, points: seq<IndexPoint>, target: bytes): Option<Entry> {
    var (offset, block) := Walk(points, 0, at.block, target);
    if offset > size then None
    else LookupIn(ReadAt(reader, table, Position(block, InBlock(at.offset + offset)), size - offset), target)
  }

  function LookupIn(b: Option<bytes>, target: bytes): Option<Entry> {
    if b.None? || Decode(b.value).None? then None else Find(Decode(b.value).value, target)
  }

  lemma {:induction false} WalkIs(writer: Option<Codec>, prior: seq<bytes>, entries: seq<Entry>, index: seq<nat>, current: nat, target: bytes)
    requires forall i :: 0 <= i < |index| ==> index[i] < |entries|
    requires current <= |entries|
    ensures var s := StartPoint(entries, index, current, target);
            && s <= |entries|
            && Walk(Points(writer, prior, entries, index), OffsetOf(entries, current), PositionOf(writer, TableUpTo(prior, entries, current)).block, target)
            == (OffsetOf(entries, s), PositionOf(writer, TableUpTo(prior, entries, s)).block)
    decreases |index|
  {
    hide PositionOf, OffsetOf, TableUpTo, Le;
    if index != [] {
      assert Points(writer, prior, entries, index)[1..] == Points(writer, prior, entries, index[1..]);
      if Le(entries[index[0]].name, target) {
        WalkIs(writer, prior, entries, index[1..], index[0], target);
      }
    }
  }

  lemma {:induction false} FullBlocks(closed: seq<bytes>)
    requires forall i :: 0 <= i < |closed| ==> |closed[i]| == METADATA_SIZE
    ensures |Flatten(closed)| == METADATA_SIZE * |closed|
  {
    if closed != [] { FullBlocks(closed[1..]); }
  }

  /** The place inside its block that a growing table hands out depends on the number of bytes only. */
  lemma OpenOffset(chunks: seq<bytes>)
    ensures |AppendAll(chunks).open| == InBlock(|Flatten(chunks)|)
  {
    hide AppendAll, Flatten;
    var c := AppendAll(chunks);
    FullBlocks(c.closed);
    Remainder(|c.closed|, |c.open|);
  }

  /** A byte of the stream, seen from the start of its block, when all blocks are full. */
  function InBlock(n: nat): nat {
    n % 8192
  }

  lemma Remainder(n: nat, r: nat)
    requires r < METADATA_SIZE
    ensures InBlock(METADATA_SIZE * n + r) == r
  {
  }

  lemma AddRemainder(a: nat, b: nat)
    ensures InBlock(InBlock(a) + b) == InBlock(a + b)
  {
  }

  lemma PositionOffset(writer: Option<Codec>, c: Contents)
    ensures PositionOf(writer, c).offset == |c.open|
  {
  }

  /** The true table position of an entry follows from the start of the listing and its byte offset. */
  lemma EntryPosition(writer: Option<Codec>, prior: seq<bytes>, entries: seq<Entry>, i: nat)
    requires i <= |entries|
    ensures PositionOf(writer, TableUpTo(prior, entries, i)).offset
         == InBlock(PositionOf(writer, AppendAll(prior)).offset + OffsetOf(entries, i))
  {
    hide AppendAll, Flatten, PositionOf, Pieces, InBlock;
    PositionOffset(writer, TableUpTo(prior, entries, i));
    PositionOffset(writer, AppendAll(prior));
    OffsetAfter(prior, Pieces(entries)[..i]);
  }

  lemma OffsetAfter(prior: seq<bytes>, chunks: seq<bytes>)
    ensures |AppendAll(prior + chunks).open| == InBlock(|AppendAll(prior).open| + |Flatten(chunks)|)
  {
    hide AppendAll, Flatten, InBlock;
    OpenOffset(prior + chunks);
    OpenOffset(prior);
    FlattenAppend(prior, chunks);
    AddRemainder(|Flatten(prior)|, |Flatten(chunks)|);
  }

  /** The raw blocks of a directory table into which a listing was appended between other chunks. */
  function FinalBlocks(prior: seq<bytes>, entries: seq<Entry>, more: seq<bytes>): seq<bytes> {
    Close(AppendAll(prior + Pieces(entries) + more)).closed
  }

  lemma PiecesDivide(prior: seq<bytes>, entries: seq<Entry>, more: seq<bytes>, i: nat)
    requires i <= |entries|
    ensures var all, k := prior + Pieces(entries) + more, |prior| + i;
            && all[..k] == prior + Pieces(entries)[..i]
            && OffsetOf(entries, i) <= |Listing(entries)|
            && Listing(entries)[OffsetOf(entries, i)..] <= Flatten(all[k..])
  {
    hide Flatten, Listing, Pieces;
    var chunks := Pieces(entries);
    var all, k := prior + chunks + more, |prior| + i;
    assert all[..k] == prior + chunks[..i];
    assert all[k..] == chunks[i..] + more;
    assert chunks == chunks[..i] + chunks[i..];
    FlattenAppend(chunks[..i], chunks[i..]);
    FlattenAppend(chunks[i..], more);
  }

  /** Reading the listing from entry `i` on, out of the finished table. */
  lemma ReadsListing(writer: Option<Codec>, reader: Codec, prior: seq<bytes>, entries: seq<Entry>, more: seq<bytes>, tail: bytes, i: nat)
    requires Uses(writer, reader) && i <= |entries|
    requires |TableBytes(writer, FinalBlocks(prior, entries, more))| < U32
    ensures OffsetOf(entries, i) <= |Listing(entries)|
    ensures ReadAt(reader, TableBytes(writer, FinalBlocks(prior, entries, more)) + tail,
                   PositionOf(writer, TableUpTo(prior, entries, i)), |Listing(entries)| - OffsetOf(entries, i))
         == Some(Listing(entries)[OffsetOf(entries, i)..])
  {
    hide AppendAll, Close, TableBytes, ReadAt, PositionOf, Pieces, Flatten, Listing, OffsetOf, Uses;
    PiecesDivide(prior, entries, more, i);
    var all, k, rest := prior + Pieces(entries) + more, |prior| + i, Listing(entries)[OffsetOf(entries, i)..];
    AppendedReadsBack(writer, reader, all, k, |rest|, tail);
    assert Flatten(all[k..])[..|rest|] == rest;
  }

  lemma StartsAtHead(entries: seq<Entry>, target: bytes) returns (s: nat)
    ensures s == StartPoint(entries, Indexed(entries), 0, target) <= |entries|
    ensures s == 0 || (s in Heads(Runs(entries)) && s < |entries| && Le(entries[s].name, target))
  {
    s := StartPoint(entries, Indexed(entries), 0, target);
    StartPointIs(entries, Indexed(entries), 0, target);
    IndexApart(entries);
  }

  lemma DecodesFrom(entries: seq<Entry>, s: nat)
    requires AllFit(entries) && AllNamed(entries) && (s == 0 || s in Heads(Runs(entries)))
    ensures s <= |entries| && OffsetOf(entries, s) <= |Listing(entries)|
    ensures Decode(Listing(entries)[OffsetOf(entries, s)..]) == Some(entries[s..])
  {
    if s == 0 {
      ListingRoundTrip(entries);
      hide Listing, Decode, Pieces, AllFit, AllNamed;
      assert Pieces(entries)[..0] == [] && entries[0..] == entries;
      assert Listing(entries)[0..] == Listing(entries);
    } else {
      DecodesFromHead(entries, s);
    }
  }

  /** What a reader has of a directory: the finished table, the start of the listing, its size, the index. */
  function LookupInTable(writer: Option<Codec>, reader: Codec, prior: seq<bytes>, entries: seq<Entry>, more: seq<bytes>, tail: bytes, target: bytes): Option<Entry> {
    IndexedLookup(reader, TableBytes(writer, FinalBlocks(prior, entries, more)) + tail, PositionOf(writer, AppendAll(prior)),
                  |Listing(entries)|, Points(writer, prior, entries, Indexed(entries)), target)
  }

  lemma LookupStarts(writer: Option<Codec>, reader: Codec, prior: seq<bytes>, entries: seq<Entry>, more: seq<bytes>, tail: bytes, target: bytes) returns (s: nat)
    requires Uses(writer, reader) && AllFit(entries) && AllNamed(entries)
    requires |TableBytes(writer, FinalBlocks(prior, entries, more))| < U32
    ensures s == 0 || (s < |entries| && Le(entries[s].name, target))
    ensures s <= |entries| && LookupInTable(writer, reader, prior, entries, more, tail, target) == Find(entries[s..], target)
  {
    StartOfListing(prior, entries);
    s := StartsAtHead(entries, target);
    hide AppendAll, TableBytes, FinalBlocks, ReadAt, Pieces, Decode, Find, Flatten, Runs, Heads, Listing, OffsetOf, TableUpTo, Walk, Points, Uses, Indexed, AllFit, AllNamed;
    var table := TableBytes(writer, FinalBlocks(prior, entries, more)) + tail;
    var at, size, points := PositionOf(writer, AppendAll(prior)), |Listing(entries)|, Points(writer, prior, entries, Indexed(entries));
    WalkIs(writer, prior, entries, Indexed(entries), 0, target);
    assert Walk(points, 0, at.block, target) == (OffsetOf(entries, s), PositionOf(writer, TableUpTo(prior, entries, s)).block);
    EntryPosition(writer, prior, entries, s);
    ReadsListing(writer, reader, prior, entries, more, tail, s);
    DecodesFrom(entries, s);
  }

  /** The index agrees with a linear search: in a sorted directory, looking up a name through the index,
      out of the finished directory table, finds an entry if and only if there is one; and if the name does
      not occur twice, it finds the one a search of the whole listing finds. */
  lemma IndexedLookupAgrees(writer: Option<Codec>, reader: Codec, prior: seq<bytes>, entries: seq<Entry>, more: seq<bytes>, tail: bytes, target: bytes)
    requires Uses(writer, reader) && AllFit(entries) && AllNamed(entries) && Sorted(entries)
    requires |TableBytes(writer, FinalBlocks(prior, entries, more))| < U32
    ensures LookupInTable(writer, reader, prior, entries, more, tail, target).Some? <==> Find(entries, target).Some?
    ensures Once(entries, target) ==> LookupInTable(writer, reader, prior, entries, more, tail, target) == Find(entries, target)
  {
    hide LookupInTable, Find, Uses, TableBytes, FinalBlocks, Sorted, Once;
    var s := LookupStarts(writer, reader, prior, entries, more, tail, target);
    SearchesAgree(entries, s, target);
  }

  lemma StartOfListing(prior: seq<bytes>, entries: seq<Entry>)
    ensures OffsetOf(entries, 0) == 0 && TableUpTo(prior, entries, 0) == AppendAll(prior)
  {
    hide Pieces, AppendAll;
    assert Pieces(entries)[..0] == [];
    assert prior + [] == prior;
  }

  /** At most one entry has this name. */
  ghost predicate Once(entries: seq<Entry>, name: bytes) {
    forall i, j :: 0 <= i < j < |entries| ==> entries[i].name != name || entries[j].name != name
  }

  lemma SearchesAgree(entries: seq<Entry>, s: nat, target: bytes)
    requires Sorted(entries) && s <= |entries| && (s == 0 || (s < |entries| && Le(entries[s].name, target)))
    ensures Find(entries[s..], target).Some? <==> Find(entries, target).Some?
    ensures Once(entries, target) ==> Find(entries[s..], target) == Find(entries, target)
  {
    if s == 0 {
      assert entries[0..] == entries;
    } else {
      SearchFrom(entries, s, target);
      if s > 0 && entries[s - 1].name == target {
        assert Le(entries[s - 1].name, entries[s].name);
        LeAntisymmetric(entries[s].name, target);
      }
    }
  }
}
