/** Directory inodes: entries kept sorted as they are added, encoded into the directory table run by run with
    counts patched in afterwards, and an index thinned out in place. */
module Directories {
  import opened Bytes
  import opened Codecs
  import opened MetaTables
  import opened DirectoryListings
  import opened DirectoryIndexes
  import opened InodeHeaders
  import opened RegularFiles

  /** Positions and offsets are filled in when the listing is encoded. */
  datatype DirEntry = DirEntry(name: bytes, inode: Inode, serialno: nat, offset: nat, place: Position)

  function Seen(e: DirEntry): Entry
    reads e.inode`at, e.inode`encodedBaseType
  {
    Entry(e.name, e.inode.number, e.inode.at, e.inode.encodedBaseType)
  }

  /** What the entries of a list lead to. */
  ghost function Targets(list: seq<DirEntry>): set<Inode> {
    set i | 0 <= i < |list| :: list[i].inode
  }

  /** A list of entries as the listing sees it. */
  function View(list: seq<DirEntry>): (v: seq<Entry>)
    reads Targets(list)`at, Targets(list)`encodedBaseType
    ensures |v| == |list| && forall i :: 0 <= i < |list| ==> v[i] == Seen(list[i])
  {
    if list == [] then [] else View(Front(list)) + [Seen(Last(list))]
  }

  /** Sorted insertion: before the first entry whose name is not smaller. */
  function Place(names: seq<bytes>, name: bytes): (at: nat)
    ensures at <= |names|
    ensures forall i :: 0 <= i < at ==> !Le(name, names[i])
    ensures at < |names| ==> Le(name, names[at])
  {
    if names == [] || Le(name, names[0]) then 0 else 1 + Place(names[1..], name)
  }

  function Names(list: seq<DirEntry>): (names: seq<bytes>)
    ensures |names| == |list| && forall i :: 0 <= i < |list| ==> names[i] == list[i].name
  {
    if list == [] then [] else Names(Front(list)) + [Last(list).name]
  }

  ghost predicate SortedNames(names: seq<bytes>) {
    forall i, j :: 0 <= i <= j < |names| ==> Le(names[i], names[j])
  }

  /** Inserting keeps the names sorted. */
  lemma InsertSorted(names: seq<bytes>, name: bytes)
    requires SortedNames(names)
    ensures var at := Place(names, name); SortedNames(names[..at] + [name] + names[at..])
  {
    var at := Place(names, name);
    var all := names[..at] + [name] + names[at..];
    forall i, j | 0 <= i <= j < |all|
      ensures Le(all[i], all[j])
    {
      LeReflexive(name);
      if i < at && j == at { LeTotal(name, names[i]); }
      if i == at && j > at { LeTransitive(name, names[at], names[j - 1]); }
      if i < at && j > at { assert Le(names[i], names[j - 1]); }
    }
  }

  /** The entry looked up by name. */
  function FirstNamed(list: seq<DirEntry>, name: bytes): (r: Option<Inode>)
    ensures r.Some? ==> exists i :: 0 <= i < |list| && list[i].name == name && list[i].inode == r.value
  {
    if list == [] then None else if list[0].name == name then Some(list[0].inode) else FirstNamed(list[1..], name)
  }

  lemma {:induction false} FirstNamedAppend(a: seq<DirEntry>, b: seq<DirEntry>, name: bytes)
    ensures FirstNamed(a + b, name) == if FirstNamed(a, name).Some? then FirstNamed(a, name) else FirstNamed(b, name)
  {
    if a == [] {
      assert a + b == b;
    } else {
      assert (a + b)[1..] == a[1..] + b;
      FirstNamedAppend(a[1..], b, name);
    }
  }

  lemma {:induction false} FirstNamedNone(list: seq<DirEntry>, name: bytes)
    requires forall i :: 0 <= i < |list| ==> list[i].name != name
    ensures FirstNamed(list, name) == None
  {
    if list != [] { FirstNamedNone(list[1..], name); }
  }

  lemma FirstNamedOne(e: DirEntry, name: bytes)
    ensures FirstNamed([e], name) == if e.name == name then Some(e.inode) else None
  {
    assert [e][1..] == [];
  }

  /** After an insertion its name leads to the new inode, and every other name where it led before. */
  lemma InsertLooksUp(list: seq<DirEntry>, e: DirEntry, name: bytes)
    ensures var at := Place(Names(list), e.name);
            FirstNamed(list[..at] + [e] + list[at..], name) == if name == e.name then Some(e.inode) else FirstNamed(list, name)
  {
    hide Le, FirstNamed;
    var at := Place(Names(list), e.name);
    FirstNamedOne(e, name);
    FirstNamedAppend(list[..at] + [e], list[at..], name);
    FirstNamedAppend(list[..at], [e], name);
    FirstNamedAppend(list[..at], list[at..], name);
    assert list[..at] + list[at..] == list;
    if name == e.name {
      forall i | 0 <= i < at
        ensures list[..at][i].name != name
      {
        LeReflexive(name);
        assert !Le(e.name, Names(list)[i]);
      }
      FirstNamedNone(list[..at], name);
    }
  }

  /** What an insertion does to the names and to what they lead to. */
  lemma Inserted(list: seq<DirEntry>, e: DirEntry)
    ensures var at := Place(Names(list), e.name);
            var now := list[..at] + [e] + list[at..];
            && (SortedNames(Names(list)) ==> SortedNames(Names(now)))
            && (forall name :: FirstNamed(now, name) == if name == e.name then Some(e.inode) else FirstNamed(list, name))
  {
    var at := Place(Names(list), e.name);
    var now := list[..at] + [e] + list[at..];
    assert Names(now) == Names(list)[..at] + [e.name] + Names(list)[at..];
    if SortedNames(Names(list)) { InsertSorted(Names(list), e.name); }
    forall name
      ensures FirstNamed(now, name) == if name == e.name then Some(e.inode) else FirstNamed(list, name)
    {
      InsertLooksUp(list, e, name);
    }
  }

  // ---------------------------------------------------------------- encoding, halfway

  /** The chunks of a listing whose last run is still open: its count is not known yet. */
  function OpenChunks(runs: seq<seq<Entry>>, count: bytes): (chunks: seq<bytes>)
    requires runs != [] && forall k :: 0 <= k < |runs| ==> runs[k] != []
    ensures |chunks| == |Flatten(runs)|
  {
    assert runs == Front(runs) + [Last(runs)];
    FlattenSnoc(Front(runs), Last(runs));
    Chunks(Front(runs)) + RunChunks(Last(runs), count)
  }

  /** The encoder after some entries: `first` is the entry that started the open run. */
  ghost predicate Halfway(v: seq<Entry>, first: Option<nat>, count: nat, encoded: seq<bytes>, field: bytes) {
    var runs := Runs(v);
    if v == [] then first == None && encoded == []
    else
      && runs != [] && |field| == 4 && first == Some(|v| - |Last(runs)|) && count == |Last(runs)|
      && encoded == OpenChunks(runs, field)
  }

  lemma RunsNotEmpty(v: seq<Entry>)
    requires v != []
    ensures Runs(v) != [] && |Last(Runs(v))| <= |v| && |Flatten(Runs(v))| == |v|
    ensures v[|v| - |Last(Runs(v))|] == Last(Runs(v))[0]
  {
    RunsGood(v);
    var runs := Runs(v);
    assert runs == Front(runs) + [Last(runs)];
    hide Runs, GoodRun, Flatten;
    FlattenSnoc(Front(runs), Last(runs));
    assert runs != [];
  }

  /** Patching the count of the open run closes it. */
  lemma {:induction false} PatchRun(run: seq<Entry>, field: bytes, count: bytes)
    requires run != [] && |field| == |count| == 4
    ensures |RunChunks(run, field)[0]| >= 4
    ensures RunChunks(run, field)[0 := count + RunChunks(run, field)[0][4..]] == RunChunks(run, count)
  {
    if |run| == 1 {
      PatchField(field, count, Le32(run[0].at.block), Le32(run[0].number), Record(run[0], run[0].number));
    } else {
      hide Record, Le32;
      PatchRun(Front(run), field, count);
    }
  }

  lemma PatchField(field: bytes, count: bytes, a: bytes, b: bytes, c: bytes)
    requires |field| == |count| == 4
    ensures count + (field + a + b + c)[4..] == count + a + b + c
  {
  }

  lemma UpdateRight<T>(a: seq<T>, b: seq<T>, x: T)
    requires b != []
    ensures (a + b)[|a| := x] == a + b[0 := x] && (a + b)[|a|] == b[0]
  {
  }

  /** The encoded chunks once the header of the open run has its count. */
  function Patched(encoded: seq<bytes>, first: Option<nat>, count: nat): seq<bytes>
    requires first.Some? ==> first.value < |encoded| && |encoded[first.value]| >= 4
  {
    if first.None? then encoded
    else encoded[first.value := Le32(count - 1) + encoded[first.value][4..]]
  }

  lemma OpenSnoc(runs: seq<seq<Entry>>, run: seq<Entry>, count: bytes)
    requires run != [] && forall k :: 0 <= k < |runs| ==> runs[k] != []
    ensures OpenChunks(runs + [run], count) == Chunks(runs) + RunChunks(run, count)
  {
    assert Front(runs + [run]) == runs;
  }

  lemma RunsSnoc(v: seq<Entry>, e: Entry)
    ensures (v == [] <==> Runs(v) == [])
    ensures v == [] || Cuts(Last(Runs(v)), e) ==> Runs(v + [e]) == Runs(v) + [[e]]
    ensures v != [] && !Cuts(Last(Runs(v)), e) ==> Runs(v + [e]) == Front(Runs(v)) + [Last(Runs(v)) + [e]]
  {
    assert Front(v + [e]) == v;
    if v != [] { RunsNotEmpty(v); }
  }

  lemma PatchCloses(v: seq<Entry>, first: Option<nat>, count: nat, encoded: seq<bytes>, field: bytes)
    requires Halfway(v, first, count, encoded, field)
    ensures |encoded| == |v|
    ensures first.Some? ==> first.value < |encoded| && |encoded[first.value]| >= 4 && v[first.value] == Last(Runs(v))[0]
    ensures Patched(encoded, first, count) == Pieces(v)
  {
    if v == [] {
      assert Pieces(v) == [];
    } else {
      hide Runs, RunChunks, Chunks, Flatten;
      RunsNotEmpty(v);
      PatchRuns(Runs(v), count, encoded, field);
    }
  }

  lemma PatchRuns(runs: seq<seq<Entry>>, count: nat, encoded: seq<bytes>, field: bytes)
    requires runs != [] && (forall k :: 0 <= k < |runs| ==> runs[k] != []) && |field| == 4
    requires encoded == OpenChunks(runs, field) && count == |Last(runs)|
    ensures var first := |Flatten(runs)| - |Last(runs)|;
            && 0 <= first < |encoded| && |encoded[first]| >= 4
            && encoded[first := Le32(count - 1) + encoded[first][4..]] == Chunks(runs)
  {
    hide RunChunks, Flatten, Le32;
    var closed, open := Chunks(Front(runs)), RunChunks(Last(runs), field);
    assert runs == Front(runs) + [Last(runs)];
    FlattenSnoc(Front(runs), Last(runs));
    PatchRun(Last(runs), field, Le32(count - 1));
    UpdateRight(closed, open, Le32(count - 1) + open[0][4..]);
  }

  /** The open run so far, in bytes. */
  lemma OpenRunSize(v: seq<Entry>, first: nat, count: nat, encoded: seq<bytes>, field: bytes)
    requires Halfway(v, Some(first), count, encoded, field)
    ensures first <= |encoded| == |v| && |Flatten(encoded)| == |Flatten(encoded[..first])| + |RunBytes(Last(Runs(v)))|
  {
    RunsNotEmpty(v);
    var runs := Runs(v);
    var closed, open := Chunks(Front(runs)), RunChunks(Last(runs), field);
    hide Runs, RunChunks, Chunks, Flatten;
    assert encoded[..first] == closed;
    FlattenAppend(closed, open);
    RunChunksBytes(Last(runs), field);
  }

  lemma StepCuts(v: seq<Entry>, e: Entry, field: bytes)
    requires |field| == 4 && (v == [] || Cuts(Last(Runs(v)), e))
    ensures Halfway(v + [e], Some(|v|), 1, Pieces(v) + [field + Le32(e.at.block) + Le32(e.number) + Record(e, e.number)], field)
  {
    hide Runs, Cuts, Chunks, OpenChunks;
    RunsSnoc(v, e);
    OpenSnoc(Runs(v), [e], field);
    hide Record;
  }

  lemma StepJoins(v: seq<Entry>, e: Entry, first: nat, count: nat, encoded: seq<bytes>, field: bytes)
    requires Halfway(v, Some(first), count, encoded, field) && !Cuts(Last(Runs(v)), e)
    ensures first < |v| && Halfway(v + [e], Some(first), count + 1, encoded + [Record(e, v[first].number)], field)
  {
    hide Runs, Cuts, Chunks, RunChunks, Flatten, Record;
    RunsNotEmpty(v);
    RunsSnoc(v, e);
    var runs, run := Runs(v), Last(Runs(v));
    OpenSnoc(Front(runs), run + [e], field);
    RunGrows(run, e, field);
    ConcatAssociates(Chunks(Front(runs)), RunChunks(run, field), [Record(e, run[0].number)]);
  }

  lemma RunGrows(run: seq<Entry>, e: Entry, field: bytes)
    requires run != []
    ensures RunChunks(run + [e], field) == RunChunks(run, field) + [Record(e, run[0].number)]
  {
    hide Record;
    assert Front(run + [e]) == run && (run + [e])[0] == run[0];
  }

  lemma {:induction false} FlattenLengths(a: seq<bytes>, b: seq<bytes>)
    requires |a| == |b| && forall i :: 0 <= i < |a| ==> |a[i]| == |b[i]|
    ensures |Flatten(a)| == |Flatten(b)|
  {
    if a != [] { FlattenLengths(a[1..], b[1..]); }
  }

  /** The offsets of the chunks do not change when one of them is patched. */
  ghost predicate OffsetsOf(list: seq<DirEntry>, encoded: seq<bytes>) {
    forall i :: 0 <= i < |encoded| && i < |list| ==> list[i].serialno == i && list[i].offset == |Flatten(encoded[..i])|
  }

  lemma PatchKeepsOffsets(list: seq<DirEntry>, encoded: seq<bytes>, patched: seq<bytes>)
    requires |encoded| == |patched| && forall i :: 0 <= i < |encoded| ==> |encoded[i]| == |patched[i]|
    requires OffsetsOf(list, encoded)
    ensures OffsetsOf(list, patched) && |Flatten(patched)| == |Flatten(encoded)|
  {
    forall i | 0 <= i < |encoded| && i < |list|
      ensures list[i].offset == |Flatten(patched[..i])|
    {
      FlattenLengths(encoded[..i], patched[..i]);
    }
    FlattenLengths(encoded, patched);
  }

  lemma PatchedOffsets(list: seq<DirEntry>, encoded: seq<bytes>, first: Option<nat>, count: nat)
    requires first.Some? ==> first.value < |encoded| && |encoded[first.value]| >= 4
    requires OffsetsOf(list, encoded)
    ensures OffsetsOf(list, Patched(encoded, first, count)) && |Flatten(Patched(encoded, first, count))| == |Flatten(encoded)|
  {
    PatchKeepsOffsets(list, encoded, Patched(encoded, first, count));
  }

  lemma OffsetsSnoc(list: seq<DirEntry>, e: DirEntry, encoded: seq<bytes>, chunk: bytes)
    requires |encoded| < |list| && OffsetsOf(list, encoded) && e.serialno == |encoded| && e.offset == |Flatten(encoded)|
    ensures OffsetsOf(list[|encoded| := e], encoded + [chunk])
    ensures |Flatten(encoded + [chunk])| == |Flatten(encoded)| + |chunk|
  {
    FlattenSnoc(encoded, chunk);
    var all := encoded + [chunk];
    forall i | 0 <= i < |all|
      ensures all[..i] == encoded[..i]
    {
    }
    assert encoded[..|encoded|] == encoded;
  }

  /** The same names and inodes, in the same order. */
  ghost predicate SameLinks(a: seq<DirEntry>, b: seq<DirEntry>) {
    |a| == |b| && forall i :: 0 <= i < |a| ==> a[i].name == b[i].name && a[i].inode == b[i].inode
  }

  lemma HeadsSnoc(v: seq<Entry>, e: Entry)
    ensures Heads(Runs(v + [e])) == if v == [] || Cuts(Last(Runs(v)), e) then Heads(Runs(v)) + [|v|] else Heads(Runs(v))
  {
    RunsGood(v);
    RunsSnoc(v, e);
    hide Runs, Cuts, GoodRun, Flatten;
    var runs := Runs(v);
    HeadsGrow(runs, [e]);
    if runs != [] {
      HeadsGrow(Front(runs), Last(runs) + [e]);
    }
  }

  lemma HeadsGrow(runs: seq<seq<Entry>>, run: seq<Entry>)
    ensures Heads(runs + [run]) == Heads(runs) + [|Flatten(runs)|]
  {
    assert Front(runs + [run]) == runs;
  }

  /** Does an entry need a header of its own? `first` is the first entry behind the header coded last. */
  predicate NeedsHeader(entry: DirEntry, size: nat, first: Option<DirEntry>)
    reads entry.inode, if first.Some? then {first.value.inode} else {}
  {
    || first.None?
    || entry.inode.at.block != first.value.inode.at.block
    || entry.inode.number - first.value.inode.number < -0x8000 || entry.inode.number - first.value.inode.number > 0x7fff
    || size + entry.offset - first.value.offset > METADATA_SIZE
    || entry.serialno - first.value.serialno > MAX_RUN - 1
  }

  /** The encoder's test is the cut rule. */
  lemma NeedsHeaderIsCuts(list: seq<DirEntry>, v: seq<Entry>, n: nat, first: Option<nat>, count: nat, encoded: seq<bytes>, field: bytes)
    requires n < |list| && |v| == n && Halfway(v, first, count, encoded, field) && OffsetsOf(list, encoded)
    requires forall i :: 0 <= i < n ==> v[i] == Seen(list[i])
    requires list[n].serialno == n && list[n].offset == |Flatten(encoded)|
    ensures first.Some? <==> v != []
    ensures first.Some? ==> first.value < n
    ensures NeedsHeader(list[n], ENTRY_SIZE + |list[n].name|, if first.None? then None else Some(list[first.value]))
       <==> v == [] || Cuts(Last(Runs(v)), Seen(list[n]))
  {
    if v != [] {
      hide Runs, RunBytes, RunChunks, Chunks, Flatten, OpenChunks;
      RunsNotEmpty(v);
      PatchCloses(v, first, count, encoded, field);
      OpenRunSize(v, first.value, count, encoded, field);
    }
  }

  /** Everything the encoder knows after `n` entries of `v`. */
  ghost predicate Encoding(list: seq<DirEntry>, v: seq<Entry>, n: nat, first: Option<nat>, count: nat, encoded: seq<bytes>, field: bytes,
                           offset: nat, indexed: seq<nat>)
  {
    && n == |encoded| <= |list| == |v|
    && Halfway(v[..n], first, count, encoded, field)
    && OffsetsOf(list, encoded) && offset == |Flatten(encoded)|
    && indexed == Heads(Runs(v[..n]))
  }

  lemma EncodingStarts(list: seq<DirEntry>, v: seq<Entry>)
    requires |list| == |v|
    ensures Encoding(list, v, 0, None, 0, [], [], 0, [])
  {
    assert v[..0] == [];
  }

  /** Filling in the serial number and offset of the next entry does not disturb the earlier ones. */
  lemma EncodingSets(list: seq<DirEntry>, v: seq<Entry>, n: nat, first: Option<nat>, count: nat, encoded: seq<bytes>, field: bytes,
                     offset: nat, indexed: seq<nat>, e: DirEntry)
    requires Encoding(list, v, n, first, count, encoded, field, offset, indexed) && n < |list|
    ensures Encoding(list[n := e], v, n, first, count, encoded, field, offset, indexed)
  {
    hide Halfway, Flatten;
  }

  lemma EncodingNeeds(list: seq<DirEntry>, v: seq<Entry>, n: nat, first: Option<nat>, count: nat, encoded: seq<bytes>, field: bytes,
                      offset: nat, indexed: seq<nat>)
    requires Encoding(list, v, n, first, count, encoded, field, offset, indexed) && n < |list|
    requires list[n].serialno == n && list[n].offset == offset && forall i :: 0 <= i < |list| ==> v[i] == Seen(list[i])
    ensures first.Some? <==> n > 0
    ensures first.Some? ==> first.value < n && |encoded[first.value]| >= 4
    ensures NeedsHeader(list[n], ENTRY_SIZE + |list[n].name|, if first.None? then None else Some(list[first.value]))
       <==> v[..n] == [] || Cuts(Last(Runs(v[..n])), v[n])
  {
    hide Halfway, Flatten, Runs, Heads, NeedsHeader, Cuts, OffsetsOf;
    NeedsHeaderIsCuts(list, v[..n], n, first, count, encoded, field);
    PatchCloses(v[..n], first, count, encoded, field);
  }

  lemma EncodingCuts(list: seq<DirEntry>, v: seq<Entry>, n: nat, first: Option<nat>, count: nat, encoded: seq<bytes>, field: bytes,
                     offset: nat, indexed: seq<nat>, header: bytes)
    requires Encoding(list, v, n, first, count, encoded, field, offset, indexed) && n < |list| && |header| == 4
    requires list[n].serialno == n && list[n].offset == offset && (v[..n] == [] || Cuts(Last(Runs(v[..n])), v[n]))
    ensures first.Some? ==> first.value < |encoded| && |encoded[first.value]| >= 4
    ensures var chunk := header + Le32(v[n].at.block) + Le32(v[n].number) + Record(v[n], v[n].number);
            Encoding(list, v, n + 1, Some(n), 1, Patched(encoded, first, count) + [chunk], header, offset + |chunk|, indexed + [n])
  {
    hide Halfway, Flatten, Runs, Heads, Cuts, OffsetsOf, Record;
    assert v[..n + 1] == v[..n] + [v[n]];
    HeadsSnoc(v[..n], v[n]);
    PatchCloses(v[..n], first, count, encoded, field);
    PatchedOffsets(list, encoded, first, count);
    StepCuts(v[..n], v[n], header);
    OffsetsSnoc(list, list[n], Patched(encoded, first, count), header + Le32(v[n].at.block) + Le32(v[n].number) + Record(v[n], v[n].number));
    assert list[n := list[n]] == list;
  }

  lemma EncodingJoins(list: seq<DirEntry>, v: seq<Entry>, n: nat, first: nat, count: nat, encoded: seq<bytes>, field: bytes,
                      offset: nat, indexed: seq<nat>)
    requires Encoding(list, v, n, Some(first), count, encoded, field, offset, indexed) && n < |list|
    requires list[n].serialno == n && list[n].offset == offset && v[..n] != [] && !Cuts(Last(Runs(v[..n])), v[n])
    ensures first < n
    ensures var chunk := Record(v[n], v[first].number);
            Encoding(list, v, n + 1, Some(first), count + 1, encoded + [chunk], field, offset + |chunk|, indexed)
  {
    hide Halfway, Flatten, Runs, Heads, Cuts, OffsetsOf, Record;
    assert v[..n + 1] == v[..n] + [v[n]];
    HeadsSnoc(v[..n], v[n]);
    StepJoins(v[..n], v[n], first, count, encoded, field);
    OffsetsSnoc(list, list[n], encoded, Record(v[n], v[first].number));
    assert list[n := list[n]] == list;
  }

  lemma EncodingEnds(list: seq<DirEntry>, v: seq<Entry>, n: nat, first: Option<nat>, count: nat, encoded: seq<bytes>, field: bytes,
                     offset: nat, indexed: seq<nat>)
    requires Encoding(list, v, n, first, count, encoded, field, offset, indexed) && n == |list|
    ensures first.Some? ==> first.value < |encoded| && |encoded[first.value]| >= 4
    ensures Patched(encoded, first, count) == Pieces(v) && offset == |Listing(v)| && indexed == Heads(Runs(v))
    ensures OffsetsOf(list, Patched(encoded, first, count))
  {
    hide Halfway, Flatten, Runs, Heads, OffsetsOf, Listing;
    assert v[..n] == v;
    PatchCloses(v, first, count, encoded, field);
    PatchedOffsets(list, encoded, first, count);
  }

  lemma HeadsInRange(entries: seq<Entry>)
    ensures forall k :: 0 <= k < |Heads(Runs(entries))| ==> Heads(Runs(entries))[k] < |entries|
  {
    RunsGood(entries);
    var runs := Runs(entries);
    forall k | 0 <= k < |Heads(runs)|
      ensures Heads(runs)[k] < |entries|
    {
      HeadAt(runs, k);
      HeadInside(runs, k);
    }
  }

  /** The first `n` entries know their places in the table. */
  ghost predicate PlacesUpTo(list: seq<DirEntry>, n: nat, writer: Option<Codec>, prior: seq<bytes>, encoded: seq<bytes>) {
    n <= |list| == |encoded| && forall i :: 0 <= i < n ==> list[i].place == PositionOf(writer, AppendAll(prior + encoded[..i]))
  }

  lemma PlacesStart(list: seq<DirEntry>, writer: Option<Codec>, prior: seq<bytes>, encoded: seq<bytes>)
    requires |list| == |encoded|
    ensures PlacesUpTo(list, 0, writer, prior, encoded) && prior + encoded[..0] == prior
  {
  }

  lemma PlacesStep(list: seq<DirEntry>, n: nat, writer: Option<Codec>, prior: seq<bytes>, encoded: seq<bytes>, place: Position)
    requires n < |list| && PlacesUpTo(list, n, writer, prior, encoded) && place == PositionOf(writer, AppendAll(prior + encoded[..n]))
    ensures PlacesUpTo(list[n := list[n].(place := place)], n + 1, writer, prior, encoded)
    ensures n == 0 ==> place == PositionOf(writer, AppendAll(prior))
    ensures prior + encoded[..n] + [encoded[n]] == prior + encoded[..n + 1]
    ensures OffsetsOf(list, encoded) ==> OffsetsOf(list[n := list[n].(place := place)], encoded)
  {
    hide AppendAll, PositionOf, Flatten;
    assert prior + encoded[..0] == prior;
  }

  /** Thinning out the index, with the points up to `i` already far enough apart. */
  ghost predicate Pruning(indexed: seq<nat>, i: nat, heads: seq<nat>, count: nat) {
    && (forall k :: 0 <= k < |indexed| ==> indexed[k] < count)
    && (if heads == [] then indexed == []
        else i < |indexed| && indexed[..i + 1] + Spaced(indexed[i], indexed[i + 1..]) == [heads[0]] + Spaced(heads[0], heads[1..]))
  }

  lemma PruningStarts(heads: seq<nat>, count: nat)
    requires forall k :: 0 <= k < |heads| ==> heads[k] < count
    ensures Pruning(heads, 0, heads, count)
  {
    if heads != [] { assert heads[..1] == [heads[0]]; }
  }

  lemma PruningStep(indexed: seq<nat>, i: nat, heads: seq<nat>, count: nat)
    requires Pruning(indexed, i, heads, count) && i + 1 < |indexed|
    ensures indexed[i] < count && indexed[i + 1] < count
    ensures if indexed[i + 1] - indexed[i] > INDEX_GAP then Pruning(indexed, i + 1, heads, count)
            else Pruning(indexed[..i + 1] + indexed[i + 2..], i, heads, count)
  {
    var rest := indexed[i + 1..];
    assert rest[1..] == indexed[i + 2..];
    if indexed[i + 1] - indexed[i] > INDEX_GAP {
      assert indexed[..i + 1] + [rest[0]] == indexed[..i + 2];
      ConcatAssociates(indexed[..i + 1], [rest[0]], Spaced(rest[0], rest[1..]));
    } else {
      var next := indexed[..i + 1] + indexed[i + 2..];
      assert next[..i + 1] == indexed[..i + 1] && next[i + 1..] == indexed[i + 2..];
    }
  }

  lemma PruningEnds(indexed: seq<nat>, i: nat, heads: seq<nat>, count: nat)
    requires Pruning(indexed, i, heads, count) && i + 1 >= |indexed|
    ensures (if indexed == [] then [] else indexed[1..]) == Thinned(heads)
  {
    if heads != [] {
      assert indexed[..i + 1] == indexed && indexed[i + 1..] == [];
      assert indexed == [heads[0]] + Spaced(heads[0], heads[1..]);
    }
  }

  // ---------------------------------------------------------------- inodes

  /** An inode that is neither a directory nor a regular file, ready to be stored. */
  datatype Leaf = Leaf(data: bytes, encodedType: nat, baseType: nat)

  datatype InodeKind = Directory | Regular(file: FileContents) | Other(leaf: Leaf)

  /** The type that directory listings give for an inode. */
  function BaseType(kind: InodeKind): nat {
    match kind
    case Directory => DIR_TYPE
    case Regular(_) => FILE_TYPE
    case Other(leaf) => leaf.baseType
  }

  /** The index points of some entries. */
  function PointsOf(list: seq<DirEntry>, index: seq<nat>): (points: seq<IndexPoint>)
    requires forall i :: 0 <= i < |index| ==> index[i] < |list|
    ensures |points| == |index|
  {
    if index == [] then []
    else PointsOf(list, Front(index)) + [IndexPoint(list[Last(index)].offset, list[Last(index)].place.block, list[Last(index)].name)]
  }

  lemma {:induction false} PointsBytesSnoc(points: seq<IndexPoint>, p: IndexPoint)
    ensures PointsBytes(points + [p]) == PointsBytes(points) + PointBytes(p)
  {
    if points == [] {
      assert [p][1..] == [] && [] + [p] == [p];
      assert PointsBytes([p]) == PointBytes(p) + [];
    } else {
      assert (points + [p])[1..] == points[1..] + [p];
      PointsBytesSnoc(points[1..], p);
    }
  }

  lemma NoWords()
    ensures WordBytes([]) == []
  {
  }

  lemma FlattenEmpty()
    ensures Flatten<byte>([]) == []
  {
  }

  lemma PointsNone(list: seq<DirEntry>)
    ensures PointsBytes(PointsOf(list, [])) == []
  {
  }

  /** One more index point, written as its fields and its name. */
  lemma PointsNext(list: seq<DirEntry>, index: seq<nat>, n: nat, more: seq<bytes>)
    requires n < |index| && forall i :: 0 <= i < |index| ==> index[i] < |list|
    requires Flatten(more) == PointsBytes(PointsOf(list, index[..n]))
    ensures var e := list[index[n]];
            Flatten(more + [Le32(e.offset) + Le32(e.place.block) + Le32(|e.name| - 1)] + [e.name]) == PointsBytes(PointsOf(list, index[..n + 1]))
  {
    hide Le32, Flatten;
    var e := list[index[n]];
    var fields := Le32(e.offset) + Le32(e.place.block) + Le32(|e.name| - 1);
    FlattenSnoc(more, fields);
    FlattenSnoc(more + [fields], e.name);
    ConcatAssociates(Flatten(more), fields, e.name);
    assert Front(index[..n + 1]) == index[..n];
    PointsBytesSnoc(PointsOf(list, index[..n]), IndexPoint(e.offset, e.place.block, e.name));
  }

  class Inode {
    const kind: InodeKind
    const number: nat
    const attr: Attr
    /** Place in the inode table, type and basic type; all ones and 0 until the inode is serialised. */
    var at: Position
    var encodedType: nat
    var encodedBaseType: nat
    var nlink: nat

    // of a directory only
    var parent: Inode?
    var entries: seq<DirEntry>
    var indexed: seq<nat>
    var indexedCount: nat
    var start: Position
    var listingSize: nat

    constructor (kind: InodeKind, number: nat, attr: Attr)
      ensures this.kind == kind && this.number == number && this.attr == attr
      ensures at == Position(U32 - 1, U32 - 1) && encodedType == 0 && encodedBaseType == 0 && nlink == 0
      ensures parent == null && entries == [] && indexed == [] && indexedCount == 0
    {
      this.kind, this.number, this.attr := kind, number, attr;
      at, encodedType, encodedBaseType, nlink := Position(U32 - 1, U32 - 1), 0, 0, 0;
      parent, entries, indexed, indexedCount := null, [], [], 0;
      start, listingSize := Position(0, 0), 0;
    }

    /** Adds an entry; a directory that has a parent already cannot be added again. */
    method AddEntry(name: bytes, inode: Inode) returns (ok: bool)
      modifies this`entries, this`nlink, inode`nlink, inode`parent
      ensures ok == !(inode.kind.Directory? && old(inode.parent) != null)
      ensures !ok ==> entries == old(entries) && nlink == old(nlink) && inode.nlink == old(inode.nlink) && inode.parent == old(inode.parent)
      ensures ok ==>
                var e, at := DirEntry(name, inode, 0, 0, Position(0, 0)), Place(Names(old(entries)), name);
                entries == old(entries)[..at] + [e] + old(entries)[at..]
      ensures SortedNames(Names(old(entries))) ==> SortedNames(Names(entries))
      ensures ok ==> forall other :: FirstNamed(entries, other) == if other == name then Some(inode) else FirstNamed(old(entries), other)
      ensures ok && inode.kind.Directory? ==> inode.parent == this
      ensures ok ==> inode.nlink == old(inode.nlink) + (if inode.kind.Directory? && inode == this then 2 else 1)
      ensures ok && inode != this ==> nlink == old(nlink) + (if inode.kind.Directory? then 1 else 0)
    {
      if inode.kind.Directory? {
        if inode.parent != null { return false; }
        inode.parent := this;
        nlink := nlink + 1;
      }
      inode.nlink := inode.nlink + 1;
      var n := 0;
      while n < |entries| && !Le(name, entries[n].name)
        invariant n <= |entries| && forall i :: 0 <= i < n ==> !Le(name, entries[i].name)
      {
        n := n + 1;
      }
      PlaceIs(Names(entries), name, n);
      Inserted(entries, DirEntry(name, inode, 0, 0, Position(0, 0)));
      entries := entries[..n] + [DirEntry(name, inode, 0, 0, Position(0, 0))] + entries[n..];
      return true;
    }

    /** One round of the encoder: `first` is the entry that started the open run, `count` its length so far. */
    method EncodeNext(n: nat, offset: nat, first: Option<nat>, count: nat, before: seq<bytes>, ghost v: seq<Entry>, ghost field: bytes)
      returns (offset': nat, first': Option<nat>, count': nat, encoded: seq<bytes>, ghost field': bytes)
      requires n < |entries| == |v| && forall i :: 0 <= i < |v| ==> v[i] == Seen(entries[i])
      requires Encoding(entries, v, n, first, count, before, field, offset, indexed)
      modifies this`entries, this`indexed, this`indexedCount
      ensures SameLinks(entries, old(entries)) && indexedCount - |indexed| == old(indexedCount) - |old(indexed)|
      ensures Encoding(entries, v, n + 1, first', count', encoded, field', offset', indexed)
    {
      hide Encoding, Runs, Heads, Cuts, OffsetsOf, Record, NeedsHeader, Listing, Le32;
      EncodingSets(entries, v, n, first, count, before, field, offset, indexed, entries[n].(serialno := n, offset := offset));
      entries := entries[n := entries[n].(serialno := n, offset := offset)];
      var entry := entries[n];
      EncodingNeeds(entries, v, n, first, count, before, field, offset, indexed);
      encoded := before;
      var chunk: bytes;
      if NeedsHeader(entry, ENTRY_SIZE + |entry.name|, if first.None? then None else Some(entries[first.value])) {
        // the header is not initialised yet, and holds no count
        assert |Le32(0)| == 4;
        var header: bytes :| |header| == 4;
        EncodingCuts(entries, v, n, first, count, before, field, offset, indexed, header);
        if first.Some? { encoded := encoded[first.value := Le32(count - 1) + encoded[first.value][4..]]; }
        first', count', field' := Some(n), 0, header;
        indexed, indexedCount := indexed + [n], indexedCount + 1;
        chunk := header + Le32(entry.inode.at.block) + Le32(entry.inode.number) + Record(Seen(entry), entry.inode.number);
      } else {
        EncodingJoins(entries, v, n, first.value, count, before, field, offset, indexed);
        first', count', field' := first, count, field;
        chunk := Record(Seen(entry), entries[first.value].inode.number);
      }
      encoded, count', offset' := encoded + [chunk], count' + 1, offset + |chunk|;
    }

    /** Encodes the listing `v`, entry by entry; the count of a run is patched into its header when the next
        one starts, and the entries that start a run are linked into the index. */
    method EncodeEntries(ghost v: seq<Entry>) returns (encoded: seq<bytes>)
      requires v == View(entries)
      modifies this`entries, this`indexed, this`indexedCount, this`listingSize
      ensures SameLinks(entries, old(entries))
      ensures encoded == Pieces(v) && listingSize == |Listing(v)|
      ensures OffsetsOf(entries, encoded)
      ensures indexed == Heads(Runs(v)) && indexedCount == old(indexedCount) + |indexed|
    {
      hide Encoding, Runs, Heads, OffsetsOf, Listing, Le32;
      ghost var field := [];
      var n: nat, offset: nat, count: nat, first: Option<nat> := 0, 0, 0, None;
      encoded, indexed := [], [];
      EncodingStarts(entries, v);
      while n < |entries|
        invariant n <= |entries| && SameLinks(entries, old(entries)) && |v| == |entries|
        invariant forall i :: 0 <= i < |v| ==> v[i] == Seen(entries[i])
        invariant Encoding(entries, v, n, first, count, encoded, field, offset, indexed)
        invariant indexedCount == old(indexedCount) + |indexed|
      {
        offset, first, count, encoded, field := EncodeNext(n, offset, first, count, encoded, v, field);
        n := n + 1;
      }
      EncodingEnds(entries, v, n, first, count, encoded, field, offset, indexed);
      if first.Some? { encoded := encoded[first.value := Le32(count - 1) + encoded[first.value][4..]]; }
      listingSize := offset;
    }

    /** Appends the encoded entries to the directory table. */
    method AppendEntries(tab: MetaTable, encoded: seq<bytes>)
      requires tab.Growing() && |encoded| == |entries| && OffsetsOf(entries, encoded)
      modifies this`entries, this`start, tab.Repr()
      ensures tab.Growing() && (tab.buffer != null && tab.buffer != old(tab.buffer) ==> fresh(tab.buffer))
      ensures tab.appended == old(tab.appended) + encoded
      ensures SameLinks(entries, old(entries)) && OffsetsOf(entries, encoded)
      ensures start == if entries == [] then Position(0, 0) else PositionOf(tab.compressor, AppendAll(old(tab.appended)))
      ensures PlacesUpTo(entries, |entries|, tab.compressor, old(tab.appended), encoded)
    {
      hide AppendAll, PositionOf, PlacesUpTo, OffsetsOf, MetaTable.Growing;
      ghost var prior := tab.appended;
      start := Position(0, 0);
      var n := 0;
      PlacesStart(entries, tab.compressor, prior, encoded);
      while n < |entries|
        invariant n <= |entries| == |encoded| && SameLinks(entries, old(entries)) && OffsetsOf(entries, encoded)
        invariant tab.Growing() && (tab.buffer != null && tab.buffer != old(tab.buffer) ==> fresh(tab.buffer))
        invariant tab.appended == prior + encoded[..n]
        invariant PlacesUpTo(entries, n, tab.compressor, prior, encoded)
        invariant start == if n == 0 then Position(0, 0) else PositionOf(tab.compressor, AppendAll(prior))
      {
        var place := Push(tab, encoded[n]);
        PlacesStep(entries, n, tab.compressor, prior, encoded, place);
        entries := entries[n := entries[n].(place := place)];
        if n == 0 { start := place; }
        n := n + 1;
      }
      assert encoded[..n] == encoded;
    }

    /** Encodes the listing `v` into the directory table; every entry then knows its number, its byte offset
        in the listing and its place in the table. */
    method Encode(tab: MetaTable, ghost v: seq<Entry>)
      requires tab.Growing() && v == View(entries)
      modifies this`entries, this`indexed, this`indexedCount, this`listingSize, this`start, tab.Repr()
      ensures tab.Growing() && (tab.buffer != null && tab.buffer != old(tab.buffer) ==> fresh(tab.buffer))
      ensures SameLinks(entries, old(entries))
      ensures tab.appended == old(tab.appended) + Pieces(v) && listingSize == |Listing(v)|
      ensures start == if entries == [] then Position(0, 0) else PositionOf(tab.compressor, AppendAll(old(tab.appended)))
      ensures OffsetsOf(entries, Pieces(v)) && PlacesUpTo(entries, |entries|, tab.compressor, old(tab.appended), Pieces(v))
      ensures indexed == Heads(Runs(v)) && indexedCount == old(indexedCount) + |indexed|
    {
      hide Runs, Heads, Listing, Pieces, PlacesUpTo, OffsetsOf, AppendAll, PositionOf;
      var encoded := EncodeEntries(v);
      AppendEntries(tab, encoded);
    }

    /** Thins out the index in place: points are kept more than 128 entries apart, and the first is dropped. */
    method PruneIndex()
      requires forall i :: 0 <= i < |entries| ==> entries[i].serialno == i
      requires forall k :: 0 <= k < |indexed| ==> indexed[k] < |entries|
      requires indexedCount == |indexed|
      modifies this`indexed, this`indexedCount
      ensures indexed == Thinned(old(indexed)) && indexedCount == |indexed|
    {
      ghost var heads := indexed;
      var i := 0;
      PruningStarts(heads, |entries|);
      hide Pruning;
      while i + 1 < |indexed|
        invariant Pruning(indexed, i, heads, |entries|)
        invariant indexedCount == |indexed|
        decreases |indexed| - i
      {
        PruningStep(indexed, i, heads, |entries|);
        if entries[indexed[i + 1]].serialno - entries[indexed[i]].serialno > INDEX_GAP {
          i := i + 1;
        } else {
          indexed, indexedCount := indexed[..i + 1] + indexed[i + 2..], indexedCount - 1;
        }
      }
      PruningEnds(indexed, i, heads, |entries|);
      if indexed != [] {
        indexed, indexedCount := indexed[1..], indexedCount - 1;
      }
    }

    /** The number of the parent; the root names one that no inode has. */
    ghost function ParentNumber(rootParent: nat): nat
      reads this`parent
    {
      if parent != null then parent.number else rootParent
    }

    ghost predicate IndexInList()
      reads this`entries, this`indexed, this`indexedCount
    {
      indexedCount == |indexed| && forall k :: 0 <= k < |indexed| ==> indexed[k] < |entries|
    }

    /** What the inode of a directory says. */
    ghost function DirRecord(): DirInode
      requires IndexInList()
      reads this
    {
      DirInode(start, listingSize, PointsOf(entries, indexed))
    }

    /** What the inode refers to is there. */
    ghost predicate Complete(count: nat)
      reads this`entries, this`indexed, this`indexedCount
    {
      (kind.Directory? ==> IndexInList()) && (kind.Regular? ==> InChunks(kind.file, count))
    }

    /** The inode as it is stored, once it can be. */
    ghost function InodeBytes(rootParent: nat, chunks: seq<Pipeline.Chunk>): bytes
      requires Complete(|chunks|)
      reads this
    {
      match kind
      case Directory => DirInodeBytes(encodedType != DIR_TYPE, attr, number, nlink, ParentNumber(rootParent), DirRecord())
      case Regular(file) => FileInodeBytes(attr, number, nlink, file.sparseSize, Described(file, chunks))
      case Other(leaf) => leaf.data
    }

    /** What a reader of the inode is to learn about it: the larger type is used only where it is needed. */
    ghost function Info(rootParent: nat, chunks: seq<Pipeline.Chunk>): InodeInfo
      requires Complete(|chunks|) && !kind.Other?
      reads this
    {
      match kind
      case Directory =>
        InodeInfo(1, indexedCount > 0 || listingSize > 65532 || attr.xattr.Some?, attr.mode, attr.uid, attr.gid, attr.mtime, number, nlink, attr.xattr,
                  Some(ParentNumber(rootParent)), 0)
      case Regular(file) =>
        InodeInfo(2, || file.sparseSize > 0 || nlink != 1 || file.fileSize >= 0x1_0000_0000 || attr.xattr.Some?
                     || (file.blocks != [] && StartBlock(file, chunks) >= 0x1_0000_0000),
                  attr.mode, attr.uid, attr.gid, attr.mtime, number, nlink, attr.xattr, None, file.sparseSize)
    }

    /** It fits the fields there are for it. */
    ghost predicate InfoFits(rootParent: nat)
      reads this
    {
      GoodAttr(attr, number) && nlink < U32 && (if kind.Directory? then ParentNumber(rootParent) < U32 else kind.Regular? && kind.file.sparseSize < U64)
    }

    /** Writes one index point: its fields, then its name. */
    method AppendPoint(tab: MetaTable, e: DirEntry) returns (ghost more: seq<bytes>)
      requires tab.Growing()
      modifies tab.Repr()
      ensures tab.Growing() && (tab.buffer != null && tab.buffer != old(tab.buffer) ==> fresh(tab.buffer))
      ensures more == [Le32(e.offset) + Le32(e.place.block) + Le32(|e.name| - 1)] + [e.name]
      ensures tab.appended == old(tab.appended) + more
    {
      hide AppendAll, Le32, PositionOf, MetaTable.Growing;
      var fields := Le32(e.offset) + Le32(e.place.block) + Le32(|e.name| - 1);
      var _ := Push(tab, fields);
      var _ := Push(tab, e.name);
      more := [fields] + [e.name];
    }

    /** Writes the index points. */
    method AppendIndex(tab: MetaTable) returns (ghost more: seq<bytes>)
      requires tab.Growing() && forall k :: 0 <= k < |indexed| ==> indexed[k] < |entries|
      modifies tab.Repr()
      ensures tab.Growing() && (tab.buffer != null && tab.buffer != old(tab.buffer) ==> fresh(tab.buffer))
      ensures tab.appended == old(tab.appended) + more && Flatten(more) == PointsBytes(PointsOf(entries, indexed))
    {
      hide AppendAll, PositionOf, PointBytes, PointsBytes, PointsOf, Flatten, Le32;
      var n := 0;
      more := [];
      FlattenEmpty();
      PointsNone(entries);
      while n < |indexed|
        invariant n <= |indexed|
        invariant tab.Growing() && (tab.buffer != null && tab.buffer != old(tab.buffer) ==> fresh(tab.buffer))
        invariant tab.appended == old(tab.appended) + more && Flatten(more) == PointsBytes(PointsOf(entries, indexed[..n]))
      {
        ghost var point := AppendPoint(tab, entries[indexed[n]]);
        PointsNext(entries, indexed, n, more);
        ConcatAssociates(old(tab.appended), more, point);
        assert more + point == more + [point[0]] + [point[1]];
        more := more + point;
        n := n + 1;
      }
      assert indexed[..n] == indexed;
    }

    /** Encodes the inode of a directory into the inode table: the header, and the index if the type has one.
        A directory without a parent is the root: it names `rootParent`. */
    method EncodeDirectory(tab: MetaTable, rootParent: nat) returns (ghost more: seq<bytes>)
      requires tab.Growing() && kind.Directory? && IndexInList()
      modifies this`at, tab.Repr()
      ensures tab.Growing() && (tab.buffer != null && tab.buffer != old(tab.buffer) ==> fresh(tab.buffer))
      ensures at == PositionOf(tab.compressor, AppendAll(old(tab.appended))) && tab.appended == old(tab.appended) + more
      ensures Flatten(more) == DirInodeBytes(encodedType != DIR_TYPE, attr, number, nlink, ParentNumber(rootParent), DirRecord()) && more != []
    {
      hide AppendAll, PositionOf, PointsBytes, PointsOf, DirHeader, LdirHeader, Flatten, MetaTable.Growing;
      var parentNumber := if parent != null then parent.number else rootParent;
      var header := if encodedType == DIR_TYPE then DirHeader(attr, number, start, nlink, listingSize, parentNumber)
                    else LdirHeader(attr, number, start, nlink, listingSize, parentNumber, indexedCount);
      at := Push(tab, header);
      more := [header];
      FlattenOne(header);
      if encodedType != DIR_TYPE {
        ghost var index := AppendIndex(tab);
        FlattenAppend([header], index);
        more := more + index;
      }
    }

    /** Encodes the inode of a regular file: its header, then the list of block sizes, if there are blocks. */
    method EncodeRegular(tab: MetaTable, chunks: seq<Pipeline.Chunk>) returns (ghost more: seq<bytes>)
      requires tab.Growing() && kind.Regular? && InChunks(kind.file, |chunks|)
      modifies this`at, this`encodedType, this`encodedBaseType, tab.Repr()
      ensures tab.Growing() && (tab.buffer != null && tab.buffer != old(tab.buffer) ==> fresh(tab.buffer))
      ensures at == PositionOf(tab.compressor, AppendAll(old(tab.appended))) && tab.appended == old(tab.appended) + more
      ensures Flatten(more) == FileInodeBytes(attr, number, nlink, kind.file.sparseSize, Described(kind.file, chunks)) && more != []
      ensures (encodedType == FILE_TYPE || encodedType == LREG_TYPE) && encodedBaseType == FILE_TYPE
    {
      hide AppendAll, PositionOf, WordBytes, HeaderOf, NeedsLreg, BlockWords, Fragment, StartBlock, MetaTable.Growing, Flatten;
      BlockWordsCount(chunks, kind.file.blocks);
      var header;
      encodedType, header := ChooseHeader(kind.file, attr, number, nlink, chunks);
      encodedBaseType := FILE_TYPE;
      at := Push(tab, header);
      more := [header];
      FlattenOne(header);
      NoWords();
      if kind.file.blocks != [] {
        var list := WriteWords(kind.file.blocks, chunks);
        var _ := Push(tab, list);
        FlattenSnoc([header], list);
        more := more + [list];
      }
    }

    /** Encodes any other inode. */
    method EncodeOther(tab: MetaTable) returns (ghost more: seq<bytes>)
      requires tab.Growing() && kind.Other?
      modifies this`at, this`encodedType, this`encodedBaseType, tab.Repr()
      ensures tab.Growing() && (tab.buffer != null && tab.buffer != old(tab.buffer) ==> fresh(tab.buffer))
      ensures at == PositionOf(tab.compressor, AppendAll(old(tab.appended))) && tab.appended == old(tab.appended) + more
      ensures Flatten(more) == kind.leaf.data && more != []
      ensures encodedType == kind.leaf.encodedType && encodedBaseType == kind.leaf.baseType
    {
      hide AppendAll, PositionOf, Flatten, MetaTable.Growing;
      at := Push(tab, kind.leaf.data);
      encodedType, encodedBaseType := kind.leaf.encodedType, kind.leaf.baseType;
      more := [kind.leaf.data];
      FlattenOne(kind.leaf.data);
    }

    static method Push(tab: MetaTable, data: bytes) returns (at: Position)
      requires tab.Growing()
      modifies tab.Repr()
      ensures tab.Growing() && (tab.buffer != null && tab.buffer != old(tab.buffer) ==> fresh(tab.buffer))
      ensures at == PositionOf(tab.compressor, AppendAll(old(tab.appended))) && tab.appended == old(tab.appended) + [data]
    {
      hide AppendAll, PositionOf;
      at := tab.Append(data);
    }

    method Lookup(name: bytes) returns (r: Option<Inode>)
      ensures r == FirstNamed(entries, name)
    {
      var n := 0;
      assert entries[0..] == entries;
      while n < |entries| && entries[n].name != name
        invariant n <= |entries| && FirstNamed(entries[n..], name) == FirstNamed(entries, name)
      {
        assert entries[n..][1..] == entries[n + 1..];
        n := n + 1;
      }
      r := if n < |entries| then Some(entries[n].inode) else None;
    }
  }

  lemma {:induction false} PlaceIs(names: seq<bytes>, name: bytes, n: nat)
    requires n <= |names| && (forall i :: 0 <= i < n ==> !Le(name, names[i])) && (n < |names| ==> Le(name, names[n]))
    ensures Place(names, name) == n
  {
    if n > 0 { PlaceIs(names[1..], name, n - 1); }
  }
}
