/** Serialising the inodes of an image: recursion over a graph with hard links, each inode once. */
module InodeGraphs {
  import opened Bytes
  import opened Codecs
  import opened MetaTables
  import opened DirectoryListings
  import opened DirectoryIndexes
  import opened InodeHeaders
  import opened FileLayouts
  import opened RegularFiles
  import opened Directories

  /** The fields of an inode that serialising fills in. */
  datatype InodeFields = InodeFields(at: Position, encodedType: nat, encodedBaseType: nat, entries: seq<DirEntry>, indexed: seq<nat>,
                                     indexedCount: nat, start: Position, listingSize: nat, nlink: nat, parent: Inode?)

  function Fields(m: Inode): InodeFields
    reads m
  {
    InodeFields(m.at, m.encodedType, m.encodedBaseType, m.entries, m.indexed, m.indexedCount, m.start, m.listingSize, m.nlink, m.parent)
  }

  datatype Snapshot = Snapshot(order: seq<Inode>, inodes: map<Inode, InodeFields>, inodeChunks: seq<bytes>, dirChunks: seq<bytes>,
                               inodeAt: map<Inode, nat>, listedAt: map<Inode, nat>)

  /** The same entries, links and parent. */
  ghost predicate SameNode(a: InodeFields, b: InodeFields) {
    SameLinks(a.entries, b.entries) && a.nlink == b.nlink && a.parent == b.parent
  }

  /** What serialising some inodes leaves alone: the inodes serialised before, and those still to come; and no
      inode changes its links, no entry its name or its inode. */
  ghost predicate Grown(a: Snapshot, b: Snapshot) {
    && a.order <= b.order && a.inodeChunks <= b.inodeChunks && a.dirChunks <= b.dirChunks
    && (forall m :: m in a.inodeAt ==> m in b.inodeAt && b.inodeAt[m] == a.inodeAt[m])
    && (forall m :: m in a.listedAt ==> m in b.listedAt && b.listedAt[m] == a.listedAt[m])
    && a.inodes.Keys == b.inodes.Keys
    && (forall m :: m in a.inodes && (m in a.order || m !in b.order) ==> b.inodes[m] == a.inodes[m])
    && (forall m :: m in a.inodes ==> SameNode(b.inodes[m], a.inodes[m]))
  }

  lemma GrownTransitive(a: Snapshot, b: Snapshot, c: Snapshot)
    requires Grown(a, b) && Grown(b, c)
    ensures Grown(a, c)
  {
  }

  /** No inode but `n` is touched. */
  ghost predicate OnlyChanged(a: Snapshot, b: Snapshot, n: Inode) {
    b.order == a.order + [n] && forall m :: m in a.inodes && m in b.inodes && m != n ==> b.inodes[m] == a.inodes[m]
  }

  ghost predicate LinksTo(list: seq<DirEntry>, m: Inode) {
    exists i :: 0 <= i < |list| && list[i].inode == m
  }

  /** Inode `m`, serialised since, is an entry of another serialised since. */
  ghost predicate Needed(a: Snapshot, b: Snapshot, m: Inode) {
    exists d :: d in b.order && d !in a.order && d in a.inodes && LinksTo(a.inodes[d].entries, m)
  }

  /** Every inode serialised since is `n` or an entry of another serialised since: nothing is serialised that
      is not below `n`. */
  ghost predicate OnlyBelow(a: Snapshot, b: Snapshot, n: Inode) {
    forall m :: m in b.order && m !in a.order ==> m == n || Needed(a, b, m)
  }

  /** Halfway through the entries of `n`: what was serialised is one of the first `i`, or below. */
  ghost predicate OnlyFirst(a: Snapshot, b: Snapshot, n: Inode, i: nat) {
    && n in a.inodes && i <= |a.inodes[n].entries|
    && (forall m :: m in b.order && m !in a.order ==> (exists j :: 0 <= j < i && a.inodes[n].entries[j].inode == m) || Needed(a, b, m))
  }

  lemma NeededStays(a: Snapshot, b: Snapshot, c: Snapshot, m: Inode)
    requires Grown(a, b) && Grown(b, c) && (Needed(a, b, m) || (Needed(b, c, m) && m !in b.order))
    ensures Needed(a, c, m)
  {
    hide SameNode, LinksTo;
    if Needed(a, b, m) {
      var d :| d in b.order && d !in a.order && d in a.inodes && LinksTo(a.inodes[d].entries, m);
      assert d in c.order;
    } else {
      var d :| d in c.order && d !in b.order && d in b.inodes && LinksTo(b.inodes[d].entries, m);
      LinksStay(b.inodes[d], a.inodes[d], m);
    }
  }

  lemma LinksStay(b: InodeFields, a: InodeFields, m: Inode)
    requires SameNode(b, a) && LinksTo(b.entries, m)
    ensures LinksTo(a.entries, m)
  {
    var i :| 0 <= i < |b.entries| && b.entries[i].inode == m;
    assert a.entries[i].inode == m;
  }

  lemma FirstGrows(a: Snapshot, b: Snapshot, c: Snapshot, n: Inode, i: nat)
    requires Grown(a, b) && Grown(b, c) && OnlyFirst(a, b, n, i) && i < |a.inodes[n].entries|
    requires OnlyBelow(b, c, a.inodes[n].entries[i].inode)
    ensures OnlyFirst(a, c, n, i + 1)
  {
    forall m | m in c.order && m !in a.order
      ensures (exists j :: 0 <= j < i + 1 && a.inodes[n].entries[j].inode == m) || Needed(a, c, m)
    {
      if m in b.order {
        if j :| 0 <= j < i && a.inodes[n].entries[j].inode == m { } else { NeededStays(a, b, c, m); }
      } else if m != a.inodes[n].entries[i].inode {
        NeededStays(a, b, c, m);
      }
    }
  }

  lemma FirstEnds(a: Snapshot, b: Snapshot, c: Snapshot, n: Inode)
    requires Grown(a, b) && Grown(b, c) && n in a.inodes && OnlyFirst(a, b, n, |a.inodes[n].entries|)
    requires c.order == b.order + [n] && n !in a.order
    ensures OnlyBelow(a, c, n)
  {
    forall m | m in c.order && m !in a.order && m != n
      ensures Needed(a, c, m)
    {
      if j :| 0 <= j < |a.inodes[n].entries| && a.inodes[n].entries[j].inode == m {
        assert LinksTo(a.inodes[n].entries, m);
        assert n in c.order;
      } else {
        NeededStays(a, b, c, m);
      }
    }
  }

  /** What an inode must be like to be serialised: a directory with its names in order, a file whose chunks are
      there, or an inode ready to be stored, of a type of its own. */
  ghost predicate Shaped(kind: InodeKind, entries: seq<DirEntry>, count: nat) {
    match kind
    case Directory => SortedNames(Names(entries))
    case Regular(file) => entries == [] && InChunks(file, count)
    case Other(leaf) => entries == [] && leaf.encodedType !in {0, DIR_TYPE, LDIR_TYPE} && 0 < leaf.baseType < U16
                        && |leaf.data| >= 2 && Un16(leaf.data[..2]) == leaf.encodedType
  }

  /** A graph of inodes none of which has been serialised: the entries of a directory rank below it. */
  ghost predicate Unserialised(rank: map<Inode, nat>, count: nat)
    reads rank.Keys
  {
    forall n :: n in rank ==>
      && (forall i :: 0 <= i < |n.entries| ==> n.entries[i].inode in rank && rank[n.entries[i].inode] < rank[n])
      && Shaped(n.kind, n.entries, count) && n.encodedType == 0 && n.indexedCount == 0
  }

  lemma UnserialisedMore(rank: map<Inode, nat>, count: nat, more: nat)
    requires Unserialised(rank, count) && count <= more
    ensures Unserialised(rank, more)
  {
  }

  lemma ShapedStays(kind: InodeKind, a: seq<DirEntry>, b: seq<DirEntry>, count: nat)
    requires Shaped(kind, a, count) && SameLinks(b, a)
    ensures Shaped(kind, b, count)
  {
    hide InChunks;
    assert Names(a) == Names(b);
  }

  lemma {:induction false} FlattenPrefix(a: seq<bytes>, b: seq<bytes>)
    requires a <= b
    ensures Flatten(a) <= Flatten(b)
  {
    assert b == a + b[|a|..];
    FlattenAppend(a, b[|a|..]);
  }

  /** What was read from chunk `k` on is still read from there when more has been appended. */
  lemma StreamGrows(a: seq<bytes>, b: seq<bytes>, k: nat)
    requires a <= b && k <= |a|
    ensures Flatten(a[k..]) <= Flatten(b[k..])
  {
    assert a[k..] <= b[k..];
    FlattenPrefix(a[k..], b[k..]);
  }

  /** Names a reader can use: none empty, none longer than its length field can say, none twice. */
  ghost predicate UsableNames(list: seq<DirEntry>) {
    && (forall i :: 0 <= i < |list| ==> 0 < |list[i].name| <= U16)
    && (forall i, j :: 0 <= i < j < |list| ==> list[i].name != list[j].name)
  }

  /** Finds a name in the directory whose inode lies at `at`, out of the two tables. */
  function FindEntry(reader: Codec, inodes: bytes, dirs: bytes, at: Position, name: bytes): Option<Entry> {
    match ReadDirInode(reader, inodes, at)
    case None => None
    case Some(d) => IndexedLookup(reader, dirs, d.start, d.size, d.points, name)
  }

  /** Follows a path from the inode at `at`. */
  function Follow(reader: Codec, inodes: bytes, dirs: bytes, at: Position, path: seq<bytes>): Option<Position>
    decreases |path|
  {
    if path == [] then Some(at)
    else
      match FindEntry(reader, inodes, dirs, at, path[0])
      case None => None
      case Some(e) => Follow(reader, inodes, dirs, e.at, path[1..])
  }

  /** The entry of a listing that leads to an inode. */
  ghost function EntryFor(name: bytes, m: Option<Inode>): Option<Entry>
    reads if m.Some? then {m.value} else {}
  {
    match m
    case None => None
    case Some(n) => Some(Entry(name, n.number, n.at, match n.kind case Directory => 1 case Regular(_) => 2 case Other(leaf) => leaf.baseType))
  }

  /** All that some entries lead to have got their types. */
  ghost predicate Typed(list: seq<DirEntry>)
    reads Targets(list)
  {
    forall i :: 0 <= i < |list| ==> list[i].inode.encodedBaseType == BaseType(list[i].inode.kind)
  }

  /** What a search of the listing finds is what the entry in memory leads to. */
  lemma {:induction false} FirstNamedFound(list: seq<DirEntry>, name: bytes)
    requires Typed(list)
    ensures Find(View(list), name) == EntryFor(name, FirstNamed(list, name))
  {
    if list != [] {
      assert View(list)[1..] == View(list[1..]);
      FirstNamedFound(list[1..], name);
    }
  }

  lemma {:induction false} PointOf(list: seq<DirEntry>, index: seq<nat>, i: nat)
    requires (forall k :: 0 <= k < |index| ==> index[k] < |list|) && i < |index|
    ensures PointsOf(list, index)[i] == IndexPoint(list[index[i]].offset, list[index[i]].place.block, list[index[i]].name)
  {
    if i < |index| - 1 { PointOf(list, Front(index), i); }
  }

  /** The inode of a regular file does not start like that of a directory. */
  lemma RegularStarts(a: Attr, number: nat, nlink: nat, sparse: nat, f: FileInode)
    ensures var x := FileInodeBytes(a, number, nlink, sparse, f); |x| >= 2 && Un16(x[0..2]) in {FILE_TYPE, LREG_TYPE}
  {
    hide HeaderOf, WordBytes, Un16, NeedsLreg;
    HeaderType(a, number, nlink, sparse, f);
    var h := HeaderOf(a, number, nlink, sparse, f);
    assert (h + WordBytes(f.words))[0..2] == h[..2];
  }

  class Tree {
    const inodeTable: MetaTable
    const dirTable: MetaTable
    /** The parent number the root names: one more than there are inodes. */
    const rootParent: nat
    /** The finished bulk data that the files of the image were submitted as. */
    const chunks: seq<Pipeline.Chunk>
    /** The inodes, ranked so that the entries of a directory rank below it: there are no cycles. */
    ghost const rank: map<Inode, nat>
    /** The inodes serialised so far, in order. */
    ghost var order: seq<Inode>
    /** Which append to the inode table, or to the directory table, an inode or its listing starts with. */
    ghost var inodeAt: map<Inode, nat>
    ghost var listedAt: map<Inode, nat>

    ghost predicate Apart()
      reads inodeTable, dirTable
    {
      inodeTable != dirTable && (inodeTable.buffer == null || inodeTable.buffer != dirTable.buffer)
    }

    ghost predicate Tables()
      reads inodeTable, inodeTable.buffer, dirTable, dirTable.buffer
    {
      Apart() && inodeTable.Growing() && dirTable.Growing()
    }

    ghost predicate Graph()
      reads rank.Keys
    {
      forall n :: n in rank ==>
        && (forall i :: 0 <= i < |n.entries| ==> n.entries[i].inode in rank && rank[n.entries[i].inode] < rank[n])
        && Shaped(n.kind, n.entries, |chunks|)
    }

    /** The listing `v` of a directory lies in the directory table, and the inode knows where. */
    ghost predicate ListedAs(d: Inode, v: seq<Entry>)
      reads this`listedAt, dirTable`appended, d`entries, d`indexed, d`indexedCount, d`listingSize, d`start
    {
      && d in listedAt && listedAt[d] + |v| <= |dirTable.appended| && |d.entries| == |v|
      && var prior := dirTable.appended[..listedAt[d]];
      && dirTable.appended[listedAt[d]..listedAt[d] + |v|] == Pieces(v)
      && d.listingSize == |Listing(v)|
      && d.start == (if v == [] then Position(0, 0) else PositionOf(dirTable.compressor, AppendAll(prior)))
      && OffsetsOf(d.entries, Pieces(v)) && PlacesUpTo(d.entries, |v|, dirTable.compressor, prior, Pieces(v))
      && d.indexed == Indexed(v) && d.indexedCount == |d.indexed|
    }

    ghost predicate Listed(d: Inode)
      reads this`listedAt, dirTable`appended, d`entries, d`indexed, d`indexedCount, d`listingSize, d`start, d`encodedType
      reads Targets(d.entries)`at, Targets(d.entries)`encodedBaseType
    {
      && ListedAs(d, View(d.entries))
      && d.encodedType == (if d.indexedCount > 0 || d.listingSize > 0xffff - 3 || d.attr.xattr.Some? then LDIR_TYPE else DIR_TYPE)
    }

    /** An inode lies in the inode table, at the place it knows, byte by byte. */
    ghost predicate Recorded(n: Inode)
      reads this`inodeAt, inodeTable`appended, n
    {
      && n.encodedType != 0 && n.encodedBaseType == BaseType(n.kind)
      && n in inodeAt && inodeAt[n] < |inodeTable.appended|
      && n.at == PositionOf(inodeTable.compressor, AppendAll(inodeTable.appended[..inodeAt[n]]))
      && n.Complete(|chunks|) && n.InodeBytes(rootParent, chunks) <= Flatten(inodeTable.appended[inodeAt[n]..])
    }

    /** Each inode is in the order once, behind all that it has entries for, if it is serialised; if not, it
        is not there and has no place yet. */
    ghost predicate Memo()
      reads this, rank.Keys
    {
      && (forall i, j :: 0 <= i < j < |order| ==> order[i] != order[j])
      && (forall n :: n in order ==> n in rank)
      && (forall n :: n in inodeAt ==> n in order) && (forall n :: n in listedAt ==> n in order)
      && (forall n :: n in rank ==> (n in order <==> n.encodedType != 0))
      && (forall n :: n in rank && n !in order ==> n.indexedCount == 0)
    }

    ghost predicate Children()
      reads this, rank.Keys
    {
      forall j, i :: 0 <= j < |order| && order[j] in rank && 0 <= i < |order[j].entries| ==> order[j].entries[i].inode in order[..j]
    }

    /** What is in the tables is what the inodes say. */
    ghost predicate Stored()
      reads this, inodeTable`appended, dirTable`appended, rank.Keys
    {
      && Graph() && Memo() && Children()
      && (forall n :: n in rank && n in order ==> Recorded(n))
      && (forall n :: n in rank && n in order && n.kind.Directory? ==> Listed(n))
    }

    ghost predicate Valid()
      reads this, inodeTable, inodeTable.buffer, dirTable, dirTable.buffer, rank.Keys
    {
      Tables() && Stored()
    }

    constructor (inodeTable: MetaTable, dirTable: MetaTable, rootParent: nat, chunks: seq<Pipeline.Chunk>, ghost rank: map<Inode, nat>)
      requires inodeTable != dirTable && (inodeTable.buffer == null || inodeTable.buffer != dirTable.buffer)
      requires inodeTable.Growing() && dirTable.Growing()
      requires Unserialised(rank, |chunks|)
      ensures Valid() && order == [] && this.chunks == chunks
      ensures this.inodeTable == inodeTable && this.dirTable == dirTable && this.rootParent == rootParent && this.rank == rank
    {
      hide Recorded, Listed, Shaped, MetaTable.Growing;
      this.inodeTable, this.dirTable, this.rootParent, this.chunks, this.rank := inodeTable, dirTable, rootParent, chunks, rank;
      order, inodeAt, listedAt := [], map[], map[];
    }

    ghost function Now(): Snapshot
      reads this, inodeTable`appended, dirTable`appended, rank.Keys
    {
      Snapshot(order, map m | m in rank :: Fields(m), inodeTable.appended, dirTable.appended, inodeAt, listedAt)
    }

    static twostate predicate Same(m: Inode)
      reads m
    {
      Fields(m) == old(Fields(m))
    }

    twostate predicate Grew()
      reads this, inodeTable, dirTable, rank.Keys
    {
      Grown(old(Now()), Now())
    }

    twostate lemma GrewGives()
      requires Grew()
      ensures old(order) <= order
      ensures old(inodeTable.appended) <= inodeTable.appended && old(dirTable.appended) <= dirTable.appended
      ensures forall m :: m in old(inodeAt) ==> m in inodeAt && inodeAt[m] == old(inodeAt[m])
      ensures forall m :: m in old(listedAt) ==> m in listedAt && listedAt[m] == old(listedAt[m])
      ensures forall m :: m in rank && (m in old(order) || m !in order) ==> Same(m)
      ensures forall m :: m in rank ==> SameLinks(m.entries, old(m.entries))
    {
      hide AppendAll, SameLinks;
      forall m | m in rank
        ensures SameLinks(m.entries, old(m.entries)) && ((m in old(order) || m !in order) ==> Same(m))
      {
        assert old(Now()).inodes[m] == old(Fields(m)) && Now().inodes[m] == Fields(m);
      }
    }

    twostate lemma RecordedStays(m: Inode)
      requires m in rank && Grew() && old(Recorded(m)) && old(m in order)
      ensures Recorded(m)
    {
      hide AppendAll, PositionOf, Flatten, Grew, Inode.InodeBytes;
      GrewGives();
      assert inodeTable.appended[..inodeAt[m]] == old(inodeTable.appended)[..inodeAt[m]];
      StreamGrows(old(inodeTable.appended), inodeTable.appended, inodeAt[m]);
      SameBytes(m);
    }

    /** An inode none of whose fields changed has the same bytes. */
    twostate lemma SameBytes(m: Inode)
      requires Same(m)
      ensures m.Complete(|chunks|) == old(m.Complete(|chunks|))
      ensures m.Complete(|chunks|) ==> m.InodeBytes(rootParent, chunks) == old(m.InodeBytes(rootParent, chunks))
    {
      hide PointsOf, FileInodeBytes, DirInodeBytes, Described, InChunks;
    }

    twostate lemma ListedStays(d: Inode)
      requires d in rank && Grew() && old(Listed(d)) && old(d in order)
      requires forall i :: 0 <= i < |d.entries| ==> d.entries[i].inode in rank && old(d.entries[i].inode in order)
      ensures Listed(d)
    {
      hide AppendAll, PositionOf, Pieces, Indexed, OffsetsOf, PlacesUpTo, Listing, Grew, SameLinks;
      GrewGives();
      var k, v := listedAt[d], View(d.entries);
      assert d.entries == old(d.entries);
      forall i | 0 <= i < |d.entries|
        ensures Seen(d.entries[i]) == old(Seen(d.entries[i]))
      {
        assert Same(d.entries[i].inode);
      }
      assert v == old(View(d.entries));
      assert dirTable.appended[..k] == old(dirTable.appended)[..k];
      assert dirTable.appended[k..k + |v|] == old(dirTable.appended)[k..k + |v|];
    }

    /** One more inode in the order, the tables longer, nothing else changed: what was known stays true. */
    twostate lemma ValidStays(n: Inode)
      requires old(Valid()) && Grew() && Tables()
      requires n in rank && old(n.encodedType) == 0 && n.encodedType != 0 && order == old(order) + [n]
      requires forall i :: 0 <= i < |old(n.entries)| ==> old(n.entries[i].inode in order)
      requires Recorded(n) && (n.kind.Directory? ==> Listed(n))
      requires forall m :: m in rank && m != n ==> Same(m)
      requires inodeAt.Keys <= old(inodeAt.Keys) + {n} && listedAt.Keys <= old(listedAt.Keys) + {n}
      ensures Valid()
    {
      hide Recorded, Listed, Tables, Grew, Shaped;
      GrewGives();
      forall m | m in rank
        ensures Shaped(m.kind, m.entries, |chunks|)
      {
        ShapedStays(m.kind, old(m.entries), m.entries, |chunks|);
      }
      forall m | m in rank && m in order && m != n
        ensures Recorded(m)
      {
        RecordedStays(m);
      }
      forall d | d in rank && d in order && d.kind.Directory? && d != n
        ensures Listed(d)
      {
        var j :| 0 <= j < |old(order)| && old(order)[j] == d;
        assert forall i :: 0 <= i < |d.entries| ==> old(d.entries[i].inode in order[..j]);
        ListedStays(d);
      }
    }

    lemma NotYet(n: Inode)
      requires Valid() && n in rank && n.encodedType == 0
      ensures Apart() && Tables() && n !in order && n.indexedCount == 0 && n !in inodeAt && n !in listedAt
      ensures forall i :: 0 <= i < |n.entries| ==> n.entries[i].inode in rank && n.entries[i].inode != n
      ensures Shaped(n.kind, n.entries, |chunks|) && SameLinks(n.entries, n.entries)
    {
    }

    twostate lemma GrewBy(n: Inode)
      requires n in rank && old(n !in order && n !in inodeAt && n !in listedAt) && order == old(order) + [n]
      requires old(inodeTable.appended) <= inodeTable.appended && old(dirTable.appended) <= dirTable.appended
      requires forall m :: m in old(inodeAt) && m != n ==> m in inodeAt && inodeAt[m] == old(inodeAt[m])
      requires forall m :: m in old(listedAt) && m != n ==> m in listedAt && listedAt[m] == old(listedAt[m])
      requires forall m :: m in rank && m != n ==> Same(m)
      requires SameLinks(n.entries, old(n.entries)) && n.nlink == old(n.nlink) && n.parent == old(n.parent)
      ensures Grew() && Grown(old(Now()), Now()) && OnlyChanged(old(Now()), Now(), n)
    {
    }

    /** The inode goes into the inode table behind everything appended so far. */
    ghost predicate AtEnd(n: Inode, before: seq<bytes>)
      reads this`inodeAt, inodeTable`appended, n
    {
      && n in inodeAt && inodeAt[n] == |before| < |inodeTable.appended| && before <= inodeTable.appended
      && n.at == PositionOf(inodeTable.compressor, AppendAll(before)) && n.encodedType != 0 && n.encodedBaseType == BaseType(n.kind)
      && n.Complete(|chunks|) && Flatten(inodeTable.appended[|before|..]) == n.InodeBytes(rootParent, chunks)
    }

    lemma PlacedAtEnd(n: Inode, before: seq<bytes>, more: seq<bytes>)
      requires inodeTable.appended == before + more && more != [] && n in inodeAt && inodeAt[n] == |before|
      requires n.at == PositionOf(inodeTable.compressor, AppendAll(before)) && n.encodedType != 0 && n.encodedBaseType == BaseType(n.kind)
      requires n.Complete(|chunks|) && Flatten(more) == n.InodeBytes(rootParent, chunks)
      ensures AtEnd(n, before)
    {
      hide AppendAll, PositionOf, Flatten, Inode.InodeBytes, Inode.Complete;
      assert inodeTable.appended[|before|..] == more;
    }

    method PlaceLeaf(n: Inode)
      requires Tables() && !n.kind.Directory? && Shaped(n.kind, n.entries, |chunks|)
      modifies this`inodeAt, n`at, n`encodedType, n`encodedBaseType, inodeTable.Repr()
      ensures Tables() && old(inodeTable.appended) <= inodeTable.appended && dirTable.appended == old(dirTable.appended)
      ensures inodeTable.buffer != null && inodeTable.buffer != old(inodeTable.buffer) ==> fresh(inodeTable.buffer)
      ensures inodeAt == old(inodeAt)[n := |old(inodeTable.appended)|] && AtEnd(n, old(inodeTable.appended))
    {
      hide AppendAll, PositionOf, Flatten, MetaTable.Growing, AtEnd, FileInodeBytes, Described, InChunks;
      ghost var before := inodeTable.appended;
      ghost var more;
      inodeAt := inodeAt[n := |inodeTable.appended|];
      if n.kind.Regular? { more := n.EncodeRegular(inodeTable, chunks); } else { more := n.EncodeOther(inodeTable); }
      PlacedAtEnd(n, before, more);
    }

    lemma RecordedAtEnd(n: Inode, before: seq<bytes>)
      requires AtEnd(n, before)
      ensures Recorded(n)
    {
      hide AppendAll, PositionOf, Flatten, Inode.InodeBytes, Inode.Complete;
      assert inodeTable.appended[..|before|] == before;
    }

    /** Serialises an inode that is not a directory. */
    method SerializeLeaf(n: Inode)
      requires Valid() && n in rank && !n.kind.Directory? && n.encodedType == 0
      modifies this, rank.Keys, inodeTable.Repr()
      ensures Valid() && Grown(old(Now()), Now()) && OnlyChanged(old(Now()), Now(), n)
      ensures inodeTable.buffer != null && inodeTable.buffer != old(inodeTable.buffer) ==> fresh(inodeTable.buffer)
    {
      hide Now, Grown, OnlyChanged, Tables, Recorded, Listed, Children, Memo, Graph, Valid, Grew, AtEnd, SameLinks, Shaped;
      NotYet(n);
      ghost var before := inodeTable.appended;
      PlaceLeaf(n);
      order := order + [n];
      RecordedAtEnd(n, before);
      AtEndTyped(n, before);
      GrewBy(n);
      ValidStays(n);
    }

    lemma AtEndTyped(n: Inode, before: seq<bytes>)
      requires AtEnd(n, before)
      ensures n.encodedType != 0
    {
    }

    /** Encodes the listing `v` of a directory into the directory table and thins out its index. */
    method PlaceListing(n: Inode, ghost v: seq<Entry>)
      requires Apart() && Tables() && v == View(n.entries) && n.indexedCount == 0 && forall i :: 0 <= i < |n.entries| ==> n.entries[i].inode != n
      modifies this`listedAt, n`entries, n`indexed, n`indexedCount, n`listingSize, n`start, dirTable.Repr()
      ensures Apart() && Tables() && dirTable.appended == old(dirTable.appended) + Pieces(v) && inodeTable.appended == old(inodeTable.appended)
      ensures dirTable.buffer != null && dirTable.buffer != old(dirTable.buffer) ==> fresh(dirTable.buffer)
      ensures listedAt == old(listedAt)[n := |old(dirTable.appended)|] && ListedAs(n, v) && SameLinks(n.entries, old(n.entries))
      ensures View(n.entries) == v && forall i :: 0 <= i < |n.entries| ==> n.entries[i].inode != n
    {
      hide AppendAll, PositionOf, Feed, TableBytes, Pack, AllBlocks, MetaTable.Now, MetaTable.Valid, MetaTable.Filled, Pieces, Listing, Runs, Heads,
        PlacesUpTo, Thinned, ListedAs, Indexed, OffsetsOf, Tables, MetaTable.Growing;
      TablesGive();
      ghost var before := dirTable.appended;
      listedAt := listedAt[n := |dirTable.appended|];
      n.Encode(dirTable, v);
      HeadsInRange(v);
      SerialNumbers(n.entries, Pieces(v));
      n.PruneIndex();
      ListedAfter(n, v, before);
      ViewKept(n.entries, v);
      TablesFrom();
    }

    lemma TablesGive()
      requires Tables()
      ensures inodeTable.Growing() && dirTable.Growing()
    {
    }

    lemma TablesFrom()
      requires Apart() && inodeTable.Growing() && dirTable.Growing()
      ensures Tables()
    {
    }

    static lemma SerialNumbers(list: seq<DirEntry>, encoded: seq<bytes>)
      requires OffsetsOf(list, encoded) && |encoded| == |list|
      ensures forall i :: 0 <= i < |list| ==> list[i].serialno == i
    {
    }

    static lemma ViewKept(list: seq<DirEntry>, v: seq<Entry>)
      requires |list| == |v| && forall i :: 0 <= i < |v| ==> Seen(list[i]) == v[i]
      ensures View(list) == v
    {
    }

    lemma ListedAfter(n: Inode, v: seq<Entry>, before: seq<bytes>)
      requires dirTable.appended == before + Pieces(v) && |n.entries| == |v| && n in listedAt && listedAt[n] == |before|
      requires n.listingSize == |Listing(v)| && n.indexed == Thinned(Heads(Runs(v))) && n.indexedCount == |n.indexed|
      requires n.start == (if v == [] then Position(0, 0) else PositionOf(dirTable.compressor, AppendAll(before)))
      requires OffsetsOf(n.entries, Pieces(v)) && PlacesUpTo(n.entries, |v|, dirTable.compressor, before, Pieces(v))
      ensures ListedAs(n, v)
    {
      hide AppendAll, PositionOf, Pieces, Listing, Runs, Heads, PlacesUpTo, Thinned, OffsetsOf;
      assert dirTable.appended[..|before|] == before && dirTable.appended[|before|..|before| + |v|] == Pieces(v);
    }

    /** Encodes the inode of a directory into the inode table. */
    method PlaceDirectory(n: Inode)
      requires Apart() && Tables() && n.kind.Directory? && n.IndexInList() && n.encodedType != 0 && n.encodedBaseType == BaseType(n.kind)
      modifies this`inodeAt, n`at, inodeTable.Repr()
      ensures Apart() && Tables() && old(inodeTable.appended) <= inodeTable.appended && dirTable.appended == old(dirTable.appended)
      ensures inodeTable.buffer != null && inodeTable.buffer != old(inodeTable.buffer) ==> fresh(inodeTable.buffer)
      ensures inodeAt == old(inodeAt)[n := |old(inodeTable.appended)|] && AtEnd(n, old(inodeTable.appended))
    {
      hide AppendAll, PositionOf, Flatten, MetaTable.Growing, AtEnd, DirInodeBytes, PointsOf;
      ghost var before := inodeTable.appended;
      inodeAt := inodeAt[n := |inodeTable.appended|];
      ghost var more := n.EncodeDirectory(inodeTable, rootParent);
      PlacedAtEnd(n, before, more);
    }

    /** The smallest type that has room for what the directory needs. */
    method ChooseType(n: Inode)
      modifies n`encodedType, n`encodedBaseType
      ensures n.encodedBaseType == DIR_TYPE
      ensures n.encodedType == (if n.indexedCount > 0 || n.listingSize > 0xffff - 3 || n.attr.xattr.Some? then LDIR_TYPE else DIR_TYPE)
    {
      n.encodedType, n.encodedBaseType := DIR_TYPE, DIR_TYPE;
      if n.indexedCount > 0 || n.listingSize > 0xffff - 3 { n.encodedType := LDIR_TYPE; }
      if n.attr.xattr.Some? { n.encodedType := LDIR_TYPE; }
    }

    /** Lists a directory and chooses its type. */
    method ListDirectory(n: Inode)
      requires Apart() && Tables() && n.indexedCount == 0 && forall i :: 0 <= i < |n.entries| ==> n.entries[i].inode != n
      modifies this`listedAt, dirTable.Repr()
      modifies n`entries, n`indexed, n`indexedCount, n`listingSize, n`start, n`encodedType, n`encodedBaseType
      ensures Apart() && Tables() && inodeTable.appended == old(inodeTable.appended) && old(dirTable.appended) <= dirTable.appended
      ensures dirTable.buffer != null && dirTable.buffer != old(dirTable.buffer) ==> fresh(dirTable.buffer)
      ensures listedAt == old(listedAt)[n := |old(dirTable.appended)|] && Listed(n) && SameLinks(n.entries, old(n.entries))
      ensures n.encodedBaseType == DIR_TYPE && n.encodedType != 0
      ensures (forall i :: 0 <= i < |n.entries| ==> n.entries[i].inode != n) && n.IndexInList()
    {
      hide Tables, Listed, ListedAs, SameLinks, View, Pieces;
      ghost var v := View(n.entries);
      PlaceListing(n, v);
      ListedInRange(n, v);
      ChooseType(n);
      ListedNow(n, v);
    }

    /** Lists a directory and places its inode. */
    method StoreDirectory(n: Inode)
      requires Apart() && Tables() && n.kind.Directory? && n.indexedCount == 0 && forall i :: 0 <= i < |n.entries| ==> n.entries[i].inode != n
      modifies this`listedAt, this`inodeAt, inodeTable.Repr(), dirTable.Repr()
      modifies n`entries, n`indexed, n`indexedCount, n`listingSize, n`start, n`encodedType, n`encodedBaseType, n`at
      ensures Tables() && old(inodeTable.appended) <= inodeTable.appended && old(dirTable.appended) <= dirTable.appended
      ensures inodeTable.buffer != null && inodeTable.buffer != old(inodeTable.buffer) ==> fresh(inodeTable.buffer)
      ensures dirTable.buffer != null && dirTable.buffer != old(dirTable.buffer) ==> fresh(dirTable.buffer)
      ensures inodeAt == old(inodeAt)[n := |old(inodeTable.appended)|] && AtEnd(n, old(inodeTable.appended))
      ensures listedAt == old(listedAt)[n := |old(dirTable.appended)|] && Listed(n) && SameLinks(n.entries, old(n.entries))
      ensures n.encodedBaseType == DIR_TYPE && n.encodedType != 0
    {
      hide Tables, AtEnd, Listed, SameLinks;
      ListDirectory(n);
      assert n !in Targets(n.entries);
      PlaceDirectory(n);
    }

    lemma ListedNow(n: Inode, v: seq<Entry>)
      requires ListedAs(n, v) && View(n.entries) == v
      requires n.encodedType == (if n.indexedCount > 0 || n.listingSize > 0xffff - 3 || n.attr.xattr.Some? then LDIR_TYPE else DIR_TYPE)
      ensures Listed(n)
    {
    }

    /** Serialises a directory whose entries have been serialised. */
    method SerializeDirectory(n: Inode)
      requires Valid() && n in rank && n.kind.Directory? && n.encodedType == 0
      requires forall i :: 0 <= i < |n.entries| ==> n.entries[i].inode in order
      modifies this, rank.Keys, inodeTable.Repr(), dirTable.Repr()
      ensures Valid() && Grown(old(Now()), Now()) && OnlyChanged(old(Now()), Now(), n)
      ensures inodeTable.buffer != null && inodeTable.buffer != old(inodeTable.buffer) ==> fresh(inodeTable.buffer)
      ensures dirTable.buffer != null && dirTable.buffer != old(dirTable.buffer) ==> fresh(dirTable.buffer)
    {
      hide Now, Grown, OnlyChanged, Tables, Recorded, Listed, Children, Memo, Graph, Valid, Grew, AtEnd, SameLinks, ListedAs, View, Shaped;
      NotYet(n);
      ghost var before := inodeTable.appended;
      order := order + [n];
      StoreDirectory(n);
      RecordedAtEnd(n, before);
      GrewBy(n);
      ValidStays(n);
    }

    lemma ListedInRange(n: Inode, v: seq<Entry>)
      requires ListedAs(n, v)
      ensures |n.entries| == |v| && n.IndexInList()
    {
    }

    /** No inode ranked `r` or higher is touched. */
    ghost predicate Spares(a: Snapshot, b: Snapshot, r: nat) {
      forall m :: m in a.inodes && m in b.inodes && m in rank && rank[m] >= r ==> b.inodes[m] == a.inodes[m]
    }

    lemma SparesBelow(a: Snapshot, b: Snapshot, c: Snapshot, low: nat, high: nat)
      requires Grown(a, b) && Grown(b, c) && Spares(a, b, high) && Spares(b, c, low) && low <= high
      ensures Spares(a, c, high)
    {
    }

    /** Serialises an inode and, before it, everything below it that has not been serialised yet. */
    method Serialize(n: Inode)
      requires Valid() && n in rank
      modifies this, rank.Keys, inodeTable.Repr(), dirTable.Repr()
      ensures Valid() && Grown(old(Now()), Now()) && n.encodedType != 0
      ensures OnlyBelow(old(Now()), Now(), n) && Spares(old(Now()), Now(), rank[n] + 1)
      ensures inodeTable.buffer != null && inodeTable.buffer != old(inodeTable.buffer) ==> fresh(inodeTable.buffer)
      ensures dirTable.buffer != null && dirTable.buffer != old(dirTable.buffer) ==> fresh(dirTable.buffer)
      decreases rank[n], 1
    {
      hide Now, Valid, Grown, OnlyBelow, OnlyChanged, Spares;
      ghost var before := Now();
      if n.encodedType != 0 {
        Nothing(n);
        return;
      }
      if n.kind.Directory? {
        SerializeBelow(n);
      } else {
        SerializeLeaf(n);
        LeafAlone(before, n);
      }
    }

    lemma Starting(n: Inode)
      requires Valid() && n in rank && n.encodedType == 0
      ensures Grown(Now(), Now()) && OnlyFirst(Now(), Now(), n, 0) && Spares(Now(), Now(), rank[n]) && n !in Now().order
    {
    }

    lemma Ranked(n: Inode, i: nat)
      requires Valid() && n in rank && i < |n.entries|
      ensures n.entries[i].inode in rank && rank[n.entries[i].inode] < rank[n]
      ensures n in Now().inodes && Now().inodes[n] == Fields(n)
    {
    }

    /** The next entry has been serialised. */
    lemma After(start: Snapshot, before: Snapshot, n: Inode, i: nat, child: Inode)
      requires Valid() && n in rank && Grown(start, before) && OnlyFirst(start, before, n, i) && Spares(start, before, rank[n])
      requires child in rank && rank[child] < rank[n] && n in before.inodes
      requires i < |before.inodes[n].entries| && child == before.inodes[n].entries[i].inode && child.encodedType != 0
      requires Grown(before, Now()) && OnlyBelow(before, Now(), child) && Spares(before, Now(), rank[child] + 1)
      ensures Grown(start, Now()) && OnlyFirst(start, Now(), n, i + 1) && Spares(start, Now(), rank[n])
      ensures Fields(n) == before.inodes[n] && child in order && before.order <= order
    {
      assert Now().inodes[n] == Fields(n);
      assert n in start.inodes && before.inodes[n] == start.inodes[n];
      GrownTransitive(start, before, Now());
      FirstGrows(start, before, Now(), n, i);
      SparesBelow(start, before, Now(), rank[child] + 1, rank[n]);
    }

    /** All entries, and then the directory, have been serialised. */
    lemma Ending(start: Snapshot, before: Snapshot, n: Inode)
      requires Valid() && n in rank && Grown(start, before) && Spares(start, before, rank[n]) && n in before.inodes
      requires OnlyFirst(start, before, n, |before.inodes[n].entries|) && n !in start.order
      requires Grown(before, Now()) && OnlyChanged(before, Now(), n)
      ensures Grown(start, Now()) && OnlyBelow(start, Now(), n) && Spares(start, Now(), rank[n] + 1) && n.encodedType != 0
    {
      assert n in start.inodes && before.inodes[n] == start.inodes[n];
      assert n in order;
      GrownTransitive(start, before, Now());
      FirstEnds(start, before, Now(), n);
      assert Spares(start, before, rank[n] + 1) && Spares(before, Now(), rank[n] + 1);
      SparesBelow(start, before, Now(), rank[n] + 1, rank[n] + 1);
    }

    lemma LeafAlone(before: Snapshot, n: Inode)
      requires n in rank && Valid() && OnlyChanged(before, Now(), n)
      ensures OnlyBelow(before, Now(), n) && Spares(before, Now(), rank[n] + 1) && n.encodedType != 0
    {
      assert n in order;
    }

    lemma Nothing(n: Inode)
      ensures Grown(Now(), Now()) && OnlyBelow(Now(), Now(), n) && (n in rank ==> Spares(Now(), Now(), rank[n] + 1))
    {
    }

    /** Serialises the entries of a directory, then the directory. */
    method SerializeBelow(n: Inode)
      requires Valid() && n in rank && n.kind.Directory? && n.encodedType == 0
      modifies this, rank.Keys, inodeTable.Repr(), dirTable.Repr()
      ensures Valid() && Grown(old(Now()), Now()) && n.encodedType != 0
      ensures OnlyBelow(old(Now()), Now(), n) && Spares(old(Now()), Now(), rank[n] + 1)
      ensures inodeTable.buffer != null && inodeTable.buffer != old(inodeTable.buffer) ==> fresh(inodeTable.buffer)
      ensures dirTable.buffer != null && dirTable.buffer != old(dirTable.buffer) ==> fresh(dirTable.buffer)
      decreases rank[n], 0
    {
      hide Now, Valid, Grown, OnlyBelow, OnlyFirst, OnlyChanged, Spares;
      ghost var start := Now();
      Starting(n);
      var i := 0;
      while i < |n.entries|
        invariant Valid() && Grown(start, Now()) && OnlyFirst(start, Now(), n, i) && Spares(start, Now(), rank[n])
        invariant i <= |n.entries| && n.entries == old(n.entries) && n.encodedType == 0
        invariant inodeTable.buffer != null && inodeTable.buffer != old(inodeTable.buffer) ==> fresh(inodeTable.buffer)
        invariant dirTable.buffer != null && dirTable.buffer != old(dirTable.buffer) ==> fresh(dirTable.buffer)
        invariant forall j :: 0 <= j < i ==> n.entries[j].inode in order
      {
        ghost var before, child := Now(), n.entries[i].inode;
        Ranked(n, i);
        Present(n);
        Serialize(n.entries[i].inode);
        After(start, before, n, i, child);
        i := i + 1;
      }
      ghost var before := Now();
      Present(n);
      SerializeDirectory(n);
      Ending(start, before, n);
    }

    lemma Present(n: Inode)
      requires Valid() && n in rank
      ensures n in Now().inodes && Now().inodes[n] == Fields(n) && Now().order == order
    {
    }

    // ------------------------------------------------------------ what has been achieved

    /** Every entry of a listing names an inode that has its final place and type: no listing holds the
        place or the type an inode starts with. */
    lemma NoPlaceholders(d: Inode, i: nat)
      requires Stored() && d in order && i < |d.entries|
      ensures var child := d.entries[i].inode;
              && child in order && child.encodedType != 0 && child.encodedBaseType == BaseType(child.kind) != 0
              && child.at.offset < METADATA_SIZE && child.at.block < U32
              && child.at != Position(U32 - 1, U32 - 1)
    {
      hide AppendAll, TableBytes, Listed, Inode.InodeBytes;
      var j :| 0 <= j < |order| && order[j] == d;
      assert order[j].entries[i].inode in order[..j];
      var child := d.entries[i].inode;
      assert Recorded(child);
    }

    /** The entries of an inode come before it. */
    lemma ChildrenFirst(j: nat, i: nat)
      requires Stored() && j < |order| && i < |order[j].entries|
      ensures exists k :: 0 <= k < j && order[k] == order[j].entries[i].inode
    {
      assert order[j].entries[i].inode in order[..j];
    }

    ghost predicate IsPath(path: seq<Inode>)
      reads set i | 0 <= i < |path| :: path[i]
    {
      path != [] && forall i :: 0 <= i < |path| - 1 ==> LinksTo(path[i].entries, path[i + 1])
    }

    lemma PathStep(path: seq<Inode>)
      requires Stored() && IsPath(path) && path[0] in order && |path| > 1
      ensures IsPath(path[1..]) && path[1] in order
    {
      hide Stored;
      assert path[0 + 1] == path[1];
      assert LinksTo(path[0].entries, path[1]);
      var i :| 0 <= i < |path[0].entries| && path[0].entries[i].inode == path[1];
      NoPlaceholders(path[0], i);
      var rest := path[1..];
      forall k | 0 <= k < |rest| - 1
        ensures LinksTo(rest[k].entries, rest[k + 1])
      {
        var next := k + 1;
        assert rest[k] == path[next] && rest[k + 1] == path[next + 1];
      }
    }

    /** Whatever can be reached from a serialised inode has been serialised. */
    lemma {:induction false} ReachableIsSerialised(path: seq<Inode>)
      requires Stored() && IsPath(path) && path[0] in order
      ensures forall i :: 0 <= i < |path| ==> path[i] in order
      decreases |path|
    {
      hide Stored, IsPath;
      if |path| > 1 {
        PathStep(path);
        ReachableIsSerialised(path[1..]);
        assert forall i :: 0 < i < |path| ==> path[i] == path[1..][i - 1];
      }
    }

    lemma PathSnoc(path: seq<Inode>, m: Inode)
      requires IsPath(path) && LinksTo(path[|path| - 1].entries, m)
      ensures IsPath(path + [m]) && (path + [m])[0] == path[0] && (path + [m])[|path + [m]| - 1] == m
    {
      hide LinksTo;
      var all := path + [m];
      forall i | 0 <= i < |all| - 1
        ensures LinksTo(all[i].entries, all[i + 1])
      {
        if i < |path| - 1 { assert all[i] == path[i] && all[i + 1] == path[i + 1]; }
      }
    }

    /** Nothing that is not serialised yet has a type. */
    static ghost predicate Untyped(a: Snapshot) {
      forall d :: d in a.inodes && d !in a.order ==> a.inodes[d].encodedType == 0
    }

    /** Whatever is serialised along with `n` can be reached from it. */
    lemma {:induction false} OnlyReachable(before: Snapshot, n: Inode, m: Inode) returns (path: seq<Inode>)
      requires Valid() && n in rank && m in rank && m in order && m !in before.order && Untyped(before)
      requires Grown(before, Now()) && OnlyBelow(before, Now(), n) && Spares(before, Now(), rank[n] + 1)
      ensures IsPath(path) && path[0] == n && path[|path| - 1] == m
      decreases rank[n] - rank[m]
    {
      hide Valid, Now, Grown, OnlyBelow, Spares, Untyped, LinksTo, IsPath;
      if m == n {
        path := [n];
        OnePath(n);
      } else {
        var d := HigherUp(before, n, m);
        path := OnlyReachable(before, n, d);
        PathSnoc(path, m);
        path := path + [m];
      }
    }

    lemma OnePath(n: Inode)
      ensures IsPath([n])
    {
    }

    lemma HigherUp(before: Snapshot, n: Inode, m: Inode) returns (d: Inode)
      requires Valid() && n in rank && m in rank && m in order && m !in before.order && Untyped(before) && m != n
      requires Grown(before, Now()) && OnlyBelow(before, Now(), n) && Spares(before, Now(), rank[n] + 1)
      ensures d in order && d !in before.order && LinksTo(d.entries, m) && d in rank && rank[m] < rank[d] <= rank[n]
    {
      assert Needed(before, Now(), m);
      d :| d in Now().order && d !in before.order && d in before.inodes && LinksTo(before.inodes[d].entries, m);
      assert Now().inodes[d] == Fields(d);
      var i :| 0 <= i < |before.inodes[d].entries| && before.inodes[d].entries[i].inode == m;
      assert SameNode(Now().inodes[d], before.inodes[d]);
      assert d.entries[i].inode == m;
    }

    // ------------------------------------------------------------ reading the tables back

    /** The finished tables. */
    ghost function InodeTableBytes(): bytes
      reads inodeTable`appended
    {
      TableBytes(inodeTable.compressor, BlocksOf(inodeTable.appended))
    }

    ghost function DirTableBytes(): bytes
      reads dirTable`appended
    {
      TableBytes(dirTable.compressor, BlocksOf(dirTable.appended))
    }

    /** Both tables were written with the compressor of the reader, or none, and are smaller than 4 GiB. */
    ghost predicate Legible(reader: Codec)
      reads inodeTable`appended, dirTable`appended
    {
      && Uses(inodeTable.compressor, reader) && |InodeTableBytes()| < U32
      && Uses(dirTable.compressor, reader) && |DirTableBytes()| < U32
    }

    /** At the position of an inode its bytes are read. */
    lemma InodeStreams(n: Inode, reader: Codec, tail: bytes)
      requires Stored() && n in order && Legible(reader)
      ensures n.Complete(|chunks|) && Streams(reader, InodeTableBytes() + tail, n.at, n.InodeBytes(rootParent, chunks))
    {
      hide AppendAll, PositionOf, Flatten, TableBytes, Listed, Uses, BlocksOf, Streams, Inode.InodeBytes, Graph, Children;
      assert Recorded(n);
      var k, all := inodeAt[n], inodeTable.appended;
      AppendedStreams(inodeTable.compressor, reader, all, k, tail);
      StreamsPrefix(reader, InodeTableBytes() + tail, n.at, Flatten(all[k..]), n.InodeBytes(rootParent, chunks));
    }

    /** The listing and the index of a directory fit the fields of its inode. */
    ghost predicate Roomy(d: Inode)
      reads d`listingSize, d`indexedCount
    {
      d.listingSize + 3 < U32 && d.indexedCount < U16
    }

    lemma GoodFields(d: Inode, v: seq<Entry>)
      requires ListedAs(d, v) && UsableNames(d.entries)
      ensures d.IndexInList() && GoodStart(d.start)
      ensures d.listingSize < U32 ==> forall i :: 0 <= i < |d.indexed| ==> GoodPoint(PointsOf(d.entries, d.indexed)[i])
    {
      hide AppendAll, Pieces, TableBytes, Flatten, Listing, Indexed;
      if d.listingSize < U32 {
        forall i | 0 <= i < |d.indexed|
          ensures GoodPoint(PointsOf(d.entries, d.indexed)[i])
        {
          var k := d.indexed[i];
          PointOf(d.entries, d.indexed, i);
          FlattenPrefix(Pieces(v)[..k], Pieces(v));
        }
      }
    }

    /** The inode of a directory is read back, with the place of its listing and its index, exactly if the
        listing and the index fit its fields: the type was chosen so that nothing else can fail. */
    lemma DirectoryReadsBack(d: Inode, reader: Codec, tail: bytes)
      requires Stored() && d in order && d.kind.Directory? && Legible(reader) && UsableNames(d.entries)
      ensures d.IndexInList() && (ReadDirInode(reader, InodeTableBytes() + tail, d.at) == Some(d.DirRecord()) <==> Roomy(d))
    {
      hide AppendAll, PositionOf, TableBytes, Legible, Streams, DirInodeBytes, ReadDirInode, ListedAs, View, PointsOf, Recorded, Graph, Children,
        InodeTableBytes, UsableNames;
      assert Listed(d);
      GoodFields(d, View(d.entries));
      InodeStreams(d, reader, tail);
      DirInodeReadsBack(reader, InodeTableBytes() + tail, d.at, d.InodeBytes(rootParent, chunks), d.encodedType != DIR_TYPE, d.attr, d.number, d.nlink,
        d.ParentNumber(rootParent), d.DirRecord());
      CountOfPoints(d, View(d.entries));
    }

    /** From the finished inode table, what an inode says of itself is what it is in memory: attributes, number, links,
        extended attributes, parent; exactly if all of it fits its fields. */
    lemma InfoReadsBack(n: Inode, reader: Codec, tail: bytes)
      requires Stored() && n in order && !n.kind.Other? && Legible(reader)
      ensures n.Complete(|chunks|)
      ensures ReadInfo(reader, InodeTableBytes() + tail, n.at) == Some(n.Info(rootParent, chunks)) <==> n.InfoFits(rootParent)
    {
      hide AppendAll, PositionOf, TableBytes, Legible, Streams, ReadInfo, ListedAs, View, PointsOf, Recorded, Graph, Children, InodeTableBytes, GoodAttr,
        DirInodeBytes, FileInodeBytes, BlockWords, Fragment, StartBlock;
      InodeStreams(n, reader, tail);
      var x, table := n.InodeBytes(rootParent, chunks), InodeTableBytes() + tail;
      if n.kind.Directory? {
        assert Listed(n);
        DirInfoReadsBack(reader, table, n.at, x, n.encodedType != DIR_TYPE, n.attr, n.number, n.nlink, n.ParentNumber(rootParent), n.DirRecord());
      } else {
        BlockWordsCount(chunks, n.kind.file.blocks);
        FileInfoReadsBack(reader, table, n.at, x, n.attr, n.number, n.nlink, n.kind.file.sparseSize, Described(n.kind.file, chunks));
      }
    }

    lemma CountOfPoints(d: Inode, v: seq<Entry>)
      requires ListedAs(d, v)
      ensures d.IndexInList() && |PointsOf(d.entries, d.indexed)| == d.indexedCount
    {
      hide AppendAll, PositionOf, Pieces, Listing, Indexed, OffsetsOf, PlacesUpTo;
    }

    lemma SplitTable(d: Inode, v: seq<Entry>) returns (prior: seq<bytes>, more: seq<bytes>)
      requires ListedAs(d, v)
      ensures dirTable.appended == prior + Pieces(v) + more && DirTableBytes() == TableBytes(dirTable.compressor, FinalBlocks(prior, v, more))
      ensures d.start == if v == [] then Position(0, 0) else PositionOf(dirTable.compressor, AppendAll(prior))
      ensures OffsetsOf(d.entries, Pieces(v)) && PlacesUpTo(d.entries, |v|, dirTable.compressor, prior, Pieces(v)) && |d.entries| == |v|
      ensures d.listingSize == |Listing(v)| && d.indexed == Indexed(v)
    {
      hide AppendAll, PositionOf, Pieces, Indexed, OffsetsOf, PlacesUpTo, Listing, TableBytes, Close;
      var k := listedAt[d];
      prior, more := dirTable.appended[..k], dirTable.appended[k + |v|..];
      assert dirTable.appended == prior + Pieces(v) + more;
    }

    /** The listing of a directory, searched with its index, out of the finished directory table. */
    lemma ListingLookup(d: Inode, v: seq<Entry>, reader: Codec, name: bytes, tail: bytes)
      requires ListedAs(d, v) && View(d.entries) == v && Legible(reader)
      requires AllFit(v) && AllNamed(v) && Sorted(v)
      ensures d.IndexInList()
      ensures var r := IndexedLookup(reader, DirTableBytes() + tail, d.start, d.listingSize, PointsOf(d.entries, d.indexed), name);
              && (r.Some? <==> Find(v, name).Some?)
              && (Once(v, name) ==> r == Find(v, name))
    {
      hide DirTableBytes, Listing, IndexedLookup, Find, Once, Uses, AllFit, AllNamed, Sorted, PointsOf, Points, Indexed, FinalBlocks, TableBytes, View,
        AppendAll, PositionOf, Pieces, OffsetsOf, PlacesUpTo, ListedAs;
      CountOfPoints(d, v);
      var prior, more := SplitTable(d, v);
      SamePoints(dirTable.compressor, prior, v, d.entries, d.indexed);
      if v == [] {
        EmptyLookup(reader, DirTableBytes() + tail, d.entries, d.indexed, name, v);
      } else {
        IndexedLookupAgrees(dirTable.compressor, reader, prior, v, more, tail, name);
        assert LookupInTable(dirTable.compressor, reader, prior, v, more, tail, name)
            == IndexedLookup(reader, DirTableBytes() + tail, d.start, d.listingSize, PointsOf(d.entries, d.indexed), name);
      }
    }

    /** What the listing of a serialised directory says can be read, and is in order. */
    lemma ViewReads(d: Inode)
      requires Stored() && d in order && d.kind.Directory? && UsableNames(d.entries) && Numbers()
      ensures var v := View(d.entries); AllFit(v) && AllNamed(v) && Sorted(v) && forall name :: Once(v, name)
    {
      hide AppendAll, TableBytes, Listed, Recorded, Children;
      var v := View(d.entries);
      forall i | 0 <= i < |v|
        ensures Fits(v[i])
      {
        NoPlaceholders(d, i);
        assert Shaped(d.entries[i].inode.kind, d.entries[i].inode.entries, |chunks|);
      }
      assert Shaped(d.kind, d.entries, |chunks|);
      assert forall i :: 0 <= i < |v| ==> v[i].name == Names(d.entries)[i];
    }

    lemma AllTyped(d: Inode)
      requires Stored() && d in order
      ensures Typed(d.entries)
    {
      hide Stored;
      forall i | 0 <= i < |d.entries|
        ensures d.entries[i].inode.encodedBaseType == BaseType(d.entries[i].inode.kind)
      {
        NoPlaceholders(d, i);
      }
    }

    /** Inode numbers fit their fields. */
    ghost predicate Numbers()
      reads this`order
    {
      forall n :: n in order ==> n.number < U32
    }

    /** End to end: a reader that knows where the inode of a directory lies, and the two tables, finds a name if
        and only if the directory has an entry of that name; and then the number, place and type of the
        inode that this entry leads to. */
    lemma LookupReadsBack(d: Inode, reader: Codec, name: bytes, tail: bytes, tail': bytes)
      requires Stored() && d in order && d.kind.Directory? && Legible(reader) && UsableNames(d.entries) && Numbers() && Roomy(d)
      ensures FindEntry(reader, InodeTableBytes() + tail, DirTableBytes() + tail', d.at, name) == EntryFor(name, FirstNamed(d.entries, name))
    {
      hide InodeTableBytes, DirTableBytes, Legible, UsableNames, ReadDirInode, IndexedLookup, PointsOf, View, ListedAs, AllFit, AllNamed, Sorted, Once,
        Recorded, Graph, Memo, Children, Numbers;
      InRank(d);
      assert Listed(d);
      ViewReads(d);
      DirectoryReadsBack(d, reader, tail);
      ListingLookup(d, View(d.entries), reader, name, tail');
      AllTyped(d);
      FirstNamedFound(d.entries, name);
    }

    /** What is not a directory has no entries on disk either. */
    lemma NotADirectory(n: Inode, reader: Codec, name: bytes, tail: bytes, dirs: bytes)
      requires Stored() && n in order && !n.kind.Directory? && Legible(reader)
      ensures n.entries == [] && FindEntry(reader, InodeTableBytes() + tail, dirs, n.at, name) == None
    {
      hide InodeTableBytes, Legible, Recorded, Listed, Children, Streams, HeaderOf, WordBytes, Described, PeekPoints;
      assert Shaped(n.kind, n.entries, |chunks|);
      InodeStreams(n, reader, tail);
      var x := n.InodeBytes(rootParent, chunks);
      if n.kind.Regular? { RegularStarts(n.attr, n.number, n.nlink, n.kind.file.sparseSize, Described(n.kind.file, chunks)); }
      PeekIs(reader, InodeTableBytes() + tail, n.at, x, 0, 2);
    }

    /** Every directory has names a reader can use, and its listing and index have room. */
    ghost predicate Readable()
      reads this`order, rank.Keys
    {
      Numbers() && forall d :: d in order && d in rank && d.kind.Directory? ==> UsableNames(d.entries) && Roomy(d)
    }

    /** The inode a path leads to, from entry to entry. */
    ghost function Reach(n: Inode, path: seq<bytes>): (m: Option<Inode>)
      requires Graph() && n in rank
      reads rank.Keys
      ensures m.Some? ==> m.value in rank
      decreases |path|
    {
      if path == [] then Some(n)
      else if FirstNamed(n.entries, path[0]).None? then None
      else Reach(FirstNamed(n.entries, path[0]).value, path[1..])
    }

    /** End to end: from the position of any inode, a path leads a reader of the two tables where it leads in the
        tree, and nowhere exactly if it leads nowhere there. */
    lemma {:induction false} PathReadsBack(n: Inode, reader: Codec, path: seq<bytes>, tail: bytes, tail': bytes)
      requires Stored() && n in order && Legible(reader) && Readable()
      ensures n in rank
      ensures var m := Reach(n, path);
              && Follow(reader, InodeTableBytes() + tail, DirTableBytes() + tail', n.at, path) == (if m.Some? then Some(m.value.at) else None)
              && (m.Some? ==> m.value in order)
      decreases |path|
    {
      hide Stored, Legible, Readable, InodeTableBytes, DirTableBytes, FindEntry, FirstNamed;
      InRank(n);
      if path != [] {
        PathBegins(n, reader, path[0], tail, tail');
        var m := FirstNamed(n.entries, path[0]);
        if m.Some? { PathReadsBack(m.value, reader, path[1..], tail, tail'); }
      }
    }

    lemma InRank(n: Inode)
      requires Stored() && n in order
      ensures n in rank && Graph()
    {
    }

    /** The first step of a path. */
    lemma PathBegins(n: Inode, reader: Codec, name: bytes, tail: bytes, tail': bytes)
      requires Stored() && n in order && Legible(reader) && Readable()
      ensures var m := FirstNamed(n.entries, name);
              && FindEntry(reader, InodeTableBytes() + tail, DirTableBytes() + tail', n.at, name) == EntryFor(name, m)
              && (m.Some? ==> m.value in order)
    {
      hide Stored, Legible, InodeTableBytes, DirTableBytes, FindEntry;
      InRank(n);
      if n.kind.Directory? {
        LookupReadsBack(n, reader, name, tail, tail');
        if FirstNamed(n.entries, name).Some? {
          var i :| 0 <= i < |n.entries| && n.entries[i].name == name && n.entries[i].inode == FirstNamed(n.entries, name).value;
          NoPlaceholders(n, i);
        }
      } else {
        NotADirectory(n, reader, name, tail, DirTableBytes() + tail');
      }
    }
    static lemma EmptyLookup(reader: Codec, table: bytes, list: seq<DirEntry>, index: seq<nat>, name: bytes, v: seq<Entry>)
      requires v == [] && list == [] && index == Indexed(v)
      ensures index == []
      ensures |Listing(v)| == 0 && Find(v, name) == None
      ensures IndexedLookup(reader, table, Position(0, 0), 0, PointsOf(list, index), name) == None
    {
    }
  }

  lemma SamePoint(writer: Option<Codec>, prior: seq<bytes>, v: seq<Entry>, list: seq<DirEntry>, h: nat)
    requires h < |v| == |list| && v[h].name == list[h].name
    requires OffsetsOf(list, Pieces(v)) && PlacesUpTo(list, |v|, writer, prior, Pieces(v))
    ensures PointAt(writer, prior, v, h) == IndexPoint(list[h].offset, list[h].place.block, list[h].name)
  {
    hide AppendAll, PositionOf, Pieces;
  }

  /** The index points an inode stores are those the search theorem speaks of. */
  lemma {:induction false} SamePoints(writer: Option<Codec>, prior: seq<bytes>, v: seq<Entry>, list: seq<DirEntry>, index: seq<nat>)
    requires |list| == |v| && forall i :: 0 <= i < |v| ==> v[i].name == list[i].name
    requires OffsetsOf(list, Pieces(v)) && PlacesUpTo(list, |v|, writer, prior, Pieces(v))
    requires forall i :: 0 <= i < |index| ==> index[i] < |v|
    ensures PointsOf(list, index) == Points(writer, prior, v, index)
  {
    hide AppendAll, PositionOf, Pieces, OffsetsOf, PlacesUpTo, PointAt, Points, PointsOf;
    if index == [] {
      NoPoints(writer, prior, v);
      PointsOfNone(list);
    } else {
      PointsOfLast(list, index);
      SamePoint(writer, prior, v, list, Last(index));
      SamePoints(writer, prior, v, list, Front(index));
      PointsSnoc(writer, prior, v, Front(index), Last(index));
      assert Front(index) + [Last(index)] == index;
    }
  }

  lemma PointsOfNone(list: seq<DirEntry>)
    ensures PointsOf(list, []) == []
  {
  }

  lemma PointsOfLast(list: seq<DirEntry>, index: seq<nat>)
    requires index != [] && forall i :: 0 <= i < |index| ==> index[i] < |list|
    ensures var e := list[Last(index)];
            PointsOf(list, index) == PointsOf(list, Front(index)) + [IndexPoint(e.offset, e.place.block, e.name)]
  {
  }

  lemma NoPoints(writer: Option<Codec>, prior: seq<bytes>, v: seq<Entry>)
    ensures Points(writer, prior, v, []) == []
  {
  }

  lemma {:induction false} PointsSnoc(writer: Option<Codec>, prior: seq<bytes>, v: seq<Entry>, index: seq<nat>, h: nat)
    requires h < |v| && forall i :: 0 <= i < |index| ==> index[i] < |v|
    ensures Points(writer, prior, v, index + [h]) == Points(writer, prior, v, index) + [PointAt(writer, prior, v, h)]
  {
    hide PointAt;
    if index != [] {
      assert (index + [h])[1..] == index[1..] + [h];
      PointsSnoc(writer, prior, v, index[1..], h);
    } else {
      assert [h][1..] == [] && [] + [h] == [h];
    }
  }
}
