/** The export table: where in the inode table each inode lies, by number. */
module ExportTables {
  import opened Bytes
  import opened Codecs
  import opened Images
  import opened MetaTables
  import opened IndexedTables
  import opened InodeHeaders
  import opened Directories

  /** A position in one word, as NFS exports and the superblock refer to inodes. */
  function EncodedInode(at: Position): nat {
    if at.offset < U16 then at.block * U16 + at.offset else 0xffff_ffff_ffff
  }

  function DecodedInode(v: nat): Position {
    Position(v / 0x1_0000, v % 0x1_0000)
  }

  lemma InodeDecodes(at: Position)
    requires at.offset < U16
    ensures DecodedInode(EncodedInode(at)) == at
  {
  }

  /** The inodes of an image in the order of their creation: numbers count from one. */
  ghost predicate Numbered(inodes: seq<Inode>) {
    forall i :: 0 <= i < |inodes| ==> inodes[i].number == i + 1
  }

  /** Creates an inode: it gets the next number. */
  method Register(inodes: seq<Inode>, kind: InodeKind, attr: Attr) returns (more: seq<Inode>)
    requires Numbered(inodes)
    ensures Numbered(more) && |more| == |inodes| + 1 && more[..|inodes|] == inodes && fresh(more[|inodes|])
    ensures more[|inodes|].kind == kind && more[|inodes|].attr == attr && more[|inodes|].encodedType == 0 && more[|inodes|].entries == []
  {
    var n := new Inode(kind, |inodes| + 1, attr);
    more := inodes + [n];
  }

  /** The words of the table. */
  function Words(inodes: seq<Inode>): (words: seq<bytes>)
    reads inodes
    ensures |words| == |inodes| && forall k :: 0 <= k < |words| ==> |words[k]| == 8 && words[k] == Le64(EncodedInode(inodes[k].at))
  {
    if inodes == [] then [] else Words(inodes[..|inodes| - 1]) + [Le64(EncodedInode(inodes[|inodes| - 1].at))]
  }

  /** The map from numbers to positions, filled in the order of the inode list. */
  method FillMap(inodes: seq<Inode>) returns (inodeMap: array<nat>)
    requires Numbered(inodes)
    ensures fresh(inodeMap) && inodeMap.Length == |inodes|
    ensures forall k :: 0 <= k < |inodes| ==> inodeMap[k] == EncodedInode(inodes[k].at)
  {
    inodeMap := new nat[|inodes|](i => 0);
    var n := 0;
    while n < |inodes|
      invariant 0 <= n <= |inodes|
      invariant forall k :: 0 <= k < n ==> inodeMap[k] == EncodedInode(inodes[k].at)
    {
      inodeMap[inodes[n].number - 1] := EncodedInode(inodes[n].at);
      n := n + 1;
    }
  }

  /** The bytes of an array of words. */
  method WordsOf(a: array<nat>) returns (data: bytes, ghost words: seq<bytes>)
    ensures data == Flatten(words) && |words| == a.Length && forall k :: 0 <= k < a.Length ==> words[k] == Le64(a[k])
  {
    hide Le64;
    data, words := [], [];
    FlattenNil();
    var n := 0;
    while n < a.Length
      invariant n <= a.Length && data == Flatten(words) && |words| == n
      invariant forall k :: 0 <= k < n ==> words[k] == Le64(a[k])
    {
      FlattenSnoc(words, Le64(a[n]));
      data, words := data + Le64(a[n]), words + [Le64(a[n])];
      n := n + 1;
    }
  }

  /** Writes the table, uncompressed. */
  method WriteExportTable(inodes: seq<Inode>, image: Image) returns (index: nat)
    requires Numbered(inodes) && image.Valid()
    requires |TableBytes(None, BlocksOf([Flatten(Words(inodes))]))| < U32
    modifies image
    ensures image.Valid() && old(image.size) <= index <= image.size && Keeps(old(image.file), image.file, 0)
    ensures index == old(image.size) + |TableBytes(None, BlocksOf([Flatten(Words(inodes))]))|
    ensures old(image.size) + |TableBytes(None, BlocksOf([Flatten(Words(inodes))]))| < U64 ==>
              Written(None, image.file, old(image.size), BlocksOf([Flatten(Words(inodes))]), index)
    ensures CoversOnce(image.log, old(image.log), old(image.size), image.size)
  {
    hide Flatten, TableBytes, Written, CoversOnce, BlocksOf, EncodedInode, Le64;
    var inodeMap := FillMap(inodes);
    var data: bytes;
    ghost var words;
    data, words := WordsOf(inodeMap);
    assert words == Words(inodes);
    EntriesLength(words, 8);
    index := WriteTable(None, data, image);
  }

  /** Looking up an inode number in the written table gives the position of that inode. */
  lemma ExportReadsBack(reader: Codec, file: bytes, start: nat, index: nat, inodes: seq<Inode>, n: Inode)
    requires Numbered(inodes) && n in inodes && reader.Lawful() && n.at.offset < U16 && n.at.block < U32
    requires Written(None, file, start, BlocksOf([Flatten(Words(inodes))]), index)
    ensures n.number > 0
    ensures var word := ReadEntry(reader, file, index, 8, n.number - 1);
            word.Some? && |word.value| == 8 && DecodedInode(Un64(word.value)) == n.at
  {
    hide Flatten, Written, BlocksOf, ReadEntry, Un64, Le64;
    var i :| 0 <= i < |inodes| && inodes[i] == n;
    FlattenOne(Flatten(Words(inodes)));
    EntriesReadBack(None, reader, file, start, [Flatten(Words(inodes))], index, Words(inodes), 8, i);
    WordFits(n.at);
    Le64Back(EncodedInode(n.at));
    InodeDecodes(n.at);
  }

  lemma WordFits(at: Position)
    requires at.offset < U16 && at.block < U32
    ensures EncodedInode(at) < U64
  {
  }
}
