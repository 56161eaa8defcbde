/** The fragment table: where each fragment block lies in the image. */
module FragmentTables {
  import opened Bytes
  import opened Codecs
  import opened Images
  import opened MetaTables
  import opened IndexedTables
  import opened Pipeline

  /** Set in a stored size when the block is not compressed. */
  const UNCOMPRESSED_BLOCK: nat := 0x100_0000
  const RECORD_SIZE: nat := 16

  /** A size with the flag set, whatever it was before. */
  function Flagged(size: nat): nat {
    if size / UNCOMPRESSED_BLOCK % 2 == 1 then size else size + UNCOMPRESSED_BLOCK
  }

  function StoredSize(size: nat, compressed: bool): nat {
    if compressed then size else Flagged(size)
  }

  lemma StoredSizeDecodes(size: nat, compressed: bool)
    requires size < UNCOMPRESSED_BLOCK
    ensures StoredSize(size, compressed) < U32
    ensures StoredSize(size, compressed) % UNCOMPRESSED_BLOCK == size
    ensures StoredSize(size, compressed) / UNCOMPRESSED_BLOCK % 2 == 0 <==> compressed
  {
  }

  function FragmentRecord(b: ImageBlock): (r: bytes)
    ensures |r| == RECORD_SIZE
  {
    Le64(b.offset) + Le32(StoredSize(b.size, b.compressed)) + Le32(0)
  }

  function Records(frags: seq<ImageBlock>): (r: seq<bytes>)
    ensures |r| == |frags| && forall k :: 0 <= k < |r| ==> |r[k]| == RECORD_SIZE && r[k] == FragmentRecord(frags[k])
  {
    if frags == [] then [] else Records(Front(frags)) + [FragmentRecord(Last(frags))]
  }

  /** What a reader learns of a fragment block. */
  datatype FragmentPlace = FragmentPlace(start: nat, size: nat, compressed: bool)

  function DecodeRecord(r: bytes): Option<FragmentPlace> {
    if |r| != 16 then None
    else
      var word := Un32(r[8..12]);
      Some(FragmentPlace(Un64(r[0..8]), word % 0x100_0000, word / 0x100_0000 % 2 == 0))
  }

  /** A block that has been written: it has its place, and a size that leaves room for the flag. */
  ghost predicate InImage(b: ImageBlock) {
    0 <= b.offset < U64 && b.size < UNCOMPRESSED_BLOCK
  }

  lemma RecordDecodes(b: ImageBlock)
    requires InImage(b)
    ensures DecodeRecord(FragmentRecord(b)) == Some(FragmentPlace(b.offset, b.size, b.compressed))
  {
    hide Un32, Un64, Le32, Le64, StoredSize;
    var size := StoredSize(b.size, b.compressed);
    StoredSizeDecodes(b.size, b.compressed);
    Le64Back(b.offset);
    Le32Reads(size);
    SmallStays(size);
    ThreeParts(Le64(b.offset), Le32(size), Le32(0));
  }

  lemma ThreeParts(a: bytes, b: bytes, c: bytes)
    requires |a| == 8 && |b| == |c| == 4
    ensures (a + b + c)[0..8] == a && (a + b + c)[8..12] == b
  {
  }

  /** Writes the fragment table; without fragment blocks there is none, and its place is the end of the image. */
  method WriteFragmentTable(frags: seq<ImageBlock>, codec: Codec, image: Image) returns (index: nat)
    requires image.Valid() && |TableBytes(Some(codec), BlocksOf([Flatten(Records(frags))]))| < U32
    modifies image
    ensures image.Valid() && old(image.size) <= index <= image.size && Keeps(old(image.file), image.file, 0)
    ensures CoversOnce(image.log, old(image.log), old(image.size), image.size)
    ensures frags == [] ==> index == old(image.size) == image.size && image.file == old(image.file)
    ensures frags != [] ==> index == old(image.size) + |TableBytes(Some(codec), BlocksOf([Flatten(Records(frags))]))|
    ensures frags != [] && old(image.size) + |TableBytes(Some(codec), BlocksOf([Flatten(Records(frags))]))| < U64 ==>
              Written(Some(codec), image.file, old(image.size), BlocksOf([Flatten(Records(frags))]), index)
  {
    hide Flatten, TableBytes, Written, BlocksOf, CoversOnce;
    if frags == [] {
      index := image.Reserve(0);
      CoversNothing(image.log, image.size);
    } else {
      var data := RecordsOf(frags);
      index := WriteTable(Some(codec), data, image);
    }
  }

  /** The bytes of the table. */
  method RecordsOf(frags: seq<ImageBlock>) returns (data: bytes)
    ensures data == Flatten(Records(frags)) && |data| == |frags| * RECORD_SIZE
  {
    hide Flatten, FragmentRecord;
    var n := 0;
    data := [];
    FlattenNil();
    ghost var records := [];
    while n < |frags|
      invariant n <= |frags| && data == Flatten(records) && |records| == n
      invariant forall k :: 0 <= k < n ==> records[k] == FragmentRecord(frags[k])
    {
      FlattenSnoc(records, FragmentRecord(frags[n]));
      data, records := data + FragmentRecord(frags[n]), records + [FragmentRecord(frags[n])];
      n := n + 1;
    }
    assert records == Records(frags);
    EntriesLength(records, RECORD_SIZE);
  }

  /** A fragment block is found by its number. */
  function FindFragment(reader: Codec, file: bytes, index: nat, k: nat): Option<FragmentPlace> {
    match ReadEntry(reader, file, index, 16, k)
    case None => None
    case Some(r) => DecodeRecord(r)
  }

  /** Looking up fragment block `k` in the written table gives its place in the image. */
  lemma FragmentReadsBack(codec: Codec, file: bytes, start: nat, index: nat, frags: seq<ImageBlock>, k: nat)
    requires codec.Lawful() && k < |frags| && InImage(frags[k])
    requires Written(Some(codec), file, start, BlocksOf([Flatten(Records(frags))]), index)
    ensures FindFragment(codec, file, index, k) == Some(FragmentPlace(frags[k].offset, frags[k].size, frags[k].compressed))
  {
    hide Flatten, Written, BlocksOf, ReadEntry, DecodeRecord, FragmentRecord;
    FlattenOne(Flatten(Records(frags)));
    EntriesReadBack(Some(codec), codec, file, start, [Flatten(Records(frags))], index, Records(frags), RECORD_SIZE, k);
    RecordDecodes(frags[k]);
  }
}
