/** Inodes as they lie in the inode table: headers of directories and files, and how a reader that knows only
    the position of an inode takes them apart. */
module InodeHeaders {
  import opened Bytes
  import opened Codecs
  import opened MetaTables
  import opened DirectoryListings
  import opened DirectoryIndexes

  const DIR_TYPE: nat := 1
  const FILE_TYPE: nat := 2
  const LDIR_TYPE: nat := 8
  const LREG_TYPE: nat := 9

  /** What an inode is created with; `xattr` is the number of its set of extended attributes. */
  datatype Attr = Attr(mode: nat, uid: nat, gid: nat, mtime: nat, xattr: Option<nat>)

  /** What all types of inode start with. */
  function Prologue(encodedType: nat, a: Attr, number: nat): (h: bytes)
    ensures |h| == 16
  {
    Le16(encodedType) + Le16(a.mode) + Le16(a.uid) + Le16(a.gid) + Le32(a.mtime) + Le32(number)
  }

  function XattrField(a: Attr): (h: bytes)
    ensures |h| == 4
  {
    Le32(if a.xattr.Some? then a.xattr.value else -1)
  }

  lemma PrologueType(encodedType: nat, a: Attr, number: nat)
    requires encodedType < U16
    ensures Un16(Prologue(encodedType, a, number)[..2]) == encodedType
  {
    hide Le16, Le32, Un16;
    SmallBack(encodedType);
    assert Prologue(encodedType, a, number)[..2] == Le16(encodedType);
  }

  // ---------------------------------------------------------------- reading at a position

  /** Bytes of a table, seen from a position in it: `count` of them, after `skip`. */
  function Peek(reader: Codec, table: bytes, at: Position, skip: nat, count: nat): Option<bytes> {
    match ReadAt(reader, table, at, skip + count)
    case None => None
    case Some(b) => if |b| < skip then None else Some(b[skip..])
  }

  /** From a position, a table reads as `x`, at least as far as `x` goes. */
  ghost predicate Streams(reader: Codec, table: bytes, at: Position, x: bytes) {
    forall n: nat :: n <= |x| ==> ReadAt(reader, table, at, n) == Some(x[..n])
  }

  lemma PeekIs(reader: Codec, table: bytes, at: Position, x: bytes, skip: nat, count: nat)
    requires Streams(reader, table, at, x) && skip + count <= |x|
    ensures Peek(reader, table, at, skip, count) == Some(x[skip..skip + count])
  {
    hide ReadAt;
    assert x[..skip + count][skip..] == x[skip..skip + count];
  }

  lemma StreamsPrefix(reader: Codec, table: bytes, at: Position, x: bytes, y: bytes)
    requires Streams(reader, table, at, x) && y <= x
    ensures Streams(reader, table, at, y)
  {
    hide ReadAt;
    forall n: nat | n <= |y|
      ensures ReadAt(reader, table, at, n) == Some(y[..n])
    {
      assert y[..n] == x[..n];
    }
  }

  /** What was appended to a table from chunk `k` on is what reads at the position handed out for it. */
  lemma AppendedStreams(writer: Option<Codec>, reader: Codec, chunks: seq<bytes>, k: nat, tail: bytes)
    requires Uses(writer, reader) && k <= |chunks| && |TableBytes(writer, BlocksOf(chunks))| < U32
    ensures Streams(reader, TableBytes(writer, BlocksOf(chunks)) + tail, PositionOf(writer, AppendAll(chunks[..k])), Flatten(chunks[k..]))
  {
    hide ReadAt, TableBytes, AppendAll, Close, PositionOf, Flatten, Uses;
    forall n: nat | n <= |Flatten(chunks[k..])|
      ensures ReadAt(reader, TableBytes(writer, BlocksOf(chunks)) + tail, PositionOf(writer, AppendAll(chunks[..k])), n) == Some(Flatten(chunks[k..])[..n])
    {
      AppendedReadsBack(writer, reader, chunks, k, n, tail);
    }
  }

  // ---------------------------------------------------------------- attributes

  /** What an inode says of itself besides its contents: 1 for a directory and 2 for a regular file, whether it
      has the larger type, attributes, number, links, extended attributes if any; of a directory the number
      of its parent. */
  datatype InodeInfo = InodeInfo(kind: nat, large: bool, mode: nat, uid: nat, gid: nat, mtime: nat, number: nat, nlink: nat,
                                 xattr: Option<nat>, parent: Option<nat>, sparse: nat)

  /** All ones stand for no extended attributes. */
  function ReadXattr(v: nat): Option<nat> {
    if v == 0xffff_ffff then None else Some(v)
  }

  function Basic(h: bytes, kind: nat, large: bool, nlink: nat, xattr: Option<nat>, parent: Option<nat>, sparse: nat): InodeInfo
    requires |h| >= 16
  {
    InodeInfo(kind, large, Un16(h[2..4]), Un16(h[4..6]), Un16(h[6..8]), Un32(h[8..12]), Un32(h[12..16]), nlink, xattr, parent, sparse)
  }

  /** The header of a directory or a regular file; in the smaller type a file has one link. */
  function DecodeInfo(h: bytes): Option<InodeInfo> {
    if |h| == 32 && Un16(h[0..2]) == 1 then Some(Basic(h, 1, false, Un32(h[20..24]), None, Some(Un32(h[28..32])), 0))
    else if |h| == 32 && Un16(h[0..2]) == 2 then Some(Basic(h, 2, false, 1, None, None, 0))
    else if |h| == 40 && Un16(h[0..2]) == 8 then
      Some(Basic(h, 1, true, Un32(h[16..20]), ReadXattr(Un32(h[36..40])), Some(Un32(h[28..32])), 0))
    else if |h| == 56 && Un16(h[0..2]) == 9 then
      Some(Basic(h, 2, true, Un32(h[40..44]), ReadXattr(Un32(h[52..56])), None, Un64(h[32..40])))
    else None
  }

  /** Reads what the inode at a position says of itself. */
  function ReadInfo(reader: Codec, table: bytes, at: Position): Option<InodeInfo> {
    match Peek(reader, table, at, 0, 2)
    case None => None
    case Some(t) =>
      if |t| != 2 then None
      else
        var size := if Un16(t) == 8 then 40 else if Un16(t) == 9 then 56 else 32;
        match Peek(reader, table, at, 0, size)
        case None => None
        case Some(h) => DecodeInfo(h)
  }

  /** The attributes fit the fields there are for them. */
  ghost predicate GoodAttr(a: Attr, number: nat) {
    a.mode < U16 && a.uid < U16 && a.gid < U16 && a.mtime < U32 && number < U32 && (a.xattr.Some? ==> a.xattr.value < U32 - 1)
  }

  lemma PrologueFields(t: bytes, mode: bytes, uid: bytes, gid: bytes, mtime: bytes, number: bytes, rest: bytes)
    requires |t| == |mode| == |uid| == |gid| == 2 && |mtime| == |number| == 4
    ensures var h := t + mode + uid + gid + mtime + number + rest;
            && h[0..2] == t && h[2..4] == mode && h[4..6] == uid && h[6..8] == gid && h[8..12] == mtime && h[12..16] == number
  {
  }

  /** What all headers start with is read as it was meant. */
  lemma PrologueReads(encodedType: nat, a: Attr, number: nat, rest: bytes, kind: nat, large: bool, nlink: nat, xattr: Option<nat>, parent: Option<nat>, sparse: nat)
    requires encodedType < U16
    ensures var h := Prologue(encodedType, a, number) + rest;
            && Un16(h[0..2]) == encodedType
            && Basic(h, kind, large, nlink, xattr, parent, sparse)
            == InodeInfo(kind, large, a.mode % U16, a.uid % U16, a.gid % U16, a.mtime % U32, number % U32, nlink, xattr, parent, sparse)
  {
    hide Le16, Le32, Un16, Un32;
    PrologueFields(Le16(encodedType), Le16(a.mode), Le16(a.uid), Le16(a.gid), Le32(a.mtime), Le32(number), rest);
    SmallBack(encodedType);
    Le16Reads(a.mode);
    Le16Reads(a.uid);
    Le16Reads(a.gid);
    Le32Reads(a.mtime);
    Le32Reads(number);
  }

  lemma XattrReads(a: Attr)
    ensures ReadXattr(Un32(XattrField(a))) == a.xattr <==> (a.xattr.Some? ==> a.xattr.value < U32 - 1)
  {
    hide Le32, Un32;
    Le32Reads(if a.xattr.Some? then a.xattr.value else -1);
  }

  /** Cutting a number down to its field changes it exactly if it does not fit. */
  lemma AttrBounds(a: Attr, number: nat)
    ensures (a.mode % U16 == a.mode <==> a.mode < U16) && (a.uid % U16 == a.uid <==> a.uid < U16) && (a.gid % U16 == a.gid <==> a.gid < U16)
    ensures (a.mtime % U32 == a.mtime <==> a.mtime < U32) && (number % U32 == number <==> number < U32)
  {
  }

  // ---------------------------------------------------------------- directory inodes

  function DirHeader(a: Attr, number: nat, start: Position, nlink: nat, size: nat, parent: nat): (h: bytes)
    ensures |h| == 32
  {
    Prologue(DIR_TYPE, a, number) + Le32(start.block) + Le32(nlink) + Le16(size + 3) + Le16(start.offset) + Le32(parent)
  }

  function LdirHeader(a: Attr, number: nat, start: Position, nlink: nat, size: nat, parent: nat, points: nat): (h: bytes)
    ensures |h| == 40
  {
    Prologue(LDIR_TYPE, a, number) + Le32(nlink) + Le32(size + 3) + Le32(start.block) + Le32(parent) + Le16(points) + Le16(start.offset) + XattrField(a)
  }

  /** An index point as stored behind the header of a directory inode. */
  function PointBytes(p: IndexPoint): (b: bytes)
    ensures |b| == 12 + |p.name|
  {
    Le32(p.offset) + Le32(p.block) + Le32(|p.name| - 1) + p.name
  }

  function PointsBytes(points: seq<IndexPoint>): bytes {
    if points == [] then [] else PointBytes(points[0]) + PointsBytes(points[1..])
  }

  /** What a reader learns from the inode of a directory. */
  datatype DirInode = DirInode(start: Position, size: nat, points: seq<IndexPoint>)

  /** Reads `count` index points that start `skip` bytes behind a position. */
  function PeekPoints(reader: Codec, table: bytes, at: Position, skip: nat, count: nat): Option<seq<IndexPoint>>
    decreases count
  {
    if count == 0 then Some([])
    else
      match Peek(reader, table, at, skip, 12)
      case None => None
      case Some(f) =>
        if |f| != 12 then None
        else
          var length := Un32(f[8..12]) + 1;
          match Peek(reader, table, at, skip + 12, length)
          case None => None
          case Some(name) =>
            match PeekPoints(reader, table, at, skip + 12 + length, count - 1)
            case None => None
            case Some(more) => Some([IndexPoint(Un32(f[0..4]), Un32(f[4..8]), name)] + more)
  }

  /** The header of the smaller type. */
  function ReadDirHeader(h: bytes): Option<DirInode> {
    if |h| != 32 || Un16(h[24..26]) < 3 then None
    else Some(DirInode(Position(Un32(h[16..20]), Un16(h[26..28])), Un16(h[24..26]) - 3, []))
  }

  /** The header of the larger type, and how many index points follow it. */
  function ReadLdirHeader(h: bytes): Option<(DirInode, nat)> {
    if |h| != 40 || Un32(h[20..24]) < 3 then None
    else Some((DirInode(Position(Un32(h[24..28]), Un16(h[34..36])), Un32(h[20..24]) - 3, []), Un16(h[32..34])))
  }

  /** Reads the inode of a directory at its position. */
  function ReadDirInode(reader: Codec, table: bytes, at: Position): Option<DirInode> {
    match Peek(reader, table, at, 0, 2)
    case None => None
    case Some(t) =>
      if |t| != 2 then None
      else if Un16(t) == 1 then
        (match Peek(reader, table, at, 0, 32)
         case None => None
         case Some(h) => ReadDirHeader(h))
      else if Un16(t) == 8 then ReadLdirInode(reader, table, at)
      else None
  }

  function ReadLdirInode(reader: Codec, table: bytes, at: Position): Option<DirInode> {
    match Peek(reader, table, at, 0, 40)
    case None => None
    case Some(h) =>
      match ReadLdirHeader(h)
      case None => None
      case Some((d, count)) =>
        match PeekPoints(reader, table, at, 40, count)
        case None => None
        case Some(points) => Some(d.(points := points))
  }

  ghost predicate GoodPoint(p: IndexPoint) {
    p.offset < U32 && p.block < U32 && 0 < |p.name| <= U32
  }

  lemma PointFields(p: IndexPoint)
    requires GoodPoint(p)
    ensures var b := PointBytes(p);
            && Un32(b[0..4]) == p.offset && Un32(b[4..8]) == p.block && Un32(b[8..12]) + 1 == |p.name| && b[12..] == p.name
  {
    hide Le32, Un32;
    WordBack(p.offset);
    WordBack(p.block);
    WordBack(|p.name| - 1);
    ThreeFields(Le32(p.offset), Le32(p.block), Le32(|p.name| - 1), p.name);
  }

  /** The index behind a header reads back point by point. */
  lemma {:induction false} PointsRead(reader: Codec, table: bytes, at: Position, x: bytes, skip: nat, points: seq<IndexPoint>)
    requires Streams(reader, table, at, x) && skip <= |x| && PointsBytes(points) <= x[skip..]
    requires forall i :: 0 <= i < |points| ==> GoodPoint(points[i])
    ensures PeekPoints(reader, table, at, skip, |points|) == Some(points)
    decreases |points|
  {
    hide Streams, Peek, PointBytes, Un32;
    if points != [] {
      var b, length := PointBytes(points[0]), |points[0].name|;
      PointsDivide(x, skip, points);
      PeekIs(reader, table, at, x, skip, 12);
      PeekIs(reader, table, at, x, skip + 12, length);
      PointFields(points[0]);
      PointsRead(reader, table, at, x, skip + 12 + length, points[1..]);
      assert [points[0]] + points[1..] == points;
    }
  }

  lemma PointsDivide(x: bytes, skip: nat, points: seq<IndexPoint>)
    requires skip <= |x| && points != [] && PointsBytes(points) <= x[skip..]
    ensures var b, length := PointBytes(points[0]), |points[0].name|;
            && skip + 12 + length <= |x| && x[skip..skip + 12] == b[..12] && x[skip + 12..skip + 12 + length] == b[12..]
            && PointsBytes(points[1..]) <= x[skip + 12 + length..]
            && b[..12][0..4] == b[0..4] && b[..12][4..8] == b[4..8] && b[..12][8..12] == b[8..12]
  {
    hide PointBytes;
    var b, rest := PointBytes(points[0]), PointsBytes(points[1..]);
    assert b + rest <= x[skip..];
    assert x[skip..][..|b|] == b && x[skip..][|b|..|b| + |rest|] == rest;
  }

  lemma DirFields(p: bytes, block: bytes, nlink: bytes, size: bytes, offset: bytes, parent: bytes)
    requires |p| == 16 && |block| == |nlink| == |parent| == 4 && |size| == |offset| == 2
    ensures var h := p + block + nlink + size + offset + parent;
            h[16..20] == block && h[24..26] == size && h[26..28] == offset && h[..2] == p[..2]
  {
  }

  lemma LdirFields(p: bytes, nlink: bytes, size: bytes, block: bytes, parent: bytes, points: bytes, offset: bytes, xattr: bytes)
    requires |p| == 16 && |nlink| == |size| == |block| == |parent| == |xattr| == 4 && |points| == |offset| == 2
    ensures var h := p + nlink + size + block + parent + points + offset + xattr;
            h[20..24] == size && h[24..28] == block && h[32..34] == points && h[34..36] == offset && h[..2] == p[..2]
  {
  }

  /** The place a listing starts at fits its fields. */
  ghost predicate GoodStart(start: Position) {
    start.block < U32 && start.offset < U16
  }

  lemma DirHeaderReads(a: Attr, number: nat, start: Position, nlink: nat, size: nat, parent: nat)
    requires GoodStart(start)
    ensures var h := DirHeader(a, number, start, nlink, size, parent);
            && Un16(h[..2]) == DIR_TYPE
            && ReadDirHeader(h) == if (size + 3) % U16 < 3 then None else Some(DirInode(start, (size + 3) % U16 - 3, []))
  {
    hide Le16, Le32, Un16, Un32, Prologue;
    DirFields(Prologue(DIR_TYPE, a, number), Le32(start.block), Le32(nlink), Le16(size + 3), Le16(start.offset), Le32(parent));
    PrologueType(DIR_TYPE, a, number);
    WordBack(start.block);
    SmallBack(start.offset);
    Le16Reads(size + 3);
  }

  lemma LdirHeaderReads(a: Attr, number: nat, start: Position, nlink: nat, size: nat, parent: nat, points: nat)
    requires GoodStart(start)
    ensures var h := LdirHeader(a, number, start, nlink, size, parent, points);
            && Un16(h[..2]) == LDIR_TYPE
            && ReadLdirHeader(h) == if (size + 3) % U32 < 3 then None else Some((DirInode(start, (size + 3) % U32 - 3, []), points % U16))
  {
    hide Le16, Le32, Un16, Un32, Prologue, XattrField;
    LdirFields(Prologue(LDIR_TYPE, a, number), Le32(nlink), Le32(size + 3), Le32(start.block), Le32(parent), Le16(points), Le16(start.offset), XattrField(a));
    PrologueType(LDIR_TYPE, a, number);
    WordBack(start.block);
    SmallBack(start.offset);
    Le32Reads(size + 3);
    Le16Reads(points);
  }

  /** The inode of a directory in bytes: the larger type has room for an index. */
  function DirInodeBytes(large: bool, a: Attr, number: nat, nlink: nat, parent: nat, d: DirInode): bytes {
    if large then LdirHeader(a, number, d.start, nlink, d.size, parent, |d.points|) + PointsBytes(d.points)
    else DirHeader(a, number, d.start, nlink, d.size, parent)
  }

  lemma FirstBytes(x: bytes, h: bytes, rest: bytes)
    requires h + rest <= x
    ensures |h| <= |x| && x[0..|h|] == h && rest <= x[|h|..]
    ensures |h| >= 2 ==> x[0..2] == h[..2]
  {
    assert x[..|h + rest|] == h + rest;
    assert x[0..|h|] == (h + rest)[..|h|];
  }

  lemma FieldBounds(v: nat)
    ensures (v + 3) % U16 >= 3 && (v + 3) % U16 - 3 == v <==> v + 3 < U16
    ensures (v + 3) % U32 >= 3 && (v + 3) % U32 - 3 == v <==> v + 3 < U32
    ensures v % U16 == v <==> v < U16
  {
  }

  /** The inode of a directory reads back at its position exactly if its fields are wide enough: the smaller
      type for a listing of up to 65532 bytes and no index, the larger for one of less than 4 GiB and for
      at most 65535 index points. */
  lemma DirInodeReadsBack(reader: Codec, table: bytes, at: Position, x: bytes, large: bool, a: Attr, number: nat, nlink: nat, parent: nat, d: DirInode)
    requires Streams(reader, table, at, x) && DirInodeBytes(large, a, number, nlink, parent, d) <= x
    requires GoodStart(d.start) && (d.size < U32 ==> forall i :: 0 <= i < |d.points| ==> GoodPoint(d.points[i]))
    ensures ReadDirInode(reader, table, at) == Some(d)
       <==> if large then d.size + 3 < U32 && |d.points| < U16 else d.size + 3 < U16 && d.points == []
  {
    hide Streams, Peek, Un16, DirHeader, LdirHeader, ReadDirHeader, ReadLdirHeader, PeekPoints, PointsBytes;
    FieldBounds(d.size);
    if large {
      LargeReads(reader, table, at, x, a, number, nlink, parent, d);
    } else {
      var h := DirHeader(a, number, d.start, nlink, d.size, parent);
      FirstBytes(x, h, []);
      assert h + [] == h;
      DirHeaderReads(a, number, d.start, nlink, d.size, parent);
      PeekIs(reader, table, at, x, 0, 2);
      PeekIs(reader, table, at, x, 0, 32);
    }
  }

  lemma LargeReads(reader: Codec, table: bytes, at: Position, x: bytes, a: Attr, number: nat, nlink: nat, parent: nat, d: DirInode)
    requires Streams(reader, table, at, x) && DirInodeBytes(true, a, number, nlink, parent, d) <= x
    requires GoodStart(d.start) && (d.size < U32 ==> forall i :: 0 <= i < |d.points| ==> GoodPoint(d.points[i]))
    ensures ReadDirInode(reader, table, at) == Some(d) <==> d.size + 3 < U32 && |d.points| < U16
  {
    hide Streams, Peek, Un16, LdirHeader, ReadLdirHeader, PointsBytes, PeekPoints;
    var h := LdirHeader(a, number, d.start, nlink, d.size, parent, |d.points|);
    FirstBytes(x, h, PointsBytes(d.points));
    LdirHeaderReads(a, number, d.start, nlink, d.size, parent, |d.points|);
    PeekIs(reader, table, at, x, 0, 2);
    PeekIs(reader, table, at, x, 0, 40);
    FieldBounds(d.size);
    FieldBounds(|d.points|);
    if d.size < U32 { PointsRead(reader, table, at, x, 40, d.points); }
    PeekCount(reader, table, at, 40, |d.points| % U16);
  }

  /** As many points are read as were asked for. */
  lemma {:induction false} PeekCount(reader: Codec, table: bytes, at: Position, skip: nat, count: nat)
    ensures PeekPoints(reader, table, at, skip, count).Some? ==> |PeekPoints(reader, table, at, skip, count).value| == count
    decreases count
  {
    hide Peek;
    if count > 0 && Peek(reader, table, at, skip, 12).Some? {
      var f := Peek(reader, table, at, skip, 12).value;
      if |f| == 12 { PeekCount(reader, table, at, skip + 12 + (Un32(f[8..12]) + 1), count - 1); }
    }
  }

  /** What the inode of a directory is to say of itself. */
  function DirInfo(large: bool, a: Attr, number: nat, nlink: nat, parent: nat): InodeInfo {
    InodeInfo(1, large, a.mode, a.uid, a.gid, a.mtime, number, nlink, a.xattr, Some(parent), 0)
  }

  lemma SmallDirParts(p: bytes, block: bytes, nlink: bytes, size: bytes, offset: bytes, parent: bytes)
    requires |p| == 16 && |block| == |nlink| == |parent| == 4 && |size| == |offset| == 2
    ensures var h := p + block + nlink + size + offset + parent;
            h[20..24] == nlink && h[28..32] == parent && h == p + (block + nlink + size + offset + parent)
  {
  }

  lemma LargeDirParts(p: bytes, nlink: bytes, size: bytes, block: bytes, parent: bytes, points: bytes, offset: bytes, xattr: bytes)
    requires |p| == 16 && |nlink| == |size| == |block| == |parent| == |xattr| == 4 && |points| == |offset| == 2
    ensures var h := p + nlink + size + block + parent + points + offset + xattr;
            h[16..20] == nlink && h[28..32] == parent && h[36..40] == xattr && h == p + (nlink + size + block + parent + points + offset + xattr)
  {
  }

  lemma SmallDirInfo(a: Attr, number: nat, start: Position, nlink: nat, size: nat, parent: nat)
    requires a.xattr == None
    ensures DecodeInfo(DirHeader(a, number, start, nlink, size, parent)) == Some(DirInfo(false, a, number, nlink, parent))
       <==> GoodAttr(a, number) && nlink < U32 && parent < U32
  {
    hide Le16, Le32, Un16, Un32, Prologue, Basic;
    var p, block, links, bytes, offset, up := Prologue(DIR_TYPE, a, number), Le32(start.block), Le32(nlink), Le16(size + 3), Le16(start.offset), Le32(parent);
    SmallDirParts(p, block, links, bytes, offset, up);
    PrologueReads(DIR_TYPE, a, number, block + links + bytes + offset + up, 1, false, nlink % U32, None, Some(parent % U32), 0);
    Le32Reads(nlink);
    Le32Reads(parent);
    AttrBounds(a, number);
    FieldFits(nlink);
    FieldFits(parent);
  }

  lemma FieldFits(v: nat)
    ensures v % U32 == v <==> v < U32
  {
  }

  lemma LargeDirInfo(a: Attr, number: nat, start: Position, nlink: nat, size: nat, parent: nat, points: nat)
    ensures DecodeInfo(LdirHeader(a, number, start, nlink, size, parent, points)) == Some(DirInfo(true, a, number, nlink, parent))
       <==> GoodAttr(a, number) && nlink < U32 && parent < U32
  {
    hide Le16, Le32, Un16, Un32, Prologue, Basic, XattrField, ReadXattr;
    var p, links, bytes, block, up, count, offset := Prologue(LDIR_TYPE, a, number), Le32(nlink), Le32(size + 3), Le32(start.block), Le32(parent), Le16(points), Le16(start.offset);
    LargeDirParts(p, links, bytes, block, up, count, offset, XattrField(a));
    PrologueReads(LDIR_TYPE, a, number, links + bytes + block + up + count + offset + XattrField(a), 1, true, nlink % U32,
      ReadXattr(Un32(XattrField(a))), Some(parent % U32), 0);
    Le32Reads(nlink);
    Le32Reads(parent);
    XattrReads(a);
    AttrBounds(a, number);
    FieldFits(nlink);
    FieldFits(parent);
  }

  /** At its position the inode of a directory says of itself what it is to say, exactly if all of it fits its
      fields. */
  lemma DirInfoReadsBack(reader: Codec, table: bytes, at: Position, x: bytes, large: bool, a: Attr, number: nat, nlink: nat, parent: nat, d: DirInode)
    requires Streams(reader, table, at, x) && DirInodeBytes(large, a, number, nlink, parent, d) <= x && (large || a.xattr == None)
    ensures ReadInfo(reader, table, at) == Some(DirInfo(large, a, number, nlink, parent)) <==> GoodAttr(a, number) && nlink < U32 && parent < U32
  {
    hide Streams, Peek, Un16, DirHeader, LdirHeader, PointsBytes, DecodeInfo, GoodAttr;
    var h := if large then LdirHeader(a, number, d.start, nlink, d.size, parent, |d.points|) else DirHeader(a, number, d.start, nlink, d.size, parent);
    var rest := if large then PointsBytes(d.points) else [];
    assert !large ==> h + rest == h;
    FirstBytes(x, h, rest);
    if large { LargeDirInfo(a, number, d.start, nlink, d.size, parent, |d.points|); } else { SmallDirInfo(a, number, d.start, nlink, d.size, parent); }
    DirHeaderTypes(a, number, d.start, nlink, d.size, parent, |d.points|);
    PeekIs(reader, table, at, x, 0, 2);
    PeekIs(reader, table, at, x, 0, |h|);
  }

  lemma DirHeaderTypes(a: Attr, number: nat, start: Position, nlink: nat, size: nat, parent: nat, points: nat)
    ensures Un16(DirHeader(a, number, start, nlink, size, parent)[..2]) == 1
    ensures Un16(LdirHeader(a, number, start, nlink, size, parent, points)[..2]) == 8
  {
    hide Un16, Prologue, Le16, Le32, XattrField;
    PrologueType(DIR_TYPE, a, number);
    PrologueType(LDIR_TYPE, a, number);
    DirFields(Prologue(DIR_TYPE, a, number), Le32(start.block), Le32(nlink), Le16(size + 3), Le16(start.offset), Le32(parent));
    LdirFields(Prologue(LDIR_TYPE, a, number), Le32(nlink), Le32(size + 3), Le32(start.block), Le32(parent), Le16(points), Le16(start.offset), XattrField(a));
  }
}
