/** Bytes, little-endian integer fields, and the sequence facts shared by all other modules. */
module Bytes {

  type byte = n: nat | n < 256

  type bytes = seq<byte>

  datatype Option<+T> = None | Some(value: T)

  const U16: nat := 0x1_0000
  const U32: nat := 0x1_0000_0000
  const U64: nat := 0x1_0000_0000_0000_0000

  /** A 16-bit field. Storing into the field keeps the value modulo 2^16. */
  function Le16(v: int): (b: bytes)
    ensures |b| == 2
  {
    [v % 256, v / 256 % 256]
  }

  function Le32(v: int): (b: bytes)
    ensures |b| == 4
  {
    Le16(v) + Le16(v / U16)
  }

  function Le64(v: int): (b: bytes)
    ensures |b| == 8
  {
    Le32(v) + Le32(v / U32)
  }

  function Un16(b: bytes): (v: nat)
    requires |b| == 2
    ensures v < U16
  {
    var low: nat, high: nat := b[0], b[1];
    low + 256 * high
  }

  function Un32(b: bytes): (v: nat)
    requires |b| == 4
    ensures v < U32
  {
    Un16(b[..2]) + U16 * Un16(b[2..])
  }

  function Un64(b: bytes): (v: nat)
    requires |b| == 8
    ensures v < U64
  {
    Un32(b[..4]) + U32 * Un32(b[4..])
  }

  /** A 16-bit field read back as a signed number. */
  function Signed16(u: nat): int {
    if u < 0x8000 then u else u - U16
  }

  lemma Le16Reads(v: int)
    ensures Un16(Le16(v)) == v % U16
  {
  }

  lemma Le32Reads(v: int)
    ensures Un32(Le32(v)) == v % U32
  {
    Le16Reads(v);
    Le16Reads(v / U16);
    assert Le32(v)[..2] == Le16(v) && Le32(v)[2..] == Le16(v / U16);
  }

  lemma Le64Reads(v: int)
    ensures Un64(Le64(v)) == v % U64
  {
    Le32Reads(v);
    Le32Reads(v / U32);
    assert Le64(v)[..4] == Le32(v) && Le64(v)[4..] == Le32(v / U32);
    hide Le32, Un32;
    SplitWord(v);
  }

  lemma SplitWord(v: int)
    ensures v % U64 == v % U32 + U32 * (v / U32 % U32)
  {
    var low, high := v % U32, v / U32;
    assert v == U64 * (high / U32) + (U32 * (high % U32) + low);
  }

  lemma Signed16Reads(d: int)
    requires -0x8000 <= d < 0x8000
    ensures Signed16(Un16(Le16(d))) == d
  {
    Le16Reads(d);
  }

  /** What bytes stand for, the first counting least. */
  function LittleEndian(b: bytes): nat {
    if b == [] then 0 else b[0] + 256 * LittleEndian(b[1..])
  }

  lemma TwoDigits(b: bytes)
    requires |b| == 2
    ensures var low: nat, high: nat := b[0], b[1]; LittleEndian(b) == low + 256 * high
  {
    var tail := b[1..];
    assert tail == [b[1]] && tail[1..] == [];
    assert LittleEndian(tail) == b[1] as nat + 256 * LittleEndian([]);
  }

  lemma LittleEndianJoins(a: bytes, b: bytes)
    requires |a| == 2
    ensures LittleEndian(a + b) == LittleEndian(a) + 0x1_0000 * LittleEndian(b)
  {
    TwoDigits(a);
    var tail := a[1..];
    assert (a + b)[1..] == tail + b && (tail + b)[0] == a[1] && (tail + b)[1..] == b;
    assert LittleEndian(tail + b) == a[1] + 256 * LittleEndian(b);
  }

  /** The fields of all tables are little-endian, whatever their width. */
  lemma {:induction false} FieldsAreLittleEndian(b: bytes)
    ensures |b| == 2 ==> Un16(b) == LittleEndian(b)
    ensures |b| == 4 ==> Un32(b) == LittleEndian(b)
    ensures |b| == 8 ==> Un64(b) == LittleEndian(b)
    decreases |b|
  {
    if |b| == 2 {
      TwoDigits(b);
    } else if |b| == 4 {
      FieldsAreLittleEndian(b[..2]);
      FieldsAreLittleEndian(b[2..]);
      LittleEndianJoins(b[..2], b[2..]);
      assert b[..2] + b[2..] == b;
    } else if |b| == 8 {
      FieldsAreLittleEndian(b[..4]);
      FieldsAreLittleEndian(b[4..]);
      FourDigits(b[..4], b[4..]);
      assert b[..4] + b[4..] == b;
    }
  }

  lemma FourDigits(a: bytes, b: bytes)
    requires |a| == 4
    ensures LittleEndian(a + b) == LittleEndian(a) + 0x1_0000_0000 * LittleEndian(b)
  {
    LittleEndianJoins(a[..2], a[2..] + b);
    LittleEndianJoins(a[2..], b);
    LittleEndianJoins(a[..2], a[2..]);
    assert a[..2] + (a[2..] + b) == a + b && a[..2] + a[2..] == a;
  }

  /** Concatenation of a sequence of sequences, front first. */
  function Flatten<T>(ss: seq<seq<T>>): seq<T> {
    if ss == [] then [] else ss[0] + Flatten(ss[1..])
  }

  lemma ConcatAssociates<T>(a: seq<T>, b: seq<T>, c: seq<T>)
    ensures a + b + c == a + (b + c)
  {
  }

  lemma {:induction false} FlattenAppend<T>(a: seq<seq<T>>, b: seq<seq<T>>)
    ensures Flatten(a + b) == Flatten(a) + Flatten(b)
  {
    if a == [] {
      assert a + b == b;
    } else {
      FlattenAppend(a[1..], b);
      assert (a + b)[0] == a[0] && (a + b)[1..] == a[1..] + b;
      ConcatAssociates(a[0], Flatten(a[1..]), Flatten(b));
    }
  }

  lemma FlattenOne<T>(s: seq<T>)
    ensures Flatten([s]) == s
  {
    assert [s][1..] == [];
    assert Flatten([s]) == s + [];
  }

  lemma FlattenSnoc<T>(a: seq<seq<T>>, s: seq<T>)
    ensures Flatten(a + [s]) == Flatten(a) + s
  {
    FlattenAppend(a, [s]);
    FlattenOne(s);
  }

  function Last<T>(s: seq<T>): T
    requires s != []
  {
    s[|s| - 1]
  }

  function Front<T>(s: seq<T>): seq<T>
    requires s != []
  {
    s[..|s| - 1]
  }

  function Zeros(n: nat): bytes {
    seq(n, i => 0)
  }

  /** A positional write into a file: a gap before `offset` reads as zero bytes. */
  function Pwrite(file: bytes, offset: nat, data: bytes): (r: bytes)
  {
    if data == [] then file
    else
      var padded := if |file| < offset then file + Zeros(offset - |file|) else file;
      if offset + |data| <= |padded| then padded[..offset] + data + padded[offset + |data|..]
      else padded[..offset] + data
  }

  lemma PwriteReads(file: bytes, offset: nat, data: bytes)
    requires data != []
    ensures offset + |data| <= |Pwrite(file, offset, data)| && |file| <= |Pwrite(file, offset, data)|
    ensures Pwrite(file, offset, data)[offset..offset + |data|] == data
    ensures forall i :: 0 <= i < |file| && (i < offset || offset + |data| <= i) ==> Pwrite(file, offset, data)[i] == file[i]
  {
  }

  /** `data` lie in a file at `at`. */
  ghost predicate Lies(file: bytes, at: nat, data: bytes) {
    data == [] || (at + |data| <= |file| && file[at..at + |data|] == data)
  }

  /** From `start` on, what was in file `a` is in file `b`. */
  ghost predicate Keeps(a: bytes, b: bytes, start: nat) {
    |a| <= |b| && forall i :: start <= i < |a| ==> b[i] == a[i]
  }

  lemma LiesKept(a: bytes, b: bytes, start: nat, at: nat, data: bytes)
    requires Lies(a, at, data) && Keeps(a, b, start) && start <= at
    ensures Lies(b, at, data)
  {
    if data != [] { assert b[at..at + |data|] == a[at..at + |data|]; }
  }

  lemma KeepsItself(file: bytes)
    ensures Keeps(file, file, 0)
  {
  }

  lemma KeepsMore(a: bytes, b: bytes, c: bytes, from: nat, start: nat)
    requires Keeps(a, b, from) && Keeps(b, c, start) && from <= start
    ensures Keeps(a, c, start)
  {
    forall i | start <= i < |a|
      ensures c[i] == a[i]
    {
      assert b[i] == a[i];
    }
  }

  lemma LiesParts(file: bytes, at: nat, x: bytes, y: bytes)
    requires Lies(file, at, x + y)
    ensures Lies(file, at, x) && Lies(file, at + |x|, y)
  {
    if x + y != [] {
      var all := file[at..at + |x| + |y|];
      assert file[at..at + |x|] == all[..|x|] && file[at + |x|..at + |x| + |y|] == all[|x|..];
    }
  }

  /** A write behind the end of a file puts its data there, and leaves what was there. */
  lemma PwriteBehind(file: bytes, at: nat, data: bytes)
    requires |file| <= at
    ensures Lies(Pwrite(file, at, data), at, data) && Keeps(file, Pwrite(file, at, data), 0)
  {
    if data != [] { PwriteReads(file, at, data); }
  }

  /** Two writes, the second starting where the first ends, are one write. */
  lemma PwriteAdjacent(file: bytes, offset: nat, a: bytes, b: bytes)
    requires |file| <= offset
    ensures Pwrite(Pwrite(file, offset, a), offset + |a|, b) == Pwrite(file, offset, a + b)
  {
    if a == [] {
      assert a + b == b;
    } else if b == [] {
      assert a + b == a;
    } else {
      var padded := file + Zeros(offset - |file|);
      assert padded[..offset] == padded;
      assert Pwrite(file, offset, a) == padded + a;
      assert (padded + a)[..offset + |a|] == padded + a;
    }
  }

  /** Lexicographic order of names, bytes compared as unsigned: `strcmp(a, b) <= 0`. */
  predicate Le(a: bytes, b: bytes) {
    a == [] || (b != [] && (a[0] < b[0] || (a[0] == b[0] && Le(a[1..], b[1..]))))
  }

  /** The first byte in which two names differ is smaller in `a`. */
  ghost predicate DiffersBelow(a: bytes, b: bytes, k: nat) {
    k < |a| && k < |b| && a[..k] == b[..k] && a[k] < b[k]
  }

  /** Of two names, the first byte in which they differ decides; a name goes before those that continue it. */
  lemma {:induction false} LeIs(a: bytes, b: bytes)
    ensures Le(a, b) <==> a <= b || exists k: nat :: DiffersBelow(a, b, k)
  {
    if a != [] && b != [] && a[0] == b[0] {
      var c, d := a[1..], b[1..];
      LeIs(c, d);
      assert a == [a[0]] + c && b == [a[0]] + d;
      if k: nat :| DiffersBelow(c, d, k) { HeadDiffers(a[0], c, d, k); }
      if k: nat :| DiffersBelow(a, b, k) { TailDiffers(a, b, k); }
    } else if a != [] && b != [] && a[0] < b[0] {
      assert DiffersBelow(a, b, 0);
    }
  }

  lemma HeadDiffers(x: byte, a: bytes, b: bytes, k: nat)
    requires DiffersBelow(a, b, k)
    ensures DiffersBelow([x] + a, [x] + b, k + 1)
  {
    assert ([x] + a)[..k + 1] == [x] + a[..k] && ([x] + b)[..k + 1] == [x] + b[..k];
  }

  lemma TailDiffers(a: bytes, b: bytes, k: nat)
    requires DiffersBelow(a, b, k) && a[0] == b[0]
    ensures k > 0 && DiffersBelow(a[1..], b[1..], k - 1)
  {
    assert a[1..][..k - 1] == a[..k][1..] && b[1..][..k - 1] == b[..k][1..];
  }

  lemma LeReflexive(a: bytes)
    ensures Le(a, a)
  {
  }

  lemma LeTotal(a: bytes, b: bytes)
    ensures Le(a, b) || Le(b, a)
  {
  }

  lemma {:induction false} LeAntisymmetric(a: bytes, b: bytes)
    requires Le(a, b) && Le(b, a)
    ensures a == b
  {
    if a != [] {
      LeAntisymmetric(a[1..], b[1..]);
      assert a == [a[0]] + a[1..] && b == [b[0]] + b[1..];
    }
  }

  lemma {:induction false} LeTransitive(a: bytes, b: bytes, c: bytes)
    requires Le(a, b) && Le(b, c)
    ensures Le(a, c)
  {
    if a != [] && a[0] == b[0] == c[0] {
      LeTransitive(a[1..], b[1..], c[1..]);
    }
  }
}

/** The output file being written, and the bump allocator over it. */
module Images {
  import opened Bytes

  /** One positional write: `length` bytes at `offset`. */
  datatype Extent = Extent(offset: nat, length: nat)

  /** How many of the writes touch byte position `p`. */
  function Cover(log: seq<Extent>, p: nat): nat {
    if log == [] then 0
    else Cover(Front(log), p) + (if Last(log).offset <= p < Last(log).offset + Last(log).length then 1 else 0)
  }

  /** 1 inside the region [lo, hi), 0 outside. */
  function Inside(p: nat, lo: nat, hi: nat): nat {
    if lo <= p < hi then 1 else 0
  }

  /** `log` continues `before` with writes that touch each byte of [lo, hi) exactly once and nothing else. */
  ghost predicate CoversOnce(log: seq<Extent>, before: seq<Extent>, lo: nat, hi: nat) {
    forall p: nat :: Cover(log, p) == Cover(before, p) + Inside(p, lo, hi)
  }

  lemma CoversNothing(log: seq<Extent>, at: nat)
    ensures CoversOnce(log, log, at, at)
  {
  }

  lemma CoversJoin(log: seq<Extent>, middle: seq<Extent>, before: seq<Extent>, lo: nat, mid: nat, hi: nat)
    requires lo <= mid <= hi
    requires CoversOnce(middle, before, lo, mid) && CoversOnce(log, middle, mid, hi)
    ensures CoversOnce(log, before, lo, hi)
  {
    forall p: nat
      ensures Cover(log, p) == Cover(before, p) + Inside(p, lo, hi)
    {
      assert Cover(log, p) == Cover(middle, p) + Inside(p, mid, hi);
    }
  }

  class Image {
    /** Bytes reserved so far; the next region starts here. */
    var size: nat
    /** What has been written so far. */
    var file: bytes
    /** Every write performed, in order. */
    ghost var log: seq<Extent>

    ghost predicate Valid()
      reads this
    {
      |file| <= size
    }

    constructor ()
      ensures Valid() && size == 0 && file == [] && log == []
    {
      size, file, log := 0, [], [];
    }

    method Reserve(count: nat) returns (start: nat)
      modifies this`size
      ensures start == old(size) && size == start + count
    {
      start := size;
      size := size + count;
    }

    method Write(offset: nat, data: bytes)
      modifies this`file, this`log
      ensures file == Pwrite(old(file), offset, data)
      ensures old(|file|) <= offset + |data| ==> |file| <= offset + |data|
      ensures log == old(log) + [Extent(offset, |data|)]
      ensures CoversOnce(log, old(log), offset, offset + |data|)
    {
      file := Pwrite(file, offset, data);
      log := log + [Extent(offset, |data|)];
      assert Front(log) == old(log) && Last(log) == Extent(offset, |data|);
    }
  }
}

/** The compressor the image is built with, seen from outside. */
module Codecs {
  import opened Bytes

  /** `compress(src, room)` fails or fits into `room` bytes; `compressMeta` is the same
      operation with the settings used for metadata; `decompress` undoes both. */
  datatype Codec = Codec(compress: (bytes, nat) -> Option<bytes>,
                         compressMeta: (bytes, nat) -> Option<bytes>,
                         decompress: bytes -> bytes)
  {
    ghost predicate Lawful() {
      forall src: bytes, room: nat ::
        && (compress(src, room).Some? ==> 0 < |compress(src, room).value| <= room && decompress(compress(src, room).value) == src)
        && (compressMeta(src, room).Some? ==> 0 < |compressMeta(src, room).value| <= room && decompress(compressMeta(src, room).value) == src)
    }
  }
}
