/** Data sources: buffers in memory, and compounds put together from pieces of other sources. What is read from
    a source never goes beyond what it stands for, and stops at the first byte that is not there. */
module DataSources {
  import opened Bytes

  datatype Data = Memory(buffer: bytes) | Compound(pieces: seq<Piece>, size: nat)

  /** `size` bytes of a source from `offset` on, more than there are perhaps. */
  datatype Piece = Piece(data: Data, size: nat, offset: nat)

  // ---------------------------------------------------------------- what a source stands for

  /** The bytes of a source; `None` where a piece reaches beyond the end of its own source. */
  function Content(d: Data): (c: seq<Option<byte>>)
    decreases d, 0
  {
    match d
    case Memory(buffer) => seq(|buffer|, i requires 0 <= i < |buffer| => Some(buffer[i]))
    case Compound(pieces, _) => Joined(pieces)
  }

  function Joined(pieces: seq<Piece>): seq<Option<byte>>
    decreases pieces
  {
    if pieces == [] then [] else Joined(Front(pieces)) + Part(Last(pieces))
  }

  function Part(p: Piece): (c: seq<Option<byte>>)
    ensures |c| == p.size
    decreases p
  {
    var all := Content(p.data);
    seq(p.size, i requires 0 <= i < p.size => if p.offset + i < |all| then all[p.offset + i] else None)
  }

  /** The stored sizes of compounds are right, all the way down. */
  ghost predicate Good(d: Data)
    decreases d
  {
    d.Compound? ==> d.size == |Joined(d.pieces)| && forall i :: 0 <= i < |d.pieces| ==> Good(d.pieces[i].data)
  }

  function Size(d: Data): nat {
    match d
    case Memory(buffer) => |buffer|
    case Compound(_, size) => size
  }

  /** The range [from, from + count) of some content, as far as there is any. */
  function Clip(c: seq<Option<byte>>, from: nat, count: nat): (r: seq<Option<byte>>)
    ensures |r| <= count
  {
    if from >= |c| then [] else if from + count > |c| then c[from..] else c[from..from + count]
  }

  /** The bytes up to the first that is missing. */
  function Present(c: seq<Option<byte>>): (r: bytes)
    ensures |r| <= |c|
  {
    if c == [] || c[0].None? then [] else [c[0].value] + Present(c[1..])
  }

  ghost predicate Whole(c: seq<Option<byte>>) {
    forall i :: 0 <= i < |c| ==> c[i].Some?
  }

  lemma {:induction false} PresentIs(c: seq<Option<byte>>)
    ensures forall i :: 0 <= i < |Present(c)| ==> c[i] == Some(Present(c)[i])
    ensures |Present(c)| < |c| ==> c[|Present(c)|] == None
    ensures |Present(c)| == |c| <==> Whole(c)
  {
    if c != [] && c[0].Some? {
      PresentIs(c[1..]);
      assert forall i :: 0 < i < |c| ==> c[i] == c[1..][i - 1];
    }
  }

  lemma {:induction false} PresentJoins(a: seq<Option<byte>>, b: seq<Option<byte>>)
    requires Whole(a)
    ensures Present(a + b) == Present(a) + Present(b)
  {
    hide Whole;
    if a == [] {
      assert a + b == b;
    } else {
      WholeParts(a);
      assert (a + b)[0] == a[0] && (a + b)[1..] == a[1..] + b;
      PresentJoins(a[1..], b);
      ConcatAssociates([a[0].value], Present(a[1..]), Present(b));
    }
  }

  lemma WholeParts(c: seq<Option<byte>>)
    requires Whole(c) && c != []
    ensures c[0].Some? && Whole(c[1..])
  {
  }

  lemma {:induction false} PresentStops(a: seq<Option<byte>>, b: seq<Option<byte>>)
    requires !Whole(a)
    ensures Present(a + b) == Present(a)
  {
    assert (a + b)[0] == a[0] && (a + b)[1..] == a[1..] + b;
    if a[0].Some? {
      var i :| 0 <= i < |a| && a[i].None?;
      assert a[1..][i - 1] == a[i];
      PresentStops(a[1..], b);
    }
  }

  // ---------------------------------------------------------------- reading

  /** A buffer that held `was` holds `now`: `data` at `at`, and all else as before. */
  ghost predicate Holds(was: bytes, at: nat, data: bytes, now: bytes) {
    at + |data| <= |was| && now == was[..at] + data + was[at + |data|..]
  }

  lemma HoldsNothing(was: bytes, at: nat)
    requires at <= |was|
    ensures Holds(was, at, [], was)
  {
  }

  lemma HoldsMore(was: bytes, at: nat, data: bytes, middle: bytes, more: bytes, now: bytes)
    requires Holds(was, at, data, middle) && Holds(middle, at + |data|, more, now)
    ensures Holds(was, at, data + more, now)
  {
    assert middle[..at + |data|] == was[..at] + data;
    assert middle[at + |data| + |more|..] == was[at + |data + more|..];
  }

  /** Puts `data` into the buffer at `at`. */
  method CopyTo(buffer: array<byte>, at: nat, data: bytes)
    requires at + |data| <= buffer.Length
    modifies buffer
    ensures Holds(old(buffer[..]), at, data, buffer[..])
  {
    forall i | 0 <= i < |data| {
      buffer[at + i] := data[i];
    }
  }

  lemma {:induction false} JoinedAppend(a: seq<Piece>, b: seq<Piece>)
    ensures Joined(a + b) == Joined(a) + Joined(b)
  {
    hide Part;
    if b == [] {
      assert a + b == a;
    } else {
      assert Front(a + b) == a + Front(b) && Last(a + b) == Last(b);
      JoinedAppend(a, Front(b));
      ConcatAssociates(Joined(a), Joined(Front(b)), Part(Last(b)));
    }
  }

  /** What a range of `a + b` takes from `a` and what from `b`. */
  lemma ClipJoin(a: seq<Option<byte>>, b: seq<Option<byte>>, from: nat, count: nat)
    ensures |a| + |b| <= from ==> Clip(a + b, from, count) == []
    ensures |a| >= from + count ==> Clip(a + b, from, count) == Clip(a, from, count)
    ensures |a| + |b| > from && |a| < from + count ==>
              var lo, hi := if |a| < from then from else |a|, if |a| + |b| > from + count then from + count else |a| + |b|;
              && |a| <= lo <= hi <= |a| + |b| && |Clip(a, from, count)| == lo - from
              && Clip(a + b, from, count) == Clip(a, from, count) + b[lo - |a|..hi - |a|]
  {
    hide Clip;
    if |a| + |b| <= from {
      ClipBeyond(a + b, from, count);
    } else if |a| >= from + count {
      ClipLeft(a, b, from, count);
    } else {
      var hi := if |a| + |b| > from + count then from + count else |a| + |b|;
      ClipInside(a + b, from, count, hi);
      if |a| < from { ClipRight(a, b, from, count, hi); } else { ClipOver(a, b, from, count, hi); }
    }
  }

  lemma ClipLeft(a: seq<Option<byte>>, b: seq<Option<byte>>, from: nat, count: nat)
    requires |a| >= from + count
    ensures Clip(a + b, from, count) == Clip(a, from, count)
  {
    hide Clip;
    SliceLeft(a, b, from, from + count);
    ClipIs(a, from, from + count);
    ClipIs(a + b, from, from + count);
  }

  lemma ClipRight(a: seq<Option<byte>>, b: seq<Option<byte>>, from: nat, count: nat, to: nat)
    requires |a| < from <= to <= |a| + |b|
    ensures Clip(a, from, count) == [] && (a + b)[from..to] == Clip(a, from, count) + b[from - |a|..to - |a|]
  {
    hide Clip;
    ClipBeyond(a, from, count);
    SliceRight(a, b, from, to);
  }

  lemma ClipOver(a: seq<Option<byte>>, b: seq<Option<byte>>, from: nat, count: nat, to: nat)
    requires from <= |a| < from + count && |a| <= to <= |a| + |b|
    ensures |Clip(a, from, count)| == |a| - from && (a + b)[from..to] == Clip(a, from, count) + b[0..to - |a|]
  {
    hide Clip;
    ClipInside(a, from, count, |a|);
    SliceOver(a, b, from, to);
  }

  lemma ClipBeyond(c: seq<Option<byte>>, from: nat, count: nat)
    requires |c| <= from
    ensures Clip(c, from, count) == []
  {
  }

  lemma ClipIs(c: seq<Option<byte>>, from: nat, to: nat)
    requires from <= to <= |c|
    ensures Clip(c, from, to - from) == c[from..to]
  {
  }

  lemma ClipInside(c: seq<Option<byte>>, from: nat, count: nat, to: nat)
    requires from <= |c| && to == if |c| > from + count then from + count else |c|
    ensures Clip(c, from, count) == c[from..to]
  {
  }

  lemma SliceLeft(a: seq<Option<byte>>, b: seq<Option<byte>>, from: nat, to: nat)
    requires from <= to <= |a|
    ensures (a + b)[from..to] == a[from..to]
  {
  }

  lemma SliceRight(a: seq<Option<byte>>, b: seq<Option<byte>>, from: nat, to: nat)
    requires |a| <= from <= to <= |a| + |b|
    ensures (a + b)[from..to] == b[from - |a|..to - |a|]
  {
  }

  lemma SliceOver(a: seq<Option<byte>>, b: seq<Option<byte>>, from: nat, to: nat)
    requires from <= |a| <= to <= |a| + |b|
    ensures (a + b)[from..to] == a[from..|a|] + b[0..to - |a|]
  {
  }

  /** Reading from a piece's own source gives what is present of the piece. */
  lemma PartPresent(p: Piece, from: nat, to: nat)
    requires from <= to <= p.size
    ensures Present(Part(p)[from..to]) == Present(Clip(Content(p.data), p.offset + from, to - from))
    ensures |Present(Part(p)[from..to])| == to - from <==> Whole(Part(p)[from..to])
  {
    hide Present, Whole, Content;
    var part, clip := Part(p)[from..to], Clip(Content(p.data), p.offset + from, to - from);
    PresentIs(part);
    var rest := part[|clip|..];
    assert part == clip + rest;
    if rest == [] {
      assert clip + rest == clip;
    } else {
      assert rest[0] == None;
      GapEnds(clip, rest);
    }
  }

  lemma GapEnds(a: seq<Option<byte>>, b: seq<Option<byte>>)
    requires b != [] && b[0] == None
    ensures Present(a + b) == Present(a)
  {
    if Whole(a) { PresentJoins(a, b); } else { PresentStops(a, b); }
  }

  /** The compound read after some pieces: `data` is what a read of these pieces gives, and nothing of it was
      missing. */
  ghost predicate ReadSoFar(c: seq<Option<byte>>, offset: nat, size: nat, data: bytes) {
    Whole(Clip(c, offset, size)) && data == Present(Clip(c, offset, size))
  }

  lemma NothingRead(offset: nat, size: nat)
    ensures ReadSoFar([], offset, size, [])
  {
  }

  /** One more piece, of which `more` was read: all of it that is asked for, or what comes before a gap. */
  lemma ReadPiece(c: seq<Option<byte>>, p: Piece, offset: nat, size: nat, data: bytes, lo: nat, hi: nat)
    requires ReadSoFar(c, offset, size, data) && |c| + p.size > offset && |c| < offset + size
    requires lo == (if |c| < offset then offset else |c|)
    requires hi == (if |c| + p.size > offset + size then offset + size else |c| + p.size)
    ensures lo <= hi && |data| == lo - offset
    ensures var more := Present(Clip(Content(p.data), p.offset + (lo - |c|), hi - lo));
            && |more| <= hi - lo
            && (if |more| == hi - lo then ReadSoFar(c + Part(p), offset, size, data + more)
                else forall rest :: data + more == Present(Clip(c + Part(p) + rest, offset, size)))
  {
    hide Clip, Part, Present, Whole, Content;
    ClipJoin(c, Part(p), offset, size);
    PresentIs(Clip(c, offset, size));
    PartPresent(p, lo - |c|, hi - |c|);
    var part := Part(p)[lo - |c|..hi - |c|];
    var more := Present(part);
    if |more| < hi - lo {
      forall rest
        ensures data + more == Present(Clip(c + Part(p) + rest, offset, size))
      {
        ClipExtends(c + Part(p), rest, offset, size);
        ReadShort(Clip(c, offset, size), part, Clip(c + Part(p) + rest, offset, size));
      }
    } else {
      WholeJoins(Clip(c, offset, size), part);
    }
  }

  lemma ReadShort(a: seq<Option<byte>>, b: seq<Option<byte>>, all: seq<Option<byte>>)
    requires Whole(a) && !Whole(b) && a + b <= all
    ensures Present(all) == Present(a) + Present(b)
  {
    hide Present, Whole;
    NotWhole(a, b);
    assert all == a + b + all[|a + b|..];
    PresentStops(a + b, all[|a + b|..]);
    PresentJoins(a, b);
  }

  lemma WholeJoins(a: seq<Option<byte>>, b: seq<Option<byte>>)
    requires Whole(a) && Whole(b)
    ensures Whole(a + b) && Present(a + b) == Present(a) + Present(b)
  {
    PresentJoins(a, b);
  }

  lemma NotWhole(a: seq<Option<byte>>, b: seq<Option<byte>>)
    requires !Whole(b)
    ensures !Whole(a + b)
  {
    var i :| 0 <= i < |b| && b[i].None?;
    assert (a + b)[|a| + i] == b[i];
  }

  lemma ClipExtends(a: seq<Option<byte>>, b: seq<Option<byte>>, from: nat, count: nat)
    ensures Clip(a, from, count) <= Clip(a + b, from, count)
  {
  }

  /** A piece that ends before the range, or begins behind it, changes nothing. */
  lemma SkipPiece(c: seq<Option<byte>>, p: Piece, offset: nat, size: nat, data: bytes)
    requires ReadSoFar(c, offset, size, data)
    ensures |c| + p.size <= offset ==> ReadSoFar(c + Part(p), offset, size, data)
    ensures |c| >= offset + size ==> forall rest :: data == Present(Clip(c + rest, offset, size))
  {
    ClipJoin(c, Part(p), offset, size);
    if |c| + p.size <= offset { assert Clip(c, offset, size) == []; }
    forall rest | |c| >= offset + size
      ensures data == Present(Clip(c + rest, offset, size))
    {
      ClipJoin(c, rest, offset, size);
    }
  }

  /** Reads up to `size` bytes from `offset` on into the buffer at `at`, and returns how many there were. */
  method Pread(d: Data, buffer: array<byte>, at: nat, size: nat, offset: nat) returns (count: nat)
    requires Good(d) && at + size <= buffer.Length
    modifies buffer
    ensures var r := Present(Clip(Content(d), offset, size));
            count == |r| <= size && Holds(old(buffer[..]), at, r, buffer[..])
    decreases d, 1, 0
  {
    match d
    case Memory(memory) =>
      count := MemoryPread(memory, buffer, at, size, offset);
    case Compound(pieces, _) =>
      count := CompoundPread(d, buffer, at, size, offset);
  }

  lemma MemoryContent(memory: bytes, size: nat, offset: nat)
    ensures offset > |memory| ==> Present(Clip(Content(Memory(memory)), offset, size)) == []
    ensures offset <= |memory| ==>
              Present(Clip(Content(Memory(memory)), offset, size)) == memory[offset..if offset + size > |memory| then |memory| else offset + size]
  {
    var c := Clip(Content(Memory(memory)), offset, size);
    PresentIs(c);
    assert Whole(c);
  }

  method MemoryPread(memory: bytes, buffer: array<byte>, at: nat, count: nat, offset: nat) returns (size: nat)
    requires at + count <= buffer.Length
    modifies buffer
    ensures var r := Present(Clip(Content(Memory(memory)), offset, count));
            size == |r| <= count && Holds(old(buffer[..]), at, r, buffer[..])
  {
    MemoryContent(memory, count, offset);
    if offset > |memory| {
      HoldsNothing(buffer[..], at);
      return 0;
    }
    size := if offset + count > |memory| then |memory| - offset else count;
    CopyTo(buffer, at, memory[offset..offset + size]);
  }

  /** Pieces `n` and on, seen from the ones before. */
  lemma SplitAt(pieces: seq<Piece>, n: nat)
    requires n < |pieces|
    ensures Joined(pieces[..n + 1]) == Joined(pieces[..n]) + Part(pieces[n])
    ensures Joined(pieces) == Joined(pieces[..n]) + Part(pieces[n]) + Joined(pieces[n + 1..])
    ensures Joined(pieces) == Joined(pieces[..n]) + Joined(pieces[n..])
  {
    hide Joined, Part;
    JoinedStep(pieces, n);
    assert pieces == pieces[..n + 1] + pieces[n + 1..];
    assert pieces == pieces[..n] + pieces[n..];
    JoinedAppend(pieces[..n + 1], pieces[n + 1..]);
    JoinedAppend(pieces[..n], pieces[n..]);
  }

  lemma JoinedStep(pieces: seq<Piece>, n: nat)
    requires n < |pieces|
    ensures Joined(pieces[..n + 1]) == Joined(pieces[..n]) + Part(pieces[n])
  {
    hide Part;
    assert Front(pieces[..n + 1]) == pieces[..n];
  }

  /** Reads a range of piece `n` from its own source. */
  method ReadInto(d: Data, n: nat, buffer: array<byte>, at: nat, from: nat, count: nat) returns (got: nat)
    requires d.Compound? && Good(d) && n < |d.pieces| && at + count <= buffer.Length
    modifies buffer
    ensures var r := Present(Clip(Content(d.pieces[n].data), d.pieces[n].offset + from, count));
            got == |r| <= count && Holds(old(buffer[..]), at, r, buffer[..])
    decreases d, 0, 0
  {
    hide Content, Present, Clip;
    var p := d.pieces[n];
    got := Pread(p.data, buffer, at, count, p.offset + from);
  }

  method CompoundPread(d: Data, buffer: array<byte>, at: nat, count: nat, offset: nat) returns (written: nat)
    requires d.Compound? && Good(d) && at + count <= buffer.Length
    modifies buffer
    ensures var r := Present(Clip(Content(d), offset, count));
            written == |r| <= count && Holds(old(buffer[..]), at, r, buffer[..])
    decreases d, 0, 1
  {
    hide Joined, Part, Present, Clip, Whole, ReadSoFar, Holds;
    ghost var was := buffer[..];
    written := 0;
    ClipFits(Joined(d.pieces), offset, count);
    if offset > d.size {
      HoldsNothing(was, at);
      return;
    }
    var size := if offset + count > d.size then d.size - offset else count;
    ghost var data: bytes, stopped := [], false;
    var n, current: nat := 0, 0;
    NothingRead(offset, size);
    JoinedNone(d.pieces);
    HoldsNothing(was, at);
    while n < |d.pieces|
      invariant 0 <= n <= |d.pieces| && current == |Joined(d.pieces[..n])|
      invariant ReadSoFar(Joined(d.pieces[..n]), offset, size, data) && written == |data|
      invariant !stopped && Holds(was, at, data, buffer[..])
    {
      var p := d.pieces[n];
      var begin, end := current, current + p.size;
      SplitAt(d.pieces, n);
      SkipPiece(Joined(d.pieces[..n]), p, offset, size, data);
      current, n := end, n + 1;
      if end <= offset { continue; }
      if begin >= offset + size {
        stopped := true;
        assert data == Present(Clip(Joined(d.pieces), offset, size));
        break;
      }
      var lo, hi := if begin < offset then offset else begin, if end > offset + size then offset + size else end;
      ReadPiece(Joined(d.pieces[..n - 1]), p, offset, size, data, lo, hi);
      ghost var before := buffer[..];
      var got := ReadInto(d, n - 1, buffer, at + (lo - offset), lo - begin, hi - lo);
      ghost var more := Present(Clip(Content(p.data), p.offset + (lo - begin), hi - lo));
      HoldsMore(was, at, data, before, more, buffer[..]);
      written, data := written + got, data + more;
      if got != hi - lo {
        stopped := true;
        assert data == Present(Clip(Joined(d.pieces), offset, size));
        break;
      }
    }
    if !stopped { AllRead(d.pieces, n, offset, size, data); }
  }

  lemma AllRead(pieces: seq<Piece>, n: nat, offset: nat, size: nat, data: bytes)
    requires n == |pieces| && ReadSoFar(Joined(pieces[..n]), offset, size, data)
    ensures data == Present(Clip(Joined(pieces), offset, size))
  {
    assert pieces[..n] == pieces;
  }

  lemma JoinedNone(pieces: seq<Piece>)
    ensures Joined(pieces[..0]) == []
  {
  }

  lemma ClipFits(c: seq<Option<byte>>, offset: nat, count: nat)
    ensures offset > |c| ==> Present(Clip(c, offset, count)) == []
    ensures offset <= |c| && offset + count > |c| ==> Clip(c, offset, count) == Clip(c, offset, |c| - offset)
  {
  }

  // ---------------------------------------------------------------- compounds

  /** Puts pieces together; the size is added up. */
  method CreateCompound(pieces: seq<Piece>) returns (d: Data)
    requires forall i :: 0 <= i < |pieces| ==> Good(pieces[i].data)
    ensures Good(d) && d == Compound(pieces, |Content(d)|)
  {
    var size, n: nat := 0, 0;
    JoinedNone(pieces);
    while n < |pieces|
      invariant 0 <= n <= |pieces| && size == |Joined(pieces[..n])|
    {
      SplitAt(pieces, n);
      size := size + pieces[n].size;
      n := n + 1;
    }
    assert pieces[..n] == pieces;
    d := Compound(pieces, size);
  }

  /** No piece, however deeply nested, reaches beyond the end of its source. */
  ghost predicate InRange(d: Data)
    decreases d
  {
    d.Compound? ==>
      forall i :: 0 <= i < |d.pieces| ==> InRange(d.pieces[i].data) && d.pieces[i].offset + d.pieces[i].size <= |Content(d.pieces[i].data)|
  }

  lemma {:induction false} InRangeIsWhole(d: Data)
    requires InRange(d)
    ensures Whole(Content(d))
    decreases d, 0
  {
    if d.Compound? {
      PiecesWhole(d, |d.pieces|);
      assert d.pieces[..|d.pieces|] == d.pieces;
    }
  }

  lemma {:induction false} PiecesWhole(d: Data, n: nat)
    requires d.Compound? && InRange(d) && n <= |d.pieces|
    ensures Whole(Joined(d.pieces[..n]))
    decreases d, 0, n
  {
    if n > 0 {
      PiecesWhole(d, n - 1);
      InRangeIsWhole(d.pieces[n - 1].data);
      PartWhole(d.pieces[n - 1]);
      JoinedStep(d.pieces, n - 1);
      WholeJoins(Joined(d.pieces[..n - 1]), Part(d.pieces[n - 1]));
    }
  }

  lemma PartWhole(p: Piece)
    requires Whole(Content(p.data)) && p.offset + p.size <= |Content(p.data)|
    ensures Whole(Part(p))
  {
  }

  /** All bytes of a source. */
  function AllOf(d: Data): bytes {
    Present(Content(d))
  }

  /** A read of a source whose pieces are all in range is exactly the slice asked for, clipped to its size. */
  lemma ReadIsSlice(d: Data, offset: nat, size: nat)
    requires Good(d) && InRange(d)
    ensures |AllOf(d)| == Size(d)
    ensures Present(Clip(Content(d), offset, size))
         == if offset >= Size(d) then [] else if offset + size > Size(d) then AllOf(d)[offset..] else AllOf(d)[offset..offset + size]
  {
    hide Content, Present, Clip, Whole, InRange, Good;
    var c, all := Content(d), AllOf(d);
    InRangeIsWhole(d);
    SizeIsContent(d);
    WholeSlice(c, 0, 0);
    if offset >= |c| {
      ClipBeyond(c, offset, size);
      NothingPresent();
    } else {
      var to := if offset + size > |c| then |c| else offset + size;
      ClipInside(c, offset, size, to);
      WholeSlice(c, offset, to - offset);
      assert all[offset..|c|] == all[offset..];
    }
  }

  lemma NothingPresent()
    ensures Present([]) == []
  {
  }

  lemma SizeIsContent(d: Data)
    requires Good(d)
    ensures |Content(d)| == Size(d)
  {
  }

  /** The bytes of a compound are those of its pieces, one after the other. */
  lemma CompoundBytes(pieces: seq<Piece>, size: nat, n: nat)
    requires InRange(Compound(pieces, size)) && n < |pieces|
    ensures var p, before := pieces[n], |Joined(pieces[..n])|;
            && before + p.size <= |AllOf(Compound(pieces, size))| && p.offset + p.size <= |AllOf(p.data)|
            && AllOf(Compound(pieces, size))[before..before + p.size] == AllOf(p.data)[p.offset..p.offset + p.size]
  {
    hide Content, Part, Joined, InRange, Whole, Present;
    var d, p, before := Compound(pieces, size), pieces[n], |Joined(pieces[..n])|;
    InRangeIsWhole(d);
    PieceInRange(pieces, size, n);
    WholeSlice(Content(d), before, p.size);
    WholeSlice(Content(p.data), p.offset, p.size);
  }

  lemma PieceInRange(pieces: seq<Piece>, size: nat, n: nat)
    requires InRange(Compound(pieces, size)) && n < |pieces|
    ensures var p, before := pieces[n], |Joined(pieces[..n])|;
            && Whole(Content(p.data)) && p.offset + p.size <= |Content(p.data)|
            && before + p.size <= |Content(Compound(pieces, size))|
            && Content(Compound(pieces, size))[before..before + p.size] == Content(p.data)[p.offset..p.offset + p.size]
  {
    hide Part, Joined, Whole;
    InRangeIsWhole(pieces[n].data);
    SplitAt(pieces, n);
    PartIsSlice(pieces[n]);
  }

  lemma PartIsSlice(p: Piece)
    requires p.offset + p.size <= |Content(p.data)|
    ensures Part(p) == Content(p.data)[p.offset..p.offset + p.size]
  {
    hide Content;
  }

  lemma WholeSlice(c: seq<Option<byte>>, from: nat, count: nat)
    requires Whole(c) && from + count <= |c|
    ensures |Present(c)| == |c| && Present(c)[from..from + count] == Present(c[from..from + count])
  {
    PresentIs(c);
    PresentIs(c[from..from + count]);
  }
}
