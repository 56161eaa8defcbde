/** Directory listings on disk: runs of entries, each run behind a header that holds what its entries share.
    An encoder's view, a decoder, and the proof that the second undoes the first. */
module DirectoryListings {
  import opened Bytes
  import opened MetaTables

  const HEADER_SIZE: nat := 12
  const ENTRY_SIZE: nat := 8
  const MAX_RUN: nat := 256

  /** A directory entry as the listing records it: the name, and of the inode its number, its place in the
      inode table and its basic type. */
  datatype Entry = Entry(name: bytes, number: nat, at: Position, kind: nat)

  /** The inode data fit the fields the image format has for them. */
  ghost predicate Fits(e: Entry) {
    e.number < U32 && e.at.block < U32 && e.at.offset < U16 && e.kind < U16
  }

  ghost predicate AllFit(entries: seq<Entry>) {
    forall i :: 0 <= i < |entries| ==> Fits(entries[i])
  }

  /** Names the 16-bit length field can hold: it stores the length less one. */
  ghost predicate Named(e: Entry) {
    0 < |e.name| <= U16
  }

  ghost predicate AllNamed(entries: seq<Entry>) {
    forall i :: 0 <= i < |entries| ==> Named(entries[i])
  }

  // ---------------------------------------------------------------- encoding

  function Header(count: int, first: Entry): (b: bytes)
    ensures |b| == HEADER_SIZE
  {
    Le32(count) + Le32(first.at.block) + Le32(first.number)
  }

  function Record(e: Entry, base: nat): (b: bytes)
    ensures |b| == ENTRY_SIZE + |e.name|
  {
    Le16(e.at.offset) + Le16(e.number - base) + Le16(e.kind) + Le16(|e.name| - 1) + e.name
  }

  function Records(run: seq<Entry>, base: nat): bytes {
    if run == [] then [] else Record(run[0], base) + Records(run[1..], base)
  }

  function RunBytes(run: seq<Entry>): bytes
    requires run != []
  {
    Header(|run| - 1, run[0]) + Records(run, run[0].number)
  }

  /** Does an entry have to start a new run, rather than join `run`? */
  predicate Cuts(run: seq<Entry>, e: Entry) {
    || run == []
    || e.at.block != run[0].at.block
    || e.number - run[0].number < -0x8000 || e.number - run[0].number > 0x7fff
    || ENTRY_SIZE + |e.name| + |RunBytes(run)| > METADATA_SIZE
    || |run| > MAX_RUN - 1
  }

  /** The runs of a listing, taking the entries one after the other. */
  function Runs(entries: seq<Entry>): (runs: seq<seq<Entry>>)
    ensures forall k :: 0 <= k < |runs| ==> runs[k] != []
  {
    if entries == [] then []
    else
      var runs, e := Runs(Front(entries)), Last(entries);
      if runs == [] || Cuts(Last(runs), e) then runs + [[e]]
      else Front(runs) + [Last(runs) + [e]]
  }

  function RunsBytes(runs: seq<seq<Entry>>): bytes
    requires forall k :: 0 <= k < |runs| ==> runs[k] != []
  {
    if runs == [] then [] else RunBytes(runs[0]) + RunsBytes(runs[1..])
  }

  function Listing(entries: seq<Entry>): bytes {
    RunsBytes(Runs(entries))
  }

  // ---------------------------------------------------------------- what the cut rules keep

  ghost predicate GoodRun(run: seq<Entry>) {
    && 1 <= |run| <= MAX_RUN
    && (|run| > 1 ==> |RunBytes(run)| <= METADATA_SIZE)
    && (forall i :: 0 <= i < |run| ==> run[i].at.block == run[0].at.block && -0x8000 <= run[i].number - run[0].number <= 0x7fff)
  }

  lemma RecordsSnoc(run: seq<Entry>, e: Entry, base: nat)
    ensures Records(run + [e], base) == Records(run, base) + Record(e, base)
    decreases |run|
  {
    if run == [] {
      assert Records([e], base) == Record(e, base) + Records([e][1..], base);
      assert [] + [e] == [e];
    } else {
      assert (run + [e])[1..] == run[1..] + [e];
      RecordsSnoc(run[1..], e, base);
    }
  }

  lemma RunSnoc(run: seq<Entry>, e: Entry)
    requires run != []
    ensures |RunBytes(run + [e])| == |RunBytes(run)| + ENTRY_SIZE + |e.name|
  {
    RecordsSnoc(run, e, run[0].number);
  }

  lemma Joins(run: seq<Entry>, e: Entry)
    requires GoodRun(run) && !Cuts(run, e)
    ensures GoodRun(run + [e])
  {
    RunSnoc(run, e);
    assert (run + [e])[0] == run[0];
    hide RunBytes;
  }

  lemma {:induction false} RunsGood(entries: seq<Entry>)
    ensures Flatten(Runs(entries)) == entries
    ensures forall k :: 0 <= k < |Runs(entries)| ==> GoodRun(Runs(entries)[k])
  {
    hide GoodRun, Cuts, Flatten;
    if entries == [] {
      assert Flatten<Entry>([]) == [] by { FlattenNone(); }
    } else {
      var runs, e := Runs(Front(entries)), Last(entries);
      RunsGood(Front(entries));
      assert entries == Front(entries) + [e];
      if runs == [] || Cuts(Last(runs), e) {
        FlattenSnoc(runs, [e]);
        AloneGood(e);
        GoodAfter(runs, [e]);
      } else {
        FlattenSnoc(Front(runs), Last(runs) + [e]);
        FlattenSnoc(Front(runs), Last(runs));
        assert Front(runs) + [Last(runs)] == runs;
        ConcatAssociates(Flatten(Front(runs)), Last(runs), [e]);
        Joins(Last(runs), e);
        GoodAfter(Front(runs), Last(runs) + [e]);
      }
    }
  }

  lemma GoodAfter(runs: seq<seq<Entry>>, run: seq<Entry>)
    requires GoodRun(run) && forall k :: 0 <= k < |runs| ==> GoodRun(runs[k])
    ensures forall k :: 0 <= k < |runs + [run]| ==> GoodRun((runs + [run])[k])
  {
    hide GoodRun;
  }

  lemma FlattenNone()
    ensures Flatten<Entry>([]) == []
  {
  }

  lemma AloneGood(e: Entry)
    ensures GoodRun([e])
  {
  }

  lemma RecordsOne(e: Entry)
    ensures Records([e], e.number) == Record(e, e.number)
  {
    assert [e][1..] == [];
    assert Record(e, e.number) + [] == Record(e, e.number);
  }

  /** Every run has 1 to 256 entries of one inode block, with numbers 16 signed bits away from the first;
      and when names are not longer than a metadata block can hold, a run with its header fits one. */
  lemma RunLimits(entries: seq<Entry>, k: nat)
    requires k < |Runs(entries)|
    ensures var run := Runs(entries)[k];
            && 1 <= |run| <= 256
            && (forall i :: 0 <= i < |run| ==> run[i].at.block == run[0].at.block && -0x8000 <= run[i].number - run[0].number <= 0x7fff)
            && (|RunBytes(run)| <= 8192 || (|run| == 1 && |run[0].name| > 8192 - 12 - 8))
  {
    RunsGood(entries);
    var run := Runs(entries)[k];
    assert GoodRun(run);
    if |run| == 1 {
      assert run == [run[0]];
      RecordsOne(run[0]);
    }
  }

  /** Where a run may end: behind it lies an entry of another inode block, or too far away in number for 16
      signed bits, or too long for what is left of 8192 bytes; or the run has its 256 entries. */
  ghost predicate Ends(run: seq<Entry>, next: Entry)
    requires run != []
  {
    || next.at.block != run[0].at.block
    || next.number - run[0].number < -32768 || next.number - run[0].number > 32767
    || |RunBytes(run)| + 8 + |next.name| > 8192
    || |run| == 256
  }

  lemma CutsEnds(run: seq<Entry>, e: Entry)
    requires GoodRun(run) && Cuts(run, e)
    ensures Ends(run, e)
  {
    hide RunBytes;
  }

  /** No run ends too early: the entry behind it could not have joined it. */
  lemma {:induction false} RunsEnd(entries: seq<Entry>, k: nat)
    requires k + 1 < |Runs(entries)|
    ensures Ends(Runs(entries)[k], Runs(entries)[k + 1][0])
  {
    hide Ends, Cuts, GoodRun, Flatten;
    var runs, e := Runs(Front(entries)), Last(entries);
    RunsGood(Front(entries));
    if k + 1 < |runs| {
      RunsEnd(Front(entries), k);
    } else {
      CutsEnds(Last(runs), e);
    }
  }

  // ---------------------------------------------------------------- decoding

  /** One record, and how many bytes it takes. */
  function ReadRecord(b: bytes, block: nat, base: nat): Option<(Entry, nat)> {
    if |b| < 8 then None
    else
      var length := Un16(b[6..8]) + 1;
      var number := base + Signed16(Un16(b[2..4]));
      if |b| < 8 + length || number < 0 then None
      else Some((Entry(b[8..8 + length], number, Position(block, Un16(b[0..2])), Un16(b[4..6])), 8 + length))
  }

  /** `count` records, and what follows them. */
  function ReadRecords(b: bytes, count: nat, block: nat, base: nat): (r: Option<(seq<Entry>, bytes)>)
    ensures r.Some? ==> |r.value.1| <= |b|
  {
    if count == 0 then Some(([], b))
    else
      match ReadRecord(b, block, base)
      case None => None
      case Some((e, used)) =>
        match ReadRecords(b[used..], count - 1, block, base)
        case None => None
        case Some((more, rest)) => Some(([e] + more, rest))
  }

  /** The entries of a listing; more than 256 of them behind one header are not accepted. */
  function Decode(b: bytes): Option<seq<Entry>>
    decreases |b|
  {
    if b == [] then Some([])
    else if |b| < 12 || Un32(b[0..4]) >= 256 then None
    else
      var count, block, base := Un32(b[0..4]) + 1, Un32(b[4..8]), Un32(b[8..12]);
      match ReadRecords(b[12..], count, block, base)
      case None => None
      case Some((run, rest)) =>
        match Decode(rest)
        case None => None
        case Some(more) => Some(run + more)
  }

  lemma FourFields(a: bytes, b: bytes, c: bytes, d: bytes, rest: bytes)
    requires |a| == |b| == |c| == |d| == 2
    ensures var all := a + b + c + d + rest;
            all[0..2] == a && all[2..4] == b && all[4..6] == c && all[6..8] == d && all[8..] == rest
  {
  }

  lemma SignedBack(d: int)
    requires -0x8000 <= d <= 0x7fff
    ensures Signed16(Un16(Le16(d))) == d
  {
    Signed16Reads(d);
  }

  lemma SmallBack(v: nat)
    requires v < U16
    ensures Un16(Le16(v)) == v
  {
    Le16Reads(v);
  }

  lemma RecordReads(e: Entry, base: nat, rest: bytes)
    requires Fits(e) && Named(e) && -0x8000 <= e.number - base <= 0x7fff
    ensures ReadRecord(Record(e, base) + rest, e.at.block, base) == Some((e, |Record(e, base)|))
  {
    var a, b, c, d := Le16(e.at.offset), Le16(e.number - base), Le16(e.kind), Le16(|e.name| - 1);
    var all := Record(e, base) + rest;
    assert all == a + b + c + d + (e.name + rest);
    FourFields(a, b, c, d, e.name + rest);
    SmallBack(e.at.offset);
    SignedBack(e.number - base);
    SmallBack(e.kind);
    SmallBack(|e.name| - 1);
    hide Le16, Un16, Signed16;
    assert all[ENTRY_SIZE..ENTRY_SIZE + |e.name|] == all[ENTRY_SIZE..][..|e.name|] == e.name;
  }

  /** The entries of one run, as seen from its first. */
  ghost predicate InRun(run: seq<Entry>, block: nat, base: nat) {
    forall i :: 0 <= i < |run| ==>
      Fits(run[i]) && Named(run[i]) && run[i].at.block == block && -0x8000 <= run[i].number - base <= 0x7fff
  }

  lemma {:induction false} RecordsRead(run: seq<Entry>, block: nat, base: nat, rest: bytes)
    requires InRun(run, block, base)
    ensures ReadRecords(Records(run, base) + rest, |run|, block, base) == Some((run, rest))
  {
    hide Record, ReadRecord;
    if run == [] {
      assert Records(run, base) + rest == rest;
    } else {
      var first, more := Record(run[0], base), Records(run[1..], base) + rest;
      ConcatAssociates(first, Records(run[1..], base), rest);
      RecordReads(run[0], base, more);
      assert (first + more)[|first|..] == more;
      RecordsRead(run[1..], block, base, rest);
      assert [run[0]] + run[1..] == run;
    }
  }

  lemma WordBack(v: nat)
    requires v < U32
    ensures Un32(Le32(v)) == v
  {
    Le32Reads(v);
  }

  lemma ThreeFields(a: bytes, b: bytes, c: bytes, rest: bytes)
    requires |a| == |b| == |c| == 4
    ensures var all := a + b + c + rest;
            all[0..4] == a && all[4..8] == b && all[8..12] == c && all[12..] == rest
  {
  }

  lemma HeaderReads(count: nat, first: Entry, rest: bytes)
    requires count < U32 && Fits(first)
    ensures var b := Header(count, first) + rest;
            Un32(b[0..4]) == count && Un32(b[4..8]) == first.at.block && Un32(b[8..12]) == first.number && b[HEADER_SIZE..] == rest
  {
    ThreeFields(Le32(count), Le32(first.at.block), Le32(first.number), rest);
    WordBack(count);
    WordBack(first.at.block);
    WordBack(first.number);
  }

  lemma RunReads(run: seq<Entry>, rest: bytes)
    requires GoodRun(run) && AllFit(run) && AllNamed(run)
    ensures var b := RunBytes(run) + rest;
            Decode(b) == if Decode(rest).Some? then Some(run + Decode(rest).value) else None
  {
    hide Header, Records, ReadRecords, Un32, GoodRun, AllFit, AllNamed, InRun;
    GoodIsInRun(run);
    var records := Records(run, run[0].number) + rest;
    ConcatAssociates(Header(|run| - 1, run[0]), Records(run, run[0].number), rest);
    HeaderReads(|run| - 1, run[0], records);
    RecordsRead(run, run[0].at.block, run[0].number, rest);
  }

  lemma GoodIsInRun(run: seq<Entry>)
    requires GoodRun(run) && AllFit(run) && AllNamed(run)
    ensures 1 <= |run| <= 256 && Fits(run[0]) && InRun(run, run[0].at.block, run[0].number)
  {
    hide Fits, Named;
  }

  lemma {:induction false} RunsRead(runs: seq<seq<Entry>>)
    requires forall k :: 0 <= k < |runs| ==> runs[k] != []
    requires forall k :: 0 <= k < |runs| ==> GoodRun(runs[k]) && AllFit(runs[k]) && AllNamed(runs[k])
    ensures Decode(RunsBytes(runs)) == Some(Flatten(runs))
  {
    if runs != [] {
      RunReads(runs[0], RunsBytes(runs[1..]));
      RunsRead(runs[1..]);
    }
  }

  lemma {:induction false} FlattenHolds(ss: seq<seq<Entry>>)
    requires AllFit(Flatten(ss)) && AllNamed(Flatten(ss))
    ensures forall k :: 0 <= k < |ss| ==> AllFit(ss[k]) && AllNamed(ss[k])
  {
    if ss != [] {
      var all, rest := Flatten(ss), Flatten(ss[1..]);
      assert all[..|ss[0]|] == ss[0] && all[|ss[0]|..] == rest;
      assert forall i :: 0 <= i < |ss[0]| ==> ss[0][i] == all[i];
      assert forall i :: 0 <= i < |rest| ==> rest[i] == all[|ss[0]| + i];
      FlattenHolds(ss[1..]);
      assert forall k :: 0 < k < |ss| ==> ss[k] == ss[1..][k - 1];
    }
  }

  lemma {:induction false} RecordsAreNamed(b: bytes, count: nat, block: nat, base: nat)
    requires ReadRecords(b, count, block, base).Some?
    ensures AllNamed(ReadRecords(b, count, block, base).value.0)
  {
    if count > 0 {
      RecordsAreNamed(b[ReadRecord(b, block, base).value.1..], count - 1, block, base);
    }
  }

  /** Whatever the bytes, a decoded name has at least one byte and at most 65536. */
  lemma {:induction false} DecodedAreNamed(b: bytes)
    requires Decode(b).Some?
    ensures AllNamed(Decode(b).value)
    decreases |b|
  {
    if b != [] {
      var count, block, base := Un32(b[0..4]) + 1, Un32(b[4..8]), Un32(b[8..12]);
      RecordsAreNamed(b[HEADER_SIZE..], count, block, base);
      DecodedAreNamed(ReadRecords(b[HEADER_SIZE..], count, block, base).value.1);
    }
  }

  /** The round trip: a listing decodes to exactly the entries it was made of, in order, with every count
      matching its run, if and only if all names have between 1 and 65536 bytes. */
  lemma ListingRoundTrip(entries: seq<Entry>)
    requires AllFit(entries)
    ensures Decode(Listing(entries)) == Some(entries) <==> AllNamed(entries)
  {
    RunsGood(entries);
    if AllNamed(entries) {
      FlattenHolds(Runs(entries));
      RunsRead(Runs(entries));
    } else if Decode(Listing(entries)) == Some(entries) {
      DecodedAreNamed(Listing(entries));
    }
  }
}
