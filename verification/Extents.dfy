/** Extent tables: when a table is accepted, and what `contiguous` means. */
module Extents {
  import opened Storage

  const MAX_SAFE_INTEGER: nat := 0x1F_FFFF_FFFF_FFFF

  /** A run of blocks of a file, and where it lies on the device. */
  datatype Range = Range(logicalStart: nat, physicalStart: nat, length: nat)

  /** One row of `filefrag -v`. */
  datatype Row = Row(
    logicalStart: nat, logicalEnd: nat, physicalStart: nat, physicalEnd: nat, length: nat, eof: bool)

  datatype Evidence = Unknown | Verified(contiguous: bool, ranges: seq<Range>)

  // ---- The meaning of a table.

  /** Block `l` lies in range `i`. */
  predicate InRange(ranges: seq<Range>, i: int, l: int) {
    0 <= i < |ranges| && ranges[i].logicalStart <= l < ranges[i].logicalStart + ranges[i].length
  }

  ghost predicate Held(ranges: seq<Range>, l: int) { exists i :: InRange(ranges, i, l) }

  /** The number of blocks of the file: where the last range ends. */
  function Total(ranges: seq<Range>): nat { Expected(ranges, |ranges|) }

  /** No gap and no overlap: each block below the total lies in exactly one range, no other block in any. */
  ghost predicate Tiles(ranges: seq<Range>) {
    && (forall l :: 0 <= l < Total(ranges) ==> Held(ranges, l))
    && (forall i, j, l :: InRange(ranges, i, l) && InRange(ranges, j, l) ==> i == j)
    && (forall i, l :: InRange(ranges, i, l) ==> l < Total(ranges))
  }

  /** Every block of the file lies at the same distance from its logical position. */
  ghost predicate OneRun(ranges: seq<Range>) {
    exists base: int :: RunsFrom(ranges, base)
  }

  ghost predicate RunsFrom(ranges: seq<Range>, base: int) {
    forall i, l :: InRange(ranges, i, l) ==> ranges[i].physicalStart + (l - ranges[i].logicalStart) == base + l
  }

  // ---- The tests the adapters make.

  /** Each range starts where the one before it ends. */
  predicate Follows(ranges: seq<Range>) { forall i :: 0 <= i < |ranges| ==> InStep(ranges, i) }

  /** Where range `i` should start. */
  function Expected(ranges: seq<Range>, i: nat): nat
    requires i <= |ranges|
  {
    if i == 0 then 0 else ranges[i - 1].logicalStart + ranges[i - 1].length
  }

  predicate InStep(ranges: seq<Range>, i: nat)
    requires i < |ranges|
  {
    0 < ranges[i].length && ranges[i].logicalStart == Expected(ranges, i)
  }

  predicate Adjacent(ranges: seq<Range>) {
    forall i :: 0 < i < |ranges| ==> ranges[i].physicalStart == ranges[i - 1].physicalStart + ranges[i - 1].length
  }

  lemma {:induction false} FollowsAscends(ranges: seq<Range>, i: nat, j: nat)
    requires Follows(ranges) && i < j < |ranges|
    ensures ranges[i].logicalStart + ranges[i].length <= ranges[j].logicalStart
    decreases j
  {
    assert InStep(ranges, j) && InStep(ranges, j - 1);
    if i < j - 1 { FollowsAscends(ranges, i, j - 1); }
  }

  lemma {:induction false} RangeOf(ranges: seq<Range>, n: nat, l: nat)
    requires Follows(ranges) && n < |ranges| && l < ranges[n].logicalStart + ranges[n].length
    ensures Held(ranges, l)
    decreases n
  {
    assert InStep(ranges, n);
    if n > 0 && l < ranges[n].logicalStart { RangeOf(ranges, n - 1, l); } else { assert InRange(ranges, n, l); }
  }

  /** The chain of starts is exactly a tiling. */
  lemma FollowsIffTiles(ranges: seq<Range>)
    requires forall i :: 0 <= i < |ranges| ==> 0 < ranges[i].length
    requires forall i :: 0 < i < |ranges| ==> ranges[i - 1].logicalStart <= ranges[i].logicalStart
    ensures Follows(ranges) <==> Tiles(ranges)
  {
    if Follows(ranges) { FollowsTiles(ranges); }
    if Tiles(ranges) { TilesFollow(ranges); }
  }

  lemma FollowsTiles(ranges: seq<Range>)
    requires Follows(ranges)
    ensures Tiles(ranges)
  {
    forall l | 0 <= l < Total(ranges) ensures Held(ranges, l) {
      RangeOf(ranges, |ranges| - 1, l);
    }
    forall i, j, l | InRange(ranges, i, l) && InRange(ranges, j, l) ensures i == j {
      if i < j { FollowsAscends(ranges, i, j); }
      if j < i { FollowsAscends(ranges, j, i); }
    }
    forall i, l | InRange(ranges, i, l) ensures l < Total(ranges) {
      if i < |ranges| - 1 { FollowsAscends(ranges, i, |ranges| - 1); }
    }
  }

  lemma {:induction false} Ascending(ranges: seq<Range>, i: nat, j: nat)
    requires forall k :: 0 < k < |ranges| ==> ranges[k - 1].logicalStart <= ranges[k].logicalStart
    requires i <= j < |ranges|
    ensures ranges[i].logicalStart <= ranges[j].logicalStart
    decreases j
  {
    if i < j { Ascending(ranges, i, j - 1); }
  }

  lemma TilesFollow(ranges: seq<Range>)
    requires Tiles(ranges) && forall i :: 0 <= i < |ranges| ==> 0 < ranges[i].length
    requires forall i :: 0 < i < |ranges| ==> ranges[i - 1].logicalStart <= ranges[i].logicalStart
    ensures Follows(ranges)
  {
    forall i | 0 <= i < |ranges| ensures InStep(ranges, i) { StartIsExpected(ranges, i); }
  }

  /** A later start would leave a gap, an earlier one an overlap. */
  lemma StartIsExpected(ranges: seq<Range>, i: nat)
    requires Tiles(ranges) && i < |ranges| && forall k :: 0 <= k < |ranges| ==> 0 < ranges[k].length
    requires forall k :: 0 < k < |ranges| ==> ranges[k - 1].logicalStart <= ranges[k].logicalStart
    ensures ranges[i].logicalStart == Expected(ranges, i)
  {
    var start, expected := ranges[i].logicalStart, Expected(ranges, i);
    assert InRange(ranges, i, start);
    if expected > start {
      assert InRange(ranges, i - 1, start);
    }
    if expected < start {
      assert expected < Total(ranges);
      assert Held(ranges, expected);
      var k :| InRange(ranges, k, expected);
      if k >= i {
        Ascending(ranges, i, k);
        assert false;
      }
      if k < i - 1 {
        Ascending(ranges, k, i - 1);
        assert InRange(ranges, k, ranges[i - 1].logicalStart) && InRange(ranges, i - 1, ranges[i - 1].logicalStart);
        assert false;
      }
    }
  }

  /** The fast test between neighbours decides the meaning over every block. */
  lemma AdjacencyDecides(ranges: seq<Range>)
    requires Follows(ranges)
    ensures Adjacent(ranges) <==> OneRun(ranges)
  {
    if Adjacent(ranges) {
      var base: int := if ranges == [] then 0 else ranges[0].physicalStart;
      forall i, l | InRange(ranges, i, l)
        ensures ranges[i].physicalStart + (l - ranges[i].logicalStart) == base + l
      {
        SameDistance(ranges, i);
      }
      assert RunsFrom(ranges, base);
    }
    if OneRun(ranges) {
      var base: int :| RunsFrom(ranges, base);
      forall i | 0 < i < |ranges|
        ensures ranges[i].physicalStart == ranges[i - 1].physicalStart + ranges[i - 1].length
      {
        assert InStep(ranges, i) && InStep(ranges, i - 1);
        assert InRange(ranges, i, ranges[i].logicalStart) && InRange(ranges, i - 1, ranges[i - 1].logicalStart);
      }
    }
  }

  lemma {:induction false} SameDistance(ranges: seq<Range>, i: nat)
    requires Follows(ranges) && Adjacent(ranges) && i < |ranges|
    ensures ranges[i].physicalStart == ranges[0].physicalStart + ranges[i].logicalStart
  {
    assert InStep(ranges, i);
    if i > 0 { SameDistance(ranges, i - 1); }
  }

  // ---- The Linux adapter.

  function RangeOfRow(row: Row): Range { Range(row.logicalStart, row.physicalStart, row.length) }

  function RangesOf(rows: seq<Row>): (ranges: seq<Range>)
    ensures |ranges| == |rows|
  {
    seq(|rows|, i requires 0 <= i < |rows| => RangeOfRow(rows[i]))
  }

  /** A row whose lengths agree. */
  predicate Agrees(row: Row) {
    && row.logicalStart <= row.logicalEnd && row.physicalStart <= row.physicalEnd
    && row.length == row.logicalEnd - row.logicalStart + 1 == row.physicalEnd - row.physicalStart + 1
  }

  /** The rows form a complete table, as far as the tool's own summary and flags can tell. */
  ghost predicate CompleteTable(summary: Option<nat>, rows: seq<Row>) {
    && summary == Some(|rows|) && rows != [] && rows[|rows| - 1].eof
    && (forall i :: 0 <= i < |rows| ==> Agrees(rows[i]))
    && Follows(RangesOf(rows))
  }

  /** `parseFilefragOutput`, from the number in the summary line and the rows. */
  method ParseFilefrag(summary: Option<nat>, rows: seq<Row>) returns (e: Evidence)
    ensures e.Verified? <==> CompleteTable(summary, rows)
    ensures e.Verified? ==> e.ranges == RangesOf(rows) && Tiles(e.ranges) && (e.contiguous <==> OneRun(e.ranges))
  {
    if summary.None? || rows == [] || summary.value != |rows| { return Unknown; }
    ghost var ranges := RangesOf(rows);
    for index := 0 to |rows|
      invariant forall i :: 0 <= i < index ==> Agrees(rows[i])
      invariant forall i :: 0 <= i < index ==> InStep(ranges, i)
    {
      assert index > 0 ==> Agrees(rows[index - 1]);
      var row := rows[index];
      var expectedLogicalStart := if index == 0 then 0 else rows[index - 1].logicalEnd + 1;
      if || row.logicalStart != expectedLogicalStart
         || row.logicalEnd < row.logicalStart
         || row.physicalEnd < row.physicalStart
         || row.length != row.logicalEnd - row.logicalStart + 1
         || row.length != row.physicalEnd - row.physicalStart + 1
      {
        assert !Agrees(rows[index]) || !InStep(ranges, index);
        return Unknown;
      }
    }
    if !rows[|rows| - 1].eof { return Unknown; }
    FollowsTiles(ranges);
    AdjacencyDecides(ranges);
    var physicallyAdjacent := forall i :: 0 < i < |rows| ==> rows[i].physicalStart == rows[i - 1].physicalEnd + 1;
    assert physicallyAdjacent <==> Adjacent(ranges) by {
      forall i | 0 < i < |rows|
        ensures rows[i].physicalStart == rows[i - 1].physicalEnd + 1
                <==> ranges[i].physicalStart == ranges[i - 1].physicalStart + ranges[i - 1].length
      {
        assert Agrees(rows[i - 1]);
      }
    }
    e := Verified(physicallyAdjacent, RangesOf(rows));
  }

  // ---- The Windows adapter.

  predicate Safe(range: Range) {
    range.logicalStart <= MAX_SAFE_INTEGER && range.physicalStart <= MAX_SAFE_INTEGER
      && 0 < range.length <= MAX_SAFE_INTEGER
  }

  /** `parseFsutilExtents`, from its rows. */
  method ParseFsutil(rows: seq<Range>) returns (e: Evidence)
    ensures e.Verified? <==> rows != [] && (forall i :: 0 <= i < |rows| ==> Safe(rows[i])) && Follows(rows)
    ensures e.Verified? ==> forall i :: 0 <= i < |rows| ==>
              && rows[i].logicalStart <= 9007199254740991 && rows[i].physicalStart <= 9007199254740991
              && 0 < rows[i].length <= 9007199254740991
    ensures e.Verified? ==> e.ranges == rows && Tiles(rows) && (e.contiguous <==> OneRun(rows))
  {
    if rows == [] || exists i :: 0 <= i < |rows| && !Safe(rows[i]) { return Unknown; }
    for index := 0 to |rows|
      invariant forall i :: 0 <= i < index ==> InStep(rows, i)
    {
      var expected := if index == 0 then 0 else rows[index - 1].logicalStart + rows[index - 1].length;
      assert Safe(rows[index]);
      if rows[index].logicalStart != expected {
        assert !InStep(rows, index);
        return Unknown;
      }
    }
    FollowsTiles(rows);
    AdjacencyDecides(rows);
    e := Verified(Adjacent(rows), rows);
  }

  /** Both tools' tables of one file lead to one verdict. */
  method BothAdapters(summary: Option<nat>, rows: seq<Row>) returns (linux: Evidence, windows: Evidence)
    requires forall i :: 0 <= i < |rows| ==> Safe(RangeOfRow(rows[i])) && Agrees(rows[i])
    ensures summary == Some(|rows|) && rows != [] && rows[|rows| - 1].eof ==> linux == windows
    ensures linux.Verified? ==> windows == linux
  {
    linux := ParseFilefrag(summary, rows);
    windows := ParseFsutil(RangesOf(rows));
  }
}
