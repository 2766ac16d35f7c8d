/** Splitting a table into chunks, and what the query of each chunk returns from a fixed table. */
module ChunkPlan {
  import opened Wrappers
  import opened GoInt
  import opened Seqs

  datatype Strategy = IntegerRange | CtidBlock | Offset

  datatype Chunk = Chunk(
    index: int, start: int, size: int,
    rangeStart: Option<int>, rangeEnd: Option<int>,
    blockStart: Option<int>, blockEnd: Option<int>, isLast: bool,
    strategy: Strategy)

  // A planner returns chunks or dies: allocating a negative number of chunks panics.
  datatype Plan = Panic | Planned(chunks: seq<Chunk>)

  // ---------- planners ----------

  // The smallest and largest key, as the query reports them.
  datatype Bounds = BoundsFailed | NoRows | Bounds(min: int64, max: int64)

  function RangeChunk(min: int64, max: int64, size: int64, i: int64): Chunk {
    var rangeStart := Add(min, Mul(i, size));
    var rangeEnd := Sub(Add(rangeStart, size), 1);
    Chunk(i, Mul(i, size), size, Some(rangeStart), Some(if rangeEnd > max then max else rangeEnd),
          None, None, false, IntegerRange)
  }

  function RangeCount(min: int64, max: int64, size: int64): int
    requires size >= 1
  {
    Div(Sub(Add(Add(Sub(max, min), 1), size), 1), size)
  }

  function EmptyChunk(size: int, strategy: Strategy): Chunk {
    Chunk(0, 0, size, None, None, None, None, false, strategy)
  }

  function RangePlan(bounds: Bounds, size: int64): Plan
    requires size >= 1
  {
    match bounds
    case BoundsFailed => Planned([])
    case NoRows => Planned([EmptyChunk(size, IntegerRange)])
    case Bounds(min, max) =>
      var n := RangeCount(min, max, size);
      if n < 0 then Panic
      else if n > MAX_INT64 then Panic
      else Planned(seq(n, i requires 0 <= i < n => RangeChunk(min, max, size, i)))
  }

  method CreateRangeChunks(bounds: Bounds, size: int64) returns (plan: Plan)
    requires size >= 1
    ensures plan == RangePlan(bounds, size)
  {
    hide Add, Sub, Mul, Div;
    match bounds {
      case BoundsFailed => return Planned([]);
      case NoRows => return Planned([EmptyChunk(size, IntegerRange)]);
      case Bounds(min, max) =>
        var totalRange := Add(Sub(max, min), 1);
        var numChunks := Div(Sub(Add(totalRange, size), 1), size);
        if numChunks < 0 || numChunks > MAX_INT64 {
          return Panic;
        }
        var chunks: seq<Chunk> := [];
        var i := 0;
        while i < numChunks
          invariant 0 <= i <= numChunks
          invariant |chunks| == i
          invariant forall j :: 0 <= j < i ==> chunks[j] == RangeChunk(min, max, size, j)
        {
          var rangeStart := Add(min, Mul(i, size));
          var rangeEnd := Sub(Add(rangeStart, size), 1);
          if rangeEnd > max {
            rangeEnd := max;
          }
          chunks := chunks + [Chunk(i, Mul(i, size), size, Some(rangeStart), Some(rangeEnd),
                                    None, None, false, IntegerRange)];
          i := i + 1;
        }
        plan := Planned(chunks);
    }
  }

  // The rows-per-block estimate falls back to 100 when it is below one.
  function BlocksPerChunk(size: int64, rowsPerBlock: int64): (b: int64)
    requires size >= 1
    ensures 1 <= b <= size
  {
    var est := if rowsPerBlock < 1 then 100 else rowsPerBlock;
    QuotientBounds(size, est);
    var b := Div(size, est);
    if b < 1 then 1 else b
  }

  function CtidChunk(blocks: int64, per: int64, size: int64, n: int, i: int64): Chunk {
    var blockStart := Mul(i, per);
    var blockEnd := Add(blockStart, per);
    var last := i == n - 1;
    Chunk(i, blockStart, size, None, None, Some(blockStart),
          if last then None else Some(if blockEnd > blocks then blocks else blockEnd), last, CtidBlock)
  }

  function CtidCount(blocks: int64, per: int64): int
    requires per >= 1
  {
    Div(Sub(Add(blocks, per), 1), per)
  }

  // blocks is None when the block count could not be read.
  function CtidPlan(blocks: Option<int64>, rowsPerBlock: int64, size: int64): Plan
    requires size >= 1
  {
    match blocks
    case None => Planned([])
    case Some(t) =>
      if t == 0 then Planned([EmptyChunk(size, CtidBlock)])
      else
        var per := BlocksPerChunk(size, rowsPerBlock);
        var n := CtidCount(t, per);
        if n < 0 || n > MAX_INT64 then Panic
        else Planned(seq(n, i requires 0 <= i < n => CtidChunk(t, per, size, n, i)))
  }

  method CreateCTIDBlockChunks(blocks: Option<int64>, rowsPerBlock: int64, size: int64) returns (plan: Plan)
    requires size >= 1
    ensures plan == CtidPlan(blocks, rowsPerBlock, size)
  {
    hide Add, Sub, Mul, Div;
    if blocks == None {
      return Planned([]);
    }
    var totalBlocks := blocks.value;
    if totalBlocks == 0 {
      return Planned([EmptyChunk(size, CtidBlock)]);
    }
    var blocksPerChunk := BlocksPerChunk(size, rowsPerBlock);
    var numChunks := Div(Sub(Add(totalBlocks, blocksPerChunk), 1), blocksPerChunk);
    if numChunks < 0 || numChunks > MAX_INT64 {
      return Panic;
    }
    var chunks: seq<Chunk> := [];
    var i := 0;
    while i < numChunks
      invariant 0 <= i <= numChunks
      invariant |chunks| == i
      invariant forall j :: 0 <= j < i ==> chunks[j] == CtidChunk(totalBlocks, blocksPerChunk, size, numChunks, j)
    {
      var blockStart := Mul(i, blocksPerChunk);
      var blockEnd := Add(blockStart, blocksPerChunk);
      var isLastChunk := i == numChunks - 1;
      var blockEndPtr: Option<int> := None;
      if !isLastChunk {
        if blockEnd > totalBlocks {
          blockEnd := totalBlocks;
        }
        blockEndPtr := Some(blockEnd);
      }
      chunks := chunks + [Chunk(i, blockStart, size, None, None, Some(blockStart), blockEndPtr,
                                isLastChunk, CtidBlock)];
      i := i + 1;
    }
    plan := Planned(chunks);
  }

  function OffsetChunk(size: int64, i: int64): Chunk {
    Chunk(i, Mul(i, size), size, None, None, None, None, false, Offset)
  }

  function OffsetCount(rows: int64, size: int64): int
    requires size >= 1
  {
    Div(Sub(Add(rows, size), 1), size)
  }

  // A row count that could not be read is taken as zero.
  function OffsetPlan(count: Option<int64>, size: int64): Plan
    requires size >= 1
  {
    var rows := match count case Some(c) => c case None => 0;
    if rows == 0 then Planned([EmptyChunk(size, Offset)])
    else
      var n := OffsetCount(rows, size);
      if n < 0 || n > MAX_INT64 then Panic
      else Planned(seq(n, i requires 0 <= i < n => OffsetChunk(size, i)))
  }

  method CreateOffsetChunks(count: Option<int64>, size: int64) returns (plan: Plan)
    requires size >= 1
    ensures plan == OffsetPlan(count, size)
  {
    hide Add, Sub, Mul, Div;
    var rowCount: int64 := 0;
    if count.Some? {
      rowCount := count.value;
    }
    if rowCount == 0 {
      return Planned([EmptyChunk(size, Offset)]);
    }
    var numChunks := Div(Sub(Add(rowCount, size), 1), size);
    if numChunks < 0 || numChunks > MAX_INT64 {
      return Panic;
    }
    var chunks: seq<Chunk> := [];
    var i := 0;
    while i < numChunks
      invariant 0 <= i <= numChunks
      invariant |chunks| == i
      invariant forall j :: 0 <= j < i ==> chunks[j] == OffsetChunk(size, j)
    {
      chunks := chunks + [OffsetChunk(size, i)];
      i := i + 1;
    }
    plan := Planned(chunks);
  }

  // ---------- tables and queries ----------

  // A row version at a tuple id, with its key when the primary key is one integer column.
  datatype Tuple = Tuple(block: nat, item: nat, key: int)

  // The rows in physical order and in the order of the ORDER BY clause.
  datatype Table = Table(heap: seq<Tuple>, ordered: seq<Tuple>, singleIntKey: bool)

  datatype Axis = ByKey | ByBlock

  function Pos(t: Tuple, axis: Axis): int {
    if axis.ByKey? then t.key else t.block
  }

  ghost predicate Ascending(s: seq<Tuple>, axis: Axis) {
    forall i, j :: 0 <= i < j < |s| ==> Pos(s[i], axis) <= Pos(s[j], axis)
  }

  ghost predicate UniqueKeys(s: seq<Tuple>) {
    forall i, j :: 0 <= i < j < |s| ==> s[i].key < s[j].key
  }

  ghost predicate ValidTable(t: Table) {
    && Ascending(t.heap, ByBlock)
    && multiset(t.heap) == multiset(t.ordered)
    && (t.singleIntKey ==> UniqueKeys(t.ordered))
  }

  // WHERE lo <= position [AND position < hi]. A tuple id is at least '(b,0)' exactly when its
  // block is at least b.
  function Cut(s: seq<Tuple>, axis: Axis, lo: int, hi: Option<int>): seq<Tuple> {
    if s == [] then []
    else
      (if lo <= Pos(s[0], axis) && (hi.None? || Pos(s[0], axis) < hi.value) then [s[0]] else [])
      + Cut(s[1..], axis, lo, hi)
  }

  function Limit(s: seq<Tuple>, n: int): seq<Tuple> {
    if n <= 0 then [] else if |s| <= n then s else s[..n]
  }

  function Skip(s: seq<Tuple>, n: int): seq<Tuple> {
    if n <= 0 then s else if |s| <= n then [] else s[n..]
  }

  function OffsetSelect(c: Chunk, t: Table): seq<Tuple> {
    Limit(Skip(t.ordered, c.start), c.size)
  }

  function Select(c: Chunk, t: Table): seq<Tuple> {
    match c.strategy
    case IntegerRange =>
      if c.rangeStart.Some? && c.rangeEnd.Some? && t.singleIntKey
      then Limit(Cut(t.ordered, ByKey, c.rangeStart.value, Some(c.rangeEnd.value + 1)), c.size)
      else OffsetSelect(c, t)
    case CtidBlock =>
      if c.blockStart == None then t.heap
      else if c.blockEnd == None || c.isLast then Cut(t.heap, ByBlock, c.blockStart.value, None)
      else Cut(t.heap, ByBlock, c.blockStart.value, c.blockEnd)
    case Offset => OffsetSelect(c, t)
  }

  function Results(chunks: seq<Chunk>, t: Table): (r: seq<seq<Tuple>>)
    ensures |r| == |chunks| && forall i :: 0 <= i < |r| ==> r[i] == Select(chunks[i], t)
  {
    seq(|chunks|, i requires 0 <= i < |chunks| => Select(chunks[i], t))
  }

  // Together the chunks return every row of the table exactly once.
  ghost predicate Covers(plan: Plan, t: Table) {
    plan.Planned? && multiset(Flatten(Results(plan.chunks, t))) == multiset(t.heap)
  }

  // ---------- cutting a sorted table ----------

  function Before(s: seq<Tuple>, axis: Axis, hi: int): seq<Tuple> {
    if s == [] then []
    else (if Pos(s[0], axis) < hi then [s[0]] else []) + Before(s[1..], axis, hi)
  }

  lemma AscendingTail(s: seq<Tuple>, axis: Axis)
    requires Ascending(s, axis) && s != []
    ensures Ascending(s[1..], axis)
    ensures forall i :: 0 <= i < |s[1..]| ==> Pos(s[0], axis) <= Pos(s[1..][i], axis)
  {
    assert forall i :: 0 <= i < |s[1..]| ==> s[1..][i] == s[i + 1];
  }

  lemma {:induction false} NoneBefore(s: seq<Tuple>, axis: Axis, hi: int)
    requires forall i :: 0 <= i < |s| ==> hi <= Pos(s[i], axis)
    ensures Before(s, axis, hi) == []
  {
    if s != [] {
      assert forall i :: 0 <= i < |s[1..]| ==> s[1..][i] == s[i + 1];
      NoneBefore(s[1..], axis, hi);
    }
  }

  lemma {:induction false} AllBefore(s: seq<Tuple>, axis: Axis, hi: int)
    requires forall i :: 0 <= i < |s| ==> Pos(s[i], axis) < hi
    ensures Before(s, axis, hi) == s
  {
    if s != [] {
      assert forall i :: 0 <= i < |s[1..]| ==> s[1..][i] == s[i + 1];
      AllBefore(s[1..], axis, hi);
    }
  }

  lemma FirstBefore(s: seq<Tuple>, axis: Axis, hi: int)
    requires s != []
    ensures Before(s, axis, hi) == (if Pos(s[0], axis) < hi then [s[0]] else []) + Before(s[1..], axis, hi)
  {
  }

  lemma FirstCut(s: seq<Tuple>, axis: Axis, lo: int, hi: int)
    requires s != []
    ensures Cut(s, axis, lo, Some(hi)) ==
            (if lo <= Pos(s[0], axis) < hi then [s[0]] else []) + Cut(s[1..], axis, lo, Some(hi))
  {
  }

  lemma NothingToCut(axis: Axis, lo: int, hi: int)
    ensures Before([], axis, lo) == [] && Cut([], axis, lo, Some(hi)) == []
  {
  }

  lemma {:induction false} CutExtends(s: seq<Tuple>, axis: Axis, lo: int, hi: int)
    requires Ascending(s, axis) && lo <= hi
    ensures Before(s, axis, hi) == Before(s, axis, lo) + Cut(s, axis, lo, Some(hi))
  {
    hide Ascending, Before, Cut, Pos;
    if s == [] {
      NothingToCut(axis, lo, hi);
      NothingToCut(axis, hi, hi);
    } else {
      var tail := s[1..];
      AscendingTail(s, axis);
      CutExtends(tail, axis, lo, hi);
      FirstBefore(s, axis, lo);
      FirstBefore(s, axis, hi);
      FirstCut(s, axis, lo, hi);
      var below, between := Before(tail, axis, lo), Cut(tail, axis, lo, Some(hi));
      if lo <= Pos(s[0], axis) {
        NoneBefore(tail, axis, lo);
        assert [] + below == [] && below + between == between;
      } else {
        assert [s[0]] + (below + between) == ([s[0]] + below) + ([] + between);
      }
    }
  }

  lemma {:induction false} CutRest(s: seq<Tuple>, axis: Axis, lo: int)
    requires Ascending(s, axis)
    ensures s == Before(s, axis, lo) + Cut(s, axis, lo, None)
  {
    if s != [] {
      AscendingTail(s, axis);
      CutRest(s[1..], axis, lo);
      if lo <= Pos(s[0], axis) {
        NoneBefore(s[1..], axis, lo);
      }
    }
  }

  lemma {:induction false} CutRaised(s: seq<Tuple>, lo: int, lo': int, hi: Option<int>)
    requires lo <= lo' && forall i :: 0 <= i < |s| ==> lo' <= s[i].key
    ensures Cut(s, ByKey, lo, hi) == Cut(s, ByKey, lo', hi)
  {
    if s != [] {
      assert forall i :: 0 <= i < |s[1..]| ==> s[1..][i] == s[i + 1];
      CutRaised(s[1..], lo, lo', hi);
    }
  }

  // A range of n integers holds at most n rows, so its LIMIT never drops one.
  lemma {:induction false} RangeHoldsFewRows(s: seq<Tuple>, lo: int, hi: int)
    requires UniqueKeys(s) && lo <= hi
    ensures |Cut(s, ByKey, lo, Some(hi))| <= hi - lo
  {
    if s != [] {
      var tail, k := s[1..], s[0].key;
      assert forall i :: 0 <= i < |tail| ==> tail[i] == s[i + 1] && k < tail[i].key;
      if lo <= k < hi {
        CutRaised(tail, lo, k + 1, Some(hi));
        RangeHoldsFewRows(tail, k + 1, hi);
      } else {
        RangeHoldsFewRows(tail, lo, hi);
      }
    }
  }

  // The results of the first n chunks are the rows below the n-th boundary.
  ghost predicate PrefixOf(chunks: seq<Chunk>, t: Table, n: nat, rows: seq<Tuple>)
    requires n <= |chunks|
  {
    Flatten(Results(chunks, t)[..n]) == rows
  }

  lemma PrefixStart(chunks: seq<Chunk>, t: Table)
    ensures PrefixOf(chunks, t, 0, [])
  {
    assert Results(chunks, t)[..0] == [];
  }

  lemma PrefixStep(chunks: seq<Chunk>, t: Table, n: nat, rows: seq<Tuple>)
    requires n < |chunks| && PrefixOf(chunks, t, n, rows)
    ensures PrefixOf(chunks, t, n + 1, rows + Select(chunks[n], t))
  {
    var rs := Results(chunks, t);
    assert rs[..n + 1][..n] == rs[..n] && rs[..n + 1][n] == Select(chunks[n], t);
  }
}
