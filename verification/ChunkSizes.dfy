/** How large the planned chunks are, how they are numbered, and when a table gets none. */
module ChunkSizes {
  import opened Wrappers
  import opened GoInt
  import opened ChunkPlan
  import opened ChunkCover

  // The estimate of rows per block, or the default below one.
  function Estimate(rowsPerBlock: int64): (est: int64)
    ensures est >= 1
  {
    if rowsPerBlock < 1 then 100 else rowsPerBlock
  }

  // So many blocks hold at most chunk-size rows at the estimate, or are a single block.
  predicate Fits(width: int, est: int, size: int) {
    width * est <= size || (width * est <= est)
  }

  // One block more would not.
  predicate Full(width: int, est: int, size: int) {
    width * est + est > size
  }

  lemma BlocksForSize(size: int64, rowsPerBlock: int64)
    requires size >= 1
    ensures var per, est := BlocksPerChunk(size, rowsPerBlock), Estimate(rowsPerBlock);
            Fits(per, est, size) && Full(per, est, size)
  {
    QuotientBounds(size, Estimate(rowsPerBlock));
  }

  lemma FewerFit(width: int, per: int, est: nat, size: int)
    requires 0 <= width <= per && Fits(per, est, size)
    ensures Fits(width, est, size)
  {
    ProductMonotone(width, per, est);
  }

  // Only a positive number of blocks whose count does not wrap is divided into chunks.
  lemma DividedBlocks(blocks: int64, per: int64, k: int)
    requires per >= 1 && k == CtidCount(blocks, per) >= 1
    ensures blocks >= 1 && CtidFits(blocks, per)
  {
    if blocks >= 1 {
      PieceCount(blocks, per);
    } else {
      var a: int := Sub(Add(blocks, per), 1);
      assert a == blocks + per - 1;
      if a >= 0 {
        QuotientBounds(a, per);
      } else {
        QuotientBounds(-a, per);
      }
    }
  }

  /** Block chunks: each but the last covers the most blocks that hold no more than chunk-size rows at
      the estimate of rows per block, and at least one block; the last covers the rest of the counted
      blocks, which are no more than that. */
  lemma CtidChunkSizes(blocks: int64, rowsPerBlock: int64, size: int64, chunks: seq<Chunk>, i: nat)
    requires size >= 1 && blocks != 0 && CtidPlan(Some(blocks), rowsPerBlock, size) == Planned(chunks)
    requires i < |chunks|
    ensures Sized(chunks[i], blocks, Estimate(rowsPerBlock), size) && chunks[i].isLast == (i == |chunks| - 1)
  {
    hide BlocksPerChunk, CtidPlan, CtidChunk, CtidCount, Add, Sub, Div, Estimate, Sized;
    var per := BlocksPerChunk(size, rowsPerBlock);
    BlocksForSize(size, rowsPerBlock);
    CtidPlanned(blocks, rowsPerBlock, size);
    DividedBlocks(blocks, per, |chunks|);
    PieceCount(blocks, per);
    CtidPiece(blocks, per, Estimate(rowsPerBlock), size, |chunks|, i, chunks[i]);
  }

  ghost predicate Sized(c: Chunk, blocks: int, est: int, size: int) {
    && c.blockStart == Some(c.start) && c.isLast == c.blockEnd.None?
    && (c.blockEnd.Some? ==>
          var width := c.blockEnd.value - c.blockStart.value;
          width >= 1 && Fits(width, est, size) && Full(width, est, size))
    && (c.isLast ==>
          var width := blocks - c.blockStart.value;
          width >= 1 && Fits(width, est, size))
  }

  lemma CtidPiece(blocks: int64, per: int64, est: nat, size: int64, k: int64, i: nat, c: Chunk)
    requires blocks >= 1 && per >= 1 && CtidFits(blocks, per) && i < k
    requires k == Div(Sub(Add(blocks, per), 1), per) && c == CtidChunk(blocks, per, size, k, i)
    requires Fits(per, est, size) && Full(per, est, size)
    ensures Sized(c, blocks, est, size) && c.isLast == (i == k - 1)
  {
    hide CtidChunk, Add, Sub, Mul, Div, Fits, Full;
    PieceOffsets(blocks, per, k, i);
    var p := i * per;
    CtidChunkAt(blocks, per, size, k, i, p);
    CtidStart(blocks, per, size, k, i);
    if i == k - 1 {
      FewerFit(blocks - p, per, est, size);
    } else {
      assert c.blockEnd.value - p == per;
    }
  }

  lemma CtidStart(blocks: int64, per: int64, size: int64, k: int, i: int64)
    ensures var c := CtidChunk(blocks, per, size, k, i); c.blockStart == Some(c.start)
  {
    hide Add, Mul;
  }

  /** Ranges: each but the last holds exactly chunk-size key values; the last ends with the largest key,
      if its arithmetic stays inside int64, and holds no more. */
  lemma RangeChunkSizes(min: int64, max: int64, size: int64, chunks: seq<Chunk>, i: nat)
    requires min <= max && size >= 1 && RangePlan(Bounds(min, max), size) == Planned(chunks) && i < |chunks|
    ensures var c := chunks[i];
            && c.rangeStart.Some? && c.rangeEnd.Some? && c.start == i * size
            && (i < |chunks| - 1 ==> c.rangeEnd.value - c.rangeStart.value + 1 == size && c.rangeEnd.value < max)
            && (i == |chunks| - 1 && RangeFits(min, max, size) ==>
                  c.rangeEnd.value == max && 1 <= max - c.rangeStart.value + 1 <= size)
  {
    if max - min + size > MAX_INT64 {
      RangeCountWraps(min, max, size);
    }
    RangeChunks(min, max, size);
    hide RangePlan, RangeChunk, RangeCount, LastStart;
    RangeOffsets(min, max, size, i);
    if i + 1 < |chunks| {
      RangeOffsets(min, max, size, i + 1);
    }
    RangeChunkAt(min, max, size, i, i * size);
    RangeStart(min, max, size, i, i * size);
  }

  lemma RangeStart(min: int64, max: int64, size: int64, i: int64, p: int)
    requires p == i * size && 0 <= p <= MAX_INT64
    ensures RangeChunk(min, max, size, i).start == p
  {
    hide Add, Sub;
    assert Mul(i, size) == p;
  }

  /** Slices: one for every chunk-size rows begun, each starting where the one before it is full. */
  lemma OffsetChunkSizes(rows: int64, size: int64, chunks: seq<Chunk>, i: nat)
    requires rows >= 1 && size >= 1 && OffsetFits(rows, size) && OffsetPlan(Some(rows), size) == Planned(chunks)
    requires i < |chunks|
    ensures (|chunks| - 1) * size < rows <= |chunks| * size
    ensures chunks[i].start == i * size && chunks[i].size == size
  {
    hide Div;
    PieceCount(rows, size);
    PieceOffsets(rows, size, |chunks|, i);
    assert Mul(i, size) == i * size;
  }

  // ---------- tables without chunks ----------

  // What an empty or uncounted table gets: one chunk. By blocks it reads everything, also what is added
  // later; by offset, the first chunk-size rows.
  lemma EmptyTablePlans(size: int64, rowsPerBlock: int64, t: Table)
    requires size >= 1
    ensures var range, ctid := RangePlan(NoRows, size), CtidPlan(Some(0), rowsPerBlock, size);
            && range.Planned? && |range.chunks| == 1 && Select(range.chunks[0], t) == Limit(t.ordered, size)
            && ctid.Planned? && |ctid.chunks| == 1 && Select(ctid.chunks[0], t) == t.heap
    ensures forall count: Option<int64> :: count == None || count == Some(0) ==>
              var plan := OffsetPlan(count, size);
              plan.Planned? && |plan.chunks| == 1 && Select(plan.chunks[0], t) == Limit(t.ordered, size)
  {
  }

  // The count of slices wraps to zero.
  predicate OffsetGivesUp(count: Option<int64>, size: int64) {
    count.Some? && CtidGivesUp(count.value, size)
  }

  lemma OffsetGivesUpIff(count: Option<int64>, size: int64)
    requires size >= 1 && (count.Some? ==> count.value >= 0)
    ensures HasChunks(OffsetPlan(count, size)) <==> !OffsetGivesUp(count, size)
  {
    if count.Some? && count.value != 0 {
      PieceCount(count.value, size);
      QuotientIsZero(Sub(Add(count.value, size), 1), size);
    }
  }

  // No planner that is asked has a chunk to offer.
  predicate Skipped(requested: Requested, m: Metadata, size: int64)
    requires size >= 1
  {
    var noBlocks := m.blocks == None || CtidGivesUp(m.blocks.value, BlocksPerChunk(size, m.rowsPerBlock));
    if requested == UseOffset || (requested == UseRange && m.key == KeyFailed) then OffsetGivesUp(m.count, size)
    else if requested != UseRange then noBlocks && OffsetGivesUp(m.count, size)
    else if m.key == OneInteger && m.bounds == NoRows then false
    else if m.key == OneInteger && m.bounds.Bounds? then
      noBlocks && RangeGivesUp(m.bounds.min, m.bounds.max, size)
    else noBlocks
  }

  /** A table is passed over without a chunk, and without an error, if and only if the last planner that is
      asked has none: a range request whose bounds and block count are both unusable, or counts that wrap to
      zero. A table that is empty is never passed over. */
  lemma TableSkippedIff(requested: Requested, m: Metadata, size: int64)
    requires size >= 1 && (m.blocks.Some? ==> m.blocks.value >= 0) && (m.count.Some? ==> m.count.value >= 0)
    requires m.bounds.Bounds? ==> m.bounds.min <= m.bounds.max
    ensures TablePlan(requested, m, size) == Planned([]) <==> Skipped(requested, m, size)
  {
    hide CtidPlan, OffsetPlan, CtidGivesUp, RangeGivesUp, BlocksPerChunk;
    OffsetGivesUpIff(m.count, size);
    if m.blocks.Some? {
      CtidGivesUpIff(m.blocks.value, m.rowsPerBlock, size);
    } else {
      NoBlocksPlan(m.rowsPerBlock, size);
    }
    if m.bounds.Bounds? {
      RangeGivesUpIff(m.bounds.min, m.bounds.max, size);
      hide RangePlan;
    }
  }

  // ---------- numbering ----------

  // Chunks are numbered in the order in which they lie in the table.
  predicate Numbered(plan: Plan, size: int64) {
    plan.Planned? ==>
      forall i :: 0 <= i < |plan.chunks| ==> plan.chunks[i].index == i && plan.chunks[i].size == size
  }

  lemma RangeNumbered(bounds: Bounds, size: int64)
    requires size >= 1
    ensures Numbered(RangePlan(bounds, size), size)
  {
    hide Add, Sub, Mul, RangeCount;
  }

  lemma CtidNumbered(blocks: Option<int64>, rowsPerBlock: int64, size: int64)
    requires size >= 1
    ensures Numbered(CtidPlan(blocks, rowsPerBlock, size), size)
  {
    hide Add, Mul, CtidCount, BlocksPerChunk;
  }

  lemma OffsetNumbered(count: Option<int64>, size: int64)
    requires size >= 1
    ensures Numbered(OffsetPlan(count, size), size)
  {
    hide Mul, OffsetCount;
  }

  /** Whatever the strategy, the chunks of a table carry their place in it as index, which is the order in
      which workers claim them, and the configured size. */
  lemma TableNumbered(requested: Requested, m: Metadata, size: int64)
    requires size >= 1
    ensures Numbered(TablePlan(requested, m, size), size)
  {
    hide RangePlan, CtidPlan, OffsetPlan, Numbered;
    RangeNumbered(m.bounds, size);
    CtidNumbered(m.blocks, m.rowsPerBlock, size);
    OffsetNumbered(m.count, size);
  }
}
