/** Exactly when the chunks of a plan return every row of the table once. */
module ChunkCover {
  import opened Wrappers
  import opened GoInt
  import opened Seqs
  import opened ChunkPlan

  lemma ProductMonotone(a: nat, b: nat, size: nat)
    requires a <= b
    ensures a * size <= b * size
    ensures a < b ==> a * size + size <= b * size
  {
    var d := b - a;
    assert b * size == a * size + d * size;
    if d >= 1 {
      ProductAtLeast(size, d);
    }
  }

  lemma DoesNotCover(plan: Plan, t: Table, missing: Tuple)
    requires missing in t.heap
    requires plan.Planned? ==> missing !in Flatten(Results(plan.chunks, t))
    ensures !Covers(plan, t)
  {
    assert multiset(t.heap)[missing] > 0;
    if plan.Planned? {
      assert multiset(Flatten(Results(plan.chunks, t)))[missing] == 0;
    }
  }

  lemma NothingPlanned(t: Table)
    requires t.heap != []
    ensures !Covers(Planned([]), t)
  {
    assert Results([], t) == [];
    DoesNotCover(Planned([]), t, t.heap[0]);
  }

  // ---------- integer ranges ----------

  ghost predicate KeyBounds(t: Table, min: int, max: int) {
    && (forall i :: 0 <= i < |t.ordered| ==> min <= t.ordered[i].key <= max)
    && (exists i :: 0 <= i < |t.ordered| && t.ordered[i].key == max)
  }

  // The start of the last range.
  function LastStart(min: int, max: int, size: int): int
    requires size >= 1
  {
    min + (max - min) / size * size
  }

  // Neither the range arithmetic nor the end of the last range leaves int64.
  predicate RangeFits(min: int64, max: int64, size: int64)
    requires size >= 1
  {
    max - min + size <= MAX_INT64 && LastStart(min, max, size) + size - 1 <= MAX_INT64
  }

  lemma RangeCountFits(min: int64, max: int64, size: int64)
    requires min <= max && size >= 1 && max - min + size <= MAX_INT64
    ensures var k := RangeCount(min, max, size);
            && 1 <= k <= MAX_INT64
            && (k - 1) * size <= max - min < k * size
            && LastStart(min, max, size) == min + (k - 1) * size
  {
    OneMoreThanQuotient(max - min, size);
    CeilDiv(max - min + 1, size);
    assert Sub(Add(Add(Sub(max, min), 1), size), 1) == max - min + size;
  }

  lemma OneMoreThanQuotient(d: nat, size: nat)
    requires size >= 1
    ensures (d + size) / size == d / size + 1
  {
    QuotientBounds(d, size);
    QuotientBounds(d + size, size);
    var q, q' := d / size, (d + size) / size;
    if q' <= q {
      ProductMonotone(q', q, size);
    } else if q' > q + 1 {
      ProductMonotone(q + 1, q', size);
    }
  }

  lemma RangeCountWraps(min: int64, max: int64, size: int64)
    requires min <= max && size >= 1 && max - min + size > MAX_INT64
    ensures RangeCount(min, max, size) <= 0
  {
    var d := Sub(max, min);
    var total := Add(d, 1);
    var a := Sub(Add(total, size), 1);
    assert a <= size - 1;
    if a >= 0 {
      QuotientBounds(a, size);
    } else {
      QuotientBounds(-a, size);
    }
  }

  // The i-th range, given its offset p from the smallest key.
  lemma RangeChunkAt(min: int64, max: int64, size: int64, i: int64, p: int)
    requires p == i * size && 0 <= p <= max - min <= MAX_INT64 && size >= 1
    ensures var c := RangeChunk(min, max, size, i);
            && c.strategy == IntegerRange && c.size == size && c.rangeStart == Some(min + p)
            && (min + p + size - 1 <= MAX_INT64 ==>
                  c.rangeEnd == Some(if min + p + size - 1 > max then max else min + p + size - 1))
            && (min + p + size - 1 > MAX_INT64 ==> c.rangeEnd == Some(min + p + size - 1 - TWO_64))
  {
    hide Wrap;
    assert Mul(i, size) == p;
    assert Add(min, p) == min + p;
  }

  // The offset of the n-th boundary; all but the last range are inside the key range.
  lemma RangeOffsets(min: int64, max: int64, size: int64, n: nat)
    requires min <= max && size >= 1 && max - min + size <= MAX_INT64
    requires n < RangeCount(min, max, size)
    ensures 0 <= n * size <= max - min
    ensures n > 0 ==> n * size == (n - 1) * size + size
    ensures n == RangeCount(min, max, size) - 1 ==>
              LastStart(min, max, size) == min + n * size && max - min < n * size + size
  {
    hide RangeCount, LastStart, Add, Sub, Mul, Div, Wrap;
    var k := RangeCount(min, max, size);
    RangeCountFits(min, max, size);
    ProductMonotone(n, k - 1, size);
    if n > 0 {
      Successor(n, size);
    }
    Successor(k, size);
  }

  lemma Successor(n: nat, size: int)
    requires n > 0
    ensures n * size == (n - 1) * size + size
  {
  }

  lemma RangeChunks(min: int64, max: int64, size: int64)
    requires min <= max && size >= 1 && max - min + size <= MAX_INT64
    ensures RangeCount(min, max, size) >= 1
    ensures RangePlan(Bounds(min, max), size).Planned?
    ensures var chunks := RangePlan(Bounds(min, max), size).chunks;
            && |chunks| == RangeCount(min, max, size)
            && forall i: int64 :: 0 <= i < |chunks| ==> chunks[i] == RangeChunk(min, max, size, i)
  {
    hide RangeCount, RangeChunk;
    RangeCountFits(min, max, size);
  }

  // All ranges but the last are exact, so the first k - 1 results are the rows below the last start.
  lemma {:induction false} RangePrefix(min: int64, max: int64, size: int64, t: Table, chunks: seq<Chunk>, n: nat)
    requires ValidTable(t) && t.singleIntKey && KeyBounds(t, min, max)
    requires min <= max && size >= 1 && max - min + size <= MAX_INT64
    requires n < |chunks| == RangeCount(min, max, size)
    requires forall i: int64 :: 0 <= i < |chunks| ==> chunks[i] == RangeChunk(min, max, size, i)
    ensures PrefixOf(chunks, t, n, Before(t.ordered, ByKey, min + n * size))
  {
    hide RangeCount, RangeChunk, Select, Before, ValidTable;
    if n == 0 {
      NoneBefore(t.ordered, ByKey, min);
      assert Results(chunks, t)[..0] == [];
    } else {
      RangePrefix(min, max, size, t, chunks, n - 1);
      RangeOffsets(min, max, size, n);
      RangeCountFits(min, max, size);
      var p := (n - 1) * size;
      PrefixStep(chunks, t, n - 1, Before(t.ordered, ByKey, min + p));
      RangeChunkAt(min, max, size, n - 1, p);
      RangeStep(t, chunks[n - 1], min + p, min + n * size, size);
    }
  }

  lemma RangeStep(t: Table, c: Chunk, lo: int, hi: int, size: int)
    requires ValidTable(t) && t.singleIntKey && lo <= hi && hi - lo <= size
    requires c.strategy == IntegerRange && c.rangeStart == Some(lo) && c.rangeEnd == Some(hi - 1) && c.size == size
    ensures Before(t.ordered, ByKey, lo) + Select(c, t) == Before(t.ordered, ByKey, hi)
  {
    CutExtends(t.ordered, ByKey, lo, hi);
    RangeHoldsFewRows(t.ordered, lo, hi);
    if size <= 0 {
      assert Cut(t.ordered, ByKey, lo, Some(hi)) == [];
    }
  }

  lemma {:induction false} CutNothing(s: seq<Tuple>, lo: int, hi: int)
    requires hi <= lo
    ensures Cut(s, ByKey, lo, Some(hi)) == []
  {
    if s != [] {
      CutNothing(s[1..], lo, hi);
    }
  }

  lemma {:induction false} BeforeMembers(s: seq<Tuple>, axis: Axis, hi: int, x: Tuple)
    requires x in Before(s, axis, hi)
    ensures Pos(x, axis) < hi
  {
    if x in Before(s[1..], axis, hi) {
      BeforeMembers(s[1..], axis, hi, x);
    }
  }

  /** Integer ranges: for true bounds, the plan returns every row exactly once, if and only if the
      range arithmetic stays within int64. When the last range end wraps around, the last range is
      empty and the row with the largest key is lost; when the count wraps, there is no plan. */
  lemma RangeCoversIff(min: int64, max: int64, size: int64, t: Table)
    requires ValidTable(t) && t.singleIntKey && KeyBounds(t, min, max) && size >= 1
    ensures min <= max
    ensures Covers(RangePlan(Bounds(min, max), size), t) <==> RangeFits(min, max, size)
  {
    var last :| 0 <= last < |t.ordered| && t.ordered[last].key == max;
    assert min <= t.ordered[last].key;
    var x := t.ordered[last];
    assert x in t.heap by {
      assert x in multiset(t.ordered);
    }
    if max - min + size > MAX_INT64 {
      RangeCountWraps(min, max, size);
      NothingPlanned(t);
    } else {
      RangeLast(min, max, size, t, x);
    }
  }

  // All results but the last are the rows below the start of the last range.
  lemma RangeAllButLast(min: int64, max: int64, size: int64, t: Table) returns (chunks: seq<Chunk>, p: int)
    requires ValidTable(t) && t.singleIntKey && KeyBounds(t, min, max)
    requires min <= max && size >= 1 && max - min + size <= MAX_INT64
    ensures RangePlan(Bounds(min, max), size) == Planned(chunks) && chunks != []
    ensures 0 <= p <= max - min < p + size && LastStart(min, max, size) == min + p
    ensures var c := chunks[|chunks| - 1];
            && c.strategy == IntegerRange && c.size == size && c.rangeStart == Some(min + p)
            && c.rangeEnd == Some(if min + p + size - 1 > MAX_INT64 then min + p + size - 1 - TWO_64 else max)
    ensures Flatten(Results(chunks, t)) == Before(t.ordered, ByKey, min + p) + Select(chunks[|chunks| - 1], t)
  {
    hide RangeCount, RangeChunk, RangePlan, Select, Before, LastStart;
    RangeChunks(min, max, size);
    chunks := RangePlan(Bounds(min, max), size).chunks;
    var k := |chunks|;
    RangeOffsets(min, max, size, k - 1);
    RangeCountFits(min, max, size);
    RangePrefix(min, max, size, t, chunks, k - 1);
    p := (k - 1) * size;
    RangeChunkAt(min, max, size, k - 1, p);
    PrefixStep(chunks, t, k - 1, Before(t.ordered, ByKey, min + p));
    assert Results(chunks, t)[..k] == Results(chunks, t);
  }

  lemma RangeLast(min: int64, max: int64, size: int64, t: Table, x: Tuple)
    requires ValidTable(t) && t.singleIntKey && KeyBounds(t, min, max)
    requires min <= max && size >= 1 && max - min + size <= MAX_INT64
    requires x in t.heap && x.key == max
    ensures Covers(RangePlan(Bounds(min, max), size), t) <==> RangeFits(min, max, size)
  {
    hide RangePlan, Select, Before, LastStart;
    var chunks, p := RangeAllButLast(min, max, size, t);
    var c := chunks[|chunks| - 1];
    if min + p + size - 1 <= MAX_INT64 {
      RangeStep(t, c, min + p, max + 1, size);
      AllBefore(t.ordered, ByKey, max + 1);
    } else {
      EmptyRange(t, c);
      LastKeyMissed(Planned(chunks), t, x, min + p);
    }
  }

  lemma LastKeyMissed(plan: Plan, t: Table, x: Tuple, hi: int)
    requires plan.Planned? && x in t.heap && hi <= x.key
    requires Flatten(Results(plan.chunks, t)) == Before(t.ordered, ByKey, hi)
    ensures !Covers(plan, t)
  {
    if x in Before(t.ordered, ByKey, hi) {
      BeforeMembers(t.ordered, ByKey, hi, x);
    }
    DoesNotCover(plan, t, x);
  }

  lemma EmptyRange(t: Table, c: Chunk)
    requires t.singleIntKey && c.strategy == IntegerRange
    requires c.rangeStart.Some? && c.rangeEnd.Some? && c.rangeEnd.value < c.rangeStart.value
    ensures Select(c, t) == []
  {
    CutNothing(t.ordered, c.rangeStart.value, c.rangeEnd.value + 1);
  }

  // ---------- pieces of n units, per at a time: block chunks and offset chunks ----------

  // (n + per - 1) / per in int64: the exact number of pieces, or nothing usable after a wrap.
  lemma PieceCount(n: int64, per: int64)
    requires n >= 1 && per >= 1
    ensures var k := Div(Sub(Add(n, per), 1), per);
            && (n + per - 1 <= MAX_INT64 ==> 1 <= k <= MAX_INT64 && (k - 1) * per < n <= k * per)
            && (n + per - 1 > MAX_INT64 ==> k <= 0)
  {
    if n + per - 1 <= MAX_INT64 {
      CeilDiv(n, per);
      assert Sub(Add(n, per), 1) == n + per - 1;
    } else {
      var a: int := Sub(Add(n, per), 1);
      assert a < 0;
      QuotientBounds(-a, per);
    }
  }

  // The start of the i-th piece, and the end of every piece but the last, lie inside the n units.
  lemma PieceOffsets(n: int64, per: int64, k: int, i: nat)
    requires n >= 1 && per >= 1 && n + per - 1 <= MAX_INT64
    requires k == Div(Sub(Add(n, per), 1), per) && i < k
    ensures 0 <= i * per < n
    ensures i > 0 ==> i * per == (i - 1) * per + per
    ensures i == k - 1 ==> n <= i * per + per
    ensures i < k - 1 ==> i * per + per < n
  {
    hide Div, Add, Sub;
    PieceCount(n, per);
    ProductMonotone(i, k - 1, per);
    if i > 0 {
      Successor(i, per);
    }
    Successor(k, per);
  }

  // ---------- block ranges ----------

  predicate CtidFits(blocks: int64, per: int64) {
    blocks + per - 1 <= MAX_INT64
  }

  lemma CtidChunkAt(blocks: int64, per: int64, size: int64, n: int, i: int64, p: int)
    requires p == i * per && 0 <= p < blocks && per >= 1
    requires 0 <= i < n && (i < n - 1 ==> p + per < blocks)
    ensures var c := CtidChunk(blocks, per, size, n, i);
            && c.strategy == CtidBlock && c.blockStart == Some(p)
            && c.isLast == (i == n - 1)
            && c.blockEnd == if i == n - 1 then None else Some(p + per)
  {
    assert Mul(i, per) == p;
    hide Mul;
  }

  // One more block range read: everything before its end.
  lemma CtidStep(t: Table, chunks: seq<Chunk>, m: nat, p: int, q: int)
    requires ValidTable(t) && p <= q && m < |chunks|
    requires chunks[m].strategy == CtidBlock && chunks[m].blockStart == Some(p)
    requires chunks[m].blockEnd == Some(q) && !chunks[m].isLast
    requires PrefixOf(chunks, t, m, Before(t.heap, ByBlock, p))
    ensures PrefixOf(chunks, t, m + 1, Before(t.heap, ByBlock, q))
  {
    hide Before, PrefixOf, Cut, Limit, OffsetSelect;
    PrefixStep(chunks, t, m, Before(t.heap, ByBlock, p));
    CutExtends(t.heap, ByBlock, p, q);
  }

  lemma {:induction false} CtidPrefix(blocks: int64, per: int64, size: int64, t: Table, chunks: seq<Chunk>, n: nat)
    requires ValidTable(t) && blocks >= 1 && per >= 1 && CtidFits(blocks, per)
    requires n < |chunks| == CtidCount(blocks, per)
    requires forall i: int64 :: 0 <= i < |chunks| ==> chunks[i] == CtidChunk(blocks, per, size, |chunks|, i)
    ensures PrefixOf(chunks, t, n, Before(t.heap, ByBlock, n * per))
  {
    hide CtidChunk, Before, Div, PrefixOf, Add, Sub, Mul, Wrap, ValidTable;
    PieceCount(blocks, per);
    if n == 0 {
      NoneBefore(t.heap, ByBlock, 0);
      PrefixStart(chunks, t);
    } else {
      CtidPrefix(blocks, per, size, t, chunks, n - 1);
      var k := |chunks|;
      PieceOffsets(blocks, per, k, n);
      PieceOffsets(blocks, per, k, n - 1);
      var p := (n - 1) * per;
      CtidChunkAt(blocks, per, size, k, n - 1, p);
      CtidStep(t, chunks, n - 1, p, p + per);
    }
  }

  lemma CtidPlanned(blocks: int64, rowsPerBlock: int64, size: int64)
    requires size >= 1 && blocks != 0 && CtidPlan(Some(blocks), rowsPerBlock, size).Planned?
    ensures var per := BlocksPerChunk(size, rowsPerBlock);
            var chunks := CtidPlan(Some(blocks), rowsPerBlock, size).chunks;
            && |chunks| == CtidCount(blocks, per) == Div(Sub(Add(blocks, per), 1), per)
            && forall i: int64 :: 0 <= i < |chunks| ==> chunks[i] == CtidChunk(blocks, per, size, |chunks|, i)
  {
    hide BlocksPerChunk, CtidChunk, Add, Sub, Div;
  }

  // Each chunk ends where the next one starts, inside the counted blocks: the clamp to the block
  // count changes nothing.
  lemma CtidContiguous(blocks: int64, rowsPerBlock: int64, size: int64, i: nat)
    requires size >= 1 && blocks >= 1 && CtidFits(blocks, BlocksPerChunk(size, rowsPerBlock))
    requires CtidPlan(Some(blocks), rowsPerBlock, size).Planned?
    requires i + 1 < |CtidPlan(Some(blocks), rowsPerBlock, size).chunks|
    ensures var chunks := CtidPlan(Some(blocks), rowsPerBlock, size).chunks;
            && chunks[i].blockEnd == chunks[i + 1].blockStart
            && chunks[i].blockEnd.Some? && chunks[i].blockEnd.value < blocks
  {
    hide Div, BlocksPerChunk, CtidChunk, Add, Sub, Mul, CtidPlan, CtidCount;
    var per := BlocksPerChunk(size, rowsPerBlock);
    var k := |CtidPlan(Some(blocks), rowsPerBlock, size).chunks|;
    CtidPlanned(blocks, rowsPerBlock, size);
    PieceCount(blocks, per);
    PieceOffsets(blocks, per, k, i);
    PieceOffsets(blocks, per, k, i + 1);
    var p, q := i * per, (i + 1) * per;
    CtidChunkAt(blocks, per, size, k, i, p);
    CtidChunkAt(blocks, per, size, k, i + 1, q);
  }

  /** Block ranges: whatever the block count and the estimate are, and also for blocks added after
      planning, the plan returns every row exactly once if and only if the count does not wrap. */
  lemma CtidCoversIff(blocks: int64, rowsPerBlock: int64, size: int64, t: Table)
    requires ValidTable(t) && t.heap != [] && size >= 1 && blocks >= 0
    ensures Covers(CtidPlan(Some(blocks), rowsPerBlock, size), t) <==>
            (blocks == 0 || CtidFits(blocks, BlocksPerChunk(size, rowsPerBlock)))
  {
    var plan := CtidPlan(Some(blocks), rowsPerBlock, size);
    if blocks == 0 {
      assert Results(plan.chunks, t) == [t.heap];
      FlattenOne(t.heap);
    } else {
      var per := BlocksPerChunk(size, rowsPerBlock);
      hide BlocksPerChunk;
      PieceCount(blocks, per);
      if CtidFits(blocks, per) {
        CtidAll(blocks, per, size, t, plan.chunks);
      } else {
        NothingPlanned(t);
      }
    }
  }

  // The last block range reads everything from its start on.
  lemma CtidRest(t: Table, chunks: seq<Chunk>, p: int)
    requires ValidTable(t) && chunks != []
    requires var c := chunks[|chunks| - 1]; c.strategy == CtidBlock && c.blockStart == Some(p) && c.isLast
    requires PrefixOf(chunks, t, |chunks| - 1, Before(t.heap, ByBlock, p))
    ensures Flatten(Results(chunks, t)) == t.heap
  {
    hide Before, Cut, Limit, OffsetSelect, Results;
    PrefixStep(chunks, t, |chunks| - 1, Before(t.heap, ByBlock, p));
    CutRest(t.heap, ByBlock, p);
    assert Results(chunks, t)[..|chunks|] == Results(chunks, t);
  }

  lemma CtidAll(blocks: int64, per: int64, size: int64, t: Table, chunks: seq<Chunk>)
    requires ValidTable(t) && blocks >= 1 && per >= 1 && CtidFits(blocks, per)
    requires |chunks| == CtidCount(blocks, per)
    requires forall i: int64 :: 0 <= i < |chunks| ==> chunks[i] == CtidChunk(blocks, per, size, |chunks|, i)
    ensures Flatten(Results(chunks, t)) == t.heap
  {
    hide CtidChunk, Before, Div, Add, Sub, Mul, Wrap, PrefixOf, Results, ValidTable;
    var k := |chunks|;
    PieceCount(blocks, per);
    CtidPrefix(blocks, per, size, t, chunks, k - 1);
    PieceOffsets(blocks, per, k, k - 1);
    var p := (k - 1) * per;
    CtidChunkAt(blocks, per, size, k, k - 1, p);
    CtidRest(t, chunks, p);
  }

  // ---------- offsets ----------

  predicate OffsetFits(rows: int64, size: int64) {
    rows + size - 1 <= MAX_INT64
  }

  lemma {:induction false} OffsetPrefix(rows: int64, size: int64, t: Table, chunks: seq<Chunk>, n: nat)
    requires rows == |t.ordered| >= 1 && size >= 1 && OffsetFits(rows, size)
    requires n <= |chunks| == OffsetCount(rows, size)
    requires forall i: int64 :: 0 <= i < |chunks| ==> chunks[i] == OffsetChunk(size, i)
    ensures n < |chunks| ==> n * size < rows
                             && PrefixOf(chunks, t, n, t.ordered[..n * size])
    ensures n == |chunks| ==> PrefixOf(chunks, t, n, t.ordered)
  {
    hide Div, PrefixOf, Select, Wrap;
    var k := |chunks|;
    PieceCount(rows, size);
    if n < k {
      PieceOffsets(rows, size, k, n);
    }
    if n == 0 {
      PrefixStart(chunks, t);
    } else {
      OffsetPrefix(rows, size, t, chunks, n - 1);
      PieceOffsets(rows, size, k, n - 1);
      var p := (n - 1) * size;
      PrefixStep(chunks, t, n - 1, t.ordered[..p]);
      assert Mul(n - 1, size) == p;
      OffsetStep(t, chunks[n - 1], p, size);
    }
  }

  lemma OffsetStep(t: Table, c: Chunk, p: int, size: int)
    requires c.strategy == Offset && c.start == p && c.size == size && 0 <= p < |t.ordered| && size >= 1
    ensures t.ordered[..p] + Select(c, t) ==
            if p + size < |t.ordered| then t.ordered[..p + size] else t.ordered
  {
    hide Cut;
  }

  lemma CountedOffsets(rows: int64, size: int64, t: Table)
    requires ValidTable(t) && t.heap != [] && size >= 1 && rows == |t.heap|
    ensures Covers(OffsetPlan(Some(rows), size), t) <==> OffsetFits(rows, size)
  {
    var plan := OffsetPlan(Some(rows), size);
    SameSize(t);
    PieceCount(rows, size);
    if OffsetFits(rows, size) {
      hide Div;
      OffsetPrefix(rows, size, t, plan.chunks, |plan.chunks|);
      assert Results(plan.chunks, t)[..|plan.chunks|] == Results(plan.chunks, t);
    } else {
      NothingPlanned(t);
    }
  }

  lemma UncountedOffset(size: int64, t: Table)
    requires ValidTable(t) && t.heap != [] && size >= 1
    ensures Covers(OffsetPlan(None, size), t) <==> |t.heap| <= size
  {
    var plan := OffsetPlan(None, size);
    var got := Limit(t.ordered, size);
    SameSize(t);
    assert Results(plan.chunks, t) == [got];
    FlattenOne(got);
    assert |multiset(got)| == |got| && |multiset(t.heap)| == |t.heap|;
  }

  /** Offsets: with a true row count the slices, in order, are the whole ordered table, if and only
      if the count of slices does not wrap. An unreadable row count plans one slice, which is
      everything if and only if the table has at most one slice of rows. */
  lemma OffsetCoversIff(count: Option<int64>, size: int64, t: Table)
    requires ValidTable(t) && t.heap != [] && size >= 1
    requires count.Some? ==> count.value == |t.heap|
    ensures Covers(OffsetPlan(count, size), t) <==>
            match count case Some(rows) => OffsetFits(rows, size) case None => |t.heap| <= size
  {
    hide OffsetPlan, Covers, OffsetFits, ValidTable;
    match count
    case Some(rows) => CountedOffsets(rows, size, t);
    case None => UncountedOffset(size, t);
  }

  lemma SameSize(t: Table)
    requires ValidTable(t)
    ensures |t.ordered| == |t.heap|
  {
    assert |multiset(t.heap)| == |t.heap| && |multiset(t.ordered)| == |t.ordered|;
  }

  // ---------- choosing the planner of a table ----------

  datatype Requested = Auto | UseRange | UseCtid | UseOffset

  datatype KeyInfo = KeyFailed | NotOneInteger | OneInteger

  // What the metadata queries of a table return.
  datatype Metadata = Metadata(
    key: KeyInfo, bounds: Bounds, blocks: Option<int64>, rowsPerBlock: int64, count: Option<int64>)

  predicate HasChunks(plan: Plan) {
    plan.Panic? || plan.chunks != []
  }

  function CtidOrOffset(m: Metadata, size: int64): Plan
    requires size >= 1
  {
    var ctid := CtidPlan(m.blocks, m.rowsPerBlock, size);
    if HasChunks(ctid) then ctid else OffsetPlan(m.count, size)
  }

  function TablePlan(requested: Requested, m: Metadata, size: int64): Plan
    requires size >= 1
  {
    match requested
    case Auto => CtidOrOffset(m, size)
    case UseCtid => CtidOrOffset(m, size)
    case UseOffset => OffsetPlan(m.count, size)
    case UseRange =>
      match m.key
      case KeyFailed => OffsetPlan(m.count, size)
      case NotOneInteger => CtidPlan(m.blocks, m.rowsPerBlock, size)
      case OneInteger =>
        var range := RangePlan(m.bounds, size);
        if HasChunks(range) then range else CtidPlan(m.blocks, m.rowsPerBlock, size)
  }

  method CreateTableChunks(requested: Requested, m: Metadata, size: int64) returns (plan: Plan)
    requires size >= 1
    ensures plan == TablePlan(requested, m, size)
  {
    if requested == UseOffset || (requested == UseRange && m.key == KeyFailed) {
      plan := CreateOffsetChunks(m.count, size);
      return;
    }
    if requested == UseRange && m.key == OneInteger {
      plan := CreateRangeChunks(m.bounds, size);
      if HasChunks(plan) {
        return;
      }
    }
    plan := CreateCTIDBlockChunks(m.blocks, m.rowsPerBlock, size);
    if requested != UseRange && !HasChunks(plan) {
      plan := CreateOffsetChunks(m.count, size);
    }
  }

  // The answers that were read are true of the table.
  ghost predicate TrueOf(m: Metadata, t: Table) {
    && (m.key.OneInteger? ==> t.singleIntKey)
    && (match m.bounds
        case BoundsFailed => true
        case NoRows => t.heap == []
        case Bounds(min, max) => KeyBounds(t, min, max))
    && (m.blocks.Some? ==> m.blocks.value >= 0)
    && (m.count.Some? ==> m.count.value == |t.heap|)
  }

  predicate CtidOk(m: Metadata, size: int64)
    requires size >= 1
  {
    m.blocks.Some? && m.blocks.value >= 0
    && (m.blocks.value == 0 || CtidFits(m.blocks.value, BlocksPerChunk(size, m.rowsPerBlock)))
  }

  predicate OffsetOk(m: Metadata, size: int64, rows: nat)
    requires size >= 1
  {
    match m.count
    case Some(c) => OffsetFits(c, size)
    case None => rows <= size
  }

  // The count of ranges wraps to zero: nothing is planned and the next planner is asked. In the other
  // wrapped cases the count is negative and allocating the chunks panics.
  predicate RangeGivesUp(min: int64, max: int64, size: int64) {
    max - min + size > MAX_INT64 && max - min + 2 * size > TWO_64
  }

  predicate CtidGivesUp(blocks: int64, per: int64) {
    blocks != 0 && blocks + per - 1 > MAX_INT64 && blocks + 2 * per - 1 > TWO_64
  }

  // A truncated quotient is zero exactly for dividends smaller than the divisor.
  lemma QuotientIsZero(a: int, b: int)
    requires b >= 1
    ensures Div(a, b) == 0 <==> -b < a < b
  {
    if a >= 0 {
      QuotientBounds(a, b);
    } else {
      QuotientBounds(-a, b);
    }
  }

  lemma RangeGivesUpIff(min: int64, max: int64, size: int64)
    requires min <= max && size >= 1
    ensures HasChunks(RangePlan(Bounds(min, max), size)) <==> !RangeGivesUp(min, max, size)
  {
    var a := Sub(Add(Add(Sub(max, min), 1), size), 1);
    QuotientIsZero(a, size);
    hide Div, Wrap;
    if max - min + size <= MAX_INT64 {
      RangeCountFits(min, max, size);
    } else {
      RangeCountWraps(min, max, size);
      WrappedSum(min, max, size);
    }
  }

  lemma WrappedSum(min: int64, max: int64, size: int64)
    requires min <= max && size >= 1 && max - min + size > MAX_INT64
    ensures Sub(Add(Add(Sub(max, min), 1), size), 1) == max - min + size - TWO_64
  {
  }

  lemma CtidGivesUpIff(blocks: int64, rowsPerBlock: int64, size: int64)
    requires blocks >= 0 && size >= 1
    ensures HasChunks(CtidPlan(Some(blocks), rowsPerBlock, size)) <==>
            !CtidGivesUp(blocks, BlocksPerChunk(size, rowsPerBlock))
  {
    var per := BlocksPerChunk(size, rowsPerBlock);
    hide BlocksPerChunk;
    if blocks != 0 {
      PieceCount(blocks, per);
      QuotientIsZero(Sub(Add(blocks, per), 1), per);
    }
  }

  // The guard of the branch that plans the table, as arithmetic on the answers of the queries.
  predicate PlanGuard(requested: Requested, m: Metadata, size: int64, rows: nat)
    requires size >= 1
  {
    if requested == UseOffset || (requested == UseRange && m.key == KeyFailed) then OffsetOk(m, size, rows)
    else if requested == UseRange && m.key == OneInteger && m.bounds.Bounds?
            && !RangeGivesUp(m.bounds.min, m.bounds.max, size) then
      RangeFits(m.bounds.min, m.bounds.max, size)
    else if requested == UseRange
            || (m.blocks.Some? && !CtidGivesUp(m.blocks.value, BlocksPerChunk(size, m.rowsPerBlock))) then
      CtidOk(m, size)
    else OffsetOk(m, size, rows)
  }

  lemma CtidOkIff(m: Metadata, size: int64, t: Table)
    requires ValidTable(t) && TrueOf(m, t) && t.heap != [] && size >= 1
    ensures Covers(CtidPlan(m.blocks, m.rowsPerBlock, size), t) <==> CtidOk(m, size)
  {
    match m.blocks
    case None => NothingPlanned(t);
    case Some(b) => CtidCoversIff(b, m.rowsPerBlock, size, t);
  }

  /** For every strategy and every combination of failed and answered metadata queries: a table
      that has rows is read completely, each row once, if and only if the guard of the branch that
      plans it holds. In particular an integer-range request without a usable block count falls
      back to no chunks at all, and the table is silently skipped. */
  lemma TableCoveredIff(requested: Requested, m: Metadata, size: int64, t: Table)
    requires ValidTable(t) && TrueOf(m, t) && t.heap != [] && size >= 1
    ensures Covers(TablePlan(requested, m, size), t) <==> PlanGuard(requested, m, size, |t.heap|)
  {
    hide RangePlan, CtidPlan, OffsetPlan, Covers, RangeFits, CtidOk, RangeGivesUp, CtidGivesUp, BlocksPerChunk;
    CtidOkIff(m, size, t);
    OffsetCoversIff(m.count, size, t);
    if m.blocks.Some? {
      CtidGivesUpIff(m.blocks.value, m.rowsPerBlock, size);
    } else {
      NoBlocksPlan(m.rowsPerBlock, size);
    }
    if m.key.OneInteger? && m.bounds.Bounds? {
      BoundsOrdered(m, t);
      RangeGivesUpIff(m.bounds.min, m.bounds.max, size);
      RangeCoversIff(m.bounds.min, m.bounds.max, size, t);
    } else if m.key.OneInteger? {
      assert m.bounds.BoundsFailed?;
      FailedBoundsPlan(size);
    }
  }

  lemma BoundsOrdered(m: Metadata, t: Table)
    requires ValidTable(t) && TrueOf(m, t) && t.heap != [] && m.bounds.Bounds?
    ensures m.bounds.min <= m.bounds.max
  {
    SameSize(t);
    var i :| 0 <= i < |t.ordered| && t.ordered[i].key == m.bounds.max;
  }

  lemma NoBlocksPlan(rowsPerBlock: int64, size: int64)
    requires size >= 1
    ensures !HasChunks(CtidPlan(None, rowsPerBlock, size))
  {
  }

  lemma FailedBoundsPlan(size: int64)
    requires size >= 1
    ensures !HasChunks(RangePlan(BoundsFailed, size))
  {
  }

  // One row with the largest bigint key and the default chunk size: the end of its range wraps around
  // and the row is not read.
  lemma LargestKeyMissed(x: Tuple)
    requires x.key == MAX_INT64
    ensures var t := Table([x], [x], true);
            && ValidTable(t) && KeyBounds(t, MAX_INT64, MAX_INT64)
            && !Covers(RangePlan(Bounds(MAX_INT64, MAX_INT64), 8000), t)
  {
    hide RangePlan, Covers, ValidTable, KeyBounds, RangeFits;
    OneRow(x);
    EndsOutside();
    RangeCoversIff(MAX_INT64, MAX_INT64, 8000, Table([x], [x], true));
  }

  lemma OneRow(x: Tuple)
    ensures ValidTable(Table([x], [x], true)) && KeyBounds(Table([x], [x], true), x.key, x.key)
  {
    assert [x][0] == x;
  }

  lemma EndsOutside()
    ensures !RangeFits(MAX_INT64, MAX_INT64, 8000)
  {
  }

  // A range request on a table without a single integer key, when the block count cannot be read.
  lemma RangeRequestSkipsTable(m: Metadata, size: int64, t: Table)
    requires ValidTable(t) && t.heap != [] && size >= 1
    requires m.key.NotOneInteger? && m.blocks == None
    ensures TablePlan(UseRange, m, size) == Planned([]) && !Covers(Planned([]), t)
  {
    NothingPlanned(t);
  }

  // A table without rows is covered by every plan that has chunks or none.
  lemma EmptyTableCovered(plan: Plan, t: Table)
    requires plan.Planned? && t.heap == [] && ValidTable(t)
    ensures Covers(plan, t)
  {
    SameSize(t);
    forall i | 0 <= i < |plan.chunks| ensures Results(plan.chunks, t)[i] == [] {
    }
    AllEmpty(Results(plan.chunks, t));
  }

  lemma {:induction false} AllEmpty<T>(ss: seq<seq<T>>)
    requires forall i :: 0 <= i < |ss| ==> ss[i] == []
    ensures Flatten(ss) == []
  {
    if ss != [] {
      AllEmpty(ss[..|ss| - 1]);
    }
  }
}
