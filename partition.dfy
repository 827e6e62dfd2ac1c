/**
 * The scatter/gather partition of the ordinal range [0, rowCount) into batches and worker
 * ranges, computed with the same ceiling integer divisions on the write and the read path.
 */
module Partition {
  import opened Domain

  /** Defaults of the configuration knobs (timeseries.write-batch-size and friends). */
  const DEFAULT_WRITE_BATCH_SIZE := 30000
  const DEFAULT_WRITE_BATCH_PER_CONNECTION := 3
  const DEFAULT_READ_BATCH_SIZE := 5000
  const DEFAULT_READ_BATCH_PER_CONNECTION := 1

  /** Cells per batch and batches per worker connection. */
  datatype BatchConfig = BatchConfig(batchSize: nat, batchPerConnection: nat)

  /** rowCount rows, batches of batchRow rows, threadCount workers of batchInThread batches. */
  datatype Plan = Plan(rowCount: nat, batchRow: nat, batchCount: nat, threadCount: nat, batchInThread: nat)

  /** (a + b - 1) / b, the smallest q with q * b >= a. */
  function CeilDiv(a: nat, b: nat): (q: nat)
    requires b > 0
    ensures q * b >= a
    ensures (q - 1) * b < a
    ensures q == 0 <==> a == 0
  {
    var q := (a + b - 1) / b;
    var m := (a + b - 1) % b;
    assert a + b - 1 == q * b + m;
    assert (q - 1) * b == q * b - b;
    assert q == 0 ==> a + b - 1 == m;
    q
  }

  /**
   * The partition header of the save and find paths. Each of the four divisions fails
   * when its divisor is zero, as Java's integer division does.
   */
  function MakePlan(rowCount: nat, colCount: nat, config: BatchConfig): (r: Result<Plan>)
    ensures r.Ok? <==> colCount >= 1 && config.batchSize >= 1 && config.batchPerConnection >= 1 && rowCount >= 1
    ensures r.Err? ==> r.error == DivisionByZero
    ensures r.Ok? ==> r.value.rowCount == rowCount
  {
    if colCount == 0 then Err(DivisionByZero)
    else
      var batchRow := CeilDiv(config.batchSize, colCount);
      if batchRow == 0 then Err(DivisionByZero)
      else
        var batchCount := CeilDiv(rowCount, batchRow);
        if config.batchPerConnection == 0 then Err(DivisionByZero)
        else
          var threadCount := CeilDiv(batchCount, config.batchPerConnection);
          if threadCount == 0 then Err(DivisionByZero)
          else Ok(Plan(rowCount, batchRow, batchCount, threadCount, CeilDiv(batchCount, threadCount)))
  }

  /**
   * Each count of the plan is the ceiling of its quotient: batchRow rows hold at least
   * batchSize cells, batchCount batches at least rowCount rows, threadCount workers of
   * batchPerConnection batches at least batchCount batches, and so do threadCount workers
   * of batchInThread batches; each is the least such count.
   */
  lemma PlanBounds(rowCount: nat, colCount: nat, config: BatchConfig)
    requires MakePlan(rowCount, colCount, config).Ok?
    ensures var p := MakePlan(rowCount, colCount, config).value;
      && p.batchRow * colCount >= config.batchSize > (p.batchRow - 1) * colCount
      && p.batchCount * p.batchRow >= rowCount > (p.batchCount - 1) * p.batchRow
      && p.threadCount * config.batchPerConnection >= p.batchCount
      && p.batchCount > (p.threadCount - 1) * config.batchPerConnection
      && p.batchInThread * p.threadCount >= p.batchCount
      && p.batchCount > (p.batchInThread - 1) * p.threadCount
  {
  }

  /** The rows one worker covers: batchInThread batches of batchRow rows. */
  function Span(p: Plan): nat
  {
    p.batchInThread * p.batchRow
  }

  /** What makes the worker ranges tile [0, rowCount): only the last one is partial. */
  predicate Tiling(p: Plan)
  {
    && p.batchRow >= 1 && p.batchInThread >= 1 && p.threadCount >= 1
    && (p.threadCount - 1) * Span(p) < p.rowCount <= p.threadCount * Span(p)
  }

  lemma MulLe(a: nat, b: nat, c: nat)
    requires a <= b
    ensures a * c <= b * c
  {
  }

  /** No worker holds more batches than a connection is configured for. */
  lemma BatchesPerWorker(bc: nat, tc: nat, bit: nat, w: nat)
    requires tc >= 1 && w >= 1
    requires bit * tc >= bc > (bit - 1) * tc && tc * w >= bc
    ensures bit <= w
  {
    if bit > w {
      MulLe(w, bit - 1, tc);
    }
  }

  /** The first tc - 1 workers hold fewer batches than there are. */
  lemma BatchesBeforeLast(bc: nat, tc: nat, bit: nat, w: nat)
    requires tc >= 1 && bit <= w && bc > (tc - 1) * w
    ensures (tc - 1) * bit <= bc - 1
  {
    MulLe(bit, w, tc - 1);
    assert (tc - 1) * bit == bit * (tc - 1);
    assert (tc - 1) * w == w * (tc - 1);
  }

  lemma MulAssoc(a: nat, b: nat, c: nat)
    ensures a * (b * c) == (a * b) * c
  {
  }

  /** Batches of br rows, bit of them per worker: the ranges cover rowCount, the last one partly. */
  lemma RowsCovered(rowCount: nat, bc: nat, tc: nat, bit: nat, br: nat)
    requires tc >= 1 && bc >= 1
    requires bc * br >= rowCount > (bc - 1) * br
    requires (tc - 1) * bit <= bc - 1 && tc * bit >= bc
    ensures (tc - 1) * (bit * br) < rowCount <= tc * (bit * br)
  {
    MulAssoc(tc - 1, bit, br);
    MulLe((tc - 1) * bit, bc - 1, br);
    MulAssoc(tc, bit, br);
    MulLe(bc, tc * bit, br);
  }

  /**
   * The arithmetic at the heart of the partition: no worker holds more batches than a
   * connection is configured for, and the first threadCount - 1 workers hold fewer batches
   * than there are, so the last worker always has at least one row.
   */
  lemma {:induction false} PlanTiles(rowCount: nat, colCount: nat, config: BatchConfig)
    requires MakePlan(rowCount, colCount, config).Ok?
    ensures var p := MakePlan(rowCount, colCount, config).value;
      && p.batchInThread <= config.batchPerConnection
      && (p.threadCount - 1) * p.batchInThread <= p.batchCount - 1
      && p.threadCount * p.batchInThread >= p.batchCount
      && Tiling(p)
  {
    var p := MakePlan(rowCount, colCount, config).value;
    PlanBounds(rowCount, colCount, config);
    var w := config.batchPerConnection;
    var bc, tc, bit, br := p.batchCount, p.threadCount, p.batchInThread, p.batchRow;
    assert tc * bit >= bc by {
      assert bit * tc == tc * bit;
    }
    BatchesPerWorker(bc, tc, bit, w);
    BatchesBeforeLast(bc, tc, bit, w);
    RowsCovered(rowCount, bc, tc, bit, br);
  }

  function WorkerStart(p: Plan, i: nat): nat
  {
    i * Span(p)
  }

  /** threadrowcount: a full span, except the remainder for the last worker. */
  function WorkerRowCount(p: Plan, i: nat): nat
    requires Span(p) > 0
  {
    var remaining := p.rowCount % Span(p);
    if i == p.threadCount - 1 && remaining > 0 then remaining else Span(p)
  }

  function WorkerEnd(p: Plan, i: nat): nat
    requires Span(p) > 0
  {
    WorkerStart(p, i) + WorkerRowCount(p, i)
  }

  /** Euclidean division is determined by quotient and remainder. */
  lemma DivModUnique(l: int, b: int, q: int, r: int)
    requires b > 0 && 0 <= r < b && l == q * b + r
    ensures l / b == q && l % b == r
  {
    var q', r' := l / b, l % b;
    assert l == q' * b + r';
    if q > q' {
      assert q * b - q' * b == (q - q') * b;
      MulGe(q - q', b);
    } else if q < q' {
      assert q' * b - q * b == (q' - q) * b;
      MulGe(q' - q, b);
    }
  }

  lemma MulGe(a: int, b: int)
    requires a >= 1 && b > 0
    ensures a * b >= b
  {
    assert a * b == (a - 1) * b + b;
  }

  /**
   * The worker ranges are contiguous and exactly cover [0, rowCount): each ends where the
   * next one starts, the last ends at rowCount, none is empty, and only the last can be
   * shorter than a full span.
   */
  lemma {:induction false} WorkerRanges(p: Plan, i: nat)
    requires Tiling(p) && i < p.threadCount
    ensures Span(p) > 0
    ensures 1 <= WorkerRowCount(p, i) <= Span(p)
    ensures WorkerRowCount(p, i) < Span(p) ==> i == p.threadCount - 1
    ensures i < p.threadCount - 1 ==> WorkerEnd(p, i) == WorkerStart(p, i + 1)
    ensures i == p.threadCount - 1 ==> WorkerEnd(p, i) == p.rowCount
    ensures WorkerStart(p, 0) == 0
  {
    var s := Span(p);
    MulGe(p.batchInThread, p.batchRow);
    var r := p.rowCount;
    var tc := p.threadCount;
    if i == tc - 1 {
      var low := r - (tc - 1) * s;
      assert 0 < low <= s by {
        assert tc * s == (tc - 1) * s + s;
      }
      if low < s {
        DivModUnique(r, s, tc - 1, low);
      } else {
        DivModUnique(r, s, tc, 0);
        assert r == (tc - 1) * s + s;
      }
    } else {
      assert (i + 1) * s == i * s + s;
    }
  }

  /** Ordinal o of [0, rowCount) belongs to worker o / Span(p), and to no other. */
  lemma {:induction false} OwnerOfRow(p: Plan, o: nat, i: nat)
    requires Tiling(p) && o < p.rowCount && i < p.threadCount
    ensures Span(p) > 0
    ensures WorkerStart(p, i) <= o < WorkerEnd(p, i) <==> o / Span(p) == i
    ensures o / Span(p) < p.threadCount
  {
    WorkerRanges(p, i);
    var s := Span(p);
    var q := o / s;
    assert o == q * s + o % s;
    if q >= p.threadCount {
      MulLe(p.threadCount, q, s);
    }
    if WorkerStart(p, i) <= o < WorkerEnd(p, i) {
      DivModUnique(o, s, i, o - i * s);
    }
    if q == i {
      assert WorkerStart(p, i) <= o;
      if i == p.threadCount - 1 {
        assert o < WorkerEnd(p, i);
      } else {
        assert o < i * s + s;
      }
    }
  }

  /** The flush condition of the insert loop: every batchRow-th row and the last one. */
  predicate FlushAfter(l: nat, count: nat, batchRow: nat)
    requires batchRow > 0
  {
    l == count - 1 || l % batchRow == batchRow - 1
  }

  /** How the position inside the current batch, l % b, moves from one row to the next. */
  lemma ModStep(l: nat, b: nat)
    requires b > 0
    ensures l % b == b - 1 ==> (l + 1) % b == 0
    ensures l % b != b - 1 ==> (l + 1) % b == l % b + 1
  {
    var q, m := l / b, l % b;
    assert l == q * b + m;
    if m == b - 1 {
      assert l + 1 == (q + 1) * b + 0;
      DivModUnique(l + 1, b, q + 1, 0);
    } else {
      DivModUnique(l + 1, b, q, m + 1);
    }
  }
}
