/**
 * The scatter/gather engine over the data table: the save path transposes the columns of a
 * group into one document per ordinal and inserts them from threadCount workers; the read
 * path selects the ordinal ranges back, merges them and detransposes them into series.
 * Workers run one after another in index order, the order in which their results are
 * awaited and merged.
 */
module DataRepository {
  import opened Domain
  import opened Partition
  import opened Pivot
  import opened Json
  import opened MetadataService

  // ---------------------------------------------------------------------------------------
  // The save path
  // ---------------------------------------------------------------------------------------

  /** The document of one ordinal: one put per series, in series order. */
  method BuildDocument(names: seq<string>, cols: seq<Values>, row: nat) returns (doc: Option<Document>)
    requires |names| == |cols|
    ensures doc.Some? <==> RowReady(cols, row)
    ensures doc.Some? ==> doc.value == RowDocument(names, cols, row)
  {
    var tsdata: Document := map[];
    var m := 0;
    while m < |cols|
      invariant 0 <= m <= |cols|
      invariant forall j :: 0 <= j < m ==> row < Length(cols[j])
      invariant RowReady(cols, row) ==> tsdata == DocumentPrefix(names, cols, row, m)
    {
      if row >= Length(cols[m]) {
        return None;
      }
      tsdata := tsdata[names[m] := CellOf(cols[m], row)];
      m := m + 1;
    }
    return Some(tsdata);
  }

  /** The batch sizes of the flushes: none empty, none over batchRow, all full but the last. */
  ghost predicate Sized(flushes: seq<seq<(int, Document)>>, batchRow: nat, lastFull: bool)
  {
    forall k :: 0 <= k < |flushes| ==>
      1 <= |flushes[k]| <= batchRow && (lastFull || k < |flushes| - 1 ==> |flushes[k]| == batchRow)
  }

  lemma SizedSnoc(flushes: seq<seq<(int, Document)>>, batch: seq<(int, Document)>, batchRow: nat)
    requires Sized(flushes, batchRow, true) && 1 <= |batch| <= batchRow
    ensures Sized(flushes + [batch], batchRow, |batch| == batchRow)
  {
  }

  /**
   * The state of the insert loop after l rows: the flushed batches followed by the open
   * batch are the first l rows of the range, the open batch holds l % batchRow rows and is
   * empty at the end, and the written map is what the flushes wrote.
   */
  ghost predicate Staging(names: seq<string>, cols: seq<Values>, start: nat, count: nat, batchRow: nat, l: nat,
                          batch: seq<(int, Document)>, flushes: seq<seq<(int, Document)>>, written: map<int, Document>)
    requires |names| == |cols| && batchRow > 0
  {
    && l <= count
    && RangeReady(cols, start, start + l)
    && (l < count ==> |batch| == l % batchRow)
    && (l == count ==> batch == [])
    && Flatten(flushes) + batch == RowsSeq(names, cols, start, l)
    && written == ToMap(Flatten(flushes))
    && Sized(flushes, batchRow, l < count)
  }

  /** One more row in the batch: the rows staged so far are the range's first l + 1 rows. */
  lemma {:induction false} StageRow(names: seq<string>, cols: seq<Values>, start: nat, l: nat,
                                    staged: seq<(int, Document)>, batch: seq<(int, Document)>, doc: Document)
    requires |names| == |cols| && RangeReady(cols, start, start + l) && RowReady(cols, start + l)
    requires staged + batch == RowsSeq(names, cols, start, l) && doc == RowDocument(names, cols, start + l)
    ensures RangeReady(cols, start, start + l + 1)
    ensures staged + (batch + [(start + l, doc)]) == RowsSeq(names, cols, start, l + 1)
  {
    assert staged + (batch + [(start + l, doc)]) == (staged + batch) + [(start + l, doc)];
  }

  /** A row that does not end a batch stays in the open batch. */
  lemma {:induction false} KeepRow(names: seq<string>, cols: seq<Values>, start: nat, count: nat, batchRow: nat, l: nat,
                                   batch: seq<(int, Document)>, flushes: seq<seq<(int, Document)>>,
                                   written: map<int, Document>, doc: Document, open: seq<(int, Document)>)
    requires |names| == |cols| && batchRow > 0
    requires Staging(names, cols, start, count, batchRow, l, batch, flushes, written) && l < count
    requires RowReady(cols, start + l) && doc == RowDocument(names, cols, start + l)
    requires !(l == count - 1 || l % batchRow == batchRow - 1)
    requires open == batch + [(start + l, doc)]
    ensures Staging(names, cols, start, count, batchRow, l + 1, open, flushes, written)
  {
    ModStep(l, batchRow);
    StageRow(names, cols, start, l, Flatten(flushes), batch, doc);
  }

  /** A row that ends a batch is flushed with it. */
  lemma {:induction false} FlushRow(names: seq<string>, cols: seq<Values>, start: nat, count: nat, batchRow: nat, l: nat,
                                    batch: seq<(int, Document)>, flushes: seq<seq<(int, Document)>>,
                                    written: map<int, Document>, doc: Document, full: seq<(int, Document)>)
    requires |names| == |cols| && batchRow > 0
    requires Staging(names, cols, start, count, batchRow, l, batch, flushes, written) && l < count
    requires RowReady(cols, start + l) && doc == RowDocument(names, cols, start + l)
    requires l == count - 1 || l % batchRow == batchRow - 1
    requires full == batch + [(start + l, doc)]
    ensures Staging(names, cols, start, count, batchRow, l + 1, [], flushes + [full], written + ToMap(full))
  {
    ModStep(l, batchRow);
    StageRow(names, cols, start, l, Flatten(flushes), batch, doc);
    FlattenSnoc(flushes, full);
    ToMapConcat(Flatten(flushes), full);
    SizedSnoc(flushes, full, batchRow);
    assert Flatten(flushes + [full]) + [] == Flatten(flushes + [full]);
  }

  /**
   * The insert loop of one worker, inside its transaction: rows start .. start + count - 1
   * are added to the batch, and the batch is flushed after every batchRow-th row and after
   * the last one. The result is what the flushes wrote, or None when the getter failed.
   */
  method InsertRange(names: seq<string>, cols: seq<Values>, start: nat, count: nat, batchRow: nat)
    returns (staged: Option<map<int, Document>>, ghost flushes: seq<seq<(int, Document)>>)
    requires |names| == |cols| && batchRow > 0
    ensures staged.Some? <==> RangeReady(cols, start, start + count)
    ensures staged.Some? ==> staged.value == RangeDocs(names, cols, start, start + count)
    ensures staged.Some? ==> Flatten(flushes) == RowsSeq(names, cols, start, count)
    ensures staged.Some? ==> Sized(flushes, batchRow, false)
  {
    var written: map<int, Document> := map[];
    var batch: seq<(int, Document)> := [];
    flushes := [];
    var l := 0;
    while l < count
      invariant Staging(names, cols, start, count, batchRow, l, batch, flushes, written)
      decreases count - l
    {
      var row := start + l;
      var doc := BuildDocument(names, cols, row);
      if doc.None? {
        assert !RangeReady(cols, start, start + count) by {
          assert start <= row < start + count && !RowReady(cols, row);
        }
        return None, flushes;
      }
      if FlushAfter(l, count, batchRow) {
        var full := batch + [(row, doc.value)];
        FlushRow(names, cols, start, count, batchRow, l, batch, flushes, written, doc.value, full);
        written := written + ToMap(full);
        flushes := flushes + [full];
        batch := [];
      } else {
        var open := batch + [(row, doc.value)];
        KeepRow(names, cols, start, count, batchRow, l, batch, flushes, written, doc.value, open);
        batch := open;
      }
      l := l + 1;
    }
    StagingDone(names, cols, start, count, batchRow, batch, flushes, written);
    return Some(written), flushes;
  }

  /** After the last row: the flushes wrote the range's documents, every batch full but the last. */
  lemma StagingDone(names: seq<string>, cols: seq<Values>, start: nat, count: nat, batchRow: nat,
                    batch: seq<(int, Document)>, flushes: seq<seq<(int, Document)>>, written: map<int, Document>)
    requires |names| == |cols| && batchRow > 0
    requires Staging(names, cols, start, count, batchRow, count, batch, flushes, written)
    ensures RangeReady(cols, start, start + count)
    ensures written == RangeDocs(names, cols, start, start + count)
    ensures Flatten(flushes) == RowsSeq(names, cols, start, count)
    ensures Sized(flushes, batchRow, false)
  {
    ToMapRowsSeq(names, cols, start, count);
    assert Flatten(flushes) + [] == Flatten(flushes);
  }

  /** What doSave computes before a connection is used: the plan, the names, the columns. */
  function SaveSetup(series: seq<TimeSeries>, config: BatchConfig): (r: Result<(Plan, seq<string>, seq<Values>)>)
    ensures series == [] ==> r == Err(EmptySeriesList)
    ensures series != [] && MakePlan(series[0].meta.index.pointCount, |series|, config).Err? ==> r == Err(DivisionByZero)
    ensures series != [] && MakePlan(series[0].meta.index.pointCount, |series|, config).Ok? ==>
      (r.Ok? <==> Columns(series).Ok?) && (r.Err? ==> Columns(series) == Err(r.error))
    ensures r.Ok? ==> series != [] && MakePlan(series[0].meta.index.pointCount, |series|, config) == Ok(r.value.0)
    ensures r.Ok? ==> r.value.1 == Names(series) && Columns(series) == Ok(r.value.2)
  {
    if series == [] then Err(EmptySeriesList)
    else match MakePlan(series[0].meta.index.pointCount, |series|, config)
      case Err(e) => Err(e)
      case Ok(p) =>
        match Columns(series)
        case Err(e) => Err(e)
        case Ok(cols) => Ok((p, Names(series), cols))
  }

  /** A well-formed setup: the plan tiles the range and there is one column per name. */
  predicate Setup(p: Plan, names: seq<string>, cols: seq<Values>)
  {
    Tiling(p) && |names| == |cols|
  }

  lemma SetupOfSaveSetup(series: seq<TimeSeries>, config: BatchConfig)
    requires SaveSetup(series, config).Ok?
    ensures var (p, names, cols) := SaveSetup(series, config).value; Setup(p, names, cols)
  {
    PlanTiles(series[0].meta.index.pointCount, |series|, config);
  }

  /**
   * Worker i commits when no fault hits its connection, the getter serves every row of its
   * range, and no row of its range exists yet (the (group, ordinal) key is unique).
   */
  predicate Commits(t: Table, uuid: Uuid, p: Plan, cols: seq<Values>, faults: set<nat>, i: nat)
    requires Tiling(p)
  {
    WorkerRanges(p, 0);
    i !in faults && RangeReady(cols, WorkerStart(p, i), WorkerEnd(p, i)) &&
    forall o :: WorkerStart(p, i) <= o < WorkerEnd(p, i) ==> o !in RowsOf(t, uuid)
  }

  function WorkerDocs(p: Plan, names: seq<string>, cols: seq<Values>, i: nat): map<int, Document>
    requires Setup(p, names, cols) && RangeReady(cols, WorkerStart(p, i), WorkerEnd(p, i))
  {
    RangeDocs(names, cols, WorkerStart(p, i), WorkerEnd(p, i))
  }

  /** The table after workers 0 .. k - 1 have run: a committed worker adds its documents. */
  function Written(t: Table, uuid: Uuid, p: Plan, names: seq<string>, cols: seq<Values>, faults: set<nat>, k: nat): Table
    requires Setup(p, names, cols)
  {
    if k == 0 then t
    else
      var before := Written(t, uuid, p, names, cols, faults, k - 1);
      if Commits(t, uuid, p, cols, faults, k - 1) then
        before[uuid := RowsOf(before, uuid) + WorkerDocs(p, names, cols, k - 1)]
      else before
  }

  /** The first worker below k that fails, whose exception the caller sees. */
  function FirstFailure(t: Table, uuid: Uuid, p: Plan, cols: seq<Values>, faults: set<nat>, k: nat): Option<nat>
    requires Tiling(p)
  {
    if k == 0 then None
    else match FirstFailure(t, uuid, p, cols, faults, k - 1)
      case Some(i) => Some(i)
      case None => if Commits(t, uuid, p, cols, faults, k - 1) then None else Some(k - 1)
  }

  /** No failure means every worker committed; a failure names a worker that did not, all before it did. */
  lemma {:induction false} FirstFailureMeaning(t: Table, uuid: Uuid, p: Plan, cols: seq<Values>, faults: set<nat>, k: nat)
    requires Tiling(p)
    ensures var r := FirstFailure(t, uuid, p, cols, faults, k);
      r.None? <==> forall i :: 0 <= i < k ==> Commits(t, uuid, p, cols, faults, i)
    ensures var r := FirstFailure(t, uuid, p, cols, faults, k);
      r.Some? ==> r.value < k && !Commits(t, uuid, p, cols, faults, r.value) &&
                  forall i :: 0 <= i < r.value ==> Commits(t, uuid, p, cols, faults, i)
  {
    if k > 0 {
      FirstFailureMeaning(t, uuid, p, cols, faults, k - 1);
    }
  }

  /** The table and the outcome of doSave. */
  function SaveSpec(t: Table, config: BatchConfig, uuid: Uuid, series: seq<TimeSeries>, faults: set<nat>): (Table, Result<()>)
  {
    var setup := SaveSetup(series, config);
    if setup.Err? then (t, Err(setup.error))
    else
      var (p, names, cols) := setup.value;
      SetupOfSaveSetup(series, config);
      (Written(t, uuid, p, names, cols, faults, p.threadCount), Outcome(FirstFailure(t, uuid, p, cols, faults, p.threadCount)))
  }

  /** The caller sees the exception of the first failed worker, if any. */
  function Outcome(failure: Option<nat>): (r: Result<()>)
    ensures r.Ok? <==> failure.None?
  {
    if failure.None? then Ok(()) else Err(StorageFailure(failure.value))
  }

  /** Workers 0 .. k - 1 touch neither other groups nor ordinals from k * Span(p) on. */
  lemma {:induction false} WrittenFrame(t: Table, uuid: Uuid, p: Plan, names: seq<string>, cols: seq<Values>,
                                        faults: set<nat>, k: nat)
    requires Setup(p, names, cols) && k <= p.threadCount
    ensures forall g :: g != uuid ==> RowsOf(Written(t, uuid, p, names, cols, faults, k), g) == RowsOf(t, g)
    ensures forall g :: g != uuid && g in t ==>
      (g in Written(t, uuid, p, names, cols, faults, k) && Written(t, uuid, p, names, cols, faults, k)[g] == t[g])
    ensures forall o :: o >= k * Span(p) ==>
      (o in RowsOf(Written(t, uuid, p, names, cols, faults, k), uuid) <==> o in RowsOf(t, uuid)) &&
      (o in RowsOf(t, uuid) ==> RowsOf(Written(t, uuid, p, names, cols, faults, k), uuid)[o] == RowsOf(t, uuid)[o])
  {
    if k > 0 {
      WrittenFrame(t, uuid, p, names, cols, faults, k - 1);
      WorkerRanges(p, k - 1);
      assert (k - 1) * Span(p) + Span(p) == k * Span(p);
      MulLe(k - 1, k, Span(p));
    }
  }

  /**
   * The meaning of a save: ordinal o of the group holds a document afterwards exactly when
   * it held one before or it lies in [0, rowCount) and the worker owning it committed; a
   * committed worker never overwrites, and its documents are the documents of its rows.
   */
  lemma {:induction false} WrittenRows(t: Table, uuid: Uuid, p: Plan, names: seq<string>, cols: seq<Values>,
                                       faults: set<nat>, k: nat, o: int)
    requires Setup(p, names, cols) && k <= p.threadCount
    ensures Span(p) > 0
    ensures var after := RowsOf(Written(t, uuid, p, names, cols, faults, k), uuid);
      (o in after <==> o in RowsOf(t, uuid) ||
                       (0 <= o < p.rowCount && o / Span(p) < k && Commits(t, uuid, p, cols, faults, o / Span(p)))) &&
      (o in RowsOf(t, uuid) ==> after[o] == RowsOf(t, uuid)[o]) &&
      (o !in RowsOf(t, uuid) && o in after ==> 0 <= o && RowReady(cols, o) && after[o] == RowDocument(names, cols, o))
  {
    WorkerRanges(p, 0);
    if k > 0 {
      var i := k - 1;
      WrittenRows(t, uuid, p, names, cols, faults, i, o);
      var before := RowsOf(Written(t, uuid, p, names, cols, faults, i), uuid);
      var after := RowsOf(Written(t, uuid, p, names, cols, faults, k), uuid);
      if Commits(t, uuid, p, cols, faults, i) {
        assert after == before + WorkerDocs(p, names, cols, i);
        InWorkerRange(p, i, o);
      } else {
        assert after == before;
      }
    }
  }

  /** Ordinal o lies in the range of worker i exactly when it is a row owned by i. */
  lemma InWorkerRange(p: Plan, i: nat, o: int)
    requires Tiling(p) && i < p.threadCount
    ensures Span(p) > 0
    ensures WorkerStart(p, i) <= o < WorkerEnd(p, i) <==> 0 <= o < p.rowCount && o / Span(p) == i
  {
    WorkerRanges(p, i);
    LastEnd(p, i);
    if 0 <= o < p.rowCount {
      OwnerOfRow(p, o, i);
    }
  }

  /** Every worker range ends at or before rowCount. */
  lemma {:induction false} LastEnd(p: Plan, i: nat)
    requires Tiling(p) && i < p.threadCount
    ensures Span(p) > 0 && WorkerEnd(p, i) <= p.rowCount
    decreases p.threadCount - i
  {
    WorkerRanges(p, i);
    if i < p.threadCount - 1 {
      LastEnd(p, i + 1);
      WorkerRanges(p, i + 1);
    }
  }

  /**
   * One worker of the save loop: it commits exactly when Commits says so, since its staged
   * ordinals clash with the group's rows after the earlier workers exactly when they clash
   * with the rows before the save; a commit adds its documents, a failure is recorded
   * unless an earlier worker failed first.
   */
  lemma SaveStep(t: Table, uuid: Uuid, p: Plan, names: seq<string>, cols: seq<Values>, faults: set<nat>,
                 i: nat, staged: Option<map<int, Document>>)
    requires Setup(p, names, cols) && i < p.threadCount
    requires Span(p) > 0
    requires staged.Some? <==> RangeReady(cols, WorkerStart(p, i), WorkerEnd(p, i))
    requires staged.Some? ==> staged.value == RangeDocs(names, cols, WorkerStart(p, i), WorkerEnd(p, i))
    ensures var before := Written(t, uuid, p, names, cols, faults, i);
      var committed := staged.Some? && i !in faults && staged.value.Keys !! RowsOf(before, uuid).Keys;
      && (committed <==> Commits(t, uuid, p, cols, faults, i))
      && (committed ==> Written(t, uuid, p, names, cols, faults, i + 1) == before[uuid := RowsOf(before, uuid) + staged.value])
      && (!committed ==> Written(t, uuid, p, names, cols, faults, i + 1) == before)
      && (committed || FirstFailure(t, uuid, p, cols, faults, i).Some? ==>
            FirstFailure(t, uuid, p, cols, faults, i + 1) == FirstFailure(t, uuid, p, cols, faults, i))
      && (!committed && FirstFailure(t, uuid, p, cols, faults, i).None? ==>
            FirstFailure(t, uuid, p, cols, faults, i + 1) == Some(i))
  {
    WorkerRanges(p, i);
    WrittenFrame(t, uuid, p, names, cols, faults, i);
  }

  /** On a group without rows, with no faults and columns long enough, every worker commits. */
  lemma FreshCommits(t: Table, uuid: Uuid, p: Plan, cols: seq<Values>)
    requires Tiling(p) && RowsOf(t, uuid) == map[] && RangeReady(cols, 0, p.rowCount)
    ensures forall i :: 0 <= i < p.threadCount ==> Commits(t, uuid, p, cols, {}, i)
  {
    forall i | 0 <= i < p.threadCount ensures Commits(t, uuid, p, cols, {}, i) {
      WorkerRanges(p, i);
      LastEnd(p, i);
      assert WorkerStart(p, i) >= 0;
    }
  }

  lemma FreshRow(t: Table, uuid: Uuid, p: Plan, names: seq<string>, cols: seq<Values>, o: int)
    requires Setup(p, names, cols) && RowsOf(t, uuid) == map[] && RangeReady(cols, 0, p.rowCount)
    ensures var after := RowsOf(Written(t, uuid, p, names, cols, {}, p.threadCount), uuid);
      (o in after <==> 0 <= o < p.rowCount) && (o in after ==> after[o] == RowDocument(names, cols, o))
  {
    FreshCommits(t, uuid, p, cols);
    WrittenRows(t, uuid, p, names, cols, {}, p.threadCount, o);
    if 0 <= o < p.rowCount {
      OwnerOfRow(p, o, 0);
    }
  }

  /** On a group without rows and with no faults, a save stores exactly one document per ordinal. */
  lemma SaveFresh(t: Table, uuid: Uuid, p: Plan, names: seq<string>, cols: seq<Values>)
    requires Setup(p, names, cols) && RowsOf(t, uuid) == map[] && RangeReady(cols, 0, p.rowCount)
    ensures FirstFailure(t, uuid, p, cols, {}, p.threadCount).None?
    ensures RowsOf(Written(t, uuid, p, names, cols, {}, p.threadCount), uuid) == RangeDocs(names, cols, 0, p.rowCount)
  {
    FreshCommits(t, uuid, p, cols);
    FirstFailureMeaning(t, uuid, p, cols, {}, p.threadCount);
    var after := RowsOf(Written(t, uuid, p, names, cols, {}, p.threadCount), uuid);
    var docs := RangeDocs(names, cols, 0, p.rowCount);
    forall o | true ensures (o in after <==> o in docs) && (o in after ==> after[o] == docs[o]) {
      FreshRow(t, uuid, p, names, cols, o);
    }
  }

  // ---------------------------------------------------------------------------------------
  // The read path
  // ---------------------------------------------------------------------------------------

  /**
   * One read worker: the same range select runs batchInThread times, each result row put
   * into the worker's insertion-ordered map under its ordinal.
   */
  method ReadWorker(stored: map<int, Document>, names: Option<seq<string>>, lo: int, hi: int, passes: nat)
    returns (threadres: seq<(int, Document)>)
    ensures threadres == if passes == 0 then [] else Fetch(stored, names, lo, hi)
  {
    threadres := [];
    var l := 0;
    while l < passes
      invariant 0 <= l <= passes
      invariant threadres == if l == 0 then [] else Fetch(stored, names, lo, hi)
    {
      var resultSet := Fetch(stored, names, lo, hi);
      FetchMeaning(stored, names, lo, hi);
      var j := 0;
      while j < |resultSet|
        invariant 0 <= j <= |resultSet|
        invariant threadres == if l == 0 then resultSet[..j] else resultSet
      {
        if l == 0 {
          PutFreshPrefix(resultSet, j);
        } else {
          PutPresent(resultSet, j);
        }
        threadres := Put(threadres, resultSet[j].0, resultSet[j].1);
        j := j + 1;
      }
      assert resultSet[..|resultSet|] == resultSet;
      l := l + 1;
    }
  }

  /** Where the ranges of workers 0 .. i - 1 end. */
  function Reached(p: Plan, i: nat): nat
    requires Span(p) > 0
  {
    if i == 0 then 0 else WorkerEnd(p, i - 1)
  }

  /** Merging worker i's map into the rows of the workers before it extends them to its range end. */
  lemma {:induction false} MergeStep(stored: map<int, Document>, names: Option<seq<string>>, p: Plan, i: nat,
                                     res: seq<(int, Document)>, threadres: seq<(int, Document)>)
    requires Tiling(p) && i < p.threadCount
    requires Span(p) > 0 && res == Fetch(stored, names, 0, Reached(p, i))
    requires threadres == Fetch(stored, names, WorkerStart(p, i), WorkerEnd(p, i))
    ensures PutAll(res, threadres) == Fetch(stored, names, 0, Reached(p, i + 1))
  {
    WorkerRanges(p, i);
    assert Reached(p, i) == WorkerStart(p, i) by {
      if i > 0 { WorkerRanges(p, i - 1); }
    }
    FetchMeaning(stored, names, 0, Reached(p, i));
    FetchMeaning(stored, names, WorkerStart(p, i), WorkerEnd(p, i));
    if res != [] && threadres != [] {
      assert res[|res| - 1].0 < Reached(p, i) <= threadres[0].0;
    }
    PutAllAppend(res, threadres);
    FetchSplit(stored, names, 0, WorkerStart(p, i), WorkerEnd(p, i));
  }

  /** The first of the read workers [0, k), in await order, whose connection or query fails. */
  function FirstFault(faults: set<nat>, k: nat): Option<nat>
  {
    if k == 0 then None
    else match FirstFault(faults, k - 1)
      case Some(i) => Some(i)
      case None => if k - 1 in faults then Some(k - 1) else None
  }

  lemma {:induction false} FirstFaultMeaning(faults: set<nat>, k: nat)
    ensures FirstFault(faults, k).None? <==> forall i :: 0 <= i < k ==> i !in faults
    ensures FirstFault(faults, k).Some? ==>
      FirstFault(faults, k).value < k && FirstFault(faults, k).value in faults &&
      forall i :: 0 <= i < FirstFault(faults, k).value ==> i !in faults
  {
    if k > 0 {
      FirstFaultMeaning(faults, k - 1);
    }
  }

  /**
   * The read workers' maps, merged in thread order: the rows of [0, rowCount) in order,
   * unless a worker fails, when the first failed worker's exception reaches the caller.
   */
  method Gather(stored: map<int, Document>, names: Option<seq<string>>, p: Plan, faults: set<nat>)
    returns (res: Result<seq<(int, Document)>>)
    requires Tiling(p)
    ensures FirstFault(faults, p.threadCount).Some? ==> res == Err(StorageFailure(FirstFault(faults, p.threadCount).value))
    ensures FirstFault(faults, p.threadCount).None? ==> res == Ok(Fetch(stored, names, 0, p.rowCount))
  {
    FirstFaultMeaning(faults, p.threadCount);
    WorkerRanges(p, p.threadCount - 1);
    if p.threadCount > 1 {
      var merged := [];
      var i := 0;
      while i < p.threadCount
        invariant 0 <= i <= p.threadCount
        invariant forall j :: 0 <= j < i ==> j !in faults
        invariant merged == Fetch(stored, names, 0, Reached(p, i))
      {
        if i in faults {
          return Err(StorageFailure(i));
        }
        WorkerRanges(p, i);
        var threadres := ReadWorker(stored, names, WorkerStart(p, i), WorkerEnd(p, i), p.batchInThread);
        MergeStep(stored, names, p, i, merged, threadres);
        merged := PutAll(merged, threadres);
        i := i + 1;
      }
      res := Ok(merged);
    } else {
      if 0 in faults {
        return Err(StorageFailure(0));
      }
      WorkerRanges(p, 0);
      var threadres := ReadWorker(stored, names, WorkerStart(p, 0), WorkerEnd(p, 0), p.batchInThread);
      res := Ok(threadres);
    }
  }

  /** The insertion into the transposed map of some of the keys of one document. */
  function PartialAppend(data: map<string, seq<Cell>>, doc: Document, done: set<string>): map<string, seq<Cell>>
    requires done <= doc.Keys
  {
    map n | n in data.Keys + done ::
      (if n in data then data[n] else []) + (if n in done then [doc[n]] else [])
  }

  lemma PartialNone(data: map<string, seq<Cell>>, doc: Document)
    ensures PartialAppend(data, doc, {}) == data
  {
    var r := PartialAppend(data, doc, {});
    assert r.Keys == data.Keys;
    forall n | n in r ensures r[n] == data[n] {
      assert r[n] == data[n] + [];
    }
  }

  lemma PartialStep(before: map<string, seq<Cell>>, doc: Document, done: set<string>, name: string)
    requires done <= doc.Keys && name in doc && name !in done
    ensures var data := PartialAppend(before, doc, done);
      data[name := (if name in data then data[name] else []) + [doc[name]]] == PartialAppend(before, doc, done + {name})
  {
    var data := PartialAppend(before, doc, done);
    var l := data[name := (if name in data then data[name] else []) + [doc[name]]];
    var r := PartialAppend(before, doc, done + {name});
    assert l.Keys == r.Keys;
    forall n | n in l ensures l[n] == r[n] {
      if n == name {
        assert (if name in data then data[name] else []) == (if name in before then before[name] else []);
      }
    }
  }

  lemma PartialAll(before: map<string, seq<Cell>>, doc: Document)
    ensures PartialAppend(before, doc, doc.Keys) == AppendRow(before, doc)
  {
    var l, r := PartialAppend(before, doc, doc.Keys), AppendRow(before, doc);
    assert l.Keys == r.Keys;
    forall n | n in l ensures l[n] == r[n] {
    }
  }

  /** The detranspose loops: each document's entries appended to the lists of their names. */
  method Detranspose(res: seq<(int, Document)>) returns (data: map<string, seq<Cell>>)
    ensures data == Detransposed(res)
  {
    data := map[];
    var e := 0;
    while e < |res|
      invariant 0 <= e <= |res|
      invariant data == Detransposed(res[..e])
    {
      var dict := res[e].1;
      var remaining := dict.Keys;
      ghost var before, done := data, {};
      PartialNone(data, dict);
      while remaining != {}
        invariant done !! remaining && done + remaining == dict.Keys
        invariant data == PartialAppend(before, dict, done)
        decreases remaining
      {
        var name :| name in remaining;
        PartialStep(before, dict, done, name);
        data := data[name := (if name in data then data[name] else []) + [dict[name]]];
        remaining := remaining - {name};
        done := done + {name};
      }
      assert res[..e + 1][..e] == res[..e];
      PartialAll(before, dict);
      e := e + 1;
    }
    assert res[..|res|] == res;
  }

  function Chunk(values: Values, tryToCompress: bool): (c: DataChunk)
    ensures c.values == values
  {
    if tryToCompress then CompressionTried(values) else Uncompressed(values)
  }

  /** The values a transposed list holds as series values, for each element type. */
  function DoublesOf(cells: seq<Cell>): (r: Result<seq<DoubleValue>>)
    ensures r.Ok? <==> forall i :: 0 <= i < |cells| ==> !cells[i].CStr?
    ensures r.Ok? ==> |r.value| == |cells| && forall i :: 0 <= i < |cells| ==> DoubleCell(r.value[i]) == cells[i]
    ensures r.Err? ==> r.error == ClassCast
  {
    var rs := seq(|cells|, i requires 0 <= i < |cells| => CellDouble(cells[i]));
    assert forall i :: 0 <= i < |cells| ==> rs[i] == CellDouble(cells[i]);
    Collect(rs)
  }

  function StringsOf(cells: seq<Cell>): (r: Result<seq<Option<string>>>)
    ensures r.Ok? <==> forall i :: 0 <= i < |cells| ==> !cells[i].CNum?
    ensures r.Ok? ==> |r.value| == |cells| && forall i :: 0 <= i < |cells| ==> StringCell(r.value[i]) == cells[i]
    ensures r.Err? ==> r.error == ArrayStore
  {
    var rs := seq(|cells|, i requires 0 <= i < |cells| => CellString(cells[i]));
    assert forall i :: 0 <= i < |cells| ==> rs[i] == CellString(cells[i]);
    Collect(rs)
  }

  function CellsOf(v: Values): (r: seq<Cell>)
    ensures |r| == Length(v)
  {
    match v
    case Doubles(ds) => seq(|ds|, i requires 0 <= i < |ds| => DoubleCell(ds[i]))
    case Strings(ss) => seq(|ss|, i requires 0 <= i < |ss| => StringCell(ss[i]))
  }

  /**
   * One entry of the transposed map made a series: its metadata from the catalog, its
   * values cast to the metadata's type, null as NaN or as a missing string.
   */
  function SeriesOf(index: Index, catalog: Catalog, name: string, cells: seq<Cell>, tryToCompress: bool): (r: Result<TimeSeries>)
    ensures GetMetadata(index, catalog, name).Err? ==> r == Err(GetMetadata(index, catalog, name).error)
    ensures GetMetadata(index, catalog, name).Ok? && !Handled(GetMetadata(index, catalog, name).value.dataType) ==>
      r == Err(UnsupportedRead(GetMetadata(index, catalog, name).value.dataType))
    ensures GetMetadata(index, catalog, name).Ok? && GetMetadata(index, catalog, name).value.dataType == DoubleType ==>
      (r.Ok? <==> DoublesOf(cells).Ok?) && (r.Err? ==> r.error == ClassCast)
    ensures GetMetadata(index, catalog, name).Ok? && GetMetadata(index, catalog, name).value.dataType == StringType ==>
      (r.Ok? <==> StringsOf(cells).Ok?) && (r.Err? ==> r.error == ArrayStore)
    ensures r.Ok? ==> r.value.meta == GetMetadata(index, catalog, name).value && CellsOf(r.value.chunk.values) == cells
    ensures r.Ok? ==> Fits(r.value.meta.dataType, r.value.chunk.values)
    ensures r.Ok? ==> r.value.chunk == Chunk(r.value.chunk.values, tryToCompress)
  {
    match GetMetadata(index, catalog, name)
    case Err(e) => Err(e)
    case Ok(meta) =>
      match meta.dataType
      case DoubleType =>
        (match DoublesOf(cells)
         case Err(e) => Err(e)
         case Ok(ds) => Ok(TimeSeries(meta, Chunk(Doubles(ds), tryToCompress))))
      case StringType =>
        (match StringsOf(cells)
         case Err(e) => Err(e)
         case Ok(ss) => Ok(TimeSeries(meta, Chunk(Strings(ss), tryToCompress))))
      case OtherType(_) => Err(UnsupportedRead(meta.dataType))
  }

  /** The outcome of turning every entry of the transposed map into a series. */
  predicate Materialised(index: Index, catalog: Catalog, data: map<string, seq<Cell>>, tryToCompress: bool,
                         r: Result<map<string, TimeSeries>>)
  {
    && (r.Ok? <==> forall n :: n in data ==> SeriesOf(index, catalog, n, data[n], tryToCompress).Ok?)
    && (r.Ok? ==> r.value.Keys == data.Keys &&
                  forall n :: n in data ==> SeriesOf(index, catalog, n, data[n], tryToCompress) == Ok(r.value[n]))
    && (r.Err? ==> exists n :: n in data && SeriesOf(index, catalog, n, data[n], tryToCompress) == Err(r.error))
  }

  /** The series loop over the transposed map, in its iteration order; the first failure throws. */
  method Materialise(index: Index, catalog: Catalog, data: map<string, seq<Cell>>, tryToCompress: bool)
    returns (r: Result<map<string, TimeSeries>>)
    ensures Materialised(index, catalog, data, tryToCompress, r)
  {
    var ret: map<string, TimeSeries> := map[];
    var remaining := data.Keys;
    while remaining != {}
      invariant remaining <= data.Keys
      invariant ret.Keys == data.Keys - remaining
      invariant forall n :: n in ret ==> SeriesOf(index, catalog, n, data[n], tryToCompress) == Ok(ret[n])
      decreases remaining
    {
      var name :| name in remaining;
      var s := SeriesOf(index, catalog, name, data[name], tryToCompress);
      if s.Err? {
        return Err(s.error);
      }
      ret := ret[name := s.value];
      remaining := remaining - {name};
    }
    return Ok(ret);
  }

  /** The number of columns the read plan is computed for. */
  function ReadColumns(catalog: Catalog, names: Option<seq<string>>): nat
  {
    if names.Some? then |names.value| else |catalog|
  }

  // ---------------------------------------------------------------------------------------
  // The repository
  // ---------------------------------------------------------------------------------------

  class TimeSeriesDataRepository {
    /** The data table: group id -> ordinal -> document. */
    var rows: Table
    const writeConfig: BatchConfig
    const readConfig: BatchConfig

    constructor (writeConfig: BatchConfig, readConfig: BatchConfig)
      ensures rows == map[] && this.writeConfig == writeConfig && this.readConfig == readConfig
    {
      rows := map[];
      this.writeConfig := writeConfig;
      this.readConfig := readConfig;
    }

    /**
     * doSave. faults names the workers whose connection or commit fails; every worker runs
     * and a failed worker rolls back alone.
     */
    method Save(uuid: Uuid, series: seq<TimeSeries>, faults: set<nat>) returns (r: Result<()>)
      modifies this
      ensures (rows, r) == SaveSpec(old(rows), writeConfig, uuid, series, faults)
    {
      var setup := SaveSetup(series, writeConfig);
      if setup.Err? {
        return Err(setup.error);
      }
      var p, names, cols := setup.value.0, setup.value.1, setup.value.2;
      SetupOfSaveSetup(series, writeConfig);
      ghost var t := rows;
      var failure: Option<nat> := None;
      var i := 0;
      while i < p.threadCount
        invariant 0 <= i <= p.threadCount
        invariant rows == Written(t, uuid, p, names, cols, faults, i)
        invariant failure == FirstFailure(t, uuid, p, cols, faults, i)
      {
        WorkerRanges(p, i);
        var staged, flushes := InsertRange(names, cols, WorkerStart(p, i), WorkerRowCount(p, i), p.batchRow);
        SaveStep(t, uuid, p, names, cols, faults, i, staged);
        var current := RowsOf(rows, uuid);
        if staged.Some? && i !in faults && staged.value.Keys !! current.Keys {
          rows := rows[uuid := current + staged.value];
        } else if failure.None? {
          failure := Some(i);
        }
        i := i + 1;
      }
      assert SaveSetup(series, writeConfig) == Ok((p, names, cols));
      r := Outcome(failure);
    }

    /**
     * doFindById: plan, gather, detranspose, materialise. faults names the read workers whose
     * connection or query fails.
     */
    method FindById(index: Index, catalog: Catalog, uuid: Uuid, tryToCompress: bool, names: Option<seq<string>>,
                    faults: set<nat>)
      returns (r: Result<map<string, TimeSeries>>)
      ensures MakePlan(index.pointCount, ReadColumns(catalog, names), readConfig).Err? ==> r == Err(DivisionByZero)
      ensures MakePlan(index.pointCount, ReadColumns(catalog, names), readConfig).Ok? ==>
        var failed := FirstFault(faults, MakePlan(index.pointCount, ReadColumns(catalog, names), readConfig).value.threadCount);
        && (failed.Some? ==> r == Err(StorageFailure(failed.value)))
        && (failed.None? ==>
              Materialised(index, catalog, Detransposed(Fetch(RowsOf(rows, uuid), names, 0, index.pointCount)), tryToCompress, r))
    {
      var plan := MakePlan(index.pointCount, ReadColumns(catalog, names), readConfig);
      if plan.Err? {
        return Err(plan.error);
      }
      var p := plan.value;
      PlanTiles(index.pointCount, ReadColumns(catalog, names), readConfig);
      var res := Gather(RowsOf(rows, uuid), names, p, faults);
      if res.Err? {
        return Err(res.error);
      }
      var data := Detranspose(res.value);
      r := Materialise(index, catalog, data, tryToCompress);
    }

    /** doDelete: every row of the group goes; the other groups keep theirs. */
    method Delete(uuid: Uuid)
      modifies this
      ensures forall g :: RowsOf(rows, g) == if g == uuid then map[] else RowsOf(old(rows), g)
      ensures uuid !in rows
    {
      rows := map g | g in rows && g != uuid :: rows[g];
    }
  }
}
