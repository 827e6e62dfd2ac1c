/**
 * End to end: a group created from a list of series that the engine can store is read back
 * as the same series, in the same order, and its summary document lists the same metadata.
 */
module RoundTrip {
  import opened Domain
  import opened Partition
  import opened Pivot
  import opened Json
  import opened MetadataService
  import opened DataRepository
  import opened Service

  /**
   * A list the engine stores whole: at least one series and one point, distinct names, one
   * shared index and one handled element type, every series as the library builds it.
   */
  ghost predicate Storable(series: seq<TimeSeries>)
  {
    && series != []
    && Distinct(Names(series))
    && Handled(series[0].meta.dataType)
    && series[0].meta.index.pointCount >= 1
    && forall i :: 0 <= i < |series| ==>
         && series[i].Valid()
         && series[i].meta.index == series[0].meta.index
         && series[i].meta.dataType == series[0].meta.dataType
  }

  /** A configuration under which the partition arithmetic divides by no zero. */
  predicate Usable(config: BatchConfig)
  {
    config.batchSize >= 1 && config.batchPerConnection >= 1
  }

  /** The series a read gives back for the stored ones: same metadata, same values. */
  function Restored(series: seq<TimeSeries>, tryToCompress: bool): (r: seq<TimeSeries>)
    ensures |r| == |series|
    ensures forall i :: 0 <= i < |series| ==>
      r[i].meta == series[i].meta && r[i].chunk.values == series[i].chunk.values
  {
    seq(|series|, i requires 0 <= i < |series| =>
      TimeSeries(series[i].meta, Chunk(series[i].chunk.values, tryToCompress)))
  }

  /** The column arrays of a storable list. */
  lemma StorableColumns(series: seq<TimeSeries>)
    requires Storable(series)
    ensures Columns(series).Ok?
    ensures RangeReady(Columns(series).value, 0, series[0].meta.index.pointCount)
  {
    var t := series[0].meta.dataType;
    forall i | 0 <= i < |series| ensures Fits(t, series[i].chunk.values) {
      assert series[i].Valid();
    }
  }

  /** Saving a storable list into a group without rows commits every worker. */
  lemma SaveStores(t: Table, config: BatchConfig, id: Uuid, series: seq<TimeSeries>)
    requires Storable(series) && Usable(config) && RowsOf(t, id) == map[]
    ensures SaveSpec(t, config, id, series, {}).1 == Ok(())
    ensures RowsOf(SaveSpec(t, config, id, series, {}).0, id) ==
      RangeDocs(Names(series), Columns(series).value, 0, series[0].meta.index.pointCount)
  {
    StorableColumns(series);
    var setup := SaveSetup(series, config);
    assert setup.Ok?;
    SetupOfSaveSetup(series, config);
    var (p, names, cols) := setup.value;
    SaveFresh(t, id, p, names, cols);
  }

  /** The select-all range read of rows stored for [0, hi) gives them back in order. */
  lemma {:induction false} FetchStored(names: seq<string>, cols: seq<Values>, hi: nat, k: nat)
    requires |names| == |cols| && RangeReady(cols, 0, hi) && k <= hi
    ensures Fetch(RangeDocs(names, cols, 0, hi), None, 0, k) == RowsSeq(names, cols, 0, k)
  {
    if k > 0 {
      FetchStored(names, cols, hi, k - 1);
    }
  }

  /** The cells of the first k values of a column array. */
  function ColumnCells(col: Values, k: nat): seq<Cell>
    requires k <= Length(col)
  {
    seq(k, j requires 0 <= j < k <= Length(col) => CellOf(col, j))
  }

  lemma CellsOfColumn(v: Values)
    ensures CellsOf(v) == ColumnCells(v, Length(v))
  {
  }

  /** The transposed value list of series m over the first k stored rows. */
  lemma {:induction false} ColumnStored(names: seq<string>, cols: seq<Values>, k: nat, m: nat)
    requires |names| == |cols| && RangeReady(cols, 0, k) && Distinct(names) && m < |names| && k <= Length(cols[m])
    ensures Column(RowsSeq(names, cols, 0, k), names[m]) == ColumnCells(cols[m], k)
  {
    if k > 0 {
      var entries := RowsSeq(names, cols, 0, k);
      assert entries[..k - 1] == RowsSeq(names, cols, 0, k - 1);
      ColumnStored(names, cols, k - 1, m);
      RowDocumentAt(names, cols, k - 1, m);
      var last := entries[k - 1].1;
      assert last == RowDocument(names, cols, k - 1);
      assert names[m] in last && last[names[m]] == CellOf(cols[m], k - 1);
      assert Column(entries, names[m]) == ColumnCells(cols[m], k - 1) + [CellOf(cols[m], k - 1)];
      ColumnCellsSnoc(cols[m], k);
    }
  }

  lemma ColumnCellsSnoc(col: Values, k: nat)
    requires 0 < k <= Length(col)
    ensures ColumnCells(col, k) == ColumnCells(col, k - 1) + [CellOf(col, k - 1)]
  {
  }

  /** Every stored row holds every name, so the stored rows hold exactly the names. */
  lemma KeysStored(names: seq<string>, cols: seq<Values>, k: nat)
    requires |names| == |cols| && RangeReady(cols, 0, k) && Distinct(names) && k >= 1 && names != []
    ensures forall n :: n in KeysOf(RowsSeq(names, cols, 0, k)) <==> n in names
  {
    var entries := RowsSeq(names, cols, 0, k);
    forall j | 0 <= j < k ensures forall n :: n in entries[j].1 <==> n in names {
      RowDocumentAt(names, cols, j, 0);
    }
    forall n | n in names ensures n in KeysOf(entries) {
      assert n in entries[0].1;
    }
  }

  /** The transposed map of the stored rows: each name's values as cells, in row order. */
  lemma TransposedRows(names: seq<string>, cols: seq<Values>, n: nat)
    requires |names| == |cols| && RangeReady(cols, 0, n) && Distinct(names) && n >= 1 && names != []
    ensures forall k :: k in Detransposed(RowsSeq(names, cols, 0, n)) <==> k in names
    ensures forall m :: 0 <= m < |names| ==>
      n <= Length(cols[m]) && Detransposed(RowsSeq(names, cols, 0, n))[names[m]] == ColumnCells(cols[m], n)
  {
    var entries := RowsSeq(names, cols, 0, n);
    DetransposedColumns(entries);
    KeysStored(names, cols, n);
    forall m | 0 <= m < |names|
      ensures n <= Length(cols[m]) && Detransposed(entries)[names[m]] == ColumnCells(cols[m], n)
    {
      assert RowReady(cols, n - 1);
      assert names[m] in names;
      ColumnStored(names, cols, n, m);
    }
  }

  /** The catalog gives the record at position m under its name when no earlier record has that name. */
  lemma {:induction false} CatalogGetAt(c: Catalog, m: nat)
    requires m < |c| && forall i :: 0 <= i < m ==> c[i].0 != c[m].0
    ensures CatalogGet(c, c[m].0) == Some(c[m].1)
  {
    if m > 0 {
      assert c[1..][m - 1] == c[m];
      forall i | 0 <= i < m - 1 ensures c[1..][i].0 != c[m].0 {
        assert c[1..][i] == c[i + 1];
      }
      CatalogGetAt(c[1..], m - 1);
    }
  }

  /** The catalog the stored metadata text reads back as. */
  function StoredCatalog(series: seq<TimeSeries>, orders: seq<seq<string>>): Catalog
    requires |orders| == |series|
    requires forall i :: 0 <= i < |series| ==> Enumerates(orders[i], series[i].meta.tags)
  {
    seq(|series|, i requires 0 <= i < |series| => (series[i].meta.name, RecordJson(series[i].meta, orders[i])))
  }

  lemma StoredCatalogRead(series: seq<TimeSeries>, orders: seq<seq<string>>)
    requires Storable(series) && |orders| == |series|
    requires forall i :: 0 <= i < |series| ==> Enumerates(orders[i], series[i].meta.tags)
    ensures MapFromJson(Events(MetadataArray(Metadatas(series), orders))) == Ok(StoredCatalog(series, orders))
    ensures CatalogKeys(StoredCatalog(series, orders)) == Names(series)
  {
    var metas := Metadatas(series);
    assert seq(|metas|, i requires 0 <= i < |metas| => metas[i].name) == Names(series);
    CatalogRoundTrip(metas, orders);
    assert seq(|metas|, i requires 0 <= i < |metas| => (metas[i].name, RecordJson(metas[i], orders[i]))) ==
      StoredCatalog(series, orders);
  }

  /** The double cells of a double array read back as the array. */
  lemma DoublesBack(ds: seq<DoubleValue>)
    ensures DoublesOf(CellsOf(Doubles(ds))) == Ok(ds)
  {
    var cells := CellsOf(Doubles(ds));
    assert forall i :: 0 <= i < |cells| ==> cells[i] == DoubleCell(ds[i]) && !cells[i].CStr?;
    var r := DoublesOf(cells);
    forall i | 0 <= i < |ds| ensures r.value[i] == ds[i] {
      CellInjective(r.value[i], ds[i], None, None);
    }
    assert r.value == ds;
  }

  /** Neither cell conversion maps two values to one cell. */
  lemma CellInjective(d: DoubleValue, d': DoubleValue, s: Option<string>, s': Option<string>)
    ensures DoubleCell(d) == DoubleCell(d') ==> d == d'
    ensures StringCell(s) == StringCell(s') ==> s == s'
  {
    if d.Num? && d'.Num? && DoubleCell(d) == DoubleCell(d') {
      assert CNum(d.x) == CNum(d'.x);
    }
    if s.Some? && s'.Some? && StringCell(s) == StringCell(s') {
      assert CStr(s.value) == CStr(s'.value);
    }
  }

  lemma StringsBack(ss: seq<Option<string>>)
    ensures StringsOf(CellsOf(Strings(ss))) == Ok(ss)
  {
    var cells := CellsOf(Strings(ss));
    assert forall i :: 0 <= i < |cells| ==> cells[i] == StringCell(ss[i]) && !cells[i].CNum?;
    var r := StringsOf(cells);
    forall i | 0 <= i < |ss| ensures r.value[i] == ss[i] {
      CellInjective(NaN, NaN, r.value[i], ss[i]);
    }
    assert r.value == ss;
  }

  /** The stored catalog gives series m's metadata back under its name. */
  lemma MetadataRestored(series: seq<TimeSeries>, orders: seq<seq<string>>, m: nat)
    requires Storable(series) && |orders| == |series| && m < |series|
    requires forall i :: 0 <= i < |series| ==> Enumerates(orders[i], series[i].meta.tags)
    ensures GetMetadata(series[0].meta.index, StoredCatalog(series, orders), series[m].meta.name) == Ok(series[m].meta)
  {
    var c := StoredCatalog(series, orders);
    forall i | 0 <= i < m ensures c[i].0 != c[m].0 {
      assert Names(series)[i] != Names(series)[m];
    }
    CatalogGetAt(c, m);
    RecordRoundTrip(series[m].meta, orders[m], series[0].meta.index);
  }

  /** Series m, rebuilt from its cells and its catalog record, is series m. */
  lemma SeriesRestored(series: seq<TimeSeries>, orders: seq<seq<string>>, m: nat, tryToCompress: bool)
    requires Storable(series) && |orders| == |series| && m < |series|
    requires forall i :: 0 <= i < |series| ==> Enumerates(orders[i], series[i].meta.tags)
    ensures SeriesOf(series[0].meta.index, StoredCatalog(series, orders), series[m].meta.name,
                     CellsOf(series[m].chunk.values), tryToCompress) == Ok(Restored(series, tryToCompress)[m])
  {
    MetadataRestored(series, orders, m);
    assert series[m].Valid();
    match series[m].chunk.values
    case Doubles(ds) => DoublesBack(ds);
    case Strings(ss) => StringsBack(ss);
  }

  /** The transposed map a read of a stored list builds. */
  lemma TransposedStored(series: seq<TimeSeries>, cols: seq<Values>)
    requires Storable(series) && Columns(series) == Ok(cols)
    requires RangeReady(cols, 0, series[0].meta.index.pointCount)
    ensures var n := series[0].meta.index.pointCount;
      var data := Detransposed(Fetch(RangeDocs(Names(series), cols, 0, n), None, 0, n));
      && (forall k :: k in data <==> k in Names(series))
      && forall m :: 0 <= m < |series| ==> data[Names(series)[m]] == CellsOf(series[m].chunk.values)
  {
    var names, n := Names(series), series[0].meta.index.pointCount;
    FetchStored(names, cols, n, n);
    TransposedRows(names, cols, n);
    forall m | 0 <= m < |series|
      ensures ColumnCells(cols[m], n) == CellsOf(series[m].chunk.values)
    {
      assert series[m].Valid();
      CellsOfColumn(series[m].chunk.values);
    }
  }

  /** Every series of the stored list is rebuilt from its transposed cells. */
  lemma RebuiltStored(series: seq<TimeSeries>, orders: seq<seq<string>>, tryToCompress: bool,
                      data: map<string, seq<Cell>>)
    requires Storable(series) && |orders| == |series|
    requires forall i :: 0 <= i < |series| ==> Enumerates(orders[i], series[i].meta.tags)
    requires forall m :: 0 <= m < |series| ==> Names(series)[m] in data && data[Names(series)[m]] == CellsOf(series[m].chunk.values)
    ensures forall i :: 0 <= i < |series| ==>
      SeriesOf(series[0].meta.index, StoredCatalog(series, orders), Names(series)[i], data[Names(series)[i]], tryToCompress)
        == Ok(Restored(series, tryToCompress)[i])
  {
    forall i | 0 <= i < |series|
      ensures SeriesOf(series[0].meta.index, StoredCatalog(series, orders), Names(series)[i], data[Names(series)[i]], tryToCompress)
        == Ok(Restored(series, tryToCompress)[i])
    {
      SeriesRestored(series, orders, i, tryToCompress);
    }
  }

  /** When every entry of the transposed map is rebuilt, the materialised map holds them all. */
  lemma MaterialisedNamed(index: Index, catalog: Catalog, data: map<string, seq<Cell>>, tryToCompress: bool,
                          found: Result<map<string, TimeSeries>>, names: seq<string>, rebuilt: seq<TimeSeries>)
    requires |names| == |rebuilt| && forall k :: k in data <==> k in names
    requires forall i :: 0 <= i < |names| ==> SeriesOf(index, catalog, names[i], data[names[i]], tryToCompress) == Ok(rebuilt[i])
    requires Materialised(index, catalog, data, tryToCompress, found)
    ensures found.Ok?
    ensures forall i :: 0 <= i < |names| ==> names[i] in found.value && found.value[names[i]] == rebuilt[i]
  {
    forall k | k in data ensures SeriesOf(index, catalog, k, data[k], tryToCompress).Ok? {
      var i :| 0 <= i < |names| && names[i] == k;
      assert SeriesOf(index, catalog, names[i], data[names[i]], tryToCompress) == Ok(rebuilt[i]);
    }
    assert found.Ok?;
    forall i | 0 <= i < |names| ensures names[i] in found.value && found.value[names[i]] == rebuilt[i] {
      assert names[i] in data;
    }
  }

  /** The catalog order of a stored list is its creation order. */
  lemma OrderedStored(series: seq<TimeSeries>, byName: map<string, TimeSeries>, tryToCompress: bool)
    requires forall i :: 0 <= i < |series| ==>
      Names(series)[i] in byName && byName[Names(series)[i]] == Restored(series, tryToCompress)[i]
    ensures Ordered(Names(series), byName) == Restored(series, tryToCompress)
  {
    var names := Names(series);
    OrderedMeaning(names, byName);
    assert seq(|names|, i requires 0 <= i < |names| && names[i] in byName => byName[names[i]]) ==
      Restored(series, tryToCompress);
  }

  /** The parts of the stored group record the read parses, parsed back. */
  lemma RecordStored(series: seq<TimeSeries>, orders: seq<seq<string>>)
    requires Storable(series) && |orders| == |series|
    requires forall i :: 0 <= i < |series| ==> Enumerates(orders[i], series[i].meta.tags)
    ensures var e := Entity(series, orders);
      && IndexFromJson(e.indexType, e.index) == Ok(series[0].meta.index)
      && MapFromJson(e.metadatas) == Ok(StoredCatalog(series, orders))
      && NamedCatalog(StoredCatalog(series, orders))
      && CatalogKeys(StoredCatalog(series, orders)) == Names(series)
  {
    IndexRoundTrip(series[0].meta.index);
    StoredCatalogRead(series, orders);
    MapFromJsonNamed(Events(MetadataArray(Metadatas(series), orders)));
  }

  /** A read of a group whose record and rows are those a storable list was saved as. */
  lemma ReadStored(groups: map<Uuid, GroupEntity>, rows: Table, readConfig: BatchConfig, id: Uuid,
                   series: seq<TimeSeries>, orders: seq<seq<string>>, tryToCompress: bool, r: Result<seq<TimeSeries>>)
    requires Storable(series) && Usable(readConfig)
    requires |orders| == |series| && forall i :: 0 <= i < |series| ==> Enumerates(orders[i], series[i].meta.tags)
    requires Columns(series).Ok? && RangeReady(Columns(series).value, 0, series[0].meta.index.pointCount)
    requires id in groups && groups[id] == Entity(series, orders)
    requires RowsOf(rows, id) == RangeDocs(Names(series), Columns(series).value, 0, series[0].meta.index.pointCount)
    requires GroupRead(groups, rows, readConfig, id, tryToCompress, None, {}, r)
    ensures r == Ok(Restored(series, tryToCompress))
  {
    var index := series[0].meta.index;
    var n := index.pointCount;
    var cols := Columns(series).value;
    RecordStored(series, orders);
    var c := StoredCatalog(series, orders);
    assert MakePlan(n, ReadColumns(c, None), readConfig).Ok?;
    FirstFaultMeaning({}, MakePlan(n, ReadColumns(c, None), readConfig).value.threadCount);
    var data := Detransposed(Fetch(RangeDocs(Names(series), cols, 0, n), None, 0, n));
    var found :| Materialised(index, c, data, tryToCompress, found) && r == Arrange(c, found);
    TransposedStored(series, cols);
    RebuiltStored(series, orders, tryToCompress, data);
    MaterialisedNamed(index, c, data, tryToCompress, found, Names(series), Restored(series, tryToCompress));
    ArrangeNamed(index, c, data, tryToCompress, found);
    OrderedStored(series, found.value, tryToCompress);
  }

  /**
   * A read of the whole group after a save of a storable list into a group without rows
   * gives back every series with its metadata and values, in creation order.
   */
  lemma CreateThenRead(groups: map<Uuid, GroupEntity>, t: Table, writeConfig: BatchConfig, readConfig: BatchConfig,
                       id: Uuid, series: seq<TimeSeries>, orders: seq<seq<string>>, tryToCompress: bool,
                       r: Result<seq<TimeSeries>>)
    requires Storable(series) && Usable(writeConfig) && Usable(readConfig) && RowsOf(t, id) == map[]
    requires |orders| == |series| && forall i :: 0 <= i < |series| ==> Enumerates(orders[i], series[i].meta.tags)
    requires GroupRead(groups[id := Entity(series, orders)], SaveSpec(t, writeConfig, id, series, {}).0, readConfig,
                       id, tryToCompress, None, {}, r)
    ensures SaveSpec(t, writeConfig, id, series, {}).1 == Ok(())
    ensures r == Ok(Restored(series, tryToCompress))
  {
    SaveStores(t, writeConfig, id, series);
    StorableColumns(series);
    ReadStored(groups[id := Entity(series, orders)], SaveSpec(t, writeConfig, id, series, {}).0, readConfig, id,
               series, orders, tryToCompress, r);
  }

  /**
   * The summary document of a group created from a storable list lists every series'
   * metadata, in creation order.
   */
  lemma CreateThenSummary(groups: map<Uuid, GroupEntity>, id: Uuid, series: seq<TimeSeries>,
                          orders: seq<seq<string>>, r: Result<seq<Event>>, orders': seq<seq<string>>)
    requires Storable(series)
    requires |orders| == |series| && forall i :: 0 <= i < |series| ==> Enumerates(orders[i], series[i].meta.tags)
    requires MetadataJsonOf(groups[id := Entity(series, orders)], id, r, orders')
    ensures |orders'| == |series| && forall i :: 0 <= i < |series| ==> Enumerates(orders'[i], series[i].meta.tags)
    ensures r == Ok(Events(SummaryJson(id, series[0].meta.index, Metadatas(series), orders')))
  {
    var index := series[0].meta.index;
    var metas := Metadatas(series);
    IndexRoundTrip(index);
    forall i | 0 <= i < |metas| ensures Handled(metas[i].dataType) {
    }
    ListRoundTrip(metas, orders, index);
    assert seq(|metas|, i requires 0 <= i < |metas| => Metadata(metas[i].name, metas[i].dataType, metas[i].tags, index))
      == metas;
  }

  /**
   * Through the service: create a group, then read it whole. The outcome does not depend on
   * whether a failed save would roll the group record back, since this save does not fail.
   */
  method CreateAndRead(svc: TimeSeriesService, series: seq<TimeSeries>, id: Uuid, tryToCompress: bool, rollback: bool)
    returns (created: Result<GroupInfos>, read: Result<seq<TimeSeries>>)
    requires id !in svc.groups && RowsOf(svc.data.rows, id) == map[]
    requires Storable(series) && Usable(svc.data.writeConfig) && Usable(svc.data.readConfig)
    modifies svc, svc.data
    ensures created == Ok(GroupInfos(id)) && id in svc.groups
    ensures read == Ok(Restored(series, tryToCompress))
  {
    IndexCheckMeaning(series);
    ghost var t := svc.data.rows;
    ghost var groups := svc.groups;
    ghost var orders;
    SaveStores(t, svc.data.writeConfig, id, series);
    created, orders := svc.Create(series, id, {}, rollback);
    read := svc.GetTimeSeriesGroup(id, tryToCompress, None, {});
    CreateThenRead(groups, t, svc.data.writeConfig, svc.data.readConfig, id, series, orders, tryToCompress, read);
  }
}
