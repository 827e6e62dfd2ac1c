/**
 * The group service: a group table of (index type, index text, metadata text) records
 * beside the data table. Creation validates the shared index and writes the group record
 * and the data; the reads parse the record back and put the series in catalog order;
 * deletion removes the data and then the record.
 */
module Service {
  import opened Domain
  import opened Partition
  import opened Pivot
  import opened Json
  import opened MetadataService
  import opened DataRepository

  /** A row of the group table: the index type tag, the index text and the metadata array text. */
  datatype GroupEntity = GroupEntity(indexType: string, index: seq<Event>, metadatas: seq<Event>)

  /** What a client is told about a group. */
  datatype GroupInfos = GroupInfos(id: Uuid)

  // ---------------------------------------------------------------------------------------
  // Index validation
  // ---------------------------------------------------------------------------------------

  /** The check of series i onwards against the first series' index. */
  function CheckFrom(series: seq<TimeSeries>, i: nat): Result<Index>
    requires series != [] && i <= |series|
    decreases |series| - i
  {
    if i == |series| then Ok(series[0].meta.index)
    else if series[i].meta.index != series[0].meta.index then
      Err(IndexMismatch(series[0].meta.name, series[i].meta.name))
    else CheckFrom(series, i + 1)
  }

  /** What synchronizeIndex decides: the shared index, or the first list failure. */
  function IndexCheck(series: seq<TimeSeries>): Result<Index>
  {
    if series == [] then Err(EmptySeriesList) else CheckFrom(series, 0)
  }

  lemma {:induction false} CheckFromMeaning(series: seq<TimeSeries>, i: nat)
    requires series != [] && i <= |series|
    requires forall j :: 0 <= j < i ==> series[j].meta.index == series[0].meta.index
    ensures CheckFrom(series, i).Ok? <==> forall j :: 0 <= j < |series| ==> series[j].meta.index == series[0].meta.index
    ensures CheckFrom(series, i).Ok? ==> CheckFrom(series, i).value == series[0].meta.index
    ensures CheckFrom(series, i).Err? ==>
      exists j :: 0 < j < |series| && FirstMismatch(series, j) &&
                  CheckFrom(series, i).error == IndexMismatch(series[0].meta.name, series[j].meta.name)
    decreases |series| - i
  {
    if i < |series| {
      if series[i].meta.index != series[0].meta.index {
        assert FirstMismatch(series, i);
      } else {
        CheckFromMeaning(series, i + 1);
      }
    }
  }

  /** Series j is the first whose index differs from the first series' index. */
  predicate FirstMismatch(series: seq<TimeSeries>, j: nat)
    requires j < |series|
  {
    series[j].meta.index != series[0].meta.index &&
    forall k :: 0 <= k < j ==> series[k].meta.index == series[0].meta.index
  }

  /**
   * The check succeeds exactly on a non-empty list of series sharing one index, and gives
   * that index; otherwise it names the first series and the first series that differs.
   */
  lemma IndexCheckMeaning(series: seq<TimeSeries>)
    ensures IndexCheck(series).Ok? <==>
      series != [] && forall j :: 0 <= j < |series| ==> series[j].meta.index == series[0].meta.index
    ensures IndexCheck(series).Ok? ==> IndexCheck(series).value == series[0].meta.index
    ensures series == [] ==> IndexCheck(series) == Err(EmptySeriesList)
    ensures series != [] && IndexCheck(series).Err? ==>
      exists j :: 0 < j < |series| && FirstMismatch(series, j) &&
                  IndexCheck(series).error == IndexMismatch(series[0].meta.name, series[j].meta.name)
  {
    if series != [] {
      CheckFromMeaning(series, 0);
    }
  }

  /** synchronizeIndex: the first series' index, checked against every series in list order. */
  method SynchronizeIndex(series: seq<TimeSeries>) returns (r: Result<Index>)
    ensures r == IndexCheck(series)
  {
    if series == [] {
      return Err(EmptySeriesList);
    }
    var index := series[0].meta.index;
    var i := 0;
    while i < |series|
      invariant 0 <= i <= |series|
      invariant CheckFrom(series, i) == IndexCheck(series)
    {
      if series[i].meta.index != index {
        return Err(IndexMismatch(series[0].meta.name, series[i].meta.name));
      }
      i := i + 1;
    }
    return Ok(index);
  }

  // ---------------------------------------------------------------------------------------
  // The ordering step of the group read
  // ---------------------------------------------------------------------------------------

  /** No two series of the data result carry the same name. */
  predicate NamesDistinct(found: map<string, TimeSeries>)
  {
    forall a, b :: a in found && b in found && a != b ==> found[a].meta.name != found[b].meta.name
  }

  /** The data result collected by series name; two series of one name make the collector throw. */
  function ByName(found: map<string, TimeSeries>): (r: Result<map<string, TimeSeries>>)
    ensures r.Ok? <==> NamesDistinct(found)
    ensures r.Err? ==> r.error == DuplicateName
  {
    if NamesDistinct(found) then Ok(map k | k in found :: found[k].meta.name := found[k])
    else Err(DuplicateName)
  }

  /** The names the collector keys by: every series of the result, under its own name. */
  lemma ByNameMeaning(found: map<string, TimeSeries>)
    requires NamesDistinct(found)
    ensures forall n :: n in ByName(found).value <==> exists k :: k in found && found[k].meta.name == n
    ensures forall k :: k in found ==>
      found[k].meta.name in ByName(found).value && ByName(found).value[found[k].meta.name] == found[k]
  {
    var m := ByName(found).value;
    forall n | n in m ensures exists k :: k in found && found[k].meta.name == n {
    }
  }

  /** A result whose series are filed under their own names is collected unchanged. */
  lemma ByNameKeyed(found: map<string, TimeSeries>)
    requires forall k :: k in found ==> found[k].meta.name == k
    ensures ByName(found) == Ok(found)
  {
    var m := ByName(found).value;
    ByNameMeaning(found);
    forall k | k in found ensures k in m && m[k] == found[k] {
    }
    assert m.Keys == found.Keys;
    assert m == found;
  }

  /** The catalog's names in insertion order, each mapped to its series when there is one. */
  function Ordered(keys: seq<string>, byName: map<string, TimeSeries>): seq<TimeSeries>
  {
    if keys == [] then []
    else (if keys[0] in byName then [byName[keys[0]]] else []) + Ordered(keys[1..], byName)
  }

  /**
   * The ordered list holds the series of exactly the names that are both in the catalog and
   * in the data result, and when every name has a series it is the names' series in order.
   */
  lemma {:induction false} OrderedMeaning(keys: seq<string>, byName: map<string, TimeSeries>)
    ensures forall s :: s in Ordered(keys, byName) <==> exists i :: 0 <= i < |keys| && keys[i] in byName && byName[keys[i]] == s
    ensures (forall i :: 0 <= i < |keys| ==> keys[i] in byName) ==>
      Ordered(keys, byName) == seq(|keys|, i requires 0 <= i < |keys| && keys[i] in byName => byName[keys[i]])
  {
    if keys != [] {
      OrderedMeaning(keys[1..], byName);
      var rest := Ordered(keys[1..], byName);
      forall s | s in Ordered(keys, byName)
        ensures exists i :: 0 <= i < |keys| && keys[i] in byName && byName[keys[i]] == s
      {
        if s !in rest {
          assert keys[0] in byName && byName[keys[0]] == s;
        } else {
          var i :| 0 <= i < |keys[1..]| && keys[1..][i] in byName && byName[keys[1..][i]] == s;
          assert keys[i + 1] in byName && byName[keys[i + 1]] == s;
        }
      }
      forall s | exists i :: 0 <= i < |keys| && keys[i] in byName && byName[keys[i]] == s
        ensures s in Ordered(keys, byName)
      {
        var i :| 0 <= i < |keys| && keys[i] in byName && byName[keys[i]] == s;
        if i > 0 {
          assert keys[1..][i - 1] == keys[i];
        }
      }
      if forall i :: 0 <= i < |keys| ==> keys[i] in byName {
        assert forall i :: 0 <= i < |keys[1..]| ==> keys[1..][i] in byName by {
          forall i | 0 <= i < |keys[1..]| ensures keys[1..][i] in byName {
            assert keys[1..][i] == keys[i + 1];
          }
        }
      }
    }
  }

  /** With distinct catalog names and series filed under their names, no series is listed twice. */
  lemma {:induction false} OrderedDistinct(keys: seq<string>, byName: map<string, TimeSeries>)
    requires Distinct(keys)
    requires forall k :: k in byName ==> byName[k].meta.name == k
    ensures Distinct(Names(Ordered(keys, byName)))
  {
    if keys != [] {
      var rest := Ordered(keys[1..], byName);
      assert Distinct(keys[1..]) by {
        forall i, j | 0 <= i < j < |keys[1..]| ensures keys[1..][i] != keys[1..][j] {
          assert keys[1..][i] == keys[i + 1] && keys[1..][j] == keys[j + 1];
        }
      }
      OrderedDistinct(keys[1..], byName);
      OrderedMeaning(keys[1..], byName);
      if keys[0] in byName {
        var whole := [byName[keys[0]]] + rest;
        forall j | 0 <= j < |rest| ensures rest[j].meta.name != keys[0] {
          assert rest[j] in rest;
          var i :| 0 <= i < |keys[1..]| && keys[1..][i] in byName && byName[keys[1..][i]] == rest[j];
          assert keys[1..][i] == keys[i + 1];
        }
        forall a, b | 0 <= a < b < |whole| ensures Names(whole)[a] != Names(whole)[b] {
          if a > 0 {
            assert whole[a] == rest[a - 1] && whole[b] == rest[b - 1];
            assert Names(rest)[a - 1] != Names(rest)[b - 1];
          } else {
            assert whole[b] == rest[b - 1];
          }
        }
      }
    }
  }

  /** What the read makes of the data result: collected by name, then put in catalog order. */
  function Arrange(catalog: Catalog, found: Result<map<string, TimeSeries>>): Result<seq<TimeSeries>>
  {
    match found
    case Err(e) => Err(e)
    case Ok(m) =>
      match ByName(m)
      case Err(e) => Err(e)
      case Ok(byName) => Ok(Ordered(CatalogKeys(catalog), byName))
  }

  // ---------------------------------------------------------------------------------------
  // Catalogs read from a group record file every record under its own name
  // ---------------------------------------------------------------------------------------

  /** Every record of the catalog is filed under the name it carries. */
  predicate NamedCatalog(c: Catalog)
  {
    forall i :: 0 <= i < |c| ==> NameOf(c[i].1) == Ok(c[i].0)
  }

  lemma {:induction false} CatalogFoldNamed(items: seq<Json>, acc: Catalog)
    requires NamedCatalog(acc)
    ensures CatalogFold(items, acc).Ok? ==> NamedCatalog(CatalogFold(items, acc).value)
    decreases |items|
  {
    if items != [] && NameOf(items[0]).Ok? {
      var n := NameOf(items[0]).value;
      var acc' := if n in CatalogKeys(acc) then acc else acc + [(n, items[0])];
      assert NamedCatalog(acc') by {
        if n !in CatalogKeys(acc) {
          forall i | 0 <= i < |acc'| ensures NameOf(acc'[i].1) == Ok(acc'[i].0) {
            if i < |acc| {
              assert acc'[i] == acc[i];
            }
          }
        }
      }
      CatalogFoldNamed(items[1..], acc');
    }
  }

  /** The catalogs the group record yields are named catalogs. */
  lemma MapFromJsonNamed(text: seq<Event>)
    ensures MapFromJson(text).Ok? ==> NamedCatalog(MapFromJson(text).value)
  {
    if ListFromJson(text).Ok? {
      CatalogFoldNamed(ListFromJson(text).value, []);
    }
  }

  /** A metadata record parsed from a record gives the name the record carries. */
  lemma FromParsedName(index: Index, rec: Json)
    requires FromParsed(index, rec).Ok?
    ensures NameOf(rec) == Ok(FromParsed(index, rec).value.name)
  {
  }

  /** Every series the read builds from a named catalog carries the name it is filed under. */
  lemma SeriesNamed(index: Index, catalog: Catalog, name: string, cells: seq<Cell>, tryToCompress: bool)
    requires NamedCatalog(catalog)
    requires SeriesOf(index, catalog, name, cells, tryToCompress).Ok?
    ensures SeriesOf(index, catalog, name, cells, tryToCompress).value.meta.name == name
  {
    var rec := CatalogGet(catalog, name).value;
    var i :| 0 <= i < |catalog| && catalog[i] == (name, rec);
    FromParsedName(index, rec);
  }

  /**
   * On a named catalog the collector of the read never throws: the data result is
   * collected unchanged and put in catalog order.
   */
  lemma ArrangeNamed(index: Index, catalog: Catalog, data: map<string, seq<Cell>>, tryToCompress: bool,
                     found: Result<map<string, TimeSeries>>)
    requires NamedCatalog(catalog) && Materialised(index, catalog, data, tryToCompress, found)
    ensures found.Ok? ==> Arrange(catalog, found) == Ok(Ordered(CatalogKeys(catalog), found.value))
    ensures found.Err? ==> Arrange(catalog, found) == Err(found.error)
  {
    if found.Ok? {
      forall k | k in found.value ensures found.value[k].meta.name == k {
        SeriesNamed(index, catalog, k, data[k], tryToCompress);
      }
      ByNameKeyed(found.value);
    }
  }

  // ---------------------------------------------------------------------------------------
  // What the service operations compute
  // ---------------------------------------------------------------------------------------

  /** The group record createTimeSeriesGroup writes for a list of series sharing one index. */
  function Entity(series: seq<TimeSeries>, orders: seq<seq<string>>): GroupEntity
    requires series != [] && |orders| == |series|
    requires forall i :: 0 <= i < |series| ==> Enumerates(orders[i], series[i].meta.tags)
  {
    var index := series[0].meta.index;
    GroupEntity(TypeTag(index.kind), Events(JIndex(index)), Events(MetadataArray(Metadatas(series), orders)))
  }

  /** getTimeSeriesGroupMetadataJson over the group table, up to the tag iteration order. */
  ghost predicate MetadataJsonOf(groups: map<Uuid, GroupEntity>, uuid: Uuid, r: Result<seq<Event>>,
                                 orders: seq<seq<string>>)
  {
    if uuid !in groups then r == Err(NotFound(uuid))
    else
      var e := groups[uuid];
      match IndexFromJson(e.indexType, e.index)
      case Err(err) => r == Err(err)
      case Ok(index) =>
        match ListFromJsonWithIndex(index, e.metadatas)
        case Err(err) => r == Err(err)
        case Ok(metas) =>
          && |orders| == |metas|
          && (forall i :: 0 <= i < |metas| ==> Enumerates(orders[i], metas[i].tags))
          && r == Ok(Events(SummaryJson(uuid, index, metas, orders)))
  }

  /** getTimeSeriesGroup over the group table and the data table, up to the map iteration order. */
  ghost predicate GroupRead(groups: map<Uuid, GroupEntity>, rows: Table, config: BatchConfig, uuid: Uuid,
                            tryToCompress: bool, names: Option<seq<string>>, faults: set<nat>,
                            r: Result<seq<TimeSeries>>)
  {
    if uuid !in groups then r == Err(NotFound(uuid))
    else
      var e := groups[uuid];
      match IndexFromJson(e.indexType, e.index)
      case Err(err) => r == Err(err)
      case Ok(index) =>
        match MapFromJson(e.metadatas)
        case Err(err) => r == Err(err)
        case Ok(catalog) =>
          if MakePlan(index.pointCount, ReadColumns(catalog, names), config).Err? then r == Err(DivisionByZero)
          else if FirstFault(faults, MakePlan(index.pointCount, ReadColumns(catalog, names), config).value.threadCount).Some? then
            r == Err(StorageFailure(FirstFault(faults, MakePlan(index.pointCount, ReadColumns(catalog, names), config).value.threadCount).value))
          else exists found ::
            && Materialised(index, catalog, Detransposed(Fetch(RowsOf(rows, uuid), names, 0, index.pointCount)),
                            tryToCompress, found)
            && r == Arrange(catalog, found)
  }

  // ---------------------------------------------------------------------------------------
  // The service
  // ---------------------------------------------------------------------------------------

  class TimeSeriesService {
    /** The group table: group id -> group record. */
    var groups: map<Uuid, GroupEntity>
    const data: TimeSeriesDataRepository

    constructor (data: TimeSeriesDataRepository)
      ensures groups == map[] && this.data == data
    {
      groups := map[];
      this.data := data;
    }

    /** getAllTimeSeriesGroupsInfos: one entry per stored group. */
    function AllGroupsInfos(): (r: set<GroupInfos>)
      reads this
      ensures forall id :: GroupInfos(id) in r <==> id in groups
      ensures |r| == |groups|
    {
      var r := set id | id in groups :: GroupInfos(id);
      assert r == GroupInfosOf(groups.Keys);
      InfosCount(groups.Keys);
      r
    }

    /**
     * createTimeSeriesGroup. The index is validated before anything is written; the group
     * record is written under the id the table generates, then the data. The rows of the
     * data workers that committed stay. rollback says whether the transaction manager honours
     * the method's javax.transaction.Transactional annotation: if it does, a failed data save
     * rolls the group record back; if it does not, the record was committed on its own and stays.
     */
    method Create(series: seq<TimeSeries>, id: Uuid, faults: set<nat>, rollback: bool)
      returns (r: Result<GroupInfos>, ghost orders: seq<seq<string>>)
      requires id !in groups
      modifies this, data
      ensures IndexCheck(series).Err? ==>
        r == Err(IndexCheck(series).error) && groups == old(groups) && data.rows == old(data.rows)
      ensures IndexCheck(series).Ok? ==>
        |orders| == |series| && forall i :: 0 <= i < |series| ==> Enumerates(orders[i], series[i].meta.tags)
      ensures IndexCheck(series).Ok? ==> data.rows == SaveSpec(old(data.rows), data.writeConfig, id, series, faults).0
      ensures IndexCheck(series).Ok? && SaveSpec(old(data.rows), data.writeConfig, id, series, faults).1.Ok? ==>
        r == Ok(GroupInfos(id)) && groups == old(groups)[id := Entity(series, orders)]
      ensures IndexCheck(series).Ok? && SaveSpec(old(data.rows), data.writeConfig, id, series, faults).1.Err? ==>
        r == Err(SaveSpec(old(data.rows), data.writeConfig, id, series, faults).1.error) &&
        (rollback ==> groups == old(groups)) &&
        (!rollback ==> groups == old(groups)[id := Entity(series, orders)])
    {
      var check := SynchronizeIndex(series);
      if check.Err? {
        return Err(check.error), [];
      }
      IndexCheckMeaning(series);
      var index := series[0].meta.index;
      var indexType := TypeTag(index.kind);
      var indexJson := IndexToJson(index);
      var metadatasJson;
      metadatasJson, orders := IndividualToJson(series);
      var before := groups;
      groups := groups[id := GroupEntity(indexType, indexJson, metadatasJson)];
      var saved := data.Save(id, series, faults);
      if saved.Err? {
        if rollback {
          groups := before;
        }
        return Err(saved.error), orders;
      }
      return Ok(GroupInfos(id)), orders;
    }

    /** getTimeSeriesGroupMetadataJson: the record parsed back and written as one summary document. */
    method GetMetadataJson(uuid: Uuid) returns (r: Result<seq<Event>>, ghost orders: seq<seq<string>>)
      ensures MetadataJsonOf(groups, uuid, r, orders)
      ensures uuid !in groups ==> r == Err(NotFound(uuid))
      ensures r.Ok? <==>
        && uuid in groups
        && IndexFromJson(groups[uuid].indexType, groups[uuid].index).Ok?
        && ListFromJsonWithIndex(IndexFromJson(groups[uuid].indexType, groups[uuid].index).value, groups[uuid].metadatas).Ok?
      ensures r.Ok? ==>
        Decode(r.value).Some? && Decode(r.value).value.JObj? && |Decode(r.value).value.fields| == 4 &&
        Decode(r.value).value.fields[0] == Field("id", JStr(uuid))
    {
      if uuid !in groups {
        return Err(NotFound(uuid)), [];
      }
      var e := groups[uuid];
      var index := IndexFromJson(e.indexType, e.index);
      if index.Err? {
        return Err(index.error), [];
      }
      var metas := ListFromJsonWithIndex(index.value, e.metadatas);
      if metas.Err? {
        return Err(metas.error), [];
      }
      var text;
      text, orders := AllMetadatasToJson(uuid, index.value, metas.value);
      r := Ok(text);
    }

    /** getTimeSeriesGroup: the record parsed back, the data read, the series in catalog order. */
    method GetTimeSeriesGroup(uuid: Uuid, tryToCompress: bool, names: Option<seq<string>>, faults: set<nat>)
      returns (r: Result<seq<TimeSeries>>)
      ensures GroupRead(groups, data.rows, data.readConfig, uuid, tryToCompress, names, faults, r)
    {
      if uuid !in groups {
        return Err(NotFound(uuid));
      }
      var e := groups[uuid];
      var index := IndexFromJson(e.indexType, e.index);
      if index.Err? {
        return Err(index.error);
      }
      var catalog := MapFromJson(e.metadatas);
      if catalog.Err? {
        return Err(catalog.error);
      }
      var found := data.FindById(index.value, catalog.value, uuid, tryToCompress, names, faults);
      if found.Err? {
        return Err(found.error);
      }
      var byName := ByName(found.value);
      if byName.Err? {
        return Err(byName.error);
      }
      r := Ok(Ordered(CatalogKeys(catalog.value), byName.value));
    }

    /** deleteTimeSeriesGroup: the group's rows first, then its record; an unknown id changes nothing. */
    method Delete(uuid: Uuid)
      modifies this, data
      ensures groups == map g | g in old(groups) && g != uuid :: old(groups)[g]
      ensures forall g :: RowsOf(data.rows, g) == if g == uuid then map[] else RowsOf(old(data.rows), g)
    {
      data.Delete(uuid);
      groups := map g | g in groups && g != uuid :: groups[g];
    }
  }

  function GroupInfosOf(ids: set<Uuid>): set<GroupInfos>
  {
    set id | id in ids :: GroupInfos(id)
  }

  lemma {:induction false} InfosCount(ids: set<Uuid>)
    ensures |GroupInfosOf(ids)| == |ids|
    decreases |ids|
  {
    if ids != {} {
      var id :| id in ids;
      InfosCount(ids - {id});
      assert GroupInfosOf(ids) == GroupInfosOf(ids - {id}) + {GroupInfos(id)};
    }
  }
}
