/**
 * The metadata catalog: how the index and the per-series metadata of a group are written
 * to JSON, read back, looked up by name, and summarised in one group document.
 */
module MetadataService {
  import opened Domain
  import opened Json

  // ---------------------------------------------------------------------------------------
  // The index
  // ---------------------------------------------------------------------------------------

  /** writeIndex: the index library writes the body. */
  method WriteIndex(g: Generator, index: Index)
    modifies g
    ensures g.written == old(g.written) + Events(JIndex(index))
  {
    g.Emit(IndexBody(index));
  }

  /** indexToJson: the text of the index body alone. */
  method IndexToJson(index: Index) returns (text: seq<Event>)
    ensures Decode(text) == Some(JIndex(index))
    ensures text == Events(JIndex(index))
  {
    var g := new Generator();
    WriteIndex(g, index);
    text := g.written;
    DecodeEvents(JIndex(index));
  }

  predicate KnownIndexType(indexType: string)
  {
    indexType == REGULAR_TYPE || indexType == IRREGULAR_TYPE || indexType == INFINITE_TYPE
  }

  /**
   * readIndex: the type tag picks the parser of one of the three index kinds; that parser
   * accepts only a body of its own kind. Any other tag is an unknown index type.
   */
  function ReadIndex(indexType: string, body: Option<Json>): (r: Result<Index>)
    ensures !KnownIndexType(indexType) ==> r == Err(UnknownIndexType(indexType))
    ensures r.Ok? <==> KnownIndexType(indexType) && body.Some? && body.value.JIndex? &&
                       TypeTag(body.value.index.kind) == indexType
    ensures r.Ok? ==> body == Some(JIndex(r.value))
    ensures KnownIndexType(indexType) && r.Err? ==> r.error == IndexParse
  {
    var kind :=
      if indexType == REGULAR_TYPE then Some(Regular)
      else if indexType == IRREGULAR_TYPE then Some(Irregular)
      else if indexType == INFINITE_TYPE then Some(Infinite)
      else None;
    match kind
    case None => Err(UnknownIndexType(indexType))
    case Some(k) =>
      if body.Some? && body.value.JIndex? && body.value.index.kind == k then Ok(body.value.index)
      else Err(IndexParse)
  }

  /** indexFromJson: the tag is dispatched on before the text is read. */
  function IndexFromJson(indexType: string, text: seq<Event>): (r: Result<Index>)
    ensures !KnownIndexType(indexType) ==> r == Err(UnknownIndexType(indexType))
    ensures r.Ok? <==> KnownIndexType(indexType) && Decode(text).Some? && Decode(text).value.JIndex? &&
                       TypeTag(Decode(text).value.index.kind) == indexType
    ensures r.Ok? ==> Decode(text) == Some(JIndex(r.value)) && TypeTag(r.value.kind) == indexType
    ensures KnownIndexType(indexType) && r.Err? ==> r.error == IndexParse
  {
    ReadIndex(indexType, Decode(text))
  }

  /** Reading the text written for an index, under the index's own type tag, gives it back. */
  lemma IndexRoundTrip(index: Index)
    ensures IndexFromJson(TypeTag(index.kind), Events(JIndex(index))) == Ok(index)
  {
    DecodeEvents(JIndex(index));
  }

  /** The tags are the only thing that tells the three kinds apart: the tags are distinct. */
  lemma TypeTagsDistinct(k1: IndexKind, k2: IndexKind)
    ensures TypeTag(k1) == TypeTag(k2) <==> k1 == k2
    ensures KnownIndexType(TypeTag(k1))
  {
    assert REGULAR_TYPE[0] == 'r' && IRREGULAR_TYPE[0] == 'i' && INFINITE_TYPE[0] == 'i';
    assert IRREGULAR_TYPE[1] == 'r' && INFINITE_TYPE[1] == 'n';
  }

  // ---------------------------------------------------------------------------------------
  // Writing the per-series metadata
  // ---------------------------------------------------------------------------------------

  /**
   * An iteration order of a map's entry set: distinct keys of the map, as many as it has,
   * so every key exactly once (EnumeratesCovers).
   */
  predicate Enumerates(order: seq<string>, tags: map<string, string>)
  {
    Distinct(order) && (forall i :: 0 <= i < |order| ==> order[i] in tags) && |order| == |tags|
  }

  /** The keys a sequence holds. */
  function Elements(order: seq<string>): (r: set<string>)
    ensures forall k :: k in r <==> k in order
  {
    if order == [] then {}
    else
      var r := Elements(order[..|order| - 1]) + {order[|order| - 1]};
      assert order == order[..|order| - 1] + [order[|order| - 1]];
      r
  }

  lemma {:induction false} DistinctElements(order: seq<string>)
    requires Distinct(order)
    ensures |Elements(order)| == |order|
  {
    if order != [] {
      var pre := order[..|order| - 1];
      assert Distinct(pre) by {
        forall i, j | 0 <= i < j < |pre| ensures pre[i] != pre[j] {
          assert pre[i] == order[i] && pre[j] == order[j];
        }
      }
      DistinctElements(pre);
      assert order[|order| - 1] !in pre by {
        forall i | 0 <= i < |pre| ensures pre[i] != order[|order| - 1] {
          assert pre[i] == order[i];
        }
      }
    }
  }

  lemma SubsetOfSameSize(a: set<string>, b: set<string>)
    requires a <= b && |a| == |b|
    ensures a == b
  {
    assert b == (b - a) + a;
    assert (b - a) * a == {};
    assert b - a == {};
  }

  /** An enumeration order lists every key of the map. */
  lemma EnumeratesCovers(order: seq<string>, tags: map<string, string>)
    requires Enumerates(order, tags)
    ensures forall k :: k in tags <==> k in order
  {
    DistinctElements(order);
    SubsetOfSameSize(Elements(order), tags.Keys);
  }

  /** One single-key object per tag entry, in the iteration order. */
  function TagItems(tags: map<string, string>, order: seq<string>): seq<Json>
    requires forall i :: 0 <= i < |order| ==> order[i] in tags
  {
    seq(|order|, i requires 0 <= i < |order| => JObj([Field(order[i], JStr(tags[order[i]]))]))
  }

  /** The record written for one series: {name, dataType, tags: [{k: v}, ...]}. */
  function RecordJson(m: Metadata, order: seq<string>): Json
    requires Enumerates(order, m.tags)
  {
    JObj([Field("name", JStr(m.name)), Field("dataType", JStr(EnumName(m.dataType))),
          Field("tags", JArr(TagItems(m.tags, order)))])
  }

  /** The array written for a list of metadata, one record per element in list order. */
  function MetadataArray(metas: seq<Metadata>, orders: seq<seq<string>>): Json
    requires |orders| == |metas|
    requires forall i :: 0 <= i < |metas| ==> Enumerates(orders[i], metas[i].tags)
  {
    JArr(seq(|metas|, i requires 0 <= i < |metas| => RecordJson(metas[i], orders[i])))
  }

  /** One tag entry: a single-key object. */
  method WriteTag(g: Generator, key: string, value: string)
    modifies g
    ensures g.written == old(g.written) + Events(JObj([Field(key, JStr(value))]))
  {
    g.Emit(StartObject);
    g.StringField(key, value);
    g.Emit(EndObject);
    assert FieldEvents([Field(key, JStr(value))]) == [FieldName(key)] + Events(JStr(value));
  }

  lemma TagItemsSnoc(tags: map<string, string>, order: seq<string>, k: string)
    requires (forall i :: 0 <= i < |order| ==> order[i] in tags) && k in tags
    ensures ItemEvents(TagItems(tags, order + [k])) ==
      ItemEvents(TagItems(tags, order)) + Events(JObj([Field(k, JStr(tags[k]))]))
  {
    assert TagItems(tags, order + [k]) == TagItems(tags, order) + [JObj([Field(k, JStr(tags[k]))])];
    ItemEventsSnoc(TagItems(tags, order), JObj([Field(k, JStr(tags[k]))]));
  }

  /** The keys taken so far from the entry set, each once, and those still to take. */
  ghost predicate Listed(order: seq<string>, tags: map<string, string>, remaining: set<string>)
  {
    && remaining <= tags.Keys
    && Distinct(order)
    && (forall i :: 0 <= i < |order| ==> order[i] in tags && order[i] !in remaining)
    && |order| + |remaining| == |tags|
  }

  lemma ListedStep(order: seq<string>, tags: map<string, string>, remaining: set<string>, k: string)
    requires Listed(order, tags, remaining) && k in remaining
    ensures Listed(order + [k], tags, remaining - {k})
  {
    var order' := order + [k];
    forall i, j | 0 <= i < j < |order'| ensures order'[i] != order'[j] {
      if j < |order| {
        assert order'[i] == order[i] && order'[j] == order[j];
      } else {
        assert order'[i] == order[i];
      }
    }
  }

  /** The events of the tag entries for the keys of order, one single-key object each. */
  function TagEvents(tags: map<string, string>, order: seq<string>): seq<Event>
    requires forall i :: 0 <= i < |order| ==> order[i] in tags
  {
    if order == [] then []
    else
      var k := order[|order| - 1];
      TagEvents(tags, order[..|order| - 1]) + Events(JObj([Field(k, JStr(tags[k]))]))
  }

  lemma {:induction false} TagEventsAreItems(tags: map<string, string>, order: seq<string>)
    requires forall i :: 0 <= i < |order| ==> order[i] in tags
    ensures TagEvents(tags, order) == ItemEvents(TagItems(tags, order))
  {
    if order != [] {
      var pre, k := order[..|order| - 1], order[|order| - 1];
      TagEventsAreItems(tags, pre);
      assert order == pre + [k];
      TagItemsSnoc(tags, pre, k);
    }
  }

  /** The loop over the tag map's entry set, one single-key object per entry. */
  method WriteTags(g: Generator, tags: map<string, string>) returns (ghost order: seq<string>)
    modifies g
    ensures Enumerates(order, tags)
    ensures g.written == old(g.written) + TagEvents(tags, order)
  {
    order := [];
    var remaining := tags.Keys;
    while remaining != {}
      invariant Listed(order, tags, remaining)
      invariant g.written == old(g.written) + TagEvents(tags, order)
      decreases remaining
    {
      var k :| k in remaining;
      WriteTag(g, k, tags[k]);
      ListedStep(order, tags, remaining, k);
      assert (order + [k])[..|order|] == order;
      order := order + [k];
      remaining := remaining - {k};
    }
  }

  /** writeOneIndividualMetadatas: the tag entries come out in the map's iteration order. */
  method WriteOne(g: Generator, m: Metadata) returns (ghost order: seq<string>)
    modifies g
    ensures Enumerates(order, m.tags)
    ensures g.written == old(g.written) + Events(RecordJson(m, order))
  {
    WriteRecordHead(g, m);
    order := WriteTags(g, m.tags);
    TagEventsAreItems(m.tags, order);
    g.Emit(EndArray);
    g.Emit(EndObject);
    RecordEvents(m, order);
  }

  /** The fields written before the first tag entry. */
  method WriteRecordHead(g: Generator, m: Metadata)
    modifies g
    ensures g.written == old(g.written) + RecordHead(m)
  {
    g.Emit(StartObject);
    g.StringField("name", m.name);
    g.StringField("dataType", EnumName(m.dataType));
    g.Emit(FieldName("tags"));
    g.Emit(StartArray);
  }

  function RecordHead(m: Metadata): seq<Event>
  {
    [StartObject, FieldName("name"), StringValue(m.name), FieldName("dataType"),
     StringValue(EnumName(m.dataType)), FieldName("tags"), StartArray]
  }

  lemma RecordEvents(m: Metadata, order: seq<string>)
    requires Enumerates(order, m.tags)
    ensures Events(RecordJson(m, order)) ==
      RecordHead(m) + ItemEvents(TagItems(m.tags, order)) + [EndArray, EndObject]
  {
    FieldEvents3(Field("name", JStr(m.name)), Field("dataType", JStr(EnumName(m.dataType))),
                 Field("tags", JArr(TagItems(m.tags, order))));
  }

  /** writeIndividualMetadatas: an array of records in input order. */
  method WriteIndividual(g: Generator, metas: seq<Metadata>) returns (ghost orders: seq<seq<string>>)
    modifies g
    ensures |orders| == |metas|
    ensures forall i :: 0 <= i < |metas| ==> Enumerates(orders[i], metas[i].tags)
    ensures g.written == old(g.written) + Events(MetadataArray(metas, orders))
  {
    g.Emit(StartArray);
    ghost var head := g.written;
    orders := [];
    var i := 0;
    while i < |metas|
      invariant 0 <= i <= |metas| && |orders| == i
      invariant forall j :: 0 <= j < i ==> Enumerates(orders[j], metas[j].tags)
      invariant g.written == head + RecordsText(metas, orders)
    {
      var order := WriteOne(g, metas[i]);
      OrdersSnoc(metas, orders, order);
      orders := orders + [order];
      i := i + 1;
    }
    g.Emit(EndArray);
    RecordsTextIsItems(metas, orders);
  }

  /** The events of the records for the first |orders| metadata, written one after another. */
  function RecordsText(metas: seq<Metadata>, orders: seq<seq<string>>): seq<Event>
    requires |orders| <= |metas|
    requires forall j :: 0 <= j < |orders| ==> Enumerates(orders[j], metas[j].tags)
  {
    if orders == [] then []
    else
      var k := |orders| - 1;
      RecordsText(metas, orders[..k]) + Events(RecordJson(metas[k], orders[k]))
  }

  /** One more record written: its order enumerates its tags, and its events come last. */
  lemma OrdersSnoc(metas: seq<Metadata>, orders: seq<seq<string>>, order: seq<string>)
    requires |orders| < |metas|
    requires forall j :: 0 <= j < |orders| ==> Enumerates(orders[j], metas[j].tags)
    requires Enumerates(order, metas[|orders|].tags)
    ensures forall j :: 0 <= j < |orders| + 1 ==> Enumerates((orders + [order])[j], metas[j].tags)
    ensures RecordsText(metas, orders + [order]) ==
      RecordsText(metas, orders) + Events(RecordJson(metas[|orders|], order))
  {
    forall j | 0 <= j < |orders| + 1 ensures Enumerates((orders + [order])[j], metas[j].tags) {
      if j < |orders| {
        assert (orders + [order])[j] == orders[j];
      }
    }
    assert (orders + [order])[..|orders|] == orders;
  }

  /** The records written one after another are the items of the metadata array. */
  lemma {:induction false} RecordsTextIsItems(metas: seq<Metadata>, orders: seq<seq<string>>)
    requires |orders| == |metas|
    requires forall j :: 0 <= j < |orders| ==> Enumerates(orders[j], metas[j].tags)
    ensures RecordsText(metas, orders) == ItemEvents(MetadataArray(metas, orders).items)
  {
    if orders != [] {
      var k := |orders| - 1;
      RecordsTextIsItems(metas[..k], orders[..k]);
      RecordsTextPrefix(metas, orders[..k]);
      var items := MetadataArray(metas, orders).items;
      assert items == MetadataArray(metas[..k], orders[..k]).items + [RecordJson(metas[k], orders[k])];
      ItemEventsSnoc(MetadataArray(metas[..k], orders[..k]).items, RecordJson(metas[k], orders[k]));
    }
  }

  /** The records text depends only on the metadata it has orders for. */
  lemma {:induction false} RecordsTextPrefix(metas: seq<Metadata>, orders: seq<seq<string>>)
    requires |orders| <= |metas|
    requires forall j :: 0 <= j < |orders| ==> Enumerates(orders[j], metas[j].tags)
    ensures RecordsText(metas[..|orders|], orders) == RecordsText(metas, orders)
    decreases |orders|
  {
    if orders != [] {
      var k := |orders| - 1;
      RecordsTextPrefix(metas, orders[..k]);
      RecordsTextPrefix(metas[..|orders|], orders[..k]);
      assert metas[..|orders|][..k] == metas[..k];
    }
  }

  function Metadatas(series: seq<TimeSeries>): (r: seq<Metadata>)
    ensures |r| == |series| && forall i :: 0 <= i < |series| ==> r[i] == series[i].meta
  {
    seq(|series|, i requires 0 <= i < |series| => series[i].meta)
  }

  /** individualTimeSeriesMetadatasToJson: the metadata of the series, as one array. */
  method IndividualToJson(series: seq<TimeSeries>) returns (text: seq<Event>, ghost orders: seq<seq<string>>)
    ensures |orders| == |series|
    ensures forall i :: 0 <= i < |series| ==> Enumerates(orders[i], series[i].meta.tags)
    ensures text == Events(MetadataArray(Metadatas(series), orders))
    ensures ListFromJson(text).Ok? && |ListFromJson(text).value| == |series|
    ensures forall i :: 0 <= i < |series| ==> NameOf(ListFromJson(text).value[i]) == Ok(series[i].meta.name)
    ensures forall index: Index :: (forall i :: 0 <= i < |series| ==> Handled(series[i].meta.dataType)) ==>
      ListFromJsonWithIndex(index, text) == Ok(seq(|series|, i requires 0 <= i < |series| => series[i].meta.(index := index)))
  {
    var g := new Generator();
    var metas := Metadatas(series);
    orders := WriteIndividual(g, metas);
    text := g.written;
    assert text == Events(MetadataArray(metas, orders));
    ArrayNames(metas, orders);
    forall index: Index | forall i :: 0 <= i < |series| ==> Handled(series[i].meta.dataType)
      ensures ListFromJsonWithIndex(index, text) ==
        Ok(seq(|series|, i requires 0 <= i < |series| => series[i].meta.(index := index)))
    {
      SeriesListRoundTrip(series, orders, index);
    }
  }

  /** The metadata text written for a list of series reads back as their metadata, with the supplied index. */
  lemma SeriesListRoundTrip(series: seq<TimeSeries>, orders: seq<seq<string>>, index: Index)
    requires |orders| == |series|
    requires forall i :: 0 <= i < |series| ==> Enumerates(orders[i], series[i].meta.tags) && Handled(series[i].meta.dataType)
    ensures ListFromJsonWithIndex(index, Events(MetadataArray(Metadatas(series), orders))) ==
      Ok(seq(|series|, i requires 0 <= i < |series| => series[i].meta.(index := index)))
  {
    var metas := Metadatas(series);
    ListRoundTrip(metas, orders, index);
    assert seq(|metas|, i requires 0 <= i < |metas| => Metadata(metas[i].name, metas[i].dataType, metas[i].tags, index)) ==
           seq(|series|, i requires 0 <= i < |series| => series[i].meta.(index := index));
  }

  /** The group document: id, indexType, the index under its type tag, then metadatas. */
  function SummaryJson(id: Uuid, index: Index, metas: seq<Metadata>, orders: seq<seq<string>>): Json
    requires |orders| == |metas|
    requires forall i :: 0 <= i < |metas| ==> Enumerates(orders[i], metas[i].tags)
  {
    JObj([Field("id", JStr(id)), Field("indexType", JStr(TypeTag(index.kind))),
          Field(TypeTag(index.kind), JIndex(index)), Field("metadatas", MetadataArray(metas, orders))])
  }

  /** allMetadatasToJson */
  method AllMetadatasToJson(id: Uuid, index: Index, metas: seq<Metadata>)
    returns (text: seq<Event>, ghost orders: seq<seq<string>>)
    ensures |orders| == |metas|
    ensures forall i :: 0 <= i < |metas| ==> Enumerates(orders[i], metas[i].tags)
    ensures text == Events(SummaryJson(id, index, metas, orders))
    ensures Decode(text).Some? && Decode(text).value.JObj? && |Decode(text).value.fields| == 4
    ensures var f := Decode(text).value.fields;
      && f[0] == Field("id", JStr(id))
      && f[1] == Field("indexType", JStr(TypeTag(index.kind)))
      && f[2] == Field(TypeTag(index.kind), JIndex(index))
      && f[3].key == "metadatas" && f[3].value.JArr? && |f[3].value.items| == |metas|
      && forall i :: 0 <= i < |metas| ==> NameOf(f[3].value.items[i]) == Ok(metas[i].name)
  {
    var g := new Generator();
    WriteSummaryHead(g, id, index);
    orders := WriteIndividual(g, metas);
    g.Emit(EndObject);
    text := g.written;
    SummaryEvents(id, index, metas, orders);
    SummaryFields(id, index, metas, orders);
    ArrayItemNames(metas, orders);
  }

  /** The fields written before the metadata array. */
  method WriteSummaryHead(g: Generator, id: Uuid, index: Index)
    modifies g
    ensures g.written == old(g.written) + SummaryHead(id, index)
  {
    g.Emit(StartObject);
    g.StringField("id", id);
    g.StringField("indexType", TypeTag(index.kind));
    g.Emit(FieldName(TypeTag(index.kind)));
    WriteIndex(g, index);
    g.Emit(FieldName("metadatas"));
  }

  function SummaryHead(id: Uuid, index: Index): seq<Event>
  {
    [StartObject, FieldName("id"), StringValue(id), FieldName("indexType"), StringValue(TypeTag(index.kind)),
     FieldName(TypeTag(index.kind)), IndexBody(index), FieldName("metadatas")]
  }

  lemma SummaryEvents(id: Uuid, index: Index, metas: seq<Metadata>, orders: seq<seq<string>>)
    requires |orders| == |metas|
    requires forall i :: 0 <= i < |metas| ==> Enumerates(orders[i], metas[i].tags)
    ensures Events(SummaryJson(id, index, metas, orders)) ==
      SummaryHead(id, index) + Events(MetadataArray(metas, orders)) + [EndObject]
  {
    FieldEvents4(Field("id", JStr(id)), Field("indexType", JStr(TypeTag(index.kind))),
                 Field(TypeTag(index.kind), JIndex(index)), Field("metadatas", MetadataArray(metas, orders)));
  }

  /** The fields of the group document, read back, in the order the generator wrote them. */
  lemma SummaryFields(id: Uuid, index: Index, metas: seq<Metadata>, orders: seq<seq<string>>)
    requires |orders| == |metas|
    requires forall i :: 0 <= i < |metas| ==> Enumerates(orders[i], metas[i].tags)
    ensures Decode(Events(SummaryJson(id, index, metas, orders))) == Some(SummaryJson(id, index, metas, orders))
    ensures var f := SummaryJson(id, index, metas, orders).fields;
      |f| == 4 && f[0].key == "id" && f[1].key == "indexType" && f[2].key == TypeTag(index.kind) &&
      f[3].key == "metadatas" && f[2].value == JIndex(index) && f[1].value == JStr(f[2].key)
  {
    DecodeEvents(SummaryJson(id, index, metas, orders));
  }

  // ---------------------------------------------------------------------------------------
  // Reading the per-series metadata back
  // ---------------------------------------------------------------------------------------

  /** individualMetadatasListFromJson: the text must hold one JSON array. */
  function ListFromJson(text: seq<Event>): (r: Result<seq<Json>>)
    ensures r.Ok? <==> Decode(text).Some? && Decode(text).value.JArr?
    ensures r.Ok? ==> Decode(text) == Some(JArr(r.value))
    ensures r.Err? ==> r.error == MetadataParse
  {
    match Decode(text)
    case Some(JArr(items)) => Ok(items)
    case _ => Err(MetadataParse)
  }

  /** The name of a record: (String) map.get("name"). */
  function NameOf(rec: Json): (r: Result<string>)
    ensures r.Ok? <==> rec.JObj? && Lookup(rec.fields, "name").Some? && Lookup(rec.fields, "name").value.JStr?
    ensures r.Ok? ==> rec.JObj? && Lookup(rec.fields, "name") == Some(JStr(r.value))
    ensures r.Err? ==> r.error == MalformedMetadata
  {
    if rec.JObj? then
      match Lookup(rec.fields, "name")
      case Some(JStr(n)) => Ok(n)
      case _ => Err(MalformedMetadata)
    else Err(MalformedMetadata)
  }

  /** The name-keyed LinkedHashMap of individualMetadatasMapFromJson, in insertion order. */
  type Catalog = seq<(string, Json)>

  function CatalogKeys(c: Catalog): (r: seq<string>)
    ensures |r| == |c| && forall i :: 0 <= i < |c| ==> r[i] == c[i].0
  {
    seq(|c|, i requires 0 <= i < |c| => c[i].0)
  }

  function CatalogGet(c: Catalog, name: string): (r: Option<Json>)
    ensures r.Some? <==> name in CatalogKeys(c)
    ensures r.Some? ==> exists i :: 0 <= i < |c| && c[i] == (name, r.value)
  {
    if c == [] then None
    else if c[0].0 == name then Some(c[0].1)
    else
      var r := CatalogGet(c[1..], name);
      assert CatalogKeys(c) == [c[0].0] + CatalogKeys(c[1..]);
      assert r.Some? ==> exists i :: 0 <= i < |c| && c[i] == (name, r.value) by {
        if r.Some? {
          var i :| 0 <= i < |c[1..]| && c[1..][i] == (name, r.value);
          assert c[i + 1] == (name, r.value);
        }
      }
      r
  }

  /** Collectors.toMap(name, identity, (e1, e2) -> e1, LinkedHashMap::new), record by record. */
  function CatalogFold(items: seq<Json>, acc: Catalog): Result<Catalog>
    decreases |items|
  {
    if items == [] then Ok(acc)
    else match NameOf(items[0])
      case Err(e) => Err(e)
      case Ok(n) =>
        CatalogFold(items[1..], if n in CatalogKeys(acc) then acc else acc + [(n, items[0])])
  }

  /** individualMetadatasMapFromJson */
  function MapFromJson(text: seq<Event>): Result<Catalog>
  {
    match ListFromJson(text)
    case Err(e) => Err(e)
    case Ok(items) => CatalogFold(items, [])
  }

  /** The reference meaning of the catalog: the first record carrying the name. */
  function FirstNamed(items: seq<Json>, name: string): Option<Json>
  {
    if items == [] then None
    else if NameOf(items[0]) == Ok(name) then Some(items[0])
    else FirstNamed(items[1..], name)
  }

  function AllNamed(items: seq<Json>): bool
  {
    forall i :: 0 <= i < |items| ==> NameOf(items[i]).Ok?
  }

  /**
   * Building the catalog fails exactly when some record has no string name; otherwise its
   * keys are distinct and a name looks up the first record of that name (first one wins).
   */
  lemma {:induction false} CatalogFoldMeaning(items: seq<Json>, acc: Catalog, name: string)
    requires Distinct(CatalogKeys(acc))
    ensures CatalogFold(items, acc).Ok? <==> AllNamed(items)
    ensures CatalogFold(items, acc).Ok? ==>
      Distinct(CatalogKeys(CatalogFold(items, acc).value)) &&
      CatalogGet(CatalogFold(items, acc).value, name) ==
        (if name in CatalogKeys(acc) then CatalogGet(acc, name) else FirstNamed(items, name))
    decreases |items|
  {
    if items != [] {
      assert AllNamed(items) ==> AllNamed(items[1..]) by {
        if AllNamed(items) {
          forall i | 0 <= i < |items[1..]| ensures NameOf(items[1..][i]).Ok? { assert items[1..][i] == items[i + 1]; }
        }
      }
      assert AllNamed(items[1..]) && NameOf(items[0]).Ok? ==> AllNamed(items) by {
        if AllNamed(items[1..]) && NameOf(items[0]).Ok? {
          forall i | 0 <= i < |items| ensures NameOf(items[i]).Ok? { if i > 0 { assert items[i] == items[1..][i - 1]; } }
        }
      }
      match NameOf(items[0])
      case Err(_) =>
      case Ok(n) =>
        var acc' := if n in CatalogKeys(acc) then acc else acc + [(n, items[0])];
        assert Distinct(CatalogKeys(acc')) && (n in CatalogKeys(acc')) by {
          if n !in CatalogKeys(acc) {
            assert CatalogKeys(acc') == CatalogKeys(acc) + [n];
          }
        }
        if n !in CatalogKeys(acc) {
          CatalogGetSnoc(acc, n, items[0], name);
        }
        CatalogFoldMeaning(items[1..], acc', name);
    }
  }

  lemma {:induction false} CatalogGetSnoc(acc: Catalog, n: string, rec: Json, name: string)
    requires n !in CatalogKeys(acc)
    ensures CatalogGet(acc + [(n, rec)], name) == if name == n then Some(rec) else CatalogGet(acc, name)
    decreases |acc|
  {
    if acc != [] {
      assert (acc + [(n, rec)])[1..] == acc[1..] + [(n, rec)];
      assert CatalogKeys(acc) == [acc[0].0] + CatalogKeys(acc[1..]);
      CatalogGetSnoc(acc[1..], n, rec, name);
    } else {
      assert CatalogKeys([(n, rec)]) == [n];
    }
  }

  /** The records paired with their names, in list order. */
  function Keyed(names: seq<string>, items: seq<Json>): seq<(string, Json)>
    requires |names| == |items|
  {
    if items == [] then [] else [(names[0], items[0])] + Keyed(names[1..], items[1..])
  }

  lemma {:induction false} KeyedIndex(names: seq<string>, items: seq<Json>)
    requires |names| == |items|
    ensures |Keyed(names, items)| == |items|
    ensures forall i :: 0 <= i < |items| ==> Keyed(names, items)[i] == (names[i], items[i])
  {
    if items != [] {
      KeyedIndex(names[1..], items[1..]);
    }
  }

  /** With distinct record names, the catalog is the records keyed by name, in list order. */
  lemma {:induction false} CatalogOfDistinct(items: seq<Json>, acc: Catalog, names: seq<string>)
    requires |names| == |items| && Distinct(CatalogKeys(acc) + names)
    requires forall i :: 0 <= i < |items| ==> NameOf(items[i]) == Ok(names[i])
    ensures CatalogFold(items, acc) == Ok(acc + Keyed(names, items))
    decreases |items|
  {
    if items == [] {
      assert acc + [] == acc;
    } else {
      var acc' := acc + [(names[0], items[0])];
      assert names[0] !in CatalogKeys(acc) by {
        var keys := CatalogKeys(acc);
        forall j | 0 <= j < |keys| ensures keys[j] != names[0] {
          assert (keys + names)[j] == keys[j];
          assert (keys + names)[|keys|] == names[0];
        }
      }
      assert CatalogKeys(acc') + names[1..] == CatalogKeys(acc) + names;
      assert forall i :: 0 <= i < |items[1..]| ==> NameOf(items[1..][i]) == Ok(names[1..][i]) by {
        forall i | 0 <= i < |items[1..]| ensures NameOf(items[1..][i]) == Ok(names[1..][i]) {
          assert items[1..][i] == items[i + 1] && names[1..][i] == names[i + 1];
        }
      }
      CatalogOfDistinct(items[1..], acc', names[1..]);
      var later := Keyed(names[1..], items[1..]);
      assert Keyed(names, items) == [(names[0], items[0])] + later;
      AppendAssoc(acc, [(names[0], items[0])], later);
    }
  }

  /** One tag entry: the first key of a single-key object and the string under it. */
  function TagEntry(e: Json): (r: Result<(string, string)>)
    ensures r.Ok? <==> e.JObj? && e.fields != [] && Lookup(e.fields, e.fields[0].key).Some? &&
                       Lookup(e.fields, e.fields[0].key).value.JStr?
    ensures r.Ok? ==> e.JObj? && e.fields != [] && r.value.0 == e.fields[0].key &&
                      Lookup(e.fields, r.value.0) == Some(JStr(r.value.1))
    ensures r.Err? ==> r.error == MalformedMetadata
  {
    if e.JObj? && e.fields != [] then
      match Lookup(e.fields, e.fields[0].key)
      case Some(JStr(v)) => Ok((e.fields[0].key, v))
      case _ => Err(MalformedMetadata)
    else Err(MalformedMetadata)
  }

  /** Collectors.toMap over the tag entries: a repeated key throws. */
  function TagsFold(entries: seq<Json>, acc: map<string, string>): Result<map<string, string>>
    decreases |entries|
  {
    if entries == [] then Ok(acc)
    else match TagEntry(entries[0])
      case Err(e) => Err(e)
      case Ok((k, v)) => if k in acc then Err(DuplicateTag(k)) else TagsFold(entries[1..], acc[k := v])
  }

  /** timeSeriesMetadataFromParsed: tags first, then the name, then the data type. */
  function FromParsed(index: Index, rec: Json): Result<Metadata>
  {
    if !rec.JObj? then Err(MalformedMetadata)
    else match Lookup(rec.fields, "tags")
      case Some(JArr(entries)) =>
        (match TagsFold(entries, map[])
         case Err(e) => Err(e)
         case Ok(tags) =>
           match Lookup(rec.fields, "name")
           case Some(JStr(name)) =>
             (match Lookup(rec.fields, "dataType")
              case Some(JStr(typeName)) =>
                (match ParseDataType(typeName)
                 case Err(e) => Err(e)
                 case Ok(t) => Ok(Metadata(name, t, tags, index)))
              case _ => Err(MalformedMetadata))
           case _ => Err(MalformedMetadata))
      case _ => Err(MalformedMetadata)
  }

  /** getMetadata: a name the catalog lacks gives a null record, which fails. */
  function GetMetadata(index: Index, catalog: Catalog, name: string): (r: Result<Metadata>)
    ensures name !in CatalogKeys(catalog) ==> r == Err(NoMetadata(name))
    ensures name in CatalogKeys(catalog) ==>
      CatalogGet(catalog, name).Some? && r == FromParsed(index, CatalogGet(catalog, name).value)
    ensures r.Ok? ==> r.value.index == index
  {
    match CatalogGet(catalog, name)
    case None => Err(NoMetadata(name))
    case Some(rec) => FromParsed(index, rec)
  }

  /** timeseriesMetadataListFromJson: every record, in list order; the first failure wins. */
  function MetadataList(index: Index, items: seq<Json>): (r: Result<seq<Metadata>>)
    ensures r.Ok? <==> forall i :: 0 <= i < |items| ==> FromParsed(index, items[i]).Ok?
    ensures r.Ok? ==> |r.value| == |items|
    ensures r.Ok? ==> forall i :: 0 <= i < |items| ==> FromParsed(index, items[i]) == Ok(r.value[i])
  {
    var rs := seq(|items|, i requires 0 <= i < |items| => FromParsed(index, items[i]));
    assert forall i :: 0 <= i < |items| ==> rs[i] == FromParsed(index, items[i]);
    Collect(rs)
  }

  function ListFromJsonWithIndex(index: Index, text: seq<Event>): Result<seq<Metadata>>
  {
    match ListFromJson(text)
    case Err(e) => Err(e)
    case Ok(items) => MetadataList(index, items)
  }

  // ---------------------------------------------------------------------------------------
  // Round trips
  // ---------------------------------------------------------------------------------------

  /** The tags of the first k entries of an iteration order. */
  function TagsPrefix(tags: map<string, string>, order: seq<string>, k: nat): map<string, string>
    requires Enumerates(order, tags) && k <= |order|
  {
    if k == 0 then map[] else TagsPrefix(tags, order, k - 1)[order[k - 1] := tags[order[k - 1]]]
  }

  /** The first k entries hold the first k keys of the order, each with its tag value. */
  lemma {:induction false} TagsPrefixMeaning(tags: map<string, string>, order: seq<string>, k: nat)
    requires Enumerates(order, tags) && k <= |order|
    ensures forall key :: key in TagsPrefix(tags, order, k) <==> key in order[..k]
    ensures forall key :: key in TagsPrefix(tags, order, k) ==> key in tags && TagsPrefix(tags, order, k)[key] == tags[key]
  {
    if k > 0 {
      TagsPrefixMeaning(tags, order, k - 1);
      assert order[..k] == order[..k - 1] + [order[k - 1]];
    }
  }

  lemma TagEntryOf(key: string, value: string)
    ensures TagEntry(JObj([Field(key, JStr(value))])) == Ok((key, value))
  {
    assert Lookup([Field(key, JStr(value))], key) == Some(JStr(value)) by {
      assert [Field(key, JStr(value))][..0] == [];
    }
  }

  /** The prefix of k entries holds none of the later keys of a distinct order. */
  lemma PrefixLacksNext(tags: map<string, string>, order: seq<string>, k: nat)
    requires Enumerates(order, tags) && k < |order|
    ensures order[k] !in TagsPrefix(tags, order, k)
  {
    TagsPrefixMeaning(tags, order, k);
    assert forall j :: 0 <= j < k ==> order[..k][j] == order[j];
  }

  lemma PrefixAll(tags: map<string, string>, order: seq<string>)
    requires Enumerates(order, tags)
    ensures TagsPrefix(tags, order, |order|) == tags
  {
    var acc := TagsPrefix(tags, order, |order|);
    TagsPrefixMeaning(tags, order, |order|);
    EnumeratesCovers(order, tags);
    assert order[..|order|] == order;
    assert acc.Keys == tags.Keys;
  }

  /** The fold takes one entry with a fresh key into the accumulated map. */
  lemma TagsFoldCons(entries: seq<Json>, acc: map<string, string>, key: string, value: string)
    requires entries != [] && entries[0] == JObj([Field(key, JStr(value))]) && key !in acc
    ensures TagsFold(entries, acc) == TagsFold(entries[1..], acc[key := value])
  {
    TagEntryOf(key, value);
  }

  /** The tag entries written in an enumeration order read back as the tag map. */
  lemma {:induction false} TagsRoundTrip(tags: map<string, string>, order: seq<string>, k: nat)
    requires Enumerates(order, tags) && k <= |order|
    ensures TagsFold(TagItems(tags, order)[k..], TagsPrefix(tags, order, k)) == Ok(tags)
    decreases |order| - k
  {
    var items := TagItems(tags, order);
    if k == |order| {
      assert items[k..] == [];
      PrefixAll(tags, order);
    } else {
      var key := order[k];
      var rest := items[k..];
      assert rest[0] == JObj([Field(key, JStr(tags[key]))]);
      PrefixLacksNext(tags, order, k);
      TagsFoldCons(rest, TagsPrefix(tags, order, k), key, tags[key]);
      assert rest[1..] == items[k + 1..];
      assert TagsPrefix(tags, order, k)[key := tags[key]] == TagsPrefix(tags, order, k + 1);
      TagsRoundTrip(tags, order, k + 1);
    }
  }

  /** The three fields of a written record, looked up by key. */
  lemma RecordLookups(m: Metadata, order: seq<string>)
    requires Enumerates(order, m.tags)
    ensures RecordJson(m, order).JObj?
    ensures Lookup(RecordJson(m, order).fields, "name") == Some(JStr(m.name))
    ensures Lookup(RecordJson(m, order).fields, "dataType") == Some(JStr(EnumName(m.dataType)))
    ensures Lookup(RecordJson(m, order).fields, "tags") == Some(JArr(TagItems(m.tags, order)))
  {
    var f := RecordJson(m, order).fields;
    assert "name" != "tags" by { assert "name"[0] != "tags"[0]; }
    Lookup3(f[0], f[1], f[2], "name");
    Lookup3(f[0], f[1], f[2], "tags");
    Lookup3(f[0], f[1], f[2], "dataType");
  }

  lemma RecordName(m: Metadata, order: seq<string>)
    requires Enumerates(order, m.tags)
    ensures NameOf(RecordJson(m, order)) == Ok(m.name)
  {
    RecordLookups(m, order);
  }

  /** The tag entries of a written record read back as its tag map. */
  lemma RecordTags(m: Metadata, order: seq<string>)
    requires Enumerates(order, m.tags)
    ensures TagsFold(TagItems(m.tags, order), map[]) == Ok(m.tags)
  {
    TagsRoundTrip(m.tags, order, 0);
    assert TagItems(m.tags, order)[0..] == TagItems(m.tags, order);
  }

  /**
   * Parsing a written record gives back the name, the data type and the tag map, with the
   * supplied index attached; the iteration order of the tags is not kept and not needed.
   */
  lemma RecordRoundTrip(m: Metadata, order: seq<string>, index: Index)
    requires Enumerates(order, m.tags) && Handled(m.dataType)
    ensures NameOf(RecordJson(m, order)) == Ok(m.name)
    ensures FromParsed(index, RecordJson(m, order)) == Ok(Metadata(m.name, m.dataType, m.tags, index))
  {
    RecordLookups(m, order);
    RecordTags(m, order);
    DataTypeNameRoundTrip(m.dataType);
  }

  /** The written metadata of a list reads back as the same list, in the same order. */
  lemma ListRoundTrip(metas: seq<Metadata>, orders: seq<seq<string>>, index: Index)
    requires |orders| == |metas|
    requires forall i :: 0 <= i < |metas| ==> Enumerates(orders[i], metas[i].tags) && Handled(metas[i].dataType)
    ensures ListFromJsonWithIndex(index, Events(MetadataArray(metas, orders))) ==
      Ok(seq(|metas|, i requires 0 <= i < |metas| => Metadata(metas[i].name, metas[i].dataType, metas[i].tags, index)))
  {
    var a := MetadataArray(metas, orders);
    var expected := seq(|metas|, i requires 0 <= i < |metas| => Metadata(metas[i].name, metas[i].dataType, metas[i].tags, index));
    DecodeEvents(a);
    assert ListFromJson(Events(a)) == Ok(a.items);
    forall i | 0 <= i < |metas|
      ensures FromParsed(index, a.items[i]) == Ok(expected[i])
    {
      RecordRoundTrip(metas[i], orders[i], index);
    }
    var r := MetadataList(index, a.items);
    assert r.Ok? && |r.value| == |expected|;
    assert forall i :: 0 <= i < |metas| ==> r.value[i] == expected[i];
    assert r.value == expected;
  }

  /**
   * The catalog read from the metadata written for series of distinct names: the records
   * keyed by the names, in the series' order.
   */
  lemma CatalogRoundTrip(metas: seq<Metadata>, orders: seq<seq<string>>)
    requires |orders| == |metas|
    requires forall i :: 0 <= i < |metas| ==> Enumerates(orders[i], metas[i].tags)
    requires Distinct(seq(|metas|, i requires 0 <= i < |metas| => metas[i].name))
    ensures MapFromJson(Events(MetadataArray(metas, orders))) ==
      Ok(seq(|metas|, i requires 0 <= i < |metas| => (metas[i].name, RecordJson(metas[i], orders[i]))))
  {
    var a := MetadataArray(metas, orders);
    DecodeEvents(a);
    var names := seq(|metas|, i requires 0 <= i < |metas| => metas[i].name);
    forall i | 0 <= i < |metas| ensures NameOf(a.items[i]) == Ok(names[i]) {
      RecordName(metas[i], orders[i]);
    }
    assert CatalogKeys([]) + names == names;
    CatalogOfDistinct(a.items, [], names);
    KeyedIndex(names, a.items);
    assert [] + Keyed(names, a.items) ==
      seq(|metas|, i requires 0 <= i < |metas| => (metas[i].name, RecordJson(metas[i], orders[i])));
  }

  /** Each record of a written metadata array carries the name of its metadata. */
  lemma ArrayItemNames(metas: seq<Metadata>, orders: seq<seq<string>>)
    requires |orders| == |metas|
    requires forall i :: 0 <= i < |metas| ==> Enumerates(orders[i], metas[i].tags)
    ensures |MetadataArray(metas, orders).items| == |metas|
    ensures forall i :: 0 <= i < |metas| ==> NameOf(MetadataArray(metas, orders).items[i]) == Ok(metas[i].name)
  {
    forall i | 0 <= i < |metas| ensures NameOf(MetadataArray(metas, orders).items[i]) == Ok(metas[i].name) {
      RecordName(metas[i], orders[i]);
    }
  }

  /** A written metadata array reads back as one record per metadata, in order, each named. */
  lemma ArrayNames(metas: seq<Metadata>, orders: seq<seq<string>>)
    requires |orders| == |metas|
    requires forall i :: 0 <= i < |metas| ==> Enumerates(orders[i], metas[i].tags)
    ensures ListFromJson(Events(MetadataArray(metas, orders))) == Ok(MetadataArray(metas, orders).items)
    ensures |MetadataArray(metas, orders).items| == |metas|
    ensures forall i :: 0 <= i < |metas| ==> NameOf(MetadataArray(metas, orders).items[i]) == Ok(metas[i].name)
  {
    DecodeEvents(MetadataArray(metas, orders));
    ArrayItemNames(metas, orders);
  }
}
