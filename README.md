# A verified model of the timeseries-server storage engine

gridsuite's timeseries-server stores groups of co-indexed, named time series in a relational
store that has no time-series type. A group is created from a list of series that share one
index and one element type (double or string). The service then does three things:

- It writes a **group record**: the index type tag, the index as JSON, and the per-series
  metadata (name, data type, tags) as one JSON array.
- It **pivots** the columns into one JSON document per ordinal (series name -> value at that
  ordinal). These documents are inserted from several worker connections. The ordinal range
  is split into batches and worker ranges by ceiling divisions.
- A read **scatters** range selects over the same partition, optionally projected on a list of
  names. It **gathers** the rows in ordinal order and **detransposes** them back into per-name
  value lists. It rebuilds typed series from the metadata catalog and returns them in catalog
  order.

This Dafny project models that core:

| file | module | models |
|---|---|---|
| `domain.dfy` | `Domain` | the entities: metadata, index, value arrays, stored cells and documents, the data table, the errors |
| `partition.dfy` | `Partition` | the batch/worker arithmetic shared by the save and the read path, and the configuration defaults |
| `query_catalog.dfy` | `QueryCatalog` | the SQL constants and `makeSelect` |
| `pivot.dfy` | `Pivot` | the value-level meaning of the pivot: cells, row documents, range selects, the insertion-ordered maps, detransposition |
| `json.dfy` | `Json` | JSON trees, the event stream a JSON generator writes for them, and the reader of that stream |
| `metadata_service.dfy` | `MetadataService` | `TimeSeriesMetadataService`: the index and metadata writers and readers |
| `data_repository.dfy` | `DataRepository` | `TimeSeriesDataRepository`: `doSave`, `doFindById`, `doDelete` as a class over the data table |
| `service.dfy` | `Service` | `TimeSeriesService`: index synchronisation, creation, the two reads, deletion, listing, as a class over the group table |
| `roundtrip.dfy` | `RoundTrip` | end-to-end properties: a created group reads back as the series it was created from, in creation order |

The model makes the following choices:

- **Workers.** The save and read workers run one after another, in worker order. That is the
  order in which the source awaits and merges their results. Which workers fail is a
  parameter `faults` (a set of worker numbers) of both the save and the read: a save worker's
  connection or commit fails, a read worker's connection or query fails. The caller sees the
  exception of the first failed worker in worker order.
- **Failed saves.** A failed worker rolls back only its own rows. Workers that committed keep
  their rows. The table schema is not part of this model; the model *assumes* a unique
  (group, ordinal) key, which also fails a worker whose range already holds rows. The code
  never relies on it: every save from the service goes to a freshly generated group id.
- **Group creation.** Creation is annotated `javax.transaction.Transactional`. Whether that
  annotation takes effect depends on the Spring and Jakarta versions the service runs on,
  which the code does not fix. `Create` therefore takes a parameter `rollback`. When it holds,
  a failed data save rolls the group record back. When it does not, the record was committed
  on its own and stays, listed and readable beside the rows of the workers that committed.
  The committed data rows stay in both cases.
- **JSON text.** JSON text is represented by the event stream a `JsonGenerator` emits
  (`Json.Events`). Reading text back is `Json.Decode`.
- **Iteration order.** The iteration orders of `HashMap`s (tag maps, the transposed map) are
  chosen nondeterministically in the methods (`:|`). The tag orders are returned as ghost
  values, so contracts can name them. For the transposed map the choice only decides which
  error is reported; the repository's result is a map from name to series (see "## Left out").
- **Group ids.** The id the group table generates is a parameter of `Create`. Its only
  requirement is that no group has that id yet.

Method names: `TimeSeriesService` calls `individualTimeSeriesMetadatasToJson` and
`timeSeriesMetadataListFromJson`, while `TimeSeriesMetadataService` declares them as
`individualTimeseriesMetadatasToJson` and `timeseriesMetadataListFromJson`. The model treats
each pair as one method.

### What the code does that a reader might not expect

- `makeSelect` splices each name verbatim into the query, with no quoting or escaping.
  - It also puts no limit on the number of names. With 51 names or more the query passes more
    than 100 arguments, and the builder still returns it (`QueryCatalog.UncheckedCeiling`).
  - Nothing splits the name list into smaller queries.
- A read does not fill missing values.
  - A projected select gives `null` for a name that a stored document lacks.
  - An ordinal without a stored row contributes nothing.
  - Value lists stay in row order (`Pivot.DetransposedColumns`).
- A requested name that is not in the catalog is not filtered out. Its metadata lookup
  dereferences a null record, and the whole read fails (`NoMetadata`, in
  `MetadataService.GetMetadata`).
- Series come back in catalog order, and only those the data has
  (`Service.OrderedMeaning`). The catalog is the metadata record list, keyed by name, with
  the first record of each name kept.
- A read worker runs the same range select `batchinthread` times (the pass variable is
  unused). The model does so too (`DataRepository.ReadWorker`). Repeated puts change nothing.

## Model

Source paths are relative to the repository root.

| member | source | states |
|---|---|---|
| Domain.Collect | src/main/java/org/gridsuite/timeseries/server/TimeSeriesMetadataService.java:153-155 | collecting per-element results into a list succeeds exactly when every element does, keeping length and order; a failure is that of the first failing element |
| Domain.ParseDataType | src/main/java/org/gridsuite/timeseries/server/TimeSeriesMetadataService.java:140 | `valueOf` accepts exactly "DOUBLE" and "STRING", and the constant it gives has that text as its name |
| Domain.DataTypeNameRoundTrip | src/main/java/org/gridsuite/timeseries/server/TimeSeriesMetadataService.java:83 | the name written for a handled data type parses back to that data type |
| Partition.CeilDiv | src/main/java/org/gridsuite/timeseries/server/TimeSeriesDataRepository.java:93-97 | `(a + b - 1) / b` is the least q with q·b ≥ a, and is 0 only for a = 0 |
| Partition.MakePlan | src/main/java/org/gridsuite/timeseries/server/TimeSeriesDataRepository.java:90-97 | the plan exists exactly when the column count, batch size, batches per connection and row count are all at least 1; otherwise a division by zero is raised |
| Partition.PlanBounds | src/main/java/org/gridsuite/timeseries/server/TimeSeriesDataRepository.java:93-97 | each count of the plan is the least count covering its dividend: batch rows cover the batch size, batches the rows, workers the batches |
| Partition.PlanTiles | src/main/java/org/gridsuite/timeseries/server/TimeSeriesDataRepository.java:96-97 | no worker holds more batches than a connection is configured for, the first threadCount − 1 workers leave rows for the last one, and the worker spans tile the row range |
| Partition.WorkerRanges | src/main/java/org/gridsuite/timeseries/server/TimeSeriesDataRepository.java:146-149 | the worker ranges are non-empty and contiguous, start at 0, end at rowCount, and only the last can be shorter than a full span |
| Partition.OwnerOfRow | src/main/java/org/gridsuite/timeseries/server/TimeSeriesDataRepository.java:146-149 | every ordinal of the range lies in the range of exactly one worker, ordinal / span |
| QueryCatalog.Fragments | src/main/java/org/gridsuite/timeseries/server/TimeSeriesDataQueryCatalog.java:28 | one verbatim key/key-path fragment per name, in name order |
| QueryCatalog.ArgumentsShape | src/main/java/org/gridsuite/timeseries/server/TimeSeriesDataQueryCatalog.java:28 | the call gets 2n arguments: key and key path of name i at positions 2i and 2i + 1 |
| QueryCatalog.FragmentsAreArguments | src/main/java/org/gridsuite/timeseries/server/TimeSeriesDataQueryCatalog.java:28-30 | joining the per-name fragments with ", " is joining the 2n arguments with ", " |
| QueryCatalog.MakeSelect | src/main/java/org/gridsuite/timeseries/server/TimeSeriesDataQueryCatalog.java:20-32 | a null or empty name list selects whole documents; otherwise the query builds a document from the arguments of the names, in order |
| QueryCatalog.SameFilter | src/main/java/org/gridsuite/timeseries/server/TimeSeriesDataQueryCatalog.java:18-30 | both query shapes end in the same group/range filter and ordinal ordering, so they bind parameters alike |
| QueryCatalog.ProjectionIsNotSelectAll | src/main/java/org/gridsuite/timeseries/server/TimeSeriesDataQueryCatalog.java:23-30 | for a non-empty name list the query is a projection and never the select-all query |
| QueryCatalog.UncheckedCeiling | src/main/java/org/gridsuite/timeseries/server/TimeSeriesDataQueryCatalog.java:26-30 | with 51 names or more the projection passes more than 100 arguments and is still returned |
| Pivot.DoubleCell | src/main/java/org/gridsuite/timeseries/server/TimeSeriesDataRepository.java:122-126 | a double is stored as a JSON null exactly when it is NaN, otherwise as its number |
| Pivot.StringCell | src/main/java/org/gridsuite/timeseries/server/TimeSeriesDataRepository.java:133 | a string is stored unchanged, a missing string as null |
| Pivot.CellDouble | src/main/java/org/gridsuite/timeseries/server/TimeSeriesDataRepository.java:308-309 | a cell reads as a double unless it holds a string (the `Double.class::cast` throws ClassCastException); null reads as NaN; it inverts DoubleCell |
| Pivot.CellString | src/main/java/org/gridsuite/timeseries/server/TimeSeriesDataRepository.java:322 | a cell reads as a string unless it holds a number (`toArray(new String[0])` throws ArrayStoreException); it inverts StringCell |
| Pivot.CellRoundTrip | src/main/java/org/gridsuite/timeseries/server/TimeSeriesDataRepository.java:308-322 | a stored double or string value, NaN and null included, reads back as itself |
| Pivot.Columns | src/main/java/org/gridsuite/timeseries/server/TimeSeriesDataRepository.java:114-136 | the first series' type picks the getter; another type fails as an unsupported save; a series of the other type fails the cast; otherwise the columns are the series' values in order |
| Pivot.DocumentPrefixKeys | src/main/java/org/gridsuite/timeseries/server/TimeSeriesDataRepository.java:152-158 | a row document has exactly the series names as keys |
| Pivot.DocumentPrefixValues | src/main/java/org/gridsuite/timeseries/server/TimeSeriesDataRepository.java:152-158 | under each name sits the value of the last series of that name at that ordinal |
| Pivot.RowDocumentAt | src/main/java/org/gridsuite/timeseries/server/TimeSeriesDataRepository.java:152-158 | with distinct names, series m's value at the ordinal sits under series m's name |
| Pivot.RowsSeq | src/main/java/org/gridsuite/timeseries/server/TimeSeriesDataRepository.java:150-165 | the k-th row a worker adds is its (start + k)-th ordinal with that ordinal's document |
| Pivot.ToMapMeaning | src/main/java/org/gridsuite/timeseries/server/TimeSeriesDataRepository.java:167-168 | inserted (ordinal, document) pairs give a table keyed by their ordinals, the last pair of an ordinal winning |
| Pivot.ToMapRowsSeq | src/main/java/org/gridsuite/timeseries/server/TimeSeriesDataRepository.java:150-170 | the rows one worker inserts are exactly the documents of its range |
| Pivot.ShapeProjection | src/main/java/org/gridsuite/timeseries/server/TimeSeriesDataQueryCatalog.java:23-30 | a select projected on exactly the names a stored document holds returns the same document as select-all, and projecting twice on one name list is projecting once |
| Pivot.FetchMeaning | src/main/java/org/gridsuite/timeseries/server/TimeSeriesDataRepository.java:247-261 | a range select returns every stored row of the range and nothing else, each shaped by the projection, in strictly ascending ordinal order |
| Pivot.FetchSplit | src/main/java/org/gridsuite/timeseries/server/TimeSeriesDataRepository.java:237-241 | selecting two adjacent ranges gives the two result sets one after the other |
| Pivot.PutAllAppend | src/main/java/org/gridsuite/timeseries/server/TimeSeriesDataRepository.java:282 | putAll of an ordered map whose keys lie above all present keys appends it |
| Pivot.PutPresent | src/main/java/org/gridsuite/timeseries/server/TimeSeriesDataRepository.java:259 | putting an entry the insertion-ordered map already holds changes nothing |
| Pivot.PutFreshPrefix | src/main/java/org/gridsuite/timeseries/server/TimeSeriesDataRepository.java:259 | the rows of an ascending result set go into the insertion-ordered map as new keys, one after another |
| Pivot.DetransposedColumns | src/main/java/org/gridsuite/timeseries/server/TimeSeriesDataRepository.java:293-302 | the transposed map has a list for exactly the names that occur in some row, holding that name's values in row order |
| Json.ParseEvents | src/main/java/org/gridsuite/timeseries/server/TimeSeriesMetadataService.java:119-125 | reading a value off the front of what a generator wrote gives that value and the rest of the text |
| Json.DecodeEvents | src/main/java/org/gridsuite/timeseries/server/TimeSeriesMetadataService.java:119-125 | a text that a generator wrote for a tree reads back as that tree |
| Json.Lookup | src/main/java/org/gridsuite/timeseries/server/TimeSeriesMetadataService.java:130 | a key of a parsed object has a value exactly when some field has that key, and the value is one of that key's values |
| Json.LookupLast | src/main/java/org/gridsuite/timeseries/server/TimeSeriesMetadataService.java:130 | a key's value is that of its last field, the one no later field repeats, as a later put in Jackson's map overwrites an earlier one |
| Json.Generator.constructor | src/main/java/org/gridsuite/timeseries/server/TimeSeriesMetadataService.java:51 | a fresh generator has written nothing |
| Json.Generator.Emit | src/main/java/org/gridsuite/timeseries/server/TimeSeriesMetadataService.java:80 | one generator call appends its event to the text |
| Json.Generator.StringField | src/main/java/org/gridsuite/timeseries/server/TimeSeriesMetadataService.java:82-83 | `writeStringField` appends a field name followed by a string value |
| MetadataService.WriteIndex | src/main/java/org/gridsuite/timeseries/server/TimeSeriesMetadataService.java:46-48 | the index body is appended to the text |
| MetadataService.IndexToJson | src/main/java/org/gridsuite/timeseries/server/TimeSeriesMetadataService.java:50-54 | the index text is the index body alone, and it reads back as the index |
| MetadataService.ReadIndex | src/main/java/org/gridsuite/timeseries/server/TimeSeriesMetadataService.java:56-68 | an unknown type tag fails; a known tag parses exactly a body of its own kind, giving that index, and fails otherwise |
| MetadataService.IndexFromJson | src/main/java/org/gridsuite/timeseries/server/TimeSeriesMetadataService.java:70-74 | an unknown tag fails first; under a known tag the index parses exactly when the text decodes to an index of the tag's kind, and it is that index; otherwise the body fails to parse |
| MetadataService.IndexRoundTrip | src/main/java/org/gridsuite/timeseries/server/TimeSeriesMetadataService.java:50-74 | the index text read under the index's own type tag gives that index back |
| MetadataService.TypeTagsDistinct | src/main/java/org/gridsuite/timeseries/server/TimeSeriesMetadataService.java:58-64 | the three kinds have distinct, known type tags |
| MetadataService.EnumeratesCovers | src/main/java/org/gridsuite/timeseries/server/TimeSeriesMetadataService.java:87 | an iteration order of the tag entry set lists every tag key |
| MetadataService.WriteTag | src/main/java/org/gridsuite/timeseries/server/TimeSeriesMetadataService.java:88-90 | one tag entry is written as a single-key object |
| MetadataService.WriteTags | src/main/java/org/gridsuite/timeseries/server/TimeSeriesMetadataService.java:87-91 | the loop writes every tag entry exactly once, in an iteration order of the map |
| MetadataService.WriteRecordHead | src/main/java/org/gridsuite/timeseries/server/TimeSeriesMetadataService.java:80-86 | a record opens with the name, the data type's constant name, and the start of the tags array |
| MetadataService.WriteOne | src/main/java/org/gridsuite/timeseries/server/TimeSeriesMetadataService.java:79-94 | a record {name, dataType, tags: [{k: v}, ...]} is written, with the tags in an iteration order of the map |
| MetadataService.WriteIndividual | src/main/java/org/gridsuite/timeseries/server/TimeSeriesMetadataService.java:96-102 | an array is written with one record per metadata, in list order |
| MetadataService.IndividualToJson | src/main/java/org/gridsuite/timeseries/server/TimeSeriesMetadataService.java:104-116 | the text is the array of the series' metadata records, in series order: it reads back as one record per series carrying that series' name, and, for handled types, as the series' metadata under any supplied index |
| MetadataService.ArrayNames | src/main/java/org/gridsuite/timeseries/server/TimeSeriesMetadataService.java:96-125 | a written metadata array reads back as one record per metadata, in order, each carrying its metadata's name |
| MetadataService.SeriesListRoundTrip | src/main/java/org/gridsuite/timeseries/server/TimeSeriesMetadataService.java:104-156 | the metadata text written for a list of series reads back as their metadata, in order, with the supplied index attached |
| MetadataService.WriteSummaryHead | src/main/java/org/gridsuite/timeseries/server/TimeSeriesMetadataService.java:161-166 | the summary opens with the id, the index type, and the index under its type tag |
| MetadataService.AllMetadatasToJson | src/main/java/org/gridsuite/timeseries/server/TimeSeriesMetadataService.java:158-173 | the text is the group summary document; it reads back as four fields: the id, the index type, the index under its type tag, then an array of one record per metadata naming it, in list order |
| MetadataService.SummaryFields | src/main/java/org/gridsuite/timeseries/server/TimeSeriesMetadataService.java:161-168 | the summary reads back as four fields in this order: id, indexType, the index under its own tag, metadatas |
| MetadataService.ListFromJson | src/main/java/org/gridsuite/timeseries/server/TimeSeriesMetadataService.java:119-125 | the metadata text parses exactly when it holds one JSON array, which it gives; otherwise a parse error |
| MetadataService.NameOf | src/main/java/org/gridsuite/timeseries/server/TimeSeriesMetadataService.java:130 | a record's name is read exactly when the record is an object whose "name" holds a string, and it is that string; otherwise the record is malformed |
| MetadataService.CatalogGet | src/main/java/org/gridsuite/timeseries/server/TimeSeriesMetadataService.java:146 | a name has a record exactly when it is a catalog key, and that record is filed under it |
| MetadataService.CatalogFoldMeaning | src/main/java/org/gridsuite/timeseries/server/TimeSeriesMetadataService.java:128-132 | building the catalog fails exactly when some record has no string name; otherwise keys are distinct and each name gives its first record |
| MetadataService.CatalogOfDistinct | src/main/java/org/gridsuite/timeseries/server/TimeSeriesMetadataService.java:128-132 | with distinct names the catalog is the records keyed by name, in list order |
| MetadataService.TagEntry | src/main/java/org/gridsuite/timeseries/server/TimeSeriesMetadataService.java:137-138 | a tag entry is read exactly when the object has a first key and the value under it is a string, and it is that key and that string; otherwise the record is malformed |
| MetadataService.GetMetadata | src/main/java/org/gridsuite/timeseries/server/TimeSeriesMetadataService.java:145-148 | a name without a record fails with NoMetadata; for a name with a record the result is that record parsed with the supplied index, and a found metadata carries that index |
| MetadataService.MetadataList | src/main/java/org/gridsuite/timeseries/server/TimeSeriesMetadataService.java:150-156 | the list parses exactly when every record parses, giving the records' metadata in list order |
| MetadataService.TagsRoundTrip | src/main/java/org/gridsuite/timeseries/server/TimeSeriesMetadataService.java:136-138 | the tag entries written in any iteration order read back as the tag map |
| MetadataService.RecordRoundTrip | src/main/java/org/gridsuite/timeseries/server/TimeSeriesMetadataService.java:134-142 | a written record parses back to the same name, data type and tags, with the supplied index attached |
| MetadataService.ListRoundTrip | src/main/java/org/gridsuite/timeseries/server/TimeSeriesMetadataService.java:150-156 | a written metadata array reads back as the same list, in order, with the supplied index |
| MetadataService.CatalogRoundTrip | src/main/java/org/gridsuite/timeseries/server/TimeSeriesMetadataService.java:128-132 | the catalog read from the metadata of distinctly named series is their records keyed by name, in series order |
| DataRepository.BuildDocument | src/main/java/org/gridsuite/timeseries/server/TimeSeriesDataRepository.java:152-158 | the document of an ordinal is built exactly when every column reaches it, and is then that ordinal's row document |
| DataRepository.InsertRange | src/main/java/org/gridsuite/timeseries/server/TimeSeriesDataRepository.java:150-170 | a worker's flushes write exactly the documents of its range, in ordinal order, in batches of batchRow rows with only the last shorter; a column too short fails the worker |
| DataRepository.SaveSetup | src/main/java/org/gridsuite/timeseries/server/TimeSeriesDataRepository.java:90-136 | an empty list fails first, then a zero divisor, then an unsupported type or a failed cast; otherwise the plan, the names and the columns |
| DataRepository.FirstFailureMeaning | src/main/java/org/gridsuite/timeseries/server/TimeSeriesDataRepository.java:193-195 | no failure means every worker committed; otherwise the first worker, in awaiting order, that did not commit |
| DataRepository.WrittenFrame | src/main/java/org/gridsuite/timeseries/server/TimeSeriesDataRepository.java:138-183 | a save touches no other group, and no ordinal beyond the ranges of the workers that ran |
| DataRepository.WrittenRows | src/main/java/org/gridsuite/timeseries/server/TimeSeriesDataRepository.java:138-176 | after the save an ordinal holds a document exactly when it did before or its owning worker committed; old rows are kept, and new rows are the ordinal's row document |
| DataRepository.SaveStep | src/main/java/org/gridsuite/timeseries/server/TimeSeriesDataRepository.java:172-176 | a worker without fault commits exactly when its range is fresh and readable, adding its documents; otherwise it rolls back, and it is named as the failure if it is the first |
| DataRepository.SaveFresh | src/main/java/org/gridsuite/timeseries/server/TimeSeriesDataRepository.java:88-202 | on a group without rows and with no faults, every worker commits and the group holds exactly one document per ordinal |
| DataRepository.ReadWorker | src/main/java/org/gridsuite/timeseries/server/TimeSeriesDataRepository.java:233-266 | a worker's ordered map is its range select's result set (empty when it makes no pass) |
| DataRepository.MergeStep | src/main/java/org/gridsuite/timeseries/server/TimeSeriesDataRepository.java:279-283 | merging worker i's map after the earlier workers' maps extends the result to the end of worker i's range |
| DataRepository.FirstFaultMeaning | src/main/java/org/gridsuite/timeseries/server/TimeSeriesDataRepository.java:270-286 | the first failing read worker in await order: none exactly when no worker fails, otherwise a failing worker with no failing worker before it |
| DataRepository.Gather | src/main/java/org/gridsuite/timeseries/server/TimeSeriesDataRepository.java:233-287 | if a read worker fails, the first failed worker's error, on both the pooled and the single-callable path; otherwise the merged rows are the select of the whole row range: every stored row, shaped, in ordinal order |
| DataRepository.Detranspose | src/main/java/org/gridsuite/timeseries/server/TimeSeriesDataRepository.java:293-302 | the detranspose loops build the transposed map of the merged rows |
| DataRepository.Chunk | src/main/java/org/gridsuite/timeseries/server/TimeSeriesDataRepository.java:312-316 | trying to compress keeps the chunk's values |
| DataRepository.DoublesOf | src/main/java/org/gridsuite/timeseries/server/TimeSeriesDataRepository.java:308-309 | a value list reads as doubles exactly when it holds no string, with each double storing as its cell |
| DataRepository.StringsOf | src/main/java/org/gridsuite/timeseries/server/TimeSeriesDataRepository.java:322 | a value list reads as strings exactly when it holds no number, with each string storing as its cell; otherwise it fails with ArrayStore |
| DataRepository.SeriesOf | src/main/java/org/gridsuite/timeseries/server/TimeSeriesDataRepository.java:305-336 | a missing metadata or an unsupported type fails; a double series is built exactly when its cells read as doubles, otherwise ClassCast; a string series exactly when its cells read as strings, otherwise ArrayStore; a built series has the catalog's metadata, the given cells as values of its type, and the requested chunk form |
| DataRepository.Materialise | src/main/java/org/gridsuite/timeseries/server/TimeSeriesDataRepository.java:303-338 | every entry of the transposed map becomes a series under its name, or the read fails with the error of a failing entry |
| DataRepository.TimeSeriesDataRepository.constructor | src/main/java/org/gridsuite/timeseries/server/TimeSeriesDataRepository.java:65-77 | an empty data table with the given write and read configuration |
| DataRepository.TimeSeriesDataRepository.Save | src/main/java/org/gridsuite/timeseries/server/TimeSeriesDataRepository.java:79-202 | the new table and the outcome are those of the save specification: setup failure, or every worker run with the first failure reported |
| DataRepository.TimeSeriesDataRepository.FindById | src/main/java/org/gridsuite/timeseries/server/TimeSeriesDataRepository.java:204-339 | a zero divisor fails; then a failed read worker fails the read with the first such worker's error; otherwise the result materialises the transposed rows of the group's row range |
| DataRepository.TimeSeriesDataRepository.Delete | src/main/java/org/gridsuite/timeseries/server/TimeSeriesDataRepository.java:341-356 | the group loses every row, and every other group keeps its rows |
| Service.IndexCheckMeaning | src/main/java/org/gridsuite/timeseries/server/TimeSeriesService.java:55-70 | the check passes exactly on a non-empty list sharing one index; an empty list fails, and a mismatch names the first series and the first series that differs |
| Service.SynchronizeIndex | src/main/java/org/gridsuite/timeseries/server/TimeSeriesService.java:55-70 | the loop against the first series' index decides as the index check does |
| Service.ByName | src/main/java/org/gridsuite/timeseries/server/TimeSeriesService.java:103 | collecting the data result by series name fails exactly when two series share a name |
| Service.ByNameMeaning | src/main/java/org/gridsuite/timeseries/server/TimeSeriesService.java:103 | the collected map holds exactly the series' names, each with its series |
| Service.ByNameKeyed | src/main/java/org/gridsuite/timeseries/server/TimeSeriesService.java:103 | a result whose series are filed under their own names is collected unchanged |
| Service.OrderedMeaning | src/main/java/org/gridsuite/timeseries/server/TimeSeriesService.java:104-106 | the ordered list holds the series of exactly the catalog names that have data; when every name has data, it is their series in catalog order |
| Service.OrderedDistinct | src/main/java/org/gridsuite/timeseries/server/TimeSeriesService.java:104-106 | with distinct catalog names, no series is listed twice |
| Service.MapFromJsonNamed | src/main/java/org/gridsuite/timeseries/server/TimeSeriesMetadataService.java:128-132 | every record of a read catalog is filed under the name it carries |
| Service.ArrangeNamed | src/main/java/org/gridsuite/timeseries/server/TimeSeriesService.java:102-107 | on a catalog read from a group record the by-name collector never throws: the read gives the data series in catalog order, or the data error |
| Service.TimeSeriesService.constructor | src/main/java/org/gridsuite/timeseries/server/TimeSeriesService.java:46-53 | an empty group table beside the given data repository |
| Service.TimeSeriesService.AllGroupsInfos | src/main/java/org/gridsuite/timeseries/server/TimeSeriesService.java:40-44 | one entry per stored group, naming exactly the stored ids |
| Service.TimeSeriesService.Create | src/main/java/org/gridsuite/timeseries/server/TimeSeriesService.java:72-85 | an index mismatch changes nothing; otherwise the data is saved and the group record (index tag, index text, metadata array) is written; a failed save reports the first failed worker and rolls the record back when the transaction annotation is honoured, and leaves it in place when it is not |
| Service.TimeSeriesService.GetMetadataJson | src/main/java/org/gridsuite/timeseries/server/TimeSeriesService.java:87-93 | an unknown id fails with NotFound; the result is a document exactly when the record's index and metadata array parse, and it is then the summary document of the parsed record, opening with the group id |
| Service.TimeSeriesService.GetTimeSeriesGroup | src/main/java/org/gridsuite/timeseries/server/TimeSeriesService.java:95-108 | errors in order: unknown id, index, catalog, zero divisor, first failed read worker, data; otherwise the series read from the group's rows, in catalog order |
| Service.TimeSeriesService.Delete | src/main/java/org/gridsuite/timeseries/server/TimeSeriesService.java:110-114 | the group record and all the group's rows go; other groups are not touched, and an unknown id changes nothing |
| RoundTrip.SaveStores | src/main/java/org/gridsuite/timeseries/server/TimeSeriesDataRepository.java:88-202 | a storable list saved into a group without rows commits, leaving one row document per ordinal of the index |
| RoundTrip.FetchStored | src/main/java/org/gridsuite/timeseries/server/TimeSeriesDataRepository.java:247-261 | selecting stored rows returns them in the order they were inserted |
| RoundTrip.TransposedRows | src/main/java/org/gridsuite/timeseries/server/TimeSeriesDataRepository.java:293-302 | detransposing the stored rows gives each series name its column, in ordinal order |
| RoundTrip.StoredCatalogRead | src/main/java/org/gridsuite/timeseries/server/TimeSeriesMetadataService.java:108-132 | the stored metadata text reads back as a catalog keyed by the series names, in series order |
| RoundTrip.DoublesBack | src/main/java/org/gridsuite/timeseries/server/TimeSeriesDataRepository.java:308-309 | a stored double array, NaN included, reads back unchanged |
| RoundTrip.StringsBack | src/main/java/org/gridsuite/timeseries/server/TimeSeriesDataRepository.java:322 | a stored string array, null included, reads back unchanged |
| RoundTrip.MetadataRestored | src/main/java/org/gridsuite/timeseries/server/TimeSeriesMetadataService.java:145-148 | the catalog gives back each stored series' metadata under its name |
| RoundTrip.SeriesRestored | src/main/java/org/gridsuite/timeseries/server/TimeSeriesDataRepository.java:303-336 | each stored series is rebuilt from its cells and its record as itself |
| RoundTrip.ReadStored | src/main/java/org/gridsuite/timeseries/server/TimeSeriesService.java:95-108 | a whole-group read of a stored list gives the series back, in creation order |
| RoundTrip.CreateThenRead | src/main/java/org/gridsuite/timeseries/server/TimeSeriesService.java:72-108 | after creating a group from a storable list, the save succeeds and a whole-group read gives every series back with its metadata and values, in creation order |
| RoundTrip.CreateThenSummary | src/main/java/org/gridsuite/timeseries/server/TimeSeriesService.java:87-93 | the summary document of a created group lists the metadata of its series, in creation order |
| RoundTrip.CreateAndRead | src/main/java/org/gridsuite/timeseries/server/TimeSeriesService.java:72-108 | through the service, creating a group succeeds and reading it whole gives the series back, whether or not the transaction annotation is honoured |

## Left out

- JDBC, connections, the connection pool and the `ForkJoinPool`: workers run one after
  another in worker order. Save-side connection and commit failures and read-side connection
  and query failures are the `faults` parameters of `Save` and `FindById`. Interleavings and
  concurrent writers to one group are not modelled.
- `objectMapper.readValue` of a stored row document in a read worker: stored documents are
  kept as maps, so this parse cannot fail in the model; a read worker whose parse fails is one
  of its `faults`.
- The text of JSON: Jackson's serialiser and `JsonUtil` are represented by generator event
  streams. Numbers, escaping and whitespace are not modelled. Row documents are kept as maps,
  not as text.
- The index library: an index is opaque apart from its kind and point count, and its JSON body
  is one opaque value. `TimeSeries.synchronize` is modelled as equality of indexes.
  `tryToCompress` is modelled as a chunk marked `CompressionTried` with unchanged values. Run-length
  encoding itself belongs to that library and is not part of this model.
- Floating point: a double is a real number or NaN. No arithmetic is done on values.
  Positive and negative infinity are not modelled. The save turns only NaN into null
  (`TimeSeriesDataRepository.java:124-125`); Jackson writes an infinite double as the string
  "Infinity" or "-Infinity", and `Double.class::cast` (`:308`) then throws ClassCastException
  on the read. A double series holding an infinity is therefore saved but can never be read
  back. `RoundTrip.DoublesBack`, `RoundTrip.CreateThenRead` and `RoundTrip.CreateAndRead`
  hold only for the finite-or-NaN values the model represents.
- `Domain.DataType.OtherType` is hypothetical. The library enum `TimeSeriesDataType` is not
  part of this model; the source handles only DOUBLE and STRING, and `OtherType` stands for
  a further constant, should the enum have one. A series created with it reaches the
  "Unsupported save" path. The model's `ParseDataType` accepts only "DOUBLE" and "STRING", so
  a stored record naming another constant fails at parse with `UnknownDataTypeName`. With
  such a constant in the enum, `valueOf` (`TimeSeriesMetadataService.java:140`) would accept
  it and the read would fail later with "Unsupported read"; from a stored record the model's
  `UnsupportedRead` branch is not reachable.
- The `time` parameter of `getTimeSeriesGroup` and `findById`: the source ignores it, and so does the model.
- Java `int` overflow of the partition arithmetic and negative configuration values: the
  configuration values are natural numbers, and the arithmetic is unbounded.
- Metadata records whose name is missing or not a string, and tag values that are not
  strings: the model fails on them with `MalformedMetadata`. In the source, the name casts
  (`TimeSeriesMetadataService.java:130` and `:139`) are checked and throw ClassCastException at
  once on a non-string name. A record with no name is not an error there: `toMap` files it
  under a null key and the group read goes on. A tag value that is not a string passes the
  raw-typed tag map and fails only where it is used, if at all.
- `DataRepository.Materialise`, `Service.ByName`: the error values carry no exception text or
  offending name.
- Service.TimeSeriesService.AllGroupsInfos: returns a set of group infos. The order of
  `findAll` is unspecified and is not modelled.
- DataRepository.TimeSeriesDataRepository.FindById: returns a map from name to series. The
  source returns a list in the iteration order of its transposed `HashMap`; that order is
  not modelled. The service re-keys the result by name (`Service.ByName`) and lists it in
  catalog order, so the service's result does not depend on it.
- The id generator of the group table: the new id is a parameter that must be unused.
- Service.TimeSeriesService.Delete: deleting an unknown id changes nothing. Some Spring Data
  versions throw for `deleteById` on a missing id, and that is not modelled.
- Logging, the stopwatches and the HTTP status of the index mismatch error.
- `COUNT` and `INSERT` appear only as constants. No query text is parsed or executed.
- `TimeseriesDataRepository`, `TimeseriesService`, the controllers and the entity classes
  other than the group record are not part of this model.
