/**
 * The entities the time-series storage engine works on: series metadata, the shared
 * index, typed value arrays, the stored row documents and the errors the engine raises.
 */
module Domain {

  datatype Option<+T> = None | Some(value: T)

  /** The exceptions of the engine, one constructor per distinct failure in the source. */
  datatype Error =
    | EmptySeriesList                 // list.get(0) on an empty list
    | DivisionByZero                  // ArithmeticException in the partition arithmetic
    | UnsupportedSave(saveType: DataType)
    | UnsupportedRead(readType: DataType)
    | ClassCast                       // a series of the other type, or a string cast to Double
    | ArrayStore                      // a number stored into a String[] by toArray
    | StorageFailure(worker: nat)     // a worker's connection, statement or transaction failed
    | UnknownIndexType(tag: string)
    | IndexParse                      // the index library rejects the index text
    | MetadataParse                   // the metadata text is not a JSON array
    | MalformedMetadata               // a metadata record lacks a field or has the wrong shape
    | DuplicateTag(key: string)       // Collectors.toMap on two equal tag keys
    | UnknownDataTypeName(typeName: string)
    | NoMetadata(name: string)        // null dereference for a name absent from the catalog
    | IndexMismatch(first: string, other: string)  // BAD_REQUEST from synchronizeIndex
    | NotFound(id: Uuid)              // Optional.orElseThrow on an unknown group id
    | DuplicateName                   // Collectors.toMap on two series of one name

  datatype Result<+T> = Ok(value: T) | Err(error: Error)

  /**
   * The results of a pipeline stage applied element by element, collected into a list:
   * the first failure in list order is the failure of the whole.
   */
  function Collect<T>(rs: seq<Result<T>>): (r: Result<seq<T>>)
    ensures r.Ok? <==> forall i :: 0 <= i < |rs| ==> rs[i].Ok?
    ensures r.Ok? ==> |r.value| == |rs| && forall i :: 0 <= i < |rs| ==> rs[i] == Ok(r.value[i])
    ensures r.Err? ==> exists i :: 0 <= i < |rs| && rs[i] == Err(r.error) && forall j :: 0 <= j < i ==> rs[j].Ok?
  {
    if rs == [] then Ok([])
    else
      assert forall i :: 1 <= i < |rs| ==> rs[i] == rs[1..][i - 1];
      match rs[0]
      case Err(e) => Err(e)
      case Ok(v) =>
        match Collect(rs[1..])
        case Err(e) =>
          var i :| 0 <= i < |rs[1..]| && rs[1..][i] == Err(e) && forall j :: 0 <= j < i ==> rs[1..][j].Ok?;
          assert rs[i + 1] == Err(e) && forall j :: 0 <= j < i + 1 ==> rs[j].Ok?;
          Err(e)
        case Ok(vs) => Ok([v] + vs)
  }

  /** A group id, represented by its canonical text. */
  type Uuid = string

  /** The series data types; OtherType stands for a further constant, should the library's enum have one. */
  datatype DataType = DoubleType | StringType | OtherType(constant: string)

  function EnumName(t: DataType): string
  {
    match t
    case DoubleType => "DOUBLE"
    case StringType => "STRING"
    case OtherType(c) => c
  }

  /** TimeSeriesDataType.valueOf: only the two handled constants are recognised. */
  function ParseDataType(s: string): (r: Result<DataType>)
    ensures r.Ok? <==> s == "DOUBLE" || s == "STRING"
    ensures r.Ok? ==> EnumName(r.value) == s && !r.value.OtherType?
  {
    if s == "DOUBLE" then Ok(DoubleType)
    else if s == "STRING" then Ok(StringType)
    else Err(UnknownDataTypeName(s))
  }

  predicate Handled(t: DataType)
  {
    t == DoubleType || t == StringType
  }

  lemma DataTypeNameRoundTrip(t: DataType)
    requires Handled(t)
    ensures ParseDataType(EnumName(t)) == Ok(t)
  {
  }

  /**
   * The index shared by every series of a group. Its body (start, end and spacing, or the
   * instants) belongs to the index library; the engine only needs its kind and point count.
   */
  datatype IndexKind = Regular | Irregular | Infinite
  datatype Index = Index(kind: IndexKind, pointCount: nat, params: seq<int>)

  /** The library's type tags of the three index kinds (index.getType()). */
  const REGULAR_TYPE := "regularIndex"
  const IRREGULAR_TYPE := "irregularIndex"
  const INFINITE_TYPE := "infiniteIndex"

  function TypeTag(k: IndexKind): string
  {
    match k
    case Regular => REGULAR_TYPE
    case Irregular => IRREGULAR_TYPE
    case Infinite => INFINITE_TYPE
  }

  datatype Metadata = Metadata(name: string, dataType: DataType, tags: map<string, string>, index: Index)

  /** A double is a number or NaN; the engine does no arithmetic on it. */
  datatype DoubleValue = Num(x: real) | NaN

  /** The result of toArray(): doubles, or strings where null marks missing data. */
  datatype Values = Doubles(ds: seq<DoubleValue>) | Strings(ss: seq<Option<string>>)

  function Length(v: Values): nat
  {
    match v
    case Doubles(ds) => |ds|
    case Strings(ss) => |ss|
  }

  /**
   * A series holds one chunk. CompressionTried is what tryToCompress() gives back: the
   * library's choice of a plain or run-length chunk, standing for the same values.
   */
  datatype DataChunk = Uncompressed(values: Values) | CompressionTried(values: Values)

  datatype TimeSeries = TimeSeries(meta: Metadata, chunk: DataChunk)
  {
    /** What the series library guarantees of every series it builds. */
    predicate Valid()
    {
      && Length(chunk.values) == meta.index.pointCount
      && (meta.dataType == DoubleType ==> chunk.values.Doubles?)
      && (meta.dataType == StringType ==> chunk.values.Strings?)
    }
  }

  /** A value inside a stored row document. */
  datatype Cell = CNum(x: real) | CStr(s: string) | CNull

  /** One stored row: series name -> value at that ordinal. */
  type Document = map<string, Cell>

  /** The data table: group id -> ordinal -> document. */
  type Table = map<Uuid, map<int, Document>>

  function RowsOf(t: Table, g: Uuid): map<int, Document>
  {
    if g in t then t[g] else map[]
  }

  function Names(series: seq<TimeSeries>): (r: seq<string>)
    ensures |r| == |series|
    ensures forall i :: 0 <= i < |series| ==> r[i] == series[i].meta.name
  {
    seq(|series|, i requires 0 <= i < |series| => series[i].meta.name)
  }

  predicate Distinct<T(==)>(s: seq<T>)
  {
    forall i, j :: 0 <= i < j < |s| ==> s[i] != s[j]
  }

  /** Concatenation regroups freely; proved apart so that callers need not. */
  lemma AppendAssoc<T>(a: seq<T>, b: seq<T>, c: seq<T>)
    ensures (a + b) + c == a + (b + c)
  {
  }
}
