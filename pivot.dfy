/**
 * The value-level meaning of the pivot engine: the column getter of the save path, the
 * document stored for each ordinal, what a range select returns, the insertion-ordered map
 * the read workers fill, and the per-name lists the read path rebuilds from the documents.
 */
module Pivot {
  import opened Domain

  // ---------------------------------------------------------------------------------------
  // Cells of the stored documents
  // ---------------------------------------------------------------------------------------

  /** NaN is not a JSON number, so a missing double is stored as null. */
  function DoubleCell(d: DoubleValue): (c: Cell)
    ensures c.CNull? <==> d.NaN?
    ensures d.Num? ==> c == CNum(d.x)
  {
    match d
    case NaN => CNull
    case Num(x) => CNum(x)
  }

  /** A string passes through unchanged; a missing string is null. */
  function StringCell(s: Option<string>): (c: Cell)
    ensures c.CNull? <==> s.None?
    ensures s.Some? ==> c == CStr(s.value)
  {
    match s
    case None => CNull
    case Some(v) => CStr(v)
  }

  /** Double.class::cast, then null -> NaN. A string cell does not cast. */
  function CellDouble(c: Cell): (r: Result<DoubleValue>)
    ensures r.Ok? <==> !c.CStr?
    ensures r.Err? ==> r.error == ClassCast
    ensures r.Ok? ==> DoubleCell(r.value) == c
  {
    match c
    case CNull => Ok(NaN)
    case CNum(x) => Ok(Num(x))
    case CStr(_) => Err(ClassCast)
  }

  /** toArray(new String[0]): a number cell cannot be stored in a String[]. */
  function CellString(c: Cell): (r: Result<Option<string>>)
    ensures r.Ok? <==> !c.CNum?
    ensures r.Err? ==> r.error == ArrayStore
    ensures r.Ok? ==> StringCell(r.value) == c
  {
    match c
    case CNull => Ok(None)
    case CStr(s) => Ok(Some(s))
    case CNum(_) => Err(ArrayStore)
  }

  /** Storing a value and reading it back is the identity, for both element types. */
  lemma CellRoundTrip(d: DoubleValue, s: Option<string>)
    ensures CellDouble(DoubleCell(d)) == Ok(d)
    ensures CellString(StringCell(s)) == Ok(s)
  {
  }

  // ---------------------------------------------------------------------------------------
  // The save path's getter and row documents
  // ---------------------------------------------------------------------------------------

  /** Whether a series of element type t is a series the getter of type t can cast. */
  predicate Fits(t: DataType, v: Values)
  {
    match t
    case DoubleType => v.Doubles?
    case StringType => v.Strings?
    case OtherType(_) => false
  }

  /**
   * The column arrays behind the getter. The element type is decided by the first series
   * alone; every series is then cast to that type's series class.
   */
  function Columns(series: seq<TimeSeries>): (r: Result<seq<Values>>)
    requires series != []
    ensures !Handled(series[0].meta.dataType) ==> r == Err(UnsupportedSave(series[0].meta.dataType))
    ensures Handled(series[0].meta.dataType) ==>
      (r.Ok? <==> forall i :: 0 <= i < |series| ==> Fits(series[0].meta.dataType, series[i].chunk.values))
    ensures Handled(series[0].meta.dataType) && r.Err? ==> r.error == ClassCast
    ensures r.Ok? ==> |r.value| == |series|
    ensures r.Ok? ==> forall i :: 0 <= i < |series| ==> r.value[i] == series[i].chunk.values
  {
    var t := series[0].meta.dataType;
    if !Handled(t) then Err(UnsupportedSave(t))
    else if forall i :: 0 <= i < |series| ==> Fits(t, series[i].chunk.values) then
      Ok(seq(|series|, i requires 0 <= i < |series| => series[i].chunk.values))
    else Err(ClassCast)
  }

  /** The getter at (series, ordinal): datadouble.get(col)[row], NaN as null. */
  function CellOf(col: Values, row: nat): Cell
    requires row < Length(col)
  {
    match col
    case Doubles(ds) => DoubleCell(ds[row])
    case Strings(ss) => StringCell(ss[row])
  }

  /** Every column array is long enough for ordinal row (otherwise the getter throws). */
  predicate RowReady(cols: seq<Values>, row: nat)
  {
    forall m :: 0 <= m < |cols| ==> row < Length(cols[m])
  }

  predicate RangeReady(cols: seq<Values>, lo: nat, hi: nat)
  {
    forall row: nat :: lo <= row < hi ==> RowReady(cols, row)
  }

  /** The document after the first k puts of the inner loop for ordinal row. */
  function DocumentPrefix(names: seq<string>, cols: seq<Values>, row: nat, k: nat): Document
    requires |names| == |cols| && k <= |names| && RowReady(cols, row)
  {
    if k == 0 then map[]
    else DocumentPrefix(names, cols, row, k - 1)[names[k - 1] := CellOf(cols[k - 1], row)]
  }

  /** The document stored for ordinal row: tsdata after all the puts. */
  function RowDocument(names: seq<string>, cols: seq<Values>, row: nat): Document
    requires |names| == |cols| && RowReady(cols, row)
  {
    DocumentPrefix(names, cols, row, |names|)
  }

  /** m is the last position of its name among the first k names. */
  predicate LastBefore(names: seq<string>, m: nat, k: nat)
    requires m < k <= |names|
  {
    forall m' :: m < m' < k ==> names[m'] != names[m]
  }

  /**
   * The document maps every series name, and nothing else, to the value of the last series
   * of that name at that ordinal.
   */
  lemma {:induction false} DocumentPrefixKeys(names: seq<string>, cols: seq<Values>, row: nat, k: nat)
    requires |names| == |cols| && k <= |names| && RowReady(cols, row)
    ensures DocumentPrefix(names, cols, row, k).Keys == set m | 0 <= m < k :: names[m]
  {
    if k > 0 {
      DocumentPrefixKeys(names, cols, row, k - 1);
      var before := set m | 0 <= m < k - 1 :: names[m];
      var after := set m | 0 <= m < k :: names[m];
      assert after == before + {names[k - 1]} by {
        forall n | n in after ensures n in before + {names[k - 1]} {
          var m :| 0 <= m < k && names[m] == n;
          if m < k - 1 { assert n in before; }
        }
      }
    }
  }

  lemma {:induction false} DocumentPrefixValues(names: seq<string>, cols: seq<Values>, row: nat, k: nat)
    requires |names| == |cols| && k <= |names| && RowReady(cols, row)
    ensures forall m :: 0 <= m < k && LastBefore(names, m, k) ==>
      names[m] in DocumentPrefix(names, cols, row, k) &&
      DocumentPrefix(names, cols, row, k)[names[m]] == CellOf(cols[m], row)
  {
    if k > 0 {
      DocumentPrefixValues(names, cols, row, k - 1);
      forall m | 0 <= m < k && LastBefore(names, m, k)
        ensures names[m] in DocumentPrefix(names, cols, row, k)
        ensures DocumentPrefix(names, cols, row, k)[names[m]] == CellOf(cols[m], row)
      {
        if m < k - 1 {
          assert names[k - 1] != names[m];
          assert LastBefore(names, m, k - 1);
        }
      }
    }
  }

  /** With distinct names, series m's value at row sits under series m's name. */
  lemma RowDocumentAt(names: seq<string>, cols: seq<Values>, row: nat, m: nat)
    requires |names| == |cols| && RowReady(cols, row) && Distinct(names) && m < |names|
    ensures RowDocument(names, cols, row).Keys == set i | 0 <= i < |names| :: names[i]
    ensures RowDocument(names, cols, row)[names[m]] == CellOf(cols[m], row)
  {
    DocumentPrefixKeys(names, cols, row, |names|);
    DocumentPrefixValues(names, cols, row, |names|);
    assert LastBefore(names, m, |names|);
  }

  /** The rows a worker adds to its batches, in the order it adds them. */
  function RowsSeq(names: seq<string>, cols: seq<Values>, lo: nat, n: nat): (r: seq<(int, Document)>)
    requires |names| == |cols| && RangeReady(cols, lo, lo + n)
    ensures |r| == n
    ensures forall k :: 0 <= k < n ==> r[k] == (lo + k, RowDocument(names, cols, lo + k))
    decreases n
  {
    if n == 0 then []
    else RowsSeq(names, cols, lo, n - 1) + [(lo + n - 1, RowDocument(names, cols, lo + n - 1))]
  }

  /** The documents of the ordinals [lo, hi), keyed by ordinal. */
  function RangeDocs(names: seq<string>, cols: seq<Values>, lo: nat, hi: nat): (r: map<int, Document>)
    requires |names| == |cols| && RangeReady(cols, lo, hi)
    ensures forall o: int :: o in r <==> lo <= o < hi
  {
    map o: int | lo <= o < hi :: RowDocument(names, cols, o)
  }

  /** A sequence of (ordinal, document) pairs as a map; the last pair of an ordinal wins. */
  function ToMap(s: seq<(int, Document)>): map<int, Document>
  {
    if s == [] then map[] else ToMap(s[..|s| - 1])[s[|s| - 1].0 := s[|s| - 1].1]
  }

  /** The keys of the map are the ordinals of the pairs, and the value is the last pair's. */
  lemma {:induction false} ToMapMeaning(s: seq<(int, Document)>)
    ensures forall o :: o in ToMap(s) <==> exists k :: 0 <= k < |s| && s[k].0 == o
    ensures forall k :: 0 <= k < |s| && (forall k' :: k < k' < |s| ==> s[k'].0 != s[k].0) ==>
      ToMap(s)[s[k].0] == s[k].1
  {
    if s != [] {
      var init := s[..|s| - 1];
      ToMapMeaning(init);
      var r := ToMap(s);
      forall o | o in r ensures exists k :: 0 <= k < |s| && s[k].0 == o {
        if o != s[|s| - 1].0 {
          assert o in ToMap(init);
          var k :| 0 <= k < |init| && init[k].0 == o;
          assert s[k].0 == o;
        }
      }
      forall o | exists k :: 0 <= k < |s| && s[k].0 == o ensures o in r {
        var k :| 0 <= k < |s| && s[k].0 == o;
        if k < |init| {
          assert init[k].0 == o;
        }
      }
      forall k | 0 <= k < |s| && (forall k' :: k < k' < |s| ==> s[k'].0 != s[k].0)
        ensures r[s[k].0] == s[k].1
      {
        if k < |init| {
          assert init[k] == s[k];
          assert forall k' :: k < k' < |init| ==> init[k'].0 != init[k].0;
        }
      }
    }
  }

  /** The staged writes of one worker are exactly the documents of its range. */
  lemma {:induction false} ToMapRowsSeq(names: seq<string>, cols: seq<Values>, lo: nat, n: nat)
    requires |names| == |cols| && RangeReady(cols, lo, lo + n)
    ensures ToMap(RowsSeq(names, cols, lo, n)) == RangeDocs(names, cols, lo, lo + n)
    decreases n
  {
    if n > 0 {
      ToMapRowsSeq(names, cols, lo, n - 1);
      var s := RowsSeq(names, cols, lo, n);
      assert s[..|s| - 1] == RowsSeq(names, cols, lo, n - 1);
    }
  }

  /** Turning a concatenation into a map: the later part wins on shared ordinals. */
  lemma {:induction false} ToMapConcat(a: seq<(int, Document)>, b: seq<(int, Document)>)
    ensures ToMap(a + b) == ToMap(a) + ToMap(b)
    decreases |b|
  {
    if b == [] {
      assert a + b == a;
    } else {
      var b' := b[..|b| - 1];
      assert (a + b)[..|a + b| - 1] == a + b';
      ToMapConcat(a, b');
    }
  }

  function Flatten<T>(ss: seq<seq<T>>): seq<T>
  {
    if ss == [] then [] else Flatten(ss[..|ss| - 1]) + ss[|ss| - 1]
  }

  lemma FlattenSnoc<T>(ss: seq<seq<T>>, s: seq<T>)
    ensures Flatten(ss + [s]) == Flatten(ss) + s
  {
    assert (ss + [s])[..|ss|] == ss;
  }

  // ---------------------------------------------------------------------------------------
  // The read path: range selects, the insertion-ordered map, detranspose
  // ---------------------------------------------------------------------------------------

  /**
   * The document a select returns for a stored document: the document itself for the
   * select-all shape, otherwise one key per requested name, null where the stored document
   * has no such key (json_obj->'c' of a missing key).
   */
  function Shape(doc: Document, names: Option<seq<string>>): (r: Document)
    ensures names.None? || names.value == [] ==> r == doc
    ensures names.Some? && names.value != [] ==>
      (forall n :: n in r <==> n in names.value) &&
      (forall n :: n in r ==> r[n] == if n in doc then doc[n] else CNull)
  {
    if names.None? || names.value == [] then doc
    else map n | n in names.value :: if n in doc then doc[n] else CNull
  }

  /**
   * A select projected on exactly the names a document holds returns that document, as the
   * select-all shape does; and projecting a projected document on the same names changes nothing.
   */
  lemma ShapeProjection(doc: Document, names: seq<string>)
    ensures (set n | n in names) == doc.Keys ==> Shape(doc, Some(names)) == doc
    ensures Shape(Shape(doc, Some(names)), Some(names)) == Shape(doc, Some(names))
  {
    if names != [] {
      var r := Shape(doc, Some(names));
      if (set n | n in names) == doc.Keys {
        assert r.Keys == doc.Keys;
      }
      assert Shape(r, Some(names)).Keys == r.Keys;
    }
  }

  /** An ordered sequence of (ordinal, document) pairs: ordinals strictly ascending. */
  predicate Ascending(s: seq<(int, Document)>)
  {
    forall a, b :: 0 <= a < b < |s| ==> s[a].0 < s[b].0
  }

  /**
   * The result set of the range select over [lo, hi): the stored rows of that range,
   * shaped by the projection, in ordinal order (order by time).
   */
  function Fetch(rows: map<int, Document>, names: Option<seq<string>>, lo: int, hi: int): seq<(int, Document)>
    decreases hi - lo
  {
    if hi <= lo then []
    else Fetch(rows, names, lo, hi - 1) + (if hi - 1 in rows then [(hi - 1, Shape(rows[hi - 1], names))] else [])
  }

  /** The result set is in strictly ascending ordinal order. */
  lemma {:induction false} FetchAscending(rows: map<int, Document>, names: Option<seq<string>>, lo: int, hi: int)
    ensures Ascending(Fetch(rows, names, lo, hi))
    decreases hi - lo
  {
    if hi > lo {
      var prefix := Fetch(rows, names, lo, hi - 1);
      FetchAscending(rows, names, lo, hi - 1);
      FetchElements(rows, names, lo, hi - 1);
      var r := Fetch(rows, names, lo, hi);
      if hi - 1 in rows {
        assert r == prefix + [(hi - 1, Shape(rows[hi - 1], names))];
        forall a, b | 0 <= a < b < |r| ensures r[a].0 < r[b].0 {
          assert r[a] == prefix[a];
          if b < |prefix| {
            assert r[b] == prefix[b];
          }
        }
      }
    }
  }

  /** Each element of the result set is a stored row of the range, shaped by the projection. */
  lemma {:induction false} FetchElements(rows: map<int, Document>, names: Option<seq<string>>, lo: int, hi: int)
    ensures forall k :: 0 <= k < |Fetch(rows, names, lo, hi)| ==>
      var e := Fetch(rows, names, lo, hi)[k]; lo <= e.0 < hi && e.0 in rows && e.1 == Shape(rows[e.0], names)
    decreases hi - lo
  {
    if hi > lo {
      var prefix := Fetch(rows, names, lo, hi - 1);
      FetchElements(rows, names, lo, hi - 1);
      var r := Fetch(rows, names, lo, hi);
      if hi - 1 in rows {
        assert r == prefix + [(hi - 1, Shape(rows[hi - 1], names))];
        forall k | 0 <= k < |r| ensures lo <= r[k].0 < hi && r[k].0 in rows && r[k].1 == Shape(rows[r[k].0], names) {
          if k < |prefix| {
            assert r[k] == prefix[k];
          }
        }
      }
    }
  }

  /** Every stored row of [lo, hi) has an entry in r. */
  ghost predicate Covers(rows: map<int, Document>, lo: int, hi: int, r: seq<(int, Document)>)
  {
    forall o :: lo <= o < hi && o in rows ==> exists k :: 0 <= k < |r| && r[k].0 == o
  }

  /** Every stored row of the range is in the result set. */
  lemma {:induction false} FetchCovers(rows: map<int, Document>, names: Option<seq<string>>, lo: int, hi: int)
    ensures Covers(rows, lo, hi, Fetch(rows, names, lo, hi))
    decreases hi - lo
  {
    if hi > lo {
      var prefix := Fetch(rows, names, lo, hi - 1);
      FetchCovers(rows, names, lo, hi - 1);
      var r := Fetch(rows, names, lo, hi);
      var tail := if hi - 1 in rows then [(hi - 1, Shape(rows[hi - 1], names))] else [];
      assert r == prefix + tail;
      forall o | lo <= o < hi && o in rows ensures exists k :: 0 <= k < |r| && r[k].0 == o {
        if o == hi - 1 {
          assert r[|prefix|].0 == o;
        } else {
          var k :| 0 <= k < |prefix| && prefix[k].0 == o;
          assert r[k] == prefix[k];
        }
      }
    }
  }

  /**
   * The result set holds every stored row of the range and nothing else, each shaped by
   * the projection, in strictly ascending ordinal order.
   */
  lemma FetchMeaning(rows: map<int, Document>, names: Option<seq<string>>, lo: int, hi: int)
    ensures Ascending(Fetch(rows, names, lo, hi))
    ensures forall k :: 0 <= k < |Fetch(rows, names, lo, hi)| ==>
      var e := Fetch(rows, names, lo, hi)[k]; lo <= e.0 < hi && e.0 in rows && e.1 == Shape(rows[e.0], names)
    ensures Covers(rows, lo, hi, Fetch(rows, names, lo, hi))
  {
    FetchAscending(rows, names, lo, hi);
    FetchElements(rows, names, lo, hi);
    FetchCovers(rows, names, lo, hi);
  }

  /** A select over two adjacent ranges returns the two result sets one after the other. */
  lemma {:induction false} FetchSplit(rows: map<int, Document>, names: Option<seq<string>>, lo: int, mid: int, hi: int)
    requires lo <= mid <= hi
    ensures Fetch(rows, names, lo, mid) + Fetch(rows, names, mid, hi) == Fetch(rows, names, lo, hi)
    decreases hi - mid
  {
    if hi > mid {
      FetchSplit(rows, names, lo, mid, hi - 1);
      var tail := if hi - 1 in rows then [(hi - 1, Shape(rows[hi - 1], names))] else [];
      assert Fetch(rows, names, mid, hi) == Fetch(rows, names, mid, hi - 1) + tail;
      assert Fetch(rows, names, lo, hi) == Fetch(rows, names, lo, hi - 1) + tail;
      assert Fetch(rows, names, lo, mid) + (Fetch(rows, names, mid, hi - 1) + tail) ==
             (Fetch(rows, names, lo, mid) + Fetch(rows, names, mid, hi - 1)) + tail;
    }
  }

  function KeyIndex(m: seq<(int, Document)>, key: int): (r: Option<nat>)
    ensures r.Some? ==> r.value < |m| && m[r.value].0 == key
    ensures r.None? ==> forall k :: 0 <= k < |m| ==> m[k].0 != key
  {
    if m == [] then None
    else if m[0].0 == key then Some(0)
    else match KeyIndex(m[1..], key)
      case None => None
      case Some(k) => Some(k + 1)
  }

  /**
   * LinkedHashMap.put on the insertion-ordered map: a new key goes at the end, an existing
   * key keeps its place and takes the new value.
   */
  function Put(m: seq<(int, Document)>, key: int, value: Document): (r: seq<(int, Document)>)
  {
    match KeyIndex(m, key)
    case None => m + [(key, value)]
    case Some(k) => m[k := (key, value)]
  }

  /** res.putAll(other), entry by entry in other's order. */
  function PutAll(m: seq<(int, Document)>, other: seq<(int, Document)>): seq<(int, Document)>
    decreases |other|
  {
    if other == [] then m else PutAll(Put(m, other[0].0, other[0].1), other[1..])
  }

  /** Putting every entry of an ordered map into one with smaller keys appends it. */
  lemma {:induction false} PutAllAppend(m: seq<(int, Document)>, other: seq<(int, Document)>)
    requires Ascending(m) && Ascending(other)
    requires m != [] && other != [] ==> m[|m| - 1].0 < other[0].0
    ensures PutAll(m, other) == m + other
    decreases |other|
  {
    if other != [] {
      var (key, v) := other[0];
      AppendAbove(m, key, v);
      var m' := m + [(key, v)];
      AscendingTail(other);
      PutAllAppend(m', other[1..]);
      assert other == [(key, v)] + other[1..];
      AppendAssoc(m, [(key, v)], other[1..]);
    }
  }

  /** Dropping the first entry of an ordered sequence keeps it ordered, above that entry. */
  lemma AscendingTail(s: seq<(int, Document)>)
    requires Ascending(s) && s != []
    ensures Ascending(s[1..])
    ensures s[1..] != [] ==> s[0].0 < s[1..][0].0
  {
    var t := s[1..];
    forall a, b | 0 <= a < b < |t| ensures t[a].0 < t[b].0 {
      assert t[a] == s[a + 1] && t[b] == s[b + 1];
    }
    if t != [] {
      assert t[0] == s[1];
    }
  }

  /** Putting a key above every key of an ordered map appends it and keeps the map ordered. */
  lemma AppendAbove(m: seq<(int, Document)>, key: int, v: Document)
    requires Ascending(m) && (m != [] ==> m[|m| - 1].0 < key)
    ensures Put(m, key, v) == m + [(key, v)]
    ensures Ascending(m + [(key, v)])
  {
    assert forall k :: 0 <= k < |m| ==> m[k].0 <= m[|m| - 1].0;
    assert KeyIndex(m, key).None?;
  }

  /** Re-putting an entry the map already holds changes nothing. */
  lemma PutPresent(m: seq<(int, Document)>, k: nat)
    requires Ascending(m) && k < |m|
    ensures Put(m, m[k].0, m[k].1) == m
  {
    assert KeyIndex(m, m[k].0) == Some(k);
  }

  /** The first k entries of an ordered sequence are put as fresh keys, one by one. */
  lemma PutFreshPrefix(rs: seq<(int, Document)>, k: nat)
    requires Ascending(rs) && k < |rs|
    ensures Put(rs[..k], rs[k].0, rs[k].1) == rs[..k + 1]
  {
    var pre := rs[..k];
    assert KeyIndex(pre, rs[k].0).None? by {
      forall j | 0 <= j < |pre| ensures pre[j].0 != rs[k].0 {
        assert pre[j] == rs[j];
      }
    }
    assert pre + [rs[k]] == rs[..k + 1];
  }

  /** The values under name n, row by row, for the rows whose document has the key n. */
  function Column(entries: seq<(int, Document)>, n: string): seq<Cell>
  {
    if entries == [] then []
    else
      var last := entries[|entries| - 1].1;
      Column(entries[..|entries| - 1], n) + (if n in last then [last[n]] else [])
  }

  /** data.computeIfAbsent(name, ...).add(value) for every key of one more document. */
  function AppendRow(data: map<string, seq<Cell>>, doc: Document): (r: map<string, seq<Cell>>)
    ensures r.Keys == data.Keys + doc.Keys
    ensures forall n :: n in r ==>
      r[n] == (if n in data then data[n] else []) + (if n in doc then [doc[n]] else [])
  {
    map n | n in data.Keys + doc.Keys ::
      (if n in data then data[n] else []) + (if n in doc then [doc[n]] else [])
  }

  /** The transposed map the read path builds from the merged rows. */
  function Detransposed(entries: seq<(int, Document)>): map<string, seq<Cell>>
  {
    if entries == [] then map[]
    else AppendRow(Detransposed(entries[..|entries| - 1]), entries[|entries| - 1].1)
  }

  function KeysOf(entries: seq<(int, Document)>): set<string>
  {
    set k, n | 0 <= k < |entries| && n in entries[k].1 :: n
  }

  /**
   * Detransposing gives, for every name that occurs in some document, and only for those,
   * the name's values in row order.
   */
  lemma {:induction false} DetransposedColumns(entries: seq<(int, Document)>)
    ensures Detransposed(entries).Keys == KeysOf(entries)
    ensures forall n :: n in Detransposed(entries) ==> Detransposed(entries)[n] == Column(entries, n)
  {
    if entries != [] {
      var pre := entries[..|entries| - 1];
      DetransposedColumns(pre);
      var doc := entries[|entries| - 1].1;
      assert KeysOf(entries) == KeysOf(pre) + doc.Keys by {
        forall n | n in KeysOf(entries) ensures n in KeysOf(pre) + doc.Keys {
          var k :| 0 <= k < |entries| && n in entries[k].1;
          if k < |entries| - 1 { assert pre[k] == entries[k]; }
        }
        forall n | n in KeysOf(pre) ensures n in KeysOf(entries) {
          var k :| 0 <= k < |pre| && n in pre[k].1;
          assert entries[k] == pre[k];
        }
      }
      forall n | n in Detransposed(entries) ensures Detransposed(entries)[n] == Column(entries, n) {
        if n !in Detransposed(pre) {
          assert n !in KeysOf(pre);
          ColumnAbsent(pre, n);
        }
      }
    }
  }

  lemma {:induction false} ColumnAbsent(entries: seq<(int, Document)>, n: string)
    requires n !in KeysOf(entries)
    ensures Column(entries, n) == []
  {
    if entries != [] {
      var pre := entries[..|entries| - 1];
      assert n !in KeysOf(pre);
      ColumnAbsent(pre, n);
      assert n !in entries[|entries| - 1].1;
    }
  }
}
