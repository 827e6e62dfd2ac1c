/**
 * The SQL text the data repository sends to the relational store, and the builder of the
 * projection query that fetches a subset of the series of a group.
 */
module QueryCatalog {
  import opened Domain

  /** The row filter shared by both shapes of the select query. */
  const FILTER := "group_id=? and time>=? and time <? order by time;"

  const INSERT := "insert into timeseries_group_data ( group_id, time, json_obj ) values (?,?,?);"
  const COUNT := "select count(*) from timeseries_group_data where group_id=?;"
  const DELETE := "delete from timeseries_group_data where group_id=?"
  const SELECT_ALL := "select time, json_obj from timeseries_group_data where " + FILTER

  const PROJECTION_PREFIX := "select time, json_build_object ("
  const PROJECTION_SUFFIX := ") json_obj from timeseries_group_data where " + FILTER

  /** The store's ceiling on the number of arguments of one function call. */
  const ARGUMENT_CEILING := 100

  /** Collectors.joining(sep) */
  function Join(sep: string, parts: seq<string>): string
  {
    if parts == [] then ""
    else if |parts| == 1 then parts[0]
    else parts[0] + sep + Join(sep, parts[1..])
  }

  /** The key argument and the key-path argument json_build_object receives for one name. */
  function KeyArgument(c: string): string { "'" + c + "'" }
  function PathArgument(c: string): string { "json_obj->'" + c + "'" }

  /** The text each name contributes, spliced in verbatim: no quoting or escaping of c. */
  function Fragment(c: string): string
  {
    "'" + c + "', json_obj->'" + c + "'"
  }

  function Fragments(names: seq<string>): (r: seq<string>)
    ensures |r| == |names|
    ensures forall i :: 0 <= i < |names| ==> r[i] == Fragment(names[i])
  {
    if names == [] then [] else [Fragment(names[0])] + Fragments(names[1..])
  }

  /** The argument list of the json_build_object call: key then key path, name by name. */
  function Arguments(names: seq<string>): (r: seq<string>)
  {
    if names == [] then [] else [KeyArgument(names[0]), PathArgument(names[0])] + Arguments(names[1..])
  }

  lemma {:induction false} ArgumentsShape(names: seq<string>)
    ensures |Arguments(names)| == 2 * |names|
    ensures forall i :: 0 <= i < |names| ==>
      Arguments(names)[2 * i] == KeyArgument(names[i]) && Arguments(names)[2 * i + 1] == PathArgument(names[i])
  {
    if names != [] {
      ArgumentsShape(names[1..]);
      var a := Arguments(names);
      forall i | 0 <= i < |names|
        ensures a[2 * i] == KeyArgument(names[i]) && a[2 * i + 1] == PathArgument(names[i])
      {
        if i > 0 {
          assert a[2 * i] == Arguments(names[1..])[2 * (i - 1)];
          assert a[2 * i + 1] == Arguments(names[1..])[2 * (i - 1) + 1];
        }
      }
    }
  }

  /** Joining the fragments with ", " is joining the 2n arguments with ", ". */
  lemma {:induction false} FragmentsAreArguments(names: seq<string>)
    ensures Join(", ", Fragments(names)) == Join(", ", Arguments(names))
  {
    if names == [] {
    } else {
      var c := names[0];
      var rest := names[1..];
      assert Fragment(c) == KeyArgument(c) + ", " + PathArgument(c);
      var args := Arguments(names);
      assert args == [KeyArgument(c), PathArgument(c)] + Arguments(rest);
      assert args[1..] == [PathArgument(c)] + Arguments(rest);
      if rest == [] {
        assert Fragments(names) == [Fragment(c)];
        assert args[1..] == [PathArgument(c)];
        assert Join(", ", args) == KeyArgument(c) + ", " + PathArgument(c);
      } else {
        FragmentsAreArguments(rest);
        ArgumentsShape(rest);
        assert |Fragments(names)| > 1;
        assert Fragments(names)[1..] == Fragments(rest);
        assert args[1..][1..] == Arguments(rest);
        assert Join(", ", args[1..]) == PathArgument(c) + ", " + Join(", ", Arguments(rest));
      }
    }
  }

  /**
   * makeSelect: all documents for a null or empty name list, otherwise a projection
   * building a document from the named keys only.
   */
  function MakeSelect(names: Option<seq<string>>): (q: string)
    ensures names.None? || names.value == [] ==> q == SELECT_ALL
    ensures names.Some? && names.value != [] ==>
      q == PROJECTION_PREFIX + Join(", ", Arguments(names.value)) + PROJECTION_SUFFIX
  {
    if names.None? || names.value == [] then SELECT_ALL
    else
      FragmentsAreArguments(names.value);
      PROJECTION_PREFIX + Join(", ", Fragments(names.value)) + PROJECTION_SUFFIX
  }

  predicate EndsWith(s: string, suffix: string)
  {
    |suffix| <= |s| && s[|s| - |suffix|..] == suffix
  }

  predicate StartsWith(s: string, prefix: string)
  {
    |prefix| <= |s| && s[..|prefix|] == prefix
  }

  /** Both shapes bind parameters 1-3 the same way and return rows in ordinal order. */
  lemma SameFilter(names: Option<seq<string>>)
    ensures EndsWith(MakeSelect(names), FILTER)
  {
    var q := MakeSelect(names);
    if names.None? || names.value == [] {
      assert q == "select time, json_obj from timeseries_group_data where " + FILTER;
    } else {
      var head := PROJECTION_PREFIX + Join(", ", Arguments(names.value)) +
                  ") json_obj from timeseries_group_data where ";
      assert q == head + FILTER;
    }
  }

  /** The two shapes are told apart by their head: a projection never equals SELECT_ALL. */
  lemma ProjectionIsNotSelectAll(names: seq<string>)
    requires names != []
    ensures StartsWith(MakeSelect(Some(names)), PROJECTION_PREFIX)
    ensures MakeSelect(Some(names)) != SELECT_ALL
  {
    var q := MakeSelect(Some(names));
    assert q[..|PROJECTION_PREFIX|] == PROJECTION_PREFIX;
    assert q[18] == PROJECTION_PREFIX[18] == 'b';
    assert SELECT_ALL[18] == 'o';
  }

  /**
   * Nothing limits the width of the call: with 51 names or more the projection passes
   * more than ARGUMENT_CEILING arguments, and the builder still returns it.
   */
  lemma UncheckedCeiling(names: seq<string>)
    requires 2 * |names| > ARGUMENT_CEILING
    ensures |Arguments(names)| > ARGUMENT_CEILING
    ensures MakeSelect(Some(names)) == PROJECTION_PREFIX + Join(", ", Arguments(names)) + PROJECTION_SUFFIX
  {
    ArgumentsShape(names);
  }
}
