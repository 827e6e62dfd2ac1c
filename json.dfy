/**
 * JSON as a tree, the event stream a streaming JSON generator emits for a tree, and the
 * reader that turns such a stream back into the tree. The text codec itself is left out:
 * a document's text is represented by its event stream.
 */
module Json {
  import opened Domain

  datatype Json =
    | JNull
    | JNum(n: real)
    | JStr(s: string)
    | JArr(items: seq<Json>)
    | JObj(fields: seq<Field>)
    | JIndex(index: Index)     // the body the index library writes for an index
  datatype Field = Field(key: string, value: Json)

  /** The calls made on a JsonGenerator, one event per call. */
  datatype Event =
    | StartObject | EndObject | StartArray | EndArray
    | FieldName(name: string)
    | StringValue(s: string) | NumberValue(n: real) | NullValue
    | IndexBody(index: Index)

  function Events(j: Json): seq<Event>
  {
    match j
    case JNull => [NullValue]
    case JNum(n) => [NumberValue(n)]
    case JStr(s) => [StringValue(s)]
    case JIndex(ix) => [IndexBody(ix)]
    case JArr(items) => [StartArray] + ItemEvents(items) + [EndArray]
    case JObj(fields) => [StartObject] + FieldEvents(fields) + [EndObject]
  }

  function ItemEvents(items: seq<Json>): seq<Event>
  {
    if items == [] then [] else Events(items[0]) + ItemEvents(items[1..])
  }

  function FieldEvents(fields: seq<Field>): seq<Event>
  {
    if fields == [] then []
    else [FieldName(fields[0].key)] + Events(fields[0].value) + FieldEvents(fields[1..])
  }

  /** Reads one value off the front of an event stream; gives back the value and the rest. */
  function ParseValue(ev: seq<Event>): (r: Option<(Json, seq<Event>)>)
    ensures r.Some? ==> |r.value.1| < |ev|
    decreases |ev|, 0
  {
    if ev == [] then None
    else match ev[0]
      case NullValue => Some((JNull, ev[1..]))
      case NumberValue(n) => Some((JNum(n), ev[1..]))
      case StringValue(s) => Some((JStr(s), ev[1..]))
      case IndexBody(ix) => Some((JIndex(ix), ev[1..]))
      case StartArray => ParseItems(ev[1..], [])
      case StartObject => ParseFields(ev[1..], [])
      case _ => None
  }

  function ParseItems(ev: seq<Event>, acc: seq<Json>): (r: Option<(Json, seq<Event>)>)
    ensures r.Some? ==> |r.value.1| < |ev|
    decreases |ev|, 1
  {
    if ev == [] then None
    else if ev[0] == EndArray then Some((JArr(acc), ev[1..]))
    else match ParseValue(ev)
      case None => None
      case Some((v, rest)) => ParseItems(rest, acc + [v])
  }

  function ParseFields(ev: seq<Event>, acc: seq<Field>): (r: Option<(Json, seq<Event>)>)
    ensures r.Some? ==> |r.value.1| < |ev|
    decreases |ev|, 1
  {
    if ev == [] then None
    else if ev[0] == EndObject then Some((JObj(acc), ev[1..]))
    else if !ev[0].FieldName? then None
    else match ParseValue(ev[1..])
      case None => None
      case Some((v, rest)) => ParseFields(rest, acc + [Field(ev[0].name, v)])
  }

  /** Reading a whole text: one value and nothing after it. */
  function Decode(ev: seq<Event>): Option<Json>
  {
    match ParseValue(ev)
    case Some((j, rest)) => if rest == [] then Some(j) else None
    case None => None
  }

  lemma {:induction false} ParseEvents(j: Json, rest: seq<Event>)
    ensures ParseValue(Events(j) + rest) == Some((j, rest))
    decreases j, 1
  {
    match j
    case JArr(items) =>
      var ev := Events(j) + rest;
      assert ev == [StartArray] + (ItemEvents(items) + [EndArray] + rest);
      assert ev[1..] == ItemEvents(items) + ([EndArray] + rest);
      assert ([EndArray] + rest)[1..] == rest;
      ParseItemEvents(j, items, [], [EndArray] + rest);
      assert [] + items == items;
    case JObj(fields) =>
      var ev := Events(j) + rest;
      assert ev == [StartObject] + (FieldEvents(fields) + [EndObject] + rest);
      assert ev[1..] == FieldEvents(fields) + ([EndObject] + rest);
      assert ([EndObject] + rest)[1..] == rest;
      ParseFieldEvents(j, fields, [], [EndObject] + rest);
      assert [] + fields == fields;
    case _ =>
      assert (Events(j) + rest)[1..] == rest;
  }

  lemma {:induction false} ParseItemEvents(parent: Json, items: seq<Json>, acc: seq<Json>, rest: seq<Event>)
    requires parent.JArr? && forall k :: 0 <= k < |items| ==> items[k] in parent.items
    requires rest != [] && rest[0] == EndArray
    ensures ParseItems(ItemEvents(items) + rest, acc) == Some((JArr(acc + items), rest[1..]))
    decreases parent, 0, |items|
  {
    if items == [] {
      assert ItemEvents(items) + rest == rest;
      assert acc + items == acc;
    } else {
      var tail := ItemEvents(items[1..]) + rest;
      var ev := ItemEvents(items) + rest;
      assert ev == Events(items[0]) + tail;
      assert items[0] in parent.items;
      ParseEvents(items[0], tail);
      assert Events(items[0])[0] != EndArray by { EventsStart(items[0]); }
      assert ev[0] == Events(items[0])[0];
      ParseItemEvents(parent, items[1..], acc + [items[0]], rest);
      assert acc + [items[0]] + items[1..] == acc + items;
    }
  }

  lemma {:induction false} ParseFieldEvents(parent: Json, fields: seq<Field>, acc: seq<Field>, rest: seq<Event>)
    requires parent.JObj? && forall k :: 0 <= k < |fields| ==> fields[k] in parent.fields
    requires rest != [] && rest[0] == EndObject
    ensures ParseFields(FieldEvents(fields) + rest, acc) == Some((JObj(acc + fields), rest[1..]))
    decreases parent, 0, |fields|
  {
    if fields == [] {
      assert FieldEvents(fields) + rest == rest;
      assert acc + fields == acc;
    } else {
      var f := fields[0];
      var tail := FieldEvents(fields[1..]) + rest;
      assert f in parent.fields;
      ParseEvents(f.value, tail);
      assert FieldEvents(fields) == [FieldName(f.key)] + Events(f.value) + FieldEvents(fields[1..]);
      AppendAssoc([FieldName(f.key)] + Events(f.value), FieldEvents(fields[1..]), rest);
      AppendAssoc([FieldName(f.key)], Events(f.value), tail);
      ParseFieldsCons(f.key, Events(f.value) + tail, f.value, tail, acc);
      ParseFieldEvents(parent, fields[1..], acc + [f], rest);
      assert [f] + fields[1..] == fields;
      AppendAssoc(acc, [f], fields[1..]);
    }
  }

  lemma ParseFieldsCons(key: string, ev: seq<Event>, v: Json, tail: seq<Event>, acc: seq<Field>)
    requires ParseValue(ev) == Some((v, tail))
    ensures ParseFields([FieldName(key)] + ev, acc) == ParseFields(tail, acc + [Field(key, v)])
  {
    assert ([FieldName(key)] + ev)[1..] == ev;
  }

  lemma EventsStart(j: Json)
    ensures Events(j) != [] && Events(j)[0] != EndArray && Events(j)[0] != EndObject
  {
  }

  /** Reading back what a generator wrote gives the tree that was written. */
  lemma {:induction false} DecodeEvents(j: Json)
    ensures Decode(Events(j)) == Some(j)
  {
    ParseEvents(j, []);
    assert Events(j) + [] == Events(j);
  }

  lemma {:induction false} ItemEventsSnoc(items: seq<Json>, x: Json)
    ensures ItemEvents(items + [x]) == ItemEvents(items) + Events(x)
    decreases |items|
  {
    if items == [] {
      assert items + [x] == [x];
      assert ItemEvents([x]) == Events(x) + ItemEvents([]);
    } else {
      assert (items + [x])[1..] == items[1..] + [x];
      ItemEventsSnoc(items[1..], x);
    }
  }

  lemma {:induction false} FieldEventsSnoc(fields: seq<Field>, f: Field)
    ensures FieldEvents(fields + [f]) == FieldEvents(fields) + [FieldName(f.key)] + Events(f.value)
    decreases |fields|
  {
    if fields == [] {
      assert fields + [f] == [f];
      assert FieldEvents([f]) == [FieldName(f.key)] + Events(f.value) + FieldEvents([]);
    } else {
      var head := [FieldName(fields[0].key)] + Events(fields[0].value);
      var tail := FieldEvents(fields[1..]);
      var last := [FieldName(f.key)] + Events(f.value);
      assert (fields + [f])[0] == fields[0];
      assert (fields + [f])[1..] == fields[1..] + [f];
      assert FieldEvents(fields + [f]) == head + FieldEvents(fields[1..] + [f]);
      FieldEventsSnoc(fields[1..], f);
      AppendAssoc(tail, [FieldName(f.key)], Events(f.value));
      AppendAssoc(head, tail, last);
      AppendAssoc(FieldEvents(fields), [FieldName(f.key)], Events(f.value));
    }
  }

  /** The value of a key in a parsed object: a later duplicate overwrites an earlier one. */
  function Lookup(fields: seq<Field>, key: string): (r: Option<Json>)
    ensures r.Some? <==> exists i :: 0 <= i < |fields| && fields[i].key == key
    ensures r.Some? ==> exists i :: 0 <= i < |fields| && fields[i] == Field(key, r.value)
  {
    if fields == [] then None
    else if fields[|fields| - 1].key == key then Some(fields[|fields| - 1].value)
    else Lookup(fields[..|fields| - 1], key)
  }

  /** The field of a key that no later field repeats gives the key's value: the last duplicate wins. */
  lemma {:induction false} LookupLast(fields: seq<Field>, key: string, i: nat)
    requires i < |fields| && fields[i].key == key
    requires forall j :: i < j < |fields| ==> fields[j].key != key
    ensures Lookup(fields, key) == Some(fields[i].value)
    decreases |fields|
  {
    if i < |fields| - 1 {
      var init := fields[..|fields| - 1];
      assert init[i] == fields[i];
      assert forall j :: i < j < |init| ==> init[j] == fields[j];
      LookupLast(init, key, i);
    }
  }

  /** Looking a key up in a three-field object, such as a metadata record. */
  lemma Lookup3(a: Field, b: Field, c: Field, key: string)
    ensures Lookup([a, b, c], key) ==
      if c.key == key then Some(c.value) else if b.key == key then Some(b.value)
      else if a.key == key then Some(a.value) else None
  {
    assert [a, b, c][..2] == [a, b];
    assert [a, b][..1] == [a];
    assert [a][..0] == [];
    assert Lookup([a], key) == if a.key == key then Some(a.value) else None;
    assert Lookup([a, b], key) == if b.key == key then Some(b.value) else Lookup([a], key);
  }

  /** The events of a three-field and of a four-field object's fields, written out. */
  lemma FieldEvents3(a: Field, b: Field, c: Field)
    ensures FieldEvents([a, b, c]) ==
      [FieldName(a.key)] + Events(a.value) + [FieldName(b.key)] + Events(b.value) +
      [FieldName(c.key)] + Events(c.value)
  {
    assert [a, b, c][1..] == [b, c];
    assert [b, c][1..] == [c];
    assert [c][1..] == [];
    assert FieldEvents([c]) == [FieldName(c.key)] + Events(c.value);
    assert FieldEvents([b, c]) == [FieldName(b.key)] + Events(b.value) + FieldEvents([c]);
    assert FieldEvents([a, b, c]) == [FieldName(a.key)] + Events(a.value) + FieldEvents([b, c]);
  }

  lemma FieldEvents4(a: Field, b: Field, c: Field, d: Field)
    ensures FieldEvents([a, b, c, d]) ==
      [FieldName(a.key)] + Events(a.value) + [FieldName(b.key)] + Events(b.value) +
      [FieldName(c.key)] + Events(c.value) + [FieldName(d.key)] + Events(d.value)
  {
    assert [a, b, c, d][1..] == [b, c, d];
    FieldEvents3(b, c, d);
    assert FieldEvents([a, b, c, d]) == [FieldName(a.key)] + Events(a.value) + FieldEvents([b, c, d]);
  }

  /** A streaming generator: the events written so far are the text produced so far. */
  class Generator {
    var written: seq<Event>

    constructor ()
      ensures written == []
    {
      written := [];
    }

    method Emit(e: Event)
      modifies this
      ensures written == old(written) + [e]
    {
      written := written + [e];
    }

    /** writeStringField(name, value) */
    method StringField(name: string, value: string)
      modifies this
      ensures written == old(written) + [FieldName(name)] + Events(JStr(value))
    {
      written := written + [FieldName(name), StringValue(value)];
    }
  }
}
