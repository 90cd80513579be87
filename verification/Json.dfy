/** JSON values as the services exchange them. Objects keep their fields in
    insertion order, as Python dicts and JavaScript objects do. */
module Json {
  import opened Text

  datatype Json =
    | Null
    | Bool(b: bool)
    | Num(n: int)
    | Str(s: string)
    | Arr(items: seq<Json>)
    | Obj(fields: seq<(string, Json)>)

  type Field = (string, Json)

  function Names(fields: seq<Field>): (r: seq<string>)
    ensures |r| == |fields|
    ensures forall i :: 0 <= i < |fields| ==> r[i] == fields[i].0
  {
    if fields == [] then [] else [fields[0].0] + Names(fields[1..])
  }

  predicate DistinctNames(fields: seq<Field>)
  {
    forall i, j :: 0 <= i < j < |fields| ==> fields[i].0 != fields[j].0
  }

  /** The value stored under `name`, if any. */
  function Get(fields: seq<Field>, name: string): Option<Json>
  {
    if fields == [] then None
    else if fields[0].0 == name then Some(fields[0].1)
    else Get(fields[1..], name)
  }

  /** `Get` finds the first field carrying the name. */
  lemma {:induction false} GetFirst(fields: seq<Field>, i: int, name: string)
    requires 0 <= i < |fields| && fields[i].0 == name
    requires forall j :: 0 <= j < i ==> fields[j].0 != name
    ensures Get(fields, name) == Some(fields[i].1)
  {
    if i > 0 {
      GetFirst(fields[1..], i - 1, name);
    }
  }

  /** A field appended under another name does not change what `Get` finds. */
  lemma {:induction false} GetSkipsLast(fields: seq<Field>, last: Field, name: string)
    requires last.0 != name
    ensures Get(fields + [last], name) == Get(fields, name)
  {
    if fields == [] {
      assert ([] + [last])[1..] == [];
    } else {
      assert (fields + [last])[1..] == fields[1..] + [last];
      GetSkipsLast(fields[1..], last, name);
    }
  }

  /** `d[name] = value`: an existing field keeps its place, a new one goes last. */
  function Set(fields: seq<Field>, name: string, value: Json): seq<Field>
  {
    if fields == [] then [(name, value)]
    else if fields[0].0 == name then [(name, value)] + fields[1..]
    else [fields[0]] + Set(fields[1..], name, value)
  }

  /** `d.update(extra)`: the fields of `extra` set one after another. */
  function Update(fields: seq<Field>, extra: seq<Field>): seq<Field>
    decreases |extra|
  {
    if extra == [] then fields else Update(Set(fields, extra[0].0, extra[0].1), extra[1..])
  }

  lemma {:induction false} GetSet(fields: seq<Field>, name: string, value: Json, other: string)
    ensures Get(Set(fields, name, value), other) == if other == name then Some(value) else Get(fields, other)
  {
    if fields != [] && fields[0].0 != name {
      GetSet(fields[1..], name, value, other);
    }
  }

  /** Setting a field keeps every existing field name where it was. */
  lemma {:induction false} SetKeepsOrder(fields: seq<Field>, name: string, value: Json)
    ensures |Set(fields, name, value)| >= |fields|
    ensures forall i :: 0 <= i < |fields| ==> Set(fields, name, value)[i].0 == fields[i].0
  {
    if fields != [] && fields[0].0 != name {
      SetKeepsOrder(fields[1..], name, value);
      var r := Set(fields, name, value);
      assert r == [fields[0]] + Set(fields[1..], name, value);
    }
  }

  /** After `d.update(extra)` with a dict `extra`, a name reads from `extra`
      when `extra` has it and from `d` otherwise. */
  lemma {:induction false} GetUpdate(fields: seq<Field>, extra: seq<Field>, name: string)
    requires DistinctNames(extra)
    ensures Get(Update(fields, extra), name) == if name in Names(extra) then Get(extra, name) else Get(fields, name)
    decreases |extra|
  {
    if extra != [] {
      var next := Set(fields, extra[0].0, extra[0].1);
      GetUpdate(next, extra[1..], name);
      GetSet(fields, extra[0].0, extra[0].1, name);
      assert Names(extra) == [extra[0].0] + Names(extra[1..]);
      if name == extra[0].0 {
        assert name !in Names(extra[1..]);
      }
    }
  }

  /** `d.update(extra)` keeps the names of `d` first and in their order. */
  lemma {:induction false} UpdateKeepsOrder(fields: seq<Field>, extra: seq<Field>)
    ensures |Update(fields, extra)| >= |fields|
    ensures forall i :: 0 <= i < |fields| ==> Update(fields, extra)[i].0 == fields[i].0
    decreases |extra|
  {
    if extra != [] {
      var next := Set(fields, extra[0].0, extra[0].1);
      SetKeepsOrder(fields, extra[0].0, extra[0].1);
      UpdateKeepsOrder(next, extra[1..]);
    }
  }
}
