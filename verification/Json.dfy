/**
 JSON values as the client compares, reads and patches them.

 An object is a map, so the order of its keys is not represented; where the
 program lists the entries of an object, the model lists them in key order.
 A path is its list of keys: the program rejects empty keys and keys that
 contain a dot, so splitting and joining at dots lose nothing.
 */
module Json {
  import opened Prelude

  datatype Json =
    | Null
    | Bool(b: bool)
    | Num(n: int)
    | Str(s: string)
    | Arr(items: seq<Json>)
    | Obj(fields: map<string, Json>)

  type Path = seq<string>

  type Record = map<string, Json>

  /** The recursive comparison of two values. */
  predicate SameValue(left: Json, right: Json)
    decreases left
  {
    match left
    case Arr(a) =>
      right.Arr? && |a| == |right.items| &&
      forall i | 0 <= i < |a| :: SameValue(a[i], right.items[i])
    case Obj(m) =>
      right.Obj? && |m| == |right.fields| &&
      forall k | k in m :: k in right.fields && SameValue(m[k], right.fields[k])
    case _ => left == right
  }

  /** Comparing only the left value's keys still decides equality. */
  lemma {:induction false} SameValueIsEquality(left: Json, right: Json)
    ensures SameValue(left, right) <==> left == right
    decreases left
  {
    match left
    case Arr(a) =>
      if right.Arr? && |a| == |right.items| {
        forall i | 0 <= i < |a| {
          SameValueIsEquality(a[i], right.items[i]);
        }
        assert SameValue(left, right) ==> a == right.items;
      }
    case Obj(m) =>
      if right.Obj? {
        forall k | k in m && k in right.fields {
          SameValueIsEquality(m[k], right.fields[k]);
        }
        if SameValue(left, right) {
          SubsetCardinality(m.Keys, right.fields.Keys);
          assert m == right.fields;
        }
      }
    case _ =>
  }

  // ---------------------------------------------------------------- key order

  predicate Below(a: string, b: string) {
    a == [] || (b != [] && (a[0] < b[0] || (a[0] == b[0] && Below(a[1..], b[1..]))))
  }

  lemma {:induction false} BelowTotal(a: string, b: string)
    ensures Below(a, b) || Below(b, a)
    ensures Below(a, b) && Below(b, a) ==> a == b
  {
    if a == [] || b == [] || a[0] != b[0] {
    } else {
      BelowTotal(a[1..], b[1..]);
      assert a == [a[0]] + a[1..] && b == [b[0]] + b[1..];
    }
  }

  lemma {:induction false} BelowTransitive(a: string, b: string, c: string)
    requires Below(a, b) && Below(b, c)
    ensures Below(a, c)
  {
    if a == [] || a[0] < c[0] {
    } else {
      BelowTransitive(a[1..], b[1..], c[1..]);
    }
  }

  predicate IsLeast(k: string, keys: set<string>) {
    k in keys && forall x | x in keys :: Below(k, x)
  }

  lemma {:induction false} LeastExists(keys: set<string>)
    requires keys != {}
    ensures exists k :: IsLeast(k, keys)
    decreases keys
  {
    var k :| k in keys;
    if keys == {k} {
      BelowTotal(k, k);
      assert IsLeast(k, keys);
    } else {
      LeastExists(keys - {k});
      var m :| IsLeast(m, keys - {k});
      BelowTotal(k, m);
      BelowTotal(k, k);
      var least := if Below(k, m) then k else m;
      forall x | x in keys
        ensures Below(least, x)
      {
        if x != k && least == k {
          BelowTransitive(k, m, x);
        }
      }
      assert IsLeast(least, keys);
    }
  }

  lemma LeastUnique(keys: set<string>)
    ensures forall a, b | IsLeast(a, keys) && IsLeast(b, keys) :: a == b
  {
    forall a, b | IsLeast(a, keys) && IsLeast(b, keys)
      ensures a == b
    {
      BelowTotal(a, b);
    }
  }

  /** The keys in ascending order, each exactly once. */
  function KeySeq(keys: set<string>): (r: seq<string>)
    ensures ToSet(r) == keys
    ensures NoDuplicates(r)
    decreases keys
  {
    if keys == {} then
      []
    else
      LeastExists(keys);
      LeastUnique(keys);
      var k :| IsLeast(k, keys);
      var rest := KeySeq(keys - {k});
      assert ToSet([k] + rest) == {k} + ToSet(rest);
      [k] + rest
  }

  // ------------------------------------------------------- reading and writing

  function Lookup(m: Record, key: string): Option<Json> {
    if key in m then Some(m[key]) else None
  }

  /** The value at a path, or nothing once a step leaves the objects. */
  function ReadPath(value: Option<Json>, path: Path): Option<Json>
    decreases |path|
  {
    if path == [] then
      value
    else if value.Some? && value.value.Obj? then
      ReadPath(Lookup(value.value.fields, path[0]), path[1..])
    else
      None
  }

  function SubRecord(m: Record, key: string): Record {
    if key in m && m[key].Obj? then m[key].fields else map[]
  }

  /** Writes or deletes one field, creating objects on the way to it. */
  function WritePath(m: Record, path: Path, value: Option<Json>): Record
    requires path != []
    decreases |path|
  {
    if |path| == 1 then
      match value
      case Some(v) => m[path[0] := v]
      case None => m - {path[0]}
    else
      m[path[0] := Obj(WritePath(SubRecord(m, path[0]), path[1..], value))]
  }

  /** One path is a prefix of the other, so writing one can affect the other. */
  predicate Overlaps(p: Path, q: Path) {
    p <= q || q <= p
  }

  lemma {:induction false} ReadOwnWrite(m: Record, path: Path, value: Option<Json>)
    requires path != []
    ensures ReadPath(Some(Obj(WritePath(m, path, value))), path) == value
    decreases |path|
  {
    if |path| == 1 {
      assert path[1..] == [];
    } else {
      ReadOwnWrite(SubRecord(m, path[0]), path[1..], value);
    }
  }

  lemma {:induction false} ReadOtherWrite(m: Record, path: Path, value: Option<Json>, other: Path)
    requires path != []
    requires !Overlaps(path, other)
    ensures ReadPath(Some(Obj(WritePath(m, path, value))), other) == ReadPath(Some(Obj(m)), other)
    decreases |path|
  {
    if other[0] == path[0] {
      assert path == [path[0]] + path[1..] && other == [other[0]] + other[1..];
      assert |path| > 1;
      ReadOtherWrite(SubRecord(m, path[0]), path[1..], value, other[1..]);
      ReadMissing(other[1..]);
    }
  }

  lemma ReadMissing(path: Path)
    requires path != []
    ensures ReadPath(Some(Obj(map[])), path) == None
  {
    assert ReadPath(None, path[1..]) == None;
  }
}
