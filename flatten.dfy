/**
 * `isPlainObj` and `flattenObj` of `DatabaseService`: a partial update payload,
 * possibly nested, becomes a map from dotted field path to leaf value.
 *
 * A value is either a plain object (an ordered list of own enumerable
 * key/value pairs, in `Object.keys` order) or a leaf.  Everything that is not a
 * plain object -- null, booleans, numbers, strings, arrays, dates, ObjectIds --
 * is a leaf and is never descended into.  JavaScript's `undefined` is not a
 * leaf of this model.
 */
module Flatten {

  datatype Scalar =
    | Null
    | Bool(b: bool)
    | Num(n: int)
    | Str(s: string)
    | Date(time: int)
    | ObjectId(hex: string)
    | Array(items: seq<Value>)

  datatype Value = Leaf(scalar: Scalar) | Obj(entries: seq<(string, Value)>)

  type Entries = seq<(string, Value)>

  /**
   * isPlainObj: only a plain object is walked into; null, scalars, arrays,
   * dates and ObjectIds are not plain.
   */
  predicate IsPlainObj(v: Value): (plain: bool)
    ensures plain <==> v.Obj?
  {
    v.Obj?
  }

  /**
   * `parts.join(".")`.  Extending the path by one key, as
   * `keys.concat(key)` does, appends a dot and the key to the joined path.
   */
  function Join(parts: seq<string>): (joined: string)
    ensures |parts| == 1 ==> joined == parts[0]
    ensures |parts| >= 2 ==> joined == Join(parts[..|parts| - 1]) + "." + parts[|parts| - 1]
  {
    if |parts| == 0 then ""
    else if |parts| == 1 then parts[0]
    else
      assert parts[1..][..|parts[1..]| - 1] == parts[1..|parts| - 1];
      assert |parts| > 2 ==> parts[..|parts| - 1][1..] == parts[1..|parts| - 1];
      parts[0] + "." + Join(parts[1..])
  }

  /**
   * flattenObj(obj, keys): `Object.keys(obj).reduce` from the left, each step
   * merging (`Object.assign`, later keys overwrite) either the flattening of a
   * nested plain object under the extended prefix, or the single leaf keyed by
   * the dot-joined path.
   */
  function FlattenObj(obj: Entries, keys: seq<string>): (flat: map<string, Scalar>)
    ensures keys != [] ==> forall path :: path in flat ==> Join(keys) + "." <= path
    decreases obj
  {
    if obj == [] then map[]
    else FlattenObj(obj[..|obj| - 1], keys) + FlattenEntry(obj[|obj| - 1], keys)
  }

  /** One step of the reduce: what `Object.assign` merges in for one key of the object. */
  function FlattenEntry(entry: (string, Value), keys: seq<string>): (flat: map<string, Scalar>)
    ensures forall path :: path in flat ==> Join(keys + [entry.0]) <= path
    ensures keys != [] ==> forall path :: path in flat ==> Join(keys) + "." <= path
    decreases entry
  {
    var (key, v) := entry;
    var prefix := keys + [key];
    assert keys != [] ==> Join(prefix) == Join(keys) + "." + key by {
      assert keys != [] ==> prefix[..|prefix| - 1] == keys;
    }
    if IsPlainObj(v) then FlattenObj(v.entries, prefix)
    else map[Join(prefix) := v.scalar]
  }

  /** The top-level call made by update and create. */
  function Flat(payload: Entries): map<string, Scalar>
  {
    FlattenObj(payload, [])
  }

  // ---------------------------------------------------------------------
  // An independent reference: the list of all leaves, depth first.

  /**
   * Every leaf of `obj` with its dotted path, depth first in key order;
   * unlike the flattened map it keeps a path that occurs twice.
   */
  function Leaves(obj: Entries, keys: seq<string>): seq<(string, Scalar)>
    decreases obj
  {
    if obj == [] then []
    else
      EntryLeaves(obj[0], keys) + Leaves(obj[1..], keys)
  }

  function EntryLeaves(entry: (string, Value), keys: seq<string>): seq<(string, Scalar)>
    decreases entry
  {
    match entry.1
    case Obj(children) => Leaves(children, keys + [entry.0])
    case Leaf(s) => [(Join(keys + [entry.0]), s)]
  }

  /** A list of pairs read as an object built key by key: a later pair overwrites an earlier one. */
  function ToMap(pairs: seq<(string, Scalar)>): map<string, Scalar>
  {
    if pairs == [] then map[]
    else ToMap(pairs[..|pairs| - 1])[pairs[|pairs| - 1].0 := pairs[|pairs| - 1].1]
  }

  /** A flat payload: every pair of the list as a top-level leaf. */
  function AsEntries(pairs: seq<(string, Scalar)>): (obj: Entries)
    ensures |obj| == |pairs|
    ensures forall i :: 0 <= i < |pairs| ==> obj[i] == (pairs[i].0, Leaf(pairs[i].1))
  {
    if pairs == [] then [] else [(pairs[0].0, Leaf(pairs[0].1))] + AsEntries(pairs[1..])
  }

  lemma {:induction false} ToMapAppend(a: seq<(string, Scalar)>, b: seq<(string, Scalar)>)
    ensures ToMap(a + b) == ToMap(a) + ToMap(b)
    decreases |b|
  {
    if b != [] {
      var b' := b[..|b| - 1];
      assert (a + b)[..|a + b| - 1] == a + b';
      ToMapAppend(a, b');
    } else {
      assert a + b == a;
    }
  }

  lemma {:induction false} LeavesAppend(x: Entries, y: Entries, keys: seq<string>)
    ensures Leaves(x + y, keys) == Leaves(x, keys) + Leaves(y, keys)
    decreases |x|
  {
    if x == [] {
      assert x + y == y;
    } else {
      assert (x + y)[0] == x[0];
      assert (x + y)[1..] == x[1..] + y;
      LeavesAppend(x[1..], y, keys);
    }
  }

  /** flattenObj is exactly the last-wins reading of the depth-first leaf list. */
  lemma {:induction false} FlattenIsLastWins(obj: Entries, keys: seq<string>)
    ensures FlattenObj(obj, keys) == ToMap(Leaves(obj, keys))
    decreases obj
  {
    if obj != [] {
      var init := obj[..|obj| - 1];
      var last := obj[|obj| - 1];
      assert obj == init + [last];
      FlattenIsLastWins(init, keys);
      LeavesAppend(init, [last], keys);
      assert [last][1..] == [];
      assert Leaves([last], keys) == EntryLeaves(last, keys);
      EntryIsLastWins(last, keys);
      ToMapAppend(Leaves(init, keys), EntryLeaves(last, keys));
    }
  }

  lemma {:induction false} EntryIsLastWins(entry: (string, Value), keys: seq<string>)
    ensures FlattenEntry(entry, keys) == ToMap(EntryLeaves(entry, keys))
    decreases entry
  {
    match entry.1 {
      case Obj(children) =>
        FlattenIsLastWins(children, keys + [entry.0]);
      case Leaf(s) =>
        var pair := (Join(keys + [entry.0]), s);
        var single: seq<(string, Scalar)> := [pair];
        assert single[..0] == [];
        assert ToMap(single) == map[][pair.0 := pair.1];
    }
  }

  /**
   * Flattening a payload that is already flat (only leaves at the top level)
   * keys each value by its own top-level key, later keys overwriting earlier ones.
   */
  lemma {:induction false} FlattenFlatPayload(pairs: seq<(string, Scalar)>)
    ensures Flat(AsEntries(pairs)) == ToMap(pairs)
  {
    FlattenIsLastWins(AsEntries(pairs), []);
    FlatLeaves(pairs);
  }

  lemma {:induction false} FlatLeaves(pairs: seq<(string, Scalar)>)
    ensures Leaves(AsEntries(pairs), []) == pairs
  {
    if pairs != [] {
      FlatLeaves(pairs[1..]);
      assert Join([] + [pairs[0].0]) == pairs[0].0;
      assert AsEntries(pairs)[1..] == AsEntries(pairs[1..]);
    }
  }

  /** Flattening is idempotent: flattening the flattened leaves again changes nothing. */
  lemma FlattenIdempotent(payload: Entries)
    ensures Flat(AsEntries(Leaves(payload, []))) == Flat(payload)
  {
    FlattenFlatPayload(Leaves(payload, []));
    FlattenIsLastWins(payload, []);
  }

  /** No two pairs of a payload share a key. */
  ghost predicate DistinctKeys(obj: Entries)
  {
    forall i, j :: 0 <= i < j < |obj| ==> obj[i].0 != obj[j].0
  }

  /** When no key repeats, the last-wins reading keeps every pair and invents none. */
  lemma {:induction false} ToMapDistinct(pairs: seq<(string, Scalar)>)
    requires forall i, j :: 0 <= i < j < |pairs| ==> pairs[i].0 != pairs[j].0
    ensures forall i :: 0 <= i < |pairs| ==> pairs[i].0 in ToMap(pairs) && ToMap(pairs)[pairs[i].0] == pairs[i].1
    ensures forall k :: k in ToMap(pairs) ==> exists i :: 0 <= i < |pairs| && pairs[i].0 == k
  {
    if pairs != [] {
      var init := pairs[..|pairs| - 1];
      var last := pairs[|pairs| - 1];
      ToMapDistinct(init);
      assert ToMap(pairs) == ToMap(init)[last.0 := last.1];
      forall k | k in ToMap(pairs) ensures exists i :: 0 <= i < |pairs| && pairs[i].0 == k {
        if k != last.0 {
          assert k in ToMap(init);
          var i :| 0 <= i < |init| && init[i].0 == k;
          assert pairs[i].0 == k;
        }
      }
    }
  }

  /**
   * An already-flat payload with distinct keys maps to itself: each of its keys
   * keeps its own value, and no other key appears.
   */
  lemma FlatPayloadMapsToItself(obj: Entries)
    requires forall i :: 0 <= i < |obj| ==> obj[i].1.Leaf?
    requires DistinctKeys(obj)
    ensures forall i :: 0 <= i < |obj| ==> obj[i].0 in Flat(obj) && Flat(obj)[obj[i].0] == obj[i].1.scalar
    ensures forall k :: k in Flat(obj) ==> exists i :: 0 <= i < |obj| && obj[i].0 == k
  {
    var pairs := seq(|obj|, i requires 0 <= i < |obj| => (obj[i].0, obj[i].1.scalar));
    assert AsEntries(pairs) == obj;
    FlattenFlatPayload(pairs);
    ToMapDistinct(pairs);
  }

  /** The reduce over two runs of entries is the merge of the two, the later run winning. */
  lemma {:induction false} FlattenAppend(a: Entries, b: Entries, keys: seq<string>)
    ensures FlattenObj(a + b, keys) == FlattenObj(a, keys) + FlattenObj(b, keys)
    decreases |b|
  {
    if b == [] {
      assert a + b == a;
    } else {
      var init := b[..|b| - 1];
      assert b == init + [b[|b| - 1]];
      assert a + b == (a + init) + [b[|b| - 1]];
      FlattenAppend(a, init, keys);
      MergeAssociates(FlattenObj(a, keys), FlattenObj(init, keys), FlattenEntry(b[|b| - 1], keys));
    }
  }

  /** Right-biased map merge is associative. */
  lemma MergeAssociates(x: map<string, Scalar>, y: map<string, Scalar>, z: map<string, Scalar>)
    ensures (x + y) + z == x + (y + z)
  {
  }

  /** A nested empty plain object contributes no keys, wherever it sits among its siblings. */
  lemma EmptyObjectAddsNothing(obj: Entries, key: string, rest: Entries, keys: seq<string>)
    ensures FlattenObj(obj + [(key, Obj([]))] + rest, keys) == FlattenObj(obj + rest, keys)
  {
    var empty := [(key, Obj([]))];
    assert [] + empty == empty;
    assert FlattenObj(empty, keys) == FlattenObj([], keys) + FlattenEntry(empty[0], keys);
    assert FlattenObj(empty, keys) == map[];
    FlattenAppend(obj + empty, rest, keys);
    FlattenAppend(obj, empty, keys);
    FlattenAppend(obj, rest, keys);
  }

  /** {a: {b: 1, c: {d: 2}}} flattens to {"a.b": 1, "a.c.d": 2}. */
  lemma NestedExample()
    ensures Flat([("a", Obj([("b", Leaf(Num(1))), ("c", Obj([("d", Leaf(Num(2)))]))]))])
            == map["a.b" := Num(1), "a.c.d" := Num(2)]
  {
    var a := [("b", Leaf(Num(1))), ("c", Obj([("d", Leaf(Num(2)))]))];
    var top := [("a", Obj(a))];
    NestedExampleInner();
    assert [] + ["a"] == ["a"];
    assert top[..0] == [];
    assert FlattenEntry(top[0], []) == FlattenObj(a, ["a"]);
    assert FlattenObj(top, []) == FlattenObj(top[..0], []) + FlattenEntry(top[0], []);
  }

  lemma NestedExampleInner()
    ensures FlattenObj([("b", Leaf(Num(1))), ("c", Obj([("d", Leaf(Num(2)))]))], ["a"])
            == map["a.b" := Num(1), "a.c.d" := Num(2)]
  {
    var a := [("b", Leaf(Num(1))), ("c", Obj([("d", Leaf(Num(2)))]))];
    NestedExampleLeaf();
    assert ["a"] + ["b"] == ["a", "b"] && ["a"] + ["c"] == ["a", "c"];
    assert Join(["a", "b"]) == "a.b";
    assert a[..1] == [("b", Leaf(Num(1)))] && a[..1][..0] == [];
    assert FlattenObj(a[..1], ["a"]) == map[] + map["a.b" := Num(1)];
    assert FlattenEntry(a[1], ["a"]) == map["a.c.d" := Num(2)];
  }

  lemma NestedExampleLeaf()
    ensures FlattenObj([("d", Leaf(Num(2)))], ["a", "c"]) == map["a.c.d" := Num(2)]
  {
    var c := [("d", Leaf(Num(2)))];
    assert ["a", "c"] + ["d"] == ["a", "c", "d"];
    assert Join(["a", "c", "d"]) == "a.c.d";
    assert c[..0] == [];
    assert FlattenObj(c, ["a", "c"]) == map[] + map["a.c.d" := Num(2)];
  }
}
