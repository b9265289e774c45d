/**
 * The in-memory sensor cache of sensor_cache.py: one reading per
 * (sensor, prop), kept in a dict. Python dicts iterate in insertion order and
 * overwriting a key keeps its place, so the dict is modelled as its items: a
 * sequence of (key, reading) pairs with distinct keys.
 *
 * The clock string `datetime.now().isoformat()` is the parameter `now`.
 */
module SensorCache {
  import opened Wrappers
  import opened Json
  import Internal

  /** (sensor name, property). */
  type Key = (string, string)

  type Items = seq<(Key, Internal.SensorReading)>

  predicate DistinctKeys(d: Items) {
    forall i, j :: 0 <= i < j < |d| ==> d[i].0 != d[j].0
  }

  function RowKey(r: Internal.SensorReading): Key {
    (r.sensor, r.prop)
  }

  /** Every reading is stored under its own (sensor, prop). */
  predicate OwnKeys(d: Items) {
    forall i :: 0 <= i < |d| ==> d[i].0 == RowKey(d[i].1)
  }

  function KeySet(d: Items): set<Key> {
    set i | 0 <= i < |d| :: d[i].0
  }

  /** `d.get(key)`. */
  function Find(d: Items, key: Key): (r: Option<Internal.SensorReading>)
    ensures r.Some? <==> key in KeySet(d)
  {
    if d == [] then None
    else if d[0].0 == key then Some(d[0].1)
    else
      var r := Find(d[1..], key);
      assert key in KeySet(d[1..]) <==> key in KeySet(d) by {
        assert forall i :: 0 < i < |d| ==> d[i].0 == d[1..][i - 1].0;
        assert forall i :: 0 <= i < |d| - 1 ==> d[1..][i].0 == d[i + 1].0;
      }
      r
  }

  /** `d[key] = value`: replaced where the key is, appended when it is new. */
  function Put(d: Items, key: Key, value: Internal.SensorReading): Items {
    if d == [] then [(key, value)]
    else if d[0].0 == key then [(key, value)] + d[1..]
    else [d[0]] + Put(d[1..], key, value)
  }

  lemma KeySetCons(d: Items)
    requires d != []
    ensures KeySet(d) == {d[0].0} + KeySet(d[1..])
  {
    forall k | k in KeySet(d) ensures k in {d[0].0} + KeySet(d[1..]) {
      var i :| 0 <= i < |d| && d[i].0 == k;
      if i > 0 { assert d[1..][i - 1].0 == k; }
    }
    forall k | k in KeySet(d[1..]) ensures k in KeySet(d) {
      var i :| 0 <= i < |d[1..]| && d[1..][i].0 == k;
      assert d[i + 1].0 == k;
    }
  }

  lemma DistinctCons(d: Items)
    requires d != [] && DistinctKeys(d)
    ensures DistinctKeys(d[1..]) && d[0].0 !in KeySet(d[1..])
  {
    forall i | 0 <= i < |d[1..]| ensures d[1..][i].0 != d[0].0 {
      assert d[1..][i] == d[i + 1];
    }
  }

  /** After `d[key] = value` the key reads `value` and every other key reads as before. */
  lemma {:induction false} PutFind(d: Items, key: Key, value: Internal.SensorReading, other: Key)
    ensures Find(Put(d, key, value), key) == Some(value)
    ensures other != key ==> Find(Put(d, key, value), other) == Find(d, other)
  {
    if d != [] && d[0].0 != key {
      PutFind(d[1..], key, value, other);
    }
  }

  /**
   * `d[key] = value` adds `key` to the keys and nothing else, keeps them
   * distinct, and grows the dict by one exactly when the key is new.
   */
  lemma {:induction false} PutKeys(d: Items, key: Key, value: Internal.SensorReading)
    requires DistinctKeys(d)
    ensures KeySet(Put(d, key, value)) == KeySet(d) + {key}
    ensures DistinctKeys(Put(d, key, value))
    ensures |Put(d, key, value)| == if key in KeySet(d) then |d| else |d| + 1
  {
    if d == [] {
      assert KeySet(Put(d, key, value)) == {key} by {
        assert Put(d, key, value)[0].0 == key;
      }
    } else {
      var p := Put(d, key, value);
      KeySetCons(d);
      KeySetCons(p);
      DistinctCons(d);
      if d[0].0 != key {
        PutKeys(d[1..], key, value);
        assert p[1..] == Put(d[1..], key, value);
        forall j | 0 < j < |p| ensures p[0].0 != p[j].0 {
          assert p[1..][j - 1].0 == p[j].0;
        }
      } else {
        assert p[1..] == d[1..];
      }
    }
  }

  /** Storing a reading under its own key keeps every reading under its own key. */
  lemma {:induction false} PutOwnKeys(d: Items, value: Internal.SensorReading)
    requires OwnKeys(d)
    ensures OwnKeys(Put(d, RowKey(value), value))
  {
    if d != [] && d[0].0 != RowKey(value) {
      PutOwnKeys(d[1..], value);
      var p := Put(d, RowKey(value), value);
      assert p == [d[0]] + Put(d[1..], RowKey(value), value);
    }
  }

  /** With distinct keys, one item per key: the number of items is the number of keys. */
  lemma {:induction false} ItemsPerKey(d: Items)
    requires DistinctKeys(d)
    ensures |KeySet(d)| == |d|
  {
    if d != [] {
      ItemsPerKey(d[1..]);
      assert KeySet(d) == KeySet(d[1..]) + {d[0].0} by {
        forall k | k in KeySet(d) ensures k in KeySet(d[1..]) + {d[0].0} {
          var i :| 0 <= i < |d| && d[i].0 == k;
          if i > 0 { assert d[1..][i - 1].0 == k; }
        }
      }
      assert d[0].0 !in KeySet(d[1..]) by {
        forall i | 0 <= i < |d[1..]| ensures d[1..][i].0 != d[0].0 {
          assert d[1..][i] == d[i + 1];
        }
      }
    }
  }

  /** The loop of `load_from_db`: each row stored under its own (sensor, prop). */
  function LoadRows(d: Items, rows: seq<Internal.SensorReading>): Items {
    if rows == [] then d
    else
      var last := rows[|rows| - 1];
      Put(LoadRows(d, rows[..|rows| - 1]), RowKey(last), last)
  }

  /** The last row with the given key, if any. */
  function LastRowFor(rows: seq<Internal.SensorReading>, key: Key): Option<Internal.SensorReading> {
    if rows == [] then None
    else if RowKey(rows[|rows| - 1]) == key then Some(rows[|rows| - 1])
    else LastRowFor(rows[..|rows| - 1], key)
  }

  /**
   * After loading, a key holds its last row (later rows override earlier ones)
   * and a key no row mentions keeps its earlier entry.
   */
  lemma {:induction false} LoadRowsSpec(d: Items, rows: seq<Internal.SensorReading>, key: Key)
    requires DistinctKeys(d)
    ensures DistinctKeys(LoadRows(d, rows))
    ensures Find(LoadRows(d, rows), key) == match LastRowFor(rows, key) case Some(r) => Some(r) case None => Find(d, key)
  {
    if rows != [] {
      var last := rows[|rows| - 1];
      LoadRowsSpec(d, rows[..|rows| - 1], key);
      PutFind(LoadRows(d, rows[..|rows| - 1]), RowKey(last), last, key);
      PutKeys(LoadRows(d, rows[..|rows| - 1]), RowKey(last), last);
    }
  }

  /** With distinct keys, an item's key finds that item. */
  lemma {:induction false} FindDistinct(d: Items, i: nat)
    requires DistinctKeys(d) && i < |d|
    ensures Find(d, d[i].0) == Some(d[i].1)
  {
    if i > 0 {
      DistinctCons(d);
      FindDistinct(d[1..], i - 1);
      assert d[1..][i - 1] == d[i];
    }
  }

  function Values(d: Items): (r: seq<Internal.SensorReading>)
    ensures |r| == |d| && forall i :: 0 <= i < |d| ==> r[i] == d[i].1
  {
    seq(|d|, i requires 0 <= i < |d| => d[i].1)
  }

  /** The module-level cache. */
  class Cache {
    /** `_cache`, as its items in insertion order. */
    var items: Items

    ghost predicate Valid()
      reads this
    {
      DistinctKeys(items) && OwnKeys(items)
    }

    constructor()
      ensures Valid() && items == []
    {
      items := [];
    }

    /** `update(name, prop, val)`, stamped `now`. */
    method Update(name: string, prop: string, val: real, now: string)
      requires Valid()
      modifies this
      ensures Valid()
      ensures items == Put(old(items), (name, prop), Internal.SensorReading(name, prop, val, now))
    {
      PutKeys(items, (name, prop), Internal.SensorReading(name, prop, val, now));
      PutOwnKeys(items, Internal.SensorReading(name, prop, val, now));
      items := Put(items, (name, prop), Internal.SensorReading(name, prop, val, now));
    }

    /**
     * `get_all`: one reading per cached key, each the reading cached under its
     * (sensor, prop), in insertion order.
     */
    function GetAll(): (r: seq<Internal.SensorReading>)
      requires Valid()
      reads this
      ensures |r| == |KeySet(items)|
      ensures forall i :: 0 <= i < |r| ==> Find(items, RowKey(r[i])) == Some(r[i])
      ensures forall k :: k in KeySet(items) ==> exists i :: 0 <= i < |r| && RowKey(r[i]) == k
    {
      ItemsPerKey(items);
      var d := items;
      forall i | 0 <= i < |d| ensures Find(d, RowKey(d[i].1)) == Some(d[i].1) {
        FindDistinct(d, i);
      }
      Values(d)
    }

    /** `get_all_as_dicts`: the same readings, each as a dict that reads back to it. */
    function GetAllAsDicts(): (r: seq<Value>)
      requires Valid()
      reads this
      ensures |r| == |GetAll()|
      ensures forall i :: 0 <= i < |r| ==> Internal.SensorReadingFromDict(r[i]) == Some(GetAll()[i])
    {
      var all := GetAll();
      forall i | 0 <= i < |all| ensures Internal.SensorReadingFromDict(all[i].ToDict()) == Some(all[i]) {
        Internal.SensorReadingRoundTrip(all[i]);
      }
      seq(|all|, i requires 0 <= i < |all| => all[i].ToDict())
    }

    /** `load_from_db`, given the rows the database returns. */
    method LoadFromDb(rows: seq<Internal.SensorReading>)
      requires Valid()
      modifies this
      ensures Valid()
      ensures items == LoadRows(old(items), rows)
    {
      ghost var start := items;
      var i := 0;
      while i < |rows|
        invariant 0 <= i <= |rows|
        invariant items == LoadRows(start, rows[..i])
        invariant Valid()
      {
        var row := rows[i];
        assert rows[..i + 1][..i] == rows[..i];
        PutKeys(items, (row.sensor, row.prop), row);
        PutOwnKeys(items, row);
        items := Put(items, (row.sensor, row.prop), row);
        i := i + 1;
      }
      assert rows[..|rows|] == rows;
    }

    /** `is_empty`. */
    function IsEmpty(): (r: bool)
      reads this
      ensures r <==> KeySet(items) == {}
    {
      assert items != [] ==> items[0].0 in KeySet(items);
      |items| == 0
    }

    /** `clear`. */
    method Clear()
      modifies this
      ensures Valid() && items == []
    {
      items := [];
    }
  }
}
