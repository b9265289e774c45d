/**
 * The values that `dataclasses.asdict` and the `to_dict` methods build and that
 * `json.dumps` later writes out. Python dicts keep insertion order, so an object
 * is an ordered sequence of (key, value) pairs.
 */
module Json {
  import opened Wrappers

  datatype Value =
    | Null
    | Bool(b: bool)
    | Int(i: int)
    | Real(r: real)
    | Str(s: string)
    | Arr(items: seq<Value>)
    | Obj(fields: seq<(string, Value)>)

  /** The keys of an object, in insertion order. */
  function Keys(fields: seq<(string, Value)>): (ks: seq<string>)
    ensures |ks| == |fields|
    ensures forall i :: 0 <= i < |fields| ==> ks[i] == fields[i].0
  {
    seq(|fields|, i requires 0 <= i < |fields| => fields[i].0)
  }

  function Reals(xs: seq<real>): (r: seq<Value>)
    ensures |r| == |xs| && forall i :: 0 <= i < |xs| ==> r[i] == Real(xs[i])
  {
    seq(|xs|, i requires 0 <= i < |xs| => Real(xs[i]))
  }

  function Ints(xs: seq<int>): (r: seq<Value>)
    ensures |r| == |xs| && forall i :: 0 <= i < |xs| ==> r[i] == Int(xs[i])
  {
    seq(|xs|, i requires 0 <= i < |xs| => Int(xs[i]))
  }

  function Strs(xs: seq<string>): (r: seq<Value>)
    ensures |r| == |xs| && forall i :: 0 <= i < |xs| ==> r[i] == Str(xs[i])
  {
    seq(|xs|, i requires 0 <= i < |xs| => Str(xs[i]))
  }

  /** A list comprehension `[f(x) for x in xs]` turned into a JSON array. */
  function ArrOf<T>(xs: seq<T>, f: T -> Value): (v: Value)
    ensures v.Arr? && |v.items| == |xs|
    ensures forall i :: 0 <= i < |xs| ==> v.items[i] == f(xs[i])
  {
    Arr(seq(|xs|, i requires 0 <= i < |xs| => f(xs[i])))
  }

  /** Reads back a JSON array item by item; None if it is not an array or an item does not decode. */
  function DecodeItems<T>(items: seq<Value>, decode: Value -> Option<T>): Option<seq<T>> {
    if items == [] then Some([])
    else match (decode(items[0]), DecodeItems(items[1..], decode))
      case (Some(x), Some(xs)) => Some([x] + xs)
      case _ => None
  }

  function DecodeArr<T>(v: Value, decode: Value -> Option<T>): Option<seq<T>> {
    if v.Arr? then DecodeItems(v.items, decode) else None
  }

  /** An array built item by item reads back to the same list, in the same order. */
  lemma {:induction false} DecodeArrOf<T>(xs: seq<T>, f: T -> Value, decode: Value -> Option<T>)
    requires forall i :: 0 <= i < |xs| ==> decode(f(xs[i])) == Some(xs[i])
    ensures DecodeArr(ArrOf(xs, f), decode) == Some(xs)
  {
    if xs != [] {
      DecodeArrOf(xs[1..], f, decode);
      var items := ArrOf(xs, f).items;
      assert items[1..] == ArrOf(xs[1..], f).items;
      assert decode(items[0]) == Some(xs[0]);
      assert DecodeItems(items, decode) == Some([xs[0]] + xs[1..]);
      assert [xs[0]] + xs[1..] == xs;
    }
  }

  /** Reads back one string, number or integer item. */
  function AsStr(v: Value): Option<string> { if v.Str? then Some(v.s) else None }
  function AsReal(v: Value): Option<real> { if v.Real? then Some(v.r) else None }
  function AsInt(v: Value): Option<int> { if v.Int? then Some(v.i) else None }

  /** A list of strings, numbers or integers reads back to the same list. */
  lemma StrsRoundTrip(xs: seq<string>)
    ensures DecodeArr(Arr(Strs(xs)), AsStr) == Some(xs)
  {
    assert Arr(Strs(xs)) == ArrOf(xs, x => Str(x));
    DecodeArrOf(xs, x => Str(x), AsStr);
  }

  lemma RealsRoundTrip(xs: seq<real>)
    ensures DecodeArr(Arr(Reals(xs)), AsReal) == Some(xs)
  {
    assert Arr(Reals(xs)) == ArrOf(xs, x => Real(x));
    DecodeArrOf(xs, x => Real(x), AsReal);
  }

  lemma IntsRoundTrip(xs: seq<int>)
    ensures DecodeArr(Arr(Ints(xs)), AsInt) == Some(xs)
  {
    assert Arr(Ints(xs)) == ArrOf(xs, x => Int(x));
    DecodeArrOf(xs, x => Int(x), AsInt);
  }

  /** The object's keys are exactly `keys`, in this order. */
  predicate HasKeys(v: Value, keys: seq<string>) {
    v.Obj? && Keys(v.fields) == keys
  }
}
