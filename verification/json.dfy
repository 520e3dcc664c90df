/**
  JSON-shaped Python values: what `json.loads` produces and what the components
  exchange as dictionaries. A dictionary is an association list in insertion
  order, as Python dictionaries keep their keys.
 */
module PyJson {
  import opened Wrappers

  datatype Json =
    | Null
    | Bool(b: bool)
    | Num(n: real)
    | Str(s: string)
    | Arr(elems: seq<Json>)
    | Obj(fields: seq<(string, Json)>)

  /** A Python dictionary with string keys. */
  type Fields = seq<(string, Json)>

  /** The keys of a dictionary, in insertion order. */
  function Keys(o: Fields): (ks: seq<string>)
    ensures |ks| == |o|
    ensures forall i :: 0 <= i < |o| ==> ks[i] == o[i].0
  {
    if o == [] then [] else [o[0].0] + Keys(o[1..])
  }

  /** Python's `k in d`. */
  predicate HasKey(o: Fields, k: string) {
    k in Keys(o)
  }

  /** Python's `d.get(k)`: the value stored under `k`, if any. */
  function Get(o: Fields, k: string): (r: Option<Json>)
    ensures r.Some? <==> HasKey(o, k)
    ensures r.Some? ==> (k, r.value) in o
  {
    if o == [] then None else if o[0].0 == k then Some(o[0].1) else Get(o[1..], k)
  }

  /** Python's `d.get(k, default)`. */
  function GetOr(o: Fields, k: string, default: Json): (r: Json)
    ensures HasKey(o, k) ==> Some(r) == Get(o, k)
    ensures !HasKey(o, k) ==> r == default
  {
    match Get(o, k)
    case Some(v) => v
    case None => default
  }

  /** Python's `d[k] = v`: an existing key keeps its position, a new key goes last. */
  function Put(o: Fields, k: string, v: Json): (r: Fields)
    ensures Keys(r) == if HasKey(o, k) then Keys(o) else Keys(o) + [k]
    ensures Get(r, k) == Some(v)
    ensures forall k' :: k' != k ==> Get(r, k') == Get(o, k')
  {
    if o == [] then [(k, v)]
    else if o[0].0 == k then
      PutHere(o, k, v);
      [(k, v)] + o[1..]
    else
      var t := Put(o[1..], k, v);
      PutBehind(o, k, v, t);
      [o[0]] + t
  }

  lemma {:induction false} MissingFromTail(o: Fields, k: string)
    requires o != [] && !HasKey(o, k)
    ensures o[0].0 != k && !HasKey(o[1..], k)
  {
    assert Keys(o) == [o[0].0] + Keys(o[1..]);
  }

  lemma {:induction false} ConsAppend<T>(o: seq<T>, r: seq<T>, e: seq<T>)
    requires o != [] && r == [o[0]] + (o[1..] + e)
    ensures r == o + e
  {
    assert [o[0]] + (o[1..] + e) == ([o[0]] + o[1..]) + e;
    assert [o[0]] + o[1..] == o;
  }

  /** Replacing the first entry's value keeps the keys and every other lookup. */
  lemma {:induction false} PutHere(o: Fields, k: string, v: Json)
    requires o != [] && o[0].0 == k
    ensures var r := [(k, v)] + o[1..];
      && Keys(r) == Keys(o) && HasKey(o, k)
      && Get(r, k) == Some(v)
      && forall k' :: k' != k ==> Get(r, k') == Get(o, k')
  {
    var r := [(k, v)] + o[1..];
    assert r[1..] == o[1..];
  }

  /** Putting into the tail behind a different first key: the first entry stays in front. */
  lemma {:induction false} PutBehind(o: Fields, k: string, v: Json, t: Fields)
    requires o != [] && o[0].0 != k
    requires Keys(t) == if HasKey(o[1..], k) then Keys(o[1..]) else Keys(o[1..]) + [k]
    requires Get(t, k) == Some(v)
    requires forall k' :: k' != k ==> Get(t, k') == Get(o[1..], k')
    ensures var r := [o[0]] + t;
      && Keys(r) == (if HasKey(o, k) then Keys(o) else Keys(o) + [k])
      && Get(r, k) == Some(v)
      && forall k' :: k' != k ==> Get(r, k') == Get(o, k')
  {
    var r := [o[0]] + t;
    assert r[0] == o[0] && r[1..] == t;
    KeysBehind(o, k, t);
  }

  lemma {:induction false} KeysBehind(o: Fields, k: string, t: Fields)
    requires o != [] && o[0].0 != k
    requires Keys(t) == if HasKey(o[1..], k) then Keys(o[1..]) else Keys(o[1..]) + [k]
    ensures Keys([o[0]] + t) == (if HasKey(o, k) then Keys(o) else Keys(o) + [k])
  {
    var r := [o[0]] + t;
    assert r[0] == o[0] && r[1..] == t;
    KeysCons(r);
    KeysCons(o);
    assert HasKey(o, k) <==> HasKey(o[1..], k);
    if !HasKey(o, k) {
      ConsAppend(Keys(o), Keys(r), [k]);
    }
  }

  /** The keys of a non-empty dictionary: the first key, then the rest's. */
  lemma {:induction false} KeysCons(o: Fields)
    requires o != []
    ensures Keys(o) == [o[0].0] + Keys(o[1..])
    ensures Keys(o)[1..] == Keys(o[1..])
  {
  }

  /** Assigning a key the dictionary lacks appends it. */
  lemma {:induction false} PutNewKey(o: Fields, k: string, v: Json)
    requires !HasKey(o, k)
    ensures Put(o, k, v) == o + [(k, v)]
  {
    if o != [] {
      MissingFromTail(o, k);
      PutNewKey(o[1..], k, v);
      ConsAppend(o, Put(o, k, v), [(k, v)]);
    }
  }

  /** A key with no earlier occurrence is found at its own position. */
  lemma {:induction false} GetFirstOccurrence(o: Fields, i: nat)
    requires i < |o| && forall j :: 0 <= j < i ==> o[j].0 != o[i].0
    ensures Get(o, o[i].0) == Some(o[i].1)
  {
    if i > 0 {
      GetFirstOccurrence(o[1..], i - 1);
    }
  }

  /** In a dictionary whose keys are distinct, every entry is found under its key. */
  lemma {:induction false} GetOfDistinct(o: Fields)
    requires forall i, j :: 0 <= i < j < |o| ==> Keys(o)[i] != Keys(o)[j]
    ensures forall i :: 0 <= i < |o| ==> Get(o, o[i].0) == Some(o[i].1)
  {
    forall i | 0 <= i < |o| ensures Get(o, o[i].0) == Some(o[i].1) {
      assert forall j :: 0 <= j <= i ==> o[j].0 == Keys(o)[j];
      GetFirstOccurrence(o, i);
    }
  }

  /** The keys are read off position by position. */
  lemma {:induction false} KeysFromPositions(o: Fields, ks: seq<string>)
    requires |o| == |ks| && forall i :: 0 <= i < |o| ==> o[i].0 == ks[i]
    ensures Keys(o) == ks
  {
  }

  lemma {:induction false} KeysAppend(a: Fields, b: Fields)
    ensures Keys(a + b) == Keys(a) + Keys(b)
  {
    if a != [] {
      assert (a + b)[1..] == a[1..] + b;
      KeysAppend(a[1..], b);
    }
  }

  /** Looking a key up in a concatenation tries the first part first. */
  lemma {:induction false} GetAppend(a: Fields, b: Fields, k: string)
    ensures Get(a + b, k) == if HasKey(a, k) then Get(a, k) else Get(b, k)
  {
    if a == [] {
      assert a + b == b;
    } else {
      var ab := a + b;
      assert ab[0] == a[0];
      assert ab[1..] == a[1..] + b;
      assert Keys(a) == [a[0].0] + Keys(a[1..]);
      if a[0].0 != k {
        GetAppend(a[1..], b, k);
      }
    }
  }

  /** Python truthiness of a JSON value. */
  predicate Truthy(j: Json) {
    match j
    case Null => false
    case Bool(b) => b
    case Num(n) => n != 0.0
    case Str(s) => s != ""
    case Arr(a) => a != []
    case Obj(o) => o != []
  }

  /** The values on which Python's `len` is defined. */
  predicate HasLen(j: Json) {
    j.Str? || j.Arr? || j.Obj?
  }

  /** Python's `len` of a string, list or dictionary. */
  function Len(j: Json): (n: nat)
    requires HasLen(j)
    ensures n == 0 <==> !Truthy(j)
  {
    match j
    case Str(s) => |s|
    case Arr(a) => |a|
    case Obj(o) => |o|
  }

  /** Python truthiness of an optional number (`None` and `0.0` are falsy). */
  predicate TruthyNum(x: Option<real>) {
    x.Some? && x.value != 0.0
  }

  /** The JSON form of an optional number (`None` becomes `null`). */
  function NumOrNull(x: Option<real>): (j: Json)
    ensures j.Null? <==> x.None?
    ensures x.Some? ==> j == Num(x.value)
  {
    match x
    case Some(v) => Num(v)
    case None => Null
  }
}
