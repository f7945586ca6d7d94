/** The Python values that request bodies and encoder inputs are made of, and
    Python's insertion-ordered `dict` as a sequence of fields with distinct
    keys. */
module PyValue {

  import opened Wrappers

  /** A JSON-like Python value. `Null` is Python's `None`; `Object` is a `dict`;
      `Instance` is an object of a user class, seen through its `__dict__`. */
  datatype Value =
    | Null
    | Bool(b: bool)
    | Int(i: int)
    | Float(r: real)
    | Str(s: string)
    | List(items: seq<Value>)
    | Object(fields: seq<Field>)
    | Instance(attrs: seq<Field>)

  datatype Field = Field(key: string, value: Value)

  /** The TypeError of `json.JSONEncoder.default`: the value is not JSON
      serializable. */
  datatype EncodeError = NotSerializable

  /** A `dict`, in insertion order. */
  type Dict = seq<Field>

  /** Python truthiness (`bool(v)`): None, False, zero and empty containers are
      false; instances of user classes are true. */
  predicate Truthy(v: Value)
  {
    match v
    case Null => false
    case Bool(b) => b
    case Int(i) => i != 0
    case Float(r) => r != 0.0
    case Str(s) => s != ""
    case List(items) => items != []
    case Object(fields) => fields != []
    case Instance(_) => true
  }

  /** `Optional[str]` as a value: `None` or the string. */
  function OptStr(o: Option<string>): (v: Value)
    ensures v.Null? <==> o.None?
    ensures o.Some? ==> v == Str(o.value)
  {
    if o.None? then Null else Str(o.value)
  }

  function Keys(d: Dict): (ks: seq<string>)
    ensures |ks| == |d| && forall i :: 0 <= i < |d| ==> ks[i] == d[i].key
  {
    if d == [] then [] else [d[0].key] + Keys(d[1..])
  }

  /** Every dict has distinct keys. */
  ghost predicate DistinctKeys(d: Dict)
  {
    forall i, j :: 0 <= i < j < |d| ==> d[i].key != d[j].key
  }

  /** `d[k]` (`d.get(k)` with None meaning "no such key", Python's KeyError). */
  function Lookup(d: Dict, k: string): (r: Option<Value>)
    ensures r.Some? <==> k in Keys(d)
    ensures r.Some? ==> Field(k, r.value) in d
  {
    if d == [] then None
    else if d[0].key == k then Some(d[0].value)
    else Lookup(d[1..], k)
  }

  /** In a dict with distinct keys each stored field is what lookup finds. */
  lemma {:induction false} LookupField(d: Dict, k: string, v: Value)
    requires DistinctKeys(d) && Field(k, v) in d
    ensures Lookup(d, k) == Some(v)
  {
    if d[0] != Field(k, v) {
      assert d[0].key != k by {
        var i :| 0 <= i < |d| && d[i] == Field(k, v);
      }
      assert DistinctKeys(d[1..]) by {
        forall i, j | 0 <= i < j < |d| - 1 ensures d[1..][i].key != d[1..][j].key {
          assert d[i + 1].key != d[j + 1].key;
        }
      }
      LookupField(d[1..], k, v);
    }
  }

  /** `d[k] = v`: an existing key keeps its position and takes the new value; a
      new key is appended. */
  function Set(d: Dict, k: string, v: Value): (r: Dict)
    ensures Lookup(r, k) == Some(v)
    ensures forall k' :: k' != k ==> Lookup(r, k') == Lookup(d, k')
  {
    if d == [] then [Field(k, v)]
    else if d[0].key == k then [Field(k, v)] + d[1..]
    else
      var rest := Set(d[1..], k, v);
      var r := [d[0]] + rest;
      assert r[1..] == rest;
      r
  }

  /** Where `d[k] = v` puts the key: in place, or at the end. */
  lemma {:induction false} SetKeys(d: Dict, k: string, v: Value)
    ensures k in Keys(d) ==> Keys(Set(d, k, v)) == Keys(d)
    ensures k !in Keys(d) ==> Keys(Set(d, k, v)) == Keys(d) + [k]
  {
    if d != [] && d[0].key != k {
      SetKeys(d[1..], k, v);
      assert Keys(d) == [d[0].key] + Keys(d[1..]);
      assert Keys(Set(d, k, v)) == [d[0].key] + Keys(Set(d[1..], k, v));
    }
  }

  /** `d.update(other)`: the fields of `other` are set one after the other. */
  function Update(d: Dict, other: Dict): (r: Dict)
    requires DistinctKeys(other)
    ensures forall k :: k in Keys(other) ==> Lookup(r, k) == Lookup(other, k)
    ensures forall k :: k !in Keys(other) ==> Lookup(r, k) == Lookup(d, k)
    decreases |other|
  {
    if other == [] then d
    else
      var k0 := other[0].key;
      DistinctTail(other);
      var r := Update(Set(d, k0, other[0].value), other[1..]);
      assert Keys(other) == [k0] + Keys(other[1..]);
      assert k0 !in Keys(other[1..]);
      r
  }

  /** Dropping the first field keeps keys distinct, and the first key does not
      occur again. */
  lemma DistinctTail(d: Dict)
    requires d != [] && DistinctKeys(d)
    ensures DistinctKeys(d[1..]) && d[0].key !in Keys(d[1..])
  {
    assert forall i, j :: 0 <= i < j < |d| - 1 ==> d[1..][i].key == d[i + 1].key && d[1..][j].key == d[j + 1].key;
  }

  /** Distinct keys are preserved by `d[k] = v`. */
  lemma SetDistinct(d: Dict, k: string, v: Value)
    requires DistinctKeys(d)
    ensures DistinctKeys(Set(d, k, v))
  {
    SetKeys(d, k, v);
    var ks := Keys(Set(d, k, v));
    assert forall i, j :: 0 <= i < j < |ks| ==> ks[i] != ks[j];
  }

  /** The comprehension `{k: v for (k, v) in d.items() if v is not None}`:
      exactly the fields whose value is not None survive, unchanged. */
  function RemoveNone(d: Dict): (r: Dict)
    ensures forall f :: f in r <==> f in d && !f.value.Null?
    ensures |r| <= |d|
  {
    if d == [] then []
    else if d[0].value.Null? then RemoveNone(d[1..])
    else [d[0]] + RemoveNone(d[1..])
  }

  /** `a` can be obtained from `b` by deleting elements (order is kept). */
  ghost predicate Subsequence<T>(a: seq<T>, b: seq<T>)
    decreases |b|
  {
    if a == [] then true
    else if b == [] then false
    else if a[0] == b[0] then Subsequence(a[1..], b[1..])
    else Subsequence(a, b[1..])
  }

  /** The fields that survive keep their input order. */
  lemma {:induction false} RemoveNoneKeepsOrder(d: Dict)
    ensures Subsequence(RemoveNone(d), d)
  {
    if d != [] {
      RemoveNoneKeepsOrder(d[1..]);
      if d[0].value.Null? {
        SubsequenceSkip(RemoveNone(d[1..]), d[0], d[1..]);
      }
    }
  }

  lemma {:induction false} SubsequenceSkip<T>(a: seq<T>, x: T, b: seq<T>)
    requires Subsequence(a, b)
    ensures Subsequence(a, [x] + b)
    decreases |b|, 1
  {
    var xb := [x] + b;
    assert xb[1..] == b;
    if a != [] && a[0] == x {
      SubsequenceDrop(a, b);
    }
  }

  lemma {:induction false} SubsequenceDrop<T>(a: seq<T>, b: seq<T>)
    requires a != [] && Subsequence(a, b)
    ensures Subsequence(a[1..], b)
    decreases |b|, 0
  {
    assert b != [];
    if a[0] == b[0] {
      SubsequenceSkip(a[1..], b[0], b[1..]);
      assert [b[0]] + b[1..] == b;
    } else {
      SubsequenceDrop(a, b[1..]);
      SubsequenceSkip(a[1..], b[0], b[1..]);
      assert [b[0]] + b[1..] == b;
    }
  }

  /** Filtering twice is filtering once. */
  lemma {:induction false} RemoveNoneIdempotent(d: Dict)
    ensures RemoveNone(RemoveNone(d)) == RemoveNone(d)
  {
    if d != [] {
      RemoveNoneIdempotent(d[1..]);
    }
  }

  /** A dict without None values passes the filter unchanged (every key kept). */
  lemma {:induction false} RemoveNoneNoNull(d: Dict)
    requires forall i :: 0 <= i < |d| ==> !d[i].value.Null?
    ensures RemoveNone(d) == d
  {
    if d != [] {
      RemoveNoneNoNull(d[1..]);
      assert [d[0]] + d[1..] == d;
    }
  }

  /** The filtered dict still has distinct keys. */
  lemma {:induction false} RemoveNoneDistinct(d: Dict)
    requires DistinctKeys(d)
    ensures DistinctKeys(RemoveNone(d))
  {
    if d != [] {
      assert DistinctKeys(d[1..]) by {
        forall i, j | 0 <= i < j < |d| - 1 ensures d[1..][i].key != d[1..][j].key {
          assert d[i + 1].key != d[j + 1].key;
        }
      }
      RemoveNoneDistinct(d[1..]);
      if !d[0].value.Null? {
        var r := RemoveNone(d);
        forall j | 1 <= j < |r| ensures r[0].key != r[j].key {
          assert r[j] in d[1..];
        }
      }
    }
  }

  /** Seen as a mapping, the filter removes exactly the None-valued keys and
      keeps the value of every other key. */
  lemma LookupRemoveNone(d: Dict, k: string)
    requires DistinctKeys(d)
    ensures Lookup(RemoveNone(d), k) ==
      (if Lookup(d, k) == Some(Null) then None else Lookup(d, k))
  {
    var r := RemoveNone(d);
    RemoveNoneDistinct(d);
    match Lookup(d, k)
    case None =>
    case Some(v) =>
      if v.Null? {
        if Lookup(r, k).Some? {
          var w := Lookup(r, k).value;
          LookupField(d, k, w);
        }
      } else {
        LookupField(r, k, v);
      }
  }

  ghost predicate DistinctStrings(ks: seq<string>)
  {
    forall i, j :: 0 <= i < j < |ks| ==> ks[i] != ks[j]
  }

  /** A dict literal `{ks[0]: vs[0], ks[1]: vs[1], ...}`. */
  function FromPairs(ks: seq<string>, vs: seq<Value>): (r: Dict)
    requires |ks| == |vs|
    ensures Keys(r) == ks
    ensures |r| == |ks| && forall i :: 0 <= i < |r| ==> r[i] == Field(ks[i], vs[i])
  {
    seq(|ks|, i requires 0 <= i < |ks| => Field(ks[i], vs[i]))
  }

  /** A `None`-or-present value of an `Optional[...]` argument. */
  function NonNull(v: Value): (r: Option<Value>)
    ensures r.None? <==> v.Null?
    ensures r.Some? ==> r.value == v
  {
    if v.Null? then None else Some(v)
  }

  /** ASCII lower-casing of one character. */
  function LowerChar(c: char): (l: char)
    ensures !('A' <= l <= 'Z')
    ensures !('A' <= c <= 'Z') ==> l == c
    ensures 'A' <= c <= 'Z' ==> l as int == c as int + 32
  {
    if 'A' <= c <= 'Z' then (c as int + 32) as char else c
  }

  /** `str.lower`, on the ASCII letters. */
  function ToLower(s: string): (r: string)
    ensures |r| == |s| && forall i :: 0 <= i < |s| ==> r[i] == LowerChar(s[i])
  {
    seq(|s|, i requires 0 <= i < |s| => LowerChar(s[i]))
  }
}
