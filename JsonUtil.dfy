/** incognia/json_util.py: the only step of `encode` that is modelled is the
    top-level filter applied to the dict before it is rendered as JSON. */
module JsonUtil {

  import opened Wrappers
  import opened PyValue

  /** `encode(d)`, as the dict handed to `json.dumps`: every top-level field
      whose value is None is dropped, every other field is kept unchanged and
      in its input order. */
  function Encode(d: Dict): (r: Dict)
    ensures forall f :: f in r <==> f in d && !f.value.Null?
    ensures forall i :: 0 <= i < |r| ==> !r[i].value.Null?
    ensures Subsequence(r, d)
  {
    RemoveNoneKeepsOrder(d);
    RemoveNone(d)
  }

  /** Seen through lookups on a dict: a None-valued key is absent afterwards,
      and every other key has the value it had. */
  lemma EncodeLookup(d: Dict, k: string)
    requires DistinctKeys(d)
    ensures DistinctKeys(Encode(d))
    ensures Lookup(Encode(d), k) == (if Lookup(d, k) == Some(Null) then None else Lookup(d, k))
  {
    RemoveNoneDistinct(d);
    LookupRemoveNone(d, k);
  }

  /** Encoding what was already filtered changes nothing. */
  lemma EncodeIdempotent(d: Dict)
    ensures Encode(Encode(d)) == Encode(d)
  {
    RemoveNoneIdempotent(d);
  }

  /** The test is `is not None`, not truthiness: empty strings, zero, False
      and empty containers all stay. */
  lemma EncodeKeepsFalsy(d: Dict, f: Field)
    requires f in d && !Truthy(f.value) && !f.value.Null?
    ensures f in Encode(d)
  {
  }

  /** The filter is shallow: a kept dict or list is kept whole, None values
      inside it included. */
  lemma EncodeIsShallow(d: Dict, k: string, inner: Dict)
    requires Field(k, Object(inner)) in d
    ensures Field(k, Object(inner)) in Encode(d)
  {
  }

  /** For a dict literal with distinct keys, each listed key is present after
      encoding exactly when its value is not None, and no other key is. */
  lemma EncodeFromPairs(ks: seq<string>, vs: seq<Value>, k: string)
    requires |ks| == |vs| && DistinctStrings(ks)
    ensures DistinctKeys(Encode(FromPairs(ks, vs)))
    ensures k !in ks ==> Lookup(Encode(FromPairs(ks, vs)), k) == None
    ensures forall i :: 0 <= i < |ks| && ks[i] == k ==> Lookup(Encode(FromPairs(ks, vs)), k) == NonNull(vs[i])
  {
    var d := FromPairs(ks, vs);
    EncodeLookup(d, k);
    forall i | 0 <= i < |ks| && ks[i] == k
      ensures Lookup(Encode(d), k) == NonNull(vs[i])
    {
      LookupField(d, k, vs[i]);
    }
  }
}
