/** incognia_api/post_signup_request_json_encoder.py:
    `PostSignupRequestJSONEncoder.default`, which drops the None-valued keys
    of a dict or of an object's attributes. */
module PostSignupRequestJsonEncoder {

  import opened Wrappers
  import opened PyValue
  import PostSignupRequestBody

  /** `PostSignupRequestJSONEncoder.default(o)`: a dict is checked first, then
      an object with a `__dict__`; anything else goes to the base encoder,
      which raises TypeError. */
  function Default(o: Value): (r: Result<Value, EncodeError>)
    ensures r.Success? <==> o.Object? || o.Instance?
    ensures r.Failure? ==> r.error == NotSerializable
    ensures o.Object? ==>
      r.Success? && r.value.Object? && forall f :: f in r.value.fields <==> f in o.fields && !f.value.Null?
    ensures o.Instance? ==>
      r.Success? && r.value.Object? && forall f :: f in r.value.fields <==> f in o.attrs && !f.value.Null?
    ensures o.Object? ==> Subsequence(r.value.fields, o.fields)
    ensures o.Instance? ==> Subsequence(r.value.fields, o.attrs)
  {
    if o.Object? then RemoveNoneKeepsOrder(o.fields); Success(Object(RemoveNone(o.fields)))
    else if o.Instance? then RemoveNoneKeepsOrder(o.attrs); Success(Object(RemoveNone(o.attrs)))
    else Failure(NotSerializable)
  }

  /** On objects the two encoders of the signup request agree; only this one
      also accepts a plain dict. */
  lemma EncodersCompared(o: Value)
    ensures o.Instance? ==> Default(o) == PostSignupRequestBody.SignupRequestEncoderDefault(o)
    ensures o.Object? ==> Default(o).Success? && PostSignupRequestBody.SignupRequestEncoderDefault(o).Failure?
    ensures !o.Object? && !o.Instance? ==>
      Default(o) == PostSignupRequestBody.SignupRequestEncoderDefault(o) == Failure(NotSerializable)
  {
  }

  /** A dict without None values keeps every key and every value. */
  lemma DefaultKeepsCompleteDict(d: Dict)
    requires forall i :: 0 <= i < |d| ==> !d[i].value.Null?
    ensures Default(Object(d)) == Success(Object(d))
  {
    RemoveNoneNoNull(d);
  }

  /** The dict of the encoder's tests: the two None-valued keys go, the empty
      string, the list, the nested dict, the int and the float stay, in order. */
  lemma DefaultDropsNoneKeys()
    ensures Default(Object([Field("key_none_one", Null), Field("key_none_two", Null)] + TestKept()))
         == Success(Object(TestKept()))
  {
    var kept := TestKept();
    var d := [Field("key_none_one", Null), Field("key_none_two", Null)] + kept;
    var d1 := [Field("key_none_two", Null)] + kept;
    assert d[1..] == d1 && d1[1..] == kept;
    assert RemoveNone(d1) == RemoveNone(kept);
    assert RemoveNone(d) == RemoveNone(d1);
    RemoveNoneNoNull(kept);
  }

  /** The non-None fields of the encoder's test dict. */
  function TestKept(): (d: Dict)
    ensures forall i :: 0 <= i < |d| ==> !d[i].value.Null?
  {
    [Field("key_array", List([Int(1), Int(2), Int(3)])), Field("key_empty_str", Str("")),
     Field("key_nested", Object([Field("key", Str("value"))])), Field("key_int", Int(42)),
     Field("key_float", Float(42.24))]
  }

  /** Coordinates keep both `lat` and `lng`. */
  lemma DefaultKeepsCoordinates(c: PostSignupRequestBody.Coordinates)
    ensures Default(Instance(PostSignupRequestBody.CoordinatesAttributes(c)))
         == Success(Object(PostSignupRequestBody.CoordinatesAttributes(c)))
  {
    var d := PostSignupRequestBody.CoordinatesAttributes(c);
    RemoveNoneNoNull(d);
  }

  /** An address with every field given keeps all eleven keys. */
  lemma DefaultKeepsCompleteAddress(a: PostSignupRequestBody.StructuredAddress)
    requires forall i :: 0 <= i < |PostSignupRequestBody.AddressKeys| ==> PostSignupRequestBody.AddressValues(a)[i].Some?
    ensures Default(Instance(PostSignupRequestBody.AddressAttributes(a)))
         == Success(Object(PostSignupRequestBody.AddressAttributes(a)))
  {
    RemoveNoneNoNull(PostSignupRequestBody.AddressAttributes(a));
  }
}
