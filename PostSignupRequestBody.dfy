/** incognia_api/post_signup_request_body.py: the request objects of the
    `incognia_api` signup call, their constructor checks, their attribute
    dicts (`__dict__`), and `SignupRequestEncoder.default`. The objects are
    never changed after `__init__`, so they are values here. */
module PostSignupRequestBody {

  import opened Wrappers
  import opened PyValue

  /** `IncogniaError(e)` raised for a failed `assert`, carrying its message. */
  datatype IncogniaError = IncogniaError(message: string)

  datatype Coordinates = Coordinates(lat: real, lng: real)

  /** `Coordinates(lat, lng)`: `assert lat`, then `assert lng`; a float is
      falsy exactly when it is zero. */
  function NewCoordinates(lat: real, lng: real): (r: Result<Coordinates, IncogniaError>)
    ensures r.Success? <==> lat != 0.0 && lng != 0.0
    ensures r.Success? ==> r.value.lat == lat && r.value.lng == lng
    ensures lat == 0.0 ==> r == Failure(IncogniaError("lat is required."))
    ensures lat != 0.0 && lng == 0.0 ==> r == Failure(IncogniaError("lng is required."))
  {
    if lat == 0.0 then Failure(IncogniaError("lat is required."))
    else if lng == 0.0 then Failure(IncogniaError("lng is required."))
    else Success(Coordinates(lat, lng))
  }

  /** `Coordinates.__dict__`. */
  function CoordinatesAttributes(c: Coordinates): (r: Dict)
    ensures Keys(r) == ["lat", "lng"] && DistinctKeys(r)
    ensures Lookup(r, "lat") == Some(Float(c.lat)) && Lookup(r, "lng") == Some(Float(c.lng))
  {
    var r := [Field("lat", Float(c.lat)), Field("lng", Float(c.lng))];
    assert Keys(r) == [r[0].key] + Keys(r[1..]);
    r
  }

  /** `StructuredAddress(...)`: eleven optional fields, stored as given. */
  datatype StructuredAddress = StructuredAddress(
    locale: Option<string>,
    countryName: Option<string>,
    countryCode: Option<string>,
    state: Option<string>,
    city: Option<string>,
    borough: Option<string>,
    neighborhood: Option<string>,
    street: Option<string>,
    number: Option<string>,
    complements: Option<string>,
    postalCode: Option<string>)

  /** The attribute names of a `StructuredAddress`, in assignment order. */
  const AddressKeys: seq<string> := [
    "locale", "country_name", "country_code", "state", "city", "borough",
    "neighborhood", "street", "number", "complements", "postal_code"]

  /** The fields of an address in the same order as `AddressKeys`. */
  function AddressValues(a: StructuredAddress): (vs: seq<Option<string>>)
    ensures |vs| == |AddressKeys|
  {
    [a.locale, a.countryName, a.countryCode, a.state, a.city, a.borough,
     a.neighborhood, a.street, a.number, a.complements, a.postalCode]
  }

  /** `StructuredAddress.__dict__`: one attribute per field, None included. */
  function AddressAttributes(a: StructuredAddress): (r: Dict)
    ensures |r| == |AddressKeys|
    ensures forall i :: 0 <= i < |r| ==> r[i] == Field(AddressKeys[i], OptStr(AddressValues(a)[i]))
  {
    var vs := AddressValues(a);
    seq(|AddressKeys|, i requires 0 <= i < |AddressKeys| => Field(AddressKeys[i], OptStr(vs[i])))
  }

  /** The eleven attribute names are distinct. */
  lemma AddressKeysDistinct(a: StructuredAddress)
    ensures DistinctKeys(AddressAttributes(a))
  {
    var r := AddressAttributes(a);
    forall i, j | 0 <= i < j < |r| ensures r[i].key != r[j].key {
      assert r[i].key == AddressKeys[i] && r[j].key == AddressKeys[j];
      assert |AddressKeys[i]| != |AddressKeys[j]| || AddressKeys[i] != AddressKeys[j];
    }
  }

  /** `PostSignupRequestBody(...)`, as stored once its check has passed. */
  datatype PostSignupRequestBody = PostSignupRequestBody(
    installationId: string,
    addressLine: Option<string>,
    structuredAddress: Option<StructuredAddress>,
    coordinates: Option<Coordinates>)

  /** `PostSignupRequestBody(installation_id, ...)`: `assert installation_id`;
      on success all four arguments are stored as given. */
  function NewPostSignupRequestBody(installationId: string, addressLine: Option<string>,
                                    structuredAddress: Option<StructuredAddress>, coordinates: Option<Coordinates>)
    : (r: Result<PostSignupRequestBody, IncogniaError>)
    ensures r.Success? <==> installationId != ""
    ensures r.Failure? ==> r.error == IncogniaError("installation_id is required.")
    ensures r.Success? ==>
      r.value.installationId == installationId && r.value.addressLine == addressLine
      && r.value.structuredAddress == structuredAddress && r.value.coordinates == coordinates
  {
    if installationId == "" then Failure(IncogniaError("installation_id is required."))
    else Success(PostSignupRequestBody(installationId, addressLine, structuredAddress, coordinates))
  }

  /** The body as a Python object graph: nested objects are instances. */
  function BodyValue(b: PostSignupRequestBody): (v: Value)
    ensures v.Instance? && |v.attrs| == 4 && v.attrs[0] == Field("installation_id", Str(b.installationId))
    ensures v.attrs[1] == Field("address_line", OptStr(b.addressLine))
    ensures v.attrs[2].key == "structured_address"
      && (v.attrs[2].value.Null? <==> b.structuredAddress.None?)
      && (b.structuredAddress.Some? ==> v.attrs[2].value == Instance(AddressAttributes(b.structuredAddress.value)))
    ensures v.attrs[3].key == "coordinates"
      && (v.attrs[3].value.Null? <==> b.coordinates.None?)
      && (b.coordinates.Some? ==> v.attrs[3].value == Instance(CoordinatesAttributes(b.coordinates.value)))
  {
    Instance([
      Field("installation_id", Str(b.installationId)),
      Field("address_line", OptStr(b.addressLine)),
      Field("structured_address",
            if b.structuredAddress.None? then Null else Instance(AddressAttributes(b.structuredAddress.value))),
      Field("coordinates",
            if b.coordinates.None? then Null else Instance(CoordinatesAttributes(b.coordinates.value)))])
  }

  /** `SignupRequestEncoder.default(o)`: only objects with a `__dict__` are
      handled, as their attributes minus the None-valued ones; a plain dict
      has no `__dict__` and is refused like any other value. */
  function SignupRequestEncoderDefault(o: Value): (r: Result<Value, EncodeError>)
    ensures r.Success? <==> o.Instance?
    ensures r.Failure? ==> r.error == NotSerializable
    ensures r.Success? ==>
      r.value.Object? && forall f :: f in r.value.fields <==> f in o.attrs && !f.value.Null?
    ensures r.Success? ==> Subsequence(r.value.fields, o.attrs)
  {
    if o.Instance? then RemoveNoneKeepsOrder(o.attrs); Success(Object(RemoveNone(o.attrs))) else Failure(NotSerializable)
  }

  /** Encoding an address keeps exactly the fields that were given, each with
      its value, and drops every field left as None. */
  lemma EncodedAddressFields(a: StructuredAddress, i: int)
    requires 0 <= i < |AddressKeys|
    ensures SignupRequestEncoderDefault(Instance(AddressAttributes(a))).Success?
    ensures Lookup(SignupRequestEncoderDefault(Instance(AddressAttributes(a))).value.fields, AddressKeys[i])
         == (if AddressValues(a)[i].None? then None else Some(Str(AddressValues(a)[i].value)))
  {
    var d := AddressAttributes(a);
    AddressKeysDistinct(a);
    LookupField(d, AddressKeys[i], OptStr(AddressValues(a)[i]));
    LookupRemoveNone(d, AddressKeys[i]);
  }

  /** The encoded body always names the installation and never carries a
      None attribute. */
  lemma EncodedBodyFields(b: PostSignupRequestBody)
    ensures SignupRequestEncoderDefault(BodyValue(b)).Success?
    ensures Field("installation_id", Str(b.installationId)) in SignupRequestEncoderDefault(BodyValue(b)).value.fields
    ensures Field("address_line", Null) !in SignupRequestEncoderDefault(BodyValue(b)).value.fields
  {
  }
}
