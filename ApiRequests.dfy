/** The pure part of incognia/api.py: the guard checks each `register_*`
    method runs before anything else, the request bodies, the query
    parameters and the request headers. */
module IncogniaApiRequests {

  import opened Wrappers
  import opened PyValue
  import opened TokenCommon
  import JsonUtil

  /** The endpoints of incognia/endpoints.py. */
  const SignupsUrl: string := "https://api.incognia.com/api/v2/onboarding/signups"
  const FeedbacksUrl: string := "https://api.incognia.com/api/v2/feedbacks"
  const TransactionsUrl: string := "https://api.incognia.com/api/v2/authentication/transactions"

  /** What a `register_*` call raises: IncogniaError with a message, a
      KeyError for a missing location key, an AttributeError for a
      `collected_at` that is not a string, or the token refresh's error. */
  datatype ApiError =
    | IncogniaError(message: string)
    | KeyError(key: string)
    | AttributeError
    | TokenFailure(cause: TokenError)

  const RequestTokenRequired: string := "request_token is required."
  const AccountIdRequired: string := "account_id is required."
  const EventRequired: string := "event is required."
  const OccurredAtTimezone: string := "occurred_at must have timezone"
  const ExpiresAtTimezone: string := "expires_at must have timezone"
  const LatitudeRequired: string := "location argument requires \"latitude\" field"
  const LongitudeRequired: string := "location argument requires \"longitude\" field"
  const CollectedAtFormat: string := "location[\"collected_at\"] must conform to ISO-8601 format"

  /** A `datetime`: the text of its `isoformat()` and the UTC offset its
      `tzinfo` reports, None for a naive value or a `tzinfo` without one. */
  datatype DateTime = DateTime(isoFormat: string, utcOffset: Option<int>)

  /** `has_timezone` of incognia/datetime_util.py. */
  predicate HasTimezone(d: DateTime)
  {
    d.utcOffset.Some?
  }

  /** `s.replace('Z', '+00:00')`. */
  function ReplaceZ(s: string): (r: string)
    ensures 'Z' !in r
    ensures 'Z' !in s ==> r == s
    ensures |r| >= |s|
  {
    if s == [] then []
    else
      var rest := ReplaceZ(s[1..]);
      assert 'Z' !in s ==> [s[0]] + s[1..] == s;
      (if s[0] == 'Z' then "+00:00" else [s[0]]) + rest
  }

  /** `replace` works character by character: a `Z` becomes `+00:00` and any
      other character is kept. */
  lemma ReplaceZChar(c: char)
    ensures ReplaceZ([c]) == if c == 'Z' then "+00:00" else [c]
  {
    assert [c][1..] == [];
  }

  /** Replacing in a concatenation is replacing in each part, so the text
      keeps its order around every replacement. */
  lemma {:induction false} ReplaceZAppend(a: string, b: string)
    ensures ReplaceZ(a + b) == ReplaceZ(a) + ReplaceZ(b)
  {
    if a == [] {
      assert a + b == b;
    } else {
      assert (a + b)[0] == a[0] && (a + b)[1..] == a[1..] + b;
      ReplaceZAppend(a[1..], b);
    }
  }

  /** `datetime_valid` of incognia/datetime_util.py. `parsesIso` stands for
      `datetime.fromisoformat` not raising ValueError; a value without
      `.replace` raises AttributeError, which the helper does not catch. */
  function DatetimeValid(v: Value, parsesIso: string -> bool): (r: Result<bool, ApiError>)
    ensures r.Success? <==> v.Str?
    ensures r.Failure? ==> r.error == AttributeError
    ensures v.Str? ==> r.value == parsesIso(ReplaceZ(v.s))
  {
    if v.Str? then Success(parsesIso(ReplaceZ(v.s))) else Failure(AttributeError)
  }

  /** `not s` is false: the optional string is given and not empty. */
  predicate Present(s: Option<string>)
  {
    s.Some? && s.value != ""
  }

  /** The one guard of the two signup calls. */
  function ValidateRequestToken(requestToken: Option<string>): (r: Result<(), ApiError>)
    ensures r.Success? <==> Present(requestToken)
    ensures r.Failure? ==> r.error == IncogniaError(RequestTokenRequired)
  {
    if !Present(requestToken) then Failure(IncogniaError(RequestTokenRequired)) else Success(())
  }

  /** `request_token` first, then `account_id`: the first failure wins. */
  function ValidateAccount(requestToken: Option<string>, accountId: Option<string>): (r: Result<(), ApiError>)
    ensures r.Success? <==> Present(requestToken) && Present(accountId)
    ensures !Present(requestToken) ==> r == Failure(IncogniaError(RequestTokenRequired))
    ensures Present(requestToken) && !Present(accountId) ==> r == Failure(IncogniaError(AccountIdRequired))
  {
    if !Present(requestToken) then Failure(IncogniaError(RequestTokenRequired))
    else if !Present(accountId) then Failure(IncogniaError(AccountIdRequired))
    else Success(())
  }

  /** `location['latitude']` is there and is not None. */
  predicate LatitudeGiven(location: Dict)
  {
    Lookup(location, "latitude").Some? && Lookup(location, "latitude") != Some(Null)
  }

  /** `location['longitude']` is there and is not None. */
  predicate LongitudeGiven(location: Dict)
  {
    Lookup(location, "longitude").Some? && Lookup(location, "longitude") != Some(Null)
  }

  /** When a location is accepted, stated key by key: latitude and longitude
      present and not None, `collected_at` present and either None or a string
      the ISO-8601 parser accepts once `Z` is replaced. */
  ghost predicate LocationAccepted(location: Dict, parsesIso: string -> bool)
  {
    Lookup(location, "latitude").Some? && Lookup(location, "latitude") != Some(Null)
    && Lookup(location, "longitude").Some? && Lookup(location, "longitude") != Some(Null)
    && Lookup(location, "collected_at").Some?
    && (Lookup(location, "collected_at") == Some(Null)
        || (Lookup(location, "collected_at").value.Str?
            && parsesIso(ReplaceZ(Lookup(location, "collected_at").value.s))))
  }

  /** The location guard of `register_payment` and `register_login`:
      `location['latitude']`, `location['longitude']` and
      `location['collected_at']` are read in that order, a missing key
      raising KeyError. */
  function ValidateLocation(location: Option<Dict>, parsesIso: string -> bool): (r: Result<(), ApiError>)
    ensures r.Success? <==> location.None? || LocationAccepted(location.value, parsesIso)
    ensures location.Some? && Lookup(location.value, "latitude").None? ==> r == Failure(KeyError("latitude"))
    ensures location.Some? && Lookup(location.value, "latitude") == Some(Null) ==>
      r == Failure(IncogniaError(LatitudeRequired))
    ensures location.Some? && LatitudeGiven(location.value) && Lookup(location.value, "longitude").None? ==>
      r == Failure(KeyError("longitude"))
    ensures location.Some? && LatitudeGiven(location.value) && Lookup(location.value, "longitude") == Some(Null) ==>
      r == Failure(IncogniaError(LongitudeRequired))
    ensures location.Some? && LatitudeGiven(location.value) && LongitudeGiven(location.value)
            && Lookup(location.value, "collected_at").None? ==>
      r == Failure(KeyError("collected_at"))
    ensures location.Some? && LatitudeGiven(location.value) && LongitudeGiven(location.value)
            && Lookup(location.value, "collected_at").Some? && Lookup(location.value, "collected_at") != Some(Null)
            && !Lookup(location.value, "collected_at").value.Str? ==>
      r == Failure(AttributeError)
    ensures location.Some? && LatitudeGiven(location.value) && LongitudeGiven(location.value)
            && Lookup(location.value, "collected_at").Some? && Lookup(location.value, "collected_at").value.Str?
            && !parsesIso(ReplaceZ(Lookup(location.value, "collected_at").value.s)) ==>
      r == Failure(IncogniaError(CollectedAtFormat))
    ensures r.Failure? ==>
      r.error in {KeyError("latitude"), KeyError("longitude"), KeyError("collected_at"), AttributeError,
                  IncogniaError(LatitudeRequired), IncogniaError(LongitudeRequired), IncogniaError(CollectedAtFormat)}
  {
    if location.None? then Success(())
    else
      var loc := location.value;
      match Lookup(loc, "latitude")
      case None => Failure(KeyError("latitude"))
      case Some(lat) =>
        if lat.Null? then Failure(IncogniaError(LatitudeRequired))
        else match Lookup(loc, "longitude")
        case None => Failure(KeyError("longitude"))
        case Some(lng) =>
          if lng.Null? then Failure(IncogniaError(LongitudeRequired))
          else match Lookup(loc, "collected_at")
          case None => Failure(KeyError("collected_at"))
          case Some(collectedAt) =>
            if collectedAt.Null? then Success(())
            else match DatetimeValid(collectedAt, parsesIso)
            case Failure(e) => Failure(e)
            case Success(valid) => if valid then Success(()) else Failure(IncogniaError(CollectedAtFormat))
  }

  /** The guards of `register_payment` and `register_login`: the account
      checks, then the location checks. */
  function ValidateTransaction(requestToken: Option<string>, accountId: Option<string>,
                               location: Option<Dict>, parsesIso: string -> bool)
    : (r: Result<(), ApiError>)
    ensures r.Success? <==> ValidateAccount(requestToken, accountId).Success? && ValidateLocation(location, parsesIso).Success?
    ensures ValidateAccount(requestToken, accountId).Failure? ==> r == ValidateAccount(requestToken, accountId)
    ensures ValidateAccount(requestToken, accountId).Success? ==> r == ValidateLocation(location, parsesIso)
    ensures !Present(requestToken) ==> r == Failure(IncogniaError(RequestTokenRequired))
  {
    var account := ValidateAccount(requestToken, accountId);
    if account.Failure? then account else ValidateLocation(location, parsesIso)
  }

  /** The guards of `register_feedback`: `event`, then `occurred_at`, then
      `expires_at`, each timestamp only when given. */
  function ValidateFeedback(event: Option<string>, occurredAt: Option<DateTime>, expiresAt: Option<DateTime>)
    : (r: Result<(), ApiError>)
    ensures r.Success? <==>
      Present(event) && (occurredAt.None? || HasTimezone(occurredAt.value))
      && (expiresAt.None? || HasTimezone(expiresAt.value))
    ensures !Present(event) ==> r == Failure(IncogniaError(EventRequired))
    ensures Present(event) && occurredAt.Some? && !HasTimezone(occurredAt.value) ==>
      r == Failure(IncogniaError(OccurredAtTimezone))
    ensures r == Failure(IncogniaError(ExpiresAtTimezone)) <==>
      Present(event) && (occurredAt.None? || HasTimezone(occurredAt.value))
      && expiresAt.Some? && !HasTimezone(expiresAt.value)
  {
    if !Present(event) then Failure(IncogniaError(EventRequired))
    else if occurredAt.Some? && !HasTimezone(occurredAt.value) then Failure(IncogniaError(OccurredAtTimezone))
    else if expiresAt.Some? && !HasTimezone(expiresAt.value) then Failure(IncogniaError(ExpiresAtTimezone))
    else Success(())
  }

  /** An `Optional[dict]` argument as a value. */
  function OptDict(o: Option<Dict>): (v: Value)
    ensures v.Null? <==> o.None?
    ensures o.Some? ==> v == Object(o.value)
  {
    if o.None? then Null else Object(o.value)
  }

  /** An `Optional[List[dict]]` argument as a value. */
  function OptDicts(o: Option<seq<Dict>>): (v: Value)
    ensures v.Null? <==> o.None?
    ensures o.Some? ==> v.List? && |v.items| == |o.value|
    ensures o.Some? ==> forall i :: 0 <= i < |o.value| ==> v.items[i] == Object(o.value[i])
  {
    if o.None? then Null else List(seq(|o.value|, i requires 0 <= i < |o.value| => Object(o.value[i])))
  }

  /** `device_os.lower() if device_os is not None else None`. */
  function LowerOs(deviceOs: Option<string>): (v: Value)
    ensures v.Null? <==> deviceOs.None?
    ensures deviceOs.Some? ==> v.Str? && |v.s| == |deviceOs.value|
    ensures deviceOs.Some? ==> forall i :: 0 <= i < |v.s| ==> v.s[i] == LowerChar(deviceOs.value[i])
    ensures deviceOs.Some? ==> forall i :: 0 <= i < |v.s| ==> !('A' <= v.s[i] <= 'Z')
  {
    if deviceOs.None? then Null else Str(ToLower(deviceOs.value))
  }

  /** `None if evaluate is None else {'eval': evaluate}`. */
  function Params(evaluate: Option<bool>): (r: Option<Dict>)
    ensures r.None? <==> evaluate.None?
    ensures r.Some? ==> Lookup(r.value, "eval") == Some(Bool(evaluate.value)) && Keys(r.value) == ["eval"]
  {
    if evaluate.None? then None else Some([Field("eval", Bool(evaluate.value))])
  }

  /** The value of the `Authorization` header: the token type, one space, the
      access token. */
  function AuthorizationValue(tv: TokenValues): (s: string)
    ensures |s| == |tv.tokenType| + 1 + |tv.accessToken|
    ensures s[..|tv.tokenType|] == tv.tokenType && s[|tv.tokenType|] == ' '
      && s[|tv.tokenType| + 1..] == tv.accessToken
  {
    tv.tokenType + " " + tv.accessToken
  }

  /** Splits a credential at its first space into scheme and token, the way
      a server reads the header; None when there is no space. */
  function SplitAuthorization(s: string): (r: Option<(string, string)>)
    ensures r.Some? ==> r.value.0 + " " + r.value.1 == s && ' ' !in r.value.0
    ensures r.None? <==> ' ' !in s
  {
    if s == [] then None
    else if s[0] == ' ' then
      assert s == [] + " " + s[1..];
      Some(([], s[1..]))
    else
      match SplitAuthorization(s[1..])
      case None => None
      case Some(parts) =>
        assert s == ([s[0]] + parts.0) + " " + parts.1 by {
          assert s == [s[0]] + s[1..];
        }
        Some(([s[0]] + parts.0, parts.1))
  }

  /** A token type without spaces is read back from the header together with
      the access token. */
  lemma {:induction false} AuthorizationRoundTrip(tv: TokenValues)
    requires ' ' !in tv.tokenType
    ensures SplitAuthorization(AuthorizationValue(tv)) == Some((tv.tokenType, tv.accessToken))
  {
    SplitPrefix(tv.tokenType, tv.accessToken);
  }

  lemma {:induction false} SplitPrefix(scheme: string, token: string)
    requires ' ' !in scheme
    ensures SplitAuthorization(scheme + " " + token) == Some((scheme, token))
  {
    var s := scheme + " " + token;
    if scheme == [] {
      assert s[0] == ' ' && s[1..] == token;
    } else {
      assert s[0] == scheme[0] && s[1..] == scheme[1..] + " " + token;
      SplitPrefix(scheme[1..], token);
      assert [scheme[0]] + scheme[1..] == scheme;
    }
  }

  /** `{'Authorization': ...}` of `__get_authorization_header`. */
  function AuthorizationHeader(tv: TokenValues): (r: Dict)
    ensures Keys(r) == ["Authorization"] && Lookup(r, "Authorization") == Some(Str(AuthorizationValue(tv)))
  {
    [Field("Authorization", Str(AuthorizationValue(tv)))]
  }

  /** `JSON_CONTENT_HEADER` of incognia/base_request.py. */
  const JsonContentHeader: Dict := [Field("Content-Type", Str("application/json"))]

  /** The headers after `headers.update(JSON_CONTENT_HEADER)`. */
  function RequestHeaders(tv: TokenValues): (r: Dict)
    ensures Lookup(r, "Authorization") == Some(Str(AuthorizationValue(tv)))
    ensures Lookup(r, "Content-Type") == Some(Str("application/json"))
    ensures Keys(r) == ["Authorization", "Content-Type"]
  {
    var auth := AuthorizationHeader(tv);
    assert Keys(JsonContentHeader) == ["Content-Type"];
    SetKeys(auth, "Content-Type", Str("application/json"));
    Update(auth, JsonContentHeader)
  }

  // ---- register_new_signup

  datatype SignupArgs = SignupArgs(
    requestToken: Option<string>,
    addressLine: Option<string>,
    structuredAddress: Option<Dict>,
    addressCoordinates: Option<Dict>,
    externalId: Option<string>,
    policyId: Option<string>,
    accountId: Option<string>,
    deviceOs: Option<string>,
    appVersion: Option<string>,
    personId: Option<Dict>,
    customProperties: Option<Dict>)

  const SignupKeys: seq<string> := [
    "request_token", "address_line", "structured_address", "address_coordinates", "external_id",
    "policy_id", "account_id", "device_os", "app_version", "person_id", "custom_properties"]

  function SignupValues(a: SignupArgs): (vs: seq<Value>)
    ensures |vs| == |SignupKeys|
  {
    [OptStr(a.requestToken), OptStr(a.addressLine), OptDict(a.structuredAddress), OptDict(a.addressCoordinates),
     OptStr(a.externalId), OptStr(a.policyId), OptStr(a.accountId), LowerOs(a.deviceOs), OptStr(a.appVersion),
     OptDict(a.personId), OptDict(a.customProperties)]
  }

  /** `encode(body)` of `register_new_signup`. */
  function SignupData(a: SignupArgs): (d: Dict)
    ensures forall i :: 0 <= i < |d| ==> !d[i].value.Null?
  {
    JsonUtil.Encode(FromPairs(SignupKeys, SignupValues(a)))
  }

  lemma SignupKeysDistinct()
    ensures DistinctStrings(SignupKeys)
  {
    forall i, j | 0 <= i < j < |SignupKeys| ensures SignupKeys[i] != SignupKeys[j] {
      assert |SignupKeys[i]| != |SignupKeys[j]| || SignupKeys[i][0] != SignupKeys[j][0]
          || SignupKeys[i] != SignupKeys[j];
    }
  }

  /** Each argument of `register_new_signup` is in the encoded body exactly when
      it is not None, under its own key. */
  lemma SignupDataField(a: SignupArgs, i: int)
    requires 0 <= i < |SignupKeys|
    ensures Lookup(SignupData(a), SignupKeys[i]) == NonNull(SignupValues(a)[i])
  {
    SignupKeysDistinct();
    JsonUtil.EncodeFromPairs(SignupKeys, SignupValues(a), SignupKeys[i]);
  }

  /** No key other than the listed ones is in the encoded body of `register_new_signup`. */
  lemma SignupDataNoOther(a: SignupArgs, k: string)
    requires k !in SignupKeys
    ensures Lookup(SignupData(a), k) == None
  {
    SignupKeysDistinct();
    JsonUtil.EncodeFromPairs(SignupKeys, SignupValues(a), k);
  }

  /** The signup body carries the request token. */
  lemma SignupDataFixed(a: SignupArgs)
    ensures Lookup(SignupData(a), "request_token") == NonNull(OptStr(a.requestToken))
  {
    var d := SignupData(a);
    var k0 := SignupKeys[0];
    assert k0 == "request_token";
    SignupDataField(a, 0);
    assert Lookup(d, k0) == NonNull(OptStr(a.requestToken));
  }

  /** `register_new_signup` sends the device OS lower-cased, and only when one is
      given. */
  lemma SignupDataDeviceOs(a: SignupArgs)
    ensures Lookup(SignupData(a), "device_os") == NonNull(LowerOs(a.deviceOs))
  {
    var d := SignupData(a);
    var k := SignupKeys[7];
    assert k == "device_os";
    SignupDataField(a, 7);
    assert Lookup(d, k) == NonNull(LowerOs(a.deviceOs));
  }

  // ---- register_new_web_signup

  datatype WebSignupArgs = WebSignupArgs(
    requestToken: Option<string>,
    policyId: Option<string>,
    accountId: Option<string>,
    customProperties: Option<Dict>,
    personId: Option<Dict>)

  const WebSignupKeys: seq<string> := ["request_token", "policy_id", "account_id", "custom_properties", "person_id"]

  function WebSignupValues(a: WebSignupArgs): (vs: seq<Value>)
    ensures |vs| == |WebSignupKeys|
  {
    [OptStr(a.requestToken), OptStr(a.policyId), OptStr(a.accountId), OptDict(a.customProperties), OptDict(a.personId)]
  }

  /** `encode(body)` of `register_new_web_signup`. */
  function WebSignupData(a: WebSignupArgs): (d: Dict)
    ensures forall i :: 0 <= i < |d| ==> !d[i].value.Null?
  {
    JsonUtil.Encode(FromPairs(WebSignupKeys, WebSignupValues(a)))
  }

  lemma WebSignupKeysDistinct()
    ensures DistinctStrings(WebSignupKeys)
  {
    forall i, j | 0 <= i < j < |WebSignupKeys| ensures WebSignupKeys[i] != WebSignupKeys[j] {
      assert |WebSignupKeys[i]| != |WebSignupKeys[j]| || WebSignupKeys[i][0] != WebSignupKeys[j][0]
          || WebSignupKeys[i] != WebSignupKeys[j];
    }
  }

  /** Each argument of `register_new_web_signup` is in the encoded body exactly when
      it is not None, under its own key. */
  lemma WebSignupDataField(a: WebSignupArgs, i: int)
    requires 0 <= i < |WebSignupKeys|
    ensures Lookup(WebSignupData(a), WebSignupKeys[i]) == NonNull(WebSignupValues(a)[i])
  {
    WebSignupKeysDistinct();
    JsonUtil.EncodeFromPairs(WebSignupKeys, WebSignupValues(a), WebSignupKeys[i]);
  }

  /** No key other than the listed ones is in the encoded body of `register_new_web_signup`. */
  lemma WebSignupDataNoOther(a: WebSignupArgs, k: string)
    requires k !in WebSignupKeys
    ensures Lookup(WebSignupData(a), k) == None
  {
    WebSignupKeysDistinct();
    JsonUtil.EncodeFromPairs(WebSignupKeys, WebSignupValues(a), k);
  }

  /** The web signup body carries the request token. */
  lemma WebSignupDataFixed(a: WebSignupArgs)
    ensures Lookup(WebSignupData(a), "request_token") == NonNull(OptStr(a.requestToken))
  {
    var d := WebSignupData(a);
    var k0 := WebSignupKeys[0];
    assert k0 == "request_token";
    WebSignupDataField(a, 0);
    assert Lookup(d, k0) == NonNull(OptStr(a.requestToken));
  }

  // ---- register_feedback

  datatype FeedbackArgs = FeedbackArgs(
    event: Option<string>,
    externalId: Option<string>,
    loginId: Option<string>,
    paymentId: Option<string>,
    signupId: Option<string>,
    accountId: Option<string>,
    installationId: Option<string>,
    requestToken: Option<string>,
    occurredAt: Option<DateTime>,
    expiresAt: Option<DateTime>,
    personId: Option<Dict>)

  const FeedbackKeys: seq<string> := [
    "event", "external_id", "login_id", "payment_id", "signup_id", "account_id", "installation_id",
    "request_token", "person_id"]

  function FeedbackValues(a: FeedbackArgs): (vs: seq<Value>)
    ensures |vs| == |FeedbackKeys|
  {
    [OptStr(a.event), OptStr(a.externalId), OptStr(a.loginId), OptStr(a.paymentId), OptStr(a.signupId),
     OptStr(a.accountId), OptStr(a.installationId), OptStr(a.requestToken), OptDict(a.personId)]
  }

  /** `body[key] = t.isoformat()` when the timestamp is given; the dict
      unchanged otherwise. */
  function AddTimestamp(d: Dict, key: string, t: Option<DateTime>): (r: Dict)
    ensures Lookup(r, key) == (if t.None? then Lookup(d, key) else Some(Str(t.value.isoFormat)))
    ensures forall k :: k != key ==> Lookup(r, k) == Lookup(d, k)
  {
    if t.None? then d else Set(d, key, Str(t.value.isoFormat))
  }

  /** A new timestamp key goes after every key already there. */
  lemma AddTimestampKeys(d: Dict, key: string, t: Option<DateTime>)
    requires DistinctKeys(d) && key !in Keys(d)
    ensures DistinctKeys(AddTimestamp(d, key, t))
    ensures Keys(AddTimestamp(d, key, t)) == Keys(d) + (if t.Some? then [key] else [])
  {
    if t.Some? {
      SetKeys(d, key, Str(t.value.isoFormat));
      SetDistinct(d, key, Str(t.value.isoFormat));
    }
  }

  /** The feedback body before encoding: the literal dict, then
      `body['occurred_at']` and `body['expires_at']`, each only when given. */
  function FeedbackBody(a: FeedbackArgs): (d: Dict)
  {
    AddTimestamp(AddTimestamp(FromPairs(FeedbackKeys, FeedbackValues(a)), "occurred_at", a.occurredAt),
                 "expires_at", a.expiresAt)
  }

  /** `encode(body)` of `register_feedback`. */
  function FeedbackData(a: FeedbackArgs): (d: Dict)
    ensures forall i :: 0 <= i < |d| ==> !d[i].value.Null?
  {
    JsonUtil.Encode(FeedbackBody(a))
  }

  lemma FeedbackKeysDistinct()
    ensures DistinctStrings(FeedbackKeys)
    ensures "occurred_at" !in FeedbackKeys && "expires_at" !in FeedbackKeys
  {
    forall i, j | 0 <= i < j < |FeedbackKeys| ensures FeedbackKeys[i] != FeedbackKeys[j] {
      assert |FeedbackKeys[i]| != |FeedbackKeys[j]| || FeedbackKeys[i][0] != FeedbackKeys[j][0]
          || FeedbackKeys[i] != FeedbackKeys[j];
    }
    forall i | 0 <= i < |FeedbackKeys| ensures FeedbackKeys[i] != "occurred_at" && FeedbackKeys[i] != "expires_at" {
      assert |FeedbackKeys[i]| != 11 || FeedbackKeys[i][0] != 'o';
      assert |FeedbackKeys[i]| != 10 || FeedbackKeys[i][0] != 'e';
    }
  }

  /** The timestamps are appended after the nine fixed keys, in this order,
      and only when given. */
  lemma FeedbackBodyKeys(a: FeedbackArgs)
    ensures DistinctKeys(FeedbackBody(a))
    ensures Keys(FeedbackBody(a)) ==
      FeedbackKeys + (if a.occurredAt.Some? then ["occurred_at"] else [])
                   + (if a.expiresAt.Some? then ["expires_at"] else [])
  {
    FeedbackKeysDistinct();
    var base := FromPairs(FeedbackKeys, FeedbackValues(a));
    var withOccurred := AddTimestamp(base, "occurred_at", a.occurredAt);
    AddTimestampKeys(base, "occurred_at", a.occurredAt);
    assert "expires_at" !in Keys(withOccurred);
    AddTimestampKeys(withOccurred, "expires_at", a.expiresAt);
  }

  /** Before encoding, each fixed argument of `register_feedback` sits under
      its own key, whatever the timestamps. */
  lemma FeedbackBodyField(a: FeedbackArgs, i: int)
    requires 0 <= i < |FeedbackKeys|
    ensures Lookup(FeedbackBody(a), FeedbackKeys[i]) == Some(FeedbackValues(a)[i])
  {
    FeedbackKeysDistinct();
    var k := FeedbackKeys[i];
    var base := FromPairs(FeedbackKeys, FeedbackValues(a));
    LookupField(base, k, FeedbackValues(a)[i]);
    assert k != "occurred_at" && k != "expires_at";
    var withOccurred := AddTimestamp(base, "occurred_at", a.occurredAt);
    assert Lookup(withOccurred, k) == Lookup(base, k);
  }

  /** Each fixed argument of `register_feedback` is in the encoded body exactly
      when it is not None, under its own key. */
  lemma FeedbackDataField(a: FeedbackArgs, i: int)
    requires 0 <= i < |FeedbackKeys|
    ensures Lookup(FeedbackData(a), FeedbackKeys[i]) == NonNull(FeedbackValues(a)[i])
  {
    FeedbackBodyKeys(a);
    FeedbackBodyField(a, i);
    JsonUtil.EncodeLookup(FeedbackBody(a), FeedbackKeys[i]);
  }

  /** The encoded feedback carries `occurred_at` and `expires_at` exactly when
      they are given, as their ISO-8601 text. */
  lemma FeedbackDataTimestamps(a: FeedbackArgs)
    ensures Lookup(FeedbackData(a), "occurred_at") ==
      (if a.occurredAt.None? then None else Some(Str(a.occurredAt.value.isoFormat)))
    ensures Lookup(FeedbackData(a), "expires_at") ==
      (if a.expiresAt.None? then None else Some(Str(a.expiresAt.value.isoFormat)))
  {
    FeedbackKeysDistinct();
    FeedbackBodyKeys(a);
    var base := FromPairs(FeedbackKeys, FeedbackValues(a));
    assert Lookup(base, "occurred_at") == None && Lookup(base, "expires_at") == None;
    JsonUtil.EncodeLookup(FeedbackBody(a), "occurred_at");
    JsonUtil.EncodeLookup(FeedbackBody(a), "expires_at");
  }

  /** No key other than the nine fixed ones and the two timestamps is in the
      encoded feedback. */
  lemma FeedbackDataNoOther(a: FeedbackArgs, k: string)
    requires k !in FeedbackKeys && k != "occurred_at" && k != "expires_at"
    ensures Lookup(FeedbackData(a), k) == None
  {
    FeedbackBodyKeys(a);
    JsonUtil.EncodeLookup(FeedbackBody(a), k);
  }

  /** The feedback body carries the event. */
  lemma FeedbackDataFixed(a: FeedbackArgs)
    ensures Lookup(FeedbackData(a), "event") == NonNull(OptStr(a.event))
  {
    FeedbackDataField(a, 0);
  }

  // ---- register_payment

  datatype PaymentArgs = PaymentArgs(
    requestToken: Option<string>,
    accountId: Option<string>,
    externalId: Option<string>,
    location: Option<Dict>,
    addresses: Option<seq<Dict>>,
    paymentValue: Option<Dict>,
    paymentMethods: Option<seq<Dict>>,
    evaluate: Option<bool>,
    policyId: Option<string>,
    customProperties: Option<Dict>,
    coupon: Option<Dict>,
    deviceOs: Option<string>,
    appVersion: Option<string>,
    storeId: Option<string>,
    personId: Option<Dict>)

  const PaymentKeys: seq<string> := [
    "type", "request_token", "account_id", "external_id", "location", "addresses", "payment_value",
    "payment_methods", "policy_id", "custom_properties", "coupon", "device_os", "app_version", "store_id",
    "person_id"]

  function PaymentValues(a: PaymentArgs): (vs: seq<Value>)
    ensures |vs| == |PaymentKeys|
  {
    [Str("payment"), OptStr(a.requestToken), OptStr(a.accountId), OptStr(a.externalId), OptDict(a.location),
     OptDicts(a.addresses), OptDict(a.paymentValue), OptDicts(a.paymentMethods), OptStr(a.policyId),
     OptDict(a.customProperties), OptDict(a.coupon), LowerOs(a.deviceOs), OptStr(a.appVersion),
     OptStr(a.storeId), OptDict(a.personId)]
  }

  /** `encode(body)` of `register_payment`. */
  function PaymentData(a: PaymentArgs): (d: Dict)
    ensures forall i :: 0 <= i < |d| ==> !d[i].value.Null?
  {
    JsonUtil.Encode(FromPairs(PaymentKeys, PaymentValues(a)))
  }

  lemma PaymentKeysDistinct()
    ensures DistinctStrings(PaymentKeys)
  {
    forall i, j | 0 <= i < j < |PaymentKeys| ensures PaymentKeys[i] != PaymentKeys[j] {
      assert |PaymentKeys[i]| != |PaymentKeys[j]| || PaymentKeys[i][0] != PaymentKeys[j][0]
          || PaymentKeys[i] != PaymentKeys[j];
    }
  }

  /** Each argument of `register_payment` is in the encoded body exactly when
      it is not None, under its own key. */
  lemma PaymentDataField(a: PaymentArgs, i: int)
    requires 0 <= i < |PaymentKeys|
    ensures Lookup(PaymentData(a), PaymentKeys[i]) == NonNull(PaymentValues(a)[i])
  {
    PaymentKeysDistinct();
    JsonUtil.EncodeFromPairs(PaymentKeys, PaymentValues(a), PaymentKeys[i]);
  }

  /** No key other than the listed ones is in the encoded body of `register_payment`. */
  lemma PaymentDataNoOther(a: PaymentArgs, k: string)
    requires k !in PaymentKeys
    ensures Lookup(PaymentData(a), k) == None
  {
    PaymentKeysDistinct();
    JsonUtil.EncodeFromPairs(PaymentKeys, PaymentValues(a), k);
  }

  /** The body of `register_payment` is typed `payment`. */
  lemma PaymentDataType(a: PaymentArgs)
    ensures Lookup(PaymentData(a), "type") == Some(Str("payment"))
  {
    var d := PaymentData(a);
    var k := PaymentKeys[0];
    assert k == "type";
    PaymentDataField(a, 0);
    assert Lookup(d, k) == Some(Str("payment"));
  }

  /** The body of `register_payment` carries the request token. */
  lemma PaymentDataRequestToken(a: PaymentArgs)
    ensures Lookup(PaymentData(a), "request_token") == NonNull(OptStr(a.requestToken))
  {
    var k := PaymentKeys[1];
    assert k == "request_token";
    PaymentDataField(a, 1);
    assert Lookup(PaymentData(a), k) == NonNull(OptStr(a.requestToken));
  }

  /** The body of `register_payment` carries the account. */
  lemma PaymentDataAccountId(a: PaymentArgs)
    ensures Lookup(PaymentData(a), "account_id") == NonNull(OptStr(a.accountId))
  {
    var k := PaymentKeys[2];
    assert k == "account_id";
    PaymentDataField(a, 2);
    assert Lookup(PaymentData(a), k) == NonNull(OptStr(a.accountId));
  }

  /** `register_payment` sends the device OS lower-cased, and only when one is
      given. */
  lemma PaymentDataDeviceOs(a: PaymentArgs)
    ensures Lookup(PaymentData(a), "device_os") == NonNull(LowerOs(a.deviceOs))
  {
    var d := PaymentData(a);
    var k := PaymentKeys[11];
    assert k == "device_os";
    PaymentDataField(a, 11);
    assert Lookup(d, k) == NonNull(LowerOs(a.deviceOs));
  }

  // ---- register_login

  datatype LoginArgs = LoginArgs(
    requestToken: Option<string>,
    accountId: Option<string>,
    location: Option<Dict>,
    externalId: Option<string>,
    evaluate: Option<bool>,
    policyId: Option<string>,
    deviceOs: Option<string>,
    appVersion: Option<string>,
    personId: Option<Dict>)

  const LoginKeys: seq<string> := [
    "type", "request_token", "account_id", "location", "external_id", "policy_id", "device_os",
    "app_version", "person_id"]

  function LoginValues(a: LoginArgs): (vs: seq<Value>)
    ensures |vs| == |LoginKeys|
  {
    [Str("login"), OptStr(a.requestToken), OptStr(a.accountId), OptDict(a.location), OptStr(a.externalId),
     OptStr(a.policyId), LowerOs(a.deviceOs), OptStr(a.appVersion), OptDict(a.personId)]
  }

  /** `encode(body)` of `register_login`. */
  function LoginData(a: LoginArgs): (d: Dict)
    ensures forall i :: 0 <= i < |d| ==> !d[i].value.Null?
  {
    JsonUtil.Encode(FromPairs(LoginKeys, LoginValues(a)))
  }

  lemma LoginKeysDistinct()
    ensures DistinctStrings(LoginKeys)
  {
    forall i, j | 0 <= i < j < |LoginKeys| ensures LoginKeys[i] != LoginKeys[j] {
      assert |LoginKeys[i]| != |LoginKeys[j]| || LoginKeys[i][0] != LoginKeys[j][0]
          || LoginKeys[i] != LoginKeys[j];
    }
  }

  /** Each argument of `register_login` is in the encoded body exactly when
      it is not None, under its own key. */
  lemma LoginDataField(a: LoginArgs, i: int)
    requires 0 <= i < |LoginKeys|
    ensures Lookup(LoginData(a), LoginKeys[i]) == NonNull(LoginValues(a)[i])
  {
    LoginKeysDistinct();
    JsonUtil.EncodeFromPairs(LoginKeys, LoginValues(a), LoginKeys[i]);
  }

  /** No key other than the listed ones is in the encoded body of `register_login`. */
  lemma LoginDataNoOther(a: LoginArgs, k: string)
    requires k !in LoginKeys
    ensures Lookup(LoginData(a), k) == None
  {
    LoginKeysDistinct();
    JsonUtil.EncodeFromPairs(LoginKeys, LoginValues(a), k);
  }

  /** The body of `register_login` is typed `login`. */
  lemma LoginDataType(a: LoginArgs)
    ensures Lookup(LoginData(a), "type") == Some(Str("login"))
  {
    var d := LoginData(a);
    var k := LoginKeys[0];
    assert k == "type";
    LoginDataField(a, 0);
    assert Lookup(d, k) == Some(Str("login"));
  }

  /** The body of `register_login` carries the request token. */
  lemma LoginDataRequestToken(a: LoginArgs)
    ensures Lookup(LoginData(a), "request_token") == NonNull(OptStr(a.requestToken))
  {
    var k := LoginKeys[1];
    assert k == "request_token";
    LoginDataField(a, 1);
    assert Lookup(LoginData(a), k) == NonNull(OptStr(a.requestToken));
  }

  /** The body of `register_login` carries the account. */
  lemma LoginDataAccountId(a: LoginArgs)
    ensures Lookup(LoginData(a), "account_id") == NonNull(OptStr(a.accountId))
  {
    var k := LoginKeys[2];
    assert k == "account_id";
    LoginDataField(a, 2);
    assert Lookup(LoginData(a), k) == NonNull(OptStr(a.accountId));
  }

  /** `register_login` sends the device OS lower-cased, and only when one is
      given. */
  lemma LoginDataDeviceOs(a: LoginArgs)
    ensures Lookup(LoginData(a), "device_os") == NonNull(LowerOs(a.deviceOs))
  {
    var d := LoginData(a);
    var k := LoginKeys[6];
    assert k == "device_os";
    LoginDataField(a, 6);
    assert Lookup(d, k) == NonNull(LowerOs(a.deviceOs));
  }

  // ---- register_web_login

  datatype WebLoginArgs = WebLoginArgs(
    requestToken: Option<string>,
    accountId: Option<string>,
    externalId: Option<string>,
    evaluate: Option<bool>,
    policyId: Option<string>,
    customProperties: Option<Dict>,
    personId: Option<Dict>)

  const WebLoginKeys: seq<string> := [
    "type", "request_token", "account_id", "external_id", "policy_id", "custom_properties", "person_id"]

  function WebLoginValues(a: WebLoginArgs): (vs: seq<Value>)
    ensures |vs| == |WebLoginKeys|
  {
    [Str("login"), OptStr(a.requestToken), OptStr(a.accountId), OptStr(a.externalId), OptStr(a.policyId),
     OptDict(a.customProperties), OptDict(a.personId)]
  }

  /** `encode(body)` of `register_web_login`. */
  function WebLoginData(a: WebLoginArgs): (d: Dict)
    ensures forall i :: 0 <= i < |d| ==> !d[i].value.Null?
  {
    JsonUtil.Encode(FromPairs(WebLoginKeys, WebLoginValues(a)))
  }

  lemma WebLoginKeysDistinct()
    ensures DistinctStrings(WebLoginKeys)
  {
    forall i, j | 0 <= i < j < |WebLoginKeys| ensures WebLoginKeys[i] != WebLoginKeys[j] {
      assert |WebLoginKeys[i]| != |WebLoginKeys[j]| || WebLoginKeys[i][0] != WebLoginKeys[j][0]
          || WebLoginKeys[i] != WebLoginKeys[j];
    }
  }

  /** Each argument of `register_web_login` is in the encoded body exactly when
      it is not None, under its own key. */
  lemma WebLoginDataField(a: WebLoginArgs, i: int)
    requires 0 <= i < |WebLoginKeys|
    ensures Lookup(WebLoginData(a), WebLoginKeys[i]) == NonNull(WebLoginValues(a)[i])
  {
    WebLoginKeysDistinct();
    JsonUtil.EncodeFromPairs(WebLoginKeys, WebLoginValues(a), WebLoginKeys[i]);
  }

  /** No key other than the listed ones is in the encoded body of `register_web_login`. */
  lemma WebLoginDataNoOther(a: WebLoginArgs, k: string)
    requires k !in WebLoginKeys
    ensures Lookup(WebLoginData(a), k) == None
  {
    WebLoginKeysDistinct();
    JsonUtil.EncodeFromPairs(WebLoginKeys, WebLoginValues(a), k);
  }

  /** The body of `register_web_login` is typed `login`. */
  lemma WebLoginDataType(a: WebLoginArgs)
    ensures Lookup(WebLoginData(a), "type") == Some(Str("login"))
  {
    var d := WebLoginData(a);
    var k := WebLoginKeys[0];
    assert k == "type";
    WebLoginDataField(a, 0);
    assert Lookup(d, k) == Some(Str("login"));
  }

  /** The body of `register_web_login` carries the request token. */
  lemma WebLoginDataRequestToken(a: WebLoginArgs)
    ensures Lookup(WebLoginData(a), "request_token") == NonNull(OptStr(a.requestToken))
  {
    var k := WebLoginKeys[1];
    assert k == "request_token";
    WebLoginDataField(a, 1);
    assert Lookup(WebLoginData(a), k) == NonNull(OptStr(a.requestToken));
  }

  /** The body of `register_web_login` carries the account. */
  lemma WebLoginDataAccountId(a: WebLoginArgs)
    ensures Lookup(WebLoginData(a), "account_id") == NonNull(OptStr(a.accountId))
  {
    var k := WebLoginKeys[2];
    assert k == "account_id";
    WebLoginDataField(a, 2);
    assert Lookup(WebLoginData(a), k) == NonNull(OptStr(a.accountId));
  }

}
