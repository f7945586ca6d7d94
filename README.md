# incognia-python in Dafny

A model of the logic of the Incognia Python client library, with proofs. The
model covers three pieces.

- **The token caches.** Three classes keep an `(access_token, token_type)`
  pair and its expiration instant.
  - `TokenManager` of incognia/token_manager.py is lazy: it fetches on the
    first `get` and refreshes under a mutex.
  - `AwareNetworkingToken` of api/aware_networking_token.py and `TokenManager`
    of incognia_api/token_manager.py are eager: each fetches while it is built.
  - Expiry uses the same rule in all three: a token is expired once at most
    ten seconds of it remain.
  - The `Authorization` header the refresh request hands to `post` carries
    `Basic ` followed by the URL-safe Base64 (section 5 of RFC 4648) of
    `client_id:client_secret`; the same pair also goes as `auth`.
- **The None-stripping filters.** These are `encode` of incognia/json_util.py,
  `PostSignupRequestJSONEncoder.default`, and `SignupRequestEncoder.default`.
  The last sits beside the constructors of `Coordinates`, `StructuredAddress`
  and `PostSignupRequestBody`.
- **The `IncogniaAPI` facade** of incognia/api.py. Each `register_*` method:
  - runs its ordered guard checks before the token manager is consulted;
  - builds the `Authorization` and `Content-Type` headers;
  - for payment, login and web login only, builds the optional `eval` query
    parameter (the signups and the feedback pass no parameters);
  - builds the request body, with a fixed `type`, a lower-cased `device_os` and
    conditional timestamps;
  - encodes the body and describes the post it sends.

Conventions:

- Time is an integer count of microseconds, passed in as `now`.
- The token endpoint's answer is an `HttpResponse` parameter: a status and a
  body that either parsed or did not.
- A method returns the request it would send instead of sending it.
- Python dicts are insertion-ordered sequences of fields (`PyValue.Dict`).
- A Python object is an `Instance` seen through its `__dict__`.
- Objects that are never changed after `__init__` are datatypes. These are
  `Coordinates`, `StructuredAddress` and `PostSignupRequestBody`.
- The token caches, whose fields `get` overwrites, are classes.
- `IncogniaAPI` is a class holding its token manager.

Behaviour of the code worth noting:

- The lazy manager posts to `https://api.incognia.com/api/v2/token`.
  - Of the statuses, only 400 to 599 make it fail, where `raise_for_status`
    raises; it also fails on an unreadable body or non-ASCII credentials
    (`RefreshFailure`).
  - The eager managers post to `https://api.us.incognia.com/api/v1/token`.
  - They accept status 200 only; any other status, 2xx included, is an error
    (`OnlyOkIsAccepted`).
- The credential in the header handed to `post` uses the URL-safe Base64
  alphabet (`-` and `_`).
- A failed refresh in the lazy manager does not leave the manager ready to
  retry. The mutex is never released (see Findings). The facade is built on
  `get` as written, so after a call whose token request fails, every later call
  that passes its guards waits forever (`FailedPaymentBlocksLaterCalls`).
- A token whose `expires_in` is at most ten seconds is handed out by the `get`
  that fetched it, although it already counts as expired.

## Model

| member | source | states |
|---|---|---|
| Base64Url.SextetChar | incognia/token_manager.py:29-30 | the URL-safe alphabet never yields the padding character |
| Base64Url.CharSextet | incognia/token_manager.py:29-30 | every character the decoder accepts is the encoding of the sextet it decodes to |
| Base64Url.CharSextetInverse | incognia/token_manager.py:29-30 | decoding the character of a sextet gives that sextet back |
| Base64Url.EncodeGroup | incognia/token_manager.py:29-30 | three bytes become four alphabet characters |
| Base64Url.EncodeTail1 | incognia/token_manager.py:29-30 | one trailing byte becomes two alphabet characters and `==` |
| Base64Url.EncodeTail2 | incognia/token_manager.py:29-30 | two trailing bytes become three alphabet characters and `=` |
| Base64Url.Encode | incognia/token_manager.py:29-30 | the output has 4·⌈n/3⌉ characters, each in the alphabet or `=` |
| Base64Url.DecodeEncodeGroup | incognia/token_manager.py:29-30 | a full group decodes back to its three bytes |
| Base64Url.DecodeEncodeTail1 | incognia/token_manager.py:29-30 | a one-byte tail decodes back to its byte |
| Base64Url.DecodeEncodeTail2 | incognia/token_manager.py:29-30 | a two-byte tail decodes back to its bytes |
| Base64Url.DecodeEncode | incognia/token_manager.py:29-30 | round trip: decoding the encoding of any byte string gives it back |
| Base64Url.DecodeAppend | incognia/token_manager.py:29-30 | decoding a group and the text after it is decoding each in turn |
| Base64Url.EncodeInjective | incognia/token_manager.py:29-30 | two different credentials never share an encoding |
| Base64Url.AsciiBytes | incognia/token_manager.py:30 | `.encode('ascii')` succeeds exactly when every character is below 128, and keeps each code |
| TokenCommon.FreshWindow | incognia/token_manager.py:44-46 | a token obtained at t with `expires_in` s is expired at `now` exactly when `now - t >= (s - 10)` seconds; ten seconds left already counts as expired |
| TokenCommon.ExpirationFrom | incognia/token_manager.py:37 | `now + timedelta(seconds=expires_in)` in microseconds; the token it dates is already expired at `now` exactly when `expires_in` is at most ten seconds |
| TokenCommon.ExpiredAt | api/aware_networking_token.py:53-54 | `__is_expired`'s test, at most ten seconds left; `FreshWindow` states when it starts to hold for a fetched token |
| TokenCommon.BasicAuthorization | incognia/token_manager.py:28-31 | the credential exists exactly when id and secret are ASCII; it is `Basic ` followed by text that decodes back to the bytes of `id:secret` and is the encoding of those bytes |
| TokenCommon.RefreshRequest | incognia/token_manager.py:28-35 | a request is sent exactly when the credentials are ASCII, to the given URL, with `auth=(id, secret)` and the Basic credential as `Authorization` |
| TokenCommon.FetchNewToken | api/aware_networking_token.py:34-47 | succeeds exactly for ASCII credentials, status 200 and a readable body; a non-ASCII credential gives the encoding error and any other status the network error carrying it; with ASCII credentials and status 200, an unreadable body gives the parse error; on success the values are the body's pair and the expiry is `now + expires_in` seconds |
| IncogniaTokenManager.RefreshFailure | incognia/token_manager.py:27-42 | a refresh fails exactly when the credentials are not ASCII, the status is 4xx/5xx, or the body cannot be read; the error is the first of those causes: the encoding error, else the status error carrying that status, else the parse error |
| IncogniaTokenManager.RaisesForStatus | incognia/base_request.py:44 | the statuses on which `raise_for_status` raises, 400 to 599; `RefreshFailure` states what a refresh does with them |
| IncogniaTokenManager.TokenManager.IsExpired | incognia/token_manager.py:44-46 | `__is_expired` on the stored expiration, the `ExpiredAt` test; `Get` and `ShortLivedTokenIsRefetched` state its effect |
| IncogniaTokenManager.TokenManager.NeedsRefresh | incognia/token_manager.py:50 | no expiration yet, or an expired one; `Get` refreshes exactly in this case (its `request` clauses) |
| IncogniaTokenManager.TokenManager.constructor | incognia/token_manager.py:19-25 | a new manager holds no values and no expiration, its mutex is free, and nothing is requested |
| IncogniaTokenManager.TokenManager.RefreshToken | incognia/token_manager.py:27-42 | sends the Basic refresh request; on success stores the body's pair and `now + expires_in` together; on any failure stores nothing |
| IncogniaTokenManager.TokenManager.Get | incognia/token_manager.py:48-54 | as written: blocks when the mutex is held; returns the cache with no request while it is fresh; otherwise refreshes; on failure raises with the cache unchanged and the mutex still held |
| IncogniaTokenManager.TokenManager.GetReleasing | incognia/token_manager.py:48-54 | the same, except that the mutex is released on the failure path too |
| IncogniaTokenManager.FirstGetFetches | incognia/token_manager.py:50-51 | the first `get` always fetches, with the Basic header and `auth`, and returns what the endpoint sent |
| IncogniaTokenManager.FreshTokenIsReused | incognia/token_manager.py:50-54 | a `get` within `expires_in - 10` seconds of a refresh makes no request and returns the same values |
| IncogniaTokenManager.ShortLivedTokenIsRefetched | tests/test_token_manager.py:55-76 | after a token with `expires_in = 5`, the next `get` fetches again and returns the new values |
| IncogniaTokenManager.FailedGetBlocksNextGet | incognia/token_manager.py:49-53 | as written, a `get` whose refresh raises leaves the mutex held, so the next `get` blocks whatever the endpoint would say |
| IncogniaTokenManager.FailedGetIsRetried | incognia/token_manager.py:49-53 | when the mutex is released on failure, the next `get` fetches again and returns the new token |
| AwareNetworkingToken.AwareNetworkingToken.FromToken | api/aware_networking_token.py:49-51 | the object stores the credentials and the fetched value and expiration |
| AwareNetworkingToken.AwareNetworkingToken.IsExpired | api/aware_networking_token.py:53-54 | `__is_expired` on the held expiration; `Get` refetches exactly when it holds |
| AwareNetworkingToken.AwareNetworkingToken.Get | api/aware_networking_token.py:56-59 | fresh: returns the stored value and changes nothing; expired: refetches and stores the new pair on success, or raises the fetch's error with both fields unchanged |
| AwareNetworkingToken.Create | api/aware_networking_token.py:49-51 | construction sends the refresh request and succeeds exactly when the fetch does, holding its value and expiry; otherwise it raises the fetch's error |
| AwareNetworkingToken.CreateThenGet | api/aware_networking_token.py:49-59 | a token with `expires_in` above ten seconds is returned by a `get` at the same instant without a second request |
| AwareNetworkingToken.OnlyOkIsAccepted | api/aware_networking_token.py:41-47 | with readable bodies the eager fetch succeeds exactly for status 200; a 201 to 299 is an error there but a success for the lazy manager |
| IncogniaApiTokenManager.TokenManager.FromToken | incognia_api/token_manager.py:38-40 | the manager stores the credentials and the fetched values and expiration |
| IncogniaApiTokenManager.TokenManager.IsExpired | incognia_api/token_manager.py:42-43 | `__is_expired` on the held expiration; `Get` and `ExpiredTokenIsReplaced` state when it refetches |
| IncogniaApiTokenManager.TokenManager.Get | incognia_api/token_manager.py:45-48 | fresh: returns the stored values unchanged; expired: refetches, with the stored pair replaced on success and unchanged on failure |
| IncogniaApiTokenManager.Create | incognia_api/token_manager.py:38-40 | construction fetches eagerly and either holds the fetched pair or raises the fetch's error |
| IncogniaApiTokenManager.FailedFetchRaises | incognia_api/token_manager.py:35-36 | any status other than 200 makes construction raise the network error carrying that status |
| IncogniaApiTokenManager.ExpiredTokenIsReplaced | incognia_api/token_manager.py:42-48 | once ten seconds or less remain, `get` returns newly fetched values, and a second `get` inside the new window makes no request |
| PyValue.OptStr | incognia/api.py:33-43 | an optional string argument is None exactly when absent, and otherwise is the string |
| PyValue.Lookup | incognia/api.py:158-166 | `d[k]` finds a value exactly when `k` is a key, and that field is in the dict |
| PyValue.LookupField | incognia/api.py:158-166 | in a dict with distinct keys, lookup finds each stored field's value |
| PyValue.Set | incognia/api.py:127-130 | `d[k] = v` makes `k` map to `v` and leaves every other key as it was |
| PyValue.SetKeys | incognia/api.py:127-130 | an existing key keeps its place; a new key goes at the end |
| PyValue.SetDistinct | incognia/api.py:127-130 | assignment keeps dict keys distinct |
| PyValue.Update | incognia/api.py:49 | after `d.update(other)`, the keys of `other` have its values and every other key keeps its value |
| PyValue.RemoveNone | incognia/json_util.py:5 | exactly the fields whose value is not None survive, unchanged |
| PyValue.RemoveNoneKeepsOrder | incognia/json_util.py:5 | the surviving fields keep their input order |
| PyValue.RemoveNoneIdempotent | incognia/json_util.py:5 | filtering twice equals filtering once |
| PyValue.RemoveNoneNoNull | incognia/json_util.py:5 | a dict without None values passes unchanged |
| PyValue.RemoveNoneDistinct | incognia/json_util.py:5 | the filtered dict keeps distinct keys |
| PyValue.LookupRemoveNone | incognia/json_util.py:5 | seen by lookup, a None-valued key is gone and every other key keeps its value |
| PyValue.FromPairs | incognia/api.py:50-62 | a dict literal has the listed keys in order, each with its value |
| PyValue.NonNull | incognia/json_util.py:5 | a value counts as present after filtering exactly when it is not None |
| PyValue.LowerChar | incognia/api.py:58 | upper-case ASCII letters become lower-case; other characters are kept |
| PyValue.ToLower | incognia/api.py:58 | the ASCII lowering that models `str.lower`: it keeps the length and maps each character through `LowerChar` |
| JsonUtil.Encode | incognia/json_util.py:4-6 | the encoded dict has exactly the input's fields whose value is not None, in input order |
| JsonUtil.EncodeLookup | incognia/json_util.py:5 | by lookup, a None-valued key is absent afterwards and every other key keeps its value |
| JsonUtil.EncodeIdempotent | incognia/json_util.py:5 | encoding an already filtered dict changes nothing |
| JsonUtil.EncodeKeepsFalsy | incognia/json_util.py:5 | falsy values that are not None (`''`, `0`, `False`, empty containers) are kept |
| JsonUtil.EncodeIsShallow | incognia/json_util.py:5 | a nested dict is kept whole, None values inside it included |
| JsonUtil.EncodeFromPairs | incognia/json_util.py:5 | for a literal with distinct keys, each key is present after encoding exactly when its value is not None, and no other key is |
| PostSignupRequestBody.NewCoordinates | incognia_api/post_signup_request_body.py:7-15 | succeeds exactly when `lat` and `lng` are non-zero (so 0 is rejected), storing both unchanged; `lat` is checked first, with its own message |
| PostSignupRequestBody.CoordinatesAttributes | incognia_api/post_signup_request_body.py:12-13 | the attributes are `lat` then `lng` with their values |
| PostSignupRequestBody.AddressAttributes | incognia_api/post_signup_request_body.py:31-41 | the eleven attributes in assignment order, each holding its argument, None included |
| PostSignupRequestBody.AddressKeysDistinct | incognia_api/post_signup_request_body.py:31-41 | the eleven attribute names are distinct |
| PostSignupRequestBody.NewPostSignupRequestBody | incognia_api/post_signup_request_body.py:44-57 | succeeds exactly for a non-empty `installation_id` and stores all four arguments; otherwise raises `installation_id is required.` |
| PostSignupRequestBody.BodyValue | incognia_api/post_signup_request_body.py:52-55 | the body's attributes are, in order, its installation id, its address line (None when absent), its structured address and its coordinates, each None when absent and otherwise the attribute dict of that object |
| PostSignupRequestBody.SignupRequestEncoderDefault | incognia_api/post_signup_request_body.py:60-64 | only objects with a `__dict__` are encoded, as their non-None attributes; dicts and other values are refused |
| PostSignupRequestBody.EncodedAddressFields | incognia_api/post_signup_request_body.py:61-64 | an encoded address carries exactly the given fields, each with its value |
| PostSignupRequestBody.EncodedBodyFields | incognia_api/post_signup_request_body.py:61-64 | the encoded body always names the installation and never holds an `address_line` of None |
| PostSignupRequestJsonEncoder.Default | incognia_api/post_signup_request_json_encoder.py:6-14 | a dict, or else an object's attributes, becomes exactly its non-None fields; anything else is refused |
| PostSignupRequestJsonEncoder.EncodersCompared | incognia_api/post_signup_request_json_encoder.py:10-14 | on objects the two signup encoders agree; only this one accepts a plain dict |
| PostSignupRequestJsonEncoder.DefaultKeepsCompleteDict | incognia_api/post_signup_request_json_encoder.py:10-11 | a dict without None values keeps every key |
| PostSignupRequestJsonEncoder.DefaultDropsNoneKeys | tests/test_post_signup_request_json_encoder.py:43-52 | the two None keys are dropped; the list, empty string, nested dict, int and float stay, in order |
| PostSignupRequestJsonEncoder.TestKept | tests/test_post_signup_request_json_encoder.py:46-52 | the expected fields of that test all have values |
| PostSignupRequestJsonEncoder.DefaultKeepsCoordinates | tests/test_post_signup_request_json_encoder.py:54-59 | coordinates keep both `lat` and `lng` |
| PostSignupRequestJsonEncoder.DefaultKeepsCompleteAddress | tests/test_post_signup_request_json_encoder.py:61-75 | an address with every field given keeps all eleven keys |
| IncogniaApiRequests.ReplaceZ | incognia/datetime_util.py:10 | no `Z` remains after `replace('Z', '+00:00')`; a text without `Z` is unchanged |
| IncogniaApiRequests.ReplaceZChar | incognia/datetime_util.py:10 | one character: `Z` becomes `+00:00`, any other character is kept |
| IncogniaApiRequests.ReplaceZAppend | incognia/datetime_util.py:10 | replacing in `a + b` is replacing in `a` then in `b`, so everything else keeps its order |
| IncogniaApiRequests.HasTimezone | incognia/datetime_util.py:4-5 | a datetime is aware when it has a UTC offset; `ValidateFeedback` states that timestamps without one are refused |
| IncogniaApiRequests.DatetimeValid | incognia/datetime_util.py:8-13 | a string is valid exactly when the ISO parser accepts it with `Z` replaced; a non-string raises AttributeError |
| IncogniaApiRequests.ValidateRequestToken | incognia/api.py:44-45 | passes exactly for a non-empty request token, else `request_token is required.` |
| IncogniaApiRequests.ValidateAccount | incognia/api.py:153-156 | passes exactly when both are non-empty; the request token is checked first |
| IncogniaApiRequests.ValidateLocation | incognia/api.py:157-166 | accepts no location, or one with non-None latitude and longitude whose `collected_at` is None or valid ISO-8601; latitude is checked before longitude, each missing key raises KeyError, and each step fixes the error in order: latitude missing or None, longitude missing or None, `collected_at` missing, not a string, or not ISO-8601 |
| IncogniaApiRequests.ValidateTransaction | incognia/api.py:153-166 | the account checks come first, and their failure is the result; once they pass, the result is that of the location checks |
| IncogniaApiRequests.ValidateFeedback | incognia/api.py:106-111 | passes exactly for a non-empty event and timestamps that carry a timezone; event, then `occurred_at`, then `expires_at` |
| IncogniaApiRequests.OptDict | incognia/api.py:137-152 | an optional dict argument is None exactly when absent |
| IncogniaApiRequests.OptDicts | incognia/api.py:142-144 | an optional list argument is None exactly when absent, and otherwise is the list of those dicts, item by item |
| IncogniaApiRequests.LowerOs | incognia/api.py:58 | `device_os` is None exactly when absent, and otherwise is the given text lower-cased character by character |
| IncogniaApiRequests.Params | incognia/api.py:171 | no parameters when `evaluate` is None, else exactly `{'eval': evaluate}` |
| IncogniaApiRequests.AuthorizationValue | incognia/api.py:28-30 | the header value starts with the token type, has one space right after it, and the access token fills the rest; `AuthorizationRoundTrip` recovers both from it |
| IncogniaApiRequests.SplitAuthorization | incognia/api.py:30 | splitting at the first space gives parts that join back to the header |
| IncogniaApiRequests.AuthorizationRoundTrip | incognia/api.py:28-30 | a token type without spaces and the access token are read back from the header |
| IncogniaApiRequests.AuthorizationHeader | incognia/api.py:28-30 | the header dict is exactly `{'Authorization': '<type> <token>'}` |
| IncogniaApiRequests.RequestHeaders | incognia/api.py:48-49 | the headers are exactly `Authorization`, then `Content-Type: application/json` |
| IncogniaApiRequests.SignupKeysDistinct | incognia/api.py:50-62 | the signup body's keys are distinct |
| IncogniaApiRequests.SignupData | incognia/api.py:50-63 | the `encode(body)` of `register_new_signup`: no None value is sent; `SignupDataField` and `SignupDataNoOther` state its fields |
| IncogniaApiRequests.SignupDataField | incognia/api.py:50-63 | each signup argument is in the encoded body under its key exactly when it is not None |
| IncogniaApiRequests.SignupDataNoOther | incognia/api.py:50-63 | no other key is in the encoded signup body |
| IncogniaApiRequests.SignupDataFixed | incognia/api.py:51 | the signup body carries the request token |
| IncogniaApiRequests.SignupDataDeviceOs | incognia/api.py:58 | the signup body carries the lower-cased device OS, and only when one is given |
| IncogniaApiRequests.WebSignupKeysDistinct | incognia/api.py:81-87 | the web signup body's keys are distinct |
| IncogniaApiRequests.WebSignupData | incognia/api.py:81-88 | the `encode(body)` of `register_new_web_signup`: no None value is sent; `WebSignupDataField` and `WebSignupDataNoOther` state its fields |
| IncogniaApiRequests.WebSignupDataField | incognia/api.py:81-88 | each web signup argument is in the encoded body exactly when it is not None |
| IncogniaApiRequests.WebSignupDataNoOther | incognia/api.py:81-88 | no other key is in the encoded web signup body |
| IncogniaApiRequests.WebSignupDataFixed | incognia/api.py:82 | the web signup body carries the request token |
| IncogniaApiRequests.AddTimestamp | incognia/api.py:127-130 | a given timestamp is stored as its ISO text; otherwise the body is unchanged; no other key changes |
| IncogniaApiRequests.AddTimestampKeys | incognia/api.py:127-130 | a new timestamp key goes after the keys already there |
| IncogniaApiRequests.FeedbackKeysDistinct | incognia/api.py:116-126 | the nine fixed feedback keys are distinct and differ from the timestamp keys |
| IncogniaApiRequests.FeedbackBody | incognia/api.py:116-130 | the feedback dict literal with the timestamps added when given; `FeedbackBodyKeys` and `FeedbackBodyField` state its keys and fields |
| IncogniaApiRequests.FeedbackData | incognia/api.py:131 | the `encode(body)` of `register_feedback`: no None value is sent; `FeedbackDataField`, `FeedbackDataTimestamps` and `FeedbackDataNoOther` state its fields |
| IncogniaApiRequests.FeedbackBodyKeys | incognia/api.py:116-130 | the feedback body has the nine fixed keys, then `occurred_at` and `expires_at`, each only when given |
| IncogniaApiRequests.FeedbackBodyField | incognia/api.py:116-130 | before encoding, each fixed feedback argument sits under its key, whatever the timestamps |
| IncogniaApiRequests.FeedbackDataField | incognia/api.py:116-131 | each fixed feedback argument is in the encoded body exactly when it is not None |
| IncogniaApiRequests.FeedbackDataTimestamps | incognia/api.py:127-131 | `occurred_at` and `expires_at` are in the encoded body exactly when given, as ISO text |
| IncogniaApiRequests.FeedbackDataNoOther | incognia/api.py:116-131 | no other key is in the encoded feedback body |
| IncogniaApiRequests.FeedbackDataFixed | incognia/api.py:117 | the feedback body carries the event |
| IncogniaApiRequests.PaymentKeysDistinct | incognia/api.py:172-188 | the payment body's keys are distinct |
| IncogniaApiRequests.PaymentData | incognia/api.py:172-189 | the `encode(body)` of `register_payment`: no None value is sent; `PaymentDataField` and `PaymentDataNoOther` state its fields |
| IncogniaApiRequests.PaymentDataField | incognia/api.py:172-189 | each payment argument is in the encoded body exactly when it is not None |
| IncogniaApiRequests.PaymentDataNoOther | incognia/api.py:172-189 | no other key is in the encoded payment body |
| IncogniaApiRequests.PaymentDataType | incognia/api.py:173 | the payment body's `type` is `payment` |
| IncogniaApiRequests.PaymentDataRequestToken | incognia/api.py:174 | the payment body carries the request token |
| IncogniaApiRequests.PaymentDataAccountId | incognia/api.py:175 | the payment body carries the account id |
| IncogniaApiRequests.PaymentDataDeviceOs | incognia/api.py:184 | the payment body carries the lower-cased device OS, only when given |
| IncogniaApiRequests.LoginKeysDistinct | incognia/api.py:225-235 | the login body's keys are distinct |
| IncogniaApiRequests.LoginData | incognia/api.py:225-236 | the `encode(body)` of `register_login`: no None value is sent; `LoginDataField` and `LoginDataNoOther` state its fields |
| IncogniaApiRequests.LoginDataField | incognia/api.py:225-236 | each login argument is in the encoded body exactly when it is not None |
| IncogniaApiRequests.LoginDataNoOther | incognia/api.py:225-236 | no other key is in the encoded login body |
| IncogniaApiRequests.LoginDataType | incognia/api.py:226 | the login body's `type` is `login` |
| IncogniaApiRequests.LoginDataRequestToken | incognia/api.py:227 | the login body carries the request token |
| IncogniaApiRequests.LoginDataAccountId | incognia/api.py:228 | the login body carries the account id |
| IncogniaApiRequests.LoginDataDeviceOs | incognia/api.py:232 | the login body carries the lower-cased device OS, only when given |
| IncogniaApiRequests.WebLoginKeysDistinct | incognia/api.py:260-268 | the web login body's keys are distinct |
| IncogniaApiRequests.WebLoginData | incognia/api.py:260-269 | the `encode(body)` of `register_web_login`: no None value is sent; `WebLoginDataField` and `WebLoginDataNoOther` state its fields |
| IncogniaApiRequests.WebLoginDataField | incognia/api.py:260-269 | each web login argument is in the encoded body exactly when it is not None |
| IncogniaApiRequests.WebLoginDataNoOther | incognia/api.py:260-269 | no other key is in the encoded web login body |
| IncogniaApiRequests.WebLoginDataType | incognia/api.py:261 | the web login body's `type` is `login` |
| IncogniaApiRequests.WebLoginDataRequestToken | incognia/api.py:262 | the web login body carries the request token |
| IncogniaApiRequests.WebLoginDataAccountId | incognia/api.py:263 | the web login body carries the account id |
| IncogniaApi.IncogniaAPI.constructor | incognia/api.py:24-26 | a new facade has a fresh lazy token manager with no token and a free mutex |
| IncogniaApi.IncogniaAPI.Send | incognia/api.py:28-30 | with the mutex held, blocks with no token request and nothing changed; with a fresh cache, posts with its header, makes no token request and frees the mutex; otherwise refreshes, then posts with the new token and frees the mutex, or raises the refresh error with the cache unchanged and the mutex still held |
| IncogniaApi.IncogniaAPI.RegisterNewSignup | incognia/api.py:32-67 | a missing request token raises before any token request, with the manager untouched, even while its mutex is held; otherwise the call ends as `Send` does for the encoded signup body, the signups endpoint and no parameters |
| IncogniaApi.IncogniaAPI.RegisterNewWebSignup | incognia/api.py:69-92 | the same guard; otherwise the call ends as `Send` does for the web signup body and the signups endpoint |
| IncogniaApi.IncogniaAPI.RegisterFeedback | incognia/api.py:94-135 | the feedback guards raise before any token request, with the manager untouched; otherwise the call ends as `Send` does for the feedback body and the feedbacks endpoint |
| IncogniaApi.IncogniaAPI.RegisterPayment | incognia/api.py:137-194 | account and location guards raise before any token request, with the manager untouched; otherwise the call ends as `Send` does for the payment body, the transactions endpoint and the `eval` parameter |
| IncogniaApi.IncogniaAPI.RegisterLogin | incognia/api.py:196-241 | the same guards; otherwise the call ends as `Send` does for the login body, the transactions endpoint and the `eval` parameter |
| IncogniaApi.IncogniaAPI.RegisterWebLogin | incognia/api.py:243-274 | only the account guards; otherwise the call ends as `Send` does for the web login body, the transactions endpoint and the `eval` parameter |
| IncogniaApi.LoginThenWebLogin | incognia/api.py:28-30 | the first call fetches a token and sends `<type> <token>` with the JSON content type; a second call reuses the token with the same headers and no token request |
| IncogniaApi.RejectedSignupFetchesNothing | incognia/api.py:44-45 | a signup without request token raises, requests no token and leaves the cache empty |
| IncogniaApi.FailedPaymentBlocksLaterCalls | incognia/api.py:168-170 | a payment whose token request answers 4xx/5xx raises that status; a later login that passes its guards then blocks without a token request, while a signup without request token still raises its own error |

## Left out

- HTTP transport: `requests.post`, the timeout, the `User-Agent` header and its platform strings, and the API's response are not modelled. A `register_*` call ends with the request it would post. Status handling is modelled only for the token endpoint. The token request keeps both the hand-built header and the `auth` pair; that `requests` then replaces the header with its own standard-alphabet Basic encoding of `auth` is not modelled, so the bytes on the wire differ from the modelled header whenever the encoding holds `-` or `_`.
- JSON text: `json.dumps` (with `ensure_ascii=False`), the UTF-8 encoding and `json.loads` are not modelled. The token body is either read (`TokenBody`) or not (`None`). A body whose `expires_in` fails `int(...)` falls under "not read".
- The recursion of `json.JSONEncoder` into nested objects is not modelled. `default` is modelled for one object at a time.
- Threads: the mutex of the lazy manager is the boolean `held`. A call that would wait on it is the outcome `Blocked`. Concurrent interleavings are not modelled.
- The clock: `datetime.now()` is the `now` parameter in microseconds. `total_seconds()` is a float, but at the ten-second boundary its comparison is exact.
- The `OverflowError` that `datetime.now() + timedelta(seconds=int(expires_in))` raises for an `expires_in` beyond the datetime range (incognia/token_manager.py:37, api/aware_networking_token.py:44, incognia_api/token_manager.py:33) is not modelled: times are unbounded integers, so such an answer is a successful fetch.
- Floats: coordinates and `Float` values are Dafny `real`s. Rounding, NaN and infinities are not modelled.
- `datetime.fromisoformat` is the parameter `parsesIso` of the payment and login calls. A timestamp is its `isoformat()` text and its UTC offset (`DateTime`).
- `str.lower` is modelled on ASCII letters only. Python lower-cases every Unicode letter.
- The message `network error: <status>` of the eager managers is a status-carrying error, `HttpStatusError`. The text itself is not built.
- The re-raise `raise IncogniaHTTPError(e) from None` in each `register_*` method keeps the error. The model passes the token error through as `TokenFailure`.
- `incognia/singleton.py` (the singleton metaclass of `IncogniaAPI`) and the exception modules are not part of this model.
- incognia_api/incognia_api.py is not part of this model. It is direct request plumbing whose one guard repeats the `installation_id` check.
- The endpoint modules, incognia/feedback_events.py, incognia/models.py, setup.py and the package `__init__` are not modelled. Endpoint URLs are constants, and the TypedDict shapes are plain dicts.
- The fixtures of tests/test_api.py pass `installation_id` to methods that no longer have that parameter. The model follows incognia/api.py.

## Findings

| source | as written | input that shows it | evidently intended | confidence | as-written member | corrected member |
|---|---|---|---|---|---|---|
| incognia/token_manager.py:48-54 | `get` acquires the mutex and calls `__refresh_token`. When the refresh raises (HTTP 4xx/5xx, unreadable body, non-ASCII credentials), `self.__mutex.release()` is skipped and the lock stays held | a first `get` whose token request answers 400; every later `get` then waits forever on `acquire()` | release the mutex on every path (`with self.__mutex:`), so the next `get` retries the refresh | high, not executed | IncogniaTokenManager.FailedGetBlocksNextGet | IncogniaTokenManager.FailedGetIsRetried |
