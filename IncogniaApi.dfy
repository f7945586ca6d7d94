/** The `IncogniaAPI` facade of incognia/api.py: every `register_*` call runs
    its guards, then asks the lazy token manager for the credential, builds the
    headers and the encoded body, and posts them to its endpoint. The post
    itself is described by the request it would send. */
module IncogniaApi {

  import opened Wrappers
  import opened PyValue
  import opened TokenCommon
  import IncogniaTokenManager
  import opened IncogniaApiRequests

  /** What `BaseRequest.post` is handed: the endpoint, the headers, the query
      parameters (None when none are passed) and the encoded body. */
  datatype PostRequest = PostRequest(url: string, headers: Dict, params: Option<Dict>, data: Dict)

  /** How a `register_*` call ends: it posts a request, it raises, or it waits
      forever on the token manager's mutex. */
  datatype CallOutcome = Posted(request: PostRequest) | Failed(error: ApiError) | Blocked

  class IncogniaAPI {
    const tokenManager: IncogniaTokenManager.TokenManager

    /** The token manager keeps values and expiration together. */
    ghost predicate Valid()
      reads this, tokenManager
    {
      tokenManager.Valid()
    }

    /** `IncogniaAPI(client_id, client_secret)`: a new lazy token manager, so
        nothing is fetched yet and the mutex is free. */
    constructor (clientId: string, clientSecret: string)
      ensures Valid() && fresh(tokenManager)
      ensures tokenManager.clientId == clientId && tokenManager.clientSecret == clientSecret
      ensures tokenManager.tokenValues == None && !tokenManager.held
    {
      tokenManager := new IncogniaTokenManager.TokenManager(clientId, clientSecret);
    }

    /** The outcome of `__get_authorization_header` followed by the post of
        `data` to `url`. With the mutex already held, `get` waits forever and
        nothing changes. With a fresh cached token, the request carries its
        header, the cache stays and the mutex is released. Otherwise the
        refresh request is sent; on an error the error is raised, the cache
        stays and the mutex stays held; on success the new token is stored,
        used and the mutex released. */
    twostate predicate Dispatched(now: int, response: HttpResponse, url: string, params: Option<Dict>, data: Dict,
                                  new r: CallOutcome, new tokenRequest: Option<TokenRequest>)
      reads this, tokenManager
    {
      var m := tokenManager;
      if old(m.held) then
        r == Blocked && tokenRequest == None && m.held
        && m.tokenValues == old(m.tokenValues) && m.expirationTime == old(m.expirationTime)
      else if !old(m.NeedsRefresh(now)) then
        old(m.tokenValues).Some?
        && r == Posted(PostRequest(url, RequestHeaders(old(m.tokenValues).value), params, data))
        && tokenRequest == None && !m.held
        && m.tokenValues == old(m.tokenValues) && m.expirationTime == old(m.expirationTime)
      else
        tokenRequest == RefreshRequest(IncogniaTokenManager.TokenUrl, m.clientId, m.clientSecret)
        && match IncogniaTokenManager.RefreshFailure(m.clientId, m.clientSecret, response)
           case Some(e) =>
             r == Failed(TokenFailure(e)) && m.held
             && m.tokenValues == old(m.tokenValues) && m.expirationTime == old(m.expirationTime)
           case None =>
             var fetched := TokenValues(response.body.value.accessToken, response.body.value.tokenType);
             r == Posted(PostRequest(url, RequestHeaders(fetched), params, data)) && !m.held
             && m.tokenValues == Some(fetched)
             && m.expirationTime == Some(ExpirationFrom(now, response.body.value.expiresIn))
    }

    /** `__get_authorization_header`, `headers.update(JSON_CONTENT_HEADER)` and
        the post; `response` is what the token endpoint answers if asked. */
    method Send(now: int, response: HttpResponse, url: string, params: Option<Dict>, data: Dict)
      returns (r: CallOutcome, tokenRequest: Option<TokenRequest>)
      requires Valid()
      modifies tokenManager`tokenValues, tokenManager`expirationTime, tokenManager`held
      ensures Valid()
      ensures Dispatched(now, response, url, params, data, r, tokenRequest)
    {
      var outcome;
      outcome, tokenRequest := tokenManager.Get(now, response);
      match outcome
      case Returned(tv) =>
        r := Posted(PostRequest(url, RequestHeaders(tv), params, data));
      case Raised(e) =>
        r := Failed(TokenFailure(e));
      case Blocked =>
        r := Blocked;
    }

    /** `register_new_signup`: a missing or empty request token raises before
        any request; otherwise the encoded body goes to the signups endpoint
        without query parameters. */
    method RegisterNewSignup(a: SignupArgs, now: int, response: HttpResponse)
      returns (r: CallOutcome, tokenRequest: Option<TokenRequest>)
      requires Valid()
      modifies tokenManager`tokenValues, tokenManager`expirationTime, tokenManager`held
      ensures Valid()
      ensures ValidateRequestToken(a.requestToken).Failure? ==>
        r == Failed(IncogniaError(RequestTokenRequired)) && tokenRequest == None && unchanged(tokenManager)
      ensures ValidateRequestToken(a.requestToken).Success? ==>
        Dispatched(now, response, SignupsUrl, None, SignupData(a), r, tokenRequest)
    {
      var valid := ValidateRequestToken(a.requestToken);
      if valid.Failure? {
        return Failed(valid.error), None;
      }
      r, tokenRequest := Send(now, response, SignupsUrl, None, SignupData(a));
    }

    /** `register_new_web_signup`: the same guard and endpoint as the signup,
        with the web body. */
    method RegisterNewWebSignup(a: WebSignupArgs, now: int, response: HttpResponse)
      returns (r: CallOutcome, tokenRequest: Option<TokenRequest>)
      requires Valid()
      modifies tokenManager`tokenValues, tokenManager`expirationTime, tokenManager`held
      ensures Valid()
      ensures ValidateRequestToken(a.requestToken).Failure? ==>
        r == Failed(IncogniaError(RequestTokenRequired)) && tokenRequest == None && unchanged(tokenManager)
      ensures ValidateRequestToken(a.requestToken).Success? ==>
        Dispatched(now, response, SignupsUrl, None, WebSignupData(a), r, tokenRequest)
    {
      var valid := ValidateRequestToken(a.requestToken);
      if valid.Failure? {
        return Failed(valid.error), None;
      }
      r, tokenRequest := Send(now, response, SignupsUrl, None, WebSignupData(a));
    }

    /** `register_feedback`: the event and timezone guards raise before any
        request; otherwise the feedback body goes to the feedbacks endpoint. */
    method RegisterFeedback(a: FeedbackArgs, now: int, response: HttpResponse)
      returns (r: CallOutcome, tokenRequest: Option<TokenRequest>)
      requires Valid()
      modifies tokenManager`tokenValues, tokenManager`expirationTime, tokenManager`held
      ensures Valid()
      ensures ValidateFeedback(a.event, a.occurredAt, a.expiresAt).Failure? ==>
        r == Failed(ValidateFeedback(a.event, a.occurredAt, a.expiresAt).error) && tokenRequest == None && unchanged(tokenManager)
      ensures ValidateFeedback(a.event, a.occurredAt, a.expiresAt).Success? ==>
        Dispatched(now, response, FeedbacksUrl, None, FeedbackData(a), r, tokenRequest)
    {
      var valid := ValidateFeedback(a.event, a.occurredAt, a.expiresAt);
      if valid.Failure? {
        return Failed(valid.error), None;
      }
      r, tokenRequest := Send(now, response, FeedbacksUrl, None, FeedbackData(a));
    }

    /** `register_payment`: the account and location guards raise before any
        request; otherwise the payment body goes to the transactions endpoint,
        with `eval` as a query parameter when `evaluate` is given. */
    method RegisterPayment(a: PaymentArgs, parsesIso: string -> bool, now: int, response: HttpResponse)
      returns (r: CallOutcome, tokenRequest: Option<TokenRequest>)
      requires Valid()
      modifies tokenManager`tokenValues, tokenManager`expirationTime, tokenManager`held
      ensures Valid()
      ensures ValidateTransaction(a.requestToken, a.accountId, a.location, parsesIso).Failure? ==>
        r == Failed(ValidateTransaction(a.requestToken, a.accountId, a.location, parsesIso).error)
        && tokenRequest == None && unchanged(tokenManager)
      ensures ValidateTransaction(a.requestToken, a.accountId, a.location, parsesIso).Success? ==>
        Dispatched(now, response, TransactionsUrl, Params(a.evaluate), PaymentData(a), r, tokenRequest)
    {
      var valid := ValidateTransaction(a.requestToken, a.accountId, a.location, parsesIso);
      if valid.Failure? {
        return Failed(valid.error), None;
      }
      r, tokenRequest := Send(now, response, TransactionsUrl, Params(a.evaluate), PaymentData(a));
    }

    /** `register_login`: the guards of the payment, then the login body to the
        transactions endpoint. */
    method RegisterLogin(a: LoginArgs, parsesIso: string -> bool, now: int, response: HttpResponse)
      returns (r: CallOutcome, tokenRequest: Option<TokenRequest>)
      requires Valid()
      modifies tokenManager`tokenValues, tokenManager`expirationTime, tokenManager`held
      ensures Valid()
      ensures ValidateTransaction(a.requestToken, a.accountId, a.location, parsesIso).Failure? ==>
        r == Failed(ValidateTransaction(a.requestToken, a.accountId, a.location, parsesIso).error)
        && tokenRequest == None && unchanged(tokenManager)
      ensures ValidateTransaction(a.requestToken, a.accountId, a.location, parsesIso).Success? ==>
        Dispatched(now, response, TransactionsUrl, Params(a.evaluate), LoginData(a), r, tokenRequest)
    {
      var valid := ValidateTransaction(a.requestToken, a.accountId, a.location, parsesIso);
      if valid.Failure? {
        return Failed(valid.error), None;
      }
      r, tokenRequest := Send(now, response, TransactionsUrl, Params(a.evaluate), LoginData(a));
    }

    /** `register_web_login`: only the account guards, then the web login body
        to the transactions endpoint. */
    method RegisterWebLogin(a: WebLoginArgs, now: int, response: HttpResponse)
      returns (r: CallOutcome, tokenRequest: Option<TokenRequest>)
      requires Valid()
      modifies tokenManager`tokenValues, tokenManager`expirationTime, tokenManager`held
      ensures Valid()
      ensures ValidateAccount(a.requestToken, a.accountId).Failure? ==>
        r == Failed(ValidateAccount(a.requestToken, a.accountId).error) && tokenRequest == None && unchanged(tokenManager)
      ensures ValidateAccount(a.requestToken, a.accountId).Success? ==>
        Dispatched(now, response, TransactionsUrl, Params(a.evaluate), WebLoginData(a), r, tokenRequest)
    {
      var valid := ValidateAccount(a.requestToken, a.accountId);
      if valid.Failure? {
        return Failed(valid.error), None;
      }
      r, tokenRequest := Send(now, response, TransactionsUrl, Params(a.evaluate), WebLoginData(a));
    }
  }

  /** The first call of a new facade fetches a token and sends it as
      `<token_type> <access_token>` beside the JSON content type; a second call
      within the token's lifetime reuses it without asking again. */
  method LoginThenWebLogin(clientId: string, clientSecret: string, login: LoginArgs, webLogin: WebLoginArgs,
                           parsesIso: string -> bool, now: int, body: TokenBody, next: HttpResponse)
    returns (first: CallOutcome, second: CallOutcome, secondRequest: Option<TokenRequest>)
    requires IsAscii(clientId) && IsAscii(clientSecret) && body.expiresIn > RefreshBeforeSeconds
    requires ValidateTransaction(login.requestToken, login.accountId, login.location, parsesIso).Success?
    requires ValidateAccount(webLogin.requestToken, webLogin.accountId).Success?
    ensures first.Posted? && second.Posted? && secondRequest == None
    ensures first.request.headers == second.request.headers
    ensures Lookup(first.request.headers, "Authorization") ==
      Some(Str(body.tokenType + " " + body.accessToken))
    ensures Lookup(first.request.headers, "Content-Type") == Some(Str("application/json"))
    ensures first.request.url == second.request.url == TransactionsUrl
  {
    var api := new IncogniaAPI(clientId, clientSecret);
    var firstRequest;
    first, firstRequest := api.RegisterLogin(login, parsesIso, now, HttpResponse(200, Some(body)));
    second, secondRequest := api.RegisterWebLogin(webLogin, now, next);
  }

  /** A call whose guard fails touches neither the token endpoint nor the
      cache: a signup without request token on a new facade leaves it empty. */
  method RejectedSignupFetchesNothing(clientId: string, clientSecret: string, a: SignupArgs, now: int, response: HttpResponse)
    returns (r: CallOutcome, tokenRequest: Option<TokenRequest>, cached: Option<TokenValues>)
    requires a.requestToken == None || a.requestToken == Some("")
    ensures r == Failed(IncogniaError(RequestTokenRequired)) && tokenRequest == None && cached == None
  {
    var api := new IncogniaAPI(clientId, clientSecret);
    r, tokenRequest := api.RegisterNewSignup(a, now, response);
    cached := api.tokenManager.tokenValues;
  }

  /** The lock defect seen from the facade: a payment whose token request is
      answered with an HTTP error raises that error, and every later call that
      passes its guards then waits on the mutex without asking for a token,
      while one that fails its guards still raises its own error. */
  method FailedPaymentBlocksLaterCalls(clientId: string, clientSecret: string, payment: PaymentArgs,
                                       login: LoginArgs, signup: SignupArgs, parsesIso: string -> bool,
                                       now: int, status: int, later: int, next: HttpResponse)
    returns (first: CallOutcome, second: CallOutcome, secondRequest: Option<TokenRequest>, third: CallOutcome)
    requires IsAscii(clientId) && IsAscii(clientSecret) && IncogniaTokenManager.RaisesForStatus(status)
    requires ValidateTransaction(payment.requestToken, payment.accountId, payment.location, parsesIso).Success?
    requires ValidateTransaction(login.requestToken, login.accountId, login.location, parsesIso).Success?
    requires signup.requestToken == None
    ensures first == Failed(TokenFailure(HttpStatusError(status)))
    ensures second == Blocked && secondRequest == None
    ensures third == Failed(IncogniaError(RequestTokenRequired))
  {
    var api := new IncogniaAPI(clientId, clientSecret);
    var firstRequest, thirdRequest;
    first, firstRequest := api.RegisterPayment(payment, parsesIso, now, HttpResponse(status, None));
    second, secondRequest := api.RegisterLogin(login, parsesIso, later, next);
    third, thirdRequest := api.RegisterNewSignup(signup, later, next);
  }
}
