/**
 * `RackspaceCloudClient`: the bounded retry around every API call (a 401 clears the token), the
 * authentication step (status check and management-URL parsing) and the flags that
 * configure the HTTP client factory.
 */
module CloudClient {
  import opened Wrappers
  import opened JavaLang
  import opened AccountBases

  /** `MAX_RETRIES`: how many times an API call is attempted. */
  const MAX_RETRIES: nat := 3
  /** `HttpURLConnection.HTTP_NO_CONTENT`: the status of a successful authentication. */
  const HTTP_NO_CONTENT: int := 204
  /** `HttpURLConnection.HTTP_UNAUTHORIZED`: the status that triggers a retry. */
  const HTTP_UNAUTHORIZED: int := 401

  /** The exceptions the modelled code can end in. */
  datatype ClientError =
    | ClientSideError                   // "Client side error."
    | ServerSideError(status: int)      // "Server side error."
    | AuthenticationExhausted           // "Authentication failed after multiple attempts."
    | AuthenticationUnreachable         // "Failed to authenticate: ..." (the request threw)
    | AuthenticationStatus(status: int) // "Authentication failed, response status: ..."
    | MissingHeader                     // NullPointerException: a response header is absent
    | IndexOutOfBounds                  // `split[-1]` or `substring(0, -1)`
    | NumberFormat                      // `Long.parseLong` rejected the account id
    | UriSyntax                         // `new URI` rejected the base URI

  /** What one invocation of an API caller's `call()` did. */
  datatype CallOutcome<T> =
    | Returned(value: T)
    | ClientFault              // ClientWebApplicationException
    | ServerFault(status: int) // ServerWebApplicationException with its response status

  /**
   * The answer of the authentication request: it threw, or it came back with a status and
   * the `X-Server-Management-Url` and `X-Auth-Token` headers (either may be absent).
   */
  datatype AuthResponse =
    | Unreachable
    | Response(status: int, managementUrl: Option<string>, token: Option<string>)

  /** The three fields authentication writes. The base URI is kept as its string. */
  datatype Credentials = Credentials(accountId: Option<Int64>, baseUri: Option<string>, authToken: Option<string>)

  /** Holding a token implies that the account id and base URI are known. */
  predicate CredentialsValid(c: Credentials)
  {
    c.authToken.Some? ==> c.accountId.Some? && c.baseUri.Some?
  }

  /* ------------------------------ authenticate ----------------------------- */

  /**
   * `authenticate`: a no-op with a token in hand; otherwise checks for status 204, then
   * sets `accountId` from the last `/`-separated field of the management URL, `baseUri`
   * from the URL with its last two `/`-fields cut off, and finally the token. The fields
   * are assigned one after the other, so a later failure keeps the earlier assignments.
   * `validUri` is the JDK's `URI` parser: the base URI is stored only when it accepts it.
   */
  function Authenticate(c: Credentials, rs: AuthResponse, validUri: string -> bool): Step<Result<(), ClientError>, Credentials>
  {
    if c.authToken.Some? then Step(Ok(()), c)
    else match rs
      case Unreachable => Step(Err(AuthenticationUnreachable), c)
      case Response(status, url, token) =>
        if status != HTTP_NO_CONTENT then Step(Err(AuthenticationStatus(status)), c)
        else if url.None? then Step(Err(MissingHeader), c)
        else
          var split := JavaSplit(url.value, '/');
          if |split| == 0 then Step(Err(IndexOutOfBounds), c)
          else match ParseLong(split[|split| - 1])
            case None => Step(Err(NumberFormat), c)
            case Some(id) =>
              var withId := c.(accountId := Some(id));
              var i := LastIndexOf(url.value, '/');
              if i < 0 then Step(Err(IndexOutOfBounds), withId)
              else
                var cut := url.value[..i];
                var j := LastIndexOf(cut, '/');
                if j < 0 then Step(Err(IndexOutOfBounds), withId)
                else if !validUri(cut[..j]) then Step(Err(UriSyntax), withId)
                else
                  var withUri := withId.(baseUri := Some(cut[..j]));
                  if token.None? then Step(Err(MissingHeader), withUri)
                  else Step(Ok(()), withUri.(authToken := token))
  }

  /**
   * The status rule: with a token in hand nothing happens; without one, anything but a
   * 204 answer fails and changes nothing; success always leaves a token, an account id
   * and a base URI behind, and every outcome keeps the credentials valid.
   */
  lemma AuthenticateStatusRule(c: Credentials, rs: AuthResponse, validUri: string -> bool)
    requires CredentialsValid(c)
    ensures c.authToken.Some? ==> Authenticate(c, rs, validUri) == Step(Ok(()), c)
    ensures c.authToken.None? && (rs.Unreachable? || rs.status != HTTP_NO_CONTENT) ==>
      Authenticate(c, rs, validUri).result.Err? && Authenticate(c, rs, validUri).state == c
    ensures Authenticate(c, rs, validUri).result.Ok? ==> Authenticate(c, rs, validUri).state.authToken.Some?
    ensures CredentialsValid(Authenticate(c, rs, validUri).state)
  {
  }

  /** The last `/`-field of a management URL `<base>/<version>/<account id>` parses as the account id. */
  lemma ManagementUrlAccountId(base: string, version: string, id: nat)
    requires '/' !in version && id <= LONG_MAX
    ensures var split := JavaSplit(base + "/" + version + "/" + Decimal(id), '/');
      |split| > 0 && ParseLong(split[|split| - 1]) == Some(id)
  {
    var digits := Decimal(id);
    assert '/' !in digits;
    var cut := base + "/" + version;
    var url := cut + "/" + digits;
    LastIndexOfAppend(cut, '/', digits);
    var i := LastIndexOf(url, '/');
    assert i == |cut|;
    assert url[i] == '/';
    assert url[..i] == cut && url[i + 1..] == digits;
    var parts := SplitAll(url, '/');
    assert parts == SplitAll(cut, '/') + [digits];
    assert JavaSplit(url, '/') == parts;
    assert parts[|parts| - 1] == digits;
    ParseDecimal(id);
  }

  /** Cutting the last two `/`-fields off a management URL `<base>/<version>/<account id>` leaves the base. */
  lemma ManagementUrlBase(base: string, version: string, id: nat)
    requires '/' !in version
    ensures var url := base + "/" + version + "/" + Decimal(id);
      var i := LastIndexOf(url, '/');
      0 <= i && LastIndexOf(url[..i], '/') >= 0 && url[..i][..LastIndexOf(url[..i], '/')] == base
  {
    var digits := Decimal(id);
    assert '/' !in digits;
    var cut := base + "/" + version;
    var url := cut + "/" + digits;
    LastIndexOfAppend(cut, '/', digits);
    assert url[..LastIndexOf(url, '/')] == cut;
    LastIndexOfAppend(base, '/', version);
    assert cut[..LastIndexOf(cut, '/')] == base;
  }

  /**
   * The management URL `<base>/<version>/<account id>` with a base the URI parser accepts
   * yields exactly that account id and base URI, and the token header becomes the token.
   */
  lemma AuthenticateParsesManagementUrl(c: Credentials, base: string, version: string, id: nat, token: string,
                                        validUri: string -> bool)
    requires c.authToken.None?
    requires '/' !in version && id <= LONG_MAX && validUri(base)
    ensures var url := base + "/" + version + "/" + Decimal(id);
      Authenticate(c, Response(HTTP_NO_CONTENT, Some(url), Some(token)), validUri)
        == Step(Ok(()), Credentials(Some(id), Some(base), Some(token)))
  {
    ManagementUrlAccountId(base, version, id);
    ManagementUrlBase(base, version, id);
    var url := base + "/" + version + "/" + Decimal(id);
    var cut := url[..LastIndexOf(url, '/')];
    assert cut[..LastIndexOf(cut, '/')] == base;
  }

  /**
   * A base the URI parser rejects (one holding a space, say) fails the authentication
   * with the parsed account id stored and the base URI and token left as they were.
   */
  lemma AuthenticateRejectsBaseUri(c: Credentials, base: string, version: string, id: nat, token: string,
                                   validUri: string -> bool)
    requires c.authToken.None?
    requires '/' !in version && id <= LONG_MAX && !validUri(base)
    ensures var url := base + "/" + version + "/" + Decimal(id);
      Authenticate(c, Response(HTTP_NO_CONTENT, Some(url), Some(token)), validUri)
        == Step(Err(UriSyntax), c.(accountId := Some(id)))
  {
    ManagementUrlAccountId(base, version, id);
    ManagementUrlBase(base, version, id);
    var url := base + "/" + version + "/" + Decimal(id);
    var cut := url[..LastIndexOf(url, '/')];
    assert cut[..LastIndexOf(cut, '/')] == base;
  }

  /**
   * The account id is stored before the base URI is cut out; an instance: the management
   * URL "7" fails on the cut but leaves the account id 7 behind.
   */
  lemma AuthenticateFailureKeepsAccountId(c: Credentials, token: string, validUri: string -> bool)
    requires c.authToken.None?
    ensures Authenticate(c, Response(HTTP_NO_CONTENT, Some("7"), Some(token)), validUri)
      == Step(Err(IndexOutOfBounds), c.(accountId := Some(7)))
  {
    assert JavaSplit("7", '/') == ["7"];
    assert "7"[1..] == [] && AllDigits("7");
    assert DigitsValue("7"[..0]) == 0;
    assert ParseLong("7") == Some(7);
  }

  /**
   * Every management URL without a `/` that parses as a long fails on the cut, with the
   * parsed account id already stored and the base URI and token left as they were.
   */
  lemma AuthenticateBareIdKeepsAccountId(c: Credentials, url: string, token: Option<string>, validUri: string -> bool)
    requires c.authToken.None? && '/' !in url && ParseLong(url).Some?
    ensures Authenticate(c, Response(HTTP_NO_CONTENT, Some(url), token), validUri)
      == Step(Err(IndexOutOfBounds), c.(accountId := Some(ParseLong(url).value)))
  {
    assert JavaSplit(url, '/') == [url];
    assert LastIndexOf(url, '/') == -1;
  }

  /* ------------------------------- makeCall -------------------------------- */

  /** What `makeCall` ended with, the token it left behind and how often it ran `call()`. */
  datatype CallTrace<T> = CallTrace(result: Result<T, ClientError>, token: Option<string>, attempts: nat)

  /**
   * `makeCall` from attempt number `attempt` on, where `call(i, t)` is what the i-th
   * invocation of `call()` does when the client's token is t. A 401 clears the token and
   * tries again; the retries therefore run with no token.
   */
  function MakeCall<T>(call: (nat, Option<string>) -> CallOutcome<T>, token: Option<string>, attempt: nat): CallTrace<T>
    requires attempt <= MAX_RETRIES
    decreases MAX_RETRIES - attempt
  {
    if attempt == MAX_RETRIES then CallTrace(Err(AuthenticationExhausted), token, attempt)
    else match call(attempt, token)
      case Returned(v) => CallTrace(Ok(v), token, attempt + 1)
      case ClientFault => CallTrace(Err(ClientSideError), token, attempt + 1)
      case ServerFault(status) =>
        if status == HTTP_UNAUTHORIZED then MakeCall(call, None, attempt + 1)
        else CallTrace(Err(ServerSideError(status)), token, attempt + 1)
  }

  /**
   * `call()` runs at least once and at most `MAX_RETRIES` times; the outcome is the
   * last attempt's (or exhaustion), and every attempt before the last got a 401.
   */
  lemma {:induction false} MakeCallBounded<T>(call: (nat, Option<string>) -> CallOutcome<T>, token: Option<string>, attempt: nat)
    requires attempt < MAX_RETRIES
    ensures var t := MakeCall(call, token, attempt);
      attempt < t.attempts <= MAX_RETRIES
    ensures var t := MakeCall(call, token, attempt);
      t.result.Ok? ==> call(t.attempts - 1, t.token) == Returned(t.result.value)
    ensures var t := MakeCall(call, token, attempt);
      t.attempts > attempt + 1 ==> call(attempt, token) == ServerFault(HTTP_UNAUTHORIZED) && t.token == None
    decreases MAX_RETRIES - attempt
  {
    if call(attempt, token) == ServerFault(HTTP_UNAUTHORIZED) && attempt + 1 < MAX_RETRIES {
      MakeCallBounded(call, None, attempt + 1);
    }
  }

  /** A first answer that is not a 401 decides the call at once, without a retry. */
  lemma MakeCallFirstAnswer<T>(call: (nat, Option<string>) -> CallOutcome<T>, token: Option<string>)
    requires call(0, token) != ServerFault(HTTP_UNAUTHORIZED)
    ensures MakeCall(call, token, 0).attempts == 1 && MakeCall(call, token, 0).token == token
    ensures MakeCall(call, token, 0).result == match call(0, token)
      case Returned(v) => Ok(v)
      case ClientFault => Err(ClientSideError)
      case ServerFault(s) => Err(ServerSideError(s))
  {
  }

  /** The call gives up exactly when all three attempts got a 401, and then holds no token. */
  lemma MakeCallExhausted<T>(call: (nat, Option<string>) -> CallOutcome<T>, token: Option<string>)
    ensures MakeCall(call, token, 0).result == Err(AuthenticationExhausted) <==>
      call(0, token) == ServerFault(HTTP_UNAUTHORIZED) &&
      call(1, None) == ServerFault(HTTP_UNAUTHORIZED) &&
      call(2, None) == ServerFault(HTTP_UNAUTHORIZED)
    ensures MakeCall(call, token, 0).result == Err(AuthenticationExhausted) ==>
      MakeCall(call, token, 0).attempts == MAX_RETRIES && MakeCall(call, token, 0).token == None
  {
  }

  /* --------------------------- client factory flags ------------------------- */

  /** The transport the client factory is configured with. */
  datatype Transport = UrlFetchTransport | HttpUrlConnectionTransport

  /** What `getClientFactory` sets up: the transport, and the gzip header with its interceptor. */
  datatype FactoryConfig = FactoryConfig(transport: Transport, gzip: bool)

  function ClientFactoryFor(compressionEnabled: bool, appEngineCompatible: bool): FactoryConfig
  {
    FactoryConfig(if appEngineCompatible then UrlFetchTransport else HttpUrlConnectionTransport,
                  compressionEnabled && !appEngineCompatible)
  }

  /**
   * The App Engine transport is chosen iff App Engine compatibility is on; gzip is
   * requested iff compression is on and App Engine compatibility is off, so never
   * together with the App Engine transport. The defaults give gzip over the JDK transport.
   */
  lemma ClientFactoryFlags(compressionEnabled: bool, appEngineCompatible: bool)
    ensures var f := ClientFactoryFor(compressionEnabled, appEngineCompatible);
      (f.transport == UrlFetchTransport <==> appEngineCompatible) &&
      (f.gzip <==> compressionEnabled && !appEngineCompatible) &&
      !(f.gzip && f.transport == UrlFetchTransport)
    ensures ClientFactoryFor(true, false) == FactoryConfig(HttpUrlConnectionTransport, true)
  {
  }

  /* --------------------------------- client -------------------------------- */

  /** A client; `I` is the type of interceptor that can be installed on it. */
  class RackspaceCloudClient<I> {
    const accountBase: AccountBase
    const user: string
    const authKey: string
    var compressionEnabled: bool
    var appEngineCompatible: bool
    var interceptor: Option<I>
    var accountId: Option<Int64>
    var baseUri: Option<string>
    var authToken: Option<string>

    function Creds(): Credentials
      reads this
    {
      Credentials(accountId, baseUri, authToken)
    }

    predicate Valid()
      reads this
    {
      CredentialsValid(Creds())
    }

    /** A new client: not authenticated, compression on, App Engine compatibility off. */
    constructor (accountBase: AccountBase, user: string, authKey: string)
      ensures this.accountBase == accountBase && this.user == user && this.authKey == authKey
      ensures compressionEnabled && !appEngineCompatible && interceptor == None
      ensures Creds() == Credentials(None, None, None) && Valid()
    {
      this.accountBase := accountBase;
      this.user := user;
      this.authKey := authKey;
      compressionEnabled := true;
      appEngineCompatible := false;
      interceptor := None;
      accountId := None;
      baseUri := None;
      authToken := None;
    }

    method SetAppEngineCompatible(b: bool)
      modifies this
      ensures appEngineCompatible == b && compressionEnabled == old(compressionEnabled)
      ensures interceptor == old(interceptor) && Creds() == old(Creds())
    {
      appEngineCompatible := b;
    }

    method SetCompressionEnabled(b: bool)
      modifies this
      ensures compressionEnabled == b && appEngineCompatible == old(appEngineCompatible)
      ensures interceptor == old(interceptor) && Creds() == old(Creds())
    {
      compressionEnabled := b;
    }

    method SetInterceptor(i: Option<I>)
      modifies this
      ensures interceptor == i
      ensures compressionEnabled == old(compressionEnabled) && appEngineCompatible == old(appEngineCompatible)
      ensures Creds() == old(Creds())
    {
      interceptor := i;
    }

    /** `getClientFactory`: the configuration this client's flags select. */
    function ClientFactory(): (f: FactoryConfig)
      reads this
      ensures f.gzip ==> !appEngineCompatible
    {
      ClientFactoryFor(compressionEnabled, appEngineCompatible)
    }

    /**
     * `authenticate`, with the network request replaced by its answer `rs` and the URI
     * parser by `validUri`.
     */
    method DoAuthenticate(rs: AuthResponse, validUri: string -> bool) returns (r: Result<(), ClientError>)
      modifies this
      ensures Step(r, Creds()) == Authenticate(old(Creds()), rs, validUri)
      ensures compressionEnabled == old(compressionEnabled) && appEngineCompatible == old(appEngineCompatible)
      ensures interceptor == old(interceptor)
    {
      if authToken.Some? {
        return Ok(());
      }
      if rs.Unreachable? {
        return Err(AuthenticationUnreachable);
      }
      if rs.status != HTTP_NO_CONTENT {
        return Err(AuthenticationStatus(rs.status));
      }
      if rs.managementUrl.None? {
        return Err(MissingHeader);
      }
      var url := rs.managementUrl.value;
      var split := JavaSplit(url, '/');
      if |split| == 0 {
        return Err(IndexOutOfBounds);
      }
      var parsed := ParseLong(split[|split| - 1]);
      if parsed.None? {
        return Err(NumberFormat);
      }
      accountId := Some(parsed.value);
      var i := LastIndexOf(url, '/');
      if i < 0 {
        return Err(IndexOutOfBounds);
      }
      var cut := url[..i];
      var j := LastIndexOf(cut, '/');
      if j < 0 {
        return Err(IndexOutOfBounds);
      }
      if !validUri(cut[..j]) {
        return Err(UriSyntax);
      }
      baseUri := Some(cut[..j]);
      if rs.token.None? {
        return Err(MissingHeader);
      }
      authToken := rs.token;
      r := Ok(());
    }

    /**
     * The guard of `getVersions`: authenticates only without a token, then yields the
     * base URI the versions resource is created at.
     */
    method GetVersions(rs: AuthResponse, validUri: string -> bool) returns (r: Result<string, ClientError>)
      requires Valid()
      modifies this
      ensures Valid()
      ensures old(authToken).Some? ==> Creds() == old(Creds()) && baseUri.Some? && r == Ok(baseUri.value)
      ensures old(authToken).None? ==>
        Creds() == Authenticate(old(Creds()), rs, validUri).state &&
        (r.Ok? <==> Authenticate(old(Creds()), rs, validUri).result.Ok?)
      ensures r.Err? ==> old(authToken).None? && r.error == Authenticate(old(Creds()), rs, validUri).result.error
      ensures r.Ok? ==> authToken.Some? && baseUri.Some? && r.value == baseUri.value
      ensures compressionEnabled == old(compressionEnabled) && appEngineCompatible == old(appEngineCompatible)
      ensures interceptor == old(interceptor)
    {
      AuthenticateStatusRule(Creds(), rs, validUri);
      if authToken.None? {
        var a := DoAuthenticate(rs, validUri);
        if a.Err? {
          return Err(a.error);
        }
      }
      r := Ok(baseUri.value);
    }

    /**
     * `ApiCaller.makeCall`: tries `call()` up to `MAX_RETRIES` times, clearing the token
     * after each 401 so that the next request authenticates again.
     */
    method MakeCallWithRetries<T>(call: (nat, Option<string>) -> CallOutcome<T>) returns (r: Result<T, ClientError>)
      modifies this
      ensures r == MakeCall(call, old(authToken), 0).result
      ensures authToken == MakeCall(call, old(authToken), 0).token
      ensures accountId == old(accountId) && baseUri == old(baseUri)
      ensures compressionEnabled == old(compressionEnabled) && appEngineCompatible == old(appEngineCompatible)
      ensures interceptor == old(interceptor)
    {
      var retries: nat := 0;
      while retries < MAX_RETRIES
        invariant retries <= MAX_RETRIES
        invariant MakeCall(call, authToken, retries) == MakeCall(call, old(authToken), 0)
        invariant accountId == old(accountId) && baseUri == old(baseUri)
        invariant compressionEnabled == old(compressionEnabled) && appEngineCompatible == old(appEngineCompatible)
        invariant interceptor == old(interceptor)
        decreases MAX_RETRIES - retries
      {
        match call(retries, authToken)
        case Returned(v) =>
          return Ok(v);
        case ClientFault =>
          return Err(ClientSideError);
        case ServerFault(status) =>
          if status == HTTP_UNAUTHORIZED {
            authToken := None;
            retries := retries + 1;
          } else {
            return Err(ServerSideError(status));
          }
      }
      r := Err(AuthenticationExhausted);
    }

    /**
     * One public API method such as `listLimits`: the `getVersions` guard, then the call
     * with retries. A failed authentication ends the request before any attempt.
     */
    method Request<T>(rs: AuthResponse, validUri: string -> bool, call: (nat, Option<string>) -> CallOutcome<T>) returns (r: Result<T, ClientError>)
      requires Valid()
      modifies this
      ensures Valid()
      ensures var auth := if old(authToken).Some? then Step(Ok(()), old(Creds())) else Authenticate(old(Creds()), rs, validUri);
        if auth.result.Err? then r == Err(auth.result.error) && Creds() == auth.state
        else r == MakeCall(call, auth.state.authToken, 0).result &&
             authToken == MakeCall(call, auth.state.authToken, 0).token &&
             accountId == auth.state.accountId && baseUri == auth.state.baseUri
      ensures compressionEnabled == old(compressionEnabled) && appEngineCompatible == old(appEngineCompatible)
      ensures interceptor == old(interceptor)
    {
      var v := GetVersions(rs, validUri);
      if v.Err? {
        return Err(v.error);
      }
      r := MakeCallWithRetries(call);
    }
  }
}
