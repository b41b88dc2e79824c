/**
 * `GAEHttpConduit`: the URL assembly, lazy default-URL caching, request-method default,
 * request-header joining and response handling of the App Engine HTTP conduit. URLs are
 * kept as their external string form.
 */
module HttpConduit {
  import opened Wrappers
  import opened JavaLang

  datatype ConduitError =
    | MalformedUrl              // "Invalid address. Endpoint address cannot be null."
    | HttpError(code: int)      // HTTPException with the response code
    | InvalidEncoding           // IOException: the content type's charset is not supported

  /* ------------------------------ request method ----------------------------- */

  /** The URL Fetch service's `HTTPMethod` constants. */
  datatype HttpMethod = GET | POST | HEAD | PUT | DELETE

  function MethodName(m: HttpMethod): string
  {
    match m
    case GET => "GET"
    case POST => "POST"
    case HEAD => "HEAD"
    case PUT => "PUT"
    case DELETE => "DELETE"
  }

  /** `HTTPMethod.valueOf`: the constant with that name, or `None` where it throws. */
  function MethodNamed(name: string): Option<HttpMethod>
  {
    if name == "GET" then Some(GET)
    else if name == "POST" then Some(POST)
    else if name == "HEAD" then Some(HEAD)
    else if name == "PUT" then Some(PUT)
    else if name == "DELETE" then Some(DELETE)
    else None
  }

  /**
   * The method of the request: the message's `HTTP_REQUEST_METHOD` property (`None` when
   * it is null or not a string) if it names a method, otherwise POST.
   */
  function RequestMethod(property: Option<string>): HttpMethod
  {
    if property.Some? && MethodNamed(property.value).Some? then MethodNamed(property.value).value else POST
  }

  /** The request uses method m iff the property names m, or m is POST and it names nothing. */
  lemma RequestMethodDefaultsToPost(property: Option<string>, m: HttpMethod)
    ensures RequestMethod(property) == m <==>
      property == Some(MethodName(m)) ||
      (m == POST && (property.None? || MethodNamed(property.value).None?))
  {
  }

  /* ------------------------------ header joining ----------------------------- */

  /** The separator between the values of one request header. */
  const HEADER_SEPARATOR: string := ", "

  /** The `StringBuilder` loop of `prepare`: values in order, `", "` between them. */
  method JoinHeaderValues(values: seq<string>) returns (joined: string)
    ensures joined == JoinWith(values, HEADER_SEPARATOR)
  {
    joined := "";
    var i := 0;
    while i < |values|
      invariant i <= |values|
      invariant 0 < i < |values| ==> joined == JoinWith(values[..i], HEADER_SEPARATOR) + HEADER_SEPARATOR
      invariant i == 0 || i == |values| ==> joined == JoinWith(values[..i], HEADER_SEPARATOR)
    {
      assert values[..i + 1][..i] == values[..i];
      joined := joined + values[i];
      if i + 1 < |values| {
        joined := joined + HEADER_SEPARATOR;
      }
      i := i + 1;
    }
    assert values[..|values|] == values;
  }

  /** Each value after the first with a space in front: what a `,`-split sees of the join. */
  function Spaced(values: seq<string>): (r: seq<string>)
    ensures |r| == |values|
  {
    if |values| <= 1 then values else Spaced(values[..|values| - 1]) + [" " + values[|values| - 1]]
  }

  lemma {:induction false} JoinSpaced(values: seq<string>)
    ensures JoinWith(values, HEADER_SEPARATOR) == JoinWith(Spaced(values), [','])
  {
    if |values| > 1 {
      var init := values[..|values| - 1];
      JoinSpaced(init);
      var sp := Spaced(values);
      assert sp[..|sp| - 1] == Spaced(init);
    }
  }

  lemma {:induction false} SpacedHasNoComma(values: seq<string>)
    requires forall i :: 0 <= i < |values| ==> ',' !in values[i]
    ensures forall i :: 0 <= i < |Spaced(values)| ==> ',' !in Spaced(values)[i]
  {
    if |values| > 1 {
      SpacedHasNoComma(values[..|values| - 1]);
      assert ',' !in " " + values[|values| - 1];
    }
  }

  lemma SplitJoinedSeveral(values: seq<string>)
    requires |values| >= 2
    requires forall i :: 0 <= i < |values| ==> ',' !in values[i]
    ensures JavaSplit(JoinWith(values, HEADER_SEPARATOR), ',') == Spaced(values)
  {
    JoinSpaced(values);
    SpacedHasNoComma(values);
    var sp := Spaced(values);
    SplitAllJoin(sp, ',');
    var s := JoinWith(sp, [',']);
    assert sp[|sp| - 1] == " " + values[|values| - 1];
    assert JoinWith(sp, [',']) == JoinWith(sp[..|sp| - 1], [',']) + [','] + sp[|sp| - 1];
    assert s[|JoinWith(sp[..|sp| - 1], [','])|] == ',';
  }

  /**
   * Splitting a joined request header on `,`, as the response side does, gives the
   * values back with a leading space on every value after the first.
   */
  lemma SplitJoinedHeader(values: seq<string>)
    requires |values| >= 1
    requires forall i :: 0 <= i < |values| ==> ',' !in values[i]
    ensures JavaSplit(JoinWith(values, HEADER_SEPARATOR), ',') == Spaced(values)
  {
    if |values| == 1 {
      assert ',' !in values[0];
    } else {
      SplitJoinedSeveral(values);
    }
  }

  /* ----------------------------- response handling ---------------------------- */

  /** The status rule: a code of at least 400 other than 500 fails unless `no_io_exceptions` is set. */
  predicate RaisesHttpError(code: int, noIoExceptions: bool)
  {
    code >= 400 && code != 500 && !noIoExceptions
  }

  /** An `HTTPHeader` of the response. */
  datatype Header = Header(name: string, value: string)

  /** The position of the last header with that exact name, or -1. */
  function LastNamed(headers: seq<Header>, name: string): (r: int)
    ensures -1 <= r < |headers|
    ensures r >= 0 ==> headers[r].name == name
    ensures forall j :: r < j < |headers| ==> headers[j].name != name
  {
    if headers == [] then -1
    else if headers[|headers| - 1].name == name then |headers| - 1
    else LastNamed(headers[..|headers| - 1], name)
  }

  /** Whether a header name is `content-type`, ignoring case. */
  predicate IsContentType(name: string)
  {
    ToLowerAscii(name) == "content-type"
  }

  /** The position of the last content-type header, or -1. */
  function LastContentType(headers: seq<Header>): (r: int)
    ensures -1 <= r < |headers|
    ensures r >= 0 ==> IsContentType(headers[r].name)
    ensures forall j :: r < j < |headers| ==> !IsContentType(headers[j].name)
  {
    if headers == [] then -1
    else if IsContentType(headers[|headers| - 1].name) then |headers| - 1
    else LastContentType(headers[..|headers| - 1])
  }

  /** The first element of a list, or null for an empty one. */
  function First(values: seq<string>): Option<string>
  {
    if values == [] then None else Some(values[0])
  }

  /** The names occurring among the headers. */
  function Names(headers: seq<Header>): set<string>
  {
    set i | 0 <= i < |headers| :: headers[i].name
  }

  /** One more header moves the last position of its own name only. */
  lemma LastNamedExtend(headers: seq<Header>, i: nat, name: string)
    requires i < |headers|
    ensures LastNamed(headers[..i + 1], name) == if headers[i].name == name then i else LastNamed(headers[..i], name)
  {
    assert headers[..i + 1][..i] == headers[..i];
  }

  lemma LastContentTypeExtend(headers: seq<Header>, i: nat)
    requires i < |headers|
    ensures LastContentType(headers[..i + 1]) ==
      if IsContentType(headers[i].name) then i else LastContentType(headers[..i])
  {
    assert headers[..i + 1][..i] == headers[..i];
  }

  lemma NamesExtend(headers: seq<Header>, i: nat)
    requires i < |headers|
    ensures Names(headers[..i + 1]) == Names(headers[..i]) + {headers[i].name}
  {
    var prefix, next := headers[..i], headers[..i + 1];
    forall n | n in Names(next)
      ensures n in Names(prefix) + {headers[i].name}
    {
      var j :| 0 <= j < i + 1 && next[j].name == n;
      if j < i {
        assert prefix[j] == next[j];
      }
    }
    forall n | n in Names(prefix)
      ensures n in Names(next)
    {
      var j :| 0 <= j < i && prefix[j].name == n;
      assert next[j] == prefix[j];
    }
  }

  /** The content type the headers declare: the first value of the last content-type header. */
  function ContentTypeOf(headers: seq<Header>): Option<string>
  {
    var j := LastContentType(headers);
    if j < 0 then None else First(JavaSplit(headers[j].value, ','))
  }

  /** The header fields gathered from the headers so far. */
  predicate Parsed(headers: seq<Header>, fields: map<string, seq<string>>)
  {
    fields.Keys == Names(headers) &&
    forall n :: n in fields ==> 0 <= LastNamed(headers, n) && fields[n] == JavaSplit(headers[LastNamed(headers, n)].value, ',')
  }

  lemma ContentTypeOfExtend(headers: seq<Header>, i: nat)
    requires i < |headers|
    ensures ContentTypeOf(headers[..i + 1]) ==
      if IsContentType(headers[i].name) then First(JavaSplit(headers[i].value, ',')) else ContentTypeOf(headers[..i])
  {
    var h, prefix, next := headers[i], headers[..i], headers[..i + 1];
    assert next[..i] == prefix && next[i] == h;
    LastContentTypeExtend(headers, i);
    if !IsContentType(h.name) && LastContentType(prefix) >= 0 {
      assert next[LastContentType(prefix)] == prefix[LastContentType(prefix)];
    }
  }

  lemma ParsedExtend(headers: seq<Header>, i: nat, fields: map<string, seq<string>>)
    requires i < |headers| && Parsed(headers[..i], fields)
    ensures Parsed(headers[..i + 1], fields[headers[i].name := JavaSplit(headers[i].value, ',')])
    ensures ContentTypeOf(headers[..i + 1]) ==
      if IsContentType(headers[i].name) then First(JavaSplit(headers[i].value, ',')) else ContentTypeOf(headers[..i])
  {
    ContentTypeOfExtend(headers, i);
    var h, prefix, next := headers[i], headers[..i], headers[..i + 1];
    assert next[..i] == prefix && next[i] == h;
    NamesExtend(headers, i);
    var fields' := fields[h.name := JavaSplit(h.value, ',')];
    forall n | n in fields'
      ensures 0 <= LastNamed(next, n) && fields'[n] == JavaSplit(next[LastNamed(next, n)].value, ',')
    {
      LastNamedExtend(headers, i, n);
      if n != h.name {
        assert next[LastNamed(prefix, n)] == prefix[LastNamed(prefix, n)];
      }
    }
  }

  /**
   * The header loop of `handleResponse`: each header's value split on `,` is stored under
   * its name (a later header with the same name replaces an earlier one), and the content
   * type is the first value of the last header named `content-type` in any case.
   */
  method ParseHeaders(headers: seq<Header>) returns (fields: map<string, seq<string>>, contentType: Option<string>)
    ensures fields.Keys == Names(headers)
    ensures forall n :: n in fields ==> fields[n] == JavaSplit(headers[LastNamed(headers, n)].value, ',')
    ensures contentType == ContentTypeOf(headers)
  {
    fields, contentType := map[], None;
    for i := 0 to |headers|
      invariant Parsed(headers[..i], fields)
      invariant contentType == ContentTypeOf(headers[..i])
    {
      ParsedExtend(headers, i, fields);
      var h := headers[i];
      var value := JavaSplit(h.value, ',');
      fields := fields[h.name := value];
      if IsContentType(h.name) {
        contentType := First(value);
      }
    }
    assert headers[..|headers|] == headers;
  }

  /** What `handleResponse` hands on in the incoming message. */
  datatype Incoming = Incoming(responseCode: int, headers: map<string, seq<string>>, contentType: Option<string>,
                               encoding: string, content: seq<bv8>)

  /**
   * `handleResponse`: the status rule first, then the headers, then the character set of
   * the content type (`normalize` stands for the charset lookup), and the content with
   * null replaced by an empty array.
   */
  method HandleResponse(code: int, noIoExceptions: bool, headers: seq<Header>, content: Option<seq<bv8>>,
                        normalize: Option<string> -> Option<string>)
    returns (r: Result<Incoming, ConduitError>)
    ensures r.Err? && r.error.HttpError? <==> 400 <= code && code != 500 && !noIoExceptions
    ensures RaisesHttpError(code, noIoExceptions) ==> r == Err(HttpError(code))
    ensures !RaisesHttpError(code, noIoExceptions) ==>
      var ct := ContentTypeOf(headers);
      if normalize(ct).None? then r == Err(InvalidEncoding)
      else r.Ok? && r.value.responseCode == code && r.value.contentType == ct &&
           r.value.encoding == normalize(ct).value &&
           r.value.headers.Keys == Names(headers) &&
           (forall n :: n in r.value.headers ==> r.value.headers[n] == JavaSplit(headers[LastNamed(headers, n)].value, ',')) &&
           r.value.content == (if content.Some? then content.value else [])
  {
    if RaisesHttpError(code, noIoExceptions) {
      return Err(HttpError(code));
    }
    var fields, ct := ParseHeaders(headers);
    var encoding := normalize(ct);
    if encoding.None? {
      return Err(InvalidEncoding);
    }
    var data := if content.Some? then content.value else [];
    r := Ok(Incoming(code, fields, ct, encoding.value, data));
  }

  /* ------------------------------- URL assembly ------------------------------- */

  predicate EndsWith(s: string, suffix: string)
  {
    |suffix| <= |s| && s[|s| - |suffix|..] == suffix
  }

  /**
   * `setupURL` from an address on: the path info is appended only when the address does
   * not already end with it, then `?` and the query string.
   */
  function AssembleUrl(address: string, pathInfo: Option<string>, query: Option<string>): string
  {
    var withPath := if pathInfo.Some? && !EndsWith(address, pathInfo.value) then address + pathInfo.value else address;
    if query.Some? then withPath + "?" + query.value else withPath
  }

  /**
   * Without a query the URL ends with the path info and assembling again adds nothing; the
   * query always follows a `?` at the end; with neither the URL is the address.
   */
  lemma AssembleUrlProperties(address: string, pathInfo: Option<string>, query: Option<string>)
    ensures pathInfo.Some? ==> EndsWith(AssembleUrl(address, pathInfo, None), pathInfo.value)
    ensures AssembleUrl(AssembleUrl(address, pathInfo, None), pathInfo, None) == AssembleUrl(address, pathInfo, None)
    ensures query.Some? ==> AssembleUrl(address, pathInfo, query) == AssembleUrl(address, pathInfo, None) + "?" + query.value
    ensures AssembleUrl(address, None, None) == address
    ensures pathInfo.Some? && EndsWith(address, pathInfo.value) ==> AssembleUrl(address, pathInfo, None) == address
  {
    if pathInfo.Some? && !EndsWith(address, pathInfo.value) {
      var s := address + pathInfo.value;
      assert s[|s| - |pathInfo.value|..] == pathInfo.value;
    }
  }

  /** The addressing properties of a CXF message that `setupURL` reads and writes. */
  class Message {
    var endpointAddress: Option<string>
    const pathInfo: Option<string>
    const queryString: Option<string>

    constructor (endpointAddress: Option<string>, pathInfo: Option<string>, queryString: Option<string>)
      ensures this.endpointAddress == endpointAddress && this.pathInfo == pathInfo && this.queryString == queryString
    {
      this.endpointAddress := endpointAddress;
      this.pathInfo := pathInfo;
      this.queryString := queryString;
    }
  }

  /** The request `prepare` builds. */
  datatype Request = Request(url: string, httpMethod: HttpMethod, headers: seq<Header>)

  class GAEHttpConduit {
    /** Whether the conduit was created with an endpoint reference target. */
    const fromEndpointReferenceType: bool
    /** The target reference's address value. */
    const targetAddress: Option<string>
    /** The endpoint info's address. */
    const endpointAddress: Option<string>
    var defaultEndpointURL: Option<string>
    var defaultEndpointURLString: Option<string>

    /** The address the default URL is created from, if any. */
    function DefaultAddress(): Option<string>
    {
      if fromEndpointReferenceType && targetAddress.Some? then targetAddress else endpointAddress
    }

    /** The cached URL and its string agree, and are the default address once created. */
    predicate Valid()
      reads this
    {
      defaultEndpointURLString == defaultEndpointURL &&
      (defaultEndpointURL.Some? ==> defaultEndpointURL == DefaultAddress())
    }

    constructor (target: Option<string>, endpointAddress: Option<string>, hasTarget: bool)
      ensures fromEndpointReferenceType == hasTarget && targetAddress == target && this.endpointAddress == endpointAddress
      ensures defaultEndpointURL == None && Valid()
    {
      fromEndpointReferenceType := hasTarget;
      targetAddress := target;
      this.endpointAddress := endpointAddress;
      defaultEndpointURL := None;
      defaultEndpointURLString := None;
    }

    /**
     * `getURL(createOnDemand)`: the cached URL, created from the default address the first
     * time it is asked for on demand; without an address that creation fails. Once created
     * it never changes, so every successful on-demand call returns the same URL.
     */
    method GetURL(createOnDemand: bool) returns (r: Result<Option<string>, ConduitError>)
      requires Valid()
      modifies this
      ensures Valid()
      ensures old(defaultEndpointURL).Some? || !createOnDemand ==>
        r == Ok(old(defaultEndpointURL)) && defaultEndpointURL == old(defaultEndpointURL)
      ensures createOnDemand && DefaultAddress().None? ==> r == Err(MalformedUrl) && defaultEndpointURL == None
      ensures createOnDemand && DefaultAddress().Some? ==> r == Ok(DefaultAddress()) && defaultEndpointURL == DefaultAddress()
    {
      if defaultEndpointURL.None? && createOnDemand {
        if fromEndpointReferenceType && targetAddress.Some? {
          defaultEndpointURL := targetAddress;
          defaultEndpointURLString := defaultEndpointURL;
          return Ok(defaultEndpointURL);
        }
        if endpointAddress.None? {
          return Err(MalformedUrl);
        }
        defaultEndpointURL := endpointAddress;
        defaultEndpointURLString := defaultEndpointURL;
      }
      r := Ok(defaultEndpointURL);
    }

    /**
     * `setupURL`: the message's endpoint address, or the default URL when it has none
     * (recorded as the message's endpoint address), with path info and query added.
     */
    method SetupURL(m: Message) returns (r: Result<string, ConduitError>)
      requires Valid()
      modifies this, m
      ensures Valid()
      ensures old(m.endpointAddress).None? && DefaultAddress().None? ==>
        r == Err(MalformedUrl) && m.endpointAddress == None
      ensures old(m.endpointAddress).Some? || DefaultAddress().Some? ==>
        var address := if old(m.endpointAddress).Some? then old(m.endpointAddress).value else DefaultAddress().value;
        r == Ok(AssembleUrl(address, m.pathInfo, m.queryString)) && m.endpointAddress == Some(address)
      ensures defaultEndpointURL == if old(m.endpointAddress).None? then DefaultAddress() else old(defaultEndpointURL)
    {
      var result := m.endpointAddress;
      if result.None? {
        if m.pathInfo.None? && m.queryString.None? {
          var url := GetURL(true);
          if url.Err? {
            return Err(url.error);
          }
          m.endpointAddress := defaultEndpointURLString;
          return Ok(url.value.value);
        }
        var url := GetURL(true);
        if url.Err? {
          return Err(url.error);
        }
        result := url.value;
        m.endpointAddress := result;
      }
      var address := result.value;
      if m.pathInfo.Some? && !EndsWith(address, m.pathInfo.value) {
        address := address + m.pathInfo.value;
      }
      if m.queryString.Some? {
        address := address + "?" + m.queryString.value;
      }
      r := Ok(address);
    }

    /**
     * `prepare`: the URL from `setupURL`, the method from the message (POST by default)
     * and one request header per protocol header with its values joined.
     */
    method Prepare(m: Message, methodProperty: Option<string>, headers: seq<(string, seq<string>)>)
      returns (r: Result<Request, ConduitError>)
      requires Valid()
      modifies this, m
      ensures Valid()
      ensures r.Ok? ==>
        r.value.httpMethod == RequestMethod(methodProperty) && |r.value.headers| == |headers| &&
        (forall i :: 0 <= i < |headers| ==>
           r.value.headers[i] == Header(headers[i].0, JoinWith(headers[i].1, HEADER_SEPARATOR)))
      ensures old(m.endpointAddress).Some? || DefaultAddress().Some? ==>
        var address := if old(m.endpointAddress).Some? then old(m.endpointAddress).value else DefaultAddress().value;
        r.Ok? && r.value.url == AssembleUrl(address, m.pathInfo, m.queryString)
      ensures old(m.endpointAddress).None? && DefaultAddress().None? ==> r == Err(MalformedUrl)
      ensures m.endpointAddress == if old(m.endpointAddress).Some? then old(m.endpointAddress) else DefaultAddress()
      ensures defaultEndpointURL == if old(m.endpointAddress).None? then DefaultAddress() else old(defaultEndpointURL)
    {
      var url := SetupURL(m);
      if url.Err? {
        return Err(url.error);
      }
      var httpMethod := RequestMethod(methodProperty);
      var out: seq<Header> := [];
      for i := 0 to |headers|
        modifies {}
        invariant |out| == i
        invariant forall j :: 0 <= j < i ==> out[j] == Header(headers[j].0, JoinWith(headers[j].1, HEADER_SEPARATOR))
      {
        var value := JoinHeaderValues(headers[i].1);
        out := out + [Header(headers[i].0, value)];
      }
      r := Ok(Request(url.value, httpMethod, out));
    }
  }
}
