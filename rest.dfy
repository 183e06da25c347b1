/** `RestData` (sensor.py:354-402): one persistent HTTP session and the request
    it issues, with the body and headers of the latest response retained. */
module Rest {
  import opened Wrappers
  import opened Document
  import opened Dict

  /** Authentication handed to the session (sensor.py:133-139). */
  datatype Auth = NoAuth | BasicAuth(user: string, pass: string) | DigestAuth(user: string, pass: string)

  /** The request body: the configured payload string, nothing, or the form
      data built by the pre-login step (whose keys and values may be None). */
  datatype Payload = NoPayload | Raw(text: string) | FormData(fields: Dict<Value, Value>)

  /** Everything one `session.request(...)` call is given. */
  datatype Request = Request(
    httpMethod: string,
    url: Option<string>,
    headers: Option<map<string, string>>,
    auth: Auth,
    body: Payload,
    verifySsl: bool,
    timeout: nat)

  /** A completed HTTP response, whatever its status code. */
  datatype Response = Response(text: string, headers: map<string, string>)

  /** The network, seen from the session: the outcome of the last request of
      the history it is given (None for a transport failure: connection, DNS,
      TLS, timeout, malformed URL).  Passing the whole history lets a response
      depend on cookies and state left by earlier requests of the session. */
  type Transport = seq<Request> -> Option<Response>

  class RestData {
    var httpMethod: string
    var resource: Option<string>
    const auth: Auth
    const requestHeaders: Option<map<string, string>>
    var requestData: Payload
    const verifySsl: bool
    const timeout: nat
    /** The requests sent through the session so far, oldest first. */
    var session: seq<Request>
    /** `data` and `headers` of the latest response, or None after a failure. */
    var data: Option<string>
    var headers: Option<map<string, string>>

    /** The retained body and headers are present or absent together. */
    ghost predicate Valid()
      reads this
    {
      data.Some? <==> headers.Some?
    }

    /** The retained body and headers are those of the response to the last
        request the session sent, or both None when that request failed. */
    ghost predicate RetainsLatest(net: Transport)
      reads this
    {
      && data == (if net(session).Some? then Some(net(session).value.text) else None)
      && headers == (if net(session).Some? then Some(net(session).value.headers) else None)
    }

    constructor (httpMethod: string, resource: Option<string>, auth: Auth,
                 requestHeaders: Option<map<string, string>>, requestData: Payload,
                 verifySsl: bool, timeout: nat)
      ensures Valid()
      ensures this.httpMethod == httpMethod && this.resource == resource && this.auth == auth
      ensures this.requestHeaders == requestHeaders && this.requestData == requestData
      ensures this.verifySsl == verifySsl && this.timeout == timeout
      ensures session == [] && data.None? && headers.None?
    {
      this.httpMethod := httpMethod;
      this.resource := resource;
      this.auth := auth;
      this.requestHeaders := requestHeaders;
      this.requestData := requestData;
      this.verifySsl := verifySsl;
      this.timeout := timeout;
      session := [];
      data := None;
      headers := None;
    }

    /** The request the next `Update` sends. */
    function Pending(): (r: Request)
      reads this
      ensures r.httpMethod == httpMethod && r.url == resource && r.body == requestData
    {
      Request(httpMethod, resource, requestHeaders, auth, requestData, verifySsl, timeout)
    }

    /** `set_url`: replaces the URL and nothing else. */
    method SetUrl(url: string)
      modifies this`resource
      ensures resource == Some(url)
      ensures Valid() <==> old(Valid())
    {
      resource := Some(url);
    }

    /** `set_request_data`: replaces the body and nothing else. */
    method SetRequestData(body: Payload)
      modifies this`requestData
      ensures requestData == body
      ensures Valid() <==> old(Valid())
    {
      requestData := body;
    }

    /** `update`: sends the pending request through the session and keeps the
        body and headers of the response, or clears both on transport failure. */
    method Update(net: Transport)
      modifies this`session, this`data, this`headers
      ensures Valid()
      ensures session == old(session) + [Pending()]
      ensures RetainsLatest(net)
      ensures net(session).Some? ==>
                data == Some(net(session).value.text) && headers == Some(net(session).value.headers)
      ensures net(session).None? ==> data.None? && headers.None?
    {
      session := session + [Pending()];
      var response := net(session);
      if response.Some? {
        data := Some(response.value.text);
        headers := Some(response.value.headers);
      } else {
        data := None;
        headers := None;
      }
    }
  }

  /** Two `set_url` calls before a fetch: the later URL is the one requested,
      and the request is otherwise the one that was pending before. */
  method SetUrlTwice(r: RestData, x: string, y: string, net: Transport)
    modifies r
    ensures r.session == old(r.session) + [old(r.Pending()).(url := Some(y))]
  {
    r.SetUrl(x);
    r.SetUrl(y);
    r.Update(net);
  }
}
