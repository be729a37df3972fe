/** `HttpCommunicationProvider`: builds the request for one API action and
    reads the status envelope out of the response, keeping the session
    cookie it is handed (`HttpCommunicationProvider.cs`), and the settings
    bag it reads (`SdkSettings.cs`). The HTTP exchange itself is not
    modelled: the server's response, or the error the transfer raised, is a
    parameter of `ProcessRequest`. */
module HttpCommunication {
  import opened Wrappers
  import opened Text
  import opened StatusInfo
  import XmlTree
  import Helpers

  /** `SdkSettings`: a .NET null string is `None`. */
  class SdkSettings {
    var serviceUrl: Option<string>
    var proxyUrl: Option<string>
    var proxyUser: Option<string>
    var proxyPassword: Option<string>
    var proxyDomain: Option<string>
    var netUser: Option<string>
    var netPassword: Option<string>
    var netDomain: Option<string>
    var useSessionParam: bool

    constructor(serviceUrl: Option<string>, useSessionParam: bool)
      ensures this.serviceUrl == serviceUrl && this.useSessionParam == useSessionParam
      ensures proxyUrl.None? && proxyUser.None? && proxyPassword.None? && proxyDomain.None?
      ensures netUser.None? && netPassword.None? && netDomain.None?
    {
      this.serviceUrl := serviceUrl;
      this.useSessionParam := useSessionParam;
      proxyUrl, proxyUser, proxyPassword, proxyDomain := None, None, None, None;
      netUser, netPassword, netDomain := None, None, None;
    }

    /** The settings the provider reads for one request. */
    function View(): SettingsView
      reads this
    {
      SettingsView(serviceUrl, proxyUrl, proxyUser, proxyPassword, proxyDomain, useSessionParam)
    }
  }

  datatype SettingsView = SettingsView(
    serviceUrl: Option<string>,
    proxyUrl: Option<string>,
    proxyUser: Option<string>,
    proxyPassword: Option<string>,
    proxyDomain: Option<string>,
    useSessionParam: bool)

  /** The name of the Adobe Connect session cookie. */
  const SessionCookieName := "BREEZESESSION"

  datatype Cookie = Cookie(name: string, value: string, path: string, domain: string)

  /** `new WebProxy()`, or a proxy at `address` that bypasses local
      addresses and carries network credentials. */
  datatype Proxy =
    | DefaultProxy
    | CredentialedProxy(address: string, bypassOnLocal: bool, user: string, password: string, domain: Option<string>)

  /** The parts of an `HttpWebRequest` the provider sets. `accept` is null
      (`None`) until configured. */
  datatype WebRequest = WebRequest(
    url: string, proxy: Proxy, cookies: seq<Cookie>, timeoutMs: int, accept: Option<string>, keepAlive: bool)

  /** The session cookie of a response, if it carries one, and the response
      body parsed as XML (`None` for a null response stream). */
  datatype ResponseCookie = ResponseCookie(value: string, domain: string)
  datatype HttpResponse = HttpResponse(sessionCookie: Option<ResponseCookie>, body: Option<XmlTree.XDocument>)

  /** `CreateWebRequest`: the service URL, then `?action=<action>&<params>`;
      a null service URL concatenates as empty. The other fields are the
      defaults of a new `HttpWebRequest`. */
  function CreateWebRequest(action: string, qParams: string, serviceUrl: Option<string>): (r: WebRequest)
    ensures r.proxy == DefaultProxy && r.cookies == [] && r.keepAlive
  {
    WebRequest(OrEmpty(serviceUrl) + ("?action=" + action + "&" + qParams), DefaultProxy, [], 100000, None, true)
  }

  /** `SetProxyCredencials`: a credentialed proxy exactly when the proxy URL,
      user and password are all non-empty. */
  function ProxyFor(proxyUrl: Option<string>, proxyUser: Option<string>, proxyPassword: Option<string>,
                    proxyDomain: Option<string>): (r: Proxy)
    ensures r.CredentialedProxy? <==>
      !IsNullOrEmpty(proxyUrl) && !IsNullOrEmpty(proxyUser) && !IsNullOrEmpty(proxyPassword)
    ensures r.CredentialedProxy? ==>
      r == CredentialedProxy(proxyUrl.value, true, proxyUser.value, proxyPassword.value, proxyDomain)
  {
    if !IsNullOrEmpty(proxyUrl) && !IsNullOrEmpty(proxyUser) && !IsNullOrEmpty(proxyPassword) then
      CredentialedProxy(proxyUrl.value, true, proxyUser.value, proxyPassword.value, proxyDomain)
    else
      DefaultProxy
  }

  /** `SetCookieContainer` on a new container: the stored session goes out
      as a cookie only in cookie mode, and only when both its value and its
      domain are known. */
  function SessionCookies(sessionInfo: string, sessionDomain: string, useSessionParam: bool): (r: seq<Cookie>)
    ensures |r| <= 1
    ensures r != [] <==> !useSessionParam && sessionInfo != "" && sessionDomain != ""
    ensures r != [] ==> r[0] == Cookie(SessionCookieName, sessionInfo, "/", sessionDomain)
  {
    if !useSessionParam && sessionInfo != "" && sessionDomain != "" then
      [Cookie(SessionCookieName, sessionInfo, "/", sessionDomain)]
    else
      []
  }

  /** `SetHttpConfiguration`: a twenty-minute timeout, any content type and
      no keep-alive. */
  function Configure(request: WebRequest): (r: WebRequest)
    ensures r.url == request.url && r.proxy == request.proxy && r.cookies == request.cookies
    ensures r.timeoutMs == 20 * 60 * 1000 && r.accept == Some("*/*") && !r.keepAlive
  {
    request.(timeoutMs := 20000 * 60, accept := Some("*/*"), keepAlive := false)
  }

  /** The request `ProcessRequest` sends. */
  function RequestFor(action: string, qParams: Option<string>, view: SettingsView,
                      sessionInfo: string, sessionDomain: string): WebRequest
  {
    var created := CreateWebRequest(action, OrEmpty(qParams), view.serviceUrl);
    var withProxy := created.(proxy := ProxyFor(view.proxyUrl, view.proxyUser, view.proxyPassword, view.proxyDomain));
    var withCookies := withProxy.(cookies := SessionCookies(sessionInfo, sessionDomain, view.useSessionParam));
    Configure(withCookies)
  }

  /** One call of `ProcessRequest`: the request sent, the result, and the
      session value and domain the provider holds afterwards. */
  datatype Exchange = Exchange(request: WebRequest, result: Result<Option<ApiStatus>>,
                               sessionInfo: string, sessionDomain: string)

  /** What one call does, from the stored session and the server's response.
      A failed transfer is rethrown and changes nothing. In session mode a
      session cookie in the response is stored before the body is read, so
      it is kept even when reading the status then throws. A null body gives
      null; a missing envelope is null in cookie mode and a null dereference
      in session mode, where the stored session value is stamped on it. */
  function Exchanged(action: string, qParams: Option<string>, view: SettingsView,
                     sessionInfo: string, sessionDomain: string, response: Result<HttpResponse>): Exchange
  {
    var request := RequestFor(action, qParams, view, sessionInfo, sessionDomain);
    if response.Failure? then Exchange(request, Failure(response.error), sessionInfo, sessionDomain)
    else
      var http := response.value;
      var captured := view.useSessionParam && http.sessionCookie.Some?;
      var info := if captured then http.sessionCookie.value.value else sessionInfo;
      var domain := if captured then http.sessionCookie.value.domain else sessionDomain;
      if http.body.None? then Exchange(request, Success(None), info, domain)
      else
        var status := Helpers.ResolveStatus(http.body.value);
        if status.Failure? then Exchange(request, status, info, domain)
        else if !view.useSessionParam then Exchange(request, status, info, domain)
        else if status.value.None? then Exchange(request, Failure(NullReference), info, domain)
        else
          var s := status.value.value;
          Exchange(request, Success(Some(s.(info := s.info.(sessionInfo := Some(info))))), info, domain)
  }

  /** The provider: the session cookie value and domain it last received. */
  class HttpCommunicationProvider {
    var sessionInfo: string
    var sessionDomain: string

    constructor()
      ensures sessionInfo == "" && sessionDomain == ""
    {
      sessionInfo, sessionDomain := "", "";
    }

    /** `ProcessRequest(pAction, qParams, settings)`, with the server's
        response as `response`. */
    method ProcessRequest(action: string, qParams: Option<string>, settings: SdkSettings,
                          response: Result<HttpResponse>) returns (request: WebRequest, r: Result<Option<ApiStatus>>)
      modifies this
      ensures Exchanged(action, qParams, settings.View(), old(sessionInfo), old(sessionDomain), response)
        == Exchange(request, r, sessionInfo, sessionDomain)
    {
      var operationApiStatus := ApiStatus(DefaultStatusInfo.(code := StatusCodes.NotSet), None);
      var q := qParams;
      if q.None? {
        q := Some("");
      }
      request := CreateWebRequest(action, q.value, settings.serviceUrl);
      request := request.(proxy := ProxyFor(settings.proxyUrl, settings.proxyUser, settings.proxyPassword, settings.proxyDomain));
      request := request.(cookies := SessionCookies(sessionInfo, sessionDomain, settings.useSessionParam));
      request := Configure(request);

      if response.Failure? {
        return request, Failure(response.error);
      }
      var http := response.value;
      if settings.useSessionParam {
        if http.sessionCookie.Some? {
          sessionInfo := http.sessionCookie.value.value;
          sessionDomain := http.sessionCookie.value.domain;
        }
      }
      if http.body.None? {
        return request, Success(None);
      }
      var resolved := Helpers.ResolveOperationStatusFlags(http.body.value);
      if resolved.Failure? {
        return request, resolved;
      }
      if settings.useSessionParam {
        if resolved.value.None? {
          return request, Failure(NullReference);
        }
        operationApiStatus := resolved.value.value;
        operationApiStatus := operationApiStatus.(info := operationApiStatus.info.(sessionInfo := Some(sessionInfo)));
        return request, Success(Some(operationApiStatus));
      }
      r := resolved;
    }
  }

  // ---------------------------------------------------------------------
  // What one exchange promises.

  /** The URL is the service URL followed by a query whose first parameter
      is the action and whose remaining parameters are those of `qParams`
      (a null `qParams` sending none). */
  lemma RequestQuery(action: string, qParams: Option<string>, view: SettingsView, sessionInfo: string, sessionDomain: string)
    requires Helpers.NoSeparators(action)
    ensures var url := RequestFor(action, qParams, view, sessionInfo, sessionDomain).url;
      var base := OrEmpty(view.serviceUrl);
      |base| <= |url| && url[..|base|] == base &&
      Helpers.ParseQuery(url[|base|..]) == [("action", action)] + Helpers.ParseQuery("&" + OrEmpty(qParams))
  {
    var url := RequestFor(action, qParams, view, sessionInfo, sessionDomain).url;
    assert url == CreateWebRequest(action, OrEmpty(qParams), view.serviceUrl).url;
    UrlQuery(OrEmpty(view.serviceUrl), action, OrEmpty(qParams));
  }

  lemma UrlQuery(base: string, action: string, q: string)
    requires Helpers.NoSeparators(action)
    ensures var url := base + ("?action=" + action + "&" + q);
      |base| <= |url| && url[..|base|] == base &&
      Helpers.ParseQuery(url[|base|..]) == [("action", action)] + Helpers.ParseQuery("&" + q)
  {
    var query := "?action=" + action + "&" + q;
    QueryLayout(base, query, action, q);
    ParseLeading('?', "action", action, "&" + q);
  }

  lemma QueryLayout(base: string, query: string, action: string, q: string)
    requires query == "?action=" + action + "&" + q
    ensures (base + query)[|base|..] == query && (base + query)[..|base|] == base
    ensures query == ['?'] + ("action" + "=" + action + ("&" + q))
  {
    assert (base + query)[|base|..] == query;
  }

  /** A parameter after any leading character. */
  lemma ParseLeading(c: char, n: string, v: string, tail: string)
    requires Helpers.NoSeparators(n) && Helpers.NoSeparators(v)
    requires tail == [] || tail[0] == '&'
    ensures Helpers.ParseQuery([c] + (n + "=" + v + tail)) == [(n, v)] + Helpers.ParseQuery(tail)
  {
    Helpers.ParseOne(n, v, tail);
    FrontSplit('&', n, "=", v, tail);
    LeadingSeparatorIgnored(c, '&', n + "=" + v + tail);
  }

  lemma FrontSplit(c: char, a: string, b: string, d: string, e: string)
    ensures [c] + a + b + d + e == [c] + (a + b + d + e)
  {}

  /** The server reads the parameters after the first character, whatever
      that character is. */
  lemma LeadingSeparatorIgnored(c: char, d: char, rest: string)
    ensures Helpers.ParseQuery([c] + rest) == Helpers.ParseQuery([d] + rest)
  {
    assert ([c] + rest)[1..] == rest;
    assert ([d] + rest)[1..] == rest;
  }

  /** The request carries the configured headers, the proxy the settings
      call for, and the session cookie exactly in cookie mode with a known
      session. */
  lemma RequestShape(action: string, qParams: Option<string>, view: SettingsView, sessionInfo: string, sessionDomain: string)
    ensures var request := RequestFor(action, qParams, view, sessionInfo, sessionDomain);
      request.timeoutMs == 1200000 && request.accept == Some("*/*") && !request.keepAlive &&
      request.proxy == ProxyFor(view.proxyUrl, view.proxyUser, view.proxyPassword, view.proxyDomain) &&
      (request.cookies != [] <==> !view.useSessionParam && sessionInfo != "" && sessionDomain != "")
  {}

  /** A status read from a response carries no session value of its own. */
  lemma {:induction false} ResolvedHasNoSession(doc: XmlTree.XDocument)
    ensures var s := Helpers.ResolveStatus(doc);
      s.Success? && s.value.Some? ==> s.value.value.info.sessionInfo.None?
  {
    match XmlTree.DocumentFind(doc, "status")
    case None =>
    case Some(hit) =>
      var e := Helpers.ReadEnvelope(hit);
      if e.Success? {
        var code := Helpers.ReadCode(hit.element).value;
        var invalid := Helpers.ReadInvalid(hit.element).value;
        assert e.value.info == DefaultStatusInfo.(code := code, subCode := invalid.0, invalidField := invalid.1,
                                                   exception := Helpers.ReadException(hit.element));
      }
  }

  /** The session value is stamped on the returned status exactly in
      session mode, and it is then the value the provider holds. */
  lemma SessionStampedOnlyInSessionMode(action: string, qParams: Option<string>, view: SettingsView,
                                        sessionInfo: string, sessionDomain: string, response: Result<HttpResponse>)
    ensures var e := Exchanged(action, qParams, view, sessionInfo, sessionDomain, response);
      e.result.Success? && e.result.value.Some? ==>
        (e.result.value.value.info.sessionInfo.Some? <==> view.useSessionParam) &&
        (view.useSessionParam ==> e.result.value.value.info.sessionInfo == Some(e.sessionInfo))
  {
    if response.Success? && response.value.body.Some? {
      ResolvedHasNoSession(response.value.body.value);
    }
  }

  /** The stored session changes only in session mode, only to the cookie
      of a response, and a failed transfer changes nothing. */
  lemma SessionCapturedOnlyInSessionMode(action: string, qParams: Option<string>, view: SettingsView,
                                         sessionInfo: string, sessionDomain: string, response: Result<HttpResponse>)
    ensures var e := Exchanged(action, qParams, view, sessionInfo, sessionDomain, response);
      ((e.sessionInfo, e.sessionDomain) != (sessionInfo, sessionDomain) ==>
        view.useSessionParam && response.Success? && response.value.sessionCookie.Some?) &&
      (view.useSessionParam && response.Success? && response.value.sessionCookie.Some? ==>
        e.sessionInfo == response.value.sessionCookie.value.value &&
        e.sessionDomain == response.value.sessionCookie.value.domain)
  {}

  /** Several calls in a row, each with its action, parameters and response:
      the requests sent, and the session held at the end. */
  datatype Call = Call(action: string, qParams: Option<string>, response: Result<HttpResponse>)

  function Requests(calls: seq<Call>, view: SettingsView, sessionInfo: string, sessionDomain: string): (r: seq<WebRequest>)
    ensures |r| == |calls|
    decreases |calls|
  {
    if calls == [] then []
    else
      var e := Exchanged(calls[0].action, calls[0].qParams, view, sessionInfo, sessionDomain, calls[0].response);
      [e.request] + Requests(calls[1..], view, e.sessionInfo, e.sessionDomain)
  }

  /** In cookie mode the provider never stores a session (only session mode
      reads the response cookie), so a provider that starts empty never
      sends a session cookie, whatever the server answers. */
  lemma {:induction false} CookieModeNeverSendsCookie(calls: seq<Call>, view: SettingsView)
    requires !view.useSessionParam
    ensures forall k :: 0 <= k < |calls| ==> Requests(calls, view, "", "")[k].cookies == []
    decreases |calls|
  {
    if calls != [] {
      var e := Exchanged(calls[0].action, calls[0].qParams, view, "", "", calls[0].response);
      SessionCapturedOnlyInSessionMode(calls[0].action, calls[0].qParams, view, "", "", calls[0].response);
      assert e.sessionInfo == "" && e.sessionDomain == "";
      CookieModeNeverSendsCookie(calls[1..], view);
      var r := Requests(calls, view, "", "");
      assert r == [e.request] + Requests(calls[1..], view, "", "");
      forall k | 0 <= k < |calls|
        ensures r[k].cookies == []
      {
        if k > 0 {
          assert r[k] == Requests(calls[1..], view, "", "")[k - 1];
        }
      }
    }
  }
}
