/** `AdobeConnectXmlAPI`: the façade that holds the session, adds it to each
    request's parameters, and runs `login`, `logout`, `sco-update` and
    `sco-delete` (`AdobeConnectXmlAPI.cs`). Requests go to the
    `HttpCommunicationProvider` it was built with; the server's responses are
    parameters. `Uri.GetComponents(SchemeAndServer)` is a parameter too. */
module AdobeConnect {
  import opened Wrappers
  import opened Text
  import opened StatusInfo
  import Helpers
  import XmlTree
  import opened HttpCommunication
  import opened SerializerCaches
  import opened MeetingUpdateItems

  // ---------------------------------------------------------------------
  // The service URL.

  const ApiPath := "/api/xml"

  /** The constructor's rewrite of `ServiceURL`: trailing `/` and `?`
      removed, then `/api/xml` appended unless it is already there. */
  function NormalizeServiceUrl(url: string): (r: string)
    ensures EndsWith(r, ApiPath)
  {
    var trimmed := TrimEnd(url, {'/', '?'});
    if EndsWith(trimmed, ApiPath) then trimmed else trimmed + ApiPath
  }

  /** Normalising a normalised URL changes nothing. */
  lemma NormalizeIdempotent(url: string)
    ensures NormalizeServiceUrl(NormalizeServiceUrl(url)) == NormalizeServiceUrl(url)
  {
    var r := NormalizeServiceUrl(url);
    assert r[|r| - 1] == ApiPath[|ApiPath| - 1] == 'l';
    assert TrimEnd(r, {'/', '?'}) == r;
  }

  /** A URL that already ends in `/api/xml` with nothing after it is kept as is. */
  lemma NormalizeKeepsApiUrl(url: string)
    requires EndsWith(url, ApiPath)
    ensures NormalizeServiceUrl(url) == url
  {
    assert url[|url| - 1] == 'l';
  }

  // ---------------------------------------------------------------------
  // Request parameters.

  /** `ProcessApiRequest`'s parameters: in session mode with a held session,
      `session=<s>` first, alone when there are no other parameters. */
  function SessionParams(sessionInfo: Option<string>, useSessionParam: bool, apiParams: Option<string>): (r: Option<string>)
    ensures IsNullOrEmpty(sessionInfo) || !useSessionParam ==> r == apiParams
    ensures !IsNullOrEmpty(sessionInfo) && useSessionParam && IsNullOrEmpty(apiParams) ==>
      r == Some("session=" + sessionInfo.value)
    ensures !IsNullOrEmpty(sessionInfo) && useSessionParam && !IsNullOrEmpty(apiParams) ==>
      r == Some("session=" + sessionInfo.value + "&" + apiParams.value)
  {
    if !IsNullOrEmpty(sessionInfo) && useSessionParam then
      if IsNullOrEmpty(apiParams) then Some("session=" + sessionInfo.value)
      else Some("session=" + sessionInfo.value + "&" + apiParams.value)
    else apiParams
  }

  /** The server reads the session first and then the caller's parameters,
      unchanged; with no parameters of its own, the session alone. */
  lemma SessionParamsRead(session: string, apiParams: Option<string>)
    requires session != [] && Helpers.NoSeparators(session)
    ensures var r := SessionParams(Some(session), true, apiParams);
      r.Some? &&
      (IsNullOrEmpty(apiParams) ==> Helpers.ParseQuery("&" + r.value) == [("session", session)]) &&
      (!IsNullOrEmpty(apiParams) ==>
        Helpers.ParseQuery("&" + r.value) == [("session", session)] + Helpers.ParseQuery("&" + apiParams.value))
  {
    var r := SessionParams(Some(session), true, apiParams);
    if IsNullOrEmpty(apiParams) {
      assert "&" + r.value == "&" + "session" + "=" + session + [];
      Helpers.ParseOne("session", session, []);
      assert Helpers.ParseQuery([]) == [];
    } else {
      var tail := "&" + apiParams.value;
      assert "&" + r.value == "&" + "session" + "=" + session + tail;
      Helpers.ParseOne("session", session, tail);
    }
  }

  /** `string.Format("login={0}&password={1}", ...)`; null renders as empty. */
  function LoginParams(userName: Option<string>, userPassword: Option<string>): string {
    "login=" + OrEmpty(userName) + "&password=" + OrEmpty(userPassword)
  }

  /** The server reads back the user name and the password, in that order. */
  lemma LoginParamsRead(userName: Option<string>, userPassword: Option<string>)
    requires Helpers.NoSeparators(OrEmpty(userName)) && Helpers.NoSeparators(OrEmpty(userPassword))
    ensures Helpers.ParseQuery("&" + LoginParams(userName, userPassword))
      == [("login", OrEmpty(userName)), ("password", OrEmpty(userPassword))]
  {
    var u, p := OrEmpty(userName), OrEmpty(userPassword);
    LoginLayout(u, p);
    TwoParamsRead("login", u, "password", p);
  }

  lemma LoginLayout(u: string, p: string)
    ensures "&" + ("login=" + u + "&password=" + p) == "&" + "login" + "=" + u + "&" + "password" + "=" + p
  {}

  /** Two rendered parameters read back as those two. */
  lemma TwoParamsRead(n1: string, v1: string, n2: string, v2: string)
    requires Helpers.NoSeparators(n1) && Helpers.NoSeparators(v1) && Helpers.NoSeparators(n2) && Helpers.NoSeparators(v2)
    ensures Helpers.ParseQuery("&" + n1 + "=" + v1 + "&" + n2 + "=" + v2) == [(n1, v1), (n2, v2)]
  {
    var first := "&" + n1 + "=" + v1;
    var second := "&" + n2 + "=" + v2;
    Helpers.ParseOne(n2, v2, []);
    assert second + [] == second;
    Helpers.ParseOne(n1, v1, second);
    assert first + "&" + n2 + "=" + v2 == first + second;
    assert Helpers.ParseQuery([]) == [];
  }

  // ---------------------------------------------------------------------
  // `ScoDelete` / `PrincipalDelete`: each id rewritten in place as `name=id`.

  /** The rewritten array: each element `prefix` followed by the old element
      (a null element concatenating as empty). */
  function Prefixed(prefix: string, parts: seq<Option<string>>): (r: seq<Option<string>>)
    ensures |r| == |parts|
    ensures forall i :: 0 <= i < |parts| ==> r[i] == Some(prefix + OrEmpty(parts[i]))
  {
    seq(|parts|, i requires 0 <= i < |parts| => Some(prefix + OrEmpty(parts[i])))
  }

  /** The loop `ids[i] = prefix + ids[i]`. */
  method PrefixEach(ids: array<Option<string>>, prefix: string)
    modifies ids
    ensures ids[..] == Prefixed(prefix, old(ids[..]))
  {
    var i := 0;
    while i < ids.Length
      invariant 0 <= i <= ids.Length
      invariant forall k :: 0 <= k < i ==> ids[k] == Some(prefix + OrEmpty(old(ids[k])))
      invariant forall k :: i <= k < ids.Length ==> ids[k] == old(ids[k])
    {
      ids[i] := Some(prefix + OrEmpty(ids[i]));
      i := i + 1;
    }
  }

  /** `string.Join("&", ids)`, null elements rendering as empty. */
  function JoinParams(parts: seq<Option<string>>): string {
    Join("&", seq(|parts|, i requires 0 <= i < |parts| => OrEmpty(parts[i])))
  }

  /** The name/value pairs a joined, prefixed id list carries. */
  function IdParams(name: string, ids: seq<string>): (r: seq<(string, string)>)
    ensures |r| == |ids|
    ensures forall i :: 0 <= i < |ids| ==> r[i] == (name, ids[i])
  {
    seq(|ids|, i requires 0 <= i < |ids| => (name, ids[i]))
  }

  function NonNull(ids: seq<Option<string>>): seq<string> {
    seq(|ids|, i requires 0 <= i < |ids| => OrEmpty(ids[i]))
  }

  /** The `name=id` strings of a list of ids. */
  function Assignments(name: string, ids: seq<string>): (r: seq<string>)
    ensures |r| == |ids|
    ensures forall i :: 0 <= i < |ids| ==> r[i] == name + "=" + ids[i]
  {
    seq(|ids|, i requires 0 <= i < |ids| => name + "=" + ids[i])
  }

  /** The joined `name=id` list reads back as one `name` parameter per id,
      in array order, provided no id contains `&` or `=`. */
  lemma {:induction false} PrefixedIdsRead(name: string, ids: seq<string>)
    requires ids != []
    requires Helpers.NoSeparators(name)
    requires forall i :: 0 <= i < |ids| ==> Helpers.NoSeparators(ids[i])
    ensures Helpers.ParseQuery("&" + Join("&", Assignments(name, ids))) == IdParams(name, ids)
    decreases |ids|
  {
    var parts := Assignments(name, ids);
    if |ids| == 1 {
      Helpers.ParseOne(name, ids[0], []);
      assert "&" + name + "=" + ids[0] + [] == "&" + name + "=" + ids[0];
      assert "&" + (name + "=" + ids[0]) == "&" + name + "=" + ids[0];
      assert Helpers.ParseQuery([]) == [];
      assert IdParams(name, ids) == [(name, ids[0])];
    } else {
      AssignmentsTail(name, ids);
      PrefixedIdsRead(name, ids[1..]);
      var rest := Join("&", Assignments(name, ids[1..]));
      JoinFirst(name, ids[0], Assignments(name, ids[1..]));
      Helpers.ParseOne(name, ids[0], "&" + rest);
      IdParamsTail(name, ids);
    }
  }

  lemma AssignmentsTail(name: string, ids: seq<string>)
    requires ids != []
    ensures Assignments(name, ids) == [name + "=" + ids[0]] + Assignments(name, ids[1..])
  {}

  lemma IdParamsTail(name: string, ids: seq<string>)
    requires ids != []
    ensures IdParams(name, ids) == [(name, ids[0])] + IdParams(name, ids[1..])
  {}

  /** Joining an assignment in front of a non-empty list. */
  lemma JoinFirst(name: string, id: string, rest: seq<string>)
    requires rest != []
    ensures "&" + Join("&", [name + "=" + id] + rest) == "&" + name + "=" + id + ("&" + Join("&", rest))
  {
    var parts := [name + "=" + id] + rest;
    assert parts[1..] == rest;
    assert Join("&", parts) == name + "=" + id + "&" + Join("&", rest);
    assert "&" + name + "=" + id + "&" + Join("&", rest) == "&" + name + "=" + id + ("&" + Join("&", rest));
  }

  /** The joined rewritten array is the joined `name=id` list. */
  lemma JoinPrefixed(name: string, parts: seq<Option<string>>)
    ensures JoinParams(Prefixed(name + "=", parts)) == Join("&", Assignments(name, NonNull(parts)))
  {
    var a := seq(|parts|, i requires 0 <= i < |parts| => OrEmpty(Prefixed(name + "=", parts)[i]));
    var b := Assignments(name, NonNull(parts));
    forall i | 0 <= i < |parts|
      ensures a[i] == b[i]
    {
      assert Prefixed(name + "=", parts)[i] == Some(name + "=" + OrEmpty(parts[i]));
    }
    assert a == b;
  }

  // ---------------------------------------------------------------------
  // `Login` and `Logout`.

  /** What `Login` returns and the session it holds afterwards. A null
      status is dereferenced. The call succeeds, and the session is kept,
      only when the code is OK and the status carries a session. */
  function LoginResult(status: Result<Option<ApiStatus>>, held: Option<string>): (r: (Result<TypedStatus<bool>>, Option<string>))
    ensures status.Failure? ==> r.0 == Failure(status.error) && r.1 == held
    ensures status == Success(None) ==> r.0 == Failure(NullReference) && r.1 == held
    ensures r.0.Success? ==> status.Success? && status.value.Some? && r.0.value.info == status.value.value.info
    ensures r.0.Success? && r.0.value.result <==>
      status.Success? && status.value.Some? && status.value.value.info.code == StatusCodes.OK &&
      !IsNullOrEmpty(status.value.value.info.sessionInfo)
    ensures r.0.Success? && r.0.value.result ==> r.1 == status.value.value.info.sessionInfo
    ensures !(r.0.Success? && r.0.value.result) ==> r.1 == held
  {
    if status.Failure? then (Failure(status.error), held)
    else
      var wrapped := Helpers.WrapBaseStatusInfo(status.value, false);
      if wrapped.Failure? then (Failure(wrapped.error), held)
      else
        var s := status.value.value;
        if s.info.code != StatusCodes.OK || IsNullOrEmpty(s.info.sessionInfo) then (wrapped, held)
        else (Success(wrapped.value.(result := true)), s.info.sessionInfo)
  }

  /** What `Logout` returns and the session held afterwards: cleared (null)
      exactly when the code is OK. */
  function LogoutResult(status: Result<Option<ApiStatus>>, held: Option<string>): (r: (Result<bool>, Option<string>))
    ensures status.Failure? ==> r == (Failure(status.error), held)
    ensures status == Success(None) ==> r == (Failure(NullReference), held)
    ensures status.Success? && status.value.Some? ==>
      r.0 == Success(status.value.value.info.code == StatusCodes.OK) &&
      r.1 == (if status.value.value.info.code == StatusCodes.OK then None else held)
  {
    if status.Failure? then (Failure(status.error), held)
    else if status.value.None? then (Failure(NullReference), held)
    else if status.value.value.info.code == StatusCodes.OK then (Success(true), None)
    else (Success(false), held)
  }

  /** With the default provider in cookie mode, no status carries a session,
      so `Login` never reports success and never stores a session. */
  lemma CookieModeLoginNeverSucceeds(held: Option<string>, userName: Option<string>, userPassword: Option<string>,
                                     view: SettingsView, providerSession: string, providerDomain: string,
                                     response: Result<HttpResponse>)
    requires !view.useSessionParam
    ensures var e := Exchanged("login", SessionParams(held, false, Some(LoginParams(userName, userPassword))),
                               view, providerSession, providerDomain, response);
      var r := LoginResult(e.result, held);
      !(r.0.Success? && r.0.value.result) && r.1 == held
  {
    var e := Exchanged("login", SessionParams(held, false, Some(LoginParams(userName, userPassword))),
                       view, providerSession, providerDomain, response);
    SessionStampedOnlyInSessionMode("login", SessionParams(held, false, Some(LoginParams(userName, userPassword))),
                                    view, providerSession, providerDomain, response);
    assert e.result.Success? && e.result.value.Some? ==> e.result.value.value.info.sessionInfo.None?;
  }

  /** In session mode a successful `login` stores the session cookie the
      provider captured from that very response. */
  lemma SessionModeLoginStoresCookie(held: Option<string>, userName: Option<string>, userPassword: Option<string>,
                                     view: SettingsView, providerSession: string, providerDomain: string,
                                     response: Result<HttpResponse>)
    requires view.useSessionParam
    ensures var e := Exchanged("login", SessionParams(held, true, Some(LoginParams(userName, userPassword))),
                               view, providerSession, providerDomain, response);
      var r := LoginResult(e.result, held);
      r.0.Success? && r.0.value.result ==> r.1 == Some(e.sessionInfo) && e.sessionInfo != ""
  {
    SessionStampedOnlyInSessionMode("login", SessionParams(held, true, Some(LoginParams(userName, userPassword))),
                                    view, providerSession, providerDomain, response);
  }

  // ---------------------------------------------------------------------
  // `ScoUpdate`.

  /** The fields of `MeetingDetail` that `ScoUpdate` reads or sets. */
  datatype MeetingDetail = MeetingDetail(scoId: Option<string>, folderId: Option<string>, name: Option<string>,
                                         urlPath: Option<string>, fullUrl: Option<string>)

  const MeetingDetailType := TypeName("MeetingDetail")

  /** The `catch` block of `ScoUpdate` as written. When deserialization
      threw, `meetingDetail` is still null, so `meetingDetail.ScoId` throws a
      null dereference that replaces the original exception. Otherwise the
      meeting is deleted when it has an id (an exception from that request
      escapes instead) and the original exception is rethrown. The status
      fields the block sets are lost with the rethrow. */
  function ScoUpdateCatchAsWritten(detail: Option<MeetingDetail>, original: Error,
                                   rollback: Result<Option<ApiStatus>>): Error
  {
    if detail.None? then NullReference
    else if !IsNullOrEmpty(detail.value.scoId) && rollback.Failure? then rollback.error
    else original
  }

  /** The `catch` block as evidently intended: without a meeting there is
      nothing to roll back, and the original exception is rethrown. */
  function ScoUpdateCatch(detail: Option<MeetingDetail>, original: Error, rollback: Result<Option<ApiStatus>>): (r: Error)
    ensures detail.None? || IsNullOrEmpty(detail.value.scoId) || rollback.Success? ==> r == original
    ensures detail.Some? ==> r == ScoUpdateCatchAsWritten(detail, original, rollback)
  {
    if detail.None? then original
    else ScoUpdateCatchAsWritten(detail, original, rollback)
  }

  /** A deserialization failure surfaces as a null dereference, not as the
      error the serializer raised. */
  lemma ScoUpdateCatchLosesError(rollback: Result<Option<ApiStatus>>)
    ensures ScoUpdateCatchAsWritten(None, Serialization("bad sco"), rollback) == NullReference
    ensures ScoUpdateCatch(None, Serialization("bad sco"), rollback) == Serialization("bad sco")
  {}

  /** `sco-update` reports exactly the error that made reading the meeting
      fail, unless the rollback request itself failed. */
  lemma ScoUpdateCatchKeepsError(detail: Option<MeetingDetail>, original: Error, rollback: Result<Option<ApiStatus>>)
    ensures ScoUpdateCatch(detail, original, rollback) == original ||
      (detail.Some? && !IsNullOrEmpty(detail.value.scoId) && rollback.Failure? &&
       ScoUpdateCatch(detail, original, rollback) == rollback.error)
  {}

  /** The status after a `sco-update` request, before the meeting is read:
      null is dereferenced; any status that is not OK, or has no result
      document, or no `sco` element in it, is returned as it is. */
  function ScoUpdateEarlyExit(status: Result<Option<ApiStatus>>): (r: Option<Result<Option<ApiStatus>>>)
    ensures status.Failure? ==> r == Some(status)
    ensures status == Success(None) ==> r == Some(Failure(NullReference))
    ensures r.None? <==>
      (status.Success? && status.value.Some? && status.value.value.info.code == StatusCodes.OK &&
       status.value.value.resultDocument.Some? &&
       XmlTree.DocumentFind(status.value.value.resultDocument.value, "sco").Some?)
    ensures r.Some? && status.Success? && status.value.Some? ==> r == Some(status)
  {
    if status.Failure? then Some(status)
    else if status.value.None? then Some(Failure(NullReference))
    else
      var s := status.value.value;
      if s.info.code != StatusCodes.OK || s.resultDocument.None? then Some(status)
      else if XmlTree.DocumentFind(s.resultDocument.value, "sco").None? then Some(status)
      else None
  }

  class AdobeConnectXmlApi {
    var sessionInfo: Option<string>
    const provider: HttpCommunicationProvider
    const settings: SdkSettings

    /** The constructor after its argument checks: the service URL is
        normalised in the caller's settings object. */
    constructor(provider: HttpCommunicationProvider, settings: SdkSettings)
      requires !IsNullOrEmpty(settings.serviceUrl)
      modifies settings
      ensures this.provider == provider && this.settings == settings && sessionInfo == Some("")
      ensures settings.serviceUrl == Some(NormalizeServiceUrl(old(settings.serviceUrl.value)))
      ensures settings.View() == old(settings.View()).(serviceUrl := settings.serviceUrl)
      ensures settings.netUser == old(settings.netUser) && settings.netPassword == old(settings.netPassword)
    {
      this.provider := provider;
      this.settings := settings;
      sessionInfo := Some("");
      new;
      var url := TrimEnd(settings.serviceUrl.value, {'/', '?'});
      settings.serviceUrl := Some(url);
      if !EndsWith(url, ApiPath) {
        settings.serviceUrl := Some(url + ApiPath);
      }
    }

    /** `ProcessApiRequest`: the session added to the parameters, then the
        provider's request. */
    method ProcessApiRequest(action: string, apiParams: Option<string>, response: Result<HttpResponse>)
      returns (request: WebRequest, r: Result<Option<ApiStatus>>)
      modifies provider
      ensures Exchanged(action, SessionParams(sessionInfo, settings.useSessionParam, apiParams), settings.View(),
                        old(provider.sessionInfo), old(provider.sessionDomain), response)
        == Exchange(request, r, provider.sessionInfo, provider.sessionDomain)
    {
      var p := apiParams;
      if !IsNullOrEmpty(sessionInfo) && settings.useSessionParam {
        if IsNullOrEmpty(p) {
          p := Some("session=" + sessionInfo.value);
        } else {
          p := Some("session=" + sessionInfo.value + "&" + p.value);
        }
      }
      request, r := provider.ProcessRequest(action, p, settings, response);
    }

    /** `Login(userName, userPassword)`. */
    method Login(userName: Option<string>, userPassword: Option<string>, response: Result<HttpResponse>)
      returns (r: Result<TypedStatus<bool>>)
      requires provider != settings as object
      modifies this, provider
      ensures var e := Exchanged("login", SessionParams(old(sessionInfo), settings.useSessionParam,
                                                         Some(LoginParams(userName, userPassword))),
                                 settings.View(), old(provider.sessionInfo), old(provider.sessionDomain), response);
        (r, sessionInfo) == LoginResult(e.result, old(sessionInfo)) &&
        provider.sessionInfo == e.sessionInfo && provider.sessionDomain == e.sessionDomain
    {
      var _, s := ProcessApiRequest("login", Some(LoginParams(userName, userPassword)), response);
      if s.Failure? {
        return Failure(s.error);
      }
      var loginStatus := Helpers.WrapBaseStatusInfo(s.value, false);
      if loginStatus.Failure? {
        return loginStatus;
      }
      var status := s.value.value;
      if status.info.code != StatusCodes.OK || IsNullOrEmpty(status.info.sessionInfo) {
        return loginStatus;
      }
      sessionInfo := status.info.sessionInfo;
      r := Success(loginStatus.value.(result := true));
    }

    /** `Login()`: the credentials from the settings. */
    method LoginWithSettings(response: Result<HttpResponse>) returns (r: Result<TypedStatus<bool>>)
      requires provider != settings as object
      modifies this, provider
      ensures var e := Exchanged("login", SessionParams(old(sessionInfo), settings.useSessionParam,
                                                         Some(LoginParams(settings.netUser, settings.netPassword))),
                                 settings.View(), old(provider.sessionInfo), old(provider.sessionDomain), response);
        (r, sessionInfo) == LoginResult(e.result, old(sessionInfo))
    {
      r := Login(settings.netUser, settings.netPassword, response);
    }

    /** `Logout()`. */
    method Logout(response: Result<HttpResponse>) returns (r: Result<bool>)
      requires provider != settings as object
      modifies this, provider
      ensures var e := Exchanged("logout", SessionParams(old(sessionInfo), settings.useSessionParam, None),
                                 settings.View(), old(provider.sessionInfo), old(provider.sessionDomain), response);
        (r, sessionInfo) == LogoutResult(e.result, old(sessionInfo))
    {
      var _, s := ProcessApiRequest("logout", None, response);
      if s.Failure? {
        return Failure(s.error);
      }
      if s.value.None? {
        return Failure(NullReference);
      }
      if s.value.value.info.code == StatusCodes.OK {
        sessionInfo := None;
        return Success(true);
      }
      r := Success(false);
    }

    /** `ScoDelete(scoId)`: a null array is dereferenced; otherwise every
        element is rewritten in place as `sco-id=<id>` and the elements are
        sent joined by `&`. */
    method ScoDelete(scoId: array?<Option<string>>, response: Result<HttpResponse>)
      returns (r: Result<Option<ApiStatus>>)
      requires scoId != null ==> scoId as object != provider && scoId as object != settings
      modifies scoId, provider
      ensures scoId == null ==> r == Failure(NullReference) && unchanged(provider)
      ensures scoId != null ==>
        scoId[..] == Prefixed("sco-id=", old(scoId[..])) && Sent("sco-delete", Some(JoinParams(scoId[..])), response, r)
    {
      if scoId == null {
        return Failure(NullReference);
      }
      PrefixEach(scoId, "sco-id=");
      var _, s := ProcessApiRequest("sco-delete", Some(JoinParams(scoId[..])), response);
      r := s;
    }

    /** `ResolveFullUrl`: empty for an empty path, otherwise the scheme and
        server of the service URL followed by the path. */
    function ResolveFullUrl(urlPath: Option<string>, schemeAndServer: string -> Result<string>): (r: Result<string>)
      reads settings
      ensures IsNullOrEmpty(urlPath) ==> r == Success("")
      ensures !IsNullOrEmpty(urlPath) && settings.serviceUrl.None? ==> r.Failure?
      ensures !IsNullOrEmpty(urlPath) && settings.serviceUrl.Some? ==>
        (r.Success? <==> schemeAndServer(settings.serviceUrl.value).Success?) &&
        (r.Success? ==> r.value == schemeAndServer(settings.serviceUrl.value).value + urlPath.value &&
                        EndsWith(r.value, urlPath.value))
    {
      if IsNullOrEmpty(urlPath) then Success("")
      else if settings.serviceUrl.None? then Failure(ArgumentNull("uriString"))
      else
        var server := schemeAndServer(settings.serviceUrl.value);
        if server.Failure? then Failure(server.error)
        else
          assert (server.value + urlPath.value)[|server.value|..] == urlPath.value;
          Success(server.value + urlPath.value)
    }

    /** One request `action` with parameters `apiParams`, the session
        added as `ProcessApiRequest` adds it: `r` is its result and the
        provider holds the session the exchange leaves. */
    twostate predicate Sent(new action: string, new apiParams: Option<string>, new response: Result<HttpResponse>,
                            new r: Result<Option<ApiStatus>>)
      reads this, provider, settings
    {
      var e := Exchanging(action, apiParams, response);
      r == e.result && provider.sessionInfo == e.sessionInfo && provider.sessionDomain == e.sessionDomain
    }

    /** The exchange `ProcessApiRequest(action, apiParams)` makes from the
        provider's earlier session. */
    twostate function Exchanging(new action: string, new apiParams: Option<string>, new response: Result<HttpResponse>): Exchange
      reads this, provider, settings
    {
      Exchanged(action, SessionParams(sessionInfo, settings.useSessionParam, apiParams), settings.View(),
                old(provider.sessionInfo), old(provider.sessionDomain), response)
    }

    /** What `ScoUpdate` does. A null item returns null and sends nothing.
        Otherwise the item's fields go out as `sco-update`; an early exit
        (see `ScoUpdateEarlyExit`) returns its status, with no meeting and
        the serializer cache untouched; past it, `ReadOutcome` describes the
        meeting read back, and a success returns the request's status. */
    twostate predicate ScoUpdated(item: MeetingUpdateItem?, new formats: Helpers.Formats, cache: SerializerCache,
                                  new response: Result<HttpResponse>, new rollbackResponse: Result<HttpResponse>,
                                  new deserialize: (Serializer, XmlTree.XNode) -> Result<MeetingDetail>,
                                  new schemeAndServer: string -> Result<string>,
                                  new r: Result<Option<ApiStatus>>, new meetingDetail: Option<MeetingDetail>)
      reads this, provider, settings, cache, item
    {
      (item == null ==> r == Success(None) && meetingDetail.None? && unchanged(provider) && unchanged(cache)) &&
      (item != null ==>
        var e := Exchanged("sco-update", SessionParams(sessionInfo, settings.useSessionParam,
                                                       Some(Helpers.QueryFrom(item.Fields(), 0, true, formats))),
                           settings.View(), old(provider.sessionInfo), old(provider.sessionDomain), response);
        (ScoUpdateEarlyExit(e.result).Some? ==>
           r == ScoUpdateEarlyExit(e.result).value && meetingDetail.None? &&
           provider.sessionInfo == e.sessionInfo && provider.sessionDomain == e.sessionDomain &&
           unchanged(cache)) &&
        (ScoUpdateEarlyExit(e.result).None? ==>
           (r.Success? ==> r == e.result) &&
           ReadOutcome(XmlTree.DocumentFind(e.result.value.value.resultDocument.value, "sco").value.element,
                       old(cache.Entries()), old(cache.constructed), cache.Entries(), cache.constructed,
                       e.sessionInfo, e.sessionDomain, provider.sessionInfo, provider.sessionDomain, rollbackResponse,
                       r.Failure?, if r.Failure? then r.error else NullReference, meetingDetail,
                       deserialize, schemeAndServer)))
    }

    /** `ScoUpdate(meetingUpdateItem, out meetingDetail)`. The second
        response answers the rollback `sco-delete`, sent only when reading
        the meeting fails after it was deserialized. */
    method ScoUpdate(item: MeetingUpdateItem?, formats: Helpers.Formats, cache: SerializerCache,
                     response: Result<HttpResponse>, rollbackResponse: Result<HttpResponse>,
                     deserialize: (Serializer, XmlTree.XNode) -> Result<MeetingDetail>,
                     schemeAndServer: string -> Result<string>)
      returns (r: Result<Option<ApiStatus>>, meetingDetail: Option<MeetingDetail>)
      requires cache.Valid()
      requires provider as object != cache && settings as object != cache && provider as object != settings
      modifies provider, cache
      ensures cache.Valid()
      ensures ScoUpdated(item, formats, cache, response, rollbackResponse, deserialize, schemeAndServer, r, meetingDetail)
    {
      meetingDetail := None;
      if item == null {
        return Success(None), None;
      }
      var cmdParams := Helpers.StructToQueryString(Some(item.Fields()), true, formats);
      var _, s := ProcessApiRequest("sco-update", cmdParams, response);
      var exit := ScoUpdateEarlyExit(s);
      if exit.Some? {
        return exit.value, None;
      }
      var node := XmlTree.DocumentFind(s.value.value.resultDocument.value, "sco").value.element;
      var failure;
      failure, meetingDetail := ReadMeetingDetail(node, cache, rollbackResponse, deserialize, schemeAndServer);
      r := if failure.Some? then Failure(failure.value) else s;
    }

    /** The rollback request of the `catch` block: `sco-delete` of the new
        meeting, sent from the provider session `session0`/`domain0`. */
    function Rollback(scoId: string, session0: string, domain0: string, rollbackResponse: Result<HttpResponse>): Exchange
      reads this, settings
    {
      Exchanged("sco-delete", SessionParams(sessionInfo, settings.useSessionParam, Some("sco-id=" + scoId)),
                settings.View(), session0, domain0, rollbackResponse)
    }

    /** What the `try` block of `ScoUpdate` and its `catch` leave behind:
        the serializer cache after one lookup of `MeetingDetail`. When
        deserializing fails: that error, no meeting, no request. When
        resolving the full URL fails: the meeting as deserialized, the
        rollback `sco-delete` sent exactly when it has an id, and the error
        the corrected `catch` rethrows. Otherwise the meeting with its full
        URL resolved and no request. The provider moves from
        `session0`/`domain0` to `session`/`domain` only by the rollback. */
    ghost predicate ReadOutcome(node: XmlTree.XNode, entries0: map<CacheKey, Serializer>, constructed0: nat,
                                entries: map<CacheKey, Serializer>, constructed: nat,
                                session0: string, domain0: string, session: string, domain: string,
                                rollbackResponse: Result<HttpResponse>,
                                failed: bool, error: Error, meetingDetail: Option<MeetingDetail>,
                                deserialize: (Serializer, XmlTree.XNode) -> Result<MeetingDetail>,
                                schemeAndServer: string -> Result<string>)
      reads this, settings
    {
      var l := LookupOrInsert(entries0, constructed0, PlainKey(MeetingDetailType), None);
      var read := deserialize(l.serializer, node);
      entries == l.entries && constructed == l.constructed &&
      (read.Failure? ==>
         failed && error == read.error && meetingDetail.None? && session == session0 && domain == domain0) &&
      (read.Success? ==>
         var d := read.value;
         var fullUrl := ResolveFullUrl(d.urlPath, schemeAndServer);
         (fullUrl.Success? ==>
            !failed && meetingDetail == Some(d.(fullUrl := Some(fullUrl.value))) &&
            session == session0 && domain == domain0) &&
         (fullUrl.Failure? ==>
            failed && meetingDetail == Some(d) &&
            (IsNullOrEmpty(d.scoId) ==> error == fullUrl.error && session == session0 && domain == domain0) &&
            (!IsNullOrEmpty(d.scoId) ==>
               var x := Rollback(d.scoId.value, session0, domain0, rollbackResponse);
               error == ScoUpdateCatch(Some(d), fullUrl.error, x.result) &&
               session == x.sessionInfo && domain == x.sessionDomain)))
    }

    /** The `try`/`catch` of `ScoUpdate`, with the corrected `catch`. */
    method ReadMeetingDetail(node: XmlTree.XNode, cache: SerializerCache, rollbackResponse: Result<HttpResponse>,
                             deserialize: (Serializer, XmlTree.XNode) -> Result<MeetingDetail>,
                             schemeAndServer: string -> Result<string>)
      returns (failure: Option<Error>, meetingDetail: Option<MeetingDetail>)
      requires cache.Valid()
      requires provider as object != cache && settings as object != cache && provider as object != settings
      modifies provider, cache
      ensures cache.Valid()
      ensures ReadOutcome(node, old(cache.Entries()), old(cache.constructed), cache.Entries(), cache.constructed,
                          old(provider.sessionInfo), old(provider.sessionDomain),
                          provider.sessionInfo, provider.sessionDomain, rollbackResponse,
                          failure.Some?, if failure.Some? then failure.value else NullReference, meetingDetail,
                          deserialize, schemeAndServer)
    {
      var read := FromXml(cache, MeetingDetailType, node, deserialize);
      if read.Failure? {
        return Some(ScoUpdateCatch(None, read.error, Success(None))), None;
      }
      var detail := read.value;
      var fullUrl := ResolveFullUrl(detail.urlPath, schemeAndServer);
      if fullUrl.Failure? {
        var rollback: Result<Option<ApiStatus>> := Success(None);
        if !IsNullOrEmpty(detail.scoId) {
          var ids := new Option<string>[1] [detail.scoId];
          rollback := ScoDelete(ids, rollbackResponse);
          assert ids[..] == [Some("sco-id=" + detail.scoId.value)];
          assert JoinParams(ids[..]) == "sco-id=" + detail.scoId.value;
        }
        return Some(ScoUpdateCatch(Some(detail), fullUrl.error, rollback)), Some(detail);
      }
      failure := None;
      meetingDetail := Some(detail.(fullUrl := Some(fullUrl.value)));
    }
  }

  /** `new AdobeConnectXmlAPI(communicationProvider, settings)`: null
      settings, an empty service URL and a null provider are refused, in
      that order, before anything changes. */
  method Create(provider: HttpCommunicationProvider?, settings: SdkSettings?) returns (r: Result<AdobeConnectXmlApi>)
    requires provider != null && settings != null ==> provider as object != settings
    modifies settings
    ensures settings == null ==> r == Failure(ArgumentNull("Argument 'settings' can not be null."))
    ensures settings != null && IsNullOrEmpty(old(settings.serviceUrl)) ==>
      r == Failure(ArgumentNull("Configuration parameter 'serviceURL' can not be null.")) && unchanged(settings)
    ensures settings != null && !IsNullOrEmpty(old(settings.serviceUrl)) && provider == null ==>
      r == Failure(ArgumentNull("Argument 'communicationProvider' can not be null.")) && unchanged(settings)
    ensures r.Success? ==>
      (settings != null && provider != null &&
       r.value.settings == settings && r.value.provider == provider && r.value.sessionInfo == Some("") &&
       settings.serviceUrl == Some(NormalizeServiceUrl(old(settings.serviceUrl).value)))
    ensures settings != null && !IsNullOrEmpty(old(settings.serviceUrl)) && provider != null ==> r.Success?
  {
    if settings == null {
      return Failure(ArgumentNull("Argument 'settings' can not be null."));
    }
    if IsNullOrEmpty(settings.serviceUrl) {
      return Failure(ArgumentNull("Configuration parameter 'serviceURL' can not be null."));
    }
    if provider == null {
      return Failure(ArgumentNull("Argument 'communicationProvider' can not be null."));
    }
    var api := new AdobeConnectXmlApi(provider, settings);
    r := Success(api);
  }
}
