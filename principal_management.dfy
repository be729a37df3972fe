/** The principal extensions of the API (`PrincipalManagement.cs`): the
    argument check of `principal-info`, the in-place rewrite of
    `principals-delete`, the parameter strings of the principal and
    permission calls, and the special permissions of a meeting's public
    access. */
module PrincipalManagement {
  import opened Wrappers
  import opened Text
  import opened StatusInfo
  import Helpers
  import XmlTree
  import opened HttpCommunication
  import opened SerializerCaches
  import opened Permissions
  import opened PrincipalDetail
  import opened AdobeConnect
  import opened EnumReflection

  // ---------------------------------------------------------------------
  // Parameter strings (`string.Format`, a null argument rendering as empty).

  /** Three `name=value` pairs joined by `&`. */
  function Query3(n1: string, v1: string, n2: string, v2: string, n3: string, v3: string): string {
    n1 + "=" + v1 + "&" + n2 + "=" + v2 + "&" + n3 + "=" + v3
  }

  function PrincipalInfoParams(principalId: string): string {
    "principal-id=" + principalId
  }

  function PasswordParams(userId: Option<string>, passwordOld: Option<string>, password: Option<string>): string {
    Query3("user-id", OrEmpty(userId), "password-old", OrEmpty(passwordOld), "password", OrEmpty(password))
  }

  /** `isMember ? 1 : 0`. */
  function MemberFlag(isMember: bool): (r: string)
    ensures r == "1" || r == "0"
  {
    if isMember then "1" else "0"
  }

  function GroupMembershipParams(groupId: Option<string>, principalId: Option<string>, isMember: bool): string {
    Query3("group-id", OrEmpty(groupId), "principal-id", OrEmpty(principalId), "is-member", MemberFlag(isMember))
  }

  /** `principal-list`'s `group-id={0}&{1}`: the filter follows verbatim. */
  function PrincipalListParams(groupId: Option<string>, filterBy: Option<string>): string {
    "group-id=" + OrEmpty(groupId) + "&" + OrEmpty(filterBy)
  }

  function PermissionsUpdateParams(aclId: Option<string>, principalId: Option<string>, permissionId: PermissionId): string {
    Query3("acl-id", OrEmpty(aclId), "principal-id", OrEmpty(principalId), "permission-id", PermissionIdToString(permissionId))
  }

  // ---------------------------------------------------------------------
  // What the server reads from them.

  /** Three rendered parameters read back as those three. */
  lemma ThreeParamsRead(n1: string, v1: string, n2: string, v2: string, n3: string, v3: string)
    requires Helpers.NoSeparators(n1) && Helpers.NoSeparators(v1)
    requires Helpers.NoSeparators(n2) && Helpers.NoSeparators(v2)
    requires Helpers.NoSeparators(n3) && Helpers.NoSeparators(v3)
    ensures Helpers.ParseQuery("&" + Query3(n1, v1, n2, v2, n3, v3)) == [(n1, v1), (n2, v2), (n3, v3)]
  {
    var tail := "&" + n2 + "=" + v2 + "&" + n3 + "=" + v3;
    assert "&" + Query3(n1, v1, n2, v2, n3, v3) == "&" + n1 + "=" + v1 + tail;
    TwoParamsRead(n2, v2, n3, v3);
    Helpers.ParseOne(n1, v1, tail);
  }

  lemma ParamNamesHaveNoSeparators()
    ensures Helpers.NoSeparators("user-id") && Helpers.NoSeparators("password-old") && Helpers.NoSeparators("password")
    ensures Helpers.NoSeparators("group-id") && Helpers.NoSeparators("principal-id") && Helpers.NoSeparators("is-member")
    ensures Helpers.NoSeparators("acl-id") && Helpers.NoSeparators("permission-id")
  {}

  /** The user, the old password and the new one, in that order. */
  lemma PasswordParamsRead(userId: Option<string>, passwordOld: Option<string>, password: Option<string>)
    requires Helpers.NoSeparators(OrEmpty(userId)) && Helpers.NoSeparators(OrEmpty(passwordOld))
    requires Helpers.NoSeparators(OrEmpty(password))
    ensures Helpers.ParseQuery("&" + PasswordParams(userId, passwordOld, password))
      == [("user-id", OrEmpty(userId)), ("password-old", OrEmpty(passwordOld)), ("password", OrEmpty(password))]
  {
    ParamNamesHaveNoSeparators();
    ThreeParamsRead("user-id", OrEmpty(userId), "password-old", OrEmpty(passwordOld), "password", OrEmpty(password));
  }

  /** The group, the principal, and `is-member` as `1` exactly when the
      principal is to be a member. */
  lemma GroupMembershipParamsRead(groupId: Option<string>, principalId: Option<string>, isMember: bool)
    requires Helpers.NoSeparators(OrEmpty(groupId)) && Helpers.NoSeparators(OrEmpty(principalId))
    ensures var q := Helpers.ParseQuery("&" + GroupMembershipParams(groupId, principalId, isMember));
      |q| == 3 && q[0] == ("group-id", OrEmpty(groupId)) && q[1] == ("principal-id", OrEmpty(principalId)) &&
      q[2].0 == "is-member" && (q[2].1 == "1" <==> isMember)
  {
    ParamNamesHaveNoSeparators();
    var flag := MemberFlag(isMember);
    assert Helpers.NoSeparators(flag);
    ThreeParamsRead("group-id", OrEmpty(groupId), "principal-id", OrEmpty(principalId), "is-member", flag);
  }

  /** Every permission's wire name is free of `&` and `=`. */
  lemma PermissionWireNameHasNoSeparators(m: PermissionId)
    ensures Helpers.NoSeparators(PermissionIdToString(m))
  {
    PermissionIdSpelled(m);
    WireNameSpellsIdentifier(PermissionIdName(m), PermissionIdDescription(m));
    AllWireCharsMeans(PermissionIdToString(m), 0);
  }

  /** The ACL, the principal and the permission, and the permission read
      back from its wire name is the one sent. */
  lemma PermissionsUpdateParamsRead(aclId: Option<string>, principalId: Option<string>, permissionId: PermissionId)
    requires Helpers.NoSeparators(OrEmpty(aclId)) && Helpers.NoSeparators(OrEmpty(principalId))
    ensures var q := Helpers.ParseQuery("&" + PermissionsUpdateParams(aclId, principalId, permissionId));
      |q| == 3 && q[0] == ("acl-id", OrEmpty(aclId)) && q[1] == ("principal-id", OrEmpty(principalId)) &&
      q[2].0 == "permission-id" && ReflectPermissionId(Some(q[2].1)) == Success(permissionId)
  {
    ParamNamesHaveNoSeparators();
    var w := PermissionIdToString(permissionId);
    PermissionWireNameHasNoSeparators(permissionId);
    ThreeParamsRead("acl-id", OrEmpty(aclId), "principal-id", OrEmpty(principalId), "permission-id", w);
    PermissionIdRoundTrip(permissionId);
  }

  /** The argument-less `GetPrincipalList()` sends an empty group and an
      empty, nameless second parameter. */
  lemma AllPrincipalsParamsRead()
    ensures PrincipalListParams(Some(""), Some("")) == "group-id=&"
    ensures Helpers.ParseQuery("&" + PrincipalListParams(Some(""), Some(""))) == [("group-id", ""), ("", "")]
  {
    ParamNamesHaveNoSeparators();
    AllPrincipalsLayout();
    Helpers.ParseOne("group-id", "", "&");
    LoneSeparatorRead();
  }

  lemma AllPrincipalsLayout()
    ensures PrincipalListParams(Some(""), Some("")) == "group-id=&"
    ensures "&" + PrincipalListParams(Some(""), Some("")) == "&" + "group-id" + "=" + "" + "&"
  {}

  /** A lone `&` is one empty parameter. */
  lemma LoneSeparatorRead()
    ensures Helpers.ParseQuery("&") == [("", "")]
  {
    assert Helpers.ParseQuery([]) == [];
  }

  // ---------------------------------------------------------------------
  // The calls.

  /** What `GetPrincipalInfo` returns for a reply: a null status is
      dereferenced; a status that is not OK, or has no result document, gives
      null (not the status); otherwise the principal read from the document. */
  function PrincipalInfoResult<T>(status: Result<Option<ApiStatus>>, read: XmlTree.XDocument -> Result<T>): (r: Result<Option<TypedStatus<T>>>)
    ensures status.Failure? ==> r == Failure(status.error)
    ensures status == Success(Option.None) ==> r == Failure(NullReference)
    ensures r == Success(Option.None) <==>
      (status.Success? && status.value.Some? &&
       (status.value.value.info.code != StatusCodes.OK || status.value.value.resultDocument.None?))
    ensures r.Success? && r.value.Some? ==>
      status.Success? && status.value.Some? && status.value.value.resultDocument.Some? &&
      read(status.value.value.resultDocument.value).Success? &&
      r.value.value == TypedStatus(status.value.value.info, read(status.value.value.resultDocument.value).value)
  {
    if status.Failure? then Failure(status.error)
    else if status.value.None? then Failure(NullReference)
    else
      var s := status.value.value;
      if s.info.code != StatusCodes.OK || s.resultDocument.None? then Success(Option.None)
      else
        var principal := read(s.resultDocument.value);
        if principal.Failure? then Failure(principal.error)
        else Success(Some(TypedStatus(s.info, principal.value)))
  }

  /** `GetPrincipalInfo(principalId)`: an empty id is refused before any
      request. The contact, preferences and principal read from the reply
      are the parameter `read`. */
  method GetPrincipalInfo<T>(api: AdobeConnectXmlApi, principalId: Option<string>, response: Result<HttpResponse>,
                             read: XmlTree.XDocument -> Result<T>)
    returns (r: Result<Option<TypedStatus<T>>>)
    modifies api.provider
    ensures IsNullOrEmpty(principalId) ==> r == Failure(ArgumentNull("principalId")) && unchanged(api.provider)
    ensures !IsNullOrEmpty(principalId) ==>
      var e := api.Exchanging("principal-info", Some(PrincipalInfoParams(principalId.value)), response);
      r == PrincipalInfoResult(e.result, read) &&
      api.provider.sessionInfo == e.sessionInfo && api.provider.sessionDomain == e.sessionDomain
  {
    if IsNullOrEmpty(principalId) {
      return Failure(ArgumentNull("principalId"));
    }
    var _, s := api.ProcessApiRequest("principal-info", Some("principal-id=" + principalId.value), response);
    r := PrincipalInfoResult(s, read);
  }

  const PrincipalType := TypeName("Principal")

  /** Whether the reply to `principal-update` carries a `principal` element
      to read: an OK status with a result document that has one. */
  predicate PrincipalElementFound(s: Result<Option<ApiStatus>>) {
    s.Success? && s.value.Some? && s.value.value.info.code == StatusCodes.OK &&
    s.value.value.resultDocument.Some? &&
    XmlTree.DocumentFind(s.value.value.resultDocument.value, "principal").Some?
  }

  /** What `PrincipalUpdate` returns for the status `s`, the serializer cache
      going from `entries0`/`constructed0` to `entries`/`constructed`: a
      failure or a status that is not OK or has no document comes back with no
      principal; a null status or a missing `principal` element is
      dereferenced; otherwise the element is read with the cached
      `Principal` serializer. */
  ghost predicate PrincipalRead<P>(s: Result<Option<ApiStatus>>,
                                   entries0: map<CacheKey, Serializer>, constructed0: nat,
                                   entries: map<CacheKey, Serializer>, constructed: nat,
                                   r: Result<Option<ApiStatus>>, principal: Option<P>,
                                   deserialize: (Serializer, XmlTree.XNode) -> Result<P>)
  {
    (s.Failure? ==> r == s && principal.None?) &&
    (s == Success(Option.None) ==> r == Failure(NullReference) && principal.None?) &&
    (s.Success? && s.value.Some? ==>
      var st := s.value.value;
      (st.info.code != StatusCodes.OK || st.resultDocument.None? ==> r == s && principal.None?) &&
      (st.info.code == StatusCodes.OK && st.resultDocument.Some? ==>
        var hit := XmlTree.DocumentFind(st.resultDocument.value, "principal");
        (hit.None? ==> r == Failure(NullReference) && principal.None?) &&
        (hit.Some? ==>
          var l := LookupOrInsert(entries0, constructed0, PlainKey(PrincipalType), Option.None);
          var read := deserialize(l.serializer, hit.value.element);
          entries == l.entries && constructed == l.constructed &&
          (read.Failure? ==> r == Failure(read.error) && principal.None?) &&
          (read.Success? ==> r == s && principal == Some(read.value)))))
  }

  /** The part of `PrincipalUpdate` after the request: reading the
      principal back from the reply. */
  method ReadUpdatedPrincipal<P>(s: Result<Option<ApiStatus>>, cache: SerializerCache,
                                 deserialize: (Serializer, XmlTree.XNode) -> Result<P>)
    returns (r: Result<Option<ApiStatus>>, principal: Option<P>)
    requires cache.Valid()
    modifies cache
    ensures cache.Valid()
    ensures !PrincipalElementFound(s) ==> unchanged(cache)
    ensures PrincipalRead(s, old(cache.Entries()), old(cache.constructed), cache.Entries(), cache.constructed,
                          r, principal, deserialize)
  {
    principal := Option.None;
    if s.Failure? {
      return s, Option.None;
    }
    if s.value.None? {
      return Failure(NullReference), Option.None;
    }
    if s.value.value.info.code != StatusCodes.OK || s.value.value.resultDocument.None? {
      return s, Option.None;
    }
    var hit := XmlTree.DocumentFind(s.value.value.resultDocument.value, "principal");
    if hit.None? {
      return Failure(NullReference), Option.None;
    }
    var read := FromXml(cache, PrincipalType, hit.value.element, deserialize);
    if read.Failure? {
      return Failure(read.error), Option.None;
    }
    principal := Some(read.value);
    r := s;
  }

  /** The query `PrincipalUpdate` sends: none for a null setup, else the
      setup's fields rendered by `StructToQueryString` with the XML names. */
  function PrincipalUpdateQuery(setup: Option<PrincipalSetup>, formats: Helpers.Formats): (r: Option<string>)
    ensures r.None? <==> setup.None?
  {
    if setup.None? then Option.None else Some(Helpers.QueryFrom(PrincipalSetupFields(setup.value), 0, true, formats))
  }

  /** What `PrincipalUpdate` does: the request goes out with the setup's
      query, the provider keeps the exchange's session, and the principal is
      read back as `PrincipalRead` says, the serializer cache being left
      alone unless there is an element to read. */
  twostate predicate PrincipalUpdated<P>(api: AdobeConnectXmlApi, new setup: Option<PrincipalSetup>, new formats: Helpers.Formats,
                                         cache: SerializerCache, new response: Result<HttpResponse>,
                                         new deserialize: (Serializer, XmlTree.XNode) -> Result<P>,
                                         new r: Result<Option<ApiStatus>>, new principal: Option<P>)
    reads api, api.provider, api.settings, cache
  {
    var e := api.Exchanging("principal-update", PrincipalUpdateQuery(setup, formats), response);
    api.provider.sessionInfo == e.sessionInfo && api.provider.sessionDomain == e.sessionDomain &&
    (!PrincipalElementFound(e.result) ==> unchanged(cache)) &&
    PrincipalRead(e.result, old(cache.Entries()), old(cache.constructed), cache.Entries(), cache.constructed,
                  r, principal, deserialize)
  }

  /** `PrincipalUpdate(principalSetup, out principal)`: the setup's fields
      go out as `principal-update` (none at all for a null setup); the
      principal is then read back from the reply as `PrincipalRead` says,
      the serializer cache being left alone unless there is an element to
      read. */
  method PrincipalUpdate<P>(api: AdobeConnectXmlApi, setup: Option<PrincipalSetup>, formats: Helpers.Formats,
                            cache: SerializerCache, response: Result<HttpResponse>,
                            deserialize: (Serializer, XmlTree.XNode) -> Result<P>)
    returns (r: Result<Option<ApiStatus>>, principal: Option<P>)
    requires cache.Valid()
    modifies api.provider, cache
    ensures cache.Valid()
    ensures PrincipalUpdated(api, setup, formats, cache, response, deserialize, r, principal)
  {
    var cmdParams := Helpers.StructToQueryString(if setup.None? then Option.None else Some(PrincipalSetupFields(setup.value)), true, formats);
    var _, s := api.ProcessApiRequest("principal-update", cmdParams, response);
    r, principal := ReadUpdatedPrincipal(s, cache, deserialize);
  }

  /** `PrincipalDelete(principalId)`: a null array is dereferenced;
      otherwise every element is rewritten in place as `principal-id=<id>`
      and the elements are sent joined by `&`. */
  method PrincipalDelete(api: AdobeConnectXmlApi, principalId: array?<Option<string>>, response: Result<HttpResponse>)
    returns (r: Result<Option<ApiStatus>>)
    modifies principalId, api.provider
    ensures principalId == null ==> r == Failure(NullReference) && unchanged(api.provider)
    ensures principalId != null ==>
      principalId[..] == Prefixed("principal-id=", old(principalId[..])) &&
      api.Sent("principals-delete", Some(JoinParams(principalId[..])), response, r)
  {
    if principalId == null {
      return Failure(NullReference);
    }
    PrefixEach(principalId, "principal-id=");
    var _, s := api.ProcessApiRequest("principals-delete", Some(JoinParams(principalId[..])), response);
    r := s;
  }

  /** The ids `PrincipalDelete` sends read back, in order, as one
      `principal-id` each. */
  lemma PrincipalDeleteRead(ids: seq<Option<string>>)
    requires ids != []
    requires forall i :: 0 <= i < |ids| ==> Helpers.NoSeparators(OrEmpty(ids[i]))
    ensures Helpers.ParseQuery("&" + JoinParams(Prefixed("principal-id=", ids))) == IdParams("principal-id", NonNull(ids))
  {
    ParamNamesHaveNoSeparators();
    JoinPrefixed("principal-id", ids);
    assert "principal-id" + "=" == "principal-id=";
    PrefixedIdsRead("principal-id", NonNull(ids));
  }

  method PrincipalUpdatePassword(api: AdobeConnectXmlApi, userId: Option<string>, passwordOld: Option<string>,
                                 password: Option<string>, response: Result<HttpResponse>)
    returns (r: Result<Option<ApiStatus>>)
    modifies api.provider
    ensures api.Sent("user-update-pwd", Some(PasswordParams(userId, passwordOld, password)), response, r)
  {
    var _, s := api.ProcessApiRequest("user-update-pwd", Some(PasswordParams(userId, passwordOld, password)), response);
    r := s;
  }

  method PrincipalGroupMembershipUpdate(api: AdobeConnectXmlApi, groupId: Option<string>, principalId: Option<string>,
                                        isMember: bool, response: Result<HttpResponse>)
    returns (r: Result<Option<ApiStatus>>)
    modifies api.provider
    ensures api.Sent("group-membership-update", Some(GroupMembershipParams(groupId, principalId, isMember)), response, r)
  {
    var _, s := api.ProcessApiRequest("group-membership-update", Some(GroupMembershipParams(groupId, principalId, isMember)), response);
    r := s;
  }

  /** `GetPrincipalList(groupId, filterBy)` up to its request. */
  method GetPrincipalList(api: AdobeConnectXmlApi, groupId: Option<string>, filterBy: Option<string>,
                          response: Result<HttpResponse>)
    returns (r: Result<Option<ApiStatus>>)
    modifies api.provider
    ensures api.Sent("principal-list", Some(PrincipalListParams(groupId, filterBy)), response, r)
  {
    var _, s := api.ProcessApiRequest("principal-list", Some(PrincipalListParams(groupId, filterBy)), response);
    r := s;
  }

  /** `GetPrincipalList()`: both arguments empty. */
  method GetAllPrincipals(api: AdobeConnectXmlApi, response: Result<HttpResponse>) returns (r: Result<Option<ApiStatus>>)
    modifies api.provider
    ensures api.Sent("principal-list", Some("group-id=&"), response, r)
  {
    AllPrincipalsParamsRead();
    r := GetPrincipalList(api, Some(""), Some(""), response);
  }

  method PermissionsUpdate(api: AdobeConnectXmlApi, aclId: Option<string>, principalId: Option<string>,
                           permissionId: PermissionId, response: Result<HttpResponse>)
    returns (r: Result<Option<ApiStatus>>)
    modifies api.provider
    ensures api.Sent("permissions-update", Some(PermissionsUpdateParams(aclId, principalId, permissionId)), response, r)
  {
    var _, s := api.ProcessApiRequest("permissions-update", Some(PermissionsUpdateParams(aclId, principalId, permissionId)), response);
    r := s;
  }

  /** The permission of the same name as a special permission; the
      undeclared values have none. */
  function SpecialPermission(p: SpecialPermissionId): (r: Option<PermissionId>)
    ensures r.None? <==> p.Undeclared?
  {
    match p
    case Denied => Some(PermissionId.Denied)
    case Remove => Some(PermissionId.Remove)
    case ViewHidden => Some(PermissionId.ViewHidden)
    case Undeclared(_) => Option.None
  }

  /** Each declared special permission maps to the permission that carries
      its name, and different ones to different permissions. */
  lemma SpecialPermissionSameName(p: SpecialPermissionId, q: SpecialPermissionId)
    requires !p.Undeclared? && !q.Undeclared?
    ensures SpecialPermission(p).Some? &&
      PermissionIdName(SpecialPermission(p).value) == (match p case Denied => "Denied" case Remove => "Remove" case _ => "ViewHidden")
    ensures p != q ==> SpecialPermission(p) != SpecialPermission(q)
  {}

  /** The principal whose permission `SpecialPermissionsUpdate` sets. */
  const PublicAccess := "public-access"

  /** `SpecialPermissionsUpdate(aclId, permissionId)`: the public-access
      principal gets the same-named permission; any other value throws
      before any request. */
  method SpecialPermissionsUpdate(api: AdobeConnectXmlApi, aclId: Option<string>, permissionId: SpecialPermissionId,
                                  response: Result<HttpResponse>)
    returns (r: Result<Option<ApiStatus>>)
    modifies api.provider
    ensures permissionId.Undeclared? ==> r == Failure(NotImplemented) && unchanged(api.provider)
    ensures !permissionId.Undeclared? ==>
      api.Sent("permissions-update", Some(PermissionsUpdateParams(aclId, Some(PublicAccess), SpecialPermission(permissionId).value)), response, r)
  {
    match permissionId
    case Denied =>
      r := PermissionsUpdate(api, aclId, Some(PublicAccess), PermissionId.Denied, response);
    case Remove =>
      r := PermissionsUpdate(api, aclId, Some(PublicAccess), PermissionId.Remove, response);
    case ViewHidden =>
      r := PermissionsUpdate(api, aclId, Some(PublicAccess), PermissionId.ViewHidden, response);
    case Undeclared(_) =>
      r := Failure(NotImplemented);
  }

  /** `ParticipantSubscribe(courseSco, principalId)`: `View` by default. */
  method ParticipantSubscribe(api: AdobeConnectXmlApi, courseSco: Option<string>, principalId: Option<string>,
                              response: Result<HttpResponse>)
    returns (r: Result<Option<ApiStatus>>)
    modifies api.provider
    ensures api.Sent("permissions-update", Some(PermissionsUpdateParams(courseSco, principalId, PermissionId.View)), response, r)
  {
    r := PermissionsUpdate(api, courseSco, principalId, PermissionId.View, response);
  }

  method ParticipantSubscribeWith(api: AdobeConnectXmlApi, courseSco: Option<string>, principalId: Option<string>,
                                  permissionId: PermissionId, response: Result<HttpResponse>)
    returns (r: Result<Option<ApiStatus>>)
    modifies api.provider
    ensures api.Sent("permissions-update", Some(PermissionsUpdateParams(courseSco, principalId, permissionId)), response, r)
  {
    r := PermissionsUpdate(api, courseSco, principalId, permissionId, response);
  }

  /** `ParticipantUnsubscribe(courseSco, principalId)`: always `Remove`. */
  method ParticipantUnsubscribe(api: AdobeConnectXmlApi, courseSco: Option<string>, principalId: Option<string>,
                                response: Result<HttpResponse>)
    returns (r: Result<Option<ApiStatus>>)
    modifies api.provider
    ensures api.Sent("permissions-update", Some(PermissionsUpdateParams(courseSco, principalId, PermissionId.Remove)), response, r)
  {
    r := PermissionsUpdate(api, courseSco, principalId, PermissionId.Remove, response);
  }

  /** Subscribing and then unsubscribing sends `view` and then `remove`. */
  lemma SubscribeThenUnsubscribe(course: Option<string>, principal: Option<string>)
    ensures PermissionsUpdateParams(course, principal, PermissionId.View)
      == Query3("acl-id", OrEmpty(course), "principal-id", OrEmpty(principal), "permission-id", "view")
    ensures PermissionsUpdateParams(course, principal, PermissionId.Remove)
      == Query3("acl-id", OrEmpty(course), "principal-id", OrEmpty(principal), "permission-id", "remove")
  {
    assert PermissionIdToString(PermissionId.View) == "view";
    assert PermissionIdToString(PermissionId.Remove) == "remove";
  }
}
