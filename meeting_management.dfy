/** The meeting extensions of the API (`MeetingManagement.cs`): argument
    checks before `sco-update`, the filters of the meeting reports, and the
    selection of meeting shortcuts. */
module MeetingManagement {
  import opened Wrappers
  import opened Text
  import opened StatusInfo
  import Helpers
  import XmlTree
  import opened HttpCommunication
  import opened SerializerCaches
  import opened MeetingItems
  import opened MeetingUpdateItems
  import opened AdobeConnect

  // ---------------------------------------------------------------------
  // Report filters.

  /** `GetAllMeetings(likeName)`: meetings only, and a name filter when a
      name is given. */
  function AllMeetingsParams(likeName: Option<string>): string {
    "filter-type=meeting" + (if IsNullOrEmpty(likeName) then "" else "&filter-like-name=" + likeName.value)
  }

  /** The server reads a type filter, then a name filter exactly when a
      name is given. */
  lemma AllMeetingsParamsRead(likeName: Option<string>)
    requires Helpers.NoSeparators(OrEmpty(likeName))
    ensures IsNullOrEmpty(likeName) ==>
      Helpers.ParseQuery("&" + AllMeetingsParams(likeName)) == [("filter-type", "meeting")]
    ensures !IsNullOrEmpty(likeName) ==>
      Helpers.ParseQuery("&" + AllMeetingsParams(likeName))
        == [("filter-type", "meeting"), ("filter-like-name", likeName.value)]
  {
    FilterNamesHaveNoSeparators();
    if IsNullOrEmpty(likeName) {
      MeetingTypeFilterRead();
      assert AllMeetingsParams(likeName) == "filter-type=meeting";
    } else {
      AllMeetingsLayout(likeName.value);
      TwoParamsRead("filter-type", "meeting", "filter-like-name", likeName.value);
    }
  }

  lemma MeetingTypeFilterRead()
    ensures Helpers.ParseQuery("&" + "filter-type=meeting") == [("filter-type", "meeting")]
  {
    FilterNamesHaveNoSeparators();
    Helpers.ParseOne("filter-type", "meeting", []);
    assert "&" + "filter-type=meeting" == "&" + "filter-type" + "=" + "meeting" + [];
    assert Helpers.ParseQuery([]) == [];
  }

  lemma AllMeetingsLayout(name: string)
    requires name != []
    ensures "&" + AllMeetingsParams(Some(name))
      == "&" + "filter-type" + "=" + "meeting" + "&" + "filter-like-name" + "=" + name
  {
    assert AllMeetingsParams(Some(name)) == "filter-type=meeting" + ("&filter-like-name=" + name);
  }

  lemma FilterNamesHaveNoSeparators()
    ensures Helpers.NoSeparators("filter-type") && Helpers.NoSeparators("meeting")
    ensures Helpers.NoSeparators("filter-like-name")
  {}

  lemma NameFilterLayout(name: string)
    ensures "&" + ("filter-like-name=" + name) == "&" + "filter-like-name" + "=" + name + []
  {}

  /** `GetMyMeetings(likeName)`: no parameters at all (null) without a name. */
  function MyMeetingsParams(likeName: Option<string>): (r: Option<string>)
    ensures r.None? <==> IsNullOrEmpty(likeName)
  {
    if IsNullOrEmpty(likeName) then None else Some("filter-like-name=" + likeName.value)
  }

  /** The name filter reads back as the name; without one, a session-mode
      request carries the session alone. */
  lemma MyMeetingsParamsRead(likeName: Option<string>, session: Option<string>, useSessionParam: bool)
    requires Helpers.NoSeparators(OrEmpty(likeName))
    ensures !IsNullOrEmpty(likeName) ==>
      Helpers.ParseQuery("&" + MyMeetingsParams(likeName).value) == [("filter-like-name", likeName.value)]
    ensures IsNullOrEmpty(likeName) ==>
      SessionParams(session, useSessionParam, MyMeetingsParams(likeName))
        == if !IsNullOrEmpty(session) && useSessionParam then Some("session=" + session.value) else None
  {
    if !IsNullOrEmpty(likeName) {
      FilterNamesHaveNoSeparators();
      NameFilterLayout(likeName.value);
      Helpers.ParseOne("filter-like-name", likeName.value, []);
      assert Helpers.ParseQuery([]) == [];
    }
  }

  /** `GetAllMeetings(likeName)` up to its request; the rows it then reads
      are not part of this model. */
  method GetAllMeetings(api: AdobeConnectXmlApi, likeName: Option<string>, response: Result<HttpResponse>)
    returns (r: Result<Option<ApiStatus>>)
    modifies api.provider
    ensures api.Sent("report-bulk-objects", Some(AllMeetingsParams(likeName)), response, r)
  {
    var filterName := "";
    if !IsNullOrEmpty(likeName) {
      filterName := "&filter-like-name=" + likeName.value;
    }
    var _, s := api.ProcessApiRequest("report-bulk-objects", Some("filter-type=meeting" + filterName), response);
    r := s;
  }

  /** `GetMyMeetings(likeName)` up to its request. */
  method GetMyMeetings(api: AdobeConnectXmlApi, likeName: Option<string>, response: Result<HttpResponse>)
    returns (r: Result<Option<ApiStatus>>)
    modifies api.provider
    ensures api.Sent("report-my-meetings", MyMeetingsParams(likeName), response, r)
  {
    var filterName: Option<string> := None;
    if !IsNullOrEmpty(likeName) {
      filterName := Some("filter-like-name=" + likeName.value);
    }
    var _, s := api.ProcessApiRequest("report-my-meetings", filterName, response);
    r := s;
  }

  // ---------------------------------------------------------------------
  // Shortcuts.

  /** `ScoShortcut`: one folder the server lists under `sco-shortcuts`. */
  datatype ScoShortcut = ScoShortcut(treeId: int, scoId: Option<string>, shortcutType: Option<string>,
                                     domainName: Option<string>)

  /** `shortcut.Type == "meetings"`: ordinal, and false for a null type. */
  predicate IsMeetingsShortcut(s: ScoShortcut) {
    s.shortcutType == Some("meetings")
  }

  /** The LINQ `Where(shortcut => shortcut.Type == "meetings")`. */
  function MeetingShortcuts(shortcuts: seq<ScoShortcut>): (r: seq<ScoShortcut>)
    ensures |r| <= |shortcuts|
    ensures forall x :: x in r <==> x in shortcuts && IsMeetingsShortcut(x)
  {
    if shortcuts == [] then []
    else (if IsMeetingsShortcut(shortcuts[0]) then [shortcuts[0]] else []) + MeetingShortcuts(shortcuts[1..])
  }

  /** Filtering commutes with concatenation, so the kept shortcuts keep
      their order. */
  lemma {:induction false} MeetingShortcutsAppend(a: seq<ScoShortcut>, b: seq<ScoShortcut>)
    ensures MeetingShortcuts(a + b) == MeetingShortcuts(a) + MeetingShortcuts(b)
    decreases |a|
  {
    if a == [] {
      assert a + b == b;
    } else {
      assert (a + b)[1..] == a[1..] + b;
      MeetingShortcutsAppend(a[1..], b);
      AppendAssociates(if IsMeetingsShortcut(a[0]) then [a[0]] else [], MeetingShortcuts(a[1..]), MeetingShortcuts(b));
    }
  }

  /** A list of meeting shortcuts only is kept whole, and so filtering twice
      is filtering once. */
  lemma {:induction false} MeetingShortcutsKeepsMeetings(shortcuts: seq<ScoShortcut>)
    requires forall i :: 0 <= i < |shortcuts| ==> IsMeetingsShortcut(shortcuts[i])
    ensures MeetingShortcuts(shortcuts) == shortcuts
    decreases |shortcuts|
  {
    if shortcuts != [] {
      MeetingShortcutsKeepsMeetings(shortcuts[1..]);
      assert shortcuts == [shortcuts[0]] + shortcuts[1..];
    }
  }

  lemma MeetingShortcutsIdempotent(shortcuts: seq<ScoShortcut>)
    ensures MeetingShortcuts(MeetingShortcuts(shortcuts)) == MeetingShortcuts(shortcuts)
  {
    var r := MeetingShortcuts(shortcuts);
    forall i | 0 <= i < |r|
      ensures IsMeetingsShortcut(r[i])
    {
      assert r[i] in r;
    }
    MeetingShortcutsKeepsMeetings(r);
  }

  /** `EnumerableResultStatus<ScoShortcut>`: the status fields and a list
      that is null when the call did not return one. */
  type ShortcutsStatus = TypedStatus<Option<seq<ScoShortcut>>>

  /** `GetSCOshortcuts`: a null status is dereferenced; a status that is
      not OK or has no result document keeps a null list; otherwise the list
      read from the document. */
  function ScoShortcutsStatus(status: Result<Option<ApiStatus>>, read: XmlTree.XDocument -> seq<ScoShortcut>): (r: Result<ShortcutsStatus>)
    ensures status.Failure? ==> r == Failure(status.error)
    ensures status == Success(None) ==> r == Failure(NullReference)
    ensures r.Success? ==> status.Success? && status.value.Some? && r.value.info == status.value.value.info
    ensures r.Success? ==>
      (r.value.result.Some? <==> status.value.value.info.code == StatusCodes.OK && status.value.value.resultDocument.Some?)
  {
    if status.Failure? then Failure(status.error)
    else
      var wrapped := Helpers.WrapBaseStatusInfo(status.value, Option<seq<ScoShortcut>>.None);
      if wrapped.Failure? then Failure(wrapped.error)
      else
        var s := status.value.value;
        if s.info.code != StatusCodes.OK || s.resultDocument.None? then wrapped
        else Success(wrapped.value.(result := Some(read(s.resultDocument.value))))
  }

  /** `GetMeetingShortcuts` as written: `Where` on a null list throws. */
  function MeetingShortcutsAsWritten(itemData: Result<ShortcutsStatus>): Result<ShortcutsStatus> {
    if itemData.Failure? then itemData
    else if itemData.value.result.None? then Failure(ArgumentNull("source"))
    else Success(itemData.value.(result := Some(MeetingShortcuts(itemData.value.result.value))))
  }

  /** `GetMeetingShortcuts` as evidently intended: a status without a list
      is returned as it came, like every other listing call returns it. */
  function MeetingShortcutsFiltered(itemData: Result<ShortcutsStatus>): (r: Result<ShortcutsStatus>)
    ensures itemData.Failure? || itemData.value.result.None? ==> r == itemData
    ensures itemData.Success? ==> r.Success? && r.value.info == itemData.value.info
    ensures itemData.Success? && itemData.value.result.Some? ==>
      r.value.result.Some? && r.value.result.value == MeetingShortcuts(itemData.value.result.value)
  {
    if itemData.Success? && itemData.value.result.None? then itemData
    else MeetingShortcutsAsWritten(itemData)
  }

  /** Any status other than OK (a `no-access` reply, say) makes the
      shortcut call throw instead of returning that status. */
  lemma NotOkShortcutsThrow(s: ApiStatus, read: XmlTree.XDocument -> seq<ScoShortcut>)
    requires s.info.code != StatusCodes.OK
    ensures MeetingShortcutsAsWritten(ScoShortcutsStatus(Success(Some(s)), read)) == Failure(ArgumentNull("source"))
    ensures MeetingShortcutsFiltered(ScoShortcutsStatus(Success(Some(s)), read))
      == Success(TypedStatus(s.info, Option<seq<ScoShortcut>>.None))
  {}

  /** `GetMeetingShortcuts()`, with the corrected null handling: `sco-shortcuts`
      with no parameters, then the meeting shortcuts of the reply. */
  method GetMeetingShortcuts(api: AdobeConnectXmlApi, response: Result<HttpResponse>,
                             read: XmlTree.XDocument -> seq<ScoShortcut>)
    returns (r: Result<ShortcutsStatus>)
    modifies api.provider
    ensures var e := api.Exchanging("sco-shortcuts", None, response);
      r == MeetingShortcutsFiltered(ScoShortcutsStatus(e.result, read)) &&
      api.provider.sessionInfo == e.sessionInfo && api.provider.sessionDomain == e.sessionDomain
  {
    var _, s := api.ProcessApiRequest("sco-shortcuts", None, response);
    var itemData := ScoShortcutsStatus(s, read);
    r := MeetingShortcutsFiltered(itemData);
  }

  // ---------------------------------------------------------------------
  // Creating and updating a meeting.

  /** The statuses `MeetingCreate` and `MeetingUpdate` return for an item
      that fails their checks, one per check; no request is sent. */
  const MissingFolder := Helpers.WrapStatusException(StatusCodes.Invalid, StatusSubCodes.Format,
                                                     ArgumentNull("MeetingItem", "FolderID must be set to create new item"))
  const MissingType := Helpers.WrapStatusException(StatusCodes.Invalid, StatusSubCodes.Format,
                                                   ArgumentNull("MeetingItem", "SCOtype must be set"))
  const MissingScoId := Helpers.WrapStatusException(StatusCodes.Invalid, StatusSubCodes.Format,
                                                    ArgumentNull("MeetingItem", "ScoId must be set to update existing item"))

  /** `MeetingCreate(meetingUpdateItem, out meetingDetail)`: a folder and a
      type are required, the folder checked first; the caller's `ScoId` is
      cleared so that the server creates a new meeting. */
  method MeetingCreate(api: AdobeConnectXmlApi, item: MeetingUpdateItem?, formats: Helpers.Formats,
                       cache: SerializerCache, response: Result<HttpResponse>, rollbackResponse: Result<HttpResponse>,
                       deserialize: (Serializer, XmlTree.XNode) -> Result<MeetingDetail>,
                       schemeAndServer: string -> Result<string>)
    returns (r: Result<Option<ApiStatus>>, meetingDetail: Option<MeetingDetail>)
    requires cache.Valid()
    requires api.provider as object != cache && api.settings as object != cache && api.provider as object != api.settings
    modifies api.provider, cache, (if item == null then {} else {item})`scoId
    ensures cache.Valid()
    ensures item == null ==> r == Success(None) && meetingDetail.None? && unchanged(api.provider, cache)
    ensures item != null && IsNullOrEmpty(old(item.folderId)) ==>
      r == Success(Some(MissingFolder)) && meetingDetail.None? && unchanged(api.provider, cache, item)
    ensures item != null && !IsNullOrEmpty(old(item.folderId)) && old(item.meetingItemType) == SCOtype.NotSet ==>
      r == Success(Some(MissingType)) && meetingDetail.None? && unchanged(api.provider, cache, item)
    ensures item != null && !IsNullOrEmpty(old(item.folderId)) && old(item.meetingItemType) != SCOtype.NotSet ==>
      item.scoId.None? &&
      api.ScoUpdated(item, formats, cache, response, rollbackResponse, deserialize, schemeAndServer, r, meetingDetail)
  {
    meetingDetail := None;
    if item == null {
      return Success(None), None;
    }
    if IsNullOrEmpty(item.folderId) {
      return Success(Some(MissingFolder)), None;
    }
    if item.meetingItemType == SCOtype.NotSet {
      return Success(Some(MissingType)), None;
    }
    item.scoId := None;
    r, meetingDetail := api.ScoUpdate(item, formats, cache, response, rollbackResponse, deserialize, schemeAndServer);
  }

  /** `MeetingUpdate(meetingUpdateItem)`: the meeting's `ScoId` is required;
      the caller's `FolderId` is cleared so that the meeting is not moved. */
  method MeetingUpdate(api: AdobeConnectXmlApi, item: MeetingUpdateItem?, formats: Helpers.Formats,
                       cache: SerializerCache, response: Result<HttpResponse>, rollbackResponse: Result<HttpResponse>,
                       deserialize: (Serializer, XmlTree.XNode) -> Result<MeetingDetail>,
                       schemeAndServer: string -> Result<string>)
    returns (r: Result<Option<ApiStatus>>)
    requires cache.Valid()
    requires api.provider as object != cache && api.settings as object != cache && api.provider as object != api.settings
    modifies api.provider, cache, (if item == null then {} else {item})`folderId
    ensures cache.Valid()
    ensures item == null ==> r == Success(None) && unchanged(api.provider, cache)
    ensures item != null && IsNullOrEmpty(old(item.scoId)) ==>
      r == Success(Some(MissingScoId)) && unchanged(api.provider, cache, item)
    ensures item != null && !IsNullOrEmpty(old(item.scoId)) ==>
      item.folderId.None? &&
      exists meetingDetail :: api.ScoUpdated(item, formats, cache, response, rollbackResponse, deserialize, schemeAndServer, r, meetingDetail)
  {
    if item == null {
      return Success(None);
    }
    if IsNullOrEmpty(item.scoId) {
      return Success(Some(MissingScoId));
    }
    item.folderId := None;
    var meetingDetail;
    r, meetingDetail := api.ScoUpdate(item, formats, cache, response, rollbackResponse, deserialize, schemeAndServer);
    assert api.ScoUpdated(item, formats, cache, response, rollbackResponse, deserialize, schemeAndServer, r, meetingDetail);
  }

  /** A created meeting is sent without an id and with its folder; an
      updated one with its id and without a folder. */
  lemma CreatedMeetingParams(item: MeetingUpdateItem, formats: Helpers.Formats)
    requires item.scoId.None? && item.folderId.Some?
    ensures forall v :: ("sco-id", v) !in Helpers.Params(item.Fields(), true, formats)
    ensures ("folder-id", item.folderId.value) in Helpers.Params(item.Fields(), true, formats)
  {
    MeetingUpdateIdParams(item, formats);
  }

  lemma UpdatedMeetingParams(item: MeetingUpdateItem, formats: Helpers.Formats)
    requires item.scoId.Some? && item.folderId.None?
    ensures ("sco-id", item.scoId.value) in Helpers.Params(item.Fields(), true, formats)
    ensures forall v :: ("folder-id", v) !in Helpers.Params(item.Fields(), true, formats)
  {
    MeetingUpdateIdParams(item, formats);
  }
}
