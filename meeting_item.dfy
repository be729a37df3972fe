/** Meeting list entries and the kinds of object (SCO) the server stores
    (`MeetingItem.cs`). */
module MeetingItems {
  import opened Wrappers
  import opened Text
  import opened EnumReflection
  import opened Permissions
  import opened XmlBinding

  /** `SCOtype`: the `type` attribute of an object. There is no member for the server's `event` type. `NotSet` is the first member and so `default(SCOtype)`. */
  datatype SCOtype =
    NotSet | Content | Course | Curriculum | Folder | Link | Meeting | Session | Tree

  function ScoTypeName(m: SCOtype): string {
    match m
    case NotSet => "NotSet"
    case Content => "Content"
    case Course => "Course"
    case Curriculum => "Curriculum"
    case Folder => "Folder"
    case Link => "Link"
    case Meeting => "Meeting"
    case Session => "Session"
    case Tree => "Tree"
  }

  function ScoTypeDescription(m: SCOtype): Option<string> {
    match m
    case NotSet => Option.None
    case Content => Option.None
    case Course => Option.None
    case Curriculum => Option.None
    case Folder => Option.None
    case Link => Option.None
    case Meeting => Option.None
    case Session => Option.None
    case Tree => Option.None
  }

  /** `Helpers.EnumToString` on a `SCOtype`. */
  function ScoTypeToString(m: SCOtype): string {
    EnumToString(ScoTypeName(m), ScoTypeDescription(m))
  }

  /** `Enum.Parse(typeof(SCOtype), t, true)` on a name: the members are tried
      in declaration order. */
  function ScoTypeByName(t: string): Option<SCOtype> {
    if EqualsIgnoreCase(t, "NotSet") then Some(SCOtype.NotSet)
    else if EqualsIgnoreCase(t, "Content") then Some(SCOtype.Content)
    else if EqualsIgnoreCase(t, "Course") then Some(SCOtype.Course)
    else if EqualsIgnoreCase(t, "Curriculum") then Some(SCOtype.Curriculum)
    else if EqualsIgnoreCase(t, "Folder") then Some(SCOtype.Folder)
    else if EqualsIgnoreCase(t, "Link") then Some(SCOtype.Link)
    else if EqualsIgnoreCase(t, "Meeting") then Some(SCOtype.Meeting)
    else if EqualsIgnoreCase(t, "Session") then Some(SCOtype.Session)
    else if EqualsIgnoreCase(t, "Tree") then Some(SCOtype.Tree)
    else Option.None
  }

  /** `Helpers.ReflectEnum<SCOtype>(text)`. */
  function ReflectScoType(text: Option<string>): Result<SCOtype> {
    ReflectEnum(text, SCOtype.NotSet, ScoTypeByName)
  }

  /** Any spelling of a member's identifier, in any case, finds that member:
      no two identifiers differ only in case. */
  lemma ScoTypeByNameFinds(m: SCOtype)
    ensures forall u :: EqualsIgnoreCase(u, ScoTypeName(m)) ==> ScoTypeByName(u) == Some(m)
  {
    match m
    case NotSet => ScoTypeFindsNotSet();
    case Content => ScoTypeFindsContent();
    case Course => ScoTypeFindsCourse();
    case Curriculum => ScoTypeFindsCurriculum();
    case Folder => ScoTypeFindsFolder();
    case Link => ScoTypeFindsLink();
    case Meeting => ScoTypeFindsMeeting();
    case Session => ScoTypeFindsSession();
    case Tree => ScoTypeFindsTree();
  }

  lemma ScoTypeFindsNotSet()
    ensures forall u :: EqualsIgnoreCase(u, "NotSet") ==> ScoTypeByName(u) == Some(SCOtype.NotSet)
  {
    forall u | EqualsIgnoreCase(u, "NotSet")
      ensures ScoTypeByName(u) == Some(SCOtype.NotSet)
    {
      EqualsIgnoreCaseTransfer(u, "NotSet");
    }
  }

  lemma ScoTypeFindsContent()
    ensures forall u :: EqualsIgnoreCase(u, "Content") ==> ScoTypeByName(u) == Some(SCOtype.Content)
  {
    forall u | EqualsIgnoreCase(u, "Content")
      ensures ScoTypeByName(u) == Some(SCOtype.Content)
    {
      EqualsIgnoreCaseTransfer(u, "Content");
    }
  }

  lemma ScoTypeFindsCourse()
    ensures forall u :: EqualsIgnoreCase(u, "Course") ==> ScoTypeByName(u) == Some(SCOtype.Course)
  {
    forall u | EqualsIgnoreCase(u, "Course")
      ensures ScoTypeByName(u) == Some(SCOtype.Course)
    {
      EqualsIgnoreCaseTransfer(u, "Course");
    }
  }

  lemma ScoTypeFindsCurriculum()
    ensures forall u :: EqualsIgnoreCase(u, "Curriculum") ==> ScoTypeByName(u) == Some(SCOtype.Curriculum)
  {
    forall u | EqualsIgnoreCase(u, "Curriculum")
      ensures ScoTypeByName(u) == Some(SCOtype.Curriculum)
    {
      EqualsIgnoreCaseTransfer(u, "Curriculum");
    }
  }

  lemma ScoTypeFindsFolder()
    ensures forall u :: EqualsIgnoreCase(u, "Folder") ==> ScoTypeByName(u) == Some(SCOtype.Folder)
  {
    forall u | EqualsIgnoreCase(u, "Folder")
      ensures ScoTypeByName(u) == Some(SCOtype.Folder)
    {
      EqualsIgnoreCaseTransfer(u, "Folder");
    }
  }

  lemma ScoTypeFindsLink()
    ensures forall u :: EqualsIgnoreCase(u, "Link") ==> ScoTypeByName(u) == Some(SCOtype.Link)
  {
    forall u | EqualsIgnoreCase(u, "Link")
      ensures ScoTypeByName(u) == Some(SCOtype.Link)
    {
      EqualsIgnoreCaseTransfer(u, "Link");
    }
  }

  lemma ScoTypeFindsMeeting()
    ensures forall u :: EqualsIgnoreCase(u, "Meeting") ==> ScoTypeByName(u) == Some(SCOtype.Meeting)
  {
    forall u | EqualsIgnoreCase(u, "Meeting")
      ensures ScoTypeByName(u) == Some(SCOtype.Meeting)
    {
      EqualsIgnoreCaseTransfer(u, "Meeting");
    }
  }

  lemma ScoTypeFindsSession()
    ensures forall u :: EqualsIgnoreCase(u, "Session") ==> ScoTypeByName(u) == Some(SCOtype.Session)
  {
    forall u | EqualsIgnoreCase(u, "Session")
      ensures ScoTypeByName(u) == Some(SCOtype.Session)
    {
      EqualsIgnoreCaseTransfer(u, "Session");
    }
  }

  lemma ScoTypeFindsTree()
    ensures forall u :: EqualsIgnoreCase(u, "Tree") ==> ScoTypeByName(u) == Some(SCOtype.Tree)
  {
    forall u | EqualsIgnoreCase(u, "Tree")
      ensures ScoTypeByName(u) == Some(SCOtype.Tree)
    {
      EqualsIgnoreCaseTransfer(u, "Tree");
    }
  }

  /** Each member's identifier and description form a wire name that reads
      back. One lemma per member keeps each evaluation small; the asserts
      in the longer ones evaluate the tail of a name first. */
  lemma ScoTypeSpelled(m: SCOtype)
    ensures SpelledBy(ScoTypeName(m), ScoTypeDescription(m))
  {
    match m
    case NotSet => ScoTypeSpelledNotSet();
    case Content => ScoTypeSpelledContent();
    case Course => ScoTypeSpelledCourse();
    case Curriculum => ScoTypeSpelledCurriculum();
    case Folder => ScoTypeSpelledFolder();
    case Link => ScoTypeSpelledLink();
    case Meeting => ScoTypeSpelledMeeting();
    case Session => ScoTypeSpelledSession();
    case Tree => ScoTypeSpelledTree();
  }

  lemma ScoTypeSpelledNotSet() ensures SpelledBy("NotSet", Option.None) { }
  lemma ScoTypeSpelledContent() ensures SpelledBy("Content", Option.None) { }
  lemma ScoTypeSpelledCourse() ensures SpelledBy("Course", Option.None) { }
  lemma ScoTypeSpelledCurriculum() ensures SpelledBy("Curriculum", Option.None) { }
  lemma ScoTypeSpelledFolder() ensures SpelledBy("Folder", Option.None) { }
  lemma ScoTypeSpelledLink() ensures SpelledBy("Link", Option.None) { }
  lemma ScoTypeSpelledMeeting() ensures SpelledBy("Meeting", Option.None) { }
  lemma ScoTypeSpelledSession() ensures SpelledBy("Session", Option.None) { }
  lemma ScoTypeSpelledTree() ensures SpelledBy("Tree", Option.None) { }

  /** Reading back what `EnumToString` writes yields the same member. */
  lemma ScoTypeRoundTrip(m: SCOtype)
    ensures ReflectScoType(Some(ScoTypeToString(m))) == Success(m)
  {
    ScoTypeSpelled(m);
    WireNameSpellsIdentifier(ScoTypeName(m), ScoTypeDescription(m));
    ScoTypeByNameFinds(m);
    ReflectWireName(ScoTypeToString(m), SCOtype.NotSet, ScoTypeByName, ScoTypeName(m), m);
  }

  /** The `type` attribute is the lower-cased member name. */
  lemma ScoTypeWireNames()
    ensures ScoTypeToString(SCOtype.Meeting) == "meeting"
    ensures ScoTypeToString(SCOtype.Folder) == "folder"
  {
  }

  /** No member's identifier has five letters, so no five-letter wire name
      without hyphens decodes. */
  lemma FiveLetterNameDoesNotDecode(w: string)
    requires |w| == 5 && IsWireName(w) && forall i :: 0 <= i < |w| ==> w[i] != '-'
    ensures ReflectScoType(Some(w)).Failure?
  {
    assert RemoveChar(w, '-') == w;
    ReflectUnknownWireName(w, SCOtype.NotSet, ScoTypeByName);
  }

  /** The server's `event` type has no member, so it does not decode. */
  lemma EventDoesNotDecode()
    ensures ReflectScoType(Some("event")).Failure?
  {
    FiveLetterNameDoesNotDecode("event");
  }

  /** The `[XmlAttribute]` members of `MeetingItem` as declared: the raw
      `permission-id` and `type` properties are `internal`. */
  const MeetingItemAttributes: seq<AttributeMember> := [
    AttributeMember("sco-id", Public), AttributeMember("folder-id", Public),
    AttributeMember("active-participants", Public), AttributeMember("permission-id", Internal),
    AttributeMember("type", Internal), AttributeMember("icon", Public)]

  /** The typed fields a deserialized item holds when its attributes are
      `attrs`: each bound raw property's setter decodes its text (a decode
      error aborts the read); a field whose setter never runs keeps its
      default. */
  function DeserializedTypes(members: seq<AttributeMember>, attrs: map<string, string>): (r: Result<(PermissionId, SCOtype)>)
    ensures DeserializedPermission(members, attrs).Failure? ==> r == Failure(DeserializedPermission(members, attrs).error)
    ensures r.Success? ==> DeserializedPermission(members, attrs) == Success(r.value.0)
    ensures DeserializedPermission(members, attrs).Success? && BoundText(members, attrs, "type").None? ==>
      r == Success((DeserializedPermission(members, attrs).value, SCOtype.NotSet))
    ensures DeserializedPermission(members, attrs).Success? && BoundText(members, attrs, "type").Some? ==>
      (r.Success? <==> ReflectScoType(Some(attrs["type"])).Success?) &&
      (r.Success? ==> r.value.1 == ReflectScoType(Some(attrs["type"])).value)
  {
    var permission :- DeserializedPermission(members, attrs);
    var text := BoundText(members, attrs, "type");
    var itemType :- if text.Some? then ReflectScoType(text) else Success(SCOtype.NotSet);
    Success((permission, itemType))
  }

  /** As declared, no reply sets `PermissionId` or `ItemType` of a
      `MeetingItem`: both fields keep their defaults whatever the `type` and
      `permission-id` attributes say. */
  lemma MeetingItemTypesNeverBound(attrs: map<string, string>)
    ensures DeserializedTypes(MeetingItemAttributes, attrs) == Success((PermissionId.None, SCOtype.NotSet))
  {
    InternalOnlyNotBound(MeetingItemAttributes, "permission-id");
    InternalOnlyNotBound(MeetingItemAttributes, "type");
  }

  /** With the raw properties public, both typed fields read back from the
      text they are printed as. */
  lemma PublishedMeetingItemRoundTrip(p: PermissionId, t: SCOtype)
    ensures DeserializedTypes(Published(MeetingItemAttributes),
                              map["permission-id" := PermissionIdToString(p), "type" := ScoTypeToString(t)])
      == Success((p, t))
  {
    var members := Published(MeetingItemAttributes);
    var attrs := map["permission-id" := PermissionIdToString(p), "type" := ScoTypeToString(t)];
    PublishedBinds(MeetingItemAttributes, 3);
    PublishedBinds(MeetingItemAttributes, 4);
    assert BoundText(members, attrs, "permission-id") == Some(PermissionIdToString(p));
    assert BoundText(members, attrs, "type") == Some(ScoTypeToString(t));
    PermissionIdRoundTrip(p);
    ScoTypeRoundTrip(t);
    assert DeserializedPermission(members, attrs) == Success(p);
  }

  /** `MeetingItem`: one entry of a meeting or content listing. Dates and the
      duration are left out; `fullUrl` is `[XmlIgnore]` and is filled in
      afterwards from the service URL. */
  class MeetingItem {
    var scoId: Option<string>
    var folderId: Option<string>
    var activeParticipants: int
    var permissionId: PermissionId
    var itemType: SCOtype
    var icon: Option<string>
    var meetingName: Option<string>
    var meetingDescription: Option<string>
    var language: Option<string>
    var scoTag: Option<string>
    var domainName: Option<string>
    var urlPath: Option<string>
    var fullUrl: Option<string>
    var isFolder: bool
    var expired: bool
    var byteCount: int

    constructor()
      ensures permissionId == PermissionId.None && itemType == SCOtype.NotSet && fullUrl.None?
    {
      scoId, folderId, activeParticipants := Option.None, Option.None, 0;
      permissionId, itemType := PermissionId.None, SCOtype.NotSet;
      icon, meetingName, meetingDescription := Option.None, Option.None, Option.None;
      language, scoTag, domainName := Option.None, Option.None, Option.None;
      urlPath, fullUrl := Option.None, Option.None;
      isFolder, expired, byteCount := false, false, 0;
    }

    /** The `PermissionIdRaw` getter: text the setter decodes back to the
        same permission. */
    function PermissionIdRaw(): (r: string)
      reads this
      ensures ReflectPermissionId(Some(r)) == Success(permissionId)
    {
      PermissionIdRoundTrip(permissionId);
      PermissionIdToString(permissionId)
    }

    /** The `PermissionIdRaw` setter: decodes `value` into `permissionId`,
        or throws and leaves it as it was; no other field is written. */
    method SetPermissionIdRaw(value: Option<string>) returns (r: Result<()>)
      modifies this`permissionId
      ensures r.Success? <==> ReflectPermissionId(value).Success?
      ensures r.Success? ==> permissionId == ReflectPermissionId(value).value
      ensures r.Failure? ==> r.error == ReflectPermissionId(value).error && permissionId == old(permissionId)
      ensures itemType == old(itemType)
    {
      var decoded := ReflectPermissionId(value);
      if decoded.Failure? {
        return Failure(decoded.error);
      }
      permissionId := decoded.value;
      return Success(());
    }

    /** The `ItemTypeRaw` getter: the `type` attribute, text the setter
        decodes back to the same type. */
    function ItemTypeRaw(): (r: string)
      reads this
      ensures ReflectScoType(Some(r)) == Success(itemType)
    {
      ScoTypeRoundTrip(itemType);
      ScoTypeToString(itemType)
    }

    /** The `ItemTypeRaw` setter: decodes `value` into `itemType`, or throws
        and leaves it as it was; an empty `type` gives `NotSet`. No other
        field is written. */
    method SetItemTypeRaw(value: Option<string>) returns (r: Result<()>)
      modifies this`itemType
      ensures r.Success? <==> ReflectScoType(value).Success?
      ensures r.Success? ==> itemType == ReflectScoType(value).value
      ensures IsNullOrWhiteSpace(value) ==> r.Success? && itemType == SCOtype.NotSet
      ensures r.Failure? ==> r.error == ReflectScoType(value).error && itemType == old(itemType)
      ensures permissionId == old(permissionId)
    {
      var decoded := ReflectScoType(value);
      if decoded.Failure? {
        return Failure(decoded.error);
      }
      itemType := decoded.value;
      return Success(());
    }

    /** Writing back what the getters read leaves both typed fields as they
        were. */
    method RestoreFromRaw()
      modifies this`itemType, this`permissionId
      ensures itemType == old(itemType) && permissionId == old(permissionId)
    {
      var _ := SetItemTypeRaw(Some(ItemTypeRaw()));
      var _ := SetPermissionIdRaw(Some(PermissionIdRaw()));
    }
  }
}
