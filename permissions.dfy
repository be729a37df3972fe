/** Permission identifiers and the permission record (`Permissions.cs`). */
module Permissions {
  import opened Wrappers
  import opened Text
  import opened EnumReflection
  import opened XmlBinding

  /** `PermissionId`: the `permission-id` a principal holds on an object. `None` is the first member and so `default(PermissionId)`. */
  datatype PermissionId =
    None | Admin | Author | Learner | View | ViewHidden | PublicAccess | Host | MiniHost | Remove | Publish | Manage | Denied

  function PermissionIdName(m: PermissionId): string {
    match m
    case None => "None"
    case Admin => "Admin"
    case Author => "Author"
    case Learner => "Learner"
    case View => "View"
    case ViewHidden => "ViewHidden"
    case PublicAccess => "PublicAccess"
    case Host => "Host"
    case MiniHost => "MiniHost"
    case Remove => "Remove"
    case Publish => "Publish"
    case Manage => "Manage"
    case Denied => "Denied"
  }

  function PermissionIdDescription(m: PermissionId): Option<string> {
    match m
    case None => Option.None
    case Admin => Option.None
    case Author => Option.None
    case Learner => Option.None
    case View => Option.None
    case ViewHidden => Option.None
    case PublicAccess => Option.None
    case Host => Option.None
    case MiniHost => Some("mini-host")
    case Remove => Option.None
    case Publish => Option.None
    case Manage => Option.None
    case Denied => Option.None
  }

  /** `Helpers.EnumToString` on a `PermissionId`. */
  function PermissionIdToString(m: PermissionId): string {
    EnumToString(PermissionIdName(m), PermissionIdDescription(m))
  }

  /** `Enum.Parse(typeof(PermissionId), t, true)` on a name: the members are tried
      in declaration order. */
  function PermissionIdByName(t: string): Option<PermissionId> {
    if EqualsIgnoreCase(t, "None") then Some(PermissionId.None)
    else if EqualsIgnoreCase(t, "Admin") then Some(PermissionId.Admin)
    else if EqualsIgnoreCase(t, "Author") then Some(PermissionId.Author)
    else if EqualsIgnoreCase(t, "Learner") then Some(PermissionId.Learner)
    else if EqualsIgnoreCase(t, "View") then Some(PermissionId.View)
    else if EqualsIgnoreCase(t, "ViewHidden") then Some(PermissionId.ViewHidden)
    else if EqualsIgnoreCase(t, "PublicAccess") then Some(PermissionId.PublicAccess)
    else if EqualsIgnoreCase(t, "Host") then Some(PermissionId.Host)
    else if EqualsIgnoreCase(t, "MiniHost") then Some(PermissionId.MiniHost)
    else if EqualsIgnoreCase(t, "Remove") then Some(PermissionId.Remove)
    else if EqualsIgnoreCase(t, "Publish") then Some(PermissionId.Publish)
    else if EqualsIgnoreCase(t, "Manage") then Some(PermissionId.Manage)
    else if EqualsIgnoreCase(t, "Denied") then Some(PermissionId.Denied)
    else Option.None
  }

  /** `Helpers.ReflectEnum<PermissionId>(text)`. */
  function ReflectPermissionId(text: Option<string>): Result<PermissionId> {
    ReflectEnum(text, PermissionId.None, PermissionIdByName)
  }

  /** Any spelling of a member's identifier, in any case, finds that member:
      no two identifiers differ only in case. */
  lemma PermissionIdByNameFinds(m: PermissionId)
    ensures forall u :: EqualsIgnoreCase(u, PermissionIdName(m)) ==> PermissionIdByName(u) == Some(m)
  {
    match m
    case None => PermissionIdFindsNone();
    case Admin => PermissionIdFindsAdmin();
    case Author => PermissionIdFindsAuthor();
    case Learner => PermissionIdFindsLearner();
    case View => PermissionIdFindsView();
    case ViewHidden => PermissionIdFindsViewHidden();
    case PublicAccess => PermissionIdFindsPublicAccess();
    case Host => PermissionIdFindsHost();
    case MiniHost => PermissionIdFindsMiniHost();
    case Remove => PermissionIdFindsRemove();
    case Publish => PermissionIdFindsPublish();
    case Manage => PermissionIdFindsManage();
    case Denied => PermissionIdFindsDenied();
  }

  lemma PermissionIdFindsNone()
    ensures forall u :: EqualsIgnoreCase(u, "None") ==> PermissionIdByName(u) == Some(PermissionId.None)
  {
    forall u | EqualsIgnoreCase(u, "None")
      ensures PermissionIdByName(u) == Some(PermissionId.None)
    {
      EqualsIgnoreCaseTransfer(u, "None");
    }
  }

  lemma PermissionIdFindsAdmin()
    ensures forall u :: EqualsIgnoreCase(u, "Admin") ==> PermissionIdByName(u) == Some(PermissionId.Admin)
  {
    forall u | EqualsIgnoreCase(u, "Admin")
      ensures PermissionIdByName(u) == Some(PermissionId.Admin)
    {
      EqualsIgnoreCaseTransfer(u, "Admin");
    }
  }

  lemma PermissionIdFindsAuthor()
    ensures forall u :: EqualsIgnoreCase(u, "Author") ==> PermissionIdByName(u) == Some(PermissionId.Author)
  {
    forall u | EqualsIgnoreCase(u, "Author")
      ensures PermissionIdByName(u) == Some(PermissionId.Author)
    {
      EqualsIgnoreCaseTransfer(u, "Author");
    }
  }

  lemma PermissionIdFindsLearner()
    ensures forall u :: EqualsIgnoreCase(u, "Learner") ==> PermissionIdByName(u) == Some(PermissionId.Learner)
  {
    forall u | EqualsIgnoreCase(u, "Learner")
      ensures PermissionIdByName(u) == Some(PermissionId.Learner)
    {
      EqualsIgnoreCaseTransfer(u, "Learner");
    }
  }

  lemma PermissionIdFindsView()
    ensures forall u :: EqualsIgnoreCase(u, "View") ==> PermissionIdByName(u) == Some(PermissionId.View)
  {
    forall u | EqualsIgnoreCase(u, "View")
      ensures PermissionIdByName(u) == Some(PermissionId.View)
    {
      EqualsIgnoreCaseTransfer(u, "View");
    }
  }

  lemma PermissionIdFindsViewHidden()
    ensures forall u :: EqualsIgnoreCase(u, "ViewHidden") ==> PermissionIdByName(u) == Some(PermissionId.ViewHidden)
  {
    forall u | EqualsIgnoreCase(u, "ViewHidden")
      ensures PermissionIdByName(u) == Some(PermissionId.ViewHidden)
    {
      EqualsIgnoreCaseTransfer(u, "ViewHidden");
    }
  }

  lemma PermissionIdFindsPublicAccess()
    ensures forall u :: EqualsIgnoreCase(u, "PublicAccess") ==> PermissionIdByName(u) == Some(PermissionId.PublicAccess)
  {
    forall u | EqualsIgnoreCase(u, "PublicAccess")
      ensures PermissionIdByName(u) == Some(PermissionId.PublicAccess)
    {
      EqualsIgnoreCaseTransfer(u, "PublicAccess");
    }
  }

  lemma PermissionIdFindsHost()
    ensures forall u :: EqualsIgnoreCase(u, "Host") ==> PermissionIdByName(u) == Some(PermissionId.Host)
  {
    forall u | EqualsIgnoreCase(u, "Host")
      ensures PermissionIdByName(u) == Some(PermissionId.Host)
    {
      EqualsIgnoreCaseTransfer(u, "Host");
    }
  }

  lemma PermissionIdFindsMiniHost()
    ensures forall u :: EqualsIgnoreCase(u, "MiniHost") ==> PermissionIdByName(u) == Some(PermissionId.MiniHost)
  {
    forall u | EqualsIgnoreCase(u, "MiniHost")
      ensures PermissionIdByName(u) == Some(PermissionId.MiniHost)
    {
      EqualsIgnoreCaseTransfer(u, "MiniHost");
    }
  }

  lemma PermissionIdFindsRemove()
    ensures forall u :: EqualsIgnoreCase(u, "Remove") ==> PermissionIdByName(u) == Some(PermissionId.Remove)
  {
    forall u | EqualsIgnoreCase(u, "Remove")
      ensures PermissionIdByName(u) == Some(PermissionId.Remove)
    {
      EqualsIgnoreCaseTransfer(u, "Remove");
    }
  }

  lemma PermissionIdFindsPublish()
    ensures forall u :: EqualsIgnoreCase(u, "Publish") ==> PermissionIdByName(u) == Some(PermissionId.Publish)
  {
    forall u | EqualsIgnoreCase(u, "Publish")
      ensures PermissionIdByName(u) == Some(PermissionId.Publish)
    {
      EqualsIgnoreCaseTransfer(u, "Publish");
    }
  }

  lemma PermissionIdFindsManage()
    ensures forall u :: EqualsIgnoreCase(u, "Manage") ==> PermissionIdByName(u) == Some(PermissionId.Manage)
  {
    forall u | EqualsIgnoreCase(u, "Manage")
      ensures PermissionIdByName(u) == Some(PermissionId.Manage)
    {
      EqualsIgnoreCaseTransfer(u, "Manage");
    }
  }

  lemma PermissionIdFindsDenied()
    ensures forall u :: EqualsIgnoreCase(u, "Denied") ==> PermissionIdByName(u) == Some(PermissionId.Denied)
  {
    forall u | EqualsIgnoreCase(u, "Denied")
      ensures PermissionIdByName(u) == Some(PermissionId.Denied)
    {
      EqualsIgnoreCaseTransfer(u, "Denied");
    }
  }

  /** Each member's identifier and description form a wire name that reads
      back. One lemma per member keeps each evaluation small; the asserts
      in the longer ones evaluate the tail of a name first. */
  lemma PermissionIdSpelled(m: PermissionId)
    ensures SpelledBy(PermissionIdName(m), PermissionIdDescription(m))
  {
    match m
    case None => PermissionIdSpelledNone();
    case Admin => PermissionIdSpelledAdmin();
    case Author => PermissionIdSpelledAuthor();
    case Learner => PermissionIdSpelledLearner();
    case View => PermissionIdSpelledView();
    case ViewHidden => PermissionIdSpelledViewHidden();
    case PublicAccess => PermissionIdSpelledPublicAccess();
    case Host => PermissionIdSpelledHost();
    case MiniHost => PermissionIdSpelledMiniHost();
    case Remove => PermissionIdSpelledRemove();
    case Publish => PermissionIdSpelledPublish();
    case Manage => PermissionIdSpelledManage();
    case Denied => PermissionIdSpelledDenied();
  }

  lemma PermissionIdSpelledNone() ensures SpelledBy("None", Option.None) { }
  lemma PermissionIdSpelledAdmin() ensures SpelledBy("Admin", Option.None) { }
  lemma PermissionIdSpelledAuthor() ensures SpelledBy("Author", Option.None) { }
  lemma PermissionIdSpelledLearner() ensures SpelledBy("Learner", Option.None) { }
  lemma PermissionIdSpelledView() ensures SpelledBy("View", Option.None) { }
  lemma PermissionIdSpelledViewHidden() ensures SpelledBy("ViewHidden", Option.None) { }
  lemma PermissionIdSpelledPublicAccess() ensures SpelledBy("PublicAccess", Option.None) {
    assert IsIdentifierFrom("PublicAccess", 10);
  }
  lemma PermissionIdSpelledHost() ensures SpelledBy("Host", Option.None) { }
  lemma PermissionIdSpelledMiniHost() ensures SpelledBy("MiniHost", Some("mini-host")) { }
  lemma PermissionIdSpelledRemove() ensures SpelledBy("Remove", Option.None) { }
  lemma PermissionIdSpelledPublish() ensures SpelledBy("Publish", Option.None) { }
  lemma PermissionIdSpelledManage() ensures SpelledBy("Manage", Option.None) { }
  lemma PermissionIdSpelledDenied() ensures SpelledBy("Denied", Option.None) { }

  /** Reading back what `EnumToString` writes yields the same member. */
  lemma PermissionIdRoundTrip(m: PermissionId)
    ensures ReflectPermissionId(Some(PermissionIdToString(m))) == Success(m)
  {
    PermissionIdSpelled(m);
    WireNameSpellsIdentifier(PermissionIdName(m), PermissionIdDescription(m));
    PermissionIdByNameFinds(m);
    ReflectWireName(PermissionIdToString(m), PermissionId.None, PermissionIdByName, PermissionIdName(m), m);
  }

  /** Only `MiniHost` carries a description, `mini-host`; every other member
      goes on the wire as its lower-cased identifier. */
  lemma OnlyMiniHostIsDescribed(m: PermissionId)
    ensures PermissionIdDescription(m).Some? <==> m == PermissionId.MiniHost
  {
  }

  lemma PermissionIdWireNames()
    ensures PermissionIdToString(PermissionId.MiniHost) == "mini-host"
    ensures PermissionIdToString(PermissionId.ViewHidden) == "viewhidden"
  {
  }

  /** An empty or white-space `permission-id` reads as `None`. */
  lemma BlankPermissionIdIsNone(text: Option<string>)
    requires IsNullOrWhiteSpace(text)
    ensures ReflectPermissionId(text) == Success(PermissionId.None)
  {
  }

  /** `SpecialPermissionId`: the access levels of a meeting's public access.
      A C# enum variable can also hold an integer that names no member
      (`(SpecialPermissionId)7`); `Undeclared` stands for those. */
  datatype SpecialPermissionId = ViewHidden | Remove | Denied | Undeclared(value: int)

  /** The `[XmlAttribute]` members of `PermissionInfo` as declared: the raw
      `permission-id` property is `internal`. */
  const PermissionInfoAttributes: seq<AttributeMember> := [
    AttributeMember("principal-id", Public), AttributeMember("has-children", Public),
    AttributeMember("is-primary", Public), AttributeMember("permission-id", Internal),
    AttributeMember("training-group-id", Public)]

  /** The `PermissionId` a deserialized object holds when its attributes are
      `attrs`: the raw property's setter decodes the `permission-id` text
      when the member is bound (a decode error aborts the read); otherwise
      the field keeps its default, `None`. */
  function DeserializedPermission(members: seq<AttributeMember>, attrs: map<string, string>): (r: Result<PermissionId>)
    ensures BoundText(members, attrs, "permission-id").None? ==> r == Success(PermissionId.None)
    ensures BoundText(members, attrs, "permission-id").Some? ==> r == ReflectPermissionId(Some(attrs["permission-id"]))
  {
    var text := BoundText(members, attrs, "permission-id");
    if text.Some? then ReflectPermissionId(text) else Success(PermissionId.None)
  }

  /** As declared, no reply sets `PermissionInfo.PermissionId`: whatever the
      `permission-id` attribute says, the field stays `None`. */
  lemma PermissionInfoIdNeverBound(attrs: map<string, string>)
    ensures DeserializedPermission(PermissionInfoAttributes, attrs) == Success(PermissionId.None)
  {
    InternalOnlyNotBound(PermissionInfoAttributes, "permission-id");
  }

  /** With the raw property public, a permission reads back from the text it
      is printed as. */
  lemma PublishedPermissionInfoRoundTrip(p: PermissionId)
    ensures DeserializedPermission(Published(PermissionInfoAttributes), map["permission-id" := PermissionIdToString(p)])
      == Success(p)
  {
    PublishedBinds(PermissionInfoAttributes, 3);
    PermissionIdRoundTrip(p);
  }

  /** `PermissionInfo`: one principal's permission on an object. The typed
      `PermissionId` field is `[XmlIgnore]`; the raw `permission-id`
      property converts between it and the attribute text. */
  class PermissionInfo {
    var principalId: Option<string>
    var hasChildren: bool
    var isPrimary: bool
    var permissionId: PermissionId
    var trainingGroupId: Option<string>
    var login: Option<string>
    var name: Option<string>
    var description: Option<string>

    constructor()
      ensures principalId.None? && !hasChildren && !isPrimary && permissionId == PermissionId.None
      ensures trainingGroupId.None? && login.None? && name.None? && description.None?
    {
      principalId := Option.None;
      hasChildren := false;
      isPrimary := false;
      permissionId := PermissionId.None;
      trainingGroupId := Option.None;
      login := Option.None;
      name := Option.None;
      description := Option.None;
    }

    /** The `PermissionIdRaw` getter: text the setter decodes back to the
        same permission. */
    function PermissionIdRaw(): (r: string)
      reads this
      ensures ReflectPermissionId(Some(r)) == Success(permissionId)
    {
      PermissionIdRoundTrip(permissionId);
      PermissionIdToString(permissionId)
    }

    /** The `PermissionIdRaw` setter: decodes `value` into `permissionId`, or
        throws and leaves it as it was. */
    method SetPermissionIdRaw(value: Option<string>) returns (r: Result<()>)
      modifies this`permissionId
      ensures r.Success? <==> ReflectPermissionId(value).Success?
      ensures r.Success? ==> permissionId == ReflectPermissionId(value).value
      ensures r.Failure? ==> r.error == ReflectPermissionId(value).error && permissionId == old(permissionId)
      ensures principalId == old(principalId) && hasChildren == old(hasChildren) && isPrimary == old(isPrimary)
      ensures trainingGroupId == old(trainingGroupId) && login == old(login) && name == old(name) && description == old(description)
    {
      var decoded := ReflectPermissionId(value);
      if decoded.Failure? {
        return Failure(decoded.error);
      }
      permissionId := decoded.value;
      return Success(());
    }

    /** Setting the raw text to what the getter returns leaves the record
        as it was. */
    method RestoreFromRaw()
      modifies this`permissionId
      ensures permissionId == old(permissionId)
    {
      var _ := SetPermissionIdRaw(Some(PermissionIdRaw()));
    }
  }
}
