/** The `MeetingUpdateItem` record that `sco-update` sends (`MeetingUpdateItem.cs`).
    Its public fields, in declaration order, are the table `StructToQueryString`
    walks. The inherited dates are properties, not fields, so they are not in
    the table and never sent. */
module MeetingUpdateItems {
  import opened Wrappers
  import opened Helpers
  import opened MeetingItems

  class MeetingUpdateItem {
    var scoId: Option<string>
    var folderId: Option<string>
    var name: Option<string>
    var description: Option<string>
    var language: Option<string>
    var scoTag: Option<string>
    var email: Option<string>
    var firstName: Option<string>
    var lastName: Option<string>
    var urlPath: Option<string>
    var meetingItemType: SCOtype

    /** Every string null; the type `NotSet`, as its initialiser says. */
    constructor()
      ensures scoId.None? && folderId.None? && name.None? && description.None? && language.None?
      ensures scoTag.None? && email.None? && firstName.None? && lastName.None? && urlPath.None?
      ensures meetingItemType == SCOtype.NotSet
    {
      scoId, folderId, name, description := Option.None, Option.None, Option.None, Option.None;
      language, scoTag, email := Option.None, Option.None, Option.None;
      firstName, lastName, urlPath := Option.None, Option.None, Option.None;
      meetingItemType := SCOtype.NotSet;
    }

    /** The public fields with their serialization attributes. `Email` carries
        a bare `[XmlElement]`, whose name is empty. */
    function Fields(): (r: seq<Field>)
      reads this
      ensures |r| == 11
    {
      [
        Field(Descriptor("ScoId", Option.None, Some("sco-id")), StrValue(scoId)),
        Field(Descriptor("FolderId", Option.None, Some("folder-id")), StrValue(folderId)),
        Field(Descriptor("Name", Some("name"), Option.None), StrValue(name)),
        Field(Descriptor("Description", Some("description"), Option.None), StrValue(description)),
        Field(Descriptor("Language", Some("lang"), Option.None), StrValue(language)),
        Field(Descriptor("ScoTag", Some("sco-tag"), Option.None), StrValue(scoTag)),
        Field(Descriptor("Email", Some(""), Option.None), StrValue(email)),
        Field(Descriptor("FirstName", Some("first-name"), Option.None), StrValue(firstName)),
        Field(Descriptor("LastName", Some("last-name"), Option.None), StrValue(lastName)),
        Field(Descriptor("UrlPath", Some("url-path"), Option.None), StrValue(urlPath)),
        Field(Descriptor("MeetingItemType", Some("type"), Option.None), Member(ScoTypeName(meetingItemType), ScoTypeDescription(meetingItemType))) ]
    }

    /** The parameters of `sco-update`, written out field by field: each
        string only when set, under its attribute or element name (`email`
        under its lower-cased identifier); the type always, under `type`. */
    function QueryParams(): seq<(string, string)>
      reads this
    {
      OptionalParam("sco-id", scoId)
      + (OptionalParam("folder-id", folderId)
      + (OptionalParam("name", name)
      + ParamsFrom3()))
    }

    /** The parameters of the `Description` to `Email` fields and those after. */
    function ParamsFrom3(): seq<(string, string)>
      reads this
    {
      OptionalParam("description", description)
      + (OptionalParam("lang", language)
      + (OptionalParam("sco-tag", scoTag)
      + (OptionalParam("email", email)
      + ParamsFrom7())))
    }

    /** The parameters of the `FirstName` field and those after. */
    function ParamsFrom7(): seq<(string, string)>
      reads this
    {
      OptionalParam("first-name", firstName)
      + (OptionalParam("last-name", lastName)
      + (OptionalParam("url-path", urlPath)
      + [("type", ScoTypeToString(meetingItemType))]))
    }
  }

  /** `Email`'s bare `[XmlElement]` has no name, so the default applies. */
  lemma MeetingUpdateEmailName()
    ensures WireName(Descriptor("Email", Some(""), Option.None), true) == "email"
  {
  }

  lemma MeetingUpdateStepScoId(item: MeetingUpdateItem, formats: Formats)
    ensures ParamsFrom(item.Fields(), 0, true, formats) ==
      OptionalParam("sco-id", item.scoId) + ParamsFrom(item.Fields(), 1, true, formats)
  {
    var fs := item.Fields();
    assert WireName(Descriptor("ScoId", Option.None, Some("sco-id")), true) == "sco-id";
    StrFieldParam(fs, 0, true, formats, "sco-id", item.scoId);
  }

  lemma MeetingUpdateStepFolderId(item: MeetingUpdateItem, formats: Formats)
    ensures ParamsFrom(item.Fields(), 1, true, formats) ==
      OptionalParam("folder-id", item.folderId) + ParamsFrom(item.Fields(), 2, true, formats)
  {
    var fs := item.Fields();
    assert WireName(Descriptor("FolderId", Option.None, Some("folder-id")), true) == "folder-id";
    StrFieldParam(fs, 1, true, formats, "folder-id", item.folderId);
  }

  lemma MeetingUpdateStepName(item: MeetingUpdateItem, formats: Formats)
    ensures ParamsFrom(item.Fields(), 2, true, formats) ==
      OptionalParam("name", item.name) + ParamsFrom(item.Fields(), 3, true, formats)
  {
    var fs := item.Fields();
    assert WireName(Descriptor("Name", Some("name"), Option.None), true) == "name";
    StrFieldParam(fs, 2, true, formats, "name", item.name);
  }

  lemma MeetingUpdateStepDescription(item: MeetingUpdateItem, formats: Formats)
    ensures ParamsFrom(item.Fields(), 3, true, formats) ==
      OptionalParam("description", item.description) + ParamsFrom(item.Fields(), 4, true, formats)
  {
    var fs := item.Fields();
    assert WireName(Descriptor("Description", Some("description"), Option.None), true) == "description";
    StrFieldParam(fs, 3, true, formats, "description", item.description);
  }

  lemma MeetingUpdateStepLanguage(item: MeetingUpdateItem, formats: Formats)
    ensures ParamsFrom(item.Fields(), 4, true, formats) ==
      OptionalParam("lang", item.language) + ParamsFrom(item.Fields(), 5, true, formats)
  {
    var fs := item.Fields();
    assert WireName(Descriptor("Language", Some("lang"), Option.None), true) == "lang";
    StrFieldParam(fs, 4, true, formats, "lang", item.language);
  }

  lemma MeetingUpdateStepScoTag(item: MeetingUpdateItem, formats: Formats)
    ensures ParamsFrom(item.Fields(), 5, true, formats) ==
      OptionalParam("sco-tag", item.scoTag) + ParamsFrom(item.Fields(), 6, true, formats)
  {
    var fs := item.Fields();
    assert WireName(Descriptor("ScoTag", Some("sco-tag"), Option.None), true) == "sco-tag";
    StrFieldParam(fs, 5, true, formats, "sco-tag", item.scoTag);
  }

  lemma MeetingUpdateStepEmail(item: MeetingUpdateItem, formats: Formats)
    ensures ParamsFrom(item.Fields(), 6, true, formats) ==
      OptionalParam("email", item.email) + ParamsFrom(item.Fields(), 7, true, formats)
  {
    var fs := item.Fields();
    MeetingUpdateEmailName();
    StrFieldParam(fs, 6, true, formats, "email", item.email);
  }

  lemma MeetingUpdateStepFirstName(item: MeetingUpdateItem, formats: Formats)
    ensures ParamsFrom(item.Fields(), 7, true, formats) ==
      OptionalParam("first-name", item.firstName) + ParamsFrom(item.Fields(), 8, true, formats)
  {
    var fs := item.Fields();
    assert WireName(Descriptor("FirstName", Some("first-name"), Option.None), true) == "first-name";
    StrFieldParam(fs, 7, true, formats, "first-name", item.firstName);
  }

  lemma MeetingUpdateStepLastName(item: MeetingUpdateItem, formats: Formats)
    ensures ParamsFrom(item.Fields(), 8, true, formats) ==
      OptionalParam("last-name", item.lastName) + ParamsFrom(item.Fields(), 9, true, formats)
  {
    var fs := item.Fields();
    assert WireName(Descriptor("LastName", Some("last-name"), Option.None), true) == "last-name";
    StrFieldParam(fs, 8, true, formats, "last-name", item.lastName);
  }

  lemma MeetingUpdateStepUrlPath(item: MeetingUpdateItem, formats: Formats)
    ensures ParamsFrom(item.Fields(), 9, true, formats) ==
      OptionalParam("url-path", item.urlPath) + ParamsFrom(item.Fields(), 10, true, formats)
  {
    var fs := item.Fields();
    assert WireName(Descriptor("UrlPath", Some("url-path"), Option.None), true) == "url-path";
    StrFieldParam(fs, 9, true, formats, "url-path", item.urlPath);
  }

  lemma MeetingUpdateStepMeetingItemType(item: MeetingUpdateItem, formats: Formats)
    ensures ParamsFrom(item.Fields(), 10, true, formats) ==
      [("type", ScoTypeToString(item.meetingItemType))] + ParamsFrom(item.Fields(), 11, true, formats)
  {
    var fs := item.Fields();
    assert WireName(Descriptor("MeetingItemType", Some("type"), Option.None), true) == "type";
    MemberFieldParam(fs, 10, true, formats, "type", ScoTypeName(item.meetingItemType), ScoTypeDescription(item.meetingItemType));
  }

  lemma MeetingUpdateQueryFrom7(item: MeetingUpdateItem, formats: Formats)
    ensures ParamsFrom(item.Fields(), 7, true, formats) == item.ParamsFrom7()
  {
    MeetingUpdateStepFirstName(item, formats);
    MeetingUpdateStepLastName(item, formats);
    MeetingUpdateStepUrlPath(item, formats);
    MeetingUpdateStepMeetingItemType(item, formats);
    assert ParamsFrom(item.Fields(), 11, true, formats) == [];
  }

  lemma MeetingUpdateQueryFrom3(item: MeetingUpdateItem, formats: Formats)
    ensures ParamsFrom(item.Fields(), 3, true, formats) == item.ParamsFrom3()
  {
    MeetingUpdateStepDescription(item, formats);
    MeetingUpdateStepLanguage(item, formats);
    MeetingUpdateStepScoTag(item, formats);
    MeetingUpdateStepEmail(item, formats);
    MeetingUpdateQueryFrom7(item, formats);
  }

  /** `StructToQueryString(meetingUpdateItem, true)` sends exactly the
      parameters of `QueryParams`, in that order. */
  lemma MeetingUpdateQuery(item: MeetingUpdateItem, formats: Formats)
    ensures Params(item.Fields(), true, formats) == item.QueryParams()
  {
    MeetingUpdateStepScoId(item, formats);
    MeetingUpdateStepFolderId(item, formats);
    MeetingUpdateStepName(item, formats);
    MeetingUpdateQueryFrom3(item, formats);
  }

  /** No parameter after the first two is named `sco-id` or `folder-id`. */
  lemma MeetingUpdateLaterNames(item: MeetingUpdateItem)
    ensures forall x :: x in OptionalParam("name", item.name) + item.ParamsFrom3() ==> x.0 != "sco-id" && x.0 != "folder-id"
  {
    OptionalParamMembers("name", item.name);
    OptionalParamMembers("description", item.description);
    OptionalParamMembers("lang", item.language);
    OptionalParamMembers("sco-tag", item.scoTag);
    OptionalParamMembers("email", item.email);
    OptionalParamMembers("first-name", item.firstName);
    OptionalParamMembers("last-name", item.lastName);
    OptionalParamMembers("url-path", item.urlPath);
  }

  /** `sco-id` and `folder-id` are sent exactly when they are set, with
      their values; a null id sends nothing. */
  lemma MeetingUpdateIdParams(item: MeetingUpdateItem, formats: Formats)
    ensures forall v :: ("sco-id", v) in Params(item.Fields(), true, formats) <==> item.scoId == Some(v)
    ensures forall v :: ("folder-id", v) in Params(item.Fields(), true, formats) <==> item.folderId == Some(v)
  {
    MeetingUpdateQuery(item, formats);
    MeetingUpdateLaterNames(item);
    OptionalParamMembers("sco-id", item.scoId);
    OptionalParamMembers("folder-id", item.folderId);
  }

  /** The type is always sent, last, under `type`, as its wire name. */
  lemma MeetingUpdateTypeParam(item: MeetingUpdateItem, formats: Formats)
    ensures |Params(item.Fields(), true, formats)| > 0
    ensures Params(item.Fields(), true, formats)[|Params(item.Fields(), true, formats)| - 1] ==
      ("type", ScoTypeToString(item.meetingItemType))
  {
    MeetingUpdateQuery(item, formats);
  }
}
