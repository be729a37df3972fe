/** The `PrincipalSetup` record sent by `principal-update`, and the kinds of
    principal (`PrincipalDetail.cs`). The record's public fields, in
    declaration order, are the table that `StructToQueryString` walks. */
module PrincipalDetail {
  import opened Wrappers
  import opened Text
  import opened EnumReflection
  import opened Helpers
  import HttpUtilsInternal

  /** `PrincipalTypes`: the identifiers are the server's own lower-case names, some with `_`, and none has a description. `admins` is the first member. */
  datatype PrincipalTypes =
    admins | authors | course_admins | event_admins | event_group | everyone | external_group | external_user | group | guest | learners | live_admins | seminar_admins | user

  function PrincipalTypeName(m: PrincipalTypes): string {
    match m
    case admins => "admins"
    case authors => "authors"
    case course_admins => "course_admins"
    case event_admins => "event_admins"
    case event_group => "event_group"
    case everyone => "everyone"
    case external_group => "external_group"
    case external_user => "external_user"
    case group => "group"
    case guest => "guest"
    case learners => "learners"
    case live_admins => "live_admins"
    case seminar_admins => "seminar_admins"
    case user => "user"
  }

  function PrincipalTypeDescription(m: PrincipalTypes): Option<string> {
    match m
    case admins => Option.None
    case authors => Option.None
    case course_admins => Option.None
    case event_admins => Option.None
    case event_group => Option.None
    case everyone => Option.None
    case external_group => Option.None
    case external_user => Option.None
    case group => Option.None
    case guest => Option.None
    case learners => Option.None
    case live_admins => Option.None
    case seminar_admins => Option.None
    case user => Option.None
  }

  /** `Helpers.EnumToString` on a `PrincipalTypes`. */
  function PrincipalTypeToString(m: PrincipalTypes): string {
    EnumToString(PrincipalTypeName(m), PrincipalTypeDescription(m))
  }

  /** `Enum.Parse(typeof(PrincipalTypes), t, true)` on a name: the members are tried
      in declaration order. */
  function PrincipalTypeByName(t: string): Option<PrincipalTypes> {
    if EqualsIgnoreCase(t, "admins") then Some(PrincipalTypes.admins)
    else if EqualsIgnoreCase(t, "authors") then Some(PrincipalTypes.authors)
    else if EqualsIgnoreCase(t, "course_admins") then Some(PrincipalTypes.course_admins)
    else if EqualsIgnoreCase(t, "event_admins") then Some(PrincipalTypes.event_admins)
    else if EqualsIgnoreCase(t, "event_group") then Some(PrincipalTypes.event_group)
    else if EqualsIgnoreCase(t, "everyone") then Some(PrincipalTypes.everyone)
    else if EqualsIgnoreCase(t, "external_group") then Some(PrincipalTypes.external_group)
    else if EqualsIgnoreCase(t, "external_user") then Some(PrincipalTypes.external_user)
    else if EqualsIgnoreCase(t, "group") then Some(PrincipalTypes.group)
    else if EqualsIgnoreCase(t, "guest") then Some(PrincipalTypes.guest)
    else if EqualsIgnoreCase(t, "learners") then Some(PrincipalTypes.learners)
    else if EqualsIgnoreCase(t, "live_admins") then Some(PrincipalTypes.live_admins)
    else if EqualsIgnoreCase(t, "seminar_admins") then Some(PrincipalTypes.seminar_admins)
    else if EqualsIgnoreCase(t, "user") then Some(PrincipalTypes.user)
    else Option.None
  }

  /** `Helpers.ReflectEnum<PrincipalTypes>(text)`. */
  function ReflectPrincipalType(text: Option<string>): Result<PrincipalTypes> {
    ReflectEnum(text, PrincipalTypes.admins, PrincipalTypeByName)
  }

  /** Any spelling of a member's identifier, in any case, finds that member:
      no two identifiers differ only in case. */
  lemma PrincipalTypeByNameFinds(m: PrincipalTypes)
    ensures forall u :: EqualsIgnoreCase(u, PrincipalTypeName(m)) ==> PrincipalTypeByName(u) == Some(m)
  {
    match m
    case admins => PrincipalTypeFindsadmins();
    case authors => PrincipalTypeFindsauthors();
    case course_admins => PrincipalTypeFindscourse_admins();
    case event_admins => PrincipalTypeFindsevent_admins();
    case event_group => PrincipalTypeFindsevent_group();
    case everyone => PrincipalTypeFindseveryone();
    case external_group => PrincipalTypeFindsexternal_group();
    case external_user => PrincipalTypeFindsexternal_user();
    case group => PrincipalTypeFindsgroup();
    case guest => PrincipalTypeFindsguest();
    case learners => PrincipalTypeFindslearners();
    case live_admins => PrincipalTypeFindslive_admins();
    case seminar_admins => PrincipalTypeFindsseminar_admins();
    case user => PrincipalTypeFindsuser();
  }

  lemma PrincipalTypeFindsadmins()
    ensures forall u :: EqualsIgnoreCase(u, "admins") ==> PrincipalTypeByName(u) == Some(PrincipalTypes.admins)
  {
    forall u | EqualsIgnoreCase(u, "admins")
      ensures PrincipalTypeByName(u) == Some(PrincipalTypes.admins)
    {
      EqualsIgnoreCaseTransfer(u, "admins");
    }
  }

  lemma PrincipalTypeFindsauthors()
    ensures forall u :: EqualsIgnoreCase(u, "authors") ==> PrincipalTypeByName(u) == Some(PrincipalTypes.authors)
  {
    forall u | EqualsIgnoreCase(u, "authors")
      ensures PrincipalTypeByName(u) == Some(PrincipalTypes.authors)
    {
      EqualsIgnoreCaseTransfer(u, "authors");
    }
  }

  lemma PrincipalTypeFindscourse_admins()
    ensures forall u :: EqualsIgnoreCase(u, "course_admins") ==> PrincipalTypeByName(u) == Some(PrincipalTypes.course_admins)
  {
    forall u | EqualsIgnoreCase(u, "course_admins")
      ensures PrincipalTypeByName(u) == Some(PrincipalTypes.course_admins)
    {
      EqualsIgnoreCaseTransfer(u, "course_admins");
    }
  }

  lemma PrincipalTypeFindsevent_admins()
    ensures forall u :: EqualsIgnoreCase(u, "event_admins") ==> PrincipalTypeByName(u) == Some(PrincipalTypes.event_admins)
  {
    forall u | EqualsIgnoreCase(u, "event_admins")
      ensures PrincipalTypeByName(u) == Some(PrincipalTypes.event_admins)
    {
      EqualsIgnoreCaseTransfer(u, "event_admins");
    }
  }

  lemma PrincipalTypeFindsevent_group()
    ensures forall u :: EqualsIgnoreCase(u, "event_group") ==> PrincipalTypeByName(u) == Some(PrincipalTypes.event_group)
  {
    forall u | EqualsIgnoreCase(u, "event_group")
      ensures PrincipalTypeByName(u) == Some(PrincipalTypes.event_group)
    {
      EqualsIgnoreCaseTransfer(u, "event_group");
    }
  }

  lemma PrincipalTypeFindseveryone()
    ensures forall u :: EqualsIgnoreCase(u, "everyone") ==> PrincipalTypeByName(u) == Some(PrincipalTypes.everyone)
  {
    forall u | EqualsIgnoreCase(u, "everyone")
      ensures PrincipalTypeByName(u) == Some(PrincipalTypes.everyone)
    {
      EqualsIgnoreCaseTransfer(u, "everyone");
    }
  }

  lemma PrincipalTypeFindsexternal_group()
    ensures forall u :: EqualsIgnoreCase(u, "external_group") ==> PrincipalTypeByName(u) == Some(PrincipalTypes.external_group)
  {
    forall u | EqualsIgnoreCase(u, "external_group")
      ensures PrincipalTypeByName(u) == Some(PrincipalTypes.external_group)
    {
      EqualsIgnoreCaseTransfer(u, "external_group");
    }
  }

  lemma PrincipalTypeFindsexternal_user()
    ensures forall u :: EqualsIgnoreCase(u, "external_user") ==> PrincipalTypeByName(u) == Some(PrincipalTypes.external_user)
  {
    forall u | EqualsIgnoreCase(u, "external_user")
      ensures PrincipalTypeByName(u) == Some(PrincipalTypes.external_user)
    {
      EqualsIgnoreCaseTransfer(u, "external_user");
    }
  }

  lemma PrincipalTypeFindsgroup()
    ensures forall u :: EqualsIgnoreCase(u, "group") ==> PrincipalTypeByName(u) == Some(PrincipalTypes.group)
  {
    forall u | EqualsIgnoreCase(u, "group")
      ensures PrincipalTypeByName(u) == Some(PrincipalTypes.group)
    {
      EqualsIgnoreCaseTransfer(u, "group");
    }
  }

  lemma PrincipalTypeFindsguest()
    ensures forall u :: EqualsIgnoreCase(u, "guest") ==> PrincipalTypeByName(u) == Some(PrincipalTypes.guest)
  {
    forall u | EqualsIgnoreCase(u, "guest")
      ensures PrincipalTypeByName(u) == Some(PrincipalTypes.guest)
    {
      EqualsIgnoreCaseTransfer(u, "guest");
    }
  }

  lemma PrincipalTypeFindslearners()
    ensures forall u :: EqualsIgnoreCase(u, "learners") ==> PrincipalTypeByName(u) == Some(PrincipalTypes.learners)
  {
    forall u | EqualsIgnoreCase(u, "learners")
      ensures PrincipalTypeByName(u) == Some(PrincipalTypes.learners)
    {
      EqualsIgnoreCaseTransfer(u, "learners");
    }
  }

  lemma PrincipalTypeFindslive_admins()
    ensures forall u :: EqualsIgnoreCase(u, "live_admins") ==> PrincipalTypeByName(u) == Some(PrincipalTypes.live_admins)
  {
    forall u | EqualsIgnoreCase(u, "live_admins")
      ensures PrincipalTypeByName(u) == Some(PrincipalTypes.live_admins)
    {
      EqualsIgnoreCaseTransfer(u, "live_admins");
    }
  }

  lemma PrincipalTypeFindsseminar_admins()
    ensures forall u :: EqualsIgnoreCase(u, "seminar_admins") ==> PrincipalTypeByName(u) == Some(PrincipalTypes.seminar_admins)
  {
    forall u | EqualsIgnoreCase(u, "seminar_admins")
      ensures PrincipalTypeByName(u) == Some(PrincipalTypes.seminar_admins)
    {
      EqualsIgnoreCaseTransfer(u, "seminar_admins");
    }
  }

  lemma PrincipalTypeFindsuser()
    ensures forall u :: EqualsIgnoreCase(u, "user") ==> PrincipalTypeByName(u) == Some(PrincipalTypes.user)
  {
    forall u | EqualsIgnoreCase(u, "user")
      ensures PrincipalTypeByName(u) == Some(PrincipalTypes.user)
    {
      EqualsIgnoreCaseTransfer(u, "user");
    }
  }

  /** Each member's identifier and description form a wire name that reads
      back. One lemma per member keeps each evaluation small; the asserts
      in the longer ones evaluate the tail of a name first. */
  lemma PrincipalTypeSpelled(m: PrincipalTypes)
    ensures SpelledBy(PrincipalTypeName(m), PrincipalTypeDescription(m))
  {
    match m
    case admins => PrincipalTypeSpelledadmins();
    case authors => PrincipalTypeSpelledauthors();
    case course_admins => PrincipalTypeSpelledcourse_admins();
    case event_admins => PrincipalTypeSpelledevent_admins();
    case event_group => PrincipalTypeSpelledevent_group();
    case everyone => PrincipalTypeSpelledeveryone();
    case external_group => PrincipalTypeSpelledexternal_group();
    case external_user => PrincipalTypeSpelledexternal_user();
    case group => PrincipalTypeSpelledgroup();
    case guest => PrincipalTypeSpelledguest();
    case learners => PrincipalTypeSpelledlearners();
    case live_admins => PrincipalTypeSpelledlive_admins();
    case seminar_admins => PrincipalTypeSpelledseminar_admins();
    case user => PrincipalTypeSpelleduser();
  }

  lemma PrincipalTypeSpelledadmins() ensures SpelledBy("admins", Option.None) { }
  lemma PrincipalTypeSpelledauthors() ensures SpelledBy("authors", Option.None) { }
  lemma PrincipalTypeSpelledcourse_admins() ensures SpelledBy("course_admins", Option.None) {
    assert IsIdentifierFrom("course_admins", 10);
  }
  lemma PrincipalTypeSpelledevent_admins() ensures SpelledBy("event_admins", Option.None) {
    assert IsIdentifierFrom("event_admins", 10);
  }
  lemma PrincipalTypeSpelledevent_group() ensures SpelledBy("event_group", Option.None) {
    assert IsIdentifierFrom("event_group", 10);
  }
  lemma PrincipalTypeSpelledeveryone() ensures SpelledBy("everyone", Option.None) { }
  lemma PrincipalTypeSpelledexternal_group() ensures SpelledBy("external_group", Option.None) {
    assert IsIdentifierFrom("external_group", 10);
  }
  lemma PrincipalTypeSpelledexternal_user() ensures SpelledBy("external_user", Option.None) {
    assert IsIdentifierFrom("external_user", 10);
  }
  lemma PrincipalTypeSpelledgroup() ensures SpelledBy("group", Option.None) { }
  lemma PrincipalTypeSpelledguest() ensures SpelledBy("guest", Option.None) { }
  lemma PrincipalTypeSpelledlearners() ensures SpelledBy("learners", Option.None) { }
  lemma PrincipalTypeSpelledlive_admins() ensures SpelledBy("live_admins", Option.None) {
    assert IsIdentifierFrom("live_admins", 10);
  }
  lemma PrincipalTypeSpelledseminar_admins() ensures SpelledBy("seminar_admins", Option.None) {
    assert IsIdentifierFrom("seminar_admins", 10);
  }
  lemma PrincipalTypeSpelleduser() ensures SpelledBy("user", Option.None) { }

  /** Reading back what `EnumToString` writes yields the same member. */
  lemma PrincipalTypeRoundTrip(m: PrincipalTypes)
    ensures ReflectPrincipalType(Some(PrincipalTypeToString(m))) == Success(m)
  {
    PrincipalTypeSpelled(m);
    WireNameSpellsIdentifier(PrincipalTypeName(m), PrincipalTypeDescription(m));
    PrincipalTypeByNameFinds(m);
    ReflectWireName(PrincipalTypeToString(m), PrincipalTypes.admins, PrincipalTypeByName, PrincipalTypeName(m), m);
  }

  /** Without a description the wire value is the identifier as declared:
      the underscore is kept, not turned into a hyphen. */
  lemma PrincipalTypeWireNames()
    ensures PrincipalTypeToString(PrincipalTypes.course_admins) == "course_admins"
    ensures PrincipalTypeToString(PrincipalTypes.user) == "user"
  {
    ToLowerKeepsLowerCase("course_admins");
    ToLowerKeepsLowerCase("user");
  }

  /** `PrincipalSetup`: a string field that is `null` is `None`. */
  datatype PrincipalSetup = PrincipalSetup(
    principalType: PrincipalTypes,
    login: Option<string>,
    name: Option<string>,
    firstName: Option<string>,
    lastName: Option<string>,
    email: Option<string>,
    password: Option<string>,
    description: Option<string>,
    hasChildren: bool,
    principalId: Option<string>,
    sendEmail: bool)

  /** The public fields of a `PrincipalSetup` in declaration order, each with
      its identifier, its `[XmlElement]` and `[XmlAttribute]` names, and its
      value. */
  function PrincipalSetupFields(p: PrincipalSetup): (r: seq<Field>)
    ensures |r| == 11
  {
    [ Field(Descriptor("PrincipalType", Some("type"), Option.None),
            Member(PrincipalTypeName(p.principalType), PrincipalTypeDescription(p.principalType))),
      Field(Descriptor("Login", Option.None, Option.None), StrValue(p.login)),
      Field(Descriptor("Name", Option.None, Option.None), StrValue(p.name)),
      Field(Descriptor("FirstName", Some("first-name"), Option.None), StrValue(p.firstName)),
      Field(Descriptor("LastName", Some("last-name"), Option.None), StrValue(p.lastName)),
      Field(Descriptor("Email", Option.None, Option.None), StrValue(p.email)),
      Field(Descriptor("Password", Option.None, Option.None), StrValue(p.password)),
      Field(Descriptor("Description", Option.None, Option.None), StrValue(p.description)),
      Field(Descriptor("HasChildren", Some("has-children"), Option.None), Flag(p.hasChildren)),
      Field(Descriptor("PrincipalId", Option.None, Some("principal-id")), StrValue(p.principalId)),
      Field(Descriptor("SendEmail", Some("send-email"), Option.None), Flag(p.sendEmail)) ]
  }

  /** The parameters of `principal-update`, written out field by field: the
      type always, under `type`; the strings only when set, under `login`,
      `name`, `first-name`, `last-name`, `email`, `password`, `description`
      and `principal-id`; the two flags always, as `1` or `0`. */
  function PrincipalSetupParams(p: PrincipalSetup): seq<(string, string)> {
    [("type", PrincipalTypeToString(p.principalType))]
    + (OptionalParam("login", p.login)
    + (OptionalParam("name", p.name)
    + PrincipalSetupPersonParams(p)))
  }

  /** The parameters of the `FirstName` to `Password` fields and those after. */
  function PrincipalSetupPersonParams(p: PrincipalSetup): seq<(string, string)> {
    OptionalParam("first-name", p.firstName)
    + (OptionalParam("last-name", p.lastName)
    + (OptionalParam("email", p.email)
    + (OptionalParam("password", p.password)
    + PrincipalSetupAccountParams(p))))
  }

  /** The parameters of the `Description` field and those after. */
  function PrincipalSetupAccountParams(p: PrincipalSetup): seq<(string, string)> {
    OptionalParam("description", p.description)
    + ([("has-children", FlagText(p.hasChildren))]
    + (OptionalParam("principal-id", p.principalId)
    + [("send-email", FlagText(p.sendEmail))]))
  }

  /** The fields named after their identifier: the lower-cased identifier. */
  lemma PrincipalSetupDefaultNames()
    ensures WireName(Descriptor("Login", Option.None, Option.None), true) == "login"
    ensures WireName(Descriptor("Name", Option.None, Option.None), true) == "name"
    ensures WireName(Descriptor("Email", Option.None, Option.None), true) == "email"
    ensures WireName(Descriptor("Password", Option.None, Option.None), true) == "password"
    ensures WireName(Descriptor("Description", Option.None, Option.None), true) == "description"
  {
    DefaultNameIs("Login", "login");
    DefaultNameIs("Name", "name");
    DefaultNameIs("Email", "email");
    DefaultNameIs("Password", "password");
    DefaultNameIs("Description", "description");
  }

  /** A field without XML names goes by its lower-cased identifier. */
  lemma DefaultNameIs(name: string, lower: string)
    requires |lower| == |name|
    requires forall i :: 0 <= i < |name| ==> lower[i] == (if name[i] == '_' then '-' else FoldChar(name[i]))
    ensures WireName(Descriptor(name, Option.None, Option.None), true) == lower
  {
  }

  /** The fields with an element or attribute name: that name, as
      `PrincipalUpdate` passes the override flag. */
  lemma PrincipalSetupOverriddenNames()
    ensures WireName(Descriptor("PrincipalType", Some("type"), Option.None), true) == "type"
    ensures WireName(Descriptor("FirstName", Some("first-name"), Option.None), true) == "first-name"
    ensures WireName(Descriptor("LastName", Some("last-name"), Option.None), true) == "last-name"
    ensures WireName(Descriptor("HasChildren", Some("has-children"), Option.None), true) == "has-children"
    ensures WireName(Descriptor("PrincipalId", Option.None, Some("principal-id")), true) == "principal-id"
    ensures WireName(Descriptor("SendEmail", Some("send-email"), Option.None), true) == "send-email"
  {
  }

  /** Field 0, `Type`, sends `[("type", PrincipalTypeToString(p.principalType))]`. */
  lemma PrincipalSetupStepType(p: PrincipalSetup, formats: Formats)
    ensures ParamsFrom(PrincipalSetupFields(p), 0, true, formats) ==
      [("type", PrincipalTypeToString(p.principalType))] + ParamsFrom(PrincipalSetupFields(p), 1, true, formats)
  {
    var fs := PrincipalSetupFields(p);
    PrincipalSetupOverriddenNames();
    MemberFieldParam(fs, 0, true, formats, "type", PrincipalTypeName(p.principalType), PrincipalTypeDescription(p.principalType));
  }

  /** Field 1, `Login`, sends `OptionalParam("login", p.login)`. */
  lemma PrincipalSetupStepLogin(p: PrincipalSetup, formats: Formats)
    ensures ParamsFrom(PrincipalSetupFields(p), 1, true, formats) ==
      OptionalParam("login", p.login) + ParamsFrom(PrincipalSetupFields(p), 2, true, formats)
  {
    var fs := PrincipalSetupFields(p);
    PrincipalSetupDefaultNames();
    StrFieldParam(fs, 1, true, formats, "login", p.login);
  }

  /** Field 2, `Name`, sends `OptionalParam("name", p.name)`. */
  lemma PrincipalSetupStepName(p: PrincipalSetup, formats: Formats)
    ensures ParamsFrom(PrincipalSetupFields(p), 2, true, formats) ==
      OptionalParam("name", p.name) + ParamsFrom(PrincipalSetupFields(p), 3, true, formats)
  {
    var fs := PrincipalSetupFields(p);
    PrincipalSetupDefaultNames();
    StrFieldParam(fs, 2, true, formats, "name", p.name);
  }

  /** Field 3, `FirstName`, sends `OptionalParam("first-name", p.firstName)`. */
  lemma PrincipalSetupStepFirstName(p: PrincipalSetup, formats: Formats)
    ensures ParamsFrom(PrincipalSetupFields(p), 3, true, formats) ==
      OptionalParam("first-name", p.firstName) + ParamsFrom(PrincipalSetupFields(p), 4, true, formats)
  {
    var fs := PrincipalSetupFields(p);
    PrincipalSetupOverriddenNames();
    StrFieldParam(fs, 3, true, formats, "first-name", p.firstName);
  }

  /** Field 4, `LastName`, sends `OptionalParam("last-name", p.lastName)`. */
  lemma PrincipalSetupStepLastName(p: PrincipalSetup, formats: Formats)
    ensures ParamsFrom(PrincipalSetupFields(p), 4, true, formats) ==
      OptionalParam("last-name", p.lastName) + ParamsFrom(PrincipalSetupFields(p), 5, true, formats)
  {
    var fs := PrincipalSetupFields(p);
    PrincipalSetupOverriddenNames();
    StrFieldParam(fs, 4, true, formats, "last-name", p.lastName);
  }

  /** Field 5, `Email`, sends `OptionalParam("email", p.email)`. */
  lemma PrincipalSetupStepEmail(p: PrincipalSetup, formats: Formats)
    ensures ParamsFrom(PrincipalSetupFields(p), 5, true, formats) ==
      OptionalParam("email", p.email) + ParamsFrom(PrincipalSetupFields(p), 6, true, formats)
  {
    var fs := PrincipalSetupFields(p);
    PrincipalSetupDefaultNames();
    StrFieldParam(fs, 5, true, formats, "email", p.email);
  }

  /** Field 6, `Password`, sends `OptionalParam("password", p.password)`. */
  lemma PrincipalSetupStepPassword(p: PrincipalSetup, formats: Formats)
    ensures ParamsFrom(PrincipalSetupFields(p), 6, true, formats) ==
      OptionalParam("password", p.password) + ParamsFrom(PrincipalSetupFields(p), 7, true, formats)
  {
    var fs := PrincipalSetupFields(p);
    PrincipalSetupDefaultNames();
    StrFieldParam(fs, 6, true, formats, "password", p.password);
  }

  /** Field 7, `Description`, sends `OptionalParam("description", p.description)`. */
  lemma PrincipalSetupStepDescription(p: PrincipalSetup, formats: Formats)
    ensures ParamsFrom(PrincipalSetupFields(p), 7, true, formats) ==
      OptionalParam("description", p.description) + ParamsFrom(PrincipalSetupFields(p), 8, true, formats)
  {
    var fs := PrincipalSetupFields(p);
    PrincipalSetupDefaultNames();
    StrFieldParam(fs, 7, true, formats, "description", p.description);
  }

  /** Field 8, `HasChildren`, sends `[("has-children", FlagText(p.hasChildren))]`. */
  lemma PrincipalSetupStepHasChildren(p: PrincipalSetup, formats: Formats)
    ensures ParamsFrom(PrincipalSetupFields(p), 8, true, formats) ==
      [("has-children", FlagText(p.hasChildren))] + ParamsFrom(PrincipalSetupFields(p), 9, true, formats)
  {
    var fs := PrincipalSetupFields(p);
    PrincipalSetupOverriddenNames();
    FlagFieldParam(fs, 8, true, formats, "has-children", p.hasChildren);
  }

  /** Field 9, `PrincipalId`, sends `OptionalParam("principal-id", p.principalId)`. */
  lemma PrincipalSetupStepPrincipalId(p: PrincipalSetup, formats: Formats)
    ensures ParamsFrom(PrincipalSetupFields(p), 9, true, formats) ==
      OptionalParam("principal-id", p.principalId) + ParamsFrom(PrincipalSetupFields(p), 10, true, formats)
  {
    var fs := PrincipalSetupFields(p);
    PrincipalSetupOverriddenNames();
    StrFieldParam(fs, 9, true, formats, "principal-id", p.principalId);
  }

  /** Field 10, `SendEmail`, sends `[("send-email", FlagText(p.sendEmail))]`. */
  lemma PrincipalSetupStepSendEmail(p: PrincipalSetup, formats: Formats)
    ensures ParamsFrom(PrincipalSetupFields(p), 10, true, formats) ==
      [("send-email", FlagText(p.sendEmail))] + ParamsFrom(PrincipalSetupFields(p), 11, true, formats)
  {
    var fs := PrincipalSetupFields(p);
    PrincipalSetupOverriddenNames();
    FlagFieldParam(fs, 10, true, formats, "send-email", p.sendEmail);
  }

  /** The parameters from the `Description` field on. */
  lemma PrincipalSetupQueryFrom7(p: PrincipalSetup, formats: Formats)
    ensures ParamsFrom(PrincipalSetupFields(p), 7, true, formats) == PrincipalSetupAccountParams(p)
  {
    PrincipalSetupStepDescription(p, formats);
    PrincipalSetupStepHasChildren(p, formats);
    PrincipalSetupStepPrincipalId(p, formats);
    PrincipalSetupStepSendEmail(p, formats);
    assert ParamsFrom(PrincipalSetupFields(p), 11, true, formats) == [];
  }

  /** The parameters from the `FirstName` field on. */
  lemma PrincipalSetupQueryFrom3(p: PrincipalSetup, formats: Formats)
    ensures ParamsFrom(PrincipalSetupFields(p), 3, true, formats) == PrincipalSetupPersonParams(p)
  {
    PrincipalSetupStepFirstName(p, formats);
    PrincipalSetupStepLastName(p, formats);
    PrincipalSetupStepEmail(p, formats);
    PrincipalSetupStepPassword(p, formats);
    PrincipalSetupQueryFrom7(p, formats);
  }

  /** `StructToQueryString(principalSetup, true)` sends exactly the
      parameters of `PrincipalSetupParams`, in that order. */
  lemma PrincipalSetupQuery(p: PrincipalSetup, formats: Formats)
    ensures Params(PrincipalSetupFields(p), true, formats) == PrincipalSetupParams(p)
  {
    PrincipalSetupStepType(p, formats);
    PrincipalSetupStepLogin(p, formats);
    PrincipalSetupStepName(p, formats);
    PrincipalSetupQueryFrom3(p, formats);
  }
}
