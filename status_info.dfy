/** The status records every API call returns and the two status enums with
    their wire names (`StatusInfo.cs`). */
module StatusInfo {
  import opened Wrappers
  import opened Text
  import opened EnumReflection
  import XmlTree

  /** `StatusCodes`: the `code` attribute of the `status` element. `NotSet` is the first member and so `default(StatusCodes)`. */
  datatype StatusCodes =
    NotSet | OK | Invalid | NoAccess | NoData | TooMuchData | InternalError

  function StatusCodeName(m: StatusCodes): string {
    match m
    case NotSet => "NotSet"
    case OK => "OK"
    case Invalid => "Invalid"
    case NoAccess => "NoAccess"
    case NoData => "NoData"
    case TooMuchData => "TooMuchData"
    case InternalError => "InternalError"
  }

  function StatusCodeDescription(m: StatusCodes): Option<string> {
    match m
    case NotSet => Option.None
    case OK => Option.None
    case Invalid => Some("invalid")
    case NoAccess => Some("no-access")
    case NoData => Some("no-data")
    case TooMuchData => Some("too-much-data")
    case InternalError => Some("internal-error")
  }

  /** `Helpers.EnumToString` on a `StatusCodes`. */
  function StatusCodeToString(m: StatusCodes): string {
    EnumToString(StatusCodeName(m), StatusCodeDescription(m))
  }

  /** `Enum.Parse(typeof(StatusCodes), t, true)` on a name: the members are tried
      in declaration order. */
  function StatusCodeByName(t: string): Option<StatusCodes> {
    if EqualsIgnoreCase(t, "NotSet") then Some(StatusCodes.NotSet)
    else if EqualsIgnoreCase(t, "OK") then Some(StatusCodes.OK)
    else if EqualsIgnoreCase(t, "Invalid") then Some(StatusCodes.Invalid)
    else if EqualsIgnoreCase(t, "NoAccess") then Some(StatusCodes.NoAccess)
    else if EqualsIgnoreCase(t, "NoData") then Some(StatusCodes.NoData)
    else if EqualsIgnoreCase(t, "TooMuchData") then Some(StatusCodes.TooMuchData)
    else if EqualsIgnoreCase(t, "InternalError") then Some(StatusCodes.InternalError)
    else Option.None
  }

  /** `Helpers.ReflectEnum<StatusCodes>(text)`. */
  function ReflectStatusCode(text: Option<string>): Result<StatusCodes> {
    ReflectEnum(text, StatusCodes.NotSet, StatusCodeByName)
  }

  /** Any spelling of a member's identifier, in any case, finds that member:
      no two identifiers differ only in case. */
  lemma StatusCodeByNameFinds(m: StatusCodes)
    ensures forall u :: EqualsIgnoreCase(u, StatusCodeName(m)) ==> StatusCodeByName(u) == Some(m)
  {
    match m
    case NotSet => StatusCodeFindsNotSet();
    case OK => StatusCodeFindsOK();
    case Invalid => StatusCodeFindsInvalid();
    case NoAccess => StatusCodeFindsNoAccess();
    case NoData => StatusCodeFindsNoData();
    case TooMuchData => StatusCodeFindsTooMuchData();
    case InternalError => StatusCodeFindsInternalError();
  }

  lemma StatusCodeFindsNotSet()
    ensures forall u :: EqualsIgnoreCase(u, "NotSet") ==> StatusCodeByName(u) == Some(StatusCodes.NotSet)
  {
    forall u | EqualsIgnoreCase(u, "NotSet")
      ensures StatusCodeByName(u) == Some(StatusCodes.NotSet)
    {
      EqualsIgnoreCaseTransfer(u, "NotSet");
    }
  }

  lemma StatusCodeFindsOK()
    ensures forall u :: EqualsIgnoreCase(u, "OK") ==> StatusCodeByName(u) == Some(StatusCodes.OK)
  {
    forall u | EqualsIgnoreCase(u, "OK")
      ensures StatusCodeByName(u) == Some(StatusCodes.OK)
    {
      EqualsIgnoreCaseTransfer(u, "OK");
    }
  }

  lemma StatusCodeFindsInvalid()
    ensures forall u :: EqualsIgnoreCase(u, "Invalid") ==> StatusCodeByName(u) == Some(StatusCodes.Invalid)
  {
    forall u | EqualsIgnoreCase(u, "Invalid")
      ensures StatusCodeByName(u) == Some(StatusCodes.Invalid)
    {
      EqualsIgnoreCaseTransfer(u, "Invalid");
    }
  }

  lemma StatusCodeFindsNoAccess()
    ensures forall u :: EqualsIgnoreCase(u, "NoAccess") ==> StatusCodeByName(u) == Some(StatusCodes.NoAccess)
  {
    forall u | EqualsIgnoreCase(u, "NoAccess")
      ensures StatusCodeByName(u) == Some(StatusCodes.NoAccess)
    {
      EqualsIgnoreCaseTransfer(u, "NoAccess");
    }
  }

  lemma StatusCodeFindsNoData()
    ensures forall u :: EqualsIgnoreCase(u, "NoData") ==> StatusCodeByName(u) == Some(StatusCodes.NoData)
  {
    forall u | EqualsIgnoreCase(u, "NoData")
      ensures StatusCodeByName(u) == Some(StatusCodes.NoData)
    {
      EqualsIgnoreCaseTransfer(u, "NoData");
    }
  }

  lemma StatusCodeFindsTooMuchData()
    ensures forall u :: EqualsIgnoreCase(u, "TooMuchData") ==> StatusCodeByName(u) == Some(StatusCodes.TooMuchData)
  {
    forall u | EqualsIgnoreCase(u, "TooMuchData")
      ensures StatusCodeByName(u) == Some(StatusCodes.TooMuchData)
    {
      EqualsIgnoreCaseTransfer(u, "TooMuchData");
    }
  }

  lemma StatusCodeFindsInternalError()
    ensures forall u :: EqualsIgnoreCase(u, "InternalError") ==> StatusCodeByName(u) == Some(StatusCodes.InternalError)
  {
    forall u | EqualsIgnoreCase(u, "InternalError")
      ensures StatusCodeByName(u) == Some(StatusCodes.InternalError)
    {
      EqualsIgnoreCaseTransfer(u, "InternalError");
    }
  }

  /** Each member's identifier and description form a wire name that reads
      back. One lemma per member keeps each evaluation small; the asserts
      in the longer ones evaluate the tail of a name first. */
  lemma StatusCodeSpelled(m: StatusCodes)
    ensures SpelledBy(StatusCodeName(m), StatusCodeDescription(m))
  {
    match m
    case NotSet => StatusCodeSpelledNotSet();
    case OK => StatusCodeSpelledOK();
    case Invalid => StatusCodeSpelledInvalid();
    case NoAccess => StatusCodeSpelledNoAccess();
    case NoData => StatusCodeSpelledNoData();
    case TooMuchData => StatusCodeSpelledTooMuchData();
    case InternalError => StatusCodeSpelledInternalError();
  }

  lemma StatusCodeSpelledNotSet() ensures SpelledBy("NotSet", Option.None) { }
  lemma StatusCodeSpelledOK() ensures SpelledBy("OK", Option.None) { }
  lemma StatusCodeSpelledInvalid() ensures SpelledBy("Invalid", Some("invalid")) { }
  lemma StatusCodeSpelledNoAccess() ensures SpelledBy("NoAccess", Some("no-access")) { }
  lemma StatusCodeSpelledNoData() ensures SpelledBy("NoData", Some("no-data")) { }
  lemma StatusCodeSpelledTooMuchData() ensures SpelledBy("TooMuchData", Some("too-much-data")) {
    assert IsIdentifierFrom("TooMuchData", 10);
    assert AllWireChars("too-much-data", 10) && MatchesSkippingHyphens("too-much-data", 10, "TooMuchData", 8);
  }
  lemma StatusCodeSpelledInternalError() ensures SpelledBy("InternalError", Some("internal-error")) {
    assert IsIdentifierFrom("InternalError", 10);
    assert AllWireChars("internal-error", 10) && MatchesSkippingHyphens("internal-error", 10, "InternalError", 9);
  }

  /** Reading back what `EnumToString` writes yields the same member. */
  lemma StatusCodeRoundTrip(m: StatusCodes)
    ensures ReflectStatusCode(Some(StatusCodeToString(m))) == Success(m)
  {
    StatusCodeSpelled(m);
    WireNameSpellsIdentifier(StatusCodeName(m), StatusCodeDescription(m));
    StatusCodeByNameFinds(m);
    ReflectWireName(StatusCodeToString(m), StatusCodes.NotSet, StatusCodeByName, StatusCodeName(m), m);
  }

  /** `StatusSubCodes`: the `subcode` attribute of the `invalid` element. `NotSet` is the first member and so `default(StatusSubCodes)`. */
  datatype StatusSubCodes =
    NotSet | AccountExpired | Denied | NoLogin | NoQuota | NotAvailable | NotSecure | PendingActivation | PendingLicense | ScoExpired | ScoNotStarted | Duplicate | IllegalOperation | NoSuchItem | Range | Missing | Format

  function StatusSubCodeName(m: StatusSubCodes): string {
    match m
    case NotSet => "NotSet"
    case AccountExpired => "AccountExpired"
    case Denied => "Denied"
    case NoLogin => "NoLogin"
    case NoQuota => "NoQuota"
    case NotAvailable => "NotAvailable"
    case NotSecure => "NotSecure"
    case PendingActivation => "PendingActivation"
    case PendingLicense => "PendingLicense"
    case ScoExpired => "ScoExpired"
    case ScoNotStarted => "ScoNotStarted"
    case Duplicate => "Duplicate"
    case IllegalOperation => "IllegalOperation"
    case NoSuchItem => "NoSuchItem"
    case Range => "Range"
    case Missing => "Missing"
    case Format => "Format"
  }

  function StatusSubCodeDescription(m: StatusSubCodes): Option<string> {
    match m
    case NotSet => Option.None
    case AccountExpired => Some("account-expired")
    case Denied => Some("Denied")
    case NoLogin => Some("no-Login")
    case NoQuota => Some("no-quota")
    case NotAvailable => Some("not-available")
    case NotSecure => Some("not-secure")
    case PendingActivation => Some("pending-activation")
    case PendingLicense => Some("pending-license")
    case ScoExpired => Some("sco-expired")
    case ScoNotStarted => Some("sco-not-started")
    case Duplicate => Some("duplicate")
    case IllegalOperation => Some("illegal-operation")
    case NoSuchItem => Some("no-such-item")
    case Range => Some("range")
    case Missing => Some("missing")
    case Format => Some("format")
  }

  /** `Helpers.EnumToString` on a `StatusSubCodes`. */
  function StatusSubCodeToString(m: StatusSubCodes): string {
    EnumToString(StatusSubCodeName(m), StatusSubCodeDescription(m))
  }

  /** `Enum.Parse(typeof(StatusSubCodes), t, true)` on a name: the members are tried
      in declaration order. */
  function StatusSubCodeByName(t: string): Option<StatusSubCodes> {
    if EqualsIgnoreCase(t, "NotSet") then Some(StatusSubCodes.NotSet)
    else if EqualsIgnoreCase(t, "AccountExpired") then Some(StatusSubCodes.AccountExpired)
    else if EqualsIgnoreCase(t, "Denied") then Some(StatusSubCodes.Denied)
    else if EqualsIgnoreCase(t, "NoLogin") then Some(StatusSubCodes.NoLogin)
    else if EqualsIgnoreCase(t, "NoQuota") then Some(StatusSubCodes.NoQuota)
    else if EqualsIgnoreCase(t, "NotAvailable") then Some(StatusSubCodes.NotAvailable)
    else if EqualsIgnoreCase(t, "NotSecure") then Some(StatusSubCodes.NotSecure)
    else if EqualsIgnoreCase(t, "PendingActivation") then Some(StatusSubCodes.PendingActivation)
    else if EqualsIgnoreCase(t, "PendingLicense") then Some(StatusSubCodes.PendingLicense)
    else if EqualsIgnoreCase(t, "ScoExpired") then Some(StatusSubCodes.ScoExpired)
    else if EqualsIgnoreCase(t, "ScoNotStarted") then Some(StatusSubCodes.ScoNotStarted)
    else if EqualsIgnoreCase(t, "Duplicate") then Some(StatusSubCodes.Duplicate)
    else if EqualsIgnoreCase(t, "IllegalOperation") then Some(StatusSubCodes.IllegalOperation)
    else if EqualsIgnoreCase(t, "NoSuchItem") then Some(StatusSubCodes.NoSuchItem)
    else if EqualsIgnoreCase(t, "Range") then Some(StatusSubCodes.Range)
    else if EqualsIgnoreCase(t, "Missing") then Some(StatusSubCodes.Missing)
    else if EqualsIgnoreCase(t, "Format") then Some(StatusSubCodes.Format)
    else Option.None
  }

  /** `Helpers.ReflectEnum<StatusSubCodes>(text)`. */
  function ReflectStatusSubCode(text: Option<string>): Result<StatusSubCodes> {
    ReflectEnum(text, StatusSubCodes.NotSet, StatusSubCodeByName)
  }

  /** Any spelling of a member's identifier, in any case, finds that member:
      no two identifiers differ only in case. */
  lemma StatusSubCodeByNameFinds(m: StatusSubCodes)
    ensures forall u :: EqualsIgnoreCase(u, StatusSubCodeName(m)) ==> StatusSubCodeByName(u) == Some(m)
  {
    match m
    case NotSet => StatusSubCodeFindsNotSet();
    case AccountExpired => StatusSubCodeFindsAccountExpired();
    case Denied => StatusSubCodeFindsDenied();
    case NoLogin => StatusSubCodeFindsNoLogin();
    case NoQuota => StatusSubCodeFindsNoQuota();
    case NotAvailable => StatusSubCodeFindsNotAvailable();
    case NotSecure => StatusSubCodeFindsNotSecure();
    case PendingActivation => StatusSubCodeFindsPendingActivation();
    case PendingLicense => StatusSubCodeFindsPendingLicense();
    case ScoExpired => StatusSubCodeFindsScoExpired();
    case ScoNotStarted => StatusSubCodeFindsScoNotStarted();
    case Duplicate => StatusSubCodeFindsDuplicate();
    case IllegalOperation => StatusSubCodeFindsIllegalOperation();
    case NoSuchItem => StatusSubCodeFindsNoSuchItem();
    case Range => StatusSubCodeFindsRange();
    case Missing => StatusSubCodeFindsMissing();
    case Format => StatusSubCodeFindsFormat();
  }

  lemma StatusSubCodeFindsNotSet()
    ensures forall u :: EqualsIgnoreCase(u, "NotSet") ==> StatusSubCodeByName(u) == Some(StatusSubCodes.NotSet)
  {
    forall u | EqualsIgnoreCase(u, "NotSet")
      ensures StatusSubCodeByName(u) == Some(StatusSubCodes.NotSet)
    {
      EqualsIgnoreCaseTransfer(u, "NotSet");
    }
  }

  lemma StatusSubCodeFindsAccountExpired()
    ensures forall u :: EqualsIgnoreCase(u, "AccountExpired") ==> StatusSubCodeByName(u) == Some(StatusSubCodes.AccountExpired)
  {
    forall u | EqualsIgnoreCase(u, "AccountExpired")
      ensures StatusSubCodeByName(u) == Some(StatusSubCodes.AccountExpired)
    {
      EqualsIgnoreCaseTransfer(u, "AccountExpired");
    }
  }

  lemma StatusSubCodeFindsDenied()
    ensures forall u :: EqualsIgnoreCase(u, "Denied") ==> StatusSubCodeByName(u) == Some(StatusSubCodes.Denied)
  {
    forall u | EqualsIgnoreCase(u, "Denied")
      ensures StatusSubCodeByName(u) == Some(StatusSubCodes.Denied)
    {
      EqualsIgnoreCaseTransfer(u, "Denied");
    }
  }

  lemma StatusSubCodeFindsNoLogin()
    ensures forall u :: EqualsIgnoreCase(u, "NoLogin") ==> StatusSubCodeByName(u) == Some(StatusSubCodes.NoLogin)
  {
    forall u | EqualsIgnoreCase(u, "NoLogin")
      ensures StatusSubCodeByName(u) == Some(StatusSubCodes.NoLogin)
    {
      EqualsIgnoreCaseTransfer(u, "NoLogin");
    }
  }

  lemma StatusSubCodeFindsNoQuota()
    ensures forall u :: EqualsIgnoreCase(u, "NoQuota") ==> StatusSubCodeByName(u) == Some(StatusSubCodes.NoQuota)
  {
    forall u | EqualsIgnoreCase(u, "NoQuota")
      ensures StatusSubCodeByName(u) == Some(StatusSubCodes.NoQuota)
    {
      EqualsIgnoreCaseTransfer(u, "NoQuota");
    }
  }

  lemma StatusSubCodeFindsNotAvailable()
    ensures forall u :: EqualsIgnoreCase(u, "NotAvailable") ==> StatusSubCodeByName(u) == Some(StatusSubCodes.NotAvailable)
  {
    forall u | EqualsIgnoreCase(u, "NotAvailable")
      ensures StatusSubCodeByName(u) == Some(StatusSubCodes.NotAvailable)
    {
      EqualsIgnoreCaseTransfer(u, "NotAvailable");
    }
  }

  lemma StatusSubCodeFindsNotSecure()
    ensures forall u :: EqualsIgnoreCase(u, "NotSecure") ==> StatusSubCodeByName(u) == Some(StatusSubCodes.NotSecure)
  {
    forall u | EqualsIgnoreCase(u, "NotSecure")
      ensures StatusSubCodeByName(u) == Some(StatusSubCodes.NotSecure)
    {
      EqualsIgnoreCaseTransfer(u, "NotSecure");
    }
  }

  lemma StatusSubCodeFindsPendingActivation()
    ensures forall u :: EqualsIgnoreCase(u, "PendingActivation") ==> StatusSubCodeByName(u) == Some(StatusSubCodes.PendingActivation)
  {
    forall u | EqualsIgnoreCase(u, "PendingActivation")
      ensures StatusSubCodeByName(u) == Some(StatusSubCodes.PendingActivation)
    {
      EqualsIgnoreCaseTransfer(u, "PendingActivation");
    }
  }

  lemma StatusSubCodeFindsPendingLicense()
    ensures forall u :: EqualsIgnoreCase(u, "PendingLicense") ==> StatusSubCodeByName(u) == Some(StatusSubCodes.PendingLicense)
  {
    forall u | EqualsIgnoreCase(u, "PendingLicense")
      ensures StatusSubCodeByName(u) == Some(StatusSubCodes.PendingLicense)
    {
      EqualsIgnoreCaseTransfer(u, "PendingLicense");
    }
  }

  lemma StatusSubCodeFindsScoExpired()
    ensures forall u :: EqualsIgnoreCase(u, "ScoExpired") ==> StatusSubCodeByName(u) == Some(StatusSubCodes.ScoExpired)
  {
    forall u | EqualsIgnoreCase(u, "ScoExpired")
      ensures StatusSubCodeByName(u) == Some(StatusSubCodes.ScoExpired)
    {
      EqualsIgnoreCaseTransfer(u, "ScoExpired");
    }
  }

  lemma StatusSubCodeFindsScoNotStarted()
    ensures forall u :: EqualsIgnoreCase(u, "ScoNotStarted") ==> StatusSubCodeByName(u) == Some(StatusSubCodes.ScoNotStarted)
  {
    forall u | EqualsIgnoreCase(u, "ScoNotStarted")
      ensures StatusSubCodeByName(u) == Some(StatusSubCodes.ScoNotStarted)
    {
      EqualsIgnoreCaseTransfer(u, "ScoNotStarted");
    }
  }

  lemma StatusSubCodeFindsDuplicate()
    ensures forall u :: EqualsIgnoreCase(u, "Duplicate") ==> StatusSubCodeByName(u) == Some(StatusSubCodes.Duplicate)
  {
    forall u | EqualsIgnoreCase(u, "Duplicate")
      ensures StatusSubCodeByName(u) == Some(StatusSubCodes.Duplicate)
    {
      EqualsIgnoreCaseTransfer(u, "Duplicate");
    }
  }

  lemma StatusSubCodeFindsIllegalOperation()
    ensures forall u :: EqualsIgnoreCase(u, "IllegalOperation") ==> StatusSubCodeByName(u) == Some(StatusSubCodes.IllegalOperation)
  {
    forall u | EqualsIgnoreCase(u, "IllegalOperation")
      ensures StatusSubCodeByName(u) == Some(StatusSubCodes.IllegalOperation)
    {
      EqualsIgnoreCaseTransfer(u, "IllegalOperation");
    }
  }

  lemma StatusSubCodeFindsNoSuchItem()
    ensures forall u :: EqualsIgnoreCase(u, "NoSuchItem") ==> StatusSubCodeByName(u) == Some(StatusSubCodes.NoSuchItem)
  {
    forall u | EqualsIgnoreCase(u, "NoSuchItem")
      ensures StatusSubCodeByName(u) == Some(StatusSubCodes.NoSuchItem)
    {
      EqualsIgnoreCaseTransfer(u, "NoSuchItem");
    }
  }

  lemma StatusSubCodeFindsRange()
    ensures forall u :: EqualsIgnoreCase(u, "Range") ==> StatusSubCodeByName(u) == Some(StatusSubCodes.Range)
  {
    forall u | EqualsIgnoreCase(u, "Range")
      ensures StatusSubCodeByName(u) == Some(StatusSubCodes.Range)
    {
      EqualsIgnoreCaseTransfer(u, "Range");
    }
  }

  lemma StatusSubCodeFindsMissing()
    ensures forall u :: EqualsIgnoreCase(u, "Missing") ==> StatusSubCodeByName(u) == Some(StatusSubCodes.Missing)
  {
    forall u | EqualsIgnoreCase(u, "Missing")
      ensures StatusSubCodeByName(u) == Some(StatusSubCodes.Missing)
    {
      EqualsIgnoreCaseTransfer(u, "Missing");
    }
  }

  lemma StatusSubCodeFindsFormat()
    ensures forall u :: EqualsIgnoreCase(u, "Format") ==> StatusSubCodeByName(u) == Some(StatusSubCodes.Format)
  {
    forall u | EqualsIgnoreCase(u, "Format")
      ensures StatusSubCodeByName(u) == Some(StatusSubCodes.Format)
    {
      EqualsIgnoreCaseTransfer(u, "Format");
    }
  }

  /** Each member's identifier and description form a wire name that reads
      back. One lemma per member keeps each evaluation small; the asserts
      in the longer ones evaluate the tail of a name first. */
  lemma StatusSubCodeSpelled(m: StatusSubCodes)
    ensures SpelledBy(StatusSubCodeName(m), StatusSubCodeDescription(m))
  {
    match m
    case NotSet => StatusSubCodeSpelledNotSet();
    case AccountExpired => StatusSubCodeSpelledAccountExpired();
    case Denied => StatusSubCodeSpelledDenied();
    case NoLogin => StatusSubCodeSpelledNoLogin();
    case NoQuota => StatusSubCodeSpelledNoQuota();
    case NotAvailable => StatusSubCodeSpelledNotAvailable();
    case NotSecure => StatusSubCodeSpelledNotSecure();
    case PendingActivation => StatusSubCodeSpelledPendingActivation();
    case PendingLicense => StatusSubCodeSpelledPendingLicense();
    case ScoExpired => StatusSubCodeSpelledScoExpired();
    case ScoNotStarted => StatusSubCodeSpelledScoNotStarted();
    case Duplicate => StatusSubCodeSpelledDuplicate();
    case IllegalOperation => StatusSubCodeSpelledIllegalOperation();
    case NoSuchItem => StatusSubCodeSpelledNoSuchItem();
    case Range => StatusSubCodeSpelledRange();
    case Missing => StatusSubCodeSpelledMissing();
    case Format => StatusSubCodeSpelledFormat();
  }

  lemma StatusSubCodeSpelledNotSet() ensures SpelledBy("NotSet", Option.None) { }
  lemma StatusSubCodeSpelledAccountExpired() ensures SpelledBy("AccountExpired", Some("account-expired")) {
    assert IsIdentifierFrom("AccountExpired", 10);
    assert AllWireChars("account-expired", 10) && MatchesSkippingHyphens("account-expired", 10, "AccountExpired", 9);
    assert AllWireChars("account-expired", 5) && MatchesSkippingHyphens("account-expired", 5, "AccountExpired", 5);
  }
  lemma StatusSubCodeSpelledDenied() ensures SpelledBy("Denied", Some("Denied")) { }
  lemma StatusSubCodeSpelledNoLogin() ensures SpelledBy("NoLogin", Some("no-Login")) { }
  lemma StatusSubCodeSpelledNoQuota() ensures SpelledBy("NoQuota", Some("no-quota")) { }
  lemma StatusSubCodeSpelledNotAvailable() ensures SpelledBy("NotAvailable", Some("not-available")) {
    assert IsIdentifierFrom("NotAvailable", 10);
    assert AllWireChars("not-available", 10) && MatchesSkippingHyphens("not-available", 10, "NotAvailable", 9);
    assert AllWireChars("not-available", 5) && MatchesSkippingHyphens("not-available", 5, "NotAvailable", 4);
  }
  lemma StatusSubCodeSpelledNotSecure() ensures SpelledBy("NotSecure", Some("not-secure")) { }
  lemma StatusSubCodeSpelledPendingActivation() ensures SpelledBy("PendingActivation", Some("pending-activation")) {
    assert IsIdentifierFrom("PendingActivation", 14);
    assert AllWireChars("pending-activation", 15) && MatchesSkippingHyphens("pending-activation", 15, "PendingActivation", 14);
    assert IsIdentifierFrom("PendingActivation", 10);
    assert AllWireChars("pending-activation", 10) && MatchesSkippingHyphens("pending-activation", 10, "PendingActivation", 9);
    assert AllWireChars("pending-activation", 5) && MatchesSkippingHyphens("pending-activation", 5, "PendingActivation", 5);
  }
  lemma StatusSubCodeSpelledPendingLicense() ensures SpelledBy("PendingLicense", Some("pending-license")) {
    assert IsIdentifierFrom("PendingLicense", 10);
    assert AllWireChars("pending-license", 10) && MatchesSkippingHyphens("pending-license", 10, "PendingLicense", 9);
    assert AllWireChars("pending-license", 5) && MatchesSkippingHyphens("pending-license", 5, "PendingLicense", 5);
  }
  lemma StatusSubCodeSpelledScoExpired() ensures SpelledBy("ScoExpired", Some("sco-expired")) {
    assert AllWireChars("sco-expired", 10) && MatchesSkippingHyphens("sco-expired", 10, "ScoExpired", 9);
  }
  lemma StatusSubCodeSpelledScoNotStarted() ensures SpelledBy("ScoNotStarted", Some("sco-not-started")) {
    assert IsIdentifierFrom("ScoNotStarted", 10);
    assert AllWireChars("sco-not-started", 10) && MatchesSkippingHyphens("sco-not-started", 10, "ScoNotStarted", 8);
    assert AllWireChars("sco-not-started", 5) && MatchesSkippingHyphens("sco-not-started", 5, "ScoNotStarted", 4);
  }
  lemma StatusSubCodeSpelledDuplicate() ensures SpelledBy("Duplicate", Some("duplicate")) { }
  lemma StatusSubCodeSpelledIllegalOperation() ensures SpelledBy("IllegalOperation", Some("illegal-operation")) {
    assert IsIdentifierFrom("IllegalOperation", 14);
    assert AllWireChars("illegal-operation", 15) && MatchesSkippingHyphens("illegal-operation", 15, "IllegalOperation", 14);
    assert IsIdentifierFrom("IllegalOperation", 10);
    assert AllWireChars("illegal-operation", 10) && MatchesSkippingHyphens("illegal-operation", 10, "IllegalOperation", 9);
    assert AllWireChars("illegal-operation", 5) && MatchesSkippingHyphens("illegal-operation", 5, "IllegalOperation", 5);
  }
  lemma StatusSubCodeSpelledNoSuchItem() ensures SpelledBy("NoSuchItem", Some("no-such-item")) {
    assert AllWireChars("no-such-item", 10) && MatchesSkippingHyphens("no-such-item", 10, "NoSuchItem", 8);
  }
  lemma StatusSubCodeSpelledRange() ensures SpelledBy("Range", Some("range")) { }
  lemma StatusSubCodeSpelledMissing() ensures SpelledBy("Missing", Some("missing")) { }
  lemma StatusSubCodeSpelledFormat() ensures SpelledBy("Format", Some("format")) { }

  /** Reading back what `EnumToString` writes yields the same member. */
  lemma StatusSubCodeRoundTrip(m: StatusSubCodes)
    ensures ReflectStatusSubCode(Some(StatusSubCodeToString(m))) == Success(m)
  {
    StatusSubCodeSpelled(m);
    WireNameSpellsIdentifier(StatusSubCodeName(m), StatusSubCodeDescription(m));
    StatusSubCodeByNameFinds(m);
    ReflectWireName(StatusSubCodeToString(m), StatusSubCodes.NotSet, StatusSubCodeByName, StatusSubCodeName(m), m);
  }

  /** The wire codes the server writes are the members' wire names, so by
      `StatusCodeRoundTrip` each decodes to the member it names. */
  lemma StatusCodeWireNames()
    ensures StatusCodeToString(StatusCodes.OK) == "ok"
    ensures StatusCodeToString(StatusCodes.Invalid) == "invalid"
    ensures StatusCodeToString(StatusCodes.NoAccess) == "no-access"
    ensures StatusCodeToString(StatusCodes.NoData) == "no-data"
    ensures StatusCodeToString(StatusCodes.TooMuchData) == "too-much-data"
    ensures StatusCodeToString(StatusCodes.InternalError) == "internal-error"
  {
  }

  /** Two sub-code descriptions carry capitals; by `StatusSubCodeRoundTrip`
      they still decode to their members. */
  lemma CapitalisedSubCodeWireNames()
    ensures StatusSubCodeToString(StatusSubCodes.Denied) == "Denied"
    ensures StatusSubCodeToString(StatusSubCodes.NoLogin) == "no-Login"
  {
  }

  /** The fields every status record shares (`BaseStatusInfo`). A .NET
      exception object is represented by its kind. */
  datatype BaseStatusInfo = BaseStatusInfo(
    code: StatusCodes,
    subCode: StatusSubCodes,
    invalidField: Option<string>,
    exception: Option<string>,
    innerException: Option<Error>,
    sessionInfo: Option<string>)

  /** A freshly constructed status: every field at its default. */
  const DefaultStatusInfo := BaseStatusInfo(StatusCodes.NotSet, StatusSubCodes.NotSet, None, None, None, None)

  /** `ApiStatus`: the outcome of one call, with the elements that followed
      the `status` element re-rooted under `resultroot`. */
  datatype ApiStatus = ApiStatus(info: BaseStatusInfo, resultDocument: Option<XmlTree.XDocument>)

  /** The typed statuses (`LoginStatus`, `MeetingDetailStatus`, ...): the
      shared fields and the call's result. */
  datatype TypedStatus<T> = TypedStatus(info: BaseStatusInfo, result: T)
}
