/** Account quotas (`QuotaInfo.cs`): the typed `Limit` is `[XmlIgnore]`, and
    the raw `limit` text property prints and parses it as an invariant
    decimal `long`, reading the word `unlimited` as zero. */
module QuotaInfo {
  import opened Wrappers
  import opened Decimal
  import opened XmlBinding

  /** A .NET `long`. */
  type Long = n: int | IsInt64(n) witness 0

  /** What the `LimitRaw` setter stores for the attribute text `value`, or the
      exception it throws. */
  function DecodeLimit(value: Option<string>): (r: Result<Long>)
    ensures value == Some("unlimited") ==> r == Success(0)
    ensures value != Some("unlimited") ==> r == ParseInt64(value)
  {
    if value == Some("unlimited") then Success(0)
    else
      var n :- ParseInt64(value);
      Success(n)
  }

  /** A printed `long` starts with a digit or a minus sign, so it is never the
      word `unlimited`. */
  lemma PrintedIsNotUnlimited(n: int)
    ensures IntToString(n) != "unlimited"
  {
    var s := IntToString(n);
    if n >= 0 {
      assert IsDigit(s[0]);
    } else {
      assert s[0] == '-';
    }
    assert "unlimited"[0] == 'u';
  }

  /** Printing a limit and reading the text back gives the same limit. */
  lemma DecodePrintedLimit(n: Long)
    ensures DecodeLimit(Some(IntToString(n))) == Success(n)
  {
    PrintedIsNotUnlimited(n);
    ParsePrinted(n);
  }

  /** `unlimited` and `0` decode to the same limit, so once decoded the two
      cannot be told apart. */
  lemma UnlimitedReadsAsZero()
    ensures DecodeLimit(Some("unlimited")) == Success(0)
    ensures DecodeLimit(Some("0")) == Success(0)
  {
    assert TrimNumberWhiteSpace("0") == "0";
    assert DigitsValue("0") == 0;
  }

  /** A missing attribute makes `long.Parse(null)` throw, and text that is not
      a number is a format error. */
  lemma MalformedLimits()
    ensures DecodeLimit(Option.None) == Failure(ArgumentNull("s"))
    ensures DecodeLimit(Some("none")).Failure? && DecodeLimit(Some("none")).error.Format?
    ensures DecodeLimit(Some("")).Failure? && DecodeLimit(Some("")).error.Format?
  {
    assert TrimNumberWhiteSpace("none") == "none";
    assert !IsDigit("none"[0]);
  }

  /** The `[XmlAttribute]` members of `Quota` as declared: the raw `limit`
      property is `internal`. */
  const QuotaAttributes: seq<AttributeMember> := [
    AttributeMember("acl-id", Public), AttributeMember("quota-id", Public), AttributeMember("used", Public),
    AttributeMember("limit", Internal), AttributeMember("soft-limit", Public)]

  /** The `Limit` a deserialized quota holds when its attributes are
      `attrs`: the raw property's setter decodes the `limit` text when the
      member is bound (a decode error aborts the read); otherwise it stays 0. */
  function DeserializedLimit(members: seq<AttributeMember>, attrs: map<string, string>): (r: Result<Long>)
    ensures BoundText(members, attrs, "limit").None? ==> r == Success(0)
    ensures BoundText(members, attrs, "limit").Some? ==> r == DecodeLimit(Some(attrs["limit"]))
  {
    var text := BoundText(members, attrs, "limit");
    if text.Some? then DecodeLimit(text) else Success(0)
  }

  /** As declared, no reply sets `Limit`: every quota reads as limit 0. */
  lemma LimitNeverBound(attrs: map<string, string>)
    ensures DeserializedLimit(QuotaAttributes, attrs) == Success(0)
  {
    InternalOnlyNotBound(QuotaAttributes, "limit");
  }

  /** With the raw property public, a limit reads back from its printed
      text. */
  lemma PublishedLimitRoundTrip(n: Long)
    ensures DeserializedLimit(Published(QuotaAttributes), map["limit" := IntToString(n)]) == Success(n)
  {
    PublishedBinds(QuotaAttributes, 3);
    DecodePrintedLimit(n);
  }

  /** One `quota` element of `report-quotas`. */
  class Quota {
    var aclId: Long
    var quotaId: Option<string>
    var used: Long
    var limit: Long
    var softLimit: Long

    constructor()
      ensures aclId == 0 && quotaId.None? && used == 0 && limit == 0 && softLimit == 0
    {
      aclId := 0;
      quotaId := Option.None;
      used := 0;
      limit := 0;
      softLimit := 0;
    }

    /** The `LimitRaw` getter: the invariant decimal text of the limit,
        which the setter decodes back to the same limit. */
    function LimitRaw(): (r: string)
      reads this
      ensures DecodeLimit(Some(r)) == Success(limit)
    {
      DecodePrintedLimit(limit);
      IntToString(limit)
    }

    /** The `LimitRaw` setter: stores the decoded limit, or throws and leaves
        the quota as it was. */
    method SetLimitRaw(value: Option<string>) returns (r: Result<()>)
      modifies this`limit
      ensures r.Success? <==> DecodeLimit(value).Success?
      ensures r.Success? ==> limit == DecodeLimit(value).value
      ensures r.Failure? ==> r.error == DecodeLimit(value).error && limit == old(limit)
      ensures aclId == old(aclId) && quotaId == old(quotaId) && used == old(used) && softLimit == old(softLimit)
    {
      var decoded := DecodeLimit(value);
      if decoded.Failure? {
        return Failure(decoded.error);
      }
      limit := decoded.value;
      return Success(());
    }

    /** Binding the getter's text back through the setter changes nothing. */
    method RestoreLimitFromRaw()
      modifies this`limit
      ensures limit == old(limit)
    {
      var _ := SetLimitRaw(Some(LimitRaw()));
    }
  }
}
