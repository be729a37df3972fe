/** The static helpers of `Helpers.cs`: reading the status envelope of a
    response, wrapping statuses, and encoding a record's public fields as a
    query string. `EnumToString` and `ReflectEnum<T>` are in `EnumReflection`. */
module Helpers {
  import opened Wrappers
  import opened Text
  import opened EnumReflection
  import opened StatusInfo
  import XmlTree
  import HttpUtilsInternal

  // ---------------------------------------------------------------------
  // The status envelope.

  /** The `code` attribute of the `status` element, decoded. A missing
      attribute makes `.Value` dereference null. */
  function ReadCode(status: XmlTree.XNode): (r: Result<StatusCodes>)
    ensures XmlTree.Attribute(status, "code").None? ==> r == Failure(NullReference)
    ensures XmlTree.Attribute(status, "code").Some? ==> r == ReflectStatusCode(XmlTree.Attribute(status, "code"))
  {
    var text := XmlTree.Attribute(status, "code");
    if text.None? then Failure(NullReference) else ReflectStatusCode(text)
  }

  /** The sub-code and the invalid field, read from the first `invalid`
      element below `status` when there is one. */
  function ReadInvalid(status: XmlTree.XNode): (r: Result<(StatusSubCodes, Option<string>)>)
    ensures XmlTree.DescendantFind(status, "invalid").None? ==> r == Success((StatusSubCodes.NotSet, Option.None))
  {
    match XmlTree.DescendantFind(status, "invalid")
    case None => Success((StatusSubCodes.NotSet, Option.None))
    case Some(hit) =>
      var text := XmlTree.Attribute(hit.element, "subcode");
      if text.None? then Failure(NullReference)
      else
        var sub :- ReflectStatusSubCode(text);
        Success((sub, XmlTree.Attribute(hit.element, "field")))
  }

  /** The text of the first `exception` element below `status`, if any. */
  function ReadException(status: XmlTree.XNode): Option<string> {
    match XmlTree.DescendantFind(status, "exception")
    case None => Option.None
    case Some(hit) => Some(XmlTree.Value(hit.element))
  }

  /** The elements that follow `status`, re-rooted under `resultroot`; no
      document when there are none. */
  function ResultDocument(after: seq<XmlTree.XNode>): (r: Option<XmlTree.XDocument>)
    ensures r.Some? <==> after != []
    ensures r.Some? ==> r.value.root.Element? && r.value.root.name == "resultroot" && r.value.root.children == after
  {
    if after == [] then Option.None
    else Some(XmlTree.XDocument(XmlTree.Element("resultroot", [], after)))
  }

  /** The status that a found `status` element (with the elements following
      it) describes. */
  function ReadEnvelope(hit: XmlTree.Hit): Result<ApiStatus> {
    var code :- ReadCode(hit.element);
    var invalid :- ReadInvalid(hit.element);
    var info := DefaultStatusInfo.(code := code, subCode := invalid.0, invalidField := invalid.1,
                                   exception := ReadException(hit.element));
    Success(ApiStatus(info, ResultDocument(hit.after)))
  }

  /** What `ResolveOperationStatusFlags` returns for a loaded document: no
      envelope (null) when there is no `status` element. */
  function ResolveStatus(doc: XmlTree.XDocument): Result<Option<ApiStatus>> {
    match XmlTree.DocumentFind(doc, "status")
    case None => Success(Option.None)
    case Some(hit) =>
      var status :- ReadEnvelope(hit);
      Success(Some(status))
  }

  /** `Helpers.ResolveOperationStatusFlags`, filling the status field by field. */
  method ResolveOperationStatusFlags(doc: XmlTree.XDocument) returns (r: Result<Option<ApiStatus>>)
    ensures r == ResolveStatus(doc)
  {
    var operationApiStatus := ApiStatus(DefaultStatusInfo, Option.None);
    var statusNode := XmlTree.DocumentFind(doc, "status");
    if statusNode.None? {
      return Success(Option.None);
    }
    var node := statusNode.value.element;
    var codeText := XmlTree.Attribute(node, "code");
    if codeText.None? {
      return Failure(NullReference);
    }
    var code := ReflectStatusCode(codeText);
    if code.Failure? {
      return Failure(code.error);
    }
    operationApiStatus := operationApiStatus.(info := operationApiStatus.info.(code := code.value));

    var subStatusNode := XmlTree.DescendantFind(node, "invalid");
    if subStatusNode.Some? {
      var subText := XmlTree.Attribute(subStatusNode.value.element, "subcode");
      if subText.None? {
        return Failure(NullReference);
      }
      var subCode := ReflectStatusSubCode(subText);
      if subCode.Failure? {
        return Failure(subCode.error);
      }
      operationApiStatus := operationApiStatus.(info := operationApiStatus.info.(subCode := subCode.value));
      var field := XmlTree.Attribute(subStatusNode.value.element, "field");
      operationApiStatus := operationApiStatus.(info := operationApiStatus.info.(invalidField := field));
    }

    var exceptionNode := XmlTree.DescendantFind(node, "exception");
    if exceptionNode.Some? {
      var text := XmlTree.Value(exceptionNode.value.element);
      operationApiStatus := operationApiStatus.(info := operationApiStatus.info.(exception := Some(text)));
    }

    if statusNode.value.after != [] {
      var root := XmlTree.Element("resultroot", [], statusNode.value.after);
      operationApiStatus := operationApiStatus.(resultDocument := Some(XmlTree.XDocument(root)));
    }
    return Success(Some(operationApiStatus));
  }

  /** The envelope read is the first `status` element in document order, and
      there is no envelope exactly when the document has no `status` element. */
  lemma StatusIsFirstInDocumentOrder(doc: XmlTree.XDocument)
    ensures XmlTree.FirstNamed(XmlTree.Preorder([doc.root]), "status").None? ==> ResolveStatus(doc) == Success(Option.None)
    ensures XmlTree.FirstNamed(XmlTree.Preorder([doc.root]), "status").Some? ==>
      var status := ReadEnvelope(XmlTree.FirstNamed(XmlTree.Preorder([doc.root]), "status").value);
      (status.Success? ==> ResolveStatus(doc) == Success(Some(status.value))) &&
      (status.Failure? ==> ResolveStatus(doc) == Failure(status.error))
  {
    XmlTree.FindFirstIsDocumentOrder([doc.root], "status");
  }

  /** Without an `invalid` element the sub-code and the invalid field keep
      their defaults; the result document is present exactly when elements
      follow the status, and then holds those elements, in order. */
  lemma EnvelopeFields(hit: XmlTree.Hit)
    requires ReadEnvelope(hit).Success?
    ensures var s := ReadEnvelope(hit).value;
      (XmlTree.DescendantFind(hit.element, "invalid").None? ==>
         s.info.subCode == StatusSubCodes.NotSet && s.info.invalidField.None?) &&
      (XmlTree.DescendantFind(hit.element, "exception").None? <==> s.info.exception.None?) &&
      (s.resultDocument.Some? <==> hit.after != []) &&
      (s.resultDocument.Some? ==> s.resultDocument.value.root == XmlTree.Element("resultroot", [], hit.after)) &&
      s.info.innerException.None? && s.info.sessionInfo.None?
  {
  }

  /** A `status` element whose `code` is a member's wire name, as the first
      child of the response root, reads back as that member; the siblings
      after it become the result document. */
  lemma EnvelopeRoundTrip(c: StatusCodes, rest: seq<XmlTree.XNode>)
    ensures var status := XmlTree.Element("status", [XmlTree.XAttribute("code", StatusCodeToString(c))], []);
      var doc := XmlTree.XDocument(XmlTree.Element("results", [], [status] + rest));
      ResolveStatus(doc) == Success(Some(ApiStatus(DefaultStatusInfo.(code := c), ResultDocument(XmlTree.ElementsOf(rest)))))
  {
    var status := XmlTree.Element("status", [XmlTree.XAttribute("code", StatusCodeToString(c))], []);
    var doc := XmlTree.XDocument(XmlTree.Element("results", [], [status] + rest));
    assert ([status] + rest)[1..] == rest;
    assert XmlTree.FindFirst([status] + rest, "status") == Some(XmlTree.Hit(status, XmlTree.ElementsOf(rest)));
    assert XmlTree.DocumentFind(doc, "status") == Some(XmlTree.Hit(status, XmlTree.ElementsOf(rest)));
    StatusCodeRoundTrip(c);
  }

  /** A `status` element without a `code` attribute makes the parser throw. */
  lemma MissingCodeThrows(hit: XmlTree.Hit)
    requires XmlTree.Attribute(hit.element, "code").None?
    ensures ReadEnvelope(hit) == Failure(NullReference)
  {
  }

  // ---------------------------------------------------------------------
  // Wrapping statuses.

  /** `Helpers.WrapStatusException`: a status carrying only the given codes
      and the exception. */
  function WrapStatusException(code: StatusCodes, subCode: StatusSubCodes, exInfo: Error): (r: ApiStatus)
    ensures r.info.code == code && r.info.subCode == subCode && r.info.innerException == Some(exInfo)
    ensures r.info.invalidField.None? && r.info.exception.None? && r.info.sessionInfo.None?
    ensures r.resultDocument.None?
  {
    ApiStatus(DefaultStatusInfo.(code := code, subCode := subCode, innerException := Some(exInfo)), Option.None)
  }

  /** `Helpers.WrapBaseStatusInfo<T>`: a new typed status whose shared fields
      are copied from `source` and whose result is the type's default. A null
      source is dereferenced. */
  function WrapBaseStatusInfo<T>(source: Option<ApiStatus>, default: T): (r: Result<TypedStatus<T>>)
    ensures r.Success? <==> source.Some?
    ensures source.None? ==> r == Failure(NullReference)
    ensures r.Success? ==> r.value.info == source.value.info && r.value.result == default
  {
    if source.None? then Failure(NullReference)
    else Success(TypedStatus(source.value.info, default))
  }

  /** `Helpers.Add<T>`: the sequence with one more element at its end. */
  function Add<T>(e: seq<T>, value: T): (r: seq<T>)
    ensures |r| == |e| + 1 && r[..|e|] == e && r[|e|] == value
  {
    e + [value]
  }

  // ---------------------------------------------------------------------
  // Query strings.

  /** The value of one public field, as `StructToQueryString` classifies it:
      a null reference, a string, a `bool`, a `DateTime` or a `TimeSpan`
      (both as ticks), or an enum member (its identifier and description). */
  datatype FieldValue =
    | Null
    | Str(s: string)
    | Flag(b: bool)
    | Date(ticks: int)
    | Duration(ticks: int)
    | Member(name: string, description: Option<string>)

  /** What reflection tells about one public field: its identifier and the
      names of its `[XmlElement]` and `[XmlAttribute]` attributes. A bare
      `[XmlElement]` has the empty name. */
  datatype Descriptor = Descriptor(name: string, element: Option<string>, attribute: Option<string>)

  datatype Field = Field(descriptor: Descriptor, value: FieldValue)

  /** The formatting that depends on code outside this model: a `DateTime`
      with `Constants.DateFormatString`, and a `TimeSpan`'s `TotalMinutes`. */
  datatype Formats = Formats(date: int -> string, minutes: int -> string)

  /** The fields left out of the query: null, `DateTime.MinValue` and
      `TimeSpan.Zero`. */
  predicate Skipped(v: FieldValue) {
    v.Null? || (v.Date? && v.ticks == 0) || (v.Duration? && v.ticks == 0)
  }

  /** The text of an included field's value, before URL encoding. */
  function ValueText(v: FieldValue, formats: Formats): (r: string)
    requires !Skipped(v)
    ensures v.Str? ==> r == v.s
    ensures v.Flag? ==> r == (if v.b then "1" else "0")
    ensures v.Member? ==> r == EnumToString(v.name, v.description)
  {
    match v
    case Str(s) => s
    case Flag(b) => if b then "1" else "0"
    case Date(ticks) => formats.date(ticks)
    case Duration(ticks) => formats.minutes(ticks)
    case Member(name, description) => EnumToString(name, description)
  }

  /** The identifier with `_` turned into `-`, lower-cased. */
  function DefaultWireName(name: string): (r: string)
    ensures |r| == |name|
    ensures forall i :: 0 <= i < |name| ==> r[i] == (if name[i] == '_' then '-' else FoldChar(name[i]))
  {
    ToLower(ReplaceChar(name, '_', '-'))
  }

  /** The parameter name of a field: the default, replaced (with the
      override flag set) by a non-empty `[XmlElement]` name and then by a
      non-empty `[XmlAttribute]` name. */
  function WireName(d: Descriptor, xmlOverride: bool): (r: string)
    ensures !xmlOverride ==> r == DefaultWireName(d.name)
    ensures xmlOverride && d.attribute.Some? && d.attribute.value != [] ==> r == d.attribute.value
    ensures xmlOverride && !(d.attribute.Some? && d.attribute.value != []) && d.element.Some? && d.element.value != [] ==>
      r == d.element.value
    ensures xmlOverride && !(d.attribute.Some? && d.attribute.value != []) && !(d.element.Some? && d.element.value != []) ==>
      r == DefaultWireName(d.name)
  {
    var n := DefaultWireName(d.name);
    if !xmlOverride then n
    else
      var n1 := if d.element.Some? && d.element.value != [] then d.element.value else n;
      if d.attribute.Some? && d.attribute.value != [] then d.attribute.value else n1
  }

  /** The (name, value text) parameters of the fields from index `i` on,
      skipped fields left out, in field order, before URL encoding. */
  function ParamsFrom(fields: seq<Field>, i: nat, xmlOverride: bool, formats: Formats): seq<(string, string)>
    decreases |fields| - i
  {
    if i >= |fields| then []
    else if Skipped(fields[i].value) then ParamsFrom(fields, i + 1, xmlOverride, formats)
    else [(WireName(fields[i].descriptor, xmlOverride), ValueText(fields[i].value, formats))]
         + ParamsFrom(fields, i + 1, xmlOverride, formats)
  }

  /** A reference-typed field holding a string: `null` or the string. */
  function StrValue(s: Option<string>): (r: FieldValue)
    ensures r.Null? <==> s.None?
    ensures s.Some? ==> r == Str(s.value)
  {
    if s.None? then Null else Str(s.value)
  }

  /** The parameter of a string field, or nothing when it is `null`. */
  function OptionalParam(name: string, value: Option<string>): seq<(string, string)> {
    if value.None? then [] else [(name, value.value)]
  }

  /** What `OptionalParam` yields is named `name` and holds the value. */
  lemma OptionalParamMembers(name: string, value: Option<string>)
    ensures forall x :: x in OptionalParam(name, value) <==> value.Some? && x == (name, value.value)
  {
  }

  /** A `bool` as the query sends it. */
  function FlagText(b: bool): string {
    if b then "1" else "0"
  }

  // One step of `ParamsFrom` per kind of field, for tables whose wire names
  // are known. Records are written out through these one field at a time.

  lemma StrFieldParam(fields: seq<Field>, i: nat, xmlOverride: bool, formats: Formats, name: string, s: Option<string>)
    requires i < |fields| && WireName(fields[i].descriptor, xmlOverride) == name && fields[i].value == StrValue(s)
    ensures ParamsFrom(fields, i, xmlOverride, formats) == OptionalParam(name, s) + ParamsFrom(fields, i + 1, xmlOverride, formats)
  {
  }

  lemma FlagFieldParam(fields: seq<Field>, i: nat, xmlOverride: bool, formats: Formats, name: string, b: bool)
    requires i < |fields| && WireName(fields[i].descriptor, xmlOverride) == name && fields[i].value == Flag(b)
    ensures ParamsFrom(fields, i, xmlOverride, formats) ==
      [(name, FlagText(b))] + ParamsFrom(fields, i + 1, xmlOverride, formats)
  {
  }

  lemma MemberFieldParam(fields: seq<Field>, i: nat, xmlOverride: bool, formats: Formats, name: string,
                         member: string, description: Option<string>)
    requires i < |fields| && WireName(fields[i].descriptor, xmlOverride) == name
    requires fields[i].value == Member(member, description)
    ensures ParamsFrom(fields, i, xmlOverride, formats) ==
      [(name, EnumToString(member, description))] + ParamsFrom(fields, i + 1, xmlOverride, formats)
  {
  }

  function Params(fields: seq<Field>, xmlOverride: bool, formats: Formats): seq<(string, string)> {
    ParamsFrom(fields, 0, xmlOverride, formats)
  }

  /** Parameters with their values URL-encoded, as they go on the wire. */
  function Encoded(params: seq<(string, string)>): (r: seq<(string, string)>)
    ensures |r| == |params|
    ensures forall k :: 0 <= k < |params| ==> r[k] == (params[k].0, HttpUtilsInternal.UrlEncoded(params[k].1))
  {
    seq(|params|, k requires 0 <= k < |params| => (params[k].0, HttpUtilsInternal.UrlEncoded(params[k].1)))
  }

  /** Parameters written out as `&name=value` each. */
  function Render(params: seq<(string, string)>): (r: string)
    ensures params == [] <==> r == []
    ensures r != [] ==> r[0] == '&'
  {
    if params == [] then [] else "&" + params[0].0 + "=" + params[0].1 + Render(params[1..])
  }

  /** What `StructToQueryString` appends for one field. */
  function Param(f: Field, xmlOverride: bool, formats: Formats): (r: string)
    ensures r == [] <==> Skipped(f.value)
    ensures r != [] ==> r[0] == '&'
  {
    if Skipped(f.value) then []
    else "&" + WireName(f.descriptor, xmlOverride) + "=" + HttpUtilsInternal.UrlEncoded(ValueText(f.value, formats))
  }

  /** The query string of the fields from index `i` on. */
  function QueryFrom(fields: seq<Field>, i: nat, xmlOverride: bool, formats: Formats): string
    decreases |fields| - i
  {
    if i >= |fields| then [] else Param(fields[i], xmlOverride, formats) + QueryFrom(fields, i + 1, xmlOverride, formats)
  }

  /** The classification step of `StructToQueryString`: whether the field
      is skipped, and otherwise the text its value is converted to. */
  method ConvertFieldValue(fieldValue: FieldValue, formats: Formats) returns (skip: bool, text: string)
    ensures skip == Skipped(fieldValue)
    ensures !skip ==> text == ValueText(fieldValue, formats)
  {
    skip, text := false, "";
    if fieldValue.Null? {
      skip := true;
    } else if fieldValue.Flag? {
      text := if fieldValue.b then "1" else "0";
    } else if fieldValue.Date? {
      if fieldValue.ticks == 0 {
        skip := true;
      } else {
        text := formats.date(fieldValue.ticks);
      }
    } else if fieldValue.Duration? {
      if fieldValue.ticks == 0 {
        skip := true;
      } else {
        text := formats.minutes(fieldValue.ticks);
      }
    } else if fieldValue.Member? {
      text := EnumToString(fieldValue.name, fieldValue.description);
    } else {
      text := fieldValue.s;
    }
  }

  /** The naming step of `StructToQueryString`. */
  method FieldName(d: Descriptor, xmlElementAttributeOverride: bool) returns (fieldName: string)
    ensures fieldName == WireName(d, xmlElementAttributeOverride)
  {
    fieldName := ToLower(ReplaceChar(d.name, '_', '-'));
    if xmlElementAttributeOverride {
      if d.element.Some? && d.element.value != [] {
        fieldName := d.element.value;
      }
      if d.attribute.Some? && d.attribute.value != [] {
        fieldName := d.attribute.value;
      }
    }
  }

  /** One pass of the loop of `StructToQueryString`: the text appended for
      field `fi`, empty when the field is skipped. */
  method FormatParam(fi: Field, xmlElementAttributeOverride: bool, formats: Formats) returns (param: string)
    ensures param == Param(fi, xmlElementAttributeOverride, formats)
  {
    var skip, text := ConvertFieldValue(fi.value, formats);
    if skip {
      return "";
    }
    var fieldName := FieldName(fi.descriptor, xmlElementAttributeOverride);
    var encoded := HttpUtilsInternal.UrlEncode(Some(text));
    param := "&" + fieldName + "=" + encoded.value;
  }

  lemma QueryStep(fields: seq<Field>, i: nat, xmlOverride: bool, formats: Formats, done: string, param: string)
    requires i < |fields| && param == Param(fields[i], xmlOverride, formats)
    ensures done + QueryFrom(fields, i, xmlOverride, formats) == (done + param) + QueryFrom(fields, i + 1, xmlOverride, formats)
  {
    var rest := QueryFrom(fields, i + 1, xmlOverride, formats);
    assert QueryFrom(fields, i, xmlOverride, formats) == param + rest;
    assert done + (param + rest) == (done + param) + rest;
  }

  /** `Helpers.StructToQueryString` on a record whose public fields are
      `setup`: null for a null record, else the concatenated parameters. */
  method StructToQueryString(setup: Option<seq<Field>>, xmlElementAttributeOverride: bool, formats: Formats)
    returns (r: Option<string>)
    ensures setup.None? ==> r.None?
    ensures setup.Some? ==> r == Some(QueryFrom(setup.value, 0, xmlElementAttributeOverride, formats))
  {
    if setup.None? {
      return Option.None;
    }
    var fields := setup.value;
    var cmdParams := "";
    var i := 0;
    while i < |fields|
      invariant 0 <= i <= |fields|
      invariant cmdParams + QueryFrom(fields, i, xmlElementAttributeOverride, formats)
                == QueryFrom(fields, 0, xmlElementAttributeOverride, formats)
    {
      var param := FormatParam(fields[i], xmlElementAttributeOverride, formats);
      QueryStep(fields, i, xmlElementAttributeOverride, formats, cmdParams, param);
      cmdParams := cmdParams + param;
      i := i + 1;
    }
    assert cmdParams + [] == cmdParams;
    return Some(cmdParams);
  }

  lemma {:induction false} QueryIsRendered(fields: seq<Field>, i: nat, xmlOverride: bool, formats: Formats)
    ensures QueryFrom(fields, i, xmlOverride, formats) == Render(Encoded(ParamsFrom(fields, i, xmlOverride, formats)))
    decreases |fields| - i
  {
    if i < |fields| {
      QueryIsRendered(fields, i + 1, xmlOverride, formats);
      var raw := ParamsFrom(fields, i, xmlOverride, formats);
      var tail := ParamsFrom(fields, i + 1, xmlOverride, formats);
      if !Skipped(fields[i].value) {
        var ps := Encoded(raw);
        assert raw[1..] == tail;
        assert ps[1..] == Encoded(tail);
        assert ps[0] == (WireName(fields[i].descriptor, xmlOverride),
                         HttpUtilsInternal.UrlEncoded(ValueText(fields[i].value, formats)));
        assert Render(ps) == "&" + ps[0].0 + "=" + ps[0].1 + Render(ps[1..]);
      } else {
        assert raw == tail;
      }
    }
  }

  // ---------------------------------------------------------------------
  // Reading a query string back, as the server does.

  /** The index of the first `c` in `s`, or `|s|`. */
  function IndexOf(s: string, c: char): (r: nat)
    ensures r <= |s|
    ensures r < |s| ==> s[r] == c
    ensures forall j :: 0 <= j < r ==> s[j] != c
  {
    if s == [] || s[0] == c then 0 else 1 + IndexOf(s[1..], c)
  }

  lemma {:induction false} IndexOfAfter(a: string, b: string, c: char)
    requires forall j :: 0 <= j < |a| ==> a[j] != c
    requires b == [] || b[0] == c
    ensures IndexOf(a + b, c) == |a|
    decreases |a|
  {
    if a != [] {
      assert (a + b)[1..] == a[1..] + b;
      IndexOfAfter(a[1..], b, c);
    } else {
      assert a + b == b;
    }
  }

  /** The server's reading of a query string: parameters separated by `&`,
      each split at its first `=`. */
  function ParseQuery(q: string): seq<(string, string)>
    decreases |q|
  {
    if q == [] then []
    else
      var rest := q[1..];
      var end := IndexOf(rest, '&');
      var param := rest[..end];
      var eq := IndexOf(param, '=');
      [(param[..eq], if eq < |param| then param[eq + 1..] else [])] + ParseQuery(rest[end..])
  }

  predicate NoSeparators(s: string) {
    forall j :: 0 <= j < |s| ==> s[j] != '&' && s[j] != '='
  }

  /** Parsing one rendered parameter in front of further ones. */
  lemma ParseOne(n: string, v: string, tail: string)
    requires NoSeparators(n) && NoSeparators(v)
    requires tail == [] || tail[0] == '&'
    ensures ParseQuery("&" + n + "=" + v + tail) == [(n, v)] + ParseQuery(tail)
  {
    var q := "&" + n + "=" + v + tail;
    var param := n + "=" + v;
    var rest := param + tail;
    assert q[1..] == rest;
    assert forall j :: 0 <= j < |param| ==> param[j] != '&' by {
      forall j | 0 <= j < |param|
        ensures param[j] != '&'
      {
        if j > |n| {
          assert param[j] == v[j - |n| - 1];
        }
      }
    }
    IndexOfAfter(param, tail, '&');
    assert rest[..|param|] == param;
    assert rest[|param|..] == tail;
    assert param == n + ("=" + v);
    IndexOfAfter(n, "=" + v, '=');
    assert param[..|n|] == n;
    assert param[|n| + 1..] == v;
    assert ParseQuery(q) == [(param[..|n|], param[|n| + 1..])] + ParseQuery(rest[|param|..]);
  }

  /** Rendering then parsing gives back the parameters, provided no name or
      value contains `&` or `=`. */
  lemma {:induction false} RenderParses(params: seq<(string, string)>)
    requires forall k :: 0 <= k < |params| ==> NoSeparators(params[k].0) && NoSeparators(params[k].1)
    ensures ParseQuery(Render(params)) == params
  {
    if params != [] {
      var tail := params[1..];
      forall k | 0 <= k < |tail|
        ensures NoSeparators(tail[k].0) && NoSeparators(tail[k].1)
      {
        assert tail[k] == params[k + 1];
      }
      RenderParses(tail);
      ParseOne(params[0].0, params[0].1, Render(tail));
      assert [params[0]] + tail == params;
    }
  }

  /** The names of the parameters emitted for `fields`, in field order. */
  predicate NamesHaveNoSeparators(fields: seq<Field>, xmlOverride: bool) {
    forall k :: 0 <= k < |fields| ==> NoSeparators(WireName(fields[k].descriptor, xmlOverride))
  }

  lemma {:induction false} ParamNamesHaveNoSeparators(fields: seq<Field>, i: nat, xmlOverride: bool, formats: Formats)
    requires NamesHaveNoSeparators(fields, xmlOverride)
    ensures forall k :: 0 <= k < |ParamsFrom(fields, i, xmlOverride, formats)| ==>
      NoSeparators(ParamsFrom(fields, i, xmlOverride, formats)[k].0)
    decreases |fields| - i
  {
    if i < |fields| {
      ParamNamesHaveNoSeparators(fields, i + 1, xmlOverride, formats);
      var ps := ParamsFrom(fields, i, xmlOverride, formats);
      var tail := ParamsFrom(fields, i + 1, xmlOverride, formats);
      if !Skipped(fields[i].value) {
        assert ps == [(WireName(fields[i].descriptor, xmlOverride), ValueText(fields[i].value, formats))] + tail;
        assert NoSeparators(WireName(fields[i].descriptor, xmlOverride));
        forall k | 1 <= k < |ps|
          ensures NoSeparators(ps[k].0)
        {
          assert ps[k] == tail[k - 1];
          assert NoSeparators(tail[k - 1].0);
        }
      } else {
        assert ps == tail;
      }
    }
  }

  lemma ParamsHaveNoSeparators(fields: seq<Field>, xmlOverride: bool, formats: Formats)
    requires NamesHaveNoSeparators(fields, xmlOverride)
    ensures forall k :: 0 <= k < |Encoded(Params(fields, xmlOverride, formats))| ==>
      NoSeparators(Encoded(Params(fields, xmlOverride, formats))[k].0) &&
      NoSeparators(Encoded(Params(fields, xmlOverride, formats))[k].1)
  {
    var raw := ParamsFrom(fields, 0, xmlOverride, formats);
    ParamNamesHaveNoSeparators(fields, 0, xmlOverride, formats);
    var ps := Encoded(raw);
    forall k | 0 <= k < |ps|
      ensures NoSeparators(ps[k].0) && NoSeparators(ps[k].1)
    {
      HttpUtilsInternal.UrlEncodedHasNoSeparators(raw[k].1);
      assert ps[k] == (raw[k].0, HttpUtilsInternal.UrlEncoded(raw[k].1));
      assert NoSeparators(raw[k].0);
      assert NoSeparators(HttpUtilsInternal.UrlEncoded(raw[k].1));
    }
  }

  /** The query string reads back as exactly the included fields' names and
      URL-encoded values, in field order; each value in turn form-decodes to
      the UTF-8 bytes of its text (`UrlEncodedRoundTrip`). */
  lemma QueryRoundTrip(fields: seq<Field>, xmlOverride: bool, formats: Formats)
    requires NamesHaveNoSeparators(fields, xmlOverride)
    ensures ParseQuery(QueryFrom(fields, 0, xmlOverride, formats)) == Encoded(Params(fields, xmlOverride, formats))
  {
    QueryIsRendered(fields, 0, xmlOverride, formats);
    ParamsHaveNoSeparators(fields, xmlOverride, formats);
    RenderParses(Encoded(Params(fields, xmlOverride, formats)));
  }

  /** The query string is empty or starts with `&`, and is empty exactly when
      every field is skipped. */
  lemma {:induction false} QueryShape(fields: seq<Field>, i: nat, xmlOverride: bool, formats: Formats)
    ensures var q := QueryFrom(fields, i, xmlOverride, formats);
      (q == [] || q[0] == '&') &&
      (q == [] <==> forall k :: i <= k < |fields| ==> Skipped(fields[k].value))
    decreases |fields| - i
  {
    if i < |fields| {
      QueryShape(fields, i + 1, xmlOverride, formats);
    }
  }
}
