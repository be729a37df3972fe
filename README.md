# Adobe Connect SDK — a verified Dafny model of its core

The Adobe Connect SDK is a thin .NET client for the Adobe Connect XML-over-HTTP
API. Each API call is one `action=<name>&<params>` request. The server replies
with an XML document whose `status` element carries a code, and the SDK turns
that reply into an `ApiStatus`.

This project models the parts of the SDK whose behaviour can be stated
exactly:

- **Form URL encoder** (`HttpUtilsInternal`, module `HttpUtilsInternal`). It
  is written as a `MemoryStream` class and the encoding loops. Each loop is
  proved against `EncodeUnits`/`EncodeBytes`. The proved properties include a
  decoder round trip and the absence of `&`/`=` in the output.
- **Status-envelope parser** (`Helpers.ResolveOperationStatusFlags`). It
  works over an XML tree datatype (module `XmlTree`).
- **Enum wire-name tables and `ReflectEnum<T>`** (modules `EnumReflection`,
  `StatusInfo`, `Permissions`, `MeetingItems`, `PrincipalDetail`), with a
  round-trip lemma for every enum.
- **Field-table query-string encoder** `StructToQueryString` (module
  `Helpers`). It has a parse-back theorem, and two concrete tables:
  `MeetingUpdateItem` and `PrincipalSetup`.
- **Session and URL state** of the API facade (`AdobeConnect.AdobeConnectXmlApi`)
  and of the HTTP provider (`HttpCommunication.HttpCommunicationProvider`).
  Both are classes whose fields the methods update.
- **Serializer cache** (`SerializerCaches.SerializerCache`) and the list loop
  of `ToXML`.
- **`XmlFragmentWriter` skip state machine** (module `XmlFragmentWriters`).
- **Request assembly and argument checks** of the meeting and principal
  extensions (modules `MeetingManagement`, `PrincipalManagement`). This
  includes the in-place array rewrites of `ScoDelete` and `PrincipalDelete`.

How the outside world is represented:

- **Exceptions** are the `Failure` case of `Wrappers.Result`. A .NET `null` is
  `Option.None` wherever the source tests for it.
- **The server's reply** is a parameter `response: Result<HttpResponse>`:
  - a failed transfer;
  - or an optional `BREEZESESSION` cookie together with an optional parsed body.
- **The request sent** is an out-parameter.
- **Serializer internals** are parameter functions: what a serializer reads
  from or writes for an object, and `Uri.GetComponents(SchemeAndServer)`.

Two behaviours of the code are worth knowing:

- **Transfer errors.** A failed transfer is rethrown by `ProcessRequest`
  (AdobeConnectSDK/Common/HttpCommunicationProvider.cs:135-139). It does not
  become a status with code `NotSet`.
- **Service URL normalisation.** `/api/xml` is appended only when the
  trimmed URL does not already end with it
  (AdobeConnectSDK/AdobeConnectXmlAPI.cs:69-73). So a URL that ends with
  `/api/xml/api/xml` keeps both copies. `AdobeConnect.NormalizeServiceUrl`
  guarantees that the result ends with `/api/xml`, not that it contains
  `/api/xml` exactly once.

## Model

| member | source | states |
|---|---|---|
| HttpUtilsInternal.EncodedCharClasses | AdobeConnectSDK/Common/HttpUtilsInternal.cs:154-208 | Letters, digits and `!'()*-._` pass unchanged. A space becomes `+`. A code unit above 255 becomes `%u` plus four lowercase hex digits. In Unicode mode 128..255 become `%u00` plus two hex digits. Every other unit becomes `%` plus two lowercase hex digits. |
| HttpUtilsInternal.UrlEncodeChar | AdobeConnectSDK/Common/HttpUtilsInternal.cs:154-208 | Appends exactly the encoding of one code unit to the stream, and nothing else. |
| HttpUtilsInternal.EncodedByteShape | AdobeConnectSDK/Common/HttpUtilsInternal.cs:177-206 | One byte encodes to 1 or 3 ASCII characters, never to a `%u` escape. A result that does not start with `%` is one character. |
| HttpUtilsInternal.EncodeBytesShape | AdobeConnectSDK/Common/HttpUtilsInternal.cs:138-143 | Encoding n bytes gives pure ASCII without `%u`, of length between n and 3n. |
| HttpUtilsInternal.EncodeUnitsAppend | AdobeConnectSDK/Common/HttpUtilsInternal.cs:219-224 | Encoding a concatenation is the concatenation of the encodings. |
| HttpUtilsInternal.FormDecodeRoundTrip | AdobeConnectSDK/Common/HttpUtilsInternal.cs:154-208 | A form decoder applied to the encoding of any code-unit sequence, in either mode, gives the sequence back. |
| HttpUtilsInternal.UrlEncodeRangeToBytes | AdobeConnectSDK/Common/HttpUtilsInternal.cs:123-144 | Null gives null and an empty array gives empty. Otherwise an offset outside [0,len) or a count outside [0,len-offset] is an out-of-range error, else the result is the encoding of `bytes[offset..offset+count]`. |
| HttpUtilsInternal.UrlEncodeArrayToBytes | AdobeConnectSDK/Common/HttpUtilsInternal.cs:112-121 | Null gives null; otherwise the encoding of the whole array. |
| HttpUtilsInternal.UrlEncodeStringToBytes | AdobeConnectSDK/Common/HttpUtilsInternal.cs:100-110 | Null gives null and `""` gives no bytes; otherwise the encoding of the string's bytes in the given encoding. |
| HttpUtilsInternal.UrlEncodeUtf8ToBytes | AdobeConnectSDK/Common/HttpUtilsInternal.cs:95-98 | Null gives null; otherwise the encoding of the UTF-8 bytes. |
| HttpUtilsInternal.UrlEncodeWith | AdobeConnectSDK/Common/HttpUtilsInternal.cs:83-93 | Null gives null and `""` gives `""`. Otherwise the result is the ASCII reading of the encoded bytes. |
| HttpUtilsInternal.UrlEncode | AdobeConnectSDK/Common/HttpUtilsInternal.cs:78-81 | Null gives null; otherwise `UrlEncoded`, the encoding of the UTF-8 bytes read as ASCII. |
| HttpUtilsInternal.UrlEncodedRoundTrip | AdobeConnectSDK/Common/HttpUtilsInternal.cs:78-93 | `UrlEncode`'s output is pure ASCII and its bytes are exactly the byte encoding. It contains no `%u`, and decoding it gives back the UTF-8 bytes of the input. |
| HttpUtilsInternal.UrlEncodedHasNoSeparators | AdobeConnectSDK/Common/HttpUtilsInternal.cs:154-208 | Encoded text never contains `&` or `=`, so it cannot break a query string. |
| HttpUtilsInternal.UrlEncodeUnicodeToBytes | AdobeConnectSDK/Common/HttpUtilsInternal.cs:211-225 | Null gives null; otherwise the Unicode-mode encoding of the UTF-16 code units. |
| HttpUtilsInternal.UrlEncodeUnicode | AdobeConnectSDK/Common/HttpUtilsInternal.cs:146-152 | Null gives null; otherwise the ASCII reading of the Unicode-mode encoding. |
| Helpers.ResolveOperationStatusFlags | AdobeConnectSDK/Common/Helpers.cs:26-64 | Filling the status field by field gives exactly `ResolveStatus` of the document. |
| Helpers.StatusIsFirstInDocumentOrder | AdobeConnectSDK/Common/Helpers.cs:32-37 | With no `status` element anywhere the result is null (no envelope). Otherwise the envelope is read from the first `status` element in document order. |
| Helpers.EnvelopeFields | AdobeConnectSDK/Common/Helpers.cs:41-61 | Without an `invalid` element, SubCode stays NotSet and InvalidField stays null. Exception is set iff an `exception` element exists. ResultDocument exists iff elements follow `status`, and is then a `resultroot` holding exactly those elements in order. |
| Helpers.EnvelopeRoundTrip | AdobeConnectSDK/Common/Helpers.cs:32-61 | A reply whose first child is `<status code="w">`, with w a code's wire name, reads back as that code. The following elements become the result document. |
| Helpers.MissingCodeThrows | AdobeConnectSDK/Common/Helpers.cs:39 | A `status` element without a `code` attribute makes the parser throw a null dereference. |
| Helpers.ResultDocument | AdobeConnectSDK/Common/Helpers.cs:56-61 | A document exists iff there are following elements. It is then a single `resultroot` element with exactly those children. |
| Helpers.WrapStatusException | AdobeConnectSDK/Common/Helpers.cs:16-24 | The status carries the given code, sub-code and inner exception. Every other field is unset. |
| Helpers.WrapBaseStatusInfo | AdobeConnectSDK/Common/Helpers.cs:191-198 | A null status is a null dereference. Otherwise the typed status copies all base fields and holds the result type's default. |
| Helpers.Add | AdobeConnectSDK/Common/Helpers.cs:200-206 | Appends one element at the end and keeps the others. |
| EnumReflection.EnumToString | AdobeConnectSDK/Common/Helpers.cs:66-83 | The member's Description when it has one; otherwise the member name with every upper-case ASCII letter lowered: the same length, equal ignoring case, and with no upper-case letter left. |
| EnumReflection.PrepareEnumField | AdobeConnectSDK/Common/Helpers.cs:100-107 | Null or whitespace input means "use the default". Otherwise the name is looked up with every `-` removed. |
| EnumReflection.ReflectEnum | AdobeConnectSDK/Common/Helpers.cs:98-112 | Null or whitespace gives the default member. A success on any other input is the member found by the hyphen-free name. |
| EnumReflection.ReflectPrepared | AdobeConnectSDK/Common/Helpers.cs:98-112 | After hyphen removal, a known name gives that member and an unknown name is an error. |
| EnumReflection.ReflectWireName | AdobeConnectSDK/Common/Helpers.cs:98-112 | A wire name that spells a member's identifier, ignoring case and hyphens, decodes to that member. |
| EnumReflection.ReflectUnknownWireName | AdobeConnectSDK/Common/Helpers.cs:98-112 | A wire name matching no member is an error. |
| EnumReflection.WireNameSpellsIdentifier | AdobeConnectSDK/Common/Helpers.cs:66-83 | The wire name of a member (its Description, or its lowercased identifier) is a valid wire name. It spells the identifier once hyphens are dropped and case is ignored. |
| Helpers.ConvertFieldValue | AdobeConnectSDK/Common/Helpers.cs:126-148 | Null, `DateTime.MinValue` and `TimeSpan.Zero` are skipped. Bools are always emitted as `1`/`0`. Dates and durations go through the formatter; enum values go through `EnumToString`. |
| Helpers.FieldName | AdobeConnectSDK/Common/Helpers.cs:151-166 | The wire name of a field, per `WireName`. |
| Helpers.WireName | AdobeConnectSDK/Common/Helpers.cs:151-166 | Without the override flag it is the default name. With the flag, a non-empty XmlAttribute name wins over a non-empty XmlElement name, which wins over the default. |
| Helpers.DefaultWireName | AdobeConnectSDK/Common/Helpers.cs:151 | The identifier with `_` turned into `-` and lowercased, character by character. |
| Helpers.FormatParam | AdobeConnectSDK/Common/Helpers.cs:126-168 | One field contributes `&name=UrlEncode(value)`, or nothing when skipped. |
| Helpers.Param | AdobeConnectSDK/Common/Helpers.cs:126-168 | A field's text is empty exactly when the field is skipped, and otherwise starts with `&`. |
| Helpers.StructToQueryString | AdobeConnectSDK/Common/Helpers.cs:114-171 | Null gives null. Otherwise the result is the concatenation, in table order, of every included field's `&name=value`. |
| Helpers.QueryIsRendered | AdobeConnectSDK/Common/Helpers.cs:114-171 | That concatenation renders the field table's (name, encoded value) pairs, in order. |
| Helpers.QueryShape | AdobeConnectSDK/Common/Helpers.cs:114-171 | The query string is empty or starts with `&`. |
| Helpers.Render | AdobeConnectSDK/Common/Helpers.cs:168 | A rendered parameter list is empty iff the list is, and otherwise starts with `&`. |
| Helpers.RenderParses | AdobeConnectSDK/Common/Helpers.cs:168 | Splitting a rendered list at `&` and `=` gives the list back, when no name or value contains a separator. |
| Helpers.QueryRoundTrip | AdobeConnectSDK/Common/Helpers.cs:114-171 | When no wire name contains `&` or `=`, the server-side split of `StructToQueryString`'s output is exactly the included fields' (name, UrlEncode(value)) pairs. |
| Helpers.Encoded | AdobeConnectSDK/Common/Helpers.cs:168 | Keeps the names and URL-encodes each value, pair by pair. |
| StatusInfo.StatusCodeRoundTrip | AdobeConnectSDK/Model/StatusInfo.cs:72-115 | For every `StatusCodes` member m, `ReflectEnum(EnumToString(m)) == m`. |
| StatusInfo.StatusSubCodeRoundTrip | AdobeConnectSDK/Model/StatusInfo.cs:120-222 | For every `StatusSubCodes` member m, `ReflectEnum(EnumToString(m)) == m`. |
| StatusInfo.StatusCodeWireNames | AdobeConnectSDK/Model/StatusInfo.cs:78-115 | The codes OK..InternalError are sent as `ok`, `invalid`, `no-access`, `no-data`, `too-much-data` and `internal-error`. |
| StatusInfo.CapitalisedSubCodeWireNames | AdobeConnectSDK/Model/StatusInfo.cs:133-140 | Denied and NoLogin keep their capitalised Descriptions `Denied` and `no-Login`, and still round-trip. |
| StatusInfo.StatusCodeByNameFinds | AdobeConnectSDK/Model/StatusInfo.cs:72-115 | Any casing of a code's identifier finds that code. |
| StatusInfo.StatusSubCodeByNameFinds | AdobeConnectSDK/Model/StatusInfo.cs:120-222 | Any casing of a sub-code's identifier finds that sub-code. |
| Permissions.PermissionIdRoundTrip | AdobeConnectSDK/Model/Permissions.cs:69-134 | For every `PermissionId` member, decoding its wire name gives it back. |
| Permissions.PermissionIdWireNames | AdobeConnectSDK/Model/Permissions.cs:106-108 | MiniHost is sent as `mini-host` and ViewHidden as `viewhidden`. |
| Permissions.OnlyMiniHostIsDescribed | AdobeConnectSDK/Model/Permissions.cs:69-134 | MiniHost is the only member with a Description, so every other member is sent as its lowercased identifier. |
| Permissions.BlankPermissionIdIsNone | AdobeConnectSDK/Model/Permissions.cs:34 | A null, empty or whitespace `permission-id` decodes to None. |
| Permissions.PermissionInfo.SetPermissionIdRaw | AdobeConnectSDK/Model/Permissions.cs:32-35 | The setter decodes the text into `PermissionId`, or fails with the decoder's error and leaves it unchanged. No other field changes. |
| Permissions.PermissionInfo.RestoreFromRaw | AdobeConnectSDK/Model/Permissions.cs:29-35 | Setting `PermissionIdRaw` to the getter's value restores the same member. |
| Permissions.PermissionInfo.PermissionIdRaw | AdobeConnectSDK/Model/Permissions.cs:31 | The getter's text decodes back, through the setter's `ReflectEnum`, to the same `PermissionId`. |
| Permissions.DeserializedPermission | AdobeConnectSDK/Model/Permissions.cs:25-36 | The `PermissionId` of a deserialised object. When a public member binds `permission-id` and the attribute is present, it is what the setter decodes, or the decode error. Otherwise it is the default, None. |
| Permissions.PermissionInfoIdNeverBound | AdobeConnectSDK/Model/Permissions.cs:28-29 | As declared (`internal` raw property), every reply leaves `PermissionInfo.PermissionId` at None. |
| Permissions.PublishedPermissionInfoRoundTrip | AdobeConnectSDK/Model/Permissions.cs:28-35 | With the raw property public, every permission reads back from the text it prints as. |
| MeetingItems.ScoTypeRoundTrip | AdobeConnectSDK/Model/MeetingItem.cs:90-102 | For every `SCOtype` member, decoding its wire name gives it back. |
| MeetingItems.ScoTypeWireNames | AdobeConnectSDK/Model/MeetingItem.cs:39-50 | Meeting is sent as `meeting` and Folder as `folder`. |
| MeetingItems.EventDoesNotDecode | AdobeConnectSDK/Model/MeetingItem.cs:90-102 | `type="event"` fails to decode: there is no `event` member. |
| MeetingItems.FiveLetterNameDoesNotDecode | AdobeConnectSDK/Model/MeetingItem.cs:90-102 | No five-letter wire name without hyphens names a member. |
| MeetingItems.MeetingItem.SetItemTypeRaw | AdobeConnectSDK/Model/MeetingItem.cs:46-49 | The setter decodes the text into `ItemType`. Blank text gives NotSet; otherwise it fails with the decoder's error and leaves the field unchanged; `PermissionId` is untouched. |
| MeetingItems.MeetingItem.SetPermissionIdRaw | AdobeConnectSDK/Model/MeetingItem.cs:30-33 | The setter decodes the text into `PermissionId`, or fails with the decoder's error and leaves it unchanged, as in `PermissionInfo`; `ItemType` is untouched. |
| MeetingItems.MeetingItem.RestoreFromRaw | AdobeConnectSDK/Model/MeetingItem.cs:26-50 | Setting both raw properties to their getters' values restores `ItemType` and `PermissionId`. |
| MeetingItems.MeetingItem.PermissionIdRaw | AdobeConnectSDK/Model/MeetingItem.cs:29 | The getter's text decodes back to the same `PermissionId`. |
| MeetingItems.MeetingItem.ItemTypeRaw | AdobeConnectSDK/Model/MeetingItem.cs:42-45 | The getter's text decodes back to the same `SCOtype`. |
| MeetingItems.DeserializedTypes | AdobeConnectSDK/Model/MeetingItem.cs:23-50 | The typed fields of a deserialised item: the permission as `DeserializedPermission` reads it. The type is NotSet when `type` is not bound or absent; otherwise it is what the setter decodes, or the decode error. |
| MeetingItems.MeetingItemTypesNeverBound | AdobeConnectSDK/Model/MeetingItem.cs:26-40 | As declared, every reply leaves `PermissionId` at None and `ItemType` at NotSet, whatever its attributes say. |
| MeetingItems.PublishedMeetingItemRoundTrip | AdobeConnectSDK/Model/MeetingItem.cs:26-50 | With the raw properties public, both typed fields read back from the text they print as. |
| MeetingItems.MeetingItem.constructor | AdobeConnectSDK/Model/MeetingItem.cs:23-75 | A new item has PermissionId None, ItemType NotSet and a null FullUrl. FullUrl is `XmlIgnore` and is not bound from XML. |
| QuotaInfo.DecodeLimit | AdobeConnectSDK/Model/QuotaInfo.cs:38 | `unlimited` decodes to 0. Any other text is parsed as an invariant 64-bit decimal. |
| QuotaInfo.DecodePrintedLimit | AdobeConnectSDK/Model/QuotaInfo.cs:35-39 | Parsing the printed limit gives the limit back, for every 64-bit value. |
| QuotaInfo.UnlimitedReadsAsZero | AdobeConnectSDK/Model/QuotaInfo.cs:38 | `unlimited` and `0` decode to the same limit. |
| QuotaInfo.MalformedLimits | AdobeConnectSDK/Model/QuotaInfo.cs:38 | Null is an argument-null error; `none` and `""` are format errors. |
| QuotaInfo.Quota.SetLimitRaw | AdobeConnectSDK/Model/QuotaInfo.cs:38 | The setter stores the decoded limit, or fails with the parse error and keeps the old limit. No other field changes. |
| QuotaInfo.Quota.RestoreLimitFromRaw | AdobeConnectSDK/Model/QuotaInfo.cs:35-39 | Setting `LimitRaw` to the getter's value keeps `Limit`. |
| QuotaInfo.Quota.LimitRaw | AdobeConnectSDK/Model/QuotaInfo.cs:37 | The getter's invariant decimal text decodes back to the same limit. |
| QuotaInfo.DeserializedLimit | AdobeConnectSDK/Model/QuotaInfo.cs:31-39 | The `Limit` of a deserialised quota. When a public member binds `limit` and the attribute is present, it is `DecodeLimit` of its text. Otherwise it is 0. |
| QuotaInfo.LimitNeverBound | AdobeConnectSDK/Model/QuotaInfo.cs:34-35 | As declared, every reply leaves `Limit` at 0. |
| QuotaInfo.PublishedLimitRoundTrip | AdobeConnectSDK/Model/QuotaInfo.cs:34-39 | With the raw property public, every 64-bit limit reads back from its printed text. |
| Decimal.ParsePrinted | AdobeConnectSDK/Model/QuotaInfo.cs:37-38 | The invariant decimal rendering of a 64-bit value parses back to it. |
| MeetingUpdateItems.MeetingUpdateQuery | AdobeConnectSDK/Model/MeetingUpdateItem.cs:13-44 | The item's field table emits, in declaration order: `sco-id`, `folder-id`, `name`, `description`, `lang`, `sco-tag`, `email`, `first-name`, `last-name`, `url-path` (each only when not null), then `type`. |
| MeetingUpdateItems.MeetingUpdateEmailName | AdobeConnectSDK/Model/MeetingUpdateItem.cs:31-32 | `[XmlElement]` with no name falls back to the default wire name `email`. |
| MeetingUpdateItems.MeetingUpdateIdParams | AdobeConnectSDK/Model/MeetingUpdateItem.cs:13-17 | A `sco-id` pair is sent iff ScoId is set, and a `folder-id` pair iff FolderId is set, each with its value. |
| MeetingUpdateItems.MeetingUpdateTypeParam | AdobeConnectSDK/Model/MeetingUpdateItem.cs:43-44 | The last pair is always `type`, holding the lowercased `SCOtype` name. |
| MeetingUpdateItems.MeetingUpdateItem.constructor | AdobeConnectSDK/Model/MeetingUpdateItem.cs:11-44 | A new item has every string null and type NotSet. |
| PrincipalDetail.PrincipalSetupQuery | AdobeConnectSDK/Model/PrincipalDetail.cs:145-223 | The setup's field table emits, in order: `type`, `login`, `name`, `first-name`, `last-name`, `email`, `password`, `description`, `has-children`, `principal-id`, `send-email`. Strings are omitted when null; bools are always sent as `1`/`0`. |
| PrincipalDetail.PrincipalSetupOverriddenNames | AdobeConnectSDK/Model/PrincipalDetail.cs:150-222 | PrincipalType goes under `type` (XmlElement) and PrincipalId under `principal-id` (XmlAttribute). The other named attributes give `first-name`, `last-name`, `has-children` and `send-email`. |
| PrincipalDetail.PrincipalSetupDefaultNames | AdobeConnectSDK/Model/PrincipalDetail.cs:159-197 | Login, Name, Email, Password and Description have no attribute and go under their lowercased identifiers. |
| PrincipalDetail.PrincipalTypeRoundTrip | AdobeConnectSDK/Model/PrincipalDetail.cs:124-140 | For every `PrincipalTypes` member, decoding its wire name gives it back. |
| PrincipalDetail.PrincipalTypeWireNames | AdobeConnectSDK/Model/PrincipalDetail.cs:124-140 | The wire name is the lowercased name with underscores kept, e.g. `course_admins`. |
| HttpCommunication.CreateWebRequest | AdobeConnectSDK/Common/HttpCommunicationProvider.cs:16-23 | A fresh request with the default proxy, no cookies and keep-alive on. |
| HttpCommunication.RequestQuery | AdobeConnectSDK/Common/HttpCommunicationProvider.cs:85-86 | The URL is the service URL, then `?action=<action>&<params>`; null params count as empty. Splitting the query gives `action` first, then exactly the parameters of `params`. |
| HttpCommunication.ProxyFor | AdobeConnectSDK/Common/HttpCommunicationProvider.cs:25-49 | A credentialed proxy exactly when proxy URL, user and password are all non-empty; otherwise the default proxy. |
| HttpCommunication.SessionCookies | AdobeConnectSDK/Common/HttpCommunicationProvider.cs:67-75 | A `BREEZESESSION` cookie is attached iff in cookie mode with non-empty stored session and domain. It carries those values and path `/`. |
| HttpCommunication.Configure | AdobeConnectSDK/Common/HttpCommunicationProvider.cs:59-65 | Twenty-minute timeout, `Accept: */*`, no keep-alive; URL, proxy and cookies unchanged. |
| HttpCommunication.HttpCommunicationProvider.constructor | AdobeConnectSDK/Common/HttpCommunicationProvider.cs:13-14 | The stored session and domain start empty. |
| HttpCommunication.HttpCommunicationProvider.ProcessRequest | AdobeConnectSDK/Common/HttpCommunicationProvider.cs:77-145 | The request sent, the status returned and the provider's new session and domain are exactly one `Exchanged` step of the old state and the reply. |
| HttpCommunication.RequestShape | AdobeConnectSDK/Common/HttpCommunicationProvider.cs:85-95 | The request carries the computed URL, proxy and cookies, and the configured header fields. |
| HttpCommunication.SessionStampedOnlyInSessionMode | AdobeConnectSDK/Common/HttpCommunicationProvider.cs:128-131 | A returned status carries a session value only in session mode. It is then the stored value after any capture. |
| HttpCommunication.SessionCapturedOnlyInSessionMode | AdobeConnectSDK/Common/HttpCommunicationProvider.cs:110-117 | Stored session and domain change only in session mode with a cookie in the reply, and then take the cookie's values. |
| HttpCommunication.ResolvedHasNoSession | AdobeConnectSDK/Common/Helpers.cs:26-64 | A freshly parsed status has no session value. |
| HttpCommunication.CookieModeNeverSendsCookie | AdobeConnectSDK/Common/HttpCommunicationProvider.cs:67-117 | From a new provider in cookie mode, no request of any call sequence carries a cookie, whatever the replies contain. |
| AdobeConnect.NormalizeServiceUrl | AdobeConnectSDK/AdobeConnectXmlAPI.cs:69-73 | The normalised service URL always ends with `/api/xml`. |
| AdobeConnect.NormalizeIdempotent | AdobeConnectSDK/AdobeConnectXmlAPI.cs:69-73 | Normalising twice equals normalising once. |
| AdobeConnect.NormalizeKeepsApiUrl | AdobeConnectSDK/AdobeConnectXmlAPI.cs:69-73 | A URL already ending with `/api/xml` is unchanged. |
| AdobeConnect.Create | AdobeConnectSDK/AdobeConnectXmlAPI.cs:48-74 | Null settings, then an empty ServiceURL, then a null provider each fail with their own `ArgumentNullException` text, before any change. So the first failing check decides the error. Otherwise the facade holds the provider and the settings, with the ServiceURL normalised and no other setting changed. |
| AdobeConnect.AdobeConnectXmlApi.constructor | AdobeConnectSDK/AdobeConnectXmlAPI.cs:66-73 | Stores provider and settings and rewrites ServiceURL to its normalised form. |
| AdobeConnect.SessionParams | AdobeConnectSDK/AdobeConnectXmlAPI.cs:264-274 | `session=<s>` is prefixed iff the held session is non-empty and session mode is on. It is sent alone for empty params and as `session=<s>&<params>` otherwise. In every other case the params pass unchanged. |
| AdobeConnect.SessionParamsRead | AdobeConnectSDK/AdobeConnectXmlAPI.cs:264-274 | The server reads `session` as the first parameter, followed by exactly the caller's parameters. |
| AdobeConnect.AdobeConnectXmlApi.ProcessApiRequest | AdobeConnectSDK/AdobeConnectXmlAPI.cs:262-277 | One provider exchange with the session-prefixed parameters. |
| AdobeConnect.LoginResult | AdobeConnectSDK/AdobeConnectXmlAPI.cs:101-116 | A failure or a null status propagates and keeps the held session. Result is true iff the code is OK and SessionInfo is non-empty; only then is SessionInfo stored, otherwise the held session is unchanged. |
| AdobeConnect.AdobeConnectXmlApi.Login | AdobeConnectSDK/AdobeConnectXmlAPI.cs:101-116 | Sends `login=<u>&password=<p>`. The result and the new held session are `LoginResult` of that exchange. |
| AdobeConnect.AdobeConnectXmlApi.LoginWithSettings | AdobeConnectSDK/AdobeConnectXmlAPI.cs:85-88 | Logs in with the settings' NetUser and NetPassword. |
| AdobeConnect.LoginParamsRead | AdobeConnectSDK/AdobeConnectXmlAPI.cs:103 | The server reads exactly `login` and `password`, with the given values. |
| AdobeConnect.CookieModeLoginNeverSucceeds | AdobeConnectSDK/AdobeConnectXmlAPI.cs:107-110 | In cookie mode, Login never reports success and never changes the held session, whatever the server replies. |
| AdobeConnect.SessionModeLoginStoresCookie | AdobeConnectSDK/AdobeConnectXmlAPI.cs:107-115 | In session mode, an OK reply with a session cookie makes Login succeed and hold that cookie's value. |
| AdobeConnect.LogoutResult | AdobeConnectSDK/AdobeConnectXmlAPI.cs:122-133 | Returns true and clears the held session iff the code is OK; otherwise false with the session unchanged. |
| AdobeConnect.AdobeConnectXmlApi.Logout | AdobeConnectSDK/AdobeConnectXmlAPI.cs:122-133 | Sends `logout` with no parameters; the result and new session are `LogoutResult` of that exchange. |
| AdobeConnect.PrefixEach | AdobeConnectSDK/AdobeConnectXmlAPI.cs:244-247 | Overwrites each array element in place with the prefix followed by its old value (null as empty). |
| AdobeConnect.AdobeConnectXmlApi.ScoDelete | AdobeConnectSDK/AdobeConnectXmlAPI.cs:242-252 | A null array throws before any request. Otherwise each element becomes `sco-id=<id>`, and the elements joined by `&` go out as `sco-delete`. |
| AdobeConnect.PrefixedIdsRead | AdobeConnectSDK/AdobeConnectXmlAPI.cs:244-249 | The server reads one `sco-id`-style pair per id, in order. |
| AdobeConnect.AdobeConnectXmlApi.ResolveFullUrl | AdobeConnectSDK/AdobeConnectXmlAPI.cs:300-309 | An empty path gives `""`. Otherwise the result is the service URL's scheme and server followed by the path. |
| AdobeConnect.ScoUpdateEarlyExit | AdobeConnectSDK/AdobeConnectXmlAPI.cs:185-190 | A failure propagates and a null status is dereferenced. A status that is not OK, or has no result document, is returned unchanged. |
| AdobeConnect.AdobeConnectXmlApi.ScoUpdate | AdobeConnectSDK/AdobeConnectXmlAPI.cs:177-219 | A null item returns null and sends nothing. Otherwise it sends `sco-update` with the item's query string. An early exit or a missing `sco` node returns the status, with a null detail and the provider where that exchange left it. Otherwise the result is `ReadOutcome`, started from the provider state after `sco-update`, and a success returns the request's status. The deserialisation failure follows the corrected `catch` of the first Findings row; as written, that failure throws a NullReferenceException instead. |
| AdobeConnect.AdobeConnectXmlApi.ReadMeetingDetail | AdobeConnectSDK/AdobeConnectXmlAPI.cs:198-215 | One cache lookup of `MeetingDetail`, under the corrected `catch` of the first Findings row. If deserialising fails: that error, no detail, no request (as written, the `catch` dereferences the null detail and throws a NullReferenceException instead). If the detail is read but resolving its full URL fails: the detail is kept as read. The rollback `sco-delete` with `sco-id=<id>` is sent iff the detail has an id, and the error is `ScoUpdateCatch` of that rollback (the original error unless the rollback itself failed). Otherwise: the detail with its FullUrl, no request. The provider moves only by the rollback exchange. |
| SerializerCaches.PlainKey | AdobeConnectSDK/Common/XmlSerializerHelpersGeneric.cs:238 | The plain cache key is `(type, "")`. |
| SerializerCaches.OverrideKey | AdobeConnectSDK/Common/XmlSerializerHelpersGeneric.cs:260-267 | With overrides the key is `(type, root)` when the override has a root and `(type, "")` otherwise. Overrides that do not mention the type are a null dereference. |
| SerializerCaches.LookupOrInsert | AdobeConnectSDK/Common/XmlSerializerHelpersGeneric.cs:240-273 | A hit returns the stored serializer and changes nothing. A miss constructs exactly one serializer, stores it under the key and returns it. |
| SerializerCaches.LookupKeepsEntries | AdobeConnectSDK/Common/XmlSerializerHelpersGeneric.cs:240-273 | No entry is ever replaced or removed, the map grows by at most one, and consistency is kept. |
| SerializerCaches.MissIsFresh | AdobeConnectSDK/Common/XmlSerializerHelpersGeneric.cs:240-244 | A miss returns a serializer distinct from every cached one. |
| SerializerCaches.LookupTwice | AdobeConnectSDK/Common/XmlSerializerHelpersGeneric.cs:240-244 | A second lookup with the same key returns the same instance and constructs nothing. |
| SerializerCaches.EmptyRootSharesPlainKey | AdobeConnectSDK/Common/XmlSerializerHelpersGeneric.cs:260-267 | An override whose root name is `""` shares the plain lookup's key, and therefore its serializer. |
| SerializerCaches.SerializerCache.constructor | AdobeConnectSDK/Common/XmlSerializerHelpersGeneric.cs:226 | The map starts null, before any construction. |
| SerializerCaches.SerializerCache.GetSerializerInstance | AdobeConnectSDK/Common/XmlSerializerHelpersGeneric.cs:228-248 | Creates the map lazily, then does lookup-or-insert under the plain key. |
| SerializerCaches.SerializerCache.GetSerializerInstanceWithOverrides | AdobeConnectSDK/Common/XmlSerializerHelpersGeneric.cs:250-277 | Creates the map lazily, then does lookup-or-insert under the override key. It fails without touching the entries when the type is not in the overrides. |
| SerializerCaches.FromXml | AdobeConnectSDK/Common/XmlSerializerHelpersGeneric.cs:47-68 | Deserialises with the serializer the plain lookup yields. |
| SerializerCaches.FromXmlWithRoot | AdobeConnectSDK/Common/XmlSerializerHelpersGeneric.cs:17-34 | Deserialises with the serializer for the key `(type, rootName)`. |
| SerializerCaches.FromXmlWithOverrides | AdobeConnectSDK/Common/XmlSerializerHelpersGeneric.cs:37-45 | Deserialises with the serializer for the override key. |
| SerializerCaches.SameRootSameSerializer | AdobeConnectSDK/Common/XmlSerializerHelpersGeneric.cs:17-34 | Two reads with the same root name use one serializer instance. |
| SerializerCaches.ToXml | AdobeConnectSDK/Common/XmlSerializerHelpersGeneric.cs:95-167 | A null source throws ArgumentNull and a non-serializable one throws Argument; neither touches the cache. Otherwise a generic list is written item by item in index order, with the element type's serializer and no wrapper. Declarations are dropped by the fragment writer. |
| SerializerCaches.WriteItems | AdobeConnectSDK/Common/XmlSerializerHelpersGeneric.cs:145-153 | The list loop passes the kept output of every item, in index order. |
| XmlFragmentWriters.XmlFragmentWriter.constructor | AdobeConnectSDK/Common/XmlFragmentWriter.cs:9-15 | A new writer is not skipping and has passed nothing. |
| XmlFragmentWriters.XmlFragmentWriter.WriteStartAttribute | AdobeConnectSDK/Common/XmlFragmentWriter.cs:17-26 | `xmlns:xsd` and `xmlns:xsi` set skip and pass nothing. Any other attribute is passed unchanged with skip kept. |
| XmlFragmentWriters.XmlFragmentWriter.WriteStringCall | AdobeConnectSDK/Common/XmlFragmentWriter.cs:28-32 | While skipping nothing is passed; otherwise the text is. Skip is unchanged. |
| XmlFragmentWriters.XmlFragmentWriter.WriteEndAttribute | AdobeConnectSDK/Common/XmlFragmentWriter.cs:34-42 | While skipping it clears skip and passes nothing; otherwise it passes the end. Skip is false afterwards. |
| XmlFragmentWriters.XmlFragmentWriter.WriteStartDocument | AdobeConnectSDK/Common/XmlFragmentWriter.cs:44-47 | Emits nothing and changes nothing: no XML declaration is written. |
| XmlFragmentWriters.XmlFragmentWriter.WriteAll | AdobeConnectSDK/Common/XmlFragmentWriter.cs:15-47 | A sequence of calls moves the writer exactly as `Run` of the event stream. |
| XmlFragmentWriters.RunAppend | AdobeConnectSDK/Common/XmlFragmentWriter.cs:15-47 | Running a concatenation runs the first part and then the second, from the state the first leaves. |
| XmlFragmentWriters.SkippedStrings | AdobeConnectSDK/Common/XmlFragmentWriter.cs:28-32 | While skipping, any run of strings passes nothing and keeps skipping. |
| XmlFragmentWriters.PieceRun | AdobeConnectSDK/Common/XmlFragmentWriter.cs:17-42 | A complete start/string/end attribute returns the writer to the non-skip state. It passes the attribute iff it is not a dropped namespace declaration. |
| XmlFragmentWriters.FragmentOmitsDeclarations | AdobeConnectSDK/Common/XmlFragmentWriter.cs:15-47 | From the initial state, any serializer output passes exactly its kept pieces and ends in the non-skip state. |
| XmlFragmentWriters.KeptPiecesAppend | AdobeConnectSDK/Common/XmlFragmentWriter.cs:15-47 | Filtering distributes over concatenation. |
| MeetingManagement.AllMeetingsParamsRead | AdobeConnectSDK/Extensions/MeetingManagement.cs:39-44 | The server reads `filter-type=meeting`, followed by `filter-like-name=<name>` exactly when a name is given. |
| MeetingManagement.GetAllMeetings | AdobeConnectSDK/Extensions/MeetingManagement.cs:37-44 | Sends `report-bulk-objects` with those filters. |
| MeetingManagement.MyMeetingsParams | AdobeConnectSDK/Extensions/MeetingManagement.cs:293-298 | No parameters iff the name is empty. |
| MeetingManagement.MyMeetingsParamsRead | AdobeConnectSDK/Extensions/MeetingManagement.cs:293-298 | The server reads `filter-like-name=<name>` after the session when a name is given, and only the session otherwise. |
| MeetingManagement.GetMyMeetings | AdobeConnectSDK/Extensions/MeetingManagement.cs:291-298 | Sends `report-my-meetings` with those parameters. |
| MeetingManagement.MeetingShortcuts | AdobeConnectSDK/Extensions/MeetingManagement.cs:246-250 | Keeps exactly the shortcuts whose type is `meetings`. |
| MeetingManagement.MeetingShortcutsAppend | AdobeConnectSDK/Extensions/MeetingManagement.cs:246-250 | The filter distributes over concatenation, so the original order is kept. |
| MeetingManagement.MeetingShortcutsKeepsMeetings | AdobeConnectSDK/Extensions/MeetingManagement.cs:246-250 | A list of meeting shortcuts passes unchanged. |
| MeetingManagement.MeetingShortcutsIdempotent | AdobeConnectSDK/Extensions/MeetingManagement.cs:246-250 | Filtering twice equals filtering once. |
| MeetingManagement.ScoShortcutsStatus | AdobeConnectSDK/Extensions/MeetingManagement.cs:361-387 | A failure propagates and a null status is dereferenced. The list is present iff the code is OK and there is a result document. |
| MeetingManagement.MeetingShortcutsFiltered | AdobeConnectSDK/Extensions/MeetingManagement.cs:244-251 | Keeps the status and filters a present list to meeting shortcuts; a status without a list is returned as it came. |
| MeetingManagement.GetMeetingShortcuts | AdobeConnectSDK/Extensions/MeetingManagement.cs:244-251 | Sends `sco-shortcuts` without parameters and returns the filtered list. |
| MeetingManagement.MeetingCreate | AdobeConnectSDK/Extensions/MeetingManagement.cs:166-185 | A null item returns null with a null detail. An empty FolderId returns the Invalid/Format status whose inner `ArgumentNullException` says the folder must be set. A set FolderId with type NotSet returns the one saying the type must be set. Neither sends a request or changes the item. Otherwise the caller's ScoId is cleared and the call delegates to `ScoUpdate`. |
| MeetingManagement.MeetingUpdate | AdobeConnectSDK/Extensions/MeetingManagement.cs:195-209 | An empty ScoId returns the Invalid/Format status whose inner `ArgumentNullException` says the ScoId must be set, without a request. Otherwise the caller's FolderId is cleared and the call delegates to `ScoUpdate`. |
| MeetingManagement.CreatedMeetingParams | AdobeConnectSDK/Extensions/MeetingManagement.cs:182-184 | A created meeting is sent without `sco-id` and with its `folder-id`. |
| MeetingManagement.UpdatedMeetingParams | AdobeConnectSDK/Extensions/MeetingManagement.cs:205-207 | An updated meeting is sent with its `sco-id` and without `folder-id`. |
| PrincipalManagement.PrincipalInfoResult | AdobeConnectSDK/Extensions/PrincipalManagement.cs:33-72 | A failure propagates and a null status is dereferenced. The typed status carries the base fields, with the principal read from the result document when there is one. |
| PrincipalManagement.GetPrincipalInfo | AdobeConnectSDK/Extensions/PrincipalManagement.cs:25-73 | An empty or null principal id throws before any request. Otherwise it sends `principal-info` with `principal-id=<id>`. |
| PrincipalManagement.PrincipalUpdateQuery | AdobeConnectSDK/Extensions/PrincipalManagement.cs:89 | The query string is null iff the setup is null. |
| PrincipalManagement.PrincipalUpdate | AdobeConnectSDK/Extensions/PrincipalManagement.cs:85-101 | Sends `principal-update` with the setup's query string. The principal is read only when an OK reply holds a `principal` element; otherwise it is null. |
| PrincipalManagement.ReadUpdatedPrincipal | AdobeConnectSDK/Extensions/PrincipalManagement.cs:93-100 | After the request: a failure propagates and a null status is dereferenced. A status that is not OK, or has no document, returns unchanged with no principal and the cache untouched. A missing `principal` element is a null dereference. Otherwise one cache lookup, then the deserialised principal or the deserialiser's error. |
| PrincipalManagement.PrincipalDelete | AdobeConnectSDK/Extensions/PrincipalManagement.cs:117-127 | A null array throws before any request. Otherwise each element becomes `principal-id=<id>` in place, and the elements joined by `&` go out as `principals-delete`. |
| PrincipalManagement.PrincipalDeleteRead | AdobeConnectSDK/Extensions/PrincipalManagement.cs:119-124 | The server reads one `principal-id` pair per id, in order. |
| PrincipalManagement.PasswordParamsRead | AdobeConnectSDK/Extensions/PrincipalManagement.cs:141-146 | `user-update-pwd` sends exactly `user-id`, `password-old` and `password`. |
| PrincipalManagement.PrincipalUpdatePassword | AdobeConnectSDK/Extensions/PrincipalManagement.cs:141-146 | One `user-update-pwd` exchange with the three password parameters. |
| PrincipalManagement.GroupMembershipParamsRead | AdobeConnectSDK/Extensions/PrincipalManagement.cs:160-165 | Sends `group-id`, `principal-id`, then `is-member` as `1` or `0`. |
| PrincipalManagement.PrincipalGroupMembershipUpdate | AdobeConnectSDK/Extensions/PrincipalManagement.cs:160-165 | One `group-membership-update` exchange with the group, the principal and the membership flag. |
| PrincipalManagement.GetPrincipalList | AdobeConnectSDK/Extensions/PrincipalManagement.cs:176-178 | One `principal-list` exchange with `group-id=<group>&<filter>`; the filter follows verbatim. |
| PrincipalManagement.AllPrincipalsParamsRead | AdobeConnectSDK/Extensions/PrincipalManagement.cs:211-214 | The no-argument list sends `group-id=&`, which the server reads as an empty group id plus an empty trailing pair. |
| PrincipalManagement.GetAllPrincipals | AdobeConnectSDK/Extensions/PrincipalManagement.cs:211-214 | Sends `principal-list` with `group-id=&`. |
| PrincipalManagement.PermissionsUpdateParamsRead | AdobeConnectSDK/Extensions/PrincipalManagement.cs:320-325 | Sends `acl-id`, `principal-id` and `permission-id=EnumToString(p)`, so MiniHost goes out as `mini-host`. |
| PrincipalManagement.PermissionsUpdate | AdobeConnectSDK/Extensions/PrincipalManagement.cs:320-325 | One `permissions-update` exchange with `acl-id`, `principal-id` and the permission's wire name. |
| PrincipalManagement.SpecialPermission | AdobeConnectSDK/Extensions/PrincipalManagement.cs:343-353 | Denied, Remove and ViewHidden map to a permission; any other value maps to none. |
| PrincipalManagement.SpecialPermissionSameName | AdobeConnectSDK/Extensions/PrincipalManagement.cs:343-353 | Each special permission maps to the same-named `PermissionId`, and different ones to different ids. |
| PrincipalManagement.SpecialPermissionsUpdate | AdobeConnectSDK/Extensions/PrincipalManagement.cs:341-354 | An undeclared value throws without a request. Otherwise it sends `permissions-update` for principal `public-access` with the same-named permission. |
| PrincipalManagement.ParticipantSubscribe | AdobeConnectSDK/Extensions/PrincipalManagement.cs:365-368 | Subscribing grants `view` by default. |
| PrincipalManagement.ParticipantSubscribeWith | AdobeConnectSDK/Extensions/PrincipalManagement.cs:380-383 | Subscribing with a permission sends that permission. |
| PrincipalManagement.ParticipantUnsubscribe | AdobeConnectSDK/Extensions/PrincipalManagement.cs:394-397 | Unsubscribing always sends `remove`. |
| PrincipalManagement.SubscribeThenUnsubscribe | AdobeConnectSDK/Extensions/PrincipalManagement.cs:365-397 | Subscribe and unsubscribe address the same course and principal and differ only in the permission sent. |

## Left out

- Real HTTP: `HttpWebRequest.GetResponse`, `HttpUtilsInternal.HttpGetContents`, the TLS validation callback, aborting and closing. The server's reply is an input and the request built is an output.
- `XDocument`/XPath parsing and `XmlSerializer` internals are foreign code. Replies are an XML tree datatype; a serializer's reading and writing are parameter functions.
- `Uri.GetComponents(SchemeAndServer)` is foreign code and is a parameter of `ResolveFullUrl` and `ScoUpdate`.
- The lock and `volatile` on the serializer cache matter only under concurrency; the cache is modelled sequentially.
- `CopySharedProperties` is reflection over property names; it is not part of this model.
- The non-generic `ReflectEnum(Type, string)`, which turns `-` into `_` rather than removing it, is not part of this model; only the generic `ReflectEnum<T>` is used by the modelled code.
- EnumReflection.ReflectEnum: numeric text (which `Enum.Parse` turns into the member with that value, named or not) and comma-separated flag lists are modelled as failures. The server sends these attributes as wire names, never as numbers or lists.
- Case folding is ASCII only. Enum identifiers and wire names are ASCII, so every modelled lookup is unaffected.
- Helpers.ConvertFieldValue: dates and durations are abstract values with a formatter parameter. The `TimeSpan.TotalMinutes` double is not modelled.
- The `ToXML(object, bool, bool)` flags other than the default (`XmlWriter.Create` with an empty namespace), `ToXMLDocument`, `FromXmlImplicit` and `FromXML(Type, string)` are not part of this model. They repeat the cache lookup that `ToXml`/`FromXml` cover, with a foreign writer.
- `PreProcessMeetingItems`, `GetMeetingsInRoom`, `GetMeetingsInRoomRaw`, `GetMeetingDetail`, `GetQuizzesInRoom`, `GeSharedtMeetingShortcuts` and `GetSharedList` are XPath selection plus date arithmetic over foreign types; they are not part of this model.
- `IsAdmin`, `GetPermissionsInfo`, `PermissionsReset`, `GetUserInfo`, Reporting.cs and UserManagement.cs only format parameters into a remote call and select nodes by XPath; they are not part of this model.
- `GetPrincipalList(groupId, filterBy)` is modelled for its parameter string only; its XPath selection is not.
- The one-argument `AdobeConnectXmlAPI(settings)` constructor only supplies a new `HttpCommunicationProvider` to `Create`; custom `ICommunicationProvider` implementations are not modelled.
- LINQ laziness: `GetSCOshortcuts` builds its list with `Select` over `FromXML<ScoShortcut>` (AdobeConnectSDK/Extensions/MeetingManagement.cs:384), and `GetMeetingShortcuts` filters it with `Where` (:248). Both are deferred: each shortcut's deserialisation, its exception and its serializer-cache lookup happen when the caller enumerates the result, outside the modelled call. That is why `MeetingManagement.ScoShortcutsStatus` takes the reading as a total function and leaves the cache alone.
- MeetingManagement.GetAllMeetings and MeetingManagement.GetMyMeetings are modelled up to the request and return the raw status. What the source does next is not modelled: `WrapBaseStatusInfo` and the `s.Code` test dereference the null status that a reply without a body gives (AdobeConnectSDK/Extensions/MeetingManagement.cs:46-48, 300-302), and the rows are then selected by XPath and passed through `PreProcessMeetingItems`.
- PrincipalManagement.GetPrincipalInfo: the up to three `FromXML` reads of contact, preferences and principal (AdobeConnectSDK/Extensions/PrincipalManagement.cs:47, 54, 61) are the parameter `read`, so their serializer-cache lookups are not tied to the cache. `PrincipalUpdate` does model its lookup.
- Text is Dafny's `char`, a Unicode scalar value. A .NET string with a lone surrogate, which `Encoding.UTF8.GetBytes` would turn into EF BF BD, cannot be represented. `serviceURL.EndsWith("/api/xml")` (AdobeConnectSDK/AdobeConnectXmlAPI.cs:69-73) is culture-sensitive; `AdobeConnect.NormalizeServiceUrl` compares ordinally.
- `MeetingDetail` keeps only `ScoId`, `FolderId`, `Name`, `UrlPath` and `FullUrl`; its other fields are never read by the modelled code.
- The binding rules of `XmlSerializer` are reduced to one: a public member with `[XmlAttribute]` and without `[XmlIgnore]` is bound. Elements, type conversion and the order in which attributes are applied are not modelled.
- PrincipalManagement.PrincipalUpdateQuery: states only that the query is null iff the setup is. Its field-by-field content is `PrincipalDetail.PrincipalSetupQuery` together with `Helpers.QueryRoundTrip`.

## Findings

| source | as written | input that shows it | evidently intended | confidence | as-written member | corrected member |
|---|---|---|---|---|---|---|
| AdobeConnectSDK/AdobeConnectXmlAPI.cs:203-215 | When `FromXML` throws, the catch block dereferences `meetingDetail.ScoId`, but `meetingDetail` is still null. So the catch throws a NullReferenceException: the original deserialisation error is lost and the compensating delete never runs. | an OK `sco-update` reply whose `sco` node fails to deserialise | rethrow the original error, and delete the new SCO only when a detail with a ScoId was read | not executed | AdobeConnect.ScoUpdateCatchAsWritten (shown by AdobeConnect.ScoUpdateCatchLosesError) | AdobeConnect.ScoUpdateCatch (proved by AdobeConnect.ScoUpdateCatchKeepsError; used by AdobeConnect.AdobeConnectXmlApi.ReadMeetingDetail and ScoUpdate) |
| AdobeConnectSDK/Extensions/MeetingManagement.cs:246-250 | `GetMeetingShortcuts` applies `Where` to the list of `GetSCOshortcuts`. That list is null whenever the status is not OK or has no result document, so the call throws ArgumentNullException instead of returning the status. | a `sco-shortcuts` reply with code `no-access` | return the status with a null list, as the other listing calls do | not executed | MeetingManagement.MeetingShortcutsAsWritten (shown by MeetingManagement.NotOkShortcutsThrow) | MeetingManagement.MeetingShortcutsFiltered (used by MeetingManagement.GetMeetingShortcuts) |
| AdobeConnectSDK/Model/MeetingItem.cs:26-50 | `PermissionIdRaw` and `ItemTypeRaw` carry `[XmlAttribute]` but are `internal`. `XmlSerializer` binds only public members, so their setters never run, and the `[XmlIgnore]` fields `PermissionId` and `ItemType` of every deserialised item keep their defaults. | a listing row `<sco type="meeting" permission-id="host">` | the item reads back as type Meeting with permission Host | not executed | MeetingItems.DeserializedTypes over MeetingItems.MeetingItemAttributes (shown by MeetingItems.MeetingItemTypesNeverBound) | MeetingItems.DeserializedTypes over the published attributes (proved by MeetingItems.PublishedMeetingItemRoundTrip) |
| AdobeConnectSDK/Model/Permissions.cs:25-36 | `PermissionInfo.PermissionIdRaw` is `internal`, so `PermissionId` is never set from a `permissions-info` reply and always reads as None. | a `<principal permission-id="view">` row | the permission reads back as View | not executed | Permissions.DeserializedPermission over Permissions.PermissionInfoAttributes (shown by Permissions.PermissionInfoIdNeverBound) | Permissions.DeserializedPermission over the published attributes (proved by Permissions.PublishedPermissionInfoRoundTrip) |
| AdobeConnectSDK/Model/QuotaInfo.cs:31-39 | `Quota.LimitRaw` is `internal`, so `Limit` is never set from a `report-quotas` reply and every quota reads as limit 0, the same as `unlimited`. | a `<quota limit="100">` row | the quota reads back with limit 100 | not executed | QuotaInfo.DeserializedLimit over QuotaInfo.QuotaAttributes (shown by QuotaInfo.LimitNeverBound) | QuotaInfo.DeserializedLimit over the published attributes (proved by QuotaInfo.PublishedLimitRoundTrip) |
