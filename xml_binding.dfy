/** Which attributes of a reply `XmlSerializer` hands to a model class. Only
    public fields and properties take part in XML serialization, so an
    `[XmlAttribute]` on an `internal` property is never read and its setter
    never runs. */
module XmlBinding {
  import opened Wrappers

  datatype Access = Public | Internal

  /** A field or property carrying `[XmlAttribute(name)]`. */
  datatype AttributeMember = AttributeMember(name: string, access: Access)

  /** Whether deserializing fills some member from the attribute `name`. */
  predicate Binds(members: seq<AttributeMember>, name: string) {
    exists i :: 0 <= i < |members| && members[i] == AttributeMember(name, Public)
  }

  /** The text the setter of the member bound to `name` receives from the
      attributes `attrs` of one element; `None` when no setter runs, because
      no member is bound to `name` or the element lacks the attribute. */
  function BoundText(members: seq<AttributeMember>, attrs: map<string, string>, name: string): (r: Option<string>)
    ensures r.Some? <==> Binds(members, name) && name in attrs
    ensures r.Some? ==> r.value == attrs[name]
  {
    if Binds(members, name) && name in attrs then Some(attrs[name]) else None
  }

  /** The same members, every one of them declared `public`. */
  function Published(members: seq<AttributeMember>): (r: seq<AttributeMember>)
    ensures |r| == |members|
    ensures forall i :: 0 <= i < |members| ==> r[i] == AttributeMember(members[i].name, Public)
  {
    seq(|members|, i requires 0 <= i < |members| => AttributeMember(members[i].name, Public))
  }

  /** Once published, every declared attribute is bound. */
  lemma PublishedBinds(members: seq<AttributeMember>, i: nat)
    requires i < |members|
    ensures Binds(Published(members), members[i].name)
  {
    assert Published(members)[i] == AttributeMember(members[i].name, Public);
  }

  /** An attribute that only non-public members declare is never bound. */
  lemma InternalOnlyNotBound(members: seq<AttributeMember>, name: string)
    requires forall i :: 0 <= i < |members| && members[i].name == name ==> members[i].access == Internal
    ensures !Binds(members, name)
  {}
}
