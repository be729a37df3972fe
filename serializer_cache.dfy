/** The serializer cache and the list handling of `ToXML`
    (`XmlSerializerHelpersGeneric.cs`). A .NET `Type` is a `TypeName`; an
    `XmlSerializer` is a `Serializer` value whose `id` counts the factory's
    constructions, so two serializers are the same instance exactly when
    their values are equal. What a serializer writes for an object, and what
    it reads back from XML, are parameters. */
module SerializerCaches {
  import opened Wrappers
  import XmlTree
  import opened XmlFragmentWriters

  datatype TypeName = TypeName(name: string)

  /** `XmlAttributeOverrides`: for each type it mentions, the element name of
      its `XmlRoot` attribute, or `None` when that attribute is null. */
  type AttributeOverrides = map<TypeName, Option<string>>

  /** A constructed serializer: which construction it was, for which type,
      and the overrides it was built with (`None` for a plain one). */
  datatype Serializer = Serializer(id: nat, forType: TypeName, overrides: Option<AttributeOverrides>)

  /** The dictionary key: a type and a root element name. */
  type CacheKey = (TypeName, string)

  function PlainKey(t: TypeName): (r: CacheKey)
    ensures r.0 == t && r.1 == ""
  {
    (t, "")
  }

  /** The key an override lookup uses. `xmlAttributeOverrides[t]` is null
      for a type the overrides do not mention, and reading its `XmlRoot`
      then throws. */
  function OverrideKey(t: TypeName, overrides: AttributeOverrides): (r: Result<CacheKey>)
    ensures r.Failure? <==> t !in overrides
    ensures r.Failure? ==> r.error == NullReference
    ensures r.Success? ==> r.value.0 == t
    ensures r.Success? && overrides[t].Some? ==> r.value.1 == overrides[t].value
    ensures r.Success? && overrides[t].None? ==> r.value == PlainKey(t)
  {
    if t !in overrides then Failure(NullReference)
    else
      match overrides[t]
      case None => Success(PlainKey(t))
      case Some(elementName) => Success((t, elementName))
  }

  /** Lookup-or-insert on the dictionary: the stored serializer on a hit;
      on a miss, serializer number `constructed` is made, stored under `key`
      and returned, and the count goes up by one. */
  datatype Lookup = Lookup(serializer: Serializer, entries: map<CacheKey, Serializer>, constructed: nat)

  function LookupOrInsert(entries: map<CacheKey, Serializer>, constructed: nat, key: CacheKey,
                          overrides: Option<AttributeOverrides>): (r: Lookup)
    ensures key in r.entries && r.entries[key] == r.serializer
    ensures key in entries ==> r == Lookup(entries[key], entries, constructed)
    ensures key !in entries ==>
      r.serializer == Serializer(constructed, key.0, overrides) && r.constructed == constructed + 1
  {
    if key in entries then Lookup(entries[key], entries, constructed)
    else
      var s := Serializer(constructed, key.0, overrides);
      Lookup(s, entries[key := s], constructed + 1)
  }

  /** Every stored serializer was built for the type of its key, and the
      construction count is past every id handed out. */
  predicate Consistent(entries: map<CacheKey, Serializer>, constructed: nat) {
    forall k :: k in entries ==> entries[k].forType == k.0 && entries[k].id < constructed
  }

  /** Entries are never removed or replaced, the dictionary grows by at most
      one entry, and consistency is kept. */
  lemma LookupKeepsEntries(entries: map<CacheKey, Serializer>, constructed: nat, key: CacheKey,
                           overrides: Option<AttributeOverrides>)
    requires Consistent(entries, constructed)
    ensures var r := LookupOrInsert(entries, constructed, key, overrides);
      (forall k :: k in entries ==> k in r.entries && r.entries[k] == entries[k]) &&
      r.entries.Keys == entries.Keys + {key} &&
      |r.entries| <= |entries| + 1 &&
      Consistent(r.entries, r.constructed)
  {
    var r := LookupOrInsert(entries, constructed, key, overrides);
    if key in entries {
      assert r.entries == entries;
      assert entries.Keys + {key} == entries.Keys;
    } else {
      var s := Serializer(constructed, key.0, overrides);
      assert r.entries == entries[key := s];
      assert r.entries.Keys == entries.Keys + {key};
      assert |r.entries| == |entries| + 1;
    }
  }

  /** A miss makes a serializer that no entry already holds: a fresh instance. */
  lemma MissIsFresh(entries: map<CacheKey, Serializer>, constructed: nat, key: CacheKey,
                    overrides: Option<AttributeOverrides>)
    requires Consistent(entries, constructed)
    requires key !in entries
    ensures forall k :: k in entries ==> entries[k] != LookupOrInsert(entries, constructed, key, overrides).serializer
  {}

  /** Looking the same key up twice gives the same instance, and the second
      lookup changes nothing. */
  lemma LookupTwice(entries: map<CacheKey, Serializer>, constructed: nat, key: CacheKey,
                    o1: Option<AttributeOverrides>, o2: Option<AttributeOverrides>)
    ensures var r1 := LookupOrInsert(entries, constructed, key, o1);
      var r2 := LookupOrInsert(r1.entries, r1.constructed, key, o2);
      r2 == Lookup(r1.serializer, r1.entries, r1.constructed)
  {}

  /** The key ignores everything in the overrides except the root name: an
      override whose root element name is empty is stored under the plain key,
      so a later plain lookup returns the serializer built with those overrides. */
  lemma EmptyRootSharesPlainKey(entries: map<CacheKey, Serializer>, constructed: nat, t: TypeName,
                                overrides: AttributeOverrides)
    requires PlainKey(t) !in entries
    requires t in overrides && overrides[t] == Some("")
    ensures OverrideKey(t, overrides) == Success(PlainKey(t))
    ensures var r1 := LookupOrInsert(entries, constructed, PlainKey(t), Some(overrides));
      LookupOrInsert(r1.entries, r1.constructed, PlainKey(t), None).serializer.overrides == Some(overrides)
  {}

  /** The static dictionary `m_serializers` (null until the first lookup)
      and the number of serializers the factory has made. */
  class SerializerCache {
    var serializers: Option<map<CacheKey, Serializer>>
    var constructed: nat

    function Entries(): map<CacheKey, Serializer>
      reads this
    {
      if serializers.None? then map[] else serializers.value
    }

    ghost predicate Valid()
      reads this
    {
      Consistent(Entries(), constructed)
    }

    constructor()
      ensures serializers.None? && constructed == 0 && Valid()
    {
      serializers, constructed := None, 0;
    }

    /** The dictionary is created on first use; then lookup-or-insert. */
    method Find(key: CacheKey, overrides: Option<AttributeOverrides>) returns (s: Serializer)
      requires Valid()
      modifies this
      ensures Valid() && serializers.Some?
      ensures Lookup(s, Entries(), constructed) == LookupOrInsert(old(Entries()), old(constructed), key, overrides)
    {
      if serializers.None? {
        serializers := Some(map[]);
      }
      var cache := serializers.value;
      if key in cache {
        s := cache[key];
      } else {
        s := Serializer(constructed, key.0, overrides);
        serializers := Some(cache[key := s]);
        constructed := constructed + 1;
      }
    }

    /** `GetSerializerInstance(Type)`: the key `(t, "")`. */
    method GetSerializerInstance(t: TypeName) returns (s: Serializer)
      requires Valid()
      modifies this
      ensures Valid() && serializers.Some?
      ensures Lookup(s, Entries(), constructed) == LookupOrInsert(old(Entries()), old(constructed), PlainKey(t), None)
    {
      s := Find(PlainKey(t), None);
    }

    /** `GetSerializerInstance(Type, XmlAttributeOverrides)`: the key carries
        the override's root name when there is one. The dictionary is created
        before the overrides are read, so it exists even when that throws. */
    method GetSerializerInstanceWithOverrides(t: TypeName, overrides: AttributeOverrides) returns (r: Result<Serializer>)
      requires Valid()
      modifies this
      ensures Valid() && serializers.Some?
      ensures OverrideKey(t, overrides).Failure? ==>
        r == Failure(NullReference) && Entries() == old(Entries()) && constructed == old(constructed)
      ensures OverrideKey(t, overrides).Success? ==>
        r.Success? &&
        Lookup(r.value, Entries(), constructed)
          == LookupOrInsert(old(Entries()), old(constructed), OverrideKey(t, overrides).value, Some(overrides))
    {
      if serializers.None? {
        serializers := Some(map[]);
      }
      var key := OverrideKey(t, overrides);
      if key.Failure? {
        return Failure(NullReference);
      }
      var s := Find(key.value, Some(overrides));
      r := Success(s);
    }
  }

  // ---------------------------------------------------------------------
  // Reading: the `FromXML` overloads pick a serializer and hand it the reader.

  /** `FromXML<T>(reader)` and `FromXML<T>(string)`: the plain serializer. */
  method FromXml<T>(cache: SerializerCache, t: TypeName, node: XmlTree.XNode,
                    deserialize: (Serializer, XmlTree.XNode) -> Result<T>) returns (r: Result<T>)
    requires cache.Valid()
    modifies cache
    ensures cache.Valid()
    ensures var l := LookupOrInsert(old(cache.Entries()), old(cache.constructed), PlainKey(t), None);
      r == deserialize(l.serializer, node) && cache.Entries() == l.entries && cache.constructed == l.constructed
  {
    var s := cache.GetSerializerInstance(t);
    r := deserialize(s, node);
  }

  /** `FromXML<T>(reader, XmlRootAttribute)`: overrides that give `t` the
      root `rootName`, so the key is `(t, rootName)`. */
  method FromXmlWithRoot<T>(cache: SerializerCache, t: TypeName, rootName: string, node: XmlTree.XNode,
                            deserialize: (Serializer, XmlTree.XNode) -> Result<T>) returns (r: Result<T>)
    requires cache.Valid()
    modifies cache
    ensures cache.Valid()
    ensures var l := LookupOrInsert(old(cache.Entries()), old(cache.constructed), (t, rootName), Some(map[t := Some(rootName)]));
      r == deserialize(l.serializer, node) && cache.Entries() == l.entries && cache.constructed == l.constructed
  {
    var s := cache.GetSerializerInstanceWithOverrides(t, map[t := Some(rootName)]);
    r := deserialize(s.value, node);
  }

  /** `FromXML<T>(reader, XmlAttributeOverrides)`. */
  method FromXmlWithOverrides<T>(cache: SerializerCache, t: TypeName, overrides: AttributeOverrides, node: XmlTree.XNode,
                                 deserialize: (Serializer, XmlTree.XNode) -> Result<T>) returns (r: Result<T>)
    requires cache.Valid()
    modifies cache
    ensures cache.Valid()
    ensures t !in overrides ==> r == Failure(NullReference)
    ensures t in overrides ==>
      var l := LookupOrInsert(old(cache.Entries()), old(cache.constructed), OverrideKey(t, overrides).value, Some(overrides));
      r == deserialize(l.serializer, node) && cache.Entries() == l.entries && cache.constructed == l.constructed
  {
    var s := cache.GetSerializerInstanceWithOverrides(t, overrides);
    if s.Failure? {
      return Failure(s.error);
    }
    r := deserialize(s.value, node);
  }

  /** Two reads of the same root name use one serializer instance. */
  lemma SameRootSameSerializer(entries: map<CacheKey, Serializer>, constructed: nat, t: TypeName, rootName: string)
    ensures var o := Some(map[t := Some(rootName)]);
      var r1 := LookupOrInsert(entries, constructed, (t, rootName), o);
      var r2 := LookupOrInsert(r1.entries, r1.constructed, (t, rootName), o);
      r2.serializer == r1.serializer
  {
    LookupTwice(entries, constructed, (t, rootName), Some(map[t := Some(rootName)]), Some(map[t := Some(rootName)]));
  }

  // ---------------------------------------------------------------------
  // Writing: `ToXML(object)`, which writes through an `XmlFragmentWriter`.

  /** The object handed to `ToXML`: its runtime type, whether that type is
      `[Serializable]`, and, for a generic list, the element type and items. */
  datatype DataObject =
    | Plain(objType: TypeName, serializable: bool)
    | GenericList(objType: TypeName, serializable: bool, elementType: TypeName, items: seq<DataObject>)

  /** The serializer's output for each item, one after the other. */
  function ItemPieces(s: Serializer, items: seq<DataObject>, serialize: (Serializer, DataObject) -> seq<Piece>): (r: seq<Piece>)
    decreases |items|
  {
    if items == [] then [] else ItemPieces(s, items[..|items| - 1], serialize) + serialize(s, items[|items| - 1])
  }

  /** The type whose serializer `ToXML` uses: a generic list's element type. */
  function SerializedType(o: DataObject): (r: TypeName)
    ensures o.GenericList? ==> r == o.elementType
    ensures o.Plain? ==> r == o.objType
  {
    match o
    case Plain(objType, _) => objType
    case GenericList(_, _, elementType, _) => elementType
  }

  /** What the base writer receives for an object: the serializer's output
      with the declarations the fragment writer drops left out. */
  function Written(s: Serializer, o: DataObject, serialize: (Serializer, DataObject) -> seq<Piece>): seq<WriterCall> {
    match o
    case Plain(_, _) => Calls(KeptPieces(serialize(s, o)))
    case GenericList(_, _, _, items) => Calls(KeptPieces(ItemPieces(s, items, serialize)))
  }

  /** `ToXML(object)`: null and non-serializable objects throw; a generic
      list is written item by item, in index order, with the element type's
      serializer and no wrapper element. The result is the call log of the
      base writer. */
  method ToXml(cache: SerializerCache, source: Option<DataObject>,
               serialize: (Serializer, DataObject) -> seq<Piece>) returns (r: Result<seq<WriterCall>>)
    requires cache.Valid()
    modifies cache
    ensures cache.Valid()
    ensures source.None? ==> r == Failure(ArgumentNull("sourceDataObject"))
    ensures source.Some? && !source.value.serializable ==> r.Failure? && r.error.Argument?
    ensures source.None? || !source.value.serializable ==>
      cache.Entries() == old(cache.Entries()) && cache.constructed == old(cache.constructed)
    ensures source.Some? && source.value.serializable ==>
      var l := LookupOrInsert(old(cache.Entries()), old(cache.constructed), PlainKey(SerializedType(source.value)), None);
      r == Success(Written(l.serializer, source.value, serialize)) &&
      cache.Entries() == l.entries && cache.constructed == l.constructed
  {
    if source.None? {
      return Failure(ArgumentNull("sourceDataObject"));
    }
    var o := source.value;
    if !o.serializable {
      return Failure(Argument("The specified object cannot be serialized."));
    }
    var s := cache.GetSerializerInstance(SerializedType(o));
    var writer := new XmlFragmentWriter();
    match o {
      case Plain(_, _) =>
        WritePieces(writer, serialize(s, o));
        AppendToEmpty(Calls(KeptPieces(serialize(s, o))));
      case GenericList(_, _, _, items) =>
        WriteItems(writer, s, items, serialize);
        AppendToEmpty(Calls(KeptPieces(ItemPieces(s, items, serialize))));
    }
    r := Success(writer.passed);
  }

  /** `serializer.Serialize(xmlWriter, item, ns)` for one object. */
  method WritePieces(writer: XmlFragmentWriter, ps: seq<Piece>)
    requires !writer.skip
    modifies writer
    ensures !writer.skip && writer.passed == old(writer.passed) + Calls(KeptPieces(ps))
  {
    writer.WriteAll(Calls(ps));
    FragmentOmitsDeclarations(ps);
  }

  /** The list loop of `ToXML`: each item in index order. */
  method WriteItems(writer: XmlFragmentWriter, s: Serializer, items: seq<DataObject>,
                    serialize: (Serializer, DataObject) -> seq<Piece>)
    requires !writer.skip
    modifies writer
    ensures !writer.skip && writer.passed == old(writer.passed) + Calls(KeptPieces(ItemPieces(s, items, serialize)))
  {
    var index := 0;
    while index < |items|
      invariant 0 <= index <= |items|
      invariant !writer.skip
      invariant writer.passed == old(writer.passed) + Calls(KeptPieces(ItemPieces(s, items[..index], serialize)))
    {
      ghost var written := Calls(KeptPieces(ItemPieces(s, items[..index], serialize)));
      var ps := serialize(s, items[index]);
      WritePieces(writer, ps);
      WrittenSnoc(s, items, index, serialize);
      AppendAssociates(old(writer.passed), written, Calls(KeptPieces(ps)));
      index := index + 1;
    }
    assert items[..index] == items;
  }

  lemma AppendToEmpty<T>(a: seq<T>)
    ensures [] + a == a
  {}

  lemma AppendAssociates<T>(a: seq<T>, b: seq<T>, c: seq<T>)
    ensures (a + b) + c == a + (b + c)
  {}

  /** What the first `i + 1` items write: the first `i` items' calls, then item `i`'s. */
  lemma WrittenSnoc(s: Serializer, items: seq<DataObject>, i: nat, serialize: (Serializer, DataObject) -> seq<Piece>)
    requires i < |items|
    ensures Calls(KeptPieces(ItemPieces(s, items[..i + 1], serialize)))
      == Calls(KeptPieces(ItemPieces(s, items[..i], serialize))) + Calls(KeptPieces(serialize(s, items[i])))
  {
    assert items[..i + 1][..i] == items[..i];
    ItemsAppend(ItemPieces(s, items[..i], serialize), serialize(s, items[i]));
  }

  /** Writing one more item's pieces after the earlier ones. */
  lemma ItemsAppend(earlier: seq<Piece>, ps: seq<Piece>)
    ensures Calls(KeptPieces(earlier)) + Calls(KeptPieces(ps)) == Calls(KeptPieces(earlier + ps))
  {
    KeptPiecesAppend(earlier, ps);
    CallsAppend(KeptPieces(earlier), KeptPieces(ps));
  }
}
