/** The two reflection helpers that map enum members to and from their wire
    names: `Helpers.EnumToString` and `Helpers.ReflectEnum<T>`. Reflection is
    replaced by a per-enum table giving each member's identifier and optional
    `[Description]`; each enum module instantiates the lookup with its table. */
module EnumReflection {
  import opened Wrappers
  import opened Text

  /** `EnumToString`: the member's `[Description]` when it carries one, else
      its identifier lower-cased. */
  function EnumToString(name: string, description: Option<string>): (r: string)
    ensures description.Some? ==> r == description.value
    ensures description.None? ==> |r| == |name| && EqualsIgnoreCase(r, name)
    ensures description.None? ==> forall i :: 0 <= i < |r| ==> !IsAsciiUpper(r[i])
  {
    EqualsIgnoreCaseMeans(ToLower(name), name);
    ToLowerIdempotent(name);
    if description.Some? then description.value else ToLower(name)
  }

  /** What `ReflectEnum<T>` does before it consults the member table. */
  datatype Lookup = UseDefault | ByName(name: string)

  /** The type-independent part of `ReflectEnum<T>`: null or white-space text
      selects the default member; otherwise every `-` is removed and the rest
      is handed to `Enum.Parse(..., ignoreCase: true)`, which trims it, rejects
      an empty value, reads a leading digit or sign as a number and a comma as
      a list of members, and otherwise looks the name up. */
  function PrepareEnumField(enumField: Option<string>): (r: Result<Lookup>)
    ensures r == Success(UseDefault) <==> IsNullOrWhiteSpace(enumField)
    ensures r.Success? && r.value.ByName? ==>
      enumField.Some? && r.value.name == Trim(RemoveChar(enumField.value, '-'))
  {
    if IsNullOrWhiteSpace(enumField) then Success(UseDefault)
    else
      var t := Trim(RemoveChar(enumField.value, '-'));
      if t == [] then Failure(Argument("Must specify valid information for parsing in the string."))
      else if !IsNameStart(t[0]) then Failure(Unmodelled("numeric enum value"))
      else if HasChar(t, ',', 0) then Failure(Unmodelled("comma-separated enum values"))
      else Success(ByName(t))
  }

  /** `Enum.Parse` treats text starting with a digit or a sign as a number. */
  predicate IsNameStart(c: char) {
    !IsAsciiDigit(c) && c != '+' && c != '-'
  }

  predicate HasChar(s: string, c: char, i: nat)
    decreases |s| - i
  {
    i < |s| && (s[i] == c || HasChar(s, c, i + 1))
  }

  lemma {:induction false} HasCharMeans(s: string, c: char, i: nat)
    ensures HasChar(s, c, i) <==> exists j :: i <= j < |s| && s[j] == c
    decreases |s| - i
  {
    if i < |s| {
      HasCharMeans(s, c, i + 1);
    }
  }

  /** `ReflectEnum<T>` for an enum whose default member is `default` and whose
      case-insensitive lookup by identifier is `byName`, which stands for
      `Enum.Parse(typeof(T), t, true)` on a plain name. An unknown name throws. */
  function ReflectEnum<T>(enumField: Option<string>, default: T, byName: string -> Option<T>): (r: Result<T>)
    ensures IsNullOrWhiteSpace(enumField) ==> r == Success(default)
    ensures r.Success? && !IsNullOrWhiteSpace(enumField) ==>
      Some(r.value) == byName(Trim(RemoveChar(enumField.value, '-')))
  {
    var lookup :- PrepareEnumField(enumField);
    match lookup
    case UseDefault => Success(default)
    case ByName(t) =>
      var m := byName(t);
      if m.Some? then Success(m.value) else Failure(Argument("Requested value was not found."))
  }

  /** The characters a wire name is made of. */
  predicate IsWireChar(c: char) {
    IsAsciiLetter(c) || IsAsciiDigit(c) || c == '-' || c == '_'
  }

  predicate AllWireChars(s: string, i: nat)
    decreases |s| - i
  {
    i >= |s| || (IsWireChar(s[i]) && AllWireChars(s, i + 1))
  }

  lemma {:induction false} AllWireCharsMeans(s: string, i: nat)
    ensures AllWireChars(s, i) <==> forall j :: i <= j < |s| ==> IsWireChar(s[j])
    decreases |s| - i
  {
    if i < |s| {
      AllWireCharsMeans(s, i + 1);
    }
  }

  /** A wire name as the tables produce: a letter, then letters, digits, `-`
      and `_`. */
  predicate IsWireName(w: string) {
    w != [] && IsAsciiLetter(w[0]) && AllWireChars(w, 0)
  }

  /** Every character of `RemoveChar(s, c)` is a character of `s`. */
  lemma RemoveCharFromSource(s: string, c: char, i: int)
    requires 0 <= i < |RemoveChar(s, c)|
    ensures RemoveChar(s, c)[i] in s
  {
    RemoveCharKeepsOthers(s, c);
    var x := RemoveChar(s, c)[i];
    assert x in multiset(RemoveChar(s, c));
  }

  /** Removing the hyphens of a wire name keeps its first letter and leaves
      only wire characters. */
  lemma RemoveHyphensOfWireName(w: string)
    requires IsWireName(w)
    ensures var u := RemoveChar(w, '-');
      u != [] && u[0] == w[0] && forall i :: 0 <= i < |u| ==> IsWireChar(u[i])
  {
    var u := RemoveChar(w, '-');
    assert u == [w[0]] + RemoveChar(w[1..], '-');
    AllWireCharsMeans(w, 0);
    forall i | 0 <= i < |u|
      ensures IsWireChar(u[i])
    {
      RemoveCharFromSource(w, '-', i);
    }
  }

  /** A wire name survives the preparation unchanged but for its hyphens: it
      is not white space, needs no trimming, is not a number and not a list. */
  lemma WireNamePrepares(w: string)
    requires IsWireName(w)
    ensures PrepareEnumField(Some(w)) == Success(ByName(RemoveChar(w, '-')))
  {
    var u := RemoveChar(w, '-');
    assert !IsWhiteSpace(w[0]);
    assert !AllWhiteSpace(w);
    assert !IsNullOrWhiteSpace(Some(w));
    RemoveHyphensOfWireName(w);
    assert IsWireChar(u[|u| - 1]);
    assert !IsWhiteSpace(u[|u| - 1]) && !IsWhiteSpace(u[0]);
    assert Trim(u) == u;
    assert IsNameStart(u[0]);
    HasCharMeans(u, ',', 0);
    assert !HasChar(u, ',', 0);
  }

  /** Comparing `w` with hyphens removed against `n`, ignoring case, one
      character at a time; this is what `ReflectEnum` followed by the
      case-insensitive name comparison amounts to. */
  predicate MatchesSkippingHyphens(s: string, i: nat, n: string, j: nat)
    decreases |s| - i
  {
    if i >= |s| then j >= |n|
    else if s[i] == '-' then MatchesSkippingHyphens(s, i + 1, n, j)
    else j < |n| && FoldChar(s[i]) == FoldChar(n[j]) && MatchesSkippingHyphens(s, i + 1, n, j + 1)
  }

  lemma {:induction false} MatchesSkippingHyphensMeans(s: string, i: nat, n: string, j: nat)
    requires i <= |s| && j <= |n|
    ensures MatchesSkippingHyphens(s, i, n, j) <==> ToLower(RemoveChar(s[i..], '-')) == ToLower(n[j..])
    decreases |s| - i
  {
    if i < |s| {
      assert s[i..][1..] == s[i + 1..];
      if s[i] == '-' {
        assert RemoveChar(s[i..], '-') == RemoveChar(s[i + 1..], '-');
        MatchesSkippingHyphensMeans(s, i + 1, n, j);
      } else {
        var rest := RemoveChar(s[i + 1..], '-');
        assert RemoveChar(s[i..], '-') == [s[i]] + rest;
        assert ([s[i]] + rest)[1..] == rest;
        assert ToLower([s[i]] + rest) == [FoldChar(s[i])] + ToLower(rest);
        if j < |n| {
          assert n[j..][1..] == n[j + 1..];
          assert ToLower(n[j..]) == [FoldChar(n[j])] + ToLower(n[j + 1..]);
          ConsEquality(FoldChar(s[i]), ToLower(rest), FoldChar(n[j]), ToLower(n[j + 1..]));
          MatchesSkippingHyphensMeans(s, i + 1, n, j + 1);
        }
      }
    }
  }

  lemma ConsEquality(a: char, x: string, b: char, y: string)
    ensures [a] + x == [b] + y <==> a == b && x == y
  {
    if [a] + x == [b] + y {
      assert ([a] + x)[0] == a && ([b] + y)[0] == b;
      assert ([a] + x)[1..] == x && ([b] + y)[1..] == y;
    }
  }

  /** The name lookup after hyphen removal, stated without computing the
      removal. */
  lemma HyphenFreeComparison(w: string)
    ensures forall n :: EqualsIgnoreCase(RemoveChar(w, '-'), n) <==> MatchesSkippingHyphens(w, 0, n, 0)
  {
    forall n
      ensures EqualsIgnoreCase(RemoveChar(w, '-'), n) <==> MatchesSkippingHyphens(w, 0, n, 0)
    {
      EqualsIgnoreCaseMeans(RemoveChar(w, '-'), n);
      MatchesSkippingHyphensMeans(w, 0, n, 0);
      assert w[0..] == w && n[0..] == n;
    }
  }

  /** A C# enum member identifier made of ASCII letters, digits and `_`. */
  predicate IsIdentifier(name: string) {
    name != [] && IsAsciiLetter(name[0]) && IsIdentifierFrom(name, 0)
  }

  predicate IsIdentifierFrom(name: string, i: nat)
    decreases |name| - i
  {
    i >= |name| || ((IsAsciiLetter(name[i]) || IsAsciiDigit(name[i]) || name[i] == '_') && IsIdentifierFrom(name, i + 1))
  }

  lemma {:induction false} LowerCasedIdentifierFrom(name: string, i: nat)
    requires IsIdentifierFrom(name, i)
    ensures AllWireChars(ToLower(name), i)
    ensures MatchesSkippingHyphens(ToLower(name), i, name, i)
    decreases |name| - i
  {
    if i < |name| {
      LowerCasedIdentifierFrom(name, i + 1);
    }
  }

  /** The wire name `EnumToString` gives a member without a description is a
      wire name that spells the identifier back. */
  lemma LowerCasedIdentifier(name: string)
    requires IsIdentifier(name)
    ensures IsWireName(ToLower(name)) && MatchesSkippingHyphens(ToLower(name), 0, name, 0)
  {
    LowerCasedIdentifierFrom(name, 0);
  }

  /** What an enum table must satisfy for its members' wire names to read
      back: an identifier, and a description (if any) that spells it. */
  predicate SpelledBy(name: string, description: Option<string>) {
    IsIdentifier(name) &&
    (description.Some? ==> IsWireName(description.value) && MatchesSkippingHyphens(description.value, 0, name, 0))
  }

  lemma WireNameSpellsIdentifier(name: string, description: Option<string>)
    requires SpelledBy(name, description)
    ensures IsWireName(EnumToString(name, description))
    ensures MatchesSkippingHyphens(EnumToString(name, description), 0, name, 0)
  {
    if description.None? {
      LowerCasedIdentifier(name);
    }
  }

  /** `ReflectEnum` on a wire name that matches the identifier `name` with its
      hyphens skipped yields the member that identifier names. */
  lemma ReflectWireName<T>(w: string, default: T, byName: string -> Option<T>, name: string, m: T)
    requires IsWireName(w) && MatchesSkippingHyphens(w, 0, name, 0)
    requires forall u :: EqualsIgnoreCase(u, name) ==> byName(u) == Some(m)
    ensures ReflectEnum(Some(w), default, byName) == Success(m)
  {
    var u := RemoveChar(w, '-');
    WireNamePrepares(w);
    HyphenFreeComparison(w);
    assert EqualsIgnoreCase(u, name);
    ReflectPrepared(Some(w), default, byName, u);
  }

  /** A wire name that spells no member's identifier does not decode. */
  lemma ReflectUnknownWireName<T>(w: string, default: T, byName: string -> Option<T>)
    requires IsWireName(w) && byName(RemoveChar(w, '-')).None?
    ensures ReflectEnum(Some(w), default, byName).Failure?
  {
    WireNamePrepares(w);
    ReflectPrepared(Some(w), default, byName, RemoveChar(w, '-'));
  }

  /** Once the text is prepared to a plain name, `ReflectEnum` is the lookup
      of that name, and an unknown name throws. */
  lemma ReflectPrepared<T>(enumField: Option<string>, default: T, byName: string -> Option<T>, t: string)
    requires PrepareEnumField(enumField) == Success(ByName(t))
    ensures byName(t).Some? ==> ReflectEnum(enumField, default, byName) == Success(byName(t).value)
    ensures byName(t).None? ==> ReflectEnum(enumField, default, byName).Failure?
  {
  }
}
