/** The .NET string operations that the SDK relies on, stated over Dafny
    strings. A .NET `null` string is `None`. Case conversion is the invariant
    culture's on ASCII letters, which is all the SDK feeds it (enum member
    names, field names and wire names). */
module Text {
  import opened Wrappers

  /** `char.IsWhiteSpace`: the Unicode space separators, the line and
      paragraph separators, and the control characters 9-13, 0x85 and 0xA0. */
  predicate IsWhiteSpace(c: char) {
    c == ' ' || ('\t' <= c <= '\r') || c == '\U{85}' || c == '\U{A0}' || c == '\U{1680}'
    || ('\U{2000}' <= c <= '\U{200A}') || c == '\U{2028}' || c == '\U{2029}'
    || c == '\U{202F}' || c == '\U{205F}' || c == '\U{3000}'
  }

  predicate AllWhiteSpace(s: string) {
    s == [] || (IsWhiteSpace(s[0]) && AllWhiteSpace(s[1..]))
  }

  lemma {:induction false} AllWhiteSpaceMeans(s: string)
    ensures AllWhiteSpace(s) <==> forall i :: 0 <= i < |s| ==> IsWhiteSpace(s[i])
  {
    if s != [] {
      AllWhiteSpaceMeans(s[1..]);
      assert forall i :: 1 <= i < |s| ==> s[i] == s[1..][i - 1];
    }
  }

  /** `string.IsNullOrEmpty`. */
  predicate IsNullOrEmpty(s: Option<string>) {
    s.None? || s.value == []
  }

  /** `string.IsNullOrWhiteSpace`. */
  predicate IsNullOrWhiteSpace(s: Option<string>) {
    s.None? || AllWhiteSpace(s.value)
  }

  /** How `string.Format` and `string.Concat` render a null argument. */
  function OrEmpty(s: Option<string>): (r: string)
    ensures s.Some? ==> r == s.value
    ensures s.None? ==> r == []
  {
    if s.Some? then s.value else []
  }

  predicate IsAsciiUpper(c: char) { 'A' <= c <= 'Z' }
  predicate IsAsciiLower(c: char) { 'a' <= c <= 'z' }
  predicate IsAsciiLetter(c: char) { IsAsciiUpper(c) || IsAsciiLower(c) }
  predicate IsAsciiDigit(c: char) { '0' <= c <= '9' }

  /** Lower-casing of one character, as `ToLowerInvariant` does on ASCII. */
  function FoldChar(c: char): (r: char)
    ensures IsAsciiUpper(c) ==> r as int == c as int + 32
    ensures !IsAsciiUpper(c) ==> r == c
    ensures !IsAsciiUpper(r)
  {
    if IsAsciiUpper(c) then (c as int + 32) as char else c
  }

  /** `ToLowerInvariant` / `ToLower` on ASCII text. */
  function ToLower(s: string): string {
    seq(|s|, i requires 0 <= i < |s| => FoldChar(s[i]))
  }

  /** A string without upper-case letters is its own lower-casing. */
  lemma ToLowerKeepsLowerCase(s: string)
    requires forall i :: 0 <= i < |s| ==> !IsAsciiUpper(s[i])
    ensures ToLower(s) == s
  {
  }

  lemma ToLowerIdempotent(s: string)
    ensures ToLower(ToLower(s)) == ToLower(s)
  {
  }

  /** Ordinal comparison ignoring ASCII case, as `Enum.Parse(..., true)`
      compares member names. */
  predicate EqualsIgnoreCase(a: string, b: string) {
    |a| == |b| && EqualsIgnoreCaseFrom(a, b, 0)
  }

  predicate EqualsIgnoreCaseFrom(a: string, b: string, i: nat)
    requires |a| == |b|
    decreases |a| - i
  {
    i >= |a| || (FoldChar(a[i]) == FoldChar(b[i]) && EqualsIgnoreCaseFrom(a, b, i + 1))
  }

  lemma {:induction false} EqualsIgnoreCaseFromMeans(a: string, b: string, i: nat)
    requires |a| == |b| && i <= |a|
    ensures EqualsIgnoreCaseFrom(a, b, i) <==> ToLower(a)[i..] == ToLower(b)[i..]
    decreases |a| - i
  {
    if i < |a| {
      EqualsIgnoreCaseFromMeans(a, b, i + 1);
      assert ToLower(a)[i..] == [ToLower(a)[i]] + ToLower(a)[i + 1..];
      assert ToLower(b)[i..] == [ToLower(b)[i]] + ToLower(b)[i + 1..];
    }
  }

  /** Ignoring case is comparing the lower-cased strings. */
  lemma EqualsIgnoreCaseMeans(a: string, b: string)
    ensures EqualsIgnoreCase(a, b) <==> ToLower(a) == ToLower(b)
  {
    if |a| == |b| {
      EqualsIgnoreCaseFromMeans(a, b, 0);
      assert ToLower(a)[0..] == ToLower(a) && ToLower(b)[0..] == ToLower(b);
    }
  }

  /** Two names that equal a third ignoring case equal each other ignoring
      case, so a name table whose entries differ ignoring case admits at most
      one match. */
  lemma EqualsIgnoreCaseTransfer(u: string, a: string)
    requires EqualsIgnoreCase(u, a)
    ensures forall b :: EqualsIgnoreCase(u, b) ==> EqualsIgnoreCase(a, b)
  {
    EqualsIgnoreCaseMeans(u, a);
    forall b | EqualsIgnoreCase(u, b)
      ensures EqualsIgnoreCase(a, b)
    {
      EqualsIgnoreCaseMeans(u, b);
      EqualsIgnoreCaseMeans(a, b);
    }
  }

  /** `s.Replace(from, to)` for single characters. */
  function ReplaceChar(s: string, from: char, to: char): string {
    seq(|s|, i requires 0 <= i < |s| => if s[i] == from then to else s[i])
  }

  /** `s.Replace(c.ToString(), string.Empty)`: every occurrence of `c` removed. */
  function RemoveChar(s: string, c: char): (r: string)
    ensures |r| <= |s|
    ensures forall i :: 0 <= i < |r| ==> r[i] != c
    ensures (forall i :: 0 <= i < |s| ==> s[i] != c) ==> r == s
  {
    if s == [] then [] else (if s[0] == c then [] else [s[0]]) + RemoveChar(s[1..], c)
  }

  /** The characters of `s` other than `c`, in order, counted: removal keeps
      every other character exactly once. */
  lemma {:induction false} RemoveCharKeepsOthers(s: string, c: char)
    ensures multiset(RemoveChar(s, c)) == multiset(s)[c := 0]
  {
    if s != [] {
      RemoveCharKeepsOthers(s[1..], c);
      assert s == [s[0]] + s[1..];
    }
  }

  /** `s.TrimEnd(chars)`: the longest prefix of `s` not ending in one of `chars`. */
  function TrimEnd(s: string, chars: set<char>): (r: string)
    ensures r <= s
    ensures r == [] || r[|r| - 1] !in chars
    ensures forall i :: |r| <= i < |s| ==> s[i] in chars
  {
    if s != [] && s[|s| - 1] in chars then TrimEnd(s[..|s| - 1], chars) else s
  }

  /** `s.TrimStart(chars)`. */
  function TrimStart(s: string, chars: set<char>): (r: string)
    ensures |r| <= |s| && r == s[|s| - |r|..]
    ensures r == [] || r[0] !in chars
    ensures forall i :: 0 <= i < |s| - |r| ==> s[i] in chars
  {
    if s != [] && s[0] in chars then TrimStart(s[1..], chars) else s
  }

  /** `s.Trim()`: white space removed at both ends. */
  function Trim(s: string): (r: string)
    ensures r == [] || (!IsWhiteSpace(r[0]) && !IsWhiteSpace(r[|r| - 1]))
    ensures (s == [] || (!IsWhiteSpace(s[0]) && !IsWhiteSpace(s[|s| - 1]))) ==> r == s
  {
    TrimWhiteSpaceEnd(TrimWhiteSpaceStart(s))
  }

  function TrimWhiteSpaceStart(s: string): (r: string)
    ensures |r| <= |s| && r == s[|s| - |r|..]
    ensures r == [] || !IsWhiteSpace(r[0])
    ensures s == [] || !IsWhiteSpace(s[0]) ==> r == s
  {
    if s != [] && IsWhiteSpace(s[0]) then TrimWhiteSpaceStart(s[1..]) else s
  }

  function TrimWhiteSpaceEnd(s: string): (r: string)
    ensures r <= s
    ensures r == [] || !IsWhiteSpace(r[|r| - 1])
    ensures r != [] ==> r[0] == s[0]
    ensures s == [] || !IsWhiteSpace(s[|s| - 1]) ==> r == s
  {
    if s != [] && IsWhiteSpace(s[|s| - 1]) then TrimWhiteSpaceEnd(s[..|s| - 1]) else s
  }

  /** Ordinal `s.EndsWith(suffix)`. */
  predicate EndsWith(s: string, suffix: string) {
    |suffix| <= |s| && s[|s| - |suffix|..] == suffix
  }

  predicate Contains(s: string, c: char) {
    exists i :: 0 <= i < |s| && s[i] == c
  }

  /** `string.Join(sep, parts)`. */
  function Join(sep: string, parts: seq<string>): (r: string)
    ensures parts == [] ==> r == []
    ensures |parts| == 1 ==> r == parts[0]
  {
    if parts == [] then [] else if |parts| == 1 then parts[0] else parts[0] + sep + Join(sep, parts[1..])
  }

  /** Joining one more part appends the separator and that part. */
  lemma {:induction false} JoinSnoc(sep: string, parts: seq<string>, last: string)
    requires parts != []
    ensures Join(sep, parts + [last]) == Join(sep, parts) + sep + last
    decreases |parts|
  {
    if |parts| > 1 {
      assert (parts + [last])[1..] == parts[1..] + [last];
      JoinSnoc(sep, parts[1..], last);
    }
  }
}
