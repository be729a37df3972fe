/** `XmlFragmentWriter`: an `XmlTextWriter` that leaves out the XML
    declaration and the `xmlns:xsd` / `xmlns:xsi` declarations the serializer
    adds (`XmlFragmentWriter.cs`). The base writer is represented by the log
    of calls that reach it; how it turns them into text is not modelled. */
module XmlFragmentWriters {

  /** A call on an `XmlWriter`, as the serializer makes it. */
  datatype WriterCall =
    | StartDocument
    | StartElement(prefix: string, localName: string, ns: string)
    | StartAttribute(prefix: string, localName: string, ns: string)
    | WriteString(text: string)
    | EndAttribute
    | EndElement

  /** The namespace declarations that are left out. */
  predicate IsOmittedDeclaration(prefix: string, localName: string) {
    prefix == "xmlns" && (localName == "xsd" || localName == "xsi")
  }

  /** The skip flag after some calls, and the calls passed to the base writer. */
  datatype Outcome = Outcome(skip: bool, passed: seq<WriterCall>)

  /** One call on the fragment writer. */
  function Step(skip: bool, c: WriterCall): Outcome
  {
    match c
    case StartDocument => Outcome(skip, [])
    case StartAttribute(prefix, localName, _) =>
      if IsOmittedDeclaration(prefix, localName) then Outcome(true, []) else Outcome(skip, [c])
    case WriteString(_) => if skip then Outcome(skip, []) else Outcome(skip, [c])
    case EndAttribute => if skip then Outcome(false, []) else Outcome(skip, [c])
    case _ => Outcome(skip, [c])
  }

  /** A sequence of calls, from the skip state `skip`. */
  function Run(skip: bool, calls: seq<WriterCall>): Outcome
    decreases |calls|
  {
    if calls == [] then Outcome(skip, [])
    else
      var first := Step(skip, calls[0]);
      var rest := Run(first.skip, calls[1..]);
      Outcome(rest.skip, first.passed + rest.passed)
  }

  /** One unfolding of `Run` on a non-empty sequence. */
  lemma RunCons(skip: bool, calls: seq<WriterCall>)
    requires calls != []
    ensures Run(skip, calls) == Outcome(Run(Step(skip, calls[0]).skip, calls[1..]).skip,
      Step(skip, calls[0]).passed + Run(Step(skip, calls[0]).skip, calls[1..]).passed)
  {}

  /** Running two sequences of calls one after the other is running the
      second from the skip state the first leaves, its calls after the first's. */
  lemma {:induction false} RunAppend(skip: bool, a: seq<WriterCall>, b: seq<WriterCall>)
    ensures Run(skip, a + b).skip == Run(Run(skip, a).skip, b).skip
    ensures Run(skip, a + b).passed == Run(skip, a).passed + Run(Run(skip, a).skip, b).passed
    decreases |a|
  {
    if a == [] {
      assert a + b == b;
    } else {
      var c := a[0];
      assert (a + b)[0] == c && (a + b)[1..] == a[1..] + b;
      var f := Step(skip, c);
      RunAppend(f.skip, a[1..], b);
      RunCons(skip, a);
      RunCons(skip, a + b);
      var ra := Run(f.skip, a[1..]);
      var rb := Run(ra.skip, b);
      assert f.passed + (ra.passed + rb.passed) == (f.passed + ra.passed) + rb.passed;
    }
  }

  /** One more call after a sequence of calls. */
  lemma RunSnoc(skip: bool, a: seq<WriterCall>, c: WriterCall)
    ensures Run(skip, a + [c]).skip == Step(Run(skip, a).skip, c).skip
    ensures Run(skip, a + [c]).passed == Run(skip, a).passed + Step(Run(skip, a).skip, c).passed
  {
    RunAppend(skip, a, [c]);
    var s := Run(skip, a).skip;
    RunCons(s, [c]);
    assert [c][1..] == [];
    assert Step(s, c).passed + [] == Step(s, c).passed;
  }

  /** The writer: the skip flag and the calls passed to the base writer. */
  class XmlFragmentWriter {
    var skip: bool
    var passed: seq<WriterCall>

    constructor()
      ensures !skip && passed == []
    {
      skip, passed := false, [];
    }

    method WriteStartAttribute(prefix: string, localName: string, ns: string)
      modifies this
      ensures IsOmittedDeclaration(prefix, localName) ==> skip && passed == old(passed)
      ensures !IsOmittedDeclaration(prefix, localName) ==>
        skip == old(skip) && passed == old(passed) + [StartAttribute(prefix, localName, ns)]
    {
      if prefix == "xmlns" && (localName == "xsd" || localName == "xsi") {
        skip := true;
        return;
      }
      passed := passed + [StartAttribute(prefix, localName, ns)];
    }

    method WriteStringCall(text: string)
      modifies this
      ensures skip == old(skip)
      ensures passed == old(passed) + (if old(skip) then [] else [WriteString(text)])
    {
      if skip {
        return;
      }
      passed := passed + [WriteString(text)];
    }

    method WriteEndAttribute()
      modifies this
      ensures !skip
      ensures passed == old(passed) + (if old(skip) then [] else [EndAttribute])
    {
      if skip {
        skip := false;
        return;
      }
      passed := passed + [EndAttribute];
    }

    /** The XML declaration is never written. */
    method WriteStartDocument()
      ensures skip == old(skip) && passed == old(passed)
    {
    }

    /** The calls the writer does not override go to the base writer. */
    method WriteInherited(c: WriterCall)
      requires c.StartElement? || c.EndElement?
      modifies this
      ensures skip == old(skip) && passed == old(passed) + [c]
    {
      passed := passed + [c];
    }

    /** Any one call, dispatched to the method that handles it. */
    method Write(c: WriterCall)
      modifies this
      ensures skip == Step(old(skip), c).skip
      ensures passed == old(passed) + Step(old(skip), c).passed
    {
      match c
      case StartDocument => WriteStartDocument();
      case StartAttribute(prefix, localName, ns) => WriteStartAttribute(prefix, localName, ns);
      case WriteString(text) => WriteStringCall(text);
      case EndAttribute => WriteEndAttribute();
      case StartElement(_, _, _) => WriteInherited(c);
      case EndElement => WriteInherited(c);
    }

    /** The serializer's calls, one after the other. */
    method WriteAll(calls: seq<WriterCall>)
      modifies this
      ensures skip == Run(old(skip), calls).skip
      ensures passed == old(passed) + Run(old(skip), calls).passed
    {
      ghost var skip0, passed0 := skip, passed;
      var i := 0;
      while i < |calls|
        invariant 0 <= i <= |calls|
        invariant skip == Run(skip0, calls[..i]).skip
        invariant passed == passed0 + Run(skip0, calls[..i]).passed
      {
        var c := calls[i];
        RunSnoc(skip0, calls[..i], c);
        assert calls[..i + 1] == calls[..i] + [c];
        Write(c);
        assert passed == passed0 + (Run(skip0, calls[..i]).passed + Step(Run(skip0, calls[..i]).skip, c).passed);
        i := i + 1;
      }
      assert calls[..i] == calls;
    }
  }

  // ---------------------------------------------------------------------
  // What the serializer writes, one attribute or element call at a time.

  /** One piece of the serializer's output: the document start, an element
      start or end, or a whole attribute (start, its text pieces, end). */
  datatype Piece =
    | Document
    | ElementStart(prefix: string, localName: string, ns: string)
    | ElementEnd
    | Attribute(prefix: string, localName: string, ns: string, texts: seq<string>)

  function Strings(texts: seq<string>): (r: seq<WriterCall>)
    ensures |r| == |texts|
    ensures forall k :: 0 <= k < |texts| ==> r[k] == WriteString(texts[k])
  {
    seq(|texts|, k requires 0 <= k < |texts| => WriteString(texts[k]))
  }

  function PieceCalls(p: Piece): seq<WriterCall> {
    match p
    case Document => [StartDocument]
    case ElementStart(prefix, localName, ns) => [StartElement(prefix, localName, ns)]
    case ElementEnd => [EndElement]
    case Attribute(prefix, localName, ns, texts) => [StartAttribute(prefix, localName, ns)] + Strings(texts) + [EndAttribute]
  }

  function Calls(ps: seq<Piece>): seq<WriterCall> {
    if ps == [] then [] else PieceCalls(ps[0]) + Calls(ps[1..])
  }

  /** The pieces that reach the base writer: all but the XML declaration and
      the omitted namespace declarations. */
  predicate Kept(p: Piece) {
    match p
    case Document => false
    case Attribute(prefix, localName, _, _) => !IsOmittedDeclaration(prefix, localName)
    case _ => true
  }

  function KeptPieces(ps: seq<Piece>): (r: seq<Piece>)
    ensures |r| <= |ps|
    ensures forall k :: 0 <= k < |r| ==> Kept(r[k]) && r[k] in ps
  {
    if ps == [] then [] else (if Kept(ps[0]) then [ps[0]] else []) + KeptPieces(ps[1..])
  }

  /** While skipping, text is dropped and the flag stays set. */
  lemma {:induction false} SkippedStrings(texts: seq<string>)
    ensures Run(true, Strings(texts)) == Outcome(true, [])
    decreases |texts|
  {
    if texts != [] {
      assert Strings(texts)[1..] == Strings(texts[1..]);
      SkippedStrings(texts[1..]);
    }
  }

  /** Outside a skip, text passes through unchanged. */
  lemma {:induction false} PassedStrings(texts: seq<string>)
    ensures Run(false, Strings(texts)) == Outcome(false, Strings(texts))
    decreases |texts|
  {
    if texts != [] {
      assert Strings(texts)[1..] == Strings(texts[1..]);
      PassedStrings(texts[1..]);
      assert Strings(texts) == [WriteString(texts[0])] + Strings(texts[1..]);
    }
  }

  /** A complete attribute, started outside a skip, ends outside a skip:
      an omitted declaration leaves nothing, any other attribute passes
      through whole. */
  lemma PieceRun(p: Piece)
    ensures Run(false, PieceCalls(p)) == Outcome(false, if Kept(p) then PieceCalls(p) else [])
  {
    match p
    case Document =>
    case ElementStart(_, _, _) =>
    case ElementEnd =>
    case Attribute(prefix, localName, ns, texts) =>
      var start := [StartAttribute(prefix, localName, ns)];
      RunAppend(false, start + Strings(texts), [EndAttribute]);
      RunAppend(false, start, Strings(texts));
      if IsOmittedDeclaration(prefix, localName) {
        SkippedStrings(texts);
      } else {
        PassedStrings(texts);
      }
  }

  /** The writer's output is the serializer's output with the XML
      declaration and every `xmlns:xsd` / `xmlns:xsi` attribute removed,
      everything else in order, and it ends outside a skip. */
  lemma {:induction false} FragmentOmitsDeclarations(ps: seq<Piece>)
    ensures Run(false, Calls(ps)) == Outcome(false, Calls(KeptPieces(ps)))
    decreases |ps|
  {
    if ps != [] {
      RunAppend(false, PieceCalls(ps[0]), Calls(ps[1..]));
      PieceRun(ps[0]);
      FragmentOmitsDeclarations(ps[1..]);
      assert KeptPieces(ps) == (if Kept(ps[0]) then [ps[0]] else []) + KeptPieces(ps[1..]);
      if Kept(ps[0]) {
        var kept := [ps[0]] + KeptPieces(ps[1..]);
        assert kept[0] == ps[0] && kept[1..] == KeptPieces(ps[1..]);
        assert Calls(KeptPieces(ps)) == PieceCalls(ps[0]) + Calls(KeptPieces(ps[1..]));
      } else {
        assert KeptPieces(ps) == KeptPieces(ps[1..]);
      }
    }
  }

  /** Filtering two runs of pieces is filtering each. */
  lemma {:induction false} KeptPiecesAppend(a: seq<Piece>, b: seq<Piece>)
    ensures KeptPieces(a + b) == KeptPieces(a) + KeptPieces(b)
    decreases |a|
  {
    if a == [] {
      assert a + b == b;
    } else {
      var t := a[1..];
      assert (a + b)[0] == a[0] && (a + b)[1..] == t + b;
      KeptPiecesAppend(t, b);
      var h := if Kept(a[0]) then [a[0]] else [];
      assert KeptPieces(a + b) == h + KeptPieces(t + b);
      assert KeptPieces(a) == h + KeptPieces(t);
      PiecesAssociate(h, KeptPieces(t), KeptPieces(b));
    }
  }

  lemma PiecesAssociate(x: seq<Piece>, y: seq<Piece>, z: seq<Piece>)
    ensures x + (y + z) == (x + y) + z
  {
  }

  /** The calls for two runs of pieces are the calls for each, in order. */
  lemma {:induction false} CallsAppend(a: seq<Piece>, b: seq<Piece>)
    ensures Calls(a + b) == Calls(a) + Calls(b)
    decreases |a|
  {
    if a == [] {
      assert a + b == b;
    } else {
      assert (a + b)[0] == a[0] && (a + b)[1..] == a[1..] + b;
      CallsAppend(a[1..], b);
    }
  }
}
