/** The leaf parser (`ObjectBuilder<T>`, pubmed_parser/src/article_builder.rs:161-220):
    a tag matcher plus the text found inside the tag, which may span
    several lines, and the value it converts to once the tag has closed.
    `FromStr` is the `convert` parameter (see `Conversions`). */
module ObjectBuilders {
  import opened Results
  import opened Text
  import opened XmlHelpers
  import opened Conversions

  /** What every builder's `parse` returns: its new state and whether the
      line was its own. */
  datatype Step<S> = Step(next: S, consumed: bool)

  datatype Leaf<T> = Leaf(helper: Helper, textualValue: string, value: Option<T>)
  {
    predicate CanBuild() { helper.CanBuild() }
  }

  /** `ObjectBuilder::new`. */
  function NewLeaf<T>(tag: string): (b: Leaf<T>)
    ensures b.helper == NewHelper(tag) && b.textualValue == "" && b.value.None?
  {
    Leaf(NewHelper(tag), "", None)
  }

  /** `ObjectBuilder::with_attributes`. */
  function GatedLeaf<T>(tag: string, mandatory: map<string, string>): (b: Leaf<T>)
    requires |mandatory| > 0
    ensures b.helper == WithAttributes(tag, mandatory) && b.textualValue == "" && b.value.None?
  {
    Leaf(WithAttributes(tag, mandatory), "", None)
  }

  /** Adds a non-empty piece of text after what is there, one space between. */
  function AppendPiece(text: string, piece: string): string
  {
    if piece == "" then text else if text == "" then piece else text + " " + piece
  }

  /** `ObjectBuilder::parse` (lines 189-212). */
  function LeafParse<T>(b: Leaf<T>, line: string, convert: string -> Option<T>): Result<Step<Leaf<T>>>
  {
    var s :- Parse(b.helper, line);
    var text := AppendPiece(b.textualValue, s.rest);
    if s.helper.CanBuild() then
      match convert(Trim(text))
      case None => Err(ConversionFailed(b.helper.tag, text))
      case Some(v) => Ok(Step(Leaf(s.helper, text, Some(v)), s.helper.Claims()))
    else Ok(Step(Leaf(s.helper, text, b.value), s.helper.Claims()))
  }

  /** `ObjectBuilder::build` (lines 214-219): nothing when no text was seen. */
  function LeafBuild<T>(b: Leaf<T>): Option<T>
  {
    if b.textualValue == "" then None else b.value
  }

  /** `LeafParse` once the matcher's answer is known. */
  lemma LeafParseAfter<T>(b: Leaf<T>, line: string, convert: string -> Option<T>, s: Stripped)
    requires Parse(b.helper, line) == Ok(s)
    ensures var text := AppendPiece(b.textualValue, s.rest);
            LeafParse(b, line, convert)
            == if !s.helper.CanBuild() then Ok(Step(Leaf(s.helper, text, b.value), s.helper.Claims()))
               else if convert(Trim(text)).None? then Err(ConversionFailed(b.helper.tag, text))
               else Ok(Step(Leaf(s.helper, text, convert(Trim(text))), s.helper.Claims()))
  {
  }

  /** The dispatch guard of the composites, `!b.can_build() && b.parse(line)?`:
      a leaf that can already build is not consulted and keeps its state. */
  function TryLeaf<T>(b: Leaf<T>, line: string, convert: string -> Option<T>): Result<Step<Leaf<T>>>
  {
    if b.CanBuild() then Ok(Step(b, false)) else LeafParse(b, line, convert)
  }

  // ---------------------------------------------------------------------
  // Configuration

  /** A valid helper configured as `XMLHelper::new(tag)` configures it. */
  predicate IsPlain(h: Helper, tag: string)
  {
    h.Valid() && h.tag == tag && h.mandatoryAttributes.None? && !h.allowReopening
  }

  /** A valid helper configured as `XMLHelper::with_attributes(tag, mandatory)`. */
  predicate IsGated(h: Helper, tag: string, mandatory: map<string, string>)
  {
    h.Valid() && h.tag == tag && h.mandatoryAttributes == Some(mandatory) && !h.allowReopening
  }

  /** A valid helper configured as `XMLHelper::with_reopening(tag)`. */
  predicate IsReopenable(h: Helper, tag: string)
  {
    h.Valid() && h.tag == tag && h.mandatoryAttributes.None? && h.allowReopening
  }

  /** Parsing keeps a helper valid and its configuration. */
  lemma LeafParseKeeps<T>(b: Leaf<T>, line: string, convert: string -> Option<T>)
    requires b.helper.Valid()
    ensures LeafParse(b, line, convert).Ok? ==>
              LeafParse(b, line, convert).value.next.helper.Valid()
              && SameConfiguration(b.helper, LeafParse(b, line, convert).value.next.helper)
  {
    ParsePreservesValid(b.helper, line);
  }

  /** The guarded parse keeps the same, and leaves a leaf that can build untouched. */
  lemma TryLeafKeeps<T>(b: Leaf<T>, line: string, convert: string -> Option<T>)
    requires b.helper.Valid()
    ensures TryLeaf(b, line, convert).Ok? ==>
              TryLeaf(b, line, convert).value.next.helper.Valid()
              && SameConfiguration(b.helper, TryLeaf(b, line, convert).value.next.helper)
    ensures b.CanBuild() ==> TryLeaf(b, line, convert) == Ok(Step(b, false))
  {
    if !b.CanBuild() {
      LeafParseKeeps(b, line, convert);
    }
  }

  /** A gated leaf that can build saw an opening carrying its mandatory
      attributes, and still holds them. */
  lemma GatedLeafHasMandatory<T>(b: Leaf<T>, tag: string, mandatory: map<string, string>)
    requires IsGated(b.helper, tag, mandatory) && b.CanBuild()
    ensures Satisfies(b.helper.attributes, mandatory)
  {
  }

  // ---------------------------------------------------------------------
  // Joining the text

  function NonEmpty(pieces: seq<string>): seq<string>
  {
    if pieces == [] then []
    else if pieces[|pieces| - 1] == "" then NonEmpty(pieces[..|pieces| - 1])
    else NonEmpty(pieces[..|pieces| - 1]) + [pieces[|pieces| - 1]]
  }

  /** The reference definition of a leaf's text: its non-empty pieces,
      one space between consecutive ones. */
  function JoinNonEmpty(pieces: seq<string>): string
  {
    Join(NonEmpty(pieces), " ")
  }

  lemma {:induction false} JoinSnoc(xs: seq<string>, y: string, sep: string)
    requires xs != []
    ensures Join(xs + [y], sep) == Join(xs, sep) + sep + y
    decreases |xs|
  {
    if |xs| > 1 {
      assert (xs + [y])[1..] == xs[1..] + [y];
      JoinSnoc(xs[1..], y, sep);
    }
  }

  lemma {:induction false} JoinOfNonEmptyIsNonEmpty(xs: seq<string>, sep: string)
    requires xs != [] && forall i :: 0 <= i < |xs| ==> xs[i] != ""
    ensures Join(xs, sep) != ""
  {
    if |xs| > 1 {
      JoinOfNonEmptyIsNonEmpty(xs[1..], sep);
    }
  }

  lemma {:induction false} NonEmptyHasNoEmpty(pieces: seq<string>)
    ensures forall i :: 0 <= i < |NonEmpty(pieces)| ==> NonEmpty(pieces)[i] != ""
  {
    if pieces != [] {
      NonEmptyHasNoEmpty(pieces[..|pieces| - 1]);
    }
  }

  /** Appending a piece to the joined text is joining one more piece. */
  lemma AppendPieceJoins(pieces: seq<string>, piece: string)
    ensures AppendPiece(JoinNonEmpty(pieces), piece) == JoinNonEmpty(pieces + [piece])
  {
    var ps := pieces + [piece];
    assert ps[..|ps| - 1] == pieces;
    if piece != "" {
      var ne := NonEmpty(pieces);
      NonEmptyHasNoEmpty(pieces);
      if ne == [] {
        assert JoinNonEmpty(pieces) == "";
      } else {
        JoinOfNonEmptyIsNonEmpty(ne, " ");
        JoinSnoc(ne, piece, " ");
      }
    }
  }

  // ---------------------------------------------------------------------
  // Feeding several lines

  /** The remainders a tag matcher hands back for the given lines, in order. */
  function HelperRun(h: Helper, lines: seq<string>): Result<seq<string>>
    decreases |lines|
  {
    if lines == [] then Ok([])
    else
      var s :- Parse(h, lines[0]);
      var rests :- HelperRun(s.helper, lines[1..]);
      Ok([s.rest] + rests)
  }

  /** A leaf fed the given lines one after the other. */
  function LeafRun<T>(b: Leaf<T>, lines: seq<string>, convert: string -> Option<T>): Result<Leaf<T>>
    decreases |lines|
  {
    if lines == [] then Ok(b)
    else
      var st :- LeafParse(b, lines[0], convert);
      LeafRun(st.next, lines[1..], convert)
  }

  /** One successful leaf step: the matcher moved on and the text grew by
      the remainder it handed back. */
  lemma LeafStep<T>(b: Leaf<T>, line: string, convert: string -> Option<T>)
    requires LeafParse(b, line, convert).Ok?
    ensures Parse(b.helper, line).Ok?
    ensures LeafParse(b, line, convert).value.next.helper == Parse(b.helper, line).value.helper
    ensures LeafParse(b, line, convert).value.next.textualValue
              == AppendPiece(b.textualValue, Parse(b.helper, line).value.rest)
  {
  }

  /** A leaf's text is always the single-space join of the non-empty
      remainders its tag matcher handed back. */
  lemma {:induction false} LeafRunJoins<T>(b: Leaf<T>, lines: seq<string>, convert: string -> Option<T>,
                                          pieces: seq<string>)
    requires b.textualValue == JoinNonEmpty(pieces)
    requires LeafRun(b, lines, convert).Ok?
    ensures HelperRun(b.helper, lines).Ok?
    ensures LeafRun(b, lines, convert).value.textualValue
              == JoinNonEmpty(pieces + HelperRun(b.helper, lines).value)
    decreases |lines|
  {
    if lines == [] {
      assert pieces + [] == pieces;
    } else {
      LeafStep(b, lines[0], convert);
      var s := Parse(b.helper, lines[0]).value;
      var next := LeafParse(b, lines[0], convert).value.next;
      AppendPieceJoins(pieces, s.rest);
      LeafRunJoins(next, lines[1..], convert, pieces + [s.rest]);
      var tail := HelperRun(s.helper, lines[1..]).value;
      assert HelperRun(b.helper, lines).value == [s.rest] + tail;
      assert pieces + [s.rest] + tail == pieces + ([s.rest] + tail);
    }
  }

  // ---------------------------------------------------------------------
  // Conversion on close

  /** When the tag closes, the trimmed text is converted: a failure is an
      error naming the tag and the text, a success is what `build` then
      returns (nothing if no text was seen). While the tag is not closed
      nothing is converted. */
  lemma LeafConvertsOnClose<T>(b: Leaf<T>, line: string, convert: string -> Option<T>)
    requires Parse(b.helper, line).Ok?
    ensures var s := Parse(b.helper, line).value;
            var text := AppendPiece(b.textualValue, s.rest);
            if s.helper.CanBuild() then
              (convert(Trim(text)).None? ==> LeafParse(b, line, convert) == Err(ConversionFailed(b.helper.tag, text)))
              && (convert(Trim(text)).Some? ==>
                    LeafParse(b, line, convert).Ok?
                    && LeafBuild(LeafParse(b, line, convert).value.next)
                       == if text == "" then None else convert(Trim(text)))
            else
              LeafParse(b, line, convert).Ok?
              && LeafParse(b, line, convert).value.next.value == b.value
  {
  }

  // ---------------------------------------------------------------------
  // Examples

  lemma ConcreteTexts()
    ensures Trim("123") == "123" && Trim("abc") == "abc"
    ensures ParseU32("123") == Some(123) && ParseU32("abc") == None
  {
    assert TrimStartBy("123", Whitespace) == "123";
    assert TrimEndBy("123", Whitespace) == "123";
    assert TrimStartBy("abc", Whitespace) == "abc";
    assert TrimEndBy("abc", Whitespace) == "abc";
    assert "123"[..2] == "12" && "12"[..1] == "1" && "1"[..0] == "";
    assert Digits("123") == "123" && AllDigits("123");
    assert DecimalValue("1") == 1 && DecimalValue("12") == 12 && DecimalValue("123") == 123;
    assert Digits("abc") == "abc" && !IsDigit("abc"[0]);
  }

  /** A whole element on one line, `<tag>v</tag>`, fed to a fresh leaf:
      the line is the leaf's own, and it either fails to convert `v` or
      builds to the conversion of the trimmed `v`. */
  lemma OneLineLeaf<T>(b: Leaf<T>, v: string, convert: string -> Option<T>)
    requires b.helper.Valid() && b.helper.Untouched() && b.helper.mandatoryAttributes.None?
    requires b.textualValue == ""
    requires b.helper.tag != [] && '>' !in b.helper.tag && b.helper.tag[|b.helper.tag| - 1] != '/'
    ensures var r := LeafParse(b, OpeningTag(b.helper.tag) + ">" + v + ClosingTag(b.helper.tag), convert);
            if convert(Trim(v)).None? then r == Err(ConversionFailed(b.helper.tag, v))
            else r.Ok? && r.value.consumed && r.value.next.CanBuild()
                 && LeafBuild(r.value.next) == (if v == "" then None else convert(Trim(v)))
  {
    var line := OpeningTag(b.helper.tag) + ">" + v + ClosingTag(b.helper.tag);
    OneLineElement(b.helper, v);
    var s := Parse(b.helper, line).value;
    assert s.rest == v && s.helper.CanBuild();
    assert AppendPiece("", v) == v;
    LeafParseAfter(b, line, convert, s);
    if convert(Trim(v)).Some? {
      assert LeafParse(b, line, convert) == Ok(Step(Leaf(s.helper, v, convert(Trim(v))), s.helper.Claims()));
      assert s.helper.Claims();
    }
  }

  /** `<PMID>123</PMID>` builds the identifier 123. */
  lemma PubmedIdExample()
    ensures var r := LeafParse(NewLeaf<u32>("PMID"), OpeningTag("PMID") + ">123" + ClosingTag("PMID"), ParseU32);
            r.Ok? && r.value.consumed && LeafBuild(r.value.next) == Some(123)
  {
    ConcreteTexts();
    OneLineLeaf(NewLeaf<u32>("PMID"), "123", ParseU32);
    assert OpeningTag("PMID") + ">123" == OpeningTag("PMID") + ">" + "123";
  }

  /** `<PMID>abc</PMID>` is a conversion error naming the tag and the text. */
  lemma PubmedIdConversionError()
    ensures LeafParse(NewLeaf<u32>("PMID"), OpeningTag("PMID") + ">abc" + ClosingTag("PMID"), ParseU32)
            == Err(ConversionFailed("PMID", "abc"))
  {
    ConcreteTexts();
    OneLineLeaf(NewLeaf<u32>("PMID"), "abc", ParseU32);
    assert OpeningTag("PMID") + ">abc" == OpeningTag("PMID") + ">" + "abc";
  }

  /** An element over two lines, `<tag>u` then `v</tag>`, fed to a fresh
      leaf: the two remainders are joined by one space and converted when
      the tag closes. */
  lemma {:induction false} TwoLineLeaf<T>(b: Leaf<T>, u: string, v: string, convert: string -> Option<T>)
    requires b.helper.Untouched() && b.helper.mandatoryAttributes.None? && b.textualValue == ""
    requires b.helper.tag != [] && '>' !in b.helper.tag && b.helper.tag[|b.helper.tag| - 1] != '/'
    requires u != [] && v != [] && '>' !in u && v[0] != '<'
    ensures var r := LeafRun(b, [OpeningTag(b.helper.tag) + ">" + u, v + ClosingTag(b.helper.tag)], convert);
            if convert(Trim(u + " " + v)).None? then r == Err(ConversionFailed(b.helper.tag, u + " " + v))
            else r.Ok? && r.value.CanBuild() && LeafBuild(r.value) == convert(Trim(u + " " + v))
  {
    var h := b.helper;
    var line1 := OpeningTag(h.tag) + ">" + u;
    var line2 := v + ClosingTag(h.tag);
    OpeningLineWithText(h, u);
    var h1 := h.(tagOpened := true, justOpened := true, openings := 1);
    assert AppendPiece("", u) == u;
    assert LeafParse(b, line1, convert) == Ok(Step(Leaf(h1, u, b.value), true));
    ClosingLineWithText(h1, v);
    var h2 := h1.(justOpened := false, tagClosed := true, justClosed := true, openings := 0);
    assert AppendPiece(u, v) == u + " " + v;
    LeafParseAfter(Leaf(h1, u, b.value), line2, convert, Stripped(h2, v));
    var lines := [line1, line2];
    assert lines[1..] == [line2] && [line2][1..] == [];
    assert LeafRun(b, lines, convert) == LeafRun(Leaf(h1, u, b.value), [line2], convert);
    var w := convert(Trim(u + " " + v));
    if w.Some? {
      assert LeafParse(Leaf(h1, u, b.value), line2, convert) == Ok(Step(Leaf(h2, u + " " + v, w), true));
      assert LeafRun(Leaf(h1, u, b.value), [line2], convert) == Ok(Leaf(h2, u + " " + v, w));
    }
  }

  /** The joined text of the example below is already trimmed. */
  lemma FooBarIsTrimmed()
    ensures Trim("Foo" + " " + "Bar") == "Foo Bar"
  {
    assert "Foo" + " " + "Bar" == "Foo Bar";
    assert TrimStartBy("Foo Bar", Whitespace) == "Foo Bar";
    assert TrimEndBy("Foo Bar", Whitespace) == "Foo Bar";
  }

  /** A new `ArticleTitle` leaf meets the requirements of `TwoLineLeaf`. */
  lemma NewTitleLeafIsFresh()
    ensures var b := NewLeaf<string>("ArticleTitle");
            b.helper.Untouched() && b.helper.mandatoryAttributes.None? && b.textualValue == ""
            && b.helper.tag == "ArticleTitle"
    ensures '>' !in "ArticleTitle" && "ArticleTitle"[|"ArticleTitle"| - 1] != '/'
  {
  }

  /** `<ArticleTitle>Foo` followed by `Bar</ArticleTitle>` builds the title
      "Foo Bar". */
  lemma TwoLineTitleExample()
    ensures var r := LeafRun(NewLeaf<string>("ArticleTitle"),
                             [OpeningTag("ArticleTitle") + ">Foo", "Bar" + ClosingTag("ArticleTitle")], ParseText);
            r.Ok? && r.value.CanBuild() && LeafBuild(r.value) == Some("Foo Bar")
  {
    FooBarIsTrimmed();
    NewTitleLeafIsFresh();
    TwoLineLeaf(NewLeaf<string>("ArticleTitle"), "Foo", "Bar", ParseText);
    assert OpeningTag("ArticleTitle") + ">" + "Foo" == OpeningTag("ArticleTitle") + ">Foo";
  }
}
