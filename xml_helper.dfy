/** The tag matcher (`XMLHelper`, pubmed_parser/src/article_builder.rs):
    it follows the open/closed lifecycle of one tag across successive
    lines, keeps the attributes of the last accepted opening, and hands
    back the part of each line that lies inside the tag. */
module XmlHelpers {
  import opened Results
  import opened Text

  /** The opening counter is a `u8`. */
  const MaxOpenings: nat := 255

  datatype Helper = Helper(
    tag: string,
    attributes: map<string, string>,
    mandatoryAttributes: Option<map<string, string>>,
    tagOpened: bool,
    justOpened: bool,
    tagClosed: bool,
    justClosed: bool,
    allowReopening: bool,
    openings: nat)
  {
    /** Closed, with every opening matched by a closing. */
    predicate CanBuild()
    {
      tagClosed && openings == 0
    }

    /** `tag_opened && !tag_closed || just_closed`: what the builders
        report as "this line was mine". */
    predicate Claims()
    {
      (tagOpened && !tagClosed) || justClosed
    }

    /** The relations between the flags that every reachable state keeps;
        a gated helper that opened did so on an opening that carried its
        mandatory attributes. */
    predicate Valid()
    {
      && openings <= MaxOpenings
      && (!tagOpened ==> !tagClosed && !justOpened && !justClosed && openings == 0)
      && (justClosed ==> tagClosed)
      && (tagOpened && !tagClosed ==> openings >= 1)
      && (mandatoryAttributes.Some? ==> |mandatoryAttributes.value| > 0)
      && (mandatoryAttributes.Some? && tagOpened ==> Satisfies(attributes, mandatoryAttributes.value))
    }

    /** Not yet opened, as every constructor leaves it. */
    predicate Untouched()
    {
      !tagOpened && !justOpened && !tagClosed && !justClosed && openings == 0 && attributes == map[]
    }
  }

  /** `XMLHelper::new`. */
  function NewHelper(tag: string): (h: Helper)
    ensures h.Valid() && h.Untouched() && h.tag == tag
    ensures h.mandatoryAttributes.None? && !h.allowReopening
  {
    Helper(tag, map[], None, false, false, false, false, false, 0)
  }

  /** `XMLHelper::with_reopening`. */
  function WithReopening(tag: string): (h: Helper)
    ensures h.Valid() && h.Untouched() && h.tag == tag
    ensures h.mandatoryAttributes.None? && h.allowReopening
  {
    Helper(tag, map[], None, false, false, false, false, true, 0)
  }

  /** `XMLHelper::with_attributes`; the source panics on an empty map. */
  function WithAttributes(tag: string, mandatory: map<string, string>): (h: Helper)
    requires |mandatory| > 0
    ensures h.Valid() && h.Untouched() && h.tag == tag
    ensures h.mandatoryAttributes == Some(mandatory) && !h.allowReopening
  {
    Helper(tag, map[], Some(mandatory), false, false, false, false, false, 0)
  }

  function OpeningTag(tag: string): string { "<" + tag }

  function ClosingTag(tag: string): string { "</" + tag + ">" }

  /** The line starts with `<tag` and the next character is `>` or a space. */
  predicate IsOpeningLine(tag: string, line: string)
  {
    var open := OpeningTag(tag);
    StartsWith(line, open) && |line| > |open| && (line[|open|] == '>' || line[|open|] == ' ')
  }

  /** A line that is exactly `<tag`: Rust's one-character slice after the
      tag name is out of range there. */
  predicate IsTruncatedOpening(tag: string, line: string)
  {
    StartsWith(line, OpeningTag(tag)) && |line| == |OpeningTag(tag)|
  }

  /** A space-separated token that carries an attribute. */
  predicate IsAttributeToken(t: string)
  {
    t != [] && '=' in t
  }

  /** The text before the first `=`. */
  function AttributeKey(t: string): string
  {
    Split(t, '=')[0]
  }

  /** The text between the first and the second `=` (or the end), with the
      surrounding quotes stripped. */
  function AttributeValue(t: string): string
    requires '=' in t
  {
    TrimMatches(Split(t, '=')[1], '"')
  }

  /** The attribute map of a token sequence; a later token with the same key wins. */
  function CollectAttributes(tokens: seq<string>): map<string, string>
  {
    if tokens == [] then map[]
    else
      var m := CollectAttributes(tokens[..|tokens| - 1]);
      var t := tokens[|tokens| - 1];
      if IsAttributeToken(t) then m[AttributeKey(t) := AttributeValue(t)] else m
  }

  /** The attributes of the text between the tag name and the first `>`. */
  function ExtractAttributes(portion: string): map<string, string>
  {
    CollectAttributes(Split(Trim(portion), ' '))
  }

  /** Every mandatory attribute is present with the required value. */
  predicate Satisfies(attributes: map<string, string>, mandatory: map<string, string>)
  {
    forall k :: k in mandatory ==> k in attributes && attributes[k] == mandatory[k]
  }

  /** What `parse` returns on success: the new state and the rest of the line. */
  datatype Stripped = Stripped(helper: Helper, rest: string)

  /** `XMLHelper::parse` (article_builder.rs:70-158). */
  function Parse(h: Helper, line: string): Result<Stripped>
  {
    if IsTruncatedOpening(h.tag, line) then Err(MalformedOpening(h.tag))
    else if IsOpeningLine(h.tag, line) then ParseOpening(h, line)
    else
      var h' := h.(justOpened := false);
      if !h'.tagOpened then Ok(Stripped(h', "")) else ParseClosing(h', line)
  }

  /** The opening branch of `parse` (lines 75-126). */
  function ParseOpening(h: Helper, line: string): Result<Stripped>
    requires IsOpeningLine(h.tag, line)
  {
    var open := OpeningTag(h.tag);
    if !h.allowReopening && h.tagOpened && !h.justOpened then Err(AlreadyOpened(h.tag))
    else if EndsWith(line, "/>") then Ok(Stripped(h, ""))
    else
      match FindChar(line, '>')
      case None => Err(MalformedOpening(h.tag))
      case Some(gt) =>
        if gt < |open| then Err(MalformedOpening(h.tag))
        else OpenAt(h, ExtractAttributes(line[|open|..gt]), line[gt + 1..])
  }

  /** An opening whose attributes have been read (lines 107-126): a gated
      helper whose attributes do not match ignores it; otherwise the opening
      is counted and the text after the `>` goes to the closing half. */
  function OpenAt(h: Helper, attributes: map<string, string>, after: string): Result<Stripped>
  {
    if h.mandatoryAttributes.Some? && !Satisfies(attributes, h.mandatoryAttributes.value) then
      Ok(Stripped(h, ""))
    else if h.openings >= MaxOpenings then Err(OpeningsOutOfRange(h.tag))
    else
      ParseClosing(h.(attributes := attributes, tagOpened := true, tagClosed := false,
                      justClosed := false, openings := h.openings + 1, justOpened := true),
                   after)
  }

  /** The closing half of `parse` (lines 132-157), applied to what is left
      of the line. */
  function ParseClosing(h: Helper, rest: string): Result<Stripped>
  {
    var close := ClosingTag(h.tag);
    if EndsWith(rest, close) then
      if h.tagClosed && !h.justClosed && !h.allowReopening then Err(AlreadyClosed(h.tag))
      else if !h.tagOpened then Err(NotYetOpened(h.tag))
      else if h.openings == 0 then Err(OpeningsOutOfRange(h.tag))
      else Ok(Stripped(h.(tagClosed := true, justClosed := true, openings := h.openings - 1),
                       rest[..|rest| - |close|]))
    else Ok(Stripped(h.(justClosed := false), rest))
  }

  // ---------------------------------------------------------------------
  // Attribute extraction

  /** Token `i` is an attribute token with key `k`. */
  predicate HasKey(tokens: seq<string>, i: int, k: string)
  {
    0 <= i < |tokens| && IsAttributeToken(tokens[i]) && AttributeKey(tokens[i]) == k
  }

  /** Token `i` is the last attribute token with key `k`. */
  predicate LastWithKey(tokens: seq<string>, i: int, k: string)
  {
    HasKey(tokens, i, k) && forall j :: i < j < |tokens| ==> !HasKey(tokens, j, k)
  }

  /** A key is present exactly when some attribute token has it, and its
      value comes from the LAST such token. */
  lemma {:induction false} CollectAttributesLookup(tokens: seq<string>, k: string)
    ensures k in CollectAttributes(tokens) <==> exists i :: HasKey(tokens, i, k)
    ensures k in CollectAttributes(tokens) ==>
              exists i :: LastWithKey(tokens, i, k) && CollectAttributes(tokens)[k] == AttributeValue(tokens[i])
  {
    if tokens != [] {
      var n := |tokens| - 1;
      var init := tokens[..n];
      CollectAttributesLookup(init, k);
      assert forall i :: HasKey(init, i, k) ==> HasKey(tokens, i, k);
      if HasKey(tokens, n, k) {
        assert LastWithKey(tokens, n, k);
      } else {
        assert forall i :: HasKey(tokens, i, k) ==> HasKey(init, i, k);
        if k in CollectAttributes(init) {
          var i :| LastWithKey(init, i, k) && CollectAttributes(init)[k] == AttributeValue(init[i]);
          assert LastWithKey(tokens, i, k);
        }
      }
    }
  }

  // ---------------------------------------------------------------------
  // The lifecycle

  /** The closing half keeps `Valid` and the configuration. */
  lemma ClosingPreservesValid(h: Helper, rest: string)
    requires h.Valid() && h.tagOpened
    ensures ParseClosing(h, rest).Ok? ==> ParseClosing(h, rest).value.helper.Valid()
    ensures ParseClosing(h, rest).Ok? ==> SameConfiguration(h, ParseClosing(h, rest).value.helper)
  {
  }

  /** Tag, mandatory attributes and the reopening flag never change. */
  predicate SameConfiguration(h: Helper, h': Helper)
  {
    h'.tag == h.tag && h'.mandatoryAttributes == h.mandatoryAttributes
    && h'.allowReopening == h.allowReopening
  }

  /** An opening with the attributes it carried, accepted or ignored,
      leads to a valid state with the same configuration. */
  lemma OpenAtPreservesValid(h: Helper, attributes: map<string, string>, after: string)
    requires h.Valid()
    ensures OpenAt(h, attributes, after).Ok? ==>
              OpenAt(h, attributes, after).value.helper.Valid() && SameConfiguration(h, OpenAt(h, attributes, after).value.helper)
  {
    if !(h.mandatoryAttributes.Some? && !Satisfies(attributes, h.mandatoryAttributes.value)) && h.openings < MaxOpenings {
      var h1 := h.(attributes := attributes, tagOpened := true, tagClosed := false,
                   justClosed := false, openings := h.openings + 1, justOpened := true);
      ClosingPreservesValid(h1, after);
    }
  }

  /** The opening branch keeps `Valid` and the configuration. */
  lemma OpeningPreservesValid(h: Helper, line: string)
    requires h.Valid() && IsOpeningLine(h.tag, line)
    ensures ParseOpening(h, line).Ok? ==> ParseOpening(h, line).value.helper.Valid()
    ensures ParseOpening(h, line).Ok? ==> SameConfiguration(h, ParseOpening(h, line).value.helper)
  {
    var open := OpeningTag(h.tag);
    match FindChar(line, '>')
    case None =>
    case Some(gt) =>
      if gt >= |open| {
        OpenAtPreservesValid(h, ExtractAttributes(line[|open|..gt]), line[gt + 1..]);
      }
  }

  /** Parsing keeps the flag relations of `Valid` and the configuration. */
  lemma ParsePreservesValid(h: Helper, line: string)
    requires h.Valid()
    ensures Parse(h, line).Ok? ==> Parse(h, line).value.helper.Valid()
    ensures Parse(h, line).Ok? ==> SameConfiguration(h, Parse(h, line).value.helper)
  {
    if IsTruncatedOpening(h.tag, line) {
    } else if IsOpeningLine(h.tag, line) {
      OpeningPreservesValid(h, line);
    } else if h.tagOpened {
      ClosingPreservesValid(h.(justOpened := false), line);
    }
  }

  /** Until an opening is accepted a helper hands back nothing: a line that
      is not its opening only clears `just_opened`. */
  lemma UnopenedIgnoresOtherLines(h: Helper, line: string)
    requires !h.tagOpened
    requires !IsOpeningLine(h.tag, line) && !IsTruncatedOpening(h.tag, line)
    ensures Parse(h, line) == Ok(Stripped(h.(justOpened := false), ""))
  {
  }

  /** Whatever the line, an unopened helper that stays unopened returns
      `""` and keeps its attributes and its counter. */
  lemma UnopenedReturnsEmpty(h: Helper, line: string)
    requires !h.tagOpened
    requires Parse(h, line).Ok? && !Parse(h, line).value.helper.tagOpened
    ensures Parse(h, line).value.rest == ""
    ensures Parse(h, line).value.helper.attributes == h.attributes
    ensures Parse(h, line).value.helper.openings == h.openings
  {
  }

  /** A helper opens only on its own opening line. */
  lemma OpensOnlyOnOpeningLine(h: Helper, line: string)
    requires !h.tagOpened
    requires Parse(h, line).Ok? && Parse(h, line).value.helper.tagOpened
    ensures IsOpeningLine(h.tag, line)
  {
  }

  /** `<ArticleIdList>` is not an opening line of `ArticleId`, while an
      `ArticleId` element with an attribute is. */
  lemma ArticleIdListIsNotArticleId()
    ensures !IsOpeningLine("ArticleId", "<ArticleIdList>")
    ensures IsOpeningLine("ArticleId", "<ArticleId IdType=\"doi\">10.1/x</ArticleId>")
  {
    assert "<ArticleIdList>"[..10] == "<ArticleId";
    assert "<ArticleId IdType=\"doi\">10.1/x</ArticleId>"[..10] == "<ArticleId";
  }

  /** A self-closing opening line (ending in `/>`) returns `""` and changes
      nothing, once it has passed the reopening check. */
  lemma SelfClosingChangesNothing(h: Helper, line: string)
    requires IsOpeningLine(h.tag, line) && !IsTruncatedOpening(h.tag, line)
    requires h.allowReopening || !h.tagOpened || h.justOpened
    requires EndsWith(line, "/>")
    ensures Parse(h, line) == Ok(Stripped(h, ""))
  {
  }

  /** With mandatory attributes, an opening line that lacks a required key
      or carries another value returns `""` and changes no field. */
  lemma GatedMismatchChangesNothing(h: Helper, line: string, gt: nat)
    requires IsOpeningLine(h.tag, line) && !IsTruncatedOpening(h.tag, line)
    requires h.allowReopening || !h.tagOpened || h.justOpened
    requires !EndsWith(line, "/>")
    requires FindChar(line, '>') == Some(gt) && gt >= |OpeningTag(h.tag)|
    requires h.mandatoryAttributes.Some?
    requires !Satisfies(ExtractAttributes(line[|OpeningTag(h.tag)|..gt]), h.mandatoryAttributes.value)
    ensures Parse(h, line) == Ok(Stripped(h, ""))
  {
  }

  /** The closing half on a helper that is open and not closed: the tag
      closes exactly when the rest ends with the closing tag. */
  lemma OpenClosingCases(h: Helper, rest: string)
    requires h.tagOpened && !h.tagClosed && !h.justClosed && h.openings >= 1
    ensures var close := ClosingTag(h.tag);
            ParseClosing(h, rest) ==
              if EndsWith(rest, close)
              then Ok(Stripped(h.(tagClosed := true, justClosed := true, openings := h.openings - 1),
                               rest[..|rest| - |close|]))
              else Ok(Stripped(h, rest))
  {
  }

  /** An opening the helper does not refuse outright reads its attributes
      up to the first `>` and goes on with the rest of the line. */
  lemma ReadsOpening(h: Helper, line: string, gt: nat)
    requires IsOpeningLine(h.tag, line) && !IsTruncatedOpening(h.tag, line)
    requires h.allowReopening || !h.tagOpened || h.justOpened
    requires !EndsWith(line, "/>")
    requires FindChar(line, '>') == Some(gt) && gt >= |OpeningTag(h.tag)|
    ensures Parse(h, line) == OpenAt(h, ExtractAttributes(line[|OpeningTag(h.tag)|..gt]), line[gt + 1..])
  {
    assert Parse(h, line) == ParseOpening(h, line);
  }

  /** An opening with acceptable attributes and room in the counter. */
  lemma OpenAtAccepted(h: Helper, attributes: map<string, string>, after: string)
    requires h.mandatoryAttributes.Some? ==> Satisfies(attributes, h.mandatoryAttributes.value)
    requires h.openings < MaxOpenings
    ensures var close := ClosingTag(h.tag);
            var h1 := h.(attributes := attributes, tagOpened := true, justOpened := true, tagClosed := false,
                         justClosed := false, openings := h.openings + 1);
            OpenAt(h, attributes, after) ==
              if EndsWith(after, close)
              then Ok(Stripped(h1.(tagClosed := true, justClosed := true, openings := h.openings),
                               after[..|after| - |close|]))
              else Ok(Stripped(h1, after))
  {
    var h1 := h.(attributes := attributes, tagOpened := true, justOpened := true, tagClosed := false,
                 justClosed := false, openings := h.openings + 1);
    assert OpenAt(h, attributes, after) == ParseClosing(h1, after);
    OpenClosingCases(h1, after);
    assert h1.(tagClosed := true, justClosed := true, openings := h1.openings - 1)
           == h1.(tagClosed := true, justClosed := true, openings := h.openings);
  }

  /** An accepted opening stores the attributes, marks the tag opened and
      not closed, counts the opening and returns the text after the first
      `>` (less a closing tag at its end, which closes the tag again). */
  lemma AcceptedOpening(h: Helper, line: string, gt: nat)
    requires IsOpeningLine(h.tag, line) && !IsTruncatedOpening(h.tag, line)
    requires h.allowReopening || !h.tagOpened || h.justOpened
    requires !EndsWith(line, "/>")
    requires FindChar(line, '>') == Some(gt) && gt >= |OpeningTag(h.tag)|
    requires h.mandatoryAttributes.Some? ==>
               Satisfies(ExtractAttributes(line[|OpeningTag(h.tag)|..gt]), h.mandatoryAttributes.value)
    requires h.openings < MaxOpenings
    ensures var after := line[gt + 1..];
            var close := ClosingTag(h.tag);
            var h1 := h.(attributes := ExtractAttributes(line[|OpeningTag(h.tag)|..gt]),
                         tagOpened := true, justOpened := true, tagClosed := false,
                         justClosed := false, openings := h.openings + 1);
            Parse(h, line) ==
              if EndsWith(after, close)
              then Ok(Stripped(h1.(tagClosed := true, justClosed := true, openings := h.openings),
                               after[..|after| - |close|]))
              else Ok(Stripped(h1, after))
  {
    ReadsOpening(h, line, gt);
    OpenAtAccepted(h, ExtractAttributes(line[|OpeningTag(h.tag)|..gt]), line[gt + 1..]);
  }

  /** A single-shot helper fails on a second opening exactly when its
      previous call was not that opening. */
  lemma ReopeningErrorIff(h: Helper, line: string)
    requires IsOpeningLine(h.tag, line) && !IsTruncatedOpening(h.tag, line)
    ensures Parse(h, line) == Err(AlreadyOpened(h.tag)) <==>
              !h.allowReopening && h.tagOpened && !h.justOpened
  {
  }

  /** A closing line for a helper that is open fails exactly when the tag is
      already closed, the previous call was not that close, and reopening
      is not allowed. */
  lemma CloseErrorIff(h: Helper, line: string)
    requires h.Valid() && h.tagOpened
    requires !IsOpeningLine(h.tag, line) && !IsTruncatedOpening(h.tag, line)
    requires EndsWith(line, ClosingTag(h.tag))
    ensures Parse(h, line) == Err(AlreadyClosed(h.tag)) <==>
              h.tagClosed && !h.justClosed && !h.allowReopening
  {
  }

  /** A re-openable helper never raises a structural error. */
  lemma ReopenableNeverStructuralError(h: Helper, line: string)
    requires h.allowReopening
    ensures Parse(h, line).Err? ==> !Parse(h, line).error.AlreadyOpened?
    ensures Parse(h, line).Err? ==> !Parse(h, line).error.AlreadyClosed?
  {
  }

  /** The "not yet opened" error (article_builder.rs:141-145) cannot
      happen: an unopened helper returns before it reaches the closing test. */
  lemma NeverNotYetOpened(h: Helper, line: string)
    ensures Parse(h, line).Err? ==> !Parse(h, line).error.NotYetOpened?
  {
  }

  /** The line `<tag>v</tag>` is an accepted, not self-closing opening of
      `tag` whose first `>` follows the tag name. */
  lemma {:induction false} OneLineElementOpens(tag: string, v: string)
    requires tag != [] && '>' !in tag && tag[|tag| - 1] != '/'
    ensures var line := OpeningTag(tag) + ">" + v + ClosingTag(tag);
            IsOpeningLine(tag, line) && !IsTruncatedOpening(tag, line) && !EndsWith(line, "/>")
            && FindChar(line, '>') == Some(|OpeningTag(tag)|)
  {
    var open := OpeningTag(tag);
    var line := open + ">" + v + ClosingTag(tag);
    assert line[..|open|] == open;
    assert line[|open|] == '>';
    assert !EndsWith(line, "/>") by {
      assert line[|line| - 2] == tag[|tag| - 1];
    }
    assert forall i :: 1 <= i < |open| ==> line[i] == tag[i - 1];
    assert '>' !in line[..|open|];
    FindCharAt(line, '>', |open|);
  }

  /** A whole element on one line, `<tag>v</tag>`, opens and closes an
      untouched helper, which can then build, and yields `v`. */
  lemma {:induction false} OneLineElement(h: Helper, v: string)
    requires h.Untouched() && h.mandatoryAttributes.None?
    requires h.tag != [] && '>' !in h.tag && h.tag[|h.tag| - 1] != '/'
    ensures var line := OpeningTag(h.tag) + ">" + v + ClosingTag(h.tag);
            Parse(h, line).Ok? && Parse(h, line).value.rest == v
            && Parse(h, line).value.helper.CanBuild()
  {
    var open := OpeningTag(h.tag);
    var close := ClosingTag(h.tag);
    var line := open + ">" + v + close;
    OneLineElementOpens(h.tag, v);
    var after := line[|open| + 1..];
    assert after == v + close;
    assert EndsWith(after, close) && after[..|after| - |close|] == v by {
      assert after[|after| - |close|..] == close;
    }
    AcceptedOpening(h, line, |open|);
  }

  /** `<tag>u`, with no `>` in `u`, opens an untouched helper and yields `u`. */
  lemma {:induction false} OpeningLineWithText(h: Helper, u: string)
    requires h.Untouched() && h.mandatoryAttributes.None?
    requires h.tag != [] && '>' !in h.tag
    requires u != [] && '>' !in u
    ensures Parse(h, OpeningTag(h.tag) + ">" + u) == Ok(Stripped(h.(tagOpened := true, justOpened := true, openings := 1), u))
  {
    var open := OpeningTag(h.tag);
    var close := ClosingTag(h.tag);
    var line := open + ">" + u;
    assert line[..|open|] == open && line[|open|] == '>';
    assert !EndsWith(line, "/>") by { assert line[|line| - 1] == u[|u| - 1]; }
    assert forall i :: 1 <= i < |open| ==> line[i] == h.tag[i - 1];
    assert '>' !in line[..|open|];
    FindCharAt(line, '>', |open|);
    assert ExtractAttributes(line[|open|..|open|]) == map[] by {
      assert line[|open|..|open|] == "";
      assert Trim("") == "" && FindChar("", ' ') == None;
    }
    assert line[|open| + 1..] == u;
    assert !EndsWith(u, close) by {
      if |close| <= |u| { assert u[|u| - |close|..][|close| - 1] == u[|u| - 1]; }
    }
    AcceptedOpening(h, line, |open|);
  }

  /** `v</tag>`, with `v` not starting with `<`, closes an open helper and
      yields `v`. */
  lemma {:induction false} ClosingLineWithText(h: Helper, v: string)
    requires h.tagOpened && !h.tagClosed && h.openings >= 1
    requires v != [] && v[0] != '<'
    ensures Parse(h, v + ClosingTag(h.tag))
            == Ok(Stripped(h.(justOpened := false, tagClosed := true, justClosed := true, openings := h.openings - 1), v))
  {
    var close := ClosingTag(h.tag);
    var line := v + close;
    assert line[0] == v[0];
    assert !StartsWith(line, OpeningTag(h.tag)) by { assert OpeningTag(h.tag)[0] == '<'; }
    assert line[|line| - |close|..] == close && line[..|line| - |close|] == v;
  }
}
