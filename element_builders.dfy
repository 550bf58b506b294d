/** The builders of single records (pubmed_parser/src/article_builder.rs):
    dates, journal issues, journals, abstracts, chemicals and MeSH
    headings. Each one follows its own tag with a helper and hands the
    rest of every line to its children in a fixed order; the first child
    that claims the line ends the dispatch. */
module ElementBuilders {
  import opened Results
  import opened Text
  import opened Conversions
  import opened Records
  import opened XmlHelpers
  import opened ObjectBuilders

  // ---------------------------------------------------------------------
  // DateBuilder (lines 223-278)

  datatype DateBuilder = DateBuilder(helper: Helper, year: Leaf<u16>, month: Leaf<string>, day: Leaf<u8>)

  function NewDateBuilder(tag: string): (b: DateBuilder)
    ensures DateInv(b, tag) && b.helper.Untouched()
  {
    DateBuilder(NewHelper(tag), NewLeaf("Year"), NewLeaf("Month"), NewLeaf("Day"))
  }

  /** Every helper of the builder valid and configured as `new` configured it. */
  predicate DateInv(b: DateBuilder, tag: string)
  {
    IsPlain(b.helper, tag) && IsPlain(b.year.helper, "Year")
    && IsPlain(b.month.helper, "Month") && IsPlain(b.day.helper, "Day")
  }

  function DateParse(b: DateBuilder, line: string): Result<Step<DateBuilder>>
  {
    var s :- Parse(b.helper, line);
    var y :- TryLeaf(b.year, s.rest, ParseU16);
    var b1 := b.(helper := s.helper, year := y.next);
    if y.consumed then Ok(Step(b1, true))
    else
      var m :- TryLeaf(b.month, s.rest, ParseText);
      var b2 := b1.(month := m.next);
      if m.consumed then Ok(Step(b2, true))
      else
        var d :- TryLeaf(b.day, s.rest, ParseU8);
        var b3 := b2.(day := d.next);
        if d.consumed then Ok(Step(b3, true))
        else Ok(Step(b3, s.helper.Claims()))
  }

  /** Not ready until the date's own tag has closed; then each part is what
      its leaf built. */
  function DateBuild(b: DateBuilder): (r: Result<Date>)
    ensures r.Err? <==> !b.helper.CanBuild()
    ensures r.Err? ==> r.error == NotReady("DateBuilder")
    ensures r.Ok? ==> r.value == Date(LeafBuild(b.year), LeafBuild(b.month), LeafBuild(b.day))
  {
    if !b.helper.CanBuild() then Err(NotReady("DateBuilder"))
    else Ok(Date(LeafBuild(b.year), LeafBuild(b.month), LeafBuild(b.day)))
  }

  /** Parsing keeps the invariant, and a part that can already build is
      never touched again: the first Year, Month and Day win. */
  lemma DateParseKeeps(b: DateBuilder, tag: string, line: string)
    requires DateInv(b, tag)
    ensures DateParse(b, line).Ok? ==> DateInv(DateParse(b, line).value.next, tag)
    ensures DateParse(b, line).Ok? && b.year.CanBuild() ==> DateParse(b, line).value.next.year == b.year
    ensures DateParse(b, line).Ok? && b.month.CanBuild() ==> DateParse(b, line).value.next.month == b.month
    ensures DateParse(b, line).Ok? && b.day.CanBuild() ==> DateParse(b, line).value.next.day == b.day
  {
    ParsePreservesValid(b.helper, line);
    if Parse(b.helper, line).Ok? {
      var rest := Parse(b.helper, line).value.rest;
      TryLeafKeeps(b.year, rest, ParseU16);
      TryLeafKeeps(b.month, rest, ParseText);
      TryLeafKeeps(b.day, rest, ParseU8);
    }
  }

  // ---------------------------------------------------------------------
  // JournalIssueBuilder (lines 280-333)

  datatype JournalIssueBuilder = JournalIssueBuilder(
    helper: Helper, volume: Leaf<string>, issue: Leaf<string>, pubblicationDate: DateBuilder)

  function NewJournalIssueBuilder(): (b: JournalIssueBuilder)
    ensures JournalIssueInv(b) && b.helper.Untouched()
  {
    JournalIssueBuilder(NewHelper("JournalIssue"), NewLeaf("Volume"), NewLeaf("Issue"), NewDateBuilder("PubDate"))
  }

  predicate JournalIssueInv(b: JournalIssueBuilder)
  {
    IsPlain(b.helper, "JournalIssue") && IsPlain(b.volume.helper, "Volume")
    && IsPlain(b.issue.helper, "Issue") && DateInv(b.pubblicationDate, "PubDate")
  }

  function JournalIssueParse(b: JournalIssueBuilder, line: string): Result<Step<JournalIssueBuilder>>
  {
    var s :- Parse(b.helper, line);
    var v :- TryLeaf(b.volume, s.rest, ParseText);
    var b1 := b.(helper := s.helper, volume := v.next);
    if v.consumed then Ok(Step(b1, true))
    else
      var i :- TryLeaf(b.issue, s.rest, ParseText);
      var b2 := b1.(issue := i.next);
      if i.consumed then Ok(Step(b2, true))
      else if b.pubblicationDate.helper.CanBuild() then Ok(Step(b2, s.helper.Claims()))
      else
        var d :- DateParse(b.pubblicationDate, s.rest);
        var b3 := b2.(pubblicationDate := d.next);
        if d.consumed then Ok(Step(b3, true))
        else Ok(Step(b3, s.helper.Claims()))
  }

  /** Not ready until the issue's tag has closed, and then only as ready as
      its publication date. The not-ready error names `JournalBuilder`, as
      the source's message does. */
  function JournalIssueBuild(b: JournalIssueBuilder): (r: Result<JournalIssue>)
    ensures r.Ok? <==> b.helper.CanBuild() && b.pubblicationDate.helper.CanBuild()
    ensures !b.helper.CanBuild() ==> r == Err(NotReady("JournalBuilder"))
    ensures r.Ok? ==> r.value == JournalIssue(LeafBuild(b.volume), LeafBuild(b.issue),
                                              DateBuild(b.pubblicationDate).value)
  {
    if !b.helper.CanBuild() then Err(NotReady("JournalBuilder"))
    else
      var date :- DateBuild(b.pubblicationDate);
      Ok(JournalIssue(LeafBuild(b.volume), LeafBuild(b.issue), date))
  }

  lemma JournalIssueParseKeeps(b: JournalIssueBuilder, line: string)
    requires JournalIssueInv(b)
    ensures JournalIssueParse(b, line).Ok? ==> JournalIssueInv(JournalIssueParse(b, line).value.next)
    ensures JournalIssueParse(b, line).Ok? && b.volume.CanBuild() ==> JournalIssueParse(b, line).value.next.volume == b.volume
    ensures JournalIssueParse(b, line).Ok? && b.issue.CanBuild() ==> JournalIssueParse(b, line).value.next.issue == b.issue
    ensures JournalIssueParse(b, line).Ok? && b.pubblicationDate.helper.CanBuild() ==>
              JournalIssueParse(b, line).value.next.pubblicationDate == b.pubblicationDate
  {
    ParsePreservesValid(b.helper, line);
    if Parse(b.helper, line).Ok? {
      var rest := Parse(b.helper, line).value.rest;
      TryLeafKeeps(b.volume, rest, ParseText);
      TryLeafKeeps(b.issue, rest, ParseText);
      DateParseKeeps(b.pubblicationDate, "PubDate", rest);
    }
  }

  // ---------------------------------------------------------------------
  // JournalBuilder (lines 335-398)

  datatype JournalBuilder = JournalBuilder(
    helper: Helper, issn: Leaf<string>, title: Leaf<string>, isoAbbreviation: Leaf<string>,
    journalIssue: JournalIssueBuilder)

  function NewJournalBuilder(): (b: JournalBuilder)
    ensures JournalInv(b) && b.helper.Untouched()
  {
    JournalBuilder(NewHelper("Journal"), NewLeaf("ISSN"), NewLeaf("Title"), NewLeaf("ISOAbbreviation"),
                   NewJournalIssueBuilder())
  }

  predicate JournalInv(b: JournalBuilder)
  {
    IsPlain(b.helper, "Journal") && IsPlain(b.issn.helper, "ISSN") && IsPlain(b.title.helper, "Title")
    && IsPlain(b.isoAbbreviation.helper, "ISOAbbreviation") && JournalIssueInv(b.journalIssue)
  }

  /** Children in the order ISSN, JournalIssue, Title, ISOAbbreviation; an
      empty remainder goes to none of them. */
  function JournalParse(b: JournalBuilder, line: string): Result<Step<JournalBuilder>>
  {
    var s :- Parse(b.helper, line);
    var b0 := b.(helper := s.helper);
    if s.rest == "" then Ok(Step(b0, s.helper.Claims()))
    else
      var n :- TryLeaf(b.issn, s.rest, ParseText);
      var b1 := b0.(issn := n.next);
      if n.consumed then Ok(Step(b1, true))
      else
        var ji :- if b.journalIssue.helper.CanBuild() then Ok(Step(b.journalIssue, false))
                  else JournalIssueParse(b.journalIssue, s.rest);
        var b2 := b1.(journalIssue := ji.next);
        if ji.consumed then Ok(Step(b2, true))
        else JournalParseTail(b2, b, s.rest, s.helper)
  }

  /** The Title and ISOAbbreviation part of `JournalParse`. */
  function JournalParseTail(b2: JournalBuilder, b: JournalBuilder, rest: string, h: Helper): Result<Step<JournalBuilder>>
  {
    var t :- TryLeaf(b.title, rest, ParseText);
    var b3 := b2.(title := t.next);
    if t.consumed then Ok(Step(b3, true))
    else
      var a :- TryLeaf(b.isoAbbreviation, rest, ParseText);
      var b4 := b3.(isoAbbreviation := a.next);
      if a.consumed then Ok(Step(b4, true))
      else Ok(Step(b4, h.Claims()))
  }

  /** Not ready until the journal's tag has closed; the title is mandatory
      (its `unwrap` comes before the issue is built). */
  function JournalBuild(b: JournalBuilder): (r: Result<Journal>)
    ensures r.Ok? <==> b.helper.CanBuild() && LeafBuild(b.title).Some? && JournalIssueBuild(b.journalIssue).Ok?
    ensures !b.helper.CanBuild() ==> r == Err(NotReady("JournalBuilder"))
    ensures b.helper.CanBuild() && LeafBuild(b.title).None? ==> r == Err(MissingValue("Title"))
    ensures r.Ok? ==> r.value == Journal(LeafBuild(b.issn), LeafBuild(b.title).value,
                                         LeafBuild(b.isoAbbreviation), JournalIssueBuild(b.journalIssue).value)
  {
    if !b.helper.CanBuild() then Err(NotReady("JournalBuilder"))
    else
      var title :- Need(LeafBuild(b.title), MissingValue("Title"));
      var issue :- JournalIssueBuild(b.journalIssue);
      Ok(Journal(LeafBuild(b.issn), title, LeafBuild(b.isoAbbreviation), issue))
  }

  lemma JournalParseKeeps(b: JournalBuilder, line: string)
    requires JournalInv(b)
    ensures JournalParse(b, line).Ok? ==> JournalInv(JournalParse(b, line).value.next)
    ensures JournalParse(b, line).Ok? && b.title.CanBuild() ==> JournalParse(b, line).value.next.title == b.title
  {
    ParsePreservesValid(b.helper, line);
    var s := Parse(b.helper, line);
    if s.Ok? && s.value.rest != "" {
      var rest := s.value.rest;
      var b0 := b.(helper := s.value.helper);
      TryLeafKeeps(b.issn, rest, ParseText);
      var n := TryLeaf(b.issn, rest, ParseText);
      if n.Ok? && !n.value.consumed {
        var b1 := b0.(issn := n.value.next);
        var ji := if b.journalIssue.helper.CanBuild() then Ok(Step(b.journalIssue, false))
                  else JournalIssueParse(b.journalIssue, rest);
        JournalIssueParseKeeps(b.journalIssue, rest);
        assert ji.Ok? ==> JournalIssueInv(ji.value.next);
        if ji.Ok? && !ji.value.consumed {
          var b2 := b1.(journalIssue := ji.value.next);
          JournalParseTailKeeps(b2, b, rest, s.value.helper);
          assert JournalParse(b, line) == JournalParseTail(b2, b, rest, s.value.helper);
        }
      }
    }
  }

  /** The Title and ISOAbbreviation offers keep the invariant and a finished title. */
  lemma JournalParseTailKeeps(b2: JournalBuilder, b: JournalBuilder, rest: string, h: Helper)
    requires JournalInv(b2) && b2.title == b.title && b2.isoAbbreviation == b.isoAbbreviation
    ensures var r := JournalParseTail(b2, b, rest, h);
            r.Ok? ==> JournalInv(r.value.next) && (b.title.CanBuild() ==> r.value.next.title == b.title)
  {
    TryLeafKeeps(b.title, rest, ParseText);
    TryLeafKeeps(b.isoAbbreviation, rest, ParseText);
  }

  // ---------------------------------------------------------------------
  // AbstractBuilder (lines 401-462)

  /** The paragraphs (`abstract_test`) collected so far and the leaf of the
      `AbstractText` being read. */
  datatype AbstractBuilder = AbstractBuilder(helper: Helper, paragraphs: seq<string>, text: Leaf<string>)

  function NewAbstractBuilder(tag: string): (b: AbstractBuilder)
    ensures AbstractInv(b, tag) && b.helper.Untouched() && b.paragraphs == []
  {
    AbstractBuilder(NewHelper(tag), [], NewLeaf("AbstractText"))
  }

  predicate AbstractInv(b: AbstractBuilder, tag: string)
  {
    IsPlain(b.helper, tag) && IsPlain(b.text.helper, "AbstractText")
  }

  /** Every non-empty remainder goes to the `AbstractText` leaf; a closed
      paragraph is appended and the leaf restarts. The line is reported as
      claimed while the abstract is not closed. */
  function AbstractParse(b: AbstractBuilder, line: string): Result<Step<AbstractBuilder>>
  {
    var s :- Parse(b.helper, line);
    if s.rest == "" then Ok(Step(b.(helper := s.helper), s.helper.Claims()))
    else
      var t :- LeafParse(b.text, s.rest, ParseText);
      if t.next.CanBuild() then
        var paragraph :- Need(LeafBuild(t.next), MissingValue("AbstractText"));
        Ok(Step(AbstractBuilder(s.helper, b.paragraphs + [paragraph], NewLeaf("AbstractText")), !s.helper.tagClosed))
      else Ok(Step(AbstractBuilder(s.helper, b.paragraphs, t.next), !s.helper.tagClosed))
  }

  /** Not ready until the abstract's tag has closed; the text is the
      paragraphs joined by single spaces, the type and the language come
      from the attributes of the abstract's own opening. */
  function AbstractBuild(b: AbstractBuilder): (r: Result<Abstract>)
    ensures r.Err? <==> !b.helper.CanBuild()
    ensures r.Err? ==> r.error == NotReady("AbstractBuilder")
    ensures r.Ok? ==> r.value.text == Join(b.paragraphs, " ")
    ensures r.Ok? ==> r.value.abstractType == Lookup(b.helper.attributes, "Type")
    ensures r.Ok? ==> r.value.language == Lookup(b.helper.attributes, "Language")
  {
    if !b.helper.CanBuild() then Err(NotReady("AbstractBuilder"))
    else Ok(Abstract(Join(b.paragraphs, " "), Lookup(b.helper.attributes, "Type"),
                     Lookup(b.helper.attributes, "Language")))
  }

  /** Paragraphs are only ever appended, at most one per line; an appended
      paragraph is the converted text of the `AbstractText` element that
      just closed, after which the leaf starts afresh. */
  lemma AbstractParseAppends(b: AbstractBuilder, tag: string, line: string)
    requires AbstractInv(b, tag)
    ensures var r := AbstractParse(b, line);
            r.Ok? ==>
              && AbstractInv(r.value.next, tag)
              && r.value.next.paragraphs[..|b.paragraphs|] == b.paragraphs
              && |b.paragraphs| <= |r.value.next.paragraphs| <= |b.paragraphs| + 1
    ensures var r := AbstractParse(b, line);
            r.Ok? && |r.value.next.paragraphs| == |b.paragraphs| + 1 ==>
              var t := LeafParse(b.text, Parse(b.helper, line).value.rest, ParseText).value.next;
              && t.CanBuild()
              && Some(r.value.next.paragraphs[|b.paragraphs|]) == LeafBuild(t)
              && r.value.next.text == NewLeaf("AbstractText")
  {
    ParsePreservesValid(b.helper, line);
    if Parse(b.helper, line).Ok? {
      var rest := Parse(b.helper, line).value.rest;
      LeafParseKeeps(b.text, rest, ParseText);
    }
  }

  // ---------------------------------------------------------------------
  // ChemicalBuilder (lines 464-512)

  datatype ChemicalBuilder = ChemicalBuilder(helper: Helper, registryNumber: Leaf<string>, nameOfSubstance: Leaf<string>)

  function NewChemicalBuilder(): (b: ChemicalBuilder)
    ensures ChemicalInv(b) && b.helper.Untouched()
  {
    ChemicalBuilder(NewHelper("Chemical"), NewLeaf("RegistryNumber"), NewLeaf("NameOfSubstance"))
  }

  predicate ChemicalInv(b: ChemicalBuilder)
  {
    IsPlain(b.helper, "Chemical") && IsPlain(b.registryNumber.helper, "RegistryNumber")
    && IsPlain(b.nameOfSubstance.helper, "NameOfSubstance")
  }

  function ChemicalParse(b: ChemicalBuilder, line: string): Result<Step<ChemicalBuilder>>
  {
    var s :- Parse(b.helper, line);
    var n :- TryLeaf(b.registryNumber, s.rest, ParseText);
    var b1 := b.(helper := s.helper, registryNumber := n.next);
    if n.consumed then Ok(Step(b1, true))
    else
      var m :- TryLeaf(b.nameOfSubstance, s.rest, ParseText);
      var b2 := b1.(nameOfSubstance := m.next);
      if m.consumed then Ok(Step(b2, true))
      else Ok(Step(b2, s.helper.Claims()))
  }

  /** No readiness test; the registry number, the `UI` attribute of
      `NameOfSubstance` and the substance name are each mandatory, and are
      demanded in that order. */
  function ChemicalBuild(b: ChemicalBuilder): (r: Result<Chemical>)
    ensures r.Ok? <==> LeafBuild(b.registryNumber).Some? && "UI" in b.nameOfSubstance.helper.attributes
                       && LeafBuild(b.nameOfSubstance).Some?
    ensures LeafBuild(b.registryNumber).None? ==> r == Err(MissingValue("RegistryNumber"))
    ensures LeafBuild(b.registryNumber).Some? && "UI" !in b.nameOfSubstance.helper.attributes ==>
              r == Err(MissingAttribute("NameOfSubstance", "UI"))
    ensures r.Ok? ==> r.value == Chemical(LeafBuild(b.registryNumber).value, LeafBuild(b.nameOfSubstance).value,
                                          b.nameOfSubstance.helper.attributes["UI"])
  {
    var registry :- Need(LeafBuild(b.registryNumber), MissingValue("RegistryNumber"));
    var code :- Need(Lookup(b.nameOfSubstance.helper.attributes, "UI"), MissingAttribute("NameOfSubstance", "UI"));
    var name :- Need(LeafBuild(b.nameOfSubstance), MissingValue("NameOfSubstance"));
    Ok(Chemical(registry, name, code))
  }

  lemma ChemicalParseKeeps(b: ChemicalBuilder, line: string)
    requires ChemicalInv(b)
    ensures ChemicalParse(b, line).Ok? ==> ChemicalInv(ChemicalParse(b, line).value.next)
    ensures ChemicalParse(b, line).Ok? && b.registryNumber.CanBuild() ==>
              ChemicalParse(b, line).value.next.registryNumber == b.registryNumber
    ensures ChemicalParse(b, line).Ok? && b.nameOfSubstance.CanBuild() ==>
              ChemicalParse(b, line).value.next.nameOfSubstance == b.nameOfSubstance
  {
    ParsePreservesValid(b.helper, line);
    if Parse(b.helper, line).Ok? {
      var rest := Parse(b.helper, line).value.rest;
      TryLeafKeeps(b.registryNumber, rest, ParseText);
      TryLeafKeeps(b.nameOfSubstance, rest, ParseText);
    }
  }

  // ---------------------------------------------------------------------
  // MeshBuilder (lines 567-648)

  datatype MeshBuilder = MeshBuilder(helper: Helper, descriptor: Leaf<string>, qualifier: Leaf<string>)

  function NewMeshBuilder(): (b: MeshBuilder)
    ensures MeshInv(b) && b.helper.Untouched()
  {
    MeshBuilder(NewHelper("MeshHeading"), NewLeaf("DescriptorName"), NewLeaf("QualifierName"))
  }

  predicate MeshInv(b: MeshBuilder)
  {
    IsPlain(b.helper, "MeshHeading") && IsPlain(b.descriptor.helper, "DescriptorName")
    && IsPlain(b.qualifier.helper, "QualifierName")
  }

  function MeshParse(b: MeshBuilder, line: string): Result<Step<MeshBuilder>>
  {
    var s :- Parse(b.helper, line);
    var d :- TryLeaf(b.descriptor, s.rest, ParseText);
    var b1 := b.(helper := s.helper, descriptor := d.next);
    if d.consumed then Ok(Step(b1, true))
    else
      var q :- TryLeaf(b.qualifier, s.rest, ParseText);
      var b2 := b1.(qualifier := q.next);
      if q.consumed then Ok(Step(b2, true))
      else Ok(Step(b2, s.helper.Claims()))
  }

  /** A descriptor or qualifier topic: the `UI` and `MajorTopicYN`
      attributes and the name are mandatory, demanded in that order, and the
      topic is major exactly when the attribute is `Y`. */
  function Topic(leaf: Leaf<string>): (r: Result<MeshTopic>)
    ensures r.Ok? <==> "UI" in leaf.helper.attributes && "MajorTopicYN" in leaf.helper.attributes
                       && LeafBuild(leaf).Some?
    ensures "UI" !in leaf.helper.attributes ==> r == Err(MissingAttribute(leaf.helper.tag, "UI"))
    ensures r.Ok? ==> r.value.code == leaf.helper.attributes["UI"]
                      && r.value.name == LeafBuild(leaf).value
                      && (r.value.isMajorTopic <==> leaf.helper.attributes["MajorTopicYN"] == "Y")
  {
    var code :- Need(Lookup(leaf.helper.attributes, "UI"), MissingAttribute(leaf.helper.tag, "UI"));
    var major :- Need(Lookup(leaf.helper.attributes, "MajorTopicYN"), MissingAttribute(leaf.helper.tag, "MajorTopicYN"));
    var name :- Need(LeafBuild(leaf), MissingValue(leaf.helper.tag));
    Ok(MeshTopic(name, code, major == "Y"))
  }

  /** No readiness test; the descriptor is mandatory, and the qualifier is
      present exactly when the `QualifierName` element has closed. */
  function MeshBuild(b: MeshBuilder): (r: Result<Mesh>)
    ensures r.Ok? <==> Topic(b.descriptor).Ok? && (b.qualifier.CanBuild() ==> Topic(b.qualifier).Ok?)
    ensures r.Ok? ==> r.value.descriptor == Topic(b.descriptor).value
    ensures r.Ok? ==> (r.value.qualifier.Some? <==> b.qualifier.CanBuild())
    ensures r.Ok? && b.qualifier.CanBuild() ==> r.value.qualifier == Some(Topic(b.qualifier).value)
  {
    var descriptor :- Topic(b.descriptor);
    if b.qualifier.CanBuild() then
      var qualifier :- Topic(b.qualifier);
      Ok(Mesh(descriptor, Some(qualifier)))
    else Ok(Mesh(descriptor, None))
  }

  /** Parsing keeps the invariant; once a descriptor and a qualifier have
      been read, further `DescriptorName` or `QualifierName` elements of the
      same heading change neither. */
  lemma MeshParseKeeps(b: MeshBuilder, line: string)
    requires MeshInv(b)
    ensures MeshParse(b, line).Ok? ==> MeshInv(MeshParse(b, line).value.next)
    ensures MeshParse(b, line).Ok? && b.descriptor.CanBuild() ==> MeshParse(b, line).value.next.descriptor == b.descriptor
    ensures MeshParse(b, line).Ok? && b.qualifier.CanBuild() ==> MeshParse(b, line).value.next.qualifier == b.qualifier
  {
    ParsePreservesValid(b.helper, line);
    if Parse(b.helper, line).Ok? {
      var rest := Parse(b.helper, line).value.rest;
      TryLeafKeeps(b.descriptor, rest, ParseText);
      TryLeafKeeps(b.qualifier, rest, ParseText);
    }
  }
}
