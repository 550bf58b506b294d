/** The list builders (pubmed_parser/src/article_builder.rs): each follows
    its list tag with a helper, hands every non-empty remainder to one
    child builder, and when that child can build, appends what it built and
    puts a fresh child in its place. */
module ListBuilders {
  import opened Results
  import opened Text
  import opened Conversions
  import opened Records
  import opened XmlHelpers
  import opened ObjectBuilders
  import opened ElementBuilders

  /** Items are only ever appended, at most one per line. */
  predicate Extends<T(==)>(before: seq<T>, after: seq<T>)
  {
    |before| <= |after| <= |before| + 1 && after[..|before|] == before
  }

  /** The `build` every list builder shares: a list whose tag has not closed
      is not ready unless it is still empty; otherwise it is the items
      collected. */
  function ListBuild<T>(helper: Helper, items: seq<T>, builder: string): (r: Result<seq<T>>)
    ensures r.Err? <==> !helper.CanBuild() && items != []
    ensures r.Err? ==> r.error == NotReady(builder)
    ensures r.Ok? ==> r.value == items
  {
    if !helper.CanBuild() && items != [] then Err(NotReady(builder)) else Ok(items)
  }

  // ---------------------------------------------------------------------
  // ChemicalListBuilder (lines 514-564)

  datatype ChemicalListBuilder = ChemicalListBuilder(helper: Helper, chemicals: seq<Chemical>, chemical: ChemicalBuilder)

  function NewChemicalListBuilder(): (b: ChemicalListBuilder)
    ensures ChemicalListInv(b) && b.helper.Untouched() && b.chemicals == []
  {
    ChemicalListBuilder(NewHelper("ChemicalList"), [], NewChemicalBuilder())
  }

  predicate ChemicalListInv(b: ChemicalListBuilder)
  {
    IsPlain(b.helper, "ChemicalList") && ChemicalInv(b.chemical)
  }

  function ChemicalListParse(b: ChemicalListBuilder, line: string): Result<Step<ChemicalListBuilder>>
  {
    var s :- Parse(b.helper, line);
    if s.rest == "" then Ok(Step(b.(helper := s.helper), s.helper.Claims()))
    else
      var c :- ChemicalParse(b.chemical, s.rest);
      if c.next.helper.CanBuild() then
        var chemical :- ChemicalBuild(c.next);
        Ok(Step(ChemicalListBuilder(s.helper, b.chemicals + [chemical], NewChemicalBuilder()), s.helper.Claims()))
      else Ok(Step(ChemicalListBuilder(s.helper, b.chemicals, c.next), s.helper.Claims()))
  }

  /** A list that is still open fails only if it already holds items; a
      list that never opened builds to the empty list. */
  function ChemicalListBuild(b: ChemicalListBuilder): (r: Result<seq<Chemical>>)
    ensures r.Err? <==> !b.helper.CanBuild() && b.chemicals != []
    ensures r.Err? ==> r.error == NotReady("ChemicalListBuilder")
    ensures r.Ok? ==> r.value == b.chemicals
  {
    ListBuild(b.helper, b.chemicals, "ChemicalListBuilder")
  }

  /** Chemicals are appended one at a time; an appended chemical is what the
      `Chemical` element that just closed builds to, and the child restarts. */
  lemma ChemicalListAppends(b: ChemicalListBuilder, line: string)
    requires ChemicalListInv(b)
    ensures var r := ChemicalListParse(b, line);
            r.Ok? ==> ChemicalListInv(r.value.next) && Extends(b.chemicals, r.value.next.chemicals)
    ensures var r := ChemicalListParse(b, line);
            r.Ok? && |r.value.next.chemicals| > |b.chemicals| ==>
              var c := ChemicalParse(b.chemical, Parse(b.helper, line).value.rest).value.next;
              c.helper.CanBuild() && ChemicalBuild(c) == Ok(r.value.next.chemicals[|b.chemicals|])
              && r.value.next.chemical == NewChemicalBuilder()
  {
    ParsePreservesValid(b.helper, line);
    if Parse(b.helper, line).Ok? {
      ChemicalParseKeeps(b.chemical, Parse(b.helper, line).value.rest);
    }
  }

  // ---------------------------------------------------------------------
  // MeshListBuilder (lines 651-704)

  datatype MeshListBuilder = MeshListBuilder(helper: Helper, meshes: seq<Mesh>, mesh: MeshBuilder)

  function NewMeshListBuilder(): (b: MeshListBuilder)
    ensures MeshListInv(b) && b.helper.Untouched() && b.meshes == []
  {
    MeshListBuilder(NewHelper("MeshHeadingList"), [], NewMeshBuilder())
  }

  predicate MeshListInv(b: MeshListBuilder)
  {
    IsPlain(b.helper, "MeshHeadingList") && MeshInv(b.mesh)
  }

  function MeshListParse(b: MeshListBuilder, line: string): Result<Step<MeshListBuilder>>
  {
    var s :- Parse(b.helper, line);
    if s.rest == "" then Ok(Step(b.(helper := s.helper), s.helper.Claims()))
    else
      var m :- MeshParse(b.mesh, s.rest);
      if m.next.helper.CanBuild() then
        var mesh :- MeshBuild(m.next);
        Ok(Step(MeshListBuilder(s.helper, b.meshes + [mesh], NewMeshBuilder()), s.helper.Claims()))
      else Ok(Step(MeshListBuilder(s.helper, b.meshes, m.next), s.helper.Claims()))
  }

  function MeshListBuild(b: MeshListBuilder): (r: Result<seq<Mesh>>)
    ensures r.Err? <==> !b.helper.CanBuild() && b.meshes != []
    ensures r.Err? ==> r.error == NotReady("MeshListBuilder")
    ensures r.Ok? ==> r.value == b.meshes
  {
    ListBuild(b.helper, b.meshes, "MeshListBuilder")
  }

  /** Headings are appended one at a time; an appended heading is what the
      `MeshHeading` element that just closed builds to, and the child restarts. */
  lemma MeshListAppends(b: MeshListBuilder, line: string)
    requires MeshListInv(b)
    ensures var r := MeshListParse(b, line);
            r.Ok? ==> MeshListInv(r.value.next) && Extends(b.meshes, r.value.next.meshes)
    ensures var r := MeshListParse(b, line);
            r.Ok? && |r.value.next.meshes| > |b.meshes| ==>
              var m := MeshParse(b.mesh, Parse(b.helper, line).value.rest).value.next;
              m.helper.CanBuild() && MeshBuild(m) == Ok(r.value.next.meshes[|b.meshes|])
              && r.value.next.mesh == NewMeshBuilder()
  {
    ParsePreservesValid(b.helper, line);
    if Parse(b.helper, line).Ok? {
      MeshParseKeeps(b.mesh, Parse(b.helper, line).value.rest);
    }
  }

  // ---------------------------------------------------------------------
  // KeywordListBuilder (lines 707-781)

  /** The mandatory attributes of the keywords of a list: `Owner` = owner. */
  function OwnerGate(owner: string): (m: map<string, string>)
    ensures |m| > 0 && "Owner" in m && m["Owner"] == owner
  {
    map["Owner" := owner]
  }

  /** The list's own helper is not gated: it opens on a `KeywordList` of
      any owner, while only keywords whose `Owner` is the builder's are read. */
  datatype KeywordListBuilder = KeywordListBuilder(
    helper: Helper, keywords: seq<Keyword>, owner: string, keyword: Leaf<string>)

  function NewKeywordListBuilder(owner: string): (b: KeywordListBuilder)
    ensures KeywordListInv(b) && b.helper.Untouched() && b.keywords == [] && b.owner == owner
  {
    KeywordListBuilder(NewHelper("KeywordList"), [], owner, GatedLeaf("Keyword", OwnerGate(owner)))
  }

  predicate KeywordListInv(b: KeywordListBuilder)
  {
    IsPlain(b.helper, "KeywordList") && IsGated(b.keyword.helper, "Keyword", OwnerGate(b.owner))
  }

  function KeywordListParse(b: KeywordListBuilder, line: string): Result<Step<KeywordListBuilder>>
  {
    var s :- Parse(b.helper, line);
    if s.rest == "" then Ok(Step(b.(helper := s.helper), s.helper.Claims()))
    else
      var k :- LeafParse(b.keyword, s.rest, ParseText);
      if k.next.CanBuild() then
        var major :- Need(Lookup(k.next.helper.attributes, "MajorTopicYN"), MissingAttribute("Keyword", "MajorTopicYN"));
        var name :- Need(LeafBuild(k.next), MissingValue("Keyword"));
        Ok(Step(KeywordListBuilder(s.helper, b.keywords + [Keyword(name, major == "Y")], b.owner,
                                   GatedLeaf("Keyword", OwnerGate(b.owner))),
                s.helper.Claims()))
      else Ok(Step(KeywordListBuilder(s.helper, b.keywords, b.owner, k.next), s.helper.Claims()))
  }

  function KeywordListBuild(b: KeywordListBuilder): (r: Result<seq<Keyword>>)
    ensures r.Err? <==> !b.helper.CanBuild() && b.keywords != []
    ensures r.Err? ==> r.error == NotReady("KeywordListBuilder")
    ensures r.Ok? ==> r.value == b.keywords
  {
    ListBuild(b.helper, b.keywords, "KeywordListBuilder")
  }

  /** Keywords are appended one at a time, each from a `Keyword` element
      whose `Owner` attribute is the builder's owner: its name is the
      element's text and it is major exactly when `MajorTopicYN` is `Y`. */
  lemma KeywordListAppends(b: KeywordListBuilder, line: string)
    requires KeywordListInv(b)
    ensures var r := KeywordListParse(b, line);
            r.Ok? ==> KeywordListInv(r.value.next) && r.value.next.owner == b.owner
                      && Extends(b.keywords, r.value.next.keywords)
    ensures var r := KeywordListParse(b, line);
            r.Ok? && |r.value.next.keywords| > |b.keywords| ==>
              var k := LeafParse(b.keyword, Parse(b.helper, line).value.rest, ParseText).value.next;
              var kw := r.value.next.keywords[|b.keywords|];
              && k.CanBuild()
              && Lookup(k.helper.attributes, "Owner") == Some(b.owner)
              && Some(kw.name) == LeafBuild(k)
              && (kw.isMajorTopic <==> Lookup(k.helper.attributes, "MajorTopicYN") == Some("Y"))
  {
    ParsePreservesValid(b.helper, line);
    if Parse(b.helper, line).Ok? {
      var rest := Parse(b.helper, line).value.rest;
      LeafParseKeeps(b.keyword, rest, ParseText);
      var k := LeafParse(b.keyword, rest, ParseText);
      if k.Ok? && k.value.next.CanBuild() {
        GatedLeafHasMandatory(k.value.next, "Keyword", OwnerGate(b.owner));
      }
    }
  }

  /** The list's helper is not gated, so a fresh list of any owner claims
      a `KeywordList` opening line whatever `Owner` that line carries. */
  lemma KeywordListOpensForAnyOwner(owner: string, line: string, gt: nat)
    requires IsOpeningLine("KeywordList", line) && !IsTruncatedOpening("KeywordList", line)
    requires !EndsWith(line, "/>")
    requires FindChar(line, '>') == Some(gt) && gt >= |OpeningTag("KeywordList")| && gt + 1 == |line|
    ensures var r := KeywordListParse(NewKeywordListBuilder(owner), line);
            r.Ok? && r.value.consumed && r.value.next.helper.tagOpened && r.value.next.keywords == []
  {
    AcceptedOpening(NewHelper("KeywordList"), line, gt);
    assert line[gt + 1..] == "";
  }

  // ---------------------------------------------------------------------
  // ArticleIdsBuilder (lines 784-850)

  datatype ArticleIdsBuilder = ArticleIdsBuilder(helper: Helper, articleIds: seq<ArticleId>, articleId: Leaf<string>)

  function NewArticleIdsBuilder(): (b: ArticleIdsBuilder)
    ensures ArticleIdsInv(b) && b.helper.Untouched() && b.articleIds == []
  {
    ArticleIdsBuilder(NewHelper("ArticleIdList"), [], NewLeaf("ArticleId"))
  }

  predicate ArticleIdsInv(b: ArticleIdsBuilder)
  {
    IsPlain(b.helper, "ArticleIdList") && IsPlain(b.articleId.helper, "ArticleId")
  }

  /** The child `ArticleId` leaf after a line (lines 805-810): an `Err` of
      the child is not reported, the child is replaced by a fresh one
      instead; a panic of the child's matcher is not an `Err` and ends the
      run. */
  function RecoverArticleId(b: Leaf<string>, rest: string): Result<Leaf<string>>
  {
    match LeafParse(b, rest, ParseText)
    case Err(e) => if MatcherPanic(e) then Err(e) else Ok(NewLeaf("ArticleId"))
    case Ok(st) => Ok(st.next)
  }

  function ArticleIdsParse(b: ArticleIdsBuilder, line: string): Result<Step<ArticleIdsBuilder>>
  {
    var s :- Parse(b.helper, line);
    if s.rest == "" then Ok(Step(b.(helper := s.helper), s.helper.Claims()))
    else
      var child :- RecoverArticleId(b.articleId, s.rest);
      if child.CanBuild() then
        var idType :- Need(Lookup(child.helper.attributes, "IdType"), MissingAttribute("ArticleId", "IdType"));
        var value :- Need(LeafBuild(child), MissingValue("ArticleId"));
        Ok(Step(ArticleIdsBuilder(s.helper, b.articleIds + [ArticleId(idType, value)], NewLeaf("ArticleId")),
                s.helper.Claims()))
      else Ok(Step(ArticleIdsBuilder(s.helper, b.articleIds, child), s.helper.Claims()))
  }

  function ArticleIdsBuild(b: ArticleIdsBuilder): (r: Result<seq<ArticleId>>)
    ensures r.Err? <==> !b.helper.CanBuild() && b.articleIds != []
    ensures r.Err? ==> r.error == NotReady("ArticleIdListBuilder")
    ensures r.Ok? ==> r.value == b.articleIds
  {
    ListBuild(b.helper, b.articleIds, "ArticleIdListBuilder")
  }

  /** Identifiers are appended one at a time, each the `IdType` and the text
      of a closed `ArticleId`. The list fails through its own helper, an
      identifier without `IdType` or without a value, or a panic of the
      child's matcher. Any other error of the child leaf (a second
      `ArticleId` opening, say) is swallowed: the partial identifier is
      discarded and the list goes on. */
  lemma ArticleIdsAppends(b: ArticleIdsBuilder, line: string)
    requires ArticleIdsInv(b)
    ensures var r := ArticleIdsParse(b, line);
            r.Ok? ==> ArticleIdsInv(r.value.next) && Extends(b.articleIds, r.value.next.articleIds)
    ensures var r := ArticleIdsParse(b, line);
            r.Ok? && |r.value.next.articleIds| > |b.articleIds| ==>
              var c := LeafParse(b.articleId, Parse(b.helper, line).value.rest, ParseText);
              c.Ok? && c.value.next.CanBuild()
              && Lookup(c.value.next.helper.attributes, "IdType") == Some(r.value.next.articleIds[|b.articleIds|].idType)
              && LeafBuild(c.value.next) == Some(r.value.next.articleIds[|b.articleIds|].value)
    ensures var r := ArticleIdsParse(b, line);
            r.Err? ==> Parse(b.helper, line).Err? || r.error == MissingAttribute("ArticleId", "IdType")
                       || r.error == MissingValue("ArticleId")
                       || (MatcherPanic(r.error)
                           && LeafParse(b.articleId, Parse(b.helper, line).value.rest, ParseText) == Err(r.error))
    ensures Parse(b.helper, line).Ok? && Parse(b.helper, line).value.rest != ""
            && LeafParse(b.articleId, Parse(b.helper, line).value.rest, ParseText).Err? ==>
              var e := LeafParse(b.articleId, Parse(b.helper, line).value.rest, ParseText).error;
              ArticleIdsParse(b, line)
              == if MatcherPanic(e) then Err(e)
                 else Ok(Step(b.(helper := Parse(b.helper, line).value.helper, articleId := NewLeaf("ArticleId")),
                              Parse(b.helper, line).value.helper.Claims()))
  {
    ParsePreservesValid(b.helper, line);
    if Parse(b.helper, line).Ok? {
      LeafParseKeeps(b.articleId, Parse(b.helper, line).value.rest, ParseText);
    }
  }

  /** Inside an open `ArticleIdList`, the line `<ArticleId` passes the list's
      matcher and makes the child's slice after its tag name go out of range
      (line 73): the run ends instead of the child being reset. */
  lemma TruncatedArticleIdPanics(b: ArticleIdsBuilder)
    requires b.helper == NewHelper("ArticleIdList").(tagOpened := true, openings := 1)
    requires b.articleId == NewLeaf("ArticleId")
    ensures ArticleIdsParse(b, "<ArticleId") == Err(MalformedOpening("ArticleId"))
  {
  }

  // ---------------------------------------------------------------------
  // OtherAbstractBuilder (lines 853-897)

  /** Has no tag of its own: every line goes to the current
      `OtherAbstract` child. */
  datatype OtherAbstractBuilder = OtherAbstractBuilder(otherAbstracts: seq<Abstract>, current: AbstractBuilder)

  function NewOtherAbstractBuilder(): (b: OtherAbstractBuilder)
    ensures OtherAbstractInv(b) && b.otherAbstracts == []
  {
    OtherAbstractBuilder([], NewAbstractBuilder("OtherAbstract"))
  }

  predicate OtherAbstractInv(b: OtherAbstractBuilder)
  {
    AbstractInv(b.current, "OtherAbstract")
  }

  /** The line counts as claimed when the current child has been opened
      (even if it has just closed). */
  function OtherAbstractParse(b: OtherAbstractBuilder, line: string): Result<Step<OtherAbstractBuilder>>
  {
    var a :- AbstractParse(b.current, line);
    var parsed := a.next.helper.tagOpened;
    if a.next.helper.CanBuild() then
      // `build()?` of a child that can build: it cannot fail
      var other := AbstractBuild(a.next).value;
      Ok(Step(OtherAbstractBuilder(b.otherAbstracts + [other], NewAbstractBuilder("OtherAbstract")), parsed))
    else Ok(Step(OtherAbstractBuilder(b.otherAbstracts, a.next), parsed))
  }

  /** Fails only while a child is open and abstracts were already collected. */
  function OtherAbstractBuild(b: OtherAbstractBuilder): (r: Result<seq<Abstract>>)
    ensures r.Err? <==> b.current.helper.tagOpened && !b.current.helper.tagClosed && b.otherAbstracts != []
    ensures r.Err? ==> r.error == NotReady("OtherAbstractBuilder")
    ensures r.Ok? ==> r.value == b.otherAbstracts
  {
    if b.current.helper.tagOpened && !b.current.helper.tagClosed && b.otherAbstracts != [] then
      Err(NotReady("OtherAbstractBuilder"))
    else Ok(b.otherAbstracts)
  }

  /** Abstracts are appended one at a time, each the build of the child that
      just closed; only the child's parse can fail, never the harvest. */
  lemma OtherAbstractAppends(b: OtherAbstractBuilder, line: string)
    requires OtherAbstractInv(b)
    ensures var r := OtherAbstractParse(b, line);
            r.Ok? ==> OtherAbstractInv(r.value.next) && Extends(b.otherAbstracts, r.value.next.otherAbstracts)
    ensures OtherAbstractParse(b, line).Err? <==> AbstractParse(b.current, line).Err?
    ensures var r := OtherAbstractParse(b, line);
            r.Ok? && |r.value.next.otherAbstracts| > |b.otherAbstracts| ==>
              AbstractBuild(AbstractParse(b.current, line).value.next) == Ok(r.value.next.otherAbstracts[|b.otherAbstracts|])
              && r.value.next.current == NewAbstractBuilder("OtherAbstract")
  {
    AbstractParseAppends(b.current, "OtherAbstract", line);
  }

  // ---------------------------------------------------------------------
  // GeneSymbolListBuilder (lines 900-953)

  datatype GeneSymbolListBuilder = GeneSymbolListBuilder(helper: Helper, geneSymbols: seq<string>, geneSymbol: Leaf<string>)

  function NewGeneSymbolListBuilder(): (b: GeneSymbolListBuilder)
    ensures GeneSymbolListInv(b) && b.helper.Untouched() && b.geneSymbols == []
  {
    GeneSymbolListBuilder(NewHelper("GeneSymbolList"), [], NewLeaf("GeneSymbol"))
  }

  predicate GeneSymbolListInv(b: GeneSymbolListBuilder)
  {
    IsPlain(b.helper, "GeneSymbolList") && IsPlain(b.geneSymbol.helper, "GeneSymbol")
  }

  function GeneSymbolListParse(b: GeneSymbolListBuilder, line: string): Result<Step<GeneSymbolListBuilder>>
  {
    var s :- Parse(b.helper, line);
    if s.rest == "" then Ok(Step(b.(helper := s.helper), s.helper.Claims()))
    else
      var g :- LeafParse(b.geneSymbol, s.rest, ParseText);
      if g.next.CanBuild() then
        var symbol :- Need(LeafBuild(g.next), MissingValue("GeneSymbol"));
        Ok(Step(GeneSymbolListBuilder(s.helper, b.geneSymbols + [symbol], NewLeaf("GeneSymbol")), s.helper.Claims()))
      else Ok(Step(GeneSymbolListBuilder(s.helper, b.geneSymbols, g.next), s.helper.Claims()))
  }

  function GeneSymbolListBuild(b: GeneSymbolListBuilder): (r: Result<seq<string>>)
    ensures r.Err? <==> !b.helper.CanBuild() && b.geneSymbols != []
    ensures r.Err? ==> r.error == NotReady("GeneSymbolListBuilder")
    ensures r.Ok? ==> r.value == b.geneSymbols
  {
    ListBuild(b.helper, b.geneSymbols, "GeneSymbolListBuilder")
  }

  /** Symbols are appended one at a time, each the trimmed text of the
      `GeneSymbol` element that just closed. */
  lemma GeneSymbolListAppends(b: GeneSymbolListBuilder, line: string)
    requires GeneSymbolListInv(b)
    ensures var r := GeneSymbolListParse(b, line);
            r.Ok? ==> GeneSymbolListInv(r.value.next) && Extends(b.geneSymbols, r.value.next.geneSymbols)
    ensures var r := GeneSymbolListParse(b, line);
            r.Ok? && |r.value.next.geneSymbols| > |b.geneSymbols| ==>
              var g := LeafParse(b.geneSymbol, Parse(b.helper, line).value.rest, ParseText).value.next;
              g.CanBuild() && LeafBuild(g) == Some(r.value.next.geneSymbols[|b.geneSymbols|])
              && r.value.next.geneSymbol == NewLeaf("GeneSymbol")
  {
    ParsePreservesValid(b.helper, line);
    if Parse(b.helper, line).Ok? {
      LeafParseKeeps(b.geneSymbol, Parse(b.helper, line).value.rest, ParseText);
    }
  }

  // ---------------------------------------------------------------------
  // SupplMeshListBuilder (lines 956-1023)

  datatype SupplMeshListBuilder = SupplMeshListBuilder(helper: Helper, meshes: seq<SupplMesh>, supplMesh: Leaf<string>)

  function NewSupplMeshListBuilder(): (b: SupplMeshListBuilder)
    ensures SupplMeshListInv(b) && b.helper.Untouched() && b.meshes == []
  {
    SupplMeshListBuilder(NewHelper("SupplMeshList"), [], NewLeaf("SupplMeshName"))
  }

  predicate SupplMeshListInv(b: SupplMeshListBuilder)
  {
    IsPlain(b.helper, "SupplMeshList") && IsPlain(b.supplMesh.helper, "SupplMeshName")
  }

  /** The `UI` and `Type` attributes and the name of a `SupplMeshName`, in that order. */
  function SupplMeshOf(leaf: Leaf<string>): (r: Result<SupplMesh>)
    ensures r.Ok? <==> "UI" in leaf.helper.attributes && "Type" in leaf.helper.attributes && LeafBuild(leaf).Some?
    ensures r.Ok? ==> r.value == SupplMesh(leaf.helper.attributes["UI"], LeafBuild(leaf).value,
                                           leaf.helper.attributes["Type"])
  {
    var code :- Need(Lookup(leaf.helper.attributes, "UI"), MissingAttribute("SupplMeshName", "UI"));
    var meshType :- Need(Lookup(leaf.helper.attributes, "Type"), MissingAttribute("SupplMeshName", "Type"));
    var name :- Need(LeafBuild(leaf), MissingValue("SupplMeshName"));
    Ok(SupplMesh(code, name, meshType))
  }

  function SupplMeshListParse(b: SupplMeshListBuilder, line: string): Result<Step<SupplMeshListBuilder>>
  {
    var s :- Parse(b.helper, line);
    if s.rest == "" then Ok(Step(b.(helper := s.helper), s.helper.Claims()))
    else
      var m :- LeafParse(b.supplMesh, s.rest, ParseText);
      if m.next.CanBuild() then
        var mesh :- SupplMeshOf(m.next);
        Ok(Step(SupplMeshListBuilder(s.helper, b.meshes + [mesh], NewLeaf("SupplMeshName")), s.helper.Claims()))
      else Ok(Step(SupplMeshListBuilder(s.helper, b.meshes, m.next), s.helper.Claims()))
  }

  function SupplMeshListBuild(b: SupplMeshListBuilder): (r: Result<seq<SupplMesh>>)
    ensures r.Err? <==> !b.helper.CanBuild() && b.meshes != []
    ensures r.Err? ==> r.error == NotReady("SupplMeshListBuilder")
    ensures r.Ok? ==> r.value == b.meshes
  {
    ListBuild(b.helper, b.meshes, "SupplMeshListBuilder")
  }

  lemma SupplMeshListAppends(b: SupplMeshListBuilder, line: string)
    requires SupplMeshListInv(b)
    ensures var r := SupplMeshListParse(b, line);
            r.Ok? ==> SupplMeshListInv(r.value.next) && Extends(b.meshes, r.value.next.meshes)
    ensures var r := SupplMeshListParse(b, line);
            r.Ok? && |r.value.next.meshes| > |b.meshes| ==>
              var m := LeafParse(b.supplMesh, Parse(b.helper, line).value.rest, ParseText).value.next;
              m.CanBuild() && SupplMeshOf(m) == Ok(r.value.next.meshes[|b.meshes|])
              && r.value.next.supplMesh == NewLeaf("SupplMeshName")
  {
    ParsePreservesValid(b.helper, line);
    if Parse(b.helper, line).Ok? {
      LeafParseKeeps(b.supplMesh, Parse(b.helper, line).value.rest, ParseText);
    }
  }

  // ---------------------------------------------------------------------
  // ReferencesBuilder (lines 1026-1097)

  /** The mandatory attributes of a reference: `IdType` = `pubmed`. */
  function PubmedGate(): (m: map<string, string>)
    ensures |m| > 0 && "IdType" in m && m["IdType"] == "pubmed"
  {
    map["IdType" := "pubmed"]
  }

  /** The list helper may reopen: every `ReferenceList` of the record adds
      to the same list. */
  datatype ReferencesBuilder = ReferencesBuilder(helper: Helper, references: seq<usize>, pubmed: Leaf<usize>)

  function NewReferencesBuilder(): (b: ReferencesBuilder)
    ensures ReferencesInv(b) && b.helper.Untouched() && b.references == []
  {
    ReferencesBuilder(WithReopening("ReferenceList"), [], GatedLeaf("ArticleId", PubmedGate()))
  }

  predicate ReferencesInv(b: ReferencesBuilder)
  {
    IsReopenable(b.helper, "ReferenceList") && IsGated(b.pubmed.helper, "ArticleId", PubmedGate())
  }

  /** The child after a line (lines 1052-1062): an `Err` (a non-numeric or
      out-of-range id, say) is not reported, the child is replaced by a
      fresh one instead; a panic of the child's matcher ends the run. */
  function RecoverReference(b: Leaf<usize>, rest: string): Result<Leaf<usize>>
  {
    match LeafParse(b, rest, ParseUsize)
    case Err(e) => if MatcherPanic(e) then Err(e) else Ok(GatedLeaf("ArticleId", PubmedGate()))
    case Ok(st) => Ok(st.next)
  }

  function ReferencesParse(b: ReferencesBuilder, line: string): Result<Step<ReferencesBuilder>>
  {
    var s :- Parse(b.helper, line);
    if s.rest == "" then Ok(Step(b.(helper := s.helper), s.helper.Claims()))
    else
      var child :- RecoverReference(b.pubmed, s.rest);
      if child.CanBuild() then
        var id :- Need(LeafBuild(child), MissingValue("ArticleId"));
        Ok(Step(ReferencesBuilder(s.helper, b.references + [id], GatedLeaf("ArticleId", PubmedGate())),
                s.helper.Claims()))
      else Ok(Step(ReferencesBuilder(s.helper, b.references, child), s.helper.Claims()))
  }

  function ReferencesBuild(b: ReferencesBuilder): (r: Result<seq<usize>>)
    ensures r.Err? <==> !b.helper.CanBuild() && b.references != []
    ensures r.Err? ==> r.error == NotReady("ReferencesBuilder")
    ensures r.Ok? ==> r.value == b.references
  {
    ListBuild(b.helper, b.references, "ReferencesBuilder")
  }

  /** References are appended one at a time, each the converted text of an
      `ArticleId` whose `IdType` is `pubmed`. The list never fails on a
      reopened or re-closed `ReferenceList`: only a malformed or over-deep
      `ReferenceList` line, an empty id or a panic of the child's matcher
      does. Any other error of the child (a non-numeric id, say) is
      swallowed and the child restarts. */
  lemma ReferencesAppends(b: ReferencesBuilder, line: string)
    requires ReferencesInv(b)
    ensures var r := ReferencesParse(b, line);
            r.Ok? ==> ReferencesInv(r.value.next) && Extends(b.references, r.value.next.references)
    ensures var r := ReferencesParse(b, line);
            r.Ok? && |r.value.next.references| > |b.references| ==>
              var c := LeafParse(b.pubmed, Parse(b.helper, line).value.rest, ParseUsize);
              c.Ok? && c.value.next.CanBuild()
              && Lookup(c.value.next.helper.attributes, "IdType") == Some("pubmed")
              && LeafBuild(c.value.next) == Some(r.value.next.references[|b.references|])
    ensures var r := ReferencesParse(b, line);
            r.Err? ==> r.error == MissingValue("ArticleId")
                       || r.error == MalformedOpening("ReferenceList")
                       || r.error == OpeningsOutOfRange("ReferenceList")
                       || (MatcherPanic(r.error)
                           && LeafParse(b.pubmed, Parse(b.helper, line).value.rest, ParseUsize) == Err(r.error))
    ensures Parse(b.helper, line).Ok? && Parse(b.helper, line).value.rest != ""
            && LeafParse(b.pubmed, Parse(b.helper, line).value.rest, ParseUsize).Err? ==>
              var e := LeafParse(b.pubmed, Parse(b.helper, line).value.rest, ParseUsize).error;
              ReferencesParse(b, line)
              == if MatcherPanic(e) then Err(e)
                 else Ok(Step(b.(helper := Parse(b.helper, line).value.helper,
                                 pubmed := GatedLeaf("ArticleId", PubmedGate())),
                              Parse(b.helper, line).value.helper.Claims()))
  {
    ParsePreservesValid(b.helper, line);
    ReopenableNeverStructuralError(b.helper, line);
    NeverNotYetOpened(b.helper, line);
    if Parse(b.helper, line).Ok? {
      var rest := Parse(b.helper, line).value.rest;
      LeafParseKeeps(b.pubmed, rest, ParseUsize);
      var c := LeafParse(b.pubmed, rest, ParseUsize);
      if c.Ok? && c.value.next.CanBuild() {
        GatedLeafHasMandatory(c.value.next, "ArticleId", PubmedGate());
      }
    }
  }

  /** Inside an open `ReferenceList`, an `ArticleId` opening without `>`
      makes the child's `find(">").unwrap()` fail (line 84): the run ends
      instead of the child being reset. */
  lemma UnclosedArticleIdPanics(b: ReferencesBuilder)
    requires b.helper == WithReopening("ReferenceList").(tagOpened := true, openings := 1)
    requires b.pubmed == GatedLeaf("ArticleId", PubmedGate())
    ensures ReferencesParse(b, "<ArticleId IdType=pubmed") == Err(MalformedOpening("ArticleId"))
  {
    OpenReferenceListPasses(b.helper);
    UnclosedArticleIdOpening();
  }

  /** An open reference list's matcher hands that line on whole. */
  lemma OpenReferenceListPasses(h: Helper)
    requires h == WithReopening("ReferenceList").(tagOpened := true, openings := 1)
    ensures Parse(h, "<ArticleId IdType=pubmed")
            == Ok(Stripped(h.(justOpened := false, justClosed := false), "<ArticleId IdType=pubmed"))
  {
    var line := "<ArticleId IdType=pubmed";
    assert !StartsWith(line, OpeningTag("ReferenceList")) by {
      assert line[..|OpeningTag("ReferenceList")|][1] == line[1];
    }
    assert !EndsWith(line, ClosingTag("ReferenceList")) by {
      assert line[|line| - |ClosingTag("ReferenceList")|..][|ClosingTag("ReferenceList")| - 1] == line[|line| - 1];
    }
  }

  /** The gated `ArticleId` matcher rejects an opening with no `>`. */
  lemma UnclosedArticleIdOpening()
    ensures Parse(WithAttributes("ArticleId", PubmedGate()), "<ArticleId IdType=pubmed")
            == Err(MalformedOpening("ArticleId"))
  {
    var line := "<ArticleId IdType=pubmed";
    assert line[..|OpeningTag("ArticleId")|] == OpeningTag("ArticleId");
    assert !EndsWith(line, "/>") by {
      assert line[|line| - 2..][1] == line[|line| - 1];
    }
    assert '>' !in line;
  }
}
