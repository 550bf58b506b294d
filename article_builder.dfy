/** The record builder (`ArticleBuilder`, pubmed_parser/src/article_builder.rs:1140-1289):
    follows one `PubmedArticle` element and hands the rest of every line to
    seventeen children in a fixed order. The first child that claims the
    line ends the dispatch; a line no child claims is an error. */
module ArticleBuilders {
  import opened Results
  import opened Text
  import opened Conversions
  import opened Records
  import opened XmlHelpers
  import opened ObjectBuilders
  import opened ElementBuilders
  import opened ListBuilders
  import opened IgnoredTags

  datatype ArticleBuilder = ArticleBuilder(
    helper: Helper,
    completionDate: DateBuilder,
    revisedDate: DateBuilder,
    pmid: Leaf<u32>,
    articleIds: ArticleIdsBuilder,
    journal: JournalBuilder,
    title: Leaf<string>,
    abstractText: AbstractBuilder,
    otherAbstracts: OtherAbstractBuilder,
    language: Leaf<string>,
    chemicalList: ChemicalListBuilder,
    meshList: MeshListBuilder,
    supplMeshList: SupplMeshListBuilder,
    references: ReferencesBuilder,
    pipKeywords: KeywordListBuilder,
    kieKeywords: KeywordListBuilder,
    geneSymbolList: GeneSymbolListBuilder,
    ignoredTags: seq<Helper>)

  /** `ArticleBuilder::new`. */
  function NewArticleBuilder(): (b: ArticleBuilder)
    ensures ArticleInv(b) && b.helper.Untouched()
  {
    ArticleBuilder(
      NewHelper("PubmedArticle"), NewDateBuilder("DateCompleted"), NewDateBuilder("DateRevised"),
      NewLeaf("PMID"), NewArticleIdsBuilder(), NewJournalBuilder(), NewLeaf("ArticleTitle"),
      NewAbstractBuilder("Abstract"), NewOtherAbstractBuilder(), NewLeaf("Language"),
      NewChemicalListBuilder(), NewMeshListBuilder(), NewSupplMeshListBuilder(), NewReferencesBuilder(),
      NewKeywordListBuilder("PIP"), NewKeywordListBuilder("KIE"), NewGeneSymbolListBuilder(),
      NewIgnoreTags(IgnoredTagNames))
  }

  /** Every helper of every child valid and configured as `new` configured it. */
  predicate ChildrenInv(b: ArticleBuilder)
  {
    && DateInv(b.completionDate, "DateCompleted") && DateInv(b.revisedDate, "DateRevised")
    && IsPlain(b.pmid.helper, "PMID") && ArticleIdsInv(b.articleIds) && JournalInv(b.journal)
    && IsPlain(b.title.helper, "ArticleTitle") && AbstractInv(b.abstractText, "Abstract")
    && OtherAbstractInv(b.otherAbstracts) && IsPlain(b.language.helper, "Language")
    && ChemicalListInv(b.chemicalList) && MeshListInv(b.meshList) && SupplMeshListInv(b.supplMeshList)
    && ReferencesInv(b.references)
    && KeywordListInv(b.pipKeywords) && b.pipKeywords.owner == "PIP"
    && KeywordListInv(b.kieKeywords) && b.kieKeywords.owner == "KIE"
    && GeneSymbolListInv(b.geneSymbolList) && IsIgnoreList(b.ignoredTags, IgnoredTagNames)
  }

  predicate ArticleInv(b: ArticleBuilder)
  {
    IsPlain(b.helper, "PubmedArticle") && ChildrenInv(b)
  }

  /** The number of children the remainder of a line is offered to. */
  const ChildCount: nat := 17

  /** Each `if` of `ArticleBuilder::parse` (lines 1204-1258): the remainder
      offered to one child, and the child replaced by its new state. A child
      whose guard says it can already build is passed over; the other
      abstracts, the ignored tags, the language and the references have no
      guard, and the two leaves guard themselves (`TryLeaf`). */
  function OfferCompletionDate(b: ArticleBuilder, rest: string): Result<Step<ArticleBuilder>>
  {
    if b.completionDate.helper.CanBuild() then Ok(Step(b, false))
    else var st :- DateParse(b.completionDate, rest); Ok(Step(b.(completionDate := st.next), st.consumed))
  }

  function OfferRevisedDate(b: ArticleBuilder, rest: string): Result<Step<ArticleBuilder>>
  {
    if b.revisedDate.helper.CanBuild() then Ok(Step(b, false))
    else var st :- DateParse(b.revisedDate, rest); Ok(Step(b.(revisedDate := st.next), st.consumed))
  }

  function OfferPmid(b: ArticleBuilder, rest: string): Result<Step<ArticleBuilder>>
  {
    var st :- TryLeaf(b.pmid, rest, ParseU32); Ok(Step(b.(pmid := st.next), st.consumed))
  }

  function OfferArticleIds(b: ArticleBuilder, rest: string): Result<Step<ArticleBuilder>>
  {
    if b.articleIds.helper.CanBuild() then Ok(Step(b, false))
    else var st :- ArticleIdsParse(b.articleIds, rest); Ok(Step(b.(articleIds := st.next), st.consumed))
  }

  function OfferJournal(b: ArticleBuilder, rest: string): Result<Step<ArticleBuilder>>
  {
    if b.journal.helper.CanBuild() then Ok(Step(b, false))
    else var st :- JournalParse(b.journal, rest); Ok(Step(b.(journal := st.next), st.consumed))
  }

  function OfferTitle(b: ArticleBuilder, rest: string): Result<Step<ArticleBuilder>>
  {
    var st :- TryLeaf(b.title, rest, ParseText); Ok(Step(b.(title := st.next), st.consumed))
  }

  function OfferAbstract(b: ArticleBuilder, rest: string): Result<Step<ArticleBuilder>>
  {
    if b.abstractText.helper.CanBuild() then Ok(Step(b, false))
    else var st :- AbstractParse(b.abstractText, rest); Ok(Step(b.(abstractText := st.next), st.consumed))
  }

  function OfferOtherAbstracts(b: ArticleBuilder, rest: string): Result<Step<ArticleBuilder>>
  {
    var st :- OtherAbstractParse(b.otherAbstracts, rest); Ok(Step(b.(otherAbstracts := st.next), st.consumed))
  }

  function OfferIgnoredTags(b: ArticleBuilder, rest: string): Result<Step<ArticleBuilder>>
  {
    var st :- IgnoreTagsParse(b.ignoredTags, rest); Ok(Step(b.(ignoredTags := st.next), st.consumed))
  }

  function OfferLanguage(b: ArticleBuilder, rest: string): Result<Step<ArticleBuilder>>
  {
    var st :- LeafParse(b.language, rest, ParseText); Ok(Step(b.(language := st.next), st.consumed))
  }

  function OfferChemicals(b: ArticleBuilder, rest: string): Result<Step<ArticleBuilder>>
  {
    if b.chemicalList.helper.CanBuild() then Ok(Step(b, false))
    else var st :- ChemicalListParse(b.chemicalList, rest); Ok(Step(b.(chemicalList := st.next), st.consumed))
  }

  function OfferGeneSymbols(b: ArticleBuilder, rest: string): Result<Step<ArticleBuilder>>
  {
    if b.geneSymbolList.helper.CanBuild() then Ok(Step(b, false))
    else var st :- GeneSymbolListParse(b.geneSymbolList, rest); Ok(Step(b.(geneSymbolList := st.next), st.consumed))
  }

  function OfferMeshes(b: ArticleBuilder, rest: string): Result<Step<ArticleBuilder>>
  {
    if b.meshList.helper.CanBuild() then Ok(Step(b, false))
    else var st :- MeshListParse(b.meshList, rest); Ok(Step(b.(meshList := st.next), st.consumed))
  }

  function OfferSupplMeshes(b: ArticleBuilder, rest: string): Result<Step<ArticleBuilder>>
  {
    if b.supplMeshList.helper.CanBuild() then Ok(Step(b, false))
    else var st :- SupplMeshListParse(b.supplMeshList, rest); Ok(Step(b.(supplMeshList := st.next), st.consumed))
  }

  function OfferPipKeywords(b: ArticleBuilder, rest: string): Result<Step<ArticleBuilder>>
  {
    if b.pipKeywords.helper.CanBuild() then Ok(Step(b, false))
    else var st :- KeywordListParse(b.pipKeywords, rest); Ok(Step(b.(pipKeywords := st.next), st.consumed))
  }

  function OfferKieKeywords(b: ArticleBuilder, rest: string): Result<Step<ArticleBuilder>>
  {
    if b.kieKeywords.helper.CanBuild() then Ok(Step(b, false))
    else var st :- KeywordListParse(b.kieKeywords, rest); Ok(Step(b.(kieKeywords := st.next), st.consumed))
  }

  function OfferReferences(b: ArticleBuilder, rest: string): Result<Step<ArticleBuilder>>
  {
    var st :- ReferencesParse(b.references, rest); Ok(Step(b.(references := st.next), st.consumed))
  }

  /** Offers the remainder to child `k`, in the order of the source (any
      `k` past the last is the last). */
  function TryChild(b: ArticleBuilder, rest: string, k: nat): Result<Step<ArticleBuilder>>
  {
    if k == 0 then OfferCompletionDate(b, rest)
    else if k == 1 then OfferRevisedDate(b, rest)
    else if k == 2 then OfferPmid(b, rest)
    else if k == 3 then OfferArticleIds(b, rest)
    else if k == 4 then OfferJournal(b, rest)
    else if k == 5 then OfferTitle(b, rest)
    else if k == 6 then OfferAbstract(b, rest)
    else if k == 7 then OfferOtherAbstracts(b, rest)
    else if k == 8 then OfferIgnoredTags(b, rest)
    else if k == 9 then OfferLanguage(b, rest)
    else if k == 10 then OfferChemicals(b, rest)
    else if k == 11 then OfferGeneSymbols(b, rest)
    else if k == 12 then OfferMeshes(b, rest)
    else if k == 13 then OfferSupplMeshes(b, rest)
    else if k == 14 then OfferPipKeywords(b, rest)
    else if k == 15 then OfferKieKeywords(b, rest)
    else OfferReferences(b, rest)
  }

  function Offers(rest: string): (ArticleBuilder, nat) -> Result<Step<ArticleBuilder>>
  {
    (c: ArticleBuilder, k: nat) => TryChild(c, rest, k)
  }

  /** Offers a line to the children `k` to `n - 1` in turn: a failure stops
      the search, the first child that claims the line ends it, and the
      state each child leaves is the one the next child sees. `e` when no
      child claims the line. */
  function FirstClaim<S>(offer: (S, nat) -> Result<Step<S>>, s: S, k: nat, n: nat, e: Error): Result<S>
    decreases n - k
  {
    if k >= n then Err(e)
    else
      var st :- offer(s, k);
      if st.consumed then Ok(st.next) else FirstClaim(offer, st.next, k + 1, n, e)
  }

  /** The seventeen `if`s of `ArticleBuilder::parse` and the error after them. */
  function Dispatch(b: ArticleBuilder, rest: string): Result<ArticleBuilder>
  {
    FirstClaim(Offers(rest), b, 0, ChildCount, NotHandled(rest))
  }

  /** `ArticleBuilder::parse`: the record's own helper first; an empty
      remainder needs no child. */
  function ArticleParse(b: ArticleBuilder, line: string): Result<ArticleBuilder>
  {
    var s :- Parse(b.helper, line);
    var b0 := b.(helper := s.helper);
    if s.rest == "" then Ok(b0) else Dispatch(b0, s.rest)
  }

  /** `ArticleBuilder::can_build`. */
  predicate ArticleCanBuild(b: ArticleBuilder)
  {
    b.helper.CanBuild()
  }

  /** `ArticleBuilder::build` (lines 1261-1285), its `?`s and `unwrap` in
      the order Rust evaluates them. */
  function ArticleBuild(b: ArticleBuilder): (r: Result<Article>)
    ensures !ArticleCanBuild(b) ==> r == Err(NotReady("ArticleBuilder"))
    ensures r.Ok? <==>
              && ArticleCanBuild(b)
              && KeywordListBuild(b.pipKeywords).Ok? && KeywordListBuild(b.kieKeywords).Ok?
              && LeafBuild(b.pmid).Some? && ArticleIdsBuild(b.articleIds).Ok? && JournalBuild(b.journal).Ok?
              && OtherAbstractBuild(b.otherAbstracts).Ok? && ChemicalListBuild(b.chemicalList).Ok?
              && MeshListBuild(b.meshList).Ok? && GeneSymbolListBuild(b.geneSymbolList).Ok?
              && SupplMeshListBuild(b.supplMeshList).Ok? && ReferencesBuild(b.references).Ok?
    ensures r.Ok? ==> r.value.keywords == b.pipKeywords.keywords + b.kieKeywords.keywords
    ensures r.Ok? ==> Some(r.value.pubmedId) == LeafBuild(b.pmid)
    ensures r.Ok? ==> (r.value.completionDate.Some? <==> b.completionDate.helper.CanBuild())
    ensures r.Ok? ==> (r.value.revisionDate.Some? <==> b.revisedDate.helper.CanBuild())
    ensures r.Ok? ==> (r.value.abstractText.Some? <==> b.abstractText.helper.CanBuild())
    ensures r.Ok? ==> r.value.completionDate ==
                        if DateBuild(b.completionDate).Ok? then Some(DateBuild(b.completionDate).value) else None
    ensures r.Ok? ==> r.value.revisionDate ==
                        if DateBuild(b.revisedDate).Ok? then Some(DateBuild(b.revisedDate).value) else None
    ensures r.Ok? ==> r.value.abstractText ==
                        if AbstractBuild(b.abstractText).Ok? then Some(AbstractBuild(b.abstractText).value) else None
    ensures r.Ok? ==> r.value.title == LeafBuild(b.title)
    ensures r.Ok? ==> Ok(r.value.journal) == JournalBuild(b.journal)
    ensures r.Ok? ==> r.value.articleIds == b.articleIds.articleIds
    ensures r.Ok? ==> r.value.otherAbstractTexts == b.otherAbstracts.otherAbstracts
    ensures r.Ok? ==> r.value.chemicalList == b.chemicalList.chemicals
    ensures r.Ok? ==> r.value.meshList == b.meshList.meshes
    ensures r.Ok? ==> r.value.geneSymbolList == b.geneSymbolList.geneSymbols
    ensures r.Ok? ==> r.value.supplMeshList == b.supplMeshList.meshes
    ensures r.Ok? ==> r.value.references == b.references.references
  {
    if !ArticleCanBuild(b) then Err(NotReady("ArticleBuilder"))
    else
      var pip :- KeywordListBuild(b.pipKeywords);
      var kie :- KeywordListBuild(b.kieKeywords);
      var completion := DateBuild(b.completionDate);
      var revision := DateBuild(b.revisedDate);
      var pubmedId :- Need(LeafBuild(b.pmid), MissingValue("PMID"));
      var articleIds :- ArticleIdsBuild(b.articleIds);
      var journal :- JournalBuild(b.journal);
      var abstractText := AbstractBuild(b.abstractText);
      var others :- OtherAbstractBuild(b.otherAbstracts);
      var chemicals :- ChemicalListBuild(b.chemicalList);
      var meshes :- MeshListBuild(b.meshList);
      var genes :- GeneSymbolListBuild(b.geneSymbolList);
      var suppl :- SupplMeshListBuild(b.supplMeshList);
      var references :- ReferencesBuild(b.references);
      Ok(Article(
        if completion.Ok? then Some(completion.value) else None,
        if revision.Ok? then Some(revision.value) else None,
        pubmedId, articleIds, journal, LeafBuild(b.title),
        if abstractText.Ok? then Some(abstractText.value) else None,
        others, chemicals, genes, meshes, suppl, references, pip + kie))
  }

  // ---------------------------------------------------------------------
  // Properties

  /** Every child that the dispatch guards with `can_build`, and that could
      already build in `b`, is the same in `b'`: the first complete date,
      id, journal, title, abstract and list of a record is the one kept. */
  predicate GuardedFrozen(b: ArticleBuilder, b': ArticleBuilder)
  {
    && (b.completionDate.helper.CanBuild() ==> b'.completionDate == b.completionDate)
    && (b.revisedDate.helper.CanBuild() ==> b'.revisedDate == b.revisedDate)
    && (b.pmid.CanBuild() ==> b'.pmid == b.pmid)
    && (b.articleIds.helper.CanBuild() ==> b'.articleIds == b.articleIds)
    && (b.journal.helper.CanBuild() ==> b'.journal == b.journal)
    && (b.title.CanBuild() ==> b'.title == b.title)
    && (b.abstractText.helper.CanBuild() ==> b'.abstractText == b.abstractText)
    && (b.chemicalList.helper.CanBuild() ==> b'.chemicalList == b.chemicalList)
    && (b.geneSymbolList.helper.CanBuild() ==> b'.geneSymbolList == b.geneSymbolList)
    && (b.meshList.helper.CanBuild() ==> b'.meshList == b.meshList)
    && (b.supplMeshList.helper.CanBuild() ==> b'.supplMeshList == b.supplMeshList)
    && (b.pipKeywords.helper.CanBuild() ==> b'.pipKeywords == b.pipKeywords)
    && (b.kieKeywords.helper.CanBuild() ==> b'.kieKeywords == b.kieKeywords)
  }

  /** What one offer keeps: every child's invariant, the record's own
      helper, and every guarded child that could already build. */
  predicate OfferKeeps(b: ArticleBuilder, r: Result<Step<ArticleBuilder>>)
  {
    r.Ok? ==> ChildrenInv(r.value.next) && r.value.next.helper == b.helper && GuardedFrozen(b, r.value.next)
  }

  /** Replacing the completion date by a valid date, which is the old one
      when that could already build, keeps what an offer must keep. */
  lemma WithCompletionDate(b: ArticleBuilder, d: DateBuilder)
    requires ChildrenInv(b) && DateInv(d, "DateCompleted")
    requires b.completionDate.helper.CanBuild() ==> d == b.completionDate
    ensures OfferKeeps(b, Ok(Step(b.(completionDate := d), false)))
  {
  }

  lemma OfferCompletionDateKeeps(b: ArticleBuilder, rest: string)
    requires ChildrenInv(b)
    ensures OfferKeeps(b, OfferCompletionDate(b, rest))
  {
    DateParseKeeps(b.completionDate, "DateCompleted", rest);
    var r := DateParse(b.completionDate, rest);
    if !b.completionDate.helper.CanBuild() && r.Ok? {
      WithCompletionDate(b, r.value.next);
    }
  }

  lemma WithRevisedDate(b: ArticleBuilder, d: DateBuilder)
    requires ChildrenInv(b) && DateInv(d, "DateRevised")
    requires b.revisedDate.helper.CanBuild() ==> d == b.revisedDate
    ensures OfferKeeps(b, Ok(Step(b.(revisedDate := d), false)))
  {
  }

  lemma OfferRevisedDateKeeps(b: ArticleBuilder, rest: string)
    requires ChildrenInv(b)
    ensures OfferKeeps(b, OfferRevisedDate(b, rest))
  {
    DateParseKeeps(b.revisedDate, "DateRevised", rest);
    var r := DateParse(b.revisedDate, rest);
    if !b.revisedDate.helper.CanBuild() && r.Ok? {
      WithRevisedDate(b, r.value.next);
    }
  }

  lemma OfferPmidKeeps(b: ArticleBuilder, rest: string)
    requires ChildrenInv(b)
    ensures OfferKeeps(b, OfferPmid(b, rest))
  {
    TryLeafKeeps(b.pmid, rest, ParseU32);
  }

  lemma WithArticleIds(b: ArticleBuilder, d: ArticleIdsBuilder)
    requires ChildrenInv(b) && ArticleIdsInv(d)
    requires b.articleIds.helper.CanBuild() ==> d == b.articleIds
    ensures OfferKeeps(b, Ok(Step(b.(articleIds := d), false)))
  {
  }

  lemma OfferArticleIdsKeeps(b: ArticleBuilder, rest: string)
    requires ChildrenInv(b)
    ensures OfferKeeps(b, OfferArticleIds(b, rest))
  {
    ArticleIdsAppends(b.articleIds, rest);
    var r := ArticleIdsParse(b.articleIds, rest);
    if !b.articleIds.helper.CanBuild() && r.Ok? {
      WithArticleIds(b, r.value.next);
    }
  }

  lemma WithJournal(b: ArticleBuilder, d: JournalBuilder)
    requires ChildrenInv(b) && JournalInv(d)
    requires b.journal.helper.CanBuild() ==> d == b.journal
    ensures OfferKeeps(b, Ok(Step(b.(journal := d), false)))
  {
  }

  lemma OfferJournalKeeps(b: ArticleBuilder, rest: string)
    requires ChildrenInv(b)
    ensures OfferKeeps(b, OfferJournal(b, rest))
  {
    JournalParseKeeps(b.journal, rest);
    var r := JournalParse(b.journal, rest);
    if !b.journal.helper.CanBuild() && r.Ok? {
      WithJournal(b, r.value.next);
    }
  }

  lemma OfferTitleKeeps(b: ArticleBuilder, rest: string)
    requires ChildrenInv(b)
    ensures OfferKeeps(b, OfferTitle(b, rest))
  {
    TryLeafKeeps(b.title, rest, ParseText);
  }

  lemma WithAbstract(b: ArticleBuilder, d: AbstractBuilder)
    requires ChildrenInv(b) && AbstractInv(d, "Abstract")
    requires b.abstractText.helper.CanBuild() ==> d == b.abstractText
    ensures OfferKeeps(b, Ok(Step(b.(abstractText := d), false)))
  {
  }

  lemma OfferAbstractKeeps(b: ArticleBuilder, rest: string)
    requires ChildrenInv(b)
    ensures OfferKeeps(b, OfferAbstract(b, rest))
  {
    AbstractParseAppends(b.abstractText, "Abstract", rest);
    var r := AbstractParse(b.abstractText, rest);
    if !b.abstractText.helper.CanBuild() && r.Ok? {
      WithAbstract(b, r.value.next);
    }
  }

  lemma OfferOtherAbstractsKeeps(b: ArticleBuilder, rest: string)
    requires ChildrenInv(b)
    ensures OfferKeeps(b, OfferOtherAbstracts(b, rest))
  {
    OtherAbstractAppends(b.otherAbstracts, rest);
  }

  lemma OfferIgnoredTagsKeeps(b: ArticleBuilder, rest: string)
    requires ChildrenInv(b)
    ensures OfferKeeps(b, OfferIgnoredTags(b, rest))
  {
    IgnoreTagsKeeps(b.ignoredTags, IgnoredTagNames, rest);
  }

  lemma OfferLanguageKeeps(b: ArticleBuilder, rest: string)
    requires ChildrenInv(b)
    ensures OfferKeeps(b, OfferLanguage(b, rest))
  {
    LeafParseKeeps(b.language, rest, ParseText);
  }

  lemma WithChemicals(b: ArticleBuilder, d: ChemicalListBuilder)
    requires ChildrenInv(b) && ChemicalListInv(d)
    requires b.chemicalList.helper.CanBuild() ==> d == b.chemicalList
    ensures OfferKeeps(b, Ok(Step(b.(chemicalList := d), false)))
  {
  }

  lemma OfferChemicalsKeeps(b: ArticleBuilder, rest: string)
    requires ChildrenInv(b)
    ensures OfferKeeps(b, OfferChemicals(b, rest))
  {
    ChemicalListAppends(b.chemicalList, rest);
    var r := ChemicalListParse(b.chemicalList, rest);
    if !b.chemicalList.helper.CanBuild() && r.Ok? {
      WithChemicals(b, r.value.next);
    }
  }

  lemma WithGeneSymbols(b: ArticleBuilder, d: GeneSymbolListBuilder)
    requires ChildrenInv(b) && GeneSymbolListInv(d)
    requires b.geneSymbolList.helper.CanBuild() ==> d == b.geneSymbolList
    ensures OfferKeeps(b, Ok(Step(b.(geneSymbolList := d), false)))
  {
  }

  lemma OfferGeneSymbolsKeeps(b: ArticleBuilder, rest: string)
    requires ChildrenInv(b)
    ensures OfferKeeps(b, OfferGeneSymbols(b, rest))
  {
    GeneSymbolListAppends(b.geneSymbolList, rest);
    var r := GeneSymbolListParse(b.geneSymbolList, rest);
    if !b.geneSymbolList.helper.CanBuild() && r.Ok? {
      WithGeneSymbols(b, r.value.next);
    }
  }

  lemma WithMeshes(b: ArticleBuilder, d: MeshListBuilder)
    requires ChildrenInv(b) && MeshListInv(d)
    requires b.meshList.helper.CanBuild() ==> d == b.meshList
    ensures OfferKeeps(b, Ok(Step(b.(meshList := d), false)))
  {
  }

  lemma OfferMeshesKeeps(b: ArticleBuilder, rest: string)
    requires ChildrenInv(b)
    ensures OfferKeeps(b, OfferMeshes(b, rest))
  {
    MeshListAppends(b.meshList, rest);
    var r := MeshListParse(b.meshList, rest);
    if !b.meshList.helper.CanBuild() && r.Ok? {
      WithMeshes(b, r.value.next);
    }
  }

  lemma WithSupplMeshes(b: ArticleBuilder, d: SupplMeshListBuilder)
    requires ChildrenInv(b) && SupplMeshListInv(d)
    requires b.supplMeshList.helper.CanBuild() ==> d == b.supplMeshList
    ensures OfferKeeps(b, Ok(Step(b.(supplMeshList := d), false)))
  {
  }

  lemma OfferSupplMeshesKeeps(b: ArticleBuilder, rest: string)
    requires ChildrenInv(b)
    ensures OfferKeeps(b, OfferSupplMeshes(b, rest))
  {
    SupplMeshListAppends(b.supplMeshList, rest);
    var r := SupplMeshListParse(b.supplMeshList, rest);
    if !b.supplMeshList.helper.CanBuild() && r.Ok? {
      WithSupplMeshes(b, r.value.next);
    }
  }

  lemma WithPipKeywords(b: ArticleBuilder, d: KeywordListBuilder)
    requires ChildrenInv(b) && KeywordListInv(d) && d.owner == "PIP"
    requires b.pipKeywords.helper.CanBuild() ==> d == b.pipKeywords
    ensures OfferKeeps(b, Ok(Step(b.(pipKeywords := d), false)))
  {
  }

  lemma OfferPipKeywordsKeeps(b: ArticleBuilder, rest: string)
    requires ChildrenInv(b)
    ensures OfferKeeps(b, OfferPipKeywords(b, rest))
  {
    KeywordListAppends(b.pipKeywords, rest);
    var r := KeywordListParse(b.pipKeywords, rest);
    if !b.pipKeywords.helper.CanBuild() && r.Ok? {
      WithPipKeywords(b, r.value.next);
    }
  }

  lemma WithKieKeywords(b: ArticleBuilder, d: KeywordListBuilder)
    requires ChildrenInv(b) && KeywordListInv(d) && d.owner == "KIE"
    requires b.kieKeywords.helper.CanBuild() ==> d == b.kieKeywords
    ensures OfferKeeps(b, Ok(Step(b.(kieKeywords := d), false)))
  {
  }

  lemma OfferKieKeywordsKeeps(b: ArticleBuilder, rest: string)
    requires ChildrenInv(b)
    ensures OfferKeeps(b, OfferKieKeywords(b, rest))
  {
    KeywordListAppends(b.kieKeywords, rest);
    var r := KeywordListParse(b.kieKeywords, rest);
    if !b.kieKeywords.helper.CanBuild() && r.Ok? {
      WithKieKeywords(b, r.value.next);
    }
  }

  lemma OfferReferencesKeeps(b: ArticleBuilder, rest: string)
    requires ChildrenInv(b)
    ensures OfferKeeps(b, OfferReferences(b, rest))
  {
    ReferencesAppends(b.references, rest);
  }

  lemma TryChildKeeps(b: ArticleBuilder, rest: string, k: nat)
    requires ChildrenInv(b)
    ensures OfferKeeps(b, TryChild(b, rest, k))
  {
    if k == 0 {
      OfferCompletionDateKeeps(b, rest);
    } else if k == 1 {
      OfferRevisedDateKeeps(b, rest);
    } else if k == 2 {
      OfferPmidKeeps(b, rest);
    } else if k == 3 {
      OfferArticleIdsKeeps(b, rest);
    } else if k == 4 {
      OfferJournalKeeps(b, rest);
    } else if k == 5 {
      OfferTitleKeeps(b, rest);
    } else if k == 6 {
      OfferAbstractKeeps(b, rest);
    } else if k == 7 {
      OfferOtherAbstractsKeeps(b, rest);
    } else if k == 8 {
      OfferIgnoredTagsKeeps(b, rest);
    } else if k == 9 {
      OfferLanguageKeeps(b, rest);
    } else if k == 10 {
      OfferChemicalsKeeps(b, rest);
    } else if k == 11 {
      OfferGeneSymbolsKeeps(b, rest);
    } else if k == 12 {
      OfferMeshesKeeps(b, rest);
    } else if k == 13 {
      OfferSupplMeshesKeeps(b, rest);
    } else if k == 14 {
      OfferPipKeywordsKeeps(b, rest);
    } else if k == 15 {
      OfferKieKeywordsKeeps(b, rest);
    } else {
      OfferReferencesKeeps(b, rest);
    }
  }

  /** A property every offer keeps is kept by the whole search. */
  lemma {:induction false} FirstClaimKeeps<S>(offer: (S, nat) -> Result<Step<S>>, P: S -> bool, s: S, k: nat, n: nat, e: Error)
    requires P(s)
    requires forall c: S, j: nat :: P(c) && offer(c, j).Ok? ==> P(offer(c, j).value.next)
    ensures FirstClaim(offer, s, k, n, e).Ok? ==> P(FirstClaim(offer, s, k, n, e).value)
    decreases n - k
  {
    if k < n {
      var st := offer(s, k);
      if st.Ok? && !st.value.consumed {
        FirstClaimKeeps(offer, P, st.value.next, k + 1, n, e);
      }
    }
  }

  lemma GuardedFrozenTransitive(b: ArticleBuilder, b': ArticleBuilder, b'': ArticleBuilder)
    requires GuardedFrozen(b, b') && GuardedFrozen(b', b'')
    ensures GuardedFrozen(b, b'')
  {
  }

  /** `c` keeps what `b` promised: every child's invariant, the record's
      own helper, and every guarded child that could already build. */
  predicate KeptFrom(b: ArticleBuilder, c: ArticleBuilder)
  {
    ChildrenInv(c) && c.helper == b.helper && GuardedFrozen(b, c)
  }

  /** Every offer, from any state that kept what `b` promised, keeps it. */
  lemma OffersKeep(b: ArticleBuilder, rest: string)
    ensures forall c: ArticleBuilder, j: nat | KeptFrom(b, c) && Offers(rest)(c, j).Ok? ::
              KeptFrom(b, Offers(rest)(c, j).value.next)
  {
    forall c: ArticleBuilder, j: nat | KeptFrom(b, c) && Offers(rest)(c, j).Ok?
      ensures KeptFrom(b, Offers(rest)(c, j).value.next)
    {
      TryChildKeeps(c, rest, j);
      GuardedFrozenTransitive(b, c, Offers(rest)(c, j).value.next);
    }
  }

  /** What a dispatch keeps: every child's invariant, the record's own
      helper, and every guarded child that could already build. */
  lemma DispatchKeeps(b: ArticleBuilder, rest: string)
    requires ChildrenInv(b)
    ensures Dispatch(b, rest).Ok? ==> KeptFrom(b, Dispatch(b, rest).value)
  {
    var P := (c: ArticleBuilder) => KeptFrom(b, c);
    OffersKeep(b, rest);
    assert P(b);
    FirstClaimKeeps(Offers(rest), P, b, 0, ChildCount, NotHandled(rest));
  }

  /** Every line keeps the whole builder valid and configured (tags, gates
      and the reopening flag never change, and no counter leaves its range),
      and leaves every guarded child that could already build as it was. */
  lemma ArticleParseKeeps(b: ArticleBuilder, line: string)
    requires ArticleInv(b)
    ensures ArticleParse(b, line).Ok? ==> ArticleInv(ArticleParse(b, line).value)
    ensures ArticleParse(b, line).Ok? ==> GuardedFrozen(b, ArticleParse(b, line).value)
  {
    ParsePreservesValid(b.helper, line);
    var s := Parse(b.helper, line);
    if s.Ok? && s.value.rest != "" {
      DispatchKeeps(b.(helper := s.value.helper), s.value.rest);
    }
  }

  /** The state child `j` is offered the line in, when children `k` to
      `j - 1` all declined it; `None` when one of them claimed it or failed. */
  function StateBefore<S>(offer: (S, nat) -> Result<Step<S>>, s: S, k: nat, j: nat): Option<S>
    requires k <= j
    decreases j - k
  {
    if k == j then Some(s)
    else
      var st := offer(s, k);
      if st.Err? || st.value.consumed then None else StateBefore(offer, st.value.next, k + 1, j)
  }

  /** The search is first-claim-wins: a line every child declines gives `e`,
      and a successful search is the state the one claiming child left, all
      children before it having declined. */
  lemma {:induction false} FirstClaimOutcome<S>(offer: (S, nat) -> Result<Step<S>>, s: S, k: nat, n: nat, e: Error)
    requires k <= n
    ensures StateBefore(offer, s, k, n).Some? ==> FirstClaim(offer, s, k, n, e) == Err(e)
    ensures FirstClaim(offer, s, k, n, e).Ok? ==>
              exists j :: k <= j < n && StateBefore(offer, s, k, j).Some?
                          && offer(StateBefore(offer, s, k, j).value, j) == Ok(Step(FirstClaim(offer, s, k, n, e).value, true))
    decreases n - k
  {
    if k < n {
      var st := offer(s, k);
      if st.Ok? && !st.value.consumed {
        FirstClaimOutcome(offer, st.value.next, k + 1, n, e);
        if FirstClaim(offer, s, k, n, e).Ok? {
          var j :| k + 1 <= j < n && StateBefore(offer, st.value.next, k + 1, j).Some?
                   && offer(StateBefore(offer, st.value.next, k + 1, j).value, j) == Ok(Step(FirstClaim(offer, s, k, n, e).value, true));
          assert StateBefore(offer, s, k, j) == StateBefore(offer, st.value.next, k + 1, j);
        }
      } else if st.Ok? {
        assert StateBefore(offer, s, k, k) == Some(s);
      }
    }
  }

  /** A remainder that every child declines is reported as not handled, and
      a remainder that is handled was claimed by one child, all children
      before it in the order of the source having declined it. */
  lemma DispatchOutcome(b: ArticleBuilder, rest: string)
    ensures StateBefore(Offers(rest), b, 0, ChildCount).Some? ==> Dispatch(b, rest) == Err(NotHandled(rest))
    ensures Dispatch(b, rest).Ok? ==>
              exists j :: 0 <= j < ChildCount && StateBefore(Offers(rest), b, 0, j).Some?
                          && TryChild(StateBefore(Offers(rest), b, 0, j).value, rest, j) == Ok(Step(Dispatch(b, rest).value, true))
  {
    FirstClaimOutcome(Offers(rest), b, 0, ChildCount, NotHandled(rest));
  }

  /** Until a `PubmedArticle` opening is accepted every other line is
      ignored: no child sees it. */
  lemma SilentUntilOpened(b: ArticleBuilder, line: string)
    requires !b.helper.tagOpened
    requires !IsOpeningLine("PubmedArticle", line) && !IsTruncatedOpening("PubmedArticle", line)
    requires b.helper.tag == "PubmedArticle"
    ensures ArticleParse(b, line) == Ok(b.(helper := b.helper.(justOpened := false)))
  {
    UnopenedIgnoresOtherLines(b.helper, line);
  }

  /** A new record builder is not ready: its closing tag has not been seen. */
  lemma NewArticleBuilderNotReady()
    ensures !ArticleCanBuild(NewArticleBuilder())
  {
    assert NewArticleBuilder().helper.Untouched();
  }

  /** A record that builds has a PubMed id: a closed record without one
      fails (once its keyword lists are ready) with a missing `PMID`. */
  lemma BuildNeedsPubmedId(b: ArticleBuilder)
    requires ArticleCanBuild(b) && LeafBuild(b.pmid).None?
    requires KeywordListBuild(b.pipKeywords).Ok? && KeywordListBuild(b.kieKeywords).Ok?
    ensures ArticleBuild(b) == Err(MissingValue("PMID"))
  {
  }
}
