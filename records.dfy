/** The immutable records the builders produce (pubmed_parser/src/article.rs).
    Optional Rust fields are `Option`s, vectors are sequences, and the
    integer widths are the subset types of `Conversions`. */
module Records {
  import opened Results
  import opened Conversions

  /** Year, month and day are each independently optional; the month is free text. */
  datatype Date = Date(year: Option<u16>, month: Option<string>, day: Option<u8>)

  /** The field name keeps the source's spelling `pubblication_date`. */
  datatype JournalIssue = JournalIssue(volume: Option<string>, issue: Option<string>, pubblicationDate: Date)

  /** The title is mandatory; ISSN and ISO abbreviation are optional. */
  datatype Journal = Journal(issn: Option<string>, title: string, isoAbbreviation: Option<string>, journalIssue: JournalIssue)

  datatype Chemical = Chemical(registryNumber: string, nameOfSubstance: string, code: string)

  datatype MeshTopic = MeshTopic(name: string, code: string, isMajorTopic: bool)

  datatype Keyword = Keyword(name: string, isMajorTopic: bool)

  /** Every heading has a descriptor; the qualifier is optional. */
  datatype Mesh = Mesh(descriptor: MeshTopic, qualifier: Option<MeshTopic>)

  datatype SupplMesh = SupplMesh(code: string, name: string, meshType: string)

  datatype Abstract = Abstract(text: string, abstractType: Option<string>, language: Option<string>)

  datatype ArticleId = ArticleId(idType: string, value: string)

  /** One PubMed record. The PubMed id is a 32-bit unsigned integer and the
      references are `usize` ids; every list may be empty. */
  datatype Article = Article(
    completionDate: Option<Date>,
    revisionDate: Option<Date>,
    pubmedId: u32,
    articleIds: seq<ArticleId>,
    journal: Journal,
    title: Option<string>,
    abstractText: Option<Abstract>,
    otherAbstractTexts: seq<Abstract>,
    chemicalList: seq<Chemical>,
    geneSymbolList: seq<string>,
    meshList: seq<Mesh>,
    supplMeshList: seq<SupplMesh>,
    references: seq<usize>,
    keywords: seq<Keyword>)
}
