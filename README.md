# PubMed record builder and embedding-chunk lookup, in Dafny

This project models two parts of a PubMed toolkit.

**The line-at-a-time PubMed XML record builder** (`pubmed_parser`). It never builds
a document tree. Each trimmed line of a decompressed PubMed file goes through a
tree of small stateful parsers:

- a tag matcher (`XMLHelper`) follows the open/closed lifecycle of one tag and
  returns the part of the line inside it;
- a leaf parser (`ObjectBuilder<T>`) joins text across lines and converts it when
  its tag closes;
- composite builders (dates, journal, abstracts, chemicals, MeSH headings,
  keywords, article ids, gene symbols, supplementary MeSH, references, ignored
  blocks) hand the remainder to their children in a fixed order;
- the record builder (`ArticleBuilder`) dispatches every line of a
  `PubmedArticle` and builds the final `Article`.

The per-file driver (`parse_single_pubmed`) does four things:

- trims each line;
- drops the lines matching a fixed skip list;
- feeds the rest to one record builder;
- harvests and replaces that builder each time a record is complete.

**The embedding-chunk lookup** (`pubmed_embedding/utils.py`). It maps a curie id
to the chunk whose half-open range `[start, end)` holds it. From that it gets:

- the row of the id inside that chunk;
- the set of chunks a list of ids touches;
- their urls;
- the path of the chunk's `.npy` file.

The chunk list is a parameter instead of being loaded from the version's metadata.

## How the model is built

- **Builders are values.** Every Rust `parse(&mut self, line)` becomes a function
  from a builder state and a line to `Result<Step<State>>`. `Step` holds the new
  state and the `bool` the Rust method returns. Each builder is owned by exactly
  one parent and there is no aliasing, so passing the state along returns what
  the in-place update leaves behind. A failing `parse` is an `Err`; the caller
  then stops, as the `?` does.
- **Panics are errors.** Every `unwrap`, out-of-range slice, `find(...).unwrap()`
  and overflow-checked `u8` arithmetic of the source becomes an `Error` variant. Examples are
  `MissingAttribute`, `MissingValue`, `MalformedOpening` and `OpeningsOutOfRange`.
  Error messages are identified by the builder or tag they name, not by their text.
  The article-id and reference lists reset their child on an `Err` it returns
  (`.is_err()` at `article_builder.rs:805` and `:1052`). A matcher panic
  (`MalformedOpening`, `OpeningsOutOfRange`) is not an `Err` there, so the
  lists pass it on instead of resetting.
- **String conversion.** `FromStr` for `String` always succeeds. For `u8`, `u16`,
  `u32` and `usize` it reads an optional `+` and then one or more ASCII digits,
  and fails above the type's maximum. `usize` is taken as 64 bits.
- **Rust `trim`** cuts the characters of the Unicode White_Space property,
  written out in `Text.IsWhitespace`.
- **The loops the source has become methods.** Each is proved equal to the
  function the rest of the model uses:
  - the `for` loop of `IgnoreTags::parse`;
  - the `filter_map` loop of `parse_single_pubmed`;
  - the search loop of `get_chunk_id_from_curie_id`;
  - the appending loop of `get_unique_urls_from_curie_ids`.
- **The root dispatch is a generic search.** The seventeen `if`s of
  `ArticleBuilder::parse` go through `FirstClaim`, a first-claim-wins search
  over numbered offers. `TryChild(b, rest, k)` is the `k`-th `if`.
- **A record that builds.** The module `MinimalRecord` feeds ten lines to a new
  record builder: `<PubmedArticle>`, `<PMID>n</PMID>`, `<Journal>`,
  `<JournalIssue>`, `<PubDate>`, `</PubDate>`, `</JournalIssue>`,
  `<Title>t</Title>`, `</Journal>` and `</PubmedArticle>`. It proves, one
  builder state at a time, that every line is accepted and that the record then
  builds. So the dispatch does not reject every realistic record.
- **The driver is generic.** It is stated for any builder given as an `Ops`
  record of `parse`, `can_build`, `build` and `new`. It runs with the real
  record builder as `PubmedOps()`.

Behaviours of the code worth noting:

- The attributes of an opening are read up to the **first** `>` of the line
  (`article_builder.rs:84`), not the last.
- An attribute's value is the text between the first and the **second** `=` of
  its token (`article_builder.rs:94-103`).
- Only some children of a composite are skipped once complete. The record
  builder offers every line to the other-abstracts list, the ignored blocks,
  the language leaf and the reference list even after they have closed
  (`article_builder.rs:1225-1256`).
- Closing a tag that was never opened is not an error. An unopened matcher
  returns `""` before the closing test, so the "not yet opened" branch
  (`article_builder.rs:141-145`) is unreachable; `XmlHelpers.NeverNotYetOpened`
  proves it.
- The not-ready error of `JournalIssueBuilder::build` names `JournalBuilder`, as
  its message does (`article_builder.rs:323`).

## Model

| member | source | states |
|---|---|---|
| XmlHelpers.NewHelper | pubmed_parser/src/article_builder.rs:18-30 | a new matcher is valid and untouched, for the given tag, without mandatory attributes, not re-openable |
| XmlHelpers.WithReopening | pubmed_parser/src/article_builder.rs:32-44 | as `new`, but re-openable |
| XmlHelpers.WithAttributes | pubmed_parser/src/article_builder.rs:46-64 | as `new`, with the given non-empty mandatory map (an empty map panics in the source, so it is a precondition) |
| XmlHelpers.CollectAttributesLookup | pubmed_parser/src/article_builder.rs:87-105 | a key is in the attribute map iff some token with `=` carries it; its value is the text between that token's first and second `=`, quotes stripped, taken from the last such token |
| XmlHelpers.ClosingPreservesValid | pubmed_parser/src/article_builder.rs:132-157 | the closing half keeps the flag relations of `Valid` and leaves the tag, the mandatory attributes and the reopening flag unchanged |
| XmlHelpers.OpeningPreservesValid | pubmed_parser/src/article_builder.rs:72-126 | the opening branch keeps `Valid` (a gated matcher only opens on an opening carrying its attributes) and the configuration |
| XmlHelpers.OpenAtPreservesValid | pubmed_parser/src/article_builder.rs:107-126 | an opening with the attributes it carried, accepted or ignored by the gate, keeps `Valid` and the configuration |
| XmlHelpers.ParsePreservesValid | pubmed_parser/src/article_builder.rs:70-158 | every successful `parse` keeps `Valid` and the configuration |
| XmlHelpers.UnopenedIgnoresOtherLines | pubmed_parser/src/article_builder.rs:127-134 | an unopened matcher given a line that is not its opening returns `""` and only clears `just_opened` |
| XmlHelpers.UnopenedReturnsEmpty | pubmed_parser/src/article_builder.rs:107-134 | a matcher that was not opened and stays unopened returns `""`, with its attributes and counter unchanged |
| XmlHelpers.OpensOnlyOnOpeningLine | pubmed_parser/src/article_builder.rs:71-74 | a matcher becomes opened only on a line starting with `<tag` followed by `>` or a space |
| XmlHelpers.ArticleIdListIsNotArticleId | pubmed_parser/src/article_builder.rs:71-73 | `<ArticleIdList>` is not an opening of `ArticleId`, while `<ArticleId IdType="doi">…` is |
| XmlHelpers.SelfClosingChangesNothing | pubmed_parser/src/article_builder.rs:81-83 | an accepted opening line ending in `/>` returns `""` and changes no field |
| XmlHelpers.GatedMismatchChangesNothing | pubmed_parser/src/article_builder.rs:107-117 | an opening whose attributes miss a mandatory key or value returns `""` and changes no field |
| XmlHelpers.OpenAtAccepted | pubmed_parser/src/article_builder.rs:107-155 | an opening that passes the gate and the counter's range sets opened, clears closed, counts the opening, and closes again if the rest ends with the closing tag |
| XmlHelpers.OpenClosingCases | pubmed_parser/src/article_builder.rs:132-155 | on a matcher that is open and not closed, the closing half closes the tag and strips the closing tag exactly when the rest ends with it, and otherwise only clears `just_closed` |
| XmlHelpers.AcceptedOpening | pubmed_parser/src/article_builder.rs:84-126 | an accepted opening stores the attributes, sets opened, clears closed, increments the counter, returns the text after the first `>` and closes again if that text ends with the closing tag |
| XmlHelpers.ReopeningErrorIff | pubmed_parser/src/article_builder.rs:75-80 | a second opening fails exactly when the matcher is not re-openable, is opened and the previous line was not that opening |
| XmlHelpers.CloseErrorIff | pubmed_parser/src/article_builder.rs:138-140 | a closing line fails exactly when the tag is already closed, the previous line did not close it and reopening is not allowed |
| XmlHelpers.ReopenableNeverStructuralError | pubmed_parser/src/article_builder.rs:75-79 | a re-openable matcher never raises "already opened" or "already closed" |
| XmlHelpers.NeverNotYetOpened | pubmed_parser/src/article_builder.rs:132-146 | the "not yet opened" error is never returned |
| XmlHelpers.OneLineElementOpens | pubmed_parser/src/article_builder.rs:71-84 | `<tag>v</tag>` is an opening line, not self-closing, whose first `>` follows the tag name |
| XmlHelpers.OneLineElement | pubmed_parser/src/article_builder.rs:70-158 | `<tag>v</tag>` opens and closes an untouched matcher, which can then build, and yields `v` |
| XmlHelpers.OpeningLineWithText | pubmed_parser/src/article_builder.rs:84-126 | `<tag>u` with no `>` in `u` opens an untouched matcher once and yields `u` |
| XmlHelpers.ClosingLineWithText | pubmed_parser/src/article_builder.rs:127-157 | `v</tag>` closes an opened matcher, decrements its counter and yields `v` |
| ObjectBuilders.NewLeaf | pubmed_parser/src/article_builder.rs:169-175 | a new leaf has a new matcher, no text and no value |
| ObjectBuilders.GatedLeaf | pubmed_parser/src/article_builder.rs:177-183 | a gated leaf has a gated matcher, no text and no value |
| ObjectBuilders.LeafParseKeeps | pubmed_parser/src/article_builder.rs:189-212 | a leaf step keeps its matcher valid and configured |
| ObjectBuilders.TryLeafKeeps | pubmed_parser/src/article_builder.rs:1210-1221 | the `!can_build() && parse` guard keeps the same, and leaves a leaf that can build unchanged and unclaimed |
| ObjectBuilders.GatedLeafHasMandatory | pubmed_parser/src/article_builder.rs:107-124 | a gated leaf that can build carries its mandatory attributes |
| ObjectBuilders.AppendPieceJoins | pubmed_parser/src/article_builder.rs:191-197 | appending a piece to the joined text is joining one more piece with single spaces, empty pieces dropped |
| ObjectBuilders.LeafStep | pubmed_parser/src/article_builder.rs:190-197 | after a successful step the matcher is the matcher's next state and the text grew by its remainder |
| ObjectBuilders.LeafRunJoins | pubmed_parser/src/article_builder.rs:189-197 | over any lines, a leaf's text is the single-space join of the non-empty remainders its matcher handed back |
| ObjectBuilders.LeafConvertsOnClose | pubmed_parser/src/article_builder.rs:198-219 | when the tag closes the trimmed text is converted (failure is an error naming tag and text) and `build` then returns it, or nothing if no text was seen; before the close the value does not change |
| ObjectBuilders.ConcreteTexts | pubmed_parser/src/article_builder.rs:199 | `"123"` trims to itself and parses as the `u32` 123; `"abc"` does not parse |
| ObjectBuilders.OneLineLeaf | pubmed_parser/src/article_builder.rs:189-219 | `<tag>v</tag>` fed to a new leaf is claimed and either fails to convert `v` or builds to the conversion of the trimmed `v` |
| ObjectBuilders.PubmedIdExample | pubmed_parser/src/article_builder.rs:189-219 | `<PMID>123</PMID>` builds 123 |
| ObjectBuilders.PubmedIdConversionError | pubmed_parser/src/article_builder.rs:198-206 | `<PMID>abc</PMID>` is a conversion error naming `PMID` and `abc` |
| ObjectBuilders.TwoLineLeaf | pubmed_parser/src/article_builder.rs:189-219 | `<tag>u` then `v</tag>` builds the conversion of `u v`, joined by one space |
| ObjectBuilders.TwoLineTitleExample | pubmed_parser/src/article_builder.rs:189-219 | `<ArticleTitle>Foo` then `Bar</ArticleTitle>` builds `"Foo Bar"` |
| ElementBuilders.NewDateBuilder | pubmed_parser/src/article_builder.rs:231-238 | a new date builder has its invariant and an untouched matcher |
| ElementBuilders.DateBuild | pubmed_parser/src/article_builder.rs:261-277 | fails with not-ready iff the date tag has not closed; otherwise year, month and day are the three leaves' values, each optional |
| ElementBuilders.DateParseKeeps | pubmed_parser/src/article_builder.rs:240-255 | parsing keeps the invariant, and a year, month or day that can build is not touched again |
| ElementBuilders.NewJournalIssueBuilder | pubmed_parser/src/article_builder.rs:288-295 | a new issue builder has its invariant and an untouched matcher |
| ElementBuilders.JournalIssueBuild | pubmed_parser/src/article_builder.rs:320-332 | builds iff the issue tag and its publication date have closed; an unclosed issue is the not-ready error naming `JournalBuilder`; volume and issue are optional and the date is the built date |
| ElementBuilders.JournalIssueParseKeeps | pubmed_parser/src/article_builder.rs:297-314 | parsing keeps the invariant and leaves finished children unchanged |
| ElementBuilders.NewJournalBuilder | pubmed_parser/src/article_builder.rs:344-352 | a new journal builder has its invariant and an untouched matcher |
| ElementBuilders.JournalBuild | pubmed_parser/src/article_builder.rs:380-393 | builds iff the journal tag closed, a title was read and the issue builds; a missing title is a missing-value error; ISSN and ISO abbreviation are optional |
| ElementBuilders.JournalParseKeeps | pubmed_parser/src/article_builder.rs:354-378 | parsing keeps the invariant and a finished title unchanged |
| ElementBuilders.JournalParseTailKeeps | pubmed_parser/src/article_builder.rs:367-374 | the title and ISO-abbreviation offers keep the invariant and a finished title unchanged |
| ElementBuilders.NewAbstractBuilder | pubmed_parser/src/article_builder.rs:408-414 | a new abstract builder has no paragraphs |
| ElementBuilders.AbstractBuild | pubmed_parser/src/article_builder.rs:437-457 | fails iff the tag has not closed; the text is the paragraphs joined by `" "`, and type and language are the `Type` and `Language` attributes of the abstract's own tag |
| ElementBuilders.AbstractParseAppends | pubmed_parser/src/article_builder.rs:416-435 | paragraphs are only appended, at most one per line, each the text of a closed `AbstractText`, whose slot is then reset |
| ElementBuilders.NewChemicalBuilder | pubmed_parser/src/article_builder.rs:471-477 | a new chemical builder has its invariant |
| ElementBuilders.ChemicalBuild | pubmed_parser/src/article_builder.rs:499-511 | builds iff registry number and name were read and the name carries `UI`; the code is that `UI` attribute; each missing part is its own error |
| ElementBuilders.ChemicalParseKeeps | pubmed_parser/src/article_builder.rs:479-493 | parsing keeps the invariant and finished leaves unchanged |
| ElementBuilders.NewMeshBuilder | pubmed_parser/src/article_builder.rs:574-580 | a new heading builder has its invariant |
| ElementBuilders.Topic | pubmed_parser/src/article_builder.rs:600-647 | a topic builds iff its leaf has `UI`, `MajorTopicYN` and a name; code is `UI`, and it is major iff `MajorTopicYN == "Y"` |
| ElementBuilders.MeshBuild | pubmed_parser/src/article_builder.rs:600-647 | builds iff the descriptor's topic builds and, when a `QualifierName` closed, its topic too; the heading has the descriptor's topic, and a qualifier iff its `QualifierName` closed |
| ElementBuilders.MeshParseKeeps | pubmed_parser/src/article_builder.rs:582-594 | parsing keeps the invariant; a closed descriptor or qualifier is never touched again |
| ListBuilders.NewChemicalListBuilder | pubmed_parser/src/article_builder.rs:521-527 | a new list is empty with an untouched matcher |
| ListBuilders.ChemicalListBuild | pubmed_parser/src/article_builder.rs:551-559 | fails iff the list is unclosed and non-empty; otherwise the chemicals collected |
| ListBuilders.ChemicalListAppends | pubmed_parser/src/article_builder.rs:529-549 | chemicals are only appended, at most one per line, each the build of the child at the moment it closes, after which the child is new |
| ListBuilders.NewMeshListBuilder | pubmed_parser/src/article_builder.rs:658-664 | a new list is empty with an untouched matcher |
| ListBuilders.MeshListBuild | pubmed_parser/src/article_builder.rs:687-699 | fails iff unclosed and non-empty; otherwise the headings collected |
| ListBuilders.MeshListAppends | pubmed_parser/src/article_builder.rs:666-685 | headings are only appended, each the build of a closed child, which is then reset |
| ListBuilders.OwnerGate | pubmed_parser/src/article_builder.rs:720-725 | the keyword gate requires `Owner` equal to the list's owner |
| ListBuilders.NewKeywordListBuilder | pubmed_parser/src/article_builder.rs:715-727 | a new list is empty, has the given owner and an ungated `KeywordList` matcher |
| ListBuilders.KeywordListBuild | pubmed_parser/src/article_builder.rs:764-776 | fails iff unclosed and non-empty; otherwise the keywords collected |
| ListBuilders.KeywordListAppends | pubmed_parser/src/article_builder.rs:729-762 | keywords are only appended, each from a closed `Keyword` whose `Owner` is the list's; its name is the text and it is major iff `MajorTopicYN == "Y"` |
| ListBuilders.KeywordListOpensForAnyOwner | pubmed_parser/src/article_builder.rs:715-734 | a new list of any owner claims a bare `KeywordList` opening line whatever `Owner` it carries |
| ListBuilders.NewArticleIdsBuilder | pubmed_parser/src/article_builder.rs:791-797 | a new list is empty with an untouched matcher |
| ListBuilders.ArticleIdsBuild | pubmed_parser/src/article_builder.rs:833-845 | fails iff unclosed and non-empty; otherwise the ids collected |
| ListBuilders.ArticleIdsAppends | pubmed_parser/src/article_builder.rs:799-831 | ids are only appended, each the `IdType` and text of a closed `ArticleId`; the list fails only through its own matcher, a missing `IdType`, an empty id or a panic of the child's matcher (`Results.MatcherPanic`), which is passed on; any other child error resets the child and the list goes on |
| ListBuilders.TruncatedArticleIdPanics | pubmed_parser/src/article_builder.rs:70-73 | inside an open `ArticleIdList`, the line `<ArticleId` ends the run with the child's `MalformedOpening`, as the out-of-range slice panics, instead of resetting the child |
| ListBuilders.NewOtherAbstractBuilder | pubmed_parser/src/article_builder.rs:859-864 | a new builder has no abstracts |
| ListBuilders.OtherAbstractBuild | pubmed_parser/src/article_builder.rs:881-896 | fails iff a child abstract is open and abstracts were already collected |
| ListBuilders.OtherAbstractAppends | pubmed_parser/src/article_builder.rs:866-879 | fails iff the current abstract fails; abstracts are only appended, each the build of the closed child, which is then reset |
| ListBuilders.NewGeneSymbolListBuilder | pubmed_parser/src/article_builder.rs:907-913 | a new list is empty with an untouched matcher |
| ListBuilders.GeneSymbolListBuild | pubmed_parser/src/article_builder.rs:936-948 | fails iff unclosed and non-empty; otherwise the symbols collected |
| ListBuilders.GeneSymbolListAppends | pubmed_parser/src/article_builder.rs:915-934 | symbols are only appended, each the text of a closed child, which is then reset |
| ListBuilders.NewSupplMeshListBuilder | pubmed_parser/src/article_builder.rs:963-969 | a new list is empty with an untouched matcher |
| ListBuilders.SupplMeshOf | pubmed_parser/src/article_builder.rs:983-996 | a supplementary heading builds iff its leaf has `UI`, `Type` and a name, which become code, type and name |
| ListBuilders.SupplMeshListBuild | pubmed_parser/src/article_builder.rs:1006-1018 | fails iff unclosed and non-empty; otherwise the headings collected |
| ListBuilders.SupplMeshListAppends | pubmed_parser/src/article_builder.rs:971-1004 | headings are only appended, each from a closed child, which is then reset |
| ListBuilders.PubmedGate | pubmed_parser/src/article_builder.rs:1037-1042 | the reference child is gated on `IdType` = `pubmed` |
| ListBuilders.NewReferencesBuilder | pubmed_parser/src/article_builder.rs:1033-1044 | a new list is empty, with an untouched re-openable `ReferenceList` matcher and a child gated on `IdType` = `pubmed` |
| ListBuilders.ReferencesBuild | pubmed_parser/src/article_builder.rs:1084-1096 | fails iff unclosed and non-empty; otherwise the references collected |
| ListBuilders.ReferencesAppends | pubmed_parser/src/article_builder.rs:1046-1082 | references are only appended, each the converted text of an `ArticleId` with `IdType` `pubmed`; the only errors are an `ArticleId` without a value, a malformed or over-counted `ReferenceList` opening and a panic of the child's matcher, which is passed on; any other child error resets the child |
| ListBuilders.UnclosedArticleIdPanics | pubmed_parser/src/article_builder.rs:84 | inside an open `ReferenceList`, `<ArticleId IdType=pubmed` without `>` ends the run with the child's `MalformedOpening`, as `find(">").unwrap()` panics, instead of resetting the child |
| IgnoredTags.NewIgnoreTags | pubmed_parser/src/article_builder.rs:1124-1128 | one plain, untouched matcher per name, in order |
| IgnoredTags.IgnoreTagsParse | pubmed_parser/src/article_builder.rs:1130-1137 | the list of matchers keeps its length |
| IgnoredTags.IgnoreTagsParseDeclined | pubmed_parser/src/article_builder.rs:1131-1135 | when the first tag declines, the rest are tried and the first tag's new state is kept in front |
| IgnoredTags.IgnoreTagsParseClaimed | pubmed_parser/src/article_builder.rs:1131-1135 | when the first tag claims the line, the search stops and the other tags are untouched |
| IgnoredTags.IgnoreTagsLoop | pubmed_parser/src/article_builder.rs:1130-1137 | the `for` loop with early returns computes `IgnoreTagsParse` |
| IgnoredTags.IgnoreTagVerdict | pubmed_parser/src/article_builder.rs:1110-1116 | an ignored tag claims a line iff its matcher is open and not closed, or has just closed |
| IgnoredTags.IgnoreTagsFirstClaim | pubmed_parser/src/article_builder.rs:1131-1135 | a claimed line was claimed by one tag: those after it are untouched and none before it claims |
| IgnoredTags.IgnoreTagsNoClaim | pubmed_parser/src/article_builder.rs:1131-1136 | an unclaimed line leaves no tag claiming |
| IgnoredTags.IgnoreTagsKeeps | pubmed_parser/src/article_builder.rs:1130-1137 | parsing keeps every tag valid and configured as it was |
| ArticleBuilders.NewArticleBuilder | pubmed_parser/src/article_builder.rs:1162-1196 | a new record builder has the invariant (every child valid and configured as `new` configures it) and an untouched `PubmedArticle` matcher |
| ArticleBuilders.ArticleBuild | pubmed_parser/src/article_builder.rs:1261-1285 | not ready unless the record tag closed; succeeds iff every `?`/`unwrap` part succeeds; the PubMed id is the PMID value; keywords are the PIP list then the KIE list; the dates and the abstract are present iff they closed, and are then what `DateBuilder::build` and `AbstractBuilder::build` return (`.ok()`); the lists are the collected ones |
| ArticleBuilders.OfferCompletionDateKeeps | pubmed_parser/src/article_builder.rs:1204-1206 | the completion-date offer keeps the children's invariant and the record matcher, and touches no finished guarded child |
| ArticleBuilders.OfferRevisedDateKeeps | pubmed_parser/src/article_builder.rs:1207-1209 | the same for the revision date |
| ArticleBuilders.OfferPmidKeeps | pubmed_parser/src/article_builder.rs:1210-1212 | the same for the PMID leaf |
| ArticleBuilders.OfferArticleIdsKeeps | pubmed_parser/src/article_builder.rs:1213-1215 | the same for the article ids |
| ArticleBuilders.OfferJournalKeeps | pubmed_parser/src/article_builder.rs:1216-1218 | the same for the journal |
| ArticleBuilders.OfferTitleKeeps | pubmed_parser/src/article_builder.rs:1219-1221 | the same for the title leaf |
| ArticleBuilders.OfferAbstractKeeps | pubmed_parser/src/article_builder.rs:1222-1224 | the same for the abstract |
| ArticleBuilders.OfferOtherAbstractsKeeps | pubmed_parser/src/article_builder.rs:1225-1227 | the same for the unguarded other-abstracts list |
| ArticleBuilders.OfferIgnoredTagsKeeps | pubmed_parser/src/article_builder.rs:1228-1230 | the same for the ignored blocks |
| ArticleBuilders.OfferLanguageKeeps | pubmed_parser/src/article_builder.rs:1231-1233 | the same for the unguarded language leaf |
| ArticleBuilders.OfferChemicalsKeeps | pubmed_parser/src/article_builder.rs:1234-1236 | the same for the chemical list |
| ArticleBuilders.OfferGeneSymbolsKeeps | pubmed_parser/src/article_builder.rs:1237-1241 | the same for the gene symbol list |
| ArticleBuilders.OfferMeshesKeeps | pubmed_parser/src/article_builder.rs:1242-1244 | the same for the MeSH list |
| ArticleBuilders.OfferSupplMeshesKeeps | pubmed_parser/src/article_builder.rs:1245-1247 | the same for the supplementary MeSH list |
| ArticleBuilders.OfferPipKeywordsKeeps | pubmed_parser/src/article_builder.rs:1248-1250 | the same for the PIP keyword list |
| ArticleBuilders.OfferKieKeywordsKeeps | pubmed_parser/src/article_builder.rs:1251-1253 | the same for the KIE keyword list |
| ArticleBuilders.OfferReferencesKeeps | pubmed_parser/src/article_builder.rs:1254-1256 | the same for the unguarded reference list |
| ArticleBuilders.TryChildKeeps | pubmed_parser/src/article_builder.rs:1204-1256 | every one of the seventeen offers keeps the invariant and freezes finished guarded children |
| ArticleBuilders.FirstClaimKeeps | pubmed_parser/src/article_builder.rs:1204-1258 | a property every offer keeps is kept by the whole first-claim search |
| ArticleBuilders.OffersKeep | pubmed_parser/src/article_builder.rs:1204-1256 | from any state that kept the children's invariant, the record matcher and the finished guarded children, every offer keeps them |
| ArticleBuilders.DispatchKeeps | pubmed_parser/src/article_builder.rs:1204-1258 | the dispatch keeps the children's invariant and the record matcher, and freezes finished guarded children |
| ArticleBuilders.ArticleParseKeeps | pubmed_parser/src/article_builder.rs:1198-1259 | `parse` keeps the record builder's invariant, and a guarded child that finished is never changed again |
| ArticleBuilders.FirstClaimOutcome | pubmed_parser/src/article_builder.rs:1204-1258 | the search fails with the given error when every offer declines, and a success is the first offer that claimed, applied to the state the declining offers left |
| ArticleBuilders.DispatchOutcome | pubmed_parser/src/article_builder.rs:1204-1258 | a remainder no child claims is the "not handled" error; a handled line was claimed by the first child to claim it |
| ArticleBuilders.SilentUntilOpened | pubmed_parser/src/article_builder.rs:1200-1203 | until `<PubmedArticle>` opens, every other line is accepted and changes nothing but `just_opened` |
| ArticleBuilders.BuildNeedsPubmedId | pubmed_parser/src/article_builder.rs:1265-1271 | a closed record without a PMID fails at the PMID `unwrap` once the keyword lists built |
| ArticleBuilders.NewArticleBuilderNotReady | pubmed_parser/src/article_builder.rs:1286-1288 | a new record builder is not ready to build |
| MinimalRecord.PmidInRecord | pubmed_parser/src/article_builder.rs:1198-1212 | right after `<PubmedArticle>`, the line `<PMID>n</PMID>` passes the two dates and fills the PMID leaf with `n` |
| MinimalRecord.JournalLineInRecord | pubmed_parser/src/article_builder.rs:1198-1218 | inside the record past its PMID, a line that the dates and the article ids decline and the journal claims changes the journal only |
| MinimalRecord.MinimalLinesParse | pubmed_parser/src/article_builder.rs:1198-1259 | from a builder that has seen none of the record's tags, the ten lines are all accepted; they close the record matcher, fill the PMID and complete the journal, and change nothing else |
| MinimalRecord.MinimalBuild | pubmed_parser/src/article_builder.rs:1261-1285 | the builder after `</PubmedArticle>` builds the record with that PubMed id and trimmed journal title, no dates, no abstract and empty lists |
| MinimalRecord.MinimalRecordFrom | pubmed_parser/src/article_builder.rs:1198-1285 | any builder that has seen none of the record's tags accepts the ten lines and then builds that record |
| MinimalRecord.MinimalRecordBuilds | pubmed_parser/src/article_builder.rs:1162-1285 | a new record builder accepts the ten lines of a minimal record and then builds the record with its PubMed id and trimmed journal title |
| PubmedDriver.FeedAppend | pubmed_parser/src/parse_pubmed.rs:16-70 | feeding two runs of lines one after the other is feeding their concatenation |
| PubmedDriver.ParseSinglePubmedLoop | pubmed_parser/src/parse_pubmed.rs:15-70 | the line loop with the builder replaced after each record computes `Run` |
| PubmedDriver.PubmedOps | pubmed_parser/src/parse_pubmed.rs:15 | the builder the driver starts from, `ArticleBuilder::new`, is not ready |
| PubmedDriver.StepKeeps | pubmed_parser/src/parse_pubmed.rs:17-68 | one line keeps the driver invariant, emits at most one item, and an emitted record is the build of the builder after that line, which is then replaced by a new one |
| PubmedDriver.KeptLineOutcome | pubmed_parser/src/parse_pubmed.rs:53-66 | for a line that is not skipped: a parse error aborts with the path attached; a builder not ready after the line is kept and nothing is emitted; a ready one is built, its record emitted and the builder replaced by a new one; a failing build aborts with its error |
| PubmedDriver.UndecodedLineOutcome | pubmed_parser/src/parse_pubmed.rs:68 | a line that failed to decompress adds the decompression error of the path and changes nothing else |
| PubmedDriver.FeedKeeps | pubmed_parser/src/parse_pubmed.rs:16-70 | over any lines, the invariant holds, items are only appended, and at most one per line |
| PubmedDriver.RunItems | pubmed_parser/src/parse_pubmed.rs:16-70 | for any builder whose `new` is not ready, a run gives at most one item per line, and its error items are decompression failures of the path |
| PubmedDriver.ParseSinglePubmedItems | pubmed_parser/src/parse_pubmed.rs:10-71 | a file gives at most one item per line, and its error items are decompression failures of that path |
| PubmedDriver.SkippedLinesChangeNothing | pubmed_parser/src/parse_pubmed.rs:19-52 | lines whose trimmed form is in the skip list change neither the builder nor the items |
| PubmedDriver.LanguageLinesSkipped | pubmed_parser/src/parse_pubmed.rs:38 | a line starting with `<Language>` is skipped |
| PubmedDriver.ArticleSetLinesSkipped | pubmed_parser/src/parse_pubmed.rs:24-28 | a line starting with `<PubmedArticleSet>` or ending with `</PubmedArticleSet>` is skipped |
| PubmedDriver.StepShift | pubmed_parser/src/parse_pubmed.rs:17-68 | one line's effect does not depend on the items already emitted |
| PubmedDriver.FeedShift | pubmed_parser/src/parse_pubmed.rs:16-70 | the items already collected play no part in what later lines do |
| PubmedDriver.RecordBoundary | pubmed_parser/src/parse_pubmed.rs:57-63 | after a prefix that ends with a new builder, the rest of the file gives what it would give on its own, appended to the prefix's items: no state is carried between records |
| EmbeddingChunks.FirstHolding | pubmed_embedding/utils.py:70-76 | the first chunk from `k` on whose `[start, end)` holds the id; an error iff none does |
| EmbeddingChunks.ChunkIdOf | pubmed_embedding/utils.py:57-76 | the index of the first chunk holding the id; an unmapped-id error iff no chunk holds it |
| EmbeddingChunks.GetChunkIdFromCurieId | pubmed_embedding/utils.py:70-76 | the loop with early return computes `ChunkIdOf` |
| EmbeddingChunks.ChunkIdUnique | pubmed_embedding/utils.py:70-72 | with ordered, non-overlapping chunks, the chunk holding the id is the one found |
| EmbeddingChunks.RestrictCurieIdToChunkAsWritten | pubmed_embedding/utils.py:92-94 | as written: the chunk index minus that chunk's start |
| EmbeddingChunks.RestrictCurieIdToChunk | pubmed_embedding/utils.py:79-94 | corrected: the row of the id in its chunk, `0 <= r < end - start` and `start + r == id` |
| EmbeddingChunks.RestrictAgreesOnlyAtOwnIndex | pubmed_embedding/utils.py:92-94 | the two agree exactly when the chunk's index equals the id |
| EmbeddingChunks.RestrictCounterexample | pubmed_embedding/utils.py:92-94 | for chunks `[0,10)`, `[10,20)` and id 15, as written gives -9, corrected gives 5 |
| EmbeddingChunks.UniqueChunkIds | pubmed_embedding/utils.py:110-113 | succeeds iff every id maps; the set holds exactly the chunk indices of the ids; the error is that of the first unmapped id |
| EmbeddingChunks.UniqueChunkIdsInRange | pubmed_embedding/utils.py:110-113 | every index in the set names a chunk |
| EmbeddingChunks.UrlsOfChunkIds | pubmed_embedding/utils.py:130-136 | two equal-length lists; the chunk ids are distinct and are exactly the set; `urls[i]` is the url of chunk `chunk_ids[i]` |
| EmbeddingChunks.GetUniqueUrlsFromCurieIds | pubmed_embedding/utils.py:116-136 | fails iff some id is unmapped, with that error; otherwise the urls and distinct chunk ids of exactly the ids' chunks |
| EmbeddingChunks.ChunkPathFromCurieId | pubmed_embedding/utils.py:139-156 | a path iff the id maps; an unmapped-id error otherwise |
| EmbeddingChunks.ChunkPathNamesChunk | pubmed_embedding/utils.py:155-156 | the path is `dir/version/` followed by the decimal chunk index and `.npy` |
| EmbeddingChunks.ChunkFileInjective | pubmed_embedding/utils.py:156 | different chunk indices give different paths |
| Conversions.ParseUnsigned | pubmed_parser/src/article_builder.rs:199 | an unsigned conversion never exceeds the type's maximum |
| Conversions.ParseText | pubmed_parser/src/article_builder.rs:199 | converting to `String` always succeeds with the text itself |
| Conversions.NatToDecimal | pubmed_embedding/utils.py:156 | the decimal rendering is a non-empty string of digits |
| Conversions.DecimalRoundTrip | pubmed_embedding/utils.py:156 | reading back a rendered number gives the number |
| Conversions.ParseUnsignedRoundTrip | pubmed_parser/src/article_builder.rs:199 | a rendered number, with or without `+`, parses back to itself iff it fits |
| Conversions.ParseUnsignedRejects | pubmed_parser/src/article_builder.rs:199 | the empty string, a lone `+`, a minus sign and any non-digit are rejected |
| Text.FindChar | pubmed_parser/src/article_builder.rs:84 | the index of the first occurrence, or nothing iff the character is absent |
| Text.Split | pubmed_parser/src/article_builder.rs:89-95 | splitting gives at least one piece, and at least two when the separator occurs |
| Text.SplitPiecesLackSeparator | pubmed_parser/src/article_builder.rs:89-95 | no piece contains the separator |
| Text.JoinSplit | pubmed_parser/src/article_builder.rs:89-95 | joining the pieces with the separator gives the string back |
| Text.SplitFirstTwo | pubmed_parser/src/article_builder.rs:94-102 | the first piece is the text before the first separator, the second the text up to the next one |
| Text.TrimIsInfix | pubmed_parser/src/parse_pubmed.rs:19 | the trimmed line is a contiguous piece of it, only whitespace was cut, and its ends are not whitespace |
| Results.Need | pubmed_parser/src/article_builder.rs:1271 | an `unwrap` of an option: the value iff present, otherwise the given error |
| Results.Lookup | pubmed_parser/src/article_builder.rs:110 | a map lookup: present iff the key is in the map, with its value |

## Left out

- File opening, gzip decoding and `BufReader` line iteration (`parse_pubmed.rs:11-13`). A file is a sequence of lines, where `None` stands for a line that could not be decompressed.
- `parse_pubmed` over a directory: the directory listing, the rayon parallel map and the progress bar (`parse_pubmed.rs:72-86`). These are file system and thread scheduling.
- `get_versions`, `get_metadata`, `get_index`, `download_chunks_from_curie_ids`, `download_entire_version`, `get_embedding_from_curie_id` and `get_vector_from_curie_id`, because they do file, JSON, network, pandas or numpy work. The chunk list that `get_metadata` loads is a parameter instead.
- The text of error messages and panics, and `Debug` formatting. Errors are structured values naming the builder, tag or attribute.
- Panics of Rust string slicing at non-character boundaries. Strings are sequences of characters.
- `XmlHelpers.ParseClosing` and `XmlHelpers.OpenAt`: the model follows a build with overflow checks, where `openings += 1` past 255 and `openings -= 1` below 0 (`article_builder.rs:123`, `article_builder.rs:149`) panic, and returns `OpeningsOutOfRange` there. A release build without overflow checks wraps the counter instead and does not fail. For example, `</X>` on two lines in a row passes the `just_closed` test at line 139, the counter wraps from 0 to 255, and the matcher can never build again. That wrapping behaviour is not modelled.
- Update in place: every builder is a value returned by its `parse`. Builders are exclusively owned, so no aliasing is lost.
- `EmbeddingChunks.UrlsOfChunkIds`: Python's set iteration order is not modelled. The method picks an arbitrary element each time, so any order of the set is possible.
- `PubmedDriver.ParseSinglePubmedLoop`: a panic ends the whole run. The model returns an `Err` for the file instead of the partial list.
- `ArticleBuilders.OfferLanguage`: it is modelled, but the driver skips every line starting with `<Language>` (`PubmedDriver.LanguageLinesSkipped`). The language leaf therefore never sees its own opening and never contributes to a record.
- `MinimalRecord.MinimalRecordBuilds` stops at the record builder. That the driver then emits the built record is stated generally by `PubmedDriver.KeptLineOutcome`, not for these ten lines.
- `ArticleBuilders.ArticleBuild` identifies which `?` failed only through the sub-builder's own contract. It states when each part fails and what a success holds, not the order of the failing `?`s beyond the not-ready check, the keyword lists and the PMID (`ArticleBuilders.BuildNeedsPubmedId`).

## Findings

| source | as written | input that shows it | evidently intended | confidence | as-written member | corrected member |
|---|---|---|---|---|---|---|
| pubmed_embedding/utils.py:92-94 | `restrict_curie_id_to_chunk` returns `chunk_id - chunk["start"]`, the chunk's index minus its start | chunks `[0,10)` and `[10,20)`, curie id 15: returns 1 - 10 = -9 | `curie_id - chunk["start"]` = 5, the id's row in its chunk's array, which `get_vector_from_curie_id` (utils.py:225-229) uses as an index | high; not executed | EmbeddingChunks.RestrictCurieIdToChunkAsWritten, EmbeddingChunks.RestrictCounterexample | EmbeddingChunks.RestrictCurieIdToChunk |
