/** `parse_single_pubmed` (pubmed_parser/src/parse_pubmed.rs:10-71): the
    lines of one decompressed file, trimmed, filtered through a skip list
    and fed to one record builder, which is built and replaced by a fresh
    one as soon as its `PubmedArticle` element has closed.

    The file is given as its sequence of lines; `None` stands for a line
    the decompressor could not produce. */
module PubmedDriver {
  import opened Results
  import opened Text
  import opened Records
  import opened ArticleBuilders

  /** Lines starting or ending with one of these are dropped before the
      builder sees them (lines 20-47). */
  const SkipTokens: seq<string> := [
    "<?xml", "<?nihms ?>", "<?pmcsd ?>", "<!DOCTYPE", "<PubmedArticleSet>", "<PubmedData>",
    "</PubmedData>", "<PublicationStatus>", "</PubmedArticleSet>", "<MedlineCitation",
    "</MedlineCitation", "<CitationSubset>", "<Article ", "<ArticleTitle/>",
    "<PublicationTypeList/>", "<ReferenceList/>", "</Article>", "<NumberOfReferences>",
    "<Language>", "<SpaceFlightMission>", "<OtherID ", "<ELocationID ", "<GeneralNote ",
    "<Pagination", "</Pagination", "<MedlinePgn"]

  predicate Skipped(line: string)
  {
    exists i :: 0 <= i < |SkipTokens| && (StartsWith(line, SkipTokens[i]) || EndsWith(line, SkipTokens[i]))
  }

  /** What the loop needs of a record builder: `parse`, `can_build`,
      `build` and `new`. The loop is stated for any builder; the one it runs
      with is `PubmedOps()`. */
  datatype Ops<!B> = Ops(
    parse: (B, string) -> Result<B>,
    ready: B -> bool,
    build: B -> Result<Article>,
    initial: B)

  /** The record builder, whose `new` is not ready. */
  function PubmedOps(): (ops: Ops<ArticleBuilder>)
    ensures !ops.ready(ops.initial)
  {
    NewArticleBuilderNotReady();
    Ops((b: ArticleBuilder, line: string) => ArticleParse(b, line), (b: ArticleBuilder) => ArticleCanBuild(b),
        ArticleBuild, NewArticleBuilder())
  }

  /** The state the closure of `filter_map` carries: the current builder,
      and the items collected so far. */
  datatype Driver<B> = Driver(builder: B, emitted: seq<Result<Article>>)

  function Start<B>(ops: Ops<B>): Driver<B>
  {
    Driver(ops.initial, [])
  }

  /** One line. A decompression failure is collected as an error item; a
      skipped line changes nothing; a parse error aborts the file (the
      `unwrap` after `map_err`, lines 53-56), with the path attached; a
      builder that can build is built and replaced by a new one, and a
      failing build aborts too (lines 57-63). */
  function DriverStep<B>(ops: Ops<B>, path: string, d: Driver<B>, line: Option<string>): Result<Driver<B>>
  {
    match line
    case None => Ok(d.(emitted := d.emitted + [Err(DecompressionFailed(path))]))
    case Some(raw) =>
      var t := Trim(raw);
      if Skipped(t) then Ok(d)
      else
        var parsed := ops.parse(d.builder, t);
        if parsed.Err? then Err(InFile(parsed.error, path))
        else if !ops.ready(parsed.value) then Ok(Driver(parsed.value, d.emitted))
        else
          var article :- ops.build(parsed.value);
          Ok(Driver(ops.initial, d.emitted + [Ok(article)]))
  }

  /** The lines in order, from the given state. */
  function Feed<B>(ops: Ops<B>, path: string, d: Driver<B>, lines: seq<Option<string>>): Result<Driver<B>>
    decreases |lines|
  {
    if lines == [] then Ok(d)
    else
      var before :- Feed(ops, path, d, lines[..|lines| - 1]);
      DriverStep(ops, path, before, lines[|lines| - 1])
  }

  /** The items of a file, `Err` where the loop panics. */
  function Run<B>(ops: Ops<B>, path: string, lines: seq<Option<string>>): Result<seq<Result<Article>>>
  {
    var d :- Feed(ops, path, Start(ops), lines);
    Ok(d.emitted)
  }

  /** What `parse_single_pubmed` returns. */
  function ParseSinglePubmed(path: string, lines: seq<Option<string>>): Result<seq<Result<Article>>>
  {
    Run(PubmedOps(), path, lines)
  }

  /** Feeding two pieces one after the other is feeding their concatenation. */
  lemma {:induction false} FeedAppend<B>(ops: Ops<B>, path: string, d: Driver<B>, l1: seq<Option<string>>, l2: seq<Option<string>>)
    ensures Feed(ops, path, d, l1 + l2) == (var m :- Feed(ops, path, d, l1); Feed(ops, path, m, l2))
    decreases |l2|
  {
    if l2 == [] {
      assert l1 + l2 == l1;
    } else {
      var init := l2[..|l2| - 1];
      assert (l1 + l2)[..|l1 + l2| - 1] == l1 + init;
      assert (l1 + l2)[|l1 + l2| - 1] == l2[|l2| - 1];
      FeedAppend(ops, path, d, l1, init);
    }
  }

  /** The `filter_map` loop: the builder and the collected items are
      updated line by line, and a panic ends the loop. */
  method ParseSinglePubmedLoop<B>(ops: Ops<B>, path: string, lines: seq<Option<string>>) returns (r: Result<seq<Result<Article>>>)
    ensures r == Run(ops, path, lines)
  {
    var builder := ops.initial;
    var emitted: seq<Result<Article>> := [];
    var i := 0;
    while i < |lines|
      invariant 0 <= i <= |lines|
      invariant Feed(ops, path, Start(ops), lines[..i]) == Ok(Driver(builder, emitted))
    {
      assert lines[..i + 1][..i] == lines[..i];
      FeedAppend(ops, path, Start(ops), lines[..i + 1], lines[i + 1..]);
      assert lines[..i + 1] + lines[i + 1..] == lines;
      match lines[i] {
        case None =>
          emitted := emitted + [Err(DecompressionFailed(path))];
        case Some(raw) =>
          var t := Trim(raw);
          if !Skipped(t) {
            var parsed := ops.parse(builder, t);
            if parsed.Err? {
              return Err(InFile(parsed.error, path));
            }
            builder := parsed.value;
            if ops.ready(builder) {
              var article := ops.build(builder);
              if article.Err? {
                return Err(article.error);
              }
              emitted := emitted + [Ok(article.value)];
              builder := ops.initial;
            }
          }
      }
      i := i + 1;
    }
    assert lines[..|lines|] == lines;
    return Ok(emitted);
  }

  // ---------------------------------------------------------------------
  // Properties

  /** A builder property `P` that `new` establishes and `parse` keeps, a
      new builder not being ready. */
  ghost predicate OpsKeep<B(!new)>(ops: Ops<B>, P: B -> bool)
  {
    && P(ops.initial) && !ops.ready(ops.initial)
    && forall b: B, line: string :: P(b) && ops.parse(b, line).Ok? ==> P(ops.parse(b, line).value)
  }

  /** Between lines the builder keeps `P` and is never ready (a ready
      builder is built at once), and the only error items are
      decompression failures. */
  predicate DriverInv<B>(ops: Ops<B>, P: B -> bool, path: string, d: Driver<B>)
  {
    && P(d.builder) && !ops.ready(d.builder)
    && forall i :: 0 <= i < |d.emitted| && d.emitted[i].Err? ==> d.emitted[i].error == DecompressionFailed(path)
  }

  predicate IsPrefix<T(==)>(before: seq<T>, after: seq<T>)
  {
    |before| <= |after| && after[..|before|] == before
  }

  /** One line keeps the invariant, never drops a collected item and adds at
      most one; a new record is one the builder built after the line, and
      the builder is then a new one. */
  lemma StepKeeps<B(!new)>(ops: Ops<B>, P: B -> bool, path: string, d: Driver<B>, line: Option<string>)
    requires OpsKeep(ops, P) && DriverInv(ops, P, path, d)
    ensures var r := DriverStep(ops, path, d, line);
            r.Ok? ==> DriverInv(ops, P, path, r.value) && IsPrefix(d.emitted, r.value.emitted)
                      && |r.value.emitted| <= |d.emitted| + 1
    ensures var r := DriverStep(ops, path, d, line);
            r.Ok? && |r.value.emitted| == |d.emitted| + 1 && r.value.emitted[|d.emitted|].Ok? ==>
              line.Some? && ops.parse(d.builder, Trim(line.value)).Ok?
              && ops.build(ops.parse(d.builder, Trim(line.value)).value) == r.value.emitted[|d.emitted|]
              && r.value.builder == ops.initial
  {
  }

  /** What one kept line does, case by case: a parse error aborts the file
      with the path attached; a builder that is not ready after the line
      is kept and nothing is emitted; a ready one is built, the record is
      emitted and the builder replaced by a new one, and a failing build
      aborts with the build's error. */
  lemma KeptLineOutcome<B>(ops: Ops<B>, path: string, d: Driver<B>, raw: string)
    requires !Skipped(Trim(raw))
    ensures var parsed := ops.parse(d.builder, Trim(raw));
            parsed.Err? ==> DriverStep(ops, path, d, Some(raw)) == Err(InFile(parsed.error, path))
    ensures var parsed := ops.parse(d.builder, Trim(raw));
            parsed.Ok? && !ops.ready(parsed.value) ==>
              DriverStep(ops, path, d, Some(raw)) == Ok(Driver(parsed.value, d.emitted))
    ensures var parsed := ops.parse(d.builder, Trim(raw));
            parsed.Ok? && ops.ready(parsed.value) && ops.build(parsed.value).Ok? ==>
              DriverStep(ops, path, d, Some(raw))
              == Ok(Driver(ops.initial, d.emitted + [Ok(ops.build(parsed.value).value)]))
    ensures var parsed := ops.parse(d.builder, Trim(raw));
            parsed.Ok? && ops.ready(parsed.value) && ops.build(parsed.value).Err? ==>
              DriverStep(ops, path, d, Some(raw)) == Err(ops.build(parsed.value).error)
  {
  }

  /** A line that could not be decompressed is collected as an error item
      and changes nothing else. */
  lemma UndecodedLineOutcome<B>(ops: Ops<B>, path: string, d: Driver<B>)
    ensures DriverStep(ops, path, d, None) == Ok(Driver(d.builder, d.emitted + [Err(DecompressionFailed(path))]))
  {
  }

  lemma {:induction false} FeedKeeps<B(!new)>(ops: Ops<B>, P: B -> bool, path: string, d: Driver<B>, lines: seq<Option<string>>)
    requires OpsKeep(ops, P) && DriverInv(ops, P, path, d)
    ensures Feed(ops, path, d, lines).Ok? ==> DriverInv(ops, P, path, Feed(ops, path, d, lines).value)
    ensures Feed(ops, path, d, lines).Ok? ==> IsPrefix(d.emitted, Feed(ops, path, d, lines).value.emitted)
    ensures Feed(ops, path, d, lines).Ok? ==> |Feed(ops, path, d, lines).value.emitted| <= |d.emitted| + |lines|
    decreases |lines|
  {
    if lines != [] {
      var init := lines[..|lines| - 1];
      FeedKeeps(ops, P, path, d, init);
      var before := Feed(ops, path, d, init);
      if before.Ok? {
        StepKeeps(ops, P, path, before.value, lines[|lines| - 1]);
      }
    }
  }

  /** The items of a file of `n` lines: at most one per line, and every
      error item a decompression failure of that file. */
  predicate FileItems(path: string, n: nat, r: Result<seq<Result<Article>>>)
  {
    r.Ok? ==> |r.value| <= n
              && forall i :: 0 <= i < |r.value| && r.value[i].Err? ==> r.value[i].error == DecompressionFailed(path)
  }

  /** Over a whole file, for any builder whose `new` is not ready: the
      items are as `FileItems` says. */
  lemma RunItems<B(!new)>(ops: Ops<B>, path: string, lines: seq<Option<string>>)
    requires !ops.ready(ops.initial)
    ensures FileItems(path, |lines|, Run(ops, path, lines))
  {
    var Anything := (b: B) => true;
    assert OpsKeep(ops, Anything);
    FeedKeeps(ops, Anything, path, Start(ops), lines);
  }

  /** Every item `parse_single_pubmed` returns is a built record or a
      decompression failure of that file, and there are at most as many
      items as lines. */
  lemma ParseSinglePubmedItems(path: string, lines: seq<Option<string>>)
    ensures FileItems(path, |lines|, ParseSinglePubmed(path, lines))
  {
    RunItems(PubmedOps(), path, lines);
  }

  /** Lines that are all skipped change nothing. */
  lemma {:induction false} SkippedLinesChangeNothing<B>(ops: Ops<B>, path: string, d: Driver<B>, lines: seq<Option<string>>)
    requires forall i :: 0 <= i < |lines| ==> lines[i].Some? && Skipped(Trim(lines[i].value))
    ensures Feed(ops, path, d, lines) == Ok(d)
    decreases |lines|
  {
    if lines != [] {
      SkippedLinesChangeNothing(ops, path, d, lines[..|lines| - 1]);
    }
  }

  /** Every `<Language>` line is on the skip list, so the record builder
      never sees the opening of its `Language` child. */
  lemma LanguageLinesSkipped(line: string)
    requires StartsWith(line, "<Language>")
    ensures Skipped(line)
  {
    assert SkipTokens[18] == "<Language>";
  }

  /** The lines of the element the records live in are dropped, whatever
      else they hold. */
  lemma ArticleSetLinesSkipped(line: string)
    requires StartsWith(line, "<PubmedArticleSet>") || EndsWith(line, "</PubmedArticleSet>")
    ensures Skipped(line)
  {
    assert SkipTokens[4] == "<PubmedArticleSet>";
    assert SkipTokens[8] == "</PubmedArticleSet>";
  }

  /** A state whose collected items are prefixed by `e`. */
  function Shifted<B>(e: seq<Result<Article>>, r: Result<Driver<B>>): Result<Driver<B>>
  {
    match r
    case Err(x) => Err(x)
    case Ok(d) => Ok(Driver(d.builder, e + d.emitted))
  }

  lemma StepShift<B>(ops: Ops<B>, path: string, b: B, e: seq<Result<Article>>, x: seq<Result<Article>>, line: Option<string>)
    ensures DriverStep(ops, path, Driver(b, e + x), line) == Shifted(e, DriverStep(ops, path, Driver(b, x), line))
  {
    var r := DriverStep(ops, path, Driver(b, x), line);
    if r.Ok? && |r.value.emitted| == |x| + 1 {
      assert e + x + [r.value.emitted[|x|]] == e + (x + [r.value.emitted[|x|]]);
    }
  }

  /** The items already collected play no part in what the following lines do. */
  lemma {:induction false} FeedShift<B>(ops: Ops<B>, path: string, b: B, e: seq<Result<Article>>, lines: seq<Option<string>>)
    ensures Feed(ops, path, Driver(b, e), lines) == Shifted(e, Feed(ops, path, Driver(b, []), lines))
    decreases |lines|
  {
    if lines == [] {
      assert e + [] == e;
    } else {
      var init := lines[..|lines| - 1];
      FeedShift(ops, path, b, e, init);
      var before := Feed(ops, path, Driver(b, []), init);
      if before.Ok? {
        StepShift(ops, path, before.value.builder, e, before.value.emitted, lines[|lines| - 1]);
      }
    }
  }

  /** Records are independent: once a file's first lines have left a new
      builder behind, the rest of the file yields the same items as if it
      were a file of its own, after the items of the first lines. */
  lemma RecordBoundary<B>(ops: Ops<B>, path: string, l1: seq<Option<string>>, l2: seq<Option<string>>)
    requires Feed(ops, path, Start(ops), l1).Ok? && Feed(ops, path, Start(ops), l1).value.builder == ops.initial
    ensures Run(ops, path, l1 + l2) ==
              (var out2 :- Run(ops, path, l2); Ok(Feed(ops, path, Start(ops), l1).value.emitted + out2))
  {
    FeedAppend(ops, path, Start(ops), l1, l2);
    FeedShift(ops, path, ops.initial, Feed(ops, path, Start(ops), l1).value.emitted, l2);
  }
}
