/** A smallest record that builds, carried line by line through the record
    builder: a `PubmedArticle` holding a `PMID` and a `Journal` whose
    `JournalIssue` has an empty `PubDate` and whose `Title` is given. Every
    step is stated for the builder states it goes through, so the
    end-to-end lemma only chains them. */
module MinimalRecord {
  import opened Results
  import opened Text
  import opened Conversions
  import opened Records
  import opened XmlHelpers
  import opened ObjectBuilders
  import opened ElementBuilders
  import opened ListBuilders
  import opened ArticleBuilders

  // ---------------------------------------------------------------------
  // Lines and matcher states

  /** `<tag>` */
  function OpenLine(tag: string): string { OpeningTag(tag) + ">" }

  /** `<tag>v</tag>` */
  function WholeLine(tag: string, v: string): string { OpeningTag(tag) + ">" + v + ClosingTag(tag) }

  /** The line neither opens `tag` nor is the bare `<tag`. */
  predicate Foreign(tag: string, line: string)
  {
    !IsOpeningLine(tag, line) && !IsTruncatedOpening(tag, line)
  }

  /** A matcher after `<tag>`, before any other line. */
  function JustOpenedHelper(tag: string): Helper
  {
    NewHelper(tag).(tagOpened := true, justOpened := true, openings := 1)
  }

  /** A matcher inside its element, past its opening line. */
  function OpenedHelper(tag: string): Helper
  {
    NewHelper(tag).(tagOpened := true, openings := 1)
  }

  /** A matcher right after `</tag>`. */
  function JustClosedHelper(tag: string): Helper
  {
    NewHelper(tag).(tagOpened := true, tagClosed := true, justClosed := true)
  }

  /** A matcher right after `<tag>v</tag>`. */
  function WholeHelper(tag: string): Helper
  {
    NewHelper(tag).(tagOpened := true, justOpened := true, tagClosed := true, justClosed := true)
  }

  /** A tag name that a bare opening `<tag>` opens. */
  predicate GoodName(tag: string)
  {
    tag != [] && '>' !in tag && tag[|tag| - 1] != '/' && tag[0] != '/'
  }

  // ---------------------------------------------------------------------
  // The matcher

  /** A line whose character `i` differs from `<tag` does not open `tag`. */
  lemma ForeignAt(tag: string, line: string, i: nat)
    requires i < |OpeningTag(tag)| && i < |line| && line[i] != OpeningTag(tag)[i]
    ensures Foreign(tag, line)
  {
    assert line[i] == line[..i + 1][i];
  }

  /** A line whose character `i` from the end differs from the closing tag's
      does not end with it. */
  lemma NotEndingAt(line: string, suffix: string, i: nat)
    requires i < |suffix| && i < |line| && line[|line| - 1 - i] != suffix[|suffix| - 1 - i]
    ensures !EndsWith(line, suffix)
  {
  }

  /** `<tag>u`, for a `tag` without `>`: an opening of `tag`, whose first
      `>` follows the name, with no attributes, and `u` after it. */
  lemma {:induction false} OpeningShape(tag: string, u: string)
    requires GoodName(tag)
    ensures var open := OpeningTag(tag);
            var line := open + ">" + u;
            && IsOpeningLine(tag, line) && !IsTruncatedOpening(tag, line)
            && FindChar(line, '>') == Some(|open|)
            && ExtractAttributes(line[|open|..|open|]) == map[]
            && line[|open| + 1..] == u
  {
    var open := OpeningTag(tag);
    var line := open + ">" + u;
    assert line[..|open|] == open && line[|open|] == '>';
    assert forall i :: 1 <= i < |open| ==> line[i] == tag[i - 1];
    assert '>' !in line[..|open|];
    FindCharAt(line, '>', |open|);
    assert ExtractAttributes(line[|open|..|open|]) == map[] by {
      assert line[|open|..|open|] == "";
      assert Trim("") == "" && FindChar("", ' ') == None;
    }
  }

  /** `<tag>` opens a new matcher and leaves nothing for the children. */
  lemma {:induction false} BareOpening(tag: string)
    requires GoodName(tag)
    ensures Parse(NewHelper(tag), OpenLine(tag)) == Ok(Stripped(JustOpenedHelper(tag), ""))
  {
    var line := OpenLine(tag);
    OpeningShape(tag, "");
    assert OpeningTag(tag) + ">" + "" == line;
    assert !EndsWith(line, "/>") by { assert line[|line| - 2] == tag[|tag| - 1]; }
    AcceptedOpening(NewHelper(tag), line, |OpeningTag(tag)|);
  }

  /** `</tag>` closes a matcher that is open once and leaves nothing. */
  lemma BareClosing(h: Helper)
    requires h.tagOpened && !h.tagClosed && h.openings >= 1 && h.tag != [] && h.tag[0] != '/'
    ensures Parse(h, ClosingTag(h.tag))
            == Ok(Stripped(h.(justOpened := false, tagClosed := true, justClosed := true, openings := h.openings - 1), ""))
  {
    var close := ClosingTag(h.tag);
    ForeignAt(h.tag, close, 1);
    assert close[|close| - |close|..] == close;
  }

  /** An open matcher hands over a line that is neither its opening nor its closing. */
  lemma PassesThrough(h: Helper, line: string)
    requires h.tagOpened && Foreign(h.tag, line) && !EndsWith(line, ClosingTag(h.tag))
    ensures Parse(h, line) == Ok(Stripped(h.(justOpened := false, justClosed := false), line))
  {
  }

  // ---------------------------------------------------------------------
  // Leaves and dates

  /** A new leaf declines a line that is not its own, and stays new. */
  lemma FreshLeafDeclines<T>(tag: string, line: string, convert: string -> Option<T>)
    requires Foreign(tag, line)
    ensures TryLeaf(NewLeaf<T>(tag), line, convert) == Ok(Step(NewLeaf<T>(tag), false))
  {
    UnopenedIgnoresOtherLines(NewHelper(tag), line);
  }

  /** A new leaf takes `<tag>v</tag>` and holds `v` and its conversion. */
  lemma {:induction false} FreshLeafTakesWhole<T>(tag: string, v: string, convert: string -> Option<T>)
    requires GoodName(tag) && convert(Trim(v)).Some?
    ensures TryLeaf(NewLeaf<T>(tag), WholeLine(tag, v), convert)
            == Ok(Step(Leaf(WholeHelper(tag), v, convert(Trim(v))), true))
  {
    WholeElement(tag, v);
  }

  /** `<tag>v</tag>` opens and closes a new matcher and yields `v`. */
  lemma {:induction false} WholeElement(tag: string, v: string)
    requires GoodName(tag)
    ensures Parse(NewHelper(tag), WholeLine(tag, v)) == Ok(Stripped(WholeHelper(tag), v))
  {
    var close := ClosingTag(tag);
    var line := WholeLine(tag, v);
    var after := v + close;
    OpeningShape(tag, after);
    assert OpeningTag(tag) + ">" + after == line;
    OneLineElementOpens(tag, v);
    assert after[|after| - |close|..] == close && after[..|after| - |close|] == v;
    AcceptedOpening(NewHelper(tag), line, |OpeningTag(tag)|);
  }

  /** A new date declines a line that is not its own, and stays new. */
  lemma FreshDateDeclines(tag: string, line: string)
    requires Foreign(tag, line)
    ensures DateParse(NewDateBuilder(tag), line) == Ok(Step(NewDateBuilder(tag), false))
  {
    UnopenedIgnoresOtherLines(NewHelper(tag), line);
    FreshLeafDeclines("Year", "", ParseU16);
    FreshLeafDeclines("Month", "", ParseText);
    FreshLeafDeclines("Day", "", ParseU8);
  }

  lemma DateOpens(tag: string)
    requires GoodName(tag)
    ensures DateParse(NewDateBuilder(tag), OpenLine(tag))
            == Ok(Step(NewDateBuilder(tag).(helper := JustOpenedHelper(tag)), true))
  {
    BareOpening(tag);
    FreshLeafDeclines("Year", "", ParseU16);
    FreshLeafDeclines("Month", "", ParseText);
    FreshLeafDeclines("Day", "", ParseU8);
  }

  lemma DateCloses(tag: string)
    requires GoodName(tag)
    ensures DateParse(NewDateBuilder(tag).(helper := JustOpenedHelper(tag)), ClosingTag(tag))
            == Ok(Step(NewDateBuilder(tag).(helper := JustClosedHelper(tag)), true))
  {
    BareClosing(JustOpenedHelper(tag));
    FreshLeafDeclines("Year", "", ParseU16);
    FreshLeafDeclines("Month", "", ParseText);
    FreshLeafDeclines("Day", "", ParseU8);
  }

  // ---------------------------------------------------------------------
  // The journal issue and the journal

  function PubDateAt(h: Helper): DateBuilder
  {
    NewDateBuilder("PubDate").(helper := h)
  }

  /** A journal issue whose volume and issue were never seen. */
  function IssueAt(h: Helper, date: DateBuilder): JournalIssueBuilder
  {
    NewJournalIssueBuilder().(helper := h, pubblicationDate := date)
  }

  /** A journal whose ISSN and abbreviation were never seen. */
  function JournalAt(h: Helper, issue: JournalIssueBuilder, title: Leaf<string>): JournalBuilder
  {
    NewJournalBuilder().(helper := h, journalIssue := issue, title := title)
  }

  lemma IssueOpens()
    ensures JournalIssueParse(NewJournalIssueBuilder(), OpenLine("JournalIssue"))
            == Ok(Step(IssueAt(JustOpenedHelper("JournalIssue"), NewDateBuilder("PubDate")), true))
  {
    BareOpening("JournalIssue");
    FreshLeafDeclines("Volume", "", ParseText);
    FreshLeafDeclines("Issue", "", ParseText);
    FreshDateDeclines("PubDate", "");
  }

  /** An open issue hands a line that is not its own, nor its volume's or
      issue's, to its publication date, which claims it. */
  lemma IssuePassesToDate(h: Helper, date: DateBuilder, date': DateBuilder, line: string)
    requires h.tag == "JournalIssue" && h.tagOpened
    requires Foreign("JournalIssue", line) && !EndsWith(line, ClosingTag("JournalIssue"))
    requires Foreign("Volume", line) && Foreign("Issue", line)
    requires !date.helper.CanBuild() && DateParse(date, line) == Ok(Step(date', true))
    ensures JournalIssueParse(IssueAt(h, date), line)
            == Ok(Step(IssueAt(h.(justOpened := false, justClosed := false), date'), true))
  {
    PassesThrough(h, line);
    FreshLeafDeclines("Volume", line, ParseText);
    FreshLeafDeclines("Issue", line, ParseText);
  }

  lemma IssueCloses(date: DateBuilder)
    requires date.helper.CanBuild()
    ensures JournalIssueParse(IssueAt(OpenedHelper("JournalIssue"), date), ClosingTag("JournalIssue"))
            == Ok(Step(IssueAt(JustClosedHelper("JournalIssue"), date), true))
  {
    BareClosing(OpenedHelper("JournalIssue"));
    FreshLeafDeclines("Volume", "", ParseText);
    FreshLeafDeclines("Issue", "", ParseText);
  }

  lemma JournalOpens()
    ensures JournalParse(NewJournalBuilder(), OpenLine("Journal"))
            == Ok(Step(JournalAt(JustOpenedHelper("Journal"), NewJournalIssueBuilder(), NewLeaf("Title")), true))
  {
    BareOpening("Journal");
  }

  /** An open journal hands a line that is not its own, nor its ISSN's, to
      its issue, which claims it. */
  lemma JournalPassesToIssue(h: Helper, issue: JournalIssueBuilder, issue': JournalIssueBuilder, line: string)
    requires h.tag == "Journal" && h.tagOpened && line != ""
    requires Foreign("Journal", line) && !EndsWith(line, ClosingTag("Journal")) && Foreign("ISSN", line)
    requires !issue.helper.CanBuild() && JournalIssueParse(issue, line) == Ok(Step(issue', true))
    ensures JournalParse(JournalAt(h, issue, NewLeaf("Title")), line)
            == Ok(Step(JournalAt(h.(justOpened := false, justClosed := false), issue', NewLeaf("Title")), true))
  {
    PassesThrough(h, line);
    FreshLeafDeclines("ISSN", line, ParseText);
  }

  /** Once its issue is complete, an open journal gives `<Title>v</Title>`
      to its title. */
  lemma JournalTakesTitle(issue: JournalIssueBuilder, v: string)
    requires issue.helper.CanBuild()
    ensures JournalParse(JournalAt(OpenedHelper("Journal"), issue, NewLeaf("Title")), WholeLine("Title", v))
            == Ok(Step(JournalAt(OpenedHelper("Journal"), issue, Leaf(WholeHelper("Title"), v, Some(Trim(v)))), true))
  {
    var line := WholeLine("Title", v);
    ForeignAt("Journal", line, 1);
    NotEndingAt(line, ClosingTag("Journal"), 1);
    PassesThrough(OpenedHelper("Journal"), line);
    ForeignAt("ISSN", line, 1);
    FreshLeafDeclines("ISSN", line, ParseText);
    FreshLeafTakesWhole("Title", v, ParseText);
  }

  lemma JournalCloses(issue: JournalIssueBuilder, title: Leaf<string>)
    ensures JournalParse(JournalAt(OpenedHelper("Journal"), issue, title), ClosingTag("Journal"))
            == Ok(Step(JournalAt(JustClosedHelper("Journal"), issue, title), true))
  {
    BareClosing(OpenedHelper("Journal"));
  }

  // The four lines inside the journal that go to its issue.

  lemma IssueOpensInJournal()
    ensures JournalParse(JournalAt(JustOpenedHelper("Journal"), NewJournalIssueBuilder(), NewLeaf("Title")),
                         OpenLine("JournalIssue"))
            == Ok(Step(JournalAt(OpenedHelper("Journal"),
                                 IssueAt(JustOpenedHelper("JournalIssue"), NewDateBuilder("PubDate")),
                                 NewLeaf("Title")), true))
  {
    var line := OpenLine("JournalIssue");
    assert line[|OpeningTag("Journal")|] == 'I';
    NotEndingAt(line, ClosingTag("Journal"), 1);
    ForeignAt("ISSN", line, 1);
    IssueOpens();
    JournalPassesToIssue(JustOpenedHelper("Journal"), NewJournalIssueBuilder(),
                         IssueAt(JustOpenedHelper("JournalIssue"), NewDateBuilder("PubDate")), line);
  }

  lemma PubDateOpensInJournal()
    ensures JournalParse(JournalAt(OpenedHelper("Journal"),
                                   IssueAt(JustOpenedHelper("JournalIssue"), NewDateBuilder("PubDate")),
                                   NewLeaf("Title")), OpenLine("PubDate"))
            == Ok(Step(JournalAt(OpenedHelper("Journal"),
                                 IssueAt(OpenedHelper("JournalIssue"), PubDateAt(JustOpenedHelper("PubDate"))),
                                 NewLeaf("Title")), true))
  {
    var line := OpenLine("PubDate");
    ForeignAt("Journal", line, 1);
    ForeignAt("ISSN", line, 1);
    ForeignAt("JournalIssue", line, 1);
    ForeignAt("Volume", line, 1);
    ForeignAt("Issue", line, 1);
    DateOpens("PubDate");
    IssuePassesToDate(JustOpenedHelper("JournalIssue"), NewDateBuilder("PubDate"),
                      PubDateAt(JustOpenedHelper("PubDate")), line);
    JournalPassesToIssue(OpenedHelper("Journal"),
                         IssueAt(JustOpenedHelper("JournalIssue"), NewDateBuilder("PubDate")),
                         IssueAt(OpenedHelper("JournalIssue"), PubDateAt(JustOpenedHelper("PubDate"))), line);
  }

  lemma PubDateClosesInJournal()
    ensures JournalParse(JournalAt(OpenedHelper("Journal"),
                                   IssueAt(OpenedHelper("JournalIssue"), PubDateAt(JustOpenedHelper("PubDate"))),
                                   NewLeaf("Title")), ClosingTag("PubDate"))
            == Ok(Step(JournalAt(OpenedHelper("Journal"),
                                 IssueAt(OpenedHelper("JournalIssue"), PubDateAt(JustClosedHelper("PubDate"))),
                                 NewLeaf("Title")), true))
  {
    var line := ClosingTag("PubDate");
    ForeignAt("Journal", line, 1);
    NotEndingAt(line, ClosingTag("Journal"), 1);
    ForeignAt("ISSN", line, 1);
    ForeignAt("JournalIssue", line, 1);
    ForeignAt("Volume", line, 1);
    ForeignAt("Issue", line, 1);
    DateCloses("PubDate");
    IssuePassesToDate(OpenedHelper("JournalIssue"), PubDateAt(JustOpenedHelper("PubDate")),
                      PubDateAt(JustClosedHelper("PubDate")), line);
    JournalPassesToIssue(OpenedHelper("Journal"),
                         IssueAt(OpenedHelper("JournalIssue"), PubDateAt(JustOpenedHelper("PubDate"))),
                         IssueAt(OpenedHelper("JournalIssue"), PubDateAt(JustClosedHelper("PubDate"))), line);
  }

  lemma IssueClosesInJournal()
    ensures JournalParse(JournalAt(OpenedHelper("Journal"),
                                   IssueAt(OpenedHelper("JournalIssue"), PubDateAt(JustClosedHelper("PubDate"))),
                                   NewLeaf("Title")), ClosingTag("JournalIssue"))
            == Ok(Step(JournalAt(OpenedHelper("Journal"), CompleteIssue(), NewLeaf("Title")), true))
  {
    var line := ClosingTag("JournalIssue");
    ForeignAt("Journal", line, 1);
    NotEndingAt(line, ClosingTag("Journal"), 1);
    ForeignAt("ISSN", line, 1);
    IssueCloses(PubDateAt(JustClosedHelper("PubDate")));
    JournalPassesToIssue(OpenedHelper("Journal"),
                         IssueAt(OpenedHelper("JournalIssue"), PubDateAt(JustClosedHelper("PubDate"))),
                         CompleteIssue(), line);
  }

  /** The issue once `</JournalIssue>` has been read. */
  function CompleteIssue(): JournalIssueBuilder
  {
    IssueAt(JustClosedHelper("JournalIssue"), PubDateAt(JustClosedHelper("PubDate")))
  }

  // ---------------------------------------------------------------------
  // The record

  /** The `PMID` leaf after `<PMID>n</PMID>`. */
  function PmidLeaf(n: u32): Leaf<u32>
  {
    Leaf(WholeHelper("PMID"), NatToDecimal(n), Some(n))
  }

  /** A child that declines the line and stays as it was lets the search go
      on with the next child. */
  lemma FirstClaimPasses<S>(offer: (S, nat) -> Result<Step<S>>, s: S, k: nat, n: nat, e: Error)
    requires k < n && offer(s, k) == Ok(Step(s, false))
    ensures FirstClaim(offer, s, k, n, e) == FirstClaim(offer, s, k + 1, n, e)
  {
  }

  /** A child that claims the line ends the search with its new state. */
  lemma FirstClaimTaken<S>(offer: (S, nat) -> Result<Step<S>>, s: S, s': S, k: nat, n: nat, e: Error)
    requires k < n && offer(s, k) == Ok(Step(s', true))
    ensures FirstClaim(offer, s, k, n, e) == Ok(s')
  {
  }

  /** Text that neither starts nor ends with whitespace is its own trim. */
  lemma TrimKeeps(s: string)
    requires s != [] && !IsWhitespace(s[0]) && !IsWhitespace(s[|s| - 1])
    ensures Trim(s) == s
  {
    assert TrimStartBy(s, Whitespace) == s;
  }

  /** The rendering of a `u32` parses back to it. */
  lemma PmidText(n: u32)
    ensures ParseU32(Trim(NatToDecimal(n))) == Some(n)
  {
    var d := NatToDecimal(n);
    assert IsDigit(d[0]) && IsDigit(d[|d| - 1]);
    TrimKeeps(d);
    ParseUnsignedRoundTrip(n, 0xFFFF_FFFF);
  }

  lemma FreshArticleIdsDecline(line: string)
    requires Foreign("ArticleIdList", line)
    ensures ArticleIdsParse(NewArticleIdsBuilder(), line) == Ok(Step(NewArticleIdsBuilder(), false))
  {
    UnopenedIgnoresOtherLines(NewHelper("ArticleIdList"), line);
  }

  /** The record's matcher keeps the whole line to itself. */
  lemma RecordKeepsLine(b: ArticleBuilder, line: string, s: Stripped)
    requires Parse(b.helper, line) == Ok(s) && s.rest == ""
    ensures ArticleParse(b, line) == Ok(b.(helper := s.helper))
  {
  }

  /** The record's matcher hands the rest of the line to the children. */
  lemma RecordHandsOn(b: ArticleBuilder, line: string, s: Stripped)
    requires Parse(b.helper, line) == Ok(s) && s.rest != ""
    ensures ArticleParse(b, line) == Dispatch(b.(helper := s.helper), s.rest)
  {
  }

  lemma RecordOpens(b: ArticleBuilder)
    requires b.helper == NewHelper("PubmedArticle")
    ensures ArticleParse(b, OpenLine("PubmedArticle")) == Ok(b.(helper := JustOpenedHelper("PubmedArticle")))
  {
    BareOpening("PubmedArticle");
    RecordKeepsLine(b, OpenLine("PubmedArticle"), Stripped(JustOpenedHelper("PubmedArticle"), ""));
  }

  /** The two dates decline a line whose second character is not `D`. */
  lemma DatesDecline(b: ArticleBuilder, line: string)
    requires b.completionDate == NewDateBuilder("DateCompleted") && b.revisedDate == NewDateBuilder("DateRevised")
    requires |line| >= 2 && line[1] != 'D'
    ensures TryChild(b, line, 0) == Ok(Step(b, false))
    ensures TryChild(b, line, 1) == Ok(Step(b, false))
  {
    ForeignAt("DateCompleted", line, 1);
    ForeignAt("DateRevised", line, 1);
    FreshDateDeclines("DateCompleted", line);
    FreshDateDeclines("DateRevised", line);
  }

  lemma PmidInRecord(b: ArticleBuilder, n: u32)
    requires b.helper == JustOpenedHelper("PubmedArticle") && b.pmid == NewLeaf("PMID")
    requires b.completionDate == NewDateBuilder("DateCompleted") && b.revisedDate == NewDateBuilder("DateRevised")
    ensures ArticleParse(b, WholeLine("PMID", NatToDecimal(n)))
            == Ok(b.(helper := OpenedHelper("PubmedArticle"), pmid := PmidLeaf(n)))
  {
    var line := WholeLine("PMID", NatToDecimal(n));
    ForeignAt("PubmedArticle", line, 2);
    NotEndingAt(line, ClosingTag("PubmedArticle"), 1);
    PassesThrough(JustOpenedHelper("PubmedArticle"), line);
    RecordHandsOn(b, line, Stripped(OpenedHelper("PubmedArticle"), line));
    PmidClaims(b.(helper := OpenedHelper("PubmedArticle")), n);
  }

  /** `<PMID>n</PMID>` passes the two dates and fills the identifier. */
  lemma PmidClaims(b: ArticleBuilder, n: u32)
    requires b.pmid == NewLeaf("PMID")
    requires b.completionDate == NewDateBuilder("DateCompleted") && b.revisedDate == NewDateBuilder("DateRevised")
    ensures Dispatch(b, WholeLine("PMID", NatToDecimal(n))) == Ok(b.(pmid := PmidLeaf(n)))
  {
    var line := WholeLine("PMID", NatToDecimal(n));
    DatesDecline(b, line);
    PmidTaken(b, n);
    FirstClaimPasses(Offers(line), b, 0, ChildCount, NotHandled(line));
    FirstClaimPasses(Offers(line), b, 1, ChildCount, NotHandled(line));
    FirstClaimTaken(Offers(line), b, b.(pmid := PmidLeaf(n)), 2, ChildCount, NotHandled(line));
  }

  lemma PmidTaken(b: ArticleBuilder, n: u32)
    requires b.pmid == NewLeaf("PMID")
    ensures TryChild(b, WholeLine("PMID", NatToDecimal(n)), 2) == Ok(Step(b.(pmid := PmidLeaf(n)), true))
  {
    PmidText(n);
    FreshLeafTakesWhole("PMID", NatToDecimal(n), ParseU32);
  }

  /** Inside the record, past its `PMID`, with no date and no identifier list seen. */
  predicate PastPmid(b: ArticleBuilder)
  {
    && b.helper == OpenedHelper("PubmedArticle") && b.pmid.CanBuild()
    && b.completionDate == NewDateBuilder("DateCompleted") && b.revisedDate == NewDateBuilder("DateRevised")
    && b.articleIds == NewArticleIdsBuilder()
  }

  /** Inside the record, past its `PMID`, a line for the journal that the
      dates and the identifier list decline goes to the journal, which claims
      it. */
  lemma JournalLineInRecord(b: ArticleBuilder, line: string, journal': JournalBuilder)
    requires PastPmid(b)
    requires |line| >= 2 && line[1] != 'D' && line[1] != 'A'
    requires Foreign("PubmedArticle", line) && !EndsWith(line, ClosingTag("PubmedArticle"))
    requires !b.journal.helper.CanBuild() && JournalParse(b.journal, line) == Ok(Step(journal', true))
    ensures ArticleParse(b, line) == Ok(b.(journal := journal'))
  {
    PassesThrough(OpenedHelper("PubmedArticle"), line);
    RecordHandsOn(b, line, Stripped(OpenedHelper("PubmedArticle"), line));
    DatesDecline(b, line);
    assert TryChild(b, line, 2) == Ok(Step(b, false));
    ForeignAt("ArticleIdList", line, 1);
    FreshArticleIdsDecline(line);
    assert TryChild(b, line, 3) == Ok(Step(b, false));
    assert TryChild(b, line, 4) == Ok(Step(b.(journal := journal'), true));
    FirstClaimPasses(Offers(line), b, 0, ChildCount, NotHandled(line));
    FirstClaimPasses(Offers(line), b, 1, ChildCount, NotHandled(line));
    FirstClaimPasses(Offers(line), b, 2, ChildCount, NotHandled(line));
    FirstClaimPasses(Offers(line), b, 3, ChildCount, NotHandled(line));
    FirstClaimTaken(Offers(line), b, b.(journal := journal'), 4, ChildCount, NotHandled(line));
  }

  lemma RecordCloses(b: ArticleBuilder)
    requires b.helper == OpenedHelper("PubmedArticle")
    ensures ArticleParse(b, ClosingTag("PubmedArticle")) == Ok(b.(helper := JustClosedHelper("PubmedArticle")))
  {
    BareClosing(OpenedHelper("PubmedArticle"));
    RecordKeepsLine(b, ClosingTag("PubmedArticle"), Stripped(JustClosedHelper("PubmedArticle"), ""));
  }

  // ---------------------------------------------------------------------
  // The record built

  /** The journal once `</Journal>` has been read. */
  function CompleteJournal(title: string): JournalBuilder
  {
    JournalAt(JustClosedHelper("Journal"), CompleteIssue(), Leaf(WholeHelper("Title"), title, Some(Trim(title))))
  }

  /** The record with PubMed id `n` and journal title `t`, and nothing else. */
  function MinimalArticle(n: u32, t: string): Article
  {
    Article(None, None, n, [], Journal(None, t, None, JournalIssue(None, None, Date(None, None, None))),
            None, None, [], [], [], [], [], [], [])
  }

  /** Nothing seen but the record's own tag, its identifier and its journal:
      no date or abstract closed, no article title, every list empty. */
  predicate OnlyIdAndJournal(b: ArticleBuilder)
  {
    && !b.completionDate.helper.CanBuild() && !b.revisedDate.helper.CanBuild()
    && !b.abstractText.helper.CanBuild() && b.title.textualValue == ""
    && b.articleIds.articleIds == [] && b.otherAbstracts.otherAbstracts == []
    && b.chemicalList.chemicals == [] && b.meshList.meshes == [] && b.supplMeshList.meshes == []
    && b.geneSymbolList.geneSymbols == [] && b.references.references == []
    && b.pipKeywords.keywords == [] && b.kieKeywords.keywords == []
  }

  /** `ArticleBuilder::new` has seen nothing. */
  lemma NewRecordIsEmpty()
    ensures OnlyIdAndJournal(NewArticleBuilder())
    ensures var b := NewArticleBuilder();
            && b.helper == NewHelper("PubmedArticle") && b.pmid == NewLeaf("PMID")
            && b.completionDate == NewDateBuilder("DateCompleted") && b.revisedDate == NewDateBuilder("DateRevised")
            && b.articleIds == NewArticleIdsBuilder() && b.journal == NewJournalBuilder()
  {
  }

  /** The record after `</PubmedArticle>` builds to the record its lines describe. */
  lemma MinimalBuild(b: ArticleBuilder, n: u32, title: string)
    requires title != "" && OnlyIdAndJournal(b)
    requires b.helper == JustClosedHelper("PubmedArticle") && b.pmid == PmidLeaf(n)
    requires b.journal == CompleteJournal(title)
    ensures ArticleBuild(b) == Ok(MinimalArticle(n, Trim(title)))
  {
  }

  // ---------------------------------------------------------------------
  // The journal lines inside the record

  /** The journal after `<Journal>`. */
  function AfterJournalOpen(): JournalBuilder
  {
    JournalAt(JustOpenedHelper("Journal"), NewJournalIssueBuilder(), NewLeaf("Title"))
  }

  /** The journal after `<JournalIssue>`. */
  function AfterIssueOpen(): JournalBuilder
  {
    JournalAt(OpenedHelper("Journal"), IssueAt(JustOpenedHelper("JournalIssue"), NewDateBuilder("PubDate")), NewLeaf("Title"))
  }

  /** The journal after `<PubDate>`. */
  function AfterPubDateOpen(): JournalBuilder
  {
    JournalAt(OpenedHelper("Journal"), IssueAt(OpenedHelper("JournalIssue"), PubDateAt(JustOpenedHelper("PubDate"))),
              NewLeaf("Title"))
  }

  /** The journal after `</PubDate>`. */
  function AfterPubDateClose(): JournalBuilder
  {
    JournalAt(OpenedHelper("Journal"), IssueAt(OpenedHelper("JournalIssue"), PubDateAt(JustClosedHelper("PubDate"))),
              NewLeaf("Title"))
  }

  /** The journal after `</JournalIssue>`. */
  function AfterIssueClose(): JournalBuilder
  {
    JournalAt(OpenedHelper("Journal"), CompleteIssue(), NewLeaf("Title"))
  }

  /** The journal after its one-line `<Title>`. */
  function AfterTitle(title: string): JournalBuilder
  {
    JournalAt(OpenedHelper("Journal"), CompleteIssue(), Leaf(WholeHelper("Title"), title, Some(Trim(title))))
  }

  lemma JournalOpensInRecord(b: ArticleBuilder)
    requires PastPmid(b) && b.journal == NewJournalBuilder()
    ensures ArticleParse(b, OpenLine("Journal"))
            == Ok(b.(journal := AfterJournalOpen()))
  {
    ForeignAt("PubmedArticle", OpenLine("Journal"), 1);
    JournalOpens();
    JournalLineInRecord(b, OpenLine("Journal"),
                        AfterJournalOpen());
  }

  lemma IssueOpensInRecord(b: ArticleBuilder)
    requires PastPmid(b)
    requires b.journal == AfterJournalOpen()
    ensures ArticleParse(b, OpenLine("JournalIssue"))
            == Ok(b.(journal := AfterIssueOpen()))
  {
    ForeignAt("PubmedArticle", OpenLine("JournalIssue"), 1);
    IssueOpensInJournal();
    JournalLineInRecord(b, OpenLine("JournalIssue"),
                        AfterIssueOpen());
  }

  lemma PubDateOpensInRecord(b: ArticleBuilder)
    requires PastPmid(b)
    requires b.journal == AfterIssueOpen()
    ensures ArticleParse(b, OpenLine("PubDate"))
            == Ok(b.(journal := AfterPubDateOpen()))
  {
    ForeignAt("PubmedArticle", OpenLine("PubDate"), 4);
    PubDateOpensInJournal();
    JournalLineInRecord(b, OpenLine("PubDate"),
                        AfterPubDateOpen());
  }

  lemma PubDateClosesInRecord(b: ArticleBuilder)
    requires PastPmid(b)
    requires b.journal == AfterPubDateOpen()
    ensures ArticleParse(b, ClosingTag("PubDate"))
            == Ok(b.(journal := AfterPubDateClose()))
  {
    ForeignAt("PubmedArticle", ClosingTag("PubDate"), 1);
    PubDateClosesInJournal();
    JournalLineInRecord(b, ClosingTag("PubDate"),
                        AfterPubDateClose());
  }

  lemma IssueClosesInRecord(b: ArticleBuilder)
    requires PastPmid(b)
    requires b.journal == AfterPubDateClose()
    ensures ArticleParse(b, ClosingTag("JournalIssue"))
            == Ok(b.(journal := AfterIssueClose()))
  {
    ForeignAt("PubmedArticle", ClosingTag("JournalIssue"), 1);
    IssueClosesInJournal();
    JournalLineInRecord(b, ClosingTag("JournalIssue"),
                        AfterIssueClose());
  }

  lemma TitleInRecord(b: ArticleBuilder, title: string)
    requires PastPmid(b)
    requires b.journal == AfterIssueClose()
    ensures ArticleParse(b, WholeLine("Title", title))
            == Ok(b.(journal := AfterTitle(title)))
  {
    var line := WholeLine("Title", title);
    ForeignAt("PubmedArticle", line, 1);
    NotEndingAt(line, ClosingTag("PubmedArticle"), 3);
    JournalTakesTitle(CompleteIssue(), title);
    JournalLineInRecord(b, line, AfterTitle(title));
  }

  lemma JournalClosesInRecord(b: ArticleBuilder, title: string)
    requires PastPmid(b)
    requires b.journal == AfterTitle(title)
    ensures ArticleParse(b, ClosingTag("Journal")) == Ok(b.(journal := CompleteJournal(title)))
  {
    ForeignAt("PubmedArticle", ClosingTag("Journal"), 1);
    JournalCloses(CompleteIssue(), Leaf(WholeHelper("Title"), title, Some(Trim(title))));
    JournalLineInRecord(b, ClosingTag("Journal"), CompleteJournal(title));
  }

  // ---------------------------------------------------------------------
  // The whole record

  /** The ten lines of the record, in order. */
  function MinimalLines(n: u32, title: string): seq<string>
  {
    [OpenLine("PubmedArticle"), WholeLine("PMID", NatToDecimal(n)), OpenLine("Journal"),
     OpenLine("JournalIssue"), OpenLine("PubDate"), ClosingTag("PubDate"), ClosingTag("JournalIssue"),
     WholeLine("Title", title), ClosingTag("Journal"), ClosingTag("PubmedArticle")]
  }

  /** The lines given to the record builder one after the other; the first
      error ends it. */
  function ParseLines(b: ArticleBuilder, lines: seq<string>): Result<ArticleBuilder>
    decreases |lines|
  {
    if lines == [] then Ok(b)
    else
      var b' :- ArticleParse(b, lines[0]);
      ParseLines(b', lines[1..])
  }

  /** Line `k` accepted: the lines after it are parsed from the new state. */
  lemma ParseLinesStep(b: ArticleBuilder, b': ArticleBuilder, lines: seq<string>, k: nat, line: string)
    requires k < |lines| && lines[k] == line && ArticleParse(b, line) == Ok(b')
    ensures ParseLines(b, lines[k..]) == ParseLines(b', lines[k + 1..])
  {
    assert lines[k..][0] == lines[k] && lines[k..][1..] == lines[k + 1..];
  }

  /** The first two lines open the record and fill its identifier. */
  lemma MinimalLinesHead(b: ArticleBuilder, n: u32, title: string)
    requires b.helper == NewHelper("PubmedArticle") && b.pmid == NewLeaf("PMID")
    requires b.completionDate == NewDateBuilder("DateCompleted") && b.revisedDate == NewDateBuilder("DateRevised")
    ensures ParseLines(b, MinimalLines(n, title))
            == ParseLines(b.(helper := OpenedHelper("PubmedArticle"), pmid := PmidLeaf(n)), MinimalLines(n, title)[2..])
  {
    var ls := MinimalLines(n, title);
    var b1 := b.(helper := JustOpenedHelper("PubmedArticle"));
    assert ParseLines(b, ls[0..]) == ParseLines(b1, ls[1..]) by {
      RecordOpens(b);
      ParseLinesStep(b, b1, ls, 0, OpenLine("PubmedArticle"));
    }
    assert ParseLines(b1, ls[1..]) == ParseLines(b1.(helper := OpenedHelper("PubmedArticle"), pmid := PmidLeaf(n)), ls[2..]) by {
      PmidInRecord(b1, n);
      ParseLinesStep(b1, b1.(helper := OpenedHelper("PubmedArticle"), pmid := PmidLeaf(n)), ls, 1, WholeLine("PMID", NatToDecimal(n)));
    }
    assert ls[0..] == ls;
  }

  // Lines 2 to 8 of `MinimalLines`, which go to the journal: line `k` of
  // `ls` moves the journal on and the lines after it continue from there.

  lemma JournalLine2(b: ArticleBuilder, ls: seq<string>, title: string)
    requires PastPmid(b) && b.journal == NewJournalBuilder()
    requires 2 < |ls| && ls[2] == OpenLine("Journal")
    ensures ParseLines(b, ls[2..]) == ParseLines(b.(journal := AfterJournalOpen()), ls[3..])
  {
    JournalOpensInRecord(b);
    ParseLinesStep(b, b.(journal := AfterJournalOpen()), ls, 2, OpenLine("Journal"));
  }

  lemma JournalLine3(b: ArticleBuilder, ls: seq<string>, title: string)
    requires PastPmid(b) && b.journal == AfterJournalOpen()
    requires 3 < |ls| && ls[3] == OpenLine("JournalIssue")
    ensures ParseLines(b, ls[3..]) == ParseLines(b.(journal := AfterIssueOpen()), ls[4..])
  {
    IssueOpensInRecord(b);
    ParseLinesStep(b, b.(journal := AfterIssueOpen()), ls, 3, OpenLine("JournalIssue"));
  }

  lemma JournalLine4(b: ArticleBuilder, ls: seq<string>, title: string)
    requires PastPmid(b) && b.journal == AfterIssueOpen()
    requires 4 < |ls| && ls[4] == OpenLine("PubDate")
    ensures ParseLines(b, ls[4..]) == ParseLines(b.(journal := AfterPubDateOpen()), ls[5..])
  {
    PubDateOpensInRecord(b);
    ParseLinesStep(b, b.(journal := AfterPubDateOpen()), ls, 4, OpenLine("PubDate"));
  }

  lemma JournalLine5(b: ArticleBuilder, ls: seq<string>, title: string)
    requires PastPmid(b) && b.journal == AfterPubDateOpen()
    requires 5 < |ls| && ls[5] == ClosingTag("PubDate")
    ensures ParseLines(b, ls[5..]) == ParseLines(b.(journal := AfterPubDateClose()), ls[6..])
  {
    PubDateClosesInRecord(b);
    ParseLinesStep(b, b.(journal := AfterPubDateClose()), ls, 5, ClosingTag("PubDate"));
  }

  lemma JournalLine6(b: ArticleBuilder, ls: seq<string>, title: string)
    requires PastPmid(b) && b.journal == AfterPubDateClose()
    requires 6 < |ls| && ls[6] == ClosingTag("JournalIssue")
    ensures ParseLines(b, ls[6..]) == ParseLines(b.(journal := AfterIssueClose()), ls[7..])
  {
    IssueClosesInRecord(b);
    ParseLinesStep(b, b.(journal := AfterIssueClose()), ls, 6, ClosingTag("JournalIssue"));
  }

  lemma JournalLine7(b: ArticleBuilder, ls: seq<string>, title: string)
    requires PastPmid(b) && b.journal == AfterIssueClose()
    requires 7 < |ls| && ls[7] == WholeLine("Title", title)
    ensures ParseLines(b, ls[7..]) == ParseLines(b.(journal := AfterTitle(title)), ls[8..])
  {
    TitleInRecord(b, title);
    ParseLinesStep(b, b.(journal := AfterTitle(title)), ls, 7, WholeLine("Title", title));
  }

  lemma JournalLine8(b: ArticleBuilder, ls: seq<string>, title: string)
    requires PastPmid(b) && b.journal == AfterTitle(title)
    requires 8 < |ls| && ls[8] == ClosingTag("Journal")
    ensures ParseLines(b, ls[8..]) == ParseLines(b.(journal := CompleteJournal(title)), ls[9..])
  {
    JournalClosesInRecord(b, title);
    ParseLinesStep(b, b.(journal := CompleteJournal(title)), ls, 8, ClosingTag("Journal"));
  }

  /** Lines 2 to 5 open the journal, its issue and its publication date,
      and close the date. */
  lemma JournalLinesOpen(b: ArticleBuilder, ls: seq<string>, title: string)
    requires PastPmid(b) && b.journal == NewJournalBuilder() && 9 <= |ls|
    requires ls[2] == OpenLine("Journal") && ls[3] == OpenLine("JournalIssue")
    requires ls[4] == OpenLine("PubDate") && ls[5] == ClosingTag("PubDate")
    ensures ParseLines(b, ls[2..]) == ParseLines(b.(journal := AfterPubDateClose()), ls[6..])
  {
    JournalLine2(b, ls, title);
    JournalLine3(b.(journal := AfterJournalOpen()), ls, title);
    JournalLine4(b.(journal := AfterIssueOpen()), ls, title);
    JournalLine5(b.(journal := AfterPubDateOpen()), ls, title);
  }

  /** Lines 6 to 8 close the issue, fill the title and close the journal. */
  lemma JournalLinesClose(b: ArticleBuilder, ls: seq<string>, title: string)
    requires PastPmid(b) && b.journal == AfterPubDateClose() && 9 <= |ls|
    requires ls[6] == ClosingTag("JournalIssue") && ls[7] == WholeLine("Title", title) && ls[8] == ClosingTag("Journal")
    ensures ParseLines(b, ls[6..]) == ParseLines(b.(journal := CompleteJournal(title)), ls[9..])
  {
    JournalLine6(b, ls, title);
    JournalLine7(b.(journal := AfterIssueClose()), ls, title);
    JournalLine8(b.(journal := AfterTitle(title)), ls, title);
  }

  /** Lines 2 to 8 complete the journal and change nothing else. */
  lemma MinimalLinesJournal(b: ArticleBuilder, n: u32, title: string)
    requires PastPmid(b) && b.journal == NewJournalBuilder()
    ensures ParseLines(b, MinimalLines(n, title)[2..])
            == ParseLines(b.(journal := CompleteJournal(title)), MinimalLines(n, title)[9..])
  {
    var ls := MinimalLines(n, title);
    JournalLinesOpen(b, ls, title);
    JournalLinesClose(b.(journal := AfterPubDateClose()), ls, title);
  }

  /** The last line closes the record. */
  lemma MinimalLinesTail(b: ArticleBuilder, n: u32, title: string)
    requires b.helper == OpenedHelper("PubmedArticle")
    ensures ParseLines(b, MinimalLines(n, title)[9..]) == Ok(b.(helper := JustClosedHelper("PubmedArticle")))
  {
    var ls := MinimalLines(n, title);
    RecordCloses(b);
    ParseLinesStep(b, b.(helper := JustClosedHelper("PubmedArticle")), ls, 9, ClosingTag("PubmedArticle"));
    assert ls[10..] == [];
  }

  /** From a record builder that has seen none of the tags involved, the ten
      lines are all accepted: they close the record, fill its identifier and
      complete its journal, and leave every other child as it was. */
  lemma MinimalLinesParse(b: ArticleBuilder, n: u32, title: string)
    requires b.helper == NewHelper("PubmedArticle") && b.pmid == NewLeaf("PMID")
    requires b.completionDate == NewDateBuilder("DateCompleted") && b.revisedDate == NewDateBuilder("DateRevised")
    requires b.articleIds == NewArticleIdsBuilder() && b.journal == NewJournalBuilder()
    ensures ParseLines(b, MinimalLines(n, title))
            == Ok(b.(helper := JustClosedHelper("PubmedArticle"), pmid := PmidLeaf(n), journal := CompleteJournal(title)))
  {
    var ls := MinimalLines(n, title);
    var b1 := b.(helper := OpenedHelper("PubmedArticle"), pmid := PmidLeaf(n));
    var b2 := b1.(journal := CompleteJournal(title));
    assert ParseLines(b, ls) == ParseLines(b1, ls[2..]) by {
      MinimalLinesHead(b, n, title);
    }
    assert ParseLines(b1, ls[2..]) == ParseLines(b2, ls[9..]) by {
      MinimalLinesJournal(b1, n, title);
    }
    assert ParseLines(b2, ls[9..]) == Ok(b2.(helper := JustClosedHelper("PubmedArticle"))) by {
      MinimalLinesTail(b2, n, title);
    }
  }

  /** A builder that has seen none of the record's tags builds, from the
      ten lines, the record with their identifier and journal title. */
  lemma MinimalRecordFrom(b: ArticleBuilder, n: u32, title: string)
    requires title != "" && OnlyIdAndJournal(b)
    requires b.helper == NewHelper("PubmedArticle") && b.pmid == NewLeaf("PMID")
    requires b.completionDate == NewDateBuilder("DateCompleted") && b.revisedDate == NewDateBuilder("DateRevised")
    requires b.articleIds == NewArticleIdsBuilder() && b.journal == NewJournalBuilder()
    ensures ParseLines(b, MinimalLines(n, title)).Ok?
    ensures ArticleBuild(ParseLines(b, MinimalLines(n, title)).value) == Ok(MinimalArticle(n, Trim(title)))
  {
    var b' := b.(helper := JustClosedHelper("PubmedArticle"), pmid := PmidLeaf(n), journal := CompleteJournal(title));
    MinimalLinesParse(b, n, title);
    MinimalBuild(b', n, title);
  }

  /** A well-formed minimal record builds: the ten lines of a `PubmedArticle`
      with a `PMID`, a `Journal` with its `JournalIssue`, an empty `PubDate`
      and a non-empty `Title`, fed to a new record builder, are all accepted,
      and the builder then builds the record with that identifier and that
      journal title (trimmed) and nothing else. */
  lemma MinimalRecordBuilds(n: u32, title: string)
    requires title != ""
    ensures ParseLines(NewArticleBuilder(), MinimalLines(n, title)).Ok?
    ensures ArticleBuild(ParseLines(NewArticleBuilder(), MinimalLines(n, title)).value)
            == Ok(MinimalArticle(n, Trim(title)))
  {
    NewRecordIsEmpty();
    MinimalRecordFrom(NewArticleBuilder(), n, title);
  }
}
