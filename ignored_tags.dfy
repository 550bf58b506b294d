/** `IgnoreTag` and `IgnoreTags` (pubmed_parser/src/article_builder.rs:1099-1138):
    whole elements the record builder reads past without keeping anything. */
module IgnoredTags {
  import opened Results
  import opened XmlHelpers
  import opened ObjectBuilders

  /** The elements of a record that are swallowed (lines 1182-1193). */
  const IgnoredTagNames: seq<string> := [
    "AuthorList", "PublicationTypeList", "MedlineJournalInfo", "History",
    "PersonalNameSubjectList", "DataBankList", "GrantList", "CoiStatement",
    "VernacularTitle", "CommentsCorrectionsList", "ArticleDate", "InvestigatorList"]

  /** One plain, untouched helper per name, in order. */
  predicate IsIgnoreList(tags: seq<Helper>, names: seq<string>)
  {
    |tags| == |names| && forall i :: 0 <= i < |tags| ==> IsPlain(tags[i], names[i])
  }

  /** `IgnoreTags::new`. */
  function NewIgnoreTags(names: seq<string>): (tags: seq<Helper>)
    ensures IsIgnoreList(tags, names)
    ensures forall i :: 0 <= i < |tags| ==> tags[i].Untouched()
  {
    if names == [] then [] else [NewHelper(names[0])] + NewIgnoreTags(names[1..])
  }

  /** `IgnoreTag::parse`: the helper's verdict, whatever the rest of the line. */
  function IgnoreTagParse(h: Helper, line: string): Result<Step<Helper>>
  {
    var s :- Parse(h, line);
    Ok(Step(s.helper, s.helper.Claims()))
  }

  /** The tags are tried in order; the first that claims the line ends the
      search, and the tags after it are not consulted. */
  function IgnoreTagsParse(tags: seq<Helper>, line: string): (r: Result<Step<seq<Helper>>>)
    ensures r.Ok? ==> |r.value.next| == |tags|
    decreases |tags|
  {
    if tags == [] then Ok(Step([], false))
    else
      var first :- IgnoreTagParse(tags[0], line);
      if first.consumed then Ok(Step([first.next] + tags[1..], true))
      else
        var others :- IgnoreTagsParse(tags[1..], line);
        Ok(Step([first.next] + others.next, others.consumed))
  }

  /** A result with the given tags put in front of its tags. */
  function Prefixed(done: seq<Helper>, r: Result<Step<seq<Helper>>>): Result<Step<seq<Helper>>>
  {
    match r
    case Err(e) => Err(e)
    case Ok(st) => Ok(Step(done + st.next, st.consumed))
  }

  lemma PrefixedNothing(r: Result<Step<seq<Helper>>>)
    ensures Prefixed([], r) == r
  {
    if r.Ok? {
      assert [] + r.value.next == r.value.next;
    }
  }

  lemma PrefixedTwice(a: seq<Helper>, b: seq<Helper>, r: Result<Step<seq<Helper>>>)
    ensures Prefixed(a, Prefixed(b, r)) == Prefixed(a + b, r)
  {
    if r.Ok? {
      assert a + (b + r.value.next) == a + b + r.value.next;
    }
  }

  /** `IgnoreTagsParse` of a non-empty list whose first tag does not claim the line. */
  lemma IgnoreTagsParseDeclined(tags: seq<Helper>, line: string)
    requires tags != [] && IgnoreTagParse(tags[0], line).Ok? && !IgnoreTagParse(tags[0], line).value.consumed
    ensures IgnoreTagsParse(tags, line) == Prefixed([IgnoreTagParse(tags[0], line).value.next], IgnoreTagsParse(tags[1..], line))
  {
  }

  /** `IgnoreTags::parse`, the `for` loop over the tags with its early
      returns, updating the tags one at a time. */
  method IgnoreTagsLoop(tags: seq<Helper>, line: string) returns (r: Result<Step<seq<Helper>>>)
    ensures r == IgnoreTagsParse(tags, line)
  {
    var updated := tags;
    var i := 0;
    assert tags[0..] == tags;
    PrefixedNothing(IgnoreTagsParse(tags, line));
    while i < |tags|
      invariant 0 <= i <= |tags| && |updated| == |tags|
      invariant updated[i..] == tags[i..]
      invariant IgnoreTagsParse(tags, line) == Prefixed(updated[..i], IgnoreTagsParse(tags[i..], line))
    {
      var rest := tags[i..];
      assert rest[0] == tags[i] && rest[1..] == tags[i + 1..];
      var step := IgnoreTagParse(tags[i], line);
      if step.Err? {
        assert IgnoreTagsParse(rest, line) == Err(step.error);
        return Err(step.error);
      }
      var before := updated;
      updated := updated[i := step.value.next];
      assert updated[..i] == before[..i];
      if step.value.consumed {
        assert IgnoreTagsParse(rest, line) == Ok(Step([step.value.next] + tags[i + 1..], true));
        assert updated == updated[..i] + ([step.value.next] + tags[i + 1..]);
        return Ok(Step(updated, true));
      }
      IgnoreTagsParseDeclined(rest, line);
      PrefixedTwice(before[..i], [step.value.next], IgnoreTagsParse(tags[i + 1..], line));
      assert updated[..i + 1] == before[..i] + [step.value.next];
      assert updated[i + 1..] == tags[i + 1..];
      i := i + 1;
    }
    assert updated[..i] == updated && tags[i..] == [];
    assert updated + [] == updated;
    return Ok(Step(updated, false));
  }

  /** An ignored tag claims a line exactly when its helper, after the
      line, is open and not closed or has just closed. */
  lemma IgnoreTagVerdict(h: Helper, line: string)
    ensures IgnoreTagParse(h, line).Ok? ==>
              (IgnoreTagParse(h, line).value.consumed <==> IgnoreTagParse(h, line).value.next.Claims())
  {
  }

  /** `IgnoreTagsParse` of a non-empty list whose first tag claims the line. */
  lemma IgnoreTagsParseClaimed(tags: seq<Helper>, line: string)
    requires tags != [] && IgnoreTagParse(tags[0], line).Ok? && IgnoreTagParse(tags[0], line).value.consumed
    ensures IgnoreTagsParse(tags, line) == Ok(Step([IgnoreTagParse(tags[0], line).value.next] + tags[1..], true))
  {
  }

  /** No tag of the list claims the line. */
  predicate NoneClaims(tags: seq<Helper>)
  {
    forall i :: 0 <= i < |tags| ==> !tags[i].Claims()
  }

  /** Tag `k` claims the line, the tags after it are untouched and none
      before it claims the line. */
  predicate ClaimedBy(next: seq<Helper>, tags: seq<Helper>, k: int)
  {
    0 <= k < |tags| && |next| == |tags| && next[k].Claims() && next[k + 1..] == tags[k + 1..]
    && NoneClaims(next[..k])
  }

  /** A tag that does not claim the line, put in front, moves the claim one place on. */
  lemma ClaimedByCons(first: Helper, others: seq<Helper>, tags: seq<Helper>, k: int)
    requires tags != [] && !first.Claims() && ClaimedBy(others, tags[1..], k)
    ensures ClaimedBy([first] + others, tags, k + 1)
  {
    var next := [first] + others;
    assert next[k + 2..] == others[k + 1..];
    assert tags[1..][k + 1..] == tags[k + 2..];
    assert next[..k + 1] == [first] + others[..k];
  }

  /** A claimed line was claimed by one tag: the tags after it are
      untouched, and no tag before it claims the line. */
  lemma {:induction false} IgnoreTagsFirstClaim(tags: seq<Helper>, line: string)
    ensures var r := IgnoreTagsParse(tags, line);
            r.Ok? && r.value.consumed ==> exists k :: ClaimedBy(r.value.next, tags, k)
    decreases |tags|
  {
    if tags != [] && IgnoreTagParse(tags[0], line).Ok? {
      var first := IgnoreTagParse(tags[0], line).value;
      IgnoreTagVerdict(tags[0], line);
      if first.consumed {
        IgnoreTagsParseClaimed(tags, line);
        var next := [first.next] + tags[1..];
        assert next[1..] == tags[1..] && NoneClaims(next[..0]);
        assert ClaimedBy(next, tags, 0);
      } else {
        IgnoreTagsParseDeclined(tags, line);
        IgnoreTagsFirstClaim(tags[1..], line);
        var rest := IgnoreTagsParse(tags[1..], line);
        if rest.Ok? && rest.value.consumed {
          var k :| ClaimedBy(rest.value.next, tags[1..], k);
          ClaimedByCons(first.next, rest.value.next, tags, k);
          assert IgnoreTagsParse(tags, line) == Ok(Step([first.next] + rest.value.next, true));
        }
      }
    }
  }

  /** A line no tag claims leaves every tag not claiming it. */
  lemma {:induction false} IgnoreTagsNoClaim(tags: seq<Helper>, line: string)
    ensures var r := IgnoreTagsParse(tags, line);
            r.Ok? && !r.value.consumed ==> NoneClaims(r.value.next)
    decreases |tags|
  {
    if tags != [] && IgnoreTagParse(tags[0], line).Ok? {
      var first := IgnoreTagParse(tags[0], line).value;
      IgnoreTagVerdict(tags[0], line);
      if !first.consumed {
        IgnoreTagsParseDeclined(tags, line);
        IgnoreTagsNoClaim(tags[1..], line);
        var rest := IgnoreTagsParse(tags[1..], line);
        if rest.Ok? && !rest.value.consumed {
          var next := [first.next] + rest.value.next;
          assert IgnoreTagsParse(tags, line) == Ok(Step(next, false));
          assert NoneClaims(next);
        }
      }
    }
  }

  /** Parsing keeps every tag valid and configured as it was. */
  lemma {:induction false} IgnoreTagsKeeps(tags: seq<Helper>, names: seq<string>, line: string)
    requires IsIgnoreList(tags, names)
    ensures IgnoreTagsParse(tags, line).Ok? ==> IsIgnoreList(IgnoreTagsParse(tags, line).value.next, names)
    decreases |tags|
  {
    if tags != [] {
      ParsePreservesValid(tags[0], line);
      var r := IgnoreTagsParse(tags, line);
      if r.Ok? {
        var first := IgnoreTagParse(tags[0], line).value;
        assert IsPlain(first.next, names[0]);
        if first.consumed {
          assert r.value.next == [first.next] + tags[1..];
        } else {
          assert IsIgnoreList(tags[1..], names[1..]) by {
            forall i | 0 <= i < |tags| - 1 ensures IsPlain(tags[1..][i], names[1..][i]) {
              assert tags[1..][i] == tags[i + 1];
            }
          }
          IgnoreTagsKeeps(tags[1..], names[1..], line);
          var others := IgnoreTagsParse(tags[1..], line).value;
          assert r.value.next == [first.next] + others.next;
          forall i | 0 <= i < |tags| ensures IsPlain(r.value.next[i], names[i]) {
            if i > 0 { assert r.value.next[i] == others.next[i - 1]; }
          }
        }
      }
    }
  }
}
