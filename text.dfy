/** The string operations the parser relies on (`starts_with`, `ends_with`,
    `find`, `split`, `trim`, `trim_matches`, `join`), on `seq<char>`. */
module Text {
  import opened Results

  predicate StartsWith(s: string, prefix: string)
  {
    |prefix| <= |s| && s[..|prefix|] == prefix
  }

  predicate EndsWith(s: string, suffix: string)
  {
    |suffix| <= |s| && s[|s| - |suffix|..] == suffix
  }

  /** Index of the first occurrence of `c` (Rust's `str::find` on one character). */
  function FindChar(s: string, c: char): (r: Option<nat>)
    ensures r.Some? ==> r.value < |s| && s[r.value] == c && c !in s[..r.value]
    ensures r.None? <==> c !in s
  {
    if s == [] then None
    else if s[0] == c then Some(0)
    else
      match FindChar(s[1..], c)
      case None => None
      case Some(i) =>
        assert s[1..][..i] == s[1..i + 1];
        Some(i + 1)
  }

  /** The first occurrence is the one `FindChar` reports. */
  lemma {:induction false} FindCharAt(s: string, c: char, i: nat)
    requires i < |s| && s[i] == c && c !in s[..i]
    ensures FindChar(s, c) == Some(i)
  {
    if i > 0 {
      assert s[0] in s[..i];
      assert s[1..][..i - 1] == s[1..i];
      assert forall x :: x in s[1..i] ==> x in s[..i];
      FindCharAt(s[1..], c, i - 1);
    }
  }

  /** Rust's `str::split` on one character: the pieces between occurrences of `c`. */
  function Split(s: string, c: char): (r: seq<string>)
    ensures |r| >= 1
    ensures c in s ==> |r| >= 2
    decreases |s|
  {
    match FindChar(s, c)
    case None => [s]
    case Some(i) => [s[..i]] + Split(s[i + 1..], c)
  }

  /** The pieces glued back together with `sep` between consecutive ones. */
  function Join(parts: seq<string>, sep: string): string
  {
    if |parts| == 0 then ""
    else if |parts| == 1 then parts[0]
    else parts[0] + sep + Join(parts[1..], sep)
  }

  /** No piece holds the separator. */
  lemma {:induction false} SplitPiecesLackSeparator(s: string, c: char)
    ensures forall i :: 0 <= i < |Split(s, c)| ==> c !in Split(s, c)[i]
    decreases |s|
  {
    match FindChar(s, c)
    case None =>
    case Some(i) => SplitPiecesLackSeparator(s[i + 1..], c);
  }

  /** Splitting and joining on the same character gives the string back. */
  lemma {:induction false} JoinSplit(s: string, c: char)
    ensures Join(Split(s, c), [c]) == s
    decreases |s|
  {
    match FindChar(s, c)
    case None =>
    case Some(i) =>
      var rest := Split(s[i + 1..], c);
      JoinSplit(s[i + 1..], c);
      assert Split(s, c) == [s[..i]] + rest;
      assert s == s[..i] + [c] + s[i + 1..];
  }

  /** When `c` occurs, the first piece is the text before its first
      occurrence and the second piece the text between the first and the
      second occurrence (or the end). */
  lemma SplitFirstTwo(s: string, c: char, i: nat)
    requires FindChar(s, c) == Some(i)
    ensures |Split(s, c)| >= 2
    ensures Split(s, c)[0] == s[..i]
    ensures Split(s, c)[1] == match FindChar(s[i + 1..], c)
                              case None => s[i + 1..]
                              case Some(j) => s[i + 1..][..j]
  {
  }

  /** Which characters a trim cuts: whitespace (`trim`) or one given
      character (`trim_matches(c)`). */
  datatype Cut = Whitespace | Only(c: char)

  predicate Cuts(cut: Cut, x: char)
  {
    match cut
    case Whitespace => IsWhitespace(x)
    case Only(c) => x == c
  }

  /** Removes the longest prefix of characters that `cut` cuts. */
  function TrimStartBy(s: string, cut: Cut): (r: string)
    ensures |r| <= |s|
  {
    if s != [] && Cuts(cut, s[0]) then TrimStartBy(s[1..], cut) else s
  }

  /** Removes the longest suffix of characters that `cut` cuts. */
  function TrimEndBy(s: string, cut: Cut): (r: string)
    ensures |r| <= |s|
  {
    if s != [] && Cuts(cut, s[|s| - 1]) then TrimEndBy(s[..|s| - 1], cut) else s
  }

  /** Trimming the start leaves a suffix that does not begin with a cut
      character, and only cut characters are removed. */
  lemma {:induction false} TrimStartCutsOnly(s: string, cut: Cut)
    ensures TrimStartBy(s, cut) == s[|s| - |TrimStartBy(s, cut)|..]
    ensures TrimStartBy(s, cut) != [] ==> !Cuts(cut, TrimStartBy(s, cut)[0])
    ensures forall k :: 0 <= k < |s| - |TrimStartBy(s, cut)| ==> Cuts(cut, s[k])
  {
    if s != [] && Cuts(cut, s[0]) {
      TrimStartCutsOnly(s[1..], cut);
      assert forall k :: 1 <= k < |s| ==> s[k] == s[1..][k - 1];
    }
  }

  /** Trimming the end leaves a prefix that does not end with a cut
      character, and only cut characters are removed. */
  lemma {:induction false} TrimEndCutsOnly(s: string, cut: Cut)
    ensures TrimEndBy(s, cut) == s[..|TrimEndBy(s, cut)|]
    ensures TrimEndBy(s, cut) != [] ==> !Cuts(cut, TrimEndBy(s, cut)[|TrimEndBy(s, cut)| - 1])
    ensures forall k :: |TrimEndBy(s, cut)| <= k < |s| ==> Cuts(cut, s[k])
  {
    if s != [] && Cuts(cut, s[|s| - 1]) {
      TrimEndCutsOnly(s[..|s| - 1], cut);
      assert s[..|s| - 1][..|TrimEndBy(s, cut)|] == s[..|TrimEndBy(s, cut)|];
    }
  }

  /** Rust's `char::is_whitespace`: the Unicode White_Space property. */
  predicate IsWhitespace(c: char)
  {
    ('\t' <= c <= '\r') || c == ' ' || c == '\U{85}' || c == '\U{A0}' || c == '\U{1680}'
    || ('\U{2000}' <= c <= '\U{200A}') || c == '\U{2028}' || c == '\U{2029}'
    || c == '\U{202F}' || c == '\U{205F}' || c == '\U{3000}'
  }

  /** Rust's `str::trim`. */
  function Trim(s: string): (r: string)
  {
    TrimEndBy(TrimStartBy(s, Whitespace), Whitespace)
  }

  /** Rust's `str::trim_matches(c)`: strips every leading and trailing `c`. */
  function TrimMatches(s: string, c: char): (r: string)
  {
    TrimEndBy(TrimStartBy(s, Only(c)), Only(c))
  }

  /** The trimmed text is a contiguous piece of the input, from which only
      whitespace was cut and whose ends are not whitespace. */
  lemma TrimIsInfix(s: string)
    ensures exists i, j :: 0 <= i <= j <= |s| && Trim(s) == s[i..j]
              && (forall k :: 0 <= k < i ==> IsWhitespace(s[k]))
              && (forall k :: j <= k < |s| ==> IsWhitespace(s[k]))
    ensures Trim(s) != [] ==> !IsWhitespace(Trim(s)[0]) && !IsWhitespace(Trim(s)[|Trim(s)| - 1])
  {
    var t := TrimStartBy(s, Whitespace);
    var r := TrimEndBy(t, Whitespace);
    TrimStartCutsOnly(s, Whitespace);
    TrimEndCutsOnly(t, Whitespace);
    var i := |s| - |t|;
    var j := i + |r|;
    assert r == s[i..j];
    assert forall k :: j <= k < |s| ==> IsWhitespace(s[k]) by {
      forall k | j <= k < |s| ensures IsWhitespace(s[k]) {
        assert s[k] == t[k - i];
      }
    }
    assert 0 <= i <= j <= |s| && Trim(s) == s[i..j]
      && (forall k :: 0 <= k < i ==> IsWhitespace(s[k]))
      && (forall k :: j <= k < |s| ==> IsWhitespace(s[k]));
  }
}
