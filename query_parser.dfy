/**
 * `parse_search_query`: strip ranking words from a lowered search text, then read the
 * last remaining word as the location and the words before it as the keyword.
 */
module QueryParser {
  import opened Text

  /** The ranking words, in the order the source removes them. */
  const StopWords: seq<string> := [
    "best", "top", "near", "me", "in", "the", "a", "an",
    "find", "search", "for", "looking", "need", "want", "good", "great"
  ]

  /**
   * One round of the removal loop for the word `w`: every " w " becomes one space,
   * then a leading "w " and then a trailing " w " are cut off.
   */
  function RemoveStopWord(q: string, w: string): string {
    var a := ReplaceAll(q, " " + w + " ", " ");
    var b := if StartsWith(a, w + " ") then a[|w| + 1..] else a;
    if EndsWith(b, " " + w) then b[..|b| - |w| - 1] else b
  }

  /** The rounds for `ws`, one after another. */
  function RemoveStopWords(q: string, ws: seq<string>): string
    decreases |ws|
  {
    if ws == [] then q else RemoveStopWords(RemoveStopWord(q, ws[0]), ws[1..])
  }

  /** The words left over once the lowered, stripped query has been through every round. */
  function QueryWords(userQuery: string): seq<string> {
    Split(RemoveStopWords(Lower(Strip(userQuery)), StopWords))
  }

  /**
   * How the remaining words are read: none gives two empty strings; one word is the keyword
   * alone; otherwise the last word is the location and the others, space-joined, the keyword.
   */
  predicate KeywordAndLocation(ws: seq<string>, keyword: string, location: string) {
    && (ws == [] ==> keyword == "" && location == "")
    && (|ws| == 1 ==> keyword == ws[0] && location == "")
    && (|ws| >= 2 ==> keyword == Join(ws[..|ws| - 1]) && location == ws[|ws| - 1])
  }

  /** The same reading as a function. */
  function ReadKeywordLocation(ws: seq<string>): (string, string) {
    if ws == [] then ("", "")
    else if |ws| == 1 then (ws[0], "")
    else (Join(ws[..|ws| - 1]), ws[|ws| - 1])
  }

  /** The reading is determined by the words: there is exactly one way to satisfy it. */
  lemma ReadingIsUnique(ws: seq<string>, keyword: string, location: string)
    ensures KeywordAndLocation(ws, keyword, location) <==> (keyword, location) == ReadKeywordLocation(ws)
  {
  }

  /**
   * `parse_search_query`: the lowered, stripped query loses its ranking words, and what is
   * left is read as keyword and location.
   */
  method ParseSearchQuery(userQuery: string) returns (keyword: string, location: string)
    ensures KeywordAndLocation(QueryWords(userQuery), keyword, location)
  {
    var q := RemoveRankingWords(Lower(Strip(userQuery)), StopWords);
    keyword, location := SplitKeywordLocation(q);
  }

  /** The tail of `parse_search_query` on the cleaned text `q`: collapse spaces, then split. */
  method SplitKeywordLocation(q: string) returns (keyword: string, location: string)
    ensures KeywordAndLocation(Split(q), keyword, location)
  {
    var collapsed := Join(Split(q));
    SplitJoin(Split(q));
    var words := Split(collapsed);
    if |words| == 0 {
      return "", "";
    }
    if |words| == 1 {
      return words[0], "";
    }
    location := words[|words| - 1];
    StripNoop(location);
    keyword := Join(words[..|words| - 1]);
    StripJoin(words[..|words| - 1]);
    keyword, location := Strip(keyword), Strip(location);
  }

  /** The source's removal loop, over any list of words. */
  method RemoveRankingWords(q0: string, ws: seq<string>) returns (q: string)
    ensures q == RemoveStopWords(q0, ws)
  {
    q := q0;
    for i := 0 to |ws|
      invariant RemoveStopWords(q, ws[i..]) == RemoveStopWords(q0, ws)
    {
      var w := ws[i];
      RemoveStopWordsStep(q, ws, i);
      var a := ReplaceAll(q, " " + w + " ", " ");
      if StartsWith(a, w + " ") {
        a := a[|w| + 1..];
      }
      if EndsWith(a, " " + w) {
        a := a[..|a| - |w| - 1];
      }
      q := a;
    }
    RemoveStopWordsDone(q, ws);
  }

  lemma RemoveStopWordsStep(q: string, ws: seq<string>, i: int)
    requires 0 <= i < |ws|
    ensures RemoveStopWords(q, ws[i..]) == RemoveStopWords(RemoveStopWord(q, ws[i]), ws[i + 1..])
  {
    assert ws[i..][1..] == ws[i + 1..];
  }

  lemma RemoveStopWordsDone(q: string, ws: seq<string>)
    ensures RemoveStopWords(q, ws[|ws|..]) == q
  {
    assert ws[|ws|..] == [];
  }

  /** With two or more words, splitting the keyword again gives back the words before the location. */
  lemma KeywordWords(userQuery: string)
    requires |QueryWords(userQuery)| >= 2
    ensures var ws := QueryWords(userQuery);
      Split(Join(ws[..|ws| - 1])) == ws[..|ws| - 1] && IsWord(ws[|ws| - 1])
  {
    SplitJoin(QueryWords(userQuery)[..|QueryWords(userQuery)| - 1]);
  }

  /** Keyword and location together are exactly the words that were left: nothing is dropped. */
  lemma ParseLosesNothing(ws: seq<string>, keyword: string, location: string)
    requires AllWords(ws) && ws != [] && KeywordAndLocation(ws, keyword, location)
    ensures (if location == "" then keyword else keyword + " " + location) == Join(ws)
  {
    if |ws| >= 2 {
      var n := |ws| - 1;
      assert ws == ws[..n] + [ws[n]];
      JoinSnoc(ws[..n], ws[n]);
    }
  }

  /** A round leaves a text alone when the word occurs neither inside it nor at either end. */
  lemma RemoveStopWordAbsent(q: string, w: string)
    requires !Contains(q, " " + w + " ") && !StartsWith(q, w + " ") && !EndsWith(q, " " + w)
    ensures RemoveStopWord(q, w) == q
  {
    ReplaceAllAbsent(q, " " + w + " ", " ");
  }

  /** No ranking word bordered by a space anywhere in `q`. */
  predicate FreeOfStopWords(q: string) {
    forall i | 0 <= i < |StopWords| ::
      !Contains(q, " " + StopWords[i] + " ") && !StartsWith(q, StopWords[i] + " ") &&
      !EndsWith(q, " " + StopWords[i])
  }

  lemma {:induction false} RemoveStopWordsAbsent(q: string, k: nat)
    requires FreeOfStopWords(q) && k <= |StopWords|
    ensures RemoveStopWords(q, StopWords[k..]) == q
    decreases |StopWords| - k
  {
    if k < |StopWords| {
      RemoveStopWordAbsent(q, StopWords[k]);
      assert StopWords[k..][1..] == StopWords[k + 1..];
      RemoveStopWordsAbsent(q, k + 1);
    }
  }

  /** A query with no ranking word bordered by a space parses into its own words. */
  lemma PlainQueryKeepsWords(userQuery: string)
    requires FreeOfStopWords(Lower(Strip(userQuery)))
    ensures QueryWords(userQuery) == Split(Lower(Strip(userQuery)))
  {
    RemoveStopWordsAbsent(Lower(Strip(userQuery)), 0);
  }

  /**
   * `replace` does not rescan what it has written: in "x in in y" the two occurrences of
   * " in " overlap, so only the first is removed and a ranking word survives.
   */
  lemma DoubledStopWordSurvives()
    ensures RemoveStopWord("x in in y", "in") == "x in y"
  {
    ReplaceOverlap();
    assert !StartsWith("x in y", "in ");
    assert !EndsWith("x in y", " in");
  }

  /** The `replace` of the example, one position at a time. */
  lemma ReplaceOverlap()
    ensures ReplaceAll("x in in y", " in ", " ") == "x in y"
  {
    ReplaceTail();
    assert ReplaceAll(" in in y", " in ", " ") == " " + "in y";
  }

  lemma ReplaceTail()
    ensures ReplaceAll("in y", " in ", " ") == "in y"
  {
    assert ReplaceAll("n y", " in ", " ") == "n y";
  }
}
