/**
 * `correct_spelling`: leave a query alone when the vocabulary already knows it, a part of
 * it, or one of its words; otherwise propose the closest vocabulary entries, first for the
 * whole query and then word by word.
 *
 * The vocabulary (`get_all_searchable_terms`, a storage read) is the parameter `corpus`.
 * `difflib.get_close_matches(x, corpus, n, cutoff=0.6)` is the parameter `closeMatches`:
 * `closeMatches(x)` is the ranked list of entries at or above the cutoff, best first, and
 * asking for `n` of them takes the first `n`.
 */
module SpellCorrector {
  import opened Text

  /** `(corrected_query, was_corrected, suggestions)`. */
  datatype Correction = Correction(text: string, corrected: bool, suggestions: seq<string>)

  function Unchanged(query: string): Correction {
    Correction(query, false, [])
  }

  /** The first `n` entries of a ranked list. */
  function Take<T>(s: seq<T>, n: nat): (r: seq<T>)
    ensures |r| <= n && |r| <= |s| && r == s[..|r|]
    ensures |s| >= n ==> |r| == n
    ensures |s| < n ==> r == s
  {
    if |s| <= n then s else s[..n]
  }

  /** "Preserve original case style": title-case the result when the query begins with a capital. */
  function Cased(query: string, s: string): string {
    if query != "" && IsUpper(query[0]) then Title(s) else s
  }

  /** The query is part of some entry, or some entry is part of the query. */
  predicate RelatedToSomeTerm(ql: string, corpus: seq<string>) {
    exists j | 0 <= j < |corpus| :: Contains(corpus[j], ql) || Contains(ql, corpus[j])
  }

  /** One of the words, three characters or longer, is itself an entry. */
  predicate HasKnownWord(ws: seq<string>, corpus: seq<string>) {
    exists i | 0 <= i < |ws| :: |ws[i]| >= 3 && ws[i] in corpus
  }

  /** The word occurs inside some entry. */
  predicate InSomeTerm(w: string, corpus: seq<string>) {
    exists j | 0 <= j < |corpus| :: Contains(corpus[j], w)
  }

  /** A word of a multi-word query is replaced when it is long, unknown, and has a close match. */
  predicate WordNeedsFix(w: string, corpus: seq<string>, closeMatches: string -> seq<string>) {
    |w| >= 3 && !InSomeTerm(w, corpus) && closeMatches(w) != []
  }

  function FixWord(w: string, corpus: seq<string>, closeMatches: string -> seq<string>): string {
    if WordNeedsFix(w, corpus, closeMatches) then closeMatches(w)[0] else w
  }

  function FixWords(ws: seq<string>, corpus: seq<string>, closeMatches: string -> seq<string>): (r: seq<string>)
    ensures |r| == |ws|
  {
    seq(|ws|, i requires 0 <= i < |ws| => FixWord(ws[i], corpus, closeMatches))
  }

  /** The ladder of `correct_spelling`, rung by rung. */
  function CorrectSpellingSpec(query: string, corpus: seq<string>, closeMatches: string -> seq<string>): Correction {
    var ql := Lower(Strip(query));
    var words := Split(ql);
    if corpus == [] then Unchanged(query)
    else if ql in corpus then Unchanged(query)
    else if RelatedToSomeTerm(ql, corpus) then Unchanged(query)
    else if HasKnownWord(words, corpus) then Unchanged(query)
    else if Take(closeMatches(ql), 3) != [] then
      var m := Take(closeMatches(ql), 3);
      Correction(Cased(query, m[0]), true, m)
    else if |words| > 1 && exists i | 0 <= i < |words| :: WordNeedsFix(words[i], corpus, closeMatches) then
      var t := Cased(query, Join(FixWords(words, corpus, closeMatches)));
      Correction(t, true, [t])
    else Unchanged(query)
  }

  /** `correct_spelling`, with the source's scans over the vocabulary and the words. */
  method CorrectSpelling(query: string, corpus: seq<string>, closeMatches: string -> seq<string>)
    returns (c: Correction)
    ensures c == CorrectSpellingSpec(query, corpus, closeMatches)
  {
    var ql := Lower(Strip(query));
    if |corpus| == 0 || ql in corpus {
      return Unchanged(query);
    }
    var related := RelatedScan(ql, corpus);
    if related {
      return Unchanged(query);
    }
    var words := Split(ql);
    var knownWord := KnownWordScan(words, corpus);
    if knownWord {
      return Unchanged(query);
    }
    c := CorrectUnknown(query, ql, words, corpus, closeMatches);
  }

  /** The last two rungs of `correct_spelling`: the whole query, then word by word. */
  method CorrectUnknown(query: string, ql: string, words: seq<string>, corpus: seq<string>,
                        closeMatches: string -> seq<string>)
    returns (c: Correction)
    requires ql == Lower(Strip(query)) && words == Split(ql)
    requires corpus != [] && ql !in corpus && !RelatedToSomeTerm(ql, corpus) && !HasKnownWord(words, corpus)
    ensures c == CorrectSpellingSpec(query, corpus, closeMatches)
  {
    var matches := Take(closeMatches(ql), 3);
    if matches != [] {
      return Correction(Cased(query, matches[0]), true, matches);
    }
    if |words| > 1 {
      var fixed, anyFixed := FixEachWord(words, corpus, closeMatches);
      if anyFixed {
        var corrected := Cased(query, Join(fixed));
        return Correction(corrected, true, [corrected]);
      }
    }
    return Unchanged(query);
  }

  /** `for term in all_terms: if query_lower in term or term in query_lower`. */
  method RelatedScan(ql: string, corpus: seq<string>) returns (related: bool)
    ensures related <==> RelatedToSomeTerm(ql, corpus)
  {
    for j := 0 to |corpus|
      invariant forall k | 0 <= k < j :: !(Contains(corpus[k], ql) || Contains(ql, corpus[k]))
    {
      if Contains(ql, corpus[j]) || Contains(corpus[j], ql) {
        return true;
      }
    }
    return false;
  }

  /** `for word in query_words: if len(word) >= 3 and word in all_terms`. */
  method KnownWordScan(words: seq<string>, corpus: seq<string>) returns (known: bool)
    ensures known <==> HasKnownWord(words, corpus)
  {
    for i := 0 to |words|
      invariant forall k | 0 <= k < i :: !(|words[k]| >= 3 && words[k] in corpus)
    {
      if |words[i]| >= 3 && words[i] in corpus {
        return true;
      }
    }
    return false;
  }

  /** The word-by-word pass: short and known words are kept, others take their closest match if any. */
  method FixEachWord(words: seq<string>, corpus: seq<string>, closeMatches: string -> seq<string>)
    returns (fixed: seq<string>, anyFixed: bool)
    ensures fixed == FixWords(words, corpus, closeMatches)
    ensures anyFixed <==> exists k | 0 <= k < |words| :: WordNeedsFix(words[k], corpus, closeMatches)
  {
    fixed := [];
    anyFixed := false;
    for i := 0 to |words|
      invariant |fixed| == i
      invariant forall k | 0 <= k < i :: fixed[k] == FixWord(words[k], corpus, closeMatches)
      invariant anyFixed <==> exists k | 0 <= k < i :: WordNeedsFix(words[k], corpus, closeMatches)
    {
      var w := words[i];
      if |w| < 3 {
        fixed := fixed + [w];
      } else {
        var known := InTerms(w, corpus);
        if known {
          fixed := fixed + [w];
        } else {
          var wordMatches := Take(closeMatches(w), 1);
          if wordMatches != [] {
            fixed := fixed + [wordMatches[0]];
            anyFixed := true;
          } else {
            fixed := fixed + [w];
          }
        }
      }
    }
  }

  /** `any(word in term for term in all_terms)`. */
  method InTerms(w: string, corpus: seq<string>) returns (known: bool)
    ensures known <==> InSomeTerm(w, corpus)
  {
    known := false;
    for j := 0 to |corpus|
      invariant known <==> exists k | 0 <= k < j :: Contains(corpus[k], w)
    {
      if Contains(corpus[j], w) {
        known := true;
      }
    }
  }

  /** Only a correction changes anything: otherwise the query comes back as given, with no suggestions. */
  lemma UncorrectedIsUnchanged(query: string, corpus: seq<string>, closeMatches: string -> seq<string>)
    ensures var c := CorrectSpellingSpec(query, corpus, closeMatches);
      !c.corrected ==> c == Unchanged(query)
  {
  }

  /**
   * "Only corrects when spelling is actually incorrect": an empty vocabulary, a query that is
   * an entry, is part of one, contains one, or has a known word of three or more characters,
   * is never corrected, whatever the matcher proposes.
   */
  lemma KnownQueryUnchanged(query: string, corpus: seq<string>, closeMatches: string -> seq<string>)
    requires var ql := Lower(Strip(query));
      corpus == [] || ql in corpus || RelatedToSomeTerm(ql, corpus) || HasKnownWord(Split(ql), corpus)
    ensures CorrectSpellingSpec(query, corpus, closeMatches) == Unchanged(query)
  {
  }

  /** The converse: a correction happens only to a query the vocabulary does not know in any of those ways. */
  lemma CorrectedMeansUnknown(query: string, corpus: seq<string>, closeMatches: string -> seq<string>)
    requires CorrectSpellingSpec(query, corpus, closeMatches).corrected
    ensures var ql := Lower(Strip(query));
      corpus != [] && ql !in corpus && !RelatedToSomeTerm(ql, corpus) && !HasKnownWord(Split(ql), corpus)
  {
  }

  /** An empty query is part of every entry, so it is never corrected. */
  lemma EmptyQueryUnchanged(query: string, corpus: seq<string>, closeMatches: string -> seq<string>)
    requires Strip(query) == ""
    ensures CorrectSpellingSpec(query, corpus, closeMatches) == Unchanged(query)
  {
    if corpus != [] {
      assert OccursAt(corpus[0], Lower(Strip(query)), 0);
    }
  }

  /** The matcher only proposes vocabulary entries (true of `get_close_matches`). */
  ghost predicate MatcherWithin(corpus: seq<string>, closeMatches: string -> seq<string>) {
    forall x, k | 0 <= k < |closeMatches(x)| :: closeMatches(x)[k] in corpus
  }

  lemma LowerCased(query: string, s: string)
    ensures Lower(Cased(query, s)) == Lower(s)
  {
    if query != "" && IsUpper(query[0]) {
      LowerTitle(s);
    }
  }

  /**
   * A correction comes with one to three suggestions, and the corrected text is the first
   * suggestion up to letter case; when the whole query was matched, every suggestion is an
   * entry of the vocabulary.
   */
  lemma CorrectionShape(query: string, corpus: seq<string>, closeMatches: string -> seq<string>)
    requires CorrectSpellingSpec(query, corpus, closeMatches).corrected
    ensures var c := CorrectSpellingSpec(query, corpus, closeMatches);
      && 1 <= |c.suggestions| <= 3
      && Lower(c.text) == Lower(c.suggestions[0])
      && (MatcherWithin(corpus, closeMatches) && Take(closeMatches(Lower(Strip(query))), 3) != [] ==>
            forall k | 0 <= k < |c.suggestions| :: c.suggestions[k] in corpus)
  {
    var ql := Lower(Strip(query));
    var m := Take(closeMatches(ql), 3);
    var c := CorrectSpellingSpec(query, corpus, closeMatches);
    if m != [] {
      assert c == Correction(Cased(query, m[0]), true, m);
      LowerCased(query, m[0]);
      if MatcherWithin(corpus, closeMatches) {
        forall k | 0 <= k < |m|
          ensures m[k] in corpus
        {
          assert m[k] == closeMatches(ql)[k];
        }
      }
    } else {
      assert c.suggestions == [c.text];
    }
  }

  /**
   * The whole-query rung: a query that no earlier rung leaves alone and that has close matches
   * is corrected to the first of at most three of them, title-cased when the query begins with
   * a capital, and those matches are the suggestions.
   */
  lemma WholeQueryCorrection(query: string, corpus: seq<string>, closeMatches: string -> seq<string>)
    requires var ql := Lower(Strip(query));
      && corpus != [] && ql !in corpus && !RelatedToSomeTerm(ql, corpus)
      && !HasKnownWord(Split(ql), corpus) && Take(closeMatches(ql), 3) != []
    ensures var c := CorrectSpellingSpec(query, corpus, closeMatches);
      var m := Take(closeMatches(Lower(Strip(query))), 3);
      && c.corrected && c.suggestions == m && |m| <= 3
      && c.text == (if query != "" && IsUpper(query[0]) then Title(m[0]) else m[0])
  {
  }

  /**
   * The word-by-word rung: a query of several words with no close match as a whole, some word
   * of which has a close match, is corrected word by word, each word that needs it replaced by
   * its best match, and the corrected text is the only suggestion.
   */
  lemma WordByWordCorrection(query: string, corpus: seq<string>, closeMatches: string -> seq<string>, i: int)
    requires var ql := Lower(Strip(query));
      && corpus != [] && ql !in corpus && !RelatedToSomeTerm(ql, corpus)
      && !HasKnownWord(Split(ql), corpus) && Take(closeMatches(ql), 3) == []
      && |Split(ql)| > 1 && 0 <= i < |Split(ql)| && WordNeedsFix(Split(ql)[i], corpus, closeMatches)
    ensures var c := CorrectSpellingSpec(query, corpus, closeMatches);
      var ws := Split(Lower(Strip(query)));
      var fixed := FixWords(ws, corpus, closeMatches);
      && c.corrected && c.suggestions == [c.text]
      && c.text == (if query != "" && IsUpper(query[0]) then Title(Join(fixed)) else Join(fixed))
      && fixed[i] == closeMatches(ws[i])[0]
      && forall k | 0 <= k < |ws| && !WordNeedsFix(ws[k], corpus, closeMatches) :: fixed[k] == ws[k]
  {
  }

  /** A query that begins a vocabulary entry (as "rest" begins "restaurant") is left alone. */
  lemma PrefixOfEntryUnchanged(query: string, corpus: seq<string>, j: int, closeMatches: string -> seq<string>)
    requires 0 <= j < |corpus|
    requires var ql := Lower(Strip(query)); |ql| <= |corpus[j]| && corpus[j][..|ql|] == ql
    ensures CorrectSpellingSpec(query, corpus, closeMatches) == Unchanged(query)
  {
    var ql := Lower(Strip(query));
    assert OccursAt(corpus[j], ql, 0);
    assert RelatedToSomeTerm(ql, corpus);
    KnownQueryUnchanged(query, corpus, closeMatches);
  }
}
