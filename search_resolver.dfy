/**
 * `smart_search_business`: parse the query, correct keyword and location separately, then
 * try four searches in a fixed order and keep the first that finds anything.
 *
 * `ORDER BY reviews_average DESC, reviews_count DESC` is the parameter `rank`, applied to
 * the rows a search selects (in table order); `LIMIT 5` keeps the first five it returns.
 */
module SearchResolver {
  import opened Wrappers
  import opened Text
  import opened Listings
  import opened QueryParser
  import opened SpellCorrector

  /** `LOWER(field) LIKE LOWER('%term%')`: the term occurs in the field, ignoring ASCII case. */
  predicate Like(field: string, term: string) {
    Contains(Lower(field), Lower(term))
  }

  /** The four searches, in the order they are tried. */
  datatype Tier = KeywordAndPlace | KeywordOnly | PlaceOnly | WholeQuery

  predicate KeywordHit(r: Listing, keyword: string) {
    Like(r.name, keyword) || Like(r.category, keyword) || Like(r.subcategory, keyword)
  }

  predicate PlaceHit(r: Listing, location: string) {
    Like(r.city, location) || Like(r.address, location)
  }

  /** The raw-query fallback looks at name, category and city (not subcategory or address). */
  predicate WholeQueryHit(r: Listing, userQuery: string) {
    Like(r.name, userQuery) || Like(r.category, userQuery) || Like(r.city, userQuery)
  }

  /** The WHERE clause of each search. */
  predicate Hit(t: Tier, r: Listing, keyword: string, location: string, userQuery: string) {
    match t
    case KeywordAndPlace => KeywordHit(r, keyword) && PlaceHit(r, location)
    case KeywordOnly => KeywordHit(r, keyword)
    case PlaceOnly => PlaceHit(r, location)
    case WholeQuery => WholeQueryHit(r, userQuery)
  }

  /** The rows a WHERE clause selects, in table order. */
  function Select(rows: seq<Listing>, t: Tier, keyword: string, location: string, userQuery: string): (s: seq<Listing>)
    ensures forall x :: x in s <==> x in rows && Hit(t, x, keyword, location, userQuery)
    decreases |rows|
  {
    if rows == [] then []
    else
      var rest := Select(rows[1..], t, keyword, location, userQuery);
      assert forall x :: x in rows <==> x == rows[0] || x in rows[1..];
      (if Hit(t, rows[0], keyword, location, userQuery) then [rows[0]] else []) + rest
  }

  /** One SELECT: the selected rows, ranked, at most five. */
  function Search(rows: seq<Listing>, t: Tier, keyword: string, location: string, userQuery: string,
                  rank: seq<Listing> -> seq<Listing>): seq<Listing>
  {
    Take(rank(Select(rows, t, keyword, location, userQuery)), 5)
  }

  /** Which search is allowed to run: the first needs both parts, the next two need their part. */
  predicate Applies(t: Tier, keyword: string, location: string) {
    match t
    case KeywordAndPlace => keyword != "" && location != ""
    case KeywordOnly => keyword != ""
    case PlaceOnly => location != ""
    case WholeQuery => true
  }

  /** The cascade: each search runs only when the ones before it found nothing. */
  function SearchCascade(rows: seq<Listing>, keyword: string, location: string, userQuery: string,
                         rank: seq<Listing> -> seq<Listing>): seq<Listing>
  {
    var a := if Applies(KeywordAndPlace, keyword, location)
      then Search(rows, KeywordAndPlace, keyword, location, userQuery, rank) else [];
    var b := if a == [] && Applies(KeywordOnly, keyword, location)
      then Search(rows, KeywordOnly, keyword, location, userQuery, rank) else a;
    var c := if b == [] && Applies(PlaceOnly, keyword, location)
      then Search(rows, PlaceOnly, keyword, location, userQuery, rank) else b;
    if c == [] then Search(rows, WholeQuery, keyword, location, userQuery, rank) else c
  }

  /** The search that produced the result. */
  function Winner(rows: seq<Listing>, keyword: string, location: string, userQuery: string,
                  rank: seq<Listing> -> seq<Listing>): Tier
  {
    if Applies(KeywordAndPlace, keyword, location)
       && Search(rows, KeywordAndPlace, keyword, location, userQuery, rank) != [] then KeywordAndPlace
    else if Applies(KeywordOnly, keyword, location)
       && Search(rows, KeywordOnly, keyword, location, userQuery, rank) != [] then KeywordOnly
    else if Applies(PlaceOnly, keyword, location)
       && Search(rows, PlaceOnly, keyword, location, userQuery, rank) != [] then PlaceOnly
    else WholeQuery
  }

  /** The ORDER BY only reorders what the WHERE clause selected. */
  ghost predicate RankPermutes(rank: seq<Listing> -> seq<Listing>) {
    forall s :: multiset(rank(s)) == multiset(s)
  }

  /** A part of the query after correction, and whether it changed. */
  function CorrectedPart(part: string, useCorrection: bool, corpus: seq<string>,
                         closeMatches: string -> seq<string>): (string, bool)
  {
    if useCorrection && part != "" then
      var c := CorrectSpellingSpec(part, corpus, closeMatches);
      if c.corrected then (c.text, true) else (part, false)
    else (part, false)
  }

  /**
   * `smart_search_business`. A storage error (`storageFails`) gives no rows, the parsed
   * parts uncorrected and no correction. Otherwise keyword and location are the corrected
   * parts, `wasCorrected` says whether either changed, and the rows are the cascade's.
   */
  method SmartSearch(table: ListingTable, userQuery: string, useCorrection: bool,
                     corpus: seq<string>, closeMatches: string -> seq<string>,
                     rank: seq<Listing> -> seq<Listing>, storageFails: bool)
    returns (results: seq<Listing>, keyword: string, location: string, wasCorrected: bool)
    ensures var (k0, l0) := ReadKeywordLocation(QueryWords(userQuery));
      var (k, kc) := CorrectedPart(k0, useCorrection, corpus, closeMatches);
      var (l, lc) := CorrectedPart(l0, useCorrection, corpus, closeMatches);
      if storageFails then results == [] && keyword == k0 && location == l0 && !wasCorrected
      else (keyword == k && location == l && wasCorrected == (kc || lc) &&
            results == SearchCascade(table.rows, k, l, userQuery, rank))
  {
    var k0, l0 := ParseSearchQuery(userQuery);
    ReadingIsUnique(QueryWords(userQuery), k0, l0);
    var kc, lc;
    keyword, kc := CorrectPart(k0, useCorrection, corpus, closeMatches);
    location, lc := CorrectPart(l0, useCorrection, corpus, closeMatches);
    wasCorrected := kc || lc;
    if storageFails {
      return [], k0, l0, false;
    }
    results := RunCascade(table, keyword, location, userQuery, rank);
  }

  /** `if use_spelling_correction and part: ... correct_spelling(part)`. */
  method CorrectPart(part: string, useCorrection: bool, corpus: seq<string>,
                     closeMatches: string -> seq<string>) returns (corrected: string, changed: bool)
    ensures (corrected, changed) == CorrectedPart(part, useCorrection, corpus, closeMatches)
  {
    corrected, changed := part, false;
    if useCorrection && part != "" {
      var c := CorrectSpelling(part, corpus, closeMatches);
      if c.corrected {
        corrected, changed := c.text, true;
      }
    }
  }

  /** The four SELECTs, each run only while `results` is still empty. */
  method RunCascade(table: ListingTable, keyword: string, location: string, userQuery: string,
                    rank: seq<Listing> -> seq<Listing>) returns (results: seq<Listing>)
    ensures results == SearchCascade(table.rows, keyword, location, userQuery, rank)
  {
    results := [];
    if keyword != "" && location != "" {
      results := Search(table.rows, KeywordAndPlace, keyword, location, userQuery, rank);
    }
    if results == [] && keyword != "" {
      results := Search(table.rows, KeywordOnly, keyword, location, userQuery, rank);
    }
    if results == [] && location != "" {
      results := Search(table.rows, PlaceOnly, keyword, location, userQuery, rank);
    }
    if results == [] {
      results := Search(table.rows, WholeQuery, keyword, location, userQuery, rank);
    }
  }

  // ---------------- properties ---------------- //

  /** `LIMIT 5`: never more than five rows. */
  lemma AtMostFive(rows: seq<Listing>, keyword: string, location: string, userQuery: string,
                   rank: seq<Listing> -> seq<Listing>)
    ensures |SearchCascade(rows, keyword, location, userQuery, rank)| <= 5
  {
  }

  /** The cascade returns what the winning search returns. */
  lemma CascadeIsWinner(rows: seq<Listing>, keyword: string, location: string, userQuery: string,
                        rank: seq<Listing> -> seq<Listing>)
    ensures SearchCascade(rows, keyword, location, userQuery, rank) ==
      Search(rows, Winner(rows, keyword, location, userQuery, rank), keyword, location, userQuery, rank)
  {
  }

  /** A ranked selection is empty exactly when nothing was selected. */
  lemma SearchEmpty(rows: seq<Listing>, t: Tier, keyword: string, location: string, userQuery: string,
                    rank: seq<Listing> -> seq<Listing>)
    requires RankPermutes(rank)
    ensures Search(rows, t, keyword, location, userQuery, rank) == [] <==>
      forall i | 0 <= i < |rows| :: !Hit(t, rows[i], keyword, location, userQuery)
  {
    var s := Select(rows, t, keyword, location, userQuery);
    assert |rank(s)| == |multiset(rank(s))| == |multiset(s)| == |s|;
    if s != [] {
      assert s[0] in s;
    }
    if exists i | 0 <= i < |rows| :: Hit(t, rows[i], keyword, location, userQuery) {
      var i :| 0 <= i < |rows| && Hit(t, rows[i], keyword, location, userQuery);
      assert rows[i] in s;
    }
  }

  /**
   * Soundness: every row returned is a row of the table that satisfies the WHERE clause of
   * the winning search.
   */
  lemma ResultsSatisfyWinner(rows: seq<Listing>, keyword: string, location: string, userQuery: string,
                             rank: seq<Listing> -> seq<Listing>)
    requires RankPermutes(rank)
    ensures var t := Winner(rows, keyword, location, userQuery, rank);
      forall x | x in SearchCascade(rows, keyword, location, userQuery, rank) ::
        x in rows && Hit(t, x, keyword, location, userQuery)
  {
    var t := Winner(rows, keyword, location, userQuery, rank);
    CascadeIsWinner(rows, keyword, location, userQuery, rank);
    var s := Select(rows, t, keyword, location, userQuery);
    forall x | x in Take(rank(s), 5)
      ensures x in rows && Hit(t, x, keyword, location, userQuery)
    {
      assert x in rank(s);
      assert x in multiset(rank(s));
    }
  }

  /**
   * The order is load-bearing: when both parts are present and some row matches both,
   * the keyword-and-place search wins, whatever the other searches would find.
   */
  lemma BothPartsFirst(rows: seq<Listing>, keyword: string, location: string, userQuery: string,
                       rank: seq<Listing> -> seq<Listing>, i: int)
    requires RankPermutes(rank)
    requires keyword != "" && location != ""
    requires 0 <= i < |rows| && KeywordHit(rows[i], keyword) && PlaceHit(rows[i], location)
    ensures Winner(rows, keyword, location, userQuery, rank) == KeywordAndPlace
  {
    SearchEmpty(rows, KeywordAndPlace, keyword, location, userQuery, rank);
  }

  /**
   * The last resort: when no row matches the parts that are present, the query as typed
   * (not the corrected parts) is searched in name, category and city.
   */
  lemma FallsBackToWholeQuery(rows: seq<Listing>, keyword: string, location: string, userQuery: string,
                              rank: seq<Listing> -> seq<Listing>)
    requires RankPermutes(rank)
    requires forall i | 0 <= i < |rows| ::
      !(keyword != "" && KeywordHit(rows[i], keyword)) && !(location != "" && PlaceHit(rows[i], location))
    ensures Winner(rows, keyword, location, userQuery, rank) == WholeQuery
  {
    SearchEmpty(rows, KeywordAndPlace, keyword, location, userQuery, rank);
    SearchEmpty(rows, KeywordOnly, keyword, location, userQuery, rank);
    SearchEmpty(rows, PlaceOnly, keyword, location, userQuery, rank);
  }
}
