/**
 * The chat flow engine as a state machine on values. One user message takes a session
 * state and the table's rows to the next state, the next rows and a reply. The methods of
 * `FlowEngine.ChatSession` are proved to make exactly these transitions, and the lemmas at
 * the end of this module state what the transitions promise.
 */
module FlowSpec {
  import opened Wrappers
  import opened Text
  import opened PhoneIdentity
  import opened IntentClassifier
  import opened QueryParser
  import opened SpellCorrector
  import opened Listings
  import opened BusinessByPhone
  import opened BusinessUpdate
  import opened BusinessAdd
  import opened SearchResolver

  /** `chat_mode`: None, or the flow in progress. */
  datatype Mode = Idle | ShowFlow | UpdateFlow | AddFlow | SearchFlow

  /**
   * The keys the flows write into `chat_data`: "phone" and "update_field" (update flow),
   * "name", "phone_number", "address", "website", "category", "city" and "state" (add flow)
   * and "search_query" (search flow, cleared again by the reset that ends every search).
   */
  datatype Slot =
    | LookupPhone | FieldToUpdate
    | NameAnswer | PhoneAnswer | AddressAnswer | WebsiteAnswer | CategoryAnswer | CityAnswer | StateAnswer
    | SearchText

  /** `chat_mode`, `chat_step`, `chat_data` and `current_business`. */
  datatype Session = Session(mode: Mode, step: int, data: map<Slot, string>, current: Option<Listing>)

  /** The state `reset_chat_flow` leaves, which is also the state of a new session. */
  const Fresh: Session := Session(Idle, 0, map[], None)

  /** What the web search and its ranking give for a query. */
  datatype Online = OnlineFound | OnlineEmpty | OnlineError

  /** What the engine depends on without computing it. */
  datatype Env = Env(
    corpus: seq<string>,                  // get_all_searchable_terms()
    closeMatches: string -> seq<string>,  // difflib.get_close_matches, best first
    rank: seq<Listing> -> seq<Listing>,   // ORDER BY reviews_average DESC, reviews_count DESC
    online: string -> Online,             // search_online, then rank_online_results
    createdAt: string)                    // the timestamp a new row gets

  /** Storage errors, one flag for each place a turn can meet one. */
  datatype Faults = Faults(
    search: bool,         // inside smart_search_business, which catches it and finds nothing
    updateById: bool,     // inside the update_business call by id, which rolls back and returns False
    updateByPhone: bool,  // inside the update_business call by phone, likewise
    add: bool,            // raised by add_business before it writes anything
    read: bool)           // raised by the get_businesses_by_phone that follows a successful write

  /**
   * The replies, one constructor per kind of message, carrying what the message shows.
   * `Unhandled` is the None that sends the page to its own fallback search.
   */
  datatype Reply =
    | Unhandled
    | Welcome
    | AskShowPhone
    | AskUpdatePhone
    | AskName
    | LocalResults(keyword: string, location: string, corrected: bool, results: seq<Listing>)
    | OnlineResults(query: string, keyword: string, location: string)
    | NoResults(query: string, suggestions: seq<string>)
    | OnlineFailed(query: string)
    | AskWhatToFind
    | ShortQuery
    | Cancelled
    | InvalidPhone
    | NotFound(phone: string)
    | Found(business: Listing)
    | ChooseField(business: Listing)
    | UpdateComplete
    | UnknownField
    | AskNewValue(field: string, currentValue: string)
    | EmptyValue
    | StartAgain
    | Updated(field: string, value: string, shown: Option<Listing>)
    | NotUpdated(field: string)
    | UpdateError
    | InvalidName
    | AskAddPhone(name: string)
    | InvalidAddPhone
    | AskAddress(phoneKey: string)
    | InvalidAddress
    | AskWebsite(address: string)
    | AskCategory
    | InvalidCategory
    | AskCity(category: string)
    | AskState
    | Added(id: int, listing: NewListing)
    | AddFailed
    | AddError

  // ---------------- word lists and small readings ---------------- //

  const CancelWords: seq<string> := ["cancel", "exit", "quit", "stop", "nevermind"]
  const DoneWords: seq<string> := ["done", "finish", "exit", "no", "cancel"]
  /** The keys of `field_mapping`: the seven menu numbers and the column words. */
  const FieldChoices: set<string> := {
    "1", "name", "2", "address", "3", "phone", "phone number",
    "4", "website", "5", "category", "6", "city", "7", "state"
  }
  const WebsiteSkips: seq<string> := ["skip", "none", "n/a", "-", ""]
  const PlaceSkips: seq<string> := ["skip", "none"]

  /** The intent words cut out of a search request, in the order they are cut. */
  const SearchNoise: seq<string> := [
    "search for", "find a", "looking for", "need a", "want a",
    "search", "find", "looking", "recommend", "suggest",
    "where can i find", "best", "top", "near me"
  ]

  /** The universal cancel test of an active flow. */
  predicate IsCancel(input: string) {
    Strip(Lower(input)) in CancelWords
  }

  /** `chat_data.get(k, "")`. */
  function Get(data: map<Slot, string>, k: Slot): string {
    if k in data then data[k] else ""
  }

  /** What `get_businesses_by_phone` returns. */
  function ByPhone(rows: seq<Listing>, phone: string): seq<Listing> {
    var key := NormalizePhone(phone);
    if key == "" then [] else SortByCreatedDesc(MatchingRows(rows, key))
  }

  /** The value of a column named by its key, "" (shown as "Not set") for a key that names none. */
  function ValueOf(b: Listing, key: string): string {
    match ParseColumn(key)
    case Some(c) => Field(b, c)
    case None => ""
  }

  /**
   * `field_mapping` as the source writes it: the selector "3" gives the key "phone", which
   * is not an allowed column, while the word "phone" gives "phone_number".
   */
  function SelectorAsWritten(k: string): Option<string> {
    if k == "1" || k == "name" then Some("name")
    else if k == "2" || k == "address" then Some("address")
    else if k == "3" then Some("phone")
    else if k == "phone" || k == "phone number" then Some("phone_number")
    else if k == "4" || k == "website" then Some("website")
    else if k == "5" || k == "category" then Some("category")
    else if k == "6" || k == "city" then Some("city")
    else if k == "7" || k == "state" then Some("state")
    else None
  }

  /**
   * `field_mapping` as evidently intended: the selector "3" gives "phone_number", like the
   * word "phone". The flow follows the code and uses `SelectorAsWritten`; `IntendedChooseTurn`
   * is step 2 with this mapping.
   */
  function Selector(k: string): Option<string> {
    if k == "3" then Some("phone_number") else SelectorAsWritten(k)
  }

  /** `str.replace(w, "")`; an empty pattern leaves the text as it is. */
  function RemovePhrase(q: string, w: string): string {
    if w == "" then q else ReplaceAll(q, w, "")
  }

  /** The removal loop over `ws`, one phrase after another. */
  function RemovePhrases(q: string, ws: seq<string>): string
    decreases |ws|
  {
    if ws == [] then q else RemovePhrases(RemovePhrase(q, ws[0]), ws[1..])
  }

  /** The search text of a search request: lowered, stripped, intent words cut, spaces collapsed. */
  function ExtractSearchQuery(input: string): string {
    Strip(Join(Split(RemovePhrases(Strip(Lower(input)), SearchNoise))))
  }

  /** What `smart_search_business(query)` returns, correction on. */
  function SmartSearchOf(rows: seq<Listing>, query: string, env: Env, fails: bool): (seq<Listing>, string, string, bool) {
    var (k0, l0) := ReadKeywordLocation(QueryWords(query));
    var (k, kc) := CorrectedPart(k0, true, env.corpus, env.closeMatches);
    var (l, lc) := CorrectedPart(l0, true, env.corpus, env.closeMatches);
    if fails then ([], k0, l0, false)
    else (SearchCascade(rows, k, l, query, env.rank), k, l, kc || lc)
  }

  /** The text handed to the web search when the table had nothing. */
  function OnlineQuery(keyword: string, location: string, query: string): string {
    if keyword != "" && location != "" then keyword + " in " + location
    else if keyword != "" then keyword
    else query
  }

  /**
   * The reply to a search: local rows when there are any, otherwise what the web search
   * gives. When nothing is found anywhere, the search flow (`suggest`) adds the first three
   * suggestions of `correct_spelling` for the whole query.
   */
  function SearchReply(rows: seq<Listing>, query: string, env: Env, fails: bool, suggest: bool): Reply {
    ReplyFor(SmartSearchOf(rows, query, env, fails), query, env, suggest)
  }

  /** The reply once `smart_search_business` has answered with its four results. */
  function ReplyFor(found: (seq<Listing>, string, string, bool), query: string, env: Env, suggest: bool): Reply {
    var (results, k, l, corrected) := found;
    if results != [] then LocalResults(k, l, corrected, results)
    else
      match env.online(OnlineQuery(k, l, query))
      case OnlineFound => OnlineResults(query, k, l)
      case OnlineEmpty => NoResults(query, SuggestionsFor(query, env, suggest))
      case OnlineError => OnlineFailed(query)
  }

  /** The suggestions shown with "no results": the first three of `correct_spelling`'s, if asked for. */
  function SuggestionsFor(query: string, env: Env, suggest: bool): seq<string> {
    if suggest then Take(CorrectSpellingSpec(query, env.corpus, env.closeMatches).suggestions, 3) else []
  }

  /** A search request outside any flow: too short a search text asks what to find. */
  function DirectSearchReply(rows: seq<Listing>, input: string, env: Env, f: Faults): Reply {
    var q := ExtractSearchQuery(input);
    if |q| < 2 then AskWhatToFind else SearchReply(rows, q, env, f.search, false)
  }

  // ---------------- transitions ---------------- //

  /** `process_chatbot_response` with no flow active: the intent decides. */
  function StartTurn(s: Session, rows: seq<Listing>, input: string, env: Env, f: Faults): (Session, Reply) {
    StartWith(DetectIntent(input), s, rows, input, env, f)
  }

  /** What each intent does to an idle session. */
  function StartWith(intent: Intent, s: Session, rows: seq<Listing>, input: string, env: Env, f: Faults): (Session, Reply) {
    match intent
    case Greeting => (s, Welcome)
    case Show => (s.(mode := ShowFlow, step := 1), AskShowPhone)
    case Update => (s.(mode := UpdateFlow, step := 1), AskUpdatePhone)
    case Add => (s.(mode := AddFlow, step := 1), AskName)
    case Search => (s, DirectSearchReply(rows, input, env, f))
    case General => (s, Unhandled)
  }

  /** `handle_show_flow`. */
  function ShowTurn(s: Session, rows: seq<Listing>, input: string): (Session, Reply) {
    if s.step == 1 then
      var phone := Strip(input);
      if !Plausible(phone) then (s, InvalidPhone)
      else
        var found := ByPhone(rows, phone);
        if found == [] then (Fresh, NotFound(phone))
        else (Fresh.(current := Some(found[0])), Found(found[0]))
    else (s, Unhandled)
  }

  /** What `update_business` does to the rows and what it answers. */
  function UpdateEffect(rows: seq<Listing>, businessId: Option<int>, updates: map<string, Option<string>>,
                        phoneNumber: string, fails: bool): (bool, seq<Listing>)
  {
    var ok := !fails && UpdateSucceeds(rows, businessId, updates, phoneNumber);
    (ok, if ok then UpdatedRows(rows, MatchedRowids(rows, businessId, phoneNumber), FilteredUpdates(updates)) else rows)
  }

  /** The first listing with the given id. */
  function FindById(bs: seq<Listing>, id: int): (r: Option<Listing>)
    ensures r.None? <==> forall i | 0 <= i < |bs| :: bs[i].id != id
    ensures r.Some? ==> exists i | 0 <= i < |bs| ::
      bs[i] == r.value && r.value.id == id && forall k | 0 <= k < i :: bs[k].id != id
    decreases |bs|
  {
    if bs == [] then None
    else if bs[0].id == id then Some(bs[0])
    else
      var r := FindById(bs[1..], id);
      assert forall i | 1 <= i < |bs| :: bs[i] == bs[1..][i - 1];
      r
  }

  /** The refreshed listing: the one with the same id, or else the first. */
  function SameOrFirst(bs: seq<Listing>, id: Option<int>): Listing
    requires bs != []
  {
    if id.Some? && FindById(bs, id.value).Some? then FindById(bs, id.value).value else bs[0]
  }

  /** Step 3 of `handle_update_flow`: an empty value or a lost field name, else the write. */
  function UpdateValueTurn(s: Session, rows: seq<Listing>, input: string, f: Faults): (Session, seq<Listing>, Reply) {
    var value := Strip(input);
    if value == "" then (s, rows, EmptyValue)
    else if Get(s.data, FieldToUpdate) == "" then (Fresh, rows, StartAgain)
    else WriteTurn(s, rows, Get(s.data, FieldToUpdate), value, f)
  }

  /** Write `value` into the column `key`, by id and then by phone, and show the re-read listing. */
  function WriteTurn(s: Session, rows: seq<Listing>, key: string, value: string, f: Faults): (Session, seq<Listing>, Reply) {
    var updates := map[key := Some(value)];
    var id := if s.current.Some? then Some(s.current.value.id) else None;
    var phone := Get(s.data, LookupPhone);
    var (ok, rows2) := WriteValue(rows, id, updates, phone, f.updateById, f.updateByPhone);
    if !ok then (s, rows2, NotUpdated(key))
    else if phone != "" && f.read then (Fresh, rows2, UpdateError)
    else
      var biz := Refreshed(rows2, phone, id, s.current);
      (s.(step := 2, current := biz), rows2, Updated(key, value, biz))
  }

  /** The update by the listing's id, then, if that changed nothing, by the phone. */
  function WriteValue(rows: seq<Listing>, id: Option<int>, updates: map<string, Option<string>>,
                      phone: string, failsById: bool, failsByPhone: bool): (bool, seq<Listing>)
  {
    var (ok1, rows1) := if id.Some? then UpdateEffect(rows, id, updates, "", failsById) else (false, rows);
    if !ok1 && phone != "" then UpdateEffect(rows1, None, updates, phone, failsByPhone) else (ok1, rows1)
  }

  /** The listing shown after a write: re-read by phone, the same id if present, else as before. */
  function Refreshed(rows: seq<Listing>, phone: string, id: Option<int>, current: Option<Listing>): Option<Listing> {
    var refreshed := if phone != "" then ByPhone(rows, phone) else [];
    if refreshed == [] then current else Some(SameOrFirst(refreshed, id))
  }

  /** `handle_update_flow`: the phone, then the field, then the value. */
  function UpdateTurn(s: Session, rows: seq<Listing>, input: string, f: Faults): (Session, seq<Listing>, Reply) {
    if s.step == 1 then var (s', r) := LookupTurn(s, rows, input); (s', rows, r)
    else if s.step == 2 then var (s', r) := ChooseTurn(s, input); (s', rows, r)
    else if s.step == 3 then UpdateValueTurn(s, rows, input, f)
    else (s, rows, Unhandled)
  }

  /** Step 1 of `handle_update_flow`: the phone, and the newest listing under it. */
  function LookupTurn(s: Session, rows: seq<Listing>, input: string): (Session, Reply) {
    var phone := Strip(input);
    if !Plausible(phone) then (s, InvalidPhone)
    else
      var found := ByPhone(rows, phone);
      if found == [] then (Fresh, NotFound(phone))
      else (s.(current := Some(found[0]), data := s.data[LookupPhone := phone], step := 2), ChooseField(found[0]))
  }

  /** Step 2 of `handle_update_flow`: finish, or choose the column to change. */
  function ChooseTurn(s: Session, input: string): (Session, Reply) {
    var choice := Lower(Strip(input));
    if choice in DoneWords then (Fresh, UpdateComplete)
    else
      match SelectorAsWritten(choice)
      case None => (s, UnknownField)
      case Some(key) => RecordChoice(s, key)
  }

  /** Record the chosen key, move to step 3 and show the current value ("" for "Not set"). */
  function RecordChoice(s: Session, key: string): (Session, Reply) {
    var shown := if s.current.Some? then ValueOf(s.current.value, key) else "";
    (s.(data := s.data[FieldToUpdate := key], step := 3), AskNewValue(key, shown))
  }

  /** Step 2 with the intended mapping, where every selector names an allowed column. */
  function IntendedChooseTurn(s: Session, input: string): (Session, Reply) {
    var choice := Lower(Strip(input));
    if choice in DoneWords then (Fresh, UpdateComplete)
    else
      match Selector(choice)
      case None => (s, UnknownField)
      case Some(key) => RecordChoice(s, key)
  }

  /**
   * Step 3 as its failure message describes it: "done" (or another word that ends step 2)
   * finishes the flow instead of becoming the new value. The flow follows the code and uses
   * `UpdateValueTurn`, where "done" is written as the value.
   */
  function IntendedUpdateValueTurn(s: Session, rows: seq<Listing>, input: string, f: Faults): (Session, seq<Listing>, Reply) {
    if Lower(Strip(input)) in DoneWords then (Fresh, rows, UpdateComplete)
    else UpdateValueTurn(s, rows, input, f)
  }

  /** The keys `field_mapping` can record: the allowed columns, and the stray "phone". */
  predicate MappedKey(key: string) {
    ParseColumn(key).Some? || key == "phone"
  }

  /** A city or state answer as stored: "skip" and "none" (any case) mean none given. */
  function PlaceAnswer(input: string): string {
    var v := Strip(input);
    if v != "" && Lower(v) !in PlaceSkips then v else ""
  }

  /** The arguments `add_business` gets from the collected answers. */
  function ListingOf(data: map<Slot, string>): NewListing {
    NewListing(Get(data, NameAnswer), Get(data, AddressAnswer), Get(data, PhoneAnswer), Get(data, WebsiteAnswer),
               Get(data, CategoryAnswer), "", Get(data, CityAnswer), Get(data, StateAnswer), "")
  }

  /** Step 7 of `handle_add_flow`: store the state answer and add the listing. */
  function AddFinalTurn(s: Session, rows: seq<Listing>, input: string, env: Env, f: Faults): (Session, seq<Listing>, Reply) {
    var a := ListingOf(s.data[StateAnswer := PlaceAnswer(input)]);
    if f.add then (Fresh, rows, AddError)
    else
      var (rows', id) := AddOutcome(rows, a, env.createdAt);
      if id == 0 then (Fresh, rows', AddFailed)
      else if f.read then (Fresh, rows', AddError)
      else (Fresh, rows', Added(id, a))
  }

  /** `handle_add_flow`: six answers, then the insertion. */
  function AddTurn(s: Session, rows: seq<Listing>, input: string, env: Env, f: Faults): (Session, seq<Listing>, Reply) {
    if 1 <= s.step <= 6 then var (s', r) := AnswerTurn(s, input); (s', rows, r)
    else if s.step == 7 then AddFinalTurn(s, rows, input, env, f)
    else (s, rows, Unhandled)
  }

  /** Steps 1 to 6 of `handle_add_flow`: one answer per step, checked before the step advances. */
  function AnswerTurn(s: Session, input: string): (Session, Reply) {
    var v := Strip(input);
    if s.step == 1 then
      if |v| < 2 then (s, InvalidName)
      else (s.(data := s.data[NameAnswer := v], step := 2), AskAddPhone(v))
    else if s.step == 2 then
      var key := NormalizePhone(v);
      if |key| < 6 then (s, InvalidAddPhone)
      else (s.(data := s.data[PhoneAnswer := key], step := 3), AskAddress(key))
    else if s.step == 3 then
      if |v| < 5 then (s, InvalidAddress)
      else (s.(data := s.data[AddressAnswer := v], step := 4), AskWebsite(v))
    else if s.step == 4 then
      var w := if Lower(v) in WebsiteSkips then "" else v;
      (s.(data := s.data[WebsiteAnswer := w], step := 5), AskCategory)
    else if s.step == 5 then
      if |v| < 2 then (s, InvalidCategory)
      else (s.(data := s.data[CategoryAnswer := v], step := 6), AskCity(v))
    else (s.(data := s.data[CityAnswer := PlaceAnswer(input)], step := 7), AskState)
  }

  /** `handle_search_flow`: search the table, then the web; every outcome ends the flow. */
  function SearchTurn(s: Session, rows: seq<Listing>, input: string, env: Env, f: Faults): (Session, Reply) {
    var query := Strip(input);
    if s.step == 1 then
      if |query| < 2 then (s, ShortQuery)
      else (Fresh, SearchReply(rows, query, env, f.search, true))
    else (s, Unhandled)
  }

  /** `handle_active_flow`: the cancel words first, then the flow of the current mode. */
  function ActiveTurn(s: Session, rows: seq<Listing>, input: string, env: Env, f: Faults): (Session, seq<Listing>, Reply) {
    if IsCancel(input) then (Fresh, rows, Cancelled)
    else
      match s.mode
      case ShowFlow => var (s', r) := ShowTurn(s, rows, input); (s', rows, r)
      case UpdateFlow => UpdateTurn(s, rows, input, f)
      case AddFlow => AddTurn(s, rows, input, env, f)
      case SearchFlow => var (s', r) := SearchTurn(s, rows, input, env, f); (s', rows, r)
      case Idle => (s, rows, Unhandled)
  }

  /** `process_chatbot_response`: continue the active flow, or read the intent. */
  function Turn(s: Session, rows: seq<Listing>, input: string, env: Env, f: Faults): (Session, seq<Listing>, Reply) {
    if s.mode != Idle then ActiveTurn(s, rows, input, env, f)
    else var (s', r) := StartTurn(s, rows, input, env, f); (s', rows, r)
  }

  // ---------------- the session invariant ---------------- //

  /** The answers an add flow at step `step` has already collected, the phone as a key. */
  predicate AddAnswers(step: int, data: map<Slot, string>) {
    && (step >= 2 ==> NameAnswer in data)
    && (step >= 3 ==> PhoneAnswer in data && Plausible(data[PhoneAnswer])
                      && NormalizePhone(data[PhoneAnswer]) == data[PhoneAnswer])
    && (step >= 4 ==> AddressAnswer in data)
    && (step >= 5 ==> WebsiteAnswer in data)
    && (step >= 6 ==> CategoryAnswer in data)
    && (step >= 7 ==> CityAnswer in data)
  }

  /**
   * The states the engine can be in: no flow means step 0 and no answers; each flow's step
   * is in its range and the answers of the earlier steps are present.
   */
  predicate Valid(s: Session) {
    match s.mode
    case Idle => s.step == 0 && s.data == map[]
    case ShowFlow => s.step == 1
    case SearchFlow => s.step == 1
    case UpdateFlow =>
      && 1 <= s.step <= 3
      && (s.step >= 2 ==> LookupPhone in s.data && s.current.Some?)
      && (s.step == 3 ==> FieldToUpdate in s.data && MappedKey(s.data[FieldToUpdate]))
    case AddFlow => 1 <= s.step <= 7 && AddAnswers(s.step, s.data)
  }

  // ---------------- properties ---------------- //

  lemma FreshIsValid()
    ensures Valid(Fresh)
  {
  }

  /**
   * Every key the written mapping gives is an allowed column, except the one for "3",
   * which is "phone".
   */
  lemma SelectorAsWrittenKeys(k: string)
    requires SelectorAsWritten(k).Some?
    ensures MappedKey(SelectorAsWritten(k).value)
    ensures ParseColumn(SelectorAsWritten(k).value).Some? <==> k != "3"
  {
    if k == "3" {
      PhoneIsNoColumn();
    }
  }

  /** Both mappings answer exactly the keys of `field_mapping`. */
  lemma SelectorDomain(k: string)
    ensures SelectorAsWritten(k).Some? <==> k in FieldChoices
    ensures Selector(k).Some? <==> k in FieldChoices
  {
  }

  /** Every key the corrected selector gives names an allowed column. */
  lemma SelectorNamesColumn(k: string)
    requires Selector(k).Some?
    ensures ParseColumn(Selector(k).value).Some?
  {
  }

  /**
   * As written, the selector "3" asks `update_business` to set the key "phone", which it
   * drops, so the update fails whatever the rows, the id and the value.
   */
  lemma SelectorThreeAsWrittenNeverUpdates(rows: seq<Listing>, businessId: Option<int>, value: string, phone: string)
    ensures SelectorAsWritten("3") == Some("phone")
    ensures !UpdateSucceeds(rows, businessId, map[SelectorAsWritten("3").value := Some(value)], phone)
  {
    PhoneIsNoColumn();
    UnknownKeyDropped("phone", Some(value));
  }

  /** Corrected, the selector "3" and the word "phone" choose the same column. */
  lemma SelectorThreeIsPhone()
    ensures Selector("3") == Selector("phone") == Some("phone_number")
  {
  }

  /** The corrected mapping agrees with the written one on every other input. */
  lemma SelectorDiffersOnlyAtThree(k: string)
    requires k != "3"
    ensures Selector(k) == SelectorAsWritten(k)
  {
  }

  /** Valid states stay valid, whatever the message, the rows, the environment and the faults. */
  lemma TurnPreservesValid(s: Session, rows: seq<Listing>, input: string, env: Env, f: Faults)
    requires Valid(s)
    ensures Valid(Turn(s, rows, input, env, f).0)
  {
    if s.mode == Idle {
      StartPreservesValid(s, rows, input, env, f);
    } else {
      ActivePreservesValid(s, rows, input, env, f);
    }
  }

  lemma ActivePreservesValid(s: Session, rows: seq<Listing>, input: string, env: Env, f: Faults)
    requires Valid(s) && s.mode != Idle
    ensures Valid(ActiveTurn(s, rows, input, env, f).0)
  {
    if !IsCancel(input) {
      ActiveDispatch(s, rows, input, env, f);
      if s.mode == UpdateFlow {
        UpdatePreservesValid(s, rows, input, f);
      } else if s.mode == AddFlow {
        AddPreservesValid(s, rows, input, env, f);
      } else if s.mode == ShowFlow {
        ShowPreservesValid(s, rows, input);
      } else {
        SearchPreservesValid(s, rows, input, env, f);
      }
    }
  }

  lemma ShowPreservesValid(s: Session, rows: seq<Listing>, input: string)
    requires Valid(s) && s.mode == ShowFlow
    ensures Valid(ShowTurn(s, rows, input).0)
  {
  }

  lemma SearchPreservesValid(s: Session, rows: seq<Listing>, input: string, env: Env, f: Faults)
    requires Valid(s) && s.mode == SearchFlow
    ensures Valid(SearchTurn(s, rows, input, env, f).0)
  {
  }

  /** Past the cancel test, an active turn is the turn of the session's flow. */
  lemma ActiveDispatch(s: Session, rows: seq<Listing>, input: string, env: Env, f: Faults)
    requires !IsCancel(input)
    ensures s.mode == ShowFlow ==> ActiveTurn(s, rows, input, env, f).0 == ShowTurn(s, rows, input).0
    ensures s.mode == SearchFlow ==> ActiveTurn(s, rows, input, env, f).0 == SearchTurn(s, rows, input, env, f).0
    ensures s.mode == UpdateFlow ==> ActiveTurn(s, rows, input, env, f) == UpdateTurn(s, rows, input, f)
    ensures s.mode == AddFlow ==> ActiveTurn(s, rows, input, env, f) == AddTurn(s, rows, input, env, f)
  {
  }

  lemma StartPreservesValid(s: Session, rows: seq<Listing>, input: string, env: Env, f: Faults)
    requires Valid(s) && s.mode == Idle
    ensures Valid(StartTurn(s, rows, input, env, f).0)
  {
    StartWithShape(DetectIntent(input), s, rows, input, env, f);
  }

  /** Each intent leaves the session alone or enters a flow at step 1, changing nothing else. */
  lemma StartWithShape(intent: Intent, s: Session, rows: seq<Listing>, input: string, env: Env, f: Faults)
    ensures var s' := StartWith(intent, s, rows, input, env, f).0;
      s' == s || (s' == s.(mode := s'.mode, step := 1) && s'.mode in {ShowFlow, UpdateFlow, AddFlow})
  {
  }

  lemma UpdatePreservesValid(s: Session, rows: seq<Listing>, input: string, f: Faults)
    requires Valid(s) && s.mode == UpdateFlow
    ensures Valid(UpdateTurn(s, rows, input, f).0)
  {
    if s.step == 1 {
      assert UpdateTurn(s, rows, input, f).0 == LookupTurn(s, rows, input).0;
    } else if s.step == 2 {
      assert UpdateTurn(s, rows, input, f).0 == ChooseTurn(s, input).0;
      var choice := Lower(Strip(input));
      if choice !in DoneWords && SelectorAsWritten(choice).Some? {
        SelectorAsWrittenKeys(choice);
      }
    } else if s.step == 3 {
      UpdateValuePreservesValid(s, rows, input, f);
    }
  }

  lemma UpdateValuePreservesValid(s: Session, rows: seq<Listing>, input: string, f: Faults)
    requires Valid(s) && s.mode == UpdateFlow && s.step == 3
    ensures Valid(UpdateTurn(s, rows, input, f).0)
  {
    assert UpdateTurn(s, rows, input, f) == UpdateValueTurn(s, rows, input, f);
  }

  lemma AddPreservesValid(s: Session, rows: seq<Listing>, input: string, env: Env, f: Faults)
    requires Valid(s) && s.mode == AddFlow
    ensures Valid(AddTurn(s, rows, input, env, f).0)
  {
    if 1 <= s.step <= 6 {
      assert AddTurn(s, rows, input, env, f).0 == AnswerTurn(s, input).0;
      if s.step <= 3 {
        AnswerEarlyPreservesValid(s, input);
      } else {
        AnswerLatePreservesValid(s, input);
      }
    } else if s.step == 7 {
      AddFinalResets(s, rows, input, env, f);
    }
  }

  lemma AnswerEarlyPreservesValid(s: Session, input: string)
    requires Valid(s) && s.mode == AddFlow && 1 <= s.step <= 3
    ensures Valid(AnswerTurn(s, input).0)
  {
    if s.step == 2 {
      NormalizeIdempotent(Strip(input));
    }
  }

  lemma AnswerLatePreservesValid(s: Session, input: string)
    requires Valid(s) && s.mode == AddFlow && 4 <= s.step <= 6
    ensures Valid(AnswerTurn(s, input).0)
  {
    var v := Strip(input);
    if s.step == 4 {
      AnswersKept(s.step, s.data, WebsiteAnswer, if Lower(v) in WebsiteSkips then "" else v);
    } else if s.step == 5 {
      AnswersKept(s.step, s.data, CategoryAnswer, v);
    } else {
      AnswersKept(s.step, s.data, CityAnswer, PlaceAnswer(input));
    }
  }

  /** Storing any answer but the phone keeps the answers already collected. */
  lemma AnswersKept(step: int, data: map<Slot, string>, slot: Slot, v: string)
    requires AddAnswers(step, data) && slot != PhoneAnswer
    ensures AddAnswers(step, data[slot := v])
  {
    if step >= 3 {
      assert data[slot := v][PhoneAnswer] == data[PhoneAnswer];
    }
  }

  /** An add step keeps the mode and moves the step by at most one, or resets the session. */
  lemma AddShape(s: Session, rows: seq<Listing>, input: string, env: Env, f: Faults)
    ensures var s' := AddTurn(s, rows, input, env, f).0;
      (s'.mode == s.mode && (s'.step == s.step || s'.step == s.step + 1)) || (s.step == 7 && s' == Fresh)
  {
    if 1 <= s.step <= 6 {
      assert AddTurn(s, rows, input, env, f).0 == AnswerTurn(s, input).0;
      AnswerShape(s, input);
    } else if s.step == 7 {
      AddFinalResets(s, rows, input, env, f);
    }
  }

  lemma AnswerShape(s: Session, input: string)
    requires 1 <= s.step <= 6
    ensures var s' := AnswerTurn(s, input).0;
      s'.mode == s.mode && (s'.step == s.step || s'.step == s.step + 1)
  {
    if s.step == 1 {
    } else if s.step == 2 {
    } else if s.step == 3 {
    } else if s.step == 4 {
    } else if s.step == 5 {
    } else {
    }
  }

  /** An update step keeps the mode, or resets the session. */
  lemma UpdateShape(s: Session, rows: seq<Listing>, input: string, f: Faults)
    ensures var s' := UpdateTurn(s, rows, input, f).0;
      s'.mode == s.mode || s' == Fresh
  {
    if s.step == 1 {
      assert UpdateTurn(s, rows, input, f).0 == LookupTurn(s, rows, input).0;
    } else if s.step == 2 {
      assert UpdateTurn(s, rows, input, f).0 == ChooseTurn(s, input).0;
    } else if s.step == 3 {
      assert UpdateTurn(s, rows, input, f) == UpdateValueTurn(s, rows, input, f);
      if Strip(input) != "" && Get(s.data, FieldToUpdate) != "" {
        assert UpdateValueTurn(s, rows, input, f) == WriteTurn(s, rows, Get(s.data, FieldToUpdate), Strip(input), f);
      }
    }
  }

  /**
   * In an active flow the cancel words come before anything the flow would do: the session
   * is reset and the table is untouched.
   */
  lemma CancelComesFirst(s: Session, rows: seq<Listing>, input: string, env: Env, f: Faults)
    requires s.mode != Idle && IsCancel(input)
    ensures Turn(s, rows, input, env, f) == (Fresh, rows, Cancelled)
  {
  }

  /** With no flow active, a message only ever starts the show, update or add flow at step 1. */
  lemma StartEntersStepOne(s: Session, rows: seq<Listing>, input: string, env: Env, f: Faults)
    requires s.mode == Idle
    ensures var s' := Turn(s, rows, input, env, f).0;
      s' == s || (s' == s.(mode := s'.mode, step := 1) && s'.mode in {ShowFlow, UpdateFlow, AddFlow})
  {
    StartWithShape(DetectIntent(input), s, rows, input, env, f);
  }

  /** No transition enters the search flow: only the direct search answers search requests. */
  lemma SearchFlowNeverEntered(s: Session, rows: seq<Listing>, input: string, env: Env, f: Faults)
    requires s.mode != SearchFlow
    ensures Turn(s, rows, input, env, f).0.mode != SearchFlow
  {
    if s.mode == Idle {
      StartWithShape(DetectIntent(input), s, rows, input, env, f);
    } else if !IsCancel(input) && s.mode == AddFlow {
      AddShape(s, rows, input, env, f);
    } else if !IsCancel(input) && s.mode == UpdateFlow {
      UpdateShape(s, rows, input, f);
    }
  }

  /** Only the update and add flows write to the table. */
  lemma OnlyUpdateAndAddWrite(s: Session, rows: seq<Listing>, input: string, env: Env, f: Faults)
    requires s.mode != UpdateFlow && s.mode != AddFlow
    ensures Turn(s, rows, input, env, f).1 == rows
  {
  }

  /**
   * The add flow moves at most one step per message: it stays, advances by one, or (after
   * the last answer) ends with a reset session.
   */
  lemma AddAdvancesOneStep(s: Session, rows: seq<Listing>, input: string, env: Env, f: Faults)
    requires Valid(s) && s.mode == AddFlow
    ensures var s' := AddTurn(s, rows, input, env, f).0;
      (s'.mode == AddFlow && (s'.step == s.step || s'.step == s.step + 1)) || (s.step == 7 && s' == Fresh)
  {
    AddShape(s, rows, input, env, f);
  }

  /** The last step always resets the session. */
  lemma AddFinalResets(s: Session, rows: seq<Listing>, input: string, env: Env, f: Faults)
    ensures AddFinalTurn(s, rows, input, env, f).0 == Fresh
  {
  }

  /** A name under 2, a phone under 6 digits or an address under 5 characters leaves everything as it was. */
  lemma AddRejectsShortAnswers(s: Session, input: string)
    requires s.mode == AddFlow
    requires || (s.step == 1 && |Strip(input)| < 2)
             || (s.step == 2 && |NormalizePhone(Strip(input))| < 6)
             || (s.step == 3 && |Strip(input)| < 5)
             || (s.step == 5 && |Strip(input)| < 2)
    ensures AnswerTurn(s, input).0 == s
  {
  }

  /** The add flow stores the phone as its key, and the key has at least 6 digits. */
  lemma AddStoresPhoneKey(s: Session, input: string)
    requires s.mode == AddFlow && s.step == 2 && Plausible(Strip(input))
    ensures var s' := AnswerTurn(s, input).0;
      && s'.step == 3
      && s'.data[PhoneAnswer] == NormalizePhone(Strip(input))
      && NormalizePhone(s'.data[PhoneAnswer]) == s'.data[PhoneAnswer]
  {
    NormalizeIdempotent(Strip(input));
  }

  /** A skipped website is stored as "", any other answer as typed (stripped). */
  lemma AddWebsiteAnswer(s: Session, input: string)
    requires s.mode == AddFlow && s.step == 4
    ensures var s' := AnswerTurn(s, input).0;
      s'.step == 5 &&
      s'.data[WebsiteAnswer] == (if Lower(Strip(input)) in WebsiteSkips then "" else Strip(input))
  {
  }

  /** A city answer of "skip" or "none" (in any case) is stored as "", as is an empty one. */
  lemma PlaceSkipIsEmpty(input: string)
    requires Lower(Strip(input)) in PlaceSkips
    ensures PlaceAnswer(input) == ""
  {
  }

  /**
   * The last answer adds the listing the answers describe, with no subcategory and no area;
   * the session is reset whatever happens, so no current business survives the flow.
   */
  lemma AddFinishes(s: Session, rows: seq<Listing>, input: string, env: Env, f: Faults)
    requires s.mode == AddFlow && s.step == 7 && !f.add
    ensures var (s', rows', r) := AddTurn(s, rows, input, env, f);
      var a := ListingOf(s.data[StateAnswer := PlaceAnswer(input)]);
      && s' == Fresh
      && rows' == AddOutcome(rows, a, env.createdAt).0
      && a.subcategory == "" && a.area == ""
      && (r.Added? ==> r.id == AddOutcome(rows, a, env.createdAt).1 && r.listing == a)
  {
    assert AddTurn(s, rows, input, env, f) == AddFinalTurn(s, rows, input, env, f);
    AddFinalOutcome(s, rows, input, env, f);
  }

  lemma AddFinalOutcome(s: Session, rows: seq<Listing>, input: string, env: Env, f: Faults)
    requires !f.add
    ensures var (s', rows', r) := AddFinalTurn(s, rows, input, env, f);
      var a := ListingOf(s.data[StateAnswer := PlaceAnswer(input)]);
      && s' == Fresh
      && rows' == AddOutcome(rows, a, env.createdAt).0
      && a.subcategory == "" && a.area == ""
      && (r.Added? ==> r.id == AddOutcome(rows, a, env.createdAt).1 && r.listing == a)
  {
  }

  /**
   * Going through the add flow a second time with the same answers finds the first
   * listing again: the table does not grow.
   */
  lemma AddFlowTwiceAddsOnce(s: Session, rows: seq<Listing>, input: string, env: Env, env2: Env, f: Faults)
    requires !f.add
    ensures var rows1 := AddFinalTurn(s, rows, input, env, f).1;
      AddFinalTurn(s, rows1, input, env2, f).1 == rows1
  {
    var a := ListingOf(s.data[StateAnswer := PlaceAnswer(input)]);
    AddIdempotent(rows, a, env.createdAt, env2.createdAt);
  }

  /** At step 2 of the update flow an unknown choice changes nothing. */
  lemma UpdateUnknownFieldStays(s: Session, rows: seq<Listing>, input: string, f: Faults)
    requires s.mode == UpdateFlow && s.step == 2
    requires Lower(Strip(input)) !in DoneWords && SelectorAsWritten(Lower(Strip(input))).None?
    ensures UpdateTurn(s, rows, input, f) == (s, rows, UnknownField)
  {
  }

  /**
   * A known choice records its key and moves to step 3, leaving the rest of the session as
   * it was; the key is an allowed column for every choice but "3".
   */
  lemma UpdateKnownFieldAdvances(s: Session, rows: seq<Listing>, input: string, f: Faults)
    requires s.mode == UpdateFlow && s.step == 2
    requires Lower(Strip(input)) !in DoneWords && SelectorAsWritten(Lower(Strip(input))).Some?
    ensures var (s', rows', r) := UpdateTurn(s, rows, input, f);
      var key := SelectorAsWritten(Lower(Strip(input))).value;
      && s' == s.(data := s.data[FieldToUpdate := key], step := 3) && rows' == rows
      && r == AskNewValue(key, if s.current.Some? then ValueOf(s.current.value, key) else "")
      && (ParseColumn(key).Some? <==> Lower(Strip(input)) != "3")
  {
    SelectorAsWrittenKeys(Lower(Strip(input)));
  }

  /**
   * The selector "3" as the flow runs it: step 2 records "phone" and shows "Not set"; then
   * any non-empty value is refused with "not updated", the session stays at step 3 and the
   * table is untouched, whatever the rows, the faults and the listing.
   */
  lemma ChoiceThreeNeverUpdates(s: Session, rows: seq<Listing>, input: string, value: string, f: Faults)
    requires s.mode == UpdateFlow && s.step == 2
    requires Lower(Strip(input)) == "3" && Strip(value) != ""
    ensures var s1 := UpdateTurn(s, rows, input, f).0;
      && UpdateTurn(s, rows, input, f).2 == AskNewValue("phone", "")
      && s1.step == 3 && s1.data[FieldToUpdate] == "phone"
      && UpdateTurn(s1, rows, value, f) == (s1, rows, NotUpdated("phone"))
  {
    PhoneIsNoColumn();
    var s1 := UpdateTurn(s, rows, input, f).0;
    assert s1 == s.(data := s.data[FieldToUpdate := "phone"], step := 3);
    assert UpdateTurn(s1, rows, value, f) == UpdateValueTurn(s1, rows, value, f);
    assert UpdateValueTurn(s1, rows, value, f) == WriteTurn(s1, rows, "phone", Strip(value), f);
    var id := if s1.current.Some? then Some(s1.current.value.id) else None;
    PhoneKeyWriteFails(rows, id, Strip(value), Get(s1.data, LookupPhone), f.updateById, f.updateByPhone);
  }

  /** Writing the key "phone" fails by id and by phone alike, and leaves the rows as they were. */
  lemma PhoneKeyWriteFails(rows: seq<Listing>, id: Option<int>, value: string, phone: string,
                           failsById: bool, failsByPhone: bool)
    ensures WriteValue(rows, id, map["phone" := Some(value)], phone, failsById, failsByPhone) == (false, rows)
  {
    SelectorThreeAsWrittenNeverUpdates(rows, id, value, "");
    SelectorThreeAsWrittenNeverUpdates(rows, None, value, phone);
  }

  /** The intended step 2: every known choice, "3" included, records an allowed column. */
  lemma IntendedChoiceNamesColumn(s: Session, input: string)
    requires Lower(Strip(input)) !in DoneWords && Selector(Lower(Strip(input))).Some?
    ensures var s' := IntendedChooseTurn(s, input).0;
      s'.step == 3 && s'.data[FieldToUpdate] == Selector(Lower(Strip(input))).value &&
      ParseColumn(s'.data[FieldToUpdate]).Some?
  {
    SelectorNamesColumn(Lower(Strip(input)));
  }

  /**
   * After a failed write the reply says to type "done" to exit, but step 3 takes any text that
   * is not empty as the new value, "done" included: it is written to the chosen key, and after
   * the choice "3" the user stays at step 3 with the same reply. (A cancel word never gets
   * here, `ActiveDispatch`; "done" is none, `DoneIsNoCancel`.)
   */
  lemma DoneAtValueStepIsWritten(s: Session, rows: seq<Listing>, input: string, f: Faults)
    requires Valid(s) && s.mode == UpdateFlow && s.step == 3 && Strip(input) != ""
    ensures UpdateTurn(s, rows, input, f) == WriteTurn(s, rows, s.data[FieldToUpdate], Strip(input), f)
    ensures s.data[FieldToUpdate] == "phone" ==> UpdateTurn(s, rows, input, f) == (s, rows, NotUpdated("phone"))
  {
    assert UpdateTurn(s, rows, input, f) == UpdateValueTurn(s, rows, input, f);
    assert UpdateValueTurn(s, rows, input, f) == WriteTurn(s, rows, s.data[FieldToUpdate], Strip(input), f);
    if s.data[FieldToUpdate] == "phone" {
      var id := if s.current.Some? then Some(s.current.value.id) else None;
      PhoneKeyWriteFails(rows, id, Strip(input), Get(s.data, LookupPhone), f.updateById, f.updateByPhone);
    }
  }

  /** "done" is such a text: not empty, and no cancel word, although it ends step 2. */
  lemma DoneIsNoCancel()
    ensures Strip("done") == "done" && !IsCancel("done") && Lower("done") in DoneWords
  {
    DoneIsLower();
    StripNoop("done");
  }

  lemma DoneIsLower()
    ensures Lower("done") == "done"
  {
    var d := "done";
    assert Lower(d)[0] == 'd' && Lower(d)[1] == 'o' && Lower(d)[2] == 'n' && Lower(d)[3] == 'e';
  }

  /**
   * The intended step 3: after a write that failed and left everything as it was, "done"
   * (or another word that ends step 2) ends the flow, as the failure message says.
   */
  lemma IntendedDoneExitsAfterFailure(s: Session, rows: seq<Listing>, value: string, input: string, f: Faults)
    requires Valid(s) && s.mode == UpdateFlow && s.step == 3
    requires IntendedUpdateValueTurn(s, rows, value, f).2.NotUpdated?
    requires Lower(Strip(input)) in DoneWords
    ensures var (s1, rows1, _) := IntendedUpdateValueTurn(s, rows, value, f);
      && s1 == s && rows1 == rows
      && IntendedUpdateValueTurn(s1, rows1, input, f) == (Fresh, rows, UpdateComplete)
  {
    UpdateValueOutcomes(s, rows, value, f);
    assert UpdateTurn(s, rows, value, f) == UpdateValueTurn(s, rows, value, f);
  }

  /** "done", "finish" and "no" at step 2 end the flow. */
  lemma UpdateDoneResets(s: Session, rows: seq<Listing>, input: string, f: Faults)
    requires s.mode == UpdateFlow && s.step == 2 && Lower(Strip(input)) in DoneWords
    ensures UpdateTurn(s, rows, input, f) == (Fresh, rows, UpdateComplete)
  {
  }

  /**
   * Step 3: an empty value stays at step 3; a failed update stays at step 3 with the table
   * unchanged; a success returns to step 2; an error after writing the table resets.
   */
  lemma UpdateValueOutcomes(s: Session, rows: seq<Listing>, input: string, f: Faults)
    requires Valid(s) && s.mode == UpdateFlow && s.step == 3
    ensures var (s', rows', r) := UpdateTurn(s, rows, input, f);
      && (Strip(input) == "" ==> s' == s && rows' == rows)
      && (r.NotUpdated? ==> s' == s && rows' == rows)
      && (r.Updated? ==> s'.mode == UpdateFlow && s'.step == 2 && s'.data == s.data)
      && (r.UpdateError? ==> s' == Fresh)
      && (r.NotUpdated? || r.Updated? || r.UpdateError? || r == EmptyValue)
  {
  }

  /** A storage error inside both `update_business` calls makes the step-3 write fail without a change. */
  lemma UpdateStorageErrorChangesNothing(s: Session, rows: seq<Listing>, input: string, f: Faults)
    requires Valid(s) && s.mode == UpdateFlow && s.step == 3 && f.updateById && f.updateByPhone
    ensures UpdateTurn(s, rows, input, f).1 == rows && UpdateTurn(s, rows, input, f).0 == s
  {
    assert UpdateTurn(s, rows, input, f) == UpdateValueTurn(s, rows, input, f);
    if Strip(input) != "" {
      var key := s.data[FieldToUpdate];
      assert UpdateValueTurn(s, rows, input, f) == WriteTurn(s, rows, key, Strip(input), f);
    }
  }

  /**
   * A storage error inside the call by id alone leaves the write to the call by phone: the
   * table becomes what `update_business` by phone makes of it, and that call decides the reply.
   */
  lemma IdFaultFallsBackToPhone(s: Session, rows: seq<Listing>, input: string, f: Faults)
    requires Valid(s) && s.mode == UpdateFlow && s.step == 3 && Strip(input) != ""
    requires f.updateById && !f.updateByPhone
    ensures var key := s.data[FieldToUpdate];
      var phone := Get(s.data, LookupPhone);
      var id := Some(s.current.value.id);
      var (ok, rows2) := UpdateEffect(rows, None, map[key := Some(Strip(input))], phone, false);
      var (s', rows', r) := UpdateTurn(s, rows, input, f);
      && (phone == "" ==> (s', rows', r) == (s, rows, NotUpdated(key)))
      && (phone != "" && !ok ==> (s', rows', r) == (s, rows, NotUpdated(key)))
      && (phone != "" && ok && f.read ==> (s', rows', r) == (Fresh, rows2, UpdateError))
      && (phone != "" && ok && !f.read ==>
            (s', rows', r) == (s.(step := 2, current := Refreshed(rows2, phone, id, s.current)), rows2,
                               Updated(key, Strip(input), Refreshed(rows2, phone, id, s.current))))
  {
    var key := s.data[FieldToUpdate];
    assert UpdateTurn(s, rows, input, f) == UpdateValueTurn(s, rows, input, f);
    assert UpdateValueTurn(s, rows, input, f) == WriteTurn(s, rows, key, Strip(input), f);
    IdFaultWrite(rows, Some(s.current.value.id), map[key := Some(Strip(input))], Get(s.data, LookupPhone));
  }

  /** With the call by id failing, the write is the call by phone, or nothing without a phone. */
  lemma IdFaultWrite(rows: seq<Listing>, id: Option<int>, updates: map<string, Option<string>>, phone: string)
    ensures WriteValue(rows, id, updates, phone, true, false) ==
      if phone != "" then UpdateEffect(rows, None, updates, phone, false) else (false, rows)
  {
  }

  /**
   * A successful step-3 write sets the chosen column on the current listing's row, found by
   * its id, and changes no other column of any row.
   */
  lemma UpdateWritesChosenColumn(s: Session, rows: seq<Listing>, input: string, f: Faults, i: int, c: Column)
    requires Valid(s) && s.mode == UpdateFlow && s.step == 3 && Strip(input) != ""
    requires 0 <= i < |rows|
    requires FirstRowidWithId(rows, s.current.value.id) == Some(rows[i].rowid)
    requires !f.updateById
    ensures var rows' := UpdateTurn(s, rows, input, f).1;
      var key := s.data[FieldToUpdate];
      && |rows'| == |rows|
      && (ParseColumn(key).None? ==> rows' == rows)
      && (ParseColumn(key).Some? ==>
            Field(rows'[i], c) == (if c == ParseColumn(key).value then CleanValue(ParseColumn(key).value, Some(Strip(input))) else Field(rows[i], c)))
      && forall j | 0 <= j < |rows| && rows[j].rowid != rows[i].rowid :: rows'[j] == rows[j]
  {
    var key := s.data[FieldToUpdate];
    assert UpdateTurn(s, rows, input, f) == UpdateValueTurn(s, rows, input, f);
    assert UpdateValueTurn(s, rows, input, f) == WriteTurn(s, rows, key, Strip(input), f);
    if ParseColumn(key).Some? {
      SingleColumnUpdate(rows, s.current.value.id, key, Strip(input), i, c);
      WriteTurnById(s, rows, key, Strip(input), f);
    } else {
      assert key == "phone";
      PhoneKeyWriteFails(rows, Some(s.current.value.id), Strip(input), Get(s.data, LookupPhone), f.updateById, f.updateByPhone);
    }
  }

  /** When the write by id succeeds, the rows are what that one write leaves. */
  lemma WriteTurnById(s: Session, rows: seq<Listing>, key: string, value: string, f: Faults)
    requires s.current.Some?
    requires UpdateEffect(rows, Some(s.current.value.id), map[key := Some(value)], "", f.updateById).0
    ensures WriteTurn(s, rows, key, value, f).1 ==
      UpdateEffect(rows, Some(s.current.value.id), map[key := Some(value)], "", f.updateById).1
  {
  }

  /** `update_business` by id with one allowed key writes that column of the id's row and no other. */
  lemma SingleColumnUpdate(rows: seq<Listing>, id: int, key: string, value: string, i: int, c: Column)
    requires ParseColumn(key).Some? && 0 <= i < |rows|
    requires FirstRowidWithId(rows, id) == Some(rows[i].rowid)
    ensures var (ok, rows') := UpdateEffect(rows, Some(id), map[key := Some(value)], "", false);
      var col := ParseColumn(key).value;
      && ok && |rows'| == |rows|
      && Field(rows'[i], c) == (if c == col then CleanValue(col, Some(value)) else Field(rows[i], c))
      && forall j | 0 <= j < |rows| && rows[j].rowid != rows[i].rowid :: rows'[j] == rows[j]
  {
    var col := ParseColumn(key).value;
    var f := FilteredUpdates(map[key := Some(value)]);
    SingleColumnEffect(rows, id, key, value, i);
    OneColumnFiltered(key, value);
    assert col in f && f[col] == CleanValue(col, Some(value));
    OnlyMatchedFieldsChange(rows, [rows[i].rowid], f, i, c);
    forall j | 0 <= j < |rows| && rows[j].rowid != rows[i].rowid
      ensures UpdatedRows(rows, [rows[i].rowid], f)[j] == rows[j]
    {
      OnlyMatchedFieldsChange(rows, [rows[i].rowid], f, j, c);
    }
  }

  /** The write by id with one allowed key succeeds and updates the id's row alone. */
  lemma SingleColumnEffect(rows: seq<Listing>, id: int, key: string, value: string, i: int)
    requires ParseColumn(key).Some? && 0 <= i < |rows|
    requires FirstRowidWithId(rows, id) == Some(rows[i].rowid)
    ensures UpdateEffect(rows, Some(id), map[key := Some(value)], "", false)
      == (true, UpdatedRows(rows, [rows[i].rowid], FilteredUpdates(map[key := Some(value)])))
  {
    var updates := map[key := Some(value)];
    OneColumnFiltered(key, value);
    assert ParseColumn(key).value in FilteredUpdates(updates);
    assert MatchedRowids(rows, Some(id), "") == [rows[i].rowid];
    assert key in updates;
    assert UpdateSucceeds(rows, Some(id), updates, "");
  }

  /** A dictionary with one allowed key filters to that one column. */
  lemma OneColumnFiltered(key: string, value: string)
    requires ParseColumn(key).Some?
    ensures FilteredUpdates(map[key := Some(value)]) ==
      map[ParseColumn(key).value := CleanValue(ParseColumn(key).value, Some(value))]
  {
    var col := ParseColumn(key).value;
    var updates := map[key := Some(value)];
    forall d | d in AllColumns && ColumnName(d) in updates
      ensures d == col
    {
      ColumnNameInjective(d, col);
    }
    assert col in AllColumns;
  }

  /** The show flow finds the newest listing under the phone's key, and changes nothing else. */
  lemma ShowFindsNewest(s: Session, rows: seq<Listing>, input: string)
    requires s.step == 1 && Plausible(Strip(input))
    ensures var (s', r) := ShowTurn(s, rows, input);
      var key := NormalizePhone(Strip(input));
      && s'.mode == Idle && s'.step == 0 && s'.data == map[]
      && (r.Found? <==> exists i | 0 <= i < |rows| :: MatchesKey(rows[i], key))
      && (r.Found? ==> s'.current == Some(r.business) && r.business in rows && MatchesKey(r.business, key)
                       && forall x | x in rows && MatchesKey(x, key) :: LessEq(x.createdAt, r.business.createdAt))
  {
    ByPhoneNewest(rows, Strip(input));
  }

  /**
   * Step 1 of the update flow: an implausible phone asks again; otherwise the newest listing
   * under the phone's key becomes current and the flow moves to step 2, or, when there is none,
   * the session resets. The table is never touched.
   */
  lemma UpdateLookupFindsNewest(s: Session, rows: seq<Listing>, input: string, f: Faults)
    requires s.step == 1
    ensures var (s', rows', r) := UpdateTurn(s, rows, input, f);
      var phone := Strip(input);
      var key := NormalizePhone(phone);
      && rows' == rows
      && (!Plausible(phone) ==> s' == s && r == InvalidPhone)
      && (Plausible(phone) ==> (r.ChooseField? <==> exists i | 0 <= i < |rows| :: MatchesKey(rows[i], key)))
      && (Plausible(phone) && !r.ChooseField? ==> s' == Fresh && r == NotFound(phone))
      && (r.ChooseField? ==>
            && s' == s.(current := Some(r.business), data := s.data[LookupPhone := phone], step := 2)
            && r.business in rows && MatchesKey(r.business, key)
            && forall x | x in rows && MatchesKey(x, key) :: LessEq(x.createdAt, r.business.createdAt))
  {
    if Plausible(Strip(input)) {
      ByPhoneNewest(rows, Strip(input));
    }
  }

  /** The listings under a plausible phone: some exactly when a row has its key, the newest first. */
  lemma ByPhoneNewest(rows: seq<Listing>, phone: string)
    requires Plausible(phone)
    ensures var found := ByPhone(rows, phone);
      var key := NormalizePhone(phone);
      && (found != [] <==> exists i | 0 <= i < |rows| :: MatchesKey(rows[i], key))
      && (found != [] ==> found[0] in rows && MatchesKey(found[0], key)
                          && forall x | x in rows && MatchesKey(x, key) :: LessEq(x.createdAt, found[0].createdAt))
  {
    var key := NormalizePhone(phone);
    var found := ByPhone(rows, phone);
    MatchingRowsMembers(rows, key);
    SortMembers(MatchingRows(rows, key));
    SortSorted(MatchingRows(rows, key));
    if exists i | 0 <= i < |rows| :: MatchesKey(rows[i], key) {
      var i :| 0 <= i < |rows| && MatchesKey(rows[i], key);
      assert rows[i] in found;
    }
    if found != [] {
      assert found[0] in found;
      forall x | x in rows && MatchesKey(x, key)
        ensures LessEq(x.createdAt, found[0].createdAt)
      {
        assert x in found;
        var j :| 0 <= j < |found| && found[j] == x;
        if j > 0 {
          assert LessEq(found[j].createdAt, found[0].createdAt);
        }
      }
    }
  }

  // ---------------- search replies and the refresh ---------------- //

  /**
   * The search text has no whitespace at either end and never two side by side: splitting
   * and re-joining it gives it back, and it holds the words left after the intent phrases
   * are cut.
   */
  lemma SearchTextIsNormal(input: string)
    ensures var q := ExtractSearchQuery(input);
      && Split(q) == Split(RemovePhrases(Strip(Lower(input)), SearchNoise))
      && Join(Split(q)) == q
      && (q != "" ==> !IsSpace(q[0]) && !IsSpace(q[|q| - 1]))
      && forall i | 0 <= i < |q| - 1 :: !(IsSpace(q[i]) && IsSpace(q[i + 1]))
  {
    var ws := Split(RemovePhrases(Strip(Lower(input)), SearchNoise));
    StripJoin(ws);
    SplitJoin(ws);
    JoinSingleSpaces(ws);
  }

  /** Removing phrases none of which occurs leaves the text as it is. */
  lemma {:induction false} RemovePhrasesAbsent(q: string, ws: seq<string>)
    requires forall j | 0 <= j < |ws| :: !Contains(q, ws[j])
    ensures RemovePhrases(q, ws) == q
    decreases |ws|
  {
    if ws != [] {
      if ws[0] != "" {
        ReplaceAllAbsent(q, ws[0], "");
      }
      RemovePhrasesAbsent(q, ws[1..]);
    }
  }

  /** A request with none of the intent phrases is searched as its own words, single-spaced. */
  lemma SearchTextWithoutNoise(input: string)
    requires forall j | 0 <= j < |SearchNoise| :: !Contains(Strip(Lower(input)), SearchNoise[j])
    ensures ExtractSearchQuery(input) == Join(Split(Strip(Lower(input))))
  {
    RemovePhrasesAbsent(Strip(Lower(input)), SearchNoise);
    StripJoin(Split(Strip(Lower(input))));
  }

  /**
   * The table answers first: the reply lists local rows exactly when storage did not fail
   * and the cascade over the corrected keyword and location finds rows, and then it carries
   * those rows, at most five; when the ranking only reorders, every one is a row of the table.
   */
  lemma SearchReplyLocal(rows: seq<Listing>, query: string, env: Env, fails: bool, suggest: bool)
    ensures var (k0, l0) := ReadKeywordLocation(QueryWords(query));
      var k := CorrectedPart(k0, true, env.corpus, env.closeMatches).0;
      var l := CorrectedPart(l0, true, env.corpus, env.closeMatches).0;
      var found := SearchCascade(rows, k, l, query, env.rank);
      var r := SearchReply(rows, query, env, fails, suggest);
      && (r.LocalResults? <==> !fails && found != [])
      && (r.LocalResults? ==> r.results == found && r.keyword == k && r.location == l && |r.results| <= 5)
      && (r.LocalResults? && RankPermutes(env.rank) ==> forall x | x in r.results :: x in rows)
  {
    var (k0, l0) := ReadKeywordLocation(QueryWords(query));
    var k := CorrectedPart(k0, true, env.corpus, env.closeMatches).0;
    var l := CorrectedPart(l0, true, env.corpus, env.closeMatches).0;
    var found := SearchCascade(rows, k, l, query, env.rank);
    var fo := SmartSearchOf(rows, query, env, fails);
    assert fo.0 == (if fails then [] else found);
    assert !fails ==> fo.1 == k && fo.2 == l;
    ReplyForLocal(fo, query, env, suggest);
    AtMostFive(rows, k, l, query, env.rank);
    if RankPermutes(env.rank) {
      ResultsSatisfyWinner(rows, k, l, query, env.rank);
    }
  }

  lemma ReplyForLocal(fo: (seq<Listing>, string, string, bool), query: string, env: Env, suggest: bool)
    ensures var r := ReplyFor(fo, query, env, suggest);
      (r.LocalResults? <==> fo.0 != []) &&
      (r.LocalResults? ==> r.results == fo.0 && r.keyword == fo.1 && r.location == fo.2 && r.corrected == fo.3)
  {
  }

  /**
   * When the table has nothing, the web is asked for "keyword in location", else the
   * keyword, else the query itself; its answer alone decides the kind of reply, which
   * always names the query as typed.
   */
  lemma SearchReplyOnline(rows: seq<Listing>, query: string, env: Env, fails: bool, suggest: bool)
    ensures var (_, k, l, _) := SmartSearchOf(rows, query, env, fails);
      var asked := if k != "" && l != "" then k + " in " + l else if k != "" then k else query;
      var r := SearchReply(rows, query, env, fails, suggest);
      !r.LocalResults? ==>
        && (r.OnlineResults? <==> env.online(asked) == OnlineFound)
        && (r.NoResults? <==> env.online(asked) == OnlineEmpty)
        && (r.OnlineFailed? <==> env.online(asked) == OnlineError)
        && (r.OnlineResults? ==> r.query == query && r.keyword == k && r.location == l)
        && (r.NoResults? ==> r.query == query && r.suggestions == SuggestionsFor(query, env, suggest))
        && (r.OnlineFailed? ==> r.query == query)
  {
    ReplyForOnline(SmartSearchOf(rows, query, env, fails), query, env, suggest);
  }

  lemma ReplyForOnline(fo: (seq<Listing>, string, string, bool), query: string, env: Env, suggest: bool)
    ensures var (_, k, l, _) := fo;
      var asked := if k != "" && l != "" then k + " in " + l else if k != "" then k else query;
      var r := ReplyFor(fo, query, env, suggest);
      !r.LocalResults? ==>
        && (r.OnlineResults? <==> env.online(asked) == OnlineFound)
        && (r.NoResults? <==> env.online(asked) == OnlineEmpty)
        && (r.OnlineFailed? <==> env.online(asked) == OnlineError)
        && (r.OnlineResults? ==> r.query == query && r.keyword == k && r.location == l)
        && (r.NoResults? ==> r.query == query && r.suggestions == SuggestionsFor(query, env, suggest))
        && (r.OnlineFailed? ==> r.query == query)
  {
  }

  /**
   * Spelling suggestions come only with "no results", at most three of them, taken in order
   * from `correct_spelling`'s, and only when `suggest` (the search flow) asks for them.
   */
  lemma SearchSuggestions(query: string, env: Env, suggest: bool)
    ensures var sg := SuggestionsFor(query, env, suggest);
      var all := CorrectSpellingSpec(query, env.corpus, env.closeMatches).suggestions;
      && |sg| <= 3 && |sg| <= |all|
      && (!suggest ==> sg == [])
      && (suggest ==> sg == all[..|sg|] && (|all| >= 3 ==> |sg| == 3) && (|all| < 3 ==> sg == all))
  {
  }

  /** A search reply is one of the four kinds, and never asks what to find. */
  lemma SearchReplyKinds(rows: seq<Listing>, query: string, env: Env, fails: bool, suggest: bool)
    ensures var r := SearchReply(rows, query, env, fails, suggest);
      r.LocalResults? || r.OnlineResults? || r.NoResults? || r.OnlineFailed?
  {
    ReplyForKinds(SmartSearchOf(rows, query, env, fails), query, env, suggest);
  }

  lemma ReplyForKinds(fo: (seq<Listing>, string, string, bool), query: string, env: Env, suggest: bool)
    ensures var r := ReplyFor(fo, query, env, suggest);
      r.LocalResults? || r.OnlineResults? || r.NoResults? || r.OnlineFailed?
  {
  }

  /**
   * A search request outside any flow asks what to find exactly when its search text is
   * shorter than two characters; otherwise it is the search of that text, without spelling
   * suggestions.
   */
  lemma DirectSearchOutcomes(rows: seq<Listing>, input: string, env: Env, f: Faults)
    ensures var q := ExtractSearchQuery(input);
      var r := DirectSearchReply(rows, input, env, f);
      && (r == AskWhatToFind <==> |q| < 2)
      && (|q| >= 2 ==> r == SearchReply(rows, q, env, f.search, false))
      && (r.NoResults? ==> r.suggestions == [])
      && (r.LocalResults? || r.OnlineResults? || r.NoResults? || r.OnlineFailed? || r == AskWhatToFind)
  {
    var q := ExtractSearchQuery(input);
    if |q| >= 2 {
      SearchReplyKinds(rows, q, env, f.search, false);
      SearchReplyOnline(rows, q, env, f.search, false);
    }
  }

  /**
   * The listing shown after a write: with no phone or nothing under it, the one shown
   * before; otherwise a row of the table under the phone's key, and the row with the
   * listing's id whenever the phone's rows include one.
   */
  lemma RefreshedShowsRereadRow(rows: seq<Listing>, phone: string, id: Option<int>, current: Option<Listing>, i: int)
    ensures var r := Refreshed(rows, phone, id, current);
      var key := NormalizePhone(phone);
      && ((key == "" || forall j | 0 <= j < |rows| :: !MatchesKey(rows[j], key)) ==> r == current)
      && (key != "" && 0 <= i < |rows| && MatchesKey(rows[i], key) ==>
            r.Some? && r.value in rows && MatchesKey(r.value, key))
      && (key != "" && 0 <= i < |rows| && MatchesKey(rows[i], key) && id.Some? && rows[i].id == id.value ==>
            r.Some? && r.value.id == id.value)
  {
    var key := NormalizePhone(phone);
    if phone != "" {
      var found := ByPhone(rows, phone);
      MatchingRowsMembers(rows, key);
      SortMembers(MatchingRows(rows, key));
      if found != [] {
        var b := SameOrFirst(found, id);
        assert b in found by {
          if !(id.Some? && FindById(found, id.value).Some?) {
            assert found[0] in found;
          }
        }
      }
      if key != "" && 0 <= i < |rows| && MatchesKey(rows[i], key) {
        assert rows[i] in found;
      }
    }
  }
}
