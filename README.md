# Business-listing chatbot: a verified model of its core

The chatbot answers a user's messages about a table of business listings
(`google_maps_listings`). A message either continues a conversation flow that is
already running or starts one from its intent. The flows are:

- show a business by its phone number;
- update one field of it;
- add a new business, answer by answer;
- search the table, then the web.

The rules under those flows are:

- phone numbers are compared by their digits only (`normalize_phone`);
- `get_businesses_by_phone` lists the rows with a given phone key, newest first;
- `update_business` writes only allowed columns, matching by id or else by phone;
- `add_business` returns the existing id for a duplicate instead of inserting;
- the search parses "keyword location", corrects spelling against the table's
  vocabulary and tries four searches in order;
- `is_bot` is the spam filter applied to each message.

The project models these in Dafny:

| module | models |
|---|---|
| `Text` | the ASCII string operations the source uses (`lower`, `strip`, `split`, `join`, `in`, `replace`, `title`, string order) |
| `PhoneIdentity` | `normalize_phone` |
| `BotDetector` | `is_bot` |
| `IntentClassifier` | `is_greeting`, `detect_intent` |
| `QueryParser` | `parse_search_query` |
| `SpellCorrector` | `correct_spelling` |
| `Listings` | a row, the editable columns and the table as a class whose `rows` the statements reassign |
| `BusinessByPhone` | `get_businesses_by_phone`, `get_business_by_id`, `get_latest_business` |
| `BusinessUpdate` | `update_business` |
| `BusinessAdd` | `add_business` |
| `SearchResolver` | `smart_search_business` |
| `FlowSpec` | the flow engine as a state machine on values, the session invariant and what the flows promise |
| `FlowEngine` | the flow engine as the source runs it: a `ChatSession` class whose fields are `chat_mode`, `chat_step`, `chat_data` and `current_business`, with one method per handler, each proved to make the `FlowSpec` transition |

Dependencies the code calls but does not compute are parameters:

- the search vocabulary (`get_all_searchable_terms`);
- `difflib.get_close_matches`, given as a function from a word to its ranked candidates;
- the `ORDER BY reviews_average DESC, reviews_count DESC` ranking;
- the web search with its ranking, which answers found, empty or error;
- the timestamp of a new row;
- storage errors, as flags (`FlowSpec.Faults`): one for the search, one each for the two
  `update_business` calls of update step 3 (by id, then by phone), one for `add_business`,
  and one for the re-read that follows a successful write.

Where the code and its documentation disagree, the model follows the code:

- After a successful add, `current_business` is set and then cleared by the
  reset that follows (app.py:987-993). The flow therefore ends with no current
  business (`FlowSpec.AddFinishes`).
- "done" in the update flow resets the session before reading
  `current_business`, so the closing message shows no details (app.py:766-770).
- No code sets `chat_mode` to `"search"`. The search flow handler is modelled,
  but search requests are answered directly (`FlowSpec.SearchFlowNeverEntered`).
- `add_business` returning the id 0 is read as a failure by `if new_id:`
  (app.py:987). The add flow then answers `AddFailed`.
- The menu entry "3" of the update flow records the key "phone" (app.py:779), which is
  not an allowed column. The flow uses this mapping (`FlowSpec.SelectorAsWritten`), so a
  value entered after "3" is never written (`FlowSpec.ChoiceThreeNeverUpdates`). The
  intended mapping, where "3" means `phone_number`, is modelled beside it
  (`FlowSpec.Selector`, `FlowSpec.IntendedChooseTurn`) and listed under "## Findings".
- After a failed write, update step 3 answers that "done" exits (app.py:877-880), but
  step 3 has no such test (app.py:810-824): "done" is written as the new value
  (`FlowSpec.DoneAtValueStepIsWritten`). The flow follows the code; the step as its message
  describes it is modelled beside it (`FlowSpec.IntendedUpdateValueTurn`) and listed under
  "## Findings".

## Model

| member | source | states |
|---|---|---|
| PhoneIdentity.NormalizePhone | business/business_utils.py:6-23 | the key holds only digits and is no longer than the phone string |
| PhoneIdentity.NormalizeAppend | business/business_utils.py:23 | the key of a concatenation is the concatenation of the keys |
| PhoneIdentity.NormalizeDigits | business/business_utils.py:23 | a string of digits is its own key |
| PhoneIdentity.NormalizeIdempotent | business/business_utils.py:6-23 | normalising a key again changes nothing |
| PhoneIdentity.SpaceDropped | business/business_utils.py:16 | a space between two groups of digits is dropped, as "98733 12399" gives "9873312399" |
| PhoneIdentity.ExampleDigitsOnly | business/business_utils.py:17 | "9873312399" is its own key |
| PhoneIdentity.CountryCodeKept | business/business_utils.py:18 | a number laid out as "+1 (987) 331-2399" keys to its digit groups in order, country code first, for any digit groups |
| PhoneIdentity.GroupKeys | business/business_utils.py:18 | each symbol-led group of that layout keys to its digits |
| PhoneIdentity.NormalizeFour | business/business_utils.py:23 | the key of four pieces in a row is their four keys in a row |
| PhoneIdentity.SymbolsThenDigits | business/business_utils.py:23 | symbols followed by digits key to the digits |
| PhoneIdentity.NormalizeNoDigits | business/business_utils.py:23 | a string without digits has the empty key |
| PhoneIdentity.CountryCodeKey | business/business_utils.py:18-23 | "+1 9873312399" keys to the country code followed by the line |
| PhoneIdentity.CountryCodeSplitsIdentity | business/business_utils.py:18-23 | a leading country code gives a different key from the bare number |
| BotDetector.IsBot | core/bot_detector.py:3-24 | a message is a bot exactly when it is empty, or it is not a listed greeting (or prefixed by one) and either its stripped form is under 2 characters or it holds seven equal characters in a row |
| BotDetector.HasLongRunCorrect | core/bot_detector.py:21 | the single pass finds a run exactly when the regex `(.)\1{6,}` matches |
| BotDetector.LongRunFromCorrect | core/bot_detector.py:21 | from any position the pass finds a run exactly when one ends at or after it |
| BotDetector.GreetingBeatsRepeats | core/bot_detector.py:13-14 | "hiiiiiiiii" has a long run but is let through as a greeting |
| BotDetector.RepeatsAreBots | core/bot_detector.py:21-22 | the example "zzzzzzz", seven equal characters and no greeting, is a bot (the general rule is `IsBot`'s contract) |
| IntentClassifier.IsGreeting | app.py:62-73 | a message is a greeting when its lowered, stripped text holds a greeting phrase (stated by `GreetingOfNormalised` and `GreetingInsideWord`) |
| IntentClassifier.DetectIntent | app.py:75-127 | the first phrase list that matches decides the intent (stated by `DetectIntentCascade` and `SearchBeatsShow`) |
| IntentClassifier.DetectIntentCascade | app.py:75-127 | each intent is returned exactly when its phrase list matches and no list checked before it does |
| IntentClassifier.GreetingOfNormalised | app.py:62-73 | `is_greeting` gives the same answer on text that is already lowered and stripped |
| IntentClassifier.SearchBeatsShow | app.py:87-104 | a message with a search phrase and a show phrase is a search |
| IntentClassifier.GreetingInsideWord | app.py:69-72 | a greeting phrase anywhere inside a word makes the message a greeting |
| IntentClassifier.ShirtHoldsHi | app.py:69-72 | "find a shirt" holds "hi", so it is read as a greeting |
| QueryParser.ParseSearchQuery | app.py:292-324 | no words give ("", ""); one word is the keyword; otherwise the last word is the location and the words before it, joined, are the keyword |
| QueryParser.ReadingIsUnique | app.py:311-324 | the keyword and location are determined by the words left |
| QueryParser.RemoveRankingWords | app.py:300-306 | the removal loop equals the removal rounds applied word after word |
| QueryParser.SplitKeywordLocation | app.py:309-324 | splitting the cleaned text gives the reading of its words |
| QueryParser.KeywordWords | app.py:321-322 | the keyword splits back into the words before the location |
| QueryParser.ParseLosesNothing | app.py:309-324 | keyword and location together are exactly the words that were left |
| QueryParser.RemoveStopWordAbsent | app.py:301-306 | a round leaves a text alone when the word is not bordered by a space in it |
| QueryParser.PlainQueryKeepsWords | app.py:297-311 | a query free of bordered ranking words parses into its own words |
| QueryParser.DoubledStopWordSurvives | app.py:302 | one round on "x in in y" leaves "x in y", because `replace` does not rescan |
| SpellCorrector.CorrectSpelling | app.py:217-290 | the scans give the correction ladder's answer: unchanged for an empty vocabulary, a known or related query or a known word; otherwise the best whole-query match, or the word-by-word fix of a multi-word query |
| SpellCorrector.CorrectUnknown | app.py:246-290 | for a query no earlier rung leaves alone, the whole-query match or the word-by-word fix (with the loop over the words) gives the ladder's answer |
| SpellCorrector.RelatedScan | app.py:237-239 | true exactly when the query is part of an entry or an entry is part of the query |
| SpellCorrector.KnownWordScan | app.py:242-245 | true exactly when a word of three or more characters is an entry |
| SpellCorrector.FixEachWord | app.py:260-283 | each word is fixed as the word rule says, and something changed exactly when some word needed a fix |
| SpellCorrector.InTerms | app.py:271 | true exactly when the word occurs inside some entry |
| SpellCorrector.Take | app.py:249 | the first n entries of a list, or all of them when there are fewer |
| SpellCorrector.UncorrectedIsUnchanged | app.py:228-290 | with no correction the query comes back as given, with no suggestions |
| SpellCorrector.KnownQueryUnchanged | app.py:228-245 | an empty vocabulary, a known or related query, or a known word leaves the query unchanged |
| SpellCorrector.CorrectedMeansUnknown | app.py:228-245 | a corrected query is not known to the vocabulary in any of those ways |
| SpellCorrector.EmptyQueryUnchanged | app.py:237-239 | an empty query is never corrected |
| SpellCorrector.CorrectionShape | app.py:249-288 | a correction has one to three suggestions, the text agrees with the first ignoring case, and whole-query suggestions are vocabulary entries |
| SpellCorrector.WholeQueryCorrection | app.py:246-257 | past the earlier rungs, a query with close matches is corrected to the first of at most three, title-cased when the query begins with a capital, and those matches are the suggestions |
| SpellCorrector.WordByWordCorrection | app.py:259-287 | a query of several words with no whole-query match but a word that has one is corrected word by word: words that need it become their best match, the others stay, and the corrected text is the only suggestion |
| SpellCorrector.LowerCased | app.py:255-256 | title-casing the correction changes only its case |
| SpellCorrector.PrefixOfEntryUnchanged | app.py:237-239 | a query that begins a vocabulary entry (as "rest" begins "restaurant") is never corrected |
| Listings.ParseColumn | business/business_update.py:5-15 | a key is accepted exactly when it names one of the nine allowed columns |
| Listings.WithFields | business/business_update.py:86-92 | setting columns keeps the rowid, the id, the reviews and `created_at` |
| Listings.FieldOfWithFields | business/business_update.py:86-92 | exactly the columns set change, to the values given |
| Listings.MaxRowid | business/business_add.py:78-102 | the largest rowid in use, 0 for an empty table |
| BusinessByPhone.GetBusinessesByPhone | business/business_by_phone.py:5-46 | a phone without digits gives []; otherwise the rows whose phone key is the argument's key, newest first, each row once |
| BusinessByPhone.SortNewestFirst | business/business_by_phone.py:41-44 | the result is the stable `created_at` descending sort |
| BusinessByPhone.MatchingRowsMembers | business/business_by_phone.py:28-37 | a row is kept exactly when its phone key equals the key |
| BusinessByPhone.SortSorted | business/business_by_phone.py:42 | the sort puts newer rows first |
| BusinessByPhone.SortPermutation | business/business_by_phone.py:42 | the sort neither loses nor invents a row |
| BusinessByPhone.SortStable | business/business_by_phone.py:42 | rows with equal `created_at` keep their table order |
| BusinessByPhone.MatchingRowsDistinct | business/business_by_phone.py:28-37 | no row is returned twice |
| BusinessByPhone.SortDistinct | business/business_by_phone.py:42 | sorting keeps rows distinct |
| BusinessByPhone.GetBusinessById | business/business_by_phone.py:49-72 | None exactly when no row has the id; otherwise the first row with it |
| BusinessByPhone.GetLatestBusiness | business/business_by_phone.py:75-96 | None exactly for an empty table; otherwise a row with the highest id |
| BusinessUpdate.FilterUpdates | business/business_update.py:29-41 | the allowed keys with cleaned values: None as "", text stripped, a phone as its key |
| BusinessUpdate.UnknownKeyDropped | business/business_update.py:31-32 | a key naming no allowed column is dropped |
| BusinessUpdate.StoredPhoneIsKey | business/business_update.py:36-37 | a stored phone value holds digits only |
| BusinessUpdate.UpdateBusiness | business/business_update.py:17-102 | success exactly when there are allowed keys, some row matches and storage does not fail; on success the matched rows take the filtered values; otherwise nothing changes |
| BusinessUpdate.FindMatchedRowids | business/business_update.py:54-79 | the row with the id, else the row with that rowid, else every row with the phone's key |
| BusinessUpdate.SetFields | business/business_update.py:85-92 | the UPDATE statement sets the fields of the matched rows |
| BusinessUpdate.FindRowidById | business/business_update.py:59-62 | the rowid of the first row with the id |
| BusinessUpdate.FindRowid | business/business_update.py:65-68 | the id itself when a row has it as rowid |
| BusinessUpdate.FindRowidsByPhone | business/business_update.py:72-79 | the rowids of the rows with the key, in table order |
| BusinessUpdate.UpdatedRowsValid | business/business_update.py:86-92 | the rowids stay unique |
| BusinessUpdate.OnlyMatchedFieldsChange | business/business_update.py:86-92 | unmatched rows stay as they were; matched rows change only the filtered columns |
| BusinessUpdate.IdBeforePhone | business/business_update.py:57-71 | when a row has the id, it alone is updated and the phone is ignored |
| BusinessUpdate.PhoneMatchesAll | business/business_update.py:70-79 | without an id every row with the phone's key is updated |
| BusinessUpdate.NothingToUpdateFails | business/business_update.py:26-44 | no allowed key means failure whatever the rows |
| BusinessAdd.FirstDuplicate | business/business_add.py:33-59 | the first row matching name, address, area, city and state ignoring case and with an equal phone key, or None when there is none |
| BusinessAdd.AddBusiness | business/business_add.py:8-132 | a duplicate's id comes back with the table unchanged; otherwise one row is appended, with the next rowid, and its id comes back |
| BusinessAdd.AddIdempotent | business/business_add.py:33-59 | a second call with the same arguments returns the same id and changes nothing |
| BusinessAdd.NewRowIsSame | business/business_add.py:26 | a new row is a duplicate of the arguments that created it |
| BusinessAdd.AppendValid | business/business_add.py:78-102 | the new rowid keeps rowids unique |
| BusinessAdd.NewRowFoundByPhone | business/business_add.py:26 | the new row is found again under the phone it was added with |
| BusinessAdd.NewRowidIsFresh | business/business_add.py:78-102 | no existing row has the new rowid |
| SearchResolver.Select | app.py:366-429 | a row is selected exactly when it is in the table and satisfies the search's WHERE clause |
| SearchResolver.SmartSearch | app.py:326-436 | a storage error gives no rows and the uncorrected parts; otherwise the corrected keyword and location, whether either changed, and the cascade's rows |
| SearchResolver.CorrectPart | app.py:342-352 | a non-empty part is corrected when the correction says so |
| SearchResolver.RunCascade | app.py:359-429 | the four searches run in order, each only while nothing has been found |
| SearchResolver.AtMostFive | app.py:378 | never more than five rows |
| SearchResolver.CascadeIsWinner | app.py:359-429 | the result is what the first search that found something returns |
| SearchResolver.SearchEmpty | app.py:366-382 | a search finds nothing exactly when no row satisfies its WHERE clause |
| SearchResolver.ResultsSatisfyWinner | app.py:359-429 | every row returned is a table row satisfying the winning search |
| SearchResolver.BothPartsFirst | app.py:362-382 | with both parts and a row matching both, the combined search wins |
| SearchResolver.FallsBackToWholeQuery | app.py:415-429 | when no row matches the parts, the query as typed is searched |
| FlowSpec.FindById | app.py:848-853 | the first listing with the id, or None when there is none |
| FlowSpec.TurnPreservesValid | app.py:489-658 | every message keeps a valid session valid: each flow's step in range, earlier answers present, the add flow's phone stored as a key, and update step 3 holding a key `field_mapping` can record: an allowed column, or "phone" |
| FlowSpec.StartEntersStepOne | app.py:489-527 | with no flow, a message leaves the session alone or starts the show, update or add flow at step 1 |
| FlowSpec.CancelComesFirst | app.py:639-647 | in any flow a cancel word resets the session and leaves the table alone |
| FlowSpec.SearchFlowNeverEntered | app.py:489-632 | no message enters the search flow |
| FlowSpec.OnlyUpdateAndAddWrite | app.py:489-658 | only the update and add flows change the table |
| FlowSpec.ShowFindsNewest | app.py:660-704 | the show flow finds a listing exactly when some row has the phone's key; it is the newest such row; the session is reset with it as current |
| FlowSpec.AddAdvancesOneStep | app.py:892-1022 | the add flow stays, moves one step, or ends after the last answer with a reset session |
| FlowSpec.AddRejectsShortAnswers | app.py:896-959 | a short name, phone, address or category changes nothing |
| FlowSpec.AddStoresPhoneKey | app.py:909-922 | the phone is stored as its key of at least 6 digits |
| FlowSpec.AddWebsiteAnswer | app.py:936-946 | a skip word leaves the website empty; any other answer is stored stripped |
| FlowSpec.PlaceSkipIsEmpty | app.py:961-971 | "skip" or "none" as a city or state is stored as "" |
| FlowSpec.AddFinishes | app.py:968-1013 | the last answer adds the listing the answers describe, with no subcategory or area; the id shown is the one `add_business` returns; the session ends reset |
| FlowSpec.AddFlowTwiceAddsOnce | app.py:976-986 | repeating the last step with the same answers adds nothing |
| FlowSpec.UpdateUnknownFieldStays | app.py:786-796 | an unknown choice changes nothing |
| FlowSpec.UpdateLookupFindsNewest | app.py:710-760 | update step 1: an implausible phone asks again; otherwise the newest listing under the phone's key becomes current and the flow moves to step 2, or the session resets with "not found" when no row has the key; the table is untouched |
| FlowSpec.ByPhoneNewest | business/business_by_phone.py:5-46 | under a plausible phone some listing is found exactly when a row has its key, and the first found is a newest such row |
| FlowSpec.SelectorAsWritten | app.py:776-784 | `field_mapping` as written (stated by `SelectorDomain` and `SelectorAsWrittenKeys`) |
| FlowSpec.Selector | app.py:776-784 | `field_mapping` as evidently intended (stated by `SelectorDomain`, `SelectorNamesColumn` and `SelectorDiffersOnlyAtThree`) |
| FlowSpec.SelectorDomain | app.py:776-786 | both mappings answer exactly the fifteen keys of `field_mapping`; any other choice is not understood |
| FlowSpec.SelectorAsWrittenKeys | app.py:776-784 | every key the written mapping records is an allowed column, or "phone" for the choice "3" alone |
| FlowSpec.ChooseTurn | app.py:762-808 | update step 2 (stated by `UpdateDoneResets`, `UpdateUnknownFieldStays`, `UpdateKnownFieldAdvances` and `ChoiceThreeNeverUpdates`) |
| FlowSpec.UpdateKnownFieldAdvances | app.py:776-800 | a known choice records the written mapping's key, moves to step 3, shows the current value of that key ("" for "Not set"), and the key is an allowed column exactly when the choice is not "3" |
| FlowSpec.ChoiceThreeNeverUpdates | app.py:779-840 | choosing "3" records "phone" and shows "Not set"; any non-empty value entered next is answered "not updated" with session and table unchanged |
| FlowSpec.PhoneKeyWriteFails | app.py:833-840 | both `update_business` calls fail on the key "phone" and leave the table alone |
| FlowSpec.IntendedChoiceNamesColumn | app.py:776-800 | with the intended mapping every known choice, "3" included, records an allowed column |
| FlowSpec.UpdateDoneResets | app.py:766-770 | "done", "finish", "exit", "no" or "cancel" end the update flow |
| FlowSpec.UpdateValueOutcomes | app.py:810-888 | an empty value or a failed write changes nothing; success returns to step 2 with the answers kept; an error after writing resets |
| FlowSpec.UpdateStorageErrorChangesNothing | app.py:834-840 | a storage error in both `update_business` calls leaves session and table as they were |
| FlowSpec.IdFaultFallsBackToPhone | app.py:834-880 | a storage error in the call by id alone leaves the write to the call by phone: without a phone, or when that call fails, nothing changes and the reply is "not updated"; when it succeeds the table is what it wrote and the turn goes back to step 2, or resets on an error in the re-read |
| FlowSpec.IdFaultWrite | app.py:834-840 | with the call by id failing, the write is the call by phone, or nothing without a phone |
| FlowSpec.UpdateWritesChosenColumn | app.py:826-837 | a write by id sets the chosen column of the current listing's row, changes no other column and no other row; the stray key "phone" writes nothing |
| FlowSpec.SingleColumnUpdate | app.py:826-837 | one allowed key, by id, writes that column of the id's row and leaves every other row as it was |
| FlowSpec.DoneAtValueStepIsWritten | app.py:810-840 | at step 3 any non-empty text, "done" included, is written as the value of the chosen key; after the choice "3" it is answered "not updated" with session and table unchanged |
| FlowSpec.DoneIsNoCancel | app.py:639-640 | "done" is not empty and is no cancel word, so it reaches step 3 |
| FlowSpec.IntendedDoneExitsAfterFailure | app.py:877-880 | with the step as its message describes it, a failed write changes nothing and a following "done" ends the flow |
| FlowSpec.SingleColumnEffect | business/business_update.py:54-92 | a write by id with one allowed key succeeds and updates the id's row alone |
| FlowSpec.SelectorNamesColumn | app.py:776-784 | every key of the corrected field mapping is an allowed column |
| FlowSpec.SelectorThreeAsWrittenNeverUpdates | app.py:779 | as written, choosing "3" makes every update fail |
| FlowSpec.SelectorThreeIsPhone | app.py:779 | corrected, "3" and "phone" choose the phone column |
| FlowSpec.SelectorDiffersOnlyAtThree | app.py:776-784 | the corrected mapping agrees with the written one on every other choice |
| FlowSpec.SearchTextIsNormal | app.py:533-540 | the search text has no space at either end and never two in a row, and its words are those left after the intent phrases are cut |
| FlowSpec.SearchTextWithoutNoise | app.py:533-540 | a request holding none of the intent phrases is searched as its own lowered words, single-spaced |
| FlowSpec.RemovePhrasesAbsent | app.py:538-539 | cutting phrases none of which occurs leaves the text as it is |
| FlowSpec.SearchReplyLocal | app.py:543-566 | the reply lists local rows exactly when storage did not fail and the cascade over the corrected keyword and location finds rows; it then carries those rows, at most five, with the corrected parts, and every one is a table row when the ranking only reorders |
| FlowSpec.SearchReplyOnline | app.py:567-614 | otherwise the web is asked "keyword in location", else the keyword, else the query; its answer alone decides between online results, no results and a failure, and the reply names the query as typed |
| FlowSpec.SearchSuggestions | app.py:1098-1104 | at most three spelling suggestions, the first ones `correct_spelling` gives, and none unless the search flow asks |
| FlowSpec.SearchReplyKinds | app.py:543-614 | a search reply is local results, online results, no results or an online failure |
| FlowSpec.DirectSearchOutcomes | app.py:529-628 | a search request asks what to find exactly when its search text is under 2 characters; otherwise it is the search reply of that text, with no spelling suggestions |
| FlowSpec.RefreshedShowsRereadRow | app.py:844-854 | after a write, with no key or no row under it, the listing shown before; otherwise a table row under the key, the one with the listing's id whenever such a row exists |
| Text.JoinSingleSpaces | app.py:540 | joining words with one space never puts two spaces side by side |
| FlowEngine.SearchTextOf | app.py:533-540 | computes the search text (`SearchTextIsNormal`, `SearchTextWithoutNoise`) |
| FlowEngine.CutPhrases | app.py:538-539 | the removal loop cuts the phrases one after another |
| FlowEngine.SearchEverywhere | app.py:543-614 | the search reply: local rows first, then the web (`SearchReplyLocal`, `SearchReplyOnline`, `SearchSuggestions`) |
| FlowEngine.DirectSearch | app.py:529-628 | a search request outside any flow (`DirectSearchOutcomes`) |
| FlowEngine.LookUp | business/business_by_phone.py:5-46 | the listings `get_businesses_by_phone` returns |
| FlowEngine.PickRefreshed | app.py:846-853 | the refreshed listing with the same id, or else the first one |
| FlowEngine.WriteByIdThenPhone | app.py:833-840 | update by id, then by phone when that failed, each call with its own storage-error flag |
| FlowEngine.Refresh | app.py:844-854 | the listing shown after a write (`RefreshedShowsRereadRow`) |
| FlowEngine.ChatSession.constructor | app.py:47-58 | a new session is the reset state |
| FlowEngine.ChatSession.Reset | app.py:482-487 | mode, step, answers and current business are cleared |
| FlowEngine.ChatSession.ProcessChatbotResponse | app.py:489-632 | one message makes the `FlowSpec.Turn` transition and keeps a valid session valid and a well-formed table well-formed |
| FlowEngine.ChatSession.Start | app.py:498-632 | a message with no flow makes the transition its intent calls for |
| FlowEngine.ChatSession.StartWithIntent | app.py:498-632 | a greeting welcomes, show, update and add enter step 1 of their flow, a search is answered directly, anything else is unhandled (`StartEntersStepOne`, `SearchFlowNeverEntered`) |
| FlowEngine.ChatSession.HandleActiveFlow | app.py:634-658 | the cancel words first, then the handler of the mode |
| FlowEngine.ChatSession.HandleShowFlow | app.py:660-704 | the show flow transition |
| FlowEngine.ChatSession.HandleUpdateFlow | app.py:706-890 | the update flow transition |
| FlowEngine.ChatSession.UpdateFindBusiness | app.py:710-760 | step 1 of the update flow (`UpdateLookupFindsNewest`) |
| FlowEngine.ChatSession.UpdateChooseField | app.py:762-808 | step 2 of the update flow with the written `field_mapping` (`UpdateKnownFieldAdvances`, `ChoiceThreeNeverUpdates`) |
| FlowEngine.ChatSession.UpdateWriteValue | app.py:810-888 | step 3 of the update flow (`UpdateValueOutcomes`) |
| FlowEngine.ChatSession.UpdateWrite | app.py:826-880 | the write of step 3 and its outcome (`UpdateWritesChosenColumn`, `UpdateStorageErrorChangesNothing`) |
| FlowEngine.ChatSession.HandleAddFlow | app.py:892-1022 | the add flow transition |
| FlowEngine.ChatSession.AddCollect | app.py:896-966 | steps 1 to 6 of the add flow: one answer checked and stored (`AddRejectsShortAnswers`, `AddStoresPhoneKey`, `AddWebsiteAnswer`, `PlaceSkipIsEmpty`) |
| FlowEngine.ChatSession.AddFinish | app.py:968-1020 | step 7 of the add flow, ending in a reset whatever happens |
| FlowEngine.ChatSession.HandleSearchFlow | app.py:1024-1126 | the search flow transition, ending in a reset |

## Left out

- User interface, page state plumbing and reply text (Streamlit, the `format_*` and
  `get_suggestions_*` messages): replies are constructors carrying what they show.
- Unicode: `lower`, `strip`, `split`, `isdigit`, `isupper` and `title` are modelled on ASCII.
- SQL `LIKE` wildcards inside a search term (`%`, `_`): a term is matched as plain text.
- SQL NULL: absent text columns are "".
- `difflib.get_close_matches`, the ranking, the web search, the vocabulary and the clock
  are parameters, as said above; `RankPermutes` and `MatcherWithin` are assumed only by
  the lemmas that name them.
- Storage errors are flags, not exceptions. The errors raised by the first
  `get_businesses_by_phone` of the show and update flows, which the flows do not catch,
  are not modelled.
- BusinessAdd.AddBusiness: the `owner_email` column, the fallback to the older schema and
  the re-read of the id when `lastrowid` is 0 are not modelled; the new rowid is one more
  than the largest in use, so it is never 0.
- BusinessUpdate.UpdateBusiness: values that are not strings (copied unchanged) are not
  modelled; the flows only pass strings.
- `get_suggested_categories` (the category list shown with "what would you like to search
  for?") is a storage read whose result is only displayed; the reply omits it.
- The page's fallback for a message the chatbot leaves unanswered (app.py:1276-1357): it
  runs `smart_search_business` on the message and then the web search. This is page code
  outside the chatbot core; the model stops at `Unhandled`. `fast_answer` is imported
  (app.py:11) but never called.
- BusinessByPhone.SortNewestFirst: when two or more rows match and one has a NULL
  `created_at`, Python's sort raises on comparing None with a string, the exception is
  caught (business_by_phone.py:41-44) and the rows keep scan order; the model reads NULL
  as "" and sorts it last.
- Concurrency and several browser sessions sharing the table.

## Findings

| source | as written | input that shows it | evidently intended | confidence | as-written member | corrected member |
|---|---|---|---|---|---|---|
| app.py:779 | the field choice "3" maps to the key "phone", which is not in `ALLOWED_FIELDS`, so `update_business` drops it and reports failure | choose "3" at step 2 of the update flow, then enter any value | "3" selects `phone_number`, like the word "phone" and the menu entry "3️⃣ Phone" | high (not executed) | FlowSpec.ChoiceThreeNeverUpdates | FlowSpec.IntendedChoiceNamesColumn |
| app.py:810-880 | after a failed write the reply says to type "done" to exit, but step 3 does not test for "done" and writes it as the new value | choose "3" at step 2, enter a value, then type "done": the write fails again and the flow stays at step 3 | "done" at step 3 ends the flow, as at step 2 | medium (not executed) | FlowSpec.DoneAtValueStepIsWritten | FlowSpec.IntendedDoneExitsAfterFailure |
