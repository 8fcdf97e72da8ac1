/**
 * The chat flow engine as the source runs it: the session state lives in four fields that
 * the handlers update step by step, and the table is changed by the update and add calls.
 * Each handler is proved to make the transition `FlowSpec` describes for it.
 */
module FlowEngine {
  import opened Wrappers
  import opened Text
  import opened PhoneIdentity
  import opened IntentClassifier
  import opened SpellCorrector
  import opened Listings
  import opened BusinessByPhone
  import opened BusinessUpdate
  import opened BusinessAdd
  import opened SearchResolver
  import opened FlowSpec

  /** The search text of a search request, as the removal loop computes it. */
  method SearchTextOf(input: string) returns (q: string)
    ensures q == ExtractSearchQuery(input)
  {
    q := CutPhrases(Strip(Lower(input)), SearchNoise);
    q := Strip(Join(Split(q)));
  }

  /** `for word in remove_words: search_query = search_query.replace(word, "")`. */
  method CutPhrases(q0: string, ws: seq<string>) returns (q: string)
    ensures q == RemovePhrases(q0, ws)
  {
    q := q0;
    for i := 0 to |ws|
      invariant RemovePhrases(q, ws[i..]) == RemovePhrases(q0, ws)
    {
      assert ws[i..][1..] == ws[i + 1..];
      if ws[i] != "" {
        q := ReplaceAll(q, ws[i], "");
      }
    }
    assert ws[|ws|..] == [];
  }

  /** The table first, then the web; `suggest` adds spelling suggestions when both find nothing. */
  method SearchEverywhere(table: ListingTable, query: string, env: Env, fails: bool, suggest: bool)
    returns (reply: Reply)
    ensures reply == SearchReply(table.rows, query, env, fails, suggest)
  {
    var results, keyword, location, corrected :=
      SmartSearch(table, query, true, env.corpus, env.closeMatches, env.rank, fails);
    if results != [] {
      return LocalResults(keyword, location, corrected, results);
    }
    var onlineQuery := query;
    if keyword != "" && location != "" {
      onlineQuery := keyword + " in " + location;
    } else if keyword != "" {
      onlineQuery := keyword;
    }
    match env.online(onlineQuery)
    case OnlineFound =>
      reply := OnlineResults(query, keyword, location);
    case OnlineEmpty =>
      var suggestions: seq<string> := [];
      if suggest {
        var c := CorrectSpelling(query, env.corpus, env.closeMatches);
        suggestions := Take(c.suggestions, 3);
      }
      reply := NoResults(query, suggestions);
    case OnlineError =>
      reply := OnlineFailed(query);
  }

  /** A search request outside any flow. */
  method DirectSearch(table: ListingTable, input: string, env: Env, f: Faults) returns (reply: Reply)
    ensures reply == DirectSearchReply(table.rows, input, env, f)
  {
    var q := SearchTextOf(input);
    if |q| < 2 {
      return AskWhatToFind;
    }
    reply := SearchEverywhere(table, q, env, f.search, false);
  }

  /** `get_businesses_by_phone`, read as the value `ByPhone` describes. */
  method LookUp(table: ListingTable, phone: string) returns (found: seq<Listing>)
    ensures found == ByPhone(table.rows, phone)
  {
    found := GetBusinessesByPhone(table, phone);
  }

  lemma {:induction false} FindByIdAt(bs: seq<Listing>, id: int, i: int)
    requires 0 <= i < |bs| && bs[i].id == id
    requires forall k | 0 <= k < i :: bs[k].id != id
    ensures FindById(bs, id) == Some(bs[i])
    decreases i
  {
    if i > 0 {
      FindByIdAt(bs[1..], id, i - 1);
    }
  }

  /** The `for ... else` that picks the refreshed listing. */
  method PickRefreshed(bs: seq<Listing>, id: Option<int>) returns (b: Listing)
    requires bs != []
    ensures b == SameOrFirst(bs, id)
  {
    if id.Some? {
      for i := 0 to |bs|
        invariant forall k | 0 <= k < i :: bs[k].id != id.value
      {
        if bs[i].id == id.value {
          FindByIdAt(bs, id.value, i);
          return bs[i];
        }
      }
    }
    return bs[0];
  }

  /** The two `update_business` calls of step 3. */
  method WriteByIdThenPhone(table: ListingTable, businessId: Option<int>, updates: map<string, Option<string>>,
                              phone: string, failsById: bool, failsByPhone: bool) returns (ok: bool)
    modifies table
    ensures (ok, table.rows) == WriteValue(old(table.rows), businessId, updates, phone, failsById, failsByPhone)
    ensures old(table.Valid()) ==> table.Valid()
  {
    ok := false;
    if businessId.Some? {
      ok := UpdateBusiness(table, businessId, updates, "", failsById);
    }
    if !ok && phone != "" {
      ok := UpdateBusiness(table, None, updates, phone, failsByPhone);
    }
  }

  /** The re-read after a successful write. */
  method Refresh(table: ListingTable, phone: string, businessId: Option<int>, shown: Option<Listing>)
    returns (biz: Option<Listing>)
    ensures biz == Refreshed(table.rows, phone, businessId, shown)
  {
    biz := shown;
    var refreshed: seq<Listing> := [];
    if phone != "" {
      refreshed := LookUp(table, phone);
    }
    if refreshed != [] {
      var b := PickRefreshed(refreshed, businessId);
      biz := Some(b);
    }
  }

  /** One user's conversation: `chat_mode`, `chat_step`, `chat_data` and `current_business`. */
  class ChatSession {
    var mode: Mode
    var step: int
    var data: map<Slot, string>
    var current: Option<Listing>

    function State(): Session
      reads this
    {
      Session(mode, step, data, current)
    }

    /** A new session starts with no flow, as after a reset. */
    constructor()
      ensures State() == Fresh
    {
      mode, step, data, current := Idle, 0, map[], None;
    }

    /** `reset_chat_flow`. */
    method Reset()
      modifies this
      ensures State() == Fresh
    {
      mode, step, data, current := Idle, 0, map[], None;
    }

    /**
     * `process_chatbot_response`: one message makes the transition `Turn` describes, keeps a
     * valid session valid and a well-formed table well-formed.
     */
    method ProcessChatbotResponse(input: string, table: ListingTable, env: Env, f: Faults) returns (reply: Reply)
      modifies this, table
      ensures (State(), table.rows, reply) == Turn(old(State()), old(table.rows), input, env, f)
      ensures Valid(old(State())) ==> Valid(State())
      ensures old(table.Valid()) ==> table.Valid()
    {
      if mode != Idle {
        reply := HandleActiveFlow(input, table, env, f);
      } else {
        reply := Start(input, table, env, f);
      }
      if Valid(old(State())) {
        TurnPreservesValid(old(State()), old(table.rows), input, env, f);
      }
    }

    /** The intent branch of `process_chatbot_response`. */
    method Start(input: string, table: ListingTable, env: Env, f: Faults) returns (reply: Reply)
      modifies this
      ensures (State(), reply) == StartTurn(old(State()), table.rows, input, env, f)
    {
      reply := StartWithIntent(DetectIntent(input), input, table, env, f);
    }

    /** What the detected intent does. */
    method StartWithIntent(intent: Intent, input: string, table: ListingTable, env: Env, f: Faults) returns (reply: Reply)
      modifies this
      ensures (State(), reply) == StartWith(intent, old(State()), table.rows, input, env, f)
    {
      match intent
      case Greeting =>
        reply := Welcome;
      case Show =>
        mode, step := ShowFlow, 1;
        reply := AskShowPhone;
      case Update =>
        mode, step := UpdateFlow, 1;
        reply := AskUpdatePhone;
      case Add =>
        mode, step := AddFlow, 1;
        reply := AskName;
      case Search =>
        reply := DirectSearch(table, input, env, f);
      case General =>
        reply := Unhandled;
    }

    /** `handle_active_flow`: the cancel words, then the handler of the mode. */
    method HandleActiveFlow(input: string, table: ListingTable, env: Env, f: Faults) returns (reply: Reply)
      modifies this, table
      ensures (State(), table.rows, reply) == ActiveTurn(old(State()), old(table.rows), input, env, f)
      ensures old(table.Valid()) ==> table.Valid()
    {
      if Strip(Lower(input)) in CancelWords {
        Reset();
        return Cancelled;
      }
      match mode
      case ShowFlow =>
        reply := HandleShowFlow(input, table);
      case UpdateFlow =>
        reply := HandleUpdateFlow(input, table, f);
      case AddFlow =>
        reply := HandleAddFlow(input, table, env, f);
      case SearchFlow =>
        reply := HandleSearchFlow(input, table, env, f);
      case Idle =>
        reply := Unhandled;
    }

    /** `handle_show_flow`. */
    method HandleShowFlow(input: string, table: ListingTable) returns (reply: Reply)
      modifies this
      ensures (State(), reply) == ShowTurn(old(State()), table.rows, input)
    {
      if step != 1 {
        return Unhandled;
      }
      var phone := Strip(input);
      var normalized := NormalizePhone(phone);
      if |normalized| < 6 {
        return InvalidPhone;
      }
      var businesses := LookUp(table, phone);
      if businesses == [] {
        Reset();
        return NotFound(phone);
      }
      Reset();
      current := Some(businesses[0]);
      return Found(businesses[0]);
    }

    /** `handle_update_flow`: one method per step. */
    method HandleUpdateFlow(input: string, table: ListingTable, f: Faults) returns (reply: Reply)
      modifies this, table
      ensures (State(), table.rows, reply) == UpdateTurn(old(State()), old(table.rows), input, f)
      ensures old(table.Valid()) ==> table.Valid()
    {
      if step == 1 {
        reply := UpdateFindBusiness(input, table);
      } else if step == 2 {
        reply := UpdateChooseField(input);
      } else if step == 3 {
        reply := UpdateWriteValue(input, table, f);
      } else {
        reply := Unhandled;
      }
    }

    /** Step 1 of the update flow: the phone, and the listing it finds. */
    method UpdateFindBusiness(input: string, table: ListingTable) returns (reply: Reply)
      modifies this
      ensures (State(), reply) == LookupTurn(old(State()), table.rows, input)
    {
      var phone := Strip(input);
      var normalized := NormalizePhone(phone);
      if |normalized| < 6 {
        return InvalidPhone;
      }
      var businesses := LookUp(table, phone);
      if businesses == [] {
        Reset();
        return NotFound(phone);
      }
      current := Some(businesses[0]);
      data := data[LookupPhone := phone];
      step := 2;
      return ChooseField(businesses[0]);
    }

    /** Step 2 of the update flow: finish, or pick the column to change. */
    method UpdateChooseField(input: string) returns (reply: Reply)
      modifies this
      ensures (State(), reply) == ChooseTurn(old(State()), input)
    {
      var choice := Lower(Strip(input));
      if choice in DoneWords {
        Reset();
        return UpdateComplete;
      }
      var key := SelectorAsWritten(choice);
      if key.None? {
        return UnknownField;
      }
      data := data[FieldToUpdate := key.value];
      step := 3;
      var shown := if current.Some? then ValueOf(current.value, key.value) else "";
      return AskNewValue(key.value, shown);
    }

    /** Step 3 of the update flow: write the value by id, then by phone, and refresh the listing. */
    method UpdateWriteValue(input: string, table: ListingTable, f: Faults) returns (reply: Reply)
      modifies this, table
      ensures (State(), table.rows, reply) == UpdateValueTurn(old(State()), old(table.rows), input, f)
      ensures old(table.Valid()) ==> table.Valid()
    {
      ghost var s0, rows0 := State(), table.rows;
      var newValue := Strip(input);
      if newValue == "" {
        return EmptyValue;
      }
      var fieldKey := Get(data, FieldToUpdate);
      if fieldKey == "" {
        Reset();
        return StartAgain;
      }
      assert UpdateValueTurn(s0, rows0, input, f) == WriteTurn(s0, rows0, fieldKey, newValue, f);
      reply := UpdateWrite(fieldKey, newValue, table, f);
    }

    /** The write of step 3, once the value and the field name are known. */
    method UpdateWrite(fieldKey: string, newValue: string, table: ListingTable, f: Faults) returns (reply: Reply)
      modifies this, table
      ensures (State(), table.rows, reply) == WriteTurn(old(State()), old(table.rows), fieldKey, newValue, f)
      ensures old(table.Valid()) ==> table.Valid()
    {
      var updates := map[fieldKey := Some(newValue)];
      var businessId := if current.Some? then Some(current.value.id) else None;
      var phone := Get(data, LookupPhone);
      var success := WriteByIdThenPhone(table, businessId, updates, phone, f.updateById, f.updateByPhone);
      if !success {
        return NotUpdated(fieldKey);
      }
      if phone != "" && f.read {
        Reset();
        return UpdateError;
      }
      current := Refresh(table, phone, businessId, current);
      step := 2;
      return Updated(fieldKey, newValue, current);
    }

    /** `handle_add_flow`: the answers of steps 1 to 6, then the insertion. */
    method HandleAddFlow(input: string, table: ListingTable, env: Env, f: Faults) returns (reply: Reply)
      modifies this, table
      ensures (State(), table.rows, reply) == AddTurn(old(State()), old(table.rows), input, env, f)
      ensures old(table.Valid()) ==> table.Valid()
    {
      if step == 7 {
        reply := AddFinish(input, table, env, f);
      } else if 1 <= step <= 6 {
        reply := AddCollect(input);
      } else {
        reply := Unhandled;
      }
    }

    /** Steps 1 to 6 of the add flow: check the answer, store it, move to the next step. */
    method AddCollect(input: string) returns (reply: Reply)
      requires 1 <= step <= 6
      modifies this
      ensures (State(), reply) == AnswerTurn(old(State()), input)
    {
      var answer := Strip(input);
      if step == 1 {
        if |answer| < 2 {
          return InvalidName;
        }
        data, step := data[NameAnswer := answer], 2;
        return AskAddPhone(answer);
      } else if step == 2 {
        var normalized := NormalizePhone(answer);
        if |normalized| < 6 {
          return InvalidAddPhone;
        }
        data, step := data[PhoneAnswer := normalized], 3;
        return AskAddress(normalized);
      } else if step == 3 {
        if |answer| < 5 {
          return InvalidAddress;
        }
        data, step := data[AddressAnswer := answer], 4;
        return AskWebsite(answer);
      } else if step == 4 {
        var website := if Lower(answer) in WebsiteSkips then "" else answer;
        data, step := data[WebsiteAnswer := website], 5;
        return AskCategory;
      } else if step == 5 {
        if |answer| < 2 {
          return InvalidCategory;
        }
        data, step := data[CategoryAnswer := answer], 6;
        return AskCity(answer);
      } else {
        var city := if answer != "" && Lower(answer) !in PlaceSkips then answer else "";
        data, step := data[CityAnswer := city], 7;
        return AskState;
      }
    }

    /** Step 7 of the add flow: store the state, add the listing, and reset whatever happens. */
    method AddFinish(input: string, table: ListingTable, env: Env, f: Faults) returns (reply: Reply)
      modifies this, table
      ensures (State(), table.rows, reply) == AddFinalTurn(old(State()), old(table.rows), input, env, f)
      ensures old(table.Valid()) ==> table.Valid()
    {
      ghost var data0 := data;
      var state := Strip(input);
      data := data[StateAnswer := if state != "" && Lower(state) !in PlaceSkips then state else ""];
      var a := NewListing(Get(data, NameAnswer), Get(data, AddressAnswer), Get(data, PhoneAnswer),
                          Get(data, WebsiteAnswer), Get(data, CategoryAnswer), "",
                          Get(data, CityAnswer), Get(data, StateAnswer), "");
      assert a == ListingOf(data0[StateAnswer := PlaceAnswer(input)]);
      if f.add {
        Reset();
        return AddError;
      }
      var newId := AddBusiness(table, a, env.createdAt);
      if newId.Some? && newId.value != 0 {
        if f.read {
          Reset();
          return AddError;
        }
        var added := LookUp(table, Get(data, PhoneAnswer));
        current := if added != [] then Some(added[0]) else None;
        Reset();
        return Added(newId.value, a);
      }
      Reset();
      return AddFailed;
    }

    /** `handle_search_flow`. */
    method HandleSearchFlow(input: string, table: ListingTable, env: Env, f: Faults) returns (reply: Reply)
      modifies this
      ensures (State(), reply) == SearchTurn(old(State()), table.rows, input, env, f)
    {
      if step != 1 {
        return Unhandled;
      }
      var query := Strip(input);
      if |query| < 2 {
        return ShortQuery;
      }
      data := data[SearchText := query];
      step := 2;
      reply := SearchEverywhere(table, query, env, f.search, true);
      Reset();
    }
  }
}
