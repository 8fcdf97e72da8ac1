/**
 * `is_greeting` and `detect_intent`: an ordered cascade of substring rules over the
 * lowered, stripped message; the first rule whose phrase list matches decides.
 */
module IntentClassifier {
  import opened Text

  datatype Intent = Greeting | Search | Show | Update | Add | General

  const GreetingPhrases: seq<string> := [
    "hi", "hello", "hey", "good morning", "good afternoon",
    "good evening", "howdy", "hola", "greetings", "sup",
    "what's up", "yo", "namaste"
  ]

  const SearchPhrases: seq<string> := [
    "search for", "find a", "looking for", "need a", "want a",
    "search", "find", "looking", "recommend", "suggest",
    "near me", "best", "top", "where can i find"
  ]

  const ShowPhrases: seq<string> := [
    "show my business", "view my business", "display business",
    "get my business", "my business details", "business info"
  ]

  const UpdatePhrases: seq<string> := [
    "update my business", "edit details", "change my business",
    "modify business", "update business", "edit business",
    "change details", "update details", "edit my business",
    "modify my business", "fix my business", "correct details"
  ]

  const AddPhrases: seq<string> := [
    "add business", "register my business", "create business",
    "new business", "add my business", "register business",
    "list my business", "add a business", "register a business",
    "add new business", "create new business"
  ]

  /** The source's `for kw in ...: if kw in text: return ...` scan over one phrase list. */
  predicate MentionsAny(text: string, phrases: seq<string>) {
    exists i | 0 <= i < |phrases| :: Contains(text, phrases[i])
  }

  /** `is_greeting`: one of the greeting phrases occurs anywhere in the lowered, stripped text. */
  predicate IsGreeting(text: string) {
    MentionsAny(Lower(Strip(text)), GreetingPhrases)
  }

  /** `detect_intent`: greeting, then search, show, update and add phrases, in that order. */
  function DetectIntent(text: string): Intent {
    var t := Lower(Strip(text));
    if IsGreeting(t) then Greeting
    else if MentionsAny(t, SearchPhrases) then Search
    else if MentionsAny(t, ShowPhrases) then Show
    else if MentionsAny(t, UpdatePhrases) then Update
    else if MentionsAny(t, AddPhrases) then Add
    else General
  }

  /**
   * The cascade, both directions: each intent is chosen exactly when its phrases occur
   * and no phrase of a higher-priority rule does.
   */
  lemma {:induction false} DetectIntentCascade(text: string)
    ensures var t := Lower(Strip(text));
      && (DetectIntent(text) == Greeting <==> IsGreeting(text))
      && (DetectIntent(text) == Search <==> !IsGreeting(text) && MentionsAny(t, SearchPhrases))
      && (DetectIntent(text) == Show <==>
            !IsGreeting(text) && !MentionsAny(t, SearchPhrases) && MentionsAny(t, ShowPhrases))
      && (DetectIntent(text) == Update <==>
            !IsGreeting(text) && !MentionsAny(t, SearchPhrases) && !MentionsAny(t, ShowPhrases)
            && MentionsAny(t, UpdatePhrases))
      && (DetectIntent(text) == Add <==>
            !IsGreeting(text) && !MentionsAny(t, SearchPhrases) && !MentionsAny(t, ShowPhrases)
            && !MentionsAny(t, UpdatePhrases) && MentionsAny(t, AddPhrases))
      && (DetectIntent(text) == General <==>
            !IsGreeting(text) && !MentionsAny(t, SearchPhrases) && !MentionsAny(t, ShowPhrases)
            && !MentionsAny(t, UpdatePhrases) && !MentionsAny(t, AddPhrases))
  {
    GreetingOfNormalised(text);
  }

  /** `detect_intent` hands `is_greeting` an already lowered, stripped text; normalising again changes nothing. */
  lemma GreetingOfNormalised(text: string)
    ensures IsGreeting(Lower(Strip(text))) == IsGreeting(text)
  {
    var t := Lower(Strip(text));
    LowerStripIdempotent(text);
    assert Lower(Strip(t)) == t;
  }

  /** One phrase of a list occurring is enough for the scan to match. */
  lemma MentionsWitness(t: string, phrases: seq<string>, k: int)
    requires 0 <= k < |phrases| && Contains(t, phrases[k])
    ensures MentionsAny(t, phrases)
  {
  }

  /** Priority is load-bearing: a message naming both a search phrase and a show phrase is a search. */
  lemma SearchBeatsShow(text: string)
    requires !IsGreeting(text)
    requires Contains(Lower(Strip(text)), "search")
    requires Contains(Lower(Strip(text)), "business info")
    ensures DetectIntent(text) == Search
  {
    SearchPhraseAt5();
    MentionsWitness(Lower(Strip(text)), SearchPhrases, 5);
    DetectIntentCascade(text);
  }

  lemma SearchPhraseAt5()
    ensures 5 < |SearchPhrases| && SearchPhrases[5] == "search"
  {
  }

  /**
   * Phrases match anywhere, even inside words: any message holding the letters "hi"
   * (as "shirt" and "which" do) is a greeting, whatever else it asks for.
   */
  lemma GreetingInsideWord(text: string)
    requires Contains(Lower(Strip(text)), "hi")
    ensures DetectIntent(text) == Greeting
  {
    GreetingPhraseAt0();
    MentionsWitness(Lower(Strip(text)), GreetingPhrases, 0);
    DetectIntentCascade(text);
  }

  lemma GreetingPhraseAt0()
    ensures 0 < |GreetingPhrases| && GreetingPhrases[0] == "hi"
  {
  }

  /** "find a shirt" holds "hi" inside "shirt". */
  lemma ShirtHoldsHi()
    ensures Contains("find a shirt", "hi")
  {
    assert OccursAt("find a shirt", "hi", 8);
  }
}
