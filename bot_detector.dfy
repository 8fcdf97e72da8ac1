/** `is_bot`: the spam filter applied to every chat message before the flow engine sees it. */
module BotDetector {
  import opened Text

  /** The greetings that are always let through. */
  const Greetings: seq<string> := [
    "hello", "hi", "hey", "greetings", "good morning", "good afternoon",
    "good evening", "hi there", "hello there", "hey there"
  ]

  /** The lowered, stripped text is a listed greeting or begins with one. */
  predicate Whitelisted(t: string) {
    t in Greetings || exists i | 0 <= i < |Greetings| :: StartsWith(t, Greetings[i])
  }

  /** Seven equal characters from index `p` on; the regex `.` does not match a newline. */
  predicate RunAt(text: string, p: int) {
    0 <= p && p + 7 <= |text| && text[p] != '\n' &&
    forall j :: p <= j < p + 7 ==> text[j] == text[p]
  }

  /** What `re.search(r"(.)\1{6,}", text)` finds: a character followed by six more copies of itself. */
  ghost predicate HasRepeatRun(text: string) {
    exists p :: RunAt(text, p)
  }

  /**
   * A single left-to-right pass: `run` is the length of the run of equal characters
   * that ends at index `i - 1`.
   */
  function LongRunFrom(text: string, i: nat, run: nat): bool
    requires 0 < i <= |text| && 1 <= run <= i
    decreases |text| - i
  {
    if run >= 7 && text[i - 1] != '\n' then true
    else if i == |text| then false
    else LongRunFrom(text, i + 1, if text[i] == text[i - 1] then run + 1 else 1)
  }

  function HasLongRun(text: string): bool {
    |text| > 0 && LongRunFrom(text, 1, 1)
  }

  /** The pass finds a run exactly when one ends at or after the characters it has not yet passed. */
  lemma {:induction false} LongRunFromCorrect(text: string, i: nat, run: nat)
    requires 0 < i <= |text| && 1 <= run <= i
    requires forall j :: i - run <= j < i ==> text[j] == text[i - 1]
    requires i - run == 0 || text[i - run - 1] != text[i - 1]
    ensures LongRunFrom(text, i, run) <==> exists p :: RunAt(text, p) && p + 7 >= i
    decreases |text| - i
  {
    if run >= 7 && text[i - 1] != '\n' {
      assert RunAt(text, i - 7);
    } else {
      forall p | 0 <= p && p + 7 == i
        ensures !RunAt(text, p)
      {
        NoRunEndsHere(text, i, run, p);
      }
      if i < |text| {
        var run' := if text[i] == text[i - 1] then run + 1 else 1;
        LongRunFromCorrect(text, i + 1, run');
        assert LongRunFrom(text, i, run) == LongRunFrom(text, i + 1, run');
      }
    }
  }

  /** When the pass does not stop at `i`, no run ends at `i - 1`: it would lie inside the current maximal run. */
  lemma NoRunEndsHere(text: string, i: nat, run: nat, p: int)
    requires 0 < i <= |text| && 1 <= run <= i
    requires forall j :: i - run <= j < i ==> text[j] == text[i - 1]
    requires i - run == 0 || text[i - run - 1] != text[i - 1]
    requires !(run >= 7 && text[i - 1] != '\n')
    requires 0 <= p && p + 7 == i
    ensures !RunAt(text, p)
  {
    if p < i - run {
      assert text[i - run - 1] != text[p] || text[i - 1] != text[p];
    } else {
      assert text[p] == '\n';
    }
  }

  lemma HasLongRunCorrect(text: string)
    ensures HasLongRun(text) <==> HasRepeatRun(text)
  {
    if |text| > 0 {
      LongRunFromCorrect(text, 1, 1);
    }
  }

  /**
   * `is_bot`: an empty message is a bot; a whitelisted greeting never is; otherwise a text
   * shorter than two characters once stripped, or one holding seven equal characters in a
   * row, is a bot, and nothing else is.
   */
  function IsBot(text: string): (bot: bool)
    ensures bot <==>
      text == "" ||
      (!Whitelisted(Lower(Strip(text))) && (|Strip(text)| < 2 || HasRepeatRun(text)))
  {
    if text == "" then true
    else
      var t := Lower(Strip(text));
      if Whitelisted(t) then false
      else if |Strip(text)| < 2 then true
      else
        HasLongRunCorrect(text);
        HasLongRun(text)
  }

  /** The whitelist wins over the later rules: a greeting followed by a long run is let through. */
  lemma GreetingBeatsRepeats()
    ensures !IsBot("hiiiiiiiii")
    ensures HasRepeatRun("hiiiiiiiii")
  {
    var s := "hiiiiiiiii";
    assert StartsWith(Lower(Strip(s)), Greetings[1]);
    assert RunAt(s, 1);
  }

  /** A run of seven equal characters marks an otherwise ordinary message. */
  lemma RepeatsAreBots()
    ensures IsBot("zzzzzzz")
  {
    var s := "zzzzzzz";
    assert RunAt(s, 0);
    StripNoop(s);
    assert Lower(s) == s;
    assert forall i | 0 <= i < |Greetings| :: !StartsWith(s, Greetings[i]);
  }
}
