/**
 * The identity key of a listing: the digits of its phone string, in order.
 * Two phone strings name the same owner exactly when their keys are equal.
 */
module PhoneIdentity {
  import opened Text

  /** `normalize_phone`: keep the digit characters and drop everything else (None and "" give ""). */
  function NormalizePhone(phone: string): (key: string)
    ensures forall i :: 0 <= i < |key| ==> IsDigit(key[i])
    ensures |key| <= |phone|
    decreases |phone|
  {
    if phone == [] then ""
    else (if IsDigit(phone[0]) then [phone[0]] else []) + NormalizePhone(phone[1..])
  }

  /** A phone is accepted by the show, update and add flows when its key has at least 6 digits. */
  predicate Plausible(phone: string) {
    |NormalizePhone(phone)| >= 6
  }

  /** The key of a concatenation is the concatenation of the keys: the filter works character by character. */
  lemma {:induction false} NormalizeAppend(a: string, b: string)
    ensures NormalizePhone(a + b) == NormalizePhone(a) + NormalizePhone(b)
    decreases |a|
  {
    if a == [] {
      assert a + b == b;
    } else {
      assert (a + b)[0] == a[0];
      assert (a + b)[1..] == a[1..] + b;
      NormalizeAppend(a[1..], b);
    }
  }

  /** The key of a single character: the character itself when it is a digit, nothing otherwise. */
  lemma NormalizeChar(c: char)
    ensures NormalizePhone([c]) == if IsDigit(c) then [c] else []
  {
    assert [c][1..] == [];
  }

  /** A string of digits is its own key. */
  lemma {:induction false} NormalizeDigits(s: string)
    requires forall i :: 0 <= i < |s| ==> IsDigit(s[i])
    ensures NormalizePhone(s) == s
    decreases |s|
  {
    if s != [] {
      NormalizeDigits(s[1..]);
    }
  }

  lemma NormalizeIdempotent(phone: string)
    ensures NormalizePhone(NormalizePhone(phone)) == NormalizePhone(phone)
  {
    NormalizeDigits(NormalizePhone(phone));
  }

  /** The docstring's first example, "98733 12399" to "9873312399": a space between digit groups is dropped. */
  lemma SpaceDropped(a: string, b: string)
    requires forall i :: 0 <= i < |a| ==> IsDigit(a[i])
    requires forall i :: 0 <= i < |b| ==> IsDigit(b[i])
    ensures NormalizePhone(a + " " + b) == a + b
  {
    var sp: string := [' '];
    assert a + " " + b == (a + sp) + b;
    NormalizeAppend(a + sp, b);
    NormalizeAppend(a, sp);
    NormalizeChar(' ');
    NormalizeDigits(a);
    NormalizeDigits(b);
    assert NormalizePhone(a + sp) == a;
  }

  /** The docstring's second example: a key is its own key. */
  lemma ExampleDigitsOnly()
    ensures NormalizePhone("9873312399") == "9873312399"
  {
    NormalizeDigits("9873312399");
  }

  /** A string without digits has the empty key. */
  lemma {:induction false} NormalizeNoDigits(s: string)
    requires forall i :: 0 <= i < |s| ==> !IsDigit(s[i])
    ensures NormalizePhone(s) == ""
    decreases |s|
  {
    if s != [] {
      NormalizeNoDigits(s[1..]);
    }
  }

  /**
   * The docstring's third example, "+1 (987) 331-2399" to "19873312399", for any digit
   * groups: the country code stays and the symbols and spaces go.
   */
  lemma CountryCodeKept(code: string, area: string, exchange: string, line: string)
    requires forall i :: 0 <= i < |code| ==> IsDigit(code[i])
    requires forall i :: 0 <= i < |area| ==> IsDigit(area[i])
    requires forall i :: 0 <= i < |exchange| ==> IsDigit(exchange[i])
    requires forall i :: 0 <= i < |line| ==> IsDigit(line[i])
    ensures NormalizePhone(Formatted(code, area, exchange, line)) == code + area + exchange + line
  {
    var a: string, b: string, c: string, d: string := ['+'] + code, [' ', '('] + area, [')', ' '] + exchange, ['-'] + line;
    assert Formatted(code, area, exchange, line) == a + b + c + d;
    GroupKeys(code, area, exchange, line);
    NormalizeFour(a, b, c, d);
  }

  /** A number written the way the docstring's third example writes it: "+1 (987) 331-2399". */
  function Formatted(code: string, area: string, exchange: string, line: string): string {
    "+" + code + " (" + area + ") " + exchange + "-" + line
  }

  /** Each group of the third example's layout keys to its digits. */
  lemma GroupKeys(code: string, area: string, exchange: string, line: string)
    requires forall i :: 0 <= i < |code| ==> IsDigit(code[i])
    requires forall i :: 0 <= i < |area| ==> IsDigit(area[i])
    requires forall i :: 0 <= i < |exchange| ==> IsDigit(exchange[i])
    requires forall i :: 0 <= i < |line| ==> IsDigit(line[i])
    ensures NormalizePhone(['+'] + code) + NormalizePhone([' ', '('] + area) + NormalizePhone([')', ' '] + exchange) + NormalizePhone(['-'] + line)
      == code + area + exchange + line
  {
    var p1: string, p2: string, p3: string, p4: string := ['+'], [' ', '('], [')', ' '], ['-'];
    SymbolsThenDigits(p1, code);
    SymbolsThenDigits(p2, area);
    SymbolsThenDigits(p3, exchange);
    SymbolsThenDigits(p4, line);
  }

  /** The key of four pieces in a row is the four keys in a row. */
  lemma NormalizeFour(a: string, b: string, c: string, d: string)
    ensures NormalizePhone(a + b + c + d) == NormalizePhone(a) + NormalizePhone(b) + NormalizePhone(c) + NormalizePhone(d)
  {
    NormalizeAppend(a, b);
    NormalizeAppend(a + b, c);
    NormalizeAppend(a + b + c, d);
  }

  /** Symbols followed by digits: the key is the digits. */
  lemma SymbolsThenDigits(p: string, d: string)
    requires forall i :: 0 <= i < |p| ==> !IsDigit(p[i])
    requires forall i :: 0 <= i < |d| ==> IsDigit(d[i])
    ensures NormalizePhone(p + d) == d
  {
    NormalizeAppend(p, d);
    NormalizeNoDigits(p);
    NormalizeDigits(d);
  }

  /** A leading country code stays in the key, so the same line written two ways gives two identities. */
  lemma CountryCodeSplitsIdentity(code: string, rest: string)
    requires code != [] && forall i :: 0 <= i < |code| ==> IsDigit(code[i])
    requires forall i :: 0 <= i < |rest| ==> IsDigit(rest[i])
    ensures NormalizePhone(WithCountryCode(code, rest)) != NormalizePhone(rest)
  {
    CountryCodeKey(code, rest);
    NormalizeDigits(rest);
    assert |code + rest| == |code| + |rest|;
  }

  /** The key of "+1 9873312399" is the country code followed by the line. */
  lemma CountryCodeKey(code: string, rest: string)
    requires forall i :: 0 <= i < |code| ==> IsDigit(code[i])
    requires forall i :: 0 <= i < |rest| ==> IsDigit(rest[i])
    ensures NormalizePhone(WithCountryCode(code, rest)) == code + rest
  {
    var a: string, b: string := ['+'] + code, [' '] + rest;
    assert WithCountryCode(code, rest) == a + b;
    CodeAndRestKeys(code, rest);
    NormalizeAppend(a, b);
  }

  /** Each group of "+1 9873312399" keys to its digits. */
  lemma CodeAndRestKeys(code: string, rest: string)
    requires forall i :: 0 <= i < |code| ==> IsDigit(code[i])
    requires forall i :: 0 <= i < |rest| ==> IsDigit(rest[i])
    ensures NormalizePhone(['+'] + code) + NormalizePhone([' '] + rest) == code + rest
  {
    var plus: string, sp: string := ['+'], [' '];
    SymbolsThenDigits(plus, code);
    SymbolsThenDigits(sp, rest);
  }

  /** A line preceded by a country code and a space: "+1 9873312399". */
  function WithCountryCode(code: string, rest: string): string {
    "+" + code + " " + rest
  }
}
