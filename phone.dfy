/**
 * The customer phone-number validator: the regular expression
 * `^\+?1?\d{9,15}$` applied with Python's `re.search`, plus the column's
 * `max_length` of 17. Each optional piece of the pattern is a disjunction;
 * Python's `$` matches at the end of the string and also just before a
 * final newline.
 */
module Phone {

  /** Maximum length of the phone-number column. */
  const MaxPhoneLength: nat := 17

  predicate IsDigit(c: char) {
    '0' <= c <= '9'
  }

  predicate AllDigits(s: string) {
    forall i :: 0 <= i < |s| ==> IsDigit(s[i])
  }

  /** `\d{9,15}` matching the whole of `s`. */
  predicate DigitRun(s: string) {
    9 <= |s| <= 15 && AllDigits(s)
  }

  /** `1?\d{9,15}` matching the whole of `s`. */
  predicate OneThenDigits(s: string) {
    DigitRun(s) || (|s| > 0 && s[0] == '1' && DigitRun(s[1..]))
  }

  /** `\+?1?\d{9,15}` matching the whole of `s`. */
  predicate PatternMatches(s: string) {
    OneThenDigits(s) || (|s| > 0 && s[0] == '+' && OneThenDigits(s[1..]))
  }

  /** `^...$`: the pattern matches all of `s`, or all of `s` but a final newline. */
  predicate PhoneRegexMatches(s: string) {
    PatternMatches(s) || (|s| > 0 && s[|s| - 1] == '\n' && PatternMatches(s[..|s| - 1]))
  }

  /** What the column accepts: the regular expression and the length limit. */
  predicate PhoneNumberValid(s: string) {
    PhoneRegexMatches(s) && |s| <= MaxPhoneLength
  }

  /** `s` without one leading `+`, if it has one. */
  function WithoutPlus(s: string): (r: string)
    ensures |r| == |s| || (|r| == |s| - 1 && s[0] == '+' && r == s[1..])
  {
    if |s| > 0 && s[0] == '+' then s[1..] else s
  }

  /**
   * The digit-count reading of the pattern: after an optional `+`, only
   * digits, either 9 to 15 of them or a leading `1` and 10 to 16 of them.
   */
  predicate DigitCountRule(s: string) {
    var r := WithoutPlus(s);
    AllDigits(r) && (9 <= |r| <= 15 || (|r| > 0 && r[0] == '1' && 10 <= |r| <= 16))
  }

  lemma OneThenDigitsCharacterized(r: string)
    ensures OneThenDigits(r) <==> AllDigits(r) && (9 <= |r| <= 15 || (|r| > 0 && r[0] == '1' && 10 <= |r| <= 16))
  {
    if |r| > 0 && r[0] == '1' {
      if AllDigits(r[1..]) {
        assert forall i :: 0 < i < |r| ==> r[i] == r[1..][i - 1];
      }
      if AllDigits(r) {
        assert forall i :: 0 <= i < |r| - 1 ==> r[1..][i] == r[i + 1];
      }
    }
  }

  /** The pattern accepts exactly the strings of the digit-count rule. */
  lemma PatternCharacterized(s: string)
    ensures PatternMatches(s) <==> DigitCountRule(s)
  {
    OneThenDigitsCharacterized(s);
    if |s| > 0 && s[0] == '+' {
      OneThenDigitsCharacterized(s[1..]);
      assert !IsDigit(s[0]);
    }
  }

  /** The pattern alone never lets through more than 17 characters. */
  lemma PatternWithinMaxLength(s: string)
    requires PatternMatches(s)
    ensures |s| <= MaxPhoneLength
  {
  }

  /** The phone number the test fixtures use is accepted. */
  lemma FixturePhoneAccepted()
    ensures PhoneNumberValid("+11111111111111")
  {
    assert "+11111111111111"[1..] == "11111111111111";
    assert DigitRun("11111111111111");
  }

  /** Eight digits are too few, and a letter is never accepted. */
  lemma ShortOrNonDigitRejected()
    ensures !PhoneRegexMatches("12345678")
    ensures !PhoneRegexMatches("12345678a")
  {
    PatternCharacterized("12345678");
    PatternCharacterized("12345678a");
    assert !IsDigit("12345678a"[8]);
  }

  /** Because of Python's `$`, a single trailing newline still passes the validator. */
  lemma TrailingNewlineAccepted()
    ensures PhoneNumberValid("123456789\n")
    ensures !PatternMatches("123456789\n")
  {
    assert "123456789\n"[..9] == "123456789";
    PatternCharacterized("123456789\n");
    assert !IsDigit("123456789\n"[9]);
  }
}
