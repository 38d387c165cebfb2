/** The phone-number regular expression `^[\+]?[1-9]?[\d\s\-\(\)]{10,}$`, which both the server's
    validation rules and the browser's `isValidPhone` use. */
module Patterns {
  import opened Strings

  /** The class `[\d\s\-\(\)]`. */
  predicate IsPhoneChar(c: char) {
    IsDigit(c) || IsWhitespace(c) || c == '-' || c == '(' || c == ')'
  }

  /** The class `[1-9]`. */
  predicate IsNonZeroDigit(c: char) { '1' <= c <= '9' }

  /** One way the regex can match `s`: `p` characters for the optional `+` and `d` for the
      optional leading digit, then ten or more characters of the class, up to the end. */
  ghost predicate PhoneRegexMatchesWith(s: string, p: nat, d: nat) {
    && p <= 1 && d <= 1 && p + d <= |s|
    && (p == 1 ==> s[0] == '+')
    && (d == 1 ==> IsNonZeroDigit(s[p]))
    && |s| - p - d >= 10
    && All(s[p + d..], IsPhoneChar)
  }

  /** The regex accepts `s` under some choice of the two optional parts. */
  ghost predicate PhoneRegexMatches(s: string) {
    exists p: nat, d: nat | p <= 1 && d <= 1 :: PhoneRegexMatchesWith(s, p, d)
  }

  /** `s` without its leading `+`, if it has one. */
  function AfterPlus(s: string): string {
    if s != [] && s[0] == '+' then s[1..] else s
  }

  /** The regex read directly: the optional `[1-9]` is itself in the class, so what follows an
      optional `+` must be ten or more characters of the class. */
  predicate IsPhonePattern(s: string) {
    |AfterPlus(s)| >= 10 && All(AfterPlus(s), IsPhoneChar)
  }

  /** The direct reading and the regex accept the same strings. */
  lemma PhonePatternIsRegex(s: string)
    ensures IsPhonePattern(s) <==> PhoneRegexMatches(s)
  {
    if IsPhonePattern(s) {
      var p := if s != [] && s[0] == '+' then 1 else 0;
      assert PhoneRegexMatchesWith(s, p, 0);
    }
    if PhoneRegexMatches(s) {
      var p: nat, d: nat :| p <= 1 && d <= 1 && PhoneRegexMatchesWith(s, p, d);
      MatchIsPhonePattern(s, p, d);
    }
  }

  /** Any way the regex matches leaves ten or more class characters after an optional `+`. */
  lemma MatchIsPhonePattern(s: string, p: nat, d: nat)
    requires PhoneRegexMatchesWith(s, p, d)
    ensures IsPhonePattern(s)
  {
    assert !IsPhoneChar('+');
    assert s[p..] == s[p..p + d] + s[p + d..];
    AllConcat(s[p..p + d], s[p + d..], IsPhoneChar);
    if p == 0 {
      assert s[0] != '+' by {
        if d == 0 { assert s[0] == s[p + d..][0]; }
      }
    }
    assert AfterPlus(s) == s[p..];
  }
}
