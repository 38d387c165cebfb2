/** Integer notation as JavaScript prints and reads it: `Number.prototype.toString(radix)` on a
    non-negative integer and `parseInt(s)` without a radix. */
module Numerals {
  import opened Wrappers
  import opened Strings

  /** The value of one digit character, in either case, for radices up to 36. */
  function DigitValue(c: char): (r: Option<nat>)
    ensures r.Some? ==> r.value < 36
    ensures r.Some? <==> IsDigit(c) || IsAsciiLetter(c)
  {
    if '0' <= c <= '9' then Some(c as int - '0' as int)
    else if 'a' <= c <= 'z' then Some(c as int - 'a' as int + 10)
    else if 'A' <= c <= 'Z' then Some(c as int - 'A' as int + 10)
    else None
  }

  predicate IsRadixDigit(c: char, radix: nat) {
    DigitValue(c).Some? && DigitValue(c).value < radix
  }

  /** Every character of `s` is a digit of the radix. */
  predicate IsNumeral(s: string, radix: nat) {
    forall i :: 0 <= i < |s| ==> IsRadixDigit(s[i], radix)
  }

  /** No character of `s` is an upper-case letter. */
  predicate NoUpper(s: string) {
    forall i :: 0 <= i < |s| ==> !('A' <= s[i] <= 'Z')
  }

  /** The lower-case digit of value `d`, as `toString` prints it. */
  function DigitChar(d: nat): (c: char)
    requires d < 36
    ensures DigitValue(c) == Some(d)
    ensures !('A' <= c <= 'Z')
  {
    if d < 10 then ('0' as int + d) as char else ('a' as int + d - 10) as char
  }

  /** Euclidean division by the radix: the quotient is smaller and recombines with the rest. */
  lemma DivModRadix(n: nat, radix: nat)
    requires 2 <= radix <= 36 && n >= radix
    ensures 0 < n / radix < n
    ensures n % radix < radix
    ensures (n / radix) * radix + n % radix == n
  {
  }

  /** `n.toString(radix)` for a non-negative integer `n`. */
  function ToRadix(n: nat, radix: nat): (r: string)
    requires 2 <= radix <= 36
    ensures |r| > 0 && IsNumeral(r, radix) && NoUpper(r)
    decreases n
  {
    if n < radix then [DigitChar(n)]
    else
      DivModRadix(n, radix);
      var p := ToRadix(n / radix, radix);
      var c := DigitChar(n % radix);
      assert forall i :: 0 <= i < |p| ==> (p + [c])[i] == p[i];
      p + [c]
  }

  /** The value of a string of radix digits, most significant digit first. */
  function FromRadix(s: string, radix: nat): nat
    requires IsNumeral(s, radix)
  {
    if s == [] then 0
    else
      NumeralPrefix(s, radix);
      var prefix := FromRadix(s[..|s| - 1], radix);
      ProductIsNat(prefix, radix);
      prefix * radix + DigitValue(s[|s| - 1]).value
  }

  /** Dropping the last digit of a numeral leaves a numeral. */
  lemma NumeralPrefix(s: string, radix: nat)
    requires IsNumeral(s, radix) && s != []
    ensures IsNumeral(s[..|s| - 1], radix) && IsRadixDigit(s[|s| - 1], radix)
  {
    assert forall i :: 0 <= i < |s| - 1 ==> s[..|s| - 1][i] == s[i];
  }

  lemma ProductIsNat(a: nat, b: nat)
    ensures a * b >= 0
  {
  }

  /** Reading back what `toString(radix)` printed gives the number again. */
  lemma {:induction false} FromRadixToRadix(n: nat, radix: nat)
    requires 2 <= radix <= 36
    ensures FromRadix(ToRadix(n, radix), radix) == n
    decreases n
  {
    if n >= radix {
      var s := ToRadix(n, radix);
      DivModRadix(n, radix);
      assert s[..|s| - 1] == ToRadix(n / radix, radix);
      assert s[|s| - 1] == DigitChar(n % radix);
      FromRadixToRadix(n / radix, radix);
    }
  }

  /** The length of the longest prefix of `s` made of radix digits. */
  function DigitRun(s: string, radix: nat): (k: nat)
    ensures k <= |s|
    ensures forall i :: 0 <= i < k ==> IsRadixDigit(s[i], radix)
    ensures k < |s| ==> !IsRadixDigit(s[k], radix)
  {
    if s == [] || !IsRadixDigit(s[0], radix) then 0 else 1 + DigitRun(s[1..], radix)
  }

  /** `parseInt(s)` with no radix argument: leading white space is skipped, one sign is read, a
      `0x`/`0X` prefix selects radix 16, then the longest run of digits is read. `None` is NaN; an
      absent value is the string "undefined", which is NaN too. */
  function ParseInt(o: Option<string>): (r: Option<int>)
    ensures o.None? ==> r.None?
  {
    if o.None? then None else ParseTrimmed(TrimStart(o.value))
  }

  /** What `parseInt` reads once the white space is skipped: one sign, then the digits. */
  function ParseTrimmed(s: string): Option<int> {
    match ParseUnsigned(Unsigned(s))
    case None => None
    case Some(n) => Some(if Negative(s) then -(n as int) else n as int)
  }

  /** Whether `parseInt` reads a minus sign. */
  predicate Negative(s: string) {
    |s| > 0 && s[0] == '-'
  }

  /** The text after one leading sign. */
  function Unsigned(s: string): string {
    if |s| > 0 && (s[0] == '-' || s[0] == '+') then s[1..] else s
  }

  /** The digits after the sign: a `0x`/`0X` prefix selects radix 16; no digit is NaN. */
  function ParseUnsigned(u: string): (r: Option<nat>) {
    if HexPrefixed(u) then ParseRun(u[2..], 16) else ParseRun(u, 10)
  }

  /** `u` starts with `0x` or `0X`. */
  predicate HexPrefixed(u: string) {
    |u| >= 2 && u[0] == '0' && (u[1] == 'x' || u[1] == 'X')
  }

  /** The value of the leading run of radix digits; none is NaN. */
  function ParseRun(digits: string, radix: nat): (r: Option<nat>) {
    var k := DigitRun(digits, radix);
    if k == 0 then None else Some(FromRadix(digits[..k], radix))
  }

  /** The empty string is NaN. */
  lemma ParseIntOfEmpty()
    ensures ParseInt(Some("")) == None
  {
    assert TrimStart("") == "" && Unsigned("") == "";
    assert DigitRun("", 10) == 0;
  }

  /** Trimming the start of a string that starts with a non-space changes nothing. */
  lemma TrimStartOfUnspaced(s: string)
    requires s != [] && !IsWhitespace(s[0])
    ensures TrimStart(s) == s
  {
  }

  /** One white-space character is trimmed away. */
  lemma {:induction false} TrimStartOfSpaced(c: char, s: string)
    requires IsWhitespace(c)
    ensures TrimStart([c] + s) == TrimStart(s)
  {
    assert ([c] + s)[1..] == s;
  }

  lemma {:induction false} TrimStartAfterWhitespace(w: string, s: string)
    requires forall i :: 0 <= i < |w| ==> IsWhitespace(w[i])
    ensures TrimStart(w + s) == TrimStart(s)
  {
    if w != [] {
      assert w + s == [w[0]] + (w[1..] + s);
      TrimStartOfSpaced(w[0], w[1..] + s);
      TrimStartAfterWhitespace(w[1..], s);
    } else {
      assert w + s == s;
    }
  }

  /** Leading white space is skipped. */
  lemma {:induction false} ParseIntSkipsWhitespace(w: string, s: string)
    requires forall i :: 0 <= i < |w| ==> IsWhitespace(w[i])
    ensures ParseInt(Some(w + s)) == ParseInt(Some(s))
  {
    TrimStartAfterWhitespace(w, s);
  }

  /** Without leading white space nothing is trimmed. */
  lemma {:induction false} ParseIntOfUnspaced(s: string)
    requires s == [] || !IsWhitespace(s[0])
    ensures ParseInt(Some(s)) == ParseTrimmed(s)
  {
    if s == [] {
      assert TrimStart(s) == s;
    } else {
      TrimStartOfUnspaced(s);
    }
  }

  /** After the white space, a string with no sign reads as its digits. */
  lemma {:induction false} ParseTrimmedOfUnsigned(s: string)
    requires s == [] || (s[0] != '-' && s[0] != '+')
    ensures ParseTrimmed(s) == (if ParseUnsigned(s).Some? then Some(ParseUnsigned(s).value as int) else None)
  {
  }

  /** After the white space, a `-` negates the digits that follow. */
  lemma {:induction false} ParseTrimmedOfMinus(s: string)
    ensures ParseTrimmed("-" + s) == (if ParseUnsigned(s).Some? then Some(-(ParseUnsigned(s).value as int)) else None)
  {
    assert ("-" + s)[0] == '-' && ("-" + s)[1..] == s;
  }

  /** After the white space, a `+` is skipped. */
  lemma {:induction false} ParseTrimmedOfPlus(s: string)
    requires s == [] || (s[0] != '-' && s[0] != '+')
    ensures ParseTrimmed("+" + s) == ParseTrimmed(s)
  {
    assert ("+" + s)[0] == '+' && ("+" + s)[1..] == s;
  }

  /** A leading `+` changes nothing. */
  lemma {:induction false} ParseIntOfPlus(s: string)
    requires s == [] || (!IsWhitespace(s[0]) && s[0] != '-' && s[0] != '+')
    ensures ParseInt(Some("+" + s)) == ParseInt(Some(s))
  {
    var plus := "+" + s;
    assert plus[0] == '+';
    ParseIntOfUnspaced(s);
    ParseIntOfUnspaced(plus);
    ParseTrimmedOfPlus(s);
  }

  /** Only one sign is read: after a second one there is no digit, which is NaN. */
  lemma {:induction false} ParseIntOfTwoSigns(a: char, b: char, s: string)
    requires a in "+-" && b in "+-"
    ensures ParseInt(Some([a, b] + s)) == None
  {
    var t := [a, b] + s;
    TrimStartOfUnspaced(t);
    assert Unsigned(t) == [b] + s;
    assert DigitRun([b] + s, 10) == 0;
  }

  /** The digit run of a numeral ends where the numeral does. */
  lemma {:induction false} DigitRunOfConcat(d: string, rest: string, radix: nat)
    requires IsNumeral(d, radix)
    requires rest == [] || !IsRadixDigit(rest[0], radix)
    ensures DigitRun(d + rest, radix) == |d|
  {
    if d != [] {
      assert (d + rest)[1..] == d[1..] + rest;
      DigitRunOfConcat(d[1..], rest, radix);
    }
  }

  /** The run read from a non-empty numeral followed by a non-digit is the numeral. */
  lemma {:induction false} ParseRunOfNumeral(d: string, rest: string, radix: nat)
    requires d != [] && IsNumeral(d, radix)
    requires rest == [] || !IsRadixDigit(rest[0], radix)
    ensures ParseRun(d + rest, radix) == Some(FromRadix(d, radix))
  {
    DigitRunOfConcat(d, rest, radix);
    assert (d + rest)[..|d|] == d;
  }

  /** A non-empty decimal numeral followed by neither a digit nor a letter: its digits, with no
      hexadecimal prefix. */
  lemma {:induction false} ParseUnsignedOfDecimalNumeral(d: string, rest: string)
    requires d != [] && IsNumeral(d, 10)
    requires rest == [] || DigitValue(rest[0]).None?
    ensures ParseUnsigned(d + rest) == Some(FromRadix(d, 10))
  {
    var s := d + rest;
    assert !HexPrefixed(s) by {
      assert s[0] == d[0];
      if |d| >= 2 {
        assert s[1] == d[1] && IsRadixDigit(d[1], 10);
      } else if |s| >= 2 {
        assert s[1] == rest[0];
      }
    }
    ParseRunOfNumeral(d, rest, 10);
  }

  /** A decimal numeral followed by neither a digit nor a letter (or by nothing) parses to its
      value. */
  lemma {:induction false} ParseIntOfDecimalNumeral(d: string, rest: string)
    requires d != [] && IsNumeral(d, 10)
    requires rest == [] || DigitValue(rest[0]).None?
    ensures ParseInt(Some(d + rest)) == Some(FromRadix(d, 10))
  {
    var s := d + rest;
    assert s[0] == d[0] && IsRadixDigit(d[0], 10);
    ParseIntOfUnspaced(s);
    ParseTrimmedOfUnsigned(s);
    ParseUnsignedOfDecimalNumeral(d, rest);
  }

  /** The numeral printed for `n`, followed by neither a digit nor a letter, parses to `n`. */
  lemma {:induction false} ParseIntOfDecimal(n: nat, rest: string)
    requires rest == [] || DigitValue(rest[0]).None?
    ensures ParseInt(Some(ToRadix(n, 10) + rest)) == Some(n)
  {
    ParseIntOfDecimalNumeral(ToRadix(n, 10), rest);
    FromRadixToRadix(n, 10);
  }

  /** A minus sign before a decimal numeral followed by neither a digit nor a letter gives the
      negated value: "-25" parses to -25. */
  lemma {:induction false} ParseIntOfNegative(d: string, rest: string)
    requires d != [] && IsNumeral(d, 10)
    requires rest == [] || DigitValue(rest[0]).None?
    ensures ParseInt(Some("-" + d + rest)) == Some(-(FromRadix(d, 10) as int))
  {
    var s := d + rest;
    assert "-" + d + rest == "-" + s;
    assert ("-" + s)[0] == '-';
    ParseIntOfUnspaced("-" + s);
    ParseTrimmedOfMinus(s);
    ParseUnsignedOfDecimalNumeral(d, rest);
  }

  /** A `0x` or `0X` prefix reads the hexadecimal numeral after it: "0x1A" parses to 26. */
  lemma {:induction false} ParseIntOfHex(h: string, x: char, rest: string)
    requires x == 'x' || x == 'X'
    requires h != [] && IsNumeral(h, 16)
    requires rest == [] || !IsRadixDigit(rest[0], 16)
    ensures ParseInt(Some(['0', x] + h + rest)) == Some(FromRadix(h, 16))
  {
    var s := ['0', x] + h + rest;
    assert s[0] == '0';
    ParseIntOfUnspaced(s);
    ParseTrimmedOfUnsigned(s);
    ParseUnsignedOfHex(h, x, rest);
  }

  /** The digits after a hexadecimal prefix. */
  lemma {:induction false} ParseUnsignedOfHex(h: string, x: char, rest: string)
    requires x == 'x' || x == 'X'
    requires h != [] && IsNumeral(h, 16)
    requires rest == [] || !IsRadixDigit(rest[0], 16)
    ensures ParseUnsigned(['0', x] + h + rest) == Some(FromRadix(h, 16))
  {
    var s := ['0', x] + h + rest;
    assert HexPrefixed(s) && s[2..] == h + rest;
    ParseRunOfNumeral(h, rest, 16);
  }
}
