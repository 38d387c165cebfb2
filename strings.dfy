/** String operations with the semantics of the JavaScript built-ins the source relies on.
    Strings are sequences of Unicode scalar values. */
module Strings {
  import opened Wrappers

  /** The characters matched by the regular-expression class `\s` of ECMAScript, which are
      also the characters `String.prototype.trim` removes: WhiteSpace and LineTerminator. */
  predicate IsWhitespace(c: char) {
    c == '\t' || c == '\n' || c == '\U{000B}' || c == '\U{000C}' || c == '\r' || c == ' '
    || c == '\U{00A0}' || c == '\U{1680}' || ('\U{2000}' <= c <= '\U{200A}')
    || c == '\U{2028}' || c == '\U{2029}' || c == '\U{202F}' || c == '\U{205F}'
    || c == '\U{3000}' || c == '\U{FEFF}'
  }

  /** `\d`: the ASCII decimal digits. */
  predicate IsDigit(c: char) { '0' <= c <= '9' }

  /** The ASCII letters of the class `[a-zA-Z]`. */
  predicate IsAsciiLetter(c: char) { 'a' <= c <= 'z' || 'A' <= c <= 'Z' }

  /** Every character of `s` satisfies `p`. */
  predicate All(s: string, p: char -> bool) {
    forall i :: 0 <= i < |s| ==> p(s[i])
  }

  lemma AllConcat(a: string, b: string, p: char -> bool)
    ensures All(a + b, p) <==> All(a, p) && All(b, p)
  {
    if All(a, p) && All(b, p) {
      forall i | 0 <= i < |a + b| ensures p((a + b)[i]) {
        if i >= |a| { assert (a + b)[i] == b[i - |a|]; }
      }
    }
    if All(a + b, p) {
      forall i | 0 <= i < |a| ensures p(a[i]) { assert a[i] == (a + b)[i]; }
      forall i | 0 <= i < |b| ensures p(b[i]) { assert b[i] == (a + b)[|a| + i]; }
    }
  }

  /** A JavaScript string is truthy iff it is present and not empty. */
  predicate Truthy(o: Option<string>) {
    o.Some? && o.value != ""
  }

  /** `o || fallback` for an optional string. */
  function OrElse(o: Option<string>, fallback: string): (r: string)
    ensures Truthy(o) ==> r == o.value
    ensures !Truthy(o) ==> r == fallback
  {
    if Truthy(o) then o.value else fallback
  }

  /** What a template literal prints for an optional string: `undefined` when it is absent. */
  function Interpolated(o: Option<string>): string {
    match o
    case Some(s) => s
    case None => "undefined"
  }

  /** `String.prototype.trimStart`. */
  function TrimStart(s: string): (r: string)
    ensures |r| <= |s| && r == s[|s| - |r|..]
    ensures r == [] || !IsWhitespace(r[0])
    ensures All(s[..|s| - |r|], IsWhitespace)
  {
    if s != [] && IsWhitespace(s[0]) then
      var r := TrimStart(s[1..]);
      assert s[..|s| - |r|] == [s[0]] + s[1..][..|s[1..]| - |r|];
      AllConcat([s[0]], s[1..][..|s[1..]| - |r|], IsWhitespace);
      r
    else s
  }

  /** `String.prototype.trimEnd`. */
  function TrimEnd(s: string): (r: string)
    ensures |r| <= |s| && r == s[..|r|]
    ensures r == [] || !IsWhitespace(r[|r| - 1])
    ensures All(s[|r|..], IsWhitespace)
  {
    if s != [] && IsWhitespace(s[|s| - 1]) then
      var r := TrimEnd(s[..|s| - 1]);
      assert s[|r|..] == s[..|s| - 1][|r|..] + [s[|s| - 1]];
      AllConcat(s[..|s| - 1][|r|..], [s[|s| - 1]], IsWhitespace);
      r
    else s
  }

  /** `String.prototype.trim`. */
  function Trim(s: string): string {
    TrimEnd(TrimStart(s))
  }

  /** The offset at which `Trim(s)` starts inside `s`. */
  function TrimOffset(s: string): nat {
    |s| - |TrimStart(s)|
  }

  /** Trim keeps the middle of its input: `Trim(s)` is the slice of `s` that starts at
      `TrimOffset(s)`. */
  lemma TrimIsSlice(s: string)
    ensures TrimOffset(s) + |Trim(s)| <= |s|
    ensures s[TrimOffset(s)..TrimOffset(s) + |Trim(s)|] == Trim(s)
  {
    SliceOfSuffix(s, TrimOffset(s), |Trim(s)|);
  }

  /** What Trim removes is white space on both sides. */
  lemma TrimRemovesOnlyWhitespace(s: string)
    ensures TrimOffset(s) + |Trim(s)| <= |s|
    ensures All(s[..TrimOffset(s)], IsWhitespace)
    ensures All(s[TrimOffset(s) + |Trim(s)|..], IsWhitespace)
  {
    SuffixOfSuffix(s, TrimOffset(s), |Trim(s)|);
  }

  /** `Trim(s)` neither starts nor ends with white space. */
  lemma TrimEdges(s: string)
    ensures Trim(s) == [] || (!IsWhitespace(Trim(s)[0]) && !IsWhitespace(Trim(s)[|Trim(s)| - 1]))
  {
    var t := TrimStart(s);
    assert Trim(s) == [] || Trim(s)[0] == t[0];
  }

  lemma SliceOfSuffix(s: string, n: nat, k: nat)
    requires n + k <= |s|
    ensures s[n..][..k] == s[n..n + k]
  {}

  lemma SuffixOfSuffix(s: string, n: nat, k: nat)
    requires n + k <= |s|
    ensures s[n..][k..] == s[n + k..]
  {}

  /** Trimming twice is trimming once. */
  lemma TrimIdempotent(s: string)
    ensures Trim(Trim(s)) == Trim(s)
  {
    var r := Trim(s);
    TrimEdges(s);
    if r != [] {
      assert TrimStart(r) == r;
      assert TrimEnd(r) == r;
    }
  }

  /** The ASCII upper-casing of one character. */
  function UpperChar(c: char): char {
    if 'a' <= c <= 'z' then (c as int - 32) as char else c
  }

  /** `String.prototype.toUpperCase` restricted to ASCII letters (every string the model upper-cases
      is ASCII). */
  function ToUpper(s: string): (r: string)
    ensures |r| == |s|
    ensures forall i :: 0 <= i < |s| ==> r[i] == UpperChar(s[i])
  {
    if s == [] then [] else [UpperChar(s[0])] + ToUpper(s[1..])
  }

  lemma ToUpperConcat(a: string, b: string)
    ensures ToUpper(a + b) == ToUpper(a) + ToUpper(b)
  {
    assert forall i :: 0 <= i < |a + b| ==> ToUpper(a + b)[i] == (ToUpper(a) + ToUpper(b))[i];
  }

  /** Joining three strings. */
  lemma JoinThree(x: string, y: string, z: string, sep: string)
    ensures Join([x, y, z], sep) == x + sep + y + sep + z
  {
    assert [x, y, z][1..] == [y, z] && [y, z][1..] == [z];
    assert Join([z], sep) == z;
    assert Join([y, z], sep) == y + sep + z;
    assert Join([x, y, z], sep) == x + sep + (y + sep + z);
  }

  /** `Array.prototype.join(sep)` on an array of strings. */
  function Join(parts: seq<string>, sep: string): string {
    if parts == [] then ""
    else if |parts| == 1 then parts[0]
    else parts[0] + sep + Join(parts[1..], sep)
  }

  /** A joined list starts with its first part and ends with its last. */
  lemma {:induction false} JoinEdges(parts: seq<string>, sep: string)
    requires parts != []
    ensures StartsWith(Join(parts, sep), parts[0]) && EndsWith(Join(parts, sep), parts[|parts| - 1])
    decreases |parts|
  {
    if |parts| > 1 {
      JoinEdges(parts[1..], sep);
      var rest := Join(parts[1..], sep);
      ConcatEdges(parts[0], sep + rest);
      assert EndsWith(rest, parts[|parts| - 1]);
      var s := parts[0] + sep + rest;
      assert s[|s| - |parts[|parts| - 1]|..] == rest[|rest| - |parts[|parts| - 1]|..];
    }
  }

  /** Joining two non-empty lists is joining each and putting one separator between them. */
  lemma {:induction false} JoinConcat(a: seq<string>, b: seq<string>, sep: string)
    requires a != [] && b != []
    ensures Join(a + b, sep) == Join(a, sep) + sep + Join(b, sep)
    decreases |a|
  {
    assert (a + b)[0] == a[0] && (a + b)[1..] == a[1..] + b;
    if |a| > 1 {
      JoinConcat(a[1..], b, sep);
    }
  }

  /** The index of the last occurrence of `c` in `s`, if any. */
  function LastIndexOf(s: string, c: char): (r: Option<nat>)
    ensures r.Some? ==> r.value < |s| && s[r.value] == c && c !in s[r.value + 1..]
    ensures r.None? ==> c !in s
  {
    if s == [] then None
    else if s[|s| - 1] == c then Some(|s| - 1)
    else
      var r := LastIndexOf(s[..|s| - 1], c);
      assert s == s[..|s| - 1] + [s[|s| - 1]];
      r
  }

  /** The index of the first occurrence of `c` in `s`, if any. */
  function IndexOf(s: string, c: char): (r: Option<nat>)
    ensures r.Some? ==> r.value < |s| && s[r.value] == c && c !in s[..r.value]
    ensures r.None? ==> c !in s
  {
    if s == [] then None
    else if s[0] == c then Some(0)
    else
      match IndexOf(s[1..], c)
      case None => None
      case Some(k) =>
        assert s[..k + 1] == [s[0]] + s[1..][..k];
        Some(k + 1)
  }

  /** `s.split(c).pop()`: the part after the last `c`, or all of `s` when there is none. */
  function AfterLast(s: string, c: char): string {
    match LastIndexOf(s, c)
    case None => s
    case Some(k) => s[k + 1..]
  }

  /** `s.split(c)[0]`: the part before the first `c`, or all of `s` when there is none. */
  function BeforeFirst(s: string, c: char): (r: string)
    ensures StartsWith(s, r) && c !in r
  {
    match IndexOf(s, c)
    case None => s
    case Some(k) => s[..k]
  }

  /** The last segment that `AfterLast` extracts is the part after a final separator, and it
      contains no separator. */
  lemma AfterLastShape(s: string, c: char)
    ensures c !in AfterLast(s, c)
    ensures c in s ==> exists pre: string :: s == pre + [c] + AfterLast(s, c)
    ensures c !in s ==> AfterLast(s, c) == s
  {
    match LastIndexOf(s, c)
    case None =>
    case Some(k) =>
      assert s == s[..k] + [c] + s[k + 1..];
  }

  /** `BeforeFirst` returns the part before the first separator. */
  lemma BeforeFirstOfConcat(a: string, c: char, b: string)
    requires c !in a
    ensures BeforeFirst(a + [c] + b, c) == a
  {
    var s := a + [c] + b;
    match IndexOf(s, c)
    case None => assert s[|a|] == c;
    case Some(k) =>
      assert s[|a|] == c;
      assert s[..|a|] == a;
  }

  /** `AfterLast` returns the part after the final separator. */
  lemma AfterLastOfConcat(a: string, c: char, b: string)
    requires c !in b
    ensures AfterLast(a + [c] + b, c) == b
  {
    var s := a + [c] + b;
    assert s[|a|] == c && s[|a| + 1..] == b;
  }

  /** `s.split(c)` for a one-character separator: the pieces between the separators, in order. */
  function Split(s: string, c: char): (r: seq<string>)
    ensures |r| >= 1
    ensures forall i :: 0 <= i < |r| ==> c !in r[i]
    decreases |s|
  {
    match IndexOf(s, c)
    case None => [s]
    case Some(k) => [s[..k]] + Split(s[k + 1..], c)
  }

  /** The first separator of `a + [c] + b` is the one after `a` when `a` has none. */
  lemma IndexOfConcat(a: string, c: char, b: string)
    requires c !in a
    ensures IndexOf(a + [c] + b, c) == Some(|a|)
  {
    var s := a + [c] + b;
    assert s[|a|] == c;
    assert s[..|a|] == a;
  }

  /** Splitting a joined list gives the list back, when no piece holds the separator. */
  lemma {:induction false} SplitJoin(parts: seq<string>, c: char)
    requires |parts| >= 1
    requires forall i :: 0 <= i < |parts| ==> c !in parts[i]
    ensures Split(Join(parts, [c]), c) == parts
    decreases |parts|
  {
    if |parts| > 1 {
      var rest := Join(parts[1..], [c]);
      IndexOfConcat(parts[0], c, rest);
      var s := parts[0] + [c] + rest;
      assert s[..|parts[0]|] == parts[0] && s[|parts[0]| + 1..] == rest;
      SplitJoin(parts[1..], c);
      assert parts == [parts[0]] + parts[1..];
    }
  }

  /** Joining the pieces of a split with the separator gives the string back. */
  lemma {:induction false} JoinSplit(s: string, c: char)
    ensures Join(Split(s, c), [c]) == s
    decreases |s|
  {
    match IndexOf(s, c)
    case None =>
    case Some(k) =>
      var rest := Split(s[k + 1..], c);
      JoinSplit(s[k + 1..], c);
      assert Split(s, c)[1..] == rest;
      assert s == s[..k] + [c] + s[k + 1..];
  }

  /** The last separator of `a + [c] + b` is the last one of `b`, or the one after `a`. */
  lemma {:induction false} LastIndexOfPrefixed(a: string, c: char, b: string)
    ensures LastIndexOf(a + [c] + b, c) ==
      match LastIndexOf(b, c) case None => Some(|a|) case Some(k) => Some(|a| + 1 + k)
    decreases |b|
  {
    var s := a + [c] + b;
    if b != [] && b[|b| - 1] != c {
      assert s[..|s| - 1] == a + [c] + b[..|b| - 1];
      LastIndexOfPrefixed(a, c, b[..|b| - 1]);
    }
  }

  /** `AfterLast` skips whatever precedes a separator. */
  lemma AfterLastOfPrefixed(a: string, c: char, b: string)
    ensures AfterLast(a + [c] + b, c) == AfterLast(b, c)
  {
    LastIndexOfPrefixed(a, c, b);
    var s := a + [c] + b;
    match LastIndexOf(b, c)
    case None => assert s[|a| + 1..] == b;
    case Some(k) => assert s[|a| + 1 + k + 1..] == b[k + 1..];
  }

  /** `s.split(c).pop()` is the part after the last separator. */
  lemma {:induction false} SplitLastIsAfterLast(s: string, c: char)
    ensures Split(s, c)[|Split(s, c)| - 1] == AfterLast(s, c)
    decreases |s|
  {
    match IndexOf(s, c)
    case None =>
    case Some(k) =>
      var pre, rest := s[..k], s[k + 1..];
      assert s == pre + [c] + rest;
      SplitLastIsAfterLast(rest, c);
      SplitLastOfPrefixed(pre, c, rest);
  }

  /** The inductive step: a leading part and separator change neither the last piece nor
      what follows the last separator. */
  lemma SplitLastOfPrefixed(pre: string, c: char, rest: string)
    requires c !in pre
    requires Split(rest, c)[|Split(rest, c)| - 1] == AfterLast(rest, c)
    ensures Split(pre + [c] + rest, c)[|Split(pre + [c] + rest, c)| - 1] == AfterLast(pre + [c] + rest, c)
  {
    SplitOfPrefixed(pre, c, rest);
    AfterLastOfPrefixed(pre, c, rest);
  }

  /** Splitting at a first separator puts the part before it first. */
  lemma SplitOfPrefixed(pre: string, c: char, rest: string)
    requires c !in pre
    ensures Split(pre + [c] + rest, c) == [pre] + Split(rest, c)
  {
    IndexOfConcat(pre, c, rest);
    var s := pre + [c] + rest;
    assert s[..|pre|] == pre && s[|pre| + 1..] == rest;
  }


  /** `s.startsWith(prefix)`. */
  predicate StartsWith(s: string, prefix: string) {
    |prefix| <= |s| && s[..|prefix|] == prefix
  }

  /** `s.endsWith(suffix)`. */
  predicate EndsWith(s: string, suffix: string) {
    |suffix| <= |s| && s[|s| - |suffix|..] == suffix
  }

  /** A concatenation starts with its left part and ends with its right part. */
  lemma ConcatEdges(a: string, b: string)
    ensures StartsWith(a + b, a) && EndsWith(a + b, b)
  {
    assert (a + b)[..|a|] == a;
    assert (a + b)[|a + b| - |b|..] == b;
  }

  /** The ASCII lower-casing of one character, the canonical form of a case-insensitive match. */
  function LowerChar(c: char): char {
    if 'A' <= c <= 'Z' then (c as int + 32) as char else c
  }

  function ToLower(s: string): (r: string)
    ensures |r| == |s|
    ensures forall i :: 0 <= i < |s| ==> r[i] == LowerChar(s[i])
  {
    if s == [] then [] else [LowerChar(s[0])] + ToLower(s[1..])
  }
}
