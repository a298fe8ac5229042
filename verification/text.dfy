/**
 * JavaScript strings as sequences of UTF-16 code units, with the ASCII
 * lower-casing and the conversation-identifier pattern `^[a-zA-Z0-9]{1,32}$`
 * that the request validators apply (index.mjs, lines 105, 121, 156, 165).
 */
module Text {
  /** One UTF-16 code unit: the element of a JavaScript string; `s.length` counts these. */
  newtype CodeUnit = x: int | 0 <= x < 0x1_0000

  type Str = seq<CodeUnit>

  const UpperA: CodeUnit := 65   // 'A'
  const UpperZ: CodeUnit := 90   // 'Z'
  const LowerA: CodeUnit := 97   // 'a'
  const LowerZ: CodeUnit := 122  // 'z'
  const Digit0: CodeUnit := 48   // '0'
  const Digit9: CodeUnit := 57   // '9'
  /** Distance between an upper-case ASCII letter and its lower-case form. */
  const CaseOffset: CodeUnit := 32

  /** Longest identifier the pattern admits: the `32` of `{1,32}`. */
  const MaxIdLength := 32

  predicate IsAsciiUpper(c: CodeUnit) { UpperA <= c <= UpperZ }
  predicate IsAsciiLower(c: CodeUnit) { LowerA <= c <= LowerZ }
  predicate IsAsciiDigit(c: CodeUnit) { Digit0 <= c <= Digit9 }

  /** The character class `[a-zA-Z0-9]`. */
  predicate IsAsciiAlnum(c: CodeUnit) { IsAsciiUpper(c) || IsAsciiLower(c) || IsAsciiDigit(c) }

  /** `toLowerCase` on one code unit, restricted to the ASCII letters. */
  function LowerUnit(c: CodeUnit): CodeUnit {
    if IsAsciiUpper(c) then c + CaseOffset else c
  }

  /** `String.prototype.toLowerCase`, restricted to the ASCII letters. */
  function ToLowerAscii(s: Str): (r: Str)
    ensures |r| == |s|
    ensures forall i | 0 <= i < |r| :: !IsAsciiUpper(r[i])
    ensures forall i | 0 <= i < |r| :: UnitsMatchIgnoringCase(s[i], r[i])
    ensures forall i | 0 <= i < |r| :: IsAsciiAlnum(r[i]) <==> IsAsciiAlnum(s[i])
  {
    seq(|s|, i requires 0 <= i < |s| => LowerUnit(s[i]))
  }

  /** The regular expression `^[a-zA-Z0-9]{1,32}$`: one to 32 ASCII letters or digits, nothing else. */
  predicate MatchesIdPattern(s: Str): (r: bool)
    ensures r <==> IsConversationId(ToLowerAscii(s))
  {
    1 <= |s| <= MaxIdLength && forall i | 0 <= i < |s| :: IsAsciiAlnum(s[i])
  }

  /**
   * A conversation identifier as the service stores it: one to 32 code units,
   * each a lower-case ASCII letter or an ASCII digit.
   */
  predicate IsConversationId(s: Str) {
    1 <= |s| <= MaxIdLength && forall i | 0 <= i < |s| :: IsAsciiLower(s[i]) || IsAsciiDigit(s[i])
  }

  /** Two code units are equal, or are the upper- and lower-case forms of one ASCII letter. */
  predicate UnitsMatchIgnoringCase(c: CodeUnit, d: CodeUnit) {
    c == d
    || (IsAsciiUpper(c) && d as int == c as int + CaseOffset as int)
    || (IsAsciiUpper(d) && c as int == d as int + CaseOffset as int)
  }

  /** Two strings that differ at most in the case of ASCII letters ("AbC1" and "abc1"). */
  predicate SameIgnoringAsciiCase(a: Str, b: Str) {
    |a| == |b| && forall i | 0 <= i < |a| :: UnitsMatchIgnoringCase(a[i], b[i])
  }

  /** Lower-casing does not change whether a string matches the identifier pattern. */
  lemma LowerPreservesPattern(s: Str)
    ensures MatchesIdPattern(ToLowerAscii(s)) <==> MatchesIdPattern(s)
  {
  }

  /**
   * Two strings lower-case to the same string exactly when they differ at most in
   * the case of ASCII letters: the identifiers that share a channel.
   */
  lemma CaseFold(a: Str, b: Str)
    ensures SameIgnoringAsciiCase(a, b) <==> ToLowerAscii(a) == ToLowerAscii(b)
  {
    if SameIgnoringAsciiCase(a, b) {
      forall i | 0 <= i < |a|
        ensures ToLowerAscii(a)[i] == ToLowerAscii(b)[i]
      {
        assert UnitsMatchIgnoringCase(a[i], b[i]);
      }
    }
    if ToLowerAscii(a) == ToLowerAscii(b) {
      forall i | 0 <= i < |a|
        ensures UnitsMatchIgnoringCase(a[i], b[i])
      {
        assert LowerUnit(a[i]) == ToLowerAscii(a)[i] == ToLowerAscii(b)[i] == LowerUnit(b[i]);
      }
    }
  }
}
