/**
  The coarse e-mail check of the contact form: the JavaScript regular
  expression `/\w+@\w+\.\w+/` applied with `test`, which succeeds when the
  pattern matches ANY substring of the input (the expression is not
  anchored). The expression carries no flags, and `\w` admits characters
  outside ASCII only when the `u` and `i` flags are both set, so here it is
  exactly `[A-Za-z0-9_]`.

  The meaning of the pattern is stated once, as an existential over the
  positions of a matching substring (`ContainsMatch`); the executable
  search `Search` scans the candidate `@` positions and is proved to
  decide exactly that predicate.
 */
module EmailPattern {

  /** `\w` of a JavaScript regular expression that lacks the `u` or `i` flag. */
  predicate IsWordChar(c: char) {
    ('a' <= c <= 'z') || ('A' <= c <= 'Z') || ('0' <= c <= '9') || c == '_'
  }

  /** The characters s[i..j] form a (possibly empty) run of word characters. */
  ghost predicate WordRun(s: string, i: int, j: int) {
    0 <= i <= j <= |s| && forall k :: i <= k < j ==> IsWordChar(s[k])
  }

  /** s[a..d] matches `\w+@\w+\.\w+`, with the `@` at b and the `.` at c. */
  ghost predicate MatchSpan(s: string, a: int, b: int, c: int, d: int) {
    a < b && b + 1 < c && c + 1 < d
    && WordRun(s, a, b) && WordRun(s, b + 1, c) && WordRun(s, c + 1, d)
    && s[b] == '@' && s[c] == '.'
  }

  /** Some substring of s matches the pattern: what `test` reports. */
  ghost predicate ContainsMatch(s: string) {
    exists a, b, c, d :: MatchSpan(s, a, b, c, d)
  }

  /** The end of the maximal run of word characters that starts at i. */
  function WordRunEnd(s: string, i: nat): (e: nat)
    requires i <= |s|
    ensures i <= e <= |s|
    ensures WordRun(s, i, e)
    ensures e < |s| ==> !IsWordChar(s[e])
    decreases |s| - i
  {
    if i < |s| && IsWordChar(s[i]) then WordRunEnd(s, i + 1) else i
  }

  /**
    Some match uses the `@` at position p. A word character before it is
    enough on the left; on the right, the middle run of `\w+` cannot stop
    early because `.` is not a word character, so the `.` must sit exactly
    where the maximal run after the `@` ends, and be followed by a word
    character.
   */
  predicate AtSignMatch(s: string, p: int) {
    0 < p < |s| && s[p] == '@' && IsWordChar(s[p - 1]) &&
    var c := WordRunEnd(s, p + 1);
    p + 1 < c && c + 1 < |s| && s[c] == '.' && IsWordChar(s[c + 1])
  }

  /** A run of word characters ending before a non-word character ends there. */
  lemma WordRunEndIsFirstBreak(s: string, i: nat, c: int)
    requires i <= c < |s|
    requires WordRun(s, i, c) && !IsWordChar(s[c])
    ensures WordRunEnd(s, i) == c
  {
  }

  /** A match found at an `@` position is a genuine matching substring. */
  lemma AtSignMatchSound(s: string, p: int)
    requires AtSignMatch(s, p)
    ensures ContainsMatch(s)
  {
    var c := WordRunEnd(s, p + 1);
    assert MatchSpan(s, p - 1, p, c, c + 2);
  }

  /** Every matching substring is found at the position of its `@`. */
  lemma MatchSpanFoundAtSign(s: string, a: int, b: int, c: int, d: int)
    requires MatchSpan(s, a, b, c, d)
    ensures AtSignMatch(s, b)
  {
  }

  /** The `@` positions from `from` onwards at which a match exists. */
  function FindFrom(s: string, from: nat): (r: bool)
    requires from <= |s|
    ensures r <==> exists p :: from <= p < |s| && AtSignMatch(s, p)
    decreases |s| - from
  {
    if from == |s| then false
    else AtSignMatch(s, from) || FindFrom(s, from + 1)
  }

  /** Scanning the `@` positions decides the existential meaning of the pattern. */
  lemma {:induction false} FindFromDecidesMatch(s: string)
    ensures FindFrom(s, 0) <==> ContainsMatch(s)
  {
    if FindFrom(s, 0) {
      var p :| 0 <= p < |s| && AtSignMatch(s, p);
      AtSignMatchSound(s, p);
    }
    if ContainsMatch(s) {
      var a, b, c, d :| MatchSpan(s, a, b, c, d);
      MatchSpanFoundAtSign(s, a, b, c, d);
    }
  }

  /** `/\w+@\w+\.\w+/.test(s)`: true exactly when some substring matches. */
  function Search(s: string): (r: bool)
    ensures r <==> ContainsMatch(s)
  {
    FindFromDecidesMatch(s);
    FindFrom(s, 0)
  }

  /** The shortest string the pattern matches has five characters. */
  lemma MatchNeedsFiveChars(s: string)
    ensures ContainsMatch(s) ==> |s| >= 5
  {
  }

  /**
    A string the pattern matches contains an `@` preceded by a word
    character and, later, a `.` followed by a word character.
   */
  lemma MatchShape(s: string)
    requires ContainsMatch(s)
    ensures exists i, j :: 0 < i < j < |s| - 1 && s[i] == '@' && s[j] == '.'
                           && IsWordChar(s[i - 1]) && IsWordChar(s[j + 1])
  {
    var a, b, c, d :| MatchSpan(s, a, b, c, d);
    assert IsWordChar(s[b - 1]) && IsWordChar(s[c + 1]);
  }

  /** The pattern is unanchored: text before and after a match does not hide it. */
  lemma PaddingKeepsMatch(pre: string, s: string, post: string)
    requires ContainsMatch(s)
    ensures ContainsMatch(pre + s + post)
  {
    var a, b, c, d :| MatchSpan(s, a, b, c, d);
    var t := pre + s + post;
    var n := |pre|;
    forall k | 0 <= k < |s|
      ensures t[n + k] == s[k]
    {
    }
    assert MatchSpan(t, n + a, n + b, n + c, n + d);
  }

  /** A match inside a substring is a match of the whole string. */
  lemma SubstringMatchIsMatch(s: string, i: int, j: int)
    requires 0 <= i <= j <= |s|
    requires ContainsMatch(s[i..j])
    ensures ContainsMatch(s)
  {
    var a, b, c, d :| MatchSpan(s[i..j], a, b, c, d);
    assert MatchSpan(s, i + a, i + b, i + c, i + d);
  }
}
