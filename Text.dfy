/** Character classes and whitespace handling shared by the lexer-level rules. */
module Text {

  /** Rust's `char::is_whitespace`: the characters with the Unicode White_Space property. */
  predicate IsWhitespace(c: char) {
    ('\t' <= c <= '\r') || c == ' ' || c == '\U{85}' || c == '\U{A0}' || c == '\U{1680}'
    || ('\U{2000}' <= c <= '\U{200A}') || c == '\U{2028}' || c == '\U{2029}'
    || c == '\U{202F}' || c == '\U{205F}' || c == '\U{3000}'
  }

  predicate IsDigit(c: char) { '0' <= c <= '9' }

  /** First character of `text::ident`: an ASCII letter or an underscore. */
  predicate IsIdentStart(c: char) { 'a' <= c <= 'z' || 'A' <= c <= 'Z' || c == '_' }

  /** Later characters of `text::ident`: ASCII letters, digits and underscores. */
  predicate IsIdentChar(c: char) { IsIdentStart(c) || IsDigit(c) }

  predicate IsQuote(c: char) { c == '"' }
  predicate NotQuote(c: char) { c != '"' }

  predicate AllWhitespace(s: string) { forall i :: 0 <= i < |s| ==> IsWhitespace(s[i]) }

  /** A complete identifier, as `text::ident` reads it. */
  predicate IsIdentWord(w: string) {
    |w| > 0 && IsIdentStart(w[0]) && forall i :: 0 <= i < |w| ==> IsIdentChar(w[i])
  }

  /** The next character cannot extend an identifier or a number that ends just before it. */
  predicate TokenBoundary(s: string) { s == [] || !IsIdentChar(s[0]) }

  /** Length of the longest prefix of `s` whose characters all satisfy `p` (a greedy `repeated`). */
  function CountWhile(p: char -> bool, s: string): (n: nat)
    ensures n <= |s|
    ensures forall i :: 0 <= i < n ==> p(s[i])
    ensures n == |s| || !p(s[n])
  {
    if |s| > 0 && p(s[0]) then 1 + CountWhile(p, s[1..]) else 0
  }

  /** The three facts CountWhile ensures determine it. */
  lemma CountWhileUnique(p: char -> bool, s: string, m: nat)
    requires m <= |s|
    requires forall i :: 0 <= i < m ==> p(s[i])
    requires m == |s| || !p(s[m])
    ensures CountWhile(p, s) == m
  {
  }

  /** `padded`: skip every leading whitespace character. */
  function SkipWs(s: string): (r: string)
    ensures |r| <= |s|
    ensures r == [] || !IsWhitespace(r[0])
  {
    s[CountWhile(IsWhitespace, s)..]
  }

  lemma SkipWsNoWhitespace(s: string)
    requires s == [] || !IsWhitespace(s[0])
    ensures SkipWs(s) == s
  {
    CountWhileUnique(IsWhitespace, s, 0);
  }

  lemma SkipWsIdempotent(s: string)
    ensures SkipWs(SkipWs(s)) == SkipWs(s)
  {
    SkipWsNoWhitespace(SkipWs(s));
  }

  /** Whitespace in front of `s` does not change what skipping whitespace leaves. */
  lemma SkipWsPrefix(w: string, s: string)
    requires AllWhitespace(w)
    ensures SkipWs(w + s) == SkipWs(s)
  {
    var n := CountWhile(IsWhitespace, s);
    var ws := w + s;
    forall i | 0 <= i < |w| + n ensures IsWhitespace(ws[i]) {
      if i >= |w| { assert ws[i] == s[i - |w|]; }
    }
    if |w| + n < |ws| { assert ws[|w| + n] == s[n]; }
    CountWhileUnique(IsWhitespace, ws, |w| + n);
    assert ws[|w| + n..] == s[n..];
  }

  /** ASCII lower-casing of one character. */
  function LowerChar(c: char): char {
    if 'A' <= c <= 'Z' then (c as int - 'A' as int + 'a' as int) as char else c
  }

  /** `to_lowercase` restricted to ASCII, character by character. */
  function Lower(s: string): (r: string)
    ensures |r| == |s|
    ensures forall i :: 0 <= i < |s| ==> r[i] == LowerChar(s[i])
  {
    if s == [] then [] else [LowerChar(s[0])] + Lower(s[1..])
  }

  lemma LowerAppend(a: string, b: string)
    ensures Lower(a + b) == Lower(a) + Lower(b)
  {
    assert forall i :: 0 <= i < |a + b| ==> Lower(a + b)[i] == (Lower(a) + Lower(b))[i];
  }

  /** Number of occurrences of `c` in `s`. */
  function Occurrences(c: char, s: string): nat {
    if s == [] then 0 else (if s[0] == c then 1 else 0) + Occurrences(c, s[1..])
  }

  lemma {:induction false} OccurrencesAppend(c: char, a: string, b: string)
    ensures Occurrences(c, a + b) == Occurrences(c, a) + Occurrences(c, b)
  {
    if a == [] {
      assert a + b == b;
    } else {
      assert (a + b)[1..] == a[1..] + b;
      OccurrencesAppend(c, a[1..], b);
    }
  }
}
