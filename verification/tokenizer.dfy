// `tokenize`: the global match of the regular expression
//   \s*(=>|let|\w+|\d+|[+\-*/=(){};,.])\s*
// with every match trimmed, restated as a scanner over characters.
//
// At each position the regular expression tries `=>`, then `let`, then a
// maximal run of word characters, then one punctuation character; the `\d+`
// alternative can never win because every digit is a word character.
// Surrounding whitespace belongs to the match but is trimmed away, and a
// character where no match can start (whitespace, a quote, `!`, `>` not
// after `=`) is passed over by the global search. So the scanner either
// emits the token found at the current position or drops one character.
module Tokenizer {

  /** `\s` of JavaScript regular expressions (also what `trim` removes). */
  predicate IsSpace(c: char) {
    || c == ' ' || c == '\t' || c == '\n' || c == '\r'
    || c as int == 0x0B || c as int == 0x0C
    || c as int == 0xA0 || c as int == 0x1680
    || (0x2000 <= c as int <= 0x200A)
    || c as int == 0x2028 || c as int == 0x2029 || c as int == 0x202F
    || c as int == 0x205F || c as int == 0x3000 || c as int == 0xFEFF
  }

  /** `\w`: `[A-Za-z0-9_]`. */
  predicate IsWordChar(c: char) {
    ('a' <= c <= 'z') || ('A' <= c <= 'Z') || ('0' <= c <= '9') || c == '_'
  }

  // The single-character alternative: one of + - * / = ( ) { } ; , .
  predicate IsPunct(c: char) {
    || c == '+' || c == '-' || c == '*' || c == '/' || c == '='
    || c == '(' || c == ')' || c == '{' || c == '}'
    || c == ';' || c == ',' || c == '.'
  }

  /** A character where no match can start: the search steps over it. */
  predicate IsInert(c: char) {
    !IsWordChar(c) && !IsPunct(c)
  }

  predicate StartsWith(s: string, prefix: string) {
    |prefix| <= |s| && s[..|prefix|] == prefix
  }

  predicate IsWordRun(t: string) {
    |t| > 0 && forall k :: 0 <= k < |t| ==> IsWordChar(t[k])
  }

  /** The shapes a token can take: `=>`, `let`, a run of word characters
      that does not begin with `let`, or one punctuation character. */
  predicate IsToken(t: string) {
    || t == "=>"
    || t == "let"
    || (IsWordRun(t) && !StartsWith(t, "let"))
    || (|t| == 1 && IsPunct(t[0]))
  }

  /** Length of the greedy `\w+` match at the front of `s`. */
  function WordRun(s: string): (n: nat)
    ensures n <= |s|
    ensures forall k :: 0 <= k < n ==> IsWordChar(s[k])
    ensures n < |s| ==> !IsWordChar(s[n])
  {
    if |s| > 0 && IsWordChar(s[0]) then 1 + WordRun(s[1..]) else 0
  }

  /** What the regular expression matches at the front of `s`: the trimmed
      token and the number of characters it covers, or nothing. */
  datatype Match = NoMatch | Found(token: string, len: nat)

  function MatchAt(s: string): (m: Match)
    ensures m.Found? ==> 0 < m.len <= |s| && m.token == s[..m.len] && IsToken(m.token)
    ensures m.NoMatch? <==> (|s| == 0 || IsInert(s[0]))
  {
    if |s| == 0 then NoMatch
    else if StartsWith(s, "=>") then Found("=>", 2)
    else if StartsWith(s, "let") then Found("let", 3)
    else if IsWordChar(s[0]) then
      var n := WordRun(s);
      assert !StartsWith(s[..n], "let") by {
        if n >= 3 { assert s[..n][..3] == s[..3]; }
      }
      Found(s[..n], n)
    else if IsPunct(s[0]) then Found([s[0]], 1)
    else NoMatch
  }

  function Tokenize(s: string): (toks: seq<string>)
    ensures forall k :: 0 <= k < |toks| ==> IsToken(toks[k])
    decreases |s|
  {
    if |s| == 0 then []
    else match MatchAt(s)
      case Found(t, n) => [t] + Tokenize(s[n..])
      case NoMatch => Tokenize(s[1..])
  }
}
