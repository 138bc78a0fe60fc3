/** What the scanner promises: token shapes, the special cases of the
    regular expression (`=>`, `let`, maximal word runs, punctuation, dropped
    characters), that the input is its tokens separated by dropped
    characters, and that writing tokens out and scanning again gives them
    back. */
module TokenizerProperties {
  import opened Tokenizer

  /** Every emitted token is non-empty and holds no whitespace: the captured
      group has at least one character and the match is trimmed. */
  lemma TokensAreNonEmptyAndSpaceFree(s: string)
    ensures forall k :: 0 <= k < |Tokenize(s)| ==> |Tokenize(s)[k]| > 0
    ensures forall k, j :: 0 <= k < |Tokenize(s)| && 0 <= j < |Tokenize(s)[k]| ==> !IsSpace(Tokenize(s)[k][j])
  {
    var toks := Tokenize(s);
    forall k | 0 <= k < |toks|
      ensures |toks[k]| > 0 && forall j :: 0 <= j < |toks[k]| ==> !IsSpace(toks[k][j])
    {
      TokenHasNoSpace(toks[k]);
    }
  }

  lemma TokenHasNoSpace(t: string)
    requires IsToken(t)
    ensures |t| > 0 && forall j :: 0 <= j < |t| ==> !IsSpace(t[j])
  {
    if t == "=>" || t == "let" {
      assert forall j :: 0 <= j < |t| ==> t[j] in "=>let";
    }
  }

  /** `=>` is matched before `=`, so it always comes out whole. */
  lemma ArrowIsOneToken(rest: string)
    ensures Tokenize("=>" + rest) == ["=>"] + Tokenize(rest)
  {
    var s := "=>" + rest;
    assert s[..2] == "=>";
    assert s[2..] == rest;
  }

  /** `let` is matched before `\w+`, even inside a longer word:
      `letter` gives `let` and then `ter`. */
  lemma LetIsSplitOff(rest: string)
    ensures Tokenize("let" + rest) == ["let"] + Tokenize(rest)
  {
    var s := "let" + rest;
    assert s[..3] == "let" && s[0] == 'l' && !StartsWith(s, "=>");
    assert MatchAt(s) == Found("let", 3);
    assert s[3..] == rest;
  }

  /** Text after the end of a word run does not change where it ends. */
  lemma {:induction false} WordRunAppend(a: string, t: string)
    requires WordRun(a) < |a| || t == [] || !IsWordChar(t[0])
    ensures WordRun(a + t) == WordRun(a)
    decreases |a|
  {
    if |a| == 0 {
      assert a + t == t;
    } else {
      assert (a + t)[0] == a[0];
      assert (a + t)[1..] == a[1..] + t;
      if IsWordChar(a[0]) {
        WordRunAppend(a[1..], t);
      }
    }
  }

  lemma {:induction false} WordRunOfWordRun(w: string)
    requires forall k :: 0 <= k < |w| ==> IsWordChar(w[k])
    ensures WordRun(w) == |w|
    decreases |w|
  {
    if |w| > 0 {
      WordRunOfWordRun(w[1..]);
    }
  }

  /** A maximal run of word characters that does not begin with `let` is
      emitted as a single token. */
  lemma WordIsOneToken(w: string, rest: string)
    requires IsWordRun(w) && !StartsWith(w, "let")
    requires rest == [] || !IsWordChar(rest[0])
    ensures Tokenize(w + rest) == [w] + Tokenize(rest)
  {
    var s := w + rest;
    WordMatch(w, rest);
    TokenizeFound(s, w, |w|);
    assert s[|w|..] == rest;
  }

  lemma WordMatch(w: string, rest: string)
    requires IsWordRun(w) && !StartsWith(w, "let")
    requires rest == [] || !IsWordChar(rest[0])
    ensures MatchAt(w + rest) == Found(w, |w|)
  {
    var s := w + rest;
    WordRunOfWordRun(w);
    WordRunAppend(w, rest);
    assert s[..|w|] == w;
    assert s[0] == w[0];
    WordNotLet(w, rest);
  }

  /** A word run that does not begin with `let`, followed by a non-word
      character, does not begin with `let` either. */
  lemma WordNotLet(w: string, rest: string)
    requires IsWordRun(w) && !StartsWith(w, "let")
    requires rest == [] || !IsWordChar(rest[0])
    ensures !StartsWith(w + rest, "let")
  {
    var s := w + rest;
    if |w| >= 3 {
      assert s[..3] == w[..3];
    } else if |s| >= 3 {
      assert s[|w|] == rest[0];
      assert s[..3][|w|] == s[|w|];
      assert IsWordChar("let"[|w|]);
    }
  }

  /** Each of `+ - * / = ( ) { } ; , .` is a token of its own (an `=` only
      when no `>` follows it). */
  lemma PunctuationIsOneToken(c: char, rest: string)
    requires IsPunct(c)
    requires !(c == '=' && StartsWith(rest, ">"))
    ensures Tokenize([c] + rest) == [[c]] + Tokenize(rest)
  {
    var s := [c] + rest;
    assert s[0] == c && !IsWordChar(c) && c != 'l';
    assert s[1..] == rest;
    assert !StartsWith(s, "=>") by {
      if c == '=' && |rest| > 0 {
        assert rest[..1] == [rest[0]];
        assert s[1] == rest[0] != '>';
      }
    }
    assert MatchAt(s) == Found([c], 1);
  }

  /** A character where no match can start is dropped without error. */
  lemma InertCharacterIsDropped(c: char, rest: string)
    requires IsInert(c)
    ensures Tokenize([c] + rest) == Tokenize(rest)
  {
    var s := [c] + rest;
    assert s[0] == c;
    assert s[1..] == rest;
  }

  /** Input made only of characters where no match starts (in particular
      empty or all-whitespace input) gives no tokens. */
  lemma {:induction false} InertInputHasNoTokens(s: string)
    requires forall k :: 0 <= k < |s| ==> IsInert(s[k])
    ensures Tokenize(s) == []
    decreases |s|
  {
    if |s| > 0 {
      assert s == [s[0]] + s[1..];
      InertCharacterIsDropped(s[0], s[1..]);
      InertInputHasNoTokens(s[1..]);
    }
  }

  lemma BlankInputHasNoTokens(s: string)
    requires forall k :: 0 <= k < |s| ==> IsSpace(s[k])
    ensures Tokenize(s) == []
  {
    forall k | 0 <= k < |s|
      ensures IsInert(s[k])
    {
      assert IsSpace(s[k]);
    }
    InertInputHasNoTokens(s);
  }

  /** `gaps[0] + toks[0] + gaps[1] + ... + toks[n-1] + gaps[n]`. */
  function Weave(gaps: seq<string>, toks: seq<string>): string
    requires |gaps| == |toks| + 1
  {
    if |toks| == 0 then gaps[0] else gaps[0] + toks[0] + Weave(gaps[1..], toks[1..])
  }

  predicate AllInert(g: string) {
    forall k :: 0 <= k < |g| ==> IsInert(g[k])
  }

  lemma WeaveToken(g: seq<string>, tok: string, toks: seq<string>)
    requires |g| == |toks| + 1
    ensures Weave([""] + g, [tok] + toks) == tok + Weave(g, toks)
  {
    var gs := [""] + g;
    var ts := [tok] + toks;
    assert gs[0] == "" && gs[1..] == g;
    assert ts[0] == tok && ts[1..] == toks;
    assert Weave(gs, ts) == gs[0] + ts[0] + Weave(g, toks);
    assert "" + tok == tok;
  }

  lemma WeaveWidenGap(c: char, g: seq<string>, toks: seq<string>)
    requires |g| == |toks| + 1
    ensures Weave([[c] + g[0]] + g[1..], toks) == [c] + Weave(g, toks)
  {
    var g' := [[c] + g[0]] + g[1..];
    if |toks| > 0 {
      assert g'[1..] == g[1..];
    }
  }

  lemma AllInertCons(h: string, g: seq<string>)
    requires AllInert(h)
    requires forall k :: 0 <= k < |g| ==> AllInert(g[k])
    ensures forall k :: 0 <= k < |[h] + g| ==> AllInert(([h] + g)[k])
  {
  }

  /** The characters the scanner steps over before, between and after the
      tokens. The contract is the statement that the input is exactly its
      tokens, in order, separated only by characters where no match starts. */
  function Gaps(s: string): (gaps: seq<string>)
    ensures |gaps| == |Tokenize(s)| + 1
    ensures Weave(gaps, Tokenize(s)) == s
    ensures forall k :: 0 <= k < |gaps| ==> AllInert(gaps[k])
    decreases |s|
  {
    if |s| == 0 then [""]
    else match MatchAt(s)
      case Found(t, n) =>
        var g := Gaps(s[n..]);
        GapsAfterToken(s, t, n, g);
        [""] + g
      case NoMatch =>
        var g := Gaps(s[1..]);
        GapsAfterInert(s, g, [[s[0]] + g[0]] + g[1..]);
        [[s[0]] + g[0]] + g[1..]
  }

  /** One step of `Gaps` where a token is matched: an empty gap before it. */
  lemma GapsAfterToken(s: string, t: string, n: nat, g: seq<string>)
    requires |s| > 0 && MatchAt(s) == Found(t, n)
    requires |g| == |Tokenize(s[n..])| + 1
    requires Weave(g, Tokenize(s[n..])) == s[n..]
    requires forall k :: 0 <= k < |g| ==> AllInert(g[k])
    ensures |[""] + g| == |Tokenize(s)| + 1
    ensures Weave([""] + g, Tokenize(s)) == s
    ensures forall k :: 0 <= k < |[""] + g| ==> AllInert(([""] + g)[k])
  {
    TokenizeFound(s, t, n);
    MatchSplits(s, t, n);
    WeaveToken(g, t, Tokenize(s[n..]));
    AllInertCons("", g);
  }

  lemma TokenizeFound(s: string, t: string, n: nat)
    requires |s| > 0 && MatchAt(s) == Found(t, n)
    ensures Tokenize(s) == [t] + Tokenize(s[n..])
  {
  }

  lemma MatchSplits(s: string, t: string, n: nat)
    requires MatchAt(s) == Found(t, n)
    ensures n <= |s| && s == t + s[n..]
  {
    assert s == s[..n] + s[n..];
  }

  lemma TokenizeNoMatch(s: string)
    requires |s| > 0 && MatchAt(s) == NoMatch
    ensures Tokenize(s) == Tokenize(s[1..])
  {
  }

  /** One step of `Gaps` where nothing matches: the character joins the
      first gap. */
  lemma GapsAfterInert(s: string, g: seq<string>, wider: seq<string>)
    requires |s| > 0 && MatchAt(s) == NoMatch
    requires |g| == |Tokenize(s[1..])| + 1
    requires Weave(g, Tokenize(s[1..])) == s[1..]
    requires forall k :: 0 <= k < |g| ==> AllInert(g[k])
    requires wider == [[s[0]] + g[0]] + g[1..]
    ensures |wider| == |Tokenize(s)| + 1
    ensures Weave(wider, Tokenize(s)) == s
    ensures forall k :: 0 <= k < |wider| ==> AllInert(wider[k])
  {
    TokenizeNoMatch(s);
    assert IsInert(s[0]) && s == [s[0]] + s[1..];
    WeaveWidenGap(s[0], g, Tokenize(s[1..]));
    WidenedGapIsInert(s[0], g, wider);
  }

  lemma WidenedGapIsInert(c: char, g: seq<string>, wider: seq<string>)
    requires IsInert(c) && |g| > 0
    requires forall k :: 0 <= k < |g| ==> AllInert(g[k])
    requires wider == [[c] + g[0]] + g[1..]
    ensures forall k :: 0 <= k < |wider| ==> AllInert(wider[k])
  {
    forall k | 0 <= k < |wider|
      ensures AllInert(wider[k])
    {
      if k == 0 {
        assert AllInert(g[0]);
      } else {
        assert wider[k] == g[k];
      }
    }
  }

  function Concat(toks: seq<string>): string {
    if |toks| == 0 then "" else toks[0] + Concat(toks[1..])
  }

  predicate IsSubsequence(a: string, b: string)
    decreases |b|
  {
    if |a| == 0 then true
    else if |b| == 0 then false
    else (a[0] == b[0] && IsSubsequence(a[1..], b[1..])) || IsSubsequence(a, b[1..])
  }

  lemma {:induction false} SubsequenceSkip(a: string, g: string, b: string)
    requires IsSubsequence(a, b)
    ensures IsSubsequence(a, g + b)
    decreases |g|
  {
    if |g| == 0 {
      assert g + b == b;
    } else if |a| > 0 {
      SubsequenceSkip(a, g[1..], b);
      assert (g + b)[1..] == g[1..] + b;
      assert IsSubsequence(a, (g + b)[1..]);
    }
  }

  lemma {:induction false} SubsequenceKeep(t: string, a: string, b: string)
    requires IsSubsequence(a, b)
    ensures IsSubsequence(t + a, t + b)
    decreases |t|
  {
    if |t| == 0 {
      assert t + a == a && t + b == b;
    } else {
      SubsequenceKeep(t[1..], a, b);
      assert (t + a)[0] == (t + b)[0];
      assert (t + a)[1..] == t[1..] + a;
      assert (t + b)[1..] == t[1..] + b;
    }
  }

  lemma {:induction false} ConcatIsSubsequenceOfWeave(gaps: seq<string>, toks: seq<string>)
    requires |gaps| == |toks| + 1
    ensures IsSubsequence(Concat(toks), Weave(gaps, toks))
    decreases |toks|
  {
    if |toks| == 0 {
      assert Concat(toks) == "";
    } else {
      ConcatIsSubsequenceOfWeave(gaps[1..], toks[1..]);
      SubsequenceKeep(toks[0], Concat(toks[1..]), Weave(gaps[1..], toks[1..]));
      SubsequenceSkip(toks[0] + Concat(toks[1..]), gaps[0], toks[0] + Weave(gaps[1..], toks[1..]));
      assert gaps[0] + toks[0] + Weave(gaps[1..], toks[1..])
          == gaps[0] + (toks[0] + Weave(gaps[1..], toks[1..]));
    }
  }

  /** Tokens come out in input order: their concatenation is a subsequence
      of the input. */
  lemma TokensAreSubsequence(s: string)
    ensures IsSubsequence(Concat(Tokenize(s)), s)
  {
    var g := Gaps(s);
    ConcatIsSubsequenceOfWeave(g, Tokenize(s));
  }

  lemma PrefixUnaffected(a: string, c: char, b: string, p: string)
    requires |p| <= |a| || p[|a|] != c
    ensures StartsWith(a + [c] + b, p) == StartsWith(a, p)
  {
    var e := a + [c] + b;
    if |p| <= |a| {
      assert e[..|p|] == a[..|p|];
    } else if |p| <= |e| {
      assert e[..|p|][|a|] == c;
    }
  }

  /** A match that starts inside `a` ends inside `a` when `a` is followed by
      a character where no match starts, other than `>`. */
  lemma MatchUnaffected(a: string, c: char, b: string)
    requires |a| > 0 && IsInert(c) && c != '>'
    ensures MatchAt(a + [c] + b) == MatchAt(a)
  {
    var e := a + [c] + b;
    assert e[0] == a[0];
    PrefixUnaffected(a, c, b, "=>");
    assert IsWordChar("let"[1]) && IsWordChar("let"[2]);
    PrefixUnaffected(a, c, b, "let");
    if IsWordChar(a[0]) {
      assert ([c] + b)[0] == c;
      WordRunAppend(a, [c] + b);
      assert e == a + ([c] + b);
      var n := WordRun(a);
      assert e[..n] == a[..n];
    }
  }

  /** Tokenizing splits at a dropped character other than `>`: the tokens
      of `a c b` are those of `a` followed by those of `b`. No token spans
      such a character. */
  lemma {:induction false} SplitAtInert(a: string, c: char, b: string)
    requires IsInert(c) && c != '>'
    ensures Tokenize(a + [c] + b) == Tokenize(a) + Tokenize(b)
    decreases |a|
  {
    if |a| == 0 {
      assert a + [c] + b == [c] + b;
      InertCharacterIsDropped(c, b);
    } else {
      var m := MatchAt(a);
      if m.Found? {
        SplitAtInert(a[m.len..], c, b);
        SplitFound(a, c, b, m.token, m.len);
      } else {
        SplitAtInert(a[1..], c, b);
        SplitNoMatch(a, c, b);
      }
    }
  }

  lemma SplitFound(a: string, c: char, b: string, t: string, n: nat)
    requires IsInert(c) && c != '>' && |a| > 0 && MatchAt(a) == Found(t, n)
    requires Tokenize(a[n..] + [c] + b) == Tokenize(a[n..]) + Tokenize(b)
    ensures Tokenize(a + [c] + b) == Tokenize(a) + Tokenize(b)
  {
    MatchUnaffected(a, c, b);
    JoinSlice(a, c, b, n);
    TokenizeFound(a + [c] + b, t, n);
    TokenizeFound(a, t, n);
  }

  lemma SplitNoMatch(a: string, c: char, b: string)
    requires IsInert(c) && c != '>' && |a| > 0 && MatchAt(a) == NoMatch
    requires Tokenize(a[1..] + [c] + b) == Tokenize(a[1..]) + Tokenize(b)
    ensures Tokenize(a + [c] + b) == Tokenize(a) + Tokenize(b)
  {
    MatchUnaffected(a, c, b);
    JoinSlice(a, c, b, 1);
    TokenizeNoMatch(a + [c] + b);
    TokenizeNoMatch(a);
  }

  lemma JoinSlice(a: string, c: char, b: string, n: nat)
    requires n <= |a|
    ensures (a + [c] + b)[n..] == a[n..] + [c] + b
  {
  }

  /** A token is matched whole when it stands alone. */
  lemma TokenMatchesItself(t: string)
    requires IsToken(t)
    ensures MatchAt(t) == Found(t, |t|)
  {
    assert MatchAt(t) == Found(t, |t|) by {
      if t != "=>" && t != "let" && IsWordRun(t) && !StartsWith(t, "let") {
        WordRunOfWordRun(t);
        assert t[..|t|] == t;
      }
      if t == "let" {
        assert !StartsWith(t, "=>") by { assert t[0] == 'l'; }
      }
      if |t| == 1 && IsPunct(t[0]) {
        assert [t[0]] == t;
      }
    }
  }

  /** A token followed by a space is emitted as itself, and the space is
      dropped. */
  lemma TokenThenSpace(t: string, rest: string)
    requires IsToken(t)
    ensures Tokenize(t + " " + rest) == [t] + Tokenize(rest)
  {
    var e := t + [' '] + rest;
    TokenMatchesItself(t);
    MatchUnaffected(t, ' ', rest);
    assert e[|t|..] == [' '] + rest;
    InertCharacterIsDropped(' ', rest);
  }

  /** Tokens written out again, each followed by one space. */
  function Unlex(toks: seq<string>): string {
    if |toks| == 0 then "" else toks[0] + " " + Unlex(toks[1..])
  }

  /** Writing tokens out with spaces and tokenizing again gives them back. */
  lemma {:induction false} UnlexRoundTrip(toks: seq<string>)
    requires forall k :: 0 <= k < |toks| ==> IsToken(toks[k])
    ensures Tokenize(Unlex(toks)) == toks
    decreases |toks|
  {
    if |toks| > 0 {
      UnlexRoundTrip(toks[1..]);
      TokenThenSpace(toks[0], Unlex(toks[1..]));
    }
  }

  /** Tokenizing is idempotent up to layout: the tokens of any input,
      written out with spaces, tokenize to the same tokens. */
  lemma RetokenizeIsIdentity(s: string)
    ensures Tokenize(Unlex(Tokenize(s))) == Tokenize(s)
  {
    UnlexRoundTrip(Tokenize(s));
  }
}
