/** `parse`: recursive descent over the token list.

    The source threads one mutable index through the inner functions
    `parseStatements`, `parseExpression`, `parseTerm` and `parseFactor`.
    Here every function takes the tokens still to be read and returns the
    tokens left after it: index `i` of the source is the suffix `tokens[i..]`.
    A token skipped past the end leaves the empty suffix, which behaves like
    any index at or past the end (every read there is `undefined`, and the
    statement loop stops). */
module Parser {
  import opened Results
  import Tokenizer

  /** `Expr`: a number, an identifier string, or one of the object shapes
      `op`, `let`, `function`, `call`, `statements`. */
  datatype Expr =
    | Num(n: int)
    | Ident(name: string)
    | Op(op: string, left: Expr, right: Expr)
    | Let(name: string, value: Expr)
    | Function(params: seq<string>, body: Expr)
    | Call(callee: Expr, args: seq<Expr>)
    | Statements(exprs: seq<Expr>)

  /** `EndOfInput` stands for every read past the last token (the source
      reads `undefined` there and either builds a node holding `undefined`
      or loops forever); `NotANumber` for a token with a digit in which
      `parseInt` finds no number and returns `NaN`. */
  datatype ParseError = EndOfInput | NotANumber(token: string)

  /** A parsed node and the tokens after it. */
  datatype Parsed<T> = Parsed(node: T, rest: seq<string>)

  predicate IsDigit(c: char) {
    '0' <= c <= '9'
  }

  /** `/\d+/.test(token)`: the token contains a digit somewhere. */
  predicate HasDigit(t: string) {
    exists k :: 0 <= k < |t| && IsDigit(t[k])
  }

  /** Number of leading digits of `t`. */
  function DigitRun(t: string): (n: nat)
    ensures n <= |t|
    ensures forall k :: 0 <= k < n ==> IsDigit(t[k])
    ensures n < |t| ==> !IsDigit(t[n])
  {
    if |t| > 0 && IsDigit(t[0]) then 1 + DigitRun(t[1..]) else 0
  }

  /** The value of a string of decimal digits. */
  function DecimalValue(d: string): nat
    requires forall k :: 0 <= k < |d| ==> IsDigit(d[k])
  {
    if |d| == 0 then 0 else 10 * DecimalValue(d[..|d| - 1]) + DigitValue(d[|d| - 1])
  }

  function DigitValue(c: char): (v: nat)
    requires IsDigit(c)
    ensures v <= 9
  {
    (c as int) - ('0' as int)
  }

  /** The value of the leading run of digits of `t`. */
  function LeadingNumber(t: string): nat {
    var n := DigitRun(t);
    DecimalValue(t[..n])
  }

  /** Length of the leading run of the whitespace `parseInt` skips (the
      same set as `\s`). */
  function SpaceRun(t: string): (n: nat)
    ensures n <= |t|
    ensures forall k :: 0 <= k < n ==> Tokenizer.IsSpace(t[k])
    ensures n < |t| ==> !Tokenizer.IsSpace(t[n])
  {
    if |t| > 0 && Tokenizer.IsSpace(t[0]) then 1 + SpaceRun(t[1..]) else 0
  }

  /** `parseInt(t, 10)`: leading whitespace is skipped, then one `+` or `-`
      is read, then the leading run of digits is the magnitude. Without a
      digit there the result is `NaN`, which is `NotANumber`. */
  function ParseInt(t: string): (r: Result<int, ParseError>)
    ensures r.Err? ==> r.error == NotANumber(t)
    ensures |t| > 0 && IsDigit(t[0]) ==> r == Ok(LeadingNumber(t))
  {
    ParseSigned(t[SpaceRun(t)..], t)
  }

  /** The part of `parseInt` after the whitespace: an optional sign. */
  function ParseSigned(s: string, t: string): (r: Result<int, ParseError>)
    ensures r.Err? ==> r.error == NotANumber(t)
    ensures |s| > 0 && IsDigit(s[0]) ==> r == Ok(LeadingNumber(s))
  {
    if |s| > 0 && s[0] == '-' then
      var n :- ParseDigits(s[1..], t);
      Ok(-(n as int))
    else if |s| > 0 && s[0] == '+' then ParseDigits(s[1..], t)
    else ParseDigits(s, t)
  }

  /** The digits `parseInt` reads: at least one is needed. */
  function ParseDigits(d: string, t: string): (r: Result<nat, ParseError>)
    ensures r.Ok? <==> |d| > 0 && IsDigit(d[0])
    ensures r.Ok? ==> r.value == LeadingNumber(d)
    ensures r.Err? ==> r.error == NotANumber(t)
  {
    if DigitRun(d) == 0 then Err(NotANumber(t)) else Ok(LeadingNumber(d))
  }

  function DigitChar(d: nat): (c: char)
    requires d <= 9
    ensures IsDigit(c) && DigitValue(c) == d
  {
    ('0' as int + d) as char
  }

  /** Decimal digits of a natural number, without leading zeros. */
  function DecimalString(n: nat): (s: string)
    ensures |s| > 0 && IsDigit(s[0])
    ensures forall k :: 0 <= k < |s| ==> IsDigit(s[k])
    decreases n
  {
    if n < 10 then [DigitChar(n)] else DecimalString(n / 10) + [DigitChar(n % 10)]
  }

  /** The decimal form of an integer, a `-` before the digits of a negative
      number: JavaScript's `String(n)` for |n| < 1e21. */
  function NumberText(n: int): string {
    if n < 0 then "-" + DecimalString(-n) else DecimalString(n)
  }

  /** Blind `index++`: the token is not looked at. */
  function Skip(ts: seq<string>): (r: seq<string>)
    ensures |r| <= |ts| && (|ts| > 0 ==> |r| < |ts|)
  {
    if |ts| == 0 then [] else ts[1..]
  }

  /** The source's `tokens[index] === t`. */
  predicate NextIs(ts: seq<string>, t: string) {
    |ts| > 0 && ts[0] == t
  }

  /** `parseFactor`: a token containing a digit is a number, `(` opens a
      nested expression whose closing token is skipped unread, and any other
      token is an identifier. */
  function ParseFactor(ts: seq<string>): (r: Result<Parsed<Expr>, ParseError>)
    ensures r.Ok? ==> |r.value.rest| < |ts|
    decreases |ts|, 0
  {
    if |ts| == 0 then Err(EndOfInput)
    else
      var t := ts[0];
      if HasDigit(t) then
        var n :- ParseInt(t);
        Ok(Parsed(Num(n), ts[1..]))
      else if t == "(" then
        var inner :- ParseExpression(ts[1..]);
        Ok(Parsed(inner.node, Skip(inner.rest)))
      else Ok(Parsed(Ident(t), ts[1..]))
  }

  /** `parseTerm`: factors joined by `*` and `/`, folded to the left. */
  function ParseTerm(ts: seq<string>): (r: Result<Parsed<Expr>, ParseError>)
    ensures r.Ok? ==> |r.value.rest| < |ts|
    decreases |ts|, 1
  {
    var first :- ParseFactor(ts);
    ParseProducts(first.node, first.rest)
  }

  /** The `while` loop of `parseTerm`, with the tree built so far. */
  function ParseProducts(left: Expr, ts: seq<string>): (r: Result<Parsed<Expr>, ParseError>)
    ensures r.Ok? ==> |r.value.rest| <= |ts|
    decreases |ts|, 1
  {
    if NextIs(ts, "*") || NextIs(ts, "/") then
      var right :- ParseFactor(ts[1..]);
      ParseProducts(Op(ts[0], left, right.node), right.rest)
    else Ok(Parsed(left, ts))
  }

  /** The `while` loop at the end of `parseExpression`: terms joined by `+`
      and `-`, folded to the left. */
  function ParseSums(left: Expr, ts: seq<string>): (r: Result<Parsed<Expr>, ParseError>)
    ensures r.Ok? ==> |r.value.rest| <= |ts|
    decreases |ts|, 2
  {
    if NextIs(ts, "+") || NextIs(ts, "-") then
      var right :- ParseTerm(ts[1..]);
      ParseSums(Op(ts[0], left, right.node), right.rest)
    else Ok(Parsed(left, ts))
  }

  /** The parameter loop of a function definition: names up to `)`, each
      optionally followed by `,`; returns the tokens after the `)`. */
  function ParseParams(ts: seq<string>): (r: Result<Parsed<seq<string>>, ParseError>)
    ensures r.Ok? ==> |r.value.rest| < |ts|
  {
    if |ts| == 0 then Err(EndOfInput)
    else if ts[0] == ")" then Ok(Parsed([], ts[1..]))
    else
      var next := if NextIs(ts[1..], ",") then ts[2..] else ts[1..];
      var more :- ParseParams(next);
      Ok(Parsed([ts[0]] + more.node, more.rest))
  }

  /** The argument loop of a call: expressions up to `)`, each optionally
      followed by `,`; returns the tokens after the `)`. */
  function ParseArgs(ts: seq<string>): (r: Result<Parsed<seq<Expr>>, ParseError>)
    ensures r.Ok? ==> |r.value.rest| < |ts|
    decreases |ts|, 3
  {
    if |ts| == 0 then Err(EndOfInput)
    else if ts[0] == ")" then Ok(Parsed([], ts[1..]))
    else
      var arg :- ParseExpression(ts);
      var next := if NextIs(arg.rest, ",") then arg.rest[1..] else arg.rest;
      var more :- ParseArgs(next);
      Ok(Parsed([arg.node] + more.node, more.rest))
  }

  /** `parseExpression`: a `let` binding (of a function definition when the
      token after the skipped `=` is `(`), or a term that is either called
      (when `(` follows it) or continued by `+`/`-`. */
  function ParseExpression(ts: seq<string>): (r: Result<Parsed<Expr>, ParseError>)
    ensures r.Ok? ==> |r.value.rest| < |ts|
    decreases |ts|, 2
  {
    if NextIs(ts, "let") then
      if |ts| < 2 then Err(EndOfInput)
      else
        var name := ts[1];
        var afterEquals := Skip(ts[2..]);
        if NextIs(afterEquals, "(") then
          var params :- ParseParams(afterEquals[1..]);
          var body :- ParseExpression(Skip(params.rest));
          Ok(Parsed(Let(name, Function(params.node, body.node)), body.rest))
        else
          var value :- ParseExpression(afterEquals);
          Ok(Parsed(Let(name, value.node), value.rest))
    else
      var left :- ParseTerm(ts);
      if NextIs(left.rest, "(") then
        var args :- ParseArgs(left.rest[1..]);
        Ok(Parsed(Call(left.node, args.node), args.rest))
      else ParseSums(left.node, left.rest)
  }

  /** `parseStatements`: expressions until the tokens run out, each
      optionally followed by `;`. At most one statement per token, and at
      least one when any token is left. */
  function ParseStatements(ts: seq<string>): (r: Result<seq<Expr>, ParseError>)
    ensures r.Ok? ==> |r.value| <= |ts|
    ensures r.Ok? ==> (|r.value| == 0 <==> |ts| == 0)
    decreases |ts|
  {
    if |ts| == 0 then Ok([])
    else
      var first :- ParseExpression(ts);
      var next := if NextIs(first.rest, ";") then first.rest[1..] else first.rest;
      var more :- ParseStatements(next);
      Ok([first.node] + more)
  }

  /** `parse`: the whole program is one `statements` node. */
  function Parse(ts: seq<string>): (r: Result<Expr, ParseError>)
    ensures r.Ok? ==> r.value.Statements? && |r.value.exprs| <= |ts|
    ensures r.Ok? && |ts| > 0 ==> |r.value.exprs| > 0
    ensures |ts| == 0 ==> r == Ok(Statements([]))
  {
    var body :- ParseStatements(ts);
    Ok(Statements(body))
  }
}
