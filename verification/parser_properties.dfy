/** Properties of `parse`: the trees it builds for operator chains, `let`
    bindings, calls and statement sequences. */
module ParserProperties {
  import opened Results
  import opened Parser
  import Tokenizer

  predicate IsMulOp(t: string) {
    t == "*" || t == "/"
  }

  predicate IsAddOp(t: string) {
    t == "+" || t == "-"
  }

  /** A token `parseFactor` turns into a leaf: not `(`, and when it holds a
      digit it starts with one. */
  predicate IsLeaf(t: string) {
    t != "(" && (HasDigit(t) ==> |t| > 0 && IsDigit(t[0]))
  }

  /** A leaf that can also start an operand of `parseExpression`: `let`
      would open a binding there instead. */
  predicate IsOperand(t: string) {
    IsLeaf(t) && t != "let"
  }

  /** The leaf `parseFactor` builds from a leaf token. */
  function OperandExpr(t: string): Expr {
    if HasDigit(t) then Num(LeadingNumber(t)) else Ident(t)
  }

  /** A token with a leading digit is the number of its leading digits;
      any other token without a digit, `let` included, is an identifier. */
  lemma FactorOfLeaf(t: string, rest: seq<string>)
    requires IsLeaf(t)
    ensures ParseFactor([t] + rest) == Ok(Parsed(OperandExpr(t), rest))
  {
    assert ([t] + rest)[0] == t;
    assert ([t] + rest)[1..] == rest;
  }

  // ---------------------------------------------------------------------
  // parseInt

  lemma {:induction false} SpaceRunOfPrefix(w: string, s: string)
    requires forall k :: 0 <= k < |w| ==> Tokenizer.IsSpace(w[k])
    requires |s| == 0 || !Tokenizer.IsSpace(s[0])
    ensures SpaceRun(w + s) == |w| && (w + s)[|w|..] == s
    decreases |w|
  {
    if |w| > 0 {
      assert (w + s)[1..] == w[1..] + s;
      SpaceRunOfPrefix(w[1..], s);
    }
  }

  lemma AllDigitsRun(d: string)
    requires forall k :: 0 <= k < |d| ==> IsDigit(d[k])
    ensures DigitRun(d) == |d| && LeadingNumber(d) == DecimalValue(d)
  {
    assert d[..|d|] == d;
  }

  /** `parseInt` skips leading whitespace and reads one sign before the
      digits, so ` -5` is -5 and `+5` is 5. */
  lemma ParseIntSkipsSpaceAndSign(w: string, sign: string, d: string)
    requires forall k :: 0 <= k < |w| ==> Tokenizer.IsSpace(w[k])
    requires sign == "" || sign == "+" || sign == "-"
    requires |d| > 0 && IsDigit(d[0])
    ensures ParseInt(w + sign + d) == Ok(if sign == "-" then -(LeadingNumber(d) as int) else LeadingNumber(d))
  {
    var s := sign + d;
    assert !Tokenizer.IsSpace(s[0]) by {
      if sign == "" { assert s[0] == d[0]; } else { assert s[0] == sign[0]; }
    }
    SpaceRunOfPrefix(w, s);
    assert w + sign + d == w + s;
    ParseIntAfterSpace(w + sign + d, sign, d);
  }

  lemma ParseIntAfterSpace(t: string, sign: string, d: string)
    requires sign == "" || sign == "+" || sign == "-"
    requires |d| > 0 && IsDigit(d[0])
    requires t[SpaceRun(t)..] == sign + d
    ensures ParseInt(t) == Ok(if sign == "-" then -(LeadingNumber(d) as int) else LeadingNumber(d))
  {
    var s := sign + d;
    if sign == "" {
      assert s == d;
    } else {
      assert s[0] == sign[0] && s[1..] == d;
    }
  }

  /** A token whose first character is neither whitespace, a sign nor a
      digit has no number in front: `parseInt` gives `NaN`, so `x1` is not
      a number although it holds a digit. */
  lemma NoLeadingNumber(t: string, rest: seq<string>)
    requires |t| > 0 && !Tokenizer.IsSpace(t[0]) && !IsDigit(t[0]) && t[0] != '+' && t[0] != '-'
    ensures ParseInt(t) == Err(NotANumber(t))
    ensures HasDigit(t) ==> ParseFactor([t] + rest) == Err(NotANumber(t))
  {
    assert SpaceRun(t) == 0;
    assert t[0..] == t;
    assert ([t] + rest)[0] == t;
  }

  lemma {:induction false} DecimalRoundTrip(m: nat)
    ensures DecimalValue(DecimalString(m)) == m
    decreases m
  {
    var s := DecimalString(m);
    if m < 10 {
      assert s[..0] == [];
    } else {
      DecimalRoundTrip(m / 10);
      assert s[..|s| - 1] == DecimalString(m / 10);
    }
  }

  /** The decimal form JavaScript writes for any integer is read back by
      `parseInt` as that integer, and as a token it is that number. */
  lemma NumberTextRoundTrip(n: int, rest: seq<string>)
    ensures ParseInt(NumberText(n)) == Ok(n)
    ensures ParseFactor([NumberText(n)] + rest) == Ok(Parsed(Num(n), rest))
  {
    var m := if n < 0 then -n else n;
    var d := DecimalString(m);
    DecimalRoundTrip(m);
    AllDigitsRun(d);
    ParseIntSkipsSpaceAndSign("", if n < 0 then "-" else "", d);
    assert "" + (if n < 0 then "-" else "") + d == NumberText(n);
    var t := NumberText(n);
    assert HasDigit(t) by {
      assert IsDigit(t[|t| - 1]);
    }
    assert ([t] + rest)[0] == t && ([t] + rest)[1..] == rest;
  }

  // ---------------------------------------------------------------------
  // Parentheses

  /** `(` opens a nested expression, and the token after it is skipped
      unread, whatever it is: the factor is the inner expression. */
  lemma ParenthesisedFactor(ts: seq<string>, e: Expr, c: string, rest: seq<string>)
    requires ParseExpression(ts) == Ok(Parsed(e, [c] + rest))
    ensures ParseFactor(["("] + ts) == Ok(Parsed(e, rest))
  {
    assert (["("] + ts)[1..] == ts;
    assert ([c] + rest)[1..] == rest;
  }

  /** An inner expression that fails makes the factor fail the same way;
      one that uses up every token leaves nothing after the factor. */
  lemma ParenthesisedFactorEnds(ts: seq<string>)
    ensures ParseExpression(ts).Err? ==> ParseFactor(["("] + ts) == Err(ParseExpression(ts).error)
    ensures ParseExpression(ts).Ok? && ParseExpression(ts).value.rest == [] ==>
      ParseFactor(["("] + ts) == Ok(Parsed(ParseExpression(ts).value.node, []))
  {
    assert (["("] + ts)[1..] == ts;
  }

  /** `op1 a1 op2 a2 ...` as tokens. */
  function Chain(pairs: seq<(string, string)>): seq<string> {
    if |pairs| == 0 then [] else [pairs[0].0, pairs[0].1] + Chain(pairs[1..])
  }

  /** The left fold `(((acc op1 a1) op2 a2) ...)`. */
  function FoldChain(acc: Expr, pairs: seq<(string, string)>): Expr
    decreases |pairs|
  {
    if |pairs| == 0 then acc
    else FoldChain(Op(pairs[0].0, acc, OperandExpr(pairs[0].1)), pairs[1..])
  }

  /** A product `a0 op1 a1 ... opn an` with every `op` one of `*` `/`. */
  datatype Product = Product(first: string, factors: seq<(string, string)>)

  predicate WellFormedProduct(p: Product) {
    && IsLeaf(p.first)
    && forall k :: 0 <= k < |p.factors| ==> IsMulOp(p.factors[k].0) && IsLeaf(p.factors[k].1)
  }

  function ProductTokens(p: Product): seq<string> {
    [p.first] + Chain(p.factors)
  }

  function ProductExpr(p: Product): Expr {
    FoldChain(OperandExpr(p.first), p.factors)
  }

  /** `op1 p1 op2 p2 ...` as tokens, each `p` a product. */
  function SumTokens(terms: seq<(string, Product)>): seq<string> {
    if |terms| == 0 then [] else [terms[0].0] + ProductTokens(terms[0].1) + SumTokens(terms[1..])
  }

  function FoldSums(acc: Expr, terms: seq<(string, Product)>): Expr
    decreases |terms|
  {
    if |terms| == 0 then acc
    else FoldSums(Op(terms[0].0, acc, ProductExpr(terms[0].1)), terms[1..])
  }

  predicate WellFormedSum(terms: seq<(string, Product)>) {
    forall k :: 0 <= k < |terms| ==> IsAddOp(terms[k].0) && WellFormedProduct(terms[k].1)
  }

  /** The `*`/`/` loop folds a chain of operands to the left and stops at
      the first token that is neither operator. */
  lemma {:induction false} ProductsFoldLeft(acc: Expr, pairs: seq<(string, string)>, rest: seq<string>)
    requires forall k :: 0 <= k < |pairs| ==> IsMulOp(pairs[k].0) && IsLeaf(pairs[k].1)
    requires !NextIs(rest, "*") && !NextIs(rest, "/")
    ensures ParseProducts(acc, Chain(pairs) + rest) == Ok(Parsed(FoldChain(acc, pairs), rest))
    decreases |pairs|
  {
    var ts := Chain(pairs) + rest;
    if |pairs| == 0 {
      assert ts == rest;
    } else {
      var op, a := pairs[0].0, pairs[0].1;
      var tail := Chain(pairs[1..]) + rest;
      assert ts == [op] + ([a] + tail);
      assert ts[1..] == [a] + tail;
      FactorOfLeaf(a, tail);
      ProductsFoldLeft(Op(op, acc, OperandExpr(a)), pairs[1..], rest);
    }
  }

  lemma TermOfProduct(p: Product, rest: seq<string>)
    requires WellFormedProduct(p)
    requires !NextIs(rest, "*") && !NextIs(rest, "/")
    ensures ParseTerm(ProductTokens(p) + rest) == Ok(Parsed(ProductExpr(p), rest))
  {
    var tail := Chain(p.factors) + rest;
    assert ProductTokens(p) + rest == [p.first] + tail;
    FactorOfLeaf(p.first, tail);
    ProductsFoldLeft(OperandExpr(p.first), p.factors, rest);
  }

  /** The `+`/`-` loop folds a chain of products to the left. */
  lemma {:induction false} SumsFoldLeft(acc: Expr, terms: seq<(string, Product)>, rest: seq<string>)
    requires WellFormedSum(terms)
    requires !NextIs(rest, "*") && !NextIs(rest, "/") && !NextIs(rest, "+") && !NextIs(rest, "-")
    ensures ParseSums(acc, SumTokens(terms) + rest) == Ok(Parsed(FoldSums(acc, terms), rest))
    decreases |terms|
  {
    var ts := SumTokens(terms) + rest;
    if |terms| == 0 {
      assert ts == rest;
    } else {
      var op, p := terms[0].0, terms[0].1;
      var tail := SumTokens(terms[1..]) + rest;
      assert ts == [op] + (ProductTokens(p) + tail);
      assert ts[1..] == ProductTokens(p) + tail;
      assert !NextIs(tail, "*") && !NextIs(tail, "/") by {
        if |terms[1..]| > 0 {
          assert tail[0] == terms[1].0;
        } else {
          assert tail == rest;
        }
      }
      TermOfProduct(p, tail);
      SumsFoldLeft(Op(op, acc, ProductExpr(p)), terms[1..], rest);
    }
  }

  /** Operator precedence and associativity: a flat arithmetic expression
      `p0 + p1 - p2 ...`, where every `p` is a product `a * b / c ...`, parses
      to the left fold of the sums over the left folds of the products. So
      `*` and `/` bind tighter than `+` and `-`, and both levels associate
      to the left. */
  lemma PrecedenceAndAssociativity(p0: Product, terms: seq<(string, Product)>, rest: seq<string>)
    requires WellFormedProduct(p0) && IsOperand(p0.first) && WellFormedSum(terms)
    requires !NextIs(rest, "*") && !NextIs(rest, "/") && !NextIs(rest, "+") && !NextIs(rest, "-")
    requires !NextIs(rest, "(")
    ensures ParseExpression(ProductTokens(p0) + SumTokens(terms) + rest)
         == Ok(Parsed(FoldSums(ProductExpr(p0), terms), rest))
  {
    var tail := SumTokens(terms) + rest;
    var ts := ProductTokens(p0) + tail;
    assert ProductTokens(p0) + SumTokens(terms) + rest == ts;
    assert ts[0] == p0.first;
    assert !NextIs(tail, "*") && !NextIs(tail, "/") && !NextIs(tail, "(") by {
      if |terms| > 0 {
        assert tail[0] == terms[0].0;
      } else {
        assert tail == rest;
      }
    }
    TermOfProduct(p0, tail);
    SumsFoldLeft(ProductExpr(p0), terms, rest);
  }

  /** A statement followed by nothing, by `;`, or by further statements. */
  lemma StatementStep(ts: seq<string>, e: Expr, r: seq<string>)
    requires |ts| > 0
    requires ParseExpression(ts) == Ok(Parsed(e, r))
    ensures NextIs(r, ";") ==> ParseStatements(ts) == (var more :- ParseStatements(r[1..]); Ok([e] + more))
    ensures !NextIs(r, ";") ==> ParseStatements(ts) == (var more :- ParseStatements(r); Ok([e] + more))
  {
  }

  lemma OnlyStatement(ts: seq<string>, e: Expr)
    requires |ts| > 0
    requires ParseExpression(ts) == Ok(Parsed(e, []))
    ensures Parse(ts) == Ok(Statements([e]))
  {
    StatementStep(ts, e, []);
    assert ParseStatements([]) == Ok([]);
    assert [e] + [] == [e];
  }

  lemma SmallNumbers()
    ensures HasDigit("1") && LeadingNumber("1") == 1
    ensures HasDigit("2") && LeadingNumber("2") == 2
    ensures HasDigit("3") && LeadingNumber("3") == 3
    ensures HasDigit("4") && LeadingNumber("4") == 4
    ensures HasDigit("5") && LeadingNumber("5") == 5
    ensures HasDigit("10") && LeadingNumber("10") == 10
  {
    SingleDigit("1", 1);
    SingleDigit("2", 2);
    SingleDigit("3", 3);
    SingleDigit("4", 4);
    SingleDigit("5", 5);
    assert HasDigit("10") && LeadingNumber("10") == 10 by {
      assert IsDigit("10"[0]) && IsDigit("10"[1]);
      assert "10"[1..] == "0" && "0"[1..] == "";
      assert DigitRun("10") == 2;
      assert "10"[..2] == "10" && "10"[..1] == "1";
      SingleDigit("1", 1);
    }
  }

  lemma SingleDigit(t: string, v: nat)
    requires |t| == 1 && IsDigit(t[0]) && DigitValue(t[0]) == v
    ensures HasDigit(t) && LeadingNumber(t) == v
  {
    assert t[1..] == "";
    assert DigitRun(t) == 1;
    assert t[..1] == t && t[..0] == [];
    assert DecimalValue(t) == 10 * DecimalValue(t[..0]) + DigitValue(t[0]);
  }

  /** `2 + 3 * 4` gives `op(+, 2, op(*, 3, 4))`. */
  lemma TimesBindsTighterThanPlus()
    ensures Parse(["2", "+", "3", "*", "4"]) == Ok(Statements([Op("+", Num(2), Op("*", Num(3), Num(4)))]))
  {
    var p0 := Product("2", []);
    var p1 := Product("3", [("*", "4")]);
    var terms := [("+", p1)];
    SmallNumbers();
    assert ProductTokens(p0) + SumTokens(terms) + [] == ["2", "+", "3", "*", "4"];
    PrecedenceAndAssociativity(p0, terms, []);
    assert ProductExpr(p1) == Op("*", Num(3), Num(4));
    assert FoldSums(ProductExpr(p0), terms) == Op("+", Num(2), Op("*", Num(3), Num(4)));
    OnlyStatement(["2", "+", "3", "*", "4"], Op("+", Num(2), Op("*", Num(3), Num(4))));
  }

  /** `10 - 2 - 3` gives `op(-, op(-, 10, 2), 3)`. */
  lemma MinusFoldsLeft()
    ensures Parse(["10", "-", "2", "-", "3"]) == Ok(Statements([Op("-", Op("-", Num(10), Num(2)), Num(3))]))
  {
    var terms := [("-", Product("2", [])), ("-", Product("3", []))];
    SmallNumbers();
    assert ProductTokens(Product("10", [])) + SumTokens(terms) + [] == ["10", "-", "2", "-", "3"];
    PrecedenceAndAssociativity(Product("10", []), terms, []);
    assert FoldSums(Num(10), terms) == Op("-", Op("-", Num(10), Num(2)), Num(3));
    OnlyStatement(["10", "-", "2", "-", "3"], Op("-", Op("-", Num(10), Num(2)), Num(3)));
  }

  /** Parentheses override precedence: `( 2 + 3 ) * 4` gives
      `op(*, op(+, 2, 3), 4)`. */
  lemma ParenthesesGroup()
    ensures Parse(["(", "2", "+", "3", ")", "*", "4"]) == Ok(Statements([Op("*", Op("+", Num(2), Num(3)), Num(4))]))
  {
    var ts := ["(", "2", "+", "3", ")", "*", "4"];
    var sum := Op("+", Num(2), Num(3));
    GroupedSum(ts[1..]);
    assert ["("] + ts[1..] == ts;
    ParenthesisedFactor(ts[1..], sum, ")", ["*", "4"]);
    TimesFour(sum);
    assert ParseTerm(ts) == Ok(Parsed(Op("*", sum, Num(4)), []));
    OnlyStatement(ts, Op("*", sum, Num(4)));
  }

  lemma GroupedSum(inner: seq<string>)
    requires inner == ["2", "+", "3", ")", "*", "4"]
    ensures ParseExpression(inner) == Ok(Parsed(Op("+", Num(2), Num(3)), [")"] + ["*", "4"]))
  {
    var terms := [("+", Product("3", []))];
    SmallNumbers();
    assert ProductTokens(Product("2", [])) + SumTokens(terms) + [")", "*", "4"] == inner;
    PrecedenceAndAssociativity(Product("2", []), terms, [")", "*", "4"]);
    assert [")", "*", "4"] == [")"] + ["*", "4"];
  }

  lemma TimesFour(left: Expr)
    ensures ParseProducts(left, ["*", "4"]) == Ok(Parsed(Op("*", left, Num(4)), []))
  {
    SmallNumbers();
    FactorOfLeaf("4", []);
    assert ["4"] + [] == ["*", "4"][1..];
  }

  /** `a , b , c` as tokens. */
  function CommaList(items: seq<string>): seq<string> {
    if |items| == 0 then []
    else if |items| == 1 then [items[0]]
    else [items[0], ","] + CommaList(items[1..])
  }

  /** The parameter loop returns the names between the parentheses in
      source order, with the commas removed. */
  lemma {:induction false} ParamsInOrder(names: seq<string>, rest: seq<string>)
    requires forall k :: 0 <= k < |names| ==> names[k] != ")"
    ensures ParseParams(CommaList(names) + [")"] + rest) == Ok(Parsed(names, rest))
    decreases |names|
  {
    var ts := CommaList(names) + [")"] + rest;
    if |names| == 0 {
      assert ts == [")"] + rest;
      assert ts[1..] == rest;
    } else if |names| == 1 {
      assert ts == [names[0], ")"] + rest;
      assert ts[1..] == [")"] + rest;
      assert ts[1..][1..] == rest;
      assert !NextIs(ts[1..], ",");
      assert ParseParams(ts[1..]) == Ok(Parsed([], rest));
      assert [names[0]] + [] == names;
    } else {
      var tail := CommaList(names[1..]) + [")"] + rest;
      assert ts == [names[0], ","] + tail;
      assert ts[2..] == tail;
      ParamsInOrder(names[1..], rest);
      assert [names[0]] + names[1..] == names;
    }
  }

  /** `let name = (p1, ..., pn) => body` binds a function node whose
      parameters are the names in order; the tokens in the `=` and `=>`
      positions are skipped without being read. */
  lemma LetFunctionShape(name: string, equals: string, params: seq<string>, arrow: string, bodyTokens: seq<string>)
    requires forall k :: 0 <= k < |params| ==> params[k] != ")"
    requires ParseExpression(bodyTokens).Ok?
    ensures ParseExpression(["let", name, equals, "("] + CommaList(params) + [")", arrow] + bodyTokens)
         == Ok(Parsed(Let(name, Function(params, ParseExpression(bodyTokens).value.node)),
                      ParseExpression(bodyTokens).value.rest))
  {
    var afterParams := [arrow] + bodyTokens;
    var ts := ["let", name, equals, "("] + CommaList(params) + [")", arrow] + bodyTokens;
    LetFunctionTokens(name, equals, params, arrow, bodyTokens);
    ParamsInOrder(params, afterParams);
    LetFunctionBranch(ts, params, afterParams);
  }

  lemma LetFunctionTokens(name: string, equals: string, params: seq<string>, arrow: string, bodyTokens: seq<string>)
    ensures var ts := ["let", name, equals, "("] + CommaList(params) + [")", arrow] + bodyTokens;
      && NextIs(ts, "let") && |ts| >= 2 && ts[1] == name
      && Skip(ts[2..]) == ["("] + (CommaList(params) + [")"] + ([arrow] + bodyTokens))
      && Skip([arrow] + bodyTokens) == bodyTokens
  {
    var list := CommaList(params);
    var arrowBody := [arrow] + bodyTokens;
    var afterEquals := ["("] + (list + [")"] + arrowBody);
    var ts := ["let", name, equals, "("] + list + [")", arrow] + bodyTokens;
    assert [")", arrow] + bodyTokens == [")"] + arrowBody;
    assert ["let", name, equals, "("] + list == ["let", name, equals] + (["("] + list);
    assert ts == ["let", name, equals] + afterEquals;
    assert ts[2..] == [equals] + afterEquals;
    assert arrowBody[1..] == bodyTokens;
  }

  lemma LetFunctionBranch(ts: seq<string>, params: seq<string>, afterParams: seq<string>)
    requires NextIs(ts, "let") && |ts| >= 2
    requires NextIs(Skip(ts[2..]), "(")
    requires ParseParams(Skip(ts[2..])[1..]) == Ok(Parsed(params, afterParams))
    ensures ParseExpression(ts)
         == (var body :- ParseExpression(Skip(afterParams)); Ok(Parsed(Let(ts[1], Function(params, body.node)), body.rest)))
  {
  }

  /** `let name = value` with anything but `(` after the `=` slot binds the
      parsed value; the `=` slot itself is skipped without being read. */
  lemma LetValueShape(name: string, equals: string, valueTokens: seq<string>)
    requires !NextIs(valueTokens, "(")
    ensures ParseExpression(["let", name, equals] + valueTokens)
         == (var v :- ParseExpression(valueTokens); Ok(Parsed(Let(name, v.node), v.rest)))
  {
    var ts := ["let", name, equals] + valueTokens;
    assert ts[2..] == [equals] + valueTokens;
  }

  /** The `=` is never checked: `let x + 5` parses like `let x = 5`. */
  lemma EqualsIsNotChecked()
    ensures Parse(["let", "x", "+", "5"]) == Parse(["let", "x", "=", "5"])
    ensures Parse(["let", "x", "=", "5"]) == Ok(Statements([Let("x", Num(5))]))
  {
    SmallNumbers();
    LetValueShape("x", "+", ["5"]);
    LetValueShape("x", "=", ["5"]);
    ExpressionOfOperand("5", []);
    assert ParseExpression(["5"]) == Ok(Parsed(Num(5), []));
    OnlyStatement(["let", "x", "=", "5"], Let("x", Num(5)));
    OnlyStatement(["let", "x", "+", "5"], Let("x", Num(5)));
  }

  /** The leaves built from operand tokens. */
  function OperandExprs(ts: seq<string>): (es: seq<Expr>)
    ensures |es| == |ts|
  {
    if |ts| == 0 then [] else [OperandExpr(ts[0])] + OperandExprs(ts[1..])
  }

  /** An operand standing alone as an expression: nothing after it extends it. */
  lemma ExpressionOfOperand(t: string, rest: seq<string>)
    requires IsOperand(t)
    requires !NextIs(rest, "*") && !NextIs(rest, "/") && !NextIs(rest, "+") && !NextIs(rest, "-")
    requires !NextIs(rest, "(")
    ensures ParseExpression([t] + rest) == Ok(Parsed(OperandExpr(t), rest))
  {
    PrecedenceAndAssociativity(Product(t, []), [], rest);
    assert ProductTokens(Product(t, [])) + SumTokens([]) + rest == [t] + rest;
  }

  /** The argument loop returns the arguments between the parentheses in
      source order, with the commas removed. */
  lemma {:induction false} ArgsInOrder(args: seq<string>, rest: seq<string>)
    requires forall k :: 0 <= k < |args| ==> IsOperand(args[k]) && args[k] != ")"
    ensures ParseArgs(CommaList(args) + [")"] + rest) == Ok(Parsed(OperandExprs(args), rest))
    decreases |args|
  {
    var ts := CommaList(args) + [")"] + rest;
    if |args| == 0 {
      assert ts == [")"] + rest;
      assert ts[1..] == rest;
    } else if |args| == 1 {
      assert ts == [args[0]] + ([")"] + rest);
      ExpressionOfOperand(args[0], [")"] + rest);
      assert ([")"] + rest)[1..] == rest;
    } else {
      var tail := CommaList(args[1..]) + [")"] + rest;
      assert ts == [args[0]] + ([","] + tail);
      ExpressionOfOperand(args[0], [","] + tail);
      assert ([","] + tail)[1..] == tail;
      ArgsInOrder(args[1..], rest);
    }
  }

  /** `f(a1, ..., an)` is a call node with the arguments in order. */
  lemma CallShape(f: string, args: seq<string>, rest: seq<string>)
    requires IsOperand(f)
    requires forall k :: 0 <= k < |args| ==> IsOperand(args[k]) && args[k] != ")"
    ensures ParseExpression([f, "("] + CommaList(args) + [")"] + rest)
         == Ok(Parsed(Call(OperandExpr(f), OperandExprs(args)), rest))
  {
    var inner := CommaList(args) + [")"] + rest;
    var tail := ["("] + inner;
    assert [f, "("] + CommaList(args) + [")"] + rest == ProductTokens(Product(f, [])) + tail;
    TermOfProduct(Product(f, []), tail);
    assert tail[1..] == inner;
    ArgsInOrder(args, rest);
    CallBranch(ProductTokens(Product(f, [])) + tail, OperandExpr(f), tail);
  }

  lemma CallBranch(ts: seq<string>, callee: Expr, afterCallee: seq<string>)
    requires !NextIs(ts, "let")
    requires ParseTerm(ts) == Ok(Parsed(callee, afterCallee))
    requires NextIs(afterCallee, "(")
    ensures ParseExpression(ts)
         == (var args :- ParseArgs(afterCallee[1..]); Ok(Parsed(Call(callee, args.node), args.rest)))
  {
  }

  /** An argument as written between the parentheses of a call: its tokens
      and the expression they stand for. */
  datatype Argument = Argument(tokens: seq<string>, expr: Expr)

  /** `a1 , a2 , ... an ) rest`, each `ai` the tokens of an argument. */
  function ArgumentTokens(args: seq<Argument>, rest: seq<string>): seq<string>
    decreases |args|
  {
    if |args| == 0 then [")"] + rest
    else args[0].tokens + AfterArgument(args, rest)
  }

  /** What follows the first argument: a comma and the others, or `)`. */
  function AfterArgument(args: seq<Argument>, rest: seq<string>): seq<string>
    requires |args| > 0
    decreases |args|, 0
  {
    if |args| == 1 then [")"] + rest else [","] + ArgumentTokens(args[1..], rest)
  }

  /** The first argument is an expression that stops exactly at its own last
      token, and it does not begin with `)`. */
  predicate ParsesAsArgument(args: seq<Argument>, rest: seq<string>)
    requires |args| > 0
  {
    && |args[0].tokens| > 0 && args[0].tokens[0] != ")"
    && ParseExpression(ArgumentTokens(args, rest)) == Ok(Parsed(args[0].expr, AfterArgument(args, rest)))
  }

  function ArgumentExprs(args: seq<Argument>): (es: seq<Expr>)
    ensures |es| == |args|
  {
    if |args| == 0 then [] else [args[0].expr] + ArgumentExprs(args[1..])
  }

  /** The argument loop for arguments that are whole expressions (sums,
      nested calls, lets): the arguments come out in source order with the
      commas removed, and parsing resumes after `)`. */
  lemma {:induction false} ExpressionArgsInOrder(args: seq<Argument>, rest: seq<string>)
    requires forall k :: 0 <= k < |args| ==> ParsesAsArgument(args[k..], rest)
    ensures ParseArgs(ArgumentTokens(args, rest)) == Ok(Parsed(ArgumentExprs(args), rest))
    decreases |args|
  {
    var ts := ArgumentTokens(args, rest);
    if |args| == 0 {
      assert ts[1..] == rest;
    } else {
      assert ParsesAsArgument(args[0..], rest);
      assert args[0..] == args;
      var after := AfterArgument(args, rest);
      if |args| == 1 {
        assert !NextIs(after, ",") && after[1..] == rest;
        assert ArgumentExprs(args) == [args[0].expr] + [];
      } else {
        var others := args[1..];
        assert after[0] == "," && after[1..] == ArgumentTokens(others, rest);
        forall k | 0 <= k < |others|
          ensures ParsesAsArgument(others[k..], rest)
        {
          assert others[k..] == args[k + 1..];
          assert ParsesAsArgument(args[k + 1..], rest);
        }
        ExpressionArgsInOrder(others, rest);
      }
    }
  }

  /** Any term followed by `(` and a list of whole-expression arguments is a
      call node of that term with the arguments in order. */
  lemma CallOfExpressions(ts: seq<string>, callee: Expr, args: seq<Argument>, rest: seq<string>)
    requires !NextIs(ts, "let")
    requires ParseTerm(ts) == Ok(Parsed(callee, ["("] + ArgumentTokens(args, rest)))
    requires forall k :: 0 <= k < |args| ==> ParsesAsArgument(args[k..], rest)
    ensures ParseExpression(ts) == Ok(Parsed(Call(callee, ArgumentExprs(args)), rest))
  {
    ExpressionArgsInOrder(args, rest);
    assert (["("] + ArgumentTokens(args, rest))[1..] == ArgumentTokens(args, rest);
    CallBranch(ts, callee, ["("] + ArgumentTokens(args, rest));
  }

  /** A one-token callee applied to whole-expression arguments. */
  lemma OperandCallOfExpressions(f: string, args: seq<Argument>, rest: seq<string>)
    requires IsOperand(f)
    requires forall k :: 0 <= k < |args| ==> ParsesAsArgument(args[k..], rest)
    ensures ParseExpression([f, "("] + ArgumentTokens(args, rest))
         == Ok(Parsed(Call(OperandExpr(f), ArgumentExprs(args)), rest))
  {
    var tail := ["("] + ArgumentTokens(args, rest);
    assert [f, "("] + ArgumentTokens(args, rest) == ProductTokens(Product(f, [])) + tail;
    TermOfProduct(Product(f, []), tail);
    CallOfExpressions(ProductTokens(Product(f, [])) + tail, OperandExpr(f), args, rest);
  }

  /** `f ( a + b , g ( x ) )`: a sum and a nested call as arguments. */
  lemma NestedArguments(ts: seq<string>)
    requires ts == ["f", "(", "a", "+", "b", ",", "g", "(", "x", ")", ")"]
    ensures ParseExpression(ts)
         == Ok(Parsed(Call(Ident("f"), [Op("+", Ident("a"), Ident("b")), Call(Ident("g"), [Ident("x")])]), []))
  {
    assert !HasDigit("f") && !HasDigit("a") && !HasDigit("b") && !HasDigit("g") && !HasDigit("x");
    SumAndCallArguments("f", "a", "b", "g", "x", ts[11..]);
    assert ts[11..] == [] && ts == ["f", "(", "a", "+", "b", ",", "g", "(", "x", ")", ")"] + ts[11..];
    assert OperandExpr("f") == Ident("f") && OperandExpr("a") == Ident("a") && OperandExpr("b") == Ident("b");
    assert OperandExpr("g") == Ident("g") && OperandExpr("x") == Ident("x");
  }

  /** `f ( a + b , g ( x ) )` for operand tokens: the call node holds the
      sum and the nested call, in that order. */
  lemma SumAndCallArguments(f: string, a: string, b: string, g: string, x: string, rest: seq<string>)
    requires IsOperand(f) && IsOperand(a) && IsLeaf(b) && IsOperand(g) && IsOperand(x)
    requires a != ")" && g != ")" && x != ")"
    ensures ParseExpression([f, "(", a, "+", b, ",", g, "(", x, ")", ")"] + rest)
         == Ok(Parsed(Call(OperandExpr(f), [Op("+", OperandExpr(a), OperandExpr(b)),
                                             Call(OperandExpr(g), [OperandExpr(x)])]), rest))
  {
    var nested := Argument([g, "(", x, ")"], Call(OperandExpr(g), [OperandExpr(x)]));
    var sum := Argument([a, "+", b], Op("+", OperandExpr(a), OperandExpr(b)));
    CallArgument(g, x, rest);
    LastArgument(nested, rest);
    SumArgument(a, b, [","] + (nested.tokens + ([")"] + rest)));
    TwoArguments(sum, nested, rest);
    var args := [sum, nested];
    OperandCallOfExpressions(f, args, rest);
    assert [f, "(", a, "+", b, ",", g, "(", x, ")", ")"] + rest == [f, "("] + ArgumentTokens(args, rest);
  }

  /** `a + b` as an argument stops at the comma after it. */
  lemma SumArgument(a: string, b: string, after: seq<string>)
    requires IsOperand(a) && IsLeaf(b)
    requires NextIs(after, ",")
    ensures ParseExpression([a, "+", b] + after) == Ok(Parsed(Op("+", OperandExpr(a), OperandExpr(b)), after))
  {
    var terms := [("+", Product(b, []))];
    PrecedenceAndAssociativity(Product(a, []), terms, after);
    assert ProductTokens(Product(a, [])) + SumTokens(terms) + after == [a, "+", b] + after;
    assert FoldSums(ProductExpr(Product(a, [])), terms) == Op("+", OperandExpr(a), OperandExpr(b));
  }

  /** `g ( x )` as the last argument stops at the `)` after it. */
  lemma CallArgument(g: string, x: string, rest: seq<string>)
    requires IsOperand(g) && IsOperand(x) && x != ")"
    ensures ParseExpression([g, "(", x, ")"] + ([")"] + rest)) == Ok(Parsed(Call(OperandExpr(g), [OperandExpr(x)]), [")"] + rest))
  {
    CallShape(g, [x], [")"] + rest);
    assert CommaList([x]) == [x];
    assert [g, "("] + CommaList([x]) + [")"] + ([")"] + rest) == [g, "(", x, ")"] + ([")"] + rest);
    assert [x][1..] == [] && OperandExprs([x]) == [OperandExpr(x)] + OperandExprs([]);
    assert OperandExprs([x]) == [OperandExpr(x)];
    assert ParseExpression([g, "(", x, ")"] + ([")"] + rest)) == Ok(Parsed(Call(OperandExpr(g), OperandExprs([x])), [")"] + rest));
  }

  /** A last argument: it parses up to the `)` after it. */
  lemma LastArgument(last: Argument, rest: seq<string>)
    requires |last.tokens| > 0 && last.tokens[0] != ")"
    requires ParseExpression(last.tokens + ([")"] + rest)) == Ok(Parsed(last.expr, [")"] + rest))
    ensures ArgumentTokens([last], rest) == last.tokens + ([")"] + rest)
    ensures ArgumentExprs([last]) == [last.expr]
    ensures ParsesAsArgument([last], rest)
  {
    assert AfterArgument([last], rest) == [")"] + rest;
    assert ArgumentExprs([last]) == [last.expr] + [];
  }

  /** A first argument followed by a comma and one last argument. */
  lemma TwoArguments(first: Argument, second: Argument, rest: seq<string>)
    requires |first.tokens| > 0 && first.tokens[0] != ")"
    requires ArgumentTokens([second], rest) == second.tokens + ([")"] + rest)
    requires ArgumentExprs([second]) == [second.expr]
    requires ParsesAsArgument([second], rest)
    requires ParseExpression(first.tokens + ([","] + (second.tokens + ([")"] + rest))))
          == Ok(Parsed(first.expr, [","] + (second.tokens + ([")"] + rest))))
    ensures ArgumentTokens([first, second], rest) == first.tokens + ([","] + (second.tokens + ([")"] + rest)))
    ensures ArgumentExprs([first, second]) == [first.expr, second.expr]
    ensures ParsesAsArgument([first, second], rest)
    ensures forall k :: 0 <= k < 2 ==> ParsesAsArgument([first, second][k..], rest)
  {
    var args := [first, second];
    assert args[1..] == [second];
    assert AfterArgument(args, rest) == [","] + (second.tokens + ([")"] + rest));
    assert ParsesAsArgument(args, rest);
    forall k | 0 <= k < 2
      ensures ParsesAsArgument(args[k..], rest)
    {
      assert args[0..] == args;
    }
  }

  /** No `+`/`-` folding follows a call: `f() + 1` is three statements, the
      call, the identifier `+` and the number 1. */
  lemma NothingFoldsAfterCall()
    ensures Parse(["f", "(", ")", "+", "1"]) == Ok(Statements([Call(Ident("f"), []), Ident("+"), Num(1)]))
  {
    assert !HasDigit("f");
    CallShape("f", [], ["+", "1"]);
    assert ["f", "("] + CommaList([]) + [")"] + ["+", "1"] == ["f", "(", ")", "+", "1"];
    assert OperandExprs([]) == [];
    PlusThenOne(["+", "1"]);
    StatementStep(["f", "(", ")", "+", "1"], Call(Ident("f"), []), ["+", "1"]);
    assert !NextIs(["+", "1"], ";");
    assert [Call(Ident("f"), [])] + [Ident("+"), Num(1)] == [Call(Ident("f"), []), Ident("+"), Num(1)];
  }

  /** The tokens `+ 1` alone are two statements. */
  lemma PlusThenOne(ts: seq<string>)
    requires ts == ["+", "1"]
    ensures ParseStatements(ts) == Ok([Ident("+"), Num(1)])
  {
    assert !HasDigit("+");
    SingleDigit("1", 1);
    assert ts == ["+"] + ["1"] && ["1"] == ["1"] + [];
    ExpressionOfOperand("+", ["1"]);
    ExpressionOfOperand("1", []);
    StatementStep(["1"], Num(1), []);
    assert ParseStatements([]) == Ok([]);
    assert [Num(1)] + [] == [Num(1)];
    assert ParseStatements(["1"]) == Ok([Num(1)]);
    StatementStep(ts, Ident("+"), ["1"]);
    assert !NextIs(["1"], ";");
    assert [Ident("+")] + [Num(1)] == [Ident("+"), Num(1)];
  }

  /** An operand that can stand as a statement of its own: nothing before
      or after it can absorb it. */
  predicate IsSimpleStatement(t: string) {
    IsOperand(t) && !IsMulOp(t) && !IsAddOp(t) && t != ";"
  }

  /** Statements written one token each, every one followed by `;` or not. */
  function StatementTokens(stmts: seq<(string, bool)>): seq<string> {
    if |stmts| == 0 then []
    else [stmts[0].0] + (if stmts[0].1 then [";"] else []) + StatementTokens(stmts[1..])
  }

  function StatementExprs(stmts: seq<(string, bool)>): (es: seq<Expr>)
    ensures |es| == |stmts|
  {
    if |stmts| == 0 then [] else [OperandExpr(stmts[0].0)] + StatementExprs(stmts[1..])
  }

  /** The `;` after a statement is consumed when present and is otherwise
      optional: the body has one entry per statement, whichever statements
      carry a terminator. */
  lemma {:induction false} SemicolonsAreOptional(stmts: seq<(string, bool)>)
    requires forall k :: 0 <= k < |stmts| ==> IsSimpleStatement(stmts[k].0)
    ensures ParseStatements(StatementTokens(stmts)) == Ok(StatementExprs(stmts))
    decreases |stmts|
  {
    if |stmts| > 0 {
      var t := stmts[0].0;
      var semi := if stmts[0].1 then [";"] else [];
      var tail := StatementTokens(stmts[1..]);
      var ts := StatementTokens(stmts);
      assert ts == [t] + (semi + tail);
      assert !NextIs(semi + tail, "*") && !NextIs(semi + tail, "/")
          && !NextIs(semi + tail, "+") && !NextIs(semi + tail, "-") && !NextIs(semi + tail, "(") by {
        if stmts[0].1 {
          assert (semi + tail)[0] == ";";
        } else if |stmts[1..]| > 0 {
          assert semi + tail == tail;
          assert tail[0] == stmts[1].0;
        } else {
          assert semi + tail == [];
        }
      }
      ExpressionOfOperand(t, semi + tail);
      if stmts[0].1 {
        assert (semi + tail)[1..] == tail;
      } else {
        assert semi + tail == tail;
        assert !NextIs(tail, ";") by {
          if |stmts[1..]| > 0 {
            assert tail[0] == stmts[1].0;
          }
        }
      }
      SemicolonsAreOptional(stmts[1..]);
    }
  }

  /** A statement that is a whole operator chain `p0 + p1 - ...`, its
      products `a * b / ...`, followed by `;` or not. */
  datatype ChainStatement = ChainStatement(first: Product, terms: seq<(string, Product)>, terminated: bool)

  /** A chain that cannot be read as continuing the statement before it:
      it does not begin with an operator or `;` (nor with `(` or `let`,
      which `IsOperand` excludes). */
  predicate WellFormedChainStatement(c: ChainStatement) {
    && WellFormedProduct(c.first) && IsOperand(c.first.first) && WellFormedSum(c.terms)
    && !IsMulOp(c.first.first) && !IsAddOp(c.first.first) && c.first.first != ";"
  }

  function ChainStatementTokens(stmts: seq<ChainStatement>): seq<string> {
    if |stmts| == 0 then []
    else ProductTokens(stmts[0].first) + SumTokens(stmts[0].terms)
         + (if stmts[0].terminated then [";"] else []) + ChainStatementTokens(stmts[1..])
  }

  function ChainStatementExprs(stmts: seq<ChainStatement>): (es: seq<Expr>)
    ensures |es| == |stmts|
  {
    if |stmts| == 0 then []
    else [FoldSums(ProductExpr(stmts[0].first), stmts[0].terms)] + ChainStatementExprs(stmts[1..])
  }

  /** The next statement's first token is its first operand. */
  lemma ChainStatementTokensStart(stmts: seq<ChainStatement>)
    requires |stmts| > 0
    ensures |ChainStatementTokens(stmts)| > 0 && ChainStatementTokens(stmts)[0] == stmts[0].first.first
  {
  }

  /** The law of `SemicolonsAreOptional` for statements that are operator
      chains: whether each chain is followed by `;` or not, the statement
      list is the list of their left-folded trees. */
  lemma {:induction false} ChainSemicolonsAreOptional(stmts: seq<ChainStatement>)
    requires forall k :: 0 <= k < |stmts| ==> WellFormedChainStatement(stmts[k])
    ensures ParseStatements(ChainStatementTokens(stmts)) == Ok(ChainStatementExprs(stmts))
    decreases |stmts|
  {
    if |stmts| > 0 {
      var c := stmts[0];
      var semi := if c.terminated then [";"] else [];
      var tail := ChainStatementTokens(stmts[1..]);
      var ts := ChainStatementTokens(stmts);
      assert ts == ProductTokens(c.first) + SumTokens(c.terms) + (semi + tail);
      assert |ProductTokens(c.first)| > 0;
      ChainFollower(stmts);
      PrecedenceAndAssociativity(c.first, c.terms, semi + tail);
      ChainSemicolonsAreOptional(stmts[1..]);
    }
  }

  /** What follows a chain statement: its `;`, or the next statement, whose
      first token does not continue the chain. */
  lemma ChainFollower(stmts: seq<ChainStatement>)
    requires |stmts| > 0
    requires forall k :: 0 <= k < |stmts| ==> WellFormedChainStatement(stmts[k])
    ensures var after := (if stmts[0].terminated then [";"] else []) + ChainStatementTokens(stmts[1..]);
      && !NextIs(after, "*") && !NextIs(after, "/") && !NextIs(after, "+") && !NextIs(after, "-")
      && !NextIs(after, "(")
      && (stmts[0].terminated ==> after[1..] == ChainStatementTokens(stmts[1..]))
      && (!stmts[0].terminated ==> after == ChainStatementTokens(stmts[1..]) && !NextIs(after, ";"))
  {
    var tail := ChainStatementTokens(stmts[1..]);
    if stmts[0].terminated {
      assert ([";"] + tail)[0] == ";" && ([";"] + tail)[1..] == tail;
    } else {
      assert [] + tail == tail;
      if |stmts[1..]| > 0 {
        ChainStatementTokensStart(stmts[1..]);
      }
    }
  }

  /** Before a statement that begins with an operator the `;` is not
      optional: `x ; - y` is three statements, `x - y` one. */
  lemma SemicolonBeforeOperatorMatters()
    ensures Parse(["x", ";", "-", "y"]) == Ok(Statements([Ident("x"), Ident("-"), Ident("y")]))
    ensures Parse(["x", "-", "y"]) == Ok(Statements([Op("-", Ident("x"), Ident("y"))]))
  {
    SemicolonThenMinus(["x", ";", "-", "y"]);
    MinusWithoutSemicolon(["x", "-", "y"]);
  }

  lemma SemicolonThenMinus(ts: seq<string>)
    requires ts == ["x", ";", "-", "y"]
    ensures Parse(ts) == Ok(Statements([Ident("x"), Ident("-"), Ident("y")]))
  {
    assert !HasDigit("x") && !HasDigit("y") && !HasDigit("-");
    var afterX := ts[1..];
    var minusY := afterX[1..];
    assert ts == ["x"] + afterX && minusY == ["-"] + ["y"] && ["y"] + [] == ["y"];
    ExpressionOfOperand("y", []);
    StatementStep(["y"], Ident("y"), []);
    assert ParseStatements([]) == Ok([]);
    assert [Ident("y")] + [] == [Ident("y")];
    assert ParseStatements(["y"]) == Ok([Ident("y")]);
    ExpressionOfOperand("-", ["y"]);
    StatementStep(minusY, Ident("-"), ["y"]);
    assert [Ident("-")] + [Ident("y")] == [Ident("-"), Ident("y")];
    assert ParseStatements(minusY) == Ok([Ident("-"), Ident("y")]);
    ExpressionOfOperand("x", afterX);
    StatementStep(ts, Ident("x"), afterX);
    assert afterX[0] == ";";
    assert [Ident("x")] + [Ident("-"), Ident("y")] == [Ident("x"), Ident("-"), Ident("y")];
    assert ParseStatements(ts) == Ok([Ident("x"), Ident("-"), Ident("y")]);
  }

  lemma MinusWithoutSemicolon(ts: seq<string>)
    requires ts == ["x", "-", "y"]
    ensures Parse(ts) == Ok(Statements([Op("-", Ident("x"), Ident("y"))]))
  {
    assert !HasDigit("x") && !HasDigit("y");
    var terms := [("-", Product("y", []))];
    assert ProductTokens(Product("x", [])) + SumTokens(terms) + [] == ts;
    PrecedenceAndAssociativity(Product("x", []), terms, []);
    OnlyStatement(ts, Op("-", Ident("x"), Ident("y")));
  }

  /** `x; y` and `x y` give the same two statements. */
  lemma SemicolonExample()
    ensures Parse(["x", ";", "y"]) == Parse(["x", "y"])
    ensures Parse(["x", "y"]) == Ok(Statements([Ident("x"), Ident("y")]))
  {
    assert !HasDigit("x") && !HasDigit("y");
    SemicolonsAreOptional([("x", true), ("y", false)]);
    SemicolonsAreOptional([("x", false), ("y", false)]);
    assert StatementTokens([("x", true), ("y", false)]) == ["x", ";", "y"];
    assert StatementTokens([("x", false), ("y", false)]) == ["x", "y"];
    assert StatementExprs([("x", false), ("y", false)]) == [Ident("x"), Ident("y")];
  }
}
