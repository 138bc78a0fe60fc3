/** The program `main.ts` runs: tokenize, parse, evaluate in an empty
    environment. Two worked examples, each from tokens to value: the
    program `main.ts` itself, and a function that reads a variable defined
    after it, which shows that a body sees the caller's environment
    (dynamic scope). */
module Pipeline {
  import opened Results
  import opened Tokenizer
  import opened TokenizerProperties
  import opened Parser
  import opened Evaluator
  import ParserProperties
  import EvaluatorProperties

  datatype RunError = ParseFailed(parse: ParseError) | EvalFailed(eval: EvalError)

  function Run(src: string, fuel: nat): Result<Value, RunError> {
    match Parse(Tokenize(src))
    case Err(pe) => Err(ParseFailed(pe))
    case Ok(ast) =>
      match Eval(ast, map[], fuel)
      case Err(ee) => Err(EvalFailed(ee))
      case Ok(d) => Ok(d.value)
  }

  // ---------------------------------------------------------------------
  // The program in main.ts, as the parser builds it:
  //   let add = (a, b) => a + b; let sub = (a, b) => a - b;
  //   let hoge = (a) => add(sub(a, x), 5) let x = 5; hoge(20)

  function AddFn(): Value { VFun(["a", "b"], Op("+", Ident("a"), Ident("b"))) }
  function SubFn(): Value { VFun(["a", "b"], Op("-", Ident("a"), Ident("b"))) }
  function HogeBody(): Expr { Call(Ident("add"), [Call(Ident("sub"), [Ident("a"), Ident("x")]), Num(5)]) }
  function HogeFn(): Value { VFun(["a"], HogeBody()) }

  function Definitions(): seq<Expr> {
    [ Let("add", Function(AddFn().params, AddFn().body)),
      Let("sub", Function(SubFn().params, SubFn().body)),
      Let("hoge", Function(HogeFn().params, HogeFn().body)),
      Let("x", Num(5)) ]
  }

  function DemoProgram(): Expr {
    Statements(Definitions() + [Call(Ident("hoge"), [Num(20)])])
  }

  function Globals(): Env {
    map["add" := AddFn(), "sub" := SubFn(), "hoge" := HogeFn(), "x" := VNum(5)]
  }

  lemma NoDigit(t: string)
    requires forall k :: 0 <= k < |t| ==> !IsDigit(t[k])
    ensures !HasDigit(t)
  {
  }

  // Single evaluation steps, stated once so the examples below need not
  // unfold `Eval` on whole programs.

  lemma CallStep(callee: Expr, args: seq<Expr>, env: Env, fuel: nat, b: Bound, d: Done)
    requires PropertyKey(callee) in env && env[PropertyKey(callee)].VFun?
    requires fuel > 0
    requires BindArgs(env[PropertyKey(callee)].params, args, env, env, fuel) == Ok(b)
    requires Eval(env[PropertyKey(callee)].body, b.frame, fuel - 1) == Ok(d)
    ensures Eval(Call(callee, args), env, fuel) == Ok(Done(d.value, b.caller))
  {
  }

  lemma BindOne(p: string, arg: Expr, frame: Env, caller: Env, fuel: nat, v: Value)
    requires Eval(arg, caller, fuel) == Ok(Done(v, caller))
    ensures BindArgs([p], [arg], frame, caller, fuel) == Ok(Bound(frame[p := v], caller))
  {
    assert BindArgs([p][1..], [arg][1..], frame[p := v], caller, fuel) == Ok(Bound(frame[p := v], caller));
  }

  lemma BindTwo(p: string, q: string, arg1: Expr, arg2: Expr, frame: Env, caller: Env, fuel: nat, v: Value, w: Value)
    requires Eval(arg1, caller, fuel) == Ok(Done(v, caller))
    requires Eval(arg2, caller, fuel) == Ok(Done(w, caller))
    ensures BindArgs([p, q], [arg1, arg2], frame, caller, fuel) == Ok(Bound(frame[p := v][q := w], caller))
  {
    BindOne(q, arg2, frame[p := v], caller, fuel, w);
    assert [p, q][1..] == [q] && [arg1, arg2][1..] == [arg2];
  }

  lemma VariableStep(x: string, env: Env, fuel: nat, v: Value)
    requires x in env && env[x] == v && v != VUndefined
    ensures Eval(Ident(x), env, fuel) == Ok(Done(v, env))
  {
  }

  lemma OpOfVariables(op: string, x: string, y: string, env: Env, fuel: nat, m: int, n: int)
    requires x in env && env[x] == VNum(m) && y in env && env[y] == VNum(n)
    ensures op == "+" ==> Eval(Op(op, Ident(x), Ident(y)), env, fuel) == Ok(Done(VNum(m + n), env))
    ensures op == "-" ==> Eval(Op(op, Ident(x), Ident(y)), env, fuel) == Ok(Done(VNum(m - n), env))
  {
    VariableStep(x, env, fuel, VNum(m));
    VariableStep(y, env, fuel, VNum(n));
  }

  /** Running a list of statements and then one more, from the facts
      about the two parts. */
  lemma ThenStatement(defs: seq<Expr>, x: Expr, env: Env, mid: Done, result: Done, fuel: nat)
    requires EvalBlock(defs, env, VUndefined, fuel) == Ok(mid)
    requires Eval(x, mid.env, fuel) == Ok(result)
    ensures Eval(Statements(defs + [x]), env, fuel) == Ok(result)
  {
    EvaluatorProperties.BlockSnoc(defs, x, env, VUndefined, fuel);
  }

  lemma DefinitionsStep()
    ensures EvalBlock(Definitions(), map[], VUndefined, 2) == Ok(Done(VNum(5), Globals()))
  {
    var e0: Env := map[];
    var e1 := e0["add" := AddFn()];
    var e2 := e1["sub" := SubFn()];
    var e3 := e2["hoge" := HogeFn()];
    assert Eval(Definitions()[0], e0, 2) == Ok(Done(AddFn(), e1));
    assert Eval(Definitions()[1], e1, 2) == Ok(Done(SubFn(), e2));
    assert Eval(Definitions()[2], e2, 2) == Ok(Done(HogeFn(), e3));
    assert Eval(Definitions()[3], e3, 2) == Ok(Done(VNum(5), Globals()));
    assert EvalBlock(Definitions()[4..], Globals(), VNum(5), 2) == Ok(Done(VNum(5), Globals()));
    assert EvalBlock(Definitions()[3..], e3, HogeFn(), 2) == Ok(Done(VNum(5), Globals()));
    assert EvalBlock(Definitions()[2..], e2, SubFn(), 2) == Ok(Done(VNum(5), Globals()));
    assert EvalBlock(Definitions()[1..], e1, AddFn(), 2) == Ok(Done(VNum(5), Globals()));
  }

  /** `sub(a, x)` inside `hoge`: `x` is found in the environment of the
      call, although `hoge` was defined before `x`. */
  lemma SubStep(frame: Env)
    requires frame == Globals()["a" := VNum(20)]
    ensures Eval(Call(Ident("sub"), [Ident("a"), Ident("x")]), frame, 1) == Ok(Done(VNum(15), frame))
  {
    var inner := frame["a" := VNum(20)]["b" := VNum(5)];
    VariableStep("a", frame, 1, VNum(20));
    VariableStep("x", frame, 1, VNum(5));
    BindTwo("a", "b", Ident("a"), Ident("x"), frame, frame, 1, VNum(20), VNum(5));
    OpOfVariables("-", "a", "b", inner, 0, 20, 5);
    CallStep(Ident("sub"), [Ident("a"), Ident("x")], frame, 1, Bound(inner, frame), Done(VNum(15), inner));
  }

  lemma HogeBodyStep(frame: Env)
    requires frame == Globals()["a" := VNum(20)]
    ensures Eval(HogeBody(), frame, 1) == Ok(Done(VNum(20), frame))
  {
    var inner := frame["a" := VNum(15)]["b" := VNum(5)];
    var args := HogeBody().args;
    assert args == [args[0], Num(5)];
    assert frame["add"] == AddFn();
    SubStep(frame);
    BindTwo("a", "b", args[0], Num(5), frame, frame, 1, VNum(15), VNum(5));
    OpOfVariables("+", "a", "b", inner, 0, 15, 5);
    CallStep(Ident("add"), args, frame, 1, Bound(inner, frame), Done(VNum(20), inner));
  }

  lemma HogeStep()
    ensures Eval(Call(Ident("hoge"), [Num(20)]), Globals(), 2) == Ok(Done(VNum(20), Globals()))
  {
    var frame := Globals()["a" := VNum(20)];
    BindOne("a", Num(20), Globals(), Globals(), 2, VNum(20));
    HogeBodyStep(frame);
    CallStep(Ident("hoge"), [Num(20)], Globals(), 2, Bound(frame, Globals()), Done(VNum(20), frame));
  }

  /** `hoge(20)` is `add(sub(20, 5), 5)`, that is 20; two nested calls
      need two units of fuel. */
  lemma DemoIsTwenty()
    ensures Eval(DemoProgram(), map[], 2) == Ok(Done(VNum(20), Globals()))
  {
    HogeStep();
    DefinitionsStep();
    ThenStatement(Definitions(), Call(Ident("hoge"), [Num(20)]), map[], Done(VNum(5), Globals()),
                  Done(VNum(20), Globals()), 2);
  }

  // The same program as tokens: the parser builds exactly `DemoProgram`.

  function HogeCallTokens(): seq<string> { ["hoge", "(", "20", ")"] }
  function LetFiveTokens(): seq<string> { ["let", "x", "=", "5", ";"] + HogeCallTokens() }
  function HogeBodyTokens(): seq<string> {
    ["add", "(", "sub", "(", "a", ",", "x", ")", ",", "5", ")"] + LetFiveTokens()
  }
  function LetHogeTokens(): seq<string> { ["let", "hoge", "=", "(", "a", ")", "=>"] + HogeBodyTokens() }
  function LetSubTokens(): seq<string> {
    ["let", "sub", "=", "(", "a", ",", "b", ")", "=>", "a", "-", "b", ";"] + LetHogeTokens()
  }
  function DemoTokens(): seq<string> {
    ["let", "add", "=", "(", "a", ",", "b", ")", "=>", "a", "+", "b", ";"] + LetSubTokens()
  }

  lemma Twenty()
    ensures HasDigit("20") && LeadingNumber("20") == 20
  {
    assert IsDigit("20"[0]) && IsDigit("20"[1]);
    assert "20"[1..] == "0" && "0"[1..] == "";
    assert DigitRun("20") == 2;
    assert "20"[..2] == "20" && "20"[..1] == "2";
    ParserProperties.SingleDigit("2", 2);
  }

  /** `let name = (a, b) => a op b;` */
  lemma ParseBinaryFunction(name: string, op: string, rest: seq<string>)
    requires op == "+" || op == "-"
    ensures ParseExpression(["let", name, "=", "(", "a", ",", "b", ")", "=>", "a", op, "b", ";"] + rest)
         == Ok(Parsed(Let(name, Function(["a", "b"], Op(op, Ident("a"), Ident("b")))), [";"] + rest))
  {
    NoDigit("a");
    NoDigit("b");
    var body := ["a", op, "b", ";"] + rest;
    var p0 := ParserProperties.Product("a", []);
    var terms := [(op, ParserProperties.Product("b", []))];
    assert ParserProperties.ProductTokens(p0) + ParserProperties.SumTokens(terms) + ([";"] + rest) == body;
    ParserProperties.PrecedenceAndAssociativity(p0, terms, [";"] + rest);
    assert ParserProperties.CommaList(["a", "b"]) == ["a", ",", "b"];
    assert ["let", name, "=", "(", "a", ",", "b", ")", "=>", "a", op, "b", ";"] + rest
        == ["let", name, "=", "("] + ParserProperties.CommaList(["a", "b"]) + [")", "=>"] + body;
    ParserProperties.LetFunctionShape(name, "=", ["a", "b"], "=>", body);
  }

  lemma ParseSubCall(rest: seq<string>)
    ensures ParseExpression(["sub", "(", "a", ",", "x", ")"] + rest)
         == Ok(Parsed(Call(Ident("sub"), [Ident("a"), Ident("x")]), rest))
  {
    NoDigit("a");
    NoDigit("x");
    NoDigit("sub");
    assert ParserProperties.CommaList(["a", "x"]) == ["a", ",", "x"];
    assert ["sub", "(", "a", ",", "x", ")"] + rest
        == ["sub", "("] + ParserProperties.CommaList(["a", "x"]) + [")"] + rest;
    ParserProperties.CallShape("sub", ["a", "x"], rest);
    assert ParserProperties.OperandExprs(["a", "x"]) == [Ident("a"), Ident("x")];
  }

  /** One argument of a call followed by `,` and further arguments. */
  lemma ArgThenMore(ts: seq<string>, e: Expr, r: seq<string>, more: seq<Expr>, tail: seq<string>)
    requires |ts| > 0 && ts[0] != ")"
    requires ParseExpression(ts) == Ok(Parsed(e, r))
    requires NextIs(r, ",")
    requires ParseArgs(r[1..]) == Ok(Parsed(more, tail))
    ensures ParseArgs(ts) == Ok(Parsed([e] + more, tail))
  {
  }

  lemma ParseLastFive(ts: seq<string>, tail: seq<string>)
    requires ts == ["5", ")"] + tail
    ensures ParseArgs(ts) == Ok(Parsed([Num(5)], tail))
  {
    assert ts == ParserProperties.CommaList(["5"]) + [")"] + tail;
    ParserProperties.SmallNumbers();
    ParserProperties.ArgsInOrder(["5"], tail);
    assert ParserProperties.OperandExprs(["5"]) == [Num(5)];
  }

  /** The arguments `sub(a, x), 5)` of `add`: the first is itself a call. */
  lemma ParseHogeArgs(args: seq<string>, tail: seq<string>)
    requires args == ["sub", "(", "a", ",", "x", ")", ",", "5", ")"] + tail
    ensures ParseArgs(args) == Ok(Parsed(HogeBody().args, tail))
  {
    var afterSub := [",", "5", ")"] + tail;
    assert args == ["sub", "(", "a", ",", "x", ")"] + afterSub;
    ParseSubCall(afterSub);
    ParseLastFive(afterSub[1..], tail);
    ArgThenMore(args, HogeBody().args[0], afterSub, [Num(5)], tail);
    assert [HogeBody().args[0]] + [Num(5)] == HogeBody().args;
  }

  /** A lone name as the callee term: `parseTerm` stops at the `(`. */
  lemma CalleeTerm(ts: seq<string>, f: string, rest: seq<string>)
    requires ts == [f] + rest && NextIs(rest, "(")
    requires ParserProperties.IsOperand(f) && !HasDigit(f)
    ensures ParseTerm(ts) == Ok(Parsed(Ident(f), rest))
  {
    var callee := ParserProperties.Product(f, []);
    assert ts == ParserProperties.ProductTokens(callee) + rest;
    ParserProperties.TermOfProduct(callee, rest);
  }

  lemma ParseHogeBody(ts: seq<string>, args: seq<string>, tail: seq<string>)
    requires args == ["sub", "(", "a", ",", "x", ")", ",", "5", ")"] + tail
    requires ts == ["add", "("] + args
    ensures ParseExpression(ts) == Ok(Parsed(HogeBody(), tail))
  {
    NoDigit("add");
    var open := ["("] + args;
    assert ts == ["add"] + open && open[1..] == args;
    CalleeTerm(ts, "add", open);
    ParserProperties.CallBranch(ts, Ident("add"), open);
    ParseHogeArgs(args, tail);
  }

  lemma ParseLetHoge(ts: seq<string>, body: seq<string>, tail: seq<string>)
    requires body == ["add", "(", "sub", "(", "a", ",", "x", ")", ",", "5", ")"] + tail
    requires ts == ["let", "hoge", "=", "(", "a", ")", "=>"] + body
    ensures ParseExpression(ts) == Ok(Parsed(Let("hoge", Function(["a"], HogeBody())), tail))
  {
    ParseHogeBody(body, ["sub", "(", "a", ",", "x", ")", ",", "5", ")"] + tail, tail);
    assert ParserProperties.CommaList(["a"]) == ["a"];
    assert ts == ["let", "hoge", "=", "("] + ParserProperties.CommaList(["a"]) + [")", "=>"] + body;
    ParserProperties.LetFunctionShape("hoge", "=", ["a"], "=>", body);
  }

  lemma ParseLetFive(ts: seq<string>, tail: seq<string>)
    requires ts == ["let", "x", "=", "5", ";"] + tail
    ensures ParseExpression(ts) == Ok(Parsed(Let("x", Num(5)), [";"] + tail))
  {
    ParserProperties.SmallNumbers();
    assert ts == ["let", "x", "="] + (["5"] + ([";"] + tail));
    ParserProperties.ExpressionOfOperand("5", [";"] + tail);
    ParserProperties.LetValueShape("x", "=", ["5"] + ([";"] + tail));
  }

  lemma ParseHogeCallExpression(ts: seq<string>, tail: seq<string>)
    requires ts == ["hoge", "(", "20", ")"] + tail
    ensures ParseExpression(ts) == Ok(Parsed(Call(Ident("hoge"), [Num(20)]), tail))
  {
    NoDigit("hoge");
    Twenty();
    assert ParserProperties.CommaList(["20"]) == ["20"];
    assert ts == ["hoge", "("] + ParserProperties.CommaList(["20"]) + [")"] + tail;
    ParserProperties.CallShape("hoge", ["20"], tail);
    assert ParserProperties.OperandExprs(["20"]) == [Num(20)];
  }

  lemma ParseHogeCall(ts: seq<string>)
    requires ts == ["hoge", "(", "20", ")"] + []
    ensures ParseStatements(ts) == Ok([Call(Ident("hoge"), [Num(20)])])
  {
    var call := Call(Ident("hoge"), [Num(20)]);
    ParseHogeCallExpression(ts, []);
    ParserProperties.StatementStep(ts, call, []);
    assert ParseStatements([]) == Ok([]);
    assert [call] + [] == [call];
  }

  /** The statement loop over the five statements, given as the suffixes
      it visits. */
  lemma ParseDemoStatements(t0: seq<string>, t1: seq<string>, t2: seq<string>, t3: seq<string>,
                            t4: seq<string>, stmts: seq<Expr>)
    requires t4 == ["hoge", "(", "20", ")"] + []
    requires t3 == ["let", "x", "=", "5", ";"] + t4
    requires t2 == ["let", "hoge", "=", "(", "a", ")", "=>"]
                 + (["add", "(", "sub", "(", "a", ",", "x", ")", ",", "5", ")"] + t3)
    requires t1 == ["let", "sub", "=", "(", "a", ",", "b", ")", "=>", "a", "-", "b", ";"] + t2
    requires t0 == ["let", "add", "=", "(", "a", ",", "b", ")", "=>", "a", "+", "b", ";"] + t1
    requires stmts == [ Let("add", Function(["a", "b"], Op("+", Ident("a"), Ident("b")))),
                        Let("sub", Function(["a", "b"], Op("-", Ident("a"), Ident("b")))),
                        Let("hoge", Function(["a"], HogeBody())),
                        Let("x", Num(5)),
                        Call(Ident("hoge"), [Num(20)]) ]
    ensures ParseStatements(t0) == Ok(stmts)
  {
    ParseHogeCall(t4);
    assert [stmts[4]] == stmts[4..];
    ParseLetFive(t3, t4);
    StatementBefore(t3, stmts[3], t4, stmts[4..]);
    assert [stmts[3]] + stmts[4..] == stmts[3..];
    ParseLetHoge(t2, ["add", "(", "sub", "(", "a", ",", "x", ")", ",", "5", ")"] + t3, t3);
    ParserProperties.StatementStep(t2, stmts[2], t3);
    assert [stmts[2]] + stmts[3..] == stmts[2..];
    ParseBinaryFunction("sub", "-", t2);
    StatementBefore(t1, stmts[1], t2, stmts[2..]);
    assert [stmts[1]] + stmts[2..] == stmts[1..];
    ParseBinaryFunction("add", "+", t1);
    StatementBefore(t0, stmts[0], t1, stmts[1..]);
    assert [stmts[0]] + stmts[1..] == stmts;
  }

  /** The parser builds exactly the demonstration program: five statements,
      the `;` after four of them consumed and the one missing after `hoge`'s
      definition not needed. */
  lemma ParseDemo()
    ensures Parse(DemoTokens()) == Ok(DemoProgram())
  {
    ParseDemoStatements(DemoTokens(), LetSubTokens(), LetHogeTokens(), LetFiveTokens(), HogeCallTokens(),
                        DemoProgram().exprs);
  }

  /** A word made of word characters is one token unless it starts with `l`
      and is long enough to start with `let`. */
  lemma WordToken(t: string)
    requires IsWordRun(t) && (|t| < 3 || t[0] != 'l')
    ensures IsToken(t)
  {
  }

  lemma DemoTokensAreTokens()
    ensures forall k :: 0 <= k < |DemoTokens()| ==> IsToken(DemoTokens()[k])
  {
    var ts := DemoTokens();
    forall k | 0 <= k < |ts|
      ensures IsToken(ts[k])
    {
      assert ts[k] in {"let", "add", "sub", "hoge", "=", "(", "a", ",", "b", ")", "=>", "+", "-", ";", "x", "5", "20"};
      if ts[k] in {"add", "sub", "hoge", "a", "b", "x", "5", "20"} {
        WordToken(ts[k]);
      }
    }
  }

  /** The program of `main.ts` from source text through tokens, parse and
      evaluation yields 20. The text is the tokens written out with a space
      after each. */
  lemma DemoFromSource()
    ensures Tokenize(Unlex(DemoTokens())) == DemoTokens()
    ensures Run(Unlex(DemoTokens()), 2) == Ok(VNum(20))
  {
    DemoTokensAreTokens();
    UnlexRoundTrip(DemoTokens());
    ParseDemo();
    DemoIsTwenty();
  }

  // ---------------------------------------------------------------------
  // Arithmetic: the parsed trees of three operator chains, evaluated.

  /** A program of one statement has that statement's value. */
  lemma OneStatement(e: Expr, env: Env, fuel: nat)
    ensures Eval(Statements([e]), env, fuel) == Eval(e, env, fuel)
  {
    assert [e][1..] == [];
    var r := Eval(e, env, fuel);
    if r.Ok? {
      assert EvalBlock([], r.value.env, r.value.value, fuel) == Ok(r.value);
    }
    assert EvalBlock([e], env, VUndefined, fuel) == r;
  }

  /** The trees of the three chains evaluate to their sum, difference and
      product. */
  lemma TimesFirstTree()
    ensures Eval(Statements([Op("+", Num(2), Op("*", Num(3), Num(4)))]), map[], 0) == Ok(Done(VNum(14), map[]))
  {
    OneStatement(Op("+", Num(2), Op("*", Num(3), Num(4))), map[], 0);
  }

  lemma MinusLeftTree()
    ensures Eval(Statements([Op("-", Op("-", Num(10), Num(2)), Num(3))]), map[], 0) == Ok(Done(VNum(5), map[]))
  {
    OneStatement(Op("-", Op("-", Num(10), Num(2)), Num(3)), map[], 0);
  }

  lemma GroupedTree()
    ensures Eval(Statements([Op("*", Op("+", Num(2), Num(3)), Num(4))]), map[], 0) == Ok(Done(VNum(20), map[]))
  {
    OneStatement(Op("*", Op("+", Num(2), Num(3)), Num(4)), map[], 0);
  }

  /** `2 + 3 * 4` is 14. */
  lemma TimesFirstIsFourteen(ts: seq<string>)
    requires ts == ["2", "+", "3", "*", "4"]
    ensures Parse(ts).Ok? && Eval(Parse(ts).value, map[], 0) == Ok(Done(VNum(14), map[]))
  {
    ParserProperties.TimesBindsTighterThanPlus();
    TimesFirstTree();
  }

  /** `10 - 2 - 3` is 5. */
  lemma MinusLeftIsFive(ts: seq<string>)
    requires ts == ["10", "-", "2", "-", "3"]
    ensures Parse(ts).Ok? && Eval(Parse(ts).value, map[], 0) == Ok(Done(VNum(5), map[]))
  {
    ParserProperties.MinusFoldsLeft();
    MinusLeftTree();
  }

  /** `( 2 + 3 ) * 4` is 20. */
  lemma GroupedIsTwenty(ts: seq<string>)
    requires ts == ["(", "2", "+", "3", ")", "*", "4"]
    ensures Parse(ts).Ok? && Eval(Parse(ts).value, map[], 0) == Ok(Done(VNum(20), map[]))
  {
    ParserProperties.ParenthesesGroup();
    GroupedTree();
  }

  // ---------------------------------------------------------------------
  // Dynamic scope: let f = (a) => a + x; let x = 10; f(1)

  function CallTokens(): seq<string> { ["f", "(", "1", ")"] }
  function LetXTokens(): seq<string> { ["let", "x", "=", "10", ";"] + CallTokens() }
  function BodyTokens(): seq<string> { ["a", "+", "x", ";"] + LetXTokens() }
  function ScopeTokens(): seq<string> { ["let", "f", "=", "(", "a", ")", "=>"] + BodyTokens() }

  function FBody(): Expr { Op("+", Ident("a"), Ident("x")) }

  function ScopeProgram(): seq<Expr> {
    [Let("f", Function(["a"], FBody())), Let("x", Num(10)), Call(Ident("f"), [Num(1)])]
  }

  lemma ParseBody()
    ensures ParseExpression(BodyTokens()) == Ok(Parsed(FBody(), [";"] + LetXTokens()))
  {
    NoDigit("a");
    NoDigit("x");
    var p0 := ParserProperties.Product("a", []);
    var terms := [("+", ParserProperties.Product("x", []))];
    assert ParserProperties.ProductTokens(p0) + ParserProperties.SumTokens(terms) + ([";"] + LetXTokens())
        == BodyTokens();
    ParserProperties.PrecedenceAndAssociativity(p0, terms, [";"] + LetXTokens());
  }

  lemma ParseLetF()
    ensures ParseExpression(ScopeTokens()) == Ok(Parsed(ScopeProgram()[0], [";"] + LetXTokens()))
  {
    ParseBody();
    assert ParserProperties.CommaList(["a"]) == ["a"];
    assert ScopeTokens() == ["let", "f", "=", "("] + ParserProperties.CommaList(["a"]) + [")", "=>"] + BodyTokens();
    ParserProperties.LetFunctionShape("f", "=", ["a"], "=>", BodyTokens());
  }

  lemma ParseLetX()
    ensures ParseExpression(LetXTokens()) == Ok(Parsed(ScopeProgram()[1], [";"] + CallTokens()))
  {
    ParserProperties.SmallNumbers();
    assert LetXTokens() == ["let", "x", "="] + (["10"] + ([";"] + CallTokens()));
    ParserProperties.ExpressionOfOperand("10", [";"] + CallTokens());
    ParserProperties.LetValueShape("x", "=", ["10"] + ([";"] + CallTokens()));
  }

  lemma ParseCall()
    ensures ParseExpression(CallTokens()) == Ok(Parsed(ScopeProgram()[2], []))
  {
    NoDigit("f");
    ParserProperties.SmallNumbers();
    assert ParserProperties.CommaList(["1"]) == ["1"];
    assert CallTokens() == ["f", "("] + ParserProperties.CommaList(["1"]) + [")"] + [];
    ParserProperties.CallShape("f", ["1"], []);
    assert ParserProperties.OperandExprs(["1"]) == [Num(1)];
  }

  /** A statement ended by `;` in front of more statements. */
  lemma StatementBefore(ts: seq<string>, e: Expr, r: seq<string>, more: seq<Expr>)
    requires |ts| > 0
    requires ParseExpression(ts) == Ok(Parsed(e, [";"] + r))
    requires ParseStatements(r) == Ok(more)
    ensures ParseStatements(ts) == Ok([e] + more)
  {
    ParserProperties.StatementStep(ts, e, [";"] + r);
    assert ([";"] + r)[1..] == r;
  }

  lemma ParseLastStatement()
    ensures ParseStatements(CallTokens()) == Ok(ScopeProgram()[2..])
  {
    ParseCall();
    ParserProperties.StatementStep(CallTokens(), ScopeProgram()[2], []);
    assert ParseStatements([]) == Ok([]);
    assert [ScopeProgram()[2]] + [] == ScopeProgram()[2..];
  }

  /** The token list parses to the three statements, `;` consumed. */
  lemma ParseScope()
    ensures Parse(ScopeTokens()) == Ok(Statements(ScopeProgram()))
  {
    ParseLastStatement();
    ParseLetX();
    StatementBefore(LetXTokens(), ScopeProgram()[1], CallTokens(), ScopeProgram()[2..]);
    assert [ScopeProgram()[1]] + ScopeProgram()[2..] == ScopeProgram()[1..];
    ParseLetF();
    StatementBefore(ScopeTokens(), ScopeProgram()[0], LetXTokens(), ScopeProgram()[1..]);
    assert [ScopeProgram()[0]] + ScopeProgram()[1..] == ScopeProgram();
  }

  /** `f` adds the `x` of the environment it is called in: defined after
      `f`, the `x` is still seen, and the result is 11. */
  function ScopeGlobals(): Env {
    map["f" := VFun(["a"], FBody()), "x" := VNum(10)]
  }

  lemma ScopeDefinitions()
    ensures EvalBlock(ScopeProgram()[..2], map[], VUndefined, 1) == Ok(Done(VNum(10), ScopeGlobals()))
  {
    var fv := VFun(["a"], FBody());
    var env1: Env := map["f" := fv];
    var defs := ScopeProgram()[..2];
    assert Eval(defs[0], map[], 1) == Ok(Done(fv, env1));
    assert Eval(defs[1], env1, 1) == Ok(Done(VNum(10), ScopeGlobals()));
    assert EvalBlock(defs[1..], env1, fv, 1) == Ok(Done(VNum(10), ScopeGlobals()));
  }

  /** `f(1)` after both definitions: the body's `x` is the caller's. */
  lemma ScopeCall(env: Env)
    requires env == ScopeGlobals()
    ensures Eval(Call(Ident("f"), [Num(1)]), env, 1) == Ok(Done(VNum(11), env))
  {
    var frame := env["a" := VNum(1)];
    BindOne("a", Num(1), env, env, 1, VNum(1));
    OpOfVariables("+", "a", "x", frame, 0, 1, 10);
    CallStep(Ident("f"), [Num(1)], env, 1, Bound(frame, env), Done(VNum(11), frame));
  }

  lemma DynamicScope()
    ensures Eval(Statements(ScopeProgram()), map[], 1).Ok?
    ensures Eval(Statements(ScopeProgram()), map[], 1).value.value == VNum(11)
  {
    ScopeDefinitions();
    ScopeCall(ScopeGlobals());
    assert ScopeProgram()[..2] + [ScopeProgram()[2]] == ScopeProgram();
    ThenStatement(ScopeProgram()[..2], ScopeProgram()[2], map[], Done(VNum(10), ScopeGlobals()),
                  Done(VNum(11), ScopeGlobals()), 1);
  }

  /** The same program from source text through tokens, parse and
      evaluation. The text is the tokens written out with a space after
      each. */
  lemma DynamicScopeFromSource()
    ensures Tokenize(Unlex(ScopeTokens())) == ScopeTokens()
    ensures Run(Unlex(ScopeTokens()), 1) == Ok(VNum(11))
  {
    var ts := ScopeTokens();
    forall k | 0 <= k < |ts|
      ensures IsToken(ts[k])
    {
      assert ts[k] in {"let", "f", "=", "(", "a", ")", "=>", "+", "x", ";", "10", "1"};
      if ts[k] == "10" {
        assert IsWordRun("10") && !StartsWith("10", "let");
      } else if ts[k] in {"f", "a", "x", "1"} {
        assert IsWordRun(ts[k]) && !StartsWith(ts[k], "let");
      }
    }
    UnlexRoundTrip(ts);
    ParseScope();
    DynamicScope();
  }
}
