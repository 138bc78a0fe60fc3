/** `evaluate`: a tree walk over `Expr` with an environment.

    The source mutates one environment object in place. Here `Eval` takes
    the environment and returns the one after evaluation next to the value,
    so the updates a `let` makes inside an operand, an argument or a
    statement reach whoever evaluates next, exactly as the shared object
    would carry them. A call copies the caller's environment; the copy is
    thrown away when the call returns.

    The type guards `isStatementsExpr`, `isLetExpr`, `isCallExpr`,
    `isFunctionExpr` and `isOpExpr` are the constructor tests of `Expr`
    (`e.Statements?`, `e.Let?`, ...), and the order of the `match` below is
    the order in which the source tries them. */
module Evaluator {
  import opened Results
  import opened Parser

  /** What evaluation produces: a number, a function node (stored as it was
      parsed), or `undefined` (the value of an empty statement list). */
  datatype Value = VNum(n: int) | VFun(params: seq<string>, body: Expr) | VUndefined

  /** `Env`: a plain object from names to values. */
  type Env = map<string, Value>

  datatype EvalError =
    | UndefinedVariable(name: string)
    | UndefinedFunction(name: string)
    | UnknownExpression
    | NonNumericOperand(op: string)
    | DivisionLeftOut
    | OutOfFuel

  /** A value together with the environment after computing it. */
  datatype Done = Done(value: Value, env: Env)

  /** The callee frame being built and the caller's environment as argument
      evaluation leaves it. */
  datatype Bound = Bound(frame: Env, caller: Env)

  /** `env[callee]`: JavaScript turns the property key into a string; a
      number becomes its decimal form and any object `[object Object]`. */
  function PropertyKey(callee: Expr): string {
    match callee
    case Ident(x) => x
    case Num(n) => NumberText(n)
    case _ => "[object Object]"
  }

  /** The names a `let` inside `e` can bind in the environment `e` is
      evaluated in. Function bodies are not included: they run in a copy. */
  function LetNames(e: Expr): set<string> {
    match e
    case Num(_) => {}
    case Ident(_) => {}
    case Op(_, l, r) => LetNames(l) + LetNames(r)
    case Let(name, v) => {name} + (if v.Function? then {} else LetNames(v))
    case Function(_, _) => {}
    case Call(_, args) => LetNamesOf(args)
    case Statements(body) => LetNamesOf(body)
  }

  function LetNamesOf(es: seq<Expr>): set<string> {
    if |es| == 0 then {} else LetNames(es[0]) + LetNamesOf(es[1..])
  }

  /** `after` keeps every binding of `before` and changes or adds only
      names in `names`. */
  predicate Frame(before: Env, after: Env, names: set<string>) {
    && before.Keys <= after.Keys
    && after.Keys <= before.Keys + names
    && forall k :: k in before && k !in names ==> after[k] == before[k]
  }

  /** The `switch` on the operator. `+`, `-` and `*` on numbers; division is
      JavaScript floating point and is not modelled; an operator outside the
      four falls through to "Unknown expression". */
  function Arith(op: string, a: Value, b: Value): (r: Result<Value, EvalError>)
    ensures r.Ok? <==> (op == "+" || op == "-" || op == "*") && a.VNum? && b.VNum?
    ensures r.Ok? ==> r.value.VNum?
    ensures r.Ok? ==> r.value.n == (if op == "+" then a.n + b.n else if op == "-" then a.n - b.n else a.n * b.n)
    ensures op == "/" ==> r == Err(DivisionLeftOut)
  {
    if op == "/" then Err(DivisionLeftOut)
    else if op != "+" && op != "-" && op != "*" then Err(UnknownExpression)
    else if !a.VNum? || !b.VNum? then Err(NonNumericOperand(op))
    else if op == "+" then Ok(VNum(a.n + b.n))
    else if op == "-" then Ok(VNum(a.n - b.n))
    else Ok(VNum(a.n * b.n))
  }

  /** `evaluate(expr, env)`. Entering a function body costs one unit of
      `fuel`, so `fuel` bounds the depth of nested calls. */
  function Eval(e: Expr, env: Env, fuel: nat): (r: Result<Done, EvalError>)
    ensures r.Ok? ==> Frame(env, r.value.env, LetNames(e))
    decreases fuel, e, 2
  {
    match e
    case Statements(body) => EvalBlock(body, env, VUndefined, fuel)
    case Let(name, value) =>
      if value.Function? then
        var f := VFun(value.params, value.body);
        Ok(Done(f, env[name := f]))
      else
        var d :- Eval(value, env, fuel);
        Ok(Done(d.value, d.env[name := d.value]))
    case Call(callee, args) =>
      var key := PropertyKey(callee);
      if key in env && env[key].VFun? then Apply(env[key], args, env, fuel)
      else Err(UndefinedFunction(key))
    case Op(op, left, right) =>
      var l :- Eval(left, env, fuel);
      var r :- Eval(right, l.env, fuel);
      var v :- Arith(op, l.value, r.value);
      Ok(Done(v, r.env))
    case Num(n) => Ok(Done(VNum(n), env))
    case Ident(x) =>
      if x in env && env[x] != VUndefined then Ok(Done(env[x], env))
      else Err(UndefinedVariable(x))
    case Function(_, _) => Err(UnknownExpression)
  }

  /** The loop over a statement list: every statement in the same (updated)
      environment; the value is the last statement's, `last` if none. */
  function EvalBlock(body: seq<Expr>, env: Env, last: Value, fuel: nat): (r: Result<Done, EvalError>)
    ensures r.Ok? ==> Frame(env, r.value.env, LetNamesOf(body))
    decreases fuel, body, 2
  {
    if |body| == 0 then Ok(Done(last, env))
    else
      var d :- Eval(body[0], env, fuel);
      EvalBlock(body[1..], d.env, d.value, fuel)
  }

  /** Calling the function value `f`: bind the parameters in a copy of the
      caller's environment, then run the body there. The value is the
      body's; the caller keeps only what argument evaluation did to it. */
  function Apply(f: Value, args: seq<Expr>, env: Env, fuel: nat): (r: Result<Done, EvalError>)
    requires f.VFun?
    ensures r.Ok? ==> Frame(env, r.value.env, LetNamesOf(args))
    decreases fuel, args, 1
  {
    var b :- BindArgs(f.params, args, env, env, fuel);
    if fuel == 0 then Err(OutOfFuel)
    else
      var d :- Eval(f.body, b.frame, fuel - 1);
      Ok(Done(d.value, b.caller))
  }

  /** The `forEach` over the parameters: `params[i]` is bound in the callee
      frame to `args[i]` evaluated in the caller's environment. Arguments
      past the last parameter are never looked at; a missing argument is
      `evaluate(undefined)`, which fails with "Unknown expression". */
  function BindArgs(params: seq<string>, args: seq<Expr>, frame: Env, caller: Env, fuel: nat)
    : (r: Result<Bound, EvalError>)
    ensures r.Ok? ==> Frame(caller, r.value.caller, LetNamesOf(args))
    decreases fuel, args, 0
  {
    if |params| == 0 then Ok(Bound(frame, caller))
    else if |args| == 0 then Err(UnknownExpression)
    else
      var d :- Eval(args[0], caller, fuel);
      BindArgs(params[1..], args[1..], frame[params[0] := d.value], d.env, fuel)
  }
}
