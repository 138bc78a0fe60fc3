/** Properties of `Eval`: sequencing of statements, what a `let` binds,
    what a call does with its arguments and its frame, left-to-right
    evaluation, and that more fuel changes nothing once an answer exists. */
module EvaluatorProperties {
  import opened Results
  import opened Parser
  import opened Evaluator

  /** An environment that changed no name is the same environment. */
  lemma FrameWithoutNames(before: Env, after: Env)
    requires Frame(before, after, {})
    ensures after == before
  {
    assert after.Keys == before.Keys;
  }

  // ---------------------------------------------------------------------
  // Statements

  /** The value of a statement list is the value of its last statement,
      evaluated in the environment the earlier ones leave behind; an error
      in an earlier statement is the error of the whole list. */
  lemma {:induction false} BlockSnoc(body: seq<Expr>, x: Expr, env: Env, last: Value, fuel: nat)
    ensures var r := EvalBlock(body, env, last, fuel);
      EvalBlock(body + [x], env, last, fuel) == if r.Err? then Err(r.error) else Eval(x, r.value.env, fuel)
    decreases |body|
  {
    if |body| == 0 {
      assert body + [x] == [x];
      assert [x][1..] == [];
    } else {
      assert (body + [x])[0] == body[0];
      assert (body + [x])[1..] == body[1..] + [x];
      var d := Eval(body[0], env, fuel);
      if d.Ok? {
        BlockSnoc(body[1..], x, d.value.env, d.value.value, fuel);
      }
    }
  }

  lemma StatementsValueIsLast(body: seq<Expr>, x: Expr, env: Env, fuel: nat)
    ensures var r := Eval(Statements(body), env, fuel);
      Eval(Statements(body + [x]), env, fuel) == if r.Err? then Err(r.error) else Eval(x, r.value.env, fuel)
    ensures Eval(Statements([]), env, fuel) == Ok(Done(VUndefined, env))
  {
    BlockSnoc(body, x, env, VUndefined, fuel);
  }

  // ---------------------------------------------------------------------
  // let

  /** A function value is stored as parsed: its body is not evaluated, so
      the binding succeeds whatever the body would do and with no fuel. */
  lemma LetFunctionIsNotEvaluated(name: string, params: seq<string>, body: Expr, env: Env, fuel: nat)
    ensures var r := Eval(Let(name, Function(params, body)), env, fuel);
      && r.Ok?
      && r.value.value == VFun(params, body)
      && r.value.env[name] == VFun(params, body)
      && (forall k :: k in env && k != name ==> r.value.env[k] == env[k])
      && r.value.env.Keys == env.Keys + {name}
  {
  }

  /** Any other `let` evaluates its value first; the binding is that value
      and the `let` itself evaluates to it. Failure of the value is failure
      of the `let`, with the same error. */
  lemma LetBindsItsValue(name: string, value: Expr, env: Env, fuel: nat)
    requires !value.Function?
    ensures var r := Eval(Let(name, value), env, fuel);
            var v := Eval(value, env, fuel);
      && r.Ok? == v.Ok?
      && (v.Err? ==> r.error == v.error)
      && (v.Ok? ==> && r.value.value == v.value.value
                    && r.value.env[name] == v.value.value
                    && (forall k :: k in v.value.env && k != name ==> r.value.env[k] == v.value.env[k])
                    && r.value.env.Keys == v.value.env.Keys + {name})
  {
  }

  /** An expression with no `let` outside function bodies leaves the
      environment exactly as it found it. */
  lemma NoLetKeepsEnvironment(e: Expr, env: Env, fuel: nat)
    requires LetNames(e) == {}
    requires Eval(e, env, fuel).Ok?
    ensures Eval(e, env, fuel).value.env == env
  {
    FrameWithoutNames(env, Eval(e, env, fuel).value.env);
  }

  // ---------------------------------------------------------------------
  // Identifiers

  /** A number evaluates to itself; an identifier to its binding, and an
      unbound (or `undefined`) one is an error naming it. */
  lemma LeavesEvaluate(n: int, x: string, env: Env, fuel: nat)
    ensures Eval(Num(n), env, fuel) == Ok(Done(VNum(n), env))
    ensures Eval(Ident(x), env, fuel).Ok? <==> x in env && env[x] != VUndefined
    ensures Eval(Ident(x), env, fuel).Ok? ==> Eval(Ident(x), env, fuel).value == Done(env[x], env)
    ensures Eval(Ident(x), env, fuel).Err? ==> Eval(Ident(x), env, fuel).error == UndefinedVariable(x)
  {
  }

  // ---------------------------------------------------------------------
  // Errors

  /** The source rethrows whatever a sub-evaluation throws: the first
      failing part decides the error of the whole. */
  lemma ErrorsPropagate(op: string, left: Expr, right: Expr, body: seq<Expr>, env: Env, fuel: nat)
    ensures Eval(left, env, fuel).Err? ==>
      Eval(Op(op, left, right), env, fuel) == Err(Eval(left, env, fuel).error)
    ensures Eval(left, env, fuel).Ok? && Eval(right, Eval(left, env, fuel).value.env, fuel).Err? ==>
      Eval(Op(op, left, right), env, fuel) == Err(Eval(right, Eval(left, env, fuel).value.env, fuel).error)
    ensures |body| > 0 && Eval(body[0], env, fuel).Err? ==>
      Eval(Statements(body), env, fuel) == Err(Eval(body[0], env, fuel).error)
  {
  }

  // ---------------------------------------------------------------------
  // Calls

  /** Binding parameters with arguments that contain no `let` succeeds
      exactly when there is an argument for every parameter and each of
      those evaluates. */
  lemma {:induction false} BindArgsSucceeds(params: seq<string>, args: seq<Expr>, frame: Env, caller: Env, fuel: nat)
    requires LetNamesOf(args) == {}
    ensures BindArgs(params, args, frame, caller, fuel).Ok?
        <==> |params| <= |args| && forall i :: 0 <= i < |params| ==> Eval(args[i], caller, fuel).Ok?
    decreases |params|
  {
    if |params| > 0 && |args| > 0 {
      assert LetNamesOf(args) == LetNames(args[0]) + LetNamesOf(args[1..]);
      var d := Eval(args[0], caller, fuel);
      if d.Ok? {
        NoLetKeepsEnvironment(args[0], caller, fuel);
        BindArgsSucceeds(params[1..], args[1..], frame[params[0] := d.value.value], caller, fuel);
        forall i | 0 <= i < |params| <= |args|
          ensures Eval(args[i], caller, fuel).Ok? <==> (i == 0 || Eval(args[1..][i - 1], caller, fuel).Ok?)
        {
        }
      }
    }
  }

  /** The caller's environment that `args[i]` is evaluated in: the first
      argument runs in the caller's own, and each later one in what its
      predecessor leaves behind. */
  function ArgEnv(args: seq<Expr>, caller: Env, fuel: nat, i: nat): Result<Env, EvalError>
    requires i <= |args|
    decreases i
  {
    if i == 0 then Ok(caller)
    else
      var e :- ArgEnv(args, caller, fuel, i - 1);
      var d :- Eval(args[i - 1], e, fuel);
      Ok(d.env)
  }

  lemma {:induction false} ArgEnvShift(args: seq<Expr>, caller: Env, fuel: nat, i: nat)
    requires i < |args| && Eval(args[0], caller, fuel).Ok?
    ensures ArgEnv(args, caller, fuel, i + 1) == ArgEnv(args[1..], Eval(args[0], caller, fuel).value.env, fuel, i)
    decreases i
  {
    if i > 0 {
      ArgEnvShift(args, caller, fuel, i - 1);
      assert args[1..][i - 1] == args[i];
    }
  }

  lemma {:induction false} ArgEnvFirstFails(args: seq<Expr>, caller: Env, fuel: nat, i: nat)
    requires 0 < i <= |args| && Eval(args[0], caller, fuel).Err?
    ensures ArgEnv(args, caller, fuel, i).Err?
    decreases i
  {
    if i > 1 {
      ArgEnvFirstFails(args, caller, fuel, i - 1);
    }
  }

  /** Binding runs the arguments one after another in the caller's
      environment as the earlier ones leave it: it succeeds exactly when
      there is an argument for every parameter and each of those runs, and
      hands back the environment the last of them leaves. */
  lemma {:induction false} BindArgsThreads(params: seq<string>, args: seq<Expr>, frame: Env, caller: Env, fuel: nat)
    ensures BindArgs(params, args, frame, caller, fuel).Ok?
        <==> |params| <= |args| && ArgEnv(args, caller, fuel, |params|).Ok?
    ensures BindArgs(params, args, frame, caller, fuel).Ok? ==>
      BindArgs(params, args, frame, caller, fuel).value.caller == ArgEnv(args, caller, fuel, |params|).value
    decreases |params|
  {
    if |params| > 0 && |args| > 0 {
      var d := Eval(args[0], caller, fuel);
      if d.Err? {
        if |params| <= |args| {
          ArgEnvFirstFails(args, caller, fuel, |params|);
        }
      } else {
        BindArgsThreads(params[1..], args[1..], frame[params[0] := d.value.value], d.value.env, fuel);
        if |params| <= |args| {
          ArgEnvShift(args, caller, fuel, |params| - 1);
        }
      }
    }
  }

  /** After a successful binding the frame keeps every name that is not a
      parameter and gains exactly the parameters, whatever the arguments
      bind; with let-free arguments the caller is untouched as well. */
  lemma {:induction false} BindArgsKeepsFrame(params: seq<string>, args: seq<Expr>, frame: Env, caller: Env, fuel: nat)
    requires BindArgs(params, args, frame, caller, fuel).Ok?
    ensures var b := BindArgs(params, args, frame, caller, fuel).value;
      && b.frame.Keys == frame.Keys + (set p | p in params)
      && (forall k :: k in frame && k !in params ==> b.frame[k] == frame[k])
      && (LetNamesOf(args) == {} ==> b.caller == caller)
    decreases |params|
  {
    var b := BindArgs(params, args, frame, caller, fuel).value;
    if LetNamesOf(args) == {} {
      FrameWithoutNames(caller, b.caller);
    }
    if |params| > 0 {
      var d := Eval(args[0], caller, fuel).value;
      BindArgsKeepsFrame(params[1..], args[1..], frame[params[0] := d.value], d.env, fuel);
      assert (set p | p in params) == {params[0]} + set p | p in params[1..];
    }
  }

  /** ... and a parameter (its last occurrence, when repeated) holds the
      value of its own argument, evaluated in the environment the earlier
      arguments leave. */
  lemma BindArgsOverlay(params: seq<string>, args: seq<Expr>, frame: Env, caller: Env, fuel: nat)
    requires BindArgs(params, args, frame, caller, fuel).Ok?
    ensures |params| <= |args|
    ensures var b := BindArgs(params, args, frame, caller, fuel).value;
      forall i :: 0 <= i < |params| && params[i] !in params[i + 1..] ==>
        && ArgEnv(args, caller, fuel, i).Ok?
        && Eval(args[i], ArgEnv(args, caller, fuel, i).value, fuel).Ok?
        && params[i] in b.frame
        && b.frame[params[i]] == Eval(args[i], ArgEnv(args, caller, fuel, i).value, fuel).value.value
  {
    BindArgsThreads(params, args, frame, caller, fuel);
    forall i | 0 <= i < |params| && params[i] !in params[i + 1..] {
      BindArgsOverlayAt(params, args, frame, caller, fuel, i);
    }
  }

  /** The same for one parameter position. */
  lemma {:induction false} BindArgsOverlayAt(params: seq<string>, args: seq<Expr>, frame: Env, caller: Env,
                                            fuel: nat, i: nat)
    requires BindArgs(params, args, frame, caller, fuel).Ok?
    requires i < |params| && params[i] !in params[i + 1..]
    ensures |params| <= |args|
    ensures var b := BindArgs(params, args, frame, caller, fuel).value;
      && ArgEnv(args, caller, fuel, i).Ok?
      && Eval(args[i], ArgEnv(args, caller, fuel, i).value, fuel).Ok?
      && params[i] in b.frame
      && b.frame[params[i]] == Eval(args[i], ArgEnv(args, caller, fuel, i).value, fuel).value.value
    decreases i
  {
    BindArgsThreads(params, args, frame, caller, fuel);
    var d := Eval(args[0], caller, fuel).value;
    var frame' := frame[params[0] := d.value];
    assert BindArgs(params, args, frame, caller, fuel) == BindArgs(params[1..], args[1..], frame', d.env, fuel);
    if i == 0 {
      BindArgsKeepsFrame(params[1..], args[1..], frame', d.env, fuel);
      assert params[0] !in params[1..];
    } else {
      assert params[1..][i - 1] == params[i] && params[1..][i..] == params[i + 1..];
      assert args[1..][i - 1] == args[i];
      BindArgsOverlayAt(params[1..], args[1..], frame', d.env, fuel, i - 1);
      ArgEnvShift(args, caller, fuel, i - 1);
    }
  }

  /** Arguments past the last parameter are never evaluated. */
  lemma {:induction false} ExtraArgumentsIgnored(params: seq<string>, args: seq<Expr>, extra: seq<Expr>,
                                                frame: Env, caller: Env, fuel: nat)
    requires |params| <= |args|
    ensures BindArgs(params, args + extra, frame, caller, fuel) == BindArgs(params, args, frame, caller, fuel)
    decreases |params|
  {
    if |params| > 0 {
      assert (args + extra)[0] == args[0];
      assert (args + extra)[1..] == args[1..] + extra;
      var d := Eval(args[0], caller, fuel);
      if d.Ok? {
        ExtraArgumentsIgnored(params[1..], args[1..], extra, frame[params[0] := d.value.value], d.value.env, fuel);
      }
    }
  }

  /** A parameter with no argument makes the call fail; when every given
      argument evaluates, the failure is "Unknown expression" (the source
      evaluates `undefined`). */
  lemma {:induction false} MissingArgumentFails(params: seq<string>, args: seq<Expr>, frame: Env, caller: Env, fuel: nat)
    requires |args| < |params|
    ensures BindArgs(params, args, frame, caller, fuel).Err?
    ensures LetNamesOf(args) == {} && (forall i :: 0 <= i < |args| ==> Eval(args[i], caller, fuel).Ok?) ==>
      BindArgs(params, args, frame, caller, fuel) == Err(UnknownExpression)
    decreases |args|
  {
    if |args| > 0 {
      var d := Eval(args[0], caller, fuel);
      if d.Ok? {
        MissingArgumentFails(params[1..], args[1..], frame[params[0] := d.value.value], d.value.env, fuel);
        if LetNamesOf(args) == {} && (forall i :: 0 <= i < |args| ==> Eval(args[i], caller, fuel).Ok?) {
          assert LetNamesOf(args) == LetNames(args[0]) + LetNamesOf(args[1..]);
          NoLetKeepsEnvironment(args[0], caller, fuel);
          forall i | 0 <= i < |args[1..]|
            ensures Eval(args[1..][i], d.value.env, fuel).Ok?
          {
            assert args[1..][i] == args[i + 1];
          }
        }
      }
    }
  }

  /** A call whose callee is not bound to a function fails before any
      argument is evaluated: there are no built-in functions. */
  lemma UndefinedFunctionFails(callee: Expr, args: seq<Expr>, env: Env, fuel: nat)
    requires !(PropertyKey(callee) in env && env[PropertyKey(callee)].VFun?)
    ensures Eval(Call(callee, args), env, fuel) == Err(UndefinedFunction(PropertyKey(callee)))
  {
  }

  /** What a call returns is its body's value in the frame; whatever the
      body binds stays in the frame, and the caller sees only the `let`s
      of its own argument expressions. */
  lemma CallFrameIsDiscarded(callee: Expr, args: seq<Expr>, env: Env, fuel: nat)
    requires PropertyKey(callee) in env && env[PropertyKey(callee)].VFun?
    requires Eval(Call(callee, args), env, fuel).Ok?
    ensures var f := env[PropertyKey(callee)];
            var b := BindArgs(f.params, args, env, env, fuel);
      && fuel > 0 && b.Ok?
      && Eval(f.body, b.value.frame, fuel - 1).Ok?
      && Eval(Call(callee, args), env, fuel).value
         == Done(Eval(f.body, b.value.frame, fuel - 1).value.value, b.value.caller)
    ensures LetNamesOf(args) == {} ==> Eval(Call(callee, args), env, fuel).value.env == env
  {
    if LetNamesOf(args) == {} {
      FrameWithoutNames(env, Eval(Call(callee, args), env, fuel).value.env);
    }
  }

  /** The callee frame is copied before the arguments run: a name that is
      neither bound in the caller nor a parameter is absent from the body's
      frame, whatever the arguments bind, so a body that reads it fails. */
  lemma ArgumentLetHiddenFromBody(callee: Expr, args: seq<Expr>, env: Env, fuel: nat, x: string)
    requires PropertyKey(callee) in env && env[PropertyKey(callee)].VFun?
    requires x !in env && x !in env[PropertyKey(callee)].params
    ensures var f := env[PropertyKey(callee)];
            var b := BindArgs(f.params, args, env, env, fuel);
      b.Ok? ==> x !in b.value.frame
    ensures var f := env[PropertyKey(callee)];
      && f.body == Ident(x) && fuel > 0 && BindArgs(f.params, args, env, env, fuel).Ok?
      ==> Eval(Call(callee, args), env, fuel) == Err(UndefinedVariable(x))
  {
    var f := env[PropertyKey(callee)];
    var b := BindArgs(f.params, args, env, env, fuel);
    if b.Ok? {
      BindArgsKeepsFrame(f.params, args, env, env, fuel);
      if f.body == Ident(x) && fuel > 0 {
        assert Eval(f.body, b.value.frame, fuel - 1) == Err(UndefinedVariable(x));
        assert Apply(f, args, env, fuel) == Err(UndefinedVariable(x));
      }
    }
  }

  /** ... but the caller keeps what the arguments did: after a call it has
      the environment its used arguments, run in order, leave behind. */
  lemma ArgumentLetReachesCaller(callee: Expr, args: seq<Expr>, env: Env, fuel: nat)
    requires PropertyKey(callee) in env && env[PropertyKey(callee)].VFun?
    requires Eval(Call(callee, args), env, fuel).Ok?
    ensures var n := |env[PropertyKey(callee)].params|;
      && n <= |args| && ArgEnv(args, env, fuel, n).Ok?
      && Eval(Call(callee, args), env, fuel).value.env == ArgEnv(args, env, fuel, n).value
  {
    var f := env[PropertyKey(callee)];
    BindArgsThreads(f.params, args, env, env, fuel);
  }

  /** For instance, an argument `let y = 1` adds `y` for the caller. */
  lemma ArgumentLetExample()
    ensures var env: Env := map["g" := VFun(["a"], Ident("a"))];
      Eval(Call(Ident("g"), [Let("y", Num(1))]), env, 1) == Ok(Done(VNum(1), env["y" := VNum(1)]))
  {
    var env: Env := map["g" := VFun(["a"], Ident("a"))];
    var frame := env["a" := VNum(1)];
    assert BindArgs(["a"], [Let("y", Num(1))], env, env, 1) == Ok(Bound(frame, env["y" := VNum(1)]));
    assert Eval(Ident("a"), frame, 0) == Ok(Done(VNum(1), frame));
  }

  // ---------------------------------------------------------------------
  // Fuel

  /** Fuel only cuts evaluation off: an answer other than running out of
      fuel stays the same answer with any larger amount. */
  lemma {:induction false} EvalFuelMonotone(e: Expr, env: Env, fuel: nat, more: nat)
    requires fuel <= more
    requires Eval(e, env, fuel) != Err(OutOfFuel)
    ensures Eval(e, env, more) == Eval(e, env, fuel)
    decreases fuel, e, 2
  {
    match e
    case Statements(body) =>
      BlockFuelMonotone(body, env, VUndefined, fuel, more);
    case Let(name, value) =>
      if !value.Function? {
        EvalFuelMonotone(value, env, fuel, more);
      }
    case Call(callee, args) =>
      var key := PropertyKey(callee);
      if key in env && env[key].VFun? {
        ApplyFuelMonotone(env[key], args, env, fuel, more);
      }
    case Op(op, left, right) =>
      EvalFuelMonotone(left, env, fuel, more);
      var l := Eval(left, env, fuel);
      if l.Ok? {
        EvalFuelMonotone(right, l.value.env, fuel, more);
      }
    case Num(_) =>
    case Ident(_) =>
    case Function(_, _) =>
  }

  lemma {:induction false} ApplyFuelMonotone(f: Value, args: seq<Expr>, env: Env, fuel: nat, more: nat)
    requires f.VFun? && fuel <= more
    requires Apply(f, args, env, fuel) != Err(OutOfFuel)
    ensures Apply(f, args, env, more) == Apply(f, args, env, fuel)
    decreases fuel, args, 1
  {
    BindFuelMonotone(f.params, args, env, env, fuel, more);
    var b := BindArgs(f.params, args, env, env, fuel);
    if b.Ok? && fuel > 0 {
      EvalFuelMonotone(f.body, b.value.frame, fuel - 1, more - 1);
    }
  }

  lemma {:induction false} BlockFuelMonotone(body: seq<Expr>, env: Env, last: Value, fuel: nat, more: nat)
    requires fuel <= more
    requires EvalBlock(body, env, last, fuel) != Err(OutOfFuel)
    ensures EvalBlock(body, env, last, more) == EvalBlock(body, env, last, fuel)
    decreases fuel, body, 2
  {
    if |body| > 0 {
      EvalFuelMonotone(body[0], env, fuel, more);
      var d := Eval(body[0], env, fuel);
      if d.Ok? {
        BlockFuelMonotone(body[1..], d.value.env, d.value.value, fuel, more);
      }
    }
  }

  lemma {:induction false} BindFuelMonotone(params: seq<string>, args: seq<Expr>, frame: Env, caller: Env,
                                           fuel: nat, more: nat)
    requires fuel <= more
    requires BindArgs(params, args, frame, caller, fuel) != Err(OutOfFuel)
    ensures BindArgs(params, args, frame, caller, more) == BindArgs(params, args, frame, caller, fuel)
    decreases fuel, args, 0
  {
    if |params| > 0 && |args| > 0 {
      EvalFuelMonotone(args[0], caller, fuel, more);
      var d := Eval(args[0], caller, fuel);
      if d.Ok? {
        BindFuelMonotone(params[1..], args[1..], frame[params[0] := d.value.value], d.value.env, fuel, more);
      }
    }
  }

  // ---------------------------------------------------------------------
  // Examples

  /** Operands are evaluated left to right in one environment: a `let` in
      the left operand is visible to the right one, not the other way. */
  lemma LeftOperandFirst()
    ensures Eval(Op("+", Let("x", Num(1)), Ident("x")), map[], 0) == Ok(Done(VNum(2), map["x" := VNum(1)]))
    ensures Eval(Op("+", Ident("x"), Let("x", Num(1))), map[], 0) == Err(UndefinedVariable("x"))
  {
  }
}
