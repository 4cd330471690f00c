/** Laws of the evaluator of module Evaluator: the fuel bound is harmless,
    `lval_eval` and `lval_eval_sexpr` reduce as the C code does, `lval_call`
    binds, curries and collects variadic arguments, and `eval` and `if`
    evaluate exactly the Q-Expression they select. */
module EvalLaws {
  import opened Util
  import opened Values
  import opened Env
  import opened Builtins
  import opened Evaluator

  // ---------------------------------------------------------------------
  // Fuel

  /** More fuel never changes an answer: an evaluation that finishes within
      `fuel` steps gives the same value and environment with any larger
      budget, so the fuel-bounded model agrees with the unbounded C
      recursion wherever that terminates. */
  lemma {:induction false} EvalFuelMonotone(env: Chain, v: Value, fuel: nat, more: nat)
    requires |env| > 0 && fuel <= more && Eval(env, v, fuel).Ok?
    ensures Eval(env, v, more) == Eval(env, v, fuel)
    decreases fuel, 0, 0
  {
    match v
    case SExpr(cells) => EvalSExprFuelMonotone(env, cells, fuel - 1, more - 1);
    case _ =>
  }

  lemma {:induction false} EvalCellsFuelMonotone(env: Chain, cells: seq<Value>, fuel: nat, more: nat)
    requires |env| > 0 && fuel <= more && EvalCells(env, cells, fuel).Ok?
    ensures EvalCells(env, cells, more) == EvalCells(env, cells, fuel)
    decreases fuel, 1, |cells|
  {
    if cells != [] {
      EvalFuelMonotone(env, cells[0], fuel, more);
      var o := Eval(env, cells[0], fuel);
      EvalCellsFuelMonotone(o.env, cells[1..], fuel, more);
    }
  }

  lemma {:induction false} EvalSExprFuelMonotone(env: Chain, cells: seq<Value>, fuel: nat, more: nat)
    requires |env| > 0 && fuel <= more && EvalSExpr(env, cells, fuel).Ok?
    ensures EvalSExpr(env, cells, more) == EvalSExpr(env, cells, fuel)
    decreases fuel, 3, 0
  {
    EvalCellsFuelMonotone(env, cells, fuel, more);
    var o := EvalCells(env, cells, fuel);
    var vs := o.value;
    if FirstError(vs, 0).None? && |vs| > 1 && vs[0].IsFunction() {
      CallFuelMonotone(o.env, vs[0], vs[1..], fuel, more);
    }
  }

  lemma {:induction false} CallFuelMonotone(env: Chain, f: Value, args: seq<Value>, fuel: nat, more: nat)
    requires |env| > 0 && f.IsFunction() && |args| > 0
    requires fuel <= more && Call(env, f, args, fuel).Ok?
    ensures Call(env, f, args, more) == Call(env, f, args, fuel)
    decreases fuel, 2, 0
  {
    match f
    case Fun(p) => ApplyBuiltinFuelMonotone(env, p, args, fuel, more);
    case Lambda(fenv, formals, body) =>
      match BindArgs(fenv, formals, args, |args|, |formals|)
      case BindFailed(_) =>
      case Bound(fenv', formals') =>
        if formals' == [] {
          ApplyBuiltinFuelMonotone([fenv'] + env, PEval, [QExpr(body)], fuel, more);
        }
  }

  lemma {:induction false} ApplyBuiltinFuelMonotone(env: Chain, p: Primitive, args: seq<Value>, fuel: nat, more: nat)
    requires |env| > 0 && |args| > 0
    requires fuel <= more && ApplyBuiltin(env, p, args, fuel).Ok?
    ensures ApplyBuiltin(env, p, args, more) == ApplyBuiltin(env, p, args, fuel)
    decreases fuel, 1, 0
  {
    if p == PEval {
      match EvalArg(args)
      case Fail(_) =>
      case Pass(cells) => EvalFuelMonotone(env, SExpr(cells), fuel, more);
    } else if p == PIf {
      match IfBranch(args)
      case Fail(_) =>
      case Pass(cells) => EvalFuelMonotone(env, SExpr(cells), fuel, more);
    }
  }

  // ---------------------------------------------------------------------
  // lval_eval

  /** Symbols evaluate to a copy of their binding (or the unbound-symbol
      error); every tag other than Symbol and S-Expression evaluates to
      itself and leaves the environment alone. */
  lemma EvalAtoms(env: Chain, v: Value, fuel: nat)
    requires |env| > 0 && fuel > 0
    ensures v.Sym? ==> Eval(env, v, fuel) == Ok(Get(env, v.name), env)
    ensures !v.Sym? && !v.SExpr? ==> Eval(env, v, fuel) == Ok(v, env)
  {
  }

  /** What a cell that is not an S-Expression evaluates to. */
  function AtomValue(env: Chain, v: Value): Value
    requires |env| > 0
  {
    if v.Sym? then Get(env, v.name) else v
  }

  /** Cells without S-Expressions among them evaluate one by one, each
      Symbol to its binding and everything else to itself, and leave the
      environment as it was. */
  lemma {:induction false} EvalCellsAtoms(env: Chain, cells: seq<Value>, fuel: nat)
    requires |env| > 0 && fuel > 0
    requires forall j :: 0 <= j < |cells| ==> !cells[j].SExpr?
    ensures EvalCells(env, cells, fuel).Ok? && EvalCells(env, cells, fuel).env == env
    ensures forall j :: 0 <= j < |cells| ==> EvalCells(env, cells, fuel).value[j] == AtomValue(env, cells[j])
    decreases |cells|
  {
    if cells != [] {
      EvalAtoms(env, cells[0], fuel);
      assert Eval(env, cells[0], fuel) == Ok(AtomValue(env, cells[0]), env);
      EvalCellsAtoms(env, cells[1..], fuel);
      var rest := EvalCells(env, cells[1..], fuel).value;
      assert EvalCells(env, cells, fuel) == Ok([AtomValue(env, cells[0])] + rest, env);
      var vs := EvalCells(env, cells, fuel).value;
      forall j | 0 < j < |cells| ensures vs[j] == AtomValue(env, cells[j]) {
        assert vs[j] == rest[j - 1] && cells[j] == cells[1..][j - 1];
      }
    }
  }

  // ---------------------------------------------------------------------
  // lval_eval_sexpr

  /** Once every cell is evaluated, the lowest-index Error among the results
      is the answer, whatever follows it. */
  lemma EvalSExprFirstError(env: Chain, cells: seq<Value>, fuel: nat, vs: seq<Value>, env1: Chain, i: nat)
    requires |env| > 0 && EvalCells(env, cells, fuel) == Ok(vs, env1)
    requires i < |vs| && vs[i].Err? && forall j :: 0 <= j < i ==> !vs[j].Err?
    ensures EvalSExpr(env, cells, fuel) == Ok(vs[i], env1)
  {
    var r := FirstError(vs, 0);
    assert r.Some? && r.value == i;
  }

  /** Without errors among the evaluated cells, `()` stays as it is and
      `(x)` becomes the value of `x`. */
  lemma EvalSExprShort(env: Chain, cells: seq<Value>, fuel: nat, vs: seq<Value>, env1: Chain)
    requires |env| > 0 && EvalCells(env, cells, fuel) == Ok(vs, env1)
    requires forall j :: 0 <= j < |vs| ==> !vs[j].Err?
    ensures |cells| == 0 ==> EvalSExpr(env, cells, fuel) == Ok(SExpr([]), env) && env1 == env
    ensures |cells| == 1 ==> EvalSExpr(env, cells, fuel) == Ok(vs[0], env1)
  {
    var none := FirstError(vs, 0);
    assert none.None?;
  }

  /** Without errors among two or more evaluated cells, a list headed by a
      non-Function is a type error naming the head's type. */
  lemma EvalSExprNotFunction(env: Chain, cells: seq<Value>, fuel: nat, vs: seq<Value>, env1: Chain)
    requires |env| > 0 && EvalCells(env, cells, fuel) == Ok(vs, env1)
    requires forall j :: 0 <= j < |vs| ==> !vs[j].Err?
    requires |cells| > 1 && !vs[0].IsFunction()
    ensures EvalSExpr(env, cells, fuel) == Ok(NotFunctionError(vs[0]), env1)
  {
    var none := FirstError(vs, 0);
    assert none.None?;
  }

  /** Without errors among two or more evaluated cells headed by a Function,
      the head is called with the rest, in the environment the cells left. */
  lemma EvalSExprCalls(env: Chain, cells: seq<Value>, fuel: nat, vs: seq<Value>, env1: Chain)
    requires |env| > 0 && EvalCells(env, cells, fuel) == Ok(vs, env1)
    requires forall j :: 0 <= j < |vs| ==> !vs[j].Err?
    requires |cells| > 1 && vs[0].IsFunction()
    ensures EvalSExpr(env, cells, fuel) == Call(env1, vs[0], vs[1..], fuel)
  {
    var none := FirstError(vs, 0);
    assert none.None?;
  }

  // ---------------------------------------------------------------------
  // lval_call: binding

  /** Without `&`, arguments bind to formals in order: surplus arguments fail
      with the too-many diagnostic; otherwise the first `|args|` formals are
      bound and the rest stay unbound. */
  lemma {:induction false} BindPlain(fenv: Frame, formals: seq<string>, args: seq<Value>, given: int, total: int)
    requires "&" !in formals
    ensures |args| > |formals| ==>
      BindArgs(fenv, formals, args, given, total) == BindFailed(TooManyError(given, total))
    ensures |args| <= |formals| ==>
      BindArgs(fenv, formals, args, given, total) ==
        Bound(PutAll(fenv, formals[..|args|], args), formals[|args|..])
    decreases |args|
  {
    if args == [] {
      assert formals[..0] == [] && formals[0..] == formals;
    } else if formals != [] {
      assert formals[0] in formals;
      assert "&" !in formals[1..] by {
        forall s | s in formals[1..] ensures s in formals { }
      }
      BindPlain(Put(fenv, formals[0], args[0]), formals[1..], args[1..], given, total);
      if |args| <= |formals| {
        assert formals[..|args|][0] == formals[0];
        assert formals[..|args|][1..] == formals[1..][..|args| - 1];
        assert formals[1..][|args| - 1..] == formals[|args|..];
      }
    }
  }

  /** With formals `pre & x` (no `&` in `pre`): once `pre` is bound, `x` is
      bound to a Q-Expression of all remaining arguments, empty if there are
      none, and nothing stays unbound; with fewer arguments than `pre` the
      unbound formals, `& x` included, stay. */
  lemma {:induction false} BindVariadic(fenv: Frame, pre: seq<string>, x: string, args: seq<Value>, given: int, total: int)
    requires "&" !in pre
    ensures |args| >= |pre| ==>
      BindArgs(fenv, pre + ["&", x], args, given, total) ==
        Bound(Put(PutAll(fenv, pre, args[..|pre|]), x, QExpr(args[|pre|..])), [])
    ensures |args| < |pre| ==>
      BindArgs(fenv, pre + ["&", x], args, given, total) ==
        Bound(PutAll(fenv, pre[..|args|], args), pre[|args|..] + ["&", x])
    decreases |args|
  {
    var fs := pre + ["&", x];
    if pre == [] {
      assert fs == ["&", x];
      assert args[..0] == [] && args[0..] == args;
    } else {
      assert fs[0] == pre[0] && pre[0] in pre;
      if args == [] {
        assert pre[0..] + ["&", x] == fs;
      } else {
        assert fs[1..] == pre[1..] + ["&", x];
        assert "&" !in pre[1..] by {
          forall s | s in pre[1..] ensures s in pre { }
        }
        BindVariadic(Put(fenv, pre[0], args[0]), pre[1..], x, args[1..], given, total);
        if |args| >= |pre| {
          assert args[..|pre|][0] == args[0];
          assert args[..|pre|][1..] == args[1..][..|pre| - 1];
          assert args[1..][|pre| - 1..] == args[|pre|..];
        } else {
          assert pre[..|args|][0] == pre[0];
          assert pre[..|args|][1..] == pre[1..][..|args| - 1];
          assert pre[1..][|args| - 1..] == pre[|args|..];
        }
      }
    }
  }

  /** `&` followed by anything but exactly one formal is a format error as
      soon as binding reaches it. */
  lemma {:induction false} BindMalformed(fenv: Frame, pre: seq<string>, rest: seq<string>, args: seq<Value>, given: int, total: int)
    requires "&" !in pre && |rest| != 1 && |args| >= |pre|
    ensures BindArgs(fenv, pre + ["&"] + rest, args, given, total) == BindFailed(FormatError)
    decreases |pre|
  {
    var fs := pre + ["&"] + rest;
    if pre == [] {
      assert fs == ["&"] + rest;
    } else {
      assert fs[0] == pre[0] && pre[0] in pre;
      assert fs[1..] == pre[1..] + ["&"] + rest;
      assert "&" !in pre[1..] by {
        forall s | s in pre[1..] ensures s in pre { }
      }
      BindMalformed(Put(fenv, pre[0], args[0]), pre[1..], rest, args[1..], given, total);
    }
  }

  // ---------------------------------------------------------------------
  // lval_call: results

  /** More arguments than formals (and no `&`) is an error reporting the
      given and expected counts; the caller's environment is untouched. */
  lemma CallTooMany(env: Chain, fenv: Frame, formals: seq<string>, body: seq<Value>, args: seq<Value>, fuel: nat)
    requires |env| > 0 && "&" !in formals && |args| > |formals|
    ensures Call(env, Lambda(fenv, formals, body), args, fuel) ==
      Ok(Err("Function passed too many arguments. Got " + IntToString(|args|) +
             ", Expected " + IntToString(|formals|) + "."), env)
  {
    BindPlain(fenv, formals, args, |args|, |formals|);
  }

  /** Fewer arguments than formals gives back the function, partially
      applied: its frame holds the bound prefix and its formals are the
      unbound suffix. Nothing is evaluated. */
  lemma CallPartial(env: Chain, fenv: Frame, formals: seq<string>, body: seq<Value>, args: seq<Value>, fuel: nat)
    requires |env| > 0 && "&" !in formals && 0 < |args| < |formals|
    ensures Call(env, Lambda(fenv, formals, body), args, fuel) ==
      Ok(Lambda(PutAll(fenv, formals[..|args|], args), formals[|args|..], body), env)
  {
    BindPlain(fenv, formals, args, |args|, |formals|);
  }

  /** As many arguments as formals: the body is evaluated as an S-Expression
      in the closure frame, holding each formal bound to its argument, with
      the caller's chain as parent; the frame is dropped afterwards. */
  lemma CallFull(env: Chain, fenv: Frame, formals: seq<string>, body: seq<Value>, args: seq<Value>, fuel: nat)
    requires |env| > 0 && "&" !in formals && 0 < |args| == |formals|
    ensures var frame := PutAll(fenv, formals, args);
      var o := Eval([frame] + env, SExpr(body), fuel);
      Call(env, Lambda(fenv, formals, body), args, fuel) ==
        if o.Ok? then Ok(o.value, o.env[1..]) else OutOfFuel
    ensures (forall i, j :: 0 <= i < j < |formals| ==> formals[i] != formals[j]) ==>
      forall i :: 0 <= i < |formals| ==> Lookup(PutAll(fenv, formals, args), formals[i]) == Some(args[i])
  {
    BindPlain(fenv, formals, args, |args|, |formals|);
    assert formals[..|args|] == formals && formals[|args|..] == [];
    if forall i, j :: 0 <= i < j < |formals| ==> formals[i] != formals[j] {
      PutAllLookup(fenv, formals, args, "&");
    }
  }

  /** A variadic lambda `pre & x` given at least `|pre|` arguments evaluates
      its body with `x` bound to a Q-Expression of the arguments after the
      first `|pre|`; given fewer it is returned partially applied with
      `& x` still among its formals. */
  lemma CallVariadic(env: Chain, fenv: Frame, pre: seq<string>, x: string, body: seq<Value>, args: seq<Value>, fuel: nat)
    requires |env| > 0 && "&" !in pre && |args| > 0
    ensures |args| >= |pre| ==>
      var frame := Put(PutAll(fenv, pre, args[..|pre|]), x, QExpr(args[|pre|..]));
      var o := Eval([frame] + env, SExpr(body), fuel);
      Lookup(frame, x) == Some(QExpr(args[|pre|..])) &&
      Call(env, Lambda(fenv, pre + ["&", x], body), args, fuel) ==
        if o.Ok? then Ok(o.value, o.env[1..]) else OutOfFuel
    ensures |args| < |pre| ==>
      Call(env, Lambda(fenv, pre + ["&", x], body), args, fuel) ==
        Ok(Lambda(PutAll(fenv, pre[..|args|], args), pre[|args|..] + ["&", x], body), env)
  {
    BindVariadic(fenv, pre, x, args, |args|, |pre| + 2);
    if |args| >= |pre| {
      PutLookup(PutAll(fenv, pre, args[..|pre|]), x, QExpr(args[|pre|..]), x);
    }
  }

  /** A misplaced `&` makes the call fail with the format error, leaving the
      caller's environment untouched. */
  lemma CallMalformed(env: Chain, fenv: Frame, pre: seq<string>, rest: seq<string>, body: seq<Value>, args: seq<Value>, fuel: nat)
    requires |env| > 0 && "&" !in pre && |rest| != 1 && |pre| <= |args| && |args| > 0
    ensures Call(env, Lambda(fenv, pre + ["&"] + rest, body), args, fuel) == Ok(FormatError, env)
  {
    BindMalformed(fenv, pre, rest, args, |args|, |pre + ["&"] + rest|);
  }

  // ---------------------------------------------------------------------
  // eval and if

  /** `eval` retags its one Q-Expression argument as an S-Expression and
      evaluates it; any other argument list is an arity or type error. */
  lemma EvalBuiltin(env: Chain, args: seq<Value>, fuel: nat)
    requires |env| > 0 && |args| > 0
    ensures |args| == 1 && args[0].QExpr? ==>
      ApplyBuiltin(env, PEval, args, fuel) == Eval(env, SExpr(args[0].cells), fuel)
    ensures |args| != 1 ==> ApplyBuiltin(env, PEval, args, fuel) == Ok(ArityError("eval", |args|, 1), env)
    ensures |args| == 1 && !args[0].QExpr? ==>
      ApplyBuiltin(env, PEval, args, fuel) == Ok(TypeError("eval", 0, args[0], TQExpr), env)
  {
  }

  /** `if` evaluates the branch its condition selects, and only that one:
      the result is the same whatever the other branch holds. */
  lemma IfEvaluatesSelected(env: Chain, c: int, t: seq<Value>, f: seq<Value>, other: seq<Value>, fuel: nat)
    requires |env| > 0
    ensures ApplyBuiltin(env, PIf, [Num(c), QExpr(t), QExpr(f)], fuel) ==
      Eval(env, SExpr(if c != 0 then t else f), fuel)
    ensures c != 0 ==>
      ApplyBuiltin(env, PIf, [Num(c), QExpr(t), QExpr(other)], fuel) ==
      ApplyBuiltin(env, PIf, [Num(c), QExpr(t), QExpr(f)], fuel)
    ensures c == 0 ==>
      ApplyBuiltin(env, PIf, [Num(c), QExpr(other), QExpr(f)], fuel) ==
      ApplyBuiltin(env, PIf, [Num(c), QExpr(t), QExpr(f)], fuel)
  {
  }
}
