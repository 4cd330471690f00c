/** Evaluation (`lval_eval`, `lval_eval_sexpr`, `lval_call` and the
    evaluating builtins `eval` and `if` of src/parser-util.c).

    The C evaluator recurses without bound; here every evaluation carries a
    `fuel` budget, used up one unit per S-Expression evaluated, and answers
    `OutOfFuel` when it runs out. Given enough fuel the answer is the one the
    C code computes (see `EvalFuelMonotone`).

    The environment is threaded through evaluation as a chain of frames
    (module Env), innermost first and root last. */
module Evaluator {
  import opened Util
  import opened Values
  import opened Env
  import opened Builtins

  /** The result of an evaluation and the environment it leaves behind. */
  datatype Outcome<T> = Ok(value: T, env: Chain) | OutOfFuel

  /** What evaluation may change in a chain: it keeps its length, and only the
      innermost frame (written by `=`) and the root (written by `def`) can
      differ. */
  predicate Keeps(env: Chain, env': Chain) {
    |env'| == |env| && forall i :: 0 < i < |env| - 1 ==> env'[i] == env[i]
  }

  /** Only the root frame can differ. */
  predicate RootOnly(env: Chain, env': Chain) {
    |env'| == |env| && forall i :: 0 <= i < |env| - 1 ==> env'[i] == env[i]
  }

  /** The diagnostic of an S-Expression whose first cell is not a Function. */
  function NotFunctionError(v: Value): Value {
    Err("S-Expression starts with incorrect type. Got " + TypeName(TagOf(v)) +
        ", Expected " + TypeName(TFun) + ".")
  }

  /** The error check loop of `lval_eval_sexpr`: the first Error cell. */
  function FirstError(vs: seq<Value>, i: nat): (r: Option<nat>)
    requires i <= |vs|
    ensures r.Some? ==> i <= r.value < |vs| && vs[r.value].Err? &&
                        forall j :: i <= j < r.value ==> !vs[j].Err?
    ensures r.None? ==> forall j :: i <= j < |vs| ==> !vs[j].Err?
    decreases |vs| - i
  {
    if i == |vs| then None
    else if vs[i].Err? then Some(i)
    else FirstError(vs, i + 1)
  }

  // ---------------------------------------------------------------------
  // Binding arguments to formals (the loops of lval_call)

  /** The state of a lambda after its arguments are bound: its updated frame
      and the formals still unbound, or the error that stopped binding. */
  datatype Bound = Bound(env: Frame, formals: seq<string>) | BindFailed(err: Value)

  function TooManyError(given: int, total: int): Value {
    Err("Function passed too many arguments. Got " + IntToString(given) +
        ", Expected " + IntToString(total) + ".")
  }

  const FormatError: Value :=
    Err("Function format invalid. Symbol '&' not followed by single symbol.")

  /** After the loop: a remaining `&` must be followed by exactly one last
      formal, which is bound to the empty Q-Expression. */
  function BindRest(fenv: Frame, formals: seq<string>): Bound {
    if |formals| > 0 && formals[0] == "&" then
      if |formals| != 2 then BindFailed(FormatError)
      else Bound(Put(fenv, formals[1], QExpr([])), [])
    else Bound(fenv, formals)
  }

  /** The binding loop of `lval_call`: each argument is bound to the next
      formal; `&` binds the formal after it to all remaining arguments as a
      Q-Expression. `given` and `total` are the counts at the start, which the
      too-many diagnostic reports. */
  function BindArgs(fenv: Frame, formals: seq<string>, args: seq<Value>, given: int, total: int): Bound
    decreases |args|
  {
    if args == [] then BindRest(fenv, formals)
    else if formals == [] then BindFailed(TooManyError(given, total))
    else if formals[0] == "&" then
      if |formals| != 2 then BindFailed(FormatError)
      else BindRest(Put(fenv, formals[1], QExpr(args)), [])
    else BindArgs(Put(fenv, formals[0], args[0]), formals[1..], args[1..], given, total)
  }

  /** The binding loops of `lval_call`, on the popped copies of the formals
      and the arguments. */
  method BindLoop(fenv: Frame, formals: seq<string>, args: seq<Value>) returns (r: Bound)
    ensures r == BindArgs(fenv, formals, args, |args|, |formals|)
  {
    var given, total := |args|, |formals|;
    var env, fs, a := fenv, formals, args;
    while |a| > 0
      invariant BindArgs(env, fs, a, given, total) == BindArgs(fenv, formals, args, given, total)
      decreases |a|
    {
      if |fs| == 0 {
        return BindFailed(TooManyError(given, total));
      }
      var sym := fs[0];
      fs := fs[1..];
      if sym == "&" {
        if |fs| != 1 {
          return BindFailed(FormatError);
        }
        var nsym := fs[0];
        fs := fs[1..];
        env := Put(env, nsym, BuiltinList(a));
        a := [];
        break;
      }
      var val := a[0];
      a := a[1..];
      env := Put(env, sym, val);
    }
    if |fs| > 0 && fs[0] == "&" {
      if |fs| != 2 {
        return BindFailed(FormatError);
      }
      env := Put(env, fs[1], QExpr([]));
      fs := [];
    }
    r := Bound(env, fs);
  }

  // ---------------------------------------------------------------------
  // The evaluator

  /** `lval_eval`: Symbols are looked up, S-Expressions evaluated, and every
      other value evaluates to itself. */
  function Eval(env: Chain, v: Value, fuel: nat): (r: Outcome<Value>)
    requires |env| > 0
    ensures r.Ok? ==> Keeps(env, r.env)
    decreases fuel, 0, 0
  {
    if fuel == 0 then OutOfFuel
    else match v
      case Sym(k) => Ok(Get(env, k), env)
      case SExpr(cells) => EvalSExpr(env, cells, fuel - 1)
      case _ => Ok(v, env)
  }

  /** The first loop of `lval_eval_sexpr`: every cell, in order, each in the
      environment the previous ones left. */
  function EvalCells(env: Chain, cells: seq<Value>, fuel: nat): (r: Outcome<seq<Value>>)
    requires |env| > 0
    ensures r.Ok? ==> |r.value| == |cells| && Keeps(env, r.env)
    decreases fuel, 1, |cells|
  {
    if cells == [] then Ok([], env)
    else match Eval(env, cells[0], fuel)
      case OutOfFuel => OutOfFuel
      case Ok(v, env1) =>
        match EvalCells(env1, cells[1..], fuel)
        case OutOfFuel => OutOfFuel
        case Ok(vs, env2) => Ok([v] + vs, env2)
  }

  /** `lval_eval_sexpr`: all cells are evaluated first; then the first Error
      among them is the result; `()` evaluates to itself, `(x)` to `x`;
      otherwise the first cell must be a Function and is called with the
      rest. */
  function EvalSExpr(env: Chain, cells: seq<Value>, fuel: nat): (r: Outcome<Value>)
    requires |env| > 0
    ensures r.Ok? ==> Keeps(env, r.env)
    decreases fuel, 3, 0
  {
    match EvalCells(env, cells, fuel)
    case OutOfFuel => OutOfFuel
    case Ok(vs, env1) =>
      match FirstError(vs, 0)
      case Some(i) => Ok(vs[i], env1)
      case None =>
        if |vs| == 0 then Ok(SExpr([]), env1)
        else if |vs| == 1 then Ok(vs[0], env1)
        else if !vs[0].IsFunction() then Ok(NotFunctionError(vs[0]), env1)
        else Call(env1, vs[0], vs[1..], fuel)
  }

  /** `lval_call`: a builtin is applied; a lambda binds its arguments into a
      copy of its frame, and once every formal is bound evaluates its body in
      that frame with the caller's chain as parent. The frame is dropped
      afterwards, so a lambda call changes only the root of the caller's
      chain. With formals left it is returned, partially applied. */
  function Call(env: Chain, f: Value, args: seq<Value>, fuel: nat): (r: Outcome<Value>)
    requires |env| > 0 && f.IsFunction() && |args| > 0
    ensures r.Ok? ==> Keeps(env, r.env)
    ensures r.Ok? && f.Lambda? ==> RootOnly(env, r.env)
    decreases fuel, 2, 0
  {
    match f
    case Fun(p) => ApplyBuiltin(env, p, args, fuel)
    case Lambda(fenv, formals, body) =>
      match BindArgs(fenv, formals, args, |args|, |formals|)
      case BindFailed(e) => Ok(e, env)
      case Bound(fenv', formals') =>
        if formals' == [] then
          (match ApplyBuiltin([fenv'] + env, PEval, [QExpr(body)], fuel)
           case OutOfFuel => OutOfFuel
           case Ok(v, env2) =>
             assert forall i :: 0 <= i < |env| - 1 ==> env2[1..][i] == env2[i + 1];
             Ok(v, env2[1..]))
        else Ok(Lambda(fenv', formals', body), env)
  }

  /** The builtin Function bodies, with the environment they are called in. */
  function ApplyBuiltin(env: Chain, p: Primitive, args: seq<Value>, fuel: nat): (r: Outcome<Value>)
    requires |env| > 0 && |args| > 0
    ensures r.Ok? ==> Keeps(env, r.env)
    decreases fuel, 1, 0
  {
    match p
    case PLambda => Ok(BuiltinLambda(args), env)
    case PDef => var (v, env') := BuiltinVar(p, env, args); Ok(v, env')
    case PPut => var (v, env') := BuiltinVar(p, env, args); Ok(v, env')
    case PList => Ok(BuiltinList(args), env)
    case PHead => Ok(BuiltinHead(args), env)
    case PTail => Ok(BuiltinTail(args), env)
    case PEval =>
      (match EvalArg(args)
       case Fail(e) => Ok(e, env)
       case Pass(cells) => Eval(env, SExpr(cells), fuel))
    case PJoin => Ok(BuiltinJoin(args), env)
    case PAdd => Ok(BuiltinOp(p, args), env)
    case PSub => Ok(BuiltinOp(p, args), env)
    case PMul => Ok(BuiltinOp(p, args), env)
    case PDiv => Ok(BuiltinOp(p, args), env)
    case PIf =>
      (match IfBranch(args)
       case Fail(e) => Ok(e, env)
       case Pass(cells) => Eval(env, SExpr(cells), fuel))
    case PEq => Ok(BuiltinCmp(p, args), env)
    case PNe => Ok(BuiltinCmp(p, args), env)
    case PGt => Ok(BuiltinOrd(p, args), env)
    case PLt => Ok(BuiltinOrd(p, args), env)
    case PGe => Ok(BuiltinOrd(p, args), env)
    case PLe => Ok(BuiltinOrd(p, args), env)
  }

  /** Cells already evaluated, put in front of the evaluation of the rest. */
  function Prepend(ws: seq<Value>, o: Outcome<seq<Value>>): Outcome<seq<Value>> {
    match o
    case OutOfFuel => OutOfFuel
    case Ok(xs, e) => Ok(ws + xs, e)
  }

  lemma PrependEmpty(o: Outcome<seq<Value>>)
    ensures Prepend([], o) == o
  {
    if o.Ok? {
      assert [] + o.value == o.value;
    }
  }

  lemma PrependTwice(ws: seq<Value>, v: Value, o: Outcome<seq<Value>>)
    ensures Prepend(ws, Prepend([v], o)) == Prepend(ws + [v], o)
  {
    if o.Ok? {
      assert ws + ([v] + o.value) == (ws + [v]) + o.value;
    }
  }

  /** `lval_eval_sexpr` with its two loops: the cells are evaluated in place,
      then scanned for an Error. */
  method EvalSExprLoop(env: Chain, cells: seq<Value>, fuel: nat) returns (r: Outcome<Value>)
    requires |env| > 0
    ensures r == EvalSExpr(env, cells, fuel)
  {
    var o := EvalCellsLoop(env, cells, fuel);
    if o.OutOfFuel? {
      return OutOfFuel;
    }
    var vs, e := o.value, o.env;
    var bad := FirstErrorLoop(vs);
    if bad.Some? {
      return Ok(vs[bad.value], e);
    }
    if |vs| == 0 {
      return Ok(SExpr([]), e);
    }
    if |vs| == 1 {
      return Ok(vs[0], e);
    }
    var f := vs[0];
    if !f.IsFunction() {
      return Ok(NotFunctionError(f), e);
    }
    r := Call(e, f, vs[1..], fuel);
  }

  /** The first loop of `lval_eval_sexpr`: each cell is replaced by its
      value, left to right, each evaluated in the environment the previous
      one left behind. */
  method EvalCellsLoop(env: Chain, cells: seq<Value>, fuel: nat) returns (r: Outcome<seq<Value>>)
    requires |env| > 0
    ensures r == EvalCells(env, cells, fuel)
  {
    var vs := cells;
    var e := env;
    var i := 0;
    assert cells[0..] == cells && vs[..0] == [];
    PrependEmpty(EvalCells(env, cells, fuel));
    while i < |vs|
      invariant 0 <= i <= |vs| == |cells|
      invariant |e| == |env|
      invariant vs[i..] == cells[i..]
      invariant EvalCells(env, cells, fuel) == Prepend(vs[..i], EvalCells(e, cells[i..], fuel))
    {
      var o := Eval(e, vs[i], fuel);
      assert cells[i..][0] == vs[i] && cells[i..][1..] == cells[i + 1..];
      if o.OutOfFuel? {
        return OutOfFuel;
      }
      assert EvalCells(e, cells[i..], fuel) == Prepend([o.value], EvalCells(o.env, cells[i + 1..], fuel));
      PrependTwice(vs[..i], o.value, EvalCells(o.env, cells[i + 1..], fuel));
      assert vs[i := o.value][..i + 1] == vs[..i] + [o.value];
      vs := vs[i := o.value];
      e := o.env;
      i := i + 1;
    }
    assert vs[..i] == vs && cells[i..] == [];
    assert EvalCells(e, [], fuel) == Ok([], e);
    assert vs + [] == vs;
    r := Ok(vs, e);
  }

  /** The second loop of `lval_eval_sexpr`: the index of the first Error
      among the evaluated cells. */
  method FirstErrorLoop(vs: seq<Value>) returns (r: Option<nat>)
    ensures r == FirstError(vs, 0)
  {
    var i := 0;
    while i < |vs|
      invariant 0 <= i <= |vs|
      invariant FirstError(vs, 0) == FirstError(vs, i)
    {
      if vs[i].Err? {
        return Some(i);
      }
      i := i + 1;
    }
    return None;
  }
}
