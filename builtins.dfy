/** The primitives of src/parser-util.c that do not evaluate: their argument
    checks (the `LASSERT*` macros), `builtin_op`, `head`, `tail`, `list`,
    `join`, `def` / `=` (`builtin_var`), `\` (`builtin_lambda`), the
    comparisons, and the checks of `eval` and `if`. The evaluating halves of
    `eval` and `if` are in module Evaluator. */
module Builtins {
  import opened Util
  import opened Values
  import opened Env

  // ---------------------------------------------------------------------
  // Diagnostics of the LASSERT macros

  /** `LASSERT_NUM`. */
  function ArityError(func: string, got: int, expected: int): Value {
    Err("Function '" + func + "' passed incorrect number of arguments. Got " +
        IntToString(got) + ", Expected " + IntToString(expected) + ".")
  }

  /** `LASSERT_TYPE`. */
  function TypeError(func: string, index: int, got: Value, expected: Tag): Value {
    Err("Function '" + func + "' passed incorrect type for argument " + IntToString(index) +
        ". Got " + TypeName(TagOf(got)) + ", Expected " + TypeName(expected) + ".")
  }

  /** `LASSERT_NOT_EMPTY`. */
  function EmptyError(func: string, index: int): Value {
    Err("Function '" + func + "' passed {} for argument " + IntToString(index) + ".")
  }

  /** A check loop over the arguments: the first index at or after `i` whose
      value does not have tag `t`. */
  function FirstNotOfTag(vs: seq<Value>, t: Tag, i: nat): (r: Option<nat>)
    requires i <= |vs|
    ensures r.Some? ==> i <= r.value < |vs| && TagOf(vs[r.value]) != t &&
                        forall j :: i <= j < r.value ==> TagOf(vs[j]) == t
    ensures r.None? ==> forall j :: i <= j < |vs| ==> TagOf(vs[j]) == t
    decreases |vs| - i
  {
    if i == |vs| then None
    else if TagOf(vs[i]) != t then Some(i)
    else FirstNotOfTag(vs, t, i + 1)
  }

  predicate AllOfTag(vs: seq<Value>, t: Tag) {
    forall j :: 0 <= j < |vs| ==> TagOf(vs[j]) == t
  }

  // ---------------------------------------------------------------------
  // Registration (lenv_add_builtins)

  /** The name each primitive is registered under, which is also the name its
      diagnostics use. */
  function Name(p: Primitive): string {
    match p
    case PLambda => "\\"
    case PDef => "def"
    case PPut => "="
    case PList => "list"
    case PHead => "head"
    case PTail => "tail"
    case PEval => "eval"
    case PJoin => "join"
    case PAdd => "+"
    case PSub => "-"
    case PMul => "*"
    case PDiv => "/"
    case PIf => "if"
    case PEq => "=="
    case PNe => "!="
    case PGt => ">"
    case PLt => "<"
    case PGe => ">="
    case PLe => "<="
  }

  /** The registration order of `lenv_add_builtins`. */
  const Registry: seq<Primitive> :=
    [PLambda, PDef, PPut, PList, PHead, PTail, PEval, PJoin,
     PAdd, PSub, PMul, PDiv, PIf, PEq, PNe, PGt, PLt, PGe, PLe]

  /** `lenv_add_builtin`: binds `Name(p)` to the builtin Function `p`. */
  function AddBuiltin(f: Frame, p: Primitive): Frame {
    Put(f, Name(p), Fun(p))
  }

  /** `lenv_add_builtins`: every primitive, in registration order. */
  function AddBuiltins(f: Frame): Frame {
    AddAll(f, Registry)
  }

  function AddAll(f: Frame, ps: seq<Primitive>): Frame
    decreases |ps|
  {
    if ps == [] then f else AddAll(AddBuiltin(f, ps[0]), ps[1..])
  }

  /** Every primitive is registered, under a name no other primitive has. */
  lemma RegistryComplete(p: Primitive, q: Primitive)
    ensures p in Registry
    ensures Name(p) == Name(q) ==> p == q
  {
  }

  /** Registering primitives other than `p` leaves the binding of `p`'s name
      alone. */
  lemma {:induction false} AddAllKeeps(f: Frame, ps: seq<Primitive>, p: Primitive)
    requires p !in ps
    ensures Lookup(AddAll(f, ps), Name(p)) == Lookup(f, Name(p))
    decreases |ps|
  {
    if ps != [] {
      RegistryComplete(ps[0], p);
      PutLookup(f, Name(ps[0]), Fun(ps[0]), Name(p));
      AddAllKeeps(AddBuiltin(f, ps[0]), ps[1..], p);
    }
  }

  /** After registering a list that contains `p`, `p`'s name looks up to `p`. */
  lemma {:induction false} AddAllBinds(f: Frame, ps: seq<Primitive>, p: Primitive)
    requires p in ps
    ensures Lookup(AddAll(f, ps), Name(p)) == Some(Fun(p))
    decreases |ps|
  {
    if p in ps[1..] {
      AddAllBinds(AddBuiltin(f, ps[0]), ps[1..], p);
    } else {
      assert ps[0] == p;
      PutLookup(f, Name(p), Fun(p), Name(p));
      AddAllKeeps(AddBuiltin(f, p), ps[1..], p);
    }
  }

  /** After `lenv_add_builtins`, each primitive's name looks up to that
      primitive, whatever the frame held before. */
  lemma BuiltinsBound(f: Frame, p: Primitive)
    ensures Lookup(AddBuiltins(f), Name(p)) == Some(Fun(p))
  {
    RegistryComplete(p, p);
    AddAllBinds(f, Registry, p);
  }


  // ---------------------------------------------------------------------
  // builtin_op

  predicate IsArith(p: Primitive) {
    p == PAdd || p == PSub || p == PMul || p == PDiv
  }

  /** C's `/` on integers: the quotient truncated toward zero. */
  function CDiv(a: int, b: int): (q: int)
    requires b != 0
    ensures var m := a - q * b;
      (if m < 0 then -m else m) < (if b < 0 then -b else b) &&
      (m == 0 || (m < 0) == (a < 0))
  {
    var aa := if a < 0 then -a else a;
    var bb := if b < 0 then -b else b;
    var q := aa / bb;
    if (a < 0) == (b < 0) then q else -q
  }

  /** One step of the accumulation in `builtin_op`. */
  function Arith(p: Primitive, x: int, y: int): int
    requires IsArith(p) && (p == PDiv ==> y != 0)
  {
    match p
    case PAdd => x + y
    case PSub => x - y
    case PMul => x * y
    case PDiv => CDiv(x, y)
  }

  /** The accumulation loop of `builtin_op` over the remaining arguments:
      a left fold that stops with `Division by zero.` at a zero divisor. */
  function Fold(p: Primitive, x: int, rest: seq<Value>): Value
    requires IsArith(p) && AllOfTag(rest, TNum)
    decreases |rest|
  {
    if rest == [] then Num(x)
    else if p == PDiv && rest[0].n == 0 then Err("Division by zero.")
    else Fold(p, Arith(p, x, rest[0].n), rest[1..])
  }

  /** `builtin_op`: every argument must be a Number; `-` of one argument
      negates it; otherwise the arguments are folded from the left. The
      evaluator always passes at least one argument, and the C code pops the
      first one unconditionally. */
  function BuiltinOp(p: Primitive, args: seq<Value>): Value
    requires IsArith(p) && |args| > 0
  {
    match FirstNotOfTag(args, TNum, 0)
    case Some(i) => TypeError(Name(p), i, args[i], TNum)
    case None =>
      if p == PSub && |args| == 1 then Num(-args[0].n)
      else Fold(p, args[0].n, args[1..])
  }

  /** `builtin_op` with its two loops: the type check, then the accumulation
      into the first argument. */
  method BuiltinOpLoop(p: Primitive, args: seq<Value>) returns (r: Value)
    requires IsArith(p) && |args| > 0
    ensures r == BuiltinOp(p, args)
  {
    var bad := CheckNumbers(args);
    if bad.Some? {
      return TypeError(Name(p), bad.value, args[bad.value], TNum);
    }
    var x := args[0].n;
    var rest := args[1..];
    if p == PSub && |rest| == 0 {
      return Num(-x);
    }
    r := Accumulate(p, x, rest);
  }

  /** The first loop of `builtin_op`: the index of the first argument that
      is not a Number. */
  method CheckNumbers(args: seq<Value>) returns (r: Option<nat>)
    ensures r == FirstNotOfTag(args, TNum, 0)
  {
    var i := 0;
    while i < |args|
      invariant 0 <= i <= |args|
      invariant FirstNotOfTag(args, TNum, 0) == FirstNotOfTag(args, TNum, i)
    {
      if !args[i].Num? {
        return Some(i);
      }
      i := i + 1;
    }
    return None;
  }

  /** The second loop of `builtin_op`: the arguments after the first are
      popped one at a time and combined into the accumulator `x`. */
  method Accumulate(p: Primitive, x: int, rest: seq<Value>) returns (r: Value)
    requires IsArith(p) && AllOfTag(rest, TNum)
    ensures r == Fold(p, x, rest)
  {
    var acc, todo := x, rest;
    while |todo| > 0
      invariant AllOfTag(todo, TNum)
      invariant Fold(p, acc, todo) == Fold(p, x, rest)
      decreases |todo|
    {
      var y := todo[0].n;
      ghost var acc0, todo0 := acc, todo;
      todo := todo[1..];
      if p == PAdd { acc := acc + y; }
      if p == PSub { acc := acc - y; }
      if p == PMul { acc := acc * y; }
      if p == PDiv {
        if y == 0 {
          return Err("Division by zero.");
        }
        acc := CDiv(acc, y);
      }
      assert acc == Arith(p, acc0, y);
    }
    r := Num(acc);
  }

  /** The sum and product of a list of Numbers. */
  function SumOf(vs: seq<Value>): int
    requires AllOfTag(vs, TNum)
  {
    if vs == [] then 0 else vs[0].n + SumOf(vs[1..])
  }

  function ProductOf(vs: seq<Value>): int
    requires AllOfTag(vs, TNum)
  {
    if vs == [] then 1 else vs[0].n * ProductOf(vs[1..])
  }

  lemma {:induction false} FoldAdd(x: int, rest: seq<Value>)
    requires AllOfTag(rest, TNum)
    ensures Fold(PAdd, x, rest) == Num(x + SumOf(rest))
    decreases |rest|
  {
    if rest != [] {
      FoldAdd(x + rest[0].n, rest[1..]);
    }
  }

  lemma {:induction false} FoldSub(x: int, rest: seq<Value>)
    requires AllOfTag(rest, TNum)
    ensures Fold(PSub, x, rest) == Num(x - SumOf(rest))
    decreases |rest|
  {
    if rest != [] {
      FoldSub(x - rest[0].n, rest[1..]);
    }
  }

  lemma {:induction false} FoldMul(x: int, rest: seq<Value>)
    requires AllOfTag(rest, TNum)
    ensures Fold(PMul, x, rest) == Num(x * ProductOf(rest))
    decreases |rest|
  {
    if rest != [] {
      FoldMul(x * rest[0].n, rest[1..]);
      assert x * rest[0].n * ProductOf(rest[1..]) == x * (rest[0].n * ProductOf(rest[1..]));
    }
  }

  /** `+` sums its arguments. */
  lemma OpSum(args: seq<Value>)
    requires |args| > 0 && AllOfTag(args, TNum)
    ensures BuiltinOp(PAdd, args) == Num(SumOf(args))
  {
    assert FirstNotOfTag(args, TNum, 0).None?;
    FoldAdd(args[0].n, args[1..]);
  }

  /** `*` multiplies its arguments. */
  lemma OpProduct(args: seq<Value>)
    requires |args| > 0 && AllOfTag(args, TNum)
    ensures BuiltinOp(PMul, args) == Num(ProductOf(args))
  {
    assert FirstNotOfTag(args, TNum, 0).None?;
    FoldMul(args[0].n, args[1..]);
  }

  /** `-` negates a single argument and otherwise subtracts all later
      arguments from the first. */
  lemma OpDifference(args: seq<Value>)
    requires |args| > 0 && AllOfTag(args, TNum)
    ensures BuiltinOp(PSub, args) ==
      if |args| == 1 then Num(-args[0].n) else Num(args[0].n - SumOf(args[1..]))
  {
    assert FirstNotOfTag(args, TNum, 0).None?;
    FoldSub(args[0].n, args[1..]);
  }

  /** A non-Number argument gives a type error naming the first such index. */
  lemma OpTypeError(p: Primitive, args: seq<Value>, i: nat)
    requires IsArith(p) && i < |args| && !args[i].Num?
    requires forall j :: 0 <= j < i ==> args[j].Num?
    ensures BuiltinOp(p, args) == TypeError(Name(p), i, args[i], TNum)
  {
    var r := FirstNotOfTag(args, TNum, 0);
    assert r.Some? && r.value == i;
  }

  /** Division stops at the first zero divisor: any zero among the divisors
      makes the result `Division by zero.` */
  lemma {:induction false} FoldDivZero(x: int, rest: seq<Value>, j: nat)
    requires AllOfTag(rest, TNum) && j < |rest| && rest[j].n == 0
    ensures Fold(PDiv, x, rest) == Err("Division by zero.")
    decreases |rest|
  {
    if rest[0].n != 0 {
      FoldDivZero(CDiv(x, rest[0].n), rest[1..], j - 1);
    }
  }

  /** Without a zero divisor, division yields a Number. */
  lemma {:induction false} FoldDivNonZero(x: int, rest: seq<Value>)
    requires AllOfTag(rest, TNum) && forall j :: 0 <= j < |rest| ==> rest[j].n != 0
    ensures Fold(PDiv, x, rest).Num?
    decreases |rest|
  {
    if rest != [] {
      FoldDivNonZero(CDiv(x, rest[0].n), rest[1..]);
    }
  }

  lemma OpDivision(args: seq<Value>)
    requires |args| > 1 && AllOfTag(args, TNum)
    ensures BuiltinOp(PDiv, args) == Err("Division by zero.") <==>
            exists j :: 1 <= j < |args| && args[j].n == 0
  {
    if exists j :: 1 <= j < |args| && args[j].n == 0 {
      var j :| 1 <= j < |args| && args[j].n == 0;
      FoldDivZero(args[0].n, args[1..], j - 1);
    } else {
      FoldDivNonZero(args[0].n, args[1..]);
    }
  }

  // ---------------------------------------------------------------------
  // head, tail, list, join

  /** `builtin_head`: exactly one non-empty Q-Expression; keeps its first cell. */
  function BuiltinHead(args: seq<Value>): Value {
    if |args| != 1 then ArityError("head", |args|, 1)
    else if !args[0].QExpr? then TypeError("head", 0, args[0], TQExpr)
    else if args[0].cells == [] then EmptyError("head", 0)
    else QExpr([args[0].cells[0]])
  }

  /** `builtin_tail`: exactly one non-empty Q-Expression; drops its first cell. */
  function BuiltinTail(args: seq<Value>): Value {
    if |args| != 1 then ArityError("tail", |args|, 1)
    else if !args[0].QExpr? then TypeError("tail", 0, args[0], TQExpr)
    else if args[0].cells == [] then EmptyError("tail", 0)
    else QExpr(args[0].cells[1..])
  }

  /** `builtin_list`: the argument S-Expression retagged as a Q-Expression. */
  function BuiltinList(args: seq<Value>): (r: Value)
    ensures r.QExpr? && r.cells == args
  {
    QExpr(args)
  }

  /** The errors of `head`, in the order its checks run. */
  lemma HeadErrors(args: seq<Value>)
    ensures |args| != 1 ==> BuiltinHead(args) == ArityError("head", |args|, 1)
    ensures |args| == 1 && !args[0].QExpr? ==> BuiltinHead(args) == TypeError("head", 0, args[0], TQExpr)
    ensures |args| == 1 && args[0] == QExpr([]) ==> BuiltinHead(args) == EmptyError("head", 0)
    ensures BuiltinHead(args).Err? <==> !(|args| == 1 && args[0].QExpr? && args[0].cells != [])
  {
  }

  /** The errors of `tail`, the same checks as `head` under its own name. */
  lemma TailErrors(args: seq<Value>)
    ensures |args| != 1 ==> BuiltinTail(args) == ArityError("tail", |args|, 1)
    ensures |args| == 1 && !args[0].QExpr? ==> BuiltinTail(args) == TypeError("tail", 0, args[0], TQExpr)
    ensures |args| == 1 && args[0] == QExpr([]) ==> BuiltinTail(args) == EmptyError("tail", 0)
    ensures BuiltinTail(args).Err? <==> !(|args| == 1 && args[0].QExpr? && args[0].cells != [])
  {
  }

  /** `head` and `tail` split a non-empty Q-Expression: putting the head back
      in front of the tail gives the argument again. */
  lemma HeadTailSplit(q: Value)
    requires q.QExpr? && q.cells != []
    ensures BuiltinHead([q]).QExpr? && BuiltinTail([q]).QExpr?
    ensures |BuiltinHead([q]).cells| == 1
    ensures BuiltinHead([q]).cells + BuiltinTail([q]).cells == q.cells
  {
  }

  /** The cells of a list of Q-Expressions, concatenated in order. */
  function Concat(qs: seq<Value>): seq<Value>
    requires AllOfTag(qs, TQExpr)
  {
    if qs == [] then [] else qs[0].cells + Concat(qs[1..])
  }

  lemma {:induction false} ConcatSnoc(qs: seq<Value>, q: Value)
    requires AllOfTag(qs, TQExpr) && q.QExpr?
    ensures AllOfTag(qs + [q], TQExpr)
    ensures Concat(qs + [q]) == Concat(qs) + q.cells
    decreases |qs|
  {
    if qs != [] {
      assert (qs + [q])[1..] == qs[1..] + [q];
      ConcatSnoc(qs[1..], q);
    }
  }

  /** `builtin_join`: all arguments must be Q-Expressions; the result holds
      their cells in order. */
  function BuiltinJoin(args: seq<Value>): Value
    requires |args| > 0
  {
    match FirstNotOfTag(args, TQExpr, 0)
    case Some(i) => TypeError("join", i, args[i], TQExpr)
    case None => QExpr(Concat(args))
  }

  /** `builtin_join` with its loops: the type check, then `lval_join` of each
      later argument onto the first. */
  method BuiltinJoinLoop(args: seq<Value>) returns (r: Value)
    requires |args| > 0
    ensures r == BuiltinJoin(args)
  {
    var i := 0;
    while i < |args|
      invariant 0 <= i <= |args|
      invariant FirstNotOfTag(args, TQExpr, 0) == FirstNotOfTag(args, TQExpr, i)
    {
      if !args[i].QExpr? {
        return TypeError("join", i, args[i], TQExpr);
      }
      i := i + 1;
    }
    r := args[0];
    i := 1;
    assert args[..1] == [args[0]];
    assert Concat([args[0]]) == args[0].cells;
    while i < |args|
      invariant 1 <= i <= |args|
      invariant r.QExpr? && r.cells == Concat(args[..i])
    {
      ConcatSnoc(args[..i], args[i]);
      assert args[..i + 1] == args[..i] + [args[i]];
      r := JoinLists(r, args[i]);
      i := i + 1;
    }
    assert args[..i] == args;
  }

  /** `join` fails exactly when some argument is not a Q-Expression, naming the
      first one. */
  lemma JoinTypeError(args: seq<Value>, i: nat)
    requires i < |args| && !args[i].QExpr?
    requires forall j :: 0 <= j < i ==> args[j].QExpr?
    ensures BuiltinJoin(args) == TypeError("join", i, args[i], TQExpr)
  {
    var r := FirstNotOfTag(args, TQExpr, 0);
    assert r.Some? && r.value == i;
  }

  lemma {:induction false} ConcatAppend(xs: seq<Value>, ys: seq<Value>)
    requires AllOfTag(xs, TQExpr) && AllOfTag(ys, TQExpr)
    ensures AllOfTag(xs + ys, TQExpr)
    ensures Concat(xs + ys) == Concat(xs) + Concat(ys)
    decreases |xs|
  {
    if xs != [] {
      assert (xs + ys)[1..] == xs[1..] + ys;
      ConcatAppend(xs[1..], ys);
    } else {
      assert xs + ys == ys;
    }
  }

  lemma AllOfTagPasses(vs: seq<Value>, t: Tag)
    requires AllOfTag(vs, t)
    ensures FirstNotOfTag(vs, t, 0).None?
  {
  }

  /** `join` of Q-Expressions is one Q-Expression holding all their cells,
      in order. */
  lemma JoinConcatenates(args: seq<Value>)
    requires |args| > 0 && AllOfTag(args, TQExpr)
    ensures BuiltinJoin(args) == QExpr(Concat(args))
  {
    AllOfTagPasses(args, TQExpr);
  }

  /** Joining is associative: joining the join of `xs` with `ys` is joining
      them all at once; and a single Q-Expression joins to itself. */
  lemma JoinFlattens(xs: seq<Value>, ys: seq<Value>)
    requires |xs| > 0 && AllOfTag(xs, TQExpr) && AllOfTag(ys, TQExpr)
    ensures BuiltinJoin([BuiltinJoin(xs)] + ys) == BuiltinJoin(xs + ys)
    ensures |xs| == 1 ==> BuiltinJoin(xs) == xs[0]
  {
    JoinConcatenates(xs);
    var q := QExpr(Concat(xs));
    var qys := [q] + ys;
    assert qys[1..] == ys;
    assert AllOfTag(qys, TQExpr);
    JoinConcatenates(qys);
    assert Concat(qys) == q.cells + Concat(ys);
    ConcatAppend(xs, ys);
    JoinConcatenates(xs + ys);
    if |xs| == 1 {
      assert xs[1..] == [] && TagOf(xs[0]) == TQExpr;
      assert Concat(xs) == xs[0].cells + Concat(xs[1..]);
    }
  }



  // ---------------------------------------------------------------------
  // def and = (builtin_var)

  /** The names of a list of Symbols. */
  function Names(syms: seq<Value>): (r: seq<string>)
    requires AllOfTag(syms, TSym)
    ensures |r| == |syms| && forall i :: 0 <= i < |r| ==> r[i] == syms[i].name
  {
    if syms == [] then [] else [syms[0].name] + Names(syms[1..])
  }

  /** Binds one name: into the root frame for `def` (`lenv_def`), into the
      current frame for `=` (`lenv_put`). */
  function BindVar(p: Primitive, env: Chain, k: string, v: Value): (r: Chain)
    requires p == PDef || p == PPut
    requires |env| > 0
    ensures |r| == |env|
    ensures r[Target(p, env)] == Put(env[Target(p, env)], k, v)
    ensures forall d :: 0 <= d < |env| && d != Target(p, env) ==> r[d] == env[d]
  {
    if p == PDef then Def(env, k, v) else env[0 := Put(env[0], k, v)]
  }

  /** The binding loop of `builtin_var`: one name after the other. */
  function BindVars(p: Primitive, env: Chain, ks: seq<string>, vs: seq<Value>): (r: Chain)
    requires p == PDef || p == PPut
    requires |env| > 0 && |ks| == |vs|
    ensures |r| == |env|
    ensures forall d :: 0 <= d < |env| && d != Target(p, env) ==> r[d] == env[d]
    decreases |ks|
  {
    if ks == [] then env else BindVars(p, BindVar(p, env, ks[0], vs[0]), ks[1..], vs[1..])
  }

  /** `builtin_var`: the first argument must be a Q-Expression (the message
      always says `def`), all of its cells Symbols, and as many as there are
      remaining arguments; then each Symbol is bound to the argument at its
      position and the result is the empty S-Expression. */
  function BuiltinVar(p: Primitive, env: Chain, args: seq<Value>): (r: (Value, Chain))
    requires p == PDef || p == PPut
    requires |env| > 0 && |args| > 0
    ensures |r.1| == |env|
    ensures forall d :: 0 <= d < |env| && d != Target(p, env) ==> r.1[d] == env[d]
  {
    if !args[0].QExpr? then (TypeError("def", 0, args[0], TQExpr), env)
    else
      var syms := args[0].cells;
      match FirstNotOfTag(syms, TSym, 0)
      case Some(i) =>
        (Err("Function '" + Name(p) + "' cannot define non-symbol. Got " +
             TypeName(TagOf(syms[i])) + ", Expected " + TypeName(TSym) + "."), env)
      case None =>
        if |syms| != |args| - 1 then
          (Err("Function '" + Name(p) + "' passed too many arguments for symbols. Got " +
               IntToString(|syms|) + ", Expected " + IntToString(|args| - 1) + "."), env)
        else (SExpr([]), BindVars(p, env, Names(syms), args[1..]))
  }

  /** The index of the frame `def` / `=` writes to. */
  function Target(p: Primitive, env: Chain): nat
    requires |env| > 0
  {
    if p == PDef then |env| - 1 else 0
  }

  /** The binding loop writes only into its target frame; there, each name
      maps to the value at its position (names being distinct), and every
      other name keeps its value. */
  lemma {:induction false} BindVarsPositional(p: Primitive, env: Chain, ks: seq<string>, vs: seq<Value>, k: string)
    requires p == PDef || p == PPut
    requires |env| > 0 && |ks| == |vs|
    requires forall i, j :: 0 <= i < j < |ks| ==> ks[i] != ks[j]
    ensures var r := BindVars(p, env, ks, vs);
      (forall d :: 0 <= d < |env| && d != Target(p, env) ==> r[d] == env[d]) &&
      (forall i :: 0 <= i < |ks| ==> Lookup(r[Target(p, env)], ks[i]) == Some(vs[i])) &&
      (k !in ks ==> Lookup(r[Target(p, env)], k) == Lookup(env[Target(p, env)], k))
    decreases |ks|
  {
    if ks != [] {
      var t := Target(p, env);
      var e1 := BindVar(p, env, ks[0], vs[0]);
      assert e1[t] == Put(env[t], ks[0], vs[0]);
      assert forall d :: 0 <= d < |env| && d != t ==> e1[d] == env[d];
      assert Target(p, e1) == t;
      BindVarsPositional(p, e1, ks[1..], vs[1..], k);
      BindVarsPositional(p, e1, ks[1..], vs[1..], ks[0]);
      PutLookup(env[t], ks[0], vs[0], k);
      var r := BindVars(p, env, ks, vs);
      forall i | 0 <= i < |ks|
        ensures Lookup(r[t], ks[i]) == Some(vs[i])
      {
        if i > 0 {
          assert ks[i] == ks[1..][i - 1];
        }
      }
    }
  }

  /** A successful `def` / `=` returns the empty S-Expression and binds each
      Symbol of the list to the argument at its position, in its target frame
      only. */
  lemma VarBinds(p: Primitive, env: Chain, args: seq<Value>, k: string)
    requires p == PDef || p == PPut
    requires |env| > 0 && |args| > 0
    requires args[0].QExpr? && AllOfTag(args[0].cells, TSym) && |args[0].cells| == |args| - 1
    requires forall i, j :: 0 <= i < j < |args[0].cells| ==> args[0].cells[i].name != args[0].cells[j].name
    ensures var r := BuiltinVar(p, env, args); var t := Target(p, env);
      r.0 == SExpr([]) &&
      (forall d :: 0 <= d < |env| && d != t ==> r.1[d] == env[d]) &&
      (forall i :: 0 <= i < |args| - 1 ==> Lookup(r.1[t], args[0].cells[i].name) == Some(args[i + 1])) &&
      (k !in Names(args[0].cells) ==> Lookup(r.1[t], k) == Lookup(env[t], k))
  {
    var ks := Names(args[0].cells);
    assert FirstNotOfTag(args[0].cells, TSym, 0).None?;
    BindVarsPositional(p, env, ks, args[1..], k);
  }

  /** The errors of `def` / `=`, in the order the checks run; none of them
      changes the environment. */
  lemma VarErrors(p: Primitive, env: Chain, args: seq<Value>)
    requires p == PDef || p == PPut
    requires |env| > 0 && |args| > 0
    ensures !args[0].QExpr? ==> BuiltinVar(p, env, args) == (TypeError("def", 0, args[0], TQExpr), env)
    ensures args[0].QExpr? && !AllOfTag(args[0].cells, TSym) ==>
      BuiltinVar(p, env, args).0.Err? && BuiltinVar(p, env, args).1 == env
    ensures args[0].QExpr? && FirstNotOfTag(args[0].cells, TSym, 0).Some? ==>
      var i := FirstNotOfTag(args[0].cells, TSym, 0).value;
      BuiltinVar(p, env, args) ==
        (Err("Function '" + Name(p) + "' cannot define non-symbol. Got " +
             TypeName(TagOf(args[0].cells[i])) + ", Expected Symbol."), env)
    ensures args[0].QExpr? && AllOfTag(args[0].cells, TSym) && |args[0].cells| != |args| - 1 ==>
      BuiltinVar(p, env, args) ==
        (Err("Function '" + Name(p) + "' passed too many arguments for symbols. Got " +
             IntToString(|args[0].cells|) + ", Expected " + IntToString(|args| - 1) + "."), env)
  {
    if args[0].QExpr? && AllOfTag(args[0].cells, TSym) {
      assert FirstNotOfTag(args[0].cells, TSym, 0).None?;
    }
    if args[0].QExpr? && FirstNotOfTag(args[0].cells, TSym, 0).Some? {
      var i := FirstNotOfTag(args[0].cells, TSym, 0).value;
      var s := "Function '" + Name(p) + "' cannot define non-symbol. Got " + TypeName(TagOf(args[0].cells[i]));
      assert s + ", Expected " + TypeName(TSym) + "." == s + ", Expected Symbol.";
    }
  }

  // ---------------------------------------------------------------------
  // \ (builtin_lambda)

  /** `lval_lambda`: a Function with a fresh, empty closure frame. */
  function MakeLambda(formals: seq<string>, body: seq<Value>): (r: Value)
    ensures r.Lambda? && r.env == [] && r.formals == formals && r.body == body
  {
    Lambda([], formals, body)
  }

  /** `builtin_lambda`: exactly two Q-Expressions, the first holding only
      Symbols. */
  function BuiltinLambda(args: seq<Value>): Value {
    if |args| != 2 then ArityError("\\", |args|, 2)
    else if !args[0].QExpr? then TypeError("\\", 0, args[0], TQExpr)
    else if !args[1].QExpr? then TypeError("\\", 1, args[1], TQExpr)
    else
      match FirstNotOfTag(args[0].cells, TSym, 0)
      case Some(i) =>
        Err("Cannot define non-symbol. Got " + TypeName(TagOf(args[0].cells[i])) +
            ", Expected " + TypeName(TSym) + ".")
      case None => MakeLambda(Names(args[0].cells), args[1].cells)
  }

  /** `\` succeeds exactly on two Q-Expressions whose first holds only Symbols,
      and then builds a lambda with those names, that body and an empty frame. */
  lemma LambdaBuilds(args: seq<Value>)
    ensures BuiltinLambda(args).Lambda? <==>
      |args| == 2 && args[0].QExpr? && args[1].QExpr? && AllOfTag(args[0].cells, TSym)
    ensures BuiltinLambda(args).Lambda? ==>
      BuiltinLambda(args) == Lambda([], Names(args[0].cells), args[1].cells)
    ensures !BuiltinLambda(args).Lambda? ==> BuiltinLambda(args).Err?
  {
    if |args| == 2 && args[0].QExpr? && args[1].QExpr? && AllOfTag(args[0].cells, TSym) {
      assert FirstNotOfTag(args[0].cells, TSym, 0).None?;
    }
  }

  // ---------------------------------------------------------------------
  // Comparisons (builtin_ord, builtin_cmp)

  predicate IsOrd(p: Primitive) {
    p == PGt || p == PLt || p == PGe || p == PLe
  }

  function Bool(b: bool): Value {
    if b then Num(1) else Num(0)
  }

  /** `builtin_ord`: exactly two Numbers, compared by `>`, `<`, `>=` or `<=`. */
  function BuiltinOrd(p: Primitive, args: seq<Value>): Value
    requires IsOrd(p)
  {
    if |args| != 2 then ArityError(Name(p), |args|, 2)
    else if !args[0].Num? then TypeError(Name(p), 0, args[0], TNum)
    else if !args[1].Num? then TypeError(Name(p), 1, args[1], TNum)
    else
      var a, b := args[0].n, args[1].n;
      Bool(match p
           case PGt => a > b
           case PLt => a < b
           case PGe => a >= b
           case PLe => a <= b)
  }

  /** `builtin_cmp`: exactly two values of any type, compared with `lval_eq`. */
  function BuiltinCmp(p: Primitive, args: seq<Value>): Value
    requires p == PEq || p == PNe
  {
    if |args| != 2 then ArityError(Name(p), |args|, 2)
    else if p == PEq then Bool(Eq(args[0], args[1]))
    else Bool(!Eq(args[0], args[1]))
  }

  /** An ordering answers Number 1 when its relation holds between two
      Numbers, Number 0 when it does not, and an error otherwise. */
  lemma OrdAnswers(p: Primitive, args: seq<Value>)
    requires IsOrd(p)
    ensures var r := BuiltinOrd(p, args);
      r == Num(0) || r == Num(1) || r.Err?
    ensures BuiltinOrd(p, args).Err? <==> !(|args| == 2 && args[0].Num? && args[1].Num?)
    ensures |args| == 2 && args[0].Num? && args[1].Num? ==>
      (BuiltinOrd(p, args) == Num(1) <==>
        (p == PGt && args[0].n > args[1].n) || (p == PLt && args[0].n < args[1].n) ||
        (p == PGe && args[0].n >= args[1].n) || (p == PLe && args[0].n <= args[1].n))
  {
  }

  /** `==` answers 1 exactly when `lval_eq` holds, `!=` exactly when it does
      not; any other number of arguments is an error. */
  lemma CmpAnswers(p: Primitive, args: seq<Value>)
    requires p == PEq || p == PNe
    ensures BuiltinCmp(p, args).Err? <==> |args| != 2
    ensures |args| == 2 ==>
      (BuiltinCmp(p, args) == Num(1) || BuiltinCmp(p, args) == Num(0)) &&
      (BuiltinCmp(p, args) == Num(1) <==> (Eq(args[0], args[1]) <==> p == PEq))
  {
  }

  /** `==` and `!=` always disagree, and `==` is reflexive. */
  lemma CmpComplementary(a: Value, b: Value)
    ensures BuiltinCmp(PEq, [a, b]) != BuiltinCmp(PNe, [a, b])
    ensures BuiltinCmp(PEq, [a, a]) == Num(1)
  {
    EqReflexive(a);
  }

  // ---------------------------------------------------------------------
  // The checks of eval and if

  /** What an evaluating builtin goes on to evaluate after its checks, or the
      error a failed check returns. */
  datatype Checked = Pass(cells: seq<Value>) | Fail(err: Value)

  /** The checks of `builtin_eval`: exactly one Q-Expression. */
  function EvalArg(args: seq<Value>): Checked {
    if |args| != 1 then Fail(ArityError("eval", |args|, 1))
    else if !args[0].QExpr? then Fail(TypeError("eval", 0, args[0], TQExpr))
    else Pass(args[0].cells)
  }

  /** The checks of `builtin_if` and its choice: a Number and two
      Q-Expressions; a nonzero condition selects the first. */
  function IfBranch(args: seq<Value>): Checked {
    if |args| != 3 then Fail(ArityError("if", |args|, 3))
    else if !args[0].Num? then Fail(TypeError("if", 0, args[0], TNum))
    else if !args[1].QExpr? then Fail(TypeError("if", 1, args[1], TQExpr))
    else if !args[2].QExpr? then Fail(TypeError("if", 2, args[2], TQExpr))
    else if args[0].n != 0 then Pass(args[1].cells)
    else Pass(args[2].cells)
  }

  /** `if` selects one branch, and the selection does not depend on the other. */
  lemma IfSelects(c: int, t: seq<Value>, f: seq<Value>, t': seq<Value>, f': seq<Value>)
    ensures IfBranch([Num(c), QExpr(t), QExpr(f)]) == Pass(if c != 0 then t else f)
    ensures c != 0 ==> IfBranch([Num(c), QExpr(t), QExpr(f')]) == IfBranch([Num(c), QExpr(t), QExpr(f)])
    ensures c == 0 ==> IfBranch([Num(c), QExpr(t'), QExpr(f)]) == IfBranch([Num(c), QExpr(t), QExpr(f)])
  {
  }
}
