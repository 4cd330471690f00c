/** Whole-program behaviour of the interpreter on small programs, evaluated
    in any environment whose primitive names are bound to their primitives,
    as `lenv_add_builtins` leaves the global environment. */
module Scenarios {
  import opened Util
  import opened Values
  import opened Env
  import opened Builtins
  import opened Evaluator
  import opened EvalLaws

  /** Every primitive's name looks up to that primitive. */
  predicate HasBuiltins(env: Chain) {
    |env| > 0 && forall p :: Get(env, Name(p)) == Fun(p)
  }

  /** The global environment after `lenv_add_builtins` on a fresh lenv. */
  function Root(): (r: Chain)
    ensures |r| == 1
  {
    [AddBuiltins([])]
  }

  /** A one-frame chain answers what the frame binds. */
  lemma GetSingle(f: Frame, k: string, v: Value)
    requires Lookup(f, k) == Some(v)
    ensures Get([f], k) == v
  {
  }

  /** The global environment has every primitive under its name. */
  lemma RootHasBuiltins()
    ensures HasBuiltins(Root())
  {
    forall p ensures Get(Root(), Name(p)) == Fun(p) {
      BuiltinsBound([], p);
      GetSingle(AddBuiltins([]), Name(p), Fun(p));
    }
  }

  /** A frame put in front of a chain answers for the names it binds and
      passes every other name on. */
  lemma GetThroughFrame(f: Frame, env: Chain, k: string)
    requires |env| > 0
    ensures Lookup(f, k).Some? ==> Get([f] + env, k) == Lookup(f, k).value
    ensures Lookup(f, k).None? ==> Get([f] + env, k) == Get(env, k)
  {
    assert ([f] + env)[0] == f && ([f] + env)[1..] == env;
  }

  /** An S-Expression takes one unit of fuel before its cells are evaluated. */
  lemma EvalStep(env: Chain, cells: seq<Value>, fuel: nat)
    requires |env| > 0 && fuel > 0
    ensures Eval(env, SExpr(cells), fuel) == EvalSExpr(env, cells, fuel - 1)
  {
  }

  /** `EvalCells` one cell at a time. */
  lemma EvalCellsCons(env: Chain, c: Value, rest: seq<Value>, fuel: nat, v: Value, env1: Chain, vs: seq<Value>, env2: Chain)
    requires |env| > 0 && Eval(env, c, fuel) == Ok(v, env1)
    requires |env1| > 0 && EvalCells(env1, rest, fuel) == Ok(vs, env2)
    ensures EvalCells(env, [c] + rest, fuel) == Ok([v] + vs, env2)
  {
    var cells := [c] + rest;
    assert cells != [] && cells[0] == c && cells[1..] == rest;
    assert Eval(env, cells[0], fuel) == Ok(v, env1);
    assert EvalCells(env1, cells[1..], fuel) == Ok(vs, env2);
    var r := EvalCells(env, cells, fuel);
    assert r == match Eval(env, cells[0], fuel)
      case OutOfFuel => OutOfFuel
      case Ok(v', e1) =>
        match EvalCells(e1, cells[1..], fuel)
        case OutOfFuel => OutOfFuel
        case Ok(vs', e2) => Ok([v'] + vs', e2);
  }

  /** Cells that are neither Symbols nor S-Expressions evaluate to
      themselves. */
  lemma EvalCellsInert(env: Chain, cells: seq<Value>, fuel: nat)
    requires |env| > 0 && fuel > 0
    requires forall j :: 0 <= j < |cells| ==> !cells[j].Sym? && !cells[j].SExpr?
    ensures EvalCells(env, cells, fuel) == Ok(cells, env)
  {
    EvalCellsAtoms(env, cells, fuel);
    var r := EvalCells(env, cells, fuel).value;
    forall j | 0 <= j < |cells| ensures r[j] == cells[j] {
      assert r[j] == AtomValue(env, cells[j]);
    }
    assert r == cells;
  }

  /** A primitive named by its symbol, applied to cells without
      S-Expressions whose values `vals` hold no error, is the primitive
      applied to those values. */
  lemma EvalPrimCall(env: Chain, p: Primitive, args: seq<Value>, vals: seq<Value>, fuel: nat)
    requires |env| > 0 && Get(env, Name(p)) == Fun(p)
    requires fuel > 0 && |args| > 0 && |vals| == |args|
    requires forall j :: 0 <= j < |args| ==> !args[j].SExpr?
    requires forall j :: 0 <= j < |args| ==> vals[j] == AtomValue(env, args[j]) && !vals[j].Err?
    ensures EvalSExpr(env, [Sym(Name(p))] + args, fuel) == ApplyBuiltin(env, p, vals, fuel)
  {
    var cells := [Sym(Name(p))] + args;
    EvalCellsAtoms(env, cells, fuel);
    var vs := EvalCells(env, cells, fuel).value;
    assert vs[0] == Fun(p);
    forall j | 0 < j < |cells| ensures vs[j] == vals[j - 1] {
      assert cells[j] == args[j - 1];
    }
    assert vs == [Fun(p)] + vals;
    EvalSExprCalls(env, cells, fuel, vs, env);
    assert vs[1..] == vals;
  }

  /** A primitive applied to two atoms. */
  lemma EvalPrimTwo(env: Chain, p: Primitive, a: Value, b: Value, fuel: nat)
    requires |env| > 0 && Get(env, Name(p)) == Fun(p) && fuel >= 2
    requires !a.SExpr? && !b.SExpr? && !AtomValue(env, a).Err? && !AtomValue(env, b).Err?
    ensures Eval(env, SExpr([Sym(Name(p)), a, b]), fuel) ==
      ApplyBuiltin(env, p, [AtomValue(env, a), AtomValue(env, b)], fuel - 1)
  {
    var args := [a, b];
    EvalStep(env, [Sym(Name(p))] + args, fuel);
    assert [Sym(Name(p))] + args == [Sym(Name(p)), a, b];
    EvalPrimCall(env, p, args, [AtomValue(env, a), AtomValue(env, b)], fuel - 1);
  }

  /** A primitive applied to cells that evaluate to themselves. */
  lemma EvalFlat(env: Chain, p: Primitive, args: seq<Value>, fuel: nat)
    requires |env| > 0 && Get(env, Name(p)) == Fun(p) && fuel >= 2 && |args| > 0
    requires forall j :: 0 <= j < |args| ==> !args[j].Sym? && !args[j].SExpr? && !args[j].Err?
    ensures Eval(env, SExpr([Sym(Name(p))] + args), fuel) == ApplyBuiltin(env, p, args, fuel - 1)
  {
    EvalStep(env, [Sym(Name(p))] + args, fuel);
    EvalPrimCall(env, p, args, args, fuel - 1);
  }

  /** The arithmetic primitives neither evaluate nor touch the environment. */
  lemma ApplyArith(env: Chain, p: Primitive, args: seq<Value>, fuel: nat)
    requires |env| > 0 && |args| > 0 && IsArith(p)
    ensures ApplyBuiltin(env, p, args, fuel) == Ok(BuiltinOp(p, args), env)
  {
  }

  /** `(+ 1 2 3)` evaluates to `6`. */
  lemma SumExample(env: Chain, fuel: nat)
    requires HasBuiltins(env) && fuel >= 2
    ensures Eval(env, SExpr([Sym("+"), Num(1), Num(2), Num(3)]), fuel) == Ok(Num(6), env)
  {
    var args := [Num(1), Num(2), Num(3)];
    assert Get(env, Name(PAdd)) == Fun(PAdd);
    EvalFlat(env, PAdd, args, fuel);
    assert [Sym(Name(PAdd))] + args == [Sym("+"), Num(1), Num(2), Num(3)];
    ApplyArith(env, PAdd, args, fuel - 1);
    SumOneTwoThree();
  }

  lemma SumOneTwoThree()
    ensures BuiltinOp(PAdd, [Num(1), Num(2), Num(3)]) == Num(6)
  {
    var args := [Num(1), Num(2), Num(3)];
    OpSum(args);
    assert args[1..] == [Num(2), Num(3)] && args[1..][1..] == [Num(3)] && args[1..][1..][1..] == [];
    assert SumOf(args[1..][1..]) == 3;
  }

  /** `(/ 1 0)` evaluates to `Error: Division by zero.` */
  lemma DivisionByZeroExample(env: Chain)
    requires HasBuiltins(env)
    ensures Eval(env, SExpr([Sym("/"), Num(1), Num(0)]), 2) == Ok(Err("Division by zero."), env)
  {
    var args := [Num(1), Num(0)];
    assert Get(env, Name(PDiv)) == Fun(PDiv);
    EvalFlat(env, PDiv, args, 2);
    assert [Sym(Name(PDiv))] + args == [Sym("/"), Num(1), Num(0)];
    ApplyArith(env, PDiv, args, 1);
    OpDivision(args);
  }

  lemma ApplyEqual(env: Chain, args: seq<Value>, fuel: nat)
    requires |env| > 0 && |args| > 0
    ensures ApplyBuiltin(env, PEq, args, fuel) == Ok(BuiltinCmp(PEq, args), env)
  {
  }

  /** `(== {1 2 3} {1 2 3})` is `1`. */
  lemma EqualExample(env: Chain)
    requires HasBuiltins(env)
    ensures var q := QExpr([Num(1), Num(2), Num(3)]);
      Eval(env, SExpr([Sym("=="), q, q]), 2) == Ok(Num(1), env)
  {
    var q := QExpr([Num(1), Num(2), Num(3)]);
    assert Get(env, Name(PEq)) == Fun(PEq);
    EvalFlat(env, PEq, [q, q], 2);
    assert [Sym(Name(PEq))] + [q, q] == [Sym("=="), q, q];
    ApplyEqual(env, [q, q], 1);
    CmpComplementary(q, q);
  }

  /** `(== {1 2} {1 2 3})` is `0`. */
  lemma UnequalExample(env: Chain)
    requires HasBuiltins(env)
    ensures var q12, q123 := QExpr([Num(1), Num(2)]), QExpr([Num(1), Num(2), Num(3)]);
      Eval(env, SExpr([Sym("=="), q12, q123]), 2) == Ok(Num(0), env)
  {
    var q12, q123 := QExpr([Num(1), Num(2)]), QExpr([Num(1), Num(2), Num(3)]);
    assert Get(env, Name(PEq)) == Fun(PEq);
    EvalFlat(env, PEq, [q12, q123], 2);
    assert [Sym(Name(PEq))] + [q12, q123] == [Sym("=="), q12, q123];
    ApplyEqual(env, [q12, q123], 1);
    EqListIff(q12, q123);
    assert !Eq(q12, q123);
  }

  /** `(head {})` is the error naming `head` and its empty argument. */
  lemma HeadEmptyExample(env: Chain)
    requires HasBuiltins(env)
    ensures Eval(env, SExpr([Sym("head"), QExpr([])]), 2) == Ok(EmptyError("head", 0), env)
  {
    var args := [QExpr([])];
    assert Get(env, Name(PHead)) == Fun(PHead);
    EvalFlat(env, PHead, args, 2);
    assert [Sym(Name(PHead))] + args == [Sym("head"), QExpr([])];
    assert ApplyBuiltin(env, PHead, args, 1) == Ok(BuiltinHead(args), env);
  }

  /** `(join {a} {b c} {})` is `{a b c}`. */
  lemma JoinExample(env: Chain, a: Value, b: Value, c: Value)
    requires HasBuiltins(env)
    ensures Eval(env, SExpr([Sym("join"), QExpr([a]), QExpr([b, c]), QExpr([])]), 2) ==
      Ok(QExpr([a, b, c]), env)
  {
    var args := [QExpr([a]), QExpr([b, c]), QExpr([])];
    assert Get(env, Name(PJoin)) == Fun(PJoin);
    EvalFlat(env, PJoin, args, 2);
    assert [Sym(Name(PJoin))] + args == [Sym("join"), QExpr([a]), QExpr([b, c]), QExpr([])];
    assert ApplyBuiltin(env, PJoin, args, 1) == Ok(BuiltinJoin(args), env);
    JoinThree(a, b, c);
  }

  lemma JoinThree(a: Value, b: Value, c: Value)
    ensures BuiltinJoin([QExpr([a]), QExpr([b, c]), QExpr([])]) == QExpr([a, b, c])
  {
    var args := [QExpr([a]), QExpr([b, c]), QExpr([])];
    assert AllOfTag(args, TQExpr);
    assert FirstNotOfTag(args, TQExpr, 0).None?;
    assert args[1..][1..] == [QExpr([])];
    assert Concat(args[1..][1..]) == [];
    assert Concat(args[1..]) == [b, c];
    assert Concat(args) == [a, b, c];
  }

  // ---------------------------------------------------------------------
  // Binding

  /** `(def {x} n)` evaluates to `()` and defines `x` in the root frame. */
  lemma DefExample(env: Chain, n: int)
    requires HasBuiltins(env)
    ensures Eval(env, SExpr([Sym("def"), QExpr([Sym("x")]), Num(n)]), 2) ==
      Ok(SExpr([]), Def(env, "x", Num(n)))
  {
    var args := [QExpr([Sym("x")]), Num(n)];
    var cells := [Sym("def")] + args;
    assert cells == [Sym("def"), QExpr([Sym("x")]), Num(n)];
    EvalStep(env, cells, 2);
    assert Get(env, Name(PDef)) == Fun(PDef);
    EvalPrimCall(env, PDef, args, args, 1);
    SetOne(env, PDef, "x", Num(n), 1);
  }

  /** After `(def {x} n)` the symbol `x` evaluates to `n`, unless a frame
      inside the root binds `x` too. */
  lemma DefThenLookupExample(env: Chain, n: int)
    requires HasBuiltins(env)
    requires forall j :: 0 <= j < |env| - 1 ==> !Holds(env[j], "x")
    ensures var o := Eval(env, SExpr([Sym("def"), QExpr([Sym("x")]), Num(n)]), 2);
      o.Ok? && |o.env| > 0 && Eval(o.env, Sym("x"), 1) == Ok(Num(n), o.env)
  {
    DefExample(env, n);
    DefThenGet(env, "x", Num(n));
    EvalAtoms(Def(env, "x", Num(n)), Sym("x"), 1);
  }

  /** An error does not stop the cells after it: in `((/ 1 0) (def {x} n))`
      the definition still happens, and the result is the division error. */
  lemma ErrorDoesNotStopSiblings(env: Chain, n: int)
    requires HasBuiltins(env)
    ensures Eval(env, SExpr([SExpr([Sym("/"), Num(1), Num(0)]),
                             SExpr([Sym("def"), QExpr([Sym("x")]), Num(n)])]), 3) ==
      Ok(Err("Division by zero."), Def(env, "x", Num(n)))
  {
    var div := SExpr([Sym("/"), Num(1), Num(0)]);
    var def := SExpr([Sym("def"), QExpr([Sym("x")]), Num(n)]);
    DivisionByZeroExample(env);
    DefExample(env, n);
    Siblings(env, div, def, Err("Division by zero."), Def(env, "x", Num(n)), 2);
  }

  /** Two cells, the first evaluating to an error without touching the
      environment and the second to a non-error that changes it. */
  lemma Siblings(env: Chain, a: Value, b: Value, e: Value, env': Chain, fuel: nat)
    requires |env| > 0 && |env'| > 0 && e.Err?
    requires Eval(env, a, fuel) == Ok(e, env) && Eval(env, b, fuel) == Ok(SExpr([]), env')
    ensures Eval(env, SExpr([a, b]), fuel + 1) == Ok(e, env')
  {
    EvalStep(env, [a, b], fuel + 1);
    assert EvalCells(env', [], fuel) == Ok([], env');
    EvalCellsCons(env, b, [], fuel, SExpr([]), env', [], env');
    assert [b] + [] == [b] && [SExpr([])] + [] == [SExpr([])];
    EvalCellsCons(env, a, [b], fuel, e, env, [SExpr([])], env');
    assert [a] + [b] == [a, b] && [e] + [SExpr([])] == [e, SExpr([])];
    EvalSExprFirstError(env, [a, b], fuel, [e, SExpr([])], env', 0);
  }

  // ---------------------------------------------------------------------
  // Lambdas

  /** The body `{+ a b}` of the adder. */
  function AdderBody(): seq<Value> {
    [Sym("+"), Sym("a"), Sym("b")]
  }

  /** The expression `(\ {a b} {+ a b})`. */
  function AdderExpr(): Value {
    SExpr([Sym("\\"), QExpr([Sym("a"), Sym("b")]), QExpr(AdderBody())])
  }

  /** The function `(\ {a b} {+ a b})` evaluates to. */
  function Adder(): Value {
    Lambda([], ["a", "b"], AdderBody())
  }

  /** `(\ {formals} {body})` evaluates to a Lambda with an empty frame. */
  lemma MakeLambda(env: Chain, formals: seq<Value>, body: seq<Value>, fuel: nat)
    requires HasBuiltins(env) && fuel >= 2 && AllOfTag(formals, TSym)
    ensures Eval(env, SExpr([Sym("\\"), QExpr(formals), QExpr(body)]), fuel) ==
      Ok(Lambda([], Names(formals), body), env)
  {
    var args := [QExpr(formals), QExpr(body)];
    var cells := [Sym("\\")] + args;
    assert cells == [Sym("\\"), QExpr(formals), QExpr(body)];
    EvalStep(env, cells, fuel);
    assert Get(env, Name(PLambda)) == Fun(PLambda);
    EvalPrimCall(env, PLambda, args, args, fuel - 1);
    assert ApplyBuiltin(env, PLambda, args, fuel - 1) == Ok(BuiltinLambda(args), env);
    LambdaBuilds(args);
  }

  lemma MakeAdder(env: Chain, fuel: nat)
    requires HasBuiltins(env) && fuel >= 2
    ensures Eval(env, AdderExpr(), fuel) == Ok(Adder(), env)
  {
    MakeLambda(env, [Sym("a"), Sym("b")], AdderBody(), fuel);
    assert Names([Sym("a"), Sym("b")]) == ["a", "b"];
  }

  /** The frame the adder's body runs in. */
  lemma AdderFrame(x: int, y: int)
    ensures var f := [Binding("a", Num(x)), Binding("b", Num(y))];
      Lookup(f, "+").None? && Lookup(f, "a") == Some(Num(x)) && Lookup(f, "b") == Some(Num(y))
  {
    var f := [Binding("a", Num(x)), Binding("b", Num(y))];
    assert IndexFrom(f, "+", 2).None?;
    assert IndexFrom(f, "+", 1).None?;
    assert IndexFrom(f, "b", 1) == Some(1);
  }

  /** The adder's body where `+`, `a` and `b` name the primitive and two
      Numbers. */
  lemma AdderBodyIn(e: Chain, x: int, y: int, fuel: nat)
    requires |e| > 0 && fuel >= 2
    requires Get(e, "+") == Fun(PAdd) && Get(e, "a") == Num(x) && Get(e, "b") == Num(y)
    ensures Eval(e, SExpr(AdderBody()), fuel) == Ok(Num(x + y), e)
  {
    assert Name(PAdd) == "+";
    EvalPrimTwo(e, PAdd, Sym("a"), Sym("b"), fuel);
    ApplyArith(e, PAdd, [Num(x), Num(y)], fuel - 1);
    SumTwo(x, y);
  }

  lemma SumTwo(x: int, y: int)
    ensures BuiltinOp(PAdd, [Num(x), Num(y)]) == Num(x + y)
  {
    var vs := [Num(x), Num(y)];
    OpSum(vs);
    assert vs[1..] == [Num(y)] && vs[1..][1..] == [];
    assert SumOf(vs[1..][1..]) == 0;
    assert SumOf(vs[1..]) == y;
  }

  /** The adder's body in a frame binding `a` and `b` to Numbers. */
  lemma AdderBodyValue(env: Chain, x: int, y: int, fuel: nat)
    requires HasBuiltins(env) && fuel >= 2
    ensures var e := [[Binding("a", Num(x)), Binding("b", Num(y))]] + env;
      Eval(e, SExpr(AdderBody()), fuel) == Ok(Num(x + y), e)
  {
    var frame := [Binding("a", Num(x)), Binding("b", Num(y))];
    AdderFrame(x, y);
    GetThroughFrame(frame, env, "+");
    assert Get(env, Name(PAdd)) == Fun(PAdd);
    GetThroughFrame(frame, env, "a");
    GetThroughFrame(frame, env, "b");
    AdderBodyIn([frame] + env, x, y, fuel);
  }

  /** Applying the adder to two Numbers adds them, and leaves the caller's
      environment as it was. */
  lemma AdderCall(env: Chain, x: int, y: int, fuel: nat)
    requires HasBuiltins(env) && fuel >= 2
    ensures Call(env, Adder(), [Num(x), Num(y)], fuel) == Ok(Num(x + y), env)
  {
    var frame := [Binding("a", Num(x)), Binding("b", Num(y))];
    assert Put([], "a", Num(x)) == [Binding("a", Num(x))];
    assert IndexOf([Binding("a", Num(x))], "b").None?;
    assert PutAll([], ["a", "b"], [Num(x), Num(y)]) == frame;
    CallFull(env, [], ["a", "b"], AdderBody(), [Num(x), Num(y)], fuel);
    AdderBodyValue(env, x, y, fuel);
    assert ([frame] + env)[1..] == env;
  }

  /** A function value applied to cells that evaluate to themselves. */
  lemma ApplyToInert(env: Chain, fexpr: Value, fv: Value, args: seq<Value>, fuel: nat)
    requires |env| > 0 && fuel > 0 && |args| > 0 && fv.IsFunction()
    requires forall j :: 0 <= j < |args| ==> !args[j].Sym? && !args[j].SExpr? && !args[j].Err?
    requires Eval(env, fexpr, fuel) == Ok(fv, env)
    ensures Eval(env, SExpr([fexpr] + args), fuel + 1) == Call(env, fv, args, fuel)
  {
    EvalStep(env, [fexpr] + args, fuel + 1);
    EvalCellsInert(env, args, fuel);
    EvalCellsCons(env, fexpr, args, fuel, fv, env, args, env);
    var vs := [fv] + args;
    assert forall j :: 0 < j < |vs| ==> vs[j] == args[j - 1];
    EvalSExprCalls(env, [fexpr] + args, fuel, vs, env);
    assert vs[1..] == args;
  }

  /** `((\ {a b} {+ a b}) x y)` evaluates to `x + y`. */
  lemma LambdaExample(env: Chain, x: int, y: int)
    requires HasBuiltins(env)
    ensures Eval(env, SExpr([AdderExpr(), Num(x), Num(y)]), 3) == Ok(Num(x + y), env)
  {
    MakeAdder(env, 2);
    ApplyToInert(env, AdderExpr(), Adder(), [Num(x), Num(y)], 2);
    assert [AdderExpr()] + [Num(x), Num(y)] == [AdderExpr(), Num(x), Num(y)];
    AdderCall(env, x, y, 2);
  }

  /** `((\ {a b} {+ a b}) x)` is the adder partially applied: `a` is bound in
      its frame and `b` is its one formal left. */
  lemma PartialExample(env: Chain, x: int, fuel: nat)
    requires HasBuiltins(env) && fuel >= 3
    ensures Eval(env, SExpr([AdderExpr(), Num(x)]), fuel) ==
      Ok(Lambda([Binding("a", Num(x))], ["b"], AdderBody()), env)
  {
    MakeAdder(env, fuel - 1);
    ApplyToInert(env, AdderExpr(), Adder(), [Num(x)], fuel - 1);
    assert [AdderExpr()] + [Num(x)] == [AdderExpr(), Num(x)];
    CallPartial(env, [], ["a", "b"], AdderBody(), [Num(x)], fuel - 1);
    assert ["a", "b"][..1] == ["a"] && ["a", "b"][1..] == ["b"];
    assert PutAll([], ["a"], [Num(x)]) == [Binding("a", Num(x))];
  }

  /** Applying the partially applied adder to `y` finishes the sum:
      `(((\ {a b} {+ a b}) x) y)` evaluates to `x + y`. */
  lemma CurriedExample(env: Chain, x: int, y: int)
    requires HasBuiltins(env)
    ensures Eval(env, SExpr([SExpr([AdderExpr(), Num(x)]), Num(y)]), 4) == Ok(Num(x + y), env)
  {
    var partial := Lambda([Binding("a", Num(x))], ["b"], AdderBody());
    PartialExample(env, x, 3);
    ApplyToInert(env, SExpr([AdderExpr(), Num(x)]), partial, [Num(y)], 3);
    assert [SExpr([AdderExpr(), Num(x)])] + [Num(y)] == [SExpr([AdderExpr(), Num(x)]), Num(y)];
    var frame := [Binding("a", Num(x)), Binding("b", Num(y))];
    assert IndexOf([Binding("a", Num(x))], "b").None?;
    assert PutAll([Binding("a", Num(x))], ["b"], [Num(y)]) == frame;
    CallFull(env, [Binding("a", Num(x))], ["b"], AdderBody(), [Num(y)], 3);
    AdderBodyValue(env, x, y, 3);
    assert ([frame] + env)[1..] == env;
  }

  /** A body `{k}` in an environment where `k` names the non-error `v`. */
  lemma SymbolBody(e: Chain, k: string, v: Value, fuel: nat)
    requires |e| > 0 && fuel >= 2 && Get(e, k) == v && !v.Err?
    ensures Eval(e, SExpr([Sym(k)]), fuel) == Ok(v, e)
  {
    EvalStep(e, [Sym(k)], fuel);
    EvalCellsAtoms(e, [Sym(k)], fuel - 1);
    var vs := EvalCells(e, [Sym(k)], fuel - 1).value;
    assert vs[0] == v;
    EvalSExprShort(e, [Sym(k)], fuel - 1, vs, e);
  }

  /** The function `(\ {x & xs} {xs})` evaluates to. */
  function Rest(): Value {
    Lambda([], ["x", "&", "xs"], [Sym("xs")])
  }

  /** `((\ {x & xs} {xs}) p q r)`: the formal after `&` collects every
      argument past the fixed ones as a Q-Expression. */
  lemma VariadicExample(env: Chain, p: int, q: int, r: int)
    requires HasBuiltins(env)
    ensures Eval(env, SExpr([SExpr([Sym("\\"), QExpr([Sym("x"), Sym("&"), Sym("xs")]), QExpr([Sym("xs")])]),
                             Num(p), Num(q), Num(r)]), 3) ==
      Ok(QExpr([Num(q), Num(r)]), env)
  {
    var fs := [Sym("x"), Sym("&"), Sym("xs")];
    var lam := SExpr([Sym("\\"), QExpr(fs), QExpr([Sym("xs")])]);
    var args := [Num(p), Num(q), Num(r)];
    MakeLambda(env, fs, [Sym("xs")], 2);
    assert Names(fs) == ["x", "&", "xs"];
    ApplyToInert(env, lam, Rest(), args, 2);
    assert [lam] + args == [lam, Num(p), Num(q), Num(r)];
    RestCall(env, p, q, r);
  }

  lemma RestCall(env: Chain, p: int, q: int, r: int)
    requires |env| > 0
    ensures Call(env, Rest(), [Num(p), Num(q), Num(r)], 2) == Ok(QExpr([Num(q), Num(r)]), env)
  {
    var args := [Num(p), Num(q), Num(r)];
    assert ["x"] + ["&", "xs"] == ["x", "&", "xs"];
    CallVariadic(env, [], ["x"], "xs", [Sym("xs")], args, 2);
    assert args[..1] == [Num(p)] && args[1..] == [Num(q), Num(r)];
    var frame := Put(PutAll([], ["x"], [Num(p)]), "xs", QExpr([Num(q), Num(r)]));
    GetThroughFrame(frame, env, "xs");
    SymbolBody([frame] + env, "xs", QExpr([Num(q), Num(r)]), 2);
    assert ([frame] + env)[1..] == env;
  }

  // ---------------------------------------------------------------------
  // Conditionals

  /** `(> a b)` is `1` when `a > b` and `0` otherwise. */
  lemma GreaterExample(env: Chain, a: int, b: int)
    requires HasBuiltins(env)
    ensures Eval(env, SExpr([Sym(">"), Num(a), Num(b)]), 2) == Ok(Num(if a > b then 1 else 0), env)
  {
    var args := [Num(a), Num(b)];
    assert Get(env, Name(PGt)) == Fun(PGt);
    EvalFlat(env, PGt, args, 2);
    assert [Sym(Name(PGt))] + args == [Sym(">"), Num(a), Num(b)];
    ApplyGreater(env, args, 1);
    GreaterValue(a, b);
  }

  lemma ApplyGreater(env: Chain, args: seq<Value>, fuel: nat)
    requires |env| > 0 && |args| > 0
    ensures ApplyBuiltin(env, PGt, args, fuel) == Ok(BuiltinOrd(PGt, args), env)
  {
  }

  lemma GreaterValue(a: int, b: int)
    ensures BuiltinOrd(PGt, [Num(a), Num(b)]) == Num(if a > b then 1 else 0)
  {
    var args := [Num(a), Num(b)];
    assert args[0].n == a && args[1].n == b;
  }

  /** `(if (> a b) {x} {other})` with `a > b` is `x`, whatever `other`
      holds: only the selected branch is evaluated, so even a division by
      zero in the other never happens. */
  lemma IfExample(env: Chain, a: int, b: int, x: int, other: seq<Value>)
    requires HasBuiltins(env) && a > b
    ensures Eval(env, SExpr([Sym("if"), SExpr([Sym(">"), Num(a), Num(b)]),
                             QExpr([Num(x)]), QExpr(other)]), 3) ==
      Ok(Num(x), env)
  {
    GreaterExample(env, a, b);
    IfTrue(env, SExpr([Sym(">"), Num(a), Num(b)]), x, other, 2);
  }

  /** `(if test {x} other)` where `test` evaluates to `1`. */
  lemma IfTrue(env: Chain, test: Value, x: int, other: seq<Value>, fuel: nat)
    requires HasBuiltins(env) && fuel >= 2 && Eval(env, test, fuel) == Ok(Num(1), env)
    ensures Eval(env, SExpr([Sym("if"), test, QExpr([Num(x)]), QExpr(other)]), fuel + 1) == Ok(Num(x), env)
  {
    assert Get(env, Name(PIf)) == Fun(PIf);
    EvalPrimCallTest(env, PIf, test, Num(1), [Num(x)], other, fuel);
    IfTaken(env, x, other, fuel);
  }

  /** The selected branch `{x}` of an `if` whose condition holds. */
  lemma IfTaken(env: Chain, x: int, other: seq<Value>, fuel: nat)
    requires |env| > 0 && fuel >= 2
    ensures ApplyBuiltin(env, PIf, [Num(1), QExpr([Num(x)]), QExpr(other)], fuel) == Ok(Num(x), env)
  {
    IfEvaluatesSelected(env, 1, [Num(x)], [], other, fuel);
    SelfValue(env, x, fuel);
  }

  /** `(x)` for a number `x` is `x`. */
  lemma SelfValue(env: Chain, x: int, fuel: nat)
    requires |env| > 0 && fuel >= 2
    ensures Eval(env, SExpr([Num(x)]), fuel) == Ok(Num(x), env)
  {
    EvalStep(env, [Num(x)], fuel);
    EvalCellsInert(env, [Num(x)], fuel - 1);
    EvalSExprShort(env, [Num(x)], fuel - 1, [Num(x)], env);
  }

  /** A primitive called with a first argument that evaluates to a
      non-error without touching the environment, followed by two
      Q-Expressions. */
  lemma EvalPrimCallTest(env: Chain, p: Primitive, test: Value, tv: Value, b: seq<Value>, c: seq<Value>, fuel: nat)
    requires |env| > 0 && fuel > 0 && Get(env, Name(p)) == Fun(p)
    requires Eval(env, test, fuel) == Ok(tv, env) && !tv.Err?
    ensures Eval(env, SExpr([Sym(Name(p)), test, QExpr(b), QExpr(c)]), fuel + 1) ==
      Call(env, Fun(p), [tv, QExpr(b), QExpr(c)], fuel)
  {
    var cells := [Sym(Name(p)), test, QExpr(b), QExpr(c)];
    EvalStep(env, cells, fuel + 1);
    var vs := [Fun(p), tv, QExpr(b), QExpr(c)];
    CellsAfterTest(env, p, test, tv, b, c, fuel);
    EvalSExprCalls(env, cells, fuel, vs, env);
    assert vs[1..] == [tv, QExpr(b), QExpr(c)];
  }

  lemma CellsAfterTest(env: Chain, p: Primitive, test: Value, tv: Value, b: seq<Value>, c: seq<Value>, fuel: nat)
    requires |env| > 0 && fuel > 0 && Get(env, Name(p)) == Fun(p)
    requires Eval(env, test, fuel) == Ok(tv, env)
    ensures EvalCells(env, [Sym(Name(p)), test, QExpr(b), QExpr(c)], fuel) ==
      Ok([Fun(p), tv, QExpr(b), QExpr(c)], env)
  {
    var rest := [QExpr(b), QExpr(c)];
    EvalAtoms(env, Sym(Name(p)), fuel);
    EvalCellsInert(env, rest, fuel);
    EvalCellsCons(env, test, rest, fuel, tv, env, rest, env);
    EvalCellsCons(env, Sym(Name(p)), [test] + rest, fuel, Fun(p), env, [tv] + rest, env);
    assert [Sym(Name(p))] + ([test] + rest) == [Sym(Name(p)), test, QExpr(b), QExpr(c)];
    assert [Fun(p)] + ([tv] + rest) == [Fun(p), tv, QExpr(b), QExpr(c)];
  }

  // ---------------------------------------------------------------------
  // Local and global binding from inside a function

  /** `(\ {a} {<setter> {y} a})` for `=` or `def`. */
  function SetterBody(p: Primitive): seq<Value> {
    [Sym(Name(p)), QExpr([Sym("y")]), Sym("a")]
  }

  /** `(<setter> {k} v)` for `=` or `def`: `()`, with `k` bound as the
      setter says. */
  lemma SetOne(env: Chain, p: Primitive, k: string, v: Value, fuel: nat)
    requires |env| > 0 && (p == PDef || p == PPut)
    ensures ApplyBuiltin(env, p, [QExpr([Sym(k)]), v], fuel) == Ok(SExpr([]), BindVar(p, env, k, v))
  {
    var args := [QExpr([Sym(k)]), v];
    assert FirstNotOfTag([Sym(k)], TSym, 0).None?;
    assert Names([Sym(k)]) == [k];
    assert args[1..] == [v];
    assert BuiltinVar(p, env, args) == (SExpr([]), BindVars(p, env, [k], [v]));
    assert BindVars(p, env, [k], [v]) == BindVar(p, env, k, v);
  }

  /** The setter's body run in the frame `[a = n]`. */
  lemma SetterBodyValue(env: Chain, p: Primitive, n: int, fuel: nat)
    requires HasBuiltins(env) && (p == PDef || p == PPut) && fuel >= 2
    ensures var e := [[Binding("a", Num(n))]] + env;
      Eval(e, SExpr(SetterBody(p)), fuel) == Ok(SExpr([]), BindVar(p, e, "y", Num(n)))
  {
    var e := [[Binding("a", Num(n))]] + env;
    SetterFrame(env, p, n);
    EvalPrimTwo(e, p, QExpr([Sym("y")]), Sym("a"), fuel);
    SetOne(e, p, "y", Num(n), fuel - 1);
  }

  /** In the frame `[a = n]` in front of a chain with the builtins, `a` is
      `n` and the setter's name is still the builtin. */
  lemma SetterFrame(env: Chain, p: Primitive, n: int)
    requires HasBuiltins(env) && (p == PDef || p == PPut)
    ensures var e := [[Binding("a", Num(n))]] + env;
      Get(e, Name(p)) == Fun(p) && Get(e, "a") == Num(n)
  {
    var frame := [Binding("a", Num(n))];
    assert Name(p) != "a";
    assert IndexOf(frame, Name(p)).None?;
    GetThroughFrame(frame, env, Name(p));
    assert Get(env, Name(p)) == Fun(p);
    assert IndexOf(frame, "a") == Some(0);
    GetThroughFrame(frame, env, "a");
  }

  /** Calling the setter function on `n`: the frame is dropped afterwards, so
      `=` leaves the caller's chain as it was while `def` defines `y` in the
      root. */
  lemma SetterCall(env: Chain, p: Primitive, n: int, fuel: nat)
    requires HasBuiltins(env) && (p == PDef || p == PPut) && fuel >= 2
    ensures Call(env, Lambda([], ["a"], SetterBody(p)), [Num(n)], fuel) ==
      Ok(SExpr([]), if p == PDef then Def(env, "y", Num(n)) else env)
  {
    var frame := [Binding("a", Num(n))];
    var e := [frame] + env;
    assert PutAll([], ["a"], [Num(n)]) == frame;
    CallFull(env, [], ["a"], SetterBody(p), [Num(n)], fuel);
    SetterBodyValue(env, p, n, fuel);
    var e' := BindVar(p, e, "y", Num(n));
    if p == PDef {
      assert e'[1..] == Def(env, "y", Num(n));
    } else {
      assert e'[1..] == env;
    }
  }

  /** `((\ {a} {= {y} a}) n)` binds `y` only in the call's own frame, which
      is dropped: the caller's environment is unchanged. */
  lemma LocalPutExample(env: Chain, n: int)
    requires HasBuiltins(env)
    ensures Eval(env, SExpr([SExpr([Sym("\\"), QExpr([Sym("a")]), QExpr(SetterBody(PPut))]), Num(n)]), 3) ==
      Ok(SExpr([]), env)
  {
    SetterExample(env, PPut, n);
  }

  /** `((\ {a} {def {y} a}) n)` defines `y` in the global environment. */
  lemma GlobalDefExample(env: Chain, n: int)
    requires HasBuiltins(env)
    ensures Eval(env, SExpr([SExpr([Sym("\\"), QExpr([Sym("a")]), QExpr(SetterBody(PDef))]), Num(n)]), 3) ==
      Ok(SExpr([]), Def(env, "y", Num(n)))
  {
    SetterExample(env, PDef, n);
  }

  lemma SetterExample(env: Chain, p: Primitive, n: int)
    requires HasBuiltins(env) && (p == PDef || p == PPut)
    ensures Eval(env, SExpr([SExpr([Sym("\\"), QExpr([Sym("a")]), QExpr(SetterBody(p))]), Num(n)]), 3) ==
      Ok(SExpr([]), if p == PDef then Def(env, "y", Num(n)) else env)
  {
    var lam := SExpr([Sym("\\"), QExpr([Sym("a")]), QExpr(SetterBody(p))]);
    MakeLambda(env, [Sym("a")], SetterBody(p), 2);
    assert Names([Sym("a")]) == ["a"];
    ApplyToInert(env, lam, Lambda([], ["a"], SetterBody(p)), [Num(n)], 2);
    assert [lam] + [Num(n)] == [lam, Num(n)];
    SetterCall(env, p, n, 2);
  }

  // ---------------------------------------------------------------------
  // eval

  /** `(eval {+ 1 2 3})` runs the quoted expression: `6`. */
  lemma EvalQuotedExample(env: Chain)
    requires HasBuiltins(env)
    ensures Eval(env, SExpr([Sym("eval"), QExpr([Sym("+"), Num(1), Num(2), Num(3)])]), 3) == Ok(Num(6), env)
  {
    var q := QExpr([Sym("+"), Num(1), Num(2), Num(3)]);
    assert Get(env, Name(PEval)) == Fun(PEval);
    EvalFlat(env, PEval, [q], 3);
    assert [Sym(Name(PEval))] + [q] == [Sym("eval"), q];
    EvalBuiltin(env, [q], 2);
    SumExample(env, 2);
  }
}
