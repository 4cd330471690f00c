/** The tagged runtime datum `lval` (src/parser-util.c) with its structural
    equality `lval_eq`, deep copy `lval_copy`, textual rendering `lval_print`
    and the list surgery `lval_add`, `lval_pop`, `lval_take`, `lval_join`. */
module Values {
  import opened Util

  /** The primitive operations registered by `lenv_add_builtins`. A builtin
      Function value holds a C function pointer; two of them are the same
      exactly when they name the same primitive. */
  datatype Primitive =
    | PLambda | PDef | PPut
    | PList | PHead | PTail | PEval | PJoin
    | PAdd | PSub | PMul | PDiv
    | PIf | PEq | PNe | PGt | PLt | PGe | PLe

  /** The `type` field of an lval. Builtins and lambdas share `LVAL_FUN`. */
  datatype Tag = TNum | TErr | TSym | TStr | TFun | TSExpr | TQExpr

  /** An lval. A lambda owns its closure frame, its formal parameter names
      (`builtin_lambda` admits only Symbols there) and the cells of its body
      Q-Expression. Its frame has no parent: the parent link is set only while
      the lambda is being applied. */
  datatype Value =
    | Num(n: int)
    | Err(msg: string)
    | Sym(name: string)
    | Str(str: string)
    | Fun(prim: Primitive)
    | Lambda(env: Frame, formals: seq<string>, body: seq<Value>)
    | SExpr(cells: seq<Value>)
    | QExpr(cells: seq<Value>)
  {
    predicate IsList() { SExpr? || QExpr? }
    predicate IsFunction() { Fun? || Lambda? }
  }

  /** One slot of an environment frame: `syms[i]` together with `vals[i]`. */
  datatype Binding = Binding(sym: string, val: Value)

  /** An environment frame: the parallel `syms` / `vals` arrays of an lenv. */
  type Frame = seq<Binding>

  function TagOf(v: Value): Tag {
    match v
    case Num(_) => TNum
    case Err(_) => TErr
    case Sym(_) => TSym
    case Str(_) => TStr
    case Fun(_) => TFun
    case Lambda(_, _, _) => TFun
    case SExpr(_) => TSExpr
    case QExpr(_) => TQExpr
  }

  /** `ltype_name`: the name every diagnostic uses for a tag. */
  function TypeName(t: Tag): (s: string)
    ensures |s| > 0
  {
    match t
    case TFun => "Function"
    case TNum => "Number"
    case TErr => "Error"
    case TSym => "Symbol"
    case TStr => "String"
    case TSExpr => "S-Expression"
    case TQExpr => "Q-Expression"
  }

  /** Different tags get different names, so a diagnostic identifies the tag. */
  lemma TypeNameInjective(s: Tag, t: Tag)
    ensures TypeName(s) == TypeName(t) ==> s == t
  {
  }

  // ---------------------------------------------------------------------
  // lval_eq

  /** `lval_eq`: tags must agree; scalars compare by payload; builtins by
      identity; lambdas by formals and body, never by closure frame;
      lists by count and then element by element, left to right. */
  predicate Eq(x: Value, y: Value)
    decreases x
  {
    match x
    case Num(n) => y.Num? && y.n == n
    case Err(m) => y.Err? && y.msg == m
    case Sym(s) => y.Sym? && y.name == s
    case Str(s) => y.Str? && y.str == s
    case Fun(p) => y.Fun? && y.prim == p
    case Lambda(_, fs, body) =>
      y.Lambda? && y.formals == fs && |body| == |y.body| && EqFrom(body, y.body, 0)
    case SExpr(cs) => y.SExpr? && |cs| == |y.cells| && EqFrom(cs, y.cells, 0)
    case QExpr(cs) => y.QExpr? && |cs| == |y.cells| && EqFrom(cs, y.cells, 0)
  }

  /** The element loop of `lval_eq` from index `i` on: stops at the first
      unequal pair. */
  predicate EqFrom(xs: seq<Value>, ys: seq<Value>, i: nat)
    requires |xs| == |ys| && i <= |xs|
    decreases xs, |xs| - i
  {
    i == |xs| || (Eq(xs[i], ys[i]) && EqFrom(xs, ys, i + 1))
  }

  /** The element loop succeeds from `i` exactly when every later pair is equal. */
  lemma {:induction false} EqFromPairwise(xs: seq<Value>, ys: seq<Value>, i: nat)
    requires |xs| == |ys| && i <= |xs|
    ensures EqFrom(xs, ys, i) <==> forall j :: i <= j < |xs| ==> Eq(xs[j], ys[j])
    decreases |xs| - i
  {
    if i < |xs| {
      EqFromPairwise(xs, ys, i + 1);
    }
  }

  /** S- and Q-Expressions are equal exactly when they have the same tag and
      count and are pairwise equal. */
  lemma EqListIff(x: Value, y: Value)
    requires x.IsList()
    ensures Eq(x, y) <==>
      TagOf(x) == TagOf(y) && |x.cells| == |y.cells| &&
      forall j :: 0 <= j < |x.cells| ==> Eq(x.cells[j], y.cells[j])
  {
    if TagOf(x) == TagOf(y) && |x.cells| == |y.cells| {
      EqFromPairwise(x.cells, y.cells, 0);
    }
  }

  /** Values with different tags are never equal. */
  lemma EqImpliesSameTag(x: Value, y: Value)
    ensures Eq(x, y) ==> TagOf(x) == TagOf(y)
  {
  }

  /** Scalars compare by payload, builtins by identity, and a builtin never
      equals a lambda. */
  lemma EqScalars(x: Value, y: Value)
    ensures x.Num? && y.Num? ==> (Eq(x, y) <==> x.n == y.n)
    ensures x.Err? && y.Err? ==> (Eq(x, y) <==> x.msg == y.msg)
    ensures x.Sym? && y.Sym? ==> (Eq(x, y) <==> x.name == y.name)
    ensures x.Str? && y.Str? ==> (Eq(x, y) <==> x.str == y.str)
    ensures x.Fun? && y.Fun? ==> (Eq(x, y) <==> x.prim == y.prim)
    ensures x.Fun? && y.Lambda? ==> !Eq(x, y) && !Eq(y, x)
  {
  }

  /** Every value is equal to itself. */
  lemma {:induction false} EqReflexive(x: Value)
    ensures Eq(x, x)
    decreases x, 1
  {
    match x
    case Lambda(_, _, body) => EqFromReflexive(body, 0);
    case SExpr(cs) => EqFromReflexive(cs, 0);
    case QExpr(cs) => EqFromReflexive(cs, 0);
    case _ =>
  }

  lemma {:induction false} EqFromReflexive(xs: seq<Value>, i: nat)
    requires i <= |xs|
    ensures EqFrom(xs, xs, i)
    decreases xs, 0, |xs| - i
  {
    if i < |xs| {
      EqReflexive(xs[i]);
      EqFromReflexive(xs, i + 1);
    }
  }

  /** `lval_eq` is symmetric. */
  lemma {:induction false} EqSymmetric(x: Value, y: Value)
    requires Eq(x, y)
    ensures Eq(y, x)
    decreases x, 1
  {
    match x
    case Lambda(_, _, body) => EqFromSymmetric(body, y.body, 0);
    case SExpr(cs) => EqFromSymmetric(cs, y.cells, 0);
    case QExpr(cs) => EqFromSymmetric(cs, y.cells, 0);
    case _ =>
  }

  lemma {:induction false} EqFromSymmetric(xs: seq<Value>, ys: seq<Value>, i: nat)
    requires |xs| == |ys| && i <= |xs| && EqFrom(xs, ys, i)
    ensures EqFrom(ys, xs, i)
    decreases xs, 0, |xs| - i
  {
    if i < |xs| {
      EqSymmetric(xs[i], ys[i]);
      EqFromSymmetric(xs, ys, i + 1);
    }
  }

  /** `lval_eq` is transitive. */
  lemma {:induction false} EqTransitive(x: Value, y: Value, z: Value)
    requires Eq(x, y) && Eq(y, z)
    ensures Eq(x, z)
    decreases x, 1
  {
    match x
    case Lambda(_, _, body) => EqFromTransitive(body, y.body, z.body, 0);
    case SExpr(cs) => EqFromTransitive(cs, y.cells, z.cells, 0);
    case QExpr(cs) => EqFromTransitive(cs, y.cells, z.cells, 0);
    case _ =>
  }

  lemma {:induction false} EqFromTransitive(xs: seq<Value>, ys: seq<Value>, zs: seq<Value>, i: nat)
    requires |xs| == |ys| == |zs| && i <= |xs| && EqFrom(xs, ys, i) && EqFrom(ys, zs, i)
    ensures EqFrom(xs, zs, i)
    decreases xs, 0, |xs| - i
  {
    if i < |xs| {
      EqTransitive(xs[i], ys[i], zs[i]);
      EqFromTransitive(xs, ys, zs, i + 1);
    }
  }

  /** Lambdas compare by formals and body only: two lambdas that differ only
      in their closure frames are equal. */
  lemma EqLambdaIgnoresEnv(e1: Frame, e2: Frame, formals: seq<string>, body: seq<Value>)
    ensures Eq(Lambda(e1, formals, body), Lambda(e2, formals, body))
  {
    EqFromReflexive(body, 0);
  }

  /** Lambdas are equal exactly when their formals are the same and their
      bodies have the same length and are pairwise equal, whatever their
      closure frames hold. */
  lemma EqLambdaIff(e1: Frame, f1: seq<string>, b1: seq<Value>, e2: Frame, f2: seq<string>, b2: seq<Value>)
    ensures Eq(Lambda(e1, f1, b1), Lambda(e2, f2, b2)) <==>
      f1 == f2 && |b1| == |b2| && forall j :: 0 <= j < |b1| ==> Eq(b1[j], b2[j])
  {
    if |b1| == |b2| {
      EqFromPairwise(b1, b2, 0);
    }
  }

  // ---------------------------------------------------------------------
  // lval_copy / lenv_copy

  /** `lval_copy`: a deep copy. With value semantics the copy is the very same
      value, so nothing the copy undergoes can reach the original. */
  function Copy(v: Value): (r: Value)
    ensures r == v
    decreases v, 1
  {
    match v
    case Lambda(env, fs, body) => Lambda(CopyFrame(env), fs, CopyCells(body))
    case SExpr(cs) => SExpr(CopyCells(cs))
    case QExpr(cs) => QExpr(CopyCells(cs))
    case _ => v
  }

  /** The element loop of `lval_copy` on a list. */
  function CopyCells(cs: seq<Value>): (r: seq<Value>)
    ensures r == cs
    decreases cs, 0
  {
    if cs == [] then [] else [Copy(cs[0])] + CopyCells(cs[1..])
  }

  /** `lenv_copy`: copies every name and every value of a frame. */
  function CopyFrame(f: Frame): (r: Frame)
    ensures r == f
    decreases f, 0
  {
    if f == [] then [] else [Binding(f[0].sym, Copy(f[0].val))] + CopyFrame(f[1..])
  }

  /** A copy is always `lval_eq` to its original. */
  lemma CopyIsEq(x: Value)
    ensures Eq(Copy(x), x)
  {
    EqReflexive(x);
  }

  // ---------------------------------------------------------------------
  // lval_print / lval_expr_print

  /** `lval_print`, returning the text instead of writing it. */
  function Print(v: Value): string
    decreases v, 1
  {
    match v
    case Num(n) => IntToString(n)
    case Err(m) => "Error: " + m
    case Sym(s) => s
    case Str(s) => "\"" + s + "\""
    case Fun(_) => "<builtin>"
    case Lambda(_, fs, body) => "(\\ " + "{" + SpaceJoin(fs) + "}" + " " + PrintExpr(body, '{', '}') + ")"
    case SExpr(cs) => PrintExpr(cs, '(', ')')
    case QExpr(cs) => PrintExpr(cs, '{', '}')
  }

  /** `lval_expr_print`: the elements between the delimiters, separated by
      single spaces. */
  function PrintExpr(cs: seq<Value>, open: char, close: char): string
    decreases cs, 1
  {
    [open] + PrintCells(cs) + [close]
  }

  function PrintCells(cs: seq<Value>): string
    decreases cs, 0
  {
    if |cs| == 0 then ""
    else if |cs| == 1 then Print(cs[0])
    else Print(cs[0]) + " " + PrintCells(cs[1..])
  }

  /** The rendering respects `lval_eq`: equal values print the same. (It does
      not separate all unequal values: every builtin prints as `<builtin>`.) */
  lemma {:induction false} EqImpliesSamePrint(x: Value, y: Value)
    requires Eq(x, y)
    ensures Print(x) == Print(y)
    decreases x, 1
  {
    match x
    case Lambda(_, _, body) => EqCellsSamePrint(body, y.body);
    case SExpr(cs) => EqCellsSamePrint(cs, y.cells);
    case QExpr(cs) => EqCellsSamePrint(cs, y.cells);
    case _ =>
  }

  lemma {:induction false} EqCellsSamePrint(xs: seq<Value>, ys: seq<Value>)
    requires |xs| == |ys| && EqFrom(xs, ys, 0)
    ensures PrintCells(xs) == PrintCells(ys)
    decreases xs, 0
  {
    if |xs| > 0 {
      EqFromPairwise(xs, ys, 0);
      EqImpliesSamePrint(xs[0], ys[0]);
      if |xs| > 1 {
        EqFromPairwise(xs[1..], ys[1..], 0);
        EqCellsSamePrint(xs[1..], ys[1..]);
      }
    }
  }

  /** A printed list is bracketed by its tag's delimiters. */
  lemma PrintDelimiters(v: Value)
    requires v.IsList()
    ensures |Print(v)| >= 2
    ensures v.SExpr? ==> Print(v)[0] == '(' && Print(v)[|Print(v)| - 1] == ')'
    ensures v.QExpr? ==> Print(v)[0] == '{' && Print(v)[|Print(v)| - 1] == '}'
  {
  }

  // ---------------------------------------------------------------------
  // lval_add / lval_pop / lval_take / lval_join

  /** `lval_add`: appends `x` to the list `v`, keeping its tag. */
  function Add(v: Value, x: Value): (r: Value)
    requires v.IsList()
    ensures r.IsList() && TagOf(r) == TagOf(v)
    ensures |r.cells| == |v.cells| + 1 && r.cells[|v.cells|] == x
    ensures r.cells[..|v.cells|] == v.cells
  {
    if v.SExpr? then SExpr(v.cells + [x]) else QExpr(v.cells + [x])
  }

  /** `lval_pop`: removes cell `i`, returning it and the shortened list. */
  function Pop(v: Value, i: nat): (r: (Value, Value))
    requires v.IsList() && i < |v.cells|
    ensures r.1.IsList() && TagOf(r.1) == TagOf(v)
    ensures r.0 == v.cells[i]
    ensures |r.1.cells| == |v.cells| - 1
    ensures r.1.cells[..i] == v.cells[..i] && r.1.cells[i..] == v.cells[i + 1..]
  {
    var rest := v.cells[..i] + v.cells[i + 1..];
    (v.cells[i], if v.SExpr? then SExpr(rest) else QExpr(rest))
  }

  /** `lval_take`: cell `i` of the list (the rest is discarded). */
  function Take(v: Value, i: nat): (r: Value)
    requires v.IsList() && i < |v.cells|
    ensures r == v.cells[i]
  {
    Pop(v, i).0
  }

  /** Popping the cell just added gives back both the cell and the list. */
  lemma AddPopRoundTrip(v: Value, x: Value)
    requires v.IsList()
    ensures Pop(Add(v, x), |v.cells|) == (x, v)
  {
    var a := Add(v, x);
    assert a.cells[..|v.cells|] + a.cells[|v.cells| + 1..] == v.cells;
  }

  /** Popping loses nothing: the popped cell and the rest make up the list. */
  lemma PopKeepsElements(v: Value, i: nat)
    requires v.IsList() && i < |v.cells|
    ensures multiset(v.cells) == multiset(Pop(v, i).1.cells) + multiset{Pop(v, i).0}
  {
    var r := Pop(v, i).1;
    assert v.cells == v.cells[..i] + [v.cells[i]] + v.cells[i + 1..];
    assert r.cells == v.cells[..i] + v.cells[i + 1..];
  }

  /** Moving the first cell of `rest` onto the end of `r` keeps their concatenation. */
  lemma MoveFirstCell(r: Value, rest: Value)
    requires r.IsList() && rest.IsList() && |rest.cells| > 0
    ensures Add(r, Pop(rest, 0).0).cells + Pop(rest, 0).1.cells == r.cells + rest.cells
  {
    var popped := Pop(rest, 0);
    assert popped.1.cells == rest.cells[1..] by {
      assert popped.1.cells[0..] == rest.cells[1..];
    }
    assert Add(r, popped.0).cells == r.cells + [rest.cells[0]];
    ShiftOne(r.cells, rest.cells);
  }

  lemma ShiftOne(a: seq<Value>, b: seq<Value>)
    requires |b| > 0
    ensures (a + [b[0]]) + b[1..] == a + b
  {
    assert b == [b[0]] + b[1..];
  }

  /** `lval_join`: moves the cells of `y` one at a time onto the end of `x`. */
  method JoinLists(x: Value, y: Value) returns (r: Value)
    requires x.IsList() && y.IsList()
    ensures r.IsList() && TagOf(r) == TagOf(x)
    ensures r.cells == x.cells + y.cells
  {
    r := x;
    var rest := y;
    while |rest.cells| > 0
      invariant r.IsList() && TagOf(r) == TagOf(x)
      invariant rest.IsList()
      invariant r.cells + rest.cells == x.cells + y.cells
      decreases |rest.cells|
    {
      var popped := Pop(rest, 0);
      MoveFirstCell(r, rest);
      r, rest := Add(r, popped.0), popped.1;
    }
  }
}
